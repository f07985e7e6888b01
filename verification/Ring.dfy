/** The hash ring: positions, the ranges the coordinator hands out, and who is
    responsible for a hash. The arithmetic is the coordinator's own: the first
    position's range starts one past the last position and wraps, every other
    range starts one BEFORE its predecessor, so neighbouring ranges overlap.

    A ring is described by the set of its positions; nothing here depends on the
    order in which servers are listed. */
module Ring {
  const SPACE: int := 0x1_0000_0000_0000_0000_0000_0000_0000_0000

  type Hash = h: int | 0 <= h < SPACE

  /** MD5 is only ever used as a function from text to 128-bit numbers. */
  type Md5 = string -> Hash
  type Addr = string

  datatype Range = Range(start: int, end: int)

  type Metadata = map<Addr, Range>

  /** The interval test shared by server, client and coordinator. A looked-up
      number may be negative (the coordinator subtracts 2), hence int. */
  predicate InRange(r: Range, h: int) {
    if r.start < r.end then r.start <= h <= r.end else r.start <= h || h <= r.end
  }

  /** What a range leaves out: numbers on either side of it, or strictly between its end and its start
      when it wraps. A range whose bounds are equal leaves nothing out. */
  lemma OutsideIs(r: Range, h: int)
    ensures !InRange(r, h) <==> (h < r.start || r.end < h) && (r.start < r.end || r.end < h < r.start)
    ensures r.start == r.end ==> InRange(r, h)
  {
  }

  ghost function Pick<T>(s: set<T>): (x: T)
    requires s != {}
    ensures x in s
  {
    var x :| x in s; x
  }

  ghost predicate IsMax(P: set<int>, m: int) {
    m in P && forall x :: x in P ==> x <= m
  }

  ghost predicate IsMin(P: set<int>, m: int) {
    m in P && forall x :: x in P ==> m <= x
  }

  lemma {:induction false} Extremes(P: set<int>)
    requires P != {}
    ensures (exists m :: IsMax(P, m)) && (exists m :: IsMin(P, m))
  {
    var x := Pick(P);
    var Q := P - {x};
    assert forall y :: y in P ==> y == x || y in Q;
    if Q == {} {
      assert IsMax(P, x) && IsMin(P, x);
    } else {
      Extremes(Q);
      var hi, lo :| IsMax(Q, hi) && IsMin(Q, lo);
      assert IsMax(P, if hi < x then x else hi);
      assert IsMin(P, if x < lo then x else lo);
    }
  }

  ghost function Max(P: set<int>): (m: int)
    requires P != {}
    ensures IsMax(P, m)
  {
    Extremes(P);
    var m :| IsMax(P, m); m
  }

  ghost function Min(P: set<int>): (m: int)
    requires P != {}
    ensures IsMin(P, m)
  {
    Extremes(P);
    var m :| IsMin(P, m); m
  }

  ghost function Below(P: set<int>, p: int): set<int> {
    set x | x in P && x < p
  }

  ghost function AtOrAbove(P: set<int>, h: int): set<int> {
    set x | x in P && h <= x
  }

  lemma MaxIs(P: set<int>, m: int)
    requires m in P && forall x :: x in P ==> x <= m
    ensures P != {} && Max(P) == m
  {
  }

  lemma MinIs(P: set<int>, m: int)
    requires m in P && forall x :: x in P ==> m <= x
    ensures P != {} && Min(P) == m
  {
  }

  /** b is the predecessor of p on the ring. */
  lemma PredecessorIs(P: set<int>, b: int, p: int)
    requires b in P && b < p && forall x :: x in P && x < p ==> x <= b
    ensures Below(P, p) != {} && Max(Below(P, p)) == b
  {
    assert b in Below(P, p);
  }

  /** The range of the server at position p on the ring P. */
  ghost function RangeOf(P: set<int>, p: int): Range
    requires p in P
  {
    if Below(P, p) == {} then Range(Max(P) + 1, p) else Range(Max(Below(P, p)) - 1, p)
  }

  /** The clockwise successor of h: the first position at or after it, or the
      smallest position when there is none. */
  ghost function Next(P: set<int>, h: int): (p: int)
    requires P != {}
    ensures p in P
  {
    if AtOrAbove(P, h) == {} then Min(P) else Min(AtOrAbove(P, h))
  }

  /** h falls on a position or one before it. */
  ghost predicate OnEdge(P: set<int>, h: int) {
    h in P || h + 1 in P
  }

  // ---- what a range contains, case by case ------------------------------------------

  lemma RangeCases(P: set<int>, p: int, h: int)
    requires p in P
    ensures Below(P, p) == {} ==> (InRange(RangeOf(P, p), h) <==> Max(P) < h || h <= p)
    ensures Below(P, p) != {} ==> (InRange(RangeOf(P, p), h) <==> Max(Below(P, p)) - 1 <= h <= p)
  {
  }

  lemma NextCases(P: set<int>, h: int, p: int)
    requires P != {}
    ensures p == Next(P, h) <==>
              p in P && if h <= p then forall x :: x in P && h <= x ==> p <= x
                                  else (forall x :: x in P ==> p <= x && x < h)
  {
    if AtOrAbove(P, h) == {} {
      assert forall x :: x in P ==> x !in AtOrAbove(P, h);
    } else {
      assert forall x :: x in AtOrAbove(P, h) <==> x in P && h <= x;
      assert Min(AtOrAbove(P, h)) in AtOrAbove(P, h);
    }
  }

  /** The successor's range always contains the hash: every hash is served. */
  lemma Covered(P: set<int>, h: int)
    requires P != {}
    ensures InRange(RangeOf(P, Next(P, h)), h)
  {
    var p := Next(P, h);
    NextCases(P, h, p);
    RangeCases(P, p, h);
    if Below(P, p) == {} {
      assert forall x :: x in P ==> x !in Below(P, p);
    } else {
      assert Max(Below(P, p)) in Below(P, p);
    }
  }

  /** Off the edges exactly one server is responsible: the clockwise successor. */
  lemma OwnerIsNext(P: set<int>, p: int, h: int)
    requires p in P && !OnEdge(P, h)
    ensures InRange(RangeOf(P, p), h) <==> p == Next(P, h)
  {
    Covered(P, h);
    if InRange(RangeOf(P, p), h) {
      RangeCases(P, p, h);
      assert forall x :: x in P && x < p ==> x in Below(P, p);
      assert Below(P, p) != {} ==> Max(Below(P, p)) in P;
      NextCases(P, h, p);
    }
  }

  /** Exactly which hashes two servers both claim: a position that is not the
      largest, or the hash just before one. The source's comment promises that
      the predecessor's position is excluded; it is not. */
  lemma OverlapExact(P: set<int>, h: int)
    requires P != {}
    ensures (exists p, q :: p in P && q in P && p != q && InRange(RangeOf(P, p), h) && InRange(RangeOf(P, q), h))
            <==> (exists b :: b in P && b != Max(P) && (h == b || h == b - 1))
  {
    if b :| b in P && b != Max(P) && (h == b || h == b - 1) {
      EdgeIsOverlap(P, b, h);
    }
    if p, q :| p in P && q in P && p != q && InRange(RangeOf(P, p), h) && InRange(RangeOf(P, q), h) {
      if p < q { OverlapIsEdge(P, p, q, h); } else { OverlapIsEdge(P, q, p, h); }
    }
  }

  lemma EdgeIsOverlap(P: set<int>, b: int, h: int)
    requires b in P && b != Max(P) && (h == b || h == b - 1)
    ensures b + 1 <= Next(P, b + 1) && InRange(RangeOf(P, b), h) && InRange(RangeOf(P, Next(P, b + 1)), h)
  {
    var q := Next(P, b + 1);
    AfterNotLast(P, b);
    PredecessorIs(P, b, q);
    RangeCases(P, q, h);
    RangeCases(P, b, h);
    if Below(P, b) != {} { assert Max(Below(P, b)) in Below(P, b); }
  }

  lemma AfterNotLast(P: set<int>, b: int)
    requires b in P && b != Max(P)
    ensures b < Next(P, b + 1) && forall x :: x in P && x < Next(P, b + 1) ==> x <= b
  {
    NextCases(P, b + 1, Next(P, b + 1));
    assert b < Max(P);
  }

  lemma OverlapIsEdge(P: set<int>, p: int, q: int, h: int)
    requires p in P && q in P && p < q && InRange(RangeOf(P, p), h) && InRange(RangeOf(P, q), h)
    ensures exists b :: b in P && b != Max(P) && (h == b || h == b - 1)
  {
    RangeCases(P, p, h);
    RangeCases(P, q, h);
    assert p in Below(P, q);
    var b := Max(Below(P, q));
    assert b in Below(P, q);
    assert b - 1 <= h <= q && p <= b;
    assert h <= p by { if Below(P, p) == {} { assert q <= Max(P); } }
    assert h == b || h == b - 1;
    assert b < q <= Max(P);
  }

  // ---- the coordinator's lookup of a server address, at hash - 2 ---------------------

  /** Every entry matched by the shifted lookup of position q is q's clockwise
      successor (q itself when q is on the ring) if and only if the ring has one
      server or no server sits one or two positions before q. */
  lemma LookupExact(P: set<int>, q: int)
    requires P != {}
    ensures (forall p :: p in P ==> (InRange(RangeOf(P, p), q - 2) <==> p == Next(P, q)))
            <==> ((forall x, y :: x in P && y in P ==> x == y) || (q - 1 !in P && q - 2 !in P))
  {
    if (forall x, y :: x in P && y in P ==> x == y) || (q - 1 !in P && q - 2 !in P) {
      forall p | p in P ensures InRange(RangeOf(P, p), q - 2) <==> p == Next(P, q) {
        LookupUnambiguous(P, p, q);
      }
    } else {
      var b := if q - 1 in P then q - 1 else q - 2;
      LookupMisses(P, b, q);
    }
  }

  lemma LookupUnambiguous(P: set<int>, p: int, q: int)
    requires p in P
    requires (forall x, y :: x in P && y in P ==> x == y) || (q - 1 !in P && q - 2 !in P)
    ensures InRange(RangeOf(P, p), q - 2) <==> p == Next(P, q)
  {
    if q - 1 !in P && q - 2 !in P {
      OwnerIsNext(P, p, q - 2);
      NextCases(P, q, Next(P, q));
      NextCases(P, q - 2, Next(P, q));
    } else {
      assert Max(P) == p && Next(P, q) == p;
      RangeCases(P, p, q - 2);
    }
  }

  lemma LookupMisses(P: set<int>, b: int, q: int)
    requires b in P && (b == q - 1 || b == q - 2)
    requires exists x, y :: x in P && y in P && x != y
    ensures exists p :: p in P && InRange(RangeOf(P, p), q - 2) && p != Next(P, q)
  {
    if b != Max(P) {
      EdgeIsOverlap(P, b, q - 2);
    } else {
      NextCases(P, q, Next(P, q));
      RangeCases(P, b, q - 2);
      var x :| x in P && x != b;
      assert x in Below(P, b);
    }
  }

  // ---- adding and removing one position ----------------------------------------------

  /** A new position leaves every range but its successor's untouched. */
  lemma InsertIsLocal(P: set<int>, q: int, p: int)
    requires p in P && q !in P && p != Next(P, q)
    ensures RangeOf(P + {q}, p) == RangeOf(P, p)
  {
    var Q := P + {q};
    NextCases(P, q, p);
    if q < p {
      var x :| x in P && q <= x < p;
      assert x in Below(P, p) && x in Below(Q, p);
      assert Below(Q, p) == Below(P, p) + {q};
      assert Max(Below(Q, p)) == Max(Below(P, p));
    } else {
      assert Below(Q, p) == Below(P, p);
      if Below(P, p) == {} {
        assert forall x :: x in P ==> x !in Below(P, p);
        assert Max(Q) == Max(P);
      }
    }
  }

  /** The successor's range shrinks, and together with the newcomer's it still
      covers everything the successor had. */
  lemma InsertSplitsSuccessor(P: set<int>, q: int, h: int)
    requires P != {} && q !in P
    ensures InRange(RangeOf(P + {q}, Next(P, q)), h) ==> InRange(RangeOf(P, Next(P, q)), h)
    ensures InRange(RangeOf(P, Next(P, q)), h) ==>
              InRange(RangeOf(P + {q}, q), h) || InRange(RangeOf(P + {q}, Next(P, q)), h)
  {
    var Q := P + {q};
    var p := Next(P, q);
    NextCases(P, q, p);
    RangeCases(P, p, h);
    RangeCases(Q, p, h);
    RangeCases(Q, q, h);
    if q < p {
      InsertedBefore(P, q, p);
    } else {
      assert Below(P, p) == {} && Below(Q, p) == {} && Below(Q, q) == P;
      MaxIs(Q, q);
    }
  }

  lemma InsertedBefore(P: set<int>, q: int, p: int)
    requires p in P && q < p && forall x :: x in P && q <= x ==> p <= x
    requires q !in P
    ensures Below(P + {q}, p) != {} && Max(Below(P + {q}, p)) == q
    ensures Below(P + {q}, q) == Below(P, p) && Max(P + {q}) == Max(P)
  {
    PredecessorIs(P + {q}, q, p);
    MaxIs(P + {q}, Max(P));
  }

  /** h was served from position p, the last of the ring, but the successor that
      takes over on removal will not serve it: the wrapped range excludes the two
      hashes that the ordinary range included. */
  ghost predicate Stranded(P: set<int>, p: int, h: int) {
    && Below(P, p) != {}
    && p == Max(P)
    && Min(P) < h
    && (h == Max(Below(P, p)) || h == Max(Below(P, p)) - 1)
  }

  /** On removal of p its successor takes over exactly p's range, less the stranded hashes. */
  lemma RemovalExact(P: set<int>, p: int, h: int)
    requires p in P && P - {p} != {} && InRange(RangeOf(P, p), h)
    ensures InRange(RangeOf(P - {p}, Next(P - {p}, p)), h) <==> !Stranded(P, p, h)
  {
    var R := P - {p};
    var s := Next(R, p);
    NextCases(R, p, s);
    RangeCases(P, p, h);
    RangeCases(R, s, h);
    if p < s {
      assert Below(R, s) == Below(P, p);
      assert Max(R) == Max(P) by { assert Max(P) in R; assert Max(R) in P; }
      assert Max(P) != p;
    } else {
      assert Below(R, s) == {};
      assert Below(P, p) == R;
      assert forall x :: x in P ==> x == p || x in R;
      MaxIs(P, p);
      MinIs(P, s);
    }
  }

  lemma StrandedIsEdge(P: set<int>, p: int, h: int)
    requires Stranded(P, p, h)
    ensures OnEdge(P, h)
  {
    assert Max(Below(P, p)) in P;
  }

  // ---- the ring over server addresses ------------------------------------------------

  ghost function Positions(md5: Md5, addrs: set<Addr>): set<int> {
    set a | a in addrs :: md5(a)
  }

  /** The metadata for a set of servers, defined without any order on them. */
  ghost function RingOf(md5: Md5, addrs: set<Addr>): (m: Metadata)
    ensures m.Keys == addrs
  {
    map a | a in addrs :: RangeOf(Positions(md5, addrs), md5(a))
  }

  ghost predicate Distinct(md5: Md5, addrs: set<Addr>) {
    forall a, b :: a in addrs && b in addrs && md5(a) == md5(b) ==> a == b
  }

  /** Positions at least three apart. */
  ghost predicate Spread(md5: Md5, addrs: set<Addr>) {
    forall a, b :: a in addrs && b in addrs && a != b ==> md5(a) - md5(b) >= 3 || md5(b) - md5(a) >= 3
  }

  /** No server sits at position 0 (see RangeText). */
  ghost predicate OffZero(md5: Md5, addrs: set<Addr>) {
    forall a {:trigger md5(a)} :: a in addrs ==> md5(a) >= 1
  }

  /** In a strictly sorted list the ranges are read off the neighbours. */
  lemma RangeInSorted(s: seq<int>, P: set<int>, i: nat)
    requires i < |s| && P == (set x | x in s)
    requires forall j, k :: 0 <= j < k < |s| ==> s[j] < s[k]
    ensures RangeOf(P, s[i]) == if i == 0 then Range(s[|s| - 1] + 1, s[0]) else Range(s[i - 1] - 1, s[i])
  {
    if i == 0 {
      assert Below(P, s[0]) == {};
      MaxIs(P, s[|s| - 1]);
    } else {
      PredecessorIs(P, s[i - 1], s[i]);
    }
  }
}
