/** Ranges travel as text: lower-case hexadecimal bounds joined by a colon. The
    coordinator, the servers and the clients each read that text back with the
    same three steps: split at colons, put "0" in front of each bound, parse. */
module RangeText {
  import opened Wrappers
  import opened Ring
  import opened Strings

  function BoundText(i: int): string {
    if i < 0 then "-" + Digits(-i, Hex) else Digits(i, Hex)
  }

  function Text(r: Range): string {
    BoundText(r.start) + ":" + BoundText(r.end)
  }

  /** Splitting drops empty fields at the end, unless there was nothing to split. */
  function DropTrailingEmpty(f: seq<string>): seq<string> {
    if f != [] && f[|f| - 1] == "" then DropTrailingEmpty(f[..|f| - 1]) else f
  }

  function Split(s: string): seq<string> {
    if ':' in s then DropTrailingEmpty(Fields(s, ':')) else [s]
  }

  /** The common reader; None where it throws (missing field, unreadable number). The "0" that is
      put in front of a bound only matters for an empty one. */
  function Read(s: string): Option<Range> {
    var f := Split(s);
    if |f| < 2 then None
    else
      var lo, hi := Number(f[0], Hex), Number(f[1], Hex);
      if lo.Some? && hi.Some? then Some(Range(lo.value, hi.value)) else None
  }

  lemma SplitPair(x: string, y: string)
    requires ':' !in x && ':' !in y && y != ""
    ensures Split(x + ":" + y) == [x, y]
  {
    assert Join([x, y], ':') == x + ":" + y;
    FieldsOfJoin([x, y], ':');
  }

  lemma BoundHasNoColon(i: int)
    ensures ':' !in BoundText(i) && BoundText(i) != ""
  {
    DigitsAreDigits(if i < 0 then -i else i, Hex);
  }

  lemma BoundReadable(i: int)
    ensures Number(BoundText(i), Hex) == if i < 0 then None else Some(i)
  {
    if i < 0 { BadCharacterIsFatal(BoundText(i), 0, Hex); } else { NumberOfDigits(i, Hex); }
  }

  /** What the ring computation writes is read back exactly when neither bound is
      negative; a negative bound ("-1") is never readable. */
  lemma TextRoundTrip(r: Range)
    ensures Read(Text(r)) == if r.start < 0 || r.end < 0 then None else Some(r)
  {
    BoundHasNoColon(r.start);
    BoundHasNoColon(r.end);
    SplitPair(BoundText(r.start), BoundText(r.end));
    BoundReadable(r.start);
    BoundReadable(r.end);
  }

  /** The text itself: lower-case digits, no leading zeros, a colon in between. */
  lemma TextExample()
    ensures Text(Range(0xBE, 0xF0)) == "be:f0" && Text(Range(-1, 0xA9)) == "-1:a9"
  {
    DigitsExample();
    assert Digits(1, Hex) == "1";
  }

  /** A text that has no colon, or nothing behind it, is not read. */
  lemma NoUpperBound(x: string)
    requires ':' !in x
    ensures Read(x) == None && Read(x + ":") == None
  {
    assert Join([x, ""], ':') == x + ":" && (x + ":")[|x|] == ':';
    FieldsOfJoin([x, ""], ':');
    assert Fields(x + ":", ':') == [x, ""];
    Shortened(x);
  }

  lemma Shortened(x: string)
    ensures |DropTrailingEmpty([x, ""])| <= 1
  {
    var f, g := [x, ""], [x];
    assert f[..|f| - 1] == g && g[..|g| - 1] == [];
    assert DropTrailingEmpty(f) == DropTrailingEmpty(g);
    assert |DropTrailingEmpty(g)| <= 1;
  }

  lemma SplitThree(x: string, y: string, z: string)
    requires ':' !in x && ':' !in y && ':' !in z && z != ""
    ensures Split(x + ":" + y + ":" + z) == [x, y, z]
  {
    assert Join([y, z], ':') == y + ":" + z;
    assert [x, y, z][1..] == [y, z];
    assert Join([x, y, z], ':') == x + ":" + y + ":" + z;
    FieldsOfJoin([x, y, z], ':');
  }

  /** An empty lower bound is zero. */
  lemma NoLowerBound(hi: nat)
    ensures Read(":" + Digits(hi, Hex)) == Some(Range(0, hi))
  {
    BoundHasNoColon(hi);
    NumberOfDigits(hi, Hex);
    SplitPair("", Digits(hi, Hex));
    assert "" + ":" + Digits(hi, Hex) == ":" + Digits(hi, Hex);
  }

  /** What follows a second colon is ignored. */
  lemma ThirdBound(lo: nat, hi: nat, rest: string)
    requires rest != "" && ':' !in rest
    ensures Read(Digits(lo, Hex) + ":" + Digits(hi, Hex) + ":" + rest) == Some(Range(lo, hi))
  {
    BoundHasNoColon(lo);
    BoundHasNoColon(hi);
    NumberOfDigits(lo, Hex);
    NumberOfDigits(hi, Hex);
    SplitThree(Digits(lo, Hex), Digits(hi, Hex), rest);
  }

  lemma NegativeStart(P: set<int>, p: int)
    requires p in P && forall x :: x in P ==> 0 <= x
    ensures RangeOf(P, p).start < 0 <==> 0 in P && 0 < p && forall x :: x in P && x < p ==> x == 0
  {
    assert forall x :: x in P && x < p <==> x in Below(P, p);
    assert Below(P, p) != {} ==> Max(Below(P, p)) in Below(P, p);
    if 0 in P && 0 < p && forall x :: x in P && x < p ==> x == 0 {
      PredecessorIs(P, 0, p);
    }
  }

  /** Every range of a ring is readable unless the ring has a server at position 0
      and another server after it: that neighbour's range starts at -1. */
  lemma RingReadable(md5: Md5, addrs: set<Addr>)
    requires Distinct(md5, addrs)
    ensures (forall a :: a in addrs ==> Read(Text(RingOf(md5, addrs)[a])) == Some(RingOf(md5, addrs)[a]))
            <==> !(exists a, b :: a in addrs && b in addrs && a != b && md5(a) == 0)
  {
    var P := Positions(md5, addrs);
    forall a | a in addrs
      ensures Read(Text(RangeOf(P, md5(a)))) == Some(RangeOf(P, md5(a))) <==> RangeOf(P, md5(a)).start >= 0
    {
      TextRoundTrip(RangeOf(P, md5(a)));
    }
    if a :| a in addrs && RangeOf(P, md5(a)).start < 0 {
      NegativeStart(P, md5(a));
      var z :| z in addrs && md5(z) == 0;
      assert z != a;
    }
    if a, b :| a in addrs && b in addrs && a != b && md5(a) == 0 {
      UnreadableNeighbour(md5, addrs, a, b);
    }
  }

  /** Without a server at position 0 every range of every ring that can be formed travels
      unharmed, so the other modules may keep ranges as pairs of numbers. */
  lemma OffZeroReadable(md5: Md5, all: set<Addr>, addrs: set<Addr>, a: Addr)
    requires Distinct(md5, all) && OffZero(md5, all) && addrs <= all && a in addrs
    ensures Read(Text(RingOf(md5, addrs)[a])) == Some(RingOf(md5, addrs)[a])
  {
    RingReadable(md5, addrs);
  }

  lemma UnreadableNeighbour(md5: Md5, addrs: set<Addr>, a: Addr, b: Addr)
    requires Distinct(md5, addrs) && a in addrs && b in addrs && a != b && md5(a) == 0
    ensures exists c :: c in addrs && RangeOf(Positions(md5, addrs), md5(c)).start < 0
  {
    var P := Positions(md5, addrs);
    assert md5(a) in P && md5(b) in P && md5(b) > 0;
    assert Max(P) >= md5(b);
    AfterNotLast(P, 0);
    var c :| c in addrs && md5(c) == Next(P, 1);
    NegativeStart(P, md5(c));
  }

  function Repeat(c: char, n: nat): string {
    seq(n, i => c)
  }

  lemma FullText(n: nat)
    requires n > 0
    ensures Read(Repeat('0', n) + ":" + Repeat('f', n)) == Some(Range(0, Pow16(n) - 1))
  {
    SplitPair(Repeat('0', n), Repeat('f', n));
    SameDigits(Repeat('0', n), '0', 0);
    SameDigits(Repeat('f', n), 'f', 15);
  }

  /** The client starts from 32 zeros and 32 f's, which read as the whole hash space. */
  lemma InitialText()
    ensures Read(Repeat('0', 32) + ":" + Repeat('f', 32)) == Some(Range(0, SPACE - 1))
  {
    FullText(32);
    SpaceIsPow16();
  }

  lemma SpaceIsPow16()
    ensures Pow16(32) == SPACE
  {
    Pow16Add(4, 4);
    Pow16Add(8, 8);
    Pow16Add(16, 16);
    assert Pow16(4) == 0x1_0000;
  }

  lemma {:induction false} Pow16Add(m: nat, n: nat)
    ensures Pow16(m + n) == Pow16(m) * Pow16(n)
  {
    if m > 0 { Pow16Add(m - 1, n); }
  }

  function Pow16(n: nat): nat {
    if n == 0 then 1 else 16 * Pow16(n - 1)
  }

  lemma {:induction false} SameDigits(s: string, c: char, d: nat)
    requires DigitValue(c, Hex) == Some(d) && (d == 0 || d == 15) && forall i :: 0 <= i < |s| ==> s[i] == c
    ensures Number(s, Hex) == Some(if d == 0 then 0 else Pow16(|s|) - 1)
  {
    if s != "" { SameDigits(s[..|s| - 1], c, d); }
  }
}
