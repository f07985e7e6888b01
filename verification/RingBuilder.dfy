/** The coordinator's ring computation: hash every address, sort the hashes, and read each
    server's range off its neighbour in the sorted list. */
module RingBuilder {
  import opened Ring
  import opened Cluster

  predicate Ascending(s: seq<int>) {
    forall i, j :: 0 <= i < j < |s| ==> s[i] <= s[j]
  }

  predicate NoRepeats(s: seq<int>) {
    forall i, j :: 0 <= i < j < |s| ==> s[i] != s[j]
  }

  function Elements(s: seq<int>): set<int> {
    set x | x in s
  }

  function Insert(x: int, s: seq<int>): seq<int> {
    if s == [] || x <= s[0] then [x] + s else [s[0]] + Insert(x, s[1..])
  }

  /** The library sort, as a function. */
  function Sorted(s: seq<int>): seq<int> {
    if s == [] then [] else Insert(s[0], Sorted(s[1..]))
  }

  lemma {:induction false} InsertMembers(x: int, s: seq<int>, y: int)
    ensures y in Insert(x, s) <==> y == x || y in s
  {
    if s != [] && s[0] < x {
      InsertMembers(x, s[1..], y);
      assert s == [s[0]] + s[1..];
    }
  }

  lemma {:induction false} InsertAscends(x: int, s: seq<int>)
    requires Ascending(s)
    ensures Ascending(Insert(x, s)) && |Insert(x, s)| == |s| + 1
  {
    if s != [] && s[0] < x {
      InsertAscends(x, s[1..]);
      var rest := Insert(x, s[1..]);
      forall j | 0 <= j < |rest| ensures s[0] <= rest[j] {
        InsertMembers(x, s[1..], rest[j]);
      }
    }
  }

  lemma {:induction false} InsertNoRepeats(x: int, s: seq<int>)
    requires NoRepeats(s) && x !in s
    ensures NoRepeats(Insert(x, s))
  {
    if s != [] && s[0] < x {
      InsertNoRepeats(x, s[1..]);
      InsertMembers(x, s[1..], s[0]);
    }
  }

  lemma {:induction false} SortedMembers(s: seq<int>, y: int)
    ensures y in Sorted(s) <==> y in s
  {
    if s != [] {
      SortedMembers(s[1..], y);
      InsertMembers(s[0], Sorted(s[1..]), y);
      assert s == [s[0]] + s[1..];
    }
  }

  /** Sorting keeps the elements and their number; a list without repeats comes out strictly ascending. */
  lemma {:induction false} SortedCorrect(s: seq<int>)
    ensures Ascending(Sorted(s)) && |Sorted(s)| == |s| && Elements(Sorted(s)) == Elements(s)
    ensures NoRepeats(s) ==> NoRepeats(Sorted(s))
  {
    forall y ensures y in Sorted(s) <==> y in s {
      SortedMembers(s, y);
    }
    if s != [] {
      SortedCorrect(s[1..]);
      InsertAscends(s[0], Sorted(s[1..]));
      if NoRepeats(s) {
        SortedMembers(s[1..], s[0]);
        InsertNoRepeats(s[0], Sorted(s[1..]));
      }
    }
  }

  ghost predicate Collisionless(md5: Md5, nodes: seq<Node>) {
    UniqueAddrs(nodes) && Distinct(md5, Addrs(nodes))
  }

  /** The hashes of the nodes in list order, and for each hash one node that has it. */
  ghost predicate Hashed(md5: Md5, nodes: seq<Node>, hashes: seq<int>, owner: map<int, Addr>) {
    && |hashes| == |nodes| && (forall i :: 0 <= i < |nodes| ==> hashes[i] == md5(nodes[i].addr))
    && owner.Keys == Elements(hashes)
    && Owners(md5, owner, Addrs(nodes))
  }

  lemma HashedPositions(md5: Md5, nodes: seq<Node>, hashes: seq<int>, owner: map<int, Addr>)
    requires Hashed(md5, nodes, hashes, owner)
    ensures Elements(hashes) == Positions(md5, Addrs(nodes))
    ensures Collisionless(md5, nodes) ==> NoRepeats(hashes)
    ensures Collisionless(md5, nodes) ==> forall a :: a in Addrs(nodes) ==> md5(a) in owner && owner[md5(a)] == a
  {
    forall h | h in Positions(md5, Addrs(nodes)) ensures h in hashes {
      var n :| n in nodes && md5(n.addr) == h;
      var i :| 0 <= i < |nodes| && nodes[i] == n;
      assert hashes[i] == h;
    }
    forall h | h in hashes ensures h in Positions(md5, Addrs(nodes)) {
      var i :| 0 <= i < |nodes| && hashes[i] == h;
      assert nodes[i] in nodes && nodes[i].addr in Addrs(nodes);
    }
    if Collisionless(md5, nodes) {
      forall i, j | 0 <= i < j < |nodes| ensures hashes[i] != hashes[j] {
        assert nodes[i].addr in Addrs(nodes) && nodes[j].addr in Addrs(nodes);
      }
      forall a | a in Addrs(nodes) ensures md5(a) in owner && owner[md5(a)] == a {
        assert md5(a) in Positions(md5, Addrs(nodes));
      }
    }
  }

  method HashNodes(md5: Md5, nodes: seq<Node>) returns (hashes: seq<int>, owner: map<int, Addr>)
    ensures Hashed(md5, nodes, hashes, owner)
  {
    hashes, owner := [], map[];
    for i := 0 to |nodes|
      invariant |hashes| == i && forall j :: 0 <= j < i ==> hashes[j] == md5(nodes[j].addr)
      invariant owner.Keys == Elements(hashes)
      invariant forall h :: h in owner ==> owner[h] in Addrs(nodes) && md5(owner[h]) == h
    {
      var addr := nodes[i].addr;
      assert nodes[i] in nodes;
      hashes := hashes + [md5(addr)];
      owner := owner[md5(addr) := addr];
    }
  }

  /** The range read off at index i of the sorted list. */
  function NeighbourRange(sorted: seq<int>, i: nat): Range
    requires i < |sorted|
  {
    if i == 0 then Range(sorted[|sorted| - 1] + 1, sorted[0]) else Range(sorted[i - 1] - 1, sorted[i])
  }

  /** The owners are told apart by their hashes, and all belong to addrs. */
  ghost predicate Owners(md5: Md5, owner: map<int, Addr>, addrs: set<Addr>) {
    forall h :: h in owner ==> owner[h] in addrs && md5(owner[h]) == h
  }

  /** The first i owners have their ranges. */
  ghost predicate ReadTo(sorted: seq<int>, owner: map<int, Addr>, metadata: Metadata, i: nat)
    requires i <= |sorted| && forall j :: 0 <= j < |sorted| ==> sorted[j] in owner
  {
    forall j :: 0 <= j < i ==>
      owner[sorted[j]] in metadata && metadata[owner[sorted[j]]] == NeighbourRange(sorted, j)
  }

  lemma ReadOne(md5: Md5, owner: map<int, Addr>, addrs: set<Addr>, sorted: seq<int>, metadata: Metadata, i: nat)
    requires Owners(md5, owner, addrs) && NoRepeats(sorted) && i < |sorted|
    requires forall j :: 0 <= j < |sorted| ==> sorted[j] in owner
    requires ReadTo(sorted, owner, metadata, i)
    ensures ReadTo(sorted, owner, metadata[owner[sorted[i]] := NeighbourRange(sorted, i)], i + 1)
  {
    forall j | 0 <= j < i ensures owner[sorted[i]] != owner[sorted[j]] {
      OwnersApart(md5, owner, addrs, sorted, i, j);
    }
  }

  lemma OwnersApart(md5: Md5, owner: map<int, Addr>, addrs: set<Addr>, sorted: seq<int>, i: nat, j: nat)
    requires Owners(md5, owner, addrs) && NoRepeats(sorted) && j < i < |sorted|
    requires sorted[i] in owner && sorted[j] in owner
    ensures owner[sorted[i]] != owner[sorted[j]]
  {
  }

  method BuildRanges(sorted: seq<int>, owner: map<int, Addr>, ghost md5: Md5, ghost addrs: set<Addr>)
    returns (metadata: Metadata)
    requires Owners(md5, owner, addrs) && forall i :: 0 <= i < |sorted| ==> sorted[i] in owner
    ensures metadata.Keys <= addrs
    ensures NoRepeats(sorted) ==> forall j :: 0 <= j < |sorted| ==>
              owner[sorted[j]] in metadata && metadata[owner[sorted[j]]] == NeighbourRange(sorted, j)
  {
    metadata := map[];
    for i := 0 to |sorted|
      invariant metadata.Keys <= addrs
      invariant NoRepeats(sorted) ==> ReadTo(sorted, owner, metadata, i)
    {
      var predecessor := if i == 0 then |sorted| - 1 else i - 1;
      var start := if i == 0 then sorted[predecessor] + 1 else sorted[predecessor] - 1;
      if NoRepeats(sorted) {
        ReadOne(md5, owner, addrs, sorted, metadata, i);
      }
      metadata := metadata[owner[sorted[i]] := Range(start, sorted[i])];
    }
  }

  lemma ReadOff(md5: Md5, addrs: set<Addr>, sorted: seq<int>, owner: map<int, Addr>, metadata: Metadata)
    requires Elements(sorted) == Positions(md5, addrs) && Ascending(sorted) && NoRepeats(sorted)
    requires forall j :: 0 <= j < |sorted| ==> sorted[j] in owner
    requires forall a :: a in addrs ==> md5(a) in owner && owner[md5(a)] == a
    requires metadata.Keys <= addrs
    requires forall j :: 0 <= j < |sorted| ==>
               owner[sorted[j]] in metadata && metadata[owner[sorted[j]]] == NeighbourRange(sorted, j)
    ensures metadata == RingOf(md5, addrs)
  {
    forall a | a in addrs ensures a in metadata && metadata[a] == RingOf(md5, addrs)[a] {
      assert md5(a) in Elements(sorted);
      var j :| 0 <= j < |sorted| && sorted[j] == md5(a);
      RangeInSorted(sorted, Positions(md5, addrs), j);
    }
  }

  /** For nodes whose addresses and hashes are all different the result is the ring of their
      addresses, whatever the order of the list. */
  method CalcMetadata(md5: Md5, nodes: seq<Node>) returns (metadata: Metadata)
    ensures Collisionless(md5, nodes) ==> metadata == RingOf(md5, Addrs(nodes))
  {
    var hashes, owner := HashNodes(md5, nodes);
    HashedPositions(md5, nodes, hashes, owner);
    SortedCorrect(hashes);
    var sorted := Sorted(hashes);
    forall j | 0 <= j < |sorted| ensures sorted[j] in owner {
      assert sorted[j] in Elements(sorted);
    }
    metadata := BuildRanges(sorted, owner, md5, Addrs(nodes));
    if Collisionless(md5, nodes) {
      ReadOff(md5, Addrs(nodes), sorted, owner, metadata);
    }
  }
}
