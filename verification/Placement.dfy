/** Where keys are stored, and what adding and removing servers does to them: every
    server keeps to its own range, and no pair is lost or duplicated, except exactly
    the pairs that a removal strands. */
module Placement {
  import opened Wrappers
  import opened Ring
  import opened Storage
  import opened Server
  import opened Cluster

  ghost predicate Placed(md5: Md5, ring: Metadata, s: ServerState) {
    s.addr in ring && forall k :: k in s.store ==> InRange(ring[s.addr], md5(k))
  }

  /** An active server that knows the ring, is not in a transfer and keeps to its range. */
  ghost predicate Serving(md5: Md5, ring: Metadata, s: ServerState) {
    s.running && !s.locked && s.metadata == Some(ring) && s.pending == {} && Placed(md5, ring, s)
  }

  /** What server a must look like on the ring of the live servers. */
  ghost predicate Standing(md5: Md5, live: set<Addr>, a: Addr, s: ServerState) {
    && s.addr == a && GoodStore(s.store)
    && if a in live then Serving(md5, RingOf(md5, live), s) else s == Down(a)
  }

  /** The live servers form the ring of their addresses; all others are down and empty. */
  ghost predicate Steady(md5: Md5, servers: map<Addr, ServerState>, live: set<Addr>) {
    live <= servers.Keys && forall a :: a in servers ==> Standing(md5, live, a, servers[a])
  }

  /** No transfer is under way and every active server knows the current ring and stores
      only keys of its own range; idle servers are down and empty. Servers may be stopped. */
  ghost predicate Settled(md5: Md5, c: Cluster) {
    && Listed(c)
    && (c.active != [] ==> c.metadata == RingOf(md5, Addrs(c.active)))
    && Steady(md5, c.servers, Addrs(c.active))
  }

  ghost predicate Started(servers: map<Addr, ServerState>, live: set<Addr>) {
    forall a :: a in live && a in servers ==> !servers[a].stopped
  }

  /** Every stored pair is in g. */
  ghost predicate Within(servers: map<Addr, ServerState>, g: Store) {
    forall a, k :: a in servers && k in servers[a].store ==> k in g && g[k] == servers[a].store[k]
  }

  /** Every key of g is stored somewhere. */
  ghost predicate Everywhere(servers: map<Addr, ServerState>, g: Store) {
    forall k :: k in g ==> exists a :: a in servers && k in servers[a].store
  }

  /** No key is stored twice. */
  ghost predicate Separate(servers: map<Addr, ServerState>) {
    forall a, b, k :: a in servers && b in servers && k in servers[a].store && k in servers[b].store ==> a == b
  }

  /** g is the disjoint union of all stores. */
  ghost predicate Holds(servers: map<Addr, ServerState>, g: Store) {
    Within(servers, g) && Everywhere(servers, g) && Separate(servers)
  }

  lemma SameStores(x: map<Addr, ServerState>, y: map<Addr, ServerState>, g: Store)
    requires x.Keys == y.Keys && forall a :: a in x ==> x[a].store == y[a].store
    requires Holds(x, g)
    ensures Holds(y, g)
  {
    forall k | k in g ensures exists a :: a in y && k in y[a].store {
      var a :| a in x && k in x[a].store;
      assert a in y;
    }
  }

  lemma BroadcastHolds(servers: map<Addr, ServerState>, addrs: set<Addr>, ring: Metadata, g: Store)
    requires Holds(servers, g)
    ensures Holds(Broadcast(servers, addrs, ring), g)
  {
    SameStores(servers, Broadcast(servers, addrs, ring), g);
  }

  // ---- moving data -------------------------------------------------------------------

  /** The selected keys that the target refuses; the sender flushes them all the same. */
  ghost function Refused(md5: Md5, servers: map<Addr, ServerState>, source: Addr, target: Addr, range: Range)
    : set<string>
    requires source in servers && target in servers
  {
    set k | k in Selected(md5, servers[source], range) && !Accepts(md5, servers[target], k)
  }

  /** The stores after a move. */
  lemma MoveStores(md5: Md5, servers: map<Addr, ServerState>, source: Addr, target: Addr, range: Range)
    requires source in servers && target in servers && source != target && servers[source].pending == {}
    ensures var after := Moved(md5, servers, source, target, range);
            var s, t, selected := servers[source], servers[target], Selected(md5, servers[source], range);
            && after.Keys == servers.Keys
            && after[source] == s.(locked := false, store := s.store - selected)
            && after[target] == t.(store := t.store + Taken(md5, s.store, t, selected))
            && (forall a :: a in servers && a != source && a != target ==> after[a] == servers[a])
  {
    assert {} + Selected(md5, servers[source], range) == Selected(md5, servers[source], range);
  }

  /** A move keeps every pair except exactly the refused ones. */
  lemma MoveConserves(md5: Md5, servers: map<Addr, ServerState>, source: Addr, target: Addr, range: Range, g: Store)
    requires source in servers && target in servers && source != target && servers[source].pending == {}
    requires Holds(servers, g)
    ensures Holds(Moved(md5, servers, source, target, range), g - Refused(md5, servers, source, target, range))
  {
    MoveStores(md5, servers, source, target, range);
    var after := Moved(md5, servers, source, target, range);
    var refused := Refused(md5, servers, source, target, range);
    var taken := Taken(md5, servers[source].store, servers[target], Selected(md5, servers[source], range));
    assert forall k :: k in taken ==> k in servers[source].store && k !in servers[target].store;
    assert Handover(servers, after, source, target, refused);
    HandoverKeeps(servers, after, source, target, refused, g);
    HandoverSeparates(servers, after, source, target, refused);
  }

  /** a holds k afterwards because it did before, or because the source handed k to it. */
  ghost predicate Explained(servers: map<Addr, ServerState>, after: map<Addr, ServerState>,
                            source: Addr, target: Addr, refused: set<string>, a: Addr, k: string)
    requires source in servers && source in after && a in servers && a in after && k in after[a].store
  {
    || (k in servers[a].store && after[a].store[k] == servers[a].store[k] && (a == source ==> k !in refused))
    || (a == target && k in servers[source].store && after[a].store[k] == servers[source].store[k]
        && k !in after[source].store && k !in refused)
  }

  /** Every key of the source stays, is refused, or turns up at the target; nothing else changes. */
  ghost predicate Handover(servers: map<Addr, ServerState>, after: map<Addr, ServerState>,
                           source: Addr, target: Addr, refused: set<string>) {
    && after.Keys == servers.Keys && source in servers && target in servers && source != target
    && refused <= servers[source].store.Keys
    && (forall a, k :: a in after && k in after[a].store ==> Explained(servers, after, source, target, refused, a, k))
    && (forall a, k :: a in servers && k in servers[a].store && k !in refused ==>
          k in after[a].store || (a == source && k in after[target].store))
  }

  lemma HandoverKeeps(servers: map<Addr, ServerState>, after: map<Addr, ServerState>,
                      source: Addr, target: Addr, refused: set<string>, g: Store)
    requires Handover(servers, after, source, target, refused) && Holds(servers, g)
    ensures Within(after, g - refused) && Everywhere(after, g - refused)
  {
    forall a, k | a in after && k in after[a].store
      ensures k in g - refused && (g - refused)[k] == after[a].store[k]
    {
      assert Explained(servers, after, source, target, refused, a, k);
    }
    forall k | k in g - refused ensures exists a :: a in after && k in after[a].store {
      var a :| a in servers && k in servers[a].store;
      assert k in after[a].store || k in after[target].store;
    }
  }

  lemma HandoverSeparates(servers: map<Addr, ServerState>, after: map<Addr, ServerState>,
                          source: Addr, target: Addr, refused: set<string>)
    requires Handover(servers, after, source, target, refused) && Separate(servers)
    ensures Separate(after)
  {
    forall a, b, k | a in after && b in after && k in after[a].store && k in after[b].store ensures a == b {
      assert Explained(servers, after, source, target, refused, a, k);
      assert Explained(servers, after, source, target, refused, b, k);
    }
  }

  // ---- the coordinator's lookups -------------------------------------------------------

  /** With positions at least three apart a lookup finds exactly the clockwise successor;
      for a server that is on the ring, that is the server itself. */
  lemma FoundIsNext(md5: Md5, all: set<Addr>, addrs: set<Addr>, a: Addr, entry: Addr)
    requires Spread(md5, all) && addrs <= all && a in all && entry in addrs
    ensures Found(md5, RingOf(md5, addrs), a, entry) <==> md5(entry) == Next(Positions(md5, addrs), md5(a))
    ensures a in addrs ==> (Found(md5, RingOf(md5, addrs), a, entry) <==> entry == a)
  {
    var P := Positions(md5, addrs);
    assert md5(entry) in P;
    LookupUnambiguous(P, md5(entry), md5(a));
    if a in addrs {
      assert md5(a) in P;
      NextCases(P, md5(a), md5(a));
    }
  }

  /** Some entry is always found. */
  lemma FoundExists(md5: Md5, addrs: set<Addr>, a: Addr)
    requires addrs != {}
    ensures exists entry :: Found(md5, RingOf(md5, addrs), a, entry)
  {
    var b := Pick(addrs);
    var P := Positions(md5, addrs);
    assert md5(b) in P;
    Covered(P, md5(a) - 2);
    var entry :| entry in addrs && md5(entry) == Next(P, md5(a) - 2);
    assert Found(md5, RingOf(md5, addrs), a, entry);
  }

  lemma PositionsPlus(md5: Md5, addrs: set<Addr>, a: Addr)
    ensures Positions(md5, addrs + {a}) == Positions(md5, addrs) + {md5(a)}
  {
    assert forall p :: p in Positions(md5, addrs) + {md5(a)} ==> p in Positions(md5, addrs + {a}) by {
      assert a in addrs + {a};
    }
  }

  lemma PositionsMinus(md5: Md5, addrs: set<Addr>, a: Addr)
    requires a in addrs && Distinct(md5, addrs)
    ensures Positions(md5, addrs - {a}) == Positions(md5, addrs) - {md5(a)}
    ensures md5(a) in Positions(md5, addrs)
  {
    forall p ensures p in Positions(md5, addrs - {a}) <==> p in Positions(md5, addrs) && p != md5(a) {
      if p in Positions(md5, addrs) && p != md5(a) {
        var b :| b in addrs && md5(b) == p;
        assert b in addrs - {a};
      }
    }
  }

  /** Reconfiguration is local: one address more changes only its successor's range. */
  lemma RingGrows(md5: Md5, addrs: set<Addr>, a: Addr, b: Addr)
    requires a !in addrs && b in addrs && Distinct(md5, addrs + {a})
    requires md5(b) in Positions(md5, addrs) && md5(b) != Next(Positions(md5, addrs), md5(a))
    ensures RingOf(md5, addrs + {a})[b] == RingOf(md5, addrs)[b]
  {
    PositionsPlus(md5, addrs, a);
    assert md5(b) in Positions(md5, addrs);
    assert md5(a) !in Positions(md5, addrs);
    InsertIsLocal(Positions(md5, addrs), md5(a), md5(b));
  }

  // ---- joining -------------------------------------------------------------------------

  /** The new server n is given its share of the successor's keys; only the stores matter here. */
  ghost predicate Sharing(servers: map<Addr, ServerState>, n: Addr, succ: Addr, ring: Metadata) {
    && n in servers && succ in servers && n != succ && n in ring
    && servers[n] == Down(n) && servers[succ].pending == {} && !servers[succ].locked
    && GoodStore(servers[succ].store)
  }

  /** The new server takes everything it is offered. */
  lemma NewServerAccepts(md5: Md5, servers: map<Addr, ServerState>, n: Addr, succ: Addr, ring: Metadata)
    requires Sharing(servers, n, succ, ring)
    ensures Refused(md5, Booted(servers, n, ring), succ, n, ring[n]) == {}
    ensures forall k :: k in Selected(md5, servers[succ], ring[n]) ==> Accepts(md5, Booted(servers, n, ring)[n], k)
  {
    var t := Booted(servers, n, ring)[n];
    assert Knows(t) && t.metadata.value[t.addr] == ring[n];
  }

  /** The servers right after the new server's share has been moved to it. */
  ghost function Shared(md5: Md5, servers: map<Addr, ServerState>, n: Addr, succ: Addr, ring: Metadata)
    : map<Addr, ServerState>
    requires n in servers && succ in servers && n in ring
  {
    Moved(md5, Booted(servers, n, ring), succ, n, ring[n])
  }

  /** The new server ends up with exactly the successor's keys of its range. */
  lemma SharedStores(md5: Md5, servers: map<Addr, ServerState>, n: Addr, succ: Addr, ring: Metadata)
    requires Sharing(servers, n, succ, ring)
    ensures var after := Shared(md5, servers, n, succ, ring);
            var selected := Selected(md5, servers[succ], ring[n]);
            && after.Keys == servers.Keys
            && after[n] == Booted(servers, n, ring)[n].(store := map k | k in selected :: servers[succ].store[k])
            && after[succ] == servers[succ].(store := servers[succ].store - selected)
            && (forall a :: a in servers && a != n && a != succ ==> after[a] == servers[a])
  {
    var booted := Booted(servers, n, ring);
    var selected := Selected(md5, servers[succ], ring[n]);
    var share := map k | k in selected :: servers[succ].store[k];
    MoveStores(md5, booted, succ, n, ring[n]);
    NewServerAccepts(md5, servers, n, succ, ring);
    assert Taken(md5, servers[succ].store, booted[n], selected) == share;
    assert booted[n].store + share == share;
  }

  lemma JoinHolds(md5: Md5, servers: map<Addr, ServerState>, n: Addr, succ: Addr, ring: Metadata, g: Store)
    requires Sharing(servers, n, succ, ring) && Holds(servers, g)
    ensures Holds(Joined(md5, servers, n, ring, succ, n), g)
  {
    SameStores(servers, Booted(servers, n, ring), g);
    NewServerAccepts(md5, servers, n, succ, ring);
    MoveConserves(md5, Booted(servers, n, ring), succ, n, ring[n], g);
    assert g - {} == g;
    BroadcastHolds(Shared(md5, servers, n, succ, ring), ring.Keys, ring, g);
  }

  /** n may join the live servers, and succ is its clockwise successor among them. */
  ghost predicate Joining(md5: Md5, live: set<Addr>, n: Addr, succ: Addr) {
    && Distinct(md5, live + {n}) && n !in live && succ in live
    && md5(succ) in Positions(md5, live) && md5(succ) == Next(Positions(md5, live), md5(n))
  }

  /** A hash served by a before the join is still served by a, or moved from succ to n. */
  lemma JoinRanges(md5: Md5, live: set<Addr>, n: Addr, succ: Addr, a: Addr, h: int)
    requires Joining(md5, live, n, succ) && a in live && InRange(RingOf(md5, live)[a], h)
    ensures InRange(RingOf(md5, live + {n})[a], h) || (a == succ && InRange(RingOf(md5, live + {n})[n], h))
  {
    assert md5(a) in Positions(md5, live);
    if a == succ {
      PositionsPlus(md5, live, n);
      assert md5(n) !in Positions(md5, live);
      InsertSplitsSuccessor(Positions(md5, live), md5(n), h);
    } else {
      assert md5(a) != md5(succ);
      RingGrows(md5, live, n, a);
    }
  }

  lemma SteadyIsSharing(md5: Md5, servers: map<Addr, ServerState>, live: set<Addr>, n: Addr, succ: Addr)
    requires Steady(md5, servers, live) && n in servers && n !in live && succ in live
    ensures succ in servers && Sharing(servers, n, succ, RingOf(md5, live + {n}))
  {
    assert Standing(md5, live, succ, servers[succ]) && Standing(md5, live, n, servers[n]);
  }

  /** A join, server by server. */
  lemma JoinedAre(md5: Md5, servers: map<Addr, ServerState>, n: Addr, succ: Addr, ring: Metadata)
    requires Sharing(servers, n, succ, ring) && succ in ring
    ensures JoinEffect(md5, servers, n, succ, ring, Joined(md5, servers, n, ring, succ, n))
  {
    SharedStores(md5, servers, n, succ, ring);
  }

  ghost predicate JoinEffect(md5: Md5, servers: map<Addr, ServerState>, n: Addr, succ: Addr, ring: Metadata,
                             after: map<Addr, ServerState>)
    requires n in servers && succ in servers && n in ring
  {
    var selected := Selected(md5, servers[succ], ring[n]);
    && after.Keys == servers.Keys
    && after[n] == Down(n).(running := true, stopped := false, metadata := Some(ring),
                            store := map k | k in selected :: servers[succ].store[k])
    && after[succ] == servers[succ].(metadata := Some(ring), store := servers[succ].store - selected)
    && (forall a :: a in servers && a in ring && a != succ && a != n ==>
          after[a] == servers[a].(metadata := Some(ring)))
    && (forall a :: a in servers && a !in ring ==> after[a] == servers[a])
  }

  lemma JoinPlaced(md5: Md5, servers: map<Addr, ServerState>, live: set<Addr>, n: Addr, succ: Addr,
                   after: map<Addr, ServerState>, a: Addr, k: string)
    requires Joining(md5, live, n, succ) && n in servers && succ in servers && a in servers && a in live + {n}
    requires JoinEffect(md5, servers, n, succ, RingOf(md5, live + {n}), after) && k in after[a].store
    requires a in live ==> servers[a].addr == a && Placed(md5, RingOf(md5, live), servers[a])
    ensures InRange(RingOf(md5, live + {n})[a], md5(k))
    ensures a in live ==> k in servers[a].store && after[a].store[k] == servers[a].store[k]
  {
    if a in live {
      JoinRanges(md5, live, n, succ, a, md5(k));
    }
  }

  lemma JoinStanding(md5: Md5, servers: map<Addr, ServerState>, live: set<Addr>, n: Addr, succ: Addr,
                     after: map<Addr, ServerState>, a: Addr)
    requires Steady(md5, servers, live) && Joining(md5, live, n, succ) && n in servers && succ in servers
    requires JoinEffect(md5, servers, n, succ, RingOf(md5, live + {n}), after) && a in servers
    ensures Standing(md5, live + {n}, a, after[a])
    ensures (a in live ==> after[a].stopped == servers[a].stopped) && (a == n ==> !after[a].stopped)
  {
    assert Standing(md5, live, a, servers[a]);
    if a in live + {n} {
      forall k | k in after[a].store
        ensures InRange(RingOf(md5, live + {n})[a], md5(k))
        ensures a in live ==> k in servers[a].store && after[a].store[k] == servers[a].store[k]
      {
        JoinPlaced(md5, servers, live, n, succ, after, a, k);
      }
      if a == n {
        assert Standing(md5, live, succ, servers[succ]);
      }
    }
  }

  lemma JoinSteadyFrom(md5: Md5, servers: map<Addr, ServerState>, live: set<Addr>, n: Addr, succ: Addr,
                       after: map<Addr, ServerState>)
    requires Steady(md5, servers, live) && Joining(md5, live, n, succ) && n in servers && succ in servers
    requires JoinEffect(md5, servers, n, succ, RingOf(md5, live + {n}), after)
    ensures Steady(md5, after, live + {n}) && (Started(servers, live) ==> Started(after, live + {n}))
  {
    forall a | a in servers
      ensures Standing(md5, live + {n}, a, after[a])
      ensures (a in live ==> after[a].stopped == servers[a].stopped) && (a == n ==> !after[a].stopped)
    {
      JoinStanding(md5, servers, live, n, succ, after, a);
    }
  }

  /** A join keeps the placement invariant. */
  lemma JoinSteady(md5: Md5, servers: map<Addr, ServerState>, live: set<Addr>, n: Addr, succ: Addr)
    requires Steady(md5, servers, live) && Joining(md5, live, n, succ) && n in servers && succ in servers
    ensures var after := Joined(md5, servers, n, RingOf(md5, live + {n}), succ, n);
            Steady(md5, after, live + {n}) && after.Keys == servers.Keys
            && (Started(servers, live) ==> Started(after, live + {n}))
  {
    SteadyIsSharing(md5, servers, live, n, succ);
    JoinedAre(md5, servers, n, succ, RingOf(md5, live + {n}));
    JoinSteadyFrom(md5, servers, live, n, succ, Joined(md5, servers, n, RingOf(md5, live + {n}), succ, n));
  }

  // ---- leaving -------------------------------------------------------------------------

  /** Server n leaves, and succ is its clockwise successor among the others. */
  ghost predicate Parting(md5: Md5, live: set<Addr>, n: Addr, succ: Addr) {
    && Distinct(md5, live) && n in live && succ in live - {n}
    && md5(n) in Positions(md5, live) && md5(succ) in Positions(md5, live - {n})
    && md5(succ) == Next(Positions(md5, live - {n}), md5(n))
  }

  /** The keys a departure loses: all of them when the successor is stopped, otherwise the
      stranded ones. */
  ghost function Lost(md5: Md5, servers: map<Addr, ServerState>, live: set<Addr>, n: Addr, succ: Addr): set<string>
    requires n in servers && succ in servers && md5(n) in Positions(md5, live)
  {
    set k | k in servers[n].store
            && (servers[succ].stopped || Stranded(Positions(md5, live), md5(n), md5(k)))
  }

  /** The remaining servers keep every hash they served. */
  lemma PartRanges(md5: Md5, live: set<Addr>, n: Addr, succ: Addr, a: Addr, h: int)
    requires Parting(md5, live, n, succ) && a in live - {n} && InRange(RingOf(md5, live)[a], h)
    ensures InRange(RingOf(md5, live - {n})[a], h)
  {
    PositionsMinus(md5, live, n);
    var R := Positions(md5, live - {n});
    assert R + {md5(n)} == Positions(md5, live);
    assert md5(a) in R;
    if a == succ {
      InsertSplitsSuccessor(R, md5(n), h);
    } else {
      assert md5(a) != md5(succ);
      InsertIsLocal(R, md5(n), md5(a));
    }
  }

  /** The successor takes over exactly the hashes of the leaver that are not stranded. */
  lemma PartTakes(md5: Md5, live: set<Addr>, n: Addr, succ: Addr, h: int)
    requires Parting(md5, live, n, succ) && InRange(RingOf(md5, live)[n], h)
    ensures InRange(RingOf(md5, live - {n})[succ], h) <==> !Stranded(Positions(md5, live), md5(n), h)
  {
    PositionsMinus(md5, live, n);
    RemovalExact(Positions(md5, live), md5(n), h);
  }

  ghost function ToldOf(md5: Md5, servers: map<Addr, ServerState>, live: set<Addr>, n: Addr, succ: Addr)
    : map<Addr, ServerState>
    requires succ in servers
  {
    servers[succ := servers[succ].(metadata := Some(RingOf(md5, live - {n})))]
  }

  /** What the successor refuses is exactly what is lost; everything the leaver has is selected. */
  lemma RefusedIsLost(md5: Md5, servers: map<Addr, ServerState>, live: set<Addr>, n: Addr, succ: Addr)
    requires Steady(md5, servers, live) && Parting(md5, live, n, succ)
    ensures succ in servers && n in servers
    ensures Selected(md5, servers[n], RingOf(md5, live)[n]) == servers[n].store.Keys
    ensures Refused(md5, ToldOf(md5, servers, live, n, succ), n, succ, RingOf(md5, live)[n])
            == Lost(md5, servers, live, n, succ)
  {
    assert Standing(md5, live, n, servers[n]) && Standing(md5, live, succ, servers[succ]);
    var t := ToldOf(md5, servers, live, n, succ)[succ];
    assert Knows(t) && t.metadata.value[t.addr] == RingOf(md5, live - {n})[succ];
    forall k | k in servers[n].store
      ensures Accepts(md5, t, k) <==> k !in Lost(md5, servers, live, n, succ)
    {
      PartTakes(md5, live, n, succ, md5(k));
    }
  }

  /** A departure, server by server: the successor gained the pairs in taken. */
  ghost predicate PartEffect(servers: map<Addr, ServerState>, live: set<Addr>, n: Addr, succ: Addr, ring: Metadata,
                             taken: Store, after: map<Addr, ServerState>)
    requires n in servers && succ in servers
  {
    && after.Keys == servers.Keys && after[n] == Down(n)
    && after[succ] == servers[succ].(metadata := Some(ring), store := servers[succ].store + taken)
    && (forall a :: a in live - {n} && a in servers && a != succ ==> after[a] == servers[a].(metadata := Some(ring)))
    && (forall a :: a in servers && a !in live ==> after[a] == servers[a])
  }

  lemma PartedStores(md5: Md5, servers: map<Addr, ServerState>, live: set<Addr>, n: Addr, succ: Addr)
    requires Steady(md5, servers, live) && Parting(md5, live, n, succ)
    ensures succ in servers && n in servers
    ensures PartEffect(servers, live, n, succ, RingOf(md5, live - {n}),
                       servers[n].store - Lost(md5, servers, live, n, succ),
                       Parted(md5, servers, n, RingOf(md5, live)[n], RingOf(md5, live - {n}), succ))
  {
    RefusedIsLost(md5, servers, live, n, succ);
    assert Standing(md5, live, n, servers[n]);
    PartedAre(md5, servers, live, n, succ, RingOf(md5, live)[n], RingOf(md5, live - {n}));
  }

  lemma PartedAre(md5: Md5, servers: map<Addr, ServerState>, live: set<Addr>, n: Addr, succ: Addr,
                  range: Range, ring: Metadata)
    requires n in live && succ in live - {n} && live <= servers.Keys && ring.Keys == live - {n}
    requires servers[n].pending == {} && Selected(md5, servers[n], range) == servers[n].store.Keys
    ensures var told := servers[succ := servers[succ].(metadata := Some(ring))];
            PartEffect(servers, live, n, succ, ring, servers[n].store - Refused(md5, told, n, succ, range),
                       Parted(md5, servers, n, range, ring, succ))
  {
    var told := servers[succ := servers[succ].(metadata := Some(ring))];
    MoveStores(md5, told, n, succ, range);
    TakenUnlessRefused(md5, told, n, succ, range);
  }

  lemma TakenUnlessRefused(md5: Md5, servers: map<Addr, ServerState>, source: Addr, target: Addr, range: Range)
    requires source in servers && target in servers
    requires Selected(md5, servers[source], range) == servers[source].store.Keys
    ensures Taken(md5, servers[source].store, servers[target], servers[source].store.Keys)
            == servers[source].store - Refused(md5, servers, source, target, range)
  {
  }

  /** A departure keeps every pair except exactly the lost ones. */
  lemma PartHolds(md5: Md5, servers: map<Addr, ServerState>, live: set<Addr>, n: Addr, succ: Addr, g: Store)
    requires Steady(md5, servers, live) && Parting(md5, live, n, succ) && Holds(servers, g)
    ensures succ in servers && n in servers
    ensures Holds(Parted(md5, servers, n, RingOf(md5, live)[n], RingOf(md5, live - {n}), succ),
                  g - Lost(md5, servers, live, n, succ))
  {
    RefusedIsLost(md5, servers, live, n, succ);
    assert Standing(md5, live, n, servers[n]);
    var told := ToldOf(md5, servers, live, n, succ);
    SameStores(servers, told, g);
    MoveConserves(md5, told, n, succ, RingOf(md5, live)[n], g);
    EmptyLeaver(md5, servers, n, succ, RingOf(md5, live)[n], RingOf(md5, live - {n}),
                g - Lost(md5, servers, live, n, succ));
  }

  /** Shutting down a server whose keys have all been flushed changes no store. */
  lemma EmptyLeaver(md5: Md5, servers: map<Addr, ServerState>, n: Addr, succ: Addr, range: Range, ring: Metadata,
                    g: Store)
    requires n in servers && succ in servers && n != succ && servers[n].pending == {}
    requires Selected(md5, servers[n], range) == servers[n].store.Keys
    requires Holds(Moved(md5, servers[succ := servers[succ].(metadata := Some(ring))], n, succ, range), g)
    ensures Holds(Parted(md5, servers, n, range, ring, succ), g)
  {
    var told := servers[succ := servers[succ].(metadata := Some(ring))];
    var moved := Moved(md5, told, n, succ, range);
    MoveStores(md5, told, n, succ, range);
    assert moved[n].store == map[];
    SameStores(moved, Parted(md5, servers, n, range, ring, succ), g);
  }

  /** Keys found at a server after a departure lie in its range of the smaller ring. */
  lemma PartPlaced(md5: Md5, servers: map<Addr, ServerState>, live: set<Addr>, n: Addr, succ: Addr, a: Addr, k: string)
    requires Steady(md5, servers, live) && Parting(md5, live, n, succ) && a in live - {n}
    requires k in servers[a].store || (a == succ && k in servers[n].store - Lost(md5, servers, live, n, succ))
    ensures InRange(RingOf(md5, live - {n})[a], md5(k))
  {
    if k in servers[a].store {
      assert Standing(md5, live, a, servers[a]);
      PartRanges(md5, live, n, succ, a, md5(k));
    } else {
      assert Standing(md5, live, n, servers[n]);
      PartTakes(md5, live, n, succ, md5(k));
    }
  }

  lemma PartStanding(md5: Md5, servers: map<Addr, ServerState>, live: set<Addr>, n: Addr, succ: Addr,
                     a: Addr, s: ServerState)
    requires Steady(md5, servers, live) && Parting(md5, live, n, succ) && a in live - {n}
    requires a in servers && n in servers && succ in servers
    requires s == servers[a].(metadata := Some(RingOf(md5, live - {n})), store :=
                    if a == succ then servers[a].store + (servers[n].store - Lost(md5, servers, live, n, succ))
                    else servers[a].store)
    ensures Standing(md5, live - {n}, a, s)
  {
    assert Standing(md5, live, a, servers[a]);
    forall k | k in s.store
      ensures InRange(RingOf(md5, live - {n})[a], md5(k)) && ValidKey(k) && !IsDelete(Some(s.store[k]))
    {
      PartPlaced(md5, servers, live, n, succ, a, k);
      if k !in servers[a].store {
        assert Standing(md5, live, n, servers[n]);
      }
    }
  }

  /** A departure keeps the placement invariant and leaves the departed server empty. */
  lemma PartSteady(md5: Md5, servers: map<Addr, ServerState>, live: set<Addr>, n: Addr, succ: Addr)
    requires Steady(md5, servers, live) && Parting(md5, live, n, succ)
    ensures succ in servers && n in servers
    ensures var after := Parted(md5, servers, n, RingOf(md5, live)[n], RingOf(md5, live - {n}), succ);
            Steady(md5, after, live - {n}) && after.Keys == servers.Keys
            && (Started(servers, live) ==> Started(after, live - {n}))
  {
    PartedStores(md5, servers, live, n, succ);
    PartSteadyFrom(md5, servers, live, n, succ,
                   Parted(md5, servers, n, RingOf(md5, live)[n], RingOf(md5, live - {n}), succ));
  }

  lemma PartSteadyFrom(md5: Md5, servers: map<Addr, ServerState>, live: set<Addr>, n: Addr, succ: Addr,
                       after: map<Addr, ServerState>)
    requires Steady(md5, servers, live) && Parting(md5, live, n, succ)
    requires n in servers && succ in servers
    requires PartEffect(servers, live, n, succ, RingOf(md5, live - {n}),
                        servers[n].store - Lost(md5, servers, live, n, succ), after)
    ensures Steady(md5, after, live - {n}) && (Started(servers, live) ==> Started(after, live - {n}))
  {
    forall a | a in after
      ensures Standing(md5, live - {n}, a, after[a]) && (a in live - {n} ==> after[a].stopped == servers[a].stopped)
    {
      if a in live - {n} {
        PartStanding(md5, servers, live, n, succ, a, after[a]);
      } else {
        assert Standing(md5, live, a, servers[a]);
      }
    }
  }
}
