/** How often a request can be redirected, for every hash and whatever the client has cached: in a
    steady cluster, and in every state that addNode goes through from launching the new process
    and removeNode from telling the successor, in whatever order the ring is spread. */
module Redirects {
  import opened Wrappers
  import opened Ring
  import opened Server
  import opened Cluster
  import opened Placement
  import opened Client

  /** The running servers are exactly those of live, each with the metadata that view gives it.
      A server need not find itself in its metadata. */
  ghost predicate Viewing(servers: map<Addr, ServerState>, live: set<Addr>, view: Addr -> Option<Metadata>) {
    && (forall a :: Live(servers, a) <==> a in live)
    && (forall a :: a in live ==> servers[a].addr == a && servers[a].metadata == view(a))
  }

  /** Every hash is in some range of a ring. */
  lemma RingCovers(md5: Md5, live: set<Addr>, h: int)
    requires live != {}
    ensures exists b :: b in RingOf(md5, live) && InRange(RingOf(md5, live)[b], h)
  {
    var P := Positions(md5, live);
    assert md5(Pick(live)) in P;
    Covered(P, h);
    var b :| b in live && md5(b) == Next(P, h);
    assert InRange(RingOf(md5, live)[b], h);
  }

  /** All servers on one level: a redirect never leads to another redirect. */
  ghost function Lowest(): Addr -> nat {
    a => 0
  }

  // ---- steady cluster ------------------------------------------------------------------

  lemma SteadyRanked(md5: Md5, servers: map<Addr, ServerState>, live: set<Addr>, h: int)
    requires live != {} && Viewing(servers, live, a => Some(RingOf(md5, live)))
    ensures Ranked(servers, h, Lowest(), 0)
  {
    RingCovers(md5, live, h);
    forall a | Stuck(servers, h, a) ensures StepsDown(servers, h, Lowest(), a) {
      assert Live(servers, a);
    }
  }

  /** A steady cluster redirects a request at most once. */
  lemma SteadyRedirects(md5: Md5, servers: map<Addr, ServerState>, live: set<Addr>, current: Addr, cache: Metadata,
                        m: KVMsg, trace: seq<Addr>, servers': map<Addr, ServerState>, o: Outcome)
    requires live != {} && Viewing(servers, live, a => Some(RingOf(md5, live)))
    requires Exchange(md5, servers, current, cache, m, trace, servers', o)
    ensures |trace| - 1 <= 1
  {
    SteadyRanked(md5, servers, live, md5(m.key));
    RedirectBound(md5, servers, current, cache, m, trace, servers', o, Lowest(), 0);
  }

  /** A client that was redirected in a steady cluster has the ring. */
  lemma RedirectedHasRing(md5: Md5, servers: map<Addr, ServerState>, live: set<Addr>, current: Addr, cache: Metadata,
                          m: KVMsg, trace: seq<Addr>, servers': map<Addr, ServerState>, o: Outcome, metadata: Metadata)
    requires Viewing(servers, live, a => Some(RingOf(md5, live)))
    requires Exchange(md5, servers, current, cache, m, trace, servers', o) && |trace| > 1
    requires Keeps(servers, cache, trace, metadata)
    ensures metadata == RingOf(md5, live)
  {
    assert Hop(md5, servers, current, cache, m, trace, |trace| - 2);
  }

  /** With the ring in its cache a client is never redirected, whatever the key. */
  lemma RingIsDirect(md5: Md5, servers: map<Addr, ServerState>, live: set<Addr>, current: Addr, cache: Metadata,
                     m: KVMsg, trace: seq<Addr>, servers': map<Addr, ServerState>, o: Outcome)
    requires live != {} && Viewing(servers, live, a => Some(RingOf(md5, live))) && cache == RingOf(md5, live)
    requires Exchange(md5, servers, current, cache, m, trace, servers', o)
    ensures |trace| == 1
  {
    RingCovers(md5, live, md5(m.key));
    assert Hop(md5, servers, current, cache, m, trace, 0) && Live(servers, trace[0]);
    assert !Redirects(md5, servers[trace[0]], m);
    assert |trace| > 1 ==> Hop(md5, servers, current, cache, m, trace, 1);
  }

  /** In a steady cluster every request that reaches a live server is answered. */
  lemma SteadyAnswers(md5: Md5, servers: map<Addr, ServerState>, live: set<Addr>, current: Addr, cache: Metadata,
                      m: KVMsg, a: Addr)
    returns (trace: seq<Addr>, servers': map<Addr, ServerState>, o: Outcome)
    requires Viewing(servers, live, a => Some(RingOf(md5, live)))
    requires Live(servers, a) && Routes(md5, cache, current, m.key, a)
    ensures Exchange(md5, servers, current, cache, m, trace, servers', o)
  {
    var last;
    if Redirects(md5, servers[a], m) {
      RingCovers(md5, live, md5(m.key));
      last :| last in RingOf(md5, live) && InRange(RingOf(md5, live)[last], md5(m.key));
      assert Live(servers, last);
      trace := [a, last];
    } else {
      last := a;
      trace := [a];
    }
    servers', o := servers[last := ServeSpec(md5, servers[last], m).0], ServeSpec(md5, servers[last], m).1;
    assert forall i :: 0 <= i < |trace| ==> Hop(md5, servers, current, cache, m, trace, i);
  }

  // ---- in the middle of addNode ----------------------------------------------------------

  /** What a newcomer's ring gives a server, the old ring gave it too. */
  lemma GrownRingIsSmaller(md5: Md5, live: set<Addr>, n: Addr, b: Addr, h: int)
    requires Distinct(md5, live + {n}) && n !in live && b in live
    requires InRange(RingOf(md5, live + {n})[b], h)
    ensures InRange(RingOf(md5, live)[b], h)
  {
    var P := Positions(md5, live);
    PositionsPlus(md5, live, n);
    assert md5(b) in P && md5(n) !in P;
    if md5(b) == Next(P, md5(n)) {
      InsertSplitsSuccessor(P, md5(n), h);
    } else {
      RingGrows(md5, live, n, b);
    }
  }

  /** The new server has no metadata until it is initialised, and has its ring before anyone else
      is told. */
  ghost function JoinView(md5: Md5, live: set<Addr>, n: Addr, initialised: bool, updated: set<Addr>)
    : Addr -> Option<Metadata>
  {
    a => if a == n && !initialised then None
         else if a == n || a in updated then Some(RingOf(md5, live + {n})) else Some(RingOf(md5, live))
  }

  ghost function JoinRank(n: Addr, updated: set<Addr>): Addr -> nat {
    a => if a == n || a in updated then 0 else 1
  }

  /** One redirect from a to b: either b does not redirect, or b hands out the new ring while a
      did not. */
  lemma JoiningStep(md5: Md5, servers: map<Addr, ServerState>, live: set<Addr>, n: Addr, initialised: bool,
                    updated: set<Addr>, h: int, a: Addr, b: Addr)
    requires n !in live && Distinct(md5, live + {n}) && (!initialised ==> updated == {})
    requires Viewing(servers, live + {n}, JoinView(md5, live, n, initialised, updated)) && Stuck(servers, h, a)
    requires b in servers[a].metadata.value && InRange(servers[a].metadata.value[b], h)
    ensures Live(servers, b)
    ensures Stuck(servers, h, b) ==> !(a == n || a in updated) && (b == n || b in updated)
  {
    assert Live(servers, a);
    assert b in live + {n} && Live(servers, b);
    if initialised && (a == n || a in updated) && b != n {
      GrownRingIsSmaller(md5, live, n, b, h);
    }
  }

  lemma JoiningDescends(md5: Md5, servers: map<Addr, ServerState>, live: set<Addr>, n: Addr, initialised: bool,
                        updated: set<Addr>, h: int, a: Addr)
    requires live != {} && n !in live && Distinct(md5, live + {n}) && (!initialised ==> updated == {})
    requires Viewing(servers, live + {n}, JoinView(md5, live, n, initialised, updated)) && Stuck(servers, h, a)
    ensures StepsDown(servers, h, JoinRank(n, updated), a) && JoinRank(n, updated)(a) <= 1
  {
    RingCovers(md5, live, h);
    RingCovers(md5, live + {n}, h);
    assert Live(servers, a);
    var m := servers[a].metadata.value;
    forall b | b in m && InRange(m[b], h)
      ensures Live(servers, b)
      ensures Stuck(servers, h, b) ==> JoinRank(n, updated)(b) < JoinRank(n, updated)(a)
    {
      JoiningStep(md5, servers, live, n, initialised, updated, h, a, b);
    }
  }

  lemma JoiningRanked(md5: Md5, servers: map<Addr, ServerState>, live: set<Addr>, n: Addr, initialised: bool,
                      updated: set<Addr>, h: int)
    requires live != {} && n !in live && Distinct(md5, live + {n}) && (!initialised ==> updated == {})
    requires Viewing(servers, live + {n}, JoinView(md5, live, n, initialised, updated))
    ensures Ranked(servers, h, JoinRank(n, updated), 1)
  {
    forall a | Stuck(servers, h, a) ensures StepsDown(servers, h, JoinRank(n, updated), a) {
      JoiningDescends(md5, servers, live, n, initialised, updated, h, a);
    }
  }

  /** From the launch of the new server on, and while addNode spreads the new ring, in any order
      and to any subset of servers, a request is redirected at most twice. */
  lemma JoiningRedirects(md5: Md5, servers: map<Addr, ServerState>, live: set<Addr>, n: Addr, initialised: bool,
                         updated: set<Addr>, current: Addr, cache: Metadata, m: KVMsg, trace: seq<Addr>,
                         servers': map<Addr, ServerState>, o: Outcome)
    requires live != {} && n !in live && Distinct(md5, live + {n}) && (!initialised ==> updated == {})
    requires Viewing(servers, live + {n}, JoinView(md5, live, n, initialised, updated))
    requires Exchange(md5, servers, current, cache, m, trace, servers', o)
    ensures |trace| - 1 <= 2
  {
    JoiningRanked(md5, servers, live, n, initialised, updated, md5(m.key));
    RedirectBound(md5, servers, current, cache, m, trace, servers', o, JoinRank(n, updated), 1);
  }

  // ---- in the middle of removeNode -------------------------------------------------------

  /** The leaver is told along with the others, at its own place in the list of active nodes;
      the ring it is told does not contain it. */
  ghost function PartView(md5: Md5, live: set<Addr>, n: Addr, updated: set<Addr>): Addr -> Option<Metadata> {
    a => if a in updated then Some(RingOf(md5, live - {n})) else Some(RingOf(md5, live))
  }

  /** Only the successor's range differs between the two rings. */
  lemma ShrunkRingElsewhere(md5: Md5, live: set<Addr>, n: Addr, succ: Addr, b: Addr)
    requires Parting(md5, live, n, succ) && b in live - {n} && b != succ
    ensures RingOf(md5, live - {n})[b] == RingOf(md5, live)[b]
  {
    assert live - {n} + {n} == live;
    assert md5(b) in Positions(md5, live - {n}) && md5(b) != md5(succ);
    RingGrows(md5, live - {n}, n, b);
  }

  /** One redirect from a to b: b does not redirect again. */
  lemma PartingStep(md5: Md5, servers: map<Addr, ServerState>, live: set<Addr>, n: Addr, succ: Addr,
                    updated: set<Addr>, h: int, a: Addr, b: Addr)
    requires Parting(md5, live, n, succ) && succ in updated
    requires Viewing(servers, live, PartView(md5, live, n, updated)) && Stuck(servers, h, a)
    requires b in servers[a].metadata.value && InRange(servers[a].metadata.value[b], h)
    ensures Live(servers, b) && !Stuck(servers, h, b)
  {
    assert Live(servers, a);
    assert b in live && Live(servers, b);
    if b in updated {
      if a !in updated && b != n { PartRanges(md5, live, n, succ, b, h); }
    } else if a in updated {
      ShrunkRingElsewhere(md5, live, n, succ, b);
    }
  }

  lemma PartingRanked(md5: Md5, servers: map<Addr, ServerState>, live: set<Addr>, n: Addr, succ: Addr,
                      updated: set<Addr>, h: int)
    requires Parting(md5, live, n, succ) && succ in updated
    requires Viewing(servers, live, PartView(md5, live, n, updated))
    ensures Ranked(servers, h, Lowest(), 0)
  {
    RingCovers(md5, live, h);
    RingCovers(md5, live - {n}, h);
    forall a | Stuck(servers, h, a) ensures StepsDown(servers, h, Lowest(), a) {
      assert Live(servers, a);
      var m := servers[a].metadata.value;
      forall b | b in m && InRange(m[b], h) ensures Live(servers, b) && !Stuck(servers, h, b) {
        PartingStep(md5, servers, live, n, succ, updated, h, a, b);
      }
    }
  }

  /** Once the successor knows the smaller ring, and while removeNode spreads it to any subset of
      servers, the leaver among them or not, a request is redirected at most once. */
  lemma PartingRedirects(md5: Md5, servers: map<Addr, ServerState>, live: set<Addr>, n: Addr, succ: Addr,
                         updated: set<Addr>, current: Addr, cache: Metadata, m: KVMsg, trace: seq<Addr>,
                         servers': map<Addr, ServerState>, o: Outcome)
    requires Parting(md5, live, n, succ) && succ in updated
    requires Viewing(servers, live, PartView(md5, live, n, updated))
    requires Exchange(md5, servers, current, cache, m, trace, servers', o)
    ensures |trace| - 1 <= 1
  {
    PartingRanked(md5, servers, live, n, succ, updated, md5(m.key));
    RedirectBound(md5, servers, current, cache, m, trace, servers', o, Lowest(), 0);
  }

  /** Every server of live is open for clients and takes writes. */
  ghost predicate Open(servers: map<Addr, ServerState>, live: set<Addr>) {
    forall a :: a in live && a in servers ==> !servers[a].stopped && !servers[a].locked
  }

  /** The price of telling the leaver: among open servers a well-formed request fails, its
      connection dropped, exactly if the client was led to the leaver after that was told. */
  lemma PartingDrops(md5: Md5, servers: map<Addr, ServerState>, live: set<Addr>, n: Addr, updated: set<Addr>,
                     current: Addr, cache: Metadata, m: KVMsg, trace: seq<Addr>,
                     servers': map<Addr, ServerState>, o: Outcome)
    requires n in live && Open(servers, live) && (m.status == GET || m.status == PUT) && ValidKey(m.key)
    requires Viewing(servers, live, PartView(md5, live, n, updated))
    requires Exchange(md5, servers, current, cache, m, trace, servers', o)
    ensures o == Thrown <==> trace[|trace| - 1] == n && n in updated
  {
    var last := trace[|trace| - 1];
    assert Live(servers, last);
    assert Knows(servers[last]) <==> !(last == n && n in updated);
  }

  // ---- the states that the commands go through ---------------------------------------------

  /** Steady servers view their ring. */
  lemma SteadyViews(md5: Md5, servers: map<Addr, ServerState>, live: set<Addr>)
    requires Steady(md5, servers, live)
    ensures Viewing(servers, live, a => Some(RingOf(md5, live)))
  {
    forall a | a in servers ensures Standing(md5, live, a, servers[a]) {
    }
  }

  /** Views of servers that differ in stores, locks and flags only. */
  lemma SameViews(servers: map<Addr, ServerState>, after: map<Addr, ServerState>, live: set<Addr>,
                  view: Addr -> Option<Metadata>)
    requires Viewing(servers, live, view) && after.Keys == servers.Keys
    requires forall a :: a in servers ==> after[a].addr == servers[a].addr && after[a].running == servers[a].running
                                          && after[a].metadata == servers[a].metadata
    ensures Viewing(after, live, view)
  {
    forall a ensures Live(after, a) <==> Live(servers, a) {
    }
  }

  /** What a broadcast to some of the servers makes of a view. */
  lemma ToldViews(servers: map<Addr, ServerState>, live: set<Addr>, view: Addr -> Option<Metadata>,
                  updated: set<Addr>, ring: Metadata, after: Addr -> Option<Metadata>)
    requires Viewing(servers, live, view)
    requires forall a :: a in live ==> after(a) == if a in updated then Some(ring) else view(a)
    ensures Viewing(Broadcast(servers, updated, ring), live, after)
  {
    var told := Broadcast(servers, updated, ring);
    forall a ensures Live(told, a) <==> Live(servers, a) {
    }
  }

  /** A move does not change views; a broadcast then does. */
  lemma MovedViews(md5: Md5, servers: map<Addr, ServerState>, live: set<Addr>, view: Addr -> Option<Metadata>,
                   source: Addr, target: Addr, range: Range, updated: set<Addr>, ring: Metadata,
                   after: Addr -> Option<Metadata>)
    requires Viewing(servers, live, view) && source in servers && target in servers && source != target
    requires forall a :: a in live ==> after(a) == if a in updated then Some(ring) else view(a)
    ensures Viewing(Broadcast(Moved(md5, servers, source, target, range), updated, ring), live, after)
  {
    SameViews(servers, Moved(md5, servers, source, target, range), live, view);
    ToldViews(Moved(md5, servers, source, target, range), live, view, updated, ring, after);
  }

  /** removeNode, once the successor was told and before the data is moved. */
  lemma PartingTold(md5: Md5, servers: map<Addr, ServerState>, live: set<Addr>, n: Addr, succ: Addr)
    requires Steady(md5, servers, live) && Parting(md5, live, n, succ)
    ensures n in servers && succ in servers
    ensures Viewing(servers[succ := servers[succ].(metadata := Some(RingOf(md5, live - {n})))], live,
                    PartView(md5, live, n, {succ}))
  {
    var ring := RingOf(md5, live - {n});
    SteadyViews(md5, servers, live);
    ToldViews(servers, live, a => Some(RingOf(md5, live)), {succ}, ring, PartView(md5, live, n, {succ}));
    assert servers[succ := servers[succ].(metadata := Some(ring))] == Broadcast(servers, {succ}, ring);
  }

  /** removeNode, after the data was moved and at every point of the broadcast. */
  lemma PartingViews(md5: Md5, servers: map<Addr, ServerState>, live: set<Addr>, n: Addr, succ: Addr,
                     updated: set<Addr>)
    requires Steady(md5, servers, live) && Parting(md5, live, n, succ) && succ in updated
    ensures n in servers && succ in servers
    ensures var ring := RingOf(md5, live - {n});
            var told := servers[succ := servers[succ].(metadata := Some(ring))];
            Viewing(Broadcast(Moved(md5, told, n, succ, RingOf(md5, live)[n]), updated, ring), live,
                    PartView(md5, live, n, updated))
  {
    var ring := RingOf(md5, live - {n});
    PartingTold(md5, servers, live, n, succ);
    MovedViews(md5, servers[succ := servers[succ].(metadata := Some(ring))], live, PartView(md5, live, n, {succ}),
               n, succ, RingOf(md5, live)[n], updated, ring, PartView(md5, live, n, updated));
  }

  /** The process of n runs with this metadata. */
  lemma StartedViews(md5: Md5, servers: map<Addr, ServerState>, live: set<Addr>, n: Addr, s: ServerState,
                     view: Addr -> Option<Metadata>)
    requires Steady(md5, servers, live) && n in servers && n !in live
    requires s.addr == n && s.running && s.metadata == view(n)
    requires forall a :: a in live ==> view(a) == Some(RingOf(md5, live))
    ensures Viewing(servers[n := s], live + {n}, view)
  {
    SteadyViews(md5, servers, live);
    var after := servers[n := s];
    forall a ensures Live(after, a) <==> a == n || Live(servers, a) {
    }
  }

  /** addNode, while the new process runs and was not initialised. */
  lemma LaunchedViews(md5: Md5, servers: map<Addr, ServerState>, live: set<Addr>, n: Addr)
    requires Steady(md5, servers, live) && n in servers && n !in live
    ensures Viewing(servers[n := Down(n).(running := true, store := servers[n].store)], live + {n},
                    JoinView(md5, live, n, false, {}))
  {
    StartedViews(md5, servers, live, n, Down(n).(running := true, store := servers[n].store),
                 JoinView(md5, live, n, false, {}));
  }

  /** addNode, after the data was moved and at every point of the broadcast. */
  lemma JoiningViews(md5: Md5, servers: map<Addr, ServerState>, live: set<Addr>, n: Addr, succ: Addr,
                     updated: set<Addr>)
    requires Steady(md5, servers, live) && Joining(md5, live, n, succ) && n in servers
    ensures succ in servers
    ensures var ring := RingOf(md5, live + {n});
            Viewing(Broadcast(Moved(md5, Booted(servers, n, ring), succ, n, ring[n]), updated, ring), live + {n},
                    JoinView(md5, live, n, true, updated))
  {
    var ring := RingOf(md5, live + {n});
    StartedViews(md5, servers, live, n, Booted(servers, n, ring)[n], JoinView(md5, live, n, true, {}));
    assert Booted(servers, n, ring) == servers[n := Booted(servers, n, ring)[n]];
    MovedViews(md5, Booted(servers, n, ring), live + {n}, JoinView(md5, live, n, true, {}), succ, n, ring[n],
               updated, ring, JoinView(md5, live, n, true, updated));
  }
}
