/** The time between a transfer and the broadcast of the new ring: the server that has handed its
    keys over is unlocked, but still goes by the old ring. */
module Window {
  import opened Wrappers
  import opened Ring
  import opened Storage
  import opened Server
  import opened Cluster
  import opened Placement

  // ---- addNode -------------------------------------------------------------------------------

  /** After its part was moved to the new server, what the successor keeps lies in its new range. */
  lemma KeptAfterMove(md5: Md5, servers: map<Addr, ServerState>, live: set<Addr>, n: Addr, succ: Addr)
    requires Steady(md5, servers, live) && Joining(md5, live, n, succ)
    ensures succ in servers
    ensures var ring := RingOf(md5, live + {n});
            forall k :: k in Flushed(md5, servers[succ], ring[n]).store ==> InRange(ring[succ], md5(k))
  {
    assert Standing(md5, live, succ, servers[succ]);
    var ring := RingOf(md5, live + {n});
    forall k | k in Flushed(md5, servers[succ], ring[n]).store ensures InRange(ring[succ], md5(k)) {
      assert k !in Selected(md5, servers[succ], ring[n]);
      JoinRanges(md5, live, n, succ, succ, md5(k));
    }
  }

  /** A client's put that the successor takes before it hears of the new ring is reported a success,
      and breaks the placement on the new ring exactly when the key no longer belongs to it. */
  lemma LatePut(md5: Md5, servers: map<Addr, ServerState>, live: set<Addr>, n: Addr, succ: Addr,
                key: string, value: string)
    requires Steady(md5, servers, live) && Started(servers, live) && Joining(md5, live, n, succ)
    requires ValidKey(key) && !IsDelete(Some(value)) && InRange(RingOf(md5, live)[succ], md5(key))
    ensures succ in servers
    ensures var ring := RingOf(md5, live + {n});
            var s := Flushed(md5, servers[succ], ring[n]);
            var (s', o) := ServeSpec(md5, s, KVMsg(PUT, key, Some(value), None));
            && o == Answer(if key in s.store then PUT_UPDATE else PUT_SUCCESS, key, Some(value))
            && (Placed(md5, ring, s') <==> InRange(ring[succ], md5(key)))
  {
    assert Standing(md5, live, succ, servers[succ]);
    KeptAfterMove(md5, servers, live, n, succ);
    TakesPut(md5, Flushed(md5, servers[succ], RingOf(md5, live + {n})[n]), key, value);
    PlacedWith(md5, RingOf(md5, live + {n}), Flushed(md5, servers[succ], RingOf(md5, live + {n})[n]), key, value);
  }

  lemma TakesPut(md5: Md5, s: ServerState, key: string, value: string)
    requires Accepts(md5, s, key) && !IsDelete(Some(value))
    ensures var (s', o) := ServeSpec(md5, s, KVMsg(PUT, key, Some(value), None));
            && s' == s.(store := s.store[key := value])
            && o == Answer(if key in s.store then PUT_UPDATE else PUT_SUCCESS, key, Some(value))
  {
  }

  lemma PlacedWith(md5: Md5, ring: Metadata, s: ServerState, key: string, value: string)
    requires s.addr in ring && forall k :: k in s.store ==> InRange(ring[s.addr], md5(k))
    ensures Placed(md5, ring, s.(store := s.store[key := value])) <==> InRange(ring[s.addr], md5(key))
  {
    var s' := s.(store := s.store[key := value]);
    assert key in s'.store;
  }

  /** A client's get at the successor of a key that it stored before the transfer is answered with
      an error exactly if the key now belongs to the new server, which holds it. */
  lemma LateGet(md5: Md5, servers: map<Addr, ServerState>, live: set<Addr>, n: Addr, succ: Addr, key: string)
    requires Steady(md5, servers, live) && Started(servers, live) && Joining(md5, live, n, succ) && n in servers
    requires succ in servers && key in servers[succ].store
    ensures var ring := RingOf(md5, live + {n});
            var after := Moved(md5, Booted(servers, n, ring), succ, n, ring[n]);
            var o := ServeSpec(md5, after[succ], KVMsg(GET, key, Some(""), None)).1;
            && (o == Answer(GET_ERROR, key, None) <==> InRange(ring[n], md5(key)))
            && (o == Answer(GET_SUCCESS, key, Some(servers[succ].store[key])) <==> !InRange(ring[n], md5(key)))
            && (InRange(ring[n], md5(key)) ==> key in after[n].store && after[n].store[key] == servers[succ].store[key])
  {
    SteadyIsSharing(md5, servers, live, n, succ);
    SharedStores(md5, servers, n, succ, RingOf(md5, live + {n}));
    assert Standing(md5, live, succ, servers[succ]);
  }

  // ---- removeNode ----------------------------------------------------------------------------

  /** The leaver after its transfer: empty, unlocked, and on the old ring. */
  lemma LeaverAfterMove(md5: Md5, servers: map<Addr, ServerState>, live: set<Addr>, n: Addr)
    requires Steady(md5, servers, live) && n in live && n in servers
    ensures Flushed(md5, servers[n], RingOf(md5, live)[n])
            == servers[n].(locked := false, store := map[], pending := {})
  {
    assert Standing(md5, live, n, servers[n]);
    assert Selected(md5, servers[n], RingOf(md5, live)[n]) == servers[n].store.Keys;
    assert servers[n].store - servers[n].store.Keys == map[];
    assert {} + servers[n].store.Keys == servers[n].store.Keys;
  }

  /** Until it is told the new ring the leaver denies having any key that it claims, also those
      that it has just handed over. */
  lemma LeaverGet(md5: Md5, servers: map<Addr, ServerState>, live: set<Addr>, n: Addr, key: string)
    requires Steady(md5, servers, live) && Started(servers, live) && n in live && n in servers
    requires InRange(RingOf(md5, live)[n], md5(key))
    ensures ServeSpec(md5, Flushed(md5, servers[n], RingOf(md5, live)[n]), KVMsg(GET, key, Some(""), None)).1
            == Answer(GET_ERROR, key, None)
  {
    assert Standing(md5, live, n, servers[n]);
    LeaverAfterMove(md5, servers, live, n);
  }

  /** The servers after removeNode, if the leaver was in state s when the broadcast began. */
  ghost function Ended(servers: map<Addr, ServerState>, n: Addr, s: ServerState, ring: Metadata)
    : map<Addr, ServerState>
    requires n in servers
  {
    var told := Broadcast(servers[n := s], ring.Keys + {n}, ring);
    told[n := AdminSpec(told[n], AdminMsg(SHUTDOWN, None)).0]
  }

  /** The servers when the leaver has handed its keys over and the broadcast has not begun. */
  ghost function HandedOver(md5: Md5, servers: map<Addr, ServerState>, live: set<Addr>, n: Addr, succ: Addr)
    : map<Addr, ServerState>
    requires n in servers && succ in servers && n in live
  {
    var told := servers[succ := servers[succ].(metadata := Some(RingOf(md5, live - {n})))];
    Moved(md5, told, n, succ, RingOf(md5, live)[n])
  }

  /** Whatever becomes of the leaver before the broadcast, the servers end as removeNode leaves them. */
  lemma EndedIs(md5: Md5, servers: map<Addr, ServerState>, live: set<Addr>, n: Addr, succ: Addr, s: ServerState)
    requires n in servers && succ in servers && n in live && s.addr == n
    ensures Ended(HandedOver(md5, servers, live, n, succ), n, s, RingOf(md5, live - {n}))
            == Parted(md5, servers, n, RingOf(md5, live)[n], RingOf(md5, live - {n}), succ)
  {
  }

  lemma LeaverTakesPut(md5: Md5, servers: map<Addr, ServerState>, live: set<Addr>, n: Addr, succ: Addr,
                       key: string, value: string)
    requires Steady(md5, servers, live) && Started(servers, live) && n in live && n in servers
    requires succ in servers && n != succ
    requires ValidKey(key) && !IsDelete(Some(value)) && InRange(RingOf(md5, live)[n], md5(key))
    ensures var put := KVMsg(PUT, key, Some(value), None);
            var (s', o) := ServeSpec(md5, HandedOver(md5, servers, live, n, succ)[n], put);
            s'.addr == n && o == Answer(PUT_SUCCESS, key, Some(value)) && s'.store == map[key := value]
  {
    assert Standing(md5, live, n, servers[n]);
    LeaverAfterMove(md5, servers, live, n);
    assert HandedOver(md5, servers, live, n, succ)[n] == Flushed(md5, servers[n], RingOf(md5, live)[n]);
    TakesPut(md5, Flushed(md5, servers[n], RingOf(md5, live)[n]), key, value);
  }

  lemma AbsentAfter(md5: Md5, servers: map<Addr, ServerState>, live: set<Addr>, n: Addr, succ: Addr,
                    key: string, g: Store)
    requires Steady(md5, servers, live) && Parting(md5, live, n, succ) && Holds(servers, g) && key !in g
    ensures n in servers && succ in servers
    ensures var after := Parted(md5, servers, n, RingOf(md5, live)[n], RingOf(md5, live - {n}), succ);
            forall a :: a in after ==> key !in after[a].store
  {
    PartHolds(md5, servers, live, n, succ, g);
    NobodyHas(Parted(md5, servers, n, RingOf(md5, live)[n], RingOf(md5, live - {n}), succ),
              g - Lost(md5, servers, live, n, succ), key);
  }

  lemma NobodyHas(servers: map<Addr, ServerState>, g: Store, key: string)
    requires Within(servers, g) && key !in g
    ensures forall a :: a in servers ==> key !in servers[a].store
  {
  }

  /** A client's put of any key that the leaver claims is reported a success, and then leaves no
      trace: the shutdown clears it, and all servers end as if it had never been asked for. A key
      that the cluster did not hold before is nowhere afterwards. */
  lemma LeaverPut(md5: Md5, servers: map<Addr, ServerState>, live: set<Addr>, n: Addr, succ: Addr,
                  key: string, value: string, g: Store)
    requires Steady(md5, servers, live) && Started(servers, live) && Parting(md5, live, n, succ) && Holds(servers, g)
    requires ValidKey(key) && !IsDelete(Some(value)) && InRange(RingOf(md5, live)[n], md5(key))
    ensures n in servers && succ in servers
    ensures var put := KVMsg(PUT, key, Some(value), None);
            var (s', o) := ServeSpec(md5, HandedOver(md5, servers, live, n, succ)[n], put);
            var end := Ended(HandedOver(md5, servers, live, n, succ), n, s', RingOf(md5, live - {n}));
            && o == Answer(PUT_SUCCESS, key, Some(value)) && key in s'.store
            && end == Parted(md5, servers, n, RingOf(md5, live)[n], RingOf(md5, live - {n}), succ)
            && (key !in g ==> forall a :: a in end ==> key !in end[a].store)
  {
    assert Standing(md5, live, n, servers[n]);
    LeaverTakesPut(md5, servers, live, n, succ, key, value);
    EndedIs(md5, servers, live, n, succ,
            ServeSpec(md5, HandedOver(md5, servers, live, n, succ)[n], KVMsg(PUT, key, Some(value), None)).0);
    if key !in g {
      AbsentAfter(md5, servers, live, n, succ, key, g);
    }
  }
}
