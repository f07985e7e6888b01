/** The coordinator's commands on whole clusters: every addNode and removeNode keeps the
    placement invariant and the stored pairs, and adding a node and removing it again
    undoes itself. */
module Reconfiguration {
  import opened Wrappers
  import opened Ring
  import opened Storage
  import opened Server
  import opened Cluster
  import opened Placement

  ghost predicate AllStarted(c: Cluster) {
    Started(c.servers, Addrs(c.active))
  }

  lemma SpreadIsDistinct(md5: Md5, all: set<Addr>, some: set<Addr>)
    requires Spread(md5, all) && some <= all
    ensures Distinct(md5, all) && Distinct(md5, some)
  {
  }

  // ---- node lists ----------------------------------------------------------------------

  lemma AddLists(c: Cluster, r: nat)
    requires Listed(c) && r < |c.idle|
    ensures var active, idle := c.active + [c.idle[r]], Without(c.idle, r);
            && UniqueAddrs(active + idle) && Addrs(active + idle) == c.servers.Keys
            && Addrs(active) == Addrs(c.active) + {c.idle[r].addr}
            && c.idle[r].addr !in Addrs(c.active) && c.idle[r].addr in c.servers
            && Addrs(c.active) <= c.servers.Keys
  {
    ListsDisjoint(c.active, c.idle);
    Activated(c.active, c.idle, r);
  }

  lemma RemoveLists(c: Cluster, i: nat)
    requires Listed(c) && i < |c.active|
    ensures var active, idle := Without(c.active, i), c.idle + [c.active[i]];
            && UniqueAddrs(active + idle) && Addrs(active + idle) == c.servers.Keys
            && Addrs(active) == Addrs(c.active) - {c.active[i].addr}
            && c.active[i].addr in Addrs(c.active) && Addrs(c.active) <= c.servers.Keys
  {
    Transfer(c.active, c.idle, i);
    ListsDisjoint(c.active, c.idle);
    WithoutOne(c.active, i);
    AddrsOf(c.active);
  }

  // ---- addNode -------------------------------------------------------------------------

  /** With at least one active server the lookups of addNode are determined. */
  lemma LookupsForAdd(md5: Md5, c: Cluster, r: nat, c': Cluster) returns (succ: Addr)
    requires Settled(md5, c) && Spread(md5, c.servers.Keys) && r < |c.idle| && c.active != []
    requires NodeAdded(md5, c, r, c')
    ensures var n := c.idle[r].addr;
            && n in c.servers && succ in c.servers && Joining(md5, Addrs(c.active), n, succ)
            && c'.servers == Joined(md5, c.servers, n, RingOf(md5, Addrs(c.active) + {n}), succ, n)
  {
    AddLists(c, r);
    var n, live := c.idle[r].addr, Addrs(c.active);
    SpreadIsDistinct(md5, c.servers.Keys, live + {n});
    var found, self :| found in c.servers && Found(md5, c.metadata, n, found)
                       && Found(md5, RingOf(md5, live + {n}), n, self)
                       && c'.servers == Joined(md5, c.servers, n, RingOf(md5, live + {n}), found, self);
    FoundIsNext(md5, c.servers.Keys, live, n, found);
    FoundIsNext(md5, c.servers.Keys, live + {n}, n, self);
    assert md5(found) in Positions(md5, live);
    succ := found;
  }

  /** The first node: nobody has data to hand over. */
  lemma FirstNode(md5: Md5, c: Cluster, r: nat, c': Cluster)
    requires Settled(md5, c) && r < |c.idle| && c.active == [] && NodeAdded(md5, c, r, c')
    ensures Steady(md5, c'.servers, Addrs(c.active) + {c.idle[r].addr})
    ensures Started(c'.servers, Addrs(c.active) + {c.idle[r].addr}) && c'.servers.Keys == c.servers.Keys
    ensures forall a :: a in c.servers ==> c'.servers[a].store == c.servers[a].store
  {
    AddLists(c, r);
    assert Addrs(c.active) == {};
  }

  lemma AddNodeSettles(md5: Md5, c: Cluster, r: nat, c': Cluster)
    requires Settled(md5, c) && Spread(md5, c.servers.Keys) && r < |c.idle| && NodeAdded(md5, c, r, c')
    ensures Settled(md5, c') && (AllStarted(c) ==> AllStarted(c')) && c'.servers.Keys == c.servers.Keys
  {
    AddLists(c, r);
    if c.active == [] {
      FirstNode(md5, c, r, c');
    } else {
      var succ := LookupsForAdd(md5, c, r, c');
      JoinSteady(md5, c.servers, Addrs(c.active), c.idle[r].addr, succ);
    }
  }

  /** addNode keeps the placement invariant and loses nothing: whatever node is chosen and
      whatever entries the lookups return, the stores still hold exactly g. */
  lemma AddNodeConserves(md5: Md5, c: Cluster, r: nat, c': Cluster, g: Store)
    requires Settled(md5, c) && Spread(md5, c.servers.Keys) && r < |c.idle|
    requires NodeAdded(md5, c, r, c') && Holds(c.servers, g)
    ensures Settled(md5, c') && Holds(c'.servers, g) && (AllStarted(c) ==> AllStarted(c'))
    ensures c'.servers.Keys == c.servers.Keys
  {
    AddNodeSettles(md5, c, r, c');
    if c.active == [] {
      FirstNode(md5, c, r, c');
      SameStores(c.servers, c'.servers, g);
    } else {
      var n, live := c.idle[r].addr, Addrs(c.active);
      var succ := LookupsForAdd(md5, c, r, c');
      SteadyIsSharing(md5, c.servers, live, n, succ);
      JoinHolds(md5, c.servers, n, succ, RingOf(md5, live + {n}), g);
    }
  }

  /** addNode always gets through: both lookups succeed, whichever idle node is chosen. */
  lemma AddNodePossible(md5: Md5, c: Cluster, r: nat) returns (c': Cluster)
    requires Settled(md5, c) && Spread(md5, c.servers.Keys) && r < |c.idle|
    ensures NodeAdded(md5, c, r, c')
  {
    AddLists(c, r);
    var n, live := c.idle[r].addr, Addrs(c.active);
    var ring := RingOf(md5, live + {n});
    SpreadIsDistinct(md5, c.servers.Keys, live + {n});
    if c.active == [] {
      c' := Cluster(Broadcast(Booted(c.servers, n, ring), ring.Keys, ring),
                    c.active + [c.idle[r]], Without(c.idle, r), ring);
    } else {
      assert c.active[0].addr in live;
      FoundExists(md5, live, n);
      FoundExists(md5, live + {n}, n);
      var succ :| Found(md5, c.metadata, n, succ);
      var self :| Found(md5, ring, n, self);
      c' := Cluster(Joined(md5, c.servers, n, ring, succ, self), c.active + [c.idle[r]], Without(c.idle, r), ring);
    }
  }

  // ---- removeNode ----------------------------------------------------------------------

  /** removeNode always gets through when another server remains. */
  lemma RemoveNodePossible(md5: Md5, c: Cluster, i: nat) returns (c': Cluster)
    requires Settled(md5, c) && Spread(md5, c.servers.Keys) && i < |c.active| && |c.active| > 1
    ensures NodeRemoved(md5, c, i, c')
  {
    RemoveLists(c, i);
    var n, live := c.active[i].addr, Addrs(c.active);
    var rest := Without(c.active, i);
    assert rest[0].addr in Addrs(rest);
    SpreadIsDistinct(md5, c.servers.Keys, live);
    FoundExists(md5, live, n);
    FoundExists(md5, live - {n}, n);
    var self :| Found(md5, c.metadata, n, self);
    var succ :| Found(md5, RingOf(md5, live - {n}), n, succ);
    c' := Cluster(Parted(md5, c.servers, n, c.metadata[self], RingOf(md5, live - {n}), succ),
                  rest, c.idle + [c.active[i]], RingOf(md5, live - {n}));
  }

  lemma LookupsForRemove(md5: Md5, c: Cluster, i: nat, c': Cluster) returns (succ: Addr)
    requires Settled(md5, c) && Spread(md5, c.servers.Keys) && i < |c.active| && NodeRemoved(md5, c, i, c')
    ensures var n, live := c.active[i].addr, Addrs(c.active);
            && n in c.servers && succ in c.servers && Parting(md5, live, n, succ)
            && c'.servers == Parted(md5, c.servers, n, RingOf(md5, live)[n], RingOf(md5, live - {n}), succ)
  {
    RemoveLists(c, i);
    var n, live := c.active[i].addr, Addrs(c.active);
    SpreadIsDistinct(md5, c.servers.Keys, live);
    var self, found :| found in c.servers && Found(md5, c.metadata, n, self)
                       && Found(md5, RingOf(md5, live - {n}), n, found)
                       && c'.servers == Parted(md5, c.servers, n, c.metadata[self], RingOf(md5, live - {n}), found);
    FoundIsNext(md5, c.servers.Keys, live, n, self);
    FoundIsNext(md5, c.servers.Keys, live - {n}, n, found);
    assert md5(n) in Positions(md5, live) && md5(found) in Positions(md5, live - {n});
    succ := found;
  }

  lemma RemoveNodeSettles(md5: Md5, c: Cluster, i: nat, c': Cluster) returns (succ: Addr)
    requires Settled(md5, c) && Spread(md5, c.servers.Keys) && i < |c.active| && NodeRemoved(md5, c, i, c')
    ensures Settled(md5, c') && (AllStarted(c) ==> AllStarted(c')) && c'.servers.Keys == c.servers.Keys
    ensures var n, live := c.active[i].addr, Addrs(c.active);
            && n in c.servers && succ in c.servers && Parting(md5, live, n, succ) && c'.servers[n] == Down(n)
            && c'.servers == Parted(md5, c.servers, n, RingOf(md5, live)[n], RingOf(md5, live - {n}), succ)
  {
    succ := LookupsForRemove(md5, c, i, c');
    RemoveLists(c, i);
    PartSteady(md5, c.servers, Addrs(c.active), c.active[i].addr, succ);
  }

  /** removeNode keeps the placement invariant, empties the leaver, and keeps every pair except
      exactly those of the leaver that its successor, a determined server, refuses: all of them
      if that server is stopped, otherwise the stranded ones. */
  lemma RemoveNodeExact(md5: Md5, c: Cluster, i: nat, c': Cluster, g: Store) returns (succ: Addr)
    requires Settled(md5, c) && Spread(md5, c.servers.Keys) && i < |c.active|
    requires NodeRemoved(md5, c, i, c') && Holds(c.servers, g)
    ensures Settled(md5, c') && (AllStarted(c) ==> AllStarted(c')) && c'.servers.Keys == c.servers.Keys
    ensures var n, live := c.active[i].addr, Addrs(c.active);
            && n in c.servers && succ in c.servers && Parting(md5, live, n, succ)
            && c'.servers[n] == Down(n)
            && Holds(c'.servers, g - Lost(md5, c.servers, live, n, succ))
            && (Holds(c'.servers, g) <==> Lost(md5, c.servers, live, n, succ) == {})
  {
    succ := RemoveNodeSettles(md5, c, i, c');
    PartLoses(md5, c.servers, Addrs(c.active), c.active[i].addr, succ, g);
  }

  lemma PartLoses(md5: Md5, servers: map<Addr, ServerState>, live: set<Addr>, n: Addr, succ: Addr, g: Store)
    requires Steady(md5, servers, live) && Parting(md5, live, n, succ) && Holds(servers, g)
    ensures n in servers && succ in servers
    ensures var after := Parted(md5, servers, n, RingOf(md5, live)[n], RingOf(md5, live - {n}), succ);
            var lost := Lost(md5, servers, live, n, succ);
            Holds(after, g - lost) && (Holds(after, g) <==> lost == {})
  {
    PartHolds(md5, servers, live, n, succ, g);
    LostIsHeld(servers, n, g, Lost(md5, servers, live, n, succ));
    LossMatters(Parted(md5, servers, n, RingOf(md5, live)[n], RingOf(md5, live - {n}), succ),
                g, Lost(md5, servers, live, n, succ));
  }

  lemma LostIsHeld(servers: map<Addr, ServerState>, n: Addr, g: Store, lost: set<string>)
    requires Holds(servers, g) && n in servers && lost <= servers[n].store.Keys
    ensures lost <= g.Keys
  {
  }

  lemma LossMatters(servers: map<Addr, ServerState>, g: Store, lost: set<string>)
    requires Holds(servers, g - lost) && lost <= g.Keys
    ensures Holds(servers, g) <==> lost == {}
  {
    if Holds(servers, g) {
      forall k | k in g ensures k in g - lost {
        var a :| a in servers && k in servers[a].store;
      }
      assert forall k :: k in lost ==> k in g;
    }
    if lost == {} {
      assert g - lost == g;
    }
  }

  /** In terms the operator can check beforehand: with every server started, removal loses
      something exactly when the leaver is the last of the ring and stores a key that hashes to
      its predecessor's position or one before it (and above the smallest position). */
  lemma RemovalLossless(md5: Md5, c: Cluster, i: nat, c': Cluster, g: Store)
    requires Settled(md5, c) && Spread(md5, c.servers.Keys) && i < |c.active| && AllStarted(c)
    requires NodeRemoved(md5, c, i, c') && Holds(c.servers, g)
    ensures c.active[i].addr in c.servers
    ensures Holds(c'.servers, g) <==>
            forall k :: k in c.servers[c.active[i].addr].store ==>
              !Stranded(Positions(md5, Addrs(c.active)), md5(c.active[i].addr), md5(k))
  {
    var succ := RemoveNodeExact(md5, c, i, c', g);
    NothingLostIff(md5, c.servers, Addrs(c.active), c.active[i].addr, succ);
  }

  lemma NothingLostIff(md5: Md5, servers: map<Addr, ServerState>, live: set<Addr>, n: Addr, succ: Addr)
    requires n in servers && succ in servers && Parting(md5, live, n, succ) && !servers[succ].stopped
    ensures Lost(md5, servers, live, n, succ) == {} <==>
            forall k :: k in servers[n].store ==> !Stranded(Positions(md5, live), md5(n), md5(k))
  {
    if k :| k in servers[n].store && Stranded(Positions(md5, live), md5(n), md5(k)) {
      assert k in Lost(md5, servers, live, n, succ);
    }
  }

  /** The loss is real: on a ring at 10, 20 and 30, removing 30 strands the hashes 19 and 20. */
  lemma StrandedExample()
    ensures Stranded({10, 20, 30}, 30, 20) && Stranded({10, 20, 30}, 30, 19)
    ensures InRange(RangeOf({10, 20, 30}, 30), 20) && !InRange(RangeOf({10, 20}, 10), 20)
  {
    MaxIs({10, 20, 30}, 30);
    MinIs({10, 20, 30}, 10);
    PredecessorIs({10, 20, 30}, 20, 30);
    MaxIs({10, 20}, 20);
    assert Below({10, 20}, 10) == {};
  }

  /** Three servers in this order on the ring, far enough apart. */
  ghost predicate InLine(md5: Md5, a: Addr, b: Addr, n: Addr) {
    1 <= md5(a) && md5(a) + 3 <= md5(b) && md5(b) + 3 <= md5(n)
  }

  ghost function ThreeServers(md5: Md5, a: Addr, b: Addr, n: Addr, s: Store): map<Addr, ServerState> {
    var ring := RingOf(md5, {a, b, n});
    map[a := ServerState(a, true, false, false, Some(ring), map[], {}),
        b := ServerState(b, true, false, false, Some(ring), map[], {}),
        n := ServerState(n, true, false, false, Some(ring), s, {})]
  }

  /** They are active, started, and only the last one stores something. */
  ghost function ThreeNodes(md5: Md5, a: Addr, b: Addr, n: Addr, s: Store): Cluster {
    Cluster(ThreeServers(md5, a, b, n, s), [Node("1", a), Node("2", b), Node("3", n)], [], RingOf(md5, {a, b, n}))
  }

  lemma ThreeStranded(md5: Md5, a: Addr, b: Addr, n: Addr)
    requires InLine(md5, a, b, n)
    ensures Positions(md5, {a, b, n}) == {md5(a), md5(b), md5(n)}
    ensures Stranded(Positions(md5, {a, b, n}), md5(n), md5(b))
    ensures InRange(RingOf(md5, {a, b, n})[n], md5(b))
  {
    var P := Positions(md5, {a, b, n});
    assert md5(a) in P && md5(b) in P && md5(n) in P;
    assert P == {md5(a), md5(b), md5(n)};
    MaxIs(P, md5(n));
    MinIs(P, md5(a));
    PredecessorIs(P, md5(b), md5(n));
  }

  lemma ThreeListed(md5: Md5, a: Addr, b: Addr, n: Addr, nodes: seq<Node>)
    requires InLine(md5, a, b, n) && nodes == [Node("1", a), Node("2", b), Node("3", n)]
    ensures UniqueAddrs(nodes) && Addrs(nodes) == {a, b, n} && nodes + [] == nodes
    ensures Spread(md5, {a, b, n}) && OffZero(md5, {a, b, n})
  {
    AddrsOf(nodes);
    assert nodes[0].addr == a && nodes[1].addr == b && nodes[2].addr == n;
  }

  lemma EmptyStands(md5: Md5, live: set<Addr>, x: Addr)
    requires x in live
    ensures Standing(md5, live, x, ServerState(x, true, false, false, Some(RingOf(md5, live)), map[], {}))
  {
  }

  lemma LastStands(md5: Md5, live: set<Addr>, n: Addr, s: Store)
    requires n in live && GoodStore(s) && forall k :: k in s ==> InRange(RingOf(md5, live)[n], md5(k))
    ensures Standing(md5, live, n, ServerState(n, true, false, false, Some(RingOf(md5, live)), s, {}))
  {
  }

  lemma ThreeStand(md5: Md5, live: set<Addr>, servers: map<Addr, ServerState>, a: Addr, b: Addr, n: Addr)
    requires live == {a, b, n} == servers.Keys
    requires Standing(md5, live, a, servers[a]) && Standing(md5, live, b, servers[b])
    requires Standing(md5, live, n, servers[n])
    requires !servers[a].stopped && !servers[b].stopped && !servers[n].stopped
    ensures Steady(md5, servers, live) && Started(servers, live)
  {
  }

  lemma ThreeSteady(md5: Md5, a: Addr, b: Addr, n: Addr, s: Store)
    requires InLine(md5, a, b, n) && GoodStore(s) && forall k :: k in s ==> md5(k) == md5(b)
    ensures Steady(md5, ThreeServers(md5, a, b, n, s), {a, b, n})
    ensures Started(ThreeServers(md5, a, b, n, s), {a, b, n}) && ThreeServers(md5, a, b, n, s).Keys == {a, b, n}
  {
    ThreeStranded(md5, a, b, n);
    EmptyStands(md5, {a, b, n}, a);
    EmptyStands(md5, {a, b, n}, b);
    LastStands(md5, {a, b, n}, n, s);
    ThreeStand(md5, {a, b, n}, ThreeServers(md5, a, b, n, s), a, b, n);
  }

  lemma OneHolds(servers: map<Addr, ServerState>, n: Addr, s: Store)
    requires n in servers && servers[n].store == s && forall x :: x in servers && x != n ==> servers[x].store == map[]
    ensures Holds(servers, s)
  {
    forall k | k in s ensures exists x :: x in servers && k in servers[x].store {
      assert n in servers;
    }
  }

  lemma AllActiveSettles(md5: Md5, servers: map<Addr, ServerState>, nodes: seq<Node>, live: set<Addr>)
    requires UniqueAddrs(nodes) && Addrs(nodes) == live == servers.Keys && nodes + [] == nodes
    requires Steady(md5, servers, live) && Started(servers, live)
    ensures var c := Cluster(servers, nodes, [], RingOf(md5, live)); Settled(md5, c) && AllStarted(c)
  {
  }

  lemma ThreeSettled(md5: Md5, a: Addr, b: Addr, n: Addr, s: Store)
    requires InLine(md5, a, b, n) && GoodStore(s) && forall k :: k in s ==> md5(k) == md5(b)
    ensures Settled(md5, ThreeNodes(md5, a, b, n, s)) && AllStarted(ThreeNodes(md5, a, b, n, s))
  {
    var nodes := [Node("1", a), Node("2", b), Node("3", n)];
    ThreeListed(md5, a, b, n, nodes);
    ThreeSteady(md5, a, b, n, s);
    AllActiveSettles(md5, ThreeServers(md5, a, b, n, s), nodes, {a, b, n});
  }

  lemma ThreeHold(md5: Md5, a: Addr, b: Addr, n: Addr, s: Store)
    requires InLine(md5, a, b, n)
    ensures var c := ThreeNodes(md5, a, b, n, s);
            && Holds(c.servers, s) && Addrs(c.active) == c.servers.Keys == {a, b, n}
            && Spread(md5, c.servers.Keys) && OffZero(md5, c.servers.Keys)
  {
    ThreeListed(md5, a, b, n, [Node("1", a), Node("2", b), Node("3", n)]);
    OneHolds(ThreeServers(md5, a, b, n, s), n, s);
  }

  lemma StrandedIsLost(md5: Md5, c: Cluster, i: nat, c': Cluster, g: Store, k: string)
    requires Settled(md5, c) && Spread(md5, c.servers.Keys) && i < |c.active| && AllStarted(c)
    requires NodeRemoved(md5, c, i, c') && Holds(c.servers, g) && c.active[i].addr in c.servers
    requires k in c.servers[c.active[i].addr].store
    requires Stranded(Positions(md5, Addrs(c.active)), md5(c.active[i].addr), md5(k))
    ensures !Holds(c'.servers, g)
  {
    RemovalLossless(md5, c, i, c', g);
  }

  /** A loss in a whole cluster: settled, started and with its servers far enough apart, it stores a
      key that hashes to the position of the last server but one. Removing the last server loses
      it, whatever entries the lookups return. */
  lemma RemovalCanLose(md5: Md5, a: Addr, b: Addr, n: Addr, k: string, s: Store, c: Cluster, c': Cluster)
    requires InLine(md5, a, b, n) && GoodStore(s) && k in s && forall j :: j in s ==> md5(j) == md5(b)
    requires c == ThreeNodes(md5, a, b, n, s) && NodeRemoved(md5, c, 2, c')
    ensures Settled(md5, c) && AllStarted(c) && Holds(c.servers, s) && !Holds(c'.servers, s)
  {
    ThreeSettled(md5, a, b, n, s);
    ThreeHold(md5, a, b, n, s);
    ThreeStranded(md5, a, b, n);
    StrandedIsLost(md5, c, 2, c', s, k);
  }

  function ExampleMd5(s: string): Hash {
    if s == "a" then 10 else if s == "c" then 30 else 20
  }

  /** Such clusters exist: servers at 10, 20 and 30, and a key at 20. */
  lemma RemovalLosesExample(md5: Md5, c: Cluster) returns (c': Cluster)
    requires md5 == ExampleMd5 && c == ThreeNodes(md5, "a", "b", "c", map["k" := "v"])
    ensures Settled(md5, c) && AllStarted(c) && Holds(c.servers, map["k" := "v"])
    ensures NodeRemoved(md5, c, 2, c') && !Holds(c'.servers, map["k" := "v"])
  {
    assert Utf8Length("k") == 1 by { assert "k"[1..] == ""; }
    assert "k"[0] != "a"[0] && "k"[0] != "c"[0] && "b"[0] != "a"[0] && "b"[0] != "c"[0] && "c"[0] != "a"[0];
    assert md5("k") == 20 && md5("a") == 10 && md5("b") == 20 && md5("c") == 30;
    assert !IsDelete(Some("v")) by { assert |"v"| == 1 && |"null"| == 4; }
    ThreeSettled(md5, "a", "b", "c", map["k" := "v"]);
    ThreeHold(md5, "a", "b", "c", map["k" := "v"]);
    c' := RemoveNodePossible(md5, c, 2);
    RemovalCanLose(md5, "a", "b", "c", "k", map["k" := "v"], c, c');
  }

  // ---- addNode undone by removeNode ------------------------------------------------------

  /** What was moved to the newcomer is not stranded when it leaves: it comes from the
      successor's own range. */
  lemma NothingLostOnReturn(md5: Md5, servers: map<Addr, ServerState>, live: set<Addr>, n: Addr, succ: Addr)
    requires Steady(md5, servers, live) && Joining(md5, live, n, succ) && n in servers && Started(servers, live)
    ensures succ in servers
    ensures var mid := Joined(md5, servers, n, RingOf(md5, live + {n}), succ, n);
            Parting(md5, live + {n}, n, succ) && n in mid && succ in mid
            && Lost(md5, mid, live + {n}, n, succ) == {}
  {
    SteadyIsSharing(md5, servers, live, n, succ);
    JoinedAre(md5, servers, n, succ, RingOf(md5, live + {n}));
    assert live + {n} - {n} == live;
    PositionsMinus(md5, live + {n}, n);
    var mid := Joined(md5, servers, n, RingOf(md5, live + {n}), succ, n);
    assert Standing(md5, live, succ, servers[succ]);
    forall k | k in mid[n].store ensures !Stranded(Positions(md5, live + {n}), md5(n), md5(k)) {
      assert k in servers[succ].store;
      PartTakes(md5, live + {n}, n, succ, md5(k));
    }
  }

  /** The two effects cancel on every server. */
  lemma ServersRestored(md5: Md5, servers: map<Addr, ServerState>, live: set<Addr>, n: Addr, succ: Addr,
                        mid: map<Addr, ServerState>, after: map<Addr, ServerState>)
    requires Steady(md5, servers, live) && n in servers && n !in live && succ in servers && succ in live
    requires JoinEffect(md5, servers, n, succ, RingOf(md5, live + {n}), mid)
    requires PartEffect(mid, live + {n}, n, succ, RingOf(md5, live), mid[n].store, after)
    ensures after == servers
  {
    assert Standing(md5, live, succ, servers[succ]) && Standing(md5, live, n, servers[n]);
    SplitStore(servers[succ].store, Selected(md5, servers[succ], RingOf(md5, live + {n})[n]));
    assert after[succ] == servers[succ];
    forall a | a in servers && a != succ && a != n ensures after[a] == servers[a] {
      assert Standing(md5, live, a, servers[a]);
      assert a in live ==> after[a] == servers[a].(metadata := Some(RingOf(md5, live)));
    }
  }

  lemma SplitStore(s: Store, keys: set<string>)
    requires keys <= s.Keys
    ensures (s - keys) + (map k | k in keys :: s[k]) == s
  {
  }

  lemma JoinThenPart(md5: Md5, servers: map<Addr, ServerState>, live: set<Addr>, n: Addr, succ: Addr)
    requires Steady(md5, servers, live) && Joining(md5, live, n, succ) && n in servers && succ in servers
    requires Started(servers, live)
    ensures var mid := Joined(md5, servers, n, RingOf(md5, live + {n}), succ, n);
            n in mid && succ in mid &&
            Parted(md5, mid, n, RingOf(md5, live + {n})[n], RingOf(md5, live), succ) == servers
  {
    var mid := Joined(md5, servers, n, RingOf(md5, live + {n}), succ, n);
    SteadyIsSharing(md5, servers, live, n, succ);
    JoinedAre(md5, servers, n, succ, RingOf(md5, live + {n}));
    JoinSteady(md5, servers, live, n, succ);
    NothingLostOnReturn(md5, servers, live, n, succ);
    PlusMinus(live, n);
    PartedStores(md5, mid, live + {n}, n, succ);
    MinusNothing(mid[n].store);
    ServersRestored(md5, servers, live, n, succ, mid,
                    Parted(md5, mid, n, RingOf(md5, live + {n})[n], RingOf(md5, live), succ));
  }

  lemma PlusMinus(live: set<Addr>, n: Addr)
    requires n !in live
    ensures live + {n} - {n} == live
  {
  }

  lemma MinusNothing(s: Store)
    ensures s - {} == s
  {
  }

  /** addNode followed by removeNode of the same node, with no client writes in between, gives
      back the same metadata, the same active list and every server's stored map. */
  lemma AddThenRemove(md5: Md5, c: Cluster, r: nat, c1: Cluster, c2: Cluster)
    requires Settled(md5, c) && Spread(md5, c.servers.Keys) && AllStarted(c) && c.active != [] && r < |c.idle|
    requires NodeAdded(md5, c, r, c1) && NodeRemoved(md5, c1, |c.active|, c2)
    ensures c2.servers == c.servers && c2.metadata == c.metadata && c2.active == c.active
    ensures multiset(c2.idle) == multiset(c.idle)
  {
    ListsRestored(c, r, c1, c2);
    AddLists(c, r);
    ServersRestoredBy(md5, c, r, c1, c2);
  }

  lemma ServersRestoredBy(md5: Md5, c: Cluster, r: nat, c1: Cluster, c2: Cluster)
    requires Settled(md5, c) && Spread(md5, c.servers.Keys) && AllStarted(c) && c.active != [] && r < |c.idle|
    requires NodeAdded(md5, c, r, c1) && NodeRemoved(md5, c1, |c.active|, c2)
    requires Addrs(c1.active) == Addrs(c.active) + {c.idle[r].addr} && c.idle[r].addr !in Addrs(c.active)
    ensures c2.servers == c.servers && c2.metadata == c.metadata
  {
    var n, live := c.idle[r].addr, Addrs(c.active);
    PlusMinus(live, n);
    var succ := LookupsForAdd(md5, c, r, c1);
    AddNodeSettles(md5, c, r, c1);
    var succ2 := LookupsForRemove(md5, c1, |c.active|, c2);
    SameSuccessor(md5, live, n, succ, succ2);
    JoinThenPart(md5, c.servers, live, n, succ);
  }

  lemma SameSuccessor(md5: Md5, live: set<Addr>, n: Addr, succ: Addr, succ2: Addr)
    requires Joining(md5, live, n, succ) && Parting(md5, live + {n}, n, succ2)
    ensures succ == succ2
  {
    assert live + {n} - {n} == live;
  }

  lemma ListsRestored(c: Cluster, r: nat, c1: Cluster, c2: Cluster)
    requires r < |c.idle| && c1.active == c.active + [c.idle[r]] && c1.idle == Without(c.idle, r)
    requires c2.active == Without(c1.active, |c.active|) && c2.idle == c1.idle + [c1.active[|c.active|]]
    ensures c2.active == c.active && multiset(c2.idle) == multiset(c.idle)
  {
    assert c.idle == c.idle[..r] + [c.idle[r]] + c.idle[r + 1..];
  }
}
