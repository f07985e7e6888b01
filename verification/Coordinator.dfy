/** The coordinator (ECS) as an object that talks to server objects: its commands are proved to
    have the effects on whole clusters that the other modules reason about. */
module Coordinator {
  import opened Wrappers
  import opened Ring
  import opened Server
  import opened Cluster
  import opened Placement
  import opened Reconfiguration
  import opened RingBuilder
  import opened Network

  datatype Command = AddNodes(count: int) | AddOne | RemoveOne(name: string) | ShutDownAll | Switch(stop: bool)

  /** A node of this name. */
  ghost predicate Named(nodes: seq<Node>, name: string, i: nat) {
    i < |nodes| && nodes[i].name == name && forall j :: 0 <= j < i ==> nodes[j].name != name
  }

  ghost predicate NoneFound(md5: Md5, m: Metadata, a: Addr) {
    forall e :: e in m ==> !InRange(m[e], md5(a) - 2)
  }

  class ECSClient {
    const md5: Md5
    const net: Net
    var activeServers: seq<Node>
    var idleServers: seq<Node>
    var metadata: Metadata

    ghost function State(): Cluster
      reads this, Objects(net)
    {
      Cluster(States(net), activeServers, idleServers, metadata)
    }

    /** The configuration: every node has its own address and server, positions are well apart. */
    ghost predicate Configured() {
      Wired(md5, net) && Spread(md5, net.Keys) && OffZero(md5, net.Keys) && this !in Objects(net)
    }

    ghost predicate Valid()
      reads this, Objects(net)
    {
      Configured() && Settled(md5, State())
    }

    /** A coordinator that is started, for the first time or again: the configured nodes whose names
        are in the attendance list are taken to be active, all others are idle. */
    constructor (md5: Md5, net: Net, config: seq<Node>, attendance: seq<string>)
      requires Wired(md5, net) && Spread(md5, net.Keys) && OffZero(md5, net.Keys)
      requires UniqueAddrs(config) && Addrs(config) == net.Keys && (attendance != [] ==> UniqueNames(config))
      requires Steady(md5, States(net), Attending(config, attendance))
      ensures this.net == net && this.md5 == md5 && Valid()
      ensures Addrs(activeServers) == Attending(config, attendance)
      ensures multiset(activeServers + idleServers) == multiset(config)
    {
      this.md5, this.net, activeServers, idleServers, metadata := md5, net, [], [], map[];
      new;
      Recover(config, attendance);
    }

    method Recover(config: seq<Node>, attendance: seq<string>)
      requires Configured() && UniqueAddrs(config) && Addrs(config) == net.Keys
      requires (attendance != [] ==> UniqueNames(config)) && Steady(md5, States(net), Attending(config, attendance))
      modifies this
      ensures Valid() && Addrs(activeServers) == Attending(config, attendance)
      ensures multiset(activeServers + idleServers) == multiset(config)
    {
      var active, idle, ring := TakeStock(md5, config, attendance, States(net));
      Install(active, idle, ring);
    }

    method Install(active: seq<Node>, idle: seq<Node>, ring: Metadata)
      requires this !in Objects(net)
      modifies this
      ensures State() == Cluster(old(States(net)), active, idle, ring)
    {
      activeServers, idleServers, metadata := active, idle, ring;
    }

    /** The entry whose range contains the hash of the address less two; entries are visited in
        any order. None stands for null. */
    method GetNodeByKey(a: Addr) returns (entry: Option<Addr>)
      ensures entry.Some? ==> Found(md5, metadata, a, entry.value)
      ensures entry.None? ==> NoneFound(md5, metadata, a)
    {
      var left := metadata.Keys;
      while left != {}
        invariant left <= metadata.Keys
        invariant forall e :: e in metadata && e !in left ==> !InRange(metadata[e], md5(a) - 2)
        decreases left
      {
        var e :| e in left;
        left := left - {e};
        if InRange(metadata[e], md5(a) - 2) {
          return Some(e);
        }
      }
      entry := None;
    }

    /** Where an entry is known to match, null is not returned. */
    method Lookup(a: Addr) returns (entry: Addr)
      requires exists e :: Found(md5, metadata, a, e)
      ensures Found(md5, metadata, a, entry)
    {
      var found := GetNodeByKey(a);
      entry := found.value;
    }

    /** One administrative message to server a, whose reply is at most printed. */
    method Tell(a: Addr, m: AdminMsg) returns (status: Status)
      requires Wired(md5, net) && a in net
      modifies net[a], net[a].storage
      ensures States(net) == old(States(net))[a := AdminSpec(old(States(net))[a], m).0]
    {
      ghost var before := States(net);
      status := net[a].AdminServe(m);
      OneChanged(before, States(net), a, AdminSpec(before[a], m).0);
    }

    method Start(a: Addr) returns (ok: bool)
      requires Wired(md5, net) && a in net
      modifies net[a], net[a].storage
      ensures States(net) == old(States(net))[a := old(States(net))[a].(stopped := false)]
      ensures ok
    {
      ghost var before, s := States(net), net[a].State();
      var status := net[a].AdminServe(AdminMsg(START, None));
      OneChanged(before, States(net), a, s.(stopped := false));
      ok := status == START_SUCCESS;
    }

    method Stop(a: Addr) returns (ok: bool)
      requires Wired(md5, net) && a in net
      modifies net[a], net[a].storage
      ensures States(net) == old(States(net))[a := old(States(net))[a].(stopped := true)]
      ensures ok
    {
      ghost var before, s := States(net), net[a].State();
      var status := net[a].AdminServe(AdminMsg(STOP, None));
      OneChanged(before, States(net), a, s.(stopped := true));
      ok := status == STOP_SUCCESS;
    }

    method Update(a: Addr, ring: Metadata)
      requires Wired(md5, net) && a in net
      modifies net[a], net[a].storage
      ensures States(net) == old(States(net))[a := old(States(net))[a].(metadata := Some(ring))]
    {
      var status := Tell(a, AdminMsg(UPDATE, Some(ring)));
    }

    method Boot(a: Addr)
      requires Wired(md5, net) && a in net
      modifies net[a]
      ensures States(net) == old(States(net))[a := Down(a).(running := true, store := old(States(net))[a].store)]
    {
      ghost var before := States(net);
      net[a].Boot();
      OneChanged(before, States(net), a, Down(a).(running := true, store := before[a].store));
    }

    method Initialise(a: Addr, ring: Metadata)
      requires Wired(md5, net) && a in net
      modifies net[a], net[a].storage
      ensures States(net) == old(States(net))[a := old(States(net))[a].(metadata := Some(ring))]
    {
      var status := Tell(a, AdminMsg(INIT_SERVER, Some(ring)));
    }

    /** The process of an idle node is launched, initialised with the ring and started. */
    method Launch(a: Addr, ring: Metadata)
      requires Wired(md5, net) && a in net
      modifies net[a], net[a].storage
      ensures States(net) == Booted(old(States(net)), a, ring)
    {
      ghost var s0 := States(net);
      Boot(a);
      ghost var s1 := States(net);
      Initialise(a, ring);
      ghost var s2 := States(net);
      var started := Start(a);
      LaunchIs(s0, s1, s2, States(net), a, ring);
    }

    /** MOVE_DATA to server source; the outcome is only printed. */
    method MoveData(source: Addr, target: Addr, range: Range)
      requires Wired(md5, net) && source in net && target in net && source != target
      requires GoodStore(States(net)[source].store) && Knows(States(net)[target])
      modifies net[source], net[source].storage, net[target].storage
      ensures States(net) == Moved(md5, old(States(net)), source, target, range)
    {
      ghost var before := States(net);
      ghost var s, t := net[source].State(), net[target].State();
      Order(net[source], net[target], range);
      TwoChanged(before, States(net), source, target, Flushed(md5, s, range),
                 Received(md5, s, t, Selected(md5, s, range)));
    }

    method UpdateAllNodesMeta()
      requires Wired(md5, net) && Addrs(activeServers) <= net.Keys && this !in Objects(net)
      modifies Objects(net)
      ensures States(net) == Broadcast(old(States(net)), Addrs(activeServers), metadata)
    {
      ghost var nodes := activeServers;
      AddrsOf(activeServers);
      for i := 0 to |activeServers|
        invariant States(net) == Broadcast(old(States(net)), Addrs(nodes[..i]), metadata)
      {
        OneMore(nodes, i);
        Update(activeServers[i].addr, metadata);
        BroadcastOne(old(States(net)), nodes[..i], nodes[i], metadata);
      }
      assert nodes[..|nodes|] == nodes;
    }

    method Replan(nodes: seq<Node>)
      requires this !in Objects(net)
      modifies this`metadata
      ensures States(net) == old(States(net))
      ensures Collisionless(md5, nodes) ==> metadata == RingOf(md5, Addrs(nodes))
    {
      metadata := CalcMetadata(md5, nodes);
    }

    /** The first half of addNode: take idle node r, look up its successor in the old ring (if any
        node is active) and compute the new ring. No server is contacted. */
    method PlanAdd(r: nat) returns (node: Node, succ: Option<Addr>)
      requires this !in Objects(net) && r < |idleServers|
      modifies this`idleServers, this`metadata
      ensures States(net) == old(States(net))
      ensures node == old(idleServers)[r] && idleServers == Without(old(idleServers), r)
      ensures if activeServers == [] then succ == None
              else if succ == None then NoneFound(md5, old(metadata), node.addr)
              else Found(md5, old(metadata), node.addr, succ.value)
      ensures Collisionless(md5, activeServers + [node]) ==> metadata == RingOf(md5, Addrs(activeServers + [node]))
    {
      node := idleServers[r];
      idleServers := Without(idleServers, r);
      succ := None;
      if activeServers != [] {
        succ := GetNodeByKey(node.addr);
      }
      Replan(activeServers + [node]);
    }

    method Activate(node: Node)
      requires this !in Objects(net)
      modifies this`activeServers
      ensures activeServers == old(activeServers) + [node] && States(net) == old(States(net))
    {
      activeServers := activeServers + [node];
    }

    /** Launches the node and lets its successor, if there is one, move the new node's range. */
    method Populate(node: Node, succ: Option<Addr>) returns (ghost self: Addr)
      requires Wired(md5, net) && node.addr in net && node.addr in metadata
      requires exists e :: Found(md5, metadata, node.addr, e)
      requires succ.Some? ==> succ.value in net && succ.value != node.addr && GoodStore(States(net)[succ.value].store)
      modifies Objects(net)
      ensures Found(md5, metadata, node.addr, self)
      ensures var booted := Booted(old(States(net)), node.addr, metadata);
              States(net) == if succ.None? then booted else Moved(md5, booted, succ.value, node.addr, metadata[self])
    {
      var found := Lookup(node.addr);
      self := found;
      var range := metadata[found];
      Launch(node.addr, metadata);
      if succ.Some? {
        MoveData(succ.value, node.addr, range);
      }
    }

    /** The second half of addNode: fill the new node, list it as active, spread the new ring. */
    method Admit(node: Node, succ: Option<Addr>) returns (ghost self: Addr)
      requires Wired(md5, net) && this !in Objects(net)
      requires node.addr in net && Addrs(activeServers) <= net.Keys && node.addr in metadata
      requires exists e :: Found(md5, metadata, node.addr, e)
      requires succ.Some? ==> succ.value in net && succ.value != node.addr && GoodStore(States(net)[succ.value].store)
      modifies this`activeServers, Objects(net)
      ensures activeServers == old(activeServers) + [node] && Found(md5, metadata, node.addr, self)
      ensures var booted := Booted(old(States(net)), node.addr, metadata);
              States(net)
              == Broadcast(if succ.None? then booted else Moved(md5, booted, succ.value, node.addr, metadata[self]),
                           Addrs(activeServers), metadata)
    {
      self := Populate(node, succ);
      AddrsConcat(activeServers, [node]);
      Activate(node);
      UpdateAllNodesMeta();
    }

    /** addNode: some idle node joins the ring, and its successor hands it its share. */
    method AddNode() returns (node: Node, ghost r: nat)
      requires Valid() && idleServers != []
      modifies this, Objects(net)
      ensures Valid() && r < |old(idleServers)| && node == old(idleServers)[r]
      ensures NodeAdded(md5, old(State()), r, State())
    {
      ghost var c := State();
      var chosen: nat :| chosen < |idleServers|;
      r := chosen;
      ReadyToAdd(md5, c, chosen);
      var succ;
      node, succ := PlanAdd(chosen);
      SuccessorFound(md5, c, r, succ);
      ghost var self := Admit(node, succ);
      AddDone(md5, c, r, succ, self, State());
      AddNodeSettles(md5, c, r, State());
    }

    /** The first part of removeNode: the leaver's range in the old ring, the ring without it, and
        its successor there. No server is contacted. */
    method PlanRemove(i: nat) returns (range: Range, succ: Addr, ghost self: Addr)
      requires this !in Objects(net) && i < |activeServers| && RemoveReady(md5, activeServers, metadata, i)
      modifies this`metadata
      ensures States(net) == old(States(net))
      ensures Found(md5, old(metadata), activeServers[i].addr, self) && range == old(metadata)[self]
      ensures metadata == RingOf(md5, Addrs(Without(activeServers, i)))
      ensures Found(md5, metadata, activeServers[i].addr, succ)
    {
      ghost var servers := States(net);
      var node := activeServers[i];
      var entry := Lookup(node.addr);
      assert States(net) == servers;
      self, range := entry, metadata[entry];
      Replan(Without(activeServers, i));
      succ := Lookup(node.addr);
      assert States(net) == servers;
    }

    /** The second part: the successor learns the ring, receives the data, then everyone learns it. */
    method HandBack(n: Addr, succ: Addr, range: Range)
      requires Wired(md5, net) && this !in Objects(net) && Addrs(activeServers) <= net.Keys
      requires n in net && succ in net && n != succ && succ in metadata && GoodStore(States(net)[n].store)
      requires States(net)[succ].addr == succ
      modifies Objects(net)
      ensures var before := old(States(net));
              var told := before[succ := before[succ].(metadata := Some(metadata))];
              States(net) == Broadcast(Moved(md5, told, n, succ, range), Addrs(activeServers), metadata)
    {
      Update(succ, metadata);
      MoveData(n, succ, range);
      UpdateAllNodesMeta();
    }

    /** Shuts the first active node of this name down and lists it as idle. */
    method ShutdownServer(name: string) returns (done: bool, ghost i: nat)
      requires Wired(md5, net) && this !in Objects(net) && Addrs(activeServers) <= net.Keys
      modifies this`activeServers, this`idleServers, Objects(net)
      ensures done ==> Named(old(activeServers), name, i)
                       && activeServers == Without(old(activeServers), i)
                       && idleServers == old(idleServers) + [old(activeServers)[i]]
                       && States(net)
                          == old(States(net))[old(activeServers)[i].addr := Down(old(activeServers)[i].addr)]
      ensures !done ==> (forall j :: 0 <= j < |activeServers| ==> activeServers[j].name != name)
                        && activeServers == old(activeServers) && idleServers == old(idleServers)
                        && States(net) == old(States(net))
    {
      var found, k := FindNode(activeServers, name);
      done, i := found, k;
      if found {
        AddrsOf(activeServers);
        Retire(k);
      }
    }

    method Halt(a: Addr)
      requires Wired(md5, net) && a in net
      modifies net[a], net[a].storage
      ensures States(net) == old(States(net))[a := Down(a)]
    {
      var status := Tell(a, AdminMsg(SHUTDOWN, None));
    }

    /** One server is told to shut down and moves from the active to the idle list. */
    method Retire(k: nat)
      requires Wired(md5, net) && this !in Objects(net) && k < |activeServers| && activeServers[k].addr in net
      modifies this`activeServers, this`idleServers, Objects(net)
      ensures activeServers == Without(old(activeServers), k)
      ensures idleServers == old(idleServers) + [old(activeServers)[k]]
      ensures States(net) == old(States(net))[old(activeServers)[k].addr := Down(old(activeServers)[k].addr)]
    {
      idleServers := idleServers + [activeServers[k]];
      var a := activeServers[k].addr;
      activeServers := Without(activeServers, k);
      Halt(a);
    }

    /** The rest of removeNode: data to the successor, ring to everyone, then the leaver goes down. */
    method Dismiss(name: string, k: nat, succ: Addr, range: Range)
      requires Wired(md5, net) && this !in Objects(net) && Addrs(activeServers) <= net.Keys
      requires Named(activeServers, name, k)
      requires activeServers[k].addr in net && succ in net && activeServers[k].addr != succ && succ in metadata
      requires GoodStore(States(net)[activeServers[k].addr].store) && States(net)[succ].addr == succ
      modifies this`activeServers, this`idleServers, Objects(net)
      ensures activeServers == Without(old(activeServers), k)
      ensures idleServers == old(idleServers) + [old(activeServers)[k]]
      ensures var n, before := old(activeServers)[k].addr, old(States(net));
              var told := before[succ := before[succ].(metadata := Some(metadata))];
              States(net)
              == Broadcast(Moved(md5, told, n, succ, range), Addrs(old(activeServers)), metadata)[n := Down(n)]
    {
      HandBack(activeServers[k].addr, succ, range);
      var done, j := ShutdownServer(name);
      assert done && j == k;
    }

    /** removeNode once the node is found. */
    method Expel(name: string, k: nat) returns (ghost self: Addr, ghost succ: Addr)
      requires Wired(md5, net) && this !in Objects(net) && Named(activeServers, name, k)
      requires Expellable(md5, State(), k)
      modifies this, Objects(net)
      ensures Removal(md5, old(State()), k, self, succ, State())
    {
      var range, to;
      range, to, self := PlanRemove(k);
      Dismiss(name, k, to, range);
      succ := to;
    }

    /** removeNode. The command loop calls it only with at least two active nodes. */
    method RemoveNode(name: string) returns (found: bool, ghost i: nat)
      requires Valid() && |activeServers| >= 2
      modifies this, Objects(net)
      ensures Valid()
      ensures found ==> Named(old(activeServers), name, i) && NodeRemoved(md5, old(State()), i, State())
      ensures !found ==> State() == old(State())
                         && forall j :: 0 <= j < |activeServers| ==> activeServers[j].name != name
    {
      var k;
      found, k := FindNode(activeServers, name);
      i := k;
      ghost var c := State();
      assert c == old(State());
      if found {
        ReadyToRemove(md5, c, k);
        ghost var self, succ := Expel(name, k);
        RemovalSettles(md5, c, k, self, succ, State());
      }
    }

    /** shutDown removes from the list it is walking over and steps the index back; it still
        reaches every active node, in order. */
    method ShutDown() returns (ghost visited: seq<Node>)
      requires Valid()
      modifies this, Objects(net)
      ensures Valid() && visited == old(activeServers)
      ensures State() == AllDown(old(State()))
    {
      ghost var c := State();
      DownSettles(md5, c);
      visited := ShutDownLoop();
    }

    method ShutDownLoop() returns (ghost visited: seq<Node>)
      requires Wired(md5, net) && this !in Objects(net) && Addrs(activeServers) <= net.Keys
      modifies this`activeServers, this`idleServers, Objects(net)
      ensures visited == old(activeServers) && State() == AllDown(old(State()))
    {
      visited := [];
      AddrsOf(activeServers);
      var i: int := 0;
      while i < |activeServers|
        invariant i == 0 && visited + activeServers == old(activeServers)
        invariant old(idleServers) + visited == idleServers
        invariant States(net) == Halted(old(States(net)), Addrs(visited))
        decreases |activeServers|
      {
        ghost var node := activeServers[i];
        HaltedOne(old(States(net)), visited, node);
        FirstOf(activeServers, idleServers, visited, old(activeServers));
        Retire(i);
        visited := visited + [node];
        i := i - 1;
        i := i + 1;
      }
      assert visited == old(activeServers);
    }

    /** start and stop: one message to every active server, all of which obey. */
    method Switch(stop: bool) returns (allSuccess: bool)
      requires Valid()
      modifies Objects(net)
      ensures Valid() && State() == Switched(old(State()), stop) && allSuccess
    {
      ghost var c := State();
      SwitchSettles(md5, c, stop);
      allSuccess := SwitchLoop(stop);
    }

    method SwitchLoop(stop: bool) returns (allSuccess: bool)
      requires Wired(md5, net) && this !in Objects(net) && Addrs(activeServers) <= net.Keys
      modifies Objects(net)
      ensures State() == Switched(old(State()), stop) && allSuccess
    {
      allSuccess := true;
      ghost var nodes := activeServers;
      AddrsOf(activeServers);
      for i := 0 to |activeServers|
        invariant States(net) == Flagged(old(States(net)), Addrs(nodes[..i]), stop) && allSuccess
      {
        OneMore(nodes, i);
        var ok;
        if stop {
          ok := Stop(activeServers[i].addr);
        } else {
          ok := Start(activeServers[i].addr);
        }
        allSuccess := allSuccess && ok;
        FlaggedOne(old(States(net)), nodes[..i], nodes[i], stop);
      }
      assert nodes[..|nodes|] == nodes;
    }

    /** addNodes: the command calls addNode the given number of times. */
    method AddMany(count: int)
      requires Valid() && count <= |idleServers|
      modifies this, Objects(net)
      ensures Valid() && SameNodes(old(State()), State()) && SamePairs(old(State()), State())
      ensures old(activeServers) <= activeServers
      ensures |activeServers| == |old(activeServers)| + if count < 0 then 0 else count
    {
      var i := 0;
      while i < count
        invariant Valid() && 0 <= i && (count < 0 ==> i == 0) && (count >= 0 ==> i <= count)
        invariant SameNodes(old(State()), State()) && SamePairs(old(State()), State())
        invariant old(activeServers) <= activeServers && |activeServers| == |old(activeServers)| + i
      {
        ghost var c := State();
        SameTotal(old(State()), c);
        var node, r := AddNode();
        AddKeeps(md5, c, r, State());
        i := i + 1;
      }
    }

    /** The guards of addNodes, and of addNode as the case of one node. */
    method AddIfAvailable(count: int) returns (ok: bool)
      requires Valid()
      modifies this, Objects(net)
      ensures Valid() && SameNodes(old(State()), State()) && SamePairs(old(State()), State())
      ensures ok <==> old(idleServers) != [] && count <= |old(idleServers)|
      ensures ok ==> |activeServers| == |old(activeServers)| + if count < 0 then 0 else count
      ensures !ok ==> State() == old(State())
    {
      ok := |idleServers| != 0 && count <= |idleServers|;
      if ok {
        AddMany(count);
      }
    }

    method RemoveNamed(name: string) returns (found: bool)
      requires Valid() && |activeServers| >= 2
      modifies this, Objects(net)
      ensures Valid() && SameNodes(old(State()), State())
      ensures found <==> exists j :: 0 <= j < |old(activeServers)| && old(activeServers)[j].name == name
      ensures found ==> exists i :: Named(old(activeServers), name, i) && NodeRemoved(md5, old(State()), i, State())
      ensures !found ==> State() == old(State())
    {
      ghost var active, idle := activeServers, idleServers;
      ghost var i;
      found, i := RemoveNode(name);
      if found {
        TransferMultiset(active, idle, i);
      }
    }

    /** One line of the command loop, with its guards. */
    method Handle(cmd: Command) returns (ok: bool)
      requires Valid()
      modifies this, Objects(net)
      ensures Valid() && SameNodes(old(State()), State())
      ensures cmd.AddNodes? ==> (ok <==> |old(idleServers)| > 0 && cmd.count <= |old(idleServers)|)
      ensures cmd.AddOne? ==> (ok <==> |old(idleServers)| > 0)
      ensures cmd.RemoveOne? ==>
                (ok <==> |old(activeServers)| >= 2
                         && exists j :: 0 <= j < |old(activeServers)| && old(activeServers)[j].name == cmd.name)
      ensures cmd.ShutDownAll? || cmd.Switch? ==> ok
      ensures !ok ==> State() == old(State())
      ensures cmd.AddNodes? || cmd.AddOne? || cmd.Switch? ==> SamePairs(old(State()), State())
      ensures ok && cmd.AddNodes? ==> |activeServers| == |old(activeServers)| + if cmd.count < 0 then 0 else cmd.count
      ensures ok && cmd.AddOne? ==> |activeServers| == |old(activeServers)| + 1
      ensures ok && cmd.RemoveOne? ==> exists i :: Named(old(activeServers), cmd.name, i)
                                                   && NodeRemoved(md5, old(State()), i, State())
      ensures cmd.ShutDownAll? ==> State() == AllDown(old(State()))
      ensures cmd.Switch? ==> State() == Switched(old(State()), cmd.stop)
    {
      ghost var c := State();
      match cmd
      case AddNodes(count) =>
        ok := AddIfAvailable(count);
      case AddOne =>
        ok := AddIfAvailable(1);
      case RemoveOne(name) =>
        ok := |activeServers| > 1;
        if ok {
          ok := RemoveNamed(name);
        }
      case ShutDownAll =>
        ghost var visited := ShutDown();
        DownKeepsNodes(c);
        ok := true;
      case Switch(stop) =>
        ok := Switch(stop);
        SwitchKeeps(c, stop);
    }

    /** The command loop. Whatever is typed, the active and idle lists stay disjoint and free of
        duplicates and hold exactly the configured nodes. */
    method Run(cmds: seq<Command>)
      requires Valid()
      modifies this, Objects(net)
      ensures Valid() && SameNodes(old(State()), State())
    {
      for i := 0 to |cmds|
        invariant Valid() && SameNodes(old(State()), State())
      {
        var ok := Handle(cmds[i]);
      }
    }
  }

  // ---- bookkeeping ---------------------------------------------------------------------

  /** No node is lost from the lists or listed twice. */
  ghost predicate SameNodes(c: Cluster, c': Cluster) {
    multiset(c'.active + c'.idle) == multiset(c.active + c.idle)
  }

  lemma SameTotal(c: Cluster, c': Cluster)
    requires SameNodes(c, c')
    ensures |c'.active| + |c'.idle| == |c.active| + |c.idle|
  {
    assert |multiset(c'.active + c'.idle)| == |multiset(c.active + c.idle)|;
  }

  /** The same pairs are stored, each once. */
  ghost predicate SamePairs(c: Cluster, c': Cluster) {
    forall g :: Holds(c.servers, g) ==> Holds(c'.servers, g)
  }

  /** What addNode and removeNode leave behind, in plain terms: the new node runs, is open and knows the
      ring like every active server; the leaver is the one that was named, is down and empty, and
      the others stay active in their order. */
  lemma AddedMeans(md5: Md5, c: Cluster, r: nat, c': Cluster)
    requires Settled(md5, c) && Spread(md5, c.servers.Keys) && r < |c.idle| && NodeAdded(md5, c, r, c')
    ensures c'.active == c.active + [c.idle[r]] && c'.idle == c.idle[..r] + c.idle[r + 1..]
    ensures c.idle[r].addr in c'.servers
    ensures var s := c'.servers[c.idle[r].addr]; s.running && !s.stopped && !s.locked && s.metadata == Some(c'.metadata)
    ensures forall a :: a in Addrs(c'.active) ==> a in c'.servers && c'.servers[a].metadata == Some(c'.metadata)
  {
    AddLists(c, r);
    AddNodeSettles(md5, c, r, c');
    ActiveKnowRing(md5, c');
    AddrsOf(c'.active);
    assert c'.active[|c.active|] == c.idle[r];
  }

  lemma RemovedMeans(md5: Md5, c: Cluster, name: string, i: nat, c': Cluster)
    requires Settled(md5, c) && Spread(md5, c.servers.Keys) && Named(c.active, name, i) && NodeRemoved(md5, c, i, c')
    ensures c.active[i].name == name && forall j :: 0 <= j < i ==> c.active[j].name != name
    ensures c'.active == c.active[..i] + c.active[i + 1..] && c'.idle == c.idle + [c.active[i]]
    ensures c.active[i].addr in c'.servers
    ensures !c'.servers[c.active[i].addr].running && c'.servers[c.active[i].addr].store == map[]
    ensures forall a :: a in Addrs(c'.active) ==> a in c'.servers && c'.servers[a].metadata == Some(c'.metadata)
  {
    var succ := RemoveNodeSettles(md5, c, i, c');
    ActiveKnowRing(md5, c');
  }

  lemma ActiveKnowRing(md5: Md5, c: Cluster)
    requires Settled(md5, c)
    ensures forall a :: a in Addrs(c.active) ==> a in c.servers && c.servers[a].running && !c.servers[a].locked
                                                 && c.servers[a].metadata == Some(c.metadata)
  {
    forall a | a in Addrs(c.active) ensures a in c.servers && Standing(md5, Addrs(c.active), a, c.servers[a]) {
    }
  }

  /** What shutDown, start and stop leave behind. */
  lemma AllDownMeans(c: Cluster, a: Addr)
    requires a in c.servers
    ensures AllDown(c).active == [] && AllDown(c).idle == c.idle + c.active && AllDown(c).metadata == c.metadata
    ensures a in AllDown(c).servers
    ensures a in Addrs(c.active) ==> !AllDown(c).servers[a].running && AllDown(c).servers[a].store == map[]
    ensures a !in Addrs(c.active) ==> AllDown(c).servers[a] == c.servers[a]
  {
  }

  lemma SwitchedMeans(c: Cluster, stop: bool, a: Addr)
    requires a in c.servers
    ensures var c' := Switched(c, stop);
            && c'.active == c.active && c'.idle == c.idle && c'.metadata == c.metadata && a in c'.servers
            && (a in Addrs(c.active) ==> c'.servers[a].stopped == stop)
            && (a !in Addrs(c.active) ==> c'.servers[a] == c.servers[a])
            && c'.servers[a].store == c.servers[a].store && c'.servers[a].metadata == c.servers[a].metadata
  {
  }

  lemma AddKeeps(md5: Md5, c: Cluster, r: nat, c': Cluster)
    requires Settled(md5, c) && Spread(md5, c.servers.Keys) && r < |c.idle| && NodeAdded(md5, c, r, c')
    ensures SameNodes(c, c') && SamePairs(c, c') && |c'.active| == |c.active| + 1
  {
    ActivateOne(c.active, c.idle, r);
    AddSamePairs(md5, c, r, c');
  }

  lemma ActivateOne(active: seq<Node>, idle: seq<Node>, r: nat)
    requires r < |idle|
    ensures multiset((active + [idle[r]]) + Without(idle, r)) == multiset(active + idle)
  {
    assert idle == idle[..r] + [idle[r]] + idle[r + 1..];
  }

  lemma AddSamePairs(md5: Md5, c: Cluster, r: nat, c': Cluster)
    requires Settled(md5, c) && Spread(md5, c.servers.Keys) && r < |c.idle| && NodeAdded(md5, c, r, c')
    ensures SamePairs(c, c')
  {
    forall g | Holds(c.servers, g) ensures Holds(c'.servers, g) {
      AddNodeConserves(md5, c, r, c', g);
    }
  }

  /** Retiring the first active node moves it from the list to be visited to the visited ones. */
  lemma FirstOf(active: seq<Node>, idle: seq<Node>, visited: seq<Node>, all: seq<Node>)
    requires active != [] && visited + active == all
    ensures (visited + [active[0]]) + Without(active, 0) == all && active[0] in all
    ensures forall base :: base + visited == idle ==> base + (visited + [active[0]]) == idle + [active[0]]
  {
    assert all[|visited|] == active[0];
    assert active[0] in all;
  }

  lemma HaltedOne(servers: map<Addr, ServerState>, nodes: seq<Node>, node: Node)
    requires node.addr in servers
    ensures Halted(servers, Addrs(nodes + [node])) == Halted(servers, Addrs(nodes))[node.addr := Down(node.addr)]
  {
    AddrsConcat(nodes, [node]);
    assert Addrs([node]) == {node.addr};
  }

  lemma FlaggedOne(servers: map<Addr, ServerState>, nodes: seq<Node>, node: Node, stop: bool)
    requires node.addr in servers
    ensures var before := Flagged(servers, Addrs(nodes), stop);
            Flagged(servers, Addrs(nodes + [node]), stop)
            == before[node.addr := before[node.addr].(stopped := stop)]
  {
    AddrsConcat(nodes, [node]);
    assert Addrs([node]) == {node.addr};
  }

  /** After shutDown every server is down and every node is idle. */
  lemma DownSettles(md5: Md5, c: Cluster)
    requires Settled(md5, c)
    ensures Settled(md5, AllDown(c)) && Addrs(c.active) <= c.servers.Keys
  {
    var c' := AllDown(c);
    SwapLists(c.active, c.idle);
    ListsDisjoint(c.active, c.idle);
    assert c'.active + c'.idle == c.idle + c.active;
    assert Addrs(c'.active) == {};
    AllHalted(md5, c.servers, Addrs(c.active));
  }

  lemma DownKeepsNodes(c: Cluster)
    ensures SameNodes(c, AllDown(c))
  {
    assert [] + (c.idle + c.active) == c.idle + c.active;
  }

  lemma AllHalted(md5: Md5, servers: map<Addr, ServerState>, live: set<Addr>)
    requires Steady(md5, servers, live)
    ensures Steady(md5, Halted(servers, live), {})
  {
    forall a | a in servers ensures Halted(servers, live)[a] == Down(a) {
      assert Standing(md5, live, a, servers[a]);
    }
  }

  lemma SwitchSettles(md5: Md5, c: Cluster, stop: bool)
    requires Settled(md5, c)
    ensures Settled(md5, Switched(c, stop)) && Addrs(c.active) <= c.servers.Keys
  {
    ListsDisjoint(c.active, c.idle);
    AllFlagged(md5, c.servers, Addrs(c.active), stop);
  }

  lemma AllFlagged(md5: Md5, servers: map<Addr, ServerState>, live: set<Addr>, stop: bool)
    requires Steady(md5, servers, live)
    ensures Steady(md5, Flagged(servers, live, stop), live)
  {
    forall a | a in servers ensures Standing(md5, live, a, Flagged(servers, live, stop)[a]) {
      assert Standing(md5, live, a, servers[a]);
    }
  }

  lemma SwitchKeeps(c: Cluster, stop: bool)
    ensures SamePairs(c, Switched(c, stop))
  {
    forall g | Holds(c.servers, g) ensures Holds(Switched(c, stop).servers, g) {
      SameStores(c.servers, Switched(c, stop).servers, g);
    }
  }

  lemma OneChanged(before: map<Addr, ServerState>, after: map<Addr, ServerState>, a: Addr, s: ServerState)
    requires a in before && after.Keys == before.Keys && after[a] == s
    requires forall b :: b in before && b != a ==> after[b] == before[b]
    ensures after == before[a := s]
  {
  }

  lemma TwoChanged(before: map<Addr, ServerState>, after: map<Addr, ServerState>, a: Addr, b: Addr,
                   s: ServerState, t: ServerState)
    requires a in before && b in before && a != b && after.Keys == before.Keys && after[a] == s && after[b] == t
    requires forall c :: c in before && c != a && c != b ==> after[c] == before[c]
    ensures after == before[a := s][b := t]
  {
  }

  /** Boot, INIT_SERVER and START, one after the other. */
  lemma LaunchIs(s0: map<Addr, ServerState>, s1: map<Addr, ServerState>, s2: map<Addr, ServerState>,
                 s3: map<Addr, ServerState>, a: Addr, ring: Metadata)
    requires a in s0 && s1 == s0[a := Down(a).(running := true, store := s0[a].store)]
    requires s2 == s1[a := s1[a].(metadata := Some(ring))] && s3 == s2[a := s2[a].(stopped := false)]
    ensures s3 == Booted(s0, a, ring)
  {
  }

  lemma OneMore<T>(s: seq<T>, i: nat)
    requires i < |s|
    ensures s[..i + 1] == s[..i] + [s[i]]
  {
  }

  lemma BroadcastOne(servers: map<Addr, ServerState>, nodes: seq<Node>, node: Node, ring: Metadata)
    requires node.addr in servers
    ensures var before := Broadcast(servers, Addrs(nodes), ring);
            Broadcast(servers, Addrs(nodes + [node]), ring)
            == before[node.addr := before[node.addr].(metadata := Some(ring))]
  {
    AddrsConcat(nodes, [node]);
    assert Addrs([node]) == {node.addr};
  }

  // ---- starting the coordinator ------------------------------------------------------------

  ghost predicate UniqueNames(nodes: seq<Node>) {
    forall i, j :: 0 <= i < j < |nodes| ==> nodes[i].name != nodes[j].name
  }

  /** The configured nodes that are present. */
  function Attending(config: seq<Node>, attendance: seq<string>): set<Addr> {
    set n | n in config && n.name in attendance :: n.addr
  }

  /** The first node of this name. */
  method FindNode(nodes: seq<Node>, name: string) returns (found: bool, i: nat)
    ensures found ==> Named(nodes, name, i)
    ensures !found ==> forall j :: 0 <= j < |nodes| ==> nodes[j].name != name
  {
    i := 0;
    while i < |nodes|
      invariant i <= |nodes|
      invariant forall j :: 0 <= j < i ==> nodes[j].name != name
    {
      if nodes[i].name == name {
        return true, i;
      }
      i := i + 1;
    }
    found := false;
  }

  /** How far the walk over the attendance list has got. */
  ghost predicate Attended(config: seq<Node>, attendance: seq<string>, i: nat, active: seq<Node>, idle: seq<Node>)
    requires i <= |attendance|
  {
    && UniqueAddrs(active + idle) && multiset(active + idle) == multiset(config)
    && (forall n :: n in active ==> n.name in attendance)
    && (forall n :: n in idle ==> n.name !in attendance[..i])
  }

  lemma AttendOne(config: seq<Node>, attendance: seq<string>, i: nat, active: seq<Node>, idle: seq<Node>, k: nat)
    requires i < |attendance| && Attended(config, attendance, i, active, idle) && UniqueNames(idle)
    requires k < |idle| && idle[k].name == attendance[i]
    ensures Attended(config, attendance, i + 1, active + [idle[k]], Without(idle, k)) && UniqueNames(Without(idle, k))
  {
    Activated(active, idle, k);
    ActivateOne(active, idle, k);
    OthersKeepNames(idle, k);
    OneMore(attendance, i);
  }

  lemma AttendNone(config: seq<Node>, attendance: seq<string>, i: nat, active: seq<Node>, idle: seq<Node>)
    requires i < |attendance| && Attended(config, attendance, i, active, idle)
    requires forall j :: 0 <= j < |idle| ==> idle[j].name != attendance[i]
    ensures Attended(config, attendance, i + 1, active, idle)
  {
    OneMore(attendance, i);
  }

  /** Each present name moves one node from the idle to the active list, in place. */
  method TakeAttendance(config: seq<Node>, attendance: seq<string>) returns (active: seq<Node>, idle: seq<Node>)
    requires UniqueAddrs(config) && (attendance != [] ==> UniqueNames(config))
    ensures Attended(config, attendance, |attendance|, active, idle)
  {
    active, idle := [], config;
    assert active + idle == config;
    for i := 0 to |attendance|
      invariant Attended(config, attendance, i, active, idle) && (attendance != [] ==> UniqueNames(idle))
    {
      var found, k := FindNode(idle, attendance[i]);
      if found {
        AttendOne(config, attendance, i, active, idle, k);
        active, idle := active + [idle[k]], Without(idle, k);
      } else {
        AttendNone(config, attendance, i, active, idle);
      }
    }
  }

  lemma OthersKeepNames(nodes: seq<Node>, k: nat)
    requires k < |nodes| && UniqueNames(nodes)
    ensures UniqueNames(Without(nodes, k))
    ensures forall n :: n in Without(nodes, k) ==> n in nodes && n.name != nodes[k].name
  {
    var rest := Without(nodes, k);
    forall i | 0 <= i < |rest| ensures rest[i] == nodes[if i < k then i else i + 1] {
    }
  }

  /** The nodes that were made active are exactly those that attend. */
  lemma AttendanceIs(config: seq<Node>, active: seq<Node>, idle: seq<Node>, attendance: seq<string>)
    requires Attended(config, attendance, |attendance|, active, idle)
    ensures Addrs(active) == Attending(config, attendance) && Addrs(active + idle) == Addrs(config)
    ensures UniqueAddrs(active) && Addrs(active) <= Addrs(config)
  {
    ListsDisjoint(active, idle);
    assert attendance[..|attendance|] == attendance;
    forall n ensures n in config <==> n in active || n in idle {
      assert n in multiset(config) <==> n in multiset(active + idle);
    }
  }

  /** The lists and the ring that a coordinator starts with. */
  method TakeStock(md5: Md5, config: seq<Node>, attendance: seq<string>, ghost servers: map<Addr, ServerState>)
    returns (active: seq<Node>, idle: seq<Node>, ring: Metadata)
    requires Spread(md5, servers.Keys) && UniqueAddrs(config) && Addrs(config) == servers.Keys
    requires (attendance != [] ==> UniqueNames(config)) && Steady(md5, servers, Attending(config, attendance))
    ensures Settled(md5, Cluster(servers, active, idle, ring))
    ensures Addrs(active) == Attending(config, attendance) && multiset(active + idle) == multiset(config)
  {
    active, idle := TakeAttendance(config, attendance);
    AttendanceIs(config, active, idle, attendance);
    SpreadIsDistinct(md5, servers.Keys, Addrs(active));
    ring := CalcMetadata(md5, active);
    StartSettles(md5, servers, config, active, idle, attendance);
  }

  lemma StartSettles(md5: Md5, servers: map<Addr, ServerState>, config: seq<Node>, active: seq<Node>, idle: seq<Node>,
                     attendance: seq<string>)
    requires UniqueAddrs(active + idle) && Addrs(active + idle) == Addrs(config) == servers.Keys
    requires Addrs(active) == Attending(config, attendance) && Steady(md5, servers, Attending(config, attendance))
    ensures Settled(md5, Cluster(servers, active, idle, RingOf(md5, Addrs(active))))
  {
  }

  /** A coordinator that is started again while the servers run finds exactly the nodes that were
      active before, so that its ring is the one the servers have. */
  lemma RestartFindsActive(c: Cluster, config: seq<Node>, attendance: seq<string>)
    requires UniqueNames(config) && multiset(c.active + c.idle) == multiset(config)
    requires forall name :: name in attendance <==> exists n :: n in c.active && n.name == name
    ensures Attending(config, attendance) == Addrs(c.active)
  {
    forall n ensures n in config <==> n in c.active || n in c.idle {
      assert n in multiset(config) <==> n in multiset(c.active + c.idle);
    }
    forall n | n in config && n.name in attendance ensures n in c.active {
      var m :| m in c.active && m.name == n.name;
      var i :| 0 <= i < |config| && config[i] == n;
      var j :| 0 <= j < |config| && config[j] == m;
    }
  }

  /** When no process runs, nobody attends. */
  lemma NothingRuns(md5: Md5, servers: map<Addr, ServerState>, config: seq<Node>)
    requires forall a :: a in servers ==> servers[a] == Down(a)
    ensures Steady(md5, servers, Attending(config, []))
  {
    assert Attending(config, []) == {};
  }

  /** MOVE_DATA to a server whose receiver knows its own range, which cannot fail. */
  method Order(server: KVServer, target: KVServer, range: Range)
    requires server != target && server.storage != target.storage && server.md5 == target.md5
    requires GoodStore(server.storage.kv) && Knows(target.State())
    modifies server, server.storage, target.storage
    ensures server.State() == Flushed(server.md5, old(server.State()), range)
    ensures target.State()
            == Received(server.md5, old(server.State()), old(target.State()),
                        Selected(server.md5, old(server.State()), range))
  {
    NeverThrows(target.State(), Selected(server.md5, server.State(), range));
    var status := server.AdminMove(range, target);
    assert status == MOVE_DATA_SUCCESS;
  }

  lemma NeverThrows(t: ServerState, keys: set<string>)
    requires Knows(t)
    ensures !(exists k :: k in keys && Throws(t, k))
  {
  }

  /** What addNode finds when it starts. */
  ghost predicate AddReady(md5: Md5, c: Cluster, r: nat)
    requires r < |c.idle|
  {
    var n := c.idle[r].addr;
    && n in c.servers && n !in Addrs(c.active) && Addrs(c.active) <= c.servers.Keys
    && Collisionless(md5, c.active + [c.idle[r]])
    && Addrs(c.active + [c.idle[r]]) == Addrs(c.active) + {n}
    && (exists e :: Found(md5, RingOf(md5, Addrs(c.active) + {n}), n, e))
    && (c.active != [] ==> c.metadata.Keys == Addrs(c.active) && exists e :: Found(md5, c.metadata, n, e))
    && (forall a :: a in c.servers ==> GoodStore(c.servers[a].store))
  }

  lemma ReadyToAdd(md5: Md5, c: Cluster, r: nat)
    requires Settled(md5, c) && Spread(md5, c.servers.Keys) && r < |c.idle|
    ensures AddReady(md5, c, r)
  {
    var n := c.idle[r].addr;
    AddLists(c, r);
    ListsDisjoint(c.active + [c.idle[r]], Without(c.idle, r));
    SpreadIsDistinct(md5, c.servers.Keys, Addrs(c.active) + {n});
    FoundExists(md5, Addrs(c.active) + {n}, n);
    if c.active != [] {
      assert c.active[0].addr in Addrs(c.active);
      FoundExists(md5, Addrs(c.active), n);
    }
    forall a | a in c.servers ensures GoodStore(c.servers[a].store) {
      assert Standing(md5, Addrs(c.active), a, c.servers[a]);
    }
  }

  /** What the first lookup of addNode returned, for a node that is ready. */
  lemma SuccessorFound(md5: Md5, c: Cluster, r: nat, succ: Option<Addr>)
    requires r < |c.idle| && AddReady(md5, c, r)
    requires var n := c.idle[r].addr;
             if c.active == [] then succ == None
             else if succ == None then NoneFound(md5, c.metadata, n) else Found(md5, c.metadata, n, succ.value)
    ensures succ.None? <==> c.active == []
    ensures succ.Some? ==> succ.value in c.servers && succ.value != c.idle[r].addr
                           && GoodStore(c.servers[succ.value].store)
  {
  }

  /** What the steps of addNode did, with the entries that the two lookups returned. */
  ghost predicate Addition(md5: Md5, c: Cluster, r: nat, succ: Option<Addr>, self: Addr, c': Cluster) {
    && r < |c.idle| && c.idle[r].addr in c.servers
    && var n := c.idle[r].addr;
    var ring := RingOf(md5, Addrs(c.active) + {n});
    var booted := Booted(c.servers, n, ring);
    && c'.active == c.active + [c.idle[r]] && c'.idle == Without(c.idle, r) && c'.metadata == ring
    && ring.Keys == Addrs(c'.active)
    && Found(md5, ring, n, self) && (succ.None? <==> c.active == [])
    && (succ.Some? ==> succ.value in c.servers && Found(md5, c.metadata, n, succ.value))
    && c'.servers == Broadcast(if succ.None? then booted else Moved(md5, booted, succ.value, n, ring[self]),
                               Addrs(c'.active), ring)
  }

  /** The steps of addNode add up to the command. */
  lemma AddDone(md5: Md5, c: Cluster, r: nat, succ: Option<Addr>, self: Addr, c': Cluster)
    requires Addition(md5, c, r, succ, self, c')
    ensures NodeAdded(md5, c, r, c')
  {
    if succ.Some? {
      assert c'.servers == Joined(md5, c.servers, c.idle[r].addr, c'.metadata, succ.value, self);
    }
  }

  /** Both lookups of removeNode will succeed. */
  ghost predicate RemoveReady(md5: Md5, active: seq<Node>, m: Metadata, i: nat)
    requires i < |active|
  {
    && Collisionless(md5, Without(active, i))
    && (exists e :: Found(md5, m, active[i].addr, e))
    && (exists e :: Found(md5, RingOf(md5, Addrs(Without(active, i))), active[i].addr, e))
  }

  /** What removeNode finds when it starts. */
  ghost predicate Expellable(md5: Md5, c: Cluster, i: nat) {
    && i < |c.active| && RemoveReady(md5, c.active, c.metadata, i)
    && var n := c.active[i].addr;
    && n in c.servers && Addrs(c.active) <= c.servers.Keys && GoodStore(c.servers[n].store)
    && Addrs(Without(c.active, i)) == Addrs(c.active) - {n} && n in Addrs(c.active)
    && forall a :: a in c.servers ==> c.servers[a].addr == a
  }

  lemma ReadyToRemove(md5: Md5, c: Cluster, i: nat)
    requires Settled(md5, c) && Spread(md5, c.servers.Keys) && i < |c.active| && |c.active| >= 2
    ensures Expellable(md5, c, i)
  {
    var n, rest := c.active[i].addr, Without(c.active, i);
    RemoveLists(c, i);
    ListsDisjoint(rest, c.idle + [c.active[i]]);
    SpreadIsDistinct(md5, c.servers.Keys, Addrs(c.active) - {n});
    assert rest[0].addr in Addrs(rest);
    FoundExists(md5, Addrs(rest), n);
    FoundExists(md5, Addrs(c.active), n);
    assert Standing(md5, Addrs(c.active), n, c.servers[n]);
    assert forall a :: a in c.servers ==> Standing(md5, Addrs(c.active), a, c.servers[a]);
  }

  /** What the steps of removeNode did, with the entries that the two lookups returned. */
  ghost predicate Removal(md5: Md5, c: Cluster, i: nat, self: Addr, succ: Addr, c': Cluster) {
    && i < |c.active| && c.active[i].addr in c.servers && succ in c.servers
    && var n := c.active[i].addr;
    var ring := RingOf(md5, Addrs(c.active) - {n});
    && c'.active == Without(c.active, i) && c'.idle == c.idle + [c.active[i]] && c'.metadata == ring
    && n in Addrs(c.active) && Found(md5, c.metadata, n, self) && Found(md5, ring, n, succ)
    && var told := c.servers[succ := c.servers[succ].(metadata := Some(ring))];
    c'.servers == Broadcast(Moved(md5, told, n, succ, c.metadata[self]), Addrs(c.active), ring)[n := Down(n)]
  }

  /** The steps of removeNode add up to the command. */
  lemma RemoveDone(md5: Md5, c: Cluster, i: nat, self: Addr, succ: Addr, c': Cluster)
    requires Removal(md5, c, i, self, succ, c')
    ensures NodeRemoved(md5, c, i, c')
  {
    var n := c.active[i].addr;
    assert c'.metadata.Keys + {n} == Addrs(c.active);
    assert c'.servers == Parted(md5, c.servers, n, c.metadata[self], c'.metadata, succ);
  }

  lemma RemovalSettles(md5: Md5, c: Cluster, i: nat, self: Addr, succ: Addr, c': Cluster)
    requires Settled(md5, c) && Spread(md5, c.servers.Keys) && Removal(md5, c, i, self, succ, c')
    ensures NodeRemoved(md5, c, i, c') && Settled(md5, c')
  {
    RemoveDone(md5, c, i, self, succ, c');
    var s := RemoveNodeSettles(md5, c, i, c');
  }
}
