/** The whole system as one value, and what the coordinator's commands do to it. A
    command is a macro-step here: the value before it and the value after it. The
    lookups inside a command may match several entries, so a command is a relation. */
module Cluster {
  import opened Wrappers
  import opened Ring
  import opened Server

  datatype Node = Node(name: string, addr: Addr)

  /** servers has an entry for every configured node; those not running are Down. */
  datatype Cluster = Cluster(
    servers: map<Addr, ServerState>, active: seq<Node>, idle: seq<Node>, metadata: Metadata)

  function Addrs(nodes: seq<Node>): set<Addr> {
    set n | n in nodes :: n.addr
  }

  function Without<T>(s: seq<T>, i: nat): seq<T>
    requires i < |s|
  {
    s[..i] + s[i + 1..]
  }

  ghost predicate UniqueAddrs(nodes: seq<Node>) {
    forall i, j :: 0 <= i < j < |nodes| ==> nodes[i].addr != nodes[j].addr
  }

  /** Each configured node is listed once, as active or idle. */
  ghost predicate Listed(c: Cluster) {
    UniqueAddrs(c.active + c.idle) && c.servers.Keys == Addrs(c.active + c.idle)
  }

  // ---- effects of single administrative messages ---------------------------------------

  function Broadcast(servers: map<Addr, ServerState>, addrs: set<Addr>, ring: Metadata): map<Addr, ServerState> {
    map a | a in servers :: if a in addrs then servers[a].(metadata := Some(ring)) else servers[a]
  }

  /** The process of a has started, was given the ring and opened for clients. */
  function Booted(servers: map<Addr, ServerState>, a: Addr, ring: Metadata): map<Addr, ServerState>
    requires a in servers
  {
    servers[a := Down(a).(running := true, stopped := false, metadata := Some(ring), store := servers[a].store)]
  }

  function Moved(md5: Md5, servers: map<Addr, ServerState>, source: Addr, target: Addr, range: Range)
    : map<Addr, ServerState>
    requires source in servers && target in servers
  {
    var s := servers[source];
    servers[source := Flushed(md5, s, range)][target := Received(md5, s, servers[target], Selected(md5, s, range))]
  }

  // ---- lookups and commands --------------------------------------------------------------

  /** An entry the coordinator's lookup of address a may return. */
  predicate Found(md5: Md5, m: Metadata, a: Addr, entry: Addr) {
    entry in m && InRange(m[entry], md5(a) - 2)
  }

  /** The servers after node n joined: started with the new ring, given its share by succ,
      and the new ring sent to everyone. */
  function Joined(md5: Md5, servers: map<Addr, ServerState>, n: Addr, ring: Metadata, succ: Addr, self: Addr)
    : map<Addr, ServerState>
    requires n in servers && succ in servers && self in ring
  {
    Broadcast(Moved(md5, Booted(servers, n, ring), succ, n, ring[self]), ring.Keys, ring)
  }

  /** The servers after node n left: succ learns the new ring, receives the range that was found
      for n in the old one, the new ring goes to everyone, and n is shut down. */
  function Parted(md5: Md5, servers: map<Addr, ServerState>, n: Addr, range: Range, ring: Metadata, succ: Addr)
    : map<Addr, ServerState>
    requires n in servers && succ in servers
  {
    var told := servers[succ := servers[succ].(metadata := Some(ring))];
    Broadcast(Moved(md5, told, n, succ, range), ring.Keys + {n}, ring)[n := Down(n)]
  }

  /** addNode choosing idle node r. */
  ghost predicate NodeAdded(md5: Md5, c: Cluster, r: nat, c': Cluster)
    requires r < |c.idle|
  {
    var n := c.idle[r].addr;
    var ring := RingOf(md5, Addrs(c.active) + {n});
    && c'.active == c.active + [c.idle[r]] && c'.idle == Without(c.idle, r) && c'.metadata == ring
    && n in c.servers
    && if c.active == [] then c'.servers == Broadcast(Booted(c.servers, n, ring), ring.Keys, ring)
       else exists succ, self :: succ in c.servers && Found(md5, c.metadata, n, succ) && Found(md5, ring, n, self)
                                 && c'.servers == Joined(md5, c.servers, n, ring, succ, self)
  }

  /** removeNode of active node i. */
  ghost predicate NodeRemoved(md5: Md5, c: Cluster, i: nat, c': Cluster)
    requires i < |c.active|
  {
    var n := c.active[i].addr;
    var ring := RingOf(md5, Addrs(c.active) - {n});
    && c'.active == Without(c.active, i) && c'.idle == c.idle + [c.active[i]] && c'.metadata == ring
    && n in c.servers
    && exists self, succ :: succ in c.servers && Found(md5, c.metadata, n, self) && Found(md5, ring, n, succ)
                            && c'.servers == Parted(md5, c.servers, n, c.metadata[self], ring, succ)
  }

  /** The listed servers cleared their storage and exited. */
  function Halted(servers: map<Addr, ServerState>, addrs: set<Addr>): map<Addr, ServerState> {
    map a | a in servers :: if a in addrs then Down(a) else servers[a]
  }

  /** The listed servers were opened or closed for clients. */
  function Flagged(servers: map<Addr, ServerState>, addrs: set<Addr>, stop: bool): map<Addr, ServerState> {
    map a | a in servers :: if a in addrs then servers[a].(stopped := stop) else servers[a]
  }

  /** shutDown: every active server goes down; the metadata is left as it was. */
  function AllDown(c: Cluster): Cluster {
    Cluster(Halted(c.servers, Addrs(c.active)), [], c.idle + c.active, c.metadata)
  }

  /** start and stop only switch the flags of the active servers. */
  function Switched(c: Cluster, stop: bool): Cluster {
    c.(servers := Flagged(c.servers, Addrs(c.active), stop))
  }

  // ---- bookkeeping -------------------------------------------------------------------------

  lemma AddrsOf(nodes: seq<Node>)
    ensures forall i :: 0 <= i < |nodes| ==> nodes[i].addr in Addrs(nodes)
    ensures forall a :: a in Addrs(nodes) ==> exists i :: 0 <= i < |nodes| && nodes[i].addr == a
  {
  }

  lemma AddrsConcat(x: seq<Node>, y: seq<Node>)
    ensures Addrs(x + y) == Addrs(x) + Addrs(y)
  {
    assert forall n :: n in x + y <==> n in x || n in y;
  }

  /** Active and idle addresses do not meet. */
  lemma ListsDisjoint(x: seq<Node>, y: seq<Node>)
    requires UniqueAddrs(x + y)
    ensures Addrs(x) !! Addrs(y) && UniqueAddrs(x) && UniqueAddrs(y)
    ensures Addrs(x + y) == Addrs(x) + Addrs(y)
  {
    AddrsConcat(x, y);
    forall i, j | 0 <= i < |x| && 0 <= j < |y| ensures x[i].addr != y[j].addr {
      assert (x + y)[i] == x[i] && (x + y)[|x| + j] == y[j];
    }
    forall i, j | 0 <= i < j < |x| ensures x[i].addr != x[j].addr {
      assert (x + y)[i] == x[i] && (x + y)[j] == x[j];
    }
    forall i, j | 0 <= i < j < |y| ensures y[i].addr != y[j].addr {
      assert (x + y)[|x| + i] == y[i] && (x + y)[|x| + j] == y[j];
    }
  }

  lemma DisjointListsUnique(x: seq<Node>, y: seq<Node>)
    requires UniqueAddrs(x) && UniqueAddrs(y) && Addrs(x) !! Addrs(y)
    ensures UniqueAddrs(x + y)
  {
    AddrsOf(x);
    AddrsOf(y);
  }

  /** Taking one node out of a list. */
  lemma WithoutOne(s: seq<Node>, i: nat)
    requires i < |s| && UniqueAddrs(s)
    ensures UniqueAddrs(Without(s, i)) && Addrs(Without(s, i)) == Addrs(s) - {s[i].addr}
  {
    var x, y := s[..i], s[i + 1..];
    assert s == x + ([s[i]] + y);
    ListsDisjoint(x, [s[i]] + y);
    ListsDisjoint([s[i]], y);
    DisjointListsUnique(x, y);
    AddrsConcat(x, y);
    assert Addrs([s[i]]) == {s[i].addr};
  }

  /** Moving one node from the front list to the end of the back list keeps a pair of lists
      unique and keeps the nodes they hold. */
  lemma Transfer(x: seq<Node>, y: seq<Node>, i: nat)
    requires i < |x| && UniqueAddrs(x + y)
    ensures UniqueAddrs(Without(x, i) + (y + [x[i]]))
    ensures Addrs(Without(x, i) + (y + [x[i]])) == Addrs(x + y)
  {
    ListsDisjoint(x, y);
    WithoutOne(x, i);
    assert Addrs([x[i]]) == {x[i].addr} && x[i].addr in Addrs(x);
    AddrsConcat(y, [x[i]]);
    DisjointListsUnique(y, [x[i]]);
    DisjointListsUnique(Without(x, i), y + [x[i]]);
    AddrsConcat(Without(x, i), y + [x[i]]);
  }

  lemma TransferMultiset(x: seq<Node>, y: seq<Node>, i: nat)
    requires i < |x|
    ensures multiset(Without(x, i) + (y + [x[i]])) == multiset(x + y)
  {
    assert x == x[..i] + [x[i]] + x[i + 1..];
  }

  lemma SwapLists(x: seq<Node>, y: seq<Node>)
    requires UniqueAddrs(x + y)
    ensures UniqueAddrs(y + x) && Addrs(y + x) == Addrs(x + y)
  {
    ListsDisjoint(x, y);
    DisjointListsUnique(y, x);
    AddrsConcat(y, x);
  }

  /** Moving node r of the back list to the end of the front list. */
  lemma Activated(x: seq<Node>, y: seq<Node>, r: nat)
    requires UniqueAddrs(x + y) && r < |y|
    ensures UniqueAddrs((x + [y[r]]) + Without(y, r))
    ensures Addrs((x + [y[r]]) + Without(y, r)) == Addrs(x + y)
    ensures Addrs(x + [y[r]]) == Addrs(x) + {y[r].addr} && y[r].addr in Addrs(y) && y[r].addr !in Addrs(x)
  {
    SwapLists(x, y);
    Transfer(y, x, r);
    SwapLists(Without(y, r), x + [y[r]]);
    ListsDisjoint(x, y);
    AddrsConcat(x, [y[r]]);
    assert Addrs([y[r]]) == {y[r].addr};
    AddrsOf(y);
  }
}
