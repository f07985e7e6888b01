/** The server objects reachable by address, and their states as one map. */
module Network {
  import opened Ring
  import opened Server

  type Net = map<Addr, KVServer>

  ghost function Objects(net: Net): set<object> {
    (set a | a in net :: net[a] as object) + (set a | a in net :: net[a].storage as object)
  }

  /** Each address leads to its own server, with a storage of its own. */
  ghost predicate Wired(md5: Md5, net: Net) {
    && (forall a :: a in net ==> net[a].addr == a && net[a].md5 == md5)
    && (forall a, b :: a in net && b in net && a != b ==> net[a] != net[b] && net[a].storage != net[b].storage)
  }

  ghost function States(net: Net): map<Addr, ServerState>
    reads Objects(net)
  {
    map a | a in net :: net[a].State()
  }
}
