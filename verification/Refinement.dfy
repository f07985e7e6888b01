/** The cluster as a whole behaves like one map: over every run of client requests, node
    additions, node removals and shutdowns, each client gets the answer a single map would give. */
module Refinement {
  import opened Wrappers
  import opened Ring
  import opened Storage
  import opened Server
  import opened Cluster
  import opened Placement
  import opened Reconfiguration
  import opened Dictionary
  import opened Dispatcher
  import opened Client
  import RangeText

  /** The key's hash is neither a server position nor one before one. */
  ghost predicate OffEdge(md5: Md5, addrs: set<Addr>, key: string) {
    !OnEdge(Positions(md5, addrs), md5(key))
  }

  lemma OffEdgeOfFewer(md5: Md5, all: set<Addr>, some: set<Addr>, key: string)
    requires OffEdge(md5, all, key) && some <= all
    ensures OffEdge(md5, some, key)
  {
  }

  // ---- one client request ----------------------------------------------------------------

  /** Server a considers itself responsible for the key. */
  ghost predicate Claims(md5: Md5, live: set<Addr>, a: Addr, key: string) {
    a in live && InRange(RingOf(md5, live)[a], md5(key))
  }

  /** At most one live server claims the key. */
  ghost predicate Unambiguous(md5: Md5, live: set<Addr>, key: string) {
    forall a, b :: Claims(md5, live, a, key) && Claims(md5, live, b, key) ==> a == b
  }

  /** The operator's test: a key is unambiguous exactly when its hash is neither the position of
      a server other than the last of the ring, nor one before such a position. */
  lemma UnambiguousExact(md5: Md5, live: set<Addr>, key: string)
    requires Distinct(md5, live) && live != {}
    ensures Positions(md5, live) != {}
    ensures Unambiguous(md5, live, key) <==>
            !(exists p :: p in Positions(md5, live) && p != Max(Positions(md5, live))
                          && (md5(key) == p || md5(key) == p - 1))
  {
    var P, h := Positions(md5, live), md5(key);
    assert md5(Pick(live)) in P;
    OverlapExact(P, h);
    if a, b :| a != b && Claims(md5, live, a, key) && Claims(md5, live, b, key) {
      assert md5(a) in P && md5(b) in P && md5(a) != md5(b);
    }
    if p, q :| p in P && q in P && p != q && InRange(RangeOf(P, p), h) && InRange(RangeOf(P, q), h) {
      var a, b :| a in live && b in live && md5(a) == p && md5(b) == q;
      assert Claims(md5, live, a, key) && Claims(md5, live, b, key);
    }
  }

  lemma OffEdgeIsUnambiguous(md5: Md5, live: set<Addr>, key: string)
    requires Distinct(md5, live) && OffEdge(md5, live, key)
    ensures Unambiguous(md5, live, key)
  {
    forall a, b | Claims(md5, live, a, key) && Claims(md5, live, b, key) ensures a == b {
      OwnerIsUnique(md5, live, a, b, md5(key));
    }
  }

  /** Off the edges two servers are never both responsible. */
  lemma OwnerIsUnique(md5: Md5, live: set<Addr>, a: Addr, b: Addr, h: int)
    requires Distinct(md5, live) && a in live && b in live && !OnEdge(Positions(md5, live), h)
    requires InRange(RingOf(md5, live)[a], h) && InRange(RingOf(md5, live)[b], h)
    ensures a == b
  {
    var P := Positions(md5, live);
    assert md5(a) in P && md5(b) in P;
    OwnerIsNext(P, md5(a), h);
    OwnerIsNext(P, md5(b), h);
  }

  /** Keys are only stored at servers that claim them. */
  lemma HolderClaims(md5: Md5, servers: map<Addr, ServerState>, live: set<Addr>, b: Addr, k: string)
    requires Steady(md5, servers, live) && b in servers && k in servers[b].store
    ensures Claims(md5, live, b, k)
  {
    assert Standing(md5, live, b, servers[b]);
  }

  /** Whoever is the one responsible for a key holds it if anyone does. */
  lemma OwnerHolds(md5: Md5, servers: map<Addr, ServerState>, live: set<Addr>, g: Store, a: Addr, k: string)
    requires Steady(md5, servers, live) && Holds(servers, g) && Unambiguous(md5, live, k)
    requires Claims(md5, live, a, k) && a in servers
    ensures k in g <==> k in servers[a].store
    ensures k in g ==> g[k] == servers[a].store[k]
    ensures forall b :: b in servers && k in servers[b].store ==> b == a
  {
    forall b | b in servers && k in servers[b].store ensures b == a {
      HolderClaims(md5, servers, live, b, k);
    }
    if k in g {
      var b :| b in servers && k in servers[b].store;
    }
  }

  /** Where keys are after one write at server a. */
  ghost predicate Written(servers: map<Addr, ServerState>, after: map<Addr, ServerState>, a: Addr, k: string,
                          value: Option<string>) {
    && after.Keys == servers.Keys && a in servers
    && (forall b, j :: b in servers && j != k ==> (j in after[b].store <==> j in servers[b].store))
    && (forall b, j :: b in servers && j != k && j in after[b].store ==> after[b].store[j] == servers[b].store[j])
    && (forall b :: b in servers ==> (k in after[b].store <==> b == a && !IsDelete(value)))
    && (!IsDelete(value) ==> k in after[a].store && after[a].store[k] == value.value)
  }

  lemma WrittenHolds(servers: map<Addr, ServerState>, after: map<Addr, ServerState>, a: Addr, k: string,
                     value: Option<string>, g: Store)
    requires Written(servers, after, a, k, value) && Holds(servers, g)
    ensures Within(after, Write(g, k, value)) && Everywhere(after, Write(g, k, value))
  {
    forall j | j in Write(g, k, value) ensures exists b :: b in after && j in after[b].store {
      if j == k {
        assert j in after[a].store;
      } else {
        var b :| b in servers && j in servers[b].store;
        assert j in after[b].store;
      }
    }
  }

  lemma WrittenSeparate(servers: map<Addr, ServerState>, after: map<Addr, ServerState>, a: Addr, k: string,
                        value: Option<string>)
    requires Written(servers, after, a, k, value) && Separate(servers)
    ensures Separate(after)
  {
    forall b, b', j | b in after && b' in after && j in after[b].store && j in after[b'].store ensures b == b' {
      if j != k {
        assert j in servers[b].store && j in servers[b'].store;
      }
    }
  }

  lemma WriteHolds(servers: map<Addr, ServerState>, g: Store, a: Addr, k: string, value: Option<string>)
    requires Holds(servers, g) && a in servers
    requires forall b :: b in servers && k in servers[b].store ==> b == a
    ensures Holds(servers[a := servers[a].(store := Write(servers[a].store, k, value))], Write(g, k, value))
  {
    var after := servers[a := servers[a].(store := Write(servers[a].store, k, value))];
    assert Written(servers, after, a, k, value);
    WrittenHolds(servers, after, a, k, value, g);
    WrittenSeparate(servers, after, a, k, value);
  }

  lemma WriteStanding(md5: Md5, live: set<Addr>, a: Addr, s: ServerState, k: string, value: Option<string>)
    requires Standing(md5, live, a, s) && a in live && ValidKey(k) && InRange(RingOf(md5, live)[a], md5(k))
    ensures Standing(md5, live, a, s.(store := Write(s.store, k, value)))
  {
  }

  /** The responsible server answers from its own store as the map g does. */
  lemma OwnerAnswers(md5: Md5, servers: map<Addr, ServerState>, live: set<Addr>, g: Store, a: Addr, m: KVMsg)
    requires Steady(md5, servers, live) && Holds(servers, g) && Unambiguous(md5, live, m.key)
    requires Claims(md5, live, a, m.key) && a in servers && IsClientRequest(m)
    requires m.status == PUT ==> ValidKey(m.key)
    ensures Apply(servers[a].store, m).1 == Apply(g, m).1
    ensures var after := servers[a := servers[a].(store := Apply(servers[a].store, m).0)];
            Holds(after, Apply(g, m).0) && Steady(md5, after, live)
  {
    OwnerHolds(md5, servers, live, g, a, m.key);
    assert Standing(md5, live, a, servers[a]);
    if m.status == PUT {
      WriteHolds(servers, g, a, m.key, m.value);
      WriteStanding(md5, live, a, servers[a], m.key, m.value);
    } else {
      assert servers[a := servers[a].(store := servers[a].store)] == servers;
    }
  }

  /** The server that ends an exchange is live, and answers as the map does. */
  lemma LastServer(md5: Md5, servers: map<Addr, ServerState>, live: set<Addr>, a: Addr, m: KVMsg)
    requires Steady(md5, servers, live) && Started(servers, live) && IsClientRequest(m)
    requires Live(servers, a) && !Redirects(md5, servers[a], m)
    ensures a in live && a in servers
    ensures if m.status == PUT && !ValidKey(m.key)
            then ServeSpec(md5, servers[a], m) == (servers[a], Answer(PUT_ERROR, m.key, None))
            else Claims(md5, live, a, m.key)
                 && ServeSpec(md5, servers[a], m)
                    == (servers[a].(store := Apply(servers[a].store, m).0), Apply(servers[a].store, m).1)
  {
    assert Standing(md5, live, a, servers[a]);
    if m.status == PUT && !ValidKey(m.key) {
      RefusedIsInert(md5, servers[a], m);
    } else {
      AdmittedIsApplied(md5, servers[a], m);
    }
  }

  lemma AnswersAsMap(md5: Md5, servers: map<Addr, ServerState>, live: set<Addr>, a: Addr, m: KVMsg,
                     servers': map<Addr, ServerState>, o: Outcome, g: Store)
    requires Steady(md5, servers, live) && Started(servers, live) && Holds(servers, g)
    requires IsClientRequest(m) && Unambiguous(md5, live, m.key)
    requires Live(servers, a) && !Redirects(md5, servers[a], m) && Asked(md5, servers, m, a, servers', o)
    ensures o == Apply(g, m).1 && Holds(servers', Apply(g, m).0) && Steady(md5, servers', live)
  {
    LastServer(md5, servers, live, a, m);
    if m.status == PUT && !ValidKey(m.key) {
      assert servers[a := servers[a]] == servers;
    } else {
      OwnerAnswers(md5, servers, live, g, a, m);
    }
  }

  /** An exchange is decided by its last server. */
  lemma ExchangeEnds(md5: Md5, servers: map<Addr, ServerState>, current: Addr, cache: Metadata,
                     m: KVMsg, trace: seq<Addr>, servers': map<Addr, ServerState>, o: Outcome) returns (a: Addr)
    requires Exchange(md5, servers, current, cache, m, trace, servers', o)
    ensures Live(servers, a) && !Redirects(md5, servers[a], m) && Asked(md5, servers, m, a, servers', o)
  {
    a := trace[|trace| - 1];
  }

  lemma AskedKeepsFlags(md5: Md5, servers: map<Addr, ServerState>, live: set<Addr>, a: Addr, m: KVMsg,
                        servers': map<Addr, ServerState>, o: Outcome)
    requires Asked(md5, servers, m, a, servers', o) && Started(servers, live)
    ensures Started(servers', live) && servers'.Keys == servers.Keys
  {
    if Admits(md5, servers[a], m) {
      AdmittedIsApplied(md5, servers[a], m);
    } else {
      RefusedIsInert(md5, servers[a], m);
    }
  }

  /** Whatever the client had cached and whichever way it was routed: the reply is the map's
      reply, and afterwards the stores hold the updated map. */
  lemma RequestRefines(md5: Md5, servers: map<Addr, ServerState>, live: set<Addr>, current: Addr, cache: Metadata,
                       m: KVMsg, trace: seq<Addr>, servers': map<Addr, ServerState>, o: Outcome, g: Store)
    requires Steady(md5, servers, live) && Started(servers, live) && Holds(servers, g)
    requires IsClientRequest(m) && Unambiguous(md5, live, m.key)
    requires Exchange(md5, servers, current, cache, m, trace, servers', o)
    ensures o == Apply(g, m).1 && Holds(servers', Apply(g, m).0)
    ensures Steady(md5, servers', live) && Started(servers', live) && servers'.Keys == servers.Keys
  {
    var a := ExchangeEnds(md5, servers, current, cache, m, trace, servers', o);
    AnswersAsMap(md5, servers, live, a, m, servers', o, g);
    AskedKeepsFlags(md5, servers, live, a, m, servers', o);
  }

  /** What a client object starts with: everything at the server it was given. */
  function FreshCache(a: Addr): Metadata {
    map[a := Range(0, SPACE - 1)]
  }

  /** A fresh client puts the key through a, another one then gets it through b. */
  ghost predicate PutThenGet(md5: Md5, servers: map<Addr, ServerState>, a: Addr, b: Addr, key: string, value: string,
                             servers': map<Addr, ServerState>, put: Outcome, get: Outcome) {
    && Exchange(md5, servers, a, FreshCache(a), KVMsg(PUT, key, Some(value), None), [a], servers', put)
    && Exchange(md5, servers', b, FreshCache(b), KVMsg(GET, key, Some(""), None), [b], servers', get)
  }

  /** For an ambiguous key the cluster is NOT one map, in any steady cluster: two fresh clients at
      the two servers disagree. After a successful put through a, a get through b reports that
      the key does not exist. With RequestRefines, a key is served as by one map exactly when it
      is unambiguous. */
  lemma AmbiguousKeysDisagree(md5: Md5, servers: map<Addr, ServerState>, live: set<Addr>, g: Store,
                              a: Addr, b: Addr, key: string, value: string)
    returns (servers': map<Addr, ServerState>)
    requires Steady(md5, servers, live) && Started(servers, live) && Holds(servers, g)
    requires Claims(md5, live, a, key) && Claims(md5, live, b, key) && a != b
    requires ValidKey(key) && key !in g && !IsDelete(Some(value))
    ensures PutThenGet(md5, servers, a, b, key, value, servers',
                       Answer(PUT_SUCCESS, key, Some(value)), Answer(GET_ERROR, key, None))
    ensures Apply(Apply(g, KVMsg(PUT, key, Some(value), None)).0, KVMsg(GET, key, Some(""), None)).1
            == Answer(GET_SUCCESS, key, Some(value)) != Answer(GET_ERROR, key, None)
  {
    ClaimantAdmits(md5, servers, live, a, KVMsg(PUT, key, Some(value), None));
    ClaimantAdmits(md5, servers, live, b, KVMsg(GET, key, Some(""), None));
    AbsentHere(servers, g, a, key);
    AbsentHere(servers, g, b, key);
    MapWouldFindIt(g, key, value);
    servers' := Disagreement(md5, servers, a, b, key, value);
  }

  lemma AbsentHere(servers: map<Addr, ServerState>, g: Store, a: Addr, key: string)
    requires Within(servers, g) && key !in g && a in servers
    ensures key !in servers[a].store
  {
  }

  lemma Disagreement(md5: Md5, servers: map<Addr, ServerState>, a: Addr, b: Addr, key: string, value: string)
    returns (servers': map<Addr, ServerState>)
    requires a != b && Live(servers, a) && Live(servers, b)
    requires Admits(md5, servers[a], KVMsg(PUT, key, Some(value), None))
    requires Admits(md5, servers[b], KVMsg(GET, key, Some(""), None))
    requires key !in servers[a].store && key !in servers[b].store && !IsDelete(Some(value))
    ensures PutThenGet(md5, servers, a, b, key, value, servers',
                       Answer(PUT_SUCCESS, key, Some(value)), Answer(GET_ERROR, key, None))
  {
    servers' := FreshPut(md5, servers, a, key, value);
    FreshGet(md5, servers', b, key);
  }

  lemma FreshPut(md5: Md5, servers: map<Addr, ServerState>, a: Addr, key: string, value: string)
    returns (servers': map<Addr, ServerState>)
    requires Live(servers, a) && Admits(md5, servers[a], KVMsg(PUT, key, Some(value), None))
    requires key !in servers[a].store && !IsDelete(Some(value))
    ensures Exchange(md5, servers, a, FreshCache(a), KVMsg(PUT, key, Some(value), None), [a], servers',
                     Answer(PUT_SUCCESS, key, Some(value)))
    ensures servers'.Keys == servers.Keys && forall b :: b in servers && b != a ==> servers'[b] == servers[b]
  {
    var put := KVMsg(PUT, key, Some(value), None);
    servers' := servers[a := servers[a].(store := Apply(servers[a].store, put).0)];
    DirectExchange(md5, servers, a, put);
  }

  lemma FreshGet(md5: Md5, servers: map<Addr, ServerState>, b: Addr, key: string)
    requires Live(servers, b) && Admits(md5, servers[b], KVMsg(GET, key, Some(""), None))
    requires key !in servers[b].store
    ensures Exchange(md5, servers, b, FreshCache(b), KVMsg(GET, key, Some(""), None), [b], servers,
                     Answer(GET_ERROR, key, None))
  {
    DirectExchange(md5, servers, b, KVMsg(GET, key, Some(""), None));
    assert servers[b := servers[b]] == servers;
  }

  lemma MapWouldFindIt(g: Store, key: string, value: string)
    requires ValidKey(key) && !IsDelete(Some(value))
    ensures Apply(Apply(g, KVMsg(PUT, key, Some(value), None)).0, KVMsg(GET, key, Some(""), None)).1
            == Answer(GET_SUCCESS, key, Some(value))
  {
  }

  lemma ClaimantAdmits(md5: Md5, servers: map<Addr, ServerState>, live: set<Addr>, a: Addr, m: KVMsg)
    requires Steady(md5, servers, live) && Started(servers, live) && Claims(md5, live, a, m.key)
    requires IsClientRequest(m) && ValidKey(m.key)
    ensures Live(servers, a) && Admits(md5, servers[a], m)
  {
    assert Standing(md5, live, a, servers[a]);
  }

  /** A fresh client at a server that admits its request is served there at once. */
  lemma DirectExchange(md5: Md5, servers: map<Addr, ServerState>, a: Addr, m: KVMsg)
    requires Live(servers, a) && Admits(md5, servers[a], m)
    ensures Exchange(md5, servers, a, FreshCache(a), m, [a],
                     servers[a := servers[a].(store := Apply(servers[a].store, m).0)], Apply(servers[a].store, m).1)
  {
    AdmittedIsApplied(md5, servers[a], m);
    assert Hop(md5, servers, a, FreshCache(a), m, [a], 0);
  }

  // ---- whole runs ------------------------------------------------------------------------

  /** A client request carries the client's cache, the servers it visited and the reply it got.
      Commands carry the coordinator's choice. */
  datatype Event =
    | Request(current: Addr, cache: Metadata, msg: KVMsg, trace: seq<Addr>, reply: Outcome)
    | Add(r: nat)
    | Remove(i: nat)
    | Close

  ghost predicate Step(md5: Md5, c: Cluster, e: Event, c': Cluster) {
    match e
    case Request(current, cache, msg, trace, reply) =>
      && IsClientRequest(msg) && c' == c.(servers := c'.servers)
      && Exchange(md5, c.servers, current, cache, msg, trace, c'.servers, reply)
    case Add(r) => r < |c.idle| && NodeAdded(md5, c, r, c')
    case Remove(i) => i < |c.active| && |c.active| > 1 && NodeRemoved(md5, c, i, c')
    case Close => c' == AllDown(c)
  }

  /** The reference: commands do not touch the map, except that shutting down empties it. */
  function MapStep(g: Store, e: Event): Store {
    match e
    case Request(_, _, msg, _, _) => if IsClientRequest(msg) then Apply(g, msg).0 else g
    case Close => map[]
    case _ => g
  }

  function MapRun(g: Store, es: seq<Event>): Store {
    if es == [] then g else MapStep(MapRun(g, es[..|es| - 1]), es[|es| - 1])
  }

  /** A run of the cluster: cs has the state before the first event and the one after each event. */
  ghost predicate Run(md5: Md5, cs: seq<Cluster>, es: seq<Event>) {
    |cs| == |es| + 1 && forall i :: 0 <= i < |es| ==> Step(md5, cs[i], es[i], cs[i + 1])
  }

  /** The keys in use avoid the edges of every ring that can be formed. */
  ghost predicate KeysOffEdge(md5: Md5, all: set<Addr>, g: Store, es: seq<Event>) {
    && (forall k :: k in g ==> OffEdge(md5, all, k))
    && (forall e :: e in es && e.Request? ==> OffEdge(md5, all, e.msg.key))
  }

  /** The cluster is settled and started, and holds exactly g. */
  ghost predicate Represents(md5: Md5, c: Cluster, g: Store) {
    Settled(md5, c) && AllStarted(c) && Holds(c.servers, g) && forall k :: k in g ==> OffEdge(md5, c.servers.Keys, k)
  }

  /** The reply is the one the map g gives. */
  ghost predicate AnsweredBy(g: Store, e: Event) {
    e.Request? ==> IsClientRequest(e.msg) && e.reply == Apply(g, e.msg).1
  }

  lemma AppliedOffEdge(md5: Md5, all: set<Addr>, g: Store, m: KVMsg)
    requires IsClientRequest(m) && OffEdge(md5, all, m.key) && forall k :: k in g ==> OffEdge(md5, all, k)
    ensures forall k :: k in Apply(g, m).0 ==> OffEdge(md5, all, k)
  {
  }

  lemma RequestStep(md5: Md5, c: Cluster, e: Event, c': Cluster, g: Store)
    requires Represents(md5, c, g) && Spread(md5, c.servers.Keys) && Step(md5, c, e, c')
    requires e.Request? && OffEdge(md5, c.servers.Keys, e.msg.key)
    ensures Represents(md5, c', MapStep(g, e)) && c'.servers.Keys == c.servers.Keys && AnsweredBy(g, e)
  {
    var live := Addrs(c.active);
    ListsDisjoint(c.active, c.idle);
    RequestEffect(md5, c.servers, live, e, c'.servers, g);
    AppliedOffEdge(md5, c.servers.Keys, g, e.msg);
  }

  lemma RequestEffect(md5: Md5, servers: map<Addr, ServerState>, live: set<Addr>, e: Event,
                      servers': map<Addr, ServerState>, g: Store)
    requires Steady(md5, servers, live) && Started(servers, live) && Holds(servers, g) && Spread(md5, servers.Keys)
    requires e.Request? && IsClientRequest(e.msg) && OffEdge(md5, servers.Keys, e.msg.key)
    requires Exchange(md5, servers, e.current, e.cache, e.msg, e.trace, servers', e.reply)
    ensures AnsweredBy(g, e) && Holds(servers', MapStep(g, e))
    ensures Steady(md5, servers', live) && Started(servers', live) && servers'.Keys == servers.Keys
  {
    SpreadIsDistinct(md5, servers.Keys, live);
    OffEdgeOfFewer(md5, servers.Keys, live, e.msg.key);
    OffEdgeIsUnambiguous(md5, live, e.msg.key);
    RequestRefines(md5, servers, live, e.current, e.cache, e.msg, e.trace, servers', e.reply, g);
  }

  /** Keys off the edges are never stranded. */
  lemma NothingStranded(md5: Md5, servers: map<Addr, ServerState>, live: set<Addr>, n: Addr, g: Store, k: string)
    requires live <= servers.Keys && n in servers && k in servers[n].store && Holds(servers, g)
    requires forall j :: j in g ==> OffEdge(md5, servers.Keys, j)
    ensures !Stranded(Positions(md5, live), md5(n), md5(k))
  {
    OffEdgeOfFewer(md5, servers.Keys, live, k);
    if Stranded(Positions(md5, live), md5(n), md5(k)) {
      StrandedIsEdge(Positions(md5, live), md5(n), md5(k));
    }
  }

  lemma RemoveStep(md5: Md5, c: Cluster, i: nat, c': Cluster, g: Store)
    requires Represents(md5, c, g) && Spread(md5, c.servers.Keys) && i < |c.active| && NodeRemoved(md5, c, i, c')
    ensures Represents(md5, c', g) && c'.servers.Keys == c.servers.Keys
  {
    var succ := RemoveNodeExact(md5, c, i, c', g);
    RemovalLossless(md5, c, i, c', g);
    var n, live := c.active[i].addr, Addrs(c.active);
    forall k | k in c.servers[n].store ensures !Stranded(Positions(md5, live), md5(n), md5(k)) {
      NothingStranded(md5, c.servers, live, n, g, k);
    }
  }

  lemma ClosedServers(md5: Md5, servers: map<Addr, ServerState>, live: set<Addr>, after: map<Addr, ServerState>)
    requires Steady(md5, servers, live) && after.Keys == servers.Keys
    requires forall a :: a in servers ==> after[a] == if a in live then Down(a) else servers[a]
    ensures Steady(md5, after, {}) && Holds(after, map[])
  {
    forall a | a in after ensures after[a] == Down(a) {
      assert Standing(md5, live, a, servers[a]);
    }
  }

  lemma CloseStep(md5: Md5, c: Cluster)
    requires Settled(md5, c)
    ensures Represents(md5, AllDown(c), map[]) && AllDown(c).servers.Keys == c.servers.Keys
  {
    SwapLists(c.active, c.idle);
    ClosedServers(md5, c.servers, Addrs(c.active), AllDown(c).servers);
    assert Addrs([]) == {};
    assert [] + (c.idle + c.active) == c.idle + c.active;
  }

  lemma StepRefines(md5: Md5, c: Cluster, e: Event, c': Cluster, g: Store)
    requires Represents(md5, c, g) && Spread(md5, c.servers.Keys) && Step(md5, c, e, c')
    requires e.Request? ==> OffEdge(md5, c.servers.Keys, e.msg.key)
    ensures Represents(md5, c', MapStep(g, e)) && c'.servers.Keys == c.servers.Keys && AnsweredBy(g, e)
  {
    match e
    case Request(_, _, _, _, _) => RequestStep(md5, c, e, c', g);
    case Add(r) => AddNodeConserves(md5, c, r, c', g);
    case Remove(i) => RemoveStep(md5, c, i, c', g);
    case Close => CloseStep(md5, c);
  }

  /** One event of a run, seen from the start of the run. */
  ghost predicate Tracks(md5: Md5, all: set<Addr>, c: Cluster, g: Store) {
    Represents(md5, c, g) && c.servers.Keys == all
  }

  lemma {:induction false} RunTracks(md5: Md5, cs: seq<Cluster>, es: seq<Event>, g: Store, all: set<Addr>, k: nat)
    requires Run(md5, cs, es) && k <= |es| && Spread(md5, all) && KeysOffEdge(md5, all, g, es)
    requires Tracks(md5, all, cs[0], g)
    ensures Tracks(md5, all, cs[k], MapRun(g, es[..k]))
    ensures k < |es| ==> AnsweredBy(MapRun(g, es[..k]), es[k])
  {
    if k > 0 {
      RunTracks(md5, cs, es, g, all, k - 1);
      MapRunNext(g, es, k - 1);
      assert Step(md5, cs[k - 1], es[k - 1], cs[k]) && es[k - 1] in es;
      StepRefines(md5, cs[k - 1], es[k - 1], cs[k], MapRun(g, es[..k - 1]));
    }
    if k < |es| {
      assert Step(md5, cs[k], es[k], cs[k + 1]) && es[k] in es;
      StepRefines(md5, cs[k], es[k], cs[k + 1], MapRun(g, es[..k]));
    }
  }

  lemma MapRunNext(g: Store, es: seq<Event>, k: nat)
    requires k < |es|
    ensures MapRun(g, es[..k + 1]) == MapStep(MapRun(g, es[..k]), es[k])
  {
    assert es[..k + 1][..k] == es[..k];
  }

  /** What the client of event e reads off its reply, if the cluster held g before. */
  ghost predicate Tells(g: Store, e: Event) {
    e.Request? ==>
      var key, o := e.msg.key, e.reply;
      && o.Reply? && o.msg.key == key
      && (e.msg.status == GET ==>
            if key in g then o.msg.status == GET_SUCCESS && o.msg.value == Some(g[key])
            else o.msg.status == GET_ERROR && o.msg.value == None)
      && (e.msg.status == PUT && !(1 <= Utf8Length(key) <= 20) ==> o.msg.status == PUT_ERROR)
      && (e.msg.status == PUT && 1 <= Utf8Length(key) <= 20 ==>
            && o.msg.value == e.msg.value
            && if e.msg.value in {None, Some(""), Some("null")}
               then o.msg.status == (if key in g then DELETE_SUCCESS else DELETE_ERROR)
               else o.msg.status == (if key in g then PUT_UPDATE else PUT_SUCCESS))
  }

  lemma AnswerTells(g: Store, e: Event)
    requires AnsweredBy(g, e)
    ensures Tells(g, e)
  {
  }

  /** The value under k after some events, without any map: that of the last put of k, unless that put
      was a deletion or the servers were shut down since. */
  ghost function LastPut(initial: Option<string>, es: seq<Event>, k: string): Option<string> {
    if es == [] then initial
    else
      var e := es[|es| - 1];
      if e.Close? then None
      else if e.Request? && e.msg.status == PUT && e.msg.key == k && 1 <= Utf8Length(k) <= 20 then
        (if e.msg.value == Some("") || e.msg.value == Some("null") then None else e.msg.value)
      else LastPut(initial, es[..|es| - 1], k)
  }

  lemma {:induction false} MapHasLastPut(g: Store, es: seq<Event>, k: string)
    ensures (if k in MapRun(g, es) then Some(MapRun(g, es)[k]) else None)
            == LastPut(if k in g then Some(g[k]) else None, es, k)
  {
    if es != [] {
      MapHasLastPut(g, es[..|es| - 1], k);
    }
  }

  /** Every range that a server or the coordinator holds survives being written and read as text. */
  ghost predicate Legible(c: Cluster) {
    && (forall a, b :: a in c.servers && c.servers[a].metadata.Some? && b in c.servers[a].metadata.value ==>
          var r := c.servers[a].metadata.value[b]; RangeText.Read(RangeText.Text(r)) == Some(r))
    && (c.active != [] ==> forall b :: b in c.metadata ==>
          RangeText.Read(RangeText.Text(c.metadata[b])) == Some(c.metadata[b]))
  }

  lemma SettledIsLegible(md5: Md5, c: Cluster)
    requires Settled(md5, c) && Spread(md5, c.servers.Keys) && OffZero(md5, c.servers.Keys)
    ensures Legible(c)
  {
    var live := Addrs(c.active);
    ListsDisjoint(c.active, c.idle);
    forall b | b in live
      ensures RangeText.Read(RangeText.Text(RingOf(md5, live)[b])) == Some(RingOf(md5, live)[b])
    {
      SpreadIsDistinct(md5, c.servers.Keys, live);
      RangeText.OffZeroReadable(md5, c.servers.Keys, live, b);
    }
    forall a | a in c.servers && c.servers[a].metadata.Some? ensures c.servers[a].metadata.value == RingOf(md5, live) {
      assert Standing(md5, live, a, c.servers[a]);
    }
  }

  /** The main theorem. In every run from a settled and started cluster every client reply is the
      one a single map gives, reconfigurations are invisible to clients, and after every event the
      stores hold exactly the map's contents and every range in use can be read from its text. */
  lemma ClusterIsOneMap(md5: Md5, cs: seq<Cluster>, es: seq<Event>, g: Store)
    requires Run(md5, cs, es)
    requires Represents(md5, cs[0], g) && KeysOffEdge(md5, cs[0].servers.Keys, g, es)
    requires Spread(md5, cs[0].servers.Keys) && OffZero(md5, cs[0].servers.Keys)
    ensures forall k :: 0 <= k <= |es| ==> Represents(md5, cs[k], MapRun(g, es[..k])) && Legible(cs[k])
    ensures forall k :: 0 <= k < |es| ==> AnsweredBy(MapRun(g, es[..k]), es[k]) && Tells(MapRun(g, es[..k]), es[k])
  {
    forall k | 0 <= k <= |es|
      ensures Represents(md5, cs[k], MapRun(g, es[..k])) && Legible(cs[k])
      ensures k < |es| ==> AnsweredBy(MapRun(g, es[..k]), es[k]) && Tells(MapRun(g, es[..k]), es[k])
    {
      RunTracks(md5, cs, es, g, cs[0].servers.Keys, k);
      if k < |es| {
        AnswerTells(MapRun(g, es[..k]), es[k]);
      }
      SettledIsLegible(md5, cs[k]);
    }
  }

  /** What clients can rely on, said without a map: in every such run a get is answered with the value
      of the last put of its key, or with an error if there is none or it deleted the key, or if the
      servers were shut down since. */
  lemma GetsReadLastPut(md5: Md5, cs: seq<Cluster>, es: seq<Event>, g: Store, i: nat)
    requires Run(md5, cs, es) && i < |es| && es[i].Request? && es[i].msg.status == GET
    requires Represents(md5, cs[0], g) && KeysOffEdge(md5, cs[0].servers.Keys, g, es)
    requires Spread(md5, cs[0].servers.Keys) && OffZero(md5, cs[0].servers.Keys)
    ensures var k := es[i].msg.key;
            var value := LastPut(if k in g then Some(g[k]) else None, es[..i], k);
            && es[i].reply.Reply? && es[i].reply.msg.key == k && es[i].reply.msg.value == value
            && es[i].reply.msg.status == if value.Some? then GET_SUCCESS else GET_ERROR
  {
    ClusterIsOneMap(md5, cs, es, g);
    MapHasLastPut(g, es[..i], es[i].msg.key);
    assert Tells(MapRun(g, es[..i]), es[i]);
  }
}
