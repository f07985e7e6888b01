/** The client library: it routes a request by its cached metadata and, as long as servers
    answer that they are not responsible, adopts their metadata and tries again. */
module Client {
  import opened Wrappers
  import opened Ring
  import opened Server
  import opened Network

  /** The client may connect to a: some cached range of a contains the key, or no cached range
      does and a is the server it is connected to. */
  ghost predicate Routes(md5: Md5, cache: Metadata, current: Addr, key: string, a: Addr) {
    || (a in cache && InRange(cache[a], md5(key)))
    || (a == current && forall b :: b in cache ==> !InRange(cache[b], md5(key)))
  }

  predicate IsRedirect(o: Outcome) {
    o.Reply? && o.msg.status == SERVER_NOT_RESPONSIBLE && o.msg.metadata.Some?
  }

  /** When a server redirects (see RedirectIsInert). */
  predicate Redirects(md5: Md5, s: ServerState, m: KVMsg) {
    && !s.stopped
    && (m.status == GET || (m.status == PUT && !s.locked && ValidKey(m.key)))
    && Knows(s) && !Responsible(md5, s, m.key)
  }

  predicate Live(servers: map<Addr, ServerState>, a: Addr) {
    a in servers && servers[a].running
  }

  /** Connection i of the trace was made from the cache held at that point: the initial one, or
      the one taken over from the server visited just before. */
  ghost predicate Hop(md5: Md5, servers: map<Addr, ServerState>, current: Addr, cache: Metadata, m: KVMsg,
                      trace: seq<Addr>, i: nat)
    requires i < |trace|
  {
    && Live(servers, trace[i])
    && if i == 0 then Routes(md5, cache, current, m.key, trace[0])
       else && Live(servers, trace[i - 1]) && Redirects(md5, servers[trace[i - 1]], m)
            && servers[trace[i - 1]].metadata.Some?
            && Routes(md5, servers[trace[i - 1]].metadata.value, trace[i - 1], m.key, trace[i])
  }

  /** Server a was asked m: it changed state and gave outcome o, the others did not move. */
  ghost predicate Asked(md5: Md5, servers: map<Addr, ServerState>, m: KVMsg, a: Addr,
                        servers': map<Addr, ServerState>, o: Outcome) {
    a in servers && o == ServeSpec(md5, servers[a], m).1 && servers' == servers[a := ServeSpec(md5, servers[a], m).0]
  }

  /** A complete put or get: the servers of the trace were asked in turn, all but the last
      redirected, the last one changed state and answered. */
  ghost predicate Exchange(md5: Md5, servers: map<Addr, ServerState>, current: Addr, cache: Metadata, m: KVMsg,
                           trace: seq<Addr>, servers': map<Addr, ServerState>, o: Outcome) {
    && |trace| > 0
    && (forall i :: 0 <= i < |trace| ==> Hop(md5, servers, current, cache, m, trace, i))
    && var last := trace[|trace| - 1];
       Live(servers, last) && !Redirects(md5, servers[last], m) && Asked(md5, servers, m, last, servers', o)
  }

  /** What the client has cached afterwards: the metadata of the last server that redirected it, if any
      did, and what it had otherwise. Its next request starts from there. */
  ghost predicate Keeps(servers: map<Addr, ServerState>, cache: Metadata, trace: seq<Addr>, metadata: Metadata) {
    if |trace| <= 1 then metadata == cache
    else trace[|trace| - 2] in servers && servers[trace[|trace| - 2]].metadata == Some(metadata)
  }

  // ---- how many redirects there can be -----------------------------------------------

  /** Live server a is not responsible for hash h. */
  predicate Stuck(servers: map<Addr, ServerState>, h: int, a: Addr) {
    a in servers && servers[a].running && servers[a].addr == a && Knows(servers[a])
    && !InRange(servers[a].metadata.value[a], h)
  }

  /** Following the metadata of a, a client reaches a live server, and if that one is stuck too
      it has a smaller rank. A server that does not find itself in its metadata is not stuck: it
      drops the connection. */
  ghost predicate StepsDown(servers: map<Addr, ServerState>, h: int, rank: Addr -> nat, a: Addr)
    requires Stuck(servers, h, a)
  {
    var m := servers[a].metadata.value;
    && (exists b :: b in m && InRange(m[b], h))
    && (forall b :: b in m && InRange(m[b], h) ==>
          Live(servers, b) && (Stuck(servers, h, b) ==> rank(b) < rank(a)))
  }

  /** Redirects lead down a ranking that starts at most at k. */
  ghost predicate Ranked(servers: map<Addr, ServerState>, h: int, rank: Addr -> nat, k: nat) {
    && (forall a :: Live(servers, a) ==> servers[a].addr == a)
    && (forall a :: Stuck(servers, h, a) ==> rank(a) <= k && StepsDown(servers, h, rank, a))
  }

  /** Redirecting servers do not change, and hand out their own metadata. */
  lemma RedirectIsInert(md5: Md5, s: ServerState, m: KVMsg)
    ensures IsRedirect(ServeSpec(md5, s, m).1) <==> Redirects(md5, s, m)
    ensures Redirects(md5, s, m) ==>
              ServeSpec(md5, s, m) == (s, Reply(KVMsg(SERVER_NOT_RESPONSIBLE, m.key, None, s.metadata)))
  {
  }

  lemma RedirectedOrNot(md5: Md5, servers: map<Addr, ServerState>, m: KVMsg, a: Addr,
                        servers': map<Addr, ServerState>, o: Outcome)
    requires Asked(md5, servers, m, a, servers', o)
    ensures IsRedirect(o) <==> Redirects(md5, servers[a], m)
    ensures IsRedirect(o) ==> servers' == servers && o.msg.metadata == servers[a].metadata
  {
    RedirectIsInert(md5, servers[a], m);
  }

  /** Following a redirect from server a to server b. */
  lemma RedirectDescends(md5: Md5, servers: map<Addr, ServerState>, m: KVMsg, a: Addr, b: Addr,
                         rank: Addr -> nat, k: nat)
    requires Ranked(servers, md5(m.key), rank, k) && Live(servers, a) && Redirects(md5, servers[a], m)
    requires Routes(md5, servers[a].metadata.value, a, m.key, b)
    ensures Live(servers, b) && rank(a) <= k && (Redirects(md5, servers[b], m) ==> rank(b) < rank(a))
  {
    assert Stuck(servers, md5(m.key), a);
  }

  lemma {:induction false} HopsDescend(md5: Md5, servers: map<Addr, ServerState>, current: Addr, cache: Metadata,
                                       m: KVMsg, trace: seq<Addr>, i: nat, rank: Addr -> nat, k: nat)
    requires i + 1 < |trace| && forall j :: 0 <= j < |trace| ==> Hop(md5, servers, current, cache, m, trace, j)
    requires Ranked(servers, md5(m.key), rank, k)
    ensures |trace| - i <= rank(trace[i]) + 2 && rank(trace[i]) <= k
    decreases |trace| - i
  {
    assert Hop(md5, servers, current, cache, m, trace, i + 1);
    RedirectDescends(md5, servers, m, trace[i], trace[i + 1], rank, k);
    if i + 2 < |trace| {
      assert Hop(md5, servers, current, cache, m, trace, i + 2);
      HopsDescend(md5, servers, current, cache, m, trace, i + 1, rank, k);
    }
  }

  /** Whatever the cache, a request that reaches a live server is redirected at most k + 1 times. */
  lemma RedirectBound(md5: Md5, servers: map<Addr, ServerState>, current: Addr, cache: Metadata, m: KVMsg,
                      trace: seq<Addr>, servers': map<Addr, ServerState>, o: Outcome, rank: Addr -> nat, k: nat)
    requires Ranked(servers, md5(m.key), rank, k)
    requires Exchange(md5, servers, current, cache, m, trace, servers', o)
    ensures |trace| - 1 <= k + 1
  {
    if |trace| > 1 {
      HopsDescend(md5, servers, current, cache, m, trace, 0, rank, k);
    }
  }

  // ---- the client object ---------------------------------------------------------------

  class KVStore {
    const md5: Md5
    const net: Net
    var address: Addr
    var metadata: Metadata

    constructor (md5: Md5, net: Net, address: Addr)
      ensures this.md5 == md5 && this.net == net && this.address == address
      ensures metadata == map[address := Range(0, SPACE - 1)]
    {
      this.md5, this.net, this.address := md5, net, address;
      metadata := map[address := Range(0, SPACE - 1)];
    }

    /** Goes over the cached entries in any order and connects to the first match. */
    method ConnectCorrServer(key: string)
      modifies this`address
      ensures Routes(md5, metadata, old(address), key, address)
    {
      var left := metadata.Keys;
      while left != {}
        invariant left <= metadata.Keys && address == old(address)
        invariant forall b :: b in metadata && b !in left ==> !InRange(metadata[b], md5(key))
        decreases left
      {
        var a :| a in left;
        left := left - {a};
        if InRange(metadata[a], md5(key)) {
          address := a;
          return;
        }
      }
    }

    /** One attempt at the server the client is connected to. */
    method Attempt(m: KVMsg) returns (o: Outcome)
      requires Wired(md5, net) && address in net
      modifies net[address].storage
      ensures Asked(md5, old(States(net)), m, address, States(net), o)
    {
      o := net[address].Serve(m);
    }

    /** Adopts the metadata of a redirect and reconnects. */
    method Reroute(key: string, metadata: Metadata)
      modifies this
      ensures this.metadata == metadata && Routes(md5, metadata, old(address), key, address)
      ensures States(net) == old(States(net))
    {
      this.metadata := metadata;
      ConnectCorrServer(key);
    }

    /** The first attempt. None when the server cannot be reached. */
    method First(m: KVMsg) returns (r: Option<Outcome>)
      requires Wired(md5, net)
      modifies this`address, set a | a in net :: net[a].storage
      ensures r.None? ==> States(net) == old(States(net)) && !Live(States(net), address)
                          && Routes(md5, metadata, old(address), m.key, address)
      ensures r.Some? ==> Underway(md5, old(States(net)), old(address), metadata, m, [address], metadata,
                                   States(net), r.value)
    {
      ghost var servers := States(net);
      ConnectCorrServer(m.key);
      assert States(net) == servers;
      if address !in net || !net[address].running {
        return None;
      }
      var o := Attempt(m);
      Begins(md5, servers, old(address), metadata, m, address, States(net), o);
      r := Some(o);
    }

    /** Tries again at the server that a redirect leads to. */
    method Follow(m: KVMsg, o: Outcome, ghost rank: Addr -> nat, ghost k: nat) returns (o': Outcome)
      requires Wired(md5, net) && Ranked(States(net), md5(m.key), rank, k) && Live(States(net), address)
      requires IsRedirect(o) && Redirects(md5, States(net)[address], m)
      requires o.msg.metadata == States(net)[address].metadata
      modifies this, set a | a in net :: net[a].storage
      ensures Followed(md5, old(States(net)), m, old(address), address, metadata, States(net), o')
      ensures IsRedirect(o') ==> rank(address) < rank(old(address))
    {
      ghost var servers := States(net);
      Reroute(m.key, o.msg.metadata.value);
      RedirectDescends(md5, servers, m, old(address), address, rank, k);
      o' := Attempt(m);
      RedirectedOrNot(md5, servers, m, address, States(net), o');
    }

    /** One turn of the loop below. */
    method Retry(m: KVMsg, o: Outcome, ghost servers: map<Addr, ServerState>, ghost current: Addr,
                 ghost cache: Metadata, ghost trace: seq<Addr>, ghost rank: Addr -> nat, ghost k: nat)
      returns (o': Outcome)
      requires Wired(md5, net) && Ranked(servers, md5(m.key), rank, k)
      requires Underway(md5, servers, current, cache, m, trace, metadata, States(net), o)
      requires trace[|trace| - 1] == address && IsRedirect(o)
      modifies this, set a | a in net :: net[a].storage
      ensures Underway(md5, servers, current, cache, m, trace + [address], metadata, States(net), o')
      ensures IsRedirect(o') ==> rank(address) < rank(old(address))
    {
      o' := Follow(m, o, rank, k);
      Continues(md5, servers, current, cache, m, trace, address, metadata, States(net), o');
    }

    /** The put and get loop. None when the first server cannot be reached (connecting throws).
        It terminates because redirects run out; module Redirects provides the ranking for steady
        clusters and for the states that addNode and removeNode go through. */
    method Request(m: KVMsg, ghost rank: Addr -> nat, ghost k: nat) returns (r: Option<Outcome>, ghost trace: seq<Addr>)
      requires Wired(md5, net) && Ranked(States(net), md5(m.key), rank, k)
      modifies this, set a | a in net :: net[a].storage
      ensures r.None? ==> States(net) == old(States(net)) && !Live(States(net), address)
                          && Routes(md5, old(metadata), old(address), m.key, address) && metadata == old(metadata)
      ensures r.Some? ==> Exchange(md5, old(States(net)), old(address), old(metadata), m, trace, States(net), r.value)
      ensures r.Some? ==> |trace| - 1 <= k + 1 && address == trace[|trace| - 1]
      ensures r.Some? ==> Keeps(old(States(net)), old(metadata), trace, metadata)
    {
      ghost var servers := States(net);
      r := First(m);
      trace := [address];
      if r.None? {
        return;
      }
      var o := r.value;
      while IsRedirect(o)
        invariant Underway(md5, servers, old(address), old(metadata), m, trace, metadata, States(net), o)
        invariant trace[|trace| - 1] == address
        decreases IsRedirect(o), rank(address)
      {
        o := Retry(m, o, servers, old(address), old(metadata), trace, rank, k);
        trace := trace + [address];
      }
      r := Some(o);
      Complete(md5, servers, old(address), old(metadata), m, trace, metadata, States(net), o, rank, k);
    }

    /** put(key, value): a value of None stands for null. */
    method Put(key: string, value: Option<string>, ghost rank: Addr -> nat, ghost k: nat)
      returns (r: Option<Outcome>, ghost trace: seq<Addr>)
      requires Wired(md5, net) && Ranked(States(net), md5(key), rank, k)
      modifies this, set a | a in net :: net[a].storage
      ensures r.Some? ==> Exchange(md5, old(States(net)), old(address), old(metadata), KVMsg(PUT, key, value, None),
                                   trace, States(net), r.value) && |trace| - 1 <= k + 1
      ensures r.None? ==> States(net) == old(States(net))
    {
      r, trace := Request(KVMsg(PUT, key, value, None), rank, k);
    }

    method Get(key: string, ghost rank: Addr -> nat, ghost k: nat)
      returns (r: Option<Outcome>, ghost trace: seq<Addr>)
      requires Wired(md5, net) && Ranked(States(net), md5(key), rank, k)
      modifies this, set a | a in net :: net[a].storage
      ensures r.Some? ==> Exchange(md5, old(States(net)), old(address), old(metadata), KVMsg(GET, key, Some(""), None),
                                   trace, States(net), r.value) && |trace| - 1 <= k + 1
      ensures r.None? ==> States(net) == old(States(net))
    {
      r, trace := Request(KVMsg(GET, key, Some(""), None), rank, k);
    }
  }

  /** The state of a request: the servers of the trace were asked, the last one gave o, and all before it
      redirected. */
  ghost predicate Underway(md5: Md5, servers: map<Addr, ServerState>, current: Addr, cache: Metadata, m: KVMsg,
                           trace: seq<Addr>, metadata: Metadata, now: map<Addr, ServerState>, o: Outcome) {
    && |trace| > 0 && Live(servers, trace[|trace| - 1]) && Keeps(servers, cache, trace, metadata)
    && (forall i :: 0 <= i < |trace| ==> Hop(md5, servers, current, cache, m, trace, i))
    && (IsRedirect(o) <==> Redirects(md5, servers[trace[|trace| - 1]], m))
    && (IsRedirect(o) ==> now == servers && o.msg.metadata == servers[trace[|trace| - 1]].metadata)
    && Asked(md5, servers, m, trace[|trace| - 1], now, o)
  }

  /** One redirect was followed from server a to server b, which gave o. */
  ghost predicate Followed(md5: Md5, servers: map<Addr, ServerState>, m: KVMsg, a: Addr, b: Addr, metadata: Metadata,
                           now: map<Addr, ServerState>, o: Outcome) {
    && Live(servers, a) && Live(servers, b) && Redirects(md5, servers[a], m) && servers[a].metadata == Some(metadata)
    && Routes(md5, metadata, a, m.key, b) && Asked(md5, servers, m, b, now, o)
    && (IsRedirect(o) <==> Redirects(md5, servers[b], m))
    && (IsRedirect(o) ==> now == servers && o.msg.metadata == servers[b].metadata)
  }

  lemma Begins(md5: Md5, servers: map<Addr, ServerState>, current: Addr, cache: Metadata, m: KVMsg, a: Addr,
               now: map<Addr, ServerState>, o: Outcome)
    requires Live(servers, a) && Routes(md5, cache, current, m.key, a) && Asked(md5, servers, m, a, now, o)
    ensures Underway(md5, servers, current, cache, m, [a], cache, now, o)
  {
    RedirectedOrNot(md5, servers, m, a, now, o);
  }

  lemma Continues(md5: Md5, servers: map<Addr, ServerState>, current: Addr, cache: Metadata, m: KVMsg,
                  trace: seq<Addr>, b: Addr, metadata: Metadata, now: map<Addr, ServerState>, o: Outcome)
    requires |trace| > 0 && forall i :: 0 <= i < |trace| ==> Hop(md5, servers, current, cache, m, trace, i)
    requires Followed(md5, servers, m, trace[|trace| - 1], b, metadata, now, o)
    ensures Underway(md5, servers, current, cache, m, trace + [b], metadata, now, o)
  {
    ExtendTrace(md5, servers, current, cache, m, trace, b);
  }

  lemma Complete(md5: Md5, servers: map<Addr, ServerState>, current: Addr, cache: Metadata, m: KVMsg,
                 trace: seq<Addr>, metadata: Metadata, now: map<Addr, ServerState>, o: Outcome,
                 rank: Addr -> nat, k: nat)
    requires Ranked(servers, md5(m.key), rank, k) && !IsRedirect(o)
    requires Underway(md5, servers, current, cache, m, trace, metadata, now, o)
    ensures Exchange(md5, servers, current, cache, m, trace, now, o) && |trace| - 1 <= k + 1
  {
    RedirectBound(md5, servers, current, cache, m, trace, now, o, rank, k);
  }

  /** Following a redirect from the end of a trace. */
  lemma ExtendTrace(md5: Md5, servers: map<Addr, ServerState>, current: Addr, cache: Metadata, m: KVMsg,
                    trace: seq<Addr>, a: Addr)
    requires |trace| > 0 && forall i :: 0 <= i < |trace| ==> Hop(md5, servers, current, cache, m, trace, i)
    requires Live(servers, trace[|trace| - 1]) && Redirects(md5, servers[trace[|trace| - 1]], m) && Live(servers, a)
    requires Routes(md5, servers[trace[|trace| - 1]].metadata.value, trace[|trace| - 1], m.key, a)
    ensures forall i :: 0 <= i < |trace| + 1 ==> Hop(md5, servers, current, cache, m, trace + [a], i)
  {
    forall i | 0 <= i < |trace| + 1 ensures Hop(md5, servers, current, cache, m, trace + [a], i) {
      if i < |trace| {
        assert Hop(md5, servers, current, cache, m, trace, i);
      }
    }
  }
}
