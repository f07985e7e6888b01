/** What becomes of each single key of a transfer, whatever clients ask of either server while it is
    under way. */
module Handover {
  import opened Wrappers
  import opened Ring
  import opened Storage
  import opened Server
  import opened Cluster
  import opened Placement
  import opened Migration

  // ---- one key at the receiver -------------------------------------------------------------

  function Lookup(s: Store, k: string): Option<string> {
    if k in s then Some(s[k]) else None
  }

  /** What a client's request at a server like t makes of the value stored under k. */
  function PutEffect(md5: Md5, t: ServerState, k: string, value: Option<string>, m: KVMsg): Option<string> {
    if m.status == PUT && m.key == k && Accepts(md5, t, k) then (if IsDelete(m.value) then None else m.value)
    else value
  }

  function Effects(md5: Md5, t: ServerState, k: string, value: Option<string>, ms: seq<KVMsg>): Option<string>
    decreases |ms|
  {
    if ms == [] then value else Effects(md5, t, k, PutEffect(md5, t, k, value, ms[0]), ms[1..])
  }

  /** r differs from t in its store only. */
  ghost predicate Alike(r: ServerState, t: ServerState) {
    r == t.(store := r.store)
  }

  lemma ServeAt(md5: Md5, r: ServerState, t: ServerState, k: string, m: KVMsg)
    requires Alike(r, t)
    ensures Alike(ServeSpec(md5, r, m).0, t)
    ensures Lookup(ServeSpec(md5, r, m).0.store, k) == PutEffect(md5, t, k, Lookup(r.store, k), m)
  {
    ServeFlags(md5, r, m);
    assert Accepts(md5, r, k) == Accepts(md5, t, k);
  }

  /** Sending a key: the receiver has the sender's value if it accepts the key, and what it had
      before otherwise; other keys are not touched. */
  lemma VisitAt(md5: Md5, x: Transfer, t: ServerState, key: string, k: string)
    requires Alike(x.target, t) && key in x.snapshot && GoodStore(x.snapshot)
    ensures Alike(Visited(md5, x, key).target, t)
    ensures Lookup(Visited(md5, x, key).target.store, k)
            == if key == k && InRange(x.range, md5(k)) && Accepts(md5, t, k) then Some(x.snapshot[k])
               else Lookup(x.target.store, k)
  {
    PutOutcome(md5, x.target, key, x.snapshot[key]);
    assert Accepts(md5, x.target, key) == Accepts(md5, t, key);
  }

  lemma StepAt(md5: Md5, x: Transfer, t: ServerState, e: Event, k: string)
    requires Alike(x.target, t) && GoodStore(x.snapshot) && Enabled(x, e)
    ensures var x' := Step(md5, x, e);
            && Alike(x'.target, t) && x'.snapshot == x.snapshot && x'.range == x.range && x'.left <= x.left
            && (e != Visit(k) ==>
                  Lookup(x'.target.store, k) == Effects(md5, t, k, Lookup(x.target.store, k), ToTarget([e]))
                  && (k in x.left <==> k in x'.left))
  {
    match e
    case AtTarget(m) =>
      ServeAt(md5, x.target, t, k, m);
      assert ToTarget([e]) == [m];
      assert [m][1..] == [];
    case Visit(key) => VisitAt(md5, x, t, key, k);
    case _ =>
  }

  lemma {:induction false} EffectsConcat(md5: Md5, t: ServerState, k: string, value: Option<string>,
                                         x: seq<KVMsg>, y: seq<KVMsg>)
    ensures Effects(md5, t, k, value, x + y) == Effects(md5, t, k, Effects(md5, t, k, value, x), y)
    decreases |x|
  {
    if x == [] {
      assert x + y == y;
    } else {
      assert (x + y)[1..] == x[1..] + y;
      EffectsConcat(md5, t, k, PutEffect(md5, t, k, value, x[0]), x[1..], y);
    }
  }

  /** While k is not visited, the receiver's value for it is what its clients make of it. */
  lemma {:induction false} QuietRun(md5: Md5, x: Transfer, t: ServerState, es: seq<Event>, k: string)
    requires Alike(x.target, t) && GoodStore(x.snapshot) && Runs(md5, x, es) && Visit(k) !in es
    ensures var y := Final(md5, x, es);
            && Alike(y.target, t) && y.snapshot == x.snapshot && y.range == x.range
            && (k in y.left <==> k in x.left)
            && Lookup(y.target.store, k) == Effects(md5, t, k, Lookup(x.target.store, k), ToTarget(es))
    decreases |es|
  {
    if es != [] {
      StepAt(md5, x, t, es[0], k);
      QuietRun(md5, Step(md5, x, es[0]), t, es[1..], k);
      FirstToTarget(es);
      EffectsConcat(md5, t, k, Lookup(x.target.store, k), ToTarget([es[0]]), ToTarget(es[1..]));
    }
  }

  /** A key that is no longer left is not visited again. */
  lemma {:induction false} VisitedOnce(md5: Md5, x: Transfer, es: seq<Event>, k: string)
    requires Runs(md5, x, es) && k !in x.left
    ensures Visit(k) !in es
    decreases |es|
  {
    if es != [] {
      VisitedOnce(md5, Step(md5, x, es[0]), es[1..], k);
      assert es == [es[0]] + es[1..];
    }
  }

  lemma {:induction false} RunSplits(md5: Md5, x: Transfer, before: seq<Event>, after: seq<Event>)
    requires Runs(md5, x, before + after)
    ensures Runs(md5, x, before) && Runs(md5, Final(md5, x, before), after)
    ensures Final(md5, x, before + after) == Final(md5, Final(md5, x, before), after)
    decreases |before|
  {
    if before == [] {
      assert before + after == after;
    } else {
      assert (before + after)[1..] == before[1..] + after;
      RunSplits(md5, Step(md5, x, before[0]), before[1..], after);
    }
  }

  /** Each key changes hands at its own visit. For any client requests at either server: what
      clients did to an accepted key at the receiver before its visit is overwritten by the sender's
      value, and what they do afterwards counts. */
  lemma KeyAfterVisit(md5: Md5, x: Transfer, t: ServerState, before: seq<Event>, after: seq<Event>, k: string)
    requires Alike(x.target, t) && GoodStore(x.snapshot) && Runs(md5, x, before + [Visit(k)] + after)
    requires k in x.snapshot && InRange(x.range, md5(k)) && Accepts(md5, t, k) && Visit(k) !in before
    ensures Lookup(Final(md5, x, before + [Visit(k)] + after).target.store, k)
            == Effects(md5, t, k, Some(x.snapshot[k]), ToTarget(after))
  {
    assert before + [Visit(k)] + after == before + ([Visit(k)] + after);
    RunSplits(md5, x, before, [Visit(k)] + after);
    QuietRun(md5, x, t, before, k);
    var y := Final(md5, x, before);
    assert ([Visit(k)] + after)[1..] == after;
    VisitAt(md5, y, t, k, k);
    var z := Step(md5, y, Visit(k));
    VisitedOnce(md5, z, after, k);
    QuietRun(md5, z, t, after, k);
  }

  /** No client puts k. */
  ghost predicate NotPut(k: string, ms: seq<KVMsg>) {
    forall m :: m in ms && m.status == PUT ==> m.key != k
  }

  lemma {:induction false} NoEffects(md5: Md5, t: ServerState, k: string, value: Option<string>, ms: seq<KVMsg>)
    requires NotPut(k, ms) || !Accepts(md5, t, k)
    ensures Effects(md5, t, k, value, ms) == value
  {
    if ms != [] {
      assert ms[0] in ms;
      assert forall m :: m in ms[1..] ==> m in ms;
      NoEffects(md5, t, k, value, ms[1..]);
    }
  }

  /** No client deletes k. */
  ghost predicate NotDeleted(k: string, ms: seq<KVMsg>) {
    forall m :: m in ms && m.status == PUT && m.key == k ==> !IsDelete(m.value)
  }

  lemma {:induction false} StaysStored(md5: Md5, t: ServerState, k: string, value: Option<string>, ms: seq<KVMsg>)
    requires NotDeleted(k, ms) && value.Some?
    ensures Effects(md5, t, k, value, ms).Some?
    decreases |ms|
  {
    if ms != [] {
      assert ms[0] in ms;
      assert forall m :: m in ms[1..] ==> m in ms;
      StaysStored(md5, t, k, PutEffect(md5, t, k, value, ms[0]), ms[1..]);
    }
  }

  lemma {:induction false} ToTargetOfPart(before: seq<Event>, after: seq<Event>)
    ensures ToTarget(before + after) == ToTarget(before) + ToTarget(after)
  {
    if before == [] {
      assert before + after == after;
    } else {
      var first, rest := ToTarget([before[0]]), ToTarget(before[1..]);
      assert (before + after)[1..] == before[1..] + after;
      FirstToTarget(before + after);
      FirstToTarget(before);
      ToTargetOfPart(before[1..], after);
      assert first + (rest + ToTarget(after)) == (first + rest) + ToTarget(after);
    }
  }

  /** A run that takes k off the list visits it once. */
  lemma {:induction false} VisitIn(md5: Md5, x: Transfer, es: seq<Event>, k: string)
    returns (before: seq<Event>, after: seq<Event>)
    requires Runs(md5, x, es) && k in x.left && k !in Final(md5, x, es).left
    ensures es == before + [Visit(k)] + after && Visit(k) !in before
    decreases |es|
  {
    if es[0] == Visit(k) {
      before, after := [], es[1..];
    } else {
      before, after := VisitIn(md5, Step(md5, x, es[0]), es[1..], k);
      assert es == [es[0]] + es[1..];
      before := [es[0]] + before;
    }
  }

  /** The receiver's value for a key of the range, after any run: the effect of all its clients'
      requests if the key was not sent or is refused, otherwise that of some last part of them on
      the sender's value. */
  lemma KeyAtReceiver(md5: Md5, x: Transfer, t: ServerState, es: seq<Event>, k: string)
    returns (late: seq<KVMsg>)
    requires Alike(x.target, t) && GoodStore(x.snapshot) && Runs(md5, x, es)
    requires k in x.snapshot && InRange(x.range, md5(k)) && Accepts(md5, t, k)
    requires k in x.left && k !in Final(md5, x, es).left
    ensures Lookup(Final(md5, x, es).target.store, k) == Effects(md5, t, k, Some(x.snapshot[k]), late)
    ensures forall m :: m in late ==> m in ToTarget(es)
  {
    var before, after := VisitIn(md5, x, es, k);
    KeyAfterVisit(md5, x, t, before, after, k);
    ToTargetOfPart(before + [Visit(k)], after);
    late := ToTarget(after);
  }

  /** A refused key: nothing ever reaches the receiver's store under it. */
  lemma {:induction false} RefusedStays(md5: Md5, x: Transfer, t: ServerState, es: seq<Event>, k: string)
    requires Alike(x.target, t) && GoodStore(x.snapshot) && Runs(md5, x, es) && !Accepts(md5, t, k)
    ensures Lookup(Final(md5, x, es).target.store, k) == Lookup(x.target.store, k)
    decreases |es|
  {
    if es != [] {
      StepAt(md5, x, t, es[0], k);
      if es[0] == Visit(k) {
        VisitAt(md5, x, t, k, k);
      } else {
        NoEffects(md5, t, k, Lookup(x.target.store, k), ToTarget([es[0]]));
      }
      RefusedStays(md5, Step(md5, x, es[0]), t, es[1..], k);
    }
  }

  // ---- early puts ----------------------------------------------------------------------------

  /** A client put of a key of the range that the receiver accepts in the middle of a transfer, and
      nobody puts the key there again: the acknowledged value is still there when the transfer is
      over if and only if the key had already been sent, or the value is the sender's own.
      Otherwise the transfer overwrites it. */
  lemma EarlyPut(md5: Md5, s: ServerState, t: ServerState, range: Range, before: seq<Event>, k: string, value: string,
                 after: seq<Event>)
    requires s.pending == {} && GoodStore(s.store) && k in Selected(md5, s, range)
    requires Accepts(md5, t, k) && !IsDelete(Some(value))
    requires Runs(md5, Begin(s, t, range), before) && Final(md5, Begin(s, t, range), before).phase == Sending
    requires var x := Final(md5, Begin(s, t, range), before);
             var put := AtTarget(KVMsg(PUT, k, Some(value), None));
             Runs(md5, Step(md5, x, put), after) && Final(md5, Step(md5, x, put), after).phase == Done
    requires NotPut(k, ToTarget(after))
    ensures var x := Final(md5, Begin(s, t, range), before);
            var (y, o) := ServeSpec(md5, x.target, KVMsg(PUT, k, Some(value), None));
            var end := Final(md5, Step(md5, x, AtTarget(KVMsg(PUT, k, Some(value), None))), after);
            && o.Reply? && o.msg.status in {PUT_SUCCESS, PUT_UPDATE} && Lookup(y.store, k) == Some(value)
            && Lookup(end.target.store, k) == (if k in x.left then Some(s.store[k]) else Some(value))
            && (Lookup(end.target.store, k) == Some(value) <==> k !in x.left || value == s.store[k])
  {
    var x := Final(md5, Begin(s, t, range), before);
    var put := AtTarget(KVMsg(PUT, k, Some(value), None));
    var y := Step(md5, x, put);
    BeginsKept(md5, s, t, range);
    SenderRun(md5, s, range, Begin(s, t, range), before);
    AlikeRun(md5, Begin(s, t, range), t, before);
    ServeAt(md5, x.target, t, k, put.msg);
    assert Accepts(md5, x.target, k);
    PutOutcome(md5, x.target, k, value);
    SenderStep(md5, s, range, x, put);
    SenderRun(md5, s, range, y, after);
    if k in x.left {
      var late := KeyAtReceiver(md5, y, t, after, k);
      NoEffects(md5, t, k, Some(s.store[k]), late);
    } else {
      VisitedOnce(md5, y, after, k);
      QuietRun(md5, y, t, after, k);
      NoEffects(md5, t, k, Some(value), ToTarget(after));
    }
  }

  lemma {:induction false} AlikeRun(md5: Md5, x: Transfer, t: ServerState, es: seq<Event>)
    requires Alike(x.target, t) && GoodStore(x.snapshot) && Runs(md5, x, es)
    ensures Alike(Final(md5, x, es).target, t)
    decreases |es|
  {
    if es != [] {
      StepAt(md5, x, t, es[0], "");
      AlikeRun(md5, Step(md5, x, es[0]), t, es[1..]);
    }
  }

  // ---- where the keys of the range are -----------------------------------------------------

  /** The receiver would take every key that is going to be sent. */
  ghost predicate Willing(md5: Md5, s: ServerState, t: ServerState, range: Range) {
    forall k :: k in Selected(md5, s, range) ==> Accepts(md5, t, k)
  }

  /** The receiver starts with none of the keys that are going to be sent. */
  ghost predicate Apart(md5: Md5, s: ServerState, t: ServerState, range: Range) {
    forall k :: k in Selected(md5, s, range) ==> k !in t.store
  }

  ghost predicate AtBoth(x: Transfer, k: string) {
    k in x.sender.store && k in x.target.store && x.sender.store[k] == x.target.store[k]
  }

  ghost predicate OnlyAtSender(x: Transfer, k: string) {
    k in x.sender.store && k !in x.target.store
  }

  lemma Beginning(md5: Md5, s: ServerState, t: ServerState, range: Range, es: seq<Event>)
    requires s.pending == {} && GoodStore(s.store) && Runs(md5, Begin(s, t, range), es)
    ensures SenderKept(md5, s, range, Final(md5, Begin(s, t, range), es))
    ensures Alike(Final(md5, Begin(s, t, range), es).target, t)
  {
    BeginsKept(md5, s, t, range);
    SenderRun(md5, s, range, Begin(s, t, range), es);
    AlikeRun(md5, Begin(s, t, range), t, es);
  }

  /** A key of the range that no client puts at the receiver. Before the flush it is at the sender
      alone until it is sent, and from then on at both servers with the same value, exactly if the
      receiver accepts it. After the flush it is at the receiver alone, with its value, exactly if
      it was accepted, and otherwise nowhere. */
  lemma WhereKeysAre(md5: Md5, s: ServerState, t: ServerState, range: Range, es: seq<Event>, k: string)
    requires s.pending == {} && GoodStore(s.store)
    requires Runs(md5, Begin(s, t, range), es) && NotPut(k, ToTarget(es))
    requires k in Selected(md5, s, range) && k !in t.store
    ensures var x := Final(md5, Begin(s, t, range), es);
            if x.phase == Done then
              && k !in x.sender.store && (k in x.target.store <==> Accepts(md5, t, k))
              && (k in x.target.store ==> x.target.store[k] == s.store[k])
            else if k in x.left || !Accepts(md5, t, k) then OnlyAtSender(x, k)
            else AtBoth(x, k)
  {
    Beginning(md5, s, t, range, es);
    var x0, x := Begin(s, t, range), Final(md5, Begin(s, t, range), es);
    if !Accepts(md5, t, k) {
      RefusedStays(md5, x0, t, es, k);
    } else if k in x.left {
      if Visit(k) in es {
        VisitTakes(md5, x0, es, k);
      }
      QuietRun(md5, x0, t, es, k);
      NoEffects(md5, t, k, None, ToTarget(es));
    } else {
      var late := KeyAtReceiver(md5, x0, t, es, k);
      NoEffects(md5, t, k, Some(s.store[k]), late);
    }
  }

  lemma {:induction false} LeftShrinks(md5: Md5, x: Transfer, es: seq<Event>)
    requires Runs(md5, x, es)
    ensures Final(md5, x, es).left <= x.left
    decreases |es|
  {
    if es != [] {
      LeftShrinks(md5, Step(md5, x, es[0]), es[1..]);
    }
  }

  lemma {:induction false} VisitTakes(md5: Md5, x: Transfer, es: seq<Event>, k: string)
    requires Runs(md5, x, es) && Visit(k) in es
    ensures k !in Final(md5, x, es).left
    decreases |es|
  {
    LeftShrinks(md5, Step(md5, x, es[0]), es[1..]);
    if es[0] != Visit(k) {
      assert es == [es[0]] + es[1..];
      VisitTakes(md5, Step(md5, x, es[0]), es[1..], k);
    }
  }

  /** Unless a client deletes one of them at the receiver, no key of the range is ever missing from
      both servers, at any point of any run, if and only if a finished transfer had a willing
      receiver. */
  lemma NeverAtNeither(md5: Md5, s: ServerState, t: ServerState, range: Range, es: seq<Event>)
    requires s.pending == {} && GoodStore(s.store) && Apart(md5, s, t, range) && Runs(md5, Begin(s, t, range), es)
    requires forall k :: k in Selected(md5, s, range) ==> NotDeleted(k, ToTarget(es))
    ensures var x := Final(md5, Begin(s, t, range), es);
            (forall k :: k in Selected(md5, s, range) ==> k in x.sender.store || k in x.target.store)
            <==> (x.phase == Done ==> Willing(md5, s, t, range))
  {
    var x := Final(md5, Begin(s, t, range), es);
    forall k | k in Selected(md5, s, range)
      ensures k in x.sender.store || k in x.target.store <==> (x.phase == Done ==> Accepts(md5, t, k))
    {
      KeyIsSomewhere(md5, s, t, range, es, k);
    }
  }

  lemma KeyIsSomewhere(md5: Md5, s: ServerState, t: ServerState, range: Range, es: seq<Event>, k: string)
    requires s.pending == {} && GoodStore(s.store) && Runs(md5, Begin(s, t, range), es)
    requires k in Selected(md5, s, range) && k !in t.store && NotDeleted(k, ToTarget(es))
    ensures var x := Final(md5, Begin(s, t, range), es);
            k in x.sender.store || k in x.target.store <==> (x.phase == Done ==> Accepts(md5, t, k))
  {
    Beginning(md5, s, t, range, es);
    var x0, x := Begin(s, t, range), Final(md5, Begin(s, t, range), es);
    if x.phase == Done {
      if Accepts(md5, t, k) {
        var late := KeyAtReceiver(md5, x0, t, es, k);
        StaysStored(md5, t, k, Some(s.store[k]), late);
      } else {
        RefusedStays(md5, x0, t, es, k);
      }
    }
  }

  /** The receiver answers a get for a key of the range, if no client puts it there, with its value
      once the key was sent, and denies having it before that: until the flush only the sender
      answers for all of them. */
  lemma TargetGets(md5: Md5, s: ServerState, t: ServerState, range: Range, es: seq<Event>, k: string)
    requires s.pending == {} && GoodStore(s.store)
    requires Runs(md5, Begin(s, t, range), es) && NotPut(k, ToTarget(es))
    requires k in Selected(md5, s, range) && k !in t.store && Accepts(md5, t, k)
    ensures var x := Final(md5, Begin(s, t, range), es);
            ServeGet(md5, x.target, k)
            == if k in x.left then Answer(GET_ERROR, k, None) else Answer(GET_SUCCESS, k, Some(s.store[k]))
  {
    WhereKeysAre(md5, s, t, range, es, k);
    Beginning(md5, s, t, range, es);
  }

  // ---- the transfers of the coordinator's commands -------------------------------------------

  /** The transfer of addNode: a new server takes everything. */
  lemma JoinIsWilling(md5: Md5, servers: map<Addr, ServerState>, live: set<Addr>, n: Addr, succ: Addr)
    requires Steady(md5, servers, live) && Joining(md5, live, n, succ) && n in servers
    ensures succ in servers
    ensures var ring := RingOf(md5, live + {n});
            var s, t := servers[succ], Booted(servers, n, ring)[n];
            && s.pending == {} && GoodStore(s.store)
            && Willing(md5, s, t, ring[n]) && Apart(md5, s, t, ring[n])
  {
    SteadyIsSharing(md5, servers, live, n, succ);
    NewServerAccepts(md5, servers, n, succ, RingOf(md5, live + {n}));
  }

  /** The transfer of removeNode: the successor takes everything exactly when nothing of the
      leaver is stranded and the successor is started. */
  lemma PartIsWilling(md5: Md5, servers: map<Addr, ServerState>, live: set<Addr>, n: Addr, succ: Addr)
    requires Steady(md5, servers, live) && Parting(md5, live, n, succ) && Separate(servers)
    ensures n in servers && succ in servers
    ensures var s, t, range := servers[n], ToldOf(md5, servers, live, n, succ)[succ], RingOf(md5, live)[n];
            && s.pending == {} && GoodStore(s.store) && Apart(md5, s, t, range)
            && (Willing(md5, s, t, range) <==> Lost(md5, servers, live, n, succ) == {})
  {
    RefusedIsLost(md5, servers, live, n, succ);
    assert Standing(md5, live, n, servers[n]);
    var s, t, range := servers[n], ToldOf(md5, servers, live, n, succ)[succ], RingOf(md5, live)[n];
    assert ToldOf(md5, servers, live, n, succ)[n] == s;
    WillingIff(md5, ToldOf(md5, servers, live, n, succ), n, succ, range);
    forall k | k in Selected(md5, s, range) ensures k !in t.store {
      assert k in servers[succ].store ==> n == succ;
    }
  }

  lemma WillingIff(md5: Md5, servers: map<Addr, ServerState>, source: Addr, target: Addr, range: Range)
    requires source in servers && target in servers
    ensures Willing(md5, servers[source], servers[target], range)
            <==> Refused(md5, servers, source, target, range) == {}
  {
    if k :| k in Selected(md5, servers[source], range) && !Accepts(md5, servers[target], k) {
      assert k in Refused(md5, servers, source, target, range);
    }
  }
}
