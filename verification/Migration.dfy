/** A transfer seen step by step: between taking the write lock and flushing, each message to
    the receiver is a step of its own, and client requests at either server may come in between. */
module Migration {
  import opened Wrappers
  import opened Ring
  import opened Storage
  import opened Server

  /** Sending: locked and going over the snapshot. Aborted: the receiver dropped the connection.
      Done: flushed and unlocked. */
  datatype Phase = Sending | Aborted | Done

  /** left is the part of the snapshot that the loop has not reached. */
  datatype Transfer = Transfer(
    range: Range, snapshot: Store, left: set<string>, phase: Phase, sender: ServerState, target: ServerState)

  datatype Event =
    | AtSender(msg: KVMsg)
    | AtTarget(msg: KVMsg)
    | Visit(key: string)
    | Finish

  function Begin(s: ServerState, t: ServerState, range: Range): Transfer {
    Transfer(range, s.store, s.store.Keys, Sending, s.(locked := true), t)
  }

  /** The loop visits the keys of the snapshot in any order. */
  predicate Enabled(x: Transfer, e: Event) {
    match e
    case Visit(key) => x.phase == Sending && key in x.left && key in x.snapshot
    case Finish => x.phase == Sending && x.left == {}
    case _ => x.phase != Done
  }

  /** One key of the snapshot: if it is in the range it is marked for the flush and sent. */
  function Visited(md5: Md5, x: Transfer, key: string): Transfer
    requires key in x.snapshot
  {
    if !InRange(x.range, md5(key)) then x.(left := x.left - {key})
    else
      var (t, o) := ServeSpec(md5, x.target, KVMsg(PUT, key, Some(x.snapshot[key]), None));
      x.(left := x.left - {key}, phase := if o == Thrown then Aborted else Sending,
         sender := x.sender.(pending := x.sender.pending + {key}), target := t)
  }

  function Step(md5: Md5, x: Transfer, e: Event): Transfer
    requires Enabled(x, e)
  {
    match e
    case AtSender(m) => x.(sender := ServeSpec(md5, x.sender, m).0)
    case AtTarget(m) => x.(target := ServeSpec(md5, x.target, m).0)
    case Visit(key) => Visited(md5, x, key)
    case Finish =>
      x.(phase := Done,
         sender := x.sender.(locked := false, store := x.sender.store - x.sender.pending, pending := {}))
  }

  ghost predicate Runs(md5: Md5, x: Transfer, es: seq<Event>)
    decreases |es|
  {
    es == [] || (Enabled(x, es[0]) && Runs(md5, Step(md5, x, es[0]), es[1..]))
  }

  ghost function Final(md5: Md5, x: Transfer, es: seq<Event>): Transfer
    requires Runs(md5, x, es)
    decreases |es|
  {
    if es == [] then x else Final(md5, Step(md5, x, es[0]), es[1..])
  }

  // ---- the sender --------------------------------------------------------------------------

  function Sent(md5: Md5, s: ServerState, range: Range, left: set<string>): set<string> {
    Selected(md5, s, range) - left
  }

  /** The sender serves its snapshot, locked, until the flush removes exactly the range. */
  ghost predicate SenderKept(md5: Md5, s: ServerState, range: Range, x: Transfer) {
    && x.range == range && x.snapshot == s.store && x.left <= s.store.Keys
    && if x.phase == Done then x.left == {} && x.sender == Flushed(md5, s, range)
       else x.sender == s.(locked := true, pending := Sent(md5, s, range, x.left))
  }

  lemma SenderStep(md5: Md5, s: ServerState, range: Range, x: Transfer, e: Event)
    requires SenderKept(md5, s, range, x) && Enabled(x, e) && s.pending == {}
    ensures SenderKept(md5, s, range, Step(md5, x, e))
  {
    match e
    case Visit(key) => SentOneMore(md5, s, range, x.left, key);
    case Finish =>
      assert Sent(md5, s, range, {}) == s.pending + Selected(md5, s, range);
    case _ =>
  }

  lemma SentOneMore(md5: Md5, s: ServerState, range: Range, left: set<string>, key: string)
    requires key in s.store && key in left
    ensures Sent(md5, s, range, left - {key})
            == if InRange(range, md5(key)) then Sent(md5, s, range, left) + {key} else Sent(md5, s, range, left)
  {
  }

  lemma {:induction false} SenderRun(md5: Md5, s: ServerState, range: Range, x: Transfer, es: seq<Event>)
    requires SenderKept(md5, s, range, x) && s.pending == {} && Runs(md5, x, es)
    ensures SenderKept(md5, s, range, Final(md5, x, es))
    decreases |es|
  {
    if es != [] {
      SenderStep(md5, s, range, x, es[0]);
      SenderRun(md5, s, range, Step(md5, x, es[0]), es[1..]);
    }
  }

  lemma BeginsKept(md5: Md5, s: ServerState, t: ServerState, range: Range)
    requires s.pending == {}
    ensures SenderKept(md5, s, range, Begin(s, t, range))
  {
    assert Sent(md5, s, range, s.store.Keys) == {};
  }

  /** Whatever happens on either side before the flush: a client's put changes nothing at the
      sender and is never reported a success, and a client's get is answered as it would have been
      before the transfer began. */
  lemma SenderAnswersFromSnapshot(md5: Md5, s: ServerState, t: ServerState, range: Range, es: seq<Event>, m: KVMsg)
    requires s.pending == {} && Runs(md5, Begin(s, t, range), es)
    requires Final(md5, Begin(s, t, range), es).phase != Done
    ensures var x := Final(md5, Begin(s, t, range), es);
            var (s', o) := ServeSpec(md5, x.sender, m);
            && x.sender.store == s.store && s' == x.sender
            && (m.status == GET ==> o == ServeSpec(md5, s, m).1)
            && (m.status == PUT ==> o == Answer(if s.stopped then SERVER_STOPPED else SERVER_WRITE_LOCK, m.key, None))
  {
    BeginsKept(md5, s, t, range);
    SenderRun(md5, s, range, Begin(s, t, range), es);
  }

  // ---- the receiver ------------------------------------------------------------------------

  /** The requests that clients made at the receiver. */
  function ToTarget(es: seq<Event>): seq<KVMsg> {
    if es == [] then [] else (if es[0].AtTarget? then [es[0].msg] else []) + ToTarget(es[1..])
  }

  lemma FirstToTarget(es: seq<Event>)
    requires es != []
    ensures ToTarget(es) == ToTarget([es[0]]) + ToTarget(es[1..])
  {
    assert [es[0]][1..] == [];
    var head := if es[0].AtTarget? then [es[0].msg] else [];
    assert ToTarget([es[0]]) == head + ToTarget([]) == head;
  }

  /** The receiver after these requests alone. */
  function Served(md5: Md5, t: ServerState, ms: seq<KVMsg>): ServerState {
    if ms == [] then t else ServeSpec(md5, Served(md5, t, ms[..|ms| - 1]), ms[|ms| - 1]).0
  }

  /** At the receiver no client puts a key that was already sent. */
  ghost predicate Timely(md5: Md5, x: Transfer, es: seq<Event>)
    requires Runs(md5, x, es)
    decreases |es|
  {
    es == [] || (TimelyNow(x, es[0]) && Timely(md5, Step(md5, x, es[0]), es[1..]))
  }

  ghost predicate TimelyNow(x: Transfer, e: Event) {
    e.AtTarget? && e.msg.status == PUT ==> e.msg.key !in x.sender.pending
  }

  /** Serving never changes what a server accepts. */
  lemma {:induction false} ServedFlags(md5: Md5, t: ServerState, ms: seq<KVMsg>)
    ensures Served(md5, t, ms) == t.(store := Served(md5, t, ms).store)
  {
    if ms != [] {
      ServedFlags(md5, t, ms[..|ms| - 1]);
    }
  }

  lemma ServeFlags(md5: Md5, r: ServerState, m: KVMsg)
    ensures var r' := ServeSpec(md5, r, m).0; r' == r.(store := r'.store)
    ensures m.status != PUT ==> ServeSpec(md5, r, m).0 == r
  {
  }

  lemma SameTaken(md5: Md5, store: Store, r: ServerState, r': ServerState, sent: set<string>)
    requires r' == r.(store := r'.store) && sent <= store.Keys
    ensures Taken(md5, store, r', sent) == Taken(md5, store, r, sent)
  {
  }

  lemma PutWrites(md5: Md5, r: ServerState, key: string, value: Option<string>)
    requires !r.stopped
    ensures ServePut(md5, r, key, value).0
            == if Accepts(md5, r, key) then r.(store := Write(r.store, key, value)) else r
  {
  }

  /** A client's put of a key outside the range. */
  lemma PutCommutes(md5: Md5, r: ServerState, taken: Store, key: string, value: Option<string>)
    requires key !in taken && !r.stopped
    ensures var t := r.(store := r.store + taken);
            var r' := ServePut(md5, r, key, value).0;
            ServePut(md5, t, key, value).0 == r'.(store := r'.store + taken)
  {
    WriteCommutes(r.store, taken, key, value);
    var t := r.(store := r.store + taken);
    PutWrites(md5, r, key, value);
    PutWrites(md5, t, key, value);
    assert Accepts(md5, t, key) == Accepts(md5, r, key);
  }

  /** A client's request commutes with the migrated keys, unless it puts one of them. */
  lemma ServeCommutes(md5: Md5, s: ServerState, r: ServerState, sent: set<string>, m: KVMsg)
    requires sent <= s.store.Keys && (m.status == PUT ==> m.key !in sent)
    ensures ServeSpec(md5, Received(md5, s, r, sent), m).0 == Received(md5, s, ServeSpec(md5, r, m).0, sent)
  {
    ServeFlags(md5, r, m);
    ServeFlags(md5, Received(md5, s, r, sent), m);
    SameTaken(md5, s.store, r, ServeSpec(md5, r, m).0, sent);
    if m.status == PUT && !r.stopped {
      PutCommutes(md5, r, Taken(md5, s.store, r, sent), m.key, m.value);
    }
  }

  lemma WriteCommutes(s: Store, taken: Store, key: string, value: Option<string>)
    requires key !in taken
    ensures Write(s + taken, key, value) == Write(s, key, value) + taken
  {
  }

  /** At every moment the receiver is as if it had served its clients first and been offered the
      keys sent so far afterwards; the transfer is aborted if it threw on one of them. */
  ghost predicate TargetKept(md5: Md5, s: ServerState, t: ServerState, range: Range, ms: seq<KVMsg>, x: Transfer) {
    && SenderKept(md5, s, range, x)
    && x.target == Received(md5, s, Served(md5, t, ms), Sent(md5, s, range, x.left))
    && (x.phase == Aborted <==> exists k :: k in Sent(md5, s, range, x.left) && Throws(t, k))
  }

  lemma TargetVisit(md5: Md5, s: ServerState, t: ServerState, range: Range, ms: seq<KVMsg>, x: Transfer, key: string)
    requires TargetKept(md5, s, t, range, ms, x) && Enabled(x, Visit(key)) && s.pending == {} && GoodStore(s.store)
    ensures TargetKept(md5, s, t, range, ms, Step(md5, x, Visit(key)))
  {
    SenderStep(md5, s, range, x, Visit(key));
    SentOneMore(md5, s, range, x.left, key);
    ServedFlags(md5, t, ms);
    var sent := Sent(md5, s, range, x.left);
    if InRange(range, md5(key)) {
      OfferOne(md5, s, Served(md5, t, ms), sent, key);
      TakeOne(md5, s.store, Served(md5, t, ms), sent, key);
      assert Throws(Served(md5, t, ms), key) == Throws(t, key);
      assert forall k :: k in sent ==> !Throws(t, k);
      assert key in sent + {key};
    }
  }

  lemma TargetServes(md5: Md5, s: ServerState, t: ServerState, range: Range, ms: seq<KVMsg>, x: Transfer, m: KVMsg)
    requires TargetKept(md5, s, t, range, ms, x) && Enabled(x, AtTarget(m)) && TimelyNow(x, AtTarget(m))
    ensures TargetKept(md5, s, t, range, ms + [m], Step(md5, x, AtTarget(m)))
  {
    assert (ms + [m])[..|ms|] == ms;
    ServeCommutes(md5, s, Served(md5, t, ms), Sent(md5, s, range, x.left), m);
  }

  lemma TargetStep(md5: Md5, s: ServerState, t: ServerState, range: Range, ms: seq<KVMsg>, x: Transfer, e: Event)
    requires TargetKept(md5, s, t, range, ms, x) && Enabled(x, e) && s.pending == {} && GoodStore(s.store)
    requires TimelyNow(x, e)
    ensures TargetKept(md5, s, t, range, ms + ToTarget([e]), Step(md5, x, e))
  {
    match e
    case AtTarget(m) =>
      assert ToTarget([e]) == [m];
      TargetServes(md5, s, t, range, ms, x, m);
    case Visit(key) =>
      assert ms + [] == ms;
      TargetVisit(md5, s, t, range, ms, x, key);
    case _ =>
      assert ms + [] == ms;
      SenderStep(md5, s, range, x, e);
  }

  lemma {:induction false} TargetRun(md5: Md5, s: ServerState, t: ServerState, range: Range, ms: seq<KVMsg>,
                                     x: Transfer, es: seq<Event>)
    requires TargetKept(md5, s, t, range, ms, x) && s.pending == {} && GoodStore(s.store)
    requires Runs(md5, x, es) && Timely(md5, x, es)
    ensures TargetKept(md5, s, t, range, ms + ToTarget(es), Final(md5, x, es))
    decreases |es|
  {
    if es == [] {
      assert ms + [] == ms;
    } else {
      var first, rest := ToTarget([es[0]]), ToTarget(es[1..]);
      FirstToTarget(es);
      assert (ms + first) + rest == ms + ToTarget(es);
      TargetStep(md5, s, t, range, ms, x, es[0]);
      TargetRun(md5, s, t, range, ms + first, Step(md5, x, es[0]), es[1..]);
    }
  }

  /** A whole transfer, interleaved in any way with client requests at both servers, has the effect
      of serving those requests first and then moving the range in one step, provided that no client
      puts a key at the receiver after it was sent. Without that proviso see module Handover. */
  lemma TransferIsAtomic(md5: Md5, s: ServerState, t: ServerState, range: Range, es: seq<Event>)
    requires s.pending == {} && GoodStore(s.store)
    requires Runs(md5, Begin(s, t, range), es) && Timely(md5, Begin(s, t, range), es)
    ensures var x := Final(md5, Begin(s, t, range), es);
            TargetKept(md5, s, t, range, ToTarget(es), x)
    ensures var x := Final(md5, Begin(s, t, range), es);
            x.phase == Done ==> x.sender == Flushed(md5, s, range)
                                && x.target == Received(md5, s, Served(md5, t, ToTarget(es)), Selected(md5, s, range))
  {
    BeginsKept(md5, s, t, range);
    var x := Final(md5, Begin(s, t, range), es);
    assert Sent(md5, s, range, s.store.Keys) == {};
    assert t.store + Taken(md5, s.store, t, {}) == t.store;
    assert TargetKept(md5, s, t, range, [], Begin(s, t, range));
    assert [] + ToTarget(es) == ToTarget(es);
    TargetRun(md5, s, t, range, [], Begin(s, t, range), es);
    if x.phase == Done {
      assert Sent(md5, s, range, {}) == Selected(md5, s, range);
    }
  }
}
