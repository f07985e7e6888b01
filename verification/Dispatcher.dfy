/** One server's request dispatcher behaves like a map on the requests it admits and is
    inert on all others. */
module Dispatcher {
  import opened Wrappers
  import opened Ring
  import opened Storage
  import opened Server
  import opened Dictionary

  /** The request reaches the store. */
  predicate Admits(md5: Md5, s: ServerState, m: KVMsg) {
    && !s.stopped
    && (m.status == GET || (m.status == PUT && !s.locked && ValidKey(m.key)))
    && Knows(s) && Responsible(md5, s, m.key)
  }

  /** An admitted request is answered, and changes the store, exactly as on a map. */
  lemma AdmittedIsApplied(md5: Md5, s: ServerState, m: KVMsg)
    requires Admits(md5, s, m)
    ensures ServeSpec(md5, s, m) == (s.(store := Apply(s.store, m).0), Apply(s.store, m).1)
  {
    assert s.(store := s.store) == s;
  }

  /** A request that is not admitted leaves the server as it was and is never answered with
      success; the reply says why. */
  lemma RefusedIsInert(md5: Md5, s: ServerState, m: KVMsg)
    requires !Admits(md5, s, m)
    ensures var (s', o) := ServeSpec(md5, s, m);
            s' == s &&
            if s.stopped then o == Answer(SERVER_STOPPED, m.key, None)
            else if m.status == NULL then o == Thrown
            else if !IsClientRequest(m) then o == Answer(NULL, m.key, None)
            else if m.status == PUT && s.locked then o == Answer(SERVER_WRITE_LOCK, m.key, None)
            else if m.status == PUT && !ValidKey(m.key) then o == Answer(PUT_ERROR, m.key, None)
            else if !Knows(s) then o == Thrown
            else o == Reply(KVMsg(SERVER_NOT_RESPONSIBLE, m.key, None, s.metadata))
  {
  }

  /** What a put's status says about the store: success and deletion are reported exactly when the
      key appears or disappears, a reported update or success leaves the value behind, and without
      any such report nothing has changed. */
  lemma StatusTellsEffect(md5: Md5, s: ServerState, m: KVMsg)
    requires m.status == PUT
    ensures var (s', o) := ServeSpec(md5, s, m);
            var status := if o.Reply? then o.msg.status else NULL;
            && (status == PUT_SUCCESS <==> m.key !in s.store && m.key in s'.store)
            && (status == DELETE_SUCCESS <==> m.key in s.store && m.key !in s'.store)
            && (status == PUT_SUCCESS || status == PUT_UPDATE ==>
                  m.value.Some? && m.key in s'.store && s'.store[m.key] == m.value.value)
            && (status !in {PUT_SUCCESS, PUT_UPDATE, DELETE_SUCCESS} ==> s' == s)
            && (forall k :: k != m.key ==> (k in s'.store <==> k in s.store))
            && (forall k :: k != m.key && k in s.store ==> s'.store[k] == s.store[k])
  {
    if Admits(md5, s, m) {
      AdmittedIsApplied(md5, s, m);
      if m.key !in s.store && IsDelete(m.value) {
        assert s.store - {m.key} == s.store;
      }
    } else {
      RefusedIsInert(md5, s, m);
    }
  }

  /** Server s answers for this key: it is open, takes writes, and its own range has the key's hash. */
  predicate InCharge(md5: Md5, s: ServerState, key: string) {
    && !s.stopped && !s.locked
    && s.metadata.Some? && s.addr in s.metadata.value && InRange(s.metadata.value[s.addr], md5(key))
  }

  /** What a client reads off the reply to a get: the stored value, if and only if there is one. */
  lemma GetTellsValue(md5: Md5, s: ServerState, m: KVMsg)
    requires m.status == GET
    ensures var (s', o) := ServeSpec(md5, s, m);
            && s' == s && (o.Reply? ==> o.msg.key == m.key)
            && (o.Reply? && o.msg.status == GET_SUCCESS ==> m.key in s.store && o.msg.value == Some(s.store[m.key]))
            && (o.Reply? && o.msg.status != GET_SUCCESS ==> o.msg.value == None)
            && (InCharge(md5, s, m.key) ==>
                  o.Reply? && o.msg.status == if m.key in s.store then GET_SUCCESS else GET_ERROR)
  {
    if Admits(md5, s, m) { AdmittedIsApplied(md5, s, m); } else { RefusedIsInert(md5, s, m); }
  }

  /** A put to the server in charge: a key of 1 to 20 bytes is stored afterwards with the given value
      unless that is null, empty or "null", in which case it is not stored. */
  lemma PutStores(md5: Md5, s: ServerState, m: KVMsg)
    requires m.status == PUT && InCharge(md5, s, m.key) && 1 <= Utf8Length(m.key) <= 20
    ensures var s' := ServeSpec(md5, s, m).0;
            && (m.key in s'.store <==> m.value != None && m.value != Some("") && m.value != Some("null"))
            && (m.key in s'.store ==> Some(s'.store[m.key]) == m.value)
            && s' == s.(store := s'.store) && s'.store - {m.key} == s.store - {m.key}
  {
    AdmittedIsApplied(md5, s, m);
  }

  /** The reply to that put: its status tells whether the key was there and whether it was deleted,
      and key and value are those of the request. */
  lemma PutReplies(md5: Md5, s: ServerState, m: KVMsg)
    requires m.status == PUT && InCharge(md5, s, m.key) && 1 <= Utf8Length(m.key) <= 20
    ensures var o := ServeSpec(md5, s, m).1;
            && o.Reply? && o.msg.key == m.key && o.msg.value == m.value
            && o.msg.status == match m.value
                 case None => if m.key in s.store then DELETE_SUCCESS else DELETE_ERROR
                 case Some(v) => if v == "" || v == "null"
                                 then (if m.key in s.store then DELETE_SUCCESS else DELETE_ERROR)
                                 else if m.key in s.store then PUT_UPDATE else PUT_SUCCESS
  {
    AdmittedIsApplied(md5, s, m);
  }

  /** A put of a key that is empty or longer than 20 bytes changes nothing, whoever is in charge of it. */
  lemma KeyLimit(md5: Md5, s: ServerState, m: KVMsg)
    requires m.status == PUT && !s.stopped && !s.locked && !(1 <= Utf8Length(m.key) <= 20)
    ensures var (s', o) := ServeSpec(md5, s, m);
            s' == s && o.Reply? && o.msg.status == PUT_ERROR && o.msg.key == m.key && o.msg.value == None
  {
    RefusedIsInert(md5, s, m);
  }

  /** A server that cannot serve a request says why, and repeats the key. */
  lemma RefusalTellsWhy(md5: Md5, s: ServerState, m: KVMsg)
    requires m.status == GET || m.status == PUT
    ensures var (s', o) := ServeSpec(md5, s, m);
            && (s.stopped ==> s' == s && o.Reply? && o.msg.status == SERVER_STOPPED && o.msg.key == m.key)
            && (!s.stopped && s.locked && m.status == PUT ==>
                  s' == s && o.Reply? && o.msg.status == SERVER_WRITE_LOCK && o.msg.key == m.key)
            && (o.Reply? && o.msg.status == SERVER_NOT_RESPONSIBLE ==>
                  s' == s && o.msg.key == m.key && o.msg.metadata == s.metadata && s.metadata.Some?
                  && s.addr in s.metadata.value && !InRange(s.metadata.value[s.addr], md5(m.key)))
  {
    if Admits(md5, s, m) { AdmittedIsApplied(md5, s, m); } else { RefusedIsInert(md5, s, m); }
  }

  /** Keys of 1 to 20 bytes, values never null, empty or "null": kept by every request. */
  lemma ServeKeepsGoodStore(md5: Md5, s: ServerState, m: KVMsg)
    requires GoodStore(s.store)
    ensures GoodStore(ServeSpec(md5, s, m).0.store)
  {
    if Admits(md5, s, m) { AdmittedIsApplied(md5, s, m); } else { RefusedIsInert(md5, s, m); }
  }

  /** A whole conversation with one server. */
  function Session(md5: Md5, s: ServerState, ms: seq<KVMsg>): (ServerState, seq<Outcome>)
    decreases ms
  {
    if ms == [] then (s, [])
    else
      var (s1, o) := ServeSpec(md5, s, ms[0]);
      var (s2, os) := Session(md5, s1, ms[1..]);
      (s2, [o] + os)
  }

  /** Of a list parallel to ms, the entries whose request is admitted. */
  function Admitted<T>(md5: Md5, s: ServerState, ms: seq<KVMsg>, xs: seq<T>): seq<T>
    requires |ms| == |xs|
  {
    if ms == [] then []
    else (if Admits(md5, s, ms[0]) then [xs[0]] else []) + Admitted(md5, s, ms[1..], xs[1..])
  }

  lemma {:induction false} AdmittedAreRequests(md5: Md5, s: ServerState, ms: seq<KVMsg>)
    ensures forall m :: m in Admitted(md5, s, ms, ms) ==> IsClientRequest(m)
  {
    if ms != [] { AdmittedAreRequests(md5, s, ms[1..]); }
  }

  lemma {:induction false} SameFlagsAdmitAlike<T>(md5: Md5, s: ServerState, store: Store, ms: seq<KVMsg>, xs: seq<T>)
    requires |ms| == |xs|
    ensures Admitted(md5, s.(store := store), ms, xs) == Admitted(md5, s, ms, xs)
  {
    if ms != [] { SameFlagsAdmitAlike(md5, s, store, ms[1..], xs[1..]); }
  }

  lemma {:induction false} SessionLength(md5: Md5, s: ServerState, ms: seq<KVMsg>)
    ensures |Session(md5, s, ms).1| == |ms|
    decreases ms
  {
    if ms != [] { SessionLength(md5, ServeSpec(md5, s, ms[0]).0, ms[1..]); }
  }

  /** Over any sequence of requests the store ends as the map on which only the admitted requests
      were replayed, and the admitted requests got the map's answers. */
  lemma {:induction false} SessionRefinesMap(md5: Md5, s: ServerState, ms: seq<KVMsg>)
    ensures |Session(md5, s, ms).1| == |ms|
    ensures forall m :: m in Admitted(md5, s, ms, ms) ==> IsClientRequest(m)
    ensures var (s', os) := Session(md5, s, ms);
            var (g, replies) := Replay(s.store, Admitted(md5, s, ms, ms));
            s' == s.(store := g) && Admitted(md5, s, ms, os) == replies
    ensures GoodStore(s.store) ==> forall k :: k in Session(md5, s, ms).0.store ==>
              1 <= Utf8Length(k) <= 20 && Session(md5, s, ms).0.store[k] !in {"", "null"}
    decreases ms
  {
    SessionLength(md5, s, ms);
    AdmittedAreRequests(md5, s, ms);
    if ms != [] {
      var (s1, o) := ServeSpec(md5, s, ms[0]);
      if GoodStore(s.store) { ServeKeepsGoodStore(md5, s, ms[0]); }
      SessionRefinesMap(md5, s1, ms[1..]);
      var os := Session(md5, s1, ms[1..]).1;
      assert Session(md5, s, ms).1[1..] == os;
      if Admits(md5, s, ms[0]) {
        AdmittedIsApplied(md5, s, ms[0]);
        SameFlagsAdmitAlike(md5, s, s1.store, ms[1..], ms[1..]);
        SameFlagsAdmitAlike(md5, s, s1.store, ms[1..], os);
        assert Admitted(md5, s, ms, ms)[1..] == Admitted(md5, s, ms[1..], ms[1..]);
      } else {
        RefusedIsInert(md5, s, ms[0]);
        assert Admitted(md5, s, ms, ms) == Admitted(md5, s, ms[1..], ms[1..]);
        assert Admitted(md5, s, ms, Session(md5, s, ms).1) == Admitted(md5, s, ms[1..], os);
      }
    }
  }
}
