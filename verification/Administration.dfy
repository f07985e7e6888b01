/** What the coordinator's commands to one server mean for its clients and its data. */
module Administration {
  import opened Wrappers
  import opened Ring
  import opened Storage
  import opened Server

  function After(s: ServerState, status: Status, metadata: Option<Metadata>): ServerState {
    AdminSpec(s, AdminMsg(status, metadata)).0
  }

  function ReplyTo(s: ServerState, status: Status, metadata: Option<Metadata>): Status {
    AdminSpec(s, AdminMsg(status, metadata)).1
  }

  /** Between STOP and START every request is turned away; START brings back what was there. */
  lemma StopUntilStart(md5: Md5, s: ServerState, m: KVMsg)
    ensures ReplyTo(s, STOP, None) == STOP_SUCCESS && ReplyTo(After(s, STOP, None), START, None) == START_SUCCESS
    ensures var (s', o) := ServeSpec(md5, After(s, STOP, None), m);
            && s'.store == s.store && o.Reply? && o.msg.status == SERVER_STOPPED && o.msg.key == m.key
            && o.msg.value == None && After(s', START, None) == s.(stopped := false)
  {
    assert s.(stopped := true).(stopped := false) == s.(stopped := false);
  }

  /** Between LOCK and UNLOCK puts are turned away and gets are answered as without the lock. */
  lemma LockUntilUnlock(md5: Md5, s: ServerState, m: KVMsg)
    requires !s.stopped && (m.status == GET || m.status == PUT)
    ensures ReplyTo(s, LOCK, None) == LOCK_SUCCESS && ReplyTo(After(s, LOCK, None), UNLOCK, None) == UNLOCK_SUCCESS
    ensures var (s', o) := ServeSpec(md5, After(s, LOCK, None), m);
            && s'.store == s.store && After(s', UNLOCK, None) == s.(locked := false)
            && (m.status == GET ==> o == ServeSpec(md5, s, m).1)
            && (m.status == PUT ==> o.Reply? && o.msg.status == SERVER_WRITE_LOCK && o.msg.key == m.key)
  {
    assert s.(locked := true).(locked := false) == s.(locked := false);
  }

  /** FLUSH removes exactly the keys that were marked, and unmarks them. */
  lemma FlushRemovesMarked(s: ServerState, k: string)
    ensures ReplyTo(s, FLUSH, None) == FLUSH_SUCCESS
    ensures var s' := After(s, FLUSH, None);
            && (k in s'.store <==> k in s.store && k !in s.pending) && (k in s'.store ==> s'.store[k] == s.store[k])
            && s' == s.(store := s'.store, pending := {})
  {
  }

  /** INIT_SERVER and UPDATE replace the ring, or fail without one; the ring decides at once whom
      the server answers. */
  lemma RingTakesEffect(md5: Md5, s: ServerState, status: Status, ring: Metadata, m: KVMsg)
    requires status == INIT_SERVER || status == UPDATE
    ensures After(s, status, None) == s
    ensures ReplyTo(s, status, None) == (if status == UPDATE then UPDATE_FAILED else INIT_SERVER_FAILED)
    ensures ReplyTo(s, status, Some(ring)) == (if status == UPDATE then UPDATE_SUCCESS else INIT_SERVER_SUCCESS)
    ensures var s' := After(s, status, Some(ring));
            && s' == s.(metadata := Some(ring))
            && (!s.stopped && m.status == GET && s.addr in ring ==>
                  var o := ServeSpec(md5, s', m).1;
                  && o.Reply? && (o.msg.status == SERVER_NOT_RESPONSIBLE <==> !InRange(ring[s.addr], md5(m.key)))
                  && (o.msg.status == SERVER_NOT_RESPONSIBLE ==> o.msg.metadata == Some(ring)))
  {
  }

  /** A server that was shut down and is started again has lost its data, its ring and its marks, and
      turns every client away until START. */
  lemma ShutdownForgets(md5: Md5, s: ServerState, m: KVMsg)
    ensures ReplyTo(s, SHUTDOWN, None) == SHUTDOWN_SUCCESS
    ensures var s' := After(s, SHUTDOWN, None);
            && !s'.running && s'.store == map[] && s'.pending == {} && s'.metadata == None && !s'.locked
            && s'.addr == s.addr
            && var o := ServeSpec(md5, s'.(running := true), m).1; o.Reply? && o.msg.status == SERVER_STOPPED
  {
  }
}
