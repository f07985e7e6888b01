/** A storage server: what it answers to each request, how it obeys the
    coordinator, and how it hands a range of its keys to another server.

    ServerState is the abstract value of a KVServer object; each method of the
    class is proved against a function or relation on these values. */
module Server {
  import opened Wrappers
  import opened Ring
  import opened Storage

  /** The message statuses; NULL stands for a status that was never set. */
  datatype Status =
    | NULL
    | GET | GET_ERROR | GET_SUCCESS
    | PUT | PUT_SUCCESS | PUT_UPDATE | PUT_ERROR
    | DELETE_SUCCESS | DELETE_ERROR
    | SERVER_STOPPED | SERVER_WRITE_LOCK | SERVER_NOT_RESPONSIBLE
    | INIT_SERVER | INIT_SERVER_SUCCESS | INIT_SERVER_FAILED
    | START | START_SUCCESS | STOP | STOP_SUCCESS
    | SHUTDOWN | SHUTDOWN_SUCCESS
    | LOCK | LOCK_SUCCESS | UNLOCK | UNLOCK_SUCCESS
    | MOVE_DATA | MOVE_DATA_SUCCESS | MOVE_DATA_FAILED
    | UPDATE | UPDATE_SUCCESS | UPDATE_FAILED
    | FLUSH | FLUSH_SUCCESS | FLUSH_FAILED

  datatype KVMsg = KVMsg(status: Status, key: string, value: Option<string>, metadata: Option<Metadata>)

  /** Serving a message either produces a reply or throws, which drops the connection. */
  datatype Outcome = Reply(msg: KVMsg) | Thrown

  /** pending is the list of keys waiting to be flushed, as a set: only membership matters.
      A server that is not running keeps nothing but its (cleared) storage file. */
  datatype ServerState = ServerState(
    addr: Addr, running: bool, stopped: bool, locked: bool,
    metadata: Option<Metadata>, store: Store, pending: set<string>)

  /** Length of the UTF-8 encoding, which is what the key limit measures. */
  function Utf8Length(s: string): nat {
    if s == "" then 0
    else
      var c := s[0] as int;
      (if c < 0x80 then 1 else if c < 0x800 then 2 else if c < 0x10000 then 3 else 4) + Utf8Length(s[1..])
  }

  predicate ValidKey(key: string) {
    1 <= Utf8Length(key) <= 20
  }

  predicate GoodStore(s: Store) {
    forall k :: k in s ==> ValidKey(k) && !IsDelete(Some(s[k]))
  }

  /** The server finds its own entry in its metadata. */
  predicate Knows(s: ServerState) {
    s.metadata.Some? && s.addr in s.metadata.value
  }

  predicate Responsible(md5: Md5, s: ServerState, key: string)
    requires Knows(s)
  {
    InRange(s.metadata.value[s.addr], md5(key))
  }

  function NotResponsible(s: ServerState, key: string): Outcome {
    Reply(KVMsg(SERVER_NOT_RESPONSIBLE, key, None, s.metadata))
  }

  function Answer(status: Status, key: string, value: Option<string>): Outcome {
    Reply(KVMsg(status, key, value, None))
  }

  function ServeGet(md5: Md5, s: ServerState, key: string): Outcome {
    if !Knows(s) then Thrown
    else if !Responsible(md5, s, key) then NotResponsible(s, key)
    else if key in s.store then Answer(GET_SUCCESS, key, Some(s.store[key]))
    else Answer(GET_ERROR, key, None)
  }

  function ServePut(md5: Md5, s: ServerState, key: string, value: Option<string>): (ServerState, Outcome) {
    if s.locked then (s, Answer(SERVER_WRITE_LOCK, key, None))
    else if !ValidKey(key) then (s, Answer(PUT_ERROR, key, None))
    else if !Knows(s) then (s, Thrown)
    else if !Responsible(md5, s, key) then (s, NotResponsible(s, key))
    else
      var status := if key in s.store then (if IsDelete(value) then DELETE_SUCCESS else PUT_UPDATE)
                    else (if IsDelete(value) then DELETE_ERROR else PUT_SUCCESS);
      (s.(store := Write(s.store, key, value)), Answer(status, key, value))
  }

  function ServeSpec(md5: Md5, s: ServerState, m: KVMsg): (ServerState, Outcome) {
    if s.stopped then (s, Answer(SERVER_STOPPED, m.key, None))
    else match m.status
      case GET => (s, ServeGet(md5, s, m.key))
      case PUT => ServePut(md5, s, m.key, m.value)
      case NULL => (s, Thrown)
      case _ => (s, Answer(NULL, m.key, None))
  }

  // ---- moving data -------------------------------------------------------------------

  /** The keys a move of this range selects. */
  function Selected(md5: Md5, s: ServerState, range: Range): set<string> {
    set k | k in s.store && InRange(range, md5(k))
  }

  /** t takes a migrated key. */
  predicate Accepts(md5: Md5, t: ServerState, key: string) {
    !t.stopped && !t.locked && ValidKey(key) && Knows(t) && Responsible(md5, t, key)
  }

  /** t throws on a migrated key. */
  predicate Throws(t: ServerState, key: string) {
    !t.stopped && !t.locked && ValidKey(key) && !Knows(t)
  }

  /** The pairs that a receiver takes when it is offered these keys. */
  function Taken(md5: Md5, store: Store, t: ServerState, keys: set<string>): Store
    requires keys <= store.Keys
  {
    map k | k in keys && Accepts(md5, t, k) :: store[k]
  }

  /** The receiver after being offered the given keys: refused ones leave no trace. */
  function Received(md5: Md5, s: ServerState, t: ServerState, keys: set<string>): ServerState
    requires keys <= s.store.Keys
  {
    t.(store := t.store + Taken(md5, s.store, t, keys))
  }

  /** The sender after the flush: every selected key is gone, accepted or not. */
  function Flushed(md5: Md5, s: ServerState, range: Range): ServerState {
    s.(locked := false, store := s.store - (s.pending + Selected(md5, s, range)), pending := {})
  }

  // ---- the server object -------------------------------------------------------------

  datatype AdminMsg = AdminMsg(status: Status, metadata: Option<Metadata>)

  function Down(addr: Addr): ServerState {
    ServerState(addr, false, true, false, None, map[], {})
  }

  /** Every administrative command. A message of this type names neither a range nor a receiver, so
      that MOVE_DATA fails; see AdminMove for complete ones. */
  function AdminSpec(s: ServerState, m: AdminMsg): (ServerState, Status) {
    match m.status
    case INIT_SERVER => if m.metadata == None then (s, INIT_SERVER_FAILED)
                        else (s.(metadata := m.metadata), INIT_SERVER_SUCCESS)
    case START => (s.(stopped := false), START_SUCCESS)
    case STOP => (s.(stopped := true), STOP_SUCCESS)
    case SHUTDOWN => (Down(s.addr), SHUTDOWN_SUCCESS)
    case LOCK => (s.(locked := true), LOCK_SUCCESS)
    case UNLOCK => (s.(locked := false), UNLOCK_SUCCESS)
    case UPDATE => if m.metadata == None then (s, UPDATE_FAILED)
                   else (s.(metadata := m.metadata), UPDATE_SUCCESS)
    case FLUSH => (s.(store := s.store - s.pending, pending := {}), FLUSH_SUCCESS)
    case MOVE_DATA => (s, MOVE_DATA_FAILED)
    case _ => (s, NULL)
  }

  class KVServer {
    const md5: Md5
    const addr: Addr
    const storage: KVStorage
    var running: bool
    var stopped: bool
    var writeLock: bool
    var metadata: Option<Metadata>
    var dataToFlush: seq<string>

    ghost function State(): (s: ServerState)
      reads this, storage
      ensures s.addr == addr
    {
      ServerState(addr, running, stopped, writeLock, metadata, storage.kv, set k | k in dataToFlush)
    }

    /** An object for a configured server whose process has not been started. */
    constructor (md5: Md5, addr: Addr)
      ensures this.md5 == md5 && fresh(storage)
      ensures State() == Down(addr)
    {
      this.md5, this.addr := md5, addr;
      storage := new KVStorage(map[]);
      running, stopped, writeLock, metadata, dataToFlush := false, true, false, None, [];
    }

    /** The process starts: it is stopped for clients and knows no ring; the storage file is kept. */
    method Boot()
      modifies this
      ensures State() == Down(addr).(running := true, store := old(storage.kv))
      ensures running && stopped && !writeLock && metadata == None && dataToFlush == []
    {
      running, stopped, writeLock, metadata, dataToFlush := true, true, false, None, [];
    }

    /** None where the source dereferences missing metadata. */
    method InRangeOfServer(key: string) returns (r: Option<bool>)
      ensures r == if Knows(State()) then Some(Responsible(md5, State(), key)) else None
    {
      if metadata == None || addr !in metadata.value {
        return None;
      }
      r := Some(InRange(metadata.value[addr], md5(key)));
    }

    method Serve(m: KVMsg) returns (o: Outcome)
      modifies storage
      ensures (State(), o) == ServeSpec(md5, old(State()), m)
    {
      if stopped {
        return Answer(SERVER_STOPPED, m.key, None);
      }
      match m.status
      case GET =>
        var r := InRangeOfServer(m.key);
        if r == None {
          return Thrown;
        } else if !r.value {
          return Reply(KVMsg(SERVER_NOT_RESPONSIBLE, m.key, None, metadata));
        }
        var value := storage.Get(m.key);
        o := Answer(if value.Some? then GET_SUCCESS else GET_ERROR, m.key, value);
      case PUT =>
        if writeLock {
          return Answer(SERVER_WRITE_LOCK, m.key, None);
        }
        var len := Utf8Length(m.key);
        if len < 1 || len > 20 {
          return Answer(PUT_ERROR, m.key, None);
        }
        var r := InRangeOfServer(m.key);
        if r == None {
          return Thrown;
        } else if !r.value {
          return Reply(KVMsg(SERVER_NOT_RESPONSIBLE, m.key, None, metadata));
        }
        var delete := m.value == None || m.value == Some("null") || m.value == Some("");
        var present := storage.InStorage(m.key);
        var status;
        if present {
          storage.Put(m.key, m.value);
          status := if delete then DELETE_SUCCESS else PUT_UPDATE;
        } else if delete {
          assert storage.kv - {m.key} == storage.kv;
          status := DELETE_ERROR;
        } else {
          storage.Put(m.key, m.value);
          status := PUT_SUCCESS;
        }
        o := Answer(status, m.key, m.value);
      case NULL =>
        o := Thrown;
      case _ =>
        o := Answer(NULL, m.key, None);
    }

    method FlushData()
      modifies this`dataToFlush, storage
      ensures State() == old(State()).(store := old(State()).store - old(State()).pending, pending := {})
    {
      storage.FlushData(dataToFlush);
      dataToFlush := [];
      assert (set k | k in dataToFlush) == {};
    }

    method AdminServe(m: AdminMsg) returns (status: Status)
      modifies this, storage
      ensures (State(), status) == AdminSpec(old(State()), m)
    {
      match m.status
      case INIT_SERVER =>
        if m.metadata == None { return INIT_SERVER_FAILED; }
        metadata := m.metadata;
        status := INIT_SERVER_SUCCESS;
      case START =>
        stopped := false;
        status := START_SUCCESS;
      case STOP =>
        stopped := true;
        status := STOP_SUCCESS;
      case SHUTDOWN =>
        running, stopped, writeLock, metadata, dataToFlush := false, true, false, None, [];
        storage.ClearKVStorage();
        assert (set k | k in dataToFlush) == {};
        status := SHUTDOWN_SUCCESS;
      case LOCK =>
        writeLock := true;
        status := LOCK_SUCCESS;
      case UNLOCK =>
        writeLock := false;
        status := UNLOCK_SUCCESS;
      case UPDATE =>
        if m.metadata == None { return UPDATE_FAILED; }
        metadata := m.metadata;
        status := UPDATE_SUCCESS;
      case FLUSH =>
        FlushData();
        status := FLUSH_SUCCESS;
      case MOVE_DATA =>
        status := MOVE_DATA_FAILED;
      case _ =>
        status := NULL;
    }

    /** Marks one key for flushing and offers it to the target; the status of the reply is ignored. */
    method Migrate(key: string, value: string, target: KVServer) returns (thrown: bool)
      requires this != target && storage != target.storage && md5 == target.md5
      modifies this`dataToFlush, target.storage
      ensures State() == old(State()).(pending := old(State()).pending + {key})
      ensures var (t, o) := ServeSpec(md5, old(target.State()), KVMsg(PUT, key, Some(value), None));
              target.State() == t && (thrown <==> o == Thrown)
    {
      dataToFlush := dataToFlush + [key];
      assert (set k | k in dataToFlush) == old(State()).pending + {key};
      var reply := target.Serve(KVMsg(PUT, key, Some(value), None));
      thrown := reply == Thrown;
    }

    /** Goes over a snapshot of the store in any order and migrates the selected keys. */
    method SendSelected(range: Range, target: KVServer) returns (ok: bool)
      requires this != target && storage != target.storage && md5 == target.md5
      requires GoodStore(storage.kv)
      modifies this`dataToFlush, target.storage
      ensures ok <==> !(exists k :: k in Selected(md5, old(State()), range) && Throws(old(target.State()), k))
      ensures ok ==> State() == old(State()).(pending := old(State()).pending + Selected(md5, old(State()), range))
      ensures ok ==> target.State()
                     == Received(md5, old(State()), old(target.State()), Selected(md5, old(State()), range))
      ensures !ok ==> target.State() == old(target.State()) && State() == old(State()).(pending := State().pending)
                      && old(State()).pending <= State().pending
                      && State().pending <= old(State()).pending + Selected(md5, old(State()), range)
    {
      var kvObject := storage.kv;
      var left := kvObject.Keys;
      ghost var sent: set<string> := {};
      ghost var s, t := old(State()), old(target.State());
      while left != {}
        invariant left <= kvObject.Keys
        invariant (set k | k in dataToFlush) == s.pending + sent
        invariant sent == Selected(md5, s, range) - left
        invariant target.State() == Received(md5, s, t, sent)
        invariant forall k :: k in sent ==> !Throws(t, k)
        decreases left
      {
        var key :| key in left;
        left := left - {key};
        if InRange(range, md5(key)) {
          var thrown := Migrate(key, kvObject[key], target);
          OfferOne(md5, s, t, sent, key);
          if thrown {
            return false;
          }
          sent := sent + {key};
        }
      }
      assert sent == Selected(md5, s, range);
      ok := true;
    }

    /** Moves the selected keys to the target, then flushes them. It fails exactly when the
        target throws on one of them; then both stores are as before, the lock stays on and some of
        the selected keys stay marked for a later flush. */
    method MoveData(range: Range, target: KVServer) returns (ok: bool)
      requires this != target && storage != target.storage && md5 == target.md5
      requires GoodStore(storage.kv)
      modifies this`writeLock, this`dataToFlush, storage, target.storage
      ensures ok <==> !(exists k :: k in Selected(md5, old(State()), range) && Throws(old(target.State()), k))
      ensures ok ==> State() == Flushed(md5, old(State()), range)
      ensures ok ==> target.State()
                     == Received(md5, old(State()), old(target.State()), Selected(md5, old(State()), range))
      ensures !ok ==> State() == old(State()).(locked := true, pending := State().pending)
                      && old(State()).pending <= State().pending
                      && State().pending <= old(State()).pending + Selected(md5, old(State()), range)
                      && target.State() == old(target.State())
    {
      writeLock := true;
      ok := SendSelected(range, target);
      if ok {
        FlushData();
        writeLock := false;
      }
    }

    /** MOVE_DATA with a range and a receiver: a failed transfer is reported as such. */
    method AdminMove(range: Range, target: KVServer) returns (status: Status)
      requires this != target && storage != target.storage && md5 == target.md5
      requires GoodStore(storage.kv)
      modifies this`writeLock, this`dataToFlush, storage, target.storage
      ensures status == if exists k :: k in Selected(md5, old(State()), range) && Throws(old(target.State()), k)
                        then MOVE_DATA_FAILED else MOVE_DATA_SUCCESS
      ensures status == MOVE_DATA_SUCCESS ==>
                && State() == Flushed(md5, old(State()), range)
                && target.State()
                   == Received(md5, old(State()), old(target.State()), Selected(md5, old(State()), range))
      ensures status == MOVE_DATA_FAILED ==>
                storage.kv == old(storage.kv) && writeLock && target.State() == old(target.State())
    {
      var ok := MoveData(range, target);
      status := if ok then MOVE_DATA_SUCCESS else MOVE_DATA_FAILED;
    }
  }

  lemma TakeOne(md5: Md5, store: Store, t: ServerState, sent: set<string>, key: string)
    requires sent <= store.Keys && key in store
    ensures t.store + Taken(md5, store, t, sent + {key})
            == if Accepts(md5, t, key) then (t.store + Taken(md5, store, t, sent))[key := store[key]]
               else t.store + Taken(md5, store, t, sent)
  {
    if Accepts(md5, t, key) {
      assert Taken(md5, store, t, sent + {key}) == Taken(md5, store, t, sent)[key := store[key]];
    } else {
      assert Taken(md5, store, t, sent + {key}) == Taken(md5, store, t, sent);
    }
  }

  /** What a put of a real value does to any server. */
  lemma PutOutcome(md5: Md5, r: ServerState, key: string, value: string)
    requires !IsDelete(Some(value)) && ValidKey(key)
    ensures var (r', o) := ServeSpec(md5, r, KVMsg(PUT, key, Some(value), None));
            && (o == Thrown <==> Throws(r, key))
            && r' == if Accepts(md5, r, key) then r.(store := r.store[key := value]) else r
  {
    var m := KVMsg(PUT, key, Some(value), None);
    assert !r.stopped ==> ServeSpec(md5, r, m) == ServePut(md5, r, key, Some(value));
  }

  /** One migrated PUT, offered after the keys in sent. */
  lemma OfferOne(md5: Md5, s: ServerState, t: ServerState, sent: set<string>, key: string)
    requires GoodStore(s.store) && sent <= s.store.Keys && key in s.store
    ensures var (t', o) := ServeSpec(md5, Received(md5, s, t, sent), KVMsg(PUT, key, Some(s.store[key]), None));
            && (o == Thrown <==> Throws(t, key))
            && (o != Thrown ==> t' == Received(md5, s, t, sent + {key}))
            && (o == Thrown ==> t' == Received(md5, s, t, sent))
  {
    var r := Received(md5, s, t, sent);
    PutOutcome(md5, r, key, s.store[key]);
    TakeOne(md5, s.store, t, sent, key);
    assert Throws(r, key) == Throws(t, key) && Accepts(md5, r, key) == Accepts(md5, t, key);
  }
}
