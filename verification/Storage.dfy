/** A server's key-value storage: one map, rewritten on every change. */
module Storage {
  import opened Wrappers

  type Store = map<string, string>

  /** The values by which a put means "delete this key". */
  predicate IsDelete(value: Option<string>) {
    value == None || value == Some("") || value == Some("null")
  }

  function Write(s: Store, key: string, value: Option<string>): Store {
    if IsDelete(value) then s - {key} else s[key := value.value]
  }

  class KVStorage {
    var kv: Store

    constructor (file: Store)
      ensures kv == file
    {
      kv := file;
    }

    method InStorage(key: string) returns (found: bool)
      ensures found <==> key in kv
    {
      found := key in kv;
    }

    method Get(key: string) returns (value: Option<string>)
      ensures value == if key in kv then Some(kv[key]) else None
    {
      var found := InStorage(key);
      value := if found then Some(kv[key]) else None;
    }

    method Put(key: string, value: Option<string>)
      modifies this
      ensures kv == Write(old(kv), key, value) && kv - {key} == old(kv) - {key}
      ensures key in kv <==> value != None && value != Some("") && value != Some("null")
      ensures key in kv ==> Some(kv[key]) == value
    {
      if value.Some? && value.value != "" && value.value != "null" {
        kv := kv[key := value.value];
      } else {
        kv := kv - {key};
      }
    }

    /** Deletes the listed keys one after the other; keys that are not stored are skipped over. */
    method FlushData(dataToFlush: seq<string>)
      modifies this
      ensures kv == old(kv) - (set k | k in dataToFlush)
    {
      for i := 0 to |dataToFlush|
        invariant kv == old(kv) - (set k | k in dataToFlush[..i])
      {
        Put(dataToFlush[i], None);
        assert dataToFlush[..i + 1] == dataToFlush[..i] + [dataToFlush[i]];
      }
      assert dataToFlush[..|dataToFlush|] == dataToFlush;
    }

    method ClearKVStorage()
      modifies this
      ensures kv == map[]
    {
      kv := map[];
    }
  }
}
