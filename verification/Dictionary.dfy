/** The reference: one plain map with get, put and delete. */
module Dictionary {
  import opened Wrappers
  import opened Storage
  import opened Server

  predicate IsClientRequest(m: KVMsg) {
    m.status == GET || m.status == PUT
  }

  /** A put reports whether the key was there before, and whether it was a deletion. */
  function PutVerdict(wasThere: bool, remove: bool): Status {
    match (wasThere, remove)
    case (true, true) => DELETE_SUCCESS
    case (true, false) => PUT_UPDATE
    case (false, true) => DELETE_ERROR
    case (false, false) => PUT_SUCCESS
  }

  function Apply(g: Store, m: KVMsg): (Store, Outcome)
    requires IsClientRequest(m)
  {
    if m.status == GET then
      (g, if m.key in g then Answer(GET_SUCCESS, m.key, Some(g[m.key])) else Answer(GET_ERROR, m.key, None))
    else if !ValidKey(m.key) then (g, Answer(PUT_ERROR, m.key, None))
    else (Write(g, m.key, m.value), Answer(PutVerdict(m.key in g, IsDelete(m.value)), m.key, m.value))
  }

  /** A sequence of requests against the map, with all replies. */
  function Replay(g: Store, ms: seq<KVMsg>): (Store, seq<Outcome>)
    requires forall m :: m in ms ==> IsClientRequest(m)
    decreases ms
  {
    if ms == [] then (g, [])
    else
      var (g1, o) := Apply(g, ms[0]);
      var (g2, os) := Replay(g1, ms[1..]);
      (g2, [o] + os)
  }
}
