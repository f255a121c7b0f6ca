/** What the two supervisors of child processes share: statuses, retained output, and the log of what was emitted. */
module ProcessOutput {
  datatype Status = Success | Failed | StartFailed | Cancelled | Timeout | OutputLimit | TerminationUnconfirmed

  type Bytes = seq<char>

  const MAXIMUM_OUTPUT := 1024 * 1024

  function Min(a: nat, b: nat): nat {
    if a < b then a else b
  }

  /** What is retained of some bytes. */
  function Kept(bytes: Bytes, limit: nat): Bytes {
    bytes[..Min(|bytes|, limit)]
  }

  lemma KeptAppends(read: Bytes, data: Bytes, limit: nat)
    ensures |Kept(read, limit)| <= limit
    ensures Kept(read + data, limit) == Kept(read, limit) + data[..Min(limit - |Kept(read, limit)|, |data|)]
    ensures |read + data| > limit <==> |data| > limit - |Kept(read, limit)| || |read| > limit
  {
  }

  /** Another signal of the latest start. */
  function Emit<T>(log: seq<seq<T>>, signal: T): seq<seq<T>> {
    if log == [] then [[signal]] else log[..|log| - 1] + [log[|log| - 1] + [signal]]
  }

  function Latest<T>(log: seq<seq<T>>): seq<T> {
    if log == [] then [] else log[|log| - 1]
  }
}
