// Small value types shared by every module of the model.
module Common {
  /** A value that may be absent: JavaScript's `null`/`undefined` versus a present value. */
  datatype Option<T> = None | Some(value: T)
  {
    /** `x ?? d`: the value when present, `d` otherwise. */
    function OrElse(d: T): T {
      if Some? then value else d
    }
  }

  /**
   * The outcome of an awaited call to the CMS or another remote service:
   * either it threw (network error, bad status, bad JSON) or it produced a value.
   */
  datatype Fetched<T> = FetchFailed | Fetched(value: T)

  /** `a ?? b`: the first operand unless it is null or undefined. */
  function Coalesce<T>(a: Option<T>, b: Option<T>): (r: Option<T>)
    ensures a.Some? ==> r == a
    ensures a.None? ==> r == b
  {
    if a.Some? then a else b
  }

  /** Concatenation is associative. */
  lemma AppendAssoc<T>(a: seq<T>, b: seq<T>, c: seq<T>)
    ensures (a + b) + c == a + (b + c)
  {
  }

  /** Dropping a prefix leaves what followed it. */
  lemma DropPrefix<T>(a: seq<T>, b: seq<T>)
    ensures (a + b)[|a|..] == b
  {
  }

  /** Updating a map adds the key to its domain and nothing else. */
  lemma UpdateKeys<K, V>(m: map<K, V>, k: K, v: V)
    ensures m[k := v].Keys == m.Keys + {k}
    ensures k in m ==> m[k := v].Keys == m.Keys
  {
  }
}
