/** Small value types shared by the store, the identity provider and the handler. */
module Base {

  /** An optional value; stands for a JavaScript value that may be `undefined`. */
  datatype Option<+T> = None | Some(value: T) {

    /** The value, or `default` when there is none. */
    function GetOr(default: T): (r: T)
      ensures Some? ==> r == value
      ensures None? ==> r == default
    {
      match this
      case Some(v) => v
      case None => default
    }
  }

  /** The entry of `m` under `k`, or `None` when there is none: a field of a
      document that may be `undefined`, a document that may not exist. */
  function Lookup<K, V>(m: map<K, V>, k: K): (r: Option<V>)
    ensures r.Some? <==> k in m
    ensures r.Some? ==> r.value == m[k]
  {
    if k in m then Some(m[k]) else None
  }

  /** An error thrown by a backend client (identity provider or document store):
      its `code` property, when it has one, and its human-readable message. */
  datatype BackendError = BackendError(code: Option<string>, message: string)
}
