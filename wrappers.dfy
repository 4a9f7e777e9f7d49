/** Option and Result, used wherever the source returns None or raises. */
module Wrappers {

  datatype Option<+T> = None | Some(value: T) {
    /** `dict.get(key, default)`-style access. */
    function GetOr(default: T): T {
      match this
      case Some(v) => v
      case None => default
    }
  }

  datatype Result<+T, +E> = Ok(value: T) | Err(error: E)

  /** Python's `d.get(key, default)`, where `default` has already been evaluated. */
  function DictGet<K, V>(d: map<K, V>, key: K, default: V): V {
    if key in d then d[key] else default
  }
}
