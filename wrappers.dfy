/** An optional value: a Go pointer that may be nil, a lookup that may miss,
    a JSON field that may be absent. */
module Wrappers {
  datatype Option<T> = None | Some(value: T)
  {
    /** The value when present, else `otherwise`. */
    function GetOr(otherwise: T): T {
      if Some? then value else otherwise
    }
  }
}
