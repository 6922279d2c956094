/** Rust's `Option` and `Result`, as the adapter and the resolver use them. */
module Wrappers {

  datatype Option<T> = None | Some(value: T) {

    /** Rust's `unwrap_or`: the held value, or `default` when there is none. */
    function UnwrapOr(default: T): (r: T)
      ensures Some? ==> r == value
      ensures None? ==> r == default
    {
      match this
      case Some(v) => v
      case None => default
    }

    /** The value as a sequence of zero or one elements (what `if let Some(e) = .. { v.push(e) }` appends). */
    function ToSeq(): (s: seq<T>)
      ensures |s| <= 1
      ensures |s| == 1 <==> Some?
      ensures Some? ==> s[0] == value
    {
      match this
      case Some(v) => [v]
      case None => []
    }
  }

  datatype Result<T, E> = Ok(value: T) | Err(error: E)
}
