/** Optional values (TypeScript's `T | null | undefined`) and the outcome of an
    operation that either produces a value or throws. */
module Wrappers {

  datatype Option<T> = None | Some(value: T)

  /** The outcome of a call that returns a value or throws an error. */
  datatype Result<T, E> = Ok(value: T) | Err(error: E)

  /** The first element of a list, as `list[0]` reads it: `undefined` when the list is empty. */
  function First<T>(s: seq<T>): (r: Option<T>)
    ensures r.Some? <==> |s| > 0
    ensures r.Some? ==> r.value == s[0]
  {
    if |s| == 0 then None else Some(s[0])
  }
}
