/** Small value types shared by every module of the gateway model. */
module Wrappers {

  /** A value that may be absent: JavaScript's `undefined` is None. */
  datatype Option<+T> = None | Some(value: T)

  /** An operation that either produces a value or fails (a thrown Error). */
  datatype Result<+T, +E> = Ok(value: T) | Err(error: E)

  /** JavaScript truthiness of an optional string: present and not "". */
  predicate Truthy(s: Option<string>)
  {
    s.Some? && s.value != ""
  }

  /** `s || fallback` for an optional string. */
  function OrElse(s: Option<string>, fallback: string): string
  {
    if Truthy(s) then s.value else fallback
  }

  function Min(a: int, b: int): int
  {
    if a <= b then a else b
  }

  function Max(a: int, b: int): int
  {
    if a <= b then b else a
  }
}
