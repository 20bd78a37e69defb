/** Option and Result wrappers, and the JavaScript truthiness test the handlers apply to
    their request arguments. */
module Base {

  datatype Option<+T> = None | Some(value: T)

  datatype Result<+T, +E> = Ok(value: T) | Failure(error: E)

  /** `!x` is false for a request string argument exactly when it was supplied and is not
      the empty string (other falsy JavaScript values are not strings and are not modelled). */
  predicate Truthy(x: Option<string>) {
    x.Some? && x.value != ""
  }

  /** `x || d` for an optional string argument. */
  function OrElse(x: Option<string>, d: string): string
  {
    if Truthy(x) then x.value else d
  }
}
