/** Small result datatypes shared by the whole model. */
module Wrappers {

  /** A value that may be missing: `null`/`undefined` on the JavaScript side. */
  datatype Option<+T> = None | Some(value: T)

  /** The verdict of a validation chain: accepted, or rejected with the message shown to the user. */
  datatype Outcome = Pass | Fail(message: string)

  /** JavaScript's `a || b` on two strings: the empty string is falsy. */
  function OrElse(a: string, b: string): (r: string)
    ensures r == a || r == b
    ensures a != [] ==> r == a
    ensures r == [] ==> a == [] && b == []
  {
    if a != [] then a else b
  }

  /** The truthiness of a string that may be absent (`getItem` returns `null` for a missing key). */
  predicate Truthy(s: Option<string>)
  {
    s.Some? && s.value != []
  }
}
