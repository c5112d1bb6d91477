/**
 * The few JavaScript values that the lookup helpers return, and the truthiness test
 * that their callers apply to them (`if (findUserId(email))`, `if (!userId || ...)`).
 */
module Js {

  /** A string (a user id), a boolean, or `null`. */
  datatype Value = Str(s: string) | Bool(b: bool) | Null

  /** JavaScript truthiness: the empty string, `false` and `null` are falsy. */
  predicate Truthy(v: Value)
  {
    match v
    case Str(s) => s != ""
    case Bool(b) => b
    case Null => false
  }
}
