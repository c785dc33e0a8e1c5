/** Optional values, and the JavaScript truthiness test the bot applies to them. */
module Wrappers {

  /** A value that may be `undefined` or `null` in the original program. */
  datatype Option<+T> = None | Some(value: T)

  /**
   * `!!s` for a value of type `string | undefined | null`: true exactly when the
   * string is present and not empty (the empty string is falsy in JavaScript).
   */
  predicate Truthy(s: Option<string>)
  {
    s.Some? && s.value != ""
  }
}
