/** Small shared datatypes: an optional value and the completion of a JavaScript call. */
module Base {

  /** A value that may be absent (`undefined` or `null` on the JavaScript side). */
  datatype Option<+T> = None | Some(value: T)

  /** How a JavaScript evaluation ends: with a value, or by throwing a TypeError
      (for example by calling a method on `undefined`). */
  datatype Completion<+T> = Normal(value: T) | TypeError
}
