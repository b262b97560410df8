/** The JavaScript values and call completions the memoizer handles. */
module JsValues {

  /** A JavaScript value as far as the memoizer can tell values apart.
      `Undefined` and `Null` are distinct: the cache uses `undefined` as its
      "nothing stored" marker, while a stored `null` is a real result.
      Numbers are integer-valued. */
  datatype JsVal = Undefined | Null | Bool(b: bool) | Num(n: int) | Str(s: string)

  /** How a JavaScript call ends: it returns a value or it throws one. */
  datatype Completion<+T> = Normal(value: T) | Throw(exception: JsVal)

  datatype Option<+T> = None | Some(value: T)
}
