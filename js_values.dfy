/**
 * The JavaScript values the core passes around, as far as its logic depends on them.
 */
module JsValues {

  /** A JavaScript value: `null`, `undefined`, a boolean, a string, an array, or anything else
      without a `length` property (a number, a plain object). */
  datatype Value =
    | Null
    | Undefined
    | Bool(b: bool)
    | Str(s: string)
    | Arr(elements: seq<Value>)
    | Other

  /** A value that may be absent: `None` stands for `null` where the source returns or stores
      either a string or `null` (`getAttribute`, `this.sessionKey`). */
  datatype Option<+T> = None | Some(value: T)

  /** The result of a method that returns either a value or `false` on failure. */
  datatype OrFalse<+T> = Value(value: T) | False
}
