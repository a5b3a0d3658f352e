/** JavaScript values, as far as ports, the graph and the logger look at them. */
module Js {

  /** One UTF-16 code unit, the unit `length` counts and `charCodeAt` returns. */
  type CodeUnit = c: int | 0 <= c < 0x1_0000

  /** A JavaScript string: a sequence of UTF-16 code units. */
  type JsString = seq<CodeUnit>

  datatype Option<+T> = None | Some(value: T)

  datatype Result<+T, +E> = Ok(value: T) | Err(error: E)

  /** The code unit of `.`, which separates a selector from a port name. */
  const Dot: CodeUnit := 46

  /** The code unit of `_`, which starts the key of an inport's state accessor. */
  const Underscore: CodeUnit := 95

  /** The text `undefined`: `obj[undefined]` looks up the property of that name. */
  const UndefinedText: JsString := [117, 110, 100, 101, 102, 105, 110, 101, 100]

  /** A string-valued property is truthy when it is present and not empty. */
  predicate Truthy(s: Option<JsString>) {
    s.Some? && |s.value| > 0
  }

  /**
   * The values that flow through ports. Numbers are modelled as integers;
   * `Envelope` is the object `{__dirty, value}` an inport stores.
   */
  datatype JsValue =
    | Undefined
    | Null
    | Bool(b: bool)
    | Num(n: int)
    | Str(s: JsString)
    | Envelope(dirty: bool, value: JsValue)

  /** `null` and `undefined`, the two values `??` skips. */
  predicate Nullish(v: JsValue) {
    v.Undefined? || v.Null?
  }
}
