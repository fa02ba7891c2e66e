/** JavaScript values as the dashboard sees them in API rows and state:
    primitive scalars, their truthiness and their `toString`. Objects and
    arrays inside rows are not modelled. */
module JsValues {
  import opened Wrappers
  import opened JsStrings

  /** A primitive value of a JSON row. `Null` stands for both `null` and
      `undefined`; numbers are integers. */
  datatype Scalar = Null | Bool(b: bool) | Num(n: int) | Str(s: string)

  /** JavaScript truthiness: `null`, `false`, `0` and `""` are falsy. */
  predicate Truthy(v: Scalar) {
    match v
    case Null => false
    case Bool(b) => b
    case Num(n) => n != 0
    case Str(s) => s != ""
  }

  /** Truthiness of a nullable string (a token, a storage value, a message). */
  predicate Present(s: Option<string>) {
    s.Some? && s.value != ""
  }

  /** `String(v)`. */
  function ScalarToString(v: Scalar): (r: string)
    ensures v.Str? ==> r == v.s
    ensures v.Num? ==> ParseInt(r) == Some(v.n)
  {
    match v
    case Null => "null"
    case Bool(b) => if b then "true" else "false"
    case Num(n) => ParseIntToString(n); IntToString(n)
    case Str(s) => s
  }
}
