/**
 * JavaScript primitive values as they arrive from spreadsheet cells and are
 * stored in schema-less documents, with the three operations the code uses
 * on them: truthiness, `a || b`, and conversion to text.
 */
module JsValues {
  import opened Wrappers
  import opened JsNumbers

  /** A primitive value; numbers are restricted to integers. `===` is `==`. */
  datatype Value = Undefined | Null | Bool(b: bool) | Num(n: int) | Str(s: string)

  /** JavaScript truthiness: everything is truthy except these falsy values. */
  predicate Truthy(v: Value)
  {
    match v
    case Undefined => false
    case Null => false
    case Bool(b) => b
    case Num(n) => n != 0
    case Str(s) => s != ""
  }

  /** `a || b`. */
  function Or(a: Value, b: Value): Value
  {
    if Truthy(a) then a else b
  }

  /** `String(v)`, which is also what a template literal inserts. */
  function Text(v: Value): string
  {
    match v
    case Undefined => "undefined"
    case Null => "null"
    case Bool(b) => if b then "true" else "false"
    case Num(n) => IntToString(n)
    case Str(s) => s
  }

  /** `parseInt(v)`: the value is turned into text first. */
  function ParseIntValue(v: Value): Option<int>
  {
    ParseInt(Text(v))
  }

  /** A numeric cell reads back as itself. */
  lemma ParseIntValueOfNum(n: int)
    ensures ParseIntValue(Num(n)) == Some(n)
  {
    ParseIntOfIntToString(n);
  }

  /** `a || b` gives the first operand exactly when it is truthy, and is truthy when either is. */
  lemma OrTruthy(a: Value, b: Value)
    ensures Truthy(Or(a, b)) <==> Truthy(a) || Truthy(b)
    ensures Or(a, b) == a || Or(a, b) == b
  {
  }
}
