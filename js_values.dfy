/**
  The untyped JSON values a request body can carry, with the three pieces of
  JavaScript semantics the handlers and validators rely on: truthiness (`!x`),
  the default operator `x || d`, and conversion to text (`x.toString()`, which
  is also what the validators apply before checking a value).
  Numbers are integer-valued here; from 10^21 in magnitude their text is in
  exponent form (`IntText`).
 */
module JsValues {
  import opened DecimalText

  datatype JsValue =
    | Undefined
    | Null
    | Bool(b: bool)
    | Num(n: int)
    | Str(s: string)
    | Arr(items: seq<JsValue>)
    | Obj

  /** JavaScript truthiness: `undefined`, `null`, `false`, `0` and `''` are falsy. */
  predicate Truthy(v: JsValue)
  {
    match v
    case Undefined => false
    case Null => false
    case Bool(b) => b
    case Num(n) => n != 0
    case Str(s) => s != ""
    case Arr(_) => true
    case Obj => true
  }

  /** `a || d`: `a` when it is truthy, otherwise `d`. */
  function Or(a: JsValue, d: JsValue): JsValue
  {
    if Truthy(a) then a else d
  }

  /** Text of a value: `String(v)` for scalars, `join(',')` for arrays, with
      `null` and `undefined` as the empty text. */
  function ToText(v: JsValue): string
    decreases v, 1
  {
    match v
    case Undefined => ""
    case Null => ""
    case Bool(b) => if b then "true" else "false"
    case Num(n) => IntText(n)
    case Str(s) => s
    case Arr(items) => Join(v, |items|)
    case Obj => "[object Object]"
  }

  /** The first `k` elements of the array `v`, joined with commas. */
  function Join(v: JsValue, k: nat): string
    requires v.Arr? && k <= |v.items|
    decreases v, 0, k
  {
    if k == 0 then ""
    else if k == 1 then ToText(v.items[0])
    else Join(v, k - 1) + "," + ToText(v.items[k - 1])
  }
}
