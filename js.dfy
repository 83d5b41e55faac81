/**
 * The JavaScript values a React prop can carry, as far as the `typeof`
 * operator and truthiness tell them apart.  A prop such as `salePrice` can
 * hold any of them, so the card component decides whether it is on sale on
 * this value and not on an already-parsed amount.
 */
module Js {

  /**
   * A JavaScript number: any real stands for a finite double, so which reals
   * a double can hold (and rounding) is not modelled.
   */
  datatype Number = Finite(value: real) | NaN | Infinity(negative: bool)

  /** One constructor per result of `typeof` (ECMAScript 2023, section 13.5.3), with `null` apart. */
  datatype Value =
    | Undefined
    | Null
    | Boolean(b: bool)
    | Num(n: Number)
    | BigInt(i: int)
    | Str(s: string)
    | Symbol(description: string)
    | Object
    | Function

  /** The `typeof` operator, ECMAScript 2023 section 13.5.3, table 41 (`typeof null` is "object"). */
  function TypeOf(v: Value): (r: string)
    ensures r == "number" <==> v.Num?
    ensures r == "object" <==> v.Null? || v.Object?
  {
    match v
    case Undefined => "undefined"
    case Null => "object"
    case Boolean(_) => "boolean"
    case Num(_) => "number"
    case BigInt(_) => "bigint"
    case Str(_) => "string"
    case Symbol(_) => "symbol"
    case Object => "object"
    case Function => "function"
  }

  /** The test `typeof v === 'number'`. */
  predicate IsNumber(v: Value)
    ensures IsNumber(v) <==> v.Num?
  {
    TypeOf(v) == "number"
  }

  /** ToBoolean, ECMAScript 2023 section 7.1.2: what a plain truthiness test (`v && ...`) sees. */
  predicate Truthy(v: Value) {
    match v
    case Undefined => false
    case Null => false
    case Boolean(b) => b
    case Num(n) => n.Infinity? || (n.Finite? && n.value != 0.0)
    case BigInt(i) => i != 0
    case Str(s) => s != ""
    case Symbol(_) => true
    case Object => true
    case Function => true
  }

  /**
   * The numbers a truthiness test would wrongly reject are exactly zero and
   * NaN; every other number is truthy, so only those two separate the
   * `typeof` test from a truthiness test on the number side.
   */
  lemma NumberButFalsy(v: Value)
    ensures IsNumber(v) && !Truthy(v) <==> v == Num(Finite(0.0)) || v == Num(NaN)
  {
  }
}
