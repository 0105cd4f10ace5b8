/**
 * The few JavaScript value semantics the modelled code relies on: which values
 * are truthy, reading a possibly missing property, strict equality with a
 * string literal, and how a string-or-nullish value is written inside a
 * template literal.
 */
module Js {

  import opened Optional

  /**
   * A JavaScript value. Numbers are modelled as integers (no NaN, no fractions,
   * no -0); `Date` stands for a Date object holding a millisecond timestamp.
   */
  datatype Value =
    | Undefined
    | Null
    | Bool(b: bool)
    | Num(n: int)
    | Str(s: string)
    | Date(time: int)
    | Arr(elems: seq<Value>)
    | Obj(fields: map<string, Value>)

  /** A plain object, as a map from own property names to values. */
  type Record = map<string, Value>

  /** A value whose TypeScript type is `string | null | undefined`. */
  type NullableString = v: Value | v.Undefined? || v.Null? || v.Str? witness Undefined

  /** JavaScript truthiness: `undefined`, `null`, `false`, `0` and `''` are falsy. */
  predicate Truthy(v: Value) {
    match v
    case Undefined => false
    case Null => false
    case Bool(b) => b
    case Num(n) => n != 0
    case Str(s) => s != ""
    case _ => true
  }

  /** Property access `o.key`: a missing property reads as `undefined`. */
  function Get(o: Record, key: string): (v: Value)
    ensures key !in o ==> v == Undefined
  {
    if key in o then o[key] else Undefined
  }

  /** Optional-chained access `o?.key`, where `o` itself may be missing. */
  function GetIn(o: Option<Record>, key: string): (v: Value)
    ensures o.None? ==> v == Undefined
  {
    match o
    case None => Undefined
    case Some(r) => Get(r, key)
  }

  /** How `${v}` renders a string, `null` or `undefined`. */
  function Interpolate(v: NullableString): (r: string)
    ensures v.Str? ==> r == v.s
  {
    match v
    case Str(s) => s
    case Null => "null"
    case Undefined => "undefined"
  }
}
