/**
 * The slice of JavaScript's value semantics that the request hooks depend on:
 * the values a header lookup, a parsed JSON document or a session can yield,
 * the nullish test behind `??`, the truthiness test behind `!`, and optional
 * property access `v?.access_token`.
 */
module Js {

  /** A JavaScript value as produced by `JSON.parse` or by a string lookup.
      Numbers are JSON numbers after parsing, so NaN never occurs. */
  datatype JsValue =
    | Undefined
    | Null
    | Bool(b: bool)
    | Num(n: real)
    | Str(s: string)
    | Arr(items: seq<JsValue>)
    | Obj(fields: map<string, JsValue>)

  /** `v === null || v === undefined`: the values `??` skips. */
  predicate Nullish(v: JsValue) {
    v.Undefined? || v.Null?
  }

  /** JavaScript truthiness (ToBoolean): `!v` is `!Truthy(v)`. The falsy
      values are `undefined`, `null`, `false`, `0` and `""`; every truthy
      value is defined, so `??` never skips a value `!` accepts. */
  function Truthy(v: JsValue): (t: bool)
    ensures t ==> !Nullish(v)
    ensures v.Str? ==> (t <==> v.s != "")
    ensures !t <==> Nullish(v) || v == Bool(false) || v == Num(0.0) || v == Str("")
  {
    match v
    case Undefined => false
    case Null => false
    case Bool(b) => b
    case Num(n) => n != 0.0
    case Str(s) => s != ""
    case Arr(_) => true
    case Obj(_) => true
  }

  /** The nullish-coalescing operator `a ?? b`: the left operand unless it is
      `null` or `undefined`, and the right operand otherwise. */
  function Coalesce(a: JsValue, b: JsValue): (r: JsValue)
    ensures !Nullish(a) ==> r == a
    ensures Nullish(a) ==> r == b
    ensures Nullish(r) ==> Nullish(a)
  {
    if Nullish(a) then b else a
  }

  /** Optional property access `v?.[key]`: a nullish base gives `undefined`,
      and only objects carry named properties (a string, number, boolean or
      array parsed from JSON has no own property of a plain name). */
  function OptionalProperty(v: JsValue, key: string): (r: JsValue)
    ensures !v.Obj? ==> r == Undefined
    ensures v.Obj? && key in v.fields ==> r == v.fields[key]
    ensures v.Obj? && key !in v.fields ==> r == Undefined
  {
    match v
    case Obj(fields) => if key in fields then fields[key] else Undefined
    case _ => Undefined
  }}
