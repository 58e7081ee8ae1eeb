/** The JavaScript values the request handlers inspect: parsed JSON bodies with their
    truthiness and property access, and IEEE doubles reduced to what the price logic
    can observe (NaN, the two infinities, and finite values). */
module JsValues {

  /* ------------------------------------------------------------------ JSON */

  /** A value read from a parsed JSON request body; `Undefined` is a property that is
      not there. JSON cannot carry NaN or the infinities, so every number is finite. */
  datatype Json =
    | Undefined
    | Null
    | Bool(b: bool)
    | Num(x: real)
    | Str(s: string)
    | Arr(items: seq<Json>)
    | Obj(fields: map<string, Json>)

  /** JavaScript truthiness: `undefined`, `null`, `false`, `0` and `""` are falsy;
      everything else, including every array and object, is truthy. */
  predicate Truthy(v: Json) {
    match v
    case Undefined => false
    case Null => false
    case Bool(b) => b
    case Num(x) => x != 0.0
    case Str(s) => s != ""
    case Arr(_) => true
    case Obj(_) => true
  }

  /** `v.key`, and `v?.key`: objects yield their own field, anything else yields nothing
      (no handler reads a property that a string or an array carries). */
  function Get(v: Json, key: string): (r: Json)
    ensures !v.Obj? ==> r == Undefined
  {
    if v.Obj? && key in v.fields then v.fields[key] else Undefined
  }

  /** `body[key]` for a request body object. */
  function Field(body: map<string, Json>, key: string): Json {
    Get(Obj(body), key)
  }

  /** `Number.isInteger(v)`. */
  predicate IsInteger(v: Json) {
    v.Num? && v.x.Floor as real == v.x
  }

  /* --------------------------------------------------------------- doubles */

  /** A double as the price logic sees it. */
  datatype Double = NaN | NegInf | Fin(r: real) | PosInf

  /** `a <= b`; false whenever either side is NaN. */
  predicate Le(a: Double, b: Double) {
    if a.NaN? || b.NaN? then false
    else if a.NegInf? || b.PosInf? then true
    else if a.PosInf? || b.NegInf? then false
    else a.r <= b.r
  }

  /** `a > b`; false whenever either side is NaN. */
  predicate Gt(a: Double, b: Double) {
    !a.NaN? && !b.NaN? && !Le(a, b)
  }

  /** `Math.min(a, b)`: NaN if either argument is NaN. */
  function Min(a: Double, b: Double): (r: Double)
    ensures forall x :: Le(x, r) <==> Le(x, a) && Le(x, b)
    ensures r.NaN? <==> a.NaN? || b.NaN?
  {
    if a.NaN? || b.NaN? then NaN else if Le(a, b) then a else b
  }

  /** `Math.max(a, b)`: NaN if either argument is NaN. */
  function Max(a: Double, b: Double): (r: Double)
    ensures forall x :: Le(r, x) <==> Le(a, x) && Le(b, x)
    ensures r.NaN? <==> a.NaN? || b.NaN?
  {
    if a.NaN? || b.NaN? then NaN else if Le(a, b) then b else a
  }
}
