/**
 JavaScript values as far as policy evaluation looks at them.

 A condition comes out of a JSONB column, so it is a Json document. An attribute of the
 request may be any value; the evaluator only compares it, so an object, array or function
 is reduced to its identity. A document that was just parsed shares no identity with it.
 */
module Values {

  datatype Number = NaN | NegInf | Finite(r: real) | PosInf

  datatype Json =
    | JNull
    | JBool(b: bool)
    | JNum(r: real)
    | JStr(s: string)
    | JArr(items: seq<Json>)
    | JObj(fields: map<string, Json>)

  datatype Value = Undefined | Null | Bool(b: bool) | Num(n: Number) | Str(s: string) | Ref(id: nat)

  predicate Less(a: Number, b: Number)
  {
    match (a, b)
    case (Finite(x), Finite(y)) => x < y
    case (NegInf, Finite(_)) => true
    case (NegInf, PosInf) => true
    case (Finite(_), PosInf) => true
    case _ => false
  }

  predicate AtMost(a: Number, b: Number) { Less(a, b) || (a == b && !a.NaN?) }

  /** `===` between two request values. */
  predicate StrictEq(a: Value, b: Value) { a == b && a != Num(NaN) }

  /** `===` between a request value and a parsed document. */
  predicate SameAsJson(v: Value, j: Json)
  {
    match (v, j)
    case (Null, JNull) => true
    case (Bool(a), JBool(b)) => a == b
    case (Num(Finite(a)), JNum(b)) => a == b
    case (Str(a), JStr(b)) => a == b
    case _ => false
  }

  /** The parsed documents a request value is the same as: at most one. */
  function DocumentsOf(v: Value): set<Json>
  {
    match v
    case Null => {JNull}
    case Bool(b) => {JBool(b)}
    case Num(Finite(r)) => {JNum(r)}
    case Str(s) => {JStr(s)}
    case _ => {}
  }

  lemma SameAsJsonIff(v: Value, j: Json)
    ensures SameAsJson(v, j) <==> j in DocumentsOf(v)
  {}

  predicate Present(v: Value) { v != Undefined && v != Null }

  /** `a ?? b` */
  function OrElse(a: Value, b: Value): Value { if Present(a) then a else b }

  /** source[key]. */
  function Get(source: map<string, Value>, key: string): Value
  {
    if key in source then source[key] else Undefined
  }
}
