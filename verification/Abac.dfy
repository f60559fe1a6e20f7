/** Condition evaluation of the policy engine (apps/api/src/abac.ts). */
module Abac {
  import opened Values

  /** What evaluation takes from its host: `$ref` lookups, and text or number coercion of documents. */
  datatype Host = Host(refValue: string -> Value, textOf: Json -> string, coerce: Json -> Number)

  function NumberOf(j: Json, host: Host): Number
  {
    match j
    case JNull => Finite(0.0)
    case JBool(b) => Finite(if b then 1.0 else 0.0)
    case JNum(r) => Finite(r)
    case _ => host.coerce(j)
  }

  function TextOf(j: Json, host: Host): string { if j.JStr? then j.s else host.textOf(j) }

  predicate Includes(items: seq<Json>, v: Value) { exists i :: 0 <= i < |items| && SameAsJson(v, items[i]) }

  /** One operator against one attribute value; an unknown operator never holds. */
  predicate OperatorHolds(op: string, operand: Json, v: Value, host: Host)
  {
    match op
    case "$in" => operand.JArr? && Includes(operand.items, v)
    case "$outside" => operand.JArr? && !Includes(operand.items, v)
    case "$not_in" => operand.JArr? && !Includes(operand.items, v)
    case "$eq" => SameAsJson(v, operand)
    case "$ne" => !SameAsJson(v, operand)
    case "$gt" => v.Num? && operand.JNum? && Less(Finite(operand.r), v.n)
    case "$gte" => v.Num? && operand.JNum? && AtMost(Finite(operand.r), v.n)
    case "$lt" => v.Num? && operand.JNum? && Less(v.n, Finite(operand.r))
    case "$lte" => v.Num? && operand.JNum? && AtMost(v.n, Finite(operand.r))
    case "$between" =>
      && operand.JArr? && |operand.items| == 2 && v.Num?
      && AtMost(NumberOf(operand.items[0], host), v.n)
      && AtMost(v.n, NumberOf(operand.items[1], host))
    case "$exists" => (operand == JBool(true)) == Present(v)
    case "$missing" => (operand == JBool(true)) == !Present(v)
    case "$ref" => StrictEq(v, host.refValue(TextOf(operand, host)))
    case _ => false
  }

  /** An operator object is a conjunction, an array a membership test, anything else an equality. */
  ghost predicate ConditionHolds(cond: Json, v: Value, host: Host)
  {
    match cond
    case JObj(ops) => forall op :: op in ops ==> OperatorHolds(op, ops[op], v, host)
    case JArr(items) => Includes(items, v)
    case _ => SameAsJson(v, cond)
  }

  ghost predicate AttributesHold(attr: map<string, Json>, source: map<string, Value>, host: Host)
  {
    forall k :: k in attr ==> ConditionHolds(attr[k], Get(source, k), host)
  }

  /** Tries the operators in any order and leaves at the first that fails. */
  method CondMatch(cond: Json, v: Value, host: Host) returns (ok: bool)
    ensures ok <==> ConditionHolds(cond, v, host)
  {
    match cond
    case JObj(ops) =>
      var keys := ops.Keys;
      if keys == {} {
        return true;
      }
      while keys != {}
        invariant keys <= ops.Keys
        invariant forall op :: op in ops && op !in keys ==> OperatorHolds(op, ops[op], v, host)
        decreases keys
      {
        var op :| op in keys;
        keys := keys - {op};
        ok := OperatorHolds(op, ops[op], v, host);
        if !ok {
          return false;
        }
      }
      return true;
    case JArr(items) =>
      return Includes(items, v);
    case _ =>
      return SameAsJson(v, cond);
  }

  method AttrMatches(attr: map<string, Json>, source: map<string, Value>, host: Host) returns (ok: bool)
    ensures ok <==> AttributesHold(attr, source, host)
  {
    var keys := attr.Keys;
    while keys != {}
      invariant keys <= attr.Keys
      invariant forall k :: k in attr && k !in keys ==> ConditionHolds(attr[k], Get(source, k), host)
      decreases keys
    {
      var k :| k in keys;
      keys := keys - {k};
      ok := CondMatch(attr[k], Get(source, k), host);
      if !ok {
        return false;
      }
    }
    return true;
  }

  // ------------------------------------------------------------------ what each operator says

  /** The operators that ask whether a value is one of some documents, or is there at all. */
  lemma OperatorsByValue(operand: Json, v: Value, host: Host)
    ensures OperatorHolds("$eq", operand, v, host) <==> operand in DocumentsOf(v)
    ensures OperatorHolds("$ne", operand, v, host) <==> operand !in DocumentsOf(v)
    ensures OperatorHolds("$in", operand, v, host) <==>
            operand.JArr? && exists i :: 0 <= i < |operand.items| && operand.items[i] in DocumentsOf(v)
    ensures OperatorHolds("$outside", operand, v, host) <==>
            operand.JArr? && forall i :: 0 <= i < |operand.items| ==> operand.items[i] !in DocumentsOf(v)
    ensures OperatorHolds("$not_in", operand, v, host) <==> OperatorHolds("$outside", operand, v, host)
    ensures OperatorHolds("$exists", operand, v, host) <==>
            if operand == JBool(true) then v != Undefined && v != Null else v == Undefined || v == Null
    ensures OperatorHolds("$missing", operand, v, host) <==>
            if operand == JBool(true) then v == Undefined || v == Null else v != Undefined && v != Null
  {
    SameAsJsonIff(v, operand);
    if operand.JArr? { IncludesIff(operand.items, v); }
  }

  lemma IncludesIff(items: seq<Json>, v: Value)
    ensures Includes(items, v) <==> exists i :: 0 <= i < |items| && items[i] in DocumentsOf(v)
  {
    forall i | 0 <= i < |items| ensures SameAsJson(v, items[i]) <==> items[i] in DocumentsOf(v) {
      SameAsJsonIff(v, items[i]);
    }
  }

  /** The four comparisons with a number are those of real arithmetic; NaN meets none. */
  lemma OperatorsInOrder(r: real, v: Value, host: Host)
    ensures OperatorHolds("$gt", JNum(r), v, host) <==> v.Num? && (v.n.PosInf? || (v.n.Finite? && v.n.r > r))
    ensures OperatorHolds("$gte", JNum(r), v, host) <==> v.Num? && (v.n.PosInf? || (v.n.Finite? && v.n.r >= r))
    ensures OperatorHolds("$lt", JNum(r), v, host) <==> v.Num? && (v.n.NegInf? || (v.n.Finite? && v.n.r < r))
    ensures OperatorHolds("$lte", JNum(r), v, host) <==> v.Num? && (v.n.NegInf? || (v.n.Finite? && v.n.r <= r))
  {}

  /** Numbers compare with numbers only: a text or null is neither above nor below one. */
  lemma OrderNeedsNumbers(op: string, operand: Json, v: Value, host: Host)
    requires op in {"$gt", "$gte", "$lt", "$lte"} && OperatorHolds(op, operand, v, host)
    ensures operand.JNum? && v.Num?
  {}

  /** The numbers that null, a flag and a number stand for as a bound. */
  function Bound(j: Json): real
    requires j.JNull? || j.JBool? || j.JNum?
  {
    if j.JNum? then j.r else if j == JBool(true) then 1.0 else 0.0
  }

  /** A range takes in both its bounds; a bound that is no number keeps everything out. */
  lemma BetweenIsARange(operand: Json, v: Value, host: Host)
    ensures OperatorHolds("$between", operand, v, host) ==> operand.JArr? && |operand.items| == 2 && v.Num?
    ensures operand.JArr? && |operand.items| == 2 ==>
              var lo, hi := operand.items[0], operand.items[1];
              && ((lo.JNull? || lo.JBool? || lo.JNum?) && (hi.JNull? || hi.JBool? || hi.JNum?) ==>
                    (OperatorHolds("$between", operand, v, host) <==>
                      v.Num? && v.n.Finite? && Bound(lo) <= v.n.r <= Bound(hi)))
              && ((lo.JStr? && host.coerce(lo) == NaN) || (hi.JStr? && host.coerce(hi) == NaN) ==>
                    !OperatorHolds("$between", operand, v, host))
  {}

  /** A reference asks for the value it leads to, and NaN is the same as nothing. */
  lemma RefAsksForItsValue(ref: string, v: Value, host: Host)
    ensures OperatorHolds("$ref", JStr(ref), v, host) <==> v == host.refValue(ref) && v != Num(NaN)
  {}

  const OPERATORS := {
    "$in", "$outside", "$not_in", "$eq", "$ne", "$gt", "$gte", "$lt", "$lte", "$between", "$exists", "$missing", "$ref"}

  lemma UnknownOperatorNeverHolds(op: string, operand: Json, v: Value, host: Host)
    requires OperatorHolds(op, operand, v, host)
    ensures op in OPERATORS
  {}

  /** A bare document asks for itself, an array for one of its items. */
  lemma BareConditions(cond: Json, v: Value, host: Host)
    ensures cond.JArr? ==>
              (ConditionHolds(cond, v, host) <==>
                exists i :: 0 <= i < |cond.items| && cond.items[i] in DocumentsOf(v))
    ensures !cond.JArr? && !cond.JObj? ==> (ConditionHolds(cond, v, host) <==> cond in DocumentsOf(v))
  {
    SameAsJsonIff(v, cond);
    if cond.JArr? { IncludesIff(cond.items, v); }
  }

  /** Both bounds of a compound condition are enforced, whatever order the operators come in. */
  lemma CompoundIsConjunction(lo: real, hi: real, v: Value, host: Host)
    ensures ConditionHolds(JObj(map["$gte" := JNum(lo), "$lte" := JNum(hi)]), v, host) <==>
            v.Num? && v.n.Finite? && lo <= v.n.r <= hi
  {
    var ops := map["$gte" := JNum(lo), "$lte" := JNum(hi)];
    assert ops.Keys == {"$gte", "$lte"};
    assert OperatorHolds("$gte", ops["$gte"], v, host) <==> v.Num? && AtMost(Finite(lo), v.n);
    assert OperatorHolds("$lte", ops["$lte"], v, host) <==> v.Num? && AtMost(v.n, Finite(hi));
  }
}
