/** From policy condition rows to the attribute maps the engine reads (apps/api/src/routes/admin.ts). */
module PolicyCompiler {
  import opened Wrappers
  import opened Values
  import Abac
  import Names

  datatype Kind = Subject | Resource | Environment

  datatype Operator =
    | Equals | NotEquals | In | NotIn | GreaterThan | LessThan | Between | Exists | NotExists

  /** A stored policy_conditions row. */
  datatype Condition = Condition(kind: Kind, attribute: string, op: Operator, value: Json)

  /** A condition as posted; a missing value arrives as JSON null. */
  datatype Posted = Posted(kind: string, attribute: string, op: string, value: Json)

  datatype Attrs = Attrs(subject: map<string, Json>, resource: map<string, Json>, environment: map<string, Json>)

  datatype Sources = Sources(subject: map<string, Value>, resource: map<string, Value>, environment: map<string, Value>)

  const NoAttrs := Attrs(map[], map[], map[])

  function ParseKind(s: string): Option<Kind>
  {
    match s
    case "SUBJECT" => Some(Subject)
    case "RESOURCE" => Some(Resource)
    case "ENVIRONMENT" => Some(Environment)
    case _ => None
  }

  function ParseOperator(s: string): Option<Operator>
  {
    match s
    case "EQUALS" => Some(Equals)
    case "NOT_EQUALS" => Some(NotEquals)
    case "IN" => Some(In)
    case "NOT_IN" => Some(NotIn)
    case "GREATER_THAN" => Some(GreaterThan)
    case "LESS_THAN" => Some(LessThan)
    case "BETWEEN" => Some(Between)
    case "EXISTS" => Some(Exists)
    case "NOT_EXISTS" => Some(NotExists)
    case _ => None
  }

  datatype Refusal = BadKind | BadOperator | NoAttribute

  /** The checks in the order the route makes them. */
  function Parse(p: Posted): Result<Condition, Refusal>
  {
    var kind, op := ParseKind(Names.UpperCase(p.kind)), ParseOperator(Names.UpperCase(p.op));
    if kind.None? then Err(BadKind)
    else if op.None? then Err(BadOperator)
    else if p.attribute == "" then Err(NoAttribute)
    else Ok(Condition(kind.value, p.attribute, op.value, p.value))
  }

  /** The rows a list of posted conditions becomes, or its first refusal. */
  function ParseAll(ps: seq<Posted>): Result<seq<Condition>, Refusal>
  {
    if ps == [] then Ok([])
    else
      var n := |ps| - 1;
      match ParseAll(ps[..n])
      case Err(e) => Err(e)
      case Ok(cs) => match Parse(ps[n]) case Err(e) => Err(e) case Ok(c) => Ok(cs + [c])
  }

  /** The operator under which a row is stored. */
  function Key(op: Operator): string
  {
    match op
    case Equals => "$eq"
    case NotEquals => "$ne"
    case In => "$in"
    case NotIn => "$outside"
    case GreaterThan => "$gt"
    case LessThan => "$lt"
    case Between => "$between"
    case Exists => "$exists"
    case NotExists => "$missing"
  }

  function Operand(c: Condition): Json
  {
    match c.op
    case Exists => if c.value.JNull? then JBool(true) else c.value
    case NotExists => JBool(true)
    case _ => c.value
  }

  /** The operator object stored for one row. */
  function Target(c: Condition): Json { JObj(map[Key(c.op) := Operand(c)]) }

  function Assign(attrs: Attrs, c: Condition): Attrs
  {
    match c.kind
    case Subject => attrs.(subject := attrs.subject[c.attribute := Target(c)])
    case Resource => attrs.(resource := attrs.resource[c.attribute := Target(c)])
    case Environment => attrs.(environment := attrs.environment[c.attribute := Target(c)])
  }

  function Compile(cs: seq<Condition>): Attrs
  {
    if cs == [] then NoAttrs else Assign(Compile(cs[..|cs| - 1]), cs[|cs| - 1])
  }

  /** Validates, collects and compiles the posted conditions in one pass. */
  method CompileConditions(ps: seq<Posted>) returns (r: Result<(seq<Condition>, Attrs), Refusal>)
    ensures match ParseAll(ps)
            case Ok(cs) => r == Ok((cs, Compile(cs)))
            case Err(e) => r == Err(e)
  {
    var rows, attrs := [], NoAttrs;
    for i := 0 to |ps|
      invariant ParseAll(ps[..i]) == Ok(rows) && attrs == Compile(rows)
    {
      assert ps[..i + 1][..i] == ps[..i];
      match Parse(ps[i]) {
        case Err(e) =>
          RefusalSticks(ps, i + 1);
          return Err(e);
        case Ok(c) =>
          attrs := Assign(attrs, c);
          assert (rows + [c])[..|rows|] == rows;
          rows := rows + [c];
      }
    }
    assert ps[..|ps|] == ps;
    return Ok((rows, attrs));
  }

  lemma {:induction false} RefusalSticks(ps: seq<Posted>, i: nat)
    requires i <= |ps| && ParseAll(ps[..i]).Err?
    ensures ParseAll(ps) == ParseAll(ps[..i])
  {
    if i < |ps| {
      assert ps[..|ps| - 1][..i] == ps[..i];
      RefusalSticks(ps[..|ps| - 1], i);
    } else {
      assert ps[..i] == ps;
    }
  }

  // ------------------------------------------------------------------ meaning

  /** What a condition row says about the value of its attribute. */
  predicate Meaning(c: Condition, v: Value, host: Abac.Host)
  {
    match c.op
    case Equals => SameAsJson(v, c.value)
    case NotEquals => !SameAsJson(v, c.value)
    case In => c.value.JArr? && Abac.Includes(c.value.items, v)
    case NotIn => c.value.JArr? && !Abac.Includes(c.value.items, v)
    case GreaterThan => v.Num? && c.value.JNum? && Less(Finite(c.value.r), v.n)
    case LessThan => v.Num? && c.value.JNum? && Less(v.n, Finite(c.value.r))
    case Between =>
      && v.Num? && c.value.JArr? && |c.value.items| == 2
      && AtMost(Abac.NumberOf(c.value.items[0], host), v.n)
      && AtMost(v.n, Abac.NumberOf(c.value.items[1], host))
    case Exists => Present(v)
    case NotExists => !Present(v)
  }

  function SourceOf(kind: Kind, sources: Sources): map<string, Value>
  {
    match kind
    case Subject => sources.subject
    case Resource => sources.resource
    case Environment => sources.environment
  }

  function MapOf(kind: Kind, attrs: Attrs): map<string, Json>
  {
    match kind
    case Subject => attrs.subject
    case Resource => attrs.resource
    case Environment => attrs.environment
  }

  predicate SamePair(a: Condition, b: Condition) { a.kind == b.kind && a.attribute == b.attribute }

  /** Row i is the one its (kind, attribute) pair keeps. */
  predicate LastOfPair(cs: seq<Condition>, i: nat)
    requires i < |cs|
  {
    forall j :: i < j < |cs| ==> !SamePair(cs[j], cs[i])
  }

  predicate NoRepeatedPair(cs: seq<Condition>)
  {
    forall i, j :: 0 <= i < j < |cs| ==> !SamePair(cs[i], cs[j])
  }

  /** The value of a row's attribute in a request. */
  function ValueFor(c: Condition, sources: Sources): Value { Get(SourceOf(c.kind, sources), c.attribute) }

  predicate Reads(c: Condition, sources: Sources, host: Abac.Host) { Meaning(c, ValueFor(c, sources), host) }

  /** A row whose operator object asks what the row says; EXISTS with a value of its own asks the opposite. */
  predicate Faithful(c: Condition) { c.op.Exists? ==> c.value in {JNull, JBool(true)} }

  /** The engine's verdict on three maps. */
  ghost predicate AllHold(attrs: Attrs, sources: Sources, host: Abac.Host)
  {
    && Abac.AttributesHold(attrs.subject, sources.subject, host)
    && Abac.AttributesHold(attrs.resource, sources.resource, host)
    && Abac.AttributesHold(attrs.environment, sources.environment, host)
  }

  /** What the operator object of a row asks of a value. */
  lemma TargetAsks(c: Condition, v: Value, host: Abac.Host)
    ensures Abac.ConditionHolds(Target(c), v, host) <==> (Meaning(c, v, host) <==> Faithful(c))
  {
    assert Key(c.op) in Target(c).fields;
    assert Abac.ConditionHolds(Target(c), v, host) <==> Abac.OperatorHolds(Key(c.op), Operand(c), v, host);
  }

  /** An operator object means its row, for every value, exactly when the row is faithful. */
  lemma TargetMeansIffFaithful(c: Condition, host: Abac.Host)
    ensures (forall v :: Abac.ConditionHolds(Target(c), v, host) <==> Meaning(c, v, host)) <==> Faithful(c)
  {
    forall v ensures Abac.ConditionHolds(Target(c), v, host) <==> (Meaning(c, v, host) <==> Faithful(c)) {
      TargetAsks(c, v, host);
    }
    assert Abac.ConditionHolds(Target(c), Null, host) <==> (Meaning(c, Null, host) <==> Faithful(c));
  }

  /** EXISTS asks for presence exactly when it carries no value, or true. */
  lemma ExistsAsksForPresenceIff(c: Condition, host: Abac.Host)
    requires c.op.Exists?
    ensures (forall v :: Abac.ConditionHolds(Target(c), v, host) <==> Present(v)) <==> c.value in {JNull, JBool(true)}
  {
    TargetMeansIffFaithful(c, host);
    assert forall v :: Meaning(c, v, host) <==> Present(v);
  }

  lemma LastOfPairStep(cs: seq<Condition>, i: nat)
    requires i + 1 < |cs|
    ensures LastOfPair(cs, i) <==> LastOfPair(cs[..|cs| - 1], i) && !SamePair(cs[|cs| - 1], cs[i])
  {}

  /** The last row of a pair is the one its map holds. */
  lemma {:induction false} LastRowIsKept(cs: seq<Condition>, i: nat)
    requires i < |cs| && LastOfPair(cs, i)
    ensures cs[i].attribute in MapOf(cs[i].kind, Compile(cs))
    ensures MapOf(cs[i].kind, Compile(cs))[cs[i].attribute] == Target(cs[i])
  {
    if i + 1 < |cs| {
      LastOfPairStep(cs, i);
      LastRowIsKept(cs[..|cs| - 1], i);
    }
  }

  /** A map holds nothing that no row put there. */
  lemma {:induction false} KeptComesFromRow(cs: seq<Condition>, kind: Kind, k: string)
    requires k in MapOf(kind, Compile(cs))
    ensures exists i :: 0 <= i < |cs| && cs[i].kind == kind && cs[i].attribute == k && LastOfPair(cs, i)
  {
    var n := |cs| - 1;
    if cs[n].kind == kind && cs[n].attribute == k {
      assert LastOfPair(cs, n);
    } else {
      assert k in MapOf(kind, Compile(cs[..n]));
      KeptComesFromRow(cs[..n], kind, k);
      var i :| 0 <= i < n && cs[..n][i].kind == kind && cs[..n][i].attribute == k && LastOfPair(cs[..n], i);
      LastOfPairStep(cs, i);
    }
  }

  /** What the last row of a pair asks of a request. */
  predicate Asks(c: Condition, sources: Sources, host: Abac.Host) { Reads(c, sources, host) <==> Faithful(c) }

  lemma MapHoldsWhenRowsDo(cs: seq<Condition>, kind: Kind, sources: Sources, host: Abac.Host)
    ensures Abac.AttributesHold(MapOf(kind, Compile(cs)), SourceOf(kind, sources), host) <==>
            forall i :: 0 <= i < |cs| && cs[i].kind == kind && LastOfPair(cs, i) ==> Asks(cs[i], sources, host)
  {
    var m, source := MapOf(kind, Compile(cs)), SourceOf(kind, sources);
    forall i | 0 <= i < |cs| && cs[i].kind == kind && LastOfPair(cs, i)
      ensures cs[i].attribute in m
      ensures Abac.ConditionHolds(m[cs[i].attribute], Get(source, cs[i].attribute), host) <==>
          Asks(cs[i], sources, host)
    {
      LastRowIsKept(cs, i);
      TargetAsks(cs[i], Get(source, cs[i].attribute), host);
    }
    forall k | k in m
      ensures exists i :: 0 <= i < |cs| && cs[i].kind == kind && cs[i].attribute == k && LastOfPair(cs, i)
    {
      KeptComesFromRow(cs, kind, k);
    }
  }

  /** The compiled maps ask of a request what the last row of each (kind, attribute) pair asks. */
  lemma CompilationKeepsLastOfEachPair(cs: seq<Condition>, sources: Sources, host: Abac.Host)
    ensures AllHold(Compile(cs), sources, host) <==>
            forall i :: 0 <= i < |cs| && LastOfPair(cs, i) ==> Asks(cs[i], sources, host)
  {
    MapHoldsWhenRowsDo(cs, Subject, sources, host);
    MapHoldsWhenRowsDo(cs, Resource, sources, host);
    MapHoldsWhenRowsDo(cs, Environment, sources, host);
    assert forall i :: 0 <= i < |cs| ==> cs[i].kind in {Subject, Resource, Environment};
  }

  predicate AllRead(cs: seq<Condition>, sources: Sources, host: Abac.Host)
  {
    forall i :: 0 <= i < |cs| ==> Reads(cs[i], sources, host)
  }

  predicate AllFaithful(cs: seq<Condition>) { forall i :: 0 <= i < |cs| ==> Faithful(cs[i]) }

  /** Without repeated pairs the compiled maps of faithful rows mean the conjunction of all rows. */
  lemma CompilationPreservesMeaning(cs: seq<Condition>, sources: Sources, host: Abac.Host)
    requires NoRepeatedPair(cs) && AllFaithful(cs)
    ensures AllHold(Compile(cs), sources, host) <==> AllRead(cs, sources, host)
  {
    CompilationKeepsLastOfEachPair(cs, sources, host);
    assert forall i :: 0 <= i < |cs| ==> LastOfPair(cs, i);
  }

  // ------------------------------------------------------------------ which rows are enforced

  /** Row k is the one that the pair of row i keeps. */
  predicate KeptFor(cs: seq<Condition>, i: nat, k: int)
    requires i < |cs|
  {
    i <= k < |cs| && SamePair(cs[k], cs[i]) && LastOfPair(cs, k)
  }

  lemma {:induction false} KeptForExists(cs: seq<Condition>, i: nat) returns (k: nat)
    requires i < |cs|
    ensures KeptFor(cs, i, k)
    decreases |cs| - i
  {
    if LastOfPair(cs, i) { return i; }
    var j :| i < j < |cs| && SamePair(cs[j], cs[i]);
    k := KeptForExists(cs, j);
  }

  /** No request that the compiled policy applies to fails this row. */
  ghost predicate Enforced(cs: seq<Condition>, i: nat, host: Abac.Host)
    requires i < |cs|
  {
    forall sources :: AllHold(Compile(cs), sources, host) ==> Reads(cs[i], sources, host)
  }

  /** Some value meets what the row asks. */
  ghost predicate CanBeMet(c: Condition, host: Abac.Host) { exists v :: Meaning(c, v, host) <==> Faithful(c) }

  ghost predicate AllKeptCanBeMet(cs: seq<Condition>, host: Abac.Host)
  {
    forall k :: 0 <= k < |cs| && LastOfPair(cs, k) ==> CanBeMet(cs[k], host)
  }

  /** What one row asks implies what the other says. */
  ghost predicate Implies(kept: Condition, c: Condition, host: Abac.Host)
  {
    forall v :: (Meaning(kept, v, host) <==> Faithful(kept)) ==> Meaning(c, v, host)
  }

  ghost function Witness(c: Condition, host: Abac.Host): (v: Value)
    ensures CanBeMet(c, host) ==> (Meaning(c, v, host) <==> Faithful(c))
  {
    if CanBeMet(c, host) then var v :| Meaning(c, v, host) <==> Faithful(c); v else Undefined
  }

  function Put(sources: Sources, c: Condition, v: Value): Sources
  {
    match c.kind
    case Subject => sources.(subject := sources.subject[c.attribute := v])
    case Resource => sources.(resource := sources.resource[c.attribute := v])
    case Environment => sources.(environment := sources.environment[c.attribute := v])
  }

  /** A request that gives every pair a value its kept row asks for. */
  ghost function Meeting(cs: seq<Condition>, host: Abac.Host): Sources
  {
    if cs == [] then Sources(map[], map[], map[])
    else var n := |cs| - 1; Put(Meeting(cs[..n], host), cs[n], Witness(cs[n], host))
  }

  lemma PutElsewhere(sources: Sources, c: Condition, v: Value, d: Condition)
    ensures ValueFor(d, Put(sources, c, v)) == if SamePair(c, d) then v else ValueFor(d, sources)
  {}

  lemma {:induction false} MeetingMeets(cs: seq<Condition>, host: Abac.Host, k: nat)
    requires k < |cs| && LastOfPair(cs, k)
    ensures ValueFor(cs[k], Meeting(cs, host)) == Witness(cs[k], host)
  {
    var n := |cs| - 1;
    PutElsewhere(Meeting(cs[..n], host), cs[n], Witness(cs[n], host), cs[k]);
    if k < n {
      LastOfPairStep(cs, k);
      MeetingMeets(cs[..n], host, k);
    }
  }

  /** A value the kept row asks for and the row itself does not: some request passes that fails the row. */
  lemma RequestThatSlipsThrough(cs: seq<Condition>, i: nat, k: nat, v: Value, host: Abac.Host)
    requires i < |cs| && KeptFor(cs, i, k) && AllKeptCanBeMet(cs, host)
    requires (Meaning(cs[k], v, host) <==> Faithful(cs[k])) && !Meaning(cs[i], v, host)
    ensures !Enforced(cs, i, host)
  {
    var sources := Put(Meeting(cs, host), cs[k], v);
    forall l | 0 <= l < |cs| && LastOfPair(cs, l) ensures Asks(cs[l], sources, host) {
      MeetingMeets(cs, host, l);
      PutElsewhere(Meeting(cs, host), cs[k], v, cs[l]);
      if SamePair(cs[k], cs[l]) { SameLast(cs, k, l); }
    }
    PutElsewhere(Meeting(cs, host), cs[k], v, cs[i]);
    CompilationKeepsLastOfEachPair(cs, sources, host);
  }

  lemma SameLast(cs: seq<Condition>, k: nat, l: nat)
    requires k < |cs| && l < |cs| && LastOfPair(cs, k) && LastOfPair(cs, l) && SamePair(cs[k], cs[l])
    ensures k == l
  {}

  lemma NothingPassesUnmet(cs: seq<Condition>, k: nat, sources: Sources, host: Abac.Host)
    requires k < |cs| && LastOfPair(cs, k) && !CanBeMet(cs[k], host)
    ensures !AllHold(Compile(cs), sources, host)
  {
    CompilationKeepsLastOfEachPair(cs, sources, host);
    assert !Asks(cs[k], sources, host);
  }

  /**
   A row is enforced on every request exactly when the row its pair keeps implies it, or some kept row can never be met,
   so that the policy applies to no request at all.
   */
  lemma EnforcedIffKeptImplies(cs: seq<Condition>, i: nat, k: nat, host: Abac.Host)
    requires i < |cs| && KeptFor(cs, i, k)
    ensures Enforced(cs, i, host) <==> !AllKeptCanBeMet(cs, host) || Implies(cs[k], cs[i], host)
  {
    if !AllKeptCanBeMet(cs, host) {
      var l :| 0 <= l < |cs| && LastOfPair(cs, l) && !CanBeMet(cs[l], host);
      forall sources ensures !AllHold(Compile(cs), sources, host) { NothingPassesUnmet(cs, l, sources, host); }
    } else if Implies(cs[k], cs[i], host) {
      forall sources | AllHold(Compile(cs), sources, host) ensures Reads(cs[i], sources, host) {
        CompilationKeepsLastOfEachPair(cs, sources, host);
        assert Asks(cs[k], sources, host);
      }
    } else {
      var v :| (Meaning(cs[k], v, host) <==> Faithful(cs[k])) && !Meaning(cs[i], v, host);
      RequestThatSlipsThrough(cs, i, k, v, host);
    }
  }

  ghost predicate EveryRowImplied(cs: seq<Condition>, host: Abac.Host)
  {
    forall i, k :: 0 <= i < |cs| && KeptFor(cs, i, k) ==> Implies(cs[k], cs[i], host)
  }

  ghost predicate MeaningPreserved(cs: seq<Condition>, host: Abac.Host)
  {
    forall sources :: AllHold(Compile(cs), sources, host) <==> AllRead(cs, sources, host)
  }

  lemma ImpliedRowsAreFaithful(cs: seq<Condition>, k: nat, host: Abac.Host)
    requires k < |cs| && LastOfPair(cs, k) && AllKeptCanBeMet(cs, host) && EveryRowImplied(cs, host)
    ensures Faithful(cs[k])
  {
    assert KeptFor(cs, k, k);
    assert CanBeMet(cs[k], host);
    var v :| Meaning(cs[k], v, host) <==> Faithful(cs[k]);
  }

  /**
   For any list whose kept rows can be met, the compiled maps mean the conjunction of all rows exactly when each row is
   implied by the one its pair keeps.
   */
  lemma MeaningPreservedIff(cs: seq<Condition>, host: Abac.Host)
    requires AllKeptCanBeMet(cs, host)
    ensures MeaningPreserved(cs, host) <==> EveryRowImplied(cs, host)
  {
    if EveryRowImplied(cs, host) {
      forall sources ensures AllHold(Compile(cs), sources, host) <==> AllRead(cs, sources, host) {
        ImpliedMeansAllRead(cs, sources, host);
      }
    } else {
      var i, k :| 0 <= i < |cs| && KeptFor(cs, i, k) && !Implies(cs[k], cs[i], host);
      EnforcedIffKeptImplies(cs, i, k, host);
    }
  }

  lemma ImpliedMeansAllRead(cs: seq<Condition>, sources: Sources, host: Abac.Host)
    requires AllKeptCanBeMet(cs, host) && EveryRowImplied(cs, host)
    ensures AllHold(Compile(cs), sources, host) <==> AllRead(cs, sources, host)
  {
    CompilationKeepsLastOfEachPair(cs, sources, host);
    forall k | 0 <= k < |cs| && LastOfPair(cs, k) ensures Asks(cs[k], sources, host) <==> Reads(cs[k], sources, host) {
      ImpliedRowsAreFaithful(cs, k, host);
    }
    if AllHold(Compile(cs), sources, host) {
      forall i | 0 <= i < |cs| ensures Reads(cs[i], sources, host) {
        var k := KeptForExists(cs, i);
        assert Asks(cs[k], sources, host);
        assert Implies(cs[k], cs[i], host);
      }
    }
  }

  /** Every row leaves a key behind, so only an empty list compiles to unconditional maps. */
  lemma {:induction false} EmptyOnlyFromNoRows(cs: seq<Condition>)
    ensures Compile(cs) == NoAttrs <==> cs == []
  {
    if cs != [] {
      var n := |cs| - 1;
      assert cs[n].attribute in MapOf(cs[n].kind, Compile(cs));
    }
  }

  // ------------------------------------------------------------------ what was posted

  /** A list is accepted exactly if each of its conditions is, row by row; otherwise the first refusal is its own. */
  lemma {:induction false} ParsedRowByRow(ps: seq<Posted>)
    ensures ParseAll(ps).Ok? <==> forall i :: 0 <= i < |ps| ==> Parse(ps[i]).Ok?
    ensures ParseAll(ps).Ok? ==>
              var cs := ParseAll(ps).value;
              |cs| == |ps| && forall i :: 0 <= i < |ps| ==> Parse(ps[i]) == Ok(cs[i])
    ensures ParseAll(ps).Err? ==>
              exists i :: 0 <= i < |ps| && Parse(ps[i]) == Err(ParseAll(ps).error)
                && forall j :: 0 <= j < i ==> Parse(ps[j]).Ok?
  {
    if ps != [] {
      var n := |ps| - 1;
      ParsedRowByRow(ps[..n]);
      assert forall i :: 0 <= i < n ==> ps[..n][i] == ps[i];
      if ParseAll(ps[..n]).Err? {
        var i :| 0 <= i < n && Parse(ps[..n][i]) == Err(ParseAll(ps).error) && forall j :: 0 <= j < i ==>
          Parse(ps[..n][j]).Ok?;
        assert Parse(ps[i]) == Err(ParseAll(ps).error);
      }
    }
  }

  const KINDS := {"SUBJECT", "RESOURCE", "ENVIRONMENT"}
  const OPERATORS := {
    "EQUALS", "NOT_EQUALS", "IN", "NOT_IN", "GREATER_THAN", "LESS_THAN", "BETWEEN", "EXISTS", "NOT_EXISTS"}

  /** Which posted conditions are refused, and why: kind, operator and attribute are looked at in this order. */
  lemma RefusedIff(p: Posted)
    ensures Parse(p) == Err(BadKind) <==> Names.UpperCase(p.kind) !in KINDS
    ensures Parse(p) == Err(BadOperator) <==>
            Names.UpperCase(p.kind) in KINDS && Names.UpperCase(p.op) !in OPERATORS
    ensures Parse(p) == Err(NoAttribute) <==>
            Names.UpperCase(p.kind) in KINDS && Names.UpperCase(p.op) in OPERATORS && p.attribute == ""
  {}

  /** The value a request has for a posted condition, by the posted name of the kind. */
  function PostedValue(p: Posted, sources: Sources): Value
  {
    var kind := Names.UpperCase(p.kind);
    var source :=
      if kind == "SUBJECT" then sources.subject
      else if kind == "RESOURCE" then sources.resource
      else sources.environment;
    if p.attribute in source then source[p.attribute] else Undefined
  }

  predicate Given(v: Value) { v != Undefined && v != Null }

  /** What a posted operator demands of a value. A range is `$between`; any value of EXISTS but true turns it round. */
  ghost predicate Demands(op: string, operand: Json, v: Value, host: Abac.Host)
  {
    match op
    case "EQUALS" => operand in DocumentsOf(v)
    case "NOT_EQUALS" => operand !in DocumentsOf(v)
    case "IN" => operand.JArr? && exists i :: 0 <= i < |operand.items| && operand.items[i] in DocumentsOf(v)
    case "NOT_IN" => operand.JArr? && forall i :: 0 <= i < |operand.items| ==> operand.items[i] !in DocumentsOf(v)
    case "GREATER_THAN" => operand.JNum? && v.Num? && (v.n.PosInf? || (v.n.Finite? && v.n.r > operand.r))
    case "LESS_THAN" => operand.JNum? && v.Num? && (v.n.NegInf? || (v.n.Finite? && v.n.r < operand.r))
    case "BETWEEN" => Abac.OperatorHolds("$between", operand, v, host)
    case "EXISTS" => if operand == JNull || operand == JBool(true) then Given(v) else !Given(v)
    case "NOT_EXISTS" => !Given(v)
    case _ => false
  }

  lemma RowDemands(op: string, c: Condition, v: Value, host: Abac.Host)
    requires ParseOperator(op) == Some(c.op)
    ensures (Meaning(c, v, host) <==> Faithful(c)) <==> Demands(op, c.value, v, host)
  {
    SameAsJsonIff(v, c.value);
    if c.value.JArr? { Abac.IncludesIff(c.value.items, v); }
  }

  /** What the row of a posted condition asks of a request, by the names that were posted. */
  lemma PostedConditionAsks(p: Posted, sources: Sources, host: Abac.Host)
    requires Parse(p).Ok?
    ensures Asks(Parse(p).value, sources, host) <==>
            Demands(Names.UpperCase(p.op), p.value, PostedValue(p, sources), host)
    ensures AllHold(Compile([Parse(p).value]), sources, host) <==> Asks(Parse(p).value, sources, host)
  {
    hide Demands, Meaning, Faithful;
    var c := Parse(p).value;
    assert ValueFor(c, sources) == PostedValue(p, sources);
    RowDemands(Names.UpperCase(p.op), c, ValueFor(c, sources), host);
    CompilationKeepsLastOfEachPair([c], sources, host);
    assert LastOfPair([c], 0);
  }
}
