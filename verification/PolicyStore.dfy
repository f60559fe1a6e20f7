/** Creating and changing policies (the /policies routes of apps/api/src/routes/admin.ts). */
module PolicyStore {
  import opened Wrappers
  import opened Values
  import opened PolicyCompiler
  import opened AsciiText
  import OrderedSets
  import Abac
  import Authorize

  datatype Policy = Policy(
    code: string, name: string, description: Option<string>, deny: bool, priority: int, active: bool,
    conditions: seq<Condition>, attrs: Attrs)

  /** The `conditions` field of a body: left out, some other value, or a list. */
  datatype Conditions = Absent | Other | List(items: seq<Posted>)

  datatype Creation = Creation(
    code: string, name: string, description: Option<string>, effect: Option<string>, priority: Option<int>,
    conditions: Conditions)

  /** A description that is given may be null. */
  datatype Change = Change(
    name: Option<string>, description: Option<Option<string>>, effect: Option<string>, priority: Option<int>,
    active: Value, conditions: Conditions)

  datatype Failure =
    | NotFound | CodeAndNameRequired | BadEffect | DenyWithoutConditions | DuplicateCode | BadCondition(why: Refusal)

  /** The policies table of one tenant and the next value of the sequence behind its keys. */
  datatype Store = Store(rows: map<int, Policy>, nextId: int)

  function Items(c: Conditions): seq<Posted> { if c.List? then c.items else [] }

  predicate CodeChar(c: char) { 'a' <= c <= 'z' || '0' <= c <= '9' || c == '_' }

  predicate IsCode(s: string) { forall i :: 0 <= i < |s| ==> CodeChar(s[i]) }

  /** What is left after a run of characters a code cannot hold. */
  function PastRun(s: string): (r: string)
    ensures |r| <= |s|
  {
    if s != "" && !CodeChar(s[0]) then PastRun(s[1..]) else s
  }

  /** Every such run becomes one underscore. */
  function Slug(s: string): string
    decreases |s|
  {
    if s == "" then ""
    else if CodeChar(s[0]) then [s[0]] + Slug(s[1..])
    else "_" + Slug(PastRun(s[1..]))
  }

  lemma {:induction false} SlugIsCode(s: string)
    ensures IsCode(Slug(s)) && (s != "" ==> Slug(s) != "")
    decreases |s|
  {
    if s != "" {
      if CodeChar(s[0]) { SlugIsCode(s[1..]); } else { SlugIsCode(PastRun(s[1..])); }
    }
  }

  /** Exactly the codes are left as they are. */
  lemma {:induction false} SlugKeepsIffCode(s: string)
    ensures Slug(s) == s <==> IsCode(s)
  {
    if s != "" {
      SlugIsCode(s);
      SlugKeepsIffCode(s[1..]);
      assert s == [s[0]] + s[1..];
      assert CodeChar(s[0]) ==> Slug(s)[1..] == Slug(s[1..]);
    }
  }

  predicate NoCodeChar(s: string) { forall i :: 0 <= i < |s| ==> !CodeChar(s[i]) }

  lemma {:induction false} PastWholeRun(run: string, rest: string)
    requires NoCodeChar(run) && (rest == "" || CodeChar(rest[0]))
    ensures PastRun(run + rest) == rest
  {
    if run == "" {
      assert run + rest == rest;
    } else {
      assert (run + rest)[1..] == run[1..] + rest;
      PastWholeRun(run[1..], rest);
    }
  }

  /** A whole run of other characters between two pieces of a code becomes one underscore. */
  lemma {:induction false} SlugJoinsWithUnderscore(code: string, run: string, rest: string)
    requires IsCode(code) && run != "" && NoCodeChar(run) && (rest == "" || CodeChar(rest[0]))
    ensures Slug(code + run + rest) == code + "_" + Slug(rest)
    decreases |code|
  {
    var s := code + run + rest;
    if code == "" {
      assert s == run + rest && s[1..] == run[1..] + rest;
      PastWholeRun(run[1..], rest);
    } else {
      assert s[1..] == code[1..] + run + rest;
      SlugJoinsWithUnderscore(code[1..], run, rest);
      assert code == [code[0]] + code[1..];
    }
  }

  /** The code a policy is stored under. */
  function CodeOf(raw: string): string { Slug(Lower(Trim(raw))) }

  predicate CodeTaken(rows: map<int, Policy>, code: string) { exists id :: id in rows && Lower(rows[id].code) == code }

  /** Replaces the rows of a policy and the maps compiled from them. */
  function WithConditions(p: Policy, c: Conditions): Result<Policy, Failure>
  {
    match ParseAll(Items(c))
    case Err(e) => Err(BadCondition(e))
    case Ok(cs) => Ok(p.(conditions := cs, attrs := Compile(cs)))
  }

  /** The effect of a body: allow unless it says otherwise. */
  function EffectOf(b: Creation): string { Lower(b.effect.Or("allow")) }

  /** Why a creation is refused before anything is written. */
  function RefusalOf(rows: map<int, Policy>, b: Creation): Option<Failure>
  {
    if CodeOf(b.code) == "" || Trim(b.name) == "" then Some(CodeAndNameRequired)
    else if EffectOf(b) != "allow" && EffectOf(b) != "deny" then Some(BadEffect)
    else if EffectOf(b) == "deny" && Items(b.conditions) == [] then Some(DenyWithoutConditions)
    else if CodeTaken(rows, CodeOf(b.code)) then Some(DuplicateCode)
    else None
  }

  /** The row first inserted. */
  function Fresh(b: Creation): Policy
  {
    Policy(CodeOf(b.code), Trim(b.name), b.description, EffectOf(b) == "deny", b.priority.Or(100), true, [], NoAttrs)
  }

  function Created(s: Store, b: Creation): Result<Policy, Failure>
  {
    match RefusalOf(s.rows, b)
    case Some(e) => Err(e)
    case None => WithConditions(Fresh(b), b.conditions)
  }

  /** b(), which every body flag goes through: true, "true", 1 and "1" count, and nothing else does. */
  predicate AsFlag(v: Value): (on: bool)
    ensures v.Bool? ==> on == v.b
    ensures v.Str? ==> (on <==> v.s == "true" || v.s == "1")
    ensures v.Num? ==> (on <==> v.n == Finite(1.0))
    ensures v in {Undefined, Null} || v.Ref? ==> !on
  {
    v in {Bool(true), Str("true"), Num(Finite(1.0)), Str("1")}
  }

  /** What POST activate makes of the body field and the stored flag: `b(field) ?? !stored`. */
  function ActiveAfter(field: Value, stored: bool): bool { OrElse(Bool(AsFlag(field)), Bool(!stored)) == Bool(true) }

  /** The fallback is never reached, so leaving the field out toggles exactly a policy that was active. */
  lemma AbsentFieldTogglesIffActive(field: Value, stored: bool)
    ensures ActiveAfter(field, stored) == AsFlag(field)
    ensures !Present(field) ==> !ActiveAfter(field, stored)
    ensures !Present(field) ==> (ActiveAfter(field, stored) == !stored <==> stored)
  {}

  /** The plain columns of a change; the effect column accepts nothing but allow and deny. */
  function WithFields(p: Policy, b: Change): Result<Policy, Failure>
  {
    var effect := Lower(b.effect.Or(if p.deny then "deny" else "allow"));
    if effect != "allow" && effect != "deny" then Err(BadEffect)
    else
      Ok(p.(name := b.name.Or(p.name), description := b.description.Or(p.description),
            priority := b.priority.Or(p.priority), deny := effect == "deny",
            active := if b.active == Undefined then p.active else AsFlag(b.active)))
  }

  function Changed(p: Policy, b: Change): Result<Policy, Failure>
  {
    match WithFields(p, b)
    case Err(e) => Err(e)
    case Ok(q) =>
      var hasConditions := if b.conditions.Absent? then p.conditions != [] else Items(b.conditions) != [];
      if q.deny && !hasConditions then Err(DenyWithoutConditions)
      else if b.conditions.Absent? then Ok(q)
      else WithConditions(q, b.conditions)
  }

  // ------------------------------------------------------------------ invariant

  /** The maps are the compilation of the rows, no deny is unconditional, and codes and keys are the table's own. */
  ghost predicate Sound(s: Store)
  {
    && (forall id :: id in s.rows ==> s.rows[id].attrs == Compile(s.rows[id].conditions))
    && (forall id :: id in s.rows ==> s.rows[id].deny ==> s.rows[id].conditions != [])
    && (forall id :: id in s.rows ==> s.rows[id].code != "" && IsCode(s.rows[id].code))
    && (forall i, j :: i in s.rows && j in s.rows && i != j ==> s.rows[i].code != s.rows[j].code)
    && (forall id :: id in s.rows ==> id < s.nextId)
  }

  lemma ConditionsStayCompiled(p: Policy, c: Conditions)
    requires WithConditions(p, c).Ok?
    ensures var q := WithConditions(p, c).value;
            && q == p.(conditions := q.conditions, attrs := Compile(q.conditions))
            && (q.conditions == [] <==> Items(c) == [])
  {
    ParsedRowByRow(Items(c));
  }

  lemma CodeIsItsLower(code: string)
    requires IsCode(code)
    ensures Lower(code) == code
  {
    LowerKeeps(code);
  }

  lemma SequenceMovesOn(s: Store)
    requires Sound(s)
    ensures Sound(s.(nextId := s.nextId + 1))
  {}

  /** A policy that keeps the table sound wherever it is put. */
  ghost predicate Fits(s: Store, id: int, p: Policy)
  {
    && p.attrs == Compile(p.conditions) && (p.deny ==> p.conditions != []) && p.code != "" && IsCode(p.code)
    && forall j :: j in s.rows && j != id ==> s.rows[j].code != p.code
  }

  lemma FittingIsSound(s: Store, id: int, p: Policy, nextId: int)
    requires Sound(s) && Fits(s, id, p) && id < nextId && s.nextId <= nextId
    ensures Sound(Store(s.rows[id := p], nextId))
  {
    hide Compile, IsCode;
  }

  lemma FreshCodeFits(s: Store, b: Creation)
    requires Sound(s) && RefusalOf(s.rows, b) == None
    ensures Fresh(b).code != "" && IsCode(Fresh(b).code)
    ensures forall j :: j in s.rows ==> s.rows[j].code != Fresh(b).code
  {
    hide Compile;
    SlugIsCode(Lower(Trim(b.code)));
    CodeIsItsLower(CodeOf(b.code));
  }

  lemma CreatedIsSound(s: Store, b: Creation)
    requires Sound(s) && Created(s, b).Ok?
    ensures Sound(Store(s.rows[s.nextId := Created(s, b).value], s.nextId + 1))
  {
    hide Compile, ParseAll, CodeOf, IsCode;
    FreshCodeFits(s, b);
    ConditionsStayCompiled(Fresh(b), b.conditions);
    FittingIsSound(s, s.nextId, Created(s, b).value, s.nextId + 1);
  }

  lemma ChangedFits(s: Store, id: int, b: Change)
    requires Sound(s) && id in s.rows && Changed(s.rows[id], b).Ok?
    ensures Fits(s, id, Changed(s.rows[id], b).value)
  {
    hide Compile, ParseAll, IsCode;
    if !b.conditions.Absent? {
      ConditionsStayCompiled(WithFields(s.rows[id], b).value, b.conditions);
    }
  }

  lemma ChangedIsSound(s: Store, id: int, b: Change)
    requires Sound(s) && id in s.rows && Changed(s.rows[id], b).Ok?
    ensures Sound(s.(rows := s.rows[id := Changed(s.rows[id], b).value]))
  {
    hide Changed;
    ChangedFits(s, id, b);
    FittingIsSound(s, id, Changed(s.rows[id], b).value, s.nextId);
  }

  // ------------------------------------------------------------------ the routes

  class Admin {
    var rows: map<int, Policy>
    var nextId: int

    ghost function State(): Store
      reads this
    {
      Store(rows, nextId)
    }

    constructor ()
      ensures State() == Store(map[], 1) && Sound(State())
    {
      rows, nextId := map[], 1;
    }

    /** Rewrites the condition rows of one policy, keeping the compiled maps in step. */
    method WritePolicyConditions(id: int, c: Conditions) returns (r: Result<(), Failure>)
      requires id in rows
      modifies this`rows
      ensures match WithConditions(old(rows)[id], c)
              case Ok(p) => r == Ok(()) && rows == old(rows)[id := p]
              case Err(e) => r == Err(e) && rows == old(rows)
    {
      var compiled := CompileConditions(Items(c));
      match compiled {
        case Err(e) =>
          r := Err(BadCondition(e));
        case Ok(pair) =>
          rows := rows[id := rows[id].(conditions := pair.0, attrs := pair.1)];
          r := Ok(());
      }
    }

    /** The checks of POST /policies that come before the INSERT. */
    method CheckCreation(b: Creation) returns (refusal: Option<Failure>)
      ensures refusal == RefusalOf(rows, b)
    {
      var code, name, effect := CodeOf(b.code), Trim(b.name), EffectOf(b);
      if code == "" || name == "" {
        return Some(CodeAndNameRequired);
      }
      if effect != "allow" && effect != "deny" {
        return Some(BadEffect);
      }
      if effect == "deny" && Items(b.conditions) == [] {
        return Some(DenyWithoutConditions);
      }
      if CodeTaken(rows, code) {
        return Some(DuplicateCode);
      }
      return None;
    }

    /** POST /policies; a refusal rolls the whole transaction back, but not the sequence. */
    method Create(b: Creation) returns (r: Result<int, Failure>)
      requires Sound(State())
      modifies this
      ensures Sound(State()) && State() == After(old(State()), Call.Post(b))
      ensures match Created(old(State()), b)
              case Ok(p) => r == Ok(old(nextId)) && rows == old(rows)[old(nextId) := p]
              case Err(e) => r == Err(e) && rows == old(rows)
    {
      hide WithConditions, RefusalOf, Fresh, Sound;
      var refusal := CheckCreation(b);
      if refusal.Some? {
        return Err(refusal.value);
      }
      var before, id := rows, nextId;
      ghost var start := State();
      rows, nextId := rows[id := Fresh(b)], nextId + 1;
      var written := WritePolicyConditions(id, b.conditions);
      if written.Err? {
        rows := before;
        SequenceMovesOn(start);
        return Err(written.error);
      }
      assert rows == before[id := rows[id]];
      CreatedIsSound(start, b);
      return Ok(id);
    }

    /** PATCH /policies/:id; the fields are written before the conditions are checked, and rolled back on refusal. */
    method Patch(id: int, b: Change) returns (r: Result<(), Failure>)
      requires Sound(State())
      modifies this
      ensures Sound(State())
      ensures id !in old(rows) ==> r == Err(NotFound) && State() == old(State())
      ensures id in old(rows) ==>
                match Changed(old(rows)[id], b)
                case Ok(p) => r == Ok(()) && State() == old(State()).(rows := old(rows)[id := p])
                case Err(e) => r == Err(e) && State() == old(State())
      ensures State() == After(old(State()), Call.Patch(id, b))
    {
      if id !in rows {
        return Err(NotFound);
      }
      var before, prev := rows, rows[id];
      var fields := WithFields(prev, b);
      if fields.Err? {
        return Err(fields.error);
      }
      rows := rows[id := fields.value];
      if rows[id].deny {
        var hasConditions := if b.conditions.Absent? then prev.conditions != [] else Items(b.conditions) != [];
        if !hasConditions {
          rows := before;
          return Err(DenyWithoutConditions);
        }
      }
      if !b.conditions.Absent? {
        var written := WritePolicyConditions(id, b.conditions);
        if written.Err? {
          rows := before;
          return Err(written.error);
        }
      }
      assert rows == before[id := rows[id]];
      ChangedIsSound(old(State()), id, b);
      return Ok(());
    }

    /** POST /policies/:id/activate. */
    method Activate(id: int, field: Value) returns (r: Result<(), Failure>)
      requires Sound(State())
      modifies this`rows
      ensures Sound(State())
      ensures id !in old(rows) ==> r == Err(NotFound) && rows == old(rows)
      ensures id in old(rows) ==> r == Ok(()) && rows == old(rows)[id := old(rows)[id].(active := AsFlag(field))]
      ensures State() == After(old(State()), Call.Activate(id, field))
    {
      if id !in rows {
        return Err(NotFound);
      }
      AbsentFieldTogglesIffActive(field, rows[id].active);
      var active := OrElse(Bool(AsFlag(field)), Bool(!rows[id].active)) == Bool(true);
      rows := rows[id := rows[id].(active := active)];
      return Ok(());
    }
  }

  // ------------------------------------------------------------------ runs

  datatype Call = Post(b: Creation) | Patch(id: int, c: Change) | Activate(id: int, field: Value)

  function After(s: Store, call: Call): Store
  {
    match call
    case Post(b) =>
      (match Created(s, b)
       case Ok(p) => Store(s.rows[s.nextId := p], s.nextId + 1)
       case Err(_) => if RefusalOf(s.rows, b).None? then s.(nextId := s.nextId + 1) else s)
    case Patch(id, b) =>
      if id !in s.rows then s
      else (match Changed(s.rows[id], b)
            case Ok(p) => s.(rows := s.rows[id := p])
            case Err(_) => s)
    case Activate(id, field) =>
      if id !in s.rows then s
      else s.(rows := s.rows[id := s.rows[id].(active := ActiveAfter(field, s.rows[id].active))])
  }

  function Run(s: Store, calls: seq<Call>): Store
  {
    if calls == [] then s else After(Run(s, calls[..|calls| - 1]), calls[|calls| - 1])
  }

  const EmptyStore := Store(map[], 1)

  /** Every run from the empty store keeps the maps in step with the rows and every deny conditional. */
  lemma {:induction false} EveryRunIsSound(calls: seq<Call>)
    ensures Sound(Run(EmptyStore, calls))
  {
    if calls != [] {
      var s, call := Run(EmptyStore, calls[..|calls| - 1]), calls[|calls| - 1];
      EveryRunIsSound(calls[..|calls| - 1]);
      match call
      case Post(b) => if Created(s, b).Ok? { CreatedIsSound(s, b); } else { SequenceMovesOn(s); }
      case Patch(id, b) => if id in s.rows && Changed(s.rows[id], b).Ok? { ChangedIsSound(s, id, b); }
      case Activate(_, _) =>
    }
  }

  // ------------------------------------------------------------------ what the routes store

  /** Row by row, these conditions are the ones posted. */
  ghost predicate StoredAsPosted(c: Conditions, cs: seq<Condition>)
  {
    && |cs| == (if c.List? then |c.items| else 0)
    && forall i :: 0 <= i < |cs| ==> Parse(c.items[i]) == Ok(cs[i])
  }

  ghost predicate EachAccepted(c: Conditions)
  {
    c.List? ==> forall i :: 0 <= i < |c.items| ==> Parse(c.items[i]).Ok?
  }

  lemma ConditionsAsPosted(p: Policy, c: Conditions)
    ensures WithConditions(p, c).Ok? <==> EachAccepted(c)
    ensures WithConditions(p, c).Ok? ==> StoredAsPosted(c, WithConditions(p, c).value.conditions)
  {
    ParsedRowByRow(Items(c));
  }

  predicate AsksForDeny(effect: Option<string>) { effect.Some? && Lower(effect.value) == "deny" }

  predicate KnownEffect(effect: Option<string>)
  {
    effect.Some? ==> Lower(effect.value) == "allow" || Lower(effect.value) == "deny"
  }

  /** Exactly which creations put a policy into the table, under the next key. */
  lemma PostIsAcceptedIff(s: Store, b: Creation)
    requires Sound(s)
    ensures s.nextId in After(s, Post(b)).rows <==>
            && Slug(Lower(Trim(b.code))) != "" && Trim(b.name) != "" && KnownEffect(b.effect)
            && (AsksForDeny(b.effect) ==> b.conditions.List? && b.conditions.items != [])
            && (forall id :: id in s.rows ==> Lower(s.rows[id].code) != Slug(Lower(Trim(b.code))))
            && EachAccepted(b.conditions)
  {
    hide Slug, Compile, ParseAll, Trim;
    ConditionsAsPosted(Fresh(b), b.conditions);
    assert Lower("allow") == "allow";
  }

  /** What an accepted creation stores. */
  lemma PostStores(s: Store, b: Creation)
    requires Sound(s) && s.nextId in After(s, Post(b)).rows
    ensures var p := After(s, Post(b)).rows[s.nextId];
            && (p.deny <==> b.effect.Some? && Lower(b.effect.value) == "deny")
            && p.code == Slug(Lower(Trim(b.code))) && p.name == Trim(b.name) && p.description == b.description
            && p.priority == (if b.priority.Some? then b.priority.value else 100) && p.active
            && StoredAsPosted(b.conditions, p.conditions)
    ensures After(s, Post(b)).rows - {s.nextId} == s.rows
  {
    hide Slug, Compile, ParseAll, Trim, Sound, RefusalOf;
    assert s.nextId !in s.rows by { BeyondTheTable(s); }
    ConditionsAsPosted(Fresh(b), b.conditions);
    assert Lower("allow") == "allow";
  }

  lemma BeyondTheTable(s: Store)
    requires Sound(s)
    ensures s.nextId !in s.rows
  {}

  /** A change leaves no deny without conditions and names no effect but the two. */
  ghost predicate ChangeAccepted(p: Policy, b: Change)
  {
    && KnownEffect(b.effect) && EachAccepted(b.conditions)
    && ((if b.effect.Some? then AsksForDeny(b.effect) else p.deny) ==>
          if b.conditions.Absent? then p.conditions != [] else b.conditions.List? && b.conditions.items != [])
  }

  lemma FieldsAsGiven(p: Policy, b: Change)
    ensures WithFields(p, b).Ok? <==> KnownEffect(b.effect)
    ensures WithFields(p, b).Ok? ==>
              var q := WithFields(p, b).value;
              && q.deny == (if b.effect.Some? then AsksForDeny(b.effect) else p.deny)
              && q.code == p.code && q.conditions == p.conditions && q.attrs == p.attrs
              && q.name == (if b.name.Some? then b.name.value else p.name)
              && q.description == (if b.description.Some? then b.description.value else p.description)
              && q.priority == (if b.priority.Some? then b.priority.value else p.priority)
              && q.active == (if b.active == Undefined then p.active else AsFlag(b.active))
  {
    assert Lower("allow") == "allow" && Lower("deny") == "deny";
  }

  /** What a change leaves in the table: each field as given, or else as it was; refused, nothing moves. */
  lemma PatchStores(s: Store, id: int, b: Change)
    requires id in s.rows
    ensures !ChangeAccepted(s.rows[id], b) ==> After(s, Call.Patch(id, b)) == s
    ensures ChangeAccepted(s.rows[id], b) ==>
              var p, t := s.rows[id], After(s, Call.Patch(id, b));
              && t.rows.Keys == s.rows.Keys && t.rows - {id} == s.rows - {id} && t.nextId == s.nextId
              && t.rows[id].deny == (if b.effect.Some? then AsksForDeny(b.effect) else p.deny)
              && t.rows[id].code == p.code
              && t.rows[id].name == (if b.name.Some? then b.name.value else p.name)
              && t.rows[id].description == (if b.description.Some? then b.description.value else p.description)
              && t.rows[id].priority == (if b.priority.Some? then b.priority.value else p.priority)
              && t.rows[id].active == (if b.active == Undefined then p.active else AsFlag(b.active))
              && (if b.conditions.Absent? then t.rows[id].conditions == p.conditions
                  else StoredAsPosted(b.conditions, t.rows[id].conditions))
  {
    hide WithFields, Compile, ParseAll, AsFlag;
    FieldsAsGiven(s.rows[id], b);
    if WithFields(s.rows[id], b).Ok? { ConditionsAsPosted(WithFields(s.rows[id], b).value, b.conditions); }
  }

  /** A policy as the engine sees it. */
  function RowOf(p: Policy): Authorize.PolicyRow { Authorize.PolicyRow(p.code, p.deny, p.attrs) }

  /** The engine's skip of unconditional denies never silences a policy written through these routes. */
  lemma NoWrittenPolicyIsSkipped(calls: seq<Call>, id: int)
    requires id in Run(EmptyStore, calls).rows
    ensures !Authorize.Skipped(RowOf(Run(EmptyStore, calls).rows[id]))
  {
    EveryRunIsSound(calls);
    EmptyOnlyFromNoRows(Run(EmptyStore, calls).rows[id].conditions);
  }

  /** End to end: a written policy applies to a request exactly when it meets the last row of each of its pairs. */
  lemma WrittenPolicyMeansItsRows(calls: seq<Call>, id: int, sources: Sources, host: Abac.Host)
    requires id in Run(EmptyStore, calls).rows
    ensures var p := Run(EmptyStore, calls).rows[id];
            Authorize.Applies(RowOf(p), sources, host) <==>
            forall i :: 0 <= i < |p.conditions| && LastOfPair(p.conditions, i) ==> Asks(p.conditions[i], sources, host)
  {
    EveryRunIsSound(calls);
    NoWrittenPolicyIsSkipped(calls, id);
    CompilationKeepsLastOfEachPair(Run(EmptyStore, calls).rows[id].conditions, sources, host);
  }

  // ------------------------------------------------------------------ store and engine together

  /** ORDER BY priority, id */
  predicate Before(rows: map<int, Policy>, i: int, j: int)
    requires i in rows && j in rows
  {
    rows[i].priority < rows[j].priority || (rows[i].priority == rows[j].priority && i < j)
  }

  ghost function Least(rows: map<int, Policy>, ids: set<int>): (m: int)
    requires ids <= rows.Keys && |ids| > 0
    ensures m in ids && forall j :: j in ids && j != m ==> Before(rows, m, j)
    decreases |ids|
  {
    var x := OrderedSets.Any(ids);
    var rest := ids - {x};
    assert forall j :: j in ids <==> j == x || j in rest;
    if |rest| == 0 then x
    else
      var m := Least(rows, rest);
      if Before(rows, x, m) then x else m
  }

  /** The rows the engine reads: these policies in that order. */
  ghost function Listing(rows: map<int, Policy>, ids: set<int>): seq<Authorize.PolicyRow>
    requires ids <= rows.Keys
    decreases |ids|
  {
    if |ids| == 0 then []
    else var m := Least(rows, ids); [RowOf(rows[m])] + Listing(rows, ids - {m})
  }

  function ActiveIds(rows: map<int, Policy>): set<int> { set id | id in rows && rows[id].active }

  /** Every pair's last row gets what it asks. */
  predicate Met(p: Policy, sources: Sources, host: Abac.Host)
  {
    forall i :: 0 <= i < |p.conditions| && LastOfPair(p.conditions, i) ==> Asks(p.conditions[i], sources, host)
  }

  /** The first of these policies, in order, whose kept rows are met. */
  ghost predicate FirstMetAmong(rows: map<int, Policy>, ids: set<int>, id: int, sources: Sources, host: Abac.Host)
    requires ids <= rows.Keys
  {
    && id in ids && Met(rows[id], sources, host)
    && forall j :: j in ids && j != id && Met(rows[j], sources, host) ==> Before(rows, id, j)
  }

  /** The first active policy, by priority and then by key, whose kept rows are met. */
  ghost predicate FirstMet(rows: map<int, Policy>, id: int, sources: Sources, host: Abac.Host)
  {
    && id in rows && rows[id].active && Met(rows[id], sources, host)
    && forall j :: j in rows && rows[j].active && j != id && Met(rows[j], sources, host) ==>
         rows[id].priority < rows[j].priority || (rows[id].priority == rows[j].priority && id < j)
  }

  ghost predicate AppliesWhenMet(rows: map<int, Policy>, sources: Sources, host: Abac.Host)
  {
    forall id :: id in rows ==> (Authorize.Applies(RowOf(rows[id]), sources, host) <==> Met(rows[id], sources, host))
  }

  lemma {:induction false} ListingDecides(rows: map<int, Policy>, ids: set<int>, sources: Sources, host: Abac.Host)
    requires ids <= rows.Keys && AppliesWhenMet(rows, sources, host)
    ensures var verdict := Authorize.Decide(Listing(rows, ids), sources, host);
            && (forall id :: FirstMetAmong(rows, ids, id, sources, host) ==>
                  verdict == Authorize.Effect(RowOf(rows[id])))
            && ((forall id :: id in ids ==> !Met(rows[id], sources, host)) ==> verdict == Authorize.Proceed)
    decreases |ids|
  {
    hide Met, Authorize.Applies;
    if |ids| > 0 {
      var m := Least(rows, ids);
      var rest := ids - {m};
      ListingDecides(rows, rest, sources, host);
      assert Listing(rows, ids)[0] == RowOf(rows[m]) && Listing(rows, ids)[1..] == Listing(rows, rest);
      forall id | FirstMetAmong(rows, ids, id, sources, host) && id != m
        ensures FirstMetAmong(rows, rest, id, sources, host) && !Met(rows[m], sources, host)
      {
        assert Before(rows, m, id);
      }
    }
  }

  /**
   Whatever was created, changed and activated, the engine's verdict on a request is the effect of the first active
   policy, by priority and then by id, whose kept rows are met; and when there is none the request proceeds.
   */
  lemma EngineFollowsStore(calls: seq<Call>, sources: Sources, host: Abac.Host)
    ensures var rows := Run(EmptyStore, calls).rows;
            var verdict := Authorize.Decide(Listing(rows, ActiveIds(rows)), sources, host);
            && (forall id :: FirstMet(rows, id, sources, host) ==>
                  verdict == if rows[id].deny then Authorize.DeniedBy(rows[id].code) else Authorize.Proceed)
            && ((forall id :: id in rows && rows[id].active ==> !Met(rows[id], sources, host)) ==>
                  verdict == Authorize.Proceed)
  {
    var rows := Run(EmptyStore, calls).rows;
    forall id | id in rows
      ensures Authorize.Applies(RowOf(rows[id]), sources, host) <==> Met(rows[id], sources, host)
    {
      WrittenPolicyMeansItsRows(calls, id, sources, host);
    }
    ListingDecides(rows, ActiveIds(rows), sources, host);
    forall id | FirstMet(rows, id, sources, host) ensures FirstMetAmong(rows, ActiveIds(rows), id, sources, host) {}
  }

  predicate NotPatched(calls: seq<Call>, id: int)
  {
    forall i :: 0 <= i < |calls| ==> !(calls[i].Patch? && calls[i].id == id)
  }

  lemma OtherCallKeepsPolicy(s: Store, call: Call, id: int)
    requires Sound(s) && id in s.rows && !(call.Patch? && call.id == id)
    ensures var t := After(s, call); id in t.rows && t.rows[id] == s.rows[id].(active := t.rows[id].active)
  {}

  /** Whatever else is called, a policy that no change names keeps all but its flag. */
  lemma {:induction false} PolicyStays(calls: seq<Call>, more: seq<Call>, id: int)
    requires id in Run(EmptyStore, calls).rows && NotPatched(more, id)
    ensures var rows := Run(EmptyStore, calls + more).rows;
            id in rows && rows[id] == Run(EmptyStore, calls).rows[id].(active := rows[id].active)
  {
    hide After, Sound;
    if more == [] {
      assert calls + more == calls;
    } else {
      var n := |more| - 1;
      PolicyStays(calls, more[..n], id);
      EveryRunIsSound(calls + more[..n]);
      assert (calls + more)[..|calls + more| - 1] == calls + more[..n];
      OtherCallKeepsPolicy(Run(EmptyStore, calls + more[..n]), more[n], id);
    }
  }

  /**
   From the posted body to the verdict: as long as no change names the policy, then where it is the first to be met, the
   request is denied in its name exactly if the body asked for deny.
   */
  lemma PostedPolicyDecides(calls: seq<Call>, b: Creation, more: seq<Call>, sources: Sources, host: Abac.Host)
    requires Run(EmptyStore, calls).nextId in Run(EmptyStore, calls + [Post(b)]).rows
    requires var id := Run(EmptyStore, calls).nextId;
             var rows := Run(EmptyStore, calls + [Post(b)] + more).rows;
             NotPatched(more, id) && FirstMet(rows, id, sources, host)
    ensures var rows := Run(EmptyStore, calls + [Post(b)] + more).rows;
            Authorize.Decide(Listing(rows, ActiveIds(rows)), sources, host) ==
              if b.effect.Some? && Lower(b.effect.value) == "deny"
              then Authorize.DeniedBy(Slug(Lower(Trim(b.code))))
              else Authorize.Proceed
  {
    hide After, FirstMet, Listing, Slug, Lower, Trim, Sound;
    var posted, id := calls + [Post(b)], Run(EmptyStore, calls).nextId;
    assert posted[..|posted| - 1] == calls;
    EveryRunIsSound(calls);
    PostStores(Run(EmptyStore, calls), b);
    PolicyStays(posted, more, id);
    EngineFollowsStore(posted + more, sources, host);
  }
}
