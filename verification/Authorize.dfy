/** Request authorization: role check, duty conflicts, policies, scope (apps/api/src/middleware/authorize.ts). */
module Authorize {
  import opened Wrappers
  import opened Values
  import opened Permissions
  import opened PolicyCompiler
  import Abac

  /** An active policy as the engine reads it, in (priority, id) order. */
  datatype PolicyRow = PolicyRow(code: string, deny: bool, attrs: Attrs)

  datatype Verdict = Proceed | DeniedBy(code: string)

  /** A deny without any condition is passed over. */
  predicate Skipped(row: PolicyRow) { row.deny && row.attrs == NoAttrs }

  ghost predicate Matches(row: PolicyRow, sources: Sources, host: Abac.Host) { AllHold(row.attrs, sources, host) }

  ghost predicate Applies(row: PolicyRow, sources: Sources, host: Abac.Host)
  {
    !Skipped(row) && Matches(row, sources, host)
  }

  function Effect(row: PolicyRow): Verdict { if row.deny then DeniedBy(row.code) else Proceed }

  /** The effect of the first row that applies; without one the request proceeds. */
  ghost function Decide(rows: seq<PolicyRow>, sources: Sources, host: Abac.Host): Verdict
  {
    if rows == [] then Proceed
    else if Applies(rows[0], sources, host) then Effect(rows[0])
    else Decide(rows[1..], sources, host)
  }

  method PolicyLoop(rows: seq<PolicyRow>, sources: Sources, host: Abac.Host) returns (v: Verdict)
    ensures v == Decide(rows, sources, host)
  {
    var i := 0;
    while i < |rows|
      invariant i <= |rows| && Decide(rows, sources, host) == Decide(rows[i..], sources, host)
    {
      var row := rows[i];
      assert rows[i..][0] == row && rows[i..][1..] == rows[i + 1..];
      i := i + 1;
      if row.attrs == NoAttrs && row.deny {
        continue;
      }
      var subject := Abac.AttrMatches(row.attrs.subject, sources.subject, host);
      var resource := Abac.AttrMatches(row.attrs.resource, sources.resource, host);
      var environment := Abac.AttrMatches(row.attrs.environment, sources.environment, host);
      if subject && resource && environment {
        if row.deny {
          return DeniedBy(row.code);
        }
        return Proceed;
      }
    }
    return Proceed;
  }

  // ------------------------------------------------------------------ laws of the loop

  ghost predicate FirstToApply(rows: seq<PolicyRow>, i: int, sources: Sources, host: Abac.Host)
  {
    && 0 <= i < |rows| && Applies(rows[i], sources, host)
    && forall j :: 0 <= j < i ==> !Applies(rows[j], sources, host)
  }

  /** The verdict is the effect of the row no earlier row pre-empts. */
  lemma {:induction false} FirstToApplyDecides(rows: seq<PolicyRow>, i: int, sources: Sources, host: Abac.Host)
    requires FirstToApply(rows, i, sources, host)
    ensures Decide(rows, sources, host) == Effect(rows[i])
  {
    if i > 0 {
      assert !Applies(rows[0], sources, host);
      forall j | 0 <= j < i - 1 ensures !Applies(rows[1..][j], sources, host) {
        assert rows[1..][j] == rows[j + 1];
      }
      FirstToApplyDecides(rows[1..], i - 1, sources, host);
    }
  }

  /** The comment in the source announces deny by default; the loop lets a request pass when no policy applies. */
  lemma {:induction false} NoPolicyMeansProceed(rows: seq<PolicyRow>, sources: Sources, host: Abac.Host)
    requires forall i :: 0 <= i < |rows| ==> !Applies(rows[i], sources, host)
    ensures Decide(rows, sources, host) == Proceed
  {
    if rows != [] { NoPolicyMeansProceed(rows[1..], sources, host); }
  }

  lemma {:induction false} SomeoneIsFirst(rows: seq<PolicyRow>, i: nat, sources: Sources, host: Abac.Host)
    returns (k: nat)
    requires i < |rows| && Applies(rows[i], sources, host)
    ensures FirstToApply(rows, k, sources, host)
    decreases i
  {
    if forall j :: 0 <= j < i ==> !Applies(rows[j], sources, host) { return i; }
    var j :| 0 <= j < i && Applies(rows[j], sources, host);
    k := SomeoneIsFirst(rows, j, sources, host);
  }

  /** A request proceeds exactly when the first policy that applies, if any does, is no deny. */
  lemma ProceedsIffNoDenyIsFirst(rows: seq<PolicyRow>, sources: Sources, host: Abac.Host)
    ensures Decide(rows, sources, host) == Proceed <==>
            forall i :: FirstToApply(rows, i, sources, host) ==> !rows[i].deny
  {
    if i :| 0 <= i < |rows| && Applies(rows[i], sources, host) {
      var k := SomeoneIsFirst(rows, i, sources, host);
      FirstToApplyDecides(rows, k, sources, host);
    } else {
      NoPolicyMeansProceed(rows, sources, host);
    }
  }

  /** A row that is skipped or does not match can be removed anywhere. */
  lemma {:induction false} RowWithoutSay(before: seq<PolicyRow>, row: PolicyRow, after: seq<PolicyRow>,
                                        sources: Sources, host: Abac.Host)
    requires !Applies(row, sources, host)
    ensures Decide(before + [row] + after, sources, host) == Decide(before + after, sources, host)
  {
    if before == [] {
      assert ([row] + after)[1..] == after;
      assert [] + [row] + after == [row] + after && [] + after == after;
    } else {
      RowWithoutSay(before[1..], row, after, sources, host);
      assert (before + [row] + after)[1..] == before[1..] + [row] + after;
      assert (before + after)[1..] == before[1..] + after;
    }
  }

  /** Once a row applies, nothing behind it matters. */
  lemma {:induction false} RowsBehindHaveNoSay(before: seq<PolicyRow>, row: PolicyRow, after: seq<PolicyRow>,
                                              other: seq<PolicyRow>, sources: Sources, host: Abac.Host)
    requires Applies(row, sources, host)
    ensures Decide(before + [row] + after, sources, host) == Decide(before + [row] + other, sources, host)
  {
    if before == [] {
      assert ([] + [row] + after)[0] == row && ([] + [row] + other)[0] == row;
    } else {
      RowsBehindHaveNoSay(before[1..], row, after, other, sources, host);
      assert (before + [row] + after)[1..] == before[1..] + [row] + after;
      assert (before + [row] + other)[1..] == before[1..] + [row] + other;
    }
  }

  // ------------------------------------------------------------------ the middleware

  datatype User = User(
    permissions: seq<string>, attributes: map<string, Value>,
    id: Value, companyId: Value, branchId: Value, departmentId: Value,
    jobTitle: Value, email: Value, status: Value, mfaEnabled: Value)

  /** The user's own attributes come first, so the identity fields below cannot be replaced by them. */
  function SubjectOf(u: User): map<string, Value>
  {
    u.attributes + map[
      "user_id" := u.id, "id" := u.id, "company_id" := u.companyId, "branch_id" := u.branchId,
      "department_id" := u.departmentId, "job_title" := u.jobTitle, "email" := u.email,
      "status" := u.status, "mfa_enabled" := u.mfaEnabled]
  }

  function Piece(rest: Option<string>): Value { match rest case None => Undefined case Some(s) => Str(Before(s)) }

  function AfterTwo(permission: string): Option<string>
  {
    match After(permission) case None => None case Some(rest) => After(rest)
  }

  /** The attributes a route supplies are merged last and may replace the pieces of the permission. */
  function ResourceOf(permission: string, routeAttributes: map<string, Value>): map<string, Value>
  {
    map["module" := Str(Before(permission)), "resource" := Piece(After(permission)),
        "action" := Piece(AfterTwo(permission)), "permission" := Str(permission)] + routeAttributes
  }

  /** A reference with a known prefix reads that source; any other is tried on resource, subject, environment. */
  function RefValue(ref: string, sources: Sources): Value
  {
    var prefix := Before(ref);
    if prefix != "" && After(ref).Some? && prefix in {"subject", "resource", "environment"} then
      var key := After(ref).value;
      if prefix == "subject" then Get(sources.subject, key)
      else if prefix == "resource" then Get(sources.resource, key)
      else Get(sources.environment, key)
    else
      OrElse(Get(sources.resource, ref), OrElse(Get(sources.subject, ref), Get(sources.environment, ref)))
  }

  function SourceNamed(prefix: string, sources: Sources): map<string, Value>
  {
    if prefix == "subject" then sources.subject
    else if prefix == "resource" then sources.resource
    else sources.environment
  }

  /** A reference with a known prefix reads that source and no other, whatever the key looks like. */
  lemma PrefixedRefReadsItsSource(prefix: string, key: string, sources: Sources)
    requires prefix in {"subject", "resource", "environment"}
    ensures RefValue(prefix + "." + key, sources) == Get(SourceNamed(prefix, sources), key)
  {
    assert '.' !in prefix by { assert prefix == "subject" || prefix == "resource" || prefix == "environment"; }
    SplitAt(prefix, key);
  }

  /** A plain reference has the value of the first source that has one: resource, then subject, then environment. */
  lemma PlainRefFallsBack(ref: string, sources: Sources)
    requires '.' !in ref
    ensures var r, s, e := Get(sources.resource, ref), Get(sources.subject, ref), Get(sources.environment, ref);
            && (r != Undefined && r != Null ==> RefValue(ref, sources) == r)
            && (r in {Undefined, Null} && s != Undefined && s != Null ==> RefValue(ref, sources) == s)
            && (r in {Undefined, Null} && s in {Undefined, Null} ==> RefValue(ref, sources) == e)
  {
    Dotless(ref);
  }

  lemma PiecesOfPermission(mod: string, resource: string, action: string)
    requires '.' !in mod && '.' !in resource && '.' !in action
    ensures var permission := mod + "." + resource + "." + action;
            && Before(permission) == mod && Piece(After(permission)) == Str(resource)
            && Piece(AfterTwo(permission)) == Str(action)
  {
    assert mod + "." + resource + "." + action == mod + "." + (resource + "." + action);
    SplitAt(mod, resource + "." + action);
    SplitAt(resource, action);
    Dotless(action);
  }

  /** What a condition reads about the permission asked for, unless the route says otherwise. */
  lemma ResourceNamesThePermission(mod: string, resource: string, action: string, routeAttributes: map<string, Value>)
    requires '.' !in mod && '.' !in resource && '.' !in action
    ensures var permission := mod + "." + resource + "." + action;
            var source := ResourceOf(permission, routeAttributes);
            && ("module" !in routeAttributes ==> Get(source, "module") == Str(mod))
            && ("resource" !in routeAttributes ==> Get(source, "resource") == Str(resource))
            && ("action" !in routeAttributes ==> Get(source, "action") == Str(action))
            && ("permission" !in routeAttributes ==> Get(source, "permission") == Str(permission))
            && forall k :: k in routeAttributes ==> Get(source, k) == routeAttributes[k]
  {
    PiecesOfPermission(mod, resource, action);
    hide Piece, AfterTwo, Before, After;
  }

  datatype Outcome =
    | Allowed | Unauthorized | MissingPermission | DutyConflict | PolicyDenied(code: string) | OutOfScope

  /** Everything the middleware reads besides the user: query results and the request. */
  datatype Request = Request(
    hardConflict: string -> bool, policies: seq<PolicyRow>, scopeCovers: bool,
    routeAttributes: map<string, Value>, environment: map<string, Value>,
    textOf: Json -> string, coerce: Json -> Number)

  function SourcesFor(u: User, permission: string, req: Request): Sources
  {
    Sources(SubjectOf(u), ResourceOf(permission, req.routeAttributes), req.environment)
  }

  function HostFor(sources: Sources, req: Request): Abac.Host
  {
    Abac.Host(ref => RefValue(ref, sources), req.textOf, req.coerce)
  }

  /** Which field each subject attribute reads: the user's own attributes cannot replace an identity field. */
  lemma SubjectNamesTheUser(u: User, key: string)
    ensures var s := SubjectOf(u);
            && Get(s, "user_id") == u.id && Get(s, "id") == u.id && Get(s, "company_id") == u.companyId
            && Get(s, "branch_id") == u.branchId && Get(s, "department_id") == u.departmentId
            && Get(s, "job_title") == u.jobTitle && Get(s, "email") == u.email && Get(s, "status") == u.status
            && Get(s, "mfa_enabled") == u.mfaEnabled
    ensures key !in IDENTITY ==> Get(SubjectOf(u), key) == if key in u.attributes then u.attributes[key] else Undefined
  {}

  const IDENTITY := {
    "user_id", "id", "company_id", "branch_id", "department_id", "job_title", "email", "status", "mfa_enabled"}

  /** A condition filed under subject, resource or environment is tested on that source of the request. */
  lemma EachMapReadsItsSource(u: User, permission: string, req: Request, key: string, cond: Json, host: Abac.Host)
    ensures var sources := SourcesFor(u, permission, req);
            && (AllHold(Attrs(map[key := cond], map[], map[]), sources, host) <==>
                  Abac.ConditionHolds(cond, Get(SubjectOf(u), key), host))
            && (AllHold(Attrs(map[], map[key := cond], map[]), sources, host) <==>
                  Abac.ConditionHolds(cond, Get(ResourceOf(permission, req.routeAttributes), key), host))
            && (AllHold(Attrs(map[], map[], map[key := cond]), sources, host) <==>
                  Abac.ConditionHolds(cond, Get(req.environment, key), host))
  {
    hide Abac.ConditionHolds;
    assert map[key := cond][key] == cond;
  }

  /** And a `$ref` to such a source compares with the value there. */
  lemma RefReadsItsSource(u: User, permission: string, req: Request, prefix: string, key: string, v: Value)
    requires prefix in {"subject", "resource", "environment"}
    ensures var sources := SourcesFor(u, permission, req);
            var source :=
              if prefix == "subject" then SubjectOf(u)
              else if prefix == "resource" then ResourceOf(permission, req.routeAttributes)
              else req.environment;
            Abac.OperatorHolds("$ref", JStr(prefix + "." + key), v, HostFor(sources, req)) <==>
              v == Get(source, key) && v != Num(NaN)
  {
    hide RefValue, SubjectOf, ResourceOf, Get;
    PrefixedRefReadsItsSource(prefix, key, SourcesFor(u, permission, req));
  }

  predicate FirstHeld(u: User, wanted: seq<string>, i: int)
  {
    0 <= i < |wanted| && Can(u.permissions, wanted[i]) && forall j :: 0 <= j < i ==> !Can(u.permissions, wanted[j])
  }

  ghost predicate PoliciesLetPass(u: User, permission: string, req: Request)
  {
    var sources := SourcesFor(u, permission, req);
    Decide(req.policies, sources, HostFor(sources, req)) == Proceed
  }

  method RequirePermission(user: Option<User>, wanted: seq<string>, req: Request) returns (out: Outcome)
    ensures user.None? <==> out == Unauthorized
    ensures user.Some? ==>
              (out == MissingPermission <==> forall i :: 0 <= i < |wanted| ==> !Can(user.value.permissions, wanted[i]))
    ensures user.Some? ==> forall i :: FirstHeld(user.value, wanted, i) ==>
              (out == DutyConflict <==> req.hardConflict(wanted[i]))
    ensures user.Some? ==> forall i :: FirstHeld(user.value, wanted, i) && !req.hardConflict(wanted[i]) ==>
              (out.PolicyDenied? <==> !PoliciesLetPass(user.value, wanted[i], req))
    ensures user.Some? ==> forall i :: FirstHeld(user.value, wanted, i) && out.PolicyDenied? ==>
              var sources := SourcesFor(user.value, wanted[i], req);
              Decide(req.policies, sources, HostFor(sources, req)) == DeniedBy(out.code)
    ensures out == Allowed <==>
            && user.Some? && req.scopeCovers
            && exists i :: FirstHeld(user.value, wanted, i) && !req.hardConflict(wanted[i])
                 && PoliciesLetPass(user.value, wanted[i], req)
  {
    if user.None? {
      return Unauthorized;
    }
    var u := user.value;
    var i := 0;
    while i < |wanted| && !Can(u.permissions, wanted[i])
      invariant i <= |wanted| && forall j :: 0 <= j < i ==> !Can(u.permissions, wanted[j])
    {
      i := i + 1;
    }
    if i == |wanted| {
      return MissingPermission;
    }
    assert FirstHeld(u, wanted, i);
    assert forall k :: FirstHeld(u, wanted, k) ==> k == i;
    if req.hardConflict(wanted[i]) {
      return DutyConflict;
    }
    var sources := SourcesFor(u, wanted[i], req);
    var v := PolicyLoop(req.policies, sources, HostFor(sources, req));
    if v.DeniedBy? {
      return PolicyDenied(v.code);
    }
    return if req.scopeCovers then Allowed else OutOfScope;
  }
}
