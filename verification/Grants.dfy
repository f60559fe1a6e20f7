/**
 Two readings of one grant: the expansion at seed time (packages/db/src/catalogue.js) and the
 check at run time (apps/api/src/middleware/authorize.ts).
 */
module Grants {
  import opened Wrappers
  import opened OrderedSets
  import opened Permissions
  import opened Catalogue

  /** Codes are written with name characters and dots only. */
  predicate CodeText(code: string)
  {
    code != "" && code != ADMIN_ALL && forall i :: 0 <= i < |code| ==> NameChar(code[i]) || code[i] == '.'
  }

  /** What the shipped catalogue data satisfies: plain names, plain codes, no code twice. */
  predicate WellFormed(cat: seq<Permission>)
  {
    && (forall i :: 0 <= i < |cat| ==> IsName(cat[i].mod) && IsName(cat[i].resource) && CodeText(cat[i].code))
    && (forall i, j :: 0 <= i < j < |cat| ==> cat[i].code != cat[j].code)
  }

  /** The code is module.resource.action, as every permission declared under MODULES. */
  predicate Canonical(p: Permission)
  {
    IsName(p.mod) && IsName(p.resource) && IsName(p.action) && p == MakePermission(p.mod, p.resource, p.action)
  }

  lemma NameHasNo(s: string, c: char)
    requires IsName(s) && !NameChar(c)
    ensures c !in s
  {}

  lemma CanonicalParts(p: Permission)
    requires Canonical(p)
    ensures ModulePart(p.code) == p.mod && ResourcePart(p.code) == p.resource
  {
    NameHasNo(p.mod, '.');
    NameHasNo(p.resource, '.');
    assert p.code == p.mod + "." + (p.resource + "." + p.action);
    SplitAt(p.mod, p.resource + "." + p.action);
    SplitAt(p.resource, p.action);
  }

  /** The grants the run-time check accepts for a permission, apart from the administrator's pass. */
  predicate RunTimeMatch(g: string, p: Permission)
  {
    g == "*" || g == p.code || g == p.mod + "." + p.resource + ".*" || g == p.mod + ".*"
  }

  lemma CanIsRunTimeMatch(perms: seq<string>, p: Permission)
    requires Canonical(p)
    ensures Can(perms, p.code) <==> ADMIN_ALL in perms || exists i :: 0 <= i < |perms| && RunTimeMatch(perms[i], p)
  {
    CanonicalParts(p);
  }

  // ------------------------------------------------------------------ what a pattern stands for

  lemma LastChar(g: string, base: string)
    ensures g == base + ".*" <==> EndsWith(g, ".*") && g[..|g| - 2] == base
  {
    if EndsWith(g, ".*") { assert g == g[..|g| - 2] + ".*"; }
    SuffixOfSum(base, ".*");
  }

  /** Texts whose pieces after the last dot differ are different texts. */
  lemma DifferentTails(a: string, x: string, b: string, y: string)
    requires x != y && '.' !in x && '.' !in y
    ensures a + "." + x != b + "." + y
  {
    var s, t := a + "." + x, b + "." + y;
    if |x| == |y| {
      assert s[|a| + 1..] == x && t[|b| + 1..] == y;
    } else if |s| == |t| && |x| < |y| {
      assert s[|a|] == '.' && t[|a|] == y[|a| - |b| - 1];
    } else if |s| == |t| {
      assert t[|b|] == '.' && s[|b|] == x[|b| - |a| - 1];
    }
  }

  lemma CodeEndsWithAction(p: Permission, action: string)
    requires Canonical(p) && IsName(action)
    ensures EndsWith(p.code, "." + action) <==> action == p.action
  {
    var head := p.mod + "." + p.resource;
    NameHasNo(action, '.');
    NameHasNo(p.action, '.');
    if action == p.action {
      assert p.code == head + ("." + action);
      SuffixOfSum(head, "." + action);
    } else if |action| < |p.code| {
      var front := p.code[..|p.code| - |action| - 1];
      assert EndsWith(p.code, "." + action) ==> p.code == front + "." + action;
      DifferentTails(head, p.action, front, action);
    }
  }

  lemma MidIsNoOther(g: string)
    requires ParseMid(g).Some?
    ensures g != "*" && !EndsWith(g, ".*") && !CodeText(g)
  {
    var n := NamePrefix(g);
    var (mod, action) := ParseMid(g).value;
    assert g[n..n + 3][1] == '*' == g[n + 1];
    assert g[n + 3..][|action| - 1] == g[|g| - 1];
  }

  lemma WildcardIsNoCode(g: string)
    requires EndsWith(g, ".*") || g == "*"
    ensures !CodeText(g)
  {
    if EndsWith(g, ".*") { assert g[|g| - 2..][1] == '*' == g[|g| - 1]; }
    assert g[|g| - 1] == '*';
  }

  /** The pattern module.*.action for this permission. */
  predicate MidMatch(g: string, p: Permission) { g == p.mod + ".*." + p.action }

  lemma {:induction false} NamePrefixOf(name: string, rest: string)
    requires forall i :: 0 <= i < |name| ==> NameChar(name[i])
    requires rest != "" && !NameChar(rest[0])
    ensures NamePrefix(name + rest) == |name|
  {
    if name != "" {
      assert (name + rest)[1..] == name[1..] + rest;
      NamePrefixOf(name[1..], rest);
    } else {
      assert name + rest == rest;
    }
  }

  lemma MidParses(mod: string, action: string)
    requires IsName(mod) && IsName(action)
    ensures var g := mod + ".*." + action; ParseMid(g) == Some((mod, action)) && !Excludes(g)
  {
    var g, n := mod + ".*." + action, |mod|;
    assert g == mod + (".*." + action);
    NamePrefixOf(mod, ".*." + action);
    assert g[n..n + 3] == ".*." && g[n + 3..] == action && g[..n] == mod;
  }

  lemma InThreeParts(g: string, n: nat)
    requires n + 3 <= |g|
    ensures g == g[..n] + g[n..n + 3] + g[n + 3..]
  {}

  lemma MidMatchIff(g: string, p: Permission)
    requires IsName(p.mod) && IsName(p.action)
    ensures MidMatch(g, p) <==> ParseMid(g) == Some((p.mod, p.action))
  {
    MidParses(p.mod, p.action);
    if ParseMid(g) == Some((p.mod, p.action)) {
      InThreeParts(g, NamePrefix(g));
    }
  }

  lemma InModuleCodes(cat: seq<Permission>, k: nat, mod: string)
    requires WellFormed(cat) && k < |cat|
    ensures cat[k].code in ModuleCodes(cat, mod) <==> cat[k].mod == mod
  {}

  lemma InResourceCodes(cat: seq<Permission>, k: nat, key: string)
    requires WellFormed(cat) && k < |cat|
    ensures cat[k].code in ResourceCodes(cat, key) <==> cat[k].mod + "." + cat[k].resource == key
  {}

  /** A trailing wildcard stands for a permission exactly when the run-time check accepts it. */
  lemma TrailingWildcard(cat: seq<Permission>, k: nat, g: string)
    requires WellFormed(cat) && k < |cat| && Canonical(cat[k]) && EndsWith(g, ".*")
    ensures cat[k].code in Hits(cat, g) <==> RunTimeMatch(g, cat[k])
  {
    var p, base := cat[k], g[..|g| - 2];
    WildcardIsNoCode(g);
    LastChar(g, p.mod);
    LastChar(g, p.mod + "." + p.resource);
    InModuleCodes(cat, k, base);
    InResourceCodes(cat, k, base);
    assert HasModule(cat, p.mod);
    if HasModule(cat, base) {
      NameHasNo(base, '.');
      assert (p.mod + "." + p.resource)[|p.mod|] == '.';
      assert base != p.mod + "." + p.resource;
    }
    assert g != "*";
  }

  /** For any pattern at all: what it stands for against what the run-time check makes of it. */
  lemma HitsIsRunTimeOrMid(cat: seq<Permission>, k: nat, g: string)
    requires WellFormed(cat) && k < |cat| && Canonical(cat[k])
    ensures cat[k].code in Hits(cat, g) <==> RunTimeMatch(g, cat[k]) || MidMatch(g, cat[k])
  {
    var p := cat[k];
    SuffixOfSum(p.mod, ".*");
    SuffixOfSum(p.mod + "." + p.resource, ".*");
    MidMatchIff(g, p);
    if ParseMid(g).Some? {
      MidIsNoOther(g);
      InModuleCodes(cat, k, ParseMid(g).value.0);
      CodeEndsWithAction(p, ParseMid(g).value.1);
    } else if EndsWith(g, ".*") {
      TrailingWildcard(cat, k, g);
    }
  }

  /** Expansion, permission by permission, in terms of the patterns alone. */
  lemma ExpansionByPattern(cat: seq<Permission>, k: nat, grants: seq<string>)
    requires WellFormed(cat) && k < |cat| && Canonical(cat[k])
    ensures cat[k].code in Expansion(cat, grants) <==>
            && (exists i :: 0 <= i < |grants| && !("!" <= grants[i]) &&
                  (RunTimeMatch(grants[i], cat[k]) || MidMatch(grants[i], cat[k])))
            && !(exists i :: 0 <= i < |grants| && "!" <= grants[i] &&
                  (RunTimeMatch(grants[i][1..], cat[k]) || MidMatch(grants[i][1..], cat[k])))
  {
    var p := cat[k];
    forall i | 0 <= i < |grants|
      ensures p.code in Hits(cat, grants[i]) <==> RunTimeMatch(grants[i], p) || MidMatch(grants[i], p)
    {
      HitsIsRunTimeOrMid(cat, k, grants[i]);
    }
    forall i | 0 <= i < |grants| && Excludes(grants[i])
      ensures p.code in Hits(cat, grants[i][1..]) <==> RunTimeMatch(grants[i][1..], p) || MidMatch(grants[i][1..], p)
    {
      HitsIsRunTimeOrMid(cat, k, grants[i][1..]);
    }
    assert p.code in Included(cat, grants) <==>
        exists i :: 0 <= i < |grants| && !Excludes(grants[i]) && p.code in Hits(cat, grants[i]);
    assert p.code in Excluded(cat, grants) <==>
        exists i :: 0 <= i < |grants| && Excludes(grants[i]) && p.code in Hits(cat, grants[i][1..]);
  }

  /** Neither an exclusion nor a pattern module.*.action. */
  predicate Plain(grants: seq<string>)
  {
    forall i :: 0 <= i < |grants| ==> !Excludes(grants[i]) && ParseMid(grants[i]).None?
  }

  /** On plain grants the two readings agree for every module.resource.action code. */
  lemma PlainGrantsAgree(cat: seq<Permission>, k: nat, grants: seq<string>)
    requires WellFormed(cat) && k < |cat| && Canonical(cat[k]) && Plain(grants) && ADMIN_ALL !in grants
    ensures Can(grants, cat[k].code) <==> cat[k].code in Expansion(cat, grants)
  {
    ExpansionByPattern(cat, k, grants);
    CanIsRunTimeMatch(grants, cat[k]);
    forall i | 0 <= i < |grants| ensures !MidMatch(grants[i], cat[k]) { MidMatchIff(grants[i], cat[k]); }
  }

  /** What some grant of a raw list is for a permission. */
  predicate ByRunTime(grants: seq<string>, p: Permission)
  {
    exists i :: 0 <= i < |grants| && RunTimeMatch(grants[i], p)
  }

  predicate ByMid(grants: seq<string>, p: Permission) { exists i :: 0 <= i < |grants| && MidMatch(grants[i], p) }

  predicate ByExclusion(grants: seq<string>, p: Permission)
  {
    exists i :: 0 <= i < |grants| && "!" <= grants[i]
      && (RunTimeMatch(grants[i][1..], p) || MidMatch(grants[i][1..], p))
  }

  lemma ExclusionIsNoInclude(g: string, p: Permission)
    requires Canonical(p) && Excludes(g)
    ensures !RunTimeMatch(g, p) && !MidMatch(g, p)
  {
    assert g[0] == '!' && !NameChar('!');
    assert p.code[0] == (p.mod + "." + p.resource + ".*")[0] == (p.mod + ".*")[0] == p.mod[0];
    assert (p.mod + ".*." + p.action)[0] == p.mod[0];
  }

  /**
   For any list of grants, read raw and expanded, and any module.resource.action code: where a grant is one of the forms
   the check tries, the readings agree exactly when no exclusion takes the code out; elsewhere, exactly when the
   administrator's pass is there just in case an unexcluded module.*.action pattern is.
   */
  lemma ReadingsAgreeIff(cat: seq<Permission>, k: nat, grants: seq<string>)
    requires WellFormed(cat) && k < |cat| && Canonical(cat[k])
    ensures var p := cat[k];
            (Can(grants, p.code) <==> p.code in Expansion(cat, grants)) <==>
              if ByRunTime(grants, p) then !ByExclusion(grants, p)
              else (ADMIN_ALL in grants <==> ByMid(grants, p) && !ByExclusion(grants, p))
  {
    var p := cat[k];
    CanIsRunTimeMatch(grants, p);
    ExpansionByPattern(cat, k, grants);
    forall i | 0 <= i < |grants| && Excludes(grants[i])
      ensures !RunTimeMatch(grants[i], p) && !MidMatch(grants[i], p)
    {
      ExclusionIsNoInclude(grants[i], p);
    }
  }

  lemma CodesAreConcrete(cat: seq<Permission>, code: string)
    requires WellFormed(cat) && code in AllCodes(cat)
    ensures Concrete(code) && !Excludes(code) && CodeText(code)
  {
    if EndsWith(code, ".*") || code == "*" { WildcardIsNoCode(code); }
  }

  /** Stored expansions are read back exactly: exclusions hold at run time, and no stored code acts as a wildcard. */
  lemma ExpansionSurvivesRunTime(cat: seq<Permission>, grants: seq<string>, stored: seq<string>, permission: string)
    requires WellFormed(cat) && Elements(stored) == Expansion(cat, grants)
    ensures Can(stored, permission) <==> permission in Expansion(cat, grants)
  {
    IncludedAreCodes(cat, grants);
    forall c | c in stored ensures Concrete(c) {
      assert c in Elements(stored);
      CodesAreConcrete(cat, c);
    }
    CanOnConcreteCodes(stored, permission);
    assert permission in stored <==> permission in Elements(stored);
  }

  // ------------------------------------------------------------------ laws of the expansion

  /** Only which grants are listed matters: neither their order nor how often each is listed. */
  lemma ExpansionIgnoresOrder(cat: seq<Permission>, a: seq<string>, b: seq<string>)
    requires Elements(a) == Elements(b)
    ensures Expansion(cat, a) == Expansion(cat, b)
  {
    ExpansionFromSet(cat, a, b);
    ExpansionFromSet(cat, b, a);
  }

  lemma ExpansionFromSet(cat: seq<Permission>, a: seq<string>, b: seq<string>)
    requires Elements(a) <= Elements(b)
    ensures Included(cat, a) <= Included(cat, b) && Excluded(cat, a) <= Excluded(cat, b)
  {
    forall i | 0 <= i < |a| ensures exists j :: 0 <= j < |b| && b[j] == a[i] {
      assert a[i] in Elements(a);
      assert a[i] in b;
    }
  }

  /** A catalogue code, used as a grant, stands for itself. */
  lemma CodeHitsItself(cat: seq<Permission>, code: string)
    requires WellFormed(cat) && code in AllCodes(cat)
    ensures Hits(cat, code) == {code}
  {
    CodesAreConcrete(cat, code);
    if ParseMid(code).Some? { MidIsNoOther(code); }
  }

  /** Expanding an expansion changes nothing, and an expansion holds catalogue codes only. */
  lemma ExpansionIsIdempotent(cat: seq<Permission>, grants: seq<string>, expanded: seq<string>)
    requires WellFormed(cat) && Elements(expanded) == Expansion(cat, grants)
    ensures Expansion(cat, expanded) == Expansion(cat, grants) <= AllCodes(cat)
  {
    IncludedAreCodes(cat, grants);
    forall i | 0 <= i < |expanded| ensures Hits(cat, expanded[i]) == {expanded[i]} && !Excludes(expanded[i]) {
      assert expanded[i] in Elements(expanded);
      CodeHitsItself(cat, expanded[i]);
      CodesAreConcrete(cat, expanded[i]);
    }
    assert Included(cat, expanded) == Elements(expanded);
    assert Excluded(cat, expanded) == {};
  }

  // ------------------------------------------------------------------ where the readings part

  lemma MidHasStar(g: string)
    requires ParseMid(g).Some?
    ensures '*' in g
  {
    var n := NamePrefix(g);
    assert g[n + 1] == g[n..n + 3][1] == '*';
  }

  lemma AdminHasNoStar(g: string)
    requires '*' in g
    ensures g != ADMIN_ALL
  {
    assert '*' !in ADMIN_ALL;
  }

  lemma MidIsNoRunTimeGrant(g: string, p: Permission)
    requires ParseMid(g).Some? && CodeText(p.code)
    ensures !RunTimeMatch(g, p) && g != ADMIN_ALL
  {
    MidIsNoOther(g);
    MidHasStar(g);
    AdminHasNoStar(g);
    hide ParseMid, CodeText, ADMIN_ALL;
    SuffixOfSum(p.mod, ".*");
    SuffixOfSum(p.mod + "." + p.resource, ".*");
  }

  /** A raw module.*.action grant expands to the permission but does not satisfy the run-time check. */
  lemma MidGrantIsSeedOnly(cat: seq<Permission>, k: nat)
    requires WellFormed(cat) && k < |cat| && Canonical(cat[k])
    ensures var g := cat[k].mod + ".*." + cat[k].action;
            !Can([g], cat[k].code) && cat[k].code in Expansion(cat, [g])
  {
    var p := cat[k];
    var g := p.mod + ".*." + p.action;
    MidParses(p.mod, p.action);
    MidExpandsOnly(cat, k, g);
  }

  lemma MidExpandsOnly(cat: seq<Permission>, k: nat, g: string)
    requires WellFormed(cat) && k < |cat| && Canonical(cat[k]) && MidMatch(g, cat[k]) && !Excludes(g)
    ensures !Can([g], cat[k].code) && cat[k].code in Expansion(cat, [g])
  {
    MidMatchIff(g, cat[k]);
    MidIsNoRunTimeGrant(g, cat[k]);
    CanIsRunTimeMatch([g], cat[k]);
    ExpansionByPattern(cat, k, [g]);
    assert [g][0] == g;
  }

  /** An exclusion takes the permission out of the expansion, but a raw list is not consulted for it at run time. */
  lemma ExclusionIsSeedOnly(cat: seq<Permission>, k: nat)
    requires WellFormed(cat) && k < |cat| && Canonical(cat[k])
    ensures var grants := ["*", "!" + cat[k].mod + ".*"];
            Can(grants, cat[k].code) && cat[k].code !in Expansion(cat, grants)
  {
    var grants := ["*", "!" + cat[k].mod + ".*"];
    assert grants[0] == "*" && Excludes(grants[1]) && grants[1][1..] == cat[k].mod + ".*";
    ExpansionByPattern(cat, k, grants);
  }

  /**
   A two-part code outside the usual shape expands from its resource wildcard, which the check tries exactly when the
   action is called like the resource.
   */
  lemma ShortCodeIsSeedOnlyIff(cat: seq<Permission>, k: nat)
    requires WellFormed(cat) && k < |cat| && IsName(cat[k].action)
    requires cat[k].code == cat[k].mod + "." + cat[k].action
    ensures var g := cat[k].mod + "." + cat[k].resource + ".*";
            cat[k].code in Expansion(cat, [g]) && (Can([g], cat[k].code) <==> cat[k].action == cat[k].resource)
  {
    ShortCodeExpands(cat, k);
    ShortCodeChecked(cat[k]);
  }

  lemma ShortCodeExpands(cat: seq<Permission>, k: nat)
    requires WellFormed(cat) && k < |cat|
    ensures cat[k].code in Expansion(cat, [cat[k].mod + "." + cat[k].resource + ".*"])
  {
    var key := cat[k].mod + "." + cat[k].resource;
    var g := key + ".*";
    LastChar(g, key);
    assert key[|cat[k].mod|] == '.';
    assert !HasModule(cat, key) by {
      forall i | 0 <= i < |cat| ensures cat[i].mod != key { NameHasNo(cat[i].mod, '.'); }
    }
    InResourceCodes(cat, k, key);
    assert g[0] == cat[k].mod[0];
    assert [g][0] == g && !Excludes(g);
    assert cat[k].code in Hits(cat, g);
    assert Excluded(cat, [g]) == {};
  }

  lemma ShortCodeChecked(p: Permission)
    requires IsName(p.mod) && IsName(p.resource) && IsName(p.action) && p.code == p.mod + "." + p.action
    requires CodeText(p.code)
    ensures Can([p.mod + "." + p.resource + ".*"], p.code) <==> p.action == p.resource
  {
    var g := p.mod + "." + p.resource + ".*";
    NameHasNo(p.mod, '.');
    NameHasNo(p.resource, '.');
    NameHasNo(p.action, '.');
    SplitAt(p.mod, p.action);
    Dotless(p.action);
    LastChar(g, p.mod);
    LastChar(g, p.mod + "." + p.action);
    LastChar(g, p.mod + "." + p.resource);
    WildcardIsNoCode(g);
    if p.action != p.resource { DifferentTails(p.mod, p.resource, p.mod, p.action); }
    assert (p.mod + "." + p.resource)[|p.mod|] == '.';
    assert g != ADMIN_ALL by { assert g[|g| - 1] == '*'; assert '*' !in ADMIN_ALL; }
    assert forall c :: c in [g] <==> c == g;
  }
}
