/** The permission catalogue and the expansion of role grants (packages/db/src/catalogue.js). */
module Catalogue {
  import opened Wrappers
  import opened Permissions
  import opened OrderedSets

  datatype Permission = Permission(code: string, mod: string, resource: string, action: string, description: string)

  /** MODULES as entries: module, then resource, then its actions. */
  type Resources = seq<(string, seq<string>)>
  type Modules = seq<(string, Resources)>

  function MakePermission(mod: string, resource: string, action: string): Permission
  {
    Permission(
      mod + "." + resource + "." + action, mod, resource, action, action + " " + resource + " (" + mod + ")")
  }

  ghost predicate Declared(modules: Modules, p: Permission)
  {
    exists i, j, k ::
      && 0 <= i < |modules| && 0 <= j < |modules[i].1| && 0 <= k < |modules[i].1[j].1|
      && var (mod, resource, action) := (modules[i].0, modules[i].1[j].0, modules[i].1[j].1[k]);
         && p.code == mod + "." + resource + "." + action
         && p.mod == mod && p.resource == resource && p.action == action
         && p.description == action + " " + resource + " (" + mod + ")"
  }

  function FromActions(mod: string, resource: string, actions: seq<string>): (r: seq<Permission>)
    ensures |r| == |actions|
  {
    seq(|actions|, k requires 0 <= k < |actions| => MakePermission(mod, resource, actions[k]))
  }

  function FromResources(mod: string, rs: Resources): seq<Permission>
  {
    if rs == [] then []
    else FromResources(mod, rs[..|rs| - 1]) + FromActions(mod, rs[|rs| - 1].0, rs[|rs| - 1].1)
  }

  function FromModules(ms: Modules): seq<Permission>
  {
    if ms == [] then []
    else FromModules(ms[..|ms| - 1]) + FromResources(ms[|ms| - 1].0, ms[|ms| - 1].1)
  }

  method BuildPermissions(modules: Modules, extra: seq<Permission>) returns (perms: seq<Permission>)
    ensures perms == FromModules(modules) + extra
  {
    perms := [];
    for i := 0 to |modules|
      invariant perms == FromModules(modules[..i])
    {
      var (mod, resources) := modules[i];
      ghost var start := perms;
      for j := 0 to |resources|
        invariant perms == start + FromResources(mod, resources[..j])
      {
        var (resource, actions) := resources[j];
        ghost var head := perms;
        for k := 0 to |actions|
          invariant perms == head + FromActions(mod, resource, actions)[..k]
        {
          perms := perms + [MakePermission(mod, resource, actions[k])];
        }
        assert resources[..j + 1][..j] == resources[..j];
      }
      assert resources[..|resources|] == resources;
      assert modules[..i + 1][..i] == modules[..i];
    }
    assert modules[..|modules|] == modules;
    for i := 0 to |extra|
      invariant perms == FromModules(modules) + extra[..i]
    {
      perms := perms + [extra[i]];
    }
    assert extra[..|extra|] == extra;
  }

  ghost predicate DeclaredIn(mod: string, rs: Resources, p: Permission)
  {
    exists j, k :: 0 <= j < |rs| && 0 <= k < |rs[j].1| && p == MakePermission(mod, rs[j].0, rs[j].1[k])
  }

  lemma ActionsDeclare(mod: string, resource: string, actions: seq<string>, p: Permission)
    ensures p in FromActions(mod, resource, actions) <==>
            exists k :: 0 <= k < |actions| && p == MakePermission(mod, resource, actions[k])
  {
    var last := FromActions(mod, resource, actions);
    assert forall k :: 0 <= k < |actions| ==> last[k] == MakePermission(mod, resource, actions[k]);
  }

  lemma {:induction false} ResourcesDeclare(mod: string, rs: Resources, p: Permission)
    ensures p in FromResources(mod, rs) <==> DeclaredIn(mod, rs, p)
  {
    hide MakePermission, FromActions;
    if rs != [] {
      var n := |rs| - 1;
      ResourcesDeclare(mod, rs[..n], p);
      ActionsDeclare(mod, rs[n].0, rs[n].1, p);
      assert forall j :: 0 <= j < n ==> rs[..n][j] == rs[j];
    }
  }

  lemma DeclaredSomewhere(ms: Modules, p: Permission)
    ensures Declared(ms, p) <==> exists i :: 0 <= i < |ms| && DeclaredIn(ms[i].0, ms[i].1, p)
  {
    if Declared(ms, p) {
      var i, j, k :| 0 <= i < |ms| && 0 <= j < |ms[i].1| && 0 <= k < |ms[i].1[j].1|
                     && p == MakePermission(ms[i].0, ms[i].1[j].0, ms[i].1[j].1[k]);
      assert DeclaredIn(ms[i].0, ms[i].1, p);
    }
  }

  lemma {:induction false} FromModulesDeclare(ms: Modules, p: Permission)
    ensures p in FromModules(ms) <==> exists i :: 0 <= i < |ms| && DeclaredIn(ms[i].0, ms[i].1, p)
  {
    hide FromResources, DeclaredIn;
    if ms != [] {
      var n := |ms| - 1;
      FromModulesDeclare(ms[..n], p);
      ResourcesDeclare(ms[n].0, ms[n].1, p);
      assert forall i :: 0 <= i < n ==> ms[..n][i] == ms[i];
    }
  }

  /** The loops produce exactly the declared module.resource.action codes. */
  lemma BuildsWhatIsDeclared(ms: Modules, p: Permission)
    ensures p in FromModules(ms) <==> Declared(ms, p)
  {
    FromModulesDeclare(ms, p);
    DeclaredSomewhere(ms, p);
  }

  // ------------------------------------------------------------------ patterns

  predicate NameChar(c: char) { 'a' <= c <= 'z' || '0' <= c <= '9' || c == '_' }

  predicate IsName(s: string) { s != "" && forall i :: 0 <= i < |s| ==> NameChar(s[i]) }

  function NamePrefix(s: string): (n: nat)
    ensures n <= |s| && (forall i :: 0 <= i < n ==> NameChar(s[i])) && (n < |s| ==> !NameChar(s[n]))
  {
    if s == "" || !NameChar(s[0]) then 0 else 1 + NamePrefix(s[1..])
  }

  /** The module and the action of a pattern module.*.action. */
  function ParseMid(s: string): Option<(string, string)>
  {
    var n := NamePrefix(s);
    if n > 0 && n + 3 <= |s| && s[n..n + 3] == ".*." && IsName(s[n + 3..]) then Some((s[..n], s[n + 3..])) else None
  }

  predicate HasModule(cat: seq<Permission>, mod: string) { exists i :: 0 <= i < |cat| && cat[i].mod == mod }

  predicate HasResource(cat: seq<Permission>, key: string)
  {
    exists i :: 0 <= i < |cat| && cat[i].mod + "." + cat[i].resource == key
  }

  function AllCodes(cat: seq<Permission>): set<string> { set i | 0 <= i < |cat| :: cat[i].code }

  function ModuleCodes(cat: seq<Permission>, mod: string): set<string>
  {
    set i | 0 <= i < |cat| && cat[i].mod == mod :: cat[i].code
  }

  function ResourceCodes(cat: seq<Permission>, key: string): set<string>
  {
    set i | 0 <= i < |cat| && cat[i].mod + "." + cat[i].resource == key :: cat[i].code
  }

  /** The catalogue codes a pattern stands for. */
  function Hits(cat: seq<Permission>, pattern: string): set<string>
  {
    if pattern == "*" then AllCodes(cat)
    else if EndsWith(pattern, ".*") then
      var base := pattern[..|pattern| - 2];
      if HasModule(cat, base) then ModuleCodes(cat, base) else ResourceCodes(cat, base)
    else
      match ParseMid(pattern)
      case Some((mod, action)) => set c | c in ModuleCodes(cat, mod) && EndsWith(c, "." + action)
      case None => AllCodes(cat) * {pattern}
  }

  predicate Excludes(g: string): (held: bool)
    ensures held <==> "!" <= g
  {
    g != "" && g[0] == '!'
  }

  function Included(cat: seq<Permission>, grants: seq<string>): set<string>
  {
    set i, c | 0 <= i < |grants| && !Excludes(grants[i]) && c in Hits(cat, grants[i]) :: c
  }

  function Excluded(cat: seq<Permission>, grants: seq<string>): set<string>
  {
    set i, c | 0 <= i < |grants| && Excludes(grants[i]) && c in Hits(cat, grants[i][1..]) :: c
  }

  /** What a list of grants stands for: the union of its includes minus the union of its excludes. */
  function Expansion(cat: seq<Permission>, grants: seq<string>): set<string>
  {
    Included(cat, grants) - Excluded(cat, grants)
  }

  // ------------------------------------------------------------------ the loops

  /** The two lookup tables of the expansion. */
  datatype Index = Index(byModule: map<string, seq<string>>, byResource: map<string, seq<string>>)

  function Listed(m: map<string, seq<string>>, key: string): seq<string> { if key in m then m[key] else [] }

  /** Both tables list, under each key, the codes of the permissions with that key, and have no other keys. */
  ghost predicate Indexes(cat: seq<Permission>, index: Index)
  {
    && (forall k :: k in index.byModule <==> HasModule(cat, k))
    && (forall k :: k in index.byModule ==> Elements(index.byModule[k]) == ModuleCodes(cat, k))
    && (forall k :: k in index.byResource <==> HasResource(cat, k))
    && (forall k :: k in index.byResource ==> Elements(index.byResource[k]) == ResourceCodes(cat, k))
  }

  function Push(m: map<string, seq<string>>, key: string, code: string): map<string, seq<string>>
  {
    m[key := Listed(m, key) + [code]]
  }

  lemma TakeOneMore(cat: seq<Permission>, i: nat, key: string)
    requires i < |cat|
    ensures HasModule(cat[..i + 1], key) <==> HasModule(cat[..i], key) || cat[i].mod == key
    ensures ModuleCodes(cat[..i + 1], key) ==
            ModuleCodes(cat[..i], key) + if cat[i].mod == key then {cat[i].code} else {}
    ensures !HasModule(cat[..i], key) ==> ModuleCodes(cat[..i], key) == {}
  {
    var a, b := cat[..i], cat[..i + 1];
    assert b == a + [cat[i]];
  }

  lemma TakeOneMoreResource(cat: seq<Permission>, i: nat, key: string)
    requires i < |cat|
    ensures HasResource(cat[..i + 1], key) <==> HasResource(cat[..i], key) || cat[i].mod + "." + cat[i].resource == key
    ensures ResourceCodes(cat[..i + 1], key) ==
            ResourceCodes(cat[..i], key) + if cat[i].mod + "." + cat[i].resource == key then {cat[i].code} else {}
    ensures !HasResource(cat[..i], key) ==> ResourceCodes(cat[..i], key) == {}
  {
    var a, b := cat[..i], cat[..i + 1];
    assert b == a + [cat[i]];
  }

  method BuildIndex(cat: seq<Permission>) returns (index: Index)
    ensures Indexes(cat, index)
  {
    var byModule, byResource := map[], map[];
    for i := 0 to |cat|
      invariant Indexes(cat[..i], Index(byModule, byResource))
    {
      var p := cat[i];
      ghost var before := Index(byModule, byResource);
      byModule := Push(byModule, p.mod, p.code);
      byResource := Push(byResource, p.mod + "." + p.resource, p.code);
      PushKeepsIndexes(cat, i, before);
    }
    assert cat[..|cat|] == cat;
    index := Index(byModule, byResource);
  }

  lemma PushKeepsIndexes(cat: seq<Permission>, i: nat, index: Index)
    requires i < |cat| && Indexes(cat[..i], index)
    ensures var p := cat[i];
            Indexes(cat[..i + 1],
              Index(Push(index.byModule, p.mod, p.code), Push(index.byResource, p.mod + "." + p.resource, p.code)))
  {
    var p := cat[i];
    var key := p.mod + "." + p.resource;
    forall k
      ensures k in Push(index.byModule, p.mod, p.code) <==> HasModule(cat[..i + 1], k)
      ensures HasModule(cat[..i + 1], k) ==>
          Elements(Push(index.byModule, p.mod, p.code)[k]) == ModuleCodes(cat[..i + 1], k)
    {
      TakeOneMore(cat, i, k);
      ElementsOfSum(Listed(index.byModule, k), [p.code]);
    }
    forall k
      ensures k in Push(index.byResource, key, p.code) <==> HasResource(cat[..i + 1], k)
      ensures HasResource(cat[..i + 1], k) ==>
                Elements(Push(index.byResource, key, p.code)[k]) == ResourceCodes(cat[..i + 1], k)
    {
      TakeOneMoreResource(cat, i, k);
      ElementsOfSum(Listed(index.byResource, k), [p.code]);
    }
  }

  function Codes(cat: seq<Permission>): (r: seq<string>)
    ensures Elements(r) == AllCodes(cat)
  {
    var r := seq(|cat|, i requires 0 <= i < |cat| => cat[i].code);
    assert forall c :: c in AllCodes(cat) ==> c in r by {
      assert forall i :: 0 <= i < |cat| ==> r[i] == cat[i].code;
    }
    r
  }

  /** The codes of a list that end in a suffix. */
  method EndingWith(codes: seq<string>, suffix: string) returns (r: seq<string>)
    ensures Elements(r) == set c | c in Elements(codes) && EndsWith(c, suffix)
  {
    r := [];
    for i := 0 to |codes|
      invariant Elements(r) == set c | c in Elements(codes[..i]) && EndsWith(c, suffix)
    {
      ElementsNext(codes, i);
      if EndsWith(codes[i], suffix) {
        ElementsOfSum(r, [codes[i]]);
        r := r + [codes[i]];
      }
    }
    assert codes[..|codes|] == codes;
  }

  /** Applies one pattern to the growing set: adds what it stands for, or takes it away. */
  method Apply(cat: seq<Permission>, index: Index, pattern: string, into: seq<string>, add: bool)
    returns (out: seq<string>)
    requires Indexes(cat, index) && NoDup(into) && Elements(into) <= AllCodes(cat)
    ensures NoDup(out)
    ensures Elements(out) == if add then Elements(into) + Hits(cat, pattern) else Elements(into) - Hits(cat, pattern)
  {
    if pattern == "*" {
      if add {
        out := AddAll(into, Codes(cat));
      } else {
        out := [];
      }
      return;
    }
    var hits;
    if EndsWith(pattern, ".*") {
      var base := pattern[..|pattern| - 2];
      hits := if base in index.byModule then index.byModule[base] else Listed(index.byResource, base);
    } else {
      match ParseMid(pattern) {
        case Some((mod, action)) =>
          hits := EndingWith(Listed(index.byModule, mod), "." + action);
        case None =>
          hits := if !add || pattern in Codes(cat) then [pattern] else [];
      }
    }
    assert Elements(into) - Elements(hits) == Elements(into) - Hits(cat, pattern);
    assert add ==> Elements(hits) == Hits(cat, pattern);
    if add {
      out := AddAll(into, hits);
    } else {
      out := DeleteAll(into, hits);
    }
  }

  /** Includes first, in order; excludes are held back and applied at the end. */
  method ExpandGrants(cat: seq<Permission>, grants: seq<string>) returns (out: seq<string>)
    ensures NoDup(out) && Elements(out) == Expansion(cat, grants)
  {
    var index := BuildIndex(cat);
    var excludes := [];
    out := [];
    for i := 0 to |grants|
      invariant NoDup(out) && Elements(out) == Included(cat, grants[..i])
      invariant ExcludedBy(cat, excludes) == Excluded(cat, grants[..i])
    {
      IncludedNext(cat, grants, i);
      ExcludedNext(cat, grants, i);
      IncludedAreCodes(cat, grants[..i]);
      var g := grants[i];
      if Excludes(g) {
        ExcludedByNext(cat, excludes, g[1..]);
        excludes := excludes + [g[1..]];
      } else {
        out := Apply(cat, index, g, out, true);
      }
    }
    assert grants[..|grants|] == grants;
    IncludedAreCodes(cat, grants);
    for i := 0 to |excludes|
      invariant NoDup(out) && Elements(out) == Included(cat, grants) - ExcludedBy(cat, excludes[..i])
    {
      ExcludedByNext(cat, excludes[..i], excludes[i]);
      assert excludes[..i + 1] == excludes[..i] + [excludes[i]];
      out := Apply(cat, index, excludes[i], out, false);
    }
    assert excludes[..|excludes|] == excludes;
  }

  function ExcludedBy(cat: seq<Permission>, patterns: seq<string>): set<string>
  {
    set i, c | 0 <= i < |patterns| && c in Hits(cat, patterns[i]) :: c
  }

  lemma ExcludedByNext(cat: seq<Permission>, patterns: seq<string>, p: string)
    ensures ExcludedBy(cat, patterns + [p]) == ExcludedBy(cat, patterns) + Hits(cat, p)
  {
    var more := patterns + [p];
    assert more[|patterns|] == p && forall i :: 0 <= i < |patterns| ==> more[i] == patterns[i];
  }

  lemma IncludedNext(cat: seq<Permission>, grants: seq<string>, i: nat)
    requires i < |grants|
    ensures Included(cat, grants[..i + 1]) ==
            Included(cat, grants[..i]) + if Excludes(grants[i]) then {} else Hits(cat, grants[i])
  {
    hide Hits;
    var a, b := grants[..i], grants[..i + 1];
    assert forall j :: 0 <= j < i ==> a[j] == b[j];
    forall c | c in Included(cat, b) && c !in Included(cat, a)
      ensures !Excludes(grants[i]) && c in Hits(cat, grants[i])
    {
      var j :| 0 <= j < |b| && !Excludes(b[j]) && c in Hits(cat, b[j]);
    }
    forall c | c in Included(cat, a) ensures c in Included(cat, b) {
      var j :| 0 <= j < |a| && !Excludes(a[j]) && c in Hits(cat, a[j]);
      assert b[j] == a[j];
    }
    assert b[i] == grants[i];
  }

  lemma ExcludedNext(cat: seq<Permission>, grants: seq<string>, i: nat)
    requires i < |grants|
    ensures Excluded(cat, grants[..i + 1]) ==
            Excluded(cat, grants[..i]) + if Excludes(grants[i]) then Hits(cat, grants[i][1..]) else {}
  {
    hide Hits;
    var a, b := grants[..i], grants[..i + 1];
    assert forall j :: 0 <= j < i ==> a[j] == b[j];
    forall c | c in Excluded(cat, b) && c !in Excluded(cat, a)
      ensures Excludes(grants[i]) && c in Hits(cat, grants[i][1..])
    {
      var j :| 0 <= j < |b| && Excludes(b[j]) && c in Hits(cat, b[j][1..]);
    }
    forall c | c in Excluded(cat, a) ensures c in Excluded(cat, b) {
      var j :| 0 <= j < |a| && Excludes(a[j]) && c in Hits(cat, a[j][1..]);
      assert b[j] == a[j];
    }
    assert b[i] == grants[i];
  }

  lemma HitsAreCodes(cat: seq<Permission>, pattern: string)
    ensures Hits(cat, pattern) <= AllCodes(cat)
  {}

  lemma IncludedAreCodes(cat: seq<Permission>, grants: seq<string>)
    ensures Included(cat, grants) <= AllCodes(cat)
  {
    forall i | 0 <= i < |grants| ensures Hits(cat, grants[i]) <= AllCodes(cat) { HitsAreCodes(cat, grants[i]); }
  }
}
