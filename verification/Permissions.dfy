/** Permission codes and the run-time check (apps/api/src/middleware/authorize.ts). */
module Permissions {
  import opened Wrappers

  const ADMIN_ALL := "system.admin.all"

  /** The text before the first dot, and what follows that dot. */
  function Before(s: string): (r: string)
    ensures r <= s && '.' !in r
  {
    if s == "" || s[0] == '.' then "" else [s[0]] + Before(s[1..])
  }

  function After(s: string): Option<string>
  {
    if s == "" then None else if s[0] == '.' then Some(s[1..]) else After(s[1..])
  }

  /** The first two pieces of permission.split('.'); a missing second piece prints as "undefined". */
  function ModulePart(permission: string): string { Before(permission) }

  function ResourcePart(permission: string): string
  {
    match After(permission)
    case None => "undefined"
    case Some(rest) => Before(rest)
  }

  /** Wildcards the run-time check looks for. */
  function ResourceWildcard(permission: string): string
  {
    ModulePart(permission) + "." + ResourcePart(permission) + ".*"
  }

  function ModuleWildcard(permission: string): string { ModulePart(permission) + ".*" }

  predicate Can(perms: seq<string>, permission: string)
  {
    || ADMIN_ALL in perms || "*" in perms
    || permission in perms
    || ResourceWildcard(permission) in perms
    || ModuleWildcard(permission) in perms
  }

  /** Each of the five grants that let a permission of three pieces pass is enough, and without them it fails. */
  lemma CanIff(perms: seq<string>, mod: string, resource: string, action: string)
    requires '.' !in mod && '.' !in resource
    ensures Can(perms, mod + "." + resource + "." + action) <==>
            || "system.admin.all" in perms || "*" in perms || (mod + "." + resource + "." + action) in perms
            || (mod + "." + resource + ".*") in perms || (mod + ".*") in perms
  {
    assert mod + "." + resource + "." + action == mod + "." + (resource + "." + action);
    SplitAt(mod, resource + "." + action);
    SplitAt(resource, action);
  }

  /** A permission without a dot looks for a resource of the name "undefined". */
  lemma CanWithoutDotIff(perms: seq<string>, permission: string)
    requires '.' !in permission
    ensures Can(perms, permission) <==>
            || "system.admin.all" in perms || "*" in perms || permission in perms
            || (permission + ".undefined.*") in perms || (permission + ".*") in perms
  {
    Dotless(permission);
    assert permission + "." + "undefined" + ".*" == permission + ".undefined.*";
  }

  predicate EndsWith(s: string, suffix: string)
  {
    |suffix| <= |s| && s[|s| - |suffix|..] == suffix
  }

  /** A code that is neither a wildcard nor the administrator's pass. */
  predicate Concrete(code: string) { code != ADMIN_ALL && code != "*" && !EndsWith(code, ".*") }

  lemma {:induction false} SplitAt(head: string, tail: string)
    requires '.' !in head
    ensures Before(head + "." + tail) == head && After(head + "." + tail) == Some(tail)
  {
    var s := head + "." + tail;
    if head == "" {
      assert s[1..] == tail;
    } else {
      assert s[1..] == head[1..] + "." + tail;
      SplitAt(head[1..], tail);
    }
  }

  lemma {:induction false} Dotless(s: string)
    requires '.' !in s
    ensures Before(s) == s && After(s) == None
  {
    if s != "" { Dotless(s[1..]); }
  }

  lemma SuffixOfSum(a: string, b: string)
    ensures EndsWith(a + b, b)
  {
    assert (a + b)[|a|..] == b;
  }

  /** Over concrete codes the check is plain membership: no wildcard can widen it. */
  lemma CanOnConcreteCodes(perms: seq<string>, permission: string)
    requires forall c :: c in perms ==> Concrete(c)
    ensures Can(perms, permission) <==> permission in perms
  {
    SuffixOfSum(ModulePart(permission) + "." + ResourcePart(permission), ".*");
    SuffixOfSum(ModulePart(permission), ".*");
    assert !Concrete(ResourceWildcard(permission)) && !Concrete(ModuleWildcard(permission));
  }
}
