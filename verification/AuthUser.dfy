/** The effective permission set of a signed-in user (apps/api/src/middleware/auth.ts). */
module AuthUser {
  import opened OrderedSets
  import opened Permissions

  /** An active user_permission_overrides row; any effect but 'revoke' adds the code. */
  datatype Override = Override(code: string, revoke: bool)

  function Apply(codes: set<string>, o: Override): set<string>
  {
    if o.code == "" then codes else if o.revoke then codes - {o.code} else codes + {o.code}
  }

  /** The overrides one after another on top of what roles and delegations give. */
  function Effective(base: set<string>, overrides: seq<Override>): set<string>
  {
    if overrides == [] then base
    else Apply(Effective(base, overrides[..|overrides| - 1]), overrides[|overrides| - 1])
  }

  /** Role codes and delegated codes are joined, then every override is applied. */
  method LoadPermissions(roleCodes: seq<string>, delegated: seq<string>, overrides: seq<Override>)
    returns (permissions: seq<string>)
    ensures NoDup(permissions)
    ensures Elements(permissions) == Effective(Elements(roleCodes) + (Elements(delegated) - {""}), overrides)
  {
    var delegationPerms := [];
    for i := 0 to |delegated|
      invariant NoDup(delegationPerms) && Elements(delegationPerms) == Elements(delegated[..i]) - {""}
    {
      ElementsNext(delegated, i);
      if delegated[i] != "" {
        delegationPerms := Add(delegationPerms, delegated[i]);
      }
    }
    assert delegated[..|delegated|] == delegated;
    permissions := AddAll([], roleCodes);
    permissions := AddAll(permissions, delegationPerms);
    ghost var base := Elements(permissions);
    assert base == Elements(roleCodes) + (Elements(delegated) - {""});
    for i := 0 to |overrides|
      invariant NoDup(permissions) && Elements(permissions) == Effective(base, overrides[..i])
    {
      assert overrides[..i + 1][..i] == overrides[..i];
      var o := overrides[i];
      if o.code == "" {
        continue;
      }
      if o.revoke {
        permissions := Delete(permissions, o.code);
      } else {
        permissions := Add(permissions, o.code);
      }
    }
    assert overrides[..|overrides|] == overrides;
  }

  /** Row i is the last one that names the code. */
  predicate Decides(overrides: seq<Override>, i: int, code: string)
  {
    0 <= i < |overrides| && overrides[i].code == code && forall j :: i < j < |overrides| ==> overrides[j].code != code
  }

  predicate Mentions(overrides: seq<Override>, code: string)
  {
    exists i :: 0 <= i < |overrides| && overrides[i].code == code
  }

  /** A code is held as its last override says, or as roles and delegations say when none names it. */
  lemma {:induction false} LastOverrideDecides(base: set<string>, overrides: seq<Override>, code: string)
    requires code != ""
    ensures !Mentions(overrides, code) ==> (code in Effective(base, overrides) <==> code in base)
    ensures forall i :: Decides(overrides, i, code) ==> (code in Effective(base, overrides) <==> !overrides[i].revoke)
    ensures Mentions(overrides, code) ==> exists i :: Decides(overrides, i, code)
  {
    if overrides != [] {
      var n := |overrides| - 1;
      var short := overrides[..n];
      LastOverrideDecides(base, short, code);
      assert forall i :: 0 <= i < n ==> short[i] == overrides[i];
      if overrides[n].code == code {
        assert Decides(overrides, n, code);
      } else {
        forall i ensures Decides(overrides, i, code) <==> Decides(short, i, code) {}
      }
    }
  }

  /** At most one row per permission, as the table's unique key demands. */
  predicate OnePerPermission(overrides: seq<Override>)
  {
    forall i, j :: 0 <= i < j < |overrides| ==> overrides[i].code != overrides[j].code
  }

  /** With one override per permission the order in which the rows arrive is irrelevant. */
  lemma OverrideOrderIrrelevant(base: set<string>, a: seq<Override>, b: seq<Override>, code: string)
    requires OnePerPermission(a) && OnePerPermission(b) && Elements(a) == Elements(b) && code != ""
    ensures code in Effective(base, a) <==> code in Effective(base, b)
  {
    LastOverrideDecides(base, a, code);
    LastOverrideDecides(base, b, code);
    SameMentions(a, b, code);
    SameMentions(b, a, code);
    if Mentions(a, code) {
      var i :| Decides(a, i, code);
      var j :| Decides(b, j, code);
      assert a[i] in Elements(b);
      var k :| 0 <= k < |b| && b[k] == a[i];
      assert k == j;
    }
  }

  lemma SameMentions(a: seq<Override>, b: seq<Override>, code: string)
    requires Elements(a) == Elements(b)
    ensures Mentions(a, code) ==> Mentions(b, code)
  {
    if Mentions(a, code) {
      var i :| 0 <= i < |a| && a[i].code == code;
      assert a[i] in Elements(b);
    }
  }

  /** The codes that let the run-time check pass without the permission itself. */
  predicate WiderPass(perms: seq<string>, permission: string)
  {
    ADMIN_ALL in perms || "*" in perms || ResourceWildcard(permission) in perms || ModuleWildcard(permission) in perms
  }

  /** A revoke that nothing later overrides denies the permission, except to holders of a wider stored code. */
  lemma RevokeDeniesUnlessWider(base: set<string>, overrides: seq<Override>, i: nat, perms: seq<string>)
    requires i < |overrides| && Decides(overrides, i, overrides[i].code) && overrides[i].revoke
    requires overrides[i].code != ""
    requires Elements(perms) == Effective(base, overrides)
    ensures Can(perms, overrides[i].code) <==> WiderPass(perms, overrides[i].code)
  {
    LastOverrideDecides(base, overrides, overrides[i].code);
    assert overrides[i].code !in Elements(perms);
  }

  lemma {:induction false} EffectiveFromRows(base: set<string>, overrides: seq<Override>, code: string)
    requires code in Effective(base, overrides)
    ensures code in base || Mentions(overrides, code)
  {
    if overrides != [] {
      var n := |overrides| - 1;
      if code in Effective(base, overrides[..n]) {
        EffectiveFromRows(base, overrides[..n], code);
        if Mentions(overrides[..n], code) {
          var i :| 0 <= i < n && overrides[..n][i].code == code;
          assert overrides[i].code == code;
        }
      } else {
        assert overrides[n].code == code;
      }
    }
  }

  /** Every stored code names one permission. */
  predicate AllConcrete(base: set<string>, overrides: seq<Override>)
  {
    (forall c :: c in base ==> Concrete(c)) && forall i :: 0 <= i < |overrides| ==> Concrete(overrides[i].code)
  }

  /** Over concrete codes an active revoke always wins, whatever roles and delegations grant. */
  lemma ActiveRevokeWins(base: set<string>, overrides: seq<Override>, i: nat, perms: seq<string>)
    requires AllConcrete(base, overrides) && Elements(perms) == Effective(base, overrides)
    requires i < |overrides| && Decides(overrides, i, overrides[i].code) && overrides[i].revoke
    requires overrides[i].code != ""
    ensures !Can(perms, overrides[i].code)
  {
    ConcretePerms(base, overrides, perms);
    CanOnConcreteCodes(perms, overrides[i].code);
    RevokeDeniesUnlessWider(base, overrides, i, perms);
    assert overrides[i].code in perms <==> overrides[i].code in Elements(perms);
    LastOverrideDecides(base, overrides, overrides[i].code);
  }

  lemma ConcretePerms(base: set<string>, overrides: seq<Override>, perms: seq<string>)
    requires AllConcrete(base, overrides) && Elements(perms) == Effective(base, overrides)
    ensures forall c :: c in perms ==> Concrete(c)
  {
    forall c | c in perms ensures Concrete(c) {
      assert c in Elements(perms);
      EffectiveFromRows(base, overrides, c);
    }
  }

  /** An override row touches its own permission only. */
  lemma {:induction false} OverrideIsLocal(base: set<string>, before: seq<Override>, o: Override,
                                          after: seq<Override>, code: string)
    requires code != o.code
    ensures code in Effective(base, before + [o] + after) <==> code in Effective(base, before + after)
  {
    if after == [] {
      assert (before + [o] + after)[..|before|] == before;
      assert before + after == before;
    } else {
      var n := |after| - 1;
      OverrideIsLocal(base, before, o, after[..n], code);
      assert (before + [o] + after)[..|before| + 1 + n] == before + [o] + after[..n];
      assert (before + after)[..|before| + n] == before + after[..n];
    }
  }

  /** Adding or removing one override leaves the check for every other permission as it was. */
  lemma OtherPermissionsUnaffected(base: set<string>, before: seq<Override>, o: Override, after: seq<Override>,
                                   withRow: seq<string>, without: seq<string>, permission: string)
    requires AllConcrete(base, before + [o] + after) && permission != o.code
    requires Elements(withRow) == Effective(base, before + [o] + after)
    requires Elements(without) == Effective(base, before + after)
    ensures Can(withRow, permission) <==> Can(without, permission)
  {
    assert AllConcrete(base, before + after) by {
      var all := before + [o] + after;
      forall i | 0 <= i < |before + after| ensures Concrete((before + after)[i].code) {
        assert (before + after)[i] == if i < |before| then all[i] else all[i + 1];
      }
    }
    ConcretePerms(base, before + [o] + after, withRow);
    ConcretePerms(base, before + after, without);
    CanOnConcreteCodes(withRow, permission);
    CanOnConcreteCodes(without, permission);
    OverrideIsLocal(base, before, o, after, permission);
    assert permission in withRow <==> permission in Elements(withRow);
    assert permission in without <==> permission in Elements(without);
  }
}
