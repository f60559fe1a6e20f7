/**
 From role grants to the run-time check: what reconciliation stores (packages/db/src/seed-data.js), what sign-in
 loads (apps/api/src/middleware/auth.ts) and what the check makes of it (apps/api/src/middleware/authorize.ts).
 */
module Access {
  import opened OrderedSets
  import opened Permissions
  import opened Catalogue
  import opened Grants
  import opened Reconcile
  import opened AuthUser

  /** The codes that the roles of a user hold in the database. */
  function RoleCodes(t: Table, grants: set<(int, int)>, roleIds: set<int>): set<string>
  {
    set c, r | c in t && r in roleIds && t[c].id in Held(grants, r) :: c
  }

  /** Reconciliation writes this row of the roles table for this role of the catalogue. */
  predicate Writes(ids: map<string, int>, roles: seq<Role>, i: int, roleId: int)
  {
    0 <= i < |roles| && roles[i].code in ids && ids[roles[i].code] == roleId
  }

  /** A role of the catalogue has the permission among its grants, or for its position. */
  predicate SeedGrants(cat: seq<Permission>, t: Table, role: Role, p: string)
  {
    p in Expansion(cat, role.grants) || (p in PositionCodes(role.code) && p in t)
  }

  /** A role held the permission before; this counts for roles that reconciliation does not write. */
  predicate KeptGrants(grants: set<(int, int)>, t: Table, roleId: int, p: string)
  {
    p in t && t[p].id in Held(grants, roleId)
  }

  ghost predicate GrantedBy(cat: seq<Permission>, t: Table, ids: map<string, int>, roles: seq<Role>,
                            grants: set<(int, int)>, roleId: int, p: string)
  {
    if Written(ids, roles, roleId) then exists i :: Writes(ids, roles, i, roleId) && SeedGrants(cat, t, roles[i], p)
    else KeptGrants(grants, t, roleId, p)
  }

  predicate LastGrants(overrides: seq<Override>, p: string)
  {
    exists i :: 0 <= i < |overrides| && Decides(overrides, i, p) && !overrides[i].revoke
  }

  lemma PositionCodesAreConcrete(role: string, c: string)
    requires c in PositionCodes(role)
    ensures Concrete(c)
  {
    assert c[|c| - 1] != '*';
  }

  /** The row of a catalogue role holds a code in the database exactly when the catalogue computes it for the role. */
  lemma HeldIffSeeded(grants: set<(int, int)>, rows: seq<RoleRow>, tenant: int, t: Table, nextId: int,
                      cat: seq<Permission>, roles: seq<Role>, i: nat, k: nat, c: string)
    requires ValidTable(t, nextId) && AllCodes(cat) <= t.Keys
    requires DistinctIds(rows) && DistinctRoles(roles) && i < |roles|
    requires LastRowOf(rows, tenant, k) && rows[k].code == roles[i].code
    ensures c in t && (rows[k].id, t[c].id) in RegrantAll(grants, RoleIds(rows, tenant), t, cat, roles) <==>
            c in Expansion(cat, roles[i].grants) || (c in PositionCodes(roles[i].code) && c in t)
  {
    CatalogueRolesExact(grants, rows, tenant, t, cat, roles, i, k);
    IncludedAreCodes(cat, roles[i].grants);
    var codes := SeedCodes(cat, roles[i]);
    if c in t && c in codes { assert t[c].id == t[c].id; }
  }

  lemma HeldByListedRole(grants: set<(int, int)>, rows: seq<RoleRow>, tenant: int, t: Table, nextId: int,
                         cat: seq<Permission>, roles: seq<Role>, i: nat, c: string)
    requires ValidTable(t, nextId) && AllCodes(cat) <= t.Keys
    requires DistinctIds(rows) && DistinctRoles(roles) && i < |roles| && roles[i].code in RoleIds(rows, tenant)
    ensures var ids := RoleIds(rows, tenant);
            c in t && t[c].id in Held(RegrantAll(grants, ids, t, cat, roles), ids[roles[i].code]) <==>
              SeedGrants(cat, t, roles[i], c)
  {
    RoleIdsInjective(rows, tenant);
    RegrantAllHeld(grants, RoleIds(rows, tenant), t, cat, roles, RoleIds(rows, tenant)[roles[i].code]);
    IncludedAreCodes(cat, roles[i].grants);
    var codes := SeedCodes(cat, roles[i]);
    if c in t && t[c].id in IdsOf(t, codes) {
      var d :| d in codes && d in t && t[d].id == t[c].id;
      assert d == c;
    }
  }

  lemma WrittenOnce(ids: map<string, int>, roles: seq<Role>, i: int, j: int, roleId: int)
    requires Injective(ids) && DistinctRoles(roles) && Writes(ids, roles, i, roleId) && Writes(ids, roles, j, roleId)
    ensures i == j
  {}

  /** What any role, of the catalogue or not, holds after reconciliation. */
  lemma HeldIffGrantedBy(grants: set<(int, int)>, rows: seq<RoleRow>, tenant: int, t: Table, nextId: int,
                         cat: seq<Permission>, roles: seq<Role>, roleId: int, c: string)
    requires ValidTable(t, nextId) && AllCodes(cat) <= t.Keys && DistinctIds(rows) && DistinctRoles(roles)
    ensures var ids := RoleIds(rows, tenant);
            c in t && t[c].id in Held(RegrantAll(grants, ids, t, cat, roles), roleId) <==>
              GrantedBy(cat, t, ids, roles, grants, roleId, c)
  {
    var ids := RoleIds(rows, tenant);
    RoleIdsInjective(rows, tenant);
    if Written(ids, roles, roleId) {
      var i :| 0 <= i < |roles| && roles[i].code in ids && ids[roles[i].code] == roleId;
      assert Writes(ids, roles, i, roleId);
      HeldByListedRole(grants, rows, tenant, t, nextId, cat, roles, i, c);
      forall j | Writes(ids, roles, j, roleId) ensures j == i { WrittenOnce(ids, roles, i, j, roleId); }
    } else {
      RegrantAllHeld(grants, ids, t, cat, roles, roleId);
    }
  }

  lemma GrantedIsConcrete(cat: seq<Permission>, t: Table, ids: map<string, int>, roles: seq<Role>,
                          grants: set<(int, int)>, roleId: int, c: string)
    requires WellFormed(cat) && GrantedBy(cat, t, ids, roles, grants, roleId, c) && Written(ids, roles, roleId)
    ensures Concrete(c)
  {
    var i :| Writes(ids, roles, i, roleId) && SeedGrants(cat, t, roles[i], c);
    IncludedAreCodes(cat, roles[i].grants);
    if c in Expansion(cat, roles[i].grants) {
      CodesAreConcrete(cat, c);
    } else {
      PositionCodesAreConcrete(roles[i].code, c);
    }
  }

  /**
   End to end, from any database before the reconciliation: a user with these roles passes the check for a permission
   exactly when the last override that names it grants it or, if none names it, when one of the roles or a delegation
   has it: a catalogue role by its expanded grants or its position, any other role as before. The codes that roles
   outside the catalogue hold, delegated codes and overridden codes must each name one permission.
   */
  lemma PassesIff(before: Table, nextId: int, grants: set<(int, int)>, rows: seq<RoleRow>, tenant: int,
                  cat: seq<Permission>, roles: seq<Role>, mine: set<int>, delegated: seq<string>,
                  overrides: seq<Override>, perms: seq<string>, p: string)
    requires ValidTable(before, nextId) && WellFormed(cat) && DistinctIds(rows) && DistinctRoles(roles) && p != ""
    requires forall c :: c in delegated ==> Concrete(c)
    requires forall i :: 0 <= i < |overrides| ==> Concrete(overrides[i].code)
    requires var t, ids := UpsertAll(before, nextId, cat).0, RoleIds(rows, tenant);
             forall r, c :: r in mine && !Written(ids, roles, r) && KeptGrants(grants, t, r, c) ==> Concrete(c)
    requires var t, ids := UpsertAll(before, nextId, cat).0, RoleIds(rows, tenant);
             var held := RoleCodes(t, RegrantAll(grants, ids, t, cat, roles), mine);
             Elements(perms) == Effective(held + (Elements(delegated) - {""}), overrides)
    ensures var t, ids := UpsertAll(before, nextId, cat).0, RoleIds(rows, tenant);
            Can(perms, p) <==>
              if Mentions(overrides, p) then LastGrants(overrides, p)
              else (exists r :: r in mine && GrantedBy(cat, t, ids, roles, grants, r, p)) || p in delegated
  {
    var (t, next) := UpsertAll(before, nextId, cat);
    var ids := RoleIds(rows, tenant);
    var held := RoleCodes(t, RegrantAll(grants, ids, t, cat, roles), mine);
    UpsertAllTable(before, nextId, cat);
    forall c, r | r in mine
      ensures c in t && t[c].id in Held(RegrantAll(grants, ids, t, cat, roles), r) <==>
                GrantedBy(cat, t, ids, roles, grants, r, c)
    {
      HeldIffGrantedBy(grants, rows, tenant, t, next, cat, roles, r, c);
    }
    forall c | c in held ensures Concrete(c) {
      var r :| r in mine && GrantedBy(cat, t, ids, roles, grants, r, c);
      if Written(ids, roles, r) { GrantedIsConcrete(cat, t, ids, roles, grants, r, c); }
    }
    EffectiveIsChecked(held + (Elements(delegated) - {""}), overrides, perms, p);
  }

  /** Over concrete codes the check passes exactly what is effective. */
  lemma EffectiveIsChecked(base: set<string>, overrides: seq<Override>, perms: seq<string>, p: string)
    requires AllConcrete(base, overrides) && Elements(perms) == Effective(base, overrides) && p != ""
    ensures Can(perms, p) <==> if Mentions(overrides, p) then LastGrants(overrides, p) else p in base
  {
    ConcretePerms(base, overrides, perms);
    CanOnConcreteCodes(perms, p);
    assert p in perms <==> p in Elements(perms);
    LastOverrideDecides(base, overrides, p);
  }
}
