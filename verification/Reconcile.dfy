/** Bringing a tenant's role permissions in line with the catalogue (packages/db/src/seed-data.js). */
module Reconcile {
  import opened Wrappers
  import opened OrderedSets
  import opened Catalogue
  import B = BulkInsert

  /** A role of the catalogue with its grant patterns. */
  datatype Role = Role(code: string, grants: seq<string>)

  /** A row of the roles table. */
  datatype RoleRow = RoleRow(id: int, tenant: int, code: string)

  /** A row of the permissions table, which is keyed by code. */
  datatype PermissionRow = PermissionRow(
    id: int, mod: string, resource: string, action: string, description: string, isSystem: bool)

  type Table = map<string, PermissionRow>

  const UNIVERSAL_EXPENSE_GRANTS := [
    "expenditure.expenses.create", "expenditure.expenses.update",
    "expenditure.expenses.submit", "expenditure.expenses.view_own"]

  const PAYMENT_OPERATIONS_ROLES := {
    "super_administrator", "system_administrator", "cfo", "finance_manager",
    "chief_accountant", "managing_director", "executive_director",
    "general_manager", "operations_director", "procurement_manager", "commercial_director"}

  const PAYMENT_APPROVER_ROLES := {
    "super_administrator", "system_administrator", "cfo", "finance_manager",
    "chief_accountant", "managing_director", "executive_director"}

  const RECONCILIATION_ROLES := {
    "super_administrator", "system_administrator", "chief_accountant",
    "finance_manager", "cfo", "managing_director", "executive_director"}

  const ACCOUNTING_VERIFIER_ROLES := {
    "super_administrator", "system_administrator", "chief_accountant", "finance_manager", "cfo"}

  /** The codes a role gets for its position, besides its own grants. */
  function PositionCodes(code: string): seq<string>
  {
    UNIVERSAL_EXPENSE_GRANTS
    + (if code in PAYMENT_OPERATIONS_ROLES
       then ["expenditure.payments.view", "expenditure.payments.create", "expenditure.payments.post"] else [])
    + (if code in PAYMENT_APPROVER_ROLES then ["expenditure.payments.approve"] else [])
    + (if code in RECONCILIATION_ROLES
       then ["expenditure.payments.reconcile", "expenditure.payments.reconcile_approve"] else [])
    + (if code in ACCOUNTING_VERIFIER_ROLES then ["expenditure.expenses.verify"] else [])
  }

  /** Which roles get which code for their position. */
  lemma PositionCodesIff(role: string, c: string)
    ensures c in PositionCodes(role) <==>
            || c in {"expenditure.expenses.create", "expenditure.expenses.update",
                     "expenditure.expenses.submit", "expenditure.expenses.view_own"}
            || (c in {"expenditure.payments.view", "expenditure.payments.create", "expenditure.payments.post"}
                && role in {"super_administrator", "system_administrator", "cfo", "finance_manager",
                            "chief_accountant", "managing_director", "executive_director", "general_manager",
                            "operations_director", "procurement_manager", "commercial_director"})
            || (c in {"expenditure.payments.approve", "expenditure.payments.reconcile",
                      "expenditure.payments.reconcile_approve"}
                && role in {"super_administrator", "system_administrator", "cfo", "finance_manager",
                            "chief_accountant", "managing_director", "executive_director"})
            || (c == "expenditure.expenses.verify"
                && role in {"super_administrator", "system_administrator", "cfo", "finance_manager",
                            "chief_accountant"})
  {
    assert RECONCILIATION_ROLES == PAYMENT_APPROVER_ROLES;
  }

  function SeedCodes(cat: seq<Permission>, role: Role): set<string>
  {
    Expansion(cat, role.grants) + Elements(PositionCodes(role.code))
  }

  method SeedRolePermissionCodes(cat: seq<Permission>, role: Role) returns (codes: seq<string>)
    ensures NoDup(codes) && Elements(codes) == SeedCodes(cat, role)
  {
    var expanded := ExpandGrants(cat, role.grants);
    codes := AddAll(expanded, PositionCodes(role.code));
  }

  // ------------------------------------------------------------------ the permissions table

  /**
   INSERT ... ON CONFLICT (code) DO UPDATE for one row: a known code keeps its id and its is_system; the sequence
   behind the ids moves on either way.
   */
  function UpsertRow(t: Table, nextId: int, p: Permission, isSystem: bool): (Table, int)
  {
    var (id, flag) := if p.code in t then (t[p.code].id, t[p.code].isSystem) else (nextId, isSystem);
    (t[p.code := PermissionRow(id, p.mod, p.resource, p.action, p.description, flag)], nextId + 1)
  }

  function Upsert(t: Table, nextId: int, p: Permission): (Table, int) { UpsertRow(t, nextId, p, false) }

  function UpsertAll(t: Table, nextId: int, ps: seq<Permission>): (Table, int)
  {
    if ps == [] then (t, nextId)
    else var (u, n) := UpsertAll(t, nextId, ps[..|ps| - 1]); Upsert(u, n, ps[|ps| - 1])
  }

  /** Serial keys: positive, below the next one, and no two codes share one. */
  predicate ValidTable(t: Table, nextId: int)
  {
    && nextId > 0
    && (forall c :: c in t ==> 0 < t[c].id < nextId)
    && (forall c, d :: c in t && d in t && t[c].id == t[d].id ==> c == d)
  }

  predicate DistinctCodes(ps: seq<Permission>) { forall i, j :: 0 <= i < j < |ps| ==> ps[i].code != ps[j].code }

  lemma UpsertOne(t: Table, nextId: int, p: Permission)
    requires ValidTable(t, nextId)
    ensures var (u, n) := Upsert(t, nextId, p);
            && ValidTable(u, n) && n == nextId + 1 && u.Keys == t.Keys + {p.code}
            && (forall c :: c in t ==> u[c].id == t[c].id)
            && (forall c :: c in t && c != p.code ==> u[c] == t[c])
            && forall c :: c in u ==> u[c].isSystem == if c in t then t[c].isSystem else false
  {}

  lemma CodesWithLast(ps: seq<Permission>)
    requires ps != []
    ensures AllCodes(ps) == AllCodes(ps[..|ps| - 1]) + {ps[|ps| - 1].code}
  {
    assert forall i :: 0 <= i < |ps| - 1 ==> ps[..|ps| - 1][i] == ps[i];
  }

  /**
   One table grows into another: exactly the given codes are added, none of them a system permission; ids and system
   flags are kept, and rows of other codes altogether.
   */
  ghost predicate Grows(t: Table, nextId: int, u: Table, n: int, codes: set<string>)
  {
    && ValidTable(u, n) && n >= nextId && u.Keys == t.Keys + codes
    && (forall c :: c in t ==> u[c].id == t[c].id)
    && (forall c :: c in t && c !in codes ==> u[c] == t[c])
    && forall c :: c in u ==> u[c].isSystem == if c in t then t[c].isSystem else false
  }

  lemma UpsertGrows(t: Table, nextId: int, u: Table, n: int, codes: set<string>, p: Permission)
    requires ValidTable(t, nextId) && Grows(t, nextId, u, n, codes)
    ensures var (v, m) := Upsert(u, n, p); Grows(t, nextId, v, m, codes + {p.code})
  {
    UpsertOne(u, n, p);
  }

  lemma {:induction false} UpsertAllTable(t: Table, nextId: int, ps: seq<Permission>)
    requires ValidTable(t, nextId)
    ensures var (u, n) := UpsertAll(t, nextId, ps); Grows(t, nextId, u, n, AllCodes(ps)) && n == nextId + |ps|
  {
    if ps != [] {
      UpsertAllTable(t, nextId, ps[..|ps| - 1]);
      var (u, n) := UpsertAll(t, nextId, ps[..|ps| - 1]);
      UpsertGrows(t, nextId, u, n, AllCodes(ps[..|ps| - 1]), ps[|ps| - 1]);
      CodesWithLast(ps);
    }
  }

  lemma UpsertKeepsValid(t: Table, nextId: int, ps: seq<Permission>)
    requires ValidTable(t, nextId)
    ensures var (u, n) := UpsertAll(t, nextId, ps); ValidTable(u, n)
  {
    UpsertAllTable(t, nextId, ps);
  }

  /** A row that says of its permission what the catalogue says. */
  predicate ReadsAs(row: PermissionRow, p: Permission)
  {
    row == row.(mod := p.mod, resource := p.resource, action := p.action, description := p.description)
  }

  lemma {:induction false} UpsertAllRow(t: Table, nextId: int, ps: seq<Permission>, i: nat)
    requires i < |ps| && DistinctCodes(ps)
    ensures var u := UpsertAll(t, nextId, ps).0; ps[i].code in u && ReadsAs(u[ps[i].code], ps[i])
  {
    if i + 1 < |ps| {
      UpsertAllRow(t, nextId, ps[..|ps| - 1], i);
    }
  }

  /** A row that already reads as the permission does is left as it is. */
  lemma {:induction false} UpsertSettled(t: Table, nextId: int, ps: seq<Permission>)
    requires forall i :: 0 <= i < |ps| ==> ps[i].code in t && ReadsAs(t[ps[i].code], ps[i])
    ensures UpsertAll(t, nextId, ps).0 == t
  {
    if ps != [] {
      UpsertSettled(t, nextId, ps[..|ps| - 1]);
      var p := ps[|ps| - 1];
      assert t[p.code := t[p.code]] == t;
    }
  }

  /** The second upsert of the same catalogue changes no row, whatever ids the sequence has used up. */
  lemma UpsertConverges(t: Table, nextId: int, ps: seq<Permission>)
    requires DistinctCodes(ps)
    ensures var (u, n) := UpsertAll(t, nextId, ps); UpsertAll(u, n, ps).0 == u
  {
    var (u, n) := UpsertAll(t, nextId, ps);
    forall i | 0 <= i < |ps| ensures ps[i].code in u && ReadsAs(u[ps[i].code], ps[i]) {
      UpsertAllRow(t, nextId, ps, i);
    }
    UpsertSettled(u, n, ps);
  }

  lemma {:induction false} UpsertInTwo(t: Table, nextId: int, a: seq<Permission>, b: seq<Permission>)
    ensures UpsertAll(t, nextId, a + b) == UpsertAll(UpsertAll(t, nextId, a).0, UpsertAll(t, nextId, a).1, b)
  {
    if b == [] {
      assert a + b == a;
    } else {
      UpsertInTwo(t, nextId, a, b[..|b| - 1]);
      assert (a + b)[..|a + b| - 1] == a + b[..|b| - 1];
    }
  }

  // ------------------------------------------------------------------ what the statements carry

  const PERMISSION_COLUMNS := ["code", "module", "resource", "action", "description", "is_system"]

  /** What a permission row is made of. */
  datatype Cell = Undefined | Text(s: string) | Flag(b: bool)

  function PermissionRecord(p: Permission): B.Record<Cell>
  {
    [("code", Text(p.code)), ("module", Text(p.mod)), ("resource", Text(p.resource)), ("action", Text(p.action)),
     ("description", Text(p.description)), ("is_system", Flag(false))]
  }

  /** Neither text nor a flag needs JSON encoding. */
  function Plain(c: Cell): Cell { c }

  function TextOf(c: Cell): string { if c.Text? then c.s else "" }

  function Key(id: int): int { id }

  /** A permission travels through its numbered row unchanged. */
  lemma PermissionTravels(p: Permission)
    ensures B.Tuple(PermissionRecord(p), PERMISSION_COLUMNS, Undefined, Plain) ==
            [Text(p.code), Text(p.mod), Text(p.resource), Text(p.action), Text(p.description), Flag(false)]
  {
    var r := PermissionRecord(p);
    var t := B.Tuple(r, PERMISSION_COLUMNS, Undefined, Plain);
    forall i | 0 <= i < 6 ensures t[i] == r[i].1 {
      assert PERMISSION_COLUMNS[i] == r[i].0;
      B.LookupHere(r, i, Undefined);
      assert t[i] == Plain(B.Lookup(r, PERMISSION_COLUMNS[i], Undefined));
    }
  }

  function PermissionRecords(ps: seq<Permission>): (r: seq<B.Record<Cell>>)
    ensures |r| == |ps|
  {
    seq(|ps|, i requires 0 <= i < |ps| => PermissionRecord(ps[i]))
  }

  /** What the database does with the rows of an upsert statement. */
  function ExecuteUpsert(t: Table, nextId: int, rows: seq<seq<Cell>>): (Table, int)
    requires B.Rectangular(rows, 6)
  {
    if rows == [] then (t, nextId)
    else
      var (u, n) := ExecuteUpsert(t, nextId, rows[..|rows| - 1]);
      var r := rows[|rows| - 1];
      var p := Permission(TextOf(r[0]), TextOf(r[1]), TextOf(r[2]), TextOf(r[3]), TextOf(r[4]));
      UpsertRow(u, n, p, r[5] == Flag(true))
  }

  lemma {:induction false} StatementUpserts(t: Table, nextId: int, ps: seq<Permission>)
    ensures var rows := B.Tuples(PermissionRecords(ps), PERMISSION_COLUMNS, Undefined, Plain);
            ExecuteUpsert(t, nextId, rows) == UpsertAll(t, nextId, ps)
  {
    var rows := B.Tuples(PermissionRecords(ps), PERMISSION_COLUMNS, Undefined, Plain);
    if ps != [] {
      var n := |ps| - 1;
      StatementUpserts(t, nextId, ps[..n]);
      assert rows[..n] == B.Tuples(PermissionRecords(ps[..n]), PERMISSION_COLUMNS, Undefined, Plain);
      PermissionTravels(ps[n]);
    }
  }

  /** The record of one role permission, and the pair it inserts. */
  function GrantRecord(roleId: int, permissionId: int): B.Record<int>
  {
    [("role_id", roleId), ("permission_id", permissionId)]
  }

  function GrantRecords(roleId: int, ids: seq<int>): (r: seq<B.Record<int>>)
    ensures |r| == |ids|
  {
    seq(|ids|, i requires 0 <= i < |ids| => GrantRecord(roleId, ids[i]))
  }

  function ExecuteGrants(rows: seq<seq<int>>): set<(int, int)>
    requires B.Rectangular(rows, 2)
  {
    set i | 0 <= i < |rows| :: (rows[i][0], rows[i][1])
  }

  /** No two rows of the statement would collide on the primary key. */
  predicate DistinctRows(rows: seq<seq<int>>) { forall i, j :: 0 <= i < j < |rows| ==> rows[i] != rows[j] }

  lemma GrantTravels(roleId: int, id: int)
    ensures B.Columns(GrantRecord(roleId, id)) == ["role_id", "permission_id"]
    ensures B.Tuple(GrantRecord(roleId, id), ["role_id", "permission_id"], 0, Key) == [roleId, id]
  {
    var r := GrantRecord(roleId, id);
    B.LookupHere(r, 0, 0);
    B.LookupHere(r, 1, 0);
    var t := B.Tuple(r, ["role_id", "permission_id"], 0, Key);
    assert t[0] == roleId && t[1] == id;
  }

  lemma StatementGrants(roleId: int, ids: seq<int>)
    requires ids != [] && NoDup(ids)
    ensures var rows := B.Tuples(GrantRecords(roleId, ids), B.Columns(GrantRecord(roleId, ids[0])), 0, Key);
            && B.Rectangular(rows, 2) && DistinctRows(rows)
            && ExecuteGrants(rows) == set id | id in ids :: (roleId, id)
  {
    GrantTravels(roleId, ids[0]);
    var rows := B.Tuples(GrantRecords(roleId, ids), B.Columns(GrantRecord(roleId, ids[0])), 0, Key);
    forall i | 0 <= i < |ids| ensures rows[i] == [roleId, ids[i]] { GrantTravels(roleId, ids[i]); }
  }

  // ------------------------------------------------------------------ roles

  /** The role a catalogue code refers to: with several rows of one code the last one read. */
  function RoleIds(roles: seq<RoleRow>, tenant: int): map<string, int>
  {
    if roles == [] then map[]
    else
      var n := |roles| - 1;
      var before := RoleIds(roles[..n], tenant);
      if roles[n].tenant == tenant then before[roles[n].code := roles[n].id] else before
  }

  function IdsOf(t: Table, codes: set<string>): set<int> { set c | c in codes && c in t :: t[c].id }

  /** The permissions of one role. */
  function Held(grants: set<(int, int)>, roleId: int): set<int> { set g | g in grants && g.0 == roleId :: g.1 }

  function Others(grants: set<(int, int)>, roleId: int): set<(int, int)> { set g | g in grants && g.0 != roleId }

  /** One pass of the role loop. */
  function Regrant(grants: set<(int, int)>, ids: map<string, int>, t: Table, cat: seq<Permission>, role: Role)
    : set<(int, int)>
  {
    if role.code !in ids then grants
    else
      var roleId := ids[role.code];
      Others(grants, roleId) + set id | id in IdsOf(t, SeedCodes(cat, role)) :: (roleId, id)
  }

  function RegrantAll(grants: set<(int, int)>, ids: map<string, int>, t: Table, cat: seq<Permission>, roles: seq<Role>)
    : set<(int, int)>
  {
    if roles == [] then grants
    else Regrant(RegrantAll(grants, ids, t, cat, roles[..|roles| - 1]), ids, t, cat, roles[|roles| - 1])
  }

  /** How many permissions the role loop hands out. */
  function GrantedTo(ids: map<string, int>, t: Table, cat: seq<Permission>, roles: seq<Role>): nat
  {
    if roles == [] then 0
    else
      var n := |roles| - 1;
      GrantedTo(ids, t, cat, roles[..n]) + if roles[n].code in ids then |IdsOf(t, SeedCodes(cat, roles[n]))| else 0
  }

  predicate DistinctRoles(roles: seq<Role>) { forall i, j :: 0 <= i < j < |roles| ==> roles[i].code != roles[j].code }

  predicate DistinctIds(rows: seq<RoleRow>) { forall i, j :: 0 <= i < j < |rows| ==> rows[i].id != rows[j].id }

  predicate Injective(ids: map<string, int>) { forall c, d :: c in ids && d in ids && ids[c] == ids[d] ==> c == d }

  lemma {:induction false} RoleIdsInjective(rows: seq<RoleRow>, tenant: int)
    requires DistinctIds(rows)
    ensures var ids := RoleIds(rows, tenant);
            && (forall c :: c in ids ==> exists i :: 0 <= i < |rows| && rows[i] == RoleRow(ids[c], tenant, c))
            && Injective(ids)
  {
    if rows != [] {
      var n := |rows| - 1;
      RoleIdsInjective(rows[..n], tenant);
      var ids := RoleIds(rows, tenant);
      forall c | c in ids ensures exists i :: 0 <= i < |rows| && rows[i] == RoleRow(ids[c], tenant, c) {
        if rows[n].tenant == tenant && rows[n].code == c {
          assert rows[n] == RoleRow(ids[c], tenant, c);
        } else {
          assert c in RoleIds(rows[..n], tenant) && ids[c] == RoleIds(rows[..n], tenant)[c];
          var i :| 0 <= i < |rows[..n]| && rows[..n][i] == RoleRow(ids[c], tenant, c);
          assert rows[i] == RoleRow(ids[c], tenant, c);
        }
      }
    }
  }

  /** No later row of the tenant has the same code; with one row per code that is any row of the tenant. */
  predicate LastRowOf(rows: seq<RoleRow>, tenant: int, k: nat)
  {
    && k < |rows| && rows[k].tenant == tenant
    && forall j :: k < j < |rows| && rows[j].tenant == tenant ==> rows[j].code != rows[k].code
  }

  /** A code has an entry exactly if the tenant has a row of it, and the entry is the last such row. */
  lemma {:induction false} RoleIdsAreLastRows(rows: seq<RoleRow>, tenant: int, c: string)
    ensures c in RoleIds(rows, tenant) <==>
            exists k :: 0 <= k < |rows| && rows[k].tenant == tenant && rows[k].code == c
    ensures forall k: nat :: LastRowOf(rows, tenant, k) && rows[k].code == c ==> RoleIds(rows, tenant)[c] == rows[k].id
  {
    if rows != [] {
      var n := |rows| - 1;
      RoleIdsAreLastRows(rows[..n], tenant, c);
      if c in RoleIds(rows[..n], tenant) {
        var k :| 0 <= k < n && rows[..n][k].tenant == tenant && rows[..n][k].code == c;
        assert rows[k].code == c;
      }
      forall k: nat | LastRowOf(rows, tenant, k) && rows[k].code == c
        ensures RoleIds(rows, tenant)[c] == rows[k].id
      {
        if k < n {
          assert rows[..n][k] == rows[k];
          assert LastRowOf(rows[..n], tenant, k);
        }
      }
    }
  }

  /** Whether some role of the list writes this role row. */
  predicate Written(ids: map<string, int>, roles: seq<Role>, roleId: int)
  {
    exists i :: 0 <= i < |roles| && roles[i].code in ids && ids[roles[i].code] == roleId
  }

  lemma RegrantHeld(grants: set<(int, int)>, ids: map<string, int>, t: Table, cat: seq<Permission>, role: Role,
                    roleId: int)
    ensures Held(Regrant(grants, ids, t, cat, role), roleId) ==
            if role.code in ids && ids[role.code] == roleId then IdsOf(t, SeedCodes(cat, role))
            else Held(grants, roleId)
  {
    var wanted := IdsOf(t, SeedCodes(cat, role));
    if role.code in ids {
      var fresh_ := set id | id in wanted :: (ids[role.code], id);
      var r := Regrant(grants, ids, t, cat, role);
      forall id ensures id in Held(r, roleId) <==> (roleId, id) in r {
        if (roleId, id) in r { assert (roleId, id).1 == id; }
      }
      forall id ensures id in Held(grants, roleId) <==> (roleId, id) in grants {
        if (roleId, id) in grants { assert (roleId, id).1 == id; }
      }
      assert forall id :: (ids[role.code], id) in fresh_ <==> id in wanted;
    }
  }

  /** After the loop each catalogue role holds its own codes, and any other role what it held before. */
  lemma {:induction false} RegrantAllHeld(grants: set<(int, int)>, ids: map<string, int>, t: Table,
                                         cat: seq<Permission>, roles: seq<Role>, roleId: int)
    requires Injective(ids) && DistinctRoles(roles)
    ensures var after := Held(RegrantAll(grants, ids, t, cat, roles), roleId);
            && (!Written(ids, roles, roleId) ==> after == Held(grants, roleId))
            && (forall i :: 0 <= i < |roles| && roles[i].code in ids && ids[roles[i].code] == roleId ==>
                  after == IdsOf(t, SeedCodes(cat, roles[i])))
  {
    if roles != [] {
      var n := |roles| - 1;
      var short := roles[..n];
      RegrantAllHeld(grants, ids, t, cat, short, roleId);
      RegrantHeld(RegrantAll(grants, ids, t, cat, short), ids, t, cat, roles[n], roleId);
      assert forall i :: 0 <= i < n ==> short[i] == roles[i];
      if Written(ids, short, roleId) {
        var i :| 0 <= i < |short| && short[i].code in ids && ids[short[i].code] == roleId;
        assert roles[i].code in ids && ids[roles[i].code] == roleId;
      }
    }
  }

  lemma HeldDetermines(a: set<(int, int)>, b: set<(int, int)>)
    requires forall r :: Held(a, r) == Held(b, r)
    ensures a == b
  {
    forall g ensures g in a <==> g in b {
      assert Held(a, g.0) == Held(b, g.0);
      assert g in a ==> g.1 in Held(a, g.0);
      assert g in b ==> g.1 in Held(b, g.0);
    }
  }

  /** A second pass over the roles changes nothing. */
  lemma RegrantConverges(grants: set<(int, int)>, ids: map<string, int>, t: Table, cat: seq<Permission>,
                         roles: seq<Role>)
    requires Injective(ids) && DistinctRoles(roles)
    ensures var once := RegrantAll(grants, ids, t, cat, roles); RegrantAll(once, ids, t, cat, roles) == once
  {
    var once := RegrantAll(grants, ids, t, cat, roles);
    var twice := RegrantAll(once, ids, t, cat, roles);
    forall r ensures Held(twice, r) == Held(once, r) {
      RegrantAllHeld(grants, ids, t, cat, roles, r);
      RegrantAllHeld(once, ids, t, cat, roles, r);
    }
    HeldDetermines(twice, once);
  }

  /** The pairs of role rows that the list writes. */
  function OfWritten(grants: set<(int, int)>, ids: map<string, int>, roles: seq<Role>): set<(int, int)>
  {
    set g | g in grants && Written(ids, roles, g.0)
  }

  lemma {:induction false} PairCount(roleId: int, ids: set<int>)
    ensures |set id | id in ids :: (roleId, id)| == |ids|
    decreases |ids|
  {
    if |ids| > 0 {
      var x := Any(ids);
      PairCount(roleId, ids - {x});
      var rest := set id | id in ids - {x} :: (roleId, id);
      assert (set id | id in ids :: (roleId, id)) == rest + {(roleId, x)};
      assert (roleId, x) !in rest;
    }
  }

  lemma WrittenNext(ids: map<string, int>, roles: seq<Role>, n: nat, roleId: int)
    requires |roles| == n + 1
    ensures Written(ids, roles, roleId) <==>
            Written(ids, roles[..n], roleId) || (roles[n].code in ids && ids[roles[n].code] == roleId)
  {
    if Written(ids, roles[..n], roleId) {
      var i :| 0 <= i < n && roles[..n][i].code in ids && ids[roles[..n][i].code] == roleId;
      assert roles[i].code in ids;
    }
  }

  lemma WrittenPairsNext(grants: set<(int, int)>, ids: map<string, int>, t: Table, cat: seq<Permission>,
                         roles: seq<Role>, n: nat)
    requires Injective(ids) && DistinctRoles(roles) && |roles| == n + 1
    ensures var after := OfWritten(Regrant(grants, ids, t, cat, roles[n]), ids, roles);
            |after| == |OfWritten(grants, ids, roles[..n])|
              + if roles[n].code in ids then |IdsOf(t, SeedCodes(cat, roles[n]))| else 0
  {
    hide Written, SeedCodes, IdsOf;
    var before := OfWritten(grants, ids, roles[..n]);
    var after := OfWritten(Regrant(grants, ids, t, cat, roles[n]), ids, roles);
    forall r ensures Written(ids, roles, r) <==>
        Written(ids, roles[..n], r) || (roles[n].code in ids && ids[roles[n].code] == r)
    {
      WrittenNext(ids, roles, n, r);
    }
    if roles[n].code in ids {
      var roleId, wanted := ids[roles[n].code], IdsOf(t, SeedCodes(cat, roles[n]));
      assert !Written(ids, roles[..n], roleId) by { NotWrittenYet(ids, roles, n); }
      PairCount(roleId, wanted);
      var fresh_ := set id | id in wanted :: (roleId, id);
      assert after == before + fresh_;
      assert before !! fresh_;
    } else {
      assert after == before;
    }
  }

  lemma NotWrittenYet(ids: map<string, int>, roles: seq<Role>, n: nat)
    requires Injective(ids) && DistinctRoles(roles) && |roles| == n + 1 && roles[n].code in ids
    ensures !Written(ids, roles[..n], ids[roles[n].code])
  {}

  /** What the loop counts is what the rows it writes hold in the end. */
  lemma {:induction false} CountedIsHeld(grants: set<(int, int)>, ids: map<string, int>, t: Table,
                                        cat: seq<Permission>, roles: seq<Role>)
    requires Injective(ids) && DistinctRoles(roles)
    ensures GrantedTo(ids, t, cat, roles) == |OfWritten(RegrantAll(grants, ids, t, cat, roles), ids, roles)|
  {
    if roles != [] {
      var n := |roles| - 1;
      CountedIsHeld(grants, ids, t, cat, roles[..n]);
      WrittenPairsNext(RegrantAll(grants, ids, t, cat, roles[..n]), ids, t, cat, roles, n);
    }
  }

  /** One turn of the batch loop is one more batch. */
  lemma BatchNext(sent: seq<seq<Permission>>, perms: seq<Permission>, i: nat, end: nat)
    requires i < |perms| && end == if i + 200 <= |perms| then i + 200 else |perms|
    ensures sent + B.Batches(perms[i..], 200) == sent + [perms[i..end]] + B.Batches(perms[end..], 200)
    ensures perms[..end] == perms[..i] + perms[i..end]
  {
    if end < |perms| {
      assert perms[i..][..200] == perms[i..end] && perms[i..][200..] == perms[end..];
    } else {
      assert perms[i..end] == perms[i..] && perms[end..] == [];
    }
  }

  lemma {:induction false} CountElements(ids: seq<int>)
    requires NoDup(ids)
    ensures |Elements(ids)| == |ids|
  {
    if ids != [] {
      var n := |ids| - 1;
      CountElements(ids[..n]);
      ElementsNext(ids, n);
      assert ids[..n + 1] == ids && ids[n] !in Elements(ids[..n]);
    }
  }

  // ------------------------------------------------------------------ the pass

  class RbacDb {
    var permissions: Table
    var nextId: int
    var roles: seq<RoleRow>
    var grants: set<(int, int)>

    ghost predicate Valid()
      reads this
    {
      ValidTable(permissions, nextId) && DistinctIds(roles) && forall i :: 0 <= i < |roles| ==> roles[i].id > 0
    }

    constructor (permissions: Table, nextId: int, roles: seq<RoleRow>, grants: set<(int, int)>)
      requires ValidTable(permissions, nextId) && DistinctIds(roles) && forall i :: 0 <= i < |roles| ==> roles[i].id > 0
      ensures Valid() && this.permissions == permissions && this.roles == roles && this.grants == grants
    {
      this.permissions, this.nextId, this.roles, this.grants := permissions, nextId, roles, grants;
    }

    /** One statement: numbered rows, each inserted or, when its code is known, updated. */
    method UpsertBatch(slice: seq<Permission>)
      requires Valid()
      modifies this`permissions, this`nextId
      ensures Valid()
      ensures (permissions, nextId) == UpsertAll(old(permissions), old(nextId), slice)
    {
      hide Grows, ValidTable, ExecuteUpsert, UpsertAll;
      ghost var tuples := B.Tuples(PermissionRecords(slice), PERMISSION_COLUMNS, Undefined, Plain);
      var stmt := B.Number(PermissionRecords(slice), PERMISSION_COLUMNS, Undefined, Plain);
      B.NumberingBindsRows(tuples, 6);
      StatementUpserts(permissions, nextId, slice);
      UpsertKeepsValid(permissions, nextId, slice);
      var result := ExecuteUpsert(permissions, nextId, B.Bound(stmt));
      permissions, nextId := result.0, result.1;
    }

    /** The catalogue goes in by batches of 200; `sent` lists them. */
    method UpsertPermissions(perms: seq<Permission>) returns (sent: seq<seq<Permission>>)
      requires Valid()
      modifies this`permissions, this`nextId
      ensures Valid()
      ensures (permissions, nextId) == UpsertAll(old(permissions), old(nextId), perms)
      ensures sent == B.Batches(perms, 200)
    {
      var i := 0;
      sent := [];
      assert perms[0..] == perms;
      while i < |perms|
        invariant i <= |perms| && Valid() && sent + B.Batches(perms[i..], 200) == B.Batches(perms, 200)
        invariant (permissions, nextId) == UpsertAll(old(permissions), old(nextId), perms[..i])
      {
        var end := if i + 200 <= |perms| then i + 200 else |perms|;
        UpsertBatch(perms[i..end]);
        BatchNext(sent, perms, i, end);
        sent := sent + [perms[i..end]];
        UpsertInTwo(old(permissions), old(nextId), perms[..i], perms[i..end]);
        i := end;
      }
      assert perms[..|perms|] == perms;
    }

    /** roleIdByCode, filled row by row. */
    method ReadRoles(tenant: int) returns (ids: map<string, int>)
      ensures ids == RoleIds(roles, tenant)
    {
      ids := map[];
      for i := 0 to |roles|
        invariant ids == RoleIds(roles[..i], tenant)
      {
        assert roles[..i + 1][..i] == roles[..i];
        if roles[i].tenant == tenant {
          ids := ids[roles[i].code := roles[i].id];
        }
      }
      assert roles[..|roles|] == roles;
    }

    /** The known codes of a role as permission ids, one each. */
    method KnownIds(codes: seq<string>) returns (ids: seq<int>)
      requires NoDup(codes) && Valid()
      ensures NoDup(ids) && Elements(ids) == IdsOf(permissions, Elements(codes))
    {
      ids := [];
      for i := 0 to |codes|
        invariant NoDup(ids) && Elements(ids) == IdsOf(permissions, Elements(codes[..i]))
      {
        ElementsNext(codes, i);
        assert codes[i] !in Elements(codes[..i]);
        if codes[i] in permissions {
          var id := permissions[codes[i]].id;
          assert id !in Elements(ids);
          ElementsOfSum(ids, [id]);
          ids := ids + [id];
        }
      }
      assert codes[..|codes|] == codes;
    }

    /** INSERT into a table keyed by (role, permission): a row twice or already there would be an error. */
    method InsertGrants(rows: seq<seq<int>>)
      requires B.Rectangular(rows, 2) && DistinctRows(rows)
      requires ExecuteGrants(rows) * grants == {}
      modifies this`grants
      ensures grants == old(grants) + ExecuteGrants(rows)
    {
      grants := grants + ExecuteGrants(rows);
    }

    /** DELETE then one bulk INSERT. */
    method ReplaceGrants(roleId: int, ids: seq<int>)
      requires NoDup(ids)
      modifies this`grants
      ensures grants == Others(old(grants), roleId) + set id | id in ids :: (roleId, id)
    {
      grants := Others(grants, roleId);
      if ids != [] {
        var records := GrantRecords(roleId, ids);
        var sent := B.BulkInsert(records, 0, Key);
        StatementGrants(roleId, ids);
        InsertGrants(B.Bound(sent.stmt));
      }
    }

    method ReconcileRbac(perms: seq<Permission>, catalogue: seq<Role>, tenant: int)
      returns (upserted: nat, granted: nat)
      requires Valid()
      modifies this`permissions, this`nextId, this`grants
      ensures Valid()
      ensures (permissions, nextId) == UpsertAll(old(permissions), old(nextId), perms)
      ensures grants == RegrantAll(old(grants), RoleIds(roles, tenant), permissions, perms, catalogue)
      ensures upserted == |perms| && granted == GrantedTo(RoleIds(roles, tenant), permissions, perms, catalogue)
    {
      var _ := UpsertPermissions(perms);
      var ids := ReadRoles(tenant);
      upserted, granted := |perms|, 0;
      for i := 0 to |catalogue|
        invariant Valid()
        invariant (permissions, nextId) == UpsertAll(old(permissions), old(nextId), perms)
        invariant grants == RegrantAll(old(grants), ids, permissions, perms, catalogue[..i])
        invariant upserted == |perms| && granted == GrantedTo(ids, permissions, perms, catalogue[..i])
      {
        assert catalogue[..i + 1][..i] == catalogue[..i];
        var role := catalogue[i];
        if role.code !in ids {
          continue;
        }
        var codes := SeedRolePermissionCodes(perms, role);
        var known := KnownIds(codes);
        ReplaceGrants(ids[role.code], known);
        CountElements(known);
        granted := granted + |known|;
        assert forall id :: id in known <==> id in IdsOf(permissions, SeedCodes(perms, role));
      }
      assert catalogue[..|catalogue|] == catalogue;
    }
  }

  /** From any prior contents every row of a catalogue role ends with exactly the permissions computed for the role. */
  lemma CatalogueRolesExact(grants: set<(int, int)>, rows: seq<RoleRow>, tenant: int, t: Table, cat: seq<Permission>,
                            roles: seq<Role>, i: nat, k: nat)
    requires DistinctIds(rows) && DistinctRoles(roles) && i < |roles|
    requires LastRowOf(rows, tenant, k) && rows[k].code == roles[i].code
    ensures forall id :: (rows[k].id, id) in RegrantAll(grants, RoleIds(rows, tenant), t, cat, roles) <==>
              exists c :: c in SeedCodes(cat, roles[i]) && c in t && t[c].id == id
  {
    var after := RegrantAll(grants, RoleIds(rows, tenant), t, cat, roles);
    RoleIdsInjective(rows, tenant);
    RoleIdsAreLastRows(rows, tenant, roles[i].code);
    RegrantAllHeld(grants, RoleIds(rows, tenant), t, cat, roles, rows[k].id);
    forall id ensures id in Held(after, rows[k].id) <==> (rows[k].id, id) in after {
      if (rows[k].id, id) in after { assert (rows[k].id, id).1 == id; }
    }
  }

  lemma WrittenRowIsListed(rows: seq<RoleRow>, tenant: int, roles: seq<Role>, k: nat)
    requires DistinctIds(rows) && k < |rows|
    ensures Written(RoleIds(rows, tenant), roles, rows[k].id) ==>
              rows[k].tenant == tenant && exists i :: 0 <= i < |roles| && roles[i].code == rows[k].code
  {
    var ids := RoleIds(rows, tenant);
    RoleIdsInjective(rows, tenant);
    if Written(ids, roles, rows[k].id) {
      var i :| 0 <= i < |roles| && roles[i].code in ids && ids[roles[i].code] == rows[k].id;
      var code := roles[i].code;
      var j :| 0 <= j < |rows| && rows[j] == RoleRow(ids[code], tenant, code);
      assert j == k;
    }
  }

  /** A role of another tenant, or one the catalogue does not list, keeps what it had. */
  lemma OtherRolesUntouched(grants: set<(int, int)>, rows: seq<RoleRow>, tenant: int, t: Table, cat: seq<Permission>,
                            roles: seq<Role>, k: nat)
    requires DistinctIds(rows) && DistinctRoles(roles) && k < |rows|
    requires rows[k].tenant != tenant || forall i :: 0 <= i < |roles| ==> roles[i].code != rows[k].code
    ensures Held(RegrantAll(grants, RoleIds(rows, tenant), t, cat, roles), rows[k].id) == Held(grants, rows[k].id)
  {
    RoleIdsInjective(rows, tenant);
    WrittenRowIsListed(rows, tenant, roles, k);
    RegrantAllHeld(grants, RoleIds(rows, tenant), t, cat, roles, rows[k].id);
  }

  /** Running the whole reconciliation again changes no permission row and no grant. */
  lemma ReconcileConverges(t: Table, nextId: int, grants: set<(int, int)>, rows: seq<RoleRow>, tenant: int,
                           perms: seq<Permission>, roles: seq<Role>)
    requires DistinctCodes(perms) && DistinctIds(rows) && DistinctRoles(roles)
    ensures var (u, n) := UpsertAll(t, nextId, perms);
            var after := RegrantAll(grants, RoleIds(rows, tenant), u, perms, roles);
            UpsertAll(u, n, perms).0 == u && RegrantAll(after, RoleIds(rows, tenant), u, perms, roles) == after
  {
    UpsertConverges(t, nextId, perms);
    RoleIdsInjective(rows, tenant);
    RegrantConverges(grants, RoleIds(rows, tenant), UpsertAll(t, nextId, perms).0, perms, roles);
  }
}
