/**
A tenant override leaves no trace: setting one and deleting it later, with any other
transactions in between, gives the store that those transactions alone would have given,
row for row. Only the ids drawn differ by one, if the override's row was new.
*/
module Overrides {
  import opened Common
  import opened Rows
  import opened Resolution
  import opened Assignments
  import opened Registry
  import opened RoleStore

  /** The transaction writes to the override itself, or creates or deletes it. */
  predicate Concerns(db: Db, op: Op, tenant: Id, application: Id, name: string) {
    match op
    case SetRolePermissionsOp(r, _) => r in RoleIds(db.roles, Some(tenant), Some(application), name)
    case SetOverrideOp(t, a, n, _) => t == tenant && a == application && n == name
    case DeleteOverrideOp(t, a, n) => t == tenant && a == application && n == name
    case CreateRoleOp(n, t, a) => t == Some(tenant) && a == Some(application) && n == name
    case _ => false
  }

  /** The store with override o gone and its holders given the default role d. */
  function Without(db: Db, o: Id, d: Id): Db {
    db.(memberRoles := Handover(db.memberRoles, {o}, {d}), agentRoles := Handover(db.agentRoles, {o}, {d}),
        rolePermissions := (set l | l in db.rolePermissions && l.0 != o), roles := db.roles - {o})
  }

  /** o is a tenant's role and d the application-wide role of the same name. */
  predicate OverrideOf(roles: map<Id, Role>, o: Id, d: Id) {
    && o in roles && d in roles && roles[o].tenant.Some? && roles[o].application.Some?
    && roles[o].agent.None? && NamedRole(roles[d], None, roles[o].application, roles[o].name)
  }

  lemma DeletedIsWithout(db: Db, tenant: Id, application: Id, name: string, o: Id, d: Id)
    requires UniqueRoleNames(db.roles) && OverrideOf(db.roles, o, d)
    requires NamedRole(db.roles[o], Some(tenant), Some(application), name)
    ensures DeleteOverride(db, tenant, application, name) == Without(db, o, d)
  {
    assert RoleIds(db.roles, Some(tenant), Some(application), name) == {o};
    assert RoleIds(db.roles, None, Some(application), name) == {d};
    OneOverride(db, tenant, application, name, o, {d});
  }

  // ---- Names resolve to the default instead ----

  lemma NamedWithout(roles: map<Id, Role>, o: Id, tenant: Option<Id>, application: Option<Id>, name: string)
    requires UniqueRoleNames(roles) && o in roles && !NamedRole(roles[o], tenant, application, name)
    ensures HasNamedRole(roles - {o}, tenant, application, name) <==> HasNamedRole(roles, tenant, application, name)
    ensures RoleIds(roles - {o}, tenant, application, name) == RoleIds(roles, tenant, application, name)
  {
    if r :| r in roles && NamedRole(roles[r], tenant, application, name) {
      assert r in roles - {o};
    }
  }

  /** Where the override was assignable, the default is now; nothing else changes. */
  lemma AssignableWithout(roles: map<Id, Role>, o: Id, d: Id, tenant: Option<Id>, application: Option<Id>, r: Id)
    requires UniqueRoleNames(roles) && OverrideOf(roles, o, d) && r in roles && r != o
    ensures Assignable(roles - {o}, tenant, application, r) <==>
            Assignable(roles, tenant, application, r) || (r == d && Assignable(roles, tenant, application, o))
  {
    if r == d && Assignable(roles, tenant, application, o) {
      assert !HasNamedRole(roles - {o}, tenant, application, roles[r].name);
    } else if !NamedRole(roles[o], tenant, application, roles[r].name) {
      NamedWithout(roles, o, tenant, application, roles[r].name);
    }
  }

  lemma AssignableIdsWithout(roles: map<Id, Role>, o: Id, d: Id, tenant: Option<Id>, application: Option<Id>, names: set<string>)
    requires UniqueRoleNames(roles) && OverrideOf(roles, o, d)
    ensures var ids, ids' := AssignableIds(roles, tenant, application, names), AssignableIds(roles - {o}, tenant, application, names);
            && (forall r :: r in ids' <==> r != o && (r in ids || (r == d && o in ids)))
            && NamesOf(roles - {o}, ids') == NamesOf(roles, ids)
  {
    var ids, ids' := AssignableIds(roles, tenant, application, names), AssignableIds(roles - {o}, tenant, application, names);
    forall r ensures r in ids' <==> r != o && (r in ids || (r == d && o in ids)) {
      if r in roles && r != o {
        AssignableWithout(roles, o, d, tenant, application, r);
      }
    }
    forall n ensures n in NamesOf(roles - {o}, ids') <==> n in NamesOf(roles, ids) {
      if r :| r in ids && r in roles && roles[r].agent.None? && roles[r].name == n {
        assert (if r == o then d else r) in ids';
      }
    }
  }

  lemma HandoverOfReplaced(links: Links, owner: Id, ids: set<Id>, ids': set<Id>, o: Id, d: Id)
    requires forall r :: r in ids' <==> r != o && (r in ids || (r == d && o in ids))
    ensures Handover(Replace(links, owner, ids), {o}, {d}) == Replace(Handover(links, {o}, {d}), owner, ids')
  {
    forall l: (Id, Id) ensures l in Handover(Replace(links, owner, ids), {o}, {d}) <==> l in Replace(Handover(links, {o}, {d}), owner, ids') {
      assert l == (l.0, l.1);
      assert (exists x :: x in {o} && (l.0, x) in Replace(links, owner, ids)) <==> (l.0, o) in Replace(links, owner, ids);
      assert (exists x :: x in {o} && (l.0, x) in links) <==> (l.0, o) in links;
    }
  }

  // ---- Each transaction ----

  lemma RegistrationWithout(db: Db, op: Op, o: Id, d: Id)
    requires Registers(op)
    ensures Outcome(Without(db, o, d), op) == Without(Outcome(db, op), o, d)
  {
    match op
    case CreateTenantOp(slug, name, status) => TenantWithout(db, slug, name, status, o, d);
    case CreateApplicationOp(slug, name, status, managedBy) => ApplicationWithout(db, slug, name, status, managedBy, o, d);
    case SetManagerOp(a, managedBy) =>
    case UpsertUserOp(userRef, displayName, email) =>
    case CreatePermissionOp(name, a) => PermissionWithout(db, name, a, o, d);
  }

  lemma TenantWithout(db: Db, slug: string, name: string, status: string, o: Id, d: Id)
    ensures Committed(Without(db, o, d), CreateTenant(Without(db, o, d), slug, name, status))
            == Without(Committed(db, CreateTenant(db, slug, name, status)), o, d)
  {
    if CreateTenant(db, slug, name, status).Ok? {
      assert CreateTenant(Without(db, o, d), slug, name, status).Ok?;
    }
  }

  lemma ApplicationWithout(db: Db, slug: string, name: string, status: string, managedBy: Option<string>, o: Id, d: Id)
    ensures Committed(Without(db, o, d), CreateApplication(Without(db, o, d), slug, name, status, managedBy))
            == Without(Committed(db, CreateApplication(db, slug, name, status, managedBy)), o, d)
  {
  }

  lemma PermissionWithout(db: Db, name: string, application: Option<Id>, o: Id, d: Id)
    ensures Committed(Without(db, o, d), CreatePermission(Without(db, o, d), name, application))
            == Without(Committed(db, CreatePermission(db, name, application)), o, d)
  {
  }

  lemma MembershipRolesWithout(db: Db, m: Id, names: set<string>, o: Id, d: Id)
    requires UniqueRoleNames(db.roles) && OverrideOf(db.roles, o, d)
    ensures SetMembershipRoles(Without(db, o, d), m, names) == Without(SetMembershipRoles(db, m, names), o, d)
  {
    if m in db.memberships {
      var t, a := Some(db.memberships[m].tenant), db.memberships[m].application;
      AssignableIdsWithout(db.roles, o, d, t, a, names);
      HandoverOfReplaced(db.memberRoles, m, AssignableIds(db.roles, t, a, names), AssignableIds(db.roles - {o}, t, a, names), o, d);
    }
  }

  lemma AgentRolesWithout(db: Db, g: Id, names: set<string>, o: Id, d: Id)
    requires UniqueRoleNames(db.roles) && OverrideOf(db.roles, o, d)
    ensures Committed(Without(db, o, d), SetAgentRoles(Without(db, o, d), g, names))
            == Without(Committed(db, SetAgentRoles(db, g, names)), o, d)
  {
    if g in db.agents {
      var t, a := Some(db.agents[g].tenant), Some(db.agents[g].application);
      AssignableIdsWithout(db.roles, o, d, t, a, names);
      HandoverOfReplaced(db.agentRoles, g, AssignableIds(db.roles, t, a, names), AssignableIds(db.roles - {o}, t, a, names), o, d);
    }
  }

  lemma PermissionLinksWithout(links: Links, r: Id, ids: set<Id>, o: Id)
    requires r != o
    ensures (set l | l in Replace(links, r, ids) && l.0 != o) == Replace((set l | l in links && l.0 != o), r, ids)
  {
  }

  lemma RolePermissionsWithout(db: Db, r: Id, names: set<string>, o: Id, d: Id)
    requires r != o
    ensures Committed(Without(db, o, d), SetRolePermissions(Without(db, o, d), r, names))
            == Without(Committed(db, SetRolePermissions(db, r, names)), o, d)
  {
    if r in db.roles {
      PermissionLinksWithout(db.rolePermissions, r, ActiveIds(db.permissions, db.roles[r].application, names), o);
    }
  }

  lemma TakenWithout(roles: map<Id, Role>, o: Id, tenant: Option<Id>, application: Option<Id>, name: string)
    requires o in roles && !(roles[o].tenant == tenant && roles[o].application == application && roles[o].name == name)
    ensures NameTaken(roles - {o}, tenant, application, name) <==> NameTaken(roles, tenant, application, name)
  {
    if r :| r in roles && roles[r].tenant == tenant && roles[r].application == application && roles[r].name == name {
      assert r in roles - {o};
    }
  }

  lemma NewRoleWithout(db: Db, role: Role, o: Id, d: Id)
    requires o != db.next
    ensures WithRole(Without(db, o, d), role) == Without(WithRole(db, role), o, d)
  {
  }

  lemma ManyLinksWithout(links: Links, owners: set<Id>, ids: set<Id>, o: Id)
    requires o !in owners
    ensures (set l | l in ReplaceAll(links, owners, ids) && l.0 != o) == ReplaceAll((set l | l in links && l.0 != o), owners, ids)
  {
  }

  /** What SetOverride leaves behind for a role that exists, and for one that does not. */
  function Rewritten(db: Db, owners: set<Id>, ids: set<Id>): Db {
    db.(rolePermissions := ReplaceAll(db.rolePermissions, owners, ids))
  }

  function Added(db: Db, role: Role, ids: set<Id>): Db {
    WithRole(db, role).(rolePermissions := Replace(db.rolePermissions, db.next, ids))
  }

  predicate MayOverride(db: Db, t: Id, a: Id, n: string) {
    t in db.tenants && a in db.applications && !NameTaken(db.roles, Some(t), Some(a), n)
  }

  lemma OverrideCases(db: Db, t: Id, a: Id, n: string, names: set<string>)
    ensures var ids := ActiveIds(db.permissions, Some(a), names);
            Committed(db, SetOverride(db, t, a, n, names))
            == if !(names <= PermissionNames(db.permissions, ids)) then db
               else if HasNamedRole(db.roles, Some(t), Some(a), n) then Rewritten(db, RoleIds(db.roles, Some(t), Some(a), n), ids)
               else if MayOverride(db, t, a, n) then Added(db, Role(n, Some(t), Some(a), None), ids) else db
  {
  }

  lemma RewrittenWithout(db: Db, owners: set<Id>, ids: set<Id>, o: Id, d: Id)
    requires o !in owners
    ensures Rewritten(Without(db, o, d), owners, ids) == Without(Rewritten(db, owners, ids), o, d)
  {
    ManyLinksWithout(db.rolePermissions, owners, ids, o);
  }

  lemma AddedWithout(db: Db, role: Role, ids: set<Id>, o: Id, d: Id)
    requires o != db.next
    ensures Added(Without(db, o, d), role, ids) == Without(Added(db, role, ids), o, d)
  {
    NewRoleWithout(db, role, o, d);
    PermissionLinksWithout(db.rolePermissions, db.next, ids, o);
  }

  lemma OtherOverrideWithout(db: Db, t: Id, a: Id, n: string, names: set<string>, o: Id, d: Id)
    requires UniqueRoleNames(db.roles) && OverrideOf(db.roles, o, d) && Below(db.roles, db.next)
    requires !NamedRole(db.roles[o], Some(t), Some(a), n)
    ensures Committed(Without(db, o, d), SetOverride(Without(db, o, d), t, a, n, names))
            == Without(Committed(db, SetOverride(db, t, a, n, names)), o, d)
  {
    OverrideCases(db, t, a, n, names);
    OverrideCases(Without(db, o, d), t, a, n, names);
    NamedWithout(db.roles, o, Some(t), Some(a), n);
    TakenWithout(db.roles, o, Some(t), Some(a), n);
    var ids := ActiveIds(db.permissions, Some(a), names);
    RewrittenWithout(db, RoleIds(db.roles, Some(t), Some(a), n), ids, o, d);
    AddedWithout(db, Role(n, Some(t), Some(a), None), ids, o, d);
  }

  lemma HandoversCommute(links: Links, gone: set<Id>, heirs: set<Id>, o: Id, d: Id)
    requires o !in gone && o !in heirs && d !in gone
    ensures Handover(Handover(links, {o}, {d}), gone, heirs) == Handover(Handover(links, gone, heirs), {o}, {d})
  {
    var x, y := Handover(links, {o}, {d}), Handover(links, gone, heirs);
    forall l: (Id, Id) ensures l in Handover(x, gone, heirs) <==> l in Handover(y, {o}, {d}) {
      assert l == (l.0, l.1);
      assert (exists e :: e in {o} && (l.0, e) in y) <==> (l.0, o) in links;
      assert (exists e :: e in {o} && (l.0, e) in links) <==> (l.0, o) in links;
      assert (exists e :: e in gone && (l.0, e) in x) <==> exists e :: e in gone && (l.0, e) in links;
    }
  }

  lemma OtherDeletionWithout(db: Db, t: Id, a: Id, n: string, o: Id, d: Id)
    requires UniqueRoleNames(db.roles) && OverrideOf(db.roles, o, d)
    requires !NamedRole(db.roles[o], Some(t), Some(a), n)
    ensures DeleteOverride(Without(db, o, d), t, a, n) == Without(DeleteOverride(db, t, a, n), o, d)
  {
    NamedWithout(db.roles, o, Some(t), Some(a), n);
    NamedWithout(db.roles, o, None, Some(a), n);
    var gone, heirs := RoleIds(db.roles, Some(t), Some(a), n), RoleIds(db.roles, None, Some(a), n);
    HandoversCommute(db.memberRoles, gone, heirs, o, d);
    HandoversCommute(db.agentRoles, gone, heirs, o, d);
    FiltersCommute(db.roles, db.rolePermissions, gone, o);
  }

  lemma FiltersCommute(roles: map<Id, Role>, links: Links, gone: set<Id>, o: Id)
    ensures roles - {o} - gone == roles - gone - {o}
    ensures (set l | l in (set k | k in links && k.0 != o) && l.0 !in gone) == (set l | l in (set k | k in links && k.0 !in gone) && l.0 != o)
  {
  }

  lemma MembershipWithout(db: Db, t: Id, a: Option<Id>, u: Id, status: string, names: set<string>, o: Id, d: Id)
    requires UniqueRoleNames(db.roles) && OverrideOf(db.roles, o, d)
    ensures Committed(Without(db, o, d), CreateMembership(Without(db, o, d), t, a, u, status, names))
            == Without(Committed(db, CreateMembership(db, t, a, u, status, names)), o, d)
  {
    AssignableIdsWithout(db.roles, o, d, Some(t), a, names);
    HandoverOfReplaced(db.memberRoles, db.next, AssignableIds(db.roles, Some(t), a, names),
                       AssignableIds(db.roles - {o}, Some(t), a, names), o, d);
  }

  lemma AgentWithout(db: Db, t: Id, a: Id, n: string, displayName: Option<string>, status: string, o: Id, d: Id)
    ensures Committed(Without(db, o, d), CreateAgent(Without(db, o, d), t, a, n, displayName, status))
            == Without(Committed(db, CreateAgent(db, t, a, n, displayName, status)), o, d)
  {
    if CreateAgent(db, t, a, n, displayName, status).Ok? {
      assert CreateAgent(Without(db, o, d), t, a, n, displayName, status).Ok?;
    }
  }

  lemma MaskWithout(db: Db, t: Id, a: Id, names: set<string>, o: Id, d: Id)
    ensures SetMask(Without(db, o, d), t, a, names) == Without(SetMask(db, t, a, names), o, d)
  {
  }

  lemma RoleWithout(db: Db, n: string, t: Option<Id>, a: Option<Id>, o: Id, d: Id)
    requires OverrideOf(db.roles, o, d) && Below(db.roles, db.next) && !NamedRole(db.roles[o], t, a, n)
    ensures Committed(Without(db, o, d), CreateRole(Without(db, o, d), n, t, a)) == Without(Committed(db, CreateRole(db, n, t, a)), o, d)
  {
    TakenWithout(db.roles, o, t, a, n);
    NewRoleWithout(db, Role(n, t, a, None), o, d);
  }

  lemma AssignmentWithout(db: Db, op: Op, o: Id, d: Id)
    requires UniqueRoleNames(db.roles) && OverrideOf(db.roles, o, d) && Assigns(op)
    requires op.SetRolePermissionsOp? ==> op.role != o
    ensures Outcome(Without(db, o, d), op) == Without(Outcome(db, op), o, d)
  {
    match op
    case SetMembershipRolesOp(m, names) => MembershipRolesWithout(db, m, names, o, d);
    case SetAgentRolesOp(a, names) => AgentRolesWithout(db, a, names, o, d);
    case SetRolePermissionsOp(r, names) => RolePermissionsWithout(db, r, names, o, d);
    case SetMaskOp(t, a, names) => MaskWithout(db, t, a, names, o, d);
  }

  lemma DefinitionWithout(db: Db, op: Op, o: Id, d: Id)
    requires UniqueRoleNames(db.roles) && Below(db.roles, db.next) && OverrideOf(db.roles, o, d) && !Registers(op) && !Provisions(op) && !Assigns(op)
    requires !Concerns(db, op, db.roles[o].tenant.value, db.roles[o].application.value, db.roles[o].name)
    ensures Outcome(Without(db, o, d), op) == Without(Outcome(db, op), o, d)
  {
    match op
    case SetOverrideOp(t, a, n, names) => OtherOverrideWithout(db, t, a, n, names, o, d);
    case DeleteOverrideOp(t, a, n) => OtherDeletionWithout(db, t, a, n, o, d);
    case CreateMembershipOp(t, a, u, status, names) => MembershipWithout(db, t, a, u, status, names, o, d);
    case CreateAgentOp(t, a, n, displayName, status) => AgentWithout(db, t, a, n, displayName, status, o, d);
    case CreateRoleOp(n, t, a) => RoleWithout(db, n, t, a, o, d);
  }

  lemma OutcomeWithout(db: Db, op: Op, o: Id, d: Id)
    requires UniqueRoleNames(db.roles) && Below(db.roles, db.next) && OverrideOf(db.roles, o, d) && !Provisions(op)
    requires !Concerns(db, op, db.roles[o].tenant.value, db.roles[o].application.value, db.roles[o].name)
    ensures Outcome(Without(db, o, d), op) == Without(Outcome(db, op), o, d)
  {
    if Registers(op) {
      RegistrationWithout(db, op, o, d);
    } else if Assigns(op) {
      AssignmentWithout(db, op, o, d);
    } else {
      DefinitionWithout(db, op, o, d);
    }
  }

  /** The role row that a transaction may add. */
  function AddedRole(op: Op): Option<Role> {
    match op
    case SetOverrideOp(t, a, n, _) => Some(Role(n, Some(t), Some(a), None))
    case CreateRoleOp(n, t, a) => Some(Role(n, t, a, None))
    case _ => None
  }

  /** Role rows change in two ways: one is added, or an override is deleted. */
  lemma RolesAfter(db: Db, op: Op)
    requires !Provisions(op)
    ensures var roles := Outcome(db, op).roles;
            if op.DeleteOverrideOp? then roles == db.roles - RoleIds(db.roles, Some(op.tenant), Some(op.application), op.name)
            else roles == db.roles || (AddedRole(op).Some? && roles == db.roles[db.next := AddedRole(op).value])
  {
    if Registers(op) || Assigns(op) {
      RolesKept(db, op);
    } else {
      RolesDefined(db, op);
    }
  }

  lemma RolesDefined(db: Db, op: Op)
    requires !Provisions(op) && !Registers(op) && !Assigns(op)
    ensures var roles := Outcome(db, op).roles;
            if op.DeleteOverrideOp? then roles == db.roles - RoleIds(db.roles, Some(op.tenant), Some(op.application), op.name)
            else roles == db.roles || (AddedRole(op).Some? && roles == db.roles[db.next := AddedRole(op).value])
  {
    if op.SetOverrideOp? {
      OverrideCases(db, op.tenant, op.application, op.name, op.names);
    }
  }

  lemma RolesKept(db: Db, op: Op)
    requires Registers(op) || Assigns(op)
    ensures Outcome(db, op).roles == db.roles
  {
  }

  /** A transaction that does not delete a role keeps its row. */
  lemma RoleStays(db: Db, op: Op, r: Id)
    requires Below(db.roles, db.next) && !Provisions(op) && r in db.roles
    requires op.DeleteOverrideOp? ==> !NamedRole(db.roles[r], Some(op.tenant), Some(op.application), op.name)
    ensures r in Outcome(db, op).roles && Outcome(db, op).roles[r] == db.roles[r]
  {
    RolesAfter(db, op);
  }

  /** Deleting the override first or last makes no difference to a transaction that does not concern it. */
  lemma DeletionCommutes(db: Db, op: Op, tenant: Id, application: Id, name: string)
    requires Valid(db) && HasNamedRole(db.roles, None, Some(application), name)
    requires !Provisions(op) && NameIsFree(db, op) && !Concerns(db, op, tenant, application, name)
    ensures DeleteOverride(Outcome(db, op), tenant, application, name) == Outcome(DeleteOverride(db, tenant, application, name), op)
    ensures HasNamedRole(Outcome(db, op).roles, None, Some(application), name)
  {
    var db' := Outcome(db, op);
    var d :| d in db.roles && NamedRole(db.roles[d], None, Some(application), name);
    RoleStays(db, op, d);
    OutcomeKeepsValid(db, op);
    if o :| o in db.roles && NamedRole(db.roles[o], Some(tenant), Some(application), name) {
      RoleStays(db, op, o);
      DeletedIsWithout(db, tenant, application, name, o, d);
      DeletedIsWithout(db', tenant, application, name, o, d);
      OutcomeWithout(db, op, o, d);
    } else {
      NoneAppears(db, op, tenant, application, name);
      NoOverrideToDelete(db, tenant, application, name);
      NoOverrideToDelete(db', tenant, application, name);
    }
  }

  lemma NoneAppears(db: Db, op: Op, tenant: Id, application: Id, name: string)
    requires !Provisions(op) && !Concerns(db, op, tenant, application, name)
    requires RoleIds(db.roles, Some(tenant), Some(application), name) == {}
    ensures RoleIds(Outcome(db, op).roles, Some(tenant), Some(application), name) == {}
  {
    RolesAfter(db, op);
    forall r | r in db.roles ensures !NamedRole(db.roles[r], Some(tenant), Some(application), name) {
      assert r !in RoleIds(db.roles, Some(tenant), Some(application), name);
    }
  }

  // ---- Any number of transactions ----

  function OutcomeOfAll(db: Db, ops: seq<Op>): Db
    requires forall op :: op in ops ==> !Provisions(op)
    decreases |ops|
  {
    if ops == [] then db else Outcome(OutcomeOfAll(db, ops[..|ops| - 1]), ops[|ops| - 1])
  }

  /** None of the transactions concerns the override, and names are created free. */
  ghost predicate Unconcerned(db: Db, ops: seq<Op>, tenant: Id, application: Id, name: string)
    decreases |ops|
  {
    && (forall op :: op in ops ==> !Provisions(op))
    && (ops != [] ==>
          var before, op := ops[..|ops| - 1], ops[|ops| - 1];
          && Unconcerned(db, before, tenant, application, name)
          && NameIsFree(OutcomeOfAll(db, before), op) && !Concerns(OutcomeOfAll(db, before), op, tenant, application, name))
  }

  lemma {:induction false} DeletionCommutesWithAll(db: Db, ops: seq<Op>, tenant: Id, application: Id, name: string)
    requires Valid(db) && HasNamedRole(db.roles, None, Some(application), name)
    requires Unconcerned(db, ops, tenant, application, name)
    ensures Valid(OutcomeOfAll(db, ops)) && HasNamedRole(OutcomeOfAll(db, ops).roles, None, Some(application), name)
    ensures DeleteOverride(OutcomeOfAll(db, ops), tenant, application, name)
            == OutcomeOfAll(DeleteOverride(db, tenant, application, name), ops)
    decreases |ops|
  {
    if ops != [] {
      var before, op := ops[..|ops| - 1], ops[|ops| - 1];
      DeletionCommutesWithAll(db, before, tenant, application, name);
      DeletionCommutes(OutcomeOfAll(db, before), op, tenant, application, name);
      OutcomeKeepsValid(OutcomeOfAll(db, before), op);
    }
  }

  /** With nothing in between, what is left is the store without the override; the id drawn for it is not used again. */
  lemma SetThenDelete(db: Db, tenant: Id, application: Id, name: string, names: set<string>)
    requires Valid(db) && SetOverride(db, tenant, application, name, names).Ok?
    ensures var overridden := SetOverride(db, tenant, application, name, names).value;
            DeleteOverride(overridden, tenant, application, name)
            == DeleteOverride(db, tenant, application, name).(next := overridden.next)
  {
    var ids := ActiveIds(db.permissions, Some(application), names);
    if HasNamedRole(db.roles, Some(tenant), Some(application), name) {
      var owners := RoleIds(db.roles, Some(tenant), Some(application), name);
      assert (set l | l in ReplaceAll(db.rolePermissions, owners, ids) && l.0 !in owners)
          == (set l | l in db.rolePermissions && l.0 !in owners);
    } else {
      NoOverrideToDelete(db, tenant, application, name);
      NewOverrideDeleted(db, tenant, application, name, ids);
    }
  }

  lemma NewOverrideDeleted(db: Db, tenant: Id, application: Id, name: string, ids: set<Id>)
    requires Below(db.roles, db.next) && !HasNamedRole(db.roles, Some(tenant), Some(application), name)
    requires MemberLinksIsolated(db.memberships, db.roles, db.memberRoles)
    requires AgentLinksIsolated(db.agents, db.roles, db.agentRoles)
    requires PermissionLinksIsolated(db.roles, db.permissions, db.rolePermissions)
    ensures var added := WithRole(db, Role(name, Some(tenant), Some(application), None));
            DeleteOverride(added.(rolePermissions := Replace(db.rolePermissions, db.next, ids)), tenant, application, name)
            == db.(next := added.next)
  {
    var roles := db.roles[db.next := Role(name, Some(tenant), Some(application), None)];
    var heirs := RoleIds(roles, None, Some(application), name);
    assert RoleIds(roles, Some(tenant), Some(application), name) == {db.next};
    assert roles - {db.next} == db.roles;
    UnheldHandover(db.memberRoles, db.next, heirs);
    UnheldHandover(db.agentRoles, db.next, heirs);
    NewLinksDeleted(db.roles, db.permissions, db.rolePermissions, db.next, ids);
  }

  lemma NewLinksDeleted(roles: map<Id, Role>, permissions: map<Id, Permission>, links: Links, next: Id, ids: set<Id>)
    requires PermissionLinksIsolated(roles, permissions, links) && next !in roles
    ensures (set l | l in Replace(links, next, ids) && l.0 !in {next}) == links
  {
    forall l | l in links ensures l.0 != next {
      assert (l.0, l.1) == l;
    }
  }

  lemma UnheldHandover(links: Links, gone: Id, heirs: set<Id>)
    requires forall h: Id :: (h, gone) !in links
    ensures Handover(links, {gone}, heirs) == links
  {
    forall l: (Id, Id) ensures l in Handover(links, {gone}, heirs) <==> l in links {
      assert l == (l.0, l.1);
    }
  }

  /**
  Setting an override and deleting it later, with any number of other transactions in
  between, leaves the store that those transactions leave without any override: rows,
  links and ids alike, where neither run uses the id drawn for the override. The default
  role must exist, which the endpoints check.
  */
  lemma OverrideLeavesNoTrace(db: Db, tenant: Id, application: Id, name: string, names: set<string>, ops: seq<Op>)
    requires Valid(db) && HasNamedRole(db.roles, None, Some(application), name)
    requires SetOverride(db, tenant, application, name, names).Ok?
    requires Unconcerned(SetOverride(db, tenant, application, name, names).value, ops, tenant, application, name)
    ensures var overridden := SetOverride(db, tenant, application, name, names).value;
            var never := DeleteOverride(db, tenant, application, name).(next := overridden.next);
            DeleteOverride(OutcomeOfAll(overridden, ops), tenant, application, name) == OutcomeOfAll(never, ops)
  {
    var overridden := SetOverride(db, tenant, application, name, names).value;
    SetOverrideByName(db, tenant, application, name, names);
    DefaultStays(db, tenant, application, name, names);
    SetThenDelete(db, tenant, application, name, names);
    DeletionCommutesWithAll(overridden, ops, tenant, application, name);
  }

  lemma DefaultStays(db: Db, tenant: Id, application: Id, name: string, names: set<string>)
    requires Below(db.roles, db.next) && HasNamedRole(db.roles, None, Some(application), name)
    requires SetOverride(db, tenant, application, name, names).Ok?
    ensures HasNamedRole(SetOverride(db, tenant, application, name, names).value.roles, None, Some(application), name)
  {
    var d :| d in db.roles && NamedRole(db.roles[d], None, Some(application), name);
    RoleStays(db, SetOverrideOp(tenant, application, name, names), d);
  }
}
