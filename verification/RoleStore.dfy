/**
The store as an object whose methods each run one transaction, and what holds in every
state that a run of them can reach.

A method works on a local copy and assigns it at the end: an error in between leaves
the committed state alone.
*/
module RoleStore {
  import opened Common
  import opened Rows
  import opened Resolution
  import opened Assignments
  import opened Registry
  import opened TenantMembers
  import opened TenantAgents
  import opened TenantStates
  import opened TenantNames
  import opened Catalog
  import MemoryStore

  // ---- Transactions ----

  datatype Op =
    | CreateTenantOp(slug: string, name: string, status: string)
    | CreateApplicationOp(slug: string, name: string, status: string, managedBy: Option<string>)
    | SetManagerOp(application: Id, managedBy: Option<string>)
    | UpsertUserOp(userRef: UserRef, displayName: Option<string>, email: Option<string>)
    | CreatePermissionOp(name: string, app: Option<Id>)
    | SetMembershipRolesOp(membership: Id, names: set<string>)
    | SetAgentRolesOp(agent: Id, names: set<string>)
    | SetRolePermissionsOp(role: Id, names: set<string>)
    | SetOverrideOp(tenant: Id, application: Id, name: string, names: set<string>)
    | DeleteOverrideOp(tenant: Id, application: Id, name: string)
    | CreateMembershipOp(tenant: Id, app: Option<Id>, user: Id, status: string, names: set<string>)
    | CreateAgentOp(tenant: Id, application: Id, name: string, displayName: Option<string>, status: string)
    | CreateRoleOp(name: string, owner: Option<Id>, app: Option<Id>)
    | SetMaskOp(tenant: Id, application: Id, names: set<string>)
    | CatalogOp(slug: string, catalog: CatalogSpec, managedBy: Option<string>, catalogTrace: CatalogTrace)
    | TenantStateOp(application: Id, slug: string, state: TenantState, trace: Trace)

  /** A committed result, or the old state when the operation was refused. */
  function Committed<E>(db: Db, result: Result<Db, E>): Db {
    if result.Ok? then result.value else db
  }

  function ErrorOf<E>(result: Result<Db, E>): Option<E> {
    if result.Err? then Some(result.error) else None
  }

  predicate Provisions(op: Op) {
    op.CatalogOp? || op.TenantStateOp?
  }

  predicate Registers(op: Op) {
    op.CreateTenantOp? || op.CreateApplicationOp? || op.SetManagerOp? || op.UpsertUserOp? || op.CreatePermissionOp?
  }

  predicate Assigns(op: Op) {
    op.SetMembershipRolesOp? || op.SetAgentRolesOp? || op.SetRolePermissionsOp? || op.SetMaskOp?
  }

  /** What a transaction other than provisioning leaves behind. */
  function Outcome(db: Db, op: Op): Db
    requires !Provisions(op)
  {
    match op
    case CreateTenantOp(slug, name, status) => Committed(db, CreateTenant(db, slug, name, status))
    case CreateApplicationOp(slug, name, status, managedBy) => Committed(db, CreateApplication(db, slug, name, status, managedBy))
    case SetManagerOp(a, managedBy) => SetManager(db, a, managedBy)
    case UpsertUserOp(userRef, displayName, email) => UpsertUser(db, userRef, displayName, email)
    case CreatePermissionOp(name, a) => Committed(db, CreatePermission(db, name, a))
    case SetMembershipRolesOp(m, names) => SetMembershipRoles(db, m, names)
    case SetAgentRolesOp(a, names) => Committed(db, SetAgentRoles(db, a, names))
    case SetRolePermissionsOp(r, names) => Committed(db, SetRolePermissions(db, r, names))
    case SetMaskOp(t, a, names) => SetMask(db, t, a, names)
    case SetOverrideOp(t, a, name, names) => Committed(db, SetOverride(db, t, a, name, names))
    case DeleteOverrideOp(t, a, name) => DeleteOverride(db, t, a, name)
    case CreateMembershipOp(t, a, u, status, names) => Committed(db, CreateMembership(db, t, a, u, status, names))
    case CreateAgentOp(t, a, name, displayName, status) => Committed(db, CreateAgent(db, t, a, name, displayName, status))
    case CreateRoleOp(name, t, a) => Committed(db, CreateRole(db, name, t, a))
  }

  /** A registered tenant, application or user has what was given for it, under a free slug or a new identity. */
  lemma RegisteredAsGiven(db: Db, op: Op)
    requires op.CreateTenantOp? ==> forall t :: t in db.tenants ==> db.tenants[t].slug != op.slug
    requires op.CreateApplicationOp? ==> forall a :: a in db.applications ==> db.applications[a].slug != op.slug
    requires op.UpsertUserOp? ==> op.userRef !in db.identities
    ensures op.CreateTenantOp? ==> Outcome(db, op).tenants == db.tenants[db.next := Tenant(op.slug, op.name, op.status)]
    ensures op.CreateApplicationOp? ==>
              Outcome(db, op).applications == db.applications[db.next := Application(op.slug, op.name, op.status, op.managedBy)]
    ensures op.UpsertUserOp? ==>
              && Outcome(db, op).users == db.users[db.next := User(op.displayName, op.email, "active")]
              && Outcome(db, op).identities == db.identities[op.userRef := db.next]
  {
  }

  /** Roles and permissions are created under free names only, also where the database would not object. */
  ghost predicate NameIsFree(db: Db, op: Op) {
    && (op.CreateRoleOp? ==> !NameTaken(db.roles, op.owner, op.app, op.name))
    && (op.CreatePermissionOp? ==> !PermissionTaken(db.permissions, op.app, op.name))
  }

  /** A catalog is applied exactly when it is well-formed and its entries do not clash. */
  ghost predicate CatalogStep(db: Db, slug: string, spec: CatalogSpec, managedBy: Option<string>, trace: CatalogTrace, db': Db) {
    if CatalogWellFormed(spec) && !EntriesClash(db, slug, spec) then CatalogApplied(db, db', slug, spec, managedBy, trace) else db' == db
  }

  /** A tenant state is applied exactly when it is well-formed and no name clashes. */
  ghost predicate StateStep(db: Db, application: Id, slug: string, state: TenantState, trace: Trace, db': Db) {
    if application in db.applications && WellFormed(db, RoleTenant(db, slug), application, state)
       && !StateClash(db, application, slug, state)
    then Applied(db, db', application, slug, state, trace) else db' == db
  }

  /** One transaction, committed or refused. */
  ghost predicate Step(db: Db, op: Op, db': Db) {
    if op.CatalogOp? then CatalogStep(db, op.slug, op.catalog, op.managedBy, op.catalogTrace, db')
    else if op.TenantStateOp? then StateStep(db, op.application, op.slug, op.state, op.trace, db')
    else NameIsFree(db, op) && db' == Outcome(db, op)
  }

  lemma RegistrationKeepsValid(db: Db, op: Op)
    requires Valid(db) && Registers(op) && NameIsFree(db, op)
    ensures Valid(Outcome(db, op))
  {
    match op
    case CreateTenantOp(slug, name, status) => CreateTenantValid(db, slug, name, status);
    case CreateApplicationOp(slug, name, status, managedBy) => CreateApplicationValid(db, slug, name, status, managedBy);
    case SetManagerOp(a, managedBy) => SetManagerValid(db, a, managedBy);
    case UpsertUserOp(userRef, displayName, email) => UpsertUserValid(db, userRef, displayName, email);
    case CreatePermissionOp(name, a) => CreatePermissionValidity(db, name, a);
  }

  lemma AssignmentKeepsValid(db: Db, op: Op)
    requires Valid(db) && Assigns(op)
    ensures Valid(Outcome(db, op))
  {
    match op
    case SetMembershipRolesOp(m, names) => SetMembershipRolesByName(db, m, names);
    case SetAgentRolesOp(a, names) => AgentRolesCommitted(db, a, names);
    case SetRolePermissionsOp(r, names) => PermissionsCommitted(db, r, names);
    case SetMaskOp(t, a, names) => SetMaskValid(db, t, a, names);
  }

  lemma PermissionsCommitted(db: Db, r: Id, names: set<string>)
    requires Valid(db)
    ensures Valid(Committed(db, SetRolePermissions(db, r, names)))
  {
    SetRolePermissionsValid(db, r, names);
  }

  lemma SetMaskValid(db: Db, tenant: Id, application: Id, names: set<string>)
    requires Valid(db)
    ensures Valid(SetMask(db, tenant, application, names))
  {
  }

  lemma DefinitionKeepsValid(db: Db, op: Op)
    requires Valid(db) && !Registers(op) && !Provisions(op) && !Assigns(op) && NameIsFree(db, op)
    ensures Valid(Outcome(db, op))
  {
    match op
    case SetOverrideOp(t, a, name, names) => SetOverrideByName(db, t, a, name, names);
    case DeleteOverrideOp(t, a, name) => DeleteOverrideValid(db, t, a, name);
    case CreateMembershipOp(t, a, u, status, names) => CreateMembershipValid(db, t, a, u, status, names);
    case CreateAgentOp(t, a, name, displayName, status) => CreateAgentValid(db, t, a, name, displayName, status);
    case CreateRoleOp(name, t, a) => CreateRoleValidity(db, name, t, a);
  }

  lemma OutcomeKeepsValid(db: Db, op: Op)
    requires Valid(db) && !Provisions(op) && NameIsFree(db, op)
    ensures Valid(Outcome(db, op))
  {
    if Registers(op) {
      RegistrationKeepsValid(db, op);
    } else if Assigns(op) {
      AssignmentKeepsValid(db, op);
    } else {
      DefinitionKeepsValid(db, op);
    }
  }

  /** Each transaction keeps the store valid. */
  lemma StepKeepsValid(db: Db, op: Op, db': Db)
    requires Valid(db) && Step(db, op, db')
    ensures Valid(db')
  {
    if Provisions(op) {
      ProvisioningKeepsValid(db, op, db');
    } else {
      OutcomeKeepsValid(db, op);
    }
  }

  lemma ProvisioningKeepsValid(db: Db, op: Op, db': Db)
    requires Valid(db) && Step(db, op, db') && Provisions(op)
    ensures Valid(db')
  {
    if db' != db {
      if op.CatalogOp? {
        CatalogStaysValid(db, db', op.slug, op.catalog, op.managedBy, op.catalogTrace);
      } else {
        AppliedIsValid(db, db', op.application, op.slug, op.state, op.trace);
      }
    }
  }

  ghost predicate Run(states: seq<Db>, ops: seq<Op>) {
    && |states| == |ops| + 1
    && forall i :: 0 <= i < |ops| ==> Step(states[i], ops[i], states[i + 1])
  }

  lemma {:induction false} RunKeepsValid(states: seq<Db>, ops: seq<Op>, i: nat)
    requires Run(states, ops) && Valid(states[0]) && i <= |ops|
    ensures Valid(states[i])
  {
    if i > 0 {
      RunKeepsValid(states, ops, i - 1);
      StepKeepsValid(states[i - 1], ops[i - 1], states[i]);
    }
  }

  lemma EmptyIsValid()
    ensures Valid(EMPTY)
  {
  }

  /**
  In every state that the operations reach from an empty store, permissions resolved
  through ids are what the role names mean, in whatever order links and overrides came.
  */
  lemma ReachableResolvesByName(states: seq<Db>, ops: seq<Op>, i: nat, tenant: Id, application: Id, subject: Id,
                                permission: string)
    requires Run(states, ops) && states[0] == EMPTY && i <= |ops|
    ensures permission in UserPermissions(states[i], tenant, application, subject)
            <==> UserMay(View(states[i]), tenant, application, subject, permission)
    ensures permission in AgentPermissions(states[i], tenant, application, subject)
            <==> AgentMay(View(states[i]), tenant, application, subject, permission)
  {
    EmptyIsValid();
    RunKeepsValid(states, ops, i);
    UserResolutionIsByName(states[i], tenant, application, subject, permission);
    AgentResolutionIsByName(states[i], tenant, application, subject, permission);
  }

  // ---- The isolation filters ----

  /** Resolution without asking whether a linked role is visible in the tenant. */
  function BareEffectiveIds(roles: map<Id, Role>, tenant: Id, linked: set<Id>): set<Id> {
    var own := linked * roles.Keys;
    (set o, r | o in roles && r in own && Overrides(roles, tenant, o, r) :: o)
    + (set r | r in own && !Overridden(roles, tenant, r))
  }

  /** In a valid store the filters of user resolution never remove anything. */
  lemma FiltersAreIdle(db: Db, tenant: Id, application: Id, user: Id)
    requires Valid(db)
    ensures UserPermissions(db, tenant, application, user)
            == GrantedBy(db, BareEffectiveIds(db.roles, tenant, UserRoleIds(db, tenant, application, user)), None)
  {
    var linked := UserRoleIds(db, tenant, application, user);
    forall r | r in linked ensures r in db.roles && VisibleIn(db.roles[r], tenant) && Relevant(db.roles[r].application, application) {
      UserRoleIsRelevant(db, tenant, application, user, r);
    }
    assert EffectiveRoleIds(db.roles, tenant, linked) == BareEffectiveIds(db.roles, tenant, linked);
    RelevantGrants(db, EffectiveRoleIds(db.roles, tenant, linked), application);
  }

  predicate Relevant(owner: Option<Id>, application: Id) {
    owner == Some(application) || owner.None?
  }

  lemma UserRoleIsRelevant(db: Db, tenant: Id, application: Id, user: Id, r: Id)
    requires MemberLinksIsolated(db.memberships, db.roles, db.memberRoles) && r in UserRoleIds(db, tenant, application, user)
    ensures r in db.roles && VisibleIn(db.roles[r], tenant) && Relevant(db.roles[r].application, application)
  {
    var l :| l in db.memberRoles && l.1 == r && l.0 in db.memberships
             && Eligible(db.memberships[l.0], tenant, application, user);
    assert (l.0, r) == l;
  }

  lemma RelevantGrants(db: Db, ids: set<Id>, application: Id)
    requires PermissionLinksIsolated(db.roles, db.permissions, db.rolePermissions)
    requires forall r :: r in ids && r in db.roles ==> Relevant(db.roles[r].application, application)
    ensures GrantedBy(db, ids, Some(application)) == GrantedBy(db, ids, None)
  {
    forall l | l in db.rolePermissions && l.0 in ids
      ensures l.1 in db.permissions && Relevant(db.permissions[l.1].application, application)
    {
      assert (l.0, l.1) == l;
    }
  }

  /** Nor do those of agent resolution, and what comes out belongs to the agent's application. */
  lemma AgentFiltersAreIdle(db: Db, tenant: Id, application: Id, agent: Id)
    requires Valid(db)
    requires agent in db.agents && AgentInSlice(db.agents[agent], tenant, application)
    ensures AgentPermissions(db, tenant, application, agent)
            == GrantedBy(db, BareEffectiveIds(db.roles, tenant, Linked(db.agentRoles, agent)), None)
    ensures forall n :: n in AgentPermissions(db, tenant, application, agent) ==> (Some(application), n) in ActiveOf(db.permissions)
  {
  }

  // ---- The store object ----

  /** Give a role's holders the default role, where there is one, and take the role away. */
  method MoveHolders(links: Links, gone: Id, default: Option<Id>) returns (links': Links)
    requires default != Some(gone)
    ensures links' == Handover(links, {gone}, if default.Some? then {default.value} else {})
  {
    var holders := set l | l in links && l.1 == gone :: l.0;
    assert forall h :: (h, gone) in links ==> (h, gone).0 in holders;
    links' := links;
    if default.Some? {
      var todo := holders - set l | l in links && l.1 == default.value :: l.0;
      ghost var all := todo;
      while todo != {}
        invariant todo <= all
        invariant links' == links + set h | h in all - todo :: (h, default.value)
        decreases todo
      {
        var h :| h in todo;
        links' := links' + {(h, default.value)};
        todo := todo - {h};
      }
    }
    links' := set l | l in links' && l.1 != gone;
    forall l ensures l in links' <==> l in Handover(links, {gone}, if default.Some? then {default.value} else {}) {
      assert (l.0, l.1) == l;
      if default.Some? && l.1 == default.value && (l.0, gone) in links {
        assert l in links || l.0 in holders;
      }
    }
  }

  method WithMembershipRoles(db: Db, m: Id, names: set<string>) returns (db': Db)
    requires UniqueRoleNames(db.roles)
    ensures db' == SetMembershipRoles(db, m, names)
  {
    if m !in db.memberships {
      return db;
    }
    var row := db.memberships[m];
    var found := MemoryStore.FindAssignable(db.roles, Some(row.tenant), row.application, names);
    var links, changed := ReplaceKnown(db.memberRoles, m, found.Values, Linked(db.memberRoles, m));
    return db.(memberRoles := links);
  }

  lemma AgentRolesCommitted(db: Db, a: Id, names: set<string>)
    requires Valid(db)
    ensures var db' := Committed(db, SetAgentRoles(db, a, names));
            Valid(db') && View(db') == NameSetAgentRoles(View(db), a, names)
    ensures SetAgentRoles(db, a, names).Err? <==>
            a in db.agents && !NamesResolve(View(db).roles, db.agents[a].tenant, Some(db.agents[a].application), names)
  {
    SetAgentRolesValid(db, a, names);
    SetAgentRolesByName(db, a, names);
  }

  lemma OverrideCommitted(db: Db, tenant: Id, application: Id, name: string, names: set<string>)
    requires Valid(db)
    ensures var result := SetOverride(db, tenant, application, name, names);
            && Valid(Committed(db, result))
            && (result.Ok? ==> View(Committed(db, result)) == NameSetGrants(View(db), OfTenant(tenant, Some(application), name), names))
  {
    SetOverrideByName(db, tenant, application, name, names);
  }

  method WithAgentRoles(db: Db, a: Id, names: set<string>) returns (db': Db, refusal: Option<Refusal>)
    requires UniqueRoleNames(db.roles)
    ensures db' == Committed(db, SetAgentRoles(db, a, names))
    ensures refusal == ErrorOf(SetAgentRoles(db, a, names))
  {
    if a !in db.agents {
      return db, None;
    }
    var row := db.agents[a];
    var found := MemoryStore.FindAssignable(db.roles, Some(row.tenant), Some(row.application), names);
    FoundNames(db.roles, found);
    if !(names <= found.Keys) {
      return db, Some(UnknownNames(names - found.Keys));
    }
    var links, changed := ReplaceKnown(db.agentRoles, a, found.Values, Linked(db.agentRoles, a));
    return db.(agentRoles := links), None;
  }

  method WithoutOverride(db: Db, tenant: Id, application: Id, name: string) returns (db': Db)
    requires UniqueRoleNames(db.roles)
    ensures db' == DeleteOverride(db, tenant, application, name)
  {
    var override := FindRole(db.roles, Some(tenant), application, name);
    if override.None? {
      NoOverrideToDelete(db, tenant, application, name);
      return db;
    }
    var default := FindRole(db.roles, None, application, name);
    var memberRoles := MoveHolders(db.memberRoles, override.value, default);
    var agentRoles := MoveHolders(db.agentRoles, override.value, default);
    var rolePermissions := set l | l in db.rolePermissions && l.0 != override.value;
    assert rolePermissions == set l | l in db.rolePermissions && l.0 !in {override.value};
    db' := db.(memberRoles := memberRoles, agentRoles := agentRoles, rolePermissions := rolePermissions,
               roles := db.roles - {override.value});
    OneOverride(db, tenant, application, name, override.value, if default.Some? then {default.value} else {});
  }

  lemma OneOverride(db: Db, tenant: Id, application: Id, name: string, gone: Id, heirs: set<Id>)
    requires RoleIds(db.roles, Some(tenant), Some(application), name) == {gone}
    requires RoleIds(db.roles, None, Some(application), name) == heirs
    ensures DeleteOverride(db, tenant, application, name)
            == db.(memberRoles := Handover(db.memberRoles, {gone}, heirs), agentRoles := Handover(db.agentRoles, {gone}, heirs),
                   rolePermissions := (set l | l in db.rolePermissions && l.0 !in {gone}), roles := db.roles - {gone})
  {
  }

  class Store {
    var db: Db

    constructor ()
      ensures db == EMPTY && Valid(db)
    {
      db := EMPTY;
    }

    /** Membership m gets the roles that the names stand for; unknown names are passed over. */
    method SetMembershipRoles(m: Id, names: set<string>)
      requires Valid(db)
      modifies this
      ensures Valid(db) && Step(old(db), SetMembershipRolesOp(m, names), db)
      ensures View(db) == NameSetMembershipRoles(View(old(db)), m, names)
    {
      SetMembershipRolesByName(db, m, names);
      var after := WithMembershipRoles(db, m, names);
      db := after;
    }

    /** Agent a gets the roles that the names stand for; an unknown name refuses all of it. */
    method SetAgentRoles(a: Id, names: set<string>) returns (refusal: Option<Refusal>)
      requires Valid(db)
      modifies this
      ensures Valid(db) && Step(old(db), SetAgentRolesOp(a, names), db)
      ensures View(db) == NameSetAgentRoles(View(old(db)), a, names)
      ensures refusal == ErrorOf(Assignments.SetAgentRoles(old(db), a, names))
    {
      AgentRolesCommitted(db, a, names);
      var after;
      after, refusal := WithAgentRoles(db, a, names);
      db := after;
    }

    /** Role r gets exactly the named active permissions of its application, or nothing changes. */
    method SetRolePermissions(r: Id, names: set<string>) returns (refusal: Option<Refusal>)
      requires Valid(db)
      modifies this
      ensures Valid(db) && Step(old(db), SetRolePermissionsOp(r, names), db)
      ensures refusal.None? && r in old(db).roles ==>
                View(db) == NameSetGrants(View(old(db)), KeyOf(old(db).roles[r]), names)
      ensures refusal.Some? ==> db == old(db)
      ensures refusal.Some? <==>
              r in old(db).roles && exists n :: n in names && (old(db).roles[r].application, n) !in View(old(db)).active
      ensures refusal == ErrorOf(Assignments.SetRolePermissions(old(db), r, names))
    {
      SetRolePermissionsValid(db, r, names);
      SetRolePermissionsByName(db, r, names);
      if r !in db.roles {
        return None;
      }
      var ids := ActiveIds(db.permissions, db.roles[r].application, names);
      var known := PermissionNames(db.permissions, ids);
      if !(names <= known) {
        return Some(UnknownNames(names - known));
      }
      var links, changed := ReplaceKnown(db.rolePermissions, r, ids, Linked(db.rolePermissions, r));
      db := db.(rolePermissions := links);
      return None;
    }

    /** The tenant's role of this name exists and carries exactly the named permissions, or nothing changes. */
    method SetTenantRoleOverride(tenant: Id, application: Id, name: string, names: set<string>)
      returns (refusal: Option<Refusal>)
      requires Valid(db)
      modifies this
      ensures Valid(db) && Step(old(db), SetOverrideOp(tenant, application, name, names), db)
      ensures refusal.None? ==> View(db) == NameSetGrants(View(old(db)), OfTenant(tenant, Some(application), name), names)
      ensures refusal.Some? ==> db == old(db)
      ensures refusal.None? <==>
              && (forall n :: n in names ==> (Some(application), n) in View(old(db)).active)
              && (|| OfTenant(tenant, Some(application), name) in View(old(db)).roles
                  || (&& tenant in old(db).tenants && application in old(db).applications
                      && UniqueRoleNames(old(db).roles[old(db).next := Role(name, Some(tenant), Some(application), None)])))
      ensures refusal == ErrorOf(SetOverride(old(db), tenant, application, name, names))
    {
      OverrideCommitted(db, tenant, application, name, names);
      SetOverrideSucceedsIff(db, tenant, application, name, names);
      var result := SetOverride(db, tenant, application, name, names);
      db := Committed(db, result);
      return if result.Ok? then None else Some(result.error);
    }

    /** The tenant's role of this name goes away; its holders keep the name if a default role bears it. */
    method DeleteTenantRoleOverride(tenant: Id, application: Id, name: string)
      requires Valid(db)
      modifies this
      ensures Valid(db) && Step(old(db), DeleteOverrideOp(tenant, application, name), db)
      ensures View(db) == NameDelete(View(old(db)), tenant, application, name)
    {
      DeleteOverrideValid(db, tenant, application, name);
      DeleteOverrideByName(db, tenant, application, name);
      var after := WithoutOverride(db, tenant, application, name);
      db := after;
    }

    /** A new membership with the roles that the names stand for. */
    method CreateMembership(tenant: Id, application: Option<Id>, user: Id, status: string, names: set<string>)
      returns (refusal: Option<Refusal>)
      requires Valid(db)
      modifies this
      ensures Valid(db) && Step(old(db), CreateMembershipOp(tenant, application, user, status, names), db)
      ensures refusal.Some? ==> db == old(db)
      ensures refusal.Some? <==>
              || tenant !in old(db).tenants || user !in old(db).users || !OptionalKey(application, old(db).applications)
              || !UniqueMemberships(old(db).memberships[old(db).next := Membership(tenant, application, user, status)])
      ensures refusal.Some? ==> refusal == Some(Integrity)
      ensures refusal.None? ==>
                View(db) == View(old(db)).(members := View(old(db)).members[old(db).next :=
                  MemberView(tenant, application, user, status, Resolvable(View(old(db)).roles, tenant, application, names))])
    {
      CreateMembershipValid(db, tenant, application, user, status, names);
      CreateMembershipRefusedIff(db, tenant, application, user, status, names);
      CreateMembershipByName(db, tenant, application, user, status, names);
      var result := Assignments.CreateMembership(db, tenant, application, user, status, names);
      match result
      case Err(error) => return Some(error);
      case Ok(after) =>
        db := after;
        return None;
    }

    /** The catalog of one application, in one transaction. */
    method ApplyApplicationCatalog(slug: string, spec: CatalogSpec, managedBy: Option<string>)
      returns (result: Result<CatalogResult, CatalogError>, trace: CatalogTrace)
      requires Valid(db)
      modifies this
      ensures Valid(db) && Step(old(db), CatalogOp(slug, spec, managedBy, trace), db)
      ensures result.Ok? ==> CatalogApplied(old(db), db, slug, spec, managedBy, trace)
                             && CatalogCounted(old(db), db, spec, result.value)
      ensures result.Ok? ==>
                View(db) == NameApplyCatalog(View(old(db)), result.value.application, spec)
      ensures result.Ok? <==> CatalogWellFormed(spec) && !EntriesClash(old(db), slug, spec)
      ensures result.Err? ==> db == old(db)
    {
      var after;
      result, after, trace := ApplyCatalog(db, slug, spec, managedBy);
      if result.Ok? {
        CatalogStaysValid(db, after, slug, spec, managedBy, trace);
        CatalogByName(db, after, slug, spec, managedBy, trace);
      }
      db := after;
    }

    /** The desired state of one tenant for one application, in one transaction. */
    method ApplyTenantState(application: Id, slug: string, state: TenantState)
      returns (result: Result<StateResult, StateError>, ghost trace: Trace)
      requires Valid(db) && application in db.applications
      modifies this
      ensures Valid(db) && Step(old(db), TenantStateOp(application, slug, state, trace), db)
      ensures result.Ok? ==> Applied(old(db), db, application, slug, state, trace)
      ensures result.Ok? ==> NameApplied(View(old(db)), View(db), trace.tenant, application, state, trace.owners,
                                         trace.memberIds, trace.agentIds)
      ensures result.Ok? <==> WellFormed(old(db), RoleTenant(old(db), slug), application, state)
                              && !StateClash(old(db), application, slug, state)
      ensures result.Err? ==> db == old(db)
    {
      var after;
      result, after, trace := TenantStates.ApplyTenantState(db, application, slug, state);
      if result.Ok? {
        AppliedIsValid(db, after, application, slug, state, trace);
        TenantStateByName(db, after, application, slug, state, trace);
      }
      db := after;
    }
  }

  lemma FoundNames(roles: map<Id, Role>, found: map<string, Id>)
    requires forall n :: n in found ==> found[n] in roles && roles[found[n]].name == n
    requires forall r :: r in found.Values ==> r in roles && roles[r].agent.None?
    ensures NamesOf(roles, found.Values) == found.Keys
  {
  }

  method FindRole(roles: map<Id, Role>, tenant: Option<Id>, application: Id, name: string) returns (found: Option<Id>)
    requires UniqueRoleNames(roles)
    ensures RoleIds(roles, tenant, Some(application), name) == if found.Some? then {found.value} else {}
  {
    if r :| r in roles && NamedRole(roles[r], tenant, Some(application), name) {
      found := Some(r);
    } else {
      found := None;
    }
  }

  lemma NoOverrideToDelete(db: Db, tenant: Id, application: Id, name: string)
    requires RoleIds(db.roles, Some(tenant), Some(application), name) == {}
    ensures DeleteOverride(db, tenant, application, name) == db
  {
  }
}
