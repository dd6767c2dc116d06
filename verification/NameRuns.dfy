/**
Runs of the store's transactions, followed on the name view alone: every run through ids
is a run of the name-level operations, and permissions at every point of it are what the
names mean there. What a name-level operation needs to know about rows beyond the names
(which tenants, applications and users exist, what is taken) is in a Ground beside them.
*/
module NameRuns {
  import opened Common
  import opened Rows
  import opened Resolution
  import opened Assignments
  import opened Registry
  import opened TenantMembers
  import opened TenantAgents
  import opened TenantStates
  import opened TenantNames
  import opened Catalog
  import opened RoleStore

  const NOTHING_NAMED := NameView(map[], map[], {}, {}, {})

  function ApplicationOf(v: NameView, key: RoleKey): Option<Id> {
    match key
    case Shared(application, _) => application
    case OfTenant(_, application, _) => application
    case Internal(agent) => if agent in v.agents then Some(v.agents[agent].application) else None
  }

  predicate AllActive(v: NameView, application: Option<Id>, names: set<string>) {
    forall n :: n in names ==> (application, n) in v.active
  }

  /** Which rows exist and what is taken, apart from what the name view says. */
  datatype Ground = Ground(
    tenants: map<Id, string>,
    applications: map<Id, string>,
    users: set<Id>,
    keys: map<Id, RoleKey>,
    internalNames: set<(Id, Id, string)>,
    agentNames: set<(Id, Id, string)>,
    permissionNames: set<(Option<Id>, string)>)

  function GroundOf(db: Db): Ground {
    Ground(map t | t in db.tenants :: db.tenants[t].slug,
           map a | a in db.applications :: db.applications[a].slug,
           db.users.Keys,
           map r | r in db.roles :: KeyOf(db.roles[r]),
           set r | r in db.roles && db.roles[r].agent.Some? && db.roles[r].tenant.Some? && db.roles[r].application.Some?
             :: (db.roles[r].tenant.value, db.roles[r].application.value, db.roles[r].name),
           set a | a in db.agents :: (db.agents[a].tenant, db.agents[a].application, db.agents[a].name),
           set p | p in db.permissions :: (db.permissions[p].application, db.permissions[p].name))
  }

  /** The tenant's role of this name can be added: tenant and application exist and nothing there bears the name. */
  predicate RoleFits(g: Ground, v: NameView, tenant: Id, application: Id, name: string) {
    && tenant in g.tenants && application in g.applications
    && OfTenant(tenant, Some(application), name) !in v.roles && (tenant, application, name) !in g.internalNames
  }

  /** An override is set if its permissions are active and it exists or fits in. */
  predicate NameOverride(g: Ground, v: NameView, tenant: Id, application: Id, name: string, names: set<string>, v': NameView) {
    var key := OfTenant(tenant, Some(application), name);
    if AllActive(v, Some(application), names) && (key in v.roles || RoleFits(g, v, tenant, application, name))
    then v' == NameSetGrants(v, key, names) else v' == v
  }

  /** A membership is created unless a row it names is missing or the user has one for that application. */
  ghost predicate NameNewMember(g: Ground, v: NameView, row: MemberView, v': NameView) {
    if row.tenant in g.tenants && row.user in g.users && (row.application.Some? ==> row.application.value in g.applications)
       && !(row.application.Some? && exists m :: m in v.members && v.members[m].tenant == row.tenant
                                                  && v.members[m].application == row.application && v.members[m].user == row.user)
    then exists m: Id :: m !in v.members && v' == v.(members := v.members[m := row])
    else v' == v
  }

  /** An agent is created unless its tenant or application is missing or its name is taken there. */
  ghost predicate NameNewAgent(g: Ground, v: NameView, name: string, row: AgentView, v': NameView) {
    if row.tenant in g.tenants && row.application in g.applications && (row.tenant, row.application, name) !in g.agentNames
    then exists a: Id :: a !in v.agents && v' == v.(agents := v.agents[a := row])
    else v' == v
  }

  /** A role is created unless a row it names is missing or, in a tenant's application, its name is taken. */
  predicate NameNewRole(g: Ground, v: NameView, name: string, tenant: Option<Id>, application: Option<Id>, v': NameView) {
    if (tenant.Some? ==> tenant.value in g.tenants) && (application.Some? ==> application.value in g.applications)
       && (tenant.Some? && application.Some? ==> RoleFits(g, v, tenant.value, application.value, name))
    then v' == v.(roles := v.roles + {if tenant.Some? then OfTenant(tenant.value, application, name) else Shared(application, name)})
    else v' == v
  }

  /** A permission is created if its name has a dot and is free in an application that exists; a platform one always. */
  predicate NameNewPermission(g: Ground, v: NameView, name: string, application: Option<Id>, v': NameView) {
    if '.' in name && (application.Some? ==> application.value in g.applications && (application, name) !in g.permissionNames)
    then v' == v.(active := v.active + {(application, name)}) else v' == v
  }

  /** A known role gets exactly these permissions, if all are active. */
  predicate NameRegrant(g: Ground, v: NameView, role: Id, names: set<string>, v': NameView) {
    if role in g.keys && AllActive(v, ApplicationOf(v, g.keys[role]), names) then v' == NameSetGrants(v, g.keys[role], names)
    else v' == v
  }

  /** Two entries for a role list a permission that no default role of the name in the application grants. */
  ghost predicate NameEntriesClash(g: Ground, v: NameView, slug: string, spec: CatalogSpec) {
    exists i: nat, j: nat, n :: ListedTwice(spec.roles, i, j, n)
      && forall a :: a in g.applications && g.applications[a] == slug ==> (Shared(Some(a), spec.roles[i].name), n) !in v.grants
  }

  /** The row of the slug, or a new one. */
  predicate BearsOrNew(rows: map<Id, string>, slug: string, id: Id) {
    if slug in rows.Values then id in rows && rows[id] == slug else id !in rows
  }

  ghost predicate NameCatalog(g: Ground, v: NameView, slug: string, spec: CatalogSpec, v': NameView) {
    if CatalogWellFormed(spec) && !NameEntriesClash(g, v, slug, spec)
    then exists a :: BearsOrNew(g.applications, slug, a) && v' == NameApplyCatalog(v, a, spec)
    else v' == v
  }

  /** The name has a role in the tenant of the slug, or an application-wide one. */
  ghost predicate NameKnown(g: Ground, v: NameView, slug: string, application: Id, name: string) {
    || Shared(Some(application), name) in v.roles
    || exists t :: t in g.tenants && g.tenants[t] == slug && OfTenant(t, Some(application), name) in v.roles
  }

  ghost predicate NameWellFormed(g: Ground, v: NameView, slug: string, application: Id, state: TenantState) {
    && state.status == "active" && DistinctRefs(state.members) && DistinctNames(state.agents)
    && (forall i :: 0 <= i < |state.members| ==> state.members[i].status == "active" || state.members[i].status == "disabled")
    && (forall i :: 0 <= i < |state.agents| ==> state.agents[i].status == "active" || state.agents[i].status == "disabled")
    && (forall i, n :: 0 <= i < |state.members| && n in state.members[i].roles ==> NameKnown(g, v, slug, application, n))
    && (forall i, n :: 0 <= i < |state.agents| && n in state.agents[i].permissions ==> (Some(application), n) in v.active)
  }

  /** The tenant of the slug has a role of its own with the name of a listed agent's internal role. */
  ghost predicate NameStateClash(g: Ground, v: NameView, slug: string, application: Id, agents: seq<DesiredAgent>) {
    exists t, i :: t in g.tenants && g.tenants[t] == slug && 0 <= i < |agents|
                   && OfTenant(t, Some(application), "agent:" + agents[i].name) in v.roles
  }

  ghost predicate NameState(g: Ground, v: NameView, application: Id, slug: string, state: TenantState, v': NameView) {
    if application in g.applications && NameWellFormed(g, v, slug, application, state)
       && !NameStateClash(g, v, slug, application, state.agents)
    then exists tenant, owners, members, agents ::
           BearsOrNew(g.tenants, slug, tenant) && NameApplied(v, v', tenant, application, state, owners, members, agents)
    else v' == v
  }

  /** What a transaction does to the names, and when it is refused and changes nothing. */
  ghost predicate NameStep(g: Ground, v: NameView, op: Op, v': NameView) {
    match op
    case CreatePermissionOp(name, a) => NameNewPermission(g, v, name, a, v')
    case SetMembershipRolesOp(m, names) => v' == NameSetMembershipRoles(v, m, names)
    case SetAgentRolesOp(a, names) => v' == NameSetAgentRoles(v, a, names)
    case SetRolePermissionsOp(r, names) => NameRegrant(g, v, r, names, v')
    case SetOverrideOp(t, a, name, names) => NameOverride(g, v, t, a, name, names, v')
    case DeleteOverrideOp(t, a, name) => v' == NameDelete(v, t, a, name)
    case CreateMembershipOp(t, a, u, status, names) =>
      NameNewMember(g, v, MemberView(t, a, u, status, Resolvable(v.roles, t, a, names)), v')
    case CreateAgentOp(t, a, name, _, status) => NameNewAgent(g, v, name, AgentView(t, a, status, {}, false), v')
    case CreateRoleOp(name, t, a) => NameNewRole(g, v, name, t, a, v')
    case CatalogOp(slug, catalog, _, _) => NameCatalog(g, v, slug, catalog, v')
    case TenantStateOp(application, slug, state, _) => NameState(g, v, application, slug, state, v')
    case _ => v' == v
  }

  // ---- One step ----

  lemma TenantKeepsView(db: Db, slug: string, name: string, status: string)
    ensures View(Committed(db, CreateTenant(db, slug, name, status))) == View(db)
  {
    SameRoleTables(db, WithTenant(db, Tenant(slug, name, status)));
  }

  lemma ApplicationKeepsView(db: Db, slug: string, name: string, status: string, managedBy: Option<string>)
    ensures View(Committed(db, CreateApplication(db, slug, name, status, managedBy))) == View(db)
  {
    var row := Application(slug, name, status, managedBy);
    SameRoleTables(db, db.(next := db.next + 1, applications := db.applications[db.next := row]));
  }

  /** Registering a tenant, an application, a manager or a user changes nothing about what names mean. */
  lemma RegistrationKeepsView(db: Db, op: Op)
    requires Registers(op) && !op.CreatePermissionOp?
    ensures View(Outcome(db, op)) == View(db)
  {
    match op
    case CreateTenantOp(slug, name, status) => TenantKeepsView(db, slug, name, status);
    case CreateApplicationOp(slug, name, status, managedBy) => ApplicationKeepsView(db, slug, name, status, managedBy);
    case SetManagerOp(a, managedBy) => SameRoleTables(db, SetManager(db, a, managedBy));
    case UpsertUserOp(userRef, displayName, email) => SameRoleTables(db, UpsertUser(db, userRef, displayName, email));
  }

  lemma RegistrationByName(db: Db, op: Op)
    requires Valid(db) && Registers(op)
    ensures NameStep(GroundOf(db), View(db), op, View(Outcome(db, op)))
  {
    if op.CreatePermissionOp? {
      PermissionStepByName(db, op.name, op.app);
    } else {
      RegistrationKeepsView(db, op);
    }
  }

  lemma PermissionStepByName(db: Db, name: string, application: Option<Id>)
    requires Valid(db)
    ensures NameNewPermission(GroundOf(db), View(db), name, application, View(Committed(db, CreatePermission(db, name, application))))
  {
    CreatePermissionByName(db, name, application);
  }

  lemma KeyIsKnown(db: Db, r: Id)
    requires InternalRoles(db.roles, db.agents) && r in db.roles
    ensures KeyOf(db.roles[r]) in View(db).roles && ApplicationOf(View(db), KeyOf(db.roles[r])) == db.roles[r].application
  {
  }

  lemma RegrantByName(db: Db, r: Id, names: set<string>)
    requires Valid(db)
    ensures NameRegrant(GroundOf(db), View(db), r, names, View(Committed(db, SetRolePermissions(db, r, names))))
  {
    SetRolePermissionsByName(db, r, names);
    if r in db.roles {
      KeyIsKnown(db, r);
    }
  }

  lemma AssignmentByName(db: Db, op: Op)
    requires Valid(db) && Assigns(op)
    ensures NameStep(GroundOf(db), View(db), op, View(Outcome(db, op)))
  {
    match op
    case SetMembershipRolesOp(m, names) => SetMembershipRolesByName(db, m, names);
    case SetAgentRolesOp(a, names) => SetAgentRolesByName(db, a, names);
    case SetRolePermissionsOp(r, names) => RegrantByName(db, r, names);
    case SetMaskOp(t, a, names) => SameRoleTables(db, SetMask(db, t, a, names));
  }

  /** A name is taken in a tenant's application by a role of its own or by an internal one. */
  lemma TakenByName(db: Db, tenant: Id, application: Id, name: string)
    ensures NameTaken(db.roles, Some(tenant), Some(application), name) <==>
            || OfTenant(tenant, Some(application), name) in View(db).roles
            || (tenant, application, name) in GroundOf(db).internalNames
    ensures HasNamedRole(db.roles, Some(tenant), Some(application), name) <==> OfTenant(tenant, Some(application), name) in View(db).roles
    ensures HasNamedRole(db.roles, None, Some(application), name) <==> Shared(Some(application), name) in View(db).roles
  {
    if r :| r in db.roles && NamedRole(db.roles[r], Some(tenant), Some(application), name) {
      assert KeyOf(db.roles[r]) == OfTenant(tenant, Some(application), name);
    }
    if r :| r in db.roles && KeyOf(db.roles[r]) == OfTenant(tenant, Some(application), name) {
      assert NamedRole(db.roles[r], Some(tenant), Some(application), name);
    }
    if r :| r in db.roles && NamedRole(db.roles[r], None, Some(application), name) {
      assert KeyOf(db.roles[r]) == Shared(Some(application), name);
    }
    if r :| r in db.roles && KeyOf(db.roles[r]) == Shared(Some(application), name) {
      assert NamedRole(db.roles[r], None, Some(application), name);
    }
  }

  lemma OverrideStepByName(db: Db, tenant: Id, application: Id, name: string, names: set<string>)
    requires Valid(db)
    ensures NameOverride(GroundOf(db), View(db), tenant, application, name, names,
                         View(Committed(db, SetOverride(db, tenant, application, name, names))))
  {
    SetOverrideByName(db, tenant, application, name, names);
    ActivePermissionNames(db.permissions, Some(application), names);
    TakenByName(db, tenant, application, name);
  }

  lemma MemberStepByName(db: Db, tenant: Id, application: Option<Id>, user: Id, status: string, names: set<string>)
    requires Valid(db)
    ensures NameNewMember(GroundOf(db), View(db),
                          MemberView(tenant, application, user, status, Resolvable(View(db).roles, tenant, application, names)),
                          View(Committed(db, CreateMembership(db, tenant, application, user, status, names))))
  {
    CreateMembershipByName(db, tenant, application, user, status, names);
    assert db.next !in View(db).members;
    if m :| m in db.memberships && db.memberships[m].tenant == tenant && db.memberships[m].application == application
            && db.memberships[m].user == user {
      assert View(db).members[m].tenant == tenant;
    }
  }

  lemma AgentStepByName(db: Db, tenant: Id, application: Id, name: string, displayName: Option<string>, status: string)
    requires Valid(db)
    ensures NameNewAgent(GroundOf(db), View(db), name, AgentView(tenant, application, status, {}, false),
                         View(Committed(db, CreateAgent(db, tenant, application, name, displayName, status))))
  {
    CreateAgentByName(db, tenant, application, name, displayName, status);
    assert db.next !in View(db).agents;
  }

  lemma RoleStepByName(db: Db, name: string, tenant: Option<Id>, application: Option<Id>)
    requires Valid(db)
    ensures NameNewRole(GroundOf(db), View(db), name, tenant, application, View(Committed(db, CreateRole(db, name, tenant, application))))
  {
    WithRoleByName(db, Role(name, tenant, application, None));
    if tenant.Some? && application.Some? {
      TakenByName(db, tenant.value, application.value, name);
    }
  }

  lemma DefinitionByName(db: Db, op: Op)
    requires Valid(db) && !Registers(op) && !Provisions(op) && !Assigns(op)
    ensures NameStep(GroundOf(db), View(db), op, View(Outcome(db, op)))
  {
    match op
    case SetOverrideOp(t, a, name, names) => OverrideStepByName(db, t, a, name, names);
    case DeleteOverrideOp(t, a, name) => DeleteOverrideByName(db, t, a, name);
    case CreateMembershipOp(t, a, u, status, names) => MemberStepByName(db, t, a, u, status, names);
    case CreateAgentOp(t, a, name, displayName, status) => AgentStepByName(db, t, a, name, displayName, status);
    case CreateRoleOp(name, t, a) => RoleStepByName(db, name, t, a);
  }

  // ---- Provisioning ----

  lemma LinkedByName(db: Db, slug: string, role: string, permission: string)
    ensures AlreadyLinked(db, slug, role, permission) <==>
            exists a :: a in GroundOf(db).applications && GroundOf(db).applications[a] == slug
                        && (Shared(Some(a), role), permission) in View(db).grants
  {
    if AlreadyLinked(db, slug, role, permission) {
      var a, l :| a in db.applications && db.applications[a].slug == slug
                  && l in db.rolePermissions && l.0 in db.roles && l.1 in db.permissions
                  && NamedRole(db.roles[l.0], None, Some(a), role) && db.permissions[l.1].name == permission;
      assert a in GroundOf(db).applications && (KeyOf(db.roles[l.0]), db.permissions[l.1].name) in View(db).grants;
    }
  }

  lemma EntriesClashByName(db: Db, slug: string, spec: CatalogSpec)
    ensures EntriesClash(db, slug, spec) <==> NameEntriesClash(GroundOf(db), View(db), slug, spec)
  {
    forall role, n ensures AlreadyLinked(db, slug, role, n) <==>
        exists a :: a in GroundOf(db).applications && GroundOf(db).applications[a] == slug && (Shared(Some(a), role), n) in View(db).grants
    {
      LinkedByName(db, slug, role, n);
    }
  }

  lemma CatalogFindsApplication(db: Db, slug: string, spec: CatalogSpec, managedBy: Option<string>, trace: CatalogTrace)
    requires Below(db.applications, db.next) && CatalogRows(db, slug, spec, managedBy, trace)
    ensures BearsOrNew(GroundOf(db).applications, slug, trace.application)
  {
    var rows := GroundOf(db).applications;
    if slug in rows.Values {
      var a :| a in rows && rows[a] == slug;
      assert db.applications[a].slug == slug;
    }
    forall a | a in db.applications ensures a in rows && rows[a] == db.applications[a].slug && rows[a] in rows.Values {
    }
  }

  lemma CatalogStepByName(db: Db, db': Db, slug: string, spec: CatalogSpec, managedBy: Option<string>, trace: CatalogTrace)
    requires Valid(db) && CatalogStep(db, slug, spec, managedBy, trace, db')
    ensures NameCatalog(GroundOf(db), View(db), slug, spec, View(db'))
  {
    EntriesClashByName(db, slug, spec);
    if CatalogWellFormed(spec) && !EntriesClash(db, slug, spec) {
      CatalogByName(db, db', slug, spec, managedBy, trace);
      CatalogFindsApplication(db, slug, spec, managedBy, trace);
    }
  }

  lemma TenantOfSlug(db: Db, slug: string)
    requires UniqueTenantSlugs(db.tenants)
    ensures RoleTenant(db, slug).Some? <==> slug in GroundOf(db).tenants.Values
    ensures forall t :: t in GroundOf(db).tenants && GroundOf(db).tenants[t] == slug <==> RoleTenant(db, slug) == Some(t)
  {
    var rows := GroundOf(db).tenants;
    forall t | t in db.tenants ensures t in rows && rows[t] == db.tenants[t].slug && rows[t] in rows.Values
                                       && (t in TenantsNamed(db, slug) <==> rows[t] == slug) {
    }
    if slug in rows.Values {
      var t :| t in rows && rows[t] == slug;
      assert t in TenantsNamed(db, slug);
    }
  }

  lemma WellFormedByName(db: Db, slug: string, application: Id, state: TenantState)
    requires UniqueTenantSlugs(db.tenants)
    ensures WellFormed(db, RoleTenant(db, slug), application, state) <==> NameWellFormed(GroundOf(db), View(db), slug, application, state)
  {
    TenantOfSlug(db, slug);
    forall n ensures Resolves(db.roles, RoleTenant(db, slug), Some(application), n) <==>
                     NameKnown(GroundOf(db), View(db), slug, application, n)
    {
      TakenByName(db, if RoleTenant(db, slug).Some? then RoleTenant(db, slug).value else 0, application, n);
    }
  }

  lemma StateClashByName(db: Db, slug: string, application: Id, state: TenantState)
    requires UniqueTenantSlugs(db.tenants)
    ensures StateClash(db, application, slug, state) <==> NameStateClash(GroundOf(db), View(db), slug, application, state.agents)
  {
    TenantOfSlug(db, slug);
    if RoleTenant(db, slug).Some? {
      forall i | 0 <= i < |state.agents|
        ensures HasNamedRole(db.roles, RoleTenant(db, slug), Some(application), AgentRoleName(state.agents[i].name)) <==>
                OfTenant(RoleTenant(db, slug).value, Some(application), "agent:" + state.agents[i].name) in View(db).roles
      {
        TakenByName(db, RoleTenant(db, slug).value, application, AgentRoleName(state.agents[i].name));
      }
    }
  }

  lemma StateStepByName(db: Db, db': Db, application: Id, slug: string, state: TenantState, trace: Trace)
    requires Valid(db) && StateStep(db, application, slug, state, trace, db')
    ensures NameState(GroundOf(db), View(db), application, slug, state, View(db'))
  {
    WellFormedByName(db, slug, application, state);
    StateClashByName(db, slug, application, state);
    if application in db.applications && WellFormed(db, RoleTenant(db, slug), application, state)
       && !StateClash(db, application, slug, state) {
      TenantStateByName(db, db', application, slug, state, trace);
      TenantOfSlug(db, slug);
      assert BearsOrNew(GroundOf(db).tenants, slug, trace.tenant);
    }
  }

  lemma ProvisioningByName(db: Db, op: Op, db': Db)
    requires Valid(db) && Step(db, op, db') && Provisions(op)
    ensures NameStep(GroundOf(db), View(db), op, View(db'))
  {
    if op.CatalogOp? {
      CatalogStepByName(db, db', op.slug, op.catalog, op.managedBy, op.catalogTrace);
    } else {
      StateStepByName(db, db', op.application, op.slug, op.state, op.trace);
    }
  }

  /** Each transaction does to the ids what its name-level counterpart does to the names. */
  lemma StepByName(db: Db, op: Op, db': Db)
    requires Valid(db) && Step(db, op, db')
    ensures NameStep(GroundOf(db), View(db), op, View(db'))
  {
    if Provisions(op) {
      ProvisioningByName(db, op, db');
    } else if Registers(op) {
      RegistrationByName(db, op);
    } else if Assigns(op) {
      AssignmentByName(db, op);
    } else {
      DefinitionByName(db, op);
    }
  }

  // ---- Runs ----

  ghost predicate NameRun(grounds: seq<Ground>, views: seq<NameView>, ops: seq<Op>) {
    && |views| == |grounds| == |ops| + 1 && views[0] == NOTHING_NAMED
    && forall i :: 0 <= i < |ops| ==> NameStep(grounds[i], views[i], ops[i], views[i + 1])
  }

  function Grounds(states: seq<Db>): (grounds: seq<Ground>)
    ensures |grounds| == |states| && forall i :: 0 <= i < |states| ==> grounds[i] == GroundOf(states[i])
  {
    seq(|states|, i requires 0 <= i < |states| => GroundOf(states[i]))
  }

  function Views(states: seq<Db>): (views: seq<NameView>)
    ensures |views| == |states| && forall i :: 0 <= i < |states| ==> views[i] == View(states[i])
  {
    seq(|states|, i requires 0 <= i < |states| => View(states[i]))
  }

  /** All permissions of the store are what the names of the view mean. */
  ghost predicate ResolvesAlike(db: Db, v: NameView) {
    forall tenant, application, subject, permission ::
      && (permission in UserPermissions(db, tenant, application, subject) <==> UserMay(v, tenant, application, subject, permission))
      && (permission in AgentPermissions(db, tenant, application, subject) <==> AgentMay(v, tenant, application, subject, permission))
  }

  /**
  A run from the empty store is, seen by name, a run of the name-level operations, and
  every permission it grants at any point is what the names of that run mean there.
  */
  lemma RunByName(states: seq<Db>, ops: seq<Op>)
    requires Run(states, ops) && states[0] == EMPTY
    ensures NameRun(Grounds(states), Views(states), ops)
    ensures forall i :: 0 <= i <= |ops| ==> ResolvesAlike(states[i], Views(states)[i])
  {
    forall i | 0 <= i < |ops| ensures NameStep(GroundOf(states[i]), View(states[i]), ops[i], View(states[i + 1])) {
      EmptyIsValid();
      RunKeepsValid(states, ops, i);
      StepByName(states[i], ops[i], states[i + 1]);
    }
    assert View(EMPTY) == NOTHING_NAMED;
    forall i | 0 <= i <= |ops| ensures ResolvesAlike(states[i], Views(states)[i]) {
      ViewResolvesAlike(states, ops, i);
    }
  }

  lemma ViewResolvesAlike(states: seq<Db>, ops: seq<Op>, i: nat)
    requires Run(states, ops) && states[0] == EMPTY && i <= |ops|
    ensures ResolvesAlike(states[i], View(states[i]))
  {
    forall tenant, application, subject, permission
      ensures permission in UserPermissions(states[i], tenant, application, subject)
              <==> UserMay(View(states[i]), tenant, application, subject, permission)
      ensures permission in AgentPermissions(states[i], tenant, application, subject)
              <==> AgentMay(View(states[i]), tenant, application, subject, permission)
    {
      ReachableResolvesByName(states, ops, i, tenant, application, subject, permission);
    }
  }
}
