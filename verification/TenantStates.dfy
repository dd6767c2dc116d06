/**
Applying the complete desired state of one tenant for one application: validation,
the tenant itself, members, agents. All of it, or nothing.
*/
module TenantStates {
  import opened Common
  import opened Rows
  import opened Resolution
  import opened Assignments
  import opened Registry
  import opened TenantMembers
  import opened TenantAgents

  datatype TenantState = TenantState(name: string, status: string, members: seq<DesiredMember>, agents: seq<DesiredAgent>)

  // ---- Validation ----

  /** One thing wrong with a desired state, and where. */
  datatype Issue =
    | TenantStatusNotManaged
    | DuplicateMember(member: nat)
    | InvalidMemberStatus(member: nat)
    | UnknownRole(member: nat, role: nat)
    | DuplicateAgent(agent: nat)
    | InvalidAgentStatus(agent: nat)
    | UnknownPermission(agent: nat, permission: nat)

  predicate DesiredStatus(status: string) {
    status == ACTIVE || status == DISABLED
  }

  /** The issue really is one, given the role and permission names that exist. */
  predicate Wrong(issue: Issue, state: TenantState, roles: set<string>, permissions: set<string>) {
    match issue
    case TenantStatusNotManaged => state.status != ACTIVE
    case DuplicateMember(i) =>
      i < |state.members| && exists j :: 0 <= j < i && state.members[j].userRef == state.members[i].userRef
    case InvalidMemberStatus(i) => i < |state.members| && !DesiredStatus(state.members[i].status)
    case UnknownRole(i, j) =>
      i < |state.members| && j < |state.members[i].roles| && state.members[i].roles[j] !in roles
    case DuplicateAgent(i) =>
      i < |state.agents| && exists j :: 0 <= j < i && state.agents[j].name == state.agents[i].name
    case InvalidAgentStatus(i) => i < |state.agents| && !DesiredStatus(state.agents[i].status)
    case UnknownPermission(i, j) =>
      i < |state.agents| && j < |state.agents[i].permissions| && state.agents[i].permissions[j] !in permissions
  }

  /** The member an issue is about, counted up to a limit; agents and the tenant are not members. */
  predicate AboutMember(issue: Issue, limit: nat) {
    match issue
    case DuplicateMember(i) => i < limit
    case InvalidMemberStatus(i) => i < limit
    case UnknownRole(i, _) => i < limit
    case _ => false
  }

  predicate AboutAgent(issue: Issue, limit: nat) {
    match issue
    case DuplicateAgent(i) => i < limit
    case InvalidAgentStatus(i) => i < limit
    case UnknownPermission(i, _) => i < limit
    case _ => false
  }

  /** The positions of the names that are not known. */
  method UnknownPositions(names: seq<string>, known: set<string>) returns (positions: seq<nat>)
    ensures forall j :: j in positions <==> 0 <= j < |names| && names[j] !in known
  {
    positions := [];
    for j := 0 to |names|
      invariant forall k :: k in positions <==> 0 <= k < j && names[k] !in known
    {
      if names[j] !in known {
        positions := positions + [j];
      }
    }
  }

  method ValidateMember(state: TenantState, i: nat, seen: set<UserRef>, roles: set<string>, permissions: set<string>)
    returns (issues: seq<Issue>)
    requires i < |state.members| && seen == Refs(state.members[..i])
    ensures forall x :: x in issues <==> AboutMember(x, i + 1) && !AboutMember(x, i) && Wrong(x, state, roles, permissions)
  {
    var member := state.members[i];
    issues := [];
    assert member.userRef in seen <==> exists j :: 0 <= j < i && state.members[j].userRef == member.userRef;
    if member.userRef in seen {
      issues := issues + [DuplicateMember(i)];
    }
    if !DesiredStatus(member.status) {
      issues := issues + [InvalidMemberStatus(i)];
    }
    var positions := UnknownPositions(member.roles, roles);
    var unknown := seq(|positions|, k requires 0 <= k < |positions| => UnknownRole(i, positions[k]));
    forall x ensures x in unknown <==> x.UnknownRole? && x.member == i && x.role in positions {
      if x.UnknownRole? && x.member == i && x.role in positions {
        var k :| 0 <= k < |positions| && positions[k] == x.role;
        assert unknown[k] == x;
      }
    }
    issues := issues + unknown;
  }

  method ValidateAgent(state: TenantState, i: nat, seen: set<string>, roles: set<string>, permissions: set<string>)
    returns (issues: seq<Issue>)
    requires i < |state.agents| && seen == Names(state.agents[..i])
    ensures forall x :: x in issues <==> AboutAgent(x, i + 1) && !AboutAgent(x, i) && Wrong(x, state, roles, permissions)
  {
    var agent := state.agents[i];
    issues := [];
    assert agent.name in seen <==> exists j :: 0 <= j < i && state.agents[j].name == agent.name;
    if agent.name in seen {
      issues := issues + [DuplicateAgent(i)];
    }
    if !DesiredStatus(agent.status) {
      issues := issues + [InvalidAgentStatus(i)];
    }
    var positions := UnknownPositions(agent.permissions, permissions);
    var unknown := seq(|positions|, k requires 0 <= k < |positions| => UnknownPermission(i, positions[k]));
    forall x ensures x in unknown <==> x.UnknownPermission? && x.agent == i && x.permission in positions {
      if x.UnknownPermission? && x.agent == i && x.permission in positions {
        var k :| 0 <= k < |positions| && positions[k] == x.permission;
        assert unknown[k] == x;
      }
    }
    issues := issues + unknown;
  }

  /** Report every issue of a desired state, and nothing that is not one. */
  method Validate(state: TenantState, roles: set<string>, permissions: set<string>) returns (issues: seq<Issue>)
    ensures forall x :: x in issues <==> Wrong(x, state, roles, permissions)
    ensures TenantStatusNotManaged in issues <==> state.status != "active"
    ensures forall i | 0 <= i < |state.members|
              :: InvalidMemberStatus(i) in issues <==> state.members[i].status != "active" && state.members[i].status != "disabled"
    ensures forall i | 0 <= i < |state.agents|
              :: InvalidAgentStatus(i) in issues <==> state.agents[i].status != "active" && state.agents[i].status != "disabled"
  {
    issues := if state.status != ACTIVE then [TenantStatusNotManaged] else [];
    var seen: set<UserRef> := {};
    for i := 0 to |state.members|
      invariant seen == Refs(state.members[..i])
      invariant forall x :: x in issues <==>
                  (x.TenantStatusNotManaged? || AboutMember(x, i)) && Wrong(x, state, roles, permissions)
    {
      var more := ValidateMember(state, i, seen, roles, permissions);
      assert state.members[..i + 1] == state.members[..i] + [state.members[i]];
      RefsOfMore(state.members[..i], state.members[i]);
      issues, seen := issues + more, seen + {state.members[i].userRef};
    }
    var names: set<string> := {};
    for i := 0 to |state.agents|
      invariant names == Names(state.agents[..i])
      invariant forall x :: x in issues <==>
                  && (x.TenantStatusNotManaged? || AboutMember(x, |state.members|) || AboutAgent(x, i))
                  && Wrong(x, state, roles, permissions)
    {
      var more := ValidateAgent(state, i, names, roles, permissions);
      assert state.agents[..i + 1] == state.agents[..i] + [state.agents[i]];
      NamesWithOneMore(state.agents[..i], state.agents[i]);
      issues, names := issues + more, names + {state.agents[i].name};
    }
  }

  lemma NamesWithOneMore(agents: seq<DesiredAgent>, agent: DesiredAgent)
    ensures Names(agents + [agent]) == Names(agents) + {agent.name}
  {
    NamesOfMore(agents, agent);
    var more := agents + [agent];
    assert forall i :: 0 <= i < |agents| ==> more[i] == agents[i];
  }

  // ---- The whole transaction ----

  /** The tenant with this slug, if it exists. */
  function TenantsNamed(db: Db, slug: string): set<Id> {
    set t | t in db.tenants && db.tenants[t].slug == slug
  }

  /** Role names resolve for the tenant that exists, else among the application-wide roles only. */
  ghost function RoleTenant(db: Db, slug: string): (tenant: Option<Id>)
    ensures tenant.Some? ==> tenant.value in TenantsNamed(db, slug)
    ensures tenant.None? <==> TenantsNamed(db, slug) == {}
  {
    if TenantsNamed(db, slug) == {} then None else var t :| t in TenantsNamed(db, slug); Some(t)
  }

  /** The database with the tenant in it: as it was, or with a new active tenant row. */
  ghost predicate TenantEnsured(db: Db, base: Db, slug: string, name: string, tenant: Id) {
    match RoleTenant(db, slug)
    case Some(t) => tenant == t && base == db
    case None =>
      && tenant == db.next
      && base == WithTenant(db, Tenant(slug, name, ACTIVE))
  }

  /** The tenant exists and has a named role that bears the name of a listed agent's internal role. */
  ghost predicate StateClash(db: Db, application: Id, slug: string, state: TenantState) {
    RoleTenant(db, slug).Some? && AgentNameTaken(db.roles, RoleTenant(db, slug).value, application, state.agents)
  }

  ghost predicate AgentNameTaken(roles: map<Id, Role>, tenant: Id, application: Id, agents: seq<DesiredAgent>) {
    exists i :: 0 <= i < |agents| && HasNamedRole(roles, Some(tenant), Some(application), AgentRoleName(agents[i].name))
  }

  /** The state can be applied as far as its content goes. */
  ghost predicate WellFormed(db: Db, roleTenant: Option<Id>, application: Id, state: TenantState) {
    && state.status == "active"
    && DistinctRefs(state.members) && DistinctNames(state.agents)
    && (forall i :: 0 <= i < |state.members| ==> state.members[i].status == "active" || state.members[i].status == "disabled")
    && (forall i, n :: 0 <= i < |state.members| && n in state.members[i].roles ==>
          Resolves(db.roles, roleTenant, Some(application), n))
    && (forall i :: 0 <= i < |state.agents| ==> state.agents[i].status == "active" || state.agents[i].status == "disabled")
    && (forall i, n :: 0 <= i < |state.agents| && n in state.agents[i].permissions ==>
          (Some(application), n) in ActiveOf(db.permissions))
  }

  /** How a successful run got from one database to the next. */
  datatype Trace = Trace(
    tenant: Id,
    base: Db,
    mid: Db,
    owners: seq<Id>,
    memberIds: seq<Id>,
    memberPlan: Plan,
    agentIds: seq<Id>,
    agentPlan: AgentPlan,
    roleOf: RoleOf)

  ghost predicate Applied(db: Db, db': Db, application: Id, slug: string, state: TenantState, trace: Trace) {
    && WellFormed(db, RoleTenant(db, slug), application, state)
    && TenantEnsured(db, trace.base, slug, state.name, trace.tenant)
    && MembersSettled(trace.base, trace.mid, trace.tenant, application, RoleTenant(db, slug), state.members,
                      trace.owners, trace.memberIds, trace.memberPlan)
    && AgentsSettled(trace.mid, db', trace.tenant, application, state.agents, trace.agentIds, trace.agentPlan, trace.roleOf)
  }

  datatype StateResult = StateResult(tenant: Id, members: Counts, agents: Counts)

  datatype StateError = Invalid(issues: seq<Issue>) | Aborted

  /** The role names of all members, the permission names of all agents. */
  function MemberRoleNames(state: TenantState): set<string> {
    set i, j | 0 <= i < |state.members| && 0 <= j < |state.members[i].roles| :: state.members[i].roles[j]
  }

  function AgentPermissionNames(state: TenantState): set<string> {
    set i, j | 0 <= i < |state.agents| && 0 <= j < |state.agents[i].permissions| :: state.agents[i].permissions[j]
  }

  /** The names among those that have a role, and those that have an active permission of the application. */
  function KnownRoles(roles: map<Id, Role>, roleTenant: Option<Id>, application: Id, state: TenantState): set<string> {
    set n | n in MemberRoleNames(state) && Resolves(roles, roleTenant, Some(application), n)
  }

  function KnownPermissions(permissions: map<Id, Permission>, application: Id, state: TenantState): set<string> {
    set n | n in AgentPermissionNames(state) && (Some(application), n) in ActiveOf(permissions)
  }

  /** Looking the names up finds the known ones. */
  lemma LookedUp(db: Db, roleTenant: Option<Id>, application: Id, state: TenantState)
    requires UniqueRoleNames(db.roles)
    ensures NamesOf(db.roles, AssignableIds(db.roles, roleTenant, Some(application), MemberRoleNames(state)))
            == KnownRoles(db.roles, roleTenant, application, state)
    ensures PermissionNames(db.permissions, ActiveIds(db.permissions, Some(application), AgentPermissionNames(state)))
            == KnownPermissions(db.permissions, application, state)
  {
    AssignableNames(db.roles, roleTenant, Some(application), MemberRoleNames(state));
    ActivePermissionNames(db.permissions, Some(application), AgentPermissionNames(state));
  }

  lemma NoIssues(db: Db, roleTenant: Option<Id>, application: Id, state: TenantState, roles: set<string>,
                 permissions: set<string>)
    requires roles == KnownRoles(db.roles, roleTenant, application, state)
    requires permissions == KnownPermissions(db.permissions, application, state)
    ensures WellFormed(db, roleTenant, application, state) <==> forall x :: !Wrong(x, state, roles, permissions)
  {
    forall i, j | 0 <= i < |state.members| && 0 <= j < |state.members[i].roles|
      ensures state.members[i].roles[j] in roles <==> Resolves(db.roles, roleTenant, Some(application), state.members[i].roles[j])
    {
      assert state.members[i].roles[j] in MemberRoleNames(state);
    }
    forall i, j | 0 <= i < |state.agents| && 0 <= j < |state.agents[i].permissions|
      ensures state.agents[i].permissions[j] in permissions
              <==> (Some(application), state.agents[i].permissions[j]) in ActiveOf(db.permissions)
    {
      assert state.agents[i].permissions[j] in AgentPermissionNames(state);
    }
    if forall x :: !Wrong(x, state, roles, permissions) {
      IssueFreeIsWellFormed(db, roleTenant, application, state, roles, permissions);
    }
  }

  lemma IssueFreeIsWellFormed(db: Db, roleTenant: Option<Id>, application: Id, state: TenantState, roles: set<string>,
                              permissions: set<string>)
    requires forall i, j :: 0 <= i < |state.members| && 0 <= j < |state.members[i].roles| ==>
      (state.members[i].roles[j] in roles ==> Resolves(db.roles, roleTenant, Some(application), state.members[i].roles[j]))
    requires forall i, j :: 0 <= i < |state.agents| && 0 <= j < |state.agents[i].permissions| ==>
      (state.agents[i].permissions[j] in permissions ==>
        (Some(application), state.agents[i].permissions[j]) in ActiveOf(db.permissions))
    requires forall x :: !Wrong(x, state, roles, permissions)
    ensures WellFormed(db, roleTenant, application, state)
  {
    assert !Wrong(TenantStatusNotManaged, state, roles, permissions);
    forall i, j | 0 <= i < j < |state.members| ensures state.members[i].userRef != state.members[j].userRef {
      assert !Wrong(DuplicateMember(j), state, roles, permissions);
    }
    forall i, j | 0 <= i < j < |state.agents| ensures state.agents[i].name != state.agents[j].name {
      assert !Wrong(DuplicateAgent(j), state, roles, permissions);
    }
    forall i | 0 <= i < |state.members| ensures DesiredStatus(state.members[i].status) {
      assert !Wrong(InvalidMemberStatus(i), state, roles, permissions);
    }
    forall i | 0 <= i < |state.agents| ensures DesiredStatus(state.agents[i].status) {
      assert !Wrong(InvalidAgentStatus(i), state, roles, permissions);
    }
    forall i, n | 0 <= i < |state.members| && n in state.members[i].roles
      ensures Resolves(db.roles, roleTenant, Some(application), n)
    {
      var j :| 0 <= j < |state.members[i].roles| && state.members[i].roles[j] == n;
      assert !Wrong(UnknownRole(i, j), state, roles, permissions);
    }
    forall i, n | 0 <= i < |state.agents| && n in state.agents[i].permissions
      ensures (Some(application), n) in ActiveOf(db.permissions)
    {
      var j :| 0 <= j < |state.agents[i].permissions| && state.agents[i].permissions[j] == n;
      assert !Wrong(UnknownPermission(i, j), state, roles, permissions);
    }
  }

  lemma BaseIsValid(db: Db, base: Db, slug: string, name: string, tenant: Id)
    requires Valid(db) && TenantEnsured(db, base, slug, name, tenant)
    ensures Valid(base) && tenant in base.tenants && base.tenants[tenant].slug == slug
    ensures base.roles == db.roles && base.permissions == db.permissions && base.applications == db.applications
  {
    if TenantsNamed(db, slug) == {} {
      forall t | t in db.tenants ensures db.tenants[t].slug != slug {
        assert t !in TenantsNamed(db, slug);
      }
      WithTenantValid(db, Tenant(slug, name, ACTIVE));
    }
  }

  method EnsureTenant(db: Db, slug: string, name: string) returns (base: Db, tenant: Id, roleTenant: Option<Id>)
    requires UniqueTenantSlugs(db.tenants)
    ensures TenantEnsured(db, base, slug, name, tenant)
    ensures roleTenant == RoleTenant(db, slug)
  {
    if t :| t in db.tenants && db.tenants[t].slug == slug {
      assert t in TenantsNamed(db, slug);
      base, tenant, roleTenant := db, t, Some(t);
    } else {
      tenant, roleTenant := db.next, None;
      base := WithTenant(db, Tenant(slug, name, ACTIVE));
      assert TenantsNamed(db, slug) == {};
    }
  }

  /** The rows of a well-formed state: both halves, unless an internal role's name is taken. */
  method ApplyParts(db: Db, application: Id, slug: string, state: TenantState, base: Db, tenant: Id, roleTenant: Option<Id>)
    returns (ok: bool, db': Db, counts: StateResult, ghost trace: Trace)
    requires Valid(base) && tenant in base.tenants && application in base.applications
    requires TenantEnsured(db, base, slug, state.name, tenant) && roleTenant == RoleTenant(db, slug)
    requires WellFormed(db, roleTenant, application, state)
    ensures ok ==> Applied(db, db', application, slug, state, trace) && counts.tenant == trace.tenant
    ensures ok ==> MembersCounted(trace.base, trace.mid, trace.memberPlan, counts.members)
                   && AgentsCounted(trace.mid, db', trace.agentPlan, counts.agents)
    ensures !ok ==> AgentNameTaken(base.roles, tenant, application, state.agents)
  {
    var mid, memberCounts, owners, memberIds, memberPlan := ApplyMembers(base, tenant, application, roleTenant, state.members);
    MembersStayValid(base, mid, tenant, application, roleTenant, state.members, owners, memberIds, memberPlan);
    var agentCounts, agentIds, agentPlan, roleOf;
    ok, db', agentCounts, agentIds, agentPlan, roleOf := ApplyAgents(mid, tenant, application, state.agents);
    trace := Trace(tenant, base, mid, owners, memberIds, memberPlan, agentIds, agentPlan, roleOf);
    counts := StateResult(tenant, memberCounts, agentCounts);
    if !ok {
      ghost var i := ClashIsNamed(mid, tenant, application, state.agents, agentIds, agentPlan);
    }
  }

  /**
  Make one tenant's members and agents of an application match the state, or change
  nothing: which of the two, and why, can be told from the arguments.
  */
  method ApplyTenantState(db: Db, application: Id, slug: string, state: TenantState)
    returns (result: Result<StateResult, StateError>, db': Db, ghost trace: Trace)
    requires Valid(db) && application in db.applications
    ensures match result
            case Ok(counts) =>
              && Applied(db, db', application, slug, state, trace) && !StateClash(db, application, slug, state)
              && counts.tenant == trace.tenant
              && MembersCounted(db, db', trace.memberPlan, counts.members)
              && AgentsCounted(db, db', trace.agentPlan, counts.agents)
            case Err(Invalid(issues)) =>
              && db' == db && issues != [] && !WellFormed(db, RoleTenant(db, slug), application, state)
              && (forall x :: x in issues <==> Wrong(x, state, KnownRoles(db.roles, RoleTenant(db, slug), application, state),
                                                     KnownPermissions(db.permissions, application, state)))
            case Err(Aborted) =>
              && db' == db && WellFormed(db, RoleTenant(db, slug), application, state)
              && StateClash(db, application, slug, state)
  {
    var base, tenant, roleTenant := EnsureTenant(db, slug, state.name);
    BaseIsValid(db, base, slug, state.name, tenant);
    trace := Trace(tenant, base, base, [], [], map[], [], map[], map[]);
    var roles := NamesOf(db.roles, AssignableIds(db.roles, roleTenant, Some(application), MemberRoleNames(state)));
    var permissions :=
      PermissionNames(db.permissions, ActiveIds(db.permissions, Some(application), AgentPermissionNames(state)));
    LookedUp(db, roleTenant, application, state);
    var issues := Validate(state, roles, permissions);
    NoIssues(db, roleTenant, application, state, roles, permissions);
    if issues != [] {
      assert issues[0] in issues;
      return Err(Invalid(issues)), db, trace;
    }
    var ok, after, counts;
    ok, after, counts, trace := ApplyParts(db, application, slug, state, base, tenant, roleTenant);
    if !ok {
      NoRolesYet(db, base, slug, state.name, tenant);
      return Err(Aborted), db, trace;
    }
    AppliedDoesNotClash(db, after, application, slug, state, trace);
    HalvesOfRun(db, after, application, slug, state, trace);
    CountedAlike(db, trace.base, trace.mid, after, trace.memberPlan, trace.agentPlan, counts);
    return Ok(counts), after, trace;
  }

  /** Which half of a run writes which tables. */
  lemma HalvesOfRun(db: Db, db': Db, application: Id, slug: string, state: TenantState, trace: Trace)
    requires Applied(db, db', application, slug, state, trace)
    ensures trace.base == db.(next := trace.base.next, tenants := trace.base.tenants)
    ensures trace.mid == trace.base.(next := trace.mid.next, users := db'.users, identities := db'.identities,
                                     memberships := db'.memberships, memberRoles := db'.memberRoles)
    ensures db' == trace.mid.(next := db'.next, agents := db'.agents, roles := db'.roles, agentRoles := db'.agentRoles,
                              rolePermissions := db'.rolePermissions)
  {
  }

  lemma CountedAlike(db: Db, base: Db, mid: Db, db': Db, memberPlan: Plan, agentPlan: AgentPlan, counts: StateResult)
    requires base == db.(next := base.next, tenants := base.tenants)
    requires mid == base.(next := mid.next, users := db'.users, identities := db'.identities,
                          memberships := db'.memberships, memberRoles := db'.memberRoles)
    requires MembersCounted(base, mid, memberPlan, counts.members) && AgentsCounted(mid, db', agentPlan, counts.agents)
    ensures MembersCounted(db, db', memberPlan, counts.members) && AgentsCounted(db, db', agentPlan, counts.agents)
  {
    SameTouchedMembers(base, mid, db, db');
    SameTouchedAgents(mid, db', db, db');
  }

  lemma SameTouchedMembers(from: Db, to: Db, db: Db, db': Db)
    requires from.memberships == db.memberships && from.memberRoles == db.memberRoles
    requires to.memberships == db'.memberships && to.memberRoles == db'.memberRoles
    ensures TouchedMemberships(db, db') == TouchedMemberships(from, to)
  {
  }

  lemma SameTouchedAgents(from: Db, to: Db, db: Db, db': Db)
    requires from.agents == db.agents && from.agentRoles == db.agentRoles
    requires from.roles == db.roles && from.rolePermissions == db.rolePermissions
    requires to.agents == db'.agents && to.agentRoles == db'.agentRoles
    requires to.roles == db'.roles && to.rolePermissions == db'.rolePermissions
    ensures TouchedAgents(db, db') == TouchedAgents(from, to)
  {
  }

  /** After a run, no named role of the tenant bears the name of a listed agent's internal role. */
  lemma NoNamedTwin(db: Db, db': Db, application: Id, slug: string, state: TenantState, trace: Trace)
    requires Applied(db, db', application, slug, state, trace)
    ensures !AgentNameTaken(db'.roles, trace.tenant, application, state.agents)
  {
    forall i | 0 <= i < |state.agents|
      ensures !HasNamedRole(db'.roles, Some(trace.tenant), Some(application), AgentRoleName(state.agents[i].name))
    {
      var a := trace.agentIds[i];
      OnlyInternal(db'.roles, trace.tenant, application, a, state.agents[i].name, trace.roleOf[a]);
    }
  }

  lemma OnlyInternal(roles: map<Id, Role>, tenant: Id, application: Id, a: Id, name: string, r: Id)
    requires UniqueRoleNames(roles) && r in roles && roles[r] == InternalRow(tenant, application, a, name)
    ensures !HasNamedRole(roles, Some(tenant), Some(application), AgentRoleName(name))
  {
  }

  lemma TakenStays(before: map<Id, Role>, after: map<Id, Role>, tenant: Id, application: Id, agents: seq<DesiredAgent>)
    requires Kept(before, after)
    ensures AgentNameTaken(before, tenant, application, agents) ==> AgentNameTaken(after, tenant, application, agents)
  {
    forall name | HasNamedRole(before, Some(tenant), Some(application), name)
      ensures HasNamedRole(after, Some(tenant), Some(application), name)
    {
      var r :| r in before && NamedRole(before[r], Some(tenant), Some(application), name);
      assert NamedRole(after[r], Some(tenant), Some(application), name);
    }
  }

  lemma AppliedDoesNotClash(db: Db, db': Db, application: Id, slug: string, state: TenantState, trace: Trace)
    requires Applied(db, db', application, slug, state, trace)
    ensures !StateClash(db, application, slug, state)
  {
    NoNamedTwin(db, db', application, slug, state, trace);
    TakenStays(db.roles, db'.roles, trace.tenant, application, state.agents);
  }

  /** A valid store and a well-formed state that is refused: the tenant has a role of its own named like the agent's. */
  const CLASHING_STORE := EMPTY.(
    next := 3,
    tenants := map[0 := Tenant("acme", "Acme", ACTIVE)],
    applications := map[1 := Application("documents", "Documents", ACTIVE, None)],
    roles := map[2 := Role("agent:bot", Some(0), Some(1), None)])

  const CLASHING_STATE := TenantState("Acme", ACTIVE, [], [DesiredAgent("bot", [], None, ACTIVE)])

  lemma ClashingStateIsRefused()
    ensures Valid(CLASHING_STORE) && 1 in CLASHING_STORE.applications
    ensures WellFormed(CLASHING_STORE, RoleTenant(CLASHING_STORE, "acme"), 1, CLASHING_STATE)
    ensures StateClash(CLASHING_STORE, 1, "acme", CLASHING_STATE)
  {
    assert CLASHING_STORE.tenants[0].slug == "acme";
    assert 0 in TenantsNamed(CLASHING_STORE, "acme");
    assert AgentRoleName("bot") == "agent:bot";
    assert NamedRole(CLASHING_STORE.roles[2], Some(0), Some(1), AgentRoleName(CLASHING_STATE.agents[0].name));
  }

  // ---- What a successful run means ----

  lemma AppliedIsValid(db: Db, db': Db, application: Id, slug: string, state: TenantState, trace: Trace)
    requires Valid(db) && application in db.applications
    requires Applied(db, db', application, slug, state, trace)
    ensures Valid(trace.base) && Valid(trace.mid) && Valid(db')
  {
    BaseIsValid(db, trace.base, slug, state.name, trace.tenant);
    MembersStayValid(trace.base, trace.mid, trace.tenant, application, RoleTenant(db, slug), state.members,
                     trace.owners, trace.memberIds, trace.memberPlan);
    AgentsStayValid(trace.mid, db', trace.tenant, application, state.agents, trace.agentIds, trace.agentPlan, trace.roleOf);
  }

  /** New internal roles are invisible to memberships. */
  lemma MemberNamesKept(db: Db, db': Db, m: Id)
    requires m in db.memberships && db'.memberships == db.memberships && db'.memberRoles == db.memberRoles
    requires MemberLinksIsolated(db.memberships, db.roles, db.memberRoles)
    requires forall r :: r in db.roles ==> r in db'.roles && db'.roles[r] == db.roles[r]
    ensures MemberViewOf(db', m) == MemberViewOf(db, m)
  {
  }

  /** Every listed member has the desired status and role names. */
  lemma ListedMembersMatch(db: Db, db': Db, application: Id, slug: string, state: TenantState, trace: Trace, i: nat)
    requires Valid(db) && application in db.applications
    requires Applied(db, db', application, slug, state, trace)
    requires i < |state.members|
    ensures state.members[i].userRef in db'.identities && trace.memberIds[i] in db'.memberships
    ensures MemberViewOf(db', trace.memberIds[i])
            == MemberView(trace.tenant, Some(application), db'.identities[state.members[i].userRef], state.members[i].status,
                          set n | n in state.members[i].roles)
  {
    AppliedIsValid(db, db', application, slug, state, trace);
    BaseIsValid(db, trace.base, slug, state.name, trace.tenant);
    ListedMemberHolds(trace.base, trace.mid, trace.tenant, application, RoleTenant(db, slug), state.members,
                      trace.owners, trace.memberIds, trace.memberPlan, i);
    MemberNamesKept(trace.mid, db', trace.memberIds[i]);
  }

  /** Every listed agent has the desired row and resolves to precisely its listed permissions. */
  lemma ListedAgentsMatch(db: Db, db': Db, application: Id, slug: string, state: TenantState, trace: Trace, i: nat)
    requires Valid(db) && application in db.applications
    requires Applied(db, db', application, slug, state, trace)
    requires i < |state.agents|
    ensures trace.agentIds[i] in db'.agents
    ensures db'.agents[trace.agentIds[i]]
            == Agent(trace.tenant, application, state.agents[i].name, state.agents[i].displayName, state.agents[i].status)
    ensures AgentPermissions(db', trace.tenant, application, trace.agentIds[i]) == set n | n in state.agents[i].permissions
  {
    AppliedIsValid(db, db', application, slug, state, trace);
    BaseIsValid(db, trace.base, slug, state.name, trace.tenant);
    ListedAgentHolds(trace.mid, db', trace.tenant, application, state.agents, trace.agentIds, trace.agentPlan, trace.roleOf, i);
  }

  /** The tenant of the slug: as it was if it existed, else new and active under the given name. */
  lemma StateHasTenant(db: Db, db': Db, application: Id, slug: string, state: TenantState, trace: Trace)
    requires Applied(db, db', application, slug, state, trace)
    ensures trace.tenant in db'.tenants && db'.tenants[trace.tenant].slug == slug
    ensures if exists t :: t in db.tenants && db.tenants[t].slug == slug then db'.tenants == db.tenants
            else db'.tenants == db.tenants[trace.tenant := Tenant(slug, state.name, "active")]
  {
    if t :| t in db.tenants && db.tenants[t].slug == slug {
      assert t in TenantsNamed(db, slug);
    }
    HalvesOfRun(db, db', application, slug, state, trace);
  }

  /** A listed reference that was nobody's becomes an active user with the given profile; known users stay as they are. */
  lemma StateHasUsers(db: Db, db': Db, application: Id, slug: string, state: TenantState, trace: Trace, i: nat)
    requires Applied(db, db', application, slug, state, trace) && i < |state.members|
    ensures var member := state.members[i];
            && member.userRef in db'.identities && db'.identities[member.userRef] == trace.owners[i]
            && if member.userRef in db.identities then trace.owners[i] == db.identities[member.userRef]
               else trace.owners[i] !in db.users && trace.owners[i] in db'.users
                    && db'.users[trace.owners[i]] == User(member.displayName, member.email, "active")
    ensures forall u :: u in db.users ==> u in db'.users && db'.users[u] == db.users[u]
  {
    HalvesOfRun(db, db', application, slug, state, trace);
  }

  /** In the slice, what is not listed is disabled. */
  lemma OthersAreDisabled(db: Db, db': Db, application: Id, slug: string, state: TenantState, trace: Trace)
    requires Applied(db, db', application, slug, state, trace)
    ensures forall m | m in db'.memberships && InSlice(db'.memberships[m], trace.tenant, application) && m !in trace.memberIds
              :: db'.memberships[m].status == "disabled"
    ensures forall a | a in db'.agents && AgentInSlice(db'.agents[a], trace.tenant, application) && a !in trace.agentIds
              :: db'.agents[a].status == "disabled"
  {
  }

  // ---- What a successful run leaves alone ----

  /** The role is the internal role of an agent of the slice. */
  predicate InternalIn(role: Role, tenant: Id, application: Id) {
    role.agent.Some? && role.tenant == Some(tenant) && role.application == Some(application)
  }

  /** No row goes away, and none but the given ones differs. */
  ghost predicate Kept<T(!new)>(before: map<Id, T>, after: map<Id, T>) {
    forall i :: i in before ==> i in after && after[i] == before[i]
  }

  ghost predicate PeopleKept(db: Db, db': Db, tenant: Id) {
    && Kept(db.tenants, db'.tenants) && db'.tenants.Keys == db.tenants.Keys + {tenant}
    && Kept(db.users, db'.users)
    && (forall x :: x in db.identities ==> x in db'.identities && db'.identities[x] == db.identities[x])
    && db'.applications == db.applications && db'.permissions == db.permissions && db'.masks == db.masks
  }

  /** Memberships outside the slice keep row and links; new ones lie in the slice. */
  ghost predicate MembersFramed(db: Db, db': Db, tenant: Id, application: Id) {
    && (forall m :: m in db.memberships ==>
          && m in db'.memberships
          && if InSlice(db.memberships[m], tenant, application) then InSlice(db'.memberships[m], tenant, application)
             else db'.memberships[m] == db.memberships[m])
    && (forall m :: m in db'.memberships ==> m in db.memberships || InSlice(db'.memberships[m], tenant, application))
    && (forall m, r | m in db.memberships && !InSlice(db.memberships[m], tenant, application)
          :: (m, r) in db'.memberRoles <==> (m, r) in db.memberRoles)
  }

  /** Likewise for agents. */
  ghost predicate AgentsFramed(db: Db, db': Db, tenant: Id, application: Id) {
    && (forall a :: a in db.agents ==>
          && a in db'.agents
          && if AgentInSlice(db.agents[a], tenant, application) then AgentInSlice(db'.agents[a], tenant, application)
             else db'.agents[a] == db.agents[a])
    && (forall a :: a in db'.agents ==> a in db.agents || AgentInSlice(db'.agents[a], tenant, application))
    && (forall a, r | a in db.agents && !AgentInSlice(db.agents[a], tenant, application)
          :: (a, r) in db'.agentRoles <==> (a, r) in db.agentRoles)
  }

  /** Roles stay, new ones are internal to the slice, and only such roles change their permissions. */
  ghost predicate RolesFramed(db: Db, db': Db, tenant: Id, application: Id) {
    && Kept(db.roles, db'.roles)
    && (forall r :: r in db'.roles && r !in db.roles ==> InternalIn(db'.roles[r], tenant, application))
    && (forall r, p | r in db.roles && !InternalIn(db.roles[r], tenant, application)
          :: (r, p) in db'.rolePermissions <==> (r, p) in db.rolePermissions)
  }

  lemma MembersFrame(db: Db, db': Db, tenant: Id, application: Id, plan: Plan)
    requires RowsSettled(db, tenant, application, db'.memberships, plan)
    requires LinksSettled(db.memberRoles, db'.memberRoles, plan)
    ensures MembersFramed(db, db', tenant, application)
  {
  }

  lemma AgentsFrame(db: Db, db': Db, tenant: Id, application: Id, plan: AgentPlan, roleOf: RoleOf)
    requires AgentRowsSettled(db, tenant, application, db'.agents, plan) && roleOf.Keys == plan.Keys
    requires AgentLinksSettled(db, plan, roleOf, db'.agentRoles, db'.rolePermissions)
    ensures AgentsFramed(db, db', tenant, application)
  {
  }

  lemma RolesFrame(db: Db, db': Db, tenant: Id, application: Id, plan: AgentPlan, roleOf: RoleOf)
    requires RolesEnsured(db, tenant, application, plan, db'.roles, roleOf) && roleOf.Keys == plan.Keys
    requires AgentLinksSettled(db, plan, roleOf, db'.agentRoles, db'.rolePermissions)
    ensures RolesFramed(db, db', tenant, application)
  {
  }

  /**
  A successful run touches nothing but its slice: tenants, users, identities, named roles
  and all rows and links of other tenants and applications are as they were.
  */
  lemma OthersAreUntouched(db: Db, db': Db, application: Id, slug: string, state: TenantState, trace: Trace)
    requires Below(db.tenants, db.next)
    requires Applied(db, db', application, slug, state, trace)
    ensures PeopleKept(db, db', trace.tenant)
    ensures MembersFramed(db, db', trace.tenant, application)
    ensures AgentsFramed(db, db', trace.tenant, application)
    ensures RolesFramed(db, db', trace.tenant, application)
  {
    MembersFrame(trace.base, trace.mid, trace.tenant, application, trace.memberPlan);
    AgentsFrame(trace.mid, db', trace.tenant, application, trace.agentPlan, trace.roleOf);
    RolesFrame(trace.mid, db', trace.tenant, application, trace.agentPlan, trace.roleOf);
    BaseTables(db, trace.base, slug, state.name, trace.tenant);
    MembersFramedAlong(trace.base, trace.mid, db, db', trace.tenant, application);
    AgentsFramedAlong(trace.mid, db', db, trace.tenant, application);
  }

  lemma BaseTables(db: Db, base: Db, slug: string, name: string, tenant: Id)
    requires Below(db.tenants, db.next) && TenantEnsured(db, base, slug, name, tenant)
    ensures Kept(db.tenants, base.tenants) && base.tenants.Keys == db.tenants.Keys + {tenant}
    ensures base == db.(next := base.next, tenants := base.tenants)
  {
  }

  lemma MembersFramedAlong(from: Db, to: Db, db: Db, db': Db, tenant: Id, application: Id)
    requires MembersFramed(from, to, tenant, application)
    requires from.memberships == db.memberships && from.memberRoles == db.memberRoles
    requires to.memberships == db'.memberships && to.memberRoles == db'.memberRoles
    ensures MembersFramed(db, db', tenant, application)
  {
  }

  lemma AgentsFramedAlong(from: Db, to: Db, db: Db, tenant: Id, application: Id)
    requires AgentsFramed(from, to, tenant, application) && RolesFramed(from, to, tenant, application)
    requires from.agents == db.agents && from.agentRoles == db.agentRoles
    requires from.roles == db.roles && from.rolePermissions == db.rolePermissions
    ensures AgentsFramed(db, to, tenant, application) && RolesFramed(db, to, tenant, application)
  {
  }

  // ---- Nobody else's permissions change ----

  lemma FramedEffectiveRoles(db: Db, db': Db, tenant: Id, application: Id, t: Id, linked: set<Id>)
    requires RolesFramed(db, db', tenant, application)
    requires forall r :: r in linked ==> r in db.roles
    ensures EffectiveRoleIds(db'.roles, t, linked) == EffectiveRoleIds(db.roles, t, linked)
  {
    forall o, r | r in linked ensures Overrides(db'.roles, t, o, r) <==> Overrides(db.roles, t, o, r) {
    }
    forall r | r in linked ensures Overridden(db'.roles, t, r) <==> Overridden(db.roles, t, r) {
    }
  }

  lemma FramedUserRoles(db: Db, db': Db, tenant: Id, application: Id, t: Id, a: Id, user: Id)
    requires MembersFramed(db, db', tenant, application)
    requires MemberLinksIsolated(db'.memberships, db'.roles, db'.memberRoles)
    requires t != tenant || a != application
    ensures UserRoleIds(db', t, a, user) == UserRoleIds(db, t, a, user)
  {
  }

  lemma FramedGrants(db: Db, db': Db, tenant: Id, application: Id, ids: set<Id>, a: Option<Id>)
    requires RolesFramed(db, db', tenant, application) && db'.permissions == db.permissions
    requires forall r :: r in ids ==> r in db.roles && !InternalIn(db.roles[r], tenant, application)
    ensures GrantedBy(db', ids, a) == GrantedBy(db, ids, a)
  {
  }

  /** No user gains or loses a permission in another tenant or application. */
  lemma OtherUsersKeepPermissions(db: Db, db': Db, application: Id, slug: string, state: TenantState, trace: Trace,
                                  t: Id, a: Id, user: Id)
    requires Valid(db) && application in db.applications
    requires Applied(db, db', application, slug, state, trace)
    requires t != trace.tenant || a != application
    ensures UserPermissions(db', t, a, user) == UserPermissions(db, t, a, user)
  {
    AppliedIsValid(db, db', application, slug, state, trace);
    OthersAreUntouched(db, db', application, slug, state, trace);
    FramedUserPermissions(db, db', trace.tenant, application, t, a, user);
  }

  lemma FramedUserPermissions(db: Db, db': Db, tenant: Id, application: Id, t: Id, a: Id, user: Id)
    requires MembersFramed(db, db', tenant, application) && RolesFramed(db, db', tenant, application)
    requires db'.permissions == db.permissions
    requires MemberLinksIsolated(db.memberships, db.roles, db.memberRoles)
    requires MemberLinksIsolated(db'.memberships, db'.roles, db'.memberRoles)
    requires t != tenant || a != application
    ensures UserPermissions(db', t, a, user) == UserPermissions(db, t, a, user)
  {
    var linked := UserRoleIds(db, t, a, user);
    FramedUserRoles(db, db', tenant, application, t, a, user);
    LinkedRolesAreNamed(db, t, a, user);
    FramedEffectiveRoles(db, db', tenant, application, t, linked);
    var ids := EffectiveRoleIds(db.roles, t, linked);
    FramedGrants(db, db', tenant, application, ids, Some(a));
  }

  lemma LinkedRolesAreNamed(db: Db, tenant: Id, application: Id, user: Id)
    requires MemberLinksIsolated(db.memberships, db.roles, db.memberRoles)
    ensures var linked := UserRoleIds(db, tenant, application, user);
            && (forall r :: r in linked ==> r in db.roles && db.roles[r].agent.None?)
            && (forall r :: r in EffectiveRoleIds(db.roles, tenant, linked) ==> r in db.roles && db.roles[r].agent.None?)
  {
  }

  lemma FramedAgentRoles(db: Db, db': Db, tenant: Id, application: Id, agent: Id)
    requires AgentsFramed(db, db', tenant, application)
    requires agent in db.agents && !AgentInSlice(db.agents[agent], tenant, application)
    ensures Linked(db'.agentRoles, agent) == Linked(db.agentRoles, agent)
  {
  }

  lemma FramedAgentPermissions(db: Db, db': Db, tenant: Id, application: Id, t: Id, a: Id, agent: Id)
    requires AgentsFramed(db, db', tenant, application) && RolesFramed(db, db', tenant, application)
    requires db'.permissions == db.permissions
    requires AgentLinksIsolated(db.agents, db.roles, db.agentRoles)
    requires t != tenant || a != application
    ensures AgentPermissions(db', t, a, agent) == AgentPermissions(db, t, a, agent)
  {
    if agent in db.agents && AgentInSlice(db.agents[agent], t, a) {
      FramedAgentRoles(db, db', tenant, application, agent);
      var linked := Linked(db.agentRoles, agent);
      forall r | r in linked ensures r in db.roles && db.roles[r].application == Some(a) && VisibleIn(db.roles[r], t) {
        assert (agent, r) in db.agentRoles;
      }
      FramedEffectiveRoles(db, db', tenant, application, t, linked);
      var ids := EffectiveRoleIds(db.roles, t, linked);
      forall l: (Id, Id) | l.0 in ids ensures l in db'.rolePermissions <==> l in db.rolePermissions {
        assert (l.0, l.1) == l;
        assert l.0 in db.roles && !InternalIn(db.roles[l.0], tenant, application);
      }
    }
  }

  /** Nor does any agent. */
  lemma OtherAgentsKeepPermissions(db: Db, db': Db, application: Id, slug: string, state: TenantState, trace: Trace,
                                   t: Id, a: Id, agent: Id)
    requires Valid(db) && application in db.applications
    requires Applied(db, db', application, slug, state, trace)
    requires t != trace.tenant || a != application
    ensures AgentPermissions(db', t, a, agent) == AgentPermissions(db, t, a, agent)
  {
    OthersAreUntouched(db, db', application, slug, state, trace);
    FramedAgentPermissions(db, db', trace.tenant, application, t, a, agent);
  }

  // ---- Applying the same state again ----

  /** The tenant that the first run ensured is the one that the second run finds. */
  lemma TenantFound(db: Db, db': Db, application: Id, slug: string, state: TenantState, trace: Trace)
    requires Valid(db) && Applied(db, db', application, slug, state, trace)
    ensures RoleTenant(db', slug) == Some(trace.tenant)
  {
    BaseIsValid(db, trace.base, slug, state.name, trace.tenant);
    assert db'.tenants == trace.base.tenants;
    assert trace.tenant in TenantsNamed(db', slug);
  }

  /** The internal roles that a run adds are not assignable, and a new tenant has no roles of its own. */
  lemma SameAssignable(roles: map<Id, Role>, roles': map<Id, Role>, tenant: Id, roleTenant: Option<Id>, application: Id,
                       names: set<string>)
    requires Kept(roles, roles') && forall r :: r in roles' && r !in roles ==> roles'[r].agent.Some?
    requires roleTenant == Some(tenant) || (roleTenant.None? && forall r :: r in roles ==> roles[r].tenant != Some(tenant))
    ensures AssignableIds(roles', Some(tenant), Some(application), names)
            == AssignableIds(roles, roleTenant, Some(application), names)
    ensures forall n :: Resolves(roles', Some(tenant), Some(application), n) <==> Resolves(roles, roleTenant, Some(application), n)
  {
  }

  lemma NoRolesYet(db: Db, base: Db, slug: string, name: string, tenant: Id)
    requires Below(db.tenants, db.next) && RoleKeys(db) && TenantEnsured(db, base, slug, name, tenant)
    ensures var roleTenant := RoleTenant(db, slug);
            roleTenant == Some(tenant) || (roleTenant.None? && forall r :: r in db.roles ==> db.roles[r].tenant != Some(tenant))
  {
  }

  /** What the second run needs to know about the first. */
  lemma FirstRunResolves(db: Db, db': Db, application: Id, slug: string, state: TenantState, trace: Trace, names: set<string>)
    requires Valid(db) && application in db.applications
    requires Applied(db, db', application, slug, state, trace)
    ensures AssignableIds(db'.roles, Some(trace.tenant), Some(application), names)
            == AssignableIds(db.roles, RoleTenant(db, slug), Some(application), names)
    ensures forall n :: Resolves(db'.roles, Some(trace.tenant), Some(application), n)
                        <==> Resolves(db.roles, RoleTenant(db, slug), Some(application), n)
  {
    OthersAreUntouched(db, db', application, slug, state, trace);
    NoRolesYet(db, trace.base, slug, state.name, trace.tenant);
    SameAssignable(db.roles, db'.roles, trace.tenant, RoleTenant(db, slug), application, names);
  }

  lemma MembersAgain(db: Db, db': Db, application: Id, slug: string, state: TenantState, trace: Trace, again: Trace)
    requires Valid(db) && application in db.applications
    requires Applied(db, db', application, slug, state, trace)
    requires MembersSettled(db', again.mid, trace.tenant, application, Some(trace.tenant), state.members,
                            again.owners, again.memberIds, again.memberPlan)
    ensures again.mid.(next := db'.next) == db'
  {
    var roleTenant := RoleTenant(db, slug);
    forall i | 0 <= i < |state.members|
      ensures RoleIdsOf(db'.roles, Some(trace.tenant), application, state.members[i])
              == RoleIdsOf(trace.base.roles, roleTenant, application, state.members[i])
    {
      FirstRunResolves(db, db', application, slug, state, trace, set n | n in state.members[i].roles);
    }
    SettledTwice(trace.base, trace.mid, db', trace.tenant, application, roleTenant, Some(trace.tenant), state.members,
                 trace.owners, trace.memberIds, trace.memberPlan, again.mid, again.owners, again.memberIds, again.memberPlan);
  }

  /** Applying the same state again changes no row and no link. */
  lemma SecondRunChangesNothing(db: Db, db': Db, db'': Db, application: Id, slug: string, state: TenantState,
                                trace: Trace, again: Trace)
    requires Valid(db) && application in db.applications
    requires Applied(db, db', application, slug, state, trace)
    requires Applied(db', db'', application, slug, state, again)
    ensures again.tenant == trace.tenant && again.base == db'
    ensures db''.(next := db'.next) == db' && again.mid.(next := db'.next) == db'
  {
    TenantFound(db, db', application, slug, state, trace);
    MembersAgain(db, db', application, slug, state, trace, again);
    AgentsSettledTwice(trace.mid, db', again.mid, trace.tenant, application, state.agents, trace.agentIds, trace.agentPlan,
                       trace.roleOf, db'', again.agentIds, again.agentPlan, again.roleOf);
  }

  /** And counts nothing as created, updated or disabled. */
  lemma SecondRunCountsNothing(db: Db, db': Db, db'': Db, application: Id, slug: string, state: TenantState,
                               trace: Trace, again: Trace, members: Counts, agents: Counts)
    requires Valid(db) && application in db.applications
    requires Applied(db, db', application, slug, state, trace)
    requires Applied(db', db'', application, slug, state, again)
    requires MembersCounted(db', db'', again.memberPlan, members)
    requires AgentsCounted(db', db'', again.agentPlan, agents)
    ensures members == Counts(0, 0, 0) && agents == Counts(0, 0, 0)
  {
    SecondRunChangesNothing(db, db', db'', application, slug, state, trace, again);
    NothingCounted(db', db'', again.memberPlan, members);
    NoAgentCounted(db', db'', again.agentPlan, agents);
  }

  lemma NothingCounted(db: Db, db': Db, plan: Plan, counts: Counts)
    requires db'.(next := db.next) == db && MembersCounted(db, db', plan, counts)
    ensures counts == Counts(0, 0, 0)
  {
  }

  lemma NoAgentCounted(db: Db, db': Db, plan: AgentPlan, counts: Counts)
    requires db'.(next := db.next) == db && AgentsCounted(db, db', plan, counts)
    ensures counts == Counts(0, 0, 0)
  {
    NoAgentTouched(db, db');
    NoCounts(db.agents.Keys, plan.Keys);
  }

  lemma NoAgentTouched(db: Db, db': Db)
    requires db'.agents == db.agents && db'.agentRoles == db.agentRoles
    requires db'.roles == db.roles && db'.rolePermissions == db.rolePermissions
    ensures TouchedAgents(db, db') == {} && db'.agents.Keys == db.agents.Keys
  {
  }

  lemma NoCounts(keys: set<Id>, planned: set<Id>)
    ensures |keys - keys| == 0 && |{} * planned| == 0 && |{} - planned| == 0
  {
    assert keys - keys == {} && {} * planned == {} && {} - planned == {};
  }

  /** A state that has been applied is neither invalid nor refused the second time. */
  lemma SecondRunSucceeds(db: Db, db': Db, application: Id, slug: string, state: TenantState, trace: Trace)
    requires Valid(db) && application in db.applications
    requires Applied(db, db', application, slug, state, trace)
    ensures WellFormed(db', RoleTenant(db', slug), application, state)
    ensures !StateClash(db', application, slug, state)
  {
    TenantFound(db, db', application, slug, state, trace);
    FirstRunResolves(db, db', application, slug, state, trace, {});
    NoNamedTwin(db, db', application, slug, state, trace);
  }
}
