/**
What applying a tenant's desired state does by name: the listed memberships hold exactly
the listed names, the listed agents are provisioned with exactly the listed permissions,
the rest of the slice is disabled, and nothing else changes.
*/
module TenantNames {
  import opened Common
  import opened Rows
  import opened Resolution
  import opened Assignments
  import opened TenantMembers
  import opened TenantAgents
  import opened TenantStates

  /** The keys of the listed agents' internal roles. */
  function InternalKeys(ids: seq<Id>): set<RoleKey> {
    set a | a in ids :: Internal(a)
  }

  function InternalGrants(ids: seq<Id>, agents: seq<DesiredAgent>): set<(RoleKey, string)>
    requires |ids| == |agents|
  {
    set i, n | 0 <= i < |agents| && n in agents[i].permissions :: (Internal(ids[i]), n)
  }

  function DisabledMember(row: MemberView, tenant: Id, application: Id): MemberView {
    if row.tenant == tenant && row.application == Some(application) then row.(status := DISABLED) else row
  }

  function DisabledAgent(row: AgentView, tenant: Id, application: Id): AgentView {
    if row.tenant == tenant && row.application == application then row.(status := DISABLED) else row
  }

  ghost predicate NamedMembers(v: NameView, v': NameView, tenant: Id, application: Id, members: seq<DesiredMember>,
                               owners: seq<Id>, ids: seq<Id>)
  {
    && |owners| == |ids| == |members|
    && (forall m :: m in v'.members <==> m in v.members || m in ids)
    && (forall i | 0 <= i < |ids| :: ids[i] in v'.members
          && v'.members[ids[i]] == MemberView(tenant, Some(application), owners[i], members[i].status, set n | n in members[i].roles))
    && (forall m | m in v.members && m !in ids :: v'.members[m] == DisabledMember(v.members[m], tenant, application))
  }

  ghost predicate NamedAgents(v: NameView, v': NameView, tenant: Id, application: Id, agents: seq<DesiredAgent>, ids: seq<Id>) {
    && |ids| == |agents|
    && (forall a :: a in v'.agents <==> a in v.agents || a in ids)
    && (forall i | 0 <= i < |ids| :: ids[i] in v'.agents
          && v'.agents[ids[i]] == AgentView(tenant, application, agents[i].status, {}, true))
    && (forall a | a in v.agents && a !in ids :: v'.agents[a] == DisabledAgent(v.agents[a], tenant, application))
  }

  /** By name, the whole effect of a state, given which rows stand for whom. */
  ghost predicate NameApplied(v: NameView, v': NameView, tenant: Id, application: Id, state: TenantState, owners: seq<Id>,
                              memberIds: seq<Id>, agentIds: seq<Id>)
  {
    && NamedMembers(v, v', tenant, application, state.members, owners, memberIds)
    && NamedAgents(v, v', tenant, application, state.agents, agentIds)
    && v'.roles == v.roles + InternalKeys(agentIds)
    && v'.grants == (set g | g in v.grants && g.0 !in InternalKeys(agentIds)) + InternalGrants(agentIds, state.agents)
    && v'.active == v.active
  }

  // ---- Members ----

  lemma KeptNames(before: map<Id, Role>, after: map<Id, Role>, ids: set<Id>)
    requires Kept(before, after) && forall r :: r in ids ==> r in before
    ensures NamesOf(after, ids) == NamesOf(before, ids)
  {
  }

  lemma UnlistedMemberView(db: Db, mid: Db, db': Db, tenant: Id, application: Id, plan: Plan, m: Id)
    requires MemberLinksIsolated(db.memberships, db.roles, db.memberRoles)
    requires RowsSettled(db, tenant, application, mid.memberships, plan) && LinksSettled(db.memberRoles, mid.memberRoles, plan)
    requires db'.memberships == mid.memberships && db'.memberRoles == mid.memberRoles && Kept(db.roles, db'.roles)
    requires m in db.memberships && m !in plan
    ensures m in db'.memberships
    ensures MemberViewOf(db', m) == DisabledMember(MemberViewOf(db, m), tenant, application)
  {
    assert Linked(db'.memberRoles, m) == Linked(db.memberRoles, m);
    forall r | r in Linked(db.memberRoles, m) ensures r in db.roles {
      assert (m, r) in db.memberRoles;
    }
    KeptNames(db.roles, db'.roles, Linked(db.memberRoles, m));
  }

  lemma PlannedIds(roles: map<Id, Role>, tenant: Option<Id>, application: Id, members: seq<DesiredMember>, owners: seq<Id>,
                   ids: seq<Id>, plan: Plan)
    requires Planned(roles, tenant, application, members, owners, ids, plan)
    ensures forall m :: m in ids <==> m in plan
  {
  }

  lemma MembersByName(db: Db, mid: Db, db': Db, tenant: Id, application: Id, roleTenant: Option<Id>, members: seq<DesiredMember>,
                      owners: seq<Id>, ids: seq<Id>, plan: Plan)
    requires MemberLinksIsolated(db.memberships, db.roles, db.memberRoles)
    requires MemberLinksIsolated(mid.memberships, mid.roles, mid.memberRoles) && UniqueRoleNames(db.roles)
    requires MembersSettled(db, mid, tenant, application, roleTenant, members, owners, ids, plan)
    requires db'.memberships == mid.memberships && db'.memberRoles == mid.memberRoles && Kept(db.roles, db'.roles)
    requires forall i, n :: 0 <= i < |members| && n in members[i].roles ==> Resolves(db.roles, roleTenant, Some(application), n)
    ensures NamedMembers(View(db), View(db'), tenant, application, members, owners, ids)
  {
    PlannedIds(db.roles, roleTenant, application, members, owners, ids, plan);
    MemberKeys(db, mid, tenant, application, plan);
    forall i | 0 <= i < |ids|
      ensures ids[i] in db'.memberships
      ensures MemberViewOf(db', ids[i])
              == MemberView(tenant, Some(application), owners[i], members[i].status, set n | n in members[i].roles)
    {
      ListedMemberHolds(db, mid, tenant, application, roleTenant, members, owners, ids, plan, i);
      MemberNamesKept(mid, db', ids[i]);
    }
    OtherMemberViews(db, mid, db', tenant, application, plan);
  }

  lemma SameMemberViews(db: Db, base: Db)
    requires base.memberships == db.memberships && base.roles == db.roles && base.memberRoles == db.memberRoles
    ensures View(base).members == View(db).members
  {
  }

  lemma StateMembersByName(db: Db, db': Db, application: Id, slug: string, state: TenantState, trace: Trace)
    requires Valid(db) && application in db.applications
    requires Applied(db, db', application, slug, state, trace)
    ensures NamedMembers(View(db), View(db'), trace.tenant, application, state.members, trace.owners, trace.memberIds)
  {
    AppliedIsValid(db, db', application, slug, state, trace);
    HalvesOfRun(db, db', application, slug, state, trace);
    SameMemberViews(db, trace.base);
    MembersByName(trace.base, trace.mid, db', trace.tenant, application, RoleTenant(db, slug), state.members, trace.owners,
                  trace.memberIds, trace.memberPlan);
  }

  lemma OtherMemberViews(db: Db, mid: Db, db': Db, tenant: Id, application: Id, plan: Plan)
    requires MemberLinksIsolated(db.memberships, db.roles, db.memberRoles)
    requires RowsSettled(db, tenant, application, mid.memberships, plan) && LinksSettled(db.memberRoles, mid.memberRoles, plan)
    requires db'.memberships == mid.memberships && db'.memberRoles == mid.memberRoles && Kept(db.roles, db'.roles)
    ensures forall m | m in db.memberships && m !in plan
              :: m in db'.memberships && MemberViewOf(db', m) == DisabledMember(MemberViewOf(db, m), tenant, application)
  {
    forall m | m in db.memberships && m !in plan
      ensures m in db'.memberships && MemberViewOf(db', m) == DisabledMember(MemberViewOf(db, m), tenant, application)
    {
      UnlistedMemberView(db, mid, db', tenant, application, plan, m);
    }
  }

  lemma MemberKeys(db: Db, db': Db, tenant: Id, application: Id, plan: Plan)
    requires RowsSettled(db, tenant, application, db'.memberships, plan)
    ensures forall m :: m in db'.memberships <==> m in db.memberships || m in plan
  {
  }

  // ---- Agents ----

  lemma ListedAgentView(db: Db, db': Db, tenant: Id, application: Id, plan: AgentPlan, roleOf: RoleOf, a: Id)
    requires AgentRowsSettled(db, tenant, application, db'.agents, plan)
    requires RolesEnsured(db, tenant, application, plan, db'.roles, roleOf) && a in plan && a in roleOf
    requires AgentLinksSettled(db, plan, roleOf, db'.agentRoles, db'.rolePermissions)
    ensures a in db'.agents
    ensures AgentViewOf(db', a) == AgentView(tenant, application, plan[a].status, {}, true)
  {
    assert Linked(db'.agentRoles, a) == {roleOf[a]};
    assert (a, roleOf[a]) in db'.agentRoles;
  }

  lemma UnlistedAgentView(db: Db, db': Db, tenant: Id, application: Id, plan: AgentPlan, roleOf: RoleOf, a: Id)
    requires AgentLinksIsolated(db.agents, db.roles, db.agentRoles)
    requires AgentRowsSettled(db, tenant, application, db'.agents, plan) && Kept(db.roles, db'.roles)
    requires AgentLinksSettled(db, plan, roleOf, db'.agentRoles, db'.rolePermissions)
    requires a in db.agents && a !in plan && a !in roleOf
    ensures a in db'.agents
    ensures AgentViewOf(db', a) == DisabledAgent(AgentViewOf(db, a), tenant, application)
  {
    assert Linked(db'.agentRoles, a) == Linked(db.agentRoles, a);
    forall r | (a, r) in db.agentRoles ensures r in db.roles {
    }
    KeptNames(db.roles, db'.roles, Linked(db.agentRoles, a));
    forall r | (a, r) in db'.agentRoles ensures (a, r) in db.agentRoles {
    }
  }

  lemma AgentsByName(db: Db, db': Db, tenant: Id, application: Id, listed: seq<DesiredAgent>, ids: seq<Id>, plan: AgentPlan,
                     roleOf: RoleOf)
    requires AgentLinksIsolated(db.agents, db.roles, db.agentRoles)
    requires AgentsSettled(db, db', tenant, application, listed, ids, plan, roleOf)
    ensures NamedAgents(View(db), View(db'), tenant, application, listed, ids)
  {
    AgentIdsAreKeys(db, db', tenant, application, listed, ids, plan);
    forall i | 0 <= i < |ids|
      ensures ids[i] in db'.agents && AgentViewOf(db', ids[i]) == AgentView(tenant, application, listed[i].status, {}, true)
    {
      ListedAgentView(db, db', tenant, application, plan, roleOf, ids[i]);
    }
    forall a | a in db.agents && a !in ids
      ensures AgentViewOf(db', a) == DisabledAgent(AgentViewOf(db, a), tenant, application)
    {
      UnlistedAgentView(db, db', tenant, application, plan, roleOf, a);
    }
  }

  lemma SameAgentViews(db: Db, mid: Db)
    requires mid.agents == db.agents && mid.roles == db.roles && mid.agentRoles == db.agentRoles
    ensures View(mid).agents == View(db).agents
  {
  }

  lemma AgentIdsAreKeys(db: Db, db': Db, tenant: Id, application: Id, listed: seq<DesiredAgent>, ids: seq<Id>, plan: AgentPlan)
    requires AgentsPlanned(db.permissions, application, listed, ids, plan)
    requires AgentRowsSettled(db, tenant, application, db'.agents, plan)
    ensures forall a :: a in ids <==> a in plan
    ensures forall a :: a in db'.agents <==> a in db.agents || a in plan
  {
  }

  // ---- Definitions and grants ----

  lemma RolesByName(db: Db, db': Db, tenant: Id, application: Id, ids: seq<Id>, plan: AgentPlan, roleOf: RoleOf)
    requires RolesEnsured(db, tenant, application, plan, db'.roles, roleOf)
    requires forall a :: a in ids <==> a in roleOf
    ensures KeysOf(db'.roles) == KeysOf(db.roles) + InternalKeys(ids)
  {
    forall k | k in KeysOf(db.roles) ensures k in KeysOf(db'.roles) {
      var r :| r in db.roles && KeyOf(db.roles[r]) == k;
      assert KeyOf(db'.roles[r]) == k;
    }
    forall a | a in ids ensures Internal(a) in KeysOf(db'.roles) {
      assert KeyOf(db'.roles[roleOf[a]]) == Internal(a);
    }
  }

  /** The internal role of a listed agent grants exactly what is listed for it. */
  lemma ListedAgentGrants(db: Db, db': Db, tenant: Id, application: Id, listed: seq<DesiredAgent>, ids: seq<Id>,
                          plan: AgentPlan, roleOf: RoleOf, i: nat, n: string)
    requires UniqueRoleNames(db'.roles) && InternalRoles(db'.roles, db'.agents) && db'.permissions == db.permissions
    requires AgentsPlanned(db.permissions, application, listed, ids, plan) && i < |listed|
    requires RolesEnsured(db, tenant, application, plan, db'.roles, roleOf) && roleOf.Keys == plan.Keys
    requires AgentLinksSettled(db, plan, roleOf, db'.agentRoles, db'.rolePermissions)
    requires forall n :: n in listed[i].permissions ==> (Some(application), n) in ActiveOf(db.permissions)
    ensures (Internal(ids[i]), n) in GrantsOf(db'.roles, db'.permissions, db'.rolePermissions) <==> n in listed[i].permissions
  {
    var r := roleOf[ids[i]];
    assert KeyOf(db'.roles[r]) == Internal(ids[i]);
    GrantsAreNames(db', r, n);
    assert Linked(db'.rolePermissions, r) == PermissionIdsOf(db.permissions, application, listed[i]);
    ListedPermissionNames(db.permissions, application, listed[i]);
  }

  /** Other keys grant what they did. */
  lemma OtherGrants(db: Db, db': Db, tenant: Id, application: Id, ids: seq<Id>, plan: AgentPlan, roleOf: RoleOf,
                    g: (RoleKey, string))
    requires PermissionLinksIsolated(db.roles, db.permissions, db.rolePermissions) && db'.permissions == db.permissions
    requires RolesEnsured(db, tenant, application, plan, db'.roles, roleOf)
    requires AgentLinksSettled(db, plan, roleOf, db'.agentRoles, db'.rolePermissions)
    requires (forall a :: a in ids <==> a in roleOf) && g.0 !in InternalKeys(ids)
    ensures g in GrantsOf(db'.roles, db'.permissions, db'.rolePermissions)
            <==> g in GrantsOf(db.roles, db.permissions, db.rolePermissions)
  {
    forall r | r in db'.roles && KeyOf(db'.roles[r]) == g.0 ensures !IsRoleOf(roleOf, r) {
      assert forall a :: a in roleOf ==> KeyOf(db'.roles[roleOf[a]]) in InternalKeys(ids);
    }
    if g in GrantsOf(db'.roles, db'.permissions, db'.rolePermissions) {
      var l :| l in db'.rolePermissions && l.0 in db'.roles && l.1 in db'.permissions
               && g == (KeyOf(db'.roles[l.0]), db'.permissions[l.1].name);
      assert (l.0, l.1) == l && l in db.rolePermissions;
    }
    if g in GrantsOf(db.roles, db.permissions, db.rolePermissions) {
      var l :| l in db.rolePermissions && l.0 in db.roles && l.1 in db.permissions
               && g == (KeyOf(db.roles[l.0]), db.permissions[l.1].name);
      assert (l.0, l.1) == l && l in db'.rolePermissions;
    }
  }

  lemma InternalGrant(ids: seq<Id>, agents: seq<DesiredAgent>, i: nat, g: (RoleKey, string))
    requires |ids| == |agents| && i < |ids| && g.0 == Internal(ids[i])
    requires forall j :: 0 <= j < |ids| && ids[j] == ids[i] ==> j == i
    ensures g in InternalGrants(ids, agents) <==> g.1 in agents[i].permissions
  {
    assert g == (g.0, g.1);
  }

  lemma OneIdPerAgent(permissions: map<Id, Permission>, application: Id, listed: seq<DesiredAgent>, ids: seq<Id>, plan: AgentPlan)
    requires AgentsPlanned(permissions, application, listed, ids, plan) && DistinctNames(listed)
    ensures forall i, j :: 0 <= i < |ids| && 0 <= j < |ids| && ids[i] == ids[j] ==> i == j
  {
  }

  lemma GrantsByName(db: Db, db': Db, tenant: Id, application: Id, listed: seq<DesiredAgent>, ids: seq<Id>, plan: AgentPlan,
                     roleOf: RoleOf, g: (RoleKey, string))
    requires UniqueRoleNames(db'.roles) && InternalRoles(db'.roles, db'.agents) && db'.permissions == db.permissions
    requires PermissionLinksIsolated(db.roles, db.permissions, db.rolePermissions)
    requires AgentsPlanned(db.permissions, application, listed, ids, plan) && DistinctNames(listed)
    requires RolesEnsured(db, tenant, application, plan, db'.roles, roleOf) && roleOf.Keys == plan.Keys
    requires AgentLinksSettled(db, plan, roleOf, db'.agentRoles, db'.rolePermissions)
    requires forall i, n :: 0 <= i < |listed| && n in listed[i].permissions ==> (Some(application), n) in ActiveOf(db.permissions)
    requires forall a :: a in ids <==> a in roleOf
    ensures g in GrantsOf(db'.roles, db'.permissions, db'.rolePermissions)
            <==> if g.0 in InternalKeys(ids) then g in InternalGrants(ids, listed)
                 else g in GrantsOf(db.roles, db.permissions, db.rolePermissions)
  {
    if g.0 in InternalKeys(ids) {
      var i :| 0 <= i < |ids| && g.0 == Internal(ids[i]);
      OneIdPerAgent(db.permissions, application, listed, ids, plan);
      InternalGrant(ids, listed, i, g);
      assert g == (g.0, g.1);
      ListedAgentGrants(db, db', tenant, application, listed, ids, plan, roleOf, i, g.1);
    } else {
      OtherGrants(db, db', tenant, application, ids, plan, roleOf, g);
    }
  }

  lemma AllGrantsByName(db: Db, db': Db, application: Id, slug: string, state: TenantState, trace: Trace)
    requires UniqueRoleNames(db'.roles) && InternalRoles(db'.roles, db'.agents)
    requires PermissionLinksIsolated(db.roles, db.permissions, db.rolePermissions)
    requires Applied(db, db', application, slug, state, trace)
    ensures GrantsOf(db'.roles, db'.permissions, db'.rolePermissions)
            == (set x | x in GrantsOf(db.roles, db.permissions, db.rolePermissions) && x.0 !in InternalKeys(trace.agentIds))
               + InternalGrants(trace.agentIds, state.agents)
  {
    HalvesOfRun(db, db', application, slug, state, trace);
    AgentIdsAreKeys(trace.mid, db', trace.tenant, application, state.agents, trace.agentIds, trace.agentPlan);
    forall g ensures g in GrantsOf(db'.roles, db'.permissions, db'.rolePermissions)
                     <==> if g.0 in InternalKeys(trace.agentIds) then g in InternalGrants(trace.agentIds, state.agents)
                          else g in GrantsOf(db.roles, db.permissions, db.rolePermissions)
    {
      GrantsByName(trace.mid, db', trace.tenant, application, state.agents, trace.agentIds, trace.agentPlan, trace.roleOf, g);
    }
    SplitGrants(GrantsOf(db.roles, db.permissions, db.rolePermissions), GrantsOf(db'.roles, db'.permissions, db'.rolePermissions),
                trace.agentIds, state.agents);
  }

  lemma SplitGrants(before: set<(RoleKey, string)>, after: set<(RoleKey, string)>, ids: seq<Id>, agents: seq<DesiredAgent>)
    requires |ids| == |agents|
    requires forall g :: g in after <==> if g.0 in InternalKeys(ids) then g in InternalGrants(ids, agents) else g in before
    ensures after == (set x | x in before && x.0 !in InternalKeys(ids)) + InternalGrants(ids, agents)
  {
    forall g | g in InternalGrants(ids, agents) ensures g.0 in InternalKeys(ids) {
    }
  }

  lemma DefinitionsByName(db: Db, db': Db, tenant: Id, application: Id, listed: seq<DesiredAgent>, ids: seq<Id>,
                          plan: AgentPlan, roleOf: RoleOf)
    requires AgentsSettled(db, db', tenant, application, listed, ids, plan, roleOf)
    ensures KeysOf(db'.roles) == KeysOf(db.roles) + InternalKeys(ids) && db'.permissions == db.permissions
  {
    AgentIdsAreKeys(db, db', tenant, application, listed, ids, plan);
    RolesByName(db, db', tenant, application, ids, plan, roleOf);
  }

  /** By name, a successful run does exactly what the state says. */
  lemma TenantStateByName(db: Db, db': Db, application: Id, slug: string, state: TenantState, trace: Trace)
    requires Valid(db) && application in db.applications
    requires Applied(db, db', application, slug, state, trace)
    ensures NameApplied(View(db), View(db'), trace.tenant, application, state, trace.owners, trace.memberIds, trace.agentIds)
  {
    AppliedIsValid(db, db', application, slug, state, trace);
    StateMembersByName(db, db', application, slug, state, trace);
    HalvesOfRun(db, db', application, slug, state, trace);
    AgentsByName(trace.mid, db', trace.tenant, application, state.agents, trace.agentIds, trace.agentPlan, trace.roleOf);
    SameAgentViews(db, trace.mid);
    DefinitionsByName(trace.mid, db', trace.tenant, application, state.agents, trace.agentIds, trace.agentPlan, trace.roleOf);
    AllGrantsByName(db, db', application, slug, state, trace);
  }
}
