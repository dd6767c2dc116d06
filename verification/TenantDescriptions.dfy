/**
The state that describes a tenant's slice as it stands, disabled rows included, is one
that can be applied, and applying it changes nothing.
*/
module TenantDescriptions {
  import opened Common
  import opened Rows
  import opened Resolution
  import opened Assignments
  import opened TenantMembers
  import opened TenantAgents
  import opened TenantStates
  import opened TenantNames

  /** The entry says of the membership whose it is, whether it is active, and which role names it holds. */
  predicate DescribesMember(db: Db, m: Id, entry: DesiredMember)
    requires m in db.memberships
  {
    && entry.userRef in db.identities && db.identities[entry.userRef] == db.memberships[m].user
    && entry.status == db.memberships[m].status
    && (set n | n in entry.roles) == MemberViewOf(db, m).names
  }

  /** The active permissions of the agent's internal role. */
  function OwnNames(db: Db, a: Id): set<string>
    requires a in db.agents
  {
    set g | g in View(db).grants && g.0 == Internal(a) && (Some(db.agents[a].application), g.1) in View(db).active :: g.1
  }

  predicate DescribesAgent(db: Db, a: Id, entry: DesiredAgent)
    requires a in db.agents
  {
    && entry.name == db.agents[a].name && entry.displayName == db.agents[a].displayName && entry.status == db.agents[a].status
    && (set n | n in entry.permissions) == OwnNames(db, a)
  }

  ghost predicate EntryHasMember(db: Db, tenant: Id, application: Id, entry: DesiredMember) {
    exists m :: m in db.memberships && InSlice(db.memberships[m], tenant, application) && DescribesMember(db, m, entry)
  }

  ghost predicate MemberHasEntry(db: Db, m: Id, members: seq<DesiredMember>)
    requires m in db.memberships
  {
    exists i :: 0 <= i < |members| && DescribesMember(db, m, members[i])
  }

  ghost predicate DescribesMembers(db: Db, tenant: Id, application: Id, members: seq<DesiredMember>) {
    && DistinctRefs(members)
    && (forall i :: 0 <= i < |members| ==> EntryHasMember(db, tenant, application, members[i]))
    && (forall m :: m in db.memberships && InSlice(db.memberships[m], tenant, application) ==> MemberHasEntry(db, m, members))
  }

  ghost predicate EntryHasAgent(db: Db, tenant: Id, application: Id, entry: DesiredAgent) {
    exists a :: a in db.agents && AgentInSlice(db.agents[a], tenant, application) && DescribesAgent(db, a, entry)
  }

  ghost predicate AgentHasEntry(db: Db, a: Id, agents: seq<DesiredAgent>)
    requires a in db.agents
  {
    exists i :: 0 <= i < |agents| && DescribesAgent(db, a, agents[i])
  }

  ghost predicate DescribesAgents(db: Db, tenant: Id, application: Id, agents: seq<DesiredAgent>) {
    && DistinctNames(agents)
    && (forall i :: 0 <= i < |agents| ==> EntryHasAgent(db, tenant, application, agents[i]))
    && (forall a :: a in db.agents && AgentInSlice(db.agents[a], tenant, application) ==> AgentHasEntry(db, a, agents))
  }

  /** The state lists the whole slice and nothing else. */
  ghost predicate Describes(db: Db, tenant: Id, application: Id, state: TenantState) {
    && state.status == "active"
    && DescribesMembers(db, tenant, application, state.members) && DescribesAgents(db, tenant, application, state.agents)
  }

  /** Rows of the slice have the two statuses that provisioning knows. */
  ghost predicate KnownStatuses(db: Db, tenant: Id, application: Id) {
    && (forall m :: m in db.memberships && InSlice(db.memberships[m], tenant, application) ==>
          db.memberships[m].status == "active" || db.memberships[m].status == "disabled")
    && (forall a :: a in db.agents && AgentInSlice(db.agents[a], tenant, application) ==>
          db.agents[a].status == "active" || db.agents[a].status == "disabled")
  }

  /** The agents of the slice have their internal role, with active permissions, and no other. */
  ghost predicate ProvisionedSlice(db: Db, tenant: Id, application: Id) {
    forall a :: a in db.agents && AgentInSlice(db.agents[a], tenant, application) ==>
      && AgentViewOf(db, a).provisioned && AgentViewOf(db, a).names == {}
      && forall n :: (Internal(a), n) in View(db).grants ==> (Some(application), n) in View(db).active
  }

  // ---- The description can be applied ----

  lemma HeldNameResolves(db: Db, m: Id, application: Id, n: string)
    requires MemberLinksIsolated(db.memberships, db.roles, db.memberRoles) && m in db.memberships
    requires db.memberships[m].application == Some(application) && n in MemberViewOf(db, m).names
    ensures Resolves(db.roles, Some(db.memberships[m].tenant), Some(application), n)
  {
    var r :| r in Linked(db.memberRoles, m) && r in db.roles && db.roles[r].agent.None? && db.roles[r].name == n;
    assert (m, r) in db.memberRoles;
    assert NamedRole(db.roles[r], db.roles[r].tenant, Some(application), n);
  }

  lemma SlugIsFound(db: Db, tenant: Id)
    requires UniqueTenantSlugs(db.tenants) && tenant in db.tenants
    ensures RoleTenant(db, db.tenants[tenant].slug) == Some(tenant)
  {
    assert tenant in TenantsNamed(db, db.tenants[tenant].slug);
  }

  lemma DescriptionIsWellFormed(db: Db, tenant: Id, application: Id, state: TenantState)
    requires Valid(db) && tenant in db.tenants && Describes(db, tenant, application, state) && KnownStatuses(db, tenant, application)
    ensures WellFormed(db, RoleTenant(db, db.tenants[tenant].slug), application, state)
  {
    SlugIsFound(db, tenant);
    forall i, n | 0 <= i < |state.members| && n in state.members[i].roles
      ensures Resolves(db.roles, Some(tenant), Some(application), n)
    {
      assert EntryHasMember(db, tenant, application, state.members[i]);
      var m :| m in db.memberships && InSlice(db.memberships[m], tenant, application) && DescribesMember(db, m, state.members[i]);
      assert n in (set x | x in state.members[i].roles);
      HeldNameResolves(db, m, application, n);
    }
    forall i, n | 0 <= i < |state.agents| && n in state.agents[i].permissions
      ensures (Some(application), n) in ActiveOf(db.permissions)
    {
      assert EntryHasAgent(db, tenant, application, state.agents[i]);
      var a :| a in db.agents && AgentInSlice(db.agents[a], tenant, application) && DescribesAgent(db, a, state.agents[i]);
      assert n in (set x | x in state.agents[i].permissions);
      OwnNameIsActive(db, a, n);
    }
  }

  lemma OwnNameIsActive(db: Db, a: Id, n: string)
    requires a in db.agents && n in OwnNames(db, a)
    ensures (Some(db.agents[a].application), n) in ActiveOf(db.permissions)
    ensures (Internal(a), n) in View(db).grants
  {
    var g :| g in View(db).grants && g.0 == Internal(a) && (Some(db.agents[a].application), g.1) in View(db).active && g.1 == n;
    assert g == (Internal(a), n);
  }

  /** And it is not refused, if the listed agents were provisioned: their internal roles bear the names. */
  lemma DescriptionDoesNotClash(db: Db, tenant: Id, application: Id, state: TenantState)
    requires Valid(db) && tenant in db.tenants && Describes(db, tenant, application, state) && ProvisionedSlice(db, tenant, application)
    ensures !StateClash(db, application, db.tenants[tenant].slug, state)
  {
    SlugIsFound(db, tenant);
    forall i | 0 <= i < |state.agents|
      ensures !HasNamedRole(db.roles, Some(tenant), Some(application), AgentRoleName(state.agents[i].name))
    {
      assert EntryHasAgent(db, tenant, application, state.agents[i]);
      var a :| a in db.agents && AgentInSlice(db.agents[a], tenant, application) && DescribesAgent(db, a, state.agents[i]);
      assert AgentViewOf(db, a).provisioned;
      var r :| r in db.roles && db.roles[r].agent == Some(a) && (a, r) in db.agentRoles;
      assert db.roles[r].name == AgentRoleName(db.agents[a].name);
    }
  }

  // ---- It changes nothing: members ----

  /** What a run on an existing tenant plans for the members. */
  ghost predicate MembersOfRun(db: Db, db': Db, tenant: Id, application: Id, members: seq<DesiredMember>, owners: seq<Id>, ids: seq<Id>,
                               plan: Plan)
  {
    && UsersEnsured(db, members, db'.users, db'.identities, owners)
    && Planned(db.roles, Some(tenant), application, members, owners, ids, plan)
    && OnePerOwner(db, tenant, application, plan)
  }

  lemma RunOnTenant(db: Db, db': Db, tenant: Id, application: Id, state: TenantState, trace: Trace)
    requires UniqueTenantSlugs(db.tenants) && tenant in db.tenants
    requires Applied(db, db', application, db.tenants[tenant].slug, state, trace)
    ensures trace.tenant == tenant && trace.base == db
    ensures MembersOfRun(db, db', tenant, application, state.members, trace.owners, trace.memberIds, trace.memberPlan)
    ensures AgentsPlanned(db.permissions, application, state.agents, trace.agentIds, trace.agentPlan)
    ensures OnePerName(db, tenant, application, trace.agentPlan)
    ensures AgentRowsSettled(db, tenant, application, db'.agents, trace.agentPlan)
  {
    SlugIsFound(db, tenant);
    HalvesOfRun(db, db', application, db.tenants[tenant].slug, state, trace);
  }

  /** A listed member keeps the membership that its entry describes. */
  lemma DescribedMember(db: Db, db': Db, tenant: Id, application: Id, members: seq<DesiredMember>, owners: seq<Id>, ids: seq<Id>,
                        plan: Plan, i: nat) returns (m: Id)
    requires MembersOfRun(db, db', tenant, application, members, owners, ids, plan)
    requires DescribesMembers(db, tenant, application, members) && i < |members|
    ensures m == ids[i] && m in db.memberships && InSlice(db.memberships[m], tenant, application)
    ensures DescribesMember(db, m, members[i]) && owners[i] == db.memberships[m].user
  {
    assert EntryHasMember(db, tenant, application, members[i]);
    m :| m in db.memberships && InSlice(db.memberships[m], tenant, application) && DescribesMember(db, m, members[i]);
    assert members[i].userRef in db.identities;
    assert ids[i] in plan && plan[ids[i]].owner == owners[i];
  }

  lemma SameMembership(db: Db, tenant: Id, application: Id, m: Id, k: Id)
    requires UniqueMemberships(db.memberships)
    requires m in db.memberships && k in db.memberships && db.memberships[m].user == db.memberships[k].user
    requires InSlice(db.memberships[m], tenant, application) && InSlice(db.memberships[k], tenant, application)
    ensures m == k
  {
  }

  lemma AllMembersListed(db: Db, db': Db, tenant: Id, application: Id, members: seq<DesiredMember>, owners: seq<Id>, ids: seq<Id>,
                         plan: Plan, m: Id)
    requires UniqueMemberships(db.memberships)
    requires MembersOfRun(db, db', tenant, application, members, owners, ids, plan)
    requires DescribesMembers(db, tenant, application, members)
    requires m in db.memberships && InSlice(db.memberships[m], tenant, application)
    ensures m in ids
  {
    assert MemberHasEntry(db, m, members);
    var i :| 0 <= i < |members| && DescribesMember(db, m, members[i]);
    var k := DescribedMember(db, db', tenant, application, members, owners, ids, plan, i);
    SameMembership(db, tenant, application, m, k);
  }

  lemma MembersUnchanged(db: Db, db': Db, tenant: Id, application: Id, members: seq<DesiredMember>, owners: seq<Id>, ids: seq<Id>,
                         plan: Plan)
    requires UniqueMemberships(db.memberships)
    requires MembersOfRun(db, db', tenant, application, members, owners, ids, plan)
    requires DescribesMembers(db, tenant, application, members)
    requires NamedMembers(View(db), View(db'), tenant, application, members, owners, ids)
    ensures View(db').members == View(db).members
  {
    forall i | 0 <= i < |ids|
      ensures ids[i] in View(db).members && View(db').members[ids[i]] == View(db).members[ids[i]]
    {
      var m := DescribedMember(db, db', tenant, application, members, owners, ids, plan, i);
      assert View(db).members[m] == MemberViewOf(db, m);
    }
    forall m | m in View(db).members && m !in ids
      ensures View(db).members[m].tenant != tenant || View(db).members[m].application != Some(application)
    {
      if InSlice(db.memberships[m], tenant, application) {
        AllMembersListed(db, db', tenant, application, members, owners, ids, plan, m);
      }
    }
    MemberViewsAlike(View(db), View(db'), tenant, application, members, owners, ids);
  }

  lemma MemberViewsAlike(v: NameView, v': NameView, tenant: Id, application: Id, members: seq<DesiredMember>, owners: seq<Id>,
                        ids: seq<Id>)
    requires NamedMembers(v, v', tenant, application, members, owners, ids)
    requires forall i :: 0 <= i < |ids| ==> ids[i] in v.members && v'.members[ids[i]] == v.members[ids[i]]
    requires forall m :: m in v.members && m !in ids ==> v.members[m].tenant != tenant || v.members[m].application != Some(application)
    ensures v'.members == v.members
  {
  }

  // ---- It changes nothing: agents ----

  lemma DescribedAgent(db: Db, tenant: Id, application: Id, agents: seq<DesiredAgent>, ids: seq<Id>, plan: AgentPlan, i: nat)
    returns (a: Id)
    requires AgentsPlanned(db.permissions, application, agents, ids, plan) && OnePerName(db, tenant, application, plan)
    requires DescribesAgents(db, tenant, application, agents) && i < |agents|
    ensures a == ids[i] && a in db.agents && AgentInSlice(db.agents[a], tenant, application) && DescribesAgent(db, a, agents[i])
  {
    assert EntryHasAgent(db, tenant, application, agents[i]);
    a :| a in db.agents && AgentInSlice(db.agents[a], tenant, application) && DescribesAgent(db, a, agents[i]);
    assert ids[i] in plan && plan[ids[i]].name == agents[i].name;
  }

  lemma AllAgentsListed(db: Db, tenant: Id, application: Id, agents: seq<DesiredAgent>, ids: seq<Id>, plan: AgentPlan, a: Id)
    requires UniqueAgentNames(db.agents)
    requires AgentsPlanned(db.permissions, application, agents, ids, plan) && OnePerName(db, tenant, application, plan)
    requires DescribesAgents(db, tenant, application, agents)
    requires a in db.agents && AgentInSlice(db.agents[a], tenant, application)
    ensures a in ids
  {
    assert AgentHasEntry(db, a, agents);
    var i :| 0 <= i < |agents| && DescribesAgent(db, a, agents[i]);
    var k := DescribedAgent(db, tenant, application, agents, ids, plan, i);
  }

  lemma AgentsUnchanged(db: Db, db': Db, tenant: Id, application: Id, agents: seq<DesiredAgent>, ids: seq<Id>, plan: AgentPlan)
    requires UniqueAgentNames(db.agents) && ProvisionedSlice(db, tenant, application)
    requires AgentsPlanned(db.permissions, application, agents, ids, plan) && OnePerName(db, tenant, application, plan)
    requires DescribesAgents(db, tenant, application, agents)
    requires NamedAgents(View(db), View(db'), tenant, application, agents, ids)
    ensures View(db').agents == View(db).agents
  {
    forall i | 0 <= i < |ids|
      ensures ids[i] in View(db).agents && View(db').agents[ids[i]] == View(db).agents[ids[i]]
    {
      var a := DescribedAgent(db, tenant, application, agents, ids, plan, i);
      assert View(db).agents[a] == AgentViewOf(db, a);
    }
    forall a | a in View(db).agents && a !in ids
      ensures View(db).agents[a].tenant != tenant || View(db).agents[a].application != application
    {
      if AgentInSlice(db.agents[a], tenant, application) {
        AllAgentsListed(db, tenant, application, agents, ids, plan, a);
      }
    }
    AgentViewsAlike(View(db), View(db'), tenant, application, agents, ids);
  }

  lemma AgentViewsAlike(v: NameView, v': NameView, tenant: Id, application: Id, agents: seq<DesiredAgent>, ids: seq<Id>)
    requires NamedAgents(v, v', tenant, application, agents, ids)
    requires forall i :: 0 <= i < |ids| ==> ids[i] in v.agents && v'.agents[ids[i]] == v.agents[ids[i]]
    requires forall a :: a in v.agents && a !in ids ==> v.agents[a].tenant != tenant || v.agents[a].application != application
    ensures v'.agents == v.agents
  {
  }

  /** What the internal roles grant is what the description lists. */
  lemma GrantsUnchanged(db: Db, tenant: Id, application: Id, agents: seq<DesiredAgent>, ids: seq<Id>, plan: AgentPlan)
    requires ProvisionedSlice(db, tenant, application)
    requires AgentsPlanned(db.permissions, application, agents, ids, plan) && OnePerName(db, tenant, application, plan)
    requires DescribesAgents(db, tenant, application, agents)
    ensures View(db).grants == (set g | g in View(db).grants && g.0 !in InternalKeys(ids)) + InternalGrants(ids, agents)
    ensures InternalKeys(ids) <= View(db).roles
  {
    forall i | 0 <= i < |ids| ensures Internal(ids[i]) in View(db).roles {
      var a := DescribedAgent(db, tenant, application, agents, ids, plan, i);
      assert AgentViewOf(db, a).provisioned;
      var r :| r in db.roles && db.roles[r].agent == Some(a) && (a, r) in db.agentRoles;
      assert KeyOf(db.roles[r]) == Internal(a);
    }
    forall g | g in View(db).grants && g.0 in InternalKeys(ids) ensures g in InternalGrants(ids, agents) {
      var i :| 0 <= i < |ids| && g.0 == Internal(ids[i]);
      var a := DescribedAgent(db, tenant, application, agents, ids, plan, i);
      assert g == (Internal(a), g.1);
      assert g.1 in OwnNames(db, a);
      assert g.1 in (set n | n in agents[i].permissions);
    }
    forall g | g in InternalGrants(ids, agents) ensures g in View(db).grants {
      var i, n :| 0 <= i < |agents| && n in agents[i].permissions && g == (Internal(ids[i]), n);
      var a := DescribedAgent(db, tenant, application, agents, ids, plan, i);
      assert n in (set x | x in agents[i].permissions);
      OwnNameIsActive(db, a, n);
    }
  }

  lemma NothingNamedChanges(db: Db, db': Db, tenant: Id, application: Id, state: TenantState, owners: seq<Id>, memberIds: seq<Id>,
                            plan: Plan, agentIds: seq<Id>, agentPlan: AgentPlan)
    requires UniqueMemberships(db.memberships) && UniqueAgentNames(db.agents)
    requires Describes(db, tenant, application, state) && ProvisionedSlice(db, tenant, application)
    requires MembersOfRun(db, db', tenant, application, state.members, owners, memberIds, plan)
    requires AgentsPlanned(db.permissions, application, state.agents, agentIds, agentPlan)
    requires OnePerName(db, tenant, application, agentPlan)
    requires NameApplied(View(db), View(db'), tenant, application, state, owners, memberIds, agentIds)
    ensures View(db') == View(db)
  {
    MembersUnchanged(db, db', tenant, application, state.members, owners, memberIds, plan);
    AgentsUnchanged(db, db', tenant, application, state.agents, agentIds, agentPlan);
    GrantsUnchanged(db, tenant, application, state.agents, agentIds, agentPlan);
  }

  /**
  Applying the description of a provisioned slice changes nothing about who holds, is or
  may do what.
  */
  lemma DescriptionChangesNothing(db: Db, db': Db, tenant: Id, application: Id, state: TenantState, trace: Trace)
    requires Valid(db) && tenant in db.tenants && application in db.applications
    requires Describes(db, tenant, application, state) && ProvisionedSlice(db, tenant, application)
    requires Applied(db, db', application, db.tenants[tenant].slug, state, trace)
    ensures View(db') == View(db)
  {
    TenantStateByName(db, db', application, db.tenants[tenant].slug, state, trace);
    RunOnTenant(db, db', tenant, application, state, trace);
    NothingNamedChanges(db, db', tenant, application, state, trace.owners, trace.memberIds, trace.memberPlan, trace.agentIds,
                        trace.agentPlan);
  }
}
