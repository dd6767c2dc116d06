/**
The agent half of applying a tenant's desired state: listed agents are created or
updated, each gets an internal role that carries exactly its listed permissions and is
its only role, the other agents of the same tenant and application are disabled.

The passes follow the store: agent rows, internal roles, links and counters, the rest.
A named role of the tenant that already bears an internal role's name makes the
database refuse the new row, and the whole transaction with it.
*/
module TenantAgents {
  import opened Common
  import opened Rows
  import opened Resolution
  import opened Assignments
  import opened TenantMembers

  datatype DesiredAgent = DesiredAgent(name: string, permissions: seq<string>, displayName: Option<string>, status: string)

  predicate AgentInSlice(row: Agent, tenant: Id, application: Id) {
    row.tenant == tenant && row.application == application
  }

  ghost predicate DistinctNames(agents: seq<DesiredAgent>) {
    forall i, j :: 0 <= i < j < |agents| ==> agents[i].name != agents[j].name
  }

  function PermissionIdsOf(permissions: map<Id, Permission>, application: Id, agent: DesiredAgent): set<Id> {
    ActiveIds(permissions, Some(application), set n | n in agent.permissions)
  }

  // ---- Agent rows ----

  /** What an agent is to become. */
  datatype AgentWant = AgentWant(name: string, displayName: Option<string>, status: string, permissions: set<Id>)

  type AgentPlan = map<Id, AgentWant>

  ghost predicate AgentRowsEnsured(db: Db, tenant: Id, application: Id, agents: map<Id, Agent>, plan: AgentPlan) {
    && (forall a :: a in plan ==>
          a in agents && agents[a] == Agent(tenant, application, plan[a].name, plan[a].displayName, plan[a].status))
    && (forall a :: a in db.agents ==> a in agents && (a in plan || agents[a] == db.agents[a]))
    && (forall a :: a in agents ==> a in db.agents || a in plan)
    && (forall a :: a in plan && a in db.agents ==>
          AgentInSlice(db.agents[a], tenant, application) && db.agents[a].name == plan[a].name)
  }

  /** The plan has one agent per name, and it is the one that bore the name. */
  ghost predicate OnePerName(db: Db, tenant: Id, application: Id, plan: AgentPlan) {
    && (forall p, q :: p in plan && q in plan && plan[p].name == plan[q].name ==> p == q)
    && (forall p, a | && p in plan && a in db.agents && AgentInSlice(db.agents[a], tenant, application)
                      && db.agents[a].name == plan[p].name
          :: p == a)
  }

  ghost predicate AgentsPlanned(permissions: map<Id, Permission>, application: Id, listed: seq<DesiredAgent>, ids: seq<Id>,
                                plan: AgentPlan)
  {
    && |ids| == |listed|
    && (forall i :: 0 <= i < |listed| ==>
          && ids[i] in plan
          && plan[ids[i]] == AgentWant(listed[i].name, listed[i].displayName, listed[i].status,
                                       PermissionIdsOf(permissions, application, listed[i])))
    && (forall a :: a in plan ==> a in ids)
  }

  method FindAgent(agents: map<Id, Agent>, tenant: Id, application: Id, name: string) returns (found: Option<Id>)
    ensures found.Some? ==>
              && found.value in agents && AgentInSlice(agents[found.value], tenant, application)
              && agents[found.value].name == name
    ensures found.None? ==>
              forall a :: a in agents && AgentInSlice(agents[a], tenant, application) ==> agents[a].name != name
  {
    if a :| a in agents && AgentInSlice(agents[a], tenant, application) && agents[a].name == name {
      found := Some(a);
    } else {
      found := None;
    }
  }

  method EnsureAgent(db: Db, tenant: Id, application: Id, next: Id, agents: map<Id, Agent>, ghost plan: AgentPlan,
                     want: AgentWant)
    returns (next': Id, agents': map<Id, Agent>, id: Id)
    requires UniqueAgentNames(db.agents)
    requires AgentRowsEnsured(db, tenant, application, agents, plan) && OnePerName(db, tenant, application, plan)
    requires Below(agents, next)
    requires forall p :: p in plan ==> plan[p].name != want.name
    ensures id !in plan
    ensures AgentRowsEnsured(db, tenant, application, agents', plan[id := want])
    ensures OnePerName(db, tenant, application, plan[id := want])
    ensures Below(agents', next') && next <= next'
  {
    var found := FindAgent(db.agents, tenant, application, want.name);
    match found {
      case Some(a) =>
        id, next' := a, next;
      case None =>
        id, next' := next, next + 1;
    }
    agents' := agents[id := Agent(tenant, application, want.name, want.displayName, want.status)];
    assert id !in plan;
    OneMoreAgentRow(db, tenant, application, agents, plan, id, want);
    OneMoreName(db, tenant, application, plan, id, want);
  }

  /** The row with this id is the one that bears the wanted name, or there was none. */
  ghost predicate RowFor(db: Db, tenant: Id, application: Id, id: Id, name: string) {
    if id in db.agents then AgentInSlice(db.agents[id], tenant, application) && db.agents[id].name == name
    else forall a | a in db.agents && AgentInSlice(db.agents[a], tenant, application) :: db.agents[a].name != name
  }

  lemma OneMoreAgentRow(db: Db, tenant: Id, application: Id, agents: map<Id, Agent>, plan: AgentPlan, id: Id, want: AgentWant)
    requires AgentRowsEnsured(db, tenant, application, agents, plan)
    requires id !in plan && RowFor(db, tenant, application, id, want.name)
    ensures AgentRowsEnsured(db, tenant, application,
              agents[id := Agent(tenant, application, want.name, want.displayName, want.status)], plan[id := want])
  {
  }

  lemma OneMoreName(db: Db, tenant: Id, application: Id, plan: AgentPlan, id: Id, want: AgentWant)
    requires UniqueAgentNames(db.agents) && OnePerName(db, tenant, application, plan)
    requires forall p :: p in plan ==> plan[p].name != want.name
    requires RowFor(db, tenant, application, id, want.name)
    ensures OnePerName(db, tenant, application, plan[id := want])
  {
  }

  /** Everything the first pass has established for the agents it has seen. */
  ghost predicate AgentsPassed(db: Db, tenant: Id, application: Id, listed: seq<DesiredAgent>, next: Id,
                               agents: map<Id, Agent>, ids: seq<Id>, plan: AgentPlan)
  {
    && AgentRowsEnsured(db, tenant, application, agents, plan) && OnePerName(db, tenant, application, plan)
    && AgentsPlanned(db.permissions, application, listed, ids, plan)
    && db.next <= next && Below(agents, next)
    && forall a :: a in plan ==> plan[a].name in Names(listed)
  }

  function Names(agents: seq<DesiredAgent>): set<string> {
    set i | 0 <= i < |agents| :: agents[i].name
  }

  lemma NextName(agents: seq<DesiredAgent>, i: nat)
    requires DistinctNames(agents) && i < |agents|
    ensures agents[i].name !in Names(agents[..i])
    ensures agents[..i + 1] == agents[..i] + [agents[i]]
  {
  }

  lemma NamesOfMore(agents: seq<DesiredAgent>, agent: DesiredAgent)
    ensures Names(agents) <= Names(agents + [agent]) && agent.name in Names(agents + [agent])
  {
    var more := agents + [agent];
    assert more[|agents|] == agent;
    forall x | x in Names(agents) ensures x in Names(more) {
      var i :| 0 <= i < |agents| && agents[i].name == x;
      assert more[i].name == x;
    }
  }

  method UpsertAgent(db: Db, tenant: Id, application: Id, ghost listed: seq<DesiredAgent>, agent: DesiredAgent, next: Id,
                     agents: map<Id, Agent>, ids: seq<Id>, plan: AgentPlan)
    returns (next': Id, agents': map<Id, Agent>, ids': seq<Id>, plan': AgentPlan)
    requires UniqueAgentNames(db.agents)
    requires AgentsPassed(db, tenant, application, listed, next, agents, ids, plan)
    requires agent.name !in Names(listed)
    ensures AgentsPassed(db, tenant, application, listed + [agent], next', agents', ids', plan')
  {
    var want := AgentWant(agent.name, agent.displayName, agent.status, PermissionIdsOf(db.permissions, application, agent));
    var id;
    NamesOfMore(listed, agent);
    next', agents', id := EnsureAgent(db, tenant, application, next, agents, plan, want);
    ids', plan' := ids + [id], plan[id := want];
    AgentsPlannedMore(db.permissions, application, listed, ids, plan, agent, id);
  }

  lemma AgentsPlannedMore(permissions: map<Id, Permission>, application: Id, listed: seq<DesiredAgent>, ids: seq<Id>,
                          plan: AgentPlan, agent: DesiredAgent, id: Id)
    requires AgentsPlanned(permissions, application, listed, ids, plan) && id !in plan
    ensures var want := AgentWant(agent.name, agent.displayName, agent.status, PermissionIdsOf(permissions, application, agent));
            AgentsPlanned(permissions, application, listed + [agent], ids + [id], plan[id := want])
  {
  }

  /** First pass: the agent rows. */
  method UpsertAgents(db: Db, tenant: Id, application: Id, listed: seq<DesiredAgent>)
    returns (next: Id, agents: map<Id, Agent>, ids: seq<Id>, plan: AgentPlan)
    requires UniqueAgentNames(db.agents) && Below(db.agents, db.next)
    requires DistinctNames(listed)
    ensures AgentsPassed(db, tenant, application, listed, next, agents, ids, plan)
  {
    next, agents, ids, plan := db.next, db.agents, [], map[];
    ghost var done: seq<DesiredAgent> := [];
    for i := 0 to |listed|
      invariant done == listed[..i]
      invariant AgentsPassed(db, tenant, application, done, next, agents, ids, plan)
    {
      NextName(listed, i);
      next, agents, ids, plan := UpsertAgent(db, tenant, application, done, listed[i], next, agents, ids, plan);
      done := done + [listed[i]];
    }
    assert done == listed;
  }

  // ---- Internal roles ----

  /** Agent to its internal role. */
  type RoleOf = map<Id, Id>

  function InternalRow(tenant: Id, application: Id, agent: Id, name: string): Role {
    Role(AgentRoleName(name), Some(tenant), Some(application), Some(agent))
  }

  ghost predicate RolesEnsured(db: Db, tenant: Id, application: Id, plan: AgentPlan, roles: map<Id, Role>, roleOf: RoleOf) {
    && (forall a :: a in roleOf ==>
          a in plan && roleOf[a] in roles && roles[roleOf[a]] == InternalRow(tenant, application, a, plan[a].name))
    && (forall r :: r in db.roles ==> r in roles && roles[r] == db.roles[r])
    && (forall r :: r in roles && r !in db.roles ==>
          roles[r].agent.Some? && roles[r].agent.value in roleOf && roleOf[roles[r].agent.value] == r)
    && UniqueRoleNames(roles)
  }

  /** The agent needs a new internal role whose name another role of the tenant bears. */
  ghost predicate Blocked(roles: map<Id, Role>, tenant: Id, application: Id, a: Id, name: string) {
    && (forall r :: r in roles ==> roles[r].agent != Some(a))
    && NameTaken(roles, Some(tenant), Some(application), AgentRoleName(name))
  }

  /** Some listed agent is blocked. */
  ghost predicate Clash(db: Db, tenant: Id, application: Id, plan: AgentPlan) {
    exists a :: a in plan && Blocked(db.roles, tenant, application, a, plan[a].name)
  }

  method FindInternalRole(roles: map<Id, Role>, agent: Id) returns (found: Option<Id>)
    ensures found.Some? ==> found.value in roles && roles[found.value].agent == Some(agent)
    ensures found.None? ==> forall r :: r in roles ==> roles[r].agent != Some(agent)
  {
    if r :| r in roles && roles[r].agent == Some(agent) {
      found := Some(r);
    } else {
      found := None;
    }
  }

  /** A planned agent that has an internal role already has the right one. */
  lemma OwnInternalRole(db: Db, tenant: Id, application: Id, plan: AgentPlan, a: Id, r: Id)
    requires InternalRoles(db.roles, db.agents)
    requires forall a :: a in plan && a in db.agents ==>
               AgentInSlice(db.agents[a], tenant, application) && db.agents[a].name == plan[a].name
    requires a in plan && r in db.roles && db.roles[r].agent == Some(a)
    ensures db.roles[r] == InternalRow(tenant, application, a, plan[a].name)
  {
  }

  method EnsureInternalRole(db: Db, tenant: Id, application: Id, plan: AgentPlan, next: Id, roles: map<Id, Role>,
                            roleOf: RoleOf, a: Id)
    returns (ok: bool, next': Id, roles': map<Id, Role>, roleOf': RoleOf)
    requires InternalRoles(db.roles, db.agents)
    requires forall a :: a in plan && a in db.agents ==>
               AgentInSlice(db.agents[a], tenant, application) && db.agents[a].name == plan[a].name
    requires OnePerName(db, tenant, application, plan)
    requires RolesEnsured(db, tenant, application, plan, roles, roleOf) && Below(roles, next)
    requires a in plan && a !in roleOf
    ensures ok ==> RolesEnsured(db, tenant, application, plan, roles', roleOf') && roleOf'.Keys == roleOf.Keys + {a}
    ensures ok ==> Below(roles', next') && next <= next'
    ensures ok <==> !Blocked(db.roles, tenant, application, a, plan[a].name)
  {
    var name := AgentRoleName(plan[a].name);
    var found := FindInternalRole(db.roles, a);
    match found {
      case Some(r) =>
        OwnInternalRole(db, tenant, application, plan, a, r);
        KnownInternalRole(db, tenant, application, plan, roles, roleOf, a, r);
        ok, next', roles', roleOf' := true, next, roles, roleOf[a := r];
      case None =>
        ok := !NameTaken(roles, Some(tenant), Some(application), name);
        next', roles', roleOf' := next + 1, roles[next := InternalRow(tenant, application, a, plan[a].name)], roleOf[a := next];
        if !ok {
          OnlyNamedRolesClash(db, tenant, application, plan, roles, roleOf, a);
        } else {
          NewInternalRole(db, tenant, application, plan, next, roles, roleOf, a);
        }
    }
  }

  lemma KnownInternalRole(db: Db, tenant: Id, application: Id, plan: AgentPlan, roles: map<Id, Role>, roleOf: RoleOf, a: Id, r: Id)
    requires RolesEnsured(db, tenant, application, plan, roles, roleOf) && a in plan && a !in roleOf
    requires r in db.roles && db.roles[r] == InternalRow(tenant, application, a, plan[a].name)
    ensures RolesEnsured(db, tenant, application, plan, roles, roleOf[a := r])
  {
  }

  lemma NewInternalRole(db: Db, tenant: Id, application: Id, plan: AgentPlan, next: Id, roles: map<Id, Role>, roleOf: RoleOf, a: Id)
    requires RolesEnsured(db, tenant, application, plan, roles, roleOf) && Below(roles, next)
    requires a in plan && a !in roleOf
    requires !NameTaken(roles, Some(tenant), Some(application), AgentRoleName(plan[a].name))
    ensures RolesEnsured(db, tenant, application, plan, roles[next := InternalRow(tenant, application, a, plan[a].name)],
                         roleOf[a := next])
    ensures !NameTaken(db.roles, Some(tenant), Some(application), AgentRoleName(plan[a].name))
  {
    NameStaysUnique(roles, next, InternalRow(tenant, application, a, plan[a].name));
    NotTakenBefore(db.roles, roles, Some(tenant), Some(application), AgentRoleName(plan[a].name));
  }

  lemma NameStaysUnique(roles: map<Id, Role>, next: Id, role: Role)
    requires UniqueRoleNames(roles) && next !in roles && !NameTaken(roles, role.tenant, role.application, role.name)
    ensures UniqueRoleNames(roles[next := role])
  {
  }

  lemma NotTakenBefore(before: map<Id, Role>, roles: map<Id, Role>, tenant: Option<Id>, application: Option<Id>, name: string)
    requires forall r :: r in before ==> r in roles && roles[r] == before[r]
    requires !NameTaken(roles, tenant, application, name)
    ensures !NameTaken(before, tenant, application, name)
  {
  }

  /** The internal roles created on the way never clash with each other. */
  lemma OnlyNamedRolesClash(db: Db, tenant: Id, application: Id, plan: AgentPlan, roles: map<Id, Role>, roleOf: RoleOf, a: Id)
    requires OnePerName(db, tenant, application, plan)
    requires RolesEnsured(db, tenant, application, plan, roles, roleOf)
    requires a in plan && a !in roleOf
    requires NameTaken(roles, Some(tenant), Some(application), AgentRoleName(plan[a].name))
    ensures NameTaken(db.roles, Some(tenant), Some(application), AgentRoleName(plan[a].name))
  {
    var name := AgentRoleName(plan[a].name);
    forall r | r in roles && r !in db.roles ensures roles[r].name != name {
      var b := roles[r].agent.value;
      assert roles[r].name == AgentRoleName(plan[b].name) && plan[b].name != plan[a].name;
      assert roles[r].name[|"agent:"|..] == plan[b].name && name[|"agent:"|..] == plan[a].name;
    }
    var r :| r in roles && roles[r].tenant == Some(tenant) && roles[r].application == Some(application) && roles[r].name == name;
    assert r in db.roles && roles[r] == db.roles[r];
  }

  /** Second pass: an internal role for every listed agent, unless the database refuses one. */
  method EnsureInternalRoles(db: Db, tenant: Id, application: Id, plan: AgentPlan, next: Id)
    returns (ok: bool, next': Id, roles: map<Id, Role>, roleOf: RoleOf)
    requires InternalRoles(db.roles, db.agents) && UniqueRoleNames(db.roles) && Below(db.roles, next)
    requires forall a :: a in plan && a in db.agents ==>
               AgentInSlice(db.agents[a], tenant, application) && db.agents[a].name == plan[a].name
    requires OnePerName(db, tenant, application, plan)
    ensures ok <==> !Clash(db, tenant, application, plan)
    ensures ok ==> RolesEnsured(db, tenant, application, plan, roles, roleOf) && roleOf.Keys == plan.Keys
    ensures ok ==> Below(roles, next') && next <= next'
  {
    ok, next', roles, roleOf := true, next, db.roles, map[];
    var todo := plan.Keys;
    while todo != {}
      invariant todo <= plan.Keys
      invariant RolesEnsured(db, tenant, application, plan, roles, roleOf) && roleOf.Keys == plan.Keys - todo
      invariant Below(roles, next') && next <= next'
      invariant forall a :: a in plan && a !in todo ==> !Blocked(db.roles, tenant, application, a, plan[a].name)
      decreases todo
    {
      var a :| a in todo;
      ok, next', roles, roleOf := EnsureInternalRole(db, tenant, application, plan, next', roles, roleOf, a);
      if !ok {
        return;
      }
      todo := todo - {a};
    }
  }

  /** A clash is always with a named role: another agent's internal role bears another name. */
  lemma ClashIsNamed(db: Db, tenant: Id, application: Id, listed: seq<DesiredAgent>, ids: seq<Id>, plan: AgentPlan)
    returns (i: nat)
    requires InternalRoles(db.roles, db.agents) && OnePerName(db, tenant, application, plan)
    requires AgentsPlanned(db.permissions, application, listed, ids, plan)
    requires Clash(db, tenant, application, plan)
    ensures i < |listed| && HasNamedRole(db.roles, Some(tenant), Some(application), AgentRoleName(listed[i].name))
  {
    var a :| a in plan && Blocked(db.roles, tenant, application, a, plan[a].name);
    i :| 0 <= i < |ids| && ids[i] == a;
    var r :| r in db.roles && db.roles[r].tenant == Some(tenant) && db.roles[r].application == Some(application)
             && db.roles[r].name == AgentRoleName(plan[a].name);
    forall b | b in db.agents && AgentRoleName(db.agents[b].name) == AgentRoleName(plan[a].name)
      ensures db.agents[b].name == plan[a].name
    {
      SameAgentName(db.agents[b].name, plan[a].name);
    }
    assert NamedRole(db.roles[r], Some(tenant), Some(application), AgentRoleName(plan[a].name));
  }

  lemma SameAgentName(x: string, y: string)
    requires AgentRoleName(x) == AgentRoleName(y)
    ensures x == y
  {
    assert AgentRoleName(x)[|"agent:"|..] == x && AgentRoleName(y)[|"agent:"|..] == y;
  }

  // ---- Links ----

  /** The permissions that an agent's internal role carries. */
  function OwnPermissions(roles: map<Id, Role>, links: Links, a: Id): set<Id> {
    set l | l in links && l.0 in roles && roles[l.0].agent == Some(a) :: l.1
  }

  /** Every planned agent has its internal role as its only role, and that role exactly the wanted permissions. */
  ghost predicate AgentLinksSettled(db: Db, plan: AgentPlan, roleOf: RoleOf, agentRoles: Links, rolePermissions: Links) {
    && (forall a, r :: (a, r) in agentRoles <==> if a in roleOf then r == roleOf[a] else (a, r) in db.agentRoles)
    && (forall a :: a in roleOf && a in plan ==> Linked(rolePermissions, roleOf[a]) == plan[a].permissions)
    && (forall r: Id, p: Id :: !IsRoleOf(roleOf, r) ==> ((r, p) in rolePermissions <==> (r, p) in db.rolePermissions))
  }

  ghost predicate IsRoleOf(roleOf: RoleOf, r: Id) {
    exists a :: a in roleOf && roleOf[a] == r
  }

  /** The listed agents that existed before and are not yet as wanted. */
  ghost function ChangedAgents(db: Db, plan: AgentPlan, roleOf: RoleOf): set<Id> {
    set a | a in roleOf && a in plan && a in db.agents
            && (|| db.agents[a].status != plan[a].status
                || db.agents[a].displayName != plan[a].displayName
                || Linked(db.rolePermissions, roleOf[a]) != plan[a].permissions
                || Linked(db.agentRoles, a) != {roleOf[a]})
  }

  ghost predicate Injective(roleOf: RoleOf) {
    forall a, b :: a in roleOf && b in roleOf && roleOf[a] == roleOf[b] ==> a == b
  }

  lemma OneMoreAgent(db: Db, plan: AgentPlan, roleOf: RoleOf, a: Id, r: Id)
    requires a !in roleOf && a in plan
    ensures |ChangedAgents(db, plan, roleOf[a := r])|
            == |ChangedAgents(db, plan, roleOf)|
               + if && a in db.agents
                    && (|| db.agents[a].status != plan[a].status
                        || db.agents[a].displayName != plan[a].displayName
                        || Linked(db.rolePermissions, r) != plan[a].permissions
                        || Linked(db.agentRoles, a) != {r})
                 then 1 else 0
  {
    var before, after := ChangedAgents(db, plan, roleOf), ChangedAgents(db, plan, roleOf[a := r]);
    assert a !in before;
    if a in after {
      assert after == before + {a};
    } else {
      assert after == before;
    }
  }

  lemma OneMoreAgentLinked(db: Db, plan: AgentPlan, done: RoleOf, a: Id, r: Id, agentRoles: Links, rolePermissions: Links)
    requires AgentLinksSettled(db, plan, done, agentRoles, rolePermissions)
    requires a !in done && a in plan && Injective(done[a := r])
    ensures AgentLinksSettled(db, plan, done[a := r], Replace(agentRoles, a, {r}), Replace(rolePermissions, r, plan[a].permissions))
  {
    var done' := done[a := r];
    var perms := Replace(rolePermissions, r, plan[a].permissions);
    assert Linked(perms, r) == plan[a].permissions;
    forall b | b in done ensures Linked(perms, done[b]) == Linked(rolePermissions, done[b]) {
      assert b in done' && done'[b] == done[b] && done'[a] == r && a != b;
    }
    forall q: Id | !IsRoleOf(done', q) ensures !IsRoleOf(done, q) && q != r {
      assert a in done' && done'[a] == r;
      assert forall b :: b in done ==> b in done' && done'[b] == done[b];
    }
  }

  /** Third pass: the link rows of one agent, and its counter. */
  method LinkAgent(db: Db, plan: AgentPlan, ghost done: RoleOf, a: Id, r: Id, agentRoles: Links, rolePermissions: Links,
                   created: nat, updated: nat)
    returns (agentRoles': Links, rolePermissions': Links, created': nat, updated': nat)
    requires AgentLinksSettled(db, plan, done, agentRoles, rolePermissions)
    requires a !in done && a in plan && Injective(done[a := r])
    requires updated == |ChangedAgents(db, plan, done)|
    ensures AgentLinksSettled(db, plan, done[a := r], agentRoles', rolePermissions')
    ensures created' == created + if a in db.agents then 0 else 1
    ensures updated' == |ChangedAgents(db, plan, done[a := r])|
  {
    assert !IsRoleOf(done, r) by {
      var more := done[a := r];
      assert a in more && more[a] == r;
      assert forall b :: b in done ==> b in more && more[b] == done[b];
    }
    assert Linked(rolePermissions, r) == Linked(db.rolePermissions, r);
    assert Linked(agentRoles, a) == Linked(db.agentRoles, a);
    var permissionsChanged, linksChanged;
    rolePermissions', permissionsChanged :=
      ReplaceKnown(rolePermissions, r, plan[a].permissions, Linked(db.rolePermissions, r));
    agentRoles', linksChanged := ReplaceKnown(agentRoles, a, {r}, Linked(db.agentRoles, a));
    created', updated' := created, updated;
    OneMoreAgent(db, plan, done, a, r);
    OneMoreAgentLinked(db, plan, done, a, r, agentRoles, rolePermissions);
    if a !in db.agents {
      created' := created + 1;
    } else if || db.agents[a].status != plan[a].status || db.agents[a].displayName != plan[a].displayName
              || permissionsChanged || linksChanged {
      updated' := updated + 1;
    }
  }

  /** The agents already dealt with. */
  function Without(roleOf: RoleOf, todo: set<Id>): RoleOf {
    map a | a in roleOf && a !in todo :: roleOf[a]
  }

  ghost predicate LinkPass(db: Db, plan: AgentPlan, done: RoleOf, agentRoles: Links, rolePermissions: Links, created: nat,
                           updated: nat)
  {
    && AgentLinksSettled(db, plan, done, agentRoles, rolePermissions)
    && created == |done.Keys - db.agents.Keys|
    && updated == |ChangedAgents(db, plan, done)|
  }

  lemma OneLess(roleOf: RoleOf, todo: set<Id>, a: Id)
    requires Injective(roleOf) && todo <= roleOf.Keys && a in todo
    ensures var done := Without(roleOf, todo);
            && Without(roleOf, todo - {a}) == done[a := roleOf[a]]
            && a !in done && Injective(done[a := roleOf[a]])
  {
  }

  lemma OneMoreKey(base: set<Id>, done: RoleOf, a: Id, r: Id)
    requires a !in done
    ensures |done[a := r].Keys - base| == |done.Keys - base| + if a in base then 0 else 1
  {
    if a in base {
      assert done[a := r].Keys - base == done.Keys - base;
    } else {
      assert done[a := r].Keys - base == (done.Keys - base) + {a};
    }
  }

  lemma NoLinksYet(db: Db, plan: AgentPlan)
    ensures LinkPass(db, plan, map[], db.agentRoles, db.rolePermissions, 0, 0)
  {
  }

  /** One iteration of the third pass. */
  method LinkNext(db: Db, plan: AgentPlan, ghost done: RoleOf, a: Id, r: Id, agentRoles: Links, rolePermissions: Links,
                  created: nat, updated: nat)
    returns (agentRoles': Links, rolePermissions': Links, created': nat, updated': nat)
    requires LinkPass(db, plan, done, agentRoles, rolePermissions, created, updated)
    requires a !in done && a in plan && Injective(done[a := r])
    ensures LinkPass(db, plan, done[a := r], agentRoles', rolePermissions', created', updated')
  {
    OneMoreKey(db.agents.Keys, done, a, r);
    agentRoles', rolePermissions', created', updated' :=
      LinkAgent(db, plan, done, a, r, agentRoles, rolePermissions, created, updated);
  }

  method LinkAgents(db: Db, plan: AgentPlan, roleOf: RoleOf)
    returns (agentRoles: Links, rolePermissions: Links, created: nat, updated: nat)
    requires roleOf.Keys == plan.Keys && Injective(roleOf)
    ensures LinkPass(db, plan, roleOf, agentRoles, rolePermissions, created, updated)
  {
    agentRoles, rolePermissions, created, updated := db.agentRoles, db.rolePermissions, 0, 0;
    var todo := plan.Keys;
    ghost var done: RoleOf := map[];
    NoLinksYet(db, plan);
    NoneDoneYet(roleOf);
    while todo != {}
      invariant todo <= plan.Keys && done == Without(roleOf, todo)
      invariant LinkPass(db, plan, done, agentRoles, rolePermissions, created, updated)
      decreases todo
    {
      var a :| a in todo;
      OneLess(roleOf, todo, a);
      agentRoles, rolePermissions, created, updated :=
        LinkNext(db, plan, done, a, roleOf[a], agentRoles, rolePermissions, created, updated);
      todo, done := todo - {a}, done[a := roleOf[a]];
    }
    AllDone(roleOf);
  }

  lemma NoneDoneYet(roleOf: RoleOf)
    ensures Without(roleOf, roleOf.Keys) == map[]
  {
  }

  lemma AllDone(roleOf: RoleOf)
    ensures Without(roleOf, {}) == roleOf
  {
  }

  // ---- Everyone else in the slice ----

  ghost function DisabledAgents(db: Db, tenant: Id, application: Id, plan: AgentPlan): set<Id> {
    set a | a in db.agents && AgentInSlice(db.agents[a], tenant, application)
            && a !in plan && db.agents[a].status != DISABLED
  }

  /** Last pass: disable the agents of the slice that are not listed. */
  method DisableOtherAgents(db: Db, tenant: Id, application: Id, listed: set<string>, ghost plan: AgentPlan,
                            agents: map<Id, Agent>)
    returns (agents': map<Id, Agent>, disabled: nat)
    requires db.agents.Keys <= agents.Keys
    requires forall a :: a in db.agents && AgentInSlice(db.agents[a], tenant, application) ==>
               (a in plan <==> db.agents[a].name in listed)
    ensures ChangedAt(agents, agents', DisabledAgents(db, tenant, application, plan), DisableAgent)
    ensures disabled == |DisabledAgents(db, tenant, application, plan)|
  {
    var slice := set a | a in db.agents && AgentInSlice(db.agents[a], tenant, application);
    var unlisted := (a: Id) => a in db.agents && db.agents[a].name !in listed && db.agents[a].status != DISABLED;
    agents', disabled := ChangeWhere<Id, Agent>(agents, slice, unlisted, DisableAgent);
    assert Passing<Id>(slice, unlisted) == DisabledAgents(db, tenant, application, plan);
  }

  function DisableAgent(row: Agent): Agent {
    row.(status := DISABLED)
  }

  // ---- The outcome ----

  ghost predicate AgentRowsSettled(db: Db, tenant: Id, application: Id, agents: map<Id, Agent>, plan: AgentPlan) {
    && (forall a :: a in plan ==>
          a in agents && agents[a] == Agent(tenant, application, plan[a].name, plan[a].displayName, plan[a].status))
    && (forall a :: a in db.agents && a !in plan ==>
          && a in agents
          && agents[a] == if AgentInSlice(db.agents[a], tenant, application)
                          then db.agents[a].(status := DISABLED) else db.agents[a])
    && (forall a :: a in agents ==> a in db.agents || a in plan)
    && (forall a :: a in plan && a in db.agents ==>
          AgentInSlice(db.agents[a], tenant, application) && db.agents[a].name == plan[a].name)
  }

  /** What a successful run does to the agents of one tenant and application. */
  ghost predicate AgentsSettled(db: Db, db': Db, tenant: Id, application: Id, listed: seq<DesiredAgent>, ids: seq<Id>,
                                plan: AgentPlan, roleOf: RoleOf)
  {
    && db' == db.(next := db'.next, agents := db'.agents, roles := db'.roles, agentRoles := db'.agentRoles,
                  rolePermissions := db'.rolePermissions)
    && db.next <= db'.next && Below(db'.agents, db'.next) && Below(db'.roles, db'.next)
    && AgentsPlanned(db.permissions, application, listed, ids, plan)
    && OnePerName(db, tenant, application, plan)
    && AgentRowsSettled(db, tenant, application, db'.agents, plan)
    && RolesEnsured(db, tenant, application, plan, db'.roles, roleOf) && roleOf.Keys == plan.Keys
    && AgentLinksSettled(db, plan, roleOf, db'.agentRoles, db'.rolePermissions)
  }

  /** The agents that were there before and differ afterwards: the row, the role links, or the internal role's permissions. */
  function TouchedAgents(db: Db, db': Db): set<Id> {
    set a | a in db.agents && a in db'.agents
            && (|| db.agents[a] != db'.agents[a]
                || Linked(db.agentRoles, a) != Linked(db'.agentRoles, a)
                || OwnPermissions(db.roles, db.rolePermissions, a) != OwnPermissions(db'.roles, db'.rolePermissions, a))
  }

  ghost predicate AgentsCounted(db: Db, db': Db, plan: AgentPlan, counts: Counts) {
    && counts.created == |db'.agents.Keys - db.agents.Keys|
    && counts.updated == |TouchedAgents(db, db') * plan.Keys|
    && counts.disabled == |TouchedAgents(db, db') - plan.Keys|
  }

  lemma SettledInternalRoles(db: Db, tenant: Id, application: Id, plan: AgentPlan, roleOf: RoleOf, agents: map<Id, Agent>,
                             roles: map<Id, Role>)
    requires InternalRoles(db.roles, db.agents)
    requires AgentRowsSettled(db, tenant, application, agents, plan)
    requires RolesEnsured(db, tenant, application, plan, roles, roleOf)
    ensures InternalRoles(roles, agents)
  {
  }

  lemma OneInternalRole(roles: map<Id, Role>, agents: map<Id, Agent>, links: Links, a: Id, r: Id)
    requires UniqueRoleNames(roles) && InternalRoles(roles, agents)
    requires r in roles && roles[r].agent == Some(a)
    ensures OwnPermissions(roles, links, a) == Linked(links, r)
  {
  }

  /** The permissions an agent had before, read through its internal role of afterwards. */
  lemma OwnPermissionsBefore(db: Db, roles: map<Id, Role>, tenant: Id, application: Id, plan: AgentPlan, roleOf: RoleOf, a: Id)
    requires UniqueRoleNames(db.roles) && InternalRoles(db.roles, db.agents)
    requires PermissionLinksIsolated(db.roles, db.permissions, db.rolePermissions)
    requires RolesEnsured(db, tenant, application, plan, roles, roleOf)
    requires forall a :: a in plan && a in db.agents ==>
               AgentInSlice(db.agents[a], tenant, application) && db.agents[a].name == plan[a].name
    requires a in roleOf
    ensures OwnPermissions(db.roles, db.rolePermissions, a) == Linked(db.rolePermissions, roleOf[a])
  {
  }

  lemma SameInternalRole(db: Db, roles: map<Id, Role>, tenant: Id, application: Id, plan: AgentPlan, roleOf: RoleOf, a: Id, q: Id)
    requires RolesEnsured(db, tenant, application, plan, roles, roleOf)
    requires a in roleOf && q in roles && roles[q] == InternalRow(tenant, application, a, plan[a].name)
    ensures q == roleOf[a]
  {
  }

  lemma TouchedAgentsArePlannedOrDisabled(db: Db, db': Db, tenant: Id, application: Id, listed: seq<DesiredAgent>,
                                          ids: seq<Id>, plan: AgentPlan, roleOf: RoleOf)
    requires UniqueRoleNames(db.roles) && InternalRoles(db.roles, db.agents)
    requires PermissionLinksIsolated(db.roles, db.permissions, db.rolePermissions)
    requires AgentsSettled(db, db', tenant, application, listed, ids, plan, roleOf)
    ensures TouchedAgents(db, db') * plan.Keys == ChangedAgents(db, plan, roleOf)
    ensures TouchedAgents(db, db') - plan.Keys == DisabledAgents(db, tenant, application, plan)
  {
    PlannedTouched(db, db', tenant, application, plan, roleOf);
    UnlistedTouched(db, db', tenant, application, plan, roleOf);
  }

  lemma PlannedTouched(db: Db, db': Db, tenant: Id, application: Id, plan: AgentPlan, roleOf: RoleOf)
    requires UniqueRoleNames(db.roles) && InternalRoles(db.roles, db.agents)
    requires PermissionLinksIsolated(db.roles, db.permissions, db.rolePermissions)
    requires AgentRowsSettled(db, tenant, application, db'.agents, plan)
    requires RolesEnsured(db, tenant, application, plan, db'.roles, roleOf) && roleOf.Keys == plan.Keys
    requires AgentLinksSettled(db, plan, roleOf, db'.agentRoles, db'.rolePermissions)
    ensures TouchedAgents(db, db') * plan.Keys == ChangedAgents(db, plan, roleOf)
  {
    SettledInternalRoles(db, tenant, application, plan, roleOf, db'.agents, db'.roles);
    forall a ensures a in TouchedAgents(db, db') * plan.Keys <==> a in ChangedAgents(db, plan, roleOf) {
      if a in db.agents && a in plan {
        PlannedAgentTouched(db, db', tenant, application, plan, roleOf, a);
      }
    }
  }

  lemma UnlistedTouched(db: Db, db': Db, tenant: Id, application: Id, plan: AgentPlan, roleOf: RoleOf)
    requires PermissionLinksIsolated(db.roles, db.permissions, db.rolePermissions)
    requires AgentRowsSettled(db, tenant, application, db'.agents, plan)
    requires RolesEnsured(db, tenant, application, plan, db'.roles, roleOf) && roleOf.Keys == plan.Keys
    requires AgentLinksSettled(db, plan, roleOf, db'.agentRoles, db'.rolePermissions)
    ensures TouchedAgents(db, db') - plan.Keys == DisabledAgents(db, tenant, application, plan)
  {
    forall a ensures a in TouchedAgents(db, db') - plan.Keys <==> a in DisabledAgents(db, tenant, application, plan) {
      if a in db.agents && a !in plan {
        UnlistedAgentTouched(db, db', tenant, application, plan, roleOf, a);
      }
    }
  }

  lemma UnlistedAgentTouched(db: Db, db': Db, tenant: Id, application: Id, plan: AgentPlan, roleOf: RoleOf, a: Id)
    requires PermissionLinksIsolated(db.roles, db.permissions, db.rolePermissions)
    requires AgentRowsSettled(db, tenant, application, db'.agents, plan)
    requires RolesEnsured(db, tenant, application, plan, db'.roles, roleOf) && roleOf.Keys == plan.Keys
    requires AgentLinksSettled(db, plan, roleOf, db'.agentRoles, db'.rolePermissions)
    requires a in db.agents && a !in plan
    ensures a in TouchedAgents(db, db') <==> a in DisabledAgents(db, tenant, application, plan)
  {
  }

  lemma PlannedAgentTouched(db: Db, db': Db, tenant: Id, application: Id, plan: AgentPlan, roleOf: RoleOf, a: Id)
    requires UniqueRoleNames(db.roles) && InternalRoles(db.roles, db.agents) && InternalRoles(db'.roles, db'.agents)
    requires PermissionLinksIsolated(db.roles, db.permissions, db.rolePermissions)
    requires AgentRowsSettled(db, tenant, application, db'.agents, plan)
    requires RolesEnsured(db, tenant, application, plan, db'.roles, roleOf) && roleOf.Keys == plan.Keys
    requires AgentLinksSettled(db, plan, roleOf, db'.agentRoles, db'.rolePermissions)
    requires a in plan && a in db.agents
    ensures a in TouchedAgents(db, db') <==> a in ChangedAgents(db, plan, roleOf)
  {
    OwnPermissionsBefore(db, db'.roles, tenant, application, plan, roleOf, a);
    OneInternalRole(db'.roles, db'.agents, db'.rolePermissions, a, roleOf[a]);
    assert Linked(db'.agentRoles, a) == {roleOf[a]};
  }

  lemma RolesInjective(db: Db, tenant: Id, application: Id, plan: AgentPlan, roles: map<Id, Role>, roleOf: RoleOf)
    requires RolesEnsured(db, tenant, application, plan, roles, roleOf)
    ensures Injective(roleOf)
  {
  }

  lemma ListedNames(db: Db, tenant: Id, application: Id, listed: seq<DesiredAgent>, ids: seq<Id>, plan: AgentPlan, a: Id)
    requires AgentsPlanned(db.permissions, application, listed, ids, plan)
    requires OnePerName(db, tenant, application, plan)
    requires a in db.agents && AgentInSlice(db.agents[a], tenant, application)
    requires a in plan ==> db.agents[a].name == plan[a].name
    ensures a in plan <==> db.agents[a].name in Names(listed)
  {
  }

  /** Bring the rows of the slice to their final state. */
  method SettleAgentRows(db: Db, tenant: Id, application: Id, listed: seq<DesiredAgent>, ghost ids: seq<Id>,
                         ghost plan: AgentPlan, agents: map<Id, Agent>)
    returns (agents': map<Id, Agent>, disabled: nat)
    requires AgentRowsEnsured(db, tenant, application, agents, plan) && OnePerName(db, tenant, application, plan)
    requires AgentsPlanned(db.permissions, application, listed, ids, plan)
    ensures AgentRowsSettled(db, tenant, application, agents', plan)
    ensures agents'.Keys == agents.Keys
    ensures disabled == |DisabledAgents(db, tenant, application, plan)|
  {
    forall a | a in db.agents && AgentInSlice(db.agents[a], tenant, application)
      ensures a in plan <==> db.agents[a].name in Names(listed)
    {
      ListedNames(db, tenant, application, listed, ids, plan, a);
    }
    agents', disabled := DisableOtherAgents(db, tenant, application, Names(listed), plan, agents);
    AgentRowsAreSettled(db, tenant, application, agents, agents', plan);
  }

  lemma AgentCountsMatch(db: Db, db': Db, tenant: Id, application: Id, listed: seq<DesiredAgent>, ids: seq<Id>,
                         plan: AgentPlan, roleOf: RoleOf, counts: Counts)
    requires UniqueRoleNames(db.roles) && InternalRoles(db.roles, db.agents)
    requires PermissionLinksIsolated(db.roles, db.permissions, db.rolePermissions)
    requires AgentsSettled(db, db', tenant, application, listed, ids, plan, roleOf)
    requires counts.created == |roleOf.Keys - db.agents.Keys|
    requires counts.updated == |ChangedAgents(db, plan, roleOf)|
    requires counts.disabled == |DisabledAgents(db, tenant, application, plan)|
    ensures AgentsCounted(db, db', plan, counts)
  {
    TouchedAgentsArePlannedOrDisabled(db, db', tenant, application, listed, ids, plan, roleOf);
    NewAgents(db, tenant, application, db'.agents, plan);
  }

  lemma NewAgents(db: Db, tenant: Id, application: Id, agents: map<Id, Agent>, plan: AgentPlan)
    requires AgentRowsSettled(db, tenant, application, agents, plan)
    ensures agents.Keys - db.agents.Keys == plan.Keys - db.agents.Keys
  {
  }

  /** Make the agents of one tenant and application match the desired list, or refuse. */
  method ApplyAgents(db: Db, tenant: Id, application: Id, listed: seq<DesiredAgent>)
    returns (ok: bool, db': Db, counts: Counts, ids: seq<Id>, plan: AgentPlan, roleOf: RoleOf)
    requires UniqueAgentNames(db.agents) && Below(db.agents, db.next)
    requires InternalRoles(db.roles, db.agents) && UniqueRoleNames(db.roles) && Below(db.roles, db.next)
    requires PermissionLinksIsolated(db.roles, db.permissions, db.rolePermissions)
    requires DistinctNames(listed)
    ensures ok ==> AgentsSettled(db, db', tenant, application, listed, ids, plan, roleOf)
    ensures ok ==> AgentsCounted(db, db', plan, counts) && !Clash(db, tenant, application, plan)
    ensures !ok ==> Clash(db, tenant, application, plan) && AgentsPlanned(db.permissions, application, listed, ids, plan)
    ensures !ok ==> OnePerName(db, tenant, application, plan)
  {
    var next, agents, next', roles;
    next, agents, ids, plan := UpsertAgents(db, tenant, application, listed);
    ok, next', roles, roleOf := EnsureInternalRoles(db, tenant, application, plan, next);
    if !ok {
      db', counts := db, Counts(0, 0, 0);
      return;
    }
    RolesInjective(db, tenant, application, plan, roles, roleOf);
    var agentRoles, rolePermissions, created, updated := LinkAgents(db, plan, roleOf);
    var agents', disabled := SettleAgentRows(db, tenant, application, listed, ids, plan, agents);
    db' := db.(next := next', agents := agents', roles := roles, agentRoles := agentRoles, rolePermissions := rolePermissions);
    counts := Counts(created, updated, disabled);
    AgentCountsMatch(db, db', tenant, application, listed, ids, plan, roleOf, counts);
  }

  lemma AgentRowsAreSettled(db: Db, tenant: Id, application: Id, before: map<Id, Agent>, after: map<Id, Agent>, plan: AgentPlan)
    requires AgentRowsEnsured(db, tenant, application, before, plan)
    requires ChangedAt(before, after, DisabledAgents(db, tenant, application, plan), DisableAgent)
    ensures AgentRowsSettled(db, tenant, application, after, plan)
  {
  }

  // ---- What the outcome means ----

  lemma SettledAgentLinks(db: Db, db': Db, tenant: Id, application: Id, listed: seq<DesiredAgent>, ids: seq<Id>,
                          plan: AgentPlan, roleOf: RoleOf)
    requires AgentLinksIsolated(db.agents, db.roles, db.agentRoles)
    requires AgentRowsSettled(db, tenant, application, db'.agents, plan)
    requires RolesEnsured(db, tenant, application, plan, db'.roles, roleOf) && roleOf.Keys == plan.Keys
    requires AgentLinksSettled(db, plan, roleOf, db'.agentRoles, db'.rolePermissions)
    ensures AgentLinksIsolated(db'.agents, db'.roles, db'.agentRoles)
  {
    SettledAgentSlices(db, tenant, application, db'.agents, plan);
    forall a, r | (a, r) in db'.agentRoles
      ensures a in db'.agents && r in db'.roles && AgentMayHold(db'.agents[a], a, db'.roles[r])
    {
      if a !in roleOf {
        assert (a, r) in db.agentRoles;
      }
    }
  }

  /** What isolation asks of one link. */
  predicate AgentMayHold(agent: Agent, a: Id, role: Role) {
    && (role.agent.None? || role.agent == Some(a))
    && role.application == Some(agent.application) && VisibleIn(role, agent.tenant)
  }

  /** Settling changes no agent's tenant or application, and planned agents lie in the slice. */
  lemma SettledAgentSlices(db: Db, tenant: Id, application: Id, agents: map<Id, Agent>, plan: AgentPlan)
    requires AgentRowsSettled(db, tenant, application, agents, plan)
    ensures forall a :: a in db.agents ==>
              a in agents && agents[a].tenant == db.agents[a].tenant && agents[a].application == db.agents[a].application
    ensures forall a :: a in plan ==> a in agents && AgentInSlice(agents[a], tenant, application)
  {
  }

  lemma SettledRolePermissions(db: Db, db': Db, tenant: Id, application: Id, listed: seq<DesiredAgent>, ids: seq<Id>,
                               plan: AgentPlan, roleOf: RoleOf)
    requires PermissionLinksIsolated(db.roles, db.permissions, db.rolePermissions)
    requires AgentsPlanned(db.permissions, application, listed, ids, plan)
    requires RolesEnsured(db, tenant, application, plan, db'.roles, roleOf) && roleOf.Keys == plan.Keys
    requires AgentLinksSettled(db, plan, roleOf, db'.agentRoles, db'.rolePermissions)
    ensures PermissionLinksIsolated(db'.roles, db.permissions, db'.rolePermissions)
  {
  }

  lemma SettledAgentNames(db: Db, tenant: Id, application: Id, agents: map<Id, Agent>, plan: AgentPlan)
    requires UniqueAgentNames(db.agents)
    requires OnePerName(db, tenant, application, plan)
    requires AgentRowsSettled(db, tenant, application, agents, plan)
    ensures UniqueAgentNames(agents)
  {
  }

  lemma AgentsStayValid(db: Db, db': Db, tenant: Id, application: Id, listed: seq<DesiredAgent>, ids: seq<Id>,
                        plan: AgentPlan, roleOf: RoleOf)
    requires Valid(db) && tenant in db.tenants && application in db.applications
    requires AgentsSettled(db, db', tenant, application, listed, ids, plan, roleOf)
    ensures Valid(db')
  {
    SettledInternalRoles(db, tenant, application, plan, roleOf, db'.agents, db'.roles);
    SettledAgentLinks(db, db', tenant, application, listed, ids, plan, roleOf);
    SettledRolePermissions(db, db', tenant, application, listed, ids, plan, roleOf);
    SettledAgentNames(db, tenant, application, db'.agents, plan);
    SettledMemberLinks(db, db', tenant, application, plan, roleOf);
    SettledAgentKeys(db, db', tenant, application, listed, ids, plan, roleOf);
  }

  lemma SettledMemberLinks(db: Db, db': Db, tenant: Id, application: Id, plan: AgentPlan, roleOf: RoleOf)
    requires MemberLinksIsolated(db.memberships, db.roles, db.memberRoles)
    requires RolesEnsured(db, tenant, application, plan, db'.roles, roleOf)
    ensures MemberLinksIsolated(db.memberships, db'.roles, db.memberRoles)
  {
  }

  lemma SettledAgentKeys(db: Db, db': Db, tenant: Id, application: Id, listed: seq<DesiredAgent>, ids: seq<Id>,
                         plan: AgentPlan, roleOf: RoleOf)
    requires ForeignKeys(db) && tenant in db.tenants && application in db.applications
    requires AgentsSettled(db, db', tenant, application, listed, ids, plan, roleOf)
    ensures ForeignKeys(db')
  {
    assert AgentKeys(db');
    forall r | r in db'.roles
      ensures OptionalKey(db'.roles[r].tenant, db.tenants) && OptionalKey(db'.roles[r].application, db.applications)
              && OptionalKey(db'.roles[r].agent, db'.agents)
    {
    }
  }

  /** Each listed agent resolves to precisely its listed permissions. */
  lemma ListedAgentHolds(db: Db, db': Db, tenant: Id, application: Id, listed: seq<DesiredAgent>, ids: seq<Id>,
                         plan: AgentPlan, roleOf: RoleOf, i: nat)
    requires UniquePermissionNames(db.permissions)
    requires AgentsSettled(db, db', tenant, application, listed, ids, plan, roleOf)
    requires i < |listed|
    requires forall n :: n in listed[i].permissions ==> (Some(application), n) in ActiveOf(db.permissions)
    ensures ids[i] in db'.agents
    ensures db'.agents[ids[i]] == Agent(tenant, application, listed[i].name, listed[i].displayName, listed[i].status)
    ensures AgentPermissions(db', tenant, application, ids[i]) == set n | n in listed[i].permissions
  {
    assert plan[ids[i]].permissions == PermissionIdsOf(db.permissions, application, listed[i]);
    AgentHoldsItsRole(db, db', tenant, application, plan, roleOf, ids[i]);
    ListedPermissionNames(db.permissions, application, listed[i]);
  }

  lemma ListedPermissionNames(permissions: map<Id, Permission>, application: Id, agent: DesiredAgent)
    requires forall n :: n in agent.permissions ==> (Some(application), n) in ActiveOf(permissions)
    ensures PermissionNames(permissions, PermissionIdsOf(permissions, application, agent)) == set n | n in agent.permissions
  {
  }

  /** A planned agent resolves to the permissions of its internal role, which are the wanted ones. */
  lemma AgentHoldsItsRole(db: Db, db': Db, tenant: Id, application: Id, plan: AgentPlan, roleOf: RoleOf, a: Id)
    requires db'.permissions == db.permissions
    requires RolesEnsured(db, tenant, application, plan, db'.roles, roleOf) && a in roleOf && a in plan
    requires AgentLinksSettled(db, plan, roleOf, db'.agentRoles, db'.rolePermissions)
    requires a in db'.agents && AgentInSlice(db'.agents[a], tenant, application)
    requires forall p :: p in plan[a].permissions ==> p in db.permissions && !db.permissions[p].deprecated
    ensures AgentPermissions(db', tenant, application, a) == PermissionNames(db.permissions, plan[a].permissions)
  {
  }

  /** A second run that starts from the agent tables the first one left finds nothing to do. */
  lemma AgentsSettledTwice(db: Db, db': Db, start: Db, tenant: Id, application: Id, listed: seq<DesiredAgent>, ids: seq<Id>,
                           plan: AgentPlan, roleOf: RoleOf, again: Db, ids': seq<Id>, plan': AgentPlan, roleOf': RoleOf)
    requires AgentsSettled(db, db', tenant, application, listed, ids, plan, roleOf)
    requires AgentsSettled(start, again, tenant, application, listed, ids', plan', roleOf')
    requires start.permissions == db.permissions && start.agents == db'.agents && start.roles == db'.roles
    requires start.agentRoles == db'.agentRoles && start.rolePermissions == db'.rolePermissions
    ensures again.(next := start.next) == start
  {
    SameAgentPlan(db, start, tenant, application, listed, ids, plan, ids', plan');
    AgentRowsTwice(db, start, tenant, application, plan, again.agents);
    RolesTwice(db, start, tenant, application, plan, roleOf, again.roles, roleOf');
    AgentLinksTwice(db, start, plan, roleOf, again.agentRoles, again.rolePermissions);
  }

  lemma SameAgentPlan(db: Db, db': Db, tenant: Id, application: Id, listed: seq<DesiredAgent>, ids: seq<Id>, plan: AgentPlan,
                      ids': seq<Id>, plan': AgentPlan)
    requires AgentRowsSettled(db, tenant, application, db'.agents, plan)
    requires AgentsPlanned(db.permissions, application, listed, ids, plan)
    requires AgentsPlanned(db.permissions, application, listed, ids', plan')
    requires OnePerName(db', tenant, application, plan')
    ensures plan' == plan
  {
    forall i | 0 <= i < |ids| ensures ids'[i] == ids[i] {
      assert db'.agents[ids[i]].name == listed[i].name == plan'[ids'[i]].name;
    }
    assert ids' == ids;
    OnePlan(db.permissions, application, listed, ids, plan, plan');
  }

  lemma OnePlan(permissions: map<Id, Permission>, application: Id, listed: seq<DesiredAgent>, ids: seq<Id>, plan: AgentPlan,
                plan': AgentPlan)
    requires AgentsPlanned(permissions, application, listed, ids, plan)
    requires AgentsPlanned(permissions, application, listed, ids, plan')
    ensures plan' == plan
  {
    assert plan'.Keys == plan.Keys;
    forall a | a in plan ensures plan'[a] == plan[a] {
      var i :| 0 <= i < |ids| && ids[i] == a;
    }
  }

  lemma AgentRowsTwice(db: Db, db': Db, tenant: Id, application: Id, plan: AgentPlan, agents: map<Id, Agent>)
    requires AgentRowsSettled(db, tenant, application, db'.agents, plan)
    requires AgentRowsSettled(db', tenant, application, agents, plan)
    ensures agents == db'.agents
  {
  }

  lemma RolesTwice(db: Db, db': Db, tenant: Id, application: Id, plan: AgentPlan, roleOf: RoleOf, roles: map<Id, Role>,
                   roleOf': RoleOf)
    requires RolesEnsured(db, tenant, application, plan, db'.roles, roleOf) && roleOf.Keys == plan.Keys
    requires RolesEnsured(db', tenant, application, plan, roles, roleOf') && roleOf'.Keys == plan.Keys
    ensures roleOf' == roleOf && roles == db'.roles
  {
    forall a | a in plan ensures roleOf'[a] == roleOf[a] {
      SameInternalRole(db', roles, tenant, application, plan, roleOf', a, roleOf[a]);
    }
    assert roleOf' == roleOf;
    NoNewRoles(db', roles, tenant, application, plan, roleOf);
  }

  lemma NoNewRoles(db: Db, roles: map<Id, Role>, tenant: Id, application: Id, plan: AgentPlan, roleOf: RoleOf)
    requires RolesEnsured(db, tenant, application, plan, roles, roleOf)
    requires forall a :: a in roleOf ==> roleOf[a] in db.roles
    ensures roles == db.roles
  {
    assert roles.Keys == db.roles.Keys;
  }

  lemma AgentLinksTwice(db: Db, db': Db, plan: AgentPlan, roleOf: RoleOf, agentRoles: Links, rolePermissions: Links)
    requires roleOf.Keys == plan.Keys
    requires AgentLinksSettled(db, plan, roleOf, db'.agentRoles, db'.rolePermissions)
    requires AgentLinksSettled(db', plan, roleOf, agentRoles, rolePermissions)
    ensures agentRoles == db'.agentRoles && rolePermissions == db'.rolePermissions
  {
    forall l ensures l in agentRoles <==> l in db'.agentRoles {
      assert (l.0, l.1) == l;
    }
    forall l ensures l in rolePermissions <==> l in db'.rolePermissions {
      assert (l.0, l.1) == l;
      if IsRoleOf(roleOf, l.0) {
        var a :| a in roleOf && roleOf[a] == l.0;
        assert l.1 in Linked(rolePermissions, l.0) <==> l.1 in Linked(db'.rolePermissions, l.0);
      }
    }
  }
}
