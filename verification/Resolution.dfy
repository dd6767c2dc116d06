/**
Permission resolution, twice.

The store resolves permissions through link tables that hold role and permission
ids. What the links are meant to say is by name: a membership holds role names, and
a name stands for the tenant's role of that name if there is one, else for the
application-wide role. NameView is that meaning; the two lemmas at the end say that
in every valid state the ids compute exactly what the names mean.
*/
module Resolution {
  import opened Common
  import opened Rows

  // ---- Through ids, as the queries do it ----

  /** The ids linked to one owner. */
  function Linked(links: Links, owner: Id): (ids: set<Id>)
    ensures forall i :: i in ids <==> (owner, i) in links
  {
    set l | l in links && l.0 == owner :: l.1
  }

  /** Role o of the tenant stands in for the application-wide role r. */
  predicate Overrides(roles: map<Id, Role>, tenant: Id, o: Id, r: Id) {
    && o in roles && r in roles
    && roles[o].tenant == Some(tenant) && roles[o].agent.None?
    && roles[r].tenant.None? && roles[r].agent.None?
    && roles[o].application == roles[r].application
    && roles[o].name == roles[r].name
  }

  predicate Overridden(roles: map<Id, Role>, tenant: Id, r: Id) {
    exists o :: o in roles && Overrides(roles, tenant, o, r)
  }

  /** The roles that actually grant permissions for links held in a tenant. */
  function EffectiveRoleIds(roles: map<Id, Role>, tenant: Id, linked: set<Id>): set<Id> {
    var own := set r | r in linked && r in roles && VisibleIn(roles[r], tenant);
    (set o, r | o in roles && r in own && Overrides(roles, tenant, o, r) :: o)
    + (set r | r in own && !Overridden(roles, tenant, r))
  }

  predicate Eligible(m: Membership, tenant: Id, application: Id, user: Id) {
    && m.tenant == tenant && m.user == user && m.status == ACTIVE
    && (m.application == Some(application) || m.application.None?)
  }

  /** The roles linked to a user's eligible memberships. */
  function UserRoleIds(db: Db, tenant: Id, application: Id, user: Id): set<Id> {
    set l | l in db.memberRoles && l.0 in db.memberships && Eligible(db.memberships[l.0], tenant, application, user) :: l.1
  }

  /** The permission is active and, where an application is given, belongs to it or to the platform. */
  predicate Grantable(db: Db, p: Id, application: Option<Id>) {
    && p in db.permissions && !db.permissions[p].deprecated
    && (application.Some? ==> db.permissions[p].application == application || db.permissions[p].application.None?)
  }

  /** What a set of roles grants, in one application or in all. */
  function GrantedBy(db: Db, ids: set<Id>, application: Option<Id>): set<string> {
    set l | l in db.rolePermissions && l.0 in ids && Grantable(db, l.1, application) :: db.permissions[l.1].name
  }

  function UserPermissions(db: Db, tenant: Id, application: Id, user: Id): set<string> {
    GrantedBy(db, EffectiveRoleIds(db.roles, tenant, UserRoleIds(db, tenant, application, user)), Some(application))
  }

  function AgentPermissions(db: Db, tenant: Id, application: Id, agent: Id): set<string> {
    if agent !in db.agents || db.agents[agent].tenant != tenant || db.agents[agent].application != application then {}
    else GrantedBy(db, EffectiveRoleIds(db.roles, tenant, Linked(db.agentRoles, agent)), None)
  }

  // ---- By name ----

  /** What identifies a role without an id. */
  datatype RoleKey =
    | Shared(application: Option<Id>, name: string)
    | OfTenant(tenant: Id, application: Option<Id>, name: string)
    | Internal(agent: Id)

  datatype MemberView = MemberView(tenant: Id, application: Option<Id>, user: Id, status: string, names: set<string>)

  /** provisioned: the agent's internal role is among its links. */
  datatype AgentView = AgentView(tenant: Id, application: Id, status: string, names: set<string>, provisioned: bool)

  datatype NameView = NameView(
    members: map<Id, MemberView>,
    agents: map<Id, AgentView>,
    roles: set<RoleKey>,
    grants: set<(RoleKey, string)>,
    active: set<(Option<Id>, string)>)

  function KeyOf(role: Role): RoleKey {
    if role.agent.Some? then Internal(role.agent.value)
    else if role.tenant.Some? then OfTenant(role.tenant.value, role.application, role.name)
    else Shared(role.application, role.name)
  }

  /** The role a name stands for in a tenant. */
  function Denoted(v: NameView, tenant: Id, application: Option<Id>, name: string): RoleKey {
    var own := OfTenant(tenant, application, name);
    if own in v.roles then own else Shared(application, name)
  }

  /** The name grants the permission in this tenant. */
  predicate NameGrants(v: NameView, tenant: Id, application: Option<Id>, name: string, permission: string) {
    (Denoted(v, tenant, application, name), permission) in v.grants && (application, permission) in v.active
  }

  ghost predicate UserMay(v: NameView, tenant: Id, application: Id, user: Id, permission: string) {
    exists m, n :: m in v.members
      && v.members[m].tenant == tenant && v.members[m].user == user && v.members[m].status == ACTIVE
      && (v.members[m].application == Some(application) || v.members[m].application.None?)
      && n in v.members[m].names
      && NameGrants(v, tenant, v.members[m].application, n, permission)
  }

  ghost predicate AgentMay(v: NameView, tenant: Id, application: Id, agent: Id, permission: string) {
    && agent in v.agents && v.agents[agent].tenant == tenant && v.agents[agent].application == application
    && (|| (exists n :: n in v.agents[agent].names && NameGrants(v, tenant, Some(application), n, permission))
        || (&& v.agents[agent].provisioned && (Internal(agent), permission) in v.grants
            && (Some(application), permission) in v.active))
  }

  // ---- The name view of a database ----

  /** Names of the named (not internal) roles among the linked ids. */
  function NamesOf(roles: map<Id, Role>, ids: set<Id>): set<string> {
    set r | r in ids && r in roles && roles[r].agent.None? :: roles[r].name
  }

  function MemberViewOf(db: Db, m: Id): MemberView
    requires m in db.memberships
  {
    var row := db.memberships[m];
    MemberView(row.tenant, row.application, row.user, row.status, NamesOf(db.roles, Linked(db.memberRoles, m)))
  }

  predicate Provisioned(roles: map<Id, Role>, agentRoles: Links, a: Id) {
    exists r :: r in roles && roles[r].agent == Some(a) && (a, r) in agentRoles
  }

  function AgentViewOf(db: Db, a: Id): AgentView
    requires a in db.agents
  {
    var row := db.agents[a];
    AgentView(row.tenant, row.application, row.status, NamesOf(db.roles, Linked(db.agentRoles, a)),
              Provisioned(db.roles, db.agentRoles, a))
  }

  function KeysOf(roles: map<Id, Role>): set<RoleKey> {
    set r | r in roles :: KeyOf(roles[r])
  }

  function GrantsOf(roles: map<Id, Role>, permissions: map<Id, Permission>, links: Links): set<(RoleKey, string)> {
    set l | l in links && l.0 in roles && l.1 in permissions :: (KeyOf(roles[l.0]), permissions[l.1].name)
  }

  function ActiveOf(permissions: map<Id, Permission>): set<(Option<Id>, string)> {
    set i | i in permissions && !permissions[i].deprecated :: (permissions[i].application, permissions[i].name)
  }

  function View(db: Db): NameView {
    NameView(
      map m | m in db.memberships :: MemberViewOf(db, m),
      map a | a in db.agents :: AgentViewOf(db, a),
      KeysOf(db.roles),
      GrantsOf(db.roles, db.permissions, db.rolePermissions),
      ActiveOf(db.permissions))
  }

  // ---- The ids compute what the names mean ----

  /** An active permission of that name is linked to role e. */
  ghost predicate LinkGrants(db: Db, e: Id, permission: string) {
    exists p :: (e, p) in db.rolePermissions && p in db.permissions
                && !db.permissions[p].deprecated && db.permissions[p].name == permission
  }

  /** KeyOf identifies a role. */
  lemma KeyIsUnique(roles: map<Id, Role>, agents: map<Id, Agent>, i: Id, j: Id)
    requires UniqueRoleNames(roles) && InternalRoles(roles, agents)
    requires i in roles && j in roles && KeyOf(roles[i]) == KeyOf(roles[j])
    ensures i == j
  {
  }

  /** A role id grants what its key grants. */
  lemma LinkGrantsIsKeyGrants(db: Db, e: Id, permission: string)
    requires UniqueRoleNames(db.roles) && InternalRoles(db.roles, db.agents) && UniquePermissionNames(db.permissions)
    requires PermissionLinksIsolated(db.roles, db.permissions, db.rolePermissions)
    requires e in db.roles
    ensures LinkGrants(db, e, permission) <==>
            && (KeyOf(db.roles[e]), permission) in GrantsOf(db.roles, db.permissions, db.rolePermissions)
            && (db.roles[e].application, permission) in ActiveOf(db.permissions)
  {
  }

  /** A linked named role takes effect as exactly the role its name stands for. */
  lemma EffectiveIsDenoted(db: Db, tenant: Id, r: Id, e: Id)
    requires UniqueRoleNames(db.roles) && InternalRoles(db.roles, db.agents)
    requires r in db.roles && db.roles[r].agent.None? && VisibleIn(db.roles[r], tenant)
    ensures e in EffectiveRoleIds(db.roles, tenant, {r}) <==>
            e in db.roles && KeyOf(db.roles[e]) == Denoted(View(db), tenant, db.roles[r].application, db.roles[r].name)
  {
    var role := db.roles[r];
    var own := OfTenant(tenant, role.application, role.name);
    if own in KeysOf(db.roles) {
      var o :| o in db.roles && KeyOf(db.roles[o]) == own;
      if role.tenant.None? {
        assert Overrides(db.roles, tenant, o, r);
      }
    } else {
      assert KeyOf(role) in KeysOf(db.roles);
    }
  }

  /** Roles take effect one link at a time: there is no interference between links. */
  lemma EffectivePerLink(roles: map<Id, Role>, tenant: Id, linked: set<Id>, e: Id)
    ensures e in EffectiveRoleIds(roles, tenant, linked) <==>
            exists r :: r in linked && e in EffectiveRoleIds(roles, tenant, {r})
  {
  }

  /** A held name grants a permission exactly when some role id in effect for its link does. */
  lemma NameGrantsThroughIds(db: Db, tenant: Id, r: Id, permission: string)
    requires UniqueRoleNames(db.roles) && InternalRoles(db.roles, db.agents) && UniquePermissionNames(db.permissions)
    requires PermissionLinksIsolated(db.roles, db.permissions, db.rolePermissions)
    requires r in db.roles && db.roles[r].agent.None? && VisibleIn(db.roles[r], tenant)
    ensures NameGrants(View(db), tenant, db.roles[r].application, db.roles[r].name, permission) <==>
            exists e :: e in EffectiveRoleIds(db.roles, tenant, {r}) && LinkGrants(db, e, permission)
  {
    var key := Denoted(View(db), tenant, db.roles[r].application, db.roles[r].name);
    assert KeyOf(db.roles[r]) in KeysOf(db.roles);
    var e: Id :| e in db.roles && KeyOf(db.roles[e]) == key;
    EffectiveIsDenoted(db, tenant, r, e);
    LinkGrantsIsKeyGrants(db, e, permission);
    forall e' | e' in EffectiveRoleIds(db.roles, tenant, {r})
      ensures e' == e
    {
      EffectiveIsDenoted(db, tenant, r, e');
      KeyIsUnique(db.roles, db.agents, e, e');
    }
  }

  /** User permissions through links are exactly what the user's role names mean. */
  lemma UserResolutionIsByName(db: Db, tenant: Id, application: Id, user: Id, permission: string)
    requires Valid(db)
    ensures permission in UserPermissions(db, tenant, application, user) <==>
            UserMay(View(db), tenant, application, user, permission)
  {
    if permission in UserPermissions(db, tenant, application, user) {
      UserLinkIsNamed(db, tenant, application, user, permission);
    }
    if UserMay(View(db), tenant, application, user, permission) {
      NamedUserIsLinked(db, tenant, application, user, permission);
    }
  }

  /** What the name-level reading of roles rests on. */
  ghost predicate RolesAreNamed(db: Db) {
    && UniqueRoleNames(db.roles) && InternalRoles(db.roles, db.agents) && UniquePermissionNames(db.permissions)
    && PermissionLinksIsolated(db.roles, db.permissions, db.rolePermissions)
  }

  lemma GrantingRole(db: Db, ids: set<Id>, application: Option<Id>, permission: string) returns (e: Id)
    requires permission in GrantedBy(db, ids, application)
    ensures e in ids && LinkGrants(db, e, permission)
  {
    var l :| l in db.rolePermissions && l.0 in ids && Grantable(db, l.1, application) && db.permissions[l.1].name == permission;
    assert (l.0, l.1) == l;
    e := l.0;
  }

  lemma RoleGrants(db: Db, ids: set<Id>, application: Option<Id>, e: Id, permission: string)
    requires PermissionLinksIsolated(db.roles, db.permissions, db.rolePermissions)
    requires e in ids && LinkGrants(db, e, permission)
    requires application.Some? && e in db.roles ==> db.roles[e].application == application || db.roles[e].application.None?
    ensures permission in GrantedBy(db, ids, application)
  {
    var p :| (e, p) in db.rolePermissions && p in db.permissions
             && !db.permissions[p].deprecated && db.permissions[p].name == permission;
    assert Grantable(db, (e, p).1, application);
  }

  lemma UserLinkIsNamed(db: Db, tenant: Id, application: Id, user: Id, permission: string)
    requires RolesAreNamed(db) && MemberLinksIsolated(db.memberships, db.roles, db.memberRoles)
    requires permission in UserPermissions(db, tenant, application, user)
    ensures UserMay(View(db), tenant, application, user, permission)
  {
    var linked := UserRoleIds(db, tenant, application, user);
    var e := GrantingRole(db, EffectiveRoleIds(db.roles, tenant, linked), Some(application), permission);
    EffectivePerLink(db.roles, tenant, linked, e);
    var r :| r in linked && e in EffectiveRoleIds(db.roles, tenant, {r});
    var k :| k in db.memberRoles && k.0 in db.memberships && Eligible(db.memberships[k.0], tenant, application, user) && k.1 == r;
    MemberLinkIsNamed(db, tenant, application, user, permission, k.0, r, e);
  }

  lemma MemberLinkIsNamed(db: Db, tenant: Id, application: Id, user: Id, permission: string, m: Id, r: Id, e: Id)
    requires RolesAreNamed(db) && MemberLinksIsolated(db.memberships, db.roles, db.memberRoles)
    requires m in db.memberships && Eligible(db.memberships[m], tenant, application, user)
    requires exists k :: k in db.memberRoles && k.0 == m && k.1 == r
    requires e in EffectiveRoleIds(db.roles, tenant, {r}) && LinkGrants(db, e, permission)
    ensures UserMay(View(db), tenant, application, user, permission)
  {
    assert (m, r) in db.memberRoles;
    NameGrantsThroughIds(db, tenant, r, permission);
    var view := View(db).members[m];
    assert db.roles[r].name in view.names;
    assert NameGrants(View(db), tenant, view.application, db.roles[r].name, permission);
  }

  lemma NamedUserIsLinked(db: Db, tenant: Id, application: Id, user: Id, permission: string)
    requires RolesAreNamed(db) && MemberLinksIsolated(db.memberships, db.roles, db.memberRoles)
    requires UserMay(View(db), tenant, application, user, permission)
    ensures permission in UserPermissions(db, tenant, application, user)
  {
    var v := View(db);
    var m, n :| m in v.members
      && v.members[m].tenant == tenant && v.members[m].user == user && v.members[m].status == ACTIVE
      && (v.members[m].application == Some(application) || v.members[m].application.None?)
      && n in v.members[m].names
      && NameGrants(v, tenant, v.members[m].application, n, permission);
    HeldNameIsCounted(db, tenant, application, user, permission, m, n);
  }

  lemma HeldNameIsCounted(db: Db, tenant: Id, application: Id, user: Id, permission: string, m: Id, n: string)
    requires RolesAreNamed(db) && MemberLinksIsolated(db.memberships, db.roles, db.memberRoles)
    requires m in db.memberships && Eligible(db.memberships[m], tenant, application, user)
    requires n in NamesOf(db.roles, Linked(db.memberRoles, m))
    requires NameGrants(View(db), tenant, db.memberships[m].application, n, permission)
    ensures permission in UserPermissions(db, tenant, application, user)
  {
    var r :| r in Linked(db.memberRoles, m) && r in db.roles && db.roles[r].agent.None? && db.roles[r].name == n;
    assert (m, r) in db.memberRoles && (m, r).1 == r;
    NameGrantsThroughIds(db, tenant, r, permission);
    var e :| e in EffectiveRoleIds(db.roles, tenant, {r}) && LinkGrants(db, e, permission);
    var linked := UserRoleIds(db, tenant, application, user);
    EffectivePerLink(db.roles, tenant, linked, e);
    RoleGrants(db, EffectiveRoleIds(db.roles, tenant, linked), Some(application), e, permission);
  }

  /** Agent permissions through links are exactly what its role names and its internal role mean. */
  lemma AgentResolutionIsByName(db: Db, tenant: Id, application: Id, agent: Id, permission: string)
    requires Valid(db)
    ensures permission in AgentPermissions(db, tenant, application, agent) <==>
            AgentMay(View(db), tenant, application, agent, permission)
  {
    if permission in AgentPermissions(db, tenant, application, agent) {
      AgentLinkIsNamed(db, tenant, application, agent, permission);
    }
    if AgentMay(View(db), tenant, application, agent, permission) {
      NamedAgentIsLinked(db, tenant, application, agent, permission);
    }
  }

  lemma AgentLinkIsNamed(db: Db, tenant: Id, application: Id, agent: Id, permission: string)
    requires RolesAreNamed(db) && AgentLinksIsolated(db.agents, db.roles, db.agentRoles)
    requires permission in AgentPermissions(db, tenant, application, agent)
    ensures AgentMay(View(db), tenant, application, agent, permission)
  {
    var linked := Linked(db.agentRoles, agent);
    var e := GrantingRole(db, EffectiveRoleIds(db.roles, tenant, linked), None, permission);
    EffectivePerLink(db.roles, tenant, linked, e);
    var r :| r in linked && e in EffectiveRoleIds(db.roles, tenant, {r});
    assert (agent, r) in db.agentRoles;
    if db.roles[r].agent.None? {
      NamedAgentLink(db, tenant, agent, permission, r, e);
    } else {
      InternalAgentLink(db, agent, permission, r);
    }
  }

  lemma NamedAgentLink(db: Db, tenant: Id, agent: Id, permission: string, r: Id, e: Id)
    requires RolesAreNamed(db) && AgentLinksIsolated(db.agents, db.roles, db.agentRoles)
    requires agent in db.agents && db.agents[agent].tenant == tenant && (agent, r) in db.agentRoles
    requires r in db.roles && db.roles[r].agent.None?
    requires e in EffectiveRoleIds(db.roles, tenant, {r}) && LinkGrants(db, e, permission)
    ensures AgentMay(View(db), tenant, db.agents[agent].application, agent, permission)
  {
    NameGrantsThroughIds(db, tenant, r, permission);
    assert db.roles[r].name in View(db).agents[agent].names;
  }

  lemma InternalAgentLink(db: Db, agent: Id, permission: string, r: Id)
    requires RolesAreNamed(db) && AgentLinksIsolated(db.agents, db.roles, db.agentRoles)
    requires agent in db.agents && (agent, r) in db.agentRoles && r in db.roles && db.roles[r].agent.Some?
    requires LinkGrants(db, r, permission)
    ensures AgentMay(View(db), db.agents[agent].tenant, db.agents[agent].application, agent, permission)
  {
    LinkGrantsIsKeyGrants(db, r, permission);
    assert KeyOf(db.roles[r]) == Internal(agent);
    assert Provisioned(db.roles, db.agentRoles, agent);
  }

  lemma NamedAgentIsLinked(db: Db, tenant: Id, application: Id, agent: Id, permission: string)
    requires RolesAreNamed(db) && AgentLinksIsolated(db.agents, db.roles, db.agentRoles)
    requires AgentMay(View(db), tenant, application, agent, permission)
    ensures permission in AgentPermissions(db, tenant, application, agent)
  {
    var v := View(db);
    if n :| n in v.agents[agent].names && NameGrants(v, tenant, Some(application), n, permission) {
      AgentNameIsCounted(db, tenant, application, agent, permission, n);
    } else {
      AgentRoleIsCounted(db, tenant, application, agent, permission);
    }
  }

  lemma AgentNameIsCounted(db: Db, tenant: Id, application: Id, agent: Id, permission: string, n: string)
    requires RolesAreNamed(db) && AgentLinksIsolated(db.agents, db.roles, db.agentRoles)
    requires agent in db.agents && db.agents[agent].tenant == tenant && db.agents[agent].application == application
    requires n in NamesOf(db.roles, Linked(db.agentRoles, agent))
    requires NameGrants(View(db), tenant, Some(application), n, permission)
    ensures permission in AgentPermissions(db, tenant, application, agent)
  {
    var r :| r in Linked(db.agentRoles, agent) && r in db.roles && db.roles[r].agent.None? && db.roles[r].name == n;
    NameGrantsThroughIds(db, tenant, r, permission);
    var e :| e in EffectiveRoleIds(db.roles, tenant, {r}) && LinkGrants(db, e, permission);
    AgentPathIsCounted(db, tenant, application, agent, permission, r, e);
  }

  lemma AgentRoleIsCounted(db: Db, tenant: Id, application: Id, agent: Id, permission: string)
    requires RolesAreNamed(db) && AgentLinksIsolated(db.agents, db.roles, db.agentRoles)
    requires agent in db.agents && db.agents[agent].tenant == tenant && db.agents[agent].application == application
    requires Provisioned(db.roles, db.agentRoles, agent)
    requires (Internal(agent), permission) in View(db).grants && (Some(application), permission) in View(db).active
    ensures permission in AgentPermissions(db, tenant, application, agent)
  {
    var r :| r in db.roles && db.roles[r].agent == Some(agent) && (agent, r) in db.agentRoles;
    LinkGrantsIsKeyGrants(db, r, permission);
    assert r in {r};
    AgentPathIsCounted(db, tenant, application, agent, permission, r, r);
  }

  /** The agent's linked role r and the role e in effect for it carry the permission to the agent. */
  lemma AgentPathIsCounted(db: Db, tenant: Id, application: Id, agent: Id, permission: string, r: Id, e: Id)
    requires PermissionLinksIsolated(db.roles, db.permissions, db.rolePermissions)
    requires agent in db.agents && db.agents[agent].tenant == tenant && db.agents[agent].application == application
    requires (agent, r) in db.agentRoles
    requires e in EffectiveRoleIds(db.roles, tenant, {r}) && LinkGrants(db, e, permission)
    ensures permission in AgentPermissions(db, tenant, application, agent)
  {
    var linked := Linked(db.agentRoles, agent);
    EffectivePerLink(db.roles, tenant, linked, e);
    RoleGrants(db, EffectiveRoleIds(db.roles, tenant, linked), None, e, permission);
  }
}
