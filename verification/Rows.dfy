/**
The rows and link tables of the authorization store, and the invariant that
every committed transaction keeps.

Row ids are drawn from a counter: a new row always gets an id that no table has
used before. A value of type Db is one committed state of the database.
*/
module Rows {
  import opened Common

  type Id = nat
  type Links = set<(Id, Id)>

  const ACTIVE := "active"
  const DISABLED := "disabled"

  datatype Tenant = Tenant(slug: string, name: string, status: string)

  datatype Application = Application(slug: string, name: string, status: string, managedBy: Option<string>)

  datatype User = User(displayName: Option<string>, email: Option<string>, status: string)

  /** A user's identity at its identity provider. */
  datatype UserRef = UserRef(provider: string, issuer: string, subject: string)

  datatype Membership = Membership(tenant: Id, application: Option<Id>, user: Id, status: string)

  /** A role is application-wide (no tenant), bound to one tenant, or the internal role of one agent. */
  datatype Role = Role(name: string, tenant: Option<Id>, application: Option<Id>, agent: Option<Id>)

  datatype Permission = Permission(name: string, application: Option<Id>, deprecated: bool)

  datatype Agent = Agent(tenant: Id, application: Id, name: string, displayName: Option<string>, status: string)

  datatype Db = Db(
    next: Id,
    tenants: map<Id, Tenant>,
    applications: map<Id, Application>,
    users: map<Id, User>,
    identities: map<UserRef, Id>,
    memberships: map<Id, Membership>,
    roles: map<Id, Role>,
    permissions: map<Id, Permission>,
    agents: map<Id, Agent>,
    memberRoles: Links,
    agentRoles: Links,
    rolePermissions: Links,
    masks: map<(Id, Id), set<string>>)

  /** Name of the internal role that carries a provisioned agent's permissions. */
  function AgentRoleName(agentName: string): string {
    "agent:" + agentName
  }

  // ---- Freshness and foreign keys ----

  ghost predicate Below<T>(rows: map<Id, T>, next: Id) {
    forall i :: i in rows ==> i < next
  }

  ghost predicate Fresh(db: Db) {
    && Below(db.tenants, db.next)
    && Below(db.applications, db.next)
    && Below(db.users, db.next)
    && Below(db.memberships, db.next)
    && Below(db.roles, db.next)
    && Below(db.permissions, db.next)
    && Below(db.agents, db.next)
  }

  ghost predicate OptionalKey<T>(key: Option<Id>, rows: map<Id, T>) {
    key.Some? ==> key.value in rows
  }

  ghost predicate MembershipKeys(db: Db) {
    forall m :: m in db.memberships ==>
      && db.memberships[m].tenant in db.tenants
      && OptionalKey(db.memberships[m].application, db.applications)
      && db.memberships[m].user in db.users
  }

  ghost predicate RoleKeys(db: Db) {
    forall r :: r in db.roles ==>
      && OptionalKey(db.roles[r].tenant, db.tenants)
      && OptionalKey(db.roles[r].application, db.applications)
      && OptionalKey(db.roles[r].agent, db.agents)
  }

  ghost predicate AgentKeys(db: Db) {
    forall a :: a in db.agents ==> db.agents[a].tenant in db.tenants && db.agents[a].application in db.applications
  }

  ghost predicate PermissionKeys(db: Db) {
    forall p :: p in db.permissions ==> OptionalKey(db.permissions[p].application, db.applications)
  }

  ghost predicate ForeignKeys(db: Db) {
    MembershipKeys(db) && RoleKeys(db) && AgentKeys(db) && PermissionKeys(db)
  }

  // ---- Unique constraints ----

  ghost predicate UniqueTenantSlugs(tenants: map<Id, Tenant>) {
    forall i, j :: i in tenants && j in tenants && tenants[i].slug == tenants[j].slug ==> i == j
  }

  ghost predicate UniqueApplicationSlugs(applications: map<Id, Application>) {
    forall i, j :: i in applications && j in applications && applications[i].slug == applications[j].slug ==> i == j
  }

  /** Every user has one identity: two references never lead to the same user. */
  ghost predicate OneIdentityPerUser(identities: map<UserRef, Id>) {
    forall x, y :: x in identities && y in identities && identities[x] == identities[y] ==> x == y
  }

  ghost predicate IdentityKeys(identities: map<UserRef, Id>, users: map<Id, User>) {
    forall x :: x in identities ==> identities[x] in users
  }

  /** One membership per tenant, application and user; tenant-wide ones (no application) are not constrained. */
  ghost predicate UniqueMemberships(memberships: map<Id, Membership>) {
    forall i, j | && i in memberships && j in memberships && memberships[i].application.Some?
                  && memberships[i].tenant == memberships[j].tenant
                  && memberships[i].application == memberships[j].application
                  && memberships[i].user == memberships[j].user
      :: i == j
  }

  ghost predicate UniqueRoleNames(roles: map<Id, Role>) {
    forall i, j | && i in roles && j in roles && roles[i].tenant == roles[j].tenant
                  && roles[i].application == roles[j].application
                  && roles[i].name == roles[j].name
      :: i == j
  }

  ghost predicate UniquePermissionNames(permissions: map<Id, Permission>) {
    forall i, j | && i in permissions && j in permissions
                  && permissions[i].application == permissions[j].application
                  && permissions[i].name == permissions[j].name
      :: i == j
  }

  ghost predicate UniqueAgentNames(agents: map<Id, Agent>) {
    forall i, j | && i in agents && j in agents && agents[i].tenant == agents[j].tenant
                  && agents[i].application == agents[j].application
                  && agents[i].name == agents[j].name
      :: i == j
  }

  ghost predicate UniqueRows(db: Db) {
    && UniqueTenantSlugs(db.tenants)
    && UniqueApplicationSlugs(db.applications)
    && OneIdentityPerUser(db.identities)
    && IdentityKeys(db.identities, db.users)
    && UniqueMemberships(db.memberships)
    && UniqueRoleNames(db.roles)
    && UniquePermissionNames(db.permissions)
    && UniqueAgentNames(db.agents)
  }

  // ---- Isolation ----

  /** An internal role lies in its agent's tenant and application and carries the agent's name. */
  ghost predicate InternalRoles(roles: map<Id, Role>, agents: map<Id, Agent>) {
    forall r :: r in roles && roles[r].agent.Some? ==>
      && roles[r].agent.value in agents
      && var agent := agents[roles[r].agent.value];
         roles[r].tenant == Some(agent.tenant) && roles[r].application == Some(agent.application)
         && roles[r].name == AgentRoleName(agent.name)
  }

  /** Whether a role is visible in a tenant: application-wide, or bound to that tenant. */
  predicate VisibleIn(role: Role, tenant: Id) {
    role.tenant.None? || role.tenant == Some(tenant)
  }

  ghost predicate MemberLinksIsolated(memberships: map<Id, Membership>, roles: map<Id, Role>, links: Links) {
    forall m, r :: (m, r) in links ==>
      && m in memberships && r in roles
      && roles[r].agent.None?
      && roles[r].application == memberships[m].application
      && VisibleIn(roles[r], memberships[m].tenant)
  }

  ghost predicate AgentLinksIsolated(agents: map<Id, Agent>, roles: map<Id, Role>, links: Links) {
    forall a, r :: (a, r) in links ==>
      && a in agents && r in roles
      && (roles[r].agent.None? || roles[r].agent == Some(a))
      && roles[r].application == Some(agents[a].application)
      && VisibleIn(roles[r], agents[a].tenant)
  }

  ghost predicate PermissionLinksIsolated(roles: map<Id, Role>, permissions: map<Id, Permission>, links: Links) {
    forall r, p :: (r, p) in links ==> r in roles && p in permissions && permissions[p].application == roles[r].application
  }

  ghost predicate Isolated(db: Db) {
    && InternalRoles(db.roles, db.agents)
    && MemberLinksIsolated(db.memberships, db.roles, db.memberRoles)
    && AgentLinksIsolated(db.agents, db.roles, db.agentRoles)
    && PermissionLinksIsolated(db.roles, db.permissions, db.rolePermissions)
  }

  ghost predicate Valid(db: Db) {
    Fresh(db) && ForeignKeys(db) && UniqueRows(db) && Isolated(db)
  }

  const EMPTY := Db(0, map[], map[], map[], map[], map[], map[], map[], map[], {}, {}, {}, map[])
}
