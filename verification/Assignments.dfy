/**
The role and permission assignments of the store, each as one transaction on a
database value, and the same assignments on the name view.

For every operation there are two lemmas: it keeps the database valid, and what it
does to the links is what the name-level operation does to the names.
*/
module Assignments {
  import opened Common
  import opened Rows
  import opened Resolution

  datatype Refusal = UnknownNames(names: set<string>) | InvalidName | Integrity

  // ---- Link tables ----

  /** Make the owner's links exactly ids. */
  function Replace(links: Links, owner: Id, ids: set<Id>): (result: Links)
    ensures forall o, i :: (o, i) in result <==> if o == owner then i in ids else (o, i) in links
  {
    (set l | l in links && l.0 != owner) + (set i | i in ids :: (owner, i))
  }

  // ---- Name resolution ----

  predicate NamedRole(role: Role, tenant: Option<Id>, application: Option<Id>, name: string) {
    role.agent.None? && role.tenant == tenant && role.application == application && role.name == name
  }

  predicate HasNamedRole(roles: map<Id, Role>, tenant: Option<Id>, application: Option<Id>, name: string) {
    exists r :: r in roles && NamedRole(roles[r], tenant, application, name)
  }

  /** Role r is what its name resolves to: the tenant's role, else the application-wide one. */
  predicate Assignable(roles: map<Id, Role>, tenant: Option<Id>, application: Option<Id>, r: Id)
    requires r in roles
  {
    && roles[r].agent.None? && roles[r].application == application
    && (|| (roles[r].tenant.Some? && roles[r].tenant == tenant)
        || (roles[r].tenant.None? && (tenant.Some? ==> !HasNamedRole(roles, tenant, application, roles[r].name))))
  }

  function AssignableIds(roles: map<Id, Role>, tenant: Option<Id>, application: Option<Id>, names: set<string>): set<Id> {
    set r | r in roles && roles[r].name in names && Assignable(roles, tenant, application, r)
  }

  predicate Resolves(roles: map<Id, Role>, tenant: Option<Id>, application: Option<Id>, name: string) {
    (tenant.Some? && HasNamedRole(roles, tenant, application, name)) || HasNamedRole(roles, None, application, name)
  }

  /** Tenant-first resolution finds exactly the names that have a role, and one role for each. */
  lemma AssignableNames(roles: map<Id, Role>, tenant: Option<Id>, application: Option<Id>, names: set<string>)
    requires UniqueRoleNames(roles)
    ensures NamesOf(roles, AssignableIds(roles, tenant, application, names))
            == set n | n in names && Resolves(roles, tenant, application, n)
    ensures var ids := AssignableIds(roles, tenant, application, names);
            forall r, s | r in ids && s in ids && roles[r].name == roles[s].name :: r == s
  {
  }

  function ActiveIds(permissions: map<Id, Permission>, application: Option<Id>, names: set<string>): set<Id> {
    set p | p in permissions && permissions[p].application == application
            && !permissions[p].deprecated && permissions[p].name in names
  }

  function PermissionNames(permissions: map<Id, Permission>, ids: set<Id>): set<string> {
    set p | p in ids && p in permissions :: permissions[p].name
  }

  // ---- Operations ----

  function SetMembershipRoles(db: Db, m: Id, names: set<string>): Db {
    if m !in db.memberships then db
    else
      var row := db.memberships[m];
      db.(memberRoles := Replace(db.memberRoles, m, AssignableIds(db.roles, Some(row.tenant), row.application, names)))
  }

  function SetAgentRoles(db: Db, a: Id, names: set<string>): Result<Db, Refusal> {
    if a !in db.agents then Ok(db)
    else
      var row := db.agents[a];
      var ids := AssignableIds(db.roles, Some(row.tenant), Some(row.application), names);
      var known := NamesOf(db.roles, ids);
      if !(names <= known) then Err(UnknownNames(names - known))
      else Ok(db.(agentRoles := Replace(db.agentRoles, a, ids)))
  }

  function SetRolePermissions(db: Db, r: Id, names: set<string>): Result<Db, Refusal> {
    if r !in db.roles then Ok(db)
    else
      var ids := ActiveIds(db.permissions, db.roles[r].application, names);
      var known := PermissionNames(db.permissions, ids);
      if !(names <= known) then Err(UnknownNames(names - known))
      else Ok(db.(rolePermissions := Replace(db.rolePermissions, r, ids)))
  }

  predicate NameTaken(roles: map<Id, Role>, tenant: Option<Id>, application: Option<Id>, name: string) {
    exists r :: r in roles && roles[r].tenant == tenant && roles[r].application == application && roles[r].name == name
  }

  function WithRole(db: Db, role: Role): Db {
    db.(next := db.next + 1, roles := db.roles[db.next := role])
  }

  function RoleIds(roles: map<Id, Role>, tenant: Option<Id>, application: Option<Id>, name: string): set<Id> {
    set r | r in roles && NamedRole(roles[r], tenant, application, name)
  }

  /** Give every role in ids (there is at most one) exactly these permissions. */
  function ReplaceAll(links: Links, owners: set<Id>, ids: set<Id>): (result: Links)
    ensures forall o, i :: (o, i) in result <==> if o in owners then i in ids else (o, i) in links
  {
    (set l | l in links && l.0 !in owners) + (set o, i | o in owners && i in ids :: (o, i))
  }

  function SetOverride(db: Db, tenant: Id, application: Id, name: string, names: set<string>): Result<Db, Refusal> {
    var ids := ActiveIds(db.permissions, Some(application), names);
    var known := PermissionNames(db.permissions, ids);
    if !(names <= known) then Err(UnknownNames(names - known))
    else if HasNamedRole(db.roles, Some(tenant), Some(application), name) then
      var owners := RoleIds(db.roles, Some(tenant), Some(application), name);
      Ok(db.(rolePermissions := ReplaceAll(db.rolePermissions, owners, ids)))
    else if tenant !in db.tenants || application !in db.applications
            || NameTaken(db.roles, Some(tenant), Some(application), name) then Err(Integrity)
    else
      var db' := WithRole(db, Role(name, Some(tenant), Some(application), None));
      Ok(db'.(rolePermissions := Replace(db'.rolePermissions, db.next, ids)))
  }

  /** Holders of a role that goes away get its heirs instead. */
  function Handover(links: Links, gone: set<Id>, heirs: set<Id>): (result: Links)
    ensures forall h, r {:trigger (h, r) in result} :: (h, r) in result <==>
              r !in gone && ((h, r) in links || (r in heirs && exists o :: o in gone && (h, o) in links))
  {
    var moved := set l, r | l in links && l.1 in gone && r in heirs :: (l.0, r);
    assert forall h, o, r :: (h, o) in links && o in gone && r in heirs ==> (h, o).0 == h && (h, r) in moved;
    set l | l in links + moved && l.1 !in gone
  }

  function DeleteOverride(db: Db, tenant: Id, application: Id, name: string): Db {
    var gone := RoleIds(db.roles, Some(tenant), Some(application), name);
    var default := RoleIds(db.roles, None, Some(application), name);
    db.(memberRoles := Handover(db.memberRoles, gone, default),
        agentRoles := Handover(db.agentRoles, gone, default),
        rolePermissions := (set l | l in db.rolePermissions && l.0 !in gone),
        roles := db.roles - gone)
  }

  function CreateMembership(db: Db, tenant: Id, application: Option<Id>, user: Id, status: string, names: set<string>)
    : Result<Db, Refusal>
  {
    if tenant !in db.tenants || user !in db.users || (application.Some? && application.value !in db.applications)
       || (application.Some? && exists m :: m in db.memberships && db.memberships[m].tenant == tenant
                                            && db.memberships[m].application == application
                                            && db.memberships[m].user == user) then Err(Integrity)
    else
      var m := db.next;
      var db' := db.(next := m + 1, memberships := db.memberships[m := Membership(tenant, application, user, status)]);
      Ok(db'.(memberRoles := Replace(db'.memberRoles, m, AssignableIds(db.roles, Some(tenant), application, names))))
  }

  function CreateAgent(db: Db, tenant: Id, application: Id, name: string, displayName: Option<string>, status: string)
    : Result<Db, Refusal>
  {
    if tenant !in db.tenants || application !in db.applications
       || (exists a :: a in db.agents && db.agents[a].tenant == tenant && db.agents[a].application == application
                       && db.agents[a].name == name) then Err(Integrity)
    else
      Ok(db.(next := db.next + 1,
             agents := db.agents[db.next := Agent(tenant, application, name, displayName, status)]))
  }

  function SetMask(db: Db, tenant: Id, application: Id, permissions: set<string>): Db {
    db.(masks := db.masks[(tenant, application) := permissions])
  }

  /**
  Insert a role row. The unique constraint covers tenant, application and name, but a
  database compares no value with NULL, so it does not stop a second role of the same
  name when the tenant or the application is absent.
  */
  function CreateRole(db: Db, name: string, tenant: Option<Id>, application: Option<Id>): Result<Db, Refusal> {
    if (tenant.Some? && tenant.value !in db.tenants) || (application.Some? && application.value !in db.applications)
       || (tenant.Some? && application.Some? && NameTaken(db.roles, tenant, application, name)) then Err(Integrity)
    else Ok(WithRole(db, Role(name, tenant, application, None)))
  }

  // ---- The same operations on names ----

  predicate NameResolves(keys: set<RoleKey>, tenant: Id, application: Option<Id>, name: string) {
    OfTenant(tenant, application, name) in keys || Shared(application, name) in keys
  }

  function Resolvable(keys: set<RoleKey>, tenant: Id, application: Option<Id>, names: set<string>): set<string> {
    set n | n in names && NameResolves(keys, tenant, application, n)
  }

  function NameSetMembershipRoles(v: NameView, m: Id, names: set<string>): NameView {
    if m !in v.members then v
    else
      var row := v.members[m];
      v.(members := v.members[m := row.(names := Resolvable(v.roles, row.tenant, row.application, names))])
  }

  predicate NamesResolve(keys: set<RoleKey>, tenant: Id, application: Option<Id>, names: set<string>) {
    forall n :: n in names ==> NameResolves(keys, tenant, application, n)
  }

  function NameSetAgentRoles(v: NameView, a: Id, names: set<string>): NameView {
    if a !in v.agents || !NamesResolve(v.roles, v.agents[a].tenant, Some(v.agents[a].application), names) then v
    else v.(agents := v.agents[a := v.agents[a].(names := names, provisioned := false)])
  }

  function NameSetGrants(v: NameView, key: RoleKey, names: set<string>): NameView {
    v.(roles := v.roles + {key},
       grants := (set g | g in v.grants && g.0 != key) + (set n | n in names :: (key, n)))
  }

  function Forget(row: MemberView, tenant: Id, application: Id, name: string): MemberView {
    if row.tenant == tenant && row.application == Some(application) then row.(names := row.names - {name}) else row
  }

  function AgentForget(row: AgentView, tenant: Id, application: Id, name: string): AgentView {
    if row.tenant == tenant && row.application == application then row.(names := row.names - {name}) else row
  }

  /** Drop a tenant's role; when no application-wide role of the name is left, nobody in the tenant holds the name. */
  function NameDelete(v: NameView, tenant: Id, application: Id, name: string): NameView {
    var key := OfTenant(tenant, Some(application), name);
    if key !in v.roles then v
    else
      var keep := Shared(Some(application), name) in v.roles;
      v.(roles := v.roles - {key},
         grants := (set g | g in v.grants && g.0 != key),
         members := (map m | m in v.members :: if keep then v.members[m] else Forget(v.members[m], tenant, application, name)),
         agents := (map a | a in v.agents :: if keep then v.agents[a] else AgentForget(v.agents[a], tenant, application, name)))
  }

  // ---- Assigning roles ----

  /** What replacing a membership's links does to the name view. */
  lemma MemberLinksReplaced(db: Db, m: Id, ids: set<Id>)
    requires m in db.memberships
    ensures View(db.(memberRoles := Replace(db.memberRoles, m, ids)))
            == View(db).(members := View(db).members[m := View(db).members[m].(names := NamesOf(db.roles, ids))])
  {
    var db' := db.(memberRoles := Replace(db.memberRoles, m, ids));
    assert Linked(db'.memberRoles, m) == ids;
    forall x | x in db.memberships && x != m ensures MemberViewOf(db', x) == MemberViewOf(db, x) {
      assert Linked(db'.memberRoles, x) == Linked(db.memberRoles, x);
    }
    assert View(db').members == View(db).members[m := View(db).members[m].(names := NamesOf(db.roles, ids))];
    assert View(db').agents == View(db).agents;
  }

  lemma ResolvedNames(db: Db, tenant: Id, application: Option<Id>, names: set<string>)
    requires UniqueRoleNames(db.roles)
    ensures NamesOf(db.roles, AssignableIds(db.roles, Some(tenant), application, names))
            == Resolvable(View(db).roles, tenant, application, names)
  {
  }

  lemma SetMembershipRolesByName(db: Db, m: Id, names: set<string>)
    requires Valid(db)
    ensures Valid(SetMembershipRoles(db, m, names))
    ensures View(SetMembershipRoles(db, m, names)) == NameSetMembershipRoles(View(db), m, names)
  {
    if m in db.memberships {
      SetMembershipRolesOfRow(db, m, names);
      MemberLinksValid(db, m, AssignableIds(db.roles, Some(db.memberships[m].tenant), db.memberships[m].application, names));
    }
  }

  lemma MemberLinksValid(db: Db, m: Id, ids: set<Id>)
    requires Valid(db) && m in db.memberships
    requires forall r :: r in ids ==>
               r in db.roles && Assignable(db.roles, Some(db.memberships[m].tenant), db.memberships[m].application, r)
    ensures Valid(db.(memberRoles := Replace(db.memberRoles, m, ids)))
  {
    MemberLinksStayIsolated(db.memberships, db.roles, db.memberRoles, m, ids);
  }

  lemma MemberLinksStayIsolated(memberships: map<Id, Membership>, roles: map<Id, Role>, links: Links, m: Id, ids: set<Id>)
    requires MemberLinksIsolated(memberships, roles, links) && m in memberships
    requires forall r :: r in ids ==>
               r in roles && Assignable(roles, Some(memberships[m].tenant), memberships[m].application, r)
    ensures MemberLinksIsolated(memberships, roles, Replace(links, m, ids))
  {
  }

  lemma SetAgentRolesValid(db: Db, a: Id, names: set<string>)
    requires Valid(db)
    ensures var r := SetAgentRoles(db, a, names); r.Ok? ==> Valid(r.value)
  {
    if a in db.agents {
      var ids := AssignableIds(db.roles, Some(db.agents[a].tenant), Some(db.agents[a].application), names);
      AgentLinksStayIsolated(db.agents, db.roles, db.agentRoles, a, ids);
      assert Valid(db.(agentRoles := Replace(db.agentRoles, a, ids)));
    }
  }

  lemma AgentLinksStayIsolated(agents: map<Id, Agent>, roles: map<Id, Role>, links: Links, a: Id, ids: set<Id>)
    requires AgentLinksIsolated(agents, roles, links)
    requires a in agents
    requires forall r :: r in ids ==> r in roles && Assignable(roles, Some(agents[a].tenant), Some(agents[a].application), r)
    ensures AgentLinksIsolated(agents, roles, Replace(links, a, ids))
  {
  }

  lemma SetAgentRolesByName(db: Db, a: Id, names: set<string>)
    requires UniqueRoleNames(db.roles)
    ensures match SetAgentRoles(db, a, names)
            case Ok(db') => View(db') == NameSetAgentRoles(View(db), a, names)
            case Err(_) => NameSetAgentRoles(View(db), a, names) == View(db)
    ensures SetAgentRoles(db, a, names).Ok? <==>
            (a in db.agents ==> NamesResolve(View(db).roles, db.agents[a].tenant, Some(db.agents[a].application), names))
  {
    if a in db.agents {
      var row := db.agents[a];
      var ids := AssignableIds(db.roles, Some(row.tenant), Some(row.application), names);
      ResolvedNames(db, row.tenant, Some(row.application), names);
      AgentLinksReplaced(db, a, ids);
      if names <= NamesOf(db.roles, ids) {
        assert NamesOf(db.roles, ids) == names;
      }
    }
  }

  /** What replacing an agent's links by named roles does to the name view. */
  lemma AgentLinksReplaced(db: Db, a: Id, ids: set<Id>)
    requires a in db.agents
    requires forall r :: r in ids ==> r in db.roles && db.roles[r].agent.None?
    ensures View(db.(agentRoles := Replace(db.agentRoles, a, ids)))
            == View(db).(agents := View(db).agents[a :=
                 View(db).agents[a].(names := NamesOf(db.roles, ids), provisioned := false)])
  {
    var db' := db.(agentRoles := Replace(db.agentRoles, a, ids));
    assert Linked(db'.agentRoles, a) == ids;
    forall x | x in db.agents && x != a ensures AgentViewOf(db', x) == AgentViewOf(db, x) {
      assert Linked(db'.agentRoles, x) == Linked(db.agentRoles, x);
    }
    assert View(db').members == View(db).members;
    assert View(db').agents == View(db).agents[a :=
              View(db).agents[a].(names := NamesOf(db.roles, ids), provisioned := false)];
  }

  lemma ActivePermissionNames(permissions: map<Id, Permission>, application: Option<Id>, names: set<string>)
    ensures PermissionNames(permissions, ActiveIds(permissions, application, names))
            == set n | n in names && (application, n) in ActiveOf(permissions)
  {
  }

  lemma SetRolePermissionsValid(db: Db, r: Id, names: set<string>)
    requires Valid(db)
    ensures var result := SetRolePermissions(db, r, names); result.Ok? ==> Valid(result.value)
  {
    if r in db.roles {
      PermissionLinksValid(db, r, ActiveIds(db.permissions, db.roles[r].application, names));
    }
  }

  lemma PermissionLinksValid(db: Db, r: Id, ids: set<Id>)
    requires Valid(db) && r in db.roles
    requires forall p :: p in ids ==> p in db.permissions && db.permissions[p].application == db.roles[r].application
    ensures Valid(db.(rolePermissions := Replace(db.rolePermissions, r, ids)))
  {
    PermissionLinksStayIsolated(db.roles, db.permissions, db.rolePermissions, r, ids);
  }

  lemma PermissionLinksStayIsolated(roles: map<Id, Role>, permissions: map<Id, Permission>, links: Links, r: Id, ids: set<Id>)
    requires PermissionLinksIsolated(roles, permissions, links)
    requires r in roles
    requires forall p :: p in ids ==> p in permissions && permissions[p].application == roles[r].application
    ensures PermissionLinksIsolated(roles, permissions, Replace(links, r, ids))
  {
  }

  lemma SetRolePermissionsByName(db: Db, r: Id, names: set<string>)
    requires UniqueRoleNames(db.roles) && InternalRoles(db.roles, db.agents)
    ensures match SetRolePermissions(db, r, names)
            case Ok(db') =>
              View(db') == if r in db.roles then NameSetGrants(View(db), KeyOf(db.roles[r]), names) else View(db)
            case Err(_) => true
    ensures SetRolePermissions(db, r, names).Ok? <==>
            (r in db.roles ==> forall n :: n in names ==> (db.roles[r].application, n) in View(db).active)
  {
    if r in db.roles {
      var application := db.roles[r].application;
      var ids := ActiveIds(db.permissions, application, names);
      ActivePermissionNames(db.permissions, application, names);
      if names <= PermissionNames(db.permissions, ids) {
        assert PermissionNames(db.permissions, ids) == names;
        GrantsReplaced(db.roles, db.agents, db.permissions, db.rolePermissions, r, ids);
        assert KeyOf(db.roles[r]) in KeysOf(db.roles);
        PermissionLinksOnly(db, Replace(db.rolePermissions, r, ids));
      }
    }
  }

  lemma GrantsReplaced(roles: map<Id, Role>, agents: map<Id, Agent>, permissions: map<Id, Permission>, links: Links, r: Id,
                       ids: set<Id>)
    requires UniqueRoleNames(roles) && InternalRoles(roles, agents)
    requires r in roles && forall p :: p in ids ==> p in permissions
    ensures GrantsOf(roles, permissions, Replace(links, r, ids))
            == (set g | g in GrantsOf(roles, permissions, links) && g.0 != KeyOf(roles[r]))
               + (set n | n in PermissionNames(permissions, ids) :: (KeyOf(roles[r]), n))
  {
    forall g | g in GrantsOf(roles, permissions, links) && g.0 != KeyOf(roles[r])
      ensures g in GrantsOf(roles, permissions, Replace(links, r, ids))
    {
      var l :| l in links && l.0 in roles && l.1 in permissions && g == (KeyOf(roles[l.0]), permissions[l.1].name);
      assert (l.0, l.1) == l && l in Replace(links, r, ids);
    }
    forall p | p in ids ensures (KeyOf(roles[r]), permissions[p].name) in GrantsOf(roles, permissions, Replace(links, r, ids)) {
      assert (r, p) in Replace(links, r, ids) && (r, p).0 == r && (r, p).1 == p;
    }
  }

  /** Role-permission links show in the grants alone. */
  lemma PermissionLinksOnly(db: Db, links: Links)
    ensures View(db.(rolePermissions := links)) == View(db).(grants := GrantsOf(db.roles, db.permissions, links))
  {
    var db' := db.(rolePermissions := links);
    assert View(db').members == View(db).members;
    assert View(db').agents == View(db).agents;
  }

  /** A role's key grants the names of the permissions it is linked to. */
  lemma GrantsAreNames(db: Db, r: Id, n: string)
    requires UniqueRoleNames(db.roles) && InternalRoles(db.roles, db.agents) && r in db.roles
    ensures (KeyOf(db.roles[r]), n) in GrantsOf(db.roles, db.permissions, db.rolePermissions)
            <==> n in PermissionNames(db.permissions, Linked(db.rolePermissions, r))
  {
    if (KeyOf(db.roles[r]), n) in GrantsOf(db.roles, db.permissions, db.rolePermissions) {
      var l :| l in db.rolePermissions && l.0 in db.roles && l.1 in db.permissions
               && KeyOf(db.roles[l.0]) == KeyOf(db.roles[r]) && db.permissions[l.1].name == n;
      KeyIsUnique(db.roles, db.agents, l.0, r);
      assert l == (r, l.1);
    }
    if n in PermissionNames(db.permissions, Linked(db.rolePermissions, r)) {
      var p :| p in Linked(db.rolePermissions, r) && p in db.permissions && db.permissions[p].name == n;
      assert (r, p).0 == r && (r, p).1 == p;
    }
  }

  /** A key grants what it did if its role's links are as before and no linked row has changed what it is. */
  lemma GrantsElsewhere(roles: map<Id, Role>, roles': map<Id, Role>, permissions: map<Id, Permission>,
                        permissions': map<Id, Permission>, links: Links, links': Links, g: (RoleKey, string))
    requires forall r, p | (r, p) in links :: && r in roles && p in permissions && r in roles' && p in permissions'
                                              && roles'[r] == roles[r] && permissions'[p].name == permissions[p].name
    requires forall r, p | r in roles' && KeyOf(roles'[r]) == g.0 :: (r, p) in links' <==> (r, p) in links
    ensures g in GrantsOf(roles', permissions', links') <==> g in GrantsOf(roles, permissions, links)
  {
    if g in GrantsOf(roles', permissions', links') {
      var l :| l in links' && l.0 in roles' && l.1 in permissions' && g == (KeyOf(roles'[l.0]), permissions'[l.1].name);
      assert (l.0, l.1) == l && l in links;
    }
    if g in GrantsOf(roles, permissions, links) {
      var l :| l in links && l.0 in roles && l.1 in permissions && g == (KeyOf(roles[l.0]), permissions[l.1].name);
      assert (l.0, l.1) == l && l in links';
    }
  }

  /** Roles that no link points to do not show in what anybody holds. */
  lemma HoldersKept(db: Db, db': Db)
    requires db'.memberships == db.memberships && db'.agents == db.agents
    requires db'.memberRoles == db.memberRoles && db'.agentRoles == db.agentRoles
    requires forall r :: r in db.roles ==> r in db'.roles && db'.roles[r] == db.roles[r]
    requires MemberLinksIsolated(db.memberships, db.roles, db.memberRoles)
    requires AgentLinksIsolated(db.agents, db.roles, db.agentRoles)
    ensures View(db').members == View(db).members && View(db').agents == View(db).agents
  {
    forall m | m in db.memberships ensures NamesOf(db'.roles, Linked(db.memberRoles, m)) == NamesOf(db.roles, Linked(db.memberRoles, m)) {
      forall r | r in Linked(db.memberRoles, m) ensures r in db.roles {
        assert (m, r) in db.memberRoles;
      }
    }
    forall a | a in db.agents
      ensures NamesOf(db'.roles, Linked(db.agentRoles, a)) == NamesOf(db.roles, Linked(db.agentRoles, a))
      ensures Provisioned(db'.roles, db.agentRoles, a) == Provisioned(db.roles, db.agentRoles, a)
    {
      forall r | r in Linked(db.agentRoles, a) ensures r in db.roles {
        assert (a, r) in db.agentRoles;
      }
    }
  }

  // ---- New roles and overrides ----

  lemma WithRoleByName(db: Db, role: Role)
    requires db.next !in db.roles && Isolated(db)
    ensures View(WithRole(db, role)) == View(db).(roles := View(db).roles + {KeyOf(role)})
  {
    HoldersKept(db, WithRole(db, role));
    KeyAdded(db.roles, db.next, role);
    GrantsUnlinked(db.roles, db.permissions, db.rolePermissions, db.next, role);
  }

  lemma KeyAdded(roles: map<Id, Role>, next: Id, role: Role)
    requires next !in roles
    ensures KeysOf(roles[next := role]) == KeysOf(roles) + {KeyOf(role)}
  {
    var more := roles[next := role];
    assert forall r :: r in roles ==> r in more && more[r] == roles[r];
    assert more[next] == role;
  }

  lemma GrantsUnlinked(roles: map<Id, Role>, permissions: map<Id, Permission>, links: Links, next: Id, role: Role)
    requires PermissionLinksIsolated(roles, permissions, links) && next !in roles
    ensures GrantsOf(roles[next := role], permissions, links) == GrantsOf(roles, permissions, links)
  {
    forall l | l in links ensures l.0 in roles {
      assert (l.0, l.1) == l;
    }
  }

  lemma WithRoleValid(db: Db, role: Role)
    requires Valid(db)
    requires OptionalKey(role.tenant, db.tenants) && OptionalKey(role.application, db.applications)
    requires OptionalKey(role.agent, db.agents)
    requires !NameTaken(db.roles, role.tenant, role.application, role.name)
    requires InternalRoles(db.roles[db.next := role], db.agents)
    ensures Valid(WithRole(db, role))
  {
    RoleRowAdded(db, role);
    RoleKeysAdded(db, role);
    assert Fresh(WithRole(db, role));
  }

  lemma RoleKeysAdded(db: Db, role: Role)
    requires ForeignKeys(db) && db.next !in db.roles
    requires OptionalKey(role.tenant, db.tenants) && OptionalKey(role.application, db.applications)
    requires OptionalKey(role.agent, db.agents)
    ensures ForeignKeys(WithRole(db, role))
  {
  }

  lemma RoleRowAdded(db: Db, role: Role)
    requires db.next !in db.roles && UniqueRoleNames(db.roles)
    requires !NameTaken(db.roles, role.tenant, role.application, role.name)
    requires MemberLinksIsolated(db.memberships, db.roles, db.memberRoles)
    requires AgentLinksIsolated(db.agents, db.roles, db.agentRoles)
    requires PermissionLinksIsolated(db.roles, db.permissions, db.rolePermissions)
    ensures var roles := db.roles[db.next := role];
            && UniqueRoleNames(roles)
            && MemberLinksIsolated(db.memberships, roles, db.memberRoles)
            && AgentLinksIsolated(db.agents, roles, db.agentRoles)
            && PermissionLinksIsolated(roles, db.permissions, db.rolePermissions)
  {
  }

  lemma SecondOfItsName(roles: map<Id, Role>, next: Id, role: Role)
    requires next !in roles && NameTaken(roles, role.tenant, role.application, role.name)
    ensures !UniqueRoleNames(roles[next := role])
  {
    var r :| r in roles && roles[r].tenant == role.tenant && roles[r].application == role.application && roles[r].name == role.name;
    var more := roles[next := role];
    assert more[r] == roles[r] && more[next] == role;
  }

  /** Creating a role keeps the store valid exactly when its name is free, which only the caller can tell. */
  lemma CreateRoleValidity(db: Db, name: string, tenant: Option<Id>, application: Option<Id>)
    requires Valid(db)
    ensures var result := CreateRole(db, name, tenant, application);
            result.Ok? ==> (Valid(result.value) <==> !NameTaken(db.roles, tenant, application, name))
    ensures OptionalKey(application, db.applications) && tenant.None? ==> CreateRole(db, name, tenant, application).Ok?
  {
    var result := CreateRole(db, name, tenant, application);
    if result.Ok? {
      if NameTaken(db.roles, tenant, application, name) {
        SecondOfItsName(db.roles, db.next, Role(name, tenant, application, None));
      } else {
        WithRoleValid(db, Role(name, tenant, application, None));
      }
    }
  }

  /** The role id that SetOverride writes to: the tenant's role of that name, created if need be. */
  lemma SetOverrideWrites(db: Db, tenant: Id, application: Id, name: string, names: set<string>) returns (base: Db, r: Id)
    requires Valid(db)
    requires SetOverride(db, tenant, application, name, names).Ok?
    ensures Valid(base) && r in base.roles && KeyOf(base.roles[r]) == OfTenant(tenant, Some(application), name)
    ensures base.permissions == db.permissions && base.rolePermissions == db.rolePermissions
    ensures View(base) == View(db).(roles := View(db).roles + {OfTenant(tenant, Some(application), name)})
    ensures SetOverride(db, tenant, application, name, names).value
            == base.(rolePermissions := Replace(base.rolePermissions, r, ActiveIds(base.permissions, Some(application), names)))
  {
    var ids := ActiveIds(db.permissions, Some(application), names);
    if HasNamedRole(db.roles, Some(tenant), Some(application), name) {
      base := db;
      r :| r in db.roles && NamedRole(db.roles[r], Some(tenant), Some(application), name);
      var owners := RoleIds(db.roles, Some(tenant), Some(application), name);
      assert forall o :: o in owners <==> o == r;
      assert ReplaceAll(db.rolePermissions, owners, ids) == Replace(db.rolePermissions, r, ids);
      assert KeyOf(db.roles[r]) in KeysOf(db.roles);
      assert View(db).roles + {KeyOf(db.roles[r])} == View(db).roles;
    } else {
      var role := Role(name, Some(tenant), Some(application), None);
      base, r := WithRole(db, role), db.next;
      WithRoleValid(db, role);
      WithRoleByName(db, role);
    }
  }

  lemma SetOverrideByName(db: Db, tenant: Id, application: Id, name: string, names: set<string>)
    requires Valid(db)
    ensures var result := SetOverride(db, tenant, application, name, names);
            result.Ok? ==>
              && Valid(result.value)
              && View(result.value) == NameSetGrants(View(db), OfTenant(tenant, Some(application), name), names)
  {
    if SetOverride(db, tenant, application, name, names).Ok? {
      var base, r := SetOverrideWrites(db, tenant, application, name, names);
      ActivePermissionNames(base.permissions, Some(application), names);
      OverrideWritten(base, r, application, names);
    }
  }

  lemma OverrideWritten(db: Db, r: Id, application: Id, names: set<string>)
    requires Valid(db) && r in db.roles && db.roles[r].application == Some(application)
    requires names <= PermissionNames(db.permissions, ActiveIds(db.permissions, Some(application), names))
    ensures var db' := db.(rolePermissions := Replace(db.rolePermissions, r, ActiveIds(db.permissions, Some(application), names)));
            Valid(db') && View(db') == NameSetGrants(View(db), KeyOf(db.roles[r]), names)
  {
    SetRolePermissionsValid(db, r, names);
    SetRolePermissionsByName(db, r, names);
  }

  // ---- Deleting an override ----

  lemma DeleteOverrideValid(db: Db, tenant: Id, application: Id, name: string)
    requires Valid(db)
    ensures Valid(DeleteOverride(db, tenant, application, name))
  {
    var db' := DeleteOverride(db, tenant, application, name);
    assert Fresh(db') && ForeignKeys(db') && UniqueRows(db');
    DeleteOverrideIsolated(db, tenant, application, name);
  }

  lemma DeleteOverrideIsolated(db: Db, tenant: Id, application: Id, name: string)
    requires Isolated(db)
    ensures Isolated(DeleteOverride(db, tenant, application, name))
  {
  }

  /** Affected holders may hold the override; the others hold nothing that goes away. */
  ghost predicate HoldersSorted(roles: map<Id, Role>, links: Links, holder: Id, tenant: Id, application: Id, affected: bool) {
    forall r :: (holder, r) in links ==>
      && r in roles
      && if affected then roles[r].application == Some(application) && VisibleIn(roles[r], tenant)
         else roles[r].tenant != Some(tenant) || roles[r].application != Some(application)
  }

  function NamesAfter(roles: map<Id, Role>, links: Links, holder: Id, tenant: Id, application: Id, name: string): set<string> {
    var gone := RoleIds(roles, Some(tenant), Some(application), name);
    NamesOf(roles - gone, Linked(Handover(links, gone, RoleIds(roles, None, Some(application), name)), holder))
  }

  /** The names among a holder's links after the override is gone. */
  lemma HandoverNames(roles: map<Id, Role>, links: Links, holder: Id, tenant: Id, application: Id, name: string,
                      affected: bool)
    requires HoldersSorted(roles, links, holder, tenant, application, affected)
    ensures NamesAfter(roles, links, holder, tenant, application, name)
            == if affected && RoleIds(roles, None, Some(application), name) == {}
               then NamesOf(roles, Linked(links, holder)) - {name} else NamesOf(roles, Linked(links, holder))
  {
  }

  lemma DeletedMember(db: Db, tenant: Id, application: Id, name: string, m: Id)
    requires m in db.memberships
    requires HoldersSorted(db.roles, db.memberRoles, m, tenant, application,
                           db.memberships[m].tenant == tenant && db.memberships[m].application == Some(application))
    ensures MemberViewOf(DeleteOverride(db, tenant, application, name), m)
            == if RoleIds(db.roles, None, Some(application), name) != {} then MemberViewOf(db, m)
               else Forget(MemberViewOf(db, m), tenant, application, name)
  {
    HandoverNames(db.roles, db.memberRoles, m, tenant, application, name,
                  db.memberships[m].tenant == tenant && db.memberships[m].application == Some(application));
  }

  lemma MemberSorted(memberships: map<Id, Membership>, roles: map<Id, Role>, links: Links, m: Id, tenant: Id, application: Id)
    requires MemberLinksIsolated(memberships, roles, links) && m in memberships
    ensures HoldersSorted(roles, links, m, tenant, application,
                          memberships[m].tenant == tenant && memberships[m].application == Some(application))
  {
  }

  lemma DefaultByName(db: Db, application: Id, name: string)
    ensures RoleIds(db.roles, None, Some(application), name) != {} <==> Shared(Some(application), name) in View(db).roles
  {
    if Shared(Some(application), name) in View(db).roles {
      var r :| r in db.roles && KeyOf(db.roles[r]) == Shared(Some(application), name);
      assert r in RoleIds(db.roles, None, Some(application), name);
    }
    if RoleIds(db.roles, None, Some(application), name) != {} {
      var r :| r in RoleIds(db.roles, None, Some(application), name);
      assert KeyOf(db.roles[r]) in KeysOf(db.roles);
    }
  }

  lemma DeletedAgent(db: Db, tenant: Id, application: Id, name: string, a: Id)
    requires a in db.agents
    requires HoldersSorted(db.roles, db.agentRoles, a, tenant, application,
                           db.agents[a].tenant == tenant && db.agents[a].application == application)
    ensures AgentViewOf(DeleteOverride(db, tenant, application, name), a)
            == if RoleIds(db.roles, None, Some(application), name) != {} then AgentViewOf(db, a)
               else AgentForget(AgentViewOf(db, a), tenant, application, name)
  {
    HandoverNames(db.roles, db.agentRoles, a, tenant, application, name,
                  db.agents[a].tenant == tenant && db.agents[a].application == application);
    ProvisionedKept(db.roles, db.agentRoles, a, RoleIds(db.roles, Some(tenant), Some(application), name),
                    RoleIds(db.roles, None, Some(application), name));
  }

  lemma AgentSorted(agents: map<Id, Agent>, roles: map<Id, Role>, links: Links, a: Id, tenant: Id, application: Id)
    requires AgentLinksIsolated(agents, roles, links) && a in agents
    ensures HoldersSorted(roles, links, a, tenant, application,
                          agents[a].tenant == tenant && agents[a].application == application)
  {
  }

  lemma ProvisionedKept(roles: map<Id, Role>, links: Links, a: Id, gone: set<Id>, heirs: set<Id>)
    requires forall r :: r in gone + heirs ==> r in roles && roles[r].agent.None?
    ensures Provisioned(roles - gone, Handover(links, gone, heirs), a) <==> Provisioned(roles, links, a)
  {
  }

  lemma DeletedGrants(db: Db, tenant: Id, application: Id, name: string)
    requires UniqueRoleNames(db.roles) && InternalRoles(db.roles, db.agents)
    ensures var v := View(DeleteOverride(db, tenant, application, name));
            var key := OfTenant(tenant, Some(application), name);
            && v.roles == View(db).roles - {key}
            && v.grants == set g | g in View(db).grants && g.0 != key
  {
    var gone := RoleIds(db.roles, Some(tenant), Some(application), name);
    var key := OfTenant(tenant, Some(application), name);
    forall r | r in db.roles ensures r in gone <==> KeyOf(db.roles[r]) == key {
    }
    KeysWithout(db.roles, gone, key);
    GrantsWithout(db.roles, db.permissions, db.rolePermissions, gone, key);
  }

  lemma KeysWithout(roles: map<Id, Role>, gone: set<Id>, key: RoleKey)
    requires forall r :: r in roles ==> (r in gone <==> KeyOf(roles[r]) == key)
    ensures KeysOf(roles - gone) == KeysOf(roles) - {key}
  {
    forall k | k in KeysOf(roles) - {key} ensures k in KeysOf(roles - gone) {
      var r :| r in roles && KeyOf(roles[r]) == k;
      assert r in roles - gone;
    }
  }

  lemma GrantsWithout(roles: map<Id, Role>, permissions: map<Id, Permission>, links: Links, gone: set<Id>, key: RoleKey)
    requires forall r :: r in roles ==> (r in gone <==> KeyOf(roles[r]) == key)
    ensures GrantsOf(roles - gone, permissions, set l | l in links && l.0 !in gone)
            == set g | g in GrantsOf(roles, permissions, links) && g.0 != key
  {
    var kept := set l | l in links && l.0 !in gone;
    forall g | g in GrantsOf(roles, permissions, links) && g.0 != key ensures g in GrantsOf(roles - gone, permissions, kept) {
      var l :| l in links && l.0 in roles && l.1 in permissions && g == (KeyOf(roles[l.0]), permissions[l.1].name);
      assert l in kept;
    }
  }

  /** Deleting an override drops the tenant's definition and keeps every held name that still has one. */
  lemma DeleteOverrideByName(db: Db, tenant: Id, application: Id, name: string)
    requires UniqueRoleNames(db.roles) && Isolated(db)
    ensures View(DeleteOverride(db, tenant, application, name)) == NameDelete(View(db), tenant, application, name)
  {
    if OfTenant(tenant, Some(application), name) in View(db).roles {
      DeletedGrants(db, tenant, application, name);
      DeletedMembers(db, tenant, application, name);
      DeletedAgents(db, tenant, application, name);
    } else {
      NothingToDelete(db, tenant, application, name);
    }
  }

  lemma DeletedMembers(db: Db, tenant: Id, application: Id, name: string)
    requires MemberLinksIsolated(db.memberships, db.roles, db.memberRoles)
    requires OfTenant(tenant, Some(application), name) in View(db).roles
    ensures View(DeleteOverride(db, tenant, application, name)).members
            == NameDelete(View(db), tenant, application, name).members
  {
    DefaultByName(db, application, name);
    forall m | m in db.memberships
      ensures MemberViewOf(DeleteOverride(db, tenant, application, name), m)
              == if RoleIds(db.roles, None, Some(application), name) != {} then MemberViewOf(db, m)
                 else Forget(MemberViewOf(db, m), tenant, application, name)
    {
      MemberSorted(db.memberships, db.roles, db.memberRoles, m, tenant, application);
      DeletedMember(db, tenant, application, name, m);
    }
  }

  lemma DeletedAgents(db: Db, tenant: Id, application: Id, name: string)
    requires AgentLinksIsolated(db.agents, db.roles, db.agentRoles)
    requires OfTenant(tenant, Some(application), name) in View(db).roles
    ensures View(DeleteOverride(db, tenant, application, name)).agents
            == NameDelete(View(db), tenant, application, name).agents
  {
    DefaultByName(db, application, name);
    forall a | a in db.agents
      ensures AgentViewOf(DeleteOverride(db, tenant, application, name), a)
              == if RoleIds(db.roles, None, Some(application), name) != {} then AgentViewOf(db, a)
                 else AgentForget(AgentViewOf(db, a), tenant, application, name)
    {
      AgentSorted(db.agents, db.roles, db.agentRoles, a, tenant, application);
      DeletedAgent(db, tenant, application, name, a);
    }
  }

  lemma NothingToDelete(db: Db, tenant: Id, application: Id, name: string)
    requires OfTenant(tenant, Some(application), name) !in View(db).roles
    ensures DeleteOverride(db, tenant, application, name) == db
  {
  }

  // ---- New memberships and agents ----

  lemma CreateMembershipValid(db: Db, tenant: Id, application: Option<Id>, user: Id, status: string, names: set<string>)
    requires Valid(db)
    ensures var result := CreateMembership(db, tenant, application, user, status, names); result.Ok? ==> Valid(result.value)
  {
    if CreateMembership(db, tenant, application, user, status, names).Ok? {
      WithMembershipValid(db, Membership(tenant, application, user, status), names);
    }
  }

  lemma WithMembershipValid(db: Db, row: Membership, names: set<string>)
    requires Valid(db) && row.tenant in db.tenants && row.user in db.users && OptionalKey(row.application, db.applications)
    requires row.application.Some? ==>
               forall m | m in db.memberships && db.memberships[m].tenant == row.tenant && db.memberships[m].user == row.user
                 :: db.memberships[m].application != row.application
    ensures var ids := AssignableIds(db.roles, Some(row.tenant), row.application, names);
            Valid(db.(next := db.next + 1, memberships := db.memberships[db.next := row],
                      memberRoles := Replace(db.memberRoles, db.next, ids)))
  {
    var ids := AssignableIds(db.roles, Some(row.tenant), row.application, names);
    var db' := db.(next := db.next + 1, memberships := db.memberships[db.next := row],
                   memberRoles := Replace(db.memberRoles, db.next, ids));
    NewMemberLinks(db, row, names);
    MembershipAdded(db.memberships, db.next, row);
    assert Fresh(db') && UniqueRows(db');
    assert ForeignKeys(db');
  }

  lemma MembershipAdded(memberships: map<Id, Membership>, next: Id, row: Membership)
    requires UniqueMemberships(memberships) && next !in memberships
    requires row.application.Some? ==>
               forall m | m in memberships && memberships[m].tenant == row.tenant && memberships[m].user == row.user
                 :: memberships[m].application != row.application
    ensures UniqueMemberships(memberships[next := row])
  {
  }

  lemma NewMemberLinks(db: Db, row: Membership, names: set<string>)
    requires db.next !in db.memberships && MemberLinksIsolated(db.memberships, db.roles, db.memberRoles)
    ensures MemberLinksIsolated(db.memberships[db.next := row], db.roles,
              Replace(db.memberRoles, db.next, AssignableIds(db.roles, Some(row.tenant), row.application, names)))
  {
  }

  /** A membership row without links holds no names. */
  lemma MembershipRowAdded(db: Db, row: Membership)
    requires db.next !in db.memberships && MemberLinksIsolated(db.memberships, db.roles, db.memberRoles)
    ensures View(db.(next := db.next + 1, memberships := db.memberships[db.next := row]))
            == View(db).(members := View(db).members[db.next :=
                 MemberView(row.tenant, row.application, row.user, row.status, {})])
  {
    var db' := db.(next := db.next + 1, memberships := db.memberships[db.next := row]);
    var added := MemberView(row.tenant, row.application, row.user, row.status, {});
    assert Linked(db.memberRoles, db.next) == {};
    assert MemberViewOf(db', db.next) == added;
    assert forall m :: m in db.memberships ==> MemberViewOf(db', m) == MemberViewOf(db, m);
    assert View(db').members == View(db).members[db.next := added];
    assert View(db').agents == View(db).agents;
  }

  /** A membership is refused exactly when a row it names is missing or the store with it would break the unique constraint. */
  lemma CreateMembershipRefusedIff(db: Db, tenant: Id, application: Option<Id>, user: Id, status: string, names: set<string>)
    requires UniqueMemberships(db.memberships) && db.next !in db.memberships
    ensures CreateMembership(db, tenant, application, user, status, names).Err? <==>
            || tenant !in db.tenants || user !in db.users || !OptionalKey(application, db.applications)
            || !UniqueMemberships(db.memberships[db.next := Membership(tenant, application, user, status)])
  {
    var row := Membership(tenant, application, user, status);
    var more := db.memberships[db.next := row];
    if m :| m in db.memberships && application.Some? && db.memberships[m].tenant == tenant
            && db.memberships[m].application == application && db.memberships[m].user == user {
      assert more[m] == db.memberships[m] && more[db.next] == row;
    }
  }

  lemma CreateMembershipByName(db: Db, tenant: Id, application: Option<Id>, user: Id, status: string, names: set<string>)
    requires db.next !in db.memberships && UniqueRoleNames(db.roles)
    requires MemberLinksIsolated(db.memberships, db.roles, db.memberRoles)
    ensures var result := CreateMembership(db, tenant, application, user, status, names);
            result.Ok? ==>
              var v := View(db);
              var held := Resolvable(v.roles, tenant, application, names);
              View(result.value) == v.(members := v.members[db.next := MemberView(tenant, application, user, status, held)])
  {
    if CreateMembership(db, tenant, application, user, status, names).Ok? {
      WithMembershipByName(db, Membership(tenant, application, user, status), names);
    }
  }

  lemma WithMembershipByName(db: Db, row: Membership, names: set<string>)
    requires db.next !in db.memberships && UniqueRoleNames(db.roles)
    requires MemberLinksIsolated(db.memberships, db.roles, db.memberRoles)
    ensures var ids := AssignableIds(db.roles, Some(row.tenant), row.application, names);
            var held := Resolvable(View(db).roles, row.tenant, row.application, names);
            View(db.(next := db.next + 1, memberships := db.memberships[db.next := row],
                     memberRoles := Replace(db.memberRoles, db.next, ids)))
            == View(db).(members := View(db).members[db.next := MemberView(row.tenant, row.application, row.user, row.status, held)])
  {
    MembershipRowAdded(db, row);
    SetMembershipRolesOfRow(db.(next := db.next + 1, memberships := db.memberships[db.next := row]), db.next, names);
  }

  lemma SetMembershipRolesOfRow(db: Db, m: Id, names: set<string>)
    requires UniqueRoleNames(db.roles) && m in db.memberships
    ensures var row := db.memberships[m];
            View(db.(memberRoles := Replace(db.memberRoles, m, AssignableIds(db.roles, Some(row.tenant), row.application, names))))
            == NameSetMembershipRoles(View(db), m, names)
  {
    ResolvedNames(db, db.memberships[m].tenant, db.memberships[m].application, names);
    MemberLinksReplaced(db, m, AssignableIds(db.roles, Some(db.memberships[m].tenant), db.memberships[m].application, names));
  }

  lemma CreateAgentValid(db: Db, tenant: Id, application: Id, name: string, displayName: Option<string>, status: string)
    requires Valid(db)
    ensures var result := CreateAgent(db, tenant, application, name, displayName, status);
            result.Ok? ==> Valid(result.value)
  {
    if CreateAgent(db, tenant, application, name, displayName, status).Ok? {
      WithAgentValid(db, Agent(tenant, application, name, displayName, status));
    }
  }

  lemma WithAgentValid(db: Db, row: Agent)
    requires Valid(db) && row.tenant in db.tenants && row.application in db.applications
    requires forall a | a in db.agents && db.agents[a].tenant == row.tenant && db.agents[a].application == row.application
               :: db.agents[a].name != row.name
    ensures Valid(db.(next := db.next + 1, agents := db.agents[db.next := row]))
  {
    var db' := db.(next := db.next + 1, agents := db.agents[db.next := row]);
    AgentAdded(db.agents, db.roles, db.agentRoles, db.next, row);
    assert Fresh(db') && UniqueRows(db');
    assert ForeignKeys(db');
  }

  lemma AgentAdded(agents: map<Id, Agent>, roles: map<Id, Role>, links: Links, next: Id, row: Agent)
    requires UniqueAgentNames(agents) && InternalRoles(roles, agents) && AgentLinksIsolated(agents, roles, links)
    requires next !in agents
    requires forall a | a in agents && agents[a].tenant == row.tenant && agents[a].application == row.application
               :: agents[a].name != row.name
    ensures var more := agents[next := row];
            UniqueAgentNames(more) && InternalRoles(roles, more) && AgentLinksIsolated(more, roles, links)
  {
  }

  /** An agent row without links holds no names. */
  lemma AgentRowAdded(db: Db, row: Agent)
    requires db.next !in db.agents && AgentLinksIsolated(db.agents, db.roles, db.agentRoles)
    ensures View(db.(next := db.next + 1, agents := db.agents[db.next := row]))
            == View(db).(agents := View(db).agents[db.next := AgentView(row.tenant, row.application, row.status, {}, false)])
  {
    var db' := db.(next := db.next + 1, agents := db.agents[db.next := row]);
    var added := AgentView(row.tenant, row.application, row.status, {}, false);
    assert Linked(db.agentRoles, db.next) == {};
    assert AgentViewOf(db', db.next) == added;
    assert forall a :: a in db.agents ==> AgentViewOf(db', a) == AgentViewOf(db, a);
    assert View(db').members == View(db).members;
    assert View(db').agents == View(db).agents[db.next := added];
  }

  /** Likewise an agent. */
  lemma CreateAgentRefusedIff(db: Db, tenant: Id, application: Id, name: string, displayName: Option<string>, status: string)
    requires UniqueAgentNames(db.agents) && db.next !in db.agents
    ensures CreateAgent(db, tenant, application, name, displayName, status).Err? <==>
            || tenant !in db.tenants || application !in db.applications
            || !UniqueAgentNames(db.agents[db.next := Agent(tenant, application, name, displayName, status)])
  {
    var row := Agent(tenant, application, name, displayName, status);
    var more := db.agents[db.next := row];
    if a :| a in db.agents && db.agents[a].tenant == tenant && db.agents[a].application == application && db.agents[a].name == name {
      assert more[a] == db.agents[a] && more[db.next] == row;
    }
  }

  /** And a role, but that the database does not compare names where the tenant or the application is absent. */
  lemma CreateRoleRefusedIff(db: Db, name: string, tenant: Option<Id>, application: Option<Id>)
    requires UniqueRoleNames(db.roles) && db.next !in db.roles
    ensures CreateRole(db, name, tenant, application).Err? <==>
            || !OptionalKey(tenant, db.tenants) || !OptionalKey(application, db.applications)
            || (tenant.Some? && application.Some? && !UniqueRoleNames(db.roles[db.next := Role(name, tenant, application, None)]))
  {
    NameTakenIff(db.roles, db.next, Role(name, tenant, application, None));
  }

  lemma NameTakenIff(roles: map<Id, Role>, next: Id, role: Role)
    requires UniqueRoleNames(roles) && next !in roles
    ensures NameTaken(roles, role.tenant, role.application, role.name) <==> !UniqueRoleNames(roles[next := role])
  {
    if NameTaken(roles, role.tenant, role.application, role.name) {
      SecondOfItsName(roles, next, role);
    }
  }

  /** An override is set exactly if all its permissions are active and it exists, or its row can be added. */
  lemma SetOverrideSucceedsIff(db: Db, tenant: Id, application: Id, name: string, names: set<string>)
    requires UniqueRoleNames(db.roles) && db.next !in db.roles
    ensures SetOverride(db, tenant, application, name, names).Ok? <==>
            && (forall n :: n in names ==> (Some(application), n) in View(db).active)
            && (|| OfTenant(tenant, Some(application), name) in View(db).roles
                || (&& tenant in db.tenants && application in db.applications
                    && UniqueRoleNames(db.roles[db.next := Role(name, Some(tenant), Some(application), None)])))
  {
    ActivePermissionNames(db.permissions, Some(application), names);
    NameTakenIff(db.roles, db.next, Role(name, Some(tenant), Some(application), None));
    if r :| r in db.roles && KeyOf(db.roles[r]) == OfTenant(tenant, Some(application), name) {
      assert NamedRole(db.roles[r], Some(tenant), Some(application), name);
    }
    if r :| r in db.roles && NamedRole(db.roles[r], Some(tenant), Some(application), name) {
      assert KeyOf(db.roles[r]) == OfTenant(tenant, Some(application), name);
    }
  }

  /** A created agent is one more row with what was given; everything else is as it was. */
  lemma AgentCreated(db: Db, tenant: Id, application: Id, name: string, displayName: Option<string>, status: string)
    requires Below(db.agents, db.next) && CreateAgent(db, tenant, application, name, displayName, status).Ok?
    ensures var db' := CreateAgent(db, tenant, application, name, displayName, status).value;
            && db' == db.(next := db'.next, agents := db'.agents)
            && exists a :: a !in db.agents && a in db'.agents
                           && db'.agents == db.agents[a := Agent(tenant, application, name, displayName, status)]
  {
    assert db.next in CreateAgent(db, tenant, application, name, displayName, status).value.agents;
  }

  /** What a refused assignment reports: exactly the names that have no role, or no active permission. */
  lemma RefusedNames(db: Db, a: Id, r: Id, names: set<string>)
    requires UniqueRoleNames(db.roles)
    ensures SetAgentRoles(db, a, names).Err? ==>
              && a in db.agents
              && SetAgentRoles(db, a, names).error
                 == UnknownNames(set n | n in names && !NameResolves(View(db).roles, db.agents[a].tenant, Some(db.agents[a].application), n))
    ensures SetRolePermissions(db, r, names).Err? ==>
              && r in db.roles
              && SetRolePermissions(db, r, names).error
                 == UnknownNames(set n | n in names && (db.roles[r].application, n) !in View(db).active)
  {
    if a in db.agents {
      ResolvedNames(db, db.agents[a].tenant, Some(db.agents[a].application), names);
    }
    if r in db.roles {
      ActivePermissionNames(db.permissions, db.roles[r].application, names);
    }
  }

  /** Of an override: the names without an active permission if there are any, else that its row cannot be added. */
  lemma RefusedOverride(db: Db, tenant: Id, application: Id, name: string, names: set<string>)
    requires SetOverride(db, tenant, application, name, names).Err?
    ensures var unknown := set n | n in names && (Some(application), n) !in View(db).active;
            SetOverride(db, tenant, application, name, names).error == if unknown != {} then UnknownNames(unknown) else Integrity
  {
    ActivePermissionNames(db.permissions, Some(application), names);
    var known := PermissionNames(db.permissions, ActiveIds(db.permissions, Some(application), names));
    var unknown := set n | n in names && (Some(application), n) !in View(db).active;
    assert names - known == unknown;
    if !(names <= known) {
      var n :| n in names && n !in known;
      assert n in unknown;
    }
  }

  lemma CreateAgentByName(db: Db, tenant: Id, application: Id, name: string, displayName: Option<string>, status: string)
    requires Valid(db)
    ensures var result := CreateAgent(db, tenant, application, name, displayName, status);
            result.Ok? ==>
              View(result.value)
              == View(db).(agents := View(db).agents[db.next := AgentView(tenant, application, status, {}, false)])
  {
    AgentRowAdded(db, Agent(tenant, application, name, displayName, status));
  }

  // ---- Equal names, equal permissions ----

  /** Valid stores with the same name view answer alike. */
  lemma SameViewSamePermissions(db: Db, other: Db, tenant: Id, application: Id, subject: Id)
    requires Valid(db) && Valid(other) && View(db) == View(other)
    ensures UserPermissions(db, tenant, application, subject) == UserPermissions(other, tenant, application, subject)
    ensures AgentPermissions(db, tenant, application, subject) == AgentPermissions(other, tenant, application, subject)
  {
    forall p ensures p in UserPermissions(db, tenant, application, subject)
                     <==> p in UserPermissions(other, tenant, application, subject) {
      UserResolutionIsByName(db, tenant, application, subject, p);
      UserResolutionIsByName(other, tenant, application, subject, p);
    }
    forall p ensures p in AgentPermissions(db, tenant, application, subject)
                     <==> p in AgentPermissions(other, tenant, application, subject) {
      AgentResolutionIsByName(db, tenant, application, subject, p);
      AgentResolutionIsByName(other, tenant, application, subject, p);
    }
  }
}
