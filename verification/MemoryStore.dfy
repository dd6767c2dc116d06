/**
The in-memory store resolves with loops, link by link and membership by membership,
where the SQL store asks one question about all links at once. Both give the same
answer, whatever order the rows come in.
*/
module MemoryStore {
  import opened Common
  import opened Rows
  import opened Resolution
  import opened Assignments

  // ---- Names to roles ----

  /** The role is a candidate for a wanted name. */
  predicate Candidate(role: Role, tenant: Option<Id>, application: Option<Id>, names: set<string>) {
    && role.name in names && role.application == application && role.agent.None?
    && (role.tenant.None? || role.tenant == tenant)
  }

  /** What the loop has found after looking at some of the rows: tenant roles win over application-wide ones. */
  ghost predicate FoundAmong(roles: map<Id, Role>, tenant: Option<Id>, application: Option<Id>, names: set<string>,
                             seen: set<Id>, found: map<string, Id>)
  {
    && (forall n :: n in found ==>
          found[n] in seen && found[n] in roles && roles[found[n]].name == n
          && Candidate(roles[found[n]], tenant, application, names))
    && (forall r :: r in seen && r in roles && Candidate(roles[r], tenant, application, names) ==>
          && roles[r].name in found
          && (roles[r].tenant.Some? ==> found[roles[r].name] == r)
          && (roles[r].tenant.None? ==> found[roles[r].name] == r || roles[found[roles[r].name]].tenant.Some?))
  }

  /** Tenant-first name resolution does not depend on the order of the rows. */
  method FindAssignable(roles: map<Id, Role>, tenant: Option<Id>, application: Option<Id>, names: set<string>)
    returns (found: map<string, Id>)
    requires UniqueRoleNames(roles)
    ensures found.Values == AssignableIds(roles, tenant, application, names)
    ensures forall n :: n in found ==> found[n] in roles && roles[found[n]].name == n
  {
    found := map[];
    var todo := roles.Keys;
    ghost var seen: set<Id> := {};
    while todo != {}
      invariant todo !! seen && todo + seen == roles.Keys
      invariant FoundAmong(roles, tenant, application, names, seen, found)
      decreases todo
    {
      var r :| r in todo;
      var role := roles[r];
      OneMoreSeen(roles, tenant, application, names, seen, found, r);
      if Candidate(role, tenant, application, names) && (role.tenant.Some? || role.name !in found) {
        found := found[role.name := r];
      }
      todo, seen := todo - {r}, seen + {r};
    }
    assert seen == roles.Keys;
    FoundIsAssignable(roles, tenant, application, names, found);
  }

  lemma OneMoreSeen(roles: map<Id, Role>, tenant: Option<Id>, application: Option<Id>, names: set<string>, seen: set<Id>,
                    found: map<string, Id>, r: Id)
    requires UniqueRoleNames(roles) && FoundAmong(roles, tenant, application, names, seen, found)
    requires r in roles && r !in seen
    ensures var taken := Candidate(roles[r], tenant, application, names) && (roles[r].tenant.Some? || roles[r].name !in found);
            FoundAmong(roles, tenant, application, names, seen + {r}, if taken then found[roles[r].name := r] else found)
  {
  }

  lemma FoundIsAssignable(roles: map<Id, Role>, tenant: Option<Id>, application: Option<Id>, names: set<string>,
                          found: map<string, Id>)
    requires UniqueRoleNames(roles)
    requires FoundAmong(roles, tenant, application, names, roles.Keys, found)
    ensures found.Values == AssignableIds(roles, tenant, application, names)
  {
  }

  // ---- Roles in effect ----

  method EffectiveRoles(roles: map<Id, Role>, tenant: Id, linked: set<Id>) returns (effective: set<Id>)
    requires UniqueRoleNames(roles)
    ensures effective == EffectiveRoleIds(roles, tenant, linked)
  {
    effective := {};
    var todo := linked;
    assert EffectiveRoleIds(roles, tenant, linked - todo) == {};
    while todo != {}
      invariant todo <= linked
      invariant effective == EffectiveRoleIds(roles, tenant, linked - todo)
      decreases todo
    {
      var r :| r in todo;
      EffectiveUnion(roles, tenant, linked - todo, {r});
      assert linked - todo + {r} == linked - (todo - {r});
      todo := todo - {r};
      if r in roles && VisibleIn(roles[r], tenant) {
        var e := Override(roles, tenant, r);
        effective := effective + {e};
      }
    }
    assert linked - todo == linked;
  }

  /** The role that takes effect for one visible link. */
  method Override(roles: map<Id, Role>, tenant: Id, r: Id) returns (e: Id)
    requires UniqueRoleNames(roles) && r in roles && VisibleIn(roles[r], tenant)
    ensures EffectiveRoleIds(roles, tenant, {r}) == {e}
  {
    e := r;
    if roles[r].tenant.None? && roles[r].agent.None? {
      if o :| o in roles && roles[o].tenant == Some(tenant) && roles[o].agent.None?
              && roles[o].application == roles[r].application && roles[o].name == roles[r].name {
        assert Overrides(roles, tenant, o, r);
        e := o;
      }
    }
    assert e in EffectiveRoleIds(roles, tenant, {r}) by {
      assert r in {r};
    }
  }

  lemma EffectiveUnion(roles: map<Id, Role>, tenant: Id, some: set<Id>, more: set<Id>)
    ensures EffectiveRoleIds(roles, tenant, some + more)
            == EffectiveRoleIds(roles, tenant, some) + EffectiveRoleIds(roles, tenant, more)
  {
  }

  // ---- Permissions ----

  method RolePermissions(db: Db, r: Id, application: Option<Id>) returns (names: set<string>)
    ensures names == GrantedBy(db, {r}, application)
  {
    names := {};
    var linked := Linked(db.rolePermissions, r);
    var todo := linked;
    while todo != {}
      invariant todo <= linked
      invariant names == set p | p in linked - todo && Grantable(db, p, application) :: db.permissions[p].name
      decreases todo
    {
      var p :| p in todo;
      if Grantable(db, p, application) {
        names := names + {db.permissions[p].name};
      }
      todo := todo - {p};
    }
    forall n | n in names ensures n in GrantedBy(db, {r}, application) {
      var p :| p in linked && Grantable(db, p, application) && db.permissions[p].name == n;
      assert (r, p) in db.rolePermissions && (r, p).0 in {r} && (r, p).1 == p;
    }
    forall n | n in GrantedBy(db, {r}, application) ensures n in names {
      var l :| l in db.rolePermissions && l.0 in {r} && Grantable(db, l.1, application) && db.permissions[l.1].name == n;
      assert (r, l.1) == l && l.1 in linked;
    }
  }

  method RolesPermissions(db: Db, ids: set<Id>, application: Option<Id>) returns (names: set<string>)
    ensures names == GrantedBy(db, ids, application)
  {
    names := {};
    var todo := ids;
    while todo != {}
      invariant todo <= ids
      invariant names == GrantedBy(db, ids - todo, application)
      decreases todo
    {
      var r :| r in todo;
      var more := RolePermissions(db, r, application);
      GrantedUnion(db, ids - todo, {r}, application);
      assert ids - todo + {r} == ids - (todo - {r});
      names, todo := names + more, todo - {r};
    }
    assert ids - todo == ids;
  }

  lemma GrantedUnion(db: Db, some: set<Id>, more: set<Id>, application: Option<Id>)
    ensures GrantedBy(db, some + more, application) == GrantedBy(db, some, application) + GrantedBy(db, more, application)
  {
  }

  /** Links of some memberships. */
  function LinkedOf(links: Links, owners: set<Id>): set<Id> {
    set l | l in links && l.0 in owners :: l.1
  }

  lemma LinkedOfMore(links: Links, owners: set<Id>, owner: Id)
    ensures LinkedOf(links, owners + {owner}) == LinkedOf(links, owners) + Linked(links, owner)
  {
  }

  /** Membership by membership, the loop collects what the single query returns. */
  method ResolveUser(db: Db, tenant: Id, application: Id, user: Id) returns (names: set<string>)
    requires UniqueRoleNames(db.roles)
    ensures names == UserPermissions(db, tenant, application, user)
  {
    names := {};
    var eligible := set m | m in db.memberships && Eligible(db.memberships[m], tenant, application, user);
    var todo := eligible;
    ghost var done: set<Id> := {};
    while todo != {}
      invariant todo !! done && todo + done == eligible
      invariant names == Through(db, tenant, application, done)
      decreases todo
    {
      var m :| m in todo;
      var effective := EffectiveRoles(db.roles, tenant, Linked(db.memberRoles, m));
      var more := RolesPermissions(db, effective, Some(application));
      ThroughOneMore(db, tenant, application, done, m);
      names, todo, done := names + more, todo - {m}, done + {m};
    }
    assert done == eligible;
    assert LinkedOf(db.memberRoles, eligible) == UserRoleIds(db, tenant, application, user);
  }

  /** What some memberships grant together. */
  function Through(db: Db, tenant: Id, application: Id, memberships: set<Id>): set<string> {
    GrantedBy(db, EffectiveRoleIds(db.roles, tenant, LinkedOf(db.memberRoles, memberships)), Some(application))
  }

  lemma ThroughOneMore(db: Db, tenant: Id, application: Id, memberships: set<Id>, m: Id)
    ensures Through(db, tenant, application, memberships + {m})
            == Through(db, tenant, application, memberships)
               + GrantedBy(db, EffectiveRoleIds(db.roles, tenant, Linked(db.memberRoles, m)), Some(application))
  {
    var linked := LinkedOf(db.memberRoles, memberships);
    LinkedOfMore(db.memberRoles, memberships, m);
    EffectiveUnion(db.roles, tenant, linked, Linked(db.memberRoles, m));
    GrantedUnion(db, EffectiveRoleIds(db.roles, tenant, linked),
                 EffectiveRoleIds(db.roles, tenant, Linked(db.memberRoles, m)), Some(application));
  }

  method ResolveAgent(db: Db, tenant: Id, application: Id, agent: Id) returns (names: set<string>)
    requires UniqueRoleNames(db.roles)
    ensures names == AgentPermissions(db, tenant, application, agent)
  {
    if agent !in db.agents || db.agents[agent].tenant != tenant || db.agents[agent].application != application {
      return {};
    }
    var effective := EffectiveRoles(db.roles, tenant, Linked(db.agentRoles, agent));
    names := RolesPermissions(db, effective, None);
    assert names == AgentPermissions(db, tenant, application, agent);
  }
}
