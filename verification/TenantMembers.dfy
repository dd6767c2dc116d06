/**
The member half of applying a tenant's desired state: users and identities are
created where missing, listed memberships are created or updated, the others of the
same tenant and application are disabled.

MembersSettled says what the outcome must be without saying how it is reached; the
methods reach it in the order of the store: rows first, then links, then the rest.
*/
module TenantMembers {
  import opened Common
  import opened Rows
  import opened Resolution
  import opened Assignments
  import opened Registry

  datatype DesiredMember = DesiredMember(
    userRef: UserRef,
    roles: seq<string>,
    displayName: Option<string>,
    email: Option<string>,
    status: string)

  datatype Counts = Counts(created: nat, updated: nat, disabled: nat)

  /** The membership belongs to this tenant and application. */
  predicate InSlice(row: Membership, tenant: Id, application: Id) {
    row.tenant == tenant && row.application == Some(application)
  }

  ghost predicate DistinctRefs(members: seq<DesiredMember>) {
    forall i, j :: 0 <= i < j < |members| ==> members[i].userRef != members[j].userRef
  }

  /** The role ids a member's role names resolve to. */
  function RoleIdsOf(roles: map<Id, Role>, tenant: Option<Id>, application: Id, member: DesiredMember): set<Id> {
    AssignableIds(roles, tenant, Some(application), set n | n in member.roles)
  }

  // ---- Users and identities ----

  function Refs(members: seq<DesiredMember>): set<UserRef> {
    set i | 0 <= i < |members| :: members[i].userRef
  }

  lemma RefsOfMore(members: seq<DesiredMember>, member: DesiredMember)
    ensures Refs(members + [member]) == Refs(members) + {member.userRef}
  {
    var more := members + [member];
    assert forall i :: 0 <= i < |members| ==> more[i] == members[i];
    assert more[|members|] == member;
    forall x | x in Refs(members) ensures x in Refs(more) {
      var i :| 0 <= i < |members| && members[i].userRef == x;
      assert more[i].userRef == x;
    }
  }

  /** Every listed reference leads to a user: the one it had, or a new one with the given profile. */
  ghost predicate UsersEnsured(db: Db, members: seq<DesiredMember>, users: map<Id, User>, identities: map<UserRef, Id>,
                               owners: seq<Id>)
  {
    && |owners| == |members|
    && identities.Keys == db.identities.Keys + Refs(members)
    && (forall x :: x in db.identities ==> identities[x] == db.identities[x])
    && (forall i :: 0 <= i < |members| ==> members[i].userRef in identities && identities[members[i].userRef] == owners[i])
    && (forall u :: u in db.users ==> u in users && users[u] == db.users[u])
    && (forall u :: u in users ==> u in db.users || u in owners)
    && (forall i :: 0 <= i < |members| && members[i].userRef !in db.identities ==>
          && owners[i] in users && owners[i] !in db.users
          && users[owners[i]] == User(members[i].displayName, members[i].email, ACTIVE))
    && OneIdentityPerUser(identities)
    && IdentityKeys(identities, users)
  }

  method EnsureUser(ghost db: Db, next: Id, users: map<Id, User>, identities: map<UserRef, Id>,
                    ghost members: seq<DesiredMember>, member: DesiredMember, ghost owners: seq<Id>)
    returns (next': Id, users': map<Id, User>, identities': map<UserRef, Id>, owner: Id)
    requires UsersEnsured(db, members, users, identities, owners)
    requires Below(users, next)
    requires member.userRef !in Refs(members)
    ensures UsersEnsured(db, members + [member], users', identities', owners + [owner])
    ensures Below(users', next') && next <= next' && owner < next'
    ensures owner !in owners
    ensures member.userRef in db.identities ==> next' == next
  {
    if member.userRef in identities {
      next', users', identities', owner := next, users, identities, identities[member.userRef];
      KnownUser(db, members, users, identities, owners, member);
    } else {
      owner := next;
      users' := users[next := User(member.displayName, member.email, ACTIVE)];
      identities' := identities[member.userRef := next];
      next' := next + 1;
      NewUser(db, next, members, users, identities, owners, member);
    }
  }

  lemma KnownUser(db: Db, members: seq<DesiredMember>, users: map<Id, User>, identities: map<UserRef, Id>, owners: seq<Id>,
                  member: DesiredMember)
    requires UsersEnsured(db, members, users, identities, owners)
    requires member.userRef in identities && member.userRef !in Refs(members)
    ensures identities[member.userRef] !in owners
    ensures UsersEnsured(db, members + [member], users, identities, owners + [identities[member.userRef]])
  {
    RefsOfMore(members, member);
    assert member.userRef in db.identities;
    forall i | 0 <= i < |members| ensures identities[member.userRef] != owners[i] {
      assert members[i].userRef in Refs(members);
    }
  }

  lemma NewUser(db: Db, next: Id, members: seq<DesiredMember>, users: map<Id, User>, identities: map<UserRef, Id>,
                owners: seq<Id>, member: DesiredMember)
    requires UsersEnsured(db, members, users, identities, owners) && Below(users, next)
    requires member.userRef !in identities
    ensures next !in owners
    ensures UsersEnsured(db, members + [member], users[next := User(member.displayName, member.email, ACTIVE)],
                         identities[member.userRef := next], owners + [next])
  {
    OwnersAreUsers(db, members, users, identities, owners);
    assert next !in users;
    IdentityAdded(users, identities, next, member.userRef, User(member.displayName, member.email, ACTIVE));
    UserAdded(db, next, members, users, identities, owners, member);
  }

  lemma UserAdded(db: Db, next: Id, members: seq<DesiredMember>, users: map<Id, User>, identities: map<UserRef, Id>,
                  owners: seq<Id>, member: DesiredMember)
    requires UsersEnsured(db, members, users, identities, owners) && next !in users && member.userRef !in identities
    requires forall i :: 0 <= i < |owners| ==> owners[i] in users
    requires var users', identities' := users[next := User(member.displayName, member.email, ACTIVE)], identities[member.userRef := next];
             OneIdentityPerUser(identities') && IdentityKeys(identities', users')
    ensures UsersEnsured(db, members + [member], users[next := User(member.displayName, member.email, ACTIVE)],
                         identities[member.userRef := next], owners + [next])
  {
    RefsOfMore(members, member);
  }

  // ---- Membership rows ----

  /** What a membership is to become. */
  datatype Want = Want(owner: Id, status: string, roles: set<Id>)

  type Plan = map<Id, Want>

  /** The rows after every planned membership exists with its wanted status: an existing one updated, or a new one. */
  ghost predicate RowsEnsured(db: Db, tenant: Id, application: Id, memberships: map<Id, Membership>, plan: Plan) {
    && (forall m :: m in plan ==>
          m in memberships && memberships[m] == Membership(tenant, Some(application), plan[m].owner, plan[m].status))
    && (forall m :: m in db.memberships ==> m in memberships && (m in plan || memberships[m] == db.memberships[m]))
    && (forall m :: m in memberships ==> m in db.memberships || m in plan)
    && (forall m :: m in plan && m in db.memberships ==>
          InSlice(db.memberships[m], tenant, application) && db.memberships[m].user == plan[m].owner)
  }

  /** The plan has one membership per owner, and it is the one the owner had. */
  ghost predicate OnePerOwner(db: Db, tenant: Id, application: Id, plan: Plan) {
    && (forall p, q :: p in plan && q in plan && plan[p].owner == plan[q].owner ==> p == q)
    && (forall p, m | && p in plan && m in db.memberships && InSlice(db.memberships[m], tenant, application)
                      && db.memberships[m].user == plan[p].owner
          :: p == m)
  }

  /** The planned memberships that existed before and whose status or role links are not yet as wanted. */
  function ChangedRows(db: Db, plan: Plan): set<Id> {
    set m | m in plan && m in db.memberships
            && (db.memberships[m].status != plan[m].status || Linked(db.memberRoles, m) != plan[m].roles)
  }

  lemma ChangedRowsOfMore(db: Db, plan: Plan, id: Id, want: Want)
    requires id !in plan
    ensures |ChangedRows(db, plan[id := want])|
            == |ChangedRows(db, plan)|
               + if id in db.memberships && (db.memberships[id].status != want.status || Linked(db.memberRoles, id) != want.roles)
                 then 1 else 0
  {
    var more := plan[id := want];
    var before, after := ChangedRows(db, plan), ChangedRows(db, more);
    assert id !in before;
    if id in after {
      assert after == before + {id};
    } else {
      assert after == before;
    }
  }

  lemma AddedKeys(base: set<Id>, before: set<Id>, after: set<Id>, id: Id)
    requires after == if id in base then before else before + {id}
    requires id !in base ==> id !in before
    ensures |after - base| == |before - base| + if id in base then 0 else 1
  {
    if id !in base {
      assert after - base == (before - base) + {id};
    }
  }

  /** Find the membership of a user in the slice, if there is one. */
  method FindMembership(memberships: map<Id, Membership>, tenant: Id, application: Id, user: Id) returns (found: Option<Id>)
    ensures found.Some? ==>
              && found.value in memberships && InSlice(memberships[found.value], tenant, application)
              && memberships[found.value].user == user
    ensures found.None? ==>
              forall m :: m in memberships && InSlice(memberships[m], tenant, application) ==> memberships[m].user != user
  {
    if m :| m in memberships && InSlice(memberships[m], tenant, application) && memberships[m].user == user {
      found := Some(m);
    } else {
      found := None;
    }
  }

  /** Update the owner's membership, or create it; tell which. */
  method EnsureMembership(db: Db, tenant: Id, application: Id, next: Id, memberships: map<Id, Membership>, ghost plan: Plan,
                          want: Want)
    returns (next': Id, memberships': map<Id, Membership>, id: Id)
    requires UniqueMemberships(db.memberships)
    requires RowsEnsured(db, tenant, application, memberships, plan) && OnePerOwner(db, tenant, application, plan)
    requires Below(memberships, next)
    requires forall p :: p in plan ==> plan[p].owner != want.owner
    ensures id !in plan
    ensures RowsEnsured(db, tenant, application, memberships', plan[id := want])
    ensures OnePerOwner(db, tenant, application, plan[id := want])
    ensures Below(memberships', next') && next <= next'
    ensures memberships'.Keys == if id in db.memberships then memberships.Keys else memberships.Keys + {id}
    ensures id !in db.memberships ==> id !in memberships
  {
    var found := FindMembership(db.memberships, tenant, application, want.owner);
    match found {
      case Some(m) =>
        id, next' := m, next;
      case None =>
        id, next' := next, next + 1;
    }
    memberships' := memberships[id := Membership(tenant, Some(application), want.owner, want.status)];
    assert id !in plan;
    OneMoreRow(db, tenant, application, memberships, plan, id, want);
    OneMoreOwner(db, tenant, application, plan, id, want);
  }

  /** The row with this id is the owner's membership in the slice, or there was none. */
  ghost predicate RowOf(db: Db, tenant: Id, application: Id, id: Id, owner: Id) {
    if id in db.memberships then InSlice(db.memberships[id], tenant, application) && db.memberships[id].user == owner
    else forall m | m in db.memberships && InSlice(db.memberships[m], tenant, application) :: db.memberships[m].user != owner
  }

  lemma OneMoreRow(db: Db, tenant: Id, application: Id, memberships: map<Id, Membership>, plan: Plan, id: Id, want: Want)
    requires RowsEnsured(db, tenant, application, memberships, plan)
    requires id !in plan && RowOf(db, tenant, application, id, want.owner)
    ensures RowsEnsured(db, tenant, application,
              memberships[id := Membership(tenant, Some(application), want.owner, want.status)], plan[id := want])
  {
  }

  lemma OneMoreOwner(db: Db, tenant: Id, application: Id, plan: Plan, id: Id, want: Want)
    requires UniqueMemberships(db.memberships) && OnePerOwner(db, tenant, application, plan)
    requires forall p :: p in plan ==> plan[p].owner != want.owner
    requires RowOf(db, tenant, application, id, want.owner)
    ensures OnePerOwner(db, tenant, application, plan[id := want])
  {
  }

  // ---- First pass ----

  /** The plan says for each listed member what it asks for, and nothing else. */
  ghost predicate Planned(roles: map<Id, Role>, tenant: Option<Id>, application: Id, members: seq<DesiredMember>,
                          owners: seq<Id>, ids: seq<Id>, plan: Plan)
  {
    && |owners| == |ids| == |members|
    && (forall i :: 0 <= i < |members| ==>
          ids[i] in plan && plan[ids[i]] == Want(owners[i], members[i].status, RoleIdsOf(roles, tenant, application, members[i])))
    && (forall m :: m in plan ==> m in ids)
  }

  lemma PlannedMore(roles: map<Id, Role>, tenant: Option<Id>, application: Id, members: seq<DesiredMember>,
                    owners: seq<Id>, ids: seq<Id>, plan: Plan, member: DesiredMember, owner: Id, id: Id)
    requires Planned(roles, tenant, application, members, owners, ids, plan) && id !in plan
    ensures var want := Want(owner, member.status, RoleIdsOf(roles, tenant, application, member));
            Planned(roles, tenant, application, members + [member], owners + [owner], ids + [id], plan[id := want])
  {
  }

  /** The rows as the first pass leaves them, with the user and the membership of each listed member. */
  datatype RowState = RowState(
    next: Id,
    users: map<Id, User>,
    identities: map<UserRef, Id>,
    memberships: map<Id, Membership>)

  ghost predicate RowPass(db: Db, tenant: Id, application: Id, members: seq<DesiredMember>, owners: seq<Id>, plan: Plan,
                          rows: RowState)
  {
    && UsersEnsured(db, members, rows.users, rows.identities, owners)
    && RowsEnsured(db, tenant, application, rows.memberships, plan) && OnePerOwner(db, tenant, application, plan)
    && db.next <= rows.next && Below(rows.users, rows.next) && Below(rows.memberships, rows.next)
    && forall p :: p in plan ==> plan[p].owner in owners
  }

  ghost predicate Counted(db: Db, memberships: map<Id, Membership>, plan: Plan, created: nat, updated: nat) {
    && created == |memberships.Keys - db.memberships.Keys|
    && updated == |ChangedRows(db, plan)|
  }

  lemma NoRowsYet(db: Db, tenant: Id, application: Id)
    requires Below(db.users, db.next) && Below(db.memberships, db.next)
    requires OneIdentityPerUser(db.identities) && IdentityKeys(db.identities, db.users)
    ensures RowPass(db, tenant, application, [], [], map[], RowState(db.next, db.users, db.identities, db.memberships))
    ensures Counted(db, db.memberships, map[], 0, 0)
  {
  }

  /** The rows of one listed member. */
  method UpsertRows(db: Db, tenant: Id, application: Id, ghost members: seq<DesiredMember>, member: DesiredMember,
                    ghost owners: seq<Id>, roles: set<Id>, ghost plan: Plan, rows: RowState)
    returns (rows': RowState, owner: Id, id: Id)
    requires UniqueMemberships(db.memberships)
    requires RowPass(db, tenant, application, members, owners, plan, rows)
    requires member.userRef !in Refs(members)
    ensures id !in plan
    ensures RowPass(db, tenant, application, members + [member], owners + [owner],
                    plan[id := Want(owner, member.status, roles)], rows')
    ensures rows'.memberships.Keys == if id in db.memberships then rows.memberships.Keys else rows.memberships.Keys + {id}
    ensures id !in db.memberships ==> id !in rows.memberships
  {
    var next, users, identities, owner' := EnsureUser(db, rows.next, rows.users, rows.identities, members, member, owners);
    owner := owner';
    var want := Want(owner, member.status, roles);
    var next', memberships, id' := EnsureMembership(db, tenant, application, next, rows.memberships, plan, want);
    id := id';
    rows' := RowState(next', users, identities, memberships);
    OwnersOfMore(plan, owners, id, want);
  }

  lemma OwnersOfMore(plan: Plan, owners: seq<Id>, id: Id, want: Want)
    requires forall p :: p in plan ==> plan[p].owner in owners
    ensures var more := plan[id := want]; forall p :: p in more ==> more[p].owner in owners + [want.owner]
  {
  }

  /** Count a membership as created, updated or neither. */
  method CountMember(db: Db, ghost before: map<Id, Membership>, ghost after: map<Id, Membership>, ghost plan: Plan, id: Id,
                     want: Want, created: nat, updated: nat)
    returns (created': nat, updated': nat)
    requires Counted(db, before, plan, created, updated) && id !in plan
    requires after.Keys == if id in db.memberships then before.Keys else before.Keys + {id}
    requires id !in db.memberships ==> id !in before
    ensures Counted(db, after, plan[id := want], created', updated')
  {
    ChangedRowsOfMore(db, plan, id, want);
    AddedKeys(db.memberships.Keys, before.Keys, after.Keys, id);
    created', updated' := created, updated;
    if id !in db.memberships {
      created' := created + 1;
    } else if Linked(db.memberRoles, id) != want.roles || db.memberships[id].status != want.status {
      updated' := updated + 1;
    }
  }

  /** Everything the first pass has established for the members it has seen. */
  ghost predicate Passed(db: Db, tenant: Id, application: Id, roleTenant: Option<Id>, members: seq<DesiredMember>,
                         rows: RowState, owners: seq<Id>, ids: seq<Id>, plan: Plan, created: nat, updated: nat)
  {
    && RowPass(db, tenant, application, members, owners, plan, rows)
    && Counted(db, rows.memberships, plan, created, updated)
    && Planned(db.roles, roleTenant, application, members, owners, ids, plan)
  }

  /** One iteration of the first pass. */
  method UpsertMember(db: Db, tenant: Id, application: Id, roleTenant: Option<Id>, ghost members: seq<DesiredMember>,
                      member: DesiredMember, rows: RowState, owners: seq<Id>, ids: seq<Id>, plan: Plan, created: nat,
                      updated: nat)
    returns (rows': RowState, owners': seq<Id>, ids': seq<Id>, plan': Plan, created': nat, updated': nat)
    requires UniqueMemberships(db.memberships)
    requires Passed(db, tenant, application, roleTenant, members, rows, owners, ids, plan, created, updated)
    requires member.userRef !in Refs(members)
    ensures Passed(db, tenant, application, roleTenant, members + [member], rows', owners', ids', plan', created', updated')
  {
    var roles := RoleIdsOf(db.roles, roleTenant, application, member);
    var rows1, owner, id := UpsertRows(db, tenant, application, members, member, owners, roles, plan, rows);
    var want := Want(owner, member.status, roles);
    created', updated' := CountMember(db, rows.memberships, rows1.memberships, plan, id, want, created, updated);
    PlannedMore(db.roles, roleTenant, application, members, owners, ids, plan, member, owner, id);
    rows', owners', ids', plan' := rows1, owners + [owner], ids + [id], plan[id := want];
  }

  lemma NextRef(members: seq<DesiredMember>, i: nat)
    requires DistinctRefs(members) && i < |members|
    ensures members[i].userRef !in Refs(members[..i])
    ensures members[..i + 1] == members[..i] + [members[i]]
  {
  }

  /** First pass: users, identities and membership rows of all listed members. */
  method UpsertMembers(db: Db, tenant: Id, application: Id, roleTenant: Option<Id>, members: seq<DesiredMember>)
    returns (rows: RowState, owners: seq<Id>, ids: seq<Id>, plan: Plan, created: nat, updated: nat)
    requires Below(db.users, db.next) && Below(db.memberships, db.next)
    requires OneIdentityPerUser(db.identities) && IdentityKeys(db.identities, db.users)
    requires UniqueMemberships(db.memberships)
    requires DistinctRefs(members)
    ensures Passed(db, tenant, application, roleTenant, members, rows, owners, ids, plan, created, updated)
  {
    rows := RowState(db.next, db.users, db.identities, db.memberships);
    owners, ids, plan, created, updated := [], [], map[], 0, 0;
    NoRowsYet(db, tenant, application);
    ghost var done: seq<DesiredMember> := [];
    for i := 0 to |members|
      invariant done == members[..i]
      invariant Passed(db, tenant, application, roleTenant, done, rows, owners, ids, plan, created, updated)
    {
      NextRef(members, i);
      rows, owners, ids, plan, created, updated :=
        UpsertMember(db, tenant, application, roleTenant, done, members[i], rows, owners, ids, plan, created, updated);
      done := done + [members[i]];
    }
    assert done == members;
  }

  // ---- Links ----

  /** Make one owner's links exactly ids when they are known to be current; tells whether anything changed. */
  method ReplaceKnown(links: Links, owner: Id, ids: set<Id>, current: set<Id>) returns (links': Links, changed: bool)
    requires current == Linked(links, owner)
    ensures links' == Replace(links, owner, ids)
    ensures changed <==> Linked(links, owner) != ids
  {
    changed := current != ids;
    var gone := set i | i in current - ids :: (owner, i);
    var added := set i | i in ids - current :: (owner, i);
    links' := links - gone + added;
    forall l ensures l in links' <==> l in Replace(links, owner, ids) {
      assert (l.0, l.1) == l;
    }
  }

  /** Every planned membership is linked to exactly the wanted roles, all other links are as before. */
  ghost predicate LinksSettled(before: Links, after: Links, plan: Plan) {
    forall m, r :: (m, r) in after <==> if m in plan then r in plan[m].roles else (m, r) in before
  }

  /** Second pass: the link rows. */
  method LinkMembers(links: Links, plan: Plan) returns (links': Links)
    ensures LinksSettled(links, links', plan)
  {
    links' := links;
    var todo := plan.Keys;
    while todo != {}
      invariant todo <= plan.Keys
      invariant forall m, r :: (m, r) in links' <==>
                  if m in plan && m !in todo then r in plan[m].roles else (m, r) in links
      decreases todo
    {
      var m :| m in todo;
      var current := Linked(links, m);
      assert current == Linked(links', m);
      var changed;
      links', changed := ReplaceKnown(links', m, plan[m].roles, current);
      todo := todo - {m};
    }
  }

  // ---- Everyone else in the slice ----

  ghost function Disabled(db: Db, tenant: Id, application: Id, owners: seq<Id>): set<Id> {
    set m | m in db.memberships && InSlice(db.memberships[m], tenant, application)
            && db.memberships[m].user !in owners && db.memberships[m].status != DISABLED
  }

  /** Third pass: disable the memberships of the slice whose user is not listed. */
  method DisableOthers(db: Db, tenant: Id, application: Id, owners: seq<Id>, memberships: map<Id, Membership>)
    returns (memberships': map<Id, Membership>, disabled: nat)
    requires db.memberships.Keys <= memberships.Keys
    ensures ChangedAt(memberships, memberships', Disabled(db, tenant, application, owners), DisableMember)
    ensures disabled == |Disabled(db, tenant, application, owners)|
  {
    var slice := set m | m in db.memberships && InSlice(db.memberships[m], tenant, application);
    var unlisted := (m: Id) => m in db.memberships && db.memberships[m].user !in owners && db.memberships[m].status != DISABLED;
    memberships', disabled := ChangeWhere<Id, Membership>(memberships, slice, unlisted, DisableMember);
    assert Passing<Id>(slice, unlisted) == Disabled(db, tenant, application, owners);
  }

  function DisableMember(row: Membership): Membership {
    row.(status := DISABLED)
  }

  // ---- The outcome ----

  /** Planned memberships as wanted, the others of the slice disabled, every other row as it was. */
  ghost predicate RowsSettled(db: Db, tenant: Id, application: Id, memberships: map<Id, Membership>, plan: Plan) {
    && (forall m :: m in plan ==>
          m in memberships && memberships[m] == Membership(tenant, Some(application), plan[m].owner, plan[m].status))
    && (forall m :: m in db.memberships && m !in plan ==>
          && m in memberships
          && memberships[m] == if InSlice(db.memberships[m], tenant, application)
                               then db.memberships[m].(status := DISABLED) else db.memberships[m])
    && (forall m :: m in memberships ==> m in db.memberships || m in plan)
    && (forall m :: m in plan && m in db.memberships ==>
          InSlice(db.memberships[m], tenant, application) && db.memberships[m].user == plan[m].owner)
  }

  /** What a successful run does to the members of one tenant and application. */
  ghost predicate MembersSettled(db: Db, db': Db, tenant: Id, application: Id, roleTenant: Option<Id>,
                                 members: seq<DesiredMember>, owners: seq<Id>, ids: seq<Id>, plan: Plan)
  {
    && db' == db.(next := db'.next, users := db'.users, identities := db'.identities,
                  memberships := db'.memberships, memberRoles := db'.memberRoles)
    && db.next <= db'.next && Below(db'.users, db'.next) && Below(db'.memberships, db'.next)
    && UsersEnsured(db, members, db'.users, db'.identities, owners)
    && Planned(db.roles, roleTenant, application, members, owners, ids, plan)
    && OnePerOwner(db, tenant, application, plan)
    && RowsSettled(db, tenant, application, db'.memberships, plan)
    && LinksSettled(db.memberRoles, db'.memberRoles, plan)
  }

  /** The membership rows that were there before and differ afterwards, in the row or in its role links. */
  function TouchedMemberships(db: Db, db': Db): set<Id> {
    set m | m in db.memberships && m in db'.memberships
            && (db.memberships[m] != db'.memberships[m] || Linked(db.memberRoles, m) != Linked(db'.memberRoles, m))
  }

  /** The counters are the numbers of rows created, changed and disabled. */
  ghost predicate MembersCounted(db: Db, db': Db, plan: Plan, counts: Counts) {
    && counts.created == |db'.memberships.Keys - db.memberships.Keys|
    && counts.updated == |TouchedMemberships(db, db') * plan.Keys|
    && counts.disabled == |TouchedMemberships(db, db') - plan.Keys|
  }

  lemma UnlistedOwner(db: Db, tenant: Id, application: Id, roleTenant: Option<Id>, members: seq<DesiredMember>,
                      owners: seq<Id>, ids: seq<Id>, plan: Plan, m: Id)
    requires Planned(db.roles, roleTenant, application, members, owners, ids, plan)
    requires OnePerOwner(db, tenant, application, plan)
    requires forall p :: p in plan ==> plan[p].owner in owners
    requires m in db.memberships && InSlice(db.memberships[m], tenant, application)
    requires m in plan ==> db.memberships[m].user == plan[m].owner
    ensures m in plan <==> db.memberships[m].user in owners
  {
  }

  lemma TouchedArePlannedOrDisabled(db: Db, db': Db, tenant: Id, application: Id, plan: Plan)
    requires RowsSettled(db, tenant, application, db'.memberships, plan)
    requires LinksSettled(db.memberRoles, db'.memberRoles, plan)
    ensures TouchedMemberships(db, db') * plan.Keys == ChangedRows(db, plan)
    ensures TouchedMemberships(db, db') - plan.Keys
            == set m | m in db.memberships && m !in plan && InSlice(db.memberships[m], tenant, application)
                       && db.memberships[m].status != DISABLED
  {
  }

  /** Make the members of one tenant and application match the desired list. */
  method ApplyMembers(db: Db, tenant: Id, application: Id, roleTenant: Option<Id>, members: seq<DesiredMember>)
    returns (db': Db, counts: Counts, owners: seq<Id>, ids: seq<Id>, plan: Plan)
    requires Below(db.users, db.next) && Below(db.memberships, db.next)
    requires OneIdentityPerUser(db.identities) && IdentityKeys(db.identities, db.users)
    requires UniqueMemberships(db.memberships)
    requires DistinctRefs(members)
    ensures MembersSettled(db, db', tenant, application, roleTenant, members, owners, ids, plan)
    ensures MembersCounted(db, db', plan, counts)
  {
    var rows, created, updated;
    rows, owners, ids, plan, created, updated := UpsertMembers(db, tenant, application, roleTenant, members);
    var links := LinkMembers(db.memberRoles, plan);
    forall m | m in db.memberships && InSlice(db.memberships[m], tenant, application)
      ensures m in plan <==> db.memberships[m].user in owners
    {
      UnlistedOwner(db, tenant, application, roleTenant, members, owners, ids, plan, m);
    }
    var memberships, disabled := DisableOthers(db, tenant, application, owners, rows.memberships);
    db' := db.(next := rows.next, users := rows.users, identities := rows.identities,
               memberships := memberships, memberRoles := links);
    counts := Counts(created, updated, disabled);
    RowsAreSettled(db, tenant, application, owners, rows.memberships, memberships, plan);
    TouchedArePlannedOrDisabled(db, db', tenant, application, plan);
  }

  lemma RowsAreSettled(db: Db, tenant: Id, application: Id, owners: seq<Id>, before: map<Id, Membership>,
                       after: map<Id, Membership>, plan: Plan)
    requires RowsEnsured(db, tenant, application, before, plan)
    requires forall m :: m in db.memberships && InSlice(db.memberships[m], tenant, application) ==>
               (m in plan <==> db.memberships[m].user in owners)
    requires ChangedAt(before, after, Disabled(db, tenant, application, owners), DisableMember)
    ensures RowsSettled(db, tenant, application, after, plan)
    ensures Disabled(db, tenant, application, owners)
            == set m | m in db.memberships && m !in plan && InSlice(db.memberships[m], tenant, application)
                       && db.memberships[m].status != DISABLED
  {
  }

  // ---- What the outcome means ----

  lemma SettledLinksIsolated(db: Db, db': Db, tenant: Id, application: Id, roleTenant: Option<Id>,
                             members: seq<DesiredMember>, owners: seq<Id>, ids: seq<Id>, plan: Plan)
    requires MemberLinksIsolated(db.memberships, db.roles, db.memberRoles)
    requires Planned(db.roles, roleTenant, application, members, owners, ids, plan)
    requires RowsSettled(db, tenant, application, db'.memberships, plan)
    requires LinksSettled(db.memberRoles, db'.memberRoles, plan)
    requires roleTenant.Some? ==> roleTenant.value == tenant
    ensures MemberLinksIsolated(db'.memberships, db.roles, db'.memberRoles)
  {
  }

  lemma SettledRowsUnique(db: Db, tenant: Id, application: Id, memberships: map<Id, Membership>, plan: Plan)
    requires UniqueMemberships(db.memberships)
    requires OnePerOwner(db, tenant, application, plan)
    requires RowsSettled(db, tenant, application, memberships, plan)
    ensures UniqueMemberships(memberships)
  {
  }

  lemma SettledKeys(db: Db, db': Db, tenant: Id, application: Id, roleTenant: Option<Id>,
                    members: seq<DesiredMember>, owners: seq<Id>, ids: seq<Id>, plan: Plan)
    requires ForeignKeys(db) && tenant in db.tenants && application in db.applications
    requires MembersSettled(db, db', tenant, application, roleTenant, members, owners, ids, plan)
    ensures ForeignKeys(db')
  {
    OwnersAreUsers(db, members, db'.users, db'.identities, owners);
    PlannedOwners(db.roles, roleTenant, application, members, owners, ids, plan);
    SettledMembershipKeys(db, db', tenant, application, plan);
  }

  lemma PlannedOwners(roles: map<Id, Role>, tenant: Option<Id>, application: Id, members: seq<DesiredMember>, owners: seq<Id>,
                      ids: seq<Id>, plan: Plan)
    requires Planned(roles, tenant, application, members, owners, ids, plan)
    ensures forall m :: m in plan ==> plan[m].owner in owners
  {
    forall m | m in plan ensures plan[m].owner in owners {
      var i :| 0 <= i < |ids| && ids[i] == m;
      assert plan[ids[i]].owner == owners[i];
    }
  }

  lemma SettledMembershipKeys(db: Db, db': Db, tenant: Id, application: Id, plan: Plan)
    requires MembershipKeys(db) && tenant in db.tenants && application in db.applications
    requires db'.tenants == db.tenants && db'.applications == db.applications
    requires RowsSettled(db, tenant, application, db'.memberships, plan)
    requires forall u :: u in db.users ==> u in db'.users
    requires forall m :: m in plan ==> plan[m].owner in db'.users
    ensures MembershipKeys(db')
  {
  }

  lemma OwnersAreUsers(db: Db, members: seq<DesiredMember>, users: map<Id, User>, identities: map<UserRef, Id>, owners: seq<Id>)
    requires UsersEnsured(db, members, users, identities, owners)
    ensures forall i :: 0 <= i < |owners| ==> owners[i] in users
    ensures forall u :: u in db.users ==> u in users
  {
    forall i | 0 <= i < |owners| ensures owners[i] in users {
      assert members[i].userRef in identities;
    }
  }

  lemma MembersStayValid(db: Db, db': Db, tenant: Id, application: Id, roleTenant: Option<Id>,
                         members: seq<DesiredMember>, owners: seq<Id>, ids: seq<Id>, plan: Plan)
    requires Valid(db) && tenant in db.tenants && application in db.applications
    requires roleTenant.Some? ==> roleTenant.value == tenant
    requires MembersSettled(db, db', tenant, application, roleTenant, members, owners, ids, plan)
    ensures Valid(db')
  {
    SettledLinksIsolated(db, db', tenant, application, roleTenant, members, owners, ids, plan);
    SettledRowsUnique(db, tenant, application, db'.memberships, plan);
    SettledKeys(db, db', tenant, application, roleTenant, members, owners, ids, plan);
  }

  lemma ResolvedRoleNames(roles: map<Id, Role>, tenant: Option<Id>, application: Id, member: DesiredMember)
    requires UniqueRoleNames(roles)
    requires forall n :: n in member.roles ==> Resolves(roles, tenant, Some(application), n)
    ensures NamesOf(roles, RoleIdsOf(roles, tenant, application, member)) == set n | n in member.roles
  {
  }

  /** Each listed member has its membership in the slice, with the desired status and role names. */
  lemma ListedMemberHolds(db: Db, db': Db, tenant: Id, application: Id, roleTenant: Option<Id>,
                          members: seq<DesiredMember>, owners: seq<Id>, ids: seq<Id>, plan: Plan, i: nat)
    requires UniqueRoleNames(db.roles)
    requires MembersSettled(db, db', tenant, application, roleTenant, members, owners, ids, plan)
    requires i < |members|
    requires forall n :: n in members[i].roles ==> Resolves(db.roles, roleTenant, Some(application), n)
    ensures members[i].userRef in db'.identities && ids[i] in db'.memberships
    ensures MemberViewOf(db', ids[i])
            == MemberView(tenant, Some(application), db'.identities[members[i].userRef], members[i].status,
                          set n | n in members[i].roles)
  {
    ResolvedRoleNames(db.roles, roleTenant, application, members[i]);
    PlannedLinks(db.memberRoles, db'.memberRoles, plan, ids[i]);
  }

  lemma PlannedLinks(before: Links, after: Links, plan: Plan, m: Id)
    requires LinksSettled(before, after, plan) && m in plan
    ensures Linked(after, m) == plan[m].roles
  {
  }

  /**
  A second run that starts from the member tables the first one left, and in which the
  role names resolve alike, finds nothing to do.
  */
  lemma SettledTwice(db: Db, db': Db, start: Db, tenant: Id, application: Id, roleTenant: Option<Id>, roleTenant': Option<Id>,
                     members: seq<DesiredMember>, owners: seq<Id>, ids: seq<Id>, plan: Plan,
                     again: Db, owners': seq<Id>, ids': seq<Id>, plan': Plan)
    requires MembersSettled(db, db', tenant, application, roleTenant, members, owners, ids, plan)
    requires MembersSettled(start, again, tenant, application, roleTenant', members, owners', ids', plan')
    requires start.users == db'.users && start.identities == db'.identities
    requires start.memberships == db'.memberships && start.memberRoles == db'.memberRoles
    requires forall i :: 0 <= i < |members| ==>
               RoleIdsOf(start.roles, roleTenant', application, members[i]) == RoleIdsOf(db.roles, roleTenant, application, members[i])
    ensures again.(next := start.next) == start
  {
    UsersTwice(db, start, members, owners, again.users, again.identities, owners');
    assert Planned(db.roles, roleTenant, application, members, owners, ids', plan');
    SamePlan(db, start, tenant, application, roleTenant, members, owners, ids, plan, ids', plan');
    RowsTwice(db, start, tenant, application, plan, again.memberships);
    LinksTwice(db.memberRoles, start.memberRoles, again.memberRoles, plan);
  }

  lemma UsersTwice(db: Db, db': Db, members: seq<DesiredMember>, owners: seq<Id>, users: map<Id, User>,
                   identities: map<UserRef, Id>, owners': seq<Id>)
    requires UsersEnsured(db, members, db'.users, db'.identities, owners)
    requires UsersEnsured(db', members, users, identities, owners')
    ensures users == db'.users && identities == db'.identities && owners' == owners
  {
  }

  lemma RowsTwice(db: Db, db': Db, tenant: Id, application: Id, plan: Plan, memberships: map<Id, Membership>)
    requires RowsSettled(db, tenant, application, db'.memberships, plan)
    requires RowsSettled(db', tenant, application, memberships, plan)
    ensures memberships == db'.memberships
  {
  }

  lemma LinksTwice(before: Links, after: Links, again: Links, plan: Plan)
    requires LinksSettled(before, after, plan) && LinksSettled(after, again, plan)
    ensures again == after
  {
    forall l ensures l in again <==> l in after {
      assert (l.0, l.1) == l;
    }
  }

  lemma SamePlan(db: Db, db': Db, tenant: Id, application: Id, roleTenant: Option<Id>, members: seq<DesiredMember>,
                 owners: seq<Id>, ids: seq<Id>, plan: Plan, ids': seq<Id>, plan': Plan)
    requires RowsSettled(db, tenant, application, db'.memberships, plan)
    requires Planned(db.roles, roleTenant, application, members, owners, ids, plan)
    requires Planned(db.roles, roleTenant, application, members, owners, ids', plan')
    requires OnePerOwner(db', tenant, application, plan')
    ensures plan' == plan
  {
  }
}
