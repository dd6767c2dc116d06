/**
Applying an application's complete vocabulary: the application row, its permissions
(listed ones created or revived, the others deprecated) and its default roles with
exactly the listed permissions. All of it, or nothing.

Descriptions and the critical flag are carried along by the store without being read
and are not part of the rows here.
*/
module Catalog {
  import opened Common
  import opened Rows
  import opened Resolution
  import opened Assignments

  datatype DefaultRole = DefaultRole(name: string, permissions: seq<string>)

  datatype CatalogSpec = CatalogSpec(name: string, permissions: seq<string>, roles: seq<DefaultRole>)

  datatype CatalogIssue = InvalidPermissionName(permission: nat) | UnknownPermission(role: nat, permission: nat)

  function Listed(names: seq<string>): set<string> {
    set n | n in names
  }

  // ---- Validation ----

  predicate WrongInCatalog(issue: CatalogIssue, spec: CatalogSpec) {
    match issue
    case InvalidPermissionName(i) => i < |spec.permissions| && '.' !in spec.permissions[i]
    case UnknownPermission(i, j) =>
      i < |spec.roles| && j < |spec.roles[i].permissions| && spec.roles[i].permissions[j] !in spec.permissions
  }

  ghost predicate CatalogWellFormed(spec: CatalogSpec) {
    && (forall n :: n in spec.permissions ==> '.' in n)
    && (forall i, n :: 0 <= i < |spec.roles| && n in spec.roles[i].permissions ==> n in spec.permissions)
  }

  method UnknownInRole(spec: CatalogSpec, i: nat) returns (issues: seq<CatalogIssue>)
    requires i < |spec.roles|
    ensures forall x :: x in issues <==> x.UnknownPermission? && x.role == i && WrongInCatalog(x, spec)
  {
    issues := [];
    for j := 0 to |spec.roles[i].permissions|
      invariant forall x :: x in issues <==> x.UnknownPermission? && x.role == i && x.permission < j && WrongInCatalog(x, spec)
    {
      if spec.roles[i].permissions[j] !in spec.permissions {
        issues := issues + [UnknownPermission(i, j)];
      }
    }
  }

  /** Report every issue of a catalog, and nothing that is not one. */
  method ValidateCatalog(spec: CatalogSpec) returns (issues: seq<CatalogIssue>)
    ensures forall x :: x in issues <==> WrongInCatalog(x, spec)
    ensures issues == [] <==> CatalogWellFormed(spec)
  {
    issues := [];
    for i := 0 to |spec.permissions|
      invariant forall x :: x in issues <==> x.InvalidPermissionName? && x.permission < i && WrongInCatalog(x, spec)
    {
      if '.' !in spec.permissions[i] {
        issues := issues + [InvalidPermissionName(i)];
      }
    }
    for i := 0 to |spec.roles|
      invariant forall x :: x in issues <==> (x.InvalidPermissionName? || x.role < i) && WrongInCatalog(x, spec)
    {
      var more := UnknownInRole(spec, i);
      issues := issues + more;
    }
    IssuesAreFaults(spec, issues);
  }

  lemma IssuesAreFaults(spec: CatalogSpec, issues: seq<CatalogIssue>)
    requires forall x :: x in issues <==> WrongInCatalog(x, spec)
    ensures issues == [] <==> CatalogWellFormed(spec)
  {
    if issues == [] {
      forall n | n in spec.permissions ensures '.' in n {
        var i :| 0 <= i < |spec.permissions| && spec.permissions[i] == n;
        assert !WrongInCatalog(InvalidPermissionName(i), spec);
      }
      forall i, n | 0 <= i < |spec.roles| && n in spec.roles[i].permissions ensures n in spec.permissions {
        var j :| 0 <= j < |spec.roles[i].permissions| && spec.roles[i].permissions[j] == n;
        assert !WrongInCatalog(UnknownPermission(i, j), spec);
      }
    } else {
      assert issues[0] in issues;
    }
  }

  // ---- Permissions ----

  /** Names to rows of one application's permissions. */
  ghost predicate Indexed(permissions: map<Id, Permission>, application: Id, index: map<string, Id>) {
    && (forall n :: n in index ==> index[n] in permissions
                                   && permissions[index[n]].application == Some(application) && permissions[index[n]].name == n)
    && (forall p :: p in permissions && permissions[p].application == Some(application) ==>
          permissions[p].name in index && index[permissions[p].name] == p)
  }

  /** The listed names seen so far have an active row each. */
  ghost predicate Revived(before: map<Id, Permission>, after: map<Id, Permission>, application: Id, seen: set<string>,
                          index: map<string, Id>)
  {
    && Indexed(after, application, index) && seen <= index.Keys
    && (forall p :: p in before ==>
          && p in after
          && after[p] == if before[p].application == Some(application) && before[p].name in seen
                         then before[p].(deprecated := false) else before[p])
    && (forall p :: p in after && p !in before ==>
          after[p] == Permission(after[p].name, Some(application), false) && after[p].name in seen)
  }

  /** Active exactly when listed; rows of other applications as before. */
  ghost predicate PermissionsSettled(before: map<Id, Permission>, after: map<Id, Permission>, application: Id,
                                     listed: set<string>, index: map<string, Id>)
  {
    && Indexed(after, application, index) && listed <= index.Keys
    && (forall p :: p in before ==>
          && p in after
          && after[p] == if before[p].application == Some(application)
                         then before[p].(deprecated := before[p].name !in listed) else before[p])
    && (forall p :: p in after && p !in before ==>
          after[p] == Permission(after[p].name, Some(application), false) && after[p].name in listed)
  }

  method IndexPermissions(permissions: map<Id, Permission>, application: Id) returns (index: map<string, Id>)
    requires UniquePermissionNames(permissions)
    ensures Indexed(permissions, application, index)
  {
    index := map p | p in permissions && permissions[p].application == Some(application) :: permissions[p].name := p;
  }

  method RevivePermission(ghost before: map<Id, Permission>, permissions: map<Id, Permission>, application: Id, next: Id,
                          ghost seen: set<string>, index: map<string, Id>, name: string)
    returns (permissions': map<Id, Permission>, next': Id, index': map<string, Id>)
    requires Revived(before, permissions, application, seen, index) && Below(permissions, next)
    ensures Revived(before, permissions', application, seen + {name}, index')
    ensures Below(permissions', next')
    ensures if name in index then next' == next && permissions'.Keys == permissions.Keys
            else next' == next + 1 && permissions' == permissions[next := Permission(name, Some(application), false)]
  {
    if name in index {
      var p := index[name];
      permissions', next', index' := permissions[p := permissions[p].(deprecated := false)], next, index;
      OneRevived(before, permissions, application, seen, index, name);
    } else {
      permissions', next' := permissions[next := Permission(name, Some(application), false)], next + 1;
      index' := index[name := next];
      OneAdded(before, permissions, application, next, seen, index, name);
    }
  }

  lemma OneRevived(before: map<Id, Permission>, permissions: map<Id, Permission>, application: Id, seen: set<string>,
                   index: map<string, Id>, name: string)
    requires Revived(before, permissions, application, seen, index) && name in index
    ensures var p := index[name];
            Revived(before, permissions[p := permissions[p].(deprecated := false)], application, seen + {name}, index)
  {
  }

  lemma OneAdded(before: map<Id, Permission>, permissions: map<Id, Permission>, application: Id, next: Id, seen: set<string>,
                 index: map<string, Id>, name: string)
    requires Revived(before, permissions, application, seen, index) && name !in index && Below(permissions, next)
    ensures Revived(before, permissions[next := Permission(name, Some(application), false)], application, seen + {name},
                    index[name := next])
  {
    assert next !in permissions;
  }

  /** As many rows are new as ids were drawn. */
  ghost predicate Drawn(before: set<Id>, after: set<Id>, first: Id, next: Id, created: nat) {
    next == first + created && created == |after - before|
  }

  lemma OneMoreDrawn(before: set<Id>, after: set<Id>, first: Id, next: Id, created: nat)
    requires before <= after && next !in after && Drawn(before, after, first, next, created)
    ensures Drawn(before, after + {next}, first, next + 1, created + 1)
  {
    assert (after + {next}) - before == (after - before) + {next};
  }

  lemma RowAdded<T>(rows: map<Id, T>, next: Id, row: T)
    requires Below(rows, next)
    ensures next !in rows && rows[next := row].Keys == rows.Keys + {next} && Below(rows[next := row], next + 1)
  {
  }

  ghost predicate RevivePass(before: map<Id, Permission>, permissions: map<Id, Permission>, application: Id, first: Id,
                             next: Id, seen: set<string>, index: map<string, Id>, created: nat)
  {
    && Revived(before, permissions, application, seen, index)
    && Below(permissions, next) && Drawn(before.Keys, permissions.Keys, first, next, created)
  }

  method ReviveNext(ghost before: map<Id, Permission>, permissions: map<Id, Permission>, application: Id, ghost first: Id,
                    next: Id, ghost seen: set<string>, index: map<string, Id>, created: nat, name: string)
    returns (permissions': map<Id, Permission>, next': Id, index': map<string, Id>, created': nat)
    requires RevivePass(before, permissions, application, first, next, seen, index, created)
    ensures RevivePass(before, permissions', application, first, next', seen + {name}, index', created')
  {
    permissions', next', index' := RevivePermission(before, permissions, application, next, seen, index, name);
    created' := if name in index then created else created + 1;
    if name !in index {
      RowAdded(permissions, next, Permission(name, Some(application), false));
      OneMoreDrawn(before.Keys, permissions.Keys, first, next, created);
    }
  }

  /** First pass: a row for every listed name. */
  method RevivePermissions(before: map<Id, Permission>, application: Id, first: Id, listed: seq<string>)
    returns (permissions: map<Id, Permission>, next: Id, index: map<string, Id>, created: nat)
    requires UniquePermissionNames(before) && Below(before, first)
    ensures RevivePass(before, permissions, application, first, next, Listed(listed), index, created)
  {
    permissions, next, created := before, first, 0;
    index := IndexPermissions(before, application);
    assert permissions.Keys - before.Keys == {};
    ghost var seen: set<string> := {};
    for i := 0 to |listed|
      invariant seen == Listed(listed[..i])
      invariant RevivePass(before, permissions, application, first, next, seen, index, created)
    {
      permissions, next, index, created :=
        ReviveNext(before, permissions, application, first, next, seen, index, created, listed[i]);
      ListedOneMore(listed, i);
      seen := seen + {listed[i]};
    }
    assert listed[..|listed|] == listed;
  }

  lemma ListedOneMore(listed: seq<string>, i: nat)
    requires i < |listed|
    ensures Listed(listed[..i + 1]) == Listed(listed[..i]) + {listed[i]}
  {
  }

  /** The rows that a run turns from active to deprecated. */
  function NewlyDeprecated(before: map<Id, Permission>, after: map<Id, Permission>): set<Id> {
    set p | p in before && p in after && !before[p].deprecated && after[p].deprecated
  }

  function Deprecate(row: Permission): Permission {
    row.(deprecated := true)
  }

  /** The active rows that are not listed. */
  ghost function UnlistedActive(permissions: map<Id, Permission>, application: Id, listed: set<string>): set<Id> {
    set p | p in permissions && permissions[p].application == Some(application) && permissions[p].name !in listed
            && !permissions[p].deprecated
  }

  /** Second pass: deprecate what is not listed. */
  method DeprecateOthers(before: map<Id, Permission>, application: Id, index: map<string, Id>, listed: set<string>)
    returns (after: map<Id, Permission>, deprecated: nat)
    requires Indexed(before, application, index)
    ensures ChangedAt(before, after, UnlistedActive(before, application, listed), Deprecate)
    ensures deprecated == |UnlistedActive(before, application, listed)|
  {
    var unlisted := set n | n in index && n !in listed :: index[n];
    var active := (p: Id) => p in before && !before[p].deprecated;
    after, deprecated := ChangeWhere<Id, Permission>(before, unlisted, active, Deprecate);
    assert Passing<Id>(unlisted, active) == UnlistedActive(before, application, listed);
  }

  lemma RevivedThenDeprecated(before: map<Id, Permission>, mid: map<Id, Permission>, after: map<Id, Permission>, application: Id,
                              listed: set<string>, index: map<string, Id>)
    requires Revived(before, mid, application, listed, index)
    requires ChangedAt(mid, after, UnlistedActive(mid, application, listed), Deprecate)
    ensures PermissionsSettled(before, after, application, listed, index)
    ensures NewlyDeprecated(before, after) == UnlistedActive(mid, application, listed)
  {
  }

  /** Permission rows and counters of one catalog. */
  method ApplyPermissions(before: map<Id, Permission>, application: Id, first: Id, listed: seq<string>)
    returns (after: map<Id, Permission>, next: Id, index: map<string, Id>, created: nat, deprecated: nat)
    requires UniquePermissionNames(before) && Below(before, first)
    ensures PermissionsSettled(before, after, application, Listed(listed), index)
    ensures Below(after, next) && Drawn(before.Keys, after.Keys, first, next, created)
    ensures deprecated == |NewlyDeprecated(before, after)|
  {
    var mid;
    mid, next, index, created := RevivePermissions(before, application, first, listed);
    after, deprecated := DeprecateOthers(mid, application, index, Listed(listed));
    RevivedThenDeprecated(before, mid, after, application, Listed(listed), index);
  }

  // ---- Default roles ----

  function RoleNames(roles: seq<DefaultRole>): set<string> {
    set i | 0 <= i < |roles| :: roles[i].name
  }

  /** Names to rows of one application's named application-wide roles. */
  ghost predicate RolesIndexed(roles: map<Id, Role>, application: Id, index: map<string, Id>) {
    && (forall n :: n in index ==> index[n] in roles && roles[index[n]] == Role(n, None, Some(application), None))
    && (forall r :: r in roles && NamedRole(roles[r], None, Some(application), roles[r].name) ==>
          roles[r].name in index && index[roles[r].name] == r)
  }

  /** The seen names have a default role; roles that were there are as before. */
  ghost predicate DefaultsEnsured(before: map<Id, Role>, after: map<Id, Role>, application: Id, seen: set<string>,
                                  index: map<string, Id>)
  {
    && RolesIndexed(after, application, index) && seen <= index.Keys
    && (forall r :: r in before ==> r in after && after[r] == before[r])
    && (forall r :: r in after && r !in before ==>
          after[r] == Role(after[r].name, None, Some(application), None) && after[r].name in seen)
  }

  method IndexRoles(roles: map<Id, Role>, application: Id) returns (index: map<string, Id>)
    requires UniqueRoleNames(roles)
    ensures RolesIndexed(roles, application, index)
  {
    index := map r | r in roles && NamedRole(roles[r], None, Some(application), roles[r].name) :: roles[r].name := r;
  }

  ghost predicate RolePass(before: map<Id, Role>, roles: map<Id, Role>, application: Id, first: Id, next: Id,
                           seen: set<string>, index: map<string, Id>, created: nat)
  {
    && DefaultsEnsured(before, roles, application, seen, index)
    && Below(roles, next) && Drawn(before.Keys, roles.Keys, first, next, created)
  }

  method EnsureDefaultRole(ghost before: map<Id, Role>, roles: map<Id, Role>, application: Id, ghost first: Id, next: Id,
                           ghost seen: set<string>, index: map<string, Id>, created: nat, name: string)
    returns (roles': map<Id, Role>, next': Id, index': map<string, Id>, created': nat)
    requires RolePass(before, roles, application, first, next, seen, index, created)
    ensures RolePass(before, roles', application, first, next', seen + {name}, index', created')
    ensures created' == if name in index then created else created + 1
  {
    if name in index {
      roles', next', index', created' := roles, next, index, created;
    } else {
      roles', next', created' := roles[next := Role(name, None, Some(application), None)], next + 1, created + 1;
      index' := index[name := next];
      OneMoreDefault(before, roles, application, next, seen, index, name);
      RowAdded(roles, next, Role(name, None, Some(application), None));
      OneMoreDrawn(before.Keys, roles.Keys, first, next, created);
    }
  }

  lemma OneMoreDefault(before: map<Id, Role>, roles: map<Id, Role>, application: Id, next: Id, seen: set<string>,
                       index: map<string, Id>, name: string)
    requires DefaultsEnsured(before, roles, application, seen, index)
    requires Below(roles, next) && name !in index
    ensures DefaultsEnsured(before, roles[next := Role(name, None, Some(application), None)], application, seen + {name},
                            index[name := next])
  {
  }

  lemma OneMoreRoleName(roles: seq<DefaultRole>, i: nat)
    requires i < |roles|
    ensures RoleNames(roles[..i + 1]) == RoleNames(roles[..i]) + {roles[i].name}
  {
  }

  /** A row for every default role; each listed role counts as created or as updated. */
  method EnsureDefaultRoles(before: map<Id, Role>, application: Id, first: Id, specs: seq<DefaultRole>)
    returns (roles: map<Id, Role>, next: Id, index: map<string, Id>, created: nat, updated: nat)
    requires UniqueRoleNames(before) && Below(before, first)
    ensures RolePass(before, roles, application, first, next, RoleNames(specs), index, created)
    ensures created + updated == |specs|
  {
    roles, next, created, updated := before, first, 0, 0;
    index := IndexRoles(before, application);
    assert roles.Keys - before.Keys == {};
    for i := 0 to |specs|
      invariant RolePass(before, roles, application, first, next, RoleNames(specs[..i]), index, created)
      invariant created + updated == i
    {
      OneMoreRoleName(specs, i);
      if specs[i].name in index {
        updated := updated + 1;
      }
      roles, next, index, created := EnsureDefaultRole(before, roles, application, first, next, RoleNames(specs[..i]), index,
                                                       created, specs[i].name);
    }
    assert specs[..|specs|] == specs;
  }

  // ---- Permissions of the default roles ----

  datatype RoleWant = RoleWant(role: Id, ids: set<Id>)

  /**
  The links are compared with those read before the first role was written. Two entries
  for one role agree with that only if they ask for the same permissions, all of them
  already there.
  */
  ghost predicate Compatible(links: Links, wants: seq<RoleWant>) {
    forall i, j | 0 <= i < j < |wants| && wants[i].role == wants[j].role
      :: wants[i].ids == wants[j].ids && wants[i].ids <= Linked(links, wants[i].role)
  }

  ghost predicate Exact(links: Links, wants: seq<RoleWant>) {
    forall i :: 0 <= i < |wants| ==> Linked(links, wants[i].role) == wants[i].ids
  }

  predicate Wanted(wants: seq<RoleWant>, role: Id, id: Id) {
    exists i :: 0 <= i < |wants| && wants[i].role == role && id in wants[i].ids
  }

  predicate InEvery(wants: seq<RoleWant>, role: Id, id: Id) {
    forall i :: 0 <= i < |wants| && wants[i].role == role ==> id in wants[i].ids
  }

  /** Delete and insert against a remembered state; inserting a row that exists is refused. */
  function ReplaceStale(links: Links, role: Id, ids: set<Id>, current: set<Id>): Result<Links, Refusal> {
    var added := set i | i in ids - current :: (role, i);
    if exists l :: l in added && l in links then Err(Integrity)
    else Ok(links - (set i | i in current - ids :: (role, i)) + added)
  }

  /** A link that was there stays if every entry for its role wants it; a new one comes if some entry does. */
  ghost predicate LinksMerged(before: Links, after: Links, wants: seq<RoleWant>) {
    forall r: Id, p: Id :: (r, p) in after <==> if (r, p) in before then InEvery(wants, r, p) else Wanted(wants, r, p)
  }

  /** No permission was inserted twice for the same role. */
  ghost predicate InsertedOnce(before: Links, wants: seq<RoleWant>) {
    forall i, j, p | && 0 <= i < j < |wants| && wants[i].role == wants[j].role
                     && p in wants[i].ids && p in wants[j].ids
      :: (wants[i].role, p) in before
  }

  lemma ReplacedStale(links: Links, role: Id, ids: set<Id>, current: set<Id>)
    ensures match ReplaceStale(links, role, ids, current)
            case Ok(links') =>
              && (forall r: Id, p: Id {:trigger (r, p) in links'} :: (r, p) in links' <==>
                    if r == role then (p in ids && p !in current) || ((r, p) in links && (p in ids || p !in current))
                    else (r, p) in links)
              && (forall p :: p in ids && p !in current ==> (role, p) !in links)
            case Err(_) => exists p :: p in ids && p !in current && (role, p) in links
  {
  }

  lemma OneMoreMerged(before: Links, links: Links, links': Links, wants: seq<RoleWant>, want: RoleWant)
    requires LinksMerged(before, links, wants)
    requires ReplaceStale(links, want.role, want.ids, Linked(before, want.role)) == Ok(links')
    ensures LinksMerged(before, links', wants + [want])
  {
    ReplacedStale(links, want.role, want.ids, Linked(before, want.role));
    forall r: Id, p: Id ensures (r, p) in links' <==>
        if (r, p) in before then InEvery(wants + [want], r, p) else Wanted(wants + [want], r, p)
    {
      OneMoreEntry(wants, want, r, p);
    }
  }

  lemma OneMoreEntry(wants: seq<RoleWant>, want: RoleWant, r: Id, p: Id)
    ensures InEvery(wants + [want], r, p) <==> InEvery(wants, r, p) && (want.role == r ==> p in want.ids)
    ensures Wanted(wants + [want], r, p) <==> Wanted(wants, r, p) || (want.role == r && p in want.ids)
  {
    var more := wants + [want];
    assert more[|wants|] == want && forall i :: 0 <= i < |wants| ==> more[i] == wants[i];
  }

  /** Where nothing is inserted twice so far, a further entry that is accepted inserts nothing twice either. */
  lemma OneMoreInsertedOnce(before: Links, links: Links, links': Links, wants: seq<RoleWant>, want: RoleWant)
    requires LinksMerged(before, links, wants) && InsertedOnce(before, wants)
    requires ReplaceStale(links, want.role, want.ids, Linked(before, want.role)) == Ok(links')
    ensures InsertedOnce(before, wants + [want])
  {
    ReplacedStale(links, want.role, want.ids, Linked(before, want.role));
    var more := wants + [want];
    assert more[|wants|] == want && forall i :: 0 <= i < |wants| ==> more[i] == wants[i];
    forall i, p | 0 <= i < |wants| && wants[i].role == want.role && p in wants[i].ids && p in want.ids
      ensures (want.role, p) in before
    {
      assert Wanted(wants, want.role, p);
    }
  }

  /** A refusal shows that a permission would be inserted twice for one role. */
  lemma RefusedInsertsTwice(before: Links, links: Links, wants: seq<RoleWant>, i: nat)
    requires i < |wants| && LinksMerged(before, links, wants[..i])
    requires ReplaceStale(links, wants[i].role, wants[i].ids, Linked(before, wants[i].role)).Err?
    ensures !InsertedOnce(before, wants)
  {
    var prefix := wants[..i];
    ReplacedStale(links, wants[i].role, wants[i].ids, Linked(before, wants[i].role));
    var p :| p in wants[i].ids && p !in Linked(before, wants[i].role) && (wants[i].role, p) in links;
    assert Wanted(prefix, wants[i].role, p);
    var k :| 0 <= k < |prefix| && prefix[k].role == wants[i].role && p in prefix[k].ids;
    assert prefix[k] == wants[k];
  }

  /** Give every listed role its permissions, or refuse. */
  method LinkDefaultRoles(before: Links, wants: seq<RoleWant>) returns (ok: bool, links: Links)
    ensures ok <==> InsertedOnce(before, wants)
    ensures ok ==> LinksMerged(before, links, wants)
  {
    ok, links := true, before;
    for i := 0 to |wants|
      invariant LinksMerged(before, links, wants[..i]) && InsertedOnce(before, wants[..i])
    {
      var result := ReplaceStale(links, wants[i].role, wants[i].ids, Linked(before, wants[i].role));
      if result.Err? {
        RefusedInsertsTwice(before, links, wants, i);
        return false, links;
      }
      OneMoreMerged(before, links, result.value, wants[..i], wants[i]);
      OneMoreInsertedOnce(before, links, result.value, wants[..i], wants[i]);
      OneMoreWant(wants, i);
      links := result.value;
    }
    assert wants[..|wants|] == wants;
  }

  lemma OneMoreWant(wants: seq<RoleWant>, i: nat)
    requires i < |wants|
    ensures wants[..i + 1] == wants[..i] + [wants[i]]
  {
  }

  /** Every entry is met exactly when entries for one role ask for the same permissions, all already there. */
  lemma ExactIffCompatible(before: Links, after: Links, wants: seq<RoleWant>)
    requires LinksMerged(before, after, wants) && InsertedOnce(before, wants)
    ensures Exact(after, wants) <==> Compatible(before, wants)
  {
    if Compatible(before, wants) {
      forall i, p: Id | 0 <= i < |wants| ensures p in Linked(after, wants[i].role) <==> p in wants[i].ids {
        assert (wants[i].role, p) in after <==>
               if (wants[i].role, p) in before then InEvery(wants, wants[i].role, p) else Wanted(wants, wants[i].role, p);
      }
    }
  }

  /** Merging once more changes nothing exactly when every entry is met. */
  lemma SettledIffExact(before: Links, after: Links, wants: seq<RoleWant>)
    requires LinksMerged(before, after, wants)
    ensures after == before <==> Exact(before, wants)
  {
    if Exact(before, wants) {
      forall l ensures l in after <==> l in before {
        assert (l.0, l.1) == l;
        if i :| 0 <= i < |wants| && wants[i].role == l.0 {
          assert l.1 in Linked(before, wants[i].role) <==> l.1 in wants[i].ids;
        }
      }
    }
    if after == before {
      forall i, p: Id | 0 <= i < |wants| ensures p in Linked(before, wants[i].role) <==> p in wants[i].ids {
        assert (wants[i].role, p) in before <==>
               if (wants[i].role, p) in before then InEvery(wants, wants[i].role, p) else Wanted(wants, wants[i].role, p);
      }
    }
  }

  // ---- The whole transaction ----

  /** The application row: as it was but renamed, or new and active with the given manager. */
  ghost predicate ApplicationEnsured(db: Db, applications: map<Id, Application>, next: Id, slug: string, name: string,
                                     managedBy: Option<string>, application: Id)
  {
    if exists a :: a in db.applications && db.applications[a].slug == slug then
      && application in db.applications && db.applications[application].slug == slug && next == db.next
      && applications == db.applications[application := db.applications[application].(name := name)]
    else
      && application == db.next && next == db.next + 1
      && applications == db.applications[application := Application(slug, name, ACTIVE, managedBy)]
  }

  method EnsureApplication(db: Db, slug: string, name: string, managedBy: Option<string>)
    returns (applications: map<Id, Application>, next: Id, application: Id)
    requires Below(db.applications, db.next)
    ensures ApplicationEnsured(db, applications, next, slug, name, managedBy, application)
  {
    if a :| a in db.applications && db.applications[a].slug == slug {
      applications, next, application := db.applications[a := db.applications[a].(name := name)], db.next, a;
    } else {
      application, next := db.next, db.next + 1;
      applications := db.applications[application := Application(slug, name, ACTIVE, managedBy)];
    }
  }

  /** What each default role is to be linked to. */
  function WantsOf(specs: seq<DefaultRole>, roleIndex: map<string, Id>, index: map<string, Id>): (wants: seq<RoleWant>)
    requires RoleNames(specs) <= roleIndex.Keys
    ensures |wants| == |specs|
    ensures forall i :: 0 <= i < |specs| ==>
              && specs[i].name in roleIndex && wants[i].role == roleIndex[specs[i].name]
              && wants[i].ids == set n | n in specs[i].permissions && n in index :: index[n]
  {
    seq(|specs|, i requires 0 <= i < |specs| =>
      (assert specs[i].name in RoleNames(specs);
       RoleWant(roleIndex[specs[i].name], set n | n in specs[i].permissions && n in index :: index[n])))
  }

  /** How a run went: the rows before the default roles are linked, ids drawn on the way, names to rows. */
  datatype CatalogTrace = CatalogTrace(
    rows: Db,
    application: Id,
    mark: Id,
    mark': Id,
    index: map<string, Id>,
    roleIndex: map<string, Id>)

  ghost predicate CatalogRows(db: Db, slug: string, spec: CatalogSpec, managedBy: Option<string>, trace: CatalogTrace) {
    && CatalogWellFormed(spec)
    && trace.rows == db.(next := trace.rows.next, applications := trace.rows.applications,
                         permissions := trace.rows.permissions, roles := trace.rows.roles)
    && ApplicationEnsured(db, trace.rows.applications, trace.mark, slug, spec.name, managedBy, trace.application)
    && PermissionsSettled(db.permissions, trace.rows.permissions, trace.application, Listed(spec.permissions), trace.index)
    && Below(trace.rows.permissions, trace.mark')
    && Drawn(db.permissions.Keys, trace.rows.permissions.Keys, trace.mark, trace.mark',
             |trace.rows.permissions.Keys - db.permissions.Keys|)
    && RolePass(db.roles, trace.rows.roles, trace.application, trace.mark', trace.rows.next, RoleNames(spec.roles),
                trace.roleIndex, |trace.rows.roles.Keys - db.roles.Keys|)
  }

  ghost function CatalogWants(spec: CatalogSpec, trace: CatalogTrace): seq<RoleWant>
    requires RoleNames(spec.roles) <= trace.roleIndex.Keys
  {
    WantsOf(spec.roles, trace.roleIndex, trace.index)
  }

  /** The application already has a default role of this name that carries this permission. */
  ghost predicate AlreadyLinked(db: Db, slug: string, role: string, permission: string) {
    exists a, l | && a in db.applications && db.applications[a].slug == slug
                  && l in db.rolePermissions && l.0 in db.roles && l.1 in db.permissions
      :: NamedRole(db.roles[l.0], None, Some(a), role) && db.permissions[l.1].name == permission
  }

  /** Entries for one role list the same permissions, and the role already carries them all. */
  ghost predicate EntriesAgree(db: Db, slug: string, spec: CatalogSpec) {
    forall i, j | 0 <= i < j < |spec.roles| && spec.roles[i].name == spec.roles[j].name
      :: && Listed(spec.roles[i].permissions) == Listed(spec.roles[j].permissions)
         && forall n :: n in spec.roles[i].permissions ==> AlreadyLinked(db, slug, spec.roles[i].name, n)
  }

  /** Two entries for one role both list the permission. */
  predicate ListedTwice(roles: seq<DefaultRole>, i: nat, j: nat, n: string) {
    && i < j < |roles| && roles[i].name == roles[j].name
    && n in roles[i].permissions && n in roles[j].permissions
  }

  /** Two entries for one role both list a permission that the role does not carry yet. */
  ghost predicate EntriesClash(db: Db, slug: string, spec: CatalogSpec) {
    exists i: nat, j: nat, n :: ListedTwice(spec.roles, i, j, n) && !AlreadyLinked(db, slug, spec.roles[i].name, n)
  }

  /** The rows are settled and linked; exactly, when entries for one role agree. */
  ghost predicate CatalogApplied(db: Db, db': Db, slug: string, spec: CatalogSpec, managedBy: Option<string>,
                                 trace: CatalogTrace)
  {
    && CatalogRows(db, slug, spec, managedBy, trace)
    && db' == trace.rows.(rolePermissions := db'.rolePermissions)
    && var wants := CatalogWants(spec, trace);
       && LinksMerged(db.rolePermissions, db'.rolePermissions, wants)
       && (Exact(db'.rolePermissions, wants) <==> EntriesAgree(db, slug, spec))
  }

  datatype CatalogResult = CatalogResult(application: Id, created: nat, deprecated: nat, rolesCreated: nat, rolesUpdated: nat)

  datatype CatalogError = InvalidCatalog(issues: seq<CatalogIssue>) | CatalogAborted

  /** The counters are the numbers of rows created and deprecated. */
  ghost predicate CatalogCounted(db: Db, db': Db, spec: CatalogSpec, result: CatalogResult) {
    && result.created == |db'.permissions.Keys - db.permissions.Keys|
    && result.deprecated == |NewlyDeprecated(db.permissions, db'.permissions)|
    && result.rolesCreated == |db'.roles.Keys - db.roles.Keys|
    && result.rolesCreated + result.rolesUpdated == |spec.roles|
  }

  ghost predicate DistinctRoleNames(specs: seq<DefaultRole>) {
    forall i, j :: 0 <= i < j < |specs| ==> specs[i].name != specs[j].name
  }

  /** The rows of a well-formed catalog, with the default roles still unlinked. */
  method ApplyCatalogRows(db: Db, slug: string, spec: CatalogSpec, managedBy: Option<string>)
    returns (trace: CatalogTrace, counts: CatalogResult)
    requires Below(db.applications, db.next) && Below(db.permissions, db.next) && Below(db.roles, db.next)
    requires UniquePermissionNames(db.permissions) && UniqueRoleNames(db.roles)
    requires CatalogWellFormed(spec)
    ensures CatalogRows(db, slug, spec, managedBy, trace)
    ensures counts.application == trace.application && CatalogCounted(db, trace.rows, spec, counts)
  {
    var applications, mark, application := EnsureApplication(db, slug, spec.name, managedBy);
    var permissions, mark', index, created, deprecated := ApplyPermissions(db.permissions, application, mark, spec.permissions);
    var roles, next, roleIndex, rolesCreated, rolesUpdated := EnsureDefaultRoles(db.roles, application, mark', spec.roles);
    var rows := db.(next := next, applications := applications, permissions := permissions, roles := roles);
    trace := CatalogTrace(rows, application, mark, mark', index, roleIndex);
    counts := CatalogResult(application, created, deprecated, rolesCreated, rolesUpdated);
  }

  /** Write the vocabulary of an application, or change nothing. */
  method ApplyCatalog(db: Db, slug: string, spec: CatalogSpec, managedBy: Option<string>)
    returns (result: Result<CatalogResult, CatalogError>, db': Db, trace: CatalogTrace)
    requires Valid(db)
    ensures match result
            case Ok(counts) =>
              && CatalogApplied(db, db', slug, spec, managedBy, trace) && !EntriesClash(db, slug, spec)
              && counts.application == trace.application
              && CatalogCounted(db, db', spec, counts)
            case Err(InvalidCatalog(issues)) =>
              db' == db && !CatalogWellFormed(spec) && forall x :: x in issues <==> WrongInCatalog(x, spec)
            case Err(CatalogAborted) => db' == db && CatalogWellFormed(spec) && EntriesClash(db, slug, spec)
  {
    var issues := ValidateCatalog(spec);
    if issues != [] {
      return Err(InvalidCatalog(issues)), db, CatalogTrace(db, 0, 0, 0, map[], map[]);
    }
    var counts;
    trace, counts := ApplyCatalogRows(db, slug, spec, managedBy);
    var ok, links := LinkDefaultRoles(db.rolePermissions, WantsOf(spec.roles, trace.roleIndex, trace.index));
    EntriesDecide(db, slug, spec, managedBy, trace);
    if !ok {
      return Err(CatalogAborted), db, trace;
    }
    ExactIffCompatible(db.rolePermissions, links, WantsOf(spec.roles, trace.roleIndex, trace.index));
    return Ok(counts), trace.rows.(rolePermissions := links), trace;
  }

  // ---- What the entries decide ----

  lemma ExistingApplication(db: Db, applications: map<Id, Application>, next: Id, slug: string, name: string,
                            managedBy: Option<string>, application: Id, a: Id)
    requires Below(db.applications, db.next) && UniqueApplicationSlugs(db.applications)
    requires ApplicationEnsured(db, applications, next, slug, name, managedBy, application)
    requires a in db.applications
    ensures db.applications[a].slug == slug <==> a == application
  {
  }

  /** What a link between an indexed role and an indexed permission means in terms of the store before the run. */
  lemma LinkedBefore(db: Db, slug: string, spec: CatalogSpec, managedBy: Option<string>, trace: CatalogTrace, role: string,
                     permission: string)
    requires Below(db.applications, db.next) && UniqueApplicationSlugs(db.applications) && RoleKeys(db)
    requires PermissionLinksIsolated(db.roles, db.permissions, db.rolePermissions)
    requires CatalogRows(db, slug, spec, managedBy, trace)
    requires role in trace.roleIndex && permission in trace.index
    ensures (trace.roleIndex[role], trace.index[permission]) in db.rolePermissions <==> AlreadyLinked(db, slug, role, permission)
  {
    var l := (trace.roleIndex[role], trace.index[permission]);
    if l in db.rolePermissions {
      LinkIsKnown(db, slug, spec, managedBy, trace, role, permission);
    }
    if AlreadyLinked(db, slug, role, permission) {
      KnownIsLinked(db, slug, spec, managedBy, trace, role, permission);
    }
  }

  lemma LinkIsKnown(db: Db, slug: string, spec: CatalogSpec, managedBy: Option<string>, trace: CatalogTrace, role: string,
                    permission: string)
    requires Below(db.applications, db.next) && UniqueApplicationSlugs(db.applications) && RoleKeys(db)
    requires PermissionLinksIsolated(db.roles, db.permissions, db.rolePermissions)
    requires CatalogRows(db, slug, spec, managedBy, trace)
    requires role in trace.roleIndex && permission in trace.index
    requires (trace.roleIndex[role], trace.index[permission]) in db.rolePermissions
    ensures AlreadyLinked(db, slug, role, permission)
  {
    var r, p := trace.roleIndex[role], trace.index[permission];
    assert db.roles[r] == trace.rows.roles[r] && db.permissions[p].name == trace.rows.permissions[p].name;
    ExistingApplication(db, trace.rows.applications, trace.mark, slug, spec.name, managedBy, trace.application, trace.application);
    assert NamedRole(db.roles[(r, p).0], None, Some(trace.application), role) && db.permissions[(r, p).1].name == permission;
  }

  lemma KnownIsLinked(db: Db, slug: string, spec: CatalogSpec, managedBy: Option<string>, trace: CatalogTrace, role: string,
                      permission: string)
    requires Below(db.applications, db.next) && UniqueApplicationSlugs(db.applications)
    requires PermissionLinksIsolated(db.roles, db.permissions, db.rolePermissions)
    requires CatalogRows(db, slug, spec, managedBy, trace)
    requires role in trace.roleIndex && permission in trace.index
    requires AlreadyLinked(db, slug, role, permission)
    ensures (trace.roleIndex[role], trace.index[permission]) in db.rolePermissions
  {
    var a, l :| a in db.applications && db.applications[a].slug == slug
                && l in db.rolePermissions && l.0 in db.roles && l.1 in db.permissions
                && NamedRole(db.roles[l.0], None, Some(a), role) && db.permissions[l.1].name == permission;
    ExistingApplication(db, trace.rows.applications, trace.mark, slug, spec.name, managedBy, trace.application, a);
    assert (l.0, l.1) == l;
    assert trace.rows.roles[l.0] == db.roles[l.0];
    assert trace.rows.permissions[l.1].application == Some(trace.application);
  }

  /** Equal role names are equal rows, and listed names are indexed rows. */
  lemma WantsByName(roles: map<Id, Role>, permissions: map<Id, Permission>, application: Id, specs: seq<DefaultRole>,
                    roleIndex: map<string, Id>, index: map<string, Id>)
    requires RoleNames(specs) <= roleIndex.Keys
    requires RolesIndexed(roles, application, roleIndex) && Indexed(permissions, application, index)
    requires forall i, n :: 0 <= i < |specs| && n in specs[i].permissions ==> n in index
    ensures var wants := WantsOf(specs, roleIndex, index);
            && (forall i, j | 0 <= i < |specs| && 0 <= j < |specs| :: wants[i].role == wants[j].role <==> specs[i].name == specs[j].name)
            && (forall i, n | 0 <= i < |specs| && n in index :: index[n] in wants[i].ids <==> n in specs[i].permissions)
  {
    var wants := WantsOf(specs, roleIndex, index);
    forall i, j | 0 <= i < |specs| && 0 <= j < |specs| && wants[i].role == wants[j].role ensures specs[i].name == specs[j].name {
      assert roles[wants[i].role].name == specs[i].name && roles[wants[j].role].name == specs[j].name;
    }
    forall i, n | 0 <= i < |specs| && n in index && index[n] in wants[i].ids ensures n in specs[i].permissions {
      var m :| m in specs[i].permissions && m in index && index[m] == index[n];
      assert permissions[index[m]].name == m && permissions[index[n]].name == n;
    }
  }

  /** Whether a run is exact or refused can be told from the store, the slug and the catalog beforehand. */
  lemma EntriesDecide(db: Db, slug: string, spec: CatalogSpec, managedBy: Option<string>, trace: CatalogTrace)
    requires Valid(db) && CatalogRows(db, slug, spec, managedBy, trace)
    ensures Compatible(db.rolePermissions, CatalogWants(spec, trace)) <==> EntriesAgree(db, slug, spec)
    ensures InsertedOnce(db.rolePermissions, CatalogWants(spec, trace)) <==> !EntriesClash(db, slug, spec)
  {
    WantsMeanEntries(db, slug, spec, managedBy, trace);
    NamedWantsAgree(db, slug, spec, CatalogWants(spec, trace), trace.index);
    NamedWantsClash(db, slug, spec, CatalogWants(spec, trace), trace.index);
  }

  lemma WantsMeanEntries(db: Db, slug: string, spec: CatalogSpec, managedBy: Option<string>, trace: CatalogTrace)
    requires Below(db.applications, db.next) && UniqueApplicationSlugs(db.applications) && RoleKeys(db)
    requires PermissionLinksIsolated(db.roles, db.permissions, db.rolePermissions)
    requires CatalogRows(db, slug, spec, managedBy, trace)
    ensures WantsMean(db, slug, spec, CatalogWants(spec, trace), trace.index)
  {
    forall role, permission | role in trace.roleIndex && permission in trace.index
      ensures (trace.roleIndex[role], trace.index[permission]) in db.rolePermissions
              <==> AlreadyLinked(db, slug, role, permission)
    {
      LinkedBefore(db, slug, spec, managedBy, trace, role, permission);
    }
    WantsMeanLinks(db, slug, spec, trace.rows.roles, trace.rows.permissions, trace.application, trace.roleIndex, trace.index);
  }

  lemma WantsMeanLinks(db: Db, slug: string, spec: CatalogSpec, roles: map<Id, Role>, permissions: map<Id, Permission>,
                       application: Id, roleIndex: map<string, Id>, index: map<string, Id>)
    requires RoleNames(spec.roles) <= roleIndex.Keys && Listed(spec.permissions) <= index.Keys && CatalogWellFormed(spec)
    requires RolesIndexed(roles, application, roleIndex) && Indexed(permissions, application, index)
    requires forall role, permission | role in roleIndex && permission in index
               :: (roleIndex[role], index[permission]) in db.rolePermissions <==> AlreadyLinked(db, slug, role, permission)
    ensures WantsMean(db, slug, spec, WantsOf(spec.roles, roleIndex, index), index)
  {
    WantsByName(roles, permissions, application, spec.roles, roleIndex, index);
  }

  /** The wants say by id what the entries say by name. */
  ghost predicate WantsMean(db: Db, slug: string, spec: CatalogSpec, wants: seq<RoleWant>, index: map<string, Id>) {
    && |wants| == |spec.roles|
    && (forall i, n :: 0 <= i < |wants| && n in spec.roles[i].permissions ==> n in index)
    && (forall i | 0 <= i < |wants| :: wants[i].ids == set n | n in spec.roles[i].permissions && n in index :: index[n])
    && (forall i, j | 0 <= i < |wants| && 0 <= j < |wants| :: wants[i].role == wants[j].role <==> spec.roles[i].name == spec.roles[j].name)
    && (forall i, n | 0 <= i < |wants| && n in index :: index[n] in wants[i].ids <==> n in spec.roles[i].permissions)
    && (forall i, n | 0 <= i < |wants| && n in spec.roles[i].permissions && n in index
          :: (wants[i].role, index[n]) in db.rolePermissions <==> AlreadyLinked(db, slug, spec.roles[i].name, n))
  }

  lemma NamedWantsAgree(db: Db, slug: string, spec: CatalogSpec, wants: seq<RoleWant>, index: map<string, Id>)
    requires WantsMean(db, slug, spec, wants, index)
    ensures Compatible(db.rolePermissions, wants) <==> EntriesAgree(db, slug, spec)
  {
    forall i, j | 0 <= i < j < |wants|
      ensures wants[i].ids == wants[j].ids <==> Listed(spec.roles[i].permissions) == Listed(spec.roles[j].permissions)
    {
      SameListed(spec, wants, index, i, j);
    }
    forall i | 0 <= i < |wants|
      ensures wants[i].ids <= Linked(db.rolePermissions, wants[i].role)
              <==> forall n :: n in spec.roles[i].permissions ==> AlreadyLinked(db, slug, spec.roles[i].name, n)
    {
      AllLinked(db, slug, spec, wants, index, i);
    }
  }

  lemma SameListed(spec: CatalogSpec, wants: seq<RoleWant>, index: map<string, Id>, i: nat, j: nat)
    requires i < |wants| == |spec.roles| && j < |wants|
    requires forall k, n :: 0 <= k < |wants| && n in spec.roles[k].permissions ==> n in index
    requires forall k | 0 <= k < |wants| :: wants[k].ids == set n | n in spec.roles[k].permissions && n in index :: index[n]
    requires forall k, n | 0 <= k < |wants| && n in index :: index[n] in wants[k].ids <==> n in spec.roles[k].permissions
    ensures wants[i].ids == wants[j].ids <==> Listed(spec.roles[i].permissions) == Listed(spec.roles[j].permissions)
  {
    if wants[i].ids == wants[j].ids {
      forall n ensures n in Listed(spec.roles[i].permissions) <==> n in Listed(spec.roles[j].permissions) {
        if n in index {
          assert index[n] in wants[i].ids <==> index[n] in wants[j].ids;
        }
      }
    }
    if Listed(spec.roles[i].permissions) == Listed(spec.roles[j].permissions) {
      forall n ensures n in spec.roles[i].permissions <==> n in spec.roles[j].permissions {
        assert n in Listed(spec.roles[i].permissions) <==> n in Listed(spec.roles[j].permissions);
      }
    }
  }

  lemma AllLinked(db: Db, slug: string, spec: CatalogSpec, wants: seq<RoleWant>, index: map<string, Id>, i: nat)
    requires WantsMean(db, slug, spec, wants, index) && i < |wants|
    ensures wants[i].ids <= Linked(db.rolePermissions, wants[i].role)
            <==> forall n :: n in spec.roles[i].permissions ==> AlreadyLinked(db, slug, spec.roles[i].name, n)
  {
    if wants[i].ids <= Linked(db.rolePermissions, wants[i].role) {
      forall n | n in spec.roles[i].permissions ensures AlreadyLinked(db, slug, spec.roles[i].name, n) {
        assert index[n] in wants[i].ids;
      }
    }
  }

  lemma NamedWantsClash(db: Db, slug: string, spec: CatalogSpec, wants: seq<RoleWant>, index: map<string, Id>)
    requires WantsMean(db, slug, spec, wants, index)
    ensures InsertedOnce(db.rolePermissions, wants) <==> !EntriesClash(db, slug, spec)
  {
    if InsertedOnce(db.rolePermissions, wants) {
      forall i: nat, j: nat, n | ListedTwice(spec.roles, i, j, n) ensures AlreadyLinked(db, slug, spec.roles[i].name, n) {
        assert index[n] in wants[i].ids && index[n] in wants[j].ids;
      }
    }
    if !EntriesClash(db, slug, spec) {
      forall i, j, p | && 0 <= i < j < |wants| && wants[i].role == wants[j].role && p in wants[i].ids && p in wants[j].ids
        ensures (wants[i].role, p) in db.rolePermissions
      {
        var n :| n in spec.roles[i].permissions && n in index && index[n] == p;
        assert ListedTwice(spec.roles, i, j, n);
      }
    }
  }

  /** With distinct role names no two entries meet. */
  lemma DistinctEntriesAgree(db: Db, slug: string, spec: CatalogSpec)
    requires DistinctRoleNames(spec.roles)
    ensures EntriesAgree(db, slug, spec) && !EntriesClash(db, slug, spec)
  {
  }

  /** Naming a new role twice with the same permission: refused, although the catalog is well-formed. */
  lemma RepeatedRoleIsRefused()
    ensures var role := DefaultRole("reader", ["document.read"]);
            var spec := CatalogSpec("Documents", ["document.read"], [role, role]);
            Valid(EMPTY) && CatalogWellFormed(spec) && EntriesClash(EMPTY, "documents", spec)
  {
    var role := DefaultRole("reader", ["document.read"]);
    var roles := [role, role];
    var n := "document.read";
    assert ListedTwice(roles, 0, 1, n);
    assert !AlreadyLinked(EMPTY, "documents", roles[0].name, n);
    assert n[8] == '.';
  }

  /** Naming it twice with different permissions: accepted, but neither entry is met. */
  lemma RepeatedRoleIsMerged()
    ensures var spec := CatalogSpec("Documents", ["document.read", "document.write"],
                                    [DefaultRole("editor", ["document.read"]), DefaultRole("editor", ["document.write"])]);
            CatalogWellFormed(spec) && !EntriesClash(EMPTY, "documents", spec) && !EntriesAgree(EMPTY, "documents", spec)
  {
    var roles := [DefaultRole("editor", ["document.read"]), DefaultRole("editor", ["document.write"])];
    var read, write := "document.read", "document.write";
    assert read[8] == '.' && write[8] == '.' && read[9] != write[9];
    assert roles[0].name == roles[1].name && read in roles[0].permissions;
    assert !AlreadyLinked(EMPTY, "documents", roles[0].name, read);
  }

  // ---- What a successful run means ----

  /** The application's active permissions are exactly the listed ones. */
  lemma ActiveAreListed(db: Db, db': Db, slug: string, spec: CatalogSpec, managedBy: Option<string>, trace: CatalogTrace,
                        name: string)
    requires CatalogApplied(db, db', slug, spec, managedBy, trace)
    ensures (Some(trace.application), name) in ActiveOf(db'.permissions) <==> name in spec.permissions
  {
    SettledAreListed(db.permissions, db'.permissions, trace.application, Listed(spec.permissions), trace.index, name);
  }

  lemma SettledAreListed(before: map<Id, Permission>, after: map<Id, Permission>, application: Id, listed: set<string>,
                         index: map<string, Id>, name: string)
    requires PermissionsSettled(before, after, application, listed, index)
    ensures (Some(application), name) in ActiveOf(after) <==> name in listed
  {
  }

  /** Active permissions of other applications and of the platform are as before. */
  lemma OthersKeepPermissions(before: map<Id, Permission>, after: map<Id, Permission>, application: Id, listed: set<string>,
                              index: map<string, Id>, other: Option<Id>, name: string)
    requires PermissionsSettled(before, after, application, listed, index)
    requires other != Some(application)
    ensures (other, name) in ActiveOf(after) <==> (other, name) in ActiveOf(before)
  {
  }

  /** Role and permission rows that the entries of the catalog are about. */
  ghost predicate WantsNamed(roles: map<Id, Role>, permissions: map<Id, Permission>, application: Id, spec: CatalogSpec,
                             wants: seq<RoleWant>)
  {
    && |wants| == |spec.roles|
    && (forall i | 0 <= i < |wants|
          :: wants[i].role in roles && roles[wants[i].role] == Role(spec.roles[i].name, None, Some(application), None))
    && (forall i, p | 0 <= i < |wants| && p in wants[i].ids
          :: p in permissions && permissions[p].application == Some(application))
    && (forall i | 0 <= i < |wants| :: PermissionNames(permissions, wants[i].ids) == Listed(spec.roles[i].permissions))
  }

  /** What the links of a successful run rest on. */
  ghost predicate CatalogShape(db: Db, db': Db, application: Id, spec: CatalogSpec, wants: seq<RoleWant>) {
    && (forall r :: r in db.roles ==> r in db'.roles && db'.roles[r] == db.roles[r])
    && (forall p :: p in db.permissions ==>
          && p in db'.permissions && db'.permissions[p].name == db.permissions[p].name
          && db'.permissions[p].application == db.permissions[p].application)
    && WantsNamed(db'.roles, db'.permissions, application, spec, wants)
    && LinksMerged(db.rolePermissions, db'.rolePermissions, wants)
  }

  lemma CatalogIsShaped(db: Db, db': Db, slug: string, spec: CatalogSpec, managedBy: Option<string>, trace: CatalogTrace)
    requires CatalogApplied(db, db', slug, spec, managedBy, trace)
    ensures CatalogShape(db, db', trace.application, spec, CatalogWants(spec, trace))
  {
    SettledKeepsNames(db.permissions, db'.permissions, trace.application, Listed(spec.permissions), trace.index);
    WantedRows(db'.roles, db'.permissions, trace.application, spec, trace.roleIndex, trace.index);
  }

  lemma SettledKeepsNames(before: map<Id, Permission>, after: map<Id, Permission>, application: Id, listed: set<string>,
                          index: map<string, Id>)
    requires PermissionsSettled(before, after, application, listed, index)
    ensures forall p :: p in before ==>
              p in after && after[p].name == before[p].name && after[p].application == before[p].application
    ensures Indexed(after, application, index) && listed <= index.Keys
  {
  }

  lemma WantedRows(roles: map<Id, Role>, permissions: map<Id, Permission>, application: Id, spec: CatalogSpec,
                   roleIndex: map<string, Id>, index: map<string, Id>)
    requires RolesIndexed(roles, application, roleIndex) && RoleNames(spec.roles) <= roleIndex.Keys
    requires Indexed(permissions, application, index) && Listed(spec.permissions) <= index.Keys && CatalogWellFormed(spec)
    ensures WantsNamed(roles, permissions, application, spec, WantsOf(spec.roles, roleIndex, index))
  {
    forall i | 0 <= i < |spec.roles|
      ensures PermissionNames(permissions, WantsOf(spec.roles, roleIndex, index)[i].ids) == Listed(spec.roles[i].permissions)
    {
      IndexedNames(permissions, application, index, spec.roles[i].permissions);
    }
  }

  /** Each default role carries exactly its listed permissions. */
  lemma DefaultRoleGrants(db: Db, db': Db, slug: string, spec: CatalogSpec, managedBy: Option<string>, trace: CatalogTrace,
                          i: nat)
    requires CatalogApplied(db, db', slug, spec, managedBy, trace)
    requires EntriesAgree(db, slug, spec)
    requires i < |spec.roles|
    ensures spec.roles[i].name in trace.roleIndex
    ensures var r := trace.roleIndex[spec.roles[i].name];
            && r in db'.roles && db'.roles[r] == Role(spec.roles[i].name, None, Some(trace.application), None)
            && PermissionNames(db'.permissions, Linked(db'.rolePermissions, r)) == Listed(spec.roles[i].permissions)
  {
    var wants := CatalogWants(spec, trace);
    CatalogIsShaped(db, db', slug, spec, managedBy, trace);
    ExactAt(db'.rolePermissions, wants, i);
    NamedAt(db'.roles, db'.permissions, trace.application, spec, wants, i);
  }

  lemma ExactAt(links: Links, wants: seq<RoleWant>, i: nat)
    requires Exact(links, wants) && i < |wants|
    ensures Linked(links, wants[i].role) == wants[i].ids
  {
  }

  lemma NamedAt(roles: map<Id, Role>, permissions: map<Id, Permission>, application: Id, spec: CatalogSpec, wants: seq<RoleWant>,
                i: nat)
    requires WantsNamed(roles, permissions, application, spec, wants) && i < |wants|
    ensures wants[i].role in roles && roles[wants[i].role] == Role(spec.roles[i].name, None, Some(application), None)
    ensures PermissionNames(permissions, wants[i].ids) == Listed(spec.roles[i].permissions)
  {
  }

  lemma IndexedNames(permissions: map<Id, Permission>, application: Id, index: map<string, Id>, names: seq<string>)
    requires Indexed(permissions, application, index) && forall n :: n in names ==> n in index
    ensures PermissionNames(permissions, set n | n in names && n in index :: index[n]) == Listed(names)
  {
  }

  /** Whatever roles a user holds, in whatever tenant, nothing outside listed and platform permissions comes out. */
  lemma CatalogBoundsUsers(db: Db, db': Db, slug: string, spec: CatalogSpec, managedBy: Option<string>, trace: CatalogTrace,
                           tenant: Id, user: Id)
    requires CatalogApplied(db, db', slug, spec, managedBy, trace)
    ensures forall n :: n in UserPermissions(db', tenant, trace.application, user) ==>
              n in spec.permissions || (None, n) in ActiveOf(db.permissions)
  {
    var application := trace.application;
    forall n | n in UserPermissions(db', tenant, application, user)
      ensures n in spec.permissions || (None, n) in ActiveOf(db.permissions)
    {
      GrantedIsActive(db', EffectiveRoleIds(db'.roles, tenant, UserRoleIds(db', tenant, application, user)), application, n);
      ActiveAreListed(db, db', slug, spec, managedBy, trace, n);
      OthersKeepPermissions(db.permissions, db'.permissions, application, Listed(spec.permissions), trace.index, None, n);
    }
  }

  lemma GrantedIsActive(db: Db, ids: set<Id>, application: Id, n: string)
    requires n in GrantedBy(db, ids, Some(application))
    ensures (Some(application), n) in ActiveOf(db.permissions) || (None, n) in ActiveOf(db.permissions)
  {
    var l :| l in db.rolePermissions && l.0 in ids && Grantable(db, l.1, Some(application)) && db.permissions[l.1].name == n;
    assert (db.permissions[l.1].application, n) in ActiveOf(db.permissions);
  }

  /** An agent's links stay inside its application, so it is bounded by the listed permissions alone. */
  lemma CatalogBoundsAgents(db: Db, db': Db, slug: string, spec: CatalogSpec, managedBy: Option<string>, trace: CatalogTrace,
                            tenant: Id, agent: Id)
    requires Valid(db) && CatalogApplied(db, db', slug, spec, managedBy, trace)
    ensures forall n :: n in AgentPermissions(db', tenant, trace.application, agent) ==> n in spec.permissions
  {
    CatalogStaysValid(db, db', slug, spec, managedBy, trace);
    forall n | n in AgentPermissions(db', tenant, trace.application, agent) ensures n in spec.permissions {
      AgentResolutionIsByName(db', tenant, trace.application, agent, n);
      ActiveAreListed(db, db', slug, spec, managedBy, trace, n);
    }
  }

  /** An application that exists keeps its manager and its status; a new one gets the caller as manager. */
  lemma ManagerKept(db: Db, db': Db, slug: string, spec: CatalogSpec, managedBy: Option<string>, trace: CatalogTrace)
    requires Below(db.applications, db.next) && CatalogApplied(db, db', slug, spec, managedBy, trace)
    ensures trace.application in db'.applications
    ensures var row := db'.applications[trace.application];
            && row.slug == slug && row.name == spec.name
            && row.managedBy == (if trace.application in db.applications then db.applications[trace.application].managedBy
                                 else managedBy)
            && row.status == (if trace.application in db.applications then db.applications[trace.application].status else "active")
    ensures trace.application in db.applications <==> exists a :: a in db.applications && db.applications[a].slug == slug
    ensures forall a :: a in db.applications && a != trace.application ==>
              a in db'.applications && db'.applications[a] == db.applications[a]
  {
    EnsuredApplicationKept(db, db'.applications, trace.mark, slug, spec.name, managedBy, trace.application);
  }

  lemma EnsuredApplicationKept(db: Db, applications: map<Id, Application>, next: Id, slug: string, name: string,
                               managedBy: Option<string>, application: Id)
    requires Below(db.applications, db.next)
    requires ApplicationEnsured(db, applications, next, slug, name, managedBy, application)
    ensures application in applications
    ensures var row := applications[application];
            && row.slug == slug && row.name == name
            && row.managedBy == (if application in db.applications then db.applications[application].managedBy else managedBy)
            && row.status == (if application in db.applications then db.applications[application].status else "active")
    ensures application in db.applications <==> exists a :: a in db.applications && db.applications[a].slug == slug
    ensures forall a :: a in db.applications && a != application ==> a in applications && applications[a] == db.applications[a]
  {
  }

  // ---- Validity ----

  lemma CatalogStaysValid(db: Db, db': Db, slug: string, spec: CatalogSpec, managedBy: Option<string>, trace: CatalogTrace)
    requires Valid(db) && CatalogApplied(db, db', slug, spec, managedBy, trace)
    ensures Valid(db')
  {
    CatalogKeys(db, slug, spec, managedBy, trace);
    CatalogUnique(db, db', slug, spec, managedBy, trace);
    CatalogIsolated(db, db', slug, spec, managedBy, trace);
  }

  lemma CatalogUnique(db: Db, db': Db, slug: string, spec: CatalogSpec, managedBy: Option<string>, trace: CatalogTrace)
    requires UniqueRows(db) && InternalRoles(db.roles, db.agents) && UniqueApplicationSlugs(trace.rows.applications)
    requires CatalogApplied(db, db', slug, spec, managedBy, trace)
    ensures UniqueRows(db') && InternalRoles(db'.roles, db'.agents)
  {
    SettledPermissionsUnique(db.permissions, db'.permissions, trace.application, Listed(spec.permissions), trace.index);
    EnsuredRolesUnique(db.roles, db'.roles, db.agents, trace.application, RoleNames(spec.roles), trace.roleIndex);
  }

  lemma CatalogIsolated(db: Db, db': Db, slug: string, spec: CatalogSpec, managedBy: Option<string>, trace: CatalogTrace)
    requires Isolated(db) && InternalRoles(db'.roles, db'.agents)
    requires CatalogApplied(db, db', slug, spec, managedBy, trace)
    ensures Isolated(db')
  {
    KeptLinksIsolated(db, db');
    CatalogIsShaped(db, db', slug, spec, managedBy, trace);
    CatalogLinksIsolated(db, db', trace.application, spec, CatalogWants(spec, trace));
  }

  lemma CatalogKeys(db: Db, slug: string, spec: CatalogSpec, managedBy: Option<string>, trace: CatalogTrace)
    requires Fresh(db) && ForeignKeys(db) && UniqueApplicationSlugs(db.applications)
    requires CatalogRows(db, slug, spec, managedBy, trace)
    ensures Fresh(trace.rows) && ForeignKeys(trace.rows) && UniqueApplicationSlugs(trace.rows.applications)
  {
    EnsuredApplications(db, trace.rows.applications, trace.mark, slug, spec.name, managedBy, trace.application);
    assert trace.mark <= trace.mark' <= trace.rows.next;
    CatalogForeignKeys(db, trace.rows, trace.application, Listed(spec.permissions), trace.index, RoleNames(spec.roles),
                       trace.roleIndex);
  }

  lemma EnsuredApplications(db: Db, applications: map<Id, Application>, next: Id, slug: string, name: string,
                            managedBy: Option<string>, application: Id)
    requires Below(db.applications, db.next) && UniqueApplicationSlugs(db.applications)
    requires ApplicationEnsured(db, applications, next, slug, name, managedBy, application)
    ensures Below(applications, next) && UniqueApplicationSlugs(applications)
    ensures applications.Keys == db.applications.Keys + {application} && db.next <= next
  {
  }

  lemma CatalogForeignKeys(db: Db, rows: Db, application: Id, listed: set<string>, index: map<string, Id>,
                           seen: set<string>, roleIndex: map<string, Id>)
    requires ForeignKeys(db)
    requires rows == db.(next := rows.next, applications := rows.applications, permissions := rows.permissions, roles := rows.roles)
    requires rows.applications.Keys == db.applications.Keys + {application}
    requires PermissionsSettled(db.permissions, rows.permissions, application, listed, index)
    requires DefaultsEnsured(db.roles, rows.roles, application, seen, roleIndex)
    ensures ForeignKeys(rows)
  {
  }

  lemma SettledPermissionsUnique(before: map<Id, Permission>, after: map<Id, Permission>, application: Id,
                                 listed: set<string>, index: map<string, Id>)
    requires UniquePermissionNames(before) && PermissionsSettled(before, after, application, listed, index)
    ensures UniquePermissionNames(after)
  {
  }

  lemma EnsuredRolesUnique(before: map<Id, Role>, after: map<Id, Role>, agents: map<Id, Agent>, application: Id,
                           seen: set<string>, index: map<string, Id>)
    requires UniqueRoleNames(before) && InternalRoles(before, agents)
    requires DefaultsEnsured(before, after, application, seen, index)
    ensures UniqueRoleNames(after) && InternalRoles(after, agents)
  {
  }

  lemma KeptLinksIsolated(db: Db, db': Db)
    requires db'.memberships == db.memberships && db'.agents == db.agents
    requires db'.memberRoles == db.memberRoles && db'.agentRoles == db.agentRoles
    requires forall r :: r in db.roles ==> r in db'.roles && db'.roles[r] == db.roles[r]
    requires MemberLinksIsolated(db.memberships, db.roles, db.memberRoles)
    requires AgentLinksIsolated(db.agents, db.roles, db.agentRoles)
    ensures MemberLinksIsolated(db'.memberships, db'.roles, db'.memberRoles)
    ensures AgentLinksIsolated(db'.agents, db'.roles, db'.agentRoles)
  {
  }

  lemma CatalogLinksIsolated(db: Db, db': Db, application: Id, spec: CatalogSpec, wants: seq<RoleWant>)
    requires PermissionLinksIsolated(db.roles, db.permissions, db.rolePermissions)
    requires CatalogShape(db, db', application, spec, wants)
    ensures PermissionLinksIsolated(db'.roles, db'.permissions, db'.rolePermissions)
  {
    forall r, p | (r, p) in db'.rolePermissions
      ensures r in db'.roles && p in db'.permissions && db'.permissions[p].application == db'.roles[r].application
    {
      if (r, p) !in db.rolePermissions {
        assert Wanted(wants, r, p);
      }
    }
  }

  // ---- The catalog by name ----

  function DefaultKeys(application: Id, spec: CatalogSpec): set<RoleKey> {
    set i | 0 <= i < |spec.roles| :: Shared(Some(application), spec.roles[i].name)
  }

  function DefaultGrants(application: Id, spec: CatalogSpec): set<(RoleKey, string)> {
    set i, n | 0 <= i < |spec.roles| && n in spec.roles[i].permissions :: (Shared(Some(application), spec.roles[i].name), n)
  }

  /** Every entry for the role of this key lists the name. */
  predicate InEveryEntry(application: Id, spec: CatalogSpec, g: (RoleKey, string)) {
    forall i :: 0 <= i < |spec.roles| && Shared(Some(application), spec.roles[i].name) == g.0 ==> g.1 in spec.roles[i].permissions
  }

  /**
  The listed permissions are active; a listed role keeps of its grants what all its
  entries list, and gains what any of them lists; nothing else changes.
  */
  function NameApplyCatalog(v: NameView, application: Id, spec: CatalogSpec): NameView {
    v.(roles := v.roles + DefaultKeys(application, spec),
       grants := (set g | g in v.grants && InEveryEntry(application, spec, g)) + (DefaultGrants(application, spec) - v.grants),
       active := (set x | x in v.active && x.0 != Some(application)) + (set n | n in spec.permissions :: (Some(application), n)))
  }

  lemma CatalogActive(before: map<Id, Permission>, after: map<Id, Permission>, application: Id, names: seq<string>,
                      index: map<string, Id>)
    requires PermissionsSettled(before, after, application, Listed(names), index)
    ensures ActiveOf(after)
            == (set x | x in ActiveOf(before) && x.0 != Some(application)) + (set n | n in names :: (Some(application), n))
  {
    forall x ensures x in ActiveOf(after)
                     <==> if x.0 == Some(application) then x.1 in names else x in ActiveOf(before)
    {
      if x.0 == Some(application) {
        SettledAreListed(before, after, application, Listed(names), index, x.1);
      } else {
        OthersKeepPermissions(before, after, application, Listed(names), index, x.0, x.1);
      }
      assert x == (x.0, x.1);
    }
    SplitActive(ActiveOf(before), ActiveOf(after), application, names);
  }

  lemma SplitActive(before: set<(Option<Id>, string)>, after: set<(Option<Id>, string)>, application: Id, names: seq<string>)
    requires forall x :: x in after <==> if x.0 == Some(application) then x.1 in names else x in before
    ensures after == (set x | x in before && x.0 != Some(application)) + (set n | n in names :: (Some(application), n))
  {
    forall x ensures x in (set n | n in names :: (Some(application), n)) <==> x.0 == Some(application) && x.1 in names {
      assert x == (x.0, x.1);
    }
  }

  lemma CatalogRoles(before: map<Id, Role>, after: map<Id, Role>, application: Id, spec: CatalogSpec, roleIndex: map<string, Id>)
    requires DefaultsEnsured(before, after, application, RoleNames(spec.roles), roleIndex)
    ensures KeysOf(after) == KeysOf(before) + DefaultKeys(application, spec)
  {
    forall k | k in KeysOf(before) ensures k in KeysOf(after) {
      var r :| r in before && KeyOf(before[r]) == k;
      assert r in after;
    }
    forall k | k in DefaultKeys(application, spec) ensures k in KeysOf(after) {
      var i :| 0 <= i < |spec.roles| && k == Shared(Some(application), spec.roles[i].name);
      assert spec.roles[i].name in RoleNames(spec.roles);
      assert KeyOf(after[roleIndex[spec.roles[i].name]]) == k;
    }
  }

  /** A link is what the names of its two ends say. */
  lemma LinkedIffGranted(roles: map<Id, Role>, agents: map<Id, Agent>, permissions: map<Id, Permission>, links: Links, r: Id, p: Id)
    requires UniqueRoleNames(roles) && InternalRoles(roles, agents) && UniquePermissionNames(permissions)
    requires PermissionLinksIsolated(roles, permissions, links)
    requires r in roles && p in permissions && permissions[p].application == roles[r].application
    ensures (r, p) in links <==> (KeyOf(roles[r]), permissions[p].name) in GrantsOf(roles, permissions, links)
  {
    if (r, p) in links {
      assert (r, p).0 == r && (r, p).1 == p;
    }
    if (KeyOf(roles[r]), permissions[p].name) in GrantsOf(roles, permissions, links) {
      var l :| l in links && l.0 in roles && l.1 in permissions
               && KeyOf(roles[l.0]) == KeyOf(roles[r]) && permissions[l.1].name == permissions[p].name;
      KeyIsUnique(roles, agents, l.0, r);
      assert (l.0, l.1) == l;
    }
  }

  /** An entry is for this role and lists this permission exactly when it says so by name. */
  lemma EntryByName(roles: map<Id, Role>, agents: map<Id, Agent>, permissions: map<Id, Permission>, application: Id,
                    spec: CatalogSpec, wants: seq<RoleWant>, r: Id, p: Id, i: nat)
    requires UniqueRoleNames(roles) && InternalRoles(roles, agents) && UniquePermissionNames(permissions)
    requires WantsNamed(roles, permissions, application, spec, wants) && i < |wants|
    requires r in roles && p in permissions && permissions[p].application == roles[r].application
    ensures wants[i].role == r <==> KeyOf(roles[r]) == Shared(Some(application), spec.roles[i].name)
    ensures wants[i].role == r ==> (p in wants[i].ids <==> permissions[p].name in spec.roles[i].permissions)
  {
    var names := PermissionNames(permissions, wants[i].ids);
    if KeyOf(roles[r]) == Shared(Some(application), spec.roles[i].name) {
      KeyIsUnique(roles, agents, r, wants[i].role);
    }
    assert names == Listed(spec.roles[i].permissions);
    if p in wants[i].ids {
      assert permissions[p].name in names;
    }
    if wants[i].role == r && permissions[p].name in spec.roles[i].permissions {
      assert permissions[p].name in names;
      var q :| q in wants[i].ids && q in permissions && permissions[q].name == permissions[p].name;
    }
  }

  lemma MergedGrant(roles: map<Id, Role>, agents: map<Id, Agent>, permissions: map<Id, Permission>, before: Links, after: Links,
                    application: Id, spec: CatalogSpec, wants: seq<RoleWant>, r: Id, p: Id)
    requires UniqueRoleNames(roles) && InternalRoles(roles, agents) && UniquePermissionNames(permissions)
    requires PermissionLinksIsolated(roles, permissions, before) && PermissionLinksIsolated(roles, permissions, after)
    requires WantsNamed(roles, permissions, application, spec, wants) && LinksMerged(before, after, wants)
    requires r in roles && p in permissions && permissions[p].application == roles[r].application
    ensures var g := (KeyOf(roles[r]), permissions[p].name);
            g in GrantsOf(roles, permissions, after) <==>
              if g in GrantsOf(roles, permissions, before) then InEveryEntry(application, spec, g) else g in DefaultGrants(application, spec)
  {
    var g := (KeyOf(roles[r]), permissions[p].name);
    LinkedIffGranted(roles, agents, permissions, before, r, p);
    LinkedIffGranted(roles, agents, permissions, after, r, p);
    forall i | 0 <= i < |wants|
      ensures wants[i].role == r <==> g.0 == Shared(Some(application), spec.roles[i].name)
      ensures wants[i].role == r ==> (p in wants[i].ids <==> g.1 in spec.roles[i].permissions)
    {
      EntryByName(roles, agents, permissions, application, spec, wants, r, p, i);
    }
    EntriesByName(application, spec, wants, r, p, g);
  }

  lemma EntriesByName(application: Id, spec: CatalogSpec, wants: seq<RoleWant>, r: Id, p: Id, g: (RoleKey, string))
    requires |wants| == |spec.roles|
    requires forall i | 0 <= i < |wants| ::
               && (wants[i].role == r <==> g.0 == Shared(Some(application), spec.roles[i].name))
               && (wants[i].role == r ==> (p in wants[i].ids <==> g.1 in spec.roles[i].permissions))
    ensures InEvery(wants, r, p) <==> InEveryEntry(application, spec, g)
    ensures Wanted(wants, r, p) <==> g in DefaultGrants(application, spec)
  {
    if g in DefaultGrants(application, spec) {
      var i :| 0 <= i < |spec.roles| && g.1 in spec.roles[i].permissions && g == (Shared(Some(application), spec.roles[i].name), g.1);
      assert wants[i].role == r;
    }
    if Wanted(wants, r, p) {
      var i :| 0 <= i < |wants| && wants[i].role == r && p in wants[i].ids;
      assert g == (Shared(Some(application), spec.roles[i].name), g.1);
    }
  }

  /** What is granted or listed is about rows of one application. */
  lemma GrantRows(roles: map<Id, Role>, permissions: map<Id, Permission>, links: Links, application: Id, spec: CatalogSpec,
                  wants: seq<RoleWant>, g: (RoleKey, string)) returns (r: Id, p: Id)
    requires PermissionLinksIsolated(roles, permissions, links) && WantsNamed(roles, permissions, application, spec, wants)
    requires g in GrantsOf(roles, permissions, links) || g in DefaultGrants(application, spec)
    ensures r in roles && p in permissions && permissions[p].application == roles[r].application
    ensures g == (KeyOf(roles[r]), permissions[p].name)
  {
    if g in GrantsOf(roles, permissions, links) {
      var l :| l in links && l.0 in roles && l.1 in permissions && g == (KeyOf(roles[l.0]), permissions[l.1].name);
      assert (l.0, l.1) == l;
      return l.0, l.1;
    }
    var i, n :| 0 <= i < |spec.roles| && n in spec.roles[i].permissions && g == (Shared(Some(application), spec.roles[i].name), n);
    assert n in PermissionNames(permissions, wants[i].ids);
    var q :| q in wants[i].ids && q in permissions && permissions[q].name == n;
    return wants[i].role, q;
  }

  /** Of its grants a listed role keeps what every entry lists, and gains what some entry does. */
  lemma MergedGrants(roles: map<Id, Role>, agents: map<Id, Agent>, permissions: map<Id, Permission>, before: Links, after: Links,
                     application: Id, spec: CatalogSpec, wants: seq<RoleWant>, g: (RoleKey, string))
    requires UniqueRoleNames(roles) && InternalRoles(roles, agents) && UniquePermissionNames(permissions)
    requires PermissionLinksIsolated(roles, permissions, before) && PermissionLinksIsolated(roles, permissions, after)
    requires WantsNamed(roles, permissions, application, spec, wants) && LinksMerged(before, after, wants)
    ensures g in GrantsOf(roles, permissions, after) <==>
              if g in GrantsOf(roles, permissions, before) then InEveryEntry(application, spec, g) else g in DefaultGrants(application, spec)
  {
    if g in GrantsOf(roles, permissions, after) {
      var r, p := GrantRows(roles, permissions, after, application, spec, wants, g);
      MergedGrant(roles, agents, permissions, before, after, application, spec, wants, r, p);
    } else if g in GrantsOf(roles, permissions, before) || g in DefaultGrants(application, spec) {
      var r, p := GrantRows(roles, permissions, before, application, spec, wants, g);
      MergedGrant(roles, agents, permissions, before, after, application, spec, wants, r, p);
    }
  }

  /** The links of before, read against the rows of after, grant what they did. */
  lemma OldLinksGrantAlike(db: Db, db': Db, application: Id, spec: CatalogSpec, wants: seq<RoleWant>)
    requires PermissionLinksIsolated(db.roles, db.permissions, db.rolePermissions)
    requires CatalogShape(db, db', application, spec, wants)
    ensures PermissionLinksIsolated(db'.roles, db'.permissions, db.rolePermissions)
    ensures GrantsOf(db'.roles, db'.permissions, db.rolePermissions) == GrantsOf(db.roles, db.permissions, db.rolePermissions)
  {
    forall g ensures g in GrantsOf(db'.roles, db'.permissions, db.rolePermissions)
                     <==> g in GrantsOf(db.roles, db.permissions, db.rolePermissions)
    {
      GrantsElsewhere(db.roles, db'.roles, db.permissions, db'.permissions, db.rolePermissions, db.rolePermissions, g);
    }
  }

  /** What an accepted catalog does to the names, whether or not its entries agree. */
  lemma CatalogByName(db: Db, db': Db, slug: string, spec: CatalogSpec, managedBy: Option<string>, trace: CatalogTrace)
    requires Valid(db) && CatalogApplied(db, db', slug, spec, managedBy, trace)
    ensures View(db') == NameApplyCatalog(View(db), trace.application, spec)
  {
    HoldersKept(db, db');
    CatalogDefinitions(db, db', slug, spec, managedBy, trace);
    CatalogStaysValid(db, db', slug, spec, managedBy, trace);
    CatalogIsShaped(db, db', slug, spec, managedBy, trace);
    CatalogGrants(db, db', trace.application, spec, CatalogWants(spec, trace));
  }

  lemma CatalogDefinitions(db: Db, db': Db, slug: string, spec: CatalogSpec, managedBy: Option<string>, trace: CatalogTrace)
    requires CatalogApplied(db, db', slug, spec, managedBy, trace)
    ensures KeysOf(db'.roles) == NameApplyCatalog(View(db), trace.application, spec).roles
    ensures ActiveOf(db'.permissions) == NameApplyCatalog(View(db), trace.application, spec).active
  {
    CatalogActive(db.permissions, db'.permissions, trace.application, spec.permissions, trace.index);
    CatalogRoles(db.roles, db'.roles, trace.application, spec, trace.roleIndex);
  }

  lemma CatalogGrants(db: Db, db': Db, application: Id, spec: CatalogSpec, wants: seq<RoleWant>)
    requires UniqueRoleNames(db'.roles) && InternalRoles(db'.roles, db'.agents) && UniquePermissionNames(db'.permissions)
    requires PermissionLinksIsolated(db.roles, db.permissions, db.rolePermissions)
    requires PermissionLinksIsolated(db'.roles, db'.permissions, db'.rolePermissions)
    requires CatalogShape(db, db', application, spec, wants)
    ensures GrantsOf(db'.roles, db'.permissions, db'.rolePermissions)
            == (set g | g in GrantsOf(db.roles, db.permissions, db.rolePermissions) && InEveryEntry(application, spec, g))
               + (DefaultGrants(application, spec) - GrantsOf(db.roles, db.permissions, db.rolePermissions))
  {
    OldLinksGrantAlike(db, db', application, spec, wants);
    forall g ensures g in GrantsOf(db'.roles, db'.permissions, db'.rolePermissions) <==>
        if g in GrantsOf(db.roles, db.permissions, db.rolePermissions) then InEveryEntry(application, spec, g)
        else g in DefaultGrants(application, spec)
    {
      MergedGrants(db'.roles, db'.agents, db'.permissions, db.rolePermissions, db'.rolePermissions, application, spec, wants, g);
    }
  }

  /** A permission that some entry for a role lists and some other does not comes and goes: every run turns it around. */
  lemma UnevenGrantsToggle(v: NameView, application: Id, spec: CatalogSpec, g: (RoleKey, string))
    requires g in DefaultGrants(application, spec) && !InEveryEntry(application, spec, g)
    ensures g in NameApplyCatalog(v, application, spec).grants <==> g !in v.grants
  {
  }

  // ---- Applying the same catalog again ----

  lemma SamePermissionRows(before: map<Id, Permission>, after: map<Id, Permission>, again: map<Id, Permission>, application: Id,
                           listed: set<string>, index: map<string, Id>, index': map<string, Id>)
    requires PermissionsSettled(before, after, application, listed, index)
    requires PermissionsSettled(after, again, application, listed, index')
    ensures again == after && index' == index
  {
  }

  lemma SameRoleRows(before: map<Id, Role>, after: map<Id, Role>, again: map<Id, Role>, application: Id, seen: set<string>,
                     index: map<string, Id>, index': map<string, Id>)
    requires DefaultsEnsured(before, after, application, seen, index)
    requires DefaultsEnsured(after, again, application, seen, index')
    ensures again == after && index' == index
  {
  }

  lemma SameApplicationRow(db: Db, db': Db, applications: map<Id, Application>, next: Id, next': Id, slug: string, name: string,
                           managedBy: Option<string>, managedBy': Option<string>, application: Id, application': Id)
    requires UniqueApplicationSlugs(db.applications)
    requires ApplicationEnsured(db, db'.applications, next, slug, name, managedBy, application)
    requires ApplicationEnsured(db', applications, next', slug, name, managedBy', application')
    ensures application' == application && applications == db'.applications && next' == db'.next
  {
    assert db'.applications[application].slug == slug;
    assert UniqueApplicationSlugs(db'.applications);
  }

  /** The rows of a second run, by whatever manager, are those of the first. */
  lemma SameCatalogRows(db: Db, db': Db, slug: string, spec: CatalogSpec, managedBy: Option<string>, trace: CatalogTrace,
                        managedBy': Option<string>, again: CatalogTrace)
    requires UniqueApplicationSlugs(db.applications)
    requires CatalogApplied(db, db', slug, spec, managedBy, trace)
    requires CatalogRows(db', slug, spec, managedBy', again)
    ensures again.application == trace.application && again.rows == db' && CatalogWants(spec, again) == CatalogWants(spec, trace)
  {
    SameApplicationRow(db, db', again.rows.applications, trace.mark, again.mark, slug, spec.name, managedBy, managedBy',
                       trace.application, again.application);
    SamePermissionRows(db.permissions, db'.permissions, again.rows.permissions, trace.application, Listed(spec.permissions),
                       trace.index, again.index);
    SameRoleRows(db.roles, db'.roles, again.rows.roles, trace.application, RoleNames(spec.roles), trace.roleIndex,
                 again.roleIndex);
    NothingDrawn(db'.permissions.Keys, again.mark, again.mark', |again.rows.permissions.Keys - db'.permissions.Keys|);
    NothingDrawn(db'.roles.Keys, again.mark', again.rows.next, |again.rows.roles.Keys - db'.roles.Keys|);
  }

  lemma NothingDrawn(keys: set<Id>, first: Id, next: Id, created: nat)
    requires Drawn(keys, keys, first, next, created)
    ensures next == first
  {
    assert keys - keys == {};
  }

  /** A catalog whose entries agree is not refused the second time, whoever applies it. */
  lemma SecondCatalogSucceeds(db: Db, db': Db, slug: string, spec: CatalogSpec, managedBy: Option<string>, trace: CatalogTrace)
    requires CatalogApplied(db, db', slug, spec, managedBy, trace)
    requires EntriesAgree(db, slug, spec)
    ensures EntriesAgree(db', slug, spec) && !EntriesClash(db', slug, spec)
  {
    CatalogIsShaped(db, db', slug, spec, managedBy, trace);
    assert db'.applications[trace.application].slug == slug;
    LinkedAfter(db, db', trace.application, slug, spec, CatalogWants(spec, trace));
    SameSets(db, slug, spec);
  }

  /** Once every entry of a catalog is linked, its entries agree if they list the same. */
  lemma SameSets(db: Db, slug: string, spec: CatalogSpec)
    requires EntriesAgree(db, slug, spec)
    ensures forall i, j | 0 <= i < j < |spec.roles| && spec.roles[i].name == spec.roles[j].name
              :: Listed(spec.roles[i].permissions) == Listed(spec.roles[j].permissions)
  {
  }

  lemma LinkedAfter(db: Db, db': Db, application: Id, slug: string, spec: CatalogSpec, wants: seq<RoleWant>)
    requires CatalogShape(db, db', application, spec, wants) && Exact(db'.rolePermissions, wants)
    requires application in db'.applications && db'.applications[application].slug == slug
    ensures forall i, n :: 0 <= i < |spec.roles| && n in spec.roles[i].permissions ==>
              AlreadyLinked(db', slug, spec.roles[i].name, n)
  {
    forall i, n | 0 <= i < |spec.roles| && n in spec.roles[i].permissions ensures AlreadyLinked(db', slug, spec.roles[i].name, n) {
      assert n in PermissionNames(db'.permissions, wants[i].ids);
      var p :| p in wants[i].ids && p in db'.permissions && db'.permissions[p].name == n;
      assert p in Linked(db'.rolePermissions, wants[i].role);
      var l := (wants[i].role, p);
      assert l.0 in db'.roles && l.1 in db'.permissions && NamedRole(db'.roles[l.0], None, Some(application), spec.roles[i].name);
    }
  }

  /**
  An accepted second run counts nothing as created or deprecated, whatever its entries.
  It changes nothing exactly when the entries agreed before the first run.
  */
  lemma SecondCatalogIsIdleIff(db: Db, db': Db, db'': Db, slug: string, spec: CatalogSpec, managedBy: Option<string>,
                               trace: CatalogTrace, managedBy': Option<string>, again: CatalogTrace, counts: CatalogResult)
    requires UniqueApplicationSlugs(db.applications)
    requires CatalogApplied(db, db', slug, spec, managedBy, trace)
    requires CatalogApplied(db', db'', slug, spec, managedBy', again) && CatalogCounted(db', db'', spec, counts)
    ensures db'' == db' <==> EntriesAgree(db, slug, spec)
    ensures counts.created == 0 && counts.deprecated == 0 && counts.rolesCreated == 0 && counts.rolesUpdated == |spec.roles|
  {
    SameCatalogRows(db, db', slug, spec, managedBy, trace, managedBy', again);
    SettledIffExact(db'.rolePermissions, db''.rolePermissions, CatalogWants(spec, trace));
    assert db'' == db'.(rolePermissions := db''.rolePermissions);
    NothingNew(db', db'', spec, counts);
  }

  /** Every entry for the role lists the permission. */
  predicate ListedByAll(roles: seq<DefaultRole>, role: string, n: string) {
    forall k :: 0 <= k < |roles| && roles[k].name == role ==> n in roles[k].permissions
  }

  /** Some permission is listed by two entries for a role, but not by all of them. */
  ghost predicate PartlyRepeated(spec: CatalogSpec) {
    exists i: nat, j: nat, n :: ListedTwice(spec.roles, i, j, n) && !ListedByAll(spec.roles, spec.roles[i].name, n)
  }

  /** What the listed roles already carry of what is listed for them. */
  ghost function Carried(db: Db, slug: string, spec: CatalogSpec): set<(string, string)> {
    set i, n | 0 <= i < |spec.roles| && n in spec.roles[i].permissions && AlreadyLinked(db, slug, spec.roles[i].name, n)
      :: (spec.roles[i].name, n)
  }

  ghost predicate ClashBeyond(roles: seq<DefaultRole>, carried: set<(string, string)>) {
    exists i: nat, j: nat, n :: ListedTwice(roles, i, j, n) && (roles[i].name, n) !in carried
  }

  lemma ClashIffBeyond(db: Db, slug: string, spec: CatalogSpec)
    ensures EntriesClash(db, slug, spec) <==> ClashBeyond(spec.roles, Carried(db, slug, spec))
  {
    var carried := Carried(db, slug, spec);
    forall i, n | 0 <= i < |spec.roles| && n in spec.roles[i].permissions
      ensures (spec.roles[i].name, n) in carried <==> AlreadyLinked(db, slug, spec.roles[i].name, n)
    {
    }
  }

  /** If only what all list stays of what was carried, and the first run was accepted, the second clashes exactly then. */
  lemma ClashAgainIff(spec: CatalogSpec, before: set<(string, string)>, after: set<(string, string)>)
    requires !ClashBeyond(spec.roles, before)
    requires forall x :: x in before ==> (x in after <==> ListedByAll(spec.roles, x.0, x.1))
    ensures ClashBeyond(spec.roles, after) <==> PartlyRepeated(spec)
  {
  }

  /** After an accepted run the catalog is refused exactly when some permission is listed for a role twice, but not always. */
  lemma SecondCatalogIsRefusedIff(db: Db, db': Db, slug: string, spec: CatalogSpec, managedBy: Option<string>, trace: CatalogTrace)
    requires Valid(db) && CatalogApplied(db, db', slug, spec, managedBy, trace) && !EntriesClash(db, slug, spec)
    ensures EntriesClash(db', slug, spec) <==> PartlyRepeated(spec)
  {
    ClashIffBeyond(db, slug, spec);
    ClashIffBeyond(db', slug, spec);
    CommonStay(db, db', slug, spec, managedBy, trace);
    ClashAgainIff(spec, Carried(db, slug, spec), Carried(db', slug, spec));
  }

  lemma CommonStay(db: Db, db': Db, slug: string, spec: CatalogSpec, managedBy: Option<string>, trace: CatalogTrace)
    requires Valid(db) && CatalogApplied(db, db', slug, spec, managedBy, trace)
    ensures forall x :: x in Carried(db, slug, spec) ==> (x in Carried(db', slug, spec) <==> ListedByAll(spec.roles, x.0, x.1))
  {
    if exists a :: a in db.applications && db.applications[a].slug == slug {
      CatalogByName(db, db', slug, spec, managedBy, trace);
      CatalogKeys(db, slug, spec, managedBy, trace);
      EnsuredApplicationKept(db, db'.applications, trace.mark, slug, spec.name, managedBy, trace.application);
      CarriedByName(db, db', slug, spec, trace.application);
    } else {
      NothingCarried(db, slug, spec);
    }
  }

  lemma NothingCarried(db: Db, slug: string, spec: CatalogSpec)
    requires forall a :: a in db.applications ==> db.applications[a].slug != slug
    ensures Carried(db, slug, spec) == {}
  {
  }

  lemma CarriedByName(db: Db, db': Db, slug: string, spec: CatalogSpec, application: Id)
    requires UniqueApplicationSlugs(db.applications) && application in db.applications && db.applications[application].slug == slug
    requires UniqueApplicationSlugs(db'.applications) && application in db'.applications && db'.applications[application].slug == slug
    requires View(db') == NameApplyCatalog(View(db), application, spec)
    ensures forall x :: x in Carried(db, slug, spec) ==> (x in Carried(db', slug, spec) <==> ListedByAll(spec.roles, x.0, x.1))
  {
    forall i, n | 0 <= i < |spec.roles| && n in spec.roles[i].permissions && AlreadyLinked(db, slug, spec.roles[i].name, n)
      ensures AlreadyLinked(db', slug, spec.roles[i].name, n) <==> ListedByAll(spec.roles, spec.roles[i].name, n)
    {
      LinkedIffNamed(db, slug, spec.roles[i].name, n, application);
      LinkedIffNamed(db', slug, spec.roles[i].name, n, application);
      EveryEntryIsAll(application, spec, (spec.roles[i].name, n));
    }
  }

  lemma EveryEntryIsAll(application: Id, spec: CatalogSpec, x: (string, string))
    ensures InEveryEntry(application, spec, (Shared(Some(application), x.0), x.1)) <==> ListedByAll(spec.roles, x.0, x.1)
  {
  }

  /** The name-level reading of what a default role already carries. */
  lemma LinkedIffNamed(db: Db, slug: string, role: string, permission: string, application: Id)
    requires UniqueApplicationSlugs(db.applications) && application in db.applications && db.applications[application].slug == slug
    ensures AlreadyLinked(db, slug, role, permission) <==> (Shared(Some(application), role), permission) in View(db).grants
  {
  }

  lemma NothingNew(db: Db, db': Db, spec: CatalogSpec, counts: CatalogResult)
    requires CatalogCounted(db, db', spec, counts) && db' == db.(rolePermissions := db'.rolePermissions)
    ensures counts.created == 0 && counts.deprecated == 0 && counts.rolesCreated == 0 && counts.rolesUpdated == |spec.roles|
  {
    assert db.permissions.Keys - db.permissions.Keys == {};
    assert NewlyDeprecated(db.permissions, db.permissions) == {};
    assert db.roles.Keys - db.roles.Keys == {};
  }
}
