/**
Creating the rows that roles are about: tenants, applications, users and permissions.
*/
module Registry {
  import opened Common
  import opened Rows
  import opened Resolution
  import opened Assignments

  // ---- Operations ----

  function CreateTenant(db: Db, slug: string, name: string, status: string): Result<Db, Refusal> {
    if exists t :: t in db.tenants && db.tenants[t].slug == slug then Err(Integrity)
    else Ok(WithTenant(db, Tenant(slug, name, status)))
  }

  function WithTenant(db: Db, row: Tenant): Db {
    db.(next := db.next + 1, tenants := db.tenants[db.next := row])
  }

  function CreateApplication(db: Db, slug: string, name: string, status: string, managedBy: Option<string>): Result<Db, Refusal> {
    if exists a :: a in db.applications && db.applications[a].slug == slug then Err(Integrity)
    else Ok(db.(next := db.next + 1, applications := db.applications[db.next := Application(slug, name, status, managedBy)]))
  }

  function SetManager(db: Db, application: Id, managedBy: Option<string>): Db {
    if application !in db.applications then db
    else db.(applications := db.applications[application := db.applications[application].(managedBy := managedBy)])
  }

  /** The user behind an external identity, created with it when it is new; a known user's profile is left alone. */
  function UpsertUser(db: Db, userRef: UserRef, displayName: Option<string>, email: Option<string>): Db {
    if userRef in db.identities then db
    else db.(next := db.next + 1, users := db.users[db.next := User(displayName, email, ACTIVE)],
             identities := db.identities[userRef := db.next])
  }

  predicate PermissionTaken(permissions: map<Id, Permission>, application: Option<Id>, name: string) {
    exists p :: p in permissions && permissions[p].application == application && permissions[p].name == name
  }

  /** Insert a permission row. As for roles, the unique constraint does not see an absent application. */
  function CreatePermission(db: Db, name: string, application: Option<Id>): Result<Db, Refusal> {
    if '.' !in name then Err(InvalidName)
    else if application.Some? && (application.value !in db.applications || PermissionTaken(db.permissions, application, name))
    then Err(Integrity)
    else Ok(WithPermission(db, Permission(name, application, false)))
  }

  function WithPermission(db: Db, row: Permission): Db {
    db.(next := db.next + 1, permissions := db.permissions[db.next := row])
  }

  // ---- Validity ----

  lemma CreateTenantValid(db: Db, slug: string, name: string, status: string)
    requires Valid(db)
    ensures var result := CreateTenant(db, slug, name, status); result.Ok? ==> Valid(result.value)
  {
    if CreateTenant(db, slug, name, status).Ok? {
      WithTenantValid(db, Tenant(slug, name, status));
    }
  }

  lemma WithTenantValid(db: Db, row: Tenant)
    requires Valid(db) && forall t :: t in db.tenants ==> db.tenants[t].slug != row.slug
    ensures Valid(WithTenant(db, row))
  {
    var db' := WithTenant(db, row);
    assert Fresh(db') && UniqueRows(db');
    assert ForeignKeys(db');
  }

  lemma CreateApplicationValid(db: Db, slug: string, name: string, status: string, managedBy: Option<string>)
    requires Valid(db)
    ensures var result := CreateApplication(db, slug, name, status, managedBy); result.Ok? ==> Valid(result.value)
  {
    var result := CreateApplication(db, slug, name, status, managedBy);
    if result.Ok? {
      var db' := result.value;
      assert Fresh(db') && UniqueRows(db');
      assert ForeignKeys(db');
    }
  }

  lemma SetManagerValid(db: Db, application: Id, managedBy: Option<string>)
    requires Valid(db)
    ensures Valid(SetManager(db, application, managedBy))
  {
    var db' := SetManager(db, application, managedBy);
    assert db'.applications.Keys == db.applications.Keys;
    assert Fresh(db') && UniqueRows(db');
    assert ForeignKeys(db');
  }

  /** New users keep every identity with a user of its own. */
  lemma UpsertUserValid(db: Db, userRef: UserRef, displayName: Option<string>, email: Option<string>)
    requires Valid(db)
    ensures Valid(UpsertUser(db, userRef, displayName, email))
    ensures userRef in UpsertUser(db, userRef, displayName, email).identities
  {
    if userRef !in db.identities {
      var db' := UpsertUser(db, userRef, displayName, email);
      IdentityAdded(db.users, db.identities, db.next, userRef, User(displayName, email, ACTIVE));
      assert Fresh(db') && UniqueRows(db');
      assert ForeignKeys(db');
    }
  }

  lemma IdentityAdded(users: map<Id, User>, identities: map<UserRef, Id>, next: Id, userRef: UserRef, user: User)
    requires OneIdentityPerUser(identities) && IdentityKeys(identities, users) && next !in users && userRef !in identities
    ensures OneIdentityPerUser(identities[userRef := next]) && IdentityKeys(identities[userRef := next], users[next := user])
  {
  }

  lemma WithPermissionValid(db: Db, row: Permission)
    requires Valid(db) && OptionalKey(row.application, db.applications)
    requires !PermissionTaken(db.permissions, row.application, row.name)
    ensures Valid(WithPermission(db, row))
  {
    var db' := WithPermission(db, row);
    assert Fresh(db') && UniqueRows(db');
    assert ForeignKeys(db');
    assert PermissionLinksIsolated(db'.roles, db'.permissions, db'.rolePermissions);
  }

  /**
  Creating a permission keeps the store valid exactly when its name is free; for a
  platform permission the database accepts it either way.
  */
  lemma CreatePermissionValidity(db: Db, name: string, application: Option<Id>)
    requires Valid(db)
    ensures var result := CreatePermission(db, name, application);
            result.Ok? ==> (Valid(result.value) <==> !PermissionTaken(db.permissions, application, name))
    ensures '.' in name && application.None? ==> CreatePermission(db, name, application).Ok?
  {
    if CreatePermission(db, name, application).Ok? {
      if PermissionTaken(db.permissions, application, name) {
        SecondOfItsPermissionName(db.permissions, db.next, Permission(name, application, false));
      } else {
        WithPermissionValid(db, Permission(name, application, false));
      }
    }
  }

  lemma SecondOfItsPermissionName(permissions: map<Id, Permission>, next: Id, row: Permission)
    requires next !in permissions && PermissionTaken(permissions, row.application, row.name)
    ensures !UniquePermissionNames(permissions[next := row])
  {
    var p :| p in permissions && permissions[p].application == row.application && permissions[p].name == row.name;
    var more := permissions[next := row];
    assert more[p] == permissions[p] && more[next] == row;
  }

  // ---- What is refused ----

  /** A slug is refused exactly when a second row with it would break the unique constraint. */
  lemma SlugRefusedIff(db: Db, slug: string, name: string, status: string, managedBy: Option<string>)
    requires Fresh(db) && UniqueTenantSlugs(db.tenants) && UniqueApplicationSlugs(db.applications)
    ensures CreateTenant(db, slug, name, status).Err? <==> !UniqueTenantSlugs(db.tenants[db.next := Tenant(slug, name, status)])
    ensures CreateApplication(db, slug, name, status, managedBy).Err? <==>
            !UniqueApplicationSlugs(db.applications[db.next := Application(slug, name, status, managedBy)])
  {
    var tenants := db.tenants[db.next := Tenant(slug, name, status)];
    var applications := db.applications[db.next := Application(slug, name, status, managedBy)];
    if t :| t in db.tenants && db.tenants[t].slug == slug {
      assert tenants[t] == db.tenants[t] && tenants[db.next].slug == slug;
    }
    if a :| a in db.applications && db.applications[a].slug == slug {
      assert applications[a] == db.applications[a] && applications[db.next].slug == slug;
    }
  }

  /** A permission needs a name with a dot and, in an application, one that exists and in which the name is free. */
  lemma CreatePermissionRefusedIff(db: Db, name: string, application: Option<Id>)
    requires UniquePermissionNames(db.permissions) && db.next !in db.permissions
    ensures CreatePermission(db, name, application) == Err(InvalidName) <==> forall i :: 0 <= i < |name| ==> name[i] != '.'
    ensures CreatePermission(db, name, application) == Err(Integrity) <==>
            && (exists i :: 0 <= i < |name| && name[i] == '.')
            && application.Some?
            && (|| application.value !in db.applications
                || !UniquePermissionNames(db.permissions[db.next := Permission(name, application, false)]))
    ensures CreatePermission(db, name, application).Err? ==> CreatePermission(db, name, application).error in {InvalidName, Integrity}
  {
    if PermissionTaken(db.permissions, application, name) {
      SecondOfItsPermissionName(db.permissions, db.next, Permission(name, application, false));
    }
  }

  /** A created tenant is one more row with what was given; everything else is as it was. */
  lemma TenantCreated(db: Db, slug: string, name: string, status: string)
    requires Below(db.tenants, db.next) && CreateTenant(db, slug, name, status).Ok?
    ensures var db' := CreateTenant(db, slug, name, status).value;
            && db' == db.(next := db'.next, tenants := db'.tenants)
            && exists t :: t !in db.tenants && t in db'.tenants && db'.tenants == db.tenants[t := Tenant(slug, name, status)]
  {
    assert db.next in CreateTenant(db, slug, name, status).value.tenants;
  }

  /** So is a created application. */
  lemma ApplicationCreated(db: Db, slug: string, name: string, status: string, managedBy: Option<string>)
    requires Below(db.applications, db.next) && CreateApplication(db, slug, name, status, managedBy).Ok?
    ensures var db' := CreateApplication(db, slug, name, status, managedBy).value;
            && db' == db.(next := db'.next, applications := db'.applications)
            && exists a :: a !in db.applications && a in db'.applications
                           && db'.applications == db.applications[a := Application(slug, name, status, managedBy)]
  {
    assert db.next in CreateApplication(db, slug, name, status, managedBy).value.applications;
  }

  /** An identity that leads to a user keeps it, profile and all; one that does not leads to a new active user. */
  lemma UserUpserted(db: Db, userRef: UserRef, displayName: Option<string>, email: Option<string>)
    requires Below(db.users, db.next)
    ensures var db' := UpsertUser(db, userRef, displayName, email);
            && userRef in db'.identities
            && (userRef in db.identities ==> db' == db)
            && (userRef !in db.identities ==>
                  var user := db'.identities[userRef];
                  && user !in db.users && db' == db.(next := db'.next, users := db'.users, identities := db'.identities)
                  && db'.identities == db.identities[userRef := user]
                  && db'.users == db.users[user := User(displayName, email, "active")])
  {
  }

  /** The manager is what it was set to, and nothing else has changed. */
  lemma ManagerIsSet(db: Db, application: Id, managedBy: Option<string>, a: Id)
    requires a in db.applications
    ensures a in SetManager(db, application, managedBy).applications
    ensures SetManager(db, application, managedBy).applications[a]
            == if a == application then db.applications[a].(managedBy := managedBy) else db.applications[a]
    ensures SetManager(db, application, managedBy) == db.(applications := SetManager(db, application, managedBy).applications)
  {
  }

  // ---- By name ----

  /** Tenants, applications, users and masks are no part of what names mean. */
  lemma SameRoleTables(db: Db, db': Db)
    requires db'.memberships == db.memberships && db'.agents == db.agents && db'.roles == db.roles
    requires db'.permissions == db.permissions && db'.memberRoles == db.memberRoles
    requires db'.agentRoles == db.agentRoles && db'.rolePermissions == db.rolePermissions
    ensures View(db') == View(db)
  {
  }

  /** A new permission is active, and nobody holds it yet. */
  lemma CreatePermissionByName(db: Db, name: string, application: Option<Id>)
    requires db.next !in db.permissions && PermissionLinksIsolated(db.roles, db.permissions, db.rolePermissions)
    ensures var result := CreatePermission(db, name, application);
            result.Ok? ==> View(result.value) == View(db).(active := View(db).active + {(application, name)})
  {
    if CreatePermission(db, name, application).Ok? {
      var row := Permission(name, application, false);
      ActiveAdded(db.permissions, db.next, row);
      GrantsKept(db, row);
      SameRoleTables(db, WithPermission(db, row).(permissions := db.permissions));
    }
  }

  lemma ActiveAdded(permissions: map<Id, Permission>, next: Id, row: Permission)
    requires next !in permissions && !row.deprecated
    ensures ActiveOf(permissions[next := row]) == ActiveOf(permissions) + {(row.application, row.name)}
  {
    var more := permissions[next := row];
    assert forall p :: p in permissions ==> p in more && more[p] == permissions[p];
    assert more[next] == row;
  }

  lemma GrantsKept(db: Db, row: Permission)
    requires db.next !in db.permissions && PermissionLinksIsolated(db.roles, db.permissions, db.rolePermissions)
    ensures GrantsOf(db.roles, db.permissions[db.next := row], db.rolePermissions)
            == GrantsOf(db.roles, db.permissions, db.rolePermissions)
  {
    forall l | l in db.rolePermissions ensures l.1 in db.permissions {
      assert (l.0, l.1) == l;
    }
  }
}
