/**
Decisions over the store: references resolved beforehand against the engine's own
reads, and what a decision means in terms of role names and of the last provisioning.
*/
module Decisions {
  import opened Common
  import opened Rows
  import opened Resolution
  import opened Assignments
  import opened Policy
  import opened Engine
  import TenantStates
  import Catalog

  // ---- The store as the engine's repository ----

  ghost function SomeRow(rows: set<Id>): (row: Id)
    ensures rows != {} ==> row in rows
  {
    if rows == {} then 0 else var row :| row in rows; row
  }

  /** Which of several matching rows the database returns first; nothing in the queries decides this. */
  type FirstRow = first: set<Id> -> Id | forall rows :: rows != {} ==> first(rows) in rows ghost witness SomeRow

  function MembershipsOf(db: Db, tenant: Id, application: Option<Id>, user: Id): set<Id> {
    set m | m in db.memberships && db.memberships[m].tenant == tenant && db.memberships[m].user == user
            && db.memberships[m].application == application
  }

  /** The user's membership for the application, else the first tenant-wide one, is active. */
  predicate MembershipLive(db: Db, first: FirstRow, tenant: Id, application: Id, user: Id) {
    var own, wide := MembershipsOf(db, tenant, Some(application), user), MembershipsOf(db, tenant, None, user);
    if own != {} then db.memberships[first(own)].status == ACTIVE
    else wide != {} && db.memberships[first(wide)].status == ACTIVE
  }

  /** The order of rows matters exactly when there are tenant-wide memberships to decide and they differ in being active. */
  lemma FirstRowMattersIff(db: Db, tenant: Id, application: Id, user: Id)
    requires UniqueMemberships(db.memberships)
    ensures var wide := MembershipsOf(db, tenant, None, user);
            (exists f: FirstRow, g: FirstRow ::
               MembershipLive(db, f, tenant, application, user) && !MembershipLive(db, g, tenant, application, user))
            <==>
            && MembershipsOf(db, tenant, Some(application), user) == {}
            && exists i, j :: i in wide && j in wide && db.memberships[i].status == ACTIVE && db.memberships[j].status != ACTIVE
  {
    var own, wide := MembershipsOf(db, tenant, Some(application), user), MembershipsOf(db, tenant, None, user);
    if own == {} && exists i, j :: i in wide && j in wide && db.memberships[i].status == ACTIVE && db.memberships[j].status != ACTIVE {
      var i, j :| i in wide && j in wide && db.memberships[i].status == ACTIVE && db.memberships[j].status != ACTIVE;
      PreferredDecides(db, tenant, application, user, i);
      PreferredDecides(db, tenant, application, user, j);
    }
  }

  /** A membership of the application decides by its own status, whatever tenant-wide ones there are. */
  lemma OwnMembershipDecides(db: Db, first: FirstRow, m: Id)
    requires UniqueMemberships(db.memberships) && m in db.memberships && db.memberships[m].application.Some?
    ensures MembershipLive(db, first, db.memberships[m].tenant, db.memberships[m].application.value, db.memberships[m].user)
            <==> db.memberships[m].status == "active"
  {
    var row := db.memberships[m];
    var own := MembershipsOf(db, row.tenant, row.application, row.user);
    assert m in own && first(own) in own;
  }

  /** Without one, a tenant-wide membership that is the only one does. */
  lemma WideMembershipDecides(db: Db, first: FirstRow, application: Id, m: Id)
    requires m in db.memberships && db.memberships[m].application.None?
    requires forall k | k in db.memberships && db.memberships[k].tenant == db.memberships[m].tenant
                        && db.memberships[k].user == db.memberships[m].user
               :: db.memberships[k].application != Some(application) && (db.memberships[k].application.None? ==> k == m)
    ensures MembershipLive(db, first, db.memberships[m].tenant, application, db.memberships[m].user)
            <==> db.memberships[m].status == "active"
  {
    var row := db.memberships[m];
    assert MembershipsOf(db, row.tenant, Some(application), row.user) == {};
    assert MembershipsOf(db, row.tenant, None, row.user) == {m};
    assert first({m}) in {m};
  }

  /** Somebody live has an active membership there, or an active tenant-wide one and none there. */
  lemma LiveHasMembership(db: Db, first: FirstRow, tenant: Id, application: Id, user: Id)
    requires MembershipLive(db, first, tenant, application, user)
    ensures exists m :: m in db.memberships && db.memberships[m].tenant == tenant && db.memberships[m].user == user
                        && db.memberships[m].status == "active"
                        && (db.memberships[m].application == Some(application) || db.memberships[m].application.None?)
  {
    var own, wide := MembershipsOf(db, tenant, Some(application), user), MembershipsOf(db, tenant, None, user);
    assert own != {} ==> first(own) in own;
    assert wide != {} ==> first(wide) in wide;
  }

  /** An agent is live in its own tenant and application, by its status. */
  lemma AgentDecides(db: Db, tenant: Id, application: Id, agent: Id)
    ensures AgentLive(db, tenant, application, agent) <==>
            && agent in db.agents && db.agents[agent].tenant == tenant && db.agents[agent].application == application
            && db.agents[agent].status == "active"
  {
  }

  lemma PreferredDecides(db: Db, tenant: Id, application: Id, user: Id, row: Id)
    requires MembershipsOf(db, tenant, Some(application), user) == {} && row in MembershipsOf(db, tenant, None, user)
    ensures MembershipLive(db, Preferring(row), tenant, application, user) <==> db.memberships[row].status == ACTIVE
  {
  }

  /** An order in which this row comes first wherever it matches. */
  ghost function Preferring(row: Id): FirstRow {
    (rows: set<Id>) => if row in rows then row else SomeRow(rows)
  }

  predicate AgentLive(db: Db, tenant: Id, application: Id, agent: Id) {
    && agent in db.agents && db.agents[agent].tenant == tenant && db.agents[agent].application == application
    && db.agents[agent].status == ACTIVE
  }

  function MaskOf(db: Db, tenant: Id, application: Id): set<string> {
    if (tenant, application) in db.masks then db.masks[(tenant, application)] else {}
  }

  function RepositoryOf(db: Db, first: FirstRow): Repository {
    Repository(
      (t: Key) => t.Row? && t.id in db.tenants && db.tenants[t.id].status == ACTIVE,
      (a: Key) => a.Row? && a.id in db.applications && db.applications[a.id].status == ACTIVE,
      (t: Key, a: Key, u: Key) => t.Row? && a.Row? && u.Row? && MembershipLive(db, first, t.id, a.id, u.id),
      (t: Key, a: Key, g: Key) => t.Row? && a.Row? && g.Row? && AgentLive(db, t.id, a.id, g.id),
      (t: Key, a: Key, u: Key) => if t.Row? && a.Row? && u.Row? then UserPermissions(db, t.id, a.id, u.id) else {},
      (t: Key, a: Key, g: Key) => if t.Row? && a.Row? && g.Row? then AgentPermissions(db, t.id, a.id, g.id) else {},
      (t: Key, a: Key) => if t.Row? && a.Row? then MaskOf(db, t.id, a.id) else {})
  }

  // ---- References ----

  /** A tenant by id or slug, where parse reads an id; the id wins when both match different rows. */
  ghost function FindTenant(db: Db, parse: string -> Option<Id>, text: string): (found: Option<Id>)
    ensures found.Some? ==>
              found.value in db.tenants && (parse(text) == found || db.tenants[found.value].slug == text)
    ensures found.None? <==>
            forall t :: t in db.tenants ==> parse(text) != Some(t) && db.tenants[t].slug != text
    ensures parse(text).Some? && parse(text).value in db.tenants ==> found == parse(text)
  {
    if parse(text).Some? && parse(text).value in db.tenants then parse(text)
    else if exists t :: t in db.tenants && db.tenants[t].slug == text then
      var t :| t in db.tenants && db.tenants[t].slug == text; Some(t)
    else None
  }

  ghost function FindApplication(db: Db, parse: string -> Option<Id>, text: string): (found: Option<Id>)
    ensures found.Some? ==>
              found.value in db.applications && (parse(text) == found || db.applications[found.value].slug == text)
    ensures found.None? <==>
            forall a :: a in db.applications ==> parse(text) != Some(a) && db.applications[a].slug != text
    ensures parse(text).Some? && parse(text).value in db.applications ==> found == parse(text)
  {
    if parse(text).Some? && parse(text).value in db.applications then parse(text)
    else if exists a :: a in db.applications && db.applications[a].slug == text then
      var a :| a in db.applications && db.applications[a].slug == text; Some(a)
    else None
  }

  ghost function FindAgent(db: Db, tenant: Option<Id>, application: Option<Id>, name: string): (found: Option<Id>)
    ensures found.Some? ==>
              && found.value in db.agents && tenant == Some(db.agents[found.value].tenant)
              && application == Some(db.agents[found.value].application) && db.agents[found.value].name == name
    ensures found.None? && tenant.Some? && application.Some? ==>
              forall a | a in db.agents && db.agents[a].tenant == tenant.value && db.agents[a].application == application.value
                :: db.agents[a].name != name
  {
    if exists a :: a in db.agents && tenant == Some(db.agents[a].tenant) && application == Some(db.agents[a].application)
                   && db.agents[a].name == name
    then
      var a :| a in db.agents && tenant == Some(db.agents[a].tenant) && application == Some(db.agents[a].application)
               && db.agents[a].name == name;
      Some(a)
    else None
  }

  /** A subject as the caller names it: by ids, by an external identity, by an agent name. */
  datatype NamedSubject = NamedSubject(user: Option<Key>, userRef: Option<UserRef>, agent: Option<Key>, agentName: Option<string>)

  function AsKey(row: Option<Id>): Option<Key> {
    if row.Some? then Some(Row(row.value)) else None
  }

  ghost function ResolveReferences(db: Db, parse: string -> Option<Id>, tenant: string, application: string,
                                   named: NamedSubject): References
  {
    var t, a := FindTenant(db, parse, tenant), FindApplication(db, parse, application);
    var user :=
      if named.userRef.None? then named.user
      else if named.userRef.value in db.identities then Some(Row(db.identities[named.userRef.value])) else None;
    var byName := if named.agentName.Some? then FindAgent(db, t, a, named.agentName.value) else None;
    var agent := if named.agentName.Some? then AsKey(byName) else named.agent;
    References(
      if t.Some? then Row(t.value) else Raw(tenant),
      if a.Some? then Row(a.value) else Raw(application),
      if t.Some? then Some(db.tenants[t.value].status) else None,
      if a.Some? then Some(db.applications[a.value].status) else None,
      user,
      named.userRef.Some? && user.None?,
      agent,
      if byName.Some? then Some(db.agents[byName.value].status) else None,
      named.agentName.Some? && agent.None?)
  }

  /** References are complete exactly when every one of them names something that exists. */
  lemma CompleteIff(db: Db, parse: string -> Option<Id>, tenant: string, application: string, named: NamedSubject)
    ensures var refs := ResolveReferences(db, parse, tenant, application, named);
            refs.Complete() <==>
            && (exists t :: t in db.tenants && (parse(tenant) == Some(t) || db.tenants[t].slug == tenant))
            && (exists a :: a in db.applications && (parse(application) == Some(a) || db.applications[a].slug == application))
            && (named.userRef.Some? ==> named.userRef.value in db.identities)
            && (named.agentName.Some? ==>
                  exists a :: a in db.agents && refs.tenant == Row(db.agents[a].tenant)
                              && refs.application == Row(db.agents[a].application) && db.agents[a].name == named.agentName.value)
  {
  }

  /**
  What each reference leads to. A tenant or application is the row that has the text as
  its id or slug; a user reference is the user whose identity it is, and takes the place
  of a user id; an agent name is the agent of that name in that tenant and application,
  and takes the place of an agent id. Where nothing is found, the request says so.
  */
  lemma ReferencesLead(db: Db, parse: string -> Option<Id>, tenant: string, application: string, named: NamedSubject)
    ensures var refs := ResolveReferences(db, parse, tenant, application, named);
            && (refs.tenantStatus.None? ==> refs.tenant == Raw(tenant))
            && (refs.tenantStatus.Some? ==>
                  && refs.tenant.Row? && refs.tenant.id in db.tenants && refs.tenantStatus == Some(db.tenants[refs.tenant.id].status)
                  && (parse(tenant) == Some(refs.tenant.id) || db.tenants[refs.tenant.id].slug == tenant))
            && (refs.applicationStatus.None? ==> refs.application == Raw(application))
            && (refs.applicationStatus.Some? ==>
                  && refs.application.Row? && refs.application.id in db.applications
                  && refs.applicationStatus == Some(db.applications[refs.application.id].status)
                  && (parse(application) == Some(refs.application.id) || db.applications[refs.application.id].slug == application))
            && (named.userRef.None? ==> refs.user == named.user && !refs.userMissing)
            && (named.userRef.Some? ==>
                  && (refs.userMissing <==> named.userRef.value !in db.identities)
                  && (refs.userMissing ==> refs.user.None?)
                  && (!refs.userMissing ==> refs.user == Some(Row(db.identities[named.userRef.value]))))
            && (named.agentName.None? ==> refs.agent == named.agent && refs.agentStatus.None? && !refs.agentMissing)
            && (named.agentName.Some? ==>
                  && (refs.agentMissing <==> refs.agent.None?)
                  && (refs.agent.Some? ==>
                        && refs.agent.value.Row? && refs.agent.value.id in db.agents
                        && var agent := db.agents[refs.agent.value.id];
                           && refs.tenant == Row(agent.tenant) && refs.application == Row(agent.application)
                           && agent.name == named.agentName.value && refs.agentStatus == Some(agent.status)))
  {
  }

  /** The text is the slug of this row and no other row's id. */
  predicate SlugOf(db: Db, parse: string -> Option<Id>, tenant: Id, application: Id) {
    && tenant in db.tenants && application in db.applications
    && (parse(db.tenants[tenant].slug).Some? ==> parse(db.tenants[tenant].slug).value !in db.tenants)
    && (parse(db.applications[application].slug).Some? ==> parse(db.applications[application].slug).value !in db.applications)
  }

  /** A request that names tenant and application by slug and the user by identity is decided for the rows that bear them. */
  lemma NamedUserIsDecided(db: Db, first: FirstRow, parse: string -> Option<Id>, rules: seq<Rule<Key>>, context: Context, tenant: Id,
                           application: Id, userRef: UserRef, check: Check)
    requires UniqueTenantSlugs(db.tenants) && UniqueApplicationSlugs(db.applications)
    requires SlugOf(db, parse, tenant, application) && userRef in db.identities
    ensures var refs := ResolveReferences(db, parse, db.tenants[tenant].slug, db.applications[application].slug,
                                          NamedSubject(None, Some(userRef), None, None));
            && refs.Complete()
            && AuthorizeEndpoint(RepositoryOf(db, first), rules, refs, Outcome(None, None, Subject(UserSubject, refs.user, refs.agent)),
                                 context, check)
               == Authorize(RepositoryOf(db, first), rules, UserRequest(tenant, application, db.identities[userRef], context, None), check)
  {
    var named := NamedSubject(None, Some(userRef), None, None);
    var refs := ResolveReferences(db, parse, db.tenants[tenant].slug, db.applications[application].slug, named);
    ReferencesLead(db, parse, db.tenants[tenant].slug, db.applications[application].slug, named);
    CompleteIff(db, parse, db.tenants[tenant].slug, db.applications[application].slug, named);
    var q := EndpointRequest(refs, Outcome(None, None, Subject(UserSubject, refs.user, refs.agent)), context);
    CompleteReferencesAreLive(db, first, parse, db.tenants[tenant].slug, db.applications[application].slug, named, rules, q, check);
  }

  /** So it is for an agent named in the tenant and application. */
  lemma NamedAgentIsDecided(db: Db, first: FirstRow, parse: string -> Option<Id>, rules: seq<Rule<Key>>, context: Context, agent: Id,
                            userRef: UserRef, check: Check)
    requires UniqueTenantSlugs(db.tenants) && UniqueApplicationSlugs(db.applications) && UniqueAgentNames(db.agents)
    requires agent in db.agents && SlugOf(db, parse, db.agents[agent].tenant, db.agents[agent].application) && userRef in db.identities
    ensures var row := db.agents[agent];
            var refs := ResolveReferences(db, parse, db.tenants[row.tenant].slug, db.applications[row.application].slug,
                                          NamedSubject(None, Some(userRef), None, Some(row.name)));
            && refs.Complete()
            && AuthorizeEndpoint(RepositoryOf(db, first), rules, refs, Outcome(None, None, Subject(AgentSubject, refs.user, refs.agent)),
                                 context, check)
               == Authorize(RepositoryOf(db, first), rules,
                            AgentRequest(row.tenant, row.application, db.identities[userRef], agent, context, None), check)
  {
    var row := db.agents[agent];
    var named := NamedSubject(None, Some(userRef), None, Some(row.name));
    var refs := ResolveReferences(db, parse, db.tenants[row.tenant].slug, db.applications[row.application].slug, named);
    ReferencesLead(db, parse, db.tenants[row.tenant].slug, db.applications[row.application].slug, named);
    CompleteIff(db, parse, db.tenants[row.tenant].slug, db.applications[row.application].slug, named);
    var q := EndpointRequest(refs, Outcome(None, None, Subject(AgentSubject, refs.user, refs.agent)), context);
    CompleteReferencesAreLive(db, first, parse, db.tenants[row.tenant].slug, db.applications[row.application].slug, named, rules, q, check);
  }

  /** A slug that is no tenant's id leads to the one tenant that bears it. */
  lemma SlugResolves(db: Db, parse: string -> Option<Id>, t: Id, application: string, named: NamedSubject)
    requires UniqueTenantSlugs(db.tenants) && t in db.tenants
    requires parse(db.tenants[t].slug).Some? ==> parse(db.tenants[t].slug).value !in db.tenants
    ensures ResolveReferences(db, parse, db.tenants[t].slug, application, named).tenant == Row(t)
  {
  }

  /** Complete references decide like the engine's own reads of the resolved ids, reason included. */
  lemma CompleteReferencesAreLive(db: Db, first: FirstRow, parse: string -> Option<Id>, tenant: string, application: string,
                                  named: NamedSubject, rules: seq<Rule<Key>>, q: Request, check: Check)
    requires var refs := ResolveReferences(db, parse, tenant, application, named);
             refs.Complete() && q.references == Some(refs) && q.tenant == refs.tenant && q.application == refs.application
    ensures Authorize(RepositoryOf(db, first), rules, q, check)
            == Authorize(RepositoryOf(db, first), rules, q.(references := None), check)
    ensures EffectivePermissions(RepositoryOf(db, first), q) == EffectivePermissions(RepositoryOf(db, first), q.(references := None))
  {
    var repo, live := RepositoryOf(db, first), q.(references := None);
    var refs := q.references.value;
    assert Inactive(repo, q) == Inactive(repo, live);
    forall g ensures AgentActive(repo, q, g) == AgentActive(repo, live, g) {
      if refs.agentStatus.Some? && refs.agent == Some(g) {
        assert g.Row? && g.id in db.agents;
      }
    }
    forall u ensures MembershipActive(repo, q, u) == MembershipActive(repo, live, u) {
    }
    assert SubjectPermissions(repo, q) == SubjectPermissions(repo, live);
    assert Undelegated(repo, q) == Undelegated(repo, live);
  }

  // ---- What a decision means ----

  predicate TenantLive(db: Db, tenant: Id) {
    tenant in db.tenants && db.tenants[tenant].status == "active"
  }

  predicate ApplicationLive(db: Db, application: Id) {
    application in db.applications && db.applications[application].status == "active"
  }

  /** The mask lets the permission through. */
  predicate Unmasked(db: Db, tenant: Id, application: Id, permission: string) {
    MaskOf(db, tenant, application) == {} || permission in MaskOf(db, tenant, application)
  }

  /** A mask is set for one tenant and application; an empty one, or none, lets everything through. */
  lemma MaskIsPerSlice(db: Db, tenant: Id, application: Id, names: set<string>, t: Id, a: Id, permission: string)
    ensures Unmasked(SetMask(db, tenant, application, names), t, a, permission) <==>
            if t == tenant && a == application then names == {} || permission in names else Unmasked(db, t, a, permission)
    ensures (t, a) !in db.masks ==> Unmasked(db, t, a, permission)
  {
  }

  /** Tenant, application and membership are in force. */
  predicate InForce(db: Db, first: FirstRow, tenant: Id, application: Id, user: Id) {
    TenantLive(db, tenant) && ApplicationLive(db, application) && MembershipLive(db, first, tenant, application, user)
  }

  /** Neither the tenant's mask nor the grant takes the permission away. */
  predicate LetThrough(db: Db, tenant: Id, application: Id, delegated: Option<set<string>>, permission: string) {
    Unmasked(db, tenant, application, permission) && (delegated.Some? ==> permission in delegated.value)
  }

  function UserRequest(tenant: Id, application: Id, user: Id, context: Context, delegated: Option<set<string>>): Request {
    Request(Row(tenant), Row(application), Subject(UserSubject, Some(Row(user)), None), context, delegated, None)
  }

  function AgentRequest(tenant: Id, application: Id, user: Id, agent: Id, context: Context, delegated: Option<set<string>>)
    : Request
  {
    Request(Row(tenant), Row(application), Subject(AgentSubject, Some(Row(user)), Some(Row(agent))), context, delegated, None)
  }

  ghost predicate RulesPass(rules: seq<Rule<Key>>, q: Request, check: Check) {
    Verdict(rules, Target(q.tenant, q.application, check.resource, check.action), q.context(q.subject, q.tenant)) == Some(true)
  }

  lemma UserDecision(db: Db, first: FirstRow, rules: seq<Rule<Key>>, tenant: Id, application: Id, user: Id, context: Context,
                     delegated: Option<set<string>>, check: Check)
    ensures var q := UserRequest(tenant, application, user, context, delegated);
            Authorize(RepositoryOf(db, first), rules, q, check) == Ok(Allow(check.resource + "." + check.action)) <==>
            && InForce(db, first, tenant, application, user)
            && check.resource + "." + check.action in UserPermissions(db, tenant, application, user)
            && LetThrough(db, tenant, application, delegated, check.resource + "." + check.action)
            && RulesPass(rules, q, check)
  {
    UserReasons(db, first, rules, tenant, application, user, context, delegated, check);
  }

  lemma AgentDecision(db: Db, first: FirstRow, rules: seq<Rule<Key>>, tenant: Id, application: Id, user: Id, agent: Id, context: Context,
                      delegated: Option<set<string>>, check: Check)
    ensures var q := AgentRequest(tenant, application, user, agent, context, delegated);
            Authorize(RepositoryOf(db, first), rules, q, check) == Ok(Allow(check.resource + "." + check.action)) <==>
            && InForce(db, first, tenant, application, user) && AgentLive(db, tenant, application, agent)
            && check.resource + "." + check.action in UserPermissions(db, tenant, application, user)
            && check.resource + "." + check.action in AgentPermissions(db, tenant, application, agent)
            && LetThrough(db, tenant, application, delegated, check.resource + "." + check.action)
            && RulesPass(rules, q, check)
  {
    AgentReasons(db, first, rules, tenant, application, user, agent, context, delegated, check);
  }

  /** What the store answers about activity. */
  lemma ActivityOf(db: Db, first: FirstRow, tenant: Id, application: Id, q: Request)
    requires q.tenant == Row(tenant) && q.application == Row(application) && q.references.None?
    ensures Inactive(RepositoryOf(db, first), q)
            == if !TenantLive(db, tenant) then Some(TenantNotActive)
               else if !ApplicationLive(db, application) then Some(ApplicationNotActive) else None
    ensures RepositoryOf(db, first).mask(q.tenant, q.application) == MaskOf(db, tenant, application)
  {
  }

  lemma PermissionsOfUser(db: Db, first: FirstRow, tenant: Id, application: Id, user: Id, context: Context, delegated: Option<set<string>>)
    ensures SubjectPermissions(RepositoryOf(db, first), UserRequest(tenant, application, user, context, delegated))
            == if MembershipLive(db, first, tenant, application, user) then Ok(UserPermissions(db, tenant, application, user))
               else Err(NoActiveMembership)
  {
  }

  lemma PermissionsOfAgent(db: Db, first: FirstRow, tenant: Id, application: Id, user: Id, agent: Id, context: Context,
                           delegated: Option<set<string>>)
    ensures SubjectPermissions(RepositoryOf(db, first), AgentRequest(tenant, application, user, agent, context, delegated))
            == if !MembershipLive(db, first, tenant, application, user) then Err(NoActiveUserMembership)
               else if !AgentLive(db, tenant, application, agent) then Err(AgentNotActive)
               else Ok(UserPermissions(db, tenant, application, user) * AgentPermissions(db, tenant, application, agent))
  {
  }

  /** Each reason is given exactly when its condition fails and all earlier ones hold. */
  lemma UserReasons(db: Db, first: FirstRow, rules: seq<Rule<Key>>, tenant: Id, application: Id, user: Id, context: Context,
                    delegated: Option<set<string>>, check: Check)
    ensures var q := UserRequest(tenant, application, user, context, delegated);
            var decision := Authorize(RepositoryOf(db, first), rules, q, check);
            var required := check.resource + "." + check.action;
            && (decision == Ok(Deny(TenantNotActive, required)) <==> !TenantLive(db, tenant))
            && (decision == Ok(Deny(ApplicationNotActive, required)) <==> TenantLive(db, tenant) && !ApplicationLive(db, application))
            && (decision == Ok(Deny(NoActiveMembership, required)) <==>
                TenantLive(db, tenant) && ApplicationLive(db, application) && !MembershipLive(db, first, tenant, application, user))
            && (InForce(db, first, tenant, application, user) ==>
                Decided(rules, q, check, UserPermissions(db, tenant, application, user), MaskOf(db, tenant, application), decision))
  {
    var q := UserRequest(tenant, application, user, context, delegated);
    ActivityOf(db, first, tenant, application, q);
    PermissionsOfUser(db, first, tenant, application, user, context, delegated);
    DecidedOnce(RepositoryOf(db, first), rules, q, check);
  }

  lemma AgentReasons(db: Db, first: FirstRow, rules: seq<Rule<Key>>, tenant: Id, application: Id, user: Id, agent: Id, context: Context,
                     delegated: Option<set<string>>, check: Check)
    ensures var q := AgentRequest(tenant, application, user, agent, context, delegated);
            var decision := Authorize(RepositoryOf(db, first), rules, q, check);
            var required := check.resource + "." + check.action;
            && (decision == Ok(Deny(TenantNotActive, required)) <==> !TenantLive(db, tenant))
            && (decision == Ok(Deny(ApplicationNotActive, required)) <==> TenantLive(db, tenant) && !ApplicationLive(db, application))
            && (decision == Ok(Deny(NoActiveUserMembership, required)) <==>
                TenantLive(db, tenant) && ApplicationLive(db, application) && !MembershipLive(db, first, tenant, application, user))
            && (decision == Ok(Deny(AgentNotActive, required)) <==>
                InForce(db, first, tenant, application, user) && !AgentLive(db, tenant, application, agent))
            && (InForce(db, first, tenant, application, user) && AgentLive(db, tenant, application, agent) ==>
                Decided(rules, q, check,
                        UserPermissions(db, tenant, application, user) * AgentPermissions(db, tenant, application, agent),
                        MaskOf(db, tenant, application), decision))
  {
    var q := AgentRequest(tenant, application, user, agent, context, delegated);
    ActivityOf(db, first, tenant, application, q);
    PermissionsOfAgent(db, first, tenant, application, user, agent, context, delegated);
    DecidedOnce(RepositoryOf(db, first), rules, q, check);
  }

  /** A user is allowed exactly what some active membership's role names grant, within mask, grant and rules. */
  lemma UserDecisionByName(db: Db, first: FirstRow, rules: seq<Rule<Key>>, tenant: Id, application: Id, user: Id, context: Context,
                           delegated: Option<set<string>>, check: Check)
    requires Valid(db)
    ensures var q := UserRequest(tenant, application, user, context, delegated);
            Authorize(RepositoryOf(db, first), rules, q, check) == Ok(Allow(check.resource + "." + check.action)) <==>
            && InForce(db, first, tenant, application, user)
            && UserMay(View(db), tenant, application, user, check.resource + "." + check.action)
            && LetThrough(db, tenant, application, delegated, check.resource + "." + check.action)
            && RulesPass(rules, q, check)
  {
    UserDecision(db, first, rules, tenant, application, user, context, delegated, check);
    UserResolutionIsByName(db, tenant, application, user, check.resource + "." + check.action);
  }

  /** An agent is allowed exactly what it and its user both have, within mask, grant and rules. */
  lemma AgentDecisionByName(db: Db, first: FirstRow, rules: seq<Rule<Key>>, tenant: Id, application: Id, user: Id, agent: Id, context: Context,
                            delegated: Option<set<string>>, check: Check)
    requires Valid(db)
    ensures var q := AgentRequest(tenant, application, user, agent, context, delegated);
            Authorize(RepositoryOf(db, first), rules, q, check) == Ok(Allow(check.resource + "." + check.action)) <==>
            && InForce(db, first, tenant, application, user) && AgentLive(db, tenant, application, agent)
            && UserMay(View(db), tenant, application, user, check.resource + "." + check.action)
            && AgentMay(View(db), tenant, application, agent, check.resource + "." + check.action)
            && LetThrough(db, tenant, application, delegated, check.resource + "." + check.action)
            && RulesPass(rules, q, check)
  {
    AgentDecision(db, first, rules, tenant, application, user, agent, context, delegated, check);
    UserResolutionIsByName(db, tenant, application, user, check.resource + "." + check.action);
    AgentResolutionIsByName(db, tenant, application, agent, check.resource + "." + check.action);
  }

  /** Once a tenant state is applied, only listed active agents are allowed anything, and only what is listed for them. */
  lemma AppliedStateBoundsAgents(db: Db, db': Db, first: FirstRow, slug: string, state: TenantStates.TenantState, trace: TenantStates.Trace,
                                 rules: seq<Rule<Key>>, application: Id, user: Id, agent: Id, context: Context,
                                 delegated: Option<set<string>>, check: Check)
    requires Valid(db) && application in db.applications
    requires TenantStates.Applied(db, db', application, slug, state, trace)
    requires Authorize(RepositoryOf(db', first), rules, AgentRequest(trace.tenant, application, user, agent, context, delegated), check)
             == Ok(Allow(check.resource + "." + check.action))
    ensures exists i :: 0 <= i < |state.agents| && trace.agentIds[i] == agent && state.agents[i].status == ACTIVE
                        && check.resource + "." + check.action in state.agents[i].permissions
  {
    AgentDecision(db', first, rules, trace.tenant, application, user, agent, context, delegated, check);
    OnlyListedAgents(db, db', slug, state, trace, application, agent, check.resource + "." + check.action);
  }

  lemma OnlyListedAgents(db: Db, db': Db, slug: string, state: TenantStates.TenantState, trace: TenantStates.Trace,
                         application: Id, agent: Id, n: string)
    requires Valid(db) && application in db.applications
    requires TenantStates.Applied(db, db', application, slug, state, trace)
    requires AgentLive(db', trace.tenant, application, agent) && n in AgentPermissions(db', trace.tenant, application, agent)
    ensures exists i :: 0 <= i < |state.agents| && trace.agentIds[i] == agent && state.agents[i].status == ACTIVE
                        && n in state.agents[i].permissions
  {
    var i := LiveAgentIsListed(db, db', slug, state, trace, application, agent);
    TenantStates.ListedAgentsMatch(db, db', application, slug, state, trace, i);
  }

  lemma LiveAgentIsListed(db: Db, db': Db, slug: string, state: TenantStates.TenantState, trace: TenantStates.Trace,
                          application: Id, agent: Id) returns (i: nat)
    requires TenantStates.Applied(db, db', application, slug, state, trace)
    requires AgentLive(db', trace.tenant, application, agent)
    ensures i < |trace.agentIds| && i < |state.agents| && trace.agentIds[i] == agent
  {
    TenantStates.OthersAreDisabled(db, db', application, slug, state, trace);
    i :| 0 <= i < |trace.agentIds| && trace.agentIds[i] == agent;
  }

  /** Once a catalog is applied, nobody is allowed anything but listed and platform permissions. */
  lemma AppliedCatalogBoundsDecisions(db: Db, db': Db, first: FirstRow, slug: string, spec: Catalog.CatalogSpec, managedBy: Option<string>,
                                      trace: Catalog.CatalogTrace, rules: seq<Rule<Key>>, tenant: Id, user: Id,
                                      context: Context, delegated: Option<set<string>>, check: Check)
    requires Catalog.CatalogApplied(db, db', slug, spec, managedBy, trace)
    requires Authorize(RepositoryOf(db', first), rules, UserRequest(tenant, trace.application, user, context, delegated), check)
             == Ok(Allow(check.resource + "." + check.action))
    ensures check.resource + "." + check.action in spec.permissions || (None, check.resource + "." + check.action) in ActiveOf(db.permissions)
  {
    UserDecision(db', first, rules, tenant, trace.application, user, context, delegated, check);
    Catalog.CatalogBoundsUsers(db, db', slug, spec, managedBy, trace, tenant, user);
  }
}
