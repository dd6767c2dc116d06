/**
Delegation grants over time: a user hands a subset of permissions to an agent until a
deadline. A grant is a stored row and a signed token (the shape of section 4.1 of RFC
8693, expiry as in section 4.1.4 of RFC 7519). Decisions with a token use the grant's
subset and everything else live.

A world holds the grants, every token ever signed, the signing keys and the role store.
Between decisions anything may happen: grants are issued and revoked, keys rotate and
are pruned, time passes, and the role store changes in any way at all.
*/
module Delegation {
  import opened Common
  import opened Rows
  import opened Resolution
  import opened Policy
  import opened Engine
  import opened Decisions
  import SigningKeys

  type Time = SigningKeys.Time
  type GrantId = nat

  /** Microseconds. */
  const SECOND: int := 1_000_000

  const DELEGATION_TYPE := "authz-delegation+jwt"
  const ACCESS_TYPE := "JWT"
  const AUDIENCE := "urn:authz:delegation"

  datatype Grant = Grant(
    tenant: Id,
    application: Id,
    user: Id,
    agent: Id,
    permissions: set<string>,
    revokedAt: Option<Time>,
    expiresAt: Time,
    createdAt: Time)

  datatype Claims = Claims(
    issuer: string,
    audience: string,
    user: Id,
    agent: Id,
    grant: GrantId,
    issuedAt: Time,
    notBefore: Time,
    expiry: Time,
    tenant: Id,
    application: Id,
    permissions: set<string>)

  datatype Jwt = Jwt(typ: string, kid: SigningKeys.Kid, claims: Claims)

  // ---- Verification ----

  /** The signed claims agree with the stored row. */
  predicate Agrees(claims: Claims, grant: Grant) {
    && claims.user == grant.user && claims.agent == grant.agent
    && claims.tenant == grant.tenant && claims.application == grant.application
    && claims.permissions == grant.permissions
  }

  /** Type, key, signature and registered claims first, then the stored row. */
  function Verify(grants: map<GrantId, Grant>, signed: set<Jwt>, known: set<SigningKeys.Kid>, issuer: string, leeway: nat,
                  now: Time, token: Jwt): Result<Grant, Reason>
  {
    var claims := token.claims;
    if token.typ != DELEGATION_TYPE || token.kid !in known || token !in signed then Err(DelegationInvalid)
    else if now + leeway < claims.issuedAt || now + leeway < claims.notBefore then Err(DelegationInvalid)
    else if claims.expiry <= now - leeway then Err(DelegationExpired)
    else if claims.audience != AUDIENCE || claims.issuer != issuer then Err(DelegationInvalid)
    else if claims.grant !in grants then Err(DelegationInvalid)
    else
      var grant := grants[claims.grant];
      if grant.revokedAt.Some? then Err(DelegationRevoked)
      else if grant.expiresAt <= now then Err(DelegationExpired)
      else if !Agrees(claims, grant) then Err(DelegationInvalid)
      else Ok(grant)
  }

  /** A token that verifies says of user, agent, tenant, application and permissions what the stored row says. */
  lemma VerifiedSaysSo(grants: map<GrantId, Grant>, signed: set<Jwt>, known: set<SigningKeys.Kid>, issuer: string, leeway: nat,
                       now: Time, token: Jwt)
    requires Verify(grants, signed, known, issuer, leeway, now, token).Ok?
    ensures token.claims.grant in grants
    ensures var claims, grant := token.claims, grants[token.claims.grant];
            && Verify(grants, signed, known, issuer, leeway, now, token) == Ok(grant)
            && claims.user == grant.user && claims.agent == grant.agent && claims.tenant == grant.tenant
            && claims.application == grant.application && claims.permissions == grant.permissions
            && claims.issuer == issuer && claims.audience == "urn:authz:delegation" && token.typ == "authz-delegation+jwt"
            && claims.issuedAt <= now + leeway && claims.notBefore <= now + leeway && now < claims.expiry + leeway
            && grant.revokedAt.None? && now < grant.expiresAt && token.kid in known && token in signed
  {
  }

  // ---- Issue and revoke ----

  /** The whole second that a time lies in. */
  function WholeSecond(now: Time): Time {
    now - now % SECOND
  }

  datatype Terms = Terms(tenant: Id, application: Id, user: Id, agent: Id, permissions: set<string>, ttl: nat)

  function GrantOf(terms: Terms, now: Time): Grant {
    Grant(terms.tenant, terms.application, terms.user, terms.agent, terms.permissions, None,
          WholeSecond(now) + terms.ttl * SECOND, WholeSecond(now))
  }

  function ClaimsOf(terms: Terms, issuer: string, id: GrantId, now: Time): Claims {
    Claims(issuer, AUDIENCE, terms.user, terms.agent, id, WholeSecond(now), WholeSecond(now),
           WholeSecond(now) + terms.ttl * SECOND, terms.tenant, terms.application, terms.permissions)
  }

  function RevokeRow(grant: Grant, now: Time): Grant {
    if grant.revokedAt.None? then grant.(revokedAt := Some(now)) else grant
  }

  function Revoked(grants: map<GrantId, Grant>, id: GrantId, now: Time): map<GrantId, Grant> {
    if id in grants then grants[id := RevokeRow(grants[id], now)] else grants
  }

  /** The grants that a kill switch is aimed at. */
  predicate Aimed(grant: Grant, tenant: Id, user: Option<Id>, agent: Option<Id>) {
    grant.tenant == tenant && (user.Some? ==> grant.user == user.value) && (agent.Some? ==> grant.agent == agent.value)
  }

  function RevokedMatching(grants: map<GrantId, Grant>, tenant: Id, user: Option<Id>, agent: Option<Id>, now: Time)
    : map<GrantId, Grant>
  {
    map g | g in grants :: if Aimed(grants[g], tenant, user, agent) then RevokeRow(grants[g], now) else grants[g]
  }

  /** The rows a kill switch changes. */
  function StillActive(grants: map<GrantId, Grant>, tenant: Id, user: Option<Id>, agent: Option<Id>): set<GrantId> {
    set g | g in grants && Aimed(grants[g], tenant, user, agent) && grants[g].revokedAt.None?
  }

  /** What the agent may do for the user now. */
  function Available(db: Db, first: FirstRow, tenant: Id, application: Id, user: Id, agent: Id): set<string> {
    var nothing: Context := (s: Subject, t: Key) => (c: Comparison) => None;
    EffectivePermissions(RepositoryOf(db, first), AgentRequest(tenant, application, user, agent, nothing, None))
  }

  /** What is delegated: everything available, or a named part of it; else what was too much. */
  function Delegable(db: Db, first: FirstRow, tenant: Id, application: Id, user: Id, agent: Id, named: Option<set<string>>)
    : Result<set<string>, set<string>>
  {
    var available := Available(db, first, tenant, application, user, agent);
    if named.None? then Ok(available)
    else if named.value <= available then Ok(named.value)
    else Err(named.value - available)
  }

  // ---- The service object ----

  class DelegationService {
    const keys: SigningKeys.SigningKeyService
    const issuer: string
    const leeway: nat
    var grants: map<GrantId, Grant>
    var next: GrantId
    var signed: set<Jwt>

    constructor (keys: SigningKeys.SigningKeyService, issuer: string, leeway: nat)
      ensures grants == map[] && signed == {} && next == 0
      ensures this.keys == keys && this.issuer == issuer && this.leeway == leeway
    {
      this.keys, this.issuer, this.leeway := keys, issuer, leeway;
      grants, next, signed := map[], 0, {};
    }

    /** Sign first, so that a missing key leaves no row behind. */
    method Issue(terms: Terms, generate: bool, now: Time) returns (token: Option<Jwt>)
      requires keys.table.Valid()
      modifies this, keys, keys.table
      ensures keys.table.Valid()
      ensures token.None? <==> keys.cached.None?
      ensures token.None? ==> grants == old(grants) && next == old(next) && signed == old(signed)
      ensures token.Some? ==>
                && token.value == Jwt(DELEGATION_TYPE, keys.cached.value, ClaimsOf(terms, issuer, old(next), now))
                && grants == old(grants)[old(next) := GrantOf(terms, now)]
                && next == old(next) + 1 && signed == old(signed) + {token.value}
    {
      var key := keys.ActiveSigningKey(generate);
      if key.None? {
        return None;
      }
      token := Some(Jwt(DELEGATION_TYPE, key.value, ClaimsOf(terms, issuer, next, now)));
      signed := signed + {token.value};
      grants, next := grants[next := GrantOf(terms, now)], next + 1;
    }

    method Check(token: Jwt, now: Time) returns (result: Result<Grant, Reason>)
      ensures var known := set k | k == token.kid && (keys.env == Some(k) || SigningKeys.Published(keys.table.rows, k));
              result == Verify(grants, signed, known, issuer, leeway, now, token)
    {
      var published := keys.AllPublicKeys();
      var known := set k | k in published && k == token.kid;
      result := Verify(grants, signed, known, issuer, leeway, now, token);
    }

    /** Idempotent; an unknown grant is left alone. */
    method Revoke(id: GrantId, now: Time)
      modifies this`grants
      ensures grants == Revoked(old(grants), id, now)
    {
      if id in grants && grants[id].revokedAt.None? {
        grants := grants[id := grants[id].(revokedAt := Some(now))];
      }
    }

    /** Kill switch for a tenant, a user or an agent; returns how many grants it ended. */
    method RevokeMatching(tenant: Id, user: Option<Id>, agent: Option<Id>, now: Time) returns (count: nat)
      modifies this`grants
      ensures grants == RevokedMatching(old(grants), tenant, user, agent, now)
      ensures count == |set g | g in old(grants) && old(grants)[g].revokedAt.None? && old(grants)[g].tenant == tenant
                              && (user.None? || old(grants)[g].user == user.value)
                              && (agent.None? || old(grants)[g].agent == agent.value)|
      ensures StillActive(grants, tenant, user, agent) == {}
    {
      var hit := StillActive(grants, tenant, user, agent);
      assert hit == set g | g in grants && grants[g].revokedAt.None? && grants[g].tenant == tenant
                            && (user.None? || grants[g].user == user.value) && (agent.None? || grants[g].agent == agent.value);
      count := |hit|;
      grants := map g | g in grants :: if g in hit then grants[g].(revokedAt := Some(now)) else grants[g];
    }
  }

  // ---- Worlds ----

  datatype World = World(
    keys: SigningKeys.Keys,
    db: Db,
    grants: map<GrantId, Grant>,
    next: GrantId,
    signed: set<Jwt>,
    issuer: string,
    leeway: nat)

  datatype Step =
    | KeyStep(event: SigningKeys.Event)
    | StoreStep(db: Db)
    | IssueStep(process: SigningKeys.Process, terms: Terms)
    | AccessTokenStep(process: SigningKeys.Process, claims: Claims, lifetime: nat)
    | RevokeStep(id: GrantId)
    | KillStep(tenant: Id, user: Option<Id>, agent: Option<Id>)

  /** Signing uses the process's key, if it has one. */
  ghost function Signing(w: World, p: SigningKeys.Process, lifetime: nat): SigningKeys.Keys {
    SigningKeys.Next(w.keys, SigningKeys.Sign(p, lifetime))
  }

  ghost function Next(w: World, step: Step): World {
    match step
    case KeyStep(event) => w.(keys := SigningKeys.Next(w.keys, event))
    case StoreStep(db) => w.(db := db)
    case IssueStep(p, terms) =>
      var keys := Signing(w, p, terms.ttl * SECOND);
      if p !in keys.caches then w.(keys := keys)
      else
        var token := Jwt(DELEGATION_TYPE, keys.caches[p], ClaimsOf(terms, w.issuer, w.next, w.keys.now));
        w.(keys := keys, grants := w.grants[w.next := GrantOf(terms, w.keys.now)], next := w.next + 1, signed := w.signed + {token})
    case AccessTokenStep(p, claims, lifetime) =>
      var keys := Signing(w, p, lifetime);
      if p !in keys.caches then w.(keys := keys)
      else w.(keys := keys, signed := w.signed + {Jwt(ACCESS_TYPE, keys.caches[p], claims)})
    case RevokeStep(id) => w.(grants := Revoked(w.grants, id, w.keys.now))
    case KillStep(tenant, user, agent) => w.(grants := RevokedMatching(w.grants, tenant, user, agent, w.keys.now))
  }

  ghost function Run(w: World, steps: seq<Step>): World
    decreases |steps|
  {
    if steps == [] then w else Next(Run(w, steps[..|steps| - 1]), steps[|steps| - 1])
  }

  function Known(keys: SigningKeys.Keys, p: SigningKeys.Process): set<SigningKeys.Kid> {
    (if p in keys.env then {keys.env[p]} else {}) + (set k | k in keys.rows && SigningKeys.Published(keys.rows, k))
  }

  function VerifyIn(w: World, p: SigningKeys.Process, token: Jwt): Result<Grant, Reason> {
    Verify(w.grants, w.signed, Known(w.keys, p), w.issuer, w.leeway, w.keys.now, token)
  }

  // ---- Decisions ----

  /** No token leaves the request alone, unless a grant is required; a good one must fit and fills in who acts. */
  function ApplyDelegation(w: World, p: SigningKeys.Process, token: Option<Jwt>, required: bool, tenant: Key, application: Key,
                           subject: Subject): Outcome
  {
    if token.None? then
      if required && subject.kind == AgentSubject then Outcome(None, Some(DelegationRequired), subject)
      else Outcome(None, None, subject)
    else
      match VerifyIn(w, p, token.value)
      case Err(reason) => Outcome(None, Some(reason), subject)
      case Ok(grant) =>
        if subject.kind != AgentSubject then Outcome(None, Some(DelegationMismatch), subject)
        else
          var filled := subject.(user := if subject.user.Some? then subject.user else Some(Row(grant.user)),
                                 agent := if subject.agent.Some? then subject.agent else Some(Row(grant.agent)));
          if tenant != Row(grant.tenant) || application != Row(grant.application)
             || filled.user != Some(Row(grant.user)) || filled.agent != Some(Row(grant.agent))
          then Outcome(None, Some(DelegationMismatch), filled)
          else Outcome(Some(grant.permissions), None, filled)
  }

  /** A request as it arrives at the authorize endpoint, with or without a token; required: agents must bring one. */
  datatype Call = Call(
    process: SigningKeys.Process,
    token: Option<Jwt>,
    required: bool,
    tenant: string,
    application: string,
    kind: SubjectKind,
    named: NamedSubject,
    check: Check)

  ghost function Decide(w: World, first: FirstRow, parse: string -> Option<Id>, rules: seq<Rule<Key>>, context: Context, call: Call)
    : Result<Decision, Raised>
  {
    var refs := ResolveReferences(w.db, parse, call.tenant, call.application, call.named);
    var outcome := ApplyDelegation(w, call.process, call.token, call.required, refs.tenant, refs.application,
                                   Subject(call.kind, refs.user, refs.agent));
    AuthorizeEndpoint(RepositoryOf(w.db, first), rules, refs, outcome, context, call.check)
  }

  /** The grant is in force now. */
  ghost predicate GrantInForce(w: World, token: Jwt) {
    && token in w.signed && token.typ == DELEGATION_TYPE && token.claims.grant in w.grants
    && w.grants[token.claims.grant].revokedAt.None?
    && w.keys.now < w.grants[token.claims.grant].expiresAt
  }

  /** Everything that an allowed decision with a grant rests on. */
  ghost predicate Justified(w: World, first: FirstRow, token: Jwt, permission: string) {
    && GrantInForce(w, token)
    && var grant := w.grants[token.claims.grant];
       && permission in grant.permissions
       && permission in UserPermissions(w.db, grant.tenant, grant.application, grant.user)
       && permission in AgentPermissions(w.db, grant.tenant, grant.application, grant.agent)
       && InForce(w.db, first, grant.tenant, grant.application, grant.user)
       && AgentLive(w.db, grant.tenant, grant.application, grant.agent)
       && LetThrough(w.db, grant.tenant, grant.application, Some(grant.permissions), permission)
  }

  lemma AcceptedOutcome(w: World, p: SigningKeys.Process, token: Jwt, required: bool, tenant: Key, application: Key, subject: Subject)
    ensures var outcome := ApplyDelegation(w, p, Some(token), required, tenant, application, subject);
            outcome.denied.None? <==>
            && VerifyIn(w, p, token).Ok? && subject.kind == AgentSubject
            && var grant := VerifyIn(w, p, token).value;
               && GrantInForce(w, token) && grant == w.grants[token.claims.grant]
               && tenant == Row(grant.tenant) && application == Row(grant.application)
               && (subject.user.Some? ==> subject.user == Some(Row(grant.user)))
               && (subject.agent.Some? ==> subject.agent == Some(Row(grant.agent)))
               && outcome == Outcome(Some(grant.permissions), None,
                                     Subject(AgentSubject, Some(Row(grant.user)), Some(Row(grant.agent))))
  {
  }

  /** What the references name is what the grant is for. */
  predicate Fits(refs: References, grant: Grant) {
    && refs.tenant == Row(grant.tenant) && refs.application == Row(grant.application)
    && (refs.user.Some? ==> refs.user == Some(Row(grant.user)))
    && (refs.agent.Some? ==> refs.agent == Some(Row(grant.agent)))
  }

  ghost function RefsOf(w: World, parse: string -> Option<Id>, call: Call): References {
    ResolveReferences(w.db, parse, call.tenant, call.application, call.named)
  }

  ghost function OutcomeOf(w: World, parse: string -> Option<Id>, call: Call): Outcome {
    var refs := RefsOf(w, parse, call);
    ApplyDelegation(w, call.process, call.token, call.required, refs.tenant, refs.application,
                    Subject(call.kind, refs.user, refs.agent))
  }

  /** Everything named exists, and the grant applies. */
  ghost predicate Accepted(w: World, parse: string -> Option<Id>, call: Call) {
    RefsOf(w, parse, call).Complete() && OutcomeOf(w, parse, call).denied.None?
  }

  /** Everything named exists and fits a grant that verifies. */
  ghost predicate WellCalled(w: World, parse: string -> Option<Id>, call: Call) {
    && call.kind == AgentSubject && RefsOf(w, parse, call).Complete() && call.token.Some?
    && VerifyIn(w, call.process, call.token.value).Ok?
    && Fits(RefsOf(w, parse, call), VerifyIn(w, call.process, call.token.value).value)
  }

  lemma AcceptedIffWellCalled(w: World, parse: string -> Option<Id>, call: Call)
    requires call.token.Some?
    ensures Accepted(w, parse, call) <==> WellCalled(w, parse, call)
    ensures Accepted(w, parse, call) ==>
              && GrantInForce(w, call.token.value)
              && VerifyIn(w, call.process, call.token.value) == Ok(w.grants[call.token.value.claims.grant])
  {
    var refs := RefsOf(w, parse, call);
    AcceptedOutcome(w, call.process, call.token.value, call.required, refs.tenant, refs.application,
                    Subject(call.kind, refs.user, refs.agent));
  }

  /** With complete references and an accepted grant, the decision is that of the grant's agent and user. */
  lemma AcceptedDecision(w: World, first: FirstRow, parse: string -> Option<Id>, rules: seq<Rule<Key>>, context: Context, call: Call)
    requires call.token.Some? && Accepted(w, parse, call)
    ensures GrantInForce(w, call.token.value)
    ensures var grant := w.grants[call.token.value.claims.grant];
            var q := AgentRequest(grant.tenant, grant.application, grant.user, grant.agent, context, Some(grant.permissions));
            Decide(w, first, parse, rules, context, call) == Authorize(RepositoryOf(w.db, first), rules, q, call.check)
  {
    var refs := RefsOf(w, parse, call);
    AcceptedOutcome(w, call.process, call.token.value, call.required, refs.tenant, refs.application,
                    Subject(call.kind, refs.user, refs.agent));
    var q := EndpointRequest(refs, OutcomeOf(w, parse, call), context);
    CompleteReferencesAreLive(w.db, first, parse, call.tenant, call.application, call.named, rules, q, call.check);
  }

  /** With complete references and an accepted grant, it is a matter of live permissions, mask and rules. */
  lemma GrantDecides(w: World, first: FirstRow, parse: string -> Option<Id>, rules: seq<Rule<Key>>, context: Context, call: Call)
    requires call.token.Some? && Accepted(w, parse, call)
    ensures GrantInForce(w, call.token.value)
    ensures var grant := w.grants[call.token.value.claims.grant];
            Decide(w, first, parse, rules, context, call) == Ok(Allow(call.check.resource + "." + call.check.action)) <==>
            && Justified(w, first, call.token.value, call.check.resource + "." + call.check.action)
            && RulesPass(rules, AgentRequest(grant.tenant, grant.application, grant.user, grant.agent, context, None), call.check)
  {
    AcceptedDecision(w, first, parse, rules, context, call);
    var grant := w.grants[call.token.value.claims.grant];
    AgentDecision(w.db, first, rules, grant.tenant, grant.application, grant.user, grant.agent, context, Some(grant.permissions),
                  call.check);
  }

  /**
  A decision with a grant is to allow exactly when everything named exists and fits the
  grant, the token verifies, the grant is unrevoked and strictly before its stored
  expiry, the permission is in the grant, in the user's and in the agent's current
  permissions and within the tenant's mask, in the grant's own tenant and application,
  and the rules pass. This holds of every world, reachable or not.
  */
  lemma AllowedIffJustified(w: World, first: FirstRow, parse: string -> Option<Id>, rules: seq<Rule<Key>>, context: Context,
                            call: Call)
    requires call.token.Some?
    ensures Decide(w, first, parse, rules, context, call) == Ok(Allow(call.check.resource + "." + call.check.action)) <==>
            && WellCalled(w, parse, call) && Justified(w, first, call.token.value, call.check.resource + "." + call.check.action)
            && var grant := w.grants[call.token.value.claims.grant];
               RulesPass(rules, AgentRequest(grant.tenant, grant.application, grant.user, grant.agent, context, None), call.check)
  {
    AcceptedIffWellCalled(w, parse, call);
    if Accepted(w, parse, call) {
      GrantDecides(w, first, parse, rules, context, call);
    } else if Decide(w, first, parse, rules, context, call) == Ok(Allow(call.check.resource + "." + call.check.action)) {
      OnlyAcceptedAllows(RepositoryOf(w.db, first), rules, RefsOf(w, parse, call), OutcomeOf(w, parse, call), context, call.check);
    }
  }

  /** The request itself, with nothing delegated. */
  ghost function PlainRequest(w: World, parse: string -> Option<Id>, call: Call, context: Context): Request {
    var refs := RefsOf(w, parse, call);
    Request(refs.tenant, refs.application, Subject(call.kind, refs.user, refs.agent), context, None, Some(refs))
  }

  /** Without a token an agent that must bring one is denied; everybody else is decided as if there were no grants. */
  lemma WithoutToken(w: World, first: FirstRow, parse: string -> Option<Id>, rules: seq<Rule<Key>>, context: Context, call: Call)
    requires call.token.None?
    ensures RefsOf(w, parse, call).Complete() && call.required && call.kind == AgentSubject ==>
              Decide(w, first, parse, rules, context, call)
              == Ok(Deny(DelegationRequired, call.check.resource + "." + call.check.action))
    ensures !(RefsOf(w, parse, call).Complete() && call.required && call.kind == AgentSubject) ==>
              Decide(w, first, parse, rules, context, call)
              == Authorize(RepositoryOf(w.db, first), rules, PlainRequest(w, parse, call, context), call.check)
  {
  }

  /** A token that does not verify denies with that reason, and one that does not fit as a mismatch, if everything named exists. */
  lemma RefusedToken(w: World, first: FirstRow, parse: string -> Option<Id>, rules: seq<Rule<Key>>, context: Context, call: Call)
    requires call.token.Some? && RefsOf(w, parse, call).Complete()
    ensures var refs, verified := RefsOf(w, parse, call), VerifyIn(w, call.process, call.token.value);
            var required, decision := call.check.resource + "." + call.check.action, Decide(w, first, parse, rules, context, call);
            && (verified.Err? ==> decision == Ok(Deny(verified.error, required)))
            && (verified.Ok? && !(call.kind == AgentSubject && Fits(refs, verified.value)) ==>
                  decision == Ok(Deny(DelegationMismatch, required)))
  {
    AcceptedIffWellCalled(w, parse, call);
  }

  /** An unknown reference outranks whatever is wrong with the token: the engine's own reason is given. */
  lemma UnknownOutranksToken(w: World, first: FirstRow, parse: string -> Option<Id>, rules: seq<Rule<Key>>, context: Context, call: Call)
    requires !RefsOf(w, parse, call).Complete()
    ensures Decide(w, first, parse, rules, context, call).Ok? && Decide(w, first, parse, rules, context, call).value.Deny?
    ensures Decide(w, first, parse, rules, context, call).value.reason
            !in {DelegationRequired, DelegationInvalid, DelegationExpired, DelegationRevoked, DelegationMismatch, NotDelegated}
  {
    var q := EndpointRequest(RefsOf(w, parse, call), OutcomeOf(w, parse, call), context);
    IncompleteIsDenied(RepositoryOf(w.db, first), rules, q, call.check);
  }

  // ---- What every step keeps ----

  /** A signed delegation token has its row, and the two say the same. */
  ghost predicate TokenHasRow(w: World, token: Jwt) {
    && token.claims.grant in w.grants
    && var grant := w.grants[token.claims.grant];
       && Agrees(token.claims, grant) && token.claims.expiry == grant.expiresAt
       && token.claims.issuer == w.issuer && token.claims.audience == AUDIENCE
       && token.claims.issuedAt <= w.keys.now && token.claims.notBefore <= w.keys.now
  }

  ghost predicate Consistent(w: World) {
    && (forall g :: g in w.grants ==> g < w.next)
    && (forall t :: t in w.signed && t.typ == DELEGATION_TYPE ==> TokenHasRow(w, t))
  }

  lemma NextConsistent(w: World, step: Step)
    requires Consistent(w)
    ensures Consistent(Next(w, step))
  {
  }

  lemma {:induction false} RunConsistent(w: World, steps: seq<Step>)
    requires Consistent(w)
    ensures Consistent(Run(w, steps))
    decreases |steps|
  {
    if steps != [] {
      RunConsistent(w, steps[..|steps| - 1]);
      NextConsistent(Run(w, steps[..|steps| - 1]), steps[|steps| - 1]);
    }
  }

  /**
  In every reachable world a token is accepted exactly when it is a grant that the
  service signed with a key still published, and the grant is in force: the thirty
  seconds of leeway never extend it, and the claims never disagree with the row.
  */
  lemma AcceptedIffInForce(w: World, steps: seq<Step>, p: SigningKeys.Process, token: Jwt)
    requires Consistent(w)
    ensures var end := Run(w, steps);
            VerifyIn(end, p, token).Ok? <==> GrantInForce(end, token) && token.kid in Known(end.keys, p)
  {
    RunConsistent(w, steps);
  }

  /** Which reason a grant of the service's own gets, once its key is known. */
  lemma RefusalReasons(w: World, steps: seq<Step>, p: SigningKeys.Process, token: Jwt)
    requires Consistent(w)
    ensures var end := Run(w, steps);
            var result := VerifyIn(end, p, token);
            if token.typ != DELEGATION_TYPE || token !in end.signed || token.kid !in Known(end.keys, p)
            then result == Err(DelegationInvalid)
            else
              && token.claims.grant in end.grants
              && var grant := end.grants[token.claims.grant];
                 && (result == Err(DelegationRevoked) <==>
                     grant.revokedAt.Some? && end.keys.now < grant.expiresAt + end.leeway)
                 && (result == Err(DelegationExpired) <==>
                     || grant.expiresAt + end.leeway <= end.keys.now
                     || (grant.revokedAt.None? && grant.expiresAt <= end.keys.now))
                 && (result == Ok(grant) <==> grant.revokedAt.None? && end.keys.now < grant.expiresAt)
                 && result != Err(DelegationInvalid)
  {
    RunConsistent(w, steps);
    if token in Run(w, steps).signed && token.typ == DELEGATION_TYPE {
      assert TokenHasRow(Run(w, steps), token);
    }
  }

  // ---- Revocation is final ----

  /** Nothing ever revives a grant, extends it or changes what it covers. */
  lemma NextKeepsGrant(w: World, step: Step, id: GrantId)
    requires Consistent(w) && id in w.grants
    ensures var w' := Next(w, step);
            && id in w'.grants && w'.grants[id] == w.grants[id].(revokedAt := w'.grants[id].revokedAt)
            && (w.grants[id].revokedAt.Some? ==> w'.grants[id].revokedAt == w.grants[id].revokedAt)
            && w.keys.now <= w'.keys.now
  {
  }

  lemma {:induction false} RunKeepsGrant(w: World, steps: seq<Step>, id: GrantId)
    requires Consistent(w) && id in w.grants
    ensures var w' := Run(w, steps);
            && id in w'.grants && w'.grants[id] == w.grants[id].(revokedAt := w'.grants[id].revokedAt)
            && (w.grants[id].revokedAt.Some? ==> w'.grants[id].revokedAt == w.grants[id].revokedAt)
            && w.keys.now <= w'.keys.now
    decreases |steps|
  {
    if steps != [] {
      var before := steps[..|steps| - 1];
      RunKeepsGrant(w, before, id);
      RunConsistent(w, before);
      NextKeepsGrant(Run(w, before), steps[|steps| - 1], id);
    }
  }

  /** Once a grant is revoked or past its expiry, no later decision with its token is allowed, whatever happens in between. */
  lemma EndedGrantsNeverAllow(w: World, steps: seq<Step>, first: FirstRow, parse: string -> Option<Id>, rules: seq<Rule<Key>>, context: Context,
                              call: Call)
    requires Consistent(w) && call.token.Some? && call.token.value.claims.grant in w.grants
    requires w.grants[call.token.value.claims.grant].revokedAt.Some? || w.grants[call.token.value.claims.grant].expiresAt <= w.keys.now
    ensures Decide(Run(w, steps), first, parse, rules, context, call) != Ok(Allow(call.check.resource + "." + call.check.action))
  {
    RunKeepsGrant(w, steps, call.token.value.claims.grant);
    if Decide(Run(w, steps), first, parse, rules, context, call) == Ok(Allow(call.check.resource + "." + call.check.action)) {
      AllowedIffJustified(Run(w, steps), first, parse, rules, context, call);
    }
  }

  /** The kill switch ends every grant of a tenant, and there of a user or an agent if one is given, for good, and touches no other. */
  lemma KillSwitchIsFinal(w: World, tenant: Id, user: Option<Id>, agent: Option<Id>, steps: seq<Step>,
                          first: FirstRow, parse: string -> Option<Id>, rules: seq<Rule<Key>>, context: Context, call: Call)
    requires Consistent(w) && call.token.Some? && call.token.value.claims.grant in w.grants
    requires var grant := w.grants[call.token.value.claims.grant];
             grant.tenant == tenant && (user.None? || grant.user == user.value) && (agent.None? || grant.agent == agent.value)
    ensures var killed := Next(w, KillStep(tenant, user, agent));
            Decide(Run(killed, steps), first, parse, rules, context, call) != Ok(Allow(call.check.resource + "." + call.check.action))
    ensures var killed := Next(w, KillStep(tenant, user, agent));
            && killed.grants.Keys == w.grants.Keys
            && forall g :: g in w.grants ==>
                 killed.grants[g]
                 == if w.grants[g].tenant == tenant && (user.None? || w.grants[g].user == user.value)
                       && (agent.None? || w.grants[g].agent == agent.value) && w.grants[g].revokedAt.None?
                    then w.grants[g].(revokedAt := Some(w.keys.now)) else w.grants[g]
  {
    var step := KillStep(tenant, user, agent);
    NextConsistent(w, step);
    EndedGrantsNeverAllow(Next(w, step), steps, first, parse, rules, context, call);
  }

  /** Revoking one grant ends it now, if it was not revoked before, and touches no other. */
  lemma RevocationIsNow(w: World, id: GrantId, g: GrantId)
    requires g in w.grants
    ensures var revoked := Next(w, RevokeStep(id));
            && revoked.grants.Keys == w.grants.Keys
            && revoked.grants[g] == if g == id && w.grants[g].revokedAt.None? then w.grants[g].(revokedAt := Some(w.keys.now))
                                    else w.grants[g]
  {
  }

  /** The agent may do this for the user now, rules aside. */
  predicate MayNow(db: Db, first: FirstRow, tenant: Id, application: Id, user: Id, agent: Id, permission: string) {
    && InForce(db, first, tenant, application, user) && AgentLive(db, tenant, application, agent)
    && permission in UserPermissions(db, tenant, application, user)
    && permission in AgentPermissions(db, tenant, application, agent)
    && Unmasked(db, tenant, application, permission)
  }

  /** Delegated is what is named, if the agent may do all of it for the user; everything it may do if nothing is named. */
  lemma DelegableIsAvailable(db: Db, first: FirstRow, tenant: Id, application: Id, user: Id, agent: Id, named: Option<set<string>>)
    ensures match Delegable(db, first, tenant, application, user, agent, named)
            case Ok(granted) =>
              && (named.Some? ==> granted == named.value)
              && (forall n :: n in granted ==> MayNow(db, first, tenant, application, user, agent, n))
              && (named.None? ==> forall n :: MayNow(db, first, tenant, application, user, agent, n) ==> n in granted)
            case Err(excess) =>
              && named.Some? && excess != {}
              && forall n :: n in excess <==> n in named.value && !MayNow(db, first, tenant, application, user, agent, n)
  {
    AvailableNow(db, first, tenant, application, user, agent);
    var available := Available(db, first, tenant, application, user, agent);
    if named.Some? && !(named.value <= available) {
      var n :| n in named.value && n !in available;
      assert n in named.value - available;
    }
  }

  lemma AvailableNow(db: Db, first: FirstRow, tenant: Id, application: Id, user: Id, agent: Id)
    ensures forall n :: n in Available(db, first, tenant, application, user, agent)
                        <==> MayNow(db, first, tenant, application, user, agent, n)
  {
    var nothing: Context := (s: Subject, t: Key) => (c: Comparison) => None;
    var q := AgentRequest(tenant, application, user, agent, nothing, None);
    ActivityOf(db, first, tenant, application, q);
    PermissionsOfAgent(db, first, tenant, application, user, agent, nothing, None);
  }

  /**
  A grant that is issued is for what the terms say, in force for the time they say up to
  the fraction of a second that its times leave out, and comes with a token for it.
  */
  lemma IssuedIsInForce(w: World, p: SigningKeys.Process, terms: Terms)
    requires p in w.keys.caches
    ensures var w' := Next(w, IssueStep(p, terms));
            && w.next in w'.grants
            && var grant := w'.grants[w.next];
               && grant.tenant == terms.tenant && grant.application == terms.application
               && grant.user == terms.user && grant.agent == terms.agent && grant.permissions == terms.permissions
               && grant.revokedAt.None?
               && w.keys.now + (terms.ttl - 1) * 1_000_000 < grant.expiresAt <= w.keys.now + terms.ttl * 1_000_000
               && grant.expiresAt % 1_000_000 == 0 && w.keys.now - 1_000_000 < grant.createdAt <= w.keys.now
               && exists token :: token in w'.signed && token.claims.audience == "urn:authz:delegation" && token.typ == "authz-delegation+jwt" && token.claims.grant == w.next
                                  && token.kid == w.keys.caches[p] && token.claims.expiry == grant.expiresAt
    ensures forall g :: g in w.grants && g != w.next ==>
              g in Next(w, IssueStep(p, terms)).grants && Next(w, IssueStep(p, terms)).grants[g] == w.grants[g]
  {
    var token := Jwt(DELEGATION_TYPE, w.keys.caches[p], ClaimsOf(terms, w.issuer, w.next, w.keys.now));
    assert token in Next(w, IssueStep(p, terms)).signed;
  }

  lemma RunOneMore(w: World, steps: seq<Step>, step: Step)
    ensures Run(w, steps + [step]) == Next(Run(w, steps), step)
  {
  }

  /** In a run: a grant that is issued for at least a second is accepted, and refused as revoked once it is revoked. */
  lemma IssuedThenRevoked(w: World, p: SigningKeys.Process, terms: Terms)
    requires Consistent(w) && p in w.keys.caches && w.keys.caches[p] in Known(w.keys, p) && 1 <= terms.ttl
    ensures var token := Jwt(DELEGATION_TYPE, w.keys.caches[p], ClaimsOf(terms, w.issuer, w.next, w.keys.now));
            && VerifyIn(Run(w, [IssueStep(p, terms)]), p, token).Ok?
            && VerifyIn(Run(w, [IssueStep(p, terms), RevokeStep(w.next)]), p, token) == Err(DelegationRevoked)
  {
    var issue, revoke := IssueStep(p, terms), RevokeStep(w.next);
    var token := Jwt(DELEGATION_TYPE, w.keys.caches[p], ClaimsOf(terms, w.issuer, w.next, w.keys.now));
    RunOneMore(w, [], issue);
    RunOneMore(w, [issue], revoke);
    assert [issue] == [] + [issue] && [issue, revoke] == [issue] + [revoke];
    AcceptedIffInForce(w, [issue], p, token);
    RefusalReasons(w, [issue, revoke], p, token);
    assert token in Run(w, [issue, revoke]).signed;
  }

  /** An access token is signed with the same keys, and is no grant. */
  lemma AccessTokenIsNoGrant(w: World, p: SigningKeys.Process, claims: Claims, lifetime: nat, q: SigningKeys.Process)
    requires p in w.keys.caches
    ensures var w', token := Next(w, AccessTokenStep(p, claims, lifetime)), Jwt("JWT", w.keys.caches[p], claims);
            && w'.signed == w.signed + {token} && w'.grants == w.grants
            && VerifyIn(w', q, token) == Err(DelegationInvalid)
  {
  }

  // ---- A grant stays usable ----

  /** Where every run begins: no grant, no token, no stored key; processes may be given keys by the environment. */
  function FirstWorld(db: Db, issuer: string, leeway: nat, env: map<SigningKeys.Process, SigningKeys.Kid>): World {
    World(SigningKeys.FRESH.(env := env), db, map[], 0, {}, issuer, leeway)
  }

  lemma FirstWorldIsSound(db: Db, issuer: string, leeway: nat, env: map<SigningKeys.Process, SigningKeys.Kid>, ttl: nat)
    ensures var w := FirstWorld(db, issuer, leeway, env);
            Consistent(w) && Logged(w) && SigningKeys.WellKept(w.keys) && SigningKeys.GraceKept(w.keys, ttl)
  {
  }

  /** An entry of the key log stands for the token and expires no sooner. */
  ghost predicate EntryFor(entry: SigningKeys.Token, token: Jwt) {
    entry.kid == token.kid && token.claims.expiry <= entry.signedAt + entry.lifetime
  }

  ghost predicate Logged(w: World) {
    forall t :: t in w.signed && t.typ == DELEGATION_TYPE ==> exists entry :: entry in w.keys.signed && EntryFor(entry, t)
  }

  lemma NextLogged(w: World, step: Step)
    requires Logged(w)
    ensures Logged(Next(w, step))
  {
  }

  lemma {:induction false} RunLogged(w: World, steps: seq<Step>)
    requires Logged(w)
    ensures Logged(Run(w, steps))
    decreases |steps|
  {
    if steps != [] {
      RunLogged(w, steps[..|steps| - 1]);
      NextLogged(Run(w, steps[..|steps| - 1]), steps[|steps| - 1]);
    }
  }

  /**
  A grant is accepted until it is revoked or expires, provided the janitor's grace period
  covers the longest lifetime and how long after its rotation a key may still be signed with. A
  process that is given its key by the environment publishes that one, so the verifying
  process must have been given every such key.
  */
  lemma GrantUsableUntilItEnds(w: World, steps: seq<Step>, ttl: nat, lifetime: nat, delay: nat, p: SigningKeys.Process,
                              token: Jwt)
    requires Consistent(w) && Logged(w)
    requires forall k :: k in w.keys.env.Values ==> p in w.keys.env && w.keys.env[p] == k
    requires SigningKeys.WellKept(w.keys) && SigningKeys.GraceKept(w.keys, ttl)
    requires forall s :: s in steps && s.KeyStep? && s.event.PruneWith? ==> ttl <= s.event.ttl
    requires forall entry :: entry in Run(w, steps).keys.signed ==>
               entry.lifetime <= lifetime && SigningKeys.SignedInTime(Run(w, steps).keys, entry, delay)
    requires lifetime + delay <= 2 * ttl
    ensures GrantInForce(Run(w, steps), token) <==> VerifyIn(Run(w, steps), p, token).Ok?
  {
    var end := Run(w, steps);
    AcceptedIffInForce(w, steps, p, token);
    RunConsistent(w, steps);
    RunLogged(w, steps);
    RunKeepsKeys(w, steps, ttl);
    if GrantInForce(end, token) {
      assert TokenHasRow(end, token);
      var entry :| entry in end.keys.signed && EntryFor(entry, token);
      assert SigningKeys.HasKey(end.keys, entry.kid);
    }
  }

  lemma {:induction false} RunKeepsKeys(w: World, steps: seq<Step>, ttl: nat)
    requires SigningKeys.WellKept(w.keys) && SigningKeys.GraceKept(w.keys, ttl)
    requires forall s :: s in steps && s.KeyStep? && s.event.PruneWith? ==> ttl <= s.event.ttl
    ensures var w' := Run(w, steps);
            && SigningKeys.WellKept(w'.keys) && SigningKeys.GraceKept(w'.keys, ttl) && w'.keys.env == w.keys.env
    decreases |steps|
  {
    if steps != [] {
      var before, step := steps[..|steps| - 1], steps[|steps| - 1];
      RunKeepsKeys(w, before, ttl);
      var mid := Run(w, before);
      match step
      case KeyStep(event) => NextKeepsKeys(mid.keys, event, ttl);
      case IssueStep(p, terms) => NextKeepsKeys(mid.keys, SigningKeys.Sign(p, terms.ttl * SECOND), ttl);
      case AccessTokenStep(p, claims, lifetime) => NextKeepsKeys(mid.keys, SigningKeys.Sign(p, lifetime), ttl);
      case _ =>
    }
  }

  lemma NextKeepsKeys(keys: SigningKeys.Keys, event: SigningKeys.Event, ttl: nat)
    requires SigningKeys.WellKept(keys) && SigningKeys.GraceKept(keys, ttl)
    requires event.PruneWith? ==> ttl <= event.ttl
    ensures var keys' := SigningKeys.Next(keys, event);
            SigningKeys.WellKept(keys') && SigningKeys.GraceKept(keys', ttl) && keys'.env == keys.env
  {
    SigningKeys.NextWellKept(keys, event);
    SigningKeys.NextKeepsGrace(keys, event, ttl);
  }
}
