/**
The decision point: one check, many checks, or the whole effective set, for a user or
for an agent acting for a user, with or without references that the store resolved
beforehand, and with or without the permission subset of a delegation grant.
*/
module Engine {
  import opened Common
  import opened Rows
  import opened Policy

  /** An id as a request carries it: that of a row, or text that is no row's id. */
  datatype Key = Row(id: Id) | Raw(text: string)

  datatype SubjectKind = UserSubject | AgentSubject | OtherSubject

  datatype Subject = Subject(kind: SubjectKind, user: Option<Key>, agent: Option<Key>)

  datatype Reason =
    | TenantNotActive | ApplicationNotActive | InvalidSubject | NoActiveMembership | NoActiveUserMembership
    | AgentNotActive | NotDelegated | TenantFeatureDisabled | MissingPermission | PolicyConditionFailed
    | DelegationRequired | DelegationInvalid | DelegationExpired | DelegationRevoked | DelegationMismatch

  datatype Decision = Allow(required: string) | Deny(reason: Reason, required: string)

  /** A policy condition raised an exception, which the engine passes on. */
  datatype Raised = Raised

  /** What the store answers. */
  datatype Repository = Repository(
    tenantActive: Key -> bool,
    applicationActive: Key -> bool,
    membershipActive: (Key, Key, Key) -> bool,
    agentActive: (Key, Key, Key) -> bool,
    userPermissions: (Key, Key, Key) -> set<string>,
    agentPermissions: (Key, Key, Key) -> set<string>,
    mask: (Key, Key) -> set<string>)

  /** References resolved by the store; no status means that nothing matched. */
  datatype References = References(
    tenant: Key,
    application: Key,
    tenantStatus: Option<string>,
    applicationStatus: Option<string>,
    user: Option<Key>,
    userMissing: bool,
    agent: Option<Key>,
    agentStatus: Option<string>,
    agentMissing: bool)
  {
    predicate Complete() {
      tenantStatus.Some? && applicationStatus.Some? && !userMissing && !agentMissing
    }
  }

  /** What comparisons give for a subject in a tenant, given the attributes that came with the request. */
  type Context = (Subject, Key) -> Environment

  datatype Request = Request(
    tenant: Key,
    application: Key,
    subject: Subject,
    context: Context,
    delegated: Option<set<string>>,
    references: Option<References>)

  datatype Check = Check(resource: string, action: string)

  function Required(check: Check): string {
    check.resource + "." + check.action
  }

  // ---- The branches ----

  function Inactive(repo: Repository, q: Request): Option<Reason> {
    match q.references
    case None =>
      if !repo.tenantActive(q.tenant) then Some(TenantNotActive)
      else if !repo.applicationActive(q.application) then Some(ApplicationNotActive)
      else None
    case Some(refs) =>
      if refs.tenantStatus != Some(ACTIVE) then Some(TenantNotActive)
      else if refs.applicationStatus != Some(ACTIVE) then Some(ApplicationNotActive)
      else None
  }

  predicate MembershipActive(repo: Repository, q: Request, user: Key) {
    !(q.references.Some? && q.references.value.userMissing) && repo.membershipActive(q.tenant, q.application, user)
  }

  predicate AgentActive(repo: Repository, q: Request, agent: Key) {
    match q.references
    case None => repo.agentActive(q.tenant, q.application, agent)
    case Some(refs) =>
      if refs.agentMissing then false
      else if refs.agentStatus.Some? && refs.agent == Some(agent) then refs.agentStatus == Some(ACTIVE)
      else repo.agentActive(q.tenant, q.application, agent)
  }

  predicate UserMissing(q: Request) {
    q.references.Some? && q.references.value.userMissing
  }

  predicate AgentMissing(q: Request) {
    q.references.Some? && q.references.value.agentMissing
  }

  function ResolveUser(repo: Repository, q: Request): Result<set<string>, Reason> {
    var user := q.subject.user;
    if user.None? && !UserMissing(q) then Err(InvalidSubject)
    else if user.None? || !MembershipActive(repo, q, user.value) then Err(NoActiveMembership)
    else if AgentMissing(q) then Err(AgentNotActive)
    else Ok(repo.userPermissions(q.tenant, q.application, user.value))
  }

  function ResolveAgent(repo: Repository, q: Request): Result<set<string>, Reason> {
    var user, agent := q.subject.user, q.subject.agent;
    if (user.None? && !UserMissing(q)) || (agent.None? && !AgentMissing(q)) then Err(InvalidSubject)
    else if user.None? || !MembershipActive(repo, q, user.value) then Err(NoActiveUserMembership)
    else if agent.None? || !AgentActive(repo, q, agent.value) then Err(AgentNotActive)
    else Ok(repo.userPermissions(q.tenant, q.application, user.value)
            * repo.agentPermissions(q.tenant, q.application, agent.value))
  }

  function SubjectPermissions(repo: Repository, q: Request): Result<set<string>, Reason> {
    match q.subject.kind
    case UserSubject => ResolveUser(repo, q)
    case AgentSubject => ResolveAgent(repo, q)
    case OtherSubject => Err(InvalidSubject)
  }

  /** An empty mask restricts nothing. */
  function Masked(permissions: set<string>, mask: set<string>): set<string> {
    if mask == {} then permissions else permissions * mask
  }

  function Narrowed(permissions: set<string>, delegated: Option<set<string>>): set<string> {
    if delegated.Some? then permissions * delegated.value else permissions
  }

  // ---- One check ----

  function Authorize(repo: Repository, rules: seq<Rule<Key>>, q: Request, check: Check): Result<Decision, Raised> {
    var required := Required(check);
    var inactive := Inactive(repo, q);
    if inactive.Some? then Ok(Deny(inactive.value, required))
    else match SubjectPermissions(repo, q)
      case Err(reason) => Ok(Deny(reason, required))
      case Ok(permissions) =>
        var mask := repo.mask(q.tenant, q.application);
        var undelegated := Masked(permissions, mask);
        var effective := Narrowed(undelegated, q.delegated);
        if required !in effective then
          if required in undelegated then Ok(Deny(NotDelegated, required))
          else if mask != {} && required in permissions && required !in mask then Ok(Deny(TenantFeatureDisabled, required))
          else Ok(Deny(MissingPermission, required))
        else match Verdict(rules, TargetOf(q, check), q.context(q.subject, q.tenant))
          case None => Err(Raised)
          case Some(passes) => Ok(if passes then Allow(required) else Deny(PolicyConditionFailed, required))
  }

  function TargetOf(q: Request, check: Check): Target<Key> {
    Target(q.tenant, q.application, check.resource, check.action)
  }

  /** What comes out once the subject's permissions and the mask are known. */
  ghost predicate Decided(rules: seq<Rule<Key>>, q: Request, check: Check, permissions: set<string>, mask: set<string>,
                          decision: Result<Decision, Raised>)
  {
    var required := check.resource + "." + check.action;
    var unmasked := required in permissions && (mask == {} || required in mask);
    var delegated := unmasked && (q.delegated.Some? ==> required in q.delegated.value);
    var verdict := Verdict(rules, TargetOf(q, check), q.context(q.subject, q.tenant));
    && (decision == Ok(Deny(MissingPermission, required)) <==> required !in permissions)
    && (decision == Ok(Deny(TenantFeatureDisabled, required)) <==> required in permissions && !unmasked)
    && (decision == Ok(Deny(NotDelegated, required)) <==> unmasked && !delegated)
    && (decision == Ok(Deny(PolicyConditionFailed, required)) <==> delegated && verdict == Some(false))
    && (decision == Err(Raised) <==> delegated && verdict == None)
    && (decision == Ok(Allow(required)) <==> delegated && verdict == Some(true))
  }

  /** Activity comes first, then the subject, then its permissions. */
  lemma DecidedInOrder(repo: Repository, rules: seq<Rule<Key>>, q: Request, check: Check)
    ensures var decision := Authorize(repo, rules, q, check);
            match Inactive(repo, q)
            case Some(reason) => decision == Ok(Deny(reason, check.resource + "." + check.action))
            case None =>
              match SubjectPermissions(repo, q)
              case Err(reason) => decision == Ok(Deny(reason, check.resource + "." + check.action))
              case Ok(permissions) => Decided(rules, q, check, permissions, repo.mask(q.tenant, q.application), decision)
  {
  }

  /** No reason is given twice: what comes before the subject's permissions, and Decided from there on. */
  lemma DecidedOnce(repo: Repository, rules: seq<Rule<Key>>, q: Request, check: Check)
    ensures var decision, required := Authorize(repo, rules, q, check), check.resource + "." + check.action;
            var inactive, permissions := Inactive(repo, q), SubjectPermissions(repo, q);
            && (forall reason :: reason in {TenantNotActive, ApplicationNotActive} ==>
                  (decision == Ok(Deny(reason, required)) <==> inactive == Some(reason)))
            && (forall reason :: reason in {NoActiveMembership, NoActiveUserMembership, AgentNotActive} ==>
                  (decision == Ok(Deny(reason, required)) <==> inactive.None? && permissions == Err(reason)))
            && (inactive.None? && permissions.Ok? ==>
                  Decided(rules, q, check, permissions.value, repo.mask(q.tenant, q.application), decision))
  {
    DecidedInOrder(repo, rules, q, check);
  }

  // ---- Many checks ----

  /** Resolve the subject once, then go through the checks. */
  method BulkAuthorize(repo: Repository, rules: seq<Rule<Key>>, q: Request, checks: seq<Check>)
    returns (result: Result<seq<Decision>, Raised>)
    ensures result.Ok? <==> forall i :: 0 <= i < |checks| ==> Authorize(repo, rules, q, checks[i]).Ok?
    ensures result.Ok? ==>
              && |result.value| == |checks|
              && (forall i :: 0 <= i < |checks| ==> Authorize(repo, rules, q, checks[i]) == Ok(result.value[i]))
              && (forall i :: 0 <= i < |checks| ==> result.value[i].required == checks[i].resource + "." + checks[i].action)
  {
    var inactive := Inactive(repo, q);
    if inactive.Some? {
      return Ok(seq(|checks|, i requires 0 <= i < |checks| => Deny(inactive.value, Required(checks[i]))));
    }
    var subject := SubjectPermissions(repo, q);
    if subject.Err? {
      return Ok(seq(|checks|, i requires 0 <= i < |checks| => Deny(subject.error, Required(checks[i]))));
    }
    var mask := repo.mask(q.tenant, q.application);
    var undelegated := if mask != {} then subject.value * mask else subject.value;
    var effective := if q.delegated.Some? then undelegated * q.delegated.value else undelegated;
    var decisions: seq<Decision> := [];
    for i := 0 to |checks|
      invariant |decisions| == i
      invariant forall k :: 0 <= k < i ==> Authorize(repo, rules, q, checks[k]) == Ok(decisions[k])
    {
      var required := Required(checks[i]);
      if required in effective {
        var verdict := Verdict(rules, TargetOf(q, checks[i]), q.context(q.subject, q.tenant));
        if verdict.None? {
          return Err(Raised);
        }
        decisions := decisions + [if verdict.value then Allow(required) else Deny(PolicyConditionFailed, required)];
      } else if required in undelegated {
        decisions := decisions + [Deny(NotDelegated, required)];
      } else if mask != {} && required in subject.value && required !in mask {
        decisions := decisions + [Deny(TenantFeatureDisabled, required)];
      } else {
        decisions := decisions + [Deny(MissingPermission, required)];
      }
    }
    return Ok(decisions);
  }

  // ---- The effective set ----

  function Undelegated(repo: Repository, q: Request): set<string> {
    if Inactive(repo, q).Some? then {}
    else
      match q.subject.kind
      case UserSubject =>
        if q.subject.user.None? || !MembershipActive(repo, q, q.subject.user.value) then {}
        else Masked(repo.userPermissions(q.tenant, q.application, q.subject.user.value), repo.mask(q.tenant, q.application))
      case AgentSubject =>
        if q.subject.user.None? || q.subject.agent.None? || !MembershipActive(repo, q, q.subject.user.value)
           || !AgentActive(repo, q, q.subject.agent.value) then {}
        else Masked(repo.userPermissions(q.tenant, q.application, q.subject.user.value)
                    * repo.agentPermissions(q.tenant, q.application, q.subject.agent.value),
                    repo.mask(q.tenant, q.application))
      case OtherSubject => {}
  }

  function EffectivePermissions(repo: Repository, q: Request): set<string> {
    Narrowed(Undelegated(repo, q), q.delegated)
  }

  /**
  A check is allowed exactly when the effective set has it and the rules pass, with one
  exception: for a user subject whose request also names an agent that does not exist,
  every check is denied while the engine's effective set looks at the user alone.
  */
  lemma AllowedIff(repo: Repository, rules: seq<Rule<Key>>, q: Request, check: Check)
    ensures Authorize(repo, rules, q, check) == Ok(Allow(check.resource + "." + check.action)) <==>
            && check.resource + "." + check.action in EffectivePermissions(repo, q)
            && Verdict(rules, TargetOf(q, check), q.context(q.subject, q.tenant)) == Some(true)
            && !(q.subject.kind == UserSubject && AgentMissing(q))
  {
  }

  /**
  What is in the effective set, apart from references: for a user, what the store gives
  to the user; for an agent, what it gives to both; for anybody else, nothing. The mask
  and the grant, where there is one, have to have it too.
  */
  lemma EffectiveIff(repo: Repository, q: Request, permission: string)
    requires q.references.None?
    ensures permission in EffectivePermissions(repo, q) <==>
            && repo.tenantActive(q.tenant) && repo.applicationActive(q.application)
            && (q.subject.kind == UserSubject || (q.subject.kind == AgentSubject && q.subject.agent.Some?))
            && q.subject.user.Some? && repo.membershipActive(q.tenant, q.application, q.subject.user.value)
            && permission in repo.userPermissions(q.tenant, q.application, q.subject.user.value)
            && (q.subject.kind == AgentSubject ==>
                  && repo.agentActive(q.tenant, q.application, q.subject.agent.value)
                  && permission in repo.agentPermissions(q.tenant, q.application, q.subject.agent.value))
            && (repo.mask(q.tenant, q.application) == {} || permission in repo.mask(q.tenant, q.application))
            && (q.delegated.None? || permission in q.delegated.value)
  {
  }

  /** The exception occurs: everything is in force for the user, but the named agent does not exist. */
  lemma MissingAgentIsDenied(rules: seq<Rule<Key>>, check: Check, context: Context)
    ensures var user, required := Raw("user"), check.resource + "." + check.action;
            var repo := Repository((k: Key) => true, (k: Key) => true, (t: Key, a: Key, u: Key) => true,
                                   (t: Key, a: Key, g: Key) => true, (t: Key, a: Key, u: Key) => {required},
                                   (t: Key, a: Key, g: Key) => {required}, (t: Key, a: Key) => {});
            var refs := References(Raw("tenant"), Raw("application"), Some("active"), Some("active"), Some(user), false, None, None, true);
            var q := Request(refs.tenant, refs.application, Subject(UserSubject, Some(user), None), context, None, Some(refs));
            required in EffectivePermissions(repo, q) && Authorize(repo, rules, q, check) == Ok(Deny(AgentNotActive, required))
  {
  }

  /** An agent acting for a user never has more than the user. */
  lemma AgentWithinUser(repo: Repository, q: Request)
    requires q.subject.kind == AgentSubject
    ensures EffectivePermissions(repo, q) <= EffectivePermissions(repo, q.(subject := q.subject.(kind := UserSubject)))
  {
  }

  /** A grant intersects. */
  lemma GrantIntersects(repo: Repository, q: Request, grant: set<string>)
    ensures EffectivePermissions(repo, q.(delegated := Some(grant)))
            == EffectivePermissions(repo, q.(delegated := None)) * grant
  {
  }

  /** A grant leaves a decision alone, or turns a check that role permissions allow into one that is not delegated. */
  lemma GrantOnlyNarrows(repo: Repository, rules: seq<Rule<Key>>, q: Request, check: Check, grant: set<string>)
    ensures var plain := Authorize(repo, rules, q.(delegated := None), check);
            var granted := Authorize(repo, rules, q.(delegated := Some(grant)), check);
            granted == if check.resource + "." + check.action !in grant
                          && (plain.Err? || plain.value.Allow? || plain.value.reason == PolicyConditionFailed)
                       then Ok(Deny(NotDelegated, check.resource + "." + check.action)) else plain
  {
  }

  // ---- References ----

  /**
  Incomplete references are denied for every subject, grant and check, with the reason
  that the engine gives for an inactive tenant, application, membership or agent.
  */
  lemma IncompleteIsDenied(repo: Repository, rules: seq<Rule<Key>>, q: Request, check: Check)
    requires q.references.Some? && !q.references.value.Complete()
    ensures Authorize(repo, rules, q, check).Ok? && Authorize(repo, rules, q, check).value.Deny?
    ensures var refs, reason := q.references.value, Authorize(repo, rules, q, check).value.reason;
            && (refs.tenantStatus != Some("active") ==> reason == TenantNotActive)
            && (refs.tenantStatus == Some("active") && refs.applicationStatus != Some("active") ==> reason == ApplicationNotActive)
            && (refs.tenantStatus == refs.applicationStatus == Some("active") && refs.userMissing ==>
                  && (q.subject.kind == UserSubject ==> reason == NoActiveMembership)
                  && (q.subject.kind == AgentSubject && (q.subject.agent.Some? || refs.agentMissing) ==> reason == NoActiveUserMembership))
            && (refs.tenantStatus == refs.applicationStatus == Some("active") && !refs.userMissing && q.subject.user.Some? ==>
                  (q.subject.kind == UserSubject || q.subject.kind == AgentSubject) ==>
                  reason == if repo.membershipActive(q.tenant, q.application, q.subject.user.value) then AgentNotActive
                            else if q.subject.kind == UserSubject then NoActiveMembership else NoActiveUserMembership)
  {
  }

  /** What a delegation token does to a request. */
  datatype Outcome = Outcome(permissions: Option<set<string>>, denied: Option<Reason>, subject: Subject)

  /** An unknown reference outranks a delegation problem. */
  function DelegationDeny(refs: References, outcome: Outcome): Option<Reason> {
    if refs.Complete() then outcome.denied else None
  }

  function EndpointRequest(refs: References, outcome: Outcome, context: Context): Request {
    Request(refs.tenant, refs.application, outcome.subject, context, outcome.permissions, Some(refs))
  }

  function AuthorizeEndpoint(repo: Repository, rules: seq<Rule<Key>>, refs: References, outcome: Outcome, context: Context,
                             check: Check): Result<Decision, Raised>
  {
    var denied := DelegationDeny(refs, outcome);
    if denied.Some? then Ok(Deny(denied.value, Required(check)))
    else Authorize(repo, rules, EndpointRequest(refs, outcome, context), check)
  }

  lemma OnlyAcceptedAllows(repo: Repository, rules: seq<Rule<Key>>, refs: References, outcome: Outcome, context: Context, check: Check)
    requires AuthorizeEndpoint(repo, rules, refs, outcome, context, check) == Ok(Allow(check.resource + "." + check.action))
    ensures refs.Complete() && outcome.denied.None?
  {
  }

  method BulkEndpoint(repo: Repository, rules: seq<Rule<Key>>, refs: References, outcome: Outcome, context: Context,
                      checks: seq<Check>)
    returns (result: Result<seq<Decision>, Raised>)
    ensures result.Ok? <==>
            forall i :: 0 <= i < |checks| ==> AuthorizeEndpoint(repo, rules, refs, outcome, context, checks[i]).Ok?
    ensures result.Ok? ==>
              && |result.value| == |checks|
              && (forall i | 0 <= i < |checks|
                    :: AuthorizeEndpoint(repo, rules, refs, outcome, context, checks[i]) == Ok(result.value[i]))
              && (forall i :: 0 <= i < |checks| ==> result.value[i].required == checks[i].resource + "." + checks[i].action)
  {
    var denied := DelegationDeny(refs, outcome);
    if denied.Some? {
      return Ok(seq(|checks|, i requires 0 <= i < |checks| => Deny(denied.value, Required(checks[i]))));
    }
    result := BulkAuthorize(repo, rules, EndpointRequest(refs, outcome, context), checks);
  }

  /** The endpoint answers nothing for incomplete references and an error for a bad grant. */
  function EffectiveEndpoint(repo: Repository, refs: References, outcome: Outcome, context: Context)
    : Result<set<string>, Reason>
  {
    if !refs.Complete() then Ok({})
    else if outcome.denied.Some? then Err(outcome.denied.value)
    else Ok(EffectivePermissions(repo, EndpointRequest(refs, outcome, context)))
  }

  /** The endpoint has an answer unless everything named exists and the grant is bad; it lists nothing for what does not exist. */
  lemma EffectiveAnswer(repo: Repository, refs: References, outcome: Outcome, context: Context)
    ensures var answer := EffectiveEndpoint(repo, refs, outcome, context);
            && (answer.Err? <==> refs.Complete() && outcome.denied.Some?)
            && (answer.Err? ==> Some(answer.error) == outcome.denied)
            && (answer.Ok? ==> forall n :: n in answer.value <==>
                  refs.Complete() && n in EffectivePermissions(repo, EndpointRequest(refs, outcome, context)))
  {
  }

  /**
  A check that the endpoint allows was made with complete references and an accepted
  grant, and lies in the endpoint's effective set: hiding the grant's deny reason behind
  an incomplete reference never turns a deny into an allow.
  */
  lemma EndpointAllows(repo: Repository, rules: seq<Rule<Key>>, refs: References, outcome: Outcome, context: Context,
                       check: Check)
    ensures AuthorizeEndpoint(repo, rules, refs, outcome, context, check) == Ok(Allow(check.resource + "." + check.action)) <==>
            && refs.Complete() && outcome.denied.None?
            && EffectiveEndpoint(repo, refs, outcome, context).Ok?
            && check.resource + "." + check.action in EffectiveEndpoint(repo, refs, outcome, context).value
            && Verdict(rules, Target(refs.tenant, refs.application, check.resource, check.action),
                       context(outcome.subject, refs.tenant)) == Some(true)
  {
  }
}
