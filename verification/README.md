# Verified model of the authorization service

The service decides whether a user, or an agent acting for a user, may do something in
a tenant's application. This project models its store, its decision point and the
protocols around them in Dafny and proves what they promise.

- `Rows`, `Resolution`, `Assignments`, `Registry`: the role store. Links hold role ids;
  what they mean is by role name, tenant first. Every operation is shown to do to the ids
  what its name-level counterpart does to the names.
- `TenantMembers`, `TenantAgents`, `TenantStates`, `TenantNames`, `TenantDescriptions`,
  `Catalog`: provisioning. A complete desired state is applied as a difference, in passes of
  loops, in one transaction.
- `MemoryStore`: the in-memory store's resolution loops against the one-query form.
- `RoleStore`, `NameRuns`: the store as an object, and runs of its transactions through
  ids and by name. `Overrides`: a tenant override that is deleted again leaves no trace.
- `Policy`, `Engine`, `Decisions`: the rule engine, the decision point with its single,
  bulk and effective-set forms, and decisions over the store.
- `SigningKeys`, `Delegation`: signing keys and delegation grants as protocols over time.
- `Invitations`: concurrent acceptance of an invitation.
- `RateLimit`, `SdkCache`: the sliding-window limiter (in memory and in Redis) and the
  client library's cache, over whole call histories.
- `Scopes`: scopes from stored text to token claim to principal.

`dafny verify dfyconfig.toml` checks everything.

## Assumptions

- A database session is one atomic step that commits or changes nothing. Only invitation
  acceptance is split into its transactions. New rows get ids never used before.
- Application-wide role names are unique per application. The unique constraint does not
  see a NULL tenant; `Assignments.CreateRoleValidity` says exactly when creating a role
  keeps this. In the same way platform permission names are unique
  (`Registry.CreatePermissionValidity`). Runs create roles and permissions under free
  names only. The catalog keeps both.
- Each user has one external identity; the operations here keep this.
- Every permission row has an id of its own. The in-memory store uses the name as the id,
  so permissions of one name in two applications share a row there.
- A user may have several tenant-wide memberships in one tenant, which NULL keeps the
  database from excluding. The activity check reads the row that the database returns
  first: a parameter (`Decisions.FirstRow`), so the results hold for every choice.
- Signatures are ideal: only the service signs, and a token is its claims and a key id.
- Clocks do not go back, and calls reach Redis in the order of their timestamps. The
  server's clock is its own: it decides when a key expires (`RateLimit.Drift`). Redis set
  members are distinct. The limiter is on (its limit is positive).
- Membership creation during acceptance commits or leaves nothing behind.
- Tenant ids in scopes use letters, digits, `_`, `-` and `:`.

## Where the code differs from what is said about it

- A catalog that names a default role twice: the links are compared with those read before
  the first entry was written, so the run may be refused, or leave a role that meets
  neither entry. `Catalog.EntriesDecide` states both conditions, `Catalog.CatalogByName` what
  an accepted run leaves. Such a catalog need not be idempotent: every run turns around a
  permission that only some entries for a role list (`Catalog.UnevenGrantsToggle`,
  `Catalog.SecondCatalogIsIdleIff`).
- A well-formed tenant state is refused when the tenant has a role of its own that is named
  like a listed agent's internal role: `TenantStates.ApplyTenantState`,
  `TenantStates.ClashingStateIsRefused`.
- The janitor's grace period is said to cover the longest token in flight. It is computed
  from the lifetime of access tokens, while a grant may live a day, and it does not cover a
  process that goes on signing with a key that another process has rotated away: nothing
  but a rotation of its own makes a process forget the key it remembers.
  `SigningKeys.GraceIsLongEnoughIff`, `SigningKeys.DefaultGraceIsTooShortForGrants`.
- The Redis limiter is to answer like the one in memory. The key expires by the server's
  clock and the entries by the callers', so a call that is under way for longer than the
  one before can find the key gone too early: `RateLimit.RedisAnswersAlikeIff`,
  `RateLimit.DelayedCallLetsIn`.
- Revoking an invitation is not final while an acceptor is between claiming it and
  finishing: `Invitations.RevocationIsFinalIff`, and `Invitations.RevocationIsSafeIff` for
  what a revoker can see.
- The engine's effective set ignores, for a user subject, that the request names an agent
  that does not exist, while every check is denied (`Engine.AllowedIff`,
  `Engine.MissingAgentIsDenied`). The endpoint
  answers with an empty set before it asks the engine.
- Rules that raise: whether a request passes never depends on the rule order, but whether
  the answer is a refusal or an exception may; `Policy.OrderIndependentIff` says exactly
  when it does not.

## Model

| member | source | states |
|---|---|---|
| `Resolution.UserResolutionIsByName` | authzkit/storage/sqlalchemy.py:774-818 | in every valid store a user's permissions through link ids are exactly what the held role names grant: the tenant's role of that name if there is one, else the application-wide one |
| `Resolution.AgentResolutionIsByName` | authzkit/storage/sqlalchemy.py:820-847 | the same for an agent, through its role names and its internal role |
| `Resolution.EffectiveIsDenoted` | authzkit/storage/sqlalchemy.py:626-650 | a linked named role takes effect as exactly the role that its name stands for in the tenant |
| `Resolution.EffectivePerLink` | authzkit/storage/sqlalchemy.py:626-650 | the role that takes effect for a link does not depend on the other links |
| `Resolution.NameGrantsThroughIds` | authzkit/storage/sqlalchemy.py:626-650 | a name grants a permission exactly when a role id in effect for its link is linked to an active permission of that name |
| `Assignments.AssignableNames` | authzkit/storage/sqlalchemy.py:583-611 | tenant-first resolution finds exactly the names that have a role, and one role for each |
| `Assignments.SetMembershipRolesByName` | authzkit/storage/sqlalchemy.py:542-556 | assigning roles to a membership keeps the store valid and, by name, makes the held names exactly those given names that have a role |
| `Assignments.SetAgentRolesByName` | authzkit/storage/sqlalchemy.py:987-1006 | assigning roles to an agent succeeds exactly when every name has a role, and then the agent holds exactly these names and nothing internal; otherwise nothing changes |
| `Assignments.SetAgentRolesValid` | authzkit/storage/sqlalchemy.py:987-1006 | it keeps the store valid |
| `Assignments.SetRolePermissionsByName` | authzkit/storage/sqlalchemy.py:755-770 | it succeeds exactly when every name is an active permission of the role's application, and then the role grants exactly these names |
| `Assignments.SetRolePermissionsValid` | authzkit/storage/sqlalchemy.py:755-770 | it keeps the store valid |
| `Assignments.RefusedNames` | authzkit/storage/sqlalchemy.py:755-770 | a refused assignment of roles to an agent or of permissions to a role reports exactly the unknown names |
| `Assignments.SetOverrideByName` | authzkit/storage/sqlalchemy.py:1516-1544 | a tenant override keeps the store valid and redefines the name for this tenant alone, with exactly the given permissions |
| `Assignments.SetOverrideSucceedsIff` | authzkit/storage/sqlalchemy.py:1516-1544 | it succeeds exactly when all its permissions are active and the override exists or its row can be added |
| `Assignments.RefusedOverride` | authzkit/storage/sqlalchemy.py:1516-1544 | a refused override reports exactly the names without an active permission, if there are any |
| `Assignments.DeleteOverrideByName` | authzkit/storage/sqlalchemy.py:1546-1573 | deleting an override drops the tenant's definition; holders keep the name if a default role bears it and lose it otherwise |
| `Assignments.DeleteOverrideValid` | authzkit/storage/sqlalchemy.py:1546-1573 | it keeps the store valid |
| `Assignments.CreateMembershipByName` | authzkit/storage/sqlalchemy.py:477-510 | a new membership holds exactly those given names that have a role |
| `Assignments.CreateMembershipValid` | authzkit/storage/sqlalchemy.py:477-510 | it keeps the store valid |
| `Assignments.CreateMembershipRefusedIff` | authzkit/storage/sqlalchemy.py:477-510 | it is refused exactly when tenant, user or application is missing or the store with the new row would have two memberships of one user in one application of a tenant |
| `Assignments.CreateAgentByName` | authzkit/storage/sqlalchemy.py:922-946 | a new agent holds no role names |
| `Assignments.CreateAgentValid` | authzkit/storage/sqlalchemy.py:922-946 | it keeps the store valid |
| `Assignments.AgentCreated` | authzkit/storage/sqlalchemy.py:922-950 | the new agent is one more row with what was given, and nothing else changes |
| `Assignments.CreateAgentRefusedIff` | authzkit/storage/sqlalchemy.py:922-950 | it is refused exactly when tenant or application is missing or the store with the new row would have two agents of one name in it |
| `Assignments.CreateRoleValidity` | authzkit/storage/sqlalchemy.py:652-672 | creating a role keeps the store valid exactly when no role of that tenant, application and name exists; for an absent tenant the database accepts the row either way |
| `Assignments.CreateRoleRefusedIff` | authzkit/storage/sqlalchemy.py:652-672 | it is refused exactly when tenant or application is missing or, where both are given, the store with the new row would have two roles of one name there |
| `Registry.CreatePermissionValidity` | authzkit/storage/sqlalchemy.py:712-732 | likewise for a permission; a platform permission is accepted either way |
| `Registry.CreatePermissionRefusedIff` | authzkit/storage/sqlalchemy.py:712-732 | it is refused exactly when the name has no dot, or an application is given that is missing or in which the name is taken |
| `Registry.CreatePermissionByName` | authzkit/storage/sqlalchemy.py:712-732 | a new permission is active and nobody holds it yet |
| `Registry.CreateTenantValid` | authzkit/storage/sqlalchemy.py:193-198 | a new tenant, which needs a free slug, keeps the store valid |
| `Registry.TenantCreated` | authzkit/storage/sqlalchemy.py:193-198 | the new tenant is one more row with what was given, and nothing else changes |
| `Registry.SlugRefusedIff` | authzkit/storage/sqlalchemy.py:193-232 | a tenant or application is refused exactly when another one has its slug |
| `Registry.CreateApplicationValid` | authzkit/storage/sqlalchemy.py:223-232 | likewise a new application |
| `Registry.ApplicationCreated` | authzkit/storage/sqlalchemy.py:223-232 | the new application is one more row with what was given, and nothing else changes |
| `Registry.SetManagerValid` | authzkit/storage/sqlalchemy.py:323-328 | changing an application's manager keeps the store valid |
| `Registry.ManagerIsSet` | authzkit/storage/sqlalchemy.py:323-328 | the manager is what it was set to, and nothing else changes |
| `Registry.UpsertUserValid` | authzkit/storage/sqlalchemy.py:366-421 | after signing in, the identity has a user, no user has two identities, and the store is valid |
| `Registry.UserUpserted` | authzkit/storage/sqlalchemy.py:366-421 | a known identity keeps its user, profile included; a new one leads to a new active user with the given profile |
| `NameRuns.RegistrationByName` | authzkit/storage/sqlalchemy.py:193-421 | creating tenants, applications and users and setting a manager change nothing about what names mean; a new permission is one more active name |
| `Overrides.DeletionCommutes` | authzkit/storage/sqlalchemy.py:1546-1573 | deleting an override before or after any transaction that does not concern it leaves the same store, row for row: assignments, new memberships, agents, roles and permissions, other roles and overrides |
| `Overrides.OverrideLeavesNoTrace` | authzkit/storage/sqlalchemy.py:1516-1573 | setting an override and deleting it, with any number of such transactions in between, leaves exactly the rows and links that the transactions alone leave, if neither run uses the id drawn for the override |
| `Overrides.SetThenDelete` | authzkit/storage/sqlalchemy.py:1516-1573 | with nothing in between it leaves the store that deleting an override leaves, with one id drawn at most |
| `Assignments.SameViewSamePermissions` | authzkit/storage/sqlalchemy.py:774-847 | stores that agree by name answer every resolution alike |
| `TenantMembers.ApplyMembers` | authzkit/storage/sqlalchemy.py:1299-1381 | the passes over users, membership rows, links and the rest reach the settled state, and the counters are the numbers of rows created, changed and disabled |
| `TenantMembers.ReplaceKnown` | authzkit/storage/sqlalchemy.py:1159-1180 | deleting and inserting the difference makes the owner's links exactly the wanted ids, and reports whether anything changed |
| `TenantMembers.MembersStayValid` | authzkit/storage/sqlalchemy.py:1299-1381 | settled members leave the store valid |
| `TenantMembers.ListedMemberHolds` | authzkit/storage/sqlalchemy.py:1299-1381 | each listed member has one membership in the slice with the desired status and exactly the desired role names |
| `TenantMembers.SettledTwice` | authzkit/storage/sqlalchemy.py:1299-1381 | a second pass over settled members changes no row and no link |
| `TenantAgents.ApplyAgents` | authzkit/storage/sqlalchemy.py:1383-1476 | the passes over agent rows, internal roles, links and the rest reach the settled state with exact counters, or stop because a named role bears an internal role's name |
| `TenantAgents.EnsureInternalRoles` | authzkit/storage/sqlalchemy.py:1383-1476 | every listed agent gets its internal role unless, and only unless, another role of the tenant already bears that name |
| `TenantAgents.AgentsStayValid` | authzkit/storage/sqlalchemy.py:1383-1476 | settled agents leave the store valid |
| `TenantAgents.ListedAgentHolds` | authzkit/storage/sqlalchemy.py:1383-1476 | each listed agent resolves to precisely its listed permissions |
| `TenantAgents.AgentsSettledTwice` | authzkit/storage/sqlalchemy.py:1383-1476 | a second pass over settled agents changes no row and no link |
| `TenantAgents.ClashIsNamed` | authzkit/storage/sqlalchemy.py:1439-1456 | a run can only be stopped by a named role that bears the internal role name of a listed agent |
| `TenantStates.Validate` | authzkit/storage/sqlalchemy.py:1238-1297 | it reports every issue of a desired state at its position, and nothing that is not one |
| `TenantStates.NoIssues` | authzkit/storage/sqlalchemy.py:1238-1297 | a state has no issues exactly when its references are distinct, its statuses known and every role and permission name resolves |
| `TenantStates.ApplyTenantState` | authzkit/storage/sqlalchemy.py:1197-1236 | which of three outcomes a run has can be told from the arguments: applied with exact counters, the list of exactly the issues of an ill-formed state, aborted exactly when the tenant exists and has a named role `agent:<name>` for a listed agent; the latter two change nothing |
| `TenantStates.AppliedDoesNotClash` | authzkit/storage/sqlalchemy.py:1439-1456 | where such a role exists, no run succeeds |
| `TenantStates.ClashingStateIsRefused` | authzkit/storage/sqlalchemy.py:1439-1456 | a valid store and a well-formed state for which the run is aborted |
| `TenantNames.TenantStateByName` | authzkit/storage/sqlalchemy.py:1197-1476 | by name: the listed memberships hold exactly the listed names, the listed agents are provisioned with exactly the listed permissions, the rest of the slice is disabled, all other holders, definitions and grants are as before |
| `TenantStates.AppliedIsValid` | authzkit/storage/sqlalchemy.py:1197-1236 | a successful run leaves the store valid |
| `TenantStates.ListedMembersMatch` | authzkit/storage/sqlalchemy.py:1299-1381 | after a run every listed member has the desired status and role names |
| `TenantStates.ListedAgentsMatch` | authzkit/storage/sqlalchemy.py:1383-1476 | after a run every listed agent has the desired row and resolves to precisely its listed permissions |
| `TenantStates.StateHasTenant` | authzkit/storage/sqlalchemy.py:1197-1260 | the tenant of the slug is as it was if it existed, else new and active under the given name |
| `TenantStates.StateHasUsers` | authzkit/storage/sqlalchemy.py:1308-1352 | a listed reference that was nobody's becomes a new active user with the given profile; known users and identities stay as they are |
| `TenantStates.OthersAreDisabled` | authzkit/storage/sqlalchemy.py:1369-1476 | after a run every membership and agent of the slice that is not listed is disabled |
| `TenantStates.OthersAreUntouched` | authzkit/storage/sqlalchemy.py:1197-1476 | pre-existing tenants, users, identities and named roles, and all rows and links of other tenants and applications, are as before |
| `TenantStates.OtherUsersKeepPermissions` | authzkit/storage/sqlalchemy.py:1197-1476 | no user gains or loses a permission in another tenant or application |
| `TenantStates.OtherAgentsKeepPermissions` | authzkit/storage/sqlalchemy.py:1197-1476 | nor does any agent |
| `TenantStates.SecondRunChangesNothing` | authzkit/storage/sqlalchemy.py:1197-1476 | applying the same state again changes no row and no link |
| `TenantStates.SecondRunCountsNothing` | authzkit/storage/sqlalchemy.py:1299-1476 | and all its counters are zero |
| `TenantStates.SecondRunSucceeds` | authzkit/storage/sqlalchemy.py:1197-1297 | and it is neither invalid nor aborted |
| `TenantDescriptions.DescriptionIsWellFormed` | authzkit/storage/sqlalchemy.py:1238-1306 | the state that lists a slice as it stands, disabled rows included, is well-formed |
| `TenantDescriptions.DescriptionDoesNotClash` | authzkit/storage/sqlalchemy.py:1439-1456 | and not refused, if the agents of the slice have their internal roles |
| `TenantDescriptions.DescriptionChangesNothing` | authzkit/storage/sqlalchemy.py:1197-1476 | applying it changes nothing about members, agents, definitions, grants and active permissions |
| `Catalog.ValidateCatalog` | authzkit/storage/sqlalchemy.py:1036-1057 | it reports every issue of a catalog at its position, and nothing that is not one |
| `Catalog.ApplyPermissions` | authzkit/storage/sqlalchemy.py:1070-1096 | listed permissions end up active and the others of the application deprecated, rows of other applications stay, and both counters are exact |
| `Catalog.LinkDefaultRoles` | authzkit/storage/sqlalchemy.py:1119-1128 | the links are refused exactly when two entries insert the same permission for one role; otherwise a link that was there stays exactly if every entry for its role wants it, and a new one comes exactly if some entry does |
| `Catalog.EntriesDecide` | authzkit/storage/sqlalchemy.py:1098-1128 | both conditions can be told beforehand: exact iff entries of one name list the same permissions and the existing default role already carries them all, refused iff two of them list a permission that it does not carry yet |
| `Catalog.DistinctEntriesAgree` | authzkit/storage/sqlalchemy.py:1103-1128 | with distinct role names the run is exact |
| `Catalog.RepeatedRoleIsRefused` | authzkit/storage/sqlalchemy.py:1119-1128 | a well-formed catalog that is refused: a new role named twice with the same permission |
| `Catalog.RepeatedRoleIsMerged` | authzkit/storage/sqlalchemy.py:1119-1128 | a well-formed catalog that is accepted without either of its entries being met: a new role named twice with different permissions |
| `Catalog.ApplyCatalog` | authzkit/storage/sqlalchemy.py:1020-1136 | which of three outcomes a run has can be told from the arguments: written with exact counters, the list of exactly the issues of an ill-formed catalog, aborted exactly when entries clash; the latter two change nothing |
| `Catalog.ActiveAreListed` | authzkit/storage/sqlalchemy.py:1070-1096 | the application's active permissions are exactly the listed ones |
| `Catalog.OthersKeepPermissions` | authzkit/storage/sqlalchemy.py:1070-1096 | active permissions of other applications and of the platform are as before |
| `Catalog.DefaultRoleGrants` | authzkit/storage/sqlalchemy.py:1098-1128 | with entries that agree, each default role exists and carries exactly its listed permissions |
| `Catalog.CatalogBoundsUsers` | authzkit/storage/sqlalchemy.py:774-818 | whatever roles a user holds in whatever tenant, only listed and active platform permissions come out |
| `Catalog.CatalogBoundsAgents` | authzkit/storage/sqlalchemy.py:820-847 | for an agent, only listed ones |
| `Catalog.CatalogByName` | authzkit/storage/sqlalchemy.py:1020-1136 | by name, for every accepted catalog: the listed permissions are the application's active ones, the listed roles exist, keep of their grants what all their entries list and gain what any of them lists; all other definitions, grants and holders are as before |
| `Catalog.UnevenGrantsToggle` | authzkit/storage/sqlalchemy.py:1119-1128 | a permission that some entry for a role lists and some other does not is granted after a run exactly if it was not before |
| `Catalog.ManagerKept` | authzkit/storage/sqlalchemy.py:1048-1068 | an application that exists keeps manager and status; a new one is active and has the caller as manager; others are untouched |
| `Catalog.CatalogStaysValid` | authzkit/storage/sqlalchemy.py:1020-1136 | a successful run leaves the store valid |
| `Catalog.SecondCatalogSucceeds` | authzkit/storage/sqlalchemy.py:1020-1136 | a catalog whose entries agree is not refused the second time, whoever applies it |
| `Catalog.SecondCatalogIsRefusedIff` | authzkit/storage/sqlalchemy.py:1020-1136 | after an accepted run the catalog is refused exactly when two entries for a role list a permission that a third does not |
| `Catalog.SecondCatalogIsIdleIff` | authzkit/storage/sqlalchemy.py:1020-1136 | an accepted second run counts nothing as created or deprecated, and changes nothing exactly when the entries agreed before the first |
| `MemoryStore.FindAssignable` | authzkit/storage/memory.py:278-297 | the loop over role rows finds, in any row order, the roles of tenant-first resolution |
| `MemoryStore.EffectiveRoles` | authzkit/storage/memory.py:299-322 | the loop over links gives the role ids of the one-query form |
| `MemoryStore.ResolveUser` | authzkit/storage/memory.py:358-380 | membership by membership the loop gives the permissions of the one-query form |
| `MemoryStore.ResolveAgent` | authzkit/storage/memory.py:382-393 | likewise for agents |
| `RoleStore.RegisteredAsGiven` | authzkit/storage/sqlalchemy.py:193-421 | a registered tenant, application or user has what was given for it, under a free slug or a new identity |
| `RoleStore.StepKeepsValid` | authzkit/storage/sqlalchemy.py:193-1573 | every transaction on tenants, applications, users, memberships, roles, permissions, agents, masks and their links keeps the store valid, isolation of all links included |
| `RoleStore.RunKeepsValid` | authzkit/storage/sqlalchemy.py:193-1573 | so does every run of transactions |
| `RoleStore.ReachableResolvesByName` | authzkit/storage/sqlalchemy.py:582-847 | in every state reachable from an empty store, resolution through ids equals the meaning by name |
| `NameRuns.StepByName` | authzkit/storage/sqlalchemy.py:193-1573 | every transaction, registration, assignment, definition or provisioning, does to the ids what its name-level counterpart does to the names, and is refused exactly when that is |
| `NameRuns.RunByName` | authzkit/storage/sqlalchemy.py:193-1573 | a run from an empty store is a run of the name-level operations, and what it grants at any point is what the names of that run mean there |
| `RoleStore.FiltersAreIdle` | authzkit/storage/sqlalchemy.py:774-818 | in a valid store, user resolution without its visibility and application filters gives the same set |
| `RoleStore.AgentFiltersAreIdle` | authzkit/storage/sqlalchemy.py:820-847 | so does agent resolution, and all it gives belongs to the agent's application |
| `RoleStore.MoveHolders` | authzkit/storage/sqlalchemy.py:1555-1568 | holders of the removed role get the default role, once, and lose the removed one |
| `RoleStore.Store.SetMembershipRoles` | authzkit/storage/sqlalchemy.py:542-556 | the committed state is valid and changes by name as specified |
| `RoleStore.Store.SetAgentRoles` | authzkit/storage/sqlalchemy.py:987-1006 | the same, with a refusal that leaves the state alone |
| `RoleStore.Store.SetRolePermissions` | authzkit/storage/sqlalchemy.py:755-770 | the same for a role's permissions |
| `RoleStore.Store.SetTenantRoleOverride` | authzkit/storage/sqlalchemy.py:1516-1544 | the same for setting an override |
| `RoleStore.Store.DeleteTenantRoleOverride` | authzkit/storage/sqlalchemy.py:1546-1573 | the same for deleting one |
| `RoleStore.Store.CreateMembership` | authzkit/storage/sqlalchemy.py:477-510 | the same for a new membership |
| `RoleStore.Store.ApplyApplicationCatalog` | authzkit/storage/sqlalchemy.py:1020-1136 | the catalog is applied, counted exactly and does to the names what its entries say together; it succeeds exactly when it is well-formed and its entries do not clash, else the state stays as it was |
| `RoleStore.Store.ApplyTenantState` | authzkit/storage/sqlalchemy.py:1197-1236 | the tenant state is applied and does by name what it says; it succeeds exactly when it is well-formed and no name clashes, else the state stays as it was |
| `Policy.EvaluationIsTruth` | authzkit/policies/expressions.py:38-58 | where nothing raises, short-circuit evaluation gives the truth of the condition |
| `Policy.PassesIffSatisfied` | authzkit/policies/engine.py:42-72 | a request passes exactly when every matching deny rule evaluates to false and every matching allow rule to true |
| `Policy.OrderIsIrrelevant` | authzkit/policies/engine.py:42-72 | the order of the rules does not decide whether a request passes |
| `Policy.OrderIndependentIff` | authzkit/policies/engine.py:42-72 | every order gives the same verdict exactly when no raising deny rule competes with a true one and, where no deny rule raises or is true, no raising allow rule competes with a false one |
| `Policy.WithCompetition` | authzkit/policies/engine.py:42-72 | where rules compete, one order raises and another refuses |
| `Policy.SoundOrderIsIrrelevant` | authzkit/policies/engine.py:42-72 | in particular the order is irrelevant where nothing can raise |
| `Policy.RaisingOrderMatters` | authzkit/policies/engine.py:42-72 | a pair of rules whose order matters |
| `Policy.MoreRulesNeverAllow` | authzkit/policies/engine.py:39-72 | adding rules never lets more through |
| `Policy.OthersRuleIsIdle` | authzkit/policies/engine.py:74-81 | a rule written for another tenant, application, resource or action never changes the answer, wherever it stands |
| `Policy.OwnRuleDecides` | authzkit/policies/engine.py:60-81 | no request passes a deny rule written for it that is not false, or an allow rule written for it that is not true |
| `Policy.Scan` | authzkit/policies/engine.py:62-71 | the loop finds the first failing or raising rule |
| `Policy.PolicyEngine.AddRule` | authzkit/policies/engine.py:39-40 | what passes afterwards passed before |
| `Policy.PolicyEngine.Check` | authzkit/policies/engine.py:42-72 | deny rules, then allow rules; passes exactly when all are satisfied |
| `Engine.BulkAuthorize` | authzkit/rbac/checker.py:170-237 | the bulk answer is the single answer for each check, reason and required permission included, and raises exactly when one of them does |
| `Engine.AllowedIff` | authzkit/rbac/checker.py:121-168 | a check is allowed exactly when the effective set has it and the rules pass, except for a user subject that names a missing agent, which is always denied |
| `Engine.MissingAgentIsDenied` | authzkit/rbac/checker.py:295-300 | the exception occurs: a request whose effective set has a permission that every check for it is denied |
| `Engine.DecidedInOrder` | authzkit/rbac/checker.py:121-168 | activity is decided first, then the subject, then its permissions, each with its own reason |
| `Engine.AgentWithinUser` | authzkit/rbac/checker.py:281-322 | an agent's effective set lies within its user's |
| `Engine.GrantIntersects` | authzkit/rbac/checker.py:259-279 | the effective set with a grant is the one without it, intersected with the grant |
| `Engine.GrantOnlyNarrows` | authzkit/rbac/checker.py:149-168 | a grant leaves a decision alone, or turns one that role permissions allow into a refusal as not delegated |
| `Engine.EffectiveIff` | authzkit/rbac/checker.py:259-322 | what is in the effective set: what the store gives to the user, for an agent to both, within mask and grant; nothing for other subjects |
| `Engine.IncompleteIsDenied` | authzkit/rbac/checker.py:325-408 | incomplete references are denied, with the reason for an inactive tenant, application, membership or agent |
| `Engine.EndpointAllows` | authz_service/api/authorize.py:65-155 | the endpoint allows exactly with complete references, an accepted grant, the permission in the endpoint's effective set and passing rules |
| `Engine.EffectiveAnswer` | authz_service/api/authorize.py:243-288 | the effective-set endpoint errs exactly for a bad grant when everything named exists, and lists nothing for what does not exist |
| `Engine.BulkEndpoint` | authz_service/api/authorize.py:160-199 | the bulk endpoint answers each check as the single endpoint does |
| `Decisions.FindTenant` | authzkit/storage/sqlalchemy.py:245-263 | a reference finds the row whose id or slug it is, the id first, and nothing exactly when there is none |
| `Decisions.FindApplication` | authzkit/storage/sqlalchemy.py:238-263 | the same for applications |
| `Decisions.CompleteIff` | authzkit/storage/sqlalchemy.py:265-316 | references are complete exactly when each of them names something that exists |
| `Decisions.ReferencesLead` | authzkit/storage/sqlalchemy.py:265-316 | what each reference leads to: tenant and application by id or slug, the user whose identity it is, the agent of that name there, given ids unchanged, and what is said where nothing is found |
| `Decisions.NamedUserIsDecided` | authz_service/api/authorize.py:88-137 | a request that names tenant and application by slug and the user by identity is decided like one for the rows that bear them |
| `Decisions.NamedAgentIsDecided` | authz_service/api/authorize.py:88-137 | the same for an agent named in its tenant and application |
| `Decisions.SlugResolves` | authzkit/storage/sqlalchemy.py:245-263 | a slug that is no tenant's id leads to the one tenant that bears it |
| `Decisions.CompleteReferencesAreLive` | authzkit/rbac/checker.py:326-360 | complete references decide like the engine's own reads of the resolved ids, reason included |
| `Decisions.FirstRowMattersIff` | authzkit/storage/sqlalchemy.py:558-578 | which row the database returns first decides about activity exactly when the user has no membership for the application and several tenant-wide ones that differ in being active; all results about decisions hold for every such choice |
| `Decisions.OwnMembershipDecides` | authzkit/storage/sqlalchemy.py:558-578 | a membership of the application decides by its own status being active |
| `Decisions.WideMembershipDecides` | authzkit/storage/sqlalchemy.py:558-578 | without one, a tenant-wide membership that is the only one does |
| `Decisions.LiveHasMembership` | authzkit/storage/sqlalchemy.py:558-578 | nobody is live without an active membership of the application or of the whole tenant |
| `Decisions.AgentDecides` | authzkit/storage/sqlalchemy.py:979-985 | an agent is live in its own tenant and application, by its status being active |
| `Decisions.MaskIsPerSlice` | authzkit/storage/sqlalchemy.py:849-882 | a mask is set for one tenant and application; none or an empty one lets everything through |
| `Decisions.UserReasons` | authzkit/rbac/checker.py:121-168 | for a user, each deny reason is given exactly when its own condition fails and all earlier ones hold |
| `Decisions.AgentReasons` | authzkit/rbac/checker.py:121-168 | the same for an agent |
| `Decisions.UserDecisionByName` | authzkit/rbac/checker.py:121-168 | in a valid store a user is allowed exactly what active memberships' role names grant, within mask, grant and rules |
| `Decisions.AgentDecisionByName` | authzkit/rbac/checker.py:380-408 | and an agent exactly what both it and its user are granted by name |
| `Decisions.AppliedStateBoundsAgents` | authzkit/storage/sqlalchemy.py:1383-1476 | once a tenant state is applied, an allowed agent is listed, active, and asks for a permission listed for it |
| `Decisions.AppliedCatalogBoundsDecisions` | authzkit/storage/sqlalchemy.py:1020-1136 | once a catalog is applied, no user is allowed anything but listed and platform permissions |
| `SigningKeys.SigningKeyService.ActiveSigningKey` | authzkit/security/signing_keys.py:128-162 | the remembered key, else the environment's, else the active row, else a new one if it may be generated |
| `SigningKeys.SigningKeyService.AllPublicKeys` | authzkit/security/signing_keys.py:215-239 | exactly the environment's key and the active and retiring rows, each once |
| `SigningKeys.SigningKeyService.Rotate` | authzkit/security/signing_keys.py:243-298 | the active key retires now, a new one is active, the memory is cleared; refused for an environment key |
| `SigningKeys.SigningKeyService.PruneRetiring` | authzkit/security/signing_keys.py:300-331 | exactly the retiring keys whose grace period is over become revoked, and are counted |
| `SigningKeys.AtMostOneActive` | authzkit/security/signing_keys.py:243-298 | in every run at most one key is active |
| `SigningKeys.RotationTakesEffect` | authzkit/security/signing_keys.py:243-298 | a process that rotates signs with the new active key from then on |
| `SigningKeys.KeysOutliveTokens` | authzkit/security/signing_keys.py:300-331 | in every run a token signed while its key was active, or at most some delay after it was rotated away, finds that key published until it expires, if lifetime, leeway and delay fit in the grace period |
| `SigningKeys.ActiveKeySignsForLong` | authzkit/security/signing_keys.py:124-141 | a token signed with an active key finds it until it expires whatever happens next, however long ago the process loaded the key |
| `SigningKeys.GraceIsLongEnoughIff` | authzkit/security/signing_keys.py:300-331 | that condition is exact: whenever lifetime, leeway and delay exceed the grace period, some run loses a key that is still needed |
| `SigningKeys.DefaultGraceIsTooShortForGrants` | authz_service/main.py:321-333 | with the authorization server on and its default token lifetime, the janitor can revoke the key of an unexpired grant that was signed with the active key |
| `Delegation.AllowedIffJustified` | authz_service/api/delegations.py:401-441 | a decision with a grant is to allow exactly when all that is named exists and fits the grant, the token verifies, the grant is unrevoked and strictly before its stored expiry, the permission is in grant, live user, live agent and mask, and the rules pass |
| `Delegation.WithoutToken` | authz_service/api/delegations.py:416-419 | without a token an agent is denied as requiring one if grants are required and everything named exists; every other request is decided as if there were no grants |
| `Delegation.RefusedToken` | authz_service/api/delegations.py:421-441 | a token that does not verify denies with the verification's reason, one that does not fit as a mismatch, if everything named exists |
| `Delegation.UnknownOutranksToken` | authz_service/api/authorize.py:65-68 | an unknown reference is denied with the engine's own reason, never one about the token |
| `Delegation.AcceptedOutcome` | authz_service/api/delegations.py:401-441 | a grant is applied exactly when it verifies, the subject is an agent and everything named fits; missing ids are filled in from it |
| `Delegation.AcceptedIffInForce` | authzkit/security/delegations.py:193-251 | in every reachable world a token is accepted exactly when it was signed as a grant with a key still published and is in force: the leeway never extends it |
| `Delegation.VerifiedSaysSo` | authzkit/security/delegations.py:193-251 | a token that verifies says of user, agent, tenant, application and permissions what the stored row says, is of the type and for the audience of grants, signed with a known key, and within its times up to the leeway; its row is unrevoked and unexpired |
| `Delegation.AccessTokenIsNoGrant` | authzkit/security/delegations.py:193-212 | an access token signed with the same keys never verifies as a grant |
| `Delegation.IssuedThenRevoked` | authzkit/security/delegations.py:120-304 | in a run, an issued grant is accepted, and refused as revoked once it is revoked |
| `Delegation.IssuedIsInForce` | authzkit/security/delegations.py:120-178 | an issued grant is for exactly what was asked, lasts the given seconds from the whole second of its issue, and has a signed token |
| `Delegation.RefusalReasons` | authzkit/security/delegations.py:193-251 | which of invalid, revoked and expired a token gets in a reachable world |
| `Delegation.EndedGrantsNeverAllow` | authzkit/security/delegations.py:228-235 | once revoked or expired, no later decision with the grant is allowed, whatever happens in between |
| `Delegation.KillSwitchIsFinal` | authzkit/security/delegations.py:306-329 | the kill switch ends every grant it is aimed at for good, and touches no other |
| `Delegation.RevocationIsNow` | authzkit/security/delegations.py:292-304 | revoking a grant ends it at that moment unless it was revoked before, and touches no other |
| `Delegation.RunKeepsGrant` | authzkit/security/delegations.py:292-329 | nothing revives a grant, extends it or changes what it covers |
| `Delegation.GrantUsableUntilItEnds` | authzkit/security/delegations.py:193-251 | a grant is accepted until it is revoked or expires, if the janitor's grace period covers its lifetime and how long after its rotation a key is still signed with, and the verifying process has every key that a process was given by the environment |
| `Delegation.FirstWorldIsSound` | authzkit/security/delegations.py:105-116 | a world without grants, tokens and stored keys meets what the results about runs start from |
| `Delegation.DelegableIsAvailable` | authz_service/api/delegations.py:206-225 | delegated is exactly what is named, if user, agent and mask allow all of it at that moment, and everything they allow if nothing is named; else the excess is reported exactly |
| `Delegation.DelegationService.Issue` | authzkit/security/delegations.py:120-178 | row and token say the same; without a signing key neither comes to be |
| `Delegation.DelegationService.Check` | authzkit/security/delegations.py:193-251 | verification against the published keys and the stored row |
| `Delegation.DelegationService.Revoke` | authzkit/security/delegations.py:292-304 | the grant is revoked once; its first revocation time stays |
| `Delegation.DelegationService.RevokeMatching` | authzkit/security/delegations.py:306-329 | every matching active grant is revoked, and they are counted |
| `Invitations.AtMostOneMembership` | authzkit/security/invitations.py:99-198 | under every interleaving there is at most one membership and one success, they go together, and a pending invitation has neither |
| `Invitations.RunExclusive` | authzkit/security/invitations.py:99-198 | at most one acceptor holds the claim, and none while the row is pending |
| `Invitations.RevocationIsFinalIff` | authzkit/security/invitations.py:213-222 | after a revocation no membership can follow exactly when nobody holds an unfinished claim that can still be completed or handed back in time |
| `Invitations.RevocationIsSafeIff` | authzkit/security/invitations.py:213-222 | over all runs of an issued invitation, one who sees the row's status and whether a membership came of it can be sure that a revocation is final exactly when the row is pending or the membership exists |
| `Invitations.InFlightRun` | authzkit/security/invitations.py:99-198 | a run in which a claim is in flight under an accepted, a revoked or an expired row |
| `Invitations.RevertReopens` | authzkit/security/invitations.py:162-186 | a failed acceptor's revert reopens a revoked invitation: another acceptor gets in, and the row ends accepted by that one |
| `Invitations.InvitationRow.Accept` | authzkit/security/invitations.py:99-198 | an undisturbed acceptor succeeds exactly when the row is pending, not expired and the membership can be created; each failure leaves the stated status |
| `Invitations.IssuedIsAcceptable` | authzkit/security/invitations.py:99-198 | from its issue on, undisturbed, an invitation is accepted up to its expiry and becomes expired after it |
| `RateLimit.SlidingWindowLimiter.Allow` | authz_service/middleware.py:64-78 | answer and bucket of the key as specified, other keys not affected |
| `RateLimit.AtMostLimitPerWindow` | authz_service/middleware.py:64-78 | for every history, any interval of window length holds at most limit admissions |
| `RateLimit.RefusedIffFull` | authz_service/middleware.py:64-78 | a call is refused exactly when limit admissions lie in the window that ends with it, and the remaining count is exact |
| `RateLimit.RetryIsExact` | authz_service/middleware.py:74-76 | with no call in between, an attempt is admitted exactly once the oldest admission has left the window; the announced delay is that moment, up to the one-millisecond clamp |
| `RateLimit.DroppedIsNearlyOver` | authz_service/middleware.py:88-103 | a key that the server has dropped held nothing that counts for longer than the slack between the server's clock and the callers' |
| `RateLimit.RedisAnswersAlikeIff` | authz_service/middleware.py:88-119 | on every trace the script gives the answers of the in-memory limiter, remaining count and delay included, exactly as long as no key is dropped while an admission still counts |
| `RateLimit.OneClockAnswersAlike` | authz_service/middleware.py:88-119 | with clocks that advance alike it always does |
| `RateLimit.DelayedCallLetsIn` | authz_service/middleware.py:88-103 | a trace with clocks one tick apart that lets two calls in where the limit is one |
| `SdkCache.Cache.CacheGet` | authz_sdk/client.py:262-271 | value and entries as specified |
| `SdkCache.Cache.CachePut` | authz_sdk/client.py:273-280 | the new entry last, the oldest dropped beyond the bound |
| `SdkCache.Cache.CacheInvalidate` | authz_sdk/client.py:282-296 | exactly the matching entries go |
| `SdkCache.InvalidatedEntries` | authz_sdk/client.py:282-296 | invalidation drops exactly the entries of the given tenant and application, where one is given |
| `SdkCache.CacheIsBounded` | authz_sdk/client.py:273-280 | after every history the cache is within its bound and has each key once |
| `SdkCache.LookupIsExact` | authz_sdk/client.py:262-296 | a hit is the last put of the key, not invalidated and younger than the time to live; such a put is missed only if at least the bound's number of distinct other keys was touched after it |
| `Scopes.StoredScopesRoundTripIff` | authzkit/security/api_keys.py:60-65 | storing scopes and reading them back gives the same set exactly when each is free of commas and of surrounding space |
| `Scopes.RotationsPreserveScopes` | authzkit/security/api_keys.py:168-191 | any number of key rotations preserves the scope set of every stored text |
| `Scopes.ApiKeyService.Issue` | authzkit/security/api_keys.py:79-109 | a new active key whose stored text is that of the scopes; other keys untouched |
| `Scopes.ApiKeyService.Rotate` | authzkit/security/api_keys.py:168-191 | a new key with the scope set and tenant of the old one, which stays as it is |
| `Scopes.ApiKeyService.Revoke` | authzkit/security/api_keys.py:157-166 | the key becomes inactive, nothing else changes |
| `Scopes.MapScopes` | authzkit/security/oauth_resource.py:249-296 | exactly the internal scopes among the translated ones, each once |
| `Scopes.ResolveToken` | authzkit/security/oauth_resource.py:137-174 | the principal of a self-issued token |
| `Scopes.RequestedWords` | authz_service/api/oauth.py:211-232 | a client that asks for some words gets exactly these if it owns them all, else nothing; one that asks for none gets all it owns |
| `Scopes.BlankRequest` | authz_service/api/oauth.py:211-232 | and so does one that asks with white space alone |
| `Scopes.WordsGranted` | authz_service/api/oauth.py:159-182 | a tenant-bound client gets its words and its own tenant's scope, and is refused exactly for words it does not own or another tenant's scope |
| `Scopes.InternalVocabulary` | authzkit/security/oauth_resource.py:33-34 | the internal scopes are admin, runtime and tenant:<id> for ids of letters, digits, `_`, `-` and `:` |
| `Scopes.MapDecides` | authzkit/security/oauth_resource.py:249-296 | a scope counts exactly if it is internal and the claim has it unmapped, or has one that the issuer's map sends to it |
| `Scopes.PrincipalHasGrantedScopes` | authz_service/api/oauth.py:159-193 | for space-free scopes the principal has exactly the granted internal scopes, never more than the client's own and its tenant's |
| `Scopes.BoundClientReachesOwnTenantOnly` | authz_service/dependencies.py:523-552 | a tenant-bound client passes the tenant binding for its own tenant and no other, whatever it asks for |
| `Scopes.UnboundClientNeedsScope` | authz_service/dependencies.py:523-552 | an unbound client passes exactly with a granted admin, runtime or the tenant's own scope, and is granted only what it owns |

## Left out

- Request plumbing: routing, schemas, CORS, sessions, CSRF, cookies, audit records, metrics and logging.
- Cryptography and token encoding; replaced by an ideal signature. JWKS retrieval over HTTP.
- Database mechanics: flush order, isolation levels, migrations, and concurrent transactions other than those of invitation acceptance.
- Columns that are only carried along: descriptions, the critical flag, scopes of roles, purposes, issuers of grants, timestamps not read by the logic.
- Operators of policy comparisons and path look-up: a comparison's outcome in a request (true, false or raised) is given; no operator table is modelled.
- The in-memory store's write operations; its resolution and name look-up are modelled.
- External token issuers: claim names, list-valued claims, tenant prefixes; scope maps are modelled.
- Authentication: client secrets, API key look-up by hash, expiry of API keys, rate limiting of the token endpoint.
- Who may claim or release an application; setting its manager is modelled as a plain write.
- Tenant identity mappings, tenant feature flags other than the permission mask, paging, listing and role views.
- Permissions reported by the context endpoint, which treat tenant-wide memberships and masks differently by design.
- SDKs in other languages, retry and backoff, the command line, the admin user interface, tool and agent guards.
- Scopes.Serialize: stores the scopes in any order, where the source sorts them; only the set is read back.
- Overrides.OverrideLeavesNoTrace: catalogs and tenant states applied while the override is there are not among the transactions in between.
- TenantStates.Validate: says which issues are reported and where, not the message texts or their order.
- RateLimit.SlidingWindowLimiter.Allow: time is counted in whole ticks of any resolution instead of floating-point seconds.
