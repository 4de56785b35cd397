# A verified model of the agentic identity broker

This project models the parts of the broker whose correctness spans several steps, several
callers or several functions, and proves what they promise. Each concurrent protocol is a state
machine whose steps are the critical sections and repository calls of the Go code; its theorems
are statements about every state of every run. Each sequential piece that works by updating state
is a class or a method with loops, proved against a function or a predicate that does not mention
the loop; the properties are then proved of that function or predicate.

| file | models |
|---|---|
| `SigningKeys.dfy` | signing keys, effective-key selection, the guarded repository mutations, the published key set |
| `KeyLifecycle.dfy`, `KeyLifecycleRuns.dfy` | the lifecycle engine, and any number of replicas bootstrapping, generating, promoting and deleting keys |
| `KeyCache.dfy`, `KeyCacheTheorems.dfy`, `KeyCacheProgress.dfy` | the cached public key set: readers, shared rebuilds, invalidation and repository commits, interleaved; what a call returns, and that it returns |
| `KeyService.dfy` | the critical sections of that cache as methods of one object, and the client-assertion signer |
| `Approvals.dfy` | tool approvals: guarded transitions, the service operations around them, the grouping of a sync response |
| `ApprovalSync.dfy` | persist-then-increment writers against version-then-list readers |
| `ApprovalCreation.dfy` | creation of pending approvals under the creation mutex |
| `Broadcaster.dfy` | the coalescing broadcaster with its timer, one-slot channels and long polls |
| `Impersonation.dfy`, `ImpersonationTheorems.dfy` | first-match rule evaluation with the shared verification cache, minting and refusing |
| `ImpersonationRules.dfy` | the two rule validators and rule compilation |
| `Agents.dfy`, `AgentStore.dfy`, `ReconcileRuns.dfy` | agent definitions, the repository with its indexes, and reconciling an agent by external ID, alone and concurrently |
| `Grants.dfy` | the three validators of a consent submission and the upsert that follows |
| `Providers.dfy` | third-party provider validation for create, update and storage |

Time is an integer. Clocks, random identifiers, cryptography, token parsing, expression
evaluation, URL rules and storage failures are parameters: fixed but unknown functions for the
duration of one call, or a choice of the environment at each step of a run. Listings of a
repository are arbitrary enumerations of what it holds, because no order is promised.

## Model

| member | source | states |
|---|---|---|
| `SigningKeys.SelectEffectiveCurrent` | internal/domain/keylifecycle/engine.go:231-242 | the selection loop returns the specified key for every list, entries without a key included |
| `SigningKeys.EffectiveCurrentIsFirstMaximum` | internal/domain/keylifecycle/engine.go:231-242 | the selected key is the first maximum by current marker and then activation time among the keys already active; none is selected exactly when none is active |
| `SigningKeys.RemovingUnselectedKeepsSelection` | internal/domain/keylifecycle/engine.go:194-242 | dropping any list entry that was not selected leaves the selection as it was |
| `SigningKeys.MutationsRetireIds` | internal/ports/storage.go:423-456 | every repository mutation keeps ids unique, and an id that was removed is never active again |
| `SigningKeys.BuildPublicJwkSet` | internal/domain/cimdclient/key_service.go:225-302 | the build loop yields exactly the set that the listed keys publish, whatever their order; with distinct ids it succeeds exactly when there is an ES256 key and each has a usable public form |
| `SigningKeys.BackfillKeepsPublicSet` | internal/domain/cimdclient/key_service.go:252-302 | storing the derived public form of a legacy key changes no published set |
| `SigningKeys.PublishedFormIsOwn` | internal/domain/cimdclient/key_service.go:252-343 | what is published for a key is its own public half under its own id; a stored form is published exactly when it names this key, ES256, signing and P-256 |
| `SigningKeys.PublicSetExact` | internal/domain/cimdclient/key_service.go:225-250 | the published set holds the public form of every ES256 key and of no other; there is none without an ES256 key or with an unusable one |
| `KeyLifecycle.KeyRepository.Demote` | internal/adapters/storage/memory/signing_key_store.go:86-107 | clears the current marker of every key of one domain and of no other |
| `KeyLifecycle.KeyRepository.CreateAndSetCurrent` | internal/adapters/storage/memory/signing_key_store.go:76-107 | inserts the new key as the only current one of its domain, or refuses and changes nothing |
| `KeyLifecycle.KeyRepository.Create` | internal/adapters/storage/memory/signing_key_store.go:50-74 | inserts a key under an id never used before, or refuses and changes nothing |
| `KeyLifecycle.KeyRepository.SetCurrentInDomain` | internal/adapters/storage/memory/signing_key_store.go:195-243 | moves the current marker within the domain, or refuses and changes nothing |
| `KeyLifecycle.KeyRepository.DeleteInDomain` | internal/adapters/storage/memory/signing_key_store.go:245-283 | removes a key only when it is neither current, nor the effective one, nor the last; otherwise changes nothing |
| `KeyLifecycle.CreateKeepsDomain` | internal/domain/keylifecycle/engine.go:51-123 | creation leaves exactly one current marker and a key that can sign |
| `KeyLifecycle.PromoteKeepsDomain` | internal/domain/keylifecycle/engine.go:186-191 | promotion leaves exactly one current marker, the promoted key, and it can sign |
| `KeyLifecycle.PromotedKeySigns` | internal/domain/keylifecycle/engine.go:186-242 | from its activation on a promoted key is the one that signs, for every order of the listing |
| `KeyLifecycle.LatestSignsMeanwhile` | internal/domain/keylifecycle/engine.go:231-242 | while no current key is active, no active key was activated later than the selected one |
| `KeyLifecycle.DeleteKeepsDomain` | internal/domain/keylifecycle/engine.go:194-220 | a successful deletion keeps the current marker and a key that can sign, and does not change the effective key at that instant |
| `KeyLifecycle.OtherDomainsUntouched` | internal/domain/keylifecycle/engine.go:157-220 | creating, promoting and deleting in one domain leave every other domain's keys as they were |
| `KeyLifecycle.GenerateAndStore` | internal/domain/keylifecycle/engine.go:51-123 | succeeds exactly for a supported algorithm and domain without faults, then stores the new key with the asked-for marker and activation, publishing its own public half; a failure changes nothing |
| `KeyLifecycle.EnsureInitialKey` | internal/domain/keylifecycle/engine.go:126-153 | no error means the domain holds a key, whatever failed on the way; undisturbed, the call succeeds and creates a key exactly when the domain was empty; a populated domain is left alone |
| `KeyLifecycle.GenerateWithInitialActivation` | internal/domain/keylifecycle/engine.go:157-175 | succeeds exactly when undisturbed with a supported domain and an unused id; the first key of a domain takes the first activation time and every later one the later time |
| `KeyLifecycle.Promote` | internal/domain/keylifecycle/engine.go:186-191 | succeeds exactly for a key that the domain holds, otherwise changes nothing |
| `KeyLifecycle.Delete` | internal/domain/keylifecycle/engine.go:194-220 | succeeds exactly when both the engine's guards and the repository's guards pass, otherwise changes nothing |
| `KeyLifecycleRuns.SigningAvailability` | internal/domain/keylifecycle/engine.go:157-242 | once the domain holds a key, every later state of every run holds a key, has exactly one current marker and has an effective key |
| `KeyLifecycleRuns.OneImmediateKey` | internal/domain/keylifecycle/engine.go:126-175 | over all replicas at most one key gets first-key activation, every other key waits out the grace period or is promoted, and a bootstrap that reports success left a key behind |
| `KeyLifecycleRuns.DomainsIsolated` | internal/domain/cimdclient/key_service.go:67-112 | no step of this domain changes the keys of another domain |
| `KeyLifecycleRuns.StepKeepsInv` | internal/domain/keylifecycle/engine.go:126-220 | every step keeps mutual exclusion, what the count under the lock established, and a domain that can sign |
| `KeyCache.StepKeepsInv` | internal/domain/cimdclient/key_service.go:135-223 | every step keeps: one generation has one version, the cached set is the build at the cached version, and that version never passes the repository |
| `KeyCacheTheorems.Linearizable` | internal/domain/cimdclient/key_service.go:135-223 | a set returned by a call equals a fresh build of the repository at an instant inside that call, for every interleaving |
| `KeyCacheTheorems.CacheTracksRepository` | internal/domain/cimdclient/key_service.go:135-223 | the cached version never decreases or passes the repository, and a cached set is the build of the commit at that version |
| `KeyCacheTheorems.StaleSetIsNotServed` | internal/domain/cimdclient/key_service.go:141-165 | a set is served from the cache only less than 45 seconds after it was published |
| `KeyCacheProgress.RetryIsPaid` | internal/domain/cimdclient/key_service.go:136-192 | each return to the loop head is charged to a commit or an invalidation since the call's last visit of it |
| `KeyCacheProgress.RetryBound` | internal/domain/cimdclient/key_service.go:136-192 | a call goes round again at most once for every commit and every invalidation that happens during the call; undisturbed, it never does |
| `KeyCacheProgress.NoCallIsStuck` | internal/domain/cimdclient/key_service.go:136-215 | an unfinished call, or the rebuild it waits for, can always take a step that needs no failure and no outside help |
| `KeyCacheProgress.CallLeavesLoop` | internal/domain/cimdclient/key_service.go:136-215 | with m commits and v invalidations during the call, at most 9(m + v + 1) such steps serve it before it is finished |
| `KeyService.PublicKeyCache.TryRead` | internal/domain/cimdclient/key_service.go:142-151 | the read-locked section answers exactly on a hit of the cache model |
| `KeyService.PublicKeyCache.Enter` | internal/domain/cimdclient/key_service.go:152-172 | the write-locked section changes the fields and decides exactly as the cache model does |
| `KeyService.PublicKeyCache.Publish` | internal/domain/cimdclient/key_service.go:195-215 | a rebuild stores its set only under the generation it was started for |
| `KeyService.PublicKeyCache.Invalidate` | internal/domain/cimdclient/key_service.go:217-223 | drops the set and starts a new generation |
| `KeyService.RemovedStaysRemoved` | internal/domain/cimdclient/key_service.go:104-112 | a removed key id stays removed in every later state of a run |
| `KeyService.SignsWithPublishedCurrentKey` | internal/domain/cimdclient/assertion_signer.go:42-138 | a signed assertion names the key that was effective current at the second check and was in the set published at an instant during the call |
| `KeyService.HealthyKeySigns` | internal/domain/cimdclient/assertion_signer.go:42-138 | a key that carries or derives its own public half, is selected by both checks and advertised does sign, under its own id |
| `KeyService.NeverSignsWithDeletedKey` | internal/domain/cimdclient/assertion_signer.go:42-138 | a call that starts after a key was deleted never signs with it |
| `Approvals.ToolApprovalRepository.Create` | internal/adapters/storage/memory/tool_approval_repository.go:39-67 | returns a live approval with the same key if there is one, otherwise stores the new one; expired duplicates are only ever retired |
| `Approvals.ToolApprovalRepository.Approve` | internal/adapters/storage/memory/tool_approval_repository.go:80-98 | decides a pending unexpired approval, otherwise refuses and changes nothing |
| `Approvals.ToolApprovalRepository.Deny` | internal/adapters/storage/memory/tool_approval_repository.go:100-116 | denies a pending unexpired approval, otherwise refuses and changes nothing |
| `Approvals.ToolApprovalRepository.CountPendingByPrincipalAndAgent` | internal/adapters/storage/memory/tool_approval_repository.go:221-234 | counts exactly the pending unexpired approvals of the pair |
| `Approvals.ToolApprovalRepository.FindPendingByKey` | internal/adapters/storage/memory/tool_approval_repository.go:192-203 | finds a live approval with the key exactly when one exists |
| `Approvals.ToolApprovalRepository.RevokePermanent` | internal/adapters/storage/memory/tool_approval_repository.go:118-132 | turns a permanent decision into a plain denial, otherwise refuses and changes nothing |
| `Approvals.ToolApprovalRepository.Consume` | internal/adapters/storage/postgres/tool_approval_repository.go:602-639 | consumes an approved single-use approval once; a second attempt is refused and changes nothing |
| `Approvals.ToolApprovalRepository.ListAllActive` | internal/adapters/storage/memory/tool_approval_repository.go:157-190 | lists every active approval of the request exactly once and nothing else |
| `Approvals.GetSyncPairs` | internal/domain/approval/service.go:579-626 | every active approval of the request is in its own pair's group, exactly once |
| `Approvals.MutationsEvolve` | internal/adapters/storage/memory/tool_approval_repository.go:39-155 | no repository write returns a decision to pending, turns a denial into an approval, un-consumes an approval or changes the reviewed call |
| `Approvals.OperationsRespectOwnership` | internal/domain/approval/service.go:164-926 | whatever races, a successful operation wrote exactly the asked-for decision to the acting principal's own approval and nothing else; the exact conditions of success; a decision is reported only for a decided approval, and expiry only for one read as pending and expired |
| `Approvals.ListingFollowsDecisions` | internal/adapters/storage/memory/tool_approval_repository.go:80-190 | a pending approval is listed until its deadline, a decided one from then on, a session decision only in its session, a used-up one never, a revoked one as a denial, and none in another principal's listing |
| `Approvals.GroupByPair` | internal/domain/approval/service.go:593-617 | one group per pair that occurs, groups distinct, each holding that pair's approvals in listing order |
| `Approvals.GroupingConserves` | internal/domain/approval/service.go:593-617 | an approval occurs in its own pair's group exactly as often as in the listing, and in no other group |
| `ApprovalSync.StepKeepsInv` | internal/domain/approval/service.go:148-162 | every step keeps version numbers unique, writes numbered once, and every answer tied to the store it was listed from |
| `ApprovalSync.NoMissedMutation` | internal/domain/approval/service.go:148-162 | an answer with version v was listed from a store at least as recent as every write numbered at most v |
| `ApprovalSync.CurrentVersionMeansCurrentListing` | internal/domain/approval/service.go:579-626 | when the version is still v and no write since the listing lacks a number, the answer is the store's active approvals, less those that expired since; earlier writes do not matter, numbered or not |
| `ApprovalSync.AtomicRepositoryIsAlwaysCurrent` | internal/domain/approval/service.go:148-162 | with a repository that numbers its writes in the same transaction, the current version alone implies the current listing |
| `ApprovalSync.FailedIncrementHidesWrite` | internal/domain/approval/service.go:155-157 | that condition is needed: a run in which a write persisted after the listing, its increment failed, is missing from an answer that still carries the current version |
| `ApprovalSync.UnannouncedKeepsListings` | internal/domain/approval/service.go:502-545 | a creation that found a live duplicate is not announced, and changes no listing |
| `ApprovalSync.DecisionsAreFinal` | internal/domain/approval/service.go:235-410 | over whole runs denials stay denials, consumed approvals stay consumed and keys never change |
| `ApprovalCreation.PendingIsBounded` | internal/domain/approval/service.go:415-562 | over every interleaving the pending count of a pair is at most MaxPending, plus one for each count query that failed for it |
| `ApprovalCreation.LiveApprovalIsReturned` | internal/domain/approval/service.go:428-450 | a request made while an approval with its key stays live gets that approval, takes no slot and is never rate limited |
| `ApprovalCreation.IdenticalRequestsAgree` | internal/domain/approval/service.go:415-548 | of two concurrent calls with one key, when the first answers with x and x stays pending the second answers with x |
| `ApprovalCreation.CreatePendingApproval` | internal/domain/approval/service.go:415-548 | one undisturbed call returns the live duplicate without writing, is refused exactly when the bucket or the count says so, and otherwise stores the new approval and returns it unless its announcement fails |
| `Broadcaster.SyncBroadcaster.Subscribe` | internal/domain/approval/sync_broadcaster.go:29-35 | registers a fresh empty channel and nothing else |
| `Broadcaster.SyncBroadcaster.Unsubscribe` | internal/domain/approval/sync_broadcaster.go:38-43 | deregisters and then closes the channel |
| `Broadcaster.SyncBroadcaster.Broadcast` | internal/domain/approval/sync_broadcaster.go:48-68 | without a window every registered channel is signalled at once; with one, a timer is asked for exactly when none is pending |
| `Broadcaster.SyncBroadcaster.NotifyAll` | internal/domain/approval/sync_broadcaster.go:71-81 | afterwards every registered channel holds a signal |
| `Broadcaster.NoLostBroadcast` | internal/domain/approval/sync_broadcaster.go:48-81 | after every broadcast, absorbed or not, a notification has started since or is still due within one window |
| `Broadcaster.QuiescenceMeansSignalled` | internal/domain/approval/sync_broadcaster.go:48-81 | when nothing is due any more, a notification since the broadcast has signalled every channel registered throughout |
| `Broadcaster.NoPollSleepsThrough` | internal/adapters/http/handlers/approval/sync_handler.go:137-166 | a long poll that fell behind has a signal, or one is on its way |
| `Broadcaster.SleepsOnClientVersion` | internal/adapters/http/handlers/approval/sync_handler.go:137-166 | a poll sleeps on the version its client came with, so a client that is already behind does not fall asleep |
| `Broadcaster.NoSendOnClosedChannel` | internal/domain/approval/sync_broadcaster.go:38-81 | in every reachable state no registered channel is closed |
| `Broadcaster.FiresSpaced` | internal/domain/approval/sync_broadcaster.go:48-68 | in every run timer firings i and j are at least j - i windows apart |
| `Broadcaster.CoalescingRate` | internal/domain/approval/sync_broadcaster.go:48-68 | a span T sees at most T/w + 1 firings |
| `Impersonation.VerifiedCredentialCache.Verify` | internal/domain/impersonation/validator.go:49-72 | answers the provider's verdict whether or not it was remembered, and keeps every remembered verdict true |
| `Impersonation.FindIssuer` | internal/domain/impersonation/rule.go:284-291 | the scan finds the first issuer with that URI that may sign the role |
| `Impersonation.ValidateCredential` | internal/domain/impersonation/service.go:337-366 | equals verifying the credential afresh for this rule: issuer, algorithm and claims are never taken from the cache |
| `Impersonation.IsOtherRegisteredAgent` | internal/domain/impersonation/service.go:415-435 | asking about each identifier once gives the same answer as asking every time |
| `Impersonation.OtherAgentExact` | internal/domain/impersonation/service.go:415-435 | a subject passes exactly when every other agent it could name is known not to exist |
| `Impersonation.EvaluateRuleCached` | internal/domain/impersonation/service.go:160-315 | a rule evaluated with the shared cache and the deduplicated look-ups gives the fresh result, and asks the issuer exactly for that result's mint |
| `Impersonation.SelectNoMatchError` | internal/domain/impersonation/errors.go:75-99 | the first failure of the highest rank, or the server error exactly when no failure has a rank |
| `Impersonation.SelectionOrderIndependent` | internal/domain/impersonation/errors.go:75-99 | any two orders of the same failures select the same code |
| `ImpersonationTheorems.EvaluateRules` | internal/domain/impersonation/service.go:109-143 | the rule loop with one shared cache answers as if every rule verified its credentials afresh |
| `ImpersonationTheorems.Impersonate` | internal/domain/impersonation/service.go:109-143 | a missing target or a forbidden scope is refused with its own code and no mint; otherwise the rules decide |
| `ImpersonationTheorems.MintIsJustified` | internal/domain/impersonation/service.go:160-315 | a mint is asked for only with each signed credential vouched for by an issuer trusted for its role and algorithm, an allowed category, a true predicate, and an active delegation for a human |
| `ImpersonationTheorems.JustifiedMints` | internal/domain/impersonation/service.go:160-315 | conversely, with distinct issuer URIs, such evidence always leads to that mint |
| `ImpersonationTheorems.MintSafety` | internal/domain/impersonation/service.go:109-143 | at most one mint per call, by the first rule that does not fall through, justified; a token is returned exactly when it succeeded |
| `ImpersonationTheorems.FirstJustifiedRuleMints` | internal/domain/impersonation/service.go:109-143 | a justified rule whose predecessors all fell through mints |
| `ImpersonationTheorems.CredentialOutcome` | internal/domain/impersonation/service.go:160-203 | a client assertion that no trusted issuer vouches for is invalid_client; then an unvouched or mistyped actor or subject token is invalid_request; both fall through |
| `ImpersonationTheorems.IdentityOutcome` | internal/domain/impersonation/service.go:205-262 | an identity or email that cannot be extracted falls through as invalid_request |
| `ImpersonationTheorems.CategoryOutcome` | internal/domain/impersonation/service.go:227-246 | a registered other agent or a category that is not allowed falls through as access_denied; an unavailable look-up aborts with server_error |
| `ImpersonationTheorems.PresentedOutcome` | internal/domain/impersonation/service.go:265-292 | a predicate that cannot be evaluated and a delegation that is missing, expired or unreadable abort with their codes; only a false predicate falls through |
| `ImpersonationTheorems.AbortEndsCall` | internal/domain/impersonation/service.go:109-143 | when a rule aborts after fall-throughs the answer is its refusal and no token is asked for, whatever later rules say |
| `ImpersonationTheorems.SubjectIsTargetOrDelegated` | internal/domain/impersonation/service.go:216-287 | the minted subject is the target's own identifier or a principal with an active delegation, and an email is minted only for the latter |
| `ImpersonationTheorems.RefusalIsHighest` | internal/domain/impersonation/service.go:123-142 | when every rule falls through, the refusal is some rule's failure, none ranks higher, and it is a server error only for an empty rule list |
| `ImpersonationTheorems.RefusalByCode` | internal/domain/impersonation/errors.go:73-99 | access_denied wins over invalid_request, which wins over invalid_client |
| `ImpersonationTheorems.RefusalOrderIndependent` | internal/domain/impersonation/service.go:123-142 | reordering the rules of such a call never changes the refusal's code |
| `ImpersonationRules.ParseAllowedSubjectCategories` | internal/domain/impersonation/subject_category.go:20-44 | accepts exactly one or two distinct known categories, and allows exactly the listed ones; omission allows humans only |
| `ImpersonationRules.ValidateRuleInvariants` | internal/domain/impersonation/rule.go:177-279 | accepts exactly the rules that meet the stated invariants on roles, audiences, issuers and coverage |
| `ImpersonationRules.InvariantByField` | internal/domain/impersonation/rule.go:177-279 | what the invariants mean field by field: time limit, one way of binding the audience for every signed role and none for an unverified subject, distinct issuers of signed roles only |
| `ImpersonationRules.ValidateImpersonationRule` | internal/config/validator.go:1049-1135 | accepts exactly the rules that meet the configuration's conditions |
| `ImpersonationRules.ValidateImpersonationTrustedIssuers` | internal/config/validator.go:1138-1218 | accepts exactly named, distinct, acceptable issuers that together sign every signed role |
| `ImpersonationRules.ValidatorsAgree` | internal/config/validator.go:1049-1218 | the configuration accepts a rule exactly when the domain's invariants hold and the listed configuration-only checks pass |
| `ImpersonationRules.CompileRule` | internal/domain/impersonation/rule.go:50-172 | a compiled rule carries the configured name, predicate, categories, roles and issuers and met the invariants; every error names a condition that really failed |
| `ImpersonationRules.TrustByName` | internal/domain/impersonation/rule.go:50-172 | which configured role, audience, expression and category yields which part of the compiled rule, by name |
| `ImpersonationRules.UnboundRulesDoNotCompile` | internal/domain/impersonation/rule.go:143-163 | in a compiled rule the predicate references an unverified subject and every role without an audience |
| `ImpersonationRules.AcceptedRulesFailOnlyInLibraries` | internal/domain/impersonation/rule.go:50-172 | after the configuration validator only expressions, the key factory and the predicate's references can fail |
| `ImpersonationRules.SignedRolesHaveIssuers` | internal/domain/impersonation/rule.go:177-291 | in a compiled rule a role has a trusted issuer exactly when it is a signed role |
| `ImpersonationRules.NamesAreDistinct` | internal/domain/impersonation/rule.go:237-248 | the issuers of a compiled rule have distinct URIs |
| `ImpersonationRules.IssuerOrderIrrelevant` | internal/domain/impersonation/rule.go:281-291 | the issuer chosen for a credential does not depend on the order of the issuers |
| `Agents.SortedComparisonIsMultiset` | internal/domain/agents/reconcile.go:121-124 | comparing sorted copies of the client URIs is comparing them as multisets |
| `AgentStore.AgentRepository.GetByExternalID` | internal/adapters/storage/memory/agent_repository.go:284-292 | the index look-up finds the holder of an external ID exactly when there is one |
| `AgentStore.AgentRepository.ExistsOtherWithClientID` | internal/adapters/storage/memory/agent_repository.go:318-332 | the scan of the client index answers whether another stored agent uses the client ID |
| `AgentStore.ClashesMeansHeld` | internal/adapters/storage/memory/agent_repository.go:72-92 | with exact indexes, an index shows a name held by another agent exactly when some other agent shares a unique name |
| `AgentStore.AgentRepository.Store` | internal/adapters/storage/memory/agent_repository.go:205-240 | replacing an agent's old names by its new ones keeps all four indexes the exact inverse of the agents |
| `AgentStore.AgentRepository.Create` | internal/adapters/storage/memory/agent_repository.go:43-111 | the index checks admit the agent exactly when its ID is new and no other agent shares a unique name, and every index stays exact |
| `AgentStore.AgentRepository.Update` | internal/adapters/storage/memory/agent_repository.go:158-243 | the index checks admit the change exactly when the agent exists and no other agent shares a unique name, and every index stays exact |
| `AgentStore.IndexedExternalIdsAreUnique` | internal/ports/storage.go:112-115 | a repository with exact indexes never holds an external ID twice |
| `AgentStore.ReconcileByExternalID` | internal/domain/agents/reconcile.go:30-103 | one undisturbed reconcile answers and writes as specified, and keeps the repository's indexes exact |
| `Agents.RepeatIsUnchanged` | internal/domain/agents/reconcile.go:85-125 | repeating the last applied definition answers Unchanged and writes nothing, also when the store returns the client URIs in another order |
| `Agents.ReconcileApplies` | internal/domain/agents/reconcile.go:30-103 | a successful reconcile leaves the desired definition stored under the external ID, keeps what was omitted, changes no other agent, and creates exactly when there was no holder |
| `Agents.ReconcileKeepsNames` | internal/domain/agents/service.go:81-191 | a reconcile never makes two agents share an external ID, a canonical ID or a client URI |
| `Agents.ClientsStayUnique` | internal/domain/agents/service.go:303-317 | where agents may not share a client ID, a reconcile never makes them share one |
| `ReconcileRuns.ReconcilesConverge` | internal/domain/agents/reconcile.go:30-103 | among any number of concurrent reconciles without removals or foreign collisions at most one answers Created, none Conflict, and after any success exactly one agent holds the external ID |
| `ReconcileRuns.AnswersCarryDefinition` | internal/domain/agents/reconcile.go:85-103 | whatever interleaves, a call that succeeds answers with an agent that carries the definition it asked for |
| `ReconcileRuns.WriteKeepsInv` | internal/domain/agents/service.go:138-191 | a write by a reconcile always finds its agent and never collides |
| `ReconcileRuns.CollisionMeansHolder` | internal/domain/agents/reconcile.go:65-82 | a name collision during creation means that a holder of the external ID exists, so the re-read finds it |
| `Grants.ValidateScopeInclusion` | internal/domain/consent/service.go:735-767 | accepts exactly when every entry's set is resolved and contains its services |
| `Grants.ValidateGrantStructure` | internal/domain/consent/service.go:479-583 | accepts exactly the structured submissions, for every declaration and every resolved list, repeated IDs included |
| `Grants.ValidateSubmission` | internal/domain/consent/service.go:438-470 | accepts exactly when every included service has an active session |
| `Grants.AcceptanceIsExact` | internal/domain/consent/service.go:313-347 | with distinct IDs the three validators together accept exactly the submissions that are acceptable in terms of the agent's declaration |
| `Grants.ConsentStore.GrantConsent` | internal/domain/consent/service.go:290-427 | only a request that passes the validators succeeds; one that is also well formed succeeds, repository faults aside, and a changed grant is stored exactly as asked; one grant per pair; a refusal changes no grant; a grant past its end is never renewed while its refresh sessions remain |
| `Providers.ProviderEntity.ValidateClientRegistration` | internal/domain/model/thirdparty_oauth2_provider.go:219-248 | resolves an omitted registration in place and accepts exactly the consistent ones |
| `Providers.ProviderEntity.ValidateCredentialSource` | internal/domain/model/thirdparty_oauth2_provider.go:191-215 | resolves an omitted source in place and accepts exactly the supported combinations |
| `Providers.ProviderEntity.ValidateClientAuthentication` | internal/domain/model/thirdparty_oauth2_provider.go:396-442 | accepts exactly when registration, source, method, secret and client ID agree, and reports public clients |
| `Providers.ProviderEntity.EnrichForGoogleFlavor` | internal/domain/model/thirdparty_oauth2_provider.go:871-901 | fills client ID, endpoints and an omitted issuer from the credential document, or refuses an inconsistent one |
| `Providers.ValidateDiscoverySelection` | internal/domain/model/thirdparty_oauth2_provider.go:537-591 | accepts exactly the consistent discovery selections |
| `Providers.ValidateProtectedResources` | internal/domain/model/thirdparty_oauth2_provider.go:931-944 | accepts exactly resources that all have a normal form and share none |
| `Providers.ProviderEntity.ValidateForCreate` | internal/domain/model/thirdparty_oauth2_provider.go:626-728 | accepts exactly the stated entities, and leaves an accepted one with its omitted settings resolved |
| `Providers.ProviderEntity.ValidateForUpdate` | internal/domain/model/thirdparty_oauth2_provider.go:734-841 | the same for updates, which may keep the ciphertext of a dynamically registered client |
| `Providers.DefaultsByField` | internal/domain/model/thirdparty_oauth2_provider.go:191-222 | an omitted source becomes stored and an omitted registration follows the method; nothing else is touched |
| `Providers.AcceptedClient` | internal/domain/model/thirdparty_oauth2_provider.go:396-442 | an accepted client is coherent: hosted clients without credentials, public ones with an ID only, all others with a non-empty secret |
| `Providers.AcceptedManual` | internal/domain/model/thirdparty_oauth2_provider.go:663-690 | an accepted manual entity has an issuer, its endpoints unless discovered, and a client ID unless hosted or in a file |
| `Providers.AcceptedGoogle` | internal/domain/model/thirdparty_oauth2_provider.go:871-901 | an accepted Google entity has the client ID, token endpoint and issuer of its credential document |
| `Providers.AcceptedSurroundings` | internal/domain/model/thirdparty_oauth2_provider.go:537-728 | names, parameters and discovery settings of every accepted entity |
| `Providers.OrdinaryProviderIsStored` | internal/domain/model/thirdparty_oauth2_provider.go:323-841 | every ordinary confidential provider is accepted for creation and update and is storable once its secret is encrypted |
| `Providers.ProviderEntity.ValidateStoredClientAuthentication` | internal/domain/model/thirdparty_oauth2_provider.go:323-394 | accepts exactly the entities whose authentication, discovery state and secret state agree |
| `Providers.AcceptedMeansStorable` | internal/domain/model/thirdparty_oauth2_provider.go:323-841 | an accepted entity, its plaintext secret replaced by ciphertext, is storable if and only if its discovery status is valid and, in discovery mode, no parameter is another spelling of resource |
| `Providers.AcceptedButNotStorable` | internal/domain/model/thirdparty_oauth2_provider.go:374-394 | the condition is needed: an entity accepted for creation with a valid status that a second spelling of resource keeps out of storage |

## Left out

- Cryptography, token parsing, certificate and PEM handling, expression compilation: uninterpreted functions of their inputs.
- HTTP handlers, middleware, routing, metrics, logging, audit records and spans: no effect on the modelled state; of the handlers only the long poll's subscribe, read and wait steps are modelled.
- Error messages: errors are modelled by their kind.
- The token bucket behind AllowCreation: an arbitrary boolean at each step.
- Patterns of approvals (tool and parameter patterns) and risk levels: whether the pattern covers the call is a parameter.
- PostgreSQL statements: the repositories follow the port contracts and the in-memory adapter; where the two adapters differ on consuming an approval twice, the model refuses the second write as the SQL statement does, and a version bump in the same transaction is covered by `AtomicRepositoryIsAlwaysCurrent`.
- Expiry exactly at the deadline: the model follows the domain method, for which an approval expires strictly after its deadline.
- The clock is read once per repository call, not once per element of a scan.
- Wrap-around of the 64-bit generation and version counters: both are unbounded here.
- Concurrent re-reading of a legacy key while its public form is stored: the stored form never changes the published set, so the build is one step.
- Service instances that share a store: the pending bound is stated for one instance, as the mutex is local to it.
- ReconcilesConverge: says nothing once a holder has been removed during the run, because a call that lost its agent twice then reports a conflict.
- Field validation of an agent, service coverage and provider checks: one predicate on the definition.
- ValidateIDs of the permission-set service: a set of known IDs that may differ from what is resolved afterwards.
- A provider's fields are one record held by the object, so aliasing between its slices and maps and those of a caller is not modelled.
- Token exchange, branch keys, configuration loading, credential stores, OAuth2 authorization endpoints and the web UI: not part of this model.
