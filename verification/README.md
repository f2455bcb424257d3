# Verified model of snulbug's stateful cores

This project models seven components of snulbug, a gateway for MCP traffic, and proves what they
promise over all their inputs and runs.

- **Runtime ownership lease.** Several controllers compete for one lease record through a store
  that offers atomic `get`, `incr` and `cas`. `FabricLease.dfy` holds the lock-based memory store,
  the retry loops of the compare-and-swap store, and the small program of separate accesses that
  those loops run. `FabricRuns.dfy` interleaves any number of such calls under one clock that
  never goes back: fencing and mutual exclusion. `FabricRefinement.dfy` builds, for every such run,
  the serial run of the memory store that explains it; `FabricCopies.dfy` says when a caller's own copy
  of a lease can be trusted; `FabricTerms.dfy` says field by field what swaps store and calls answer.
- **Member registry.** `MemberNames.dfy`, `MemberRegistry.dfy` and `RegistryRuns.dfy`: the
  normal form of the stored document, the optimistic update loop, and its serialisability;
  `RegistryTerms.dfy` what each write leaves in the member's fields and what stands of it later.
- **Task leases.** `TaskLeases.dfy` is the lease store with its operations, `TaskLeaseRuns.dfy`
  what each does to a single lease, `TaskLeaseHistory.dfy` token lifetimes and call budgets over
  whole runs, `TaskLeaseRenewal.dfy` the arithmetic of renewal, `TaskLeaseAdmission.dfy` what one
  operation promises to later requests, `TaskLeaseCleanup.dfy` and `TaskLeaseCoverage.dfy` two
  simulations. `TaskLeaseRules.dfy`, `TaskLeaseWrites.dfy` and `TaskLeasePreviewRules.dfy` tell admission,
  refusals (in the order of `Rules.dfy`), writes and previews on the fields of the records.
  `LeasePaths.dfy` is path containment on strings, `LeasePathLaws.dfy` what decides a path's components.
- **Policy learner and amender.** `LearnedPolicy.dfy`, `PolicyAmendment.dfy` and `AmendmentRounds.dfy`:
  tables learned from redacted events (`Redactions.dfy`), the decision procedure compiled from them,
  and the feedback of blocked events, round after round. `LearnedRules.dfy` and `AmendmentGrants.dfy` say
  what events show, what the decision asks in which order, and what a log grants or is refused.
- **HTTP mounts.** `HttpRoutes.dfy` is the route table and dispatch, `HttpRouteRules.dfy` the same
  character by character, `HttpBodyRelay.dfy` the two tasks that share one `receive`.
- **Cache sealer.** `CacheSealer.dfy`: the message-by-message buffer and the whole-body function, over
  the values of `JsonValues.dfy`; `CacheSealerRules.dfy` the same by the names on the wire.
- **Schema size check.** `SchemaSize.dfy`: a bounded walk over shared or cyclic object graphs;
  `SchemaSizePaths.dfy` its verdict told by paths.

Time is real-valued for the runtime lease and the registry. For task leases it is whole
microseconds, and stored times are truncated to whole seconds as the source formats them.
Hashes and keyed hashes are injective constructors. What a shared store, a clock, a random draw,
JSON coding, redaction or a URL parser does enters as a parameter.

Six promises hold only under a condition, which is proved exact:

- A second renewal at the same instant is a no-op if and only if the lease does not *churn*: with a
  lifetime below two seconds, truncation can leave a lease due again the moment it is renewed, and
  then its generation grows without bound while the clock stands still
  (`TaskLeaseRenewal.SecondRenewal`, `TaskLeaseRenewal.ChurningIsUnbounded`).
- Amendment on a request's own rejection converges if and only if every obstacle is one that
  amendment can remove, as the log shows it. The learner and the amender read *redacted* events
  (`snulbug/inspection.py:323-329`, `snulbug/redaction.py:132-174`), so a path, method, tool or target
  that redaction changes is not taught by its own event and never granted: a tool called `get-secret`
  is rejected for ever.
  For resource and prompt requests the log also records `uri` or `name` (`snulbug/redaction.py:374-385`)
  while the compiled policy checks `name` before `uri`
  (`AmendmentRounds.Converges`, `AmendmentRounds.GetSecretNeverConverges`, `AmendmentRounds.NamedReadNeverConverges`).
- A learned policy accepts an allowed request of its own log if and only if the log supports it: a call
  without arguments needs that no allowed event taught its tool a key, a resource or prompt that some
  allowed event taught the checked target (`LearnedPolicy.OwnRequestAcceptedExactly`).
- Amending keeps an accepted request accepted, except a call without arguments when the log asks for
  a key of its tool (`PolicyAmendment.AmendmentGrows`).
- Cleanup is transparent for every request, and for a renewal if and only if the renewal is not
  *shadowed*: with a shared invite, removing a dead lease can uncover a live one behind it
  (`TaskLeaseCleanup.CleanupIsTransparent`, `TaskLeaseCleanup.CleanupChangesRenewal`).
- A caller's own copy of the runtime lease can be overtaken while it still looks active if and only
  if its record was cut short, by a release or a renewal that ends earlier
  (`FabricCopies.CopyIsExclusiveExactly`).

`dafny verify dfyconfig.toml` checks the whole project.

## Model

| member | source | states |
|---|---|---|
| FabricLease.MemoryFabricRuntimeStateStore.AcquireLease | snulbug/fabric_runtime.py:98-127 | the new lease, counter and result are those of the memory step: renewal for the active owner, refusal for another, a fresh token otherwise |
| FabricLease.MemoryFabricRuntimeStateStore.RenewLease | snulbug/fabric_runtime.py:129-143 | only an active lease of this owner and token is extended |
| FabricLease.MemoryFabricRuntimeStateStore.ReleaseLease | snulbug/fabric_runtime.py:145-150 | only a record of this owner and token is released |
| FabricLease.PolicyFabricRuntimeStateStore.AcquireLease | snulbug/fabric_runtime.py:221-253 | whatever other clients do, the loop takes the access program from start to its end with the returned result, each access being the one the program names with its arguments |
| FabricLease.PolicyFabricRuntimeStateStore.TryTake | snulbug/fabric_runtime.py:243-252 | the counter is drawn before the swap, and a lost swap goes on to the next attempt |
| FabricLease.PolicyFabricRuntimeStateStore.RenewLease | snulbug/fabric_runtime.py:255-273 | the same for renewal: at most eight attempts, a refusal as soon as the record is foreign, released or expired |
| FabricLease.PolicyFabricRuntimeStateStore.ReleaseLease | snulbug/fabric_runtime.py:275-284 | the same for release, which never looks at the expiry |
| FabricRuns.StepKeepsInv | snulbug/fabric_runtime.py:221-284 | every access of every interleaving keeps the history of swaps lawful and every call's stale knowledge usable |
| FabricRuns.FencingTokens | snulbug/fabric_runtime.py:229-253 | stored tokens never decrease, each acquisition stores a strictly larger one, none exceeds the counter, and a swap that is no acquisition keeps owner and token |
| FabricRuns.RetiredStaysRetired | snulbug/fabric_runtime.py:263-284 | an (owner, token) pair once taken over or released is never the active lease again, whatever stale calls are in flight |
| FabricRuns.MutualExclusion | snulbug/fabric_runtime.py:221-284 | no two pairs hold an unexpired, unreleased lease at one instant, and a swap changes the owner only over a record expired or released at that instant |
| FabricCopies.GrantsAreExclusive | snulbug/fabric_runtime.py:221-284 | two active copies handed to callers are of one owner and token if neither record was cut short |
| FabricCopies.CopyIsExclusiveExactly | snulbug/fabric_runtime.py:221-284 | over every run, an active copy can be overtaken by a later token, nothing more being stored under its own, if and only if the last record of its token is released or ends before the copy says |
| FabricCopies.CutRecordIsOpenToAnyone | snulbug/fabric_runtime.py:468-490 | in every run whose stored record is released or ends before an active copy, any owner can be granted the lease while the copy looks active |
| FabricRuns.SoloCall | snulbug/fabric_runtime.py:98-150 | a call that runs alone ends with exactly the record, counter and result of the memory store and never retries |
| FabricRefinement.Linearizable | snulbug/fabric_runtime.py:98-284 | every concurrent run has a real-time respecting serial order of its uncontended calls in which the memory store, given readings taken inside each call, the check before the stamp, and tokens renamed in order, returns the same results and ends with the same lease |
| FabricRefinement.RunSimulates | snulbug/fabric_runtime.py:221-284 | the serial order built along a run mirrors the shared record after every step |
| FabricRefinement.MemoryRunMatches | snulbug/fabric_runtime.py:98-150 | the memory store's own counter numbers the acquisitions as the renaming does |
| FabricTerms.SwapStores | snulbug/fabric_runtime.py:438-490 | in every run, the fields that each successful swap stores: heartbeat at the call's own reading, end one ttl later, holding kept by a renewal or a holder's acquisition, a larger token, own start and metadata for a new lease, an end at the reading for a release |
| FabricTerms.RenewalExtends | snulbug/fabric_runtime.py:255-273 | alone, a renewal succeeds if and only if the caller holds the record, which then is held at every instant before now + ttl |
| FabricTerms.AcquisitionGrants | snulbug/fabric_runtime.py:221-253 | alone, an acquisition is refused exactly over another's held lease, and otherwise held for the full ttl, carried on for the holder or new with the next token |
| FabricTerms.ReleaseEnds | snulbug/fabric_runtime.py:275-284 | alone, a release ends the record of this owner and token at once, and no other |
| FabricTerms.BadInputIsRefused | snulbug/fabric_runtime.py:438-442 | no owner or no positive ttl is invalid and touches nothing |
| FabricTerms.OneLeaseStands | snulbug/fabric_runtime.py:221-284 | among all stored leases at most one is unreleased, in time and last under its token, and owners change only over an ended one |
| FabricTerms.ContendedNeedsEightWrites | snulbug/fabric_runtime.py:229-253 | a call gives up as contended only after eight writes by others since it began |
| MemberNames.SafeNameFixes | snulbug/fabric_members.py:510-511 | a normalised name is safe, and safe names are left alone |
| MemberNames.SafeNameJoins | snulbug/fabric_members.py:510-511 | the safe name is the words of safe characters joined by single dashes, without surrounding dashes; "member" if there is no word |
| MemberRegistry.NormalizeMemberFixes | snulbug/fabric_members.py:398-413 | normalising yields a normal member and is the identity on normal ones |
| MemberRegistry.RoundTrip | snulbug/fabric_members.py:457-468 | a normal registry survives encoding and decoding unchanged |
| MemberRegistry.DecodeIsNormal | snulbug/fabric_members.py:372-395 | any stored document decodes to members filed under their own safe ids |
| MemberRegistry.ApplyTouchesOneMember | snulbug/fabric_members.py:56-74 | an update changes the member it names as specified, no other, and forgets none |
| MemberRegistry.Document.Update | snulbug/fabric_members.py:90-139 | the in-place closures compute the update function, with its outcome for missing members |
| MemberRegistry.UpdateRegistry | snulbug/fabric_members.py:249-265 | whatever other writers do, the loop swaps in exactly the updated form of what it read, up to eight times |
| RegistryRuns.Serialisable | snulbug/fabric_members.py:42-150 | the stored registry is some serial order of the writes, each logged once with the outcome it returned, and each member's record is the effect of exactly the writes that name it |
| RegistryRuns.SerialIsPerMember | snulbug/fabric_members.py:42-150 | a serial execution seen at one member is the fold of that member's own updates |
| RegistryRuns.ContendedNeedsEightWrites | snulbug/fabric_members.py:249-265 | the contended error is raised only if at least eight distinct other calls wrote during the call |
| RegistryTerms.WritesStoreWhatWasAsked | snulbug/fabric_members.py:56-150 | in every run, the fields each write leaves: a registration or heartbeat ends one ttl after its reading with the status asked for, a heartbeat keeps role, upstreams and details, leaving ends the member at once, and the outcome says so |
| RegistryTerms.LastWriteStands | snulbug/fabric_members.py:42-150 | at any moment the store holds of a member what the last write naming it left |
| RegistryTerms.CreatedOnce | snulbug/fabric_members.py:56-63 | over every run the creation time is the one stored at the start, or else the reading of the first registration |
| RegistryTerms.BadInputExactly | snulbug/fabric_members.py:286-317 | a finished call was refused if and only if its role, status, ttl or upstreams are not acceptable |
| RegistryTerms.EightAttempts | snulbug/fabric_members.py:249-265 | a lost swap leads to the next of eight attempts, the eighth to the contended error |
| RegistryTerms.LastEntryCounts | snulbug/fabric_members.py:372-413 | a foreign document is read as its last entry under each safe name, with unknown roles and statuses replaced and all else kept |
| LeasePaths.AcceptsExactly | snulbug/leases.py:1056-1072 | the string test on normal forms holds if and only if the root and components stand in the containment relation |
| LeasePaths.Contained | snulbug/leases.py:1056-1072 | through a prefix that does not start with "..", an accepted path extends the prefix's components and has no ".." |
| LeasePaths.DotAcceptsWhatDoesNotClimb | snulbug/leases.py:1056-1066 | the prefix "." accepts exactly the relative paths whose pieces never climb above the start |
| LeasePathLaws.PiecesAreBetweenSeparators | snulbug/leases.py:1069-1072 | a path falls into pieces at slashes and backslashes |
| LeasePathLaws.RootCounts | snulbug/leases.py:1069-1072 | exactly two leading separators are a root of their own, any other number the usual one |
| LeasePathLaws.ResolvesByRewriting | snulbug/leases.py:1069-1072 | empty pieces and dots vanish, a name cancels with the ".." after it, a ".." at an absolute root vanishes, and a list to which none applies stays |
| LeasePathLaws.DetoursAreInvisible | snulbug/leases.py:1069-1072 | a detour through a name, a dot or a doubled separator leaves the components of any path as they are |
| TaskLeases.LeaseStore.CreateLease | snulbug/leases.py:125-218 | accepted arguments append one lease and return the token its digest is of; all others change nothing |
| TaskLeases.LeaseStore.RevokeLease | snulbug/leases.py:254-266 | the first lease of the id keeps or gets its revocation time, found or not is reported |
| TaskLeases.LeaseStore.RevokeInviteRenewal | snulbug/leases.py:269-276 | exactly the renewable leases of the invite lose renewal |
| TaskLeases.LeaseStore.ReactivateLease | snulbug/leases.py:279-317 | the whole new record, and no change for renewable leases or bad limits |
| TaskLeases.LeaseStore.RenewLease | snulbug/leases.py:327-399 | the new store and answer, with the order of denials and the half-life rule |
| TaskLeases.LeaseStore.Enforce | snulbug/leases.py:493-553 | the verdict, and exactly one recorded use for an admitted tools/call |
| TaskLeases.LeaseStore.CleanupInactive | snulbug/leases.py:233-251 | what is kept, in order, and how many are removed |
| TaskLeaseRuns.ResolvesToPresented | snulbug/leases.py:556-602 | resolution finds a lease if and only if the request presents it by selection, header or both in agreement |
| TaskLeaseRuns.StepIsPointwise | snulbug/leases.py:254-399 | every in-place operation acts on each lease by itself |
| TaskLeaseRuns.KeptIs | snulbug/leases.py:239-241 | cleanup keeps exactly the live and the renewable leases |
| TaskLeaseRuns.StepKeepsDistinct | snulbug/leases.py:125-399 | ids, invites and digests stay apart, so a token answers to at most one lease |
| TaskLeaseHistory.StepKeepsInv | snulbug/leases.py:125-399 | every operation keeps each record in agreement with the history of minted tokens and admitted calls |
| TaskLeaseHistory.Descent | snulbug/leases.py:336-399 | while a lease stays, its permissions, binding and authorization end never change, and a renewable one's expiry, generation and use count never decrease |
| TaskLeaseHistory.TokenLifetime | snulbug/leases.py:373-399 | a header token of generation g is admitted only before its stored expiry, only within 30 seconds once g+1 is minted, and never once g+2 is |
| TaskLeaseHistory.RenewedTokenResolves | snulbug/leases.py:393-399 | the token of any successful renewal resolves back to the renewed lease |
| TaskLeaseHistory.CurrentTokenResolves | snulbug/leases.py:320-324 | in every run the current token is derived for the current generation and resolves to its lease |
| TaskLeaseHistory.CallBudget | snulbug/leases.py:780-784 | over every run the calls admitted on a renewable lease, over all its tokens, equal its use count and never exceed its limit |
| TaskLeaseHistory.CallBudgetOfEveryId | snulbug/leases.py:493-553 | over every run no more calls are admitted on any id than the limit it was created with, also when its lease was removed |
| TaskLeaseHistory.CallBudgetOfReactivatedId | snulbug/leases.py:279-309 | the same from a reactivation on, with the limit the lease has then |
| TaskLeaseHistory.NothingAfterRemoval | snulbug/leases.py:233-251 | once its lease is gone, nothing is admitted on an id again |
| TaskLeaseHistory.CallBudgetSinceReactivation | snulbug/leases.py:279-309 | for any other lease the same from its creation or last reactivation on |
| TaskLeaseRenewal.GenerationBound | snulbug/leases.py:373-392 | expiry never passes the authorization, and generation g satisfies g*(ttl - 2*slack) + ttl < 2*window for the slack truncation takes |
| TaskLeaseRenewal.WholeSecondGenerationBound | snulbug/leases.py:373-392 | on whole seconds the generation stays below twice window over lifetime |
| TaskLeaseRenewal.AnyClockGenerationBound | snulbug/leases.py:1113-1114 | on any clock the bound holds with two seconds taken off the lifetime |
| TaskLeaseRenewal.SecondRenewal | snulbug/leases.py:373-399 | a second renewal at the same instant returns the same token and an unchanged store if and only if the lease does not churn |
| TaskLeaseRenewal.LongLivesDoNotChurn | snulbug/leases.py:373-378 | no lease with a lifetime of two seconds or more churns, nor one on whole seconds |
| TaskLeaseRenewal.ChurningIsUnbounded | snulbug/leases.py:373-392 | n renewals of a churning lease at one instant mint n generations |
| TaskLeaseRenewal.OneSecondLifeChurns | snulbug/leases.py:184-207 | a lease of one second created half past a second churns at once |
| TaskLeaseAdmission.CreatedTokenResolves | snulbug/leases.py:203-218 | the token create returns resolves to the new lease |
| TaskLeaseAdmission.ReactivatedTokenResolves | snulbug/leases.py:290-305 | after reactivation the new token resolves and the old one is invalid |
| TaskLeaseAdmission.RevokedAdmitsNothing | snulbug/leases.py:254-266 | after a revocation nothing is admitted on that id, and the leases that do admit are untouched |
| TaskLeaseAdmission.OverlapIsHonoured | snulbug/leases.py:380-383 | until the overlap ends the token of the generation before still resolves |
| TaskLeaseAdmission.RenewalLeavesHalfALife | snulbug/leases.py:373-378 | a granted renewal leaves more than half a life, short of truncation, or all of the authorization |
| TaskLeaseAdmission.AdmittedStaysInScope | snulbug/leases.py:692-747 | an admitted call is on a live, matching lease, names an allowed tool, and its paths extend an allowed prefix with no ".." |
| TaskLeaseRules.AdmittedExactly | snulbug/leases.py:493-602 | a request is admitted on a lease if and only if it shows that lease, the lease is live with calls left, the identity is within every list bound, and tool, paths, hosts and commands are in scope |
| TaskLeaseRules.AuthAcceptsExactly | snulbug/leases.py:935-996 | an identity passes if and only if nothing is bound, or it is enabled and its subject, issuer, tenant, client and profile are in, and its groups meet, each non-empty list |
| TaskLeaseRules.ScopeAllowsExactly | snulbug/leases.py:720-747 | a call is in scope if and only if its tool, and every path, host and command of it, is one the lists allow |
| TaskLeaseRules.RefusedInOrder | snulbug/leases.py:692-768 | a request that shows a lease is blocked for the first rule it breaks, in the order of the table, and for no other reason |
| TaskLeaseRules.NotShownIsRefused | snulbug/leases.py:556-602 | a request that shows no lease is blocked for how it presents one |
| TaskLeaseRules.UnleasedExactly | snulbug/leases.py:493-553 | only a request without selection and header passes without a lease, unless its call requires one |
| TaskLeaseWrites.RenewalGrantedExactly | snulbug/leases.py:336-372 | a renewal is granted if and only if the secret matches, nothing is revoked, the authorization lasts, the caller is verified or holds the bearer and is within the binding, and policy and budget allow it |
| TaskLeaseWrites.RenewalRefusedInOrder | snulbug/leases.py:336-372 | a refused renewal names the first rule of the table it breaks and changes nothing |
| TaskLeaseWrites.RenewalWrites | snulbug/leases.py:373-399 | the fields of the next generation, written exactly if half the life is gone and more is to be had |
| TaskLeaseWrites.CreateWrites | snulbug/leases.py:125-218 | the fields of a created lease, and exactly which arguments create one |
| TaskLeaseWrites.RevokeWrites | snulbug/leases.py:254-266 | a first revocation sets its time, a later one keeps it, nothing else changes |
| TaskLeaseWrites.RevokeInviteWrites | snulbug/leases.py:269-276 | the same for the renewal of each renewable lease of the invite |
| TaskLeaseWrites.ReactivateWrites | snulbug/leases.py:279-317 | the fields a reactivation resets and those it keeps |
| TaskLeaseWrites.EnforceWrites | snulbug/leases.py:780-784 | one use, with time and tool, exactly on the lease that admits the call |
| TaskLeaseWrites.CleanupKeepsExactly | snulbug/leases.py:233-251 | a lease is kept if and only if it is unrevoked and has time left or can still be renewed |
| TaskLeaseCleanup.CleanupIsTransparent | snulbug/leases.py:233-251 | with or without its cleanups a run, invites shared or not, gives every later request the same answer on the same lease, and a renewal the same token or a denial in both if and only if it is not shadowed |
| TaskLeaseCleanup.CleanupChangesRenewal | snulbug/leases.py:343-354 | on any store, a cleanup changes whether a renewal is granted if and only if the first lease of its invite is dead and the first one kept would be renewed, and then from denied to granted |
| TaskLeaseCleanup.RunKeepsThinned | snulbug/leases.py:865-885 | the cleaned store lacks only leases that are dead, and they stay dead |
| TaskLeaseCleanup.SharedInviteIsNotTransparent | snulbug/leases.py:343-343 | such a store is reached from an empty one by two creates, a revocation and a cleanup |
| TaskLeaseCoverage.Consumption.PreviewCoverage | snulbug/leases.py:605-664 | the matches are the covering leases in store order, or there is a denial for each lease; the plan grows by the chosen one |
| TaskLeaseCoverage.MatchesMean | snulbug/leases.py:640-652 | there is a match if and only if a lease covers the call, the first match is the first such lease, and every lease either matches or is denied |
| TaskLeaseCoverage.FirstMatchIsCharged | snulbug/leases.py:654-660 | what is planned for an id grows by one exactly if it is that of the first match |
| TaskLeaseCoverage.PreviewSimulatesEnforcement | snulbug/leases.py:605-664 | enforcing each covered call by selection of its first match admits it there, an uncovered one is refused on every lease at that point, and final use counts are initial ones plus consumption |
| TaskLeasePreviewRules.MatchesServe | snulbug/leases.py:640-652 | the matches are, in store order, exactly the leases that are usable by the identity with the planned calls counted and have the call in scope |
| TaskLeasePreviewRules.DenialsAreFirstRules | snulbug/leases.py:640-652 | the denials are, in store order, the first broken rule of each other lease |
| LearnedPolicy.LearnedPolicy.Add | snulbug/learn.py:187-232 | one event changes the tables and counters as specified |
| LearnedPolicy.LearnedPolicy.FromEvents | snulbug/learn.py:158-165 | a whole log is folded in order, with the default path for a log that taught none |
| LearnedPolicy.LearnedPolicy.FromManifest | snulbug/learn.py:167-185 | the tables and event counts of a manifest, never without a path |
| LearnedPolicy.AcceptsExactly | snulbug/learn.py:349-405 | the compiled decision accepts if and only if nothing is hopeless, every need is in the tables, and a call without arguments has a tool without keys |
| LearnedPolicy.LearnsExactly | snulbug/learn.py:187-232 | an entry is learned if and only if some allowed event teaches it |
| LearnedPolicy.OrderIsIrrelevant | snulbug/learn.py:158-165 | logs with the same allowed events give the same policy |
| LearnedPolicy.LearnedAcceptsExactly | snulbug/learn.py:313-406 | on every log and request, the learned policy accepts if and only if the allowed events teach all that the request needs, and no key where it has no arguments |
| LearnedPolicy.OwnRequestAcceptedExactly | snulbug/learn.py:372-390 | exactly which allowed, legible requests of a log its policy accepts |
| LearnedPolicy.LearnedAccepts | snulbug/learn.py:313-406 | every allowed, legible logged request with object arguments and agreeing targets is accepted |
| LearnedPolicy.UnshownToolIsRejected | snulbug/redaction.py:153-174 | a tool whose name redaction never shows is rejected by the policy of any log |
| LearnedPolicy.GetSecretIsNeverLearned | snulbug/redaction.py:46-55 | no log admits a tool called get-secret |
| LearnedPolicy.LoneRequestNeedsAgreement | snulbug/redaction.py:374-385 | alone in its log a request is accepted if and only if redaction leaves its names alone and its logged and checked targets agree |
| LearnedPolicy.NamedReadIsRejected | snulbug/redaction.py:374-385 | a logged resource read whose name differs from its shown uri is rejected by its own policy |
| LearnedPolicy.AcceptedIsWitnessed | snulbug/learn.py:349-405 | path, method, tool, each argument key and the target of an accepted request are each witnessed by an allowed event |
| LearnedPolicy.LearnedIsSmallest | snulbug/learn.py:187-232 | tables that accept a legible request with agreeing targets hold everything its event taught |
| LearnedPolicy.LearnedWasTaught | snulbug/learn.py:187-232 | every learned entry was taught by an allowed event |
| LearnedPolicy.MissingArgumentsAreNotCovered | snulbug/learn.py:372-387 | a log whose policy rejects an allowed call of its own that carried no arguments |
| LearnedPolicy.RoundTripDecidesAlike | snulbug/learn.py:167-185 | a policy reloaded from its manifest decides every request alike |
| LearnedRules.LearnsWhatIsShown | snulbug/learn.py:158-232 | the tables hold exactly what allowed events show, by the names of the methods, and the path "/mcp" if no path is shown |
| LearnedRules.EventsDisplay | snulbug/inspection.py:323-329 | what the event of a request shows: redacted path, method and tool, the uri of a read or the name of a prompt, and the argument names |
| LearnedRules.DecidedInOrder | snulbug/learn.py:349-405 | the decision reports the first broken rule of a table in the methods' own names, and accepts if none is |
| PolicyAmendment.Amendment.AddBlockedEvent | snulbug/learn.py:429-502 | a blocked event grants exactly the entries its reason asks for, recording each, and notes a refused risky tool once |
| PolicyAmendment.Amendment.AddApprovedEvent | snulbug/learn.py:504-553 | an approved confirmation grants path, method and capability, risky tools excepted |
| PolicyAmendment.Amendment.Grant | snulbug/learn.py:605-623 | an entry that is missing is added and recorded, once |
| PolicyAmendment.AmendPolicy | snulbug/learn.py:66-139 | a whole log amends the reloaded tables and returns the new manifest, the additions and the tools refused |
| PolicyAmendment.AdditionsAreTheDifference | snulbug/learn.py:605-623 | the additions are, without duplicates, exactly the difference between the tables after and before |
| PolicyAmendment.AmendmentGrows | snulbug/learn.py:372-387 | a request accepted before is accepted after, if and only if it is no call without arguments, or no event of the log asks for a key of its tool |
| PolicyAmendment.RiskyToolsNeedConsent | snulbug/learn.py:461-484 | without consent no log of either kind adds a risky tool |
| AmendmentGrants.AmendedHolds | snulbug/learn.py:429-553 | for every log of either kind, the tables afterwards hold what they held and what some event of the log asks for, told on the event's fields |
| AmendmentGrants.AddedExactly | snulbug/learn.py:429-553 | an entry is reported as added if and only if it is new and some event asks for it |
| AmendmentGrants.AdditionsAreExplained | snulbug/learn.py:605-623 | the reason reported with an addition is that of an event asking for it |
| AmendmentGrants.RejectedExactly | snulbug/learn.py:461-480 | the tools reported as refused are, once each, the dangerous ones asked for without consent |
| AmendmentGrants.RiskyIsDangerous | snulbug/learn.py:698-701 | a tool is risky if and only if its name reads one of six terms somewhere, in any case and with dashes for underscores |
| AmendmentGrants.ApprovedIsAccepted | snulbug/learn.py:504-553 | after a log of approvals an approved, legible request with agreeing targets and a grantable tool is accepted, without an arguments object exactly if its array is empty or no key is known |
| AmendmentRounds.Converges | snulbug/learn.py:429-502 | amending on a request's own redacted rejection, through the manifest, reaches acceptance within three rounds and stays there if and only if every obstacle is removable; otherwise no number of rounds does |
| AmendmentRounds.WellFormedConverges | snulbug/learn.py:234-259 | every well-formed, legible request with agreeing targets and a tool that may be granted converges |
| AmendmentRounds.HiddenToolNeverConverges | snulbug/redaction.py:153-174 | a tool whose name redaction changes is never admitted by amending |
| AmendmentRounds.GetSecretNeverConverges | snulbug/redaction.py:46-55 | for one, a tool called get-secret |
| AmendmentRounds.NamedReadNeverConverges | snulbug/redaction.py:374-385 | nor is a resource read whose name is not the uri the log shows |
| HttpRoutes.NormalizeRoutes | snulbug/http_routes.py:53-108 | a table is accepted if every route is acceptable after those before it, and an error names the first that is not |
| HttpRoutes.NormalizedIsSound | snulbug/http_routes.py:62-85 | accepted prefixes are distinct, start but do not end with a slash, and overlap nothing reserved |
| HttpRoutes.FirstMatchIsLongestMatch | snulbug/http_routes.py:215-225 | in the middleware's order the first match is the one longest match, and none only if nothing matches |
| HttpRoutes.OrderIsIrrelevant | snulbug/http_routes.py:215-221 | the order of configuration never changes the mount chosen for a path |
| HttpRoutes.MountsSpareReserved | snulbug/http_routes.py:57-83 | no mount captures a path of MCP or the gateway, and an MCP path of "/" leaves room for none |
| HttpRoutes.HttpRoutesMiddleware.Call | snulbug/http_routes.py:224-240 | which of the five outcomes a request gets, a forbidden method before a bad path, and that a forwarded one has an allowed method and no dot segment |
| HttpRoutes.ForwardedStaysInMount | snulbug/http_routes.py:280-285 | the forwarded suffix is absolute, gives back the raw path under the mount, and the raw path is not reserved |
| HttpRouteRules.RefusedInOrder | snulbug/http_routes.py:59-106 | a configured route is refused for the first broken rule of the table, down to the characters of its prefix, and accepted if none is |
| HttpRouteRules.RoutesAreAsConfigured | snulbug/http_routes.py:104-107 | an accepted route has its configured prefix and upstream without their last slashes, its strip flag and methods, and a prefix free of the reserved paths |
| HttpRouteRules.MatchesUnder | snulbug/http_routes.py:49-50 | a path matches a prefix if it is the prefix or goes on with a slash |
| HttpRouteRules.PiecesAreSegments | snulbug/http_routes.py:71-72 | the pieces of a path are its segments between slashes |
| HttpBodyRelay.StepKeepsInv | snulbug/http_routes.py:242-281 | every step of reader, watcher, client and supervisor keeps the relay invariant |
| HttpBodyRelay.NeverBothWaiting | snulbug/http_routes.py:255-281 | in no interleaving do both tasks wait on receive |
| HttpBodyRelay.WatcherComesAfterTheBody | snulbug/http_routes.py:255-258 | the watcher receives only after the final chunk was taken, and the reader nothing after it |
| HttpBodyRelay.BytesAreRelayed | snulbug/http_routes.py:265-281 | what is yielded is what was received, chunk by chunk in order; a drained generator has relayed the whole body, and an ended exchange all that was received or none of a first message |
| HttpBodyRelay.WatcherIsNotForgotten | snulbug/http_routes.py:265-281 | once the generator has passed the final chunk the watcher is awake or can wake |
| HttpBodyRelay.DisconnectEndsTheTasks | snulbug/http_routes.py:255-281 | the watcher ends by itself if and only if it was told of a disconnect, a forwarder told of one ends at once |
| HttpBodyRelay.EmptyRequestYieldsNothing | snulbug/http_routes.py:277-280 | a request without a body is forwarded without a chunk, any other with its first chunk first |
| HttpBodyRelay.RunsUntilCancelled | snulbug/http_routes.py:245-253 | some step is possible exactly until one task is done and the other cancelled |
| CacheSealer.SealedIsPrivate | snulbug/mcp_cache.py:22-47 | a cacheable complete result is sealed to zero lifetime and private scope, any other loses its hints, and all else is untouched |
| CacheSealer.SealingIsIdempotent | snulbug/mcp_cache.py:22-47 | sealing a sealed body changes nothing and says so |
| CacheSealer.PlainCodecIsFaithful | snulbug/mcp_cache.py:47-47 | codings with the round trip that sealing relies on exist |
| JsonValues.EncodedRoundTrip | snulbug/mcp_cache.py:25-26 | a coding of all JSON values as byte strings that loses nothing |
| CacheSealer.HintsChangedIsTrue | snulbug/mcp_cache.py:35-40 | the metadata reports a change if and only if the payload changes |
| CacheSealer.Exchange.CaptureReceive | snulbug/mcp_cache.py:66-76 | the request is kept up to the limit and dropped for good beyond it |
| CacheSealer.Exchange.RejectOversized | snulbug/mcp_cache.py:78-95 | the two messages of the 502, and an emptied buffer |
| CacheSealer.Exchange.CacheSafeSend | snulbug/mcp_cache.py:97-133 | one message changes the shared state as specified |
| CacheSealer.BuffersStayBounded | snulbug/mcp_cache.py:66-112 | in every run neither buffer exceeds the limit |
| CacheSealer.RejectionIsLast | snulbug/mcp_cache.py:78-100 | a rejection is the last thing sent |
| CacheSealer.NothingFollowsRejection | snulbug/mcp_cache.py:97-100 | once rejected a run stays so and sends nothing more, whatever follows |
| CacheSealer.StreamEqualsWhole | snulbug/mcp_cache.py:97-133 | for any chunking and any interleaving with the request, what is sent is a function of the start, the whole request and the whole body: one start and one sealed body, or one 502 |
| CacheSealer.SentHeaders | snulbug/mcp_cache.py:101-130 | the start sent announces the true length and carries no cache header but no-store |
| CacheSealerRules.StreamedAnswersAreSealed | snulbug/mcp_cache.py:97-133 | over every run that completes a JSON answer, the client reads it private for a complete answer to one of the six methods and unhinted otherwise, with all else untouched |
| CacheSealerRules.AnswersAreSealed | snulbug/mcp_cache.py:22-47 | the same for one body and request |
| CacheSealerRules.OthersAreNotSealed | snulbug/mcp_cache.py:24-34 | any other body is sent as it is |
| CacheSealerRules.RecordedOfAnswers | snulbug/mcp_cache.py:35-40 | what the metadata says of the hints and the method |
| CacheSealerRules.GuardedKeeps | snulbug/mcp_cache.py:101-104 | a start keeps, in order, exactly the headers that are not one of the seven, in any case, and ends with no-store |
| CacheSealerRules.LengthReplaced | snulbug/mcp_cache.py:128-129 | the sealed start keeps, in order, all but the old length, and ends with the true one |
| CacheSealerRules.BufferedIsJson | snulbug/mcp_cache.py:105-108 | a response is buffered if and only if its first content type is JSON, in any case and with any parameters |
| CacheSealerRules.OtherResponsesPass | snulbug/mcp_cache.py:97-133 | whatever is not JSON passes message by message, of any size, with only its headers guarded |
| CacheSealerRules.RejectionIs | snulbug/mcp_cache.py:78-95 | the rejection in full |
| SchemaSize.CheckWithin | snulbug/json_schema.py:33-55 | for any limits, accepts if and only if the unfolding has no more nodes and depth than allowed, string keys and finite JSON leaves; a rejection names a true reason; no more pops and stack entries than nodes allowed |
| SchemaSize.CheckSize | snulbug/json_schema.py:20-55 | the same with the limits of 10000 nodes and depth 64 |
| SchemaSize.ExpandKeepsLimits | snulbug/json_schema.py:52-55 | replacing a container by its children keeps the verdict on size and depth |
| SchemaSize.CyclesAreRejected | snulbug/json_schema.py:38-41 | a value that contains itself is within no depth |
| SchemaSizePaths.LimitsBoundPaths | snulbug/json_schema.py:33-55 | within the limits means that no path from the root is longer than the depth and that there are at most as many paths as nodes allowed |
| SchemaSizePaths.CleanIsJson | snulbug/json_schema.py:41-51 | clean means that every path ends at a JSON value: text, integer, truth value, null, finite number, list, or object with string keys |
| SchemaSizePaths.SchemaLimitsAre | snulbug/json_schema.py:20-55 | the limits are paths of 64 steps and 10000 of them |

## Left out

- TaskLeaseHistory.CallBudget: one clock reading per operation; the source reads the clock again when it records a use.
- LearnedPolicy.GetSecretIsNeverLearned: of the redaction only the last secret pattern, on names that are one run, is spelled out; the other patterns and the rewriting of JSON-looking strings are covered by the parameter alone.
- HttpRoutes.NormalizeRoutes: the upstream URL, the boolean fields and the contract fields enter as already checked values; `urlsplit` and httpx are not part of this model.
- CacheSealer.StreamEqualsWhole: JSON objects are maps, so the order of their keys is left to the coding parameter.
- CacheSealerRules.StreamedAnswersAreSealed: the endpoint and scope test before the sealer is not part of this model.
- PolicyAmendment.Amendment.AddBlockedEvent: ignored events are not listed, and tool names are lowered in ASCII only.
- LearnedPolicy.LearnedPolicy.Add: counters of clients, upstreams and reason codes, which only the report shows, are not kept.
- `save_status` of the compare-and-swap store, which checks the lease and then writes in two accesses and so is not fenced, and the status and control documents.
- The file-backed branch of the registry update, a plain read-modify-write for which serialisability does not hold.
- The internals of `snulbug/state.py` (SQLite, Redis): `get`, `incr` and `cas` are atomic here.
- Operating-system locks of the lease file: each lease operation is one atomic step.
- Member labels, hosts and process ids, which are one map of details, and the registry's summary counts.
- Missing or corrupt lease files, unparsable stored times, and duplicates in lists of permissions.
- The walk that collects path, URL and command strings from call arguments, `urlparse` and `shlex`: a call carries the collected strings.
- Forwarding headers (the filter of section 7.6.1 of RFC 9110 and the `x-forwarded` set) and the relay of the upstream response: single-pass filters.
- Compilation of JSON Schema and the `jsonschema` library.
- Denial lists cut to five and the most frequent reason in coverage reports, and all other report formatting.
- `bundle.py`, `controller.py`, `fabric.py` and `fabric_control.py`: their counters and small state machines would only add easy members.
