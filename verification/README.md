# GARM controller state, verified

GARM manages self-hosted runners. This project models the parts of its controller
that keep concurrent in-memory state, and proves what they promise.
`dafny verify dfyconfig.toml` covers the whole project.

| file | models | main results |
|---|---|---|
| `KeyLocker.dfy` | the per-key locker, one step per shared access, any number of goroutines | every interleaving accounts for each mutex exactly once; mutual exclusion for disciplined runs; both halves of the discipline are exact |
| `OwnerIndex.dfy`, `EntityCache.dfy` | the entity cache and its two-way index | every reachable state is sound with no assumption on IDs; with stable owners the index refines a plain scan |
| `CredentialCache.dfy` | the two credential caches laid over the entity cache, interleaved | reads are fresh in every interleaving without ID collisions, and collisions break exactly that |
| `EmbeddedCopies.dfy` | the copies of credentials embedded in entities, which some reads return as they are | exactly when overlapping updates leave a stale copy, per run and per state |
| `InstanceCache.dfy` | instance lookups through the entity cache | forward and backward lookups agree, with the exact exception |
| `CacheLocks.dfy` | the mutexes of the cache package | no deadlock in any interleaving, bounded completion |
| `EqualFold.dfy` | UTF-8 decoding and `ASCIIEqualFold` | both code paths decide one byte-wise relation, on all byte strings |
| `Supervisor.dfy` | loading, starting, failing, retrying and cleaning up pool managers | coverage, exclusivity and recovery over all runs and all failures |
| `PostgresDsn.dfy` | PostgreSQL configuration defaults, validation, quoting and DSN printing | exact round trip through the keyword/value parser |
| `DeleteBackoff.dfy`, `RateLimits.dfy`, `StatusTables.dfy`, `Labels.dfy` | deletion backoff, rate limit reserve, status tables with the token checks, label matching | closed form and monotone deadlines; the reserve is kept over whole runs; a refused token stays refused, forced updates included, and exactly the later attempts' tokens can be accepted; the length shortcut is harmless iff labels are distinct |

`Wrappers.dfy`, `Params.dfy` and `Collections.dfy` hold the shared option type, the
records and the sorting and map traversal that the caches use.

State that the source updates in place is a class whose methods are proved against a
value-level step function; the theorems range over runs of those steps. Protocols of
several goroutines are state machines over single shared accesses or critical
sections. Clocks, backoff decisions, the order of map iteration, and the answers of
the store and of the pool managers are parameters, so results hold for all of them.

Where the code does less than its documentation or a reader expects, the model follows
the code and a lemma gives the exact condition:

- `remove=true` and `Delete` are safe for mutual exclusion exactly when nobody holds the
  key or is on the way to its lock object, and `Unlock` exactly when the caller holds the
  key or the key has no entry (`KeyLocker.UnquietDropBreaksExclusion`,
  `KeyLocker.StrayUnlockBreaksExclusion`).
- The copies of credentials embedded in entities, which `GetEntityForPool` and
  `GetEntityForScaleSet` return, can stay stale after overlapping updates; they do not
  exactly when every refresh still owed would bring what is written
  (`EmbeddedCopies.WriteIsSafeIff`).
- `ForceUpdateInstance` bypasses the status tables, so a failed instance does return to
  service; what is permanent is the refusal of tokens of the attempts made so far
  (`StatusTables.RefusalIsPermanent`, `StatusTables.TokenCanBeAcceptedIff`).
- `UpdateCredentialsInAffectedEntities` compares numeric IDs only, so GitHub and Gitea
  credentials with equal IDs are confused (`CredentialCaches.RefreshKeepsAssignmentsIff`).
- `pgQuoteValue` does not quote on carriage return, vertical tab and form feed, and the
  millisecond timeouts overflow above 9223372036854775 seconds
  (`PostgresDsn.DsnRoundTrip`, `PostgresDsn.ServerTimeoutsArriveIff`).
- `failedEntities` is keyed by ID alone, so kinds that share an ID can lose an entity
  (`Supervisor.KindsAreCoveredIff`).
- The cap on the deletion backoff is not applied to the first failure
  (`DeleteBackoff.CappedProgressionIff`).
- The length shortcut of `Pool.HasRequiredLabels` rejects requests that repeat a label
  (`Labels.ShortcutIsHarmlessIff`).
- `GetEntityInstances` and `GetEntityForInstance` disagree on instances without a pool ID
  when a cached pool has the empty ID (`InstanceCaches.LookupsAgreeIff`).
- An exhausted quota can fail to count as reached exactly when the reserve is negative,
  that is, when limit times percentage wraps around to -100 or less
  (`RateLimits.ExhaustedImpliesReachedIff`, `RateLimits.WrappedReserveHidesExhaustion`).
- The comment above `sortByID` in `GetEntityScaleSets` says creation date; the code, and
  the model, sort by ID.

## Model

| member | source | states |
|---|---|---|
| `KeyLocker.EveryRunAccountsForEachMutex` | locking/local_locker.go:46-103 | In every interleaving of all operations by any number of goroutines, each mutex is locked exactly when one party accounts for it (acquired and not flagged, the flag, or a won swap not yet unlocked), never two; no unlock meets an unlocked mutex |
| `KeyLocker.StepKeepsAccounted` | locking/local_locker.go:46-103 | Every single statement keeps that account |
| `KeyLocker.ClaimantIsAlone` | locking/local_locker.go:51-54 | A goroutine between acquiring and flagging, or between swap and unlock, is the only one, and the flag is clear meanwhile |
| `KeyLocker.InitialIsSound` | locking/local_locker.go:30-36 | The new locker satisfies both invariants |
| `KeyLocker.StepKeepsExclusive` | locking/local_locker.go:46-103 | Every disciplined statement keeps: holders own their key's lock object, show their identifier, and every locked object has one owner; unlocking a key without an entry is disciplined for everybody |
| `KeyLocker.DisciplinedRunIsExclusive` | locking/local_locker.go:46-103 | When a key that has an entry is unlocked by its holder only and entries are dropped only when quiet, every run has at most one holder per key, whose identifier is on display |
| `KeyLocker.IdentNamesOwner` | locking/local_locker.go:53-115 | A non-empty identifier is that of the present holder or of the goroutine whose lock or unlock call is under way |
| `KeyLocker.LockObjectIsStable` | locking/local_locker.go:47-103 | Without a removal of the key, its lock object never changes in any run |
| `KeyLocker.WellCalledLockerIsExclusive` | locking/local_locker.go:46-116 | Said of the calls alone: in every run of a new locker without Delete and without remove, in which a key that has an entry is unlocked by its holder only, each key has at most one holder, whose identifier is on display, and keeps the lock object it first got |
| `KeyLocker.UnlockRemovesIff` | locking/local_locker.go:86-99 | By the time an Unlock of a key with an entry has returned, it executed the map deletion exactly if it was called with remove |
| `KeyLocker.DeleteRemoves` | locking/local_locker.go:101-103 | By the time a Delete has returned, it executed the map deletion |
| `KeyLocker.DropRemovesEntry` | locking/local_locker.go:101-103 | The map deletion removes that entry and no other, and no lock object changes |
| `KeyLocker.LockOutcome` | locking/local_locker.go:46-84 | When a lock call has returned, the caller holds the key under its identifier, except after a TryLock that found the mutex taken or a LockWithContext whose context was done |
| `KeyLocker.SomebodyComesToHold` | locking/local_locker.go:46-99 | Whoever is on the way to a lock object can be brought to hold the key, or somebody else already does, by statements alone |
| `KeyLocker.NewcomerHolds` | locking/local_locker.go:46-58 | With an unlocked or missing lock object a new TryLock succeeds and leaves other holds in place |
| `KeyLocker.UnquietDropBreaksExclusion` | locking/local_locker.go:86-103 | Dropping an entry that is not quiet always has a disciplined continuation with two holders, so the quiet condition is exact |
| `KeyLocker.StrayUnlockBreaksExclusion` | locking/local_locker.go:86-99 | Whoever starts to unlock a key that has an entry without holding it, whether somebody else or nobody holds it, has a disciplined continuation with two holders, so this half is exact too |
| `KeyLocker.HolderArrives` | locking/local_locker.go:46-99 | While the key has an entry, somebody can come to hold it without any step of a given idle goroutine |
| `KeyLocker.ParkedRun` | locking/local_locker.go:46-99 | What an otherwise idle goroutine is about to do makes no difference to the statements of the others |
| `OwnerIndex.StepKeepsSound` | cache/entity_cache.go:148-294 | With no assumption on IDs every operation keeps each item under its own ID, with its owner cached and listing it |
| `OwnerIndex.DropLeavesNothing` | cache/entity_cache.go:227-240 | Deleting an entity removes everything it owns |
| `OwnerIndex.StepKeepsTidy` | cache/entity_cache.go:166-294 | With stable owners, IDs are only ever listed under their owner |
| `OwnerIndex.ListedIsOwned` | cache/entity_cache.go:344-360 | In a sound and tidy index, what an entity lists and the cache holds is exactly what it owns |
| `OwnerIndex.StepRefinesScan` | cache/entity_cache.go:148-294 | Every operation has the effect it has on a plain map whose owners are found by scanning |
| `OwnerIndex.RunKeepsSound` | cache/entity_cache.go:148-294 | Soundness over any sequence of operations |
| `OwnerIndex.RunRefinesScan` | cache/entity_cache.go:148-294 | The refinement over any sequence of operations, with listed equal to owned at the end |
| `OwnerIndex.StepKeepsAccurateIff` | cache/entity_cache.go:148-294 | Any operation keeps the lists accurate exactly when no other entity lists an ID that the operation stores |
| `OwnerIndex.OverlayMeaning` | cache/entity_cache.go:180-192 | What a replacement stores: exactly the IDs that some given item of the entity has, each with the last such item |
| `Params.PoolOwnerIsFirstSet` | params/params.go:625-649 | A pool belongs to the first of its repository, organization, enterprise and forge instance that is set, and to nobody if none is |
| `Params.ScaleSetOwnerIsFirstSet` | params/params.go:821-840 | A scale set belongs to the first of its repository, organization and enterprise that is set, and to nobody if none is |
| `EntityCaches.StepOnPoolIndex` | cache/entity_cache.go:148-294 | Each cache operation acts on the pool index as the corresponding index operation |
| `EntityCaches.StepOnScaleSetIndex` | cache/entity_cache.go:148-294 | The same for the scale set index |
| `EntityCaches.StepKeepsValid` | cache/entity_cache.go:114-294 | Every operation keeps both indexes sound and every entity under its own ID |
| `EntityCaches.RunKeepsValid` | cache/entity_cache.go:114-294 | So does every sequence of operations |
| `EntityCaches.DeleteEntityLeavesNothing` | cache/entity_cache.go:227-240 | After DeleteEntity nothing owned by the entity is cached |
| `EntityCaches.ReadsAgreeWithScan` | cache/entity_cache.go:148-378 | If each ID always arrives with the same owner, after any operations, wrong-entity deletions included, the cache equals the scanned store and list reads visit exactly the owned items |
| `EntityCaches.ReplacedPoolsAreListed` | cache/entity_cache.go:166-196 | After ReplaceEntityPools on a cached entity its list reads return exactly its own pools among the given ones, the last one for each ID |
| `EntityCaches.ReplacedScaleSetsAreListed` | cache/entity_cache.go:198-225 | The same for scale sets |
| `EntityCaches.SetPoolsAreListed` | cache/entity_cache.go:242-256 | An accepted pool appears in the entity's reads, in place of one with its ID, and nothing else changes there |
| `EntityCaches.SetScaleSetsAreListed` | cache/entity_cache.go:258-272 | The same for scale sets |
| `EntityCaches.DeletedPoolsAreUnlisted` | cache/entity_cache.go:274-283 | A deleted pool, under whichever entity, disappears from every entity's reads, and nothing else does |
| `EntityCaches.DeletedScaleSetsAreUnlisted` | cache/entity_cache.go:285-294 | The same for scale sets |
| `EntityCaches.EntityCache.SetEntity` | cache/entity_cache.go:148-164 | The new state is the SetEntity step of the old one |
| `EntityCaches.EntityCache.ReplaceEntityPools` | cache/entity_cache.go:166-196 | The loops amount to the replacement step: old pools out, the entity's own new ones in, later ones winning |
| `EntityCaches.EntityCache.ReplaceEntityScaleSets` | cache/entity_cache.go:198-225 | The same for scale sets |
| `EntityCaches.EntityCache.DeleteEntity` | cache/entity_cache.go:227-240 | The loops amount to the deletion step |
| `EntityCaches.EntityCache.SetEntityPool` | cache/entity_cache.go:242-256 | Ignored unless the pool belongs to the entity and the entity is cached |
| `EntityCaches.EntityCache.SetEntityScaleSet` | cache/entity_cache.go:258-272 | The same for scale sets |
| `EntityCaches.EntityCache.DeleteEntityPool` | cache/entity_cache.go:274-283 | Removes the pool globally, and from the list of the given entity only |
| `EntityCaches.EntityCache.DeleteEntityScaleSet` | cache/entity_cache.go:285-294 | The same for scale sets |
| `EntityCaches.EntityCache.UpdateCredentialsInAffectedEntities` | cache/entity_cache.go:114-124 | Replaces the embedded credentials of exactly the entities with that credential ID |
| `EntityCaches.EntityCache.GetEntityForPool` | cache/entity_cache.go:73-90 | Succeeds exactly for cached pools and returns the owner |
| `EntityCaches.EntityCache.GetEntityForScaleSet` | cache/entity_cache.go:54-71 | Succeeds exactly for cached scale sets and returns the owner |
| `EntityCaches.EntityCache.GetEntityPool` | cache/entity_cache.go:296-308 | Succeeds for exactly the pools the list read of that entity returns |
| `EntityCaches.EntityCache.GetEntityScaleSet` | cache/entity_cache.go:310-322 | The same for scale sets |
| `EntityCaches.EntityCache.GetEntityPools` | cache/entity_cache.go:344-360 | A permutation of the listed cached pools, sorted by creation date |
| `EntityCaches.EntityCache.FindPoolsMatchingAllTags` | cache/entity_cache.go:324-342 | A sorted permutation of exactly those listed pools that match the tags |
| `EntityCaches.EntityCache.GetEntityScaleSets` | cache/entity_cache.go:362-378 | A permutation of the listed cached scale sets, sorted by ID |
| `Collections.SortBy` | cache/util.go:22-32 | A sorted permutation |
| `Collections.Collect` | cache/keyed_cache.go:66-81 | Ranging over keys in any order yields each passing value exactly once |
| `CredentialCaches.UpdateUsingEndpoint` | cache/credentials_cache.go:43-53 | In any iteration order, exactly the credentials of that endpoint are changed, and exactly those are handed on for refresh |
| `CredentialCaches.EntityStepsAreFaithful` | cache/entity_cache.go:114-294 | Seen through its entities, every entity cache operation is the entity step of the interleaved system or none |
| `CredentialCaches.StepKeepsConsistent` | cache/credentials_cache.go:34-69 | Every step of every goroutine keeps caches, embedded copies and pending work on the forge that owns the ID |
| `CredentialCaches.EmptyIsConsistent` | cache/credentials_cache.go:30-32 | Empty caches satisfy the invariant |
| `CredentialCaches.ReadsAreFresh` | cache/entity_cache.go:126-146 | In every interleaving without ID collisions, every entity a read returns, alone or in a list, carries the credential cache's copy of the moment it was resolved, for the forge and ID last given to SetEntity when it was read, even when the embedded copy is stale |
| `CredentialCaches.ReadReturnsAll` | cache/entity_cache.go:413-426 | Whatever happens meanwhile, a finished read returns each entity asked for, in order, as it was when the read began, with fresh credentials |
| `CredentialCaches.NewCredentialsAreSeenAtOnce` | cache/credentials_cache.go:61-69 | Reads see new credentials before any embedded copy is refreshed, and no other entity is affected |
| `CredentialCaches.RateLimitIsSeenAtOnce` | cache/credentials_cache.go:34-41 | A recorded rate limit reaches exactly the entities assigned to those cached GitHub credentials, with nothing else changed |
| `CredentialCaches.EndpointIsSeenAtOnce` | cache/credentials_cache.go:43-59 | A changed endpoint reaches exactly the entities whose cached Gitea credentials use it |
| `CredentialCaches.EntityStepsAreCacheSteps` | cache/entity_cache.go:114-164 | The entity steps of the interleaved system are those of the entity cache |
| `CredentialCaches.AssignmentsAreRecorded` | cache/entity_cache.go:148-164 | SetEntity records the entity and its forge and credential ID, DeleteEntity forgets both, and no other step reassigns anything |
| `CredentialCaches.DeletedCredentialsAreGone` | cache/credentials_cache.go:85-111 | Deleted credentials are no longer found, and all others still are |
| `EmbeddedCopies.StepOnCopy` | cache/entity_cache.go:114-124 | One step changes an entity's embedded copy exactly by a refresh of its credential ID |
| `EmbeddedCopies.StepOnCache` | cache/credentials_cache.go:34-69 | One step changes the cached copy, up to the rate limit, exactly by a write of that forge and ID |
| `EmbeddedCopies.CopiesAfterRun` | cache/credentials_cache.go:43-69 | After any run the embedded copy is the one refreshed last and the cached copy the one written last |
| `EmbeddedCopies.WriteIsCopied` | cache/credentials_cache.go:43-69 | When no refresh is owed at the end, every write was followed by a refresh of its ID |
| `EmbeddedCopies.EmbeddedIsCurrentIff` | cache/credentials_cache.go:43-69 | Over every collision-free run at whose end no refresh of the ID is owed, an entity that kept its assignment embeds the cached copy, up to the rate limit, if and only if the refresh made last carried the credentials written last |
| `EmbeddedCopies.OrderlyStepKeepsOnTrack` | cache/credentials_cache.go:43-69 | Every orderly step of every goroutine keeps: all refreshes owed end with the cached copy, and where none is owed the copies are current |
| `EmbeddedCopies.OrderlyRunsKeepCopiesCurrent` | cache/entity_cache.go:54-90 | If no update of the credentials starts while a refresh that would bring others is owed, then whenever none is owed every entity assigned to them embeds the cached copy, which is what the pool and scale set lookups return |
| `EmbeddedCopies.OwedRefreshCanWin` | cache/credentials_cache.go:54-58 | Whatever one goroutine owes last can be scheduled to be the last refresh made |
| `EmbeddedCopies.EndsCurrentIff` | cache/credentials_cache.go:54-58 | For cached credentials, every schedule of the refreshes owed ends with current copies exactly in the states on track |
| `EmbeddedCopies.WriteIsSafeIff` | cache/credentials_cache.go:61-69 | A write is safe under every schedule exactly when every refresh then owed would bring the same credentials |
| `EmbeddedCopies.EmbeddedCopyCanStayStale` | cache/credentials_cache.go:61-69 | From every quiet state the first of two overlapping different updates is safe and the second never is |
| `CredentialCaches.RefreshKeepsAssignmentsIff` | cache/entity_cache.go:114-124 | A refresh keeps every assignment exactly when no entity uses that ID with the other forge |
| `CredentialCaches.CollisionMisleadsReads` | cache/entity_cache.go:119-146 | With a collision, reads return credentials of the wrong forge |
| `InstanceCaches.InstanceCache.SetInstance` | cache/instance_cache.go:22-24 | Stored under the instance's name |
| `InstanceCaches.InstanceCache.DeleteInstance` | cache/instance_cache.go:30-32 | Removes that name only |
| `InstanceCaches.InstanceCache.ListInstances` | cache/instance_cache.go:34-38 | A sorted permutation of exactly the instances that pass the filter |
| `InstanceCaches.InstanceCache.GetInstancesForPool` | cache/instance_cache.go:40-46 | A sorted permutation of exactly the pool's instances |
| `InstanceCaches.InstanceCache.GetEntityInstances` | cache/instance_cache.go:56-70 | A sorted permutation of exactly the instances in pools the entity lists |
| `InstanceCaches.LookupsAgreeIff` | cache/instance_cache.go:56-106 | For a pool instance both directions agree, except exactly when it has no pool ID and the entity owns a cached pool with the empty ID |
| `InstanceCaches.ScaleSetInstanceFindsOwner` | cache/instance_cache.go:72-106 | A scale set instance leads to the owner of its scale set exactly when that is cached |
| `InstanceCaches.FoundEntityIsResolved` | cache/instance_cache.go:100-105 | The entity found for an instance is the cached one with the credential cache's copy of its credentials, if there is one |
| `InstanceCaches.LookupsAgreeInEveryRun` | cache/instance_cache.go:56-106 | With stable owners and non-empty pool IDs they agree after any cache operations |
| `CacheLocks.BodyHoldsOneAtATime` | cache/credentials_cache.go:43-69 | Every operation of the cache package, SetEndpoint and lookups that stop at a miss included, holds at most one cache mutex at any point |
| `CacheLocks.EntityMutexTaken` | cache/endpoint_cache.go:22-25 | Updates take the entity mutex once per copy to be refreshed, after one critical section on each cache they write |
| `CacheLocks.EmptyIsSound` | cache/keyed_cache.go:32-37 | The state without goroutines satisfies the invariant |
| `CacheLocks.StepKeepsSound` | cache/keyed_cache.go:39-103 | Every step keeps: a goroutine holds nothing, or exactly the mutex it releases next |
| `CacheLocks.NoDeadlock` | cache/keyed_cache.go:39-103 | In every reachable state with unfinished operations some goroutine can step |
| `CacheLocks.RunsComplete` | cache/keyed_cache.go:39-103 | Each step uses up one unit of the remaining work, so started operations finish |
| `CacheLocks.NestingDeadlocks` | cache/entity_cache.go:137-146 | Nesting two cache locks in opposite orders reaches a deadlock, as the comment warns |
| `Utf8.DecodeEncode` | util/util.go:92-93 | Decoding an encoded rune, with anything after it, gives the rune and its width |
| `Utf8.EncodeDecode` | util/util.go:92-93 | Every successful decoding consumed exactly the encoding of a scalar value |
| `Utf8.DecodesIff` | util/util.go:92-106 | Decoding succeeds exactly where the encoding of a scalar value begins; elsewhere it yields the replacement rune for one byte |
| `Utf8.EncodeAllInjective` | util/util.go:92-93 | Texts are equal only for equal code points |
| `EqualFold.LoweringCommutesWithDecode` | util/util.go:92-119 | Lowering A to Z keeps widths and runes of the decoder, invalid bytes included |
| `EqualFold.RoundIsSound` | util/util.go:92-122 | One round of the decoding loop answers the question or reduces it to the rests |
| `EqualFold.IsASCII` | util/util.go:127-134 | True exactly when all bytes are below 0x80 |
| `EqualFold.EqualFoldBytes` | util/util.go:72-86 | The fast path decides equality after lowering A to Z byte by byte |
| `EqualFold.EqualFoldRunes` | util/util.go:90-124 | The decoding path decides the same relation on all byte strings |
| `EqualFold.ASCIIEqualFold` | util/util.go:69-125 | The result is that relation, hence reflexive, symmetric and transitive |
| `EqualFold.LoweredEncoding` | util/util.go:108-119 | Lowering bytes of a UTF-8 text is lowering its code points |
| `EqualFold.EqualFoldOnText` | util/util.go:69-125 | On UTF-8 text the relation is equality of code points up to the case of A to Z |
| `Supervisor.EveryListedEntityIsCovered` | runner/runner.go:458-762 | After any number of rounds with arbitrary failures, every listed entity has a registered started manager, or is in failedEntities, or was reported as not found |
| `Supervisor.LoadedKindsAreCovered` | runner/runner.go:458-762 | Said of what the calls answered: over every run a kind counts as loaded only if one of its listings succeeded, and then every ID that listing returned has a started manager, or is in failedEntities, or was answered not found by the store |
| `Supervisor.EveryRunIsWitnessed` | runner/runner.go:458-762 | Over every run, loaded kinds, listed entities, missing entities and running managers each go back to a call that was made and answered so |
| `Supervisor.AtMostOneManagerRuns` | runner/runner.go:533-762 | In every run each entity has at most one started and unstopped manager, the registered one, and none while it awaits a retry |
| `Supervisor.EveryRunIsGood` | runner/runner.go:458-762 | The invariant behind both, over every run |
| `Supervisor.CreateAndStartKeepsGood` | runner/runner.go:533-553 | Creating for an unregistered listed entity keeps the invariant and covers the entity, whichever call fails |
| `Supervisor.CreateAndStartTouches` | runner/forge_instances.go:429-449 | Nothing changes for any other manager or ID, nor for the listings |
| `Supervisor.RetryKeepsGood` | runner/runner.go:681-762 | A retry keeps the invariant whatever its calls answer |
| `Supervisor.CreateAllKeepsGood` | runner/runner.go:608-622 | Working through a listing covers every entity in it; a repeated listing needs no assumption on duplicates |
| `Supervisor.LoadKindKeepsGood` | runner/runner.go:462-470 | Loading a kind keeps the invariant; only a first listing needs distinct IDs |
| `Supervisor.LoadKindOutcome` | runner/runner.go:607-622 | A kind becomes loaded exactly when its listing succeeds, which records every listed entity; a failed listing changes nothing but the call count |
| `Supervisor.LoadKindsKeepsGood` | runner/runner.go:458-501 | Loading all kinds, at first or again, keeps the invariant |
| `Supervisor.RetryShrinksIff` | runner/runner.go:681-762 | A retry takes exactly its entity off the list, exactly when all its calls succeed or the store lost the entity |
| `Supervisor.OnlyDueIsRetried` | runner/runner.go:673-678 | An entity that is not due, or no longer failed, is left alone |
| `Supervisor.DeleteOutcome` | runner/runner.go:138-150 | Deleting succeeds without a manager or when it stops, and then none is registered; otherwise nothing changes |
| `Supervisor.FailedStartIsCleanedUp` | runner/runner.go:542-550 | A manager that does not start never counts as running, stays registered only if it does not stop either, and its entity awaits a retry |
| `Supervisor.OneHealthyRoundRecovers` | runner/runner.go:599-679 | After any history, one round in which all calls succeed ends with all four kinds loaded, nothing to retry, and for every kind exactly one running manager for each ID that a listing returned and the store did not report as missing |
| `Supervisor.FirstListingIsSafeIff` | runner/runner.go:462-470 | A first listing never starts two managers, whatever the calls answer, exactly when it names no ID twice |
| `Supervisor.RepeatedListingIsSafe` | runner/runner.go:608-622 | The skip makes a repeated listing safe even with duplicates |
| `Supervisor.KindsAreCoveredIff` | runner/runner.go:533-575 | Loading two kinds covers every entity for all answers exactly when they share no ID |
| `Supervisor.NewRunner` | runner/runner.go:65-99 | Fails, before anything is listed, exactly when the controller info or the providers cannot be loaded; otherwise the new runner is the run without rounds |
| `Supervisor.Runner.constructor` | runner/runner.go:76-98 | The runner starts from empty maps and loads all kinds |
| `Supervisor.Runner.Start` | runner/runner.go:503-512 | Turns the retry loop on and changes nothing else |
| `Supervisor.Runner.DeletePoolManager` | runner/runner.go:138-150 | No-op without a manager; a failing Stop leaves it registered |
| `Supervisor.Runner.CreateAndStartPoolManager` | runner/runner.go:533-553 | The new state is the create-and-start step, one branch per failing call |
| `Supervisor.Runner.RetryFailedEntity` | runner/runner.go:681-762 | The new state is the retry step |
| `Supervisor.Runner.LoadReposOrgsAndEnterprises` | runner/runner.go:458-501 | The loops amount to loading the four kinds in order |
| `Supervisor.Runner.RetryListings` | runner/runner.go:607-671 | Lists again exactly the kinds not loaded yet |
| `Supervisor.Runner.RetryEntities` | runner/runner.go:673-678 | Visits every failed entity, in some order |
| `Supervisor.Runner.RetryIfDue` | runner/runner.go:673-678 | One visit retries the entity exactly when it is still listed as failed and due |
| `Supervisor.Runner.RetryFailedPoolManagers` | runner/runner.go:599-679 | One round for a running runner, nothing otherwise |
| `Decimal.ReadFormat` | config/config.go:565-580 | What is printed for a number reads back as that number |
| `Decimal.ThousandFoldReadsBack` | config/config.go:575-580 | Seconds times 1000 survive 64-bit arithmetic exactly up to 9223372036854775 |
| `ConnInfo.TwoPassesEscapeOnce` | config/config.go:587-594 | The two replacement passes escape each quote and backslash exactly once |
| `ConnInfo.ParseRender` | config/config.go:561-594 | The keyword/value parser returns a rendered list exactly when each value is free of carriage return, vertical tab and form feed, or contains a space, tab, newline, backslash or quote |
| `PostgresDsn.CheckTimeouts` | config/config.go:537-549 | The loop reports the first timeout below -1 |
| `PostgresDsn.ValidateAccepts` | config/config.go:489-550 | Validation passes exactly for acceptable configurations, said without the order of checks |
| `PostgresDsn.ValidateIsIdempotent` | config/config.go:489-550 | Validating again changes neither configuration nor verdict |
| `PostgresDsn.ErrorIsFirstFailing` | config/config.go:489-550 | When several checks fail, the error of the first one in the order of the source is reported |
| `PostgresDsn.DefaultsAreFilled` | config/config.go:502-536 | An accepted configuration gets the default of every field that was zero and keeps every other field |
| `PostgresDsn.DsnRoundTrip` | config/config.go:561-594 | For every validated configuration the string parses back to exactly the settings in order, if and only if each of host, user, password and database name is free of carriage return, vertical tab and form feed, or contains a space, tab, newline, backslash or quote |
| `PostgresDsn.ConsumerConnectsAsIntended` | config/config.go:561-582 | The settings yield the configured fields, with a timeout present exactly when it is not -1, and the two server-side ones for runtime connections only |
| `PostgresDsn.ServerTimeoutsArriveIff` | config/config.go:575-580 | The server-side timeouts arrive as configured exactly when their milliseconds fit 64 bits |
| `PostgresDsn.MigrationDsnIsPrefix` | config/config.go:571-581 | The migration string is the runtime string minus exactly the two trailing server-side timeouts |
| `PostgresDsn.PrintIdentity` | config/config.go:565-568 | The first print call renders the six identity settings |
| `PostgresDsn.AppendTimeout` | config/config.go:569-580 | Appends the timeout setting exactly when it is enabled |
| `PostgresDsn.BuildDsn` | config/config.go:565-581 | Growing the string step by step renders the whole list of settings |
| `PostgresDsn.PostgreSQL.FillLimits` | config/config.go:516-536 | Zero-valued limits and timeouts take their defaults |
| `PostgresDsn.PostgreSQL.Validate` | config/config.go:489-550 | Defaults are filled in up to the first failing check, which is reported |
| `PostgresDsn.PostgreSQL.ConnectionString` | config/config.go:561-582 | Fails exactly as Validate does, otherwise returns the rendered settings of the validated configuration |
| `DeleteBackoff.InstanceDeleteBackoff.ShouldProcess` | locking/local_backoff_locker.go:39-56 | Answers from the key's deadline and at most adds an entry that never failed |
| `DeleteBackoff.InstanceDeleteBackoff.RecordFailure` | locking/local_backoff_locker.go:62-77 | Starts at the base interval, then grows by half up to the cap |
| `DeleteBackoff.InstanceDeleteBackoff.Delete` | locking/local_backoff_locker.go:58-60 | Forgets the key |
| `DeleteBackoff.ClosedForm` | locking/local_backoff_locker.go:62-77 | After any history the backoff is a closed form of the failures since the last Delete alone |
| `DeleteBackoff.AnswerAfterHistory` | locking/local_backoff_locker.go:39-56 | After any history a key without failures is due; otherwise the deadline is the time of its last failure plus the closed-form backoff in whole seconds, and it is due exactly after that |
| `DeleteBackoff.CappedProgressionIff` | locking/local_backoff_locker.go:69-76 | That form is min(1200, base * 1.5^(n-1)) for all n >= 1 exactly when base is at most 1200 |
| `DeleteBackoff.BackoffIsMonotone` | locking/local_backoff_locker.go:69-76 | Another failure never shortens the backoff, which stays within the cap |
| `DeleteBackoff.GeometricOutrunsLinear` | locking/local_backoff_locker.go:72-73 | The progression grows at least linearly |
| `DeleteBackoff.BackoffReachesCap` | locking/local_backoff_locker.go:72-75 | Every base reaches the cap after finitely many failures, with an explicit bound |
| `DeleteBackoff.FiveSecondsCapAtFifteen` | runner/common/pool.go:26-26 | With five seconds the cap is reached at the fifteenth failure and not before |
| `DeleteBackoff.DeadlinesMoveForward` | locking/local_backoff_locker.go:39-77 | Between any two moments of a history whose clock never goes back, a key's deadline never moves back unless the key is deleted in between, and stays within 1200 seconds of its last failure |
| `DeleteBackoff.AskingChangesNothing` | locking/local_backoff_locker.go:39-56 | Removing all ShouldProcess calls from a history changes no later answer for any key |
| `RateLimits.ReserveIsAtMostHalf` | params/params.go:1329-1334 | With a validated percentage the reserve is at most half of the limit even under wrap-around, and not negative while limit times 50 fits 64 bits |
| `RateLimits.ReserveIsShare` | params/params.go:1329-1334 | The reserve of an ordinary limit is limit times percentage over 100, rounded down |
| `RateLimits.VerdictsMean` | params/params.go:1345-1370 | Both verdicts in terms of the recorded limit, its reset in seconds against the clock, and what remains against zero or the reserve |
| `RateLimits.ExhaustedImpliesReachedIff` | params/params.go:1329-1370 | While the limit is live, exhausted implies reached for whatever remains exactly when the reserve is not negative, and it is negative exactly when it is enabled and limit times percentage wraps around to -100 or less |
| `RateLimits.WrappedReserveHidesExhaustion` | params/params.go:1333-1359 | At the least limit whose half wraps around, an exhausted quota does not count as reached |
| `RateLimits.ReserveIsKept` | params/params.go:1345-1370 | Over every run of guarded calls before the reset, the quota is never overdrawn, remaining plus critical calls stays at or above the reserve, and exhaustion means the whole reserve went to critical calls |
| `RateLimits.KeptAbove` | params/params.go:1345-1370 | The inductive form, counting critical calls made so far |
| `RateLimits.EntityVerdictIsFresh` | cache/credentials_cache.go:142-172 | Both verdicts on an entity are those on the present copy of the credentials it was assigned |
| `StatusTables.TeardownIsOneWay` | params/params.go:225-276 | In every run of the table avoiding unknown, once in error or a deletion status an instance is never in service again |
| `StatusTables.UnknownReopensService` | params/params.go:225-276 | Through unknown the table lets it return |
| `StatusTables.DeletedIsFinal` | params/params.go:225-276 | Deleted is final in every run of the table |
| `StatusTables.DeletedComesFromDeleting` | params/params.go:225-276 | In runs of the table avoiding unknown, deleted is reached only straight from deleting |
| `StatusTables.InstancePredecessors` | params/params.go:225-276 | From which other statuses each instance status can be entered |
| `StatusTables.DeletionIsAllowed` | params/params.go:225-276 | From every status the table allows deletion, from all but unknown by way of deleting |
| `StatusTables.RunnerPredecessors` | params/params.go:278-325 | From which other statuses each runner status can be entered |
| `StatusTables.RunnerChecksArePrefixClosed` | params/params.go:278-325 | In every run of the runner table, once the runner-status check of either middleware refuses, it refuses in every later state |
| `StatusTables.AcceptedStatuses` | auth/instance_middleware.go:232-267 | Exactly which pairs of runner and instance status each middleware accepts a fitting token in |
| `StatusTables.LifeIsAllowed` | auth/agent_middleware.go:150-186 | The tables allow the life of an instance that comes up, runs a job and is removed; its bootstrap token is accepted exactly while it is created and installs, its agent token exactly while it runs without a job |
| `StatusTables.AttemptsNeverReopen` | database/sql/instances.go:404-431 | Over every run of ordinary and forced updates create attempts only grow, and within one attempt a refusing runner-status check, and teardown while unknown is avoided, are permanent |
| `StatusTables.RefusalIsPermanent` | auth/instance_middleware.go:215-267 | Over every run, forced updates and retries included, a token of this or an earlier attempt is never accepted again once its runner-status check refused, the instance was being torn down (while unknown is avoided), or a later attempt began |
| `StatusTables.RetriesCanSucceed` | runner/pool/pool.go:1554-1616 | A failed instance can be retried up to any attempt within the limit and then run |
| `StatusTables.TokenCanBeAcceptedIff` | auth/agent_middleware.go:126-186 | From an instance being torn down, avoiding unknown, a token can be accepted in some run exactly when it is of a later attempt within the limit |
| `StatusTables.UnknownReadmitsToken` | params/params.go:225-276 | Through unknown, the same token can be accepted again after any teardown its runner status survived |
| `Labels.PoolHasRequiredLabels` | params/params.go:676-691 | The loops decide length and coverage up to letter case |
| `Labels.ShortcutIsHarmlessIff` | params/params.go:676-680 | The verdict is plain coverage for every pool exactly when the request has no case-insensitive duplicates |
| `Labels.GitHubLabels` | params/params.go:772-783 | The names are the de-duplication of the scale set name followed by the tags; only the first label is of type System |
| `Labels.DedupMeaning` | params/requests.go:756-767 | De-duplication keeps exactly the elements, each once, in order of first occurrence |
| `Labels.ScaleSetHasRequiredLabels` | params/params.go:788-803 | True exactly for a non-empty request covered, up to letter case, by the names GitHubLabels registers |

## Left out

- HTTP controllers, routers, the generated client, the command line and the web application: request plumbing without state of its own.
- The SQL store, providers, forge clients and the inside of pool managers: each call is an arbitrary success or failure.
- StatusTables.RefusalIsPermanent: an instance removed and created anew under the same name is a different instance; the scale set worker's startup recovery, which forces an instance it listed as creating to running, is taken to act on the status it listed.
- Token parsing, signing and hashing: only the accept decision after a parsed token is modelled.
- Supervisor.AtMostOneManagerRuns: API-driven creation and deletion of entities does not take the runner's mutex and is not part of the runs; neither are Runner.Stop and Runner.Wait.
- Supervisor.Runner.CreateAndStartPoolManager: the four near-identical functions for the four kinds are one method with the kind as a parameter; the backoff's bookkeeping is replaced by an arbitrary decision whether a retry is due.
- KeyLocker.IdentNamesOwner: LockedBy reads the identifier twice and the code gives no atomicity between the two reads; both reads are steps, and nothing is claimed about the returned pair. Weak memory effects of the unsynchronised identifier field are not modelled.
- DeleteBackoff.DeadlinesMoveForward: each call is one step; a Delete between looking up an entry and locking it, and float64 rounding, are not modelled.
- Utf8.DecodeEncode: bytes are modelled as Go's decoder treats them; Go's string slicing is sequence slicing.
- Labels.ShortcutIsHarmlessIff: strings.ToLower is an arbitrary function, so nothing depends on Unicode case folding.
- PostgresDsn.DsnRoundTrip: the parser follows the keyword/value format as documented for PostgreSQL 16, section 34.1.1.1, on characters; it is not pgx's own code.
- Runner groups with their expiry, GetAllPools, GetAllScaleSets, GetAllCredentials, GetEntitiesUsingEndpoint and GetEntitiesUsingCredentials: further filtered, sorted reads of the same maps.
- The generic keyed cache as a class of its own: its operations appear through the credential and instance caches.
- GetEntity and GetAllEntities as methods of the cache class: they are the two-part reads of the interleaved system, where a single method could not show what happens between the parts.
- The contents of the tools, template, proxy and controller caches: single maps under a mutex of their own, without any index to keep consistent; their locking is covered.
- The agent utilities, websocket connections, metrics and the other parameter checks: connection I/O, reporting, and guards over single values, with no state shared between calls.
