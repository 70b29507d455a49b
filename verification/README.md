# Verification of Helm Locker and the Helm Project Operator

A Dafny model of the stateful parts of prometheus-federator's two embedded operators, with proofs of
what they keep over whole runs. `dafny verify dfyconfig.toml` checks everything.

**Helm Locker** keeps the resources of Helm releases as their manifests say. Its register holds the
wanted object set of every release and a two-level lock index from cluster resources back to releases.

- `LockIndex` says what the index means and that every run keeps it the inverse of a simple map.
- `ObjectSetRegister` is the register with its maps updated in place, its event log (`EventLog`), and the
  handler around it; calls do not overlap there.
- `LockProtocol` is the same register as a system of threads whose atomic steps are the critical
  sections. `LockRuns` carries the meaning of the index to every interleaving, `LockSafety` proves what else
  is kept, `LockLeak` that the condition it needs on stores is exact, `LockCalls` what the calls come to by
  their arguments, `LockWakes` when an apply wakes its own key, `StateRaces` and `LostSets` what becomes of
  states and events when calls race.
- `LockProgress` proves that the mutexes do not deadlock, `EventChannel` when the bounded channel does.
- `GvkWatcher` starts one watcher per kind. `HelmReleases` turns the states of Helm releases into register
  operations, `ReleaseHistory` follows one release over time, and `ManagedBy` has several controllers share
  HelmRelease objects.

**The Helm Project Operator** deploys one Helm release per ProjectHelmChart.

- `ProjectReconcile` is the reconcile of one chart; `ReleaseClaims` proves, over whole runs with failing
  applies and status updates, who owns a release.
- `Values` is the layering of values, `Rbac` the aggregation of role bindings.
- `Namespaces` is the start-up of the namespace controller and the choice of target namespaces.

`Prelude` has shared types and the lookup of an informer index.

## How the model is built

Code that updates objects in place is a class or a method with loops. Each is proved against a function
that gives the new value, and the lemmas are about these functions. A loop over a Go map takes its keys
in arbitrary order. Answers of the Kubernetes API, of Helm and of the controller factory are parameters:
a proof holds for all of them. Errors are results, not preconditions.

Runs are sequences of steps chosen freely, so that what is proved of a run is proved of every schedule.
In LockProtocol a thread is a program counter. stateMapLock and keyMapLock each guard a single step;
mutateMu is held across steps, by the threads whose program counters say so. The work queue's promise
that a key has one handler at a time is the hypothesis `OneHandler`.

## Where the code does less than its words

- `cmd/helm-locker/README.md:36` promises no operation on the resources of a release that is not
  deployed. Unlock removes the index entries but leaves `Locked` set in the state, so an event still
  pending locks the release again: `HelmReleases.PendingEventLocksAgain` has the exact condition.
- `OnHelmReleaseRemove` takes an uninstalled release to be untracked, but its state is still in the register:
  `HelmReleases.RemovedReleaseOwnsIff` and `ReleaseHistory.RemovalLeavesTrackedIff` say exactly when this
  matters. A release that was not found leaves nothing.
- `Lock` discards the error of `lock` (`internal/helm-locker/objectset/cache.go:184`), so a release whose
  objects another release holds is left without any lock.
- `setState` reads under one lock and writes under another. A store between the steps of a Lock or a
  Delete of its key can leave a deleted key with index entries: `LockLeak.OrphansIffSpoilt` says exactly
  which stores do. An Enqueue can undo a Set that came between its two halves, or bring a deleted key back,
  and repeats its generation: `LostSets.LastSetIsKeptIff`, `StateRaces.LogIsLegalIffStoresAreFresh`.
- `deleteState` drops the state from the map before it sends the Deleted event. A Set in between is forgotten
  by the informer, although the register holds it: `StateRaces.InformerAgreesIff`.
- The comment at `internal/helm-locker/objectset/handler.go:62` says that the Unlock keeps an apply from
  triggering locking again. This holds for changes that are resolved before the deferred Lock
  (`LockSafety.NothingResolvesInWindow`). A change that the watcher delivers after it does wake the key:
  `LockWakes.ApplyWakesIffDeliveredLate` is the exact condition.
- setState sends on a channel of capacity 50 while it holds stateMapLock, which the informer needs to list
  before it receives. More than 50 storing calls before that can block for ever:
  `EventChannel.CanDeadlockIff`.
- A kind whose controller fails to start gets a second enqueueing handler when it is retried:
  `GvkWatcher.HooksCountStarts` counts the handlers over every run.
- Ownership of a release is only as good as the stored status. Objects that land without the status
  being written, or a stale cache, can lead to two owners: `ReleaseClaims.UniqueForEverIffSafe` and
  `ReleaseClaims.StaleViewsShare`.
- The comment at `internal/helm-project-operator/controllers/project/merge.go:4-5` counts GenericMap among
  the recognised maps; the test at line 41 asserts another type, so a nested GenericMap is replaced:
  `Values.MeansTheSameIffAgrees` says exactly when this matters. The two sources of values do not produce
  one: spec.values comes from JSON, whose nested maps are plain, and the override file is read with YAML v2
  (`internal/helm-project-operator/controllers/common/runtime.go:165-188`), whose nested maps have interface
  keys.
- The comment at `internal/helm-project-operator/controllers/project/values.go:25` says that the required
  values are set even if the user tries to override them. The namespace selector is a map and is merged:
  `Values.SelectorStandsIffAbsorbed`.
- Two default roles with one ClusterRole share its subjects by chance of map iteration:
  `Rbac.CollectsAllIffUnshared`.
- A project whose registration namespace name has more than 63 characters is expected at start-up but
  never created: `Namespaces.TooLongNeverCompares`.

## Model

| member | source | states |
|---|---|---|
| `LockIndex.LockIsExact` | internal/helm-locker/objectset/cache.go:297-327 | `lock` refused by a conflict changes nothing; otherwise the key owns precisely the groups that were written, stale entries gone; every other key owns what it owned before |
| `LockIndex.UnlockIsExact` | internal/helm-locker/objectset/cache.go:330-335 | after `unlock` the key owns nothing and every other key what it owned before |
| `LockIndex.OwnedIsResolved` | internal/helm-locker/objectset/cache.go:208-225 | a resource is owned by a key exactly when `Resolve` answers with that key, so ownership is exclusive |
| `LockIndex.UnlockKeepsConflict` | internal/helm-locker/objectset/cache.go:301-305 | dropping a key's own entries neither causes nor removes a conflict for it |
| `LockIndex.ConflictIsOverlap` | internal/helm-locker/objectset/cache.go:339-356 | `canLock` refuses exactly when another key holds a resource of the object set |
| `LockIndex.ApplyKeepsInverse` | internal/helm-locker/objectset/cache.go:297-373 | every critical section keeps the index the exact inverse of the map from keys to the resources they hold |
| `LockIndex.ApplyKeepsInnerNonEmpty` | internal/helm-locker/objectset/cache.go:366-371 | no step leaves an empty inner map, given that the groups of an object set are not empty |
| `LockIndex.RunIsInverse` | internal/helm-locker/objectset/cache.go:297-373 | over every run of lock and unlock operations: the two-level index stays the inverse of the forward map |
| `LockIndex.RunKeepsInnerNonEmpty` | internal/helm-locker/objectset/cache.go:360-373 | over every run: no inner map is empty, given that the groups of the object sets are not |
| `LockIndex.RunIsExclusive` | internal/helm-locker/objectset/cache.go:339-356 | over every run from the empty index: the resources that two keys hold are disjoint |
| `LockIndex.RunKeepsBystander` | internal/helm-locker/objectset/cache.go:297-373 | over every run of operations for other keys: what a key holds does not change |
| `LockRuns.IndexIsInverse` | internal/helm-locker/objectset/cache.go:208-373 | in every state of every interleaving of all calls, Resolve answers a key exactly for the resources that the locks and unlocks so far have left to it, and no two keys hold one resource |
| `LockRuns.InnerMapsAreNonEmpty` | internal/helm-locker/objectset/cache.go:360-373 | in every state of every interleaving no inner map is empty, if no object set given to Set has an empty group |
| `ObjectSetRegister.ObjectSetState.constructor` | internal/helm-locker/objectset/state.go:33-45 | a new state has generation 0, resource version "0", no object set, is not locked, and has its own mutex |
| `ObjectSetRegister.ObjectSetState.Copy` | internal/helm-locker/objectset/state.go:62-68 | a copy shares the object set and the mutex with the original and has equal other fields |
| `ObjectSetRegister.Register.CanLock` | internal/helm-locker/objectset/cache.go:339-356 | the nested search answers yes exactly when no object of the set is locked by another key |
| `ObjectSetRegister.Register.RemoveAllEntries` | internal/helm-locker/objectset/cache.go:360-373 | the in-place removal over both levels, in any iteration order, yields exactly the index without the key's entries |
| `ObjectSetRegister.Register.LockObjects` | internal/helm-locker/objectset/cache.go:297-327 | the in-place locking in any iteration order: the new index is that of `LockIndex.Lock` for the groups written; all of them unless a watch fails; every kind written is registered with the watcher even then; a conflict is reported exactly when there is one |
| `ObjectSetRegister.Register.Unlock` | internal/helm-locker/objectset/cache.go:188-191 | removes the key's entries, keeps the register's invariant |
| `ObjectSetRegister.Register.Resolve` | internal/helm-locker/objectset/cache.go:208-225 | answers with the one key that has locked the resource, or with none |
| `ObjectSetRegister.Register.Set` | internal/helm-locker/objectset/cache.go:165-168 | what is given replaces what was wanted, what is not given stays; an event is sent unless nothing given is new; the index and all other states are left alone; "locked exactly when there is an object set" is kept when it sets both or neither |
| `ObjectSetRegister.Register.Enqueue` | internal/helm-locker/objectset/cache.go:201-204 | announces a fresh state of the key although nothing wanted changes, and keeps "locked exactly when there is an object set" |
| `ObjectSetRegister.Register.Lock` | internal/helm-locker/objectset/cache.go:171-185 | locks the object set of the current state if there is one, dropping any error; keeps every kind of the index registered |
| `ObjectSetRegister.Register.Delete` | internal/helm-locker/objectset/cache.go:194-198 | the state and the entries of the key are gone, all else is kept; the cluster is purged exactly on request |
| `ObjectSetRegister.Register.List` | internal/helm-locker/objectset/cache.go:140-151 | copies of exactly the states that replaying the announced events from nothing yields, each once |
| `ObjectSetRegister.Register.SetState` | internal/helm-locker/objectset/cache.go:236-277 | announces and stores exactly when forced, new, or changed in object set or lock; otherwise nothing at all changes |
| `ObjectSetRegister.Register.DeleteState` | internal/helm-locker/objectset/cache.go:280-294 | the state leaves the map and is emptied in place, also for the events that carry it; other states are kept |
| `ObjectSetRegister.OnChange` | internal/helm-locker/objectset/handler.go:45-81 | unlock, apply, lock again whether or not the apply succeeds: the exact new register, the one apply call, the result; no nil object set is ever applied while states are locked exactly when they have one |
| `ObjectSetRegister.OnRemove` | internal/helm-locker/objectset/handler.go:84-103 | the key's entries are removed, and an empty apply is run exactly when purging |
| `EventLog.DecimalIsInjective` | internal/helm-locker/objectset/cache.go:246-247 | resource versions of different generations differ |
| `EventLog.DecimalReadsBack` | internal/helm-locker/objectset/cache.go:246-247 | a resource version is a string of digits that reads back as the generation, without leading zero |
| `EventLog.LifetimeAt` | internal/helm-locker/objectset/cache.go:236-277 | the i-th event of a lifetime is at generation i: Added at 0, Modified after that |
| `EventLog.LogIsLifetimes` | internal/helm-locker/objectset/cache.go:236-294 | per key a legal log is Added at 0, Modified at 1, 2, 3 and so on, Deleted, repeated, the resource version always the decimal of the generation |
| `GvkWatcher.Watcher.StartGvk` | internal/helm-locker/gvk/gvk.go:104-141 | what is hooked and started, and when it fails, for each answer of the controller factory |
| `GvkWatcher.Watcher.Watch` | internal/helm-locker/gvk/gvk.go:79-84 | registers the kind even when it fails; fails exactly when started, not yet running and not startable |
| `GvkWatcher.Watcher.Start` | internal/helm-locker/gvk/gvk.go:87-101 | tries every registered kind in any order, failures of one do not stop the others, and reports exactly those left unstarted |
| `GvkWatcher.RunIsSound` | internal/helm-locker/gvk/gvk.go:79-141 | over every run: started kinds are registered, none is started before the first Start, none is started successfully twice |
| `GvkWatcher.StartSyncs` | internal/helm-locker/gvk/gvk.go:87-101 | after Start the started kinds are the registered ones exactly when each one missing could be started |
| `GvkWatcher.InSyncUntilWatchFails` | internal/helm-locker/gvk/gvk.go:79-101 | over every run from a Start without errors: the started kinds stay the registered ones exactly as long as no Watch fails |
| `GvkWatcher.RetryHooksTwice` | internal/helm-locker/gvk/gvk.go:128-140 | a concrete history in which a kind gets the enqueueing handler twice: a start that fails, and a retry |
| `GvkWatcher.HooksCountStarts` | internal/helm-locker/gvk/gvk.go:104-141 | over every run, per kind: the handler is hooked once per successful and once per failed start |
| `GvkWatcher.HookedOncePerStart` | internal/helm-locker/gvk/gvk.go:104-141 | over every run of a new watcher, per kind: how often the handler is hooked, and that this is once per start if and only if no start of its controller has failed |
| `LockProtocol.Step` | internal/helm-locker/objectset/cache.go:171-373 | a step of any thread, taken in a well-formed state, leads to a well-formed state |
| `LockProtocol.EffectsAreOk` | internal/helm-locker/objectset/cache.go:171-294 | every step refers to existing states only, takes a mutex only when it is free, and clears an object set only while nobody enters it |
| `LockProtocol.PerformKeepsExclusive` | internal/helm-locker/objectset/cache.go:178-294 | a Lock that reads and a Delete that writes never hold one mutex together, although copies share it |
| `LockProtocol.PerformKeepsWellFormed` | internal/helm-locker/objectset/cache.go:171-373 | all references of all threads stay valid under every step |
| `LockProgress.StuckIffIdleOrWaits` | internal/helm-locker/objectset/cache.go:171-294 | as far as mutexes and events to handle go (the channel never blocks here): a thread cannot step exactly when it has returned, waits for an event, or waits for a mutex that another thread holds |
| `LockProgress.SomeThreadCanStep` | internal/helm-locker/objectset/cache.go:178-294 | the mutexes do not deadlock: whoever holds one can go on, so some thread can unless all are idle |
| `LockProgress.SomeThreadIsNext` | internal/helm-locker/objectset/cache.go:178-184 | the same when no new reader passes a writer that waits, as with Go mutexes |
| `EventChannel.DeadlockedIff` | internal/helm-locker/objectset/cache.go:268-275 | the sends of setState and the informer are stuck exactly when the informer has not listed, a call holds stateMapLock and the channel is full |
| `EventChannel.CanDeadlockIff` | internal/helm-locker/objectset/cache.go:58 | this can happen exactly when there are more than 50 storing calls; all of them come before the informer lists |
| `EventChannel.ListedNeverDeadlocks` | internal/helm-locker/objectset/cache.go:140-151 | once the informer has listed, no run gets stuck |
| `LockSafety.StepKeepsNoOrphan` | internal/helm-locker/objectset/cache.go:171-294 | every step of every thread, stores included unless they spoil it, keeps the invariant behind the next rows |
| `LockSafety.StoreKeepsIffNotSpoils` | internal/helm-locker/objectset/cache.go:236-275 | a store of setState keeps the invariant if and only if it does not spoil it: no Lock waits for a superseded state, none is entering under another mutex with no Delete waiting, no Delete is about to drop a state that one with an object set supersedes |
| `LockSafety.RunKeepsNoOrphan` | internal/helm-locker/objectset/cache.go:171-294 | over every interleaving without spoiling stores: a state with an object set that a Lock has fetched is current or about to be cleared, a Delete has to wait for a Lock that is entering, and entries without a state have a Delete pending |
| `LockSafety.ReleasedKeyOwnsNothing` | internal/helm-locker/objectset/cache.go:280-294 | over every interleaving without spoiling stores: a key without state and without a Delete under way is never the answer of Resolve |
| `LockSafety.DeleteWins` | internal/helm-locker/objectset/cache.go:171-198 | any number of Lock, OnChange, Unlock and Delete calls in any interleaving, no setState of the key in flight, and no Lock or Delete of the key under way at the start (or only such as keep the invariant): once all have returned the key has no state and no index entry, whatever it owned before |
| `LockSafety.DeleteHeals` | internal/helm-locker/objectset/cache.go:194-198 | hence a key that has leaked entries owns nothing once another Delete of it has run |
| `LockSafety.NothingResolvesInWindow` | internal/helm-locker/objectset/handler.go:61-74 | with one handler per key, from its Unlock to the entry of its deferred Lock nothing resolves to the key that applies, whatever Set, Enqueue, Unlock, Delete or other keys' Locks run meanwhile |
| `LockWakes.ResolvedIffEntered` | internal/helm-locker/objectset/cache.go:208-225 | over every run from a state in which a key does not hold a resource: Resolve answers the key exactly when the last effective lock or unlock of the key has entered the resource |
| `LockWakes.ApplyWakesIffDeliveredLate` | internal/helm-locker/objectset/handler.go:61-74 | over every interleaving: a change that an apply makes wakes its own key exactly when it is delivered after a Lock of the key has entered the resource, and before that is undone |
| `LockWakes.ApplyCanWakeItself` | internal/helm-locker/gvk/gvk.go:128-134 | and it can: from any reachable state in which an OnChange is about to apply and can lock the current objects, the call can return so that every change of them that is delivered then wakes the key |
| `LockCalls.AppliesIffLocked` | internal/helm-locker/objectset/handler.go:61-72 | over every run: an OnChange that has returned has looked at the state of an event and has applied it if and only if that was locked then |
| `LockCalls.ApplyHasChecked` | internal/helm-locker/objectset/handler.go:64-72 | over every run: who is about to apply a state has found it locked in its last step |
| `LockCalls.BuildsAsGiven` | internal/helm-locker/objectset/cache.go:236-259 | over every run: what setState builds takes the object set and the flag that are given, and the others from the state it started from, with which it shares the mutex |
| `LockCalls.StoresIffDifferent` | internal/helm-locker/objectset/cache.go:261-269 | over every run: what was built is stored exactly when forced, new, or different in object set or flag |
| `LockCalls.FlagStays` | internal/helm-locker/objectset/cache.go:285-293 | over every run: a state stays locked, or not, as it was built, until a Delete has sent its event |
| `LockCalls.UnlockedEntersNothing` | internal/helm-locker/objectset/handler.go:61-67 | over every run: who handles the event of a state that a Set has built with the flag false returns after its Unlock and enters nothing |
| `LockCalls.UnlockLeavesNothing` | internal/helm-locker/objectset/cache.go:330-335 | over every run: the Unlock of a call leaves its key nothing and every other key what it had |
| `LockCalls.SetThenChangeLocks` | internal/helm-locker/objectset/cache.go:165-185 | from the empty register a Set that locks an object set, any number of Enqueues, and the OnChange of the event can end with every object resolving to the key |
| `StateRaces.InformerAgreesIff` | internal/helm-locker/objectset/cache.go:280-294 | over every interleaving, when no Delete has an event to send: replaying the events leaves the state that the register holds if and only if the last store of the key did not come between the drop of a Delete and its event |
| `StateRaces.SetOvertakesDelete` | internal/helm-locker/objectset/cache.go:286-293 | such a store can follow whenever a Set is about to store while a Delete has yet to send: the register then holds a state that the informer has lost |
| `StateRaces.LogIsLegalIff` | internal/helm-locker/objectset/cache.go:242-293 | over every interleaving: the log of a key is legal if and only if every event is made from a state at the generation that the informer has seen |
| `StateRaces.LogIsLegalIffStoresAreFresh` | internal/helm-locker/objectset/cache.go:236-277 | over every interleaving without a Delete of the key: generations have no gap and no repetition if and only if every store is of a state built from the one then current |
| `LostSets.LastSetIsKeptIff` | internal/helm-locker/objectset/cache.go:236-277 | over every interleaving, Deletes included: the register always holds the object set of the last Set that stored, or none after a Delete, if and only if no Enqueue stores another object set than the current one |
| `LostSets.FreshStoresKeepLastSet` | internal/helm-locker/objectset/cache.go:236-277 | in particular if every store is of a state built from the one then current |
| `LostSets.LateEnqueueRestores` | internal/helm-locker/objectset/cache.go:201-204 | an Enqueue that has fetched a state can go on to make its object set current again, whatever has been stored or deleted since |
| `LockLeak.OrphansIffSpoilt` | internal/helm-locker/objectset/cache.go:236-294 | the condition is exact: from a state that keeps the invariant, with a Delete and a Lock still to come, the key can end deleted and owning objects after a store if and only if the store spoils it |
| `LockLeak.SupersededLockOutlivesDelete` | internal/helm-locker/objectset/cache.go:171-198 | when a store has superseded the state that a Lock has fetched, the run can end with the key deleted and owning the objects |
| `LockLeak.SupersededEntryOutlivesDelete` | internal/helm-locker/objectset/cache.go:178-184 | the same when a Lock is entering under a mutex that the stored state does not share |
| `LockLeak.SupersededDeleteMissesLock` | internal/helm-locker/objectset/cache.go:280-294 | the same when a store has superseded the state that a Delete has fetched |
| `LockLeak.FourCallsLeak` | internal/helm-locker/objectset/cache.go:171-294 | such a run from the empty register, of two Sets, a Lock and a Delete, all of which return |
| `HelmReleases.Controller.OnHelmRelease` | internal/helm-locker/controllers/release/controller.go:217-271 | by Helm status: a HelmRelease of another namespace or controller, a failed lookup or status update and a deployed manifest that does not parse leave the register as it is; a release that is not found is forgotten and purged even if the status cannot be written; any status but deployed unlocks it; a deployed manifest becomes its locked object set. Which state is recorded, whether a claim is made, whether the call succeeds |
| `HelmReleases.Controller.OnHelmReleaseRemove` | internal/helm-locker/controllers/release/controller.go:199-215 | forgets the release without purging, except in the two states in which it takes the register to hold nothing |
| `HelmReleases.Controller.Reconcile` | internal/helm-locker/controllers/release/controller.go:217-271 | by Helm status, with the event that the call sends handled: a deployed release is the answer of Resolve exactly for its manifest, unless another release holds one of the objects; in any other status, and not found, for nothing; answers for other keys never change |
| `HelmReleases.ReconcileIsExact` | internal/helm-locker/controllers/release/controller.go:234-270 | the same on values: what the release owns, the conflict in which it ends with nothing, and that states and holdings of other keys never change |
| `HelmReleases.PendingEventLocksAgain` | internal/helm-locker/objectset/cache.go:188-191 | after an Unlock for a release under a Helm operation, a pending event locks it again exactly when its state is still locked, has objects, and no other release holds one |
| `HelmReleases.RemovedReleaseOwnsIff` | internal/helm-locker/controllers/release/controller.go:199-215 | when an event is handled after the HelmRelease was removed, the release owns something exactly when it was removed as not found or uninstalled, the event says locked, and an object set is left with objects none of which another release holds |
| `ReleaseHistory.RemovalLeavesTrackedIff` | internal/helm-locker/controllers/release/controller.go:199-271 | over every history of a release: its removal leaves an object set in the register exactly when the recorded state is Uninstalled and a deployed manifest was tracked since the release was last not found |
| `ReleaseHistory.StepsAreThose` | internal/helm-locker/controllers/release/controller.go:217-271 | what the steps of a history tell and keep: the recorded state by Helm status, the stored one only if the API accepts it, an enqueued release wants what it wanted |
| `HelmReleases.UninstalledReleaseIsNotForgotten` | internal/helm-locker/controllers/release/controller.go:199-207 | a concrete history: tracked, uninstalled, removed, and locked again by the next event |
| `ManagedBy.ClaimIsForEver` | internal/helm-locker/controllers/release/controller.go:171-197 | over every run of any number of controllers with stale caches: once claimed, the annotation keeps its value, and only the controller it names has reached the register |
| `ManagedBy.StaleClaimIsRejected` | internal/helm-locker/controllers/release/controller.go:185-197 | a claim from the current copy names the controller, one from a copy that has been updated since changes nothing |
| `ManagedBy.ExclusiveIffNamesDiffer` | internal/helm-locker/controllers/release/controller.go:171-229 | at most one controller ever reaches the register for a release if and only if controller names differ |
| `ProjectReconcile.ReleaseNamesCollide` | internal/helm-project-operator/controllers/project/utils.go:57-70 | release names are equal exactly for equal namespaces (singleton) or equal chart names (otherwise) |
| `ProjectReconcile.ReleaseNamespacesCollide` | internal/helm-project-operator/controllers/project/utils.go:55-70 | release namespaces are equal exactly for equal release names if both labels are set, and exactly for equal registration namespaces otherwise |
| `ProjectReconcile.FindConflict` | internal/helm-project-operator/controllers/project/controller.go:225-260 | the loop finds a conflict exactly when another managed chart of the release name has a claiming status |
| `ProjectReconcile.OnChange` | internal/helm-project-operator/controllers/project/controller.go:192-359 | every ending of a call by chart, caches and options: who is left alone, cleaned up or turned away, when the call fails; with both labels set a deploying chart goes into the namespace named like its release, which is created and made a target, otherwise into its own; HelmChart, HelmRelease, RoleBindings, values and status agree on that |
| `ProjectReconcile.PairIffDeploys` | internal/helm-project-operator/controllers/project/controller.go:338-342 | the HelmChart and the HelmRelease, one of each, are emitted exactly when every check has passed |
| `ReleaseClaims.Sync` | internal/helm-project-operator/generated/controllers/helm.cattle.io/v1alpha1/projecthelmchart.go:93-184 | what the generating and status handlers apply and store around OnChange, for every way in which apply and status update can fail |
| `ReleaseClaims.ConflictsAreClaims` | internal/helm-project-operator/controllers/project/controller.go:225-260 | on a fresh view a chart is blocked exactly by the claims of the other managed charts of its release |
| `ReleaseClaims.NewOwnerIsAlone` | internal/helm-project-operator/controllers/project/controller.go:225-260 | a chart that becomes owner finds no other owner of its release |
| `ReleaseClaims.StepKeepsSafe` | internal/helm-project-operator/controllers/project/controller.go:208-342 | every call, with errors, missing namespaces, no targets, cleanup labels or deletions, keeps the invariant behind uniqueness |
| `ReleaseClaims.AtMostOneOwner` | internal/helm-project-operator/controllers/project/controller.go:208-342 | over every orderly run from a world without owners: each release name has at most one owner |
| `ReleaseClaims.UniqueForEverIffSafe` | internal/helm-project-operator/controllers/project/controller.go:208-342 | exactly from which worlds every orderly run keeps one owner per release name: unless an owner without a recorded claim meets an eligible rival and no claim that is stuck |
| `ReleaseClaims.ExposedIsUnsafe` | internal/helm-project-operator/controllers/project/controller.go:231-260 | from any other world the rivals can be turned away one by one until one of them owns the release as well |
| `ReleaseClaims.UnrecordedLandingExposes` | internal/helm-project-operator/generated/controllers/helm.cattle.io/v1alpha1/projecthelmchart.go:107-128 | objects that land while the status is not written expose the release exactly when another eligible chart wants it |
| `ReleaseClaims.StaleViewsShare` | internal/helm-project-operator/controllers/project/controller.go:226-244 | two charts that each see the other unprocessed both come to own the release |
| `ReleaseClaims.FirstProcessedWins` | internal/helm-project-operator/controllers/project/controller.go:225-260 | for a release that nobody owns or claims, any order and number of calls for its charts, with any calls for other releases in between, leaves the first processed chart as the only claimant and owner, all other processed ones UnableToCreateHelmRelease |
| `Values.ConvertMap` | internal/helm-project-operator/controllers/project/merge.go:55-65 | converts exactly the maps all of whose keys are strings, each entry under the same text |
| `Values.GetMap` | internal/helm-project-operator/controllers/project/merge.go:33-53 | recognises string-keyed and convertible interface-keyed maps and nothing else, not even a nested GenericMap |
| `Values.BothMaps` | internal/helm-project-operator/controllers/project/merge.go:21-31 | both sides as maps exactly when both are recognised |
| `Values.MergeMaps` | internal/helm-project-operator/controllers/project/merge.go:7-19 | the loops in any iteration order, and the recursion, which ends, compute the right-biased merge |
| `Values.MergeAtEveryPath` | internal/helm-project-operator/controllers/project/merge.go:7-31 | at every path the result has the merge of the two sides where both are maps all the way, and below the first point where they are not what one side has, the overlay if it has anything at that point |
| `Values.OverlayStands` | internal/helm-project-operator/controllers/project/merge.go:12-17 | what the overlay has at a path is found unchanged unless both sides have maps there |
| `Values.AbsorbedIffUnchanged` | internal/helm-project-operator/controllers/project/merge.go:7-19 | merging leaves the overlay as it is exactly when it already contains all of the base |
| `Values.AssociativeIffRegroups` | internal/helm-project-operator/controllers/project/merge.go:7-19 | merging three values is associative exactly when no map of the first comes back from under a non-map of the second |
| `Values.AssociativeWithoutBarrier` | internal/helm-project-operator/controllers/project/merge.go:7-19 | in particular when no path has maps in the first and third and something else in the second, interface-keyed maps included |
| `Values.MeansTheSameIffAgrees` | internal/helm-project-operator/controllers/project/merge.go:34-50 | for any nesting of GenericMaps on both sides: a merge means what it would if they were recognised, exactly when wherever one meets a map the base has nothing to add to the overlay |
| `Values.LayersAgree` | internal/helm-project-operator/controllers/project/values.go:8-40 | without nested GenericMaps in the values of the user and the operator, all layers are merged as if they were recognised |
| `Values.GetValues` | internal/helm-project-operator/controllers/project/values.go:8-41 | at every path outside the required values: what the operator overrides is found unless the user also has a map there; elsewhere what the user sets; elsewhere the registry and the URL, each under its name, and nothing else. The required values and the labels of the selector are found in any case |
| `Values.RequiredValuesStand` | internal/helm-project-operator/controllers/project/values.go:25-38 | for all user values and overrides: cluster ID, project namespaces, project ID and release project ID are found unchanged |
| `Values.SelectorStandsIffAbsorbed` | internal/helm-project-operator/controllers/project/values.go:25-38 | the required namespace selector is found unchanged exactly when what the layers below have put there is absorbed by it |
| `Values.ForeignSelectorKeyStays` | internal/helm-project-operator/controllers/project/values.go:33 | with a project label, any other key put into the selector stays in the values |
| `Rbac.GetDefaultClusterRoles` | internal/helm-project-operator/controllers/common/rbac.go:8-20 | admin, edit and view each with the ClusterRole of its own option, if that is not empty, and nothing else |
| `Rbac.IsDefaultClusterRoleRef` | internal/helm-project-operator/controllers/common/rbac.go:24-31 | finds a role that the ClusterRole plays exactly when there is one, whichever comes first |
| `Rbac.FilterToUsersAndGroups` | internal/helm-project-operator/controllers/common/rbac.go:35-53 | exactly the RBAC Users and Groups, without namespace |
| `Rbac.SubjectKeyIsInjective` | internal/helm-project-operator/controllers/project/registrationdata.go:48 | the key of a subject tells Users and Groups of one name apart |
| `Rbac.Collect` | internal/helm-project-operator/controllers/project/registrationdata.go:34-70 | each role's map holds exactly the subjects of the bindings that were counted for the role, each under its key |
| `Rbac.GetSubjectRoleToSubjectsFromBindings` | internal/helm-project-operator/controllers/project/registrationdata.go:16-80 | per default role a duplicate-free list of exactly the subjects collected over the indexed bindings |
| `Rbac.GetSubjectRoleToRoleRefsFromRoles` | internal/helm-project-operator/controllers/project/releasedata.go:60-102 | per default role the Roles of the release that aggregate from it, in order; nothing if the release namespace is missing |
| `Rbac.GetRoleBindings` | internal/helm-project-operator/controllers/project/resources.go:92-119 | the bindings are exactly those of the Roles of each default role that has subjects, with all its subjects; none is empty, and names differ if no Role is listed twice |
| `Rbac.IndexedAreGrants` | internal/helm-project-operator/controllers/project/indexers.go:111-150 | the bindings that the two indexes return are exactly those of the registration namespace and of the cluster that grant a default ClusterRole |
| `Rbac.ReleaseRolesAreOffers` | internal/helm-project-operator/controllers/project/indexers.go:152-176 | the Roles that the index returns for a release are exactly those labelled for it in its namespace |
| `Rbac.AggregatedAreListedOnce` | internal/helm-project-operator/controllers/project/releasedata.go:81-100 | no Role is listed twice, under one default role or under two |
| `Rbac.CollectsAllIffUnshared` | internal/helm-project-operator/controllers/common/rbac.go:24-31 | whatever order maps are iterated in, every subject is counted for every role it has exactly when no binding in use refers to a ClusterRole that plays two roles |
| `Rbac.DistinctNamesAreUnshared` | internal/helm-project-operator/controllers/common/rbac.go:8-20 | which different ClusterRole names guarantee |
| `Rbac.RoleBindingsOfRelease` | internal/helm-project-operator/controllers/project/controller.go:321-336 | the join: if the ClusterRoles of the options differ, or no binding in use refers to one that plays two roles, a User or Group is bound to a Role exactly when the Role aggregates from admin, edit or view and a binding of the registration namespace or of the cluster gives it the ClusterRole of that option; only RBAC Users and Groups are listed; no binding is empty, lists a subject twice or shares its name with another |
| `Namespaces.Tracker.Compare` | internal/helm-project-operator/controllers/namespace/tracker.go:83-99 | succeeds exactly when all names are tracked and there are equally many |
| `Namespaces.CompareMeansEqual` | internal/helm-project-operator/controllers/namespace/tracker.go:83-99 | for a list without duplicates that is equality of the two sets |
| `Namespaces.DuplicatesNeverCompare` | internal/helm-project-operator/controllers/namespace/tracker.go:94-96 | a list with a duplicate has more entries than names, so Compare refuses even the very names listed |
| `Namespaces.IsSystemNamespace` | internal/helm-project-operator/controllers/namespace/controller.go:407-434 | by name, or by a project label value that is one of the system ones or the release one, if that is set |
| `Namespaces.Handler.OnMultiNamespaceChange` | internal/helm-project-operator/controllers/namespace/controller.go:158-195 | a tracked namespace is dropped exactly when it is being deleted and its project could be enqueued; a system namespace changes nothing; any other one with the project label gets "cattle-project-" and the label listed once and its project queued |
| `Namespaces.Handler.ApplyProjectRegistrationNamespaceForNamespace` | internal/helm-project-operator/controllers/namespace/controller.go:223-286 | lists the registration name once and queues the project, exactly when the label update succeeds and the namespace is in a project |
| `Namespaces.Handler.ApplyProjectRegistrationNamespace` | internal/helm-project-operator/controllers/namespace/controller.go:288-357 | fails when the index fails; gives a name that is too long up; otherwise tracks the registration namespace unless an earlier step fails, also when a later one does |
| `Namespaces.Handler.ProcessNextItem` | internal/helm-project-operator/applier/applyinator.go:103-119 | a worker takes a queued project that no other worker has |
| `Namespaces.Handler.ProcessSingleItem` | internal/helm-project-operator/applier/applyinator.go:125-142 | a failed project is queued again, one that is done is not; its namespace is tracked unless the name is longer than 63 characters or an earlier step fails |
| `Namespaces.RunKeepsSound` | internal/helm-project-operator/controllers/namespace/controller.go:276-331 | over every interleaving of scan and workers the invariant of start-up holds and the list only grows |
| `Namespaces.CompareIsExact` | internal/helm-project-operator/controllers/namespace/tracker.go:83-99 | over every interleaving: the list has no duplicates, everything queued or tracked is in it, and Compare succeeds exactly when tracked and listed names are the same |
| `Namespaces.ListedWereScanned` | internal/helm-project-operator/controllers/namespace/controller.go:182-190 | over every interleaving: a listed name is that of the project of a scanned namespace which is no system namespace and could be labelled |
| `Namespaces.RestMeansReady` | internal/helm-project-operator/controllers/namespace/controller.go:112-126 | when the workers are at rest, start-up succeeds exactly when no listed name is longer than 63 characters and none was dropped for good |
| `Namespaces.TooLongNeverCompares` | internal/helm-project-operator/controllers/namespace/controller.go:313-317 | a listed name that is too long makes Compare fail in every later state |
| `Namespaces.GetTargetProjectNamespaces` | internal/helm-project-operator/controllers/namespace/getter.go:47-65 | an error exactly when reading, the label or listing fails; otherwise the list is sorted, without duplicates, and exactly the project's namespaces that are neither registration nor system |
| `Namespaces.TargetsAreDisjoint` | internal/helm-project-operator/controllers/namespace/getter.go:143-160 | two results of the getter against one cluster: the same list for one project, no common namespace for two, and never a registration or system namespace |

## Left out

- LockLeak.OrphansIffSpoilt: that a spoiling store can end in a leak is shown when only Locks of the key hold mutexes, no Delete of it is past its map, and what its states track can be locked; that another store cannot is shown without these.
- LockProtocol.Step: setState's copy of the object set and of the lock flag is one step, and an apply is one step that does not touch the register; the two locks that guard a single step are not modelled as such.
- LockSafety.NothingResolvesInWindow: assumes the work queue's promise of one handler per key, which client-go gives; so does LockWakes.ApplyWakesIffDeliveredLate.
- LockProgress.StuckIffIdleOrWaits: does not model that a send on the channel of capacity 50 can block, and setState holds stateMapLock meanwhile, which List needs (internal/helm-locker/objectset/cache.go:58, 268-275); EventChannel does.
- LockProgress.SomeThreadCanStep: as for StuckIffIdleOrWaits; that a writer which waits keeps new readers out is in SomeThreadIsNext.
- EventChannel.CanDeadlockIff: calls of Delete, which send without stateMapLock, are not counted, and the informer lists once.
- StateRaces.LogIsLegalIffStoresAreFresh: without Deletes of the key, because generations begin anew with each lifetime, so that a stale store can fit by chance; LogIsLegalIff holds with Deletes.
- ObjectSetRegister.Register.SetState: the event channel is an unbounded log, and the informer's resync is not modelled; EventChannel has the capacity.
- ObjectSetRegister.OnChange: the apply is a call that succeeds or fails; what it does to the cluster, the deletion timestamp that the register never sets, the notification of shared handlers and the parsing of "namespace/name" keys are not modelled.
- HelmReleases.Controller.OnHelmRelease: version, description and notes of the status, events of the recorder, and Helm's storage are not modelled; a manifest either parses to groups of objects or does not.
- ManagedBy.ExclusiveIffNamesDiffer: writers other than the controllers never touch the annotation.
- ReleaseClaims.AtMostOneOwner: the managed charts, their specs and their labels are fixed during a run, calls do not overlap, and the HelmChart and the HelmRelease of a chart are applied and removed together.
- ReleaseClaims.Sync: the optional condition on the status and the option to apply once per resource version are not used by this controller and not modelled.
- ProjectReconcile.OnChange: labels, annotations, job images, chart contents and status messages are not modelled; an error of the namespace lookup counts as a missing namespace, because the cache then returns no namespace.
- Values.MergeMaps: a Go value is a map of one of the kinds told apart here or something else; lists, numbers and nil are not distinguished further.
- Rbac.GetSubjectRoleToSubjectsFromBindings: informer caches hold no nil objects, so the nil checks are not modelled.
- Rbac.RoleBindingsOfRelease: assumes that Kubernetes names contain no slash and that names are unique within a namespace.
- Namespaces.Handler.OnMultiNamespaceChange: the label update and the re-enqueueing of project namespaces are outcomes given as parameters.
- Namespaces.GetTargetProjectNamespaces: the getter for a single registration namespace is not modelled; it filters by a label selector instead of a label value.
- Dashboard values from ConfigMaps: JSON decoding and an external merge.
- The parser of manifests, values and questions files, Helm storage access, CRDs, command lines, the hardened controller, relatedresource resolvers, leader election and the informers themselves: external libraries or plumbing.
- The bookkeeping of project labels on namespaces: it consists of API updates without a contract of its own.
- OnRemove of a ProjectHelmChart, which only marks a release namespace as orphaned.
