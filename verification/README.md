# The copy protocol of k8s-namespace-sync

A NamespaceSync copies named Secrets and ConfigMaps from a source namespace into target namespaces. Several of them may
overlap, chain or be deleted while users create objects by hand. From the annotations of an object and the specs of the
other live syncs the controller decides whether it may create, overwrite, keep or delete the object. This project models
that protocol and proves what it promises over every input and every run.

## How the model is built

- `types.dfy`, `filters.dfy`, `copies.dfy`: objects, specs, what a sync selects, what a copy looks like. Secret and
  ConfigMap are one kind of object with a kind tag in the key. `path.Match` is a function parameter that answers match,
  no match or malformed.
- `conflicts.dfy`: the ownership rules over sets of specs, and the loops over lists of peers proved against them.
- `steps.dfy`, `rounds.dfy`: what one sync does to one key, as a function of the cells at the key and at its source;
  whole reconciles and cleanups as that step taken at every key; runs of them.
- `terms.dfy`, `laws.dfy`: what specs, filters and annotations mean to users in plain terms, apart from the code's own
  predicates, and what users are promised of every reconcile, cleanup and run in those terms. The code's predicates are
  proved to mean the same, so a wrong rule breaks a law even where method and rule agree.
- `contract.dfy`, `quiescence.dfy`, `chains.dfy`, `refcount.dfy`: what follows about reconciles and runs.
- `worlds.dfy`, `safety.dfy`, `ownership.dfy`: the cluster as a state machine with API calls that fail, user edits, and
  syncs that come, change and go; safety, leak freedom and changes of owner over its traces.
- `clusters.dfy`, `convergence.dfy`: sequences of reconcile calls, and when they come to rest: after one round if all
  sources are hand-made, after two rounds a level of copying if sources are copies themselves or missing.
- `apiserver.dfy`, `drafts.dfy`, `reconciler.dfy`: the imperative controller. `ApiServer` holds objects with uids and
  revisions, rejects stale updates, drops updates that admission turns into what is stored, and lets each call be served,
  fail, or take effect with the answer lost. Users may edit objects before each call (`Interfere`) and the cached read of
  the target may be behind. All past states of the objects are kept for the contracts to speak of. `Draft` objects share
  label and annotation maps by reference as Go objects do.
- `progress.dfy`, `handling.dfy`, `status.dfy`: how the loops of the controller add up to the pointwise reconcile, and
  what its status means.
- `events.dfy`: which syncs a change wakes.

A method is proved twice over. Without interference (`Quiet`) its effect is given by the step functions, exactly if all
calls are served and partly if some fail; how much is missing is bounded by the number of calls that failed. With
arbitrary interference each of its writes, recorded in a log at the instant it takes effect, is lawful (`Lawful`): it
creates at an absent key or replaces the very version the guard allowed to overwrite, and stores exactly the copy of the
source object as it was at some instant of the reconcile; or it deletes a managed copy. The finalizer goes only after
each covered key that no peer needs was, at some instant of the cleanup, without a copy.

Two points where the code decides. `default` is a system namespace (`internal/controller/filters.go:67`), although
`README.md:488-492` does not list it. Deleting the syncs of a chain head first leaves a copy behind that no sync owns
unless a third one claims it, because the second sync still needs it while the first is cleaned up, and deletes only
copies of its own source (`RefCount.ChainLeavesCopy`).

## Model

| member | source | states |
|---|---|---|
| Filters.HitsExclude | internal/controller/filters.go:17-23 | a name is excluded exactly when some exclude pattern matches it or is malformed |
| Filters.HitsInclude | internal/controller/filters.go:29-36 | a non-empty include list admits a name exactly when some well-formed pattern matches it |
| Filters.FilterMeans | internal/controller/filters.go:11-37 | a name passes a filter exactly when no exclude pattern matches it or is malformed and the include list is empty or matches it |
| Terms.ReachMeans | internal/controller/filters.go:48-73 | a sync targets a namespace exactly if it is none of the five system namespaces, not the source, not excluded, and listed if any are |
| Terms.WantsMeans | internal/controller/conflicts.go:36-50 | the secret list and filter govern Secrets, the config map list and filter ConfigMaps |
| Terms.ValidMeans | internal/controller/utils.go:142-176 | a spec is valid exactly if it has a source namespace, some name, and only patterns that can be parsed, in both filters |
| Conflicts.AllowedMeans | internal/controller/conflicts.go:81-124 | a sync may overwrite exactly what no other holds: nothing another reads, unless its own copy; nothing made by hand outside explicit targets; no copy another live sync makes from elsewhere, unless only that one reaches the namespace by default |
| Conflicts.NeededMeans | internal/controller/conflicts.go:126-142 | an object is needed exactly if another sync reads it or copies from the same source to it |
| Conflicts.SourceOwner | internal/controller/conflicts.go:52-60 | finds a peer that reads the object as its source exactly when there is one |
| Conflicts.CopyOwner | internal/controller/conflicts.go:62-79 | returns nobody exactly when no peer claims the copy, and a peer listing the namespace exactly when one exists: the first such, else the first claimant |
| Conflicts.CopyConflictGuard | internal/controller/conflicts.go:91-124 | refuses exactly what others hold, in plain terms over the set of peers, so list order does not matter; a hand-made object outside explicit targets is always refused; a refusal names an actual owner |
| Conflicts.Unclaimed | internal/controller/conflicts.go:126-142 | keeps exactly the names no peer uses, that is reads in this namespace or copies there from the same source |
| Copies.DesiredFacts | internal/controller/resources.go:177-193 | the three stamps of a fresh copy make it a managed copy of its source made now, and restamping it is building it at another time |
| Drafts.CopyEntries | internal/controller/resources.go:166-175 | the loop adds all entries but the source-only ones and keeps the rest |
| Drafts.CopyLabelsAndAnnotations | internal/controller/resources.go:157-180 | labels and annotations of the source follow over what was there, the three stamps are set, the source object is unchanged |
| Drafts.CarryLastSync | internal/controller/resources.go:130-145 | the stored stamp is kept when the data stays, in a clone of the annotation map, so a shared map is never written |
| Drafts.Merge | internal/controller/resources.go:104-112 | the merged object and whether it differs from the snapshot; neither the desired object nor any map it shares changes |
| Steps.WrittenInSync | internal/controller/resources.go:95-128 | writing a copy leaves it in sync with its source, whatever was stored and whatever calm admission adds |
| Steps.InSyncStays | internal/controller/resources.go:104-125 | an object in sync is stored identically by any later sync, whatever the clock says |
| Steps.AdmissionFixedPoint | internal/controller/resources.go:104-155 | under any admission that leaves data and the last-sync stamp alone, a sync that is not refused is followed only by syncs that leave the stored copy identical, whatever the clock says and whoever the peers are |
| Steps.StepIdempotent | internal/controller/sync.go:69-111 | repeating a sync with the same peers leaves the cell identical, also where the first was refused or had no source |
| Steps.NotRefusedAgain | internal/controller/conflicts.go:97-124 | a sync is never refused over its own result |
| Steps.SelfIsNoPeer | internal/controller/conflicts.go:18-34 | judging by the other syncs is judging by all live syncs, for every key a sync may write |
| Rounds.ClaimsMatchBehaviour | internal/controller/conflicts.go:36-79 | the keys the conflict rules count as claimed by a sync are exactly those its reconcile attempts; cleanup covers those without the filters |
| Rounds.PeersOrAll | internal/controller/namespacesync_controller.go:130-155 | a whole reconcile and its conflicts are the same with the sync's own spec among the peers |
| Contract.ReconcileContract | internal/controller/sync.go:38-67 | after an error-free reconcile each attempted key is in sync, or a conflict and untouched, or without source and then without a managed copy unless a peer's source is left alone |
| Contract.ReconcileFrame | internal/controller/namespacesync_controller.go:138-155 | every key that is not attempted is unchanged |
| Contract.SecondReconcileIdle | internal/controller/resources.go:104-112 | a second reconcile at any later time changes nothing and reports the same conflicts |
| Contract.VisitedAt | internal/controller/sync.go:17-36 | after visiting keys one by one in any order, repeatedly or not, each key is where one step from the first store takes it, and conflicts are met exactly at the keys that conflict at first |
| Contract.AnyOrder | internal/controller/namespacesync_controller.go:138-155 | any order of the attempted keys gives the same store and the same conflicted namespaces |
| Contract.ListOrderIrrelevant | internal/controller/sync.go:17-36 | permuting or repeating entries of the lists of a spec changes neither the store nor the conflicts |
| Quiescence.SettledStays | internal/controller/conflicts.go:91-124 | what one live sync leaves alone it still leaves alone after any rival had its turn |
| Quiescence.Quiescent | internal/controller/namespacesync_controller.go:138-155 | with hand-made sources, any turns that include every live valid sync lead, from any store, to one that no later turns change |
| Clusters.CallIsTurn | internal/controller/namespacesync_controller.go:65-155 | a served reconcile of a sync is one turn over the store judged by all live specs, or nothing if the sync is missing or invalid, and changes no spec |
| Clusters.CallsAreRun | internal/controller/namespacesync_controller.go:65-155 | any sequence of reconciles is a run of legal turns |
| Clusters.QuiescentCluster | internal/controller/namespacesync_controller.go:65-182 | quiescence for reconcile calls of the cluster: after a round with every valid sync, in any order, no call changes any object |
| Convergence.TwoRounds | internal/controller/conflicts.go:91-124 | with the sources of a level frozen, two rounds freeze the level: one removes the copies of missing sources, one settles the rest |
| Convergence.Converges | internal/controller/namespacesync_controller.go:138-155 | with sources hand-made, copies or missing, if no sync copies in a circle, two rounds a level of copying lead, from any store and in any order, to one that no later turns change |
| Convergence.OneRoundTooFew | internal/controller/sync.go:156-172 | one round a level is too few: a sync shut out by the copy of a missing source writes in the next round |
| Convergence.ConvergentCluster | internal/controller/namespacesync_controller.go:65-182 | convergence for reconcile calls of the cluster |
| Ownership.OwnerChangeRaisesRank | internal/controller/conflicts.go:106-122 | every reconcile, whatever calls fail in it, that changes the owner of an object raises its rank from hand-made or orphaned over default-claimed to listed |
| Ownership.NoPingPong | internal/controller/conflicts.go:62-124 | along any trace of the cluster with the live specs fixed, API failures, cleanups and user edits included, an object that no user gives to another owner changes owner at most twice between deletions |
| Ownership.WriteRaisesRank | internal/controller/conflicts.go:106-122 | a write that is not refused and changes the owner makes the writing sync's source the owner, at a strictly higher rank |
| Ownership.CleanupKeepsOwner | internal/controller/resources.go:230-261 | a cleanup, complete or not, leaves what it spares exactly as it was |
| Ownership.StampMovesWithData | internal/controller/resources.go:130-145 | a reconcile moves the last-sync stamp of a stored object exactly when it changes the data or type, and then to the current time |
| Ownership.StampKeptWithData | internal/controller/resources.go:130-145 | along any run of reconciles the stamp stays as long as the data does |
| Worlds.ServedIsAllowed | internal/controller/namespacesync_controller.go:65-182 | the reconcile with every call served is one of those with failing calls, and keeps the cluster well formed |
| Safety.ReconcileSparesSource | internal/controller/conflicts.go:97-105 | no reconcile or cleanup of any sync changes an object without source annotation that a live sync reads as its source |
| Safety.HandMadeSourceSafe | internal/controller/resources.go:188-220 | the same over whole runs with failing calls, edits, new and deleted syncs, as long as the reading sync stays live with that name |
| Safety.WriterHoldsFinalizer | internal/controller/namespacesync_controller.go:96-115 | a reconcile that writes a copy is one of a live sync that holds its finalizer after it; that it does so at the instant of each write is in the contract of Reconcile |
| Safety.DropReleases | internal/controller/resources.go:30-58 | the finalizer goes only in a finished cleanup, which leaves no managed copy a live peer does not need |
| Safety.LeakFree | internal/controller/resources.go:263-306 | in any run, if a sync with a fixed spec wrote a copy and later lacks its finalizer, a finished cleanup in between released that copy |
| Safety.DeletionFinishes | internal/controller/namespacesync_controller.go:80-94 | a deletion whose calls are served drops the finalizer and releases every covered copy, whether or not the spec is valid |
| Laws.SelectionMeans | internal/controller/sync.go:38-67 | a reconcile attempts exactly the wanted names of each kind in the existing namespaces in reach |
| Laws.CoverageMeans | internal/controller/resources.go:281-298 | a cleanup covers exactly the listed names in the existing namespaces in reach, filtered or not |
| Laws.StaysOut | internal/controller/filters.go:48-73 | no reconcile or cleanup, whatever calls fail, changes anything in an excluded, unlisted, source or system namespace, or under a name not listed; while the sync is live also none its filters hold back |
| Laws.FilteredKept | internal/controller/filters.go:11-23 | no reconcile changes an object whose name an exclude pattern of the filter for its kind hits |
| Laws.InvalidIdle | internal/controller/namespacesync_controller.go:82-94 | a live sync with a malformed pattern in either filter, or no names, changes nothing |
| Laws.RefusedMeans | internal/controller/sync.go:85-101 | a sync is refused exactly where it is barred: another holds the object, or reads what it would create by default |
| Laws.BarredKept | internal/controller/conflicts.go:91-124 | where a sync is barred its reconcile changes nothing, whatever calls fail |
| Laws.HandMadeKept | internal/controller/conflicts.go:106-109 | no sync that does not list the namespace changes an object made by hand, read by somebody or not |
| Laws.HandMadeUntouched | internal/controller/conflicts.go:81-109 | along any trace an object made by hand stays as it is while no live sync lists its namespace or some live sync reads it |
| Laws.PeerSourceLeft | internal/controller/sync.go:85-90 | by default a sync neither creates, overwrites nor removes what another live sync reads, not even its own copy |
| Laws.SharedCopyKept | internal/controller/conflicts.go:126-142 | a cleanup, complete or not, leaves what another live sync attempts from the same source |
| Laws.OthersNotRemoved | internal/controller/resources.go:188-209 | only objects with both annotations of the sync's own copies are ever removed |
| Laws.FreeWritten | internal/controller/resources.go:62-186 | what no other holds becomes the copy of its source: data, followed labels and annotations, both source annotations, and a time that stays exactly as long as the data |
| Laws.MissingSource | internal/controller/sync.go:156-172 | without a source object exactly the sync's own copy goes, unless another reads it and the namespace is not listed |
| Laws.CleanupRemoves | internal/controller/resources.go:263-306 | a served cleanup removes exactly the own copies under listed names in reach that no other live sync uses |
| Laws.FinalizerMoves | internal/controller/namespacesync_controller.go:80-115 | a served reconcile adds the finalizer to a live valid sync, takes it from one being deleted, which goes with its last one, and changes no other sync |
| Laws.LawfulMeans | internal/controller/resources.go:76-126 | a lawful write puts a copy with the data the source had meanwhile under a wanted name in reach over nothing another holds; a lawful removal is of an own copy, by a sync after its source was seen missing, by a cleanup of one no other uses |
| Laws.RulesMean | internal/controller/resources.go:30-58 | whatever users do meanwhile, writes happen while the finalizer is held, and it goes only after each listed name in reach that no other uses was seen without a copy |
| Laws.UncleanMeans | internal/controller/resources.go:241-258 | a copy left under a listed name in reach that no other sync uses counts as not cleaned, so calls that fail bound how many are left |
| Laws.OthersStay | internal/controller/utils.go:114-140 | where no content changed no object has a new version, and no other sync's status changes |
| Laws.StatusMeans | internal/controller/utils.go:29-106 | the namespaces reported are those in reach, and the conflicts exactly the wanted names with a source where the sync is barred |
| RefCount.CleanupCounts | internal/controller/resources.go:282-298 | after a cleanup a copy under a covered key is there exactly when it was and a live peer needs it; all else is untouched |
| RefCount.SurvivesIffSpared | internal/controller/resources.go:263-306 | over any order of marking and cleaning up, a copy survives, unchanged, exactly when every cleanup reaching it found it needed |
| RefCount.LastCleanupDecides | internal/controller/conflicts.go:20-34 | only the last cleanup to reach a copy decides, by the syncs live at that moment |
| RefCount.ChainLeavesCopy | internal/controller/conflicts.go:126-142 | deleting the first sync of a chain before the second leaves the copy between them behind, claimed afterwards exactly if a third live sync claims it |
| Chains.ChainCarries | internal/controller/sync.go:69-111 | along a chain of any length, whatever other syncs exist, the last object carries the data of the first and each followed label and annotation, stamps apart, that admission leaves alone |
| Chains.ChainCollapses | internal/controller/sync.go:156-172 | with the first object gone, reconciling in order removes every copy along the chain, whatever labels and annotations admission adds |
| Chains.ChainStaysReady | internal/controller/conflicts.go:91-124 | reconciling the links in order leaves every later object absent or the copy of its predecessor |
| Chains.ChainLife | internal/controller/sync.go:69-172 | both in one: a chain is carried to its end, and deleting its head afterwards removes every later copy |
| Events.FindNamespaceSyncs | internal/controller/events.go:14-52 | enqueues exactly the syncs that read from the namespace or have it in reach, each at most once |
| Events.FindNamespaceSyncsForResource | internal/controller/events.go:54-90 | enqueues exactly the syncs that list the name for its kind and read from its namespace or have it in reach, each at most once |
| Events.ReconcileWakeUpComplete | internal/controller/events.go:71-88 | on stores that agree at every key whose change enqueues a sync, its reconcile makes the same changes and reports the same conflicts |
| Events.CleanupWakeUpComplete | internal/controller/events.go:71-88 | the same for its cleanup |
| Statuses.ConditionMeans | internal/controller/utils.go:50-106 | the counts compared mean the sets: SyncFailed exactly when nothing synced and something failed for another reason than a conflict, SyncConflict exactly when all failures are conflicts |
| Progress.GoalStays | internal/controller/sync.go:15-36 | whatever part of its work a reconcile or cleanup has done, every key still has the goal and the conflict it had at the start |
| Progress.ReachedReconciled | internal/controller/namespacesync_controller.go:138-155 | reaching the goal at every attempted key is the pointwise reconcile |
| Handling.AllFinished | internal/controller/namespacesync_controller.go:138-155 | if no namespace failed for another reason, the store is reconciled and the failed namespaces are exactly the conflicting ones |
| Handling.OutcomeFaithful | internal/controller/utils.go:45-106 | the status partitions the targeted namespaces and its condition says what failed |
| ApiServers.ApiServer.Create | internal/controller/resources.go:82-91 | a create takes effect only on an absent key |
| ApiServers.ApiServer.Update | internal/controller/resources.go:114-125 | an update takes effect only on the version it was made from, and not at all if admission turns it into what is stored |
| ApiServers.ApiServer.Delete | internal/controller/resources.go:211-218 | a delete takes effect only on the uid and revision it names |
| Reconcilers.NamespaceSyncReconciler.DeleteManagedCopy | internal/controller/resources.go:195-220 | removes the object only if it is a managed copy at that instant, whatever users do between the calls; unless it reports an error, the key was without such a copy at some instant meanwhile |
| Reconcilers.NamespaceSyncReconciler.CreateOrUpdateResource | internal/controller/resources.go:60-128 | creates, refuses or updates as the guard decides; under interference and stale reads every write stores desired, stamp kept and admission applied, on an absent key or over an object the guard allows |
| Reconcilers.NamespaceSyncReconciler.UpdateResource | internal/controller/resources.go:93-128 | whatever users do meanwhile, only the version that was read and that the guard allowed is updated, to the merged content |
| Reconcilers.NamespaceSyncReconciler.RemoveStaleCopy | internal/controller/sync.go:156-172 | removes the copy of a missing source, never reports a conflict, and outside explicit targets does nothing to an object of either kind that a peer reads |
| Reconcilers.NamespaceSyncReconciler.SyncObject | internal/controller/sync.go:69-111 | one object takes its step, with the verdict telling whether it synced, conflicted or failed; under interference it stores the copy of the source as it was at some instant meanwhile, and removes a copy only if the source was missing then; by default it never writes what a peer reads and reports a conflict if the source is there |
| Reconcilers.NamespaceSyncReconciler.SyncResourceList | internal/controller/sync.go:15-36 | an error stops the list at one name: all names before it took their steps, exactly their conflicts are reported, and no name after it is touched; only names its own kind's list and filter want are written |
| Reconcilers.NamespaceSyncReconciler.SyncResources | internal/controller/sync.go:38-67 | both kinds of one namespace, with the same about the name an error stopped at; after an error in a secret no config map is touched |
| Reconcilers.NamespaceSyncReconciler.SyncNamespaces | internal/controller/namespacesync_controller.go:121-155 | the loop partitions the existing namespaces in reach truthfully into synced, conflicted and failed, finishes every key of those not failed, and a call that fails stops at most one namespace |
| Reconcilers.NamespaceSyncReconciler.ListPeers | internal/controller/conflicts.go:18-34 | returns exactly the other syncs that are not being deleted |
| Reconcilers.NamespaceSyncReconciler.CleanupResource | internal/controller/resources.go:230-261 | removes the named copies; a failed deletion is counted and leaves at most its own key uncleaned, so all other names are cleaned |
| Reconcilers.NamespaceSyncReconciler.CleanupSyncedResources | internal/controller/resources.go:263-306 | errors are collected over all namespaces: once namespaces and peers are listed, at most as many covered keys stay uncleaned as calls failed, and success means none |
| Reconcilers.NamespaceSyncReconciler.HandleDeletion | internal/controller/resources.go:30-58 | drops the finalizer only after a successful cleanup, also under interference: each covered key no peer needs was seen without a copy of the source; a failed one leaves at most as many keys as calls failed |
| Reconcilers.NamespaceSyncReconciler.EnsureFinalizer | internal/controller/namespacesync_controller.go:96-115 | succeeds only if the sync holds the finalizer |
| Reconcilers.NamespaceSyncReconciler.ReportStatus | internal/controller/utils.go:29-112 | stores the status of the outcome, or changes no status if a call fails before that |
| Reconcilers.NamespaceSyncReconciler.ReportInvalidSpec | internal/controller/utils.go:114-140 | clears the namespaces and sets InvalidSpec, unless a call fails, and then at most does so |
| Reconcilers.NamespaceSyncReconciler.Reconcile | internal/controller/namespacesync_controller.go:65-182 | with all calls served, exactly the pointwise reconcile or cleanup; with failing calls, a part of it that keeps the finalizer rules; under user interference, only lawful writes made while the finalizer is held, which goes only after the covered keys were seen clean; nothing is written when nothing is to change; the status is faithful, an invalid spec is reported as such, and no other sync's status changes |

## Left out

- Reconcilers.NamespaceSyncReconciler.Reconcile: the clock is read once per reconcile instead of once per copy; users edit objects between its calls, but not syncs or namespaces.
- Reconcilers.NamespaceSyncReconciler.SyncObject: the source object is read from the server; only the read of the target may be stale.
- Reconcilers.NamespaceSyncReconciler.EnsureFinalizer: the retry on conflict is one attempt that may fail; the same holds for the two status updates.
- Reconcilers.NamespaceSyncReconciler.ReportStatus: times, generations and message texts are not modelled; a failed namespace carries its conflicts and whether another error occurred. The check for a sync being deleted is not modelled, since Reconcile never gets there with one.
- ApiServers.ApiServer.Update: rejections by validation, such as changing the type of a Secret or the data of an immutable object, occur only as calls that fail for no stated reason.
- Object fields a sync neither copies nor compares apart from labels, annotations, type and data, such as owner references: no rule depends on them.
- Edits of a spec that narrow its targets, names or filters: the code leaves the old copies behind on purpose, so no cleanup is claimed for them.
- The admission rules of the NamespaceSync resource itself: a non-empty source namespace is a precondition where it matters, and its immutability is part of what users may do.
- Convergence.ConvergentCluster: is about calls of Reconcile whose API calls are served, and no sync that copies in a circle of sources and targets.
- The interference property is about the calls of one reconcile; runs of several take reconciles one at a time, as the controller is set up to do.
- Logs, metrics, Kubernetes events, the watch predicate, the requeue interval and the manager setup.
