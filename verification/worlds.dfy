/** The cluster as a state machine: reconciles whose API calls may fail, user edits, and changes to the syncs. */
module Worlds {
  import opened Types
  import opened Filters
  import opened Copies
  import opened Conflicts
  import opened Steps
  import opened Rounds

  datatype World = World(store: Store, syncs: Syncs, namespaces: set<string>)

  /** Objects live in existing namespaces, syncs are stored under their id and name a source namespace. */
  ghost predicate WellFormed(w: World) {
    && (forall k :: k in w.store ==> k.ns in w.namespaces)
    && (forall id :: id in w.syncs ==> w.syncs[id].id == id && w.syncs[id].spec.source != "")
  }

  function Held(syncs: Syncs, id: SyncId): Syncs
    requires id in syncs
  {
    syncs[id := syncs[id].(finalizers := syncs[id].finalizers + {FINALIZER})]
  }

  /** Removing the finalizer of a sync that is being deleted; the last finalizer to go takes the sync with it. */
  function Dropped(syncs: Syncs, id: SyncId): Syncs
    requires id in syncs
  {
    var rest := syncs[id].finalizers - {FINALIZER};
    if rest == {} then syncs - {id} else syncs[id := syncs[id].(finalizers := rest)]
  }

  predicate Holds(syncs: Syncs, id: SyncId) {
    id in syncs && FINALIZER in syncs[id].finalizers
  }

  ghost function JobFor(glob: Glob, admit: Admission, syncs: Syncs, id: SyncId, now: string): Job
    requires id in syncs
  {
    Job(glob, admit, PeerSpecs(syncs, id), syncs[id].spec, now)
  }

  lemma LiveIsPeersAndSelf(syncs: Syncs, id: SyncId)
    requires id in syncs && !syncs[id].deleting
    ensures LiveSpecs(syncs) == PeerSpecs(syncs, id) + {syncs[id].spec}
  {
  }

  /** A reconcile some of whose API calls may have failed: each attempted key had its step or is as before. */
  ghost predicate PartlyReconciled(job: Job, nss: set<string>, before: Store, after: Store) {
    forall k {:trigger At(after, k)} :: At(after, k) == At(before, k)
      || (k in SelectedKeys(job.glob, job.spec, nss) && At(after, k) == CellAfter(job, nss, before, k))
  }

  ghost predicate PartlyCleaned(job: Job, nss: set<string>, before: Store, after: Store) {
    forall k {:trigger At(after, k)} :: At(after, k) == At(before, k)
      || (k in CoveredKeys(job.spec, nss) && At(after, k) == CleanStep(job, k, At(before, k)))
  }

  /** The covered keys a cleanup did not bring to where it takes them. */
  ghost function Unclean(job: Job, nss: set<string>, before: Store, after: Store): set<Key> {
    set k | k in CoveredKeys(job.spec, nss) && At(after, k) != CleanStep(job, k, At(before, k))
  }

  /** What a reconcile of id may do when API calls can fail. */
  ghost predicate MayReconcile(glob: Glob, admit: Admission, w: World, id: SyncId, now: string, w': World) {
    && w'.namespaces == w.namespaces
    && if id !in w.syncs then w' == w
       else
         var job := JobFor(glob, admit, w.syncs, id, now);
         if w.syncs[id].deleting then MayCleanUp(job, w, id, w')
         else if !ValidSpec(glob, job.spec) then w' == w
         else
           && (w'.syncs == w.syncs || w'.syncs == Held(w.syncs, id))
           && (w'.store != w.store ==> Holds(w'.syncs, id))
           && PartlyReconciled(job, w.namespaces, w.store, w'.store)
  }

  /** The deletion of a sync: the finalizer goes only when the whole cleanup succeeded. */
  ghost predicate MayCleanUp(job: Job, w: World, id: SyncId, w': World)
    requires id in w.syncs
  {
    if !Holds(w.syncs, id) then w' == w
    else
      && PartlyCleaned(job, w.namespaces, w.store, w'.store)
      && (w'.syncs == w.syncs
          || (w'.syncs == Dropped(w.syncs, id) && w'.store == CleanedUp(job, w.namespaces, w.store)))
  }

  /** The same with every API call served. */
  ghost function ReconcileWorld(glob: Glob, admit: Admission, w: World, id: SyncId, now: string): World {
    if id !in w.syncs then w
    else
      var job := JobFor(glob, admit, w.syncs, id, now);
      if w.syncs[id].deleting then
        if !Holds(w.syncs, id) then w
        else World(CleanedUp(job, w.namespaces, w.store), Dropped(w.syncs, id), w.namespaces)
      else if !ValidSpec(glob, job.spec) then w
      else World(Reconciled(job, w.namespaces, w.store), Held(w.syncs, id), w.namespaces)
  }

  datatype Event =
    | Reconcile(id: SyncId, now: string)
    | Edit(key: Key, cell: Option<Content>)
    | Configure(syncs: Syncs, namespaces: set<string>)

  /** What users may do to the syncs: anything but change the source namespace, undo a deletion, or take the
      controller's finalizer away. */
  ghost predicate MayConfigure(before: Syncs, after: Syncs) {
    forall id :: id in before ==>
      && (id in after && before[id].deleting ==> after[id].deleting)
      && (id in after ==> after[id].spec.source == before[id].spec.source)
      && (Holds(before, id) ==> Holds(after, id))
  }

  ghost predicate Next(glob: Glob, admit: Admission, w: World, ev: Event, w': World) {
    WellFormed(w) && WellFormed(w') &&
    match ev
    case Reconcile(id, now) => MayReconcile(glob, admit, w, id, now, w')
    case Edit(k, cell) =>
      && w'.syncs == w.syncs
      && w'.namespaces == w.namespaces
      && forall q :: At(w'.store, q) == if q == k then cell else At(w.store, q)
    case Configure(syncs, nss) =>
      && w'.syncs == syncs
      && w'.namespaces == nss
      && MayConfigure(w.syncs, syncs)
      && forall q :: At(w'.store, q) == if q.ns in nss then At(w.store, q) else None
  }

  ghost predicate Trace(glob: Glob, admit: Admission, worlds: seq<World>, events: seq<Event>) {
    && |worlds| == |events| + 1
    && forall i :: 0 <= i < |events| ==> Next(glob, admit, worlds[i], events[i], worlds[i + 1])
  }

  /** Serving every call is one thing that may happen, and what it leads to is well formed. */
  lemma ServedIsAllowed(glob: Glob, admit: Admission, w: World, id: SyncId, now: string)
    requires WellFormed(w)
    ensures Next(glob, admit, w, Reconcile(id, now), ReconcileWorld(glob, admit, w, id, now))
  {
    var w' := ReconcileWorld(glob, admit, w, id, now);
    if id in w.syncs {
      var job := JobFor(glob, admit, w.syncs, id, now);
      forall k
        ensures At(Reconciled(job, w.namespaces, w.store), k) == CellAfter(job, w.namespaces, w.store, k)
        ensures At(CleanedUp(job, w.namespaces, w.store), k) == CleanedAt(job, w.namespaces, w.store, k)
      {
        ReconciledAt(job, w.namespaces, w.store, k);
        CleanedUpAt(job, w.namespaces, w.store, k);
      }
    }
  }
}
