/** Hand-made sources are never touched, and no copy is leaked: claims about every run, API failures included. */
module Safety {
  import opened Types
  import opened Filters
  import opened Copies
  import opened Conflicts
  import opened Steps
  import opened Rounds
  import opened Worlds

  /** The sync id is live and reads k as its source. */
  predicate Protects(glob: Glob, w: World, id: SyncId, k: Key) {
    id in w.syncs && !w.syncs[id].deleting && ReadsAsSource(glob, w.syncs[id].spec, k)
  }

  lemma ReconcileSparesSource(glob: Glob, admit: Admission, w: World, ev: Event, w': World, id: SyncId, k: Key)
    requires ev.Reconcile? && Next(glob, admit, w, ev, w')
    requires Protects(glob, w, id, k) && k in w.store && From(w.store[k]) == ""
    ensures At(w'.store, k) == At(w.store, k)
  {
  }

  /** Hand-made source safety: an object no sync created stays exactly as it is through any run, for as long as some
      live sync keeps reading it as its source, its namespace exists and no user edits it. */
  lemma {:induction false} HandMadeSourceSafe(glob: Glob, admit: Admission, worlds: seq<World>, events: seq<Event>,
      id: SyncId, k: Key, n: nat)
    requires Trace(glob, admit, worlds, events) && n < |worlds|
    requires forall i :: 0 <= i < |worlds| ==> Protects(glob, worlds[i], id, k) && k.ns in worlds[i].namespaces
    requires forall i :: 0 <= i < |events| ==> !(events[i].Edit? && events[i].key == k)
    requires k in worlds[0].store && From(worlds[0].store[k]) == ""
    ensures At(worlds[n].store, k) == At(worlds[0].store, k)
    decreases n
  {
    if n > 0 {
      HandMadeSourceSafe(glob, admit, worlds, events, id, k, n - 1);
      var ev := events[n - 1];
      assert Next(glob, admit, worlds[n - 1], ev, worlds[n - 1 + 1]);
      if ev.Reconcile? {
        ReconcileSparesSource(glob, admit, worlds[n - 1], ev, worlds[n], id, k);
      }
    }
  }

  /** The sync id wrote the object at k in step i: it was created or updated there. */
  ghost predicate Wrote(worlds: seq<World>, events: seq<Event>, i: nat, id: SyncId, k: Key) {
    && i < |events| && |worlds| == |events| + 1
    && events[i].Reconcile? && events[i].id == id
    && k in worlds[i + 1].store && At(worlds[i + 1].store, k) != At(worlds[i].store, k)
  }

  /** Step m is a finished cleanup of id, after which k holds no copy of its source unless a live peer needs it. */
  ghost predicate Released(glob: Glob, worlds: seq<World>, events: seq<Event>, m: nat, id: SyncId, k: Key) {
    && m < |events| && |worlds| == |events| + 1
    && events[m].Reconcile? && events[m].id == id
    && id in worlds[m].syncs && worlds[m].syncs[id].deleting
    && var source := worlds[m].syncs[id].spec.source;
       || Needed(glob, PeerSpecs(worlds[m].syncs, id), source, k)
       || k !in worlds[m + 1].store
       || !IsManagedCopy(worlds[m + 1].store[k], source, k.name)
  }

  /** No copy is written before the sync holds its finalizer. */
  lemma WriterHoldsFinalizer(glob: Glob, admit: Admission, worlds: seq<World>, events: seq<Event>, i: nat,
      id: SyncId, k: Key)
    requires Trace(glob, admit, worlds, events) && Wrote(worlds, events, i, id, k)
    ensures id in worlds[i].syncs && !worlds[i].syncs[id].deleting && Holds(worlds[i + 1].syncs, id)
    ensures k in SelectedKeys(glob, worlds[i].syncs[id].spec, worlds[i].namespaces)
  {
  }

  /** The finalizer goes only in a finished cleanup, which covers every key the spec selects. */
  lemma DropReleases(glob: Glob, admit: Admission, worlds: seq<World>, events: seq<Event>, m: nat, id: SyncId, k: Key)
    requires Trace(glob, admit, worlds, events) && m < |events|
    requires Holds(worlds[m].syncs, id) && !Holds(worlds[m + 1].syncs, id)
    requires Covers(worlds[m].syncs[id].spec, k)
    ensures Released(glob, worlds, events, m, id, k)
  {
  }

  /** Some step between i and j loses the finalizer. */
  lemma {:induction false} FindDrop(worlds: seq<World>, id: SyncId, i: nat, j: nat) returns (m: nat)
    requires i < j < |worlds|
    requires Holds(worlds[i].syncs, id) && !Holds(worlds[j].syncs, id)
    ensures i <= m < j && Holds(worlds[m].syncs, id) && !Holds(worlds[m + 1].syncs, id)
    decreases j
  {
    m := j - 1;
    if !Holds(worlds[m].syncs, id) {
      m := FindDrop(worlds, id, i, m);
    }
  }

  /** The sync keeps the spec it had, as long as it exists. */
  ghost predicate KeepsSpec(worlds: seq<World>, id: SyncId, spec: Spec) {
    forall i :: 0 <= i < |worlds| && id in worlds[i].syncs ==> worlds[i].syncs[id].spec == spec
  }

  /** Leak freedom: if a sync with a fixed spec wrote a copy and later no longer holds its finalizer, then in between
      a finished cleanup released that copy. */
  lemma LeakFree(glob: Glob, admit: Admission, worlds: seq<World>, events: seq<Event>, id: SyncId, spec: Spec,
      i: nat, j: nat, k: Key) returns (m: nat)
    requires Trace(glob, admit, worlds, events) && KeepsSpec(worlds, id, spec)
    requires Wrote(worlds, events, i, id, k)
    requires i < j < |worlds| && !Holds(worlds[j].syncs, id)
    ensures i < m < j && Released(glob, worlds, events, m, id, k)
  {
    WriterHoldsFinalizer(glob, admit, worlds, events, i, id, k);
    m := FindDrop(worlds, id, i + 1, j);
    DropReleases(glob, admit, worlds, events, m, id, k);
  }

  /** A deletion cannot be blocked, by a malformed filter for one: once its calls are served, the finalizer goes and
      no copy is left under the covered keys but those a live peer needs. */
  lemma DeletionFinishes(glob: Glob, admit: Admission, w: World, id: SyncId, now: string, k: Key)
    requires WellFormed(w) && Holds(w.syncs, id) && w.syncs[id].deleting
    requires Covers(w.syncs[id].spec, k)
    ensures var w' := ReconcileWorld(glob, admit, w, id, now);
      !Holds(w'.syncs, id) && Released(glob, [w, w'], [Reconcile(id, now)], 0, id, k)
  {
    var job := JobFor(glob, admit, w.syncs, id, now);
    CleanedUpAt(job, w.namespaces, w.store, k);
    ClaimsMatchBehaviour(glob, job.spec, w.namespaces, k);
  }
}
