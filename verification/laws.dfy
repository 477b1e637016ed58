/** What users are promised of every reconcile and cleanup, in the plain terms of specs, filters and annotations. */
module Laws {
  import opened Types
  import opened Filters
  import opened Copies
  import opened Terms
  import opened Conflicts
  import opened Steps
  import opened Rounds
  import opened Worlds
  import opened Statuses
  import opened ApiServers
  import opened Progress
  import opened Handling
  import opened Chains
  import opened Reconcilers

  // The rules in plain terms.

  /** A reconcile attempts exactly the wanted names in the existing namespaces in reach. */
  lemma SelectionMeans(glob: Glob, s: Spec, nss: set<string>, k: Key)
    ensures k in SelectedKeys(glob, s, nss) <==> k.ns in nss && InReach(s, k.ns) && Wants(glob, s, k)
  {
    ClaimsMatchBehaviour(glob, s, nss, k);
    CopiedMeans(glob, s, s.source, k);
  }

  /** A cleanup covers the listed names in the existing namespaces in reach, filtered or not. */
  lemma CoverageMeans(s: Spec, nss: set<string>, k: Key)
    ensures k in CoveredKeys(s, nss) <==> k.ns in nss && InReach(s, k.ns) && Lists(s, k)
  {
    ReachMeans(s, k.ns);
  }

  lemma RefusedMeans(job: Job, k: Key, cur: Option<Content>)
    ensures Refused(job, k, cur) <==> Barred(job.glob, job.peers, job.spec, k, cur)
    ensures LeavesSource(job, k) <==> k.ns !in job.spec.targets && IsRead(job.glob, job.peers, k)
  {
    ReadMeans(job.glob, job.peers, k);
    if cur.Some? {
      AllowedMeans(job.glob, job.peers, job.spec.source, Explicit(job.spec, k), k, cur.value);
    }
  }

  /** The specs of the other syncs that are not being deleted. */
  ghost function Others(w: World, id: SyncId): set<Spec> {
    set q | q in w.syncs && q != id && !w.syncs[q].deleting :: w.syncs[q].spec
  }

  /** The object the sync would copy to k. */
  function SourceKey(s: Spec, k: Key): Key {
    Key(k.kind, s.source, k.name)
  }

  // One reconcile or cleanup, whatever calls fail in it.

  /** A sync keeps out of namespaces it excludes, does not list although it lists some, or reads from, out of the system
      namespaces, and off names it does not list; while it is live also off names its filters hold back. */
  lemma StaysOut(glob: Glob, admit: Admission, w: World, id: SyncId, now: string, w': World, k: Key)
    requires Next(glob, admit, w, Reconcile(id, now), w') && id in w.syncs
    requires var s := w.syncs[id].spec;
      || k.ns in s.exclude || k.ns == s.source || (s.targets != [] && k.ns !in s.targets)
      || k.ns in {"kube-system", "kube-public", "kube-node-lease", "default", "k8s-namespace-sync-system"}
      || !Lists(s, k) || (!w.syncs[id].deleting && !Wants(glob, s, k))
    ensures At(w'.store, k) == At(w.store, k)
  {
    SelectionMeans(glob, w.syncs[id].spec, w.namespaces, k);
    CoverageMeans(w.syncs[id].spec, w.namespaces, k);
  }

  /** No reconcile changes an object of a kind whose filter excludes its name. */
  lemma FilteredKept(glob: Glob, admit: Admission, w: World, id: SyncId, now: string, w': World, k: Key, p: string)
    requires Next(glob, admit, w, Reconcile(id, now), w') && id in w.syncs && !w.syncs[id].deleting
    requires var s := w.syncs[id].spec; var filter := if k.kind == Secret then s.secretFilter else s.configMapFilter;
      filter.Some? && p in filter.value.excl && glob(p, k.name) != NoMatch
    ensures At(w'.store, k) == At(w.store, k)
  {
    StaysOut(glob, admit, w, id, now, w', k);
  }

  /** A sync whose spec a pattern makes invalid, or that lists nothing, does nothing. */
  lemma InvalidIdle(glob: Glob, admit: Admission, w: World, id: SyncId, now: string, w': World, p: string)
    requires Next(glob, admit, w, Reconcile(id, now), w') && id in w.syncs && !w.syncs[id].deleting
    requires var s := w.syncs[id].spec;
      || (s.secrets == [] && s.configMaps == [])
      || (glob(p, "") == Malformed && p in PatternsOf(s.secretFilter) + PatternsOf(s.configMapFilter))
    ensures w' == w
  {
    ValidMeans(glob, w.syncs[id].spec);
  }

  /** What another live sync holds is not touched while the source is there. */
  lemma BarredKept(glob: Glob, admit: Admission, w: World, id: SyncId, now: string, w': World, k: Key)
    requires Next(glob, admit, w, Reconcile(id, now), w') && id in w.syncs && !w.syncs[id].deleting
    requires Barred(glob, Others(w, id), w.syncs[id].spec, k, At(w.store, k))
    requires SourceKey(w.syncs[id].spec, k) in w.store
    ensures At(w'.store, k) == At(w.store, k)
  {
    var job := JobFor(glob, admit, w.syncs, id, now);
    RefusedMeans(job, k, At(w.store, k));
    assert At(w'.store, k) == At(w.store, k) || At(w'.store, k) == CellAfter(job, w.namespaces, w.store, k);
  }

  /** An object made by hand is untouched by a sync that does not list its namespace. */
  lemma HandMadeKept(glob: Glob, admit: Admission, w: World, id: SyncId, now: string, w': World, k: Key)
    requires Next(glob, admit, w, Reconcile(id, now), w')
    requires k in w.store && OwnerOf(w.store[k]) == ""
    requires id in w.syncs && !w.syncs[id].deleting ==> k.ns !in w.syncs[id].spec.targets
    ensures At(w'.store, k) == At(w.store, k)
  {
    if id in w.syncs && !w.syncs[id].deleting && SourceKey(w.syncs[id].spec, k) in w.store {
      BarredKept(glob, admit, w, id, now, w', k);
    }
  }

  /** A sync that does not list the namespace leaves alone what another live sync reads there: it creates nothing, and
      neither overwrites nor removes anything, not even its own copy. A sync being deleted leaves it alone anyway. */
  lemma PeerSourceLeft(glob: Glob, admit: Admission, w: World, id: SyncId, now: string, w': World, k: Key, q: SyncId)
    requires Next(glob, admit, w, Reconcile(id, now), w') && id in w.syncs
    requires q in w.syncs && q != id && !w.syncs[q].deleting
    requires w.syncs[q].spec.source == k.ns && Wants(glob, w.syncs[q].spec, k)
    requires w.syncs[id].deleting || k.ns !in w.syncs[id].spec.targets
    ensures At(w'.store, k) == At(w.store, k)
  {
    var job := JobFor(glob, admit, w.syncs, id, now);
    assert w.syncs[q].spec in job.peers;
    ReadMeans(glob, job.peers, k);
    if !w.syncs[id].deleting {
      assert At(w'.store, k) == At(w.store, k) || At(w'.store, k) == CellAfter(job, w.namespaces, w.store, k);
    }
  }

  /** A cleanup leaves alone what another live sync attempts itself from the same source. */
  lemma SharedCopyKept(glob: Glob, admit: Admission, w: World, id: SyncId, now: string, w': World, k: Key, q: SyncId)
    requires Next(glob, admit, w, Reconcile(id, now), w') && id in w.syncs && w.syncs[id].deleting
    requires q in w.syncs && q != id && !w.syncs[q].deleting && w.syncs[q].spec.source == w.syncs[id].spec.source
    requires k in SelectedKeys(glob, w.syncs[q].spec, w.namespaces)
    ensures At(w'.store, k) == At(w.store, k)
  {
    var job := JobFor(glob, admit, w.syncs, id, now);
    SelectionMeans(glob, w.syncs[q].spec, w.namespaces, k);
    assert w.syncs[q].spec in job.peers && Uses(glob, w.syncs[q].spec, job.spec.source, k);
    NeededMeans(glob, job.peers, job.spec.source, k);
  }

  /** Nothing is ever removed but a sync's own copies, by both annotations. */
  lemma OthersNotRemoved(glob: Glob, admit: Admission, w: World, id: SyncId, now: string, w': World, k: Key)
    requires Next(glob, admit, w, Reconcile(id, now), w')
    requires k in w.store && (id in w.syncs ==> !IsCopyOf(w.store[k], w.syncs[id].spec.source, k.name))
    ensures k in w'.store
  {
    assert At(w.store, k).Some? && (k !in w'.store ==> At(w'.store, k).None?);
  }

  // One reconcile or cleanup with every call served.

  /** The id is a live sync with a valid spec that attempts k. */
  ghost predicate AttemptsKey(glob: Glob, w: World, id: SyncId, k: Key) {
    && WellFormed(w) && id in w.syncs && !w.syncs[id].deleting && ValidSpec(glob, w.syncs[id].spec)
    && k.ns in w.namespaces && InReach(w.syncs[id].spec, k.ns) && Wants(glob, w.syncs[id].spec, k)
  }

  lemma AttemptedStep(glob: Glob, admit: Admission, w: World, id: SyncId, now: string, k: Key)
    requires AttemptsKey(glob, w, id, k)
    ensures var job := JobFor(glob, admit, w.syncs, id, now);
      && job.peers == Others(w, id)
      && At(ReconcileWorld(glob, admit, w, id, now).store, k)
           == Step(job, k, At(w.store, SourceKey(job.spec, k)), At(w.store, k))
  {
    SelectionMeans(glob, w.syncs[id].spec, w.namespaces, k);
    ReconciledAt(JobFor(glob, admit, w.syncs, id, now), w.namespaces, w.store, k);
  }

  const STAMPS := {
    "namespacesync.nsync.dev/source-namespace",
    "namespacesync.nsync.dev/source-name",
    "namespacesync.nsync.dev/last-sync"
  }

  /** What the copy of src shows of a label or annotation that is not one of the three stamps. */
  function Shown(src: Content, e: Entry): Option<string> {
    if "kubernetes.io/" <= e.key || "kubectl.kubernetes.io/" <= e.key then None
    else if e.Label? then (if e.key in src.labels then Some(src.labels[e.key]) else None)
    else if e.key in src.annotations then Some(src.annotations[e.key])
    else None
  }

  /** What no other sync holds becomes the copy of the source: its data, the labels and annotations that are not about
      the source object itself, as far as admission leaves them alone, and the stamps, of which the time stays as long
      as the data does. */
  lemma FreeWritten(glob: Glob, admit: Admission, w: World, id: SyncId, now: string, k: Key, e: Entry)
    requires TameAdmission(admit) && AttemptsKey(glob, w, id, k)
    requires SourceKey(w.syncs[id].spec, k) in w.store
    requires !Barred(glob, Others(w, id), w.syncs[id].spec, k, At(w.store, k))
    ensures var after := ReconcileWorld(glob, admit, w, id, now).store;
      var src := w.store[SourceKey(w.syncs[id].spec, k)];
      var stamp := "namespacesync.nsync.dev/last-sync";
      && k in after
      && after[k].payload == src.payload
      && IsCopyOf(after[k], w.syncs[id].spec.source, k.name)
      && stamp in after[k].annotations
      && after[k].annotations[stamp] ==
           (if k in w.store && stamp in w.store[k].annotations && w.store[k].payload == src.payload
            then w.store[k].annotations[stamp] else now)
      && (Keeps(admit, e) && (e.Label? || e.key !in STAMPS) ==> ValueOf(after[k], e) == Shown(src, e))
  {
    var job := JobFor(glob, admit, w.syncs, id, now);
    var src := w.store[SourceKey(job.spec, k)];
    AttemptedStep(glob, admit, w, id, now, k);
    RefusedMeans(job, k, At(w.store, k));
    WrittenInSync(job, k, src, At(w.store, k));
    WrittenOwned(job, k, src, At(w.store, k));
    WrittenStamp(job, k, src, At(w.store, k));
    CopyCarries(job, k, src, At(w.store, k), e);
  }

  /** The stamp of what is written is the stored one if the data stays, else the time. */
  lemma WrittenStamp(job: Job, k: Key, src: Content, cur: Option<Content>)
    requires CalmAdmission(job.admit)
    ensures Stamp(Written(job, k, src, cur)) ==
      if cur.Some? && Stamp(cur.value).Some? && cur.value.payload == src.payload then Stamp(cur.value)
      else Some(job.now)
  {
  }

  /** Where the source is missing the sync removes its own copy and nothing else, unless another live sync reads the
      object and the sync does not list the namespace. */
  lemma MissingSource(glob: Glob, admit: Admission, w: World, id: SyncId, now: string, k: Key)
    requires AttemptsKey(glob, w, id, k) && SourceKey(w.syncs[id].spec, k) !in w.store
    ensures var s := w.syncs[id].spec; var after := ReconcileWorld(glob, admit, w, id, now).store;
      if k in w.store && IsCopyOf(w.store[k], s.source, k.name)
         && (k.ns in s.targets || !IsRead(glob, Others(w, id), k))
      then k !in after else At(after, k) == At(w.store, k)
  {
    AttemptedStep(glob, admit, w, id, now, k);
    RefusedMeans(JobFor(glob, admit, w.syncs, id, now), k, At(w.store, k));
  }

  /** A cleanup removes exactly the sync's own copies under listed names in reach that no other live sync uses. */
  lemma CleanupRemoves(glob: Glob, admit: Admission, w: World, id: SyncId, now: string, k: Key)
    requires WellFormed(w) && id in w.syncs && w.syncs[id].deleting && Holds(w.syncs, id)
    ensures var s := w.syncs[id].spec; var after := ReconcileWorld(glob, admit, w, id, now).store;
      if k in w.store && InReach(s, k.ns) && Lists(s, k) && IsCopyOf(w.store[k], s.source, k.name)
         && forall q :: q in w.syncs && q != id && !w.syncs[q].deleting ==> !Uses(glob, w.syncs[q].spec, s.source, k)
      then k !in after else At(after, k) == At(w.store, k)
  {
    var job := JobFor(glob, admit, w.syncs, id, now);
    CoverageMeans(job.spec, w.namespaces, k);
    NeededMeans(glob, job.peers, job.spec.source, k);
    CleanedUpAt(job, w.namespaces, w.store, k);
    assert forall q :: q in w.syncs && q != id && !w.syncs[q].deleting ==> w.syncs[q].spec in job.peers;
  }

  /** A served reconcile of a live valid sync adds the finalizer to it; one of a sync being deleted takes it away, and
      the sync goes with its last finalizer. No other sync changes. */
  lemma FinalizerMoves(glob: Glob, admit: Admission, w: World, id: SyncId, now: string, q: SyncId)
    requires WellFormed(w) && id in w.syncs
    ensures var f := "namespacesync.nsync.dev/finalizer"; var had := w.syncs[id].finalizers;
      var after := ReconcileWorld(glob, admit, w, id, now).syncs;
      && (w.syncs[id].deleting && f in had ==> (id in after <==> had != {f}))
      && (w.syncs[id].deleting && id in after ==> after[id].finalizers == had - {f})
      && (!w.syncs[id].deleting ==>
            id in after && after[id].finalizers == if ValidSpec(glob, w.syncs[id].spec) then had + {f} else had)
      && (q != id ==> (q in after <==> q in w.syncs) && (q in after ==> after[q] == w.syncs[q]))
  {
  }

  // Whole runs.

  /** No live sync lists the namespace, or some live sync reads the object. */
  ghost predicate KeptSafe(glob: Glob, w: World, k: Key) {
    || (forall q :: q in w.syncs && !w.syncs[q].deleting ==> k.ns !in w.syncs[q].spec.targets)
    || (exists q :: q in w.syncs && !w.syncs[q].deleting
          && w.syncs[q].spec.source == k.ns && Wants(glob, w.syncs[q].spec, k))
  }

  /** An object made by hand stays as it is through any run in which, at every moment, no live sync lists its namespace
      or some live sync reads it, as long as its namespace exists and no user edits it. */
  lemma {:induction false} HandMadeUntouched(glob: Glob, admit: Admission, worlds: seq<World>, events: seq<Event>,
      k: Key, n: nat)
    requires Trace(glob, admit, worlds, events) && n < |worlds|
    requires forall i :: 0 <= i < |worlds| ==> KeptSafe(glob, worlds[i], k) && k.ns in worlds[i].namespaces
    requires forall i :: 0 <= i < |events| ==> !(events[i].Edit? && events[i].key == k)
    requires k in worlds[0].store && OwnerOf(worlds[0].store[k]) == ""
    ensures At(worlds[n].store, k) == At(worlds[0].store, k)
    decreases n
  {
    if n > 0 {
      HandMadeUntouched(glob, admit, worlds, events, k, n - 1);
      var ev := events[n - 1];
      assert Next(glob, admit, worlds[n - 1], ev, worlds[n - 1 + 1]);
      assert k in worlds[n - 1].store && worlds[n - 1].store[k] == worlds[0].store[k];
      if ev.Reconcile? {
        HandMadeStep(glob, admit, worlds[n - 1], ev.id, ev.now, worlds[n], k);
      }
    }
  }

  lemma HandMadeStep(glob: Glob, admit: Admission, w: World, id: SyncId, now: string, w': World, k: Key)
    requires Next(glob, admit, w, Reconcile(id, now), w') && KeptSafe(glob, w, k)
    requires k in w.store && OwnerOf(w.store[k]) == ""
    ensures At(w'.store, k) == At(w.store, k)
  {
    if id !in w.syncs || w.syncs[id].deleting || k.ns !in w.syncs[id].spec.targets {
      HandMadeKept(glob, admit, w, id, now, w', k);
    } else {
      var q :| q in w.syncs && !w.syncs[q].deleting
        && w.syncs[q].spec.source == k.ns && Wants(glob, w.syncs[q].spec, k);
      if q == id {
        StaysOut(glob, admit, w, id, now, w', k);
      } else if SourceKey(w.syncs[id].spec, k) in w.store {
        assert w.syncs[q].spec in Others(w, id);
        BarredKept(glob, admit, w, id, now, w', k);
      }
    }
  }

  // What is logged and reported.

  /** A lawful write, in plain terms: a sync writes only wanted names in reach, over nothing or over what no other
      holds, by default never where another reads, and always a copy with the data the source had meanwhile. It removes
      its own copies only, a cleanup those under listed names that no other sync uses, a sync where the source was
      missing meanwhile. */
  lemma LawfulMeans(phase: Phase, job: Job, since: nat, past: seq<Objects>, w: Write)
    requires Lawful(phase, job, since, past, w) && TameAdmission(job.admit)
    ensures InReach(job.spec, w.key.ns) && Lists(job.spec, w.key)
    ensures phase == Syncing ==> Wants(job.glob, job.spec, w.key)
    ensures phase == Syncing && w.after.Some? ==> !Barred(job.glob, job.peers, job.spec, w.key, ReplacedBy(w))
    ensures phase == Syncing && w.key.ns !in job.spec.targets ==> !IsRead(job.glob, job.peers, w.key)
    ensures phase == Cleaning ==>
      w.after.None? && forall p :: p in job.peers ==> !Uses(job.glob, p, job.spec.source, w.key)
    ensures w.after.None? ==> w.before.Some? && IsCopyOf(w.before.value.content, job.spec.source, w.key.name)
    ensures w.after.None? && phase == Syncing ==>
      exists t :: since <= t < |past| && SourceKey(job.spec, w.key) !in past[t]
    ensures w.after.Some? ==>
      && IsCopyOf(w.after.value.content, job.spec.source, w.key.name)
      && exists t :: since <= t < |past| && SourceKey(job.spec, w.key) in past[t]
           && w.after.value.content.payload == past[t][SourceKey(job.spec, w.key)].content.payload
  {
    if w.after.Some? {
      var t :| since <= t < |past| && CopiesFrom(job, past[t], w);
      var src := past[t][SourceKey(job.spec, w.key)].content;
      WrittenOwned(job, w.key, src, ReplacedBy(w));
      WrittenInSync(job, w.key, src, ReplacedBy(w));
    }
    ReachMeans(job.spec, w.key.ns);
    WantsMeans(job.glob, job.spec, w.key);
    RefusedMeans(job, w.key, ReplacedBy(w));
    NeededMeans(job.glob, job.peers, job.spec.source, w.key);
  }

  predicate HasFinalizer(syncs: Syncs, id: SyncId) {
    id in syncs && "namespacesync.nsync.dev/finalizer" in syncs[id].finalizers
  }

  /** What the rules of a reconcile say in plain terms, whatever users do meanwhile: it writes only while the sync holds
      the finalizer, and one that takes the finalizer from a sync being deleted has seen every listed name in reach that
      no other sync uses without a copy. */
  lemma RulesMean(job: Job, sync: NamespaceSync, before: Syncs, after: Syncs, nss: set<string>, since: Instant,
      writes: seq<Write>, past: seq<Objects>, k: Key)
    requires sync.id in before && before[sync.id] == sync && job.spec == sync.spec
    requires KeepsRules(job, sync, before, after, nss, since, writes, past)
    ensures forall i :: since.writes <= i < |writes| ==> HasFinalizer(writes[i].syncs, sync.id)
    ensures HasFinalizer(before, sync.id) && !HasFinalizer(after, sync.id) ==>
      && sync.deleting
      && (k.ns in nss && InReach(sync.spec, k.ns) && Lists(sync.spec, k)
          && (forall p :: p in job.peers ==> !Uses(job.glob, p, sync.spec.source, k)) ==>
            exists t :: since.state <= t < |past|
              && (k in past[t] ==> !IsCopyOf(past[t][k].content, sync.spec.source, k.name)))
  {
    CoverageMeans(sync.spec, nss, k);
    NeededMeans(job.glob, job.peers, sync.spec.source, k);
    if sync.deleting && k in CoveredKeys(sync.spec, nss) && !Needed(job.glob, job.peers, sync.spec.source, k)
        && after != before {
      var t :| since.state <= t < |past| && !HoldsCopy(past[t], sync.spec.source, k);
      assert k in past[t] ==> !IsCopyOf(past[t][k].content, sync.spec.source, k.name);
    }
  }

  /** A name no other sync uses, under which a cleanup left a copy, counts as not cleaned. */
  lemma UncleanMeans(job: Job, nss: set<string>, before: Store, after: Store, k: Key)
    requires k.ns in nss && InReach(job.spec, k.ns) && Lists(job.spec, k)
    requires forall p :: p in job.peers ==> !Uses(job.glob, p, job.spec.source, k)
    requires k in after && IsCopyOf(after[k], job.spec.source, k.name)
    ensures k in Unclean(job, nss, before, after)
  {
    CoverageMeans(job.spec, nss, k);
    NeededMeans(job.glob, job.peers, job.spec.source, k);
  }

  /** Where no content changed, no object got a new version, and only the status of the sync at work may change. */
  lemma OthersStay(start: Objects, end: Objects, before: map<SyncId, Status>, after: map<SyncId, Status>, id: SyncId)
    requires NoIdleWrite(start, end) && OthersSame(before, after, id)
    ensures (forall k :: Cell(end, k) == Cell(start, k)) ==> end == start
    ensures forall q :: q != id ==> (q in after <==> q in before) && (q in after ==> after[q] == before[q])
  {
    forall q | q != id ensures (q in after <==> q in before) && (q in after ==> after[q] == before[q]) {
      assert StatusAt(after, q) == StatusAt(before, q);
    }
    if forall k :: Cell(end, k) == Cell(start, k) {
      forall k ensures At(Contents(end), k) == At(Contents(start), k) {
        assert Cell(end, k) == Cell(start, k);
      }
      SameCells(Contents(end), Contents(start));
    }
  }

  /** The namespaces reported as synced or failed are those in reach, and where no other error occurred the conflicts
      are exactly the wanted names that have a source and are barred. */
  lemma StatusMeans(job: Job, nss: set<string>, start: Objects, end: Objects, st: Status, k: Key)
    requires Faithful(job.spec, nss, st) && Concluded(job, nss, start, end, st.synced, st.failed)
    ensures k.ns in st.synced || k.ns in st.failed <==> k.ns in nss && InReach(job.spec, k.ns)
    ensures k.ns in st.failed && !st.failed[k.ns].failed ==>
      (k in st.failed[k.ns].conflicts <==>
         && Wants(job.glob, job.spec, k) && SourceKey(job.spec, k) in start
         && Barred(job.glob, job.peers, job.spec, k, Cell(start, k)))
    ensures k.ns in st.synced && Wants(job.glob, job.spec, k) && SourceKey(job.spec, k) in start ==>
      !Barred(job.glob, job.peers, job.spec, k, Cell(start, k))
  {
    ReachMeans(job.spec, k.ns);
    SelectionMeans(job.glob, job.spec, {k.ns}, k);
    RefusedMeans(job, k, Cell(start, k));
    if k.ns in st.synced {
      assert Conflict(job, start, k) && k in SelectedKeys(job.glob, job.spec, {k.ns}) ==> k in [];
    }
  }
}
