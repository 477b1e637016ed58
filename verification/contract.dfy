/** What an error-free reconcile leaves behind at every key, and that the order of its work does not matter. */
module Contract {
  import opened Types
  import opened Filters
  import opened Copies
  import opened Conflicts
  import opened Steps
  import opened Rounds

  ghost predicate SourceMissing(job: Job, store: Store, k: Key) {
    job.spec.SourceOf(k) !in store
  }

  ghost predicate InConflict(job: Job, store: Store, k: Key) {
    !SourceMissing(job, store, k) && Refused(job, k, At(store, k))
  }

  /** Each attempted key is in sync with its source, or reported as a conflict and untouched, or without a source
      and then without a managed copy, unless a peer's source is left alone there. */
  lemma ReconcileContract(job: Job, nss: set<string>, store: Store, k: Key)
    requires TameAdmission(job.admit) && job.spec.source != ""
    requires k in SelectedKeys(job.glob, job.spec, nss)
    ensures var after := Reconciled(job, nss, store); var sk := job.spec.SourceOf(k);
      && At(after, sk) == At(store, sk)
      && (SourceMissing(job, store, k) ==>
           if LeavesSource(job, k) then At(after, k) == At(store, k)
           else if k in store && IsManagedCopy(store[k], job.spec.source, k.name) then k !in after
           else At(after, k) == At(store, k))
      && (InConflict(job, store, k) ==> At(after, k) == At(store, k) && InConflict(job, after, k))
      && (!SourceMissing(job, store, k) && !InConflict(job, store, k) ==>
           k in after && InSync(job, k, store[sk], after[k]) && after[k].payload == store[sk].payload
           && IsManagedCopy(after[k], job.spec.source, k.name) && !InConflict(job, after, k))
  {
    var sk := job.spec.SourceOf(k);
    ReconciledAt(job, nss, store, k);
    ReconciledAt(job, nss, store, sk);
    if !SourceMissing(job, store, k) && !InConflict(job, store, k) {
      WrittenInSync(job, k, store[sk], At(store, k));
      WrittenOwned(job, k, store[sk], At(store, k));
      NotRefusedAgain(job, k, store[sk], At(store, k));
    }
  }

  /** Every key the sync does not attempt is left as it is, its sources among them. */
  lemma ReconcileFrame(job: Job, nss: set<string>, store: Store, k: Key)
    requires k.ns !in nss || !Selects(job.glob, job.spec, k)
    ensures At(Reconciled(job, nss, store), k) == At(store, k)
  {
  }

  lemma SecondVisitIdle(job: Job, later: Job, nss: set<string>, store: Store, k: Key)
    requires TameAdmission(job.admit) && job.spec.source != ""
    requires later == job.(now := later.now)
    ensures var after := Reconciled(job, nss, store);
      CellAfter(later, nss, after, k) == At(after, k)
      && (k in SelectedKeys(job.glob, job.spec, nss) ==> (InConflict(later, after, k) <==> InConflict(job, store, k)))
  {
    ReconciledAt(job, nss, store, k);
    if k in SelectedKeys(job.glob, job.spec, nss) {
      ReconcileContract(job, nss, store, k);
      StepIdempotent(job, later, k, At(store, job.spec.SourceOf(k)), At(store, k));
    }
  }

  /** A second reconcile, at any later time, writes nothing and reports the same conflicts. */
  lemma SecondReconcileIdle(job: Job, later: Job, nss: set<string>, store: Store)
    requires TameAdmission(job.admit) && job.spec.source != ""
    requires later == job.(now := later.now)
    ensures Reconciled(later, nss, Reconciled(job, nss, store)) == Reconciled(job, nss, store)
    ensures ConflictedIn(later, nss, Reconciled(job, nss, store)) == ConflictedIn(job, nss, store)
  {
    var after := Reconciled(job, nss, store);
    var again := Reconciled(later, nss, after);
    forall k
      ensures (k in again <==> k in after) && (k in after ==> again[k] == after[k])
      ensures k in SelectedKeys(job.glob, job.spec, nss) ==>
        (InConflict(later, after, k) <==> InConflict(job, store, k))
    {
      SecondVisitIdle(job, later, nss, store, k);
      ReconciledAt(later, nss, after, k);
      assert At(again, k) == At(after, k);
    }
    assert again == after;
  }

  // The work of a reconcile done key by key, in some order.

  function Put(store: Store, k: Key, cell: Option<Content>): Store {
    if cell.Some? then store[k := cell.value] else store - {k}
  }

  ghost function Visit(job: Job, store: Store, k: Key): Store {
    Put(store, k, Step(job, k, At(store, job.spec.SourceOf(k)), At(store, k)))
  }

  ghost function Visited(job: Job, store: Store, order: seq<Key>): Store
    decreases |order|
  {
    if |order| == 0 then store
    else var n := |order| - 1; Visit(job, Visited(job, store, order[..n]), order[n])
  }

  /** The keys at which a conflict is met on the way. */
  ghost function MetConflicts(job: Job, store: Store, order: seq<Key>): set<Key>
    decreases |order|
  {
    if |order| == 0 then {}
    else
      var n := |order| - 1;
      MetConflicts(job, store, order[..n]) +
      (if InConflict(job, Visited(job, store, order[..n]), order[n]) then {order[n]} else {})
  }

  /** Visiting keys one by one, repeatedly or not, takes each to where one step from the first store takes it. */
  lemma {:induction false} VisitedAt(job: Job, store: Store, order: seq<Key>, k: Key)
    requires TameAdmission(job.admit) && job.spec.source != ""
    requires forall q :: q in order ==> Selects(job.glob, job.spec, q)
    ensures At(Visited(job, store, order), k)
      == if k in order then Step(job, k, At(store, job.spec.SourceOf(k)), At(store, k)) else At(store, k)
    ensures k in MetConflicts(job, store, order) <==> k in order && InConflict(job, store, k)
    decreases |order|
  {
    if |order| > 0 {
      var n := |order| - 1;
      var q := order[n];
      var src := At(store, job.spec.SourceOf(k));
      assert order == order[..n] + [q];
      VisitedAt(job, store, order[..n], k);
      VisitedAt(job, store, order[..n], job.spec.SourceOf(k));
      assert job.spec.SourceOf(k) !in order;
      if k == q && k in order[..n] {
        StepIdempotent(job, job, k, src, At(store, k));
        if src.Some? && !Refused(job, k, At(store, k)) {
          NotRefusedAgain(job, k, src.value, At(store, k));
        }
      }
    }
  }

  /** Order independence: any order of the attempted keys, with repetitions, gives the pointwise result. */
  lemma AnyOrder(job: Job, nss: set<string>, store: Store, order: seq<Key>)
    requires TameAdmission(job.admit) && job.spec.source != ""
    requires forall k :: k in order <==> k in SelectedKeys(job.glob, job.spec, nss)
    ensures Visited(job, store, order) == Reconciled(job, nss, store)
    ensures (set k | k in MetConflicts(job, store, order) :: k.ns) == ConflictedIn(job, nss, store)
  {
    var a := Visited(job, store, order);
    var b := Reconciled(job, nss, store);
    forall k
      ensures (k in a <==> k in b) && (k in a ==> a[k] == b[k])
      ensures k in MetConflicts(job, store, order) <==> k in order && InConflict(job, store, k)
    {
      VisitedAt(job, store, order, k);
      ReconciledAt(job, nss, store, k);
      assert At(a, k) == At(b, k);
    }
  }

  /** Two specs that list the same names and namespaces, in any order and with repetitions. */
  ghost predicate SameLists(s: Spec, r: Spec) {
    && s.source == r.source && s.secretFilter == r.secretFilter && s.configMapFilter == r.configMapFilter
    && (forall x :: x in s.secrets <==> x in r.secrets)
    && (forall x :: x in s.configMaps <==> x in r.configMaps)
    && (forall x :: x in s.targets <==> x in r.targets)
    && (forall x :: x in s.exclude <==> x in r.exclude)
  }

  lemma ListOrderIrrelevant(job: Job, r: Spec, nss: set<string>, store: Store)
    requires SameLists(job.spec, r)
    ensures Reconciled(job.(spec := r), nss, store) == Reconciled(job, nss, store)
    ensures ConflictedIn(job.(spec := r), nss, store) == ConflictedIn(job, nss, store)
  {
    var other := job.(spec := r);
    assert |r.targets| > 0 ==> r.targets[0] in job.spec.targets;
    assert |job.spec.targets| > 0 ==> job.spec.targets[0] in r.targets;
    assert SelectedKeys(job.glob, r, nss) == SelectedKeys(job.glob, job.spec, nss);
    assert forall k :: LeavesSource(other, k) == LeavesSource(job, k);
    assert forall k, cur :: Refused(other, k, cur) == Refused(job, k, cur);
    assert forall k :: CellAfter(other, nss, store, k) == CellAfter(job, nss, store, k);
  }
}
