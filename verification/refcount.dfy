/** Copies several syncs share: which survive the deletion of syncs, in any order. */
module RefCount {
  import opened Types
  import opened Filters
  import opened Copies
  import opened Conflicts
  import opened Steps
  import opened Rounds
  import opened Worlds

  /** Marking a sync for deletion, and the cleanup of one that is marked. */
  datatype Deletion = Mark(id: SyncId) | Clean(id: SyncId)

  predicate Marked(w: World, id: SyncId) {
    Holds(w.syncs, id) && w.syncs[id].deleting
  }

  /** A cleanup has to be of a sync that is marked and holds its finalizer. */
  ghost function Deleted(glob: Glob, admit: Admission, w: World, d: Deletion): World {
    match d
    case Mark(id) => if id in w.syncs then w.(syncs := w.syncs[id := w.syncs[id].(deleting := true)]) else w
    case Clean(id) => if Marked(w, id) then ReconcileWorld(glob, admit, w, id, "") else w
  }

  ghost function DeletedAll(glob: Glob, admit: Admission, w: World, ds: seq<Deletion>): World
    decreases |ds|
  {
    if |ds| == 0 then w else DeletedAll(glob, admit, Deleted(glob, admit, w, ds[0]), ds[1..])
  }

  predicate HasCopy(store: Store, source: string, k: Key) {
    k in store && IsManagedCopy(store[k], source, k.name)
  }

  /** The step is a cleanup that covers the copy at k from source. */
  predicate Reaches(w: World, d: Deletion, source: string, k: Key) {
    && d.Clean? && Marked(w, d.id)
    && w.syncs[d.id].spec.source == source && Covers(w.syncs[d.id].spec, k) && k.ns in w.namespaces
  }

  /** After a cleanup the copy under a covered key is there if and only if it was there and a live peer needs it;
      every other object is untouched. */
  lemma CleanupCounts(glob: Glob, admit: Admission, w: World, id: SyncId, k: Key)
    requires Marked(w, id)
    ensures var w' := Deleted(glob, admit, w, Clean(id)); var source := w.syncs[id].spec.source;
      if Reaches(w, Clean(id), source, k) then
        && (HasCopy(w'.store, source, k) <==>
              HasCopy(w.store, source, k) && Needed(glob, PeerSpecs(w.syncs, id), source, k))
        && (HasCopy(w'.store, source, k) || !HasCopy(w.store, source, k) ==> At(w'.store, k) == At(w.store, k))
      else At(w'.store, k) == At(w.store, k)
  {
    var job := JobFor(glob, admit, w.syncs, id, "");
    CleanedUpAt(job, w.namespaces, w.store, k);
    ClaimsMatchBehaviour(glob, job.spec, w.namespaces, k);
  }

  /** Every cleanup along the way that reaches the copy finds a live peer that needs it. */
  ghost predicate Spared(glob: Glob, admit: Admission, w: World, ds: seq<Deletion>, source: string, k: Key)
    decreases |ds|
  {
    |ds| > 0 ==>
      && (Reaches(w, ds[0], source, k) ==> Needed(glob, PeerSpecs(w.syncs, ds[0].id), source, k))
      && Spared(glob, admit, Deleted(glob, admit, w, ds[0]), ds[1..], source, k)
  }

  /** Cleanups of other sources leave the copy alone, and what survives is unchanged. */
  lemma DeletionAt(glob: Glob, admit: Admission, w: World, d: Deletion, source: string, k: Key)
    requires source != "" && HasCopy(w.store, source, k)
    ensures var w' := Deleted(glob, admit, w, d);
      if Reaches(w, d, source, k) && !Needed(glob, PeerSpecs(w.syncs, d.id), source, k)
      then k !in w'.store else At(w'.store, k) == At(w.store, k)
  {
  }

  lemma {:induction false} GoneStaysGone(glob: Glob, admit: Admission, w: World, ds: seq<Deletion>, k: Key)
    requires k !in w.store
    ensures k !in DeletedAll(glob, admit, w, ds).store
    decreases |ds|
  {
    if |ds| > 0 {
      var d := ds[0];
      if d.Clean? && Marked(w, d.id) {
        CleanedUpAt(JobFor(glob, admit, w.syncs, d.id, ""), w.namespaces, w.store, k);
      }
      GoneStaysGone(glob, admit, Deleted(glob, admit, w, d), ds[1..], k);
    }
  }

  /** Over any order of marking and cleaning up, a copy survives, unchanged, if and only if every cleanup that
      reached it found it needed. */
  lemma {:induction false} SurvivesIffSpared(glob: Glob, admit: Admission, w: World, ds: seq<Deletion>,
      source: string, k: Key)
    requires source != "" && HasCopy(w.store, source, k)
    ensures var end := DeletedAll(glob, admit, w, ds);
      && (HasCopy(end.store, source, k) <==> Spared(glob, admit, w, ds, source, k))
      && (k in end.store ==> end.store[k] == w.store[k])
    decreases |ds|
  {
    if |ds| > 0 {
      DeletionAt(glob, admit, w, ds[0], source, k);
      var next := Deleted(glob, admit, w, ds[0]);
      if HasCopy(next.store, source, k) {
        SurvivesIffSpared(glob, admit, next, ds[1..], source, k);
      } else {
        GoneStaysGone(glob, admit, next, ds[1..], k);
      }
    }
  }

  lemma LiveShrinks(glob: Glob, admit: Admission, w: World, d: Deletion)
    ensures LiveSpecs(Deleted(glob, admit, w, d).syncs) <= LiveSpecs(w.syncs)
  {
  }

  lemma NeededMonotone(glob: Glob, fewer: set<Spec>, more: set<Spec>, source: string, k: Key)
    requires fewer <= more && Needed(glob, fewer, source, k)
    ensures Needed(glob, more, source, k)
  {
  }

  /** A marked sync is not its own peer, so its peers are all live syncs. */
  lemma PeersOfMarked(w: World, id: SyncId)
    requires Marked(w, id)
    ensures PeerSpecs(w.syncs, id) == LiveSpecs(w.syncs)
  {
  }

  /** A copy some sync still needs at the end was never deleted on the way. */
  lemma {:induction false} NeededAtEndSpared(glob: Glob, admit: Admission, w: World, ds: seq<Deletion>,
      source: string, k: Key)
    requires Needed(glob, LiveSpecs(DeletedAll(glob, admit, w, ds).syncs), source, k)
    ensures Needed(glob, LiveSpecs(w.syncs), source, k)
    ensures Spared(glob, admit, w, ds, source, k)
    decreases |ds|
  {
    if |ds| > 0 {
      var next := Deleted(glob, admit, w, ds[0]);
      NeededAtEndSpared(glob, admit, next, ds[1..], source, k);
      LiveShrinks(glob, admit, w, ds[0]);
      NeededMonotone(glob, LiveSpecs(next.syncs), LiveSpecs(w.syncs), source, k);
      if Reaches(w, ds[0], source, k) {
        PeersOfMarked(w, ds[0].id);
      }
    }
  }

  /** No cleanup along the way reaches the copy. */
  ghost predicate Unreached(glob: Glob, admit: Admission, w: World, ds: seq<Deletion>, source: string, k: Key)
    decreases |ds|
  {
    |ds| > 0 ==>
      !Reaches(w, ds[0], source, k) && Unreached(glob, admit, Deleted(glob, admit, w, ds[0]), ds[1..], source, k)
  }

  lemma {:induction false} UnreachedSpared(glob: Glob, admit: Admission, w: World, ds: seq<Deletion>,
      source: string, k: Key)
    requires Unreached(glob, admit, w, ds, source, k)
    ensures Spared(glob, admit, w, ds, source, k)
    decreases |ds|
  {
    if |ds| > 0 {
      UnreachedSpared(glob, admit, Deleted(glob, admit, w, ds[0]), ds[1..], source, k);
    }
  }

  /** Only the last cleanup to reach a copy decides: the copy survives the whole run, unchanged, if and only if a
      sync live at that cleanup needs it, whatever was marked and cleaned up before and after. */
  lemma LastCleanupDecides(glob: Glob, admit: Admission, w: World, ds: seq<Deletion>, last: Deletion,
      rest: seq<Deletion>, source: string, k: Key)
    requires source != "" && HasCopy(w.store, source, k)
    requires Reaches(DeletedAll(glob, admit, w, ds), last, source, k)
    requires Unreached(glob, admit, Deleted(glob, admit, DeletedAll(glob, admit, w, ds), last), rest, source, k)
    ensures var before := DeletedAll(glob, admit, w, ds);
      var end := DeletedAll(glob, admit, Deleted(glob, admit, before, last), rest);
      && (HasCopy(end.store, source, k) <==> Needed(glob, LiveSpecs(before.syncs), source, k))
      && (k in end.store ==> end.store[k] == w.store[k])
  {
    var before := DeletedAll(glob, admit, w, ds);
    var after := Deleted(glob, admit, before, last);
    PeersOfMarked(before, last.id);
    SurvivesIffSpared(glob, admit, w, ds, source, k);
    if Needed(glob, LiveSpecs(before.syncs), source, k) {
      NeededAtEndSpared(glob, admit, w, ds, source, k);
      DeletionAt(glob, admit, before, last, source, k);
      UnreachedSpared(glob, admit, after, rest, source, k);
      SurvivesIffSpared(glob, admit, after, rest, source, k);
    } else {
      if k in before.store {
        DeletionAt(glob, admit, before, last, source, k);
      } else {
        GoneNow(glob, admit, before, last, k);
      }
      GoneStaysGone(glob, admit, after, rest, k);
    }
  }

  lemma GoneNow(glob: Glob, admit: Admission, w: World, d: Deletion, k: Key)
    requires k !in w.store
    ensures k !in Deleted(glob, admit, w, d).store
  {
  }

  /** Some sync other than these two is live and claims the copy. */
  ghost predicate ThirdClaims(glob: Glob, w: World, first: SyncId, second: SyncId, source: string, k: Key) {
    exists id :: id in w.syncs && id != first && id != second && !w.syncs[id].deleting
      && SyncsCopy(glob, w.syncs[id].spec, source, k)
  }

  /** Deleting the first sync of a chain before the second leaves the copy between them behind: the second needs it
      as its source while the first is cleaned up, and never deletes copies of another source. Unless a third sync
      claims the copy, nobody owns it then. */
  lemma ChainLeavesCopy(glob: Glob, admit: Admission, w: World, first: SyncId, second: SyncId, k: Key)
    requires first in w.syncs && second in w.syncs && first != second
    requires Holds(w.syncs, first) && Holds(w.syncs, second) && !w.syncs[second].deleting
    requires var source := w.syncs[first].spec.source;
      && source != "" && HasCopy(w.store, source, k) && w.syncs[second].spec.source != source
    requires ReadsAsSource(glob, w.syncs[second].spec, k)
    ensures var source := w.syncs[first].spec.source;
      var end := DeletedAll(glob, admit, w, [Mark(first), Clean(first), Mark(second), Clean(second)]);
      && At(end.store, k) == At(w.store, k)
      && (Claimed(glob, LiveSpecs(end.syncs), source, k) <==> ThirdClaims(glob, w, first, second, source, k))
  {
    var source := w.syncs[first].spec.source;
    var w1 := Deleted(glob, admit, w, Mark(first));
    var w2 := Deleted(glob, admit, w1, Clean(first));
    var w3 := Deleted(glob, admit, w2, Mark(second));
    var w4 := Deleted(glob, admit, w3, Clean(second));
    assert w1.syncs[second].spec in PeerSpecs(w1.syncs, first);
    DeletionAt(glob, admit, w1, Clean(first), source, k);
    assert At(w2.store, k) == At(w.store, k);
    assert second in w3.syncs && w3.syncs[second].spec == w.syncs[second].spec;
    assert w3.store == w2.store;
    DeletionAt(glob, admit, w3, Clean(second), source, k);
    UnfoldFour(glob, admit, w, Mark(first), Clean(first), Mark(second), Clean(second));
    BothGone(glob, admit, w, w1, w2, w3, w4, first, second);
    ClaimedByThird(glob, w, w4, first, second, source, k);
  }

  /** Marking and cleaning up after two syncs leaves the other syncs as they are. */
  lemma BothGone(glob: Glob, admit: Admission, w: World, w1: World, w2: World, w3: World, w4: World, first: SyncId,
      second: SyncId)
    requires first in w.syncs && second in w.syncs && first != second
    requires w1 == Deleted(glob, admit, w, Mark(first)) && w2 == Deleted(glob, admit, w1, Clean(first))
    requires w3 == Deleted(glob, admit, w2, Mark(second)) && w4 == Deleted(glob, admit, w3, Clean(second))
    ensures OnlyTheseGone(w, w4, first, second)
  {
    DeletesOne(glob, admit, w, Mark(first));
    DeletesOne(glob, admit, w1, Clean(first));
    DeletesOne(glob, admit, w2, Mark(second));
    DeletesOne(glob, admit, w3, Clean(second));
  }

  /** A deletion concerns one sync. */
  lemma DeletesOne(glob: Glob, admit: Admission, w: World, d: Deletion)
    requires d.Clean? && d.id in w.syncs ==> w.syncs[d.id].deleting
    ensures var after := Deleted(glob, admit, w, d).syncs;
      && (forall id :: id != d.id ==> (id in after <==> id in w.syncs) && (id in after ==> after[id] == w.syncs[id]))
      && (d.id in after ==> after[d.id].deleting)
  {
  }

  ghost predicate OnlyTheseGone(w: World, end: World, first: SyncId, second: SyncId) {
    && (forall id :: id != first && id != second ==>
          (id in end.syncs <==> id in w.syncs) && (id in w.syncs ==> end.syncs[id] == w.syncs[id]))
    && (forall id :: id in end.syncs && (id == first || id == second) ==> end.syncs[id].deleting)
  }

  lemma ClaimedByThird(glob: Glob, w: World, end: World, first: SyncId, second: SyncId, source: string, k: Key)
    requires OnlyTheseGone(w, end, first, second)
    ensures Claimed(glob, LiveSpecs(end.syncs), source, k) <==> ThirdClaims(glob, w, first, second, source, k)
  {
  }

  lemma UnfoldFour(glob: Glob, admit: Admission, w: World, a: Deletion, b: Deletion, c: Deletion, d: Deletion)
    ensures DeletedAll(glob, admit, w, [a, b, c, d])
      == Deleted(glob, admit, Deleted(glob, admit, Deleted(glob, admit, Deleted(glob, admit, w, a), b), c), d)
  {
    var w1 := Deleted(glob, admit, w, a);
    var w2 := Deleted(glob, admit, w1, b);
    assert [a, b, c, d] == [a] + [b, c, d] && [b, c, d] == [b] + [c, d] && [c, d] == [c] + [d] && [d] == [d] + [];
    Unfold(glob, admit, w, a, [b, c, d]);
    Unfold(glob, admit, w1, b, [c, d]);
    Unfold(glob, admit, w2, c, [d]);
    Unfold(glob, admit, Deleted(glob, admit, w2, c), d, []);
  }

  lemma Unfold(glob: Glob, admit: Admission, w: World, d: Deletion, ds: seq<Deletion>)
    ensures DeletedAll(glob, admit, w, [d] + ds) == DeletedAll(glob, admit, Deleted(glob, admit, w, d), ds)
  {
  }
}
