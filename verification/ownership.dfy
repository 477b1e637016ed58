/** How an object changes owner, and when its last-sync stamp moves, along any run, API failures included. */
module Ownership {
  import opened Types
  import opened Filters
  import opened Copies
  import opened Conflicts
  import opened Steps
  import opened Rounds
  import opened Worlds

  /** How firmly the object at k belongs to somebody: 0 hand-made or orphaned, 1 claimed by default only, 2 listed. */
  ghost function Rank(glob: Glob, live: set<Spec>, k: Key, o: Content): nat {
    if From(o) == "" || !Claimed(glob, live, From(o), k) then 0
    else if !Listed(glob, live, From(o), k) then 1
    else 2
  }

  /** A write of the sync that changes the owner of an object strictly raises its rank among all live specs. */
  lemma WriteRaisesRank(job: Job, k: Key, src: Content, o: Content)
    requires TameAdmission(job.admit) && job.spec.source != "" && job.spec in job.peers
    requires Selects(job.glob, job.spec, k) && !Refused(job, k, Some(o)) && From(o) != job.spec.source
    ensures From(Written(job, k, src, Some(o))) == job.spec.source
    ensures Rank(job.glob, job.peers, k, Written(job, k, src, Some(o))) > Rank(job.glob, job.peers, k, o)
  {
    WrittenOwned(job, k, src, Some(o));
    assert SyncsCopy(job.glob, job.spec, job.spec.source, k);
    assert Claimed(job.glob, job.peers, job.spec.source, k);
    assert Explicit(job.spec, k) ==> Listed(job.glob, job.peers, job.spec.source, k);
  }

  /** A cleanup, complete or not, keeps what it spares. */
  lemma CleanupKeepsOwner(job: Job, nss: set<string>, before: Store, after: Store, k: Key)
    requires PartlyCleaned(job, nss, before, after)
    ensures k in after ==> k in before && after[k] == before[k]
  {
    assert At(after, k) == At(before, k) || At(after, k) == CleanStep(job, k, At(before, k));
  }

  /** Whatever calls fail in it, a reconcile that changes the owner of an object strictly raises its rank. */
  lemma OwnerChangeRaisesRank(glob: Glob, admit: Admission, w: World, ev: Event, w': World, k: Key)
    requires TameAdmission(admit) && ev.Reconcile? && Next(glob, admit, w, ev, w')
    requires k in w.store && k in w'.store && From(w'.store[k]) != From(w.store[k])
    ensures Rank(glob, LiveSpecs(w.syncs), k, w'.store[k]) > Rank(glob, LiveSpecs(w.syncs), k, w.store[k])
  {
    assert ev.id in w.syncs;
    var job := JobFor(glob, admit, w.syncs, ev.id, ev.now);
    if w.syncs[ev.id].deleting {
      if Holds(w.syncs, ev.id) {
        CleanupKeepsOwner(job, w.namespaces, w.store, w'.store, k);
      }
      assert false;
    }
    var all := job.(peers := job.peers + {job.spec});
    LiveIsPeersAndSelf(w.syncs, ev.id);
    assert At(w'.store, k) == CellAfter(job, w.namespaces, w.store, k);
    var src := At(w.store, job.spec.SourceOf(k));
    SelfIsNoPeer(job, k, src, At(w.store, k));
    WriteRaisesRank(all, k, src.value, w.store[k]);
  }

  /** How often the object at k changes owner in the first n steps. */
  ghost function OwnerChanges(worlds: seq<World>, k: Key, n: nat): nat
    requires n < |worlds| && forall i :: 0 <= i < |worlds| ==> k in worlds[i].store
  {
    if n == 0 then 0
    else OwnerChanges(worlds, k, n - 1) + if From(worlds[n].store[k]) == From(worlds[n - 1].store[k]) then 0 else 1
  }

  /** No ping-pong: with the specs of the live syncs fixed, an object that no user gives to another owner changes owner
      at most twice between deletions, less what rank it already has, in any run, API failures included. */
  lemma {:induction false} NoPingPong(glob: Glob, admit: Admission, worlds: seq<World>, events: seq<Event>,
      live: set<Spec>, k: Key, n: nat)
    requires TameAdmission(admit) && Trace(glob, admit, worlds, events) && n < |worlds|
    requires forall i :: 0 <= i < |worlds| ==> LiveSpecs(worlds[i].syncs) == live && k in worlds[i].store
    requires forall i :: 0 <= i < |events| && events[i].Edit? && events[i].key == k ==>
      From(worlds[i + 1].store[k]) == From(worlds[i].store[k])
    ensures OwnerChanges(worlds, k, n) + Rank(glob, live, k, worlds[0].store[k])
      <= Rank(glob, live, k, worlds[n].store[k]) <= 2
    decreases n
  {
    if n > 0 {
      NoPingPong(glob, admit, worlds, events, live, k, n - 1);
      var ev := events[n - 1];
      assert Next(glob, admit, worlds[n - 1], ev, worlds[n - 1 + 1]);
      if !ev.Reconcile? {
        assert ev.Edit? && ev.key == k ==> From(worlds[n - 1 + 1].store[k]) == From(worlds[n - 1].store[k]);
        assert (ev.Edit? && ev.key == k) || At(worlds[n].store, k) == At(worlds[n - 1].store, k);
      } else if From(worlds[n].store[k]) != From(worlds[n - 1].store[k]) {
        OwnerChangeRaisesRank(glob, admit, worlds[n - 1], ev, worlds[n], k);
      }
    }
  }

  /** A reconcile moves the last-sync stamp of a stored object exactly in a write that changes its data or type. */
  lemma StampMovesWithData(job: Job, nss: set<string>, store: Store, after: Store, k: Key)
    requires CalmAdmission(job.admit) && PartlyReconciled(job, nss, store, after)
    requires k in store && Stamp(store[k]).Some? && k in after
    ensures Stamp(after[k]) == if after[k].payload == store[k].payload then Stamp(store[k]) else Some(job.now)
  {
    var o := store[k];
    if after[k] != o {
      assert At(after, k) == CellAfter(job, nss, store, k);
      var src := store[job.spec.SourceOf(k)];
      var d := DesiredBy(job, k, src);
      DesiredFacts(src, job.spec.source, k.name, job.now, Stamp(o).value);
      assert Stamp(job.admit(k, KeepLastSync(o, d))) == Stamp(KeepLastSync(o, d));
      assert job.admit(k, KeepLastSync(o, d)).payload == d.payload;
    }
  }

  /** The stores along a run of reconciles, whoever the peers are at each. */
  ghost predicate ReconcileTrace(nss: set<string>, jobs: seq<Job>, stores: seq<Store>) {
    && |stores| == |jobs| + 1
    && forall i :: 0 <= i < |jobs| ==>
         CalmAdmission(jobs[i].admit) && PartlyReconciled(jobs[i], nss, stores[i], stores[i + 1])
  }

  /** As long as the data of a stored object stays, so does its last-sync stamp. */
  lemma {:induction false} StampKeptWithData(nss: set<string>, jobs: seq<Job>, stores: seq<Store>, k: Key, n: nat)
    requires ReconcileTrace(nss, jobs, stores) && n < |stores|
    requires k in stores[0] && Stamp(stores[0][k]).Some?
    requires forall i :: 0 <= i < |stores| ==> k in stores[i] && stores[i][k].payload == stores[0][k].payload
    ensures Stamp(stores[n][k]) == Stamp(stores[0][k])
    decreases n
  {
    if n > 0 {
      StampKeptWithData(nss, jobs, stores, k, n - 1);
      assert PartlyReconciled(jobs[n - 1], nss, stores[n - 1], stores[n - 1 + 1]);
      StampMovesWithData(jobs[n - 1], nss, stores[n - 1], stores[n], k);
    }
  }
}
