/** Whole reconciles and sequences of them over one store, with the specs and namespaces fixed. */
module Rounds {
  import opened Types
  import opened Filters
  import opened Copies
  import opened Conflicts
  import opened Steps

  function ListedKeys(s: Spec, nss: set<string>): set<Key> {
    (set ns, name | ns in nss && name in s.secrets :: Key(Secret, ns, name)) +
    (set ns, name | ns in nss && name in s.configMaps :: Key(ConfigMap, ns, name))
  }

  /** The keys a reconcile attempts. */
  function SelectedKeys(glob: Glob, s: Spec, nss: set<string>): set<Key> {
    set k | k in ListedKeys(s, nss) && Selects(glob, s, k)
  }

  /** The keys a cleanup covers. */
  function CoveredKeys(s: Spec, nss: set<string>): set<Key> {
    set k | k in ListedKeys(s, nss) && Covers(s, k)
  }

  /** The conflict rules count a sync as claiming exactly the keys its own reconcile attempts. */
  lemma ClaimsMatchBehaviour(glob: Glob, s: Spec, nss: set<string>, k: Key)
    ensures k in SelectedKeys(glob, s, nss) <==> k.ns in nss && SyncsCopy(glob, s, s.source, k)
    ensures k in CoveredKeys(s, nss) <==> k.ns in nss && Covers(s, k)
  {
  }

  /** One key across a reconcile. */
  ghost function CellAfter(job: Job, nss: set<string>, store: Store, k: Key): Option<Content> {
    if k in SelectedKeys(job.glob, job.spec, nss)
    then Step(job, k, At(store, job.spec.SourceOf(k)), At(store, k))
    else At(store, k)
  }

  /** The store after an error-free reconcile: every key on its own, from the store before. */
  ghost function Reconciled(job: Job, nss: set<string>, store: Store): Store {
    map k | k in store.Keys + SelectedKeys(job.glob, job.spec, nss) && CellAfter(job, nss, store, k).Some?
      :: CellAfter(job, nss, store, k).value
  }

  lemma ReconciledAt(job: Job, nss: set<string>, store: Store, k: Key)
    ensures At(Reconciled(job, nss, store), k) == CellAfter(job, nss, store, k)
  {
  }

  /** The namespaces in which an error-free reconcile reports a conflict. */
  ghost function ConflictedIn(job: Job, nss: set<string>, store: Store): set<string> {
    set k | k in SelectedKeys(job.glob, job.spec, nss)
      && At(store, job.spec.SourceOf(k)).Some? && Refused(job, k, At(store, k)) :: k.ns
  }

  /** The store after an error-free cleanup. */
  ghost function CleanedAt(job: Job, nss: set<string>, store: Store, k: Key): Option<Content> {
    if k in CoveredKeys(job.spec, nss) then CleanStep(job, k, At(store, k)) else At(store, k)
  }

  ghost function CleanedUp(job: Job, nss: set<string>, store: Store): Store {
    map k | k in store && CleanedAt(job, nss, store, k).Some? :: store[k]
  }

  lemma CleanedUpAt(job: Job, nss: set<string>, store: Store, k: Key)
    ensures At(CleanedUp(job, nss, store), k) == CleanedAt(job, nss, store, k)
  {
  }

  lemma SameCells(a: Store, b: Store)
    requires forall k :: At(a, k) == At(b, k)
    ensures a == b
  {
    forall k ensures k in a <==> k in b {
      assert At(a, k) == At(b, k);
    }
    forall k | k in a ensures a[k] == b[k] {
      assert At(a, k) == At(b, k);
    }
  }

  /** What stays fixed along a run: the glob, the admission, the specs of all live syncs, the namespaces. */
  datatype Cluster = Cluster(glob: Glob, admit: Admission, live: set<Spec>, nss: set<string>)

  /** One reconcile in a run. */
  datatype Turn = Turn(spec: Spec, now: string)

  function JobOf(c: Cluster, t: Turn): Job {
    Job(c.glob, c.admit, c.live, t.spec, t.now)
  }

  ghost predicate LegalTurn(c: Cluster, t: Turn) {
    t.spec in c.live && ValidSpec(c.glob, t.spec)
  }

  ghost predicate LegalTurns(c: Cluster, turns: seq<Turn>) {
    forall t :: t in turns ==> LegalTurn(c, t)
  }

  ghost function Turned(c: Cluster, store: Store, t: Turn): Store {
    Reconciled(JobOf(c, t), c.nss, store)
  }

  ghost function Run(c: Cluster, store: Store, turns: seq<Turn>): Store
    decreases |turns|
  {
    if |turns| == 0 then store else Run(c, Turned(c, store, turns[0]), turns[1..])
  }

  lemma {:induction false} RunAppend(c: Cluster, store: Store, turns: seq<Turn>, more: seq<Turn>)
    ensures Run(c, store, turns + more) == Run(c, Run(c, store, turns), more)
    decreases |turns|
  {
    if |turns| == 0 {
      assert turns + more == more;
    } else {
      assert (turns + more)[1..] == turns[1..] + more;
      RunAppend(c, Turned(c, store, turns[0]), turns[1..], more);
    }
  }

  /** A sync judges its peers as if it were among them, so runs can judge everything by all live specs. */
  lemma PeersOrAll(job: Job, live: set<Spec>, nss: set<string>, store: Store)
    requires live == job.peers + {job.spec} && job.spec.source != ""
    ensures Reconciled(job, nss, store) == Reconciled(job.(peers := live), nss, store)
    ensures ConflictedIn(job, nss, store) == ConflictedIn(job.(peers := live), nss, store)
  {
    var all := job.(peers := live);
    forall k | k in SelectedKeys(job.glob, job.spec, nss)
      ensures CellAfter(all, nss, store, k) == CellAfter(job, nss, store, k)
      ensures Refused(all, k, At(store, k)) == Refused(job, k, At(store, k))
    {
      SelfIsNoPeer(job, k, At(store, job.spec.SourceOf(k)), At(store, k));
    }
    assert Reconciled(job, nss, store).Keys == Reconciled(all, nss, store).Keys;
  }
}
