/** One round of reconciles in any order reaches a store no further reconcile changes. */
module Quiescence {
  import opened Types
  import opened Filters
  import opened Copies
  import opened Conflicts
  import opened Steps
  import opened Rounds

  /** Every source object a live valid sync selects is there and was not made by a sync. */
  ghost predicate HandMadeSources(c: Cluster, store: Store) {
    forall s, k :: s in c.live && ValidSpec(c.glob, s) && ReadsAsSource(c.glob, s,
      k) ==> k in store && From(store[k]) == ""
  }

  /** The sync will not change the cell: it is refused there, or the cell is in sync with src. */
  ghost predicate Settled(job: Job, k: Key, src: Content, cur: Option<Content>) {
    Refused(job, k, cur) || (cur.Some? && InSync(job, k, src, cur.value))
  }

  lemma StepSettles(job: Job, k: Key, src: Content, cur: Option<Content>)
    requires CalmAdmission(job.admit)
    ensures Settled(job, k, src, Step(job, k, Some(src), cur))
  {
    if !Refused(job, k, cur) {
      WrittenInSync(job, k, src, cur);
    }
  }

  lemma SettledIsFixed(job: Job, k: Key, src: Content, cur: Option<Content>)
    requires CalmAdmission(job.admit)
    requires Settled(job, k, src, cur)
    ensures Step(job, k, Some(src), cur) == cur
  {
    if !Refused(job, k, cur) {
      InSyncStays(job, k, src, cur.value);
    }
  }

  /** Two syncs of the same source agree on when an object is in sync. */
  lemma SameSourceAgrees(job: Job, other: Job, k: Key, src: Content, o: Content)
    requires other.admit == job.admit && other.spec.source == job.spec.source
    ensures InSync(job, k, src, o) == InSync(other, k, src, o)
  {
  }

  /** The two syncs are live and both copy into k. */
  ghost predicate Rivals(job: Job, other: Job, k: Key) {
    && other == job.(spec := other.spec, now := other.now)
    && TameAdmission(job.admit)
    && job.spec in job.peers && other.spec in job.peers
    && Selects(job.glob, job.spec, k) && Selects(job.glob, other.spec, k)
    && job.spec.source != "" && other.spec.source != ""
  }

  /** What one sync leaves alone stays that way when another sync has its turn. */
  lemma SettledStays(job: Job, other: Job, k: Key, src: Content, otherSrc: Content, cur: Option<Content>)
    requires Rivals(job, other, k)
    requires job.spec.source == other.spec.source ==> src == otherSrc
    requires Settled(job, k, src, cur)
    ensures Settled(job, k, src, Step(other, k, Some(otherSrc), cur))
  {
    var next := Step(other, k, Some(otherSrc), cur);
    if next != cur {
      var n := Written(other, k, otherSrc, cur);
      WrittenInSync(other, k, otherSrc, cur);
      WrittenOwned(other, k, otherSrc, cur);
      if job.spec.source == other.spec.source {
        SameSourceAgrees(job, other, k, src, n);
      } else {
        StaysRefused(job, other, k, src, otherSrc, cur);
      }
    }
  }

  /** Once a rival from another source wrote, the settled sync is refused. */
  lemma StaysRefused(job: Job, other: Job, k: Key, src: Content, otherSrc: Content, cur: Option<Content>)
    requires Rivals(job, other, k) && job.spec.source != other.spec.source
    requires Settled(job, k, src, cur) && !Refused(other, k, cur)
    ensures Refused(job, k, Some(Written(other, k, otherSrc, cur)))
  {
    var n := Written(other, k, otherSrc, cur);
    WrittenOwned(other, k, otherSrc, cur);
    assert SyncsCopy(job.glob, other.spec, From(n), k);
    assert Claimed(job.glob, job.peers, From(n), k);
    if cur.Some? && InSync(job, k, src, cur.value) {
      InSyncOwned(job, k, src, cur.value);
      assert SyncsCopy(job.glob, job.spec, job.spec.source, k);
      assert Claimed(job.glob, job.peers, job.spec.source, k);
      assert Explicit(other.spec, k);
    }
    if Explicit(other.spec, k) {
      assert Listed(job.glob, job.peers, From(n), k);
    }
  }

  /** No turn writes an object that a live valid sync reads as its hand-made source. */
  lemma SourceFrozen(c: Cluster, store: Store, t: Turn, s: Spec, k: Key)
    requires LegalTurn(c, t) && HandMadeSources(c, store)
    requires s in c.live && ValidSpec(c.glob, s) && ReadsAsSource(c.glob, s, k)
    ensures At(Turned(c, store, t), k) == At(store, k)
  {
  }

  lemma SourcesStay(c: Cluster, store: Store, t: Turn)
    requires LegalTurn(c, t) && HandMadeSources(c, store)
    ensures HandMadeSources(c, Turned(c, store, t))
  {
    forall s, k | s in c.live && ValidSpec(c.glob, s) && ReadsAsSource(c.glob, s, k)
      ensures k in Turned(c, store, t) && From(Turned(c, store, t)[k]) == ""
    {
      SourceFrozen(c, store, t, s, k);
    }
  }

  /** Every key the spec attempts is settled. */
  ghost predicate AllSettled(c: Cluster, store: Store, s: Spec) {
    forall k :: k in SelectedKeys(c.glob, s, c.nss) ==>
      s.SourceOf(k) in store && Settled(JobOf(c, Turn(s, "")), k, store[s.SourceOf(k)], At(store, k))
  }

  lemma TurnSettles(c: Cluster, store: Store, t: Turn)
    requires LegalTurn(c, t) && HandMadeSources(c, store) && TameAdmission(c.admit)
    ensures AllSettled(c, Turned(c, store, t), t.spec)
  {
    var job := JobOf(c, t);
    var next := Turned(c, store, t);
    forall k | k in SelectedKeys(c.glob, t.spec, c.nss)
      ensures t.spec.SourceOf(k) in next
      ensures Settled(JobOf(c, Turn(t.spec, "")), k, next[t.spec.SourceOf(k)], At(next, k))
    {
      var sk := t.spec.SourceOf(k);
      assert ReadsAsSource(c.glob, t.spec, sk);
      SourceFrozen(c, store, t, t.spec, sk);
      ReconciledAt(job, c.nss, store, k);
      StepSettles(job, k, store[sk], At(store, k));
    }
  }

  lemma SettledThroughTurn(c: Cluster, store: Store, t: Turn, s: Spec)
    requires LegalTurn(c, t) && HandMadeSources(c, store) && TameAdmission(c.admit)
    requires s in c.live && ValidSpec(c.glob, s) && AllSettled(c, store, s)
    ensures AllSettled(c, Turned(c, store, t), s)
  {
    var job := JobOf(c, t);
    var mine := JobOf(c, Turn(s, ""));
    var next := Turned(c, store, t);
    forall k | k in SelectedKeys(c.glob, s, c.nss)
      ensures s.SourceOf(k) in next && Settled(mine, k, next[s.SourceOf(k)], At(next, k))
    {
      var sk := s.SourceOf(k);
      assert ReadsAsSource(c.glob, s, sk);
      SourceFrozen(c, store, t, s, sk);
      ReconciledAt(job, c.nss, store, k);
      if k in SelectedKeys(c.glob, t.spec, c.nss) {
        assert ReadsAsSource(c.glob, t.spec, t.spec.SourceOf(k));
        SettledStays(mine, job, k, store[sk], store[t.spec.SourceOf(k)], At(store, k));
      }
    }
  }

  lemma SettledTurnIsIdle(c: Cluster, store: Store, t: Turn)
    requires TameAdmission(c.admit) && AllSettled(c, store, t.spec)
    ensures Turned(c, store, t) == store
  {
    var job := JobOf(c, t);
    var next := Turned(c, store, t);
    forall k ensures At(next, k) == At(store, k) {
      ReconciledAt(job, c.nss, store, k);
      if k in SelectedKeys(c.glob, t.spec, c.nss) {
        assert Settled(job, k, store[t.spec.SourceOf(k)], At(store, k));
        SettledIsFixed(job, k, store[t.spec.SourceOf(k)], At(store, k));
      }
    }
    SameCells(next, store);
  }

  /** After the turns, every spec that had a turn, or was settled before them, is settled. */
  lemma {:induction false} RunSettles(c: Cluster, store: Store, turns: seq<Turn>, s: Spec)
    requires LegalTurns(c, turns) && HandMadeSources(c, store) && TameAdmission(c.admit)
    requires s in c.live && ValidSpec(c.glob, s)
    requires AllSettled(c, store, s) || exists t :: t in turns && t.spec == s
    ensures HandMadeSources(c, Run(c, store, turns))
    ensures AllSettled(c, Run(c, store, turns), s)
    decreases |turns|
  {
    if |turns| > 0 {
      var t := turns[0];
      SourcesStay(c, store, t);
      if t.spec == s {
        TurnSettles(c, store, t);
      } else if AllSettled(c, store, s) {
        SettledThroughTurn(c, store, t, s);
      }
      RunSettles(c, Turned(c, store, t), turns[1..], s);
    }
  }

  lemma {:induction false} IdleRun(c: Cluster, store: Store, turns: seq<Turn>)
    requires LegalTurns(c, turns) && TameAdmission(c.admit)
    requires forall t :: t in turns ==> AllSettled(c, store, t.spec)
    ensures Run(c, store, turns) == store
    decreases |turns|
  {
    if |turns| > 0 {
      SettledTurnIsIdle(c, store, turns[0]);
      IdleRun(c, store, turns[1..]);
    }
  }

  /** Quiescence: from any store with hand-made sources, any sequence of reconciles in which every live valid sync
      has a turn reaches a store that no later reconcile changes. */
  lemma Quiescent(c: Cluster, store: Store, round: seq<Turn>, more: seq<Turn>)
    requires TameAdmission(c.admit) && HandMadeSources(c, store)
    requires LegalTurns(c, round) && LegalTurns(c, more)
    requires forall s :: s in c.live && ValidSpec(c.glob, s) ==> exists t :: t in round && t.spec == s
    ensures Run(c, store, round + more) == Run(c, store, round)
  {
    var after := Run(c, store, round);
    forall t | t in more ensures AllSettled(c, after, t.spec) {
      RunSettles(c, store, round, t.spec);
    }
    IdleRun(c, after, more);
    RunAppend(c, store, round, more);
  }
}
