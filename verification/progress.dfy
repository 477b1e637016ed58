/** How far a reconcile or cleanup has got when some of its calls may have failed. */
module Progress {
  import opened Types
  import opened Copies
  import opened Conflicts
  import opened Steps
  import opened Rounds
  import opened Worlds
  import opened ApiServers

  datatype Phase = Syncing | Cleaning

  /** Where the phase takes the cell at k, from the objects as they are. */
  ghost function Goal(phase: Phase, job: Job, objects: Objects, k: Key): Option<Content> {
    match phase
    case Syncing => Step(job, k, Cell(objects, job.spec.SourceOf(k)), Cell(objects, k))
    case Cleaning => CleanStep(job, k, Cell(objects, k))
  }

  /** The sync reports a conflict at k. */
  ghost predicate Conflict(job: Job, objects: Objects, k: Key) {
    job.spec.SourceOf(k) in objects && Refused(job, k, Cell(objects, k))
  }

  /** The phase handled one key: it reached its goal, or failed and may not have. */
  ghost predicate Handled(phase: Phase, job: Job, k: Key, before: Objects, after: Objects, done: bool) {
    && (forall q :: q != k ==> Lookup(after, q) == Lookup(before, q))
    && (Cell(after, k) == Goal(phase, job, before, k) || (!done && Cell(after, k) == Cell(before, k)))
    && (Cell(after, k) == Cell(before, k) ==> Lookup(after, k) == Lookup(before, k))
  }

  /** The phase handled the keys in tried, and reached its goal, as seen at the start, at those in done. */
  ghost predicate Reached(phase: Phase, job: Job, start: Objects, now: Objects, tried: set<Key>, done: set<Key>) {
    && done <= tried
    && (forall k :: k !in tried ==> Lookup(now, k) == Lookup(start, k))
    && (forall k :: k in tried ==>
          Cell(now, k) == Goal(phase, job, start, k) || (k !in done && Cell(now, k) == Cell(start, k)))
    && (forall k :: Cell(now, k) == Cell(start, k) ==> Lookup(now, k) == Lookup(start, k))
  }

  ghost predicate Proper(phase: Phase, job: Job) {
    phase == Syncing ==> TameAdmission(job.admit) && job.spec.source != ""
  }

  predicate Foreign(job: Job, keys: set<Key>) {
    forall k :: k in keys ==> k.ns != job.spec.source
  }

  /** Handling a key again starts from its goal or from where it was, and has the same goal. */
  lemma GoalStays(phase: Phase, job: Job, start: Objects, now: Objects, tried: set<Key>, done: set<Key>, k: Key)
    requires Proper(phase, job) && Reached(phase, job, start, now, tried, done)
    requires Foreign(job, tried)
    ensures Cell(now, k) == Cell(start, k) || Cell(now, k) == Goal(phase, job, start, k)
    ensures Goal(phase, job, now, k) == Goal(phase, job, start, k)
    ensures phase == Syncing ==> Conflict(job, now, k) == Conflict(job, start, k)
  {
    var sk := job.spec.SourceOf(k);
    assert sk !in tried;
    assert Lookup(now, sk) == Lookup(start, sk);
    if k !in tried {
      assert Lookup(now, k) == Lookup(start, k);
    }
    if Cell(now, k) != Cell(start, k) && phase == Syncing {
      StepIdempotent(job, job, k, Cell(start, sk), Cell(start, k));
      if sk in start && !Refused(job, k, Cell(start, k)) {
        NotRefusedAgain(job, k, start[sk].content, Cell(start, k));
      }
    }
  }

  lemma HandledReached(phase: Phase, job: Job, k: Key, before: Objects, after: Objects, ok: bool)
    requires Handled(phase, job, k, before, after, ok)
    ensures Reached(phase, job, before, after, {k}, if ok then {k} else {})
  {
  }

  /** One stretch of work after another. */
  lemma ReachedTogether(phase: Phase, job: Job, start: Objects, mid: Objects, end: Objects,
      tried: set<Key>, done: set<Key>, triedNext: set<Key>, doneNext: set<Key>)
    requires Proper(phase, job) && Foreign(job, tried)
    requires Reached(phase, job, start, mid, tried, done) && Reached(phase, job, mid, end, triedNext, doneNext)
    ensures Reached(phase, job, start, end, tried + triedNext, done + doneNext)
  {
    forall k
      ensures k !in tried + triedNext ==> Lookup(end, k) == Lookup(start, k)
      ensures k in tried + triedNext ==>
        Cell(end, k) == Goal(phase, job, start, k) || (k !in done + doneNext && Cell(end, k) == Cell(start, k))
      ensures Cell(end, k) == Cell(start, k) ==> Lookup(end, k) == Lookup(start, k)
    {
      GoalStays(phase, job, start, mid, tried, done, k);
      assert k !in tried ==> Lookup(mid, k) == Lookup(start, k);
      assert k !in triedNext ==> Lookup(end, k) == Lookup(mid, k);
    }
  }

  lemma ReachedWeaker(phase: Phase, job: Job, start: Objects, now: Objects, tried: set<Key>, done: set<Key>,
      more: set<Key>, fewer: set<Key>)
    requires Reached(phase, job, start, now, tried, done)
    requires tried <= more && fewer <= done
    ensures Reached(phase, job, start, now, more, fewer)
  {
  }

  lemma CellOfContents(objects: Objects, k: Key)
    ensures At(Contents(objects), k) == Cell(objects, k)
  {
  }

  /** Handled keys in a selection make a partly done reconcile. */
  lemma ReachedPartly(job: Job, nss: set<string>, start: Objects, now: Objects, tried: set<Key>, done: set<Key>)
    requires Reached(Syncing, job, start, now, tried, done)
    requires tried <= SelectedKeys(job.glob, job.spec, nss)
    ensures PartlyReconciled(job, nss, Contents(start), Contents(now))
  {
    forall k
      ensures At(Contents(now), k) == At(Contents(start), k)
        || (k in SelectedKeys(job.glob, job.spec, nss)
            && At(Contents(now), k) == CellAfter(job, nss, Contents(start), k))
    {
      CellOfContents(now, k);
      CellOfContents(start, k);
      CellOfContents(start, job.spec.SourceOf(k));
      assert k !in tried ==> Lookup(now, k) == Lookup(start, k);
    }
  }

  /** Having reached every goal of a sync is having reconciled. */
  lemma ReachedReconciled(job: Job, nss: set<string>, start: Objects, now: Objects, done: set<Key>)
    requires Reached(Syncing, job, start, now, done, done)
    requires done == SelectedKeys(job.glob, job.spec, nss)
    ensures Contents(now) == Reconciled(job, nss, Contents(start))
  {
    var goal := Reconciled(job, nss, Contents(start));
    forall k ensures At(Contents(now), k) == At(goal, k) {
      ReconciledAt(job, nss, Contents(start), k);
      CellOfContents(now, k);
      CellOfContents(start, k);
      CellOfContents(start, job.spec.SourceOf(k));
      assert k !in done ==> Lookup(now, k) == Lookup(start, k);
    }
    SameCells(Contents(now), goal);
  }

  /** Nothing was written if nothing was to change. */
  lemma ReachedIdle(phase: Phase, job: Job, start: Objects, now: Objects, tried: set<Key>, done: set<Key>)
    requires Reached(phase, job, start, now, tried, done)
    requires Contents(now) == Contents(start)
    ensures now == start
  {
    forall k ensures Lookup(now, k) == Lookup(start, k) {
      CellOfContents(now, k);
      CellOfContents(start, k);
    }
    assert forall k :: k in now <==> k in start by {
      forall k ensures k in now <==> k in start {
        assert Lookup(now, k) == Lookup(start, k);
      }
    }
    forall k | k in now ensures now[k] == start[k] {
      assert Lookup(now, k) == Lookup(start, k);
    }
  }

  lemma ReachedPartlyCleaned(job: Job, nss: set<string>, start: Objects, now: Objects, tried: set<Key>, done: set<Key>)
    requires Reached(Cleaning, job, start, now, tried, done)
    requires tried <= CoveredKeys(job.spec, nss)
    ensures PartlyCleaned(job, nss, Contents(start), Contents(now))
  {
    forall k
      ensures At(Contents(now), k) == At(Contents(start), k)
        || (k in CoveredKeys(job.spec, nss) && At(Contents(now), k) == CleanStep(job, k, At(Contents(start), k)))
    {
      CellOfContents(now, k);
      CellOfContents(start, k);
      assert k !in tried ==> Lookup(now, k) == Lookup(start, k);
    }
  }

  lemma ReachedCleaned(job: Job, nss: set<string>, start: Objects, now: Objects, done: set<Key>)
    requires Reached(Cleaning, job, start, now, done, done)
    requires done == CoveredKeys(job.spec, nss)
    ensures Contents(now) == CleanedUp(job, nss, Contents(start))
  {
    var goal := CleanedUp(job, nss, Contents(start));
    forall k ensures At(Contents(now), k) == At(goal, k) {
      CleanedUpAt(job, nss, Contents(start), k);
      CellOfContents(now, k);
      CellOfContents(start, k);
      assert k !in done ==> Lookup(now, k) == Lookup(start, k);
    }
    SameCells(Contents(now), goal);
  }

  // What the controller's writes look like, whatever users do between its calls.

  function ReplacedBy(w: Write): Option<Content> {
    if w.before.Some? then Some(w.before.value.content) else None
  }

  /** The write stores, over what it replaced, the copy of the source object as it was in this state. */
  ghost predicate CopiesFrom(job: Job, state: Objects, w: Write) {
    && job.spec.SourceOf(w.key) in state && w.after.Some?
    && w.after.value.content == Written(job, w.key, state[job.spec.SourceOf(w.key)].content, ReplacedBy(w))
  }

  /** The write keeps to the rules at its very moment. A create hits an absent key. An update lands on the version the
      guard allowed to overwrite, and keeps its uid. Both store the copy of the source as it was at some instant since.
      A delete removes a managed copy of the source, which a sync saw missing. Outside an explicit target no peer's
      source is touched. */
  ghost predicate Lawful(phase: Phase, job: Job, since: nat, past: seq<Objects>, w: Write) {
    && (phase == Syncing ==> Selects(job.glob, job.spec, w.key) && !LeavesSource(job, w.key))
    && (phase == Cleaning ==> Covers(job.spec, w.key) && !Needed(job.glob, job.peers, job.spec.source, w.key))
    && match w.after
       case Some(after) =>
         && phase == Syncing
         && (exists t :: since <= t < |past| && CopiesFrom(job, past[t], w))
         && (w.before.Some? ==>
              && Allowed(job.glob, job.peers, job.spec.source, Explicit(job.spec, w.key), w.key, w.before.value.content)
              && after.uid == w.before.value.uid)
       case None =>
         && w.before.Some? && IsManagedCopy(w.before.value.content, job.spec.source, w.key.name)
         && (phase == Syncing ==> exists t :: since <= t < |past| && job.spec.SourceOf(w.key) !in past[t])
  }

  /** The writes since that instant are lawful, and happened while the syncs were these. */
  ghost predicate LawfulSince(phase: Phase, job: Job, syncs: Syncs, since: Instant, writes: seq<Write>,
      past: seq<Objects>) {
    forall i :: since.writes <= i < |writes| ==>
      Lawful(phase, job, since.state, past, writes[i]) && writes[i].syncs == syncs
  }

  /** One stretch of lawful writes after another. */
  lemma LawfulTogether(phase: Phase, job: Job, syncs: Syncs, start: Instant, mid: Instant, midWrites: seq<Write>,
      midPast: seq<Objects>, writes: seq<Write>, past: seq<Objects>)
    requires midWrites <= writes && midPast <= past
    requires start.state <= mid.state && mid.writes == |midWrites|
    requires LawfulSince(phase, job, syncs, start, midWrites, midPast)
    requires LawfulSince(phase, job, syncs, mid, writes, past)
    ensures LawfulSince(phase, job, syncs, start, writes, past)
  {
  }

  /** At some instant since, there was no copy from source at k. */
  ghost predicate SeenClean(source: string, k: Key, since: nat, past: seq<Objects>) {
    exists t :: since <= t < |past| && !HoldsCopy(past[t], source, k)
  }

  lemma SeenNow(source: string, k: Key, since: nat, past: seq<Objects>)
    requires since < |past| && !HoldsCopy(past[|past| - 1], source, k)
    ensures SeenClean(source, k, since, past)
  {
  }

  predicate HoldsCopy(objects: Objects, source: string, k: Key) {
    k in objects && IsManagedCopy(objects[k].content, source, k.name)
  }

  /** Each of the keys that no peer needs was seen without a copy of the job's source since. */
  ghost predicate Purged(job: Job, keys: set<Key>, since: nat, past: seq<Objects>) {
    forall k :: k in keys && !Needed(job.glob, job.peers, job.spec.source, k) ==>
      SeenClean(job.spec.source, k, since, past)
  }

  lemma PurgedTogether(job: Job, first: set<Key>, second: set<Key>, all: set<Key>, start: nat, midPast: seq<Objects>,
      mid: nat, past: seq<Objects>)
    requires midPast <= past && start <= mid && all <= first + second
    requires Purged(job, first, start, midPast) && Purged(job, second, mid, past)
    ensures Purged(job, all, start, past)
  {
  }
}
