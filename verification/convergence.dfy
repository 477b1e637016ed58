/** Quiescence where sources may be copies themselves, or missing: two rounds of reconciles a level of copying. */
module Convergence {
  import opened Types
  import opened Filters
  import opened Copies
  import opened Conflicts
  import opened Steps
  import opened Rounds
  import opened Worlds
  import opened Quiescence
  import opened Clusters

  /** The live valid sync copies into k. */
  predicate Attempts(c: Cluster, s: Spec, k: Key) {
    s in c.live && ValidSpec(c.glob, s) && k in SelectedKeys(c.glob, s, c.nss)
  }

  /** Copies lie above their sources, on at most depth levels over the lowest: no sync copies in a circle. */
  ghost predicate Layered(c: Cluster, level: Key -> nat, depth: nat) {
    forall s, k :: Attempts(c, s, k) ==> level(s.SourceOf(k)) < level(k) <= depth
  }

  /** No turn changes the object at k. */
  ghost predicate Still(c: Cluster, store: Store, k: Key) {
    forall t :: LegalTurn(c, t) ==> CellAfter(JobOf(c, t), c.nss, store, k) == At(store, k)
  }

  /** No turn changes an object below level d. */
  ghost predicate Frozen(c: Cluster, level: Key -> nat, d: nat, store: Store) {
    forall k :: level(k) < d ==> Still(c, store, k)
  }

  lemma FrozenStays(c: Cluster, level: Key -> nat, depth: nat, d: nat, store: Store, t: Turn)
    requires Layered(c, level, depth) && Frozen(c, level, d, store) && LegalTurn(c, t)
    ensures forall k :: level(k) < d ==> At(Turned(c, store, t), k) == At(store, k)
    ensures Frozen(c, level, d, Turned(c, store, t))
  {
    var next := Turned(c, store, t);
    forall k | level(k) < d ensures At(next, k) == At(store, k) {
      ReconciledAt(JobOf(c, t), c.nss, store, k);
      assert Still(c, store, k);
    }
    forall k, u | level(k) < d && LegalTurn(c, u)
      ensures CellAfter(JobOf(c, u), c.nss, next, k) == At(next, k)
    {
      assert Still(c, store, k);
      if k in SelectedKeys(c.glob, u.spec, c.nss) {
        assert Attempts(c, u.spec, k);
        assert At(next, u.spec.SourceOf(k)) == At(store, u.spec.SourceOf(k));
      }
      assert CellAfter(JobOf(c, u), c.nss, next, k) == CellAfter(JobOf(c, u), c.nss, store, k);
    }
  }

  // One key whose sources stay as they are.

  /** The syncs that copy into k find their source objects alike in both stores. */
  ghost predicate SameSources(c: Cluster, a: Store, b: Store, k: Key) {
    forall s :: Attempts(c, s, k) ==> At(b, s.SourceOf(k)) == At(a, s.SourceOf(k))
  }

  /** A sync whose source object is missing finds no copy to remove at k. */
  ghost predicate Tidy(c: Cluster, store: Store, k: Key, s: Spec) {
    s.SourceOf(k) !in store ==> Step(JobOf(c, Turn(s, "")), k, None, At(store, k)) == At(store, k)
  }

  ghost predicate AllTidy(c: Cluster, store: Store, k: Key) {
    forall s :: Attempts(c, s, k) ==> Tidy(c, store, k, s)
  }

  /** A sync whose source object is there is refused, or its copy is in sync. */
  ghost predicate Done(c: Cluster, store: Store, k: Key, s: Spec) {
    s.SourceOf(k) in store ==> Settled(JobOf(c, Turn(s, "")), k, store[s.SourceOf(k)], At(store, k))
  }

  /** A turn that changes the object at k removes it, or makes it the copy of a source object that is there. Either way
      no sync will remove it. */
  lemma ChangeTidies(c: Cluster, store: Store, t: Turn, k: Key)
    requires LegalTurn(c, t) && TameAdmission(c.admit) && SameSources(c, store, Turned(c, store, t), k)
    requires At(Turned(c, store, t), k) != At(store, k)
    ensures AllTidy(c, Turned(c, store, t), k)
  {
    var next := Turned(c, store, t);
    var sk := t.spec.SourceOf(k);
    ReconciledAt(JobOf(c, t), c.nss, store, k);
    assert Attempts(c, t.spec, k);
    if sk in store {
      WrittenOwned(JobOf(c, t), k, store[sk], At(store, k));
      assert At(next, sk) == At(store, sk);
      assert From(next[k]) == t.spec.source;
    }
  }

  lemma TidyStays(c: Cluster, store: Store, t: Turn, k: Key, s: Spec)
    requires LegalTurn(c, t) && TameAdmission(c.admit) && SameSources(c, store, Turned(c, store, t), k)
    requires Attempts(c, s, k) && (Tidy(c, store, k, s) || t.spec == s)
    ensures Tidy(c, Turned(c, store, t), k, s)
  {
    var next := Turned(c, store, t);
    if At(next, k) != At(store, k) {
      ChangeTidies(c, store, t, k);
    } else {
      ReconciledAt(JobOf(c, t), c.nss, store, k);
      assert At(next, s.SourceOf(k)) == At(store, s.SourceOf(k));
    }
  }

  /** Where nothing is to be removed, what one sync is done with it stays done with through any turn. */
  lemma DoneStays(c: Cluster, store: Store, t: Turn, k: Key, s: Spec)
    requires LegalTurn(c, t) && TameAdmission(c.admit) && SameSources(c, store, Turned(c, store, t), k)
    requires AllTidy(c, store, k) && Attempts(c, s, k) && (Done(c, store, k, s) || t.spec == s)
    ensures Done(c, Turned(c, store, t), k, s)
  {
    var next := Turned(c, store, t);
    var sk, other := s.SourceOf(k), t.spec.SourceOf(k);
    var mine, job := JobOf(c, Turn(s, "")), JobOf(c, t);
    ReconciledAt(job, c.nss, store, k);
    assert At(next, sk) == At(store, sk);
    if sk in store && k in SelectedKeys(c.glob, t.spec, c.nss) {
      assert Attempts(c, t.spec, k);
      if other !in store {
        assert Tidy(c, store, k, t.spec);
      } else if t.spec == s {
        StepSettles(job, k, store[sk], At(store, k));
      } else {
        SettledStays(mine, job, k, store[sk], store[other], At(store, k));
      }
    }
  }

  /** Being tidy and done with is being still. */
  lemma DoneIsStill(c: Cluster, store: Store, k: Key)
    requires TameAdmission(c.admit) && AllTidy(c, store, k)
    requires forall s :: Attempts(c, s, k) ==> Done(c, store, k, s)
    ensures Still(c, store, k)
  {
    forall t | LegalTurn(c, t) ensures CellAfter(JobOf(c, t), c.nss, store, k) == At(store, k) {
      if k in SelectedKeys(c.glob, t.spec, c.nss) {
        assert Attempts(c, t.spec, k);
        var sk := t.spec.SourceOf(k);
        assert Tidy(c, store, k, t.spec) && Done(c, store, k, t.spec);
        if sk in store {
          SettledIsFixed(JobOf(c, t), k, store[sk], At(store, k));
        }
      }
    }
  }

  // Rounds.

  /** Every live valid sync has a turn. */
  ghost predicate Complete(c: Cluster, turns: seq<Turn>) {
    && LegalTurns(c, turns)
    && forall s :: s in c.live && ValidSpec(c.glob, s) ==> exists t :: t in turns && t.spec == s
  }

  lemma SourcesBelow(c: Cluster, level: Key -> nat, depth: nat, d: nat, store: Store, t: Turn, k: Key)
    requires Layered(c, level, depth) && Frozen(c, level, d, store) && LegalTurn(c, t) && level(k) <= d
    ensures SameSources(c, store, Turned(c, store, t), k)
  {
  }

  /** After turns among which s had one, or if it was so before, s finds nothing to remove. */
  lemma {:induction false} RunTidies(c: Cluster, level: Key -> nat, depth: nat, d: nat, store: Store, turns: seq<Turn>,
      k: Key, s: Spec)
    requires Layered(c, level, depth) && Frozen(c, level, d, store) && level(k) <= d
    requires LegalTurns(c, turns) && TameAdmission(c.admit)
    requires Attempts(c, s, k) && (Tidy(c, store, k, s) || exists t :: t in turns && t.spec == s)
    ensures Frozen(c, level, d, Run(c, store, turns))
    ensures Tidy(c, Run(c, store, turns), k, s)
    decreases |turns|
  {
    if |turns| > 0 {
      var t := turns[0];
      FrozenStays(c, level, depth, d, store, t);
      SourcesBelow(c, level, depth, d, store, t, k);
      if Tidy(c, store, k, s) || t.spec == s {
        TidyStays(c, store, t, k, s);
      }
      RunTidies(c, level, depth, d, Turned(c, store, t), turns[1..], k, s);
    }
  }

  lemma {:induction false} RunFinishes(c: Cluster, level: Key -> nat, depth: nat, d: nat, store: Store,
      turns: seq<Turn>, k: Key, s: Spec)
    requires Layered(c, level, depth) && Frozen(c, level, d, store) && level(k) <= d
    requires LegalTurns(c, turns) && TameAdmission(c.admit) && AllTidy(c, store, k)
    requires Attempts(c, s, k) && (Done(c, store, k, s) || exists t :: t in turns && t.spec == s)
    ensures Done(c, Run(c, store, turns), k, s)
    decreases |turns|
  {
    if |turns| > 0 {
      var t := turns[0];
      FrozenStays(c, level, depth, d, store, t);
      SourcesBelow(c, level, depth, d, store, t, k);
      forall r | Attempts(c, r, k) ensures Tidy(c, Turned(c, store, t), k, r) {
        TidyStays(c, store, t, k, r);
      }
      if Done(c, store, k, s) || t.spec == s {
        DoneStays(c, store, t, k, s);
      }
      RunFinishes(c, level, depth, d, Turned(c, store, t), turns[1..], k, s);
    }
  }

  lemma {:induction false} RunStaysFrozen(c: Cluster, level: Key -> nat, depth: nat, d: nat, store: Store,
      turns: seq<Turn>)
    requires Layered(c, level, depth) && Frozen(c, level, d, store) && LegalTurns(c, turns)
    ensures Frozen(c, level, d, Run(c, store, turns))
    decreases |turns|
  {
    if |turns| > 0 {
      FrozenStays(c, level, depth, d, store, turns[0]);
      RunStaysFrozen(c, level, depth, d, Turned(c, store, turns[0]), turns[1..]);
    }
  }

  /** Two rounds freeze one more level: the first removes the copies of missing sources, the second settles the rest. */
  lemma TwoRounds(c: Cluster, level: Key -> nat, depth: nat, d: nat, store: Store, first: seq<Turn>, second: seq<Turn>)
    requires Layered(c, level, depth) && Frozen(c, level, d, store) && TameAdmission(c.admit)
    requires Complete(c, first) && Complete(c, second)
    ensures Frozen(c, level, d + 1, Run(c, Run(c, store, first), second))
  {
    var mid := Run(c, store, first);
    var end := Run(c, mid, second);
    RunStaysFrozen(c, level, depth, d, store, first);
    RunStaysFrozen(c, level, depth, d, mid, second);
    forall k | level(k) == d ensures Still(c, end, k) {
      forall s | Attempts(c, s, k) ensures Tidy(c, mid, k, s) {
        RunTidies(c, level, depth, d, store, first, k, s);
      }
      forall s | Attempts(c, s, k) ensures Tidy(c, end, k, s) && Done(c, end, k, s) {
        RunTidies(c, level, depth, d, mid, second, k, s);
        RunFinishes(c, level, depth, d, mid, second, k, s);
      }
      DoneIsStill(c, end, k);
    }
  }

  /** The store after rounds of reconciles. */
  ghost function RunRounds(c: Cluster, store: Store, rounds: seq<seq<Turn>>): Store
    decreases |rounds|
  {
    if |rounds| == 0 then store else RunRounds(c, Run(c, store, rounds[0]), rounds[1..])
  }

  lemma {:induction false} LevelsFreeze(c: Cluster, level: Key -> nat, depth: nat, d: nat, store: Store,
      rounds: seq<seq<Turn>>, more: nat)
    requires Layered(c, level, depth) && Frozen(c, level, d, store) && TameAdmission(c.admit)
    requires |rounds| == 2 * more && forall round :: round in rounds ==> Complete(c, round)
    ensures Frozen(c, level, d + more, RunRounds(c, store, rounds))
    decreases more
  {
    if more > 0 {
      var next := Run(c, Run(c, store, rounds[0]), rounds[1]);
      TwoRounds(c, level, depth, d, store, rounds[0], rounds[1]);
      assert rounds[1..][1..] == rounds[2..] && rounds[1..][0] == rounds[1];
      LevelsFreeze(c, level, depth, d + 1, next, rounds[2..], more - 1);
    }
  }

  lemma {:induction false} StillRun(c: Cluster, store: Store, turns: seq<Turn>)
    requires LegalTurns(c, turns) && forall k :: Still(c, store, k)
    ensures Run(c, store, turns) == store
    decreases |turns|
  {
    if |turns| > 0 {
      forall k ensures At(Turned(c, store, turns[0]), k) == At(store, k) {
        ReconciledAt(JobOf(c, turns[0]), c.nss, store, k);
        assert Still(c, store, k);
      }
      SameCells(Turned(c, store, turns[0]), store);
      StillRun(c, store, turns[1..]);
    }
  }

  /** Convergence: if no sync copies in a circle, two rounds for each level of copying, in any order and from any store,
      with sources there or missing, hand-made or copies, reach a store that no later reconcile changes. */
  lemma Converges(c: Cluster, level: Key -> nat, depth: nat, store: Store, rounds: seq<seq<Turn>>, more: seq<Turn>)
    requires Layered(c, level, depth) && TameAdmission(c.admit)
    requires |rounds| == 2 * depth && forall round :: round in rounds ==> Complete(c, round)
    requires LegalTurns(c, more)
    ensures Run(c, RunRounds(c, store, rounds), more) == RunRounds(c, store, rounds)
  {
    forall k, t | level(k) < 1 && LegalTurn(c, t) ensures CellAfter(JobOf(c, t), c.nss, store, k) == At(store, k) {
      assert !Attempts(c, t.spec, k);
    }
    assert Frozen(c, level, 1, store);
    LevelsFreeze(c, level, depth, 1, store, rounds, depth);
    var end := RunRounds(c, store, rounds);
    forall k ensures Still(c, end, k) {
      forall t | LegalTurn(c, t) ensures CellAfter(JobOf(c, t), c.nss, end, k) == At(end, k) {
        if Attempts(c, t.spec, k) {
          assert Still(c, end, k);
        }
      }
    }
    StillRun(c, end, more);
  }

  /** One round for a level is too few: the listed copy of a missing source shuts out another explicit sync that has its
      turn before the copy is removed, and writes in the next round. */
  lemma OneRoundTooFew(c: Cluster, gone: Spec, other: Spec, k: Key, store: Store)
    requires Attempts(c, gone, k) && Attempts(c, other, k) && gone.source != other.source
    requires Explicit(gone, k) && Explicit(other, k)
    requires gone.SourceOf(k) !in store && other.SourceOf(k) in store
    requires !Selects(c.glob, gone, other.SourceOf(k)) && !Selects(c.glob, other, gone.SourceOf(k))
    requires k in store && IsManagedCopy(store[k], gone.source, k.name)
    ensures var after := Run(c, store, [Turn(other, ""), Turn(gone, "")]);
      k !in after && k in Turned(c, after, Turn(other, ""))
  {
    var t, u := Turn(other, ""), Turn(gone, "");
    var mid := Turned(c, store, t);
    var after := Turned(c, mid, u);
    assert SyncsCopy(c.glob, gone, gone.source, k);
    assert Claimed(c.glob, c.live, gone.source, k) && Listed(c.glob, c.live, gone.source, k);
    assert gone.source != "" && From(store[k]) == gone.source;
    assert Refused(JobOf(c, t), k, Some(store[k]));
    ReconciledAt(JobOf(c, t), c.nss, store, k);
    ReconciledAt(JobOf(c, t), c.nss, store, gone.SourceOf(k));
    ReconciledAt(JobOf(c, t), c.nss, store, other.SourceOf(k));
    ReconciledAt(JobOf(c, u), c.nss, mid, k);
    ReconciledAt(JobOf(c, u), c.nss, mid, other.SourceOf(k));
    ReconciledAt(JobOf(c, t), c.nss, after, k);
    assert [t, u][1..] == [u] && [u][1..] == [];
    assert Run(c, store, [t, u]) == Run(c, mid, [u]) == Run(c, after, []);
  }

  // The same for calls of Reconcile.

  ghost function CallRounds(glob: Glob, admit: Admission, w: World, rounds: seq<seq<Call>>): World
    decreases |rounds|
  {
    if |rounds| == 0 then w else CallRounds(glob, admit, Calls(glob, admit, w, rounds[0]), rounds[1..])
  }

  /** Every sync with a valid spec is called. */
  ghost predicate CallsAll(glob: Glob, w: World, round: seq<Call>) {
    forall id :: id in w.syncs && ValidSpec(glob, w.syncs[id].spec) ==> exists call :: call in round && call.id == id
  }

  function TurnRounds(glob: Glob, w: World, rounds: seq<seq<Call>>): seq<seq<Turn>> {
    seq(|rounds|, i requires 0 <= i < |rounds| => TurnsOf(glob, w, rounds[i]))
  }

  lemma {:induction false} CallRoundsAreRun(glob: Glob, admit: Admission, w: World, c: Cluster, rounds: seq<seq<Call>>)
    requires Steady(glob, admit, w, c)
    ensures var end := CallRounds(glob, admit, w, rounds);
      Steady(glob, admit, end, c) && SameSyncs(w, end)
      && end.store == RunRounds(c, w.store, TurnRounds(glob, w, rounds))
    decreases |rounds|
  {
    if |rounds| > 0 {
      var next := Calls(glob, admit, w, rounds[0]);
      CallsAreRun(glob, admit, w, c, rounds[0]);
      CallRoundsAreRun(glob, admit, next, c, rounds[1..]);
      forall i | 0 <= i < |rounds| - 1
        ensures TurnRounds(glob, w, rounds)[1..][i] == TurnRounds(glob, next, rounds[1..])[i]
      {
        SameSyncsSameTurns(glob, w, next, rounds[1..][i]);
      }
      assert TurnRounds(glob, w, rounds)[1..] == TurnRounds(glob, next, rounds[1..]);
    }
  }

  /** Convergence of the cluster: if no sync is being deleted and none copies in a circle, then after two rounds of
      calls of Reconcile for each level of copying no call changes any object. */
  lemma ConvergentCluster(glob: Glob, admit: Admission, w: World, c: Cluster, level: Key -> nat, depth: nat,
      rounds: seq<seq<Call>>, more: seq<Call>)
    requires Steady(glob, admit, w, c) && TameAdmission(admit) && Layered(c, level, depth)
    requires |rounds| == 2 * depth && forall round :: round in rounds ==> CallsAll(glob, w, round)
    ensures var end := CallRounds(glob, admit, w, rounds); Calls(glob, admit, end, more).store == end.store
  {
    var end := CallRounds(glob, admit, w, rounds);
    var turns := TurnRounds(glob, w, rounds);
    CallRoundsAreRun(glob, admit, w, c, rounds);
    CallsAreRun(glob, admit, end, c, more);
    forall round | round in turns ensures Complete(c, round) {
      var i :| 0 <= i < |turns| && turns[i] == round;
      assert rounds[i] in rounds;
      CompleteRound(glob, admit, w, c, rounds[i]);
    }
    Converges(c, level, depth, w.store, turns, TurnsOf(glob, end, more));
  }

  lemma CompleteRound(glob: Glob, admit: Admission, w: World, c: Cluster, round: seq<Call>)
    requires Steady(glob, admit, w, c) && CallsAll(glob, w, round)
    ensures Complete(c, TurnsOf(glob, w, round))
  {
    CallsAreRun(glob, admit, w, c, round);
    forall s | s in c.live && ValidSpec(c.glob, s) ensures exists t :: t in TurnsOf(glob, w, round) && t.spec == s {
      var id :| id in w.syncs && w.syncs[id].spec == s;
      var call :| call in round && call.id == id;
      CalledHasTurn(glob, w, round, call);
    }
  }
}
