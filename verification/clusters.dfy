/** Runs of whole reconciles, as Reconcile performs them, are runs over the store; so a cluster becomes quiescent. */
module Clusters {
  import opened Types
  import opened Filters
  import opened Copies
  import opened Conflicts
  import opened Steps
  import opened Rounds
  import opened Worlds
  import opened Quiescence

  /** A call of Reconcile. */
  datatype Call = Call(id: SyncId, now: string)

  ghost function Calls(glob: Glob, admit: Admission, w: World, calls: seq<Call>): World
    decreases |calls|
  {
    if |calls| == 0 then w
    else Calls(glob, admit, ReconcileWorld(glob, admit, w, calls[0].id, calls[0].now), calls[1..])
  }

  /** No sync is being deleted, and the cluster has these live specs and namespaces. */
  ghost predicate Steady(glob: Glob, admit: Admission, w: World, c: Cluster) {
    && WellFormed(w)
    && (forall id :: id in w.syncs ==> !w.syncs[id].deleting)
    && c == Cluster(glob, admit, LiveSpecs(w.syncs), w.namespaces)
  }

  /** The call reconciles the store: its sync exists and its spec is valid. */
  predicate Works(glob: Glob, w: World, call: Call) {
    call.id in w.syncs && ValidSpec(glob, w.syncs[call.id].spec)
  }

  /** The turns the calls amount to. */
  function TurnsOf(glob: Glob, w: World, calls: seq<Call>): seq<Turn>
    decreases |calls|
  {
    if |calls| == 0 then []
    else
      (if Works(glob, w, calls[0]) then [Turn(w.syncs[calls[0].id].spec, calls[0].now)] else [])
      + TurnsOf(glob, w, calls[1..])
  }

  /** The syncs differ at most in their finalizers. */
  ghost predicate SameSyncs(a: World, b: World) {
    && a.syncs.Keys == b.syncs.Keys
    && forall id :: id in a.syncs ==> a.syncs[id].(finalizers := {}) == b.syncs[id].(finalizers := {})
  }

  /** One call is one turn, or nothing, and changes no spec. */
  lemma CallIsTurn(glob: Glob, admit: Admission, w: World, c: Cluster, call: Call)
    requires Steady(glob, admit, w, c)
    ensures var w' := ReconcileWorld(glob, admit, w, call.id, call.now);
      && Steady(glob, admit, w', c) && SameSyncs(w, w')
      && w'.store == if Works(glob, w, call) then Turned(c, w.store, Turn(w.syncs[call.id].spec, call.now)) else w.store
  {
    var w' := ReconcileWorld(glob, admit, w, call.id, call.now);
    ServedIsAllowed(glob, admit, w, call.id, call.now);
    forall spec ensures spec in LiveSpecs(w'.syncs) <==> spec in LiveSpecs(w.syncs) {
      if spec in LiveSpecs(w.syncs) {
        var id :| id in w.syncs && !w.syncs[id].deleting && w.syncs[id].spec == spec;
        assert id in w'.syncs && w'.syncs[id].spec == spec;
      }
    }
    if Works(glob, w, call) {
      var job := JobFor(glob, admit, w.syncs, call.id, call.now);
      LiveIsPeersAndSelf(w.syncs, call.id);
      PeersOrAll(job, c.live, c.nss, w.store);
    }
  }

  lemma SameSyncsSameTurns(glob: Glob, a: World, b: World, calls: seq<Call>)
    requires SameSyncs(a, b)
    ensures TurnsOf(glob, a, calls) == TurnsOf(glob, b, calls)
    decreases |calls|
  {
  }

  /** A run of Reconcile calls is a run of legal turns over the store. */
  lemma {:induction false} CallsAreRun(glob: Glob, admit: Admission, w: World, c: Cluster, calls: seq<Call>)
    requires Steady(glob, admit, w, c)
    ensures Calls(glob, admit, w, calls).store == Run(c, w.store, TurnsOf(glob, w, calls))
    ensures LegalTurns(c, TurnsOf(glob, w, calls))
    ensures Steady(glob, admit, Calls(glob, admit, w, calls), c) && SameSyncs(w, Calls(glob, admit, w, calls))
    decreases |calls|
  {
    if |calls| > 0 {
      var next := ReconcileWorld(glob, admit, w, calls[0].id, calls[0].now);
      var rest := TurnsOf(glob, w, calls[1..]);
      CallIsTurn(glob, admit, w, c, calls[0]);
      CallsAreRun(glob, admit, next, c, calls[1..]);
      SameSyncsSameTurns(glob, w, next, calls[1..]);
      if Works(glob, w, calls[0]) {
        var t := Turn(w.syncs[calls[0].id].spec, calls[0].now);
        assert TurnsOf(glob, w, calls) == [t] + rest;
        assert ([t] + rest)[1..] == rest;
      } else {
        assert TurnsOf(glob, w, calls) == [] + rest == rest;
      }
    }
  }

  lemma {:induction false} TurnsAppend(glob: Glob, w: World, calls: seq<Call>, more: seq<Call>)
    ensures TurnsOf(glob, w, calls + more) == TurnsOf(glob, w, calls) + TurnsOf(glob, w, more)
    decreases |calls|
  {
    if |calls| == 0 {
      assert calls + more == more;
    } else {
      assert (calls + more)[1..] == calls[1..] + more;
      TurnsAppend(glob, w, calls[1..], more);
    }
  }

  lemma {:induction false} CalledHasTurn(glob: Glob, w: World, calls: seq<Call>, call: Call)
    requires call in calls && Works(glob, w, call)
    ensures Turn(w.syncs[call.id].spec, call.now) in TurnsOf(glob, w, calls)
    decreases |calls|
  {
    if calls[0] != call {
      CalledHasTurn(glob, w, calls[1..], call);
    }
  }

  /** Quiescence of the cluster: if no sync is being deleted and the sources of the valid ones are hand-made, any
      calls of Reconcile that include every valid sync lead to a store that no further calls change. */
  lemma QuiescentCluster(glob: Glob, admit: Admission, w: World, c: Cluster, round: seq<Call>, more: seq<Call>)
    requires Steady(glob, admit, w, c) && TameAdmission(admit) && HandMadeSources(c, w.store)
    requires forall id :: id in w.syncs && ValidSpec(glob, w.syncs[id].spec) ==>
      exists call :: call in round && call.id == id
    ensures Calls(glob, admit, w, round + more).store == Calls(glob, admit, w, round).store
  {
    CallsAreRun(glob, admit, w, c, round);
    CallsAreRun(glob, admit, w, c, more);
    CallsAreRun(glob, admit, w, c, round + more);
    TurnsAppend(glob, w, round, more);
    forall s | s in c.live && ValidSpec(glob, s) ensures exists t :: t in TurnsOf(glob, w, round) && t.spec == s {
      var id :| id in w.syncs && w.syncs[id].spec == s;
      var call :| call in round && call.id == id;
      CalledHasTurn(glob, w, round, call);
    }
    Quiescent(c, w.store, TurnsOf(glob, w, round), TurnsOf(glob, w, more));
  }
}
