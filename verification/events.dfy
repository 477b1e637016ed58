/** Which syncs a change wakes (internal/controller/events.go). */
module Events {
  import opened Types
  import opened Filters
  import opened Copies
  import opened Terms
  import opened Conflicts
  import opened Steps
  import opened Rounds
  import opened Statuses
  import opened ApiServers

  /** A change of the object at k enqueues the sync. */
  predicate Wakes(s: Spec, k: Key) {
    Lists(s, k) && (s.source == k.ns || InReach(s, k.ns))
  }

  /** No two syncs of the list have the same id. */
  ghost predicate DistinctIds(syncs: seq<NamespaceSync>) {
    forall i, j :: 0 <= i < j < |syncs| ==> syncs[i].id != syncs[j].id
  }

  /** findNamespaceSyncs: each sync that reads from the namespace or copies into it, once. */
  method FindNamespaceSyncs(listed: Answer<seq<NamespaceSync>>, ns: string) returns (requests: seq<SyncId>)
    ensures !listed.Found? ==> requests == []
    ensures listed.Found? ==> forall id :: id in requests <==>
      exists i :: 0 <= i < |listed.value| && listed.value[i].id == id
        && (listed.value[i].spec.source == ns || InReach(listed.value[i].spec, ns))
    ensures listed.Found? && DistinctIds(listed.value) ==> Distinct(requests)
  {
    requests := [];
    if !listed.Found? {
      return;
    }
    var syncs := listed.value;
    for i := 0 to |syncs|
      invariant forall id :: id in requests <==>
        exists j :: 0 <= j < i && syncs[j].id == id && (syncs[j].spec.source == ns || InReach(syncs[j].spec, ns))
      invariant DistinctIds(syncs) ==> Distinct(requests)
    {
      assert DistinctIds(syncs) ==> syncs[i].id !in requests;
      ReachMeans(syncs[i].spec, ns);
      if ns == syncs[i].spec.source {
        requests := requests + [syncs[i].id];
      }
      if TargetsNamespace(ns, syncs[i].spec) {
        requests := requests + [syncs[i].id];
      }
    }
  }

  /** findNamespaceSyncsForResource, for one kind. */
  method FindNamespaceSyncsForResource(listed: Answer<seq<NamespaceSync>>, k: Key) returns (requests: seq<SyncId>)
    ensures !listed.Found? ==> requests == []
    ensures listed.Found? ==> forall id :: id in requests <==>
      exists i :: 0 <= i < |listed.value| && listed.value[i].id == id && Lists(listed.value[i].spec, k)
        && (listed.value[i].spec.source == k.ns || InReach(listed.value[i].spec, k.ns))
    ensures listed.Found? && DistinctIds(listed.value) ==> Distinct(requests)
  {
    requests := [];
    if !listed.Found? {
      return;
    }
    var syncs := listed.value;
    for i := 0 to |syncs|
      invariant forall id :: id in requests <==>
        exists j :: 0 <= j < i && syncs[j].id == id && Lists(syncs[j].spec, k)
          && (syncs[j].spec.source == k.ns || InReach(syncs[j].spec, k.ns))
      invariant DistinctIds(syncs) ==> Distinct(requests)
    {
      assert DistinctIds(syncs) ==> syncs[i].id !in requests;
      ReachMeans(syncs[i].spec, k.ns);
      var isSource := syncs[i].spec.source == k.ns;
      var isTarget := TargetsNamespace(k.ns, syncs[i].spec);
      if (isSource || isTarget) && k.name in syncs[i].spec.Names(k.kind) {
        requests := requests + [syncs[i].id];
      }
    }
  }

  /** What happened to the keys that changed: the new object, or none. */
  ghost function Changes(before: Store, after: Store): map<Key, Option<Content>> {
    map k | k in before.Keys + after.Keys && At(before, k) != At(after, k) :: At(after, k)
  }

  /** The two stores agree wherever a change would wake the sync. */
  ghost predicate SameForSync(s: Spec, a: Store, b: Store) {
    forall k :: Wakes(s, k) ==> At(a, k) == At(b, k)
  }

  /** Wake-up completeness: on stores that agree wherever a change enqueues the sync, its reconcile makes the same
      changes and reports the same conflicts. */
  lemma ReconcileWakeUpComplete(job: Job, nss: set<string>, a: Store, b: Store)
    requires SameForSync(job.spec, a, b)
    ensures Changes(a, Reconciled(job, nss, a)) == Changes(b, Reconciled(job, nss, b))
    ensures ConflictedIn(job, nss, a) == ConflictedIn(job, nss, b)
  {
    var a', b' := Reconciled(job, nss, a), Reconciled(job, nss, b);
    forall k
      ensures k in SelectedKeys(job.glob, job.spec, nss) ==>
        At(a, k) == At(b, k) && At(a, job.spec.SourceOf(k)) == At(b, job.spec.SourceOf(k)) && At(a', k) == At(b', k)
      ensures k !in SelectedKeys(job.glob, job.spec, nss) ==> At(a', k) == At(a, k) && At(b', k) == At(b, k)
    {
      ReconciledAt(job, nss, a, k);
      ReconciledAt(job, nss, b, k);
      assert k in SelectedKeys(job.glob, job.spec, nss) ==> Wakes(job.spec, k) && Wakes(job.spec, job.spec.SourceOf(k));
    }
    SameChanges(a, a', b, b');
  }

  /** The same for its cleanup, although that ignores resource filters. */
  lemma CleanupWakeUpComplete(job: Job, nss: set<string>, a: Store, b: Store)
    requires SameForSync(job.spec, a, b)
    ensures Changes(a, CleanedUp(job, nss, a)) == Changes(b, CleanedUp(job, nss, b))
  {
    var a', b' := CleanedUp(job, nss, a), CleanedUp(job, nss, b);
    forall k
      ensures At(a', k) != At(a, k) || At(b', k) != At(b, k) ==> At(a, k) == At(b, k) && At(a', k) == At(b', k)
    {
      CleanedUpAt(job, nss, a, k);
      CleanedUpAt(job, nss, b, k);
      assert k in CoveredKeys(job.spec, nss) ==> Wakes(job.spec, k);
    }
    SameChanges(a, a', b, b');
  }

  lemma SameChanges(a: Store, a': Store, b: Store, b': Store)
    requires forall k ::
      At(a', k) != At(a, k) || At(b', k) != At(b, k) ==> At(a, k) == At(b, k) && At(a', k) == At(b', k)
    ensures Changes(a, a') == Changes(b, b')
  {
    var x, y := Changes(a, a'), Changes(b, b');
    forall k
      ensures k in x <==> At(a', k) != At(a, k)
      ensures k in y <==> At(b', k) != At(b, k)
    {
    }
    assert forall k :: k in x <==> k in y;
    assert forall k :: k in x ==> x[k] == y[k];
  }
}
