/** The status a reconcile reports (internal/controller/utils.go). */
module Statuses {
  import opened Types

  datatype Reason = SyncComplete | SyncConflict | PartialSync | SyncFailed | InvalidSpec

  datatype Condition = Condition(ready: bool, reason: Reason)

  /** What failed in a namespace: the conflicts that were skipped, and whether another error stopped it. */
  datatype Report = Report(conflicts: seq<Key>, failed: bool)

  datatype Status = Status(synced: seq<string>, failed: map<string, Report>, condition: Condition)

  /** The switch of updateStatus, which compares the lengths of the three collections. */
  function ReadyCondition(synced: seq<string>, failed: map<string, Report>, conflicted: seq<string>): Condition {
    if |failed| == 0 && |synced| > 0 then Condition(true, SyncComplete)
    else if |failed| > 0 && |conflicted| == |failed| then Condition(true, SyncConflict)
    else if |failed| > 0 && |synced| > 0 then Condition(true, PartialSync)
    else if |synced| == 0 && |failed| > 0 then Condition(false, SyncFailed)
    else Condition(true, SyncComplete)
  }

  ghost predicate Distinct<T(!new)>(s: seq<T>) {
    forall i, j :: 0 <= i < j < |s| ==> s[i] != s[j]
  }

  lemma {:induction false} DistinctSize<T(!new)>(s: seq<T>, members: set<T>)
    requires Distinct(s)
    requires forall x :: x in members <==> x in s
    ensures |members| == |s|
    decreases |s|
  {
    if |s| > 0 {
      var n := |s| - 1;
      assert s == s[..n] + [s[n]];
      DistinctSize(s[..n], members - {s[n]});
    } else {
      assert members == {};
    }
  }

  /** conflicted lists, once each, the failed namespaces that hold nothing but conflicts. */
  ghost predicate ListsConflicts(failed: map<string, Report>, conflicted: seq<string>) {
    && Distinct(conflicted)
    && forall ns :: ns in conflicted <==> ns in failed && !failed[ns].failed
  }

  /** The counts the condition compares mean the sets: Ready is false exactly when nothing synced and a namespace
      failed for another reason than a conflict; conflicts alone give SyncConflict; anything else that failed beside
      a success is a partial sync. */
  lemma ConditionMeans(synced: seq<string>, failed: map<string, Report>, conflicted: seq<string>)
    requires ListsConflicts(failed, conflicted)
    ensures var c := ReadyCondition(synced, failed, conflicted);
      && (!c.ready <==> c.reason == SyncFailed)
      && (c.reason == SyncFailed <==> synced == [] && exists ns :: ns in failed && failed[ns].failed)
      && (c.reason == SyncConflict <==> failed != map[] && forall ns :: ns in failed ==> !failed[ns].failed)
      && (c.reason == PartialSync <==> synced != [] && exists ns :: ns in failed && failed[ns].failed)
      && (c.reason == SyncComplete <==> failed == map[])
  {
    var onlyConflicts := set ns | ns in failed && !failed[ns].failed;
    DistinctSize(conflicted, onlyConflicts);
    assert onlyConflicts <= failed.Keys;
    assert |failed| == |failed.Keys|;
    assert |failed.Keys| == |onlyConflicts| + |failed.Keys - onlyConflicts|;
    if |conflicted| == |failed| {
      assert failed.Keys - onlyConflicts == {};
      assert forall ns :: ns in failed ==> ns !in failed.Keys - onlyConflicts;
    } else {
      var ns :| ns in failed.Keys - onlyConflicts;
      assert failed[ns].failed;
    }
  }
}
