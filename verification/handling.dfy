/** What the controller's methods achieve, stated on the objects before and after them, and how their results add up. */
module Handling {
  import opened Types
  import opened Filters
  import opened Copies
  import opened Terms
  import opened Conflicts
  import opened Steps
  import opened Rounds
  import opened Worlds
  import opened Statuses
  import opened ApiServers
  import opened Progress

  /** How syncing one object ended. */
  datatype Verdict = Synced | Conflicted | Failed

  datatype Removal = Deleted | Kept | RemovalFailed

  /** Without interference: the copy at k is gone, unless the removal failed, and nothing else changed. */
  ghost predicate RemovalHandled(s: Spec, k: Key, before: Objects, after: Objects, done: bool) {
    && (forall q :: q != k ==> Lookup(after, q) == Lookup(before, q))
    && (Cell(after, k) == Removed(s, k, Cell(before, k)) || (!done && Cell(after, k) == Cell(before, k)))
    && (Cell(after, k) == Cell(before, k) ==> Lookup(after, k) == Lookup(before, k))
  }

  /** The writes since from delete managed copies of source at k. */
  ghost predicate RemovesSince(k: Key, source: string, syncs: Syncs, from: nat, writes: seq<Write>) {
    forall i :: from <= i < |writes| ==>
      && writes[i].key == k && writes[i].syncs == syncs
      && writes[i].before.Some? && writes[i].after.None?
      && IsManagedCopy(writes[i].before.value.content, source, k.name)
  }

  ghost predicate MayOverwrite(job: Job, k: Key, cur: Option<Content>) {
    cur.Some? ==> Allowed(job.glob, job.peers, job.spec.source, Explicit(job.spec, k), k, cur.value)
  }

  /** Without interference: what creating or updating k to match desired does. */
  ghost predicate UpsertHandled(job: Job, k: Key, desired: Content, before: Objects, after: Objects, r: Verdict) {
    && (forall q :: q != k ==> Lookup(after, q) == Lookup(before, q))
    && (Cell(after, k) == Cell(before, k) ==> Lookup(after, k) == Lookup(before, k))
    && (Cell(after, k) == Cell(before, k)
        || (MayOverwrite(job, k, Cell(before, k))
            && Cell(after, k) == Some(Upserted(job.admit, k, desired, Cell(before, k)))))
    && (r == Synced ==>
          MayOverwrite(job, k, Cell(before, k))
          && Cell(after, k) == Some(Upserted(job.admit, k, desired, Cell(before, k))))
    && (r == Conflicted ==> after == before && !MayOverwrite(job, k, Cell(before, k)))
  }

  /** The writes since from store desired at k, stamp apart, over nothing or over what the guard allows. */
  ghost predicate UpsertsSince(job: Job, k: Key, desired: Content, syncs: Syncs, from: nat, writes: seq<Write>) {
    forall i :: from <= i < |writes| ==>
      && writes[i].key == k && writes[i].syncs == syncs
      && writes[i].after.Some?
      && writes[i].after.value.content == Upserted(job.admit, k, desired, ReplacedBy(writes[i]))
      && (writes[i].before.Some? ==>
           && MayOverwrite(job, k, ReplacedBy(writes[i]))
           && writes[i].after.value.uid == writes[i].before.value.uid)
  }

  lemma CreateHandled(job: Job, k: Key, desired: Content, before: Objects, after: Objects, r: Verdict)
    requires k !in before && r != Conflicted
    requires (after == before && r == Failed)
      || (k in after && after == before[k := after[k]] && after[k].content == job.admit(k, desired))
    ensures UpsertHandled(job, k, desired, before, after, r)
  {
  }

  lemma UpdateHandled(job: Job, k: Key, desired: Content, before: Objects, after: Objects, r: Verdict)
    requires k in before && MayOverwrite(job, k, Some(before[k].content)) && r != Conflicted
    requires var merged := KeepLastSync(before[k].content, desired);
      && merged != before[k].content
      && (after == before || (k in after && after == before[k := after[k]] && after[k].content == job.admit(k, merged)
           && job.admit(k, merged) != before[k].content))
      && (r == Synced ==> k in after && after[k].content == job.admit(k, merged))
    ensures UpsertHandled(job, k, desired, before, after, r)
  {
  }

  lemma CreateLogged(job: Job, k: Key, desired: Content, syncs: Syncs, before: seq<Write>, after: seq<Write>, w: Write)
    requires after == before || after == before + [w]
    requires w.key == k && w.syncs == syncs && w.before.None? && w.after.Some?
    requires w.after.value.content == job.admit(k, desired)
    ensures UpsertsSince(job, k, desired, syncs, |before|, after)
  {
  }

  lemma UpdateLogged(job: Job, k: Key, desired: Content, syncs: Syncs, before: seq<Write>, after: seq<Write>, w: Write)
    requires after == before || after == before + [w]
    requires w.key == k && w.syncs == syncs && w.before.Some? && w.after.Some?
    requires w.after.value.uid == w.before.value.uid && MayOverwrite(job, k, ReplacedBy(w))
    requires var merged := KeepLastSync(w.before.value.content, desired);
      merged != w.before.value.content && w.after.value.content == job.admit(k, merged)
    ensures UpsertsSince(job, k, desired, syncs, |before|, after)
  {
  }

  /** Without interference: syncing the object at k ended with this verdict. */
  ghost predicate SyncHandled(job: Job, k: Key, before: Objects, after: Objects, r: Verdict) {
    && Handled(Syncing, job, k, before, after, r != Failed)
    && (r == Synced ==> !Conflict(job, before, k))
    && (r == Conflicted ==> Conflict(job, before, k) && after == before)
  }

  lemma UpsertIsSync(job: Job, k: Key, before: Objects, after: Objects, r: Verdict)
    requires job.spec.SourceOf(k) in before && !LeavesSource(job, k)
    requires UpsertHandled(job, k, DesiredBy(job, k, before[job.spec.SourceOf(k)].content), before, after, r)
    ensures SyncHandled(job, k, before, after, r)
  {
  }

  lemma RemovalIsSync(job: Job, k: Key, before: Objects, after: Objects, r: Verdict)
    requires job.spec.SourceOf(k) !in before && r != Conflicted
    requires if LeavesSource(job, k) then r == Synced && after == before
      else RemovalHandled(job.spec, k, before, after, r == Synced)
    ensures SyncHandled(job, k, before, after, r)
  {
  }

  /** What is stored is the copy of the source as it was at instant t. */
  lemma UpsertsLawful(job: Job, k: Key, syncs: Syncs, since: Instant, t: nat, writes: seq<Write>, past: seq<Objects>)
    requires since.state <= t < |past| && job.spec.SourceOf(k) in past[t]
    requires var desired := DesiredBy(job, k, past[t][job.spec.SourceOf(k)].content);
      UpsertsSince(job, k, desired, syncs, since.writes, writes)
    requires Selects(job.glob, job.spec, k) && !LeavesSource(job, k)
    ensures LawfulSince(Syncing, job, syncs, since, writes, past)
  {
  }

  /** A sync removes the copy of a source that was missing at instant t. */
  lemma RemovesLawful(phase: Phase, job: Job, k: Key, syncs: Syncs, since: Instant, t: nat, writes: seq<Write>,
      past: seq<Objects>)
    requires RemovesSince(k, job.spec.source, syncs, since.writes, writes)
    requires since.state <= t < |past| && (phase == Syncing ==> job.spec.SourceOf(k) !in past[t])
    requires phase == Syncing && since.writes < |writes| ==> Selects(job.glob, job.spec, k) && !LeavesSource(job, k)
    requires phase == Cleaning ==> Covers(job.spec, k) && !Needed(job.glob, job.peers, job.spec.source, k)
    ensures LawfulSince(phase, job, syncs, since, writes, past)
  {
  }

  lemma LawfulEarlier(phase: Phase, job: Job, syncs: Syncs, start: Instant, since: Instant, writes: seq<Write>,
      past: seq<Objects>)
    requires start.state <= since.state && start.writes == since.writes
    requires LawfulSince(phase, job, syncs, since, writes, past)
    ensures LawfulSince(phase, job, syncs, start, writes, past)
  {
  }

  /** The writes since from are at k. */
  ghost predicate OnlyAt(k: Key, from: nat, writes: seq<Write>) {
    forall i :: from <= i < |writes| ==> writes[i].key == k
  }

  /** The writes since from are at names of this kind, in this namespace, that the sync wants. */
  ghost predicate OnlyWanted(glob: Glob, s: Spec, kind: Kind, ns: string, from: nat, writes: seq<Write>) {
    forall i :: from <= i < |writes| ==>
      writes[i].key.kind == kind && writes[i].key.ns == ns && Wants(glob, s, writes[i].key)
  }

  lemma OneMoreWanted(glob: Glob, s: Spec, k: Key, from: nat, mid: seq<Write>, writes: seq<Write>)
    requires OnlyWanted(glob, s, k.kind, k.ns, from, mid) && mid <= writes && OnlyAt(k, |mid|, writes)
    requires SyncsName(glob, s, k.kind, k.name)
    ensures OnlyWanted(glob, s, k.kind, k.ns, from, writes)
  {
    WantsMeans(glob, s, k);
  }

  /** The keys of one kind in a namespace that these names stand for, filtered. */
  ghost function NamedKeys(glob: Glob, s: Spec, kind: Kind, ns: string, names: seq<string>): set<Key> {
    set name | name in names && ShouldSyncResource(glob, name, s.Filter(kind)) :: Key(kind, ns, name)
  }

  /** One more name adds its key if the filter lets it pass. */
  lemma NamedKeysNext(glob: Glob, s: Spec, kind: Kind, ns: string, names: seq<string>, i: nat)
    requires i < |names|
    ensures NamedKeys(glob, s, kind, ns, names[..i + 1]) == NamedKeys(glob, s, kind, ns, names[..i]) +
      if ShouldSyncResource(glob, names[i], s.Filter(kind)) then {Key(kind, ns, names[i])} else {}
    ensures NamedKeys(glob, s, kind, ns, names[..i + 1]) <= NamedKeys(glob, s, kind, ns, names)
  {
  }

  /** The conflicts reported are those at these keys. */
  ghost predicate Reports(job: Job, objects: Objects, keys: set<Key>, conflicts: seq<Key>) {
    forall k :: k in conflicts <==> k in keys && Conflict(job, objects, k)
  }

  /** The conflicts reported so far are real. */
  ghost predicate TrueConflicts(job: Job, objects: Objects, keys: set<Key>, conflicts: seq<Key>) {
    forall k :: k in conflicts ==> k in keys && Conflict(job, objects, k)
  }

  lemma KindsSelected(glob: Glob, s: Spec, ns: string)
    requires TargetsNamespace(ns, s)
    ensures SelectedKeys(glob, s, {ns})
      == NamedKeys(glob, s, Secret, ns, s.secrets) + NamedKeys(glob, s, ConfigMap, ns, s.configMaps)
  {
  }

  /** Reporting conflicts in two stretches. */
  lemma ReportsTogether(job: Job, start: Objects, mid: Objects, tried: set<Key>, done: set<Key>, next: set<Key>,
      first: seq<Key>, second: seq<Key>)
    requires Proper(Syncing, job) && Foreign(job, tried)
    requires Reached(Syncing, job, start, mid, tried, done)
    requires Reports(job, start, tried, first) && Reports(job, mid, next, second)
    ensures Reports(job, start, tried + next, first + second)
  {
    forall k ensures k in first + second <==> k in tried + next && Conflict(job, start, k) {
      GoalStays(Syncing, job, start, mid, tried, done, k);
    }
  }

  /** Syncing one more name. */
  lemma NameSynced(job: Job, start: Objects, mid: Objects, end: Objects, keys: set<Key>, k: Key, r: Verdict,
      conflicts: seq<Key>)
    requires Proper(Syncing, job) && Foreign(job, keys + {k})
    requires Reached(Syncing, job, start, mid, keys, keys) && Reports(job, start, keys, conflicts)
    requires SyncHandled(job, k, mid, end, r)
    ensures Reached(Syncing, job, start, end, keys + {k}, if r == Failed then keys else keys + {k})
    ensures r == Synced ==> Reports(job, start, keys + {k}, conflicts)
    ensures r == Conflicted ==> Reports(job, start, keys + {k}, conflicts + [k])
  {
    HandledReached(Syncing, job, k, mid, end, r != Failed);
    ReachedTogether(Syncing, job, start, mid, end, keys, keys, {k}, if r == Failed then {} else {k});
    assert keys + {} == keys;
    GoalStays(Syncing, job, start, mid, keys, keys, k);
  }

  /** The names a list went through when it got past n of them: those, and the one it stopped at. */
  function Tried(names: seq<string>, n: nat): seq<string> {
    if n < |names| then names[..n + 1] else names
  }

  /** Without interference: the first n of the names were synced, their conflicts are those reported, and no name after
      the next one was touched. */
  ghost predicate ListHandled(job: Job, kind: Kind, ns: string, names: seq<string>, before: Objects, after: Objects,
      n: nat, conflicts: seq<Key>) {
    && n <= |names|
    && var done := NamedKeys(job.glob, job.spec, kind, ns, names[..n]);
       && Reached(Syncing, job, before, after, NamedKeys(job.glob, job.spec, kind, ns, Tried(names, n)), done)
       && Reports(job, before, done, conflicts)
  }

  /** The name after the first n failed, and stopped the list. */
  lemma NameFailed(job: Job, kind: Kind, ns: string, names: seq<string>, start: Objects, mid: Objects, end: Objects,
      n: nat, conflicts: seq<Key>)
    requires Proper(Syncing, job) && TargetsNamespace(ns, job.spec) && n < |names|
    requires ShouldSyncResource(job.glob, names[n], job.spec.Filter(kind))
    requires var keys := NamedKeys(job.glob, job.spec, kind, ns, names[..n]);
      Reached(Syncing, job, start, mid, keys, keys) && Reports(job, start, keys, conflicts)
    requires SyncHandled(job, Key(kind, ns, names[n]), mid, end, Failed)
    ensures ListHandled(job, kind, ns, names, start, end, n, conflicts)
  {
    NamedKeysNext(job.glob, job.spec, kind, ns, names, n);
    NameSynced(job, start, mid, end, NamedKeys(job.glob, job.spec, kind, ns, names[..n]), Key(kind, ns, names[n]),
      Failed, conflicts);
  }

  /** Without interference: in the namespace the first n secrets and the first m config maps were synced, their
      conflicts are those reported, and an error stopped at the next name, before any config map if it is a secret. */
  ghost predicate KindsHandled(job: Job, ns: string, before: Objects, after: Objects, n: nat, m: nat, report: Report) {
    var s := job.spec;
    && n <= |s.secrets| && m <= |s.configMaps|
    && (report.failed <==> n < |s.secrets| || m < |s.configMaps|)
    && (n < |s.secrets| ==> m == 0)
    && var done := NamedKeys(job.glob, s, Secret, ns, s.secrets[..n]) +
         NamedKeys(job.glob, s, ConfigMap, ns, s.configMaps[..m]);
       var tried := NamedKeys(job.glob, s, Secret, ns, Tried(s.secrets, n)) +
         if n < |s.secrets| then {} else NamedKeys(job.glob, s, ConfigMap, ns, Tried(s.configMaps, m));
       Reached(Syncing, job, before, after, tried, done) && Reports(job, before, done, report.conflicts)
  }

  lemma FirstKindFailed(job: Job, ns: string, before: Objects, after: Objects, n: nat, conflicts: seq<Key>)
    requires n < |job.spec.secrets|
    requires ListHandled(job, Secret, ns, job.spec.secrets, before, after, n, conflicts)
    ensures KindsHandled(job, ns, before, after, n, 0, Report(conflicts, true))
  {
  }

  /** The config maps after all secrets. */
  lemma SecondKind(job: Job, ns: string, before: Objects, mid: Objects, after: Objects, m: nat, conflicts: seq<Key>,
      more: seq<Key>)
    requires Proper(Syncing, job) && TargetsNamespace(ns, job.spec)
    requires ListHandled(job, Secret, ns, job.spec.secrets, before, mid, |job.spec.secrets|, conflicts)
    requires ListHandled(job, ConfigMap, ns, job.spec.configMaps, mid, after, m, more)
    ensures var report := Report(conflicts + more, m < |job.spec.configMaps|);
      KindsHandled(job, ns, before, after, |job.spec.secrets|, m, report)
  {
    var s := job.spec;
    var first := NamedKeys(job.glob, s, Secret, ns, s.secrets);
    var done := NamedKeys(job.glob, s, ConfigMap, ns, s.configMaps[..m]);
    assert s.secrets[..|s.secrets|] == s.secrets;
    ReachedTogether(Syncing, job, before, mid, after, first, first,
      NamedKeys(job.glob, s, ConfigMap, ns, Tried(s.configMaps, m)), done);
    ReportsTogether(job, before, mid, first, first, done, conflicts, more);
  }

  /** Without interference: the namespace was synced with this report, or an error stopped it somewhere. */
  ghost predicate NamespaceHandled(job: Job, ns: string, before: Objects, after: Objects, report: Report) {
    var keys := SelectedKeys(job.glob, job.spec, {ns});
    && Reached(Syncing, job, before, after, keys, if report.failed then {} else keys)
    && (!report.failed ==> Reports(job, before, keys, report.conflicts))
    && TrueConflicts(job, before, keys, report.conflicts)
  }

  lemma KindsAreNamespace(job: Job, ns: string, before: Objects, after: Objects, n: nat, m: nat, report: Report)
    requires TargetsNamespace(ns, job.spec) && KindsHandled(job, ns, before, after, n, m, report)
    ensures NamespaceHandled(job, ns, before, after, report)
  {
    var s := job.spec;
    var keys := SelectedKeys(job.glob, s, {ns});
    var done := NamedKeys(job.glob, s, Secret, ns, s.secrets[..n]) +
      NamedKeys(job.glob, s, ConfigMap, ns, s.configMaps[..m]);
    var tried := NamedKeys(job.glob, s, Secret, ns, Tried(s.secrets, n)) +
      if n < |s.secrets| then {} else NamedKeys(job.glob, s, ConfigMap, ns, Tried(s.configMaps, m));
    KindsSelected(job.glob, s, ns);
    assert s.secrets[..|s.secrets|] == s.secrets && s.configMaps[..|s.configMaps|] == s.configMaps;
    ReachedWeaker(Syncing, job, before, after, tried, done, keys, if report.failed then {} else keys);
  }

  lemma FollowersOverNothing(o: Content)
    ensures map[] + Followers(o.labels) == Followers(o.labels)
    ensures map[] + Followers(o.annotations) == Followers(o.annotations)
  {
  }

  // The namespaces of a reconcile.

  /** The three collections Reconcile fills while it goes through the namespaces. */
  datatype Outcome = Outcome(synced: seq<string>, failed: map<string, Report>, conflicted: seq<string>)

  function Recorded(o: Outcome, ns: string, report: Report): Outcome {
    if report.failed then o.(failed := o.failed[ns := report])
    else if |report.conflicts| > 0 then o.(failed := o.failed[ns := report], conflicted := o.conflicted + [ns])
    else o.(synced := o.synced + [ns])
  }

  /** Synced and failed namespaces partition the targeted ones, and the conflicted are the failed with nothing but
      conflicts. */
  ghost predicate Partitions(s: Spec, nss: set<string>, o: Outcome) {
    && Distinct(o.synced)
    && ListsConflicts(o.failed, o.conflicted)
    && (forall ns :: ns in o.synced <==> ns in nss && TargetsNamespace(ns, s) && ns !in o.failed)
    && (forall ns :: ns in o.failed ==> ns in nss && TargetsNamespace(ns, s))
  }

  /** What is said of a namespace is so: all its conflicts and only those are reported, unless an error stopped it. */
  ghost predicate Truthful(job: Job, start: Objects, synced: seq<string>, failed: map<string, Report>) {
    && (forall ns :: ns in synced ==> Reports(job, start, SelectedKeys(job.glob, job.spec, {ns}), []))
    && (forall ns :: ns in failed ==>
          TrueConflicts(job, start, SelectedKeys(job.glob, job.spec, {ns}), failed[ns].conflicts))
    && (forall ns :: ns in failed && !failed[ns].failed ==>
          failed[ns].conflicts != []
          && Reports(job, start, SelectedKeys(job.glob, job.spec, {ns}), failed[ns].conflicts))
  }

  /** The attempted keys of the namespaces no error stopped. */
  ghost function Finished(failed: map<string, Report>, keys: set<Key>): set<Key> {
    set k | k in keys && (k.ns in failed ==> !failed[k.ns].failed)
  }

  lemma RecordedPartitions(s: Spec, nss: set<string>, o: Outcome, ns: string, report: Report)
    requires Partitions(s, nss, o) && ns !in nss && TargetsNamespace(ns, s)
    ensures Partitions(s, nss + {ns}, Recorded(o, ns, report))
  {
  }

  /** Where the loop over the namespaces stands after those in nss. */
  ghost predicate LoopState(job: Job, nss: set<string>, start: Objects, now: Objects, synced: seq<string>,
      failed: map<string, Report>) {
    var keys := SelectedKeys(job.glob, job.spec, nss);
    Truthful(job, start, synced, failed) && Reached(Syncing, job, start, now, keys, Finished(failed, keys))
  }

  lemma LoopStarts(job: Job, objects: Objects)
    ensures LoopState(job, {}, objects, objects, [], map[])
  {
    assert SelectedKeys(job.glob, job.spec, {}) == {};
  }

  lemma RecordedTruthful(job: Job, start: Objects, nss: set<string>, o: Outcome, ns: string, report: Report)
    requires Partitions(job.spec, nss, o) && ns !in nss && Truthful(job, start, o.synced, o.failed)
    requires var keys := SelectedKeys(job.glob, job.spec, {ns});
      TrueConflicts(job, start, keys, report.conflicts)
      && (!report.failed ==> Reports(job, start, keys, report.conflicts))
    ensures Truthful(job, start, Recorded(o, ns, report).synced, Recorded(o, ns, report).failed)
  {
  }

  /** Namespaces no key was handled in yet look as at the start. */
  lemma UntouchedReports(job: Job, start: Objects, mid: Objects, nss: set<string>, o: Outcome, ns: string,
      end: Objects, report: Report)
    requires Proper(Syncing, job)
    requires Reached(Syncing, job, start, mid, SelectedKeys(job.glob, job.spec, nss),
      Finished(o.failed, SelectedKeys(job.glob, job.spec, nss)))
    requires NamespaceHandled(job, ns, mid, end, report)
    ensures var keys := SelectedKeys(job.glob, job.spec, {ns});
      TrueConflicts(job, start, keys, report.conflicts)
      && (!report.failed ==> Reports(job, start, keys, report.conflicts))
  {
    var tried := SelectedKeys(job.glob, job.spec, nss);
    forall k ensures Conflict(job, mid, k) == Conflict(job, start, k) {
      GoalStays(Syncing, job, start, mid, tried, Finished(o.failed, tried), k);
    }
  }

  lemma RecordedReached(job: Job, start: Objects, mid: Objects, end: Objects, nss: set<string>, o: Outcome,
      ns: string, report: Report)
    requires Proper(Syncing, job)
    requires Partitions(job.spec, nss, o) && ns !in nss
    requires Reached(Syncing, job, start, mid, SelectedKeys(job.glob, job.spec, nss),
      Finished(o.failed, SelectedKeys(job.glob, job.spec, nss)))
    requires NamespaceHandled(job, ns, mid, end, report)
    ensures var keys := SelectedKeys(job.glob, job.spec, nss + {ns});
      Reached(Syncing, job, start, end, keys, Finished(Recorded(o, ns, report).failed, keys))
  {
    var tried := SelectedKeys(job.glob, job.spec, nss);
    var next := SelectedKeys(job.glob, job.spec, {ns});
    var keys := SelectedKeys(job.glob, job.spec, nss + {ns});
    forall k ensures k in keys <==> k in tried + next {
      ClaimsMatchBehaviour(job.glob, job.spec, nss + {ns}, k);
      ClaimsMatchBehaviour(job.glob, job.spec, nss, k);
      ClaimsMatchBehaviour(job.glob, job.spec, {ns}, k);
    }
    assert keys == tried + next;
    ReachedTogether(Syncing, job, start, mid, end, tried, Finished(o.failed, tried), next,
      if report.failed then {} else next);
    forall k | k in Finished(Recorded(o, ns, report).failed, keys)
      ensures k in Finished(o.failed, tried) + if report.failed then {} else next
    {
      ClaimsMatchBehaviour(job.glob, job.spec, nss, k);
    }
    ReachedWeaker(Syncing, job, start, end,
      tried + next, Finished(o.failed, tried) + (if report.failed then {} else next),
      keys, Finished(Recorded(o, ns, report).failed, keys));
  }

  /** One more namespace. */
  lemma NamespaceRecorded(job: Job, nss: set<string>, start: Objects, mid: Objects, end: Objects, o: Outcome,
      ns: string, report: Report)
    requires Proper(Syncing, job) && Partitions(job.spec, nss, o) && ns !in nss
    requires LoopState(job, nss, start, mid, o.synced, o.failed)
    requires NamespaceHandled(job, ns, mid, end, report)
    ensures var next := Recorded(o, ns, report);
      LoopState(job, nss + {ns}, start, end, next.synced, next.failed)
  {
    RecordedReached(job, start, mid, end, nss, o, ns, report);
    UntouchedReports(job, start, mid, nss, o, ns, end, report);
    RecordedTruthful(job, start, nss, o, ns, report);
  }

  /** Without an error every attempted key reached its goal, and the conflicts are those of the whole reconcile. */
  lemma AllFinished(job: Job, nss: set<string>, start: Objects, end: Objects, o: Outcome)
    requires Partitions(job.spec, nss, o) && Truthful(job, start, o.synced, o.failed)
    requires Reached(Syncing, job, start, end, SelectedKeys(job.glob, job.spec, nss),
      Finished(o.failed, SelectedKeys(job.glob, job.spec, nss)))
    requires forall ns :: ns in o.failed ==> !o.failed[ns].failed
    ensures Contents(end) == Reconciled(job, nss, Contents(start))
    ensures forall ns :: ns in o.failed <==> ns in ConflictedIn(job, nss, Contents(start))
  {
    var keys := SelectedKeys(job.glob, job.spec, nss);
    assert Finished(o.failed, keys) == keys;
    ReachedReconciled(job, nss, start, end, keys);
    forall ns ensures ns in o.failed <==> ns in ConflictedIn(job, nss, Contents(start)) {
      ConflictedHere(job, nss, start, o, ns);
    }
  }

  lemma ConflictedHere(job: Job, nss: set<string>, start: Objects, o: Outcome, ns: string)
    requires Partitions(job.spec, nss, o) && Truthful(job, start, o.synced, o.failed)
    requires ns in o.failed ==> !o.failed[ns].failed
    ensures ns in o.failed <==> ns in ConflictedIn(job, nss, Contents(start))
  {
    forall k
      ensures k in SelectedKeys(job.glob, job.spec, nss) ==> k.ns in nss
      ensures ns in nss ==>
        (k in SelectedKeys(job.glob, job.spec, {ns}) <==> k in SelectedKeys(job.glob, job.spec, nss) && k.ns == ns)
    {
      ClaimsMatchBehaviour(job.glob, job.spec, nss, k);
      ClaimsMatchBehaviour(job.glob, job.spec, {ns}, k);
    }
    forall k
      ensures Conflict(job, start, k)
        <==> At(Contents(start), job.spec.SourceOf(k)).Some? && Refused(job, k, At(Contents(start), k))
    {
      CellOfContents(start, k);
      CellOfContents(start, job.spec.SourceOf(k));
    }
    if ns in o.failed {
      assert o.failed[ns].conflicts[0] in o.failed[ns].conflicts;
    }
  }

  /** What the loop over all namespaces amounts to: the keys of namespaces no error stopped are where their step
      takes them, nothing is written that is not to change, and without an error this is the whole reconcile. */
  ghost predicate Concluded(job: Job, nss: set<string>, start: Objects, end: Objects, synced: seq<string>,
      failed: map<string, Report>) {
    && Truthful(job, start, synced, failed)
    && PartlyDone(job, nss, start, end)
    && (forall k :: k in Finished(failed, SelectedKeys(job.glob, job.spec, nss)) ==>
          At(Contents(end), k) == CellAfter(job, nss, Contents(start), k))
    && ((forall ns :: ns in failed ==> !failed[ns].failed) ==>
          && Contents(end) == Reconciled(job, nss, Contents(start))
          && forall ns :: ns in failed <==> ns in ConflictedIn(job, nss, Contents(start)))
  }

  lemma LoopConcluded(job: Job, nss: set<string>, start: Objects, end: Objects, o: Outcome)
    requires Partitions(job.spec, nss, o) && LoopState(job, nss, start, end, o.synced, o.failed)
    ensures Concluded(job, nss, start, end, o.synced, o.failed)
  {
    var keys := SelectedKeys(job.glob, job.spec, nss);
    ReachedPartly(job, nss, start, end, keys, Finished(o.failed, keys));
    forall k | k in Finished(o.failed, keys) ensures At(Contents(end), k) == CellAfter(job, nss, Contents(start), k) {
      CellOfContents(end, k);
      CellOfContents(start, k);
      CellOfContents(start, job.spec.SourceOf(k));
    }
    if Contents(end) == Contents(start) {
      ReachedIdle(Syncing, job, start, end, keys, Finished(o.failed, keys));
    }
    if forall ns :: ns in o.failed ==> !o.failed[ns].failed {
      AllFinished(job, nss, start, end, o);
    }
  }

  /** The namespaces an error stopped. */
  function Stopped(failed: map<string, Report>): set<string> {
    set ns | ns in failed && failed[ns].failed
  }

  lemma StoppedNext(failed: map<string, Report>, ns: string, report: Report)
    ensures |Stopped(failed[ns := report])| <= |Stopped(failed)| + if report.failed then 1 else 0
  {
    var all := Stopped(failed) + if report.failed then {ns} else {};
    assert |all| <= |Stopped(failed)| + if report.failed then 1 else 0;
    Smaller(Stopped(failed[ns := report]), all);
  }

  lemma NoneStopped(failed: map<string, Report>)
    ensures |Stopped(failed)| == 0 ==> forall ns :: ns in failed ==> !failed[ns].failed
  {
    assert forall ns :: ns in failed && failed[ns].failed ==> ns in Stopped(failed);
  }

  /** One more namespace: a stopped one takes a call that was not served. */
  lemma StoppedCounted(o: Outcome, ns: string, report: Report, fate: nat -> Fate, from: nat, mid: nat, end: nat)
    requires from <= mid <= end
    requires |Stopped(o.failed)| <= Failures(fate, from, mid)
    requires report.failed ==> !AllServed(fate, mid, end)
    ensures |Stopped(Recorded(o, ns, report).failed)| <= Failures(fate, from, end)
  {
    StoppedNext(o.failed, ns, report);
    FailuresAdd(fate, from, mid, end);
    NoFailures(fate, mid, end);
  }

  lemma Smaller<T>(some: set<T>, all: set<T>)
    requires some <= all
    ensures |some| <= |all|
  {
    assert all == some + (all - some);
  }

  /** A namespace that is not targeted adds no key. */
  lemma SkippedNamespace(job: Job, nss: set<string>, ns: string)
    requires !TargetsNamespace(ns, job.spec)
    ensures SelectedKeys(job.glob, job.spec, nss + {ns}) == SelectedKeys(job.glob, job.spec, nss)
    ensures CoveredKeys(job.spec, nss + {ns}) == CoveredKeys(job.spec, nss)
  {
  }

  // Cleanup.

  /** The keys these names stand for. */
  ghost function KeysOf(kind: Kind, ns: string, names: seq<string>): set<Key> {
    set name | name in names :: Key(kind, ns, name)
  }

  lemma KeysOfNext(kind: Kind, ns: string, names: seq<string>, i: nat)
    requires i < |names|
    ensures KeysOf(kind, ns, names[..i + 1]) == KeysOf(kind, ns, names[..i]) + {Key(kind, ns, names[i])}
  {
  }

  lemma FailureCounted(fate: nat -> Fate, from: nat, mid: nat, end: nat, failed: bool)
    requires from <= mid <= end
    requires failed ==> !AllServed(fate, mid, end)
    ensures Failures(fate, from, end) >= Failures(fate, from, mid) + if failed then 1 else 0
  {
  }

  /** One more key was seen clean, or is stuck. */
  lemma OneMorePurged(job: Job, keys: set<Key>, stuck: set<Key>, k: Key, ok: bool, start: nat, midPast: seq<Objects>,
      mid: nat, past: seq<Objects>)
    requires Purged(job, keys - stuck, start, midPast) && midPast <= past && start <= mid
    requires ok ==> SeenClean(job.spec.source, k, mid, past)
    ensures Purged(job, keys + {k} - if ok then stuck else stuck + {k}, start, past)
  {
  }

  /** Removing one more unneeded copy; what could not be removed is stuck. */
  lemma CopyRemoved(job: Job, start: Objects, mid: Objects, end: Objects, keys: set<Key>, stuck: set<Key>, k: Key,
      ok: bool)
    requires Reached(Cleaning, job, start, mid, keys, keys - stuck) && Foreign(job, keys)
    requires RemovalHandled(job.spec, k, mid, end, ok)
    requires !Needed(job.glob, job.peers, job.spec.source, k)
    ensures var stuckNow := if ok then stuck else stuck + {k};
      Reached(Cleaning, job, start, end, keys + {k}, keys + {k} - stuckNow)
  {
    var done := if ok then {k} else {};
    HandledReached(Cleaning, job, k, mid, end, ok);
    ReachedTogether(Cleaning, job, start, mid, end, keys, keys - stuck, {k}, done);
    ReachedWeaker(Cleaning, job, start, end, keys + {k}, keys - stuck + done, keys + {k},
      keys + {k} - if ok then stuck else stuck + {k});
  }

  /** Names that are needed were left out, which is where their cleanup ends. */
  lemma NeededNamesKept(job: Job, start: Objects, end: Objects, keys: set<Key>, free: set<Key>, stuck: set<Key>)
    requires Reached(Cleaning, job, start, end, free, free - stuck)
    requires forall k :: k in free <==> k in keys && !Needed(job.glob, job.peers, job.spec.source, k)
    ensures Reached(Cleaning, job, start, end, keys, keys - stuck)
  {
  }

  lemma KindsCovered(s: Spec, ns: string)
    requires TargetsNamespace(ns, s)
    ensures CoveredKeys(s, {ns}) == KeysOf(Secret, ns, s.secrets) + KeysOf(ConfigMap, ns, s.configMaps)
  {
  }

  lemma CoveredTogether(s: Spec, nss: set<string>, ns: string)
    ensures CoveredKeys(s, nss + {ns}) == CoveredKeys(s, nss) + CoveredKeys(s, {ns})
  {
  }

  /** Two cleanups after another. */
  lemma CleanedTogether(job: Job, start: Objects, mid: Objects, end: Objects, first: set<Key>, stuck: set<Key>,
      second: set<Key>, stuckToo: set<Key>)
    requires Reached(Cleaning, job, start, mid, first, first - stuck) && Foreign(job, first)
    requires Reached(Cleaning, job, mid, end, second, second - stuckToo)
    ensures Reached(Cleaning, job, start, end, first + second, first + second - (stuck + stuckToo))
  {
    ReachedTogether(Cleaning, job, start, mid, end, first, first - stuck, second, second - stuckToo);
    ReachedWeaker(Cleaning, job, start, end, first + second, (first - stuck) + (second - stuckToo), first + second,
      first + second - (stuck + stuckToo));
  }

  /** What is not clean is stuck. */
  lemma UncleanIsStuck(job: Job, nss: set<string>, start: Objects, end: Objects, stuck: set<Key>)
    requires var keys := CoveredKeys(job.spec, nss); Reached(Cleaning, job, start, end, keys, keys - stuck)
    ensures |Unclean(job, nss, Contents(start), Contents(end))| <= |stuck|
  {
    forall k | k in Unclean(job, nss, Contents(start), Contents(end)) ensures k in stuck {
      CellOfContents(start, k);
      CellOfContents(end, k);
    }
    Smaller(Unclean(job, nss, Contents(start), Contents(end)), stuck);
  }

  /** What a cleanup amounts to that left these keys stuck. */
  lemma CleanupConcluded(job: Job, nss: set<string>, start: Objects, end: Objects, stuck: set<Key>)
    requires var keys := CoveredKeys(job.spec, nss); Reached(Cleaning, job, start, end, keys, keys - stuck)
    ensures PartlyCleaned(job, nss, Contents(start), Contents(end))
    ensures |Unclean(job, nss, Contents(start), Contents(end))| <= |stuck|
    ensures Contents(end) == Contents(start) ==> end == start
    ensures stuck == {} ==> Contents(end) == CleanedUp(job, nss, Contents(start))
  {
    var keys := CoveredKeys(job.spec, nss);
    ReachedPartlyCleaned(job, nss, start, end, keys, keys - stuck);
    UncleanIsStuck(job, nss, start, end, stuck);
    if Contents(end) == Contents(start) {
      ReachedIdle(Cleaning, job, start, end, keys, keys - stuck);
    }
    if stuck == {} {
      assert keys - stuck == keys;
      ReachedCleaned(job, nss, start, end, keys);
    }
  }

  lemma {:induction false} NothingCleaned(job: Job, objects: Objects)
    ensures Reached(Cleaning, job, objects, objects, {}, {})
    ensures CoveredKeys(job.spec, {}) == {}
  {
  }

  lemma NothingCleanedYet(job: Job, objects: Objects, keys: set<Key>)
    ensures Reached(Cleaning, job, objects, objects, keys, {})
  {
  }

  /** What is known of a sync whether or not it got to report: some keys had their step, and nothing was written
      that did not change. */
  ghost predicate PartlyDone(job: Job, nss: set<string>, start: Objects, end: Objects) {
    && PartlyReconciled(job, nss, Contents(start), Contents(end))
    && NoIdleWrite(start, end)
  }

  /** Objects that have the contents they had are the same versions. */
  ghost predicate NoIdleWrite(start: Objects, end: Objects) {
    Contents(end) == Contents(start) ==> end == start
  }

  lemma NothingDone(job: Job, nss: set<string>, objects: Objects)
    ensures PartlyDone(job, nss, objects, objects)
  {
  }

  // The status.

  function StatusOf(o: Outcome): Status {
    Status(o.synced, o.failed, ReadyCondition(o.synced, o.failed, o.conflicted))
  }

  /** The status is a faithful summary: synced and failed namespaces partition the targeted ones, and the Ready
      condition says whether anything failed, and what. */
  ghost predicate Faithful(s: Spec, nss: set<string>, st: Status) {
    var broken := exists ns :: ns in st.failed && st.failed[ns].failed;
    && Distinct(st.synced)
    && (forall ns :: ns in st.synced <==> ns in nss && TargetsNamespace(ns, s) && ns !in st.failed)
    && (forall ns :: ns in st.failed ==> ns in nss && TargetsNamespace(ns, s))
    && (st.condition.ready <==> st.condition.reason != SyncFailed)
    && (st.condition.reason == SyncFailed <==> st.synced == [] && broken)
    && (st.condition.reason == PartialSync <==> st.synced != [] && broken)
    && (st.condition.reason == SyncConflict <==> st.failed != map[] && !broken)
    && (st.condition.reason == SyncComplete <==> st.failed == map[])
  }

  lemma OutcomeFaithful(s: Spec, nss: set<string>, o: Outcome)
    requires Partitions(s, nss, o)
    ensures Faithful(s, nss, StatusOf(o))
  {
    ConditionMeans(o.synced, o.failed, o.conflicted);
  }
}
