/** The controller (internal/controller/resources.go, sync.go and namespacesync_controller.go). */
module Reconcilers {
  import opened Types
  import opened Filters
  import opened Copies
  import opened Conflicts
  import opened Terms
  import opened Steps
  import opened Rounds
  import opened Worlds
  import opened Statuses
  import opened ApiServers
  import opened Progress
  import opened Drafts
  import opened Handling

  /** How a reconcile ended: nothing to do, again after the interval, again after an error, or not again. */
  datatype Result = Done | Requeue | Retry | Terminal

  class NamespaceSyncReconciler {
    const api: ApiServer
    const glob: Glob

    constructor (api: ApiServer, glob: Glob)
      ensures this.api == api && this.glob == glob
    {
      this.api, this.glob := api, glob;
    }

    /** The job of a sync with this spec, judged by these peers. */
    ghost function JobWith(peers: set<Spec>, s: Spec, now: string): Job {
      Job(glob, api.admit, peers, s, now)
    }

    /** Deletes the version of a managed copy that was read. */
    method DeleteVersion(k: Key, stored: Stored, s: Spec) returns (r: Removal)
      requires api.Valid()
      requires api.Quiet() ==> Lookup(api.objects, k) == Some(stored)
      requires stored.rev in api.history && api.history[stored.rev] == (k, stored)
      requires IsManagedCopy(stored.content, s.source, k.name)
      modifies api`calls, api`objects, api`revision, api`history, api`writes, api`past
      ensures api.Valid() && api.Advanced()
      ensures api.Quiet() ==> RemovalHandled(s, k, old(api.objects), api.objects, r != RemovalFailed)
      ensures api.Quiet() && r == RemovalFailed ==> !AllServed(api.fate, old(api.calls), api.calls)
      ensures r != RemovalFailed ==> k !in api.objects
      ensures RemovesSince(k, s.source, api.syncs, |old(api.writes)|, api.writes)
    {
      api.Interfere();
      var answer := api.Delete(k, stored.uid, stored.rev);
      r := if answer.Found? then Deleted else if answer.NotFound? then Kept else RemovalFailed;
    }

    /** Deletes the object at k only if it is a copy synced from the source of s. */
    method DeleteManagedCopy(k: Key, s: Spec) returns (r: Removal)
      requires api.Valid()
      modifies api`calls, api`objects, api`revision, api`history, api`writes, api`past
      ensures api.Valid() && api.Advanced()
      ensures api.Quiet() ==> RemovalHandled(s, k, old(api.objects), api.objects, r != RemovalFailed)
      ensures api.Quiet() && r == RemovalFailed ==> !AllServed(api.fate, old(api.calls), api.calls)
      ensures r != RemovalFailed ==> SeenClean(s.source, k, old(api.Now()).state, api.past)
      ensures RemovesSince(k, s.source, api.syncs, |old(api.writes)|, api.writes)
    {
      ghost var since := api.Now().state;
      api.Interfere();
      var got := api.Get(k);
      if got.Error? {
        return RemovalFailed;
      }
      if got.NotFound? || !IsManagedCopy(got.value.content, s.source, k.name) {
        SeenNow(s.source, k, since, api.past);
        return Kept;
      }
      r := DeleteVersion(k, got.value, s);
      if r != RemovalFailed {
        SeenNow(s.source, k, since, api.past);
      }
    }

    /** Asks the guard and merges desired into the object that was read. */
    method PrepareUpdate(desired: Draft, stored: Stored, peers: seq<NamespaceSync>, s: Spec, ghost now: string)
      returns (refused: bool, changed: bool, merged: Content)
      ensures refused <==> !MayOverwrite(JobWith(SpecsOf(peers), s, now), desired.key, Some(stored.content))
      ensures !refused ==>
        merged == KeepLastSync(stored.content, desired.Value()) && (changed <==> merged != stored.content)
    {
      var existing := new Draft.Decoded(desired.key, stored);
      var refusal := CopyConflictGuard(glob, peers, s.source, desired.key.ns in s.targets, desired.key,
        existing.Value());
      if refusal.Some? {
        return true, false, existing.Value();
      }
      changed := Merge(desired, existing);
      refused, merged := false, existing.Value();
    }

    /** Updates the version that was read, unless a user changed it since. */
    method SendUpdate(ghost desired: Content, content: Content, stored: Stored, k: Key, ghost job: Job)
      returns (r: Verdict)
      requires api.Valid() && job.admit == api.admit
      requires stored.rev in api.history && api.history[stored.rev] == (k, stored)
      requires api.Quiet() ==> Lookup(api.objects, k) == Some(stored)
      requires MayOverwrite(job, k, Some(stored.content))
      requires content == KeepLastSync(stored.content, desired) && content != stored.content
      modifies api`calls, api`objects, api`revision, api`history, api`writes, api`past
      ensures api.Valid() && api.Advanced()
      ensures api.Quiet() ==> UpsertHandled(job, k, desired, old(api.objects), api.objects, r)
      ensures api.Quiet() && r == Failed ==> !AllServed(api.fate, old(api.calls), api.calls)
      ensures UpsertsSince(job, k, desired, api.syncs, |old(api.writes)|, api.writes)
      ensures forall i :: |old(api.writes)| <= i < |api.writes| ==> api.writes[i].before == Some(stored)
    {
      ghost var log := api.writes;
      api.Interfere();
      ghost var before := api.objects;
      var updated := api.Update(k, content, stored.rev);
      r := if updated then Synced else Failed;
      if api.writes != log {
        assert before[k] == stored;
        UpdateLogged(job, k, desired, api.syncs, log, api.writes,
          Write(k, Some(stored), Some(api.objects[k]), api.syncs));
      }
      if api.Quiet() {
        UpdateHandled(job, k, desired, before, api.objects, r);
      }
    }

    /** The second half of createOrUpdateResource, which found an object. Whatever users do, only the version that was
        read, and that the guard allowed to overwrite, is updated. */
    method UpdateResource(desired: Draft, stored: Stored, peers: seq<NamespaceSync>, s: Spec, now: string)
      returns (r: Verdict)
      requires api.Valid()
      requires stored.rev in api.history && api.history[stored.rev] == (desired.key, stored)
      requires api.Quiet() ==> Lookup(api.objects, desired.key) == Some(stored)
      modifies api`calls, api`objects, api`revision, api`history, api`writes, api`past
      ensures api.Valid() && api.Advanced()
      ensures api.Quiet() ==>
        UpsertHandled(JobWith(SpecsOf(peers), s, now), desired.key, desired.Value(), old(api.objects), api.objects, r)
      ensures api.Quiet() && r == Failed ==> !AllServed(api.fate, old(api.calls), api.calls)
      ensures var job := JobWith(SpecsOf(peers), s, now);
        UpsertsSince(job, desired.key, desired.Value(), api.syncs, |old(api.writes)|, api.writes)
      ensures forall i :: |old(api.writes)| <= i < |api.writes| ==> api.writes[i].before == Some(stored)
    {
      var refused, changed, merged := PrepareUpdate(desired, stored, peers, s, now);
      if refused {
        return Conflicted;
      }
      if !changed {
        return Synced;
      }
      r := SendUpdate(desired.Value(), merged, stored, desired.key, JobWith(SpecsOf(peers), s, now));
    }

    /** createOrUpdateResource where the read found nothing. */
    method CreateResource(desired: Draft, ghost job: Job) returns (r: Verdict)
      requires api.Valid() && job.admit == api.admit
      requires api.Quiet() ==> desired.key !in api.objects
      modifies api`calls, api`objects, api`revision, api`history, api`writes, api`past
      ensures api.Valid() && api.Advanced()
      ensures api.Quiet() ==> UpsertHandled(job, desired.key, desired.Value(), old(api.objects), api.objects, r)
      ensures api.Quiet() && r == Failed && desired.key.ns in api.namespaces ==>
        !AllServed(api.fate, old(api.calls), api.calls)
      ensures UpsertsSince(job, desired.key, desired.Value(), api.syncs, |old(api.writes)|, api.writes)
      ensures forall i :: |old(api.writes)| <= i < |api.writes| ==> api.writes[i].before == None
    {
      var k := desired.key;
      var content := desired.Value();
      ghost var log := api.writes;
      api.Interfere();
      ghost var before := api.objects;
      var created := api.Create(k, content);
      r := if created then Synced else Failed;
      if k !in before && k in api.objects {
        CreateLogged(job, k, content, api.syncs, log, api.writes, Write(k, None, Some(api.objects[k]), api.syncs));
      }
      if api.Quiet() {
        CreateHandled(job, k, content, before, api.objects, r);
      }
    }

    /** Creates desired, or updates the existing object to match it, unless the guard refuses. The object desired and
        its maps are left as they are. */
    method CreateOrUpdateResource(desired: Draft, peers: seq<NamespaceSync>, s: Spec, now: string) returns (r: Verdict)
      requires api.Valid()
      modifies api`calls, api`objects, api`revision, api`history, api`writes, api`past
      ensures api.Valid() && api.Advanced()
      ensures api.Quiet() ==>
        UpsertHandled(JobWith(SpecsOf(peers), s, now), desired.key, desired.Value(), old(api.objects), api.objects, r)
      ensures api.Quiet() && r == Failed && desired.key.ns in api.namespaces ==>
        !AllServed(api.fate, old(api.calls), api.calls)
      ensures var job := JobWith(SpecsOf(peers), s, now);
        UpsertsSince(job, desired.key, desired.Value(), api.syncs, |old(api.writes)|, api.writes)
    {
      api.Interfere();
      var got := api.CachedGet(desired.key);
      if got.Error? {
        return Failed;
      }
      if got.Found? {
        r := UpdateResource(desired, got.value, peers, s, now);
        return;
      }
      r := CreateResource(desired, JobWith(SpecsOf(peers), s, now));
    }

    /** removeStaleCopy: outside an explicit target, a peer's source is left alone. */
    method RemoveStaleCopy(k: Key, peers: seq<NamespaceSync>, s: Spec, now: string) returns (r: Verdict)
      requires api.Valid()
      modifies api`calls, api`objects, api`revision, api`history, api`writes, api`past
      ensures api.Valid() && api.Advanced()
      ensures r != Conflicted
      ensures api.Quiet() ==>
        if LeavesSource(JobWith(SpecsOf(peers), s, now), k) then r == Synced && api.objects == old(api.objects)
        else RemovalHandled(s, k, old(api.objects), api.objects, r == Synced)
      ensures api.Quiet() && r == Failed ==> !AllServed(api.fate, old(api.calls), api.calls)
      ensures RemovesSince(k, s.source, api.syncs, |old(api.writes)|, api.writes)
      ensures api.writes != old(api.writes) ==> !LeavesSource(JobWith(SpecsOf(peers), s, now), k)
      ensures k.ns !in s.targets && IsRead(glob, SpecsOf(peers), k) ==>
        r == Synced && api.objects == old(api.objects) && api.writes == old(api.writes)
    {
      ReadMeans(glob, SpecsOf(peers), k);
      if k.ns !in s.targets && SourceOwner(glob, peers, k).Some? {
        return Synced;
      }
      var removal := DeleteManagedCopy(k, s);
      r := if removal == RemovalFailed then Failed else Synced;
    }

    /** The copy of a source object as it is to be stored at k. */
    method BuildCopy(sk: Key, stored: Stored, k: Key, now: string) returns (desired: Draft)
      requires sk.name == k.name
      ensures fresh(desired) && desired.key == k
      ensures desired.Value() == Desired(stored.content, sk.ns, k.name, now)
    {
      var src := new Draft.Decoded(sk, stored);
      desired := new Draft(k, src.payload);
      CopyLabelsAndAnnotations(src, desired, now);
      FollowersOverNothing(stored.content);
    }

    /** The part of syncSecret and syncConfigMap after the source object was read. */
    method SyncFrom(sk: Key, source: Stored, k: Key, peers: seq<NamespaceSync>, s: Spec, now: string)
      returns (r: Verdict)
      requires api.Valid() && k.ns in api.namespaces && sk == s.SourceOf(k) && Selects(glob, s, k)
      requires Lookup(api.objects, sk) == Some(source)
      modifies api`calls, api`objects, api`revision, api`history, api`writes, api`past
      ensures api.Valid() && api.Advanced()
      ensures api.Quiet() ==> SyncHandled(JobWith(SpecsOf(peers), s, now), k, old(api.objects), api.objects, r)
      ensures api.Quiet() && r == Failed ==> !AllServed(api.fate, old(api.calls), api.calls)
      ensures LawfulSince(Syncing, JobWith(SpecsOf(peers), s, now), api.syncs, old(api.Now()), api.writes, api.past)
      ensures OnlyAt(k, |old(api.writes)|, api.writes)
      ensures k.ns !in s.targets && IsRead(glob, SpecsOf(peers), k) ==> r == Conflicted && api.writes == old(api.writes)
    {
      ReadMeans(glob, SpecsOf(peers), k);
      if k.ns !in s.targets && SourceOwner(glob, peers, k).Some? {
        return Conflicted;
      }
      ghost var before, since, job := api.objects, api.Now(), JobWith(SpecsOf(peers), s, now);
      assert api.past[since.state] == before;
      var desired := BuildCopy(sk, source, k, now);
      assert desired.Value() == DesiredBy(job, k, source.content);
      r := CreateOrUpdateResource(desired, peers, s, now);
      assert api.past[since.state] == before;
      UpsertsLawful(job, k, api.syncs, since, since.state, api.writes, api.past);
      if api.Quiet() {
        UpsertIsSync(job, k, before, api.objects, r);
      }
    }

    /** syncSecret and syncConfigMap: brings the object k in line with its source. */
    method SyncObject(k: Key, peers: seq<NamespaceSync>, s: Spec, now: string) returns (r: Verdict)
      requires api.Valid() && k.ns in api.namespaces && Selects(glob, s, k)
      modifies api`calls, api`objects, api`revision, api`history, api`writes, api`past
      ensures api.Valid() && api.Advanced()
      ensures api.Quiet() ==> SyncHandled(JobWith(SpecsOf(peers), s, now), k, old(api.objects), api.objects, r)
      ensures api.Quiet() && r == Failed ==> !AllServed(api.fate, old(api.calls), api.calls)
      ensures LawfulSince(Syncing, JobWith(SpecsOf(peers), s, now), api.syncs, old(api.Now()), api.writes, api.past)
      ensures OnlyAt(k, |old(api.writes)|, api.writes)
      ensures k.ns !in s.targets && IsRead(glob, SpecsOf(peers), k) ==>
        && api.writes == old(api.writes)
        && (api.Quiet() ==> api.objects == old(api.objects))
        && (api.Quiet() && r != Failed ==>
              r == if Key(k.kind, s.source, k.name) in old(api.objects) then Conflicted else Synced)
    {
      var sk := Key(k.kind, s.source, k.name);
      ghost var start := api.Now();
      api.Interfere();
      ghost var before, since, job := api.objects, api.Now(), JobWith(SpecsOf(peers), s, now);
      var got := api.Get(sk);
      if got.Error? {
        return Failed;
      }
      if got.NotFound? {
        r := RemoveStaleCopy(k, peers, s, now);
        RemovesLawful(Syncing, job, k, api.syncs, since, since.state, api.writes, api.past);
        if api.Quiet() {
          RemovalIsSync(job, k, before, api.objects, r);
        }
      } else {
        r := SyncFrom(sk, got.value, k, peers, s, now);
      }
      LawfulEarlier(Syncing, job, api.syncs, start, since, api.writes, api.past);
    }

    /** syncResourceList: a conflict only skips its name, another error stops the list after the first n names. */
    method SyncResourceList(kind: Kind, ns: string, peers: seq<NamespaceSync>, s: Spec, now: string)
      returns (conflicts: seq<Key>, failed: bool, ghost n: nat)
      requires api.Valid() && ns in api.namespaces && TargetsNamespace(ns, s) && s.source != ""
      modifies api`calls, api`objects, api`revision, api`history, api`writes, api`past
      ensures api.Valid() && api.Advanced()
      ensures n <= |s.Names(kind)| && (failed <==> n < |s.Names(kind)|)
      ensures api.Quiet() ==>
        ListHandled(JobWith(SpecsOf(peers), s, now), kind, ns, s.Names(kind), old(api.objects), api.objects, n,
          conflicts)
      ensures api.Quiet() && failed ==> !AllServed(api.fate, old(api.calls), api.calls)
      ensures LawfulSince(Syncing, JobWith(SpecsOf(peers), s, now), api.syncs, old(api.Now()), api.writes, api.past)
      ensures OnlyWanted(glob, s, kind, ns, |old(api.writes)|, api.writes)
    {
      ghost var job, start := JobWith(SpecsOf(peers), s, now), api.Now();
      var names := s.Names(kind);
      conflicts, failed := [], false;
      for i := 0 to |names|
        invariant api.Valid() && api.Advanced()
        invariant var keys := NamedKeys(glob, s, kind, ns, names[..i]); api.Quiet() ==>
          && Reached(Syncing, job, old(api.objects), api.objects, keys, keys)
          && Reports(job, old(api.objects), keys, conflicts)
        invariant LawfulSince(Syncing, job, api.syncs, start, api.writes, api.past)
        invariant OnlyWanted(glob, s, kind, ns, |old(api.writes)|, api.writes)
        invariant !failed
      {
        var k := Key(kind, ns, names[i]);
        ghost var keys := NamedKeys(glob, s, kind, ns, names[..i]);
        NamedKeysNext(glob, s, kind, ns, names, i);
        if !ShouldSyncResource(glob, names[i], s.Filter(kind)) {
          continue;
        }
        assert names[i] in names;
        ghost var mid, since, log, past := api.objects, api.Now(), api.writes, api.past;
        var r := SyncObject(k, peers, s, now);
        OneMoreWanted(glob, s, k, |old(api.writes)|, log, api.writes);
        LawfulTogether(Syncing, job, api.syncs, start, since, log, past, api.writes, api.past);
        if r == Failed {
          failed, n := true, i;
          if api.Quiet() {
            NameFailed(job, kind, ns, names, old(api.objects), mid, api.objects, i, conflicts);
          }
          return;
        }
        if api.Quiet() {
          NameSynced(job, old(api.objects), mid, api.objects, keys, k, r, conflicts);
        }
        if r == Conflicted {
          conflicts := conflicts + [k];
        }
      }
      n := |names|;
      assert names[..|names|] == names;
    }

    /** syncResources: both kinds in one namespace; an error in the first leaves the second out. */
    method SyncResources(ns: string, peers: seq<NamespaceSync>, s: Spec, now: string)
      returns (report: Report, ghost n: nat, ghost m: nat)
      requires api.Valid() && ns in api.namespaces && TargetsNamespace(ns, s) && s.source != ""
      modifies api`calls, api`objects, api`revision, api`history, api`writes, api`past
      ensures api.Valid() && api.Advanced()
      ensures api.Quiet() ==>
        KindsHandled(JobWith(SpecsOf(peers), s, now), ns, old(api.objects), api.objects, n, m, report)
      ensures api.Quiet() && report.failed ==> !AllServed(api.fate, old(api.calls), api.calls)
      ensures LawfulSince(Syncing, JobWith(SpecsOf(peers), s, now), api.syncs, old(api.Now()), api.writes, api.past)
    {
      ghost var job, start, before := JobWith(SpecsOf(peers), s, now), api.Now(), api.objects;
      var conflicts, failed;
      conflicts, failed, n := SyncResourceList(Secret, ns, peers, s, now);
      if failed {
        m := 0;
        if api.Quiet() {
          FirstKindFailed(job, ns, before, api.objects, n, conflicts);
        }
        return Report(conflicts, true), n, m;
      }
      ghost var mid, since, log, past := api.objects, api.Now(), api.writes, api.past;
      var more, failedToo;
      more, failedToo, m := SyncResourceList(ConfigMap, ns, peers, s, now);
      LawfulTogether(Syncing, job, api.syncs, start, since, log, past, api.writes, api.past);
      report := Report(conflicts + more, failedToo);
      if api.Quiet() {
        SecondKind(job, ns, before, mid, api.objects, m, conflicts, more);
      }
    }

    /** The loop of Reconcile over the listed namespaces. A call that is not served stops at most one of them. */
    method SyncNamespaces(items: seq<string>, peers: seq<NamespaceSync>, s: Spec, now: string)
      returns (synced: seq<string>, failed: map<string, Report>, conflicted: seq<string>)
      requires api.Valid() && s.source != "" && Distinct(items) && forall ns :: ns in items ==> ns in api.namespaces
      modifies api`calls, api`objects, api`revision, api`history, api`writes, api`past
      ensures api.Valid() && api.Advanced()
      ensures Partitions(s, (set ns | ns in items), Outcome(synced, failed, conflicted))
      ensures forall ns :: ns in synced || ns in failed <==> ns in items && InReach(s, ns)
      ensures api.Quiet() ==>
        LoopState(JobWith(SpecsOf(peers), s, now), (set ns | ns in items), old(api.objects), api.objects,
          synced, failed)
      ensures api.Quiet() ==> |Stopped(failed)| <= Failures(api.fate, old(api.calls), api.calls)
      ensures LawfulSince(Syncing, JobWith(SpecsOf(peers), s, now), api.syncs, old(api.Now()), api.writes, api.past)
    {
      ghost var job, start := JobWith(SpecsOf(peers), s, now), api.Now();
      synced, failed, conflicted := [], map[], [];
      ghost var nss: set<string> := {};
      LoopStarts(job, api.objects);
      for i := 0 to |items|
        invariant api.Valid() && api.Advanced()
        invariant nss == set ns | ns in items[..i]
        invariant Partitions(s, nss, Outcome(synced, failed, conflicted))
        invariant api.Quiet() ==> LoopState(job, nss, old(api.objects), api.objects, synced, failed)
        invariant api.Quiet() ==> |Stopped(failed)| <= Failures(api.fate, old(api.calls), api.calls)
        invariant LawfulSince(Syncing, job, api.syncs, start, api.writes, api.past)
      {
        var ns := items[i];
        ghost var o, before := Outcome(synced, failed, conflicted), nss;
        assert items[..i + 1] == items[..i] + [ns];
        assert ns !in before;
        nss := nss + {ns};
        if !TargetsNamespace(ns, s) {
          SkippedNamespace(job, before, ns);
          continue;
        }
        ghost var mid, call, since, log, past := api.objects, api.calls, api.Now(), api.writes, api.past;
        var report, n, m := SyncResources(ns, peers, s, now);
        LawfulTogether(Syncing, job, api.syncs, start, since, log, past, api.writes, api.past);
        RecordedPartitions(s, before, o, ns, report);
        if api.Quiet() {
          KindsAreNamespace(job, ns, mid, api.objects, n, m, report);
          NamespaceRecorded(job, before, old(api.objects), mid, api.objects, o, ns, report);
          StoppedCounted(o, ns, report, api.fate, old(api.calls), call, api.calls);
        }
        if report.failed {
          failed := failed[ns := report];
        } else if |report.conflicts| > 0 {
          conflicted := conflicted + [ns];
          failed := failed[ns := report];
        } else {
          synced := synced + [ns];
        }
        assert Outcome(synced, failed, conflicted) == Recorded(o, ns, report);
      }
      assert items[..|items|] == items;
      forall ns ensures TargetsNamespace(ns, s) <==> InReach(s, ns) {
        ReachMeans(s, ns);
      }
    }

    /** The syncs other than self that are not being deleted. */
    method ListPeers(self: SyncId) returns (r: Answer<seq<NamespaceSync>>)
      requires api.Valid()
      modifies api`calls
      ensures api.Valid() && api.Advanced() && api.calls == old(api.calls) + 1 && !r.NotFound?
      ensures r.Found? ==> forall p ::
        p in r.value <==> p.id in api.syncs && api.syncs[p.id] == p && p.id != self && !p.deleting
      ensures r.Found? ==> SpecsOf(r.value) == PeerSpecs(api.syncs, self)
      ensures r.Error? ==> api.fate(old(api.calls)) != Served
    {
      var list := api.ListSyncs();
      if list.Error? {
        return Error;
      }
      var items := list.value;
      var peers: seq<NamespaceSync> := [];
      for i := 0 to |items|
        invariant forall p :: p in peers <==> p in items[..i] && p.id != self && !p.deleting
      {
        assert items[..i + 1] == items[..i] + [items[i]];
        if items[i].id == self || items[i].deleting {
          continue;
        }
        peers := peers + [items[i]];
      }
      assert items[..|items|] == items;
      forall spec ensures spec in SpecsOf(peers) <==> spec in PeerSpecs(api.syncs, self) {
        if spec in PeerSpecs(api.syncs, self) {
          var id :| id in api.syncs && id != self && !api.syncs[id].deleting && api.syncs[id].spec == spec;
          assert api.syncs[id] in peers;
        }
      }
      r := Found(peers);
    }

    /** cleanupResource: deletes the named copies out of a namespace. A failed deletion is counted and leaves at most
        its own key, which is stuck, but does not stop the others. */
    method CleanupResource(kind: Kind, ns: string, names: seq<string>, s: Spec, ghost job: Job)
      returns (errors: nat, ghost stuck: set<Key>)
      requires api.Valid() && ns != s.source && job.spec == s
      requires forall name :: name in names ==>
        Covers(s, Key(kind, ns, name)) && !Needed(job.glob, job.peers, s.source, Key(kind, ns, name))
      modifies api`calls, api`objects, api`revision, api`history, api`writes, api`past
      ensures api.Valid() && api.Advanced()
      ensures |stuck| <= errors && (errors > 0 ==> stuck != {}) && stuck <= KeysOf(kind, ns, names)
      ensures var keys := KeysOf(kind, ns, names);
        api.Quiet() ==> Reached(Cleaning, job, old(api.objects), api.objects, keys, keys - stuck)
      ensures Purged(job, KeysOf(kind, ns, names) - stuck, old(api.Now()).state, api.past)
      ensures api.Quiet() ==> errors <= Failures(api.fate, old(api.calls), api.calls)
      ensures LawfulSince(Cleaning, job, api.syncs, old(api.Now()), api.writes, api.past)
    {
      ghost var start := api.Now();
      errors, stuck := 0, {};
      for i := 0 to |names|
        invariant api.Valid() && api.Advanced()
        invariant |stuck| <= errors && (errors > 0 ==> stuck != {}) && stuck <= KeysOf(kind, ns, names[..i])
        invariant var keys := KeysOf(kind, ns, names[..i]);
          api.Quiet() ==> Reached(Cleaning, job, old(api.objects), api.objects, keys, keys - stuck)
        invariant Purged(job, KeysOf(kind, ns, names[..i]) - stuck, start.state, api.past)
        invariant api.Quiet() ==> errors <= Failures(api.fate, old(api.calls), api.calls)
        invariant LawfulSince(Cleaning, job, api.syncs, start, api.writes, api.past)
      {
        var k := Key(kind, ns, names[i]);
        ghost var keys := KeysOf(kind, ns, names[..i]);
        KeysOfNext(kind, ns, names, i);
        ghost var mid, call, since, log, past := api.objects, api.calls, api.Now(), api.writes, api.past;
        var removal := DeleteManagedCopy(k, s);
        RemovesLawful(Cleaning, job, k, api.syncs, since, since.state, api.writes, api.past);
        LawfulTogether(Cleaning, job, api.syncs, start, since, log, past, api.writes, api.past);
        if api.Quiet() {
          CopyRemoved(job, old(api.objects), mid, api.objects, keys, stuck, k, removal != RemovalFailed);
          FailureCounted(api.fate, old(api.calls), call, api.calls, removal == RemovalFailed);
        }
        OneMorePurged(job, keys, stuck, k, removal != RemovalFailed, start.state, past, since.state, api.past);
        if removal == RemovalFailed {
          errors, stuck := errors + 1, stuck + {k};
        }
      }
      assert names[..|names|] == names;
    }

    /** The unclaimed copies of one kind in one namespace. */
    method CleanupKind(kind: Kind, ns: string, peers: seq<NamespaceSync>, s: Spec, now: string)
      returns (errors: nat, ghost stuck: set<Key>)
      requires api.Valid() && TargetsNamespace(ns, s)
      modifies api`calls, api`objects, api`revision, api`history, api`writes, api`past
      ensures api.Valid() && api.Advanced()
      ensures |stuck| <= errors && (errors > 0 ==> stuck != {})
      ensures var keys := KeysOf(kind, ns, s.Names(kind)); var job := JobWith(SpecsOf(peers), s, now);
        && (api.Quiet() ==> Reached(Cleaning, job, old(api.objects), api.objects, keys, keys - stuck))
        && Purged(job, keys - stuck, old(api.Now()).state, api.past)
      ensures api.Quiet() ==> errors <= Failures(api.fate, old(api.calls), api.calls)
      ensures LawfulSince(Cleaning, JobWith(SpecsOf(peers), s, now), api.syncs, old(api.Now()), api.writes, api.past)
    {
      ghost var job := JobWith(SpecsOf(peers), s, now);
      var free := Unclaimed(glob, peers, kind, s.source, ns, s.Names(kind));
      errors, stuck := CleanupResource(kind, ns, free, s, job);
      if api.Quiet() {
        NeededNamesKept(job, old(api.objects), api.objects, KeysOf(kind, ns, s.Names(kind)), KeysOf(kind, ns, free),
          stuck);
      }
    }

    /** Both kinds in one namespace. */
    method CleanupNamespace(ns: string, peers: seq<NamespaceSync>, s: Spec, now: string)
      returns (errors: nat, ghost stuck: set<Key>)
      requires api.Valid() && TargetsNamespace(ns, s)
      modifies api`calls, api`objects, api`revision, api`history, api`writes, api`past
      ensures api.Valid() && api.Advanced()
      ensures |stuck| <= errors && (errors > 0 ==> stuck != {})
      ensures var keys := CoveredKeys(s, {ns}); var job := JobWith(SpecsOf(peers), s, now);
        && (api.Quiet() ==> Reached(Cleaning, job, old(api.objects), api.objects, keys, keys - stuck))
        && Purged(job, keys - stuck, old(api.Now()).state, api.past)
      ensures api.Quiet() ==> errors <= Failures(api.fate, old(api.calls), api.calls)
      ensures LawfulSince(Cleaning, JobWith(SpecsOf(peers), s, now), api.syncs, old(api.Now()), api.writes, api.past)
    {
      ghost var job, start, before := JobWith(SpecsOf(peers), s, now), api.Now(), api.objects;
      ghost var secrets, configMaps := KeysOf(Secret, ns, s.secrets), KeysOf(ConfigMap, ns, s.configMaps);
      errors, stuck := CleanupKind(Secret, ns, peers, s, now);
      ghost var mid, call, since, log, past := api.objects, api.calls, api.Now(), api.writes, api.past;
      var more, stuckToo := CleanupKind(ConfigMap, ns, peers, s, now);
      LawfulTogether(Cleaning, job, api.syncs, start, since, log, past, api.writes, api.past);
      KindsCovered(s, ns);
      if api.Quiet() {
        CleanedTogether(job, before, mid, api.objects, secrets, stuck, configMaps, stuckToo);
        FailuresAdd(api.fate, old(api.calls), call, api.calls);
      }
      PurgedTogether(job, secrets - stuck, configMaps - stuckToo, secrets + configMaps - (stuck + stuckToo),
        start.state, past, since.state, api.past);
      errors, stuck := errors + more, stuck + stuckToo;
    }

    /** The loop of cleanupSyncedResources over the listed namespaces; errors are collected. */
    method CleanupNamespaces(items: seq<string>, peers: seq<NamespaceSync>, s: Spec, now: string)
      returns (errors: nat, ghost stuck: set<Key>)
      requires api.Valid()
      modifies api`calls, api`objects, api`revision, api`history, api`writes, api`past
      ensures api.Valid() && api.Advanced()
      ensures |stuck| <= errors && (errors > 0 ==> stuck != {})
      ensures var keys := CoveredKeys(s, (set ns | ns in items)); var job := JobWith(SpecsOf(peers), s, now);
        && (api.Quiet() ==> Reached(Cleaning, job, old(api.objects), api.objects, keys, keys - stuck))
        && Purged(job, keys - stuck, old(api.Now()).state, api.past)
      ensures api.Quiet() ==> errors <= Failures(api.fate, old(api.calls), api.calls)
      ensures LawfulSince(Cleaning, JobWith(SpecsOf(peers), s, now), api.syncs, old(api.Now()), api.writes, api.past)
    {
      ghost var job, start := JobWith(SpecsOf(peers), s, now), api.Now();
      ghost var nss: set<string> := {};
      NothingCleaned(job, api.objects);
      errors, stuck := 0, {};
      for i := 0 to |items|
        invariant api.Valid() && api.Advanced()
        invariant nss == set ns | ns in items[..i]
        invariant |stuck| <= errors && (errors > 0 ==> stuck != {})
        invariant var keys := CoveredKeys(s, nss);
          api.Quiet() ==> Reached(Cleaning, job, old(api.objects), api.objects, keys, keys - stuck)
        invariant Purged(job, CoveredKeys(s, nss) - stuck, start.state, api.past)
        invariant api.Quiet() ==> errors <= Failures(api.fate, old(api.calls), api.calls)
        invariant LawfulSince(Cleaning, job, api.syncs, start, api.writes, api.past)
      {
        var ns := items[i];
        assert items[..i + 1] == items[..i] + [ns];
        ghost var keys, these := CoveredKeys(s, nss), CoveredKeys(s, {ns});
        CoveredTogether(s, nss, ns);
        if !TargetsNamespace(ns, s) {
          SkippedNamespace(job, nss, ns);
          nss := nss + {ns};
          continue;
        }
        nss := nss + {ns};
        ghost var mid, call, since, log, past := api.objects, api.calls, api.Now(), api.writes, api.past;
        var more, stuckToo := CleanupNamespace(ns, peers, s, now);
        LawfulTogether(Cleaning, job, api.syncs, start, since, log, past, api.writes, api.past);
        if api.Quiet() {
          CleanedTogether(job, old(api.objects), mid, api.objects, keys, stuck, these, stuckToo);
          FailuresAdd(api.fate, old(api.calls), call, api.calls);
        }
        PurgedTogether(job, keys - stuck, these - stuckToo, keys + these - (stuck + stuckToo),
          start.state, past, since.state, api.past);
        errors, stuck := errors + more, stuck + stuckToo;
      }
      assert items[..|items|] == items;
    }

    /** cleanupSyncedResources: every targeted namespace. Once namespaces and peers are listed, a call that is not
        served leaves at most one key that is not cleaned. */
    method CleanupSyncedResources(id: SyncId, s: Spec, now: string) returns (ok: bool, ghost stuck: set<Key>)
      requires api.Valid() && id in api.syncs && api.syncs[id].spec == s
      modifies api`calls, api`objects, api`revision, api`history, api`writes, api`past
      ensures api.Valid() && api.Advanced()
      ensures ok ==> stuck == {}
      ensures api.Quiet() && !ok ==> !AllServed(api.fate, old(api.calls), api.calls)
      ensures var keys := CoveredKeys(s, api.namespaces); var job := JobFor(glob, api.admit, api.syncs, id, now);
        && (api.Quiet() ==> Reached(Cleaning, job, old(api.objects), api.objects, keys, keys - stuck))
        && Purged(job, keys - stuck, old(api.Now()).state, api.past)
      ensures api.Quiet() && AllServed(api.fate, old(api.calls), old(api.calls) + 2) ==>
        |stuck| <= Failures(api.fate, old(api.calls), api.calls)
      ensures LawfulSince(Cleaning, JobFor(glob, api.admit, api.syncs, id, now), api.syncs, old(api.Now()), api.writes,
        api.past)
    {
      var list := api.ListNamespaces();
      if list.Error? {
        NothingCleanedYet(JobFor(glob, api.admit, api.syncs, id, now), api.objects, CoveredKeys(s, api.namespaces));
        return false, CoveredKeys(s, api.namespaces);
      }
      var peers := ListPeers(id);
      if peers.Error? {
        NothingCleanedYet(JobFor(glob, api.admit, api.syncs, id, now), api.objects, CoveredKeys(s, api.namespaces));
        return false, CoveredKeys(s, api.namespaces);
      }
      assert (set ns | ns in list.value) == api.namespaces && api.Now() == old(api.Now());
      ghost var call := api.calls;
      var errors;
      errors, stuck := CleanupNamespaces(list.value, peers.value, s, now);
      FailuresAdd(api.fate, old(api.calls), call, api.calls);
      NoFailures(api.fate, old(api.calls), api.calls);
      ok := errors == 0;
    }

    /** handleDeletionAndStatus: the finalizer goes once the cleanup succeeded, which leaves no copy unseen. */
    method HandleDeletion(sync: NamespaceSync, now: string) returns (result: Result)
      requires api.Valid() && sync.id in api.syncs && api.syncs[sync.id] == sync && sync.deleting
      modifies api`calls, api`objects, api`revision, api`history, api`writes, api`past, api`syncs
      ensures api.Valid() && api.Advanced()
      ensures result == Done || (result == Retry && old(Holds(api.syncs, sync.id)))
      ensures api.Quiet() ==> MayReconcile(glob, api.admit, old(api.State()), sync.id, now, api.State())
      ensures api.Quiet() && AllServed(api.fate, old(api.calls), api.calls) ==>
        result == Done && api.State() == ReconcileWorld(glob, api.admit, old(api.State()), sync.id, now)
      ensures var job := JobFor(glob, api.admit, old(api.syncs), sync.id, now);
        api.Quiet() && old(Dying(api.syncs, sync.id)) && AllServed(api.fate, old(api.calls), old(api.calls) + 2) ==>
          |Unclean(job, api.namespaces, old(Contents(api.objects)), Contents(api.objects))|
            <= Failures(api.fate, old(api.calls), api.calls)
      ensures api.Quiet() ==> NoIdleWrite(old(api.objects), api.objects)
      ensures KeepsRules(JobFor(glob, api.admit, old(api.syncs), sync.id, now), sync, old(api.syncs), api.syncs,
        api.namespaces, old(api.Now()), api.writes, api.past)
    {
      if FINALIZER !in sync.finalizers {
        return Done;
      }
      ghost var job, start, w := JobFor(glob, api.admit, api.syncs, sync.id, now), api.objects, api.State();
      assert job == JobFor(glob, api.admit, w.syncs, sync.id, now);
      var ok, stuck := CleanupSyncedResources(sync.id, sync.spec, now);
      if api.Quiet() {
        CleanupConcluded(job, api.namespaces, start, api.objects, stuck);
        FailuresAdd(api.fate, old(api.calls), api.calls, api.calls + 1);
      }
      if !ok {
        return Retry;
      }
      assert CoveredKeys(sync.spec, api.namespaces) - stuck == CoveredKeys(sync.spec, api.namespaces);
      assert api.State() == World(Contents(api.objects), w.syncs, w.namespaces);
      var answer := api.RemoveFinalizer(sync.id);
      result := if answer.Error? then Retry else Done;
    }

    /** Adds the finalizer, unless the sync as read at first, or its latest version, has it. */
    method EnsureFinalizer(sync: NamespaceSync) returns (ok: bool)
      requires api.Valid() && sync.id in api.syncs && (FINALIZER in sync.finalizers ==> Holds(api.syncs, sync.id))
      modifies api`calls, api`syncs
      ensures api.Valid() && api.Advanced()
      ensures api.syncs == old(api.syncs) || api.syncs == Held(old(api.syncs), sync.id)
      ensures ok ==> Holds(api.syncs, sync.id) && api.syncs == Held(old(api.syncs), sync.id)
      ensures !ok ==> !AllServed(api.fate, old(api.calls), api.calls)
    {
      if FINALIZER in sync.finalizers {
        AlreadyHeld(api.syncs, sync.id);
        return true;
      }
      var latest := api.GetSync(sync.id);
      if !latest.Found? {
        return false;
      }
      if FINALIZER in latest.value.finalizers {
        AlreadyHeld(api.syncs, sync.id);
        return true;
      }
      ok := api.AddFinalizer(sync.id);
    }

    /** updateStatus. */
    method ReportStatus(id: SyncId, synced: seq<string>, failed: map<string, Report>, conflicted: seq<string>)
      returns (ok: bool)
      requires api.Valid() && id in api.syncs
      modifies api`calls, api`statuses
      ensures api.Valid() && api.Advanced()
      ensures ok ==> api.statuses == old(api.statuses)[id := StatusOf(Outcome(synced, failed, conflicted))]
      ensures api.statuses == old(api.statuses)
        || api.statuses == old(api.statuses)[id := StatusOf(Outcome(synced, failed, conflicted))]
      ensures !ok ==> !AllServed(api.fate, old(api.calls), api.calls)
    {
      var latest := api.GetSync(id);
      if !latest.Found? {
        return false;
      }
      ok := api.UpdateStatus(id, Status(synced, failed, ReadyCondition(synced, failed, conflicted)));
    }

    /** updateInvalidSpecStatus; a failure to record it is only logged. */
    method ReportInvalidSpec(id: SyncId)
      requires api.Valid() && id in api.syncs
      modifies api`calls, api`statuses
      ensures api.Valid() && api.Advanced()
      ensures api.statuses == old(api.statuses)[id := Status([], map[], Condition(false, InvalidSpec))]
        || (api.statuses == old(api.statuses) && !AllServed(api.fate, old(api.calls), api.calls))
    {
      var latest := api.GetSync(id);
      if latest.Found? {
        var _ := api.UpdateStatus(id, Status([], map[], Condition(false, InvalidSpec)));
      }
    }

    /** Lists namespaces and peers and syncs every targeted namespace. */
    method SyncAll(id: SyncId, s: Spec, now: string, ghost job: Job) returns (r: Option<Outcome>)
      requires api.Valid() && id in api.syncs && s.source != ""
      requires job == JobWith(PeerSpecs(api.syncs, id), s, now)
      modifies api`calls, api`objects, api`revision, api`history, api`writes, api`past
      ensures api.Valid() && api.Advanced()
      ensures r.Some? ==> Partitions(s, api.namespaces, r.value)
      ensures api.Quiet() ==> PartlyDone(job, api.namespaces, old(api.objects), api.objects)
      ensures api.Quiet() && r.Some? ==>
        Concluded(job, api.namespaces, old(api.objects), api.objects, r.value.synced, r.value.failed)
      ensures r.None? ==> !AllServed(api.fate, old(api.calls), api.calls)
      ensures api.Quiet() && r.Some? ==> |Stopped(r.value.failed)| <= Failures(api.fate, old(api.calls), api.calls)
      ensures LawfulSince(Syncing, job, api.syncs, old(api.Now()), api.writes, api.past)
    {
      ghost var start := api.objects;
      NothingDone(job, api.namespaces, start);
      var list := api.ListNamespaces();
      if list.Error? {
        return None;
      }
      var peers := ListPeers(id);
      if peers.Error? {
        return None;
      }
      assert (set ns | ns in list.value) == api.namespaces && api.Now() == old(api.Now());
      ghost var call := api.calls;
      var synced, failed, conflicted := SyncNamespaces(list.value, peers.value, s, now);
      FailuresAdd(api.fate, old(api.calls), call, api.calls);
      r := Some(Outcome(synced, failed, conflicted));
      if api.Quiet() {
        LoopConcluded(job, api.namespaces, start, api.objects, r.value);
      }
    }

    /** The second half of Reconcile: syncs and reports the status. */
    method SyncAndReport(id: SyncId, s: Spec, now: string, ghost job: Job) returns (result: Result)
      requires api.Valid() && id in api.syncs && s.source != ""
      requires job == JobWith(PeerSpecs(api.syncs, id), s, now)
      modifies api`calls, api`objects, api`revision, api`history, api`writes, api`past, api`statuses
      ensures api.Valid() && api.Advanced()
      ensures result == Requeue || result == Retry
      ensures api.Quiet() ==>
        PartlyDone(job, api.namespaces, old(api.objects), api.objects)
      ensures OthersSame(old(api.statuses), api.statuses, id)
      ensures result == Requeue ==> id in api.statuses && Faithful(s, api.namespaces, api.statuses[id])
      ensures result == Requeue && api.Quiet() ==>
        && Concluded(job, api.namespaces, old(api.objects), api.objects,
             api.statuses[id].synced, api.statuses[id].failed)
        && |Stopped(api.statuses[id].failed)| <= Failures(api.fate, old(api.calls), api.calls)
      ensures AllServed(api.fate, old(api.calls), api.calls) ==> result == Requeue
      ensures api.Quiet() && AllServed(api.fate, old(api.calls), api.calls) ==>
        Contents(api.objects) == Reconciled(job, api.namespaces, old(Contents(api.objects)))
      ensures LawfulSince(Syncing, job, api.syncs, old(api.Now()), api.writes, api.past)
    {
      var r := SyncAll(id, s, now, job);
      if r.None? {
        return Retry;
      }
      var o := r.value;
      OutcomeFaithful(s, api.namespaces, o);
      ghost var call := api.calls;
      var reported := ReportStatus(id, o.synced, o.failed, o.conflicted);
      assert reported ==> api.statuses[id] == StatusOf(o);
      FailuresAdd(api.fate, old(api.calls), call, api.calls);
      NoFailures(api.fate, old(api.calls), api.calls);
      NoneStopped(o.failed);
      result := if reported then Requeue else Retry;
    }

    /** The part of Reconcile for a live valid sync: takes the finalizer, then syncs and reports. */
    method SyncLive(sync: NamespaceSync, now: string) returns (result: Result)
      requires api.Valid() && sync.id in api.syncs && api.syncs[sync.id] == sync
      requires !sync.deleting && ValidSpec(glob, sync.spec)
      modifies api`calls, api`objects, api`revision, api`history, api`writes, api`past, api`syncs, api`statuses
      ensures api.Valid() && api.Advanced()
      ensures result == Requeue || result == Retry
      ensures api.Quiet() ==> MayReconcile(glob, api.admit, old(api.State()), sync.id, now, api.State())
      ensures api.Quiet() && AllServed(api.fate, old(api.calls), api.calls) ==>
        api.State() == ReconcileWorld(glob, api.admit, old(api.State()), sync.id, now)
      ensures api.Quiet() ==> NoIdleWrite(old(api.objects), api.objects)
      ensures OthersSame(old(api.statuses), api.statuses, sync.id)
      ensures result == Requeue ==>
        sync.id in api.statuses && Faithful(sync.spec, api.namespaces, api.statuses[sync.id])
      ensures result == Requeue && api.Quiet() ==>
        && Concluded(JobFor(glob, api.admit, old(api.syncs), sync.id, now), api.namespaces, old(api.objects),
             api.objects, api.statuses[sync.id].synced, api.statuses[sync.id].failed)
        && |Stopped(api.statuses[sync.id].failed)| <= Failures(api.fate, old(api.calls), api.calls)
      ensures AllServed(api.fate, old(api.calls), api.calls) ==> result == Requeue
      ensures KeepsRules(JobFor(glob, api.admit, old(api.syncs), sync.id, now), sync, old(api.syncs), api.syncs,
        api.namespaces, old(api.Now()), api.writes, api.past)
    {
      ghost var job, w, start := JobFor(glob, api.admit, api.syncs, sync.id, now), api.State(), api.objects;
      NothingDone(job, api.namespaces, start);
      var held := EnsureFinalizer(sync);
      if !held {
        LiveWorld(glob, api.admit, w, sync.id, now, api.syncs, start, start);
        return Retry;
      }
      SamePeers(w.syncs, sync.id);
      assert api.Now() == old(api.Now());
      ghost var call := api.calls;
      result := SyncAndReport(sync.id, sync.spec, now, job);
      FailuresAdd(api.fate, old(api.calls), call, api.calls);
      assert api.State() == World(Contents(api.objects), api.syncs, w.namespaces);
      if api.Quiet() {
        LiveWorld(glob, api.admit, w, sync.id, now, api.syncs, start, api.objects);
      }
    }

    /** Reconcile: deletion before validation, the finalizer before the first write. */
    method Reconcile(id: SyncId, now: string) returns (result: Result)
      requires api.Valid()
      modifies api`calls, api`objects, api`revision, api`history, api`writes, api`past, api`syncs, api`statuses
      ensures api.Valid() && api.Advanced()
      // Without interference.
      ensures api.Quiet() ==> MayReconcile(glob, api.admit, old(api.State()), id, now, api.State())
      ensures api.Quiet() && AllServed(api.fate, old(api.calls), api.calls) ==>
        api.State() == ReconcileWorld(glob, api.admit, old(api.State()), id, now)
      ensures api.Quiet() ==> NoIdleWrite(old(api.objects), api.objects)
      ensures api.Quiet() && old(Dying(api.syncs, id)) && AllServed(api.fate, old(api.calls), old(api.calls) + 3) ==>
        var job := JobFor(glob, api.admit, old(api.syncs), id, now);
        |Unclean(job, api.namespaces, old(Contents(api.objects)), Contents(api.objects))|
          <= Failures(api.fate, old(api.calls), api.calls)
      // The result and the status.
      ensures result == Retry && AllServed(api.fate, old(api.calls), api.calls) ==>
        !api.Quiet() && old(Dying(api.syncs, id))
      ensures result == Done ==>
        (id !in old(api.syncs) || old(api.syncs)[id].deleting) && api.statuses == old(api.statuses)
      ensures result == Requeue ==>
        && id in old(api.syncs) && !old(api.syncs)[id].deleting && ValidSpec(glob, old(api.syncs)[id].spec)
        && id in api.statuses && Faithful(old(api.syncs)[id].spec, api.namespaces, api.statuses[id])
      ensures result == Requeue && api.Quiet() ==>
        && Concluded(JobFor(glob, api.admit, old(api.syncs), id, now), api.namespaces, old(api.objects), api.objects,
             api.statuses[id].synced, api.statuses[id].failed)
        && |Stopped(api.statuses[id].failed)| <= Failures(api.fate, old(api.calls), api.calls)
      ensures result == Terminal ==>
        && id in old(api.syncs) && !old(api.syncs)[id].deleting && !ValidSpec(glob, old(api.syncs)[id].spec)
        && (AllServed(api.fate, old(api.calls), api.calls) ==>
              api.statuses == old(api.statuses)[id := Status([], map[], Condition(false, InvalidSpec))])
      ensures OthersSame(old(api.statuses), api.statuses, id)
      // Whatever users do meanwhile.
      ensures if id !in old(api.syncs) then api.syncs == old(api.syncs) && api.writes == old(api.writes)
        else KeepsRules(JobFor(glob, api.admit, old(api.syncs), id, now), old(api.syncs)[id], old(api.syncs), api.syncs,
               api.namespaces, old(api.Now()), api.writes, api.past)
    {
      ghost var w := api.State();
      var got := api.GetSync(id);
      assert api.State() == w && api.Now() == old(api.Now());
      if got.NotFound? {
        return Done;
      }
      if got.Error? {
        return Retry;
      }
      var sync := got.value;
      assert sync.id == id && w.syncs == api.syncs;
      ghost var call := api.calls;
      if sync.deleting {
        result := HandleDeletion(sync, now);
        FailuresAdd(api.fate, old(api.calls), call, api.calls);
        return;
      }
      if !ValidSpec(glob, sync.spec) {
        ReportInvalidSpec(id);
        return Terminal;
      }
      result := SyncLive(sync, now);
      FailuresAdd(api.fate, old(api.calls), call, api.calls);
    }
  }

  /** What a reconcile of the sync keeps to whatever users do meanwhile. Its writes are lawful and happen while it holds
      the finalizer. A live sync may take the finalizer. One that is being deleted loses it only after each covered key
      that no peer needs was seen without a copy of its source. */
  ghost predicate KeepsRules(job: Job, sync: NamespaceSync, before: Syncs, after: Syncs, nss: set<string>,
      since: Instant, writes: seq<Write>, past: seq<Objects>)
    requires sync.id in before
  {
    if sync.deleting then
      && LawfulSince(Cleaning, job, before, since, writes, past)
      && (since.writes < |writes| ==> Holds(before, sync.id))
      && (after == before
          || (Holds(before, sync.id) && after == Dropped(before, sync.id)
              && Purged(job, CoveredKeys(sync.spec, nss), since.state, past)))
    else
      && LawfulSince(Syncing, job, Held(before, sync.id), since, writes, past)
      && (after == before || after == Held(before, sync.id))
      && (since.writes < |writes| ==> after == Held(before, sync.id))
  }

  /** What syncing a live valid sync amounts to, with the finalizer taken or not. */
  lemma LiveWorld(glob: Glob, admit: Admission, w: World, id: SyncId, now: string, syncs: Syncs, start: Objects,
      end: Objects)
    requires id in w.syncs && !w.syncs[id].deleting && ValidSpec(glob, w.syncs[id].spec) && w.store == Contents(start)
    requires PartlyDone(JobFor(glob, admit, w.syncs, id, now), w.namespaces, start, end)
    requires (syncs == w.syncs && end == start) || syncs == Held(w.syncs, id)
    ensures var w' := World(Contents(end), syncs, w.namespaces); var job := JobFor(glob, admit, w.syncs, id, now);
      && MayReconcile(glob, admit, w, id, now, w')
      && (syncs == Held(w.syncs, id) && w'.store == Reconciled(job, w.namespaces, w.store) ==>
            w' == ReconcileWorld(glob, admit, w, id, now))
  {
  }

  function StatusAt(statuses: map<SyncId, Status>, id: SyncId): Option<Status> {
    if id in statuses then Some(statuses[id]) else None
  }

  /** Only the status of id may differ. */
  ghost predicate OthersSame(before: map<SyncId, Status>, after: map<SyncId, Status>, id: SyncId) {
    forall q :: q != id ==> StatusAt(after, q) == StatusAt(before, q)
  }

  /** The sync is being deleted and still holds the finalizer. */
  predicate Dying(syncs: Syncs, id: SyncId) {
    Holds(syncs, id) && syncs[id].deleting
  }

  /** Holding the finalizer twice is holding it. */
  lemma AlreadyHeld(syncs: Syncs, id: SyncId)
    requires Holds(syncs, id)
    ensures Held(syncs, id) == syncs
  {
    assert syncs[id].finalizers + {FINALIZER} == syncs[id].finalizers;
  }

  /** Taking the finalizer does not change who the peers are. */
  lemma SamePeers(syncs: Syncs, id: SyncId)
    requires id in syncs
    ensures PeerSpecs(Held(syncs, id), id) == PeerSpecs(syncs, id)
  {
    forall spec ensures spec in PeerSpecs(Held(syncs, id), id) <==> spec in PeerSpecs(syncs, id) {
      if spec in PeerSpecs(syncs, id) {
        var q :| q in syncs && q != id && !syncs[q].deleting && syncs[q].spec == spec;
        assert q in Held(syncs, id) && Held(syncs, id)[q] == syncs[q];
      }
    }
  }
}
