/** What one sync does to one key, as a function of the cells it reads (internal/controller/sync.go, resources.go). */
module Steps {
  import opened Types
  import opened Filters
  import opened Copies
  import opened Conflicts

  /** What the apiserver's mutating admission makes of an object written at a key. */
  type Admission = (Key, Content) -> Content

  /** Admission that changes labels and annotations only, and not the last-sync stamp. */
  ghost predicate CalmAdmission(admit: Admission) {
    forall k, o :: admit(k, o).payload == o.payload && Stamp(admit(k, o)) == Stamp(o)
  }

  /** Calm admission that also leaves the two source annotations alone. */
  ghost predicate TameAdmission(admit: Admission) {
    && CalmAdmission(admit)
    && forall k, o :: From(admit(k, o)) == From(o)
         && Read(admit(k, o).annotations, SOURCE_NAME) == Read(o.annotations, SOURCE_NAME)
  }

  /** One sync at work: its spec, the specs of the other live syncs, and the time it stamps. */
  datatype Job = Job(glob: Glob, admit: Admission, peers: set<Spec>, spec: Spec, now: string)

  /** The keys a sync copies into: targeted namespaces and selected names. */
  predicate Selects(glob: Glob, s: Spec, k: Key) {
    TargetsNamespace(k.ns, s) && SyncsName(glob, s, k.kind, k.name)
  }

  /** The keys the cleanup of a sync covers: resource filters do not count. */
  predicate Covers(s: Spec, k: Key) {
    TargetsNamespace(k.ns, s) && k.name in s.Names(k.kind)
  }

  predicate Explicit(s: Spec, k: Key) {
    k.ns in s.targets
  }

  /** Outside an explicit target a sync leaves an object a peer reads as its source alone. */
  ghost predicate LeavesSource(job: Job, k: Key) {
    !Explicit(job.spec, k) && SourceRead(job.glob, job.peers, k)
  }

  /** The sync reports a conflict at k instead of writing, its source object being there. */
  ghost predicate Refused(job: Job, k: Key, cur: Option<Content>) {
    || LeavesSource(job, k)
    || (cur.Some? && !Allowed(job.glob, job.peers, job.spec.source, Explicit(job.spec, k), k, cur.value))
  }

  function DesiredBy(job: Job, k: Key, src: Content): Content {
    Desired(src, job.spec.source, k.name, job.now)
  }

  /** createOrUpdateResource past the guard: the stored object after writing desired over cur. */
  function Upserted(admit: Admission, k: Key, desired: Content, cur: Option<Content>): Content {
    match cur
    case None => admit(k, desired)
    case Some(o) =>
      var after := KeepLastSync(o, desired);
      if after == o then o else admit(k, after)
  }

  /** The stored object after the sync wrote the copy of src over cur. */
  function Written(job: Job, k: Key, src: Content, cur: Option<Content>): Content {
    Upserted(job.admit, k, DesiredBy(job, k, src), cur)
  }

  /** deleteManagedCopy. */
  function Removed(s: Spec, k: Key, cur: Option<Content>): Option<Content> {
    if cur.Some? && IsManagedCopy(cur.value, s.source, k.name) then None else cur
  }

  /** The cell at k after the sync handled k, from the cell src of its source object. */
  ghost function Step(job: Job, k: Key, src: Option<Content>, cur: Option<Content>): Option<Content> {
    if src.None? then
      if LeavesSource(job, k) then cur else Removed(job.spec, k, cur)
    else if Refused(job, k, cur) then cur
    else Some(Written(job, k, src.value, cur))
  }

  /** The cell at k after cleaning up after the sync. */
  ghost function CleanStep(job: Job, k: Key, cur: Option<Content>): Option<Content> {
    if Needed(job.glob, job.peers, job.spec.source, k) then cur else Removed(job.spec, k, cur)
  }

  /** o is what the sync makes of src, up to the time it was stamped. */
  predicate InSync(job: Job, k: Key, src: Content, o: Content) {
    Stamp(o).Some? &&
    var d := Desired(src, job.spec.source, k.name, Stamp(o).value);
    o == d || o == job.admit(k, d)
  }

  /** Writing a copy leaves it in sync, whatever was there. */
  lemma WrittenInSync(job: Job, k: Key, src: Content, cur: Option<Content>)
    requires CalmAdmission(job.admit)
    ensures InSync(job, k, src, Written(job, k, src, cur))
    ensures Written(job, k, src, cur).payload == src.payload
  {
    var d := DesiredBy(job, k, src);
    DesiredFacts(src, job.spec.source, k.name, job.now, job.now);
    if cur.Some? && Stamp(cur.value).Some? {
      DesiredFacts(src, job.spec.source, k.name, job.now, Stamp(cur.value).value);
      DesiredFacts(src, job.spec.source, k.name, Stamp(cur.value).value, job.now);
    }
  }

  /** An object in sync is left as it is at any later time. */
  lemma InSyncStays(job: Job, k: Key, src: Content, o: Content)
    requires CalmAdmission(job.admit)
    requires InSync(job, k, src, o)
    ensures Written(job, k, src, Some(o)) == o
  {
    var t := Stamp(o).value;
    DesiredFacts(src, job.spec.source, k.name, job.now, t);
    DesiredFacts(src, job.spec.source, k.name, t, t);
    assert job.admit(k, Desired(src, job.spec.source, k.name, t)).payload == src.payload;
  }

  /** Syncs of one key, one after another, while its source stays as it is. */
  ghost function StepAll(jobs: seq<Job>, k: Key, src: Option<Content>, cur: Option<Content>): Option<Content>
    decreases |jobs|
  {
    if |jobs| == 0 then cur else StepAll(jobs[1..], k, src, Step(jobs[0], k, src, cur))
  }

  lemma {:induction false} InSyncThrough(job: Job, later: seq<Job>, k: Key, src: Content, o: Content)
    requires CalmAdmission(job.admit) && InSync(job, k, src, o)
    requires forall i :: 0 <= i < |later| ==> later[i] == job.(peers := later[i].peers, now := later[i].now)
    ensures StepAll(later, k, Some(src), Some(o)) == Some(o)
    decreases |later|
  {
    if |later| > 0 {
      InSyncStays(later[0], k, src, o);
      InSyncThrough(job, later[1..], k, src, o);
    }
  }

  /** Admission fixed point: under any calm admission, a sync that is not refused is followed only by syncs that leave
      the stored copy identical, whatever the clock says and whoever the peers are by then. */
  lemma AdmissionFixedPoint(job: Job, later: seq<Job>, k: Key, src: Content, cur: Option<Content>)
    requires CalmAdmission(job.admit) && !Refused(job, k, cur)
    requires forall i :: 0 <= i < |later| ==> later[i] == job.(peers := later[i].peers, now := later[i].now)
    ensures StepAll(later, k, Some(src), Step(job, k, Some(src), cur)) == Step(job, k, Some(src), cur)
  {
    WrittenInSync(job, k, src, cur);
    InSyncThrough(job, later, k, src, Written(job, k, src, cur));
  }

  /** Repeating a sync with the same peers leaves the cell identical, also where it wrote nothing. */
  lemma StepIdempotent(job: Job, later: Job, k: Key, src: Option<Content>, cur: Option<Content>)
    requires CalmAdmission(job.admit)
    requires later == job.(now := later.now)
    ensures Step(later, k, src, Step(job, k, src, cur)) == Step(job, k, src, cur)
  {
    if src.Some? && !Refused(job, k, cur) {
      WrittenInSync(job, k, src.value, cur);
      InSyncStays(later, k, src.value, Written(job, k, src.value, cur));
    }
  }

  /** A written object carries the ownership annotations of the sync that wrote it. */
  lemma WrittenOwned(job: Job, k: Key, src: Content, cur: Option<Content>)
    requires TameAdmission(job.admit)
    ensures From(Written(job, k, src, cur)) == job.spec.source
    ensures IsManagedCopy(Written(job, k, src, cur), job.spec.source, k.name)
  {
    WrittenInSync(job, k, src, cur);
    InSyncOwned(job, k, src, Written(job, k, src, cur));
  }

  lemma InSyncOwned(job: Job, k: Key, src: Content, o: Content)
    requires TameAdmission(job.admit)
    requires InSync(job, k, src, o)
    ensures From(o) == job.spec.source && IsManagedCopy(o, job.spec.source, k.name)
  {
  }

  /** A sync that was not refused is not refused over its own result. */
  lemma NotRefusedAgain(job: Job, k: Key, src: Content, cur: Option<Content>)
    requires TameAdmission(job.admit) && job.spec.source != ""
    requires !Refused(job, k, cur)
    ensures !Refused(job, k, Some(Written(job, k, src, cur)))
  {
    WrittenOwned(job, k, src, cur);
  }

  /** The spec's own claims never count against it: judging by all live specs is judging by the peers. */
  lemma SelfIsNoPeer(job: Job, k: Key, src: Option<Content>, cur: Option<Content>)
    requires k.ns != job.spec.source && job.spec.source != ""
    ensures var all := job.(peers := job.peers + {job.spec});
      Refused(all, k, cur) == Refused(job, k, cur) && Step(all, k, src, cur) == Step(job, k, src, cur)
  {
  }
}
