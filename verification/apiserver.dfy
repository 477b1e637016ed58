/** The apiserver the controller talks to: objects with revisions, syncs, namespaces, and calls that may fail. */
module ApiServers {
  import opened Types
  import opened Copies
  import opened Steps
  import opened Statuses
  import opened Worlds

  datatype Stored = Stored(content: Content, uid: nat, rev: nat)

  type Objects = map<Key, Stored>

  function Lookup(objects: Objects, k: Key): Option<Stored> {
    if k in objects then Some(objects[k]) else None
  }

  function Cell(objects: Objects, k: Key): Option<Content> {
    if k in objects then Some(objects[k].content) else None
  }

  function Contents(objects: Objects): Store {
    map k | k in objects :: objects[k].content
  }

  /** What becomes of a call: it is served, it fails before it has an effect, or its effect happens and the answer
      is lost. */
  datatype Fate = Served | Rejected | Unacknowledged

  /** Recorded revisions stay recorded. */
  ghost predicate Remembers(before: map<nat, (Key, Stored)>, after: map<nat, (Key, Stored)>) {
    forall r :: r in before ==> r in after && after[r] == before[r]
  }

  ghost predicate AllServed(fate: nat -> Fate, from: nat, to: nat) {
    forall n: nat :: from <= n < to ==> fate(n) == Served
  }

  /** How many of the calls were not served. */
  ghost function Failures(fate: nat -> Fate, from: nat, end: nat): nat
    decreases end
  {
    if end <= from then 0 else Failures(fate, from, end - 1) + if fate(end - 1) == Served then 0 else 1
  }

  lemma {:induction false} NoFailures(fate: nat -> Fate, from: nat, end: nat)
    ensures Failures(fate, from, end) == 0 <==> AllServed(fate, from, end)
    decreases end
  {
    if from < end {
      NoFailures(fate, from, end - 1);
    }
  }

  lemma {:induction false} FailuresAdd(fate: nat -> Fate, from: nat, mid: nat, end: nat)
    requires from <= mid <= end
    ensures Failures(fate, from, end) == Failures(fate, from, mid) + Failures(fate, mid, end)
    decreases end
  {
    if mid < end {
      FailuresAdd(fate, from, mid, end - 1);
    }
  }

  datatype Answer<+T> = Found(value: T) | NotFound | Error

  /** A user's edit of an object. */
  datatype UserEdit = Put(key: Key, content: Content) | Remove(key: Key)

  /** A write of the controller that took effect: the object before and after it, and the syncs at that moment. */
  datatype Write = Write(key: Key, before: Option<Stored>, after: Option<Stored>, syncs: Syncs)

  /** An instant: how many writes there were, and which of the past states of the objects was the current one. */
  datatype Instant = Instant(writes: nat, state: nat)

  class ApiServer {
    const admit: Admission
    /** The fate of each call, by its number. */
    const fate: nat -> Fate
    /** The user edits that happen just before each call. */
    const edits: nat -> seq<UserEdit>
    /** The revision a cached read answers from; None when the cache is up to date. */
    const lag: nat -> Option<nat>

    var calls: nat
    var objects: Objects
    var revision: nat
    var history: map<nat, (Key, Stored)>
    var syncs: Syncs
    var statuses: map<SyncId, Status>
    var namespaces: set<string>
    ghost var writes: seq<Write>
    /** All states the objects have been in, up to the current one. */
    ghost var past: seq<Objects>

    /** Revisions are never reused, and every stored object is the one recorded for its revision. */
    ghost predicate Valid()
      reads this
    {
      && TameAdmission(admit)
      && (forall k :: k in objects ==>
            k.ns in namespaces && objects[k].rev in history && history[objects[k].rev] == (k, objects[k]))
      && (forall r :: r in history ==> r <= revision && history[r].1.rev == r)
      && (forall id :: id in syncs ==> syncs[id].id == id)
      && |past| > 0 && past[|past| - 1] == objects
    }

    ghost function Now(): Instant
      requires |past| > 0
      reads this
    {
      Instant(|writes|, |past| - 1)
    }

    /** Calls, writes and states are only added. */
    twostate predicate Advanced()
      reads this
    {
      old(calls) <= calls && old(writes) <= writes && old(past) <= past
    }

    /** A cluster without objects. */
    constructor (admit: Admission, fate: nat -> Fate, edits: nat -> seq<UserEdit>, lag: nat -> Option<nat>,
        syncs: Syncs, namespaces: set<string>)
      requires TameAdmission(admit) && forall id :: id in syncs ==> syncs[id].id == id
      ensures Valid() && State() == World(map[], syncs, namespaces) && writes == []
      ensures this.admit == admit && this.fate == fate && this.edits == edits && this.lag == lag
    {
      this.admit, this.fate, this.edits, this.lag := admit, fate, edits, lag;
      this.syncs, this.namespaces := syncs, namespaces;
      calls, objects, revision, history, statuses := 0, map[], 0, map[], map[];
      writes, past := [], [map[]];
    }

    /** No user interferes and the cache is up to date. */
    ghost predicate Quiet() {
      forall n: nat :: edits(n) == [] && lag(n) == None
    }

    ghost function State(): World
      reads this
    {
      World(Contents(objects), syncs, namespaces)
    }

    /** Stores content at k under a fresh revision. */
    method Store(k: Key, content: Content)
      requires Valid() && k.ns in namespaces
      modifies this`objects, this`revision, this`history, this`past
      ensures Valid() && revision == old(revision) + 1 && Remembers(old(history), history)
      ensures past == old(past) + [objects]
      ensures k in objects && objects == old(objects)[k := objects[k]]
      ensures objects[k].content == content && objects[k].rev == revision
      ensures k in old(objects) ==> objects[k].uid == old(objects)[k].uid
    {
      revision := revision + 1;
      var uid := if k in objects then objects[k].uid else revision;
      var stored := Stored(content, uid, revision);
      objects := objects[k := stored];
      history := history[revision := (k, stored)];
      past := past + [objects];
    }

    /** The user edits between two calls. */
    method Interfere()
      requires Valid()
      modifies this`objects, this`revision, this`history, this`past
      ensures Valid() && old(past) <= past && Remembers(old(history), history)
      ensures Quiet() ==> objects == old(objects)
    {
      var es := edits(calls);
      for i := 0 to |es|
        invariant Valid() && old(past) <= past && Remembers(old(history), history)
        invariant Quiet() ==> objects == old(objects)
      {
        match es[i]
        case Put(k, content) =>
          if k.ns in namespaces {
            Store(k, content);
          }
        case Remove(k) =>
          objects := objects - {k};
          past := past + [objects];
      }
    }

    /** A read from the server. */
    method Get(k: Key) returns (r: Answer<Stored>)
      requires Valid()
      modifies this`calls
      ensures Valid() && calls == old(calls) + 1
      ensures r.Found? ==> Lookup(objects, k) == Some(r.value)
      ensures r.NotFound? ==> k !in objects
      ensures r.Error? ==> fate(old(calls)) != Served
    {
      var n := calls;
      calls := n + 1;
      if fate(n) != Served {
        return Error;
      }
      r := if k in objects then Found(objects[k]) else NotFound;
    }

    /** A read from the cache, which may be behind. */
    method CachedGet(k: Key) returns (r: Answer<Stored>)
      requires Valid()
      modifies this`calls
      ensures Valid() && calls == old(calls) + 1
      ensures r.Found? ==> r.value.rev in history && history[r.value.rev] == (k, r.value)
      ensures Quiet() && r.Found? ==> Lookup(objects, k) == Some(r.value)
      ensures Quiet() && r.NotFound? ==> k !in objects
      ensures r.Error? ==> fate(old(calls)) != Served
    {
      var n := calls;
      if lag(n).None? {
        r := Get(k);
      } else {
        calls := n + 1;
        if fate(n) != Served {
          return Error;
        }
        var seen := lag(n).value;
        r := if seen in history && history[seen].0 == k then Found(history[seen].1) else NotFound;
      }
    }

    /** Creates an object; the call fails if there is one. */
    method Create(k: Key, content: Content) returns (ok: bool)
      requires Valid()
      modifies this`calls, this`objects, this`revision, this`history, this`writes, this`past
      ensures Valid() && old(past) <= past && calls == old(calls) + 1
      ensures (objects == old(objects) && writes == old(writes) && !ok) ||
        (k !in old(objects) && k in objects && objects == old(objects)[k := objects[k]]
         && objects[k].content == admit(k, content)
         && writes == old(writes) + [Write(k, None, Some(objects[k]), syncs)])
      ensures !ok && k !in old(objects) && k.ns in namespaces ==> fate(old(calls)) != Served
    {
      var n := calls;
      calls := n + 1;
      if fate(n) == Rejected || k in objects || k.ns !in namespaces {
        return false;
      }
      Store(k, admit(k, content));
      writes := writes + [Write(k, None, Some(objects[k]), syncs)];
      ok := fate(n) == Served;
    }

    /** Updates the version rev of an object. A write that admission turns into the stored content is dropped. */
    method Update(k: Key, content: Content, rev: nat) returns (ok: bool)
      requires Valid()
      modifies this`calls, this`objects, this`revision, this`history, this`writes, this`past
      ensures Valid() && old(past) <= past && calls == old(calls) + 1
      ensures (objects == old(objects) && writes == old(writes) &&
          (ok ==> k in objects && objects[k].rev == rev && objects[k].content == admit(k, content))) ||
        (k in old(objects) && old(objects)[k].rev == rev && old(objects)[k].content != admit(k, content)
         && k in objects && objects == old(objects)[k := objects[k]]
         && objects[k].content == admit(k, content) && objects[k].uid == old(objects)[k].uid
         && writes == old(writes) + [Write(k, Some(old(objects)[k]), Some(objects[k]), syncs)])
      ensures !ok && k in old(objects) && old(objects)[k].rev == rev ==> fate(old(calls)) != Served
    {
      var n := calls;
      calls := n + 1;
      if fate(n) == Rejected || k !in objects || objects[k].rev != rev {
        return false;
      }
      ok := fate(n) == Served;
      var before := objects[k];
      if admit(k, content) != before.content {
        Store(k, admit(k, content));
        writes := writes + [Write(k, Some(before), Some(objects[k]), syncs)];
      }
    }

    /** Deletes an object if it still is the given version. */
    method Delete(k: Key, uid: nat, rev: nat) returns (r: Answer<()>)
      requires Valid()
      modifies this`calls, this`objects, this`writes, this`past
      ensures Valid() && old(past) <= past && calls == old(calls) + 1
      ensures (objects == old(objects) && writes == old(writes) && !r.Found?) ||
        (k in old(objects) && old(objects)[k].uid == uid && old(objects)[k].rev == rev && objects == old(objects) - {k}
         && writes == old(writes) + [Write(k, Some(old(objects)[k]), None, syncs)])
      ensures r.NotFound? ==> k !in old(objects)
      ensures r.Error? && k in old(objects) && old(objects)[k].uid == uid && old(objects)[k].rev == rev ==>
        fate(old(calls)) != Served
    {
      var n := calls;
      calls := n + 1;
      if fate(n) == Rejected {
        return Error;
      }
      if k !in objects {
        return if fate(n) == Served then NotFound else Error;
      }
      if objects[k].uid != uid || objects[k].rev != rev {
        return Error;
      }
      writes := writes + [Write(k, Some(objects[k]), None, syncs)];
      objects := objects - {k};
      past := past + [objects];
      r := if fate(n) == Served then Found(()) else Error;
    }

    method GetSync(id: SyncId) returns (r: Answer<NamespaceSync>)
      requires Valid()
      modifies this`calls
      ensures Valid() && Advanced() && calls == old(calls) + 1
      ensures r.Found? ==> id in syncs && syncs[id] == r.value
      ensures r.NotFound? ==> id !in syncs
      ensures r.Error? ==> fate(old(calls)) != Served
    {
      var n := calls;
      calls := n + 1;
      if fate(n) != Served {
        return Error;
      }
      r := if id in syncs then Found(syncs[id]) else NotFound;
    }

    /** Adds the controller's finalizer. */
    method AddFinalizer(id: SyncId) returns (ok: bool)
      requires Valid()
      modifies this`calls, this`syncs
      ensures Valid() && Advanced() && calls == old(calls) + 1
      ensures syncs == old(syncs) || (id in old(syncs) && syncs == Held(old(syncs), id))
      ensures ok ==> id in old(syncs) && syncs == Held(old(syncs), id)
      ensures !ok && id in old(syncs) ==> fate(old(calls)) != Served
    {
      var n := calls;
      calls := n + 1;
      if fate(n) == Rejected || id !in syncs {
        return false;
      }
      syncs := Held(syncs, id);
      ok := fate(n) == Served;
    }

    /** Removes the controller's finalizer from a sync that is being deleted. */
    method RemoveFinalizer(id: SyncId) returns (r: Answer<()>)
      requires Valid()
      modifies this`calls, this`syncs
      ensures Valid() && Advanced() && calls == old(calls) + 1
      ensures (syncs == old(syncs) && !r.Found?) || (id in old(syncs) && syncs == Dropped(old(syncs), id))
      ensures r.NotFound? ==> id !in old(syncs)
      ensures r.Error? && id in old(syncs) ==> fate(old(calls)) != Served
    {
      var n := calls;
      calls := n + 1;
      if fate(n) == Rejected {
        return Error;
      }
      if id !in syncs {
        return if fate(n) == Served then NotFound else Error;
      }
      syncs := Dropped(syncs, id);
      r := if fate(n) == Served then Found(()) else Error;
    }

    /** All namespaces, in an order of the server's choice. */
    method ListNamespaces() returns (r: Answer<seq<string>>)
      requires Valid()
      modifies this`calls
      ensures Valid() && Advanced() && calls == old(calls) + 1
      ensures r.Found? ==> Distinct(r.value) && forall ns :: ns in r.value <==> ns in namespaces
      ensures r.Error? ==> fate(old(calls)) != Served
      ensures !r.NotFound?
    {
      var n := calls;
      calls := n + 1;
      if fate(n) != Served {
        return Error;
      }
      var items: seq<string> := [];
      var rest := namespaces;
      while rest != {}
        invariant Distinct(items) && rest <= namespaces
        invariant forall ns :: ns in items <==> ns in namespaces - rest
        decreases |rest|
      {
        var ns :| ns in rest;
        assert ns !in items;
        items := items + [ns];
        rest := rest - {ns};
      }
      r := Found(items);
    }

    /** All syncs, in an order of the server's choice. */
    method ListSyncs() returns (r: Answer<seq<NamespaceSync>>)
      requires Valid()
      modifies this`calls
      ensures Valid() && Advanced() && calls == old(calls) + 1
      ensures r.Found? ==> Distinct(r.value) && forall s :: s in r.value <==> s.id in syncs && syncs[s.id] == s
      ensures r.Error? ==> fate(old(calls)) != Served
      ensures !r.NotFound?
    {
      var n := calls;
      calls := n + 1;
      if fate(n) != Served {
        return Error;
      }
      var items: seq<NamespaceSync> := [];
      var rest := syncs.Keys;
      while rest != {}
        invariant Distinct(items) && rest <= syncs.Keys
        invariant forall s :: s in items <==> s.id in syncs.Keys - rest && syncs[s.id] == s
        decreases |rest|
      {
        var id :| id in rest;
        assert syncs[id] !in items;
        items := items + [syncs[id]];
        rest := rest - {id};
      }
      r := Found(items);
    }

    method UpdateStatus(id: SyncId, status: Status) returns (ok: bool)
      requires Valid()
      modifies this`calls, this`statuses
      ensures Valid() && Advanced() && calls == old(calls) + 1
      ensures statuses == old(statuses) || (id in syncs && statuses == old(statuses)[id := status])
      ensures ok ==> id in syncs && statuses == old(statuses)[id := status]
      ensures !ok && id in syncs ==> fate(old(calls)) != Served
    {
      var n := calls;
      calls := n + 1;
      if fate(n) == Rejected || id !in syncs {
        return false;
      }
      statuses := statuses[id := status];
      ok := fate(n) == Served;
    }
  }
}
