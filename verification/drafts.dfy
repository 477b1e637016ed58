/** Objects in the controller's memory, whose label and annotation maps can be shared, and the functions that fill
    them in (internal/controller/resources.go). */
module Drafts {
  import opened Types
  import opened Copies
  import opened ApiServers

  /** A Go map: a reference to its entries. */
  class GoMap {
    var entries: Strings

    constructor (entries: Strings)
      ensures this.entries == entries
    {
      this.entries := entries;
    }
  }

  /** What a map reference holds; a nil map holds nothing. */
  function Entries(m: GoMap?): Strings
    reads m
  {
    if m == null then map[] else m.entries
  }

  class Draft {
    const key: Key
    var uid: nat
    var rev: nat
    var labels: GoMap?
    var annotations: GoMap?
    var payload: Payload

    function Value(): Content
      reads this, labels, annotations
    {
      Content(Entries(labels), Entries(annotations), payload)
    }

    /** An object with a name and nothing else. */
    constructor (key: Key, payload: Payload)
      ensures this.key == key && labels == null && annotations == null && this.payload == payload
    {
      this.key, this.payload := key, payload;
      uid, rev, labels, annotations := 0, 0, null, null;
    }

    /** What a read of the server fills in. */
    constructor Decoded(key: Key, stored: Stored)
      ensures this.key == key && uid == stored.uid && rev == stored.rev && Value() == stored.content
      ensures labels != null && annotations != null && fresh(labels) && fresh(annotations)
      ensures labels != annotations
    {
      this.key, payload := key, stored.content.payload;
      uid, rev := stored.uid, stored.rev;
      labels := new GoMap(stored.content.labels);
      annotations := new GoMap(stored.content.annotations);
    }

    /** A deep copy shares no map with the original. */
    method DeepCopy() returns (c: Draft)
      ensures fresh(c) && c.key == key && c.uid == uid && c.rev == rev && c.Value() == Value()
      ensures c.labels != null && c.annotations != null && fresh(c.labels) && fresh(c.annotations)
    {
      c := new Draft.Decoded(key, Stored(Value(), uid, rev));
    }
  }

  /** The followers among the entries that are not left to copy. */
  function FollowersBut(src: Strings, rest: set<string>): Strings {
    map k | k in src && k !in rest && !IsSourceOnlyKey(k) :: src[k]
  }

  lemma FollowersNext(m: Strings, src: Strings, rest: set<string>, k: string)
    requires k in rest && k in src
    ensures m + FollowersBut(src, rest - {k})
      == if IsSourceOnlyKey(k) then m + FollowersBut(src, rest) else (m + FollowersBut(src, rest))[k := src[k]]
  {
  }

  /** Copies entries into dst, one by one, except those that describe the source object itself. */
  method CopyEntries(src: Strings, dst: GoMap)
    modifies dst
    ensures dst.entries == old(dst.entries) + Followers(src)
  {
    assert FollowersBut(src, {}) == Followers(src);
    var rest := src.Keys;
    while rest != {}
      invariant rest <= src.Keys
      invariant dst.entries == old(dst.entries) + FollowersBut(src, rest)
      decreases |rest|
    {
      var k :| k in rest;
      FollowersNext(old(dst.entries), src, rest, k);
      if !IsSourceOnlyKey(k) {
        dst.entries := dst.entries[k := src[k]];
      }
      rest := rest - {k};
    }
  }

  /** The two references do not share a map. */
  predicate Apart(a: GoMap?, b: GoMap?) {
    a == b ==> a == null
  }

  /** Gives dst maps of its own where it has none. */
  method InitMaps(dst: Draft)
    requires Apart(dst.labels, dst.annotations)
    modifies dst`labels, dst`annotations
    ensures dst.labels != null && dst.annotations != null && dst.labels != dst.annotations
    ensures if old(dst.labels) == null then fresh(dst.labels) else dst.labels == old(dst.labels)
    ensures if old(dst.annotations) == null then fresh(dst.annotations) else dst.annotations == old(dst.annotations)
    ensures Entries(dst.labels) == old(Entries(dst.labels)) && Entries(dst.annotations) == old(Entries(dst.annotations))
  {
    if dst.labels == null {
      dst.labels := new GoMap(map[]);
    }
    if dst.annotations == null {
      dst.annotations := new GoMap(map[]);
    }
  }

  /** Copies labels and annotations of src over those of dst and stamps dst as a copy of src. */
  method CopyLabelsAndAnnotations(src: Draft, dst: Draft, now: string)
    requires src != dst && Apart(src.labels, dst.labels) && Apart(src.labels, dst.annotations)
    requires Apart(src.annotations, dst.labels) && Apart(src.annotations, dst.annotations)
    requires Apart(dst.labels, dst.annotations)
    modifies dst`labels, dst`annotations, dst.labels, dst.annotations
    ensures dst.labels != null && dst.annotations != null
    ensures old(dst.labels) == null ==> fresh(dst.labels)
    ensures old(dst.annotations) == null ==> fresh(dst.annotations)
    ensures dst.Value().labels == old(dst.Value().labels) + Followers(src.Value().labels)
    ensures dst.Value().annotations
      == Stamped(old(dst.Value().annotations) + Followers(src.Value().annotations), src.key.ns, src.key.name, now)
    ensures src.Value() == old(src.Value())
  {
    var srcLabels, srcAnnotations := Entries(src.labels), Entries(src.annotations);
    ghost var labels, annotations := Entries(dst.labels), Entries(dst.annotations);
    InitMaps(dst);
    assert dst.labels.entries == labels && dst.annotations.entries == annotations;
    CopyEntries(srcLabels, dst.labels);
    CopyEntries(srcAnnotations, dst.annotations);
    dst.annotations.entries := Stamped(dst.annotations.entries, src.key.ns, src.key.name, now);
  }

  /** The updateFields callback: dst gets the data of src, and shares its label and annotation maps. */
  method UpdateFields(src: Draft, dst: Draft)
    modifies dst`labels, dst`annotations, dst`payload
    ensures dst.labels == src.labels && dst.annotations == src.annotations && dst.payload == src.payload
    ensures src != dst ==> unchanged(src)
  {
    dst.payload := src.payload;
    dst.labels := src.labels;
    dst.annotations := src.annotations;
  }

  /** Carries the stored stamp over if the data stays. The map after had, possibly shared, is left as it is. */
  method CarryLastSync(before: Draft, after: Draft)
    requires before != after
    modifies after`annotations
    ensures after.Value() == KeepLastSync(old(before.Value()), old(after.Value()))
    ensures after.annotations == old(after.annotations) || (after.annotations != null && fresh(after.annotations))
  {
    var stamp := Find(Entries(before.annotations), LAST_SYNC);
    if stamp.None? || before.payload != after.payload {
      return;
    }
    var clone := new GoMap(Entries(after.annotations));
    clone.entries := clone.entries[LAST_SYNC := stamp.value];
    after.annotations := clone;
  }

  /** Makes existing match desired, stamp apart, and says whether that changes it. The object desired, its maps and
      the snapshot of existing are left as they are. */
  method Merge(desired: Draft, existing: Draft) returns (changed: bool)
    requires desired != existing
    modifies existing`labels, existing`annotations, existing`payload
    ensures existing.Value() == KeepLastSync(old(existing.Value()), desired.Value())
    ensures changed <==> existing.Value() != old(existing.Value())
  {
    var before := existing.DeepCopy();
    UpdateFields(desired, existing);
    CarryLastSync(before, existing);
    changed := before.Value() != existing.Value();
  }
}
