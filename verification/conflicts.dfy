/** Who owns an object and when a sync may write it (internal/controller/conflicts.go). */
module Conflicts {
  import opened Types
  import opened Filters
  import opened Copies
  import opened Terms

  /** p reads the object at k as its source. */
  predicate ReadsAsSource(glob: Glob, p: Spec, k: Key) {
    p.source == k.ns && SyncsName(glob, p, k.kind, k.name)
  }

  /** p syncs the object at k as a copy made in namespace from. */
  predicate SyncsCopy(glob: Glob, p: Spec, from: string, k: Key) {
    p.source == from && SyncsName(glob, p, k.kind, k.name) && TargetsNamespace(k.ns, p)
  }

  // The rules over a set of specs.

  ghost predicate SourceRead(glob: Glob, peers: set<Spec>, k: Key) {
    exists p :: p in peers && ReadsAsSource(glob, p, k)
  }

  ghost predicate Claimed(glob: Glob, peers: set<Spec>, from: string, k: Key) {
    exists p :: p in peers && SyncsCopy(glob, p, from, k)
  }

  ghost predicate Listed(glob: Glob, peers: set<Spec>, from: string, k: Key) {
    exists p :: p in peers && SyncsCopy(glob, p, from, k) && k.ns in p.targets
  }

  /** When a sync from source may overwrite the existing object o. */
  ghost predicate Allowed(glob: Glob, peers: set<Spec>, source: string, explicit: bool, k: Key, o: Content) {
    && (IsManagedCopy(o, source, k.name) || !SourceRead(glob, peers, k))
    && (if From(o) == "" then explicit
        else || From(o) == source
             || !Claimed(glob, peers, From(o), k)
             || (explicit && !Listed(glob, peers, From(o), k)))
  }

  /** Another sync still needs the object at k, as a copy from the same source or as its own source. */
  ghost predicate Needed(glob: Glob, peers: set<Spec>, source: string, k: Key) {
    Claimed(glob, peers, source, k) || SourceRead(glob, peers, k)
  }

  lemma ReadMeans(glob: Glob, peers: set<Spec>, k: Key)
    ensures SourceRead(glob, peers, k) <==> IsRead(glob, peers, k)
  {
    forall p ensures ReadsAsSource(glob, p, k) <==> p.source == k.ns && Wants(glob, p, k) {
      WantsMeans(glob, p, k);
    }
  }

  lemma CopiedMeans(glob: Glob, p: Spec, from: string, k: Key)
    ensures SyncsCopy(glob, p, from, k) <==> p.source == from && Wants(glob, p, k) && InReach(p, k.ns)
  {
    WantsMeans(glob, p, k);
    ReachMeans(p, k.ns);
  }

  /** A sync may overwrite exactly what no other holds. */
  lemma AllowedMeans(glob: Glob, peers: set<Spec>, source: string, explicit: bool, k: Key, o: Content)
    ensures Allowed(glob, peers, source, explicit, k, o) <==> !HeldByOthers(glob, peers, source, explicit, k, o)
  {
    ReadMeans(glob, peers, k);
    forall p ensures SyncsCopy(glob, p, OwnerOf(o), k) <==>
        p.source == OwnerOf(o) && Wants(glob, p, k) && InReach(p, k.ns) {
      CopiedMeans(glob, p, OwnerOf(o), k);
    }
  }

  /** An object is needed exactly if another sync reads it or copies from the same source to it. */
  lemma NeededMeans(glob: Glob, peers: set<Spec>, source: string, k: Key)
    ensures Needed(glob, peers, source, k) <==> exists p :: p in peers && Uses(glob, p, source, k)
  {
    forall p ensures ReadsAsSource(glob, p, k) || SyncsCopy(glob, p, source, k) <==> Uses(glob, p, source, k) {
      WantsMeans(glob, p, k);
      CopiedMeans(glob, p, source, k);
    }
  }

  // The loops over a list of peers.

  ghost function SpecsOf(peers: seq<NamespaceSync>): set<Spec> {
    set p | p in peers :: p.spec
  }

  /** peers[i] syncs k from source, and only peers that k merely reaches by default, if any, do so before it; if
      peers[i] itself reaches k by default, none does. */
  predicate PreferredClaimant(glob: Glob, peers: seq<NamespaceSync>, source: string, k: Key, i: nat) {
    && i < |peers|
    && SyncsCopy(glob, peers[i].spec, source, k)
    && forall j :: 0 <= j < i && SyncsCopy(glob, peers[j].spec, source, k) ==>
         k.ns in peers[i].spec.targets && k.ns !in peers[j].spec.targets
  }

  function SourceOwner(glob: Glob, peers: seq<NamespaceSync>, k: Key): (owner: Option<NamespaceSync>)
    ensures owner.None? <==> !SourceRead(glob, SpecsOf(peers), k)
    ensures owner.Some? ==> owner.value in peers && ReadsAsSource(glob, owner.value.spec, k)
  {
    if |peers| == 0 then None
    else if ReadsAsSource(glob, peers[0].spec, k) then
      assert peers[0] in peers;
      Some(peers[0])
    else
      assert peers == [peers[0]] + peers[1..];
      SourceOwner(glob, peers[1..], k)
  }

  /** The first peer that lists the namespace, else the first that reaches it by default, among those that sync
      the name from source into it. */
  method CopyOwner(glob: Glob, peers: seq<NamespaceSync>, source: string, k: Key) returns (owner: Option<NamespaceSync>)
    ensures owner.None? <==> !Claimed(glob, SpecsOf(peers), source, k)
    ensures owner.Some? ==> (k.ns in owner.value.spec.targets <==> Listed(glob, SpecsOf(peers), source, k))
    ensures owner.Some? ==> owner.value in peers && SyncsCopy(glob, owner.value.spec, source, k)
    ensures owner.Some? ==> exists i: nat :: PreferredClaimant(glob, peers, source, k, i) && peers[i] == owner.value
  {
    owner := None;
    for i := 0 to |peers|
      invariant owner.None? ==> forall j :: 0 <= j < i ==> !SyncsCopy(glob, peers[j].spec, source, k)
      invariant owner.Some? ==>
        exists n: nat :: n < i && PreferredClaimant(glob, peers, source, k, n) && peers[n] == owner.value
      invariant owner.Some? ==> SyncsCopy(glob, owner.value.spec, source, k)
      invariant forall j :: 0 <= j < i && SyncsCopy(glob, peers[j].spec, source, k) ==> k.ns !in peers[j].spec.targets
    {
      var peer := peers[i];
      assert peer in peers;
      if !SyncsCopy(glob, peer.spec, source, k) {
        continue;
      }
      if k.ns in peer.spec.targets {
        assert PreferredClaimant(glob, peers, source, k, i);
        return Some(peer);
      }
      if owner.None? {
        assert PreferredClaimant(glob, peers, source, k, i);
        owner := Some(peer);
      }
    }
  }

  datatype Refusal = SourceOf(owner: NamespaceSync) | NotSynced | SyncedBy(owner: NamespaceSync)

  /** copyConflictGuard: what speaks against overwriting the existing object, if anything. */
  method CopyConflictGuard(glob: Glob, peers: seq<NamespaceSync>, source: string, explicit: bool, k: Key,
      existing: Content)
    returns (refusal: Option<Refusal>)
    ensures refusal.None? <==> Allowed(glob, SpecsOf(peers), source, explicit, k, existing)
    ensures refusal.Some? <==> HeldByOthers(glob, SpecsOf(peers), source, explicit, k, existing)
    ensures OwnerOf(existing) == "" && !explicit ==> refusal.Some?
    ensures refusal.Some? && refusal.value.SourceOf? ==>
      refusal.value.owner in peers && ReadsAsSource(glob, refusal.value.owner.spec, k)
    ensures refusal.Some? && refusal.value.SyncedBy? ==>
      refusal.value.owner in peers && SyncsCopy(glob, refusal.value.owner.spec, From(existing), k)
    ensures refusal == Some(NotSynced) ==> From(existing) == "" && !explicit
  {
    AllowedMeans(glob, SpecsOf(peers), source, explicit, k, existing);
    if !IsManagedCopy(existing, source, k.name) {
      var reader := SourceOwner(glob, peers, k);
      if reader.Some? {
        return Some(SourceOf(reader.value));
      }
    }
    var from := From(existing);
    if from == "" && !explicit {
      return Some(NotSynced);
    }
    if from == "" || from == source {
      return None;
    }
    var owner := CopyOwner(glob, peers, from, k);
    if owner.None? {
      return None;
    }
    if explicit && k.ns !in owner.value.spec.targets {
      return None;
    }
    return Some(SyncedBy(owner.value));
  }

  /** The names no peer still needs in the namespace. */
  method Unclaimed(glob: Glob, peers: seq<NamespaceSync>, kind: Kind, source: string, ns: string, names: seq<string>)
    returns (free: seq<string>)
    ensures forall name :: name in free <==> name in names && !Needed(glob, SpecsOf(peers), source, Key(kind, ns, name))
    ensures forall name ::
      name in free <==> name in names && forall p :: p in peers ==> !Uses(glob, p.spec, source, Key(kind, ns, name))
  {
    free := [];
    for i := 0 to |names|
      invariant forall name ::
        name in free <==> name in names[..i] && !Needed(glob, SpecsOf(peers), source, Key(kind, ns, name))
    {
      var k := Key(kind, ns, names[i]);
      assert names[..i + 1] == names[..i] + [names[i]];
      var owner := CopyOwner(glob, peers, source, k);
      if owner.Some? || SourceOwner(glob, peers, k).Some? {
        continue;
      }
      free := free + [names[i]];
    }
    forall name
      ensures var k := Key(kind, ns, name);
        Needed(glob, SpecsOf(peers), source, k) <==> exists p :: p in peers && Uses(glob, p.spec, source, k)
    {
      NeededMeans(glob, SpecsOf(peers), source, Key(kind, ns, name));
      assert forall p :: p in peers ==> p.spec in SpecsOf(peers);
    }
  }
}
