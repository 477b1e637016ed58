/** What specs, filters and annotations mean to users, in plain terms. The rules the controller goes by are proved
    against these, and the contracts of its methods state both. */
module Terms {
  import opened Types
  import opened Filters

  /** The filter lets the name pass: no exclude pattern matches it or is malformed, and some include pattern matches it
      if there are any. */
  ghost predicate Passes(glob: Glob, filter: Option<ResourceFilter>, name: string) {
    filter.Some? ==>
      && (forall p :: p in filter.value.excl ==> glob(p, name) == NoMatch)
      && (filter.value.incl == [] || exists p :: p in filter.value.incl && glob(p, name) == Match)
  }

  /** The name of k is in the list for its kind. */
  predicate Lists(s: Spec, k: Key) {
    if k.kind == Secret then k.name in s.secrets else k.name in s.configMaps
  }

  /** The name of k is in the list for its kind and passes the filter for its kind. */
  ghost predicate Wants(glob: Glob, s: Spec, k: Key) {
    && Lists(s, k)
    && (k.kind == Secret ==> Passes(glob, s.secretFilter, k.name))
    && (k.kind == ConfigMap ==> Passes(glob, s.configMapFilter, k.name))
  }

  /** The sync copies into the namespace if it exists. */
  predicate InReach(s: Spec, ns: string) {
    && ns != "default" && ns != "kube-system" && ns != "kube-public" && ns != "kube-node-lease"
    && ns != "k8s-namespace-sync-system"
    && ns != s.source && ns !in s.exclude
    && (s.targets != [] ==> ns in s.targets)
  }

  /** An annotation, empty if there is none. */
  function Note(o: Content, key: string): string {
    if key in o.annotations then o.annotations[key] else ""
  }

  /** The namespace the object was copied from, empty for one made by hand. */
  function OwnerOf(o: Content): string {
    Note(o, "namespacesync.nsync.dev/source-namespace")
  }

  /** The annotations say the object is a copy of the one with this name in that namespace. */
  predicate IsCopyOf(o: Content, source: string, name: string) {
    OwnerOf(o) == source && Note(o, "namespacesync.nsync.dev/source-name") == name
  }

  /** Some of the other syncs reads the object at k as its source. */
  ghost predicate IsRead(glob: Glob, others: set<Spec>, k: Key) {
    exists p :: p in others && p.source == k.ns && Wants(glob, p, k)
  }

  /** The sync reads the object at k as its source, or copies to it from the same source. */
  ghost predicate Uses(glob: Glob, p: Spec, source: string, k: Key) {
    Wants(glob, p, k) && (p.source == k.ns || (p.source == source && InReach(p, k.ns)))
  }

  /** The object o at k is not for a sync from source to overwrite: another sync reads it, and it is not the sync's own
      copy; or it was made by hand and the sync does not list the namespace; or it is a copy another sync makes from
      elsewhere, and that one lists the namespace or this one does not. */
  ghost predicate HeldByOthers(glob: Glob, others: set<Spec>, source: string, explicit: bool, k: Key, o: Content) {
    || (IsRead(glob, others, k) && !IsCopyOf(o, source, k.name))
    || (OwnerOf(o) == "" && !explicit)
    || (OwnerOf(o) != "" && OwnerOf(o) != source
        && exists p :: p in others && p.source == OwnerOf(o) && Wants(glob, p, k) && InReach(p, k.ns)
             && (k.ns in p.targets || !explicit))
  }

  /** The sync must not write at k, where cur is: another sync holds the object there, or reads what would be created
      there by default. */
  ghost predicate Barred(glob: Glob, others: set<Spec>, s: Spec, k: Key, cur: Option<Content>) {
    || (k.ns !in s.targets && IsRead(glob, others, k))
    || (cur.Some? && HeldByOthers(glob, others, s.source, k.ns in s.targets, k, cur.value))
  }

  // The code's predicates mean this.

  lemma ReachMeans(s: Spec, ns: string)
    ensures TargetsNamespace(ns, s) <==> InReach(s, ns)
  {
  }

  lemma PassesMeans(glob: Glob, filter: Option<ResourceFilter>, name: string)
    ensures ShouldSyncResource(glob, name, filter) <==> Passes(glob, filter, name)
  {
    if filter.Some? {
      FilterMeans(glob, name, filter.value);
    }
  }

  lemma WantsMeans(glob: Glob, s: Spec, k: Key)
    ensures k.name in s.Names(k.kind) <==> Lists(s, k)
    ensures SyncsName(glob, s, k.kind, k.name) <==> Wants(glob, s, k)
  {
    PassesMeans(glob, s.secretFilter, k.name);
    PassesMeans(glob, s.configMapFilter, k.name);
  }

  function PatternsOf(filter: Option<ResourceFilter>): seq<string> {
    if filter.None? then [] else filter.value.incl + filter.value.excl
  }

  /** A spec is valid exactly if it has a source namespace, some name, and only patterns that can be parsed. */
  lemma ValidMeans(glob: Glob, s: Spec)
    ensures ValidSpec(glob, s) <==>
      && s.source != "" && s.secrets + s.configMaps != []
      && (forall p :: p in PatternsOf(s.secretFilter) + PatternsOf(s.configMapFilter) ==> glob(p, "") != Malformed)
  {
  }
}
