/** Which resources and namespaces a sync selects (internal/controller/filters.go and the checks of utils.go). */
module Filters {
  import opened Types

  /** What path.Match answers for a pattern and a name. */
  datatype GlobResult = Match | NoMatch | Malformed

  type Glob = (string, string) -> GlobResult

  /** The exclude loop: a malformed pattern excludes like a matching one. */
  predicate HitsExclude(glob: Glob, patterns: seq<string>, name: string)
    ensures HitsExclude(glob, patterns, name) <==> exists i :: 0 <= i < |patterns| && glob(patterns[i], name) != NoMatch
  {
    |patterns| > 0 && (glob(patterns[0], name) != NoMatch || HitsExclude(glob, patterns[1..], name))
  }

  /** The include loop: a malformed pattern includes nothing. */
  predicate HitsInclude(glob: Glob, patterns: seq<string>, name: string)
    ensures HitsInclude(glob, patterns, name) <==> exists i :: 0 <= i < |patterns| && glob(patterns[i], name) == Match
  {
    |patterns| > 0 && (glob(patterns[0], name) == Match || HitsInclude(glob, patterns[1..], name))
  }

  predicate ShouldSyncResource(glob: Glob, name: string, filter: Option<ResourceFilter>) {
    match filter
    case None => true
    case Some(f) => !HitsExclude(glob, f.excl, name) && (|f.incl| == 0 || HitsInclude(glob, f.incl, name))
  }

  /** Exclude patterns come first and a malformed one excludes; an empty include list includes everything. */
  lemma FilterMeans(glob: Glob, name: string, f: ResourceFilter)
    ensures ShouldSyncResource(glob, name, Some(f)) <==>
      && (forall p :: p in f.excl ==> glob(p, name) == NoMatch)
      && (f.incl == [] || exists p :: p in f.incl && glob(p, name) == Match)
  {
    if HitsExclude(glob, f.excl, name) {
      var i :| 0 <= i < |f.excl| && glob(f.excl[i], name) != NoMatch;
      assert f.excl[i] in f.excl;
    }
    if HitsInclude(glob, f.incl, name) {
      var i :| 0 <= i < |f.incl| && glob(f.incl[i], name) == Match;
      assert f.incl[i] in f.incl;
    }
  }

  predicate IsSystemNamespace(ns: string) {
    ns in ["kube-system", "kube-public", "kube-node-lease", "default", "k8s-namespace-sync-system"]
  }

  predicate TargetsNamespace(ns: string, s: Spec) {
    if IsSystemNamespace(ns) || ns == s.source || ns in s.exclude then false
    else if |s.targets| > 0 then ns in s.targets
    else true
  }

  predicate SyncsName(glob: Glob, s: Spec, kind: Kind, name: string) {
    name in s.Names(kind) && ShouldSyncResource(glob, name, s.Filter(kind))
  }

  /** A pattern path.Match cannot parse, probed with the empty name. */
  predicate WellFormedFilter(glob: Glob, filter: Option<ResourceFilter>) {
    filter.Some? ==> forall p :: p in filter.value.incl + filter.value.excl ==> glob(p, "") != Malformed
  }

  /** validateNamespaceSync. */
  predicate ValidSpec(glob: Glob, s: Spec) {
    && s.source != ""
    && (|s.secrets| > 0 || |s.configMaps| > 0)
    && WellFormedFilter(glob, s.secretFilter)
    && WellFormedFilter(glob, s.configMapFilter)
  }
}
