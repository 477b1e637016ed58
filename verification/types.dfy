/** The objects the controller works on: Secrets and ConfigMaps, and the NamespaceSyncs that copy them. */
module Types {
  datatype Option<+T> = None | Some(value: T)

  datatype Kind = Secret | ConfigMap

  datatype Key = Key(kind: Kind, ns: string, name: string)

  /** String-to-string maps: labels, annotations and data. A nil Go map is the empty map. */
  type Strings = map<string, string>

  /** What a sync copies as data. A ConfigMap leaves secretType empty, a Secret leaves binaryData empty. */
  datatype Payload = Payload(secretType: string, data: Strings, binaryData: Strings)

  /** An object without the metadata the apiserver assigns. */
  datatype Content = Content(labels: Strings, annotations: Strings, payload: Payload)

  /** What the cluster holds, without uids and revisions. */
  type Store = map<Key, Content>

  function At(store: Store, k: Key): Option<Content> {
    if k in store then Some(store[k]) else None
  }

  datatype ResourceFilter = ResourceFilter(incl: seq<string>, excl: seq<string>)

  /** The spec of a NamespaceSync. Absent resourceFilters are two absent filters. */
  datatype Spec = Spec(
    source: string,
    targets: seq<string>,
    secrets: seq<string>,
    configMaps: seq<string>,
    exclude: seq<string>,
    secretFilter: Option<ResourceFilter>,
    configMapFilter: Option<ResourceFilter>)
  {
    /** The listed names of one kind. */
    function Names(kind: Kind): seq<string> {
      match kind
      case Secret => secrets
      case ConfigMap => configMaps
    }

    function Filter(kind: Kind): Option<ResourceFilter> {
      match kind
      case Secret => secretFilter
      case ConfigMap => configMapFilter
    }

    /** The object a copy at k is made from. */
    function SourceOf(k: Key): Key {
      Key(k.kind, source, k.name)
    }
  }

  datatype SyncId = SyncId(ns: string, name: string)

  datatype NamespaceSync = NamespaceSync(id: SyncId, spec: Spec, deleting: bool, finalizers: set<string>)

  const FINALIZER := "namespacesync.nsync.dev/finalizer"

  type Syncs = map<SyncId, NamespaceSync>

  /** The specs of the syncs that are not being deleted. */
  ghost function LiveSpecs(syncs: Syncs): set<Spec> {
    set id | id in syncs && !syncs[id].deleting :: syncs[id].spec
  }

  /** The specs of the syncs other than self that are not being deleted. */
  ghost function PeerSpecs(syncs: Syncs, self: SyncId): set<Spec> {
    set id | id in syncs && id != self && !syncs[id].deleting :: syncs[id].spec
  }
}
