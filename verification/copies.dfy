/** What a copy looks like: the stamped annotations and what follows its source (internal/controller/resources.go). */
module Copies {
  import opened Types

  const SOURCE_NAMESPACE := "namespacesync.nsync.dev/source-namespace"
  const SOURCE_NAME := "namespacesync.nsync.dev/source-name"
  const LAST_SYNC := "namespacesync.nsync.dev/last-sync"

  /** Go's map read: an absent key reads as the empty string. */
  function Read(m: Strings, k: string): string {
    if k in m then m[k] else ""
  }

  function Find(m: Strings, k: string): Option<string> {
    if k in m then Some(m[k]) else None
  }

  /** The namespace a copy was synced from; empty on an object no sync created. */
  function From(o: Content): string {
    Read(o.annotations, SOURCE_NAMESPACE)
  }

  function Stamp(o: Content): Option<string> {
    Find(o.annotations, LAST_SYNC)
  }

  predicate HasPrefix(s: string, prefix: string) {
    prefix <= s
  }

  predicate IsSourceOnlyKey(key: string) {
    HasPrefix(key, "kubernetes.io/") || HasPrefix(key, "kubectl.kubernetes.io/")
  }

  /** The entries that follow a source into its copies. */
  function Followers(m: Strings): Strings {
    map k | k in m && !IsSourceOnlyKey(k) :: m[k]
  }

  function Stamped(annotations: Strings, source: string, name: string, now: string): Strings {
    annotations[SOURCE_NAMESPACE := source][SOURCE_NAME := name][LAST_SYNC := now]
  }

  /** The copy of src, named name in namespace source, as a sync builds it at time now. */
  function Desired(src: Content, source: string, name: string, now: string): Content {
    Content(Followers(src.labels), Stamped(Followers(src.annotations), source, name, now), src.payload)
  }

  /** The update of before to after, with the stored stamp carried over when the data stays. */
  function KeepLastSync(before: Content, after: Content): Content {
    if Stamp(before).Some? && before.payload == after.payload
    then after.(annotations := after.annotations[LAST_SYNC := Stamp(before).value])
    else after
  }

  predicate IsManagedCopy(o: Content, source: string, name: string) {
    From(o) == source && Read(o.annotations, SOURCE_NAME) == name
  }

  /** A fresh copy carries its three stamps, and restamping it is building it at another time. */
  lemma DesiredFacts(src: Content, source: string, name: string, now: string, t: string)
    ensures From(Desired(src, source, name, now)) == source
    ensures IsManagedCopy(Desired(src, source, name, now), source, name)
    ensures Stamp(Desired(src, source, name, now)) == Some(now)
    ensures Stamped(Followers(src.annotations), source, name, now)[LAST_SYNC := t]
      == Stamped(Followers(src.annotations), source, name, t)
  {
  }
}
