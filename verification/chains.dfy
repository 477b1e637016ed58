/** Chains of explicit syncs: s0 -> s1 -> ... -> sn, of any length and whatever other syncs exist. */
module Chains {
  import opened Types
  import opened Filters
  import opened Copies
  import opened Conflicts
  import opened Steps
  import opened Rounds

  /** A label or an annotation, by its key. */
  datatype Entry = Label(key: string) | Annotation(key: string)

  function ValueOf(o: Content, e: Entry): Option<string> {
    match e
    case Label(x) => Find(o.labels, x)
    case Annotation(x) => Find(o.annotations, x)
  }

  /** Admission leaves this entry of every object alone. */
  ghost predicate Keeps(admit: Admission, e: Entry) {
    forall k, o :: ValueOf(admit(k, o), e) == ValueOf(o, e)
  }

  /** Link i copies the named object from spaces[i] to spaces[i + 1] and lists nothing else. Its peers are arbitrary. */
  ghost predicate IsChain(kind: Kind, name: string, spaces: seq<string>, nss: set<string>, links: seq<Job>) {
    && |spaces| == |links| + 1
    && (forall i, j :: 0 <= i < j < |spaces| ==> spaces[i] != spaces[j])
    && (forall i :: 0 <= i < |links| ==> IsLink(kind, name, spaces[i], spaces[i + 1], nss, links[i]))
  }

  ghost predicate IsLink(kind: Kind, name: string, from: string, to: string, nss: set<string>, link: Job) {
    && TameAdmission(link.admit)
    && link.spec.source == from && from != ""
    && link.spec.targets == [to]
    && Selects(link.glob, link.spec, Key(kind, to, name))
    && to in nss
  }

  /** The stores while the links are reconciled in order. */
  ghost function ChainRun(nss: set<string>, store: Store, links: seq<Job>): Store
    decreases |links|
  {
    if |links| == 0 then store
    else var n := |links| - 1; Reconciled(links[n], nss, ChainRun(nss, store, links[..n]))
  }

  predicate IsStampKey(x: string) {
    x == SOURCE_NAMESPACE || x == SOURCE_NAME || x == LAST_SYNC
  }

  /** o is a copy, through any number of links, of the object at the head of the chain, made from namespace from. */
  ghost predicate CarriesData(head: Content, from: string, name: string, o: Content) {
    o.payload == head.payload && IsManagedCopy(o, from, name) && Stamp(o).Some?
  }

  /** The entry of o is that of the object at the head, or missing if it is source-only. Stamps are apart. */
  ghost predicate Follows(head: Content, o: Content, e: Entry) {
    match e
    case Label(x) => Find(o.labels, x) == Find(Followers(head.labels), x)
    case Annotation(x) => !IsStampKey(x) ==> Find(o.annotations, x) == Find(Followers(head.annotations), x)
  }

  lemma LinkTouchesOnlyItsTarget(kind: Kind, name: string, from: string, to: string, nss: set<string>, link: Job,
      store: Store, k: Key)
    requires IsLink(kind, name, from, to, nss, link)
    requires k.ns != to
    ensures At(Reconciled(link, nss, store), k) == At(store, k)
  {
  }

  /** The link writes its target if it is absent or already its copy. */
  lemma LinkStep(kind: Kind, name: string, from: string, to: string, nss: set<string>, link: Job, store: Store)
    requires IsLink(kind, name, from, to, nss, link)
    requires var k := Key(kind, to, name); k in store ==> IsManagedCopy(store[k], from, name)
    ensures var k := Key(kind, to, name); var sk := Key(kind, from, name);
      At(Reconciled(link, nss, store), k) ==
        if sk in store then Some(Written(link, k, store[sk], At(store, k))) else None
  {
  }

  /** The copy of a source, possibly with an older stamp, carries what the source carries. */
  lemma CopyCarries(link: Job, k: Key, src: Content, cur: Option<Content>, e: Entry)
    requires TameAdmission(link.admit)
    ensures CarriesData(src, link.spec.source, k.name, Written(link, k, src, cur))
    ensures Keeps(link.admit, e) ==> Follows(src, Written(link, k, src, cur), e)
  {
    var o := Written(link, k, src, cur);
    WrittenInSync(link, k, src, cur);
    WrittenOwned(link, k, src, cur);
    var d := Desired(src, link.spec.source, k.name, Stamp(o).value);
    assert Follows(src, d, e);
  }

  lemma FollowsOn(head: Content, mid: Content, o: Content, e: Entry)
    requires Follows(head, mid, e) && Follows(mid, o, e)
    ensures Follows(head, o, e)
  {
  }

  /** Every key after the first is absent or the copy its link made. */
  ghost predicate ReadyChain(kind: Kind, name: string, spaces: seq<string>, store: Store) {
    forall i :: 0 < i < |spaces| && Key(kind, spaces[i], name) in store ==>
      IsManagedCopy(store[Key(kind, spaces[i], name)], spaces[i - 1], name)
  }

  lemma PrefixChain(kind: Kind, name: string, spaces: seq<string>, nss: set<string>, links: seq<Job>)
    requires |links| > 0 && IsChain(kind, name, spaces, nss, links)
    ensures IsChain(kind, name, spaces[..|links|], nss, links[..|links| - 1])
  {
  }

  lemma {:induction false} ChainRunFrame(kind: Kind, name: string, spaces: seq<string>, nss: set<string>, store: Store,
      links: seq<Job>, k: Key)
    requires IsChain(kind, name, spaces, nss, links)
    requires forall i :: 0 < i < |spaces| ==> k.ns != spaces[i]
    ensures At(ChainRun(nss, store, links), k) == At(store, k)
    decreases |links|
  {
    var n := |links| - 1;
    if n >= 0 {
      PrefixChain(kind, name, spaces, nss, links);
      ChainRunFrame(kind, name, spaces[..n + 1], nss, store, links[..n], k);
      assert IsLink(kind, name, spaces[n], spaces[n + 1], nss, links[n]);
      LinkTouchesOnlyItsTarget(kind, name, spaces[n], spaces[n + 1], nss, links[n],
        ChainRun(nss, store, links[..n]), k);
    }
  }

  lemma ShorterChain(kind: Kind, name: string, spaces: seq<string>, nss: set<string>, store: Store, links: seq<Job>)
    requires |links| > 0
    requires IsChain(kind, name, spaces, nss, links) && ReadyChain(kind, name, spaces, store)
    ensures var n := |links| - 1;
      IsChain(kind, name, spaces[..n + 1], nss, links[..n]) && ReadyChain(kind, name, spaces[..n + 1], store)
  {
  }

  /** The last link of a chain finds its target as it was at first, and makes its copy of what the others left. */
  lemma ChainStep(kind: Kind, name: string, spaces: seq<string>, nss: set<string>, store: Store, links: seq<Job>)
    requires |links| > 0
    requires IsChain(kind, name, spaces, nss, links) && ReadyChain(kind, name, spaces, store)
    ensures
      var n := |links| - 1;
      var before := ChainRun(nss, store, links[..n]);
      var k := Key(kind, spaces[n + 1], name);
      var sk := Key(kind, spaces[n], name);
      && At(before, k) == At(store, k)
      && At(ChainRun(nss, store, links), k) ==
           if sk in before then Some(Written(links[n], k, before[sk], At(before, k))) else None
  {
    var n := |links| - 1;
    var before := ChainRun(nss, store, links[..n]);
    var k := Key(kind, spaces[n + 1], name);
    ShorterChain(kind, name, spaces, nss, store, links);
    ChainRunFrame(kind, name, spaces[..n + 1], nss, store, links[..n], k);
    assert At(before, k) == At(store, k);
    assert k in store ==> IsManagedCopy(store[k], spaces[n + 1 - 1], name);
    LinkStep(kind, name, spaces[n], spaces[n + 1], nss, links[n], before);
  }

  /** Reconciling the links in order makes the last object carry the data of the first one, and each of its labels and
      annotations that no admission on the way touches, and stay its link's copy. */
  lemma {:induction false} ChainCarries(kind: Kind, name: string, spaces: seq<string>, nss: set<string>,
      store: Store, links: seq<Job>, e: Entry)
    requires |links| > 0
    requires IsChain(kind, name, spaces, nss, links) && ReadyChain(kind, name, spaces, store)
    requires Key(kind, spaces[0], name) in store
    ensures var n := |links|; var k := Key(kind, spaces[n], name); var head := store[Key(kind, spaces[0], name)];
      && k in ChainRun(nss, store, links)
      && CarriesData(head, spaces[n - 1], name, ChainRun(nss, store, links)[k])
      && ((forall i :: 0 <= i < n ==> Keeps(links[i].admit, e)) ==>
            Follows(head, ChainRun(nss, store, links)[k], e))
    decreases |links|
  {
    var n := |links| - 1;
    var head := Key(kind, spaces[0], name);
    var before := ChainRun(nss, store, links[..n]);
    var k, sk := Key(kind, spaces[n + 1], name), Key(kind, spaces[n], name);
    ChainStep(kind, name, spaces, nss, store, links);
    ShorterChain(kind, name, spaces, nss, store, links);
    if n == 0 {
      assert before == store;
      CopyCarries(links[n], k, store[sk], At(before, k), e);
    } else {
      ChainCarries(kind, name, spaces[..n + 1], nss, store, links[..n], e);
      CopyCarries(links[n], k, before[sk], At(before, k), e);
      if forall i :: 0 <= i <= n ==> Keeps(links[i].admit, e) {
        FollowsOn(store[head], before[sk], ChainRun(nss, store, links)[k], e);
      }
    }
  }

  /** With the first object gone, reconciling the links in order removes every copy along the chain. */
  lemma {:induction false} ChainCollapses(kind: Kind, name: string, spaces: seq<string>, nss: set<string>, store: Store,
      links: seq<Job>, j: nat)
    requires IsChain(kind, name, spaces, nss, links) && ReadyChain(kind, name, spaces, store)
    requires Key(kind, spaces[0], name) !in store
    requires j < |spaces|
    ensures Key(kind, spaces[j], name) !in ChainRun(nss, store, links)
    decreases |links|
  {
    var n := |links| - 1;
    if n >= 0 {
      var before := ChainRun(nss, store, links[..n]);
      ChainStep(kind, name, spaces, nss, store, links);
      ShorterChain(kind, name, spaces, nss, store, links);
      ChainCollapses(kind, name, spaces[..n + 1], nss, store, links[..n], if j <= n then j else n);
      if j <= n {
        LinkTouchesOnlyItsTarget(kind, name, spaces[n], spaces[n + 1], nss, links[n],
          before, Key(kind, spaces[j], name));
      }
    }
  }

  /** Reconciling the links in order keeps the chain ready, so it can be repeated, or collapsed. */
  lemma {:induction false} ChainStaysReady(kind: Kind, name: string, spaces: seq<string>, nss: set<string>,
      store: Store, links: seq<Job>)
    requires IsChain(kind, name, spaces, nss, links) && ReadyChain(kind, name, spaces, store)
    ensures ReadyChain(kind, name, spaces, ChainRun(nss, store, links))
    decreases |links|
  {
    var n := |links| - 1;
    if n >= 0 {
      var before := ChainRun(nss, store, links[..n]);
      var after := ChainRun(nss, store, links);
      ShorterChain(kind, name, spaces, nss, store, links);
      ChainStaysReady(kind, name, spaces[..n + 1], nss, store, links[..n]);
      forall i | 0 < i < |spaces| && Key(kind, spaces[i], name) in after
        ensures IsManagedCopy(after[Key(kind, spaces[i], name)], spaces[i - 1], name)
      {
        var k := Key(kind, spaces[i], name);
        if i <= n {
          LinkTouchesOnlyItsTarget(kind, name, spaces[n], spaces[n + 1], nss, links[n], before, k);
          assert spaces[..n + 1][i] == spaces[i] && spaces[..n + 1][i - 1] == spaces[i - 1];
        } else {
          ChainStep(kind, name, spaces, nss, store, links);
          var sk := Key(kind, spaces[n], name);
          WrittenOwned(links[n], k, before[sk], At(before, k));
        }
      }
    }
  }

  /** The whole life of a chain: it carries the head to the end, and collapses when the head is deleted. */
  lemma ChainLife(kind: Kind, name: string, spaces: seq<string>, nss: set<string>, store: Store, links: seq<Job>,
      again: seq<Job>, j: nat, e: Entry)
    requires |links| > 0 && 0 < j < |spaces|
    requires IsChain(kind, name, spaces, nss, links) && IsChain(kind, name, spaces, nss, again)
    requires ReadyChain(kind, name, spaces, store) && Key(kind, spaces[0], name) in store
    ensures
      var head := Key(kind, spaces[0], name);
      var last := Key(kind, spaces[|links|], name);
      var after := ChainRun(nss, store, links);
      && last in after
      && CarriesData(store[head], spaces[|links| - 1], name, after[last])
      && ((forall i :: 0 <= i < |links| ==> Keeps(links[i].admit, e)) ==>
            Follows(store[head], after[last], e))
      && Key(kind, spaces[j], name) !in ChainRun(nss, after - {head}, again)
  {
    var head := Key(kind, spaces[0], name);
    var after := ChainRun(nss, store, links);
    ChainCarries(kind, name, spaces, nss, store, links, e);
    ChainStaysReady(kind, name, spaces, nss, store, links);
    assert ReadyChain(kind, name, spaces, after - {head});
    ChainCollapses(kind, name, spaces, nss, after - {head}, again, j);
  }
}
