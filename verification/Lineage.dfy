/** Portable proofs: a lineage grown to a fixpoint when the proof is built, and grown
    again, by a different loop, when it is verified. */
module Lineage {
  import opened Prelude
  import opened Ordering

  type Id = string

  /** A source descriptor of an artifact's input snapshot. */
  datatype Descriptor = Descriptor(sourceId: string, sha256: string, detail: string)

  type SourceKey = (string, string)

  function KeyOf(d: Descriptor): SourceKey { (d.sourceId, d.sha256) }

  /** What the lineage reads of a verified artifact. */
  datatype Node = Node(id: Id, supersedes: Option<Id>, createdAt: int, snapshots: seq<Descriptor>)

  /** A dict of verified artifacts by id, with its iteration order. */
  datatype Book = Book(ids: seq<Id>, byId: map<Id, Node>) {
    ghost predicate Valid() {
      && Distinct(ids)
      && (forall id :: id in ids <==> id in byId)
      && (forall id :: id in byId ==> byId[id].id == id)
    }
  }

  ghost predicate ParentOf(book: map<Id, Node>, a: Id, b: Id) {
    a in book && b in book && book[a].supersedes == Some(b)
  }

  ghost predicate Adjacent(book: map<Id, Node>, a: Id, b: Id) {
    ParentOf(book, a, b) || ParentOf(book, b, a)
  }

  ghost predicate IsPath(book: map<Id, Node>, path: seq<Id>) {
    path != [] && forall i :: 0 <= i < |path| - 1 ==> Adjacent(book, path[i], path[i + 1])
  }

  /** x hangs together with the root through supersedes links, in either direction. */
  ghost predicate Linked(book: map<Id, Node>, root: Id, x: Id) {
    exists path :: IsPath(book, path) && path[0] == root && path[|path| - 1] == x
  }

  ghost predicate IsComponent(book: map<Id, Node>, root: Id, connected: set<Id>) {
    forall x :: x in connected <==> Linked(book, root, x)
  }

  ghost predicate Closed(book: map<Id, Node>, connected: set<Id>) {
    forall a, b :: a in connected && Adjacent(book, a, b) ==> b in connected
  }

  ghost predicate AllLinked(book: map<Id, Node>, root: Id, connected: set<Id>) {
    root in connected && forall x :: x in connected ==> Linked(book, root, x)
  }

  lemma LinkedRoot(book: map<Id, Node>, root: Id)
    ensures Linked(book, root, root)
  {
    assert IsPath(book, [root]) && [root][0] == root;
  }

  lemma LinkedStep(book: map<Id, Node>, root: Id, a: Id, b: Id)
    requires Linked(book, root, a) && Adjacent(book, a, b)
    ensures Linked(book, root, b)
  {
    var path :| IsPath(book, path) && path[0] == root && path[|path| - 1] == a;
    var longer := path + [b];
    assert IsPath(book, longer) && longer[0] == root && longer[|longer| - 1] == b;
  }

  lemma {:induction false} PathStays(book: map<Id, Node>, connected: set<Id>, path: seq<Id>)
    requires IsPath(book, path) && path[0] in connected && Closed(book, connected)
    ensures path[|path| - 1] in connected
    decreases |path|
  {
    if |path| > 1 {
      var init := path[..|path| - 1];
      assert IsPath(book, init);
      PathStays(book, connected, init);
      assert Adjacent(book, path[|path| - 2], path[|path| - 1]);
    }
  }

  /** A closed set of linked ids that holds the root is the whole component. */
  lemma ClosedIsComponent(book: map<Id, Node>, root: Id, connected: set<Id>)
    requires AllLinked(book, root, connected) && Closed(book, connected)
    ensures IsComponent(book, root, connected)
  {
    forall x | Linked(book, root, x) ensures x in connected {
      var path :| IsPath(book, path) && path[0] == root && path[|path| - 1] == x;
      PathStays(book, connected, path);
    }
  }

  // ---------------------------------------------------------------------
  // The builder's loop
  // ---------------------------------------------------------------------

  /** Nothing of the first i artifacts would be added by another pass. */
  ghost predicate Settled(book: Book, connected: set<Id>, i: nat)
    requires i <= |book.ids|
  {
    forall j, b :: 0 <= j < i && b in book.byId && ParentOf(book.byId, book.ids[j], b) ==>
      (book.ids[j] in connected <==> b in connected)
  }

  lemma SettledIsClosed(book: Book, connected: set<Id>)
    requires book.Valid() && Settled(book, connected, |book.ids|)
    ensures Closed(book.byId, connected)
  {
    forall a, b | a in connected && Adjacent(book.byId, a, b) ensures b in connected {
      if ParentOf(book.byId, a, b) {
        var j :| 0 <= j < |book.ids| && book.ids[j] == a;
      } else {
        var j :| 0 <= j < |book.ids| && book.ids[j] == b;
      }
    }
  }

  lemma Grow(book: map<Id, Node>, root: Id, connected: set<Id>, a: Id, b: Id)
    requires AllLinked(book, root, connected) && a in connected && Adjacent(book, a, b)
    ensures AllLinked(book, root, connected + {b})
  {
    LinkedStep(book, root, a, b);
  }

  /** One pass of the builder's inner loop. */
  method LineagePass(book: Book, root: Id, connected: set<Id>) returns (grown: set<Id>, changed: bool)
    requires book.Valid() && root in book.byId
    requires connected <= book.byId.Keys && AllLinked(book.byId, root, connected)
    ensures connected <= grown <= book.byId.Keys && AllLinked(book.byId, root, grown)
    ensures changed <==> grown != connected
    ensures !changed ==> Settled(book, grown, |book.ids|)
  {
    hide Linked;
    grown, changed := connected, false;
    for i := 0 to |book.ids|
      invariant connected <= grown <= book.byId.Keys && AllLinked(book.byId, root, grown)
      invariant changed <==> grown != connected
      invariant !changed ==> Settled(book, grown, i)
    {
      var id := book.ids[i];
      var parent := book.byId[id].supersedes;
      if (id in grown || (parent.Some? && parent.value in grown)) && id !in grown {
        Grow(book.byId, root, grown, parent.value, id);
        grown := grown + {id};
        changed := true;
      }
      if id in grown && parent.Some? && parent.value in book.byId && parent.value !in grown {
        Grow(book.byId, root, grown, id, parent.value);
        grown := grown + {parent.value};
        changed := true;
      }
    }
  }

  /** `_lineage`: ends, with exactly the connected component of the root. */
  method Component(book: Book, root: Id) returns (connected: set<Id>)
    requires book.Valid() && root in book.byId
    ensures connected <= book.byId.Keys && IsComponent(book.byId, root, connected)
  {
    hide Linked;
    connected := {root};
    LinkedRoot(book.byId, root);
    var changed := true;
    while changed
      invariant connected <= book.byId.Keys && AllLinked(book.byId, root, connected)
      invariant !changed ==> Settled(book, connected, |book.ids|)
      decreases book.byId.Keys - connected, changed
    {
      var grown, more := LineagePass(book, root, connected);
      connected, changed := grown, more;
    }
    SettledIsClosed(book, connected);
    ClosedIsComponent(book.byId, root, connected);
  }

  /** `(created_at_utc, artifact_id)` */
  function AgeKey(): Node -> Key { (a: Node) => [a.createdAt] + NameKey(a.id) }

  /** The artifacts of the component, each once, oldest first. */
  ghost predicate IsLineage(artifacts: seq<Node>, book: Book, root: Id) {
    && Distinct(artifacts)
    && (forall a :: a in artifacts <==> a.id in book.byId && book.byId[a.id] == a && Linked(book.byId, root, a.id))
    && SortedBy(artifacts, AgeKey())
  }

  /** The list runs from old to new; artifacts of one time stand in the order of their ids. */
  lemma OldestFirst(artifacts: seq<Node>, book: Book, root: Id, i: nat, j: nat)
    requires IsLineage(artifacts, book, root) && i < j < |artifacts|
    ensures var a, b := artifacts[i], artifacts[j];
      a.createdAt < b.createdAt || (a.createdAt == b.createdAt && NameBefore(a.id, b.id))
  {
    hide Linked, NameKey, NameBefore;
    var a, b := artifacts[i], artifacts[j];
    assert a in artifacts && b in artifacts;
    var x, y := AgeKey()(a), AgeKey()(b);
    KeyLeHead(x, y);
    if a.createdAt == b.createdAt {
      assert x[1..] == NameKey(a.id) && y[1..] == NameKey(b.id);
      NameFirst(a.id, b.id);
    }
  }

  method Lineage(book: Book, root: Id) returns (artifacts: seq<Node>)
    requires book.Valid() && root in book.byId
    ensures IsLineage(artifacts, book, root)
  {
    hide Linked;
    var connected := Component(book, root);
    var members: seq<Node> := [];
    for i := 0 to |book.ids|
      invariant Distinct(members)
      invariant forall a :: a in members <==> a.id in book.ids[..i] && a.id in connected && book.byId[a.id] == a
    {
      assert book.ids[..i + 1] == book.ids[..i] + [book.ids[i]];
      if book.ids[i] in connected { members := members + [book.byId[book.ids[i]]]; }
    }
    assert book.ids[..|book.ids|] == book.ids;
    artifacts := Sort(members, AgeKey());
    DistinctMultiset(members, artifacts);
  }

  // ---------------------------------------------------------------------
  // The verifier's loop
  // ---------------------------------------------------------------------

  ghost predicate IsIndex(book: Book, artifacts: seq<Node>) {
    && book.Valid() && |book.ids| == |artifacts|
    && forall i :: 0 <= i < |artifacts| ==>
         book.ids[i] == artifacts[i].id && artifacts[i].id in book.byId && book.byId[artifacts[i].id] == artifacts[i]
  }

  /** `{a["artifact_id"]: a for a in artifacts}`, refused on a duplicate id. */
  method IndexArtifacts(artifacts: seq<Node>) returns (book: Option<Book>)
    ensures book.Some? <==> forall i, j :: 0 <= i < j < |artifacts| ==> artifacts[i].id != artifacts[j].id
    ensures book.Some? ==> IsIndex(book.value, artifacts)
  {
    var ids: seq<Id> := [];
    var byId: map<Id, Node> := map[];
    for i := 0 to |artifacts|
      invariant |ids| == i && Book(ids, byId).Valid()
      invariant forall j :: 0 <= j < i ==> ids[j] == artifacts[j].id && byId[artifacts[j].id] == artifacts[j]
      invariant forall j, k :: 0 <= j < k < i ==> artifacts[j].id != artifacts[k].id
    {
      var id := artifacts[i].id;
      if id in byId {
        assert id in ids;
        return None;
      }
      ids := ids + [id];
      byId := byId[id := artifacts[i]];
    }
    return Some(Book(ids, byId));
  }

  /** One pass of the verifier's inner loop: parents first, then children. */
  method VerifierPass(book: Book, root: Id, connected: set<Id>) returns (grown: set<Id>, changed: bool)
    requires book.Valid() && root in book.byId
    requires connected <= book.byId.Keys && AllLinked(book.byId, root, connected)
    ensures connected <= grown <= book.byId.Keys && AllLinked(book.byId, root, grown)
    ensures changed <==> grown != connected
    ensures !changed ==> Settled(book, grown, |book.ids|)
  {
    hide Linked;
    grown, changed := connected, false;
    for i := 0 to |book.ids|
      invariant connected <= grown <= book.byId.Keys && AllLinked(book.byId, root, grown)
      invariant changed <==> grown != connected
      invariant !changed ==> Settled(book, grown, i)
    {
      var id := book.ids[i];
      var parent := book.byId[id].supersedes;
      if id in grown && parent.Some? && parent.value in book.byId && parent.value !in grown {
        Grow(book.byId, root, grown, id, parent.value);
        grown := grown + {parent.value};
        changed := true;
      }
      if parent.Some? && parent.value in grown && id !in grown {
        Grow(book.byId, root, grown, parent.value, id);
        grown := grown + {id};
        changed := true;
      }
    }
  }

  method VerifierComponent(book: Book, root: Id) returns (connected: set<Id>)
    requires book.Valid() && root in book.byId
    ensures connected <= book.byId.Keys && IsComponent(book.byId, root, connected)
  {
    hide Linked;
    connected := {root};
    LinkedRoot(book.byId, root);
    var changed := true;
    while changed
      invariant connected <= book.byId.Keys && AllLinked(book.byId, root, connected)
      invariant !changed ==> Settled(book, connected, |book.ids|)
      decreases book.byId.Keys - connected, changed
    {
      var grown, more := VerifierPass(book, root, connected);
      connected, changed := grown, more;
    }
    SettledIsClosed(book, connected);
    ClosedIsComponent(book.byId, root, connected);
  }

  // ---------------------------------------------------------------------
  // Sources
  // ---------------------------------------------------------------------

  ghost predicate Describes(artifacts: seq<Node>, d: Descriptor) {
    exists a :: a in artifacts && d in a.snapshots
  }

  /** The snapshots of all artifacts, in order. */
  function AllSnapshots(artifacts: seq<Node>): (all: seq<Descriptor>)
    ensures forall d :: d in all <==> Describes(artifacts, d)
  {
    if artifacts == [] then []
    else
      var init, last := artifacts[..|artifacts| - 1], artifacts[|artifacts| - 1];
      assert artifacts == init + [last];
      assert forall d :: Describes(artifacts, d) <==> Describes(init, d) || d in last.snapshots by {
        SnapshotsSnoc(init, last);
      }
      AllSnapshots(init) + last.snapshots
  }

  lemma SnapshotsSnoc(init: seq<Node>, last: Node)
    ensures forall d :: Describes(init + [last], d) <==> Describes(init, d) || d in last.snapshots
  {
    forall d ensures Describes(init + [last], d) <==> Describes(init, d) || d in last.snapshots {
      if Describes(init, d) {
        var a :| a in init && d in a.snapshots;
        assert a in init + [last];
      }
      if d in last.snapshots { assert last in init + [last]; }
    }
  }

  /** Two descriptors of one source differ. */
  ghost predicate Conflict(all: seq<Descriptor>) {
    exists d, e :: d in all && e in all && KeyOf(d) == KeyOf(e) && d != e
  }

  /** Included artifacts disagree on a source. */
  ghost predicate Disagree(artifacts: seq<Node>) { Conflict(AllSnapshots(artifacts)) }

  datatype Source = Source(descriptor: Descriptor, manifest: Option<string>)

  /** The hash of a proof without its own hash field. */
  datatype Bundle = BundleHash(root: Id, artifacts: seq<Node>, sources: seq<Source>)

  datatype Proof = Proof(root: Id, artifacts: seq<Node>, sources: seq<Source>, bundle: Bundle)

  /** `descriptors[key] = descriptor`, later ones winning, with keys in insertion order. */
  method IndexDescriptors(artifacts: seq<Node>) returns (keys: seq<SourceKey>, byKey: map<SourceKey, Descriptor>)
    ensures Distinct(keys) && forall k :: k in keys <==> k in byKey
    ensures forall k :: k in byKey ==> byKey[k] in AllSnapshots(artifacts) && KeyOf(byKey[k]) == k
    ensures forall d :: d in AllSnapshots(artifacts) ==> KeyOf(d) in byKey
  {
    var all := AllSnapshots(artifacts);
    keys, byKey := [], map[];
    for i := 0 to |all|
      invariant Distinct(keys) && forall k :: k in keys <==> k in byKey
      invariant forall k :: k in byKey ==> byKey[k] in all && KeyOf(byKey[k]) == k
      invariant forall j :: 0 <= j < i ==> KeyOf(all[j]) in byKey
    {
      var k := KeyOf(all[i]);
      if k !in byKey { keys := keys + [k]; }
      byKey := byKey[k := all[i]];
    }
  }

  /** Tuples of two strings compare by the first, then the second. */
  function SourceOrder(): SourceKey -> Key { (k: SourceKey) => NameKey(k.0) + ([-1] + NameKey(k.1)) }

  ghost predicate Sourced(sources: seq<Source>, key: SourceKey) {
    exists s :: s in sources && KeyOf(s.descriptor) == key
  }

  ghost predicate AreSources(sources: seq<Source>, artifacts: seq<Node>, sha: string -> string) {
    && (forall i, j :: 0 <= i < j < |sources| ==> KeyOf(sources[i].descriptor) != KeyOf(sources[j].descriptor))
    && (forall s :: s in sources ==> s.descriptor in AllSnapshots(artifacts))
    && (forall d :: d in AllSnapshots(artifacts) ==> Sourced(sources, KeyOf(d)))
    && (forall s :: s in sources && s.manifest.Some? ==> sha(s.manifest.value) == s.descriptor.sha256)
  }

  /** Every available manifest is embedded, and no other. */
  ghost predicate Embeds(sources: seq<Source>, manifests: map<string, string>) {
    forall s :: s in sources ==>
      s.manifest == if s.descriptor.sha256 in manifests then Some(manifests[s.descriptor.sha256]) else None
  }

  function DescriptorOrder(): Source -> Key { (s: Source) => SourceOrder()(KeyOf(s.descriptor)) }

  /** Every embedded manifest is a JSON text. */
  ghost predicate Parseable(sources: seq<Source>, parses: string -> bool) {
    forall s :: s in sources && s.manifest.Some? ==> parses(s.manifest.value)
  }

  /** The source list of `build_forecast_proof`; manifests maps hashes to manifest texts. */
  method BuildSources(artifacts: seq<Node>, manifests: map<string, string>, sha: string -> string)
    returns (sources: seq<Source>)
    requires forall h :: h in manifests ==> sha(manifests[h]) == h
    ensures AreSources(sources, artifacts, sha) && Embeds(sources, manifests)
    ensures SortedBy(sources, DescriptorOrder())
  {
    hide SortedBy, NameKey, AllSnapshots;
    var keys, byKey := IndexDescriptors(artifacts);
    var ordered := Sort(keys, SourceOrder());
    DistinctMultiset(keys, ordered);
    sources := [];
    for i := 0 to |ordered|
      invariant |sources| == i
      invariant forall j :: 0 <= j < i ==> sources[j].descriptor == byKey[ordered[j]]
      invariant Embeds(sources, manifests)
    {
      assert ordered[i] in ordered;
      var d := byKey[ordered[i]];
      sources := sources + [Source(d, if d.sha256 in manifests then Some(manifests[d.sha256]) else None)];
    }
    OrderedSources(ordered, byKey, sources, artifacts);
    InheritsOrder(ordered, sources);
  }

  /** Reading the descriptors off in key order yields the sources, but for their manifests. */
  lemma OrderedSources(ordered: seq<SourceKey>, byKey: map<SourceKey, Descriptor>, sources: seq<Source>,
                       artifacts: seq<Node>)
    requires Distinct(ordered) && |sources| == |ordered| && forall k :: k in ordered <==> k in byKey
    requires forall k :: k in byKey ==> byKey[k] in AllSnapshots(artifacts) && KeyOf(byKey[k]) == k
    requires forall d :: d in AllSnapshots(artifacts) ==> KeyOf(d) in byKey
    requires forall i :: 0 <= i < |sources| ==> ordered[i] in byKey && sources[i].descriptor == byKey[ordered[i]]
    ensures forall i :: 0 <= i < |sources| ==> KeyOf(sources[i].descriptor) == ordered[i]
    ensures forall i, j :: 0 <= i < j < |sources| ==> KeyOf(sources[i].descriptor) != KeyOf(sources[j].descriptor)
    ensures forall s :: s in sources ==> s.descriptor in AllSnapshots(artifacts)
    ensures forall d :: d in AllSnapshots(artifacts) ==> Sourced(sources, KeyOf(d))
  {
    hide AllSnapshots;
    forall d | d in AllSnapshots(artifacts)
      ensures Sourced(sources, KeyOf(d))
    {
      assert KeyOf(d) in ordered;
      var i :| 0 <= i < |ordered| && ordered[i] == KeyOf(d);
      assert sources[i] in sources;
    }
    forall s | s in sources ensures s.descriptor in AllSnapshots(artifacts) {
      var i :| 0 <= i < |sources| && sources[i] == s;
      assert ordered[i] in ordered;
    }
  }

  /** Sources stand in the order of their source id, then of their hash. */
  lemma SourcesInOrder(sources: seq<Source>, i: nat, j: nat)
    requires SortedBy(sources, DescriptorOrder()) && i < j < |sources|
    ensures var a, b := sources[i].descriptor, sources[j].descriptor;
      || NameBefore(a.sourceId, b.sourceId)
      || (a.sourceId == b.sourceId && (a.sha256 == b.sha256 || NameBefore(a.sha256, b.sha256)))
  {
    hide NameKey, NameBefore;
    var a, b := sources[i].descriptor, sources[j].descriptor;
    assert KeyLe(DescriptorOrder()(sources[i]), DescriptorOrder()(sources[j]));
    assert DescriptorOrder()(sources[i]) == SourceOrder()(KeyOf(a));
    assert DescriptorOrder()(sources[j]) == SourceOrder()(KeyOf(b));
    ClosedName(a.sourceId, b.sourceId, NameKey(a.sha256), NameKey(b.sha256));
    if a.sourceId == b.sourceId && a.sha256 != b.sha256 && !NameBefore(a.sourceId, b.sourceId) {
      NameFirst(a.sha256, b.sha256);
    }
  }

  lemma InheritsOrder(ordered: seq<SourceKey>, sources: seq<Source>)
    requires |sources| == |ordered| && SortedBy(ordered, SourceOrder())
    requires forall i :: 0 <= i < |sources| ==> KeyOf(sources[i].descriptor) == ordered[i]
    ensures SortedBy(sources, DescriptorOrder())
  {
    hide NameKey, KeyLe;
  }

  datatype Refusal = HashMismatch | NotIntact | DuplicateArtifact | RootMissing | OutsideLineage
                   | SourceDisagreement | DuplicateSource | SourceSetMismatch | SourceMismatch | ManifestMismatch
                   | NotJson

  /** What the verifier calls beside its own code: SHA-256, and whether a text is JSON. */
  datatype Callees = Callees(sha: string -> string, parses: string -> bool)

  ghost predicate Reconciled(sources: seq<Source>, artifacts: seq<Node>, callees: Callees) {
    !Disagree(artifacts) && AreSources(sources, artifacts, callees.sha) && Parseable(sources, callees.parses)
  }

  /** What `verify_forecast_proof` accepts. */
  ghost predicate Verifies(proof: Proof, intact: Node -> bool, callees: Callees) {
    && proof.bundle == BundleHash(proof.root, proof.artifacts, proof.sources)
    && (forall a :: a in proof.artifacts ==> intact(a))
    && (forall i, j :: 0 <= i < j < |proof.artifacts| ==> proof.artifacts[i].id != proof.artifacts[j].id)
    && (exists a :: a in proof.artifacts && a.id == proof.root)
    && (forall book :: IsIndex(book, proof.artifacts) ==>
          forall a :: a in proof.artifacts ==> Linked(book.byId, proof.root, a.id))
    && Reconciled(proof.sources, proof.artifacts, callees)
  }

  ghost predicate Declares(declared: map<SourceKey, Descriptor>, sources: seq<Source>) {
    && (forall s :: s in sources ==> KeyOf(s.descriptor) in declared && declared[KeyOf(s.descriptor)] == s.descriptor)
    && (forall key :: key in declared ==> exists s :: s in sources && key == KeyOf(s.descriptor))
  }

  /** `artifact_sources`: refused when a key reappears with another descriptor. */
  method AgreeingSources(all: seq<Descriptor>) returns (byKey: Option<map<SourceKey, Descriptor>>)
    ensures byKey.Some? <==> !Conflict(all)
    ensures byKey.Some? ==> IsDictionary(byKey.value, all)
  {
    var found: map<SourceKey, Descriptor> := map[];
    for i := 0 to |all|
      invariant forall k :: k in found ==> found[k] in all && KeyOf(found[k]) == k
      invariant forall j :: 0 <= j < i ==> KeyOf(all[j]) in found && found[KeyOf(all[j])] == all[j]
    {
      var k := KeyOf(all[i]);
      if k in found && found[k] != all[i] {
        assert found[k] in all && all[i] in all;
        return None;
      }
      found := found[k := all[i]];
    }
    assert IsDictionary(found, all);
    return Some(found);
  }

  ghost predicate IsDictionary(byKey: map<SourceKey, Descriptor>, all: seq<Descriptor>) {
    && (forall k :: k in byKey ==> byKey[k] in all && KeyOf(byKey[k]) == k)
    && (forall d :: d in all ==> KeyOf(d) in byKey && byKey[KeyOf(d)] == d)
  }

  ghost predicate DistinctKeys(sources: seq<Source>) {
    forall i, j :: 0 <= i < j < |sources| ==> KeyOf(sources[i].descriptor) != KeyOf(sources[j].descriptor)
  }

  /** `declared_sources`: refused when a key reappears. */
  method DeclaredSources(sources: seq<Source>) returns (byKey: Option<map<SourceKey, Descriptor>>)
    ensures byKey.Some? <==> DistinctKeys(sources)
    ensures byKey.Some? ==> Declares(byKey.value, sources)
  {
    var declared: map<SourceKey, Descriptor> := map[];
    for i := 0 to |sources|
      invariant DistinctKeys(sources[..i])
      invariant Declares(declared, sources[..i])
    {
      assert sources[..i + 1] == sources[..i] + [sources[i]];
      var key := KeyOf(sources[i].descriptor);
      if key in declared {
        var s :| s in sources[..i] && key == KeyOf(s.descriptor);
        var j :| 0 <= j < i && sources[j] == s;
        return None;
      }
      DeclareSnoc(declared, sources[..i], sources[i]);
      declared := declared[key := sources[i].descriptor];
    }
    assert sources[..|sources|] == sources;
    return Some(declared);
  }

  lemma DeclareSnoc(declared: map<SourceKey, Descriptor>, seen: seq<Source>, s: Source)
    requires Declares(declared, seen) && KeyOf(s.descriptor) !in declared
    ensures Declares(declared[KeyOf(s.descriptor) := s.descriptor], seen + [s])
  {
    var next, all := declared[KeyOf(s.descriptor) := s.descriptor], seen + [s];
    forall key | key in next ensures exists x :: x in all && key == KeyOf(x.descriptor) {
      if key in declared {
        var x :| x in seen && key == KeyOf(x.descriptor);
        assert x in all;
      } else {
        assert s in all;
      }
    }
  }

  lemma KeysAgree(sources: seq<Source>, artifacts: seq<Node>, sha: string -> string,
                  declared: map<SourceKey, Descriptor>, known: map<SourceKey, Descriptor>)
    requires Declares(declared, sources) && IsDictionary(known, AllSnapshots(artifacts))
    requires AreSources(sources, artifacts, sha)
    ensures declared.Keys == known.Keys
  {
    hide AllSnapshots;
    forall k | k in declared ensures k in known {
      var s :| s in sources && k == KeyOf(s.descriptor);
    }
    forall k | k in known ensures k in declared {
      var s :| s in sources && KeyOf(s.descriptor) == k;
    }
  }

  lemma SourcesAgree(sources: seq<Source>, artifacts: seq<Node>, sha: string -> string,
                     declared: map<SourceKey, Descriptor>, known: map<SourceKey, Descriptor>)
    requires DistinctKeys(sources) && Declares(declared, sources) && IsDictionary(known, AllSnapshots(artifacts))
    requires declared.Keys == known.Keys
    requires forall s :: s in sources ==> known[KeyOf(s.descriptor)] == s.descriptor
    requires forall s :: s in sources && s.manifest.Some? ==> sha(s.manifest.value) == s.descriptor.sha256
    ensures AreSources(sources, artifacts, sha)
  {
    hide AllSnapshots;
    forall d | d in AllSnapshots(artifacts)
      ensures Sourced(sources, KeyOf(d))
    {
      assert KeyOf(d) in declared;
    }
  }

  /** The source half of the verifier. */
  method VerifySources(sources: seq<Source>, artifacts: seq<Node>, callees: Callees)
    returns (refusal: Option<Refusal>)
    ensures refusal.None? <==> Reconciled(sources, artifacts, callees)
  {
    hide AllSnapshots, Conflict, AreSources;
    var agreed := AgreeingSources(AllSnapshots(artifacts));
    if agreed.None? { return Some(SourceDisagreement); }
    var declared := DeclaredSources(sources);
    if declared.None? {
      if AreSources(sources, artifacts, callees.sha) { SourceKeysDiffer(sources, artifacts, callees.sha); }
      return Some(DuplicateSource);
    }
    if declared.value.Keys != agreed.value.Keys {
      if AreSources(sources, artifacts, callees.sha) {
        KeysAgree(sources, artifacts, callees.sha, declared.value, agreed.value);
      }
      return Some(SourceSetMismatch);
    }
    for i := 0 to |sources|
      invariant forall j :: 0 <= j < i ==> agreed.value[KeyOf(sources[j].descriptor)] == sources[j].descriptor
    {
      assert sources[i] in sources;
      if agreed.value[KeyOf(sources[i].descriptor)] != sources[i].descriptor {
        if AreSources(sources, artifacts, callees.sha) {
          SourceKnown(sources, artifacts, callees.sha, agreed.value, i);
        }
        return Some(SourceMismatch);
      }
    }
    refusal := VerifyManifests(sources, callees);
    if refusal.None? {
      SourcesAgree(sources, artifacts, callees.sha, declared.value, agreed.value);
    } else if AreSources(sources, artifacts, callees.sha) {
      SourceHashes(sources, artifacts, callees.sha);
    }
  }

  /** The loop over embedded manifests. */
  method VerifyManifests(sources: seq<Source>, callees: Callees) returns (refusal: Option<Refusal>)
    ensures refusal.None? <==> HashesMatch(sources, callees.sha) && Parseable(sources, callees.parses)
  {
    for i := 0 to |sources|
      invariant HashesMatch(sources[..i], callees.sha) && Parseable(sources[..i], callees.parses)
    {
      var source := sources[i];
      assert source in sources && sources[..i + 1] == sources[..i] + [source];
      if source.manifest.None? { continue; }
      if callees.sha(source.manifest.value) != source.descriptor.sha256 { return Some(ManifestMismatch); }
      if !callees.parses(source.manifest.value) { return Some(NotJson); }
    }
    assert sources[..|sources|] == sources;
    return None;
  }

  ghost predicate HashesMatch(sources: seq<Source>, sha: string -> string) {
    forall s :: s in sources && s.manifest.Some? ==> sha(s.manifest.value) == s.descriptor.sha256
  }

  lemma SourceKeysDiffer(sources: seq<Source>, artifacts: seq<Node>, sha: string -> string)
    requires AreSources(sources, artifacts, sha)
    ensures DistinctKeys(sources)
  {
  }

  lemma SourceKnown(sources: seq<Source>, artifacts: seq<Node>, sha: string -> string,
                    known: map<SourceKey, Descriptor>, i: nat)
    requires AreSources(sources, artifacts, sha) && IsDictionary(known, AllSnapshots(artifacts)) && i < |sources|
    ensures KeyOf(sources[i].descriptor) in known && known[KeyOf(sources[i].descriptor)] == sources[i].descriptor
  {
    assert sources[i] in sources;
  }

  lemma SourceHashes(sources: seq<Source>, artifacts: seq<Node>, sha: string -> string)
    requires AreSources(sources, artifacts, sha)
    ensures HashesMatch(sources, sha)
  {
  }

  /** `verify_forecast_proof`, after the schema check. */
  method VerifyProof(proof: Proof, intact: Node -> bool, callees: Callees) returns (refusal: Option<Refusal>)
    ensures refusal.None? <==> Verifies(proof, intact, callees)
  {
    hide Linked, AllSnapshots, Reconciled, IsComponent;
    if proof.bundle != BundleHash(proof.root, proof.artifacts, proof.sources) { return Some(HashMismatch); }
    for i := 0 to |proof.artifacts|
      invariant forall j :: 0 <= j < i ==> intact(proof.artifacts[j])
    {
      assert proof.artifacts[i] in proof.artifacts;
      if !intact(proof.artifacts[i]) { return Some(NotIntact); }
    }
    var index := IndexArtifacts(proof.artifacts);
    if index.None? { return Some(DuplicateArtifact); }
    var book := index.value;
    IndexMembers(book, proof.artifacts);
    if proof.root !in book.byId { return Some(RootMissing); }
    var connected := VerifierComponent(book, proof.root);
    WholeComponent(book, proof.artifacts, proof.root, connected);
    if connected != book.byId.Keys { return Some(OutsideLineage); }
    refusal := VerifySources(proof.sources, proof.artifacts, callees);
  }

  lemma IndexMembers(book: Book, artifacts: seq<Node>)
    requires IsIndex(book, artifacts)
    ensures forall id :: id in book.byId <==> exists a :: a in artifacts && a.id == id
    ensures forall a :: a in artifacts ==> a.id in book.byId && book.byId[a.id] == a
    ensures forall other :: IsIndex(other, artifacts) ==> other.byId == book.byId
  {
    forall id | id in book.byId ensures exists a :: a in artifacts && a.id == id {
      var i :| 0 <= i < |book.ids| && book.ids[i] == id;
      assert artifacts[i] in artifacts;
    }
    forall other | IsIndex(other, artifacts) ensures other.byId == book.byId {
      forall id ensures id in other.byId <==> id in book.byId {
        if id in other.byId { var i :| 0 <= i < |other.ids| && other.ids[i] == id; }
        if id in book.byId { var i :| 0 <= i < |book.ids| && book.ids[i] == id; }
      }
      forall id | id in book.byId ensures other.byId[id] == book.byId[id] {
        var i :| 0 <= i < |book.ids| && book.ids[i] == id;
      }
    }
  }

  lemma WholeComponent(book: Book, artifacts: seq<Node>, root: Id, connected: set<Id>)
    requires IsIndex(book, artifacts) && IsComponent(book.byId, root, connected) && connected <= book.byId.Keys
    ensures connected == book.byId.Keys <==>
      forall other :: IsIndex(other, artifacts) ==> forall a :: a in artifacts ==> Linked(other.byId, root, a.id)
  {
    hide Linked;
    IndexMembers(book, artifacts);
  }

  // ---------------------------------------------------------------------
  // A built proof verifies
  // ---------------------------------------------------------------------

  /** A path of the ledger from the root never leaves the lineage, so the root reaches the
      same artifacts inside the proof. */
  lemma {:induction false} PathInside(ledger: map<Id, Node>, included: map<Id, Node>, root: Id, path: seq<Id>)
    requires IsPath(ledger, path) && path[0] == root
    requires forall x :: x in ledger && Linked(ledger, root, x) ==> x in included && included[x] == ledger[x]
    ensures IsPath(included, path) || |path| == 1
    decreases |path|
  {
    hide Linked;
    if |path| > 1 {
      var init := path[..|path| - 1];
      assert IsPath(ledger, init);
      PathInside(ledger, included, root, init);
      var a, b := path[|path| - 2], path[|path| - 1];
      assert Adjacent(ledger, a, b);
      PrefixLinked(ledger, root, init);
      LinkedStep(ledger, root, a, b);
      assert Adjacent(included, a, b);
    }
  }

  lemma PrefixLinked(book: map<Id, Node>, root: Id, path: seq<Id>)
    requires IsPath(book, path) && path[0] == root
    ensures Linked(book, root, path[|path| - 1])
  {
  }

  lemma LinkedInside(ledger: map<Id, Node>, included: map<Id, Node>, root: Id, x: Id)
    requires Linked(ledger, root, x)
    requires forall y :: y in ledger && Linked(ledger, root, y) ==> y in included && included[y] == ledger[y]
    ensures Linked(included, root, x)
  {
    var path :| IsPath(ledger, path) && path[0] == root && path[|path| - 1] == x;
    PathInside(ledger, included, root, path);
    assert IsPath(included, path);
  }

  /** `ledger[root["artifact_id"]] = root` */
  function WithRoot(ledger: Book, root: Node): Book {
    Book(if root.id in ledger.byId then ledger.ids else ledger.ids + [root.id], ledger.byId[root.id := root])
  }

  /** `build_forecast_proof`: the bundle, or the refusal its own verification raises. */
  method BuildProof(root: Node, ledger: Book, manifests: map<string, string>,
                    intact: Node -> bool, callees: Callees)
    returns (proof: Proof, refusal: Option<Refusal>)
    requires ledger.Valid() && intact(root) && forall id :: id in ledger.byId ==> intact(ledger.byId[id])
    requires forall h :: h in manifests ==> callees.sha(manifests[h]) == h
    ensures IsLineage(proof.artifacts, WithRoot(ledger, root), root.id)
    ensures AreSources(proof.sources, proof.artifacts, callees.sha) && Embeds(proof.sources, manifests)
    ensures refusal.None? <==> Verifies(proof, intact, callees)
    ensures refusal.None? <==> !Disagree(proof.artifacts) && ManifestsParse(proof.artifacts, manifests, callees.parses)
  {
    hide Linked, AllSnapshots, AreSources, IsLineage, Verifies, Embeds, Parseable, ManifestsParse, Disagree;
    var book := WithRoot(ledger, root);
    var artifacts := Lineage(book, root.id);
    var sources := BuildSources(artifacts, manifests, callees.sha);
    proof := Proof(root.id, artifacts, sources, BundleHash(root.id, artifacts, sources));
    refusal := VerifyProof(proof, intact, callees);
    BuiltVerifies(proof, book, root, intact, callees);
    EmbeddedParse(sources, artifacts, manifests, callees);
  }

  /** Every available manifest that an included snapshot names is a JSON text. */
  ghost predicate ManifestsParse(artifacts: seq<Node>, manifests: map<string, string>, parses: string -> bool) {
    forall d :: d in AllSnapshots(artifacts) && d.sha256 in manifests ==> parses(manifests[d.sha256])
  }

  lemma EmbeddedParse(sources: seq<Source>, artifacts: seq<Node>, manifests: map<string, string>, callees: Callees)
    requires AreSources(sources, artifacts, callees.sha) && Embeds(sources, manifests)
    ensures Parseable(sources, callees.parses) <==> ManifestsParse(artifacts, manifests, callees.parses)
  {
    hide AllSnapshots, AreSources;
    if Parseable(sources, callees.parses) {
      forall d | d in AllSnapshots(artifacts) && d.sha256 in manifests ensures callees.parses(manifests[d.sha256]) {
        SnapshotSourced(sources, artifacts, callees.sha, d);
        var s := SourceFor(sources, KeyOf(d));
      }
    } else {
      var s :| s in sources && s.manifest.Some? && !callees.parses(s.manifest.value);
      SourceIsSnapshot(sources, artifacts, callees.sha, s);
    }
  }

  lemma SnapshotSourced(sources: seq<Source>, artifacts: seq<Node>, sha: string -> string, d: Descriptor)
    requires AreSources(sources, artifacts, sha) && d in AllSnapshots(artifacts)
    ensures Sourced(sources, KeyOf(d))
  {
    hide Sourced, AllSnapshots;
  }

  lemma SourceFor(sources: seq<Source>, key: SourceKey) returns (s: Source)
    requires Sourced(sources, key)
    ensures s in sources && KeyOf(s.descriptor) == key
  {
    s :| s in sources && KeyOf(s.descriptor) == key;
  }

  lemma SourceIsSnapshot(sources: seq<Source>, artifacts: seq<Node>, sha: string -> string, s: Source)
    requires AreSources(sources, artifacts, sha) && s in sources
    ensures s.descriptor in AllSnapshots(artifacts)
  {
    hide AllSnapshots;
  }

  /** A built proof always passes the lineage check, and fails only on a disagreement or an embedded manifest
      that is not JSON. */
  lemma BuiltVerifies(proof: Proof, book: Book, root: Node, intact: Node -> bool, callees: Callees)
    requires book.Valid() && root.id in book.byId && book.byId[root.id] == root && proof.root == root.id
    requires forall id :: id in book.byId ==> intact(book.byId[id])
    requires IsLineage(proof.artifacts, book, root.id) && AreSources(proof.sources, proof.artifacts, callees.sha)
    requires proof.bundle == BundleHash(proof.root, proof.artifacts, proof.sources)
    ensures Verifies(proof, intact, callees) <==> !Disagree(proof.artifacts) && Parseable(proof.sources, callees.parses)
  {
    hide Linked, AllSnapshots, AreSources, Conflict, Parseable;
    var artifacts := proof.artifacts;
    LinkedRoot(book.byId, root.id);
    assert root in artifacts;
    forall i, j | 0 <= i < j < |artifacts| ensures artifacts[i].id != artifacts[j].id {
      assert artifacts[i] in artifacts && artifacts[j] in artifacts;
    }
    forall other, a | IsIndex(other, artifacts) && a in artifacts
      ensures Linked(other.byId, root.id, a.id)
    {
      IndexMembers(other, artifacts);
      forall x | x in book.byId && Linked(book.byId, root.id, x)
        ensures x in other.byId && other.byId[x] == book.byId[x]
      {
        assert book.byId[x] in artifacts;
      }
      LinkedInside(book.byId, other.byId, root.id, a.id);
    }
  }
}
