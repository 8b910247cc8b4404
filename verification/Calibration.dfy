/** The calibration reader: pairing every seal with the artifact that resolves it. */
module Calibration {
  import opened Prelude
  import opened Ordering
  import opened Artifacts
  import opened Ledger
  import opened Chains

  datatype Refusal = Unresolving | MissingParent | NotAResolution | TwoSuccessors

  type Pair = (Artifact, Option<Artifact>)

  ghost predicate DistinctIds(artifacts: seq<Artifact>) {
    forall i, j :: 0 <= i < j < |artifacts| ==> artifacts[i].id != artifacts[j].id
  }

  ghost predicate HasId(artifacts: seq<Artifact>, id: Id) {
    exists a :: a in artifacts && a.id == id
  }

  /** The row-by-row conditions of the pairing loop. */
  ghost predicate Acceptable(artifacts: seq<Artifact>, a: Artifact) {
    match a.body.supersedes
    case None => a.body.status == Sealed || a.body.status == Abstained
    case Some(parent) => HasId(artifacts, parent) && (a.body.status == Scored || a.body.status == Voided)
  }

  /** Some seal was resolved twice. */
  ghost predicate ResolvedTwice(artifacts: seq<Artifact>) {
    exists a, b :: a in artifacts && b in artifacts && a != b
                   && a.body.supersedes.Some? && a.body.supersedes == b.body.supersedes
  }

  ghost predicate Successor(artifacts: seq<Artifact>, root: Artifact, s: Option<Artifact>) {
    match s
    case None => forall b :: b in artifacts ==> b.body.supersedes != Some(root.id)
    case Some(b) => b in artifacts && b.body.supersedes == Some(root.id)
  }

  /** Each root once, with the artifact that supersedes it, if any. */
  ghost predicate IsPairing(pairs: seq<Pair>, artifacts: seq<Artifact>) {
    && (forall i, j :: 0 <= i < j < |pairs| ==> pairs[i].0 != pairs[j].0)
    && (forall p :: p in pairs ==> p.0 in artifacts && p.0.body.supersedes.None? && Successor(artifacts, p.0, p.1))
    && (forall a :: a in artifacts && a.body.supersedes.None? ==> exists p :: p in pairs && p.0 == a)
  }

  /** `a["artifact_id"] for a in artifacts` */
  method IdsOf(artifacts: seq<Artifact>) returns (ids: set<Id>)
    ensures forall id :: id in ids <==> HasId(artifacts, id)
  {
    ids := {};
    for i := 0 to |artifacts|
      invariant forall id :: id in ids <==> HasId(artifacts[..i], id)
    {
      assert artifacts[..i + 1] == artifacts[..i] + [artifacts[i]];
      forall id ensures id in ids + {artifacts[i].id} <==> HasId(artifacts[..i + 1], id) {
        if HasId(artifacts[..i], id) {
          var a :| a in artifacts[..i] && a.id == id;
          assert a in artifacts[..i + 1];
        }
        if id == artifacts[i].id { assert artifacts[i] in artifacts[..i + 1]; }
      }
      ids := ids + {artifacts[i].id};
    }
    assert artifacts[..|artifacts|] == artifacts;
  }

  /** The successor dict records exactly who supersedes whom so far. */
  ghost predicate Records(successors: map<Id, Artifact>, seen: seq<Artifact>) {
    && (forall id :: id in successors ==> successors[id] in seen && successors[id].body.supersedes == Some(id))
    && (forall b :: b in seen && b.body.supersedes.Some? ==>
          b.body.supersedes.value in successors && successors[b.body.supersedes.value] == b)
  }

  lemma RecordSnoc(successors: map<Id, Artifact>, seen: seq<Artifact>, a: Artifact)
    requires Records(successors, seen)
    ensures a.body.supersedes.None? ==> Records(successors, seen + [a])
    ensures a.body.supersedes.Some? && a.body.supersedes.value !in successors ==>
      Records(successors[a.body.supersedes.value := a], seen + [a])
  {
    assert forall b :: b in seen + [a] <==> b in seen || b == a;
  }

  /** Kickoff, then the id's spelling. */
  function RootKey(spell: Id -> Key): Artifact -> Key { (a: Artifact) => [a.body.match_.kickoff] + spell(a.id) }

  function PairKey(spell: Id -> Key): Pair -> Key { (p: Pair) => RootKey(spell)(p.0) }

  /** Pairs run by kickoff, and at one kickoff by the spelling of the seal's id. */
  lemma PairsByKickoff(pairs: seq<Pair>, spell: Id -> Key, i: nat, j: nat)
    requires SortedBy(pairs, PairKey(spell)) && i < j < |pairs|
    ensures var a, b := pairs[i].0, pairs[j].0;
      || a.body.match_.kickoff < b.body.match_.kickoff
      || (a.body.match_.kickoff == b.body.match_.kickoff && KeyLe(spell(a.id), spell(b.id)))
  {
    var a, b := pairs[i].0, pairs[j].0;
    var x, y := [a.body.match_.kickoff] + spell(a.id), [b.body.match_.kickoff] + spell(b.id);
    assert RootKey(spell)(a) == x && RootKey(spell)(b) == y;
    assert x == PairKey(spell)(pairs[i]) && y == PairKey(spell)(pairs[j]);
    KeyLeHead(x, y);
    assert x[1..] == spell(a.id) && y[1..] == spell(b.id);
  }

  /** `_chain_pairs`; `spell` gives an id's spelling, the last sort key. */
  method ChainPairs(artifacts: seq<Artifact>, spell: Id -> Key) returns (r: Result<seq<Pair>, Refusal>)
    requires DistinctIds(artifacts)
    ensures r.Ok? <==> (forall a :: a in artifacts ==> Acceptable(artifacts, a)) && !ResolvedTwice(artifacts)
    ensures r.Ok? ==> IsPairing(r.value, artifacts) && SortedBy(r.value, PairKey(spell))
  {
    hide HasId;
    var ids := IdsOf(artifacts);
    var successors: map<Id, Artifact> := map[];
    for i := 0 to |artifacts|
      invariant Records(successors, artifacts[..i])
      invariant forall j :: 0 <= j < i ==> Acceptable(artifacts, artifacts[j])
    {
      var a := artifacts[i];
      assert a in artifacts;
      assert artifacts[..i + 1] == artifacts[..i] + [a];
      RecordSnoc(successors, artifacts[..i], a);
      match a.body.supersedes {
        case None =>
          if a.body.status != Sealed && a.body.status != Abstained { return Err(Unresolving); }
        case Some(parent) =>
          if parent !in ids { return Err(MissingParent); }
          if a.body.status != Scored && a.body.status != Voided { return Err(NotAResolution); }
          if parent in successors {
            Twice(artifacts, i, successors[parent]);
            return Err(TwoSuccessors);
          }
          successors := successors[parent := a];
      }
    }
    assert artifacts[..|artifacts|] == artifacts;
    NotTwice(artifacts, successors);
    var roots := Roots(artifacts);
    var sorted := Sort(roots, RootKey(spell));
    DistinctMultiset(roots, sorted);
    r := Ok(seq(|sorted|, i requires 0 <= i < |sorted| =>
      (sorted[i], if sorted[i].id in successors then Some(successors[sorted[i].id]) else None)));
    PairsAll(artifacts, successors, sorted, r.value);
  }

  lemma Twice(artifacts: seq<Artifact>, i: nat, earlier: Artifact)
    requires DistinctIds(artifacts) && i < |artifacts| && artifacts[i].body.supersedes.Some?
    requires earlier in artifacts[..i] && earlier.body.supersedes == artifacts[i].body.supersedes
    ensures ResolvedTwice(artifacts)
  {
    var j :| 0 <= j < i && artifacts[j] == earlier;
    assert artifacts[j] in artifacts && artifacts[i] in artifacts;
  }

  lemma NotTwice(artifacts: seq<Artifact>, successors: map<Id, Artifact>)
    requires Records(successors, artifacts)
    ensures !ResolvedTwice(artifacts)
  {
  }

  /** `[a for a in artifacts if a.get("supersedes") is None]` */
  function Roots(artifacts: seq<Artifact>): (roots: seq<Artifact>)
    requires DistinctIds(artifacts)
    ensures forall a :: a in roots <==> a in artifacts && a.body.supersedes.None?
    ensures Distinct(roots)
  {
    if artifacts == [] then []
    else
      var init, last := artifacts[..|artifacts| - 1], artifacts[|artifacts| - 1];
      assert artifacts == init + [last];
      assert last !in init;
      Roots(init) + if last.body.supersedes.None? then [last] else []
  }

  lemma PairsAll(artifacts: seq<Artifact>, successors: map<Id, Artifact>, sorted: seq<Artifact>, pairs: seq<Pair>)
    requires Records(successors, artifacts) && Distinct(sorted)
    requires forall a :: a in sorted <==> a in artifacts && a.body.supersedes.None?
    requires |pairs| == |sorted| && forall i :: 0 <= i < |pairs| ==>
      pairs[i] == (sorted[i], if sorted[i].id in successors then Some(successors[sorted[i].id]) else None)
    ensures IsPairing(pairs, artifacts)
  {
    forall p | p in pairs
      ensures p.0 in artifacts && p.0.body.supersedes.None? && Successor(artifacts, p.0, p.1)
    {
      var i :| 0 <= i < |pairs| && pairs[i] == p;
      assert sorted[i] in sorted;
    }
    forall a | a in artifacts && a.body.supersedes.None?
      ensures exists p :: p in pairs && p.0 == a
    {
      var i :| 0 <= i < |sorted| && sorted[i] == a;
      assert pairs[i] in pairs;
    }
  }

  // ---------------------------------------------------------------------
  // On reachable ledgers
  // ---------------------------------------------------------------------

  /** Every file of the ledger loads, and the list holds each of them once. */
  ghost predicate Lists(artifacts: seq<Artifact>, s: State) {
    && Distinct(artifacts)
    && (forall id :: id in s.files ==> Loads(s, id))
    && (forall a :: a in artifacts <==> a.id in s.files && s.files[a.id].Json? && s.files[a.id].artifact == a)
  }

  lemma ListedIds(artifacts: seq<Artifact>, s: State)
    requires Lists(artifacts, s)
    ensures DistinctIds(artifacts)
    ensures forall id :: HasId(artifacts, id) <==> Loads(s, id)
  {
    hide Intact;
    forall i, j | 0 <= i < j < |artifacts| ensures artifacts[i].id != artifacts[j].id {
      assert artifacts[i] in artifacts && artifacts[j] in artifacts;
    }
    forall id ensures HasId(artifacts, id) <==> Loads(s, id) {
      if Loads(s, id) {
        assert s.files[id].artifact in artifacts;
      }
      if HasId(artifacts, id) {
        var a :| a in artifacts && a.id == id;
      }
    }
  }

  /** In the list of a reachable, fully loaded ledger every record is acceptable, so pairing
      fails exactly when some seal was resolved twice. */
  lemma OnlyDoubleResolutionIsRejected(artifacts: seq<Artifact>, s: State)
    requires Chained(s) && Lists(artifacts, s)
    ensures DistinctIds(artifacts)
    ensures forall a :: a in artifacts ==> Acceptable(artifacts, a)
  {
    hide Intact, HasId, Sound;
    ListedIds(artifacts, s);
    forall a | a in artifacts ensures Acceptable(artifacts, a) {
      assert Placed(s, a.id) && BodyAt(s, a.id) == a.body;
    }
  }

  predicate Holds(p: Pair, a: Artifact) { p.0 == a || p.1 == Some(a) }

  /** Nothing in the ledger stops a seal that has been scored from being voided as well:
      both operations read only the seal.  The reader refuses every such ledger. */
  lemma ScoreThenVoidIsRejected(s: State, id: Id, result: Snapshot, homeGoals: int, awayGoals: int, at: int,
                                reason: string, artifacts: seq<Artifact>)
    requires Chained(s) && MayScore(s, id, result, homeGoals, awayGoals) && Strip(reason) != ""
    requires Lists(artifacts, Do(Do(s, Score(id, result, homeGoals, awayGoals, Never)), Void(id, at, reason, Never)))
    ensures ResolvedTwice(artifacts)
  {
    hide Intact, Validates, Resolves, Strip, Stamp, After, Canonical, Sound;
    var scored := ScoredBody(id, BodyAt(s, id), result, homeGoals, awayGoals);
    var t := Do(s, Score(id, result, homeGoals, awayGoals, Never));
    LoadedParent(s, id);
    SuccessorLands(s, id, scored);
    var voided := VoidedBody(id, BodyAt(t, id), at, reason);
    var u := Do(t, Void(id, at, reason, Never));
    SuccessorLands(t, id, voided);
    var a, b := u.files[Stamp(scored).id].artifact, u.files[Stamp(voided).id].artifact;
    LoadedParent(u, Stamp(scored).id);
    LoadedParent(u, Stamp(voided).id);
    assert a in artifacts && b in artifacts;
  }

  /** A successor written without interruption is loadable, and nothing else moves. */
  lemma SuccessorLands(s: State, parent: Id, b: Body)
    requires Sound(s) && Loads(s, parent) && b.forecast == BodyAt(s, parent).forecast
    requires |b.snapshots| >= 1 && b.voidReason != Some("")
    ensures var t := After(s, Stamp(b), Never);
      && Sound(t) && Loads(t, Stamp(b).id) && BodyAt(t, Stamp(b).id) == b
      && forall id :: Loads(s, id) ==> Loads(t, id) && BodyAt(t, id) == BodyAt(s, id)
  {
    hide Intact, Validates, After, Sound, Canonical;
    LoadedParent(s, parent);
    SuccessorRoundTrips(s.files[parent].artifact, b);
    WriteAdds(s, Stamp(b), Never);
    WriteTakesEffect(s, Stamp(b));
  }

  /** On a reachable ledger without a double resolution, every artifact is in exactly one
      pair: none is dropped, none appears twice. */
  lemma EveryArtifactInOnePair(artifacts: seq<Artifact>, s: State, pairs: seq<Pair>, a: Artifact)
    requires Chained(s) && Lists(artifacts, s) && !ResolvedTwice(artifacts)
    requires IsPairing(pairs, artifacts) && a in artifacts
    ensures exists i :: 0 <= i < |pairs| && Holds(pairs[i], a)
    ensures forall i, j :: 0 <= i < |pairs| && 0 <= j < |pairs| && Holds(pairs[i], a) && Holds(pairs[j], a) ==> i == j
  {
    hide Intact, Sound, Resolves;
    ListedIds(artifacts, s);
    var root := a;
    if a.body.supersedes.Some? {
      assert Placed(s, a.id) && BodyAt(s, a.id) == a.body;
      var parent := a.body.supersedes.value;
      ParentIsRoot(s, a.id);
      root := s.files[parent].artifact;
      assert root.id == parent && root in artifacts;
    }
    var p :| p in pairs && p.0 == root;
    var k :| 0 <= k < |pairs| && pairs[k] == p;
    if a.body.supersedes.Some? {
      assert Successor(artifacts, root, p.1);
      assert p.1.Some?;
      assert p.1 == Some(a);
    }
    assert Holds(pairs[k], a);
    forall i | 0 <= i < |pairs| && Holds(pairs[i], a) ensures i == k {
      assert pairs[i] in pairs;
      SameRoot(artifacts, pairs, i, k, a, root);
    }
  }

  lemma ParentIsRoot(s: State, id: Id)
    requires Chained(s) && Loads(s, id) && BodyAt(s, id).supersedes.Some?
    ensures var parent := BodyAt(s, id).supersedes.value;
      Loads(s, parent) && IsRoot(BodyAt(s, parent)) && s.files[parent].artifact.id == parent
  {
    hide Intact, Sound;
    assert Placed(s, id);
  }

  lemma SameRoot(artifacts: seq<Artifact>, pairs: seq<Pair>, i: nat, k: nat, a: Artifact, root: Artifact)
    requires IsPairing(pairs, artifacts) && DistinctIds(artifacts) && i < |pairs| && k < |pairs|
    requires Holds(pairs[i], a)
    requires pairs[k].0 == root && root in artifacts
    requires if a.body.supersedes.None? then root == a else a.body.supersedes == Some(root.id)
    ensures i == k
  {
    assert pairs[i] in pairs && pairs[k] in pairs;
    assert Successor(artifacts, pairs[i].0, pairs[i].1);
    var x :| 0 <= x < |artifacts| && artifacts[x] == pairs[i].0;
    var y :| 0 <= y < |artifacts| && artifacts[y] == root;
    assert pairs[i].0.id == root.id;
    assert x == y;
  }

  // ---------------------------------------------------------------------
  // Counts
  // ---------------------------------------------------------------------

  datatype Counts = Counts(sealed: nat, abstained: nat, scored: nat, voided: nat, pending: nat)

  /** How many pairs resolve in the given way. */
  ghost function Resolutions(pairs: seq<Pair>, status: Option<Status>): nat {
    if pairs == [] then 0
    else Resolutions(pairs[..|pairs| - 1], status) +
         if (if pairs[|pairs| - 1].1.Some? then Some(pairs[|pairs| - 1].1.value.body.status) else None)
           == status then 1 else 0
  }

  ghost function RootsWith(pairs: seq<Pair>, status: Status): nat {
    if pairs == [] then 0
    else RootsWith(pairs[..|pairs| - 1], status) + if pairs[|pairs| - 1].0.body.status == status then 1 else 0
  }

  /** The counting loop of `calibration_summary`; its own validation that roots and
      resolutions reconcile can never fail. */
  method CountPairs(pairs: seq<Pair>, ghost artifacts: seq<Artifact>) returns (c: Counts)
    requires IsPairing(pairs, artifacts) && forall a :: a in artifacts ==> Acceptable(artifacts, a)
    ensures c.sealed == RootsWith(pairs, Sealed) && c.abstained == RootsWith(pairs, Abstained)
    ensures c.scored == Resolutions(pairs, Some(Scored)) && c.voided == Resolutions(pairs, Some(Voided))
    ensures c.pending == Resolutions(pairs, None)
    ensures c.sealed + c.abstained == |pairs| == c.scored + c.voided + c.pending
  {
    c := Counts(0, 0, 0, 0, 0);
    for i := 0 to |pairs|
      invariant c.sealed == RootsWith(pairs[..i], Sealed) && c.abstained == RootsWith(pairs[..i], Abstained)
      invariant c.scored == Resolutions(pairs[..i], Some(Scored)) && c.voided == Resolutions(pairs[..i], Some(Voided))
      invariant c.pending == Resolutions(pairs[..i], None)
      invariant c.sealed + c.abstained == i == c.scored + c.voided + c.pending
    {
      var p := pairs[i];
      assert p in pairs && pairs[..i + 1][..i] == pairs[..i];
      PairStatuses(pairs, artifacts, i);
      c := if p.0.body.status == Sealed then c.(sealed := c.sealed + 1) else c.(abstained := c.abstained + 1);
      match p.1 {
        case None => c := c.(pending := c.pending + 1);
        case Some(b) =>
          c := if b.body.status == Scored then c.(scored := c.scored + 1) else c.(voided := c.voided + 1);
      }
    }
    assert pairs[..|pairs|] == pairs;
  }

  lemma PairStatuses(pairs: seq<Pair>, artifacts: seq<Artifact>, i: nat)
    requires IsPairing(pairs, artifacts) && forall a :: a in artifacts ==> Acceptable(artifacts, a)
    requires i < |pairs|
    ensures pairs[i].0.body.status == Sealed || pairs[i].0.body.status == Abstained
    ensures pairs[i].1.Some? ==> pairs[i].1.value.body.status == Scored || pairs[i].1.value.body.status == Voided
  {
    hide HasId;
    assert pairs[i] in pairs;
    assert Acceptable(artifacts, pairs[i].0);
    if pairs[i].1.Some? { assert Acceptable(artifacts, pairs[i].1.value); }
  }
}
