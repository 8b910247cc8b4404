/** The whole calibration reader, load step included: which ledgers it accepts, and which
    steps turn an accepted ledger into a refused one. */
module LedgerReader {
  import opened Prelude
  import opened Ordering
  import opened Artifacts
  import opened Ledger
  import opened Chains
  import opened Calibration

  // ---------------------------------------------------------------------
  // Reading a ledger directory
  // ---------------------------------------------------------------------

  ghost predicate AllLoad(s: State) { forall id :: id in s.files ==> Loads(s, id) }

  /** The loadable artifact at a path supersedes the parent. */
  ghost predicate Succeeds(s: State, id: Id, parent: Id) {
    Loads(s, id) && BodyAt(s, id).supersedes == Some(parent)
  }

  /** Some parent has two different successors. */
  ghost predicate TwoSuccessors(s: State) {
    exists x, y, parent :: x != y && Succeeds(s, x, parent) && Succeeds(s, y, parent)
  }

  /** `_load_ledger`: the paths are the directory's own, sorted; one that does not load
      raises. */
  method LoadLedger(store: Store, paths: seq<Id>) returns (r: Option<seq<Artifact>>)
    requires Distinct(paths) && forall id :: id in paths <==> id in store.files
    ensures r.Some? <==> AllLoad(store.Now())
    ensures r.Some? ==> Lists(r.value, store.Now())
  {
    hide Intact;
    var artifacts: seq<Artifact> := [];
    for i := 0 to |paths|
      invariant |artifacts| == i
      invariant forall j :: 0 <= j < i ==> Loads(store.Now(), paths[j])
      invariant forall j :: 0 <= j < i ==> artifacts[j] == store.files[paths[j]].artifact
    {
      assert paths[i] in paths;
      var loaded := Load(store, paths[i]);
      if loaded.None? { return None; }
      artifacts := artifacts + [loaded.value];
    }
    LoadedList(artifacts, paths, store.Now());
    return Some(artifacts);
  }

  lemma LoadedList(artifacts: seq<Artifact>, paths: seq<Id>, s: State)
    requires Distinct(paths) && (forall id :: id in paths <==> id in s.files) && |artifacts| == |paths|
    requires forall j :: 0 <= j < |paths| ==> Loads(s, paths[j]) && artifacts[j] == s.files[paths[j]].artifact
    ensures AllLoad(s) && Lists(artifacts, s)
  {
    hide Intact;
    forall id | id in s.files ensures Loads(s, id) {
      assert id in paths;
    }
    forall a: Artifact | a.id in s.files && s.files[a.id].Json? && s.files[a.id].artifact == a ensures a in artifacts {
      assert a.id in paths;
      var j :| 0 <= j < |paths| && paths[j] == a.id;
      assert artifacts[j] == a;
    }
    forall a | a in artifacts ensures a.id in s.files && s.files[a.id].Json? && s.files[a.id].artifact == a {
      var j :| 0 <= j < |artifacts| && artifacts[j] == a;
      assert paths[j] in paths;
    }
    forall i, j | 0 <= i < j < |artifacts| ensures artifacts[i] != artifacts[j] {
      assert artifacts[i].id == paths[i] && artifacts[j].id == paths[j];
    }
  }

  /** On a fully loaded list, a parent resolved twice is a parent with two successors. */
  lemma ResolvedTwiceIff(artifacts: seq<Artifact>, s: State)
    requires Lists(artifacts, s)
    ensures ResolvedTwice(artifacts) <==> TwoSuccessors(s)
  {
    hide Intact;
    if ResolvedTwice(artifacts) {
      var a, b :| a in artifacts && b in artifacts && a != b
                  && a.body.supersedes.Some? && a.body.supersedes == b.body.supersedes;
      var parent := a.body.supersedes.value;
      assert Succeeds(s, a.id, parent) && Succeeds(s, b.id, parent);
    }
    if TwoSuccessors(s) {
      var x, y, parent :| x != y && Succeeds(s, x, parent) && Succeeds(s, y, parent);
      var a, b := s.files[x].artifact, s.files[y].artifact;
      assert a in artifacts && b in artifacts;
    }
  }

  /** What the reader needs of a ledger. */
  ghost predicate Readable(s: State) { AllLoad(s) && !TwoSuccessors(s) }

  /** Load, then pair: on every reachable ledger the reader succeeds if and only if every
      file loads and no parent has two different successors. */
  method ReadLedger(store: Store, paths: seq<Id>, spell: Id -> Key) returns (r: Option<seq<Pair>>)
    requires Chained(store.Now())
    requires Distinct(paths) && forall id :: id in paths <==> id in store.files
    ensures r.Some? <==> Readable(store.Now())
    ensures r.Some? ==> exists artifacts :: Lists(artifacts, store.Now()) && IsPairing(r.value, artifacts)
  {
    hide Chained, Lists, AllLoad, TwoSuccessors, IsPairing, Acceptable, ResolvedTwice;
    var loaded := LoadLedger(store, paths);
    if loaded.None? { return None; }
    OnlyDoubleResolutionIsRejected(loaded.value, store.Now());
    ResolvedTwiceIff(loaded.value, store.Now());
    var paired := ChainPairs(loaded.value, spell);
    return if paired.Ok? then Some(paired.value) else None;
  }

  // ---------------------------------------------------------------------
  // What one step does to the loadable artifacts
  // ---------------------------------------------------------------------

  /** The record a step puts on disk: none when it is refused or cut short before the
      replace. */
  ghost function Writes(s: State, action: Action): Option<Body> {
    match action
    case Seal(m, f, model, snapshots, asOf, played, crash) =>
      var b := SealBody(m, f, model, snapshots, asOf);
      if MaySeal(m, snapshots, asOf, played) && Validates(b) && crash != BeforeReplace then Some(b) else None
    case Score(id, result, hg, ag, crash) =>
      if MayScore(s, id, result, hg, ag) && crash != BeforeReplace
      then Some(ScoredBody(id, BodyAt(s, id), result, hg, ag))
      else None
    case Void(id, at, reason, crash) =>
      if MayVoid(s, id, reason) && crash != BeforeReplace then Some(VoidedBody(id, BodyAt(s, id), at, reason)) else None
    case Debris(_, _) => None
  }

  /** The write of one stamped record, put as an update of the loadable artifacts. */
  ghost predicate Moves(s: State, t: State, written: Option<Body>) {
    && (forall id :: Loads(t, id) <==> Loads(s, id) || (written.Some? && id == Stamp(written.value).id))
    && (forall id :: Loads(s, id) ==> Loads(t, id) && BodyAt(t, id) == BodyAt(s, id))
    && (written.Some? ==> var id := Stamp(written.value).id; Loads(t, id) && BodyAt(t, id) == Canonical(written.value))
  }

  lemma WriteMoves(s: State, b: Body, crash: Crash)
    requires Sound(s) && Validates(b) && Intact(ReadBack(Stamp(b)))
    ensures Moves(s, After(s, Stamp(b), crash), if crash == BeforeReplace then None else Some(b))
  {
    hide Intact, Validates, Sound, Canonical;
    var t := After(s, Stamp(b), crash);
    WriteAdds(s, Stamp(b), crash);
    NoRival(s, Stamp(b));
    WrittenIsValid(Stamp(b));
  }

  /** A resolution is written as it stands: it is canonical already. */
  lemma ResolutionWrites(s: State, action: Action)
    requires Chained(s) && (action.Score? || action.Void?) && Writes(s, action).Some?
    ensures var b := Writes(s, action).value;
      && Validates(b) && Intact(ReadBack(Stamp(b))) && Canonical(b) == b && b.supersedes == Some(action.parent)
      && Do(s, action) == After(s, Stamp(b), action.crash)
  {
    hide Intact, Validates, Sound, Canonical, Strip, Stamp, After;
    LoadedParent(s, action.parent);
    SuccessorRoundTrips(s.files[action.parent].artifact, Writes(s, action).value);
  }

  lemma SealWrites(s: State, action: Action)
    requires action.Seal? && Legal(action) && Writes(s, action).Some?
    ensures var b := Writes(s, action).value;
      && Validates(b) && Intact(ReadBack(Stamp(b))) && Canonical(b).supersedes.None?
      && Do(s, action) == After(s, Stamp(b), action.crash)
  {
    hide Intact, Validates, Stamp, After, FromModel, CanonicalProbs;
    SealRoundTrips(action.match_, action.forecast, action.model, action.snapshots, action.asOf);
  }

  /** A step that writes nothing leaves the loadable artifacts alone. */
  lemma NothingWritten(s: State, action: Action)
    requires Chained(s) && Writes(s, action).None?
    ensures action.Debris? || Do(s, action) == s
    ensures Moves(s, Do(s, action), None)
  {
    hide Intact, Validates, Sound, Canonical, Strip;
  }

  lemma DoMoves(s: State, action: Action)
    requires Chained(s) && Legal(action)
    ensures Moves(s, Do(s, action), Writes(s, action))
    ensures Writes(s, action).Some? ==> action.crash != BeforeReplace
  {
    hide Intact, Validates, Stamp, After, Canonical, Moves, Do, Strip, FromModel, Placed, MayScore, MayVoid;
    if Writes(s, action).None? {
      NothingWritten(s, action);
    } else {
      if action.Seal? { SealWrites(s, action); } else { ResolutionWrites(s, action); }
      WriteMoves(s, Writes(s, action).value, action.crash);
    }
  }

  // ---------------------------------------------------------------------
  // Which steps the reader cannot live with
  // ---------------------------------------------------------------------

  /** A score or void of an already resolved parent that writes a record other than a stored
      resolution of it. */
  ghost predicate Branches(s: State, action: Action) {
    && (action.Score? || action.Void?) && Writes(s, action).Some?
    && exists y :: Succeeds(s, y, action.parent) && BodyAt(s, y) != Writes(s, action).value
  }

  lemma LoadedId(s: State, id: Id)
    requires Loads(s, id)
    ensures id == IdOf(BodyAt(s, id))
  {
    hide Validates, Canonical;
  }

  /** A second successor appears exactly with such a step. */
  lemma SecondSuccessorIff(s: State, action: Action)
    requires Chained(s) && Legal(action)
    ensures TwoSuccessors(Do(s, action)) <==> TwoSuccessors(s) || Branches(s, action)
  {
    hide Chained, Legal, Do, Loads, BodyAt, Writes, Moves;
    DoMoves(s, action);
    if TwoSuccessors(s) { SuccessorsStay(s, action); }
    if Branches(s, action) { BranchSplits(s, action); }
    if TwoSuccessors(Do(s, action)) && !TwoSuccessors(s) { SplitBranches(s, action); }
  }

  lemma SuccessorsStay(s: State, action: Action)
    requires TwoSuccessors(s) && Moves(s, Do(s, action), Writes(s, action))
    ensures TwoSuccessors(Do(s, action))
  {
    hide Loads, BodyAt, Do, Writes, Stamp, Canonical;
    var x, y, parent :| x != y && Succeeds(s, x, parent) && Succeeds(s, y, parent);
    assert Succeeds(Do(s, action), x, parent) && Succeeds(Do(s, action), y, parent);
  }

  lemma BranchSplits(s: State, action: Action)
    requires Chained(s) && Moves(s, Do(s, action), Writes(s, action)) && Branches(s, action)
    ensures TwoSuccessors(Do(s, action))
  {
    hide Chained, Loads, BodyAt, Do, Writes, Stamp, Canonical, Intact, Validates;
    var b, t := Writes(s, action).value, Do(s, action);
    ResolutionWrites(s, action);
    var y :| Succeeds(s, y, action.parent) && BodyAt(s, y) != b;
    assert Succeeds(t, y, action.parent) && Succeeds(t, Stamp(b).id, action.parent);
  }

  lemma SplitBranches(s: State, action: Action)
    requires Chained(s) && Legal(action) && Moves(s, Do(s, action), Writes(s, action))
    requires TwoSuccessors(Do(s, action)) && !TwoSuccessors(s)
    ensures Branches(s, action)
  {
    hide Chained, Legal, Loads, BodyAt, Do, Writes, Canonical, Intact, Validates;
    var t := Do(s, action);
    var x, y, parent :| x != y && Succeeds(t, x, parent) && Succeeds(t, y, parent);
    if Loads(s, x) && Loads(s, y) {
      BothOld(s, action, x, y, parent);
    } else {
      var b := Writes(s, action).value;
      var other := if Loads(s, x) then x else y;
      assert BodyAt(t, Stamp(b).id).supersedes == Some(parent);
      WriterIsResolution(s, action);
      ResolutionWrites(s, action);
      assert Succeeds(s, other, parent);
      LoadedId(s, other);
    }
  }

  lemma BothOld(s: State, action: Action, x: Id, y: Id, parent: Id)
    requires Moves(s, Do(s, action), Writes(s, action)) && Loads(s, x) && Loads(s, y) && x != y
    requires Succeeds(Do(s, action), x, parent) && Succeeds(Do(s, action), y, parent)
    ensures TwoSuccessors(s)
  {
    hide Loads, BodyAt, Do, Writes, Stamp, Canonical;
    assert Succeeds(s, x, parent) && Succeeds(s, y, parent);
  }

  /** Only scoring and voiding write a record with a parent. */
  lemma WriterIsResolution(s: State, action: Action)
    requires Legal(action) && Writes(s, action).Some? && Canonical(Writes(s, action).value).supersedes.Some?
    ensures action.Score? || action.Void?
  {
    hide Legal, Canonical, Validates, Intact;
    if action.Seal? { SealIsRoot(s, action); }
  }

  lemma SealIsRoot(s: State, action: Action)
    requires action.Seal? && Legal(action) && Writes(s, action).Some?
    ensures Canonical(Writes(s, action).value).supersedes.None?
  {
    SealWrites(s, action);
  }

  /** A file of the new ledger is an old one, the written record, or a leftover. */
  lemma FilesAfter(s: State, action: Action)
    requires Chained(s) && Legal(action)
    ensures forall id :: id in Do(s, action).files <==>
      || id in s.files || (Writes(s, action).Some? && id == Stamp(Writes(s, action).value).id)
      || (action.Debris? && id == action.id)
  {
    hide Intact, Validates, Stamp, Canonical, Strip, Sound, Placed, FromModel, After, Writes;
    if action.Debris? { DebrisWrites(s, action); }
    if Writes(s, action).None? {
      NothingWritten(s, action);
    } else {
      DoMoves(s, action);
      if action.Seal? { SealWrites(s, action); } else { ResolutionWrites(s, action); }
      FileWritten(s, Writes(s, action).value, action.crash);
    }
  }

  lemma FileWritten(s: State, b: Body, crash: Crash)
    requires Sound(s) && Validates(b) && Intact(ReadBack(Stamp(b))) && crash != BeforeReplace
    ensures forall id :: id in After(s, Stamp(b), crash).files <==> id in s.files || id == Stamp(b).id
  {
    hide Intact, Validates, Sound, Canonical;
    NoRival(s, Stamp(b));
  }

  /** Every file loads after a step exactly when every file that did not load before is the
      one just written, and a leftover only meets a path that holds a valid artifact. */
  lemma AllLoadIff(s: State, action: Action)
    requires Chained(s) && Legal(action)
    ensures AllLoad(Do(s, action)) <==>
      && (forall id :: id in s.files && !Loads(s, id) ==>
            Writes(s, action).Some? && id == Stamp(Writes(s, action).value).id)
      && (action.Debris? ==> Loads(s, action.id))
  {
    hide Chained, Legal, Loads, BodyAt, Do, Writes, Stamp, Canonical;
    DoMoves(s, action);
    FilesAfter(s, action);
    if action.Debris? { assert Writes(s, action).None? by { DebrisWrites(s, action); } }
  }

  lemma DebrisWrites(s: State, action: Action)
    requires action.Debris?
    ensures Writes(s, action).None?
  {
  }

  /** From a ledger the reader accepts, exactly two kinds of step lead to one it refuses: a
      leftover at a path that holds no valid artifact, and a score or void of an already
      resolved parent that writes a different record. */
  lemma ReadableStepIff(s: State, action: Action)
    requires Chained(s) && Legal(action) && Readable(s)
    ensures Readable(Do(s, action)) <==> !Branches(s, action) && (action.Debris? ==> Loads(s, action.id))
  {
    hide Chained, Legal, Do, Branches, TwoSuccessors, Loads, Writes, Stamp;
    SecondSuccessorIff(s, action);
    AllLoadIff(s, action);
  }

  /** Any two different resolutions of one seal, of either kind, are refused: two scores from
      different snapshots, two voids, or one of each. */
  lemma TwoResolutionsAreRefused(s: State, first: Action, second: Action)
    requires Chained(s) && Legal(first) && Legal(second)
    requires (first.Score? || first.Void?) && (second.Score? || second.Void?) && first.parent == second.parent
    requires Writes(s, first).Some? && Writes(s, second).Some? && Writes(s, first) != Writes(s, second)
    ensures TwoSuccessors(Do(Do(s, first), second)) && !Readable(Do(Do(s, first), second))
  {
    hide Legal, Canonical, Intact, Validates, Do, Placed, Stamp, Strip;
    var t := Do(s, first);
    DoMoves(s, first);
    ResolutionWrites(s, first);
    assert Chained(t) by { DoChained(s, first); }
    SameWrite(s, t, first, second);
    var y := Stamp(Writes(s, first).value).id;
    assert Succeeds(t, y, second.parent);
    assert Branches(t, second);
    SecondSuccessorIff(t, second);
  }

  /** The second resolution reads the same seal and so writes the same record as before. */
  lemma SameWrite(s: State, t: State, first: Action, second: Action)
    requires t == Do(s, first) && Moves(s, t, Writes(s, first))
    requires (second.Score? || second.Void?) && Writes(s, second).Some?
    ensures Writes(t, second) == Writes(s, second)
  {
    hide Validates, Stamp, Canonical, Do, Strip, MaxAnchor, Loads, BodyAt, ScoredBody, VoidedBody;
  }
}
