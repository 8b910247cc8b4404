/** Forecast chains: what seal, score and void steps can ever put in a ledger. */
module Chains {
  import opened Prelude
  import opened Ordering
  import opened Artifacts
  import opened Ledger

  /** A ledger operation.  Scoring and voiding name the artifact file they read; every
      write may be cut short. */
  datatype Action =
    | Seal(match_: Match, forecast: Forecast, model: string, snapshots: seq<Snapshot>, asOf: int, played: bool,
           crash: Crash)
    | Score(parent: Id, result: Snapshot, homeGoals: int, awayGoals: int, crash: Crash)
    | Void(parent: Id, at: int, reason: string, crash: Crash)
    | Debris(id: Id, bytes: nat)

  /** The sealer abstains exactly when it has no probabilities, stamps the forecast with its
      own time, and takes a score matrix from the model that gave the probabilities. */
  ghost predicate Legal(action: Action) {
    action.Seal? ==>
      && FromModel(action.forecast) && (action.forecast.abstained <==> action.forecast.probs.None?)
      && action.forecast.sealedAt == action.asOf
  }

  /** The gates of a seal: every data state existed, the match is unplayed and ahead. */
  predicate MaySeal(m: Match, snapshots: seq<Snapshot>, asOf: int, played: bool) {
    snapshots != [] && MaxAnchor(snapshots) <= asOf && !played && asOf < m.kickoff
  }

  /** `load_verified_artifact` on a ledger path. */
  ghost predicate Loads(s: State, id: Id) { id in s.files && IsValidFor(s.files[id], id) }

  ghost function BodyAt(s: State, id: Id): Body
    requires Loads(s, id)
  {
    s.files[id].artifact.body
  }

  ghost predicate MayScore(s: State, id: Id, result: Snapshot, homeGoals: int, awayGoals: int) {
    Loads(s, id) && Scorable(BodyAt(s, id), result) && homeGoals >= 0 && awayGoals >= 0
  }

  ghost predicate MayVoid(s: State, id: Id, reason: string) {
    Loads(s, id) && (BodyAt(s, id).status == Sealed || BodyAt(s, id).status == Abstained) && Strip(reason) != ""
  }

  ghost function Do(s: State, action: Action): State {
    match action
    case Seal(m, f, model, snapshots, asOf, played, crash) =>
      if MaySeal(m, snapshots, asOf, played) then After(s, Stamp(SealBody(m, f, model, snapshots, asOf)), crash) else s
    case Score(id, result, hg, ag, crash) =>
      if MayScore(s, id, result, hg, ag)
      then After(s, Stamp(ScoredBody(id, BodyAt(s, id), result, hg, ag)), crash)
      else s
    case Void(id, at, reason, crash) =>
      if MayVoid(s, id, reason) then After(s, Stamp(VoidedBody(id, BodyAt(s, id), at, reason)), crash) else s
    case Debris(id, bytes) => Apply(s, Leftover(id, bytes))
  }

  ghost function DoAll(s: State, actions: seq<Action>): State
    decreases |actions|
  {
    if actions == [] then s else DoAll(Do(s, actions[0]), actions[1..])
  }

  /** Made from data that existed by then, and before its match. */
  ghost predicate IsForward(b: Body) {
    b.snapshots != [] && MaxAnchor(b.snapshots) <= b.forecast.sealedAt < b.match_.kickoff
  }

  /** The head of a chain: a forward seal or abstention. */
  ghost predicate IsRoot(b: Body) {
    && b.supersedes.None? && (b.status == Sealed || b.status == Abstained) && IsForward(b)
    && (b.status == Abstained <==> b.forecast.probs.None?)
  }

  /** A successor keeps its seal's match and forecast; scoring adds one strictly newer
      snapshot, voiding adds none. */
  ghost predicate Resolves(b: Body, parent: Body) {
    && IsRoot(parent) && b.match_ == parent.match_ && b.forecast == parent.forecast
    && ((b.status == Scored && parent.status == Sealed && parent.snapshots != []
         && exists x :: b.snapshots == parent.snapshots + [x] && x.anchor > MaxAnchor(parent.snapshots))
        || (b.status == Voided && b.snapshots == parent.snapshots))
  }

  ghost predicate Placed(s: State, id: Id)
    requires Loads(s, id)
  {
    var b := BodyAt(s, id);
    match b.supersedes
    case None => IsRoot(b)
    case Some(parent) => Loads(s, parent) && Resolves(b, BodyAt(s, parent))
  }

  /** Every chain is a root and at most one level of successors. */
  ghost predicate Chained(s: State) {
    Sound(s) && forall id :: Loads(s, id) ==> Placed(s, id)
  }

  /** A write leaves every loadable artifact alone and adds at most its own. */
  lemma WriteAdds(s: State, a: Artifact, crash: Crash)
    requires Sound(s) && a == Stamp(a.body) && Intact(ReadBack(a))
    ensures var t := After(s, a, crash);
      && Sound(t)
      && (forall id :: Loads(s, id) ==> Loads(t, id) && BodyAt(t, id) == BodyAt(s, id))
      && (forall id :: Loads(t, id) && !Loads(s, id) ==> id == a.id && BodyAt(t, id) == Canonical(a.body))
  {
    hide Intact, Validates, Stamp, Sound, Canonical;
    StepSound(s, Put(a, crash));
    StepExtends(s, Put(a, crash));
    WrittenIsValid(a);
  }

  lemma WriteChained(s: State, a: Artifact, crash: Crash)
    requires Chained(s) && a == Stamp(a.body) && Intact(ReadBack(a))
    requires match Canonical(a.body).supersedes
      case None => IsRoot(Canonical(a.body))
      case Some(parent) => Loads(s, parent) && Resolves(Canonical(a.body), BodyAt(s, parent))
    ensures Chained(After(s, a, crash))
  {
    hide Intact, Validates, Stamp, Sound, Canonical, Resolves, IsRoot, After, Loads, BodyAt;
    WriteAdds(s, a, crash);
    var t := After(s, a, crash);
    forall id | Loads(t, id) ensures Placed(t, id) {
      if Loads(s, id) { assert Placed(s, id); }
    }
  }

  lemma DoChained(s: State, action: Action)
    requires Chained(s) && Legal(action)
    ensures Chained(Do(s, action))
  {
    hide Validates, Sound, After, IsValidFor;
    match action
    case Seal(m, f, model, snapshots, asOf, played, crash) =>
      if MaySeal(m, snapshots, asOf, played) { SealChained(s, m, f, model, snapshots, asOf, crash); }
    case Score(id, result, hg, ag, crash) =>
      if MayScore(s, id, result, hg, ag) { ScoreChained(s, id, result, hg, ag, crash); }
    case Void(id, at, reason, crash) =>
      if MayVoid(s, id, reason) { VoidChained(s, id, at, reason, crash); }
    case Debris(id, bytes) =>
      DebrisChained(s, id, bytes);
  }

  lemma SealChained(s: State, m: Match, f: Forecast, model: string, snapshots: seq<Snapshot>, asOf: int, crash: Crash)
    requires Chained(s) && FromModel(f) && f.sealedAt == asOf && MaySeal(m, snapshots, asOf, false)
    requires f.abstained <==> f.probs.None?
    ensures Chained(After(s, Stamp(SealBody(m, f, model, snapshots, asOf)), crash))
  {
    hide Validates, Sound, Placed, Loads, FromModel, MaxAnchor, CanonicalProbs;
    var b := SealBody(m, f, model, snapshots, asOf);
    if Validates(b) {
      SealRoundTrips(m, f, model, snapshots, asOf);
      WriteChained(s, Stamp(b), crash);
    }
  }

  lemma LoadedParent(s: State, id: Id)
    requires Sound(s) && Loads(s, id)
    ensures var parent := s.files[id].artifact;
      Intact(parent) && ReadBack(parent) == parent && parent.id == id && |parent.body.snapshots| >= 1
      && parent.body.voidReason != Some("")
  {
  }

  lemma ScoreChained(s: State, id: Id, result: Snapshot, hg: int, ag: int, crash: Crash)
    requires Chained(s) && MayScore(s, id, result, hg, ag)
    ensures Chained(After(s, Stamp(ScoredBody(id, BodyAt(s, id), result, hg, ag)), crash))
  {
    hide Validates, Sound, Intact;
    LoadedParent(s, id);
    var parent := BodyAt(s, id);
    assert Placed(s, id);
    var b := ScoredBody(id, parent, result, hg, ag);
    SuccessorRoundTrips(s.files[id].artifact, b);
    assert b.snapshots == parent.snapshots + [result];
    WriteChained(s, Stamp(b), crash);
  }

  lemma VoidChained(s: State, id: Id, at: int, reason: string, crash: Crash)
    requires Chained(s) && MayVoid(s, id, reason)
    ensures Chained(After(s, Stamp(VoidedBody(id, BodyAt(s, id), at, reason)), crash))
  {
    hide Validates, Sound, Intact, Strip;
    LoadedParent(s, id);
    assert Placed(s, id);
    var b := VoidedBody(id, BodyAt(s, id), at, reason);
    SuccessorRoundTrips(s.files[id].artifact, b);
    WriteChained(s, Stamp(b), crash);
  }

  lemma DebrisChained(s: State, id: Id, bytes: nat)
    requires Chained(s)
    ensures Chained(Apply(s, Leftover(id, bytes)))
  {
    hide Intact, Resolves, IsRoot, Sound;
    StepSound(s, Leftover(id, bytes));
    var t := Apply(s, Leftover(id, bytes));
    forall x | Loads(t, x) ensures Placed(t, x) {
      assert Loads(s, x) && Placed(s, x);
    }
  }

  /** Safety over whole runs: on every ledger reached from nothing by sealing, scoring,
      voiding, interruptions and debris, chains have depth at most two. */
  lemma {:induction false} AlwaysChained(s: State, actions: seq<Action>)
    requires Chained(s) && forall action :: action in actions ==> Legal(action)
    ensures Chained(DoAll(s, actions))
    decreases |actions|
  {
    hide Chained, Legal, Do;
    if actions != [] {
      assert actions[0] in actions;
      DoChained(s, actions[0]);
      forall action | action in actions[1..] ensures Legal(action) { assert action in actions; }
      AlwaysChained(Do(s, actions[0]), actions[1..]);
    }
  }

  lemma EmptyChained()
    ensures Chained(State(map[], []))
  {
  }

  // ---------------------------------------------------------------------
  // The operations on a store
  // ---------------------------------------------------------------------

  /** `load_verified_artifact` */
  method Load(store: Store, id: Id) returns (r: Option<Artifact>)
    ensures r.Some? <==> Loads(store.Now(), id)
    ensures r.Some? ==> r.value == store.files[id].artifact
  {
    if id !in store.files { return None; }
    match store.files[id]
    case Torn(_) => return None;
    case Json(artifact, _) =>
      var verified := VerifyIntegrity(artifact, Some(id));
      return if verified.Ok? then Some(artifact) else None;
  }

  /** `seal_forecast`, its gates and its write; played says whether the fixture has a
      result. */
  method SealForecast(store: Store, m: Match, f: Forecast, model: string, snapshots: seq<Snapshot>, asOf: int,
                      played: bool, crash: Crash)
    modifies store
    ensures store.Now() == Do(old(store.Now()), Seal(m, f, model, snapshots, asOf, played, crash))
  {
    hide After, Stamp, SealBody;
    if snapshots == [] || MaxAnchor(snapshots) > asOf { return; }
    if played { return; }
    if asOf >= m.kickoff { return; }
    var _ := store.Write(Stamp(SealBody(m, f, model, snapshots, asOf)), crash);
  }

  /** A seal made in time, before its match and from data that existed, takes effect: its file
      loads and holds what was forecast. */
  lemma SealTakesEffect(s: State, m: Match, f: Forecast, model: string, snapshots: seq<Snapshot>, asOf: int)
    requires Sound(s) && FromModel(f) && Validates(SealBody(m, f, model, snapshots, asOf))
    requires snapshots != [] && (forall x :: x in snapshots ==> x.anchor <= asOf) && asOf < m.kickoff
    ensures var id := Stamp(SealBody(m, f, model, snapshots, asOf)).id;
      var t := Do(s, Seal(m, f, model, snapshots, asOf, false, Never));
      && Loads(t, id)
      && var b := BodyAt(t, id);
         && b.status == (if f.abstained then Abstained else Sealed) && b.supersedes.None? && b.match_ == m
         && b.model == model && b.snapshots == snapshots && b.createdAt == asOf
         && b.evaluation.None? && b.voidReason.None?
         && b.forecast.sealedAt == f.sealedAt && b.forecast.scoreMatrix == f.scoreMatrix
         && b.forecast.probs == (if f.probs.None? then None else Some(CanonicalProbs(f.probs.value)))
  {
    hide Intact, Validates, CanonicalProbs, FromModel, Sound;
    SealRoundTrips(m, f, model, snapshots, asOf);
    WriteTakesEffect(s, Stamp(SealBody(m, f, model, snapshots, asOf)));
  }

  /** A seal too early for its data, too late for its match, or of a played match changes
      nothing. */
  lemma SealRefused(s: State, m: Match, f: Forecast, model: string, snapshots: seq<Snapshot>, asOf: int, played: bool,
                    crash: Crash)
    requires (exists x :: x in snapshots && x.anchor > asOf) || asOf >= m.kickoff || played
    ensures Do(s, Seal(m, f, model, snapshots, asOf, played, crash)) == s
  {
  }

  /** `score_forecast_result` */
  method ScoreForecast(store: Store, id: Id, result: Snapshot, homeGoals: int, awayGoals: int, crash: Crash)
    modifies store
    ensures store.Now() == Do(old(store.Now()), Score(id, result, homeGoals, awayGoals, crash))
  {
    hide Intact, After, Stamp, ScoredBody;
    var sealed := Load(store, id);
    if sealed.Some? {
      var scored := ScoreSeal(sealed.value, result, homeGoals, awayGoals);
      if scored.Ok? {
        assert sealed.value.id == id by { assert IsValidFor(store.files[id], id); }
        var _ := store.Write(scored.value, crash);
      }
    }
  }

  /** `void_forecast` */
  method VoidForecast(store: Store, id: Id, at: int, reason: string, crash: Crash)
    modifies store
    ensures store.Now() == Do(old(store.Now()), Void(id, at, reason, crash))
  {
    hide Intact, After, Stamp, VoidedBody, Strip;
    var sealed := Load(store, id);
    if sealed.Some? {
      var voided := VoidSeal(sealed.value, at, reason);
      if voided.Ok? {
        assert sealed.value.id == id by { assert IsValidFor(store.files[id], id); }
        var _ := store.Write(voided.value, crash);
      }
    }
  }
}
