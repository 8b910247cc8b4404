/** Content-addressed forecast artifacts: canonical form, identity, integrity, and the
    successors that score or void a seal.

    A hash is a free constructor: two hashes agree exactly when what was hashed agrees. */
module Artifacts {
  import opened Prelude
  import opened Rounding
  import opened ScoreGrid
  import opened Text

  const MICRO: real := 1000000.0

  // ---------------------------------------------------------------------
  // Canonical probabilities
  // ---------------------------------------------------------------------

  /** Probabilities in units of 1e-6. */
  datatype Micro = Micro(home: int, draw: int, away: int) {
    function Sum(): int { home + draw + away }
  }

  function RoundedProbs(p: Probs): Micro {
    Micro(Nearest(p.home * MICRO), Nearest(p.draw * MICRO), Nearest(p.away * MICRO))
  }

  /** Push the rounding drift onto the largest outcome, the first on a tie. */
  function Corrected(r: Micro): Micro {
    var drift := 1000000 - r.Sum();
    if r.home >= r.draw && r.home >= r.away then r.(home := r.home + drift)
    else if r.draw >= r.away then r.(draw := r.draw + drift)
    else r.(away := r.away + drift)
  }

  function FromMicro(r: Micro): Probs {
    Probs(r.home as real / MICRO, r.draw as real / MICRO, r.away as real / MICRO)
  }

  function CanonicalProbs(p: Probs): Probs { FromMicro(Corrected(RoundedProbs(p))) }

  lemma MicroRoundTrip(k: int)
    ensures Nearest(k as real / MICRO * MICRO) == k
  {
    assert k as real / MICRO * MICRO == k as real;
    NearestWhole(k);
  }

  /** Rounding drift lands on the largest rounded value, the first of them on a tie; the other
      two are their own roundings. */
  lemma DriftGoesToLargest(p: Probs)
    ensures var c := CanonicalProbs(p);
      var h, d, a := Nearest(p.home * MICRO), Nearest(p.draw * MICRO), Nearest(p.away * MICRO);
      && (h >= d && h >= a ==> c == Probs((1000000 - d - a) as real / MICRO, d as real / MICRO, a as real / MICRO))
      && (d > h && d >= a ==> c == Probs(h as real / MICRO, (1000000 - h - a) as real / MICRO, a as real / MICRO))
      && (a > h && a > d ==> c == Probs(h as real / MICRO, d as real / MICRO, (1000000 - h - d) as real / MICRO))
  {
    hide Nearest;
  }

  /** Whatever the input, the canonical values sum to one exactly and are a fixed point. */
  lemma CanonicalFixed(p: Probs)
    ensures Corrected(RoundedProbs(p)).Sum() == 1000000
    ensures RoundedProbs(CanonicalProbs(p)) == Corrected(RoundedProbs(p))
    ensures CanonicalProbs(CanonicalProbs(p)) == CanonicalProbs(p)
  {
    hide Nearest;
    var r := Corrected(RoundedProbs(p));
    MicroRoundTrip(r.home);
    MicroRoundTrip(r.draw);
    MicroRoundTrip(r.away);
  }

  ghost predicate Within(p: Probs, q: Probs, e: real) {
    Abs(p.home - q.home) <= e && Abs(p.draw - q.draw) <= e && Abs(p.away - q.away) <= e
  }

  /** Canonicalisation moves no probability by more than one unit of 1e-6 beyond the
      input's own deviation from one. */
  lemma CanonicalClose(p: Probs)
    ensures Within(CanonicalProbs(p), p, (1.0 + Abs(p.Sum() * MICRO - MICRO)) / MICRO)
  {
    hide Nearest, Corrected, Abs, RoundedProbs;
    var r, c := RoundedProbs(p), Corrected(RoundedProbs(p));
    var e := 1.0 + Abs(p.Sum() * MICRO - MICRO);
    MicroClose(r, c, p, e);
    Scale(c.home, p.home, e);
    Scale(c.draw, p.draw, e);
    Scale(c.away, p.away, e);
  }

  lemma MicroClose(r: Micro, c: Micro, p: Probs, e: real)
    requires r == RoundedProbs(p) && c == Corrected(r)
    requires e == 1.0 + Abs(p.Sum() * MICRO - MICRO)
    ensures Abs(c.home as real - p.home * MICRO) <= e
    ensures Abs(c.draw as real - p.draw * MICRO) <= e
    ensures Abs(c.away as real - p.away * MICRO) <= e
  {
    hide Nearest, Abs;
    var x, y, z := p.home * MICRO, p.draw * MICRO, p.away * MICRO;
    assert p.Sum() * MICRO == x + y + z;
    NearestClose(x, x + y + z);
    NearestClose(y, x + y + z);
    NearestClose(z, x + y + z);
    DriftClose(x, y, z, r.home, r.draw, r.away);
    DriftClose(y, x, z, r.draw, r.home, r.away);
    DriftClose(z, x, y, r.away, r.home, r.draw);
  }

  lemma NearestClose(x: real, total: real)
    ensures Abs(Nearest(x) as real - x) <= 0.5
    ensures 0.5 <= 1.0 + Abs(total - MICRO)
  {
  }

  /** The corrected value is one minus the other two, so it errs by their errors and the
      input's own deviation from one. */
  lemma DriftClose(x: real, y: real, z: real, a: int, b: int, d: int)
    requires Abs(b as real - y) <= 0.5 && Abs(d as real - z) <= 0.5
    ensures Abs((a + (1000000 - (a + b + d))) as real - x) <= 1.0 + Abs(x + y + z - MICRO)
  {
    assert (a + (1000000 - (a + b + d))) as real == MICRO - b as real - d as real;
  }

  lemma Scale(k: int, x: real, e: real)
    requires Abs(k as real - x * MICRO) <= e
    ensures Abs(k as real / MICRO - x) <= e / MICRO
  {
    assert (k as real / MICRO - x) * MICRO == k as real - x * MICRO;
  }

  ghost predicate InRange(p: Probs) {
    0.0 <= p.home <= 1.0 && 0.0 <= p.draw <= 1.0 && 0.0 <= p.away <= 1.0
  }

  /** The sum check of `validate_artifact`. */
  predicate SumsToOne(p: Probs) { Abs(p.Sum() - 1.0) <= 0.000001 }

  /** Canonical probabilities are probabilities again. */
  lemma CanonicalInRange(p: Probs)
    requires InRange(p) && SumsToOne(p)
    ensures InRange(CanonicalProbs(p)) && SumsToOne(CanonicalProbs(p))
  {
    var r, c := RoundedProbs(p), Corrected(RoundedProbs(p));
    MicroInRange(r, c, p);
    Fraction(c.home);
    Fraction(c.draw);
    Fraction(c.away);
    CanonicalFixed(p);
    assert FromMicro(c).Sum() == c.Sum() as real / MICRO;
  }

  lemma Fraction(k: int)
    requires 0 <= k <= 1000000
    ensures 0.0 <= k as real / MICRO <= 1.0
  {
  }

  lemma MicroInRange(r: Micro, c: Micro, p: Probs)
    requires InRange(p) && SumsToOne(p) && r == RoundedProbs(p) && c == Corrected(r)
    ensures 0 <= c.home <= 1000000 && 0 <= c.draw <= 1000000 && 0 <= c.away <= 1000000
  {
    hide Corrected, RoundedProbs;
    RoundedRange(p);
    CorrectedRange(r);
  }

  lemma RoundedRange(p: Probs)
    requires InRange(p) && SumsToOne(p)
    ensures var r := RoundedProbs(p);
      && 0 <= r.home <= 1000000 && 0 <= r.draw <= 1000000 && 0 <= r.away <= 1000000
      && -2 <= 1000000 - r.Sum() <= 2
  {
    hide Nearest, Abs;
    SumInMicro(p);
    NearestRange(p.home * MICRO);
    NearestRange(p.draw * MICRO);
    NearestRange(p.away * MICRO);
    var r := RoundedProbs(p);
    assert 999997.5 <= (r.home + r.draw + r.away) as real <= 1000002.5;
  }

  lemma SumInMicro(p: Probs)
    requires InRange(p) && SumsToOne(p)
    ensures 999999.0 <= p.home * MICRO + p.draw * MICRO + p.away * MICRO <= 1000001.0
    ensures 0.0 <= p.home * MICRO <= MICRO && 0.0 <= p.draw * MICRO <= MICRO && 0.0 <= p.away * MICRO <= MICRO
  {
  }

  lemma NearestRange(x: real)
    requires 0.0 <= x <= MICRO
    ensures 0 <= Nearest(x) <= 1000000 && -0.5 <= Nearest(x) as real - x <= 0.5
  {
  }

  /** The three roundings overshoot or fall short by at most two units, far less than the
      largest of them. */
  lemma CorrectedRange(r: Micro)
    requires 0 <= r.home <= 1000000 && 0 <= r.draw <= 1000000 && 0 <= r.away <= 1000000
    requires -2 <= 1000000 - r.Sum() <= 2
    ensures var c := Corrected(r); 0 <= c.home <= 1000000 && 0 <= c.draw <= 1000000 && 0 <= c.away <= 1000000
  {
  }

  /** A matrix coherent with the model's own probabilities stays coherent once those are
      canonicalised. */
  lemma StaysCoherent(s: Stored, m: seq<seq<real>>, n: nat)
    requires Square(m) && n < |m| && IsBuilt(s, m, n) && Mass(m, All, |m|, |m|) == 1.0
    requires (n + 1) * (n + 1) <= 17997
    ensures Coherent(s, TrueProbs(m)) && Coherent(s, CanonicalProbs(TrueProbs(m)))
  {
    hide IsBuilt, Coherent, Mass, CanonicalProbs, Probs.Sum;
    var t := TrueProbs(m);
    MassOutcomes(m, |m|, |m|);
    SumIsOne(t);
    CanonicalClose(t);
    BuiltIsCoherent(s, m, n, t, 0.0);
    BuiltIsCoherent(s, m, n, CanonicalProbs(t), 0.000001);
  }

  lemma SumIsOne(t: Probs)
    requires t.home + t.draw + t.away == 1.0
    ensures (1.0 + Abs(t.Sum() * MICRO - MICRO)) / MICRO == 0.000001
  {
    assert t.Sum() * MICRO == MICRO;
  }

  // ---------------------------------------------------------------------
  // Artifacts and their identity
  // ---------------------------------------------------------------------

  datatype Status = Sealed | Abstained | Scored | Voided

  datatype Outcome = HomeWin | Drawn | AwayWin

  datatype Match = Match(matchId: string, kickoff: int, home: string, away: string)

  /** A source descriptor: which pinned data state, and when it verifiably existed. */
  datatype Snapshot = Snapshot(sourceId: string, sha256: string, anchor: int, note: string)

  datatype Forecast = Forecast(sealedAt: int, probs: Option<Probs>, scoreMatrix: Option<Stored>, abstained: bool)

  /** Metrics in units of 1e-6. */
  datatype Evaluation = Evaluation(homeGoals: int, awayGoals: int, outcome: Outcome, scoredAt: int,
                                   brier: int, probAssigned: int)

  /** Everything an artifact's id is computed from. */
  datatype Body = Body(status: Status, supersedes: Option<Id>, match_: Match, forecast: Forecast, model: string,
                       snapshots: seq<Snapshot>, createdAt: int, evaluation: Option<Evaluation>,
                       voidReason: Option<string>)

  /** `fa_` and the hash of the canonical body. */
  datatype Id = Fa(body: Body)

  /** The hash of the canonical artifact without this digest. */
  datatype Digest = Sha(id: Id, body: Body)

  datatype Artifact = Artifact(id: Id, digest: Digest, body: Body)

  /** `canonical_bytes`, seen as the document it spells. */
  function Canonical(b: Body): Body {
    match b.forecast.probs
    case None => b
    case Some(p) => b.(forecast := b.forecast.(probs := Some(CanonicalProbs(p))))
  }

  function IdOf(b: Body): Id { Fa(Canonical(b)) }

  /** Set the id, then the digest. */
  function Stamp(b: Body): Artifact { Artifact(IdOf(b), Sha(IdOf(b), Canonical(b)), b) }

  /** What a reader finds in the file a writer produced. */
  function ReadBack(a: Artifact): Artifact { a.(body := Canonical(a.body)) }

  lemma CanonicalIdempotent(b: Body)
    ensures Canonical(Canonical(b)) == Canonical(b)
    ensures IdOf(Canonical(b)) == IdOf(b)
  {
    hide CanonicalProbs;
    if b.forecast.probs.Some? { CanonicalFixed(b.forecast.probs.value); }
  }

  /** `validate_artifact`: the schema's own bounds, the probability sum, and coherence of
      a score matrix with the probabilities it must reproduce. */
  ghost predicate Validates(b: Body) {
    && |b.snapshots| >= 1
    && b.voidReason != Some("")
    && (b.forecast.probs.Some? ==> InRange(b.forecast.probs.value) && SumsToOne(b.forecast.probs.value))
    && (b.forecast.scoreMatrix.Some? ==>
          b.forecast.probs.Some? && Coherent(b.forecast.scoreMatrix.value, b.forecast.probs.value))
  }

  method ValidateArtifact(b: Body) returns (ok: bool)
    ensures ok <==> Validates(b)
  {
    if |b.snapshots| < 1 || b.voidReason == Some("") { return false; }
    if b.forecast.probs.Some? {
      var p := b.forecast.probs.value;
      if !(0.0 <= p.home <= 1.0 && 0.0 <= p.draw <= 1.0 && 0.0 <= p.away <= 1.0 && SumsToOne(p)) { return false; }
    }
    if b.forecast.scoreMatrix.Some? {
      if b.forecast.probs.None? { return false; }
      var violations := StoredCoherenceViolations(b.forecast.scoreMatrix.value, b.forecast.probs.value);
      return violations == [];
    }
    return true;
  }

  datatype Error = Invalid | DigestMismatch | IdMismatch | WrongName | NotScorable | StaleSnapshot
                 | BadGoals | NotVoidable | NoReason

  /** An untouched artifact: valid, and its digest and id are those of its own content. */
  ghost predicate Intact(a: Artifact) {
    Validates(a.body) && a.digest == Sha(a.id, Canonical(a.body)) && a.id == IdOf(a.body)
  }

  /** `verify_artifact_integrity` */
  method VerifyIntegrity(a: Artifact, expected: Option<Id>) returns (r: Result<Artifact, Error>)
    ensures r.Ok? <==> Intact(a) && (expected.Some? ==> expected.value == a.id)
    ensures r.Ok? ==> r.value == a
  {
    var valid := ValidateArtifact(a.body);
    if !valid { return Err(Invalid); }
    if a.digest != Sha(a.id, Canonical(a.body)) { return Err(DigestMismatch); }
    if a.id != IdOf(a.body) { return Err(IdMismatch); }
    if expected.Some? && expected.value != IdOf(a.body) { return Err(WrongName); }
    return Ok(a);
  }

  /** The canonical form of a valid body is valid, when its matrix stays coherent. */
  lemma CanonicalValidates(b: Body)
    requires Validates(b)
    requires b.forecast.scoreMatrix.Some? && b.forecast.probs.Some? ==>
      Coherent(b.forecast.scoreMatrix.value, CanonicalProbs(b.forecast.probs.value))
    ensures Validates(Canonical(b))
  {
    hide Coherent, CanonicalProbs, InRange, SumsToOne;
    if b.forecast.probs.Some? { CanonicalInRange(b.forecast.probs.value); }
  }

  /** A freshly stamped artifact, written and read back, passes under its own name. */
  lemma StampRoundTrips(b: Body)
    requires Validates(Canonical(b))
    ensures Intact(ReadBack(Stamp(b))) && ReadBack(Stamp(b)).id == Stamp(b).id
    ensures ReadBack(ReadBack(Stamp(b))) == ReadBack(Stamp(b))
  {
    hide Validates, Canonical;
    CanonicalIdempotent(b);
  }

  /** No two contents share a name: an intact artifact is its id. */
  lemma SameIdSameContent(a: Artifact, b: Artifact)
    requires Intact(a) && Intact(b) && a.id == b.id
    ensures Canonical(a.body) == Canonical(b.body) && a.digest == b.digest && ReadBack(a) == ReadBack(b)
  {
    hide Validates, Canonical;
  }

  // ---------------------------------------------------------------------
  // Sealing, scoring, voiding
  // ---------------------------------------------------------------------

  /** What a goal model hands the sealer, or nothing for the other families. */
  ghost predicate FromModel(f: Forecast) {
    f.scoreMatrix.Some? ==>
      f.probs.Some? && exists m: seq<seq<real>>, n: nat ::
        && Square(m) && n < |m| && IsBuilt(f.scoreMatrix.value, m, n) && Mass(m, All, |m|, |m|) == 1.0
        && (n + 1) * (n + 1) <= 17997 && f.probs.value == TrueProbs(m)
  }

  /** The artifact body `build_forecast_artifact` assembles. */
  function SealBody(match_: Match, forecast: Forecast, model: string, snapshots: seq<Snapshot>, asOf: int): Body {
    Body(if forecast.abstained then Abstained else Sealed, None, match_, forecast, model, snapshots, asOf, None, None)
  }

  /** A goal model's joint distribution gives a seal that validates, with nothing assumed
      about the stored numbers. */
  lemma SealValidates(match_: Match, forecast: Forecast, model: string, snapshots: seq<Snapshot>, asOf: int,
                      m: seq<seq<real>>, n: nat)
    requires Square(m) && NonNegative(m) && n < |m| && Mass(m, All, |m|, |m|) == 1.0 && (n + 1) * (n + 1) <= 17997
    requires forecast.scoreMatrix.Some? && IsBuilt(forecast.scoreMatrix.value, m, n)
    requires forecast.probs == Some(TrueProbs(m)) && snapshots != []
    ensures FromModel(forecast) && Validates(SealBody(match_, forecast, model, snapshots, asOf))
    ensures Intact(ReadBack(Stamp(SealBody(match_, forecast, model, snapshots, asOf))))
  {
    hide Coherent, CanonicalProbs, IsBuilt, Mass, TrueProbs, Intact;
    TrueProbsInRange(m);
    StaysCoherent(forecast.scoreMatrix.value, m, n);
    SealRoundTrips(match_, forecast, model, snapshots, asOf);
  }

  /** A seal of a goal model's own numbers survives the trip to disk and back. */
  lemma SealRoundTrips(match_: Match, forecast: Forecast, model: string, snapshots: seq<Snapshot>, asOf: int)
    requires FromModel(forecast) && Validates(SealBody(match_, forecast, model, snapshots, asOf))
    ensures Intact(ReadBack(Stamp(SealBody(match_, forecast, model, snapshots, asOf))))
  {
    hide Coherent, CanonicalProbs, IsBuilt, Mass, TrueProbs, Intact;
    var b := SealBody(match_, forecast, model, snapshots, asOf);
    if forecast.scoreMatrix.Some? {
      var m: seq<seq<real>>, n: nat :| Square(m) && n < |m| && IsBuilt(forecast.scoreMatrix.value, m, n)
        && Mass(m, All, |m|, |m|) == 1.0
                  && (n + 1) * (n + 1) <= 17997 && forecast.probs.value == TrueProbs(m);
      StaysCoherent(forecast.scoreMatrix.value, m, n);
    }
    CanonicalValidates(b);
    StampRoundTrips(b);
  }

  function MaxAnchor(snapshots: seq<Snapshot>): (anchor: int)
    requires snapshots != []
    ensures forall s :: s in snapshots ==> s.anchor <= anchor
    ensures exists s :: s in snapshots && s.anchor == anchor
  {
    var init, last := snapshots[..|snapshots| - 1], snapshots[|snapshots| - 1];
    assert snapshots == init + [last];
    if init == [] then last.anchor
    else if MaxAnchor(init) >= last.anchor then MaxAnchor(init) else last.anchor
  }

  /** May this artifact be scored from that snapshot? */
  predicate Scorable(sealed: Body, result: Snapshot) {
    sealed.status == Sealed && sealed.forecast.probs.Some? && sealed.snapshots != []
    && result.anchor > MaxAnchor(sealed.snapshots)
  }

  function OutcomeOf(homeGoals: int, awayGoals: int): Outcome {
    if homeGoals > awayGoals then HomeWin else if homeGoals == awayGoals then Drawn else AwayWin
  }

  function ProbOf(p: Probs, o: Outcome): real {
    match o case HomeWin => p.home case Drawn => p.draw case AwayWin => p.away
  }

  function Times(x: real, y: real): (r: real)
    ensures x >= 0.0 && y >= 0.0 ==> r >= 0.0
    ensures x > 0.0 && y > 0.0 ==> r > 0.0
  {
    x * y
  }

  function Square2(x: real): real { Times(x, x) }

  function Brier(p: Probs, o: Outcome): real {
    Square2(p.home - if o == HomeWin then 1.0 else 0.0) + Square2(p.draw - if o == Drawn then 1.0 else 0.0)
    + Square2(p.away - if o == AwayWin then 1.0 else 0.0)
  }

  /** The successor of a scored seal. */
  function ScoredBody(parent: Id, sealed: Body, result: Snapshot, homeGoals: int, awayGoals: int): Body
    requires sealed.forecast.probs.Some?
  {
    var p, o := sealed.forecast.probs.value, OutcomeOf(homeGoals, awayGoals);
    sealed.(status := Scored, supersedes := Some(parent), snapshots := sealed.snapshots + [result],
            evaluation := Some(Evaluation(homeGoals, awayGoals, o, result.anchor,
                                          Nearest(Brier(p, o) * MICRO), Nearest(ProbOf(p, o) * MICRO))),
            createdAt := result.anchor)
  }

  /** One, less twice the chance given to what happened, plus the squares of all three. */
  function QuadraticScore(p: Probs, chance: real): real {
    1.0 - 2.0 * chance + p.home * p.home + p.draw * p.draw + p.away * p.away
  }

  /** What the successor of a scored seal holds, in the terms of the result. */
  ghost predicate RecordsScore(b: Body, sealed: Artifact, result: Snapshot, homeGoals: int, awayGoals: int)
    requires sealed.body.forecast.probs.Some?
  {
    var p := sealed.body.forecast.probs.value;
    var chance := if homeGoals > awayGoals then p.home else if homeGoals == awayGoals then p.draw else p.away;
    && b.status == Scored && b.supersedes == Some(sealed.id) && b.snapshots == sealed.body.snapshots + [result]
    && b.match_ == sealed.body.match_ && b.forecast == sealed.body.forecast && b.model == sealed.body.model
    && b.voidReason == sealed.body.voidReason && b.createdAt == result.anchor
    && b.evaluation.Some?
    && var e := b.evaluation.value;
       && e.homeGoals == homeGoals && e.awayGoals == awayGoals && e.scoredAt == result.anchor
       && (e.outcome == HomeWin <==> homeGoals > awayGoals)
       && (e.outcome == Drawn <==> homeGoals == awayGoals)
       && (e.outcome == AwayWin <==> homeGoals < awayGoals)
       && e.probAssigned == Nearest(chance * MICRO)
       && e.brier == Nearest(QuadraticScore(p, chance) * MICRO)
  }

  /** The squared errors add up to one, less twice the assigned probability, plus the squares. */
  lemma BrierExpands(p: Probs, o: Outcome)
    ensures Brier(p, o) == QuadraticScore(p, ProbOf(p, o))
  {
    SquaredError(p.home, if o == HomeWin then 1.0 else 0.0);
    SquaredError(p.draw, if o == Drawn then 1.0 else 0.0);
    SquaredError(p.away, if o == AwayWin then 1.0 else 0.0);
  }

  lemma SquaredError(x: real, hot: real)
    requires hot == 0.0 || hot == 1.0
    ensures Square2(x - hot) == x * x - 2.0 * (if hot == 1.0 then x else 0.0) + hot
  {
  }

  lemma ScoredMeans(sealed: Artifact, result: Snapshot, homeGoals: int, awayGoals: int)
    requires sealed.body.forecast.probs.Some?
    ensures var b := ScoredBody(sealed.id, sealed.body, result, homeGoals, awayGoals);
      RecordsScore(b, sealed, result, homeGoals, awayGoals)
  {
    hide Brier, Nearest, QuadraticScore;
    BrierExpands(sealed.body.forecast.probs.value, OutcomeOf(homeGoals, awayGoals));
  }

  /** `_score_verified_seal`, up to the write. */
  method ScoreSeal(sealed: Artifact, result: Snapshot, homeGoals: int, awayGoals: int)
    returns (r: Result<Artifact, Error>)
    ensures r.Ok? <==> Scorable(sealed.body, result) && homeGoals >= 0 && awayGoals >= 0
    ensures r.Ok? ==> r.value == Stamp(ScoredBody(sealed.id, sealed.body, result, homeGoals, awayGoals))
    ensures r.Ok? <==>
      && sealed.body.status == Sealed && sealed.body.forecast.probs.Some? && homeGoals >= 0 && awayGoals >= 0
      && sealed.body.snapshots != [] && forall s :: s in sealed.body.snapshots ==> s.anchor < result.anchor
    ensures r.Ok? ==> RecordsScore(r.value.body, sealed, result, homeGoals, awayGoals)
  {
    hide Brier, ProbOf, Nearest, MaxAnchor, Canonical, RecordsScore;
    if sealed.body.status != Sealed || sealed.body.forecast.probs.None? || sealed.body.snapshots == [] {
      return Err(NotScorable);
    }
    if result.anchor <= MaxAnchor(sealed.body.snapshots) { return Err(StaleSnapshot); }
    if homeGoals < 0 || awayGoals < 0 { return Err(BadGoals); }
    var p, o := sealed.body.forecast.probs.value, OutcomeOf(homeGoals, awayGoals);
    var scored := sealed.body;
    scored := scored.(status := Scored);
    scored := scored.(supersedes := Some(sealed.id));
    scored := scored.(snapshots := sealed.body.snapshots + [result]);
    scored := scored.(evaluation := Some(Evaluation(homeGoals, awayGoals, o, result.anchor,
                                                    Nearest(Brier(p, o) * MICRO), Nearest(ProbOf(p, o) * MICRO))));
    scored := scored.(createdAt := result.anchor);
    ScoredMeans(sealed, result, homeGoals, awayGoals);
    return Ok(Stamp(scored));
  }

  /** `reason.strip()` */
  function Strip(s: string): (r: string)
    ensures r == [] <==> forall c :: c in s ==> IsSpace(c)
    ensures r != [] ==> !IsSpace(r[0]) && !IsSpace(r[|r| - 1])
  {
    if s == [] then []
    else if IsSpace(s[0]) then
      assert s == [s[0]] + s[1..];
      Strip(s[1..])
    else if IsSpace(s[|s| - 1]) then
      assert s[0] in s[..|s| - 1];
      Strip(s[..|s| - 1])
    else s
  }

  function VoidedBody(parent: Id, sealed: Body, at: int, reason: string): Body {
    sealed.(status := Voided, supersedes := Some(parent), voidReason := Some(Strip(reason)), createdAt := at)
  }

  /** `void_forecast`, up to the write. */
  method VoidSeal(sealed: Artifact, at: int, reason: string) returns (r: Result<Artifact, Error>)
    ensures r.Ok? <==> (sealed.body.status == Sealed || sealed.body.status == Abstained) && Strip(reason) != ""
    ensures r.Ok? ==> r.value == Stamp(VoidedBody(sealed.id, sealed.body, at, reason))
    ensures r.Ok? ==>
      var b := r.value.body;
      && b.status == Voided && b.supersedes == Some(sealed.id) && b.voidReason == Some(Strip(reason))
      && b.createdAt == at
      && b.match_ == sealed.body.match_ && b.forecast == sealed.body.forecast && b.model == sealed.body.model
      && b.snapshots == sealed.body.snapshots && b.evaluation == sealed.body.evaluation
  {
    if sealed.body.status != Sealed && sealed.body.status != Abstained { return Err(NotVoidable); }
    if Strip(reason) == "" { return Err(NoReason); }
    var voided := sealed.body;
    voided := voided.(status := Voided);
    voided := voided.(supersedes := Some(sealed.id));
    voided := voided.(voidReason := Some(Strip(reason)));
    voided := voided.(createdAt := at);
    return Ok(Stamp(voided));
  }

  /** A successor of an artifact read from the ledger survives the trip too: its forecast
      is already canonical. */
  lemma SuccessorRoundTrips(parent: Artifact, b: Body)
    requires Intact(parent) && ReadBack(parent) == parent
    requires b.forecast == parent.body.forecast && |b.snapshots| >= 1 && b.voidReason != Some("")
    ensures Validates(b) && Canonical(b) == b && Intact(Stamp(b)) && ReadBack(Stamp(b)) == Stamp(b)
  {
    hide Coherent, CanonicalProbs, InRange, SumsToOne;
  }

  /** The Brier score of canonical probabilities lies between zero and two, and is zero
      exactly for certainty on the actual outcome. */
  lemma BrierRange(p: Probs, o: Outcome)
    requires InRange(p) && p.Sum() == 1.0
    ensures 0.0 <= Brier(p, o) <= 2.0
    ensures Brier(p, o) == 0.0 <==> ProbOf(p, o) == 1.0
  {
    hide Square2;
    match o
    case HomeWin => BrierTerms(p.home, p.draw, p.away);
    case Drawn => BrierTerms(p.draw, p.home, p.away);
    case AwayWin => BrierTerms(p.away, p.home, p.draw);
  }

  lemma BrierTerms(a: real, b: real, c: real)
    requires 0.0 <= a <= 1.0 && 0.0 <= b <= 1.0 && 0.0 <= c <= 1.0 && a + b + c == 1.0
    ensures 0.0 <= Square2(a - 1.0) + Square2(b) + Square2(c) <= 2.0
    ensures Square2(a - 1.0) + Square2(b) + Square2(c) == 0.0 <==> a == 1.0
  {
    UnitSquare(1.0 - a);
    UnitSquare(b);
    UnitSquare(c);
    assert Square2(a - 1.0) == Square2(1.0 - a);
    hide Square2;
  }

  lemma UnitSquare(x: real)
    requires 0.0 <= x <= 1.0
    ensures 0.0 <= Square2(x) <= x && (Square2(x) == 0.0 <==> x == 0.0)
  {
    TimesBelow(x, x);
    if x == 0.0 { assert Square2(x) == 0.0; }
  }

  lemma TimesBelow(x: real, y: real)
    requires x >= 0.0 && 0.0 <= y <= 1.0
    ensures Times(x, y) <= x
  {
    assert Times(x, 1.0 - y) >= 0.0;
  }
}
