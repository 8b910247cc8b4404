# Golavo: verified model of the deterministic core

A Dafny model of the parts of Golavo in which a fast, incremental or rounded
computation has to agree with a simple definition, with proofs that it does.
`dafny verify dfyconfig.toml` checks the whole project.

## What is modelled

**League tables and season simulation** (`Standings`, `StandingsLaws`, `TableMeaning`, `Schedule`,
`Scenario`, `Sampling`, `Apportionment`, `SeasonRuns`, `SimulatedRanking`,
`SeasonSimulation`; helpers `Prelude`, `Ordering`, `Sums`, `Pairs`).  The table engine is
a class whose row dictionary is changed one match at a time.  Sorting is a stable
insertion sort on Python's tuple order; the keys always end in the team name, so the
sorted order is unique and two differently computed tables can be compared.  The simulator keeps its
16-bit counters and 8-bit scores in two-dimensional arrays and adds sampled results in
place.  The main theorem: the order each run ends with, before the play-off swaps, is the
table built from scratch on the schedule filled with that run's scores, for both ranking
rules and with point adjustments, and no counter ever leaves its 16-bit range.  The
certificate and gates in front of the simulation are proved to be what that theorem needs.

**Exact-score grid** (`ScoreGrid`, `GridMeaning`, `DerivedMarkets`, `Rounding`).  Matrices are exact
reals, stored values integers in units of 1e-9.  Rounding is to nearest, ties to even.

**Artifacts, ledger and readers** (`Artifacts`, `Ledger`, `Chains`, `Calibration`,
`LedgerReader`, `Lineage`, `Text`).  A hash is a free constructor, so two hashes agree exactly when what
was hashed agrees.  The file replace and the audit append are one atomic step each; a
write can be cut short before either.  Probabilities are integers in units of 1e-6 after
canonicalisation.

**Elo replay** (`Ratings`), **text formats** (`JsonScan`, `Calendar`), **expected threat**
(`EventStream`, `ExpectedThreat`, `ResearchPack`) and the **four-team bracket**
(`Bracket`).

Where a result is stated through a specification function, a second lemma says what that
function means in figures read straight off the input: league tables in `TableMeaning`,
stored grids in `GridMeaning`, ratings in `Ratings.Elo`, the threat equation in counts, and
so on.

## What the proofs found

- A season the audit calls clean certifies on the same pairs exactly when no row lacks a
  club name: the audit counts a missing name as one more club, the certificate drops it
  (`Schedule.CleanCertifiesIff`; `Schedule.NamelessSeasonIsClean` shows such a season).
- The head-to-head completeness check compares two counts.  It passes exactly when a group
  has as many self-matches as missing pairs, so it is right exactly when there is no
  self-match, or when pairs are missing and their number differs from that of the
  self-matches (`StandingsLaws.HeadToHeadCompleteIff`).  It can err both ways
  (`StandingsLaws.SelfFixtureFoolsTheCount`, `StandingsLaws.SelfFixtureHidesACompleteGroup`).
- The gates in front of the simulation do not see a row that is declared complete without a
  score and lies at or after the cutoff; the simulator would read its missing score.
  Without such rows, played is the same as scored (`Scenario.GatesSeeScores`,
  `Scenario.UnseenRowIsAdmitted`).  The certificate on its own also passes such a row without
  a kickoff, which `season_outlook` never hands it.
- The calibration reader accepts a reachable ledger if and only if every file loads and no
  parent has two different successors (`LedgerReader.ReadLedger`).  From an accepted ledger
  exactly two kinds of step lead to a refused one: a truncated leftover at a path that holds
  no valid artifact, and a score or void of an already resolved seal that writes a different
  record (`LedgerReader.ReadableStepIff`).  The ledger allows both.
- A portable proof whose pack holds a manifest with the right hash that is not JSON is built
  and then refused by its own check (`Lineage.BuildProof`).
- Elo ratings sum to the initial rating times the teams seen, less the deltas of matches of a
  team against itself (`Ratings.RatingsConserved`).
- Canonicalisation moves each probability by at most 1e-6 plus the input's own distance
  from summing to one (`Artifacts.CanonicalClose`).
- Comma repair is idempotent on a text exactly when no comma outside strings stands right
  before one that is dropped, white space aside (`JsonScan.RepairIdempotentIff`).
- The bracket range-checks only the two semifinal values.  Among the brackets it accepts, a
  team's title is no likelier than its final exactly when it cannot reach the final or its
  chance there, over its possible opponents, is at most one (`Bracket.TitleNeedsFinalIff`).
  No caller in the repository gets past that: every value passed is clipped, one half, zero
  or one (`Bracket.CallersAreProper`).

## Model

| member | source | states |
|---|---|---|
| Standings.Table.Apply | core/golavo_core/standings.py:124-145 | one result gives both sides their share: three points for a win, one for a draw, goals both ways; every other row is untouched |
| Standings.Table.ApplyAll | core/golavo_core/standings.py:241-249 | after all rows every team holds its tally over the whole list and nobody else has a row |
| Standings.Table.Finish | core/golavo_core/standings.py:250-262 | goal difference and the season's deduction are added to every row, once |
| Standings.MiniTable | core/golavo_core/standings.py:148-164 | the mini-table is each team's tally over the matches inside the group alone |
| Standings.RankWithHeadToHead | core/golavo_core/standings.py:193-223 | grouping by points and sorting each level yields one lexicographic order over all rows |
| Standings.StandingsTable | core/golavo_core/standings.py:226-267 | the result lists each team of the population once, with its true figures, in rank-key order, under either rule; TableMeaning.StandingsMean says what that order is |
| Standings.RankKeySeparates | core/golavo_core/standings.py:178-190 | equal rank keys mean the same team |
| Standings.StandingsUnique | core/golavo_core/standings.py:226-267 | at most one list of rows is the table of given results |
| TableMeaning.TallyMeans | core/golavo_core/standings.py:124-145 | wins, draws, losses and goals are those of the team's own matches; points are three per win and one per draw |
| TableMeaning.StandingsMean | core/golavo_core/standings.py:178-267 | every row holds its team's figures and adjustment; more points stand higher; on equal points the first figure on which two rows differ decides, greater first: points, difference and goals in the group's own matches and then difference, goals and wins where head-to-head applies, else the rule's own figures; then the earlier name |
| StandingsLaws.RowOrderIrrelevant | core/golavo_core/standings.py:226-267 | permuting the match rows changes neither rows nor order, under both rules |
| StandingsLaws.TableConserves | core/golavo_core/standings.py:124-145 | wins equal losses, goal differences sum to zero, points before adjustment are three per decisive match and two per draw |
| StandingsLaws.HeadToHeadCompleteIff | core/golavo_core/standings.py:167-175 | for groups of two or more, the count check agrees with every pair having been played if and only if there is no self-match in the group, or pairs are missing and their number differs from that of the self-matches |
| StandingsLaws.HeadToHeadCompleteCounts | core/golavo_core/standings.py:167-175 | the count check passes if and only if there are as many self-matches as missing pairs |
| StandingsLaws.CompleteWithoutSelfFixtures | core/golavo_core/standings.py:167-175 | without self-matches the count check holds if and only if every ordered pair of the group has been played |
| StandingsLaws.SelfFixtureHidesACompleteGroup | core/golavo_core/standings.py:167-175 | a self-match makes the check reject a fully played group |
| StandingsLaws.SelfFixtureFoolsTheCount | core/golavo_core/standings.py:167-175 | a self-match makes the check accept a group with a missing pair |
| Schedule.CertifiedIff | core/golavo_core/season_outlook.py:57-90 | the complete flag holds if and only if the rows are exactly all ordered pairs of distinct teams, each once, over the expected number of teams |
| Schedule.SeasonStats | scripts/audit_openfootball.py:73-134 | the one-pass audit counters equal their definitions over the whole season, the number of repeated pairs and the least and greatest games per club included |
| Schedule.FlagReasons | scripts/audit_openfootball.py:137-161 | each reason is reported if and only if its own condition holds |
| Schedule.CleanIsNoReason | scripts/audit_openfootball.py:137-161 | no reason at all if and only if the season is clean |
| Schedule.SoundIff | scripts/audit_openfootball.py:84-134 | the structural counters are right if and only if the pairs are a double round robin of the expected number of clubs |
| Schedule.RangesImplied | scripts/audit_openfootball.py:137-161 | the home and away range checks follow from the count, duplicate and self-match checks |
| Schedule.CleanCertifiesIff | scripts/audit_openfootball.py:137-161 | a clean season certifies on the same rows if and only if no row lacks a club name |
| Schedule.NamelessSeasonIsClean | scripts/audit_openfootball.py:84-161 | a clean season with a missing club name exists |
| Pairs.OffDiagonalSize | core/golavo_core/season_outlook.py:63 | n teams have n(n-1) ordered pairs of distinct teams |
| Pairs.RoundRobinGames | scripts/audit_openfootball.py:84-134 | in a double round robin every team hosts and visits every other team once |
| Scenario.GatesSeeScores | core/golavo_core/season_outlook.py:65-83 | with no past gap, declared-complete rows carry scores if and only if no unscored one lies at or after the cutoff or lacks a kickoff |
| Scenario.UnseenRowIsAdmitted | core/golavo_core/season_outlook.py:758-799 | a schedule with such a row passes every gate |
| Scenario.ApplyForcedResults | core/golavo_core/season_outlook.py:161-214 | a request is accepted if and only if at most twelve distinct items each name exactly one open fixture with scores 0 to 20; the result is the schedule with exactly those scores filled in |
| Scenario.EntryForced | core/golavo_core/season_outlook.py:194-198 | each forced fixture is complete and carries the home and away scores asked for, whatever else is forced |
| Scenario.ScenarioClosesFixtures | core/golavo_core/season_outlook.py:176-206 | each forced result closes exactly one open fixture |
| Scenario.ScenarioKeepsCertificate | core/golavo_core/season_outlook.py:161-214 | a what-if schedule keeps teams, pairs and completeness of the certificate, and declared results stay real |
| Scenario.CertifiedSeasonIsValid | core/golavo_core/season_outlook.py:494-548 | a certified schedule with byte-sized declared scores meets everything the simulation relies on |
| Scenario.ScenarioSeasonIsValid | core/golavo_core/season_outlook.py:696-830 | so does every acceptable what-if of an admitted schedule |
| Sampling.ConditionalScoreMatrix | core/golavo_core/season_outlook.py:217-238 | the result is a distribution with the given outcome masses (normalised) whose shape inside each outcome is proportional to the source, or the fallback cell |
| Sampling.OutcomeMeans | core/golavo_core/season_outlook.py:222-224 | a cell belongs to the home win, draw or away win its two goal counts say |
| Sampling.FallbackMeans | core/golavo_core/season_outlook.py:226-236 | an outcome without mass in the source puts its whole probability on 1-0, 0-0 or 0-1 |
| Sampling.RawMass | core/golavo_core/season_outlook.py:225-236 | before normalising, each outcome holds exactly its probability |
| Sampling.SampledExactly | core/golavo_core/season_outlook.py:241-251 | a draw lands on a cell if and only if it falls in the cell's own interval of cumulative probability |
| Sampling.SampledPossible | core/golavo_core/season_outlook.py:241-251 | every draw decodes to an in-range scoreline of positive probability |
| Sampling.ImpossibleOutcomeNeverSampled | core/golavo_core/season_outlook.py:241-251 | an outcome of probability zero is never drawn |
| SeasonRuns.Arrays.ApplyScores | core/golavo_core/season_outlook.py:254-274 | the vectorised update credits both teams in every run and changes nothing else, given that the sums fit |
| SeasonRuns.CountersFit | core/golavo_core/season_outlook.py:515-523 | in a double round robin of at most 20 teams with scores up to 127 every running counter fits 16 signed bits |
| SeasonRuns.LineStep | core/golavo_core/season_outlook.py:557-566 | simulating one more fixture changes a team's counters by its share of that result alone |
| SeasonRuns.StartFromTable | core/golavo_core/season_outlook.py:511-523 | the initial counters are those of the results already played |
| SeasonRuns.SimulateFixtures | core/golavo_core/season_outlook.py:537-566 | after the loop every counter and score of every run is what that run's own schedule says; only fixtures still to be played need a score distribution |
| SimulatedRanking.OverallOrder | core/golavo_core/season_outlook.py:277-297 | the index order is a permutation sorted by the overall key |
| SimulatedRanking.MiniTableOf | core/golavo_core/season_outlook.py:321-340 | the array mini-table equals each team's tally over the matches inside the group |
| SimulatedRanking.EveryLevelComplete | core/golavo_core/season_outlook.py:300-356 | on a certified season every group of level teams has played all its pairs, so the unconditional head-to-head is right |
| SimulatedRanking.HeadToHeadOrder | core/golavo_core/season_outlook.py:300-356 | the array ranker's order is the table of the run's results |
| SeasonSimulation.TerminalOrderIsTable | core/golavo_core/season_outlook.py:578-600 | any output of the table engine on the filled schedule has the simulated order and figures |
| SeasonSimulation.TerminalOrderMeans | core/golavo_core/season_outlook.py:578-600 | every run's order before the deciders is the league table of its results in that plain sense |
| SeasonSimulation.Playoffs | core/golavo_core/season_outlook.py:568-616 | the title decider is settled first, then the last-safe-place decider on the resulting order; a decider swaps two level teams exactly when the draw exceeds the upper team's chance |
| SeasonSimulation.DecidedSamePoints | core/golavo_core/season_outlook.py:601-616 | deciders keep the order a permutation and leave the points column untouched |
| SeasonSimulation.DecidersMean | core/golavo_core/season_outlook.py:601-616 | with the deciders apart, who ends first and who takes the last safe place for a draw on either side of the chance; every other place stays |
| SeasonSimulation.CountsAddUp | core/golavo_core/season_outlook.py:617-623 | if every run fills the same number of places, stake counts sum to slots times runs |
| SeasonSimulation.StakePercent | core/golavo_core/season_outlook.py:617-636 | the shown percentages of a stake are a largest-remainder apportionment of its counts, leftovers going to the largest remainders |
| SeasonSimulation.VoiceSimulation | core/golavo_core/season_outlook.py:494-636 | for every run the terminal order is the from-scratch table of that run, the final order its deciders under the given draws, the three stakes are apportioned over the final orders, and expected points average the runs' own tables |
| SeasonSimulation.ExpectedPoints | core/golavo_core/season_outlook.py:624 | the mean of each points column is the average over runs of the team's points in that run's from-scratch table |
| Apportionment.LargestRemainderPercent | core/golavo_core/season_outlook.py:359-375 | exactly slots*1000 units are handed out, each team gets floor or ceiling of its share, exact shares stay exact, a larger count never shows less, and no team is rounded up before one with a larger remainder or, at equal remainders, an earlier name |
| ScoreGrid.BuildScoreMatrix | core/golavo_core/score_matrix.py:83-141 | grid cells are the rounded block, the tail the rounded outcome masses outside it, and the most likely scoreline the grid's argmax |
| GridMeaning.BuiltMeans | core/golavo_core/score_matrix.py:103-135 | each grid cell is its probability to the nearest unit; the tail holds the home-ahead, level and away-ahead probability of the scorelines with more than n goals on a side; total is the plain sum |
| GridMeaning.TrueProbsMean | core/golavo_core/score_matrix.py:63-70 | the outcome masses are the sums over home-ahead, level and away-ahead scorelines |
| ScoreGrid.BlockPartition | core/golavo_core/score_matrix.py:103-113 | block and zeroed remainder split every mass exactly |
| ScoreGrid.GridError | core/golavo_core/score_matrix.py:115-116 | the sum of any selected cells errs by at most half a unit per cell |
| ScoreGrid.StoredMarginals | core/golavo_core/score_matrix.py:144-167 | the loop returns the outcome sums of grid and tail |
| ScoreGrid.MarginalError | core/golavo_core/score_matrix.py:144-167 | each stored marginal is within half a unit of 1e-9 per summed term of the true one |
| ScoreGrid.TrueProbsInRange | core/golavo_core/score_matrix.py:63-70 | the outcome masses of a joint distribution are probabilities that sum to one |
| ScoreGrid.StoredCoherenceViolations | core/golavo_core/score_matrix.py:170-220 | the list is empty if and only if every coherence condition holds |
| GridMeaning.CoherentMeans | core/golavo_core/score_matrix.py:170-220 | accepted, and so not rejected, if and only if the sums of home-ahead, level and away-ahead cells with their tails agree with the probabilities to 1e-5, the totals agree, and the flagged scoreline is the greatest cell, fewest home then away goals |
| ScoreGrid.ArgmaxUnique | core/golavo_core/score_matrix.py:118-126 | ties are broken so that the most likely scoreline is unique |
| ScoreGrid.BuiltIsCoherent | core/golavo_core/score_matrix.py:83-220 | for every matrix of mass 1 the built object passes all checks against probabilities near its own, whenever slack and accumulated rounding stay below the tolerance |
| DerivedMarkets.TotalGoalsBands | core/golavo_core/score_matrix.py:302-327 | each band is the mass of one total, the open band everything above |
| DerivedMarkets.TotalGoalsOverUnder | core/golavo_core/score_matrix.py:330-360 | refused exactly for lines outside (0, N+1); otherwise under is the mass up to the line and over the rest |
| GridMeaning.TotalsMean | core/golavo_core/score_matrix.py:302-360 | the picks of the bands and lines are sums of cells by home plus away goals |
| DerivedMarkets.BandsPartition | core/golavo_core/score_matrix.py:302-327 | bands and open band add up to the stored mass |
| DerivedMarkets.UnderIsBands | core/golavo_core/score_matrix.py:330-360 | under equals the sum of the bands up to the line, and over and under the whole |
| DerivedMarkets.UnderIsTrueMarginal | core/golavo_core/score_matrix.py:330-360 | under is the full-resolution matrix's own marginal up to half a unit per cell: nothing below the line lies outside the grid |
| Artifacts.CanonicalFixed | core/golavo_core/artifacts.py:85-95 | canonical probabilities sum to exactly one million units and canonicalising again changes nothing |
| Artifacts.DriftGoesToLargest | core/golavo_core/artifacts.py:85-95 | rounding drift lands on the largest rounded value, the first on a tie; the other two are their own roundings |
| Artifacts.CanonicalClose | core/golavo_core/artifacts.py:85-95 | no probability moves by more than 1e-6 plus the input's distance from one |
| Artifacts.CanonicalInRange | core/golavo_core/artifacts.py:85-95 | canonical values of valid probabilities are valid probabilities |
| Artifacts.StaysCoherent | core/golavo_core/artifacts.py:85-95 | a matrix coherent with the model's probabilities stays coherent with the canonical ones |
| Artifacts.CanonicalIdempotent | core/golavo_core/artifacts.py:85-102 | canonical form is idempotent and does not change the identity |
| Artifacts.ValidateArtifact | core/golavo_core/artifacts.py:68-82 | accepts exactly the bodies with at least one snapshot, no empty void reason, probabilities in range that sum to one, and a score matrix only beside probabilities it is coherent with |
| Artifacts.VerifyIntegrity | core/golavo_core/artifacts.py:133-173 | accepts exactly the artifacts that are valid, carry their own hash and identity and match the expected name |
| Artifacts.StampRoundTrips | core/golavo_core/artifacts.py:448-453 | a stamped artifact, written and read back, is intact under its own name |
| Artifacts.SealRoundTrips | core/golavo_core/artifacts.py:305-453 | every built seal whose body is valid is intact once written and read back |
| Artifacts.SealValidates | core/golavo_core/artifacts.py:363-453 | a seal of any non-negative joint distribution of mass 1, with its own grid and outcome masses, is valid and intact once written and read back |
| Artifacts.SameIdSameContent | core/golavo_core/artifacts.py:128-173 | two intact artifacts of one name have the same canonical content and hash |
| Artifacts.ScoreSeal | core/golavo_core/artifacts.py:489-555 | succeeds exactly for a sealed, unabstained record with a snapshot newer than all its own and valid goals; records the outcome the goals say, that outcome's sealed probability, the quadratic score of the forecast and the result's date, and keeps match, forecast and model |
| Artifacts.VoidSeal | core/golavo_core/artifacts.py:613-635 | succeeds exactly for a sealed or abstained record with a reason that is not blank; the successor differs in status, parent, reason and date only |
| Artifacts.SuccessorRoundTrips | core/golavo_core/artifacts.py:506-555 | a successor that keeps its intact parent's forecast is canonical, intact and equal to itself once read back |
| Artifacts.BrierRange | core/golavo_core/artifacts.py:529-533 | the score lies in [0, 2] and is zero exactly when the outcome had probability one |
| Artifacts.BrierExpands | core/golavo_core/artifacts.py:529-533 | the squared errors add up to one, less twice the assigned probability, plus the squares |
| Ledger.Store.Write | core/golavo_core/artifacts.py:281-302 | the new ledger for each interruption point, refusing exactly invalid artifacts and collisions; other files never change, a finished write leaves its file and audit line, an unfinished one no line |
| Ledger.Store.AppendAudit | core/golavo_core/artifacts.py:265-278 | adds the artifact's audit line unless it is there already |
| Ledger.RunExtends | core/golavo_core/artifacts.py:220-302 | over any run of writes, interruptions and truncated leftovers a valid artifact never changes and audit lines are only appended, never duplicated |
| Ledger.RunSound | core/golavo_core/artifacts.py:244-302 | every audit line always has its intact artifact on disk and every valid file is in canonical spelling |
| Ledger.CollisionIff | core/golavo_core/artifacts.py:281-302 | a stamped write collides if and only if an intact file of that name is spelled differently |
| Ledger.RetryCompletes | core/golavo_core/artifacts.py:281-302 | repeating an interrupted write reaches the ledger of the uninterrupted one |
| Ledger.WriteIdempotent | core/golavo_core/artifacts.py:281-302 | writing again changes nothing |
| Ledger.WriteTakesEffect | core/golavo_core/artifacts.py:281-302 | in a sound ledger every valid write leaves its file intact and audited |
| Chains.SealForecast | core/golavo_core/artifacts.py:336-362 | the seal is refused when a data state lies after its time, the fixture has a result or the kickoff has passed; otherwise the store moves as the seal step says |
| Chains.SealTakesEffect | core/golavo_core/artifacts.py:305-486 | a valid seal made after its data and before its match loads afterwards and holds what was forecast |
| Chains.SealRefused | core/golavo_core/artifacts.py:343-362 | a seal too early for its data, too late for its match or of a played match changes nothing |
| Chains.ScoreForecast | core/golavo_core/artifacts.py:558-580 | the store moves as the score step says |
| Chains.VoidForecast | core/golavo_core/artifacts.py:613-635 | the store moves as the void step says |
| Chains.DoChained | core/golavo_core/artifacts.py:336-635 | each seal, score, void or leftover keeps the chain invariant: a root was made from data that existed and before its kickoff, a parent is a root, a scored successor keeps match and forecast and adds one strictly newer snapshot |
| Chains.AlwaysChained | core/golavo_core/artifacts.py:489-635 | so does every sequence of them, so chains have depth at most two |
| Chains.EmptyChained | core/golavo_core/artifacts.py:281-302 | the empty ledger starts every such sequence |
| Calibration.ChainPairs | core/golavo_core/calibration.py:41-67 | succeeds if and only if every record is acceptable and no root is resolved twice; the result pairs each root with its successor, in order of kickoff and id |
| Calibration.PairsByKickoff | core/golavo_core/calibration.py:63-67 | pairs run by kickoff, then by the spelling of the seal's id |
| Calibration.OnlyDoubleResolutionIsRejected | core/golavo_core/calibration.py:41-67 | in the loaded list of a chained ledger every record is acceptable, so only double resolution makes pairing fail |
| Calibration.ScoreThenVoidIsRejected | core/golavo_core/calibration.py:53-62 | scoring then voiding one seal yields a ledger the reader refuses |
| Calibration.EveryArtifactInOnePair | core/golavo_core/calibration.py:41-67 | otherwise every artifact stands in exactly one pair |
| Calibration.CountPairs | core/golavo_core/calibration.py:105-113 | the counters are the numbers of roots and resolutions by status, and roots and resolutions reconcile |
| LedgerReader.LoadLedger | core/golavo_core/calibration.py:30-38 | succeeds if and only if every file loads, and then lists each artifact once |
| LedgerReader.ReadLedger | core/golavo_core/calibration.py:30-67 | on every reachable ledger load and pairing succeed if and only if every file loads and no parent has two different successors |
| LedgerReader.ResolvedTwiceIff | core/golavo_core/calibration.py:30-67 | a seal is resolved twice in the list if and only if its id has two successors on disk |
| LedgerReader.SecondSuccessorIff | core/golavo_core/artifacts.py:506-635 | a step leads to two successors of one parent if and only if they were there or it scores or voids an already resolved parent with a different record |
| LedgerReader.AllLoadIff | core/golavo_core/artifacts.py:244-302 | after a step every file loads if and only if the only unloadable file was the one just written and a leftover met a valid artifact |
| LedgerReader.ReadableStepIff | core/golavo_core/calibration.py:30-67 | from an accepted ledger exactly the two kinds of step above lead to a refused one |
| LedgerReader.TwoResolutionsAreRefused | core/golavo_core/calibration.py:30-67 | any two different resolutions of one seal, two scores, two voids or one of each, are refused |
| Lineage.Component | core/golavo_core/proof.py:40-52 | the fixpoint ends with exactly the undirected connected component of the root |
| Lineage.Lineage | core/golavo_core/proof.py:40-56 | the sorted list holds exactly that component, each artifact once |
| Lineage.OldestFirst | core/golavo_core/proof.py:53-56 | artifacts run from old to new, ties by id |
| Lineage.VerifierComponent | core/golavo_core/proof.py:135-148 | the verifier's different loop ends with the same component |
| Lineage.LinkedInside | core/golavo_core/proof.py:135-148 | a link in the ledger stays a link inside the included component |
| Lineage.BuildSources | core/golavo_core/proof.py:76-97 | one source per descriptor key of the included snapshots, in key order, each with its manifest exactly when one of that hash is available |
| Lineage.SourcesInOrder | core/golavo_core/proof.py:86-88 | sources run by source id, then hash |
| Lineage.VerifySources | core/golavo_core/proof.py:149-187 | accepts if and only if the snapshots agree and the declared sources are exactly theirs, with embedded manifests of the right hash that are JSON |
| Lineage.VerifyProof | core/golavo_core/proof.py:118-187 | accepts if and only if hash, integrity, distinctness, root, lineage and sources are all right |
| Lineage.BuildProof | core/golavo_core/proof.py:72-115 | a proof holds the root's lineage and sources and is refused by its own re-check exactly when two artifacts disagree on a descriptor or an available manifest is not JSON |
| Lineage.BuiltVerifies | core/golavo_core/proof.py:72-187 | any proof with the right lineage, sources and hash verifies if and only if its artifacts agree and its embedded manifests are JSON |
| Ratings.ReplayWithCheckpoints | core/golavo_core/ratings.py:82-106 | snapshot k of the single pass is a fresh replay of the matches up to checkpoint k |
| Ratings.EloTrajectory | core/golavo_core/ratings.py:72-106 | ratings replay the rows up to the cutoff in order, and each is the initial rating plus the team's own changes; the checkpoints are the month ends of the latest kept instant; every snapshot equals the table of a fresh call with that checkpoint as cutoff, the last one the final ratings |
| Ratings.OneMoreMatch | core/golavo_core/ratings.py:93-100 | one more match raises the home rating by exactly the change it earns, lowers the away rating by the same and leaves every other team alone |
| Ratings.ReplayRates | core/golavo_core/ratings.py:88-103 | exactly the teams that played are rated, each at the initial rating plus its signed changes |
| Ratings.ChronoMeans | core/golavo_core/ratings.py:76-78 | the order is by instant, then home team, away team and id |
| Ratings.SnapshotIsFreshTable | core/golavo_core/ratings.py:72-106 | filtering then sorting at an earlier cutoff gives the same matches as filtering the sorted list |
| Ratings.LaterRowsIrrelevant | core/golavo_core/ratings.py:72-78 | rows after the cutoff or incomplete change nothing |
| Ratings.RatingsConserved | core/golavo_core/ratings.py:93-101 | ratings sum to the initial rating times the teams seen, less what self-matches leak |
| Ratings.DistinctOpponentsLeakNothing | core/golavo_core/ratings.py:93-101 | with distinct opponents nothing leaks |
| Ratings.CountsAndDates | core/golavo_core/ratings.py:101-103 | match counts are appearances and the last date is the latest appearance |
| JsonScan.ScanObject | server/golavo_server/ai_gateway.py:941-962 | the scan stops exactly at the first brace that closes the opening one outside strings, if there is one |
| JsonScan.ObjectClosesAtItsEnd | server/golavo_server/ai_gateway.py:941-962 | started at a printed object the scan stops at its own closing brace, whatever follows and whatever its strings hold |
| JsonScan.SpelledIsQuotable | server/golavo_server/ai_gateway.py:947-956 | every sequence of bare characters and backslash escapes is a string body the scanner keeps inside |
| JsonScan.QuotableIsSpelled | server/golavo_server/ai_gateway.py:947-956 | and the scanner's string bodies are exactly those |
| JsonScan.WithoutTrailingCommas | server/golavo_server/ai_gateway.py:917-943 | the output is the text without the commas outside strings that a closer follows |
| JsonScan.RepairOnlyDropsCommas | server/golavo_server/ai_gateway.py:917-943 | for every text no character inside a string changes and only commas are dropped |
| JsonScan.RepairIsStrictPrint | server/golavo_server/ai_gateway.py:917-943 | a print with stray commas becomes the strict print, and a strict print stays as it is |
| JsonScan.RepairDropsOneCommaAtATime | server/golavo_server/ai_gateway.py:936-942 | of two stray commas one survives |
| JsonScan.RepairIdempotentIff | server/golavo_server/ai_gateway.py:917-943 | for every text, repairing twice is repairing once if and only if no comma outside strings stands right before a dropped one, white space aside |
| JsonScan.ExtractFrom | server/golavo_server/ai_gateway.py:945-978 | returns the first balanced candidate that parses to an answer, or none and the fallback |
| JsonScan.FallbackMeans | server/golavo_server/ai_gateway.py:974-977 | without an answer the fallback is what was held if filled, else the first filled dictionary, else the last empty one |
| JsonScan.PrintedObjectIsExtracted | server/golavo_server/ai_gateway.py:945-978 | an answer printed with stray commas after any text without an answer is found and parsed as its strict print |
| Calendar.EscapeStep | server/golavo_server/calendar_export.py:10-18 | the six chained replacements amount to one pass over the text |
| Calendar.EscapeRoundTrips | server/golavo_server/calendar_export.py:10-18 | an escaped text has no line break and unescapes to the original with line breaks normalised, whatever follows |
| Calendar.Fold | server/golavo_server/calendar_export.py:21-36 | physical lines of at most 75 octets that join to the line, broken only between code points and only where the next one did not fit |
| Calendar.Utf8RoundTrips | server/golavo_server/calendar_export.py:29-30 | the octet count of a code point is the length of an encoding that decodes to it |
| Calendar.OctetsAreBytes | server/golavo_server/calendar_export.py:29-30 | a line's octets are the bytes of its encoding |
| Calendar.SplitText | server/golavo_server/calendar_export.py:99 | splitting the joined text at CRLF gives back the physical lines |
| Calendar.UnfoldFolding | server/golavo_server/calendar_export.py:21-36 | unfolding the physical lines of one content line gives exactly it, whatever came before |
| Calendar.BuildCalendar | server/golavo_server/calendar_export.py:61-99 | split and unfolded, the text is exactly the content lines, for all items |
| Calendar.CalendarHoldsExportedItems | server/golavo_server/calendar_export.py:61-99 | a reader finds one event per exportable item, in order, with its names and text, line breaks normalised |
| EventStream.CellCountsNest | scripts/build_wyscout_research_pack.py:135-150 | per cell goals are at most shots, and shots plus outgoing moves at most actions, for every stream |
| EventStream.CellMeans | scripts/build_wyscout_research_pack.py:39-42 | a position lies between the borders of its cell's column and row, of 12 and 8 |
| EventStream.FeaturesMean | scripts/build_wyscout_research_pack.py:131-149 | what makes an event an action, shot, goal, completed or progressive pass |
| EventStream.ChainsMean | scripts/build_wyscout_research_pack.py:106-115 | a team's totals count its chains and those that gain at least 20 |
| EventStream.RunsAreMaximal | scripts/build_wyscout_research_pack.py:116-133 | cutting at changes of match or team gives maximal runs |
| EventStream.MaximalRunsUnique | scripts/build_wyscout_research_pack.py:116-133 | and there is only one such cut |
| EventStream.ChainsHoldEvents | scripts/build_wyscout_research_pack.py:106-114 | a team's chain events are all its kept events |
| EventStream.ChainEventsAddUp | scripts/build_wyscout_research_pack.py:106-114 | over all teams they add up to every kept event |
| ExpectedThreat.SolveXt | scripts/build_wyscout_research_pack.py:56-83 | returns the iterate at the first round that settles, or the hundredth |
| ExpectedThreat.EquationInCounts | scripts/build_wyscout_research_pack.py:65-77 | actions times new worth equal goals plus each move out at its destination's worth; without actions nothing |
| ExpectedThreat.ShotsOnlyCell | scripts/build_wyscout_research_pack.py:65-77 | from the first round on a cell without moves out is worth goals per action |
| ExpectedThreat.SolvedInCounts | scripts/build_wyscout_research_pack.py:78-81 | a grid stopped at early meets that equation up to 1e-10 per action |
| ExpectedThreat.IteratesClimb | scripts/build_wyscout_research_pack.py:63-82 | iterates are monotone and stay in [0, 1] |
| ExpectedThreat.IteratesBelowSolutions | scripts/build_wyscout_research_pack.py:63-82 | and below every non-negative solution |
| ExpectedThreat.StepWithin | scripts/build_wyscout_research_pack.py:65-77 | one round never enlarges the largest difference of two grids |
| ExpectedThreat.SettledSolves | scripts/build_wyscout_research_pack.py:78-81 | a grid stopped at early meets the equation within 1e-10 in every cell |
| ResearchPack.CloseChain | scripts/build_wyscout_research_pack.py:106-114 | books the open chain, so the rows then account for every run |
| ResearchPack.CountEvent | scripts/build_wyscout_research_pack.py:135-150 | one event moves every cell, move and team counter to its true count |
| ResearchPack.BuildCompetition | scripts/build_wyscout_research_pack.py:86-153 | at the end every counter is its count over the kept events, every chain total that of the team's maximal runs, and the grid an iterate |
| ResearchPack.EveryStreamSolves | scripts/build_wyscout_research_pack.py:56-153 | for every event stream the iterates are monotone, in [0, 1] and below every non-negative solution |
| Bracket.EnumerateFourTeamBracket | core/golavo_core/outlook.py:92-138 | refused exactly for repeated teams or semifinal values outside [0, 1]; otherwise all totals are expectations over the four matches |
| Bracket.EnumeratedIsExpected | core/golavo_core/outlook.py:118-138 | accumulating over paths and stamping the second semifinal equals the expectation |
| Bracket.ChancesAddUp | core/golavo_core/outlook.py:110-138 | champion and third sum to 1, both reach columns to 2, and each team's two reach chances to 1 |
| Bracket.TitleNeedsFinal | core/golavo_core/outlook.py:118-138 | champion never exceeds reaching the final, nor third its match |
| Bracket.FinalValueIsNotChecked | core/golavo_core/outlook.py:105-108 | a bracket the two checks accept can show a title likelier than its final |
| Bracket.TitleIsFinalThenWin | core/golavo_core/outlook.py:118-138 | a title is reaching the final and then winning it over the possible opponents; likewise third place |
| Bracket.TitleNeedsFinalIff | core/golavo_core/outlook.py:105-138 | for every accepted bracket and team, the title is no likelier than the final if and only if the final is out of reach or the team's chance there is at most one; likewise third place |
| Bracket.CallersAreProper | core/golavo_core/outlook.py:208-247 | whatever the voice predicts, every value the two callers pass lies in [0, 1], so their titles never exceed their finals |
| Bracket.Rows | core/golavo_core/outlook.py:140-148 | the four rounded rows, sorted by title then name |
| Bracket.ShownChances | core/golavo_core/outlook.py:140-148 | shown titles sum to 1 within 2e-9 and stay below shown finals |
| Bracket.NamingOrderIrrelevant | core/golavo_core/outlook.py:92-138 | with complementary advance values the order in which teams or semifinals are named does not matter |
| Bracket.SomeoneAdvances | core/golavo_core/outlook.py:49-79 | for mirrored neutral predictions both orientations sum to 1, each lies in [0, 1] and the clipping never bites |
| Bracket.AdvanceMeans | core/golavo_core/outlook.py:66-79 | the chance is the regulation win, plus the draw times the extra-time win and half its draw, or times the share of decided matches |
| Bracket.FavouriteAdvances | core/golavo_core/outlook.py:56-79 | a team forecast to win at least as often in both periods advances with at least even chances |
| Bracket.NeutralBracket | core/golavo_core/outlook.py:56-79 | so every neutral voice yields a proper, complementary bracket |

## Left out

- Lineage.VerifyProof: whether a text is JSON is a predicate taken as input; the per-source report is left out.
- Model fitting, predictions and `elo_match_delta`: parameters, with only the assumptions each statement names.
- IEEE rounding error, NumPy broadcasting and the random generator: reals, explicit integer bounds, and the uniform draws as input. Rounding calls that act on whole units are identities and not written.
- SHA-256 and JSON Schema: the hash is injective; of the schema only the bounds the modelled code depends on are checked.
- Files beyond atomic replace and append: temporary names, fsync, locks, torn audit appends.
- Loading frames and packs: rows arrive as sequences; a missing value is None.
- The position column of the table, `standings_snapshot`, fixture importance, history coverage, the sorted team rows and the blocked-status texts of the season outlook.
- SeasonSimulation.VoiceSimulation: takes the play-off chances as a function of the two teams and the uniform draws as input, and does not sort or round the team rows.
- `assert_model_coherent`, expected goals and double chance: direct sums over the matrix.
- Artifacts.ScoreSeal: leaves out the log-loss metric, which needs a logarithm.
- Artifacts.ValidateArtifact: of the JSON Schema it checks only the bounds the modelled code depends on.
- Chains.SealForecast: starts from the assembled forecast; training, abstention counts and provenance fields are inputs.
- Schedule.SeasonStats: leaves out the first and last date, which no reason reads.
- JsonScan.ExtractFrom: covers one search space.
- ResearchPack.BuildCompetition: leaves out team moves, match counts and the rounded report rows.
- Calibration metrics, slices and reliability bins.
- The expected number of teams of a league season: a parameter of the certificate and the audit.
- The ranked, rounded `teams` list of the Elo table.
- Fences, think tags and the truncated-core recovery of JSON extraction: regular expressions around the modelled scan.
- The semifinal discovery and pinning of the tournament outlook.
- Time parsing in the calendar: the UTC text and the UID digest are inputs, each one line of plain text.
- SeasonRuns.CountersFit: assumes scores of at most 127, the range of the 8-bit score arrays.
- Artifacts.StaysCoherent: stated for grids of at most 134 rows, beyond which accumulated rounding exceeds the tolerance the checks allow.
- DerivedMarkets.UnderIsTrueMarginal: with rounded cells the equality holds up to half a unit per cell.
