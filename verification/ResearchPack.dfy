/** The event loop of the research pack: cell counters, team rows and chains in one pass. */
module ResearchPack {
  import opened Prelude
  import opened EventStream
  import opened ExpectedThreat

  /** One team's counters; a team without a row counts zero everywhere. */
  datatype Row = Row(passes: nat, completed: nat, progressivePasses: nat, shots: nat, goals: nat,
                     chains: nat, chainEvents: nat, progressiveChains: nat)

  type Stats = map<int, Row>

  function RowFor(stats: Stats, team: int): Row {
    if team in stats then stats[team] else Row(0, 0, 0, 0, 0, 0, 0, 0)
  }

  datatype Chain = Chain(match_: int, team: int, startX: real, endX: real, count: nat)

  function ChainOf(run: Run): Chain
    requires run != []
  {
    var last := run[|run| - 1];
    Chain(last.match_, last.team, StartX(run[0]), EndX(last), |run|)
  }

  ghost predicate CellsTrack(slice: Slice, kept: seq<KeptEvent>) {
    && slice.Shape() && OneEntryEach(slice.moves)
    && (forall c :: 0 <= c < CELLS ==>
         && slice.actions[c] == Count(kept, ActionIn(c)) && slice.shots[c] == Count(kept, ShotIn(c))
         && slice.goals[c] == Count(kept, GoalIn(c)) && Outgoing(slice.moves, c) == Count(kept, MoveFrom(c)))
    && forall o: nat, d: nat :: CountOf(slice.moves, o, d) == Count(kept, Move(o, d))
  }

  ghost predicate RowTracks(row: Row, kept: seq<KeptEvent>, t: int) {
    && row.passes == Count(kept, PassBy(t)) && row.completed == Count(kept, CompletedBy(t))
    && row.progressivePasses == Count(kept, ProgressiveBy(t))
    && row.shots == Count(kept, ShotBy(t)) && row.goals == Count(kept, GoalBy(t))
  }

  ghost predicate ChainsTrack(row: Row, runs: seq<Run>, t: int)
    requires forall i :: 0 <= i < |runs| ==> runs[i] != []
  {
    ChainTotals(row.chains, row.chainEvents, row.progressiveChains) == ChainsOf(runs, t)
  }

  ghost predicate StatsTrack(stats: Stats, kept: seq<KeptEvent>, closed: seq<Run>)
    requires forall i :: 0 <= i < |closed| ==> closed[i] != []
  {
    forall t :: RowTracks(RowFor(stats, t), kept, t) && ChainsTrack(RowFor(stats, t), closed, t)
  }

  /** The runs already closed when one chain is still open. */
  function Closed(runs: seq<Run>): (r: seq<Run>)
    requires forall i :: 0 <= i < |runs| ==> runs[i] != []
    ensures forall i :: 0 <= i < |r| ==> r[i] != []
  {
    if runs == [] then [] else runs[..|runs| - 1]
  }

  ghost predicate ActiveTracks(active: Option<Chain>, runs: seq<Run>)
    requires forall i :: 0 <= i < |runs| ==> runs[i] != []
  {
    active == if runs == [] then None else Some(ChainOf(runs[|runs| - 1]))
  }

  function Added(counts: seq<nat>, cell: nat, yes: bool): seq<nat>
    requires cell < |counts|
  {
    if yes then counts[cell := counts[cell] + 1] else counts
  }

  /** What one kept event adds to the cell counters. */
  function SliceAfter(slice: Slice, e: KeptEvent): Slice
    requires |slice.actions| == |slice.shots| == |slice.goals| == CELLS
  {
    Slice(Added(slice.actions, Origin(e), IsPass(e) || IsShot(e)),
          Added(slice.shots, Origin(e), !IsPass(e) && IsShot(e)),
          Added(slice.goals, Origin(e), IsGoal(e)),
          if IsCompleted(e) then Bump(slice.moves, Origin(e), Destination(e)) else slice.moves)
  }

  /** What one kept event adds to its team's row. */
  function RowAfter(row: Row, e: KeptEvent): Row {
    row.(passes := row.passes + (if IsPass(e) then 1 else 0),
         completed := row.completed + (if IsCompleted(e) then 1 else 0),
         progressivePasses := row.progressivePasses + (if IsCompleted(e) && EndX(e) - StartX(e) >= 20.0 then 1 else 0),
         shots := row.shots + (if !IsPass(e) && IsShot(e) then 1 else 0),
         goals := row.goals + (if IsGoal(e) then 1 else 0))
  }

  lemma CellsTrackMore(slice: Slice, kept: seq<KeptEvent>, e: KeptEvent)
    requires CellsTrack(slice, kept)
    ensures CellsTrack(SliceAfter(slice, e), kept + [e])
  {
    hide Count, CountOf, Outgoing, Origin, Destination, IsCompleted, IsGoal, IsPass, IsShot, Bump, OneEntryEach;
    var o, d := Origin(e), Destination(e);
    forall f: Feature ensures Count(kept + [e], f) == Count(kept, f) + if Shows(e, f) then 1 else 0 {
      CountMore(kept, e, f);
    }
    var slice' := SliceAfter(slice, e);
    if IsCompleted(e) {
      BumpKeeps(slice.moves, o, d);
      EntriesInRange(Bump(slice.moves, o, d));
    }
    forall a: nat, b: nat ensures CountOf(slice'.moves, a, b) == Count(kept + [e], Move(a, b)) {
      if IsCompleted(e) { BumpCounts(slice.moves, o, d, a, b); }
    }
    forall c | 0 <= c < CELLS ensures Outgoing(slice'.moves, c) == Count(kept + [e], MoveFrom(c)) {
      if IsCompleted(e) { BumpCounts(slice.moves, o, d, c, 0); }
    }
  }

  lemma EntriesInRange(counter: Counter)
    requires OneEntryEach(counter)
    ensures forall i :: 0 <= i < |counter| ==> counter[i].origin < CELLS && counter[i].destination < CELLS
  {
  }

  lemma RowTracksMore(row: Row, kept: seq<KeptEvent>, e: KeptEvent, t: int)
    requires RowTracks(row, kept, t)
    ensures RowTracks(if t == e.team then RowAfter(row, e) else row, kept + [e], t)
  {
    hide Count, IsCompleted, IsGoal, IsPass, IsShot, StartX, EndX;
    forall f: Feature ensures Count(kept + [e], f) == Count(kept, f) + if Shows(e, f) then 1 else 0 {
      CountMore(kept, e, f);
    }
  }

  lemma StatsTrackMore(stats: Stats, stats': Stats, kept: seq<KeptEvent>, closed: seq<Run>, e: KeptEvent)
    requires forall i :: 0 <= i < |closed| ==> closed[i] != []
    requires StatsTrack(stats, kept, closed)
    requires forall t :: RowFor(stats', t) == if t == e.team then RowAfter(RowFor(stats, t), e) else RowFor(stats, t)
    ensures StatsTrack(stats', kept + [e], closed)
  {
    hide RowFor, RowTracks, ChainsOf;
    forall t ensures RowTracks(RowFor(stats', t), kept + [e], t) && ChainsTrack(RowFor(stats', t), closed, t) {
      assert RowTracks(RowFor(stats, t), kept, t) && ChainsTrack(RowFor(stats, t), closed, t);
      RowTracksMore(RowFor(stats, t), kept, e, t);
    }
  }

  /** The nested function that books the open chain. */
  method CloseChain(stats: Stats, active: Option<Chain>, ghost kept: seq<KeptEvent>,
                    ghost runs: seq<Run>) returns (r: Stats)
    requires forall i :: 0 <= i < |runs| ==> runs[i] != []
    requires forall i :: 0 <= i < |runs| ==> IsRun(runs[i])
    requires ActiveTracks(active, runs) && StatsTrack(stats, kept, Closed(runs))
    ensures StatsTrack(r, kept, runs)
  {
    hide RowTracks, ChainsOf;
    if active.None? {
      return stats;
    }
    var chain := active.value;
    var row := RowFor(stats, chain.team);
    row := row.(chains := row.chains + 1, chainEvents := row.chainEvents + chain.count);
    if chain.endX - chain.startX >= 20.0 {
      row := row.(progressiveChains := row.progressiveChains + 1);
    }
    r := stats[chain.team := row];
    ghost var run := runs[|runs| - 1];
    forall t ensures RowTracks(RowFor(r, t), kept, t) && ChainsTrack(RowFor(r, t), runs, t) {
      assert RowTracks(RowFor(stats, t), kept, t) && ChainsTrack(RowFor(stats, t), Closed(runs), t);
      BookRun(runs, t);
      RowTracksFields(RowFor(stats, t), RowFor(r, t), kept, t);
    }
  }

  lemma BookRun(runs: seq<Run>, t: int)
    requires runs != [] && forall i :: 0 <= i < |runs| ==> runs[i] != []
    requires IsRun(runs[|runs| - 1])
    ensures var before, chain := ChainsOf(Closed(runs), t), ChainOf(runs[|runs| - 1]);
      ChainsOf(runs, t) == if chain.team != t then before
        else ChainTotals(before.chains + 1, before.events + chain.count,
                         before.progressive + if chain.endX - chain.startX >= 20.0 then 1 else 0)
  {
    var run := runs[|runs| - 1];
    assert SameSide(run[|run| - 1], run[0]);
  }

  lemma RowTracksFields(a: Row, b: Row, kept: seq<KeptEvent>, t: int)
    requires RowTracks(a, kept, t)
    requires b == a.(chains := b.chains, chainEvents := b.chainEvents, progressiveChains := b.progressiveChains)
    ensures RowTracks(b, kept, t)
  {
  }

  /** Whether the event opens a new chain, in terms of the open one. */
  predicate Opens(active: Option<Chain>, e: KeptEvent) {
    active.None? || active.value.match_ != e.match_ || active.value.team != e.team
  }

  function ActiveAfter(active: Option<Chain>, e: KeptEvent): Chain {
    if Opens(active, e) then Chain(e.match_, e.team, StartX(e), EndX(e), 1)
    else Chain(e.match_, e.team, active.value.startX, EndX(e), active.value.count + 1)
  }

  lemma RunsMore(kept: seq<KeptEvent>, e: KeptEvent, active: Option<Chain>)
    requires ActiveTracks(active, Runs(kept))
    ensures ActiveTracks(Some(ActiveAfter(active, e)), Runs(kept + [e]))
    ensures Closed(Runs(kept + [e])) == if Opens(active, e) then Runs(kept) else Closed(Runs(kept))
  {
    hide Runs;
    RunsLast(kept, e);
    var before := Runs(kept);
    if before != [] && !Opens(active, e) {
      var run := before[|before| - 1];
      var longer := Runs(kept + [e]);
      assert longer[|longer| - 1] == run + [e];
      assert (run + [e])[0] == run[0];
    }
  }

  lemma RunsLast(kept: seq<KeptEvent>, e: KeptEvent)
    ensures var before := Runs(kept);
      Runs(kept + [e])
      == if before != [] && SameSide(before[|before| - 1][|before[|before| - 1]| - 1], e)
         then before[..|before| - 1] + [before[|before| - 1] + [e]]
         else before + [[e]]
  {
    assert (kept + [e])[..|kept|] == kept;
  }

  lemma RunsAreRuns(kept: seq<KeptEvent>)
    ensures forall i :: 0 <= i < |Runs(kept)| ==> IsRun(Runs(kept)[i])
  {
    hide Concat;
    RunsAreMaximal(kept);
  }

  /** Everything the report is built from: cell counters and moves, team rows with every
      chain closed, and the expected-threat grid. */
  method BuildCompetition(events: seq<Event>) returns (slice: Slice, stats: Stats, xt: Grid)
    ensures CellsTrack(slice, KeptOf(events)) && slice.Nested()
    ensures StatsTrack(stats, KeptOf(events), Runs(KeptOf(events)))
    ensures exists k :: StopsAt(slice, k) && xt == Iterate(slice, k)
  {
    hide Runs, Closed, CellsTrack, StatsTrack, ActiveTracks, SliceAfter, RowAfter, Kept, IsPass, IsShot,
         IsCompleted, IsGoal, StopsAt, Iterate;
    slice := Slice(seq(CELLS, c => 0), seq(CELLS, c => 0), seq(CELLS, c => 0), []);
    stats := map[];
    var active: Option<Chain> := None;
    NothingTracked(slice, stats, active);
    for i := 0 to |events|
      invariant CellsTrack(slice, KeptOf(events[..i]))
      invariant StatsTrack(stats, KeptOf(events[..i]), Closed(Runs(KeptOf(events[..i]))))
      invariant ActiveTracks(active, Runs(KeptOf(events[..i])))
    {
      ghost var kept := KeptOf(events[..i]);
      KeptMore(events, i);
      if !Kept(events[i]) {
        continue;
      }
      var e: KeptEvent := events[i];
      RunsMore(kept, e, active);
      if Opens(active, e) {
        RunsAreRuns(kept);
        stats := CloseChain(stats, active, kept, Runs(kept));
      }
      active := Some(ActiveAfter(active, e));
      slice, stats := CountEvent(slice, stats, e, kept, Closed(Runs(kept + [e])));
    }
    assert events[..|events|] == events;
    RunsAreRuns(KeptOf(events));
    stats := CloseChain(stats, active, KeptOf(events), Runs(KeptOf(events)));
    TrackedIsNested(slice, KeptOf(events));
    xt := SolveXt(slice);
  }

  lemma KeptMore(events: seq<Event>, i: nat)
    requires i < |events|
    ensures KeptOf(events[..i + 1])
      == if Kept(events[i]) then KeptOf(events[..i]) + [events[i]] else KeptOf(events[..i])
  {
    assert events[..i + 1][..i] == events[..i];
  }

  lemma NothingTracked(slice: Slice, stats: Stats, active: Option<Chain>)
    requires slice == Slice(seq(CELLS, c => 0), seq(CELLS, c => 0), seq(CELLS, c => 0), [])
    requires stats == map[] && active == None
    ensures CellsTrack(slice, []) && StatsTrack(stats, [], Closed(Runs([]))) && ActiveTracks(active, Runs([]))
  {
  }

  lemma TrackedIsNested(slice: Slice, kept: seq<KeptEvent>)
    requires CellsTrack(slice, kept)
    ensures slice.Nested()
  {
    hide Count, Outgoing;
    forall c | 0 <= c < CELLS
      ensures slice.goals[c] <= slice.shots[c] && slice.shots[c] + Outgoing(slice.moves, c) <= slice.actions[c]
    {
      CellCountsNest(kept, c);
    }
  }

  /** The rest of the loop body: the cell counters and the team's row. */
  method CountEvent(slice: Slice, stats: Stats, e: KeptEvent, ghost kept: seq<KeptEvent>, ghost closed: seq<Run>)
    returns (slice': Slice, stats': Stats)
    requires forall i :: 0 <= i < |closed| ==> closed[i] != []
    requires CellsTrack(slice, kept) && StatsTrack(stats, kept, closed)
    ensures CellsTrack(slice', kept + [e]) && StatsTrack(stats', kept + [e], closed)
  {
    hide CellsTrack, StatsTrack, Bump;
    TrackedShape(slice, kept);
    var actions, shots, goals, moves := slice.actions, slice.shots, slice.goals, slice.moves;
    stats' := stats;
    var origin, row := Origin(e), RowFor(stats, e.team);
    if e.name == "Pass" {
      actions := actions[origin := actions[origin] + 1];
      row := row.(passes := row.passes + 1);
      if SUCCESSFUL in e.tags && |e.positions| > 1 {
        var destination := Destination(e);
        row := row.(completed := row.completed + 1);
        moves := Bump(moves, origin, destination);
        if EndX(e) - StartX(e) >= 20.0 {
          row := row.(progressivePasses := row.progressivePasses + 1);
        }
      }
      stats' := stats'[e.team := row];
    } else if IsShot(e) {
      actions := actions[origin := actions[origin] + 1];
      shots := shots[origin := shots[origin] + 1];
      row := row.(shots := row.shots + 1);
      if GOAL in e.tags {
        goals := goals[origin := goals[origin] + 1];
        row := row.(goals := row.goals + 1);
      }
      stats' := stats'[e.team := row];
    }
    slice' := Slice(actions, shots, goals, moves);
    assert slice' == SliceAfter(slice, e);
    assert row == RowAfter(RowFor(stats, e.team), e);
    CellsTrackMore(slice, kept, e);
    StatsTrackMore(stats, stats', kept, closed, e);
  }

  lemma TrackedShape(slice: Slice, kept: seq<KeptEvent>)
    requires CellsTrack(slice, kept)
    ensures slice.Shape()
  {
  }

  /** For every event stream, every iterate of its slice climbs towards, and stays in, the
      unit interval and below every non-negative solution of the equation. */
  lemma EveryStreamSolves(slice: Slice, kept: seq<KeptEvent>, k: nat, w: Grid)
    requires CellsTrack(slice, kept)
    requires |w| == CELLS && (forall c :: 0 <= c < CELLS ==> w[c] >= 0.0) && Step(slice, w) == w
    ensures InUnit(Iterate(slice, k)) && Below(Iterate(slice, k), Iterate(slice, k + 1)) && Below(Iterate(slice, k), w)
  {
    hide Step, CellsTrack;
    TrackedIsNested(slice, kept);
    IteratesClimb(slice, k);
    IteratesBelowSolutions(slice, k, w);
  }
}
