/** Events of the research pack: pitch cells, counted features, transition counters, chains. */
module EventStream {
  import opened Prelude
  import opened Ordering
  import opened Pairs
  import opened Sums

  const GRID_X: nat := 12
  const GRID_Y: nat := 8
  const CELLS: nat := GRID_X * GRID_Y
  const SUCCESSFUL: int := 1801
  const GOAL: int := 101

  // ---------------------------------------------------------------------
  // Events
  // ---------------------------------------------------------------------

  datatype Position = Position(x: Option<real>, y: Option<real>)

  /** Team and match ids are 0 when missing. */
  datatype Event = Event(team: int, match_: int, positions: seq<Position>, name: string, subName: string,
                         tags: set<int>)

  function Coordinate(x: Option<real>, default_: real): real { if x.Some? then x.value else default_ }

  function Clamp(x: real): (r: real)
    ensures 0.0 <= r <= 99.999
  {
    if x < 0.0 then 0.0 else if x > 99.999 then 99.999 else x
  }

  lemma Bucket(x: real, k: nat)
    requires 0.0 <= x <= 99.999 && 0 < k
    ensures 0 <= (x * (k as real) / 100.0).Floor < k
  {
    assert x * (k as real) <= 99.999 * (k as real);
  }

  function CellOf(p: Position): (cell: nat)
    ensures cell < CELLS
  {
    var x, y := Clamp(Coordinate(p.x, 0.0)), Clamp(Coordinate(p.y, 0.0));
    Bucket(x, GRID_X);
    Bucket(y, GRID_Y);
    (y * (GRID_Y as real) / 100.0).Floor * GRID_X + (x * (GRID_X as real) / 100.0).Floor
  }

  /** The pitch is cut into 12 columns and 8 rows: a position lies between the borders of its
      cell's column and row, missing coordinates at 0 and outlying ones moved to the edge. */
  lemma CellMeans(p: Position)
    ensures var x := if p.x.None? || p.x.value < 0.0 then 0.0 else if p.x.value > 99.999 then 99.999 else p.x.value;
      var y := if p.y.None? || p.y.value < 0.0 then 0.0 else if p.y.value > 99.999 then 99.999 else p.y.value;
      var column, row := CellOf(p) % 12, CellOf(p) / 12;
      && CellOf(p) == row * 12 + column && column < 12 && row < 8
      && (column as real) * 100.0 <= x * 12.0 < ((column + 1) as real) * 100.0
      && (row as real) * 100.0 <= y * 8.0 < ((row + 1) as real) * 100.0
  {
    var x, y := Clamp(Coordinate(p.x, 0.0)), Clamp(Coordinate(p.y, 0.0));
    Bucket(x, GRID_X);
    Bucket(y, GRID_Y);
    var across, up := x * (GRID_X as real), y * (GRID_Y as real);
    var column, row := (across / 100.0).Floor, (up / 100.0).Floor;
    assert CellOf(p) == row * GRID_X + column;
    Splits12(row, column);
    Borders(across);
    Borders(up);
    assert GRID_X as real == 12.0 && GRID_Y as real == 8.0;
  }

  lemma Splits12(row: int, column: int)
    requires 0 <= row && 0 <= column < 12
    ensures (row * 12 + column) % 12 == column && (row * 12 + column) / 12 == row
  {
  }

  lemma Borders(z: real)
    ensures var k := (z / 100.0).Floor; (k as real) * 100.0 <= z < ((k + 1) as real) * 100.0
  {
  }

  /** Events without a team or a position are skipped. */
  predicate Kept(e: Event) { e.team != 0 && e.positions != [] }

  type KeptEvent = e: Event | Kept(e) witness Event(1, 0, [Position(None, None)], "", "", {})

  function StartX(e: KeptEvent): real { Coordinate(e.positions[0].x, 0.0) }

  function EndX(e: KeptEvent): real { Coordinate(e.positions[|e.positions| - 1].x, StartX(e)) }

  function Origin(e: KeptEvent): (cell: nat)
    ensures cell < CELLS
  {
    CellOf(e.positions[0])
  }

  function Destination(e: KeptEvent): (cell: nat)
    ensures cell < CELLS
  {
    CellOf(e.positions[|e.positions| - 1])
  }

  predicate IsPass(e: Event) { e.name == "Pass" }

  predicate IsShot(e: Event) { e.name == "Shot" || e.subName == "Free kick shot" || e.subName == "Penalty" }

  predicate IsCompleted(e: Event) { IsPass(e) && SUCCESSFUL in e.tags && |e.positions| > 1 }

  predicate IsGoal(e: Event) { !IsPass(e) && IsShot(e) && GOAL in e.tags }

  // ---------------------------------------------------------------------
  // What each counter counts
  // ---------------------------------------------------------------------

  datatype Feature =
    | ActionIn(cell: nat) | ShotIn(cell: nat) | GoalIn(cell: nat)
    | Move(origin: nat, destination: nat) | MoveFrom(origin: nat)
    | By(team: int) | PassBy(team: int) | CompletedBy(team: int) | ProgressiveBy(team: int)
    | ShotBy(team: int) | GoalBy(team: int)

  predicate Shows(e: KeptEvent, f: Feature) {
    match f
    case ActionIn(c) => Origin(e) == c && (IsPass(e) || IsShot(e))
    case ShotIn(c) => Origin(e) == c && !IsPass(e) && IsShot(e)
    case GoalIn(c) => Origin(e) == c && IsGoal(e)
    case Move(o, d) => Origin(e) == o && Destination(e) == d && IsCompleted(e)
    case MoveFrom(o) => Origin(e) == o && IsCompleted(e)
    case By(t) => e.team == t
    case PassBy(t) => e.team == t && IsPass(e)
    case CompletedBy(t) => e.team == t && IsCompleted(e)
    case ProgressiveBy(t) => e.team == t && IsCompleted(e) && EndX(e) - StartX(e) >= 20.0
    case ShotBy(t) => e.team == t && !IsPass(e) && IsShot(e)
    case GoalBy(t) => e.team == t && IsGoal(e)
  }

  /** The features in the words of the feed: a pass is tagged 1801 when it succeeds, shots
      include free-kick shots and penalties, a goal is a shot tagged 101, and a pass is never
      also a shot. */
  lemma FeaturesMean(e: KeptEvent, cell: nat, o: nat, d: nat, t: int)
    ensures var pass := e.name == "Pass";
      var shot := !pass && (e.name == "Shot" || e.subName == "Free kick shot" || e.subName == "Penalty");
      var moved := pass && 1801 in e.tags && |e.positions| >= 2;
      var from, to := CellOf(e.positions[0]), CellOf(e.positions[|e.positions| - 1]);
      && (Shows(e, ActionIn(cell)) <==> from == cell && (pass || shot))
      && (Shows(e, ShotIn(cell)) <==> from == cell && shot)
      && (Shows(e, GoalIn(cell)) <==> from == cell && shot && 101 in e.tags)
      && (Shows(e, Move(o, d)) <==> from == o && to == d && moved)
      && (Shows(e, MoveFrom(o)) <==> from == o && moved)
      && (Shows(e, PassBy(t)) <==> e.team == t && pass)
      && (Shows(e, CompletedBy(t)) <==> e.team == t && moved)
      && (Shows(e, ShotBy(t)) <==> e.team == t && shot)
      && (Shows(e, GoalBy(t)) <==> e.team == t && shot && 101 in e.tags)
      && (Shows(e, ProgressiveBy(t)) <==> e.team == t && moved && EndX(e) - StartX(e) >= 20.0)
  {
    hide CellOf, StartX, EndX;
  }

  function Count(events: seq<KeptEvent>, f: Feature): nat {
    if events == [] then 0
    else Count(events[..|events| - 1], f) + if Shows(events[|events| - 1], f) then 1 else 0
  }

  function KeptOf(events: seq<Event>): seq<KeptEvent> {
    if events == [] then []
    else
      var last := events[|events| - 1];
      KeptOf(events[..|events| - 1]) + if Kept(last) then [last] else []
  }

  lemma CountMore(events: seq<KeptEvent>, e: KeptEvent, f: Feature)
    ensures Count(events + [e], f) == Count(events, f) + if Shows(e, f) then 1 else 0
  {
    assert (events + [e])[..|events|] == events;
  }

  /** For every stream: goals are shots, and a shot is never also an outgoing move. */
  lemma {:induction false} CellCountsNest(events: seq<KeptEvent>, cell: nat)
    ensures Count(events, GoalIn(cell)) <= Count(events, ShotIn(cell))
    ensures Count(events, ShotIn(cell)) + Count(events, MoveFrom(cell)) <= Count(events, ActionIn(cell))
  {
    if events != [] { CellCountsNest(events[..|events| - 1], cell); }
  }

  // ---------------------------------------------------------------------
  // Transition counters
  // ---------------------------------------------------------------------

  /** One entry of a counter, in order of first use. */
  datatype Entry = Entry(origin: nat, destination: nat, count: nat)

  type Counter = seq<Entry>

  function Bump(counter: Counter, o: nat, d: nat): Counter {
    if counter == [] then [Entry(o, d, 1)]
    else
      var n := |counter| - 1;
      var last := counter[n];
      if last.origin == o && last.destination == d then counter[..n] + [last.(count := last.count + 1)]
      else Bump(counter[..n], o, d) + [last]
  }

  function CountOf(counter: Counter, o: nat, d: nat): nat {
    if counter == [] then 0
    else
      var last := counter[|counter| - 1];
      CountOf(counter[..|counter| - 1], o, d) + if last.origin == o && last.destination == d then last.count else 0
  }

  function Outgoing(counter: Counter, o: nat): nat {
    if counter == [] then 0
    else
      var last := counter[|counter| - 1];
      Outgoing(counter[..|counter| - 1], o) + if last.origin == o then last.count else 0
  }

  lemma {:induction false} BumpCounts(counter: Counter, o: nat, d: nat, a: nat, b: nat)
    ensures CountOf(Bump(counter, o, d), a, b) == CountOf(counter, a, b) + if a == o && b == d then 1 else 0
    ensures Outgoing(Bump(counter, o, d), a) == Outgoing(counter, a) + if a == o then 1 else 0
  {
    var bumped := Bump(counter, o, d);
    if counter == [] {
      assert bumped[..0] == [];
    } else {
      var n := |counter| - 1;
      var last := counter[n];
      if last.origin == o && last.destination == d {
        assert bumped[..n] == counter[..n];
      } else {
        BumpCounts(counter[..n], o, d, a, b);
        assert bumped == Bump(counter[..n], o, d) + [last];
        var m := |bumped| - 1;
        assert bumped[..m] == Bump(counter[..n], o, d);
      }
    }
  }

  ghost predicate OneEntryEach(counter: Counter) {
    && (forall i, j :: 0 <= i < j < |counter| ==>
         counter[i].origin != counter[j].origin || counter[i].destination != counter[j].destination)
    && forall i :: 0 <= i < |counter| ==>
         counter[i].count > 0 && counter[i].origin < CELLS && counter[i].destination < CELLS
  }

  ghost predicate Has(counter: Counter, o: nat, d: nat) {
    exists i :: 0 <= i < |counter| && counter[i].origin == o && counter[i].destination == d
  }

  lemma HasMore(counter: Counter, last: Entry, o: nat, d: nat)
    ensures Has(counter + [last], o, d) <==> Has(counter, o, d) || (last.origin == o && last.destination == d)
  {
    var all := counter + [last];
    if last.origin == o && last.destination == d { assert all[|counter|] == last; }
    if i :| 0 <= i < |counter| && counter[i].origin == o && counter[i].destination == d { assert all[i] == counter[i]; }
  }

  lemma HasNone(o: nat, d: nat)
    ensures !Has([], o, d)
  {
  }

  lemma {:induction false} BumpHas(counter: Counter, o: nat, d: nat, a: nat, b: nat)
    ensures Has(Bump(counter, o, d), a, b) <==> Has(counter, a, b) || (a == o && b == d)
  {
    hide Has;
    if counter == [] {
      HasMore([], Entry(o, d, 1), a, b);
      HasNone(a, b);
      assert [] + [Entry(o, d, 1)] == Bump(counter, o, d);
    } else {
      var n := |counter| - 1;
      var last := counter[n];
      assert counter == counter[..n] + [last];
      HasMore(counter[..n], last, a, b);
      if last.origin == o && last.destination == d {
        HasMore(counter[..n], last.(count := last.count + 1), a, b);
      } else {
        BumpHas(counter[..n], o, d, a, b);
        HasMore(Bump(counter[..n], o, d), last, a, b);
      }
    }
  }

  lemma EntriesMore(counter: Counter, last: Entry)
    requires OneEntryEach(counter) && !Has(counter, last.origin, last.destination)
    requires last.count > 0 && last.origin < CELLS && last.destination < CELLS
    ensures OneEntryEach(counter + [last])
  {
  }

  lemma EntriesInit(counter: Counter)
    requires OneEntryEach(counter) && counter != []
    ensures var last := counter[|counter| - 1];
      && OneEntryEach(counter[..|counter| - 1]) && !Has(counter[..|counter| - 1], last.origin, last.destination)
      && last.count > 0 && last.origin < CELLS && last.destination < CELLS
  {
  }

  lemma {:induction false} BumpKeeps(counter: Counter, o: nat, d: nat)
    requires OneEntryEach(counter) && o < CELLS && d < CELLS
    ensures OneEntryEach(Bump(counter, o, d))
  {
    hide Has, OneEntryEach;
    if counter == [] {
      assert OneEntryEach(Bump(counter, o, d)) by { SingleEntry(Bump(counter, o, d)); }
    } else {
      var n := |counter| - 1;
      var last := counter[n];
      EntriesInit(counter);
      if last.origin == o && last.destination == d {
        EntriesMore(counter[..n], last.(count := last.count + 1));
      } else {
        BumpKeeps(counter[..n], o, d);
        BumpHas(counter[..n], o, d, last.origin, last.destination);
        EntriesMore(Bump(counter[..n], o, d), last);
      }
    }
  }

  lemma SingleEntry(counter: Counter)
    requires |counter| == 1 && counter[0].count > 0 && counter[0].origin < CELLS && counter[0].destination < CELLS
    ensures OneEntryEach(counter)
  {
  }

  // ---------------------------------------------------------------------
  // Chains: maximal same-match, same-team runs
  // ---------------------------------------------------------------------

  type Run = seq<KeptEvent>

  predicate SameSide(a: KeptEvent, b: KeptEvent) { a.match_ == b.match_ && a.team == b.team }

  /** The stream cut wherever the match or the team changes. */
  function Runs(events: seq<KeptEvent>): (runs: seq<Run>)
    ensures forall i :: 0 <= i < |runs| ==> runs[i] != []
  {
    if events == [] then []
    else
      var before := Runs(events[..|events| - 1]);
      var last := events[|events| - 1];
      if before != [] && SameSide(before[|before| - 1][|before[|before| - 1]| - 1], last)
      then before[..|before| - 1] + [before[|before| - 1] + [last]]
      else before + [[last]]
  }

  function Concat(runs: seq<Run>): seq<KeptEvent> {
    if runs == [] then [] else Concat(runs[..|runs| - 1]) + runs[|runs| - 1]
  }

  ghost predicate IsRun(run: Run) {
    run != [] && forall i :: 0 <= i < |run| ==> SameSide(run[i], run[0])
  }

  /** The events in order, cut into runs of one match and team that cannot be extended. */
  ghost predicate MaximalRuns(runs: seq<Run>, events: seq<KeptEvent>) {
    && Concat(runs) == events
    && (forall i :: 0 <= i < |runs| ==> IsRun(runs[i]))
    && forall i :: 0 < i < |runs| ==> !SameSide(runs[i - 1][0], runs[i][0])
  }

  lemma ConcatMore(runs: seq<Run>, run: Run)
    ensures Concat(runs + [run]) == Concat(runs) + run
  {
    assert (runs + [run])[..|runs|] == runs;
  }

  lemma MaximalLonger(runs: seq<Run>, events: seq<KeptEvent>, e: KeptEvent)
    requires runs != [] && MaximalRuns(runs, events)
    requires var last := runs[|runs| - 1]; last != [] && SameSide(last[|last| - 1], e)
    ensures var k := |runs| - 1; MaximalRuns(runs[..k] + [runs[k] + [e]], events + [e])
  {
    hide Concat, SameSide;
    var k := |runs| - 1;
    var front, last := runs[..k], runs[k];
    assert runs == front + [last];
    ConcatMore(front, last);
    ConcatMore(front, last + [e]);
    var longer := last + [e];
    SameSideTransitive(last[|last| - 1], e, last[0]);
    assert longer[0] == last[0];
    assert forall i :: 0 <= i < |last| ==> longer[i] == last[i];
    assert IsRun(longer);
    assert Concat(front + [longer]) == events + [e];
  }

  lemma MaximalMore(runs: seq<Run>, events: seq<KeptEvent>, e: KeptEvent)
    requires MaximalRuns(runs, events)
    requires runs != [] ==> var last := runs[|runs| - 1]; last != [] && !SameSide(last[|last| - 1], e)
    ensures MaximalRuns(runs + [[e]], events + [e])
  {
    hide Concat, SameSide;
    ConcatMore(runs, [e]);
    SameSideReflexive(e);
    if runs != [] {
      var last := runs[|runs| - 1];
      assert IsRun(last);
      SameSideTransitive(last[|last| - 1], e, last[0]);
    }
  }

  lemma {:induction false} RunsAreMaximal(events: seq<KeptEvent>)
    ensures MaximalRuns(Runs(events), events)
  {
    hide Concat, SameSide, MaximalRuns;
    if events == [] {
      NoRuns();
    } else {
      var init, e := events[..|events| - 1], events[|events| - 1];
      RunsAreMaximal(init);
      var before := Runs(init);
      assert events == init + [e];
      if before != [] && SameSide(before[|before| - 1][|before[|before| - 1]| - 1], e) {
        MaximalLonger(before, init, e);
      } else {
        MaximalMore(before, init, e);
      }
    }
  }

  lemma NoRuns()
    ensures MaximalRuns([], [])
  {
  }

  lemma ConcatNone()
    ensures Concat([]) == []
  {
  }

  lemma SameSideReflexive(e: KeptEvent)
    ensures SameSide(e, e)
  {
  }

  lemma SameSideTransitive(a: KeptEvent, b: KeptEvent, c: KeptEvent)
    requires SameSide(a, c)
    ensures SameSide(a, b) <==> SameSide(b, c)
    ensures SameSide(a, b) <==> SameSide(c, b)
  {
  }

  /** The events determine their cut into maximal runs. */
  lemma {:induction false} MaximalRunsUnique(a: seq<Run>, b: seq<Run>, events: seq<KeptEvent>)
    requires MaximalRuns(a, events) && MaximalRuns(b, events)
    ensures a == b
    decreases |a|
  {
    hide Concat, SameSide;
    if a == [] {
      ConcatNone();
      if b != [] { ConcatLonger(b); }
    } else {
      ConcatLonger(a);
      if b == [] {
        ConcatNone();
      } else {
        ConcatLonger(b);
        LastRunLength(a, b, events);
        LastRunLength(b, a, events);
        var x, y := a[|a| - 1], b[|b| - 1];
        assert events[|events| - |x|..] == x && events[|events| - |y|..] == y;
        MaximalRunsUnique(a[..|a| - 1], b[..|b| - 1], events[..|events| - |x|]);
      }
    }
  }

  lemma ConcatLonger(runs: seq<Run>)
    requires runs != [] && runs[|runs| - 1] != []
    ensures var last := runs[|runs| - 1];
      && |Concat(runs)| >= |last| > 0
      && Concat(runs) == Concat(runs[..|runs| - 1]) + last
      && Concat(runs)[..|Concat(runs)| - |last|] == Concat(runs[..|runs| - 1])
  {
  }

  /** The last run starts at a change of side. */
  lemma ChangeBeforeLast(runs: seq<Run>, events: seq<KeptEvent>)
    requires MaximalRuns(runs, events) && runs != []
    ensures var k := |events| - |runs[|runs| - 1]|; k > 0 ==> k < |events| && !SameSide(events[k - 1], events[k])
    ensures |runs[|runs| - 1]| <= |events|
  {
    hide Concat, SameSide;
    ConcatLonger(runs);
    var front, last := runs[..|runs| - 1], runs[|runs| - 1];
    if front == [] {
      ConcatNone();
    } else {
      ConcatLonger(front);
      var k := |events| - |last|;
      var z := front[|front| - 1];
      assert z == runs[|runs| - 2];
      assert events[k] == last[0] && events[k - 1] == z[|z| - 1];
      SameSideTransitive(z[|z| - 1], last[0], z[0]);
    }
  }

  lemma NoChangeInsideLast(runs: seq<Run>, events: seq<KeptEvent>, k: nat)
    requires MaximalRuns(runs, events) && runs != []
    requires |events| - |runs[|runs| - 1]| < k < |events|
    ensures SameSide(events[k - 1], events[k])
  {
    hide Concat;
    ConcatLonger(runs);
    var last := runs[|runs| - 1];
    var from := |events| - |last|;
    assert events[k] == last[k - from] && events[k - 1] == last[k - 1 - from];
  }

  /** The last run of one cut is no longer than that of another: it would otherwise reach
      across a change of side. */
  lemma LastRunLength(a: seq<Run>, b: seq<Run>, events: seq<KeptEvent>)
    requires MaximalRuns(a, events) && MaximalRuns(b, events) && a != [] && b != []
    ensures |a[|a| - 1]| <= |b[|b| - 1]|
  {
    hide Concat, MaximalRuns, SameSide;
    ChangeBeforeLast(a, events);
    ChangeBeforeLast(b, events);
    if |a[|a| - 1]| > |b[|b| - 1]| { NoChangeInsideLast(a, events, |events| - |b[|b| - 1]|); }
  }

  datatype ChainTotals = ChainTotals(chains: nat, events: nat, progressive: nat)

  /** What one team's finished chains add up to. */
  function ChainsOf(runs: seq<Run>, team: int): ChainTotals
    requires forall i :: 0 <= i < |runs| ==> runs[i] != []
  {
    if runs == [] then ChainTotals(0, 0, 0)
    else
      var before, run := ChainsOf(runs[..|runs| - 1], team), runs[|runs| - 1];
      if run[0].team == team then
        ChainTotals(before.chains + 1, before.events + |run|,
                    before.progressive + if EndX(run[|run| - 1]) - StartX(run[0]) >= 20.0 then 1 else 0)
      else before
  }

  function OfTeam(team: int): Run -> bool { (run: Run) => run != [] && run[0].team == team }

  /** A team's chain that gains at least 20 from its first start to its last end. */
  function Gaining(team: int): Run -> bool {
    (run: Run) => run != [] && run[0].team == team && EndX(run[|run| - 1]) - StartX(run[0]) >= 20.0
  }

  /** The totals count a team's chains, and those of them that gain. */
  lemma {:induction false} ChainsMean(runs: seq<Run>, team: int)
    requires forall i :: 0 <= i < |runs| ==> runs[i] != []
    ensures ChainsOf(runs, team).chains == CountWhere(runs, OfTeam(team))
    ensures ChainsOf(runs, team).progressive == CountWhere(runs, Gaining(team))
  {
    hide StartX, EndX;
    if runs != [] { ChainsMean(runs[..|runs| - 1], team); }
  }

  lemma {:induction false} CountRun(run: Run, team: int)
    requires IsRun(run)
    ensures Count(run, By(team)) == if run[0].team == team then |run| else 0
  {
    if |run| > 1 { CountRun(run[..|run| - 1], team); } else { assert run[..0] == []; }
  }

  lemma {:induction false} CountConcat(a: seq<KeptEvent>, b: seq<KeptEvent>, f: Feature)
    ensures Count(a + b, f) == Count(a, f) + Count(b, f)
  {
    if b == [] {
      assert a + b == a;
    } else {
      CountConcat(a, b[..|b| - 1], f);
      assert a + b == (a + b[..|b| - 1]) + [b[|b| - 1]];
      CountMore(a + b[..|b| - 1], b[|b| - 1], f);
    }
  }

  /** A team's chains hold each of its events once. */
  lemma {:induction false} ChainsHoldEvents(runs: seq<Run>, events: seq<KeptEvent>, team: int)
    requires MaximalRuns(runs, events)
    ensures ChainsOf(runs, team).events == Count(events, By(team))
  {
    hide Count, IsRun, SameSide;
    if runs == [] {
      assert Count([], By(team)) == 0 by { CountNone(By(team)); }
    } else {
      var init, run := runs[..|runs| - 1], runs[|runs| - 1];
      ChainsHoldEvents(init, Concat(init), team);
      CountConcat(Concat(init), run, By(team));
      CountRun(run, team);
    }
  }

  lemma CountNone(f: Feature)
    ensures Count([], f) == 0
  {
  }

  /** Over any list of distinct teams that covers the stream, chain events add up to all
      kept events. */
  lemma {:induction false} ChainEventsAddUp(teams: seq<int>, events: seq<KeptEvent>)
    requires Distinct(teams)
    requires forall i :: 0 <= i < |events| ==> events[i].team in teams
    ensures SumBy(teams, (t: int) => ChainsOf(Runs(events), t).events) == |events|
  {
    hide Count, Runs, ChainsOf;
    RunsAreMaximal(events);
    forall t: int ensures ChainsOf(Runs(events), t).events == Count(events, By(t)) {
      ChainsHoldEvents(Runs(events), events, t);
    }
    SumSame(teams, (t: int) => ChainsOf(Runs(events), t).events, (t: int) => Count(events, By(t)));
    TeamCountsAddUp(teams, events);
  }

  lemma {:induction false} SumSame(teams: seq<int>, f: int -> int, g: int -> int)
    requires forall t :: f(t) == g(t)
    ensures SumBy(teams, f) == SumBy(teams, g)
  {
    if teams != [] { SumSame(teams[..|teams| - 1], f, g); }
  }

  lemma {:induction false} TeamCountsAddUp(teams: seq<int>, events: seq<KeptEvent>)
    requires Distinct(teams)
    requires forall i :: 0 <= i < |events| ==> events[i].team in teams
    ensures SumBy(teams, (t: int) => Count(events, By(t))) == |events|
  {
    if events == [] {
      SumZero(teams, (t: int) => Count(events, By(t)));
    } else {
      var init, e := events[..|events| - 1], events[|events| - 1];
      TeamCountsAddUp(teams, init);
      SumIndicator(teams, e.team);
      SumSplit(teams, (t: int) => Count(init, By(t)), (t: int) => if t == e.team then 1 else 0,
        (t: int) => Count(events, By(t)));
    }
  }

  lemma {:induction false} SumZero(teams: seq<int>, f: int -> int)
    requires forall t :: t in teams ==> f(t) == 0
    ensures SumBy(teams, f) == 0
  {
    if teams != [] {
      var init, last := teams[..|teams| - 1], teams[|teams| - 1];
      assert teams == init + [last];
      SumZero(init, f);
    }
  }

  lemma {:induction false} SumIndicator(teams: seq<int>, team: int)
    requires Distinct(teams)
    ensures SumBy(teams, (t: int) => if t == team then 1 else 0) == if team in teams then 1 else 0
  {
    if teams != [] {
      var init, last := teams[..|teams| - 1], teams[|teams| - 1];
      SumIndicator(init, team);
      assert teams == init + [last];
      assert last !in init;
    }
  }
}
