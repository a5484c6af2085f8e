/**
  The viewer's state and its updaters (web/src/state/store.ts): a loaded log
  is a list of steps, one per turn, and a list of snapshots, one more than
  the steps; a pointer picks the current step, and an auto-play flag lets a
  timer advance it. Every updater returns a new state from the previous one.
 */
module ViewerStore {
  import opened Wrappers
  import opened Lists
  import opened LogTypes
  import opened BoardState

  datatype ViewerState = ViewerState(
    loading: bool,
    error: Option<string>,
    players: seq<string>,
    steps: seq<ViewerStep>,
    pointer: int,
    snapshots: seq<Snapshot>,
    auto: bool)

  /** The state before any log is loaded. */
  const Initial: ViewerState := ViewerState(false, None, [], [], -1, [], false)

  /** With no steps the pointer is -1; otherwise it names a step. */
  predicate Valid(s: ViewerState)
  {
    if s.steps == [] then s.pointer == -1 else 0 <= s.pointer < |s.steps|
  }

  /** Snapshot `k + 1` is the board after the turn of step `k`. */
  predicate Aligned(s: ViewerState)
  {
    |s.snapshots| == |s.steps| + 1 &&
    forall k :: 0 <= k < |s.steps| ==> s.snapshots[k + 1].turnNumber == s.steps[k].turnNumber
  }

  // ---------------------------------------------------------------------
  // Loading
  // ---------------------------------------------------------------------

  /** `(log.players || []).filter(Boolean)`. */
  function NonEmpty(ps: seq<string>): (r: seq<string>)
    ensures forall x :: x in r <==> x in ps && x != []
  {
    if ps == [] then []
    else NonEmpty(ps[..|ps| - 1]) + (if ps[|ps| - 1] != [] then [ps[|ps| - 1]] else [])
  }

  /** The non-empty names keep their order: of two of them, the one first
      seen earlier in the filtered list is also first seen earlier in the
      whole list. */
  lemma {:induction false} NonEmptyOrder(ps: seq<string>, x: string, y: string)
    requires x in NonEmpty(ps) && y in NonEmpty(ps)
    requires FirstIndex(NonEmpty(ps), x) < FirstIndex(NonEmpty(ps), y)
    ensures FirstIndex(ps, x) < FirstIndex(ps, y)
  {
    var n := |ps| - 1;
    var init, last := ps[..n], ps[n];
    assert ps == init + [last];
    var r := NonEmpty(init);
    assert r <= NonEmpty(ps);
    if last == [] || y in r {
      var fx := FirstIndex(NonEmpty(ps), x);
      assert NonEmpty(ps)[fx] == x;
      if last != [] {
        assert NonEmpty(ps) == r + [last];
        FirstIndexOfPrefix(NonEmpty(ps), |r|, y);
        assert fx < |r|;
        assert x in NonEmpty(ps)[..|r|];
        FirstIndexOfPrefix(NonEmpty(ps), |r|, x);
        assert NonEmpty(ps)[..|r|] == r;
      }
      NonEmptyOrder(init, x, y);
      FirstIndexOfPrefix(ps, n, x);
      FirstIndexOfPrefix(ps, n, y);
    } else {
      assert NonEmpty(ps) == r + [last];
      assert y == last && y !in init;
      var fx := FirstIndex(NonEmpty(ps), x);
      assert fx < |r| && NonEmpty(ps)[fx] == r[fx];
      assert x in init;
      FirstIndexOfPrefix(ps, n, x);
      assert FirstIndex(ps, y) == n;
    }
  }

  /** `Array.from(new Set((log.players || []).filter(Boolean)))`: the
      distinct non-empty names in the order each is first listed. */
  function LoadedPlayers(log: ParsedLog): (r: seq<string>)
    ensures Distinct(r)
    ensures forall x :: x in r <==> x in log.players && x != []
    ensures forall i, j :: 0 <= i < j < |r| ==> FirstIndex(log.players, r[i]) < FirstIndex(log.players, r[j])
  {
    LoadedOrder(log.players);
    Dedup(NonEmpty(log.players))
  }

  lemma LoadedOrder(ps: seq<string>)
    ensures forall i, j :: 0 <= i < j < |Dedup(NonEmpty(ps))| ==>
      FirstIndex(ps, Dedup(NonEmpty(ps))[i]) < FirstIndex(ps, Dedup(NonEmpty(ps))[j])
  {
    var r := Dedup(NonEmpty(ps));
    forall i, j | 0 <= i < j < |r|
      ensures FirstIndex(ps, r[i]) < FirstIndex(ps, r[j])
    {
      DedupFirstSeenOrder(NonEmpty(ps), i, j);
      NonEmptyOrder(ps, r[i], r[j]);
    }
  }

  /** The first loaded player, who decides every snapshot's side, is the
      first non-empty name of the log. */
  lemma LoadedFirstPlayer(log: ParsedLog, i: nat)
    requires i < |log.players| && log.players[i] != []
    requires forall j :: 0 <= j < i ==> log.players[j] == []
    ensures LoadedPlayers(log) != [] && LoadedPlayers(log)[0] == log.players[i]
  {
    var r := LoadedPlayers(log);
    var x := log.players[i];
    assert x in r;
    var k :| 0 <= k < |r| && r[k] == x;
    assert r[0] in r && r[0] != [];
    var f := FirstIndex(log.players, r[0]);
    assert log.players[f] == r[0] && i <= f;
    assert FirstIndex(log.players, x) <= i;
    assert k == 0;
  }

  /** The state `loadParsedLog` sets, given the snapshots built for it. */
  function Loaded(log: ParsedLog, render: ParsedAction -> string, snapshots: seq<Snapshot>): (s: ViewerState)
    ensures Valid(s) && !s.loading && !s.auto && s.error.None?
    ensures |s.steps| == |log.turns|
    ensures s.pointer == if log.turns == [] then -1 else 0
    ensures s.players == LoadedPlayers(log)
    ensures s.steps == BuildSteps(log, LoadedPlayers(log), render)
    ensures s.snapshots == snapshots
  {
    var players := LoadedPlayers(log);
    var steps := BuildSteps(log, players, render);
    ViewerState(false, None, players, steps, if |steps| > 0 then 0 else -1, snapshots, false)
  }

  /** `loadParsedLog(log)`: the steps and snapshots of the log for its
      listed players, the pointer on the first step, auto-play off. */
  method LoadParsedLog(log: ParsedLog, render: ParsedAction -> string) returns (s: ViewerState)
    ensures s == Loaded(log, render, s.snapshots)
    ensures Aligned(s)
    ensures forall k :: 0 <= k < |s.snapshots| ==>
      fresh(s.snapshots[k].board) && s.snapshots[k].board.View() == SnapshotTables(log, s.players)[k]
  {
    var players := LoadedPlayers(log);
    var steps := BuildSteps(log, players, render);
    var snapshots := BuildSnapshots(log, players);
    s := ViewerState(false, None, players, steps, if |steps| > 0 then 0 else -1, snapshots, false);
  }

  // ---------------------------------------------------------------------
  // Navigation
  // ---------------------------------------------------------------------

  /** `next()`. */
  function Next(s: ViewerState): ViewerState
  {
    if s.loading || s.pointer >= |s.steps| - 1 then s.(auto := false)
    else s.(pointer := s.pointer + 1, auto := if s.pointer + 1 >= |s.steps| - 1 then false else s.auto)
  }

  /** `prev()`. */
  function Prev(s: ViewerState): ViewerState
  {
    if s.loading || s.pointer <= 0 then s
    else s.(pointer := s.pointer - 1, auto := false)
  }

  /** `toggleAuto()`. */
  function ToggleAuto(s: ViewerState): ViewerState
  {
    if s.loading || |s.steps| == 0 then s
    else if s.pointer >= |s.steps| - 1 then s
    else s.(auto := !s.auto)
  }

  /** One tick of the auto-play timer. */
  function Tick(s: ViewerState): ViewerState
  {
    if s.loading || |s.steps| == 0 then s
    else if s.pointer >= |s.steps| - 1 then s.(auto := false)
    else s.(pointer := s.pointer + 1)
  }

  /** `k` ticks in a row. */
  function Ticks(s: ViewerState, k: nat): ViewerState
  {
    if k == 0 then s else Tick(Ticks(s, k - 1))
  }

  // ---------------------------------------------------------------------
  // Derived values
  // ---------------------------------------------------------------------

  function HasNext(s: ViewerState): bool
  {
    s.pointer < |s.steps| - 1
  }

  function HasPrev(s: ViewerState): bool
  {
    s.pointer > 0
  }

  /** `steps[pointer] ?? null` for a pointer that is not negative. */
  function CurrentStep(s: ViewerState): (r: Option<ViewerStep>)
    ensures Valid(s) ==> (r.Some? <==> s.steps != [])
    ensures r.Some? ==> 0 <= s.pointer < |s.steps| && r.value == s.steps[s.pointer]
  {
    if s.pointer >= 0 && s.pointer < |s.steps| then Some(s.steps[s.pointer]) else None
  }

  /** `snapshots[pointer + 1] ?? snapshots[pointer] ?? null`, or
      `snapshots[0] ?? null` for a negative pointer. */
  function CurrentSnapshot(s: ViewerState): (r: Option<Snapshot>)
    ensures Valid(s) && Aligned(s) ==> r == Some(s.snapshots[s.pointer + 1])
  {
    if s.pointer >= 0 then
      if s.pointer + 1 < |s.snapshots| then Some(s.snapshots[s.pointer + 1])
      else if s.pointer < |s.snapshots| then Some(s.snapshots[s.pointer])
      else None
    else if |s.snapshots| > 0 then Some(s.snapshots[0])
    else None
  }

  // ---------------------------------------------------------------------
  // Properties
  // ---------------------------------------------------------------------

  /** `next` at the last step, or while loading, only stops auto-play;
      otherwise it moves one step on and stops auto-play once that is the
      last step. */
  lemma NextFacts(s: ViewerState)
    ensures var r := Next(s);
      r.steps == s.steps && r.snapshots == s.snapshots && r.players == s.players && r.loading == s.loading &&
      (s.loading || !HasNext(s) ==> r.pointer == s.pointer && !r.auto) &&
      (!s.loading && HasNext(s) ==> r.pointer == s.pointer + 1 && (r.auto <==> s.auto && HasNext(r)))
  {
  }

  /** `prev` moves one step back, stopping auto-play, unless it is loading
      or on the first step, where it changes nothing. */
  lemma PrevFacts(s: ViewerState)
    ensures var r := Prev(s);
      (s.loading || !HasPrev(s) ==> r == s) &&
      (!s.loading && HasPrev(s) ==> r == s.(pointer := s.pointer - 1, auto := false))
  {
  }

  /** `toggleAuto` flips auto-play exactly when there is a next step and it
      is not loading, and changes nothing else. */
  lemma ToggleAutoFacts(s: ViewerState)
    ensures var r := ToggleAuto(s);
      r == s.(auto := r.auto) && (r.auto != s.auto <==> !s.loading && HasNext(s) && s.steps != [])
  {
  }

  /** Every updater keeps the pointer on a step, or at -1 with no steps,
      and leaves the steps and snapshots alone. */
  lemma UpdatersKeepValid(s: ViewerState)
    requires Valid(s) && Aligned(s)
    ensures Valid(Next(s)) && Valid(Prev(s)) && Valid(ToggleAuto(s)) && Valid(Tick(s))
    ensures Aligned(Next(s)) && Aligned(Prev(s)) && Aligned(ToggleAuto(s)) && Aligned(Tick(s))
  {
  }

  /** Any run of updates from a valid state keeps it valid. */
  datatype Update = NextStep | PrevStep | Toggle | TimerTick

  function Run(s: ViewerState, us: seq<Update>): ViewerState
  {
    if us == [] then s
    else
      var r := Run(s, us[..|us| - 1]);
      match us[|us| - 1]
      case NextStep => Next(r)
      case PrevStep => Prev(r)
      case Toggle => ToggleAuto(r)
      case TimerTick => Tick(r)
  }

  lemma {:induction false} RunKeepsValid(s: ViewerState, us: seq<Update>)
    requires Valid(s) && Aligned(s)
    ensures Valid(Run(s, us)) && Aligned(Run(s, us))
    ensures Run(s, us).steps == s.steps
  {
    if us != [] {
      RunKeepsValid(s, us[..|us| - 1]);
      UpdatersKeepValid(Run(s, us[..|us| - 1]));
    }
  }

  /** Going one step on and one step back returns to the same step. */
  lemma NextThenPrev(s: ViewerState)
    requires Valid(s) && !s.loading && HasNext(s)
    ensures Prev(Next(s)) == s.(auto := false)
  {
  }

  /** Going one step back and one step on returns to the same step. */
  lemma PrevThenNext(s: ViewerState)
    requires Valid(s) && !s.loading && HasPrev(s)
    ensures Next(Prev(s)) == s.(auto := false)
  {
  }

  /** Ticks move the pointer one step at a time up to the last step. */
  lemma {:induction false} TicksAdvance(s: ViewerState, k: nat)
    requires Valid(s) && !s.loading && s.steps != [] && s.pointer + k <= |s.steps| - 1
    ensures Ticks(s, k) == s.(pointer := s.pointer + k)
  {
    if k > 0 {
      TicksAdvance(s, k - 1);
    }
  }

  /** Auto-play ends: from any step, the ticks that reach the last step and
      one more leave the pointer on the last step with auto-play off. */
  lemma AutoPlayStops(s: ViewerState)
    requires Valid(s) && !s.loading && s.steps != []
    ensures var r := Ticks(s, |s.steps| - s.pointer);
      r.pointer == |s.steps| - 1 && !r.auto
  {
    TicksAdvance(s, |s.steps| - 1 - s.pointer);
  }

  /** The tick that reaches the last step leaves auto-play on; only the
      next tick turns it off. */
  lemma TickReachesLastWithAuto(s: ViewerState)
    requires Valid(s) && !s.loading && s.auto && s.pointer == |s.steps| - 2
    ensures Tick(s).auto && !HasNext(Tick(s)) && !Tick(Tick(s)).auto
  {
  }

  /** Right after a load the first step is current, and the snapshot shown
      is the board after that step's turn; with no turns it is snapshot 0. */
  lemma LoadedShowsFirstStep(log: ParsedLog, render: ParsedAction -> string, snapshots: seq<Snapshot>)
    requires Aligned(Loaded(log, render, snapshots))
    ensures var s := Loaded(log, render, snapshots);
      CurrentSnapshot(s) == Some(snapshots[if log.turns == [] then 0 else 1]) &&
      (log.turns != [] ==> CurrentStep(s) == Some(s.steps[0]) && !HasPrev(s) && (HasNext(s) <==> |log.turns| > 1))
  {
    var s := Loaded(log, render, snapshots);
    assert CurrentSnapshot(s) == Some(s.snapshots[s.pointer + 1]);
  }

  /** The current snapshot is the board after the current step's turn. */
  lemma SnapshotMatchesStep(s: ViewerState)
    requires Valid(s) && Aligned(s) && s.steps != []
    ensures CurrentStep(s).Some? && CurrentSnapshot(s).Some?
    ensures CurrentSnapshot(s).value.turnNumber == CurrentStep(s).value.turnNumber
  {
  }
}
