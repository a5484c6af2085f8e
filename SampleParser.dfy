/**
  `parseLog` of the sample-log script (parse_logsample.js): the same
  segmentation as the viewer's parser over the trimmed, non-empty lines,
  every turn line classified, the setup players extracted, and a summary
  folded over all actions. Also `safeName`, which turns a file name into
  the name of its output file.
 */
module SampleParser {
  import opened Wrappers
  import opened Text
  import opened Lists
  import opened Patterns
  import opened TurnHeader
  import opened LogLines
  import opened Segmentation
  import opened PlayerNames
  import opened Classifier

  /** The verbs of the script's player-line pattern. */
  const ScriptVerbs: seq<string> := ["chose", "won", "decided", "drew", "played", "attached", "evolved", "used", "is now"]

  // ---------------------------------------------------------------------
  // Segmentation
  // ---------------------------------------------------------------------

  /** The two loops of `parseLog` over the pieces of `text.split(/\r?\n/)`:
      each piece is trimmed and skipped when empty; the header pattern and
      the action builder are passed in (the script uses `ParseTurnHeader`
      and `Classify`). */
  method SplitLog<A>(pieces: seq<string>, hdr: string -> Option<Header>, act: string -> A)
    returns (setup: seq<string>, turns: seq<Turn<A>>)
    ensures Segmented(setup, turns) == Segment(NonEmptyTrimmed(pieces), hdr, act)
  {
    var i;
    setup, i := ReadSetupLines(pieces, hdr, act);
    var current: Option<Turn<A>>;
    setup, turns, current := ReadTurnLines(pieces, hdr, act, i, setup);
    if current.Some? {
      turns := turns + [current.value];
    }
  }

  /** One more piece: skipped when it trims to nothing, one segmentation
      step on its trimmed form otherwise. */
  lemma PieceStep<A>(pieces: seq<string>, i: nat, hdr: string -> Option<Header>, act: string -> A)
    requires i < |pieces|
    ensures var ln := Trim(pieces[i]);
      Segment(NonEmptyTrimmed(pieces[..i + 1]), hdr, act) ==
        if ln == [] then Segment(NonEmptyTrimmed(pieces[..i]), hdr, act)
        else SegStep(Segment(NonEmptyTrimmed(pieces[..i]), hdr, act), ln, hdr(ln), act(ln))
  {
    NonEmptyTrimmedSnoc(pieces, i);
    var ln := Trim(pieces[i]);
    if ln != [] {
      assert NonEmptyTrimmed(pieces[..i + 1]) == NonEmptyTrimmed(pieces[..i]) + [ln];
      SegmentSnoc(NonEmptyTrimmed(pieces[..i]), ln, hdr, act);
    } else {
      assert NonEmptyTrimmed(pieces[..i + 1]) == NonEmptyTrimmed(pieces[..i]);
    }
  }

  /** The segmentation of the first `n` pieces, one piece at a time. */
  function PiecesSegment<A>(pieces: seq<string>, n: nat, hdr: string -> Option<Header>, act: string -> A): (r: Segmented<A>)
    requires n <= |pieces|
    ensures r == Segment(NonEmptyTrimmed(pieces[..n]), hdr, act)
  {
    if n == 0 then Segmented([], [])
    else
      var ln := Trim(pieces[n - 1]);
      PieceStep(pieces, n - 1, hdr, act);
      var prev := PiecesSegment(pieces, n - 1, hdr, act);
      if ln == [] then prev else SegStep(prev, ln, hdr(ln), act(ln))
  }

  /** "collect setup until first turn". */
  method ReadSetupLines<A>(pieces: seq<string>, hdr: string -> Option<Header>, act: string -> A)
    returns (setup: seq<string>, i: nat)
    ensures i <= |pieces| && PiecesSegment(pieces, i, hdr, act) == Segmented(setup, [])
  {
    setup := [];
    i := 0;
    while i < |pieces|
      invariant 0 <= i <= |pieces|
      invariant PiecesSegment(pieces, i, hdr, act) == Segmented(setup, [])
    {
      var ln := Trim(pieces[i]);
      if ln != [] && hdr(ln).Some? {
        break;
      }
      SetupPiece(pieces, i, hdr, act, setup);
      if ln != [] {
        setup := setup + [ln];
      }
      i := i + 1;
    }
  }

  /** A piece before the first header adds its trimmed form to the setup,
      unless that is empty. */
  lemma SetupPiece<A>(pieces: seq<string>, i: nat, hdr: string -> Option<Header>, act: string -> A, setup: seq<string>)
    requires i < |pieces| && PiecesSegment(pieces, i, hdr, act) == Segmented(setup, [])
    requires Trim(pieces[i]) == [] || hdr(Trim(pieces[i])).None?
    ensures PiecesSegment(pieces, i + 1, hdr, act) ==
      Segmented(if Trim(pieces[i]) == [] then setup else setup + [Trim(pieces[i])], [])
  {
    var ln := Trim(pieces[i]);
    assert PiecesSegment(pieces, i + 1, hdr, act) ==
      if ln == [] then PiecesSegment(pieces, i, hdr, act) else SegStep(Segmented(setup, []), ln, hdr(ln), act(ln));
  }

  /** "parse turns", from piece `i0` on. */
  method ReadTurnLines<A>(pieces: seq<string>, hdr: string -> Option<Header>, act: string -> A, i0: nat, setup0: seq<string>)
    returns (setup: seq<string>, turns: seq<Turn<A>>, current: Option<Turn<A>>)
    requires i0 <= |pieces| && PiecesSegment(pieces, i0, hdr, act) == Segmented(setup0, [])
    ensures Segment(NonEmptyTrimmed(pieces), hdr, act) == Segmented(setup, Close(turns, current))
  {
    setup, turns, current := setup0, [], None;
    var i := i0;
    while i < |pieces|
      invariant i0 <= i <= |pieces|
      invariant PiecesSegment(pieces, i, hdr, act) == Segmented(setup, Close(turns, current))
      invariant current.None? ==> turns == []
    {
      setup, turns, current := ReadTurnPiece(pieces, i, hdr, act, setup, turns, current);
      i := i + 1;
    }
    assert PiecesSegment(pieces, i, hdr, act) == Segment(NonEmptyTrimmed(pieces[..i]), hdr, act);
    assert pieces[..i] == pieces;
  }

  /** The body of the second loop: piece `i` trimmed, and skipped when that
      leaves nothing. */
  method ReadTurnPiece<A>(pieces: seq<string>, i: nat, hdr: string -> Option<Header>, act: string -> A,
                          setup0: seq<string>, turns0: seq<Turn<A>>, current0: Option<Turn<A>>)
    returns (setup: seq<string>, turns: seq<Turn<A>>, current: Option<Turn<A>>)
    requires i < |pieces| && PiecesSegment(pieces, i, hdr, act) == Segmented(setup0, Close(turns0, current0))
    requires current0.None? ==> turns0 == []
    ensures PiecesSegment(pieces, i + 1, hdr, act) == Segmented(setup, Close(turns, current))
    ensures current.None? ==> turns == []
  {
    var raw := Trim(pieces[i]);
    setup, turns, current := setup0, turns0, current0;
    if raw != [] {
      setup, turns, current := ReadTurnLine(raw, hdr, act, setup, turns, current);
    }
  }

  /** The body of the second loop for one non-empty line. */
  method ReadTurnLine<A>(raw: string, hdr: string -> Option<Header>, act: string -> A,
                         setup0: seq<string>, turns0: seq<Turn<A>>, current0: Option<Turn<A>>)
    returns (setup: seq<string>, turns: seq<Turn<A>>, current: Option<Turn<A>>)
    requires current0.None? ==> turns0 == []
    ensures current.None? ==> turns == []
    ensures Segmented(setup, Close(turns, current)) ==
      SegStep(Segmented(setup0, Close(turns0, current0)), raw, hdr(raw), act(raw))
  {
    setup, turns, current := setup0, turns0, current0;
    var th := hdr(raw);
    if th.Some? {
      if current.Some? {
        turns := turns + [current.value];
      }
      current := Some(Turn(th.value.number, th.value.player, []));
    } else if current.None? {
      setup := setup + [raw];
    } else {
      var action := act(raw);
      var t := current.value;
      assert (turns + [t])[..|turns|] == turns;
      current := Some(t.(actions := t.actions + [action]));
    }
  }

  // ---------------------------------------------------------------------
  // Summary
  // ---------------------------------------------------------------------

  datatype KnockoutEntry = KnockoutEntry(turn: nat, raw: string, target: string)

  datatype VstarEntry =
    | VstarUseEntry(turn: nat, raw: string)
    | VstarAttackEntry(turn: nat, attack: string, raw: string, target: string, damage: nat)

  datatype ConditionEntry = ConditionEntry(turn: nat, raw: string, condition: string, target: string)

  /** `summary.result`; `method` (here `how`) is only ever set to "concession". */
  datatype MatchResult = MatchResult(winner: Option<string>, how: Option<string>, finalTurn: Option<nat>)

  datatype Summary = Summary(
    turnCount: nat,
    players: seq<string>,
    knockouts: seq<KnockoutEntry>,
    vstar: seq<VstarEntry>,
    specialConditions: seq<ConditionEntry>,
    result: MatchResult)

  const Concession: string := "concession"

  /** An action together with the number and the player of its turn. */
  datatype Event = Event(turn: nat, player: string, action: Action)

  function TurnEvents(t: Turn<Action>): (r: seq<Event>)
    ensures |r| == |t.actions|
    ensures forall k :: 0 <= k < |r| ==> r[k] == Event(t.number, t.player, t.actions[k])
  {
    seq(|t.actions|, k requires 0 <= k < |t.actions| => Event(t.number, t.player, t.actions[k]))
  }

  /** The actions in the order the nested `forEach` visits them. */
  function Events(turns: seq<Turn<Action>>): seq<Event>
  {
    if turns == [] then [] else Events(turns[..|turns| - 1]) + TurnEvents(turns[|turns| - 1])
  }

  /** `players.find(p => !t.player || p !== t.player)`: the first listed
      player that passes the test. */
  function OtherPlayer(players: seq<string>, turnPlayer: string): (r: Option<string>)
    ensures r.Some? ==> r.value in players && (turnPlayer == [] || r.value != turnPlayer)
    ensures r.Some? ==> (exists i :: 0 <= i < |players| && players[i] == r.value &&
                                     forall j :: 0 <= j < i ==> turnPlayer != [] && players[j] == turnPlayer)
    ensures r.None? ==> forall p :: p in players ==> turnPlayer != [] && p == turnPlayer
  {
    if players == [] then None
    else if turnPlayer == [] || players[0] != turnPlayer then Some(players[0])
    else
      assert players == [players[0]] + players[1..];
      var r := OtherPlayer(players[1..], turnPlayer);
      assert r.Some? ==> (exists i :: 1 <= i < |players| && players[i] == r.value &&
                                      forall j :: 0 <= j < i ==> turnPlayer != [] && players[j] == turnPlayer) by {
        if r.Some? {
          var i :| 0 <= i < |players[1..]| && players[1..][i] == r.value &&
            forall j :: 0 <= j < i ==> turnPlayer != [] && players[1..][j] == turnPlayer;
          assert players[i + 1] == r.value;
          assert forall j :: 0 <= j < i + 1 ==> turnPlayer != [] && players[j] == turnPlayer by {
            forall j | 0 <= j < i + 1 ensures turnPlayer != [] && players[j] == turnPlayer {
              if j > 0 { assert players[j] == players[1..][j - 1]; }
            }
          }
        }
      }
      r
  }

  /** `other || null`: an empty name counts as no winner. */
  function ConcessionWinner(players: seq<string>, turnPlayer: string): (r: Option<string>)
    ensures r.Some? ==> r.value in players && r.value != [] && r.value != turnPlayer
    ensures r.Some? <==> OtherPlayer(players, turnPlayer).Some? && OtherPlayer(players, turnPlayer).value != []
    ensures r.Some? ==> r == OtherPlayer(players, turnPlayer)
  {
    var other := OtherPlayer(players, turnPlayer);
    if other.Some? && other.value != [] then other else None
  }

  /** `/conceded/i.test(d) || /You conceded/i.test(d)`. */
  predicate ConcessionDetail(detail: string)
  {
    Contains(detail, "conceded") || Contains(detail, "You conceded")
  }

  /** `/(.+?) wins/i`: the trimmed capture. */
  function WinsName(detail: string): Option<string>
  {
    match FindLit(detail, " wins", 1)
    case Some(q) => Some(Trim(detail[..q]))
    case None => None
  }

  /** The result after a result action of the given turn. */
  function Resolve(r: MatchResult, players: seq<string>, e: Event, detail: string): MatchResult
  {
    var r1 :=
      if ConcessionDetail(detail) then
        r.(how := Some(Concession), winner := ConcessionWinner(players, e.player))
      else
        r.(winner := if WinsName(detail).Some? then WinsName(detail) else r.winner);
    r1.(finalTurn := Some(e.turn))
  }

  predicate IsResult(e: Event)
  {
    e.action.kind.Result?
  }

  /** The body of the inner `forEach`: what one action adds to the summary. */
  function Record(s: Summary, e: Event): Summary
  {
    var a := e.action;
    var s1 := if a.kind.Knockout? then s.(knockouts := s.knockouts + [KnockoutEntry(e.turn, a.raw, a.kind.koTarget)]) else s;
    var s2 := if a.kind.VStar? then s1.(vstar := s1.vstar + [VstarUseEntry(e.turn, a.raw)]) else s1;
    var s3 := if a.kind.SpecialCondition? then
        s2.(specialConditions := s2.specialConditions + [ConditionEntry(e.turn, a.raw, a.kind.condition, a.kind.target)])
      else s2;
    var s4 := if a.kind.Result? then s3.(result := Resolve(s3.result, s3.players, e, a.kind.detail)) else s3;
    if a.kind.Attack? && VstarUse(a.raw) then
      s4.(vstar := s4.vstar + [VstarAttackEntry(e.turn, a.kind.attack, a.raw, a.kind.target, a.kind.damage)])
    else s4
  }

  /** The summary after the given actions. */
  function Fold(s: Summary, events: seq<Event>): Summary
  {
    if events == [] then s else Record(Fold(s, events[..|events| - 1]), events[|events| - 1])
  }

  lemma FoldSnoc(s: Summary, events: seq<Event>, e: Event)
    ensures Fold(s, events + [e]) == Record(Fold(s, events), e)
  {
    assert (events + [e])[..|events|] == events;
  }

  function InitialSummary(turnCount: nat, players: seq<string>): Summary
  {
    Summary(turnCount, players, [], [], [], MatchResult(None, None, None))
  }

  /** "summary building" and "aggregate from actions". */
  method BuildSummary(turns: seq<Turn<Action>>, players: seq<string>) returns (summary: Summary)
    ensures summary == Fold(InitialSummary(|turns|, players), Events(turns))
  {
    summary := InitialSummary(|turns|, players);
    var i := 0;
    while i < |turns|
      invariant 0 <= i <= |turns|
      invariant summary == Fold(InitialSummary(|turns|, players), Events(turns[..i]))
    {
      summary := RecordTurn(summary, turns[i], InitialSummary(|turns|, players), Events(turns[..i]));
      assert turns[..i + 1][..i] == turns[..i];
      i := i + 1;
    }
    assert turns[..i] == turns;
  }

  /** `t.actions.forEach(...)`: the actions of one turn. */
  method RecordTurn(s0: Summary, t: Turn<Action>, ghost init: Summary, ghost before: seq<Event>) returns (summary: Summary)
    requires s0 == Fold(init, before)
    ensures summary == Fold(init, before + TurnEvents(t))
  {
    summary := s0;
    var evs := TurnEvents(t);
    var j := 0;
    assert before + evs[..0] == before;
    while j < |t.actions|
      invariant 0 <= j <= |t.actions|
      invariant summary == Fold(init, before + evs[..j])
    {
      FoldSnoc(init, before + evs[..j], evs[j]);
      assert before + evs[..j + 1] == before + evs[..j] + [evs[j]];
      summary := Record(summary, Event(t.number, t.player, t.actions[j]));
      j := j + 1;
    }
    assert evs[..j] == evs;
  }

  // ---------------------------------------------------------------------
  // What the summary says, stated independently of the fold
  // ---------------------------------------------------------------------

  /** The knockout actions, in order, tagged with their turn. */
  function KnockoutsOf(events: seq<Event>): seq<KnockoutEntry>
  {
    if events == [] then []
    else
      var e := events[0];
      (if e.action.kind.Knockout? then [KnockoutEntry(e.turn, e.action.raw, e.action.kind.koTarget)] else [])
        + KnockoutsOf(events[1..])
  }

  lemma {:induction false} KnockoutsOfSnoc(events: seq<Event>, e: Event)
    ensures KnockoutsOf(events + [e]) ==
      KnockoutsOf(events) + (if e.action.kind.Knockout? then [KnockoutEntry(e.turn, e.action.raw, e.action.kind.koTarget)] else [])
  {
    if events != [] {
      assert (events + [e])[1..] == events[1..] + [e];
      KnockoutsOfSnoc(events[1..], e);
    }
  }

  /** The fold leaves the turn count and the players alone, and lists every
      knockout action in turn and action order. */
  lemma {:induction false} FoldKnockouts(s: Summary, events: seq<Event>)
    ensures Fold(s, events).turnCount == s.turnCount && Fold(s, events).players == s.players
    ensures Fold(s, events).knockouts == s.knockouts + KnockoutsOf(events)
  {
    if events != [] {
      var init, e := events[..|events| - 1], events[|events| - 1];
      assert events == init + [e];
      FoldKnockouts(s, init);
      KnockoutsOfSnoc(init, e);
    }
  }

  /** What one action adds to `vstar`: a VSTAR-power entry, then an entry
      for an attack whose text names a VSTAR move. */
  function VstarEntries(e: Event): seq<VstarEntry>
  {
    var a := e.action;
    (if a.kind.VStar? then [VstarUseEntry(e.turn, a.raw)] else [])
      + (if a.kind.Attack? && VstarUse(a.raw) then [VstarAttackEntry(e.turn, a.kind.attack, a.raw, a.kind.target, a.kind.damage)] else [])
  }

  /** The VSTAR entries of the actions, in order. */
  function VstarOf(events: seq<Event>): seq<VstarEntry>
  {
    if events == [] then [] else VstarEntries(events[0]) + VstarOf(events[1..])
  }

  /** The special-condition actions, in order, tagged with their turn. */
  function ConditionsOf(events: seq<Event>): seq<ConditionEntry>
  {
    if events == [] then []
    else
      var e := events[0];
      (if e.action.kind.SpecialCondition? then [ConditionEntry(e.turn, e.action.raw, e.action.kind.condition, e.action.kind.target)] else [])
        + ConditionsOf(events[1..])
  }

  lemma {:induction false} VstarOfSnoc(events: seq<Event>, e: Event)
    ensures VstarOf(events + [e]) == VstarOf(events) + VstarEntries(e)
  {
    if events != [] {
      assert (events + [e])[1..] == events[1..] + [e];
      VstarOfSnoc(events[1..], e);
    } else {
      assert VstarOf([e]) == VstarEntries(e) + VstarOf([]);
    }
  }

  lemma {:induction false} ConditionsOfSnoc(events: seq<Event>, e: Event)
    ensures ConditionsOf(events + [e]) == ConditionsOf(events) +
      (if e.action.kind.SpecialCondition? then [ConditionEntry(e.turn, e.action.raw, e.action.kind.condition, e.action.kind.target)] else [])
  {
    if events != [] {
      assert (events + [e])[1..] == events[1..] + [e];
      ConditionsOfSnoc(events[1..], e);
    }
  }

  /** The fold lists every VSTAR power use and every VSTAR attack, in turn
      and action order, and every special condition likewise. */
  lemma {:induction false} FoldVstarConditions(s: Summary, events: seq<Event>)
    ensures Fold(s, events).vstar == s.vstar + VstarOf(events)
    ensures Fold(s, events).specialConditions == s.specialConditions + ConditionsOf(events)
  {
    if events != [] {
      var init, e := events[..|events| - 1], events[|events| - 1];
      assert events == init + [e];
      FoldVstarConditions(s, init);
      VstarOfSnoc(init, e);
      ConditionsOfSnoc(init, e);
    }
  }

  /** The position of the last result action. */
  function LastResult(events: seq<Event>): (r: Option<nat>)
    ensures r.Some? ==> r.value < |events| && IsResult(events[r.value])
    ensures r.Some? ==> forall k :: r.value < k < |events| ==> !IsResult(events[k])
    ensures r.None? ==> forall k :: 0 <= k < |events| ==> !IsResult(events[k])
  {
    if events == [] then None
    else if IsResult(events[|events| - 1]) then Some(|events| - 1)
    else LastResult(events[..|events| - 1])
  }

  lemma LastResultSnoc(events: seq<Event>, e: Event)
    ensures LastResult(events + [e]) == if IsResult(e) then Some(|events|) else LastResult(events)
  {
    assert (events + [e])[..|events|] == events;
  }

  /** `final_turn` is the turn of the last result action (null without one). */
  lemma {:induction false} FoldFinalTurn(s: Summary, events: seq<Event>)
    ensures Fold(s, events).result.finalTurn ==
      match LastResult(events) case Some(k) => Some(events[k].turn) case None => s.result.finalTurn
  {
    if events != [] {
      var init, e := events[..|events| - 1], events[|events| - 1];
      assert events == init + [e];
      FoldFinalTurn(s, init);
      LastResultSnoc(init, e);
      if !IsResult(e) {
        var r := LastResult(init);
        if r.Some? {
          assert events[r.value] == init[r.value];
        }
      }
    }
  }

  /** One action sets `method` to "concession" when it is a result that
      reports a concession, and otherwise leaves it. */
  lemma RecordHow(s: Summary, e: Event)
    ensures Record(s, e).result.how ==
      if IsResult(e) && ConcessionDetail(e.action.kind.detail) then Some(Concession) else s.result.how
  {
  }

  /** `method` (`how`) becomes "concession" as soon as one result action reports a
      concession, and never changes back. */
  lemma {:induction false} FoldMethod(s: Summary, events: seq<Event>)
    ensures Fold(s, events).result.how ==
      if exists k :: 0 <= k < |events| && IsResult(events[k]) && ConcessionDetail(events[k].action.kind.detail)
      then Some(Concession) else s.result.how
  {
    if events != [] {
      var init, e := events[..|events| - 1], events[|events| - 1];
      assert events == init + [e];
      FoldMethod(s, init);
      RecordHow(Fold(s, init), e);
      if exists k :: 0 <= k < |init| && IsResult(init[k]) && ConcessionDetail(init[k].action.kind.detail) {
        var k :| 0 <= k < |init| && IsResult(init[k]) && ConcessionDetail(init[k].action.kind.detail);
        assert events[k] == init[k];
      }
      if exists k :: 0 <= k < |events| && IsResult(events[k]) && ConcessionDetail(events[k].action.kind.detail) {
        var k :| 0 <= k < |events| && IsResult(events[k]) && ConcessionDetail(events[k].action.kind.detail);
        if k < |init| {
          assert init[k] == events[k];
        }
      }
    }
  }

  /** The winner, read from the last result action backwards: a concession
      names the first player other than the conceding turn's player; an
      "X wins" line names X; a result line with neither leaves the winner
      decided by the earlier result actions. */
  function WinnerOf(players: seq<string>, events: seq<Event>, w0: Option<string>): Option<string>
    decreases |events|
  {
    match LastResult(events)
    case None => w0
    case Some(k) =>
      var e := events[k];
      var d := e.action.kind.detail;
      if ConcessionDetail(d) then ConcessionWinner(players, e.player)
      else if WinsName(d).Some? then WinsName(d)
      else WinnerOf(players, events[..k], w0)
  }

  lemma WinnerOfSkip(players: seq<string>, events: seq<Event>, e: Event, w0: Option<string>)
    requires !IsResult(e)
    ensures WinnerOf(players, events + [e], w0) == WinnerOf(players, events, w0)
  {
    LastResultSnoc(events, e);
    var r := LastResult(events);
    if r.Some? {
      var k := r.value;
      assert (events + [e])[k] == events[k];
      assert (events + [e])[..k] == events[..k];
    }
  }

  lemma WinnerOfLast(players: seq<string>, events: seq<Event>, e: Event, w0: Option<string>)
    requires IsResult(e)
    ensures var d := e.action.kind.detail;
      WinnerOf(players, events + [e], w0) ==
        if ConcessionDetail(d) then ConcessionWinner(players, e.player)
        else if WinsName(d).Some? then WinsName(d)
        else WinnerOf(players, events, w0)
  {
    LastResultSnoc(events, e);
    assert (events + [e])[|events|] == e;
    assert (events + [e])[..|events|] == events;
  }

  /** The fold's winner is the one read backwards from the last result. */
  lemma {:induction false} FoldWinner(s: Summary, events: seq<Event>)
    ensures Fold(s, events).result.winner == WinnerOf(s.players, events, s.result.winner)
  {
    if events != [] {
      var init, e := events[..|events| - 1], events[|events| - 1];
      assert events == init + [e];
      FoldWinner(s, init);
      FoldKnockouts(s, init);
      if IsResult(e) {
        WinnerOfLast(s.players, init, e, s.result.winner);
      } else {
        WinnerOfSkip(s.players, init, e, s.result.winner);
      }
    }
  }

  // ---------------------------------------------------------------------
  // parseLog
  // ---------------------------------------------------------------------

  datatype SampleLog = SampleLog(
    file: string,
    players: seq<string>,
    setup: seq<string>,
    turns: seq<Turn<Action>>,
    summary: Summary)

  /** The parsed form of a log text. */
  function LogOf(text: string, filename: string): SampleLog
  {
    var seg := Segment(NormalizeLines(text), ParseTurnHeader, Classify);
    var players := Dedup(SetupNames(seg.setup, ScriptVerbs));
    SampleLog(filename, players, seg.setup, seg.turns,
      Fold(InitialSummary(|seg.turns|, players), Events(seg.turns)))
  }

  /** `parseLog(text, filename)`. */
  method ParseLog(text: string, filename: string) returns (log: SampleLog)
    ensures log == LogOf(text, filename)
  {
    var pieces := SplitLines(text);
    var setup, turns := SplitLog(pieces, ParseTurnHeader, Classify);
    var players := ExtractPlayersFromSetup(setup, ScriptVerbs);
    var summary := BuildSummary(turns, players);
    log := SampleLog(filename, players, setup, turns, summary);
  }

  /** The setup is the trimmed non-empty lines before the first header, and
      the other non-header lines are, in order, the raw lines of the turns'
      actions, each classified on its own. */
  lemma LogSegments(text: string, filename: string)
    ensures var lines := NormalizeLines(text);
      var log := LogOf(text, filename);
      var b := Body(lines, |lines|, ParseTurnHeader);
      |log.setup| <= |lines| && log.setup == lines[..|log.setup|] &&
      (forall k :: 0 <= k < |log.setup| ==> ParseTurnHeader(lines[k]).None?) &&
      (|log.setup| < |lines| ==> ParseTurnHeader(lines[|log.setup|]).Some?) &&
      |log.setup| <= |b| && TurnActions(log.turns) == Acts(b[|log.setup|..], Classify)
  {
    var lines := NormalizeLines(text);
    SegmentSetupIsPrefix(lines, |lines|, ParseTurnHeader, Classify);
    SegmentKeepsOrder(lines, |lines|, ParseTurnHeader, Classify);
  }

  /** The summary counts the turns, repeats the players, lists the knockouts
      of all turns in order, and its `final_turn` is the turn of the last
      result action. */
  lemma LogSummary(text: string, filename: string)
    ensures var log := LogOf(text, filename);
      var events := Events(log.turns);
      log.summary.turnCount == |log.turns| && log.summary.players == log.players &&
      log.summary.knockouts == KnockoutsOf(events) &&
      log.summary.vstar == VstarOf(events) &&
      log.summary.specialConditions == ConditionsOf(events) &&
      log.summary.result.finalTurn == (match LastResult(events) case Some(k) => Some(events[k].turn) case None => None) &&
      log.summary.result.winner == WinnerOf(log.players, events, None)
  {
    var log := LogOf(text, filename);
    var s := InitialSummary(|log.turns|, log.players);
    FoldKnockouts(s, Events(log.turns));
    FoldVstarConditions(s, Events(log.turns));
    FoldFinalTurn(s, Events(log.turns));
    FoldWinner(s, Events(log.turns));
  }

  // ---------------------------------------------------------------------
  // safeName
  // ---------------------------------------------------------------------

  /** The class `[\/\\?%*:|"<>]`. */
  predicate Forbidden(c: char)
  {
    c == '/' || c == '\\' || c == '?' || c == '%' || c == '*' || c == ':' || c == '|' || c == '"' || c == '<' || c == '>'
  }

  /** `.replace(/[\/\\?%*:|"<>]/g, '_')`. */
  function ReplaceForbidden(s: string): (r: string)
    ensures |r| == |s|
    ensures forall k :: 0 <= k < |s| ==> r[k] == if Forbidden(s[k]) then '_' else s[k]
  {
    seq(|s|, k requires 0 <= k < |s| => if Forbidden(s[k]) then '_' else s[k])
  }

  /** `.replace(/\s+/g, '_')`: every maximal run of whitespace becomes one '_'. */
  function CollapseSpaces(s: string): (r: string)
    decreases |s|
  {
    if s == [] then []
    else if IsSpace(s[0]) then "_" + CollapseSpaces(s[SpaceRun(s, 0)..])
    else [s[0]] + CollapseSpaces(s[1..])
  }

  /** `safeName(name)`. */
  function SafeName(name: string): string
  {
    CollapseSpaces(ReplaceForbidden(name))
  }

  /** Position by position from `k`: a whitespace character becomes '_'
      unless the character before it is whitespace too, in which case it is
      dropped; every other character is kept. So each maximal whitespace run
      leaves exactly one '_', at its first position. */
  function RunsMarked(s: string, k: nat): string
    decreases |s| - k
  {
    if k >= |s| then [] else MarkAt(s, k) + RunsMarked(s, k + 1)
  }

  /** What position `k` contributes to `RunsMarked`. */
  function MarkAt(s: string, k: nat): string
    requires k < |s|
  {
    if 0 < k && IsSpace(s[k - 1]) && IsSpace(s[k]) then [] else [if IsSpace(s[k]) then '_' else s[k]]
  }

  /** Marking from `k + j` only looks at `s[k..]`, except at its first
      position, where the character before it matters. */
  lemma {:induction false} RunsMarkedShift(s: string, k: nat, j: nat)
    requires k + j <= |s|
    requires j == 0 && 0 < k < |s| ==> !(IsSpace(s[k - 1]) && IsSpace(s[k]))
    ensures RunsMarked(s, k + j) == RunsMarked(s[k..], j)
    decreases |s| - k - j
  {
    var t := s[k..];
    if k + j < |s| {
      RunsMarkedShift(s, k, j + 1);
      MarkAtShift(s, k, j);
      assert RunsMarked(t, j) == MarkAt(t, j) + RunsMarked(t, j + 1);
    } else {
      assert |t| == j;
    }
  }

  lemma MarkAtShift(s: string, k: nat, j: nat)
    requires k + j < |s|
    requires j == 0 && 0 < k ==> !(IsSpace(s[k - 1]) && IsSpace(s[k]))
    ensures MarkAt(s, k + j) == MarkAt(s[k..], j)
  {
    assert s[k..][j] == s[k + j];
    if j > 0 {
      assert s[k..][j - 1] == s[k + j - 1];
    }
  }

  /** Inside a whitespace run nothing more is marked. */
  lemma {:induction false} RunsMarkedSkip(s: string, i: nat, n: nat)
    requires 1 <= i <= n <= |s| && forall k :: 0 <= k < n ==> IsSpace(s[k])
    ensures RunsMarked(s, i) == RunsMarked(s, n)
    decreases n - i
  {
    if i < n {
      RunsMarkedSkip(s, i + 1, n);
    }
  }

  /** The collapse marks every maximal whitespace run with one '_' and keeps
      every other character. */
  lemma {:induction false} CollapseSpacesRuns(s: string)
    ensures CollapseSpaces(s) == RunsMarked(s, 0)
    decreases |s|
  {
    if s != [] {
      if IsSpace(s[0]) {
        var n := SpaceRun(s, 0);
        SpaceRunAll(s, 0);
        CollapseSpacesRuns(s[n..]);
        RunsMarkedSkip(s, 1, n);
        RunsMarkedShift(s, n, 0);
      } else {
        CollapseSpacesRuns(s[1..]);
        RunsMarkedShift(s, 1, 0);
      }
    }
  }

  /** A safe name replaces each forbidden character by '_' and then each
      maximal whitespace run by one '_', keeping everything else in order. */
  lemma SafeNameRuns(name: string)
    ensures SafeName(name) == RunsMarked(ReplaceForbidden(name), 0)
  {
    CollapseSpacesRuns(ReplaceForbidden(name));
  }

  /** The characters of `s` that are kept as they are: neither whitespace,
      nor forbidden, nor '_'. */
  function Visible(s: string): string
  {
    if s == [] then []
    else (if IsSpace(s[0]) || Forbidden(s[0]) || s[0] == '_' then [] else [s[0]]) + Visible(s[1..])
  }

  lemma {:induction false} CollapseSpacesClean(s: string)
    requires forall k :: 0 <= k < |s| ==> !Forbidden(s[k])
    ensures forall k :: 0 <= k < |CollapseSpaces(s)| ==> !IsSpace(CollapseSpaces(s)[k]) && !Forbidden(CollapseSpaces(s)[k])
    ensures Visible(CollapseSpaces(s)) == Visible(s)
    decreases |s|
  {
    if s != [] {
      if IsSpace(s[0]) {
        var n := SpaceRun(s, 0);
        SpaceRunAll(s, 0);
        CollapseSpacesClean(s[n..]);
        VisibleOfSpaces(s, n);
        assert ("_" + CollapseSpaces(s[n..]))[1..] == CollapseSpaces(s[n..]);
      } else {
        CollapseSpacesClean(s[1..]);
        assert ([s[0]] + CollapseSpaces(s[1..]))[1..] == CollapseSpaces(s[1..]);
      }
    }
  }

  lemma {:induction false} VisibleOfSpaces(s: string, n: nat)
    requires n <= |s| && forall k :: 0 <= k < n ==> IsSpace(s[k])
    ensures Visible(s) == Visible(s[n..])
    decreases n
  {
    if n > 0 {
      VisibleOfSpaces(s[1..], n - 1);
      assert s[1..][n - 1..] == s[n..];
    }
  }

  lemma {:induction false} VisibleOfReplaced(s: string)
    ensures Visible(ReplaceForbidden(s)) == Visible(s)
  {
    if s != [] {
      VisibleOfReplaced(s[1..]);
      assert ReplaceForbidden(s)[1..] == ReplaceForbidden(s[1..]);
    }
  }

  /** A safe name has no whitespace and no character of the forbidden class,
      and keeps every other character except '_' in order. */
  lemma SafeNameClean(name: string)
    ensures forall k :: 0 <= k < |SafeName(name)| ==> !IsSpace(SafeName(name)[k]) && !Forbidden(SafeName(name)[k])
    ensures Visible(SafeName(name)) == Visible(name)
  {
    CollapseSpacesClean(ReplaceForbidden(name));
    VisibleOfReplaced(name);
  }
}
