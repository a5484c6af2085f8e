/**
  The viewer's raw-text parser (`parsePtcglLog`) and its check for an
  already-structured log (`looksLikeParsedLog`).
 */
module ViewerParser {
  import opened Wrappers
  import opened Text
  import opened Lists
  import opened LogTypes
  import opened TurnHeader
  import opened LogLines
  import opened Segmentation
  import opened PlayerNames

  /** The verbs of the viewer's `PLAYER_LINE_RE`. */
  const ViewerVerbs: seq<string> := ["chose", "won", "decided", "drew", "played", "attached",
    "evolved", "used", "is now", "took", "put", "flipped", "revealed", "reveals", "searches",
    "conceded", "wins"]

  /** The viewer keeps every turn line as it is. */
  function PlainAction(line: string): ParsedAction
  {
    Plain(line)
  }

  /** The non-empty turn players, in turn order. */
  function TurnPlayers(turns: seq<Turn<ParsedAction>>): seq<string>
  {
    if turns == [] then []
    else
      var p := turns[|turns| - 1].player;
      TurnPlayers(turns[..|turns| - 1]) + (if p != [] then [p] else [])
  }

  lemma TurnPlayersSnoc(turns: seq<Turn<ParsedAction>>, k: nat)
    requires k < |turns|
    ensures TurnPlayers(turns[..k + 1]) ==
      TurnPlayers(turns[..k]) + (if turns[k].player != [] then [turns[k].player] else [])
  {
    assert turns[..k + 1][..k] == turns[..k];
  }

  /** The player of a turn, when it has a name (`if (turn.player)`). */
  function NamedPlayer(t: Turn<ParsedAction>): Option<string>
  {
    if t.player != [] then Some(t.player) else None
  }

  lemma AddTurnPlayer(names: seq<string>, turns: seq<Turn<ParsedAction>>, k: nat)
    requires k < |turns|
    ensures AddName(Dedup(names + TurnPlayers(turns[..k])), NamedPlayer(turns[k]))
      == Dedup(names + TurnPlayers(turns[..k + 1]))
  {
    TurnPlayersSnoc(turns, k);
    AddOptional(names + TurnPlayers(turns[..k]), NamedPlayer(turns[k]));
    assert names + TurnPlayers(turns[..k + 1]) == names + TurnPlayers(turns[..k]) + OptionList(NamedPlayer(turns[k]));
  }

  lemma {:induction false} TurnPlayersComplete(turns: seq<Turn<ParsedAction>>, k: nat)
    requires k < |turns| && turns[k].player != []
    ensures turns[k].player in TurnPlayers(turns)
  {
    if k < |turns| - 1 {
      TurnPlayersComplete(turns[..|turns| - 1], k);
    }
  }

  lemma {:induction false} TurnPlayersNamed(turns: seq<Turn<ParsedAction>>, x: string)
    requires x in TurnPlayers(turns)
    ensures exists k :: 0 <= k < |turns| && turns[k].player == x && x != []
  {
    var n := |turns| - 1;
    if x in TurnPlayers(turns[..n]) {
      TurnPlayersNamed(turns[..n], x);
      var k :| 0 <= k < n && turns[..n][k].player == x && x != [];
      assert turns[k] == turns[..n][k];
    } else {
      assert turns[n].player == x;
    }
  }

  function AsParsedTurn(t: Turn<ParsedAction>): ParsedTurn
  {
    ParsedTurn(t.number, t.player, t.actions)
  }

  function AsParsedTurns(turns: seq<Turn<ParsedAction>>): (r: seq<ParsedTurn>)
    ensures |r| == |turns|
  {
    seq(|turns|, k requires 0 <= k < |turns| => AsParsedTurn(turns[k]))
  }

  /** The players of a segmented log: the setup names, then the non-empty
      turn players, without repetitions. */
  function PlayersOf(seg: Segmented<ParsedAction>): seq<string>
  {
    Dedup(SetupNames(seg.setup, ViewerVerbs) + TurnPlayers(seg.turns))
  }

  /** The segmentation of a raw text, with the header pattern as given. */
  function ViewerSegment(raw: string, hdr: string -> Option<Header>): Segmented<ParsedAction>
  {
    Segment(NormalizeLines(raw), hdr, PlainAction)
  }

  /** The parsed log of a raw text. */
  function ParsedOf(raw: string, fileName: string, hdr: string -> Option<Header>): ParsedLog
  {
    var seg := ViewerSegment(raw, hdr);
    ParsedLog(fileName, PlayersOf(seg), seg.setup, AsParsedTurns(seg.turns))
  }

  /** `parsePtcglLog`, with the turn-header pattern passed in; the viewer
      passes `ParseTurnHeader`. */
  method ParsePtcglLog(raw: string, fileName: string, hdr: string -> Option<Header>) returns (log: ParsedLog)
    ensures log == ParsedOf(raw, fileName, hdr)
  {
    var lines := NormalizeLines(raw);
    if |lines| == 0 {
      return ParsedLog(fileName, [], [], []);
    }
    var setup, turns := SplitTurns(lines, hdr);
    var players := CollectPlayers(setup, turns);
    log := ParsedLog(fileName, players, setup, AsParsedTurns(turns));
  }

  /** The file name `parsePtcglLog` uses when the caller gives none. */
  const PastedLogName: string := "pasted-log"

  /** `parsePtcglLog(raw)`: the default file name. */
  method ParsePastedLog(raw: string, hdr: string -> Option<Header>) returns (log: ParsedLog)
    ensures log.file == PastedLogName
    ensures log == ParsedOf(raw, PastedLogName, hdr)
  {
    log := ParsePtcglLog(raw, PastedLogName, hdr);
  }

  /** The two loops of `parsePtcglLog`: the setup lines up to the first
      header, then the turns. */
  method SplitTurns(lines: seq<string>, hdr: string -> Option<Header>) returns (setup: seq<string>, turns: seq<Turn<ParsedAction>>)
    ensures Segmented(setup, turns) == Segment(lines, hdr, PlainAction)
  {
    var i;
    setup, i := ReadSetup(lines, hdr);
    var current: Option<Turn<ParsedAction>>;
    setup, turns, current := ReadTurns(lines, hdr, i, setup);
    if current.Some? {
      turns := turns + [current.value];
    }
  }

  /** The first loop: every line before the first header joins the setup. */
  method ReadSetup(lines: seq<string>, hdr: string -> Option<Header>) returns (setup: seq<string>, i: nat)
    ensures i <= |lines| && SegmentPrefix(lines, i, hdr, PlainAction) == Segmented(setup, [])
    ensures i < |lines| ==> hdr(lines[i]).Some?
  {
    setup := [];
    i := 0;
    while i < |lines|
      invariant 0 <= i <= |lines|
      invariant SegmentPrefix(lines, i, hdr, PlainAction) == Segmented(setup, [])
    {
      if hdr(lines[i]).Some? {
        break;
      }
      setup := setup + [lines[i]];
      i := i + 1;
    }
  }

  /** The second loop, from line `i` on: a header closes the open turn and
      opens the next; any other line is an action of the open turn (or,
      while none is open, a setup line). */
  method ReadTurns(lines: seq<string>, hdr: string -> Option<Header>, i0: nat, setup0: seq<string>)
    returns (setup: seq<string>, turns: seq<Turn<ParsedAction>>, current: Option<Turn<ParsedAction>>)
    requires i0 <= |lines| && SegmentPrefix(lines, i0, hdr, PlainAction) == Segmented(setup0, [])
    ensures Segment(lines, hdr, PlainAction) == Segmented(setup, Close(turns, current))
  {
    setup, turns, current := setup0, [], None;
    var i := i0;
    while i < |lines|
      invariant i0 <= i <= |lines|
      invariant SegmentPrefix(lines, i, hdr, PlainAction) == Segmented(setup, Close(turns, current))
      invariant current.None? ==> turns == []
    {
      setup, turns, current := ReadTurnLine(lines[i], hdr, setup, turns, current);
      i := i + 1;
    }
  }

  /** The body of the second loop for one line. */
  method ReadTurnLine(line: string, hdr: string -> Option<Header>,
                      setup0: seq<string>, turns0: seq<Turn<ParsedAction>>, current0: Option<Turn<ParsedAction>>)
    returns (setup: seq<string>, turns: seq<Turn<ParsedAction>>, current: Option<Turn<ParsedAction>>)
    requires current0.None? ==> turns0 == []
    ensures current.None? ==> turns == []
    ensures Segmented(setup, Close(turns, current)) ==
      SegStep(Segmented(setup0, Close(turns0, current0)), line, hdr(line), PlainAction(line))
  {
    setup, turns, current := setup0, turns0, current0;
    ghost var prev := Segmented(setup, Close(turns, current));
    var header := hdr(line);
    if header.Some? {
      if current.Some? {
        turns := turns + [current.value];
      }
      current := Some(Turn(header.value.number, header.value.player, []));
      assert Close(turns, current) == prev.turns + [current.value];
    } else if current.None? {
      setup := setup + [line];
    } else {
      var t := current.value;
      assert (turns + [t])[..|turns|] == turns;
      current := Some(t.(actions := t.actions + [Plain(line)]));
      assert Close(turns, current) == AppendToLast(prev.turns, PlainAction(line));
    }
  }

  /** The `playerSet` of `parsePtcglLog`: the setup players, then every
      named turn player. */
  method CollectPlayers(setup: seq<string>, turns: seq<Turn<ParsedAction>>) returns (playerSet: seq<string>)
    ensures playerSet == PlayersOf(Segmented(setup, turns))
  {
    var fromSetup := ExtractPlayersFromSetup(setup, ViewerVerbs);
    playerSet := AddTurnPlayers(SetupNames(setup, ViewerVerbs), fromSetup, turns);
  }

  /** `turns.forEach(turn => { if (turn.player) playerSet.add(turn.player) })`. */
  method AddTurnPlayers(ghost names: seq<string>, start: seq<string>, turns: seq<Turn<ParsedAction>>) returns (playerSet: seq<string>)
    requires start == Dedup(names)
    ensures playerSet == Dedup(names + TurnPlayers(turns))
  {
    playerSet := start;
    var k := 0;
    assert names + TurnPlayers(turns[..0]) == names;
    while k < |turns|
      invariant 0 <= k <= |turns|
      invariant playerSet == Dedup(names + TurnPlayers(turns[..k]))
    {
      AddTurnPlayer(names, turns, k);
      ghost var before := playerSet;
      if turns[k].player != [] {
        playerSet := Insert(playerSet, turns[k].player);
      }
      assert playerSet == AddName(before, NamedPlayer(turns[k]));
      k := k + 1;
    }
    assert turns[..k] == turns;
  }

  /** A blank text gives the empty log. */
  lemma ParsedOfBlank(raw: string, fileName: string, hdr: string -> Option<Header>)
    ensures AllSpace(raw) <==> ParsedOf(raw, fileName, hdr) == ParsedLog(fileName, [], [], []) && NormalizeLines(raw) == []
  {
    NormalizeLinesEmpty(raw);
  }

  /** The setup is the trimmed non-empty lines before the first header. */
  lemma ParsedOfSetup(raw: string, fileName: string, hdr: string -> Option<Header>)
    ensures var lines := NormalizeLines(raw);
      var log := ParsedOf(raw, fileName, hdr);
      |log.setup| <= |lines| && log.setup == lines[..|log.setup|] &&
      (forall k :: 0 <= k < |log.setup| ==> hdr(lines[k]).None?) &&
      (|log.setup| < |lines| ==> hdr(lines[|log.setup|]).Some?)
  {
    var lines := NormalizeLines(raw);
    assert ParsedOf(raw, fileName, hdr).setup == SegmentPrefix(lines, |lines|, hdr, PlainAction).setup;
    SegmentSetupIsPrefix(lines, |lines|, hdr, PlainAction);
  }

  /** There is one turn per header line, with that header's number and
      player. */
  lemma ParsedOfTurns(raw: string, fileName: string, hdr: string -> Option<Header>)
    ensures var lines := NormalizeLines(raw);
      var log := ParsedOf(raw, fileName, hdr);
      var hs := Headers(lines, |lines|, hdr);
      |log.turns| == |hs| &&
      forall k :: 0 <= k < |log.turns| ==> hdr(hs[k]) == Some(Header(log.turns[k].number, log.turns[k].player))
  {
    var lines := NormalizeLines(raw);
    var seg := SegmentPrefix(lines, |lines|, hdr, PlainAction);
    SegmentTurnsFromHeaders(lines, |lines|, hdr, PlainAction);
    var ts := AsParsedTurns(seg.turns);
    assert forall k :: 0 <= k < |ts| ==> ts[k].number == seg.turns[k].number && ts[k].player == seg.turns[k].player;
    assert ParsedOf(raw, fileName, hdr).turns == ts;
  }

  /** The lines after the first header that are not headers are the turns'
      actions, in order. */
  lemma ParsedOfActions(raw: string, fileName: string, hdr: string -> Option<Header>)
    ensures var lines := NormalizeLines(raw);
      var log := ParsedOf(raw, fileName, hdr);
      var seg := ViewerSegment(raw, hdr);
      var b := Body(lines, |lines|, hdr);
      |log.setup| <= |b| && log.setup == b[..|log.setup|] &&
      TurnActions(seg.turns) == Acts(b[|log.setup|..], PlainAction)
  {
    var lines := NormalizeLines(raw);
    SegmentKeepsOrder(lines, |lines|, hdr, PlainAction);
  }

  /** The players are distinct, start with the setup players in first-seen
      order, and include every named turn player. */
  lemma ParsedOfPlayers(raw: string, fileName: string, hdr: string -> Option<Header>)
    ensures var log := ParsedOf(raw, fileName, hdr);
      Distinct(log.players) &&
      Dedup(SetupNames(log.setup, ViewerVerbs)) <= log.players &&
      forall k :: 0 <= k < |log.turns| && log.turns[k].player != [] ==> log.turns[k].player in log.players
  {
    var seg := ViewerSegment(raw, hdr);
    var names := SetupNames(seg.setup, ViewerVerbs);
    var log := ParsedOf(raw, fileName, hdr);
    DedupAppend(names, TurnPlayers(seg.turns));
    forall j | 0 <= j < |log.turns| && log.turns[j].player != []
      ensures log.turns[j].player in log.players
    {
      TurnPlayersComplete(seg.turns, j);
      assert seg.turns[j].player in names + TurnPlayers(seg.turns);
    }
  }

  /** Every player comes from a setup line or is the player of a turn. */
  lemma ParsedOfPlayersSound(raw: string, fileName: string, hdr: string -> Option<Header>, x: string)
    requires x in ParsedOf(raw, fileName, hdr).players
    ensures var log := ParsedOf(raw, fileName, hdr);
      x in SetupNames(log.setup, ViewerVerbs) || exists k :: 0 <= k < |log.turns| && log.turns[k].player == x && x != []
  {
    var seg := ViewerSegment(raw, hdr);
    var log := ParsedOf(raw, fileName, hdr);
    if x !in SetupNames(seg.setup, ViewerVerbs) {
      TurnPlayersNamed(seg.turns, x);
      var k :| 0 <= k < |seg.turns| && seg.turns[k].player == x && x != [];
      assert log.turns[k].player == x;
    }
  }

  // ---------------------------------------------------------------------
  // looksLikeParsedLog
  // ---------------------------------------------------------------------

  /** JavaScript truthiness of a value. */
  predicate Falsy(v: Json)
  {
    v.JUndefined? || v.JNull? || v == JBool(false) || v == JNumber(0) || v == JString("")
  }

  /** A named property of a value (`obj.name`); arrays and scalars carry none
      of the names looked up here. */
  function Property(v: Json, name: string): Json
  {
    if v.JObject? && name in v.fields then v.fields[name] else JUndefined
  }

  /** `looksLikeParsedLog`: a truthy value of type `object` whose `file` is a
      string and whose `players`, `setup` and `turns` are arrays. */
  function LooksLikeParsedLog(v: Json): (r: bool)
    ensures (r <==> (v.JObject? && Property(v, "file").JString? && Property(v, "players").JArray? &&
      Property(v, "setup").JArray? && Property(v, "turns").JArray?))
  {
    if Falsy(v) || !(v.JNull? || v.JArray? || v.JObject?) then false
    else
      Property(v, "file").JString? &&
      Property(v, "players").JArray? &&
      Property(v, "setup").JArray? &&
      Property(v, "turns").JArray?
  }

  function StringsToJson(xs: seq<string>): seq<Json>
  {
    seq(|xs|, k requires 0 <= k < |xs| => JString(xs[k]))
  }

  function ActionToJson(a: ParsedAction): Json
  {
    match a
    case Plain(s) => JString(s)
    case Structured(raw) => if raw.Some? then JObject(map["raw" := JString(raw.value)]) else JObject(map[])
  }

  function TurnToJson(t: ParsedTurn): Json
  {
    JObject(map["number" := JNumber(t.number), "player" := JString(t.player),
      "actions" := JArray(seq(|t.actions|, k requires 0 <= k < |t.actions| => ActionToJson(t.actions[k])))])
  }

  /** The document a parsed log is saved as. */
  function LogToJson(log: ParsedLog): Json
  {
    JObject(map[
      "file" := JString(log.file),
      "players" := JArray(StringsToJson(log.players)),
      "setup" := JArray(StringsToJson(log.setup)),
      "turns" := JArray(seq(|log.turns|, k requires 0 <= k < |log.turns| => TurnToJson(log.turns[k])))])
  }

  /** Every parsed log, once saved, is accepted again as an already-structured log. */
  lemma SavedLogIsAccepted(log: ParsedLog)
    ensures LooksLikeParsedLog(LogToJson(log))
  {
    var v := LogToJson(log);
    assert Property(v, "file") == JString(log.file);
    assert Property(v, "players").JArray?;
    assert Property(v, "setup").JArray?;
    assert Property(v, "turns").JArray?;
  }
}
