/**
  `extractPlayersFromSetup`, which both log parsers define with the same
  body and different verb lists: the names of the players read off the
  setup lines, in first-seen order and without repetitions.
 */
module PlayerNames {
  import opened Wrappers
  import opened Text
  import opened Lists
  import opened Patterns

  /** `^(.*?) (?:verb|...)` with the `i` flag: the text before the first
      blank that is followed by one of the verbs, trimmed. */
  function PlayerLineName(line: string, verbs: seq<string>): (r: Option<string>)
    ensures r.Some? ==> IsTrimmed(r.value)
  {
    var hit := FirstSome(0, |line|, p =>
      if 0 <= p < |line| && line[p] == ' ' && AltAt(line, p + 1, verbs).Some? then Some(()) else None);
    match hit
    case Some((p, _)) => Some(Trim(line[..p]))
    case None => None
  }

  /** `(.+?) drew 7 cards for the opening hand` with the `i` flag, searched
      anywhere in the line. A match from a later start would also be one
      from the start of the line, so the capture always starts there. */
  function OpeningDrawName(line: string): (r: Option<string>)
    ensures r.Some? ==> IsTrimmed(r.value)
  {
    match FindLit(line, " drew 7 cards for the opening hand", 1)
    case Some(q) => Some(Trim(line[..q]))
    case None => None
  }

  function OptionList(o: Option<string>): seq<string>
  {
    if o.Some? then [o.value] else []
  }

  /** The names one setup line contributes: the player-line capture, then the
      opening-draw capture. */
  function LineNames(line: string, verbs: seq<string>): seq<string>
  {
    OptionList(PlayerLineName(line, verbs)) + OptionList(OpeningDrawName(line))
  }

  /** The concatenation of what `f` yields for each line, in line order. */
  function Collect(lines: seq<string>, f: string -> seq<string>): seq<string>
  {
    if lines == [] then [] else Collect(lines[..|lines| - 1], f) + f(lines[|lines| - 1])
  }

  /** Every name contributed by the lines, with repetitions, in line order. */
  function SetupNames(lines: seq<string>, verbs: seq<string>): seq<string>
  {
    Collect(lines, l => LineNames(l, verbs))
  }

  lemma SetupNamesSnoc(lines: seq<string>, i: nat, verbs: seq<string>)
    requires i < |lines|
    ensures SetupNames(lines[..i + 1], verbs) == SetupNames(lines[..i], verbs) + LineNames(lines[i], verbs)
  {
    assert lines[..i + 1][..i] == lines[..i];
  }

  /** `set.add` of an optional name. */
  function AddName(acc: seq<string>, m: Option<string>): seq<string>
  {
    if m.Some? then Insert(acc, m.value) else acc
  }

  lemma AddOptional(before: seq<string>, m: Option<string>)
    ensures AddName(Dedup(before), m) == Dedup(before + OptionList(m))
  {
    if m.Some? {
      DedupSnoc(before, m.value);
    } else {
      assert before + OptionList(m) == before;
    }
  }

  lemma AddTwo(before: seq<string>, m: Option<string>, o: Option<string>)
    ensures AddName(AddName(Dedup(before), m), o) == Dedup(before + (OptionList(m) + OptionList(o)))
  {
    var mid := before + OptionList(m);
    assert AddName(Dedup(before), m) == Dedup(mid) by {
      AddOptional(before, m);
    }
    assert AddName(Dedup(mid), o) == Dedup(mid + OptionList(o)) by {
      AddOptional(mid, o);
    }
    assert mid + OptionList(o) == before + (OptionList(m) + OptionList(o));
  }

  /** One setup line adds its player-line name, then its opening-draw name. */
  lemma ExtractStep(lines: seq<string>, i: nat, verbs: seq<string>)
    requires i < |lines|
    ensures AddName(AddName(Dedup(SetupNames(lines[..i], verbs)), PlayerLineName(lines[i], verbs)), OpeningDrawName(lines[i]))
      == Dedup(SetupNames(lines[..i + 1], verbs))
  {
    AddTwo(SetupNames(lines[..i], verbs), PlayerLineName(lines[i], verbs), OpeningDrawName(lines[i]));
    SetupNamesSnoc(lines, i, verbs);
  }

  /** `extractPlayersFromSetup`: a `Set` filled line by line. The result is
      `Array.from` of that set: the distinct names in first-seen order. */
  method ExtractPlayersFromSetup(lines: seq<string>, verbs: seq<string>) returns (players: seq<string>)
    ensures players == Dedup(SetupNames(lines, verbs))
  {
    players := [];
    var i := 0;
    while i < |lines|
      invariant 0 <= i <= |lines|
      invariant players == Dedup(SetupNames(lines[..i], verbs))
    {
      ExtractStep(lines, i, verbs);
      players := AddLineNames(players, lines[i], verbs);
      i := i + 1;
    }
    assert lines[..i] == lines;
  }

  /** One pass of the loop: the player-line capture, then the opening-draw
      capture, each added to the set when present. */
  method AddLineNames(names: seq<string>, line: string, verbs: seq<string>) returns (players: seq<string>)
    ensures players == AddName(AddName(names, PlayerLineName(line, verbs)), OpeningDrawName(line))
  {
    players := names;
    var m := PlayerLineName(line, verbs);
    if m.Some? {
      players := Insert(players, m.value);
    }
    var opening := OpeningDrawName(line);
    if opening.Some? {
      players := Insert(players, opening.value);
    }
  }

  lemma LineNamesTrimmed(line: string, verbs: seq<string>)
    ensures forall x :: x in LineNames(line, verbs) ==> IsTrimmed(x)
  {
  }

  lemma {:induction false} CollectMembers(lines: seq<string>, f: string -> seq<string>, x: string)
    ensures x in Collect(lines, f) <==> exists i :: 0 <= i < |lines| && x in f(lines[i])
  {
    if lines != [] {
      var n := |lines| - 1;
      var init := lines[..n];
      CollectMembers(init, f, x);
      if x in Collect(init, f) {
        var i :| 0 <= i < |init| && x in f(init[i]);
        assert lines[i] == init[i];
      }
      if i :| 0 <= i < |lines| && x in f(lines[i]) {
        if i < n {
          assert init[i] == lines[i];
        }
      }
    }
  }

  /** A name is among those the lines yield exactly when some line yields it. */
  lemma SetupNamesMembers(lines: seq<string>, verbs: seq<string>, x: string)
    ensures x in SetupNames(lines, verbs) <==> exists i :: 0 <= i < |lines| && x in LineNames(lines[i], verbs)
  {
    CollectMembers(lines, l => LineNames(l, verbs), x);
  }

  /** The extracted players are distinct and trimmed, and a name is among
      them exactly when some setup line yields it. */
  lemma SetupPlayers(lines: seq<string>, verbs: seq<string>, x: string)
    ensures Distinct(Dedup(SetupNames(lines, verbs)))
    ensures x in Dedup(SetupNames(lines, verbs)) <==> exists i :: 0 <= i < |lines| && x in LineNames(lines[i], verbs)
    ensures x in Dedup(SetupNames(lines, verbs)) ==> IsTrimmed(x)
  {
    SetupNamesMembers(lines, verbs, x);
    if x in Dedup(SetupNames(lines, verbs)) {
      var i :| 0 <= i < |lines| && x in LineNames(lines[i], verbs);
      LineNamesTrimmed(lines[i], verbs);
    }
  }
}
