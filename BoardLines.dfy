/**
  How the board engine (web/src/state/utils.ts) reads a log line: the
  anchored patterns for active-slot changes, bench placements and the
  opening-hand draws, the resolution of an actor name to a player, and
  `parseActiveChange`.

  Every pattern has the shape `^(.+?) <literal groups> (.+?)<tail>$`
  (case-insensitive): the first group is tried from the shortest upwards,
  each alternation group left to right, and the second group is the
  shortest that leaves one spelling of the tail.
 */
module BoardLines {
  import opened Wrappers
  import opened Text
  import opened Patterns

  // ---------------------------------------------------------------------
  // Pattern machinery
  // ---------------------------------------------------------------------

  /** A run of alternation groups matched from `i` with backtracking, then
      `rest` at the position where the run ends. */
  function Chain<T>(s: string, i: nat, parts: seq<seq<string>>, rest: nat -> Option<T>): Option<T>
    decreases |parts|, 0
  {
    if parts == [] then rest(i) else Alts(s, i, parts[0], parts[1..], rest)
  }

  /** The alternatives of one group, left to right, each followed by the
      remaining groups. */
  function Alts<T>(s: string, i: nat, alts: seq<string>, parts: seq<seq<string>>, rest: nat -> Option<T>): Option<T>
    decreases |parts|, |alts|
  {
    if alts == [] then None
    else
      var here := if LitAt(s, i, alts[0]) then Chain(s, i + |alts[0]|, parts, rest) else None;
      if here.Some? then here else Alts(s, i, alts[1..], parts, rest)
  }

  /** `(.+?)<tail>$` from `c`, after a first group `s[..a]`. */
  function SecondGroup(s: string, a: nat, c: nat, tails: seq<string>): Option<(string, string)>
  {
    if a <= c <= |s| then
      match ShortestHead(s[c..], tails)
      case Some(L) => Some((s[..a], s[c..c + L]))
      case None => None
    else None
  }

  /** `^(.+?)<parts>(.+?)<tail>$`: both captures. */
  function TwoCaptures(s: string, parts: seq<seq<string>>, tails: seq<string>): Option<(string, string)>
  {
    Found(FirstSome(1, |s|, (a: nat) => Chain(s, a, parts, (c: nat) => SecondGroup(s, a, c, tails))))
  }

  /** `m` is one alternative of each group, in order, matched as the
      patterns match literals (ignoring case), and nothing else. */
  predicate Spells(m: string, parts: seq<seq<string>>)
    decreases |parts|
  {
    if parts == [] then m == []
    else exists j :: 0 <= j < |parts[0]| && LitAt(m, 0, parts[0][j]) && Spells(m[|parts[0][j]|..], parts[1..])
  }

  /** `s[i..c]` is one of `alts` followed by a spelling of `parts`. */
  predicate AltSpelled(s: string, i: nat, c: nat, alts: seq<string>, parts: seq<seq<string>>)
  {
    i <= c <= |s| &&
    exists j :: 0 <= j < |alts| && LitAt(s, i, alts[j]) && i + |alts[j]| <= c && Spells(s[i + |alts[j]|..c], parts)
  }

  /** A chain of groups that matches spells its groups from `i` to some
      position `c` and hands `rest` that position. */
  lemma ChainSome<T>(s: string, i: nat, parts: seq<seq<string>>, rest: nat -> Option<T>) returns (c: nat)
    requires i <= |s| && Chain(s, i, parts, rest).Some?
    ensures i <= c <= |s| && Spells(s[i..c], parts) && rest(c) == Chain(s, i, parts, rest)
    decreases |parts|, 0
  {
    if parts == [] {
      c := i;
      assert Spells(s[i..i], parts);
    } else {
      c := AltsSome(s, i, parts[0], parts[1..], rest);
      var j :| 0 <= j < |parts[0]| && LitAt(s, i, parts[0][j]) && i + |parts[0][j]| <= c &&
        Spells(s[i + |parts[0][j]|..c], parts[1..]);
      SpellsCons(s, i, c, parts, j);
    }
  }

  /** One alternative at `i` followed by a spelling of the remaining groups
      is a spelling of all of them. */
  lemma SpellsCons(s: string, i: nat, c: nat, parts: seq<seq<string>>, j: nat)
    requires parts != [] && j < |parts[0]| && i + |parts[0][j]| <= c <= |s|
    requires LitAt(s, i, parts[0][j]) && Spells(s[i + |parts[0][j]|..c], parts[1..])
    ensures Spells(s[i..c], parts)
  {
    var L := |parts[0][j]|;
    var m := s[i..c];
    assert m[0..L] == s[i..i + L];
    assert m[L..] == s[i + L..c];
    assert LitAt(m, 0, parts[0][j]) && Spells(m[L..], parts[1..]);
  }

  lemma AltsSome<T>(s: string, i: nat, alts: seq<string>, parts: seq<seq<string>>, rest: nat -> Option<T>) returns (c: nat)
    requires i <= |s| && Alts(s, i, alts, parts, rest).Some?
    ensures AltSpelled(s, i, c, alts, parts) && rest(c) == Alts(s, i, alts, parts, rest)
    decreases |parts|, |alts|
  {
    if LitAt(s, i, alts[0]) && Chain(s, i + |alts[0]|, parts, rest).Some? {
      c := ChainSome(s, i + |alts[0]|, parts, rest);
      assert AltSpelled(s, i, c, alts, parts) by {
        assert 0 < |alts| && LitAt(s, i, alts[0]);
      }
    } else {
      c := AltsSome(s, i, alts[1..], parts, rest);
      AltSpelledCons(s, i, c, alts, parts);
    }
  }

  /** A spelling with a later alternative is one with the whole group. */
  lemma AltSpelledCons(s: string, i: nat, c: nat, alts: seq<string>, parts: seq<seq<string>>)
    requires alts != [] && AltSpelled(s, i, c, alts[1..], parts)
    ensures AltSpelled(s, i, c, alts, parts)
  {
    var j :| 0 <= j < |alts[1..]| && LitAt(s, i, alts[1..][j]) && i + |alts[1..][j]| <= c &&
      Spells(s[i + |alts[1..][j]|..c], parts);
    assert alts[1..][j] == alts[j + 1];
  }

  /** What a two-capture pattern reads: the line is the first capture, one
      spelling of the literal groups, the second capture and one spelling
      of the tail, in that order, and neither capture is empty. */
  lemma TwoCapturesSound(s: string, parts: seq<seq<string>>, tails: seq<string>)
    requires TwoCaptures(s, parts, tails).Some?
    ensures var v := TwoCaptures(s, parts, tails).value;
      v.0 != [] && v.1 != [] &&
      exists m, t :: s == v.0 + m + v.1 + t && Spells(m, parts) && OneOf(t, tails)
  {
    var v := TwoCaptures(s, parts, tails).value;
    var f := (a: nat) => Chain(s, a, parts, (c: nat) => SecondGroup(s, a, c, tails));
    var r := FirstSome(1, |s|, f);
    assert r.Some? && r.value.1 == v;
    var a := r.value.0;
    var rest := (c: nat) => SecondGroup(s, a, c, tails);
    assert Chain(s, a, parts, rest) == Some(v);
    var c := ChainSome(s, a, parts, rest);
    var t := SecondGroupSound(s, a, c, tails, v);
    assert s == v.0 + s[a..c] + v.1 + t;
  }

  /** The second group and the tail: the rest of the line after the first
      capture and the literal groups. */
  lemma SecondGroupSound(s: string, a: nat, c: nat, tails: seq<string>, v: (string, string)) returns (t: string)
    requires 1 <= a && SecondGroup(s, a, c, tails) == Some(v)
    ensures a <= c <= |s| && v.0 == s[..a] && v.0 != [] && v.1 != []
    ensures s == v.0 + s[a..c] + v.1 + t && OneOf(t, tails)
  {
    var L := ShortestHead(s[c..], tails).value;
    assert v == (s[..a], s[c..c + L]);
    t := s[c + L..];
    assert s == v.0 + s[a..c] + v.1 + t;
  }

  /** `[.!]?$`. */
  const Stop: seq<string> := ["", ".", "!"]

  // ---------------------------------------------------------------------
  // The patterns
  // ---------------------------------------------------------------------

  /** The verbs of ACTIVE_ASSIGN_RE with their surrounding spaces;
      `switch(?:ed)?` tries "switched" before "switch". */
  const AssignVerbs: seq<string> :=
    [" played ", " put ", " sent ", " moved ", " switched in ", " promoted ", " switches ", " switched ", " switch "]

  const ActiveTails: seq<string> :=
    Cross([" into the Active Spot", " to the Active Spot", " onto the Active Spot", " in the Active Spot"], Stop)

  /** ACTIVE_ASSIGN_RE: player and card. */
  function ActiveAssign(line: string): Option<(string, string)>
  {
    TwoCaptures(line, [AssignVerbs], ActiveTails)
  }

  /** ACTIVE_SWITCH_RE: "X switched their Active Pokémon to Y". */
  function ActiveSwitch(line: string): Option<(string, string)>
  {
    TwoCaptures(line, SwitchParts, Stop)
  }

  const SwitchParts: seq<seq<string>> := [[" switched ", " switches "], ["their ", "your ", ""], ["Active Pokémon to "]]

  /** ACTIVE_IS_NOW_RE: "X's Active Pokémon is now Y". */
  function ActiveIsNow(line: string): Option<(string, string)>
  {
    TwoCaptures(line, IsNowParts, Stop)
  }

  const IsNowParts: seq<seq<string>> := [["'s", ""], [" Active Pokémon is "], ["now ", ""]]

  const BenchTails: seq<string> :=
    Cross(Cross([" onto ", " to ", " into ", " on "], ["the Bench", "Bench"]), Stop)

  /** BENCH_ASSIGN_RE: player and card. */
  function BenchAssign(line: string): Option<(string, string)>
  {
    TwoCaptures(line, [BenchVerbs], BenchTails)
  }

  const BenchVerbs: seq<string> := [" played ", " put ", " moved ", " sent "]

  /** BENCH_BENCHED_RE: player and card. */
  function BenchBenched(line: string): Option<(string, string)>
  {
    TwoCaptures(line, [[" benched "]], Stop)
  }

  /** The five board patterns read a line as player, literal part, card
      and tail: the player and the card are non-empty, in that order, the
      text between them spells the pattern's verb and literal groups, and
      the line ends with a spelling of the pattern's tail. */
  lemma BoardPatternsSound(line: string)
    ensures ActiveAssign(line).Some? ==> var v := ActiveAssign(line).value;
      v.0 != [] && v.1 != [] &&
      exists m, t :: line == v.0 + m + v.1 + t && Spells(m, [AssignVerbs]) && OneOf(t, ActiveTails)
    ensures ActiveSwitch(line).Some? ==> var v := ActiveSwitch(line).value;
      v.0 != [] && v.1 != [] &&
      exists m, t :: line == v.0 + m + v.1 + t && Spells(m, SwitchParts) && OneOf(t, Stop)
    ensures ActiveIsNow(line).Some? ==> var v := ActiveIsNow(line).value;
      v.0 != [] && v.1 != [] &&
      exists m, t :: line == v.0 + m + v.1 + t && Spells(m, IsNowParts) && OneOf(t, Stop)
    ensures BenchAssign(line).Some? ==> var v := BenchAssign(line).value;
      v.0 != [] && v.1 != [] &&
      exists m, t :: line == v.0 + m + v.1 + t && Spells(m, [BenchVerbs]) && OneOf(t, BenchTails)
    ensures BenchBenched(line).Some? ==> var v := BenchBenched(line).value;
      v.0 != [] && v.1 != [] &&
      exists m, t :: line == v.0 + m + v.1 + t && Spells(m, [[" benched "]]) && OneOf(t, Stop)
  {
    if ActiveAssign(line).Some? { TwoCapturesSound(line, [AssignVerbs], ActiveTails); }
    if ActiveSwitch(line).Some? { TwoCapturesSound(line, SwitchParts, Stop); }
    if ActiveIsNow(line).Some? { TwoCapturesSound(line, IsNowParts, Stop); }
    if BenchAssign(line).Some? { TwoCapturesSound(line, [BenchVerbs], BenchTails); }
    if BenchBenched(line).Some? { TwoCapturesSound(line, [[" benched "]], Stop); }
  }

  /** `(\d+)` at `c` after a first group `s[..a]`, followed by `rest`; the
      greedy digit run never gives a digit back, since every literal that
      can follow it starts with a space. */
  function CountThen(s: string, a: nat, c: nat, rest: nat -> bool): Option<(string, nat)>
  {
    if a <= |s| && c <= |s| then
      var d := DigitRun(s, c);
      match NumberAt(s, c)
      case Some(n) => if rest(c + d) then Some((s[..a], n)) else None
      case None => None
    else None
  }

  const OpeningTails: seq<string> := Suffixed(" cards for the opening hand", Stop)

  /** The opening-hand pattern of buildInitialSnapshot: player and count. */
  function OpeningHand(line: string): Option<(string, nat)>
  {
    Found(FirstSome(1, |line|, (a: nat) =>
      Chain(line, a, [[" drew "]], (c: nat) =>
        CountThen(line, a, c, (e: nat) => e <= |line| && OneOf(line[e..], OpeningTails)))))
  }

  /** A draw pattern read at `a`: the player is the non-empty text before
      " drew ", and the count is the value of the digit run after it, which
      one spelling of the tail follows to the end of the line. */
  predicate DrewAt(line: string, a: nat, v: (string, nat), tails: seq<string>)
  {
    1 <= a && a + 6 <= |line| && v.0 == line[..a] && LitAt(line, a, " drew ") &&
    NumberAt(line, a + 6) == Some(v.1) && OneOf(line[a + 6 + DigitRun(line, a + 6)..], tails)
  }

  /** What the opening-hand pattern reads. */
  lemma OpeningHandSound(line: string)
    requires OpeningHand(line).Some?
    ensures exists a: nat :: DrewAt(line, a, OpeningHand(line).value, OpeningTails)
  {
    var a := OpeningFound(line);
    DrewChainAt(line, a, OpeningHand(line).value, OpeningTails);
  }

  /** The position of the first capture's end that the search finds. */
  lemma OpeningFound(line: string) returns (a: nat)
    requires OpeningHand(line).Some?
    ensures 1 <= a
    ensures Chain(line, a, [[" drew "]], (c: nat) =>
        CountThen(line, a, c, (e: nat) => e <= |line| && OneOf(line[e..], OpeningTails))) == OpeningHand(line)
  {
    var f := (a: nat) =>
      Chain(line, a, [[" drew "]], (c: nat) =>
        CountThen(line, a, c, (e: nat) => e <= |line| && OneOf(line[e..], OpeningTails)));
    var r := FirstSome(1, |line|, f);
    a := r.value.0;
    assert f(a) == OpeningHand(line);
  }

  /** The chain of " drew " followed by the count and a tail. */
  lemma DrewChainAt(line: string, a: nat, v: (string, nat), tails: seq<string>)
    requires 1 <= a
    requires Chain(line, a, [[" drew "]], (c: nat) =>
        CountThen(line, a, c, (e: nat) => e <= |line| && OneOf(line[e..], tails))) == Some(v)
    ensures DrewAt(line, a, v, tails)
  {
    var rest := (e: nat) => e <= |line| && OneOf(line[e..], tails);
    var k := (c: nat) => CountThen(line, a, c, rest);
    DrewChain(line, a, k);
    assert k(a + 6) == Some(v);
    CountThenSound(line, a, a + 6, rest);
    assert rest(a + 6 + DigitRun(line, a + 6));
  }

  /** The chain of " drew ": the literal, then the rest after it. */
  lemma DrewChain(s: string, a: nat, k: nat -> Option<(string, nat)>)
    requires Chain(s, a, [[" drew "]], k).Some?
    ensures LitAt(s, a, " drew ") && k(a + 6) == Chain(s, a, [[" drew "]], k)
  {
    assert Alts(s, a, [], [], k) == None;
  }

  lemma CountThenSound(s: string, a: nat, c: nat, rest: nat -> bool)
    requires CountThen(s, a, c, rest).Some?
    ensures var v := CountThen(s, a, c, rest).value;
      a <= |s| && c <= |s| && v.0 == s[..a] && NumberAt(s, c) == Some(v.1) && rest(c + DigitRun(s, c))
  {
  }

  const MulliganTails: seq<string> := Suffixed(" took at least 1 mulligan", Stop)

  /** The mulligan-bonus pattern of buildInitialSnapshot: player and count. */
  function BonusDraw(line: string): Option<(string, nat)>
  {
    Found(FirstSome(1, |line|, (a: nat) =>
      Chain(line, a, [[" drew "]], (c: nat) =>
        CountThen(line, a, c, (e: nat) =>
          Chain(line, e, [[" more card"], ["s", ""], [" because "]], (g: nat) =>
            if g <= |line| && ShortestHead(line[g..], MulliganTails).Some? then Some(()) else None).Some?))))
  }

  // ---------------------------------------------------------------------
  // resolvePlayerName and parseActiveChange
  // ---------------------------------------------------------------------

  /** The names that stand for a player rather than naming one. */
  const Placeholders: seq<string> := ["your", "you", "opponent", "your opponent", "the opponent"]

  /** What one candidate contributes: its trimmed form, unless it is
      missing, empty or a placeholder. */
  function Candidate(c: Option<string>): (r: Option<string>)
    ensures r.Some? ==> r.value != [] && IsTrimmed(r.value) && !OneOf(r.value, Placeholders)
  {
    match c
    case None => None
    case Some(n) =>
      var t := Trim(n);
      if t == [] || OneOf(t, Placeholders) then None else Some(t)
  }

  /** `[actor, fallback, ...players]`. */
  function Candidates(actor: Option<string>, fallback: Option<string>, players: seq<string>): (cs: seq<Option<string>>)
    ensures |cs| == |players| + 2 && cs[0] == actor && cs[1] == fallback
    ensures forall k :: 0 <= k < |players| ==> cs[k + 2] == Some(players[k])
  {
    [actor, fallback] + seq(|players|, k requires 0 <= k < |players| => Some(players[k]))
  }

  /** The first candidate from position `i` on that qualifies. */
  function FirstCandidate(cs: seq<Option<string>>, i: nat): (r: Option<string>)
    decreases |cs| - i
  {
    if i >= |cs| then None
    else if Candidate(cs[i]).Some? then Candidate(cs[i])
    else FirstCandidate(cs, i + 1)
  }

  lemma {:induction false} FirstCandidateIsFirst(cs: seq<Option<string>>, i: nat)
    ensures var r := FirstCandidate(cs, i);
      (r.None? <==> forall k :: i <= k < |cs| ==> Candidate(cs[k]).None?) &&
      (r.Some? ==> exists k :: i <= k < |cs| && Candidate(cs[k]) == r &&
                     forall j :: i <= j < k ==> Candidate(cs[j]).None?)
    decreases |cs| - i
  {
    if i < |cs| && Candidate(cs[i]).None? {
      FirstCandidateIsFirst(cs, i + 1);
      var r := FirstCandidate(cs, i);
      if r.Some? {
        var k :| i + 1 <= k < |cs| && Candidate(cs[k]) == r && forall j :: i + 1 <= j < k ==> Candidate(cs[j]).None?;
        assert forall j :: i <= j < k ==> Candidate(cs[j]).None?;
      }
    }
  }

  /** `resolvePlayerName(actor, fallback, players)`. */
  function ResolvePlayerName(actor: Option<string>, fallback: Option<string>, players: seq<string>): (r: Option<string>)
    ensures r.Some? ==> r.value != [] && IsTrimmed(r.value) && !OneOf(r.value, Placeholders)
  {
    var cs := Candidates(actor, fallback, players);
    FirstCandidateIsFirst(cs, 0);
    FirstCandidate(cs, 0)
  }

  /** The name is the first candidate, in the order actor, fallback, then the
      players, that is non-empty once trimmed and not a placeholder; there is
      none exactly when no candidate qualifies. */
  lemma ResolvePlayerNameFirst(actor: Option<string>, fallback: Option<string>, players: seq<string>)
    ensures var cs := Candidates(actor, fallback, players);
      var r := ResolvePlayerName(actor, fallback, players);
      (r.None? <==> forall k :: 0 <= k < |cs| ==> Candidate(cs[k]).None?) &&
      (r.Some? ==> exists k :: 0 <= k < |cs| && Candidate(cs[k]) == r &&
                     forall j :: 0 <= j < k ==> Candidate(cs[j]).None?)
  {
    FirstCandidateIsFirst(Candidates(actor, fallback, players), 0);
  }

  /** A named actor that is not a placeholder is its own player. */
  lemma ResolveNamedActor(actor: string, fallback: Option<string>, players: seq<string>)
    requires Trim(actor) != [] && !OneOf(Trim(actor), Placeholders)
    ensures ResolvePlayerName(Some(actor), fallback, players) == Some(Trim(actor))
  {
  }

  /** The result of parseActiveChange. */
  datatype ActiveChange = ActiveChange(player: string, card: string)

  /** One pattern's attempt: its match, provided its actor resolves. */
  function Attempt(m: Option<(string, string)>, fallback: Option<string>, players: seq<string>): (r: Option<ActiveChange>)
    ensures r.Some? <==> m.Some? && ResolvePlayerName(Some(m.value.0), fallback, players).Some?
    ensures r.Some? ==> r.value == ActiveChange(ResolvePlayerName(Some(m.value.0), fallback, players).value, Trim(m.value.1))
  {
    match m
    case None => None
    case Some((actor, card)) =>
      match ResolvePlayerName(Some(actor), fallback, players)
      case Some(p) => Some(ActiveChange(p, Trim(card)))
      case None => None
  }

  /** `parseActiveChange(line, fallbackPlayer, players)`: the assign, switch
      and "is now" patterns in that order; a pattern whose actor does not
      resolve gives way to the next one. */
  function ParseActiveChange(line: string, fallback: Option<string>, players: seq<string>): (r: Option<ActiveChange>)
    ensures r.Some? ==> r.value.player != [] && !OneOf(r.value.player, Placeholders) && IsTrimmed(r.value.card)
    ensures r.Some? <==>
      Attempt(ActiveAssign(line), fallback, players).Some? ||
      Attempt(ActiveSwitch(line), fallback, players).Some? ||
      Attempt(ActiveIsNow(line), fallback, players).Some?
    ensures Attempt(ActiveAssign(line), fallback, players).Some? ==> r == Attempt(ActiveAssign(line), fallback, players)
    ensures Attempt(ActiveAssign(line), fallback, players).None? && Attempt(ActiveSwitch(line), fallback, players).Some? ==>
      r == Attempt(ActiveSwitch(line), fallback, players)
    ensures Attempt(ActiveAssign(line), fallback, players).None? && Attempt(ActiveSwitch(line), fallback, players).None? ==>
      r == Attempt(ActiveIsNow(line), fallback, players)
  {
    var a := Attempt(ActiveAssign(line), fallback, players);
    if a.Some? then a
    else
      var b := Attempt(ActiveSwitch(line), fallback, players);
      if b.Some? then b else Attempt(ActiveIsNow(line), fallback, players)
  }
}
