/**
  The turn-header pattern shared by both log parsers,
  `^Turn #\s*(\d+)\s*-\s*(.+?)'s Turn` with the `i` flag: the turn number and
  the trimmed name of the player whose turn begins.
 */
module TurnHeader {
  import opened Wrappers
  import opened Text
  import opened Patterns

  datatype Header = Header(number: nat, player: string)

  /** Matches the turn-header pattern at the start of `line`. The greedy
      `\s*` and `\d+` never need to give characters back; what follows the
      dash is `HeaderName`. */
  function ParseTurnHeader(line: string): (r: Option<Header>)
    ensures r.Some? ==> LitAt(line, 0, "Turn #")
    ensures r.Some? ==> exists a, d, b, c, p :: HeaderShape(line, a, d, b, c, p, r.value)
  {
    if !LitAt(line, 0, "Turn #") then None
    else
      var a := 6 + SpaceRun(line, 6);
      var d := DigitRun(line, a);
      if d == 0 then None
      else
        var b := a + d + SpaceRun(line, a + d);
        if !LitAt(line, b, "-") then None
        else
          match HeaderName(line, b + 1)
          case Some(name) =>
            DigitRunAll(line, a);
            var h := Header(DigitsValue(line[a..a + d]), name);
            SpaceRunAll(line, 6);
            SpaceRunAll(line, a + d);
            HeaderShapeOf(line, a, d, b, h);
            Some(h)
          case None => None
  }

  /** `\s*(.+?)'s Turn` from position `c`, with the capture trimmed. The
      greedy `\s*` takes every blank; when no "'s Turn" follows the first
      non-blank character, the engine gives one blank back, so that the
      capture is that blank alone (trimmed to the empty name). */
  function HeaderName(line: string, c: nat): (r: Option<string>)
    requires c <= |line|
    ensures r.Some? ==> IsTrimmed(r.value)
  {
    var k := SpaceRun(line, c);
    match FindLit(line, "'s Turn", c + k + 1)
    case Some(p) => Some(Trim(line[c + k..p]))
    case None =>
      if k > 0 && LitAt(line, c + k, "'s Turn") then Some("")
      else None
  }

  /** How the name part of a header lies in `line` after the dash: blanks
      from `c0` up to `c`, and the first "'s Turn" after `c` at `p`; the
      name is what lies between `c` and `p`, trimmed. */
  predicate NameShape(line: string, c0: nat, c: nat, p: nat, name: string)
  {
    c0 <= c < p && p + 7 <= |line| &&
    (forall k :: c0 <= k < c ==> IsSpace(line[k])) &&
    LitAt(line, p, "'s Turn") && (forall q :: c < q < p ==> !LitAt(line, q, "'s Turn")) &&
    name == Trim(line[c..p])
  }

  /** How a header match lies in `line`: "Turn #" at the start, blanks up
      to `a`, the `d` digits of the number, blanks up to the dash at `b`, and
      the name part after the dash. */
  predicate HeaderShape(line: string, a: nat, d: nat, b: nat, c: nat, p: nat, h: Header)
  {
    6 <= a && 0 < d && a + d <= b && b < |line| &&
    LitAt(line, 0, "Turn #") &&
    (forall k :: 6 <= k < a ==> IsSpace(line[k])) &&
    (forall k :: a <= k < a + d ==> IsDigit(line[k])) && h.number == DigitsValue(line[a..a + d]) &&
    (forall k :: a + d <= k < b ==> IsSpace(line[k])) && LitAt(line, b, "-") &&
    NameShape(line, b + 1, c, p, h.player)
  }

  /** A name read by `HeaderName` is the trimmed text before the first
      "'s Turn" after the blanks. */
  lemma HeaderNameFromLine(line: string, c0: nat)
    requires c0 <= |line| && HeaderName(line, c0).Some?
    ensures exists c, p :: NameShape(line, c0, c, p, HeaderName(line, c0).value)
  {
    var k := SpaceRun(line, c0);
    SpaceRunAll(line, c0);
    match FindLit(line, "'s Turn", c0 + k + 1)
    case Some(p) =>
      assert NameShape(line, c0, c0 + k, p, HeaderName(line, c0).value);
    case None =>
      assert k > 0 && LitAt(line, c0 + k, "'s Turn") && HeaderName(line, c0) == Some("");
      BlankName(line, c0, c0 + k);
  }

  /** The name the engine gets by giving one blank back. */
  lemma BlankName(line: string, c0: nat, p: nat)
    requires c0 < p && LitAt(line, p, "'s Turn")
    requires forall k :: c0 <= k < p ==> IsSpace(line[k])
    ensures NameShape(line, c0, p - 1, p, "")
  {
    assert line[p - 1..p] == [line[p - 1]];
    TrimEmpty(line[p - 1..p]);
  }

  /** The parts of a header match assembled into its shape. */
  lemma HeaderShapeOf(line: string, a: nat, d: nat, b: nat, h: Header)
    requires 6 <= a && 0 < d && a + d <= b < |line|
    requires LitAt(line, 0, "Turn #") && LitAt(line, b, "-")
    requires forall k :: 6 <= k < a ==> IsSpace(line[k])
    requires forall k :: a <= k < a + d ==> IsDigit(line[k])
    requires h.number == DigitsValue(line[a..a + d])
    requires forall k :: a + d <= k < b ==> IsSpace(line[k])
    requires HeaderName(line, b + 1) == Some(h.player)
    ensures exists c, p :: HeaderShape(line, a, d, b, c, p, h)
  {
    HeaderNameFromLine(line, b + 1);
    var c, p :| NameShape(line, b + 1, c, p, h.player);
    assert HeaderShape(line, a, d, b, c, p, h);
  }

  /** The header line the game client writes for a turn. */
  function HeaderLine(number: nat, player: string): string
  {
    "Turn #" + NatToString(number) + " - " + player + "'s Turn"
  }

  /** A player name the pattern reads back whole: non-empty, trimmed, and
      without "'s Turn" inside it. */
  predicate PlainName(player: string)
  {
    player != [] && IsTrimmed(player) &&
    forall k :: 0 <= k < |player| ==> !LitAt(player + "'s Turn", k, "'s Turn")
  }

  /** Reading back a written header gives its number and player. */
  lemma HeaderRoundTrip(number: nat, player: string)
    requires PlainName(player)
    ensures ParseTurnHeader(HeaderLine(number, player)) == Some(Header(number, player))
  {
    var ds := NatToString(number);
    var line := HeaderLine(number, player);
    var b := 6 + |ds|;
    HeaderPrefix(line, ds, " - " + player + "'s Turn");
    AfterNumber(line, b, player);
    NatToStringValue(number);
    HeaderFromParts(line, ds, number, player);
  }

  /** The match assembled from its parts. */
  lemma HeaderFromParts(line: string, ds: string, number: nat, player: string)
    requires ds != [] && (forall k :: 0 <= k < |ds| ==> IsDigit(ds[k])) && DigitsValue(ds) == number
    requires LitAt(line, 0, "Turn #") && SpaceRun(line, 6) == 0
    requires DigitRun(line, 6) == |ds| && line[6..6 + |ds|] == ds
    requires SpaceRun(line, 6 + |ds|) == 1 && LitAt(line, 6 + |ds| + 1, "-")
    requires HeaderName(line, 6 + |ds| + 2) == Some(player)
    ensures ParseTurnHeader(line) == Some(Header(number, player))
  {
    var d := |ds|;
    var b := 6 + d + 1;
    assert 6 + SpaceRun(line, 6) == 6;
    assert 6 + d + SpaceRun(line, 6 + d) == b;
    assert DigitsValue(line[6..6 + d]) == number;
  }

  /** The number part of a written header. */
  lemma HeaderPrefix(line: string, ds: string, tail: string)
    requires line == "Turn #" + ds + tail
    requires ds != [] && (forall k :: 0 <= k < |ds| ==> IsDigit(ds[k]))
    requires tail != [] && !IsDigit(tail[0])
    ensures LitAt(line, 0, "Turn #") && SpaceRun(line, 6) == 0
    ensures DigitRun(line, 6) == |ds| && line[6..6 + |ds|] == ds
    ensures line[6 + |ds|..] == tail
  {
    assert line[..6] == "Turn #";
    assert line[6] == ds[0];
    assert line[6..6 + |ds|] == ds;
    assert line[6 + |ds|] == tail[0];
    DigitRunOf(line, 6, ds);
  }

  /** The dash and the name part of a written header. */
  lemma AfterNumber(line: string, b: nat, player: string)
    requires PlainName(player)
    requires b <= |line| && line[b..] == " - " + player + "'s Turn"
    ensures SpaceRun(line, b) == 1 && LitAt(line, b + 1, "-")
    ensures HeaderName(line, b + 2) == Some(player)
  {
    assert line[b] == ' ' && line[b + 1] == '-';
    assert SpaceRun(line, b + 1) == 0;
    assert line[b + 1..b + 2] == "-";
    assert line[b + 2..] == " " + player + "'s Turn";
    HeaderNameOf(line, b + 2, player);
  }

  lemma HeaderNameOf(line: string, c: nat, player: string)
    requires PlainName(player)
    requires c <= |line| && line[c..] == " " + player + "'s Turn"
    ensures HeaderName(line, c) == Some(player)
  {
    assert SpaceRun(line, c) == 1 by {
      assert line[c] == ' ' && line[c + 1] == player[0];
      assert SpaceRun(line, c + 1) == 0;
    }
    var p := c + 1 + |player|;
    assert line[c + 1..] == line[c..][1..];
    MarkerOnlyAtEnd(line, c + 1, player);
    FindLitAt(line, "'s Turn", c + 2, p);
    assert line[c + 1..p] == player;
    TrimOfTrimmed(player);
  }

  /** In `player + "'s Turn"` written at `start`, the marker occurs after the
      name and nowhere inside it. */
  lemma MarkerOnlyAtEnd(line: string, start: nat, player: string)
    requires PlainName(player)
    requires start <= |line| && line[start..] == player + "'s Turn"
    ensures LitAt(line, start + |player|, "'s Turn")
    ensures forall q :: start <= q < start + |player| ==> !LitAt(line, q, "'s Turn")
  {
    var tail := player + "'s Turn";
    var p := start + |player|;
    assert line[p..p + 7] == tail[|player|..];
    forall q | start <= q < p
      ensures !LitAt(line, q, "'s Turn")
    {
      var k := q - start;
      assert line[q..q + 7] == tail[k..k + 7];
      assert !LitAt(tail, k, "'s Turn");
    }
  }

  lemma DigitRunOf(s: string, i: nat, ds: string)
    requires ds != [] && forall k :: 0 <= k < |ds| ==> IsDigit(ds[k])
    requires i + |ds| < |s| && s[i..i + |ds|] == ds && !IsDigit(s[i + |ds|])
    ensures DigitRun(s, i) == |ds|
    decreases |ds|
  {
    assert s[i] == ds[0];
    if |ds| > 1 {
      assert s[i + 1..i + 1 + |ds[1..]|] == ds[1..];
      DigitRunOf(s, i + 1, ds[1..]);
    } else {
      assert DigitRun(s, i + 1) == 0;
    }
  }
}
