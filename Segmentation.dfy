/**
  How both log parsers cut the lines of a log into a setup and turns: every
  line up to the first turn header belongs to the setup; a header opens a
  new turn; every other line becomes an action of the turn that is open.

  The segmentation is stated once for any header recogniser `hdr` and any
  action builder `act`: the viewer's parser keeps each line as it is, the
  sample-log script classifies it.
 */
module Segmentation {
  import opened Wrappers
  import opened TurnHeader

  /** A turn: the number and player of its header, and its actions. */
  datatype Turn<A> = Turn(number: nat, player: string, actions: seq<A>)

  datatype Segmented<A> = Segmented(setup: seq<string>, turns: seq<Turn<A>>)

  function AppendToLast<A>(turns: seq<Turn<A>>, a: A): (r: seq<Turn<A>>)
    requires turns != []
    ensures |r| == |turns| && r[..|r| - 1] == turns[..|turns| - 1]
    ensures r[|r| - 1].actions == turns[|turns| - 1].actions + [a]
  {
    var t := turns[|turns| - 1];
    turns[..|turns| - 1] + [t.(actions := t.actions + [a])]
  }

  /** One line of the segmentation, given what the header pattern makes of
      it (`h`) and the action built from it (`a`). */
  function SegStep<A>(prev: Segmented<A>, x: string, h: Option<Header>, a: A): Segmented<A>
  {
    match h
    case Some(hd) => Segmented(prev.setup, prev.turns + [Turn(hd.number, hd.player, [])])
    case None =>
      if prev.turns == [] then Segmented(prev.setup + [x], [])
      else Segmented(prev.setup, AppendToLast(prev.turns, a))
  }

  /** The segmentation of the first `n` lines. */
  function SegmentPrefix<A>(lines: seq<string>, n: nat, hdr: string -> Option<Header>, act: string -> A): Segmented<A>
    requires n <= |lines|
  {
    if n == 0 then Segmented([], [])
    else SegStep(SegmentPrefix(lines, n - 1, hdr, act), lines[n - 1], hdr(lines[n - 1]), act(lines[n - 1]))
  }

  function Segment<A>(lines: seq<string>, hdr: string -> Option<Header>, act: string -> A): Segmented<A>
  {
    SegmentPrefix(lines, |lines|, hdr, act)
  }

  /** The header lines among the first `n`, in order. */
  function Headers(lines: seq<string>, n: nat, hdr: string -> Option<Header>): (r: seq<string>)
    requires n <= |lines|
    ensures forall k :: 0 <= k < |r| ==> hdr(r[k]).Some?
  {
    if n == 0 then []
    else Headers(lines, n - 1, hdr) + (if hdr(lines[n - 1]).Some? then [lines[n - 1]] else [])
  }

  /** The lines among the first `n` that are not headers, in order. */
  function Body(lines: seq<string>, n: nat, hdr: string -> Option<Header>): (r: seq<string>)
    requires n <= |lines|
    ensures forall k :: 0 <= k < |r| ==> hdr(r[k]).None?
  {
    if n == 0 then []
    else Body(lines, n - 1, hdr) + (if hdr(lines[n - 1]).Some? then [] else [lines[n - 1]])
  }

  /** The action built from each line. */
  function Acts<A>(xs: seq<string>, act: string -> A): (r: seq<A>)
    ensures |r| == |xs| && forall k :: 0 <= k < |xs| ==> r[k] == act(xs[k])
  {
    seq(|xs|, k requires 0 <= k < |xs| => act(xs[k]))
  }

  /** All actions of all turns, in turn order. */
  function TurnActions<A>(turns: seq<Turn<A>>): seq<A>
  {
    if turns == [] then [] else TurnActions(turns[..|turns| - 1]) + turns[|turns| - 1].actions
  }

  lemma TurnActionsSnoc<A>(turns: seq<Turn<A>>, t: Turn<A>)
    ensures TurnActions(turns + [t]) == TurnActions(turns) + t.actions
  {
    assert (turns + [t])[..|turns|] == turns;
  }

  lemma TurnActionsAppendToLast<A>(turns: seq<Turn<A>>, a: A)
    requires turns != []
    ensures TurnActions(AppendToLast(turns, a)) == TurnActions(turns) + [a]
  {
    var r := AppendToLast(turns, a);
    assert r[..|r| - 1] == turns[..|turns| - 1];
  }

  /** The setup followed by the lines the actions were built from is `b`. */
  ghost predicate OrderedAs<A>(seg: Segmented<A>, b: seq<string>, act: string -> A)
  {
    |seg.setup| <= |b| && seg.setup == b[..|seg.setup|] &&
    TurnActions(seg.turns) == Acts(b[|seg.setup|..], act)
  }

  lemma OrderStep<A>(prev: Segmented<A>, b: seq<string>, x: string, h: Option<Header>, act: string -> A)
    requires OrderedAs(prev, b, act)
    ensures OrderedAs(SegStep(prev, x, h, act(x)), if h.Some? then b else b + [x], act)
  {
    match h
    case Some(hd) =>
      TurnActionsSnoc(prev.turns, Turn(hd.number, hd.player, []));
    case None =>
      var b' := b + [x];
      assert b'[..|prev.setup|] == b[..|prev.setup|];
      if prev.turns != [] {
        TurnActionsAppendToLast(prev.turns, act(x));
        assert b'[|prev.setup|..] == b[|prev.setup|..] + [x];
      } else {
        assert |b| == |prev.setup|;
        assert b'[..|prev.setup| + 1] == prev.setup + [x];
      }
  }

  /** Nothing is lost or reordered: the non-header lines are the setup
      followed by the lines the turns' actions were built from, in order. */
  lemma {:induction false} SegmentKeepsOrder<A>(lines: seq<string>, n: nat, hdr: string -> Option<Header>, act: string -> A)
    requires n <= |lines|
    ensures OrderedAs(SegmentPrefix(lines, n, hdr, act), Body(lines, n, hdr), act)
  {
    if n > 0 {
      var x := lines[n - 1];
      var prev := SegmentPrefix(lines, n - 1, hdr, act);
      SegmentKeepsOrder(lines, n - 1, hdr, act);
      OrderStep(prev, Body(lines, n - 1, hdr), x, hdr(x), act);
      assert SegmentPrefix(lines, n, hdr, act) == SegStep(prev, x, hdr(x), act(x));
      assert Body(lines, n, hdr) == if hdr(x).Some? then Body(lines, n - 1, hdr) else Body(lines, n - 1, hdr) + [x];
    }
  }

  lemma {:induction false} BodyAndHeaders(lines: seq<string>, n: nat, hdr: string -> Option<Header>)
    requires n <= |lines|
    ensures |Body(lines, n, hdr)| + |Headers(lines, n, hdr)| == n
  {
    if n > 0 {
      BodyAndHeaders(lines, n - 1, hdr);
    }
  }

  /** The k-th turn carries the number and the player of the k-th header. */
  ghost predicate TurnsOf<A>(turns: seq<Turn<A>>, hs: seq<string>, hdr: string -> Option<Header>)
  {
    |turns| == |hs| &&
    forall k :: 0 <= k < |hs| ==> hdr(hs[k]) == Some(Header(turns[k].number, turns[k].player))
  }

  lemma TurnsStep<A>(prev: Segmented<A>, hs: seq<string>, x: string, hdr: string -> Option<Header>, a: A)
    requires TurnsOf(prev.turns, hs, hdr)
    ensures TurnsOf(SegStep(prev, x, hdr(x), a).turns, if hdr(x).Some? then hs + [x] else hs, hdr)
  {
    var turns := SegStep(prev, x, hdr(x), a).turns;
    if hdr(x).None? && prev.turns != [] {
      assert forall k :: 0 <= k < |turns| - 1 ==> turns[k] == prev.turns[k];
    }
  }

  /** One turn per header line; the k-th turn carries the number and the
      player of the k-th header. */
  lemma {:induction false} SegmentTurnsFromHeaders<A>(lines: seq<string>, n: nat, hdr: string -> Option<Header>, act: string -> A)
    requires n <= |lines|
    ensures TurnsOf(SegmentPrefix(lines, n, hdr, act).turns, Headers(lines, n, hdr), hdr)
  {
    if n > 0 {
      SegmentTurnsFromHeaders(lines, n - 1, hdr, act);
      TurnsStep(SegmentPrefix(lines, n - 1, hdr, act), Headers(lines, n - 1, hdr), lines[n - 1], hdr, act(lines[n - 1]));
    }
  }

  /** Line conservation: setup lines, actions and header lines together
      account for every line. */
  lemma SegmentConservation<A>(lines: seq<string>, hdr: string -> Option<Header>, act: string -> A)
    ensures var seg := Segment(lines, hdr, act);
      |seg.setup| + |TurnActions(seg.turns)| + |seg.turns| == |lines|
  {
    SegmentKeepsOrder(lines, |lines|, hdr, act);
    SegmentTurnsFromHeaders(lines, |lines|, hdr, act);
    BodyAndHeaders(lines, |lines|, hdr);
  }

  /** The setup is exactly the lines before the first header: a line read
      while no turn is open only occurs before any header, so no line after
      the first header ever joins the setup. */
  lemma {:induction false} SegmentSetupIsPrefix<A>(lines: seq<string>, n: nat, hdr: string -> Option<Header>, act: string -> A)
    requires n <= |lines|
    ensures var setup := SegmentPrefix(lines, n, hdr, act).setup;
      |setup| <= n && setup == lines[..|setup|] &&
      (forall k :: 0 <= k < |setup| ==> hdr(lines[k]).None?) &&
      (|setup| < n ==> hdr(lines[|setup|]).Some?)
    ensures SegmentPrefix(lines, n, hdr, act).turns == [] <==> |SegmentPrefix(lines, n, hdr, act).setup| == n
  {
    if n > 0 {
      SegmentSetupIsPrefix(lines, n - 1, hdr, act);
      SetupStep(lines, n, SegmentPrefix(lines, n - 1, hdr, act), hdr, act(lines[n - 1]));
    }
  }

  /** The setup of `seg` is the lines before the first header among the
      first `n`, and there is no turn exactly when no header was seen. */
  ghost predicate SetupBefore<A>(seg: Segmented<A>, lines: seq<string>, n: nat, hdr: string -> Option<Header>)
    requires n <= |lines|
  {
    var setup := seg.setup;
    |setup| <= n && setup == lines[..|setup|] &&
    (forall k :: 0 <= k < |setup| ==> hdr(lines[k]).None?) &&
    (|setup| < n ==> hdr(lines[|setup|]).Some?) &&
    (seg.turns == [] <==> |setup| == n)
  }

  lemma SetupStep<A>(lines: seq<string>, n: nat, prev: Segmented<A>, hdr: string -> Option<Header>, a: A)
    requires 0 < n <= |lines| && SetupBefore(prev, lines, n - 1, hdr)
    ensures SetupBefore(SegStep(prev, lines[n - 1], hdr(lines[n - 1]), a), lines, n, hdr)
  {
    var x := lines[n - 1];
    if hdr(x).None? && prev.turns == [] {
      assert lines[..n] == lines[..n - 1] + [x];
    }
  }

  /** The turns so far: the finished ones and the open one last. */
  function Close<A>(turns: seq<Turn<A>>, current: Option<Turn<A>>): seq<Turn<A>>
  {
    if current.Some? then turns + [current.value] else turns
  }

  /** One more line extends the segmentation by one step. */
  lemma SegmentSnoc<A>(lines: seq<string>, x: string, hdr: string -> Option<Header>, act: string -> A)
    ensures Segment(lines + [x], hdr, act) == SegStep(Segment(lines, hdr, act), x, hdr(x), act(x))
  {
    var longer := lines + [x];
    SegmentPrefixOfLonger(lines, [x], |lines|, hdr, act);
    assert longer[|longer| - 1] == x;
    assert Segment(longer, hdr, act) == SegStep(SegmentPrefix(longer, |lines|, hdr, act), x, hdr(x), act(x));
  }

  /** The segmentation of a prefix does not depend on the lines after it. */
  lemma {:induction false} SegmentPrefixOfLonger<A>(lines: seq<string>, more: seq<string>, n: nat, hdr: string -> Option<Header>, act: string -> A)
    requires n <= |lines|
    ensures SegmentPrefix(lines + more, n, hdr, act) == SegmentPrefix(lines, n, hdr, act)
  {
    if n > 0 {
      var longer := lines + more;
      SegmentPrefixOfLonger(lines, more, n - 1, hdr, act);
      var x := lines[n - 1];
      assert longer[n - 1] == x;
      assert SegmentPrefix(longer, n, hdr, act) == SegStep(SegmentPrefix(longer, n - 1, hdr, act), x, hdr(x), act(x));
    }
  }
}
