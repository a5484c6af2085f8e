/**
  Building blocks for the hand-written matchers that stand for the source's
  regular expressions. Only the shapes the source uses are provided:

  - a literal at a position, case-insensitively (`/i`);
  - a lazy group `(.+?)` or `(.*?)` followed by the rest of a pattern: the
    engine tries the group's possible ends from the shortest upwards and
    takes the first one for which the rest matches, which is `FirstSome`;
  - an end-anchored tail such as `(?: on the Bench)?\.?$`, tried after a lazy
    group: the group's shortest length whose remainder is one of the tail's
    spellings, which is `ShortestHead`;
  - an alternation `(?:a|b|c)`, tried in order, which is `AltAt`.

  The `.` of a pattern is taken to match every character of a line.
 */
module Patterns {
  import opened Wrappers
  import opened Text

  /** The first `k` in `[from, last]` for which `f(k)` is defined, with its value. */
  function FirstSome<T>(from: nat, last: nat, f: nat -> Option<T>): (r: Option<(nat, T)>)
    ensures r.Some? ==> from <= r.value.0 <= last && f(r.value.0) == Some(r.value.1)
    ensures r.Some? ==> forall k :: from <= k < r.value.0 ==> f(k).None?
    ensures r.None? ==> forall k :: from <= k <= last ==> f(k).None?
    decreases last + 1 - from
  {
    if from > last then None
    else match f(from)
      case Some(v) => Some((from, v))
      case None => FirstSome(from + 1, last, f)
  }

  /** The value of the first match found by a search. */
  function Found<T>(r: Option<(nat, T)>): Option<T>
  {
    match r
    case Some((_, v)) => Some(v)
    case None => None
  }

  /** The first position at or after `from` where `lit` occurs, ignoring case. */
  function FindLit(s: string, lit: string, from: nat): (r: Option<nat>)
    ensures r.Some? ==> from <= r.value && LitAt(s, r.value, lit)
    ensures r.Some? ==> forall k :: from <= k < r.value ==> !LitAt(s, k, lit)
    ensures r.None? ==> forall k :: from <= k ==> !LitAt(s, k, lit)
    decreases |s| + 1 - from
  {
    if from > |s| then None
    else if LitAt(s, from, lit) then Some(from)
    else FindLit(s, lit, from + 1)
  }

  /** The search finds `p` when `lit` occurs there and not between `from` and `p`. */
  lemma FindLitAt(s: string, lit: string, from: nat, p: nat)
    requires from <= p && LitAt(s, p, lit)
    requires forall k :: from <= k < p ==> !LitAt(s, k, lit)
    ensures FindLit(s, lit, from) == Some(p)
  {
  }

  /** `/lit/i.test(s)`. */
  predicate Contains(s: string, lit: string)
  {
    FindLit(s, lit, 0).Some?
  }

  /** The first position at or after `from` where `lit` occurs, case-sensitively. */
  function FindExact(s: string, lit: string, from: nat): (r: Option<nat>)
    ensures r.Some? ==> from <= r.value && ExactAt(s, r.value, lit)
    ensures r.Some? ==> forall k :: from <= k < r.value ==> !ExactAt(s, k, lit)
    ensures r.None? ==> forall k :: from <= k ==> !ExactAt(s, k, lit)
    decreases |s| + 1 - from
  {
    if from > |s| then None
    else if ExactAt(s, from, lit) then Some(from)
    else FindExact(s, lit, from + 1)
  }

  /** The first alternative of `alts` that occurs at `i`, ignoring case
      (an alternation group is tried left to right). */
  function AltAt(s: string, i: nat, alts: seq<string>): (r: Option<string>)
    ensures r.Some? ==> r.value in alts && LitAt(s, i, r.value)
    ensures r.None? ==> forall a :: a in alts ==> !LitAt(s, i, a)
  {
    if alts == [] then None
    else if LitAt(s, i, alts[0]) then Some(alts[0])
    else AltAt(s, i, alts[1..])
  }

  /** `x` equals one of `alts`, ignoring case. */
  predicate OneOf(x: string, alts: seq<string>)
  {
    alts != [] && (EqFold(x, alts[0]) || OneOf(x, alts[1..]))
  }

  /** The shortest length `L >= 1` of a lazy group at the start of `r` whose
      remainder `r[L..]` is one of the spellings in `tails`. */
  function ShortestHead(r: string, tails: seq<string>): (L: Option<nat>)
    ensures L.Some? ==> 1 <= L.value <= |r| && OneOf(r[L.value..], tails)
    ensures L.Some? ==> forall k :: 1 <= k < L.value ==> !OneOf(r[k..], tails)
    ensures L.None? ==> forall k :: 1 <= k <= |r| ==> !OneOf(r[k..], tails)
  {
    ShortestHeadFrom(r, tails, 1)
  }

  function ShortestHeadFrom(r: string, tails: seq<string>, k: nat): (L: Option<nat>)
    requires 1 <= k
    ensures L.Some? ==> k <= L.value <= |r| && OneOf(r[L.value..], tails)
    ensures L.Some? ==> forall j :: k <= j < L.value ==> !OneOf(r[j..], tails)
    ensures L.None? ==> forall j :: k <= j <= |r| ==> !OneOf(r[j..], tails)
    decreases |r| + 1 - k
  {
    if k > |r| then None
    else if OneOf(r[k..], tails) then Some(k)
    else ShortestHeadFrom(r, tails, k + 1)
  }

  /** Every `x + y`: the spellings of an optional group followed by an
      optional punctuation mark. */
  function Cross(xs: seq<string>, ys: seq<string>): (r: seq<string>)
    ensures |r| == |xs| * |ys|
  {
    if xs == [] then [] else Suffixed(xs[0], ys) + Cross(xs[1..], ys)
  }

  function Suffixed(x: string, ys: seq<string>): (r: seq<string>)
    ensures |r| == |ys|
    ensures forall k :: 0 <= k < |ys| ==> r[k] == x + ys[k]
  {
    if ys == [] then [] else [x + ys[0]] + Suffixed(x, ys[1..])
  }

  /** `OneOf` holds exactly when some alternative matches. */
  lemma {:induction false} OneOfAt(x: string, alts: seq<string>) returns (k: nat)
    requires OneOf(x, alts)
    ensures k < |alts| && EqFold(x, alts[k])
  {
    if EqFold(x, alts[0]) {
      k := 0;
    } else {
      var k' := OneOfAt(x, alts[1..]);
      k := k' + 1;
    }
  }

  /** An alternative that matches makes `OneOf` hold. */
  lemma {:induction false} OneOfIn(x: string, alts: seq<string>, k: nat)
    requires k < |alts| && EqFold(x, alts[k])
    ensures OneOf(x, alts)
  {
    if k > 0 {
      OneOfIn(x, alts[1..], k - 1);
    }
  }

  /** Every spelling listed by `Cross` is one group followed by one mark. */
  lemma {:induction false} CrossAt(xs: seq<string>, ys: seq<string>, k: nat) returns (i: nat, j: nat)
    requires k < |Cross(xs, ys)|
    ensures i < |xs| && j < |ys| && Cross(xs, ys)[k] == xs[i] + ys[j]
  {
    if k < |ys| {
      i, j := 0, k;
    } else {
      var i', j' := CrossAt(xs[1..], ys, k - |ys|);
      i, j := i' + 1, j';
      assert Cross(xs, ys)[k] == Cross(xs[1..], ys)[k - |ys|];
    }
  }

  /** A string that is one of the spellings of `Cross(xs, ys)` spells one
      group of `xs` followed by one mark of `ys`. */
  lemma OneOfCross(x: string, xs: seq<string>, ys: seq<string>) returns (i: nat, j: nat)
    requires OneOf(x, Cross(xs, ys))
    ensures i < |xs| && j < |ys| && EqFold(x, xs[i] + ys[j])
  {
    var k := OneOfAt(x, Cross(xs, ys));
    i, j := CrossAt(xs, ys, k);
  }
}
