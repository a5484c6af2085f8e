/**
  The card-name normaliser of the server (server/src/normalizeName.js):
  full-width ASCII forms become ASCII, quotation marks are dropped, every
  whitespace run becomes one space, and the ends are trimmed.
 */
module NameNormalizer {
  import opened Wrappers
  import opened Text

  /** The full-width forms U+FF01 to U+FF5E of the ASCII characters '!' to '~'. */
  predicate IsFullWidth(c: char)
  {
    '\U{FF01}' <= c <= '\U{FF5E}'
  }

  /** `normalizeFullWidth(char)`: the ASCII character the form stands for. */
  function NormalizeFullWidth(c: char): (r: char)
    requires IsFullWidth(c)
    ensures '!' <= r <= '~' && r as int + 0xFEE0 == c as int
  {
    (c as int - 0xFEE0) as char
  }

  /** The quotation marks the normaliser drops. */
  predicate IsQuote(c: char)
  {
    c == '\U{2019}' || c == '\'' || c == '\U{201C}' || c == '\U{201D}' ||
    c == '\U{300C}' || c == '\U{300D}' || c == '\U{300E}' || c == '\U{300F}'
  }

  /** What the first replacement makes of one character. */
  function Narrow(c: char): char
  {
    if IsFullWidth(c) then NormalizeFullWidth(c) else c
  }

  /** `s.replace(/[！-～]/g, normalizeFullWidth)`. */
  function NarrowAll(s: string): (r: string)
    ensures |r| == |s| && forall k :: 0 <= k < |s| ==> r[k] == Narrow(s[k])
  {
    seq(|s|, k requires 0 <= k < |s| => Narrow(s[k]))
  }

  /** `s.replace(/[’'“”「」『』]/g, '')`. */
  function StripQuotes(s: string): string
  {
    if s == [] then [] else (if IsQuote(s[0]) then [] else [s[0]]) + StripQuotes(s[1..])
  }

  /** `s.replace(/\s+/g, ' ')`. */
  function CollapseWhitespace(s: string): string
    decreases |s|
  {
    if s == [] then []
    else if IsSpace(s[0]) then " " + CollapseWhitespace(s[SpaceRun(s, 0)..])
    else [s[0]] + CollapseWhitespace(s[1..])
  }

  /** `normalizeName(raw)`; an absent name is `None`. */
  function NormalizeName(raw: Option<string>): string
  {
    match raw
    case None => ""
    case Some(s) => if s == [] then "" else Trim(CollapseWhitespace(StripQuotes(NarrowAll(s))))
  }

  // ---------------------------------------------------------------------
  // What the output looks like
  // ---------------------------------------------------------------------

  /** Neither a full-width form nor a quotation mark. */
  predicate Plain(c: char)
  {
    !IsFullWidth(c) && !IsQuote(c)
  }

  predicate AllPlain(s: string)
  {
    forall k :: 0 <= k < |s| ==> Plain(s[k])
  }

  /** Every whitespace character is a space, and no two are adjacent. */
  predicate SingleSpaced(s: string)
  {
    forall k :: 0 <= k < |s| && IsSpace(s[k]) ==> s[k] == ' ' && (k + 1 < |s| ==> !IsSpace(s[k + 1]))
  }

  /** The characters of `s` other than whitespace, in order. */
  function NonSpace(s: string): string
  {
    if s == [] then [] else (if IsSpace(s[0]) then [] else [s[0]]) + NonSpace(s[1..])
  }

  /** What survives of `raw` apart from whitespace: each character narrowed,
      and dropped when it then is a quotation mark or whitespace. */
  function Content(raw: string): string
  {
    if raw == [] then []
    else
      var w := Narrow(raw[0]);
      (if IsQuote(w) || IsSpace(w) then [] else [w]) + Content(raw[1..])
  }

  lemma {:induction false} StripQuotesPlain(s: string)
    requires forall k :: 0 <= k < |s| ==> !IsFullWidth(s[k])
    ensures AllPlain(StripQuotes(s))
  {
    if s != [] {
      StripQuotesPlain(s[1..]);
    }
  }

  /** The collapse keeps every plain string plain and leaves it single
      spaced, with the same characters besides whitespace; its result starts
      with whitespace only where its input does. */
  lemma {:induction false} CollapseFacts(s: string)
    ensures var r := CollapseWhitespace(s);
      (AllPlain(s) ==> AllPlain(r)) && SingleSpaced(r) && NonSpace(r) == NonSpace(s) &&
      (r != [] <==> s != []) && (r != [] ==> (IsSpace(r[0]) <==> IsSpace(s[0])))
    decreases |s|
  {
    if s != [] {
      if IsSpace(s[0]) {
        var n := SpaceRun(s, 0);
        SpaceRunAll(s, 0);
        var rest := CollapseWhitespace(s[n..]);
        assert CollapseWhitespace(s) == [' '] + rest;
        CollapseFacts(s[n..]);
        NonSpaceOfSpaces(s, n);
        assert AllPlain(s) ==> AllPlain(s[n..]) by {
          assert forall k :: 0 <= k < |s[n..]| ==> s[n..][k] == s[n + k];
        }
        ConsFacts(' ', rest);
      } else {
        var rest := CollapseWhitespace(s[1..]);
        assert CollapseWhitespace(s) == [s[0]] + rest;
        CollapseFacts(s[1..]);
        assert NonSpace(s) == [s[0]] + NonSpace(s[1..]);
        assert AllPlain(s) ==> Plain(s[0]) && AllPlain(s[1..]) by {
          assert forall k :: 0 <= k < |s[1..]| ==> s[1..][k] == s[k + 1];
        }
        ConsFacts(s[0], rest);
      }
    }
  }

  /** What putting one character in front of a string does to the three
      properties. */
  lemma ConsFacts(c: char, rest: string)
    ensures var r := [c] + rest;
      (Plain(c) && AllPlain(rest) ==> AllPlain(r)) &&
      (SingleSpaced(rest) && (IsSpace(c) ==> c == ' ' && (rest != [] ==> !IsSpace(rest[0]))) ==> SingleSpaced(r)) &&
      NonSpace(r) == (if IsSpace(c) then [] else [c]) + NonSpace(rest)
  {
    var r := [c] + rest;
    assert r[1..] == rest;
    assert forall k :: 1 <= k < |r| ==> r[k] == rest[k - 1];
  }

  lemma {:induction false} NonSpaceOfSpaces(s: string, n: nat)
    requires n <= |s| && forall k :: 0 <= k < n ==> IsSpace(s[k])
    ensures NonSpace(s) == NonSpace(s[n..])
    decreases n
  {
    if n > 0 {
      NonSpaceOfSpaces(s[1..], n - 1);
      assert s[1..][n - 1..] == s[n..];
    }
  }

  lemma {:induction false} NonSpaceAppend(a: string, b: string)
    ensures NonSpace(a + b) == NonSpace(a) + NonSpace(b)
  {
    if a != [] {
      NonSpaceAppend(a[1..], b);
      assert (a + b)[1..] == a[1..] + b;
    } else {
      assert a + b == b;
    }
  }

  lemma {:induction false} NonSpaceAllSpace(s: string)
    requires AllSpace(s)
    ensures NonSpace(s) == []
  {
    if s != [] {
      NonSpaceAllSpace(s[1..]);
    }
  }

  lemma SliceFacts(s: string, a: nat, b: nat)
    requires a <= b <= |s|
    ensures AllPlain(s) ==> AllPlain(s[a..b])
    ensures SingleSpaced(s) ==> SingleSpaced(s[a..b])
  {
    assert forall k :: 0 <= k < b - a ==> s[a..b][k] == s[a + k];
  }

  /** Trimming is a slice with whitespace on both sides: it keeps plain
      strings plain, single spacing, and the characters besides whitespace. */
  lemma TrimFacts(s: string)
    ensures (AllPlain(s) ==> AllPlain(Trim(s))) && (SingleSpaced(s) ==> SingleSpaced(Trim(s)))
    ensures NonSpace(Trim(s)) == NonSpace(s)
  {
    TrimKeepsMiddle(s);
    var a, b :| 0 <= a <= b <= |s| && Trim(s) == s[a..b] && AllSpace(s[..a]) && AllSpace(s[b..]);
    SliceFacts(s, a, b);
    NonSpaceAround(s, a, b);
  }

  lemma NonSpaceAround(s: string, a: nat, b: nat)
    requires a <= b <= |s| && AllSpace(s[..a]) && AllSpace(s[b..])
    ensures NonSpace(s[a..b]) == NonSpace(s)
  {
    var pre, mid, post := s[..a], s[a..b], s[b..];
    assert s == pre + mid + post;
    NonSpaceAppend(pre + mid, post);
    NonSpaceAppend(pre, mid);
    NonSpaceAllSpace(pre);
    NonSpaceAllSpace(post);
    assert NonSpace(s) == NonSpace(pre) + NonSpace(mid) + NonSpace(post);
  }

  lemma {:induction false} ContentOf(s: string)
    ensures NonSpace(StripQuotes(NarrowAll(s))) == Content(s)
  {
    if s != [] {
      ContentOf(s[1..]);
      var w := NarrowAll(s);
      assert w[1..] == NarrowAll(s[1..]);
      var head := if IsQuote(w[0]) then [] else [w[0]];
      NonSpaceAppend(head, StripQuotes(w[1..]));
    }
  }

  /** The normalised name has no full-width form and no quotation mark
      left, no whitespace at its ends, and no whitespace but single spaces
      between other characters; those other characters are the narrowed
      characters of the input that are not quotation marks, in order. */
  lemma NormalizeNameFacts(raw: Option<string>)
    ensures var r := NormalizeName(raw);
      AllPlain(r) && IsTrimmed(r) && SingleSpaced(r) &&
      NonSpace(r) == (if raw.Some? then Content(raw.value) else [])
  {
    if raw.Some? && raw.value != [] {
      var s := raw.value;
      var q := StripQuotes(NarrowAll(s));
      StripQuotesPlain(NarrowAll(s));
      CollapseFacts(q);
      TrimFacts(CollapseWhitespace(q));
      ContentOf(s);
    }
  }

  /** Each whitespace character of a normalised name is a space with a
      character other than whitespace on either side. */
  lemma SpacesIsolated(raw: Option<string>, k: nat)
    requires var r := NormalizeName(raw); k < |r| && IsSpace(r[k])
    ensures var r := NormalizeName(raw);
      r[k] == ' ' && 0 < k < |r| - 1 && !IsSpace(r[k - 1]) && !IsSpace(r[k + 1])
  {
    NormalizeNameFacts(raw);
  }

  // ---------------------------------------------------------------------
  // The normalised name as words joined by single spaces
  // ---------------------------------------------------------------------

  /** Length of the run of characters other than whitespace that starts at
      position `i`. */
  function WordRun(s: string, i: nat): (n: nat)
    requires i <= |s|
    ensures i + n <= |s| && (i + n == |s| || IsSpace(s[i + n]))
    ensures forall k :: i <= k < i + n ==> !IsSpace(s[k])
    decreases |s| - i
  {
    if i == |s| || IsSpace(s[i]) then 0 else 1 + WordRun(s, i + 1)
  }

  /** The maximal runs of characters other than whitespace, in order. */
  function Words(s: string): (r: seq<string>)
    ensures forall i :: 0 <= i < |r| ==> r[i] != [] && NoSpace(r[i])
    decreases |s|
  {
    if s == [] then []
    else if IsSpace(s[0]) then
      var m := SpaceRun(s, 0);
      assert m > 0;
      Words(s[m..])
    else
      var n := WordRun(s, 0);
      assert n > 0;
      [s[..n]] + Words(s[n..])
  }

  /** The words joined with one space between neighbours. */
  function JoinSpace(ws: seq<string>): string
  {
    if ws == [] then "" else if |ws| == 1 then ws[0] else ws[0] + " " + JoinSpace(ws[1..])
  }

  /** Joining non-empty words without whitespace gives a non-empty string
      with a word character at each end. */
  lemma {:induction false} JoinSpaceTrimmed(ws: seq<string>)
    requires forall i :: 0 <= i < |ws| ==> ws[i] != [] && NoSpace(ws[i])
    ensures IsTrimmed(JoinSpace(ws))
    ensures ws != [] ==> JoinSpace(ws) != []
  {
    if |ws| > 1 {
      JoinSpaceTrimmed(ws[1..]);
      var j := JoinSpace(ws[1..]);
      assert ws[0] == ws[..1][0];
      assert JoinSpace(ws)[0] == ws[0][0];
      assert JoinSpace(ws)[|JoinSpace(ws)| - 1] == j[|j| - 1];
    } else if |ws| == 1 {
      assert ws[0] == ws[..1][0];
    }
  }

  /** The collapse copies a leading run of non-whitespace characters. */
  lemma {:induction false} CollapseWordPrefix(q: string, j: nat)
    requires j <= |q| && forall k :: 0 <= k < j ==> !IsSpace(q[k])
    ensures CollapseWhitespace(q) == q[..j] + CollapseWhitespace(q[j..])
    decreases j
  {
    if j > 0 {
      CollapseWordPrefix(q[1..], j - 1);
      assert q[1..][j - 1..] == q[j..];
      assert q[..j] == [q[0]] + q[1..][..j - 1];
    }
  }

  /** A leading space when the string starts with whitespace. */
  function Lead(q: string): string
  {
    if q != [] && IsSpace(q[0]) then " " else ""
  }

  /** The collapse is the words joined by single spaces, with one space in
      front when the string starts with whitespace and whitespace behind. */
  lemma {:induction false} CollapseWords(q: string) returns (trail: string)
    ensures AllSpace(trail)
    ensures CollapseWhitespace(q) == Lead(q) + JoinSpace(Words(q)) + trail
    decreases |q|
  {
    if q == [] {
      trail := "";
    } else if IsSpace(q[0]) {
      var m := SpaceRun(q, 0);
      var t := CollapseWords(q[m..]);
      trail := CollapseSpaceStep(q, t);
    } else {
      var n := WordRun(q, 0);
      var t := CollapseWords(q[n..]);
      trail := CollapseWordStep(q, t);
    }
  }

  /** A leading whitespace run becomes the one leading space. */
  lemma CollapseSpaceStep(q: string, t: string) returns (trail: string)
    requires q != [] && IsSpace(q[0])
    requires AllSpace(t)
    requires var rest := q[SpaceRun(q, 0)..];
      CollapseWhitespace(rest) == Lead(rest) + JoinSpace(Words(rest)) + t
    ensures AllSpace(trail)
    ensures CollapseWhitespace(q) == Lead(q) + JoinSpace(Words(q)) + trail
  {
    var rest := q[SpaceRun(q, 0)..];
    assert Words(q) == Words(rest);
    assert rest != [] ==> Lead(rest) == "";
    trail := t;
  }

  /** A leading word is copied, followed by the space before the next word. */
  lemma CollapseWordStep(q: string, t: string) returns (trail: string)
    requires q != [] && !IsSpace(q[0])
    requires AllSpace(t)
    requires var rest := q[WordRun(q, 0)..];
      CollapseWhitespace(rest) == Lead(rest) + JoinSpace(Words(rest)) + t
    ensures AllSpace(trail)
    ensures CollapseWhitespace(q) == Lead(q) + JoinSpace(Words(q)) + trail
  {
    var n := WordRun(q, 0);
    var w, rest := q[..n], q[n..];
    CollapseWordPrefix(q, n);
    WordsAfterWord(q);
    if Words(rest) == [] {
      trail := Lead(rest) + t;
      assert AllSpace(Lead(rest));
      AllSpaceAppend(Lead(rest), t);
      AssembleLast(CollapseWhitespace(q), w, CollapseWhitespace(rest), Lead(rest), t);
    } else {
      assert rest != [] && IsSpace(rest[0]);
      trail := t;
      AssembleInner(CollapseWhitespace(q), w, CollapseWhitespace(rest), JoinSpace(Words(rest)), t);
    }
  }

  /** The words of a string that starts with a word: that word, then the
      words of the rest. */
  lemma WordsAfterWord(q: string)
    requires q != [] && !IsSpace(q[0])
    ensures Words(q) == [q[..WordRun(q, 0)]] + Words(q[WordRun(q, 0)..])
    ensures JoinSpace([q[..WordRun(q, 0)]]) == q[..WordRun(q, 0)]
    ensures Words(q[WordRun(q, 0)..]) != [] ==>
      JoinSpace(Words(q)) == q[..WordRun(q, 0)] + " " + JoinSpace(Words(q[WordRun(q, 0)..]))
  {
  }

  lemma AllSpaceAppend(a: string, b: string)
    requires AllSpace(a) && AllSpace(b)
    ensures AllSpace(a + b)
  {
  }

  lemma AssembleLast(cq: string, w: string, cr: string, lr: string, t: string)
    requires cq == w + cr && cr == lr + "" + t
    ensures cq == "" + w + (lr + t)
  {
  }

  lemma AssembleInner(cq: string, w: string, cr: string, jr: string, t: string)
    requires cq == w + cr && cr == " " + jr + t
    ensures cq == "" + (w + " " + jr) + t
  {
  }

  /** Trimming a non-empty trimmed string between two whitespace runs gives
      that string. */
  lemma TrimSandwich(pre: string, mid: string, post: string)
    requires AllSpace(pre) && AllSpace(post) && IsTrimmed(mid) && mid != []
    ensures Trim(pre + mid + post) == mid
  {
    var s := pre + mid + post;
    var a := SpaceRun(s, 0);
    SpaceRunAll(s, 0);
    TrailingSpacesAll(s);
    assert s[|pre|] == mid[0];
    assert s[|pre| + |mid| - 1] == mid[|mid| - 1];
    assert a == |pre|;
    var t := TrailingSpaces(s);
    assert t == |post|;
    assert s[a..|s| - t] == mid;
  }

  /** The normalised name is the words of the narrowed, quote-free input
      joined by single spaces: every whitespace run between two words
      becomes exactly one space, and none is left at the ends. */
  lemma NormalizeAsWords(s: string)
    ensures NormalizeName(Some(s)) == JoinSpace(Words(StripQuotes(NarrowAll(s))))
  {
    var q := StripQuotes(NarrowAll(s));
    if s == [] {
      assert NarrowAll(s) == [];
    } else {
      var trail := CollapseWords(q);
      var j := JoinSpace(Words(q));
      JoinSpaceTrimmed(Words(q));
      if j == [] {
        TrimEmpty(CollapseWhitespace(q));
      } else {
        TrimSandwich(Lead(q), j, trail);
      }
    }
  }

  // ---------------------------------------------------------------------
  // Normalising twice
  // ---------------------------------------------------------------------

  lemma {:induction false} StripQuotesOfPlain(s: string)
    requires AllPlain(s)
    ensures StripQuotes(s) == s
  {
    if s != [] {
      StripQuotesOfPlain(s[1..]);
    }
  }

  lemma {:induction false} CollapseOfSingleSpaced(s: string)
    requires SingleSpaced(s)
    ensures CollapseWhitespace(s) == s
    decreases |s|
  {
    if s != [] {
      assert SingleSpaced(s[1..]) by {
        forall k | 0 <= k < |s| - 1 && IsSpace(s[1..][k])
          ensures s[1..][k] == ' ' && (k + 1 < |s| - 1 ==> !IsSpace(s[1..][k + 1]))
        {
          assert s[1..][k] == s[k + 1];
        }
      }
      CollapseOfSingleSpaced(s[1..]);
      if IsSpace(s[0]) {
        assert SpaceRun(s, 0) == 1;
      }
    }
  }

  /** A normalised name is its own normal form. */
  lemma NormalizeIdempotent(raw: Option<string>)
    ensures NormalizeName(Some(NormalizeName(raw))) == NormalizeName(raw)
  {
    var r := NormalizeName(raw);
    NormalizeNameFacts(raw);
    if r != [] {
      assert NarrowAll(r) == r;
      StripQuotesOfPlain(r);
      CollapseOfSingleSpaced(r);
      TrimOfTrimmed(r);
    }
  }

  /** A full-width apostrophe is narrowed first and then dropped as a quotation mark. */
  lemma FullWidthApostropheDropped()
    ensures NormalizeName(Some("A\U{FF07}B")) == "AB"
  {
    var s := "A\U{FF07}B";
    assert Narrow(s[0]) == 'A' && Narrow(s[1]) == '\'' && Narrow(s[2]) == 'B';
    var w := NarrowAll(s);
    assert w == "A'B";
    assert StripQuotes(w) == "AB" by {
      assert w[1..][1..] == "B" && "B"[1..] == [];
      assert StripQuotes("B") == "B";
      assert StripQuotes(w[1..]) == "B";
    }
    assert CollapseWhitespace("AB") == "AB" by {
      CollapseOfSingleSpaced("AB");
    }
    TrimOfTrimmed("AB");
  }
}
