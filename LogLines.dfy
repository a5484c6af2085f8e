/**
  How both log parsers cut a text into lines: `text.split(/\r?\n/)`, each
  piece trimmed, and the empty pieces dropped.
 */
module LogLines {
  import opened Text

  /** `s.split("\n")`. */
  function SplitLF(s: string): (r: seq<string>)
    ensures |r| >= 1
    ensures forall k :: 0 <= k < |r| ==> '\n' !in r[k]
  {
    if s == [] then [""]
    else
      var rest := SplitLF(s[1..]);
      if s[0] == '\n' then [""] + rest
      else [[s[0]] + rest[0]] + rest[1..]
  }

  function JoinLF(parts: seq<string>): string
    requires |parts| >= 1
  {
    if |parts| == 1 then parts[0] else parts[0] + "\n" + JoinLF(parts[1..])
  }

  /** Splitting at line feeds loses nothing: joining the pieces back gives the text. */
  lemma {:induction false} SplitLFRoundTrip(s: string)
    ensures JoinLF(SplitLF(s)) == s
  {
    if s != [] {
      SplitLFRoundTrip(s[1..]);
      var rest := SplitLF(s[1..]);
      if s[0] != '\n' {
        var r := SplitLF(s);
        assert r[1..] == rest[1..];
        if |rest| > 1 {
          assert JoinLF(r) == [s[0]] + rest[0] + "\n" + JoinLF(rest[1..]);
        }
      }
    }
  }

  /** A piece without the carriage return that ends it, if any. */
  function DropCR(x: string): (r: string)
    ensures x == r || x == r + ['\r']
  {
    if x != [] && x[|x| - 1] == '\r' then x[..|x| - 1] else x
  }

  /** `s.split(/\r?\n/)`: a carriage return right before a line feed belongs
      to the separator, so every piece but the last loses one final '\r'. */
  function SplitLines(s: string): (r: seq<string>)
    ensures |r| == |SplitLF(s)|
    ensures forall k :: 0 <= k < |r| ==> SplitLF(s)[k] == r[k] || SplitLF(s)[k] == r[k] + ['\r']
    ensures forall k :: 0 <= k < |r| - 1 ==>
      if SplitLF(s)[k] != [] && SplitLF(s)[k][|SplitLF(s)[k]| - 1] == '\r' then SplitLF(s)[k] == r[k] + ['\r'] else r[k] == SplitLF(s)[k]
    ensures r[|r| - 1] == SplitLF(s)[|r| - 1]
  {
    var parts := SplitLF(s);
    seq(|parts|, k requires 0 <= k < |parts| => if k < |parts| - 1 then DropCR(parts[k]) else parts[k])
  }

  /** `pieces.map(trim).filter(non-empty)`. */
  function NonEmptyTrimmed(pieces: seq<string>): (r: seq<string>)
    ensures |r| <= |pieces|
  {
    if pieces == [] then []
    else
      var t := Trim(pieces[|pieces| - 1]);
      NonEmptyTrimmed(pieces[..|pieces| - 1]) + (if t == [] then [] else [t])
  }

  lemma NonEmptyTrimmedSnoc(pieces: seq<string>, i: nat)
    requires i < |pieces|
    ensures NonEmptyTrimmed(pieces[..i + 1]) ==
      NonEmptyTrimmed(pieces[..i]) + (if Trim(pieces[i]) == [] then [] else [Trim(pieces[i])])
  {
    assert pieces[..i + 1][..i] == pieces[..i];
  }

  function NormalizeLines(text: string): seq<string>
  {
    NonEmptyTrimmed(SplitLines(text))
  }

  /** Every normalised line is non-empty and trimmed. */
  lemma {:induction false} NonEmptyTrimmedLines(pieces: seq<string>)
    ensures forall k :: 0 <= k < |NonEmptyTrimmed(pieces)| ==>
      NonEmptyTrimmed(pieces)[k] != [] && IsTrimmed(NonEmptyTrimmed(pieces)[k])
  {
    if pieces != [] {
      NonEmptyTrimmedLines(pieces[..|pieces| - 1]);
    }
  }

  lemma AllSpaceConcat(a: string, b: string)
    ensures AllSpace(a + b) <==> AllSpace(a) && AllSpace(b)
  {
    if AllSpace(a + b) {
      forall k | 0 <= k < |a| ensures IsSpace(a[k]) {
        assert a[k] == (a + b)[k];
      }
      forall k | 0 <= k < |b| ensures IsSpace(b[k]) {
        assert b[k] == (a + b)[|a| + k];
      }
    }
    if AllSpace(a) && AllSpace(b) {
      forall k | 0 <= k < |a + b| ensures IsSpace((a + b)[k]) {
        if k < |a| {
          assert (a + b)[k] == a[k];
        } else {
          assert (a + b)[k] == b[k - |a|];
        }
      }
    }
  }

  lemma {:induction false} AllSpaceJoin(parts: seq<string>)
    requires |parts| >= 1
    ensures AllSpace(JoinLF(parts)) <==> forall k :: 0 <= k < |parts| ==> AllSpace(parts[k])
  {
    if |parts| > 1 {
      AllSpaceJoin(parts[1..]);
      AllSpaceConcat(parts[0] + "\n", JoinLF(parts[1..]));
      AllSpaceConcat(parts[0], "\n");
      assert forall k :: 1 <= k < |parts| ==> parts[k] == parts[1..][k - 1];
    }
  }

  /** A text has no line left after normalisation exactly when it is empty
      or made of whitespace only. */
  lemma NormalizeLinesEmpty(text: string)
    ensures NormalizeLines(text) == [] <==> AllSpace(text)
  {
    var parts := SplitLF(text);
    var pieces := SplitLines(text);
    SplitLFRoundTrip(text);
    AllSpaceJoin(parts);
    NonEmptyTrimmedEmpty(pieces);
    SplitLinesSpaces(text);
  }

  /** A piece is whitespace only exactly when its line-feed piece is. */
  lemma SplitLinesSpaces(text: string)
    ensures forall k :: 0 <= k < |SplitLF(text)| ==> (AllSpace(SplitLF(text)[k]) <==> AllSpace(SplitLines(text)[k]))
  {
    var parts := SplitLF(text);
    var pieces := SplitLines(text);
    forall k | 0 <= k < |parts|
      ensures AllSpace(parts[k]) <==> AllSpace(pieces[k])
    {
      AllSpaceConcat(pieces[k], ['\r']);
    }
  }

  lemma {:induction false} NonEmptyTrimmedEmpty(pieces: seq<string>)
    ensures NonEmptyTrimmed(pieces) == [] <==> forall k :: 0 <= k < |pieces| ==> AllSpace(pieces[k])
  {
    if pieces != [] {
      var init := pieces[..|pieces| - 1];
      NonEmptyTrimmedEmpty(init);
      TrimEmpty(pieces[|pieces| - 1]);
      assert forall k :: 0 <= k < |init| ==> init[k] == pieces[k];
    }
  }
}
