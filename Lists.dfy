/**
  Sequences without repetitions. A JavaScript `Set` remembers insertion
  order, so `Array.from(new Set(xs))` is `Dedup(xs)`: the distinct elements of
  `xs` in the order in which each is first seen.
 */
module Lists {

  predicate Distinct<T(==)>(s: seq<T>)
  {
    forall i, j :: 0 <= i < j < |s| ==> s[i] != s[j]
  }

  /** `set.add(x)` on a set listed in insertion order. */
  function Insert(acc: seq<string>, x: string): (r: seq<string>)
    ensures forall y :: y in r <==> y in acc || y == x
    ensures Distinct(acc) ==> Distinct(r)
    ensures acc <= r
  {
    if x in acc then acc else acc + [x]
  }

  /** `Array.from(new Set(s))`. */
  function Dedup(s: seq<string>): (r: seq<string>)
    ensures Distinct(r)
    ensures forall x :: x in r <==> x in s
    ensures |r| <= |s|
  {
    if s == [] then [] else Insert(Dedup(s[..|s| - 1]), s[|s| - 1])
  }

  lemma DedupSnoc(s: seq<string>, x: string)
    ensures Dedup(s + [x]) == Insert(Dedup(s), x)
  {
    assert (s + [x])[..|s|] == s;
  }

  /** Position of the first occurrence of `x`. */
  function FirstIndex<T(==)>(s: seq<T>, x: T): (i: nat)
    requires x in s
    ensures i < |s| && s[i] == x
    ensures forall j :: 0 <= j < i ==> s[j] != x
  {
    if s[0] == x then 0 else 1 + FirstIndex(s[1..], x)
  }

  lemma {:induction false} FirstIndexOfPrefix<T>(s: seq<T>, n: nat, x: T)
    requires n <= |s| && x in s[..n]
    ensures FirstIndex(s, x) == FirstIndex(s[..n], x)
  {
    var i := FirstIndex(s[..n], x);
    var f := FirstIndex(s, x);
    assert s[..n][i] == s[i];
    assert f <= i;
    assert f < n && s[..n][f] == s[f];
  }

  /** The distinct elements come out in first-seen order. */
  lemma {:induction false} DedupFirstSeenOrder(s: seq<string>, i: nat, j: nat)
    requires i < j < |Dedup(s)|
    ensures FirstIndex(s, Dedup(s)[i]) < FirstIndex(s, Dedup(s)[j])
  {
    var n := |s| - 1;
    var init, last := s[..n], s[n];
    assert s == init + [last];
    var d := Dedup(init);
    if last in d {
      assert Dedup(s) == d;
      DedupFirstSeenOrder(init, i, j);
      FirstIndexOfPrefix(s, n, d[i]);
      FirstIndexOfPrefix(s, n, d[j]);
    } else if j < |d| {
      assert Dedup(s)[i] == d[i] && Dedup(s)[j] == d[j];
      DedupFirstSeenOrder(init, i, j);
      FirstIndexOfPrefix(s, n, d[i]);
      FirstIndexOfPrefix(s, n, d[j]);
    } else {
      assert Dedup(s)[j] == last && Dedup(s)[i] == d[i];
      assert d[i] in init;
      FirstIndexOfPrefix(s, n, d[i]);
      assert last !in init;
      assert FirstIndex(s, last) == n;
    }
  }

  /** The distinct elements of `a` come first in those of `a + b`, and every
      later element comes from `b` and does not occur in `a`. */
  lemma {:induction false} DedupAppend(a: seq<string>, b: seq<string>)
    ensures Dedup(a) <= Dedup(a + b)
    ensures forall k :: |Dedup(a)| <= k < |Dedup(a + b)| ==>
      Dedup(a + b)[k] in b && Dedup(a + b)[k] !in a
  {
    if b != [] {
      var b' := b[..|b| - 1];
      assert (a + b)[..|a + b| - 1] == a + b';
      DedupAppend(a, b');
    } else {
      assert a + b == a;
    }
  }

  lemma {:induction false} DedupOfDistinct(s: seq<string>)
    requires Distinct(s)
    ensures Dedup(s) == s
  {
    if s != [] {
      DedupOfDistinct(s[..|s| - 1]);
    }
  }
}
