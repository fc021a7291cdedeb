/** Sequence operations shared by the components: `Array.prototype.filter`,
    order-preserving subsequences, `indexOf`, and deduplication that keeps
    the first occurrence (what spreading a JavaScript `Set` built from an
    array yields). */
module Seqs {

  /** `xs.filter(f)`: the elements satisfying `f`, in their original order. */
  function Keep<T>(xs: seq<T>, f: T -> bool): (r: seq<T>)
    ensures |r| <= |xs|
    ensures forall i :: 0 <= i < |r| ==> f(r[i])
    ensures forall x :: x in r ==> x in xs
  {
    if |xs| == 0 then []
    else (if f(xs[0]) then [xs[0]] else []) + Keep(xs[1..], f)
  }

  /** `a` can be obtained from `b` by deleting elements. */
  predicate IsSubsequence<T(==)>(a: seq<T>, b: seq<T>)
  {
    |a| == 0 || (|b| > 0 && ((a[0] == b[0] && IsSubsequence(a[1..], b[1..])) || IsSubsequence(a, b[1..])))
  }

  /** Filtering keeps an order-preserving subsequence. */
  lemma {:induction false} KeepIsSubsequence<T>(xs: seq<T>, f: T -> bool)
    ensures IsSubsequence(Keep(xs, f), xs)
  {
    if |xs| > 0 {
      KeepIsSubsequence(xs[1..], f);
      var a := Keep(xs, f);
      if f(xs[0]) {
        assert a == [xs[0]] + Keep(xs[1..], f);
        assert a[0] == xs[0] && a[1..] == Keep(xs[1..], f);
      } else {
        assert a == Keep(xs[1..], f);
      }
      assert IsSubsequence(a, xs);
    }
  }

  /** Filtering drops no satisfying element and no copy of one. */
  lemma {:induction false} KeepCounts<T>(xs: seq<T>, f: T -> bool, x: T)
    ensures multiset(Keep(xs, f))[x] == if f(x) then multiset(xs)[x] else 0
  {
    if |xs| > 0 {
      KeepCounts(xs[1..], f, x);
      assert xs == [xs[0]] + xs[1..];
      assert multiset(xs) == multiset([xs[0]]) + multiset(xs[1..]);
      var head := if f(xs[0]) then [xs[0]] else [];
      assert multiset(Keep(xs, f)) == multiset(head) + multiset(Keep(xs[1..], f));
    }
  }

  /** Filtering a sequence all of whose elements satisfy `f` changes nothing. */
  lemma {:induction false} KeepAll<T>(xs: seq<T>, f: T -> bool)
    requires forall i :: 0 <= i < |xs| ==> f(xs[i])
    ensures Keep(xs, f) == xs
  {
    if |xs| > 0 {
      KeepAll(xs[1..], f);
      assert xs == [xs[0]] + xs[1..];
    }
  }

  /** Filtering is empty exactly when no element satisfies `f`. */
  lemma {:induction false} KeepEmpty<T>(xs: seq<T>, f: T -> bool)
    ensures Keep(xs, f) == [] <==> forall i :: 0 <= i < |xs| ==> !f(xs[i])
  {
    if |xs| > 0 {
      KeepEmpty(xs[1..], f);
      assert forall i :: 1 <= i < |xs| ==> xs[i] == xs[1..][i - 1];
    }
  }

  /** `xs.indexOf(x)`: the position of the first occurrence of `x`. */
  function IndexOf<T(==)>(xs: seq<T>, x: T): (i: nat)
    requires x in xs
    ensures i < |xs| && xs[i] == x && x !in xs[..i]
  {
    if xs[0] == x then 0
    else
      assert x in xs[1..];
      var j := IndexOf(xs[1..], x);
      assert xs[..j + 1] == [xs[0]] + xs[1..][..j];
      j + 1
  }

  /** There is only one first occurrence. */
  lemma FirstOccurrenceUnique<T>(xs: seq<T>, x: T, i: nat, j: nat)
    requires i < |xs| && xs[i] == x && x !in xs[..i]
    requires j < |xs| && xs[j] == x && x !in xs[..j]
    ensures i == j
  {
    assert forall k :: 0 <= k < i ==> xs[..i][k] == xs[k];
    assert forall k :: 0 <= k < j ==> xs[..j][k] == xs[k];
  }

  /** The first occurrence does not move when elements are appended. */
  lemma IndexOfPrefix<T>(a: seq<T>, b: seq<T>, x: T)
    requires x in a
    ensures IndexOf(a + b, x) == IndexOf(a, x)
  {
    var j := IndexOf(a, x);
    assert (a + b)[..j] == a[..j];
    FirstOccurrenceUnique(a + b, x, IndexOf(a + b, x), j);
  }

  /** No element occurs twice. */
  predicate Distinct<T(==)>(xs: seq<T>)
  {
    forall i, j :: 0 <= i < j < |xs| ==> xs[i] != xs[j]
  }

  /** `[...new Set(xs)]`: the distinct elements of `xs`, each at the place
      of its first occurrence. */
  function Dedup<T(==,!new)>(xs: seq<T>): (r: seq<T>)
    ensures forall x :: x in r <==> x in xs
  {
    if |xs| == 0 then []
    else
      var d := Dedup(xs[..|xs| - 1]);
      var last := xs[|xs| - 1];
      assert forall i :: 0 <= i < |xs| - 1 ==> xs[i] == xs[..|xs| - 1][i];
      if last in d then d else d + [last]
  }

  /** No element occurs twice in the result of `Dedup`. */
  lemma {:induction false} DedupDistinct<T(!new)>(xs: seq<T>)
    ensures Distinct(Dedup(xs))
  {
    if |xs| > 0 {
      DedupDistinct(xs[..|xs| - 1]);
    }
  }

  /** The deduplicated elements come in the order of their first occurrence in `xs`. */
  lemma {:induction false} DedupFirstOccurrenceOrder<T(!new)>(xs: seq<T>, i: nat, j: nat)
    requires i < j < |Dedup(xs)|
    ensures Dedup(xs)[i] in xs && Dedup(xs)[j] in xs
    ensures IndexOf(xs, Dedup(xs)[i]) < IndexOf(xs, Dedup(xs)[j])
  {
    var r := Dedup(xs);
    assert r[i] in r && r[j] in r;
    var init := xs[..|xs| - 1];
    var last := xs[|xs| - 1];
    var d := Dedup(init);
    assert xs == init + [last];
    if j < |d| {
      DedupFirstOccurrenceOrder(init, i, j);
      assert r[i] == d[i] && r[j] == d[j];
      assert d[i] in d && d[j] in d;
      IndexOfPrefix(init, [last], d[i]);
      IndexOfPrefix(init, [last], d[j]);
    } else {
      assert r == d + [last] && j == |d| && r[j] == last;
      assert last !in init;
      assert r[i] == d[i] && d[i] in d;
      IndexOfPrefix(init, [last], d[i]);
      assert xs[..|init|] == init;
      FirstOccurrenceUnique(xs, last, IndexOf(xs, last), |init|);
    }
  }

  /** `DedupFirstOccurrenceOrder` for a deduplicated list behind a fixed head. */
  lemma {:induction false} DedupAfterHeadOrder<T(!new)>(h: T, xs: seq<T>, i: nat, j: nat)
    requires 1 <= i < j < |[h] + Dedup(xs)|
    ensures ([h] + Dedup(xs))[i] in xs && ([h] + Dedup(xs))[j] in xs
    ensures IndexOf(xs, ([h] + Dedup(xs))[i]) < IndexOf(xs, ([h] + Dedup(xs))[j])
  {
    var d := Dedup(xs);
    DedupFirstOccurrenceOrder(xs, i - 1, j - 1);
    ConsIndex(h, d, i);
    ConsIndex(h, d, j);
  }

  /** Indexing behind a one-element head. */
  lemma ConsIndex<T>(h: T, d: seq<T>, i: nat)
    requires 1 <= i <= |d|
    ensures ([h] + d)[i] == d[i - 1]
  {
  }
}
