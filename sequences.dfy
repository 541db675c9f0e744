/**
 * The two JavaScript array operations the order screen is built from:
 * `Array.prototype.find` (the first element a callback accepts) and
 * `Array.prototype.filter` (the accepted elements, in their original order).
 */
module Sequences {
  import opened Wrappers

  /** Index of the first element of `xs` that `p` accepts, or None when no element is accepted. */
  function FindFirst<T>(xs: seq<T>, p: T -> bool): (r: Option<nat>)
    ensures r.Some? ==> r.value < |xs| && p(xs[r.value])
    ensures r.Some? ==> forall j :: 0 <= j < r.value ==> !p(xs[j])
    ensures r.None? <==> forall j :: 0 <= j < |xs| ==> !p(xs[j])
  {
    if xs == [] then None
    else if p(xs[0]) then Some(0)
    else match FindFirst(xs[1..], p)
      case None => None
      case Some(k) => Some(k + 1)
  }

  /** The elements of `xs` that `p` accepts, in their order in `xs`. */
  function Filter<T>(xs: seq<T>, p: T -> bool): (r: seq<T>)
    ensures |r| <= |xs|
  {
    if xs == [] then []
    else (if p(xs[0]) then [xs[0]] else []) + Filter(xs[1..], p)
  }

  /** Filter keeps exactly the accepted elements: each kept one is an accepted input element, and each accepted input element is kept. */
  lemma {:induction false} FilterMembers<T>(xs: seq<T>, p: T -> bool)
    ensures forall i :: 0 <= i < |Filter(xs, p)| ==> Filter(xs, p)[i] in xs && p(Filter(xs, p)[i])
    ensures forall i :: 0 <= i < |xs| && p(xs[i]) ==> xs[i] in Filter(xs, p)
  {
    if xs != [] {
      FilterMembers(xs[1..], p);
      var head := if p(xs[0]) then [xs[0]] else [];
      var rest := Filter(xs[1..], p);
      assert Filter(xs, p) == head + rest;
      forall i | 0 <= i < |head + rest| ensures (head + rest)[i] in xs && p((head + rest)[i]) {
        if i >= |head| {
          assert (head + rest)[i] == rest[i - |head|];
        }
      }
      forall i | 0 <= i < |xs| && p(xs[i]) ensures xs[i] in head + rest {
        if i > 0 {
          assert xs[i] == xs[1..][i - 1];
        }
      }
    }
  }

  /** `r` can be obtained from `xs` by deleting elements, without reordering the rest. */
  predicate Subsequence<T(==)>(r: seq<T>, xs: seq<T>)
    decreases |xs|
  {
    if r == [] then true
    else if xs == [] then false
    else (r[0] == xs[0] && Subsequence(r[1..], xs[1..])) || Subsequence(r, xs[1..])
  }

  /** Filtering keeps the survivors in their original relative order. */
  lemma {:induction false} FilterIsSubsequence<T>(xs: seq<T>, p: T -> bool)
    ensures Subsequence(Filter(xs, p), xs)
  {
    if xs != [] {
      FilterIsSubsequence(xs[1..], p);
      var rest := Filter(xs[1..], p);
      if p(xs[0]) {
        assert Filter(xs, p) == [xs[0]] + rest;
        assert ([xs[0]] + rest)[1..] == rest;
      } else {
        assert Filter(xs, p) == rest;
        SubsequenceSkip(rest, xs);
      }
    }
  }

  /** A subsequence of the tail is a subsequence of the whole sequence. */
  lemma {:induction false} SubsequenceSkip<T>(r: seq<T>, xs: seq<T>)
    requires xs != [] && Subsequence(r, xs[1..])
    ensures Subsequence(r, xs)
  {
  }

  /** Filtering distributes over concatenation: order is preserved block by block. */
  lemma {:induction false} FilterAppend<T>(a: seq<T>, b: seq<T>, p: T -> bool)
    ensures Filter(a + b, p) == Filter(a, p) + Filter(b, p)
  {
    if a == [] {
      assert a + b == b;
    } else {
      var head := if p(a[0]) then [a[0]] else [];
      FilterAppend(a[1..], b, p);
      calc {
        Filter(a + b, p);
        { assert (a + b)[0] == a[0] && (a + b)[1..] == a[1..] + b; }
        head + Filter(a[1..] + b, p);
        head + (Filter(a[1..], p) + Filter(b, p));
        (head + Filter(a[1..], p)) + Filter(b, p);
        Filter(a, p) + Filter(b, p);
      }
    }
  }

  /** When `p` accepts every element nothing is dropped. */
  lemma {:induction false} FilterKeepsAll<T>(xs: seq<T>, p: T -> bool)
    requires forall i :: 0 <= i < |xs| ==> p(xs[i])
    ensures Filter(xs, p) == xs
  {
    if xs != [] {
      FilterKeepsAll(xs[1..], p);
    }
  }

  /** When `p` rejects the element at `k` and accepts every other, filtering cuts out just that element. */
  lemma {:induction false} FilterDropsOne<T>(xs: seq<T>, p: T -> bool, k: nat)
    requires k < |xs| && !p(xs[k])
    requires forall j :: 0 <= j < |xs| && j != k ==> p(xs[j])
    ensures Filter(xs, p) == xs[..k] + xs[k + 1..]
  {
    var tail := xs[1..];
    if k == 0 {
      forall j | 0 <= j < |tail| ensures p(tail[j]) {
        assert tail[j] == xs[j + 1];
      }
      FilterKeepsAll(tail, p);
    } else {
      forall j | 0 <= j < |tail| && j != k - 1 ensures p(tail[j]) {
        assert tail[j] == xs[j + 1];
      }
      FilterDropsOne(tail, p, k - 1);
      assert xs[..k] == [xs[0]] + tail[..k - 1] && xs[k + 1..] == tail[k..];
    }
  }

  /** Two callbacks that agree on every element of `xs` filter it alike. */
  lemma {:induction false} FilterCongruent<T>(xs: seq<T>, p: T -> bool, q: T -> bool)
    requires forall i :: 0 <= i < |xs| ==> p(xs[i]) == q(xs[i])
    ensures Filter(xs, p) == Filter(xs, q)
  {
    if xs != [] {
      FilterCongruent(xs[1..], p, q);
    }
  }

  /** Filtering twice with the same callback is filtering once. */
  lemma FilterIdempotent<T>(xs: seq<T>, p: T -> bool)
    ensures Filter(Filter(xs, p), p) == Filter(xs, p)
  {
    FilterMembers(xs, p);
    FilterKeepsAll(Filter(xs, p), p);
  }
}
