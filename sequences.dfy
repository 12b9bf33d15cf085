/** Option, sums, maxima and subsequences over sequences, shared by the modules of
    the model. */
module Sequences {

  datatype Option<T> = None | Some(value: T)

  /** Sum of a sequence of reals, folded from the left as `reduce` does. */
  function Sum(xs: seq<real>): real
  {
    if |xs| == 0 then 0.0 else Sum(xs[..|xs| - 1]) + xs[|xs| - 1]
  }

  lemma {:induction false} SumNonNegative(xs: seq<real>)
    requires forall k | 0 <= k < |xs| :: xs[k] >= 0.0
    ensures Sum(xs) >= 0.0
  {
    if |xs| > 0 {
      SumNonNegative(xs[..|xs| - 1]);
    }
  }

  /** A sum of positive terms over a non-empty sequence is positive. */
  lemma {:induction false} SumPositive(xs: seq<real>)
    requires |xs| > 0
    requires forall k | 0 <= k < |xs| :: xs[k] > 0.0
    ensures Sum(xs) > 0.0
  {
    SumNonNegative(xs[..|xs| - 1]);
  }

  /** n copies of the same value sum to n times it. */
  lemma {:induction false} SumConstant(xs: seq<real>, v: real)
    requires forall k | 0 <= k < |xs| :: xs[k] == v
    ensures Sum(xs) == |xs| as real * v
  {
    if |xs| > 0 {
      SumConstant(xs[..|xs| - 1], v);
    }
  }

  /** The sum lies between |xs| times the smallest and |xs| times the largest bound. */
  lemma {:induction false} SumBounds(xs: seq<real>, lo: real, hi: real)
    requires forall k | 0 <= k < |xs| :: lo <= xs[k] <= hi
    ensures |xs| as real * lo <= Sum(xs) <= |xs| as real * hi
  {
    if |xs| > 0 {
      SumBounds(xs[..|xs| - 1], lo, hi);
    }
  }

  function Max(a: real, b: real): (m: real)
    ensures m >= a && m >= b && (m == a || m == b)
  {
    if a >= b then a else b
  }

  function Abs(x: real): (r: real)
    ensures r >= 0.0 && (r == x || r == -x)
  {
    if x >= 0.0 then x else -x
  }

  function Min(a: real, b: real): (m: real)
    ensures m <= a && m <= b && (m == a || m == b)
  {
    if a <= b then a else b
  }

  /** `Math.max(...xs)` of a non-empty sequence. */
  function MaxOf(xs: seq<real>): (m: real)
    requires |xs| > 0
    ensures forall k | 0 <= k < |xs| :: xs[k] <= m
    ensures exists k | 0 <= k < |xs| :: xs[k] == m
  {
    if |xs| == 1 then xs[0]
    else
      var m := Max(MaxOf(xs[..|xs| - 1]), xs[|xs| - 1]);
      assert forall k | 0 <= k < |xs| - 1 :: xs[..|xs| - 1][k] == xs[k];
      m
  }

  /** `Math.min(...xs)` of a non-empty sequence. */
  function MinOf(xs: seq<real>): (m: real)
    requires |xs| > 0
    ensures forall k | 0 <= k < |xs| :: m <= xs[k]
    ensures exists k | 0 <= k < |xs| :: xs[k] == m
  {
    if |xs| == 1 then xs[0]
    else
      var m := Min(MinOf(xs[..|xs| - 1]), xs[|xs| - 1]);
      assert forall k | 0 <= k < |xs| - 1 :: xs[..|xs| - 1][k] == xs[k];
      m
  }

  /** The mean of a non-empty sequence lies within any bounds of its elements. */
  lemma MeanWithin(xs: seq<real>, lo: real, hi: real)
    requires |xs| > 0
    requires forall k | 0 <= k < |xs| :: lo <= xs[k] <= hi
    ensures lo <= Sum(xs) / |xs| as real <= hi
  {
    var total, n := Sum(xs), |xs| as real;
    SumBounds(xs, lo, hi);
    DivideBounds(total, n, lo, hi);
  }

  lemma DivideBounds(total: real, n: real, lo: real, hi: real)
    requires n > 0.0 && n * lo <= total <= n * hi
    ensures lo <= total / n <= hi
  {
  }

  /** `a` is `b` with some elements left out, the rest in the same order. */
  predicate IsSubsequence<T(==)>(a: seq<T>, b: seq<T>)
    decreases |b|
  {
    if |a| == 0 then true
    else if |b| == 0 then false
    else if a[|a| - 1] == b[|b| - 1] then IsSubsequence(a[..|a| - 1], b[..|b| - 1])
    else IsSubsequence(a, b[..|b| - 1])
  }

  lemma {:induction false} SubsequenceOfSelf<T>(a: seq<T>)
    ensures IsSubsequence(a, a)
  {
    if |a| > 0 {
      SubsequenceOfSelf(a[..|a| - 1]);
    }
  }

  /** Adding an element to the end of both keeps the relation. */
  lemma SubsequenceSnoc<T>(a: seq<T>, b: seq<T>, x: T)
    requires IsSubsequence(a, b)
    ensures IsSubsequence(a + [x], b + [x])
  {
    assert (a + [x])[..|a|] == a;
    assert (b + [x])[..|b|] == b;
  }

  /** Adding an element to the end of the longer one keeps the relation. */
  lemma SubsequenceExtend<T>(a: seq<T>, b: seq<T>, x: T)
    requires IsSubsequence(a, b)
    ensures IsSubsequence(a, b + [x])
    decreases |b|, 1
  {
    assert (b + [x])[..|b|] == b;
    if |a| > 0 && a[|a| - 1] == x {
      SubsequenceDropLast(a, b);
    }
  }

  lemma {:induction false} SubsequenceDropLast<T>(a: seq<T>, b: seq<T>)
    requires |a| > 0 && IsSubsequence(a, b)
    ensures IsSubsequence(a[..|a| - 1], b)
    decreases |b|, 0
  {
    if |b| > 0 {
      if a[|a| - 1] == b[|b| - 1] {
        SubsequenceExtend(a[..|a| - 1], b[..|b| - 1], b[|b| - 1]);
        assert b[..|b| - 1] + [b[|b| - 1]] == b;
      } else {
        SubsequenceDropLast(a, b[..|b| - 1]);
        SubsequenceExtend(a[..|a| - 1], b[..|b| - 1], b[|b| - 1]);
        assert b[..|b| - 1] + [b[|b| - 1]] == b;
      }
    }
  }

  /** Every element of a subsequence occurs in the longer sequence. */
  lemma {:induction false} SubsequenceMembers<T>(a: seq<T>, b: seq<T>)
    requires IsSubsequence(a, b)
    ensures forall x | x in a :: x in b
    decreases |b|
  {
    if |a| > 0 && |b| > 0 {
      if a[|a| - 1] == b[|b| - 1] {
        SubsequenceMembers(a[..|a| - 1], b[..|b| - 1]);
        assert a == a[..|a| - 1] + [a[|a| - 1]];
      } else {
        SubsequenceMembers(a, b[..|b| - 1]);
      }
    }
  }

  lemma {:induction false} SubsequenceLength<T>(a: seq<T>, b: seq<T>)
    requires IsSubsequence(a, b)
    ensures |a| <= |b|
    decreases |b|
  {
    if |a| > 0 && |b| > 0 {
      if a[|a| - 1] == b[|b| - 1] {
        SubsequenceLength(a[..|a| - 1], b[..|b| - 1]);
      } else {
        SubsequenceLength(a, b[..|b| - 1]);
      }
    }
  }

  /** Being a subsequence is transitive. */
  lemma {:induction false} SubsequenceTrans<T>(a: seq<T>, b: seq<T>, c: seq<T>)
    requires IsSubsequence(a, b) && IsSubsequence(b, c)
    ensures IsSubsequence(a, c)
    decreases |c|
  {
    if |a| > 0 {
      SubsequenceLength(a, b);
      SubsequenceLength(b, c);
      var c0 := c[..|c| - 1];
      assert c == c0 + [c[|c| - 1]];
      if b[|b| - 1] == c[|c| - 1] {
        if a[|a| - 1] == b[|b| - 1] {
          SubsequenceTrans(a[..|a| - 1], b[..|b| - 1], c0);
        } else {
          SubsequenceTrans(a, b[..|b| - 1], c0);
          SubsequenceExtend(a, c0, c[|c| - 1]);
        }
      } else {
        SubsequenceTrans(a, b, c0);
        SubsequenceExtend(a, c0, c[|c| - 1]);
      }
    }
  }
}
