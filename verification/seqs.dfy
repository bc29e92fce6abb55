/** Sums and extrema over sequences, shared by the chart modules. */
module Seqs {

  /** Sum of reals, peeled from the right so that appending one element is definitional. */
  function Sum(s: seq<real>): real
  {
    if s == [] then 0.0 else Sum(s[..|s| - 1]) + s[|s| - 1]
  }

  /** Sum of integers (Python's built-in `sum` on a list of counts). */
  function IntSum(s: seq<int>): int
  {
    if s == [] then 0 else IntSum(s[..|s| - 1]) + s[|s| - 1]
  }

  /** Adding one to a single element adds one to the sum. */
  lemma {:induction false} IntSumIncrement(h: seq<int>, b: int)
    requires 0 <= b < |h|
    ensures IntSum(h[b := h[b] + 1]) == IntSum(h) + 1
  {
    var h' := h[b := h[b] + 1];
    if b < |h| - 1 {
      assert h'[..|h| - 1] == h[..|h| - 1][b := h[b] + 1];
      IntSumIncrement(h[..|h| - 1], b);
    } else {
      assert h'[..|h| - 1] == h[..|h| - 1];
    }
  }

  lemma {:induction false} IntSumZeros(n: nat)
    ensures IntSum(seq(n, _ => 0)) == 0
  {
    if n > 0 {
      assert seq(n, _ => 0)[..n - 1] == seq(n - 1, _ => 0);
      IntSumZeros(n - 1);
    }
  }

  /** The reals of a list of integers, element by element. */
  function AsReals(s: seq<int>): (r: seq<real>)
    ensures |r| == |s|
    ensures forall i :: 0 <= i < |s| ==> r[i] == s[i] as real
  {
    seq(|s|, i requires 0 <= i < |s| => s[i] as real)
  }

  /** Peeling the last element off the right operand of a concatenation. */
  lemma SnocSplit<T>(a: seq<T>, b: seq<T>)
    requires b != []
    ensures b == b[..|b| - 1] + [b[|b| - 1]]
    ensures a + b == (a + b[..|b| - 1]) + [b[|b| - 1]]
  {
  }

  lemma ConcatAssoc<T>(a: seq<T>, b: seq<T>, c: seq<T>)
    ensures a + (b + c) == (a + b) + c
  {
  }

  lemma {:induction false} SumAppend(a: seq<real>, b: seq<real>)
    ensures Sum(a + b) == Sum(a) + Sum(b)
    decreases |b|
  {
    if b == [] {
      assert a + b == a;
    } else {
      var last := |b| - 1;
      assert (a + b)[..|a + b| - 1] == a + b[..last];
      SumAppend(a, b[..last]);
    }
  }

  lemma {:induction false} IntSumAppend(a: seq<int>, b: seq<int>)
    ensures IntSum(a + b) == IntSum(a) + IntSum(b)
    decreases |b|
  {
    if b == [] {
      assert a + b == a;
    } else {
      var last := |b| - 1;
      assert (a + b)[..|a + b| - 1] == a + b[..last];
      IntSumAppend(a, b[..last]);
    }
  }

  lemma IntSumCons(x: int, s: seq<int>)
    ensures IntSum([x] + s) == x + IntSum(s)
  {
    IntSumAppend([x], s);
    assert [x][..0] == [];
  }

  lemma SumCons(x: real, s: seq<real>)
    ensures Sum([x] + s) == x + Sum(s)
  {
    SumAppend([x], s);
    assert [x][..0] == [];
  }

  /** Summing the reals of integers gives the real of their integer sum. */
  lemma {:induction false} SumAsReals(s: seq<int>)
    ensures Sum(AsReals(s)) == IntSum(s) as real
  {
    if s != [] {
      assert AsReals(s)[..|s| - 1] == AsReals(s[..|s| - 1]);
      SumAsReals(s[..|s| - 1]);
    }
  }

  /** A sum of non-negative integers bounds each of its terms. */
  lemma {:induction false} IntSumBoundsTerms(s: seq<int>)
    requires forall i :: 0 <= i < |s| ==> s[i] >= 0
    ensures IntSum(s) >= 0
    ensures forall i :: 0 <= i < |s| ==> s[i] <= IntSum(s)
  {
    if s != [] {
      IntSumBoundsTerms(s[..|s| - 1]);
    }
  }

  /** Python's `max()` of a non-empty list. */
  function Max(s: seq<real>): (m: real)
    requires |s| > 0
    ensures forall i :: 0 <= i < |s| ==> s[i] <= m
    ensures exists i :: 0 <= i < |s| && s[i] == m
  {
    if |s| == 1 then s[0]
    else
      var rest := Max(s[..|s| - 1]);
      if s[|s| - 1] > rest then s[|s| - 1] else rest
  }

  /** Python's `min()` of a non-empty list. */
  function Min(s: seq<real>): (m: real)
    requires |s| > 0
    ensures forall i :: 0 <= i < |s| ==> m <= s[i]
    ensures exists i :: 0 <= i < |s| && s[i] == m
  {
    if |s| == 1 then s[0]
    else
      var rest := Min(s[..|s| - 1]);
      if s[|s| - 1] < rest then s[|s| - 1] else rest
  }
}
