/**
 * `numpy.histogram(values, bins=edges)[0]` with explicit edges, following
 * numpy's documented rule: bin j is the half-open interval
 * [edges[j], edges[j+1]) except the last bin, which also holds its right edge;
 * values outside [edges[0], edges[-1]] are not counted at all.
 */
module Histogram {
  import opened Wrappers
  import opened Seqs

  /** Edges a histogram can be drawn with: at least two, strictly increasing. */
  ghost predicate ValidEdges(e: seq<real>)
  {
    |e| >= 2 && forall i, j :: 0 <= i < j < |e| ==> e[i] < e[j]
  }

  /** `x` falls into bin `j` of edges `e`. */
  ghost predicate InBin(x: real, e: seq<real>, j: int)
  {
    0 <= j < |e| - 1 && e[j] <= x && (x < e[j + 1] || (j == |e| - 2 && x == e[j + 1]))
  }

  /** `x` lies within the histogram's range, both ends included. */
  ghost predicate InRange(x: real, e: seq<real>)
    requires |e| > 0
  {
    e[0] <= x <= e[|e| - 1]
  }

  /** Number of values in bin `j`. */
  ghost function CountInBin(xs: seq<real>, e: seq<real>, j: int): nat
  {
    if xs == [] then 0
    else CountInBin(xs[..|xs| - 1], e, j) + (if InBin(xs[|xs| - 1], e, j) then 1 else 0)
  }

  /** Number of values inside the histogram's range. */
  ghost function CountInRange(xs: seq<real>, e: seq<real>): nat
    requires |e| > 0
  {
    if xs == [] then 0
    else CountInRange(xs[..|xs| - 1], e) + (if InRange(xs[|xs| - 1], e) then 1 else 0)
  }

  /** Bins are disjoint: a value falls into at most one of them. */
  lemma BinUnique(x: real, e: seq<real>, a: int, b: int)
    requires ValidEdges(e) && InBin(x, e, a) && InBin(x, e, b)
    ensures a == b
  {
  }

  /** Scan bins upwards from `j` for the one holding `x`. */
  function Locate(x: real, e: seq<real>, j: nat): (b: nat)
    requires ValidEdges(e) && j <= |e| - 2 && e[j] <= x <= e[|e| - 1]
    ensures j <= b <= |e| - 2 && InBin(x, e, b)
    decreases |e| - j
  {
    if j == |e| - 2 || x < e[j + 1] then j else Locate(x, e, j + 1)
  }

  /** The bin holding `x`, or `None` when `x` is out of range. */
  function BinOf(x: real, e: seq<real>): (r: Option<nat>)
    requires ValidEdges(e)
    ensures r.Some? <==> InRange(x, e)
    ensures r.Some? ==> InBin(x, e, r.value)
    ensures forall j :: InBin(x, e, j) ==> r == Some(j)
  {
    if x < e[0] || x > e[|e| - 1] then None
    else
      var b := Locate(x, e, 0);
      assert forall j :: InBin(x, e, j) ==> j == b by {
        forall j | InBin(x, e, j) ensures j == b { BinUnique(x, e, j, b); }
      }
      Some(b)
  }

  /**
   * The bar heights of the histogram: one count per bin, each the number of
   * values in that bin, together the number of values in range.
   */
  function Counts(xs: seq<real>, e: seq<real>): (h: seq<nat>)
    requires ValidEdges(e)
    ensures |h| == |e| - 1
    ensures forall j :: 0 <= j < |h| ==> h[j] == CountInBin(xs, e, j)
    ensures IntSum(h) == CountInRange(xs, e)
  {
    if xs == [] then
      IntSumZeros(|e| - 1);
      seq(|e| - 1, _ => 0)
    else
      var h0 := Counts(xs[..|xs| - 1], e);
      var x := xs[|xs| - 1];
      match BinOf(x, e)
      case None => h0
      case Some(b) =>
        IntSumIncrement(h0, b);
        h0[b := h0[b] + 1]
  }

  /** Out-of-range values are dropped, so a histogram never counts more values than it is given. */
  lemma {:induction false} CountInRangeBound(xs: seq<real>, e: seq<real>)
    requires |e| > 0
    ensures CountInRange(xs, e) <= |xs|
    ensures CountInRange(xs, e) == |xs| <==> forall i :: 0 <= i < |xs| ==> InRange(xs[i], e)
  {
    if xs != [] {
      var init := xs[..|xs| - 1];
      CountInRangeBound(init, e);
      if forall i :: 0 <= i < |xs| ==> InRange(xs[i], e) {
        assert forall i :: 0 <= i < |init| ==> InRange(init[i], e) by {
          forall i | 0 <= i < |init| ensures InRange(init[i], e) { assert init[i] == xs[i]; }
        }
      } else if forall i :: 0 <= i < |init| ==> InRange(init[i], e) {
        assert !InRange(xs[|xs| - 1], e) by {
          forall i | 0 <= i < |xs| - 1 ensures InRange(xs[i], e) { assert xs[i] == init[i]; }
        }
      }
    }
  }
}
