/**
 * Data-Viz/ex04/elbow.py: inertia of k-means fits for k = 1..10 and the
 * structured content of the written explanation of the chosen cluster count.
 */
module Elbow {
  import opened Wrappers

  /** The scan covers cluster counts 1 to `MaxClusters`. */
  const MaxClusters: nat := 10

  /** The count `create_exact_elbow_plot` returns: fixed, whatever the data. */
  const ElbowOptimum: int := 4

  /**
   * `apply_kmeans`: one k-means fit per cluster count k = 1..10, keeping each
   * fit's inertia. The fit itself (standardisation and k-means) is the
   * parameter `fit`.
   */
  function InertiaScan(fit: int -> real): (r: seq<real>)
    ensures |r| == MaxClusters
    ensures forall i :: 0 <= i < |r| ==> r[i] == fit(i + 1)
  {
    seq(MaxClusters, i => fit(i + 1))
  }

  /** One "Clusters: k, Inertia: v" line. */
  datatype InertiaEntry = InertiaEntry(clusters: int, inertia: real)

  /** One "From a to b clusters: p%" line. */
  datatype Decrease = Decrease(from: int, to: int, percent: real)

  /** The data the explanation text is formatted from. */
  datatype Report = Report(optimal: int, inertias: seq<InertiaEntry>, drops: seq<Decrease>)

  /** The relative drop from `a` to `b`, in percent of `a`. */
  function PercentDecrease(a: real, b: real): real
    requires a != 0.0
  {
    (a - b) / a * 100.0
  }

  ghost predicate HasZeroDivisor(vs: seq<real>)
  {
    exists i :: 0 <= i < |vs| - 1 && vs[i] == 0.0
  }

  function DropEntries(vs: seq<real>, i: nat): (ds: seq<Decrease>)
    requires i <= |vs|
    requires forall j :: i <= j < |vs| - 1 ==> vs[j] != 0.0
    ensures |ds| == if |vs| - 1 > i then |vs| - 1 - i else 0
    ensures forall j :: 0 <= j < |ds| ==>
      ds[j] == Decrease(i + j + 1, i + j + 2, PercentDecrease(vs[i + j], vs[i + j + 1]))
    decreases |vs| - i
  {
    if i + 1 >= |vs| then []
    else [Decrease(i + 1, i + 2, PercentDecrease(vs[i], vs[i + 1]))] + DropEntries(vs, i + 1)
  }

  /**
   * `explain_cluster_choice(optimal, vs)`: one inertia entry per value with k
   * counted from 1, and one decrease entry per consecutive pair; a zero
   * inertia before the last value makes the percentage a division by zero.
   */
  function Explain(optimal: int, vs: seq<real>): (r: Result<Report>)
    ensures r.Err? <==> HasZeroDivisor(vs)
    ensures r.Err? ==> r.error == ZeroDivisionError
    ensures r.Ok? ==>
      && r.value.optimal == optimal
      && |r.value.inertias| == |vs|
      && (forall i :: 0 <= i < |vs| ==> r.value.inertias[i] == InertiaEntry(i + 1, vs[i]))
      && |r.value.drops| == (if |vs| > 0 then |vs| - 1 else 0)
      && (forall i :: 0 <= i < |r.value.drops| ==>
            r.value.drops[i].from == i + 1 && r.value.drops[i].to == i + 2
            && vs[i] != 0.0
            && r.value.drops[i].percent == PercentDecrease(vs[i], vs[i + 1]))
  {
    if exists i :: 0 <= i < |vs| - 1 && vs[i] == 0.0 then Err(ZeroDivisionError)
    else
      Ok(Report(optimal, seq(|vs|, i requires 0 <= i < |vs| => InertiaEntry(i + 1, vs[i])), DropEntries(vs, 0)))
  }

  /** The report `main` writes: the explanation for the fixed elbow optimum. */
  function ElbowReport(vs: seq<real>): (r: Result<Report>)
    ensures r.Ok? ==> r.value.optimal == 4
  {
    Explain(ElbowOptimum, vs)
  }

  /**
   * The report `main` writes about the scan `apply_kmeans` returns: it fails
   * exactly when a fit for 1 to 9 clusters has zero inertia; otherwise it
   * lists every count k = 1..10 with the inertia of its fit, and nine
   * decreases, from k to k+1, computed from those two fits.
   */
  lemma ScanReport(fit: int -> real)
    ensures ElbowReport(InertiaScan(fit)).Err? <==> exists k :: 1 <= k < MaxClusters && fit(k) == 0.0
    ensures var r := ElbowReport(InertiaScan(fit));
      r.Ok? ==>
        && |r.value.inertias| == MaxClusters && |r.value.drops| == MaxClusters - 1
        && (forall k :: 1 <= k <= MaxClusters ==> r.value.inertias[k - 1] == InertiaEntry(k, fit(k)))
        && (forall k :: 1 <= k < MaxClusters ==>
              r.value.drops[k - 1] == Decrease(k, k + 1, PercentDecrease(fit(k), fit(k + 1))))
  {
    var vs := InertiaScan(fit);
    if exists k :: 1 <= k < MaxClusters && fit(k) == 0.0 {
      var k :| 1 <= k < MaxClusters && fit(k) == 0.0;
      assert vs[k - 1] == 0.0;
    }
  }

  /** The chosen count is the same for any two inertia scans. */
  lemma OptimumIgnoresData(a: seq<real>, b: seq<real>)
    requires ElbowReport(a).Ok? && ElbowReport(b).Ok?
    ensures ElbowReport(a).value.optimal == ElbowReport(b).value.optimal == ElbowOptimum
  {
  }

  /**
   * For a positive inertia that does not grow, the decrease lies in [0, 100]
   * and it is 0 exactly when the two inertias are equal.
   */
  lemma PercentDecreaseBounds(a: real, b: real)
    requires a > 0.0 && 0.0 <= b <= a
    ensures 0.0 <= PercentDecrease(a, b) <= 100.0
    ensures PercentDecrease(a, b) == 0.0 <==> a == b
  {
    assert (a - b) / a <= 1.0;
  }

  /** The value left after taking `p` percent off `v`. */
  function Reduce(v: real, p: real): real
  {
    v - v * p / 100.0
  }

  /** Applying a percent decrease to the earlier inertia gives back the later one. */
  lemma ApplyDecrease(a: real, b: real, p: real)
    requires a != 0.0 && p == PercentDecrease(a, b)
    ensures Reduce(a, p) == b
  {
    assert a * ((a - b) / a) == a - b;
  }

  /** The inertias rebuilt from the first one and the successive percent decreases. */
  function Rebuild(v0: real, ds: seq<Decrease>): (vs: seq<real>)
    ensures |vs| == |ds| + 1 && vs[0] == v0
    decreases |ds|
  {
    if ds == [] then [v0] else [v0] + Rebuild(Reduce(v0, ds[0].percent), ds[1..])
  }

  lemma {:induction false} RebuildDrops(vs: seq<real>, i: nat)
    requires i < |vs|
    requires forall j :: i <= j < |vs| - 1 ==> vs[j] != 0.0
    ensures Rebuild(vs[i], DropEntries(vs, i)) == vs[i..]
    decreases |vs| - i
  {
    var ds := DropEntries(vs, i);
    if i + 1 < |vs| {
      assert ds != [];
      assert ds[0].percent == PercentDecrease(vs[i], vs[i + 1]);
      ApplyDecrease(vs[i], vs[i + 1], ds[0].percent);
      assert ds[1..] == DropEntries(vs, i + 1);
      RebuildDrops(vs, i + 1);
      assert Rebuild(vs[i], ds) == [vs[i]] + Rebuild(vs[i + 1], ds[1..]);
      assert vs[i..] == [vs[i]] + vs[i + 1..];
    } else {
      assert vs[i..] == [vs[i]];
    }
  }

  /**
   * The report loses nothing: the first inertia and the percent decreases
   * determine every later inertia.
   */
  lemma ReportDeterminesInertias(optimal: int, vs: seq<real>)
    requires |vs| > 0 && Explain(optimal, vs).Ok?
    ensures Rebuild(vs[0], Explain(optimal, vs).value.drops) == vs
  {
    RebuildDrops(vs, 0);
  }
}
