/**
 * Data-Viz/ex05/Clustering.py, `create_bar_chart` and `create_bubble_chart`:
 * the numbers behind the two segment charts. Drawing, colours and text
 * formatting are not modelled.
 */
module Segments {
  import opened Wrappers
  import opened Seqs
  import opened GroupBy
  import opened Clustering

  // ---------------------------------------------------------------------
  // Bar chart

  /** One horizontal bar per present cluster, and the right end of the x axis. */
  datatype BarChart = BarChart(clusters: seq<int>, names: seq<string>, counts: seq<int>, xMax: real)

  /**
   * `create_bar_chart`: `value_counts().sort_index()` gives the present
   * clusters in ascending order with their sizes, each bar is named by
   * `labels.get(i, f'Cluster {i+1}')`, and the axis ends at 1.1 times the
   * largest count. Without customers `max` of an empty sequence raises
   * `ValueError`.
   */
  function SegmentBars(ms: seq<Member>, labels: map<int, Label>): (r: Result<BarChart>)
    requires ClusterIndexed(ms)
    ensures r.Err? <==> ms == []
    ensures r.Err? ==> r.error == ValueError
    ensures r.Ok? ==>
      var b := r.value;
      && b.clusters == StatsIndex(ms) && b.counts == Sizes(ClusterGroups(ms))
      && |b.names| == |b.clusters| > 0
      && (forall i :: 0 <= i < |b.clusters| ==>
            b.clusters[i] >= 0 && b.names[i] == LabelName(DisplayLabel(labels, b.clusters[i])))
      && b.xMax == Max(AsReals(b.counts)) * 1.1
  {
    if ms == [] then Err(ValueError)
    else
      var ks := StatsIndex(ms);
      assert ms[0].cluster in Clusters(ms);
      assert forall i :: 0 <= i < |ks| ==> ks[i] >= 0 by {
        ClustersNonNegative(ms);
        forall i | 0 <= i < |ks| ensures ks[i] >= 0 {
          assert ks[i] in ks;
        }
      }
      var counts := Sizes(ClusterGroups(ms));
      Ok(BarChart(ks, BarNames(ks, labels), counts, Max(AsReals(counts)) * 1.1))
  }

  /** `[labels.get(i, f'Cluster {i+1}') for i in cluster_counts.index]`, as printed names. */
  function BarNames(ks: seq<int>, labels: map<int, Label>): (names: seq<string>)
    requires forall i :: 0 <= i < |ks| ==> ks[i] >= 0
    ensures |names| == |ks|
    ensures forall i :: 0 <= i < |ks| ==> names[i] == LabelName(DisplayLabel(labels, ks[i]))
  {
    seq(|ks|, i requires 0 <= i < |ks| => LabelName(DisplayLabel(labels, ks[i])))
  }

  lemma ClustersNonNegative(ms: seq<Member>)
    requires ClusterIndexed(ms)
    ensures forall c :: c in Clusters(ms) ==> c >= 0
  {
    forall c | c in Clusters(ms) ensures c >= 0 {
      var m :| m in ms && m.cluster == c;
      var j :| 0 <= j < |ms| && ms[j] == m;
    }
  }

  /**
   * One bar per present cluster, in ascending cluster order, each as long as
   * the number of customers in its cluster.
   */
  lemma BarsPerCluster(ms: seq<Member>, labels: map<int, Label>)
    requires ClusterIndexed(ms) && ms != []
    ensures var b := SegmentBars(ms, labels).value;
      && |b.counts| == |b.clusters|
      && (forall i, j :: 0 <= i < j < |b.clusters| ==> b.clusters[i] < b.clusters[j])
      && (forall c :: c in b.clusters <==> c in Clusters(ms))
      && (forall i :: 0 <= i < |b.clusters| ==> b.counts[i] == Size(ms, b.clusters[i]) > 0)
  {
    var b := SegmentBars(ms, labels).value;
    GroupsMatchRows(KeyedBy(ms, Monetary));
    forall i | 0 <= i < |b.clusters| ensures b.counts[i] == Size(ms, b.clusters[i]) > 0 {
      assert b.clusters[i] in b.clusters;
    }
  }

  /** The bars count every customer exactly once. */
  lemma BarCountsTotal(ms: seq<Member>, labels: map<int, Label>)
    requires ClusterIndexed(ms) && ms != []
    ensures IntSum(SegmentBars(ms, labels).value.counts) == |ms|
  {
    var gs := ClusterGroups(ms);
    assert SegmentBars(ms, labels).value.counts == Sizes(gs);
    ColumnTotals(gs);
    AggregateTotals(KeyedBy(ms, Monetary));
  }

  /** Every bar ends inside the axis, with a margin of a tenth of the longest bar. */
  lemma BarsFit(ms: seq<Member>, labels: map<int, Label>)
    requires ClusterIndexed(ms) && ms != []
    ensures var b := SegmentBars(ms, labels).value;
      forall i :: 0 <= i < |b.counts| ==> b.counts[i] as real * 1.1 <= b.xMax && b.counts[i] as real < b.xMax
  {
    var b := SegmentBars(ms, labels).value;
    var xs := AsReals(b.counts);
    forall i | 0 <= i < |b.counts|
      ensures b.counts[i] as real * 1.1 <= b.xMax && b.counts[i] as real < b.xMax
    {
      assert xs[i] <= Max(xs);
    }
  }

  /** A cluster's shown label is never shared with another cluster. */
  lemma DisplayLabelInjective(n: nat, order: seq<int>, a: int, b: int)
    requires Distinct(order) && |order| >= FrontCount(n)
    requires a >= 0 && b >= 0 && a != b
    ensures DisplayLabel(AssignLabels(n, order).value, a) != DisplayLabel(AssignLabels(n, order).value, b)
  {
    var m := AssignLabels(n, order).value;
    if a in m && b in m {
      LabelsInjective(n, order, a, b);
    } else if n >= 3 && a in m {
      var p := LabelPosition(n, order, a);
    } else if n >= 3 && b in m {
      var p := LabelPosition(n, order, b);
    }
  }

  /**
   * With the labels `analyze_clusters` produces, no two bars carry the same
   * name, so the categorical axis keeps one bar per cluster.
   */
  lemma BarNamesDistinct(ms: seq<Member>, n: nat, order: seq<int>)
    requires ClusterIndexed(ms) && Distinct(order) && |order| >= FrontCount(n)
    requires ms != []
    ensures var b := SegmentBars(ms, AssignLabels(n, order).value).value;
      forall i, j :: 0 <= i < j < |b.names| ==> b.names[i] != b.names[j]
  {
    var m := AssignLabels(n, order).value;
    var b := SegmentBars(ms, m).value;
    forall i, j | 0 <= i < j < |b.names| ensures b.names[i] != b.names[j] {
      DisplayLabelInjective(n, order, b.clusters[i], b.clusters[j]);
      LabelNameInjective(DisplayLabel(m, b.clusters[i]), DisplayLabel(m, b.clusters[j]));
    }
  }

  // ---------------------------------------------------------------------
  // Bubble chart

  /** One row of `groupby('cluster')[...].median()`: the medians are inputs. */
  datatype ClusterMedians = ClusterMedians(cluster: int, frequency: real, recencyDays: real, monetary: real)

  /** A marker area; dividing by a zero largest spend gives NaN or infinity. */
  datatype Area = Finite(value: real) | NonFinite

  datatype Bubble = Bubble(x: real, y: real, area: Area, segment: Label)

  datatype Axes = Axes(xMin: real, xMax: real, yMin: real, yMax: real)

  datatype BubbleChart = BubbleChart(bubbles: seq<Bubble>, axes: Axes)

  /** Scatter marker sizes run up to 800 for the largest median spend. */
  const MaxArea := 800.0

  /**
   * `(monetary / max_monetary) * 800`: areas are proportional to the spend,
   * 800 standing for the largest one; a zero largest spend has no finite area.
   */
  function BubbleArea(m: real, maxM: real): (a: Area)
    ensures a.NonFinite? <==> maxM == 0.0
    ensures a.Finite? ==> a.value * maxM == m * MaxArea
  {
    if maxM == 0.0 then NonFinite else Finite(m / maxM * MaxArea)
  }

  /** The columns the bubble chart reads; recency is shown in 30-day months. */
  datatype Axis = MonthsSince | MedianFrequency | MedianSpend

  function Coordinate(s: ClusterMedians, a: Axis): real
  {
    match a
    case MonthsSince => s.recencyDays / 30.0
    case MedianFrequency => s.frequency
    case MedianSpend => s.monetary
  }

  function Column(stats: seq<ClusterMedians>, a: Axis): (r: seq<real>)
    ensures |r| == |stats|
    ensures forall i :: 0 <= i < |stats| ==> r[i] == Coordinate(stats[i], a)
  {
    seq(|stats|, i requires 0 <= i < |stats| => Coordinate(stats[i], a))
  }

  /** One bubble per cluster, in row order, with areas scaled against `maxM`. */
  function Bubbles(stats: seq<ClusterMedians>, labels: map<int, Label>, maxM: real): (bs: seq<Bubble>)
    requires forall i :: 0 <= i < |stats| ==> stats[i].cluster >= 0
    ensures |bs| == |stats|
    ensures forall i :: 0 <= i < |stats| ==>
      bs[i] == Bubble(stats[i].recencyDays / 30.0, stats[i].frequency,
                      BubbleArea(stats[i].monetary, maxM), DisplayLabel(labels, stats[i].cluster))
  {
    if stats == [] then []
    else
      var n := |stats| - 1;
      Bubbles(stats[..n], labels, maxM)
        + [Bubble(stats[n].recencyDays / 30.0, stats[n].frequency,
                  BubbleArea(stats[n].monetary, maxM), DisplayLabel(labels, stats[n].cluster))]
  }

  /** The plot ranges: 2 months either side of the recencies, 0 up to 10 above the top frequency. */
  function BubbleAxes(stats: seq<ClusterMedians>): Axes
    requires stats != []
  {
    Axes(Min(Column(stats, MonthsSince)) - 2.0, Max(Column(stats, MonthsSince)) + 2.0,
         0.0, Max(Column(stats, MedianFrequency)) + 10.0)
  }

  /**
   * The y range starts at 0; every cluster lies at least 2 months inside the
   * x range and 10 below the top, and the outermost clusters sit exactly on
   * those margins.
   */
  lemma AxesMargins(stats: seq<ClusterMedians>)
    requires stats != []
    ensures var ax := BubbleAxes(stats);
      && ax.yMin == 0.0
      && (forall i :: 0 <= i < |stats| ==>
            && ax.xMin + 2.0 <= stats[i].recencyDays / 30.0 <= ax.xMax - 2.0
            && stats[i].frequency <= ax.yMax - 10.0)
      && (exists i :: 0 <= i < |stats| && stats[i].recencyDays / 30.0 == ax.xMin + 2.0)
      && (exists i :: 0 <= i < |stats| && stats[i].recencyDays / 30.0 == ax.xMax - 2.0)
      && (exists i :: 0 <= i < |stats| && stats[i].frequency == ax.yMax - 10.0)
  {
    var months, freqs := Column(stats, MonthsSince), Column(stats, MedianFrequency);
    var lo :| 0 <= lo < |months| && months[lo] == Min(months);
    var hi :| 0 <= hi < |months| && months[hi] == Max(months);
    var top :| 0 <= top < |freqs| && freqs[top] == Max(freqs);
    assert stats[lo].recencyDays / 30.0 == BubbleAxes(stats).xMin + 2.0;
    assert stats[hi].recencyDays / 30.0 == BubbleAxes(stats).xMax - 2.0;
    assert stats[top].frequency == BubbleAxes(stats).yMax - 10.0;
    forall i | 0 <= i < |stats|
      ensures BubbleAxes(stats).xMin + 2.0 <= stats[i].recencyDays / 30.0 <= BubbleAxes(stats).xMax - 2.0
      ensures stats[i].frequency <= BubbleAxes(stats).yMax - 10.0
    {
      assert months[i] == stats[i].recencyDays / 30.0 && freqs[i] == stats[i].frequency;
    }
  }

  /**
   * `create_bubble_chart`: one bubble per cluster at (median recency in
   * months, median frequency), its area proportional to the median spend,
   * and the axes padded by 2 months and 10 purchases. Without clusters the
   * built-in `min` raises `ValueError`.
   */
  function SegmentBubbles(stats: seq<ClusterMedians>, labels: map<int, Label>): (r: Result<BubbleChart>)
    requires forall i :: 0 <= i < |stats| ==> stats[i].cluster >= 0
    ensures r.Err? <==> stats == []
    ensures r.Err? ==> r.error == ValueError
    ensures r.Ok? ==>
      && |r.value.bubbles| == |stats|
      && (forall i :: 0 <= i < |stats| ==>
            r.value.bubbles[i] == Bubble(stats[i].recencyDays / 30.0, stats[i].frequency,
                                         BubbleArea(stats[i].monetary, Max(Column(stats, MedianSpend))),
                                         DisplayLabel(labels, stats[i].cluster)))
      && r.value.axes == Axes(Min(Column(stats, MonthsSince)) - 2.0, Max(Column(stats, MonthsSince)) + 2.0,
                              0.0, Max(Column(stats, MedianFrequency)) + 10.0)
  {
    if stats == [] then Err(ValueError)
    else Ok(BubbleChart(Bubbles(stats, labels, Max(Column(stats, MedianSpend))), BubbleAxes(stats)))
  }

  /**
   * Every bubble centre lies at least 2 months inside the x range and 10
   * below the top of the y range, and above its bottom when the
   * frequencies are not negative.
   */
  lemma BubblesInsideAxes(stats: seq<ClusterMedians>, labels: map<int, Label>)
    requires forall i :: 0 <= i < |stats| ==> stats[i].cluster >= 0
    requires stats != []
    ensures var c := SegmentBubbles(stats, labels).value;
      forall i :: 0 <= i < |c.bubbles| ==>
        && c.axes.xMin + 2.0 <= c.bubbles[i].x <= c.axes.xMax - 2.0
        && c.bubbles[i].y <= c.axes.yMax - 10.0
        && (stats[i].frequency >= 0.0 ==> c.axes.yMin <= c.bubbles[i].y)
  {
    var c := SegmentBubbles(stats, labels).value;
    forall i | 0 <= i < |c.bubbles|
      ensures c.axes.xMin + 2.0 <= c.bubbles[i].x <= c.axes.xMax - 2.0
      ensures c.bubbles[i].y <= c.axes.yMax - 10.0
    {
      assert Column(stats, MonthsSince)[i] == c.bubbles[i].x;
      assert Column(stats, MedianFrequency)[i] == c.bubbles[i].y;
    }
  }

  /**
   * For non-negative spends with a positive largest one, every area lies in
   * [0, 800] and the largest spend gets exactly 800.
   */
  lemma BubbleAreaBounds(stats: seq<ClusterMedians>, labels: map<int, Label>)
    requires forall i :: 0 <= i < |stats| ==> stats[i].cluster >= 0 && stats[i].monetary >= 0.0
    requires stats != [] && Max(Column(stats, MedianSpend)) > 0.0
    ensures var bs := SegmentBubbles(stats, labels).value.bubbles;
      && (forall i :: 0 <= i < |bs| ==> bs[i].area.Finite? && 0.0 <= bs[i].area.value <= MaxArea)
      && (exists i :: 0 <= i < |bs| && bs[i].area == Finite(MaxArea))
      && (forall i :: 0 <= i < |bs| && stats[i].monetary == Max(Column(stats, MedianSpend)) ==>
            bs[i].area == Finite(MaxArea))
  {
    var ms := Column(stats, MedianSpend);
    var maxM := Max(ms);
    var bs := Bubbles(stats, labels, maxM);
    assert SegmentBubbles(stats, labels).value.bubbles == bs;
    forall i | 0 <= i < |bs| ensures bs[i].area.Finite? && 0.0 <= bs[i].area.value <= MaxArea {
      assert ms[i] <= maxM;
      AreaBounds(ms[i], maxM);
    }
    var k :| 0 <= k < |ms| && ms[k] == maxM;
    FullArea(maxM);
    assert bs[k].area == BubbleArea(maxM, maxM);
    forall i | 0 <= i < |bs| && stats[i].monetary == maxM ensures bs[i].area == Finite(MaxArea) {
      assert bs[i].area == BubbleArea(maxM, maxM);
    }
  }

  /** Bubble areas follow the spends: a larger median spend never gets a smaller bubble. */
  lemma BubbleAreaMonotone(stats: seq<ClusterMedians>, labels: map<int, Label>, i: int, j: int)
    requires forall k :: 0 <= k < |stats| ==> stats[k].cluster >= 0
    requires stats != [] && Max(Column(stats, MedianSpend)) > 0.0
    requires 0 <= i < |stats| && 0 <= j < |stats| && stats[i].monetary <= stats[j].monetary
    ensures var bs := SegmentBubbles(stats, labels).value.bubbles;
      bs[i].area.Finite? && bs[j].area.Finite? && bs[i].area.value <= bs[j].area.value
  {
    AreaMonotone(stats[i].monetary, stats[j].monetary, Max(Column(stats, MedianSpend)));
  }

  lemma AreaBounds(m: real, maxM: real)
    requires 0.0 <= m <= maxM && maxM > 0.0
    ensures BubbleArea(m, maxM).Finite? && 0.0 <= BubbleArea(m, maxM).value <= MaxArea
  {
    assert m / maxM <= 1.0;
  }

  lemma FullArea(maxM: real)
    requires maxM != 0.0
    ensures BubbleArea(maxM, maxM) == Finite(MaxArea)
  {
    assert maxM / maxM == 1.0;
  }

  lemma AreaMonotone(a: real, b: real, maxM: real)
    requires a <= b && maxM > 0.0
    ensures BubbleArea(a, maxM).Finite? && BubbleArea(b, maxM).Finite?
    ensures BubbleArea(a, maxM).value <= BubbleArea(b, maxM).value
  {
    assert a / maxM <= b / maxM;
  }

  /** When the largest median spend is 0 no bubble has a finite size. */
  lemma ZeroSpendBubbles(stats: seq<ClusterMedians>, labels: map<int, Label>)
    requires forall i :: 0 <= i < |stats| ==> stats[i].cluster >= 0
    requires stats != [] && Max(Column(stats, MedianSpend)) == 0.0
    ensures forall b :: b in SegmentBubbles(stats, labels).value.bubbles ==> b.area == NonFinite
  {
  }
}
