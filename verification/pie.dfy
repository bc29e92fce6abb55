/**
 * Data-Viz/ex00/pie.py: the share of each event type among all events,
 * as drawn by `create_pie_chart`.
 */
module Pie {
  import opened Wrappers
  import opened Seqs

  /** One row of `SELECT event_type, COUNT(*) ... GROUP BY event_type`. */
  datatype EventCount = EventCount(eventType: string, count: int)

  /** What the chart is drawn from: labels, wedge sizes and their percentages. */
  datatype PieChart = PieChart(eventTypes: seq<string>, counts: seq<int>, percentages: seq<real>)

  /** The three ways `create_pie_chart` ends. */
  datatype PieOutcome =
    | NoData              // "No data to visualize", nothing drawn
    | ZeroTotal           // the counts sum to 0: `count/total` raises ZeroDivisionError
    | Chart(chart: PieChart)

  function Counts(data: seq<EventCount>): (r: seq<int>)
    ensures |r| == |data|
    ensures forall i :: 0 <= i < |data| ==> r[i] == data[i].count
  {
    seq(|data|, i requires 0 <= i < |data| => data[i].count)
  }

  /** The share of `count` in `total`, in percent. */
  function Percentage(count: int, total: int): real
    requires total != 0
  {
    count as real / total as real * 100.0
  }

  function Percentages(counts: seq<int>, total: int): (r: seq<real>)
    requires total != 0
    ensures |r| == |counts|
    ensures forall i :: 0 <= i < |counts| ==> r[i] == Percentage(counts[i], total)
  {
    seq(|counts|, i requires 0 <= i < |counts| => Percentage(counts[i], total))
  }

  /**
   * `create_pie_chart(data)`: `None` or an empty list draws nothing; otherwise
   * the labels and counts keep the rows' order and each count is turned into
   * its percentage of the total.
   */
  function CreatePieChart(data: Option<seq<EventCount>>): (r: PieOutcome)
    ensures r.NoData? <==> data.None? || data.value == []
    ensures r.ZeroTotal? <==> data.Some? && data.value != [] && IntSum(Counts(data.value)) == 0
    ensures r.Chart? ==>
      && |r.chart.eventTypes| == |r.chart.counts| == |r.chart.percentages| == |data.value|
      && forall i :: 0 <= i < |data.value| ==>
           && r.chart.eventTypes[i] == data.value[i].eventType
           && r.chart.counts[i] == data.value[i].count
           && r.chart.percentages[i] * IntSum(r.chart.counts) as real == r.chart.counts[i] as real * 100.0
  {
    if data.None? || data.value == [] then NoData
    else
      var rows := data.value;
      var counts := Counts(rows);
      var total := IntSum(counts);
      if total == 0 then ZeroTotal
      else
        PercentagesScale(counts, total);
        Chart(PieChart(seq(|rows|, i requires 0 <= i < |rows| => rows[i].eventType),
                          counts, Percentages(counts, total)))
  }

  /** Each percentage times the total gives back its count times 100. */
  lemma PercentagesScale(counts: seq<int>, total: int)
    requires total != 0
    ensures forall i :: 0 <= i < |counts| ==>
      Percentages(counts, total)[i] * total as real == counts[i] as real * 100.0
  {
    forall i | 0 <= i < |counts|
      ensures Percentages(counts, total)[i] * total as real == counts[i] as real * 100.0
    {
      ShareTimesTotal(counts[i] as real, total as real);
    }
  }

  lemma ShareTimesTotal(c: real, t: real)
    requires t != 0.0
    ensures c / t * 100.0 * t == c * 100.0
  {
  }

  lemma {:induction false} PercentagesSum(counts: seq<int>, total: int)
    requires total != 0
    ensures Sum(Percentages(counts, total)) == IntSum(counts) as real / total as real * 100.0
  {
    if counts != [] {
      var init := counts[..|counts| - 1];
      var last := counts[|counts| - 1];
      assert Percentages(counts, total)[..|counts| - 1] == Percentages(init, total);
      PercentagesSum(init, total);
      var t := total as real;
      calc {
        Sum(Percentages(counts, total));
        IntSum(init) as real / t * 100.0 + last as real / t * 100.0;
        { DivAdd(IntSum(init) as real, last as real, t); }
        (IntSum(init) as real + last as real) / t * 100.0;
      }
    }
  }

  lemma DivAdd(a: real, b: real, t: real)
    requires t != 0.0
    ensures a / t * 100.0 + b / t * 100.0 == (a + b) / t * 100.0
  {
  }

  /** For a positive total the percentages of a chart add up to exactly 100. */
  lemma PercentagesSumTo100(data: Option<seq<EventCount>>)
    requires CreatePieChart(data).Chart?
    ensures Sum(CreatePieChart(data).chart.percentages) == 100.0
  {
    var counts := Counts(data.value);
    var total := IntSum(counts);
    assert CreatePieChart(data).chart.percentages == Percentages(counts, total);
    PercentagesSum(counts, total);
    WholeShare(total as real);
  }

  lemma WholeShare(t: real)
    requires t != 0.0
    ensures t / t * 100.0 == 100.0
  {
  }

  /**
   * With non-negative counts, each percentage lies in [0, 100], and a positive
   * count gets a positive percentage.
   */
  lemma PercentageBounds(data: Option<seq<EventCount>>)
    requires CreatePieChart(data).Chart?
    requires forall i :: 0 <= i < |data.value| ==> data.value[i].count >= 0
    ensures forall i :: 0 <= i < |data.value| ==>
      0.0 <= CreatePieChart(data).chart.percentages[i] <= 100.0
      && (data.value[i].count > 0 ==> CreatePieChart(data).chart.percentages[i] > 0.0)
  {
    var counts := Counts(data.value);
    var total := IntSum(counts);
    IntSumBoundsTerms(counts);
    forall i | 0 <= i < |counts|
      ensures 0.0 <= Percentage(counts[i], total) <= 100.0
      ensures counts[i] > 0 ==> Percentage(counts[i], total) > 0.0
    {
      ShareBounds(counts[i] as real, total as real);
    }
  }

  lemma ShareBounds(c: real, t: real)
    requires 0.0 <= c <= t && t > 0.0
    ensures 0.0 <= c / t * 100.0 <= 100.0
    ensures c > 0.0 ==> c / t * 100.0 > 0.0
  {
    assert c / t <= 1.0;
  }

  /** For a positive total the percentages order the wedges exactly as the counts do. */
  lemma PercentagesPreserveOrder(data: Option<seq<EventCount>>, a: int, b: int)
    requires CreatePieChart(data).Chart?
    requires IntSum(Counts(data.value)) > 0
    requires 0 <= a < |data.value| && 0 <= b < |data.value|
    ensures data.value[a].count <= data.value[b].count
      <==> CreatePieChart(data).chart.percentages[a] <= CreatePieChart(data).chart.percentages[b]
  {
    var t := IntSum(Counts(data.value)) as real;
    ScaleMonotone(data.value[a].count as real, data.value[b].count as real, t);
  }

  lemma ScaleMonotone(x: real, y: real, t: real)
    requires t > 0.0
    ensures x <= y <==> x / t * 100.0 <= y / t * 100.0
  {
    if x <= y {
      assert x / t <= y / t;
    } else {
      assert y / t < x / t;
    }
  }

  /** An example from the event table: three event types, percentages 50, 30, 20. */
  lemma ExampleChart()
    ensures CreatePieChart(Some([EventCount("view", 50), EventCount("cart", 30), EventCount("purchase", 20)]))
      == Chart(PieChart(["view", "cart", "purchase"], [50, 30, 20], [50.0, 30.0, 20.0]))
  {
    var rows := [EventCount("view", 50), EventCount("cart", 30), EventCount("purchase", 20)];
    assert IntSum(Counts(rows)) == 100 by {
      assert Counts(rows) == [50, 30, 20];
      assert [50, 30, 20][..2] == [50, 30];
      assert [50, 30][..1] == [50];
      assert [50][..0] == [];
    }
    assert Percentages(Counts(rows), 100) == [50.0, 30.0, 20.0];
    assert seq(|rows|, i requires 0 <= i < |rows| => rows[i].eventType) == ["view", "cart", "purchase"];
  }
}
