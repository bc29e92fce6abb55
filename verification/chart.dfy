/**
 * Data-Viz/ex01/chart.py: purchases between October 2022 and February 2023,
 * counted per day, summed per month and averaged per day, with one x-axis
 * tick at the first day of every month.
 */
module PurchaseChart {
  import opened Wrappers
  import opened Seqs
  import opened GroupBy

  /** A calendar day, as `event_time.dt.date` yields it. */
  datatype Date = Date(year: int, month: int, day: int)

  ghost predicate ValidDate(d: Date)
  {
    1 <= d.month <= 12 && 1 <= d.day <= 31
  }

  /**
   * One purchase row: the day of its `event_time` and its price. The query
   * does not filter NULL prices, so a price may be missing (NaN once read).
   */
  datatype Purchase = Purchase(date: Date, price: Option<real>)

  /** The price as pandas' `sum` counts it: a missing price adds nothing. */
  function Paid(p: Purchase): real
  {
    if p.price.Some? then p.price.value else 0.0
  }

  ghost predicate ValidRows(rows: seq<Purchase>)
  {
    forall i :: 0 <= i < |rows| ==> ValidDate(rows[i].date)
  }

  datatype DailyCount = DailyCount(day: Date, count: nat)
  datatype MonthlyTotal = MonthlyTotal(year: int, month: int, name: string, millions: real)
  /** A day's mean price; `None` is the NaN of a day whose prices are all missing. */
  datatype DailyAverage = DailyAverage(day: Date, avgSpend: Option<real>)

  /**
   * `get_purchase_data`: a non-zero exit status of the database client, an
   * empty result, or event times that `to_datetime` cannot parse (caught by
   * the catch-all handler) give `None`; otherwise the rows unchanged.
   */
  function FetchPurchases(returnCode: int, rows: seq<Purchase>, timesParse: bool): (r: Option<seq<Purchase>>)
    ensures r.None? <==> returnCode != 0 || rows == [] || !timesParse
    ensures r.Some? ==> r.value == rows
  {
    if returnCode != 0 then None
    else if rows == [] then None
    else if !timesParse then None
    else Some(rows)
  }

  // ---------------------------------------------------------------------
  // Calendar keys: days and months numbered in chronological order

  /** Days in chronological order (31 slots per month, some unused). */
  function DayKey(d: Date): int
  {
    (d.year * 12 + (d.month - 1)) * 31 + (d.day - 1)
  }

  function DateOfDayKey(k: int): Date
  {
    Date(k / 31 / 12, k / 31 % 12 + 1, k % 31 + 1)
  }

  function MonthKey(d: Date): int
  {
    d.year * 12 + (d.month - 1)
  }

  lemma DivMod31(q: int, r: int)
    requires 0 <= r < 31
    ensures (q * 31 + r) / 31 == q && (q * 31 + r) % 31 == r
  {
  }

  lemma DivMod12(q: int, r: int)
    requires 0 <= r < 12
    ensures (q * 12 + r) / 12 == q && (q * 12 + r) % 12 == r
  {
  }

  /** Decoding a day key gives back the day. */
  lemma DayKeyRoundTrip(d: Date)
    requires ValidDate(d)
    ensures DateOfDayKey(DayKey(d)) == d
  {
    var q := d.year * 12 + (d.month - 1);
    DivMod31(q, d.day - 1);
    DivMod12(d.year, d.month - 1);
  }

  lemma DayKeyInjective(a: Date, b: Date)
    requires ValidDate(a) && ValidDate(b) && DayKey(a) == DayKey(b)
    ensures a == b
  {
    DayKeyRoundTrip(a);
    DayKeyRoundTrip(b);
  }

  lemma MonthKeyInjective(a: Date, b: Date)
    requires ValidDate(a) && ValidDate(b) && MonthKey(a) == MonthKey(b)
    ensures a.year == b.year && a.month == b.month
  {
    DivMod12(a.year, a.month - 1);
    DivMod12(b.year, b.month - 1);
  }

  /** `strftime('%b')` in the C locale: the abbreviated month name. */
  function MonthAbbrev(m: int): string
    requires 1 <= m <= 12
  {
    ["Jan", "Feb", "Mar", "Apr", "May", "Jun", "Jul", "Aug", "Sep", "Oct", "Nov", "Dec"][m - 1]
  }

  // ---------------------------------------------------------------------
  // Reference counts over the rows

  function RowsOn(rows: seq<Purchase>, d: Date): nat
  {
    if rows == [] then 0
    else RowsOn(rows[..|rows| - 1], d) + (if rows[|rows| - 1].date == d then 1 else 0)
  }

  function SpendOn(rows: seq<Purchase>, d: Date): real
  {
    if rows == [] then 0.0
    else
      var p := rows[|rows| - 1];
      SpendOn(rows[..|rows| - 1], d) + (if p.date == d && p.price.Some? then p.price.value else 0.0)
  }

  /** Number of purchases on day `d` whose price is present. */
  function PricedOn(rows: seq<Purchase>, d: Date): nat
  {
    if rows == [] then 0
    else
      var p := rows[|rows| - 1];
      PricedOn(rows[..|rows| - 1], d) + (if p.date == d && p.price.Some? then 1 else 0)
  }

  function SpendIn(rows: seq<Purchase>, year: int, month: int): real
  {
    if rows == [] then 0.0
    else
      var p := rows[|rows| - 1];
      SpendIn(rows[..|rows| - 1], year, month)
        + (if p.date.year == year && p.date.month == month && p.price.Some? then p.price.value else 0.0)
  }

  // ---------------------------------------------------------------------
  // Grouping by day and by month

  function ByDay(rows: seq<Purchase>): (r: seq<Row>)
    ensures |r| == |rows|
    ensures forall i :: 0 <= i < |rows| ==> r[i] == Row(DayKey(rows[i].date), Paid(rows[i]))
  {
    seq(|rows|, i requires 0 <= i < |rows| => Row(DayKey(rows[i].date), Paid(rows[i])))
  }

  function ByMonth(rows: seq<Purchase>): (r: seq<Row>)
    ensures |r| == |rows|
    ensures forall i :: 0 <= i < |rows| ==> r[i] == Row(MonthKey(rows[i].date), Paid(rows[i]))
  {
    seq(|rows|, i requires 0 <= i < |rows| => Row(MonthKey(rows[i].date), Paid(rows[i])))
  }

  /** The rows whose price is present, keyed by day: what `mean` averages over. */
  function PricedByDay(rows: seq<Purchase>): seq<Row>
  {
    if rows == [] then []
    else
      var p := rows[|rows| - 1];
      PricedByDay(rows[..|rows| - 1]) + (if p.price.Some? then [Row(DayKey(p.date), p.price.value)] else [])
  }

  lemma {:induction false} ByDayCounts(rows: seq<Purchase>, d: Date)
    requires ValidRows(rows) && ValidDate(d)
    ensures Count(ByDay(rows), DayKey(d)) == RowsOn(rows, d)
    ensures SumFor(ByDay(rows), DayKey(d)) == SpendOn(rows, d)
  {
    if rows != [] {
      var init := rows[..|rows| - 1];
      assert ByDay(rows)[..|rows| - 1] == ByDay(init);
      ByDayCounts(init, d);
      var last := rows[|rows| - 1].date;
      if DayKey(last) == DayKey(d) {
        DayKeyInjective(last, d);
      }
    }
  }

  lemma {:induction false} ByMonthSums(rows: seq<Purchase>, d: Date)
    requires ValidRows(rows) && ValidDate(d)
    ensures SumFor(ByMonth(rows), MonthKey(d)) == SpendIn(rows, d.year, d.month)
  {
    if rows != [] {
      var init := rows[..|rows| - 1];
      assert ByMonth(rows)[..|rows| - 1] == ByMonth(init);
      ByMonthSums(init, d);
      var last := rows[|rows| - 1].date;
      if MonthKey(last) == MonthKey(d) {
        MonthKeyInjective(last, d);
      }
    }
  }

  lemma {:induction false} PricedByDayCounts(rows: seq<Purchase>, d: Date)
    requires ValidRows(rows) && ValidDate(d)
    ensures Count(PricedByDay(rows), DayKey(d)) == PricedOn(rows, d)
    ensures SumFor(PricedByDay(rows), DayKey(d)) == SpendOn(rows, d)
  {
    if rows != [] {
      var init := rows[..|rows| - 1];
      var p := rows[|rows| - 1];
      PricedByDayCounts(init, d);
      if p.price.Some? {
        CountSnoc(PricedByDay(init), Row(DayKey(p.date), p.price.value), DayKey(d));
        if DayKey(p.date) == DayKey(d) {
          DayKeyInjective(p.date, d);
        }
      } else {
        assert PricedByDay(init) + [] == PricedByDay(init);
      }
    }
  }

  /** A group key taken from valid rows decodes to a valid day that occurs in the rows. */
  lemma DayGroupKey(rows: seq<Purchase>, k: int)
    requires ValidRows(rows) && k in RowKeys(ByDay(rows))
    ensures ValidDate(DateOfDayKey(k)) && DayKey(DateOfDayKey(k)) == k
    ensures exists i :: 0 <= i < |rows| && rows[i].date == DateOfDayKey(k)
  {
    var r :| r in ByDay(rows) && r.key == k;
    var i :| 0 <= i < |rows| && ByDay(rows)[i] == r;
    DayKeyRoundTrip(rows[i].date);
  }

  /** Each day group decodes to a valid day whose row count and price sum it carries. */
  lemma DayGroups(rows: seq<Purchase>, gs: seq<Group>)
    requires ValidRows(rows) && gs == Aggregate(ByDay(rows))
    ensures forall i :: 0 <= i < |gs| ==>
      && ValidDate(DateOfDayKey(gs[i].key)) && DayKey(DateOfDayKey(gs[i].key)) == gs[i].key
      && gs[i].size == RowsOn(rows, DateOfDayKey(gs[i].key)) && gs[i].sum == SpendOn(rows, DateOfDayKey(gs[i].key))
  {
    forall i | 0 <= i < |gs|
      ensures ValidDate(DateOfDayKey(gs[i].key)) && DayKey(DateOfDayKey(gs[i].key)) == gs[i].key
      ensures gs[i].size == RowsOn(rows, DateOfDayKey(gs[i].key))
      ensures gs[i].sum == SpendOn(rows, DateOfDayKey(gs[i].key))
    {
      assert gs[i] in gs;
      assert gs[i].key in GroupKeys(gs);
      DayGroupKey(rows, gs[i].key);
      LookupMember(gs, i);
      AggregateLookup(ByDay(rows), gs[i].key);
      ByDayCounts(rows, DateOfDayKey(gs[i].key));
    }
  }

  /** Every day decoded from the day groups is a day some purchase was made on. */
  lemma DayGroupsWithinDays(rows: seq<Purchase>, days: seq<Date>)
    requires ValidRows(rows)
    requires |days| == |Aggregate(ByDay(rows))|
    requires forall i :: 0 <= i < |days| ==> days[i] == DateOfDayKey(Aggregate(ByDay(rows))[i].key)
    ensures forall d :: d in days ==> d in (set p | p in rows :: p.date)
  {
    var gs := Aggregate(ByDay(rows));
    forall d | d in days ensures d in (set p | p in rows :: p.date) {
      var i :| 0 <= i < |days| && days[i] == d;
      assert gs[i] in gs;
      assert gs[i].key in GroupKeys(gs);
      DayGroupKey(rows, gs[i].key);
    }
  }

  /** Every purchase day is among the days decoded from the day groups. */
  lemma DaysWithinDayGroups(rows: seq<Purchase>, days: seq<Date>)
    requires ValidRows(rows)
    requires |days| == |Aggregate(ByDay(rows))|
    requires forall i :: 0 <= i < |days| ==> days[i] == DateOfDayKey(Aggregate(ByDay(rows))[i].key)
    ensures forall p :: p in rows ==> p.date in days
  {
    var gs := Aggregate(ByDay(rows));
    forall p | p in rows ensures p.date in days {
      var i :| 0 <= i < |rows| && rows[i] == p;
      assert ByDay(rows)[i] in ByDay(rows);
      assert DayKey(p.date) in GroupKeys(gs);
      var g :| g in gs && g.key == DayKey(p.date);
      var j :| 0 <= j < |gs| && gs[j] == g;
      DayGroupKey(rows, g.key);
      DayKeyInjective(days[j], p.date);
    }
  }

  /** The days decoded from the day groups are exactly the days that occur in the rows. */
  lemma DayGroupsCoverDays(rows: seq<Purchase>, days: seq<Date>)
    requires ValidRows(rows)
    requires |days| == |Aggregate(ByDay(rows))|
    requires forall i :: 0 <= i < |days| ==> days[i] == DateOfDayKey(Aggregate(ByDay(rows))[i].key)
    ensures (set d | d in days) == (set p | p in rows :: p.date)
  {
    DayGroupsWithinDays(rows, days);
    DaysWithinDayGroups(rows, days);
  }

  /** `df.groupby('day').size()`: the number of purchases on each day, in chronological order. */
  function DailyCounts(rows: seq<Purchase>): (r: seq<DailyCount>)
    requires ValidRows(rows)
    ensures |r| == |Aggregate(ByDay(rows))|
    ensures forall i, j :: 0 <= i < j < |r| ==> DayKey(r[i].day) < DayKey(r[j].day)
    ensures forall i :: 0 <= i < |r| ==>
      ValidDate(r[i].day) && r[i].count == RowsOn(rows, r[i].day) && r[i].count > 0
  {
    var gs := Aggregate(ByDay(rows));
    DayGroups(rows, gs);
    seq(|gs|, i requires 0 <= i < |gs| => DailyCount(DateOfDayKey(gs[i].key), gs[i].size))
  }

  /** The count column of the daily counts. */
  function CountColumn(r: seq<DailyCount>): (c: seq<int>)
    ensures |c| == |r|
    ensures forall i :: 0 <= i < |r| ==> c[i] == r[i].count
  {
    seq(|r|, i requires 0 <= i < |r| => r[i].count as int)
  }

  /** The counts are listed under the days their group keys decode to. */
  lemma CountDays(rows: seq<Purchase>)
    requires ValidRows(rows)
    ensures forall i :: 0 <= i < |DailyCounts(rows)| ==>
      DailyCounts(rows)[i].day == DateOfDayKey(Aggregate(ByDay(rows))[i].key)
  {
  }

  /** The daily counts have one entry per distinct purchase day. */
  lemma DailyCountsCoverDays(rows: seq<Purchase>)
    requires ValidRows(rows)
    ensures (set c | c in DailyCounts(rows) :: c.day) == (set p | p in rows :: p.date)
  {
    var r := DailyCounts(rows);
    var days := seq(|r|, i requires 0 <= i < |r| => r[i].day);
    CountDays(rows);
    DayGroupsCoverDays(rows, days);
    assert (set c | c in r :: c.day) == (set d | d in days) by {
      forall c | c in r ensures c.day in days {
        var i :| 0 <= i < |r| && r[i] == c;
        assert days[i] == c.day;
      }
      forall d | d in days ensures d in (set c | c in r :: c.day) {
        var i :| 0 <= i < |days| && days[i] == d;
        assert r[i] in r;
      }
    }
  }

  /** The daily counts add up to the number of purchase rows. */
  lemma DailyCountsSum(rows: seq<Purchase>)
    requires ValidRows(rows)
    ensures IntSum(CountColumn(DailyCounts(rows))) == |rows|
  {
    var gs := Aggregate(ByDay(rows));
    var r := DailyCounts(rows);
    assert forall i :: 0 <= i < |r| ==> r[i].count == gs[i].size;
    assert CountColumn(r) == Sizes(gs);
    ColumnTotals(gs);
    AggregateTotals(ByDay(rows));
  }

  /**
   * `df.groupby('month')['price'].sum() / 1000000`: one entry per month in
   * chronological order, each its month's price sum in millions.
   */
  function MonthlyTotals(rows: seq<Purchase>): (r: seq<MonthlyTotal>)
    requires ValidRows(rows)
    ensures |r| == |Aggregate(ByMonth(rows))|
    ensures forall i :: 0 <= i < |r| ==> r[i].year * 12 + r[i].month - 1 == Aggregate(ByMonth(rows))[i].key
    ensures forall i, j :: 0 <= i < j < |r| ==>
      r[i].year * 12 + r[i].month < r[j].year * 12 + r[j].month
    ensures forall i :: 0 <= i < |r| ==>
      && 1 <= r[i].month <= 12
      && r[i].name == MonthAbbrev(r[i].month)
      && r[i].millions * 1000000.0 == SpendIn(rows, r[i].year, r[i].month)
  {
    var gs := Aggregate(ByMonth(rows));
    var r := seq(|gs|, i requires 0 <= i < |gs| =>
      var m := gs[i].key % 12 + 1;
      MonthlyTotal(gs[i].key / 12, m, MonthAbbrev(m), gs[i].sum / 1000000.0));
    forall i | 0 <= i < |gs|
      ensures r[i].millions * 1000000.0 == SpendIn(rows, r[i].year, r[i].month)
      ensures r[i].year * 12 + r[i].month - 1 == gs[i].key
    {
      var d := Date(r[i].year, r[i].month, 1);
      DivMod12(gs[i].key / 12, gs[i].key % 12);
      assert MonthKey(d) == gs[i].key;
      LookupMember(gs, i);
      AggregateLookup(ByMonth(rows), gs[i].key);
      ByMonthSums(rows, d);
    }
    r
  }

  /**
   * `df.groupby('day').agg(avg_spend=('price', 'mean'))`: one entry per day
   * in chronological order, each the mean of that day's present prices. The
   * mean skips missing prices, so it divides by the number of priced
   * purchases, and a day whose prices are all missing gets NaN (`None`).
   */
  function DailyAverages(rows: seq<Purchase>): (r: seq<DailyAverage>)
    requires ValidRows(rows)
    ensures |r| == |Aggregate(ByDay(rows))|
    ensures forall i, j :: 0 <= i < j < |r| ==> DayKey(r[i].day) < DayKey(r[j].day)
    ensures forall i :: 0 <= i < |r| ==>
      && ValidDate(r[i].day)
      && RowsOn(rows, r[i].day) > 0
      && (r[i].avgSpend.None? <==> PricedOn(rows, r[i].day) == 0)
      && (r[i].avgSpend.Some? ==>
            r[i].avgSpend.value == SpendOn(rows, r[i].day) / PricedOn(rows, r[i].day) as real)
  {
    var gs := Aggregate(ByDay(rows));
    var priced := Aggregate(PricedByDay(rows));
    DayGroups(rows, gs);
    var r := seq(|gs|, i requires 0 <= i < |gs| =>
      var n := SizeOf(priced, gs[i].key);
      DailyAverage(DateOfDayKey(gs[i].key),
                   if n == 0 then None else Some(SumOf(priced, gs[i].key) / n as real)));
    forall i | 0 <= i < |gs|
      ensures SizeOf(priced, gs[i].key) == PricedOn(rows, r[i].day)
      ensures SumOf(priced, gs[i].key) == SpendOn(rows, r[i].day)
    {
      AggregateLookup(PricedByDay(rows), gs[i].key);
      PricedByDayCounts(rows, r[i].day);
    }
    r
  }

  /** `pd.to_datetime(daily_avg['day']).dt.strftime('%b')`: the month column of the averages. */
  function MonthColumn(days: seq<DailyAverage>): (r: seq<string>)
    requires forall i :: 0 <= i < |days| ==> ValidDate(days[i].day)
    ensures |r| == |days|
    ensures forall i :: 0 <= i < |days| ==> ValidDate(days[i].day) && r[i] == MonthAbbrev(days[i].day.month)
  {
    seq(|days|, i requires 0 <= i < |days| && ValidDate(days[i].day) => MonthAbbrev(days[i].day.month))
  }

  /** A month key taken from the rows is the month of some purchase. */
  lemma MonthGroupKey(rows: seq<Purchase>, k: int)
    requires k in RowKeys(ByMonth(rows))
    ensures exists i :: 0 <= i < |rows| && MonthKey(rows[i].date) == k
  {
    var r :| r in ByMonth(rows) && r.key == k;
    var i :| 0 <= i < |rows| && ByMonth(rows)[i] == r;
  }

  /** Every month of the monthly totals is a month in which some purchase was made. */
  lemma MonthsWithinRows(rows: seq<Purchase>)
    requires ValidRows(rows)
    ensures forall t :: t in MonthlyTotals(rows) ==>
      exists p :: p in rows && p.date.year == t.year && p.date.month == t.month
  {
    var gs := Aggregate(ByMonth(rows));
    var r := MonthlyTotals(rows);
    forall t | t in r ensures exists p :: p in rows && p.date.year == t.year && p.date.month == t.month {
      var i :| 0 <= i < |r| && r[i] == t;
      assert gs[i] in gs;
      assert gs[i].key in GroupKeys(gs);
      MonthGroupKey(rows, gs[i].key);
      var j :| 0 <= j < |rows| && MonthKey(rows[j].date) == gs[i].key;
      MonthKeyInjective(Date(t.year, t.month, 1), rows[j].date);
      assert rows[j] in rows;
    }
  }

  /** Every month in which some purchase was made has a monthly total. */
  lemma RowsWithinMonths(rows: seq<Purchase>)
    requires ValidRows(rows)
    ensures forall p :: p in rows ==>
      exists t :: t in MonthlyTotals(rows) && t.year == p.date.year && t.month == p.date.month
  {
    var gs := Aggregate(ByMonth(rows));
    var r := MonthlyTotals(rows);
    forall p | p in rows ensures exists t :: t in r && t.year == p.date.year && t.month == p.date.month {
      var i :| 0 <= i < |rows| && rows[i] == p;
      assert ByMonth(rows)[i] in ByMonth(rows);
      assert MonthKey(p.date) in GroupKeys(gs);
      var g :| g in gs && g.key == MonthKey(p.date);
      var j :| 0 <= j < |gs| && gs[j] == g;
      MonthKeyInjective(Date(r[j].year, r[j].month, 1), p.date);
      assert r[j] in r;
    }
  }

  /** The monthly totals list exactly the months in which some purchase was made. */
  lemma MonthlyTotalsCoverMonths(rows: seq<Purchase>)
    requires ValidRows(rows)
    ensures (set t | t in MonthlyTotals(rows) :: (t.year, t.month))
         == (set p | p in rows :: (p.date.year, p.date.month))
  {
    MonthsWithinRows(rows);
    RowsWithinMonths(rows);
  }

  /**
   * The mean divides by the priced purchases only: a day with one price of
   * 4 and one missing price averages 4, and a day with no price is NaN.
   */
  lemma MeanSkipsMissing()
    ensures var d1, d2 := Date(2022, 10, 1), Date(2022, 10, 2);
      var r := DailyAverages([Purchase(d1, Some(4.0)), Purchase(d1, None), Purchase(d2, None)]);
      forall i :: 0 <= i < |r| ==>
        (r[i].day == d1 ==> r[i].avgSpend == Some(4.0)) && (r[i].day == d2 ==> r[i].avgSpend == None)
  {
    var d1, d2 := Date(2022, 10, 1), Date(2022, 10, 2);
    ExampleAverages([Purchase(d1, Some(4.0)), Purchase(d1, None), Purchase(d2, None)], d1, d2);
  }

  lemma ExampleAverages(rows: seq<Purchase>, d1: Date, d2: Date)
    requires d1 == Date(2022, 10, 1) && d2 == Date(2022, 10, 2)
    requires rows == [Purchase(d1, Some(4.0)), Purchase(d1, None), Purchase(d2, None)]
    ensures var r := DailyAverages(rows);
      forall i :: 0 <= i < |r| ==>
        (r[i].day == d1 ==> r[i].avgSpend == Some(4.0)) && (r[i].day == d2 ==> r[i].avgSpend == None)
  {
    ExampleCounts(rows, d1, d2);
    forall i | 0 <= i < |DailyAverages(rows)|
      ensures var a := DailyAverages(rows)[i];
        (a.day == d1 ==> a.avgSpend == Some(4.0)) && (a.day == d2 ==> a.avgSpend == None)
    {
      AverageAt(rows, i);
    }
  }

  lemma ExampleCounts(rows: seq<Purchase>, d1: Date, d2: Date)
    requires d1 == Date(2022, 10, 1) && d2 == Date(2022, 10, 2)
    requires rows == [Purchase(d1, Some(4.0)), Purchase(d1, None), Purchase(d2, None)]
    ensures PricedOn(rows, d1) == 1 && SpendOn(rows, d1) == 4.0 && PricedOn(rows, d2) == 0
  {
    var rows2, rows1 := rows[..2], rows[..1];
    assert rows2[..1] == rows1 && rows1[..0] == [];
    assert PricedOn(rows1, d1) == 1 && PricedOn(rows2, d1) == 1;
    assert SpendOn(rows1, d1) == 4.0 && SpendOn(rows2, d1) == 4.0;
    assert PricedOn(rows1, d2) == 0 && PricedOn(rows2, d2) == 0;
  }

  /** One entry of the daily averages: NaN without a present price, else their mean. */
  lemma AverageAt(rows: seq<Purchase>, i: int)
    requires ValidRows(rows) && 0 <= i < |DailyAverages(rows)|
    ensures var a := DailyAverages(rows)[i];
      && (a.avgSpend.None? <==> PricedOn(rows, a.day) == 0)
      && (a.avgSpend.Some? ==> a.avgSpend.value == SpendOn(rows, a.day) / PricedOn(rows, a.day) as real)
  {
  }

  /** The averages are listed under the days their group keys decode to. */
  lemma AverageDays(rows: seq<Purchase>)
    requires ValidRows(rows)
    ensures forall i :: 0 <= i < |DailyAverages(rows)| ==>
      DailyAverages(rows)[i].day == DateOfDayKey(Aggregate(ByDay(rows))[i].key)
  {
  }

  /** The daily averages have one entry per distinct purchase day. */
  lemma DailyAveragesCoverDays(rows: seq<Purchase>)
    requires ValidRows(rows)
    ensures (set a | a in DailyAverages(rows) :: a.day) == (set p | p in rows :: p.date)
  {
    var r := DailyAverages(rows);
    var days := seq(|r|, i requires 0 <= i < |r| => r[i].day);
    AverageDays(rows);
    DayGroupsCoverDays(rows, days);
    assert (set a | a in r :: a.day) == (set d | d in days) by {
      forall a | a in r ensures a.day in days {
        var i :| 0 <= i < |r| && r[i] == a;
        assert days[i] == a.day;
      }
      forall d | d in days ensures d in (set a | a in r :: a.day) {
        var i :| 0 <= i < |days| && days[i] == d;
        assert r[i] in r;
      }
    }
  }

  // ---------------------------------------------------------------------
  // Month ticks of the average-spend chart

  /** Row `i` opens a run of equal month names. */
  ghost predicate RunStart(months: seq<string>, i: int)
    requires 0 <= i < |months|
  {
    i == 0 || months[i] != months[i - 1]
  }

  /**
   * The tick loop of `create_purchase_ratio_chart`: a tick at every row whose
   * month name differs from the row before it, labelled with that name.
   */
  method MonthTicks(months: seq<string>) returns (positions: seq<nat>, labels: seq<string>)
    ensures |positions| == |labels|
    ensures forall i :: i in positions <==> 0 <= i < |months| && RunStart(months, i)
    ensures forall j :: 0 <= j < |positions| ==>
      positions[j] < |months| && labels[j] == months[positions[j]]
    ensures forall j, k :: 0 <= j < k < |positions| ==> positions[j] < positions[k]
    ensures |months| > 0 ==> |positions| > 0 && positions[0] == 0
    ensures forall j :: 0 < j < |labels| ==> labels[j - 1] != labels[j]
  {
    positions := [];
    labels := [];
    var current: Option<string> := None;
    var i := 0;
    while i < |months|
      invariant 0 <= i <= |months|
      invariant |positions| == |labels|
      invariant forall p :: p in positions <==> 0 <= p < i && RunStart(months, p)
      invariant forall j :: 0 <= j < |positions| ==>
        positions[j] < i && labels[j] == months[positions[j]]
      invariant forall j, k :: 0 <= j < k < |positions| ==> positions[j] < positions[k]
      invariant i == 0 <==> current == None
      invariant i > 0 ==> current == Some(months[i - 1]) && |labels| > 0 && labels[|labels| - 1] == months[i - 1]
      invariant i > 0 ==> |positions| > 0 && positions[0] == 0
      invariant forall j :: 0 < j < |labels| ==> labels[j - 1] != labels[j]
    {
      if current != Some(months[i]) {
        current := Some(months[i]);
        positions := positions + [i];
        labels := labels + [months[i]];
      }
      i := i + 1;
    }
  }

  /**
   * `%b` drops the year, so a month name can come back as a later tick: the
   * last day of October 2022, the first of November 2022 and the first of
   * October 2023 all start runs, the first and last both labelled "Oct".
   */
  lemma MonthNameCanRecur()
    ensures var days := [DailyAverage(Date(2022, 10, 31), Some(1.0)), DailyAverage(Date(2022, 11, 1), Some(1.0)),
                         DailyAverage(Date(2023, 10, 1), None)];
      var months := MonthColumn(days);
      && DayKey(days[0].day) < DayKey(days[1].day) < DayKey(days[2].day)
      && RunStart(months, 0) && RunStart(months, 1) && RunStart(months, 2)
      && months[0] == months[2] == "Oct"
  {
  }
}
