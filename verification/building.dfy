/**
 * Data-Viz/ex03/Building.py: per-customer purchase frequency and spending,
 * each drawn as a bar chart over fixed histogram edges.
 */
module Building {
  import opened Wrappers
  import opened Seqs
  import opened GroupBy
  import opened Histogram

  /** A purchase row as read back from the database client's CSV. `price` is
      `None` when `pd.to_numeric(errors='coerce')` could not read it. */
  datatype RawPurchase = RawPurchase(userId: int, price: Option<real>)

  /** A purchase row with a numeric price. */
  datatype Purchase = Purchase(userId: int, price: real)

  /** The bars of one chart: x positions and one height per position. */
  datatype Bars = Bars(positions: seq<int>, heights: seq<nat>)

  const FrequencyEdges: seq<real> := [0.0, 10.0, 20.0, 30.0, 40.0]
  const FrequencyPositions: seq<int> := [0, 10, 20, 30]
  const SpendingEdges: seq<real> := [0.0, 50.0, 100.0, 150.0, 200.0, 250.0]
  const SpendingPositions: seq<int> := [0, 50, 100, 150, 200]

  /** Number of raw rows whose price is numeric. */
  function NumericRows(raw: seq<RawPurchase>): nat
  {
    if raw == [] then 0
    else NumericRows(raw[..|raw| - 1]) + (if raw[|raw| - 1].price.Some? then 1 else 0)
  }

  /** `dropna(subset=['price'])`: keep exactly the rows with a numeric price, in order. */
  function DropNonNumeric(raw: seq<RawPurchase>): (r: seq<Purchase>)
    ensures |r| == NumericRows(raw)
    ensures forall p :: multiset(r)[p] == multiset(raw)[RawPurchase(p.userId, Some(p.price))]
  {
    if raw == [] then []
    else
      var init := raw[..|raw| - 1];
      var x := raw[|raw| - 1];
      assert raw == init + [x];
      DropNonNumeric(init) + (if x.price.Some? then [Purchase(x.userId, x.price.value)] else [])
  }

  lemma DropNonNumericSnoc(s: seq<RawPurchase>, x: RawPurchase)
    ensures DropNonNumeric(s + [x]) == DropNonNumeric(s) + (if x.price.Some? then [Purchase(x.userId, x.price.value)] else [])
  {
    assert (s + [x])[..|s|] == s;
  }

  /** Dropping works row by row: it distributes over concatenation, so the kept rows keep their order. */
  lemma {:induction false} DropNonNumericAppend(a: seq<RawPurchase>, b: seq<RawPurchase>)
    ensures DropNonNumeric(a + b) == DropNonNumeric(a) + DropNonNumeric(b)
  {
    if b == [] {
      assert a + b == a;
    } else {
      var init, x := b[..|b| - 1], b[|b| - 1];
      SnocSplit(a, b);
      DropNonNumericSnoc(a + init, x);
      DropNonNumericSnoc(init, x);
      DropNonNumericAppend(a, init);
      ConcatAssoc(DropNonNumeric(a), DropNonNumeric(init), if x.price.Some? then [Purchase(x.userId, x.price.value)] else []);
    }
  }

  /** Number of raw rows of customer `u` with a numeric price. */
  function NumericPurchasesBy(raw: seq<RawPurchase>, u: int): nat
  {
    if raw == [] then 0
    else
      var x := raw[|raw| - 1];
      NumericPurchasesBy(raw[..|raw| - 1], u) + (if x.userId == u && x.price.Some? then 1 else 0)
  }

  lemma PurchasesBySnoc(rows: seq<Purchase>, tail: seq<Purchase>, u: int)
    requires |tail| <= 1
    ensures PurchasesBy(rows + tail, u) == PurchasesBy(rows, u) + (if tail != [] && tail[0].userId == u then 1 else 0)
  {
    if tail != [] {
      assert (rows + tail)[..|rows + tail| - 1] == rows;
    } else {
      assert rows + tail == rows;
    }
  }

  /** After dropping, each customer has exactly as many purchases as they had rows with a numeric price. */
  lemma {:induction false} DroppedPurchasesBy(raw: seq<RawPurchase>, u: int)
    ensures PurchasesBy(DropNonNumeric(raw), u) == NumericPurchasesBy(raw, u)
  {
    if raw != [] {
      var init := raw[..|raw| - 1];
      var x := raw[|raw| - 1];
      DroppedPurchasesBy(init, u);
      PurchasesBySnoc(DropNonNumeric(init), if x.price.Some? then [Purchase(x.userId, x.price.value)] else [], u);
    }
  }

  /**
   * `fetch_data`: a failing client (`check=True` raises `CalledProcessError`),
   * an empty result, or event times that `to_datetime` cannot parse (caught by
   * `except Exception`) give `None`; otherwise the rows with a numeric price,
   * in order. The emptiness test comes before the dropping, so a result whose
   * prices are all non-numeric is an empty table, not `None`.
   */
  function FetchPurchases(returnCode: int, raw: seq<RawPurchase>, timesParse: bool): (r: Option<seq<Purchase>>)
    ensures r.None? <==> returnCode != 0 || raw == [] || !timesParse
    ensures r.Some? ==> r.value == DropNonNumeric(raw) && |r.value| == NumericRows(raw)
  {
    if returnCode != 0 || raw == [] || !timesParse then None
    else Some(DropNonNumeric(raw))
  }

  /** A fetched table gives each customer as many purchases as they had rows with a numeric price. */
  lemma FetchedPurchasesBy(returnCode: int, raw: seq<RawPurchase>, timesParse: bool, u: int)
    requires FetchPurchases(returnCode, raw, timesParse).Some?
    ensures PurchasesBy(FetchPurchases(returnCode, raw, timesParse).value, u) == NumericPurchasesBy(raw, u)
  {
    DroppedPurchasesBy(raw, u);
  }

  /** A non-empty result with no numeric price yields an empty table rather than `None`. */
  lemma AllPricesMissing()
    ensures FetchPurchases(0, [RawPurchase(1, None), RawPurchase(2, None)], true) == Some([])
  {
  }

  /** The purchases as group-by rows keyed by customer, valued by price. */
  function Keyed(rows: seq<Purchase>): (r: seq<Row>)
    ensures |r| == |rows|
    ensures forall i :: 0 <= i < |rows| ==> r[i] == Row(rows[i].userId, rows[i].price)
  {
    seq(|rows|, i requires 0 <= i < |rows| => Row(rows[i].userId, rows[i].price))
  }

  /** `groupby('user_id')` over the purchases, with the price as value. */
  function UserGroups(rows: seq<Purchase>): (gs: seq<Group>)
    ensures StrictlyIncreasing(gs) && NoEmptyGroup(gs)
  {
    Aggregate(Keyed(rows))
  }

  /** Purchases per customer, one entry per customer in ascending id order. */
  function Frequencies(rows: seq<Purchase>): seq<real>
  {
    AsReals(Sizes(UserGroups(rows)))
  }

  /** Total spent per customer, one entry per customer in ascending id order. */
  function Spending(rows: seq<Purchase>): seq<real>
  {
    Sums(UserGroups(rows))
  }

  /** Number of purchases of customer `u`. */
  function PurchasesBy(rows: seq<Purchase>, u: int): nat
  {
    if rows == [] then 0
    else PurchasesBy(rows[..|rows| - 1], u) + (if rows[|rows| - 1].userId == u then 1 else 0)
  }

  /** Amount spent by customer `u`. */
  function SpentBy(rows: seq<Purchase>, u: int): real
  {
    if rows == [] then 0.0
    else SpentBy(rows[..|rows| - 1], u) + (if rows[|rows| - 1].userId == u then rows[|rows| - 1].price else 0.0)
  }

  function Prices(rows: seq<Purchase>): seq<real>
  {
    seq(|rows|, i requires 0 <= i < |rows| => rows[i].price)
  }

  lemma {:induction false} RowsAgree(rows: seq<Purchase>, u: int)
    ensures Count(Keyed(rows), u) == PurchasesBy(rows, u)
    ensures SumFor(Keyed(rows), u) == SpentBy(rows, u)
    ensures Values(Keyed(rows)) == Prices(rows)
  {
    if rows != [] {
      var init := rows[..|rows| - 1];
      RowsAgree(init, u);
      assert Keyed(rows)[..|rows| - 1] == Keyed(init);
    }
  }

  /**
   * `groupby('user_id').size()`: one frequency per customer, each the number
   * of that customer's purchases, together the number of rows.
   */
  lemma FrequenciesPerUser(rows: seq<Purchase>)
    ensures |Frequencies(rows)| == |UserGroups(rows)|
    ensures forall i :: 0 <= i < |UserGroups(rows)| ==>
      Frequencies(rows)[i] == PurchasesBy(rows, UserGroups(rows)[i].key) as real
    ensures Sum(Frequencies(rows)) == |rows| as real
  {
    var gs := UserGroups(rows);
    GroupsMatchRows(Keyed(rows));
    forall i | 0 <= i < |gs| ensures Frequencies(rows)[i] == PurchasesBy(rows, gs[i].key) as real {
      RowsAgree(rows, gs[i].key);
    }
    ColumnTotals(gs);
    AggregateTotals(Keyed(rows));
    SumAsReals(Sizes(gs));
  }

  /**
   * `groupby('user_id')['price'].sum()`: one total per customer, each the sum
   * of that customer's prices, together the sum of all prices.
   */
  lemma SpendingPerUser(rows: seq<Purchase>)
    ensures |Spending(rows)| == |UserGroups(rows)|
    ensures forall i :: 0 <= i < |UserGroups(rows)| ==>
      Spending(rows)[i] == SpentBy(rows, UserGroups(rows)[i].key)
    ensures Sum(Spending(rows)) == Sum(Prices(rows))
  {
    var gs := UserGroups(rows);
    GroupsMatchRows(Keyed(rows));
    forall i | 0 <= i < |gs| ensures Spending(rows)[i] == SpentBy(rows, gs[i].key) {
      RowsAgree(rows, gs[i].key);
    }
    ColumnTotals(gs);
    AggregateTotals(Keyed(rows));
    RowsAgree(rows, 0);
  }

  lemma EdgesAreValid()
    ensures ValidEdges(FrequencyEdges) && ValidEdges(SpendingEdges)
  {
  }

  /**
   * `create_frequency_chart`: no data gives no chart; otherwise four bars at
   * 0, 10, 20, 30 whose heights count the customers in each frequency bin.
   */
  function FrequencyChart(data: Option<seq<Purchase>>): (c: Option<Bars>)
    ensures c.None? <==> data.None? || data.value == []
    ensures c.Some? ==> c.value.positions == FrequencyPositions && |c.value.heights| == 4
    ensures c.Some? ==> forall j :: 0 <= j < 4 ==>
      c.value.heights[j] == CountInBin(Frequencies(data.value), FrequencyEdges, j)
    ensures c.Some? ==> IntSum(c.value.heights) <= |UserGroups(data.value)|
  {
    if data.None? || data.value == [] then None
    else
      EdgesAreValid();
      var h := Counts(Frequencies(data.value), FrequencyEdges);
      CountInRangeBound(Frequencies(data.value), FrequencyEdges);
      Some(Bars(FrequencyPositions, h))
  }

  /**
   * `create_spending_chart`: no data gives no chart; otherwise five bars at
   * 0, 50, ..., 200 whose heights count the customers in each spending bin.
   */
  function SpendingChart(data: Option<seq<Purchase>>): (c: Option<Bars>)
    ensures c.None? <==> data.None? || data.value == []
    ensures c.Some? ==> c.value.positions == SpendingPositions && |c.value.heights| == 5
    ensures c.Some? ==> forall j :: 0 <= j < 5 ==>
      c.value.heights[j] == CountInBin(Spending(data.value), SpendingEdges, j)
    ensures c.Some? ==> IntSum(c.value.heights) <= |UserGroups(data.value)|
  {
    if data.None? || data.value == [] then None
    else
      EdgesAreValid();
      var h := Counts(Spending(data.value), SpendingEdges);
      CountInRangeBound(Spending(data.value), SpendingEdges);
      Some(Bars(SpendingPositions, h))
  }

  /** A customer with 40 purchases is counted (last bin is closed); one with 41 is not. */
  lemma LastFrequencyBinIsClosed()
    ensures InBin(40.0, FrequencyEdges, 3)
    ensures forall j :: !InBin(41.0, FrequencyEdges, j)
    ensures InBin(10.0, FrequencyEdges, 1) && !InBin(10.0, FrequencyEdges, 0)
  {
  }
}
