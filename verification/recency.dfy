/**
 * Data-Viz/ex05/Clustering.py, `get_customer_data`: reading the customer
 * query's CSV and turning the `recency` interval text into a whole number
 * of days.
 */
module Recency {
  import opened Wrappers
  import opened Seqs

  // ---------------------------------------------------------------------
  // Decimal integers

  predicate IsDigit(c: char)
  {
    '0' <= c <= '9'
  }

  predicate AllDigits(s: string)
  {
    forall i :: 0 <= i < |s| ==> IsDigit(s[i])
  }

  /** The value of a string of decimal digits (leading zeros allowed). */
  function DigitsValue(s: string): nat
    requires AllDigits(s)
  {
    if s == [] then 0 else DigitsValue(s[..|s| - 1]) * 10 + (s[|s| - 1] - '0') as nat
  }

  /** The decimal digits of `n`, without leading zeros. */
  function Show(n: nat): (s: string)
    ensures |s| > 0 && AllDigits(s)
  {
    if n < 10 then ['0' + n as char] else Show(n / 10) + ['0' + (n % 10) as char]
  }

  /** Python's decimal `int(s)`: an optional sign followed by one or more ASCII digits. */
  function ParseInt(s: string): (r: Option<int>)
    ensures r.Some? <==> (|s| > 0 && AllDigits(s)) || (|s| > 1 && (s[0] == '-' || s[0] == '+') && AllDigits(s[1..]))
  {
    if |s| > 1 && s[0] == '-' && AllDigits(s[1..]) then Some(-(DigitsValue(s[1..]) as int))
    else if |s| > 1 && s[0] == '+' && AllDigits(s[1..]) then Some(DigitsValue(s[1..]))
    else if |s| > 0 && AllDigits(s) then Some(DigitsValue(s))
    else None
  }

  /** Reading back the digits of `n` gives `n`. */
  lemma {:induction false} ShowRoundTrip(n: nat)
    ensures DigitsValue(Show(n)) == n
  {
    if n >= 10 {
      ShowRoundTrip(n / 10);
      var s := Show(n);
      assert s[..|s| - 1] == Show(n / 10);
    }
  }

  lemma ParseShow(n: nat)
    ensures ParseInt(Show(n)) == Some(n)
    ensures ParseInt("-" + Show(n)) == Some(-(n as int))
  {
    ShowRoundTrip(n);
    assert ("-" + Show(n))[1..] == Show(n);
  }

  // ---------------------------------------------------------------------
  // The recency column

  /** `s.split(' ')[0]`: everything before the first space. */
  function FirstToken(s: string): (t: string)
    ensures t <= s && ' ' !in t
    ensures |t| < |s| ==> s[|t|] == ' '
  {
    if s == [] || s[0] == ' ' then [] else [s[0]] + FirstToken(s[1..])
  }

  lemma {:induction false} FirstTokenOf(a: string, b: string)
    requires ' ' !in a
    ensures FirstToken(a + " " + b) == a
  {
    if a != [] {
      assert (a + " " + b)[1..] == a[1..] + " " + b;
      FirstTokenOf(a[1..], b);
      assert a == [a[0]] + a[1..];
    }
  }

  /** A cell of the `recency` column after `pd.read_csv`. */
  datatype Cell = Text(s: string) | Number(x: real) | Missing

  /**
   * The `recency_days` lambda: the leading integer of an interval text such
   * as "123 days 04:05:06.7", and 0 for a cell that is not text. A text whose
   * first token is no integer raises `ValueError`.
   */
  function RecencyDays(c: Cell): (r: Result<int>)
    ensures c.Text? ==> (r.Ok? <==> ParseInt(FirstToken(c.s)).Some?)
    ensures !c.Text? ==> r == Ok(0)
    ensures r.Err? ==> r.error == ValueError
  {
    match c
    case Text(s) =>
      (match ParseInt(FirstToken(s))
       case Some(n) => Ok(n)
       case None => Err(ValueError))
    case _ => Ok(0)
  }

  /** "N days ..." reads as N, "-N days ..." as -N. */
  lemma DaysText(n: nat, rest: string)
    ensures RecencyDays(Text(Show(n) + " days" + rest)) == Ok(n)
    ensures RecencyDays(Text("-" + Show(n) + " days" + rest)) == Ok(-(n as int))
  {
    ParseShow(n);
    assert Show(n) + " days" + rest == Show(n) + " " + ("days" + rest);
    FirstTokenOf(Show(n), "days" + rest);
    assert "-" + Show(n) + " days" + rest == ("-" + Show(n)) + " " + ("days" + rest);
    assert ' ' !in "-" + Show(n) by {
      assert forall i :: 0 <= i < |Show(n)| ==> IsDigit(Show(n)[i]);
    }
    FirstTokenOf("-" + Show(n), "days" + rest);
  }

  /** An interval under one day prints without a day count and cannot be read. */
  lemma SubDayIntervalFails()
    ensures RecencyDays(Text("04:05:06")) == Err(ValueError)
  {
    var s := "04:05:06";
    assert forall i :: 0 <= i < |s| ==> s[i] != ' ';
    var t := FirstToken(s);
    assert |t| == |s| && t == s;
    assert !IsDigit(s[2]);
  }

  // ---------------------------------------------------------------------
  // Reading the customers

  /** One row of the customer query, as far as the model needs it. */
  datatype RawCustomer = RawCustomer(
    userId: int,
    recency: Cell,
    purchaseCount: int,
    totalSpent: real,
    hasEmptyColumn: bool)   // some column other than `recency` is empty (NaN)

  /** One customer's recency, frequency and monetary features. */
  datatype Customer = Customer(userId: int, recencyDays: int, frequency: int, monetary: real)

  /** A row that `dropna()` keeps. */
  predicate Complete(r: RawCustomer)
  {
    !r.recency.Missing? && !r.hasEmptyColumn
  }

  function CompleteRows(rows: seq<RawCustomer>): nat
  {
    if rows == [] then 0 else CompleteRows(rows[..|rows| - 1]) + (if Complete(rows[|rows| - 1]) then 1 else 0)
  }

  /** `df.dropna()`: the complete rows, in order. */
  function DropIncomplete(rows: seq<RawCustomer>): (r: seq<RawCustomer>)
    ensures |r| == CompleteRows(rows)
    ensures forall i :: 0 <= i < |r| ==> Complete(r[i])
    ensures forall x :: x in r <==> x in rows && Complete(x)
    ensures forall x :: multiset(r)[x] == if Complete(x) then multiset(rows)[x] else 0
  {
    if rows == [] then []
    else
      var init := rows[..|rows| - 1];
      assert rows == init + [rows[|rows| - 1]];
      DropIncomplete(init) + (if Complete(rows[|rows| - 1]) then [rows[|rows| - 1]] else [])
  }

  lemma DropIncompleteSnoc(s: seq<RawCustomer>, x: RawCustomer)
    ensures DropIncomplete(s + [x]) == DropIncomplete(s) + (if Complete(x) then [x] else [])
  {
    assert (s + [x])[..|s|] == s;
  }

  /** Dropping works row by row: it distributes over concatenation, so the kept rows keep their order. */
  lemma {:induction false} DropIncompleteAppend(a: seq<RawCustomer>, b: seq<RawCustomer>)
    ensures DropIncomplete(a + b) == DropIncomplete(a) + DropIncomplete(b)
  {
    if b == [] {
      assert a + b == a;
    } else {
      var init, x := b[..|b| - 1], b[|b| - 1];
      SnocSplit(a, b);
      DropIncompleteSnoc(a + init, x);
      DropIncompleteSnoc(init, x);
      DropIncompleteAppend(a, init);
      ConcatAssoc(DropIncomplete(a), DropIncomplete(init), if Complete(x) then [x] else []);
    }
  }

  /** The feature columns of complete rows; `None` once one recency fails to parse. */
  function Features(rows: seq<RawCustomer>): (r: Option<seq<Customer>>)
    requires forall i :: 0 <= i < |rows| ==> Complete(rows[i])
    ensures r.Some? <==> forall i :: 0 <= i < |rows| ==> RecencyDays(rows[i].recency).Ok?
    ensures r.Some? ==> |r.value| == |rows| && forall i :: 0 <= i < |rows| ==>
      r.value[i] == Customer(rows[i].userId, RecencyDays(rows[i].recency).value,
                             rows[i].purchaseCount, rows[i].totalSpent)
  {
    if rows == [] then Some([])
    else
      var x := rows[|rows| - 1];
      match (Features(rows[..|rows| - 1]), RecencyDays(x.recency))
      case (Some(cs), Ok(d)) =>
        Some(cs + [Customer(x.userId, d, x.purchaseCount, x.totalSpent)])
      case _ => None
  }

  /**
   * `get_customer_data`: a failing database client or an empty result gives
   * `None`; so do visit times of the complete rows that `to_datetime` cannot
   * parse (`timesParse` false) and a recency text that cannot be read, both
   * of which the catch-all handler turns into `None`. Otherwise the complete
   * rows' features.
   */
  function GetCustomerData(returnCode: int, rows: seq<RawCustomer>, timesParse: bool): (r: Option<seq<Customer>>)
    ensures returnCode != 0 || rows == [] || !timesParse ==> r.None?
    ensures returnCode == 0 && rows != [] && timesParse ==>
      (r.Some? <==> forall x :: x in rows && Complete(x) ==> RecencyDays(x.recency).Ok?)
    ensures returnCode == 0 && rows != [] && timesParse ==> r == Features(DropIncomplete(rows))
    ensures r.Some? ==> |r.value| == CompleteRows(rows)
  {
    if returnCode != 0 || rows == [] || !timesParse then None
    else
      var kept := DropIncomplete(rows);
      assert forall i :: 0 <= i < |kept| ==> kept[i] in kept;
      Features(kept)
  }
}
