/**
 * pandas' `df.groupby(key).size()` / `.sum()` / `.mean()` on an integer key:
 * one group per distinct key, groups in ascending key order, each carrying
 * the number of rows that fell into it and the sum of their values.
 */
module GroupBy {
  import opened Seqs

  /** One input row: the grouping key and the value that is aggregated. */
  datatype Row = Row(key: int, value: real)

  /** One output group: its key, its row count (`size`) and its value sum. */
  datatype Group = Group(key: int, size: nat, sum: real)

  // ---------------------------------------------------------------------
  // Reference definitions over the rows

  /** Number of rows whose key is `k`. */
  function Count(rows: seq<Row>, k: int): nat
  {
    if rows == [] then 0
    else Count(rows[..|rows| - 1], k) + (if rows[|rows| - 1].key == k then 1 else 0)
  }

  /** Sum of the values of the rows whose key is `k`. */
  function SumFor(rows: seq<Row>, k: int): real
  {
    if rows == [] then 0.0
    else SumFor(rows[..|rows| - 1], k) + (if rows[|rows| - 1].key == k then rows[|rows| - 1].value else 0.0)
  }

  /** Appending a row adds it to the count and sum of its own key only. */
  lemma CountSnoc(s: seq<Row>, x: Row, k: int)
    ensures Count(s + [x], k) == Count(s, k) + (if x.key == k then 1 else 0)
    ensures SumFor(s + [x], k) == SumFor(s, k) + (if x.key == k then x.value else 0.0)
  {
    assert (s + [x])[..|s|] == s;
  }

  /** The values column. */
  function Values(rows: seq<Row>): (vs: seq<real>)
    ensures |vs| == |rows|
    ensures forall i :: 0 <= i < |rows| ==> vs[i] == rows[i].value
  {
    seq(|rows|, i requires 0 <= i < |rows| => rows[i].value)
  }

  /** The keys that occur in the rows. */
  function RowKeys(rows: seq<Row>): set<int>
  {
    set r | r in rows :: r.key
  }

  // ---------------------------------------------------------------------
  // Views of a list of groups

  ghost predicate StrictlyIncreasing(gs: seq<Group>)
  {
    forall i, j :: 0 <= i < j < |gs| ==> gs[i].key < gs[j].key
  }

  ghost predicate NoEmptyGroup(gs: seq<Group>)
  {
    forall i :: 0 <= i < |gs| ==> gs[i].size > 0
  }

  function GroupKeys(gs: seq<Group>): set<int>
  {
    set g | g in gs :: g.key
  }

  /** The size of the group with key `k`, or 0 when there is none. */
  function SizeOf(gs: seq<Group>, k: int): nat
  {
    if gs == [] then 0 else if gs[0].key == k then gs[0].size else SizeOf(gs[1..], k)
  }

  /** The sum of the group with key `k`, or 0 when there is none. */
  function SumOf(gs: seq<Group>, k: int): real
  {
    if gs == [] then 0.0 else if gs[0].key == k then gs[0].sum else SumOf(gs[1..], k)
  }

  function TotalSize(gs: seq<Group>): nat
  {
    if gs == [] then 0 else gs[0].size + TotalSize(gs[1..])
  }

  function TotalSum(gs: seq<Group>): real
  {
    if gs == [] then 0.0 else gs[0].sum + TotalSum(gs[1..])
  }

  lemma TailKeys(gs: seq<Group>)
    requires gs != []
    ensures GroupKeys(gs) == {gs[0].key} + GroupKeys(gs[1..])
  {
    assert gs == [gs[0]] + gs[1..];
    forall g | g in gs ensures g == gs[0] || g in gs[1..] { }
  }

  /** Lookup by key agrees with the stored group. */
  lemma {:induction false} LookupMember(gs: seq<Group>, i: int)
    requires StrictlyIncreasing(gs) && 0 <= i < |gs|
    ensures SizeOf(gs, gs[i].key) == gs[i].size && SumOf(gs, gs[i].key) == gs[i].sum
  {
    if i > 0 {
      assert gs[0].key < gs[i].key;
      LookupMember(gs[1..], i - 1);
    }
  }

  // ---------------------------------------------------------------------
  // The aggregation

  /** A group with a key below the first one can go in front. */
  lemma Cons(g: Group, gs: seq<Group>)
    requires StrictlyIncreasing(gs) && NoEmptyGroup(gs) && g.size > 0
    requires gs == [] || g.key < gs[0].key
    ensures StrictlyIncreasing([g] + gs) && NoEmptyGroup([g] + gs)
  {
    var r := [g] + gs;
    forall i, j | 0 <= i < j < |r| ensures r[i].key < r[j].key {
      if i == 0 && j > 1 {
        assert gs[0].key < gs[j - 1].key;
      }
    }
  }

  /** Account one row with key `k` and value `v` into sorted groups. */
  function Add(gs: seq<Group>, k: int, v: real): (r: seq<Group>)
    requires StrictlyIncreasing(gs) && NoEmptyGroup(gs)
    ensures StrictlyIncreasing(r) && NoEmptyGroup(r)
    ensures |r| > 0 && r[0].key == (if gs == [] || k < gs[0].key then k else gs[0].key)
    decreases |gs|
  {
    if gs == [] || k < gs[0].key then
      Cons(Group(k, 1, v), gs);
      [Group(k, 1, v)] + gs
    else if k == gs[0].key then
      Cons(Group(k, gs[0].size + 1, gs[0].sum + v), gs[1..]);
      [Group(k, gs[0].size + 1, gs[0].sum + v)] + gs[1..]
    else
      var rest := Add(gs[1..], k, v);
      assert |gs| > 1 ==> gs[0].key < gs[1].key;
      Cons(gs[0], rest);
      [gs[0]] + rest
  }

  /** Adding a row adds its key to the keys present. */
  lemma {:induction false} AddKeys(gs: seq<Group>, k: int, v: real)
    requires StrictlyIncreasing(gs) && NoEmptyGroup(gs)
    ensures GroupKeys(Add(gs, k, v)) == GroupKeys(gs) + {k}
    decreases |gs|
  {
    var r := Add(gs, k, v);
    TailKeys(r);
    if gs == [] || k < gs[0].key {
      assert r[1..] == gs;
    } else if k == gs[0].key {
      assert r[1..] == gs[1..];
      TailKeys(gs);
    } else {
      assert r[1..] == Add(gs[1..], k, v);
      AddKeys(gs[1..], k, v);
      TailKeys(gs);
    }
  }

  /** A key below the first group's key has no group. */
  lemma {:induction false} BelowFirst(gs: seq<Group>, k: int)
    requires StrictlyIncreasing(gs) && (gs == [] || k < gs[0].key)
    ensures SizeOf(gs, k) == 0 && SumOf(gs, k) == 0.0
    decreases |gs|
  {
    if |gs| > 1 {
      BelowFirst(gs[1..], k);
    }
  }

  /** A key below every group opens a new group of one row in front. */
  lemma AddLookupNew(gs: seq<Group>, k: int, v: real, k': int)
    requires StrictlyIncreasing(gs) && NoEmptyGroup(gs) && (gs == [] || k < gs[0].key)
    ensures SizeOf(Add(gs, k, v), k') == SizeOf(gs, k') + (if k' == k then 1 else 0)
    ensures SumOf(Add(gs, k, v), k') == SumOf(gs, k') + (if k' == k then v else 0.0)
  {
    var r := Add(gs, k, v);
    assert r == [Group(k, 1, v)] + gs;
    assert r[1..] == gs;
    BelowFirst(gs, k);
  }

  /** The first group's key grows that group by one row. */
  lemma AddLookupHead(gs: seq<Group>, k: int, v: real, k': int)
    requires StrictlyIncreasing(gs) && NoEmptyGroup(gs) && gs != [] && k == gs[0].key
    ensures SizeOf(Add(gs, k, v), k') == SizeOf(gs, k') + (if k' == k then 1 else 0)
    ensures SumOf(Add(gs, k, v), k') == SumOf(gs, k') + (if k' == k then v else 0.0)
  {
    var r := Add(gs, k, v);
    assert r == [Group(k, gs[0].size + 1, gs[0].sum + v)] + gs[1..];
    assert r[1..] == gs[1..];
    BelowFirst(gs[1..], k);
  }

  /** Looking up a key in a group list with a known head. */
  lemma LookupCons(g: Group, rest: seq<Group>, k: int)
    ensures SizeOf([g] + rest, k) == if g.key == k then g.size else SizeOf(rest, k)
    ensures SumOf([g] + rest, k) == if g.key == k then g.sum else SumOf(rest, k)
  {
    assert ([g] + rest)[1..] == rest;
  }

  /** Adding a row raises the count and sum of its own key and of no other key. */
  lemma {:induction false} AddLookup(gs: seq<Group>, k: int, v: real, k': int)
    requires StrictlyIncreasing(gs) && NoEmptyGroup(gs)
    ensures SizeOf(Add(gs, k, v), k') == SizeOf(gs, k') + (if k' == k then 1 else 0)
    ensures SumOf(Add(gs, k, v), k') == SumOf(gs, k') + (if k' == k then v else 0.0)
    decreases |gs|
  {
    if gs == [] || k < gs[0].key {
      AddLookupNew(gs, k, v, k');
    } else if k == gs[0].key {
      AddLookupHead(gs, k, v, k');
    } else {
      assert gs == [gs[0]] + gs[1..];
      LookupCons(gs[0], gs[1..], k');
      LookupCons(gs[0], Add(gs[1..], k, v), k');
      AddLookup(gs[1..], k, v, k');
    }
  }

  /** Adding a row raises the total size by one and the total sum by its value. */
  lemma {:induction false} AddTotals(gs: seq<Group>, k: int, v: real)
    requires StrictlyIncreasing(gs) && NoEmptyGroup(gs)
    ensures TotalSize(Add(gs, k, v)) == TotalSize(gs) + 1
    ensures TotalSum(Add(gs, k, v)) == TotalSum(gs) + v
    decreases |gs|
  {
    if gs != [] {
      if k < gs[0].key {
        assert Add(gs, k, v)[1..] == gs;
      } else if k == gs[0].key {
        assert Add(gs, k, v)[1..] == gs[1..];
      } else {
        AddTotals(gs[1..], k, v);
        assert Add(gs, k, v)[1..] == Add(gs[1..], k, v);
      }
    }
  }

  /**
   * `groupby(key)` over the rows: one group per distinct key, in ascending key
   * order, with the row count and value sum of that key.
   */
  function Aggregate(rows: seq<Row>): (r: seq<Group>)
    ensures StrictlyIncreasing(r) && NoEmptyGroup(r)
    ensures GroupKeys(r) == RowKeys(rows)
  {
    if rows == [] then []
    else
      var init := rows[..|rows| - 1];
      var last := rows[|rows| - 1];
      assert RowKeys(rows) == RowKeys(init) + {last.key} by {
        assert rows == init + [last];
      }
      AddKeys(Aggregate(init), last.key, last.value);
      Add(Aggregate(init), last.key, last.value)
  }

  /** Looking a key up in the groups gives the count and value sum of its rows. */
  lemma {:induction false} AggregateLookup(rows: seq<Row>, k: int)
    ensures SizeOf(Aggregate(rows), k) == Count(rows, k)
    ensures SumOf(Aggregate(rows), k) == SumFor(rows, k)
  {
    if rows != [] {
      var init := rows[..|rows| - 1];
      var last := rows[|rows| - 1];
      AggregateLookup(init, k);
      AddLookup(Aggregate(init), last.key, last.value, k);
    }
  }

  /** The groups hold every row: sizes add up to the row count, sums to the value total. */
  lemma {:induction false} AggregateTotals(rows: seq<Row>)
    ensures TotalSize(Aggregate(rows)) == |rows|
    ensures TotalSum(Aggregate(rows)) == Sum(Values(rows))
  {
    if rows != [] {
      var init := rows[..|rows| - 1];
      var last := rows[|rows| - 1];
      assert Values(rows)[..|rows| - 1] == Values(init);
      AggregateTotals(init);
      AddTotals(Aggregate(init), last.key, last.value);
    }
  }

  /** Every group's size and sum are the count and value sum of the rows with its key. */
  lemma GroupsMatchRows(rows: seq<Row>)
    ensures forall i :: 0 <= i < |Aggregate(rows)| ==>
      Aggregate(rows)[i].size == Count(rows, Aggregate(rows)[i].key)
      && Aggregate(rows)[i].sum == SumFor(rows, Aggregate(rows)[i].key)
  {
    var r := Aggregate(rows);
    forall i | 0 <= i < |r|
      ensures r[i].size == Count(rows, r[i].key) && r[i].sum == SumFor(rows, r[i].key)
    {
      LookupMember(r, i);
      AggregateLookup(rows, r[i].key);
    }
  }

  /** The size column of a list of groups. */
  function Sizes(gs: seq<Group>): (r: seq<int>)
    ensures |r| == |gs|
    ensures forall i :: 0 <= i < |gs| ==> r[i] == gs[i].size
  {
    seq(|gs|, i requires 0 <= i < |gs| => gs[i].size as int)
  }

  /** The sum column of a list of groups. */
  function Sums(gs: seq<Group>): (r: seq<real>)
    ensures |r| == |gs|
    ensures forall i :: 0 <= i < |gs| ==> r[i] == gs[i].sum
  {
    seq(|gs|, i requires 0 <= i < |gs| => gs[i].sum)
  }

  lemma {:induction false} SizeColumnTotal(gs: seq<Group>)
    ensures IntSum(Sizes(gs)) == TotalSize(gs)
  {
    if gs != [] {
      assert Sizes(gs) == [gs[0].size as int] + Sizes(gs[1..]);
      SizeColumnTotal(gs[1..]);
      IntSumCons(gs[0].size, Sizes(gs[1..]));
    }
  }

  lemma {:induction false} SumColumnTotal(gs: seq<Group>)
    ensures Sum(Sums(gs)) == TotalSum(gs)
  {
    if gs != [] {
      assert Sums(gs) == [gs[0].sum] + Sums(gs[1..]);
      SumColumnTotal(gs[1..]);
      SumCons(gs[0].sum, Sums(gs[1..]));
    }
  }

  /** The columns add up to the groups' totals. */
  lemma ColumnTotals(gs: seq<Group>)
    ensures IntSum(Sizes(gs)) == TotalSize(gs)
    ensures Sum(Sums(gs)) == TotalSum(gs)
  {
    SizeColumnTotal(gs);
    SumColumnTotal(gs);
  }
}
