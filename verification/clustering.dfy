/**
 * Data-Viz/ex05/Clustering.py, `analyze_clusters`: per-cluster feature means,
 * the loyalty score built from them, and the segment names given to the
 * clusters in score order.
 */
module Clustering {
  import opened Wrappers
  import opened GroupBy
  import Recency

  /** One clustered customer: the k-means cluster and the three RFM features. */
  datatype Member = Member(cluster: int, recencyDays: int, frequency: int, monetary: real)

  /** A k-means assignment numbers clusters from 0. */
  predicate ClusterIndexed(ms: seq<Member>)
  {
    forall i :: 0 <= i < |ms| ==> ms[i].cluster >= 0
  }

  /** Clusters numbered from 0, and recency a non-negative day count. */
  predicate WellFormed(ms: seq<Member>)
  {
    ClusterIndexed(ms) && forall i :: 0 <= i < |ms| ==> ms[i].recencyDays >= 0
  }

  /** The clusters that received at least one customer. */
  function Clusters(ms: seq<Member>): set<int>
  {
    set m | m in ms :: m.cluster
  }

  // ---------------------------------------------------------------------
  // Cluster means (`df.groupby('cluster')[features].mean()`)

  datatype Feature = Recency | Frequency | Monetary

  function Value(m: Member, f: Feature): real
  {
    match f
    case Recency => m.recencyDays as real
    case Frequency => m.frequency as real
    case Monetary => m.monetary
  }

  /** The rows `groupby('cluster')` sees for one feature column. */
  function KeyedBy(ms: seq<Member>, f: Feature): (rows: seq<Row>)
    ensures |rows| == |ms|
    ensures forall i :: 0 <= i < |ms| ==> rows[i] == Row(ms[i].cluster, Value(ms[i], f))
  {
    seq(|ms|, i requires 0 <= i < |ms| => Row(ms[i].cluster, Value(ms[i], f)))
  }

  lemma {:induction false} CountPositive(rows: seq<Row>, k: int)
    ensures Count(rows, k) > 0 <==> exists i :: 0 <= i < |rows| && rows[i].key == k
  {
    if rows != [] {
      var init := rows[..|rows| - 1];
      CountPositive(init, k);
      if exists i :: 0 <= i < |init| && init[i].key == k {
        var i :| 0 <= i < |init| && init[i].key == k;
        assert rows[i].key == k;
      }
    }
  }

  lemma {:induction false} SumForNonNegative(rows: seq<Row>, k: int)
    ensures (forall i :: 0 <= i < |rows| ==> rows[i].value >= 0.0) ==> SumFor(rows, k) >= 0.0
  {
    if rows != [] {
      SumForNonNegative(rows[..|rows| - 1], k);
    }
  }

  lemma ColumnSumNonNegative(ms: seq<Member>, f: Feature, c: int)
    ensures (forall i :: 0 <= i < |ms| ==> Value(ms[i], f) >= 0.0) ==> SumFor(KeyedBy(ms, f), c) >= 0.0
  {
    SumForNonNegative(KeyedBy(ms, f), c);
  }

  /** Number of customers in cluster `c`; positive exactly for the clusters present. */
  function Size(ms: seq<Member>, c: int): (n: nat)
    ensures n > 0 <==> c in Clusters(ms)
  {
    var rows := KeyedBy(ms, Monetary);
    CountPositive(rows, c);
    assert c in Clusters(ms) ==> exists i :: 0 <= i < |rows| && rows[i].key == c by {
      if c in Clusters(ms) {
        var m :| m in ms && m.cluster == c;
        var i :| 0 <= i < |ms| && ms[i] == m;
        assert rows[i].key == c;
      }
    }
    Count(rows, c)
  }

  /** The mean of each feature over one cluster. */
  datatype Means = Means(recency: real, frequency: real, monetary: real)

  /** The means of a present cluster; each is non-negative when its column is. */
  function Centroid(ms: seq<Member>, c: int): (r: Means)
    requires c in Clusters(ms)
    ensures (forall i :: 0 <= i < |ms| ==> ms[i].recencyDays >= 0) ==> r.recency >= 0.0
    ensures (forall i :: 0 <= i < |ms| ==> ms[i].frequency >= 0) ==> r.frequency >= 0.0
    ensures (forall i :: 0 <= i < |ms| ==> ms[i].monetary >= 0.0) ==> r.monetary >= 0.0
  {
    var n := Size(ms, c) as real;
    var rec, freq, mon := KeyedBy(ms, Recency), KeyedBy(ms, Frequency), KeyedBy(ms, Monetary);
    ColumnSumNonNegative(ms, Recency, c);
    ColumnSumNonNegative(ms, Frequency, c);
    ColumnSumNonNegative(ms, Monetary, c);
    Means(SumFor(rec, c) / n, SumFor(freq, c) / n, SumFor(mon, c) / n)
  }

  /** The mean of feature `f` in a centroid. */
  function MeanOf(m: Means, f: Feature): real
  {
    match f
    case Recency => m.recency
    case Frequency => m.frequency
    case Monetary => m.monetary
  }

  /**
   * A cluster's mean of a feature lies between any bounds that hold for
   * every customer of that cluster; in particular a feature that is the same
   * for all of them is its own mean.
   */
  lemma CentroidBounds(ms: seq<Member>, c: int, f: Feature, lo: real, hi: real)
    requires c in Clusters(ms)
    requires forall i :: 0 <= i < |ms| && ms[i].cluster == c ==> lo <= Value(ms[i], f) <= hi
    ensures lo <= MeanOf(Centroid(ms, c), f) <= hi
    ensures lo == hi ==> MeanOf(Centroid(ms, c), f) == lo
  {
    var rows := KeyedBy(ms, f);
    forall i | 0 <= i < |rows| && rows[i].key == c ensures lo <= rows[i].value <= hi {
      assert rows[i] == Row(ms[i].cluster, Value(ms[i], f));
    }
    KeyedCount(ms, f, c);
    CentroidMean(ms, c, f);
    MeanBounds(rows, c, lo, hi);
  }

  lemma MeanBounds(rows: seq<Row>, k: int, lo: real, hi: real)
    requires Count(rows, k) > 0
    requires forall i :: 0 <= i < |rows| && rows[i].key == k ==> lo <= rows[i].value <= hi
    ensures lo <= SumFor(rows, k) / Count(rows, k) as real <= hi
  {
    SumForBounds(rows, k, lo, hi);
    DivBounds(SumFor(rows, k), Count(rows, k), lo, hi);
  }

  lemma CentroidMean(ms: seq<Member>, c: int, f: Feature)
    requires c in Clusters(ms)
    ensures MeanOf(Centroid(ms, c), f) == SumFor(KeyedBy(ms, f), c) / Size(ms, c) as real
  {
  }

  /** `n` copies of `x` added up: a product written without multiplication. */
  function Repeated(x: real, n: nat): real
  {
    if n == 0 then 0.0 else Repeated(x, n - 1) + x
  }

  lemma {:induction false} RepeatedIsProduct(x: real, n: nat)
    ensures Repeated(x, n) == x * n as real
  {
    if n > 0 {
      RepeatedIsProduct(x, n - 1);
      assert x * n as real == x * (n - 1) as real + x;
    }
  }

  /** The sum over one key lies between the key's row count times any bounds of its values. */
  lemma {:induction false} SumForBounds(rows: seq<Row>, k: int, lo: real, hi: real)
    requires forall i :: 0 <= i < |rows| && rows[i].key == k ==> lo <= rows[i].value <= hi
    ensures Repeated(lo, Count(rows, k)) <= SumFor(rows, k) <= Repeated(hi, Count(rows, k))
  {
    if rows != [] {
      var init, last := rows[..|rows| - 1], rows[|rows| - 1];
      assert forall i :: 0 <= i < |init| ==> init[i] == rows[i];
      SumForBounds(init, k, lo, hi);
    }
  }

  /** Every feature column has the same keys, so the same count per cluster. */
  lemma {:induction false} KeyedCount(ms: seq<Member>, f: Feature, c: int)
    ensures Count(KeyedBy(ms, f), c) == Count(KeyedBy(ms, Monetary), c)
  {
    if ms != [] {
      var init := ms[..|ms| - 1];
      assert KeyedBy(ms, f)[..|ms| - 1] == KeyedBy(init, f);
      assert KeyedBy(ms, Monetary)[..|ms| - 1] == KeyedBy(init, Monetary);
      KeyedCount(init, f, c);
    }
  }

  lemma DivBounds(s: real, n: nat, lo: real, hi: real)
    requires n > 0 && Repeated(lo, n) <= s <= Repeated(hi, n)
    ensures lo <= s / n as real <= hi
  {
    RepeatedIsProduct(lo, n);
    RepeatedIsProduct(hi, n);
    ProductDivBounds(s, n as real, lo, hi);
  }

  lemma ProductDivBounds(s: real, n: real, lo: real, hi: real)
    requires n > 0.0 && lo * n <= s <= hi * n
    ensures lo <= s / n <= hi
  {
  }

  /**
   * `loyalty_score`: mean monetary times mean frequency over mean recency
   * plus one; a product of the means, not a mean of per-customer products.
   */
  function Score(ms: seq<Member>, c: int): real
    requires WellFormed(ms) && c in Clusters(ms)
  {
    var m := Centroid(ms, c);
    m.monetary * m.frequency / (m.recency + 1.0)
  }

  /**
   * A score is 0 exactly when the cluster's mean spend or mean frequency is;
   * with non-negative means it is at most their product, the recency
   * divisor being at least 1.
   */
  lemma ScoreSign(ms: seq<Member>, c: int)
    requires WellFormed(ms) && c in Clusters(ms)
    ensures var m := Centroid(ms, c);
      && (Score(ms, c) == 0.0 <==> m.monetary == 0.0 || m.frequency == 0.0)
      && (m.monetary >= 0.0 && m.frequency >= 0.0 ==> 0.0 <= Score(ms, c) <= m.monetary * m.frequency)
    ensures (forall i :: 0 <= i < |ms| ==> ms[i].frequency >= 0 && ms[i].monetary >= 0.0) ==> Score(ms, c) >= 0.0
  {
    var m := Centroid(ms, c);
    ProductOverDivisor(m.monetary, m.frequency, m.recency + 1.0);
  }

  /** Dividing a product by a number of at least one keeps its zeros, its sign and its bound. */
  lemma ProductOverDivisor(a: real, b: real, d: real)
    requires d >= 1.0
    ensures a * b / d == 0.0 <==> a == 0.0 || b == 0.0
    ensures a >= 0.0 && b >= 0.0 ==> 0.0 <= a * b / d <= a * b
  {
    var q := a * b / d;
    assert q * d == a * b;
    if a >= 0.0 && b >= 0.0 {
      assert a * b >= 0.0;
      assert q >= 0.0;
      assert q * d >= q * 1.0;
    }
  }

  // ---------------------------------------------------------------------
  // Score order (`loyalty_score.sort_values().index`)

  predicate Distinct(s: seq<int>)
  {
    forall i, j :: 0 <= i < j < |s| ==> s[i] != s[j]
  }

  ghost predicate ScoreSorted(ms: seq<Member>, s: seq<int>)
    requires WellFormed(ms) && forall x :: x in s ==> x in Clusters(ms)
  {
    forall i, j :: 0 <= i < j < |s| ==> Score(ms, s[i]) <= Score(ms, s[j])
  }

  /**
   * What `sort_values().index` may return: every present cluster once, in
   * non-decreasing score. pandas' default sort is not stable, so among
   * clusters with equal scores any order is possible.
   */
  ghost predicate IsScoreOrder(ms: seq<Member>, order: seq<int>)
    requires WellFormed(ms)
  {
    && Distinct(order)
    && (forall c :: c in order <==> c in Clusters(ms))
    && ScoreSorted(ms, order)
  }

  /**
   * A score order lists exactly the present clusters, so its first entry
   * has the lowest score and its last the highest.
   */
  lemma ScoreOrderEnds(ms: seq<Member>, order: seq<int>)
    requires WellFormed(ms) && IsScoreOrder(ms, order) && ms != []
    ensures |order| == |Clusters(ms)| > 0
    ensures forall c :: c in Clusters(ms) ==> Score(ms, order[0]) <= Score(ms, c) <= Score(ms, order[|order| - 1])
  {
    assert ms[0].cluster in Clusters(ms) by { assert ms[0] in ms; }
    OrderCardinality(ms, order);
    forall c | c in Clusters(ms) ensures Score(ms, order[0]) <= Score(ms, c) <= Score(ms, order[|order| - 1]) {
      var j :| 0 <= j < |order| && order[j] == c;
    }
  }

  lemma OrderCardinality(ms: seq<Member>, order: seq<int>)
    requires WellFormed(ms) && IsScoreOrder(ms, order)
    ensures |order| == |Clusters(ms)|
  {
    DistinctCard(order);
    assert (set x | x in order) == Clusters(ms);
  }

  /**
   * Two clusters with equal scores may come in either order: both orders are
   * admissible results of the sort.
   */
  lemma TiesEitherWay()
    ensures var ms := [Member(0, 0, 1, 10.0), Member(1, 0, 1, 10.0)];
      WellFormed(ms) && IsScoreOrder(ms, [0, 1]) && IsScoreOrder(ms, [1, 0])
  {
    var ms := [Member(0, 0, 1, 10.0), Member(1, 0, 1, 10.0)];
    assert ms[0] in ms && ms[1] in ms;
    assert Clusters(ms) == {0, 1};
    PairCentroids(ms[0], ms[1]);
    assert Score(ms, 0) == Score(ms, 1);
  }

  /** In two customers of different clusters, each cluster's means are its one customer's values. */
  lemma PairCentroids(a: Member, b: Member)
    requires a.cluster != b.cluster
    ensures a.cluster in Clusters([a, b]) && b.cluster in Clusters([a, b])
    ensures Centroid([a, b], a.cluster) == Means(a.recencyDays as real, a.frequency as real, a.monetary)
    ensures Centroid([a, b], b.cluster) == Means(b.recencyDays as real, b.frequency as real, b.monetary)
  {
    var ms := [a, b];
    assert ms[0] in ms && ms[1] in ms;
    var rec, freq, mon := KeyedBy(ms, Recency), KeyedBy(ms, Frequency), KeyedBy(ms, Monetary);
    assert rec == [rec[0], rec[1]] && freq == [freq[0], freq[1]] && mon == [mon[0], mon[1]];
    PairSums(rec[0], rec[1], a.cluster);
    PairSums(freq[0], freq[1], a.cluster);
    PairSums(mon[0], mon[1], a.cluster);
    PairSums(rec[0], rec[1], b.cluster);
    PairSums(freq[0], freq[1], b.cluster);
    PairSums(mon[0], mon[1], b.cluster);
    assert Size(ms, a.cluster) == 1 && Size(ms, b.cluster) == 1;
  }

  lemma PairSums(a: Row, b: Row, k: int)
    ensures Count([a, b], k) == (if a.key == k then 1 else 0) + (if b.key == k then 1 else 0)
    ensures SumFor([a, b], k) == (if a.key == k then a.value else 0.0) + (if b.key == k then b.value else 0.0)
  {
    var s := [a, b];
    assert s[..|s| - 1] == [a] && s[|s| - 1] == b;
    assert [a][..0] == [];
    assert Count(s, k) == Count([a], k) + (if b.key == k then 1 else 0);
    assert Count([a], k) == Count([], k) + (if a.key == k then 1 else 0);
    assert SumFor(s, k) == SumFor([a], k) + (if b.key == k then b.value else 0.0);
    assert SumFor([a], k) == SumFor([], k) + (if a.key == k then a.value else 0.0);
  }

  /** A cluster scoring at most every member of a sorted order can go in front. */
  lemma SortedCons(ms: seq<Member>, x: int, s: seq<int>)
    requires WellFormed(ms) && x in Clusters(ms) && x !in s
    requires forall y :: y in s ==> y in Clusters(ms)
    requires Distinct(s) && ScoreSorted(ms, s)
    requires forall y :: y in s ==> Score(ms, x) <= Score(ms, y)
    ensures Distinct([x] + s) && ScoreSorted(ms, [x] + s)
  {
    var r := [x] + s;
    forall i, j | 0 <= i < j < |r| ensures r[i] != r[j] && Score(ms, r[i]) <= Score(ms, r[j]) {
      assert r[j] == s[j - 1] && s[j - 1] in s;
      if i > 0 {
        assert r[i] == s[i - 1];
      }
    }
  }

  /** The first cluster of a sorted order scores at most every member. */
  lemma SortedHead(ms: seq<Member>, s: seq<int>)
    requires WellFormed(ms) && s != [] && forall y :: y in s ==> y in Clusters(ms)
    requires ScoreSorted(ms, s)
    ensures forall y :: y in s ==> Score(ms, s[0]) <= Score(ms, y)
  {
    forall y | y in s ensures Score(ms, s[0]) <= Score(ms, y) {
      var j :| 0 <= j < |s| && s[j] == y;
    }
  }

  /** Dropping the first cluster of a sorted order leaves a sorted order of the others. */
  lemma SortedTail(ms: seq<Member>, s: seq<int>)
    requires WellFormed(ms) && s != [] && forall x :: x in s ==> x in Clusters(ms)
    requires Distinct(s) && ScoreSorted(ms, s)
    ensures forall x :: x in s[1..] <==> x in s && x != s[0]
    ensures Distinct(s[1..]) && ScoreSorted(ms, s[1..])
  {
    assert s == [s[0]] + s[1..];
  }

  /** Inserts `c` after every cluster whose score is at most its own. */
  function InsertByScore(ms: seq<Member>, c: int, s: seq<int>): (r: seq<int>)
    requires WellFormed(ms) && c in Clusters(ms) && c !in s
    requires forall x :: x in s ==> x in Clusters(ms)
    requires Distinct(s) && ScoreSorted(ms, s)
    ensures |r| == |s| + 1 && forall x :: x in r <==> x == c || x in s
    ensures Distinct(r) && ScoreSorted(ms, r)
  {
    if s == [] then [c]
    else if Score(ms, c) < Score(ms, s[0]) then
      SortedHead(ms, s);
      SortedCons(ms, c, s);
      [c] + s
    else
      var tail := s[1..];
      SortedTail(ms, s);
      var rest := InsertByScore(ms, c, tail);
      SortedHead(ms, s);
      SortedCons(ms, s[0], rest);
      [s[0]] + rest
  }

  /** An insertion sort by score of the given clusters. */
  function SortByScore(ms: seq<Member>, ks: seq<int>): (r: seq<int>)
    requires WellFormed(ms) && Distinct(ks) && forall x :: x in ks ==> x in Clusters(ms)
    ensures |r| == |ks| && forall x :: x in r <==> x in ks
    ensures Distinct(r) && ScoreSorted(ms, r)
  {
    if ks == [] then []
    else
      var init := ks[..|ks| - 1];
      assert ks == init + [ks[|ks| - 1]];
      InsertByScore(ms, ks[|ks| - 1], SortByScore(ms, init))
  }

  /** `df.groupby('cluster')`: one group per present cluster, in ascending order. */
  function ClusterGroups(ms: seq<Member>): seq<Group>
  {
    Aggregate(KeyedBy(ms, Monetary))
  }

  /** `cluster_stats.index`: the present clusters in ascending order. */
  function StatsIndex(ms: seq<Member>): (ks: seq<int>)
    ensures |ks| == |ClusterGroups(ms)|
    ensures forall i :: 0 <= i < |ks| ==> ks[i] == ClusterGroups(ms)[i].key
    ensures forall i, j :: 0 <= i < j < |ks| ==> ks[i] < ks[j]
    ensures forall c :: c in ks <==> c in Clusters(ms)
  {
    var gs := ClusterGroups(ms);
    var ks := seq(|gs|, i requires 0 <= i < |gs| => gs[i].key);
    assert forall c :: c in ks <==> c in GroupKeys(gs) by {
      forall c ensures c in ks <==> c in GroupKeys(gs) {
        if c in GroupKeys(gs) {
          var g :| g in gs && g.key == c;
          var i :| 0 <= i < |gs| && gs[i] == g;
          assert ks[i] == c;
        }
      }
    }
    assert forall c :: c in RowKeys(KeyedBy(ms, Monetary)) <==> c in Clusters(ms) by {
      forall c ensures c in RowKeys(KeyedBy(ms, Monetary)) <==> c in Clusters(ms) {
        var rows := KeyedBy(ms, Monetary);
        if c in Clusters(ms) {
          var m :| m in ms && m.cluster == c;
          var i :| 0 <= i < |ms| && ms[i] == m;
          assert rows[i] in rows;
        }
        if c in RowKeys(rows) {
          var r :| r in rows && r.key == c;
          var i :| 0 <= i < |rows| && rows[i] == r;
          assert ms[i] in ms;
        }
      }
    }
    ks
  }

  /** Sorting the present clusters by score yields an admissible score order. */
  lemma ScoreOrderExists(ms: seq<Member>)
    requires WellFormed(ms)
    ensures IsScoreOrder(ms, SortByScore(ms, StatsIndex(ms)))
  {
  }

  // ---------------------------------------------------------------------
  // Segment labels

  datatype Label =
    | Inactive
    | NewCustomers
    | Regular
    | PotentialLoyal
    | LoyalCustomers
    | Numbered(number: nat)   // "Cluster <number>"

  function LabelName(l: Label): string
  {
    match l
    case Inactive => "Inactive"
    case NewCustomers => "New customers"
    case Regular => "Regular"
    case PotentialLoyal => "Potential loyal"
    case LoyalCustomers => "Loyal customers"
    case Numbered(k) => "Cluster " + Recency.Show(k)
  }

  /** Distinct labels print as distinct names. */
  lemma LabelNameInjective(a: Label, b: Label)
    ensures LabelName(a) == LabelName(b) ==> a == b
  {
    if a.Numbered? && b.Numbered? {
      if LabelName(a) == LabelName(b) {
        assert Recency.Show(a.number) == LabelName(a)[8..];
        Recency.ShowRoundTrip(a.number);
        Recency.ShowRoundTrip(b.number);
      }
    } else if a.Numbered? {
      assert LabelName(a)[0] == 'C' != LabelName(b)[0];
    } else if b.Numbered? {
      assert LabelName(b)[0] == 'C' != LabelName(a)[0];
    }
  }

  /** The order of the names by loyalty: the lowest scores first. */
  function Rank(l: Label): nat
  {
    match l
    case Inactive => 0
    case NewCustomers => 1
    case Regular => 2
    case PotentialLoyal => 3
    case LoyalCustomers => 4
    case Numbered(_) => 5
  }

  /** The name written for score position `p` among the first positions. */
  function Front(p: nat): (l: Label)
    requires p < 4
    ensures Rank(l) == p
  {
    if p == 0 then Inactive
    else if p == 1 then NewCustomers
    else if p == 2 then Regular
    else PotentialLoyal
  }

  /** How many leading score positions receive a name of their own for `n` centres. */
  function FrontCount(n: nat): nat
  {
    if n >= 5 then 4 else if n >= 3 then n - 1 else 0
  }

  /**
   * The label dictionary: for fewer than three centres "Cluster i+1" for every
   * centre; otherwise the dictionary literal and the two conditional
   * assignments, with Python's rules — a repeated key keeps the last value,
   * and indexing past the end of `order` raises `IndexError`.
   */
  function AssignLabels(n: nat, order: seq<int>): (r: Result<map<int, Label>>)
    ensures n < 3 ==> && r.Ok?
                      && (forall c :: c in r.value <==> 0 <= c < n)
                      && (forall c :: c in r.value ==> r.value[c] == Numbered(c + 1))
    ensures 3 <= n ==> (r.Err? <==> |order| < FrontCount(n))
    ensures r.Err? ==> r.error == IndexError
  {
    if n >= 3 then
      if |order| < 2 then Err(IndexError)
      else
        var labels := map[order[0] := Inactive][order[|order| - 1] := LoyalCustomers][order[1] := NewCustomers];
        if n >= 4 && |order| < 3 then Err(IndexError)
        else
          var labels := if n >= 4 then labels[order[2] := Regular] else labels;
          if n >= 5 && |order| < 4 then Err(IndexError)
          else Ok(if n >= 5 then labels[order[3] := PotentialLoyal] else labels)
    else Ok(NumberedLabels(n))
  }

  /** `{i: f'Cluster {i+1}' for i in range(n)}`. */
  function NumberedLabels(n: nat): (m: map<int, Label>)
    ensures forall c :: c in m <==> 0 <= c < n
    ensures forall c :: c in m ==> m[c] == Numbered(c + 1)
  {
    if n == 0 then map[] else NumberedLabels(n - 1)[n - 1 := Numbered(n)]
  }

  /** `labels.get(i, f'Cluster {i+1}')`. */
  function DisplayLabel(labels: map<int, Label>, c: int): Label
    requires c >= 0
  {
    if c in labels then labels[c] else Numbered(c + 1)
  }

  /**
   * A labelled cluster shows its label; any other cluster shows "Cluster "
   * followed by the decimal digits of its number plus one.
   */
  lemma DisplayName(labels: map<int, Label>, c: int)
    requires c >= 0
    ensures c in labels ==> DisplayLabel(labels, c) == labels[c]
    ensures c !in labels ==>
      var name := LabelName(DisplayLabel(labels, c));
      |name| > 8 && name[..8] == "Cluster " && Recency.ParseInt(name[8..]) == Some(c + 1)
  {
    if c !in labels {
      var digits := Recency.Show(c + 1);
      assert LabelName(DisplayLabel(labels, c))[8..] == digits;
      Recency.ShowRoundTrip(c + 1);
      assert Recency.IsDigit(digits[0]);
    }
  }

  /**
   * With three or more centres the labels are positional: position p < FrontCount
   * gets the p-th name, the last position gets "Loyal customers" unless a
   * front name overwrote it, and no other cluster is labelled.
   */
  lemma Positional(n: nat, order: seq<int>)
    requires 3 <= n && Distinct(order) && |order| >= FrontCount(n)
    ensures var m := AssignLabels(n, order).value;
      && (forall p :: 0 <= p < FrontCount(n) ==> order[p] in m && m[order[p]] == Front(p))
      && (|order| > FrontCount(n) ==> m[order[|order| - 1]] == LoyalCustomers)
      && (forall c :: c in m <==>
            exists p :: 0 <= p < |order| && order[p] == c && (p < FrontCount(n) || p == |order| - 1))
  {
    var m := AssignLabels(n, order).value;
    forall c | c in m
      ensures exists p :: 0 <= p < |order| && order[p] == c && (p < FrontCount(n) || p == |order| - 1)
    {
      if c == order[|order| - 1] {
        assert order[|order| - 1] == c;
      } else if c == order[0] {
        assert order[0] == c;
      } else if c == order[1] {
        assert order[1] == c;
      } else if c == order[2] {
        assert order[2] == c;
      } else {
        assert order[3] == c;
      }
    }
  }

  /** The cluster labelled `c` sits at score position `p`, and its name says which. */
  lemma LabelPosition(n: nat, order: seq<int>, c: int) returns (p: nat)
    requires 3 <= n && Distinct(order) && |order| >= FrontCount(n)
    requires c in AssignLabels(n, order).value
    ensures p < |order| && order[p] == c
    ensures var l := AssignLabels(n, order).value[c];
      || (p < FrontCount(n) && l == Front(p))
      || (p == |order| - 1 && p >= FrontCount(n) && l == LoyalCustomers)
  {
    Positional(n, order);
    var m := AssignLabels(n, order).value;
    p :| 0 <= p < |order| && order[p] == c && (p < FrontCount(n) || p == |order| - 1);
  }

  /** "Loyal customers" survives exactly when `order` is longer than the front positions. */
  lemma LoyalIff(n: nat, order: seq<int>)
    requires 3 <= n && Distinct(order) && |order| >= FrontCount(n)
    ensures var m := AssignLabels(n, order).value;
      (exists c :: c in m && m[c] == LoyalCustomers) <==> |order| > FrontCount(n)
  {
    Positional(n, order);
    var m := AssignLabels(n, order).value;
    if |order| > FrontCount(n) {
      assert m[order[|order| - 1]] == LoyalCustomers;
    }
    if exists c :: c in m && m[c] == LoyalCustomers {
      var c :| c in m && m[c] == LoyalCustomers;
      var p := LabelPosition(n, order, c);
    }
  }

  /** No two clusters share a label. */
  lemma LabelsInjective(n: nat, order: seq<int>, a: int, b: int)
    requires Distinct(order) && |order| >= FrontCount(n)
    requires a in AssignLabels(n, order).value && b in AssignLabels(n, order).value
    ensures AssignLabels(n, order).value[a] == AssignLabels(n, order).value[b] ==> a == b
  {
    if n >= 3 {
      var pa := LabelPosition(n, order, a);
      var pb := LabelPosition(n, order, b);
      var m := AssignLabels(n, order).value;
      if m[a] == m[b] {
        if pa < FrontCount(n) && pb < FrontCount(n) {
          assert Rank(Front(pa)) == pa && Rank(Front(pb)) == pb;
        }
      }
    }
  }

  /**
   * A lower-ranked name never goes to a cluster with a higher loyalty score:
   * "Inactive" <= "New customers" <= "Regular" <= "Potential loyal" <= "Loyal customers".
   */
  lemma LabelsFollowScore(ms: seq<Member>, n: nat, order: seq<int>, a: int, b: int)
    requires WellFormed(ms) && 3 <= n && IsScoreOrder(ms, order) && |order| >= FrontCount(n)
    requires a in AssignLabels(n, order).value && b in AssignLabels(n, order).value
    requires Rank(AssignLabels(n, order).value[a]) < Rank(AssignLabels(n, order).value[b])
    ensures a in Clusters(ms) && b in Clusters(ms) && Score(ms, a) <= Score(ms, b)
  {
    var pa := LabelPosition(n, order, a);
    var pb := LabelPosition(n, order, b);
    assert order[pa] in order && order[pb] in order;
    if pa < FrontCount(n) && pb < FrontCount(n) {
      assert Rank(Front(pa)) == pa && Rank(Front(pb)) == pb;
    }
    assert pa < pb;
  }

  /** A distinct sequence has as many elements as members. */
  lemma {:induction false} DistinctCard(s: seq<int>)
    requires Distinct(s)
    ensures |set x | x in s| == |s|
  {
    if s != [] {
      var init := s[..|s| - 1];
      DistinctCard(init);
      assert (set x | x in s) == (set x | x in init) + {s[|s| - 1]};
    }
  }

  /** The centre numbers 0..n-1. */
  function Range(n: nat): (s: seq<int>)
    ensures |s| == n && Distinct(s)
    ensures forall c :: c in s <==> 0 <= c < n
  {
    var r: seq<int> := seq(n, (i: int) requires 0 <= i < n => i);
    assert forall c :: c in r <==> 0 <= c < n by {
      forall c | 0 <= c < n ensures c in r {
        assert r[c] == c;
      }
      forall c | c in r ensures 0 <= c < n {
        var i :| 0 <= i < n && r[i] == c;
      }
    }
    r
  }

  /** When the present clusters are exactly 0..n-1, the score order lists all n of them. */
  lemma OrderLength(ms: seq<Member>, n: nat, order: seq<int>)
    requires WellFormed(ms) && IsScoreOrder(ms, order)
    requires forall c :: c in Clusters(ms) <==> 0 <= c < n
    ensures |order| == n
  {
    DistinctCard(order);
    DistinctCard(Range(n));
    assert (set x | x in order) == (set x | x in Range(n));
  }

  /**
   * When every centre 0..n-1 received customers (the usual k-means outcome),
   * labelling succeeds; for three to five centres every cluster is named, and
   * beyond five the positions between the fourth and the last stay unnamed.
   */
  lemma AllClustersPresent(ms: seq<Member>, n: nat, order: seq<int>)
    requires WellFormed(ms) && IsScoreOrder(ms, order)
    requires forall c :: c in Clusters(ms) <==> 0 <= c < n
    ensures |order| == n && AssignLabels(n, order).Ok?
    ensures 3 <= n <= 5 ==> forall c :: c in AssignLabels(n, order).value <==> 0 <= c < n
    ensures n >= 6 ==> forall p :: FrontCount(n) <= p < n - 1 ==> order[p] !in AssignLabels(n, order).value
  {
    OrderLength(ms, n, order);
    if n >= 3 {
      Positional(n, order);
      var m := AssignLabels(n, order).value;
      if n <= 5 {
        forall c | 0 <= c < n ensures c in m {
          assert c in order;
          var p :| 0 <= p < |order| && order[p] == c;
          assert p < FrontCount(n) || p == |order| - 1;
        }
        forall c | c in m ensures 0 <= c < n {
          var p :| 0 <= p < |order| && order[p] == c;
          assert order[p] in order;
        }
      } else {
        forall p | FrontCount(n) <= p < n - 1 ensures order[p] !in m {
          assert forall q :: 0 <= q < |order| && q != p ==> order[q] != order[p];
        }
      }
    }
  }

  /** An empty cluster shifts the positions: with four centres and three present, "Loyal customers" is lost. */
  lemma EmptyClusterLosesLoyal()
    ensures AssignLabels(4, [2, 0, 1]) == Ok(map[2 := Inactive, 0 := NewCustomers, 1 := Regular])
  {
    var m := map[2 := Inactive][1 := LoyalCustomers][0 := NewCustomers][1 := Regular];
    assert AssignLabels(4, [2, 0, 1]) == Ok(m);
    assert m == map[2 := Inactive, 0 := NewCustomers, 1 := Regular];
  }

  /** With five centres but only three present, `sorted_clusters[3]` is out of range. */
  lemma TooFewPresentFails()
    ensures AssignLabels(5, [0, 1, 2]) == Err(IndexError)
  {
  }

  /**
   * Two customers of one cluster, (recency 0, frequency 1, spend 10) and
   * (0, 3, 30): the score is 2 * 20 / 1 = 40, while the mean of the
   * customers' own products would be (10 + 90) / 2 = 50.
   */
  lemma ScoreUsesMeans()
    ensures var ms := [Member(0, 0, 1, 10.0), Member(0, 0, 3, 30.0)];
      0 in Clusters(ms) && WellFormed(ms) && Score(ms, 0) == 40.0
  {
    var ms := [Member(0, 0, 1, 10.0), Member(0, 0, 3, 30.0)];
    assert ms[0] in ms;
    forall f: Feature ensures var rows := KeyedBy(ms, f);
      Count(rows, 0) == 2 && SumFor(rows, 0) == Value(ms[0], f) + Value(ms[1], f)
    {
      var rows := KeyedBy(ms, f);
      var first := rows[..1];
      assert first[..0] == [];
      assert first == [Row(0, Value(ms[0], f))];
      assert Count(first, 0) == 1 && SumFor(first, 0) == Value(ms[0], f);
      assert rows[..|rows| - 1] == first;
    }
  }
}
