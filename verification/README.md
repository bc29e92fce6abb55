# Data-Viz: a verified model of the computations behind the charts

The Data-Viz exercises query an e-commerce event table (`customers`) and draw
charts. Between the query and the plot sit a handful of small, deterministic
computations. This project models them in Dafny and proves what they compute:

- **ex00 `pie.py`** (module `Pie`): the event-type pie chart. The labels and
  counts keep the order of the rows. Each count becomes its percentage of the
  total, and the percentages add up to 100.
- **ex01 `chart.py`** (module `PurchaseChart`):
  - the purchase query's early exits;
  - purchases counted per day, summed per month in millions and averaged per
    day;
  - the loop that puts one x-axis tick at the first row of every run of equal
    month names.
- **ex03 `Building.py`** (modules `Building` and `Histogram`):
  - dropping rows whose price is not numeric;
  - per-customer purchase counts and spending;
  - the fixed-edge bar charts, binned with numpy's histogram rule: half-open
    bins, the last bin closed, out-of-range values not counted.
- **ex04 `elbow.py`** (module `Elbow`):
  - the scan over k = 1..10;
  - the content of the written explanation: one inertia entry per k and one
    percent decrease per consecutive pair;
  - the fixed optimum 4.
- **ex05 `Clustering.py`**:
  - module `Recency`: parsing the `recency` interval text in
    `get_customer_data`;
  - module `Clustering`: the loyalty score and the segment labels of
    `analyze_clusters`;
  - module `Segments`: the counts, names, bubble sizes and axis ranges of the
    bar and bubble charts.

Two shared modules support these:

- `GroupBy` models pandas' `groupby(key)` with `size()` and `sum()`. The
  result has one group per distinct key, in ascending key order, and each
  group carries the number of rows with its key and the sum of their values.
  It is used for days, months, customers and clusters.
- `Seqs` holds sums, `max` and `min`.

Error paths are values, not exceptions. `Result` carries Python's
`IndexError`, `ValueError` or `ZeroDivisionError`, and `Option` stands for a
function returning `None`.

A few facts about `analyze_clusters` that the proofs make explicit:

- The labels are handed out by position in `sort_values()`, which sorts
  ascending. Position 0 is "Inactive", 1 is "New customers", the last is
  "Loyal customers", and positions 2 and 3 are "Regular" and "Potential
  loyal" when there are at least 4 or 5 centres.
- The order is computed over the clusters that actually received customers,
  while the branches test the number of centres. When a cluster is empty,
  a later assignment can overwrite "Loyal customers" (`EmptyClusterLosesLoyal`),
  or the indexing runs past the end (`TooFewPresentFails`).
- With six or more centres, the clusters between the fourth and the last
  position get no label. The charts then show them as "Cluster i+1".

Further facts about the code that the model states:

- The clusters are ranked by ascending score, and the names above go to
  positions in that ranking.
- Ties are unordered. pandas' default sort is not stable, so the model
  accepts any order of the present clusters with non-decreasing scores
  (`IsScoreOrder`, `TiesEitherWay`).
- The score is computed from the per-cluster means: mean spend times mean
  frequency over mean recency plus one (`ScoreUsesMeans`).
- The optimum reported by the elbow step is the constant 4, whatever the
  inertias are.
- The purchase query of `chart.py` does not filter missing prices. The
  monthly sums skip them, and the daily mean divides by the number of
  present prices only, so a day whose prices are all missing averages to
  NaN (`MeanSkipsMissing`).

## Model

| member | source | states |
|---|---|---|
| Pie.CreatePieChart | Data-Viz/ex00/pie.py:56-66 | `None` or an empty list draws nothing; a zero total is the division-by-zero path; otherwise the event types and counts are the rows' own, in the rows' order, and each percentage times the total is its count times 100 |
| Pie.PercentagesSumTo100 | Data-Viz/ex00/pie.py:65-66 | the percentages of a drawn chart add up to exactly 100 |
| Pie.PercentageBounds | Data-Viz/ex00/pie.py:66 | with non-negative counts each percentage lies in [0, 100], and a positive count has a positive percentage |
| Pie.PercentagesPreserveOrder | Data-Viz/ex00/pie.py:66 | for a positive total, one count is at most another exactly when its percentage is at most the other's |
| Pie.ExampleChart | Data-Viz/ex00/pie.py:62-66 | counts 50, 30, 20 give percentages 50, 30, 20 with labels and counts unchanged |
| PurchaseChart.FetchPurchases | Data-Viz/ex01/chart.py:48-79 | a non-zero client exit status, an empty result or event times `to_datetime` cannot parse give `None`, and nothing else does; otherwise the rows unchanged |
| PurchaseChart.DayKeyRoundTrip | Data-Viz/ex01/chart.py:66 | the chronological day number used as group key decodes back to the calendar day |
| PurchaseChart.DailyCounts | Data-Viz/ex01/chart.py:84 | daily counts are in strictly increasing day order, and each is the positive number of purchases on its day |
| PurchaseChart.DailyCountsCoverDays | Data-Viz/ex01/chart.py:84 | the days listed are exactly the days on which some purchase was made |
| PurchaseChart.DailyCountsSum | Data-Viz/ex01/chart.py:84 | the daily counts add up to the number of purchase rows |
| PurchaseChart.MonthlyTotals | Data-Viz/ex01/chart.py:115-117 | one entry per month group, in chronological order, carrying that group's year and month and named by the month's three-letter abbreviation; millions times 1,000,000 is the month's sum of present prices (a missing price adds nothing) |
| PurchaseChart.MonthlyTotalsCoverMonths | Data-Viz/ex01/chart.py:115-117 | the (year, month) pairs listed are exactly those of the purchase rows |
| PurchaseChart.DailyAverages | Data-Viz/ex01/chart.py:150-155 | one entry per day group (every purchase day), in chronological order; the mean is NaN exactly when none of the day's prices is present, and otherwise the sum of the present prices over their number |
| PurchaseChart.MeanSkipsMissing | Data-Viz/ex01/chart.py:150-152 | a day with prices 4 and missing averages 4, not 2, and a day with only a missing price is NaN |
| PurchaseChart.DailyAveragesCoverDays | Data-Viz/ex01/chart.py:150-155 | the days listed are exactly the days on which some purchase was made |
| PurchaseChart.MonthColumn | Data-Viz/ex01/chart.py:158 | each day's month column is the abbreviation of its month, year dropped |
| PurchaseChart.MonthTicks | Data-Viz/ex01/chart.py:172-182 | a tick is placed at i exactly when i = 0 or the month name differs from row i-1; ticks increase strictly, start at 0, are labelled by their row's month, and adjacent labels differ |
| PurchaseChart.MonthNameCanRecur | Data-Viz/ex01/chart.py:158-180 | without the year, "Oct" opens two different runs when the days span October of two years |
| Building.DropNonNumeric | Data-Viz/ex03/Building.py:49-50 | each row with a numeric price is kept as many times as it occurs, and no other row is kept |
| Building.DropNonNumericAppend | Data-Viz/ex03/Building.py:49-50 | dropping distributes over concatenation, so the kept rows keep their order |
| Building.DroppedPurchasesBy | Data-Viz/ex03/Building.py:49-50 | after dropping, a customer has as many purchases as they had rows with a numeric price |
| Building.FetchPurchases | Data-Viz/ex03/Building.py:39-59 | a failing client, an empty result or unparsable event times give `None`, and nothing else does; otherwise exactly the rows with a numeric price, in order (the emptiness test precedes the dropping) |
| Building.FetchedPurchasesBy | Data-Viz/ex03/Building.py:44-52 | a fetched table gives each customer as many purchases as they had rows with a numeric price |
| Building.AllPricesMissing | Data-Viz/ex03/Building.py:44-50 | a non-empty result whose prices are all non-numeric yields an empty table, not `None` |
| Building.FrequenciesPerUser | Data-Viz/ex03/Building.py:68 | one frequency per customer, equal to that customer's number of purchases; together they count every row |
| Building.SpendingPerUser | Data-Viz/ex03/Building.py:106 | one total per customer, equal to the sum of that customer's prices; together they equal the sum of all prices |
| Building.FrequencyChart | Data-Viz/ex03/Building.py:61-73 | no data gives no chart; otherwise 4 bars at 0, 10, 20, 30, each counting the customers in its frequency bin, never more than the customers |
| Building.SpendingChart | Data-Viz/ex03/Building.py:100-111 | no data gives no chart; otherwise 5 bars at 0, 50, ..., 200, each counting the customers in its spending bin, never more than the customers |
| Building.LastFrequencyBinIsClosed | Data-Viz/ex03/Building.py:71-72 | 40 purchases fall in the last bin, 41 in none, and 10 in the second bin only |
| Histogram.BinOf | Data-Viz/ex03/Building.py:72 | a value has a bin exactly when it lies between the first and last edge, and that bin is the only one holding it |
| Histogram.Counts | Data-Viz/ex03/Building.py:72 | one count per bin, each the number of values in that bin, in total the number of values in range |
| Histogram.CountInRangeBound | Data-Viz/ex03/Building.py:110 | the binned total never exceeds the number of values and equals it exactly when all values are in range |
| Elbow.InertiaScan | Data-Viz/ex04/elbow.py:139-148 | exactly 10 inertias, the i-th from the fit with i+1 clusters |
| Elbow.ScanReport | Data-Viz/ex04/elbow.py:139-171 | the report on a scan fails exactly when a fit for 1 to 9 clusters has zero inertia; otherwise it lists (k, inertia of the k-cluster fit) for k = 1..10 and the decrease from k to k+1 computed from those two fits |
| Elbow.Explain | Data-Viz/ex04/elbow.py:150-171 | the report fails exactly when a divisor inertia is 0; otherwise it lists (k, inertia) for k from 1 and n-1 decreases from i+1 to i+2 with percent (v[i] - v[i+1]) / v[i] * 100 |
| Elbow.ElbowReport | Data-Viz/ex04/elbow.py:194-204 | the report written by `main` names 4 clusters as optimal |
| Elbow.OptimumIgnoresData | Data-Viz/ex04/elbow.py:123-124 | any two inertia scans lead to the same optimum, 4 |
| Elbow.PercentDecreaseBounds | Data-Viz/ex04/elbow.py:169-170 | for a positive, non-increasing pair the decrease lies in [0, 100] and is 0 exactly for equal inertias |
| Elbow.ReportDeterminesInertias | Data-Viz/ex04/elbow.py:163-171 | the first inertia and the listed decreases give back every inertia |
| Recency.ParseInt | Data-Viz/ex05/Clustering.py:89 | `int(s)` succeeds exactly on an optional sign followed by one or more decimal digits |
| Recency.FirstToken | Data-Viz/ex05/Clustering.py:89 | `split(' ')[0]` is the longest space-free prefix |
| Recency.RecencyDays | Data-Viz/ex05/Clustering.py:89 | a text succeeds exactly when its first token is an integer; any other cell gives 0; failure is a `ValueError` |
| Recency.DaysText | Data-Viz/ex05/Clustering.py:89 | "N days ..." reads as N and "-N days ..." as -N |
| Recency.SubDayIntervalFails | Data-Viz/ex05/Clustering.py:89 | an interval under a day, "04:05:06", cannot be read |
| Recency.DropIncomplete | Data-Viz/ex05/Clustering.py:81 | `dropna()` keeps each complete row as many times as it occurs, and no incomplete row |
| Recency.DropIncompleteAppend | Data-Viz/ex05/Clustering.py:81 | dropping distributes over concatenation, so the kept rows keep their order |
| Recency.GetCustomerData | Data-Viz/ex05/Clustering.py:71-102 | a failing client, an empty result or visit times `to_datetime` cannot parse give `None`; otherwise the features of the complete rows in order, or `None` exactly when some complete row's recency cannot be read |
| Clustering.Size | Data-Viz/ex05/Clustering.py:147 | a cluster has a positive size exactly when some customer belongs to it |
| Clustering.Centroid | Data-Viz/ex05/Clustering.py:147 | each feature mean of a cluster is non-negative when that feature is non-negative for every customer |
| Clustering.CentroidBounds | Data-Viz/ex05/Clustering.py:147 | a cluster's mean of a feature lies within any bounds that hold for all of that cluster's customers, and equals the common value when they all agree |
| Clustering.ScoreSign | Data-Viz/ex05/Clustering.py:150 | the score is 0 exactly when the mean spend or mean frequency is 0; for non-negative means it lies between 0 and their product |
| Clustering.ScoreUsesMeans | Data-Viz/ex05/Clustering.py:147-150 | the score is the product of the means, 40 in the example, not the mean of products, 50 |
| Clustering.StatsIndex | Data-Viz/ex05/Clustering.py:147 | the group index lists each present cluster once, in strictly increasing order |
| Clustering.SortByScore | Data-Viz/ex05/Clustering.py:153 | sorting gives the same distinct clusters in non-decreasing score |
| Clustering.ScoreOrderExists | Data-Viz/ex05/Clustering.py:153 | an admissible score order of the present clusters exists |
| Clustering.ScoreOrderEnds | Data-Viz/ex05/Clustering.py:153 | a score order (`IsScoreOrder`) has one entry per present cluster, the first with the lowest score and the last with the highest |
| Clustering.TiesEitherWay | Data-Viz/ex05/Clustering.py:153 | two clusters with equal scores are a score order both ways round |
| Clustering.AssignLabels | Data-Viz/ex05/Clustering.py:156-171 | under 3 centres, "Cluster c+1" for exactly 0..n-1; otherwise `IndexError` exactly when the order is shorter than the positions the branches read |
| Clustering.NumberedLabels | Data-Viz/ex05/Clustering.py:171 | the keys are exactly 0..n-1 and key c maps to "Cluster c+1" |
| Clustering.DisplayName | Data-Viz/ex05/Clustering.py:183 | a labelled cluster shows its label; any other shows "Cluster " followed by digits that read back as its number plus one |
| Clustering.Positional | Data-Viz/ex05/Clustering.py:156-168 | position p below the front count gets the p-th name, the last gets "Loyal customers" unless overwritten, and nothing else is labelled |
| Clustering.LabelPosition | Data-Viz/ex05/Clustering.py:156-168 | a labelled cluster sits at a position whose name it carries |
| Clustering.LoyalIff | Data-Viz/ex05/Clustering.py:157-168 | some cluster is "Loyal customers" exactly when the order is longer than the front positions |
| Clustering.LabelsInjective | Data-Viz/ex05/Clustering.py:156-171 | no two clusters share a label |
| Clustering.LabelNameInjective | Data-Viz/ex05/Clustering.py:157-171 | distinct labels print as distinct names |
| Clustering.LabelsFollowScore | Data-Viz/ex05/Clustering.py:150-168 | a lower-ranked name never goes to a cluster with a higher score |
| Clustering.AllClustersPresent | Data-Viz/ex05/Clustering.py:153-168 | when every centre has customers, labelling succeeds; 3 to 5 centres are all labelled; beyond 5, positions 4..n-2 stay unlabelled |
| Clustering.EmptyClusterLosesLoyal | Data-Viz/ex05/Clustering.py:157-165 | 4 centres with 3 present: "Regular" overwrites "Loyal customers" |
| Clustering.TooFewPresentFails | Data-Viz/ex05/Clustering.py:167-168 | 5 centres with 3 present raise `IndexError` |
| Segments.SegmentBars | Data-Viz/ex05/Clustering.py:180-215 | no customers is a `ValueError`; otherwise one bar per present cluster in index order, named by its label or "Cluster i+1", sized by its group, x limit 1.1 times the largest count |
| Segments.BarsPerCluster | Data-Viz/ex05/Clustering.py:180 | bars are in strictly increasing cluster order, cover exactly the present clusters, and each count is that cluster's positive size |
| Segments.BarCountsTotal | Data-Viz/ex05/Clustering.py:180 | the bar counts add up to the number of customers |
| Segments.BarsFit | Data-Viz/ex05/Clustering.py:215 | every bar ends strictly inside the x limit, with a tenth of the longest bar to spare |
| Segments.DisplayLabelInjective | Data-Viz/ex05/Clustering.py:183 | two different clusters are never shown with the same label |
| Segments.BarNamesDistinct | Data-Viz/ex05/Clustering.py:183 | no two bars carry the same name |
| Segments.BubbleArea | Data-Viz/ex05/Clustering.py:252-254 | the area has no finite value exactly when the largest spend is 0; otherwise area over 800 equals spend over largest spend |
| Segments.AxesMargins | Data-Viz/ex05/Clustering.py:286-294 | the y range starts at 0; every cluster lies at least 2 months inside the x range and 10 below the top, and the outermost clusters sit exactly on those margins |
| Segments.SegmentBubbles | Data-Viz/ex05/Clustering.py:252-294 | no clusters is a `ValueError`; otherwise one bubble per cluster at (recency/30, frequency), area spend/max spend*800, label or "Cluster i+1", axes padded by 2 and 10 |
| Segments.BubblesInsideAxes | Data-Viz/ex05/Clustering.py:286-294 | each bubble centre is at least 2 inside the x range, 10 below the top, and above 0 for non-negative frequency |
| Segments.BubbleAreaBounds | Data-Viz/ex05/Clustering.py:252-254 | with non-negative spends and a positive largest one, every area lies in [0, 800], and every cluster with the largest spend gets exactly 800 |
| Segments.BubbleAreaMonotone | Data-Viz/ex05/Clustering.py:254 | a larger median spend never gets a smaller bubble |
| Segments.ZeroSpendBubbles | Data-Viz/ex05/Clustering.py:252-254 | a largest median spend of 0 leaves every bubble without a finite size |
| GroupBy.Aggregate | Data-Viz/ex01/chart.py:84 | groups are in strictly increasing key order, none is empty, and the keys are exactly the rows' keys |
| GroupBy.AggregateLookup | Data-Viz/ex01/chart.py:115 | each key's group has the number of rows with that key and the sum of their values |
| GroupBy.AggregateTotals | Data-Viz/ex03/Building.py:106 | group sizes add up to the row count and group sums to the total value |

## Left out

- Database access is not modelled: the `docker exec ... psql` subprocess, the psycopg2 connection in `pie.py`, `pd.read_csv` and `os.chdir`. The client's exit status and the parsed rows are parameters.
- Rendering is not modelled: matplotlib and seaborn calls, styling, colours, `polyfit` smoothing, and the text formatting of labels and of the explanation. The model keeps the structured values.
- scikit-learn is not modelled: `StandardScaler`, `KMeans`, `PCA`, the scatter plot and the decision-boundary plot. Cluster assignments and inertias are inputs.
- `create_exact_elbow_plot` draws fixed, hard-coded inertias. Only its returned constant is modelled.
- `mustache.py` (ex02) is not part of this model. It prints `describe()` quantiles and draws box plots.
- Event times in `Building.py` and the `last_visit`/`first_visit` times in `Clustering.py` are not kept, because nothing modelled reads them; in `chart.py` only their calendar day is kept. Whether `to_datetime` can parse them is a boolean parameter of each fetch, and a parse failure is the `except Exception` path.
- The per-cluster medians of the bubble chart are inputs. Medians are pandas library statistics.
- Floating point is modelled as exact reals. Prices, means, percentages and areas carry no rounding, so the percentages add up to exactly 100.
- `df.replace([inf, -inf], 0)` in `get_customer_data` is left out. With exact reals no infinity arises.
- `int()`'s tolerance of surrounding whitespace, underscores and non-ASCII digits is not modelled. Recency texts come from PostgreSQL interval output, which has none of them.
- Histogram.ValidEdges: requires strictly increasing edges, while numpy also accepts equal neighbours. Both call sites pass constant, strictly increasing edges.
- Clustering.Score: requires non-negative recencies (`WellFormed`), deliberately stronger than the source needs, so that the divisor `recency + 1` stays positive. The source only divides by zero when a mean recency is exactly -1; other negative means are not modelled.
- Clustering.IsScoreOrder: the sort is an input constrained to be a score order, because pandas' unstable sort fixes no tie order.
- Elbow.Explain: a zero inertia before the last one is modelled as `ZeroDivisionError`. A numpy float inertia would instead give inf or NaN and print it.
- Segments.BubbleArea: a largest median spend of 0 gives `NonFinite`, standing for the NaN or infinite sizes pandas computes.
- PurchaseChart.DailyCounts: days are keyed with 31 slots per month. That keeps chronological order and needs only day numbers 1 to 31, not real calendar validity.
