# RFM preprocessing of the customer-segmentation service, in Dafny

This project models `load_and_preprocess` of the customer-segmentation web
service (`app.py`). That function turns raw retail transaction rows into one
record per customer: the monetary total (`Amount`), the line-item count
(`Frequency`) and the days since the customer's last invoice
(`Most_Recent_Engagement`). It then drops outliers in three passes, one per
metric, and projects the survivors onto the three metric columns. A cluster
label is later attached to each surviving row by position.

The model is pure, like the source. The source is one chain of whole-column
pandas expressions with no loops, so every stage is a function over
sequences of records, and its properties are lemmas.

- `Aggregation` holds the three group-bys and their inner joins. Customer
  identities are opaque strings. The merged frame lists customers in
  ascending code-point order of their identity, because a pandas group-by
  sorts its keys and an inner merge keeps the left frame's key order.
  Timestamps are integer nanoseconds. `.dt.days` floors a non-negative
  timedelta to whole days.
- `Quantiles` holds pandas' default (linear) quantile over exact reals, and
  the sort that it works on.
- `OutlierFilter` holds the fence `[q1 - 1.5·iqr, q2 + 1.5·iqr]`, with `q1` the
  5th and `q2` the 95th percentile of the current frame. It also holds the
  boolean-mask pass and the three passes in their fixed order.
- `Subsequences` defines order-preserving sub-selection, which is what a
  boolean mask does to a frame.
- `Preprocess` holds the whole function (lines 26-59), the projection, and the
  positional attachment of labels (line 86).
- `TextOrder` and `Wrappers` are support modules: the string order, and
  `Option`/`Result`.

Properties proved include these:
- each customer's amount, count and recency come from exactly that
  customer's rows;
- amounts and counts add up to the column totals, so no row is lost or
  counted twice;
- recency is non-negative, and is the floored distance from the global latest
  date to the customer's latest date;
- each pass returns a subsequence of its input and keeps exactly the rows
  inside its fence;
- `iqr ≥ 0`, and any row between the two percentiles survives;
- the fence does not depend on row order;
- pass `k` uses quantiles of the survivors of passes `1..k-1` only;
- a pass never empties a non-empty frame, and never removes anything from a
  frame of at most 12 rows.

## Model

| member | source | states |
|---|---|---|
| `TextOrder.Less` | app.py:30-31 | the order in which a group-by lists its keys, code point by code point with a proper prefix first; it is irreflexive (see also `LessIrreflexive`, `LessTransitive`, `LessTotal`) |
| `TextOrder.LessIrreflexive` | app.py:30-31 | no identity sorts before itself |
| `TextOrder.LessTransitive` | app.py:30-31 | the key order is transitive |
| `TextOrder.LessTotal` | app.py:30-31 | two different identities are always ordered one way or the other, so the group-by order is determined |
| `Aggregation.LineAmount` | app.py:29 | `Amount` is `Quantity·UnitPrice`: at a non-negative price a sold line adds a non-negative amount and a returned line (negative quantity) a non-positive one, and a zero factor gives zero |
| `Aggregation.AmountOf` | app.py:30 | the group sum of `Amount` for one customer is zero for an identity that has no rows, and non-negative when all of that customer's line amounts are |
| `Aggregation.FrequencyOf` | app.py:31 | the group count of `InvoiceNo` for one customer is at most the number of rows, and positive exactly when that customer has a row with an invoice number |
| `Aggregation.Summaries` | app.py:30-39 | the merged frame built over a list of keys has one row per key, in key order, and row `i` holds key `i` with that customer's amount, frequency and recency |
| `Aggregation.CustomerIds` | app.py:28-30 | the group keys are strictly ascending in code-point order, and a key is listed exactly when some row has that customer identity |
| `Aggregation.LineItems` | app.py:31 | the number of rows of a customer is positive exactly when the customer occurs in the input |
| `Aggregation.FrequencyCountsLineItems` | app.py:31-32 | `Frequency` counts line items, not distinct invoices: it never exceeds the row count, and equals it when every invoice number is present (only null invoice numbers are skipped by `count`) |
| `Aggregation.MaxDate` | app.py:34 | the global latest timestamp is at or after every row's timestamp and is some row's timestamp; it exists only for a non-empty input |
| `Aggregation.EarliestGap` | app.py:35-36 | the group minimum of `max_date - InvoiceDate` is at most every gap of that customer's rows, and is one of them |
| `Aggregation.LatestDate` | app.py:35-36 | the customer's latest invoice timestamp bounds all of its rows and is attained by one |
| `Aggregation.GapToLatest` | app.py:35-36 | the minimum gap to the global latest date is exactly the gap to the customer's own latest date |
| `Aggregation.RecencyOf` | app.py:34-38 | `Most_Recent_Engagement` is non-negative, and equals the whole days, floored, from the global latest date (taken over all raw rows) to the customer's latest invoice |
| `Aggregation.Aggregate` | app.py:28-39 | no result for an empty input; otherwise one row per distinct customer, identities strictly ascending and distinct, no customer missing, and each row's amount, frequency and recency are those of exactly that customer's rows |
| `Aggregation.AggregateConservesTotals` | app.py:29-33 | the per-customer amounts add up to the total of the `Amount` column, and the frequencies add up to the number of rows with an invoice number: no row is lost or counted twice by the grouping and the inner joins |
| `Quantiles.Sort` | app.py:42-43 | the values a quantile is read from are ascending and a permutation of the column |
| `Quantiles.SortedUnique` | app.py:42-43 | two ascending sequences with the same elements are equal, so the sorted column depends only on the column's multiset |
| `Quantiles.LowIndex` | app.py:42-43 | `floor((n - 1)·p)` is a valid index and brackets the rank |
| `Quantiles.Quantile` | app.py:42-43 | the linear-interpolation quantile lies between the two sorted values around its rank, equals the value at the rank when the rank is whole, and lies between the minimum and the maximum |
| `Quantiles.QuantileMonotone` | app.py:42-44 | a higher probability never gives a lower quantile, so the 0.05 quantile is at most the 0.95 quantile |
| `OutlierFilter.FenceOf` | app.py:42-44 | `iqr = q2 - q1 ≥ 0`, and every value in `[q1, q2]` lies inside the fence |
| `OutlierFilter.Fence.Admits` | app.py:45 | the mask `value >= q1 - 1.5·iqr & value <= q2 + 1.5·iqr` admits every value between the two percentiles |
| `OutlierFilter.Select` | app.py:45 | the boolean mask keeps a subsequence of the frame, and each row as many times as it occurs when its value is inside the fence (both bounds inclusive), otherwise not at all |
| `OutlierFilter.Pass` | app.py:41-45 | a pass returns a subsequence of its input, keeps exactly the rows inside the fence of that input, returns nothing for an empty frame and something for a non-empty one |
| `OutlierFilter.PassMembership` | app.py:42-45 | a row survives a pass if and only if it is in the input and its value lies inside the input's fence |
| `OutlierFilter.PassKeepsPercentileBand` | app.py:42-45 | every row whose value lies between the 5th and 95th percentiles survives its pass |
| `OutlierFilter.FenceAdmitsSomeRow` | app.py:42-45 | some row of a non-empty frame lies inside that frame's own fence |
| `OutlierFilter.SortedWithinFence` | app.py:42-45 | some sorted value lies inside the fence built from its 0.05 and 0.95 quantiles |
| `OutlierFilter.FenceIgnoresRowOrder` | app.py:42-44 | frames whose column holds the same multiset of values get the same fence |
| `OutlierFilter.RemoveOutliers` | app.py:41-57 | the three passes, Amount then Frequency then Most_Recent_Engagement, return a subsequence of the merged frame, and a non-empty one for a non-empty frame |
| `OutlierFilter.RemoveOutliersMembership` | app.py:41-57 | a customer is kept exactly when its amount lies inside the fence of the merged frame, its frequency inside the fence of the amount survivors, and its recency inside the fence of the survivors of both earlier passes |
| `OutlierFilter.SelectAdmitted` | app.py:45 | a mask that admits every row returns the frame unchanged |
| `OutlierFilter.SmallSortedWithinFence` | app.py:42-45 | with at most 12 values, the minimum and the maximum both lie inside the fence |
| `OutlierFilter.SeveralSortedWithinFence` | app.py:42-45 | the same, for 3 to 12 values, where the 5th percentile falls between the two smallest values and the 95th between the two largest |
| `OutlierFilter.FenceReachesMinimum` | app.py:44-45 | a lower percentile at most 60% of the way between the two smallest values puts the lower fence at or below the smallest |
| `OutlierFilter.FenceReachesMaximum` | app.py:44-45 | an upper percentile at least 40% of the way between the two largest values puts the upper fence at or above the largest |
| `OutlierFilter.SmallFrameUnchanged` | app.py:41-45 | one pass over a frame of at most 12 rows removes nothing |
| `OutlierFilter.SmallFrameNoOutliers` | app.py:41-57 | the three passes over a frame of at most 12 rows remove nothing |
| `Subsequences.SubsequenceTransitive` | app.py:45-57 | a sub-selection of a sub-selection is a sub-selection of the original, so the successive rebinding of `df_merged` only drops rows |
| `Subsequences.SubsequenceMultiset` | app.py:45-57 | a sub-selection holds no row that the original does not, and none more often |
| `Preprocess.Project` | app.py:59 | the projection keeps the row count and the row order, and row `i` carries the three metrics of row `i` |
| `Preprocess.LoadAndPreprocess` | app.py:26-59 | no result for an empty input; otherwise the result is the projection of the rows that survive the three passes over the merged frame, in merged order; it has between one row and the number of distinct customers, it is the projection of every customer when there are at most 12, and every row holds the aggregates of one input customer |
| `Preprocess.SurvivorCount` | app.py:39-57 | the filtered frame is non-empty, no longer than the merged frame, and as long as it when there are at most 12 customers |
| `Preprocess.SurvivorProvenance` | app.py:28-59 | every row of the result holds the amount, frequency and recency of one customer of the input |
| `Preprocess.ProjectionProvenance` | app.py:28-59 | the same for the projection of any selection of merged rows |
| `Preprocess.AggregateRow` | app.py:28-39 | every merged row holds its own customer's aggregates |
| `Preprocess.AttachClusters` | app.py:86 | a label array whose length differs from the frame's is an error that reports both lengths; otherwise label `i` is attached to row `i` |
| `Preprocess.AttachClustersRoundTrip` | app.py:86 | after attaching labels of the right length, the labelled frame splits back into exactly the frame and the label array |

## Behaviour worth knowing

The model follows `app.py`. Two outcomes that a reader might expect do not
happen with the code as written.
- A dataset in which every customer is an extreme outlier does not filter
  down to an empty set. A pass over a non-empty frame always keeps at least
  one row (`OutlierFilter.Pass`). So the filtered frame is never empty when
  the input has rows (`Preprocess.LoadAndPreprocess`).
- Take three customers with amounts 100, 105 and 10000. The third is not
  rejected as an amount outlier. With 12 or fewer customers no pass removes
  anything (`OutlierFilter.SmallFrameNoOutliers`). The fence built from the
  5th and 95th percentiles always reaches the extremes of so small a frame.
  At 13 customers the rank `12·0.05` lands exactly on the point where the
  exact-real margin is zero. There float64 rounding (`12*0.05` evaluates to
  `0.6000000000000001`) decides, and the largest or smallest value can fall
  just outside the fence. The bound is therefore stated for 12 rows.

## Left out

- The Flask routes, request and file handling, and file saving (app.py:67-82, 125-126) are transport and I/O.
- `pd.read_excel` (app.py:27) parses a foreign file format. The model starts from a sequence of transaction rows.
- `astype(str)` (app.py:28) is not modelled as a conversion. The model takes identities that are already strings, so how pandas prints a numeric or missing identity (for example `12346.0` or `nan`) is outside it.
- SmallFrameUnchanged, SmallFrameNoOutliers, SurvivorCount and LoadAndPreprocess: the "nothing removed from a small frame" facts are proved over exact reals for at most 12 rows, where the margin is positive. A float64 computation agrees with them only up to rounding, and at 13 rows, where the exact margin is zero, it does not.
- Floating point is not modelled. Amounts, quantiles and fences are exact reals. This leaves out float64 rounding of `0.05`, `0.95`, `(n - 1)·p`, `Quantity*UnitPrice` and the group sums, and it leaves out NaN and NaT cells.
- The empty-frame quantile (NaN) is modelled only by its effect: a pass over an empty frame keeps nothing. No such frame arises, because a pass never empties a non-empty one.
- `StandardScaler().fit_transform` (app.py:60-63) computes a mean, a standard deviation and a square root in floating point. It is not modelled, and `LoadAndPreprocess` returns only the unscaled projected frame (app.py:59), not the scaled one.
- `model.predict` and the KMeans model loaded with joblib (app.py:23, 86) are a foreign, opaque classifier. `AttachClusters` takes its labels as a parameter.
- The plotting and image saving, and the JSON response (app.py:88-121), are output side effects.
- pandas index labels are not modelled. Rows are identified by position and by their contents.
