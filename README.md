# RFV segmentation model

A Dafny model of the RFV (Recency, Frequency, Value) customer segmentation in
`tarefa_mod31.py`. The program reads a purchase log and builds one row per
customer (`ID_cliente`):

- Recency: the days from the customer's last purchase (`DiaCompra`) to now.
- Frequency: the number of distinct order ids (`CodigoCompra`).
- Value: the sum of the line amounts (`ValorTotal`).

It then cuts each metric at its 0.25, 0.5 and 0.75 quantiles into classes
A to D. For recency fewer days is better. For frequency and value more is
better. The three letters are concatenated into a segment code such as
`ABB`. A fixed table of eight codes gives each segment a marketing action.
Finally the table is filtered to the segment the user picks.

Modules, one per stage of the pipeline:

- `Sorting` (`sorting.dfy`): ascending insertion sort, removal of adjacent duplicates, column minimum and maximum.
- `Quantile` (`quantile.dfy`): pandas' default linear-interpolation quantile and the three quartile thresholds of a column.
- `Classify` (`classify.dfy`): the two classifiers `recencia_class` and `freq_val_class`, and the segment code with its decoder.
- `Actions` (`actions.dfy`): the action dictionary, the `.map` lookup and the `.get` lookup with its "not found" message.
- `Aggregate` (`aggregate.dfy`): the three group-by tables, the recency column and the inner join on the customer id.
- `Segmentation` (`segmentation.dfy`): quartiles over the joined table, the added class/code/action columns, the whole pipeline and the segment filter.
- `Wrappers` (`wrappers.dfy`): an `Option` type.

Modelling choices:

- Dates are integer day numbers. The reference instant `datetime.now()` is a parameter `now`, also a day number.
- Amounts are integers (cents). Every metric column is therefore an integer column.
- Quantiles and thresholds are exact `real`s. A class compares an integer metric with a real threshold, as the program compares a metric with a float quantile.
- A group-by lists its keys in ascending order (pandas' `sort=True` default). The inner join keeps the order of its left table. So the joined table, and every selected segment, is in ascending customer-id order.
- There is no structured error for a missing column: the top-level `except Exception` (lines 181-182) displays whatever was raised.
- A customer whose dates are all unparsable keeps its group-by row with an empty last-purchase date (lines 81-83), and the merge at lines 96-97 does not drop it. This is not modelled, because dates are day numbers.

## Model

| member | source | states |
|---|---|---|
| Classify.RecencyClass | tarefa_mod31.py:30-38 | Definition of `recencia_class`; characterised by RecencyClassIntervals, RecencyClassMonotone and FreqValIsMirroredRecency. |
| Classify.FreqValClass | tarefa_mod31.py:41-49 | Definition of `freq_val_class`; characterised by FreqValClassIntervals, FreqValClassMonotone and FreqValIsMirroredRecency. |
| Classify.Code | tarefa_mod31.py:110 | Definition of the segment code; characterised by DecodeCode, CodeDecode and CodeInjective. |
| Classify.RecencyClassIntervals | tarefa_mod31.py:30-38 | With ordered thresholds, the recency class is A exactly on (-inf, q25], B exactly on (q25, q50], C exactly on (q50, q75] and D exactly on (q75, +inf). The classes form four contiguous buckets with no gap and no overlap, and a value equal to a threshold goes to the better class. |
| Classify.FreqValClassIntervals | tarefa_mod31.py:41-49 | The same four intervals in reverse, D to A, for frequency and value: a value equal to q25 is D. |
| Classify.FreqValIsMirroredRecency | tarefa_mod31.py:30-49 | For any thresholds, the frequency/value class is the recency class mirrored (A with D, B with C). The two classifiers are one step function read in opposite directions. |
| Classify.RecencyClassMonotone | tarefa_mod31.py:30-38 | A larger recency never gets a better class, for any thresholds, ordered or not. |
| Classify.FreqValClassMonotone | tarefa_mod31.py:41-49 | A larger frequency or value never gets a worse class. |
| Classify.GradeOf | tarefa_mod31.py:110 | Reading a letter back gives the class that has that letter, or nothing for a character other than A, B, C, D. |
| Classify.DecodeCode | tarefa_mod31.py:110 | A segment code is three characters long. It decodes to the R, F, V classes it was built from, in that order. |
| Classify.CodeDecode | tarefa_mod31.py:110 | Any string that decodes is the code of the triple it decodes to. Together with DecodeCode this makes code and triple a bijection. |
| Classify.CodeInjective | tarefa_mod31.py:110 | Different class triples give different codes. |
| Actions.ActionFor | tarefa_mod31.py:113-123 | The `.map` lookup gives an action exactly for the eight curated codes AAA, AAB, ABB, BBB, BBC, CCC, CCD, DDD, and nothing for any other string. No action text equals the "not found" message. |
| Actions.RecommendedAction | tarefa_mod31.py:135 | The `.get` lookup is total: it gives the "not found" message exactly when the code is not curated, and otherwise the same action as the `.map` lookup. |
| Actions.CuratedCodesDecode | tarefa_mod31.py:113-122 | Every key of the action table is a well-formed segment code whose triple is one of the eight curated triples. |
| Actions.ActionForTriple | tarefa_mod31.py:110-123 | A customer's code has an action exactly when its class triple is curated. The other 56 of the 64 triples get none. |
| Actions.ActionExamples | tarefa_mod31.py:114-135 | AAA maps to the VIP action; ABD has no action, and its lookup message is "not found". |
| Sorting.SortAsc | tarefa_mod31.py:100-101 | The column that a quantile reads, in ascending order: a sorted permutation of the column. |
| Sorting.Dedup | tarefa_mod31.py:81-82 | Drops repeated keys from a sorted key column. The result is strictly increasing and has exactly the same members. |
| Sorting.SeqMin | tarefa_mod31.py:100-101 | The minimum of a non-empty column: a member of it, no larger than any element. |
| Sorting.SeqMax | tarefa_mod31.py:100-101 | The maximum of a non-empty column: a member of it, no smaller than any element. |
| Sorting.SortAscEnds | tarefa_mod31.py:100-101 | The sorted column starts with the column's minimum and ends with its maximum. |
| Quantile.LowerRank | tarefa_mod31.py:100-101 | The rank floor((n - 1) * p) used by linear interpolation: a valid index, at or just below the quantile's position. |
| Quantile.QuantileSorted | tarefa_mod31.py:100-101 | The linear-interpolation p-quantile of a sorted column. It lies between the values at ranks floor(h) and floor(h) + 1, where h = (n - 1) * p. |
| Quantile.QuantileOf | tarefa_mod31.py:100-101 | Definition of the p-quantile of an unsorted column; characterised by QuantileWithinRange and, through SortAsc, QuantileMonotone. |
| Quantile.QuantileWithinRange | tarefa_mod31.py:100-101 | Any p-quantile of a non-empty column lies between the column's minimum and maximum. |
| Quantile.QuantileMonotone | tarefa_mod31.py:100-101 | A larger p never gives a smaller quantile. |
| Quantile.ColumnThresholds | tarefa_mod31.py:100-101 | The three quartiles of a non-empty column satisfy min <= q25 <= q50 <= q75 <= max. This is the ordering the classifiers' interval lemmas require. |
| Quantile.MinimumWithinFirstQuartile | tarefa_mod31.py:100-101 | A smallest element of a column lies at or below the column's 0.25 quantile. |
| Quantile.ConstantColumnThresholds | tarefa_mod31.py:100-101 | A constant column gives that constant for all three thresholds, so ties between thresholds are possible. |
| Quantile.FourValueQuartiles | tarefa_mod31.py:100-101 | For the column 1, 2, 3, 4 the quartiles are 1.75, 2.5 and 3.25, as pandas' interpolation gives. |
| Aggregate.Customers | tarefa_mod31.py:81-82 | The group keys: strictly increasing, and containing exactly the customers that have a line in the log. |
| Aggregate.LastPurchase | tarefa_mod31.py:81-83 | The group maximum of the purchase day: a day on which the customer bought, and no earlier than any of the customer's purchase days. |
| Aggregate.OrderIds | tarefa_mod31.py:88-89 | The customer's order ids: exactly the ids of the customer's lines. Frequency is the size of this set. |
| Aggregate.Frequency | tarefa_mod31.py:88-89 | Definition of `nunique` of the order ids; characterised by FrequencyBounds and FrequencyAppend. |
| Aggregate.FrequencyBounds | tarefa_mod31.py:88-89 | A customer of the log has a frequency of at least 1. The frequency never exceeds the customer's number of lines. |
| Aggregate.OrderIdsAppend | tarefa_mod31.py:88-89 | A new line adds its order id to its own customer's order ids only. |
| Aggregate.FrequencyAppend | tarefa_mod31.py:88-89 | A further line of an already counted order leaves Frequency unchanged. A line of a new order raises it by one. Other customers are unaffected. |
| Aggregate.Value | tarefa_mod31.py:92-93 | The sum of the customer's amounts. It is 0 for a customer with no line, and non-negative when no amount is negative. |
| Aggregate.ValueAppend | tarefa_mod31.py:92-93 | Appending a line adds exactly its amount to its own customer's Value and changes no other customer's. |
| Aggregate.LastPurchaseAppend | tarefa_mod31.py:81-85 | A new line moves its customer's last purchase day to the later of the two days. An older purchase leaves it, and so the recency, unchanged. Other customers are unaffected. |
| Aggregate.Recency | tarefa_mod31.py:84-85 | Definition of now minus the last purchase day; characterised by LastPurchaseAppend and RecencyNonNegative. |
| Aggregate.RecencyNonNegative | tarefa_mod31.py:84-85 | When no purchase lies after now, the recency is at least 0. |
| Aggregate.Lookup | tarefa_mod31.py:96-97 | Finding a key in a group-by table: found exactly when some row has that key, and then with that row's aggregate. |
| Aggregate.Join | tarefa_mod31.py:96-97 | Definition of the two inner merges on the customer id; characterised by JoinAllFound and AggregatesPerCustomer. |
| Aggregate.Aggregates | tarefa_mod31.py:80-97 | Definition of the joined table `df_rfv`; characterised by AggregatesPerCustomer, EmptyLogAggregates and ThreeLineExample. |
| Aggregate.JoinAllFound | tarefa_mod31.py:96-97 | When every left key is found on both right sides, the inner join keeps every left row, in order, extended with the looked-up frequency and value. |
| Aggregate.LookupUniqueKey | tarefa_mod31.py:96-97 | In a table with unique keys, a key is found with its own row's aggregate. |
| Aggregate.AggregatesPerCustomer | tarefa_mod31.py:80-97 | The joined table has exactly one row per customer, in ascending id order. Each row holds the customer's last purchase day, recency = now - last day, distinct-order count and amount sum. The join loses no customer and repeats none. |
| Aggregate.EmptyLogAggregates | tarefa_mod31.py:80-97 | An empty log gives an empty aggregate table. |
| Aggregate.TwoKeys | tarefa_mod31.py:81-82 | A strictly increasing key column whose keys are exactly a < b is [a, b]. |
| Aggregate.ThreeLineKeys | tarefa_mod31.py:81-82 | Customers 1 and 2 of the worked log are its group keys, in that order. |
| Aggregate.ThreeLineRows | tarefa_mod31.py:80-93 | Lines (1, day 0, order 1, 100.00), (1, day 9, order 2, 50.00), (2, day 4, order 3, 200.00) with now = day 31 give customer 1 recency 22, frequency 2, value 150.00 and customer 2 recency 27, frequency 1, value 200.00. |
| Aggregate.ThreeLineExample | tarefa_mod31.py:80-97 | The joined table of that log is exactly two rows, customer 1 then customer 2, with those aggregates. |
| Segmentation.Quartiles | tarefa_mod31.py:100-101 | For a non-empty table, each metric's thresholds are ordered and lie between that column's minimum and maximum. |
| Segmentation.ClassifyRow | tarefa_mod31.py:104-123 | Definition of the added R, F, V, code and action columns of one row; characterised by ClassifyRowColumns and SmallestMetricsClass. |
| Segmentation.Segment | tarefa_mod31.py:76-123 | The segmented table has one row per row of the joined table; characterised further by SegmentRows, SegmentMonotone and EmptyLogSegment. |
| Segmentation.AssignSegmentColumns | tarefa_mod31.py:104-110 | Filling the R, F, V, code and action columns row by row gives, for every row, that row's classification against the given thresholds. |
| Segmentation.RunSegmentation | tarefa_mod31.py:76-123 | The pipeline computes exactly the segmented table of the log: aggregation, quartiles, then the added columns. An empty log gives an empty table. |
| Segmentation.ClassifyRowColumns | tarefa_mod31.py:104-123 | A classified row keeps its aggregate row. Its code is three characters long and decodes back to the row's R, F and V classes in that order. The row has an action exactly when its class triple is one of the eight curated segments. |
| Segmentation.SegmentRows | tarefa_mod31.py:96-123 | The segmented table has one row per customer, in ascending id order, with that customer's aggregates. Every code has length 3 and spells the row's R, F, V classes. Every action is the lookup of the row's code. |
| Segmentation.SegmentMonotone | tarefa_mod31.py:100-109 | Within one table, a customer with a recency no larger than another's never has a worse R class. A customer with more orders or more money never has a worse F or V class. |
| Segmentation.SmallestMetricsClass | tarefa_mod31.py:100-109 | In a non-empty table, the customer with the smallest recency is always R class A. The customers with the fewest orders or least money are always F or V class D. |
| Segmentation.SegmentRecencyNonNegative | tarefa_mod31.py:80-85 | When no purchase lies after now, every recency in the table is at least 0. |
| Segmentation.EmptyLogSegment | tarefa_mod31.py:76-123 | An empty log gives an empty segmented table, with no error. |
| Segmentation.SelectSegment | tarefa_mod31.py:131 | The filter keeps exactly the rows whose code equals the selected one. The result is a subsequence of the table, so table order is kept. |
| Segmentation.SelectSegmentAppend | tarefa_mod31.py:131 | Filtering distributes over concatenation: no row is reordered, dropped or repeated. |
| Segmentation.SelectedSegmentAction | tarefa_mod31.py:131-135 | Every row of a selected segment has the selected code and that code's action. For a curated code this is the action displayed for the segment. |

## Left out

- Streamlit page set-up, titles, texts, the file uploader and the segment selector (lines 10, 55-70, 126-128, 133-137): this is presentation. The selected code is a parameter of the filter. The list of codes the selector offers is not modelled.
- Reading the file with `pd.read_csv` / `pd.read_excel` (lines 74-75): this is file I/O through a library.
- Date parsing with `errors='coerce'` and the resulting empty dates (lines 76-77): every purchase day is a valid day number. So the missing-date cases are not modelled: the group maximum skipping empty dates, the empty recency it can produce, and how that empty recency flows into the quantiles and the comparisons.
- `datetime.now()` (line 80): the clock is a parameter. Time of day is not modelled. Recency is the difference of two day numbers, which matches the program's whole-day count when purchases are dated at midnight.
- Floating point: amounts are integer cents, and quantiles and thresholds are exact reals. Float rounding in pandas' sum and quantile is not modelled.
- Customer and order ids are integers. Ids of any other type pandas can group and sort are not modelled.
- Aggregate.Join: keeps the first right row with a matching key rather than every one. The right tables come from group-bys and have one row per key, so this makes no difference. The two successive merges are one function with two lookups.
- The CSV and Excel export helpers `convert_df` / `to_excel` and their caching (lines 15-27, 162-164): these are serialisation by libraries.
- Histograms and the bar chart (lines 140-159, 173-179): these are presentation.
- The per-action customer count with `value_counts` (lines 168-171): it only feeds a display table.
- The top-level exception handler (lines 181-182): it only reports errors on the page. Every modelled operation is total on its inputs.
