# London Eye reviews dashboard — a Dafny model of its data rules

The dashboard is a single Streamlit script (`app.py`). It reads two tables, a
reviews table with sentiment scores and a keyword-count table. It lets the
user pick a sentiment-score interval and a date range, then shows four views:
a sentiment histogram, a top-10 keyword bar chart, a review table sorted newest
first, and a word cloud. Almost all of the script is UI and library glue. This
project models the rules the script defines itself and proves what they
guarantee:

- **Sentiment colouring** (`sentiment.dfy`, module `Sentiment`). This is the
  three-band threshold classifier on the score. Both -0.2 and 0.2 count as
  neutral. It also has the label-to-style lookup with its black fallback.
- **Row filtering** (`tables.dfy`, module `Tables`). The stoplist removes the
  keyword rows `London` and `London Eye`. Then the inclusive date window and the
  inclusive score interval are applied to both tables.
- **Keyword aggregation** (`keywords.dfy`, module `Keywords`). Rows are grouped
  by keyword and their counts summed. The result is sorted ascending by total
  and the last ten are kept. The word-cloud frequencies come from
  `dict(zip(...))`, where a later row overwrites an earlier one.
- **The render** (`dashboard.dfy`, module `Dashboard`). One method threads the
  steps in the script's order. It stops with the date-range message unless the
  date picker holds exactly two days. It sorts the table newest first, and it
  draws the word cloud only when some keyword row survived.
- **Generic steps** (`sequences.dfy`, module `Sequences`). Boolean-mask
  selection (`df[mask]`), sorting by a key, and `tail(n)`, with their
  order-preservation, permutation and idempotence facts.

Scores are `real`. Timestamps are `int` seconds, already parsed and
timezone-naive. The date picker's values are calendar days. Converting a day to
a timestamp, as `pd.to_datetime(day)` does, gives that day's midnight
(`Tables.MidnightOf`). The derived `date` column is `Tables.DayOf`.

Three behaviours of the code are worth stating outright:

- **Date window.** The code compares each row's full timestamp with the
  midnights of the two chosen days. So a row stamped on the end day after
  midnight is left out (`Tables.EndDayAfterMidnightExcluded`,
  `Tables.DateWindowInDays`). Choosing the data's own first and last days
  therefore does not always give back the whole table: the review filter
  returns the whole table exactly when every timestamp lies between the two
  midnights and every score lies in the interval
  (`Tables.FullWindowKeepsAllReviews`).
- **Word-cloud weights.** `dict(zip(...))` weights a repeated keyword by the
  count of its last row, not by the sum of its counts
  (`Keywords.WordFreqIsNotTheTotal`), whereas the bar chart sums them.
- **Tie order.** `sort_values` uses a non-stable quicksort by default, and
  `groupby` orders keys alphabetically before that sort. The model groups in
  first-occurrence order and sorts by insertion. The page's contract
  (`Dashboard.Render`) states only facts that hold for every order among
  equal keys: which keywords get a bar when equal totals straddle tenth place
  is left open (`Keywords.IsTopTen`).

## Model

| member | source | states |
|---|---|---|
| `Sentiment.ColorForValue` | app.py:39-44 | red exactly when the score is below -0.2; amber exactly when it is between -0.2 and 0.2, both included; green exactly when it is above 0.2 |
| `Sentiment.SentimentColor` | app.py:46-51 | `Positive`, `Neutral` and `Negative` get the green, amber and red style; any other label gets `color: black` |
| `Sentiment.StyleAgreesWithPointColor` | app.py:39-51 | if a row's label is the three-band label of its score (`CategoryOf`, the labelling the upstream table is assumed to use), its table cell is styled in the colour of its histogram point |
| `Sentiment.ThreeReviewScenario` | app.py:39-44 | scores -0.5, 0.0 and 0.9 get red, amber and green |
| `Sequences.Filter` | app.py:74 | mask selection keeps exactly the elements that pass, each as often as in the input, as an order-preserving subsequence |
| `Sequences.SubsequenceTransitive` | app.py:95-98 | a subsequence of a subsequence is a subsequence, so chained filters keep the table's order |
| `Sequences.FilterKeepsAll` | app.py:95-98 | a mask that every row passes returns the table unchanged |
| `Sequences.FilterExtensional` | app.py:95-98 | masks that agree on every row select the same rows |
| `Sequences.FilterFuse` | app.py:95-98 | two successive masks select exactly what their conjunction selects |
| `Sequences.FilterIdempotent` | app.py:74 | selecting twice with one mask is selecting once |
| `Sequences.Insert` | app.py:113 | inserting into a sorted sequence keeps it sorted and adds exactly that element |
| `Sequences.SortBy` | app.py:124 | the result is sorted ascending by the key and is a permutation of the input |
| `Sequences.TakeLast` | app.py:113 | `tail(n)` is the suffix of length min(n, length) |
| `Tables.DropStoplisted` | app.py:74 | no kept row has keyword `London` or `London Eye`; every other row is kept as often as it occurs, in the original order |
| `Tables.DropStoplistedIdempotent` | app.py:74 | applying the stoplist again changes nothing |
| `Tables.ApplyCriteria` | app.py:95-98 | every kept row has its timestamp between the two midnights and its score in the interval, both ends included; every such row is kept, in order |
| `Tables.CriteriaIsConjunction` | app.py:95-98 | the date mask followed by the score mask selects exactly what the conjunction of the two selects |
| `Tables.CriteriaIdempotent` | app.py:95-98 | filtering a filtered table with the same settings changes nothing |
| `Tables.CriteriaKeepsAll` | app.py:95-98 | a table already inside the window comes through whole |
| `Tables.DateWindowInDays` | app.py:95-96 | a timestamp passes exactly when its day is on or after the start day, and it is either before the end day or exactly the end day's midnight |
| `Tables.SurvivorDayInRange` | app.py:95-96 | every row that passes the date window has its calendar date between the chosen days |
| `Tables.EndDayAfterMidnightExcluded` | app.py:95-96 | a row stamped on the end day after midnight is filtered out |
| `Tables.FilterReviews` | app.py:95-97 | the review rows left are exactly the input rows inside both windows, in their original order |
| `Tables.FilterKeywords` | app.py:96-98 | the keyword rows left are exactly the input rows inside both windows, in their original order |
| `Tables.FilterReviewsIdempotent` | app.py:95-97 | re-filtering the reviews with the same settings changes nothing |
| `Tables.FilterKeywordsIdempotent` | app.py:96-98 | re-filtering the keyword rows with the same settings changes nothing |
| `Tables.FullWindowKeepsAllReviews` | app.py:95-97 | the review filter leaves the table whole exactly when the window covers every review's timestamp and score |
| `Keywords.AddCount` | app.py:113 | adding one row's count changes only that keyword's total, adds the keyword if new and keeps keywords distinct |
| `Keywords.AddCountAddsToSum` | app.py:113 | adding one row's count to a grouped table adds exactly that count to the sum of totals |
| `Keywords.Group` | app.py:113 | one entry per keyword of the table, whose total is the sum of that keyword's counts |
| `Keywords.GroupKeepsSum` | app.py:113 | the grouped totals add up to the table's total count |
| `Keywords.EntryIsTotalFor` | app.py:113 | in a grouped table an entry's total is the total recorded for its keyword |
| `Keywords.DistinctCardinality` | app.py:113 | a grouped table with no keyword repeated has as many entries as keywords |
| `Keywords.KeywordsAtMostEntries` | app.py:113 | a grouped table never has more keywords than entries |
| `Keywords.CardinalityDistinct` | app.py:113 | a grouped table with as many keywords as entries repeats no keyword |
| `Keywords.PermutationKeepsKeywords` | app.py:113 | reordering the grouped table keeps its entries, its keywords and their distinctness |
| `Keywords.SortByTotal` | app.py:113 | the grouped table, reordered ascending by total |
| `Keywords.TopKeywords` | app.py:113 | group, sum, sort ascending and `tail(10)`: at most ten bars, each an entry of the grouped table; its full contract is `TopKeywordsIsTopTen` with `TopKeywordsAreTotals`, `TopKeywordsDistinct`, `TopKeywordsSorted`, `TopKeywordsLength` and `TopKeywordsOmittedAreSmaller` |
| `Keywords.TopKeywordsIsTopTen` | app.py:113 | the bars meet every promise independent of tie order (`IsTopTen`): distinct keywords, ascending totals, min(10, number of keywords) bars, each total the sum of its keyword's counts, and no omitted keyword totalling more than a shown one |
| `Keywords.TopKeywordsAreTotals` | app.py:113 | each bar is a keyword of the filtered rows, with the sum of that keyword's counts |
| `Keywords.TopKeywordsDistinct` | app.py:113 | no keyword has two bars |
| `Keywords.TopKeywordsSorted` | app.py:113 | the bars ascend by total |
| `Keywords.TailSorted` | app.py:113 | `tail(n)` of a table ascending by total still ascends |
| `Keywords.TailKeepsDistinct` | app.py:113 | the tail of a grouped table with distinct keywords has distinct keywords |
| `Keywords.TopKeywordsLength` | app.py:113 | there are min(10, number of distinct keywords) bars |
| `Keywords.TopKeywordsOmittedAreSmaller` | app.py:113 | a keyword not shown totals no more than any keyword shown |
| `Keywords.OmittedBelowTail` | app.py:113 | in a table ascending by total, an entry whose keyword is missing from `tail(n)` totals no more than any entry of the tail |
| `Keywords.InsertAddsTotal` | app.py:113 | inserting an entry into the sorted table adds its total to the sum |
| `Keywords.SortKeepsSumTotals` | app.py:113 | sorting the grouped table keeps the sum of totals |
| `Keywords.ChartKeepsGrandTotal` | app.py:113 | with at most ten keywords the bars add up to the rows' total count |
| `Keywords.WordFreq` | app.py:141 | the map's keys are exactly the rows' keywords; each keyword maps to the count of its last row (`LastOccurrence`) |
| `Keywords.WordFreqEmptyIffNoRows` | app.py:141-142 | the frequency map is empty exactly when no keyword row is left |
| `Keywords.WordFreqIsNotTheTotal` | app.py:141 | rows ("Eye", 5) and ("Eye", 3) weigh "Eye" 3 in the word cloud but 8 in the chart |
| `Keywords.AggregationScenario` | app.py:74-113 | rows (Eye 5), (Eye 3), (London 100), (queue 2) give the bars (queue 2), (Eye 8) |
| `Keywords.ScenarioStoplist` | app.py:74 | the stoplist drops exactly the `London` row of that example |
| `Keywords.ScenarioGroup` | app.py:113 | grouping (Eye 5), (Eye 3), (queue 2) gives (Eye 8), (queue 2) |
| `Dashboard.HistogramPoints` | app.py:107 | one point per review, in table order, carrying the review's score and the colour of that score |
| `Dashboard.CategoryStyles` | app.py:126 | one style per table row, the style of that row's category label |
| `Dashboard.SortNewestFirst` | app.py:124 | the table is a permutation of the filtered reviews, with timestamps non-increasing |
| `Dashboard.SurvivingKeywordRows` | app.py:74-98 | the keyword rows that reach the charts are exactly the fetched rows that are not stoplisted and are inside both windows, in the fetched order |
| `Dashboard.TableRowsInWindow` | app.py:95-124 | every row in the sorted table is inside both windows |
| `Dashboard.ChartHasNoStoplisted` | app.py:74-113 | no bar shows a stoplisted keyword; each bar's total is the sum of its surviving rows' counts |
| `Dashboard.Render` | app.py:66-149 | halts with the date message exactly when the picker does not hold two days; otherwise the page satisfies `ShowsPage` for the filtered reviews and the surviving keyword rows: per-point colours (`HistogramShows`), a newest-first permutation of the filtered reviews with their label styles (`TableShows`), top-10 bars meeting `IsTopTen` for the surviving rows, none stoplisted (`ChartShows`), and a word cloud drawn exactly when a keyword row survived, else the no-keywords message (`CloudShows`) |

## Left out

- Page setup, widgets, columns, markdown, the logo and the info/stop calls (app.py:21, 59-64, 77-90, 104-149) are UI. Only which view gets which data, and the stop when the date range is incomplete, are modelled. The slider's values and the date picker's days are parameters of `Dashboard.Render`.
- The bounds of the slider ([-1, 1]) and of the date picker (the data's first and last timestamp, app.py:89-90) are widget behaviour. The model accepts any interval and any days.
- Credential lookup, the Keboola client and the `st.cache_data` fetch (app.py:23-36) are network I/O and a framework cache. The two tables are parameters.
- Parsing with `pd.to_datetime(..., format='mixed')` and `tz_localize(None)` (app.py:68, 72) is a third-party parser. Timestamps arrive as integer seconds.
- Plotly's histogram binning (21 bins) and bar rendering, the word-cloud layout, colormap and mask loading, and the matplotlib figure (app.py:53-57, 108-110, 114-116, 143-147) are library internals. The model stops at the data handed to them: the per-point colours, the bars and the frequency map.
- The table's column projection and labels (app.py:126-136) are presentation only. The model keeps whole review rows and the per-row style of the category column.
- Floating-point behaviour is not modelled. Scores are exact reals, so the constant -0.2 is the exact rational, not the nearest double. NaN comparisons and NaN keywords (which `groupby` drops) are also left out.
- Counts are unbounded integers; 64-bit overflow of the pandas sum is not modelled.
- The order among equal keys in both sorts, and `groupby`'s alphabetical key order before the sort, are not modelled. The grouped table is built in first-occurrence order; `Dashboard.Render` states only the facts that hold for every tie order.
- The `sentiment_category` column is fetched data. The model does not tie `Review.category` to the score; `Sentiment.CategoryOf` is the three-band labelling the upstream table is assumed to use, and only `Sentiment.StyleAgreesWithPointColor` relies on it.
