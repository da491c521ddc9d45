/**
 * One render of the dashboard page, from the two fetched tables and the
 * widget settings to the data behind the histogram, the bar chart, the table
 * and the word cloud.
 */
module Dashboard {
  import opened Sequences
  import opened Sentiment
  import opened Tables
  import opened Keywords

  const DateRangeMessage: string := "Please select both start and end dates."
  const NoKeywordsMessage: string := "No keywords found to generate the word cloud."

  /** One point of the sentiment histogram: a review's score and the colour it is drawn in. */
  datatype HistogramPoint = HistogramPoint(score: real, color: string)

  /** The word-cloud panel: an image drawn from the frequencies, or an informational message. */
  datatype WordCloudPanel = Cloud(frequencies: map<string, int>) | NoKeywords(message: string)

  /** What a completed render shows. */
  datatype Page = Page(
    histogram: seq<HistogramPoint>,
    topKeywords: seq<KeywordTotal>,
    table: seq<Review>,
    categoryStyles: seq<string>,
    wordCloud: WordCloudPanel)

  /** A render either stops after the date-range message or shows a page. */
  datatype Outcome = Halted(message: string) | Rendered(page: Page)

  /** The table's sort key: `ascending=False` on the timestamp. */
  function NegatedDate(row: Review): int
  {
    -row.parsedDate
  }

  /** `filtered_data['sentiment'].apply(color_for_value)`: one coloured point per review, in table order. */
  function HistogramPoints(rows: seq<Review>): (points: seq<HistogramPoint>)
    ensures |points| == |rows|
    ensures forall i :: 0 <= i < |rows| ==>
      points[i].score == rows[i].sentiment && points[i].color == ColorForValue(rows[i].sentiment)
  {
    seq(|rows|, i requires 0 <= i < |rows| => HistogramPoint(rows[i].sentiment, ColorForValue(rows[i].sentiment)))
  }

  /** `style.map(sentiment_color, subset=["sentiment_category"])`: one cell style per table row. */
  function CategoryStyles(rows: seq<Review>): (styles: seq<string>)
    ensures |styles| == |rows|
    ensures forall i :: 0 <= i < |rows| ==> styles[i] == SentimentColor(rows[i].category)
  {
    seq(|rows|, i requires 0 <= i < |rows| => SentimentColor(rows[i].category))
  }

  /** No row is older than a row after it. */
  ghost predicate NewestFirst(rows: seq<Review>)
  {
    forall i, j :: 0 <= i < j < |rows| ==> rows[i].parsedDate >= rows[j].parsedDate
  }

  /** `sort_values(by='parsed_date', ascending=False)`: newest first, ties in no promised order. */
  function SortNewestFirst(rows: seq<Review>): (sorted: seq<Review>)
    ensures multiset(sorted) == multiset(rows)
    ensures NewestFirst(sorted)
  {
    var sorted := SortBy(rows, NegatedDate);
    assert SortedBy(sorted, NegatedDate);
    sorted
  }

  /**
   * The keyword rows that reach the charts: stoplisted rows are gone, every
   * row is inside the window, every other row of the fetched table is kept,
   * and their order is the table's.
   */
  lemma SurvivingKeywordRows(keywords: seq<KeywordRow>, c: Criteria)
    ensures var kept := FilterKeywords(DropStoplisted(keywords), c);
      && (forall row :: row in kept ==>
            row.keyword !in Stoplist && InDateWindow(c, row.parsedDate) && InScoreRange(c, row.sentiment))
      && (forall row {:trigger multiset(kept)[row]} ::
            multiset(kept)[row] ==
              if row.keyword !in Stoplist && InDateWindow(c, row.parsedDate) && InScoreRange(c, row.sentiment)
              then multiset(keywords)[row] else 0)
      && IsSubsequence(kept, keywords)
  {
    var unstopped := DropStoplisted(keywords);
    var kept := FilterKeywords(unstopped, c);
    SubsequenceTransitive(kept, unstopped, keywords);
    forall row | row in kept
      ensures row.keyword !in Stoplist
    {
      assert multiset(kept)[row] > 0;
    }
  }

  /** The table shows only reviews inside the window. */
  lemma TableRowsInWindow(reviews: seq<Review>, c: Criteria)
    ensures forall row :: row in SortNewestFirst(FilterReviews(reviews, c)) ==>
      InDateWindow(c, row.parsedDate) && InScoreRange(c, row.sentiment)
  {
    var sorted := SortNewestFirst(FilterReviews(reviews, c));
    forall row | row in sorted
      ensures InDateWindow(c, row.parsedDate) && InScoreRange(c, row.sentiment)
    {
      assert row in multiset(sorted);
    }
  }

  /**
   * Every bar of the chart is a keyword that is not stoplisted, with the sum
   * of the counts of its surviving rows.
   */
  lemma ChartHasNoStoplisted(keywords: seq<KeywordRow>, c: Criteria)
    ensures var kept := FilterKeywords(DropStoplisted(keywords), c);
      forall e :: e in TopKeywords(kept) ==> e.keyword !in Stoplist && e.total == KeywordSum(kept, e.keyword)
  {
    var kept := FilterKeywords(DropStoplisted(keywords), c);
    SurvivingKeywordRows(keywords, c);
    TopKeywordsAreTotals(kept);
    forall e | e in TopKeywords(kept) ensures e.keyword !in Stoplist {
      var row :| row in kept && row.keyword == e.keyword;
    }
  }

  /** The histogram has one point per shown review, in the review's order, coloured by its score. */
  ghost predicate HistogramShows(points: seq<HistogramPoint>, shown: seq<Review>)
  {
    && |points| == |shown|
    && forall i :: 0 <= i < |shown| ==>
         points[i].score == shown[i].sentiment && points[i].color == ColorForValue(shown[i].sentiment)
  }

  /**
   * The table holds the shown reviews newest first, all inside the window,
   * with each category cell styled by its label.
   */
  ghost predicate TableShows(table: seq<Review>, styles: seq<string>, shown: seq<Review>, c: Criteria)
  {
    && multiset(table) == multiset(shown)
    && NewestFirst(table)
    && (forall row :: row in table ==> InDateWindow(c, row.parsedDate) && InScoreRange(c, row.sentiment))
    && |styles| == |table|
    && forall i :: 0 <= i < |table| ==> styles[i] == SentimentColor(table[i].category)
  }

  /**
   * The bar chart shows the top ten keywords of the kept rows, in any order
   * among equal totals, none of them stoplisted.
   */
  ghost predicate ChartShows(bars: seq<KeywordTotal>, kept: seq<KeywordRow>)
  {
    && IsTopTen(bars, kept)
    && forall e :: e in bars ==> e.keyword !in Stoplist
  }

  /** A word cloud of the kept rows' frequencies exactly when some row was kept, else the message. */
  ghost predicate CloudShows(panel: WordCloudPanel, kept: seq<KeywordRow>)
  {
    && (panel.Cloud? <==> kept != [])
    && (panel.Cloud? ==> panel.frequencies == WordFreq(kept))
    && (panel.NoKeywords? ==> panel.message == NoKeywordsMessage)
  }

  /**
   * What a page rendered with settings `c` shows, given the reviews `shown`
   * and the keyword rows `kept` that passed the filters.
   */
  ghost predicate ShowsPage(page: Page, shown: seq<Review>, kept: seq<KeywordRow>, c: Criteria)
  {
    && HistogramShows(page.histogram, shown)
    && TableShows(page.table, page.categoryStyles, shown, c)
    && ChartShows(page.topKeywords, kept)
    && CloudShows(page.wordCloud, kept)
  }

  /**
   * The whole page for one set of widget values. Nothing is computed unless
   * the date picker holds exactly two days; otherwise the render stops with
   * the date-range message.
   */
  method Render(reviews: seq<Review>, keywords: seq<KeywordRow>, minScore: real, maxScore: real, dateRange: seq<int>)
    returns (out: Outcome)
    ensures out.Halted? <==> |dateRange| != 2
    ensures out.Halted? ==> out.message == DateRangeMessage
    ensures out.Rendered? ==> |dateRange| == 2
    ensures out.Rendered? ==>
      var c := Criteria(minScore, maxScore, dateRange[0], dateRange[1]);
      ShowsPage(out.page, FilterReviews(reviews, c), FilterKeywords(DropStoplisted(keywords), c), c)
  {
    var keywordsFiltered := DropStoplisted(keywords);
    if |dateRange| != 2 {
      return Halted(DateRangeMessage);
    }
    var c := Criteria(minScore, maxScore, dateRange[0], dateRange[1]);
    var filteredData := FilterReviews(reviews, c);
    keywordsFiltered := FilterKeywords(keywordsFiltered, c);

    var histogram := HistogramPoints(filteredData);
    var topKeywords := TopKeywords(keywordsFiltered);
    var sortedData := SortNewestFirst(filteredData);
    var categoryStyles := CategoryStyles(sortedData);
    var wordFreq := WordFreq(keywordsFiltered);
    var panel := if |wordFreq| > 0 then Cloud(wordFreq) else NoKeywords(NoKeywordsMessage);

    TableRowsInWindow(reviews, c);
    ChartHasNoStoplisted(keywords, c);
    TopKeywordsIsTopTen(keywordsFiltered);
    WordFreqEmptyIffNoRows(keywordsFiltered);
    var page := Page(histogram, topKeywords, sortedData, categoryStyles, panel);
    assert ShowsPage(page, filteredData, keywordsFiltered, c);
    out := Rendered(page);
  }
}
