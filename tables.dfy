/**
 * The two tables the dashboard reads, the stoplist step applied to the
 * keyword table, and the score/date window applied identically to both
 * tables.
 *
 * Timestamps are whole seconds, timezone-naive, already parsed. The date
 * picker yields calendar days, numbered from the same epoch; converting a day
 * back to a timestamp gives its midnight.
 */
module Tables {
  import opened Sequences

  const SecondsPerDay: int := 86400

  /** A row of the reviews table (the columns the dashboard reads). */
  datatype Review = Review(
    sentiment: real,
    category: string,
    text: string,
    stars: int,
    source: string,
    parsedDate: int,
    url: string)

  /** A row of the keyword-count table. */
  datatype KeywordRow = KeywordRow(keyword: string, count: int, sentiment: real, parsedDate: int)

  /** One render's filter settings: the slider's score interval and the two chosen days. */
  datatype Criteria = Criteria(minScore: real, maxScore: real, startDay: int, endDay: int)

  /** Boilerplate keywords: the attraction's own name. */
  const Stoplist: set<string> := {"London", "London Eye"}

  /** The timestamp of a day's midnight, as a day is converted before comparing. */
  function MidnightOf(day: int): int
  {
    day * SecondsPerDay
  }

  /** The calendar day of a timestamp (the derived date column). */
  function DayOf(t: int): int
  {
    t / SecondsPerDay
  }

  /** Timestamp between the midnights of the chosen days, both included. */
  predicate InDateWindow(c: Criteria, t: int)
  {
    MidnightOf(c.startDay) <= t <= MidnightOf(c.endDay)
  }

  /** Score within the slider's interval, both ends included. */
  predicate InScoreRange(c: Criteria, score: real)
  {
    c.minScore <= score <= c.maxScore
  }

  /** The stoplist step's mask: the row's keyword is not boilerplate. */
  predicate NotStoplisted(row: KeywordRow)
  {
    row.keyword !in Stoplist
  }

  /**
   * Removes the stoplisted keyword rows, keeping every other row in its
   * original order.
   */
  function DropStoplisted(rows: seq<KeywordRow>): (kept: seq<KeywordRow>)
    ensures forall row :: row in kept ==> row.keyword != "London" && row.keyword != "London Eye"
    ensures forall row {:trigger multiset(kept)[row]} ::
      multiset(kept)[row] == if row.keyword in Stoplist then 0 else multiset(rows)[row]
    ensures IsSubsequence(kept, rows)
  {
    Filter(rows, NotStoplisted)
  }

  /**
   * The filter block for one table: first the date window, then the score
   * range, over the table's own date and score columns.
   */
  function ApplyCriteria<T(!new)>(rows: seq<T>, c: Criteria, dateOf: T -> int, scoreOf: T -> real): (kept: seq<T>)
    ensures forall row :: row in kept ==> InDateWindow(c, dateOf(row)) && InScoreRange(c, scoreOf(row))
    ensures forall row {:trigger multiset(kept)[row]} ::
      multiset(kept)[row] ==
        if InDateWindow(c, dateOf(row)) && InScoreRange(c, scoreOf(row)) then multiset(rows)[row] else 0
    ensures IsSubsequence(kept, rows)
  {
    var byDate := Filter(rows, (row: T) => InDateWindow(c, dateOf(row)));
    var byScore := Filter(byDate, (row: T) => InScoreRange(c, scoreOf(row)));
    SubsequenceTransitive(byScore, byDate, rows);
    assert forall row :: row in byScore ==> row in byDate by {
      forall row | row in byScore ensures row in byDate {
        assert multiset(byScore)[row] > 0;
      }
    }
    byScore
  }

  /** The two successive masks select exactly as their conjunction. */
  lemma CriteriaIsConjunction<T(!new)>(rows: seq<T>, c: Criteria, dateOf: T -> int, scoreOf: T -> real)
    ensures ApplyCriteria(rows, c, dateOf, scoreOf)
         == Filter(rows, (row: T) => InDateWindow(c, dateOf(row)) && InScoreRange(c, scoreOf(row)))
  {
    var p := (row: T) => InDateWindow(c, dateOf(row));
    var q := (row: T) => InScoreRange(c, scoreOf(row));
    FilterFuse(rows, p, q);
    FilterExtensional(rows, x => p(x) && q(x),
      (row: T) => InDateWindow(c, dateOf(row)) && InScoreRange(c, scoreOf(row)));
  }

  /** Filtering an already filtered table with the same settings changes nothing. */
  lemma CriteriaIdempotent<T(!new)>(rows: seq<T>, c: Criteria, dateOf: T -> int, scoreOf: T -> real)
    ensures ApplyCriteria(ApplyCriteria(rows, c, dateOf, scoreOf), c, dateOf, scoreOf)
         == ApplyCriteria(rows, c, dateOf, scoreOf)
  {
    CriteriaKeepsAll(ApplyCriteria(rows, c, dateOf, scoreOf), c, dateOf, scoreOf);
  }

  /** A table all of whose rows are inside the window comes through unchanged. */
  lemma CriteriaKeepsAll<T(!new)>(rows: seq<T>, c: Criteria, dateOf: T -> int, scoreOf: T -> real)
    requires forall row :: row in rows ==> InDateWindow(c, dateOf(row)) && InScoreRange(c, scoreOf(row))
    ensures ApplyCriteria(rows, c, dateOf, scoreOf) == rows
  {
    var p := (row: T) => InDateWindow(c, dateOf(row));
    var q := (row: T) => InScoreRange(c, scoreOf(row));
    FilterKeepsAll(rows, p);
    FilterKeepsAll(rows, q);
  }

  /**
   * Which timestamps the date window admits, in calendar days: every time of
   * the start day and of the days up to the end day, but of the end day only
   * its midnight.
   */
  lemma DateWindowInDays(c: Criteria, t: int)
    ensures InDateWindow(c, t) <==>
      c.startDay <= DayOf(t) && (DayOf(t) < c.endDay || t == MidnightOf(c.endDay))
  {
    var d := DayOf(t);
    assert MidnightOf(d) <= t < MidnightOf(d + 1);
    if InDateWindow(c, t) {
      assert c.startDay * SecondsPerDay <= t < (d + 1) * SecondsPerDay;
      assert c.startDay < d + 1;
      assert d * SecondsPerDay <= t <= c.endDay * SecondsPerDay;
      assert d <= c.endDay;
    }
    if c.startDay <= d {
      assert c.startDay * SecondsPerDay <= d * SecondsPerDay;
    }
    if d < c.endDay {
      assert (d + 1) * SecondsPerDay <= c.endDay * SecondsPerDay;
    }
  }

  /** Rows the window keeps carry a calendar date between the chosen days. */
  lemma SurvivorDayInRange(c: Criteria, t: int)
    requires InDateWindow(c, t)
    ensures c.startDay <= DayOf(t) <= c.endDay
  {
    DateWindowInDays(c, t);
  }

  /** A row stamped on the end day after midnight is filtered out. */
  lemma EndDayAfterMidnightExcluded(c: Criteria, t: int)
    requires DayOf(t) == c.endDay && t != MidnightOf(c.endDay)
    ensures !InDateWindow(c, t)
  {
    DateWindowInDays(c, t);
  }

  /** The date and score filter applied to the reviews table. */
  function FilterReviews(rows: seq<Review>, c: Criteria): (kept: seq<Review>)
    ensures forall row :: row in kept ==> InDateWindow(c, row.parsedDate) && InScoreRange(c, row.sentiment)
    ensures forall row {:trigger multiset(kept)[row]} ::
      multiset(kept)[row] ==
        if InDateWindow(c, row.parsedDate) && InScoreRange(c, row.sentiment) then multiset(rows)[row] else 0
    ensures IsSubsequence(kept, rows)
  {
    ApplyCriteria(rows, c, (row: Review) => row.parsedDate, (row: Review) => row.sentiment)
  }

  /** The date and score filter applied to the keyword table. */
  function FilterKeywords(rows: seq<KeywordRow>, c: Criteria): (kept: seq<KeywordRow>)
    ensures forall row :: row in kept ==> InDateWindow(c, row.parsedDate) && InScoreRange(c, row.sentiment)
    ensures forall row {:trigger multiset(kept)[row]} ::
      multiset(kept)[row] ==
        if InDateWindow(c, row.parsedDate) && InScoreRange(c, row.sentiment) then multiset(rows)[row] else 0
    ensures IsSubsequence(kept, rows)
  {
    ApplyCriteria(rows, c, (row: KeywordRow) => row.parsedDate, (row: KeywordRow) => row.sentiment)
  }

  /** Re-applying the review filter with the same settings changes nothing. */
  lemma FilterReviewsIdempotent(rows: seq<Review>, c: Criteria)
    ensures FilterReviews(FilterReviews(rows, c), c) == FilterReviews(rows, c)
  {
    CriteriaIdempotent(rows, c, (row: Review) => row.parsedDate, (row: Review) => row.sentiment);
  }

  /** Re-applying the keyword filter with the same settings changes nothing. */
  lemma FilterKeywordsIdempotent(rows: seq<KeywordRow>, c: Criteria)
    ensures FilterKeywords(FilterKeywords(rows, c), c) == FilterKeywords(rows, c)
  {
    CriteriaIdempotent(rows, c, (row: KeywordRow) => row.parsedDate, (row: KeywordRow) => row.sentiment);
  }

  /**
   * The review filter gives back the whole table exactly when every review's
   * timestamp and score lie inside the window.
   */
  lemma FullWindowKeepsAllReviews(rows: seq<Review>, c: Criteria)
    ensures FilterReviews(rows, c) == rows <==>
      forall row :: row in rows ==> InDateWindow(c, row.parsedDate) && InScoreRange(c, row.sentiment)
  {
    if forall row :: row in rows ==> InDateWindow(c, row.parsedDate) && InScoreRange(c, row.sentiment) {
      CriteriaKeepsAll(rows, c, (row: Review) => row.parsedDate, (row: Review) => row.sentiment);
    }
  }

  /** Applying the stoplist a second time changes nothing. */
  lemma DropStoplistedIdempotent(rows: seq<KeywordRow>)
    ensures DropStoplisted(DropStoplisted(rows)) == DropStoplisted(rows)
  {
    FilterIdempotent(rows, NotStoplisted);
  }
}
