/**
 * What the dashboard derives from the filtered keyword rows: the per-keyword
 * totals behind the top-10 bar chart and the keyword-to-count map behind the
 * word cloud.
 */
module Keywords {
  import opened Sequences
  import opened Tables

  /** One row of the grouped table: a keyword and the sum of its counts. */
  datatype KeywordTotal = KeywordTotal(keyword: string, total: int)

  /** How many bars the chart shows. */
  const TopCount: nat := 10

  /** The keywords that occur in a table of keyword rows. */
  ghost function RowKeywords(rows: seq<KeywordRow>): set<string>
  {
    set row | row in rows :: row.keyword
  }

  /** The keywords of a grouped table. */
  ghost function GroupKeywords(g: seq<KeywordTotal>): set<string>
  {
    set e | e in g :: e.keyword
  }

  /** No keyword appears twice in a grouped table. */
  ghost predicate DistinctKeywords(g: seq<KeywordTotal>)
  {
    forall i, j :: 0 <= i < j < |g| ==> g[i].keyword != g[j].keyword
  }

  /** Reference definition: the sum of the counts of the rows with keyword `k`. */
  ghost function KeywordSum(rows: seq<KeywordRow>, k: string): int
    decreases |rows|
  {
    if rows == [] then 0
    else
      var last := rows[|rows| - 1];
      KeywordSum(rows[..|rows| - 1], k) + (if last.keyword == k then last.count else 0)
  }

  /** The sum of all counts of a table. */
  ghost function SumCounts(rows: seq<KeywordRow>): int
    decreases |rows|
  {
    if rows == [] then 0 else SumCounts(rows[..|rows| - 1]) + rows[|rows| - 1].count
  }

  /** The sum of all totals of a grouped table. */
  ghost function SumTotals(g: seq<KeywordTotal>): int
    decreases |g|
  {
    if g == [] then 0 else g[0].total + SumTotals(g[1..])
  }

  /** The total of the first entry for `k` in a grouped table, 0 when there is none. */
  function TotalFor(g: seq<KeywordTotal>, k: string): int
    decreases |g|
  {
    if g == [] then 0
    else if g[0].keyword == k then g[0].total
    else TotalFor(g[1..], k)
  }

  /** Adds a count to the entry for `k`, appending a new entry when `k` is not yet grouped. */
  function AddCount(g: seq<KeywordTotal>, k: string, count: int): (r: seq<KeywordTotal>)
    ensures GroupKeywords(r) == GroupKeywords(g) + {k}
    ensures DistinctKeywords(g) ==> DistinctKeywords(r)
    ensures forall k' {:trigger TotalFor(r, k')} ::
      TotalFor(r, k') == TotalFor(g, k') + (if k' == k then count else 0)
    decreases |g|
  {
    if g == [] then [KeywordTotal(k, count)]
    else
      SplitFirst(g);
      if g[0].keyword == k then
        var r := [KeywordTotal(k, g[0].total + count)] + g[1..];
        SplitFirst(r);
        assert r[1..] == g[1..];
        assert DistinctKeywords(g) ==> DistinctKeywords(r) by {
          if DistinctKeywords(g) {
            ConsDistinct(r[0], g[1..]);
          }
        }
        r
      else
        var rest := AddCount(g[1..], k, count);
        var r := [g[0]] + rest;
        SplitFirst(r);
        assert r[1..] == rest;
        assert DistinctKeywords(g) ==> DistinctKeywords(r) by {
          if DistinctKeywords(g) {
            ConsDistinct(g[0], rest);
          }
        }
        r
  }

  /** The keywords and the distinctness of a non-empty grouped table, in terms of its head and tail. */
  lemma SplitFirst(g: seq<KeywordTotal>)
    requires g != []
    ensures GroupKeywords(g) == {g[0].keyword} + GroupKeywords(g[1..])
    ensures DistinctKeywords(g) ==> DistinctKeywords(g[1..]) && g[0].keyword !in GroupKeywords(g[1..])
  {
    assert g == [g[0]] + g[1..];
    if DistinctKeywords(g) {
      forall i, j | 0 <= i < j < |g[1..]| ensures g[1..][i].keyword != g[1..][j].keyword {
        assert g[1..][i] == g[i + 1] && g[1..][j] == g[j + 1];
      }
      forall e | e in g[1..] ensures e.keyword != g[0].keyword {
        var j :| 0 <= j < |g[1..]| && g[1..][j] == e;
        assert g[j + 1] == e;
      }
    }
  }

  /** Putting an entry with a new keyword in front of a distinct grouped table keeps it distinct. */
  lemma ConsDistinct(e: KeywordTotal, g: seq<KeywordTotal>)
    requires DistinctKeywords(g) && e.keyword !in GroupKeywords(g)
    ensures DistinctKeywords([e] + g)
  {
    var r := [e] + g;
    forall i, j | 0 <= i < j < |r| ensures r[i].keyword != r[j].keyword {
      assert r[j] == g[j - 1];
      if i > 0 {
        assert r[i] == g[i - 1];
      } else {
        assert r[j] in g;
      }
    }
  }

  /**
   * `groupby('keywords')['counts'].sum()`: one entry per keyword, folding the
   * rows from the first to the last.
   */
  function Group(rows: seq<KeywordRow>): (g: seq<KeywordTotal>)
    ensures DistinctKeywords(g)
    ensures GroupKeywords(g) == RowKeywords(rows)
    ensures forall k {:trigger TotalFor(g, k)} :: TotalFor(g, k) == KeywordSum(rows, k)
    decreases |rows|
  {
    if rows == [] then []
    else
      var prefix := rows[..|rows| - 1];
      var last := rows[|rows| - 1];
      assert rows == prefix + [last];
      assert RowKeywords(rows) == RowKeywords(prefix) + {last.keyword};
      AddCount(Group(prefix), last.keyword, last.count)
  }

  /** Adding a count to a grouped table without repeated keywords adds it to the sum of totals. */
  lemma {:induction false} AddCountAddsToSum(g: seq<KeywordTotal>, k: string, count: int)
    requires DistinctKeywords(g)
    ensures SumTotals(AddCount(g, k, count)) == SumTotals(g) + count
    decreases |g|
  {
    if g != [] {
      var r := AddCount(g, k, count);
      SplitFirst(g);
      if g[0].keyword == k {
        assert r[1..] == g[1..];
      } else {
        AddCountAddsToSum(g[1..], k, count);
        assert r[1..] == AddCount(g[1..], k, count);
      }
    }
  }

  /** Grouping keeps the table's total count: the grouped totals add up to the sum of all counts. */
  lemma {:induction false} GroupKeepsSum(rows: seq<KeywordRow>)
    ensures SumTotals(Group(rows)) == SumCounts(rows)
    decreases |rows|
  {
    if rows != [] {
      var prefix := rows[..|rows| - 1];
      var last := rows[|rows| - 1];
      GroupKeepsSum(prefix);
      AddCountAddsToSum(Group(prefix), last.keyword, last.count);
    }
  }

  /** In a grouped table without repeated keywords, an entry's total is the total for its keyword. */
  lemma {:induction false} EntryIsTotalFor(g: seq<KeywordTotal>, e: KeywordTotal)
    requires DistinctKeywords(g) && e in g
    ensures e.total == TotalFor(g, e.keyword)
    decreases |g|
  {
    if g[0] != e {
      EntryIsTotalFor(g[1..], e);
    }
  }

  /** A grouped table without repeated keywords has as many entries as keywords. */
  lemma {:induction false} DistinctCardinality(g: seq<KeywordTotal>)
    requires DistinctKeywords(g)
    ensures |GroupKeywords(g)| == |g|
    decreases |g|
  {
    if g != [] {
      DistinctCardinality(g[1..]);
      assert g == [g[0]] + g[1..];
      assert GroupKeywords(g) == {g[0].keyword} + GroupKeywords(g[1..]);
    }
  }

  /** Any grouped table has at most as many keywords as entries. */
  lemma {:induction false} KeywordsAtMostEntries(g: seq<KeywordTotal>)
    ensures |GroupKeywords(g)| <= |g|
    decreases |g|
  {
    if g != [] {
      KeywordsAtMostEntries(g[1..]);
      assert g == [g[0]] + g[1..];
      assert GroupKeywords(g) == {g[0].keyword} + GroupKeywords(g[1..]);
    }
  }

  /** A grouped table with as many keywords as entries repeats no keyword. */
  lemma {:induction false} CardinalityDistinct(g: seq<KeywordTotal>)
    requires |GroupKeywords(g)| == |g|
    ensures DistinctKeywords(g)
    decreases |g|
  {
    if g != [] {
      SplitFirst(g);
      KeywordsAtMostEntries(g[1..]);
      assert g[0].keyword !in GroupKeywords(g[1..]);
      CardinalityDistinct(g[1..]);
      ConsDistinct(g[0], g[1..]);
      assert g == [g[0]] + g[1..];
    }
  }

  /** Reordering a grouped table keeps its keywords and their totals' entries. */
  lemma PermutationKeepsKeywords(a: seq<KeywordTotal>, b: seq<KeywordTotal>)
    requires multiset(a) == multiset(b)
    ensures GroupKeywords(a) == GroupKeywords(b)
    ensures forall e :: e in a <==> e in b
    ensures DistinctKeywords(a) ==> DistinctKeywords(b)
  {
    assert forall e :: e in a <==> e in b by {
      forall e ensures e in a <==> e in b {
        assert e in a <==> e in multiset(a);
        assert e in b <==> e in multiset(b);
      }
    }
    assert GroupKeywords(a) == GroupKeywords(b);
    assert |a| == |multiset(a)| == |multiset(b)| == |b|;
    if DistinctKeywords(a) {
      DistinctCardinality(a);
      CardinalityDistinct(b);
    }
  }

  /** The sort key of the grouped table. */
  function TotalOf(e: KeywordTotal): int
  {
    e.total
  }

  /** `sort_values(by='counts', ascending=True)` on the grouped table (ties in no promised order). */
  function SortByTotal(g: seq<KeywordTotal>): (r: seq<KeywordTotal>)
    ensures multiset(r) == multiset(g)
    ensures forall i, j :: 0 <= i < j < |r| ==> r[i].total <= r[j].total
  {
    var r := SortBy(g, TotalOf);
    assert SortedBy(r, TotalOf);
    r
  }

  /**
   * The bar chart's data: group by keyword, sum the counts, sort ascending
   * by total and keep the last ten entries.
   */
  function TopKeywords(rows: seq<KeywordRow>): (top: seq<KeywordTotal>)
    ensures |top| <= TopCount
    ensures forall e :: e in top ==> e in Group(rows)
  {
    var g := Group(rows);
    var sorted := SortByTotal(g);
    var top := TakeLast(sorted, TopCount);
    assert forall e :: e in top ==> e in g by {
      forall e | e in top ensures e in g {
        var q :| 0 <= q < |top| && top[q] == e;
        assert sorted[|sorted| - |top| + q] == e;
        assert e in multiset(sorted);
      }
    }
    top
  }

  /** Each bar is a keyword of the table, with the sum of the counts of that keyword's rows. */
  lemma TopKeywordsAreTotals(rows: seq<KeywordRow>)
    ensures forall e :: e in TopKeywords(rows) ==>
      e.keyword in RowKeywords(rows) && e.total == KeywordSum(rows, e.keyword)
  {
    var g := Group(rows);
    var sorted := SortByTotal(g);
    PermutationKeepsKeywords(g, sorted);
    forall e | e in TopKeywords(rows)
      ensures e.keyword in RowKeywords(rows) && e.total == KeywordSum(rows, e.keyword)
    {
      var q :| 0 <= q < |TopKeywords(rows)| && TopKeywords(rows)[q] == e;
      assert e in sorted;
      EntryIsTotalFor(g, e);
    }
  }

  /** No keyword has two bars. */
  lemma TopKeywordsDistinct(rows: seq<KeywordRow>)
    ensures DistinctKeywords(TopKeywords(rows))
  {
    var g := Group(rows);
    var sorted := SortByTotal(g);
    PermutationKeepsKeywords(g, sorted);
    TailKeepsDistinct(sorted, TopCount);
  }

  /** The bars ascend by total. */
  lemma TopKeywordsSorted(rows: seq<KeywordRow>)
    ensures forall i, j :: 0 <= i < j < |TopKeywords(rows)| ==>
      TopKeywords(rows)[i].total <= TopKeywords(rows)[j].total
  {
    TailSorted(SortByTotal(Group(rows)), TopCount);
  }

  /** The tail of a table ascending by total ascends by total. */
  lemma TailSorted(sorted: seq<KeywordTotal>, n: nat)
    requires forall i, j :: 0 <= i < j < |sorted| ==> sorted[i].total <= sorted[j].total
    ensures forall i, j :: 0 <= i < j < |TakeLast(sorted, n)| ==>
      TakeLast(sorted, n)[i].total <= TakeLast(sorted, n)[j].total
  {
    var top := TakeLast(sorted, n);
    var offset := |sorted| - |top|;
    assert top == sorted[offset..];
    forall i, j | 0 <= i < j < |top| ensures top[i].total <= top[j].total {
      assert top[i] == sorted[offset + i] && top[j] == sorted[offset + j];
    }
  }

  lemma TailKeepsDistinct(g: seq<KeywordTotal>, n: nat)
    requires DistinctKeywords(g)
    ensures DistinctKeywords(TakeLast(g, n))
  {
    var top := TakeLast(g, n);
    var offset := |g| - |top|;
    forall i, j | 0 <= i < j < |top| ensures top[i].keyword != top[j].keyword {
      assert top[i] == g[offset + i] && top[j] == g[offset + j];
    }
  }

  /** There are ten bars, or one per keyword when there are fewer keywords. */
  lemma TopKeywordsLength(rows: seq<KeywordRow>)
    ensures |TopKeywords(rows)| == if |RowKeywords(rows)| < TopCount then |RowKeywords(rows)| else TopCount
  {
    var g := Group(rows);
    DistinctCardinality(g);
    assert |SortByTotal(g)| == |multiset(SortByTotal(g))| == |multiset(g)| == |g|;
  }

  /** A keyword left out of the chart totals no more than any keyword shown. */
  lemma TopKeywordsOmittedAreSmaller(rows: seq<KeywordRow>, k: string, e: KeywordTotal)
    requires k in RowKeywords(rows) && k !in GroupKeywords(TopKeywords(rows)) && e in TopKeywords(rows)
    ensures KeywordSum(rows, k) <= e.total
  {
    var g := Group(rows);
    var sorted := SortByTotal(g);
    var f :| f in g && f.keyword == k;
    EntryIsTotalFor(g, f);
    assert f in sorted by {
      assert f in multiset(g);
    }
    OmittedBelowTail(sorted, TopCount, f, e);
  }

  /** In a table ascending by total, an entry whose keyword is not in the tail totals no more than a tail entry. */
  lemma OmittedBelowTail(sorted: seq<KeywordTotal>, n: nat, f: KeywordTotal, e: KeywordTotal)
    requires forall i, j :: 0 <= i < j < |sorted| ==> sorted[i].total <= sorted[j].total
    requires f in sorted && f.keyword !in GroupKeywords(TakeLast(sorted, n)) && e in TakeLast(sorted, n)
    ensures f.total <= e.total
  {
    var top := TakeLast(sorted, n);
    var offset := |sorted| - |top|;
    var p :| 0 <= p < |sorted| && sorted[p] == f;
    var q :| 0 <= q < |top| && top[q] == e;
    assert top[q] == sorted[offset + q];
    assert p < offset;
  }

  /**
   * What the bar chart promises whatever the order among equal totals: one
   * bar per keyword at most, ascending by total, ten bars or one per keyword
   * when there are fewer, each bar carrying its keyword's summed count, and
   * no keyword left out with a larger total than a bar shown.
   */
  ghost predicate IsTopTen(bars: seq<KeywordTotal>, rows: seq<KeywordRow>)
  {
    && DistinctKeywords(bars)
    && (forall i, j :: 0 <= i < j < |bars| ==> bars[i].total <= bars[j].total)
    && |bars| == (if |RowKeywords(rows)| < TopCount then |RowKeywords(rows)| else TopCount)
    && (forall e :: e in bars ==> e.keyword in RowKeywords(rows) && e.total == KeywordSum(rows, e.keyword))
    && (forall k, e :: k in RowKeywords(rows) && k !in GroupKeywords(bars) && e in bars ==>
          KeywordSum(rows, k) <= e.total)
  }

  /** The chart's bars meet every promise that does not depend on the order among equal totals. */
  lemma TopKeywordsIsTopTen(rows: seq<KeywordRow>)
    ensures IsTopTen(TopKeywords(rows), rows)
  {
    TopKeywordsDistinct(rows);
    TopKeywordsSorted(rows);
    TopKeywordsLength(rows);
    TopKeywordsAreTotals(rows);
    forall k, e | k in RowKeywords(rows) && k !in GroupKeywords(TopKeywords(rows)) && e in TopKeywords(rows)
      ensures KeywordSum(rows, k) <= e.total
    {
      TopKeywordsOmittedAreSmaller(rows, k, e);
    }
  }

  /** Row `i` is the last row of the table with its keyword. */
  ghost predicate LastOccurrence(rows: seq<KeywordRow>, i: int)
  {
    0 <= i < |rows| && forall j :: i < j < |rows| ==> rows[j].keyword != rows[i].keyword
  }

  /** The word cloud's frequencies: `dict(zip(keywords, counts))`, later rows overwriting earlier ones. */
  function WordFreq(rows: seq<KeywordRow>): (freq: map<string, int>)
    ensures freq.Keys == RowKeywords(rows)
    ensures forall i {:trigger LastOccurrence(rows, i)} ::
      LastOccurrence(rows, i) ==> freq[rows[i].keyword] == rows[i].count
    decreases |rows|
  {
    if rows == [] then map[]
    else
      var prefix := rows[..|rows| - 1];
      var last := rows[|rows| - 1];
      var freq := WordFreq(prefix)[last.keyword := last.count];
      assert RowKeywords(rows) == RowKeywords(prefix) + {last.keyword} by {
        assert rows == prefix + [last];
      }
      assert forall i {:trigger LastOccurrence(rows, i)} ::
        LastOccurrence(rows, i) ==> freq[rows[i].keyword] == rows[i].count
      by {
        forall i | LastOccurrence(rows, i) && i < |rows| - 1
          ensures freq[rows[i].keyword] == rows[i].count
        {
          assert prefix[i] == rows[i];
          assert rows[|rows| - 1].keyword != rows[i].keyword;
          assert LastOccurrence(prefix, i) by {
            forall j | i < j < |prefix| ensures prefix[j].keyword != prefix[i].keyword {
              assert prefix[j] == rows[j];
            }
          }
        }
      }
      freq
  }

  /** The word cloud is drawn exactly when some keyword row survived the filters. */
  lemma WordFreqEmptyIffNoRows(rows: seq<KeywordRow>)
    ensures |WordFreq(rows)| == 0 <==> rows == []
  {
    if rows != [] {
      assert rows[0].keyword in WordFreq(rows);
    }
  }

  /**
   * Unlike the bar chart, the word cloud does not sum a repeated keyword:
   * rows ("Eye", 5) and ("Eye", 3) weigh "Eye" 3 in the cloud and 8 in the chart.
   */
  lemma WordFreqIsNotTheTotal()
    ensures var rows := [KeywordRow("Eye", 5, 0.0, 0), KeywordRow("Eye", 3, 0.0, 0)];
      WordFreq(rows)["Eye"] == 3 && KeywordSum(rows, "Eye") == 8
  {
    var rows := [KeywordRow("Eye", 5, 0.0, 0), KeywordRow("Eye", 3, 0.0, 0)];
    assert rows[..1] == [rows[0]];
    assert rows[..1][..0] == [];
  }

  /** Inserting an entry adds its total to the sum of totals. */
  lemma {:induction false} InsertAddsTotal(x: KeywordTotal, s: seq<KeywordTotal>)
    requires SortedBy(s, TotalOf)
    ensures SumTotals(Insert(x, s, TotalOf)) == x.total + SumTotals(s)
    decreases |s|
  {
    if s != [] && TotalOf(x) > TotalOf(s[0]) {
      InsertAddsTotal(x, s[1..]);
      var r := Insert(x, s, TotalOf);
      assert r[1..] == Insert(x, s[1..], TotalOf);
    }
  }

  /** Sorting the grouped table keeps the sum of its totals. */
  lemma {:induction false} SortKeepsSumTotals(g: seq<KeywordTotal>)
    ensures SumTotals(SortByTotal(g)) == SumTotals(g)
    decreases |g|
  {
    if g != [] {
      SortKeepsSumTotals(g[1..]);
      InsertAddsTotal(g[0], SortBy(g[1..], TotalOf));
    }
  }

  /**
   * With at most ten keywords the chart keeps every row's count: its bars add
   * up to the sum of all counts in the table.
   */
  lemma ChartKeepsGrandTotal(rows: seq<KeywordRow>)
    requires |RowKeywords(rows)| <= TopCount
    ensures SumTotals(TopKeywords(rows)) == SumCounts(rows)
  {
    var g := Group(rows);
    DistinctCardinality(g);
    assert |SortByTotal(g)| == |multiset(SortByTotal(g))| == |multiset(g)| == |g|;
    assert TopKeywords(rows) == SortByTotal(g);
    SortKeepsSumTotals(g);
    GroupKeepsSum(rows);
  }

  /**
   * Keyword rows ("Eye", 5), ("Eye", 3), ("London", 100), ("queue", 2) give,
   * after the stoplist, the bars ("queue", 2) and ("Eye", 8).
   */
  lemma AggregationScenario()
    ensures TopKeywords(DropStoplisted([
      KeywordRow("Eye", 5, 0.0, 0), KeywordRow("Eye", 3, 0.0, 0),
      KeywordRow("London", 100, 0.0, 0), KeywordRow("queue", 2, 0.0, 0)]))
      == [KeywordTotal("queue", 2), KeywordTotal("Eye", 8)]
  {
    var eye5, eye3 := KeywordRow("Eye", 5, 0.0, 0), KeywordRow("Eye", 3, 0.0, 0);
    var london, queue := KeywordRow("London", 100, 0.0, 0), KeywordRow("queue", 2, 0.0, 0);
    ScenarioStoplist(eye5, eye3, london, queue);
    ScenarioGroup(eye5, eye3, queue);
    var g := [KeywordTotal("Eye", 8), KeywordTotal("queue", 2)];
    assert SortBy(g[1..], TotalOf) == [g[1]];
    assert SortByTotal(g) == [g[1], g[0]];
  }

  lemma ScenarioStoplist(eye5: KeywordRow, eye3: KeywordRow, london: KeywordRow, queue: KeywordRow)
    requires eye5.keyword == eye3.keyword == "Eye" && london.keyword == "London" && queue.keyword == "queue"
    ensures DropStoplisted([eye5, eye3, london, queue]) == [eye5, eye3, queue]
  {
    assert "Eye" != "London" && "Eye" != "London Eye" by { assert "Eye"[0] != "London"[0]; }
    assert "queue" != "London" && "queue" != "London Eye" by { assert "queue"[0] != "London"[0]; }
    assert Filter([queue], NotStoplisted) == [queue];
    assert Filter([london, queue], NotStoplisted) == [queue];
    assert Filter([eye3, london, queue], NotStoplisted) == [eye3, queue];
    assert Filter([eye5, eye3, london, queue], NotStoplisted) == [eye5, eye3, queue];
  }

  lemma ScenarioGroup(eye5: KeywordRow, eye3: KeywordRow, queue: KeywordRow)
    requires eye5 == KeywordRow("Eye", 5, 0.0, 0) && eye3 == KeywordRow("Eye", 3, 0.0, 0)
    requires queue.keyword == "queue" && queue.count == 2
    ensures Group([eye5, eye3, queue]) == [KeywordTotal("Eye", 8), KeywordTotal("queue", 2)]
  {
    assert "Eye" != "queue" by { assert "Eye"[0] != "queue"[0]; }
    assert [eye5, eye3, queue][..2] == [eye5, eye3];
    assert [eye5, eye3][..1] == [eye5];
    assert [eye5][..0] == [];
    assert Group([eye5]) == [KeywordTotal("Eye", 5)];
    assert Group([eye5, eye3]) == [KeywordTotal("Eye", 8)];
    assert AddCount([KeywordTotal("Eye", 8)], "queue", 2) == [KeywordTotal("Eye", 8), KeywordTotal("queue", 2)];
  }
}
