/**
 What the figures of both summaries mean, written out on results and rows: what one more of them
 adds to the counts and sums, and what the averages are averages of.
 */
module SummaryMeaning {
  import opened Wrappers
  import opened Collections
  import opened Evaluation
  import opened Summaries

  // ---------------------------------------------------------------- averages of what is present

  ghost function PresentSum<T>(value: T -> Option<real>, items: seq<T>): real {
    if items == [] then 0.0
    else
      var last := value(items[|items| - 1]);
      PresentSum(value, items[..|items| - 1]) + (if last.Some? then last.value else 0.0)
  }

  ghost function PresentCount<T>(value: T -> Option<real>, items: seq<T>): nat {
    if items == [] then 0
    else
      var last := value(items[|items| - 1]);
      PresentCount(value, items[..|items| - 1]) + (if last.Some? then 1 else 0)
  }

  /** The mean of the values that are present; 0 without any. */
  ghost function PresentMean<T>(value: T -> Option<real>, items: seq<T>): real {
    var n := PresentCount(value, items);
    if n == 0 then 0.0 else PresentSum(value, items) / n as real
  }

  // ---------------------------------------------------------------- the filtered summary

  ghost function ExactIn(name: string): EvaluationResult -> Option<real> {
    (r: EvaluationResult) => if r.variantName == name && r.metrics.Some? then Some(r.metrics.value.exact) else None
  }

  ghost function NormalizedIn(name: string): EvaluationResult -> Option<real> {
    (r: EvaluationResult) => if r.variantName == name && r.metrics.Some? then Some(r.metrics.value.normalized) else None
  }

  ghost function KeywordIn(name: string): EvaluationResult -> Option<real> {
    (r: EvaluationResult) => if r.variantName == name && r.metrics.Some? then Some(r.metrics.value.keyword) else None
  }

  ghost function QualityIn(name: string): EvaluationResult -> Option<real> {
    (r: EvaluationResult) =>
      if r.variantName == name && r.metrics.Some?
      then Some((r.metrics.value.exact + r.metrics.value.normalized + r.metrics.value.keyword) / 3.0)
      else None
  }

  ghost function LatencyIn(name: string): EvaluationResult -> Option<real> {
    (r: EvaluationResult) => if r.variantName == name then Some(r.latency) else None
  }

  lemma {:induction false} ScoredArePresent(f: EvaluationResult -> real, value: EvaluationResult -> Option<real>,
          results: seq<EvaluationResult>, name: string)
    requires forall r: EvaluationResult ::
               value(r) == if r.variantName == name && r.metrics.Some? then Some(f(r)) else None
    ensures PresentSum(value, results) == Sum(f, Successful(OfVariant(results, name)))
    ensures PresentCount(value, results) == |Successful(OfVariant(results, name))|
  {
    if results != [] {
      var rest, r := results[..|results| - 1], results[|results| - 1];
      ScoredArePresent(f, value, rest, name);
      var mine := OfVariant(rest, name);
      if r.variantName == name {
        assert OfVariant(results, name) == mine + [r];
        SuccessfulAppend(mine, r);
        if r.metrics.Some? {
          SumAppend(f, Successful(mine), r);
        } else {
          assert Successful(mine) + [] == Successful(mine);
        }
      } else {
        assert OfVariant(results, name) == mine;
      }
    }
  }

  lemma {:induction false} TimedArePresent(results: seq<EvaluationResult>, name: string)
    ensures PresentSum(LatencyIn(name), results) == Sum(LatencyOf, OfVariant(results, name))
    ensures PresentCount(LatencyIn(name), results) == |OfVariant(results, name)|
  {
    if results != [] {
      var rest, r := results[..|results| - 1], results[|results| - 1];
      TimedArePresent(rest, name);
      if r.variantName == name {
        assert OfVariant(results, name) == OfVariant(rest, name) + [r];
        SumAppend(LatencyOf, OfVariant(rest, name), r);
      } else {
        assert OfVariant(results, name) == OfVariant(rest, name);
      }
    }
  }

  /** The averages are over the variant's results that have the value; quality is the mean of the three metrics. */
  lemma AveragesMean(results: seq<EvaluationResult>, name: string)
    ensures SummaryOf(results, name).averageExact == PresentMean(ExactIn(name), results)
    ensures SummaryOf(results, name).averageNormalized == PresentMean(NormalizedIn(name), results)
    ensures SummaryOf(results, name).averageKeyword == PresentMean(KeywordIn(name), results)
    ensures SummaryOf(results, name).averageQuality == PresentMean(QualityIn(name), results)
    ensures SummaryOf(results, name).averageLatency == PresentMean(LatencyIn(name), results)
  {
    ScoredArePresent(ExactOf, ExactIn(name), results, name);
    ScoredArePresent(NormalizedOf, NormalizedIn(name), results, name);
    ScoredArePresent(KeywordOf, KeywordIn(name), results, name);
    ScoredArePresent(QualityOf, QualityIn(name), results, name);
    TimedArePresent(results, name);
  }

  /**
   What one more result adds to a summary's counts and sums: itself, its reported usage and cost,
   its retries and its error, if it is the variant's; nothing at all otherwise.
   */
  ghost predicate AddsResult(s: VariantSummary, s': VariantSummary, r: EvaluationResult) {
    && s'.resultCount == s.resultCount + 1
    && s'.inputTokens == s.inputTokens + (if r.inputTokens.Some? then r.inputTokens.value else 0)
    && s'.outputTokens == s.outputTokens + (if r.outputTokens.Some? then r.outputTokens.value else 0)
    && s'.totalTokens == s.totalTokens + (if r.totalTokens.Some? then r.totalTokens.value else 0)
    && s'.cost == s.cost + (if r.cost.Some? then r.cost.value else 0.0)
    && s'.retries == s.retries + r.retries
    && s'.errors == s.errors + (if r.error.Some? then 1 else 0)
  }

  lemma OneMoreResult(results: seq<EvaluationResult>, r: EvaluationResult, name: string)
    ensures SummaryOf(results, name).name == name
    ensures r.variantName == name ==> AddsResult(SummaryOf(results, name), SummaryOf(results + [r], name), r)
    ensures r.variantName != name ==> SummaryOf(results + [r], name) == SummaryOf(results, name)
  {
    var mine := OfVariant(results, name);
    assert (results + [r])[..|results|] == results;
    if r.variantName == name {
      assert OfVariant(results + [r], name) == mine + [r];
      CountAppend(InputOf, mine, r);
      CountAppend(OutputOf, mine, r);
      CountAppend(TokensOf, mine, r);
      CountAppend(RetriesOf, mine, r);
      CountAppend(ErrorOf, mine, r);
      SumAppend(CostOf, mine, r);
    } else {
      assert OfVariant(results + [r], name) == mine;
    }
  }

  /** Without results every figure is 0. */
  lemma NoResults(name: string)
    ensures SummaryOf([], name) == VariantSummary(name, 0, 0.0, 0.0, 0.0, 0.0, 0.0, 0, 0, 0, 0.0, 0, 0)
  {
  }

  // ---------------------------------------------------------------- the grouped summary

  ghost function RowSummary(rows: seq<Row>, v: RunVariant): VariantSummary {
    Finished(v.name, TotalOf(Map(Selected, rows), v.id))
  }

  ghost function RowExactIn(id: string): Row -> Option<real> {
    (r: Row) => if r.variantId == id && r.metrics.Some? then Some(r.metrics.value.exact) else None
  }

  ghost function RowNormalizedIn(id: string): Row -> Option<real> {
    (r: Row) => if r.variantId == id && r.metrics.Some? then Some(r.metrics.value.normalized) else None
  }

  ghost function RowKeywordIn(id: string): Row -> Option<real> {
    (r: Row) => if r.variantId == id && r.metrics.Some? then Some(r.metrics.value.keyword) else None
  }

  ghost function RowQualityIn(id: string): Row -> Option<real> {
    (r: Row) =>
      if r.variantId == id && r.metrics.Some?
      then Some((r.metrics.value.exact + r.metrics.value.normalized + r.metrics.value.keyword) / 3.0)
      else None
  }

  /** A row without a latency counts with 0. */
  ghost function RowLatencyIn(id: string): Row -> Option<real> {
    (r: Row) => if r.variantId == id then Some(if r.latency.Some? then r.latency.value else 0.0) else None
  }

  ghost predicate IsColumn(column: Column, value: Row -> Option<real>, rows: seq<Row>) {
    column == Column(PresentSum(value, rows), PresentCount(value, rows))
  }

  ghost predicate ColumnsAre(t: Totals, rows: seq<Row>, id: string) {
    && IsColumn(t.scores.exact, RowExactIn(id), rows)
    && IsColumn(t.scores.normalized, RowNormalizedIn(id), rows)
    && IsColumn(t.scores.keyword, RowKeywordIn(id), rows)
    && IsColumn(t.scores.quality, RowQualityIn(id), rows)
    && IsColumn(t.latency, RowLatencyIn(id), rows)
  }

  lemma NothingFed(column: Column)
    ensures column.Plus(Fed(None)) == column
  {
  }

  /** One more row in a column: its value if it has one. */
  lemma ColumnGrows(column: Column, value: Row -> Option<real>, rows: seq<Row>, row: Row)
    requires IsColumn(column, value, rows)
    ensures IsColumn(column.Plus(Fed(value(row))), value, rows + [row])
    ensures value(row).None? ==> IsColumn(column, value, rows + [row])
  {
    assert (rows + [row])[..|rows|] == rows;
    if value(row).None? {
      NothingFed(column);
    }
  }

  lemma EachColumnGrows(t: Totals, rows: seq<Row>, row: Row, id: string)
    requires ColumnsAre(t, rows, id)
    ensures IsColumn(t.scores.exact.Plus(Fed(RowExactIn(id)(row))), RowExactIn(id), rows + [row])
    ensures IsColumn(t.scores.normalized.Plus(Fed(RowNormalizedIn(id)(row))), RowNormalizedIn(id), rows + [row])
    ensures IsColumn(t.scores.keyword.Plus(Fed(RowKeywordIn(id)(row))), RowKeywordIn(id), rows + [row])
    ensures IsColumn(t.scores.quality.Plus(Fed(RowQualityIn(id)(row))), RowQualityIn(id), rows + [row])
    ensures IsColumn(t.latency.Plus(Fed(RowLatencyIn(id)(row))), RowLatencyIn(id), rows + [row])
    ensures row.variantId != id ==> ColumnsAre(t, rows + [row], id)
  {
    ColumnGrows(t.scores.exact, RowExactIn(id), rows, row);
    ColumnGrows(t.scores.normalized, RowNormalizedIn(id), rows, row);
    ColumnGrows(t.scores.keyword, RowKeywordIn(id), rows, row);
    ColumnGrows(t.scores.quality, RowQualityIn(id), rows, row);
    ColumnGrows(t.latency, RowLatencyIn(id), rows, row);
  }

  /** What the query selects of a row of the variant is what the columns average. */
  lemma SelectsValues(row: Row)
    ensures Single(row).scores.exact == Fed(RowExactIn(row.variantId)(row))
    ensures Single(row).scores.normalized == Fed(RowNormalizedIn(row.variantId)(row))
    ensures Single(row).scores.keyword == Fed(RowKeywordIn(row.variantId)(row))
    ensures Single(row).scores.quality == Fed(RowQualityIn(row.variantId)(row))
    ensures Single(row).latency == Fed(RowLatencyIn(row.variantId)(row))
  {
  }

  lemma ColumnsGrow(t: Totals, rows: seq<Row>, row: Row, id: string)
    requires ColumnsAre(t, rows, id)
    ensures ColumnsAre(if row.variantId == id then t.Plus(Single(row)) else t, rows + [row], id)
  {
    EachColumnGrows(t, rows, row, id);
    SelectsValues(row);
  }

  lemma {:induction false} TotalColumns(rows: seq<Row>, id: string)
    ensures ColumnsAre(TotalOf(Map(Selected, rows), id), rows, id)
  {
    if rows != [] {
      var rest, row := rows[..|rows| - 1], rows[|rows| - 1];
      TotalColumns(rest, id);
      var entries := Map(Selected, rows);
      assert entries[..|entries| - 1] == Map(Selected, rest);
      ColumnsGrow(TotalOf(Map(Selected, rest), id), rest, row, id);
      assert rest + [row] == rows;
    }
  }

  /** The same averages over rows: a missing metric is left out, a missing latency counts as 0. */
  lemma RowAveragesMean(rows: seq<Row>, v: RunVariant)
    ensures RowSummary(rows, v).averageExact == PresentMean(RowExactIn(v.id), rows)
    ensures RowSummary(rows, v).averageNormalized == PresentMean(RowNormalizedIn(v.id), rows)
    ensures RowSummary(rows, v).averageKeyword == PresentMean(RowKeywordIn(v.id), rows)
    ensures RowSummary(rows, v).averageQuality == PresentMean(RowQualityIn(v.id), rows)
    ensures RowSummary(rows, v).averageLatency == PresentMean(RowLatencyIn(v.id), rows)
  {
    TotalColumns(rows, v.id);
  }

  ghost predicate AddsRow(s: VariantSummary, s': VariantSummary, r: Row) {
    && s'.resultCount == s.resultCount + 1
    && s'.inputTokens == s.inputTokens + (if r.inputTokens.Some? then r.inputTokens.value else 0)
    && s'.outputTokens == s.outputTokens + (if r.outputTokens.Some? then r.outputTokens.value else 0)
    && s'.totalTokens == s.totalTokens + (if r.totalTokens.Some? then r.totalTokens.value else 0)
    && s'.cost == s.cost + (if r.cost.Some? then r.cost.value else 0.0)
    && s'.retries == s.retries + r.retries
    && s'.errors == s.errors + (if r.error.Some? then 1 else 0)
  }

  lemma OneMoreRow(rows: seq<Row>, row: Row, v: RunVariant)
    ensures RowSummary(rows, v).name == v.name
    ensures row.variantId == v.id ==> AddsRow(RowSummary(rows, v), RowSummary(rows + [row], v), row)
    ensures row.variantId != v.id ==> RowSummary(rows + [row], v) == RowSummary(rows, v)
  {
    var entries := Map(Selected, rows + [row]);
    assert entries[..|entries| - 1] == Map(Selected, rows);
    assert entries[|entries| - 1] == Selected(row);
  }
}
