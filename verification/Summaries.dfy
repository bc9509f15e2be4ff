/**
 The two summaries of a run: the evaluation core filters the results once per variant, the API
 groups the stored rows in one pass.  Averages are over exact reals.
 */
module Summaries {
  import opened Wrappers
  import opened Collections
  import opened Evaluation

  datatype VariantSummary = VariantSummary(
    name: string, resultCount: nat,
    averageExact: real, averageNormalized: real, averageKeyword: real, averageQuality: real, averageLatency: real,
    inputTokens: nat, outputTokens: nat, totalTokens: nat, cost: real, retries: nat, errors: nat)

  // ---------------------------------------------------------------- filtering, once per variant

  function OfVariant(results: seq<EvaluationResult>, name: string): seq<EvaluationResult> {
    if results == [] then []
    else
      var last := |results| - 1;
      OfVariant(results[..last], name) + (if results[last].variantName == name then [results[last]] else [])
  }

  function Successful(results: seq<EvaluationResult>): seq<EvaluationResult> {
    if results == [] then []
    else
      var last := |results| - 1;
      Successful(results[..last]) + (if results[last].metrics.Some? then [results[last]] else [])
  }

  function Sum(f: EvaluationResult -> real, results: seq<EvaluationResult>): real {
    if results == [] then 0.0 else Sum(f, results[..|results| - 1]) + f(results[|results| - 1])
  }

  function Count(f: EvaluationResult -> nat, results: seq<EvaluationResult>): nat {
    if results == [] then 0 else Count(f, results[..|results| - 1]) + f(results[|results| - 1])
  }

  function Mean(f: EvaluationResult -> real, results: seq<EvaluationResult>): real {
    if results == [] then 0.0 else Sum(f, results) / |results| as real
  }

  function OrZero(value: Option<nat>): nat {
    if value.Some? then value.value else 0
  }

  function OrNought(value: Option<real>): real {
    if value.Some? then value.value else 0.0
  }

  function ExactOf(r: EvaluationResult): real { if r.metrics.Some? then r.metrics.value.exact else 0.0 }
  function NormalizedOf(r: EvaluationResult): real { if r.metrics.Some? then r.metrics.value.normalized else 0.0 }
  function KeywordOf(r: EvaluationResult): real { if r.metrics.Some? then r.metrics.value.keyword else 0.0 }
  function QualityOf(r: EvaluationResult): real { if r.metrics.Some? then r.metrics.value.Quality() else 0.0 }
  function LatencyOf(r: EvaluationResult): real { r.latency }
  function InputOf(r: EvaluationResult): nat { OrZero(r.inputTokens) }
  function OutputOf(r: EvaluationResult): nat { OrZero(r.outputTokens) }
  function TokensOf(r: EvaluationResult): nat { OrZero(r.totalTokens) }
  function CostOf(r: EvaluationResult): real { OrNought(r.cost) }
  function RetriesOf(r: EvaluationResult): nat { r.retries }
  function ErrorOf(r: EvaluationResult): nat { if r.error.Some? then 1 else 0 }

  /** The summary of one variant, by filtering. */
  function SummaryOf(results: seq<EvaluationResult>, name: string): VariantSummary {
    var mine := OfVariant(results, name);
    var scored := Successful(mine);
    VariantSummary(name, |mine|,
                   Mean(ExactOf, scored), Mean(NormalizedOf, scored), Mean(KeywordOf, scored), Mean(QualityOf, scored),
                   Mean(LatencyOf, mine),
                   Count(InputOf, mine), Count(OutputOf, mine), Count(TokensOf, mine), Sum(CostOf, mine),
                   Count(RetriesOf, mine), Count(ErrorOf, mine))
  }

  method SummarizeResults(results: seq<EvaluationResult>, variants: seq<Variant>)
    returns (summaries: seq<VariantSummary>)
    ensures |summaries| == |variants|
    ensures forall k :: 0 <= k < |variants| ==> summaries[k] == SummaryOf(results, variants[k].name)
  {
    summaries := [];
    for i := 0 to |variants|
      invariant |summaries| == i
      invariant forall k :: 0 <= k < i ==> summaries[k] == SummaryOf(results, variants[k].name)
    {
      summaries := summaries + [SummaryOf(results, variants[i].name)];
    }
  }

  // ---------------------------------------------------------------- grouping, in one pass

  /** A stored row, as far as the query reads it. */
  datatype Row = Row(variantId: string, metrics: Option<Metrics>, latency: Option<real>,
                     inputTokens: Option<nat>, outputTokens: Option<nat>, totalTokens: Option<nat>,
                     cost: Option<real>, retries: nat, error: Option<string>)

  /** An averaged column: nulls are neither summed nor counted. */
  datatype Column = Column(sum: real, count: nat) {
    function Plus(other: Column): Column {
      Column(sum + other.sum, count + other.count)
    }

    /** `AVG`, with the null of an empty column read as 0. */
    function Average(): real {
      if count == 0 then 0.0 else sum / count as real
    }
  }

  function Fed(value: Option<real>): Column {
    if value.Some? then Column(value.value, 1) else Column(0.0, 0)
  }

  /** The summed columns. */
  datatype Usage = Usage(results: nat, inputTokens: nat, outputTokens: nat, totalTokens: nat, cost: real,
          retries: nat, errors: nat)
  {
    function Plus(o: Usage): Usage {
      Usage(results + o.results, inputTokens + o.inputTokens, outputTokens + o.outputTokens,
          totalTokens + o.totalTokens,
            cost + o.cost, retries + o.retries, errors + o.errors)
    }
  }

  /** The averaged metrics. */
  datatype Scores = Scores(exact: Column, normalized: Column, keyword: Column, quality: Column) {
    function Plus(o: Scores): Scores {
      Scores(exact.Plus(o.exact), normalized.Plus(o.normalized), keyword.Plus(o.keyword), quality.Plus(o.quality))
    }
  }

  /** The accumulators of one group. */
  datatype Totals = Totals(usage: Usage, scores: Scores, latency: Column) {
    function Plus(o: Totals): Totals {
      Totals(usage.Plus(o.usage), scores.Plus(o.scores), latency.Plus(o.latency))
    }
  }

  /** Accumulators that have been fed nothing. */
  function Empty(): Totals {
    var none := Column(0.0, 0);
    Totals(Usage(0, 0, 0, 0, 0.0, 0, 0), Scores(none, none, none, none), none)
  }

  function ScoresOf(m: Option<Metrics>): Scores {
    Scores(Fed(if m.Some? then Some(m.value.exact) else None),
           Fed(if m.Some? then Some(m.value.normalized) else None),
           Fed(if m.Some? then Some(m.value.keyword) else None),
           Fed(if m.Some? then Some(m.value.Quality()) else None))
  }

  function Single(row: Row): Totals {
    Totals(Usage(1, OrZero(row.inputTokens), OrZero(row.outputTokens), OrZero(row.totalTokens),
                 OrNought(row.cost), row.retries, if row.error.Some? then 1 else 0),
           ScoresOf(row.metrics),
           Fed(Some(OrNought(row.latency))))
  }

  /** The grouping key and the selected columns of a row. */
  datatype Entry = Entry(id: string, values: Totals)

  function Selected(row: Row): Entry {
    Entry(row.variantId, Single(row))
  }

  function TotalOf(entries: seq<Entry>, id: string): Totals {
    if entries == [] then Empty()
    else
      var last := entries[|entries| - 1];
      var rest := TotalOf(entries[..|entries| - 1], id);
      if last.id == id then rest.Plus(last.values) else rest
  }

  function Finished(name: string, t: Totals): VariantSummary {
    var u := t.usage;
    VariantSummary(name, u.results,
                   t.scores.exact.Average(), t.scores.normalized.Average(), t.scores.keyword.Average(),
                   t.scores.quality.Average(), t.latency.Average(),
                   u.inputTokens, u.outputTokens, u.totalTokens, u.cost, u.retries, u.errors)
  }

  ghost predicate Met(entries: seq<Entry>, id: string) {
    exists k :: 0 <= k < |entries| && entries[k].id == id
  }

  lemma {:induction false} UnmetIsZero(entries: seq<Entry>, id: string)
    requires !Met(entries, id)
    ensures TotalOf(entries, id) == Empty()
  {
    if entries != [] {
      var rest := entries[..|entries| - 1];
      assert forall k :: 0 <= k < |rest| ==> rest[k] == entries[k];
      UnmetIsZero(rest, id);
    }
  }

  ghost predicate Grouped(groups: map<string, Totals>, entries: seq<Entry>) {
    && (forall id :: id in groups <==> Met(entries, id))
    && (forall id :: id in groups ==> groups[id] == TotalOf(entries, id))
  }

  lemma GroupedGrows(groups: map<string, Totals>, entries: seq<Entry>, e: Entry)
    requires Grouped(groups, entries)
    ensures var before := if e.id in groups then groups[e.id] else Empty();
      Grouped(groups[e.id := before.Plus(e.values)], entries + [e])
  {
    var more := entries + [e];
    assert more[|entries|] == e && more[..|entries|] == entries;
    forall id ensures Met(more, id) <==> Met(entries, id) || id == e.id {
      if k :| 0 <= k < |entries| && entries[k].id == id { assert more[k].id == id; }
    }
    if e.id !in groups {
      UnmetIsZero(entries, e.id);
    }
  }

  /** `GROUP BY`: one pass, one accumulator per variant met. */
  method GroupBy(rows: seq<Row>) returns (groups: map<string, Totals>)
    ensures Grouped(groups, Map(Selected, rows))
  {
    groups := map[];
    ghost var entries := Map(Selected, rows);
    for i := 0 to |rows|
      invariant Grouped(groups, entries[..i])
    {
      var e := Selected(rows[i]);
      var before := if e.id in groups then groups[e.id] else Empty();
      GroupedGrows(groups, entries[..i], e);
      assert entries[..i + 1] == entries[..i] + [e];
      groups := groups[e.id := before.Plus(e.values)];
    }
    assert entries[..|rows|] == entries;
  }

  datatype RunVariant = RunVariant(id: string, name: string)

  /** A variant without rows gets the all-zero summary. */
  method SummarizeDatabaseResults(rows: seq<Row>, variants: seq<RunVariant>) returns (summaries: seq<VariantSummary>)
    ensures |summaries| == |variants|
    ensures forall k :: 0 <= k < |variants| ==>
        summaries[k] == Finished(variants[k].name, TotalOf(Map(Selected, rows), variants[k].id))
  {
    var groups := GroupBy(rows);
    summaries := [];
    for i := 0 to |variants|
      invariant |summaries| == i
      invariant forall k :: 0 <= k < i ==>
          summaries[k] == Finished(variants[k].name, TotalOf(Map(Selected, rows), variants[k].id))
    {
      var v := variants[i];
      if v.id !in groups {
        UnmetIsZero(Map(Selected, rows), v.id);
        summaries := summaries + [VariantSummary(v.name, 0, 0.0, 0.0, 0.0, 0.0, 0.0, 0, 0, 0, 0.0, 0, 0)];
      } else {
        summaries := summaries + [Finished(v.name, groups[v.id])];
      }
    }
  }

  // ---------------------------------------------------------------- the two agree

  /** A result as the worker stores it, under the id of the variant of that name. */
  function RowOf(r: EvaluationResult, ids: map<string, string>): Row
    requires r.variantName in ids
  {
    Row(ids[r.variantName], r.metrics, Some(r.latency), r.inputTokens, r.outputTokens, r.totalTokens, r.cost,
        r.retries, r.error)
  }

  ghost predicate NamesKnown(results: seq<EvaluationResult>, ids: map<string, string>) {
    forall k :: 0 <= k < |results| ==> results[k].variantName in ids
  }

  ghost predicate Injective(ids: map<string, string>) {
    forall a, b :: a in ids && b in ids && ids[a] == ids[b] ==> a == b
  }

  function RowsOf(results: seq<EvaluationResult>, ids: map<string, string>): (rows: seq<Row>)
    requires NamesKnown(results, ids)
    ensures |rows| == |results|
  {
    if results == [] then []
    else RowsOf(results[..|results| - 1], ids) + [RowOf(results[|results| - 1], ids)]
  }

  function ScoreColumn(f: EvaluationResult -> real, scored: seq<EvaluationResult>): Column {
    Column(Sum(f, scored), |scored|)
  }

  function FilteredScores(scored: seq<EvaluationResult>): Scores {
    Scores(ScoreColumn(ExactOf, scored), ScoreColumn(NormalizedOf, scored),
           ScoreColumn(KeywordOf, scored), ScoreColumn(QualityOf, scored))
  }

  function FilteredUsage(mine: seq<EvaluationResult>): Usage {
    Usage(|mine|, Count(InputOf, mine), Count(OutputOf, mine), Count(TokensOf, mine), Sum(CostOf, mine),
          Count(RetriesOf, mine), Count(ErrorOf, mine))
  }

  /** The accumulators the filtered sums amount to. */
  function FilteredTotals(mine: seq<EvaluationResult>): Totals {
    Totals(FilteredUsage(mine), FilteredScores(Successful(mine)), ScoreColumn(LatencyOf, mine))
  }

  lemma SumAppend(f: EvaluationResult -> real, s: seq<EvaluationResult>, r: EvaluationResult)
    ensures Sum(f, s + [r]) == Sum(f, s) + f(r)
  {
    assert (s + [r])[..|s|] == s;
  }

  lemma CountAppend(f: EvaluationResult -> nat, s: seq<EvaluationResult>, r: EvaluationResult)
    ensures Count(f, s + [r]) == Count(f, s) + f(r)
  {
    assert (s + [r])[..|s|] == s;
  }

  lemma ColumnAppend(f: EvaluationResult -> real, scored: seq<EvaluationResult>, r: EvaluationResult,
          value: Option<real>)
    requires value.Some? ==> f(r) == value.value
    ensures ScoreColumn(f, scored + (if value.Some? then [r] else [])) == ScoreColumn(f, scored).Plus(Fed(value))
  {
    if value.Some? {
      SumAppend(f, scored, r);
    } else {
      assert scored + [] == scored;
    }
  }

  function ScoreOf(r: EvaluationResult, f: EvaluationResult -> real): Option<real> {
    if r.metrics.Some? then Some(f(r)) else None
  }

  lemma UsageAppend(mine: seq<EvaluationResult>, r: EvaluationResult, ids: map<string, string>)
    requires r.variantName in ids
    ensures FilteredUsage(mine + [r]) == FilteredUsage(mine).Plus(Single(RowOf(r, ids)).usage)
  {
    CountAppend(InputOf, mine, r);
    CountAppend(OutputOf, mine, r);
    CountAppend(TokensOf, mine, r);
    CountAppend(RetriesOf, mine, r);
    CountAppend(ErrorOf, mine, r);
    SumAppend(CostOf, mine, r);
  }

  lemma ScoresAppend(scored: seq<EvaluationResult>, r: EvaluationResult)
    ensures FilteredScores(scored + (if r.metrics.Some? then [r] else [])) ==
        FilteredScores(scored).Plus(ScoresOf(r.metrics))
  {
    ColumnAppend(ExactOf, scored, r, ScoreOf(r, ExactOf));
    ColumnAppend(NormalizedOf, scored, r, ScoreOf(r, NormalizedOf));
    ColumnAppend(KeywordOf, scored, r, ScoreOf(r, KeywordOf));
    ColumnAppend(QualityOf, scored, r, ScoreOf(r, QualityOf));
  }

  lemma SuccessfulAppend(mine: seq<EvaluationResult>, r: EvaluationResult)
    ensures Successful(mine + [r]) == Successful(mine) + (if r.metrics.Some? then [r] else [])
  {
    assert (mine + [r])[..|mine|] == mine;
  }

  lemma FilteredAppend(mine: seq<EvaluationResult>, r: EvaluationResult, ids: map<string, string>)
    requires r.variantName in ids
    ensures FilteredTotals(mine + [r]) == FilteredTotals(mine).Plus(Single(RowOf(r, ids)))
  {
    SuccessfulAppend(mine, r);
    ScoresAppend(Successful(mine), r);
    ColumnAppend(LatencyOf, mine, r, Some(LatencyOf(r)));
    UsageAppend(mine, r, ids);
  }

  lemma {:induction false} GroupIsFilter(results: seq<EvaluationResult>, ids: map<string, string>, name: string)
    requires NamesKnown(results, ids) && Injective(ids) && name in ids
    ensures TotalOf(Map(Selected, RowsOf(results, ids)), ids[name]) == FilteredTotals(OfVariant(results, name))
  {
    if results != [] {
      var rest, r := results[..|results| - 1], results[|results| - 1];
      GroupIsFilter(rest, ids, name);
      var entries := Map(Selected, RowsOf(results, ids));
      assert entries[..|entries| - 1] == Map(Selected, RowsOf(rest, ids));
      if r.variantName == name {
        FilteredAppend(OfVariant(rest, name), r, ids);
      } else {
        assert OfVariant(results, name) == OfVariant(rest, name);
      }
    }
  }

  lemma FilteredFinished(results: seq<EvaluationResult>, name: string)
    ensures Finished(name, FilteredTotals(OfVariant(results, name))) == SummaryOf(results, name)
  {
  }

  // ---------------------------------------------------------------- row order does not matter

  function Added(total: Totals, e: Entry, id: string): Totals {
    if e.id == id then total.Plus(e.values) else total
  }

  lemma AddedInEitherOrder(total: Totals, a: Entry, b: Entry, id: string)
    ensures Added(Added(total, a, id), b, id) == Added(Added(total, b, id), a, id)
  {
  }

  lemma {:induction false} TakeOut(entries: seq<Entry>, k: nat, id: string)
    requires k < |entries|
    ensures TotalOf(entries, id) == Added(TotalOf(entries[..k] + entries[k + 1..], id), entries[k], id)
  {
    var last := |entries| - 1;
    var without := entries[..k] + entries[k + 1..];
    if k == last {
      assert without == entries[..last];
    } else {
      var rest := entries[..last];
      TakeOut(rest, k, id);
      assert without[..|without| - 1] == rest[..k] + rest[k + 1..];
      assert without[|without| - 1] == entries[last];
      AddedInEitherOrder(TotalOf(rest[..k] + rest[k + 1..], id), entries[k], entries[last], id);
    }
  }

  lemma {:induction false} OrderIrrelevant(a: seq<Entry>, b: seq<Entry>, id: string)
    requires multiset(a) == multiset(b)
    ensures TotalOf(a, id) == TotalOf(b, id)
    decreases |a|
  {
    if a == [] {
      assert |multiset(b)| == 0;
    } else {
      var k := PlaceOfFirst(a, b);
      OrderIrrelevant(a[..0] + a[1..], b[..k] + b[k + 1..], id);
      TakeOut(a, 0, id);
      TakeOut(b, k, id);
    }
  }

  /** The API's grouped summary of the stored rows is the core's summary of the results. */
  lemma SummariesAgree(results: seq<EvaluationResult>, rows: seq<Row>, ids: map<string, string>, name: string)
    requires NamesKnown(results, ids) && Injective(ids) && name in ids
    requires multiset(rows) == multiset(RowsOf(results, ids))
    ensures Finished(name, TotalOf(Map(Selected, rows), ids[name])) == SummaryOf(results, name)
  {
    MapPermutes(Selected, rows, RowsOf(results, ids));
    OrderIrrelevant(Map(Selected, rows), Map(Selected, RowsOf(results, ids)), ids[name]);
    GroupIsFilter(results, ids, name);
    FilteredFinished(results, name);
  }

  // ---------------------------------------------------------------- conservation

  function Whole(entries: seq<Entry>): Totals {
    if entries == [] then Empty()
    else Whole(entries[..|entries| - 1]).Plus(entries[|entries| - 1].values)
  }

  /** The groups of the listed variants, added up. */
  function Together(entries: seq<Entry>, ids: seq<string>): Totals {
    if ids == [] then Empty()
    else Together(entries, ids[1..]).Plus(TotalOf(entries, ids[0]))
  }

  lemma Regroup(a: Totals, b: Totals, c: Totals)
    ensures a.Plus(b.Plus(c)) == a.Plus(b).Plus(c)
    ensures a.Plus(c).Plus(b) == a.Plus(b).Plus(c)
  {
  }

  lemma {:induction false} OneMore(entries: seq<Entry>, ids: seq<string>)
    requires entries != [] && Distinct(ids)
    ensures var rest, last := entries[..|entries| - 1], entries[|entries| - 1];
      Together(entries, ids) == if last.id in ids then Together(rest, ids).Plus(last.values) else Together(rest, ids)
  {
    if ids != [] {
      var rest, last := entries[..|entries| - 1], entries[|entries| - 1];
      OneMore(entries, ids[1..]);
      Regroup(Together(rest, ids[1..]), TotalOf(rest, ids[0]), last.values);
      if last.id == ids[0] {
        assert forall k :: 0 < k < |ids| ==> ids[k] != ids[0];
      }
    }
  }

  /** The groups of all variants add up to the whole run: rows, averaged sums, tokens, cost, retries and errors. */
  lemma {:induction false} GroupsConserve(entries: seq<Entry>, ids: seq<string>)
    requires Distinct(ids) && forall k :: 0 <= k < |entries| ==> entries[k].id in ids
    ensures Together(entries, ids) == Whole(entries)
    decreases |entries|
  {
    if entries == [] {
      NoEntries(entries, ids);
    } else {
      OneMore(entries, ids);
      GroupsConserve(entries[..|entries| - 1], ids);
    }
  }

  lemma PlusEmpty(t: Totals, e: Totals)
    requires e == Empty()
    ensures t.Plus(e) == t
  {
  }

  lemma UnmetAddsNothing(entries: seq<Entry>, ids: seq<string>)
    requires ids != [] && !Met(entries, ids[0])
    ensures Together(entries, ids) == Together(entries, ids[1..])
  {
    UnmetIsZero(entries, ids[0]);
    PlusEmpty(Together(entries, ids[1..]), TotalOf(entries, ids[0]));
  }

  lemma {:induction false} NoEntries(entries: seq<Entry>, ids: seq<string>)
    requires |entries| == 0
    ensures Together(entries, ids) == Empty()
  {
    if ids != [] {
      UnmetAddsNothing(entries, ids);
      NoEntries(entries, ids[1..]);
    }
  }

  function UsageOf(s: VariantSummary): Usage {
    Usage(s.resultCount, s.inputTokens, s.outputTokens, s.totalTokens, s.cost, s.retries, s.errors)
  }

  /** The summed columns of a list of summaries, added up. */
  function RunUsage(summaries: seq<VariantSummary>): Usage {
    if summaries == [] then Usage(0, 0, 0, 0, 0.0, 0, 0)
    else RunUsage(summaries[1..]).Plus(UsageOf(summaries[0]))
  }

  ghost predicate Summarizes(summaries: seq<VariantSummary>, entries: seq<Entry>, variants: seq<RunVariant>) {
    && |summaries| == |variants|
    && forall k :: 0 <= k < |variants| ==> summaries[k] == Finished(variants[k].name, TotalOf(entries, variants[k].id))
  }

  function IdOf(v: RunVariant): string {
    v.id
  }

  lemma {:induction false} UsageIsTogether(summaries: seq<VariantSummary>, entries: seq<Entry>,
          variants: seq<RunVariant>)
    requires Summarizes(summaries, entries, variants)
    ensures RunUsage(summaries) == Together(entries, Map(IdOf, variants)).usage
    decreases |variants|
  {
    if variants != [] {
      UsageIsTogether(summaries[1..], entries, variants[1..]);
      assert Map(IdOf, variants)[1..] == Map(IdOf, variants[1..]);
    }
  }

  /** Over all variants the summaries account for every row, token, cost, retry and error of the run, once. */
  lemma {:induction false} SummariesConserve(summaries: seq<VariantSummary>, entries: seq<Entry>,
          variants: seq<RunVariant>)
    requires Summarizes(summaries, entries, variants) && Distinct(Map(IdOf, variants))
    requires forall k :: 0 <= k < |entries| ==> entries[k].id in Map(IdOf, variants)
    ensures RunUsage(summaries) == Whole(entries).usage
  {
    UsageIsTogether(summaries, entries, variants);
    GroupsConserve(entries, Map(IdOf, variants));
  }

  lemma WholeCounts(entries: seq<Entry>)
    requires entries != []
    ensures var rest, last := entries[..|entries| - 1], entries[|entries| - 1];
            Whole(entries).usage.results == Whole(rest).usage.results + last.values.usage.results
  {
  }

  lemma SelectedCountsOne(row: Row)
    ensures Selected(row).values.usage.results == 1
  {
  }

  lemma {:induction false} WholeCountsRows(rows: seq<Row>)
    ensures Whole(Map(Selected, rows)).usage.results == |rows|
  {
    if rows != [] {
      var entries := Map(Selected, rows);
      WholeCounts(entries);
      assert entries[..|entries| - 1] == Map(Selected, rows[..|rows| - 1]);
      SelectedCountsOne(rows[|rows| - 1]);
      WholeCountsRows(rows[..|rows| - 1]);
    }
  }

  /** Every evaluated result is either scored or an error, so the two counts split the results. */
  lemma {:induction false} ScoredOrError(mine: seq<EvaluationResult>)
    requires forall k :: 0 <= k < |mine| ==> WellFormed(mine[k])
    ensures |Successful(mine)| + Count(ErrorOf, mine) == |mine|
  {
    if mine != [] {
      ScoredOrError(mine[..|mine| - 1]);
    }
  }
}
