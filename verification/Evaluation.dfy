/** The evaluation core's values and the evaluation of one item by one variant. */
module Evaluation {
  import opened Wrappers
  import TextMetrics

  datatype Item = Item(id: string, input: string, expected: string, keywords: seq<string>)

  datatype Variant = Variant(name: string, model: string, provider: string)

  /** What the generator did: a bare text, a full response, or an exception. */
  datatype Generation =
    | Text(output: string)
    | Response(output: string, inputTokens: Option<nat>, outputTokens: Option<nat>, totalTokens: Option<nat>,
               cost: Option<real>, retries: nat)
    | Raised(message: string, retries: nat)

  datatype Metrics = Metrics(exact: real, normalized: real, keyword: real) {
    function Quality(): real {
      (exact + normalized + keyword) / 3.0
    }
  }

  datatype EvaluationResult = EvaluationResult(
    itemId: string, variantName: string, model: string, provider: string,
    input: string, expected: string, output: Option<string>, latency: real,
    metrics: Option<Metrics>,
    inputTokens: Option<nat>, outputTokens: Option<nat>, totalTokens: Option<nat>,
    cost: Option<real>, retries: nat, error: Option<string>)

  function CalculateMetrics(t: TextMetrics.Script, output: string, expected: string, keywords: seq<string>): Metrics {
    Metrics(TextMetrics.ExactMatch(t, output, expected),
            TextMetrics.NormalizedExactMatch(t, output, expected),
            TextMetrics.Score(t, output, keywords))
  }

  function EvaluateOne(t: TextMetrics.Script, item: Item, variant: Variant, g: Generation,
          latency: real): EvaluationResult
  {
    match g
    case Text(output) =>
      EvaluationResult(item.id, variant.name, variant.model, variant.provider, item.input, item.expected,
                       Some(output), latency,
                       Some(CalculateMetrics(t, output, item.expected, item.keywords)),
                       None, None, None, None, 0, None)
    case Response(output, inputTokens, outputTokens, totalTokens, cost, retries) =>
      EvaluationResult(item.id, variant.name, variant.model, variant.provider, item.input, item.expected,
                       Some(output), latency,
                       Some(CalculateMetrics(t, output, item.expected, item.keywords)),
                       inputTokens, outputTokens, totalTokens, cost, retries, None)
    case Raised(message, retries) =>
      EvaluationResult(item.id, variant.name, variant.model, variant.provider, item.input, item.expected,
                       None, latency, None, None, None, None, None, retries, Some(message))
  }

  /** Either metrics and an output, or an error and no usage; a quality lies in [0, 1]. */
  ghost predicate WellFormed(r: EvaluationResult) {
    && (r.metrics.Some? <==> r.error.None?)
    && (r.output.Some? <==> r.error.None?)
    && (r.error.Some? ==> r.inputTokens.None? && r.outputTokens.None? && r.totalTokens.None? && r.cost.None?)
    && (r.metrics.Some? ==>
        0.0 <= r.metrics.value.Quality() <= 1.0 && r.metrics.value.exact <= r.metrics.value.normalized)
  }

  /** The result is about this item and variant, and its usage or error is what the generator reported. */
  ghost predicate Carries(r: EvaluationResult, item: Item, variant: Variant, g: Generation, latency: real) {
    && r.itemId == item.id && r.input == item.input && r.expected == item.expected
    && r.variantName == variant.name && r.model == variant.model && r.provider == variant.provider
    && r.latency == latency
    && (!g.Raised? ==> r.output == Some(g.output))
    && (g.Raised? ==> r.error == Some(g.message))
    && (g.Response? ==>
          && r.inputTokens == g.inputTokens && r.outputTokens == g.outputTokens
          && r.totalTokens == g.totalTokens && r.cost == g.cost)
    && r.retries == (if g.Text? then 0 else g.retries)
  }

  /** Every evaluation ends in exactly one of the two shapes, whatever the generator does. */
  lemma EvaluateOneWellFormed(t: TextMetrics.Script, item: Item, variant: Variant, g: Generation, latency: real)
    requires t.Valid()
    ensures WellFormed(EvaluateOne(t, item, variant, g, latency))
    ensures EvaluateOne(t, item, variant, g, latency).error.Some? <==> g.Raised?
    ensures Carries(EvaluateOne(t, item, variant, g, latency), item, variant, g, latency)
  {
    if !g.Raised? {
      TextMetrics.ExactImpliesNormalized(t, g.output, item.expected);
      TextMetrics.KeywordScoreMonotone(t, "", g.output, "", item.keywords);
    }
  }

  /** Lowered, the two texts are one text between white space. */
  ghost predicate SameUpToPadding(t: TextMetrics.Script, a: string, b: string) {
    var lowerA, lowerB := TextMetrics.LowerAll(t, a), TextMetrics.LowerAll(t, b);
    exists core :: TextMetrics.Padded(t, lowerA, core) && TextMetrics.Padded(t, lowerB, core)
  }

  /**
   What the metrics of a result measure: the generator's output against the item's expected text
   and keywords.
   */
  lemma MetricsMeasure(t: TextMetrics.Script, item: Item, variant: Variant, g: Generation, latency: real)
    requires !g.Raised?
    ensures EvaluateOne(t, item, variant, g, latency).metrics.Some?
    ensures var m := EvaluateOne(t, item, variant, g, latency).metrics.value;
            && m.exact == (if SameUpToPadding(t, g.output, item.expected) then 1.0 else 0.0)
            && m.normalized == (if TextMetrics.NormalizeText(t, g.output) == TextMetrics.NormalizeText(t, item.expected)
                                then 1.0 else 0.0)
            && (item.keywords == [] ==> m.keyword == 1.0)
            && (item.keywords != [] ==>
                  m.keyword == |TextMetrics.Hits(t, g.output, item.keywords)| as real / |item.keywords| as real)
            && m.Quality() * 3.0 == m.exact + m.normalized + m.keyword
  {
    MatchesMeasure(t, g.output, item.expected, item.keywords);
    KeywordsMeasure(t, g.output, item.expected, item.keywords);
  }

  lemma MatchesMeasure(t: TextMetrics.Script, output: string, expected: string, keywords: seq<string>)
    ensures var m := CalculateMetrics(t, output, expected, keywords);
            && m.exact == (if SameUpToPadding(t, output, expected) then 1.0 else 0.0)
            && m.normalized == (if TextMetrics.NormalizeText(t, output) == TextMetrics.NormalizeText(t, expected)
                                then 1.0 else 0.0)
  {
    TextMetrics.ExactMatchIff(t, output, expected);
  }

  lemma KeywordsMeasure(t: TextMetrics.Script, output: string, expected: string, keywords: seq<string>)
    ensures var m := CalculateMetrics(t, output, expected, keywords);
            && (keywords == [] ==> m.keyword == 1.0)
            && (keywords != [] ==> m.keyword == |TextMetrics.Hits(t, output, keywords)| as real / |keywords| as real)
  {
    if keywords != [] {
      TextMetrics.ScoreCountsHits(t, output, keywords);
    }
  }
}
