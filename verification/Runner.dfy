/**
 `run_evaluation`: the inputs it enumerates and the imperative loop that drives the
 scheduler, filling an indexed array of results in completion order.
 */
module Runner {
  import opened Wrappers
  import opened Collections
  import opened Evaluation
  import opened Scheduler
  import TextMetrics

  // ---------------------------------------------------------------- enumerated inputs

  /** A cell of the item-by-variant grid, by positions in the two lists. */
  datatype Cell = Cell(item: nat, variant: nat)

  predicate Kept(dataset: seq<Item>, variants: seq<Variant>, skip: set<(string, string)>, c: Cell) {
    c.item < |dataset| && c.variant < |variants| && (dataset[c.item].id, variants[c.variant].name) !in skip
  }

  /** The cells of one item's first `v` variants. */
  function RowCells(dataset: seq<Item>, variants: seq<Variant>, skip: set<(string, string)>, i: nat, v: nat): seq<Cell>
    requires i < |dataset| && v <= |variants|
  {
    if v == 0 then []
    else
      var c := Cell(i, v - 1);
      RowCells(dataset, variants, skip, i, v - 1) + (if Kept(dataset, variants, skip, c) then [c] else [])
  }

  /** `indexed_inputs`, as positions: the first `n` items, each over all variants. */
  function CellsUpTo(dataset: seq<Item>, variants: seq<Variant>, skip: set<(string, string)>, n: nat): seq<Cell>
    requires n <= |dataset|
  {
    if n == 0 then []
    else CellsUpTo(dataset, variants, skip, n - 1) + RowCells(dataset, variants, skip, n - 1, |variants|)
  }

  function IndexedInputs(dataset: seq<Item>, variants: seq<Variant>, skip: set<(string, string)>): seq<Cell> {
    CellsUpTo(dataset, variants, skip, |dataset|)
  }

  /** Item-major, variant-minor order. */
  predicate Before(a: Cell, b: Cell) {
    a.item < b.item || (a.item == b.item && a.variant < b.variant)
  }

  ghost predicate Ordered(cells: seq<Cell>) {
    forall j, k :: 0 <= j < k < |cells| ==> Before(cells[j], cells[k])
  }

  lemma {:induction false} RowCellsSpec(dataset: seq<Item>, variants: seq<Variant>, skip: set<(string, string)>,
          i: nat, v: nat)
    requires i < |dataset| && v <= |variants|
    ensures var cells := RowCells(dataset, variants, skip, i, v);
            && Ordered(cells)
            && (forall c :: c in cells <==> c.item == i && c.variant < v && Kept(dataset, variants, skip, c))
  {
    if v > 0 {
      RowCellsSpec(dataset, variants, skip, i, v - 1);
    }
  }

  /** The list holds every kept cell of the first `n` items, and no other, in order. */
  ghost predicate ListsKept(dataset: seq<Item>, variants: seq<Variant>, skip: set<(string, string)>, cells: seq<Cell>,
          n: nat)
  {
    Ordered(cells) && forall c :: c in cells <==> c.item < n && Kept(dataset, variants, skip, c)
  }

  lemma {:induction false} CellsUpToSpec(dataset: seq<Item>, variants: seq<Variant>, skip: set<(string, string)>,
          n: nat)
    requires n <= |dataset|
    ensures ListsKept(dataset, variants, skip, CellsUpTo(dataset, variants, skip, n), n)
  {
    if n > 0 {
      CellsUpToSpec(dataset, variants, skip, n - 1);
      AppendRow(dataset, variants, skip, CellsUpTo(dataset, variants, skip, n - 1), n - 1);
    }
  }

  lemma AppendRow(dataset: seq<Item>, variants: seq<Variant>, skip: set<(string, string)>, before: seq<Cell>, i: nat)
    requires i < |dataset| && ListsKept(dataset, variants, skip, before, i)
    ensures ListsKept(dataset, variants, skip, before + RowCells(dataset, variants, skip, i, |variants|), i + 1)
  {
    RowCellsSpec(dataset, variants, skip, i, |variants|);
    OrderedConcat(before, RowCells(dataset, variants, skip, i, |variants|), i);
  }

  lemma OrderedConcat(before: seq<Cell>, row: seq<Cell>, i: nat)
    requires Ordered(before) && Ordered(row)
    requires forall c :: c in before ==> c.item < i
    requires forall c :: c in row ==> c.item == i
    ensures Ordered(before + row)
  {
    forall j, k | 0 <= j < k < |before + row| ensures Before((before + row)[j], (before + row)[k]) {
      if j < |before| <= k {
        assert before[j] in before && row[k - |before|] in row;
      }
    }
  }

  /** The enumeration lists exactly the cells that are not skipped, each once, item-major. */
  lemma IndexedInputsSpec(dataset: seq<Item>, variants: seq<Variant>, skip: set<(string, string)>)
    ensures var cells := IndexedInputs(dataset, variants, skip);
            && Ordered(cells)
            && (forall c :: c in cells <==> Kept(dataset, variants, skip, c))
  {
    CellsUpToSpec(dataset, variants, skip, |dataset|);
  }

  /** Two ordered enumerations of the same cells are the same: the order leaves no freedom. */
  lemma {:induction false} OrderedUnique(a: seq<Cell>, b: seq<Cell>)
    requires Ordered(a) && Ordered(b)
    requires forall c :: c in a <==> c in b
    ensures a == b
    decreases |a|
  {
    if a == [] {
      if b != [] {
        FirstIsMember(b);
        assert false;
      }
    } else {
      assert a[0] in b && b != [];
      assert b[0] in a;
      var j :| 0 <= j < |b| && b[j] == a[0];
      var k :| 0 <= k < |a| && a[k] == b[0];
      assert a[0] == b[0];
      forall c | c in a[1..] ensures c in b[1..] {
        assert c in b && c != b[0];
      }
      forall c | c in b[1..] ensures c in a[1..] {
        assert c in a && c != a[0];
      }
      OrderedUnique(a[1..], b[1..]);
    }
  }

  lemma FirstIsMember(cells: seq<Cell>)
    requires cells != []
    ensures cells[0] in cells
  {
  }

  // ---------------------------------------------------------------- the run

  datatype Outcome = InvalidConcurrency | Results(results: seq<EvaluationResult>) | Interrupted

  /** A completed generator call: what came back and how long it took. */
  datatype Call = Call(generation: Generation, latency: real)

  /** The filed results in slot order, empty slots left out. */
  function Compress<R>(slots: seq<Option<R>>): seq<R> {
    if slots == [] then []
    else
      var last := slots[|slots| - 1];
      Compress(slots[..|slots| - 1]) + (if last.Some? then [last.value] else [])
  }

  lemma {:induction false} CompressFull<R>(slots: seq<Option<R>>)
    requires forall i :: 0 <= i < |slots| ==> slots[i].Some?
    ensures |Compress(slots)| == |slots|
    ensures forall i :: 0 <= i < |slots| ==> Compress(slots)[i] == slots[i].value
  {
    if slots != [] {
      CompressFull(slots[..|slots| - 1]);
    }
  }

  /** Result `k` is the evaluation of cell `k` by the one generator call made for it. */
  ghost predicate ResultsOf(t: TextMetrics.Script, dataset: seq<Item>, variants: seq<Variant>,
                            cells: seq<Cell>, results: seq<EvaluationResult>, made: map<nat, Call>)
  {
    && |results| == |cells|
    && InGrid(dataset, variants, cells)
    && forall k :: 0 <= k < |cells| ==> k in made && results[k] == Evaluated(t, dataset, variants, cells[k], made[k])
  }

  function Evaluated(t: TextMetrics.Script, dataset: seq<Item>, variants: seq<Variant>, cell: Cell,
          call: Call): EvaluationResult
    requires cell.item < |dataset| && cell.variant < |variants|
  {
    EvaluateOne(t, dataset[cell.item], variants[cell.variant], call.generation, call.latency)
  }

  ghost predicate InGrid(dataset: seq<Item>, variants: seq<Variant>, cells: seq<Cell>) {
    forall k :: 0 <= k < |cells| ==> cells[k].item < |dataset| && cells[k].variant < |variants|
  }

  lemma IndexedInGrid(dataset: seq<Item>, variants: seq<Variant>, skip: set<(string, string)>)
    ensures InGrid(dataset, variants, IndexedInputs(dataset, variants, skip))
  {
    var cells := IndexedInputs(dataset, variants, skip);
    IndexedInputsSpec(dataset, variants, skip);
    assert forall k :: 0 <= k < |cells| ==> cells[k] in cells;
  }

  /**
   What happens next: any event the machine allows, and any outcome of a generator call.  The
   result filed for a finished call is the evaluation of its own cell.  An interruption of the
   clean-up changes nothing and is passed over.
   */
  method NextEvent(t: TextMetrics.Script, dataset: seq<Item>, variants: seq<Variant>, cells: seq<Cell>,
                   s: Sched<EvaluationResult>)
    returns (step: Step<EvaluationResult>, call: Call)
    requires Ok(s) && s.limit >= 1 && !Over(s.mode)
    requires |s.tasks| == |cells| && InGrid(dataset, variants, cells)
    ensures Enabled(s, step) && !step.InterruptAgain?
    ensures step.Finish? ==>
        step.task < |cells| && step.result == Evaluated(t, dataset, variants, cells[step.task], call)
  {
    call := *;
    var any: EvaluationResult := *;
    NeverStuck(s, any);
    step :| Enabled(s, step) && !step.InterruptAgain?;
    if step.Finish? {
      step := Finish(step.task, Evaluated(t, dataset, variants, cells[step.task], call));
    }
  }

  /** One event, applied in place to the task table and the result slots. */
  method Perform(step: Step<EvaluationResult>, limit: nat, reports: bool,
                 tasks: array<TaskState<EvaluationResult>>, orderedResults: array<Option<EvaluationResult>>,
                 finished: seq<nat>, calls: seq<nat>, reported: seq<nat>, mode: Mode)
    returns (finished': seq<nat>, calls': seq<nat>, reported': seq<nat>, mode': Mode)
    requires Enabled(Sched(limit, reports, tasks[..], finished, orderedResults[..], calls, reported, mode), step)
    modifies tasks, orderedResults
    ensures Sched(limit, reports, tasks[..], finished', orderedResults[..], calls', reported', mode')
         == Next(old(Sched(limit, reports, tasks[..], finished, orderedResults[..], calls, reported, mode)), step)
  {
    finished', calls', reported', mode' := finished, calls, reported, mode;
    match step
    case Acquire(i) =>
      tasks[i] := Generating;
      calls' := calls + [i];
    case Finish(i, result) =>
      tasks[i] := Done(result);
      finished' := finished + [i];
    case Collect =>
      var index := finished[0];
      finished' := finished[1..];
      orderedResults[index] := Some(tasks[index].result);
      mode' := if reports then Reporting(index) else Collecting;
    case CallbackReturns =>
      reported' := reported + [mode.index];
      mode' := Collecting;
    case CallbackRaises =>
      mode' := Unwinding;
    case Interrupt =>
      mode' := Unwinding;
    case Drop(i) =>
      tasks[i] := Dropped;
    case Return =>
      mode' := Returned;
    case Rethrow =>
      mode' := Mode.Raised;
    case InterruptAgain =>
  }

  /** Every finished task holds the evaluation of its cell by the call made for it. */
  ghost predicate Faithful(t: TextMetrics.Script, dataset: seq<Item>, variants: seq<Variant>, cells: seq<Cell>,
                           tasks: seq<TaskState<EvaluationResult>>, made: map<nat, Call>)
  {
    && |tasks| == |cells|
    && InGrid(dataset, variants, cells)
    && forall k :: 0 <= k < |tasks| && tasks[k].Done? ==>
         k in made && tasks[k].result == Evaluated(t, dataset, variants, cells[k], made[k])
  }

  lemma FaithfulStep(t: TextMetrics.Script, dataset: seq<Item>, variants: seq<Variant>, cells: seq<Cell>,
                     s: Sched<EvaluationResult>, made: map<nat, Call>, step: Step<EvaluationResult>, call: Call)
    requires Faithful(t, dataset, variants, cells, s.tasks, made) && Enabled(s, step)
    requires step.Finish? ==>
        step.task < |cells| && step.result == Evaluated(t, dataset, variants, cells[step.task], call)
    ensures Faithful(t, dataset, variants, cells, Next(s, step).tasks,
                     if step.Finish? then made[step.task := call] else made)
  {
  }

  /** One event keeps the loop's invariants and brings its end nearer. */
  lemma Advance(t: TextMetrics.Script, dataset: seq<Item>, variants: seq<Variant>, cells: seq<Cell>,
                s: Sched<EvaluationResult>, made: map<nat, Call>, step: Step<EvaluationResult>, call: Call)
    requires Ok(s) && Faithful(t, dataset, variants, cells, s.tasks, made)
    requires Enabled(s, step) && !step.InterruptAgain?
    requires step.Finish? ==>
        step.task < |cells| && step.result == Evaluated(t, dataset, variants, cells[step.task], call)
    ensures Ok(Next(s, step)) && Measure(Next(s, step)) < Measure(s)
    ensures Faithful(t, dataset, variants, cells, Next(s, step).tasks,
                     if step.Finish? then made[step.task := call] else made)
  {
    StepOk(s, step);
    StepDecreases(s, step);
    FaithfulStep(t, dataset, variants, cells, s, made, step, call);
  }

  lemma ReturnedResults(t: TextMetrics.Script, dataset: seq<Item>, variants: seq<Variant>, cells: seq<Cell>,
                        s: Sched<EvaluationResult>, made: map<nat, Call>)
    requires Ok(s) && s.mode.Returned? && Faithful(t, dataset, variants, cells, s.tasks, made)
    ensures ResultsOf(t, dataset, variants, cells, Compress(s.slots), made)
    ensures ListsAll(s.calls, |cells|)
    ensures s.reports ==> ListsAll(s.reported, |cells|)
  {
    ReturnedListsAll(s);
    CompressFull(s.slots);
    assert forall k :: 0 <= k < |cells| ==> s.tasks[k] == Done(s.slots[k].value);
  }

  /**
   For every order in which the event loop lets tasks start, finish and be collected, and for
   every generator and callback behaviour: a run that returns lists one result per cell that is
   not skipped, item-major, having called the generator and the callback once for each.  However it
   ends, every task it has created is over; `ended` is what became of them.
   */
  method RunEvaluation(t: TextMetrics.Script, dataset: seq<Item>, variants: seq<Variant>, concurrency: int,
                       reports: bool, skip: set<(string, string)>)
    returns (outcome: Outcome, calls: seq<nat>, reported: seq<nat>, made: map<nat, Call>,
             ended: seq<TaskState<EvaluationResult>>)
    ensures outcome == InvalidConcurrency <==> concurrency < 1
    ensures outcome.Results? ==>
              var cells := IndexedInputs(dataset, variants, skip);
              && ResultsOf(t, dataset, variants, cells, outcome.results, made)
              && ListsAll(calls, |cells|)
              && (reports ==> ListsAll(reported, |cells|))
    ensures outcome.Results? || outcome.Interrupted? ==>
              && |ended| == |IndexedInputs(dataset, variants, skip)|
              && forall k :: 0 <= k < |ended| ==> !Unfinished(ended[k])
  {
    ended := [];
    calls, reported, made := [], [], map[];
    if concurrency < 1 {
      return InvalidConcurrency, calls, reported, made, ended;
    }
    var cells := IndexedInputs(dataset, variants, skip);
    IndexedInGrid(dataset, variants, skip);
    var n := |cells|;
    var tasks := new TaskState<EvaluationResult>[n](_ => Waiting);
    var orderedResults := new Option<EvaluationResult>[n](_ => None);
    var finished: seq<nat> := [];
    var mode: Mode := Collecting;
    ghost var s := Initial<EvaluationResult>(concurrency, reports, n);
    InitialOk<EvaluationResult>(concurrency, reports, n);
    while !Over(mode)
      invariant s == Sched(concurrency, reports, tasks[..], finished, orderedResults[..], calls, reported, mode)
      invariant Ok(s)
      invariant Faithful(t, dataset, variants, cells, s.tasks, made)
      decreases Measure(s)
    {
      var now := Sched(concurrency, reports, tasks[..], finished, orderedResults[..], calls, reported, mode);
      var step, call := NextEvent(t, dataset, variants, cells, now);
      Advance(t, dataset, variants, cells, s, made, step, call);
      finished, calls, reported, mode :=
        Perform(step, concurrency, reports, tasks, orderedResults, finished, calls, reported, mode);
      if step.Finish? {
        made := made[step.task := call];
      }
      s := Next(s, step);
    }
    OverLeavesNothing(s);
    ended := tasks[..];
    if mode.Returned? {
      ReturnedResults(t, dataset, variants, cells, s, made);
      outcome := Results(Compress(orderedResults[..]));
    } else {
      outcome := Interrupted;
    }
  }

  ghost predicate DistinctIds(dataset: seq<Item>, variants: seq<Variant>) {
    && (forall i, j :: 0 <= i < j < |dataset| ==> dataset[i].id != dataset[j].id)
    && (forall i, j :: 0 <= i < j < |variants| ==> variants[i].name != variants[j].name)
  }

  /** Result `r` is about the item called `id` and the variant called `name`. */
  predicate About(r: EvaluationResult, id: string, name: string) {
    r.itemId == id && r.variantName == name
  }

  lemma CellOfResult(t: TextMetrics.Script, dataset: seq<Item>, variants: seq<Variant>, skip: set<(string, string)>,
                     results: seq<EvaluationResult>, made: map<nat, Call>, k: nat)
    requires ResultsOf(t, dataset, variants, IndexedInputs(dataset, variants, skip), results, made) && k < |results|
    ensures (results[k].itemId, results[k].variantName) !in skip
  {
    var cells := IndexedInputs(dataset, variants, skip);
    IndexedInputsSpec(dataset, variants, skip);
    assert cells[k] in cells;
  }

  lemma IndexOfCell(dataset: seq<Item>, variants: seq<Variant>, skip: set<(string, string)>, c: Cell) returns (k: nat)
    requires Kept(dataset, variants, skip, c)
    ensures k < |IndexedInputs(dataset, variants, skip)| && IndexedInputs(dataset, variants, skip)[k] == c
  {
    var cells := IndexedInputs(dataset, variants, skip);
    IndexedInputsSpec(dataset, variants, skip);
    assert c in cells;
    k :| 0 <= k < |cells| && cells[k] == c;
  }

  lemma ResultOfCell(t: TextMetrics.Script, dataset: seq<Item>, variants: seq<Variant>, skip: set<(string, string)>,
                     results: seq<EvaluationResult>, made: map<nat, Call>, i: nat, v: nat)
    returns (k: nat)
    requires ResultsOf(t, dataset, variants, IndexedInputs(dataset, variants, skip), results, made)
    requires Kept(dataset, variants, skip, Cell(i, v))
    ensures k < |results| && About(results[k], dataset[i].id, variants[v].name)
  {
    k := IndexOfCell(dataset, variants, skip, Cell(i, v));
  }

  /** A pair has a returned result exactly when it is not skipped. */
  lemma ResultIffNotSkipped(t: TextMetrics.Script, dataset: seq<Item>, variants: seq<Variant>,
          skip: set<(string, string)>,
                            results: seq<EvaluationResult>, made: map<nat, Call>, i: nat, v: nat)
    requires ResultsOf(t, dataset, variants, IndexedInputs(dataset, variants, skip), results, made)
    requires i < |dataset| && v < |variants|
    ensures (dataset[i].id, variants[v].name) !in skip
       <==> exists r :: r in results && About(r, dataset[i].id, variants[v].name)
  {
    if (dataset[i].id, variants[v].name) !in skip {
      var k := ResultOfCell(t, dataset, variants, skip, results, made, i, v);
      assert results[k] in results;
    }
    if r :| r in results && About(r, dataset[i].id, variants[v].name) {
      var k :| 0 <= k < |results| && results[k] == r;
      CellOfResult(t, dataset, variants, skip, results, made, k);
    }
  }

  /** No pair has two returned results. */
  lemma ResultsAreDistinct(t: TextMetrics.Script, dataset: seq<Item>, variants: seq<Variant>,
          skip: set<(string, string)>,
                           results: seq<EvaluationResult>, made: map<nat, Call>, j: nat, k: nat)
    requires ResultsOf(t, dataset, variants, IndexedInputs(dataset, variants, skip), results, made)
    requires DistinctIds(dataset, variants) && j < k < |results|
    ensures !About(results[j], results[k].itemId, results[k].variantName)
  {
    var cells := IndexedInputs(dataset, variants, skip);
    IndexedInputsSpec(dataset, variants, skip);
    assert cells[j] in cells && cells[k] in cells && Before(cells[j], cells[k]);
  }
}
