/** The worker's loop and the runner agree on what is to be evaluated. */
module RunComposition {
  import opened Wrappers
  import opened Collections
  import opened RunModel
  import Evaluation
  import Runner
  import Scheduler

  /** `core_items` and `core_variants` of a prepared run: ids and names are those of the snapshot, each once. */
  ghost predicate Presents(plan: Plan, dataset: seq<Evaluation.Item>, variants: seq<Evaluation.Variant>) {
    && Runner.DistinctIds(dataset, variants)
    && (forall i :: i in plan.items <==> exists k :: 0 <= k < |dataset| && dataset[k].id == i)
    && (forall n :: n in plan.names.Values <==> exists k :: 0 <= k < |variants| && variants[k].name == n)
  }

  function SkipPairs(skip: set<Task>): set<(string, string)> {
    set t | t in skip :: (t.item, t.name)
  }

  /** The task of the cell the runner files at index `k`. */
  function TaskAt(dataset: seq<Evaluation.Item>, variants: seq<Evaluation.Variant>, cells: seq<Runner.Cell>,
          k: nat): Task
    requires k < |cells| && Runner.InGrid(dataset, variants, cells)
  {
    Task(dataset[cells[k].item].id, variants[cells[k].variant].name)
  }

  /**
   The inputs the runner enumerates for a prepared run name every task still to be evaluated,
   no other, and each once; so a run that returns has called back once for each of them.
   */
  lemma RunnerEvaluatesTodo(plan: Plan, dataset: seq<Evaluation.Item>, variants: seq<Evaluation.Variant>, t: Task)
    requires Presents(plan, dataset, variants)
    ensures var cells := Runner.IndexedInputs(dataset, variants, SkipPairs(plan.skip));
            && Runner.InGrid(dataset, variants, cells)
            && (t in Tasks(plan.items, plan.names) - plan.skip
                <==> exists k :: 0 <= k < |cells| && TaskAt(dataset, variants, cells, k) == t)
            && (forall j, k :: 0 <= j < k < |cells| ==>
                  TaskAt(dataset, variants, cells, j) != TaskAt(dataset, variants, cells, k))
  {
    var cells := Runner.IndexedInputs(dataset, variants, SkipPairs(plan.skip));
    Runner.IndexedInputsSpec(dataset, variants, SkipPairs(plan.skip));
    assert forall k :: 0 <= k < |cells| ==> cells[k] in cells;
    assert Runner.InGrid(dataset, variants, cells);
    if t in Tasks(plan.items, plan.names) - plan.skip {
      assert t.item in plan.items && t.name in plan.names.Values;
      var i :| 0 <= i < |dataset| && dataset[i].id == t.item;
      var v :| 0 <= v < |variants| && variants[v].name == t.name;
      assert Runner.Cell(i, v) in cells;
      var k :| 0 <= k < |cells| && cells[k] == Runner.Cell(i, v);
      assert TaskAt(dataset, variants, cells, k) == t;
    }
    if k :| 0 <= k < |cells| && TaskAt(dataset, variants, cells, k) == t {
      TaskOfCell(plan, dataset, variants, cells[k]);
    }
    forall j, k | 0 <= j < k < |cells|
      ensures TaskAt(dataset, variants, cells, j) != TaskAt(dataset, variants, cells, k)
    {
      assert Runner.Before(cells[j], cells[k]);
    }
  }

  lemma TaskOfCell(plan: Plan, dataset: seq<Evaluation.Item>, variants: seq<Evaluation.Variant>, c: Runner.Cell)
    requires Presents(plan, dataset, variants) && Runner.Kept(dataset, variants, SkipPairs(plan.skip), c)
    ensures Task(dataset[c.item].id, variants[c.variant].name) in Tasks(plan.items, plan.names) - plan.skip
  {
    var t := Task(dataset[c.item].id, variants[c.variant].name);
    assert t.item in plan.items;
    assert t.name in plan.names.Values;
    var v :| v in plan.names && plan.names[v] == t.name;
    assert t in Tasks(plan.items, plan.names);
    assert t in plan.skip ==> (t.item, t.name) in SkipPairs(plan.skip);
  }
}
