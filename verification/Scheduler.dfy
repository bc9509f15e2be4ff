/**
 The evaluation scheduler as a state machine: tasks behind a counting semaphore, a consumer
 that takes them in completion order, files each result under its index and awaits the
 callback, and the clean-up that cancels what is unfinished when the consumer is cut short.
 */
module Scheduler {
  import opened Wrappers
  import opened Collections

  datatype TaskState<+R> = Waiting | Generating | Done(result: R) | Dropped

  datatype Mode = Collecting | Reporting(index: nat) | Unwinding | Returned | Raised

  /**
   `finished` holds completed tasks not yet taken by the consumer, in completion order;
   `calls` and `reported` log the generator and callback calls.
   */
  datatype Sched<+R> = Sched(
    limit: nat,
    reports: bool,
    tasks: seq<TaskState<R>>,
    finished: seq<nat>,
    slots: seq<Option<R>>,
    calls: seq<nat>,
    reported: seq<nat>,
    mode: Mode)

  /**
   `InterruptAgain` is a cancellation delivered during the clean-up: the awaited gathering passes it
   on to its children, which are being cancelled already, and is over only when all of them are.
   */
  datatype Step<+R> =
    | Acquire(task: nat)
    | Finish(task: nat, result: R)
    | Collect
    | CallbackReturns
    | CallbackRaises
    | Interrupt
    | Drop(task: nat)
    | Return
    | Rethrow
    | InterruptAgain

  function Initial<R>(limit: nat, reports: bool, n: nat): Sched<R> {
    Sched(limit, reports, seq(n, _ => Waiting), [], seq(n, _ => None), [], [], Collecting)
  }

  function Active<R>(tasks: seq<TaskState<R>>): set<nat> {
    set i | 0 <= i < |tasks| && tasks[i].Generating?
  }

  predicate Unfinished<R>(task: TaskState<R>) {
    task.Waiting? || task.Generating?
  }

  predicate InLoop(mode: Mode) {
    mode.Collecting? || mode.Reporting?
  }

  predicate Over(mode: Mode) {
    mode.Returned? || mode.Raised?
  }

  predicate Enabled<R>(s: Sched<R>, step: Step<R>) {
    match step
    case Acquire(i) => InLoop(s.mode) && i < |s.tasks| && s.tasks[i].Waiting? && |Active(s.tasks)| < s.limit
    case Finish(i, _) => !Over(s.mode) && i < |s.tasks| && s.tasks[i].Generating?
    case Collect => s.mode.Collecting? && s.finished != [] && s.finished[0] < |s.tasks| && s.finished[0] < |s.slots|
                    && s.tasks[s.finished[0]].Done?
    case CallbackReturns => s.mode.Reporting?
    case CallbackRaises => s.mode.Reporting?
    case Interrupt => InLoop(s.mode)
    case Drop(i) => s.mode.Unwinding? && i < |s.tasks| && Unfinished(s.tasks[i])
    case Return => s.mode.Collecting? && forall i :: 0 <= i < |s.slots| ==> s.slots[i].Some?
    case Rethrow => s.mode.Unwinding? && forall i :: 0 <= i < |s.tasks| ==> !Unfinished(s.tasks[i])
    case InterruptAgain => s.mode.Unwinding? && exists i :: 0 <= i < |s.tasks| && Unfinished(s.tasks[i])
  }

  function Next<R>(s: Sched<R>, step: Step<R>): Sched<R>
    requires Enabled(s, step)
  {
    match step
    case Acquire(i) => s.(tasks := s.tasks[i := Generating], calls := s.calls + [i])
    case Finish(i, r) => s.(tasks := s.tasks[i := Done(r)], finished := s.finished + [i])
    case Collect =>
      var i := s.finished[0];
      s.(finished := s.finished[1..], slots := s.slots[i := Some(s.tasks[i].result)],
         mode := if s.reports then Reporting(i) else Collecting)
    case CallbackReturns => s.(reported := s.reported + [s.mode.index], mode := Collecting)
    case CallbackRaises => s.(mode := Unwinding)
    case Interrupt => s.(mode := Unwinding)
    case Drop(i) => s.(tasks := s.tasks[i := Dropped])
    case Return => s.(mode := Returned)
    case Rethrow => s.(mode := Raised)
    case InterruptAgain => s
  }

  predicate IsRun<R>(s: Sched<R>, steps: seq<Step<R>>)
    decreases |steps|
  {
    steps == [] || (Enabled(s, steps[0]) && IsRun(Next(s, steps[0]), steps[1..]))
  }

  function Final<R>(s: Sched<R>, steps: seq<Step<R>>): Sched<R>
    requires IsRun(s, steps)
    decreases |steps|
  {
    if steps == [] then s else Final(Next(s, steps[0]), steps[1..])
  }

  // ---------------------------------------------------------------- the invariant

  ghost predicate ShapeOk<R>(s: Sched<R>) {
    && |s.slots| == |s.tasks|
    && |Active(s.tasks)| <= s.limit
  }

  /** Filed results are those of finished tasks; a finished task waits in the queue or is filed. */
  ghost predicate FilingOk<R>(s: Sched<R>)
    requires |s.slots| == |s.tasks|
  {
    && Distinct(s.finished)
    && (forall i :: i in s.finished ==> i < |s.tasks| && s.tasks[i].Done? && s.slots[i].None?)
    && (forall i :: 0 <= i < |s.tasks| && s.slots[i].Some? ==> s.tasks[i] == Done(s.slots[i].value))
    && (InLoop(s.mode) ==>
          forall i :: 0 <= i < |s.tasks| ==>
              !s.tasks[i].Dropped? && (s.tasks[i].Done? ==> i in s.finished || s.slots[i].Some?))
  }

  /** Each task calls the generator at most once, and has called it once it is past waiting. */
  ghost predicate CallsOk<R>(s: Sched<R>) {
    && Distinct(s.calls)
    && (forall i :: i in s.calls ==> i < |s.tasks| && !s.tasks[i].Waiting?)
    && (forall i :: 0 <= i < |s.tasks| && (s.tasks[i].Generating? || s.tasks[i].Done?) ==> i in s.calls)
  }

  /** Each filed result is reported once, the one being reported last. */
  ghost predicate ReportsOk<R>(s: Sched<R>)
    requires |s.slots| == |s.tasks|
  {
    && Distinct(s.reported)
    && (forall i :: i in s.reported ==> i < |s.slots| && s.slots[i].Some?)
    && (s.mode.Reporting? ==>
        s.reports && s.mode.index < |s.slots| && s.slots[s.mode.index].Some? && s.mode.index !in s.reported)
    && (s.reports && (InLoop(s.mode) || s.mode.Returned?) ==>
          forall i :: 0 <= i < |s.slots| && s.slots[i].Some? && s.mode != Reporting(i) ==> i in s.reported)
  }

  ghost predicate ExitsOk<R>(s: Sched<R>) {
    && (s.mode.Returned? ==> forall i :: 0 <= i < |s.slots| ==> s.slots[i].Some?)
    && (s.mode.Raised? ==> forall i :: 0 <= i < |s.tasks| ==> !Unfinished(s.tasks[i]))
  }

  ghost predicate Ok<R>(s: Sched<R>) {
    ShapeOk(s) && FilingOk(s) && CallsOk(s) && ReportsOk(s) && ExitsOk(s)
  }

  lemma InitialOk<R>(limit: nat, reports: bool, n: nat)
    ensures Ok(Initial<R>(limit, reports, n))
  {
    assert Active(Initial<R>(limit, reports, n).tasks) == {};
  }

  lemma ShapeStep<R>(s: Sched<R>, step: Step<R>)
    requires ShapeOk(s) && Enabled(s, step)
    ensures ShapeOk(Next(s, step))
  {
    var s' := Next(s, step);
    match step
    case Acquire(i) => assert Active(s'.tasks) == Active(s.tasks) + {i};
    case Finish(i, _) =>
      assert Active(s'.tasks) == Active(s.tasks) - {i};
    case Drop(i) =>
      assert Active(s'.tasks) == Active(s.tasks) - {i};
      SubsetCardinality(Active(s'.tasks), Active(s.tasks));
    case _ =>
  }

  lemma FilingFinish<R>(s: Sched<R>, i: nat, r: R)
    requires ShapeOk(s) && FilingOk(s) && Enabled(s, Finish(i, r))
    ensures FilingOk(Next(s, Finish(i, r)))
  {
    assert i !in s.finished;
  }

  lemma FilingCollect<R>(s: Sched<R>)
    requires ShapeOk(s) && FilingOk(s) && Enabled(s, Collect)
    ensures FilingOk(Next(s, Collect))
  {
    var s' := Next(s, Collect);
    assert s.finished == [s.finished[0]] + s'.finished;
    assert forall i :: i in s'.finished ==> i in s.finished;
    assert s.finished[0] !in s'.finished;
  }

  lemma FilingStep<R>(s: Sched<R>, step: Step<R>)
    requires ShapeOk(s) && FilingOk(s) && Enabled(s, step)
    ensures ShapeOk(Next(s, step)) && FilingOk(Next(s, step))
  {
    ShapeStep(s, step);
    match step
    case Finish(i, r) => FilingFinish(s, i, r);
    case Collect => FilingCollect(s);
    case _ =>
  }

  lemma CallsStep<R>(s: Sched<R>, step: Step<R>)
    requires CallsOk(s) && Enabled(s, step)
    ensures CallsOk(Next(s, step))
  {
  }

  lemma ReportsStep<R>(s: Sched<R>, step: Step<R>)
    requires ShapeOk(s) && FilingOk(s) && ReportsOk(s) && Enabled(s, step)
    ensures ShapeOk(Next(s, step)) ==> ReportsOk(Next(s, step))
  {
    match step
    case Collect => assert s.finished[0] in s.finished;
    case _ =>
  }

  lemma StepOk<R>(s: Sched<R>, step: Step<R>)
    requires Ok(s) && Enabled(s, step)
    ensures Ok(Next(s, step))
  {
    ShapeStep(s, step);
    FilingStep(s, step);
    CallsStep(s, step);
    ReportsStep(s, step);
  }

  lemma {:induction false} RunOk<R>(s: Sched<R>, steps: seq<Step<R>>)
    requires Ok(s) && IsRun(s, steps)
    ensures Ok(Final(s, steps))
    ensures Final(s, steps).limit == s.limit && Final(s, steps).reports == s.reports
    ensures |Final(s, steps).tasks| == |s.tasks|
    decreases |steps|
  {
    if steps != [] {
      StepOk(s, steps[0]);
      RunOk(Next(s, steps[0]), steps[1..]);
    }
  }

  // ---------------------------------------------------------------- main results

  /** A sequence that lists 0 .. n-1, each once, in some order. */
  ghost predicate ListsAll(log: seq<nat>, n: nat) {
    && Distinct(log)
    && (forall i: nat :: i in log <==> i < n)
  }

  /**
   In every reachable state at most `limit` generator calls are in flight and none is repeated; and
   however the function leaves, and however often it is interrupted, no task is left running.
   */
  lemma ReachableBounded<R>(limit: nat, reports: bool, n: nat, steps: seq<Step<R>>)
    requires IsRun(Initial<R>(limit, reports, n), steps)
    ensures var s := Final(Initial<R>(limit, reports, n), steps);
            && |Active(s.tasks)| <= limit
            && Distinct(s.calls)
            && |s.tasks| == n
            && (Over(s.mode) ==> forall i :: 0 <= i < |s.tasks| ==> !Unfinished(s.tasks[i]))
  {
    InitialOk<R>(limit, reports, n);
    RunOk(Initial<R>(limit, reports, n), steps);
    if Over(Final(Initial<R>(limit, reports, n), steps).mode) {
      OverLeavesNothing(Final(Initial<R>(limit, reports, n), steps));
    }
  }

  lemma OverLeavesNothing<R>(s: Sched<R>)
    requires Ok(s) && Over(s.mode)
    ensures forall i :: 0 <= i < |s.tasks| ==> !Unfinished(s.tasks[i])
  {
    if s.mode.Returned? {
      assert forall i :: 0 <= i < |s.tasks| ==> s.tasks[i] == Done(s.slots[i].value);
    }
  }

  /** A call that returns has called the generator, and the callback if there is one, once per task. */
  lemma ReturnedIsComplete<R>(limit: nat, reports: bool, n: nat, steps: seq<Step<R>>)
    requires IsRun(Initial<R>(limit, reports, n), steps)
    requires Final(Initial<R>(limit, reports, n), steps).mode.Returned?
    ensures var s := Final(Initial<R>(limit, reports, n), steps);
            && |s.slots| == n && |s.tasks| == n
            && (forall i :: 0 <= i < n ==> s.slots[i].Some? && s.tasks[i] == Done(s.slots[i].value))
            && ListsAll(s.calls, n)
            && (reports ==> ListsAll(s.reported, n))
  {
    InitialOk<R>(limit, reports, n);
    RunOk(Initial<R>(limit, reports, n), steps);
    ReturnedListsAll(Final(Initial<R>(limit, reports, n), steps));
  }

  lemma ReturnedListsAll<R>(s: Sched<R>)
    requires Ok(s) && s.mode.Returned?
    ensures ListsAll(s.calls, |s.tasks|)
    ensures s.reports ==> ListsAll(s.reported, |s.tasks|)
  {
    assert forall i :: 0 <= i < |s.tasks| ==> s.tasks[i] == Done(s.slots[i].value);
  }

  // ---------------------------------------------------------------- progress

  function Weight<R>(tasks: seq<TaskState<R>>): nat {
    if tasks == [] then 0
    else
      var last := tasks[|tasks| - 1];
      Weight(tasks[..|tasks| - 1]) + (if last.Waiting? then 2 else if last.Generating? then 1 else 0)
  }

  function Empty<R>(slots: seq<Option<R>>): nat {
    if slots == [] then 0
    else Empty(slots[..|slots| - 1]) + (if slots[|slots| - 1].None? then 1 else 0)
  }

  function Measure<R>(s: Sched<R>): nat {
    Weight(s.tasks) + 2 * Empty(s.slots)
    + match s.mode
      case Collecting => 3
      case Reporting(_) => 4
      case Unwinding => 2
      case _ => 0
  }

  lemma {:induction false} WeightUpdate<R>(tasks: seq<TaskState<R>>, i: nat, state: TaskState<R>)
    requires i < |tasks|
    ensures Weight(tasks[i := state]) - (if state.Waiting? then 2 else if state.Generating? then 1 else 0)
         == Weight(tasks) - (if tasks[i].Waiting? then 2 else if tasks[i].Generating? then 1 else 0)
  {
    var last := |tasks| - 1;
    if i == last {
      assert tasks[i := state][..last] == tasks[..last];
    } else {
      WeightUpdate(tasks[..last], i, state);
      assert tasks[i := state][..last] == tasks[..last][i := state];
    }
  }

  lemma {:induction false} EmptyUpdate<R>(slots: seq<Option<R>>, i: nat, value: R)
    requires i < |slots| && slots[i].None?
    ensures Empty(slots[i := Some(value)]) == Empty(slots) - 1
  {
    var last := |slots| - 1;
    if i == last {
      assert slots[i := Some(value)][..last] == slots[..last];
    } else {
      EmptyUpdate(slots[..last], i, value);
      assert slots[i := Some(value)][..last] == slots[..last][i := Some(value)];
    }
  }

  lemma StepDecreases<R>(s: Sched<R>, step: Step<R>)
    requires Ok(s) && Enabled(s, step) && !step.InterruptAgain?
    ensures Measure(Next(s, step)) < Measure(s)
  {
    match step
    case Acquire(i) => WeightUpdate(s.tasks, i, Generating);
    case Finish(i, r) => WeightUpdate(s.tasks, i, Done(r));
    case Drop(i) => WeightUpdate(s.tasks, i, Dropped);
    case Collect =>
      assert s.finished[0] in s.finished;
      EmptyUpdate(s.slots, s.finished[0], s.tasks[s.finished[0]].result);
    case _ =>
  }

  lemma {:induction false} InitialMeasure<R>(limit: nat, reports: bool, n: nat)
    ensures Measure(Initial<R>(limit, reports, n)) == 4 * n + 3
  {
    if n > 0 {
      var s, t := Initial<R>(limit, reports, n), Initial<R>(limit, reports, n - 1);
      assert s.tasks[..n - 1] == t.tasks && s.slots[..n - 1] == t.slots;
      InitialMeasure<R>(limit, reports, n - 1);
    }
  }

  /** The steps that are not repeated interruptions. */
  function Progress<R>(steps: seq<Step<R>>): nat {
    if steps == [] then 0 else (if steps[0].InterruptAgain? then 0 else 1) + Progress(steps[1..])
  }

  lemma {:induction false} RunShrinks<R>(s: Sched<R>, steps: seq<Step<R>>)
    requires Ok(s) && IsRun(s, steps)
    ensures Progress(steps) + Measure(Final(s, steps)) <= Measure(s)
    decreases |steps|
  {
    if steps != [] {
      if !steps[0].InterruptAgain? {
        StepDecreases(s, steps[0]);
      }
      StepOk(s, steps[0]);
      RunShrinks(Next(s, steps[0]), steps[1..]);
    }
  }

  /** Whatever the order, the whole run is over after at most 4n + 3 steps, repeated interruptions aside. */
  lemma RunsAreBounded<R>(limit: nat, reports: bool, n: nat, steps: seq<Step<R>>)
    requires IsRun(Initial<R>(limit, reports, n), steps)
    ensures Progress(steps) <= 4 * n + 3
  {
    InitialOk<R>(limit, reports, n);
    InitialMeasure<R>(limit, reports, n);
    RunShrinks(Initial<R>(limit, reports, n), steps);
  }

  /** With at least one permit some step other than a failure is possible until the function leaves. */
  lemma NeverStuck<R>(s: Sched<R>, r: R)
    requires Ok(s) && s.limit >= 1 && !Over(s.mode)
    ensures exists step :: Enabled(s, step) && !step.CallbackRaises? && !step.Interrupt? && !step.InterruptAgain?
  {
    var step: Step<R>;
    if s.mode.Reporting? {
      step := CallbackReturns;
    } else if i :| 0 <= i < |s.tasks| && s.tasks[i].Generating? {
      step := Finish(i, r);
    } else if s.mode.Unwinding? {
      if i :| 0 <= i < |s.tasks| && Unfinished(s.tasks[i]) {
        step := Drop(i);
      } else {
        step := Rethrow;
      }
    } else if s.finished != [] {
      assert s.finished[0] in s.finished;
      step := Collect;
    } else if i :| 0 <= i < |s.tasks| && s.tasks[i].Waiting? {
      assert Active(s.tasks) == {};
      step := Acquire(i);
    } else {
      step := Return;
      assert forall i :: 0 <= i < |s.slots| ==> s.slots[i].Some? by {
        forall i | 0 <= i < |s.slots| ensures s.slots[i].Some? { assert s.tasks[i].Done?; }
      }
    }
    assert Enabled(s, step);
  }
}
