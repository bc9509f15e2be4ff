/**
 When `completed` is final: any number of attempts may still be alive beside a completed run, and
 some of them write over it without any exception.
 */
module RunCompletion {
  import opened Wrappers
  import opened Collections
  import opened RunModel
  import opened RunSafety

  /** Steps other than exceptions and deletions or additions of inputs. */
  predicate Calm(step: Step) {
    && KeepsInputs(step)
    && step != SchedulingFailed
    && (step.Work? ==> !step.action.Interrupt? && !step.action.Fault?)
  }

  predicate CalmRun(s: State, steps: seq<Step>) {
    IsRun(s, steps) && forall step :: step in steps ==> Calm(step)
  }

  /**
   The attempt will put another status in place of `completed`: it is preparing from a read that
   did not say `running`, it has tasks left that are all stored by now, or it is ending.
   */
  ghost predicate Unsettles(phase: Phase) {
    match phase
    case RowRead(row, _) => row.status != Running
    case ItemsRead(row, _, _) => row.status != Running
    case ResultsRead(row, names, items, existing) => row.status != Running ||
        !(Grid(items, names) <= Elements(existing))
    case Looping(_, todo, _) => todo != {}
    case Persisting(_, _, _, _, _) => true
    case Ending(_) => true
    case EndingRead(outcome, seen) => outcome != seen
    case _ => false
  }

  ghost predicate Settled(s: State) {
    forall a :: a in s.attempts ==> !Unsettles(s.attempts[a])
  }

  // ---------------------------------------------------------------- sufficiency

  /** All pairs read as stored leaves nothing to do. */
  lemma NothingLeft(items: set<ItemId>, names: Names, existing: seq<Pair>)
    requires Grid(items, names) <= Elements(existing)
    ensures Tasks(items, names) - SkipSet(existing, names) == {}
  {
    forall t | t in Tasks(items, names) ensures t in SkipSet(existing, names) {
      var i, v :| i in items && v in names && t == Task(i, names[v]);
      assert Pair(i, v) in Grid(items, names);
      SkippedIffStored(existing, names, i, v);
    }
  }

  lemma CalmPrepare(db: Database, phase: Phase)
    requires DatabaseOk(db) && PhaseOk(db, phase) && SnapshotCurrent(db, phase) && phase.ResultsRead?
    requires db.row.total == GridSize(db.items, db.names)
    requires db.row.status == Completed && !Unsettles(phase)
    ensures var r := Prepare(db, phase); r.db.row.status == Completed && !Unsettles(r.phase)
  {
    PrepareFixed(db, phase);
    NothingLeft(phase.items, phase.names, phase.existing);
  }

  lemma CalmReadResults(db: Database, phase: Phase)
    requires SnapshotCurrent(db, phase) && phase.ItemsRead? && !Unsettles(phase)
    requires Grid(db.items, db.names) <= Elements(db.results)
    ensures !Unsettles(ResultsRead(phase.row, phase.names, phase.items, db.results))
  {
    KeysDecideSize(db.items, db.names, phase.names);
  }

  lemma CalmRead(db: Database, phase: Phase, action: Action)
    requires db.items != {} && db.names != map[] && SnapshotCurrent(db, phase)
    requires db.row.status == Completed && !Unsettles(phase)
    requires CanAct(phase, action) && (action.ReadRow? || action.ReadItems? || action.FinalRefresh?)
    ensures Act(db, phase, action).db == db && !Unsettles(Act(db, phase, action).phase)
  {
    if action.ReadItems? {
      assert phase.names.Keys != {} by { assert db.names.Keys != {}; }
    }
  }

  lemma CalmEnd(db: Database, phase: Phase, action: Action)
    requires db.row.status == Completed && !Unsettles(phase)
    requires CanAct(phase, action)
    requires action.CommitFinal? || action.Return? || action.CommitEnding?
    ensures Act(db, phase, action).db.row.status == Completed && !Unsettles(Act(db, phase, action).phase)
  {
  }

  lemma CalmAct(db: Database, phase: Phase, action: Action)
    requires DatabaseOk(db) && PhaseOk(db, phase) && SnapshotCurrent(db, phase)
    requires db.items != {} && db.names != map[] && db.row.total == GridSize(db.items, db.names)
    requires Grid(db.items, db.names) <= Elements(db.results)
    requires db.row.status == Completed && !Unsettles(phase)
    requires CanAct(phase, action) && !action.Interrupt? && !action.Fault?
    ensures Act(db, phase, action).db.row.status == Completed && !Unsettles(Act(db, phase, action).phase)
  {
    match action
    case CommitPrepare => CalmPrepare(db, phase);
    case ReadResults => CalmReadResults(db, phase);
    case ReadRow => CalmRead(db, phase, action);
    case ReadItems => CalmRead(db, phase, action);
    case FinalRefresh => CalmRead(db, phase, action);
    case CommitFinal => CalmEnd(db, phase, action);
    case Return => CalmEnd(db, phase, action);
    case CommitEnding => CalmEnd(db, phase, action);
  }

  lemma CalmStep(s: State, step: Step)
    requires FixedSafe(s) && s.db.row.status == Completed && Settled(s)
    requires Enabled(s, step) && Calm(step)
    ensures Next(s, step).db.row.status == Completed && Settled(Next(s, step))
  {
    if step.Work? {
      var phase := s.attempts[step.attempt];
      assert PhaseOk(s.db, phase) && SnapshotCurrent(s.db, phase) && !Unsettles(phase);
      CalmAct(s.db, phase, step.action);
    }
  }

  lemma {:induction false} CalmRunKeepsCompleted(s: State, steps: seq<Step>)
    requires FixedSafe(s) && s.db.row.status == Completed && Settled(s)
    requires CalmRun(s, steps)
    ensures Final(s, steps).db.row.status == Completed
    decreases |steps|
  {
    if steps != [] {
      assert steps[0] in steps;
      CalmStep(s, steps[0]);
      StepFixed(s, steps[0]);
      CalmRunKeepsCompleted(Next(s, steps[0]), steps[1..]);
    }
  }

  // ---------------------------------------------------------------- necessity

  lemma CalmPrepend(s: State, step: Step, rest: seq<Step>)
    requires Enabled(s, step) && Calm(step) && CalmRun(Next(s, step), rest)
    ensures CalmRun(s, [step] + rest)
    ensures Final(s, [step] + rest) == Final(Next(s, step), rest)
  {
    Prepend(s, step, rest);
  }

  lemma EndingUnsettles(s: State, a: AttemptId) returns (steps: seq<Step>)
    requires Safe(s) && a in s.attempts && s.db.row.status == Completed
    requires s.attempts[a].Ending? || (s.attempts[a].EndingRead? && Unsettles(s.attempts[a]))
    ensures CalmRun(s, steps) && Final(s, steps).db.row.status != Completed
  {
    assert PhaseOk(s.db, s.attempts[a]);
    if s.attempts[a].Ending? {
      var next := Next(s, Work(a, ReadForEnding));
      CalmPrepend(next, Work(a, CommitEnding), []);
      CalmPrepend(s, Work(a, ReadForEnding), [Work(a, CommitEnding)] + []);
      steps := [Work(a, ReadForEnding)] + ([Work(a, CommitEnding)] + []);
    } else {
      CalmPrepend(s, Work(a, CommitEnding), []);
      steps := [Work(a, CommitEnding)] + [];
    }
  }

  /** In a completed run every task is stored, so a result commit fails on the unique constraint. */
  lemma ResultFails(s: State, a: AttemptId)
    requires FixedSafe(s) && a in s.attempts && s.attempts[a].Persisting? && s.db.row.status == Completed
    ensures Persist(s.db, s.attempts[a]) == Outcome(s.db, Ending(Failed))
  {
    var phase := s.attempts[a];
    assert PhaseOk(s.db, phase) && SnapshotCurrent(s.db, phase);
    var v :| v in phase.plan.names && phase.task == Task(phase.task.item, phase.plan.names[v]);
    StoredPairOfTask(phase.plan, phase.task.item, v);
    assert Pair(phase.task.item, v) in Grid(s.db.items, s.db.names);
  }

  lemma PersistingUnsettles(s: State, a: AttemptId) returns (steps: seq<Step>)
    requires FixedSafe(s) && a in s.attempts && s.attempts[a].Persisting? && s.db.row.status == Completed
    ensures CalmRun(s, steps) && Final(s, steps).db.row.status != Completed
  {
    ResultFails(s, a);
    var step := Work(a, CommitResult);
    StepSafe(s, step);
    var rest := EndingUnsettles(Next(s, step), a);
    CalmPrepend(s, step, rest);
    steps := [step] + rest;
  }

  lemma LoopingUnsettles(s: State, a: AttemptId) returns (steps: seq<Step>)
    requires FixedSafe(s) && a in s.attempts && s.attempts[a].Looping? && s.attempts[a].todo != {}
    requires s.db.row.status == Completed
    ensures CalmRun(s, steps) && Final(s, steps).db.row.status != Completed
  {
    var t :| t in s.attempts[a].todo;
    var step := Work(a, Refresh(t));
    StepFixed(s, step);
    var rest := PersistingUnsettles(Next(s, step), a);
    CalmPrepend(s, step, rest);
    steps := [step] + rest;
  }

  /** A pair not read as stored is a task to do, whatever has been stored since. */
  lemma StaleLeavesTasks(items: set<ItemId>, names: Names, existing: seq<Pair>)
    requires !(Grid(items, names) <= Elements(existing))
    ensures Tasks(items, names) - SkipSet(existing, names) != {}
  {
    var p :| p in Grid(items, names) && p !in Elements(existing);
    var t := Task(p.item, names[p.variant]);
    assert t in Tasks(items, names);
    SkippedIffStored(existing, names, p.item, p.variant);
    assert t in Tasks(items, names) - SkipSet(existing, names);
  }

  lemma ReadUnsettles(s: State, a: AttemptId) returns (steps: seq<Step>)
    requires FixedSafe(s) && a in s.attempts && s.attempts[a].ResultsRead? && Unsettles(s.attempts[a])
    requires s.db.row.status == Completed
    ensures CalmRun(s, steps) && Final(s, steps).db.row.status != Completed
  {
    var phase := s.attempts[a];
    assert PhaseOk(s.db, phase) && SnapshotCurrent(s.db, phase);
    PrepareFixed(s.db, phase);
    var step := Work(a, CommitPrepare);
    if phase.row.status != Running {
      CalmPrepend(s, step, []);
      steps := [step] + [];
    } else {
      StaleLeavesTasks(phase.items, phase.names, phase.existing);
      StepFixed(s, step);
      var rest := LoopingUnsettles(Next(s, step), a);
      CalmPrepend(s, step, rest);
      steps := [step] + rest;
    }
  }

  lemma PreparingUnsettles(s: State, a: AttemptId) returns (steps: seq<Step>)
    requires FixedSafe(s) && a in s.attempts && Unsettles(s.attempts[a]) && s.db.row.status == Completed
    requires s.attempts[a].RowRead? || s.attempts[a].ItemsRead? || s.attempts[a].ResultsRead?
    ensures CalmRun(s, steps) && Final(s, steps).db.row.status != Completed
    decreases if s.attempts[a].RowRead? then 2 else if s.attempts[a].ItemsRead? then 1 else 0
  {
    var phase := s.attempts[a];
    assert PhaseOk(s.db, phase) && SnapshotCurrent(s.db, phase);
    if phase.ResultsRead? {
      steps := ReadUnsettles(s, a);
    } else {
      var step := Work(a, if phase.RowRead? then ReadItems else ReadResults);
      assert phase.RowRead? ==> phase.names != map[] by {
        assert s.db.names.Keys != {};
      }
      StepFixed(s, step);
      var rest := PreparingUnsettles(Next(s, step), a);
      CalmPrepend(s, step, rest);
      steps := [step] + rest;
    }
  }

  lemma UnsettledOverwrites(s: State) returns (steps: seq<Step>)
    requires FixedSafe(s) && s.db.row.status == Completed && !Settled(s)
    ensures CalmRun(s, steps) && Final(s, steps).db.row.status != Completed
  {
    var a :| a in s.attempts && Unsettles(s.attempts[a]);
    var phase := s.attempts[a];
    if phase.Looping? {
      steps := LoopingUnsettles(s, a);
    } else if phase.Persisting? {
      steps := PersistingUnsettles(s, a);
    } else if phase.Ending? || phase.EndingRead? {
      steps := EndingUnsettles(s, a);
    } else {
      steps := PreparingUnsettles(s, a);
    }
  }

  // ---------------------------------------------------------------- main results

  /**
   A completed run stays completed in every continuation without exceptions if and only if no
   attempt beside it is in a position to unsettle it.
   */
  lemma CompletedSticksIff(origin: State, history: seq<Step>)
    requires Created(origin) && FixedRun(origin, history)
    requires Final(origin, history).db.row.status == Completed
    ensures var s := Final(origin, history);
            (forall steps :: CalmRun(s, steps) ==> Final(s, steps).db.row.status == Completed) <==> Settled(s)
  {
    RunKeepsFixed(origin, history);
    var s := Final(origin, history);
    if !Settled(s) {
      var steps := UnsettledOverwrites(s);
    } else {
      forall steps | CalmRun(s, steps) ensures Final(s, steps).db.row.status == Completed {
        CalmRunKeepsCompleted(s, steps);
      }
    }
  }

  /**
   With exceptions it is never final: redelivering the run and interrupting the new attempt in its
   first read leaves the run `cancelled`.
   */
  lemma CompletedCanBecomeCancelled(s: State, a: AttemptId)
    requires s.db.row.status == Completed && a !in s.attempts
    ensures var steps := [Deliver(a), Work(a, Interrupt(true)), Work(a, ReadForEnding), Work(a, CommitEnding)];
            IsRun(s, steps) && Final(s, steps).db.row.status == Cancelled
  {
    var s1 := Next(s, Deliver(a));
    var s2 := Next(s1, Work(a, Interrupt(true)));
    var s3 := Next(s2, Work(a, ReadForEnding));
    Prepend(s3, Work(a, CommitEnding), []);
    Prepend(s2, Work(a, ReadForEnding), [Work(a, CommitEnding)]);
    Prepend(s1, Work(a, Interrupt(true)), [Work(a, ReadForEnding), Work(a, CommitEnding)]);
    Prepend(s, Deliver(a), [Work(a, Interrupt(true)), Work(a, ReadForEnding), Work(a, CommitEnding)]);
  }
}
