/**
 When a successful cancel sticks.  A cancelled run is not always final: an attempt that
 read the row before the cancel may still commit a status over it.  This module says
 exactly when that can happen, for any number of overlapping attempts.
 */
module RunCancellation {
  import opened Wrappers
  import opened Collections
  import opened RunModel
  import opened RunSafety

  /** Steps other than unrelated exceptions and deletions or additions of inputs. */
  predicate Quiet(step: Step) {
    && KeepsInputs(step)
    && step != SchedulingFailed
    && (step.Work? ==> !step.action.Fault?)
  }

  predicate QuietRun(s: State, steps: seq<Step>) {
    IsRun(s, steps) && forall step :: step in steps ==> Quiet(step)
  }

  /** The attempt holds a read that will make a later commit replace the row's status. */
  predicate Overwrites(db: Database, phase: Phase) {
    match phase
    case RowRead(row, _) => row.status != Running
    case ItemsRead(row, _, _) => row.status != Running
    case ResultsRead(row, _, _, _) => row.status != Running
    case Persisting(plan, _, task, _, _) =>
      var pair := StoredPair(plan, task);
      pair.Some? && pair.value in db.results
    case FinalRead(_, seen) => seen != Completed
    case Ending(outcome) => outcome == Failed
    case EndingRead(outcome, seen) => outcome == Failed && seen != Failed
    case _ => false
  }

  /** Two attempts past their refresh are about to store the same pair. */
  predicate Contending(p: Phase, q: Phase) {
    && p.Persisting? && q.Persisting?
    && StoredPair(p.plan, p.task) == StoredPair(q.plan, q.task)
  }

  /** No attempt is in a position to write over a cancel. */
  ghost predicate Clear(s: State) {
    && (forall a :: a in s.attempts ==> !Overwrites(s.db, s.attempts[a]))
    && (forall a, b :: a in s.attempts && b in s.attempts && a != b ==> !Contending(s.attempts[a], s.attempts[b]))
  }

  ghost function Persisters(s: State): set<AttemptId> {
    set a | a in s.attempts && s.attempts[a].Persisting?
  }

  // ---------------------------------------------------------------- sufficiency

  lemma QuietPersist(db: Database, phase: Phase)
    requires DatabaseOk(db) && PhaseOk(db, phase) && SnapshotCurrent(db, phase) && phase.Persisting?
    requires db.row.total == GridSize(db.items, db.names) && !Overwrites(db, phase)
    ensures var r := Persist(db, phase);
            && r.phase.Looping? && r.db.row.status == db.row.status
            && StoredPair(phase.plan, phase.task).Some?
            && r.db.results == db.results + [StoredPair(phase.plan, phase.task).value]
  {
    PersistFixed(db, phase);
  }

  /** What one action of an attempt keeps while the run is cancelled. */
  ghost predicate StaysQuiet(db: Database, r: Outcome) {
    && r.db.row.status == Cancelled && r.db.results == db.results
    && !r.phase.Persisting? && !Overwrites(r.db, r.phase)
  }

  lemma QuietRead(db: Database, phase: Phase, action: Action)
    requires SnapshotCurrent(db, phase) && db.items != {} && db.names != map[]
    requires db.row.status == Cancelled && !Overwrites(db, phase)
    requires CanAct(phase, action) && (action.ReadRow? || action.ReadItems? || action.ReadResults?)
    ensures StaysQuiet(db, Act(db, phase, action))
  {
    if action.ReadItems? {
      assert phase.names.Keys != {} by { assert db.names.Keys != {}; }
    }
  }

  lemma QuietRefresh(db: Database, phase: Phase, action: Action)
    requires db.row.status == Cancelled && CanAct(phase, action)
    requires action.Refresh? || action.FinalRefresh? || action.Return?
    ensures StaysQuiet(db, Act(db, phase, action))
  {
  }

  lemma QuietEnd(db: Database, phase: Phase, action: Action)
    requires PhaseOk(db, phase) && db.row.status == Cancelled && !Overwrites(db, phase) && CanAct(phase, action)
    requires action.CommitFinal? || action.Interrupt? || action.ReadForEnding? || action.CommitEnding?
    ensures StaysQuiet(db, Act(db, phase, action))
  {
  }

  lemma QuietAct(db: Database, phase: Phase, action: Action)
    requires DatabaseOk(db) && PhaseOk(db, phase) && SnapshotCurrent(db, phase)
    requires db.items != {} && db.names != map[] && db.row.total == GridSize(db.items, db.names)
    requires db.row.status == Cancelled && !Overwrites(db, phase)
    requires CanAct(phase, action) && !action.Fault? && action != CommitResult
    ensures StaysQuiet(db, Act(db, phase, action))
  {
    match action
    case CommitPrepare => PrepareFixed(db, phase);
    case ReadRow => QuietRead(db, phase, action);
    case ReadItems => QuietRead(db, phase, action);
    case ReadResults => QuietRead(db, phase, action);
    case Refresh(_) => QuietRefresh(db, phase, action);
    case FinalRefresh => QuietRefresh(db, phase, action);
    case Return => QuietRefresh(db, phase, action);
    case _ => QuietEnd(db, phase, action);
  }

  lemma QuietResult(s: State, a: AttemptId)
    requires FixedSafe(s) && s.db.row.status == Cancelled && Clear(s)
    requires a in s.attempts && s.attempts[a].Persisting?
    ensures var s' := Next(s, Work(a, CommitResult));
            && s'.db.row.status == Cancelled && Clear(s')
            && |s'.db.results| == |s.db.results| + 1 && Persisters(s') == Persisters(s) - {a}
  {
    var phase := s.attempts[a];
    assert PhaseOk(s.db, phase) && SnapshotCurrent(s.db, phase) && !Overwrites(s.db, phase);
    QuietPersist(s.db, phase);
    ResultKeepsClear(s, Next(s, Work(a, CommitResult)), a);
  }

  lemma ResultKeepsClear(s: State, s': State, a: AttemptId)
    requires Clear(s) && a in s.attempts && a in s'.attempts
    requires s'.attempts == s.attempts[a := s'.attempts[a]] && s'.attempts[a].Looping?
    requires s.attempts[a].Persisting? && StoredPair(s.attempts[a].plan, s.attempts[a].task).Some?
    requires s'.db.results == s.db.results + [StoredPair(s.attempts[a].plan, s.attempts[a].task).value]
    ensures Clear(s') && Persisters(s') == Persisters(s) - {a}
  {
    forall b | b in s'.attempts ensures !Overwrites(s'.db, s'.attempts[b]) {
      if b != a {
        StillQuiet(s.db, s'.db, s.attempts[a], s.attempts[b]);
      }
    }
    ClearAfter(s, s', a);
  }

  lemma StillQuiet(db: Database, db': Database, writer: Phase, other: Phase)
    requires !Overwrites(db, other) && !Contending(writer, other)
    requires writer.Persisting? && StoredPair(writer.plan, writer.task).Some?
    requires db'.results == db.results + [StoredPair(writer.plan, writer.task).value]
    ensures !Overwrites(db', other)
  {
  }

  lemma QuietOther(s: State, a: AttemptId, action: Action)
    requires FixedSafe(s) && s.db.row.status == Cancelled && Clear(s)
    requires Enabled(s, Work(a, action)) && !action.Fault? && action != CommitResult
    ensures var s' := Next(s, Work(a, action));
            && s'.db.row.status == Cancelled && Clear(s')
            && s'.db.results == s.db.results && Persisters(s') <= Persisters(s)
  {
    var phase := s.attempts[a];
    assert PhaseOk(s.db, phase) && SnapshotCurrent(s.db, phase) && !Overwrites(s.db, phase);
    QuietAct(s.db, phase, action);
    var s' := Next(s, Work(a, action));
    forall b | b in s'.attempts ensures !Overwrites(s'.db, s'.attempts[b]) {
      if b != a {
        assert !Overwrites(s.db, s.attempts[b]);
      }
    }
    ClearAfter(s, s', a);
  }

  lemma ClearAfter(s: State, s': State, a: AttemptId)
    requires Clear(s) && a in s.attempts && a in s'.attempts
    requires s'.attempts == s.attempts[a := s'.attempts[a]]
    requires forall b :: b in s'.attempts ==> !Overwrites(s'.db, s'.attempts[b])
    requires !s'.attempts[a].Persisting?
    ensures Clear(s')
  {
    forall b, c | b in s'.attempts && c in s'.attempts && b != c
      ensures !Contending(s'.attempts[b], s'.attempts[c])
    {
      if b != a && c != a {
        assert !Contending(s.attempts[b], s.attempts[c]);
      }
    }
  }

  lemma QuietStep(s: State, step: Step)
    requires FixedSafe(s) && s.db.row.status == Cancelled && Clear(s)
    requires Enabled(s, step) && Quiet(step)
    ensures var s' := Next(s, step);
            && s'.db.row.status == Cancelled
            && Clear(s')
            && |s'.db.results| + |Persisters(s')| <= |s.db.results| + |Persisters(s)|
  {
    var s' := Next(s, step);
    if step.Work? {
      if step.action == CommitResult {
        QuietResult(s, step.attempt);
      } else {
        QuietOther(s, step.attempt, step.action);
        SubsetCardinality(Persisters(s'), Persisters(s));
      }
    } else {
      QuietOutside(s, step);
      SubsetCardinality(Persisters(s'), Persisters(s));
    }
  }

  /** Steps outside the attempts add at most one that has just started. */
  lemma OutsideAttempts(s: State, step: Step)
    requires Enabled(s, step) && !step.Work?
    ensures Next(s, step).db.results == s.db.results
    ensures forall b :: b in Next(s, step).attempts ==>
              Next(s, step).attempts[b] == Started || (b in s.attempts && Next(s, step).attempts[b] == s.attempts[b])
  {
  }

  lemma QuietOutside(s: State, step: Step)
    requires s.db.row.status == Cancelled && Clear(s)
    requires Enabled(s, step) && Quiet(step) && !step.Work?
    ensures var s' := Next(s, step);
            && s'.db.row.status == Cancelled && Clear(s')
            && s'.db.results == s.db.results && Persisters(s') <= Persisters(s)
  {
    OutsideAttempts(s, step);
    var s' := Next(s, step);
    forall b | b in s'.attempts ensures !Overwrites(s'.db, s'.attempts[b]) {
      if b in s.attempts { assert !Overwrites(s.db, s.attempts[b]); }
    }
    forall b, c | b in s'.attempts && c in s'.attempts && b != c
      ensures !Contending(s'.attempts[b], s'.attempts[c])
    {
      if b in s.attempts && c in s.attempts { assert !Contending(s.attempts[b], s.attempts[c]); }
    }
  }

  lemma {:induction false} QuietRunKeepsCancelled(s: State, steps: seq<Step>)
    requires FixedSafe(s) && s.db.row.status == Cancelled && Clear(s)
    requires QuietRun(s, steps)
    ensures Final(s, steps).db.row.status == Cancelled
    ensures |Final(s, steps).db.results| + |Persisters(Final(s, steps))| <= |s.db.results| + |Persisters(s)|
    decreases |steps|
  {
    if steps != [] {
      assert steps[0] in steps;
      QuietStep(s, steps[0]);
      StepFixed(s, steps[0]);
      QuietRunKeepsCancelled(Next(s, steps[0]), steps[1..]);
    }
  }

  // ---------------------------------------------------------------- necessity

  lemma QuietPrepend(s: State, step: Step, rest: seq<Step>)
    requires Enabled(s, step) && Quiet(step) && QuietRun(Next(s, step), rest)
    ensures QuietRun(s, [step] + rest)
    ensures Final(s, [step] + rest) == Final(Next(s, step), rest)
  {
    Prepend(s, step, rest);
  }

  /** From its ending an attempt that failed overwrites any status but `failed`. */
  lemma EndingOverwrites(s: State, a: AttemptId) returns (steps: seq<Step>)
    requires a in s.attempts && s.db.row.status == Cancelled
    requires s.attempts[a] == Ending(Failed) ||
        (s.attempts[a].EndingRead? && s.attempts[a].outcome == Failed && s.attempts[a].seen != Failed)
    ensures QuietRun(s, steps) && Final(s, steps).db.row.status == Failed
  {
    if s.attempts[a].Ending? {
      var next := Next(s, Work(a, ReadForEnding));
      QuietPrepend(next, Work(a, CommitEnding), []);
      QuietPrepend(s, Work(a, ReadForEnding), [Work(a, CommitEnding)] + []);
      steps := [Work(a, ReadForEnding)] + ([Work(a, CommitEnding)] + []);
    } else {
      QuietPrepend(s, Work(a, CommitEnding), []);
      steps := [Work(a, CommitEnding)] + [];
    }
  }

  lemma PreparingOverwrites(s: State, a: AttemptId) returns (steps: seq<Step>)
    requires FixedSafe(s) && a in s.attempts && s.db.row.status == Cancelled
    requires Overwrites(s.db, s.attempts[a])
    requires s.attempts[a].RowRead? || s.attempts[a].ItemsRead? || s.attempts[a].ResultsRead?
    ensures QuietRun(s, steps) && Final(s, steps).db.row.status == Running
    decreases if s.attempts[a].RowRead? then 2 else if s.attempts[a].ItemsRead? then 1 else 0
  {
    var phase := s.attempts[a];
    assert PhaseOk(s.db, phase) && SnapshotCurrent(s.db, phase);
    if phase.ResultsRead? {
      PrepareFixed(s.db, phase);
      QuietPrepend(s, Work(a, CommitPrepare), []);
      steps := [Work(a, CommitPrepare)] + [];
    } else {
      var step := Work(a, if phase.RowRead? then ReadItems else ReadResults);
      assert phase.RowRead? ==> phase.names != map[] by {
        assert s.db.names.Keys != {};
      }
      StepFixed(s, step);
      var rest := PreparingOverwrites(Next(s, step), a);
      QuietPrepend(s, step, rest);
      steps := [step] + rest;
    }
  }

  lemma ConflictOverwrites(s: State, a: AttemptId) returns (steps: seq<Step>)
    requires FixedSafe(s) && a in s.attempts && s.db.row.status == Cancelled
    requires s.attempts[a].Persisting? && Overwrites(s.db, s.attempts[a])
    ensures QuietRun(s, steps) && Final(s, steps).db.row.status == Failed
  {
    assert PhaseOk(s.db, s.attempts[a]) && SnapshotCurrent(s.db, s.attempts[a]);
    PersistFixed(s.db, s.attempts[a]);
    var step := Work(a, CommitResult);
    var rest := EndingOverwrites(Next(s, step), a);
    QuietPrepend(s, step, rest);
    steps := [step] + rest;
  }

  lemma ReadyOverwrites(s: State, a: AttemptId) returns (steps: seq<Step>)
    requires FixedSafe(s) && s.db.row.status == Cancelled
    requires a in s.attempts && Overwrites(s.db, s.attempts[a])
    ensures QuietRun(s, steps) && Final(s, steps).db.row.status != Cancelled
  {
    var phase := s.attempts[a];
    if phase.Persisting? {
      steps := ConflictOverwrites(s, a);
    } else if phase.FinalRead? {
      QuietPrepend(s, Work(a, CommitFinal), []);
      steps := [Work(a, CommitFinal)] + [];
    } else if phase.Ending? || phase.EndingRead? {
      steps := EndingOverwrites(s, a);
    } else {
      steps := PreparingOverwrites(s, a);
    }
  }

  /** An attempt's own step leaves the other attempts alone. */
  lemma OthersUntouched(s: State, a: AttemptId, action: Action, b: AttemptId)
    requires Enabled(s, Work(a, action)) && b in s.attempts && b != a
    ensures b in Next(s, Work(a, action)).attempts && Next(s, Work(a, action)).attempts[b] == s.attempts[b]
    ensures Next(s, Work(a, action)).db == Act(s.db, s.attempts[a], action).db
  {
  }

  /** One of two contenders commits; the other is left with a pair that is stored. */
  lemma ContenderConflicts(db: Database, mine: Phase, other: Phase)
    requires Contending(mine, other) && StoredPair(mine.plan, mine.task).Some?
    requires StoredPair(mine.plan, mine.task).value in db.results
    ensures Overwrites(db, other)
  {
  }

  lemma ContendingOverwrites(s: State, a: AttemptId, b: AttemptId) returns (steps: seq<Step>)
    requires FixedSafe(s) && s.db.row.status == Cancelled
    requires a in s.attempts && b in s.attempts && a != b && Contending(s.attempts[a], s.attempts[b])
    requires !Overwrites(s.db, s.attempts[a])
    ensures QuietRun(s, steps) && Final(s, steps).db.row.status == Failed
  {
    var step := Work(a, CommitResult);
    assert PhaseOk(s.db, s.attempts[a]) && SnapshotCurrent(s.db, s.attempts[a]);
    QuietPersist(s.db, s.attempts[a]);
    OthersUntouched(s, a, CommitResult, b);
    StepFixed(s, step);
    ContenderConflicts(Next(s, step).db, s.attempts[a], s.attempts[b]);
    var rest := ConflictOverwrites(Next(s, step), b);
    QuietPrepend(s, step, rest);
    steps := [step] + rest;
  }

  lemma UnclearOverwrites(s: State) returns (steps: seq<Step>)
    requires FixedSafe(s) && s.db.row.status == Cancelled && !Clear(s)
    ensures QuietRun(s, steps) && Final(s, steps).db.row.status != Cancelled
  {
    if a :| a in s.attempts && Overwrites(s.db, s.attempts[a]) {
      steps := ReadyOverwrites(s, a);
    } else {
      var a, b :| a in s.attempts && b in s.attempts && a != b && Contending(s.attempts[a], s.attempts[b]);
      steps := ContendingOverwrites(s, a, b);
    }
  }

  lemma CancelKeepsClear(s: State)
    requires Cancellable(s.db.row.status)
    ensures Clear(Next(s, Cancel)) == Clear(s)
    ensures Persisters(Next(s, Cancel)) == Persisters(s)
  {
    var cancelled := Next(s, Cancel);
    forall a | a in s.attempts
      ensures Overwrites(s.db, s.attempts[a]) == Overwrites(cancelled.db, s.attempts[a])
    {
    }
  }

  // ---------------------------------------------------------------- main results

  /**
   A cancel that the compare-and-set accepts is final against every continuation without
   unrelated exceptions if and only if no attempt was in a position to overwrite it.
   */
  lemma CancelSticksIff(origin: State, history: seq<Step>)
    requires Created(origin) && FixedRun(origin, history)
    requires Cancellable(Final(origin, history).db.row.status)
    ensures var s := Final(origin, history);
            (forall steps :: QuietRun(Next(s, Cancel), steps) ==>
               Final(Next(s, Cancel), steps).db.row.status == Cancelled)
            <==> Clear(s)
  {
    RunKeepsFixed(origin, history);
    var s := Final(origin, history);
    var cancelled := Next(s, Cancel);
    StepFixed(s, Cancel);
    CancelKeepsClear(s);
    if !Clear(cancelled) {
      var steps := UnclearOverwrites(cancelled);
    } else {
      forall steps | QuietRun(cancelled, steps)
        ensures Final(cancelled, steps).db.row.status == Cancelled
      {
        QuietRunKeepsCancelled(cancelled, steps);
      }
    }
  }

  /** With overlapping attempts, at most one result per attempt past its refresh lands after the cancel. */
  lemma CancelBoundsResults(origin: State, history: seq<Step>, steps: seq<Step>)
    requires Created(origin) && FixedRun(origin, history)
    requires var s := Final(origin, history);
             Cancellable(s.db.row.status) && Clear(s) && QuietRun(Next(s, Cancel), steps)
    ensures var s := Final(origin, history);
            |Final(Next(s, Cancel), steps).db.results| <= |s.db.results| + |Persisters(s)|
  {
    RunKeepsFixed(origin, history);
    var s := Final(origin, history);
    StepFixed(s, Cancel);
    var cancelled := Next(s, Cancel);
    CancelKeepsClear(s);
    QuietRunKeepsCancelled(cancelled, steps);
  }

  /**
   One live attempt, cancelled after its preparing commit and before its final refresh:
   it stores at most one further result, `completed` is never written, and every later
   state, whatever is redelivered, says `cancelled`.
   */
  lemma LoneAttemptCancelled(origin: State, history: seq<Step>, a: AttemptId, steps: seq<Step>)
    requires Created(origin) && FixedRun(origin, history) && ExclusiveRun(origin, history)
    requires var s := Final(origin, history);
             && Cancellable(s.db.row.status)
             && a in s.attempts && (s.attempts[a].Looping? || s.attempts[a].Persisting?)
             && QuietRun(Next(s, Cancel), steps)
    ensures var s := Final(origin, history);
            var later := Final(Next(s, Cancel), steps);
            && later.db.row.status == Cancelled
            && |later.db.results| <= |s.db.results| + (if s.attempts[a].Persisting? then 1 else 0)
  {
    var s := Final(origin, history);
    LoneAttemptClear(origin, history, a);
    CancelSticksIff(origin, history);
    CancelBoundsResults(origin, history, steps);
  }

  lemma LoneAttemptClear(origin: State, history: seq<Step>, a: AttemptId)
    requires Created(origin) && FixedRun(origin, history) && ExclusiveRun(origin, history)
    requires var s := Final(origin, history);
             a in s.attempts && (s.attempts[a].Looping? || s.attempts[a].Persisting?)
    ensures var s := Final(origin, history);
            Clear(s) && Persisters(s) == if s.attempts[a].Persisting? then {a} else {}
  {
    CreatedExact(origin);
    RunKeepsExact(origin, history);
    LoneClear(Final(origin, history), a);
  }

  lemma LoneClear(s: State, a: AttemptId)
    requires ExactSafe(s) && a in s.attempts && (s.attempts[a].Looping? || s.attempts[a].Persisting?)
    ensures Clear(s) && Persisters(s) == if s.attempts[a].Persisting? then {a} else {}
  {
    assert Live(s, a);
    assert forall b :: b in s.attempts && b != a ==> s.attempts[b].Exited? by {
      forall b | b in s.attempts && b != a ensures s.attempts[b].Exited? { assert !Live(s, b); }
    }
    assert PhaseOk(s.db, s.attempts[a]) && PhaseExact(s.db, s.attempts[a]);
  }

  lemma CreatedExact(s: State)
    requires Created(s)
    ensures ExactSafe(s) && FixedSafe(s)
  {
  }

  /**
   Cancelled is not absorbing: for every new run, a cancel that lands between the first
   attempt's read and its preparing commit succeeds and is then overwritten by `running`.
   */
  lemma CancelInPrepareWindowIsLost(s: State)
    requires Created(s)
    ensures var before := [Deliver(0), Work(0, ReadRow)];
            var after := [Work(0, ReadItems), Work(0, ReadResults), Work(0, CommitPrepare)];
            && FixedRun(s, before) && ExclusiveRun(s, before)
            && Cancellable(Final(s, before).db.row.status)
            && QuietRun(Next(Final(s, before), Cancel), after)
            && Final(Next(Final(s, before), Cancel), after).db.row.status == Running
  {
    var s1 := Next(s, Deliver(0));
    var s2 := Next(s1, Work(0, ReadRow));
    var before := [Deliver(0), Work(0, ReadRow)];
    assert before[1..] == [Work(0, ReadRow)] && before[1..][1..] == [];
    assert Final(s, before) == s2;
    CreatedExact(s);
    RunKeepsFixed(s, before);
    var s3 := Next(s2, Cancel);
    StepFixed(s2, Cancel);
    PrepareAfterCancel(s3);
  }

  lemma PrepareAfterCancel(s: State)
    requires 0 in s.attempts && s.attempts[0].RowRead? && s.attempts[0].row.status == Pending
    requires s.db.items != {} && s.attempts[0].names != map[] && s.db.results == [] && s.db.row.completed == 0
    ensures var after := [Work(0, ReadItems), Work(0, ReadResults), Work(0, CommitPrepare)];
            QuietRun(s, after) && Final(s, after).db.row.status == Running
  {
    var s1 := Next(s, Work(0, ReadItems));
    var s2 := Next(s1, Work(0, ReadResults));
    assert s2.attempts[0] == ResultsRead(s.attempts[0].row, s.attempts[0].names, s.db.items, []);
    QuietPrepend(s2, Work(0, CommitPrepare), []);
    QuietPrepend(s1, Work(0, ReadResults), [Work(0, CommitPrepare)]);
    QuietPrepend(s, Work(0, ReadItems), [Work(0, ReadResults), Work(0, CommitPrepare)]);
  }
}
