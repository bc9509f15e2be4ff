/**
 What the steps of an attempt, the cancel endpoint and the scheduler do to the run row, written out
 on the row: which ending an exception leads to, and what each commit leaves behind.
 */
module RunEffects {
  import opened Wrappers
  import opened Collections
  import opened RunModel
  import opened RunSafety

  /** The run with another status and the attempt over; nothing else has changed. */
  ghost predicate EndsWith(before: State, after: State, a: AttemptId, status: Status) {
    && after.db.row.status == status
    && after.db.row.completed == before.db.row.completed && after.db.row.total == before.db.row.total
    && after.db.results == before.db.results
    && after.db.items == before.db.items && after.db.names == before.db.names
    && after.attempts == before.attempts[a := Exited]
  }

  /** The steps by which an ending is written: the row is read again and given its status. */
  function EndingSteps(a: AttemptId): seq<Step> {
    [Work(a, ReadForEnding), Work(a, CommitEnding)]
  }

  lemma EndingWrites(s: State, a: AttemptId, outcome: Status)
    requires a in s.attempts && s.attempts[a] == Ending(outcome)
    ensures IsRun(s, EndingSteps(a)) && EndsWith(s, Final(s, EndingSteps(a)), a, outcome)
  {
    var next := Next(s, Work(a, ReadForEnding));
    Prepend(next, Work(a, CommitEnding), []);
    Prepend(s, Work(a, ReadForEnding), [Work(a, CommitEnding)]);
  }

  /** A step that leads into an ending, and the ending. */
  lemma EndsAfter(s: State, a: AttemptId, action: Action, outcome: Status)
    requires Enabled(s, Work(a, action)) && Act(s.db, s.attempts[a], action) == Outcome(s.db, Ending(outcome))
    ensures IsRun(s, [Work(a, action)] + EndingSteps(a))
    ensures EndsWith(s, Final(s, [Work(a, action)] + EndingSteps(a)), a, outcome)
  {
    var next := Next(s, Work(a, action));
    EndingWrites(next, a, outcome);
    Prepend(s, Work(a, action), EndingSteps(a));
    assert next.attempts[a := Exited] == s.attempts[a := Exited];
  }

  // ---------------------------------------------------------------- exceptions

  /** An exception other than a cancellation, at any await before the end, leaves the run `failed`. */
  lemma FaultFails(s: State, a: AttemptId)
    requires a in s.attempts && InTry(s.attempts[a])
    ensures var steps := [Work(a, Fault(true))] + EndingSteps(a);
            IsRun(s, steps) && EndsWith(s, Final(s, steps), a, Failed)
  {
    EndsAfter(s, a, Fault(true), Failed);
  }

  /** A cancellation leaves it `cancelled`. */
  lemma InterruptCancels(s: State, a: AttemptId)
    requires a in s.attempts && InTry(s.attempts[a])
    ensures var steps := [Work(a, Interrupt(true))] + EndingSteps(a);
            IsRun(s, steps) && EndsWith(s, Final(s, steps), a, Cancelled)
  {
    EndsAfter(s, a, Interrupt(true), Cancelled);
  }

  /** The status an attempt between transactions has in memory. */
  function Remembered(phase: Phase): Status
    requires phase.Looping? || phase.Returning?
  {
    if phase.Looping? then phase.memory else Completed
  }

  /** Between transactions the same, unless the attempt remembers that very status: then nothing is written. */
  lemma FaultFailsFromMemory(s: State, a: AttemptId)
    requires a in s.attempts && (s.attempts[a].Looping? || s.attempts[a].Returning?)
    ensures var steps := [Work(a, Fault(false)), Work(a, CommitEnding)];
            && IsRun(s, steps)
            && EndsWith(s, Final(s, steps), a,
                        if Remembered(s.attempts[a]) == Failed then s.db.row.status else Failed)
  {
    var next := Next(s, Work(a, Fault(false)));
    Prepend(next, Work(a, CommitEnding), []);
    Prepend(s, Work(a, Fault(false)), [Work(a, CommitEnding)]);
  }

  lemma InterruptCancelsFromMemory(s: State, a: AttemptId)
    requires a in s.attempts && (s.attempts[a].Looping? || s.attempts[a].Returning?)
    ensures var steps := [Work(a, Interrupt(false)), Work(a, CommitEnding)];
            && IsRun(s, steps)
            && EndsWith(s, Final(s, steps), a,
                        if Remembered(s.attempts[a]) == Cancelled then s.db.row.status else Cancelled)
  {
    var next := Next(s, Work(a, Interrupt(false)));
    Prepend(next, Work(a, CommitEnding), []);
    Prepend(s, Work(a, Interrupt(false)), [Work(a, CommitEnding)]);
  }

  // ---------------------------------------------------------------- the other ways to end

  /** An attempt on a run whose items or variants are gone leaves it `failed`; on any other it goes on. */
  lemma MissingInputsFail(s: State, a: AttemptId)
    requires a in s.attempts && s.attempts[a].RowRead?
    ensures s.db.items == {} || s.attempts[a].names == map[] ==>
              var steps := [Work(a, ReadItems)] + EndingSteps(a);
              IsRun(s, steps) && EndsWith(s, Final(s, steps), a, Failed)
    ensures s.db.items != {} && s.attempts[a].names != map[] ==>
              Next(s, Work(a, ReadItems)).attempts[a] == ItemsRead(s.attempts[a].row, s.attempts[a].names, s.db.items)
  {
    if s.db.items == {} || s.attempts[a].names == map[] {
      EndsAfter(s, a, ReadItems, Failed);
    }
  }

  /** A pair stored meanwhile makes the result commit fail, and the run with it. */
  lemma ConflictFails(s: State, a: AttemptId)
    requires a in s.attempts && s.attempts[a].Persisting?
    requires StoredPair(s.attempts[a].plan, s.attempts[a].task).Some?
    requires StoredPair(s.attempts[a].plan, s.attempts[a].task).value in s.db.results
    ensures var steps := [Work(a, CommitResult)] + EndingSteps(a);
            IsRun(s, steps) && EndsWith(s, Final(s, steps), a, Failed)
  {
    EndsAfter(s, a, CommitResult, Failed);
  }

  /** An attempt that sees the cancel in a refresh stores nothing more and leaves the run `cancelled`. */
  lemma SeenCancelStops(s: State, a: AttemptId, action: Action)
    requires Enabled(s, Work(a, action)) && s.db.row.status == Cancelled
    requires action.Refresh? || action.FinalRefresh?
    ensures var steps := [Work(a, action)] + EndingSteps(a);
            IsRun(s, steps) && EndsWith(s, Final(s, steps), a, Cancelled)
  {
    EndsAfter(s, a, action, Cancelled);
  }

  /** Finished and cancelled runs are left alone; pending, running and failed ones are taken up. */
  lemma TakenUpIff(s: State, a: AttemptId)
    requires a in s.attempts && s.attempts[a] == Started
    ensures Next(s, Work(a, ReadRow)).db == s.db
    ensures Next(s, Work(a, ReadRow)).attempts[a] ==
              (if s.db.row.status == Pending || s.db.row.status == Running || s.db.row.status == Failed
               then RowRead(s.db.row, s.db.names) else Exited)
  {
  }

  // ---------------------------------------------------------------- commits

  /**
   The preparing commit over a row nobody has changed since it was read: `running`, the number of
   results read, and the size of the input grid; refused if that makes the number too large.
   */
  lemma PreparationWrites(s: State, a: AttemptId)
    requires a in s.attempts && s.attempts[a].ResultsRead? && s.attempts[a].row == s.db.row
    ensures var phase, s' := s.attempts[a], Next(s, Work(a, CommitPrepare));
            && s'.db.results == s.db.results
            && (|phase.existing| <= |phase.items| * |phase.names| ==>
                  && s'.db.row == Row(Running, |phase.existing|, |phase.items| * |phase.names|)
                  && s'.attempts[a].Looping? && s'.attempts[a].memory == Running)
            && (|phase.existing| > |phase.items| * |phase.names| ==>
                  s'.db == s.db && s'.attempts[a] == Ending(Failed))
  {
  }

  /** The result commit adds the task's pair and one to the number last read. */
  lemma ResultWrites(s: State, a: AttemptId, v: VariantId)
    requires a in s.attempts && s.attempts[a].Persisting?
    requires v in s.attempts[a].plan.names && s.attempts[a].task.name == s.attempts[a].plan.names[v]
    requires var pair := Pair(s.attempts[a].task.item, v);
             pair !in s.db.results && pair.item in s.db.items && v in s.db.names
    requires s.attempts[a].seenCompleted + 1 <= s.db.row.total
    ensures var phase, s' := s.attempts[a], Next(s, Work(a, CommitResult));
            && s'.db.results == s.db.results + [Pair(phase.task.item, v)]
            && s'.db.row == Row(s.db.row.status, phase.seenCompleted + 1, s.db.row.total)
            && s'.attempts[a] == Looping(phase.plan, phase.todo - {phase.task}, phase.memory)
  {
    StoredPairOfTask(s.attempts[a].plan, s.attempts[a].task.item, v);
  }

  /** The refresh reads the status and the number that the commit will count on from. */
  lemma RefreshReads(s: State, a: AttemptId, t: Task)
    requires Enabled(s, Work(a, Refresh(t))) && s.db.row.status != Cancelled
    ensures Next(s, Work(a, Refresh(t))).db == s.db
    ensures Next(s, Work(a, Refresh(t))).attempts[a]
         == Persisting(s.attempts[a].plan, s.attempts[a].todo, t, s.db.row.completed, s.db.row.status)
  {
  }

  /** From its final refresh to its end an undisturbed attempt writes `completed` and nothing else. */
  lemma CompletionWrites(s: State, a: AttemptId)
    requires a in s.attempts && s.attempts[a].Looping? && s.attempts[a].todo == {} && s.db.row.status != Cancelled
    ensures var steps := [Work(a, FinalRefresh), Work(a, CommitFinal), Work(a, Return)];
            IsRun(s, steps) && EndsWith(s, Final(s, steps), a, Completed)
  {
    var s1 := Next(s, Work(a, FinalRefresh));
    var s2 := Next(s1, Work(a, CommitFinal));
    Prepend(s2, Work(a, Return), []);
    Prepend(s1, Work(a, CommitFinal), [Work(a, Return)]);
    Prepend(s, Work(a, FinalRefresh), [Work(a, CommitFinal), Work(a, Return)]);
  }

  // ---------------------------------------------------------------- outside the attempts

  /** A cancel takes pending and running runs to `cancelled` and leaves every other run as it is. */
  lemma CancelWrites(s: State)
    ensures var row, row' := s.db.row, Next(s, Cancel).db.row;
            && row'.completed == row.completed && row'.total == row.total
            && row'.status == (match row.status
                               case Pending => Cancelled
                               case Running => Cancelled
                               case Completed => Completed
                               case Failed => Failed
                               case Cancelled => Cancelled)
    ensures Next(s, Cancel).db.results == s.db.results && Next(s, Cancel).attempts == s.attempts
  {
  }

  /** A run that could not be scheduled is `failed`, whatever it has become since. */
  lemma SchedulingFailureFails(s: State)
    requires s.scheduling
    ensures var s' := Next(s, SchedulingFailed);
            && s'.db == s.db.(row := s.db.row.(status := Failed)) && s'.attempts == s.attempts && !s'.scheduling
  {
  }
}
