/**
 The progress counter against the stored results, step by step: which steps make them differ, by
 how much, and what a whole run adds up to.
 */
module RunCount {
  import opened Wrappers
  import opened Collections
  import opened RunModel
  import opened RunSafety

  predicate Exact(db: Database) {
    db.row.completed == |db.results|
  }

  /** How many stored results the counter misses. */
  function Deficit(db: Database): int {
    |db.results| - db.row.completed
  }

  predicate Accepted(s: State, step: Step)
    requires Enabled(s, step)
  {
    step.Work? && Act(s.db, s.attempts[step.attempt], step.action).phase.Looping?
  }

  /** A result commit that counts on from a number no longer current. */
  predicate CountsFromStale(s: State, step: Step)
    requires Enabled(s, step)
  {
    && Accepted(s, step) && step.action == CommitResult
    && s.attempts[step.attempt].seenCompleted != s.db.row.completed
  }

  /** The number a preparing commit writes, if it writes one: it differs from the one first read. */
  predicate WritesCount(s: State, step: Step)
    requires Enabled(s, step)
  {
    && Accepted(s, step) && step.action == CommitPrepare
    && |s.attempts[step.attempt].existing| != s.attempts[step.attempt].row.completed
  }

  /** A preparing commit that writes a number of results that have since been joined by others. */
  predicate WritesStaleCount(s: State, step: Step)
    requires Enabled(s, step)
  {
    WritesCount(s, step) && |s.attempts[step.attempt].existing| != |s.db.results|
  }

  /** What a step adds to the deficit; a preparing commit may also repair one. */
  function Lost(s: State, step: Step): int
    requires Enabled(s, step)
  {
    if CountsFromStale(s, step) then s.db.row.completed - s.attempts[step.attempt].seenCompleted
    else if WritesCount(s, step) then s.db.row.completed - |s.attempts[step.attempt].existing|
    else 0
  }

  function RunLoss(s: State, steps: seq<Step>): int
    requires IsRun(s, steps)
    decreases |steps|
  {
    if steps == [] then 0 else Lost(s, steps[0]) + RunLoss(Next(s, steps[0]), steps[1..])
  }

  lemma PrepareDeficit(s: State, a: AttemptId)
    requires Enabled(s, Work(a, CommitPrepare))
    ensures Deficit(Next(s, Work(a, CommitPrepare)).db) == Deficit(s.db) + Lost(s, Work(a, CommitPrepare))
  {
  }

  lemma ResultDeficit(s: State, a: AttemptId)
    requires Enabled(s, Work(a, CommitResult))
    ensures Deficit(Next(s, Work(a, CommitResult)).db) == Deficit(s.db) + Lost(s, Work(a, CommitResult))
  {
  }

  lemma OtherKeepsCount(s: State, step: Step)
    requires Enabled(s, step) && (step.Work? ==> step.action != CommitPrepare && step.action != CommitResult)
    ensures Next(s, step).db.results == s.db.results
    ensures Next(s, step).db.row.completed == s.db.row.completed
  {
  }

  /** Every step accounts for the change of the deficit. */
  lemma StepDeficit(s: State, step: Step)
    requires Enabled(s, step)
    ensures Deficit(Next(s, step).db) == Deficit(s.db) + Lost(s, step)
  {
    if step.Work? && step.action == CommitPrepare {
      PrepareDeficit(s, step.attempt);
    } else if step.Work? && step.action == CommitResult {
      ResultDeficit(s, step.attempt);
    } else {
      OtherKeepsCount(s, step);
    }
  }

  /**
   From a state whose counter is exact, a step keeps it so unless it commits a result on a stale
   count or a preparation that writes a stale one; and then it never does.
   */
  lemma StepExactIff(s: State, step: Step)
    requires Exact(s.db) && Enabled(s, step)
    ensures Exact(Next(s, step).db) <==> !CountsFromStale(s, step) && !WritesStaleCount(s, step)
  {
    StepDeficit(s, step);
  }

  /** Along any run the counter misses what its steps lost, no more and no less. */
  lemma {:induction false} RunDeficit(s: State, steps: seq<Step>)
    requires IsRun(s, steps)
    ensures Deficit(Final(s, steps).db) == Deficit(s.db) + RunLoss(s, steps)
    decreases |steps|
  {
    if steps != [] {
      StepDeficit(s, steps[0]);
      RunDeficit(Next(s, steps[0]), steps[1..]);
    }
  }

  /** In every reachable state the losses add up to a shortfall, never to an excess. */
  lemma LossesAreShortfalls(s: State, steps: seq<Step>)
    requires Created(s) && IsRun(s, steps)
    ensures |Final(s, steps).db.results| - Final(s, steps).db.row.completed == RunLoss(s, steps) >= 0
  {
    RunDeficit(s, steps);
    ReachableSafe(s, steps);
  }

  // ---------------------------------------------------------------- exact throughout

  predicate ExactThroughout(s: State, steps: seq<Step>)
    requires IsRun(s, steps)
    decreases |steps|
  {
    Exact(s.db) && (steps == [] || ExactThroughout(Next(s, steps[0]), steps[1..]))
  }

  predicate NeverStale(s: State, steps: seq<Step>)
    requires IsRun(s, steps)
    decreases |steps|
  {
    steps == []
    || (!CountsFromStale(s, steps[0]) && !WritesStaleCount(s, steps[0]) && NeverStale(Next(s, steps[0]), steps[1..]))
  }

  lemma {:induction false} NeverStaleExact(s: State, steps: seq<Step>)
    requires Exact(s.db) && IsRun(s, steps)
    ensures ExactThroughout(s, steps) <==> NeverStale(s, steps)
    decreases |steps|
  {
    if steps != [] {
      StepExactIff(s, steps[0]);
      if Exact(Next(s, steps[0]).db) {
        NeverStaleExact(Next(s, steps[0]), steps[1..]);
      }
    }
  }

  /** A run of a new run row keeps the counter exact in every state if and only if no step is stale. */
  lemma CountExactIff(s: State, steps: seq<Step>)
    requires Created(s) && IsRun(s, steps)
    ensures ExactThroughout(s, steps) <==> NeverStale(s, steps)
  {
    NeverStaleExact(s, steps);
  }

  // ---------------------------------------------------------------- the loss is reachable

  function PrepareSteps(a: AttemptId): seq<Step> {
    [Deliver(a), Work(a, ReadRow), Work(a, ReadItems), Work(a, ReadResults), Work(a, CommitPrepare)]
  }

  /** Nothing stored yet and the run not over. */
  predicate Untouched(db: Database) {
    && db.items != {} && db.names != map[] && db.results == []
    && db.row.completed == 0 && db.row.total == GridSize(db.items, db.names)
    && (db.row.status == Pending || db.row.status == Running)
  }

  function ReadyPhase(db: Database): Phase {
    Looping(Plan(db.items, db.names, {}), Tasks(db.items, db.names), Running)
  }

  /** The state once attempt `a` is in its loop with every task to do. */
  function Readied(s: State, a: AttemptId): State {
    s.(db := s.db.(row := s.db.row.(status := Running)), attempts := s.attempts[a := ReadyPhase(s.db)])
  }

  predicate Readies(s: State, a: AttemptId, steps: seq<Step>) {
    IsRun(s, steps) && Final(s, steps) == Readied(s, a)
  }

  /** A step that only moves the attempt on, before the others. */
  lemma ReadiesBefore(s: State, a: AttemptId, step: Step, phase: Phase, rest: seq<Step>)
    requires Enabled(s, step) && Next(s, step) == s.(attempts := s.attempts[a := phase])
    requires Readies(Next(s, step), a, rest)
    ensures Readies(s, a, [step] + rest)
  {
    Prepend(s, step, rest);
    assert s.attempts[a := phase][a := ReadyPhase(s.db)] == s.attempts[a := ReadyPhase(s.db)];
  }

  lemma CommitReadies(s: State, a: AttemptId)
    requires Untouched(s.db) && a in s.attempts
    requires s.attempts[a] == ResultsRead(s.db.row, s.db.names, s.db.items, [])
    ensures Readies(s, a, [Work(a, CommitPrepare)])
  {
    PrepareUntouched(s.db);
    Prepend(s, Work(a, CommitPrepare), []);
  }

  lemma ReadResultsReadies(s: State, a: AttemptId)
    requires Untouched(s.db) && a in s.attempts && s.attempts[a] == ItemsRead(s.db.row, s.db.names, s.db.items)
    ensures Readies(s, a, [Work(a, ReadResults), Work(a, CommitPrepare)])
  {
    var phase := ResultsRead(s.db.row, s.db.names, s.db.items, []);
    CommitReadies(s.(attempts := s.attempts[a := phase]), a);
    ReadiesBefore(s, a, Work(a, ReadResults), phase, [Work(a, CommitPrepare)]);
  }

  lemma ReadItemsReadies(s: State, a: AttemptId)
    requires Untouched(s.db) && a in s.attempts && s.attempts[a] == RowRead(s.db.row, s.db.names)
    ensures Readies(s, a, [Work(a, ReadItems), Work(a, ReadResults), Work(a, CommitPrepare)])
  {
    var phase := ItemsRead(s.db.row, s.db.names, s.db.items);
    ReadResultsReadies(s.(attempts := s.attempts[a := phase]), a);
    ReadiesBefore(s, a, Work(a, ReadItems), phase, [Work(a, ReadResults), Work(a, CommitPrepare)]);
  }

  lemma ReadRowReadies(s: State, a: AttemptId)
    requires Untouched(s.db) && a in s.attempts && s.attempts[a] == Started
    ensures Readies(s, a, [Work(a, ReadRow), Work(a, ReadItems), Work(a, ReadResults), Work(a, CommitPrepare)])
  {
    var phase := RowRead(s.db.row, s.db.names);
    ReadItemsReadies(s.(attempts := s.attempts[a := phase]), a);
    ReadiesBefore(s, a, Work(a, ReadRow), phase, [Work(a, ReadItems), Work(a, ReadResults), Work(a, CommitPrepare)]);
  }

  /** From an untouched run one more attempt comes to its loop with every task to do. */
  lemma PrepareRun(s: State, a: AttemptId)
    requires Untouched(s.db) && a !in s.attempts
    ensures Readies(s, a, PrepareSteps(a))
  {
    ReadRowReadies(s.(attempts := s.attempts[a := Started]), a);
    ReadiesBefore(s, a, Deliver(a), Started,
                  [Work(a, ReadRow), Work(a, ReadItems), Work(a, ReadResults), Work(a, CommitPrepare)]);
  }

  lemma PrepareUntouched(db: Database)
    requires Untouched(db)
    ensures Prepare(db, ResultsRead(db.row, db.names, db.items, []))
         == Outcome(db.(row := db.row.(status := Running)), ReadyPhase(db))
  {
    assert SkipSet([], db.names) == {};
    assert Tasks(db.items, db.names) - {} == Tasks(db.items, db.names);
  }

  function CollidingSteps(a: AttemptId, b: AttemptId, t: Task, u: Task): seq<Step> {
    [Work(a, Refresh(t)), Work(b, Refresh(u)), Work(a, CommitResult), Work(b, CommitResult)]
  }

  /** Both refresh, then both commit: two results, counted as one. */
  lemma Collide(s: State, a: AttemptId, b: AttemptId, t: Task, u: Task)
    requires Untouched(s.db) && s.db.row.status == Running && a != b && t != u
    requires a in s.attempts && s.attempts[a] == ReadyPhase(s.db) && b in s.attempts &&
        s.attempts[b] == ReadyPhase(s.db)
    requires t in Tasks(s.db.items, s.db.names) && u in Tasks(s.db.items, s.db.names)
    ensures IsRun(s, CollidingSteps(a, b, t, u))
    ensures var db := Final(s, CollidingSteps(a, b, t, u)).db; db.row.completed == 1 && |db.results| == 2
  {
    var s1 := Next(s, Work(a, Refresh(t)));
    var s2 := Next(s1, Work(b, Refresh(u)));
    assert s2.attempts[a] == Persisting(s.attempts[a].plan, s.attempts[a].todo, t, 0, Running);
    assert s2.attempts[b] == Persisting(s.attempts[b].plan, s.attempts[b].todo, u, 0, Running);
    var p, q := BothStore(s.db, s2.attempts[a], s2.attempts[b]);
    var s3 := Next(s2, Work(a, CommitResult));
    var s4 := Next(s3, Work(b, CommitResult));
    assert s4.db.results == [p, q];
    Prepend(s3, Work(b, CommitResult), []);
    Prepend(s2, Work(a, CommitResult), [Work(b, CommitResult)]);
    Prepend(s1, Work(b, Refresh(u)), [Work(a, CommitResult), Work(b, CommitResult)]);
    Prepend(s, Work(a, Refresh(t)), [Work(b, Refresh(u)), Work(a, CommitResult), Work(b, CommitResult)]);
  }

  lemma BothStore(db: Database, mine: Phase, other: Phase) returns (p: Pair, q: Pair)
    requires Untouched(db) && mine.Persisting? && other.Persisting? && mine.task != other.task
    requires mine.plan == other.plan == Plan(db.items, db.names, {}) && mine.seenCompleted == other.seenCompleted == 0
    requires mine.task in Tasks(db.items, db.names) && other.task in Tasks(db.items, db.names)
    ensures Persist(db, mine).phase.Looping?
    ensures Persist(db, mine).db == db.(results := [p], row := db.row.(completed := 1))
    ensures Persist(Persist(db, mine).db, other).phase.Looping?
    ensures Persist(Persist(db, mine).db, other).db == db.(results := [p, q], row := db.row.(completed := 1))
  {
    p := TaskPair(mine.plan, mine.task);
    q := TaskPair(other.plan, other.task);
    if p == q {
      StoredPairInjective(mine.plan, mine.task, other.task);
    }
    GridIsInhabited(db, p);
  }

  lemma TaskPair(plan: Plan, t: Task) returns (p: Pair)
    requires t in Tasks(plan.items, plan.names)
    ensures StoredPair(plan, t) == Some(p) && p.item in plan.items && p.variant in plan.names
  {
    var v :| v in plan.names && t == Task(t.item, plan.names[v]);
    StoredPairOfTask(plan, t.item, v);
    p := Pair(t.item, v);
  }

  lemma GridIsInhabited(db: Database, p: Pair)
    requires p.item in db.items && p.variant in db.names
    ensures GridSize(db.items, db.names) >= 1
  {
    assert |{p.item}| <= |db.items| by { SubsetCardinality({p.item}, db.items); }
    assert |{p.variant}| <= |db.names.Keys| by { SubsetCardinality({p.variant}, db.names.Keys); }
    assert |db.names| == |db.names.Keys|;
  }

  /**
   Two attempts alive at once can lose a count: every new run with two tasks has a run of the
   protocol after which two results are stored and one is counted.
   */
  lemma OverlapLosesACount(s: State, t: Task, u: Task)
    requires Created(s) && t != u && t in Tasks(s.db.items, s.db.names) && u in Tasks(s.db.items, s.db.names)
    ensures var steps := PrepareSteps(0) + (PrepareSteps(1) + CollidingSteps(0, 1, t, u));
            && FixedRun(s, steps)
            && Final(s, steps).db.row.completed == 1 && |Final(s, steps).db.results| == 2
  {
    OverlapRun(s, t, u);
    OverlapKeepsInputs(t, u);
  }

  lemma OverlapKeepsInputs(t: Task, u: Task)
    ensures forall step :: step in PrepareSteps(0) + (PrepareSteps(1) + CollidingSteps(0, 1, t, u)) ==>
        KeepsInputs(step)
  {
  }

  lemma OverlapRun(s: State, t: Task, u: Task)
    requires Created(s) && t != u && t in Tasks(s.db.items, s.db.names) && u in Tasks(s.db.items, s.db.names)
    ensures var steps := PrepareSteps(0) + (PrepareSteps(1) + CollidingSteps(0, 1, t, u));
            && IsRun(s, steps)
            && Final(s, steps).db.row.completed == 1 && |Final(s, steps).db.results| == 2
  {
    PrepareRun(s, 0);
    var s1 := Final(s, PrepareSteps(0));
    PrepareRun(s1, 1);
    var s2 := Final(s1, PrepareSteps(1));
    assert ReadyPhase(s1.db) == ReadyPhase(s2.db) == ReadyPhase(s.db);
    Collide(s2, 0, 1, t, u);
    Append(s1, PrepareSteps(1), CollidingSteps(0, 1, t, u));
    Append(s, PrepareSteps(0), PrepareSteps(1) + CollidingSteps(0, 1, t, u));
  }
}
