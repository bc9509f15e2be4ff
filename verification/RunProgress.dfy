/**
 Resuming and finishing: what a redelivered attempt evaluates, that every attempt is over
 after a bounded number of its own steps, and that an undisturbed one completes the run.
 */
module RunProgress {
  import opened Wrappers
  import opened Collections
  import opened RunModel
  import opened RunSafety

  // ---------------------------------------------------------------- resuming

  /** `variant_ids` and the variants' names are mutually inverse. */
  lemma NamesAndIdsInverse(names: Names)
    ensures forall v :: v in names ==> names[v] in VariantIds(names) && VariantIds(names)[names[v]] == v
    ensures forall n :: n in VariantIds(names) ==> VariantIds(names)[n] in names && names[VariantIds(names)[n]] == n
  {
    assert Unambiguous(names);
  }

  /** A prepared attempt's tasks are those of its snapshot whose pair it has not read as stored. */
  ghost predicate TakesUpMissing(r: Phase, existing: seq<Pair>)
    requires r.Looping?
  {
    && (forall i, v :: i in r.plan.items && v in r.plan.names ==>
          (Task(i, r.plan.names[v]) in r.todo <==> Pair(i, v) !in existing))
    && (forall t :: t in r.todo ==> ForStoredPair(r.plan, t))
  }

  ghost predicate ForStoredPair(plan: Plan, t: Task) {
    exists i, v :: i in plan.items && v in plan.names && t == Task(i, plan.names[v]) &&
        StoredPair(plan, t) == Some(Pair(i, v))
  }

  /**
   A resumed attempt takes up exactly the pairs of its snapshot that it has not read as stored,
   whatever the variants' names were when the results were stored and whoever else is at work.
   */
  lemma ResumesTheMissingAsRead(db: Database, phase: Phase)
    requires phase.ResultsRead? && Prepare(db, phase).phase.Looping?
    ensures TakesUpMissing(Prepare(db, phase).phase, phase.existing)
  {
    var r := Prepare(db, phase).phase;
    forall i, v | i in r.plan.items && v in r.plan.names
      ensures Task(i, r.plan.names[v]) in r.todo <==> Pair(i, v) !in phase.existing
    {
      SkippedIffStored(phase.existing, phase.names, i, v);
    }
    forall t | t in r.todo ensures ForStoredPair(r.plan, t) {
      var i, v :| i in r.plan.items && v in r.plan.names && t == Task(i, r.plan.names[v]);
      StoredPairOfTask(r.plan, i, v);
    }
  }

  /** With one live attempt at a time these are exactly the pairs without a stored result. */
  lemma ResumesExactlyTheMissing(origin: State, history: seq<Step>, a: AttemptId)
    requires Created(origin) && ExclusiveRun(origin, history)
    requires a in Final'(origin, history).attempts && Final'(origin, history).attempts[a].ResultsRead?
    requires Prepare(Final'(origin, history).db, Final'(origin, history).attempts[a]).phase.Looping?
    ensures var s := Final'(origin, history);
            TakesUpMissing(Prepare(s.db, s.attempts[a]).phase, s.db.results)
  {
    RunKeepsExact(origin, history);
    var s := Final'(origin, history);
    assert PhaseExact(s.db, s.attempts[a]);
    ResumesTheMissingAsRead(s.db, s.attempts[a]);
  }

  // ---------------------------------------------------------------- every attempt is bounded

  /** An upper bound on the attempt's remaining own steps over an input grid of `n` pairs. */
  function Rank(phase: Phase, n: nat): nat {
    match phase
    case Started => 2 * n + 10
    case RowRead(_, _) => 2 * n + 9
    case ItemsRead(_, _, _) => 2 * n + 8
    case ResultsRead(_, _, _, _) => 2 * n + 7
    case Looping(_, todo, _) => 2 * |todo| + 5
    case Persisting(_, todo, _, _, _) => 2 * |todo| + 4
    case FinalRead(_, _) => 4
    case Returning(_) => 3
    case Ending(_) => 2
    case EndingRead(_, _) => 1
    case Exited => 0
  }

  lemma {:induction false} TasksBounded(items: set<ItemId>, names: Names, grid: set<Pair>, tasks: set<Task>)
    requires forall p :: p in grid ==> p.variant in names
    requires tasks == set p | p in grid :: Task(p.item, names[p.variant])
    ensures |tasks| <= |grid|
  {
    if grid == {} {
      assert tasks == {};
    } else {
      var p :| p in grid;
      var rest := set q | q in grid - {p} :: Task(q.item, names[q.variant]);
      TasksBounded(items, names, grid - {p}, rest);
      var t := Task(p.item, names[p.variant]);
      assert tasks == rest + {t};
      assert |grid| == |grid - {p}| + 1;
      assert |rest + {t}| <= |rest| + 1;
    }
  }

  lemma TodoBounded(items: set<ItemId>, names: Names, todo: set<Task>)
    requires todo <= Tasks(items, names)
    ensures |todo| <= GridSize(items, names)
  {
    var grid := Grid(items, names);
    var tasks := set p | p in grid :: Task(p.item, names[p.variant]);
    forall t | t in Tasks(items, names) ensures t in tasks {
      var i, v :| i in items && v in names && t == Task(i, names[v]);
      assert Pair(i, v) in grid;
    }
    TasksBounded(items, names, grid, tasks);
    GridCardinality(items, names);
    SubsetCardinality(todo, tasks);
  }

  lemma PreparedTodo(db: Database, phase: Phase)
    requires phase.ResultsRead?
    ensures var r := Prepare(db, phase).phase;
            r.Ending? ||
                (r.Looping? && r.todo == Tasks(phase.items, phase.names) - SkipSet(phase.existing, phase.names))
  {
  }

  lemma PreparedLowersRank(phase: Phase, r: Phase, n: nat)
    requires phase.ResultsRead? && (r.Ending? || (r.Looping? && |r.todo| <= n))
    ensures Rank(r, n) < Rank(phase, n)
  {
  }

  lemma PersistLowersRank(db: Database, phase: Phase, n: nat)
    requires phase.Persisting? && phase.task in phase.todo
    ensures Rank(Persist(db, phase).phase, n) < Rank(phase, n)
  {
    assert phase.todo == (phase.todo - {phase.task}) + {phase.task};
    assert |phase.todo| == |phase.todo - {phase.task}| + 1;
  }

  lemma ActLowersRank(db: Database, phase: Phase, action: Action, n: nat)
    requires DatabaseOk(db) && PhaseOk(db, phase) && SnapshotCurrent(db, phase) && CanAct(phase, action)
    requires n == GridSize(db.items, db.names)
    ensures Rank(Act(db, phase, action).phase, n) < Rank(phase, n)
  {
    match action
    case CommitPrepare =>
      KeysDecideSize(db.items, db.names, phase.names);
      TodoBounded(phase.items, phase.names, Tasks(phase.items, phase.names) - SkipSet(phase.existing, phase.names));
      PreparedTodo(db, phase);
      PreparedLowersRank(phase, Prepare(db, phase).phase, n);
    case CommitResult => PersistLowersRank(db, phase, n);
    case ReadRow => ReadLowersRank(db, phase, action, n);
    case ReadItems => ReadLowersRank(db, phase, action, n);
    case ReadResults => ReadLowersRank(db, phase, action, n);
    case Refresh(_) => RefreshLowersRank(db, phase, action, n);
    case FinalRefresh => RefreshLowersRank(db, phase, action, n);
    case _ => EndLowersRank(db, phase, action, n);
  }

  lemma ReadLowersRank(db: Database, phase: Phase, action: Action, n: nat)
    requires CanAct(phase, action) && (action.ReadRow? || action.ReadItems? || action.ReadResults?)
    ensures Rank(Act(db, phase, action).phase, n) < Rank(phase, n)
  {
  }

  lemma RefreshLowersRank(db: Database, phase: Phase, action: Action, n: nat)
    requires CanAct(phase, action) && (action.Refresh? || action.FinalRefresh?)
    ensures Rank(Act(db, phase, action).phase, n) < Rank(phase, n)
  {
  }

  lemma EndLowersRank(db: Database, phase: Phase, action: Action, n: nat)
    requires CanAct(phase, action)
    requires action.CommitFinal? || action.Return? || action.ReadForEnding? || action.CommitEnding?
      || action.Interrupt? || action.Fault?
    ensures Rank(Act(db, phase, action).phase, n) < Rank(phase, n)
  {
  }

  function WorkCount(a: AttemptId, steps: seq<Step>): nat {
    if steps == [] then 0
    else (if steps[0].Work? && steps[0].attempt == a then 1 else 0) + WorkCount(a, steps[1..])
  }

  /**
   An attempt that is not killed takes at most 2 * (items * variants) + 10 steps of its own,
   however the other attempts, cancels and renames are interleaved with it.
   */
  lemma {:induction false} AttemptIsBounded(s: State, steps: seq<Step>, a: AttemptId)
    requires FixedSafe(s) && FixedRun(s, steps) && a in s.attempts
    requires Crash(a) !in steps
    ensures a in Final(s, steps).attempts
    ensures var n := GridSize(s.db.items, s.db.names);
            WorkCount(a, steps) + Rank(Final(s, steps).attempts[a], n) <= Rank(s.attempts[a], n) <= 2 * n + 10
    decreases |steps|
  {
    RankBounded(s.db, s.attempts[a]);
    if steps != [] {
      assert steps[0] in steps;
      StepFixed(s, steps[0]);
      StepLowersRank(s, steps[0], a, GridSize(s.db.items, s.db.names));
      AttemptIsBounded(Next(s, steps[0]), steps[1..], a);
    }
  }

  lemma StepLowersRank(s: State, step: Step, a: AttemptId, n: nat)
    requires FixedSafe(s) && Enabled(s, step) && KeepsInputs(step) && a in s.attempts && step != Crash(a)
    requires n == GridSize(s.db.items, s.db.names)
    ensures var s' := Next(s, step);
            && GridSize(s'.db.items, s'.db.names) == n
            && a in s'.attempts
            && Rank(s'.attempts[a], n) + (if step.Work? && step.attempt == a then 1 else 0) <= Rank(s.attempts[a], n)
  {
    var s' := Next(s, step);
    StepFixed(s, step);
    StepKeepsGrid(s, step);
    KeysDecideSize(s.db.items, s.db.names, s'.db.names);
    if step.Work? && step.attempt == a {
      ActLowersRank(s.db, s.attempts[a], step.action, n);
    }
  }

  lemma StepKeepsGrid(s: State, step: Step)
    requires Enabled(s, step) && KeepsInputs(step)
    ensures Next(s, step).db.items == s.db.items && Next(s, step).db.names.Keys == s.db.names.Keys
  {
  }

  lemma RankBounded(db: Database, phase: Phase)
    requires PhaseOk(db, phase) && SnapshotCurrent(db, phase)
    ensures Rank(phase, GridSize(db.items, db.names)) <= 2 * GridSize(db.items, db.names) + 10
  {
    if phase.Looping? || phase.Persisting? {
      TodoBounded(phase.plan.items, phase.plan.names, phase.todo);
      KeysDecideSize(db.items, db.names, phase.plan.names);
    }
  }

  /** An attempt that is not over always has a next step of its own, other than an exception. */
  lemma AttemptNeverStuck(s: State, a: AttemptId)
    requires Live(s, a)
    ensures exists action: Action :: !action.Interrupt? && !action.Fault? && Enabled(s, Work(a, action))
  {
    var phase := s.attempts[a];
    var action :=
      match phase
      case Started => ReadRow
      case RowRead(_, _) => ReadItems
      case ItemsRead(_, _, _) => ReadResults
      case ResultsRead(_, _, _, _) => CommitPrepare
      case Looping(_, todo, _) => if todo == {} then FinalRefresh else var t :| t in todo; Refresh(t)
      case Persisting(_, _, _, _, _) => CommitResult
      case FinalRead(_, _) => CommitFinal
      case Returning(_) => Return
      case Ending(_) => ReadForEnding
      case EndingRead(_, _) => CommitEnding
      case Exited => Return;
    assert Enabled(s, Work(a, action));
  }

  /** Every accepted result commit leaves strictly fewer pairs without a result. */
  lemma CommitShrinksMissing(s: State, a: AttemptId)
    requires FixedSafe(s) && a in s.attempts && s.attempts[a].Persisting?
    requires Persist(s.db, s.attempts[a]).phase.Looping?
    ensures var after := Persist(s.db, s.attempts[a]).db;
            Grid(s.db.items, s.db.names) - Elements(after.results) <
                Grid(s.db.items, s.db.names) - Elements(s.db.results)
  {
    var after := Persist(s.db, s.attempts[a]).db;
    var pair := StoredPair(s.attempts[a].plan, s.attempts[a].task).value;
    assert Elements(after.results) == Elements(s.db.results) + {pair};
    assert pair in Grid(s.db.items, s.db.names);
  }

  // ---------------------------------------------------------------- finishing

  /** Only this attempt moves, and no exception reaches it. */
  predicate Undisturbed(a: AttemptId, steps: seq<Step>) {
    forall step :: step in steps ==> step.Work? && step.attempt == a && !step.action.Interrupt? && !step.action.Fault?
  }

  /** What the undisturbed attempt's reads and the row's status have in common. */
  ghost predicate OnTrack(db: Database, phase: Phase) {
    match phase
    case Started => db.row.status != Cancelled
    case RowRead(row, _) => row.status == db.row.status && row.status != Completed && row.status != Cancelled
    case ItemsRead(row, _, _) => row.status == db.row.status && row.status != Completed && row.status != Cancelled
    case ResultsRead(row, _, _, _) => row.status == db.row.status && row.status != Completed && row.status != Cancelled
    case Looping(_, _, _) => db.row.status == Running
    case Persisting(_, _, _, _, _) => db.row.status == Running
    case FinalRead(_, seen) => seen == Running && db.row.status == Running
    case Returning(_) => db.row.status == Completed
    case Exited => db.row.status == Completed
    case _ => false
  }

  lemma ActOnTrack(db: Database, phase: Phase, action: Action)
    requires DatabaseOk(db) && PhaseOk(db, phase) && SnapshotCurrent(db, phase) && PhaseExact(db, phase)
    requires db.items != {} && db.names != map[] && db.row.total == GridSize(db.items, db.names)
    requires CanAct(phase, action) && !action.Interrupt? && !action.Fault? && OnTrack(db, phase)
    ensures var r := Act(db, phase, action); OnTrack(r.db, r.phase)
  {
    match action
    case CommitPrepare => PrepareFixed(db, phase);
    case CommitResult => PersistFixed(db, phase);
    case ReadRow => ReadOnTrack(db, phase, action);
    case ReadItems => ReadOnTrack(db, phase, action);
    case ReadResults => ReadOnTrack(db, phase, action);
    case _ => RefreshOnTrack(db, phase, action);
  }

  lemma ReadOnTrack(db: Database, phase: Phase, action: Action)
    requires SnapshotCurrent(db, phase) && db.items != {} && db.names != map[] && OnTrack(db, phase)
    requires CanAct(phase, action) && (action.ReadRow? || action.ReadItems? || action.ReadResults?)
    ensures var r := Act(db, phase, action); OnTrack(r.db, r.phase)
  {
    if action.ReadItems? {
      assert phase.names.Keys != {} by { assert db.names.Keys != {}; }
    }
  }

  lemma RefreshOnTrack(db: Database, phase: Phase, action: Action)
    requires OnTrack(db, phase) && CanAct(phase, action)
    requires action.Refresh? || action.FinalRefresh? || action.CommitFinal? || action.Return?
      || action.ReadForEnding? || action.CommitEnding?
    ensures var r := Act(db, phase, action); OnTrack(r.db, r.phase)
  {
  }

  lemma {:induction false} StaysOnTrack(s: State, a: AttemptId, steps: seq<Step>)
    requires FixedSafe(s) && ExactSafe(s) && a in s.attempts && OnTrack(s.db, s.attempts[a])
    requires IsRun(s, steps) && Undisturbed(a, steps)
    ensures var t := Final(s, steps);
            FixedSafe(t) && ExactSafe(t) && a in t.attempts && OnTrack(t.db, t.attempts[a])
    decreases |steps|
  {
    if steps != [] {
      assert steps[0] in steps;
      StepFixed(s, steps[0]);
      StepExact(s, steps[0]);
      assert !s.attempts[a].Exited?;
      ActOnTrack(s.db, s.attempts[a], steps[0].action);
      StaysOnTrack(Next(s, steps[0]), a, steps[1..]);
    }
  }

  /**
   Redeliver a run that is not cancelled, after any history of crashes and renames with one
   live attempt at a time, and let the new attempt run to its end: the run is completed,
   every pair has exactly one result and the counter says so.
   */
  lemma UndisturbedAttemptCompletes(origin: State, history: seq<Step>, a: AttemptId, steps: seq<Step>)
    requires Created(origin) && FixedRun(origin, history) && ExclusiveRun(origin, history)
    requires var s := Final(origin, history);
             && s.db.row.status != Cancelled
             && Enabled(s, Deliver(a)) && Exclusive(s, Deliver(a))
             && IsRun(Next(s, Deliver(a)), steps) && Undisturbed(a, steps)
             && a in Final(Next(s, Deliver(a)), steps).attempts
             && Final(Next(s, Deliver(a)), steps).attempts[a].Exited?
    ensures var db := Final(Next(Final(origin, history), Deliver(a)), steps).db;
            && db.row.status == Completed
            && Distinct(db.results) && Elements(db.results) == Grid(db.items, db.names)
            && db.row.completed == db.row.total == |db.items| * |db.names|
  {
    RunKeepsFixed(origin, history);
    RunKeepsExact(origin, history);
    var s := Final(origin, history);
    StepFixed(s, Deliver(a));
    StepExact(s, Deliver(a));
    StaysOnTrack(Next(s, Deliver(a)), a, steps);
    var t := Final(Next(s, Deliver(a)), steps);
    StoredWithinGrid(t.db);
    SubsetCardinality(Grid(t.db.items, t.db.names), Elements(t.db.results));
    GridCardinality(t.db.items, t.db.names);
    DistinctCardinality(t.db.results);
  }
}
