/**
 Safety of the run protocol over every interleaving of attempts, crashes,
 redeliveries, cancels and input edits.
 */
module RunSafety {
  import opened Wrappers
  import opened Collections
  import opened RunModel

  // ---------------------------------------------------------------- the invariant

  ghost predicate DatabaseOk(db: Database) {
    && Distinct(db.results)
    && (forall p :: p in db.results ==> p.item in db.items && p.variant in db.names)
    && db.row.completed <= |db.results|
    && db.row.completed <= db.row.total
  }

  /** Every pair of the snapshot is stored or still to be evaluated. */
  ghost predicate Covered(db: Database, plan: Plan, todo: set<Task>) {
    && todo <= Tasks(plan.items, plan.names)
    && forall i, v :: i in plan.items && v in plan.names ==>
         Pair(i, v) in db.results || Task(i, plan.names[v]) in todo
  }

  ghost predicate PhaseOk(db: Database, phase: Phase) {
    match phase
    case Started => true
    case RowRead(row, _) => row.completed <= |db.results|
    case ItemsRead(row, _, _) => row.completed <= |db.results|
    case ResultsRead(row, _, _, existing) => row.completed <= |db.results| && existing <= db.results
    case Looping(plan, todo, memory) => Covered(db, plan, todo) && memory != Cancelled
    case Persisting(plan, todo, task, seen, memory) =>
      Covered(db, plan, todo) && task in todo && seen <= |db.results| && memory != Cancelled
    case FinalRead(plan, seen) => Covered(db, plan, {}) && seen != Cancelled
    case Returning(plan) => Covered(db, plan, {})
    case Ending(outcome) => outcome == Cancelled || outcome == Failed
    case EndingRead(outcome, _) => outcome == Cancelled || outcome == Failed
    case Exited => true
  }

  ghost predicate Safe(s: State) {
    DatabaseOk(s.db) && forall a :: a in s.attempts ==> PhaseOk(s.db, s.attempts[a])
  }

  // ---------------------------------------------------------------- one step

  lemma PhaseOkFrame(db: Database, db': Database, phase: Phase)
    requires PhaseOk(db, phase)
    requires db.results <= db'.results
    ensures PhaseOk(db', phase)
  {
  }

  /** A task of the snapshot is stored under the one variant that bears its name. */
  lemma StoredPairOfTask(plan: Plan, i: ItemId, v: VariantId)
    requires v in plan.names
    ensures StoredPair(plan, Task(i, plan.names[v])) == Some(Pair(i, v))
  {
    assert Unambiguous(plan.names);
    assert plan.names[v] in VariantIds(plan.names);
  }

  /** Distinct tasks of one snapshot are stored under distinct pairs. */
  lemma StoredPairInjective(plan: Plan, t: Task, u: Task)
    requires t in Tasks(plan.items, plan.names) && u in Tasks(plan.items, plan.names)
    requires StoredPair(plan, t) == StoredPair(plan, u)
    ensures t == u
  {
    var v :| v in plan.names && t == Task(t.item, plan.names[v]);
    var w :| w in plan.names && u == Task(u.item, plan.names[w]);
    StoredPairOfTask(plan, t.item, v);
    StoredPairOfTask(plan, u.item, w);
  }

  /** Unique names: a task is skipped exactly when its own pair was read as stored. */
  lemma SkippedIffStored(existing: seq<Pair>, names: Names, i: ItemId, v: VariantId)
    requires v in names
    ensures Task(i, names[v]) in SkipSet(existing, names) <==> Pair(i, v) in existing
  {
    var t := Task(i, names[v]);
    if t in SkipSet(existing, names) {
      var p :| p in existing && p.variant in names && t == Task(p.item, names[p.variant]);
      assert Unambiguous(names);
      assert p == Pair(i, v);
    }
    if Pair(i, v) in existing {
      assert Task(Pair(i, v).item, names[Pair(i, v).variant]) in SkipSet(existing, names);
    }
  }

  lemma PrepareSafe(db: Database, phase: Phase)
    requires DatabaseOk(db) && PhaseOk(db, phase) && phase.ResultsRead?
    ensures var r := Prepare(db, phase); DatabaseOk(r.db) && PhaseOk(r.db, r.phase) && r.db.results == db.results
  {
    var r := Prepare(db, phase);
    if r.phase.Looping? {
      var plan := r.phase.plan;
      forall i, v | i in plan.items && v in plan.names
        ensures Pair(i, v) in db.results || Task(i, plan.names[v]) in r.phase.todo
      {
        var t := Task(i, plan.names[v]);
        assert t in Tasks(plan.items, plan.names);
        SkippedIffStored(phase.existing, phase.names, i, v);
      }
    }
  }

  lemma PersistSafe(db: Database, phase: Phase)
    requires DatabaseOk(db) && PhaseOk(db, phase) && phase.Persisting?
    ensures var r := Persist(db, phase); DatabaseOk(r.db) && PhaseOk(r.db, r.phase) && db.results <= r.db.results
  {
    var r := Persist(db, phase);
    if r.phase.Looping? {
      var plan := phase.plan;
      forall i, v | i in plan.items && v in plan.names
        ensures Pair(i, v) in r.db.results || Task(i, plan.names[v]) in r.phase.todo
      {
        StoredPairOfTask(plan, i, v);
        assert Pair(i, v) in db.results || Task(i, plan.names[v]) in phase.todo;
      }
    }
  }

  lemma ActSafe(db: Database, phase: Phase, action: Action)
    requires DatabaseOk(db) && PhaseOk(db, phase) && CanAct(phase, action)
    ensures var r := Act(db, phase, action); DatabaseOk(r.db) && PhaseOk(r.db, r.phase) && db.results <= r.db.results
  {
    match action
    case CommitPrepare => PrepareSafe(db, phase);
    case CommitResult => PersistSafe(db, phase);
    case _ =>
  }

  lemma StepSafe(s: State, step: Step)
    requires Safe(s) && Enabled(s, step)
    ensures Safe(Next(s, step))
    ensures s.db.results <= Next(s, step).db.results
  {
    var s' := Next(s, step);
    match step
    case Work(a, action) =>
      ActSafe(s.db, s.attempts[a], action);
      forall b | b in s'.attempts ensures PhaseOk(s'.db, s'.attempts[b]) {
        if b != a { PhaseOkFrame(s.db, s'.db, s.attempts[b]); }
      }
    case _ =>
      forall b | b in s'.attempts ensures PhaseOk(s'.db, s'.attempts[b]) {
        if b in s.attempts { PhaseOkFrame(s.db, s'.db, s.attempts[b]); }
      }
  }

  lemma {:induction false} RunKeepsSafe(s: State, steps: seq<Step>)
    requires Safe(s) && IsRun(s, steps)
    ensures Safe(Final(s, steps))
    ensures s.db.results <= Final(s, steps).db.results
    decreases |steps|
  {
    if steps != [] {
      StepSafe(s, steps[0]);
      RunKeepsSafe(Next(s, steps[0]), steps[1..]);
    }
  }

  // ---------------------------------------------------------------- main results

  /**
   In every reachable state no pair is stored twice, every stored pair still refers to an
   input of the run, and the progress counter never runs ahead of the stored results.
   */
  lemma ReachableSafe(s: State, steps: seq<Step>)
    requires Created(s) && IsRun(s, steps)
    ensures var db := Final(s, steps).db;
            && Distinct(db.results)
            && Elements(db.results) <= Grid(db.items, db.names)
            && db.row.completed <= |db.results| <= GridSize(db.items, db.names)
            && db.row.completed <= db.row.total
  {
    RunKeepsSafe(s, steps);
    var db := Final(s, steps).db;
    StoredWithinGrid(db);
  }

  lemma StoredWithinGrid(db: Database)
    requires DatabaseOk(db)
    ensures Elements(db.results) <= Grid(db.items, db.names)
    ensures |db.results| <= GridSize(db.items, db.names)
    ensures |db.results| == GridSize(db.items, db.names) ==> Elements(db.results) == Grid(db.items, db.names)
  {
    GridCardinality(db.items, db.names);
    DistinctCardinality(db.results);
    SubsetCardinality(Elements(db.results), Grid(db.items, db.names));
  }

  lemma GridCardinality(items: set<ItemId>, names: Names)
    ensures |Grid(items, names)| == GridSize(items, names)
  {
    var product := set i, v | i in items && v in names.Keys :: (i, v);
    ProductCardinality(items, names.Keys, product);
    assert |names.Keys| == |names|;
    RelabelCardinality(product, Grid(items, names));
  }

  lemma {:induction false} RelabelCardinality(product: set<(ItemId, VariantId)>, grid: set<Pair>)
    requires grid == set p | p in product :: Pair(p.0, p.1)
    ensures |grid| == |product|
  {
    if product == {} {
      assert grid == {};
    } else {
      var p :| p in product;
      var rest := set q | q in product - {p} :: Pair(q.0, q.1);
      RelabelCardinality(product - {p}, rest);
      assert grid == rest + {Pair(p.0, p.1)};
    }
  }

  /** Only an attempt's final commit writes `completed`, and then its whole snapshot is stored. */
  lemma CompletedMeansSnapshotStored(s: State, steps: seq<Step>, step: Step)
    requires Created(s) && IsRun(s, steps)
    requires Enabled(Final(s, steps), step)
    requires Final(s, steps).db.row.status != Completed
    requires Next(Final(s, steps), step).db.row.status == Completed
    ensures step.Work? && step.action == CommitFinal
    ensures var before := Final(s, steps);
            var plan := before.attempts[step.attempt].plan;
            Grid(plan.items, plan.names) <= Elements(Next(before, step).db.results)
  {
    RunKeepsSafe(s, steps);
    OnlyFinalCommitCompletes(Final(s, steps), step);
    FinalCommitCovers(Final(s, steps), step.attempt);
  }

  lemma OnlyFinalCommitCompletes(s: State, step: Step)
    requires Safe(s) && Enabled(s, step)
    requires s.db.row.status != Completed && Next(s, step).db.row.status == Completed
    ensures step.Work? && step.action == CommitFinal
  {
    if step.Work? {
      ActCompletes(s.db, s.attempts[step.attempt], step.action);
    }
  }

  lemma ActCompletes(db: Database, phase: Phase, action: Action)
    requires PhaseOk(db, phase) && CanAct(phase, action)
    requires db.row.status != Completed && Act(db, phase, action).db.row.status == Completed
    ensures action == CommitFinal
  {
  }

  lemma FinalCommitCovers(s: State, a: AttemptId)
    requires Safe(s) && Enabled(s, Work(a, CommitFinal))
    ensures var plan := s.attempts[a].plan;
            Grid(plan.items, plan.names) <= Elements(Next(s, Work(a, CommitFinal)).db.results)
  {
    assert PhaseOk(s.db, s.attempts[a]);
  }

  /** With fixed inputs: what an attempt remembers of the inputs agrees with the database. */
  ghost predicate SnapshotCurrent(db: Database, phase: Phase) {
    match phase
    case RowRead(row, names) => names.Keys == db.names.Keys && row.total == db.row.total
    case ItemsRead(row, names, items) => names.Keys == db.names.Keys && items == db.items && row.total == db.row.total
    case ResultsRead(row, names, items, _) => names.Keys == db.names.Keys && items == db.items &&
        row.total == db.row.total
    case Looping(plan, _, _) => plan.names.Keys == db.names.Keys && plan.items == db.items
    case Persisting(plan, _, _, _, _) => plan.names.Keys == db.names.Keys && plan.items == db.items
    case FinalRead(plan, _) => plan.names.Keys == db.names.Keys && plan.items == db.items
    case Returning(plan) => plan.names.Keys == db.names.Keys && plan.items == db.items
    case _ => true
  }

  ghost predicate FixedSafe(s: State) {
    && Safe(s)
    && s.db.items != {} && s.db.names != map[]
    && s.db.row.total == GridSize(s.db.items, s.db.names)
    && (forall a :: a in s.attempts ==> SnapshotCurrent(s.db, s.attempts[a]))
    && (s.db.row.status == Completed ==> Grid(s.db.items, s.db.names) <= Elements(s.db.results))
  }

  lemma KeysDecideSize(items: set<ItemId>, names: Names, names': Names)
    requires names.Keys == names'.Keys
    ensures GridSize(items, names) == GridSize(items, names')
    ensures Grid(items, names) == Grid(items, names')
  {
    assert |names| == |names.Keys| && |names'| == |names'.Keys|;
  }

  /** The preparing commit of an unchanged snapshot is never rejected by the progress check. */
  lemma PrepareFixed(db: Database, phase: Phase)
    requires DatabaseOk(db) && PhaseOk(db, phase) && phase.ResultsRead? && SnapshotCurrent(db, phase)
    requires db.row.total == GridSize(db.items, db.names)
    ensures var r := Prepare(db, phase);
            r.phase.Looping? && r.db.row.total == db.row.total && SnapshotCurrent(r.db, r.phase)
  {
    StoredWithinGrid(db);
    KeysDecideSize(db.items, db.names, phase.names);
  }

  /** A result commit over an unchanged snapshot fails only because the pair is already stored. */
  lemma PersistFixed(db: Database, phase: Phase)
    requires DatabaseOk(db) && PhaseOk(db, phase) && phase.Persisting? && SnapshotCurrent(db, phase)
    requires db.row.total == GridSize(db.items, db.names)
    ensures StoredPair(phase.plan, phase.task).Some?
    ensures Persist(db, phase).phase.Looping? <==> StoredPair(phase.plan, phase.task).value !in db.results
  {
    var task := phase.task;
    assert task in Tasks(phase.plan.items, phase.plan.names);
    var v :| v in phase.plan.names && task == Task(task.item, phase.plan.names[v]);
    StoredPairOfTask(phase.plan, task.item, v);
    if Pair(task.item, v) !in db.results {
      RoomForOneMore(db, Pair(task.item, v));
    }
  }

  /** A pair of the grid that is not stored yet leaves the stored ones short of the grid. */
  lemma RoomForOneMore(db: Database, pair: Pair)
    requires DatabaseOk(db) && pair.item in db.items && pair.variant in db.names && pair !in db.results
    ensures |db.results| + 1 <= GridSize(db.items, db.names)
  {
    StoredWithinGrid(db.(results := db.results + [pair]));
  }

  /** What one action of an attempt keeps while the inputs are fixed. */
  ghost predicate StaysFixed(db: Database, r: Outcome) {
    && r.db.row.total == db.row.total && r.db.items == db.items && r.db.names == db.names
    && SnapshotCurrent(r.db, r.phase)
    && (r.db.row.status == Completed ==> db.row.status == Completed || Grid(db.items, db.names) <= Elements(db.results))
  }

  lemma ReadFixed(db: Database, phase: Phase, action: Action)
    requires CanAct(phase, action) && SnapshotCurrent(db, phase)
    requires action.ReadRow? || action.ReadItems? || action.ReadResults?
    ensures StaysFixed(db, Act(db, phase, action))
  {
  }

  lemma RefreshFixed(db: Database, phase: Phase, action: Action)
    requires CanAct(phase, action) && SnapshotCurrent(db, phase)
    requires action.Refresh? || action.FinalRefresh? || action.Return?
    ensures StaysFixed(db, Act(db, phase, action))
  {
  }

  lemma CommitFixed(db: Database, phase: Phase, action: Action)
    requires DatabaseOk(db) && PhaseOk(db, phase) && CanAct(phase, action) && SnapshotCurrent(db, phase)
    requires db.row.total == GridSize(db.items, db.names)
    requires action.CommitPrepare? || action.CommitResult? || action.CommitFinal?
    ensures StaysFixed(db, Act(db, phase, action))
  {
    match action
    case CommitPrepare => PrepareFixed(db, phase);
    case CommitFinal => KeysDecideSize(db.items, db.names, phase.plan.names);
    case CommitResult =>
  }

  lemma EndFixed(db: Database, phase: Phase, action: Action)
    requires PhaseOk(db, phase) && CanAct(phase, action)
    requires action.Interrupt? || action.Fault? || action.ReadForEnding? || action.CommitEnding?
    ensures StaysFixed(db, Act(db, phase, action))
  {
  }

  lemma ActFixed(db: Database, phase: Phase, action: Action)
    requires DatabaseOk(db) && PhaseOk(db, phase) && CanAct(phase, action) && SnapshotCurrent(db, phase)
    requires db.row.total == GridSize(db.items, db.names)
    ensures StaysFixed(db, Act(db, phase, action))
  {
    match action
    case ReadRow => ReadFixed(db, phase, action);
    case ReadItems => ReadFixed(db, phase, action);
    case ReadResults => ReadFixed(db, phase, action);
    case Refresh(_) => RefreshFixed(db, phase, action);
    case FinalRefresh => RefreshFixed(db, phase, action);
    case Return => RefreshFixed(db, phase, action);
    case CommitPrepare => CommitFixed(db, phase, action);
    case CommitResult => CommitFixed(db, phase, action);
    case CommitFinal => CommitFixed(db, phase, action);
    case _ => EndFixed(db, phase, action);
  }

  lemma CurrentFrame(db: Database, db': Database, phase: Phase)
    requires SnapshotCurrent(db, phase)
    requires db'.items == db.items && db'.names.Keys == db.names.Keys && db'.row.total == db.row.total
    ensures SnapshotCurrent(db', phase)
  {
  }

  lemma WorkFixed(s: State, a: AttemptId, action: Action)
    requires FixedSafe(s) && Enabled(s, Work(a, action))
    ensures FixedSafe(Next(s, Work(a, action)))
  {
    StepSafe(s, Work(a, action));
    var s' := Next(s, Work(a, action));
    ActFixed(s.db, s.attempts[a], action);
    forall b | b in s'.attempts ensures SnapshotCurrent(s'.db, s'.attempts[b]) {
      if b != a { CurrentFrame(s.db, s'.db, s.attempts[b]); }
    }
    assert Elements(s.db.results) <= Elements(s'.db.results);
  }

  lemma ChangeFixed(s: State, edit: Edit)
    requires FixedSafe(s) && Enabled(s, Change(edit)) && edit.Rename?
    ensures FixedSafe(Next(s, Change(edit)))
  {
    StepSafe(s, Change(edit));
    var s' := Next(s, Change(edit));
    assert s'.db.names.Keys == s.db.names.Keys;
    KeysDecideSize(s.db.items, s.db.names, s'.db.names);
    forall b | b in s'.attempts ensures SnapshotCurrent(s'.db, s'.attempts[b]) {
      CurrentFrame(s.db, s'.db, s.attempts[b]);
    }
  }

  lemma StepFixed(s: State, step: Step)
    requires FixedSafe(s) && Enabled(s, step) && KeepsInputs(step)
    ensures FixedSafe(Next(s, step))
  {
    match step
    case Work(a, action) => WorkFixed(s, a, action);
    case Change(edit) => ChangeFixed(s, edit);
    case _ =>
      StepSafe(s, step);
      var s' := Next(s, step);
      forall b | b in s'.attempts ensures SnapshotCurrent(s'.db, s'.attempts[b]) {
        if b in s.attempts { CurrentFrame(s.db, s'.db, s.attempts[b]); }
      }
  }

  lemma {:induction false} RunKeepsFixed(s: State, steps: seq<Step>)
    requires FixedSafe(s) && FixedRun(s, steps)
    ensures FixedSafe(Final(s, steps))
    decreases |steps|
  {
    if steps != [] {
      assert steps[0] in steps;
      StepFixed(s, steps[0]);
      RunKeepsFixed(Next(s, steps[0]), steps[1..]);
    }
  }

  /**
   For fixed inputs and any number of overlapping attempts every committed state keeps
   completed <= stored <= items x variants = total, and a run that says `completed`
   has every pair stored.
   */
  lemma FixedInputsCount(s: State, steps: seq<Step>)
    requires Created(s) && FixedRun(s, steps)
    ensures var db := Final(s, steps).db;
            && db.row.completed <= |db.results| <= |db.items| * |db.names| == db.row.total
            && (db.row.status == Completed ==>
                Elements(db.results) == Grid(db.items, db.names) && |db.results| == db.row.total)
  {
    RunKeepsFixed(s, steps);
    var db := Final(s, steps).db;
    StoredWithinGrid(db);
    if db.row.status == Completed {
      SubsetCardinality(Grid(db.items, db.names), Elements(db.results));
      GridCardinality(db.items, db.names);
      DistinctCardinality(db.results);
    }
  }

  // ---------------------------------------------------------------- one live attempt

  ghost predicate PhaseExact(db: Database, phase: Phase) {
    match phase
    case RowRead(row, _) => row.completed == |db.results|
    case ItemsRead(row, _, _) => row.completed == |db.results|
    case ResultsRead(row, _, _, existing) => row.completed == |db.results| && existing == db.results
    case Looping(plan, todo, _) => Unstored(db, plan, todo)
    case Persisting(plan, todo, _, seen, _) => Unstored(db, plan, todo) && seen == |db.results|
    case _ => true
  }

  ghost predicate Unstored(db: Database, plan: Plan, todo: set<Task>) {
    forall t :: t in todo ==> StoredPair(plan, t).Some? && StoredPair(plan, t).value !in db.results
  }

  ghost predicate ExactSafe(s: State) {
    && Safe(s)
    && s.db.row.completed == |s.db.results|
    && (forall a, b :: Live(s, a) && Live(s, b) ==> a == b)
    && (forall a :: a in s.attempts ==> PhaseExact(s.db, s.attempts[a]) || s.attempts[a].Exited?)
  }

  lemma PrepareExact(db: Database, phase: Phase)
    requires DatabaseOk(db) && PhaseOk(db, phase) && phase.ResultsRead? && PhaseExact(db, phase)
    requires db.row.completed == |db.results|
    ensures var r := Prepare(db, phase); r.db.row.completed == |r.db.results| && PhaseExact(r.db, r.phase)
  {
    var r := Prepare(db, phase);
    if r.phase.Looping? {
      var plan := r.phase.plan;
      forall t | t in r.phase.todo
        ensures StoredPair(plan, t).Some? && StoredPair(plan, t).value !in db.results
      {
        var i, v :| i in plan.items && v in plan.names && t == Task(i, plan.names[v]);
        StoredPairOfTask(plan, i, v);
        assert Pair(i, v) in db.results ==> t in plan.skip;
      }
    }
  }

  lemma PersistExact(db: Database, phase: Phase)
    requires DatabaseOk(db) && PhaseOk(db, phase) && phase.Persisting? && PhaseExact(db, phase)
    requires db.row.completed == |db.results|
    ensures var r := Persist(db, phase); r.db.row.completed == |r.db.results| && PhaseExact(r.db, r.phase)
  {
    var r := Persist(db, phase);
    if r.phase.Looping? {
      forall t | t in r.phase.todo
        ensures StoredPair(phase.plan, t).Some? && StoredPair(phase.plan, t).value !in r.db.results
      {
        if StoredPair(phase.plan, t) == StoredPair(phase.plan, phase.task) {
          StoredPairInjective(phase.plan, t, phase.task);
        }
      }
    }
  }

  lemma ActExact(db: Database, phase: Phase, action: Action)
    requires DatabaseOk(db) && PhaseOk(db, phase) && CanAct(phase, action) && PhaseExact(db, phase)
    requires db.row.completed == |db.results|
    ensures var r := Act(db, phase, action); r.db.row.completed == |r.db.results| && PhaseExact(r.db, r.phase)
  {
    match action
    case CommitPrepare => PrepareExact(db, phase);
    case CommitResult => PersistExact(db, phase);
    case _ =>
  }

  lemma StepExact(s: State, step: Step)
    requires ExactSafe(s) && Enabled(s, step) && Exclusive(s, step)
    ensures ExactSafe(Next(s, step))
  {
    StepSafe(s, step);
    var s' := Next(s, step);
    match step
    case Work(a, action) =>
      assert Live(s, a);
      ActExact(s.db, s.attempts[a], action);
      forall b | b in s'.attempts ensures PhaseExact(s'.db, s'.attempts[b]) || s'.attempts[b].Exited? {
        if b != a { assert !Live(s, b); }
      }
      forall b, c | Live(s', b) && Live(s', c) ensures b == c {
        assert b == a || Live(s, b);
        assert c == a || Live(s, c);
      }
    case Deliver(a) =>
      forall b | Live(s', b) ensures b == a {
      }
    case _ =>
      forall b, c | Live(s', b) && Live(s', c) ensures b == c {
        assert Live(s, b) && Live(s, c);
      }
  }

  lemma {:induction false} RunKeepsExact(s: State, steps: seq<Step>)
    requires ExactSafe(s) && ExclusiveRun(s, steps)
    ensures IsRun(s, steps)
    ensures ExactSafe(Final(s, steps))
    decreases |steps|
  {
    if steps != [] {
      StepExact(s, steps[0]);
      RunKeepsExact(Next(s, steps[0]), steps[1..]);
    }
  }

  /** With one live attempt at a time the counter equals the number of stored results. */
  lemma ExclusiveCount(s: State, steps: seq<Step>)
    requires Created(s) && ExclusiveRun(s, steps)
    ensures IsRun(s, steps)
    ensures var db := Final(s, steps).db; db.row.completed == |db.results|
  {
    RunKeepsExact(s, steps);
  }

  /** With one live attempt at a time no result commit ever meets the unique constraint. */
  lemma ExclusiveNeverConflicts(s: State, steps: seq<Step>, a: AttemptId)
    requires Created(s) && ExclusiveRun(s, steps)
    requires a in Final'(s, steps).attempts && Final'(s, steps).attempts[a].Persisting?
    ensures var now := Final'(s, steps);
            var phase := now.attempts[a];
            StoredPair(phase.plan, phase.task).Some? && StoredPair(phase.plan, phase.task).value !in now.db.results
  {
    RunKeepsExact(s, steps);
  }

  /** `Final` for a run known to be exclusive. */
  function Final'(s: State, steps: seq<Step>): State
    requires ExclusiveRun(s, steps)
  {
    ExclusiveRunIsRun(s, steps);
    Final(s, steps)
  }
}
