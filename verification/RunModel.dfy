/**
 The evaluation-run protocol: one run row, its stored results, and any number of
 worker attempts that read and write them between awaits.

 Each step below is one await-to-await segment of the worker, one API transaction,
 or one edit of the run's inputs.  Reads see committed state and commits are atomic.
 A commit writes a column only when the attempt assigned a value different from the
 one it had read: the object-relational mapper emits net changes and nothing else.
 */
module RunModel {
  import opened Wrappers
  import opened Collections

  type ItemId = string
  type VariantId = nat
  type Name = string
  type AttemptId = nat

  /** Variants of the run; names are unique within a project. */
  type Names = m: map<VariantId, Name> | Unambiguous(m)

  predicate Unambiguous(m: map<VariantId, Name>) {
    forall v, w :: v in m && w in m && m[v] == m[w] ==> v == w
  }

  datatype Status = Pending | Running | Completed | Failed | Cancelled

  /** What a stored result is keyed by. */
  datatype Pair = Pair(item: ItemId, variant: VariantId)

  /** What the runner works on: items by id, variants by name. */
  datatype Task = Task(item: ItemId, name: Name)

  datatype Row = Row(status: Status, completed: nat, total: nat)

  datatype Database = Database(row: Row, results: seq<Pair>, items: set<ItemId>, names: Names)

  /** The attempt's snapshot of its inputs and the two translations between names and ids. */
  datatype Plan = Plan(items: set<ItemId>, names: Names, skip: set<Task>)

  /**
   Where an attempt stands; the fields are what it holds in memory.  Between transactions the mapped
   row keeps the status last read or written, `memory`: a commit does not expire it.
   */
  datatype Phase =
    | Started
    | RowRead(row: Row, names: Names)
    | ItemsRead(row: Row, names: Names, items: set<ItemId>)
    | ResultsRead(row: Row, names: Names, items: set<ItemId>, existing: seq<Pair>)
    | Looping(plan: Plan, todo: set<Task>, memory: Status)
    | Persisting(plan: Plan, todo: set<Task>, task: Task, seenCompleted: nat, memory: Status)
    | FinalRead(plan: Plan, seen: Status)
    | Returning(plan: Plan)
    | Ending(outcome: Status)
    | EndingRead(outcome: Status, seen: Status)
    | Exited

  /**
   An exception that finds a transaction open, or under way, is rolled back, which expires the row:
   the ending reads it again.  Otherwise the roll back does nothing and the ending goes by memory.
   */
  datatype Action =
    | ReadRow | ReadItems | ReadResults | CommitPrepare
    | Refresh(task: Task) | CommitResult
    | FinalRefresh | CommitFinal | Return
    | ReadForEnding | CommitEnding
    | Interrupt(reloads: bool)    // asyncio cancellation delivered at an await
    | Fault(reloads: bool)        // any other exception: lost connection, bad endpoint, foreign credential

  datatype Edit =
    | Rename(variant: VariantId, name: Name)
    | AddItem(item: ItemId)
    | RemoveItem(item: ItemId)
    | RemoveVariant(variant: VariantId)

  datatype Step =
    | Deliver(attempt: AttemptId)
    | Work(attempt: AttemptId, action: Action)
    | Crash(attempt: AttemptId)
    | Cancel
    | SchedulingFailed
    | SchedulingReturned
    | Change(edit: Edit)

  /** `scheduling` holds while the creating request still awaits the scheduler. */
  datatype State = State(db: Database, attempts: map<AttemptId, Phase>, scheduling: bool)

  // ---------------------------------------------------------------- snapshots

  function Grid(items: set<ItemId>, names: Names): set<Pair> {
    set i, v | i in items && v in names :: Pair(i, v)
  }

  function GridSize(items: set<ItemId>, names: Names): nat {
    |items| * |names|
  }

  function Tasks(items: set<ItemId>, names: Names): set<Task> {
    set i, v | i in items && v in names :: Task(i, names[v])
  }

  /** `variant_ids`: the inverse of `names`, which name uniqueness makes a function. */
  function VariantIds(names: Names): map<Name, VariantId> {
    assert Unambiguous(names);
    map v | v in names :: names[v] := v
  }

  /** `completed_pairs`: stored results of variants still in the run, by current name. */
  function SkipSet(existing: seq<Pair>, names: Names): set<Task> {
    set p | p in existing && p.variant in names :: Task(p.item, names[p.variant])
  }

  predicate InTry(phase: Phase) {
    !phase.Ending? && !phase.EndingRead? && !phase.Exited?
  }

  /** Only after a commit is there no open transaction; in between there always is. */
  predicate MayEnd(phase: Phase, reloads: bool) {
    InTry(phase) && (reloads || phase.Looping? || phase.Returning?)
  }

  function InMemory(phase: Phase): Status
    requires phase.Looping? || phase.Returning?
  {
    if phase.Looping? then phase.memory else Completed
  }

  /** Into the exception handler: `_set_terminal_state` up to its commit, or up to its reading. */
  function Unwound(phase: Phase, outcome: Status, reloads: bool): Phase
    requires MayEnd(phase, reloads)
  {
    if reloads then Ending(outcome) else EndingRead(outcome, InMemory(phase))
  }

  // ---------------------------------------------------------------- commits

  /** The row a commit leaves behind when the attempt read `seen` and assigned `wanted`. */
  function Emit<T(==)>(stored: T, seen: T, wanted: T): T {
    if wanted != seen then wanted else stored
  }

  function PreparedRow(stored: Row, seen: Row, total: nat, completed: nat): Row {
    Row(Emit(stored.status, seen.status, Running),
        Emit(stored.completed, seen.completed, completed),
        Emit(stored.total, seen.total, total))
  }

  /** Unique constraint, both foreign keys and the progress check of a result commit. */
  predicate ResultAccepted(db: Database, pair: Pair, completed: nat) {
    && pair !in db.results
    && pair.item in db.items
    && pair.variant in db.names
    && completed <= db.row.total
  }

  /** The pair a task is stored under; every task of a snapshot has a variant id. */
  function StoredPair(plan: Plan, task: Task): Option<Pair> {
    var ids := VariantIds(plan.names);
    if task.name in ids then Some(Pair(task.item, ids[task.name])) else None
  }

  // ---------------------------------------------------------------- attempts

  predicate CanAct(phase: Phase, action: Action) {
    match action
    case ReadRow => phase.Started?
    case ReadItems => phase.RowRead?
    case ReadResults => phase.ItemsRead?
    case CommitPrepare => phase.ResultsRead?
    case Refresh(task) => phase.Looping? && task in phase.todo
    case CommitResult => phase.Persisting?
    case FinalRefresh => phase.Looping? && phase.todo == {}
    case CommitFinal => phase.FinalRead?
    case Return => phase.Returning?
    case ReadForEnding => phase.Ending?
    case CommitEnding => phase.EndingRead?
    case Interrupt(reloads) => MayEnd(phase, reloads)
    case Fault(reloads) => MayEnd(phase, reloads)
  }

  datatype Outcome = Outcome(db: Database, phase: Phase)

  function Prepare(db: Database, phase: Phase): Outcome
    requires phase.ResultsRead?
  {
    var row := PreparedRow(db.row, phase.row, GridSize(phase.items, phase.names), |phase.existing|);
    if row.completed <= row.total then
      var skip := SkipSet(phase.existing, phase.names);
      Outcome(db.(row := row),
              Looping(Plan(phase.items, phase.names, skip), Tasks(phase.items, phase.names) - skip, Running))
    else
      Outcome(db, Ending(Failed))
  }

  function Persist(db: Database, phase: Phase): Outcome
    requires phase.Persisting?
  {
    match StoredPair(phase.plan, phase.task)
    case None => Outcome(db, Ending(Failed))
    case Some(pair) =>
      if ResultAccepted(db, pair, phase.seenCompleted + 1) then
        Outcome(db.(results := db.results + [pair], row := db.row.(completed := phase.seenCompleted + 1)),
                Looping(phase.plan, phase.todo - {phase.task}, phase.memory))
      else
        Outcome(db, Ending(Failed))
  }

  function Act(db: Database, phase: Phase, action: Action): Outcome
    requires CanAct(phase, action)
  {
    match action
    case ReadRow =>
      if db.row.status == Completed || db.row.status == Cancelled then Outcome(db, Exited)
      else Outcome(db, RowRead(db.row, db.names))
    case ReadItems =>
      if db.items == {} || phase.names == map[] then Outcome(db, Ending(Failed))
      else Outcome(db, ItemsRead(phase.row, phase.names, db.items))
    case ReadResults => Outcome(db, ResultsRead(phase.row, phase.names, phase.items, db.results))
    case CommitPrepare => Prepare(db, phase)
    case Refresh(task) =>
      if db.row.status == Cancelled then Outcome(db, Ending(Cancelled))
      else Outcome(db, Persisting(phase.plan, phase.todo, task, db.row.completed, db.row.status))
    case CommitResult => Persist(db, phase)
    case FinalRefresh =>
      if db.row.status == Cancelled then Outcome(db, Ending(Cancelled))
      else Outcome(db, FinalRead(phase.plan, db.row.status))
    case CommitFinal =>
      Outcome(db.(row := db.row.(status := Emit(db.row.status, phase.seen, Completed))), Returning(phase.plan))
    case Return => Outcome(db, Exited)
    case ReadForEnding => Outcome(db, EndingRead(phase.outcome, db.row.status))
    case CommitEnding =>
      Outcome(db.(row := db.row.(status := Emit(db.row.status, phase.seen, phase.outcome))), Exited)
    case Interrupt(reloads) => Outcome(db, Unwound(phase, Cancelled, reloads))
    case Fault(reloads) => Outcome(db, Unwound(phase, Failed, reloads))
  }

  // ---------------------------------------------------------------- API and inputs

  predicate Cancellable(status: Status) {
    status == Pending || status == Running
  }

  /** The compare-and-set of the cancel endpoint. */
  function CancelRow(row: Row): Row {
    if Cancellable(row.status) then row.(status := Cancelled) else row
  }

  /** Input edits the database allows: unique names, and no deletion under a stored result. */
  predicate EditAllowed(db: Database, edit: Edit) {
    match edit
    case Rename(v, name) => v in db.names && forall w :: w in db.names && w != v ==> db.names[w] != name
    case AddItem(i) => i !in db.items
    case RemoveItem(i) => i in db.items && forall p :: p in db.results ==> p.item != i
    case RemoveVariant(v) => v in db.names && forall p :: p in db.results ==> p.variant != v
  }

  function ApplyEdit(db: Database, edit: Edit): Database
    requires EditAllowed(db, edit)
  {
    match edit
    case Rename(v, name) =>
      assert Unambiguous(db.names[v := name]) by { assert Unambiguous(db.names); }
      db.(names := db.names[v := name])
    case AddItem(i) => db.(items := db.items + {i})
    case RemoveItem(i) => db.(items := db.items - {i})
    case RemoveVariant(v) =>
      assert Unambiguous(db.names - {v}) by { assert Unambiguous(db.names); }
      db.(names := db.names - {v})
  }

  // ---------------------------------------------------------------- the machine

  /** Creation commits a pending run over the dataset's items and the chosen variants. */
  predicate Created(s: State) {
    && s.db.items != {}
    && s.db.names != map[]
    && s.db.row == Row(Pending, 0, GridSize(s.db.items, s.db.names))
    && s.db.results == []
    && s.attempts == map[]
    && s.scheduling
  }

  predicate Enabled(s: State, step: Step) {
    match step
    case Deliver(a) => a !in s.attempts
    case Work(a, action) => a in s.attempts && CanAct(s.attempts[a], action)
    case Crash(a) => a in s.attempts
    case Cancel => true
    case SchedulingFailed => s.scheduling
    case SchedulingReturned => s.scheduling
    case Change(edit) => EditAllowed(s.db, edit)
  }

  function Next(s: State, step: Step): State
    requires Enabled(s, step)
  {
    match step
    case Deliver(a) => s.(attempts := s.attempts[a := Started])
    case Work(a, action) =>
      var r := Act(s.db, s.attempts[a], action);
      s.(db := r.db, attempts := s.attempts[a := r.phase])
    case Crash(a) => s.(attempts := s.attempts - {a})
    case Cancel => s.(db := s.db.(row := CancelRow(s.db.row)))
    case SchedulingFailed => s.(db := s.db.(row := s.db.row.(status := Failed)), scheduling := false)
    case SchedulingReturned => s.(scheduling := false)
    case Change(edit) => s.(db := ApplyEdit(s.db, edit))
  }

  /** `steps` can be taken one after the other from `s`. */
  predicate IsRun(s: State, steps: seq<Step>)
    decreases |steps|
  {
    steps == [] || (Enabled(s, steps[0]) && IsRun(Next(s, steps[0]), steps[1..]))
  }

  function Final(s: State, steps: seq<Step>): State
    requires IsRun(s, steps)
    decreases |steps|
  {
    if steps == [] then s else Final(Next(s, steps[0]), steps[1..])
  }

  /** A run grows at its front by any step that leads to its start. */
  lemma Prepend(s: State, step: Step, rest: seq<Step>)
    requires Enabled(s, step) && IsRun(Next(s, step), rest)
    ensures IsRun(s, [step] + rest) && Final(s, [step] + rest) == Final(Next(s, step), rest)
  {
    assert ([step] + rest)[1..] == rest;
  }

  lemma {:induction false} Append(s: State, steps: seq<Step>, more: seq<Step>)
    requires IsRun(s, steps) && IsRun(Final(s, steps), more)
    ensures IsRun(s, steps + more) && Final(s, steps + more) == Final(Final(s, steps), more)
    decreases |steps|
  {
    if steps == [] {
      assert steps + more == more;
    } else {
      Append(Next(s, steps[0]), steps[1..], more);
      Prepend(s, steps[0], steps[1..] + more);
      assert steps + more == [steps[0]] + (steps[1..] + more);
    }
  }

  // ---------------------------------------------------------------- restrictions on runs

  /** The inputs keep their items and variants; renaming is still allowed. */
  predicate KeepsInputs(step: Step) {
    step.Change? ==> step.edit.Rename?
  }

  predicate Live(s: State, a: AttemptId) {
    a in s.attempts && !s.attempts[a].Exited?
  }

  /** One live attempt at a time: deliver only when every earlier attempt is over. */
  predicate Exclusive(s: State, step: Step) {
    step.Deliver? ==> forall a :: a in s.attempts ==> s.attempts[a].Exited?
  }

  predicate FixedRun(s: State, steps: seq<Step>) {
    IsRun(s, steps) && forall step :: step in steps ==> KeepsInputs(step)
  }

  predicate ExclusiveRun(s: State, steps: seq<Step>)
    decreases |steps|
  {
    steps == [] || (Exclusive(s, steps[0]) && Enabled(s, steps[0]) && ExclusiveRun(Next(s, steps[0]), steps[1..]))
  }

  lemma {:induction false} ExclusiveRunIsRun(s: State, steps: seq<Step>)
    requires ExclusiveRun(s, steps)
    ensures IsRun(s, steps)
    decreases |steps|
  {
    if steps != [] {
      ExclusiveRunIsRun(Next(s, steps[0]), steps[1..]);
    }
  }
}
