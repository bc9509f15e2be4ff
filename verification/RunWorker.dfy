/**
 The worker and the cancel endpoint as the imperative code they are: a session keeps the
 run's attributes as loaded and as assigned, and a commit writes the difference.  Every
 method is one segment between awaits and is proved equal to its step of the protocol.
 */
module RunWorker {
  import opened Wrappers
  import opened RunModel
  import opened RunSafety

  class RunStore {
    var status: Status
    var completed: nat
    var total: nat
    var results: seq<Pair>
    var items: set<ItemId>
    var names: Names

    function View(): Database
      reads this
    {
      Database(Row(status, completed, total), results, items, names)
    }

    /** The run row the create endpoint commits before it schedules the work. */
    constructor (items: set<ItemId>, names: Names)
      requires items != {} && names != map[]
      ensures Created(State(View(), map[], true))
      ensures status == Pending && completed == 0 && total == |items| * |names| && results == []
      ensures this.items == items && this.names == names
    {
      this.status := Pending;
      this.completed := 0;
      this.total := |items| * |names|;
      this.results := [];
      this.items := items;
      this.names := names;
    }

    /** The cancel endpoint's conditional update. */
    method CancelRun() returns (accepted: bool)
      modifies this
      ensures accepted <==> old(status) == Pending || old(status) == Running
      ensures status == if accepted then Cancelled else old(status)
      ensures View() == Next(State(old(View()), map[], false), Cancel).db
    {
      accepted := false;
      if status == Pending || status == Running {
        status := Cancelled;
        accepted := true;
      }
    }

    /** The create endpoint's own commit when the scheduler raises. */
    method FailScheduling()
      modifies this`status
      ensures status == Failed
      ensures View() == Next(State(old(View()), map[], true), SchedulingFailed).db
    {
      status := Failed;
    }
  }

  datatype Point =
    | AtStart | AtRow | AtItems | AtResults | AtLoop | AtPersist | AtFinal | AtReturn | AtEnding | AtEndingRead | AtExit

  class RunAttempt {
    const db: RunStore
    var point: Point
    // the session: whether a transaction is open, and the mapped run object with its attribute
    // values now and as last loaded or flushed; a commit leaves them in place
    var inTransaction: bool
    var run: Row
    var loaded: Row
    // the prepared snapshot
    var names: Names
    var items: set<ItemId>
    var existing: seq<Pair>
    var skip: set<Task>
    var variantIds: map<Name, VariantId>
    // the evaluation loop and the handler
    var todo: set<Task>
    var task: Task
    var outcome: Status

    constructor (db: RunStore)
      ensures this.db == db && Position() == Started && Valid()
    {
      this.db := db;
      point := AtStart;
      inTransaction := false;
      run := Row(Pending, 0, 0);
      loaded := Row(Pending, 0, 0);
      names, items, existing, skip, variantIds := map[], {}, [], {}, map[];
      todo, task, outcome := {}, Task("", ""), Failed;
    }

    function SnapshotPlan(): Plan
      reads this
    {
      Plan(items, names, skip)
    }

    function Position(): Phase
      reads this
    {
      match point
      case AtStart => Started
      case AtRow => RowRead(loaded, names)
      case AtItems => ItemsRead(loaded, names, items)
      case AtResults => ResultsRead(loaded, names, items, existing)
      case AtLoop => Looping(SnapshotPlan(), todo, loaded.status)
      case AtPersist => Persisting(SnapshotPlan(), todo, task, loaded.completed, loaded.status)
      case AtFinal => FinalRead(SnapshotPlan(), loaded.status)
      case AtReturn => Returning(SnapshotPlan())
      case AtEnding => Ending(outcome)
      case AtEndingRead => EndingRead(outcome, loaded.status)
      case AtExit => Exited
    }

    /**
     Between segments the session holds no unflushed change, and a transaction is open exactly from
     a read to the commit that follows it; a pending task is a snapshot task.
     */
    ghost predicate Valid()
      reads this
    {
      && run == loaded
      && (point in {AtRow, AtItems, AtResults, AtPersist, AtFinal} ==> inTransaction)
      && (point in {AtLoop, AtReturn} ==> !inTransaction)
      && (point == AtReturn ==> loaded.status == Completed)
      && (point in {AtLoop, AtPersist, AtFinal, AtReturn} ==> variantIds == VariantIds(names))
      && (point in {AtLoop, AtPersist} ==> todo <= Tasks(items, names))
      && (point == AtPersist ==> task in todo)
    }

    predicate Insertable(view: Database, pair: Pair) {
      pair !in view.results && pair.item in view.items && pair.variant in view.names
    }

    /** Flush and commit: changed columns and the added result, or an integrity error and nothing. */
    method Commit(added: Option<Pair>) returns (ok: bool)
      modifies this`loaded, this`inTransaction, db`status, db`completed, db`total, db`results
      ensures var row := Row(Emit(old(db.status), old(loaded).status, run.status),
                             Emit(old(db.completed), old(loaded).completed, run.completed),
                             Emit(old(db.total), old(loaded).total, run.total));
              && (ok <==> row.completed <= row.total && (added.Some? ==> Insertable(old(db.View()), added.value)))
              && (ok ==> loaded == run && !inTransaction
                         && db.View() == old(db.View()).(row := row,
                              results := old(db.results) + (if added.Some? then [added.value] else [])))
              && (!ok ==> loaded == old(loaded) && inTransaction == old(inTransaction) && db.View() == old(db.View()))
    {
      var status := if run.status != loaded.status then run.status else db.status;
      var completed := if run.completed != loaded.completed then run.completed else db.completed;
      var total := if run.total != loaded.total then run.total else db.total;
      if completed > total {
        return false;
      }
      if added.Some? {
        if added.value in db.results || added.value.item !in db.items || added.value.variant !in db.names {
          return false;
        }
        db.results := db.results + [added.value];
      }
      db.status, db.completed, db.total := status, completed, total;
      loaded := run;
      inTransaction := false;
      ok := true;
    }

    /**
     Enter the exception handler and roll back.  With a transaction open, or one being opened by
     the call `underway`, what was assigned is dropped and the row expires; an attempt that has not
     read the row has nothing in memory.  Otherwise the roll back does nothing and the lookup that
     follows finds the row in memory.
     */
    method Fail(status: Status, underway: bool)
      modifies this`point, this`run, this`outcome, this`inTransaction
      ensures point == if old(inTransaction) || underway || old(point) == AtStart then AtEnding else AtEndingRead
      ensures outcome == status && run == loaded && !inTransaction
    {
      point := if inTransaction || underway || point == AtStart then AtEnding else AtEndingRead;
      run := loaded;
      outcome := status;
      inTransaction := false;
    }

    method ReadRow()
      requires Valid() && point == AtStart
      modifies this
      ensures Valid() && Outcome(db.View(), Position()) == Act(old(db.View()), old(Position()), RunModel.ReadRow)
    {
      inTransaction := true;
      run := Row(db.status, db.completed, db.total);
      loaded := run;
      names := db.names;
      point := if run.status == Completed || run.status == Cancelled then AtExit else AtRow;
    }

    method ReadItems()
      requires Valid() && point == AtRow
      modifies this
      ensures Valid() && Outcome(db.View(), Position()) == Act(old(db.View()), old(Position()), RunModel.ReadItems)
    {
      items := db.items;
      if items == {} || names == map[] {
        Fail(Failed, false);
      } else {
        point := AtItems;
      }
    }

    method ReadResults()
      requires Valid() && point == AtItems
      modifies this
      ensures Valid() && Outcome(db.View(), Position()) == Act(old(db.View()), old(Position()), RunModel.ReadResults)
    {
      existing := db.results;
      point := AtResults;
    }

    /** The prepared snapshot, and the evaluation over it. */
    method Adopt(completedPairs: set<Task>)
      requires run == loaded && !inTransaction
      modifies this`skip, this`variantIds, this`todo, this`point
      ensures Valid()
      ensures Position() ==
          Looping(Plan(items, names, completedPairs), Tasks(items, names) - completedPairs, loaded.status)
    {
      skip := completedPairs;
      variantIds := VariantIds(names);
      todo := Tasks(items, names) - skip;
      point := AtLoop;
    }

    method CommitPrepare()
      requires Valid() && point == AtResults
      modifies this, db
      ensures Valid() && Outcome(db.View(), Position()) == Prepare(old(db.View()), old(Position()))
    {
      var completedPairs := SkipSet(existing, names);
      run := Row(Running, |existing|, GridSize(items, names));
      var ok := Commit(None);
      if ok {
        Adopt(completedPairs);
      } else {
        Fail(Failed, false);
      }
    }

    /** First half of `persist_result`: the refresh and the cancellation test. */
    method Refresh(t: Task)
      requires Valid() && point == AtLoop && t in todo
      modifies this
      ensures Valid() && Outcome(db.View(), Position()) == Act(old(db.View()), old(Position()), RunModel.Refresh(t))
    {
      inTransaction := true;
      run := run.(status := db.status, completed := db.completed);
      loaded := loaded.(status := db.status, completed := db.completed);
      if run.status == Cancelled {
        Fail(Cancelled, false);
      } else {
        task := t;
        point := AtPersist;
      }
    }

    /** Second half of `persist_result`: add the row, advance the counter, commit. */
    method CommitResult()
      requires Valid() && point == AtPersist
      modifies this, db
      ensures Valid() && Outcome(db.View(), Position()) == Persist(old(db.View()), old(Position()))
    {
      var pair := PairOfTask();
      run := run.(completed := run.completed + 1);
      var ok := Commit(Some(pair));
      if ok {
        todo := todo - {task};
        point := AtLoop;
      } else {
        Fail(Failed, false);
      }
    }

    /** The ids that the pending task's result is stored under. */
    method PairOfTask() returns (pair: Pair)
      requires Valid() && point == AtPersist
      ensures StoredPair(SnapshotPlan(), task) == Some(pair)
    {
      TaskHasVariant(SnapshotPlan(), task);
      pair := Pair(task.item, variantIds[task.name]);
    }

    static lemma TaskHasVariant(plan: Plan, t: Task)
      requires t in Tasks(plan.items, plan.names)
      ensures t.name in VariantIds(plan.names)
    {
      var v :| v in plan.names && plan.names[v] == t.name;
      StoredPairOfTask(plan, t.item, v);
    }

    method FinalRefresh()
      requires Valid() && point == AtLoop && todo == {}
      modifies this
      ensures Valid() && Outcome(db.View(), Position()) == Act(old(db.View()), old(Position()), RunModel.FinalRefresh)
    {
      inTransaction := true;
      run := run.(status := db.status);
      loaded := loaded.(status := db.status);
      if run.status == Cancelled {
        Fail(Cancelled, false);
      } else {
        point := AtFinal;
      }
    }

    method CommitFinal()
      requires Valid() && point == AtFinal && db.completed <= db.total
      modifies this, db
      ensures Valid() && Outcome(db.View(), Position()) == Act(old(db.View()), old(Position()), RunModel.CommitFinal)
    {
      run := run.(status := Completed);
      var ok := Commit(None);
      assert ok;
      point := AtReturn;
    }

    method Return()
      requires Valid() && point == AtReturn
      modifies this
      ensures Valid() && Outcome(db.View(), Position()) == Act(old(db.View()), old(Position()), RunModel.Return)
    {
      point := AtExit;
    }

    /**
     `asyncio.CancelledError` or another exception at an await inside the `try`; `underway` when
     the await is that of a database call.  The row is read again exactly if it is not in memory.
     */
    method Raise(interrupted: bool, underway: bool) returns (reloads: bool)
      requires Valid() && InTry(Position())
      modifies this
      ensures Valid()
      ensures reloads <==> old(inTransaction) || underway || old(point) == AtStart
      ensures Outcome(db.View(), Position())
           == Act(old(db.View()), old(Position()), if interrupted then Interrupt(reloads) else Fault(reloads))
      ensures Position().Ending? || Position().EndingRead?
      ensures Position().outcome == if interrupted then Cancelled else Failed
    {
      reloads := inTransaction || underway || point == AtStart;
      Fail(if interrupted then Cancelled else Failed, underway);
    }

    /** `_set_terminal_state`: reload the row the roll back expired. */
    method ReadForEnding()
      requires Valid() && point == AtEnding
      modifies this
      ensures Valid() && Outcome(db.View(), Position()) == Act(old(db.View()), old(Position()), RunModel.ReadForEnding)
    {
      run := Row(db.status, db.completed, db.total);
      loaded := run;
      point := AtEndingRead;
    }

    method CommitEnding()
      requires Valid() && point == AtEndingRead && db.completed <= db.total
      modifies this, db
      ensures Valid() && Outcome(db.View(), Position()) == Act(old(db.View()), old(Position()), RunModel.CommitEnding)
    {
      run := run.(status := outcome);
      var ok := Commit(None);
      assert ok;
      point := AtExit;
    }
  }
}
