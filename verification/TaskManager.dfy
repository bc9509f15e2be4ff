/** The in-process task manager: at most one unfinished task per run. */
module TaskManager {
  import opened Wrappers

  type RunId = nat

  /** An asyncio task of one run. */
  class WorkTask {
    const run: RunId
    var cancelRequested: bool
    var done: bool

    constructor (run: RunId)
      ensures this.run == run && !cancelRequested && !done
    {
      this.run := run;
      cancelRequested, done := false, false;
    }

    method RequestCancel()
      modifies this
      ensures done == old(done) && cancelRequested
    {
      cancelRequested := true;
    }

    /** The event loop runs the task to its end. */
    method RunToEnd()
      modifies this
      ensures done && cancelRequested == old(cancelRequested)
    {
      done := true;
    }
  }

  class RunTaskManager {
    var tasks: map<RunId, WorkTask>
    // every task ever started
    ghost var started: set<WorkTask>

    ghost predicate Valid()
      reads this, started
    {
      && (forall r :: r in tasks ==> tasks[r] in started && tasks[r].run == r)
      && (forall t :: t in started && !t.done ==> t.run in tasks && tasks[t.run] == t)
    }

    /** Two unfinished tasks of one run are the same task. */
    lemma OneUnfinishedTaskPerRun(t: WorkTask, u: WorkTask)
      requires Valid() && t in started && u in started
      requires !t.done && !u.done && t.run == u.run
      ensures t == u
    {
      assert tasks[t.run] == t && tasks[u.run] == u;
    }

    constructor ()
      ensures Valid() && tasks == map[] && started == {}
    {
      tasks := map[];
      started := {};
    }

    /** Refused exactly when the run is still listed. */
    method Start(run: RunId) returns (task: Option<WorkTask>)
      requires Valid()
      modifies this
      ensures Valid()
      ensures task.None? <==> run in old(tasks)
      ensures task.Some? ==> forall t :: t in old(started) && t.run == run ==> t.done
      ensures task.None? ==> tasks == old(tasks) && started == old(started)
      ensures task.Some? ==> fresh(task.value) && task.value.run == run && !task.value.done
      ensures task.Some? ==> tasks == old(tasks)[run := task.value] && started == old(started) + {task.value}
    {
      if run in tasks {
        return None;
      }
      var created := new WorkTask(run);
      tasks := tasks[run := created];
      started := started + {created};
      task := Some(created);
    }

    /** Cancels and awaits the run's task; false when there is none left to cancel. */
    method Cancel(run: RunId) returns (cancelled: bool)
      requires Valid()
      modifies started
      ensures Valid() && tasks == old(tasks) && started == old(started)
      ensures cancelled <==> run in tasks && !old(tasks[run].done)
      ensures cancelled ==> tasks[run].done && tasks[run].cancelRequested
      ensures forall t :: t in started && (!cancelled || t != tasks[run]) ==> t.done == old(t.done)
    {
      if run !in tasks || tasks[run].done {
        return false;
      }
      var task := tasks[run];
      task.RequestCancel();
      task.RunToEnd();
      cancelled := true;
    }

    /** The first half of a shutdown: request the cancellation of every listed task not finished. */
    method RequestShutdown() returns (pending: set<WorkTask>)
      requires Valid()
      modifies started
      ensures Valid() && tasks == old(tasks) && started == old(started) && pending <= started
      ensures forall t :: t in started ==> t.done == old(t.done)
      ensures forall t :: t in pending <==> t in started && !t.done
      ensures forall t :: t in pending ==> t.cancelRequested
    {
      pending := set r | r in tasks && !tasks[r].done :: tasks[r];
      assert forall t :: t in started && !t.done ==> t.run in tasks && tasks[t.run] == t;
      var uncancelled := pending;
      while uncancelled != {}
        invariant uncancelled <= pending <= started
        invariant Valid() && tasks == old(tasks) && started == old(started)
        invariant forall t :: t in started ==> t.done == old(t.done)
        invariant forall t :: t in pending && t !in uncancelled ==> t.cancelRequested
        decreases |uncancelled|
      {
        var t :| t in uncancelled;
        t.RequestCancel();
        uncancelled := uncancelled - {t};
      }
    }

    /**
     The second half, whatever has been started since: the tasks collected then run to their ends,
     and no other task changes.
     */
    method AwaitAll(pending: set<WorkTask>)
      requires Valid() && pending <= started
      modifies pending
      ensures Valid() && tasks == old(tasks) && started == old(started)
      ensures forall t :: t in pending ==> t.done
      ensures forall t :: t in started && t !in pending ==> t.done == old(t.done)
    {
      var waiting := pending;
      while waiting != {}
        invariant waiting <= pending
        invariant Valid() && tasks == old(tasks) && started == old(started)
        invariant forall t :: t in pending && t !in waiting ==> t.done
        invariant forall t :: t in started && t !in pending ==> t.done == old(t.done)
        decreases |waiting|
      {
        var t :| t in waiting;
        t.RunToEnd();
        waiting := waiting - {t};
      }
    }

    /** With nothing started during the wait, no task is left running. */
    method Shutdown()
      requires Valid()
      modifies started
      ensures Valid() && tasks == old(tasks) && started == old(started)
      ensures forall t :: t in started ==> t.done
    {
      var pending := RequestShutdown();
      AwaitAll(pending);
    }

    /** The completion callback: forgets the run unless a newer task has taken its place. */
    method Discard(run: RunId, completed: WorkTask)
      requires Valid() && completed in started && completed.done
      modifies this
      ensures Valid() && started == old(started)
      ensures tasks == if run in old(tasks) && old(tasks)[run] == completed then old(tasks) - {run} else old(tasks)
    {
      if run in tasks && tasks[run] == completed {
        tasks := tasks - {run};
      }
    }
  }
}
