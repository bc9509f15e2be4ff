/**
 The run protocol under the in-process task manager: deliveries go through its `start`, which
 refuses a run that is still listed, and an entry is discarded only when its task is over.
 */
module InProcess {
  import opened Wrappers
  import opened RunModel
  import opened RunSafety

  /** `listed` is the manager's entry for the run, by the attempt that its task executes. */
  datatype Managed = Managed(run: State, listed: Option<AttemptId>)

  datatype Move = Start(attempt: AttemptId) | Discard | Other(step: Step)

  predicate CanMove(m: Managed, move: Move) {
    match move
    case Start(a) => m.listed.None? && Enabled(m.run, Deliver(a))
    case Discard => m.listed.Some? && !Live(m.run, m.listed.value)
    case Other(step) => !step.Deliver? && Enabled(m.run, step)
  }

  function Moved(m: Managed, move: Move): Managed
    requires CanMove(m, move)
  {
    match move
    case Start(a) => Managed(Next(m.run, Deliver(a)), Some(a))
    case Discard => m.(listed := None)
    case Other(step) => m.(run := Next(m.run, step))
  }

  predicate IsManagedRun(m: Managed, moves: seq<Move>)
    decreases |moves|
  {
    moves == [] || (CanMove(m, moves[0]) && IsManagedRun(Moved(m, moves[0]), moves[1..]))
  }

  /** The protocol steps of the moves. */
  function Steps(moves: seq<Move>): seq<Step> {
    if moves == [] then []
    else
      (match moves[0]
       case Start(a) => [Deliver(a)]
       case Discard => []
       case Other(step) => [step])
      + Steps(moves[1..])
  }

  /** Every attempt not over is the listed one. */
  ghost predicate OneLive(m: Managed) {
    forall a: AttemptId :: Live(m.run, a) ==> m.listed == Some(a)
  }

  lemma MoveKeepsOneLive(m: Managed, move: Move)
    requires OneLive(m) && CanMove(m, move)
    ensures OneLive(Moved(m, move))
  {
    var m' := Moved(m, move);
    forall a: AttemptId | Live(m'.run, a) ensures m'.listed == Some(a) {
      if move.Other? {
        OtherStartsNothing(m.run, move.step, a);
      } else if move.Discard? || a != move.attempt {
        assert Live(m.run, a);
      }
    }
  }

  /** Only a delivery makes an attempt live. */
  lemma OtherStartsNothing(s: State, step: Step, a: AttemptId)
    requires Enabled(s, step) && !step.Deliver? && Live(Next(s, step), a)
    ensures Live(s, a)
  {
    if step.Work? && step.attempt == a {
      assert CanAct(s.attempts[a], step.action);
    }
  }

  /** Deliveries made only through the manager never overlap. */
  lemma {:induction false} ManagedRunIsExclusive(m: Managed, moves: seq<Move>)
    requires OneLive(m) && IsManagedRun(m, moves)
    ensures ExclusiveRun(m.run, Steps(moves))
    decreases |moves|
  {
    if moves != [] {
      var rest := Steps(moves[1..]);
      MoveKeepsOneLive(m, moves[0]);
      ManagedRunIsExclusive(Moved(m, moves[0]), moves[1..]);
      match moves[0]
      case Start(a) =>
        assert Exclusive(m.run, Deliver(a)) by {
          forall b | b in m.run.attempts ensures m.run.attempts[b].Exited? { assert !Live(m.run, b); }
        }
        assert Steps(moves) == [Deliver(a)] + rest && ([Deliver(a)] + rest)[1..] == rest;
      case Discard =>
        assert Steps(moves) == rest;
      case Other(step) =>
        assert Steps(moves) == [step] + rest && ([step] + rest)[1..] == rest;
    }
  }

  /** So in-process scheduling keeps the counter equal to the stored results. */
  lemma ManagedCount(m: Managed, moves: seq<Move>)
    requires Created(m.run) && m.listed.None? && IsManagedRun(m, moves)
    ensures ExclusiveRun(m.run, Steps(moves))
    ensures var db := Final'(m.run, Steps(moves)).db; db.row.completed == |db.results|
  {
    ManagedRunIsExclusive(m, moves);
    ExclusiveCount(m.run, Steps(moves));
  }
}
