/**
 Shutdown of the log worker returns: a tear-down is never stuck, and every step but the start of a new Submit call
 brings it closer to the end.
 */
module LogShutdown {
  import opened LogWorker

  function Sum(xs: seq<nat>): nat {
    if xs == [] then 0 else xs[0] + Sum(xs[1..])
  }

  lemma {:induction false} SumUpdate(xs: seq<nat>, i: nat, x: nat)
    requires i < |xs|
    ensures Sum(xs[i := x]) == Sum(xs) - xs[i] + x
  {
    if i == 0 {
      assert xs[0 := x][1..] == xs[1..];
    } else {
      assert xs[i := x][1..] == xs[1..][i - 1 := x];
      SumUpdate(xs[1..], i - 1, x);
    }
  }

  /** Steps a Submit call may still cause: its own, and the four a worker spends on an entry it queues. */
  function SubmitRank(pc: SubmitPc): nat {
    match pc
    case Entered => 8
    case Admitted => 7
    case Counted => 6
    case Overflowed => 3
    case Refused => 2
    case Leaving(_) => 1
    case Idle => 0
  }

  function WorkerRank(pc: WorkerPc): nat {
    match pc
    case Writing(_) => 4
    case Settled => 3
    case Top => 2
    case Selecting => 1
    case Exited => 0
  }

  function FirstRank(pc: FirstPc): nat {
    match pc
    case NotCalled => 9
    case BeforeLock => 8
    case Locked => 7
    case Flagged => 6
    case Closed => 5
    case Unlocked => 4
    case Joining => 3
    case StoppingTimer => 2
    case Cancelling => 1
    case Returned => 0
  }

  function JoinerRank(pc: JoinerPc): nat {
    match pc
    case NotJoined => 3
    case AwaitingOnce => 2
    case AwaitingWorkers => 1
    case Rejoined => 0
  }

  function TimerRank(timer: Timer): nat {
    match timer
    case Off => 3
    case Armed => 2
    case ContextCancelled => 1
    case Fired => 0
    case Stopped => 0
  }

  function SubmitRanks(pcs: seq<SubmitPc>): seq<nat> { seq(|pcs|, i requires 0 <= i < |pcs| => SubmitRank(pcs[i])) }

  function WorkerRanks(pcs: seq<WorkerPc>): seq<nat> { seq(|pcs|, i requires 0 <= i < |pcs| => WorkerRank(pcs[i])) }

  function JoinerRanks(pcs: seq<JoinerPc>): seq<nat> { seq(|pcs|, i requires 0 <= i < |pcs| => JoinerRank(pcs[i])) }

  function Measure(s: State): nat {
    Sum(SubmitRanks(s.submitters)) + 4 * |s.sh.queue| + Sum(WorkerRanks(s.workers))
    + FirstRank(s.first) + Sum(JoinerRanks(s.joiners)) + TimerRank(s.timer)
  }

  /** The step with which a new Submit call begins. */
  predicate NewSubmit(s: State, step: Step) {
    step.SubmitStep? && step.i < |s.submitters| && s.submitters[step.i].Idle?
  }

  lemma SubmitMeasure(s: State, i: nat, entry: Entry)
    requires Inv(s) && Enabled(s, SubmitStep(i, entry))
    ensures s.submitters[i].Idle? ==> Measure(Submit(s, i, entry)) == Measure(s) + 8
    ensures !s.submitters[i].Idle? ==> Measure(Submit(s, i, entry)) < Measure(s)
  {
    assert s.submitters[i].Counted? ==> SubmitIs(s.submitters[i], Unsettled);
    var pc := Submit(s, i, entry).submitters[i];
    SumUpdate(SubmitRanks(s.submitters), i, SubmitRank(pc));
    assert SubmitRanks(s.submitters[i := pc]) == SubmitRanks(s.submitters)[i := SubmitRank(pc)];
  }

  lemma WorkMeasure(s: State, j: nat, takeQuit: bool, writeOk: bool)
    requires Enabled(s, WorkerStep(j, takeQuit, writeOk))
    ensures Measure(Work(s, j, takeQuit, writeOk)) < Measure(s)
  {
    var pc := Work(s, j, takeQuit, writeOk).workers[j];
    SumUpdate(WorkerRanks(s.workers), j, WorkerRank(pc));
    assert WorkerRanks(s.workers[j := pc]) == WorkerRanks(s.workers)[j := WorkerRank(pc)];
  }

  lemma JoinMeasure(s: State, k: nat)
    requires Enabled(s, JoinerStep(k))
    ensures Measure(Join(s, k)) < Measure(s)
  {
    var pc := Join(s, k).joiners[k];
    SumUpdate(JoinerRanks(s.joiners), k, JoinerRank(pc));
    assert JoinerRanks(s.joiners[k := pc]) == JoinerRanks(s.joiners)[k := JoinerRank(pc)];
  }

  /** Every step but the beginning of a new Submit call decreases the measure. */
  lemma StepMeasure(s: State, step: Step)
    requires Inv(s) && Enabled(s, step)
    ensures NewSubmit(s, step) ==> Measure(Apply(s, step)) == Measure(s) + 8
    ensures !NewSubmit(s, step) ==> Measure(Apply(s, step)) < Measure(s)
  {
    match step
    case SubmitStep(i, entry) => SubmitMeasure(s, i, entry);
    case WorkerStep(j, takeQuit, writeOk) => WorkMeasure(s, j, takeQuit, writeOk);
    case FirstStep =>
    case JoinerStep(k) => JoinMeasure(s, k);
    case TimerStep =>
  }

  /** How many Submit calls begin along a run. */
  ghost function NewSubmits(s: State, steps: seq<Step>): nat
    decreases |steps|
  {
    if steps == [] || !Enabled(s, steps[0]) then 0
    else (if NewSubmit(s, steps[0]) then 1 else 0) + NewSubmits(Apply(s, steps[0]), steps[1..])
  }

  lemma {:induction false} RunMeasure(s: State, steps: seq<Step>, t: State)
    requires Inv(s) && Reaches(s, steps, t)
    ensures |steps| + Measure(t) <= Measure(s) + 9 * NewSubmits(s, steps)
    decreases |steps|
  {
    if steps != [] {
      StepPreserves(s, steps[0]);
      StepMeasure(s, steps[0]);
      RunMeasure(Apply(s, steps[0]), steps[1..], t);
    }
  }

  /** The tear-down's own next step, or one of the goroutine it waits for: a Submit call under way, or a worker. */
  predicate Helps(s: State, step: Step) {
    match step
    case FirstStep => true
    case SubmitStep(i, _) => s.first.BeforeLock? && i < |s.submitters| && !s.submitters[i].Idle?
    case WorkerStep(_, _, _) => s.first.Joining?
    case JoinerStep(_) => false
    case TimerStep => false
  }

  lemma HelpIsAtHand(s: State)
    requires Inv(s) && !s.first.NotCalled? && !s.first.Returned?
    ensures exists step :: Enabled(s, step) && Helps(s, step)
  {
    if s.first.BeforeLock? && !AllIdle(s) {
      var i :| 0 <= i < |s.submitters| && !s.submitters[i].Idle?;
      assert Enabled(s, SubmitStep(i, 0)) && Helps(s, SubmitStep(i, 0));
    } else if s.first.Joining? && !AllExited(s) {
      var j :| 0 <= j < |s.workers| && !s.workers[j].Exited?;
      assert Enabled(s, WorkerStep(j, false, true)) && Helps(s, WorkerStep(j, false, true));
    } else {
      assert Enabled(s, FirstStep) && Helps(s, FirstStep);
    }
  }

  /**
   A tear-down that has begun and not returned is never stuck, and not because an unrelated goroutine could move:
   its own next step is enabled, or one of a Submit call or worker it is waiting for.
   */
  lemma ShutdownNeverStuck(workers: int, queueSize: int, submitters: nat, joiners: nat, steps: seq<Step>, t: State)
    requires Reaches(Start(workers, queueSize, submitters, joiners), steps, t)
    requires !t.first.NotCalled? && !t.first.Returned?
    ensures exists step :: Enabled(t, step) && Helps(t, step)
  {
    StartInv(workers, queueSize, submitters, joiners);
    RunPreserves(Start(workers, queueSize, submitters, joiners), steps, t);
    HelpIsAtHand(t);
  }

  /** Nothing can happen any more except that a new Submit call begins. */
  ghost predicate Settles(s: State) {
    forall step :: Enabled(s, step) ==> NewSubmit(s, step)
  }

  /**
   Shutdown returns, under every scheduling: a run of any length is bounded by the measure plus nine steps for each
   Submit call that begins in it, and one that has nothing left to do but begin another has every Shutdown call
   returned, the timer settled and every Submit call returned.
   */
  lemma ShutdownReturns(s: State, steps: seq<Step>, t: State)
    requires Inv(s) && !s.first.NotCalled? && Reaches(s, steps, t)
    ensures |steps| <= Measure(s) + 9 * NewSubmits(s, steps)
    ensures Settles(t) ==> t.first.Returned? && AllIdle(t) && !t.timer.Armed?
    ensures Settles(t) ==> forall k :: 0 <= k < |t.joiners| ==> t.joiners[k].Rejoined?
  {
    RunMeasure(s, steps, t);
    RunPreserves(s, steps, t);
    StaysCalled(s, steps, t);
    if Settles(t) {
      if !t.first.Returned? {
        HelpIsAtHand(t);
        assert false;
      }
      forall i | 0 <= i < |t.submitters| ensures t.submitters[i].Idle? {
        assert Enabled(t, SubmitStep(i, 0));
      }
      assert !Enabled(t, TimerStep);
      forall k | 0 <= k < |t.joiners| ensures t.joiners[k].Rejoined? {
        assert !Enabled(t, JoinerStep(k));
      }
    }
  }

  lemma {:induction false} StaysCalled(s: State, steps: seq<Step>, t: State)
    requires !s.first.NotCalled? && Reaches(s, steps, t)
    ensures !t.first.NotCalled?
    decreases |steps|
  {
    if steps != [] {
      StaysCalled(Apply(s, steps[0]), steps[1..], t);
    }
  }
}
