/**
 The asynchronous log worker as a small-step transition system: Submit callers under a read lock, N worker
 goroutines, one tear-down caller inside the once-guard, any number of re-joining callers, and the deadline timer.
 Every step below is one atomic action of one goroutine.
 */
module LogWorker {

  type Entry = nat

  datatype SubmitPc =
    | Idle                // outside Submit
    | Entered             // read lock held, stopped not yet read
    | Admitted            // stopped was false
    | Counted             // submitted incremented, before the non-blocking send
    | Overflowed          // the queue was full, before the roll-back
    | Refused             // before the dropped increment
    | Leaving(ok: bool)   // before the read unlock

  datatype WorkerPc = Top | Selecting | Writing(entry: Entry) | Settled | Exited

  /** The caller that runs the once-guarded body; `Locked`, `Flagged` and `Closed` hold the write lock. */
  datatype FirstPc =
    | NotCalled | BeforeLock | Locked | Flagged | Closed | Unlocked
    | Joining | StoppingTimer | Cancelling | Returned

  datatype JoinerPc = NotJoined | AwaitingOnce | AwaitingWorkers | Rejoined

  datatype Timer = Off | Armed | ContextCancelled | Fired | Stopped

  /** The channels and flags all goroutines share. */
  datatype Shared = Shared(
    capacity: nat, queue: seq<Entry>, queueClosed: bool, quitClosed: bool, stopped: bool, panicked: bool)

  /** The atomic counters, and how many Submit calls have returned true and false so far. */
  datatype Counters = Counters(
    submitted: int, written: nat, failed: nat, dropped: nat, returnedTrue: nat, returnedFalse: nat)

  datatype State = State(
    sh: Shared, n: Counters,
    submitters: seq<SubmitPc>, workers: seq<WorkerPc>, first: FirstPc, joiners: seq<JoinerPc>, timer: Timer)

  /** What one goroutine's step does to its program counter, the shared state and the counters. */
  datatype Effect<Pc> = Effect(pc: Pc, sh: Shared, n: Counters)

  datatype Step =
    | SubmitStep(i: nat, entry: Entry)
    | WorkerStep(j: nat, takeQuit: bool, writeOk: bool)
    | FirstStep
    | JoinerStep(k: nat)
    | TimerStep

  const DEFAULT_WORKERS := 4
  const DEFAULT_QUEUE_SIZE := 1024

  /** Non-positive sizes fall back to the defaults. */
  function Start(workers: int, queueSize: int, submitters: nat, joiners: nat): State {
    State(
      Shared(if queueSize <= 0 then DEFAULT_QUEUE_SIZE else queueSize, [], false, false, false, false),
      Counters(0, 0, 0, 0, 0, 0),
      seq(submitters, i => Idle),
      seq(if workers <= 0 then DEFAULT_WORKERS else workers, i => Top),
      NotCalled, seq(joiners, i => NotJoined), Off)
  }

  predicate WriteLocked(s: State) {
    s.first.Locked? || s.first.Flagged? || s.first.Closed?
  }

  predicate AllIdle(s: State) {
    forall i :: 0 <= i < |s.submitters| ==> s.submitters[i].Idle?
  }

  predicate AllExited(s: State) {
    forall j :: 0 <= j < |s.workers| ==> s.workers[j].Exited?
  }

  /** The once-guarded body has returned. */
  predicate OnceDone(s: State) {
    !(s.first.NotCalled? || s.first.BeforeLock? || WriteLocked(s))
  }

  predicate Enabled(s: State, step: Step) {
    match step
    case SubmitStep(i, _) => i < |s.submitters| && (s.submitters[i].Idle? ==> !WriteLocked(s))
    case WorkerStep(j, takeQuit, _) =>
      && j < |s.workers| && !s.workers[j].Exited?
      && (s.workers[j].Selecting? ==> if takeQuit then s.sh.quitClosed else s.sh.queue != [] || s.sh.queueClosed)
    case FirstStep =>
      && !s.first.Returned?
      && (s.first.BeforeLock? ==> AllIdle(s))
      && (s.first.Joining? ==> AllExited(s))
    case JoinerStep(k) =>
      && k < |s.joiners| && !s.joiners[k].Rejoined?
      && (s.joiners[k].NotJoined? ==> !s.first.NotCalled?)
      && (s.joiners[k].AwaitingOnce? ==> OnceDone(s))
      && (s.joiners[k].AwaitingWorkers? ==> AllExited(s))
    case TimerStep => s.timer.Armed? || s.timer.ContextCancelled?
  }

  function SubmitEffect(pc: SubmitPc, sh: Shared, n: Counters, entry: Entry): Effect<SubmitPc> {
    match pc
    case Idle => Effect(Entered, sh, n)
    case Entered => Effect(if sh.stopped then Refused else Admitted, sh, n)
    case Admitted => Effect(Counted, sh, n.(submitted := n.submitted + 1))
    case Counted =>
      if sh.queueClosed then Effect(pc, sh.(panicked := true), n)  // sending on a closed channel panics, also in select
      else if |sh.queue| < sh.capacity then Effect(Leaving(true), sh.(queue := sh.queue + [entry]), n)
      else Effect(Overflowed, sh, n)
    case Overflowed => Effect(Refused, sh, n.(submitted := n.submitted - 1))
    case Refused => Effect(Leaving(false), sh, n.(dropped := n.dropped + 1))
    case Leaving(ok) =>
      Effect(Idle, sh, if ok then n.(returnedTrue := n.returnedTrue + 1) else n.(returnedFalse := n.returnedFalse + 1))
  }

  function WorkEffect(pc: WorkerPc, sh: Shared, n: Counters, takeQuit: bool, writeOk: bool): Effect<WorkerPc> {
    match pc
    case Top => Effect(if sh.quitClosed then Exited else Selecting, sh, n)
    case Selecting =>
      if takeQuit || sh.queue == [] then Effect(Exited, sh, n)
      else Effect(Writing(sh.queue[0]), sh.(queue := sh.queue[1..]), n)
    case Writing(_) =>
      Effect(Settled, sh, if writeOk then n.(written := n.written + 1) else n.(failed := n.failed + 1))
    case Settled => Effect(Top, sh, n)
    case Exited => Effect(Exited, sh, n)
  }

  function Submit(s: State, i: nat, entry: Entry): State
    requires i < |s.submitters|
  {
    var e := SubmitEffect(s.submitters[i], s.sh, s.n, entry);
    State(e.sh, e.n, s.submitters[i := e.pc], s.workers, s.first, s.joiners, s.timer)
  }

  function Work(s: State, j: nat, takeQuit: bool, writeOk: bool): State
    requires j < |s.workers|
  {
    var e := WorkEffect(s.workers[j], s.sh, s.n, takeQuit, writeOk);
    State(e.sh, e.n, s.submitters, s.workers[j := e.pc], s.first, s.joiners, s.timer)
  }

  function TearDown(s: State): State {
    match s.first
    case NotCalled => s.(first := BeforeLock)
    case BeforeLock => s.(first := Locked)
    case Locked => s.(first := Flagged, sh := s.sh.(stopped := true))
    case Flagged =>
      if s.sh.queueClosed then s.(sh := s.sh.(panicked := true))
      else s.(first := Closed, sh := s.sh.(queueClosed := true))
    case Closed => s.(first := Unlocked)
    case Unlocked => s.(first := Joining, timer := Armed)
    case Joining => s.(first := StoppingTimer)
    case StoppingTimer => s.(first := Cancelling, timer := if s.timer.Armed? then Stopped else s.timer)
    case Cancelling => s.(first := Returned)
    case Returned => s
  }

  function Join(s: State, k: nat): State
    requires k < |s.joiners|
  {
    match s.joiners[k]
    case NotJoined => s.(joiners := s.joiners[k := AwaitingOnce])
    case AwaitingOnce => s.(joiners := s.joiners[k := AwaitingWorkers])
    case AwaitingWorkers => s.(joiners := s.joiners[k := Rejoined])
    case Rejoined => s
  }

  function Fire(s: State): State {
    if s.timer.Armed? then s.(timer := ContextCancelled)
    else if s.sh.quitClosed then s.(sh := s.sh.(panicked := true))
    else s.(timer := Fired, sh := s.sh.(quitClosed := true))
  }

  function Apply(s: State, step: Step): State
    requires Enabled(s, step)
  {
    match step
    case SubmitStep(i, entry) => Submit(s, i, entry)
    case WorkerStep(j, takeQuit, writeOk) => Work(s, j, takeQuit, writeOk)
    case FirstStep => TearDown(s)
    case JoinerStep(k) => Join(s, k)
    case TimerStep => Fire(s)
  }

  /** `t` is reached from `s` by some interleaving. */
  ghost predicate Reaches(s: State, steps: seq<Step>, t: State)
    decreases |steps|
  {
    if steps == [] then s == t
    else Enabled(s, steps[0]) && Reaches(Apply(s, steps[0]), steps[1..], t)
  }

  // ----- counting goroutines by program counter

  datatype Tag = Unsettled | Accepted | Refusing

  /** `Unsettled`: counted but neither sent nor rolled back. `Accepted`, `Refusing`: about to return true, false. */
  predicate SubmitIs(pc: SubmitPc, tag: Tag) {
    match tag
    case Unsettled => pc.Counted? || pc.Overflowed?
    case Accepted => pc == Leaving(true)
    case Refusing => pc == Leaving(false)
  }

  function Submits(pcs: seq<SubmitPc>, tag: Tag): nat {
    if pcs == [] then 0 else (if SubmitIs(pcs[0], tag) then 1 else 0) + Submits(pcs[1..], tag)
  }

  function Writes(pcs: seq<WorkerPc>): nat {
    if pcs == [] then 0 else (if pcs[0].Writing? then 1 else 0) + Writes(pcs[1..])
  }

  lemma {:induction false} SubmitsUpdate(pcs: seq<SubmitPc>, i: nat, pc: SubmitPc, tag: Tag)
    requires i < |pcs|
    ensures Submits(pcs[i := pc], tag)
         == Submits(pcs, tag) - (if SubmitIs(pcs[i], tag) then 1 else 0) + (if SubmitIs(pc, tag) then 1 else 0)
  {
    if i == 0 {
      assert pcs[0 := pc][1..] == pcs[1..];
    } else {
      assert pcs[i := pc][1..] == pcs[1..][i - 1 := pc];
      SubmitsUpdate(pcs[1..], i - 1, pc, tag);
    }
  }

  lemma {:induction false} SubmitsNone(pcs: seq<SubmitPc>, tag: Tag)
    requires forall i :: 0 <= i < |pcs| ==> !SubmitIs(pcs[i], tag)
    ensures Submits(pcs, tag) == 0
  {
    if pcs != [] {
      SubmitsNone(pcs[1..], tag);
    }
  }

  lemma {:induction false} WritesUpdate(pcs: seq<WorkerPc>, j: nat, pc: WorkerPc)
    requires j < |pcs|
    ensures Writes(pcs[j := pc]) == Writes(pcs) - (if pcs[j].Writing? then 1 else 0) + (if pc.Writing? then 1 else 0)
  {
    if j == 0 {
      assert pcs[0 := pc][1..] == pcs[1..];
    } else {
      assert pcs[j := pc][1..] == pcs[1..][j - 1 := pc];
      WritesUpdate(pcs[1..], j - 1, pc);
    }
  }

  lemma {:induction false} WritesNone(pcs: seq<WorkerPc>)
    requires forall j :: 0 <= j < |pcs| ==> !pcs[j].Writing?
    ensures Writes(pcs) == 0
  {
    if pcs != [] {
      WritesNone(pcs[1..]);
    }
  }

  // ----- the invariant

  /** Every counted entry is queued, being written, written, failed, or about to be settled by its caller. */
  ghost predicate Conserved(s: State) {
    && s.n.submitted == |s.sh.queue| + Writes(s.workers) + s.n.written + s.n.failed + Submits(s.submitters, Unsettled)
    && s.n.submitted == s.n.returnedTrue + Submits(s.submitters, Accepted) + Submits(s.submitters, Unsettled)
    && s.n.dropped == s.n.returnedFalse + Submits(s.submitters, Refusing)
    && |s.sh.queue| <= s.sh.capacity
  }

  /** What the read-write lock, the once-guard and the timer protect. */
  ghost predicate Guarded(s: State) {
    && !s.sh.panicked
    && (WriteLocked(s) ==> AllIdle(s))
    && (s.sh.stopped <==> s.first.Flagged? || s.first.Closed? || OnceDone(s))
    && (s.sh.queueClosed <==> s.first.Closed? || OnceDone(s))
    && (s.sh.stopped ==> forall i :: 0 <= i < |s.submitters| ==>
          !s.submitters[i].Admitted? && !SubmitIs(s.submitters[i], Unsettled) && s.submitters[i] != Leaving(true))
    && (s.sh.quitClosed <==> s.timer.Fired?)
    && (!s.timer.Off? ==> OnceDone(s) && !s.first.Unlocked?)
  }

  /** When workers may have exited, and who may have seen them all exit. */
  ghost predicate Joined(s: State) {
    && |s.workers| > 0
    && (forall j :: 0 <= j < |s.workers| && s.workers[j].Exited? ==>
          s.sh.quitClosed || (s.sh.queueClosed && s.sh.queue == []))
    && (s.first.StoppingTimer? || s.first.Cancelling? || s.first.Returned? ==> AllExited(s))
    && (forall k :: 0 <= k < |s.joiners| && s.joiners[k].Rejoined? ==> AllExited(s))
    && (forall k :: 0 <= k < |s.joiners| && !s.joiners[k].NotJoined? && !s.joiners[k].AwaitingOnce? ==> OnceDone(s))
  }

  ghost predicate Inv(s: State) {
    Conserved(s) && Guarded(s) && Joined(s)
  }

  lemma StartInv(workers: int, queueSize: int, submitters: nat, joiners: nat)
    ensures Inv(Start(workers, queueSize, submitters, joiners))
  {
    var s := Start(workers, queueSize, submitters, joiners);
    WritesNone(s.workers);
    SubmitsNone(s.submitters, Unsettled);
    SubmitsNone(s.submitters, Accepted);
    SubmitsNone(s.submitters, Refusing);
  }

  lemma SubmitConserves(s: State, i: nat, entry: Entry)
    requires i < |s.submitters| && Conserved(s) && !(s.submitters[i].Counted? && s.sh.queueClosed)
    ensures Conserved(Submit(s, i, entry))
  {
    var pc := Submit(s, i, entry).submitters[i];
    SubmitsUpdate(s.submitters, i, pc, Unsettled);
    SubmitsUpdate(s.submitters, i, pc, Accepted);
    SubmitsUpdate(s.submitters, i, pc, Refusing);
  }

  lemma SubmitKeepsGuard(s: State, i: nat, entry: Entry)
    requires Guarded(s) && Enabled(s, SubmitStep(i, entry))
    ensures Guarded(Submit(s, i, entry))
  {
  }

  lemma SubmitPreserves(s: State, i: nat, entry: Entry)
    requires Inv(s) && Enabled(s, SubmitStep(i, entry))
    ensures Inv(Submit(s, i, entry))
  {
    assert s.submitters[i].Counted? ==> SubmitIs(s.submitters[i], Unsettled);
    SubmitConserves(s, i, entry);
    SubmitKeepsGuard(s, i, entry);
    assert Joined(Submit(s, i, entry));
  }

  lemma WorkConserves(s: State, j: nat, takeQuit: bool, writeOk: bool)
    requires j < |s.workers| && Conserved(s)
    ensures Conserved(Work(s, j, takeQuit, writeOk))
  {
    WritesUpdate(s.workers, j, Work(s, j, takeQuit, writeOk).workers[j]);
  }

  lemma WorkKeepsJoins(s: State, j: nat, takeQuit: bool, writeOk: bool)
    requires Joined(s) && Enabled(s, WorkerStep(j, takeQuit, writeOk))
    ensures Joined(Work(s, j, takeQuit, writeOk))
  {
  }

  lemma WorkPreserves(s: State, j: nat, takeQuit: bool, writeOk: bool)
    requires Inv(s) && Enabled(s, WorkerStep(j, takeQuit, writeOk))
    ensures Inv(Work(s, j, takeQuit, writeOk))
  {
    WorkConserves(s, j, takeQuit, writeOk);
    WorkKeepsJoins(s, j, takeQuit, writeOk);
    assert Guarded(Work(s, j, takeQuit, writeOk));
  }

  lemma TearDownPreserves(s: State)
    requires Inv(s) && Enabled(s, FirstStep)
    ensures Inv(TearDown(s))
  {
  }

  lemma JoinPreserves(s: State, k: nat)
    requires Inv(s) && Enabled(s, JoinerStep(k))
    ensures Inv(Join(s, k))
  {
  }

  lemma FirePreserves(s: State)
    requires Inv(s) && Enabled(s, TimerStep)
    ensures Inv(Fire(s))
  {
  }

  lemma StepPreserves(s: State, step: Step)
    requires Inv(s) && Enabled(s, step)
    ensures Inv(Apply(s, step))
  {
    match step
    case SubmitStep(i, entry) => SubmitPreserves(s, i, entry);
    case WorkerStep(j, takeQuit, writeOk) => WorkPreserves(s, j, takeQuit, writeOk);
    case FirstStep => TearDownPreserves(s);
    case JoinerStep(k) => JoinPreserves(s, k);
    case TimerStep => FirePreserves(s);
  }

  lemma {:induction false} RunPreserves(s: State, steps: seq<Step>, t: State)
    requires Inv(s) && Reaches(s, steps, t)
    ensures Inv(t)
    decreases |steps|
  {
    if steps != [] {
      StepPreserves(s, steps[0]);
      RunPreserves(Apply(s, steps[0]), steps[1..], t);
    }
  }

  // ----- what every interleaving guarantees

  /**
   Counter accounting in every reachable state, whatever the interleaving: each counted entry is in one place,
   and each finished Submit call is counted once, as submitted when it returned true and as dropped otherwise.
   */
  lemma CountersAccount(workers: int, queueSize: int, submitters: nat, joiners: nat, steps: seq<Step>, t: State)
    requires Reaches(Start(workers, queueSize, submitters, joiners), steps, t)
    ensures t.n.submitted ==
              |t.sh.queue| + Writes(t.workers) + t.n.written + t.n.failed + Submits(t.submitters, Unsettled)
    ensures t.n.submitted == t.n.returnedTrue + Submits(t.submitters, Accepted) + Submits(t.submitters, Unsettled)
    ensures t.n.dropped == t.n.returnedFalse + Submits(t.submitters, Refusing)
    ensures 0 <= t.n.written + t.n.failed <= t.n.submitted
    ensures AllIdle(t) ==> t.n.returnedTrue == t.n.submitted && t.n.returnedFalse == t.n.dropped
  {
    StartInv(workers, queueSize, submitters, joiners);
    RunPreserves(Start(workers, queueSize, submitters, joiners), steps, t);
    if AllIdle(t) {
      SubmitsNone(t.submitters, Unsettled);
      SubmitsNone(t.submitters, Accepted);
      SubmitsNone(t.submitters, Refusing);
    }
  }

  /** No interleaving sends on the closed queue or closes a channel twice. */
  lemma NeverPanics(workers: int, queueSize: int, submitters: nat, joiners: nat, steps: seq<Step>, t: State)
    requires Reaches(Start(workers, queueSize, submitters, joiners), steps, t)
    ensures !t.sh.panicked
  {
    StartInv(workers, queueSize, submitters, joiners);
    RunPreserves(Start(workers, queueSize, submitters, joiners), steps, t);
  }

  predicate ShutdownReturned(s: State) {
    s.first.Returned? || exists k :: 0 <= k < |s.joiners| && s.joiners[k].Rejoined?
  }

  /**
   Once any Shutdown call has returned, all workers have exited. Without a hard stop the queue is drained and
   every submitted entry was written or failed; with one, exactly the entries still queued are lost.
   */
  lemma ShutdownDrains(workers: int, queueSize: int, submitters: nat, joiners: nat, steps: seq<Step>, t: State)
    requires Reaches(Start(workers, queueSize, submitters, joiners), steps, t)
    requires ShutdownReturned(t)
    ensures AllExited(t)
    ensures t.n.submitted == t.n.written + t.n.failed + |t.sh.queue|
    ensures !t.sh.quitClosed ==> t.sh.queue == [] && t.n.submitted == t.n.written + t.n.failed
  {
    StartInv(workers, queueSize, submitters, joiners);
    RunPreserves(Start(workers, queueSize, submitters, joiners), steps, t);
    WritesNone(t.workers);
    SubmitsNone(t.submitters, Unsettled);
    assert t.workers[0].Exited?;
  }

  /** After Shutdown has returned no continuation writes to the store, and later submits are all refused. */
  lemma {:induction false} NothingAfterShutdown(s: State, steps: seq<Step>, t: State)
    requires Inv(s) && ShutdownReturned(s) && Reaches(s, steps, t)
    ensures t.n.written == s.n.written && t.n.failed == s.n.failed
            && t.n.submitted == s.n.submitted && t.sh.queue == s.sh.queue
    decreases |steps|
  {
    if steps != [] {
      var m := Apply(s, steps[0]);
      StepPreserves(s, steps[0]);
      assert !steps[0].WorkerStep?;
      if !s.first.Returned? {
        var k :| 0 <= k < |s.joiners| && s.joiners[k].Rejoined?;
        assert m.joiners[k].Rejoined?;
      }
      NothingAfterShutdown(m, steps[1..], t);
    }
  }
}
