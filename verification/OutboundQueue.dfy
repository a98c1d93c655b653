/**
 The outbound queue of the bidirectional transport: a buffer, at most one attached subscriber channel that a
 later subscriber steals, and a cancel that drains unread messages back to the head of the buffer.
 */
module OutboundQueue {
  import opened Wrappers

  /** Messages are compared by identity. */
  type Msg = nat

  datatype Chan = Chan(buf: seq<Msg>, cap: nat, closed: bool)

  /** The lock-protected state. Channels are named by their position and never removed. */
  datatype Queue = Queue(outbound: seq<Msg>, sub: Option<nat>, chans: seq<Chan>) {
    ghost predicate Valid() {
      && (sub.Some? ==> sub.value < |chans|)
      && (forall c :: 0 <= c < |chans| ==> |chans[c].buf| <= chans[c].cap && chans[c].cap > 0)
    }

    /** Exactly the attached channel is open. */
    ghost predicate OpenIsSub() {
      forall c :: 0 <= c < |chans| ==> (!chans[c].closed <==> sub == Some(c))
    }
  }

  const DEFAULT_BUFFER := 16

  function Min(a: int, b: int): int { if a < b then a else b }

  function Room(q: Queue): bool
    requires q.Valid()
  {
    q.sub.Some? && |q.chans[q.sub.value].buf| < q.chans[q.sub.value].cap
  }

  /** Deliver to the attached channel when it has room, otherwise buffer. */
  function Enqueue(q: Queue, m: Msg): Queue
    requires q.Valid()
  {
    if Room(q)
    then q.(chans := q.chans[q.sub.value := q.chans[q.sub.value].(buf := q.chans[q.sub.value].buf + [m])])
    else q.(outbound := q.outbound + [m])
  }

  function Close(chans: seq<Chan>, c: nat): seq<Chan>
    requires c < |chans|
  {
    chans[c := chans[c].(closed := true)]
  }

  function Capacity(buffer: int): nat { if buffer <= 0 then DEFAULT_BUFFER else buffer }

  /** Close any previous channel, attach a new one and replay as much of the buffer as fits. */
  function Subscribe(q: Queue, buffer: int): Queue
    requires q.Valid()
  {
    var n := Min(|q.outbound|, Capacity(buffer));
    var prior := if q.sub.Some? then Close(q.chans, q.sub.value) else q.chans;
    Queue(q.outbound[n..], Some(|q.chans|), prior + [Chan(q.outbound[..n], Capacity(buffer), false)])
  }

  function PopChan(chans: seq<Chan>, c: nat): seq<Chan>
    requires c < |chans| && chans[c].buf != []
  {
    chans[c := chans[c].(buf := chans[c].buf[1..])]
  }

  /** A cancel that nobody interrupts: unread messages go back to the head of the buffer. */
  function Cancel(q: Queue, c: nat): Queue
    requires q.Valid() && c < |q.chans|
  {
    if q.sub == Some(c)
    then Queue(q.chans[c].buf + q.outbound, None, q.chans[c := Chan([], q.chans[c].cap, true)])
    else q
  }

  /** The lock-protected object. */
  class Bidirectional {
    var outbound: seq<Msg>
    var sub: Option<nat>
    var chans: seq<Chan>

    ghost function View(): Queue
      reads this
    {
      Queue(outbound, sub, chans)
    }

    constructor ()
      ensures View() == Start().q
    {
      outbound, sub, chans := [], None, [];
    }

    method Send(m: Msg)
      requires View().Valid()
      modifies this
      ensures View().Valid() && View() == Enqueue(old(View()), m)
    {
      if sub.Some? {
        var ch := chans[sub.value];
        if |ch.buf| < ch.cap {
          chans := chans[sub.value := ch.(buf := ch.buf + [m])];
          return;
        }
      }
      outbound := outbound + [m];
    }

    method Attach(buffer: int) returns (c: nat)
      requires View().Valid()
      modifies this
      ensures View().Valid() && View() == Subscribe(old(View()), buffer) && sub == Some(c)
    {
      var size := if buffer <= 0 then DEFAULT_BUFFER else buffer;
      if sub.Some? {
        chans := chans[sub.value := chans[sub.value].(closed := true)];
      }
      c := |chans|;
      sub := Some(c);
      var buf: seq<Msg> := [];
      var drained := 0;
      while drained < |outbound| && |buf| < size
        invariant 0 <= drained <= |outbound| && drained <= size
        invariant buf == outbound[..drained]
      {
        buf := buf + [outbound[drained]];
        drained := drained + 1;
      }
      outbound := outbound[drained..];
      chans := chans + [Chan(buf, size, false)];
    }

    method Detach(c: nat)
      requires View().Valid() && c < |chans|
      modifies this
      ensures View().Valid() && View() == Cancel(old(View()), c)
    {
      if sub != Some(c) {
        return;
      }
      chans := chans[c := chans[c].(closed := true)];
      var residual: seq<Msg> := [];
      while chans[c].buf != []
        invariant |chans| == |old(chans)| && sub == old(sub) && outbound == old(outbound)
        invariant chans == old(chans)[c := Chan(chans[c].buf, old(chans)[c].cap, true)]
        invariant residual + chans[c].buf == old(chans)[c].buf
        decreases |chans[c].buf|
      {
        residual := residual + [chans[c].buf[0]];
        chans := chans[c := chans[c].(buf := chans[c].buf[1..])];
      }
      outbound := residual + outbound;
      sub := None;
    }
  }

  // ----- every interleaving

  /** A cancel in progress holds the lock; it has moved `residual` out of channel `chan` so far. */
  datatype Drain = NoDrain | Draining(chan: nat, residual: seq<Msg>)

  datatype State = State(q: Queue, drain: Drain, enqueued: seq<Msg>, received: seq<Msg>, panicked: bool)

  datatype Step =
    | EnqueueStep(m: Msg)
    | SubscribeStep(buffer: int)
    | CancelStep(chan: nat)
    | DrainStep
    | PushBackStep
    | ReceiveStep(chan: nat)

  function Start(): State { State(Queue([], None, []), NoDrain, [], [], false) }

  function Residual(s: State): seq<Msg> { if s.drain.NoDrain? then [] else s.drain.residual }

  /** Receives need no lock, so they may fall between the steps of a cancel; everything else waits for it. */
  predicate Enabled(s: State, step: Step) {
    match step
    case EnqueueStep(_) => s.drain.NoDrain?
    case SubscribeStep(_) => s.drain.NoDrain?
    case CancelStep(c) => s.drain.NoDrain? && c < |s.q.chans|
    case DrainStep => s.drain.Draining? && s.drain.chan < |s.q.chans| && s.q.chans[s.drain.chan].buf != []
    case PushBackStep => s.drain.Draining? && s.drain.chan < |s.q.chans| && s.q.chans[s.drain.chan].buf == []
    case ReceiveStep(c) => c < |s.q.chans| && s.q.chans[c].buf != []
  }

  function Apply(s: State, step: Step): State
    requires s.q.Valid() && Enabled(s, step)
  {
    match step
    case EnqueueStep(m) =>
      s.(q := Enqueue(s.q, m), enqueued := s.enqueued + [m],
         panicked := s.panicked || (s.q.sub.Some? && s.q.chans[s.q.sub.value].closed))
    case SubscribeStep(buffer) =>
      s.(q := Subscribe(s.q, buffer), panicked := s.panicked || (s.q.sub.Some? && s.q.chans[s.q.sub.value].closed))
    case CancelStep(c) =>
      if s.q.sub == Some(c)
      then s.(q := s.q.(chans := Close(s.q.chans, c)), drain := Draining(c, []),
              panicked := s.panicked || s.q.chans[c].closed)
      else s
    case DrainStep =>
      var c := s.drain.chan;
      s.(q := s.q.(chans := PopChan(s.q.chans, c)), drain := Draining(c, s.drain.residual + [s.q.chans[c].buf[0]]))
    case PushBackStep =>
      s.(q := s.q.(outbound := s.drain.residual + s.q.outbound, sub := None), drain := NoDrain)
    case ReceiveStep(c) =>
      s.(q := s.q.(chans := PopChan(s.q.chans, c)), received := s.received + [s.q.chans[c].buf[0]])
  }

  function Occurs(xs: seq<Msg>, m: Msg): nat { multiset(xs)[m] }

  /** How often `m` sits in some channel, the attached one or a stolen one left to its reader. */
  function InChannels(chans: seq<Chan>, m: Msg): nat {
    if chans == [] then 0 else Occurs(chans[0].buf, m) + InChannels(chans[1..], m)
  }

  /** How often `m` is anywhere: buffered, being pushed back, in a channel, or received. */
  function Places(s: State, m: Msg): nat {
    Occurs(s.q.outbound, m) + Occurs(Residual(s), m) + InChannels(s.q.chans, m) + Occurs(s.received, m)
  }

  /** Every message is in as many places as it was enqueued times: none lost, none duplicated. */
  ghost predicate Conserved(s: State) {
    forall m :: Places(s, m) == Occurs(s.enqueued, m)
  }

  /** No channel was misused: only the attached channel is open, and none while a cancel drains. */
  ghost predicate Channels(s: State) {
    && !s.panicked
    && (s.drain.NoDrain? ==> s.q.OpenIsSub())
    && (s.drain.Draining? ==> s.q.sub == Some(s.drain.chan) && forall c :: 0 <= c < |s.q.chans| ==> s.q.chans[c].closed)
  }

  ghost predicate Inv(s: State) {
    s.q.Valid() && Conserved(s) && Channels(s)
  }

  lemma OccursConcat(xs: seq<Msg>, ys: seq<Msg>, m: Msg)
    ensures Occurs(xs + ys, m) == Occurs(xs, m) + Occurs(ys, m)
  {
  }

  lemma {:induction false} InChannelsUpdate(chans: seq<Chan>, c: nat, ch: Chan, m: Msg)
    requires c < |chans|
    ensures InChannels(chans[c := ch], m) == InChannels(chans, m) - Occurs(chans[c].buf, m) + Occurs(ch.buf, m)
  {
    if c == 0 {
      assert chans[0 := ch][1..] == chans[1..];
    } else {
      assert chans[c := ch][1..] == chans[1..][c - 1 := ch];
      InChannelsUpdate(chans[1..], c - 1, ch, m);
    }
  }

  lemma {:induction false} InChannelsAppend(chans: seq<Chan>, ch: Chan, m: Msg)
    ensures InChannels(chans + [ch], m) == InChannels(chans, m) + Occurs(ch.buf, m)
  {
    if chans == [] {
      assert ([ch])[1..] == [];
    } else {
      assert (chans + [ch])[1..] == chans[1..] + [ch];
      InChannelsAppend(chans[1..], ch, m);
    }
  }

  lemma PopConserves(chans: seq<Chan>, c: nat, m: Msg)
    requires c < |chans| && chans[c].buf != []
    ensures InChannels(PopChan(chans, c), m) + Occurs([chans[c].buf[0]], m) == InChannels(chans, m)
  {
    var buf := chans[c].buf;
    InChannelsUpdate(chans, c, chans[c].(buf := buf[1..]), m);
    OccursConcat([buf[0]], buf[1..], m);
    assert buf == [buf[0]] + buf[1..];
  }

  lemma EnqueueConserves(q: Queue, x: Msg, m: Msg)
    requires q.Valid()
    ensures Occurs(Enqueue(q, x).outbound, m) + InChannels(Enqueue(q, x).chans, m)
         == Occurs(q.outbound, m) + InChannels(q.chans, m) + Occurs([x], m)
  {
    if Room(q) {
      var ch := q.chans[q.sub.value];
      InChannelsUpdate(q.chans, q.sub.value, ch.(buf := ch.buf + [x]), m);
      OccursConcat(ch.buf, [x], m);
    } else {
      OccursConcat(q.outbound, [x], m);
    }
  }

  lemma SubscribeConserves(q: Queue, buffer: int, m: Msg)
    requires q.Valid()
    ensures Occurs(Subscribe(q, buffer).outbound, m) + InChannels(Subscribe(q, buffer).chans, m)
         == Occurs(q.outbound, m) + InChannels(q.chans, m)
  {
    var n := Min(|q.outbound|, Capacity(buffer));
    assert q.outbound == q.outbound[..n] + q.outbound[n..];
    OccursConcat(q.outbound[..n], q.outbound[n..], m);
    if q.sub.Some? {
      InChannelsUpdate(q.chans, q.sub.value, q.chans[q.sub.value].(closed := true), m);
    }
    var prior := if q.sub.Some? then Close(q.chans, q.sub.value) else q.chans;
    InChannelsAppend(prior, Chan(q.outbound[..n], Capacity(buffer), false), m);
  }

  lemma StepPlaces(s: State, step: Step, m: Msg)
    requires s.q.Valid() && Enabled(s, step)
    ensures var t := Apply(s, step);
            Places(t, m) - Occurs(t.enqueued, m) == Places(s, m) - Occurs(s.enqueued, m)
  {
    match step
    case EnqueueStep(x) => EnqueueConserves(s.q, x, m); OccursConcat(s.enqueued, [x], m);
    case SubscribeStep(buffer) => SubscribeConserves(s.q, buffer, m);
    case CancelStep(c) => InChannelsUpdate(s.q.chans, c, s.q.chans[c].(closed := true), m);
    case DrainStep =>
      PopConserves(s.q.chans, s.drain.chan, m);
      OccursConcat(s.drain.residual, [s.q.chans[s.drain.chan].buf[0]], m);
    case PushBackStep => OccursConcat(s.drain.residual, s.q.outbound, m);
    case ReceiveStep(c) =>
      PopConserves(s.q.chans, c, m);
      OccursConcat(s.received, [s.q.chans[c].buf[0]], m);
  }

  lemma StepChannels(s: State, step: Step)
    requires s.q.Valid() && Channels(s) && Enabled(s, step)
    ensures Apply(s, step).q.Valid() && Channels(Apply(s, step))
  {
  }

  lemma StepPreserves(s: State, step: Step)
    requires Inv(s) && Enabled(s, step)
    ensures Inv(Apply(s, step))
  {
    StepChannels(s, step);
    forall m ensures Places(Apply(s, step), m) == Occurs(Apply(s, step).enqueued, m) {
      StepPlaces(s, step, m);
    }
  }

  ghost predicate Reaches(s: State, steps: seq<Step>, t: State)
    requires s.q.Valid()
    decreases |steps|
  {
    if steps == [] then s == t
    else Enabled(s, steps[0]) && Apply(s, steps[0]).q.Valid() && Reaches(Apply(s, steps[0]), steps[1..], t)
  }

  lemma {:induction false} RunPreserves(s: State, steps: seq<Step>, t: State)
    requires Inv(s) && Reaches(s, steps, t)
    ensures Inv(t)
    decreases |steps|
  {
    if steps != [] {
      StepPreserves(s, steps[0]);
      RunPreserves(Apply(s, steps[0]), steps[1..], t);
    }
  }

  /** Over every interleaving no message is lost or duplicated, and no channel is misused. */
  lemma NothingLost(steps: seq<Step>, t: State)
    requires Reaches(Start(), steps, t)
    ensures Conserved(t) && !t.panicked
  {
    RunPreserves(Start(), steps, t);
  }

  /** A channel that a later subscriber has stolen. */
  predicate Stolen(s: State, c: nat) {
    && c < |s.q.chans| && s.q.sub != Some(c)
    && (s.drain.Draining? ==> s.drain.chan != c)
  }

  /** What is left in a stolen channel can only be read by its own reader: its cancel no longer pushes it back. */
  lemma {:induction false} StolenStaysWithItsReader(s: State, steps: seq<Step>, t: State, c: nat)
    requires Inv(s) && Stolen(s, c) && Reaches(s, steps, t) && ReceiveStep(c) !in steps
    ensures Stolen(t, c) && t.q.chans[c].buf == s.q.chans[c].buf
    decreases |steps|
  {
    if steps != [] {
      StepPreserves(s, steps[0]);
      assert steps[0] in steps;
      StolenStepUnchanged(s, steps[0], c);
      StolenStaysWithItsReader(Apply(s, steps[0]), steps[1..], t, c);
    }
  }

  lemma StolenStepUnchanged(s: State, step: Step, c: nat)
    requires Inv(s) && Stolen(s, c) && Enabled(s, step) && step != ReceiveStep(c)
    ensures Stolen(Apply(s, step), c) && Apply(s, step).q.chans[c].buf == s.q.chans[c].buf
  {
  }

  // ----- delivery order

  function ActiveBuf(q: Queue): seq<Msg>
    requires q.Valid()
  {
    if q.sub.Some? then q.chans[q.sub.value].buf else []
  }

  /** Everything in the order it would be delivered to one reader at a time. */
  function Line(s: State): seq<Msg>
    requires s.q.Valid()
  {
    s.received + Residual(s) + ActiveBuf(s.q) + s.q.outbound
  }

  ghost predicate InOrder(s: State)
    requires s.q.Valid()
  {
    s.enqueued == Line(s)
  }

  ghost predicate Distinct(xs: seq<Msg>) {
    forall i, j :: 0 <= i < j < |xs| ==> xs[i] != xs[j]
  }

  /**
   The steps that let a later message overtake an earlier one: a direct delivery past a non-empty buffer, a
   steal that strands unread messages, and a receive while a cancel is pushing earlier messages back.
   */
  predicate Overtakes(s: State, step: Step)
    requires s.q.Valid()
  {
    match step
    case EnqueueStep(_) => Room(s.q) && s.q.outbound != []
    case SubscribeStep(_) => ActiveBuf(s.q) != []
    case ReceiveStep(_) => Residual(s) != []
    case _ => false
  }

  lemma {:induction false} InChannelsAtLeast(chans: seq<Chan>, c: nat, m: Msg)
    requires c < |chans|
    ensures Occurs(chans[c].buf, m) <= InChannels(chans, m)
  {
    if c > 0 {
      InChannelsAtLeast(chans[1..], c - 1, m);
    }
  }

  lemma {:induction false} InChannelsTwo(chans: seq<Chan>, c: nat, d: nat, m: Msg)
    requires c < d < |chans|
    ensures Occurs(chans[c].buf, m) + Occurs(chans[d].buf, m) <= InChannels(chans, m)
  {
    if c == 0 {
      InChannelsAtLeast(chans[1..], d - 1, m);
    } else {
      InChannelsTwo(chans[1..], c - 1, d - 1, m);
    }
  }

  lemma OccursLine(s: State, m: Msg)
    requires s.q.Valid()
    ensures Occurs(Line(s), m) == Occurs(s.received, m) + Occurs(Residual(s), m)
              + Occurs(ActiveBuf(s.q), m) + Occurs(s.q.outbound, m)
  {
    OccursConcat(s.received + Residual(s) + ActiveBuf(s.q), s.q.outbound, m);
    OccursConcat(s.received + Residual(s), ActiveBuf(s.q), m);
    OccursConcat(s.received, Residual(s), m);
  }

  /** While order holds, only the attached channel can hold unread messages. */
  lemma InOrderHasNoStrays(s: State, c: nat)
    requires Inv(s) && InOrder(s) && c < |s.q.chans| && s.q.chans[c].buf != []
    ensures s.q.sub == Some(c)
  {
    if s.q.sub != Some(c) {
      var m := s.q.chans[c].buf[0];
      OccursLine(s, m);
      assert Places(s, m) == Occurs(s.enqueued, m);
      InChannelsAtLeast(s.q.chans, c, m);
      if s.q.sub.Some? {
        if c < s.q.sub.value {
          InChannelsTwo(s.q.chans, c, s.q.sub.value, m);
        } else {
          InChannelsTwo(s.q.chans, s.q.sub.value, c, m);
        }
      }
      assert false;
    }
  }

  lemma EnqueueOrder(s: State, m: Msg)
    requires Inv(s) && InOrder(s) && Enabled(s, EnqueueStep(m)) && m !in s.enqueued
    ensures InOrder(Apply(s, EnqueueStep(m))) <==> !Overtakes(s, EnqueueStep(m))
  {
    var t := Apply(s, EnqueueStep(m));
    var before := s.received + Residual(s) + ActiveBuf(s.q);
    if Room(s.q) {
      assert Line(t) == before + [m] + s.q.outbound;
      if s.q.outbound != [] {
        assert Line(t)[|before|] == m && t.enqueued[|before|] == s.q.outbound[0];
        assert Line(s)[|before|] == s.q.outbound[0];
      }
    } else {
      assert Line(t) == before + s.q.outbound + [m];
    }
  }

  lemma SubscribeOrder(s: State, buffer: int)
    requires Inv(s) && InOrder(s) && Enabled(s, SubscribeStep(buffer))
    ensures InOrder(Apply(s, SubscribeStep(buffer))) <==> !Overtakes(s, SubscribeStep(buffer))
  {
    var t := Apply(s, SubscribeStep(buffer));
    assert ActiveBuf(t.q) + t.q.outbound == s.q.outbound;
    RemovedBlock(s.received + Residual(s), ActiveBuf(s.q), s.q.outbound);
    assert Line(t) == s.received + Residual(s) + (ActiveBuf(t.q) + t.q.outbound);
  }

  lemma RemovedBlock(front: seq<Msg>, block: seq<Msg>, rest: seq<Msg>)
    ensures front + block + rest == front + rest <==> block == []
  {
    if block == [] {
      assert front + block == front;
    } else {
      assert |front + block + rest| > |front + rest|;
    }
  }

  lemma ReceiveOrder(s: State, c: nat)
    requires Inv(s) && InOrder(s) && Distinct(s.enqueued) && Enabled(s, ReceiveStep(c))
    ensures InOrder(Apply(s, ReceiveStep(c))) <==> !Overtakes(s, ReceiveStep(c))
  {
    InOrderHasNoStrays(s, c);
    var t := Apply(s, ReceiveStep(c));
    var x := s.q.chans[c].buf[0];
    var rest := ActiveBuf(t.q) + s.q.outbound;
    assert ActiveBuf(s.q) == [x] + ActiveBuf(t.q);
    assert Line(s) == s.received + Residual(s) + ([x] + rest);
    assert Line(t) == s.received + [x] + Residual(s) + rest;
    MovedForward(s.received, Residual(s), x, rest);
  }

  /** Moving an element in front of a block changes a repetition-free sequence unless the block is empty. */
  lemma MovedForward(front: seq<Msg>, block: seq<Msg>, x: Msg, rest: seq<Msg>)
    requires Distinct(front + block + ([x] + rest))
    ensures front + [x] + block + rest == front + block + ([x] + rest) <==> block == []
  {
    var was, now := front + block + ([x] + rest), front + [x] + block + rest;
    if block != [] {
      assert now[|front|] == x && was[|front|] == block[0] && was[|front| + |block|] == x;
    } else {
      assert now == was;
    }
  }

  lemma MoveFront(received: seq<Msg>, residual: seq<Msg>, buf: seq<Msg>, outbound: seq<Msg>)
    requires buf != []
    ensures received + (residual + [buf[0]]) + buf[1..] + outbound == received + residual + buf + outbound
  {
    assert buf == [buf[0]] + buf[1..];
  }

  lemma DrainOrder(s: State)
    requires Inv(s) && InOrder(s) && Enabled(s, DrainStep)
    ensures Apply(s, DrainStep).q.Valid() && InOrder(Apply(s, DrainStep))
  {
    StepPreserves(s, DrainStep);
    var t := Apply(s, DrainStep);
    assert ActiveBuf(t.q) == ActiveBuf(s.q)[1..];
    MoveFront(s.received, Residual(s), ActiveBuf(s.q), s.q.outbound);
  }

  lemma PushBackOrder(s: State)
    requires Inv(s) && InOrder(s) && Enabled(s, PushBackStep)
    ensures Apply(s, PushBackStep).q.Valid() && InOrder(Apply(s, PushBackStep))
  {
    StepPreserves(s, PushBackStep);
    assert s.received + Residual(s) + [] + s.q.outbound == s.received + [] + [] + (Residual(s) + s.q.outbound);
  }

  lemma CancelOrder(s: State, step: Step)
    requires Inv(s) && InOrder(s) && Enabled(s, step) && (step.CancelStep? || step.DrainStep? || step.PushBackStep?)
    ensures Apply(s, step).q.Valid() && InOrder(Apply(s, step))
  {
    match step
    case CancelStep(c) => StepPreserves(s, step);
    case DrainStep => DrainOrder(s);
    case PushBackStep => PushBackOrder(s);
  }

  /** Exactly when a step keeps delivery in enqueue order (message identities being distinct). */
  lemma OrderKeptIff(s: State, step: Step)
    requires Inv(s) && InOrder(s) && Distinct(s.enqueued) && Enabled(s, step)
    requires step.EnqueueStep? ==> step.m !in s.enqueued
    ensures Apply(s, step).q.Valid()
    ensures InOrder(Apply(s, step)) <==> !Overtakes(s, step)
  {
    StepPreserves(s, step);
    match step
    case EnqueueStep(m) => EnqueueOrder(s, m);
    case SubscribeStep(buffer) => SubscribeOrder(s, buffer);
    case ReceiveStep(c) => ReceiveOrder(s, c);
    case _ => CancelOrder(s, step);
  }

  /** Every state of the run, from the first to the last, is in order. */
  ghost predicate AlwaysInOrder(s: State, steps: seq<Step>, t: State)
    requires s.q.Valid() && Reaches(s, steps, t)
    decreases |steps|
  {
    InOrder(s) && (steps != [] ==> AlwaysInOrder(Apply(s, steps[0]), steps[1..], t))
  }

  ghost predicate NeverOvertakes(s: State, steps: seq<Step>, t: State)
    requires s.q.Valid() && Reaches(s, steps, t)
    decreases |steps|
  {
    steps != [] ==> !Overtakes(s, steps[0]) && NeverOvertakes(Apply(s, steps[0]), steps[1..], t)
  }

  lemma {:induction false} EnqueuedGrows(s: State, steps: seq<Step>, t: State)
    requires s.q.Valid() && Reaches(s, steps, t)
    ensures s.enqueued <= t.enqueued
    decreases |steps|
  {
    if steps != [] {
      EnqueuedGrows(Apply(s, steps[0]), steps[1..], t);
    }
  }

  lemma DistinctPrefix(xs: seq<Msg>, ys: seq<Msg>)
    requires xs <= ys && Distinct(ys)
    ensures Distinct(xs) && (xs != [] ==> xs[|xs| - 1] !in xs[..|xs| - 1])
  {
  }

  /** A run of distinct messages is in order throughout exactly when none of its steps overtakes. */
  lemma {:induction false} RunInOrderIff(s: State, steps: seq<Step>, t: State)
    requires Inv(s) && InOrder(s) && Reaches(s, steps, t) && Distinct(t.enqueued)
    ensures AlwaysInOrder(s, steps, t) <==> NeverOvertakes(s, steps, t)
    decreases |steps|
  {
    if steps != [] {
      var m := Apply(s, steps[0]);
      EnqueuedGrows(s, steps, t);
      EnqueuedGrows(m, steps[1..], t);
      DistinctPrefix(s.enqueued, t.enqueued);
      DistinctPrefix(m.enqueued, t.enqueued);
      assert steps[0].EnqueueStep? ==>
             m.enqueued == s.enqueued + [steps[0].m] && m.enqueued[..|s.enqueued|] == s.enqueued;
      OrderKeptIff(s, steps[0]);
      StepPreserves(s, steps[0]);
      if InOrder(m) {
        RunInOrderIff(m, steps[1..], t);
      }
    }
  }

  /** From the start: no reordering anywhere in a run exactly when no step overtakes. */
  lemma OrderKeptThroughoutIff(steps: seq<Step>, t: State)
    requires Reaches(Start(), steps, t) && Distinct(t.enqueued)
    ensures AlwaysInOrder(Start(), steps, t) <==> NeverOvertakes(Start(), steps, t)
  {
    RunInOrderIff(Start(), steps, t);
  }

  /** One reader at a time, which stops receiving before it cancels, on channels that never fill. */
  predicate Polite(s: State, step: Step)
    requires s.q.Valid()
  {
    match step
    case EnqueueStep(m) => m !in s.enqueued && (s.q.sub.Some? ==> Room(s.q))
    case SubscribeStep(buffer) => s.q.sub.None? && |s.q.outbound| <= Capacity(buffer)
    case ReceiveStep(_) => s.drain.NoDrain?
    case _ => true
  }

  ghost predicate PoliteRun(s: State, steps: seq<Step>, t: State)
    requires s.q.Valid()
    decreases |steps|
  {
    if steps == [] then s == t
    else Enabled(s, steps[0]) && Polite(s, steps[0]) && Apply(s, steps[0]).q.Valid()
         && PoliteRun(Apply(s, steps[0]), steps[1..], t)
  }

  lemma {:induction false} PoliteRunKeepsOrder(s: State, steps: seq<Step>, t: State)
    requires Inv(s) && InOrder(s) && Distinct(s.enqueued) && (s.q.sub.Some? ==> s.q.outbound == [])
    requires PoliteRun(s, steps, t)
    ensures Inv(t) && InOrder(t)
    decreases |steps|
  {
    if steps != [] {
      OrderKeptIff(s, steps[0]);
      StepPreserves(s, steps[0]);
      PoliteRunKeepsOrder(Apply(s, steps[0]), steps[1..], t);
    }
  }

  /** In every polite run what has been received is a prefix of what was enqueued. */
  lemma PoliteReaderSeesFifo(steps: seq<Step>, t: State)
    requires PoliteRun(Start(), steps, t)
    ensures t.received <= t.enqueued
  {
    PoliteRunKeepsOrder(Start(), steps, t);
    InOrderPrefix(t);
  }

  lemma InOrderPrefix(s: State)
    requires s.q.Valid() && InOrder(s)
    ensures s.received <= s.enqueued
  {
    assert Line(s) == s.received + (Residual(s) + ActiveBuf(s.q) + s.q.outbound);
  }

  lemma RunCons(s: State, step: Step, steps: seq<Step>, t: State)
    requires s.q.Valid() && Enabled(s, step) && Apply(s, step).q.Valid() && Reaches(Apply(s, step), steps, t)
    ensures Reaches(s, [step] + steps, t)
  {
    assert ([step] + steps)[1..] == steps;
  }

  /** One attached channel, no cancel under way. */
  function Attached(outbound: seq<Msg>, buf: seq<Msg>, cap: nat, enqueued: seq<Msg>, received: seq<Msg>): State {
    State(Queue(outbound, Some(0), [Chan(buf, cap, false)]), NoDrain, enqueued, received, false)
  }

  lemma AttachFirst(buffer: int)
    requires buffer > 0
    ensures Apply(Start(), SubscribeStep(buffer)) == Attached([], [], buffer, [], [])
  {
    assert Subscribe(Start().q, buffer).chans == [Chan([], buffer, false)];
  }

  lemma EnqueueAttached(outbound: seq<Msg>, buf: seq<Msg>, cap: nat, enqueued: seq<Msg>, received: seq<Msg>, m: Msg)
    requires |buf| <= cap && cap > 0
    ensures Apply(Attached(outbound, buf, cap, enqueued, received), EnqueueStep(m))
         == if |buf| < cap then Attached(outbound, buf + [m], cap, enqueued + [m], received)
            else Attached(outbound + [m], buf, cap, enqueued + [m], received)
  {
    var s := Attached(outbound, buf, cap, enqueued, received);
    if |buf| < cap {
      assert Enqueue(s.q, m).chans == [Chan(buf + [m], cap, false)];
    }
  }

  lemma ReceiveAttached(outbound: seq<Msg>, buf: seq<Msg>, cap: nat, enqueued: seq<Msg>, received: seq<Msg>)
    requires buf != [] && |buf| <= cap
    ensures Apply(Attached(outbound, buf, cap, enqueued, received), ReceiveStep(0))
         == Attached(outbound, buf[1..], cap, enqueued, received + [buf[0]])
  {
    assert PopChan([Chan(buf, cap, false)], 0) == [Chan(buf[1..], cap, false)];
  }

  /** A run from one message in an attached channel is a run from the start. */
  lemma AfterFirst(buffer: int, steps: seq<Step>, t: State) returns (run: seq<Step>)
    requires buffer > 0 && Reaches(Attached([], [1], buffer, [1], []), steps, t)
    ensures Reaches(Start(), run, t)
  {
    EnqueueAttached([], [], buffer, [], [], 1);
    assert [] + [1] == [1];
    RunCons(Attached([], [], buffer, [], []), EnqueueStep(1), steps, t);
    AttachFirst(buffer);
    run := [EnqueueStep(1)] + steps;
    RunCons(Start(), SubscribeStep(buffer), run, t);
    run := [SubscribeStep(buffer)] + run;
  }

  /** A message that found the channel full waits in the buffer while a later one is delivered directly. */
  lemma OverflowReorders() returns (steps: seq<Step>, t: State)
    ensures Reaches(Start(), steps, t)
    ensures t.enqueued == [1, 2, 3] && t.received == [1, 3] && t.q.outbound == [2]
  {
    steps, t := OvertakeBuffered(Attached([2], [1], 1, [1, 2], []));
    EnqueueAttached([], [1], 1, [1], [], 2);
    assert [] + [2] == [2] && [1] + [2] == [1, 2];
    RunCons(Attached([], [1], 1, [1], []), EnqueueStep(2), steps, t);
    steps := AfterFirst(1, [EnqueueStep(2)] + steps, t);
  }

  lemma OvertakeBuffered(full: State) returns (steps: seq<Step>, t: State)
    requires full == Attached([2], [1], 1, [1, 2], [])
    ensures full.q.Valid() && Reaches(full, steps, t)
    ensures t.enqueued == [1, 2, 3] && t.received == [1, 3] && t.q.outbound == [2]
  {
    steps, t := DeliverThird(Attached([2], [], 1, [1, 2], [1]));
    ReceiveAttached([2], [1], 1, [1, 2], []);
    assert [1][1..] == [] && [] + [1] == [1];
    RunCons(full, ReceiveStep(0), steps, t);
    steps := [ReceiveStep(0)] + steps;
  }

  lemma DeliverThird(drained: State) returns (steps: seq<Step>, t: State)
    requires drained == Attached([2], [], 1, [1, 2], [1])
    ensures drained.q.Valid() && Reaches(drained, steps, t)
    ensures t.enqueued == [1, 2, 3] && t.received == [1, 3] && t.q.outbound == [2]
  {
    t := Attached([2], [], 1, [1, 2, 3], [1, 3]);
    ReceiveAttached([2], [3], 1, [1, 2, 3], [1]);
    assert [3][1..] == [] && [1] + [3] == [1, 3];
    RunCons(Attached([2], [3], 1, [1, 2, 3], [1]), ReceiveStep(0), [], t);
    steps := [ReceiveStep(0)] + [];
    EnqueueAttached([2], [], 1, [1, 2], [1], 3);
    assert [] + [3] == [3] && [1, 2] + [3] == [1, 2, 3];
    RunCons(drained, EnqueueStep(3), steps, t);
    steps := [EnqueueStep(3)] + steps;
  }

  /** A message left in a stolen channel is overtaken by one sent to the new subscriber. */
  lemma StealReorders() returns (steps: seq<Step>, t: State)
    ensures Reaches(Start(), steps, t)
    ensures |t.q.chans| == 2 && t.enqueued == [1, 2] && t.received == [2] && t.q.chans[0].buf == [1]
  {
    steps, t := OvertakeStolen(Attached([], [1], 2, [1], []));
    steps := AfterFirst(2, steps, t);
  }

  lemma OvertakeStolen(one: State) returns (steps: seq<Step>, t: State)
    requires one == Attached([], [1], 2, [1], [])
    ensures one.q.Valid() && Reaches(one, steps, t) && |t.q.chans| == 2
    ensures t.enqueued == [1, 2] && t.received == [2] && t.q.chans[0].buf == [1]
  {
    var left := Chan([1], 2, true);
    var stolen := State(Queue([], Some(1), [left, Chan([], 2, false)]), NoDrain, [1], [], false);
    steps, t := DeliverSecond(stolen, left);
    assert Apply(one, SubscribeStep(2)) == stolen by {
      assert Subscribe(one.q, 2).chans == stolen.q.chans;
    }
    RunCons(one, SubscribeStep(2), steps, t);
    steps := [SubscribeStep(2)] + steps;
  }

  lemma DeliverSecond(stolen: State, left: Chan) returns (steps: seq<Step>, t: State)
    requires left == Chan([1], 2, true)
    requires stolen == State(Queue([], Some(1), [left, Chan([], 2, false)]), NoDrain, [1], [], false)
    ensures stolen.q.Valid() && Reaches(stolen, steps, t) && |t.q.chans| == 2
    ensures t.enqueued == [1, 2] && t.received == [2] && t.q.chans[0].buf == [1]
  {
    var second := State(Queue([], Some(1), [left, Chan([2], 2, false)]), NoDrain, [1, 2], [], false);
    t := State(Queue([], Some(1), [left, Chan([], 2, false)]), NoDrain, [1, 2], [2], false);
    assert Apply(second, ReceiveStep(1)) == t by {
      assert [2][1..] == [] && PopChan(second.q.chans, 1) == t.q.chans;
    }
    RunCons(second, ReceiveStep(1), [], t);
    steps := [ReceiveStep(1)] + [];
    assert Apply(stolen, EnqueueStep(2)) == second by {
      assert [] + [2] == [2] && [1] + [2] == [1, 2];
      assert Enqueue(stolen.q, 2).chans == second.q.chans;
    }
    RunCons(stolen, EnqueueStep(2), steps, t);
    steps := [EnqueueStep(2)] + steps;
  }

  /** A reader that keeps receiving while its own cancel drains sees the second message first. */
  lemma ReceiveDuringCancelReorders() returns (steps: seq<Step>, t: State)
    ensures Reaches(Start(), steps, t)
    ensures t.enqueued == [1, 2] && t.received == [2] && t.q.outbound == [1]
  {
    steps, t := CancelWhileReceiving(Attached([], [1, 2], 2, [1, 2], []));
    EnqueueAttached([], [1], 2, [1], [], 2);
    assert [1] + [2] == [1, 2];
    RunCons(Attached([], [1], 2, [1], []), EnqueueStep(2), steps, t);
    steps := AfterFirst(2, [EnqueueStep(2)] + steps, t);
  }

  lemma CancelWhileReceiving(s: State) returns (steps: seq<Step>, t: State)
    requires s == State(Queue([], Some(0), [Chan([1, 2], 2, false)]), NoDrain, [1, 2], [], false)
    ensures Reaches(s, steps, t)
    ensures t.enqueued == [1, 2] && t.received == [2] && t.q.outbound == [1]
  {
    var closing := State(Queue([], Some(0), [Chan([1, 2], 2, true)]), Draining(0, []), [1, 2], [], false);
    var moved := State(Queue([], Some(0), [Chan([2], 2, true)]), Draining(0, [1]), [1, 2], [], false);
    steps, t := ReceiveWhileDraining(moved);
    assert Apply(closing, DrainStep) == moved by {
      assert ([1, 2])[1..] == [2];
      assert PopChan(closing.q.chans, 0) == moved.q.chans;
    }
    RunCons(closing, DrainStep, steps, t);
    steps := [DrainStep] + steps;
    assert Apply(s, CancelStep(0)) == closing by {
      assert Close(s.q.chans, 0) == closing.q.chans;
    }
    RunCons(s, CancelStep(0), steps, t);
    steps := [CancelStep(0)] + steps;
  }

  lemma ReceiveWhileDraining(moved: State) returns (steps: seq<Step>, t: State)
    requires moved == State(Queue([], Some(0), [Chan([2], 2, true)]), Draining(0, [1]), [1, 2], [], false)
    ensures Reaches(moved, steps, t)
    ensures t.enqueued == [1, 2] && t.received == [2] && t.q.outbound == [1]
  {
    var raced := State(Queue([], Some(0), [Chan([], 2, true)]), Draining(0, [1]), [1, 2], [2], false);
    t := State(Queue([1], None, [Chan([], 2, true)]), NoDrain, [1, 2], [2], false);
    assert Apply(raced, PushBackStep) == t;
    RunCons(raced, PushBackStep, [], t);
    steps := [PushBackStep] + [];
    assert Apply(moved, ReceiveStep(0)) == raced by {
      assert ([2])[1..] == [];
      assert PopChan(moved.q.chans, 0) == raced.q.chans;
    }
    RunCons(moved, ReceiveStep(0), steps, t);
    steps := [ReceiveStep(0)] + steps;
  }

  /** Without interference the steps of a cancel add up to `Cancel`. */
  lemma CancelCompletes(s: State, c: nat) returns (steps: seq<Step>, t: State)
    requires Inv(s) && s.drain.NoDrain? && s.q.sub == Some(c)
    ensures Reaches(s, steps, t) && t == s.(q := Cancel(s.q, c))
  {
    var closing := Apply(s, CancelStep(c));
    StepPreserves(s, CancelStep(c));
    steps, t := DrainCompletes(closing);
    RunCons(s, CancelStep(c), steps, t);
    steps := [CancelStep(c)] + steps;
    assert t.q.chans == Cancel(s.q, c).chans;
    assert [] + closing.q.chans[c].buf + s.q.outbound == s.q.chans[c].buf + s.q.outbound;
  }

  lemma {:induction false} DrainCompletes(s: State) returns (steps: seq<Step>, t: State)
    requires Inv(s) && s.drain.Draining?
    ensures Reaches(s, steps, t)
    ensures var ch := s.q.chans[s.drain.chan];
            t == s.(q := Queue(s.drain.residual + ch.buf + s.q.outbound, None,
                                  s.q.chans[s.drain.chan := ch.(buf := [])]),
                    drain := NoDrain)
    decreases |s.q.chans[s.drain.chan].buf|
  {
    var c := s.drain.chan;
    if s.q.chans[c].buf == [] {
      t := Apply(s, PushBackStep);
      StepPreserves(s, PushBackStep);
      RunCons(s, PushBackStep, [], t);
      steps := [PushBackStep] + [];
      assert s.drain.residual + s.q.chans[c].buf == s.drain.residual;
      assert s.q.chans[c := s.q.chans[c].(buf := [])] == s.q.chans;
    } else {
      var m := Apply(s, DrainStep);
      StepPreserves(s, DrainStep);
      steps, t := DrainCompletes(m);
      RunCons(s, DrainStep, steps, t);
      steps := [DrainStep] + steps;
      assert m.drain.residual + m.q.chans[c].buf == s.drain.residual + s.q.chans[c].buf;
      assert m.q.chans[c := m.q.chans[c].(buf := [])] == s.q.chans[c := s.q.chans[c].(buf := [])];
    }
  }
}
