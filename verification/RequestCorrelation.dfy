/**
 Server-initiated requests: any number of SendRequest and DeliverResponse calls interleaved at their lock
 boundaries and channel operations.
 */
module RequestCorrelation {
  import opened Wrappers
  import opened Strings

  datatype Response = Response(id: string, payload: nat)

  datatype Outcome = Answer(resp: Response) | ContextDone | MarshalFailed

  datatype CallPc =
    | NotStarted
    | Numbered                 // id taken from the counter
    | Registered               // channel stored under the id
    | Waiting                  // request enqueued
    | Leaving(result: Outcome) // before the deferred cleanup
    | Returned(result: Outcome)

  /** One SendRequest call: its id and its response channel of capacity one. */
  datatype Call = Call(pc: CallPc, key: string, chan: Option<Response>)

  datatype DeliverPc = Ready | Holding(call: nat, resp: Response) | Delivered | Unmatched

  datatype State = State(
    nextId: nat, pending: map<string, nat>, calls: seq<Call>, deliveries: seq<DeliverPc>,
    accepted: seq<nat>)  // the calls whose response DeliverResponse has accepted, in order

  datatype Step =
    | NewIdStep(c: nat)
    | MarshalFailStep(c: nat)
    | RegisterStep(c: nat)
    | EnqueueStep(c: nat)
    | ReceiveStep(c: nat)
    | ContextDoneStep(c: nat)
    | CleanupStep(c: nat)
    | LookupStep(d: nat, resp: Response)
    | SendStep(d: nat)

  // ----- steps

  function Start(calls: nat, deliveries: nat): State {
    State(0, map[], seq(calls, i => Call(NotStarted, "", None)), seq(deliveries, i => Ready), [])
  }

  predicate Enabled(s: State, step: Step) {
    match step
    case NewIdStep(c) => c < |s.calls| && s.calls[c].pc.NotStarted?
    case MarshalFailStep(c) => c < |s.calls| && s.calls[c].pc.Numbered?
    case RegisterStep(c) => c < |s.calls| && s.calls[c].pc.Numbered?
    case EnqueueStep(c) => c < |s.calls| && s.calls[c].pc.Registered?
    case ReceiveStep(c) => c < |s.calls| && s.calls[c].pc.Waiting? && s.calls[c].chan.Some?
    case ContextDoneStep(c) => c < |s.calls| && s.calls[c].pc.Waiting?
    case CleanupStep(c) => c < |s.calls| && s.calls[c].pc.Leaving?
    case LookupStep(d, _) => d < |s.deliveries| && s.deliveries[d].Ready?
    // the channel has capacity one: a second send would block
    case SendStep(d) =>
      && d < |s.deliveries| && s.deliveries[d].Holding? && s.deliveries[d].call < |s.calls|
      && s.calls[s.deliveries[d].call].chan.None?
  }

  function SetPc(s: State, c: nat, pc: CallPc): State
    requires c < |s.calls|
  {
    s.(calls := s.calls[c := s.calls[c].(pc := pc)])
  }

  function Apply(s: State, step: Step): State
    requires Enabled(s, step)
  {
    match step
    case NewIdStep(c) =>
      s.(nextId := s.nextId + 1, calls := s.calls[c := Call(Numbered, Decimal(s.nextId + 1), None)])
    case MarshalFailStep(c) => SetPc(s, c, Returned(MarshalFailed))
    case RegisterStep(c) => SetPc(s, c, Registered).(pending := s.pending[s.calls[c].key := c])
    case EnqueueStep(c) => SetPc(s, c, Waiting)
    case ReceiveStep(c) =>
      s.(calls := s.calls[c := s.calls[c].(pc := Leaving(Answer(s.calls[c].chan.value)), chan := None)])
    case ContextDoneStep(c) => SetPc(s, c, Leaving(ContextDone))
    case CleanupStep(c) =>
      SetPc(s, c, Returned(s.calls[c].pc.result)).(pending := s.pending - {s.calls[c].key})
    case LookupStep(d, resp) =>
      if resp.id != "" && resp.id in s.pending
      then s.(pending := s.pending - {resp.id}, deliveries := s.deliveries[d := Holding(s.pending[resp.id], resp)],
              accepted := s.accepted + [s.pending[resp.id]])
      else s.(deliveries := s.deliveries[d := Unmatched])
    case SendStep(d) =>
      var h := s.deliveries[d];
      s.(calls := s.calls[h.call := s.calls[h.call].(chan := Some(h.resp))], deliveries := s.deliveries[d := Delivered])
  }

  ghost predicate Reaches(s: State, steps: seq<Step>, t: State)
    decreases |steps|
  {
    if steps == [] then s == t
    else Enabled(s, steps[0]) && Reaches(Apply(s, steps[0]), steps[1..], t)
  }

  // ----- the invariant

  predicate HasId(call: Call) { !call.pc.NotStarted? }

  /** Past registration. */
  predicate WasRegistered(call: Call) {
    call.pc.Registered? || call.pc.Waiting? || call.pc.Leaving? || call.pc.Returned?
  }

  predicate Answered(call: Call) {
    (call.pc.Leaving? || call.pc.Returned?) && call.pc.result.Answer?
  }

  /** Ids come from the counter and no two calls share one. */
  ghost predicate IdsUnique(s: State) {
    && (forall c :: 0 <= c < |s.calls| && HasId(s.calls[c]) ==> NumberOf(s.calls[c].key, s.nextId))
    && (forall a, b :: 0 <= a < b < |s.calls| && HasId(s.calls[a]) && HasId(s.calls[b]) ==>
          s.calls[a].key != s.calls[b].key)
  }

  ghost predicate NumberOf(key: string, bound: nat) {
    exists n: nat :: n <= bound && key == Decimal(n)
  }

  /** An entry in `pending` belongs to the call whose id it is, which nobody has answered yet. */
  ghost predicate PendingOwned(s: State) {
    forall k :: k in s.pending ==>
      && s.pending[k] < |s.calls|
      && s.calls[s.pending[k]].key == k
      && Waits(s.calls[s.pending[k]])
      && s.calls[s.pending[k]].chan.None? && !Answered(s.calls[s.pending[k]])
      && s.pending[k] !in s.accepted
  }

  /** Registered and not yet cleaned up. */
  predicate Waits(call: Call) { call.pc.Registered? || call.pc.Waiting? || call.pc.Leaving? }

  /** A call that waits and has not been answered has its entry. */
  ghost predicate PendingComplete(s: State) {
    forall c :: 0 <= c < |s.calls| && Waits(s.calls[c]) && c !in s.accepted ==>
      s.calls[c].key in s.pending && s.pending[s.calls[c].key] == c
  }

  /** A response on its way to a call carries that call's id, and it is the only one. */
  ghost predicate HeldOnce(s: State) {
    && (forall d :: 0 <= d < |s.deliveries| && s.deliveries[d].Holding? ==>
          var h := s.deliveries[d];
          && h.call < |s.calls| && s.calls[h.call].key == h.resp.id && WasRegistered(s.calls[h.call])
          && s.calls[h.call].chan.None? && !Answered(s.calls[h.call])
          && h.call in s.accepted)
    && (forall d, e :: 0 <= d < e < |s.deliveries| && s.deliveries[d].Holding? && s.deliveries[e].Holding? ==>
          s.deliveries[d].call != s.deliveries[e].call)
  }

  /** What a call has received, in its channel or as its result, carries its own id. */
  ghost predicate AnswersMatch(s: State) {
    forall c :: 0 <= c < |s.calls| ==>
      && (s.calls[c].chan.Some? ==> s.calls[c].chan.value.id == s.calls[c].key && !Answered(s.calls[c])
                                    && WasRegistered(s.calls[c]) && c in s.accepted)
      && (Answered(s.calls[c]) ==> s.calls[c].pc.result.resp.id == s.calls[c].key && c in s.accepted)
  }

  ghost predicate AcceptedOnce(s: State) {
    && (forall i, j :: 0 <= i < j < |s.accepted| ==> s.accepted[i] != s.accepted[j])
    && (forall c :: c in s.accepted ==> c < |s.calls| && WasRegistered(s.calls[c]))
  }

  ghost predicate Inv(s: State) {
    IdsUnique(s) && PendingOwned(s) && PendingComplete(s) && HeldOnce(s) && AnswersMatch(s) && AcceptedOnce(s)
  }

  lemma NewIdPreserves(s: State, c: nat)
    requires Inv(s) && Enabled(s, NewIdStep(c))
    ensures Inv(Apply(s, NewIdStep(c)))
  {
    var t := Apply(s, NewIdStep(c));
    forall a | 0 <= a < |s.calls| && HasId(s.calls[a]) ensures s.calls[a].key != Decimal(t.nextId) {
      var n: nat :| n <= s.nextId && s.calls[a].key == Decimal(n);
      if s.calls[a].key == Decimal(t.nextId) {
        DecimalInjective(n, t.nextId);
      }
    }
    assert NumberOf(Decimal(t.nextId), t.nextId);
    forall a | 0 <= a < |t.calls| && HasId(t.calls[a]) ensures NumberOf(t.calls[a].key, t.nextId) {
      if a != c {
        var n: nat :| n <= s.nextId && s.calls[a].key == Decimal(n);
      }
    }
  }

  lemma MarshalFailPreserves(s: State, c: nat)
    requires Inv(s) && Enabled(s, MarshalFailStep(c))
    ensures Inv(Apply(s, MarshalFailStep(c)))
  {
  }

  lemma RegisterPreserves(s: State, c: nat)
    requires Inv(s) && Enabled(s, RegisterStep(c))
    ensures Inv(Apply(s, RegisterStep(c)))
  {
  }

  lemma EnqueuePreserves(s: State, c: nat)
    requires Inv(s) && Enabled(s, EnqueueStep(c))
    ensures Inv(Apply(s, EnqueueStep(c)))
  {
  }

  lemma ReceivePreserves(s: State, c: nat)
    requires Inv(s) && Enabled(s, ReceiveStep(c))
    ensures Inv(Apply(s, ReceiveStep(c)))
  {
  }

  lemma ContextDonePreserves(s: State, c: nat)
    requires Inv(s) && Enabled(s, ContextDoneStep(c))
    ensures Inv(Apply(s, ContextDoneStep(c)))
  {
  }

  lemma CleanupPreserves(s: State, c: nat)
    requires Inv(s) && Enabled(s, CleanupStep(c))
    ensures Inv(Apply(s, CleanupStep(c)))
  {
  }

  lemma LookupKeepsPending(s: State, d: nat, resp: Response)
    requires IdsUnique(s) && PendingOwned(s) && PendingComplete(s) && Enabled(s, LookupStep(d, resp))
    ensures PendingOwned(Apply(s, LookupStep(d, resp))) && PendingComplete(Apply(s, LookupStep(d, resp)))
  {
  }

  lemma LookupKeepsHeld(s: State, d: nat, resp: Response)
    requires PendingOwned(s) && HeldOnce(s) && Enabled(s, LookupStep(d, resp))
    ensures HeldOnce(Apply(s, LookupStep(d, resp)))
  {
  }

  lemma LookupAcceptsOnce(s: State, d: nat, resp: Response)
    requires PendingOwned(s) && AcceptedOnce(s) && Enabled(s, LookupStep(d, resp))
    ensures AcceptedOnce(Apply(s, LookupStep(d, resp)))
  {
  }

  lemma LookupKeepsCalls(s: State, d: nat, resp: Response)
    requires IdsUnique(s) && AnswersMatch(s) && Enabled(s, LookupStep(d, resp))
    ensures IdsUnique(Apply(s, LookupStep(d, resp))) && AnswersMatch(Apply(s, LookupStep(d, resp)))
  {
    assert Apply(s, LookupStep(d, resp)).calls == s.calls;
  }

  lemma LookupPreserves(s: State, d: nat, resp: Response)
    requires Inv(s) && Enabled(s, LookupStep(d, resp))
    ensures Inv(Apply(s, LookupStep(d, resp)))
  {
    LookupKeepsPending(s, d, resp);
    LookupKeepsHeld(s, d, resp);
    LookupAcceptsOnce(s, d, resp);
    LookupKeepsCalls(s, d, resp);
  }

  lemma SendPreserves(s: State, d: nat)
    requires Inv(s) && Enabled(s, SendStep(d))
    ensures Inv(Apply(s, SendStep(d)))
  {
  }

  lemma StepPreserves(s: State, step: Step)
    requires Inv(s) && Enabled(s, step)
    ensures Inv(Apply(s, step))
  {
    match step
    case NewIdStep(c) => NewIdPreserves(s, c);
    case MarshalFailStep(c) => MarshalFailPreserves(s, c);
    case RegisterStep(c) => RegisterPreserves(s, c);
    case EnqueueStep(c) => EnqueuePreserves(s, c);
    case ReceiveStep(c) => ReceivePreserves(s, c);
    case ContextDoneStep(c) => ContextDonePreserves(s, c);
    case CleanupStep(c) => CleanupPreserves(s, c);
    case LookupStep(d, resp) => LookupPreserves(s, d, resp);
    case SendStep(d) => SendPreserves(s, d);
  }

  lemma {:induction false} RunPreserves(s: State, steps: seq<Step>, t: State)
    requires Inv(s) && Reaches(s, steps, t)
    ensures Inv(t)
    decreases |steps|
  {
    if steps != [] {
      StepPreserves(s, steps[0]);
      RunPreserves(Apply(s, steps[0]), steps[1..], t);
    }
  }

  // ----- what every interleaving guarantees

  /** Ids never repeat, and a call returns a response only if it carries the call's own id. */
  lemma ResponsesCorrelate(calls: nat, deliveries: nat, steps: seq<Step>, t: State)
    requires Reaches(Start(calls, deliveries), steps, t)
    ensures forall a, b :: 0 <= a < b < |t.calls| && HasId(t.calls[a]) && HasId(t.calls[b]) ==>
              t.calls[a].key != t.calls[b].key
    ensures forall c :: 0 <= c < |t.calls| && t.calls[c].pc.Returned? && t.calls[c].pc.result.Answer?
              ==> t.calls[c].pc.result.resp.id == t.calls[c].key
  {
    RunPreserves(Start(calls, deliveries), steps, t);
  }

  /** Each call's id is accepted at most once, and the accepted response can be sent without blocking. */
  lemma DeliveredOnceWithoutBlocking(calls: nat, deliveries: nat, steps: seq<Step>, t: State)
    requires Reaches(Start(calls, deliveries), steps, t)
    ensures forall i, j :: 0 <= i < j < |t.accepted| ==> t.accepted[i] != t.accepted[j]
    ensures forall d :: 0 <= d < |t.deliveries| && t.deliveries[d].Holding? ==> Enabled(t, SendStep(d))
  {
    RunPreserves(Start(calls, deliveries), steps, t);
  }

  /** Cleanup removes at most the caller's own entry. */
  lemma CleanupTouchesOwnEntry(calls: nat, deliveries: nat, steps: seq<Step>, t: State, c: nat)
    requires Reaches(Start(calls, deliveries), steps, t) && Enabled(t, CleanupStep(c))
    ensures forall k :: k in t.pending && t.pending[k] != c ==>
              k in Apply(t, CleanupStep(c)).pending && Apply(t, CleanupStep(c)).pending[k] == t.pending[k]
    ensures forall k :: k in Apply(t, CleanupStep(c)).pending ==> t.pending[k] != c
  {
    RunPreserves(Start(calls, deliveries), steps, t);
  }

  /** The call is registered under the id, was not answered, and has not given up and cleaned up. */
  predicate Expects(t: State, c: nat, id: string) {
    c < |t.calls| && Waits(t.calls[c]) && c !in t.accepted && t.calls[c].key == id
  }

  /** A response is accepted exactly when some call still expects its id, and then for that call. */
  lemma DeliveryAcceptedIff(calls: nat, deliveries: nat, steps: seq<Step>, t: State, d: nat, resp: Response)
    requires Reaches(Start(calls, deliveries), steps, t) && Enabled(t, LookupStep(d, resp))
    ensures Apply(t, LookupStep(d, resp)).deliveries[d].Holding? <==>
              resp.id != "" && exists c :: Expects(t, c, resp.id)
    ensures forall c :: resp.id != "" && Expects(t, c, resp.id) ==>
              Apply(t, LookupStep(d, resp)).deliveries[d] == Holding(c, resp)
  {
    RunPreserves(Start(calls, deliveries), steps, t);
    if resp.id in t.pending {
      assert Expects(t, t.pending[resp.id], resp.id);
    }
  }

  /**
   A response nobody expects is refused and changes no call: one for an id never issued, a second one for the same
   id, and one that arrives after its caller timed out and cleaned up.
   */
  lemma LateDeliveryRefused(calls: nat, deliveries: nat, steps: seq<Step>, t: State, d: nat, resp: Response)
    requires Reaches(Start(calls, deliveries), steps, t) && Enabled(t, LookupStep(d, resp))
    requires forall c :: 0 <= c < |t.calls| && t.calls[c].key == resp.id ==>
               t.calls[c].pc.NotStarted? || t.calls[c].pc.Numbered? || t.calls[c].pc.Returned? || c in t.accepted
    ensures Apply(t, LookupStep(d, resp)).deliveries[d].Unmatched?
    ensures Apply(t, LookupStep(d, resp)).calls == t.calls && Apply(t, LookupStep(d, resp)).pending == t.pending
  {
    DeliveryAcceptedIff(calls, deliveries, steps, t, d, resp);
    assert forall c :: !Expects(t, c, resp.id);
  }
}
