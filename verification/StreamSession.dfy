/**
 One streamable-HTTP session: monotonic event ids, a bounded replay log and live subscriber channels. Each
 operation below runs under the session lock; a receive needs no lock.
 */
module StreamableSession {

  const MAX_LOG_EVENTS := 1024
  const MAX_SUBSCRIBERS := 64
  const CHANNEL_BUFFER := 64

  datatype Event = Event(id: int, data: string)

  /**
   One GET stream: its request and whether it was granted, what it was replayed, what its channel delivered and still
   holds, and whether it overflowed.
   */
  datatype Stream = Stream(
    after: int, base: nat, granted: bool, replay: seq<Event>, received: seq<Event>,
    buf: seq<Event>, skipped: bool, closed: bool)

  datatype Session = Session(nextId: int, log: seq<Event>, streams: seq<Stream>, subs: set<nat>, closed: bool)

  datatype State = State(session: Session, history: seq<Event>, panicked: bool)

  // ----- operations

  function Trim(log: seq<Event>): seq<Event> {
    if |log| > MAX_LOG_EVENTS then log[|log| - MAX_LOG_EVENTS..] else log
  }

  /** A full channel skips the event. */
  function Offer(st: Stream, ev: Event): Stream {
    if |st.buf| < CHANNEL_BUFFER then st.(buf := st.buf + [ev]) else st.(skipped := true)
  }

  function OfferAll(streams: seq<Stream>, subs: set<nat>, ev: Event): (r: seq<Stream>)
    ensures |r| == |streams|
    ensures forall i :: 0 <= i < |streams| ==> r[i] == if i in subs then Offer(streams[i], ev) else streams[i]
  {
    seq(|streams|, i requires 0 <= i < |streams| => if i in subs then Offer(streams[i], ev) else streams[i])
  }

  lemma OfferOneMore(streams: seq<Stream>, done: set<nat>, c: nat, ev: Event)
    requires c < |streams| && c !in done
    ensures OfferAll(streams, done + {c}, ev) == OfferAll(streams, done, ev)[c := Offer(streams[c], ev)]
  {
  }

  function Broadcast(s: Session, data: string): Session {
    if s.closed then s
    else
      var ev := Event(s.nextId + 1, data);
      Session(s.nextId + 1, Trim(s.log + [ev]), OfferAll(s.streams, s.subs, ev), s.subs, false)
  }

  function EventsAfter(log: seq<Event>, after: int): seq<Event> {
    if log == [] then []
    else (if log[0].id > after then [log[0]] else []) + EventsAfter(log[1..], after)
  }

  /** A closed session and one at its stream cap both hand back a closed channel. */
  function Subscribe(s: Session, after: int): Session
    requires s.nextId >= 0
  {
    if s.closed || |s.subs| >= MAX_SUBSCRIBERS
    then s.(streams := s.streams + [Stream(after, s.nextId, false, [], [], [], false, true)])
    else s.(streams := s.streams + [Stream(after, s.nextId, true, EventsAfter(s.log, after), [], [], false, false)],
            subs := s.subs + {|s.streams|})
  }

  function Cancel(s: Session, c: nat): Session {
    s.(subs := s.subs - {c})
  }

  function CloseAll(streams: seq<Stream>, subs: set<nat>): (r: seq<Stream>)
    ensures |r| == |streams|
    ensures forall i :: 0 <= i < |streams| ==> r[i] == if i in subs then streams[i].(closed := true) else streams[i]
  {
    seq(|streams|, i requires 0 <= i < |streams| => if i in subs then streams[i].(closed := true) else streams[i])
  }

  function Close(s: Session): Session {
    if s.closed then s else s.(closed := true, streams := CloseAll(s.streams, s.subs), subs := {})
  }

  function Receive(s: Session, c: nat): Session
    requires c < |s.streams| && s.streams[c].buf != []
  {
    var st := s.streams[c];
    s.(streams := s.streams[c := st.(received := st.received + [st.buf[0]], buf := st.buf[1..])])
  }

  /** Offer the event to every live channel, in whatever order the map yields them. */
  method PushToSubscribers(streams0: seq<Stream>, subs: set<nat>, ev: Event) returns (streams: seq<Stream>)
    requires forall c :: c in subs ==> c < |streams0|
    ensures streams == OfferAll(streams0, subs, ev)
  {
    streams := streams0;
    var todo := subs;
    ghost var done: set<nat> := {};
    while todo != {}
      invariant todo !! done && todo + done == subs
      invariant streams == OfferAll(streams0, done, ev)
    {
      var c :| c in todo;
      OfferOneMore(streams0, done, c, ev);
      todo, done := todo - {c}, done + {c};
      var st := streams[c];
      if |st.buf| < CHANNEL_BUFFER {
        streams := streams[c := st.(buf := st.buf + [ev])];
      } else {
        streams := streams[c := st.(skipped := true)];
      }
    }
    assert done == subs;
  }

  lemma NextEvent(log: seq<Event>, after: int, i: nat)
    requires i < |log|
    ensures EventsAfter(log[i..], after) ==
              (if log[i].id > after then [log[i]] else []) + EventsAfter(log[i + 1..], after)
  {
    assert log[i..][1..] == log[i + 1..];
  }

  method CollectReplay(log: seq<Event>, after: int) returns (replay: seq<Event>)
    ensures replay == EventsAfter(log, after)
  {
    replay := [];
    assert log[0..] == log;
    for i := 0 to |log|
      invariant EventsAfter(log, after) == replay + EventsAfter(log[i..], after)
    {
      NextEvent(log, after, i);
      if log[i].id > after {
        replay := replay + [log[i]];
      }
    }
    assert log[|log|..] == [];
  }

  /** The object with its fields updated in place. */
  class StreamSession {
    var nextId: int
    var log: seq<Event>
    var streams: seq<Stream>
    var subs: set<nat>
    var closed: bool

    ghost function View(): Session
      reads this
    {
      Session(nextId, log, streams, subs, closed)
    }

    ghost predicate Valid()
      reads this
    {
      nextId >= 0 && forall c :: c in subs ==> c < |streams|
    }

    constructor ()
      ensures Valid() && View() == Session(0, [], [], {}, false)
    {
      nextId, log, streams, subs, closed := 0, [], [], {}, false;
    }

    method BroadcastNotification(data: string)
      requires Valid()
      modifies this
      ensures Valid() && View() == Broadcast(old(View()), data)
    {
      if closed {
        return;
      }
      nextId := nextId + 1;
      var ev := Event(nextId, data);
      log := log + [ev];
      if |log| > MAX_LOG_EVENTS {
        log := log[|log| - MAX_LOG_EVENTS..];
      }
      streams := PushToSubscribers(streams, subs, ev);
    }

    method SubscribeStream(after: int) returns (replay: seq<Event>, c: nat, atCap: bool)
      requires Valid()
      modifies this
      ensures Valid() && View() == Subscribe(old(View()), after)
      ensures c == |old(streams)| && streams[c].replay == replay
      ensures atCap <==> !old(closed) && |old(subs)| >= MAX_SUBSCRIBERS
    {
      c := |streams|;
      replay := [];
      atCap := false;
      if closed {
        streams := streams + [Stream(after, nextId, false, [], [], [], false, true)];
        return;
      }
      if |subs| >= MAX_SUBSCRIBERS {
        streams := streams + [Stream(after, nextId, false, [], [], [], false, true)];
        atCap := true;
        return;
      }
      replay := CollectReplay(log, after);
      streams := streams + [Stream(after, nextId, true, replay, [], [], false, false)];
      subs := subs + {c};
    }

    method CancelStream(c: nat)
      requires Valid()
      modifies this
      ensures Valid() && View() == Cancel(old(View()), c)
    {
      if c in subs {
        subs := subs - {c};
      }
    }

    method CloseSession()
      requires Valid()
      modifies this
      ensures Valid() && View() == Close(old(View()))
    {
      if closed {
        return;
      }
      closed := true;
      while subs != {}
        invariant subs <= old(subs) && closed && nextId == old(nextId) && log == old(log)
        invariant streams == CloseAll(old(streams), old(subs) - subs)
        decreases subs
      {
        var c :| c in subs;
        streams := streams[c := streams[c].(closed := true)];
        subs := subs - {c};
      }
      assert old(subs) - subs == old(subs);
    }
  }

  // ----- every run

  datatype Step =
    | BroadcastStep(data: string)
    | SubscribeStep(after: int)
    | CancelStep(c: nat)
    | CloseStep
    | ReceiveStep(c: nat)

  function Start(): State { State(Session(0, [], [], {}, false), [], false) }

  predicate Enabled(s: State, step: Step) {
    match step
    case SubscribeStep(_) => s.session.nextId >= 0
    case ReceiveStep(c) => c < |s.session.streams| && s.session.streams[c].buf != []
    case _ => true
  }

  /** Sending on, or closing, an already closed channel would panic. */
  predicate TouchesClosed(s: Session) {
    exists c :: c in s.subs && c < |s.streams| && s.streams[c].closed
  }

  function Apply(s: State, step: Step): State
    requires Enabled(s, step)
  {
    match step
    case BroadcastStep(data) =>
      State(Broadcast(s.session, data),
            if s.session.closed then s.history else s.history + [Event(s.session.nextId + 1, data)],
            s.panicked || TouchesClosed(s.session))
    case SubscribeStep(after) => s.(session := Subscribe(s.session, after))
    case CancelStep(c) => s.(session := Cancel(s.session, c))
    case CloseStep => s.(session := Close(s.session), panicked := s.panicked || TouchesClosed(s.session))
    case ReceiveStep(c) => s.(session := Receive(s.session, c))
  }

  ghost predicate Reaches(s: State, steps: seq<Step>, t: State)
    decreases |steps|
  {
    if steps == [] then s == t
    else Enabled(s, steps[0]) && Reaches(Apply(s, steps[0]), steps[1..], t)
  }

  function Min(a: int, b: int): int { if a < b then a else b }
  function Max(a: int, b: int): int { if a < b then b else a }

  /** Position in the history just before the first event a stream is replayed. */
  function ReplayFrom(after: int, base: int): int {
    if after >= base then base else Max(after, base - Min(base, MAX_LOG_EVENTS))
  }

  /** Everything the stream was or will be handed, in order. */
  function Handed(st: Stream): seq<Event> { st.replay + st.received + st.buf }

  function Live(st: Stream): seq<Event> { st.received + st.buf }

  ghost predicate IdAt(history: seq<Event>, i: int) {
    0 <= i < |history| ==> history[i].id == i + 1
  }

  /** Ids are the positions in the history. */
  ghost predicate Numbered(history: seq<Event>) {
    forall i :: IdAt(history, i)
  }

  /** The log is the history's tail of at most `MAX_LOG_EVENTS` events. */
  function Tail(history: seq<Event>): seq<Event> {
    history[|history| - Min(|history|, MAX_LOG_EVENTS)..]
  }

  ghost predicate LogIsTail(s: State) {
    s.session.nextId == |s.history| && Numbered(s.history) && s.session.log == Tail(s.history)
  }

  ghost predicate Before(evs: seq<Event>, i: int, j: int) {
    0 <= i < j < |evs| ==> evs[i].id < evs[j].id
  }

  ghost predicate Increasing(evs: seq<Event>) {
    forall i, j :: Before(evs, i, j)
  }

  ghost predicate EventFrom(history: seq<Event>, evs: seq<Event>, lo: int, i: int) {
    0 <= i < |evs| ==> lo < evs[i].id <= |history| && 0 < evs[i].id && evs[i] == history[evs[i].id - 1]
  }

  /** Every event is the one published under its id, later than `lo`. */
  ghost predicate FromHistory(history: seq<Event>, evs: seq<Event>, lo: int) {
    forall i :: EventFrom(history, evs, lo, i)
  }

  /** The stretch of history from position `lo` to position `hi`. */
  function Stretch(history: seq<Event>, lo: int, hi: int): seq<Event> {
    if 0 <= lo <= hi <= |history| then history[lo..hi] else []
  }

  ghost predicate ReplayOk(history: seq<Event>, st: Stream, subscribed: bool) {
    && st.base <= |history|
    && st.replay == (if st.granted then Stretch(history, ReplayFrom(st.after, st.base), st.base) else [])
    && (!st.granted ==> Live(st) == [])
    && (subscribed ==> !st.closed && st.granted)
  }

  /** A channel starts empty, so the first event after the subscription always gets in. */
  ghost predicate StartsAtOnce(base: nat, live: seq<Event>, skipped: bool) {
    && (live != [] ==> live[0].id == base + 1)
    && (skipped ==> live != [])
  }

  /** Until it overflows a channel gets every event, and is up to date while subscribed. */
  ghost predicate Unbroken(history: seq<Event>, base: nat, live: seq<Event>, skipped: bool, subscribed: bool) {
    && (!skipped ==> base + |live| <= |history| && live == Stretch(history, base, base + |live|))
    && (!skipped && subscribed ==> base + |live| == |history|)
  }

  ghost predicate LiveOk(history: seq<Event>, base: nat, live: seq<Event>, skipped: bool, subscribed: bool) {
    && FromHistory(history, live, base) && Increasing(live)
    && StartsAtOnce(base, live, skipped)
    && Unbroken(history, base, live, skipped, subscribed)
  }

  ghost predicate StreamOk(history: seq<Event>, st: Stream, subscribed: bool) {
    ReplayOk(history, st, subscribed) && LiveOk(history, st.base, Live(st), st.skipped, subscribed)
  }

  ghost predicate OkAt(history: seq<Event>, streams: seq<Stream>, subs: set<nat>, c: nat) {
    c < |streams| ==> StreamOk(history, streams[c], c in subs)
  }

  ghost predicate AllOk(history: seq<Event>, streams: seq<Stream>, subs: set<nat>) {
    forall c: nat :: OkAt(history, streams, subs, c)
  }

  ghost predicate Registered(streams: seq<Stream>, subs: set<nat>, closed: bool) {
    && (forall c :: c in subs ==> c < |streams|)
    && |subs| <= MAX_SUBSCRIBERS
    && (closed ==> subs == {})
  }

  ghost predicate StreamsOk(s: State) {
    && Registered(s.session.streams, s.session.subs, s.session.closed)
    && AllOk(s.history, s.session.streams, s.session.subs)
  }

  ghost predicate Inv(s: State) {
    LogIsTail(s) && StreamsOk(s) && !s.panicked
  }

  ghost predicate NthId(log: seq<Event>, first: int, i: int) {
    0 <= i < |log| ==> log[i].id == first + i
  }

  ghost predicate Consecutive(log: seq<Event>, first: int) {
    forall i :: NthId(log, first, i)
  }

  lemma ConsecutiveRest(log: seq<Event>, first: int)
    requires log != [] && Consecutive(log, first)
    ensures log[0].id == first && Consecutive(log[1..], first + 1)
  {
    var rest, second := log[1..], first + 1;
    assert NthId(log, first, 0);
    forall i ensures NthId(rest, second, i) {
      assert NthId(log, first, i + 1);
    }
  }

  lemma {:induction false} AllLater(log: seq<Event>, after: int, first: int)
    requires Consecutive(log, first) && first > after
    ensures EventsAfter(log, after) == log
  {
    if log != [] {
      ConsecutiveRest(log, first);
      AllLater(log[1..], after, first + 1);
      assert log == [log[0]] + log[1..];
    }
  }

  /** How many of `n` events with ids from `first` on are not after the given id. */
  function Skipped(n: nat, after: int, first: int): nat { Min(n, Max(0, after - first + 1)) }

  lemma {:induction false} EventsAfterTail(log: seq<Event>, after: int, first: int)
    requires Consecutive(log, first)
    ensures EventsAfter(log, after) == log[Skipped(|log|, after, first)..]
  {
    if log != [] {
      if first > after {
        AllLater(log, after, first);
        assert log[0..] == log;
      } else {
        ConsecutiveRest(log, first);
        EventsAfterTail(log[1..], after, first + 1);
        DropDrop(log, 1, Skipped(|log| - 1, after, first + 1));
        assert [] + EventsAfter(log[1..], after) == EventsAfter(log[1..], after);
      }
    }
  }

  lemma TailIds(history: seq<Event>)
    requires Numbered(history)
    ensures Consecutive(Tail(history), |history| - |Tail(history)| + 1)
  {
    var n, w := |history|, |Tail(history)|;
    var tail, first := Tail(history), n - w + 1;
    forall i ensures NthId(tail, first, i) {
      assert IdAt(history, n - w + i);
    }
  }

  /** The replay is the part of the history after the client's last id, as far as it is retained. */
  lemma ReplayIsHistorySlice(history: seq<Event>, after: int)
    requires Numbered(history)
    ensures EventsAfter(Tail(history), after) == Stretch(history, ReplayFrom(after, |history|), |history|)
  {
    var n := |history|;
    var w := Min(n, MAX_LOG_EVENTS);
    TailIds(history);
    EventsAfterTail(Tail(history), after, n - w + 1);
    DropDrop(history, n - w, Skipped(w, after, n - w + 1));
    assert n - w + Skipped(w, after, n - w + 1) == ReplayFrom(after, n);
    StretchToEnd(history, ReplayFrom(after, n));
  }

  lemma StretchToEnd(history: seq<Event>, lo: nat)
    requires lo <= |history|
    ensures Stretch(history, lo, |history|) == history[lo..]
  {
  }

  lemma DropDrop(evs: seq<Event>, a: nat, b: nat)
    requires a + b <= |evs|
    ensures evs[a..][b..] == evs[a + b..]
  {
  }

  lemma StretchGrows(history: seq<Event>, ev: Event, lo: int, hi: int)
    requires hi <= |history|
    ensures Stretch(history + [ev], lo, hi) == Stretch(history, lo, hi)
  {
  }

  lemma AppendFromHistory(history: seq<Event>, base: nat, live: seq<Event>, ev: Event)
    requires FromHistory(history, live, base) && base <= |history| && ev.id == |history| + 1
    ensures FromHistory(history + [ev], live + [ev], base)
  {
    forall i ensures EventFrom(history + [ev], live + [ev], base, i) {
      assert EventFrom(history, live, base, i);
    }
  }

  lemma GrowFromHistory(history: seq<Event>, base: nat, live: seq<Event>, ev: Event)
    requires FromHistory(history, live, base)
    ensures FromHistory(history + [ev], live, base)
  {
    forall i ensures EventFrom(history + [ev], live, base, i) {
      assert EventFrom(history, live, base, i);
    }
  }

  lemma AppendIncreases(history: seq<Event>, base: nat, live: seq<Event>, ev: Event)
    requires FromHistory(history, live, base) && Increasing(live) && ev.id == |history| + 1
    ensures Increasing(live + [ev])
  {
    forall i, j ensures Before(live + [ev], i, j) {
      assert Before(live, i, j) && EventFrom(history, live, base, i);
    }
  }

  lemma AppendUnbroken(history: seq<Event>, base: nat, live: seq<Event>, skipped: bool, ev: Event)
    requires Unbroken(history, base, live, skipped, true) && base <= |history|
    ensures Unbroken(history + [ev], base, live + [ev], skipped, true)
  {
    if !skipped {
      var n := |history|;
      assert live == history[base..n];
      assert (history + [ev])[base..n + 1] == history[base..n] + [ev];
    }
  }

  lemma LiveAppend(history: seq<Event>, base: nat, live: seq<Event>, skipped: bool, ev: Event)
    requires LiveOk(history, base, live, skipped, true) && base <= |history| && ev.id == |history| + 1
    ensures LiveOk(history + [ev], base, live + [ev], skipped, true)
  {
    AppendFromHistory(history, base, live, ev);
    AppendIncreases(history, base, live, ev);
    AppendUnbroken(history, base, live, skipped, ev);
    assert StartsAtOnce(base, live + [ev], skipped);
  }

  lemma LiveUnchanged(history: seq<Event>, base: nat, live: seq<Event>, skipped: bool, subscribed: bool, ev: Event)
    requires LiveOk(history, base, live, skipped, subscribed)
    ensures LiveOk(history + [ev], base, live, skipped, false)
    ensures live != [] ==> LiveOk(history + [ev], base, live, true, true)
  {
    GrowFromHistory(history, base, live, ev);
    if !skipped {
      StretchGrows(history, ev, base, base + |live|);
    }
  }

  lemma OfferOk(history: seq<Event>, st: Stream, data: string)
    requires StreamOk(history, st, true)
    ensures StreamOk(history + [Event(|history| + 1, data)], Offer(st, Event(|history| + 1, data)), true)
  {
    var ev := Event(|history| + 1, data);
    StretchGrows(history, ev, ReplayFrom(st.after, st.base), st.base);
    if |st.buf| < CHANNEL_BUFFER {
      LiveAppend(history, st.base, Live(st), st.skipped, ev);
      assert Live(Offer(st, ev)) == Live(st) + [ev];
    } else {
      LiveUnchanged(history, st.base, Live(st), st.skipped, true, ev);
    }
  }

  lemma IdleOk(history: seq<Event>, st: Stream, ev: Event)
    requires StreamOk(history, st, false)
    ensures StreamOk(history + [ev], st, false)
  {
    StretchGrows(history, ev, ReplayFrom(st.after, st.base), st.base);
    LiveUnchanged(history, st.base, Live(st), st.skipped, false, ev);
  }

  lemma AppendNumbered(history: seq<Event>, ev: Event)
    requires Numbered(history) && ev.id == |history| + 1
    ensures Numbered(history + [ev])
  {
    forall i ensures IdAt(history + [ev], i) {
      assert IdAt(history, i);
    }
  }

  /** Trimming after an append keeps the newest events. */
  lemma TrimTail(history: seq<Event>, ev: Event)
    ensures Trim(Tail(history) + [ev]) == Tail(history + [ev])
  {
  }

  lemma AppendKeepsTail(s: State, data: string)
    requires LogIsTail(s) && !s.session.closed
    ensures LogIsTail(Apply(s, BroadcastStep(data)))
  {
    var ev := Event(s.session.nextId + 1, data);
    AppendNumbered(s.history, ev);
    TrimTail(s.history, ev);
  }

  lemma OfferAllOk(history: seq<Event>, streams: seq<Stream>, subs: set<nat>, data: string)
    requires AllOk(history, streams, subs)
    ensures AllOk(history + [Event(|history| + 1, data)], OfferAll(streams, subs, Event(|history| + 1, data)), subs)
  {
    var ev := Event(|history| + 1, data);
    forall c: nat ensures OkAt(history + [ev], OfferAll(streams, subs, ev), subs, c) {
      assert OkAt(history, streams, subs, c);
      if c < |streams| && c in subs {
        OfferOk(history, streams[c], data);
      } else if c < |streams| {
        IdleOk(history, streams[c], ev);
      }
    }
  }

  lemma BroadcastPreserves(s: State, data: string)
    requires Inv(s)
    ensures Inv(Apply(s, BroadcastStep(data)))
  {
    NoneClosed(s);
    if !s.session.closed {
      AppendKeepsTail(s, data);
      OfferAllOk(s.history, s.session.streams, s.session.subs, data);
    }
  }

  lemma NoneClosed(s: State)
    requires StreamsOk(s)
    ensures !TouchesClosed(s.session)
  {
    forall c | c in s.session.subs && c < |s.session.streams| ensures !s.session.streams[c].closed {
      assert OkAt(s.history, s.session.streams, s.session.subs, c);
    }
  }

  /** Leaving the subscriber set, closed or not, keeps what a stream was handed in order. */
  lemma DetachOk(history: seq<Event>, st: Stream, subscribed: bool, closed: bool)
    requires StreamOk(history, st, subscribed)
    ensures StreamOk(history, st.(closed := closed), false) && StreamOk(history, st, false)
  {
    assert Live(st.(closed := closed)) == Live(st);
  }

  lemma AllOkWithout(history: seq<Event>, streams: seq<Stream>, subs: set<nat>, fewer: set<nat>)
    requires AllOk(history, streams, subs) && fewer <= subs
    ensures AllOk(history, streams, fewer)
  {
    forall i: nat ensures OkAt(history, streams, fewer, i) {
      assert OkAt(history, streams, subs, i);
      if i < |streams| {
        DetachOk(history, streams[i], i in subs, true);
      }
    }
  }

  lemma CancelPreserves(s: State, c: nat)
    requires Inv(s)
    ensures Inv(Apply(s, CancelStep(c)))
  {
    AllOkWithout(s.history, s.session.streams, s.session.subs, s.session.subs - {c});
    RemoveShrinks(s.session.subs, c);
  }

  lemma RemoveShrinks(subs: set<nat>, c: nat)
    ensures |subs - {c}| <= |subs|
  {
    if c in subs {
      assert subs - {c} + {c} == subs;
    } else {
      assert subs - {c} == subs;
    }
  }

  lemma AllOkClosed(history: seq<Event>, streams: seq<Stream>, subs: set<nat>)
    requires AllOk(history, streams, subs)
    ensures AllOk(history, CloseAll(streams, subs), {})
  {
    forall i: nat ensures OkAt(history, CloseAll(streams, subs), {}, i) {
      assert OkAt(history, streams, subs, i);
      if i < |streams| {
        DetachOk(history, streams[i], i in subs, true);
      }
    }
  }

  lemma ClosePreserves(s: State)
    requires Inv(s)
    ensures Inv(Apply(s, CloseStep))
  {
    NoneClosed(s);
    AllOkClosed(s.history, s.session.streams, s.session.subs);
  }

  lemma ReceiveOk(history: seq<Event>, st: Stream, subscribed: bool)
    requires StreamOk(history, st, subscribed) && st.buf != []
    ensures StreamOk(history, st.(received := st.received + [st.buf[0]], buf := st.buf[1..]), subscribed)
  {
    assert Live(st.(received := st.received + [st.buf[0]], buf := st.buf[1..])) == Live(st);
  }

  lemma NewStreamOk(history: seq<Event>, after: int, replay: seq<Event>, granted: bool)
    requires replay == if granted then Stretch(history, ReplayFrom(after, |history|), |history|) else []
    ensures StreamOk(history, Stream(after, |history|, granted, replay, [], [], false, !granted), granted)
  {
  }

  lemma SubscribePreserves(s: State, after: int)
    requires Inv(s)
    ensures Inv(Apply(s, SubscribeStep(after)))
  {
    var granted := !s.session.closed && |s.session.subs| < MAX_SUBSCRIBERS;
    var replay := if granted then EventsAfter(s.session.log, after) else [];
    var st := Stream(after, |s.history|, granted, replay, [], [], false, !granted);
    ReplayIsHistorySlice(s.history, after);
    NewStreamOk(s.history, after, replay, granted);
    AllOkSnoc(s.history, s.session.streams, s.session.subs, st, granted);
    RegisteredSnoc(s.session.streams, s.session.subs, s.session.closed, st);
    assert Apply(s, SubscribeStep(after)).session.streams == s.session.streams + [st];
  }

  lemma RegisteredSnoc(streams: seq<Stream>, subs: set<nat>, closed: bool, st: Stream)
    requires Registered(streams, subs, closed)
    ensures Registered(streams + [st], subs, closed) && |streams| !in subs
    ensures !closed && |subs| < MAX_SUBSCRIBERS ==> Registered(streams + [st], subs + {|streams|}, closed)
  {
  }

  lemma AllOkSnoc(history: seq<Event>, streams: seq<Stream>, subs: set<nat>, st: Stream, granted: bool)
    requires AllOk(history, streams, subs) && StreamOk(history, st, granted) && |streams| !in subs
    ensures AllOk(history, streams + [st], if granted then subs + {|streams|} else subs)
  {
    var all := if granted then subs + {|streams|} else subs;
    forall i: nat ensures OkAt(history, streams + [st], all, i) {
      assert OkAt(history, streams, subs, i);
    }
  }

  lemma ReceivePreserves(s: State, c: nat)
    requires Inv(s) && Enabled(s, ReceiveStep(c))
    ensures Inv(Apply(s, ReceiveStep(c)))
  {
    AllOkReceived(s.history, s.session.streams, s.session.subs, c);
  }

  lemma AllOkReceived(history: seq<Event>, streams: seq<Stream>, subs: set<nat>, c: nat)
    requires AllOk(history, streams, subs) && c < |streams| && streams[c].buf != []
    ensures var st := streams[c];
            AllOk(history, streams[c := st.(received := st.received + [st.buf[0]], buf := st.buf[1..])], subs)
  {
    var st := streams[c];
    var after := streams[c := st.(received := st.received + [st.buf[0]], buf := st.buf[1..])];
    forall i: nat ensures OkAt(history, after, subs, i) {
      assert OkAt(history, streams, subs, i);
      if i == c {
        ReceiveOk(history, st, c in subs);
      }
    }
  }

  lemma StepPreserves(s: State, step: Step)
    requires Inv(s) && Enabled(s, step)
    ensures Inv(Apply(s, step))
  {
    match step
    case BroadcastStep(data) => BroadcastPreserves(s, data);
    case SubscribeStep(after) => SubscribePreserves(s, after);
    case CancelStep(c) => CancelPreserves(s, c);
    case CloseStep => ClosePreserves(s);
    case ReceiveStep(c) => ReceivePreserves(s, c);
  }

  lemma {:induction false} RunPreserves(s: State, steps: seq<Step>, t: State)
    requires Inv(s) && Reaches(s, steps, t)
    ensures Inv(t)
    decreases |steps|
  {
    if steps != [] {
      StepPreserves(s, steps[0]);
      RunPreserves(Apply(s, steps[0]), steps[1..], t);
    }
  }

  // ----- what every run guarantees

  /** The log is the contiguous id block ending at the counter, of length min(counter, 1024). */
  lemma LogIsContiguousBlock(steps: seq<Step>, t: State)
    requires Reaches(Start(), steps, t)
    ensures |t.session.log| == Min(t.session.nextId, MAX_LOG_EVENTS)
    ensures forall i :: 0 <= i < |t.session.log| ==> t.session.log[i].id == t.session.nextId - |t.session.log| + 1 + i
    ensures !t.panicked && |t.session.subs| <= MAX_SUBSCRIBERS
  {
    RunPreserves(Start(), steps, t);
    TailIsBlock(t);
  }

  lemma TailIsBlock(s: State)
    requires LogIsTail(s)
    ensures |s.session.log| == Min(s.session.nextId, MAX_LOG_EVENTS)
    ensures forall i :: 0 <= i < |s.session.log| ==> s.session.log[i].id == s.session.nextId - |s.session.log| + 1 + i
  {
    TailIds(s.history);
    forall i | 0 <= i < |s.session.log| ensures s.session.log[i].id == s.session.nextId - |s.session.log| + 1 + i {
      assert NthId(s.session.log, s.session.nextId - |s.session.log| + 1, i);
    }
  }

  /**
   Replay followed by live events never repeats or reorders. Until the channel has overflowed it is an unbroken
   stretch of the history from the start of the retained window, also after the stream was cancelled or closed, and
   while subscribed it reaches to the newest event.
   */
  lemma StreamsAreGapless(steps: seq<Step>, t: State, c: nat)
    requires Reaches(Start(), steps, t) && c < |t.session.streams|
    ensures var st := t.session.streams[c];
            Increasing(Handed(st))
    ensures var st := t.session.streams[c];
            if !st.granted then Handed(st) == []
            else !st.skipped ==>
              Handed(st) == Stretch(t.history, ReplayFrom(st.after, st.base), st.base + |Live(st)|)
    ensures var st := t.session.streams[c];
            c in t.session.subs && !st.skipped ==> st.granted && st.base + |Live(st)| == |t.history|
  {
    RunPreserves(Start(), steps, t);
    assert OkAt(t.history, t.session.streams, t.session.subs, c);
    StreamIsGapless(t.history, t.session.streams[c], c in t.session.subs);
  }

  lemma StreamIsGapless(history: seq<Event>, st: Stream, subscribed: bool)
    requires Numbered(history) && StreamOk(history, st, subscribed)
    ensures Increasing(Handed(st))
    ensures if !st.granted then Handed(st) == []
            else !st.skipped ==> Handed(st) == Stretch(history, ReplayFrom(st.after, st.base), st.base + |Live(st)|)
    ensures subscribed && !st.skipped ==> st.granted && st.base + |Live(st)| == |history|
  {
    HandedIncreases(history, st, subscribed);
    HandedSplit(st);
    if st.granted && !st.skipped {
      HandedIsStretch(history, st, subscribed);
    }
  }

  /** Events of a stretch of the history have the ids of their positions. */
  lemma StretchIds(history: seq<Event>, lo: int, hi: int, i: int)
    requires Numbered(history) && 0 <= i < |Stretch(history, lo, hi)|
    ensures Stretch(history, lo, hi)[i].id == lo + i + 1 <= hi
  {
    assert IdAt(history, lo + i);
  }

  lemma HandedIncreases(history: seq<Event>, st: Stream, subscribed: bool)
    requires Numbered(history) && StreamOk(history, st, subscribed)
    ensures Increasing(Handed(st))
  {
    JoinedIncreases(history, st.replay, ReplayFrom(st.after, st.base), st.base, Live(st));
    HandedSplit(st);
  }

  lemma JoinedIncreases(history: seq<Event>, replay: seq<Event>, from: int, base: nat, live: seq<Event>)
    requires Numbered(history) && (replay == [] || replay == Stretch(history, from, base))
    requires FromHistory(history, live, base) && Increasing(live)
    ensures Increasing(replay + live)
  {
    var evs, n := replay + live, |replay|;
    forall i, j ensures Before(evs, i, j) {
      if 0 <= i < j < |evs| {
        assert Before(live, i - n, j - n) && EventFrom(history, live, base, j - n);
        if i < n {
          StretchIds(history, from, base, i);
        }
        if j < n {
          StretchIds(history, from, base, j);
        }
      }
    }
  }

  lemma HandedIsStretch(history: seq<Event>, st: Stream, subscribed: bool)
    requires ReplayOk(history, st, subscribed) && Unbroken(history, st.base, Live(st), st.skipped, subscribed)
    requires st.granted && !st.skipped
    ensures Handed(st) == Stretch(history, ReplayFrom(st.after, st.base), st.base + |Live(st)|)
  {
    HandedSplit(st);
    JoinStretches(history, ReplayFrom(st.after, st.base), st.base, st.base + |Live(st)|);
  }

  lemma HandedSplit(st: Stream)
    ensures Handed(st) == st.replay + Live(st)
  {
  }

  lemma JoinStretches(history: seq<Event>, a: nat, b: nat, c: nat)
    requires a <= b <= c <= |history|
    ensures Stretch(history, a, b) + Stretch(history, b, c) == Stretch(history, a, c)
  {
  }

  /**
   A stream hands over no event the client already has exactly when the client did not claim an id from the future,
   or nothing was published since.
   */
  lemma NoStaleEventsIff(steps: seq<Step>, t: State, c: nat)
    requires Reaches(Start(), steps, t) && c < |t.session.streams|
    ensures var st := t.session.streams[c];
            AllAfter(Handed(st), st.after) <==> st.after <= st.base || Live(st) == []
  {
    RunPreserves(Start(), steps, t);
    assert OkAt(t.history, t.session.streams, t.session.subs, c);
    NoStaleIff(t.history, t.session.streams[c], c in t.session.subs);
  }

  ghost predicate AfterAt(evs: seq<Event>, after: int, i: int) {
    0 <= i < |evs| ==> evs[i].id > after
  }

  ghost predicate AllAfter(evs: seq<Event>, after: int) {
    forall i :: AfterAt(evs, after, i)
  }

  lemma NoStaleIff(history: seq<Event>, st: Stream, subscribed: bool)
    requires Numbered(history) && StreamOk(history, st, subscribed)
    ensures AllAfter(Handed(st), st.after) <==> st.after <= st.base || Live(st) == []
  {
    var evs, live, n := Handed(st), Live(st), |st.replay|;
    HandedSplit(st);
    if live != [] && st.after > st.base {
      assert !AfterAt(evs, st.after, n);
    } else {
      forall i ensures AfterAt(evs, st.after, i) {
        assert EventFrom(history, live, st.base, i - n);
        if 0 <= i < n {
          StretchIds(history, ReplayFrom(st.after, st.base), st.base, i);
        }
      }
    }
  }

  /** Resuming after `after` loses nothing exactly when that id is still within the retained window. */
  lemma ResumeIsGaplessIff(steps: seq<Step>, t: State, after: int)
    requires Reaches(Start(), steps, t) && 0 <= after <= t.session.nextId
    ensures EventsAfter(t.session.log, after) == Stretch(t.history, after, |t.history|) <==>
              after >= t.session.nextId - MAX_LOG_EVENTS
  {
    RunPreserves(Start(), steps, t);
    ResumeIff(t.history, after);
  }

  lemma ResumeIff(history: seq<Event>, after: nat)
    requires Numbered(history) && after <= |history|
    ensures EventsAfter(Tail(history), after) == Stretch(history, after, |history|) <==>
              after >= |history| - MAX_LOG_EVENTS
  {
    ReplayIsHistorySlice(history, after);
    SuffixIff(history, ReplayFrom(after, |history|), after);
  }

  lemma SuffixIff(history: seq<Event>, from: nat, after: nat)
    requires from <= |history| && after <= |history|
    ensures Stretch(history, from, |history|) == Stretch(history, after, |history|) <==> from == after
  {
    assert |Stretch(history, from, |history|)| == |history| - from;
    assert |Stretch(history, after, |history|)| == |history| - after;
  }
}
