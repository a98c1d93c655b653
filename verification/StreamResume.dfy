/** What a client gets by resuming a stream: which ids it may name, and what happens to events its channel skipped. */
module StreamResume {
  import opened StreamableSession

  // ----- runs

  lemma RunCons(s: State, step: Step, steps: seq<Step>, u: State)
    requires Enabled(s, step) && Reaches(Apply(s, step), steps, u)
    ensures Reaches(s, [step] + steps, u)
  {
    assert ([step] + steps)[1..] == steps;
  }

  lemma OneStep(s: State, step: Step)
    requires Enabled(s, step)
    ensures Reaches(s, [step], Apply(s, step))
  {
    assert [step][1..] == [];
  }

  // ----- an id from the future

  lemma {:induction false} StreamKept(s: State, steps: seq<Step>, u: State, c: nat)
    requires Reaches(s, steps, u) && c < |s.session.streams|
    ensures c < |u.session.streams|
    ensures u.session.streams[c].after == s.session.streams[c].after
            && u.session.streams[c].base == s.session.streams[c].base
    decreases |steps|
  {
    if steps != [] {
      StreamKept(Apply(s, steps[0]), steps[1..], u, c);
    }
  }

  /** However the run goes on, the stream only hands over events after the id. */
  ghost predicate OnlyNewer(s: State, c: nat, after: int) {
    forall more, u :: Reaches(s, more, u) ==> c < |u.session.streams| && AllAfter(Handed(u.session.streams[c]), after)
  }

  lemma StaysNew(s: State, c: nat)
    requires Inv(s) && c < |s.session.streams| && s.session.streams[c].after <= s.session.streams[c].base
    ensures OnlyNewer(s, c, s.session.streams[c].after)
  {
    forall more, u | Reaches(s, more, u)
      ensures c < |u.session.streams| && AllAfter(Handed(u.session.streams[c]), s.session.streams[c].after)
    {
      StreamKept(s, more, u, c);
      RunPreserves(s, more, u);
      assert OkAt(u.history, u.session.streams, u.session.subs, c);
      NoStaleIff(u.history, u.session.streams[c], c in u.session.subs);
    }
  }

  /** The next event goes to a new stream although its id is not after the one named. */
  lemma NextIsStale(st: Stream, ev: Event, after: int)
    requires st.received == [] && st.buf == [] && ev.id <= after
    ensures Handed(Offer(st, ev)) == st.replay + [ev] && !AllAfter(Handed(Offer(st, ev)), after)
  {
    assert Handed(Offer(st, ev)) == st.replay + [ev];
    assert !AfterAt(Handed(Offer(st, ev)), after, |st.replay|);
  }

  lemma GoesStale(s: State, c: nat, after: int)
    requires !s.session.closed && c < |s.session.streams| && c in s.session.subs && after > s.session.nextId
    requires s.session.streams[c].received == [] && s.session.streams[c].buf == []
    ensures !OnlyNewer(s, c, after)
  {
    var u := Apply(s, BroadcastStep(""));
    OneStep(s, BroadcastStep(""));
    NextIsStale(s.session.streams[c], Event(s.session.nextId + 1, ""), after);
    assert u.session.streams[c] == Offer(s.session.streams[c], Event(s.session.nextId + 1, ""));
  }

  /**
   A client that subscribes to an open session with room gets, in every continuation, only events after the id it
   named, if and only if that id is not beyond the newest one.
   */
  lemma NeverStaleIff(steps: seq<Step>, t: State, after: int)
    requires Reaches(Start(), steps, t) && !t.session.closed && |t.session.subs| < MAX_SUBSCRIBERS
    ensures t.session.nextId >= 0
    ensures OnlyNewer(Apply(t, SubscribeStep(after)), |t.session.streams|, after) <==> after <= t.session.nextId
  {
    RunPreserves(Start(), steps, t);
    SubscribePreserves(t, after);
    var s, c := Apply(t, SubscribeStep(after)), |t.session.streams|;
    NewStream(t.session, after);
    if after <= t.session.nextId {
      StaysNew(s, c);
    } else {
      GoesStale(s, c, after);
    }
  }

  lemma NewStream(s: Session, after: int)
    requires s.nextId >= 0 && !s.closed && |s.subs| < MAX_SUBSCRIBERS
    ensures var u, c := Subscribe(s, after), |s.streams|;
            && |u.streams| == c + 1 && c in u.subs && !u.closed && u.nextId == s.nextId
            && u.streams[c] == Stream(after, s.nextId, true, EventsAfter(s.log, after), [], [], false, false)
  {
  }

  /** For example: a client of a new session that names id 5 is then sent event 1. */
  lemma FutureIdGetsStaleEvent()
    ensures var s := Apply(Start(), SubscribeStep(5));
            !OnlyNewer(s, 0, 5) && Handed(Apply(s, BroadcastStep("x")).session.streams[0]) == [Event(1, "x")]
  {
    var s := Apply(Start(), SubscribeStep(5));
    NewStream(Start().session, 5);
    GoesStale(s, 0, 5);
    NextIsStale(s.session.streams[0], Event(1, "x"), 5);
    assert Apply(s, BroadcastStep("x")).session.streams[0] == Offer(s.session.streams[0], Event(1, "x"));
    assert [] + [Event(1, "x")] == [Event(1, "x")];
  }

  // ----- skipped events

  /** The id a client reconnects with: that of the last event it read, or the one it subscribed with. */
  function LastId(st: Stream): int {
    if st.received != [] then st.received[|st.received| - 1].id
    else if st.replay != [] then st.replay[|st.replay| - 1].id
    else st.after
  }

  /** Every event from position `base` on is among `got`. */
  ghost predicate Complete(history: seq<Event>, base: int, got: seq<Event>) {
    forall i :: HasEvent(history, base, got, i)
  }

  ghost predicate HasEvent(history: seq<Event>, base: int, got: seq<Event>, i: int) {
    0 <= base <= i < |history| ==> history[i] in got
  }

  lemma InReplayIff(history: seq<Event>, last: int, i: int)
    requires Numbered(history) && 0 <= i < |history|
    ensures history[i] in EventsAfter(Tail(history), last) <==> i >= ReplayFrom(last, |history|)
  {
    var n := |history|;
    var from := ReplayFrom(last, n);
    var replay := EventsAfter(Tail(history), last);
    ReplayIsHistorySlice(history, last);
    assert replay == history[from..n];
    if i >= from {
      assert replay[i - from] == history[i];
    } else {
      forall j | 0 <= j < |replay| ensures replay[j] != history[i] {
        assert IdAt(history, i) && IdAt(history, from + j);
      }
    }
  }

  /** Increasing ids from `base + 1` on grow at least by one. */
  lemma {:induction false} IdsGrow(read: seq<Event>, base: int, i: nat)
    requires Increasing(read) && i < |read| && read[0].id == base + 1
    ensures read[i].id >= base + 1 + i
  {
    if i > 0 {
      IdsGrow(read, base, i - 1);
      assert Before(read, i - 1, i);
    }
  }

  /** They grow exactly by one when there are as many as the last one says. */
  lemma {:induction false} IdsConsecutive(read: seq<Event>, base: int, i: nat)
    requires Increasing(read) && i < |read| && read[0].id == base + 1 && read[|read| - 1].id == base + |read|
    ensures read[i].id == base + 1 + i
    decreases |read| - i
  {
    IdsGrow(read, base, i);
    if i + 1 < |read| {
      IdsConsecutive(read, base, i + 1);
      assert Before(read, i, i + 1);
    }
  }

  /** An id between two neighbours was not read. */
  lemma GapIsMissing(history: seq<Event>, read: seq<Event>, i: nat, k: nat)
    requires Numbered(history) && Increasing(read) && 0 < i < |read| && k < |history|
    requires read[i - 1].id < k + 1 < read[i].id
    ensures history[k] !in read
  {
    forall j | 0 <= j < |read| ensures read[j] != history[k] {
      assert IdAt(history, k);
      assert Before(read, j, i - 1) && Before(read, i, j);
    }
  }

  /** If nothing up to the last id is missing, there are as many as the last one says. */
  lemma {:induction false} NoneMissing(history: seq<Event>, base: nat, read: seq<Event>, i: nat)
    requires Numbered(history) && FromHistory(history, read, base) && Increasing(read) && i < |read|
    requires read[0].id == base + 1
    requires forall k :: base <= k < read[|read| - 1].id && k < |history| ==> history[k] in read
    ensures read[i].id == base + 1 + i
  {
    if i > 0 {
      NoneMissing(history, base, read, i - 1);
      assert Before(read, i - 1, i) && Before(read, i, |read| - 1);
      assert EventFrom(history, read, base, i);
      if read[i].id > base + 1 + i {
        GapIsMissing(history, read, i, base + i);
        assert false;
      }
    }
  }

  lemma RecoveredWhen(history: seq<Event>, base: nat, read: seq<Event>, last: int)
    requires Numbered(history) && FromHistory(history, read, base) && Increasing(read) && base <= last <= |history|
    requires read != [] ==> read[0].id == base + 1 && read[|read| - 1].id == last
    requires |read| == last - base && last >= |history| - MAX_LOG_EVENTS
    ensures Complete(history, base, read + EventsAfter(Tail(history), last))
  {
    var got := read + EventsAfter(Tail(history), last);
    forall i ensures HasEvent(history, base, got, i) {
      if base <= i < |history| {
        if i < last {
          IdsConsecutive(read, base, i - base);
          assert EventFrom(history, read, base, i - base);
          assert read[i - base] == history[i];
        } else {
          InReplayIff(history, last, i);
        }
      }
    }
  }

  lemma RecoveredOnlyWhen(history: seq<Event>, base: nat, read: seq<Event>, last: int)
    requires Numbered(history) && FromHistory(history, read, base) && Increasing(read) && base <= last <= |history|
    requires if read == [] then last == base else read[0].id == base + 1 && read[|read| - 1].id == last
    requires Complete(history, base, read + EventsAfter(Tail(history), last))
    ensures |read| == last - base && last >= |history| - MAX_LOG_EVENTS
  {
    var replay := EventsAfter(Tail(history), last);
    forall k | base <= k < last && k < |history| ensures history[k] in read {
      assert HasEvent(history, base, read + replay, k);
      InReplayIff(history, last, k);
    }
    if read != [] {
      NoneMissing(history, base, read, |read| - 1);
    }
    if last < |history| - MAX_LOG_EVENTS {
      assert HasEvent(history, base, read + replay, last);
      NextIsLost(history, base, read, last);
      assert false;
    }
  }

  /** The event after the last one read is neither read nor replayed once it has left the log. */
  lemma NextIsLost(history: seq<Event>, base: nat, read: seq<Event>, last: int)
    requires Numbered(history) && Increasing(read) && base <= last < |history| - MAX_LOG_EVENTS
    requires read != [] ==> read[|read| - 1].id == last
    ensures history[last] !in read + EventsAfter(Tail(history), last)
  {
    InReplayIff(history, last, last);
    forall j | 0 <= j < |read| ensures read[j] != history[last] {
      assert IdAt(history, last) && Before(read, j, |read| - 1);
    }
  }

  /** What is known of the events read from the channel, as a beginning of those handed over. */
  lemma ReadIsSound(history: seq<Event>, st: Stream, subscribed: bool)
    requires StreamOk(history, st, subscribed)
    ensures FromHistory(history, st.received, st.base) && Increasing(st.received)
    ensures st.received != [] ==> st.received[0].id == st.base + 1
  {
    var live, read := Live(st), st.received;
    forall i ensures EventFrom(history, read, st.base, i) {
      assert EventFrom(history, live, st.base, i);
      assert 0 <= i < |read| ==> live[i] == read[i];
    }
    forall i, j ensures Before(read, i, j) {
      assert Before(live, i, j);
      assert 0 <= i < j < |read| ==> live[i] == read[i] && live[j] == read[j];
    }
    if read != [] {
      assert live[0] == read[0];
    }
  }

  /** How far the client has got in the history. */
  function Reached(st: Stream): int {
    if st.received != [] then st.received[|st.received| - 1].id else st.base
  }

  /** The last event of a replay, or the id named when nothing was replayed, is where the subscription began. */
  lemma IdleLastId(history: seq<Event>, st: Stream)
    requires Numbered(history) && ReplayOk(history, st, false) && st.granted && st.after <= st.base && st.received == []
    ensures LastId(st) == st.base || (LastId(st) < st.base == 0)
  {
    if st.replay != [] {
      StretchIds(history, ReplayFrom(st.after, st.base), st.base, |st.replay| - 1);
    }
  }

  lemma SameReplay(history: seq<Event>, a: int, b: int)
    requires Numbered(history) && (a == b || a < b == 0)
    ensures EventsAfter(Tail(history), a) == EventsAfter(Tail(history), b)
  {
    ReplayIsHistorySlice(history, a);
    ReplayIsHistorySlice(history, b);
  }

  /** Reconnecting with the last id resumes from there. */
  lemma ResumesFromReached(history: seq<Event>, st: Stream)
    requires Numbered(history) && ReplayOk(history, st, false) && st.granted && st.after <= st.base
    ensures EventsAfter(Tail(history), LastId(st)) == EventsAfter(Tail(history), Reached(st))
  {
    if st.received == [] {
      IdleLastId(history, st);
    }
    SameReplay(history, LastId(st), Reached(st));
  }

  /**
   A client that reconnects with the last id it read ends up with every event published since it first subscribed if
   and only if it had skipped none before that id, so that it read as many events as the id says, and the id is still
   within the retained window. Events skipped after the last one read are replayed; earlier ones never are.
   */
  lemma ReconnectRecoversIff(steps: seq<Step>, t: State, c: nat)
    requires Reaches(Start(), steps, t) && !t.session.closed && |t.session.subs| < MAX_SUBSCRIBERS
    requires c < |t.session.streams| && t.session.streams[c].granted
    requires t.session.streams[c].after <= t.session.streams[c].base
    ensures t.session.nextId >= 0
    ensures var st := t.session.streams[c];
            var again := Subscribe(t.session, LastId(st)).streams[|t.session.streams|];
            Complete(t.history, st.base, st.received + again.replay) <==>
              |st.received| == Reached(st) - st.base && Reached(st) >= t.session.nextId - MAX_LOG_EVENTS
  {
    RunPreserves(Start(), steps, t);
    var st := t.session.streams[c];
    assert OkAt(t.history, t.session.streams, t.session.subs, c);
    RecoverIff(t.history, st, c in t.session.subs);
    NewStream(t.session, LastId(st));
  }

  lemma RecoverIff(history: seq<Event>, st: Stream, subscribed: bool)
    requires Numbered(history) && StreamOk(history, st, subscribed) && st.granted && st.after <= st.base
    ensures Complete(history, st.base, st.received + EventsAfter(Tail(history), LastId(st))) <==>
              |st.received| == Reached(st) - st.base && Reached(st) >= |history| - MAX_LOG_EVENTS
  {
    var read, last := st.received, Reached(st);
    ReadIsSound(history, st, subscribed);
    ResumesFromReached(history, st);
    assert EventFrom(history, read, st.base, |read| - 1);
    if |read| == last - st.base && last >= |history| - MAX_LOG_EVENTS {
      RecoveredWhen(history, st.base, read, last);
    }
    if Complete(history, st.base, read + EventsAfter(Tail(history), last)) {
      RecoveredOnlyWhen(history, st.base, read, last);
    }
  }

  // ----- a skipped event that is never replayed

  /** An open session whose only stream has been there from the start. */
  ghost predicate Single(s: State) {
    && !s.session.closed && s.session.nextId >= 0 && s.session.subs == {0} && |s.session.streams| == 1
    && s.session.streams[0].granted && s.session.streams[0].after == s.session.streams[0].base == 0
  }

  function Buf(s: State): seq<Event>
    requires |s.session.streams| == 1
  {
    s.session.streams[0].buf
  }

  function Read(s: State): seq<Event>
    requires |s.session.streams| == 1
  {
    s.session.streams[0].received
  }

  lemma PublishOne(s: State)
    requires Single(s)
    ensures var u := Apply(s, BroadcastStep(""));
            && Single(u) && u.session.nextId == s.session.nextId + 1 && Read(u) == Read(s)
            && Buf(u) == if |Buf(s)| < CHANNEL_BUFFER then Buf(s) + [Event(u.session.nextId, "")] else Buf(s)
  {
  }

  lemma ReadOne(s: State)
    requires Single(s) && Buf(s) != []
    ensures var u := Apply(s, ReceiveStep(0));
            && Single(u) && u.session.nextId == s.session.nextId
            && Read(u) == Read(s) + [Buf(s)[0]] && Buf(u) == Buf(s)[1..]
  {
  }

  lemma {:induction false} ReadAll(s: State) returns (steps: seq<Step>, u: State)
    requires Single(s)
    ensures Reaches(s, steps, u) && Single(u) && u.session.nextId == s.session.nextId
    ensures Buf(u) == [] && Read(u) == Read(s) + Buf(s)
    decreases |Buf(s)|
  {
    if Buf(s) == [] {
      steps, u := [], s;
    } else {
      ReadOne(s);
      steps, u := ReadAll(Apply(s, ReceiveStep(0)));
      RunCons(s, ReceiveStep(0), steps, u);
      steps := [ReceiveStep(0)] + steps;
      assert Read(s) + [Buf(s)[0]] + Buf(s)[1..] == Read(s) + Buf(s);
    }
  }

  /** From a full channel: the next event is skipped, one is read, the one after arrives, and all are read. */
  lemma SkipThenReadOn(s: State) returns (steps: seq<Step>, u: State)
    requires Single(s) && Read(s) == [] && |Buf(s)| == CHANNEL_BUFFER
    ensures Reaches(s, steps, u) && Single(u) && u.session.nextId == s.session.nextId + 2
    ensures |Read(u)| == CHANNEL_BUFFER + 1 && Read(u)[CHANNEL_BUFFER] == Event(u.session.nextId, "")
  {
    PublishOne(s);
    var skipped := Apply(s, BroadcastStep(""));
    steps, u := ReadPublishRead(skipped);
    RunCons(s, BroadcastStep(""), steps, u);
    steps := [BroadcastStep("")] + steps;
  }

  lemma ReadPublishRead(s: State) returns (steps: seq<Step>, u: State)
    requires Single(s) && Read(s) == [] && |Buf(s)| == CHANNEL_BUFFER
    ensures Reaches(s, steps, u) && Single(u) && u.session.nextId == s.session.nextId + 1
    ensures |Read(u)| == CHANNEL_BUFFER + 1 && Read(u)[CHANNEL_BUFFER] == Event(u.session.nextId, "")
  {
    ReadOne(s);
    var one := Apply(s, ReceiveStep(0));
    PublishOne(one);
    var next := Apply(one, BroadcastStep(""));
    steps, u := ReadAll(next);
    RunCons(one, BroadcastStep(""), steps, u);
    steps := [BroadcastStep("")] + steps;
    RunCons(s, ReceiveStep(0), steps, u);
    steps := [ReceiveStep(0)] + steps;
  }

  /** Fill the channel, overflow it and read on. */
  lemma {:induction false} Overflow(s: State) returns (steps: seq<Step>, u: State)
    requires Single(s) && Read(s) == [] && |Buf(s)| <= CHANNEL_BUFFER
    ensures Reaches(s, steps, u) && Single(u) && u.session.nextId == s.session.nextId + CHANNEL_BUFFER - |Buf(s)| + 2
    ensures |Read(u)| == CHANNEL_BUFFER + 1 && Read(u)[CHANNEL_BUFFER] == Event(u.session.nextId, "")
    decreases CHANNEL_BUFFER - |Buf(s)|
  {
    if |Buf(s)| == CHANNEL_BUFFER {
      steps, u := SkipThenReadOn(s);
    } else {
      PublishOne(s);
      steps, u := Overflow(Apply(s, BroadcastStep("")));
      RunCons(s, BroadcastStep(""), steps, u);
      steps := [BroadcastStep("")] + steps;
    }
  }

  lemma OverflowFromStart() returns (steps: seq<Step>, t: State)
    ensures Reaches(Start(), steps, t) && Single(t) && t.session.nextId == 66
    ensures |Read(t)| == 65 && Read(t)[64] == Event(66, "")
  {
    NewStream(Start().session, 0);
    steps, t := Overflow(Apply(Start(), SubscribeStep(0)));
    RunCons(Start(), SubscribeStep(0), steps, t);
    steps := [SubscribeStep(0)] + steps;
  }

  /**
   The channel overflows, the client reads on and gets a later event: it has 65 of 66 events, and reconnecting with the
   last id does not bring the missing one.
   */
  lemma SkippedEventIsNeverReplayed() returns (steps: seq<Step>, t: State)
    ensures Reaches(Start(), steps, t) && Single(t) && t.session.nextId == 66
    ensures |Read(t)| == 65 && LastId(t.session.streams[0]) == 66
    ensures !Complete(t.history, 0, Read(t) + Subscribe(t.session, 66).streams[1].replay)
  {
    steps, t := OverflowFromStart();
    ReconnectRecoversIff(steps, t, 0);
  }
}
