/** Fan-out of persisted log entries to live subscribers, with per-subscriber drop accounting. */
module LogBroadcast {

  const DEFAULT_BUFFER := 64

  datatype Entry = Entry(tenant: string, payload: nat)

  /** A subscription; `offered` and `received` record what was published to it and read from it. */
  datatype Subscription = Subscription(
    tenant: string, capacity: nat, buf: seq<Entry>, dropped: nat, closed: bool,
    offered: seq<Entry>, received: seq<Entry>)

  /** Subscriptions are named by their position; `active` are those still registered. */
  datatype Hub = Hub(subs: seq<Subscription>, active: set<nat>, closed: bool)

  /** An empty tenant receives everything; a tenant-scoped subscriber only its own tenant's entries. */
  predicate Matches(tenant: string, e: Entry) {
    tenant == "" || e.tenant == tenant
  }

  function Offer(s: Subscription, e: Entry): Subscription {
    if !Matches(s.tenant, e) then s
    else if |s.buf| < s.capacity then s.(buf := s.buf + [e], offered := s.offered + [e])
    else s.(dropped := s.dropped + 1, offered := s.offered + [e])
  }

  function OfferAll(subs: seq<Subscription>, active: set<nat>, e: Entry): (r: seq<Subscription>)
    ensures |r| == |subs|
    ensures forall i :: 0 <= i < |subs| ==> r[i] == if i in active then Offer(subs[i], e) else subs[i]
  {
    seq(|subs|, i requires 0 <= i < |subs| => if i in active then Offer(subs[i], e) else subs[i])
  }

  function Publish(h: Hub, e: Entry): Hub {
    h.(subs := OfferAll(h.subs, h.active, e))
  }

  function NewSubscription(buffer: int, tenant: string, closed: bool): Subscription {
    Subscription(tenant, if buffer <= 0 then DEFAULT_BUFFER else buffer, [], 0, closed, [], [])
  }

  /** After shutdown the caller gets an already closed subscription that is never registered. */
  function Subscribe(h: Hub, buffer: int, tenant: string): Hub {
    if h.closed then h.(subs := h.subs + [NewSubscription(buffer, tenant, true)])
    else h.(subs := h.subs + [NewSubscription(buffer, tenant, false)], active := h.active + {|h.subs|})
  }

  function Cancel(h: Hub, c: nat): Hub {
    if c in h.active && c < |h.subs|
    then h.(subs := h.subs[c := h.subs[c].(closed := true)], active := h.active - {c})
    else h
  }

  function CloseAll(subs: seq<Subscription>, active: set<nat>): (r: seq<Subscription>)
    ensures |r| == |subs|
    ensures forall i :: 0 <= i < |subs| ==> r[i] == if i in active then subs[i].(closed := true) else subs[i]
  {
    seq(|subs|, i requires 0 <= i < |subs| => if i in active then subs[i].(closed := true) else subs[i])
  }

  function Close(h: Hub): Hub {
    if h.closed then h else Hub(CloseAll(h.subs, h.active), {}, true)
  }

  /** The reader takes the next buffered entry; with none buffered it keeps waiting. */
  function Receive(h: Hub, c: nat): Hub {
    if c < |h.subs| && h.subs[c].buf != []
    then var s := h.subs[c];
         h.(subs := h.subs[c := s.(buf := s.buf[1..], received := s.received + [s.buf[0]])])
    else h
  }

  lemma OfferOneMore(subs: seq<Subscription>, done: set<nat>, c: nat, e: Entry)
    requires c < |subs| && c !in done
    ensures OfferAll(subs, done + {c}, e) == OfferAll(subs, done, e)[c := Offer(subs[c], e)]
  {
  }

  class LogBroadcaster {
    var subs: seq<Subscription>
    var active: set<nat>
    var closed: bool

    ghost function View(): Hub
      reads this
    {
      Hub(subs, active, closed)
    }

    ghost predicate Valid()
      reads this
    {
      forall c :: c in active ==> c < |subs|
    }

    constructor ()
      ensures Valid() && View() == Hub([], {}, false)
    {
      subs, active, closed := [], {}, false;
    }

    method SubscribeTenant(buffer: int, tenant: string) returns (c: nat)
      requires Valid()
      modifies this
      ensures Valid() && View() == Subscribe(old(View()), buffer, tenant) && c == |old(subs)|
    {
      c := |subs|;
      var size := if buffer <= 0 then DEFAULT_BUFFER else buffer;
      if closed {
        subs := subs + [Subscription(tenant, size, [], 0, true, [], [])];
        return;
      }
      subs := subs + [Subscription(tenant, size, [], 0, false, [], [])];
      active := active + {c};
    }

    method CancelSubscription(c: nat)
      requires Valid()
      modifies this
      ensures Valid() && View() == Cancel(old(View()), c)
    {
      if c in active {
        active := active - {c};
        subs := subs[c := subs[c].(closed := true)];
      }
    }

    method PublishEntry(e: Entry)
      requires Valid()
      modifies this
      ensures Valid() && View() == Publish(old(View()), e)
    {
      var todo := active;
      ghost var done: set<nat> := {};
      while todo != {}
        invariant todo !! done && todo + done == active && active == old(active) && closed == old(closed)
        invariant subs == OfferAll(old(subs), done, e)
      {
        var c :| c in todo;
        OfferOneMore(old(subs), done, c, e);
        todo, done := todo - {c}, done + {c};
        var s := subs[c];
        if s.tenant != "" && e.tenant != s.tenant {
          continue;
        }
        if |s.buf| < s.capacity {
          subs := subs[c := s.(buf := s.buf + [e], offered := s.offered + [e])];
        } else {
          subs := subs[c := s.(dropped := s.dropped + 1, offered := s.offered + [e])];
        }
      }
      assert done == active;
    }

    method CloseBroadcaster()
      requires Valid()
      modifies this
      ensures Valid() && View() == Close(old(View()))
    {
      if closed {
        return;
      }
      closed := true;
      var todo := active;
      while todo != {}
        invariant todo <= active && active == old(active) && closed
        invariant subs == CloseAll(old(subs), active - todo)
      {
        var c :| c in todo;
        todo := todo - {c};
        subs := subs[c := subs[c].(closed := true)];
      }
      assert active - todo == active;
      active := {};
    }
  }

  // ----- every run

  datatype Op =
    | PublishOp(e: Entry)
    | SubscribeOp(buffer: int, tenant: string)
    | CancelOp(c: nat)
    | CloseOp
    | ReceiveOp(c: nat)

  function Apply(h: Hub, op: Op): Hub {
    match op
    case PublishOp(e) => Publish(h, e)
    case SubscribeOp(buffer, tenant) => Subscribe(h, buffer, tenant)
    case CancelOp(c) => Cancel(h, c)
    case CloseOp => Close(h)
    case ReceiveOp(c) => Receive(h, c)
  }

  function Run(h: Hub, ops: seq<Op>): Hub
    decreases |ops|
  {
    if ops == [] then h else Run(Apply(h, ops[0]), ops[1..])
  }

  /** The same run with every other tenant's publishes deleted. */
  function WithoutOthers(ops: seq<Op>, tenant: string): seq<Op> {
    if ops == [] then []
    else (if ops[0].PublishOp? && ops[0].e.tenant != tenant then [] else [ops[0]]) + WithoutOthers(ops[1..], tenant)
  }

  /** The two hubs look the same to every subscriber scoped to `tenant`. */
  ghost predicate SameFor(tenant: string, g: Hub, h: Hub) {
    && |g.subs| == |h.subs| && g.active == h.active && g.closed == h.closed
    && forall c :: 0 <= c < |g.subs| ==>
         g.subs[c].tenant == h.subs[c].tenant && (g.subs[c].tenant == tenant ==> g.subs[c] == h.subs[c])
  }

  lemma OtherTenantInvisible(tenant: string, g: Hub, h: Hub, e: Entry)
    requires tenant != "" && e.tenant != tenant && SameFor(tenant, g, h)
    ensures SameFor(tenant, Publish(g, e), h)
  {
  }

  lemma SameOpSameView(tenant: string, g: Hub, h: Hub, op: Op)
    requires SameFor(tenant, g, h)
    ensures SameFor(tenant, Apply(g, op), Apply(h, op))
  {
  }

  lemma {:induction false} RunsLookTheSame(tenant: string, g: Hub, h: Hub, ops: seq<Op>)
    requires tenant != "" && SameFor(tenant, g, h)
    ensures SameFor(tenant, Run(g, ops), Run(h, WithoutOthers(ops, tenant)))
    decreases |ops|
  {
    if ops != [] {
      if ops[0].PublishOp? && ops[0].e.tenant != tenant {
        OtherTenantInvisible(tenant, g, h, ops[0].e);
        RunsLookTheSame(tenant, Apply(g, ops[0]), h, ops[1..]);
        assert WithoutOthers(ops, tenant) == WithoutOthers(ops[1..], tenant);
      } else {
        SameOpSameView(tenant, g, h, ops[0]);
        RunsLookTheSame(tenant, Apply(g, ops[0]), Apply(h, ops[0]), ops[1..]);
        assert WithoutOthers(ops, tenant)[1..] == WithoutOthers(ops[1..], tenant);
      }
    }
  }

  /**
   Non-interference: a tenant-scoped subscription, with its buffer, drop count and everything read from it, is
   the same as if no other tenant had published anything.
   */
  lemma TenantsDoNotInterfere(ops: seq<Op>, c: nat)
    requires c < |Run(Hub([], {}, false), ops).subs|
    requires Run(Hub([], {}, false), ops).subs[c].tenant != ""
    ensures var tenant := Run(Hub([], {}, false), ops).subs[c].tenant;
            var alone := Run(Hub([], {}, false), WithoutOthers(ops, tenant));
            c < |alone.subs| && alone.subs[c] == Run(Hub([], {}, false), ops).subs[c]
  {
    RunsLookTheSame(Run(Hub([], {}, false), ops).subs[c].tenant, Hub([], {}, false), Hub([], {}, false), ops);
  }

  /** `xs` can be obtained from `ys` by deleting exactly `gaps` elements. */
  ghost predicate Thinned(xs: seq<Entry>, ys: seq<Entry>, gaps: nat)
    decreases |ys|
  {
    if ys == [] then xs == [] && gaps == 0
    else
      var y := ys[|ys| - 1];
      || (xs != [] && xs[|xs| - 1] == y && Thinned(xs[..|xs| - 1], ys[..|ys| - 1], gaps))
      || (gaps > 0 && Thinned(xs, ys[..|ys| - 1], gaps - 1))
  }

  /** What was read and what is buffered is what was offered, in order, minus exactly the counted drops. */
  ghost predicate Accounted(s: Subscription) {
    && Thinned(s.received + s.buf, s.offered, s.dropped)
    && (forall i :: 0 <= i < |s.offered| ==> Matches(s.tenant, s.offered[i]))
    && |s.buf| <= s.capacity
  }

  ghost predicate Inv(h: Hub) {
    && (forall c :: 0 <= c < |h.subs| ==> Accounted(h.subs[c]))
    && (forall c :: c in h.active ==> c < |h.subs|)
    && (forall c :: 0 <= c < |h.subs| ==> (c in h.active <==> !h.subs[c].closed))
    && (h.closed ==> h.active == {})
  }

  lemma OfferAccounts(s: Subscription, e: Entry)
    requires Accounted(s)
    ensures Accounted(Offer(s, e))
  {
    if Matches(s.tenant, e) {
      if |s.buf| < s.capacity {
        BufferLast(s.received, s.buf, e);
        ThinnedKeep(s.received + s.buf, s.offered, s.dropped, e);
      } else {
        ThinnedDrop(s.received + s.buf, s.offered, s.dropped, e);
      }
    }
  }

  lemma BufferLast(received: seq<Entry>, buf: seq<Entry>, e: Entry)
    ensures received + (buf + [e]) == (received + buf) + [e]
  {
  }

  lemma ThinnedKeep(xs: seq<Entry>, ys: seq<Entry>, gaps: nat, e: Entry)
    requires Thinned(xs, ys, gaps)
    ensures Thinned(xs + [e], ys + [e], gaps)
  {
    assert (xs + [e])[..|xs|] == xs && (ys + [e])[..|ys|] == ys;
  }

  lemma ThinnedDrop(xs: seq<Entry>, ys: seq<Entry>, gaps: nat, e: Entry)
    requires Thinned(xs, ys, gaps)
    ensures Thinned(xs, ys + [e], gaps + 1)
  {
    assert (ys + [e])[..|ys|] == ys;
  }

  lemma ReceiveAccounts(s: Subscription)
    requires Accounted(s) && s.buf != []
    ensures Accounted(s.(buf := s.buf[1..], received := s.received + [s.buf[0]]))
  {
    assert (s.received + [s.buf[0]]) + s.buf[1..] == s.received + s.buf;
  }

  lemma ApplyPreserves(h: Hub, op: Op)
    requires Inv(h)
    ensures Inv(Apply(h, op))
  {
    match op
    case PublishOp(e) =>
      forall c | 0 <= c < |h.subs| ensures Accounted(Publish(h, e).subs[c]) {
        OfferAccounts(h.subs[c], e);
      }
    case SubscribeOp(buffer, tenant) =>
    case CancelOp(c) =>
    case CloseOp =>
    case ReceiveOp(c) =>
      if c < |h.subs| && h.subs[c].buf != [] {
        ReceiveAccounts(h.subs[c]);
      }
  }

  lemma {:induction false} RunPreserves(h: Hub, ops: seq<Op>)
    requires Inv(h)
    ensures Inv(Run(h, ops))
    decreases |ops|
  {
    if ops != [] {
      ApplyPreserves(h, ops[0]);
      RunPreserves(Apply(h, ops[0]), ops[1..]);
    }
  }

  lemma {:induction false} ThinnedLength(xs: seq<Entry>, ys: seq<Entry>, gaps: nat)
    requires Thinned(xs, ys, gaps)
    ensures |ys| == |xs| + gaps
    decreases |ys|
  {
    if ys != [] {
      var y := ys[|ys| - 1];
      if xs != [] && xs[|xs| - 1] == y && Thinned(xs[..|xs| - 1], ys[..|ys| - 1], gaps) {
        ThinnedLength(xs[..|xs| - 1], ys[..|ys| - 1], gaps);
      } else {
        ThinnedLength(xs, ys[..|ys| - 1], gaps - 1);
      }
    }
  }

  /** What the operations alone say about subscription `c`: whether it is open, and what it was due so far. */
  datatype Watch = Watch(made: nat, shut: bool, open: bool, tenant: string, due: seq<Entry>)

  function Observe(w: Watch, op: Op, c: nat): Watch {
    match op
    case PublishOp(e) => if w.open && Matches(w.tenant, e) then w.(due := w.due + [e]) else w
    case SubscribeOp(_, tenant) =>
      if w.made == c then w.(made := w.made + 1, open := !w.shut, tenant := tenant) else w.(made := w.made + 1)
    case CancelOp(x) => if x == c then w.(open := false) else w
    case CloseOp => w.(shut := true, open := false)
    case ReceiveOp(_) => w
  }

  function Watched(w: Watch, ops: seq<Op>, c: nat): Watch
    decreases |ops|
  {
    if ops == [] then w else Watched(Observe(w, ops[0], c), ops[1..], c)
  }

  /** The matching entries published between the subscription and its cancel or the shutdown. */
  function Due(ops: seq<Op>, c: nat): seq<Entry> { Watched(Watch(0, false, false, "", []), ops, c).due }

  ghost predicate Follows(w: Watch, h: Hub, c: nat) {
    && w.made == |h.subs| && w.shut == h.closed
    && (h.closed ==> h.active == {}) && (c in h.active ==> c < |h.subs|)
    && (if c < |h.subs| then w.open == (c in h.active) && w.tenant == h.subs[c].tenant && w.due == h.subs[c].offered
        else !w.open && w.due == [])
  }

  lemma ObserveFollows(w: Watch, h: Hub, op: Op, c: nat)
    requires Follows(w, h, c)
    ensures Follows(Observe(w, op, c), Apply(h, op), c)
  {
  }

  lemma {:induction false} WatchedFollows(w: Watch, h: Hub, ops: seq<Op>, c: nat)
    requires Follows(w, h, c)
    ensures Follows(Watched(w, ops, c), Run(h, ops), c)
    decreases |ops|
  {
    if ops != [] {
      ObserveFollows(w, h, ops[0], c);
      WatchedFollows(Observe(w, ops[0], c), Apply(h, ops[0]), ops[1..], c);
    }
  }

  /**
   The matching entries published while a subscription was registered equal those received, buffered and dropped,
   and what arrives is that sequence minus exactly the drops.
   */
  lemma PublishedIsReceivedBufferedDropped(ops: seq<Op>, c: nat)
    requires c < |Run(Hub([], {}, false), ops).subs|
    ensures var s := Run(Hub([], {}, false), ops).subs[c];
            && |Due(ops, c)| == |s.received| + |s.buf| + s.dropped
            && Thinned(s.received + s.buf, Due(ops, c), s.dropped)
  {
    RunPreserves(Hub([], {}, false), ops);
    WatchedFollows(Watch(0, false, false, "", []), Hub([], {}, false), ops, c);
    var s := Run(Hub([], {}, false), ops).subs[c];
    ThinnedLength(s.received + s.buf, s.offered, s.dropped);
  }

  /** Only registered subscriptions are ever closed, so no channel is closed or sent to after its close. */
  lemma OpenExactlyWhileRegistered(ops: seq<Op>, c: nat)
    requires c < |Run(Hub([], {}, false), ops).subs|
    ensures c in Run(Hub([], {}, false), ops).active <==> !Run(Hub([], {}, false), ops).subs[c].closed
  {
    RunPreserves(Hub([], {}, false), ops);
  }
}
