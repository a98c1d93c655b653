/**
 The per-tenant token bucket. Token levels are real numbers; the clock and the advertised delay are whole
 nanoseconds, as in the source, so the truncation of the delay is part of the model.
 */
module Quota {
  import opened Wrappers

  const NANOS: real := 1000000000.0

  datatype Config = Config(ratePerSec: real, rateBurst: int)

  datatype Bucket = Bucket(tokens: real, last: int)

  datatype Decision = Decision(ok: bool, retryNanos: int)

  function Max(a: real, b: real): real { if a < b then b else a }

  function Min(a: real, b: real): real { if a < b then a else b }

  function Capacity(c: Config): real {
    if c.rateBurst > 0 then c.rateBurst as real else Max(1.0, c.ratePerSec)
  }

  /** Tokens that accrue over a span of nanoseconds. */
  function Accrued(c: Config, nanos: int): real {
    nanos as real / NANOS * c.ratePerSec
  }

  /** A new tenant starts full; time that has passed refills up to capacity. */
  function Refill(c: Config, b: Option<Bucket>, now: int): Bucket {
    match b
    case None => Bucket(Capacity(c), now)
    case Some(k) => if now > k.last then Bucket(Min(Capacity(c), k.tokens + Accrued(c, now - k.last)), now) else k
  }

  /** Nanoseconds until the missing fraction of a token has accrued, before truncation. */
  function ExactDelay(c: Config, tokens: real): real
    requires c.ratePerSec > 0.0
  {
    (1.0 - tokens) / c.ratePerSec * NANOS
  }

  function Decide(c: Config, b: Option<Bucket>, now: int): (Bucket, Decision)
    requires c.ratePerSec > 0.0
  {
    var k := Refill(c, b, now);
    if k.tokens >= 1.0 then (k.(tokens := k.tokens - 1.0), Decision(true, 0))
    else (k, Decision(false, ExactDelay(c, k.tokens).Floor))
  }

  /** The enforcer's whole state: defaults, overrides and buckets. */
  datatype Limits = Limits(defaults: Config, overrides: map<string, Config>, buckets: map<string, Bucket>)

  function EffectiveOf(l: Limits, tenant: string): Config {
    if tenant in l.overrides then l.overrides[tenant] else l.defaults
  }

  function BucketOf(l: Limits, tenant: string): Option<Bucket> {
    if tenant in l.buckets then Some(l.buckets[tenant]) else None
  }

  /** The empty tenant and a tenant without a positive rate are never limited. */
  predicate Exempt(l: Limits, tenant: string) {
    tenant == "" || EffectiveOf(l, tenant).ratePerSec <= 0.0
  }

  function Serve(l: Limits, tenant: string, now: int): (Limits, Decision) {
    if Exempt(l, tenant) then (l, Decision(true, 0))
    else
      var (b, d) := Decide(EffectiveOf(l, tenant), BucketOf(l, tenant), now);
      (l.(buckets := l.buckets[tenant := b]), d)
  }

  function Override(l: Limits, tenant: string, c: Config): Limits {
    if tenant == "" then l else l.(overrides := l.overrides[tenant := c])
  }

  class Enforcer {
    const defaults: Config
    var overrides: map<string, Config>
    var buckets: map<string, Bucket>

    constructor (defaults: Config)
      ensures View() == Limits(defaults, map[], map[])
    {
      this.defaults := defaults;
      overrides, buckets := map[], map[];
    }

    function View(): Limits
      reads this
    {
      Limits(defaults, overrides, buckets)
    }

    method SetOverride(tenant: string, c: Config)
      modifies this`overrides
      ensures View() == Override(old(View()), tenant, c)
      ensures forall x :: EffectiveOf(View(), x) == if x == tenant && x != "" then c else EffectiveOf(old(View()), x)
    {
      if tenant == "" {
        return;
      }
      overrides := overrides[tenant := c];
    }

    method AllowRequest(tenant: string, now: int) returns (d: Decision)
      modifies this`buckets
      ensures (View(), d) == Serve(old(View()), tenant, now)
    {
      if tenant == "" {
        return Decision(true, 0);
      }
      var cfg := if tenant in overrides then overrides[tenant] else defaults;
      if cfg.ratePerSec <= 0.0 {
        return Decision(true, 0);
      }
      var capacity := Capacity(cfg);
      var b := if tenant in buckets then buckets[tenant] else Bucket(capacity, now);
      if now > b.last {
        b := Bucket(Min(capacity, b.tokens + Accrued(cfg, now - b.last)), now);
      }
      if b.tokens >= 1.0 {
        b := b.(tokens := b.tokens - 1.0);
        d := Decision(true, 0);
      } else {
        d := Decision(false, ((1.0 - b.tokens) / cfg.ratePerSec * NANOS).Floor);
      }
      buckets := buckets[tenant := b];
    }
  }

  // ----- the rate bound

  /** What can happen to an enforcer, in any order: requests of any tenants, and overrides of any tenants. */
  datatype Op = Request(tenant: string, now: int) | SetConfig(tenant: string, config: Config)

  function OnOp(l: Limits, op: Op): Limits {
    match op
    case Request(tenant, now) => Serve(l, tenant, now).0
    case SetConfig(tenant, c) => Override(l, tenant, c)
  }

  function After(l: Limits, ops: seq<Op>): Limits
    decreases |ops|
  {
    if ops == [] then l else After(OnOp(l, ops[0]), ops[1..])
  }

  /** How many requests of `tenant` are allowed over a run. */
  function Allowed(l: Limits, ops: seq<Op>, tenant: string): nat
    decreases |ops|
  {
    if ops == [] then 0
    else
      (if ops[0].Request? && ops[0].tenant == tenant && Serve(l, tenant, ops[0].now).1.ok then 1 else 0)
      + Allowed(OnOp(l, ops[0]), ops[1..], tenant)
  }

  /** The clock does not run backwards and stays between `t0` and `t1`. */
  ghost predicate Timed(ops: seq<Op>, t0: int, t1: int) {
    && t0 <= t1
    && (forall i :: 0 <= i < |ops| && ops[i].Request? ==> t0 <= ops[i].now <= t1)
    && (forall i, j :: 0 <= i < j < |ops| && ops[i].Request? && ops[j].Request? ==> ops[i].now <= ops[j].now)
  }

  ghost predicate KeepsConfig(ops: seq<Op>, tenant: string) {
    forall i :: 0 <= i < |ops| && ops[i].SetConfig? ==> ops[i].tenant != tenant
  }

  /** The tenant's bucket holds at most `ceiling` and is not ahead of the clock. */
  ghost predicate Sane(b: Option<Bucket>, ceiling: real, now: int) {
    b.Some? ==> 0.0 <= b.value.tokens <= ceiling && b.value.last <= now
  }

  lemma CapacityAtLeastOne(c: Config)
    ensures Capacity(c) >= 1.0
  {
  }

  lemma AccruedAdds(c: Config, a: int, b: int)
    ensures Accrued(c, a) + Accrued(c, b) == Accrued(c, a + b)
  {
    assert (a as real / NANOS) * c.ratePerSec + (b as real / NANOS) * c.ratePerSec
        == (a as real / NANOS + b as real / NANOS) * c.ratePerSec;
  }

  lemma AccruedNonNegative(c: Config, a: int)
    requires c.ratePerSec > 0.0 && a >= 0
    ensures Accrued(c, a) >= 0.0
  {
  }

  /** Refilling keeps a bucket under its ceiling, provided the ceiling is at least the capacity in force. */
  lemma RefillBounds(c: Config, b: Option<Bucket>, ceiling: real, now: int)
    requires c.ratePerSec > 0.0 && Sane(b, ceiling, now)
    ensures 0.0 <= Refill(c, b, now).tokens <= Max(Capacity(c), ceiling) && Refill(c, b, now).last == now
  {
    CapacityAtLeastOne(c);
    if b.Some? {
      AccruedNonNegative(c, now - b.value.last);
    }
  }

  /** The refilled level grows no faster than tokens accrue. */
  lemma LevelAtLater(c: Config, b: Option<Bucket>, ceiling: real, t0: int, t: int)
    requires c.ratePerSec > 0.0 && Sane(b, ceiling, t0) && t0 <= t
    ensures Refill(c, b, t).tokens <= Refill(c, b, t0).tokens + Accrued(c, t - t0)
  {
    AccruedNonNegative(c, t - t0);
    if b.Some? {
      AccruedAdds(c, t0 - b.value.last, t - t0);
      AccruedNonNegative(c, t0 - b.value.last);
    }
  }

  lemma TimedTail(ops: seq<Op>, t0: int, t1: int)
    requires Timed(ops, t0, t1) && ops != []
    ensures Timed(ops[1..], if ops[0].Request? then ops[0].now else t0, t1)
  {
    var rest := ops[1..];
    forall i | 0 <= i < |rest| ensures rest[i] == ops[i + 1] {
    }
  }

  /** An operation that is not the tenant's own leaves its config and bucket alone. */
  lemma OthersDoNotMatter(l: Limits, op: Op, tenant: string)
    requires op.tenant != tenant
    ensures EffectiveOf(OnOp(l, op), tenant) == EffectiveOf(l, tenant)
            && BucketOf(OnOp(l, op), tenant) == BucketOf(l, tenant)
  {
  }

  /**
   From `t0` to `t1` a tenant is allowed at most what its bucket holds at `t0` plus what accrues up to `t1`, however
   other tenants' requests and overrides are interleaved.
   */
  lemma {:induction false} AllowedFromLevel(l: Limits, ops: seq<Op>, tenant: string, ceiling: real, t0: int, t1: int)
    requires Timed(ops, t0, t1) && KeepsConfig(ops, tenant) && !Exempt(l, tenant)
    requires Sane(BucketOf(l, tenant), ceiling, t0)
    ensures Allowed(l, ops, tenant) as real
         <= Refill(EffectiveOf(l, tenant), BucketOf(l, tenant), t0).tokens + Accrued(EffectiveOf(l, tenant), t1 - t0)
    decreases |ops|
  {
    var c, b := EffectiveOf(l, tenant), BucketOf(l, tenant);
    RefillBounds(c, b, ceiling, t0);
    AccruedNonNegative(c, t1 - t0);
    if ops != [] {
      var op, next := ops[0], OnOp(l, ops[0]);
      TimedTail(ops, t0, t1);
      if op.tenant == tenant {
        OwnRequest(l, ops, tenant, ceiling, t0, t1);
      } else {
        OthersDoNotMatter(l, op, tenant);
        if op.Request? {
          LevelAtLater(c, b, ceiling, t0, op.now);
          AccruedAdds(c, op.now - t0, t1 - op.now);
          AllowedFromLevel(next, ops[1..], tenant, ceiling, op.now, t1);
        } else {
          AllowedFromLevel(next, ops[1..], tenant, ceiling, t0, t1);
        }
      }
    }
  }

  lemma {:induction false} OwnRequest(l: Limits, ops: seq<Op>, tenant: string, ceiling: real, t0: int, t1: int)
    requires Timed(ops, t0, t1) && KeepsConfig(ops, tenant) && !Exempt(l, tenant)
    requires Sane(BucketOf(l, tenant), ceiling, t0) && ops != [] && ops[0].tenant == tenant
    ensures Allowed(l, ops, tenant) as real
         <= Refill(EffectiveOf(l, tenant), BucketOf(l, tenant), t0).tokens + Accrued(EffectiveOf(l, tenant), t1 - t0)
    decreases |ops|, 0
  {
    var c, b, now := EffectiveOf(l, tenant), BucketOf(l, tenant), ops[0].now;
    var next := OnOp(l, ops[0]);
    var k := Refill(c, b, now);
    TimedTail(ops, t0, t1);
    RefillBounds(c, b, ceiling, now);
    LevelAtLater(c, b, ceiling, t0, now);
    AccruedAdds(c, now - t0, t1 - now);
    var left := Decide(c, b, now).0;
    assert BucketOf(next, tenant) == Some(left) && EffectiveOf(next, tenant) == c;
    assert Refill(c, Some(left), now) == left;
    AllowedFromLevel(next, ops[1..], tenant, Max(Capacity(c), ceiling), now, t1);
  }

  /** What every run keeps of a bucket: a level of at least zero, dated no later than the clock. */
  ghost predicate Dated(b: Option<Bucket>, now: int) {
    b.Some? ==> 0.0 <= b.value.tokens && b.value.last <= now
  }

  /** The next request sees at most a full bucket: it is new, or will be refilled and clamped, or is within capacity. */
  predicate Clamped(c: Config, b: Option<Bucket>, now: int) {
    b.None? || b.value.last < now || b.value.tokens <= Capacity(c)
  }

  /**
   In any window over which its config stays in force, a limited tenant is allowed at most the level of its bucket plus
   rate times the window, and so at most capacity plus rate times the window unless the bucket is above capacity.
   */
  lemma RateBound(l: Limits, ops: seq<Op>, tenant: string, t0: int, t1: int)
    requires Timed(ops, t0, t1) && KeepsConfig(ops, tenant) && !Exempt(l, tenant) && Dated(BucketOf(l, tenant), t0)
    ensures var c, b := EffectiveOf(l, tenant), BucketOf(l, tenant);
            Allowed(l, ops, tenant) as real <= Refill(c, b, t0).tokens + Accrued(c, t1 - t0)
    ensures var c, b := EffectiveOf(l, tenant), BucketOf(l, tenant);
            Clamped(c, b, t0) ==> Allowed(l, ops, tenant) as real <= Capacity(c) + Accrued(c, t1 - t0)
  {
    var b := BucketOf(l, tenant);
    AllowedFromLevel(l, ops, tenant, if b.Some? then b.value.tokens else 0.0, t0, t1);
  }

  /** An exempt tenant is allowed every one of its requests. */
  lemma {:induction false} ExemptAlwaysAllowed(l: Limits, ops: seq<Op>, tenant: string)
    requires Exempt(l, tenant) && KeepsConfig(ops, tenant)
    ensures Allowed(l, ops, tenant) == RequestsOf(ops, tenant)
    decreases |ops|
  {
    if ops != [] {
      if ops[0].tenant != tenant {
        OthersDoNotMatter(l, ops[0], tenant);
      }
      ExemptAlwaysAllowed(OnOp(l, ops[0]), ops[1..], tenant);
    }
  }

  function RequestsOf(ops: seq<Op>, tenant: string): nat {
    if ops == [] then 0
    else (if ops[0].Request? && ops[0].tenant == tenant then 1 else 0) + RequestsOf(ops[1..], tenant)
  }

  /** The largest capacity in force at any limited request of the tenant; zero when there was none. */
  function Peak(l: Limits, ops: seq<Op>, tenant: string): real
    decreases |ops|
  {
    if ops == [] then 0.0
    else
      var rest := Peak(OnOp(l, ops[0]), ops[1..], tenant);
      if ops[0].Request? && ops[0].tenant == tenant && !Exempt(l, tenant)
      then Max(Capacity(EffectiveOf(l, tenant)), rest)
      else rest
  }

  /** Whatever overrides come and go, a bucket never holds more than the largest capacity it was refilled under. */
  lemma {:induction false} StaysSane(l: Limits, ops: seq<Op>, tenant: string, ceiling: real, t0: int, t1: int)
    requires Timed(ops, t0, t1) && Sane(BucketOf(l, tenant), ceiling, t0)
    ensures Sane(BucketOf(After(l, ops), tenant), Max(ceiling, Peak(l, ops, tenant)), t1)
    decreases |ops|
  {
    if ops != [] {
      var op, next := ops[0], OnOp(l, ops[0]);
      TimedTail(ops, t0, t1);
      var t := if op.Request? then op.now else t0;
      var higher := ceiling;
      if op.tenant != tenant {
        OthersDoNotMatter(l, op, tenant);
      } else if op.Request? && !Exempt(l, tenant) {
        higher := Max(Capacity(EffectiveOf(l, tenant)), ceiling);
        RefillBounds(EffectiveOf(l, tenant), BucketOf(l, tenant), ceiling, t);
      }
      StaysSane(next, ops[1..], tenant, higher, t, t1);
    }
  }

  /** A new enforcer. */
  function New(defaults: Config): Limits { Limits(defaults, map[], map[]) }

  lemma ReachedIsDated(defaults: Config, before: seq<Op>, tenant: string, first: int, t0: int)
    requires Timed(before, first, t0)
    ensures Dated(BucketOf(After(New(defaults), before), tenant), t0)
    ensures Sane(BucketOf(After(New(defaults), before), tenant), Peak(New(defaults), before, tenant), t0)
  {
    StaysSane(New(defaults), before, tenant, 0.0, first, t0);
    PeakNonNegative(New(defaults), before, tenant);
  }

  /**
   From a new enforcer, after any history of requests and overrides: over any later window under one config the tenant
   is allowed at most capacity plus rate times the window, unless the bucket was last touched at the very start of the
   window and still holds more; then the largest capacity it was used with counts.
   */
  lemma RateBoundAnywhere(defaults: Config, before: seq<Op>, window: seq<Op>, tenant: string,
                          first: int, t0: int, t1: int)
    requires Timed(before, first, t0) && Timed(window, t0, t1) && KeepsConfig(window, tenant)
    requires !Exempt(After(New(defaults), before), tenant)
    ensures var l := After(New(defaults), before);
            var c, b := EffectiveOf(l, tenant), BucketOf(l, tenant);
            var most :=
              if Clamped(c, b, t0) then Capacity(c) else Max(Capacity(c), Peak(New(defaults), before, tenant));
            Allowed(l, window, tenant) as real <= most + Accrued(c, t1 - t0)
  {
    var l := After(New(defaults), before);
    var c, b := EffectiveOf(l, tenant), BucketOf(l, tenant);
    ReachedIsDated(defaults, before, tenant, first, t0);
    RateBound(l, window, tenant, t0, t1);
    RefillBounds(c, b, Peak(New(defaults), before, tenant), t0);
  }

  /** With one config throughout, the largest capacity used is that config's. */
  lemma {:induction false} PeakOfOneConfig(l: Limits, ops: seq<Op>, tenant: string)
    requires KeepsConfig(ops, tenant)
    ensures Peak(l, ops, tenant) <= Capacity(EffectiveOf(l, tenant))
    ensures EffectiveOf(After(l, ops), tenant) == EffectiveOf(l, tenant)
    decreases |ops|
  {
    CapacityAtLeastOne(EffectiveOf(l, tenant));
    if ops != [] {
      if ops[0].tenant != tenant {
        OthersDoNotMatter(l, ops[0], tenant);
      }
      PeakOfOneConfig(OnOp(l, ops[0]), ops[1..], tenant);
    }
  }

  /**
   Under a fixed config, in every run and every window of it, however other tenants' requests and overrides are
   interleaved, the tenant is allowed at most capacity plus rate times the window.
   */
  lemma FixedConfigBound(defaults: Config, before: seq<Op>, window: seq<Op>, tenant: string,
                         first: int, t0: int, t1: int)
    requires tenant != "" && defaults.ratePerSec > 0.0
    requires Timed(before, first, t0) && KeepsConfig(before, tenant)
    requires Timed(window, t0, t1) && KeepsConfig(window, tenant)
    ensures Allowed(After(New(defaults), before), window, tenant) as real
            <= Capacity(defaults) + Accrued(defaults, t1 - t0)
  {
    PeakOfOneConfig(New(defaults), before, tenant);
    RateBoundAnywhere(defaults, before, window, tenant, first, t0, t1);
  }

  // ----- exactly when the bound holds at one instant

  function AtOnce(tenant: string, t: int, n: nat): seq<Op> { seq(n, _ => Request(tenant, t)) }

  /** Requests at one instant are allowed until the whole tokens are spent. */
  lemma {:induction false} AllowedAtOnce(l: Limits, tenant: string, t: int, n: nat)
    requires !Exempt(l, tenant) && Dated(BucketOf(l, tenant), t)
    ensures var whole := Refill(EffectiveOf(l, tenant), BucketOf(l, tenant), t).tokens.Floor;
            whole >= 0 && Allowed(l, AtOnce(tenant, t, n), tenant) == if n <= whole then n else whole
    decreases n
  {
    var c, b := EffectiveOf(l, tenant), BucketOf(l, tenant);
    RefillBounds(c, b, if b.Some? then b.value.tokens else 0.0, t);
    if n > 0 {
      var next := OnOp(l, Request(tenant, t));
      var left := Decide(c, b, t).0;
      assert BucketOf(next, tenant) == Some(left) && EffectiveOf(next, tenant) == c;
      assert Refill(c, Some(left), t) == left;
      assert AtOnce(tenant, t, n)[1..] == AtOnce(tenant, t, n - 1);
      AllowedAtOnce(next, tenant, t, n - 1);
    }
  }

  /** Touched at that instant, with more whole tokens left than the capacity. */
  predicate Overfull(c: Config, b: Option<Bucket>, t: int) {
    b.Some? && b.value.last == t && b.value.tokens.Floor as real > Capacity(c)
  }

  /**
   At one instant the tenant is held to its capacity, whatever the number of requests, if and only if its bucket was
   not already touched at that instant with more whole tokens left than the capacity now in force.
   */
  lemma InstantBoundIff(l: Limits, tenant: string, t: int)
    requires !Exempt(l, tenant) && Dated(BucketOf(l, tenant), t)
    ensures (forall n: nat :: Allowed(l, AtOnce(tenant, t, n), tenant) as real <= Capacity(EffectiveOf(l, tenant)))
       <==> !Overfull(EffectiveOf(l, tenant), BucketOf(l, tenant), t)
  {
    var c, b := EffectiveOf(l, tenant), BucketOf(l, tenant);
    var whole := Refill(c, b, t).tokens.Floor;
    forall n: nat ensures Allowed(l, AtOnce(tenant, t, n), tenant) == if n <= whole then n else whole {
      AllowedAtOnce(l, tenant, t, n);
    }
    AllowedAtOnce(l, tenant, t, 0);
    assert Allowed(l, AtOnce(tenant, t, whole), tenant) == whole;
    assert b.None? || b.value.last < t ==> Refill(c, b, t).tokens <= Capacity(c);
  }

  lemma {:induction false} PeakNonNegative(l: Limits, ops: seq<Op>, tenant: string)
    ensures Peak(l, ops, tenant) >= 0.0
    decreases |ops|
  {
    if ops != [] {
      PeakNonNegative(OnOp(l, ops[0]), ops[1..], tenant);
    }
  }

  /**
   The exception is real: tokens saved under a burst of three are still spent after an override lowers the burst to
   one, two requests at one instant being allowed.
   */
  lemma LoweredBurstStillSpends()
    ensures var c := Config(1.0, 1);
            var l := After(New(Config(1.0, 3)), [Request("t", 0), SetConfig("t", c)]);
            EffectiveOf(l, "t") == c && Allowed(l, AtOnce("t", 0, 2), "t") == 2
  {
    var c := Config(1.0, 1);
    var start := New(Config(1.0, 3));
    var ops := [Request("t", 0), SetConfig("t", c)];
    var one := Limits(Config(1.0, 3), map[], map["t" := Bucket(2.0, 0)]);
    assert OnOp(start, ops[0]) == one;
    var two := one.(overrides := map["t" := c]);
    assert ops[1..] == [SetConfig("t", c)] && ops[1..][1..] == [];
    assert After(start, ops) == After(one, ops[1..]) == After(two, []) == two;
    AllowedAtOnce(two, "t", 0, 2);
  }

  // ----- the advertised delay

  lemma DelayAccrues(c: Config, tokens: real, wait: int)
    requires c.ratePerSec > 0.0
    ensures tokens + Accrued(c, wait) >= 1.0 <==> wait as real >= ExactDelay(c, tokens)
  {
    var x := ExactDelay(c, tokens);
    assert x / NANOS * c.ratePerSec == 1.0 - tokens;
    assert Accrued(c, wait) - (1.0 - tokens) == (wait as real - x) / NANOS * c.ratePerSec;
    Scaled((wait as real - x) / NANOS, c.ratePerSec);
  }

  lemma Scaled(a: real, r: real)
    requires r > 0.0
    ensures a * r >= 0.0 <==> a >= 0.0
  {
  }

  /** What a refusal leaves behind: less than one token, dated now. */
  predicate Refused(k: Bucket, now: int) { 0.0 <= k.tokens < 1.0 && k.last == now }

  /** The delay that is advertised with it, in whole nanoseconds. */
  function Advertised(c: Config, k: Bucket): int
    requires c.ratePerSec > 0.0
  {
    ExactDelay(c, k.tokens).Floor
  }

  /** Every refusal of a sane bucket leaves such a bucket and advertises that delay. */
  lemma RefusalLeaves(c: Config, b: Option<Bucket>, ceiling: real, now: int)
    requires c.ratePerSec > 0.0 && Sane(b, ceiling, now)
    ensures var (k, d) := Decide(c, b, now);
            !d.ok ==> Refused(k, now) && d.retryNanos == Advertised(c, k)
  {
    RefillBounds(c, b, ceiling, now);
  }

  /** After a refusal, the next request `wait` nanoseconds later succeeds exactly when the exact delay has passed. */
  lemma NextSucceedsIff(c: Config, k: Bucket, now: int, wait: int)
    requires c.ratePerSec > 0.0 && Refused(k, now) && wait >= 0
    ensures Decide(c, Some(k), now + wait).1.ok <==> wait as real >= ExactDelay(c, k.tokens)
  {
    CapacityAtLeastOne(c);
    DelayAccrues(c, k.tokens, wait);
    DelayPositive(c, k.tokens);
  }

  /**
   Waiting exactly the advertised delay succeeds if and only if that delay was not truncated; one nanosecond more
   always suffices.
   */
  lemma AdvertisedDelaySucceedsIff(c: Config, k: Bucket, now: int)
    requires c.ratePerSec > 0.0 && Refused(k, now)
    ensures Decide(c, Some(k), now + Advertised(c, k)).1.ok <==> ExactDelay(c, k.tokens) == Advertised(c, k) as real
    ensures Decide(c, Some(k), now + Advertised(c, k) + 1).1.ok
  {
    DelayPositive(c, k.tokens);
    NextSucceedsIff(c, k, now, Advertised(c, k));
    NextSucceedsIff(c, k, now, Advertised(c, k) + 1);
  }

  /** A third of a second is no whole number of nanoseconds: waiting the advertised delay is refused again. */
  lemma TruncatedDelayTooShort()
    ensures var c, k := Config(3.0, 1), Bucket(0.0, 0);
            Refused(k, 0) && Advertised(c, k) == 333333333 && !Decide(c, Some(k), 333333333).1.ok
  {
    var c, k := Config(3.0, 1), Bucket(0.0, 0);
    assert ExactDelay(c, 0.0) == 1000000000.0 / 3.0;
    AdvertisedDelaySucceedsIff(c, k, 0);
  }

  lemma DelayPositive(c: Config, tokens: real)
    requires c.ratePerSec > 0.0 && tokens < 1.0
    ensures ExactDelay(c, tokens) > 0.0
  {
  }

  /** The whole seconds the HTTP layer puts in its Retry-After header. */
  function RetryAfterSeconds(retryNanos: int): int
    requires retryNanos >= 0
  {
    var secs := retryNanos / 1000000000;
    if secs < 1 then 1 else secs
  }

  /** At 0.4 requests per second an empty bucket advertises "2" seconds, and honouring that is refused again. */
  lemma RetryAfterHeaderTooShort()
    ensures var c := Config(0.4, 1);
            var (k, d) := Decide(c, Some(Bucket(0.0, 0)), 0);
            !d.ok && d.retryNanos == 2500000000 && RetryAfterSeconds(d.retryNanos) == 2
            && !Decide(c, Some(k), 2000000000).1.ok
  {
    var c := Config(0.4, 1);
    assert ExactDelay(c, 0.0) == 2500000000.0;
    NextSucceedsIff(c, Bucket(0.0, 0), 0, 2000000000);
  }

  /** Honouring the header succeeds exactly when the exact delay is at most that many seconds. */
  lemma RetryAfterSucceedsIff(c: Config, k: Bucket, now: int)
    requires c.ratePerSec > 0.0 && Refused(k, now)
    ensures Advertised(c, k) >= 0
    ensures var secs := RetryAfterSeconds(Advertised(c, k));
            Decide(c, Some(k), now + secs * 1000000000).1.ok <==> ExactDelay(c, k.tokens) <= (secs * 1000000000) as real
  {
    DelayPositive(c, k.tokens);
    NextSucceedsIff(c, k, now, RetryAfterSeconds(Advertised(c, k)) * 1000000000);
  }
}
