/** The REST rate limiter: one bucket per device, one shared by all anonymous callers. */
module RateLimiter {
  import opened Wrappers
  import opened TokenBuckets

  datatype Config = Config(burst: int, refillPerMinute: int, anonymousBurst: int)

  const DEFAULT := Config(100, 100, 25)

  /** The settings a limiter really runs with. */
  function Normalise(c: Config): Config {
    var burst := if c.burst <= 0 then DEFAULT.burst else c.burst;
    Config(burst,
           if c.refillPerMinute <= 0 then DEFAULT.refillPerMinute else c.refillPerMinute,
           if c.anonymousBurst > 0 then c.anonymousBurst else if burst / 4 < 1 then 1 else burst / 4)
  }

  predicate Usable(c: Config) {
    c.burst >= 1 && c.refillPerMinute >= 1 && c.anonymousBurst >= 1
  }

  lemma NormaliseIsUsable(c: Config)
    ensures Usable(Normalise(c))
    ensures Usable(c) ==> Normalise(c) == c
  {
  }

  function Key(device: string): string {
    if device == "" then "anon" else "dev:" + device
  }

  function Capacity(c: Config, device: string): real {
    (if device == "" then c.anonymousBurst else c.burst) as real
  }

  function Rate(c: Config): real {
    c.refillPerMinute as real / 60.0
  }

  /** Two devices share a bucket only if they are the same. */
  lemma KeyIsInjective(a: string, b: string)
    ensures Key(a) == Key(b) <==> a == b
  {
    if a != "" && b != "" && Key(a) == Key(b) {
      assert a == Key(a)[4..] && b == Key(b)[4..];
    }
    assert "anon"[0] == 'a' && "dev:"[0] == 'd';
    assert a != "" ==> Key(a)[0] == 'd';
    assert b != "" ==> Key(b)[0] == 'd';
  }

  type Buckets = map<string, Bucket>

  function Find(bs: Buckets, key: string): Option<Bucket> {
    if key in bs then Some(bs[key]) else None
  }

  datatype Call = Call(device: string, now: real)

  function TakeOne(bs: Buckets, c: Config, call: Call): (Buckets, Decision)
    requires Usable(c)
  {
    var key := Key(call.device);
    var (b, d) := Take(Find(bs, key), Capacity(c, call.device), Rate(c), call.now);
    (bs[key := b], d)
  }

  /** The decisions on the calls of one device, in a run of calls of all devices. */
  function DecisionsFor(bs: Buckets, c: Config, calls: seq<Call>, device: string): seq<Decision>
    requires Usable(c)
    decreases |calls|
  {
    if calls == [] then []
    else
      var (bs', d) := TakeOne(bs, c, calls[0]);
      (if calls[0].device == device then [d] else []) + DecisionsFor(bs', c, calls[1..], device)
  }

  function TimesFor(calls: seq<Call>, device: string): seq<real> {
    if calls == [] then []
    else (if calls[0].device == device then [calls[0].now] else []) + TimesFor(calls[1..], device)
  }

  /** Calls of other devices change nothing: a device is served as if it were alone. */
  lemma {:induction false} DevicesAreIndependent(bs: Buckets, c: Config, calls: seq<Call>, device: string)
    requires Usable(c)
    ensures DecisionsFor(bs, c, calls, device)
         == TakeAll(Find(bs, Key(device)), Capacity(c, device), Rate(c), TimesFor(calls, device))
    decreases |calls|
  {
    hide Gain;
    if calls != [] {
      var bs' := TakeOne(bs, c, calls[0]).0;
      DevicesAreIndependent(bs', c, calls[1..], device);
      KeyIsInjective(calls[0].device, device);
      if calls[0].device == device {
        assert TimesFor(calls, device)[1..] == TimesFor(calls[1..], device);
      } else {
        assert Find(bs', Key(device)) == Find(bs, Key(device));
        assert TimesFor(calls, device) == TimesFor(calls[1..], device);
        assert DecisionsFor(bs, c, calls, device) == DecisionsFor(bs', c, calls[1..], device);
      }
    }
  }

  ghost predicate AllProper(bs: Buckets, c: Config) {
    forall device: string | Key(device) in bs :: Proper(bs[Key(device)], Capacity(c, device))
  }

  lemma TakeOneIsProper(bs: Buckets, c: Config, call: Call)
    requires Usable(c) && AllProper(bs, c)
    ensures AllProper(TakeOne(bs, c, call).0, c)
  {
    hide Gain;
    var bs' := TakeOne(bs, c, call).0;
    TakeIsProper(Find(bs, Key(call.device)), Capacity(c, call.device), Rate(c), call.now);
    forall device: string | Key(device) in bs' ensures Proper(bs'[Key(device)], Capacity(c, device)) {
      KeyIsInjective(device, call.device);
    }
  }

  lemma {:induction false} TimesAreWithin(calls: seq<Call>, device: string, from: real, to: real)
    requires forall i | 0 <= i < |calls| :: from <= calls[i].now <= to
    ensures Within(TimesFor(calls, device), from, to)
  {
    if calls != [] {
      TimesAreWithin(calls[1..], device, from, to);
      var rest := TimesFor(calls[1..], device);
      assert TimesFor(calls, device) == if calls[0].device == device then [calls[0].now] + rest else rest;
    }
  }

  /**
   From any state of the limiter, whatever the clock does: in calls made between two times, one
   device gets at most its capacity plus the refill.
   */
  lemma DeviceIsBounded(bs: Buckets, c: Config, calls: seq<Call>, device: string, from: real, to: real)
    requires Usable(c) && AllProper(bs, c) && from <= to
    requires forall i | 0 <= i < |calls| :: from <= calls[i].now <= to
    ensures Grants(DecisionsFor(bs, c, calls, device)) as real <= Capacity(c, device) + Gain(to - from, Rate(c))
  {
    hide Gain;
    DevicesAreIndependent(bs, c, calls, device);
    TimesAreWithin(calls, device, from, to);
    GrantsAreBounded(Find(bs, Key(device)), Capacity(c, device), Rate(c), TimesFor(calls, device), from, to);
  }

  function TakeMany(bs: Buckets, c: Config, calls: seq<Call>): Buckets
    requires Usable(c)
    decreases |calls|
  {
    if calls == [] then bs else TakeMany(TakeOne(bs, c, calls[0]).0, c, calls[1..])
  }

  lemma {:induction false} OthersLeaveBucket(bs: Buckets, c: Config, calls: seq<Call>, device: string)
    requires Usable(c) && forall i | 0 <= i < |calls| :: calls[i].device != device
    ensures Find(TakeMany(bs, c, calls), Key(device)) == Find(bs, Key(device))
    decreases |calls|
  {
    hide Gain;
    if calls != [] {
      KeyIsInjective(calls[0].device, device);
      OthersLeaveBucket(TakeOne(bs, c, calls[0]).0, c, calls[1..], device);
    }
  }

  /** A refused device that waits as long as it was told is served, whatever other devices do meanwhile. */
  lemma WaitingPays(bs: Buckets, c: Config, call: Call, others: seq<Call>, later: real)
    requires Usable(c) && AllProper(bs, c)
    requires Find(bs, Key(call.device)).Some? ==> bs[Key(call.device)].last <= call.now
    requires TakeOne(bs, c, call).1.Refused? && call.now <= later
    requires forall i | 0 <= i < |others| :: others[i].device != call.device
    ensures var (bs', d) := TakeOne(bs, c, call);
            var next := TakeOne(TakeMany(bs', c, others), c, Call(call.device, later)).1;
      && (later >= call.now + d.retryAfter as real ==> next.Granted?)
      && (later < call.now + (d.retryAfter - 1) as real ==> next.Refused?)
  {
    hide Gain;
    OthersLeaveBucket(TakeOne(bs, c, call).0, c, others, call.device);
    RetryAfterIsHonest(Find(bs, Key(call.device)), Capacity(c, call.device), Rate(c), call.now, later);
  }

  /** Every state a limiter can reach holds no bucket above its capacity or below nothing. */
  lemma {:induction false} ReachableIsProper(bs: Buckets, c: Config, calls: seq<Call>)
    requires Usable(c) && AllProper(bs, c)
    ensures AllProper(TakeMany(bs, c, calls), c)
    decreases |calls|
  {
    hide TakeOne;
    if calls != [] {
      TakeOneIsProper(bs, c, calls[0]);
      ReachableIsProper(TakeOne(bs, c, calls[0]).0, c, calls[1..]);
    }
  }

  /** The bound in every stretch of time of a limiter's life, whatever calls, at whatever times, came before it. */
  lemma EveryWindowIsBounded(c: Config, before: seq<Call>, calls: seq<Call>, device: string, from: real, to: real)
    requires Usable(c) && from <= to
    requires forall i | 0 <= i < |calls| :: from <= calls[i].now <= to
    ensures Grants(DecisionsFor(TakeMany(map[], c, before), c, calls, device)) as real
         <= Capacity(c, device) + Gain(to - from, Rate(c))
  {
    hide Gain;
    ReachableIsProper(map[], c, before);
    DeviceIsBounded(TakeMany(map[], c, before), c, calls, device, from, to);
  }

  /** No bucket was last touched after `now`. */
  ghost predicate TouchedBy(bs: Buckets, now: real) {
    forall key | key in bs :: bs[key].last <= now
  }

  lemma {:induction false} ReachableIsTouched(bs: Buckets, c: Config, calls: seq<Call>, now: real)
    requires Usable(c) && TouchedBy(bs, now) && forall i | 0 <= i < |calls| :: calls[i].now <= now
    ensures TouchedBy(TakeMany(bs, c, calls), now)
    decreases |calls|
  {
    hide Gain;
    if calls != [] {
      ReachableIsTouched(TakeOne(bs, c, calls[0]).0, c, calls[1..], now);
    }
  }

  /** And so, at any point of a limiter's life, a refused device that waits as told is served. */
  lemma WaitingAlwaysPays(c: Config, before: seq<Call>, call: Call, others: seq<Call>, later: real)
    requires Usable(c) && forall i | 0 <= i < |before| :: before[i].now <= call.now
    requires TakeOne(TakeMany(map[], c, before), c, call).1.Refused? && call.now <= later
    requires forall i | 0 <= i < |others| :: others[i].device != call.device
    ensures var (bs, d) := TakeOne(TakeMany(map[], c, before), c, call);
            var next := TakeOne(TakeMany(bs, c, others), c, Call(call.device, later)).1;
      && (later >= call.now + d.retryAfter as real ==> next.Granted?)
      && (later < call.now + (d.retryAfter - 1) as real ==> next.Refused?)
  {
    hide TakeOne;
    ReachableIsProper(map[], c, before);
    ReachableIsTouched(map[], c, before, call.now);
    WaitingPays(TakeMany(map[], c, before), c, call, others, later);
  }

  // The limiter as an object.

  class Cell {
    var tokens: real
    var lastTaken: real

    ghost function Value(): Bucket
      reads this
    {
      Bucket(tokens, lastTaken)
    }

    constructor (tokens: real, now: real)
      ensures Value() == Bucket(tokens, now)
    {
      this.tokens, lastTaken := tokens, now;
    }

    /** Refills the bucket up to now and takes one token if there is one. */
    method Spend(capacity: real, rate: real, now: real) returns (ok: bool, retryAfter: int)
      requires rate > 0.0
      modifies this
      ensures var (b, d) := TokenBuckets.Take(Some(old(Value())), capacity, rate, now);
        Value() == b && ok == d.Granted? && retryAfter == if ok then 0 else d.retryAfter
    {
      hide Gain;
      var elapsed := now - lastTaken;
      if elapsed > 0.0 {
        tokens := tokens + Gain(elapsed, rate);
        if tokens > capacity {
          tokens := capacity;
        }
        lastTaken := now;
      }
      if tokens >= 1.0 {
        tokens := tokens - 1.0;
        return true, 0;
      }
      var missing := 1.0 - tokens;
      retryAfter := (missing / rate).Floor + 1;
      if retryAfter < 1 {
        retryAfter := 1;
      }
      return false, retryAfter;
    }
  }

  class Limiter {
    const cfg: Config
    var buckets: map<string, Cell>

    ghost predicate Valid()
      reads this
    {
      Usable(cfg) && forall a, b | a in buckets && b in buckets && a != b :: buckets[a] != buckets[b]
    }

    ghost function View(): Buckets
      reads this, buckets.Values
    {
      map key | key in buckets :: buckets[key].Value()
    }

    constructor (cfg: Config)
      ensures Valid() && View() == map[] && this.cfg == Normalise(cfg)
    {
      this.cfg := Normalise(cfg);
      buckets := map[];
      new;
      NormaliseIsUsable(cfg);
    }

    method Take(device: string, now: real) returns (ok: bool, retryAfter: int)
      requires Valid()
      modifies this, buckets.Values
      ensures Valid() && fresh(buckets.Values - old(buckets.Values))
      ensures var (bs, d) := TakeOne(old(View()), cfg, Call(device, now));
        View() == bs && ok == d.Granted? && retryAfter == if ok then 0 else d.retryAfter
    {
      var key := Key(device);
      var capacity := Capacity(cfg, device);
      ghost var before := View();
      if key !in buckets {
        var cell := new Cell(capacity, now);
        buckets := buckets[key := cell];
      }
      ok, retryAfter := buckets[key].Spend(capacity, Rate(cfg), now);
      assert View() == before[key := buckets[key].Value()];
    }
  }

  /** The per-session limiter of the signalling socket. */
  class TokenBucket {
    var tokens: real
    const max: real
    const rate: real
    var last: real

    ghost function Value(): Bucket
      reads this
    {
      Bucket(tokens, last)
    }

    constructor (max: real, rate: real, now: real)
      ensures Value() == Bucket(max, now) && this.max == max && this.rate == rate
    {
      tokens, this.max, this.rate, last := max, max, rate, now;
    }

    method Allow(now: real) returns (ok: bool)
      modifies this
      ensures (Value(), ok) == TokenBuckets.Allow(old(Value()), max, rate, now)
    {
      hide Gain;
      var elapsed := now - last;
      last := now;
      tokens := tokens + Gain(elapsed, rate);
      if tokens > max {
        tokens := max;
      }
      if tokens >= 1.0 {
        tokens := tokens - 1.0;
        return true;
      }
      return false;
    }
  }
}
