/** Two lazily refilled token buckets. Times are seconds and tokens are reals, without rounding. */
module TokenBuckets {
  import opened Wrappers

  datatype Bucket = Bucket(tokens: real, last: real)

  datatype Decision = Granted | Refused(retryAfter: int)

  /** What a stretch of time brings. */
  function Gain(elapsed: real, rate: real): real {
    elapsed * rate
  }

  function Clamp(tokens: real, capacity: real): real {
    if tokens > capacity then capacity else tokens
  }

  function Refill(b: Bucket, capacity: real, rate: real, now: real): Bucket {
    if now - b.last > 0.0 then Bucket(Clamp(b.tokens + Gain(now - b.last, rate), capacity), now) else b
  }

  function RetryAfter(missing: real, rate: real): int
    requires rate > 0.0
  {
    var s := (missing / rate).Floor + 1;
    if s < 1 then 1 else s
  }

  /** One Take on a bucket; a missing bucket starts full. */
  function Take(b: Option<Bucket>, capacity: real, rate: real, now: real): (Bucket, Decision)
    requires rate > 0.0
  {
    var filled := Refill(if b.Some? then b.value else Bucket(capacity, now), capacity, rate, now);
    if filled.tokens >= 1.0 then (filled.(tokens := filled.tokens - 1.0), Granted)
    else (filled, Refused(RetryAfter(1.0 - filled.tokens, rate)))
  }

  /** The other limiter: it trusts the clock and reports no waiting time. */
  function Allow(b: Bucket, capacity: real, rate: real, now: real): (Bucket, bool) {
    SpendOne(Bucket(Clamp(b.tokens + Gain(now - b.last, rate), capacity), now))
  }

  function SpendOne(b: Bucket): (Bucket, bool) {
    if b.tokens >= 1.0 then (b.(tokens := b.tokens - 1.0), true) else (b, false)
  }

  predicate Proper(b: Bucket, capacity: real) {
    0.0 <= b.tokens <= capacity
  }

  lemma GainTelescopes(a: real, b: real, c: real, rate: real)
    ensures Gain(c - a, rate) == Gain(b - a, rate) + Gain(c - b, rate)
  {
  }

  lemma GainIsMonotone(x: real, y: real, rate: real)
    requires x <= y && 0.0 <= rate
    ensures Gain(x, rate) <= Gain(y, rate)
  {
  }

  lemma GainIsStrict(x: real, y: real, rate: real)
    requires x < y && 0.0 < rate
    ensures Gain(x, rate) < Gain(y, rate)
  {
  }

  lemma GainOfNothing(rate: real)
    ensures Gain(0.0, rate) == 0.0
  {
  }

  lemma GainIsNonnegative(x: real, rate: real)
    requires 0.0 <= x && 0.0 <= rate
    ensures 0.0 <= Gain(x, rate)
  {
  }

  /** Refilling in two goes is refilling in one. */
  lemma RefillIsAdditive(b: Bucket, capacity: real, rate: real, t1: real, t2: real)
    requires rate > 0.0 && Proper(b, capacity) && b.last <= t1 <= t2
    ensures Refill(Refill(b, capacity, rate, t1), capacity, rate, t2) == Refill(b, capacity, rate, t2)
  {
    hide Gain;
    GainTelescopes(b.last, t1, t2, rate);
    GainIsNonnegative(t1 - b.last, rate);
    GainIsNonnegative(t2 - t1, rate);
  }

  /** A refill stays inside the bucket, and brings no more than the time since the last one. */
  lemma RefillIsProper(b: Bucket, capacity: real, rate: real, now: real)
    requires rate > 0.0 && Proper(b, capacity)
    ensures var f := Refill(b, capacity, rate, now);
      && Proper(f, capacity) && f.last == Max(now, b.last)
      && f.tokens <= b.tokens + Gain(f.last - b.last, rate)
  {
    hide Gain;
    GainIsNonnegative(Max(now, b.last) - b.last, rate);
  }

  lemma TakeIsProper(b: Option<Bucket>, capacity: real, rate: real, now: real)
    requires rate > 0.0 && capacity >= 1.0 && (b.Some? ==> Proper(b.value, capacity))
    ensures Proper(Take(b, capacity, rate, now).0, capacity)
  {
    hide Gain;
    RefillIsProper(if b.Some? then b.value else Bucket(capacity, now), capacity, rate, now);
  }

  // How many tokens a sequence of calls can take.

  /** The calls at these times, in order, on one bucket. */
  function TakeAll(b: Option<Bucket>, capacity: real, rate: real, times: seq<real>): seq<Decision>
    requires rate > 0.0
    decreases |times|
  {
    if times == [] then []
    else
      var (b', d) := Take(b, capacity, rate, times[0]);
      [d] + TakeAll(Some(b'), capacity, rate, times[1..])
  }

  function Grants(ds: seq<Decision>): nat {
    if ds == [] then 0 else (if ds[0].Granted? then 1 else 0) + Grants(ds[1..])
  }

  function Max(a: real, b: real): real {
    if a < b then b else a
  }

  predicate Within(times: seq<real>, from: real, to: real) {
    forall i | 0 <= i < |times| :: from <= times[i] <= to
  }

  /** Taking spends what a refill brought. */
  lemma TakeIsFunded(b: Bucket, capacity: real, rate: real, now: real, end: real)
    requires rate > 0.0 && Proper(b, capacity) && now <= end && b.last <= end
    ensures var (b', d) := Take(Some(b), capacity, rate, now);
      && b'.last <= end
      && (if d.Granted? then 1.0 else 0.0) + b'.tokens + Gain(end - b'.last, rate)
         <= b.tokens + Gain(end - b.last, rate)
  {
    hide Gain;
    RefillIsProper(b, capacity, rate, now);
    GainTelescopes(b.last, Max(now, b.last), end, rate);
  }

  /** Tokens at hand plus what the rest of the window can bring. */
  lemma {:induction false} GrantsAreFunded(b: Bucket, capacity: real, rate: real, times: seq<real>, end: real)
    requires rate > 0.0 && capacity >= 1.0 && Proper(b, capacity) && b.last <= end
    requires forall i | 0 <= i < |times| :: times[i] <= end
    ensures Grants(TakeAll(Some(b), capacity, rate, times)) as real <= b.tokens + Gain(end - b.last, rate)
    decreases |times|
  {
    hide Gain;
    if times == [] {
      GainIsNonnegative(end - b.last, rate);
    } else {
      var (b', d) := Take(Some(b), capacity, rate, times[0]);
      var rest := TakeAll(Some(b'), capacity, rate, times[1..]);
      TakeIsProper(Some(b), capacity, rate, times[0]);
      TakeIsFunded(b, capacity, rate, times[0], end);
      GrantsAreFunded(b', capacity, rate, times[1..], end);
      GrantsUnfold(d, rest);
      assert TakeAll(Some(b), capacity, rate, times) == [d] + rest;
    }
  }

  lemma GrantsUnfold(d: Decision, rest: seq<Decision>)
    ensures Grants([d] + rest) == (if d.Granted? then 1 else 0) + Grants(rest)
  {
    assert ([d] + rest)[1..] == rest;
  }

  lemma TakeStartsFilled(b: Option<Bucket>, capacity: real, rate: real, times: seq<real>)
    requires rate > 0.0 && times != []
    ensures var start := if b.Some? then b.value else Bucket(capacity, times[0]);
      TakeAll(b, capacity, rate, times) == TakeAll(Some(Refill(start, capacity, rate, times[0])), capacity, rate, times)
  {
    hide Gain;
    var start := if b.Some? then b.value else Bucket(capacity, times[0]);
    var filled := Refill(start, capacity, rate, times[0]);
    assert Refill(filled, capacity, rate, times[0]) == filled;
    assert Take(b, capacity, rate, times[0]) == Take(Some(filled), capacity, rate, times[0]);
  }

  /** The rate bound: inside any stretch of time, at most the capacity plus what that stretch refills. */
  lemma GrantsAreBounded(b: Option<Bucket>, capacity: real, rate: real, times: seq<real>, from: real, to: real)
    requires rate > 0.0 && capacity >= 1.0 && (b.Some? ==> Proper(b.value, capacity))
    requires from <= to && Within(times, from, to)
    ensures Grants(TakeAll(b, capacity, rate, times)) as real <= capacity + Gain(to - from, rate)
  {
    hide Gain;
    if times == [] {
      GainIsNonnegative(to - from, rate);
    } else {
      var start := if b.Some? then b.value else Bucket(capacity, times[0]);
      var filled := Refill(start, capacity, rate, times[0]);
      TakeStartsFilled(b, capacity, rate, times);
      RefillIsProper(start, capacity, rate, times[0]);
      WindowIsBounded(filled, capacity, rate, times, from, to);
    }
  }

  /** The same for a bucket last touched inside the stretch or after it. */
  lemma WindowIsBounded(b: Bucket, capacity: real, rate: real, times: seq<real>, from: real, to: real)
    requires rate > 0.0 && capacity >= 1.0 && Proper(b, capacity) && from <= b.last
    requires from <= to && Within(times, from, to)
    ensures Grants(TakeAll(Some(b), capacity, rate, times)) as real <= capacity + Gain(to - from, rate)
  {
    hide Gain;
    var end := Max(to, b.last);
    GrantsAreFunded(b, capacity, rate, times, end);
    Widen(Grants(TakeAll(Some(b), capacity, rate, times)) as real, b.tokens, b.last, end, capacity, from, to, rate);
  }

  lemma Widen(grants: real, tokens: real, last: real, end: real, capacity: real, from: real, to: real, rate: real)
    requires grants <= tokens + Gain(end - last, rate) && tokens <= capacity && rate > 0.0
    requires end - last <= to - from
    ensures grants <= capacity + Gain(to - from, rate)
  {
    hide Gain;
    GainIsMonotone(end - last, to - from, rate);
  }

  // Retry-After.

  lemma DivTimes(missing: real, rate: real)
    requires rate > 0.0 && missing > 0.0
    ensures missing / rate > 0.0 && Gain(missing / rate, rate) == missing
  {
  }

  /** The reported wait lies in a one-second window around the moment a whole token is back. */
  lemma RetryAfterIsTight(missing: real, rate: real)
    requires rate > 0.0 && missing > 0.0
    ensures RetryAfter(missing, rate) >= 1
    ensures Gain(RetryAfter(missing, rate) as real, rate) > missing
    ensures Gain((RetryAfter(missing, rate) - 1) as real, rate) <= missing
  {
    hide Gain;
    var q := missing / rate;
    DivTimes(missing, rate);
    assert RetryAfter(missing, rate) == q.Floor + 1;
    Below(q.Floor as real, q, missing, rate);
    Above(q, q.Floor as real + 1.0, missing, rate);
  }

  lemma Below(x: real, q: real, missing: real, rate: real)
    requires rate > 0.0 && Gain(q, rate) == missing && x <= q
    ensures Gain(x, rate) <= missing
  {
    hide Gain;
    GainIsMonotone(x, q, rate);
  }

  lemma Above(q: real, x: real, missing: real, rate: real)
    requires rate > 0.0 && Gain(q, rate) == missing && q < x
    ensures missing < Gain(x, rate)
  {
    hide Gain;
    GainIsStrict(q, x, rate);
  }

  lemma TakeAfterWait(b: Bucket, capacity: real, rate: real, later: real, enough: real)
    requires rate > 0.0 && capacity >= 1.0 && b.tokens < 1.0 && b.last <= later && enough >= 0.0
    ensures Gain(enough, rate) > 1.0 - b.tokens && later - b.last >= enough ==>
      Take(Some(b), capacity, rate, later).1.Granted?
    ensures Gain(enough, rate) <= 1.0 - b.tokens && later - b.last < enough ==>
      Take(Some(b), capacity, rate, later).1.Refused?
  {
    hide Gain;
    GainOfNothing(rate);
    if later - b.last >= enough {
      GainIsMonotone(enough, later - b.last, rate);
      GainIsNonnegative(enough, rate);
    } else {
      GainIsStrict(later - b.last, enough, rate);
    }
  }

  lemma RefusalLeaves(b: Option<Bucket>, capacity: real, rate: real, now: real)
    requires rate > 0.0 && Take(b, capacity, rate, now).1.Refused?
    requires b.Some? ==> b.value.last <= now
    ensures var (b', d) := Take(b, capacity, rate, now);
      b'.tokens < 1.0 && b'.last == now && d.retryAfter == RetryAfter(1.0 - b'.tokens, rate)
  {
    hide Gain;
  }

  /**
   After a refusal that reports s seconds, the next call succeeds if it comes s seconds later or
   more, and is refused if it comes more than a second before that.
   */
  lemma RetryAfterIsHonest(b: Option<Bucket>, capacity: real, rate: real, now: real, later: real)
    requires rate > 0.0 && capacity >= 1.0
    requires b.Some? ==> Proper(b.value, capacity) && b.value.last <= now
    requires Take(b, capacity, rate, now).1.Refused? && now <= later
    ensures var (b', d) := Take(b, capacity, rate, now);
            var next := Take(Some(b'), capacity, rate, later).1;
      && (later >= now + d.retryAfter as real ==> next.Granted?)
      && (later < now + (d.retryAfter - 1) as real ==> next.Refused?)
  {
    hide Gain;
    var (b', d) := Take(b, capacity, rate, now);
    RefusalLeaves(b, capacity, rate, now);
    RetryAfterIsTight(1.0 - b'.tokens, rate);
    TakeAfterWait(b', capacity, rate, later, d.retryAfter as real);
    TakeAfterWait(b', capacity, rate, later, (d.retryAfter - 1) as real);
  }

  // The two limiters agree while the clock does not go back.

  predicate Nondecreasing(times: seq<real>, from: real)
    decreases |times|
  {
    times != [] ==> from <= times[0] && Nondecreasing(times[1..], times[0])
  }

  function AllowAll(b: Bucket, capacity: real, rate: real, times: seq<real>): seq<bool>
    decreases |times|
  {
    if times == [] then []
    else
      var (b', ok) := Allow(b, capacity, rate, times[0]);
      [ok] + AllowAll(b', capacity, rate, times[1..])
  }

  lemma AllowIsTake(b: Bucket, capacity: real, rate: real, now: real)
    requires rate > 0.0 && Proper(b, capacity) && b.last <= now
    ensures var (b1, ok), (b2, d) := Allow(b, capacity, rate, now), Take(Some(b), capacity, rate, now);
      b1 == b2 && ok == d.Granted?
  {
    hide Gain;
    GainOfNothing(rate);
  }

  lemma {:induction false} AllowAllIsTakeAll(b: Bucket, capacity: real, rate: real, times: seq<real>)
    requires rate > 0.0 && capacity >= 1.0 && Proper(b, capacity) && Nondecreasing(times, b.last)
    ensures var oks, ds := AllowAll(b, capacity, rate, times), TakeAll(Some(b), capacity, rate, times);
      |oks| == |ds| == |times| && forall i | 0 <= i < |oks| :: oks[i] == ds[i].Granted?
    decreases |times|
  {
    hide Gain;
    if times != [] {
      AllowIsTake(b, capacity, rate, times[0]);
      TakeIsProper(Some(b), capacity, rate, times[0]);
      AllowAllIsTakeAll(Take(Some(b), capacity, rate, times[0]).0, capacity, rate, times[1..]);
    }
  }

  function Allowed(oks: seq<bool>): nat {
    if oks == [] then 0 else (if oks[0] then 1 else 0) + Allowed(oks[1..])
  }

  lemma {:induction false} SameCount(oks: seq<bool>, ds: seq<Decision>)
    requires |oks| == |ds| && forall i | 0 <= i < |oks| :: oks[i] == ds[i].Granted?
    ensures Allowed(oks) == Grants(ds)
  {
    if oks != [] {
      SameCount(oks[1..], ds[1..]);
    }
  }

  /** So the second limiter keeps the rate bound too. */
  lemma AllowedIsBounded(b: Bucket, capacity: real, rate: real, times: seq<real>, from: real, to: real)
    requires rate > 0.0 && capacity >= 1.0 && Proper(b, capacity)
    requires Nondecreasing(times, b.last) && from <= to && Within(times, from, to)
    ensures Allowed(AllowAll(b, capacity, rate, times)) as real <= capacity + Gain(to - from, rate)
  {
    hide Gain;
    AllowAllIsTakeAll(b, capacity, rate, times);
    SameCount(AllowAll(b, capacity, rate, times), TakeAll(Some(b), capacity, rate, times));
    GrantsAreBounded(Some(b), capacity, rate, times, from, to);
  }
}
