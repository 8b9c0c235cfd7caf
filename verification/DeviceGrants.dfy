/** What the REST limiter owes a device, in the numbers it is set up with. */
module DeviceGrants {
  import opened Wrappers
  import opened TokenBuckets
  import opened TokenGrants
  import opened RateLimiter

  /** The number of calls a device may make at once, from the settings as given: what is not positive has a default. */
  function Burst(given: Config, device: string): int {
    var burst := if given.burst > 0 then given.burst else 100;
    if device != "" then burst
    else if given.anonymousBurst > 0 then given.anonymousBurst
    else if burst < 4 then 1 else burst / 4
  }

  function PerMinute(given: Config): int {
    if given.refillPerMinute > 0 then given.refillPerMinute else 100
  }

  lemma SettingsGiven(given: Config, device: string)
    ensures Usable(Normalise(given))
    ensures Capacity(Normalise(given), device) == Burst(given, device) as real >= 1.0
    ensures Rate(Normalise(given)) * 60.0 == PerMinute(given) as real
  {
  }

  /** From a fresh limiter, a device is served its burst of calls, whenever they come and whoever else calls. */
  lemma BurstIsServed(given: Config, calls: seq<Call>, device: string)
    ensures Usable(Normalise(given))
    ensures var ds := DecisionsFor(map[], Normalise(given), calls, device);
      && |ds| == |TimesFor(calls, device)|
      && forall i | 0 <= i < |ds| && i < Burst(given, device) :: ds[i].Granted?
  {
    var c := Normalise(given);
    SettingsGiven(given, device);
    DevicesAreIndependent(map[], c, calls, device);
    NewBucketServesItsCapacity(Capacity(c, device), Rate(c), TimesFor(calls, device));
    hide Gain, Normalise, Capacity, Rate, Burst;
  }

  lemma StartsFull(capacity: real, rate: real, now: real, times: seq<real>)
    requires rate > 0.0 && times != [] && times[0] == now
    ensures TakeAll(None, capacity, rate, times) == TakeAll(Some(Bucket(capacity, now)), capacity, rate, times)
  {
  }

  /** An empty bucket, a minute later. */
  lemma MinuteLater(b: Bucket, capacity: real, rate: real, perMinute: int, times: seq<real>)
    requires rate > 0.0 && rate * 60.0 == perMinute as real && b.tokens == 0.0 && capacity >= 1.0
    requires AllAt(times, b.last + 60.0)
    ensures |TakeAll(Some(b), capacity, rate, times)| == |times|
    ensures forall i | 0 <= i < |times| ::
      TakeAll(Some(b), capacity, rate, times)[i].Granted? <==> (i + 1) as real <= capacity && i + 1 <= perMinute
  {
    var now := b.last + 60.0;
    assert (now - b.last) * rate == perMinute as real;
    BurstAfterSilence(b, capacity, rate, now, times);
    hide TakeAll;
  }

  lemma {:induction false} UsedUpThenMinute(n: nat, rate: real, perMinute: int, now: real, more: nat)
    requires n >= 1 && rate > 0.0 && rate * 60.0 == perMinute as real
    ensures var ds := TakeAll(None, n as real, rate, seq(n, i => now) + seq(more, i => now + 60.0));
      && |ds| == n + more
      && (forall i | 0 <= i < n :: ds[i].Granted?)
      && forall i | n <= i < n + more :: ds[i].Granted? <==> i - n < perMinute && i - n < n
  {
    var b := Bucket(n as real, now);
    var first, next := seq(n, i => now), seq(more, i => now + 60.0);
    hide Take, TakeAll, Held;
    StartsFull(n as real, rate, now, first + next);
    TakeAllSplits(b, n as real, rate, first, next);
    InstantIsCounted(b, n as real, rate, first);
    MinuteLater(Held(b, n as real, rate, first), n as real, rate, perMinute, next);
  }

  /**
   A device that has used up its burst at one moment, and comes back a minute later, is served exactly as many
   calls as a minute refills, or its burst if that is less.
   */
  lemma MinuteBringsRefill(given: Config, calls: seq<Call>, device: string, now: real, more: nat)
    requires TimesFor(calls, device) ==
      seq(Burst(given, device), i => now) + seq(more, i => now + 60.0)
    ensures Usable(Normalise(given))
    ensures var ds, n := DecisionsFor(map[], Normalise(given), calls, device), Burst(given, device);
      && |ds| == n + more
      && (forall i | 0 <= i < n :: ds[i].Granted?)
      && forall i | n <= i < n + more :: ds[i].Granted? <==> i - n < PerMinute(given) && i - n < n
  {
    var c := Normalise(given);
    SettingsGiven(given, device);
    DevicesAreIndependent(map[], c, calls, device);
    hide Normalise, Capacity, Rate, Burst, PerMinute;
    UsedUpThenMinute(Burst(given, device), Rate(c), PerMinute(given), now, more);
  }
}
