/**
 What a bucket grants: a call costs one token and no more, a refusal costs nothing, and time brings what it
 should. The upper bounds are in `TokenBuckets`.
 */
module TokenGrants {
  import opened Wrappers
  import opened TokenBuckets

  lemma OneTokenIsEnough(b: Bucket, capacity: real, rate: real, now: real)
    requires rate > 0.0 && Proper(b, capacity) && b.tokens >= 1.0
    ensures var (b', d) := Take(Some(b), capacity, rate, now);
      d.Granted? && Proper(b', capacity) && b'.tokens >= b.tokens - 1.0
  {
    hide Gain;
    GainIsNonnegative(Max(now, b.last) - b.last, rate);
  }

  /** A bucket serves as many calls as it holds whole tokens, at whatever times they come. */
  lemma {:induction false} TokensAreCalls(b: Bucket, capacity: real, rate: real, times: seq<real>)
    requires rate > 0.0 && Proper(b, capacity)
    ensures |TakeAll(Some(b), capacity, rate, times)| == |times|
    ensures forall i | 0 <= i < |times| && (i + 1) as real <= b.tokens ::
      TakeAll(Some(b), capacity, rate, times)[i].Granted?
    decreases |times|
  {
    hide Gain, Take;
    if times != [] {
      var (b', d) := Take(Some(b), capacity, rate, times[0]);
      var rest := TakeAll(Some(b'), capacity, rate, times[1..]);
      assert TakeAll(Some(b), capacity, rate, times) == [d] + rest;
      if b.tokens >= 1.0 {
        OneTokenIsEnough(b, capacity, rate, times[0]);
        TokensAreCalls(b', capacity, rate, times[1..]);
      } else {
        SameLength(Some(b'), capacity, rate, times[1..]);
      }
    }
  }

  lemma {:induction false} SameLength(b: Option<Bucket>, capacity: real, rate: real, times: seq<real>)
    requires rate > 0.0
    ensures |TakeAll(b, capacity, rate, times)| == |times|
    decreases |times|
  {
    hide Take;
    if times != [] {
      SameLength(Some(Take(b, capacity, rate, times[0]).0), capacity, rate, times[1..]);
    }
  }

  /** So a bucket never used serves its whole capacity. */
  lemma NewBucketServesItsCapacity(capacity: real, rate: real, times: seq<real>)
    requires rate > 0.0 && capacity >= 0.0
    ensures |TakeAll(None, capacity, rate, times)| == |times|
    ensures forall i | 0 <= i < |times| && (i + 1) as real <= capacity ::
      TakeAll(None, capacity, rate, times)[i].Granted?
  {
    hide Gain;
    if times != [] {
      var b := Bucket(capacity, times[0]);
      assert Take(None, capacity, rate, times[0]) == Take(Some(b), capacity, rate, times[0]);
      assert TakeAll(None, capacity, rate, times) == TakeAll(Some(b), capacity, rate, times);
      TokensAreCalls(b, capacity, rate, times);
    }
  }

  predicate AllAt(times: seq<real>, now: real) {
    forall i | 0 <= i < |times| :: times[i] == now
  }

  /** The bucket after the calls. */
  function Held(b: Bucket, capacity: real, rate: real, times: seq<real>): Bucket
    requires rate > 0.0
    decreases |times|
  {
    if times == [] then b else Held(Take(Some(b), capacity, rate, times[0]).0, capacity, rate, times[1..])
  }

  /** With no time passing, a call is granted exactly while there is a token left for it, and each costs one. */
  lemma {:induction false} InstantIsCounted(b: Bucket, capacity: real, rate: real, times: seq<real>)
    requires rate > 0.0 && Proper(b, capacity) && AllAt(times, b.last)
    ensures |TakeAll(Some(b), capacity, rate, times)| == |times|
    ensures forall i | 0 <= i < |times| ::
      TakeAll(Some(b), capacity, rate, times)[i].Granted? <==> (i + 1) as real <= b.tokens
    ensures |times| as real <= b.tokens ==>
      Held(b, capacity, rate, times) == b.(tokens := b.tokens - |times| as real)
    decreases |times|
  {
    hide Gain;
    if times != [] {
      var (b', d) := Take(Some(b), capacity, rate, times[0]);
      assert times[0] == b.last && b'.last == b.last;
      assert b' == if b.tokens >= 1.0 then b.(tokens := b.tokens - 1.0) else b;
      hide Take;
      InstantIsCounted(b', capacity, rate, times[1..]);
      var rest := TakeAll(Some(b'), capacity, rate, times[1..]);
      assert TakeAll(Some(b), capacity, rate, times) == [d] + rest;
    }
  }

  /**
   After a silence, calls at one instant are granted exactly as far as what was left and what the silence
   brought go, the capacity being the limit.
   */
  lemma BurstAfterSilence(b: Bucket, capacity: real, rate: real, now: real, times: seq<real>)
    requires rate > 0.0 && Proper(b, capacity) && b.last <= now && AllAt(times, now)
    ensures |TakeAll(Some(b), capacity, rate, times)| == |times|
    ensures forall i | 0 <= i < |times| ::
      TakeAll(Some(b), capacity, rate, times)[i].Granted? <==>
        (i + 1) as real <= capacity && (i + 1) as real <= b.tokens + (now - b.last) * rate
  {
    if times != [] {
      var filled := Refill(b, capacity, rate, now);
      RefillIsProper(b, capacity, rate, now);
      TakeStartsFilled(Some(b), capacity, rate, times);
      GainOfNothing(rate);
      assert Gain(now - b.last, rate) == (now - b.last) * rate;
      hide Gain;
      InstantIsCounted(filled, capacity, rate, times);
    }
  }

  lemma RefusedStep(b: Bucket, capacity: real, rate: real, now: real)
    requires rate > 0.0 && capacity >= 1.0 && Proper(b, capacity) && b.last <= now
    ensures var (b', d) := Take(Some(b), capacity, rate, now);
      && (d.Granted? <==> b.tokens + Gain(now - b.last, rate) >= 1.0)
      && (d.Refused? ==> b' == Bucket(b.tokens + Gain(now - b.last, rate), now) && Proper(b', capacity))
  {
    GainOfNothing(rate);
    GainIsNonnegative(now - b.last, rate);
    hide Gain;
  }

  lemma {:induction false} RefusalsKeepGain(b: Bucket, capacity: real, rate: real, times: seq<real>)
    requires rate > 0.0 && capacity >= 1.0 && Proper(b, capacity) && Nondecreasing(times, b.last) && times != []
    requires |TakeAll(Some(b), capacity, rate, times)| == |times|
    requires forall i | 0 <= i < |times| - 1 :: TakeAll(Some(b), capacity, rate, times)[i].Refused?
    ensures TakeAll(Some(b), capacity, rate, times)[|times| - 1].Granted? <==>
      b.tokens + Gain(times[|times| - 1] - b.last, rate) >= 1.0
    decreases |times|
  {
    hide Gain, Take;
    RefusedStep(b, capacity, rate, times[0]);
    if |times| > 1 {
      var (b', d) := Take(Some(b), capacity, rate, times[0]);
      var all, rest := TakeAll(Some(b), capacity, rate, times), TakeAll(Some(b'), capacity, rate, times[1..]);
      assert all == [d] + rest && all[0].Refused?;
      assert forall i | 0 <= i < |rest| :: rest[i] == all[i + 1];
      RefusalsKeepGain(b', capacity, rate, times[1..]);
      GainTelescopes(b.last, times[0], times[|times| - 1], rate);
    }
  }

  /**
   Refusals cost nothing: after any number of them a call is granted as soon as what was left before and what
   time has brought since make a whole token.
   */
  lemma RefusalsCostNothing(b: Bucket, capacity: real, rate: real, times: seq<real>)
    requires rate > 0.0 && capacity >= 1.0 && Proper(b, capacity) && Nondecreasing(times, b.last) && times != []
    ensures var all := TakeAll(Some(b), capacity, rate, times);
      && |all| == |times|
      && ((forall i | 0 <= i < |times| - 1 :: all[i].Refused?) ==>
            (all[|times| - 1].Granted? <==> b.tokens + (times[|times| - 1] - b.last) * rate >= 1.0))
  {
    SameLength(Some(b), capacity, rate, times);
    SameGain(times[|times| - 1] - b.last, rate);
    hide Gain, Take, TakeAll;
    if forall i | 0 <= i < |times| - 1 :: TakeAll(Some(b), capacity, rate, times)[i].Refused? {
      RefusalsKeepGain(b, capacity, rate, times);
    }
  }

  lemma SameGain(elapsed: real, rate: real)
    ensures Gain(elapsed, rate) == elapsed * rate
  {
  }

  lemma {:induction false} TakeAllSplits(b: Bucket, capacity: real, rate: real, first: seq<real>, next: seq<real>)
    requires rate > 0.0
    ensures TakeAll(Some(b), capacity, rate, first + next) ==
      TakeAll(Some(b), capacity, rate, first) +
      TakeAll(Some(Held(b, capacity, rate, first)), capacity, rate, next)
    decreases |first|
  {
    hide Take;
    if first == [] {
      assert first + next == next;
    } else {
      assert (first + next)[1..] == first[1..] + next;
      TakeAllSplits(Take(Some(b), capacity, rate, first[0]).0, capacity, rate, first[1..], next);
    }
  }

  /** The second limiter is as generous: it serves as many calls as its bucket holds whole tokens. */
  lemma AllowsItsTokens(b: Bucket, capacity: real, rate: real, times: seq<real>)
    requires rate > 0.0 && capacity >= 1.0 && Proper(b, capacity) && Nondecreasing(times, b.last)
    ensures |AllowAll(b, capacity, rate, times)| == |times|
    ensures forall i | 0 <= i < |times| && (i + 1) as real <= b.tokens :: AllowAll(b, capacity, rate, times)[i]
  {
    AllowAllIsTakeAll(b, capacity, rate, times);
    TokensAreCalls(b, capacity, rate, times);
  }
}
