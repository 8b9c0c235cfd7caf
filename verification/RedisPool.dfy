/** The pool as a client of a sorted set that its commands update in place. */
module RedisPool {
  import opened Wrappers
  import opened PoolMembers
  import opened PoolModel

  /** The sorted set on the Redis side and the commands the pool sends it. */
  class SortedSet {
    var scores: Zset

    constructor ()
      ensures scores == map[]
    {
      scores := map[];
    }

    method ZAdd(score: int, member: string)
      modifies this
      ensures scores == old(scores)[member := score]
    {
      scores := scores[member := score];
    }

    method ZRem(member: string)
      modifies this
      ensures scores == old(scores) - {member}
    {
      scores := scores - {member};
    }

    method ZRemRangeByScore(lo: Option<int>, hi: int) returns (removed: int)
      modifies this
      ensures scores == RemoveByScore(old(scores), lo, hi)
      ensures removed == |old(scores)| - |scores|
    {
      var before := |scores|;
      scores := RemoveByScore(scores, lo, hi);
      removed := before - |scores|;
    }

    method ZRangeByScore(min: int, limit: nat) returns (members: seq<string>)
      ensures members == RangeByScore(scores, min, limit)
    {
      members := RangeByScore(scores, min, limit);
    }

    method ZRange() returns (members: seq<string>)
      ensures members == Ordered(scores)
    {
      members := Ordered(scores);
    }

    method ZCard() returns (n: nat)
      ensures n == |scores|
    {
      n := |scores|;
    }
  }

  class RedisPool {
    const client: SortedSet
    var scanLimit: nat

    constructor (client: SortedSet)
      ensures this.client == client && scanLimit == 50
    {
      this.client, scanLimit := client, DEFAULT_SCAN_LIMIT;
    }

    method SetScanLimit(n: int)
      modifies this
      ensures scanLimit == if n > 0 then n else old(scanLimit)
    {
      if n > 0 {
        scanLimit := n;
      }
    }

    /** The script Redis runs as one command; "" stands for no match. */
    method MatchScript(now: int, c: Criteria) returns (found: string)
      modifies client
      ensures (client.scores, if found == "" then None else Some(found))
           == Script(old(client.scores), c, now, scanLimit)
    {
      var _ := client.ZRemRangeByScore(None, now);
      var members := client.ZRangeByScore(now, scanLimit);
      ghost var clean := client.scores;
      CleanIsActive(old(client.scores), now);
      if |members| == 0 {
        return "";
      }
      var i := 0;
      while i < |members|
        invariant 0 <= i <= |members|
        invariant client.scores == clean
        invariant Pick(members, c) == Pick(members[i..], c)
      {
        var m := members[i];
        assert members[i..][0] == m && members[i..][1..] == members[i + 1..];
        var fields := LuaFields(m);
        if fields.Some? {
          var op_ok := Any(c.operator) || fields.value.op == c.operator;
          var co_ok := Any(c.country) || fields.value.co == c.country;
          var ap_ok := Any(c.app) || fields.value.ap == c.app;
          if op_ok && co_ok && ap_ok {
            client.ZRem(m);
            return m;
          }
        }
        i := i + 1;
      }
      var _ := client.ZRemRangeByScore(None, now);
      return "";
    }

    method RegisterReceiver(info: Info, ttl: int, t: nat) returns (error: Option<PoolError>)
      modifies client
      ensures (client.scores, error) == PoolModel.RegisterReceiver(old(client.scores), info, ttl, t)
    {
      if info.hash == "" {
        return Some(EmptyHash);
      }
      var lifetime := ttl;
      if ttl <= 0 {
        lifetime := DEFAULT_POOL_TTL;
      }
      client.ZAdd(Seconds(t + lifetime), EncodeMember(info));
      return None;
    }

    method MatchSender(c: Criteria, t: nat) returns (r: Result<Info, PoolError>)
      modifies client
      ensures (client.scores, Sent(r)) == Exec(old(client.scores), scanLimit, Match(c, t))
    {
      var member := MatchScript(Seconds(t), c);
      if member == "" {
        return Failure(NotFound);
      }
      var info := DecodeMember(member);
      if info.None? {
        return Failure(Malformed);
      }
      return Success(info.value);
    }

    method Count(t: nat) returns (n: nat)
      modifies client
      ensures (client.scores, Size(n)) == Exec(old(client.scores), scanLimit, Cmd.Count(t))
    {
      var _ := client.ZRemRangeByScore(Some(0), Seconds(t));
      n := client.ZCard();
    }

    /** The loop of DeleteByHash over its snapshot of the set. */
    method RemoveMatching(members: seq<string>, hash: string) returns (removed: nat)
      requires (forall m | m in members :: m in client.scores) && Distinct(members)
      modifies client
      ensures client.scores == old(client.scores) - Victims(members, hash)
      ensures removed + |client.scores| == |old(client.scores)|
    {
      ghost var before := client.scores;
      removed := 0;
      var i := 0;
      while i < |members|
        invariant 0 <= i <= |members|
        invariant client.scores == before - Victims(members[..i], hash)
        invariant removed + |client.scores| == |before|
      {
        VictimsOneMore(before, members, i, hash);
        var info := DecodeMember(members[i]);
        if info.Some? && info.value.hash == hash {
          client.ZRem(members[i]);
          removed := removed + 1;
        }
        i := i + 1;
      }
      assert members[..i] == members;
    }

    method DeleteByHash(hash: string) returns (removed: nat)
      modifies client
      ensures client.scores == PoolModel.DeleteByHash(old(client.scores), hash)
      ensures removed + |client.scores| == |old(client.scores)|
    {
      if hash == "" {
        return 0;
      }
      var members := client.ZRange();
      OrderedIsDistinct(client.scores);
      AllVictims(client.scores, members, hash);
      removed := RemoveMatching(members, hash);
    }

    method SweepIdle(t: nat) returns (removed: int)
      modifies client
      ensures client.scores == Exec(old(client.scores), scanLimit, Sweep(t)).0
      ensures removed == |old(client.scores)| - |client.scores|
    {
      removed := client.ZRemRangeByScore(Some(0), Seconds(t));
    }
  }

  /** The members among `done` that a deletion removes. */
  function Victims(done: seq<string>, hash: string): set<string> {
    set m | m in done && Carries(m, hash)
  }

  predicate Distinct(s: seq<string>) {
    forall i, j | 0 <= i < j < |s| :: s[i] != s[j]
  }

  lemma OrderedIsDistinct(z: Zset)
    ensures Distinct(Ordered(z)) && forall m :: m in Ordered(z) <==> m in z
  {
    OrderedHasKeys(z);
    forall i, j | 0 <= i < j < |z| ensures Ordered(z)[i] != Ordered(z)[j] {
      OrderedIsSorted(z, i, j);
      BeforeIsAsymmetric(z, Ordered(z)[i], Ordered(z)[j]);
    }
  }

  lemma VictimsOneMore(z: Zset, s: seq<string>, i: nat, hash: string)
    requires i < |s| && Distinct(s) && forall m | m in s :: m in z
    ensures var m, now, next := s[i], z - Victims(s[..i], hash), z - Victims(s[..i + 1], hash);
      if Carries(m, hash) then m in now && next == now - {m} && |now - {m}| == |now| - 1 else next == now
  {
    VictimsStep(s, i, hash);
    if Carries(s[i], hash) {
      RemoveFromDifference(z, Victims(s[..i], hash), s[i]);
    }
  }

  lemma VictimsStep(s: seq<string>, i: nat, hash: string)
    requires i < |s| && Distinct(s)
    ensures s[i] !in Victims(s[..i], hash)
    ensures Victims(s[..i + 1], hash)
         == if Carries(s[i], hash) then Victims(s[..i], hash) + {s[i]} else Victims(s[..i], hash)
  {
    assert s[..i + 1] == s[..i] + [s[i]];
    forall x ensures x in s[..i + 1] <==> x in s[..i] || x == s[i] {
    }
  }

  lemma AllVictims(z: Zset, s: seq<string>, hash: string)
    requires hash != "" && forall m :: m in s <==> m in z
    ensures z - Victims(s, hash) == DeleteByHash(z, hash)
  {
  }

  lemma RemoveFromDifference(z: Zset, v: set<string>, m: string)
    requires m in z && m !in v
    ensures z - (v + {m}) == (z - v) - {m}
    ensures m in z - v && |(z - v) - {m}| == |z - v| - 1
  {
    assert (z - v).Keys == ((z - v) - {m}).Keys + {m};
  }
}
