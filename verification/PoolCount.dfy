/** Count as it really runs: it drops expired receivers, and asks for the size in a second round trip. */
module PoolCount {
  import opened Wrappers
  import opened PoolMembers
  import opened PoolModel
  import opened PoolRuns

  /** `between` is what others do between the two round trips. */
  function SplitCount(z: Zset, limit: nat, t: nat, between: seq<Cmd>): (Zset, nat) {
    var z' := Run(RemoveByScore(z, Some(0), Seconds(t)), limit, between);
    (z', |z'|)
  }

  function PlainRun(p: Zset, limit: nat, cmds: seq<Cmd>): Zset
    decreases |cmds|
  {
    if cmds == [] then p else PlainRun(PlainExec(p, limit, cmds[0]).0, limit, cmds[1..])
  }

  /** The last clock reading of a run. */
  function LastTime(cmds: seq<Cmd>, now: nat): nat
    decreases |cmds|
  {
    if cmds == [] then now else LastTime(cmds[1..], TimeOf(cmds[0], now))
  }

  /** What is stored is stored in the plain set too, with the same expiry. */
  predicate Under(z: Zset, p: Zset) {
    forall m | m in z :: m in p && p[m] == z[m]
  }

  lemma StepUnder(z: Zset, p: Zset, limit: nat, now: nat, cmd: Cmd)
    requires Agree(z, p, now) && Under(z, p) && now <= TimeOf(cmd, now)
    ensures Under(Exec(z, limit, cmd).0, PlainExec(p, limit, cmd).0)
  {
    if cmd.Match? {
      AgreeLater(z, p, now, cmd.t);
      MatchAgrees(z, p, limit, cmd.t, cmd.criteria);
      ScriptMeetsSpec(z, cmd.criteria, Seconds(cmd.t), limit);
    }
  }

  lemma {:induction false} RunAgrees(z: Zset, p: Zset, limit: nat, now: nat, cmds: seq<Cmd>)
    requires Agree(z, p, now) && Under(z, p) && Forward(cmds, now)
    ensures Agree(Run(z, limit, cmds), PlainRun(p, limit, cmds), LastTime(cmds, now))
    ensures Under(Run(z, limit, cmds), PlainRun(p, limit, cmds))
    decreases |cmds|
  {
    hide Exec, PlainExec, Agree, Under;
    if cmds != [] {
      StepAgrees(z, p, limit, now, cmds[0]);
      StepUnder(z, p, limit, now, cmds[0]);
      RunAgrees(Exec(z, limit, cmds[0]).0, PlainExec(p, limit, cmds[0]).0, limit, TimeOf(cmds[0], now), cmds[1..]);
    }
  }

  lemma TrimAgrees(z: Zset, p: Zset, t: nat)
    requires Agree(z, p, t) && Under(z, p)
    ensures var z' := RemoveByScore(z, Some(0), Seconds(t));
      Agree(z', p, t) && Under(z', p) && forall m | m in z' :: z'[m] > Seconds(t)
  {
    AgreeAtZero(z, p, t);
  }

  /** One of the commands registers this member for less than a second. */
  predicate RegisteredBriefly(cmds: seq<Cmd>, m: string) {
    exists i | 0 <= i < |cmds| :: IsBrief(cmds[i], m)
  }

  predicate IsBrief(cmd: Cmd, m: string) {
    cmd.Register? && cmd.info.hash != "" && EncodeMember(cmd.info) == m && 0 < cmd.ttl < NANOS
  }

  lemma LastingExpiry(ttl: int, t: nat, now: nat)
    requires now <= t && (ttl <= 0 || ttl >= NANOS)
    ensures Expiry(ttl, t) > Seconds(now)
  {
    assert Seconds(t + NANOS) == Seconds(t) + 1;
  }

  lemma StepStaysAlive(z: Zset, limit: nat, now: nat, cmd: Cmd, s: int, m: string)
    requires now <= TimeOf(cmd, now) && s <= Seconds(now) && m in Exec(z, limit, cmd).0
    ensures Exec(z, limit, cmd).0[m] > s || IsBrief(cmd, m) || (m in z && z[m] <= s)
  {
    if cmd.Register? {
      if !IsBrief(cmd, m) && cmd.info.hash != "" && EncodeMember(cmd.info) == m {
        LastingExpiry(cmd.ttl, cmd.t, now);
      }
    } else if cmd.Match? {
      ScriptMeetsSpec(z, cmd.criteria, Seconds(cmd.t), limit);
    }
  }

  lemma {:induction false} RunStaysAlive(z: Zset, limit: nat, now: nat, cmds: seq<Cmd>, s: int, m: string)
    requires Forward(cmds, now) && s <= Seconds(now) && m in Run(z, limit, cmds) && Run(z, limit, cmds)[m] <= s
    ensures RegisteredBriefly(cmds, m) || (m in z && z[m] <= s)
    decreases |cmds|
  {
    hide Exec, IsBrief;
    if cmds != [] {
      var z' := Exec(z, limit, cmds[0]).0;
      assert Seconds(now) <= Seconds(TimeOf(cmds[0], now));
      RunStaysAlive(z', limit, TimeOf(cmds[0], now), cmds[1..], s, m);
      if RegisteredBriefly(cmds[1..], m) {
        var i :| 0 <= i < |cmds| - 1 && IsBrief(cmds[1..][i], m);
        assert IsBrief(cmds[i + 1], m);
      } else {
        StepStaysAlive(z, limit, now, cmds[0], s, m);
      }
    }
  }

  lemma SmallerMap(a: Zset, b: Zset)
    requires a.Keys <= b.Keys
    ensures |a| <= |b| && (|a| == |b| <==> a.Keys == b.Keys)
  {
    SubsetSize(a.Keys, b.Keys);
    assert |a| == |a.Keys| && |b| == |b.Keys|;
  }

  lemma SubsetSize(a: set<string>, b: set<string>)
    requires a <= b
    ensures |a| <= |b| && (|a| == |b| <==> a == b)
  {
    assert b == a + (b - a);
    assert |b| == |a| + |b - a|;
    assert |b - a| == 0 <==> b - a == {};
  }

  /** Active by the reading `Count` took, but cleaned up before its second round trip. */
  function Missed(atT: Zset, z': Zset): set<string> {
    set m | m in atT && m !in z'
  }

  /** Stored at the second round trip although expired by the reading `Count` took. */
  function Expired(z': Zset, s: int): set<string> {
    set m | m in z' && z'[m] <= s
  }

  lemma DifferencesBalance(a: set<string>, b: set<string>)
    ensures |a| + |b - a| == |b| + |a - b|
  {
    assert a == a * b + (a - b) && b == a * b + (b - a);
    assert |a| == |a * b| + |a - b| && |b| == |a * b| + |b - a|;
  }

  lemma CountBalances(z': Zset, atT: Zset, s: int)
    requires forall m | m in z' :: m in atT <==> z'[m] > s
    ensures |z'| + |Missed(atT, z')| == |atT| + |Expired(z', s)|
  {
    assert Missed(atT, z') == atT.Keys - z'.Keys && Expired(z', s) == z'.Keys - atT.Keys;
    DifferencesBalance(z'.Keys, atT.Keys);
  }

  /** In any run that starts from one set, the two sets stay as these statements ask. */
  lemma PointsOfRunsAgree(z: Zset, limit: nat, now: nat, before: seq<Cmd>, t: nat)
    requires Dated(z) && Forward(before, now) && LastTime(before, now) <= t
    ensures Agree(Run(z, limit, before), PlainRun(z, limit, before), t)
    ensures Under(Run(z, limit, before), PlainRun(z, limit, before))
  {
    RunAgrees(z, z, limit, now, before);
    AgreeLater(Run(z, limit, before), PlainRun(z, limit, before), LastTime(before, now), t);
  }

  /**
   A reply of `Count` in a run, with anything in between its two round trips. Beside what the plain set
   counts at the moment of the second one, by the reading `Count` took, it misses the receivers that
   were cleaned up in between though active by that reading, and it has too many of those that someone
   registered in between for so short a time that they had expired by it. It never misses a receiver
   that is active by the last reading of all.
   */
  lemma SplitCountIsBounded(z: Zset, limit: nat, now: nat, before: seq<Cmd>, t: nat, between: seq<Cmd>)
    requires Dated(z) && Forward(before, now) && LastTime(before, now) <= t && Forward(between, t)
    ensures var (z', n) := SplitCount(Run(z, limit, before), limit, t, between);
            var p' := PlainRun(PlainRun(z, limit, before), limit, between);
            var atT, atLast := Active(p', Seconds(t)), Active(p', Seconds(LastTime(between, t)));
      && PlainExec(p', limit, Count(t)).1 == Size(|atT|)
      && n + |Missed(atT, z')| == |atT| + |Expired(z', Seconds(t))|
      && atLast.Keys <= z'.Keys
      && forall m | m in Expired(z', Seconds(t)) :: RegisteredBriefly(between, m)
  {
    var z0, p := Run(z, limit, before), PlainRun(z, limit, before);
    var trimmed := RemoveByScore(z0, Some(0), Seconds(t));
    var z', p', last := Run(trimmed, limit, between), PlainRun(p, limit, between), LastTime(between, t);
    PointsOfRunsAgree(z, limit, now, before, t);
    TrimAgrees(z0, p, t);
    RunAgrees(trimmed, p, limit, t, between);
    CountBalances(z', Active(p', Seconds(t)), Seconds(t));
    forall m | m in Expired(z', Seconds(t)) ensures RegisteredBriefly(between, m) {
      RunStaysAlive(trimmed, limit, t, between, Seconds(t), m);
    }
  }

  /** So within one second of the clock it is the count made at once, and those that come and go within it. */
  lemma SplitCountWithinASecond(z: Zset, limit: nat, now: nat, before: seq<Cmd>, t: nat, between: seq<Cmd>)
    requires Dated(z) && Forward(before, now) && LastTime(before, now) <= t && Forward(between, t)
    requires Seconds(LastTime(between, t)) == Seconds(t)
    ensures var (z', n) := SplitCount(Run(z, limit, before), limit, t, between);
            var atT := Active(PlainRun(PlainRun(z, limit, before), limit, between), Seconds(t));
      && n == |atT| + |Expired(z', Seconds(t))|
      && forall m | m in Expired(z', Seconds(t)) :: RegisteredBriefly(between, m)
  {
    SplitCountIsBounded(z, limit, now, before, t, between);
    var z' := SplitCount(Run(z, limit, before), limit, t, between).0;
    var p' := PlainRun(PlainRun(z, limit, before), limit, between);
    assert Missed(Active(p', Seconds(t)), z') == {};
  }

  /** And a sweep in between shows exactly if a receiver expired between the two clock readings. */
  lemma SweepBetweenShows(z: Zset, limit: nat, t: nat, t': nat)
    requires Dated(z) && t <= t'
    ensures Exec(z, limit, Count(t)).1 == Size(SplitCount(z, limit, t, [Sweep(t')]).1) <==>
      forall m | m in z && z[m] > Seconds(t) :: z[m] > Seconds(t')
  {
    var trimmed := RemoveByScore(z, Some(0), Seconds(t));
    var swept := RemoveByScore(trimmed, Some(0), Seconds(t'));
    assert Run(trimmed, limit, [Sweep(t')]) == swept by {
      assert [Sweep(t')][1..] == [];
    }
    SmallerMap(swept, trimmed);
    assert forall m | m in z && z[m] > Seconds(t) :: m in trimmed && (m in swept <==> z[m] > Seconds(t'));
    assert swept.Keys == trimmed.Keys <==> forall m | m in trimmed :: m in swept;
  }
}
