/** Whole runs of the pool: cleanup is invisible, nothing is handed out twice, nothing is lost. */
module PoolRuns {
  import opened Wrappers
  import opened PoolMembers
  import opened PoolModel

  // The pool without any cleanup: expired receivers are only ignored, never removed.

  function PlainExec(p: Zset, limit: nat, cmd: Cmd): (Zset, Reply) {
    match cmd
    case Register(info, ttl, t) =>
      var (p', e) := RegisterReceiver(p, info, ttl, t);
      (p', Registered(e))
    case Match(c, t) =>
      var m := Pick(Candidates(p, Seconds(t), limit), c);
      (if m.Some? then p - {m.value} else p, Sent(Read(m)))
    case Count(t) => (p, Size(|Active(p, Seconds(t))|))
    case Sweep(t) => (p, Quiet)
    case Delete(hash) => (DeleteByHash(p, hash), Quiet)
  }

  /** What callers of MatchSender, Count and RegisterReceiver are told, in order. */
  function Replies(z: Zset, limit: nat, cmds: seq<Cmd>): seq<Reply>
    decreases |cmds|
  {
    if cmds == [] then []
    else
      var (z', r) := Exec(z, limit, cmds[0]);
      (if r.Quiet? then [] else [r]) + Replies(z', limit, cmds[1..])
  }

  function PlainReplies(p: Zset, limit: nat, cmds: seq<Cmd>): seq<Reply>
    decreases |cmds|
  {
    if cmds == [] then []
    else
      var (p', r) := PlainExec(p, limit, cmds[0]);
      (if r.Quiet? then [] else [r]) + PlainReplies(p', limit, cmds[1..])
  }

  function TimeOf(cmd: Cmd, before: nat): nat {
    if cmd.Delete? then before else cmd.t
  }

  /** The clock never goes back, from `now` on. */
  predicate Forward(cmds: seq<Cmd>, now: nat)
    decreases |cmds|
  {
    cmds != [] ==> now <= TimeOf(cmds[0], now) && Forward(cmds[1..], TimeOf(cmds[0], now))
  }

  predicate Dated(z: Zset) {
    forall m | m in z :: 0 <= z[m]
  }

  /** The same receivers are active from `now` on. */
  predicate Agree(z: Zset, p: Zset, now: nat) {
    Dated(z) && Active(z, Seconds(now)) == Active(p, Seconds(now))
  }

  lemma AgreeLater(z: Zset, p: Zset, now: nat, later: nat)
    requires Agree(z, p, now) && now <= later
    ensures Agree(z, p, later)
  {
    var a, b := Active(z, Seconds(now)), Active(p, Seconds(now));
    assert Seconds(now) <= Seconds(later);
    assert Active(z, Seconds(later)) == Active(a, Seconds(later));
    assert Active(p, Seconds(later)) == Active(b, Seconds(later));
  }

  lemma AgreeAtZero(z: Zset, p: Zset, now: nat)
    requires Dated(z)
    ensures RemoveByScore(z, Some(0), Seconds(now)) == Active(z, Seconds(now))
    ensures Active(Active(z, Seconds(now)), Seconds(now)) == Active(z, Seconds(now))
  {
  }

  lemma RegisterAgrees(z: Zset, p: Zset, now: nat, info: Info, ttl: int, t: nat)
    requires Agree(z, p, now)
    ensures Agree(RegisterReceiver(z, info, ttl, t).0, RegisterReceiver(p, info, ttl, t).0, now)
  {
    if info.hash != "" {
      var m, e, s := EncodeMember(info), Expiry(ttl, t), Seconds(now);
      var a, b := Active(z, s), Active(p, s);
      assert Active(z[m := e], s) == if e > s then a[m := e] else a - {m};
      assert Active(p[m := e], s) == if e > s then b[m := e] else b - {m};
    }
  }

  lemma MatchAgrees(z: Zset, p: Zset, limit: nat, now: nat, c: Criteria)
    requires Agree(z, p, now)
    ensures var m := Pick(Candidates(p, Seconds(now), limit), c);
      && Script(z, c, Seconds(now), limit).1 == m
      && Agree(Script(z, c, Seconds(now), limit).0, if m.Some? then p - {m.value} else p, now)
  {
    var s := Seconds(now);
    var a := Active(z, s);
    CleanIsActive(z, s);
    ScriptMeetsSpec(z, c, s, limit);
    var m := Pick(Candidates(p, s, limit), c);
    AgreeAtZero(z, p, now);
    if m.Some? {
      assert Active(a - {m.value}, s) == a - {m.value};
      assert Active(p - {m.value}, s) == Active(p, s) - {m.value};
    }
  }

  lemma DeleteAgrees(z: Zset, p: Zset, now: nat, hash: string)
    requires Agree(z, p, now)
    ensures Agree(DeleteByHash(z, hash), DeleteByHash(p, hash), now)
  {
    var s := Seconds(now);
    assert Active(DeleteByHash(z, hash), s) == DeleteByHash(Active(z, s), hash);
    assert Active(DeleteByHash(p, hash), s) == DeleteByHash(Active(p, s), hash);
  }

  lemma StepAgrees(z: Zset, p: Zset, limit: nat, now: nat, cmd: Cmd)
    requires Agree(z, p, now) && now <= TimeOf(cmd, now)
    ensures var (z', r), (p', r') := Exec(z, limit, cmd), PlainExec(p, limit, cmd);
      r == r' && Agree(z', p', TimeOf(cmd, now))
  {
    var t := TimeOf(cmd, now);
    AgreeLater(z, p, now, t);
    match cmd
    case Register(info, ttl, _) => RegisterAgrees(z, p, t, info, ttl, t);
    case Match(c, _) => MatchAgrees(z, p, limit, t, c);
    case Count(_) => AgreeAtZero(z, p, t);
    case Sweep(_) => AgreeAtZero(z, p, t);
    case Delete(hash) => DeleteAgrees(z, p, t, hash);
  }

  /** The lazily cleaned pool answers every caller as the pool that never cleans up. */
  lemma {:induction false} PoolRefinesPlainSet(z: Zset, p: Zset, limit: nat, now: nat, cmds: seq<Cmd>)
    requires Agree(z, p, now) && Forward(cmds, now)
    ensures Replies(z, limit, cmds) == PlainReplies(p, limit, cmds)
    decreases |cmds|
  {
    if cmds != [] {
      StepAgrees(z, p, limit, now, cmds[0]);
      var z', p' := Exec(z, limit, cmds[0]).0, PlainExec(p, limit, cmds[0]).0;
      PoolRefinesPlainSet(z', p', limit, TimeOf(cmds[0], now), cmds[1..]);
    }
  }

  function WithoutSweeps(cmds: seq<Cmd>): seq<Cmd> {
    if cmds == [] then []
    else (if cmds[0].Sweep? then [] else [cmds[0]]) + WithoutSweeps(cmds[1..])
  }

  lemma {:induction false} PlainIgnoresSweeps(p: Zset, limit: nat, cmds: seq<Cmd>)
    ensures PlainReplies(p, limit, cmds) == PlainReplies(p, limit, WithoutSweeps(cmds))
    decreases |cmds|
  {
    if cmds != [] {
      var rest := PlainExec(p, limit, cmds[0]).0;
      assert cmds[0].Sweep? ==> PlainExec(p, limit, cmds[0]) == (p, Quiet);
      hide PlainExec;
      PlainIgnoresSweeps(rest, limit, cmds[1..]);
      if cmds[0].Sweep? {
        assert [] + PlainReplies(p, limit, cmds[1..]) == PlainReplies(p, limit, cmds[1..]);
        assert WithoutSweeps(cmds) == WithoutSweeps(cmds[1..]);
      } else {
        assert WithoutSweeps(cmds)[1..] == WithoutSweeps(cmds[1..]);
      }
    }
  }

  lemma {:induction false} ForwardWithoutSweeps(cmds: seq<Cmd>, earlier: nat, now: nat)
    requires earlier <= now && Forward(cmds, now)
    ensures Forward(WithoutSweeps(cmds), earlier)
    decreases |cmds|
  {
    if cmds != [] {
      var t := TimeOf(cmds[0], now);
      if cmds[0].Sweep? {
        ForwardWithoutSweeps(cmds[1..], earlier, t);
        assert WithoutSweeps(cmds) == WithoutSweeps(cmds[1..]);
      } else {
        ForwardWithoutSweeps(cmds[1..], TimeOf(cmds[0], earlier), t);
        assert WithoutSweeps(cmds)[1..] == WithoutSweeps(cmds[1..]);
      }
    }
  }

  /** Runs that differ only in when, and how often, the sweeper ran give every caller the same replies. */
  lemma SweepsAreInvisible(z: Zset, limit: nat, now: nat, a: seq<Cmd>, b: seq<Cmd>)
    requires Dated(z) && Forward(a, now) && Forward(b, now)
    requires WithoutSweeps(a) == WithoutSweeps(b)
    ensures Replies(z, limit, a) == Replies(z, limit, b)
  {
    PoolRefinesPlainSet(z, z, limit, now, a);
    PoolRefinesPlainSet(z, z, limit, now, b);
    PlainIgnoresSweeps(z, limit, a);
    PlainIgnoresSweeps(z, limit, b);
  }

  /** In particular the sweeper might as well never run. */
  lemma SweeperIsOptional(z: Zset, limit: nat, now: nat, cmds: seq<Cmd>)
    requires Dated(z) && Forward(cmds, now)
    ensures Replies(z, limit, cmds) == Replies(z, limit, WithoutSweeps(cmds))
  {
    ForwardWithoutSweeps(cmds, now, now);
    PoolRefinesPlainSet(z, z, limit, now, cmds);
    PoolRefinesPlainSet(z, z, limit, now, WithoutSweeps(cmds));
    PlainIgnoresSweeps(z, limit, cmds);
  }

  // Where each registered member went.

  datatype Ledger = Ledger(registered: nat, overwritten: nat, handedOut: nat, expired: nat, deleted: nat)

  function Add(a: Ledger, b: Ledger): Ledger {
    Ledger(a.registered + b.registered, a.overwritten + b.overwritten, a.handedOut + b.handedOut,
           a.expired + b.expired, a.deleted + b.deleted)
  }

  function One(b: bool): nat {
    if b then 1 else 0
  }

  predicate Registers(cmd: Cmd, m: string) {
    cmd.Register? && cmd.info.hash != "" && EncodeMember(cmd.info) == m
  }

  /** The member a command hands out, if it is a match that finds one. */
  function HandedOut(z: Zset, limit: nat, cmd: Cmd): Option<string> {
    if cmd.Match? then Script(z, cmd.criteria, Seconds(cmd.t), limit).1 else None
  }

  /** What one command does to one member. */
  function Entry(z: Zset, limit: nat, cmd: Cmd, m: string): Ledger {
    Ledger(
      One(Registers(cmd, m)),
      One(Registers(cmd, m) && m in z),
      One(HandedOut(z, limit, cmd) == Some(m)),
      One((cmd.Match? || cmd.Count? || cmd.Sweep?) && m in z && z[m] <= Seconds(cmd.t)),
      One(cmd.Delete? && cmd.hash != "" && m in z && Carries(m, cmd.hash)))
  }

  function Book(z: Zset, limit: nat, cmds: seq<Cmd>, m: string): Ledger
    decreases |cmds|
  {
    if cmds == [] then Ledger(0, 0, 0, 0, 0)
    else Add(Entry(z, limit, cmds[0], m), Book(Exec(z, limit, cmds[0]).0, limit, cmds[1..], m))
  }

  lemma ExecKeepsDated(z: Zset, limit: nat, cmd: Cmd)
    requires Dated(z)
    ensures Dated(Exec(z, limit, cmd).0)
  {
  }

  lemma StepBalances(z: Zset, limit: nat, cmd: Cmd, m: string)
    requires Dated(z)
    ensures var z', e := Exec(z, limit, cmd).0, Entry(z, limit, cmd, m);
      One(m in z) + e.registered == One(m in z') + e.overwritten + e.handedOut + e.expired + e.deleted
  {
    if cmd.Match? {
      ScriptMeetsSpec(z, cmd.criteria, Seconds(cmd.t), limit);
    }
  }

  /**
   Conservation: each registration of a member is still stored, or was handed out, expired, deleted
   or overwritten.
   */
  lemma {:induction false} Balances(z: Zset, limit: nat, cmds: seq<Cmd>, m: string)
    requires Dated(z)
    ensures var b := Book(z, limit, cmds, m);
      One(m in z) + b.registered == One(m in Run(z, limit, cmds)) + b.overwritten + b.handedOut + b.expired + b.deleted
    decreases |cmds|
  {
    if cmds != [] {
      StepBalances(z, limit, cmds[0], m);
      ExecKeepsDated(z, limit, cmds[0]);
      Balances(Exec(z, limit, cmds[0]).0, limit, cmds[1..], m);
    }
  }

  lemma HandedOutLeaves(z: Zset, limit: nat, cmd: Cmd, m: string)
    requires HandedOut(z, limit, cmd) == Some(m)
    ensures m in z && m !in Exec(z, limit, cmd).0
  {
    ScriptMeetsSpec(z, cmd.criteria, Seconds(cmd.t), limit);
  }

  /** A member handed out is handed out again only after it is registered again. */
  lemma NoDoubleHandOut(z: Zset, limit: nat, first: Cmd, between: seq<Cmd>, second: Cmd, m: string)
    requires HandedOut(z, limit, first) == Some(m)
    requires HandedOut(Run(Exec(z, limit, first).0, limit, between), limit, second) == Some(m)
    ensures exists i | 0 <= i < |between| :: Registers(between[i], m)
  {
    var z1 := Exec(z, limit, first).0;
    HandedOutLeaves(z, limit, first, m);
    HandedOutLeaves(Run(z1, limit, between), limit, second, m);
    if forall i | 0 <= i < |between| :: !Registers(between[i], m) {
      AbsentStaysAbsent(z1, limit, between, m);
    }
  }

  lemma {:induction false} AbsentStaysAbsent(z: Zset, limit: nat, cmds: seq<Cmd>, m: string)
    requires m !in z && forall i | 0 <= i < |cmds| :: !Registers(cmds[i], m)
    ensures m !in Run(z, limit, cmds)
    decreases |cmds|
  {
    if cmds != [] {
      if cmds[0].Match? {
        ScriptMeetsSpec(z, cmds[0].criteria, Seconds(cmds[0].t), limit);
      }
      AbsentStaysAbsent(Exec(z, limit, cmds[0]).0, limit, cmds[1..], m);
    }
  }

  // Receivers with separators in their fields.

  /** A match ends in the malformed-member error exactly when the member it removed has more than four fields. */
  lemma MalformedMeansLost(z: Zset, c: Criteria, now: int, limit: nat)
    ensures var (z', m) := Script(z, c, now, limit);
      Read(m) == Failure(Malformed) <==> m.Some? && |Separated.Split(SEP, m.value)| > 4
  {
    ScriptMeetsSpec(z, c, now, limit);
    var m := Script(z, c, now, limit).1;
    if m.Some? {
      ReadersAgree(m.value);
    }
  }

  predicate AllPlain(cmds: seq<Cmd>) {
    forall i | 0 <= i < |cmds| :: cmds[i].Register? ==> PlainInfo(cmds[i].info)
  }

  predicate AllReadable(z: Zset) {
    forall m | m in z :: DecodeMember(m).Some?
  }

  /** If no registered field holds a separator, no match ever fails that way. */
  lemma {:induction false} PlainRunsStayReadable(z: Zset, limit: nat, cmds: seq<Cmd>)
    requires AllReadable(z) && AllPlain(cmds)
    ensures AllReadable(Run(z, limit, cmds))
    ensures forall r | r in Replies(z, limit, cmds) :: r != Sent(Failure(Malformed))
    decreases |cmds|
  {
    if cmds != [] {
      match cmds[0] {
        case Register(info, _, _) => Readable(info);
        case Match(c, t) => ScriptMeetsSpec(z, c, Seconds(t), limit);
        case _ =>
      }
      PlainRunsStayReadable(Exec(z, limit, cmds[0]).0, limit, cmds[1..]);
    }
  }
}
