/**
 What callers of the pool are promised in terms of what was registered: which receivers a sender gets, how
 long a receiver waits, and which ones a deletion takes.
 */
module PoolAnswers {
  import opened Wrappers
  import opened Lexicographic
  import opened Separated
  import opened PoolMembers
  import opened PoolModel
  import opened PoolRuns
  import opened PoolCount

  /** A member is the three labels, a dash for each that is missing, and the hash, with unit separators between. */
  lemma MemberFormat(info: Info)
    ensures EncodeMember(info) ==
      (if info.operator == "" then "-" else info.operator) + "\U{1F}" +
      (if info.country == "" then "-" else info.country) + "\U{1F}" +
      (if info.app == "" then "-" else info.app) + "\U{1F}" + info.hash
  {
    var (op, co, ap) := (OrDash(info.operator), OrDash(info.country), OrDash(info.app));
    assert [op, co, ap, info.hash][1..] == [co, ap, info.hash] && [co, ap, info.hash][1..] == [ap, info.hash];
    assert Join(SEP, [ap, info.hash]) == ap + [SEP] + info.hash;
    assert Join(SEP, [co, ap, info.hash]) == co + [SEP] + (ap + [SEP] + info.hash);
  }

  // Which receivers a sender gets.

  /** A member passes if it has enough fields and each filter is open or equal to the field in its place. */
  lemma AcceptsByFields(c: Criteria, member: string)
    ensures var p := Split(SEP, member);
      Accepts(c, member) <==>
        && LongEnough(p, 4)
        && c.operator in {"", "*", p[0]} && c.country in {"", "*", p[1]} && c.app in {"", "*", p[2]}
  {
    LuaMatchesAtStart(member);
    MatchAtSpec(member);
  }

  /** Each filter is open, or equal to the receiver's own label, a missing one being a dash. */
  predicate Meets(c: Criteria, info: Info) {
    && c.operator in {"", "*", if info.operator == "" then "-" else info.operator}
    && c.country in {"", "*", if info.country == "" then "-" else info.country}
    && c.app in {"", "*", if info.app == "" then "-" else info.app}
  }

  predicate Registrable(info: Info) {
    PlainInfo(info) && info.hash != ""
  }

  /** The filters see a registered receiver as it was registered. */
  lemma AcceptsWhatMeets(c: Criteria, info: Info)
    requires Registrable(info)
    ensures Accepts(c, EncodeMember(info)) <==> Meets(c, info)
  {
    AcceptsByFields(c, EncodeMember(info));
    SplitOfJoin(SEP, [OrDash(info.operator), OrDash(info.country), OrDash(info.app), info.hash]);
  }

  ghost predicate IsRegistered(m: string) {
    exists info :: Registrable(info) && m == EncodeMember(info)
  }

  ghost predicate AllRegistered(z: Zset) {
    forall m | m in z :: IsRegistered(m)
  }

  /** What a member that was registered reads as; the labels differ from those registered by lone dashes alone. */
  lemma ReadsAsRegistered(c: Criteria, m: string)
    requires IsRegistered(m)
    ensures DecodeMember(m).Some? && (Accepts(c, m) <==> Meets(c, DecodeMember(m).value))
  {
    var info :| Registrable(info) && m == EncodeMember(info);
    AcceptsWhatMeets(c, info);
    DecodeOfEncode(info);
  }

  /**
   A sender gets the earliest receiver that meets its criteria label by label, among those the script looks
   at, and that one is gone then; it is told not found exactly if none of those meets them.
   */
  lemma SenderGetsWhatItAskedFor(z: Zset, limit: nat, c: Criteria, t: nat)
    requires AllRegistered(z)
    ensures var (z', reply) := Exec(z, limit, Match(c, t));
            var a, seen := Active(z, Seconds(t)), Candidates(z, Seconds(t), limit);
      && (forall m | m in seen :: m in a && DecodeMember(m).Some?)
      && reply.Sent?
      && match reply.result
         case Success(info) =>
           && Meets(c, info)
           && exists m | m in seen ::
                && DecodeMember(m) == Some(info) && z' == a - {m}
                && forall n | n in seen && n != m && Meets(c, DecodeMember(n).value) ::
                     a[m] < a[n] || (a[m] == a[n] && Less(m, n))
         case Failure(e) =>
           e == NotFound && z' == a && forall n | n in seen :: !Meets(c, DecodeMember(n).value)
  {
    var a, seen := Active(z, Seconds(t)), Candidates(z, Seconds(t), limit);
    CandidatesAreEarliest(z, Seconds(t), limit);
    ScriptMeetsSpec(z, c, Seconds(t), limit);
    hide Candidates, Script, Accepts, Meets, IsRegistered, Less;
    forall m | m in seen
      ensures m in a && DecodeMember(m).Some? && (Accepts(c, m) <==> Meets(c, DecodeMember(m).value))
    {
      ReadsAsRegistered(c, m);
    }
  }

  lemma {:induction false} RunsKeepRegistered(z: Zset, limit: nat, cmds: seq<Cmd>)
    requires AllRegistered(z) && AllPlain(cmds)
    ensures AllRegistered(Run(z, limit, cmds))
    decreases |cmds|
  {
    if cmds != [] {
      var z' := Exec(z, limit, cmds[0]).0;
      hide IsRegistered;
      match cmds[0] {
        case Register(info, _, _) => RegisteredIsRegistered(info);
        case Match(c, t) => ScriptMeetsSpec(z, c, Seconds(t), limit);
        case _ =>
      }
      assert AllRegistered(z');
      RunsKeepRegistered(z', limit, cmds[1..]);
    }
  }

  lemma RegisteredIsRegistered(info: Info)
    requires PlainInfo(info)
    ensures info.hash != "" ==> IsRegistered(EncodeMember(info))
  {
    assert info.hash != "" ==> Registrable(info);
  }

  /** So it is at any point of a run from the empty pool, if no registered field holds the separator. */
  lemma EverySenderGetsWhatItAskedFor(limit: nat, cmds: seq<Cmd>, c: Criteria, t: nat)
    requires AllPlain(cmds)
    ensures var z := Run(map[], limit, cmds);
            var (seen, result) := (Candidates(z, Seconds(t), limit), Exec(z, limit, Match(c, t)).1.result);
      && (result.Success? ==> Meets(c, result.value))
      && (result.Failure? ==> result.error == NotFound)
      && (result.Success? <==> exists m :: m in seen && DecodeMember(m).Some? && Meets(c, DecodeMember(m).value))
  {
    RunsKeepRegistered(map[], limit, cmds);
    SenderGetsWhatItAskedFor(Run(map[], limit, cmds), limit, c, t);
  }

  // How long a receiver waits.

  lemma StepKeepsScore(z: Zset, limit: nat, now: nat, cmd: Cmd, m: string, e: int)
    requires now <= TimeOf(cmd, now) && (if m in z then z[m] == e else e <= Seconds(now))
    requires var b := Entry(z, limit, cmd, m); b.registered == 0 && b.handedOut == 0 && b.deleted == 0
    ensures var z' := Exec(z, limit, cmd).0; if m in z' then z'[m] == e else e <= Seconds(TimeOf(cmd, now))
  {
    assert Seconds(now) <= Seconds(TimeOf(cmd, now));
    if cmd.Match? {
      ScriptMeetsSpec(z, cmd.criteria, Seconds(cmd.t), limit);
    }
  }

  lemma {:induction false} RunKeepsScore(z: Zset, limit: nat, now: nat, cmds: seq<Cmd>, m: string, e: int)
    requires Forward(cmds, now) && (if m in z then z[m] == e else e <= Seconds(now))
    requires var b := Book(z, limit, cmds, m); b.registered == 0 && b.handedOut == 0 && b.deleted == 0
    ensures var z' := Run(z, limit, cmds); if m in z' then z'[m] == e else e <= Seconds(LastTime(cmds, now))
    decreases |cmds|
  {
    hide Exec, Entry;
    if cmds != [] {
      StepKeepsScore(z, limit, now, cmds[0], m, e);
      RunKeepsScore(Exec(z, limit, cmds[0]).0, limit, TimeOf(cmds[0], now), cmds[1..], m, e);
    }
  }

  /**
   A registered receiver is there, to be matched and counted, for the time it asked for, or for a quarter
   of an hour if it asked for none, in whole seconds of the clock: whatever is done meanwhile, by a clock
   that does not go back, short of handing it out, registering it anew or deleting its hash.
   */
  lemma WaitsItsTime(z: Zset, limit: nat, info: Info, ttl: int, t: nat, cmds: seq<Cmd>, later: nat)
    requires info.hash != "" && Forward(cmds, t) && LastTime(cmds, t) <= later
    requires var b := Book(RegisterReceiver(z, info, ttl, t).0, limit, cmds, EncodeMember(info));
      b.registered == 0 && b.handedOut == 0 && b.deleted == 0
    ensures var (z', error) := RegisterReceiver(z, info, ttl, t);
            var until := t + if ttl <= 0 then 900_000_000_000 else ttl;
      && error.None?
      && (EncodeMember(info) in Active(Run(z', limit, cmds), Seconds(later)) <==>
            later / 1_000_000_000 < until / 1_000_000_000)
      && (later + 1_000_000_000 <= until ==> EncodeMember(info) in Active(Run(z', limit, cmds), Seconds(later)))
      && (until <= later ==> EncodeMember(info) !in Active(Run(z', limit, cmds), Seconds(later)))
  {
    var z' := RegisterReceiver(z, info, ttl, t).0;
    var m, e := EncodeMember(info), Expiry(ttl, t);
    RunKeepsScore(z', limit, t, cmds, m, e);
    assert Seconds(LastTime(cmds, t)) <= Seconds(later);
  }

  /** `Count` counts the receivers whose time is not over, and a sweep removes all others and nothing else. */
  lemma CountAndSweepGoByTime(z: Zset, limit: nat, t: nat)
    requires Dated(z)
    ensures Exec(z, limit, Count(t)).1 == Size(|set m | m in z && t / 1_000_000_000 < z[m]|)
    ensures Exec(z, limit, Sweep(t)).0 == map m | m in z && t / 1_000_000_000 < z[m] :: z[m]
  {
    var z' := Exec(z, limit, Count(t)).0;
    assert z'.Keys == set m | m in z && t / 1_000_000_000 < z[m];
    assert |z'| == |z'.Keys|;
  }

  // What a deletion takes.

  /** Of receivers that can be read back, a deletion takes exactly those registered with that hash. */
  lemma DeletionIsByHash(z: Zset, info: Info, hash: string)
    requires PlainInfo(info) && hash != ""
    ensures EncodeMember(info) in DeleteByHash(z, hash) <==> EncodeMember(info) in z && info.hash != hash
    ensures forall m | m in DeleteByHash(z, hash) :: m in z && DeleteByHash(z, hash)[m] == z[m]
  {
    DecodeOfEncode(info);
  }
}
