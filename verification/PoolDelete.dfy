/** Delete-by-hash as it really runs: one snapshot, then one removal at a time, with other callers in between. */
module PoolDelete {
  import opened PoolMembers
  import opened PoolModel
  import opened PoolRuns

  predicate RegistersHash(cmd: Cmd, hash: string) {
    cmd.Register? && cmd.info.hash != "" && Carries(EncodeMember(cmd.info), hash)
  }

  predicate NeverRegisters(cmds: seq<Cmd>, hash: string) {
    forall i | 0 <= i < |cmds| :: !RegistersHash(cmds[i], hash)
  }

  predicate Absent(z: Zset, hash: string) {
    forall m | m in z :: !Carries(m, hash)
  }

  /** A registered receiver carries its own hash unless one of its fields holds a separator. */
  lemma CarriesOwnHash(info: Info, hash: string)
    ensures Carries(EncodeMember(info), hash) <==> PlainInfo(info) && info.hash == hash
  {
    Readable(info);
    if PlainInfo(info) {
      DecodeOfEncode(info);
    }
  }

  /** One removal of the loop. */
  function RemoveOne(z: Zset, member: string, hash: string): Zset {
    if Carries(member, hash) then z - {member} else z
  }

  /** The loop over the rest of the snapshot; `between[i]` is what others do before the i-th removal, and at the end. */
  function DeleteLoop(z: Zset, limit: nat, hash: string, todo: seq<string>, between: seq<seq<Cmd>>): Zset
    requires |between| == |todo| + 1
    decreases |todo|
  {
    var z1 := Run(z, limit, between[0]);
    if todo == [] then z1
    else DeleteLoop(RemoveOne(z1, todo[0], hash), limit, hash, todo[1..], between[1..])
  }

  /** An empty hash is turned away before the snapshot. */
  function Delete(z: Zset, limit: nat, hash: string, between: seq<seq<Cmd>>): Zset
    requires |between| == |z| + 1
  {
    if hash == "" then z else DeleteLoop(z, limit, hash, Ordered(z), between)
  }

  lemma {:induction false} RunAddsNoHash(z: Zset, limit: nat, cmds: seq<Cmd>, hash: string, m: string)
    requires NeverRegisters(cmds, hash) && Carries(m, hash) && m in Run(z, limit, cmds)
    ensures m in z
    decreases |cmds|
  {
    if cmds != [] {
      RunAddsNoHash(Exec(z, limit, cmds[0]).0, limit, cmds[1..], hash, m);
      if cmds[0].Match? {
        ScriptMeetsSpec(z, cmds[0].criteria, Seconds(cmds[0].t), limit);
      }
    }
  }

  lemma {:induction false} LoopRemovesHash(z: Zset, limit: nat, hash: string, todo: seq<string>, between: seq<seq<Cmd>>)
    requires |between| == |todo| + 1
    requires forall i | 0 <= i < |between| :: NeverRegisters(between[i], hash)
    requires forall m | m in z && Carries(m, hash) :: m in todo
    ensures Absent(DeleteLoop(z, limit, hash, todo, between), hash)
    decreases |todo|
  {
    var z1 := Run(z, limit, between[0]);
    forall m | m in z1 && Carries(m, hash) ensures m in todo {
      RunAddsNoHash(z, limit, between[0], hash, m);
    }
    if todo != [] {
      LoopRemovesHash(RemoveOne(z1, todo[0], hash), limit, hash, todo[1..], between[1..]);
    }
  }

  /**
   Once a deletion has finished, no member of that hash is stored, whatever others did meanwhile
   short of registering it.
   */
  lemma DeleteRemovesHash(z: Zset, limit: nat, hash: string, between: seq<seq<Cmd>>)
    requires |between| == |z| + 1
    requires forall i | 0 <= i < |between| :: NeverRegisters(between[i], hash)
    ensures if hash == "" then Delete(z, limit, hash, between) == z
            else Absent(Delete(z, limit, hash, between), hash)
  {
    OrderedHasKeys(z);
    LoopRemovesHash(z, limit, hash, Ordered(z), between);
  }

  lemma StepKeepsAbsent(z: Zset, limit: nat, cmd: Cmd, hash: string)
    requires Absent(z, hash) && !RegistersHash(cmd, hash)
    ensures var (z', r) := Exec(z, limit, cmd);
      Absent(z', hash) && (r.Sent? && r.result.Success? ==> r.result.value.hash != hash)
  {
    if cmd.Match? {
      ScriptMeetsSpec(z, cmd.criteria, Seconds(cmd.t), limit);
    }
  }

  /** And no match returns that hash until it is registered again. */
  lemma {:induction false} DeletedHashIsNotMatched(z: Zset, limit: nat, later: seq<Cmd>, hash: string)
    requires Absent(z, hash) && NeverRegisters(later, hash)
    ensures Absent(Run(z, limit, later), hash)
    ensures forall r | r in Replies(z, limit, later) && r.Sent? && r.result.Success? :: r.result.value.hash != hash
    decreases |later|
  {
    if later != [] {
      StepKeepsAbsent(z, limit, later[0], hash);
      hide Exec, Absent, RegistersHash;
      DeletedHashIsNotMatched(Exec(z, limit, later[0]).0, limit, later[1..], hash);
    }
  }

  /** What everyone else did to one member while the deletion ran. */
  function DeleteBook(z: Zset, limit: nat, hash: string, todo: seq<string>, between: seq<seq<Cmd>>, m: string): Ledger
    requires |between| == |todo| + 1
    decreases |todo|
  {
    var z1 := Run(z, limit, between[0]);
    var first := Book(z, limit, between[0], m);
    if todo == [] then first
    else Add(first, DeleteBook(RemoveOne(z1, todo[0], hash), limit, hash, todo[1..], between[1..], m))
  }

  lemma {:induction false} RunKeepsDated(z: Zset, limit: nat, cmds: seq<Cmd>)
    requires Dated(z)
    ensures Dated(Run(z, limit, cmds))
    decreases |cmds|
  {
    if cmds != [] {
      ExecKeepsDated(z, limit, cmds[0]);
      RunKeepsDated(Exec(z, limit, cmds[0]).0, limit, cmds[1..]);
    }
  }

  /** A deletion touches no member of another hash: what others did accounts for every such member. */
  lemma {:induction false} DeleteSparesOthers(z: Zset, limit: nat, hash: string, todo: seq<string>,
                                              between: seq<seq<Cmd>>, m: string)
    requires |between| == |todo| + 1 && Dated(z) && !Carries(m, hash)
    ensures var b := DeleteBook(z, limit, hash, todo, between, m);
      One(m in z) + b.registered
        == One(m in DeleteLoop(z, limit, hash, todo, between)) + b.overwritten + b.handedOut + b.expired + b.deleted
    decreases |todo|
  {
    Balances(z, limit, between[0], m);
    if todo != [] {
      var z1 := Run(z, limit, between[0]);
      RunKeepsDated(z, limit, between[0]);
      DeleteSparesOthers(RemoveOne(z1, todo[0], hash), limit, hash, todo[1..], between[1..], m);
    }
  }

  /** With nobody else around, the loop is the atomic deletion. */
  lemma {:induction false} QuietLoop(z: Zset, limit: nat, hash: string, todo: seq<string>, between: seq<seq<Cmd>>)
    requires |between| == |todo| + 1 && forall i | 0 <= i < |between| :: between[i] == []
    ensures DeleteLoop(z, limit, hash, todo, between) == map m | m in z && !(m in todo && Carries(m, hash)) :: z[m]
    decreases |todo|
  {
    if todo != [] {
      QuietLoop(RemoveOne(z, todo[0], hash), limit, hash, todo[1..], between[1..]);
    }
  }

  lemma QuietDeleteIsAtomic(z: Zset, limit: nat, hash: string, between: seq<seq<Cmd>>)
    requires |between| == |z| + 1 && forall i | 0 <= i < |between| :: between[i] == []
    ensures Delete(z, limit, hash, between) == DeleteByHash(z, hash)
  {
    OrderedHasKeys(z);
    QuietLoop(z, limit, hash, Ordered(z), between);
  }

  /** A receiver with a separator in a field is out of reach of its own deletion. */
  lemma UnreadableSurvivesDeletion(z: Zset, info: Info, ttl: int, t: nat)
    requires info.hash != ""
    ensures EncodeMember(info) in DeleteByHash(RegisterReceiver(z, info, ttl, t).0, info.hash) <==> !PlainInfo(info)
  {
    CarriesOwnHash(info, info.hash);
  }
}
