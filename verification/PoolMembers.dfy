/** How a waiting receiver is packed into one sorted-set member, and the two readers of a member. */
module PoolMembers {
  import opened Wrappers
  import opened Separated

  const SEP: char := '\U{1F}'

  datatype Info = Info(hash: string, operator: string, country: string, app: string)

  predicate Plain(s: string) {
    SEP !in s
  }

  function OrDash(s: string): string {
    if s == "" then "-" else s
  }

  function OrEmpty(s: string): string {
    if s == "-" then "" else s
  }

  function EncodeMember(info: Info): string {
    Join(SEP, [OrDash(info.operator), OrDash(info.country), OrDash(info.app), info.hash])
  }

  /** The Go reader: exactly four fields. */
  function DecodeMember(s: string): Option<Info> {
    var parts := Split(SEP, s);
    if |parts| != 4 then None
    else Some(Info(parts[3], OrEmpty(parts[0]), OrEmpty(parts[1]), OrEmpty(parts[2])))
  }

  datatype Fields = Fields(op: string, co: string, ap: string, hash: string)

  /** The last capture of the script's pattern and the non-empty rest. */
  function MatchOne(s: string): Option<Fields> {
    var c := Cut(SEP, s);
    if c == |s| || c + 1 == |s| then None else Some(Fields("", "", s[..c], s[c + 1..]))
  }

  function MatchTwo(s: string): Option<Fields> {
    var b := Cut(SEP, s);
    if b == |s| then None
    else
      var m := MatchOne(s[b + 1..]);
      if m.None? then None else Some(m.value.(co := s[..b]))
  }

  /**
   The script's pattern at one position: three separator-free captures, each followed by a separator,
   and a non-empty rest.
   */
  function MatchAt(s: string): Option<Fields> {
    var a := Cut(SEP, s);
    if a == |s| then None
    else
      var m := MatchTwo(s[a + 1..]);
      if m.None? then None else Some(m.value.(op := s[..a]))
  }

  /** The pattern is not anchored: the script takes the leftmost position at which it matches. */
  function LuaFields(s: string): Option<Fields> {
    if MatchAt(s).Some? then MatchAt(s)
    else if s == "" then None
    else LuaFields(s[1..])
  }

  // Counting fields.

  function Seps(s: string): nat {
    if s == "" then 0 else (if s[0] == SEP then 1 else 0) + Seps(s[1..])
  }

  lemma {:induction false} SepsOfConcat(a: string, b: string)
    ensures Seps(a + b) == Seps(a) + Seps(b)
  {
    if a == "" {
      assert a + b == b;
    } else {
      SepsOfConcat(a[1..], b);
      assert (a + b)[1..] == a[1..] + b;
    }
  }

  lemma {:induction false} SepsOfPlain(s: string)
    ensures Plain(s) <==> Seps(s) == 0
  {
    if s != "" {
      SepsOfPlain(s[1..]);
    }
  }

  /** The number of fields is one more than the number of separators. */
  lemma {:induction false} SplitSize(s: string)
    ensures |Split(SEP, s)| == Seps(s) + 1
    decreases |s|
  {
    var n := Cut(SEP, s);
    SepsOfPlain(s[..n]);
    if n < |s| {
      SplitSize(s[n + 1..]);
      SepsOfConcat(s[..n], [SEP] + s[n + 1..]);
      assert s == s[..n] + ([SEP] + s[n + 1..]);
      assert ([SEP] + s[n + 1..])[1..] == s[n + 1..];
    } else {
      assert s[..n] == s;
    }
  }

  predicate PlainInfo(info: Info) {
    Plain(info.operator) && Plain(info.country) && Plain(info.app) && Plain(info.hash)
  }

  predicate NoDash(info: Info) {
    info.operator != "-" && info.country != "-" && info.app != "-"
  }

  lemma EncodeSeps(info: Info)
    ensures Seps(EncodeMember(info)) == 3 + Seps(info.operator) + Seps(info.country) + Seps(info.app) + Seps(info.hash)
  {
    var op, co, ap := OrDash(info.operator), OrDash(info.country), OrDash(info.app);
    SepsOfConcat(ap + [SEP], info.hash);
    SepsOfConcat(ap, [SEP]);
    SepsOfConcat(co + [SEP], ap + [SEP] + info.hash);
    SepsOfConcat(co, [SEP]);
    SepsOfConcat(op + [SEP], co + [SEP] + (ap + [SEP] + info.hash));
    SepsOfConcat(op, [SEP]);
    assert Join(SEP, [ap, info.hash]) == ap + [SEP] + info.hash;
    assert [co, ap, info.hash][1..] == [ap, info.hash];
    assert Join(SEP, [co, ap, info.hash]) == co + [SEP] + (ap + [SEP] + info.hash);
    assert [op, co, ap, info.hash][1..] == [co, ap, info.hash];
    assert Seps([SEP]) == 1 by { assert [SEP][1..] == ""; }
    assert Seps("-") == 0 by { assert "-"[1..] == ""; }
  }

  lemma DecodeOfEncode(info: Info)
    requires PlainInfo(info)
    ensures DecodeMember(EncodeMember(info))
         == Some(Info(info.hash, OrEmpty(info.operator), OrEmpty(info.country), OrEmpty(info.app)))
  {
    SplitOfJoin(SEP, [OrDash(info.operator), OrDash(info.country), OrDash(info.app), info.hash]);
  }

  /**
   Registering and reading back gives the same receiver exactly when no field holds a separator and
   none is a lone dash.
   */
  lemma RoundTrip(info: Info)
    ensures DecodeMember(EncodeMember(info)) == Some(info) <==> PlainInfo(info) && NoDash(info)
  {
    EncodeSeps(info);
    SplitSize(EncodeMember(info));
    SepsOfPlain(info.operator);
    SepsOfPlain(info.country);
    SepsOfPlain(info.app);
    SepsOfPlain(info.hash);
    if PlainInfo(info) {
      DecodeOfEncode(info);
    }
  }

  /** A registered member can be read back at all exactly when no field holds a separator. */
  lemma Readable(info: Info)
    ensures DecodeMember(EncodeMember(info)).Some? <==> PlainInfo(info)
  {
    EncodeSeps(info);
    SplitSize(EncodeMember(info));
    SepsOfPlain(info.operator);
    SepsOfPlain(info.country);
    SepsOfPlain(info.app);
    SepsOfPlain(info.hash);
    if PlainInfo(info) {
      DecodeOfEncode(info);
    }
  }

  lemma EncodeIsInjective(a: Info, b: Info)
    requires PlainInfo(a) && NoDash(a) && PlainInfo(b) && NoDash(b)
    requires EncodeMember(a) == EncodeMember(b)
    ensures a == b
  {
    RoundTrip(a);
    RoundTrip(b);
  }

  // The two readers.

  /** Enough fields, and something after the last one that is split off. */
  predicate LongEnough(p: seq<string>, n: nat) {
    |p| > n || (|p| == n && n > 0 && p[n - 1] != "")
  }

  lemma MatchOneSpec(s: string)
    ensures var m, p := MatchOne(s), Split(SEP, s);
      && (m.Some? <==> LongEnough(p, 2))
      && (m.Some? ==> m.value.ap == p[0] && (|p| == 2 ==> m.value.hash == p[1]))
  {
    SplitStep(SEP, s);
  }

  lemma MatchTwoSpec(s: string)
    ensures var m, p := MatchTwo(s), Split(SEP, s);
      && (m.Some? <==> LongEnough(p, 3))
      && (m.Some? ==> m.value.co == p[0] && m.value.ap == p[1] && (|p| == 3 ==> m.value.hash == p[2]))
  {
    var b := Cut(SEP, s);
    SplitStep(SEP, s);
    if b < |s| {
      MatchOneSpec(s[b + 1..]);
    }
  }

  lemma MatchAtSpec(s: string)
    ensures var m, p := MatchAt(s), Split(SEP, s);
      && (m.Some? <==> LongEnough(p, 4))
      && (m.Some? ==>
            m.value.op == p[0] && m.value.co == p[1] && m.value.ap == p[2] && (|p| == 4 ==> m.value.hash == p[3]))
  {
    var a := Cut(SEP, s);
    SplitStep(SEP, s);
    if a < |s| {
      MatchTwoSpec(s[a + 1..]);
    }
  }

  /** Dropping the leading anchor makes no difference: no later position matches if the first does not. */
  lemma {:induction false} LuaMatchesAtStart(s: string)
    ensures LuaFields(s) == MatchAt(s)
  {
    if MatchAt(s).None? && s != "" {
      MatchAtSpec(s);
      MatchAtSpec(s[1..]);
      SplitOfTail(SEP, s);
      LuaMatchesAtStart(s[1..]);
    }
  }

  /** On members the Go reader accepts with a non-empty hash, both readers see the same four fields. */
  lemma ReadersAgree(s: string)
    ensures DecodeMember(s).Some? && DecodeMember(s).value.hash != "" ==>
      && LuaFields(s).Some?
      && var f := LuaFields(s).value;
         DecodeMember(s).value == Info(f.hash, OrEmpty(f.op), OrEmpty(f.co), OrEmpty(f.ap))
    ensures LuaFields(s).Some? ==> (DecodeMember(s).None? <==> |Split(SEP, s)| > 4)
  {
    LuaMatchesAtStart(s);
    MatchAtSpec(s);
  }
}
