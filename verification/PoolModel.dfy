/**
 The Active Pool as values: a Redis sorted set from members to expiry seconds, the commands used on
 it, the matching script, and the pool operations built from them.
 */
module PoolModel {
  import opened Wrappers
  import opened Lexicographic
  import opened PoolMembers

  type Zset = map<string, int>

  const NANOS := 1_000_000_000
  const DEFAULT_POOL_TTL := 15 * 60 * NANOS
  const DEFAULT_SCAN_LIMIT := 50

  datatype Criteria = Criteria(operator: string, country: string, app: string)

  datatype PoolError = EmptyHash | NotFound | Malformed

  // Redis order: by score, then by member.

  predicate Before(z: Zset, a: string, b: string)
    requires a in z && b in z
  {
    z[a] < z[b] || (z[a] == z[b] && Less(a, b))
  }

  predicate IsLeast(z: Zset, a: string) {
    a in z && forall b | b in z :: b == a || Before(z, a, b)
  }

  lemma BeforeIsTransitive(z: Zset, a: string, b: string, c: string)
    requires a in z && b in z && c in z && Before(z, a, b) && Before(z, b, c)
    ensures Before(z, a, c)
  {
    if z[a] == z[c] {
      LessIsTransitive(a, b, c);
    }
  }

  lemma BeforeIsAsymmetric(z: Zset, a: string, b: string)
    requires a in z && b in z && Before(z, a, b)
    ensures !Before(z, b, a) && a != b
  {
    if z[a] == z[b] {
      LessIsAsymmetric(a, b);
    }
  }

  lemma {:induction false} LeastExists(z: Zset)
    requires z != map[]
    ensures exists a :: IsLeast(z, a)
    decreases |z|
  {
    var k :| k in z;
    var rest := z - {k};
    assert forall b | b in z :: b == k || b in rest;
    if rest == map[] {
      assert IsLeast(z, k);
    } else {
      LeastExists(rest);
      var a :| IsLeast(rest, a);
      if Before(z, a, k) {
        assert IsLeast(z, a);
      } else {
        LessIsTotal(a, k);
        forall b | b in z ensures b == k || Before(z, k, b) {
          if b != k && b != a {
            assert b in rest;
            BeforeIsTransitive(z, k, a, b);
          }
        }
        assert IsLeast(z, k);
      }
    }
  }

  lemma LeastIsUnique(z: Zset, a: string, b: string)
    requires IsLeast(z, a) && IsLeast(z, b)
    ensures a == b
  {
    if a != b {
      BeforeIsAsymmetric(z, a, b);
    }
  }

  function Least(z: Zset): (a: string)
    requires z != map[]
    ensures IsLeast(z, a)
  {
    LeastExists(z);
    assert forall a, b | IsLeast(z, a) && IsLeast(z, b) :: a == b by {
      forall a, b | IsLeast(z, a) && IsLeast(z, b) ensures a == b {
        LeastIsUnique(z, a, b);
      }
    }
    var a :| a in z && IsLeast(z, a);
    a
  }

  /** The members in Redis order. */
  function Ordered(z: Zset): (s: seq<string>)
    ensures |s| == |z|
    decreases |z|
  {
    if z == map[] then []
    else
      var a := Least(z);
      assert (z - {a}).Keys == z.Keys - {a};
      [a] + Ordered(z - {a})
  }

  lemma {:induction false} OrderedHasKeys(z: Zset)
    ensures forall m :: m in Ordered(z) <==> m in z
    decreases |z|
  {
    if z != map[] {
      OrderedHasKeys(z - {Least(z)});
    }
  }

  lemma {:induction false} OrderedIsSorted(z: Zset, i: nat, j: nat)
    requires i < j < |z|
    ensures Ordered(z)[i] in z && Ordered(z)[j] in z && Before(z, Ordered(z)[i], Ordered(z)[j])
    decreases |z|
  {
    var a := Least(z);
    var rest := z - {a};
    OrderedHasKeys(z);
    OrderedHasKeys(rest);
    assert Ordered(z) == [a] + Ordered(rest);
    hide Less, Ordered, Least;
    assert Ordered(z)[j] == Ordered(rest)[j - 1];
    if i > 0 {
      OrderedIsSorted(rest, i - 1, j - 1);
      assert Ordered(z)[i] == Ordered(rest)[i - 1];
    } else {
      assert Ordered(rest)[j - 1] in Ordered(rest);
    }
  }

  /** So the order is by expiry, and by member where that is the same. */
  lemma OrderIsByExpiryThenMember(z: Zset, i: nat, j: nat)
    requires i < j < |z|
    ensures var (a, b) := (Ordered(z)[i], Ordered(z)[j]);
      a in z && b in z && (z[a] < z[b] || (z[a] == z[b] && Less(a, b)))
  {
    OrderedIsSorted(z, i, j);
    hide Ordered, Less;
  }

  // Commands.

  /** Keeps what ZREMRANGEBYSCORE lo..hi does not remove; no `lo` means minus infinity. */
  function RemoveByScore(z: Zset, lo: Option<int>, hi: int): Zset {
    map m | m in z && !((lo.None? || lo.value <= z[m]) && z[m] <= hi) :: z[m]
  }

  function FromScore(z: Zset, min: int): Zset {
    map m | m in z && min <= z[m] :: z[m]
  }

  function First(s: seq<string>, n: nat): seq<string> {
    if |s| <= n then s else s[..n]
  }

  function RangeByScore(z: Zset, min: int, limit: nat): seq<string> {
    First(Ordered(FromScore(z, min)), limit)
  }

  // The script.

  predicate Any(filter: string) {
    filter == "" || filter == "*"
  }

  predicate Accepts(c: Criteria, member: string) {
    match LuaFields(member)
    case None => false
    case Some(f) =>
      && (Any(c.operator) || f.op == c.operator)
      && (Any(c.country) || f.co == c.country)
      && (Any(c.app) || f.ap == c.app)
  }

  function Pick(candidates: seq<string>, c: Criteria): Option<string> {
    if candidates == [] then None
    else if Accepts(c, candidates[0]) then Some(candidates[0])
    else Pick(candidates[1..], c)
  }

  function Script(z: Zset, c: Criteria, now: int, limit: nat): (Zset, Option<string>) {
    var clean := RemoveByScore(z, None, now);
    match Pick(RangeByScore(clean, now, limit), c)
    case Some(m) => (clean - {m}, Some(m))
    case None => (RemoveByScore(clean, None, now), None)
  }

  /** The receivers whose time has not run out. */
  function Active(z: Zset, now: int): Zset {
    map m | m in z && z[m] > now :: z[m]
  }

  /** The active members the script looks at. */
  function Candidates(z: Zset, now: int, limit: nat): seq<string> {
    First(Ordered(Active(z, now)), limit)
  }

  lemma CleanIsActive(z: Zset, now: int)
    ensures RemoveByScore(z, None, now) == Active(z, now)
    ensures FromScore(Active(z, now), now) == Active(z, now)
    ensures RemoveByScore(Active(z, now), None, now) == Active(z, now)
  {
  }

  lemma {:induction false} PickIsFirst(s: seq<string>, c: Criteria)
    ensures match Pick(s, c)
            case Some(m) =>
              exists i | 0 <= i < |s| :: s[i] == m && Accepts(c, m) && forall j | 0 <= j < i :: !Accepts(c, s[j])
            case None => forall i | 0 <= i < |s| :: !Accepts(c, s[i])
  {
    if s != [] && !Accepts(c, s[0]) {
      PickIsFirst(s[1..], c);
      assert forall i | 0 < i < |s| :: s[i] == s[1..][i - 1];
      if Pick(s, c).Some? {
        var i :| 0 <= i < |s| - 1 && s[1..][i] == Pick(s, c).value && forall j | 0 <= j < i :: !Accepts(c, s[1..][j]);
        assert s[i + 1] == Pick(s, c).value;
        assert forall j | 0 <= j < i + 1 :: !Accepts(c, s[j]);
      }
    }
  }

  /** The candidates are the earliest active members, as many as the limit allows. */
  lemma CandidatesAreEarliest(z: Zset, now: int, limit: nat)
    ensures var a, s := Active(z, now), Candidates(z, now, limit);
      && |s| == (if |a| <= limit then |a| else limit)
      && (forall m | m in s :: m in a)
      && (forall m, n | m in s && n in a && n !in s :: Before(a, m, n))
      && (|a| <= limit ==> forall m | m in a :: m in s)
  {
    var a, s := Active(z, now), Candidates(z, now, limit);
    OrderedHasKeys(a);
    assert forall k | 0 <= k < |s| :: s[k] in s && s[k] == Ordered(a)[k];
    hide Before, Ordered, Active;
    forall m, n | m in s && n in a && n !in s ensures m in a && Before(a, m, n) {
      var i :| 0 <= i < |s| && s[i] == m;
      assert n in Ordered(a);
      var j :| 0 <= j < |Ordered(a)| && Ordered(a)[j] == n;
      OrderedIsSorted(a, i, j);
    }
  }

  /** Among the first members in Redis order, the one picked comes before every other that passes. */
  lemma PickIsEarliest(a: Zset, c: Criteria, limit: nat)
    ensures var s := First(Ordered(a), limit);
      match Pick(s, c)
      case Some(m) => m in s && m in a && Accepts(c, m)
                      && forall n | n in s && n != m && Accepts(c, n) :: n in a && Before(a, m, n)
      case None => forall m | m in s :: !Accepts(c, m)
  {
    var s := First(Ordered(a), limit);
    OrderedHasKeys(a);
    PickIsFirst(s, c);
    if Pick(s, c).Some? {
      var m := Pick(s, c).value;
      var i :| 0 <= i < |s| && s[i] == m && forall j | 0 <= j < i :: !Accepts(c, s[j]);
      forall n | n in s && n != m && Accepts(c, n) ensures n in a && Before(a, m, n) {
        var j :| 0 <= j < |s| && s[j] == n;
        OrderedIsSorted(a, i, j);
      }
    }
  }

  /**
   What the script promises: the earliest-expiring of the members it may look at that passes all
   filters is removed and returned, expired members go, everything else stays; and nothing is
   returned only if none of those members passes.
   */
  lemma ScriptMeetsSpec(z: Zset, c: Criteria, now: int, limit: nat)
    ensures var a, s, (z', r) := Active(z, now), Candidates(z, now, limit), Script(z, c, now, limit);
      match r
      case Some(m) =>
        && m in s && m in a && Accepts(c, m) && z' == a - {m}
        && forall n | n in s && n != m && Accepts(c, n) :: n in a && Before(a, m, n)
      case None => z' == a && forall m | m in s :: !Accepts(c, m)
  {
    CleanIsActive(z, now);
    PickIsEarliest(Active(z, now), c, limit);
  }

  /** With no more active members than the limit, not-found means the whole pool has no match. */
  lemma SmallPoolsAreSearchedWhole(z: Zset, c: Criteria, now: int, limit: nat)
    requires |Active(z, now)| <= limit
    ensures Script(z, c, now, limit).1.None? <==> forall m | m in Active(z, now) :: !Accepts(c, m)
  {
    ScriptMeetsSpec(z, c, now, limit);
    CandidatesAreEarliest(z, now, limit);
  }

  /** The script's closing cleanup removes nothing. */
  lemma ClosingCleanupIsIdle(z: Zset, now: int)
    ensures RemoveByScore(RemoveByScore(z, None, now), None, now) == RemoveByScore(z, None, now)
  {
  }

  // The pool's operations. Times are nanoseconds since the epoch.

  function Seconds(t: nat): nat {
    t / NANOS
  }

  function Expiry(ttl: int, t: nat): nat {
    Seconds(t + if ttl <= 0 then DEFAULT_POOL_TTL else ttl)
  }

  function RegisterReceiver(z: Zset, info: Info, ttl: int, t: nat): (Zset, Option<PoolError>) {
    if info.hash == "" then (z, Some(EmptyHash))
    else (z[EncodeMember(info) := Expiry(ttl, t)], None)
  }

  function Read(member: Option<string>): Result<Info, PoolError> {
    match member
    case None => Failure(NotFound)
    case Some(m) =>
      match DecodeMember(m)
      case None => Failure(Malformed)
      case Some(info) => Success(info)
  }

  predicate Carries(member: string, hash: string) {
    DecodeMember(member).Some? && DecodeMember(member).value.hash == hash
  }

  /** Every readable member of that hash is gone; an empty hash deletes nothing. */
  function DeleteByHash(z: Zset, hash: string): Zset {
    if hash == "" then z else map m | m in z && !Carries(m, hash) :: z[m]
  }

  datatype Cmd =
    | Register(info: Info, ttl: int, t: nat)
    | Match(criteria: Criteria, t: nat)
    | Count(t: nat)
    | Sweep(t: nat)
    | Delete(hash: string)

  datatype Reply = Registered(error: Option<PoolError>) | Sent(result: Result<Info, PoolError>) | Size(n: nat) | Quiet

  function Exec(z: Zset, limit: nat, cmd: Cmd): (Zset, Reply) {
    match cmd
    case Register(info, ttl, t) =>
      var (z', e) := RegisterReceiver(z, info, ttl, t);
      (z', Registered(e))
    case Match(c, t) =>
      var (z', m) := Script(z, c, Seconds(t), limit);
      (z', Sent(Read(m)))
    case Count(t) =>
      var z' := RemoveByScore(z, Some(0), Seconds(t));
      (z', Size(|z'|))
    case Sweep(t) => (RemoveByScore(z, Some(0), Seconds(t)), Quiet)
    case Delete(hash) => (DeleteByHash(z, hash), Quiet)
  }

  function Run(z: Zset, limit: nat, cmds: seq<Cmd>): Zset
    decreases |cmds|
  {
    if cmds == [] then z else Run(Exec(z, limit, cmds[0]).0, limit, cmds[1..])
  }
}
