/** Walking the cipher suites and the extension stream of a TLS Client Hello. */
module ClientHello {
  import opened Sequences
  import opened Wrappers

  type byte = x: int | 0 <= x < 0x100

  type uint16 = x: int | 0 <= x < 0x1_0000

  /** The longest extension block the wire format can carry: its length is a 16-bit field. */
  const MAX_BLOCK := 0xFFFF

  function Big16(hi: byte, lo: byte): uint16 {
    0x100 * hi + lo
  }

  function High(v: uint16): byte {
    v / 0x100
  }

  function Low(v: uint16): byte {
    v % 0x100
  }

  predicate IsGREASE(v: uint16) {
    High(v) == Low(v) && High(v) % 0x10 == 0x0A
  }

  /** The sixteen values of section 2 of RFC 8701. */
  const GREASE_VALUES: set<uint16> := {
    0x0A0A, 0x1A1A, 0x2A2A, 0x3A3A, 0x4A4A, 0x5A5A, 0x6A6A, 0x7A7A,
    0x8A8A, 0x9A9A, 0xAAAA, 0xBABA, 0xCACA, 0xDADA, 0xEAEA, 0xFAFA}

  lemma GREASEIsTheRegisteredSet(v: uint16)
    ensures IsGREASE(v) <==> v in GREASE_VALUES
  {
    var n := High(v) / 0x10;
    assert High(v) == 0x10 * n + High(v) % 0x10 && v == 0x100 * High(v) + Low(v);
    assert n in {0, 1, 2, 3, 4, 5, 6, 7, 8, 9, 10, 11, 12, 13, 14, 15};
  }

  // Extensions.

  datatype Extension = Extension(kind: uint16, data: seq<byte>)

  predicate Fits(e: Extension) {
    |e.data| <= 0xFFFF
  }

  predicate AllFit(es: seq<Extension>) {
    forall e | e in es :: Fits(e)
  }

  function Header(e: Extension): seq<byte>
    requires Fits(e)
  {
    [High(e.kind), Low(e.kind), High(|e.data|), Low(|e.data|)]
  }

  /** The wire form: type, length and payload of each extension in turn. */
  function Serialise(es: seq<Extension>): seq<byte>
    requires AllFit(es)
  {
    if es == [] then [] else Header(es[0]) + es[0].data + Serialise(es[1..])
  }

  function Kind(raw: seq<byte>): uint16
    requires |raw| >= 4
  {
    Big16(raw[0], raw[1])
  }

  function Length(raw: seq<byte>): uint16
    requires |raw| >= 4
  {
    Big16(raw[2], raw[3])
  }

  /** A whole extension stands at the front. */
  predicate Complete(raw: seq<byte>) {
    |raw| >= 4 && Length(raw) <= |raw| - 4
  }

  /** The extensions of the longest well-formed prefix, with unbounded arithmetic. */
  function Parse(raw: seq<byte>): seq<Extension>
    decreases |raw|
  {
    if !Complete(raw) then []
    else
      var n := 4 + Length(raw);
      [Extension(Kind(raw), raw[4..n])] + Parse(raw[n..])
  }

  function Rest(raw: seq<byte>): seq<byte>
    decreases |raw|
  {
    if !Complete(raw) then raw else Rest(raw[4 + Length(raw)..])
  }

  lemma Big16OfHalves(v: uint16)
    ensures Big16(High(v), Low(v)) == v
  {
  }

  lemma HalvesOfBig16(hi: byte, lo: byte)
    ensures High(Big16(hi, lo)) == hi && Low(Big16(hi, lo)) == lo
  {
  }

  lemma {:induction false} ParseOfSerialise(es: seq<Extension>, junk: seq<byte>)
    requires AllFit(es) && !Complete(junk)
    ensures Parse(Serialise(es) + junk) == es && Rest(Serialise(es) + junk) == junk
  {
    if es == [] {
      assert Serialise(es) + junk == junk;
    } else {
      var e := es[0];
      var tail := Serialise(es[1..]) + junk;
      var raw := Serialise(es) + junk;
      assert raw == Header(e) + e.data + tail;
      Big16OfHalves(e.kind);
      Big16OfHalves(|e.data|);
      assert raw[0] == High(e.kind) && raw[1] == Low(e.kind) && raw[2] == High(|e.data|) && raw[3] == Low(|e.data|);
      assert Kind(raw) == e.kind && Length(raw) == |e.data|;
      assert raw[4..4 + |e.data|] == e.data && raw[4 + |e.data|..] == tail;
      ParseOfSerialise(es[1..], junk);
    }
  }

  lemma HeaderIsFront(raw: seq<byte>)
    requires Complete(raw)
    ensures Header(Extension(Kind(raw), raw[4..4 + Length(raw)])) == raw[..4]
  {
    HalvesOfBig16(raw[0], raw[1]);
    HalvesOfBig16(raw[2], raw[3]);
  }

  lemma SerialiseFirst(e: Extension, es: seq<Extension>)
    requires Fits(e) && AllFit(es)
    ensures AllFit([e] + es) && Serialise([e] + es) == Header(e) + e.data + Serialise(es)
  {
    assert ([e] + es)[1..] == es;
  }

  function Front(raw: seq<byte>): Extension
    requires Complete(raw)
  {
    Extension(Kind(raw), raw[4..4 + Length(raw)])
  }

  function After(raw: seq<byte>): (tail: seq<byte>)
    requires Complete(raw)
    ensures |tail| < |raw|
  {
    raw[4 + Length(raw)..]
  }

  lemma FrontAndAfter(raw: seq<byte>)
    requires Complete(raw)
    ensures Fits(Front(raw)) && Header(Front(raw)) + Front(raw).data + After(raw) == raw
  {
    HeaderIsFront(raw);
    hide Header;
    hide Length;
    ThreePieces(raw, 4, 4 + Length(raw));
  }

  lemma ParseStep(raw: seq<byte>)
    ensures if Complete(raw) then Parse(raw) == [Front(raw)] + Parse(After(raw)) && Rest(raw) == Rest(After(raw))
            else Parse(raw) == [] && Rest(raw) == raw
  {
  }

  lemma {:induction false} SerialiseOfParse(raw: seq<byte>)
    ensures AllFit(Parse(raw)) && raw == Serialise(Parse(raw)) + Rest(raw) && !Complete(Rest(raw))
    decreases |raw|
  {
    ParseStep(raw);
    if Complete(raw) {
      hide *;
      var e, tail := Front(raw), After(raw);
      SerialiseOfParse(tail);
      FrontAndAfter(raw);
      SerialiseFirst(e, Parse(tail));
      ConcatIsAssociative(Header(e) + e.data, Serialise(Parse(tail)), Rest(tail));
    }
  }

  /** Arbitrary bytes are read as their longest well-formed prefix: any other well-formed prefix is a shorter list. */
  lemma ParseIsLongest(raw: seq<byte>, es: seq<Extension>)
    requires AllFit(es) && Serialise(es) <= raw
    ensures es <= Parse(raw)
  {
    hide Parse;
    hide Rest;
    hide Serialise;
    hide AllFit;
    hide Complete;
    var junk := raw[|Serialise(es)|..];
    assert raw == Serialise(es) + junk;
    SerialiseOfParse(junk);
    var more := Parse(junk);
    SerialiseConcat(es, more);
    assert raw == Serialise(es + more) + Rest(junk);
    ParseOfSerialise(es + more, Rest(junk));
  }

  lemma {:induction false} SerialiseConcat(a: seq<Extension>, b: seq<Extension>)
    requires AllFit(a) && AllFit(b)
    ensures AllFit(a + b) && Serialise(a + b) == Serialise(a) + Serialise(b)
  {
    if a == [] {
      assert a + b == b;
    } else {
      assert (a + b)[1..] == a[1..] + b;
      SerialiseConcat(a[1..], b);
    }
  }

  function Kinds(es: seq<Extension>): seq<uint16> {
    if es == [] then []
    else (if IsGREASE(es[0].kind) then [] else [es[0].kind]) + Kinds(es[1..])
  }

  predicate AnyGREASE(es: seq<Extension>) {
    exists i | 0 <= i < |es| :: IsGREASE(es[i].kind)
  }

  lemma {:induction false} KindsOneMore(es: seq<Extension>, e: Extension)
    ensures Kinds(es + [e]) == Kinds(es) + (if IsGREASE(e.kind) then [] else [e.kind])
    ensures AnyGREASE(es + [e]) <==> AnyGREASE(es) || IsGREASE(e.kind)
  {
    if es == [] {
      assert es + [e] == [e];
      assert Kinds([e]) == (if IsGREASE(e.kind) then [] else [e.kind]) + Kinds([]);
      assert [e][0] == e;
    } else {
      assert (es + [e])[1..] == es[1..] + [e];
      KindsOneMore(es[1..], e);
      if AnyGREASE(es) {
        var i :| 0 <= i < |es| && IsGREASE(es[i].kind);
        assert (es + [e])[i] == es[i];
      }
      assert (es + [e])[|es|] == e;
    }
  }

  // The walk, whose advance is computed in 16 bits.

  /** How far a payload of n bytes takes the walk. */
  function Advance(n: uint16): (r: nat)
    ensures r == if n < 0xFFFC then 4 + n else n - 0xFFFC
  {
    (4 + n) % 0x1_0000
  }

  /** One turn of the loop; None when the loop stops. */
  function Turn(left: seq<byte>): Option<seq<byte>> {
    if !Complete(left) then None else Some(left[Advance(Length(left))..])
  }

  /** The advance wraps to nothing: a payload of exactly 65532 bytes that really is there. */
  predicate Stuck(left: seq<byte>) {
    Complete(left) && Length(left) == 0xFFFC
  }

  lemma TurnAdvances(left: seq<byte>)
    ensures match Turn(left)
            case None => true
            case Some(next) => if Stuck(left) then next == left else |next| < |left|
    ensures Stuck(left) ==> Turn(left).Some?
  {
    hide Advance, Big16;
  }

  /** The walk meets no such payload. */
  predicate Unstuck(left: seq<byte>)
    decreases |left|
  {
    TurnAdvances(left);
    Turn(left).None? || (!Stuck(left) && Unstuck(Turn(left).value))
  }

  /** The extensions the walk reads. */
  function Walk(left: seq<byte>): seq<Extension>
    requires Unstuck(left)
    decreases |left|
  {
    TurnAdvances(left);
    if Turn(left).None? then [] else [Front(left)] + Walk(Turn(left).value)
  }

  lemma WalkStep(left: seq<byte>)
    requires Unstuck(left)
    ensures if Complete(left) then
        var next := left[Advance(Length(left))..];
        Unstuck(next) && |next| < |left| && Front(left).kind == Kind(left) && Walk(left) == [Front(left)] + Walk(next)
      else Walk(left) == []
  {
    TurnAdvances(left);
  }

  /** The walk, on every block on which it ends. */
  method DecodeExtensions(raw: seq<byte>) returns (out: seq<uint16>, hasGREASE: bool)
    requires Unstuck(raw)
    ensures out == Kinds(Walk(raw))
    ensures hasGREASE <==> AnyGREASE(Walk(raw))
  {
    out, hasGREASE := [], false;
    var left := raw;
    ghost var read: seq<Extension> := [];
    assert Kinds([]) == [] && !AnyGREASE([]) && [] + Walk(raw) == Walk(raw);
    hide Kinds, AnyGREASE, IsGREASE, Walk, Unstuck, Front, Advance, Big16;
    while |left| >= 4
      invariant Unstuck(left) && Walk(raw) == read + Walk(left)
      invariant out == Kinds(read) && (hasGREASE <==> AnyGREASE(read))
      decreases |left|
    {
      WalkStep(left);
      var typ := Big16(left[0], left[1]);
      var lng := Big16(left[2], left[3]);
      if lng > |left| - 4 {
        break;
      }
      ghost var e, before := Front(left), left;
      KindsOneMore(read, e);
      if IsGREASE(typ) {
        hasGREASE := true;
      } else {
        out := out + [typ];
      }
      left := left[Advance(lng)..];
      ConcatIsAssociative(read, [e], Walk(left));
      read := read + [e];
    }
    WalkStep(left);
    assert read + [] == read;
  }

  predicate Short(es: seq<Extension>) {
    forall e | e in es :: |e.data| < 0xFFFC
  }

  /** As long as no payload is that long, the walk reads what is there. */
  lemma {:induction false} WalkIsParse(raw: seq<byte>)
    requires Short(Parse(raw))
    ensures Unstuck(raw) && Walk(raw) == Parse(raw)
    decreases |raw|
  {
    ParseStep(raw);
    if Complete(raw) {
      TurnAdvances(raw);
      assert Front(raw) in Parse(raw);
      assert Advance(Length(raw)) == 4 + Length(raw);
      WalkIsParse(After(raw));
    }
  }

  lemma {:induction false} SmallBlocksAreShort(raw: seq<byte>)
    requires |raw| <= MAX_BLOCK
    ensures Short(Parse(raw))
    decreases |raw|
  {
    ParseStep(raw);
    if Complete(raw) {
      SmallBlocksAreShort(After(raw));
    }
  }

  /** Every block the wire can carry is walked to its end, and read as its longest well-formed prefix. */
  lemma WireBlocksAreRead(raw: seq<byte>)
    requires |raw| <= MAX_BLOCK
    ensures Unstuck(raw) && Walk(raw) == Parse(raw)
  {
    SmallBlocksAreShort(raw);
    WalkIsParse(raw);
  }

  /** What a client sent within that limit is read back, extension by extension. */
  lemma WalkReadsWhatWasSent(es: seq<Extension>)
    requires AllFit(es) && |Serialise(es)| <= MAX_BLOCK
    ensures Unstuck(Serialise(es)) && Walk(Serialise(es)) == es
  {
    assert Serialise(es) + [] == Serialise(es);
    ParseOfSerialise(es, []);
    WireBlocksAreRead(Serialise(es));
  }

  // The same loop without a guarantee that it ends.

  /** What is left after n turns, or None if the loop has stopped by then. */
  function Turns(left: seq<byte>, n: nat): Option<seq<byte>> {
    if n == 0 then Some(left)
    else
      match Turn(left)
      case None => None
      case Some(next) => Turns(next, n - 1)
  }

  ghost predicate Halts(raw: seq<byte>) {
    exists n: nat :: Turns(raw, n).None?
  }

  lemma {:induction false} StuckTurnsForever(left: seq<byte>, n: nat)
    requires Stuck(left)
    ensures Turns(left, n) == Some(left)
    decreases n
  {
    hide Turn, Stuck;
    TurnAdvances(left);
    if n > 0 {
      StuckTurnsForever(left, n - 1);
    }
  }

  /** Which blocks hang the loop: it ends exactly when the walk meets no payload of 65532 bytes. */
  lemma {:induction false} HaltsIffUnstuck(raw: seq<byte>)
    ensures Halts(raw) <==> Unstuck(raw)
    decreases |raw|
  {
    hide Turn, Stuck;
    TurnAdvances(raw);
    if Turn(raw).None? {
      assert Turns(raw, 1).None?;
    } else if Stuck(raw) {
      forall n: nat ensures Turns(raw, n).Some? {
        StuckTurnsForever(raw, n);
      }
    } else {
      var next := Turn(raw).value;
      HaltsIffUnstuck(next);
      if Halts(next) {
        var n: nat :| Turns(next, n).None?;
        assert Turns(raw, n + 1).None?;
      }
      if Halts(raw) {
        var n: nat :| Turns(raw, n).None?;
        assert n > 0 && Turns(next, n - 1).None?;
      }
    }
  }

  const HANGING: seq<byte> := [0, 0, 0xFF, 0xFC] + seq(0xFFFC, i => 0)

  /** One byte more than the wire can carry is enough. */
  lemma OneByteMoreCanHang()
    ensures |HANGING| == MAX_BLOCK + 1 && !Halts(HANGING)
  {
    assert Stuck(HANGING);
    HaltsIffUnstuck(HANGING);
  }

  // Cipher suites.

  function Pack(suites: seq<uint16>): seq<byte> {
    if suites == [] then [] else [High(suites[0]), Low(suites[0])] + Pack(suites[1..])
  }

  function Suites(raw: seq<byte>): seq<uint16>
    requires |raw| % 2 == 0
  {
    if raw == [] then [] else [Big16(raw[0], raw[1])] + Suites(raw[2..])
  }

  function WithoutGREASE(vs: seq<uint16>): seq<uint16> {
    if vs == [] then [] else (if IsGREASE(vs[0]) then [] else [vs[0]]) + WithoutGREASE(vs[1..])
  }

  lemma {:induction false} SuitesOfPack(suites: seq<uint16>)
    ensures |Pack(suites)| == 2 * |suites| && Suites(Pack(suites)) == suites
  {
    if suites != [] {
      SuitesOfPack(suites[1..]);
      Big16OfHalves(suites[0]);
      assert Pack(suites)[2..] == Pack(suites[1..]);
    }
  }

  lemma {:induction false} WithoutGREASEConcat(a: seq<uint16>, b: seq<uint16>)
    ensures WithoutGREASE(a + b) == WithoutGREASE(a) + WithoutGREASE(b)
  {
    if a == [] {
      assert a + b == b;
    } else {
      assert (a + b)[1..] == a[1..] + b;
      WithoutGREASEConcat(a[1..], b);
    }
  }

  lemma {:induction false} SuitesOneMore(raw: seq<byte>, i: nat)
    requires |raw| % 2 == 0 && i % 2 == 0 && i + 2 <= |raw|
    ensures Suites(raw[..i + 2]) == Suites(raw[..i]) + [Big16(raw[i], raw[i + 1])]
  {
    if i == 0 {
      assert raw[..2][2..] == [];
    } else {
      SuitesOneMore(raw[2..], i - 2);
      assert raw[..i + 2][2..] == raw[2..][..i];
      assert raw[..i][2..] == raw[2..][..i - 2];
    }
  }

  /** Suites of a raw list; an empty or odd-length list gives none. */
  method DecodeCipherSuites(raw: seq<byte>) returns (out: seq<uint16>, hasGREASE: bool)
    ensures |raw| % 2 == 0 ==> out == WithoutGREASE(Suites(raw)) && (hasGREASE <==> out != Suites(raw))
    ensures |raw| % 2 != 0 ==> out == [] && !hasGREASE
  {
    out, hasGREASE := [], false;
    if |raw| == 0 || |raw| % 2 != 0 {
      return;
    }
    var i := 0;
    while i < |raw|
      invariant 0 <= i <= |raw| && i % 2 == 0
      invariant out == WithoutGREASE(Suites(raw[..i]))
      invariant hasGREASE <==> |out| < |Suites(raw[..i])|
      invariant !hasGREASE ==> out == Suites(raw[..i])
    {
      var v := Big16(raw[i], raw[i + 1]);
      SuitesOneMore(raw, i);
      WithoutGREASEConcat(Suites(raw[..i]), [v]);
      assert WithoutGREASE([v]) == if IsGREASE(v) then [] else [v];
      FilterIsNoLonger(Suites(raw[..i]));
      i := i + 2;
      if IsGREASE(v) {
        hasGREASE := true;
        continue;
      }
      out := out + [v];
    }
    assert raw[..i] == raw;
  }

  lemma {:induction false} FilterIsNoLonger(vs: seq<uint16>)
    ensures |WithoutGREASE(vs)| <= |vs|
  {
    if vs != [] {
      FilterIsNoLonger(vs[1..]);
    }
  }

  // The fingerprint's preimage; the hash is any function.

  datatype Info = Info(cipherSuites: seq<uint16>, rawExtensions: seq<byte>)

  function Preimage(info: Info): seq<byte> {
    Pack(info.cipherSuites) + info.rawExtensions
  }

  method ClientHelloFingerprint(info: Option<Info>, sha256: seq<byte> -> seq<byte>) returns (fp: seq<byte>)
    requires forall m :: |sha256(m)| == 32
    ensures |fp| == 16
    ensures fp == match info case None => seq(16, i => 0) case Some(hello) => sha256(Preimage(hello))[..16]
  {
    if info.None? {
      return seq(16, i => 0);
    }
    var buf: seq<byte> := [];
    var i := 0;
    while i < |info.value.cipherSuites|
      invariant 0 <= i <= |info.value.cipherSuites|
      invariant buf == Pack(info.value.cipherSuites[..i])
    {
      var cs := info.value.cipherSuites[i];
      PackOneMore(info.value.cipherSuites, i);
      buf := buf + [High(cs), Low(cs)];
      i := i + 1;
    }
    assert info.value.cipherSuites[..i] == info.value.cipherSuites;
    buf := buf + info.value.rawExtensions;
    return sha256(buf)[..16];
  }

  lemma {:induction false} PackOneMore(suites: seq<uint16>, i: nat)
    requires i < |suites|
    ensures Pack(suites[..i + 1]) == Pack(suites[..i]) + [High(suites[i]), Low(suites[i])]
  {
    if i == 0 {
      assert suites[..1][1..] == [] && Pack([]) == [];
    } else {
      PackOneMore(suites[1..], i - 1);
      assert suites[..i + 1][1..] == suites[1..][..i];
      assert suites[..i][1..] == suites[1..][..i - 1];
    }
  }

  /** What the parser keeps of a raw Client Hello, as far as the fingerprint is concerned. */
  function InfoOf(rawSuites: seq<byte>, rawExtensions: seq<byte>): Info {
    Info(if |rawSuites| % 2 == 0 then WithoutGREASE(Suites(rawSuites)) else [], rawExtensions)
  }

  /** Suite lists that differ only in GREASE values give the same preimage. */
  lemma GREASESuitesLeaveNoTrace(a: seq<uint16>, b: seq<uint16>, rawExtensions: seq<byte>)
    ensures WithoutGREASE(a) == WithoutGREASE(b) <==>
      Preimage(InfoOf(Pack(a), rawExtensions)) == Preimage(InfoOf(Pack(b), rawExtensions))
  {
    hide Pack;
    hide Suites;
    hide WithoutGREASE;
    SuitesOfPack(a);
    SuitesOfPack(b);
    var p, q := Pack(WithoutGREASE(a)), Pack(WithoutGREASE(b));
    if p + rawExtensions == q + rawExtensions {
      assert |p| == |q|;
      assert p == (p + rawExtensions)[..|p|] && q == (q + rawExtensions)[..|q|];
      SuitesOfPack(WithoutGREASE(a));
      SuitesOfPack(WithoutGREASE(b));
    }
  }

  lemma InsertedGREASEIsDropped(a: seq<uint16>, g: uint16, b: seq<uint16>)
    requires IsGREASE(g)
    ensures WithoutGREASE(a + [g] + b) == WithoutGREASE(a + b)
  {
    assert WithoutGREASE([g]) == [] by {
      assert [g][1..] == [];
    }
    hide WithoutGREASE;
    WithoutGREASEConcat(a + [g], b);
    WithoutGREASEConcat(a, [g]);
    WithoutGREASEConcat(a, b);
  }

  /** In particular inserting one anywhere changes nothing. */
  lemma InsertedGREASELeavesNoTrace(a: seq<uint16>, g: uint16, b: seq<uint16>, rawExtensions: seq<byte>)
    requires IsGREASE(g)
    ensures Preimage(InfoOf(Pack(a + [g] + b), rawExtensions)) == Preimage(InfoOf(Pack(a + b), rawExtensions))
  {
    hide *;
    InsertedGREASEIsDropped(a, g, b);
    GREASESuitesLeaveNoTrace(a + [g] + b, a + b, rawExtensions);
  }

  // Hexadecimal.

  const HEX := "0123456789abcdef"

  method FingerprintHex(fp: seq<byte>) returns (s: string)
    ensures |s| == 2 * |fp|
    ensures forall i | 0 <= i < |fp| :: s[2 * i] == HEX[fp[i] / 0x10] && s[2 * i + 1] == HEX[fp[i] % 0x10]
  {
    var out := new char[2 * |fp|](_ => '0');
    var i := 0;
    while i < |fp|
      invariant 0 <= i <= |fp|
      invariant forall j | 0 <= j < i :: out[2 * j] == HEX[fp[j] / 0x10] && out[2 * j + 1] == HEX[fp[j] % 0x10]
    {
      out[2 * i] := HEX[fp[i] / 0x10];
      out[2 * i + 1] := HEX[fp[i] % 0x10];
      i := i + 1;
    }
    s := out[..];
  }

  predicate IsHexOf(s: string, fp: seq<byte>) {
    |s| == 2 * |fp| && forall i | 0 <= i < |fp| :: s[2 * i] == HEX[fp[i] / 0x10] && s[2 * i + 1] == HEX[fp[i] % 0x10]
  }

  lemma HexDigitsDiffer(a: nat, b: nat)
    requires a < 16 && b < 16 && HEX[a] == HEX[b]
    ensures a == b
  {
  }

  /** Distinct fingerprints have distinct texts. */
  lemma HexIsInjective(s: string, a: seq<byte>, b: seq<byte>)
    requires IsHexOf(s, a) && IsHexOf(s, b)
    ensures a == b
  {
    forall i | 0 <= i < |a| ensures a[i] == b[i] {
      HexDigitsDiffer(a[i] / 0x10, b[i] / 0x10);
      HexDigitsDiffer(a[i] % 0x10, b[i] % 0x10);
    }
  }

  // First occurrences.

  method DedupOrdered(s: seq<uint16>) returns (out: seq<uint16>)
    ensures out == Dedup(s)
  {
    if |s| <= 1 {
      DedupOfShort(s);
      return s;
    }
    out := [];
    var seen: set<uint16> := {};
    var i := 0;
    while i < |s|
      invariant 0 <= i <= |s|
      invariant out == Dedup(s[..i])
      invariant forall v :: v in seen <==> v in s[..i]
    {
      assert s[..i + 1][..i] == s[..i];
      if s[i] !in seen {
        seen := seen + {s[i]};
        out := out + [s[i]];
      }
      i := i + 1;
    }
    assert s[..i] == s;
  }

  /** The elements that did not occur before, in order. */
  function Dedup(s: seq<uint16>): seq<uint16> {
    if s == [] then []
    else
      var n := |s| - 1;
      Dedup(s[..n]) + if s[n] in s[..n] then [] else [s[n]]
  }

  lemma DedupOfShort(s: seq<uint16>)
    requires |s| <= 1
    ensures Dedup(s) == s
  {
    if |s| == 1 {
      assert s[..0] == [];
    }
  }

  function FirstIndex(s: seq<uint16>, v: uint16): nat
    requires v in s
    ensures FirstIndex(s, v) < |s| && s[FirstIndex(s, v)] == v && v !in s[..FirstIndex(s, v)]
  {
    if s[0] == v then 0
    else
      assert s == [s[0]] + s[1..];
      assert s[..1 + FirstIndex(s[1..], v)] == [s[0]] + s[1..][..FirstIndex(s[1..], v)];
      1 + FirstIndex(s[1..], v)
  }

  /** Each value once, ordered by where it first occurs: this pins the result down. */
  ghost predicate IsDedup(s: seq<uint16>, t: seq<uint16>) {
    && (forall v :: v in t <==> v in s)
    && (forall i, j | 0 <= i < j < |t| && t[i] in s && t[j] in s :: FirstIndex(s, t[i]) < FirstIndex(s, t[j]))
  }

  lemma FirstIndexIs(s: seq<uint16>, v: uint16, k: nat)
    requires k < |s| && s[k] == v && v !in s[..k]
    ensures FirstIndex(s, v) == k
  {
    var i := FirstIndex(s, v);
    assert forall m | 0 <= m < k :: s[m] in s[..k];
    assert forall m | 0 <= m < i :: s[m] in s[..i];
  }

  lemma FirstIndexInPrefix(s: seq<uint16>, n: nat, v: uint16)
    requires n <= |s| && v in s[..n]
    ensures v in s && FirstIndex(s, v) == FirstIndex(s[..n], v)
  {
    var k := FirstIndex(s[..n], v);
    assert s[..n][..k] == s[..k];
    FirstIndexIs(s, v, k);
  }

  lemma {:induction false} DedupIsDedup(s: seq<uint16>)
    ensures IsDedup(s, Dedup(s))
  {
    if s != [] {
      var n := |s| - 1;
      var t := Dedup(s[..n]);
      DedupIsDedup(s[..n]);
      assert s == s[..n] + [s[n]];
      forall v ensures v in Dedup(s) <==> v in s {
      }
      forall i, j | 0 <= i < j < |Dedup(s)| ensures FirstIndex(s, Dedup(s)[i]) < FirstIndex(s, Dedup(s)[j]) {
        assert t[i] in t;
        FirstIndexInPrefix(s, n, t[i]);
        if j < |t| {
          assert t[j] in t;
          FirstIndexInPrefix(s, n, t[j]);
        } else {
          assert FirstIndex(s, s[n]) == n by {
            assert forall k | 0 <= k < n :: s[k] == s[..n][k];
          }
        }
      }
    }
  }

  lemma {:induction false} SizeOfDistinct(t: seq<uint16>)
    requires forall i, j | 0 <= i < j < |t| :: t[i] != t[j]
    ensures |Values(t)| == |t|
  {
    if t != [] {
      SizeOfDistinct(t[1..]);
      assert t == [t[0]] + t[1..];
      assert Values(t) == Values(t[1..]) + {t[0]};
      assert t[0] !in Values(t[1..]);
    } else {
      assert Values(t) == {};
    }
  }

  ghost function Values(t: seq<uint16>): set<uint16> {
    set v | v in t
  }

  lemma DedupIsUnique(s: seq<uint16>, t: seq<uint16>, u: seq<uint16>)
    requires IsDedup(s, t) && IsDedup(s, u)
    ensures t == u
  {
    forall i, j | 0 <= i < j < |t| ensures t[i] != t[j] {
      assert t[i] in t && t[j] in t;
    }
    forall i, j | 0 <= i < j < |u| ensures u[i] != u[j] {
      assert u[i] in u && u[j] in u;
    }
    SizeOfDistinct(t);
    SizeOfDistinct(u);
    assert Values(t) == Values(u);
    AgreeFrom(s, t, u, 0);
  }

  /** Two such lists of one length agree if they agree up to some position. */
  lemma {:induction false} AgreeFrom(s: seq<uint16>, t: seq<uint16>, u: seq<uint16>, n: nat)
    requires IsDedup(s, t) && IsDedup(s, u) && n <= |t| == |u| && t[..n] == u[..n]
    ensures t == u
    decreases |t| - n
  {
    if n < |t| {
      NextAgrees(s, t, u, n);
      assert t[..n + 1] == t[..n] + [t[n]] && u[..n + 1] == u[..n] + [u[n]];
      AgreeFrom(s, t, u, n + 1);
    } else {
      assert t[..n] == t && u[..n] == u;
    }
  }

  lemma NextAgrees(s: seq<uint16>, t: seq<uint16>, u: seq<uint16>, n: nat)
    requires IsDedup(s, t) && IsDedup(s, u) && n < |t| && n < |u| && t[..n] == u[..n]
    ensures t[n] == u[n]
  {
    assert t[n] in t && u[n] in u;
    var j :| 0 <= j < |u| && u[j] == t[n];
    var k :| 0 <= k < |t| && t[k] == u[n];
    assert forall m | 0 <= m < n :: t[..n][m] == t[m] && u[..n][m] == u[m];
  }

  // The whole record, from the cipher-suite and extension bytes of a decoded Client Hello.

  datatype Summary = Summary(
    cipherSuites: seq<uint16>,
    extensions: seq<uint16>,
    extensionCount: nat,
    hasGREASE: bool,
    rawExtensions: seq<byte>)

  method Summarise(rawSuites: seq<byte>, rawExtensions: seq<byte>) returns (info: Summary)
    requires Unstuck(rawExtensions)
    ensures info.cipherSuites == InfoOf(rawSuites, rawExtensions).cipherSuites
    ensures info.extensions == Dedup(Kinds(Walk(rawExtensions))) && info.extensionCount == |info.extensions|
    ensures info.hasGREASE <==>
      (|rawSuites| % 2 == 0 && WithoutGREASE(Suites(rawSuites)) != Suites(rawSuites)) || AnyGREASE(Walk(rawExtensions))
    ensures info.rawExtensions == rawExtensions
  {
    var suites, suiteGREASE := DecodeCipherSuites(rawSuites);
    var exts, extGREASE := DecodeExtensions(rawExtensions);
    var kinds := DedupOrdered(exts);
    info := Summary(suites, kinds, |kinds|, suiteGREASE || extGREASE, rawExtensions);
  }

  lemma {:induction false} FilterKeepsAllOrDrops(vs: seq<uint16>)
    ensures WithoutGREASE(vs) == vs <==> forall i | 0 <= i < |vs| :: !IsGREASE(vs[i])
  {
    if vs != [] {
      hide IsGREASE;
      FilterKeepsAllOrDrops(vs[1..]);
      FilterIsNoLonger(vs[1..]);
      assert forall i | 0 < i < |vs| :: vs[i] == vs[1..][i - 1];
      if !IsGREASE(vs[0]) {
        assert WithoutGREASE(vs) == [vs[0]] + WithoutGREASE(vs[1..]);
        assert vs == [vs[0]] + vs[1..];
        assert WithoutGREASE(vs)[1..] == WithoutGREASE(vs[1..]);
      }
    }
  }

  /**
   What is reported of a well-formed hello: its real suites, its real extension types once each, and
   whether it greased either list.
   */
  lemma SummaryOfSent(suites: seq<uint16>, es: seq<Extension>)
    requires AllFit(es) && |Serialise(es)| <= MAX_BLOCK
    ensures |Pack(suites)| % 2 == 0 && Unstuck(Serialise(es))
    ensures InfoOf(Pack(suites), Serialise(es)).cipherSuites == WithoutGREASE(suites)
    ensures Kinds(Walk(Serialise(es))) == Kinds(es)
    ensures WithoutGREASE(Suites(Pack(suites))) != Suites(Pack(suites))
      <==> exists i | 0 <= i < |suites| :: IsGREASE(suites[i])
    ensures AnyGREASE(Walk(Serialise(es))) <==> AnyGREASE(es)
  {
    SuitesOfPack(suites);
    WalkReadsWhatWasSent(es);
    FilterKeepsAllOrDrops(suites);
  }
}
