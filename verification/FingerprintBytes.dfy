/** What the fingerprint of a Client Hello is made of, byte by byte, and what of the hello it tells apart. */
module FingerprintBytes {
  import opened ClientHello

  lemma {:induction false} PackedBytes(suites: seq<uint16>, i: nat)
    requires i < |suites|
    ensures |Pack(suites)| == 2 * |suites|
    ensures Pack(suites)[2 * i] == suites[i] / 0x100 && Pack(suites)[2 * i + 1] == suites[i] % 0x100
  {
    SuitesOfPack(suites);
    if i > 0 {
      PackedBytes(suites[1..], i - 1);
      assert Pack(suites)[2..] == Pack(suites[1..]);
    }
  }

  /** The hashed bytes: two for each suite, the high half first, and then the extensions as they came. */
  lemma PreimageBytes(info: Info)
    ensures var (p, n) := (Preimage(info), |info.cipherSuites|);
      && |p| == 2 * n + |info.rawExtensions|
      && (forall i | 0 <= i < n ::
            p[2 * i] == info.cipherSuites[i] / 0x100 && p[2 * i + 1] == info.cipherSuites[i] % 0x100)
      && p[2 * n..] == info.rawExtensions
  {
    SuitesOfPack(info.cipherSuites);
    forall i | 0 <= i < |info.cipherSuites|
      ensures Preimage(info)[2 * i] == info.cipherSuites[i] / 0x100
      ensures Preimage(info)[2 * i + 1] == info.cipherSuites[i] % 0x100
    {
      PackedBytes(info.cipherSuites, i);
    }
  }

  lemma {:induction false} PackOfConcat(a: seq<uint16>, b: seq<uint16>)
    ensures Pack(a + b) == Pack(a) + Pack(b)
  {
    if a == [] {
      assert a + b == b;
    } else {
      assert (a + b)[1..] == a[1..] + b;
      PackOfConcat(a[1..], b);
    }
  }

  /**
   Two hellos have the same preimage exactly if the suites of the one are the first suites of the other, and
   its extensions are the bytes of the other's further suites followed by the other's extensions: there is no
   boundary between the two.
   */
  lemma SamePreimage(a: Info, b: Info)
    requires |a.cipherSuites| <= |b.cipherSuites|
    ensures var n := |a.cipherSuites|;
      Preimage(a) == Preimage(b) <==>
        a.cipherSuites == b.cipherSuites[..n] && a.rawExtensions == Pack(b.cipherSuites[n..]) + b.rawExtensions
  {
    var n := |a.cipherSuites|;
    var (front, more) := (b.cipherSuites[..n], b.cipherSuites[n..]);
    assert b.cipherSuites == front + more;
    PackOfConcat(front, more);
    SuitesOfPack(a.cipherSuites);
    SuitesOfPack(front);
    hide Pack, Suites;
    var (p, q) := (Pack(a.cipherSuites), Pack(front));
    assert Preimage(b) == q + (Pack(more) + b.rawExtensions);
    if Preimage(a) == Preimage(b) {
      assert p == Preimage(a)[..2 * n] && q == Preimage(b)[..2 * n];
      assert a.rawExtensions == Preimage(a)[2 * n..] && Pack(more) + b.rawExtensions == Preimage(b)[2 * n..];
    }
  }

  /** So between hellos of equally many suites the preimage tells every difference, of suites or of extensions. */
  lemma PreimageTellsApart(a: Info, b: Info)
    requires |a.cipherSuites| == |b.cipherSuites|
    ensures Preimage(a) == Preimage(b) <==> a.cipherSuites == b.cipherSuites && a.rawExtensions == b.rawExtensions
  {
    SamePreimage(a, b);
    assert b.cipherSuites[..|a.cipherSuites|] == b.cipherSuites;
  }

  lemma {:induction false} PackOfSuites(raw: seq<byte>)
    requires |raw| % 2 == 0
    ensures Pack(Suites(raw)) == raw
  {
    if raw != [] {
      PackOfSuites(raw[2..]);
      HalvesOfBig16(raw[0], raw[1]);
    }
  }

  predicate GREASEFree(rawSuites: seq<byte>) {
    |rawSuites| % 2 == 0 && forall v | v in Suites(rawSuites) :: v !in GREASE_VALUES
  }

  /** Of a hello without GREASE the very bytes of both lists are hashed; of an odd suite list nothing is. */
  lemma WireBytesAreHashed(rawSuites: seq<byte>, rawExtensions: seq<byte>)
    ensures GREASEFree(rawSuites) ==>
      Preimage(InfoOf(rawSuites, rawExtensions)) == rawSuites + rawExtensions
    ensures |rawSuites| % 2 != 0 ==> Preimage(InfoOf(rawSuites, rawExtensions)) == rawExtensions
  {
    if |rawSuites| % 2 == 0 {
      PackOfSuites(rawSuites);
      FilterKeepsAllOrDrops(Suites(rawSuites));
      forall v: uint16 ensures IsGREASE(v) <==> v in GREASE_VALUES {
        GREASEIsTheRegisteredSet(v);
      }
      assert forall i | 0 <= i < |Suites(rawSuites)| :: Suites(rawSuites)[i] in Suites(rawSuites);
    } else {
      assert Pack([]) + rawExtensions == rawExtensions;
    }
  }

  lemma GREASEIsNoted(a: seq<Extension>, e: Extension, b: seq<Extension>)
    ensures AnyGREASE(a + [e] + b) <==> AnyGREASE(a) || IsGREASE(e.kind) || AnyGREASE(b)
  {
    hide IsGREASE;
    var all := a + [e] + b;
    assert forall i | 0 <= i < |a| :: all[i] == a[i];
    assert all[|a|] == e;
    assert forall i | 0 <= i < |b| :: all[|a| + 1 + i] == b[i];
    assert forall i | |a| < i < |all| :: all[i] == b[i - |a| - 1];
  }

  lemma {:induction false} KindsOfConcat(a: seq<Extension>, b: seq<Extension>)
    ensures Kinds(a + b) == Kinds(a) + Kinds(b)
  {
    hide IsGREASE;
    if a == [] {
      assert a + b == b;
    } else {
      assert (a + b)[1..] == a[1..] + b;
      KindsOfConcat(a[1..], b);
    }
  }

  /** The types reported are those of the extensions in order, less the registered GREASE values, which are noted. */
  lemma KindsAreReported(a: seq<Extension>, e: Extension, b: seq<Extension>)
    ensures Kinds([]) == [] && !AnyGREASE([])
    ensures Kinds(a + [e] + b) == Kinds(a) + (if e.kind in GREASE_VALUES then [] else [e.kind]) + Kinds(b)
    ensures AnyGREASE(a + [e] + b) <==> AnyGREASE(a) || e.kind in GREASE_VALUES || AnyGREASE(b)
  {
    GREASEIsTheRegisteredSet(e.kind);
    KindsOfConcat(a + [e], b);
    KindsOneMore(a, e);
    GREASEIsNoted(a, e, b);
  }

  /** The text of a fingerprint spells its bytes: a digit stands for its value, and letters are lower case. */
  lemma DigitsSpellTheirValue(n: nat)
    requires n < 0x10
    ensures HEX[n] as int == if n < 10 then '0' as int + n else 'a' as int + n - 10
  {
  }
}
