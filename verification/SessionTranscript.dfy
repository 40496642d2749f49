/** The packets, hashes and keys of an honest pair in every run, written out in bytes and primitives. */
module SessionTranscript {
  import opened Common
  import opened PackedRecords
  import opened CipherModel
  import opened SessionModel
  import opened SessionNet
  import opened SessionTheorems

  // ------------------------------------------------------------ what is hashed

  /** As soon as a side has the exchange hash, it is the hash of the shared secret, both ephemeral keys and both
      nonces, the client's first. */
  lemma HashCovers(w: World, n: Net)
    requires Reachable(w, n)
    ensures var k := w.suite.dh(w.ca.dhFresh, w.suite.pub(w.cb.dhFresh));
            var h := w.suite.hash(Pack([k, w.suite.pub(w.ca.dhFresh), w.suite.pub(w.cb.dhFresh), w.ca.nonceFresh, w.cb.nonceFresh]));
            && (n.a.kex.h == [] || (n.a.kex.h == h && n.a.kex.k == k))
            && (n.b.kex.h == [] || (n.b.kex.h == h && n.b.kex.k == k))
    ensures n.baTaken >= 2 ==> n.a.kex.h != []
    ensures n.abTaken >= 2 ==> n.b.kex.h != []
  {
    var pa, pb := Reached(w, n);
  }

  /** Two exchanges that differ in any of the five hash different bytes. */
  lemma HashInputsDiffer(a: seq<Record>, b: seq<Record>)
    requires |a| == |b| == 5 && (a[0] != b[0] || a[1] != b[1] || a[2] != b[2] || a[3] != b[3] || a[4] != b[4])
    ensures Pack(a) != Pack(b)
  {
    if Pack(a) == Pack(b) {
      PackInjective(a, b);
    }
  }

  /** The same for what the client's long-term key signs. */
  lemma ProofInputsDiffer(a: seq<Record>, b: seq<Record>)
    requires |a| == |b| == 4 && (a[0] != b[0] || a[1] != b[1] || a[2] != b[2] || a[3] != b[3])
    ensures Pack(a) != Pack(b)
  {
    if Pack(a) == Pack(b) {
      PackInjective(a, b);
    }
  }

  // ------------------------------------------------------------ the derived keys

  /** Key and IV part are the front of two hashes, of the secret, a pass number of 0, a letter and the exchange
      hash. */
  ghost predicate KeyedBy(c: Cipher, suite: Suite, k: Bytes, h: Bytes, keyLetter: Byte, ivLetter: Byte)
  {
    var key, iv := suite.hash(k + [0, 0, 0, 0, keyLetter] + h), suite.hash(k + [0, 0, 0, 0, ivLetter] + h);
    |key| >= 32 && |iv| >= 4 && c.key == key[..32] && c.common == iv[..4]
  }

  lemma KeyedIs(suite: Suite, c: Cipher, k: Bytes, h: Bytes, x: Byte, y: Byte, d: Cipher)
    requires Lawful(suite) && d.key == Keyed(suite, c, k, h, x, y).key && d.common == Keyed(suite, c, k, h, x, y).common
    ensures KeyedBy(d, suite, k, h, x, y)
  {
    LE32IsLittleEndian(0, 0, 0, 0, 0);
    assert LE32(0) + [x] == [0, 0, 0, 0, x] && LE32(0) + [y] == [0, 0, 0, 0, y];
  }

  lemma ClientKeysAre(w: World, n: Net, pa: nat, pb: nat)
    requires Lawful(w.suite) && At(w, n, pa, pb) && n.a.encOb
    ensures KeyedBy(n.a.outbound, w.suite, n.a.kex.k, n.a.kex.h, 66, 68)
    ensures KeyedBy(n.a.inbound, w.suite, n.a.kex.k, n.a.kex.h, 65, 67)
  {
    KeyedIs(w.suite, NO_CIPHER, K(w), H(w), CHAR_B, CHAR_D, n.a.outbound);
    KeyedIs(w.suite, NO_CIPHER, K(w), H(w), CHAR_A, CHAR_C, n.a.inbound);
  }

  lemma ServerKeysAre(w: World, n: Net, pa: nat, pb: nat)
    requires Lawful(w.suite) && At(w, n, pa, pb)
    ensures n.b.encOb ==> KeyedBy(n.b.outbound, w.suite, n.b.kex.k, n.b.kex.h, 65, 67)
    ensures n.b.encIb ==> KeyedBy(n.b.inbound, w.suite, n.b.kex.k, n.b.kex.h, 66, 68)
  {
    if n.b.encOb { KeyedIs(w.suite, NO_CIPHER, K(w), H(w), CHAR_A, CHAR_C, n.b.outbound); }
    if n.b.encIb { KeyedIs(w.suite, NO_CIPHER, K(w), H(w), CHAR_B, CHAR_D, n.b.inbound); }
  }

  /** Each direction has its own two letters, at both ends: the client's packets B and D, the server's A and C. */
  lemma KeysAre(w: World, n: Net)
    requires Reachable(w, n)
    ensures n.a.encOb ==> KeyedBy(n.a.outbound, w.suite, n.a.kex.k, n.a.kex.h, 66, 68)
                          && KeyedBy(n.a.inbound, w.suite, n.a.kex.k, n.a.kex.h, 65, 67)
    ensures n.b.encOb ==> KeyedBy(n.b.outbound, w.suite, n.b.kex.k, n.b.kex.h, 65, 67)
    ensures n.b.encIb ==> KeyedBy(n.b.inbound, w.suite, n.b.kex.k, n.b.kex.h, 66, 68)
  {
    var pa, pb := Reached(w, n);
    if n.a.encOb { ClientKeysAre(w, n, pa, pb); }
    ServerKeysAre(w, n, pa, pb);
  }

  /** Different letters give different inputs to the hash. */
  lemma LettersDiffer(k: Bytes, h: Bytes, x: Byte, y: Byte)
    requires x != y
    ensures k + [0, 0, 0, 0, x] + h != k + [0, 0, 0, 0, y] + h
  {
    assert (k + [0, 0, 0, 0, x] + h)[|k| + 4] == x;
    assert (k + [0, 0, 0, 0, y] + h)[|k| + 4] == y;
  }

  // ------------------------------------------------------------ every packet

  /** A sealed packet: key, IV and plain text, the IV being the common part and the packet number in eight bytes,
      the lowest first. */
  ghost predicate SealedAs(packet: Bytes, suite: Suite, c: Cipher, number: nat, plain: Bytes)
  {
    exists b: Bytes :: Counts(b, number) && packet == suite.seal(c.key, c.common + b, plain)
  }

  predicate Counts(b: Bytes, number: nat)
  {
    |b| == 8 && FromLE32(b[..4]) + 0x1_0000_0000 * FromLE32(b[4..]) == number % 0x1_0000_0000_0000_0000
  }

  lemma CounterCounts(n: U64)
    ensures Counts(LE64(n), n)
  {
    LE32RoundTrip(n % TWO_32);
    LE32RoundTrip(n / TWO_32);
    assert LE64(n)[..4] == LE32(n % TWO_32) && LE64(n)[4..] == LE32(n / TWO_32);
  }

  lemma EncryptedIs(suite: Suite, c: Cipher, d: Cipher, n: nat, plain: Bytes)
    requires c.counter == n % TWO_64 && d.key == c.key && d.common == c.common
    ensures SealedAs(Encrypted(suite, c, plain), suite, d, n, plain)
  {
    CounterCounts(c.counter);
    assert Counts(LE64(c.counter), n);
  }

  ghost predicate ClientPacket(w: World, n: Net, h: Bytes, k: nat)
    requires k < |n.a.out|
  {
    var lt, x := w.suite.pub(w.ca.ltSelf), w.suite.pub(w.ca.dhFresh);
    if k == 0 then n.a.out[0] == [1, 1, 0, 0, 0, 1]
    else if k == 1 then n.a.out[1] == [1, 3] + Pack([x, w.ca.nonceFresh])
    else if k == 2 then n.a.out[2] == [1, 6]
    else if k == 3 then
      SealedAs(n.a.out[3], w.suite, n.a.outbound, 0,
               [1, 7] + Pack([lt, w.suite.sign(w.ca.ltSelf, w.suite.hash(Pack([h, [1, 0, 0, 0, 1], [2, 0, 0, 0, 1], lt])))]))
    else k - 4 < |n.aSent| && SealedAs(n.a.out[k], w.suite, n.a.outbound, k - 3, [0] + n.aSent[k - 4])
  }

  ghost predicate ServerPacket(w: World, n: Net, h: Bytes, k: nat)
    requires k < |n.b.out|
  {
    var lt, y := w.suite.pub(w.cb.ltSelf), w.suite.pub(w.cb.dhFresh);
    if k == 0 then n.b.out[0] == [1, 2, 0, 0, 0, 1]
    else if k == 1 then n.b.out[1] == [1, 4] + Pack([y, w.cb.nonceFresh, lt, w.suite.sign(w.cb.ltSelf, h)])
    else if k == 2 then n.b.out[2] == [1, 5]
    else k - 3 < |n.bSent| && SealedAs(n.b.out[k], w.suite, n.b.outbound, k - 3, [0] + n.bSent[k - 3])
  }

  lemma VersionIs(kind: Byte)
    ensures VersionPacket(kind) == [kind, 0, 0, 0, 1]
  {
    LE32IsLittleEndian(0x100_0000, 0, 0, 0, 1);
  }

  lemma ClearAIs(w: World)
    ensures ClearA(w)[0] == [1, 1, 0, 0, 0, 1] && ClearA(w)[2] == [1, 6]
    ensures ClearA(w)[1] == [1, 3] + Pack([w.suite.pub(w.ca.dhFresh), w.ca.nonceFresh])
  {
    VersionIs(1);
    assert [1] + ([3] + Pack(HelloRecordsA(w))) == [1, 3] + Pack(HelloRecordsA(w));
  }

  lemma ClearBIs(w: World)
    ensures ClearB(w)[0] == [1, 2, 0, 0, 0, 1] && ClearB(w)[2] == [1, 5]
    ensures ClearB(w)[1] == [1, 4] + Pack([w.suite.pub(w.cb.dhFresh), w.cb.nonceFresh, w.suite.pub(w.cb.ltSelf),
                                           w.suite.sign(w.cb.ltSelf, H(w))])
  {
    VersionIs(2);
    assert [1] + ([4] + Pack(HelloRecordsB(w))) == [1, 4] + Pack(HelloRecordsB(w));
  }

  lemma IdentityIs(w: World)
    ensures var lt := w.suite.pub(w.ca.ltSelf);
            PlainA(w, [], 0)
            == [1, 7] + Pack([lt, w.suite.sign(w.ca.ltSelf, w.suite.hash(Pack([H(w), [1, 0, 0, 0, 1], [2, 0, 0, 0, 1], lt])))])
  {
    VersionIs(1);
    VersionIs(2);
    assert [1] + ([7] + Pack(IdentityRecords(w))) == [1, 7] + Pack(IdentityRecords(w));
  }

  lemma ClientPacketIs(w: World, n: Net, k: nat)
    requires Lawful(w.suite) && k < |n.a.out| && k < 4 + |n.aSent|
    requires n.a.out[k] == if k < 3 then ClearA(w)[k] else Encrypted(w.suite, CipherAB(w, k - 3), PlainA(w, n.aSent, k - 3))
    requires k >= 3 ==> n.a.outbound.key == CipherAB(w, 0).key && n.a.outbound.common == CipherAB(w, 0).common
    ensures ClientPacket(w, n, H(w), k)
  {
    if k < 3 {
      ClearAIs(w);
    } else {
      EncryptedIs(w.suite, CipherAB(w, k - 3), n.a.outbound, k - 3, PlainA(w, n.aSent, k - 3));
      IdentityIs(w);
      assert PlainA(w, n.aSent, 0) == PlainA(w, [], 0);
    }
  }

  lemma ServerPacketIs(w: World, n: Net, k: nat)
    requires Lawful(w.suite) && k < |n.b.out| && k < 3 + |n.bSent|
    requires n.b.out[k] == if k < 3 then ClearB(w)[k] else Encrypted(w.suite, CipherBA(w, k - 3), DataPlain(n.bSent[k - 3]))
    requires k >= 3 ==> n.b.outbound.key == CipherBA(w, 0).key && n.b.outbound.common == CipherBA(w, 0).common
    ensures ServerPacket(w, n, H(w), k)
  {
    if k < 3 {
      ClearBIs(w);
    } else {
      EncryptedIs(w.suite, CipherBA(w, k - 3), n.b.outbound, k - 3, DataPlain(n.bSent[k - 3]));
    }
  }

  lemma ClientPackets(w: World, n: Net, pa: nat, pb: nat, k: nat)
    requires Lawful(w.suite) && At(w, n, pa, pb) && k < |n.a.out|
    ensures ClientPacket(w, n, H(w), k)
  {
    Lengths(w, n, pa, pb);
    HeadOfA(w, n.aSent, |n.a.out|, k);
    ClientPacketIs(w, n, k);
  }

  lemma ServerPackets(w: World, n: Net, pa: nat, pb: nat, k: nat)
    requires Lawful(w.suite) && At(w, n, pa, pb) && k < |n.b.out|
    ensures ServerPacket(w, n, H(w), k)
  {
    Lengths(w, n, pa, pb);
    HeadOfB(w, n.bSent, |n.b.out|, k);
    ServerPacketIs(w, n, k);
  }

  /** Every packet of every run, byte by byte but for what the primitives make: two versions, two hellos, the switch
      of keys, the sealed identity, and sealed data under consecutive numbers. */
  lemma Transcript(w: World, n: Net, h: Bytes, k: nat)
    requires Reachable(w, n)
    requires h == w.suite.hash(Pack([w.suite.dh(w.ca.dhFresh, w.suite.pub(w.cb.dhFresh)),
                                     w.suite.pub(w.ca.dhFresh), w.suite.pub(w.cb.dhFresh), w.ca.nonceFresh, w.cb.nonceFresh]))
    ensures k < |n.a.out| ==> ClientPacket(w, n, h, k)
    ensures k < |n.b.out| ==> ServerPacket(w, n, h, k)
  {
    var pa, pb := Reached(w, n);
    if k < |n.a.out| { ClientPackets(w, n, pa, pb, k); }
    if k < |n.b.out| { ServerPackets(w, n, pa, pb, k); }
  }
}
