/** The cryptography the session relies on, idealised, and the counter and IV discipline of
    `CipherAES256GCMPacketStream`. */
module CipherModel {
  import opened Common

  const TWO_64: int := 0x1_0000_0000_0000_0000
  const TAG_SIZE: nat := 16
  const SHORT_TAG_SIZE: nat := 10

  type U64 = n: int | 0 <= n < 0x1_0000_0000_0000_0000

  /** The primitives as functions; `garble` is what decryption leaves in the output when the tag is wrong. */
  datatype Suite = Suite(
    pub: Bytes -> Bytes,
    validPub: Bytes -> bool,
    dh: (Bytes, Bytes) -> Bytes,
    hash: Bytes -> Bytes,
    sign: (Bytes, Bytes) -> Bytes,
    verify: (Bytes, Bytes, Bytes) -> bool,
    seal: (Bytes, Bytes, Bytes) -> Bytes,
    open: (Bytes, Bytes, Bytes) -> Option<Bytes>,
    garble: (Bytes, Bytes, Bytes) -> Bytes)

  ghost predicate Small(b: Bytes) { |b| < 0x1_0000 }

  /** What is assumed of them: agreement of the key exchange, valid signatures, sealing undone by opening
      under the same key and IV, and sizes. */
  ghost predicate Lawful(c: Suite)
  {
    && (forall x, y :: c.dh(x, c.pub(y)) == c.dh(y, c.pub(x)))
    && (forall x :: c.validPub(c.pub(x)) && Small(c.pub(x)))
    && (forall x, y :: Small(c.dh(x, y)))
    && (forall m :: |c.hash(m)| == 64)
    && (forall k, m :: c.verify(c.pub(k), m, c.sign(k, m)) && Small(c.sign(k, m)))
    && (forall k, iv, p :: c.open(k, iv, c.seal(k, iv, p)) == Some(p) && |c.seal(k, iv, p)| == |p| + TAG_SIZE)
  }

  /** `uint64_t`, little endian. */
  function LE64(n: U64): (b: Bytes)
    ensures |b| == 8
  {
    LE32(n % TWO_32) + LE32(n / TWO_32)
  }

  lemma LE64Injective(a: U64, b: U64)
    requires LE64(a) == LE64(b)
    ensures a == b
  {
    assert LE64(a)[..4] == LE32(a % TWO_32) && LE64(a)[4..] == LE32(a / TWO_32);
    assert LE64(b)[..4] == LE32(b % TWO_32) && LE64(b)[4..] == LE32(b / TWO_32);
    LE32RoundTrip(a % TWO_32);
    LE32RoundTrip(b % TWO_32);
    LE32RoundTrip(a / TWO_32);
    LE32RoundTrip(b / TWO_32);
  }

  datatype Cipher = Cipher(key: Bytes, common: Bytes, counter: U64)

  /** The 12 IV bytes of the next packet: the common part, then the packet counter. */
  function Iv(c: Cipher): Bytes
  {
    c.common + LE64(c.counter)
  }

  function Advanced(c: Cipher): Cipher
  {
    c.(counter := (c.counter + 1) % TWO_64)
  }

  function Encrypted(s: Suite, c: Cipher, plain: Bytes): Bytes
  {
    s.seal(c.key, Iv(c), plain)
  }

  /** What `decrypt` leaves in its output; its verdict is not looked at by the session. */
  function Decrypted(s: Suite, c: Cipher, data: Bytes): Bytes
  {
    if |data| < TAG_SIZE then []
    else match s.open(c.key, Iv(c), data)
         case Some(p) => p
         case None => s.garble(c.key, Iv(c), data)
  }

  function AfterDecrypt(c: Cipher, data: Bytes): Cipher
  {
    if |data| < TAG_SIZE then c else Advanced(c)
  }

  /** Equal keys, common parts and counters at both ends: the packet comes back and the counters stay equal. */
  lemma PacketRoundTrip(s: Suite, c: Cipher, plain: Bytes)
    requires Lawful(s)
    ensures Decrypted(s, c, Encrypted(s, c, plain)) == plain
    ensures AfterDecrypt(c, Encrypted(s, c, plain)) == Advanced(c)
  {
  }

  /** Packets of one stream less than 2^64 apart use different IVs. */
  lemma IvsDiffer(c: Cipher, i: nat, j: nat)
    requires i < j < i + TWO_64
    ensures Iv(c.(counter := i % TWO_64)) != Iv(c.(counter := j % TWO_64))
  {
    var a, b := c.(counter := i % TWO_64), c.(counter := j % TWO_64);
    assert a.counter != b.counter;
    if Iv(a) == Iv(b) {
      assert Iv(a)[|c.common|..] == LE64(a.counter) && Iv(b)[|c.common|..] == LE64(b.counter);
      LE64Injective(a.counter, b.counter);
    }
  }

  /** The counter a standalone packet carries: its low six bytes. */
  function CarriedCounter(n: U64): Bytes
  {
    LE64(n)[..TAG_SIZE - SHORT_TAG_SIZE]
  }

  /** The IV `decrypt_standalone` builds from the carried bytes is the one `encrypt_standalone` used exactly
      while the counter fits in them. */
  lemma StandaloneIvIff(c: Cipher)
    ensures c.common + (CarriedCounter(c.counter) + [0, 0]) == Iv(c) <==> c.counter < 0x1_0000_0000_0000
  {
    var n := c.counter;
    var hi := n / TWO_32;
    assert LE64(n) == CarriedCounter(n) + LE64(n)[6..];
    assert LE64(n)[6..] == [hi / 0x1_0000 % 0x100, hi / 0x100_0000];
    var built := CarriedCounter(n) + [0, 0];
    assert (c.common + built)[|c.common|..] == built;
    assert Iv(c)[|c.common|..] == LE64(n);
    assert hi < 0x1_0000 <==> n < 0x1_0000_0000_0000;
    if built == LE64(n) {
      assert built[6..] == LE64(n)[6..];
      assert hi / 0x1_0000 % 0x100 == 0 && hi / 0x100_0000 == 0;
      assert hi / 0x100_0000 == hi / 0x1_0000 / 0x100;
    }
  }

  /** The laws do not contradict each other: even a suite that protects nothing meets them. */
  lemma LawfulSuiteExists()
    ensures exists c: Suite :: Lawful(c)
  {
    var c := Suite(
      (x: Bytes) => [],
      (b: Bytes) => true,
      (x: Bytes, y: Bytes) => [],
      (m: Bytes) => seq(64, _ => 0),
      (k: Bytes, m: Bytes) => [],
      (k: Bytes, m: Bytes, g: Bytes) => true,
      (k: Bytes, iv: Bytes, p: Bytes) => seq(16, _ => 0) + p,
      (k: Bytes, iv: Bytes, d: Bytes) => if |d| < TAG_SIZE then None else Some(d[16..]),
      (k: Bytes, iv: Bytes, d: Bytes) => d);
    forall k, iv, p ensures c.open(k, iv, c.seal(k, iv, p)) == Some(p) && |c.seal(k, iv, p)| == |p| + TAG_SIZE {
      assert c.seal(k, iv, p)[16..] == p;
    }
    assert Lawful(c);
  }
}
