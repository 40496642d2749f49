/** `CipherAES256GCMPacketStream`, `KEXV1_A`/`KEXV1_B` and `OPTSession` as objects, each method proved equal
    to its function in `SessionModel`. */
module SessionEndpoint {
  import opened Common
  import opened CipherModel
  import opened PackedRecords
  import opened SessionModel
  import M = SessionModel

  class PacketCipher {
    const suite: Suite
    var key: Bytes
    var common: Bytes
    var counter: U64

    function State(): Cipher
      reads this
    {
      Cipher(key, common, counter)
    }

    constructor (suite: Suite)
      ensures this.suite == suite && State() == NO_CIPHER
    {
      this.suite := suite;
      key, common, counter := [], [], 0;
    }

    /** The last eight IV bytes are written over by the counter before each use. */
    method SetIv(bytes: Bytes)
      requires |bytes| == IV_SIZE
      modifies this
      ensures State() == old(State()).(common := bytes[..4])
    {
      common := bytes[..4];
    }

    method SetKey(bytes: Bytes)
      requires |bytes| == KEY_SIZE
      modifies this
      ensures State() == old(State()).(key := bytes)
    {
      key := bytes;
    }

    method Encrypt(plain: Bytes) returns (sealed: Bytes)
      modifies this
      ensures sealed == Encrypted(suite, old(State()), plain) && State() == Advanced(old(State()))
      ensures sealed == suite.seal(key, common + LE64(old(counter)), plain)
      ensures key == old(key) && common == old(common) && counter == (old(counter) + 1) % 0x1_0000_0000_0000_0000
    {
      var iv := common + LE64(counter);
      sealed := suite.seal(key, iv, plain);
      counter := (counter + 1) % TWO_64;
    }

    method Decrypt(data: Bytes) returns (ok: bool, plain: Bytes)
      modifies this
      ensures plain == Decrypted(suite, old(State()), data) && State() == AfterDecrypt(old(State()), data)
      ensures ok <==> |data| >= TAG_SIZE && suite.open(old(key), Iv(old(State())), data).Some?
      ensures |data| < 16 ==> !ok && plain == [] && counter == old(counter)
      ensures |data| >= 16 ==>
                var iv := common + LE64(old(counter));
                && counter == (old(counter) + 1) % 0x1_0000_0000_0000_0000
                && (if ok then suite.open(key, iv, data) == Some(plain)
                    else suite.open(key, iv, data) == None && plain == suite.garble(key, iv, data))
    {
      if |data| < TAG_SIZE {
        return false, [];
      }
      var iv := common + LE64(counter);
      var r := suite.open(key, iv, data);
      ok := r.Some?;
      plain := if r.Some? then r.value else suite.garble(key, iv, data);
      counter := (counter + 1) % TWO_64;
    }
  }

  /** Both `KEXV1_A` and `KEXV1_B`: the side is in the configuration. */
  class KexV1 {
    const suite: Suite
    const cfg: Config
    var state: KexState
    var m1: Bytes
    var m2: Bytes
    var k: Bytes
    var h: Bytes
    var nonceA: Bytes
    var nonceB: Bytes
    var dhSelf: Bytes
    var dhRemote: Bytes
    var ltRemote: Option<Bytes>

    function State(): Kex
      reads this
    {
      Kex(state, m1, m2, k, h, nonceA, nonceB, dhSelf, dhRemote, ltRemote)
    }

    constructor (suite: Suite, cfg: Config)
      ensures this.suite == suite && this.cfg == cfg && State() == NEW_KEX
    {
      this.suite, this.cfg := suite, cfg;
      state := S0_New;
      m1, m2, k, h, nonceA, nonceB, dhSelf, dhRemote := [], [], [], [], [], [], [], [];
      ltRemote := None;
    }

    method Fail(reason: Event) returns (e: Event)
      modifies this
      ensures State() == old(State()).(state := KF_Err) && e == reason
    {
      state := KF_Err;
      e := reason;
    }

    /** `secret_hash_derive_bits`. Each pass writes over the last one. */
    method DeriveBits(c: Byte, minLen: nat) returns (bits: Bytes)
      requires Lawful(suite) && minLen <= 64
      ensures bits == if minLen == 0 then [] else Derive(suite, k, h, c)
    {
      bits := [];
      var frag: U32 := 0;
      while |bits| < minLen
        invariant if frag == 0 then bits == [] else minLen > 0 && bits == Derive(suite, k, h, c)
        decreases minLen - |bits|
      {
        bits := suite.hash(k + (LE32(frag) + [c]) + h);
        frag := (frag + 1) % TWO_32;
      }
    }

    method SetKeys(cipher: PacketCipher, keyChar: Byte, ivChar: Byte)
      requires Lawful(suite)
      modifies cipher
      ensures cipher.State() == Keyed(suite, old(cipher.State()), k, h, keyChar, ivChar)
    {
      var bits := DeriveBits(keyChar, KEY_SIZE);
      cipher.SetKey(bits[..KEY_SIZE]);
      bits := DeriveBits(ivChar, IV_SIZE);
      cipher.SetIv(bits[..IV_SIZE]);
      assert bits[..IV_SIZE][..4] == bits[..4];
    }

    // ---------------------------------------------------------- the client

    method InitKex(out: OptSession)
      requires out.Valid() && out.kex == this
      modifies this, out, out.outbound
      ensures out.State() == M.InitKex(suite, old(out.State()))
      ensures state == (if old(state) == S0_New || old(state) == KF_Done then S1_M1 else KF_Err)
      ensures |out.out| == |old(out.out)| + (if state == S1_M1 then 1 else 0)
    {
      if state == S0_New || state == KF_Done {
        m1 := VersionPacket(KEXC_VERSION);
        out.SendInternal(KEX, m1);
        state := S1_M1;
      } else {
        state := KF_Err;
      }
    }

    method OnServerVersion(packet: Bytes, out: OptSession) returns (e: Event)
      requires out.Valid() && out.kex == this && packet != []
      modifies this, out, out.outbound
      ensures (out.State(), e) == M.OnServerVersion(suite, cfg, old(out.State()), packet)
    {
      if packet[0] != KEXS_VERSION {
        e := Fail(ErrorState);
        return;
      }
      if !GoodVersion(packet[1..]) {
        e := Fail(ErrorMalformed);
        return;
      }
      m2 := Overwrite(m2, packet);
      SayHello(out);
      e := OK;
    }

    method SayHello(out: OptSession)
      requires out.Valid() && out.kex == this
      modifies this, out, out.outbound
      ensures out.State() == ClientSaysHello(suite, cfg, old(out.State()))
    {
      dhRemote := [];
      state := S2_M2;
      dhSelf := cfg.dhFresh;
      nonceA := cfg.nonceFresh;
      out.SendInternal(KEX, [KEXC_HELLO] + Pack([suite.pub(dhSelf), nonceA]));
      state := K1_CHello;
    }

    method OnServerHello(packet: Bytes, out: OptSession) returns (e: Event)
      requires out.Valid() && out.kex == this && packet != []
      modifies this
      ensures (out.State(), e) == M.OnServerHello(suite, cfg, old(out.State()), packet)
    {
      if packet[0] != KEXS_HELLO {
        e := Fail(ErrorState);
        return;
      }
      var data := packet[1..];
      var r := NextRecord(data, 0);
      if r.Fail? {
        e := Fail(ErrorMalformed);
        return;
      }
      if !suite.validPub(r.record) {
        e := Fail(ErrorCrypto);
        return;
      }
      dhRemote := r.record;
      k := suite.dh(dhSelf, dhRemote);
      e := OnServerNonce(data, r.cursor, out);
    }

    method OnServerNonce(data: Bytes, cursor: nat, out: OptSession) returns (e: Event)
      requires out.Valid() && out.kex == this
      modifies this
      ensures (out.State(), e) == M.OnServerNonce(suite, cfg, old(out.State()), data, cursor)
    {
      var r := NextRecord(data, cursor);
      if r.Fail? {
        e := Fail(ErrorMalformed);
        return;
      }
      nonceB := Overwrite(nonceB, r.record);
      h := SecretHash(suite, k, suite.pub(dhSelf), dhRemote, nonceA, nonceB);
      e := OnServerIdentity(data, r.cursor, out);
    }

    method OnServerIdentity(data: Bytes, cursor: nat, out: OptSession) returns (e: Event)
      requires out.Valid() && out.kex == this
      modifies this
      ensures (out.State(), e) == M.OnServerIdentity(suite, cfg, old(out.State()), data, cursor)
    {
      var r := NextRecord(data, cursor);
      if r.Fail? {
        e := Fail(ErrorMalformed);
        return;
      }
      if !suite.validPub(r.record) {
        e := Fail(ErrorCrypto);
        return;
      }
      if !Accepts(ltRemote, cfg.users, r.record) {
        e := Fail(ErrorNotrust);
        return;
      }
      ltRemote := Some(r.record);
      r := NextRecord(data, r.cursor);
      if r.Fail? {
        e := Fail(ErrorMalformed);
        return;
      }
      if !suite.verify(ltRemote.value, h, r.record) {
        e := Fail(ErrorNotrust);
        return;
      }
      if r.cursor < |data| {
        e := Fail(ErrorMalformed);
        return;
      }
      state := K2_SHello;
      e := OK;
    }

    method OnServerNewKeys(packet: Bytes, out: OptSession) returns (e: Event)
      requires Lawful(suite) && out.Valid() && out.kex == this && packet != []
      modifies this, out, out.inbound, out.outbound
      ensures (out.State(), e) == M.OnServerNewKeys(suite, cfg, old(out.State()), packet)
    {
      if packet[0] != KEXS_NEWKEYS {
        e := Fail(ErrorState);
        return;
      }
      if |packet| > 1 {
        e := Fail(ErrorMalformed);
        return;
      }
      Switch(out);
      out.SendInternal(KEX, ClientIdentity(suite, cfg, State()));
      state := K5_CIdentity;
      state := KF_Done;
      e := OKDone;
    }

    method Switch(out: OptSession)
      requires Lawful(suite) && out.Valid() && out.kex == this
      modifies this, out, out.inbound, out.outbound
      ensures out.State() == ClientSwitches(suite, old(out.State()))
    {
      SetKeys(out.inbound, CHAR_A, CHAR_C);
      out.encIb := true;
      state := K3_SEnc;
      out.SendInternal(KEX, [KEXC_NEWKEYS]);
      out.encOb := true;
      SetKeys(out.outbound, CHAR_B, CHAR_D);
      state := K4_CEnc;
    }

    // ---------------------------------------------------------- the server

    method OnClientVersion(packet: Bytes, out: OptSession) returns (e: Event)
      requires out.Valid() && out.kex == this && packet != []
      modifies this, out, out.outbound
      ensures (out.State(), e) == M.OnClientVersion(suite, old(out.State()), packet)
    {
      if packet[0] != KEXC_VERSION {
        e := Fail(ErrorState);
        return;
      }
      if !GoodVersion(packet[1..]) {
        e := Fail(ErrorMalformed);
        return;
      }
      m1 := Overwrite(m1, packet);
      m2 := VersionPacket(KEXS_VERSION);
      ghost var s := old(out.State());
      assert out.State() == s.(kex := s.kex.(m1 := m1, m2 := m2));
      out.SendInternal(KEX, m2);
      state := S2_M2;
      e := OK;
    }

    method OnClientHello(packet: Bytes, out: OptSession) returns (e: Event)
      requires Lawful(suite) && out.Valid() && out.kex == this && packet != []
      modifies this, out, out.outbound
      ensures (out.State(), e) == M.OnClientHello(suite, cfg, old(out.State()), packet)
    {
      if packet[0] != KEXC_HELLO {
        e := Fail(ErrorState);
        return;
      }
      var data := packet[1..];
      dhSelf, dhRemote, nonceB := cfg.dhFresh, [], cfg.nonceFresh;
      ghost var s := old(out.State());
      assert out.State() == s.(kex := s.kex.(dhSelf := cfg.dhFresh, dhRemote := [], nonceB := cfg.nonceFresh));
      e := OnClientKey(data, out);
    }

    method OnClientKey(data: Bytes, out: OptSession) returns (e: Event)
      requires Lawful(suite) && out.Valid() && out.kex == this
      modifies this, out, out.outbound
      ensures (out.State(), e) == M.OnClientKey(suite, cfg, old(out.State()), data)
    {
      var r := NextRecord(data, 0);
      if r.Fail? {
        e := Fail(ErrorMalformed);
        return;
      }
      if !suite.validPub(r.record) {
        e := Fail(ErrorCrypto);
        return;
      }
      dhRemote := r.record;
      k := suite.dh(dhSelf, dhRemote);
      e := OnClientNonce(data, r.cursor, out);
    }

    method OnClientNonce(data: Bytes, cursor: nat, out: OptSession) returns (e: Event)
      requires Lawful(suite) && out.Valid() && out.kex == this
      modifies this, out, out.outbound
      ensures (out.State(), e) == M.OnClientNonce(suite, cfg, old(out.State()), data, cursor)
    {
      var r := NextRecord(data, cursor);
      if r.Fail? {
        e := Fail(ErrorMalformed);
        return;
      }
      nonceA := Overwrite(nonceA, r.record);
      h := SecretHash(suite, k, dhRemote, suite.pub(dhSelf), nonceA, nonceB);
      if r.cursor < |data| {
        e := Fail(ErrorMalformed);
        return;
      }
      Answer(out);
      e := OK;
    }

    method Answer(out: OptSession)
      requires Lawful(suite) && out.Valid() && out.kex == this
      modifies this, out, out.outbound
      ensures out.State() == ServerAnswers(suite, cfg, old(out.State()))
    {
      state := K1_CHello;
      out.SendInternal(KEX, ServerHello(suite, cfg, State()));
      state := K2_SHello;
      out.SendInternal(KEX, [KEXS_NEWKEYS]);
      out.encOb := true;
      SetKeys(out.outbound, CHAR_A, CHAR_C);
      state := K3_SEnc;
    }

    method OnClientNewKeys(packet: Bytes, out: OptSession) returns (e: Event)
      requires Lawful(suite) && out.Valid() && out.kex == this && packet != []
      modifies this, out, out.inbound
      ensures (out.State(), e) == M.OnClientNewKeys(suite, old(out.State()), packet)
    {
      if packet[0] != KEXC_NEWKEYS {
        e := Fail(ErrorState);
        return;
      }
      if |packet| > 1 {
        e := Fail(ErrorMalformed);
        return;
      }
      SetKeys(out.inbound, CHAR_B, CHAR_D);
      out.encIb := true;
      state := K4_CEnc;
      e := OK;
    }

    method OnClientIdentity(packet: Bytes, out: OptSession) returns (e: Event)
      requires out.Valid() && out.kex == this && packet != []
      modifies this
      ensures (out.State(), e) == M.OnClientIdentity(suite, cfg, old(out.State()), packet)
    {
      if packet[0] != KEXC_IDENTITY {
        e := Fail(ErrorState);
        return;
      }
      var data := packet[1..];
      var r := NextRecord(data, 0);
      if r.Fail? {
        e := Fail(ErrorMalformed);
        return;
      }
      if !suite.validPub(r.record) {
        e := Fail(ErrorCrypto);
        return;
      }
      if !Accepts(ltRemote, cfg.users, r.record) {
        e := Fail(ErrorNotrust);
        return;
      }
      ltRemote := Some(r.record);
      r := NextRecord(data, r.cursor);
      if r.Fail? {
        e := Fail(ErrorMalformed);
        return;
      }
      if r.cursor < |data| {
        e := Fail(ErrorMalformed);
        return;
      }
      state := K5_CIdentity;
      if !suite.verify(ltRemote.value, ProofHash(suite, h, m1, m2, ltRemote.value), r.record) {
        e := Fail(ErrorNotrust);
        return;
      }
      state := KF_Done;
      e := OKDone;
    }

    method RecvClient(packet: Bytes, out: OptSession) returns (e: Event)
      requires Lawful(suite) && out.Valid() && out.kex == this
      modifies this, out, out.inbound, out.outbound
      ensures (out.State(), e) == M.RecvClient(suite, cfg, old(out.State()), packet)
    {
      if packet == [] {
        e := Fail(ErrorMalformed);
        return;
      }
      match state
      case S1_M1 => e := OnServerVersion(packet, out);
      case K1_CHello => e := OnServerHello(packet, out);
      case K2_SHello => e := OnServerNewKeys(packet, out);
      case _ => e := Fail(ErrorState);
    }

    method RecvServer(packet: Bytes, out: OptSession) returns (e: Event)
      requires Lawful(suite) && out.Valid() && out.kex == this
      modifies this, out, out.inbound, out.outbound
      ensures (out.State(), e) == M.RecvServer(suite, cfg, old(out.State()), packet)
    {
      if packet == [] {
        e := Fail(ErrorMalformed);
        return;
      }
      match state
      case S0_New => e := OnClientVersion(packet, out);
      case S2_M2 => e := OnClientHello(packet, out);
      case KF_Done => e := OnClientHello(packet, out);
      case K3_SEnc => e := OnClientNewKeys(packet, out);
      case K4_CEnc => e := OnClientIdentity(packet, out);
      case _ => e := Fail(ErrorState);
    }

    method Recv(packet: Bytes, out: OptSession) returns (e: Event)
      requires Lawful(suite) && out.Valid() && out.kex == this
      modifies this, out, out.inbound, out.outbound
      ensures (out.State(), e) == M.Recv(suite, cfg, old(out.State()), packet)
    {
      if cfg.isClient {
        e := RecvClient(packet, out);
      } else {
        e := RecvServer(packet, out);
      }
    }
  }

  class OptSession {
    const suite: Suite
    const cfg: Config
    const inbound: PacketCipher
    const outbound: PacketCipher
    const kex: KexV1
    var firstKexOk: bool
    var encIb: bool
    var encOb: bool
    /** What was handed to the transport, what came out to the user, open and close callbacks. */
    var out: seq<Bytes>
    var delivered: seq<Bytes>
    var opens: nat
    var closed: bool
    ghost var fault: bool
    ghost var sentTags: seq<Tag>
    ghost var usedTags: seq<Tag>

    ghost predicate Valid()
    {
      inbound != outbound && inbound.suite == outbound.suite == kex.suite == suite && kex.cfg == cfg
    }

    ghost function State(): Session
      reads this, inbound, outbound, kex
    {
      Session(firstKexOk, encIb, encOb, inbound.State(), outbound.State(), kex.State(),
              out, delivered, opens, closed, fault, sentTags, usedTags)
    }

    constructor (suite: Suite, cfg: Config)
      ensures Valid() && State() == NEW_SESSION && this.suite == suite && this.cfg == cfg
      ensures fresh(inbound) && fresh(outbound) && fresh(kex)
    {
      this.suite, this.cfg := suite, cfg;
      inbound := new PacketCipher(suite);
      outbound := new PacketCipher(suite);
      kex := new KexV1(suite, cfg);
      firstKexOk, encIb, encOb := false, false, false;
      out, delivered, opens, closed, fault, sentTags, usedTags := [], [], 0, false, false, [], [];
    }

    method SendInternal(kind: Byte, packet: Bytes)
      requires Valid()
      modifies this, outbound
      ensures State() == M.SendInternal(suite, old(State()), kind, packet)
      ensures old(encOb) ==>
                out == old(out) + [suite.seal(outbound.key, outbound.common + LE64(old(outbound.counter)), [kind] + packet)]
      ensures !old(encOb) ==> out == old(out) + [[kind] + packet]
    {
      ghost var tag := TagOf(encOb, outbound.State());
      var wire := [kind] + packet;
      if encOb {
        wire := outbound.Encrypt(wire);
      }
      out := out + [wire];
      sentTags := sentTags + [tag];
    }

    method Send(packet: Bytes)
      requires Valid()
      modifies this, outbound
      ensures State() == M.Send(suite, old(State()), packet)
      ensures !old(encOb) ==> out == old(out) + [[0] + packet]
    {
      SendInternal(DATA, packet);
    }

    method OnOpen()
      requires Valid()
      modifies this, outbound, kex
      ensures State() == M.OnOpen(suite, cfg, old(State()))
      ensures !cfg.isClient ==> State() == old(State())
    {
      if cfg.isClient {
        kex.InitKex(this);
      }
    }

    method OpenPacket(data: Bytes) returns (plain: Bytes)
      requires Valid()
      modifies this, inbound
      ensures (State(), plain) == M.Opened(suite, old(State()), data)
      ensures !encIb ==> plain == data && inbound.State() == old(inbound.State())
    {
      usedTags := usedTags + [TagOf(encIb, inbound.State())];
      plain := data;
      if encIb {
        var ok;
        ok, plain := inbound.Decrypt(data);
      }
    }

    method Dispatch(plain: Bytes)
      requires Lawful(suite) && Valid()
      modifies this, inbound, outbound, kex
      ensures State() == M.Dispatch(suite, cfg, old(State()), plain)
      ensures plain != [] && plain[0] == 0 ==>
                && delivered == (if old(firstKexOk) then old(delivered) + [plain[1..]] else old(delivered))
                && closed == (old(closed) || !old(firstKexOk)) && kex.State() == old(kex.State())
      ensures plain != [] && plain[0] > 1 ==> closed && delivered == old(delivered) && kex.State() == old(kex.State())
    {
      if plain == [] {
        fault := true;
      } else if plain[0] == DATA {
        if firstKexOk {
          delivered := delivered + [plain[1..]];
        } else {
          closed := true;
        }
      } else if plain[0] == KEX {
        var e := kex.Recv(plain[1..], this);
        Heed(e);
      } else {
        closed := true;
      }
    }

    /** The event the exchange reports. */
    method Heed(e: Event)
      requires Valid()
      modifies this
      ensures State() == M.AfterKex(old(State()), e)
      ensures closed == (old(closed) || e !in {OK, OKDone}) && firstKexOk == (old(firstKexOk) || e == OKDone)
      ensures opens == old(opens) + (if e == OKDone && !old(firstKexOk) then 1 else 0)
    {
      match e
      case OK =>
      case OKDone =>
        if !firstKexOk {
          opens := opens + 1;
        }
        firstKexOk := true;
      case _ => closed := true;
    }

    method OnPacket(data: Bytes)
      requires Lawful(suite) && Valid()
      modifies this, inbound, outbound, kex
      ensures State() == M.OnPacket(suite, cfg, old(State()), data)
    {
      var plain := OpenPacket(data);
      Dispatch(plain);
    }
  }

  // ------------------------------------------------------------ when the derivation loop ends

  /** What the output holds after `n` passes. */
  function AfterPasses(suite: Suite, k: Bytes, h: Bytes, c: Byte, n: nat): Bytes
  {
    if n == 0 then [] else DerivePass(suite, k, h, c, (n - 1) % TWO_32)
  }

  /** The loop of `secret_hash_derive_bits` reaches its exit exactly when 64 bytes are enough. */
  lemma DerivationEndsIff(suite: Suite, k: Bytes, h: Bytes, c: Byte, minLen: nat)
    requires Lawful(suite)
    ensures (exists n :: |AfterPasses(suite, k, h, c, n)| >= minLen) <==> minLen <= 64
  {
    assert |AfterPasses(suite, k, h, c, 1)| == 64;
  }
}
