/** `OPTSession` and the two `KEXV1` state machines as values: one function per operation. */
module SessionModel {
  import opened Common
  import opened PackedRecords
  import opened CipherModel

  // OPTSession packet types
  const DATA: Byte := 0
  const KEX: Byte := 1

  // KEXV1 packet types
  const KEXC_VERSION: Byte := 1
  const KEXS_VERSION: Byte := 2
  const KEXC_HELLO: Byte := 3
  const KEXS_HELLO: Byte := 4
  const KEXS_NEWKEYS: Byte := 5
  const KEXC_NEWKEYS: Byte := 6
  const KEXC_IDENTITY: Byte := 7

  /** Version 1.0.0: build, minor and major from the low bytes up. */
  const VERSION: U32 := 0x100_0000

  const KEY_SIZE: nat := 32
  const IV_SIZE: nat := 12

  datatype KexState =
    | S0_New | S1_M1 | S2_M2
    | K1_CHello | K2_SHello | K3_SEnc | K4_CEnc | K5_CIdentity
    | KF_Done | KF_Err

  datatype Event = OK | OKDone | ErrorMalformed | ErrorNotrust | ErrorCrypto | ErrorState

  /** What a session is created with, and the randomness its one key exchange will draw. */
  datatype Config = Config(isClient: bool, ltSelf: Bytes, users: Option<set<Bytes>>, dhFresh: Bytes, nonceFresh: Bytes)

  datatype Kex = Kex(
    state: KexState,
    m1: Bytes, m2: Bytes,
    k: Bytes, h: Bytes,
    nonceA: Bytes, nonceB: Bytes,
    dhSelf: Bytes, dhRemote: Bytes,
    ltRemote: Option<Bytes>)

  /** The protection one packet was given or read with. */
  datatype Tag = Clear | Sealed(key: Bytes, common: Bytes, counter: U64)

  datatype Session = Session(
    firstKexOk: bool, encIb: bool, encOb: bool,
    inbound: Cipher, outbound: Cipher,
    kex: Kex,
    // History: what went to the transport, what came out to the user, how each packet was protected
    out: seq<Bytes>,
    delivered: seq<Bytes>,
    opens: nat,
    closed: bool,
    fault: bool,
    sentTags: seq<Tag>,
    usedTags: seq<Tag>)

  const NO_CIPHER := Cipher([], [], 0)
  const NEW_KEX := Kex(S0_New, [], [], [], [], [], [], [], [], None)
  const NEW_SESSION :=
    Session(false, false, false, NO_CIPHER, NO_CIPHER, NEW_KEX, [], [], 0, false, false, [], [])

  function TagOf(on: bool, c: Cipher): Tag
  {
    if on then Sealed(c.key, c.common, c.counter) else Clear
  }

  /** `Blob::copy_from` into a blob that is never shrunk (and that `erase` does not empty). */
  function Overwrite(was: Bytes, src: Bytes): Bytes
  {
    if |was| <= |src| then src else src + was[|src|..]
  }

  // ------------------------------------------------------------ sending

  function SendInternal(suite: Suite, s: Session, kind: Byte, packet: Bytes): Session
  {
    var full := [kind] + packet;
    var wire := if s.encOb then Encrypted(suite, s.outbound, full) else full;
    s.(outbound := if s.encOb then Advanced(s.outbound) else s.outbound,
       out := s.out + [wire],
       sentTags := s.sentTags + [TagOf(s.encOb, s.outbound)])
  }

  // ------------------------------------------------------------ hashes and derived keys

  function SecretHash(suite: Suite, k: Bytes, pubA: Bytes, pubB: Bytes, nonceA: Bytes, nonceB: Bytes): Bytes
  {
    suite.hash(Pack([k, pubA, pubB, nonceA, nonceB]))
  }

  function ProofHash(suite: Suite, h: Bytes, m1: Bytes, m2: Bytes, ltClient: Bytes): Bytes
  {
    suite.hash(Pack([h, m1, m2, ltClient]))
  }

  /** One pass of `secret_hash_derive_bits`. */
  function DerivePass(suite: Suite, k: Bytes, h: Bytes, c: Byte, pass: U32): Bytes
  {
    suite.hash(k + (LE32(pass) + [c]) + h)
  }

  /** `secret_hash_derive_bits`: one pass, because a pass leaves 64 bytes. */
  function Derive(suite: Suite, k: Bytes, h: Bytes, c: Byte): Bytes
  {
    DerivePass(suite, k, h, c, 0)
  }

  /** The cipher after `set_key` and `set_iv` with derived bits: the counter is not touched. */
  function Keyed(suite: Suite, c: Cipher, k: Bytes, h: Bytes, keyChar: Byte, ivChar: Byte): Cipher
    requires Lawful(suite)
  {
    Cipher(Derive(suite, k, h, keyChar)[..KEY_SIZE], Derive(suite, k, h, ivChar)[..4], c.counter)
  }

  // Characters 'A' to 'D'
  const CHAR_A: Byte := 65
  const CHAR_B: Byte := 66
  const CHAR_C: Byte := 67
  const CHAR_D: Byte := 68

  // ------------------------------------------------------------ the client's key exchange

  function Fail(s: Session, e: Event): (Session, Event)
  {
    (s.(kex := s.kex.(state := KF_Err)), e)
  }

  function VersionPacket(kind: Byte): Bytes
  {
    [kind] + LE32(VERSION)
  }

  function InitKex(suite: Suite, s: Session): Session
  {
    if s.kex.state == S0_New || s.kex.state == KF_Done then
      var m1 := VersionPacket(KEXC_VERSION);
      var s1 := SendInternal(suite, s.(kex := s.kex.(m1 := m1)), KEX, m1);
      s1.(kex := s1.kex.(state := S1_M1))
    else s.(kex := s.kex.(state := KF_Err))
  }

  predicate GoodVersion(data: Bytes)
  {
    |data| == 4 && data[3] == 1
  }

  function ClientHello(suite: Suite, s: Session): Bytes
  {
    [KEXC_HELLO] + Pack([suite.pub(s.kex.dhSelf), s.kex.nonceA])
  }

  function OnServerVersion(suite: Suite, cfg: Config, s: Session, packet: Bytes): (Session, Event)
    requires packet != []
  {
    if packet[0] != KEXS_VERSION then Fail(s, ErrorState)
    else if !GoodVersion(packet[1..]) then Fail(s, ErrorMalformed)
    else (ClientSaysHello(suite, cfg, s.(kex := s.kex.(m2 := Overwrite(s.kex.m2, packet)))), OK)
  }

  /** Fresh secrets and the client hello. */
  function ClientSaysHello(suite: Suite, cfg: Config, s: Session): Session
  {
    var s1 := s.(kex := s.kex.(dhSelf := cfg.dhFresh, dhRemote := [], nonceA := cfg.nonceFresh));
    var s2 := SendInternal(suite, s1, KEX, ClientHello(suite, s1));
    s2.(kex := s2.kex.(state := K1_CHello))
  }

  /** Whether a long-term key sent by the other side is accepted. */
  predicate Accepts(known: Option<Bytes>, users: Option<set<Bytes>>, lt: Bytes)
  {
    if known.Some? then known.value == lt
    else users.Some? ==> lt in users.value
  }

  function OnServerHello(suite: Suite, cfg: Config, s: Session, packet: Bytes): (Session, Event)
    requires packet != []
  {
    var data := packet[1..];
    if packet[0] != KEXS_HELLO then Fail(s, ErrorState)
    else match NextRecord(data, 0)
         case Fail => Fail(s, ErrorMalformed)
         case Got(dhB, c1) =>
           if !suite.validPub(dhB) then Fail(s, ErrorCrypto)
           else OnServerNonce(suite, cfg, s.(kex := s.kex.(dhRemote := dhB, k := suite.dh(s.kex.dhSelf, dhB))), data, c1)
  }

  /** The rest of the server hello: nonce, and with it the exchange hash. */
  function OnServerNonce(suite: Suite, cfg: Config, s: Session, data: Bytes, c1: nat): (Session, Event)
  {
    match NextRecord(data, c1)
    case Fail => Fail(s, ErrorMalformed)
    case Got(nonceB, c2) =>
      var nB := Overwrite(s.kex.nonceB, nonceB);
      var h := SecretHash(suite, s.kex.k, suite.pub(s.kex.dhSelf), s.kex.dhRemote, s.kex.nonceA, nB);
      OnServerIdentity(suite, cfg, s.(kex := s.kex.(nonceB := nB, h := h)), data, c2)
  }

  /** The rest of the server hello: long-term key, trust, signature. */
  function OnServerIdentity(suite: Suite, cfg: Config, s: Session, data: Bytes, c2: nat): (Session, Event)
  {
    match NextRecord(data, c2)
    case Fail => Fail(s, ErrorMalformed)
    case Got(ltB, c3) =>
      if !suite.validPub(ltB) then Fail(s, ErrorCrypto)
      else if !Accepts(s.kex.ltRemote, cfg.users, ltB) then Fail(s, ErrorNotrust)
      else
        var s1 := s.(kex := s.kex.(ltRemote := Some(ltB)));
        match NextRecord(data, c3)
        case Fail => Fail(s1, ErrorMalformed)
        case Got(sig, c4) =>
          if !suite.verify(ltB, s1.kex.h, sig) then Fail(s1, ErrorNotrust)
          else if c4 < |data| then Fail(s1, ErrorMalformed)
          else (s1.(kex := s1.kex.(state := K2_SHello)), OK)
  }

  function ClientIdentity(suite: Suite, cfg: Config, kex: Kex): Bytes
  {
    var lt := suite.pub(cfg.ltSelf);
    [KEXC_IDENTITY] + Pack([lt, suite.sign(cfg.ltSelf, ProofHash(suite, kex.h, kex.m1, kex.m2, lt))])
  }

  function OnServerNewKeys(suite: Suite, cfg: Config, s: Session, packet: Bytes): (Session, Event)
    requires Lawful(suite) && packet != []
  {
    if packet[0] != KEXS_NEWKEYS then Fail(s, ErrorState)
    else if |packet| > 1 then Fail(s, ErrorMalformed)
    else
      var s1 := ClientSwitches(suite, s);
      var s2 := SendInternal(suite, s1, KEX, ClientIdentity(suite, cfg, s1.kex));
      (s2.(kex := s2.kex.(state := KF_Done)), OKDone)
  }

  /** Sealed input, the new keys message, and from then on sealed output. */
  function ClientSwitches(suite: Suite, s: Session): Session
    requires Lawful(suite)
  {
    var s1 := s.(inbound := Keyed(suite, s.inbound, s.kex.k, s.kex.h, CHAR_A, CHAR_C), encIb := true);
    var s2 := SendInternal(suite, s1, KEX, [KEXC_NEWKEYS]);
    s2.(encOb := true, outbound := Keyed(suite, s2.outbound, s2.kex.k, s2.kex.h, CHAR_B, CHAR_D),
        kex := s2.kex.(state := K4_CEnc))
  }

  /** `KEXV1_A::recv` */
  function RecvClient(suite: Suite, cfg: Config, s: Session, packet: Bytes): (Session, Event)
    requires Lawful(suite)
  {
    if packet == [] then Fail(s, ErrorMalformed)
    else match s.kex.state
         case S1_M1 => OnServerVersion(suite, cfg, s, packet)
         case K1_CHello => OnServerHello(suite, cfg, s, packet)
         case K2_SHello => OnServerNewKeys(suite, cfg, s, packet)
         case _ => Fail(s, ErrorState)
  }

  // ------------------------------------------------------------ the server's key exchange

  function OnClientVersion(suite: Suite, s: Session, packet: Bytes): (Session, Event)
    requires packet != []
  {
    if packet[0] != KEXC_VERSION then Fail(s, ErrorState)
    else if !GoodVersion(packet[1..]) then Fail(s, ErrorMalformed)
    else
      var m2 := VersionPacket(KEXS_VERSION);
      var s1 := SendInternal(suite, s.(kex := s.kex.(m1 := Overwrite(s.kex.m1, packet), m2 := m2)), KEX, m2);
      (s1.(kex := s1.kex.(state := S2_M2)), OK)
  }

  function ServerHello(suite: Suite, cfg: Config, kex: Kex): Bytes
  {
    [KEXS_HELLO] + Pack([suite.pub(kex.dhSelf), kex.nonceB, suite.pub(cfg.ltSelf), suite.sign(cfg.ltSelf, kex.h)])
  }

  function OnClientHello(suite: Suite, cfg: Config, s: Session, packet: Bytes): (Session, Event)
    requires Lawful(suite) && packet != []
  {
    var data := packet[1..];
    var s0 := s.(kex := s.kex.(dhSelf := cfg.dhFresh, dhRemote := [], nonceB := cfg.nonceFresh));
    if packet[0] != KEXC_HELLO then Fail(s, ErrorState)
    else OnClientKey(suite, cfg, s0, data)
  }

  /** The rest of the client hello: ephemeral key, and with it the shared secret. */
  function OnClientKey(suite: Suite, cfg: Config, s: Session, data: Bytes): (Session, Event)
    requires Lawful(suite)
  {
    match NextRecord(data, 0)
    case Fail => Fail(s, ErrorMalformed)
    case Got(dhA, c1) =>
      if !suite.validPub(dhA) then Fail(s, ErrorCrypto)
      else OnClientNonce(suite, cfg, s.(kex := s.kex.(dhRemote := dhA, k := suite.dh(s.kex.dhSelf, dhA))), data, c1)
  }

  /** The rest of the client hello: nonce, and with it the exchange hash. */
  function OnClientNonce(suite: Suite, cfg: Config, s: Session, data: Bytes, c1: nat): (Session, Event)
    requires Lawful(suite)
  {
    match NextRecord(data, c1)
    case Fail => Fail(s, ErrorMalformed)
    case Got(nonceA, c2) =>
      var nA := Overwrite(s.kex.nonceA, nonceA);
      var h := SecretHash(suite, s.kex.k, s.kex.dhRemote, suite.pub(s.kex.dhSelf), nA, s.kex.nonceB);
      var s1 := s.(kex := s.kex.(nonceA := nA, h := h));
      if c2 < |data| then Fail(s1, ErrorMalformed)
      else (ServerAnswers(suite, cfg, s1), OK)
  }

  /** Server hello, new keys, and from then on sealed output. */
  function ServerAnswers(suite: Suite, cfg: Config, s: Session): Session
    requires Lawful(suite)
  {
    var s1 := SendInternal(suite, s, KEX, ServerHello(suite, cfg, s.kex));
    var s2 := SendInternal(suite, s1, KEX, [KEXS_NEWKEYS]);
    s2.(encOb := true, outbound := Keyed(suite, s2.outbound, s2.kex.k, s2.kex.h, CHAR_A, CHAR_C),
        kex := s2.kex.(state := K3_SEnc))
  }

  function OnClientNewKeys(suite: Suite, s: Session, packet: Bytes): (Session, Event)
    requires Lawful(suite) && packet != []
  {
    if packet[0] != KEXC_NEWKEYS then Fail(s, ErrorState)
    else if |packet| > 1 then Fail(s, ErrorMalformed)
    else (s.(inbound := Keyed(suite, s.inbound, s.kex.k, s.kex.h, CHAR_B, CHAR_D), encIb := true,
             kex := s.kex.(state := K4_CEnc)), OK)
  }

  function OnClientIdentity(suite: Suite, cfg: Config, s: Session, packet: Bytes): (Session, Event)
    requires packet != []
  {
    var data := packet[1..];
    if packet[0] != KEXC_IDENTITY then Fail(s, ErrorState)
    else match NextRecord(data, 0)
         case Fail => Fail(s, ErrorMalformed)
         case Got(ltA, c1) =>
           if !suite.validPub(ltA) then Fail(s, ErrorCrypto)
           else if !Accepts(s.kex.ltRemote, cfg.users, ltA) then Fail(s, ErrorNotrust)
           else
             var s1 := s.(kex := s.kex.(ltRemote := Some(ltA)));
             match NextRecord(data, c1)
             case Fail => Fail(s1, ErrorMalformed)
             case Got(sig, c2) =>
               if c2 < |data| then Fail(s1, ErrorMalformed)
               else if !suite.verify(ltA, ProofHash(suite, s1.kex.h, s1.kex.m1, s1.kex.m2, ltA), sig) then Fail(s1, ErrorNotrust)
               else (s1.(kex := s1.kex.(state := KF_Done)), OKDone)
  }

  /** `KEXV1_B::recv` */
  function RecvServer(suite: Suite, cfg: Config, s: Session, packet: Bytes): (Session, Event)
    requires Lawful(suite)
  {
    if packet == [] then Fail(s, ErrorMalformed)
    else match s.kex.state
         case S0_New => OnClientVersion(suite, s, packet)
         case S2_M2 => OnClientHello(suite, cfg, s, packet)
         case KF_Done => OnClientHello(suite, cfg, s, packet)
         case K3_SEnc => OnClientNewKeys(suite, s, packet)
         case K4_CEnc => OnClientIdentity(suite, cfg, s, packet)
         case _ => Fail(s, ErrorState)
  }

  // ------------------------------------------------------------ the session

  function Recv(suite: Suite, cfg: Config, s: Session, packet: Bytes): (Session, Event)
    requires Lawful(suite)
  {
    if cfg.isClient then RecvClient(suite, cfg, s, packet) else RecvServer(suite, cfg, s, packet)
  }

  function OnOpen(suite: Suite, cfg: Config, s: Session): Session
  {
    if cfg.isClient then InitKex(suite, s) else s
  }

  /** `send_internal` for user data. */
  function Send(suite: Suite, s: Session, data: Bytes): Session
  {
    SendInternal(suite, s, DATA, data)
  }

  /** The packet after the inbound cipher, and the session with its counter moved on. */
  function Opened(suite: Suite, s: Session, data: Bytes): (Session, Bytes)
  {
    var s1 := s.(usedTags := s.usedTags + [TagOf(s.encIb, s.inbound)]);
    if s.encIb then (s1.(inbound := AfterDecrypt(s.inbound, data)), Decrypted(suite, s.inbound, data))
    else (s1, data)
  }

  /** `on_packet` on the plain packet. Reading the type byte of an empty one is out of bounds: `fault`. */
  function Dispatch(suite: Suite, cfg: Config, s: Session, plain: Bytes): Session
    requires Lawful(suite)
  {
    if plain == [] then s.(fault := true)
    else if plain[0] == DATA then
      (if s.firstKexOk then s.(delivered := s.delivered + [plain[1..]]) else s.(closed := true))
    else if plain[0] == KEX then
      var (s1, e) := Recv(suite, cfg, s, plain[1..]);
      AfterKex(s1, e)
    else s.(closed := true)
  }

  /** What the session does with the event the exchange reports. */
  function AfterKex(s: Session, e: Event): Session
  {
    match e
    case OK => s
    case OKDone => s.(opens := s.opens + (if s.firstKexOk then 0 else 1), firstKexOk := true)
    case _ => s.(closed := true)
  }

  function OnPacket(suite: Suite, cfg: Config, s: Session, data: Bytes): Session
    requires Lawful(suite)
  {
    var (s1, plain) := Opened(suite, s, data);
    Dispatch(suite, cfg, s1, plain)
  }
}
