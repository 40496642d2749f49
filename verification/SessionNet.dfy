/** An honest client and an honest server over two FIFO channels: the states they go through, written out,
    and the steps of the pair. */
module SessionNet {
  import opened Common
  import opened PackedRecords
  import opened CipherModel
  import opened SessionModel

  datatype World = World(suite: Suite, ca: Config, cb: Config)

  ghost predicate Honest(w: World)
  {
    Lawful(w.suite) && w.ca.isClient && !w.cb.isClient && |w.ca.nonceFresh| == 64 && |w.cb.nonceFresh| == 64
  }

  // ------------------------------------------------------------ the steps

  /** The channels are what each side handed to its transport; `taken` counts what the other side has read. */
  datatype Net = Net(a: Session, b: Session, started: bool, abTaken: nat, baTaken: nat, aSent: seq<Bytes>, bSent: seq<Bytes>)

  datatype Step = OpenA | OpenB | ToA | ToB | SendA(data: Bytes) | SendB(data: Bytes)

  const INITIAL := Net(NEW_SESSION, NEW_SESSION, false, 0, 0, [], [])

  predicate Enabled(n: Net, step: Step)
  {
    match step
    case OpenA => !n.started
    case OpenB => true
    case ToA => n.baTaken < |n.b.out|
    case ToB => n.abTaken < |n.a.out|
    case SendA(_) => n.a.opens > 0
    case SendB(_) => n.b.opens > 0
  }

  function Next(w: World, n: Net, step: Step): Net
    requires Lawful(w.suite) && Enabled(n, step)
  {
    match step
    case OpenA => n.(a := OnOpen(w.suite, w.ca, n.a), started := true)
    case OpenB => n.(b := OnOpen(w.suite, w.cb, n.b))
    case ToA => n.(a := OnPacket(w.suite, w.ca, n.a, n.b.out[n.baTaken]), baTaken := n.baTaken + 1)
    case ToB => n.(b := OnPacket(w.suite, w.cb, n.b, n.a.out[n.abTaken]), abTaken := n.abTaken + 1)
    case SendA(d) => n.(a := Send(w.suite, n.a, d), aSent := n.aSent + [d])
    case SendB(d) => n.(b := Send(w.suite, n.b, d), bSent := n.bSent + [d])
  }

  ghost predicate Run(w: World, n: Net, steps: seq<Step>)
    requires Lawful(w.suite)
    decreases |steps|
  {
    steps == [] || (Enabled(n, steps[0]) && Run(w, Next(w, n, steps[0]), steps[1..]))
  }

  ghost function Final(w: World, n: Net, steps: seq<Step>): Net
    requires Lawful(w.suite) && Run(w, n, steps)
    decreases |steps|
  {
    if steps == [] then n else Final(w, Next(w, n, steps[0]), steps[1..])
  }

  // ------------------------------------------------------------ the values of the honest run

  function PubA(w: World): Bytes { w.suite.pub(w.ca.dhFresh) }
  function PubB(w: World): Bytes { w.suite.pub(w.cb.dhFresh) }
  function LtA(w: World): Bytes { w.suite.pub(w.ca.ltSelf) }
  function LtB(w: World): Bytes { w.suite.pub(w.cb.ltSelf) }

  /** The shared secret and the exchange hash. */
  function K(w: World): Bytes { w.suite.dh(w.ca.dhFresh, PubB(w)) }
  function H(w: World): Bytes { SecretHash(w.suite, K(w), PubA(w), PubB(w), w.ca.nonceFresh, w.cb.nonceFresh) }

  const M1: Bytes := VersionPacket(KEXC_VERSION)
  const M2: Bytes := VersionPacket(KEXS_VERSION)

  /** What the client's long-term key signs, and the server checks. */
  function Proof(w: World): Bytes { ProofHash(w.suite, H(w), M1, M2, LtA(w)) }

  function HelloRecordsA(w: World): seq<Bytes> { [PubA(w), w.ca.nonceFresh] }
  function HelloRecordsB(w: World): seq<Bytes> { [PubB(w), w.cb.nonceFresh, LtB(w), w.suite.sign(w.cb.ltSelf, H(w))] }
  function IdentityRecords(w: World): seq<Bytes> { [LtA(w), w.suite.sign(w.ca.ltSelf, Proof(w))] }

  function ClearA(w: World): seq<Bytes>
  {
    [[KEX] + M1, [KEX] + ([KEXC_HELLO] + Pack(HelloRecordsA(w))), [KEX] + [KEXC_NEWKEYS]]
  }

  function ClearB(w: World): seq<Bytes>
  {
    [[KEX] + M2, [KEX] + ([KEXS_HELLO] + Pack(HelloRecordsB(w))), [KEX] + [KEXS_NEWKEYS]]
  }

  /** The derived ciphers of the two directions, `n` packets on. */
  function CipherAB(w: World, n: nat): Cipher
    requires Lawful(w.suite)
  {
    Keyed(w.suite, NO_CIPHER, K(w), H(w), CHAR_B, CHAR_D).(counter := n % TWO_64)
  }

  function CipherBA(w: World, n: nat): Cipher
    requires Lawful(w.suite)
  {
    Keyed(w.suite, NO_CIPHER, K(w), H(w), CHAR_A, CHAR_C).(counter := n % TWO_64)
  }

  function DataPlain(d: Bytes): Bytes { [DATA] + d }

  /** The n-th sealed packet of each direction, before sealing. */
  function PlainA(w: World, sent: seq<Bytes>, n: nat): Bytes
    requires n <= |sent|
  {
    if n == 0 then [KEX] + ([KEXC_IDENTITY] + Pack(IdentityRecords(w))) else DataPlain(sent[n - 1])
  }

  /** Everything the client hands to the transport once it is done and has sent `sent`. */
  function WireA(w: World, sent: seq<Bytes>): (r: seq<Bytes>)
    requires Lawful(w.suite)
    ensures |r| == 4 + |sent|
  {
    ClearA(w) + seq(1 + |sent|, n requires 0 <= n < 1 + |sent| => Encrypted(w.suite, CipherAB(w, n), PlainA(w, sent, n)))
  }

  function WireB(w: World, sent: seq<Bytes>): (r: seq<Bytes>)
    requires Lawful(w.suite)
    ensures |r| == 3 + |sent|
  {
    ClearB(w) + seq(|sent|, n requires 0 <= n < |sent| => Encrypted(w.suite, CipherBA(w, n), DataPlain(sent[n])))
  }

  /** The protection of the first `count` packets of a direction: three in clear, then the cipher from 0. */
  function Tags(c: Cipher, count: nat): seq<Tag>
  {
    seq(count, i requires 0 <= i < count => if i < 3 then Clear else Sealed(c.key, c.common, (i - 3) % TWO_64))
  }

  // ------------------------------------------------------------ where each side can be

  /** How far each side is: packets of the exchange sent and read; 5 when it refused the other's key. */
  function StateA(phase: nat): KexState
  {
    match phase
    case 0 => S0_New
    case 1 => S1_M1
    case 2 => K1_CHello
    case 3 => K2_SHello
    case 4 => KF_Done
    case _ => KF_Err
  }

  function StateB(phase: nat): KexState
  {
    match phase
    case 0 => S0_New
    case 1 => S2_M2
    case 2 => K3_SEnc
    case 3 => K4_CEnc
    case 4 => KF_Done
    case _ => KF_Err
  }

  /** The client's key exchange in each phase. */
  function KexA(w: World, phase: nat): Kex
  {
    Kex(StateA(phase),
        if phase >= 1 then M1 else [],
        if phase >= 2 then M2 else [],
        if phase >= 3 then K(w) else [],
        if phase >= 3 then H(w) else [],
        if phase >= 2 then w.ca.nonceFresh else [],
        if phase >= 3 then w.cb.nonceFresh else [],
        if phase >= 2 then w.ca.dhFresh else [],
        if phase >= 3 then PubB(w) else [],
        if 3 <= phase <= 4 then Some(LtB(w)) else None)
  }

  function KexB(w: World, phase: nat): Kex
  {
    Kex(StateB(phase),
        if phase >= 1 then M1 else [],
        if phase >= 1 then M2 else [],
        if phase >= 2 then K(w) else [],
        if phase >= 2 then H(w) else [],
        if phase >= 2 then w.ca.nonceFresh else [],
        if phase >= 2 then w.cb.nonceFresh else [],
        if phase >= 2 then w.cb.dhFresh else [],
        if phase >= 2 then PubA(w) else [],
        if phase == 4 then Some(LtA(w)) else None)
  }

  /** How many packets the client has handed over. */
  function OutA(phase: nat, sent: nat): nat
  {
    if phase == 0 then 0 else if phase == 1 then 1 else if phase == 4 then 4 + sent else 2
  }

  function OutB(phase: nat, sent: nat): nat
  {
    if phase == 0 then 0 else if phase == 1 then 1 else 3 + sent
  }

  /** The client: phase, data sent, data delivered so far, packets read. */
  function ClientAt(w: World, phase: nat, sent: seq<Bytes>, got: seq<Bytes>, taken: nat): Session
    requires Lawful(w.suite)
    requires phase != 4 ==> sent == [] && got == []
    requires phase == 4 ==> taken == 3 + |got|
  {
    var done := phase == 4;
    Session(done, done, done,
            if done then CipherBA(w, |got|) else NO_CIPHER,
            if done then CipherAB(w, 1 + |sent|) else NO_CIPHER,
            KexA(w, phase),
            WireA(w, sent)[..OutA(phase, |sent|)],
            got, if done then 1 else 0, phase == 5, false,
            Tags(CipherAB(w, 0), OutA(phase, |sent|)),
            Tags(CipherBA(w, 0), taken))
  }

  /** The server: phase, data sent, data delivered so far, packets read. */
  function ServerAt(w: World, phase: nat, sent: seq<Bytes>, got: seq<Bytes>, taken: nat): Session
    requires Lawful(w.suite)
    requires phase != 4 ==> sent == [] && got == []
    requires phase == 4 ==> taken == 4 + |got|
    requires phase >= 3 ==> taken >= 3
  {
    Session(phase == 4, phase >= 3, phase >= 2,
            if phase >= 3 then CipherAB(w, taken - 3) else NO_CIPHER,
            if phase >= 2 then CipherBA(w, |sent|) else NO_CIPHER,
            KexB(w, phase),
            WireB(w, sent)[..OutB(phase, |sent|)],
            got, if phase == 4 then 1 else 0, phase == 5, false,
            Tags(CipherBA(w, 0), OutB(phase, |sent|)),
            Tags(CipherAB(w, 0), taken))
  }

  predicate TrustA(w: World) { Accepts(None, w.ca.users, LtB(w)) }
  predicate TrustB(w: World) { Accepts(None, w.cb.users, LtA(w)) }

  /** The client in a phase: what it has read, sent, and been sent. */
  ghost predicate SideA(w: World, a: Session, started: bool, taken: nat, sent: seq<Bytes>, peerSent: seq<Bytes>, phase: nat)
    requires Lawful(w.suite)
  {
    && phase <= 5 && started == (phase > 0)
    && (phase <= 1 ==> taken == 0)
    && (phase == 2 ==> taken == 1)
    && (phase == 3 ==> taken == 2 && TrustA(w))
    && (phase == 4 ==> 3 <= taken <= 3 + |peerSent| && TrustA(w))
    && (phase == 5 ==> taken >= 2 && !TrustA(w))
    && (phase != 4 ==> sent == [])
    && a == ClientAt(w, phase, sent, if phase == 4 then peerSent[..taken - 3] else [], taken)
  }

  ghost predicate SideB(w: World, b: Session, taken: nat, sent: seq<Bytes>, peerSent: seq<Bytes>, phase: nat)
    requires Lawful(w.suite)
  {
    && phase <= 5
    && (phase <= 3 ==> taken == phase)
    && (phase == 4 ==> 4 <= taken <= 4 + |peerSent| && TrustB(w))
    && (phase == 5 ==> taken >= 4 && !TrustB(w))
    && (phase != 4 ==> sent == [])
    && b == ServerAt(w, phase, sent, if phase == 4 then peerSent[..taken - 4] else [], taken)
  }

  /** The pair with the client in phase `pa` and the server in phase `pb`. */
  ghost predicate At(w: World, n: Net, pa: nat, pb: nat)
    requires Lawful(w.suite)
  {
    && SideA(w, n.a, n.started, n.baTaken, n.aSent, n.bSent, pa)
    && SideB(w, n.b, n.abTaken, n.bSent, n.aSent, pb)
    && n.abTaken <= |n.a.out| && n.baTaken <= |n.b.out|
  }

  ghost predicate Inv(w: World, n: Net)
    requires Lawful(w.suite)
  {
    exists pa, pb :: At(w, n, pa, pb)
  }

  lemma InitialInv(w: World)
    requires Honest(w)
    ensures Inv(w, INITIAL)
  {
    assert Tags(CipherAB(w, 0), 0) == [];
    assert Tags(CipherBA(w, 0), 0) == [];
    assert At(w, INITIAL, 0, 0);
  }
}
