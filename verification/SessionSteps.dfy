/** Each step of the honest pair moves one side from one written-out state to the next. */
module SessionSteps {
  import opened Common
  import opened PackedRecords
  import opened CipherModel
  import opened SessionModel
  import opened SessionNet

  // ------------------------------------------------------------ tags and wires grow at the end

  lemma TagsSnoc(c: Cipher, n: nat, t: Tag)
    requires t == if n < 3 then Clear else Sealed(c.key, c.common, (n - 3) % TWO_64)
    ensures Tags(c, n) + [t] == Tags(c, n + 1)
  {
  }

  lemma TakeNextWire(wire: seq<Bytes>, n: nat)
    requires n < |wire|
    ensures wire[..n] + [wire[n]] == wire[..n + 1]
  {
  }

  lemma WireASnoc(w: World, sent: seq<Bytes>, d: Bytes)
    requires Lawful(w.suite)
    ensures WireA(w, sent) + [Encrypted(w.suite, CipherAB(w, 1 + |sent|), DataPlain(d))] == WireA(w, sent + [d])
  {
  }

  lemma WireBSnoc(w: World, sent: seq<Bytes>, d: Bytes)
    requires Lawful(w.suite)
    ensures WireB(w, sent) + [Encrypted(w.suite, CipherBA(w, |sent|), DataPlain(d))] == WireB(w, sent + [d])
  {
  }

  lemma CipherStep(w: World, n: nat)
    requires Lawful(w.suite)
    ensures Advanced(CipherAB(w, n)) == CipherAB(w, n + 1) && Advanced(CipherBA(w, n)) == CipherBA(w, n + 1)
  {
  }

  // ------------------------------------------------------------ reading one packet

  ghost predicate AfterEvent(s: Session, e: Event, r: Session)
  {
    match e
    case OK => r == s
    case OKDone => r == s.(opens := s.opens + (if s.firstKexOk then 0 else 1), firstKexOk := true)
    case _ => r == s.(closed := true)
  }

  /** A packet of the exchange in clear. */
  lemma ClearKex(suite: Suite, cfg: Config, s: Session, p: Bytes)
    requires Lawful(suite) && !s.encIb
    ensures var (s1, e) := Recv(suite, cfg, s.(usedTags := s.usedTags + [Clear]), p);
            AfterEvent(s1, e, OnPacket(suite, cfg, s, [KEX] + p))
  {
    assert ([KEX] + p)[1..] == p;
  }

  /** A sealed packet read with the cipher it was sealed with. */
  lemma SealedPacket(suite: Suite, cfg: Config, s: Session, plain: Bytes)
    requires Lawful(suite) && s.encIb
    ensures OnPacket(suite, cfg, s, Encrypted(suite, s.inbound, plain))
      == Dispatch(suite, cfg, s.(usedTags := s.usedTags + [Sealed(s.inbound.key, s.inbound.common, s.inbound.counter)],
                                 inbound := Advanced(s.inbound)), plain)
  {
    PacketRoundTrip(suite, s.inbound, plain);
  }

  // ------------------------------------------------------------ the records of the exchange

  lemma RecordSizes(w: World)
    requires Honest(w)
    ensures Small(PubA(w)) && Small(PubB(w)) && Small(LtA(w)) && Small(LtB(w))
    ensures Small(w.suite.sign(w.cb.ltSelf, H(w))) && Small(w.suite.sign(w.ca.ltSelf, Proof(w)))
  {
  }

  lemma ReadsHelloA(w: World) returns (c1: nat)
    requires Honest(w)
    ensures var data := Pack(HelloRecordsA(w));
            NextRecord(data, 0) == Got(PubA(w), c1) && NextRecord(data, c1) == Got(w.ca.nonceFresh, |data|)
  {
    RecordSizes(w);
    c1 := ReadTwo(PubA(w), w.ca.nonceFresh);
  }

  lemma ReadsHelloB(w: World) returns (c1: nat, c2: nat, c3: nat)
    requires Honest(w)
    ensures var data := Pack(HelloRecordsB(w));
            && NextRecord(data, 0) == Got(PubB(w), c1) && NextRecord(data, c1) == Got(w.cb.nonceFresh, c2)
            && NextRecord(data, c2) == Got(LtB(w), c3)
            && NextRecord(data, c3) == Got(w.suite.sign(w.cb.ltSelf, H(w)), |data|)
  {
    RecordSizes(w);
    c1, c2, c3 := ReadFour(Pack(HelloRecordsB(w)), HelloRecordsB(w));
  }

  lemma ReadsIdentity(w: World) returns (c1: nat)
    requires Honest(w)
    ensures var data := Pack(IdentityRecords(w));
            NextRecord(data, 0) == Got(LtA(w), c1) && NextRecord(data, c1) == Got(w.suite.sign(w.ca.ltSelf, Proof(w)), |data|)
  {
    RecordSizes(w);
    c1 := ReadTwo(LtA(w), w.suite.sign(w.ca.ltSelf, Proof(w)));
  }

  // ------------------------------------------------------------ the client

  lemma ClientOpens(w: World)
    requires Honest(w)
    ensures OnOpen(w.suite, w.ca, ClientAt(w, 0, [], [], 0)) == ClientAt(w, 1, [], [], 0)
  {
    var wire := WireA(w, []);
    assert wire[0] == [KEX] + M1;
    TakeNextWire(wire, 0);
    TagsSnoc(CipherAB(w, 0), 0, Clear);
  }

  lemma VersionIsGood(kind: Byte)
    ensures VersionPacket(kind)[0] == kind && GoodVersion(VersionPacket(kind)[1..]) && |VersionPacket(kind)| == 5
  {
    assert LE32(VERSION)[3] == 1;
    assert VersionPacket(kind)[1..] == LE32(VERSION);
  }

  lemma ClientReadsVersion(w: World)
    requires Honest(w)
    ensures OnPacket(w.suite, w.ca, ClientAt(w, 1, [], [], 0), ClearB(w)[0]) == ClientAt(w, 2, [], [], 1)
  {
    var s := ClientAt(w, 1, [], [], 0);
    ClearKex(w.suite, w.ca, s, M2);
    VersionIsGood(KEXS_VERSION);
    TagsSnoc(CipherBA(w, 0), 0, Clear);
    TagsSnoc(CipherAB(w, 0), 1, Clear);
    var wire := WireA(w, []);
    assert wire[1] == ClearA(w)[1];
    TakeNextWire(wire, 1);
  }

  lemma ClientTakesIdentity(w: World, s: Session, data: Bytes, c2: nat, c3: nat, to: nat)
    requires Honest(w) && to == if TrustA(w) then 3 else 5
    requires s.kex == KexA(w, 3).(state := K1_CHello, ltRemote := None)
    requires NextRecord(data, c2) == Got(LtB(w), c3)
    requires NextRecord(data, c3) == Got(w.suite.sign(w.cb.ltSelf, H(w)), |data|)
    ensures OnServerIdentity(w.suite, w.ca, s, data, c2) == (s.(kex := KexA(w, to)), if to == 3 then OK else ErrorNotrust)
  {
    assert w.suite.validPub(LtB(w));
  }

  lemma ClientHelloEvent(w: World, s: Session, p: Bytes, to: nat)
    requires Honest(w) && s.kex == KexA(w, 2) && to == if TrustA(w) then 3 else 5
    requires p == [KEXS_HELLO] + Pack(HelloRecordsB(w))
    ensures OnServerHello(w.suite, w.ca, s, p) == (s.(kex := KexA(w, to)), if to == 3 then OK else ErrorNotrust)
  {
    var data := Pack(HelloRecordsB(w));
    assert p[0] == KEXS_HELLO && p[1..] == data;
    var c1, c2, c3 := ReadsHelloB(w);
    assert w.suite.validPub(PubB(w));
    ClientTakesIdentity(w, s.(kex := KexA(w, 3).(state := K1_CHello, ltRemote := None)), data, c2, c3, to);
  }

  lemma ClientInHello(suite: Suite, cfg: Config, s: Session, p: Bytes)
    requires Lawful(suite) && cfg.isClient && s.kex.state == K1_CHello && p != []
    ensures Recv(suite, cfg, s, p) == OnServerHello(suite, cfg, s, p)
  {
  }

  /** A failed exchange turns every packet away. */
  lemma ClientFailed(suite: Suite, cfg: Config, s: Session, p: Bytes)
    requires Lawful(suite) && cfg.isClient && s.kex.state == KF_Err && !s.encIb && s.closed
    ensures OnPacket(suite, cfg, s, [KEX] + p) == s.(usedTags := s.usedTags + [Clear])
  {
    ClearKex(suite, cfg, s, p);
  }

  lemma ClientRecvsHello(w: World, s: Session, p: Bytes, to: nat)
    requires Honest(w) && s.kex == KexA(w, 2) && to == if TrustA(w) then 3 else 5
    requires p == [KEXS_HELLO] + Pack(HelloRecordsB(w))
    ensures Recv(w.suite, w.ca, s, p) == (s.(kex := KexA(w, to)), if to == 3 then OK else ErrorNotrust)
  {
    ClientHelloEvent(w, s, p, to);
    ClientInHello(w.suite, w.ca, s, p);
  }

  lemma ClientHelloEffect(w: World, s: Session, to: nat)
    requires Honest(w) && s == ClientAt(w, 2, [], [], 1) && to == if TrustA(w) then 3 else 5
    ensures s.(usedTags := s.usedTags + [Clear], kex := KexA(w, to), closed := s.closed || to == 5) == ClientAt(w, to, [], [], 2)
  {
    TagsSnoc(CipherBA(w, 0), 1, Clear);
  }

  lemma ClientTakesHello(w: World, s: Session, p: Bytes, to: nat)
    requires Honest(w) && !s.encIb && s.kex == KexA(w, 2) && to == if TrustA(w) then 3 else 5
    requires p == [KEXS_HELLO] + Pack(HelloRecordsB(w))
    ensures OnPacket(w.suite, w.ca, s, [KEX] + p)
            == s.(usedTags := s.usedTags + [Clear], kex := KexA(w, to), closed := s.closed || to == 5)
  {
    ClearKex(w.suite, w.ca, s, p);
    ClientRecvsHello(w, s.(usedTags := s.usedTags + [Clear]), p, to);
  }

  lemma ClientReadsHello(w: World, to: nat)
    requires Honest(w) && to == if TrustA(w) then 3 else 5
    ensures OnPacket(w.suite, w.ca, ClientAt(w, 2, [], [], 1), ClearB(w)[1]) == ClientAt(w, to, [], [], 2)
  {
    ClientTakesHello(w, ClientAt(w, 2, [], [], 1), [KEXS_HELLO] + Pack(HelloRecordsB(w)), to);
    ClientHelloEffect(w, ClientAt(w, 2, [], [], 1), to);
  }

  lemma ClientReadsNewKeys(w: World)
    requires Honest(w)
    ensures OnPacket(w.suite, w.ca, ClientAt(w, 3, [], [], 2), ClearB(w)[2]) == ClientAt(w, 4, [], [], 3)
  {
    var s := ClientAt(w, 3, [], [], 2);
    ClearKex(w.suite, w.ca, s, [KEXS_NEWKEYS]);
    TagsSnoc(CipherBA(w, 0), 2, Clear);
    TagsSnoc(CipherAB(w, 0), 2, Clear);
    TagsSnoc(CipherAB(w, 0), 3, Sealed(CipherAB(w, 0).key, CipherAB(w, 0).common, 0));
    CipherStep(w, 0);
    var wire := WireA(w, []);
    assert wire[2] == ClearA(w)[2] && wire[3] == Encrypted(w.suite, CipherAB(w, 0), PlainA(w, [], 0));
    TakeNextWire(wire, 2);
    TakeNextWire(wire, 3);
  }

  lemma ClientReadsData(w: World, sent: seq<Bytes>, got: seq<Bytes>, d: Bytes)
    requires Honest(w)
    ensures OnPacket(w.suite, w.ca, ClientAt(w, 4, sent, got, 3 + |got|), Encrypted(w.suite, CipherBA(w, |got|), DataPlain(d)))
            == ClientAt(w, 4, sent, got + [d], 4 + |got|)
  {
    var s := ClientAt(w, 4, sent, got, 3 + |got|);
    SealedPacket(w.suite, w.ca, s, DataPlain(d));
    assert DataPlain(d)[1..] == d;
    TagsSnoc(CipherBA(w, 0), 3 + |got|, Sealed(s.inbound.key, s.inbound.common, s.inbound.counter));
    CipherStep(w, |got|);
  }

  lemma ClientSends(w: World, sent: seq<Bytes>, got: seq<Bytes>, d: Bytes)
    requires Honest(w)
    ensures Send(w.suite, ClientAt(w, 4, sent, got, 3 + |got|), d) == ClientAt(w, 4, sent + [d], got, 3 + |got|)
  {
    var s := ClientAt(w, 4, sent, got, 3 + |got|);
    WireASnoc(w, sent, d);
    assert WireA(w, sent)[..4 + |sent|] == WireA(w, sent);
    assert WireA(w, sent + [d])[..5 + |sent|] == WireA(w, sent + [d]);
    TagsSnoc(CipherAB(w, 0), 4 + |sent|, Sealed(s.outbound.key, s.outbound.common, s.outbound.counter));
    CipherStep(w, 1 + |sent|);
  }

  /** A client that refused the server reads on and stays closed. */
  lemma ClientRefuses(w: World, taken: nat, p: Bytes)
    requires Honest(w) && taken < 3
    ensures OnPacket(w.suite, w.ca, ClientAt(w, 5, [], [], taken), [KEX] + p) == ClientAt(w, 5, [], [], taken + 1)
  {
    ClientFailed(w.suite, w.ca, ClientAt(w, 5, [], [], taken), p);
    TagsSnoc(CipherBA(w, 0), taken, Clear);
  }

  // ------------------------------------------------------------ the server

  lemma ServerReadsVersion(w: World)
    requires Honest(w)
    ensures OnPacket(w.suite, w.cb, ServerAt(w, 0, [], [], 0), ClearA(w)[0]) == ServerAt(w, 1, [], [], 1)
  {
    var s := ServerAt(w, 0, [], [], 0);
    ClearKex(w.suite, w.cb, s, M1);
    VersionIsGood(KEXC_VERSION);
    TagsSnoc(CipherAB(w, 0), 0, Clear);
    TagsSnoc(CipherBA(w, 0), 0, Clear);
    var wire := WireB(w, []);
    assert wire[0] == ClearB(w)[0];
    TakeNextWire(wire, 0);
  }

  lemma SecretsAgree(w: World)
    requires Honest(w)
    ensures w.suite.dh(w.cb.dhFresh, PubA(w)) == K(w)
  {
  }

  lemma ServerHelloEvent(w: World, s: Session)
    requires Honest(w) && s.kex == KexB(w, 1)
    ensures OnClientHello(w.suite, w.cb, s, [KEXC_HELLO] + Pack(HelloRecordsA(w)))
            == (ServerAnswers(w.suite, w.cb, s.(kex := KexB(w, 2).(state := S2_M2))), OK)
  {
    var p := [KEXC_HELLO] + Pack(HelloRecordsA(w));
    assert p[0] == KEXC_HELLO && p[1..] == Pack(HelloRecordsA(w));
    var c1 := ReadsHelloA(w);
    assert w.suite.validPub(PubA(w));
    SecretsAgree(w);
  }

  lemma ServerTakesHello(w: World, s: Session)
    requires Honest(w) && !s.encIb && s.kex == KexB(w, 1)
    ensures OnPacket(w.suite, w.cb, s, ClearA(w)[1])
            == ServerAnswers(w.suite, w.cb, s.(usedTags := s.usedTags + [Clear], kex := KexB(w, 2).(state := S2_M2)))
  {
    ClearKex(w.suite, w.cb, s, [KEXC_HELLO] + Pack(HelloRecordsA(w)));
    ServerHelloEvent(w, s.(usedTags := s.usedTags + [Clear]));
  }

  lemma ServerAnswersEffect(w: World, s: Session)
    requires Honest(w) && s == ServerAt(w, 1, [], [], 1)
    ensures ServerAnswers(w.suite, w.cb, s.(usedTags := s.usedTags + [Clear], kex := KexB(w, 2).(state := S2_M2)))
            == ServerAt(w, 2, [], [], 2)
  {
    TagsSnoc(CipherAB(w, 0), 1, Clear);
    TagsSnoc(CipherBA(w, 0), 1, Clear);
    TagsSnoc(CipherBA(w, 0), 2, Clear);
    var wire := WireB(w, []);
    assert wire[1] == ClearB(w)[1] && wire[2] == ClearB(w)[2];
    TakeNextWire(wire, 1);
    TakeNextWire(wire, 2);
  }

  lemma ServerReadsHello(w: World)
    requires Honest(w)
    ensures OnPacket(w.suite, w.cb, ServerAt(w, 1, [], [], 1), ClearA(w)[1]) == ServerAt(w, 2, [], [], 2)
  {
    ServerTakesHello(w, ServerAt(w, 1, [], [], 1));
    ServerAnswersEffect(w, ServerAt(w, 1, [], [], 1));
  }

  lemma ServerReadsNewKeys(w: World)
    requires Honest(w)
    ensures OnPacket(w.suite, w.cb, ServerAt(w, 2, [], [], 2), ClearA(w)[2]) == ServerAt(w, 3, [], [], 3)
  {
    ClearKex(w.suite, w.cb, ServerAt(w, 2, [], [], 2), [KEXC_NEWKEYS]);
    TagsSnoc(CipherAB(w, 0), 2, Clear);
  }

  lemma ServerIdentityEvent(w: World, s: Session, to: nat)
    requires Honest(w) && s.kex == KexB(w, 3) && to == if TrustB(w) then 4 else 5
    ensures OnClientIdentity(w.suite, w.cb, s, [KEXC_IDENTITY] + Pack(IdentityRecords(w)))
            == (s.(kex := KexB(w, to)), if to == 4 then OKDone else ErrorNotrust)
  {
    var p := [KEXC_IDENTITY] + Pack(IdentityRecords(w));
    assert p[0] == KEXC_IDENTITY && p[1..] == Pack(IdentityRecords(w));
    var c1 := ReadsIdentity(w);
    assert w.suite.validPub(LtA(w));
  }

  lemma ServerReceivesIdentity(w: World, s: Session, p: Bytes, to: nat)
    requires Honest(w) && s.kex == KexB(w, 3) && to == if TrustB(w) then 4 else 5
    requires p == [KEXC_IDENTITY] + Pack(IdentityRecords(w))
    ensures Recv(w.suite, w.cb, s, p) == (s.(kex := KexB(w, to)), if to == 4 then OKDone else ErrorNotrust)
  {
    ServerIdentityEvent(w, s, to);
  }

  /** The server dispatching the identity of the client. */
  function IdentityTaken(w: World, s: Session, to: nat): Session
  {
    s.(kex := KexB(w, to), closed := s.closed || to == 5,
       opens := s.opens + (if to == 4 && !s.firstKexOk then 1 else 0), firstKexOk := s.firstKexOk || to == 4)
  }

  lemma ServerDispatchesIdentity(w: World, s: Session, to: nat)
    requires Honest(w) && s.kex == KexB(w, 3) && to == if TrustB(w) then 4 else 5
    ensures Dispatch(w.suite, w.cb, s, PlainA(w, [], 0)) == IdentityTaken(w, s, to)
  {
    var p := [KEXC_IDENTITY] + Pack(IdentityRecords(w));
    assert ([KEX] + p)[1..] == p;
    ServerReceivesIdentity(w, s, p, to);
  }

  lemma ServerTakesIdentity(w: World, s: Session, to: nat)
    requires Honest(w) && s.encIb && s.inbound == CipherAB(w, 0) && s.kex == KexB(w, 3) && to == if TrustB(w) then 4 else 5
    ensures OnPacket(w.suite, w.cb, s, Encrypted(w.suite, CipherAB(w, 0), PlainA(w, [], 0)))
            == IdentityTaken(w, s.(usedTags := s.usedTags + [Sealed(s.inbound.key, s.inbound.common, 0)],
                                   inbound := Advanced(s.inbound)), to)
  {
    SealedPacket(w.suite, w.cb, s, PlainA(w, [], 0));
    var taken := s.(usedTags := s.usedTags + [Sealed(s.inbound.key, s.inbound.common, 0)], inbound := Advanced(s.inbound));
    ServerDispatchesIdentity(w, taken, to);
  }

  lemma ServerReadsIdentity(w: World, to: nat)
    requires Honest(w) && to == if TrustB(w) then 4 else 5
    ensures OnPacket(w.suite, w.cb, ServerAt(w, 3, [], [], 3), Encrypted(w.suite, CipherAB(w, 0), PlainA(w, [], 0)))
            == ServerAt(w, to, [], [], 4)
  {
    var s := ServerAt(w, 3, [], [], 3);
    ServerTakesIdentity(w, s, to);
    TagsSnoc(CipherAB(w, 0), 3, Sealed(s.inbound.key, s.inbound.common, 0));
    CipherStep(w, 0);
  }

  lemma ServerReadsData(w: World, sent: seq<Bytes>, got: seq<Bytes>, d: Bytes)
    requires Honest(w)
    ensures OnPacket(w.suite, w.cb, ServerAt(w, 4, sent, got, 4 + |got|), Encrypted(w.suite, CipherAB(w, 1 + |got|), DataPlain(d)))
            == ServerAt(w, 4, sent, got + [d], 5 + |got|)
  {
    var s := ServerAt(w, 4, sent, got, 4 + |got|);
    SealedPacket(w.suite, w.cb, s, DataPlain(d));
    assert DataPlain(d)[1..] == d;
    TagsSnoc(CipherAB(w, 0), 4 + |got|, Sealed(s.inbound.key, s.inbound.common, s.inbound.counter));
    CipherStep(w, 1 + |got|);
  }

  lemma ServerSends(w: World, sent: seq<Bytes>, got: seq<Bytes>, d: Bytes)
    requires Honest(w)
    ensures Send(w.suite, ServerAt(w, 4, sent, got, 4 + |got|), d) == ServerAt(w, 4, sent + [d], got, 4 + |got|)
  {
    var s := ServerAt(w, 4, sent, got, 4 + |got|);
    WireBSnoc(w, sent, d);
    assert WireB(w, sent)[..3 + |sent|] == WireB(w, sent);
    assert WireB(w, sent + [d])[..4 + |sent|] == WireB(w, sent + [d]);
    TagsSnoc(CipherBA(w, 0), 3 + |sent|, Sealed(s.outbound.key, s.outbound.common, s.outbound.counter));
    CipherStep(w, |sent|);
  }

  /** A server that refused the client keeps reading its data, delivers none of it and stays closed. */
  lemma ServerRefuses(w: World, taken: nat, d: Bytes)
    requires Honest(w) && taken >= 4
    ensures OnPacket(w.suite, w.cb, ServerAt(w, 5, [], [], taken), Encrypted(w.suite, CipherAB(w, taken - 3), DataPlain(d)))
            == ServerAt(w, 5, [], [], taken + 1)
  {
    var s := ServerAt(w, 5, [], [], taken);
    SealedPacket(w.suite, w.cb, s, DataPlain(d));
    TagsSnoc(CipherAB(w, 0), taken, Sealed(s.inbound.key, s.inbound.common, s.inbound.counter));
    CipherStep(w, taken - 3);
  }
}
