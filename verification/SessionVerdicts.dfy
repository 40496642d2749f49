/** What each message of the key exchange must be to be accepted, written out; and what follows from that for the
    hashes, the keys and the packets of an honest pair. */
module SessionVerdicts {
  import opened Common
  import opened PackedRecords
  import opened CipherModel
  import opened SessionModel

  // ------------------------------------------------------------ reading to the end

  lemma ReadHead(src: Bytes, c: nat)
    requires c < |src|
    ensures ReadAll(src, c)
            == match NextRecord(src, c)
               case Fail => None
               case Got(r, next) => if ReadAll(src, next) == None then None else Some([r] + ReadAll(src, next).value)
  {
  }

  lemma ReadEnd(src: Bytes, c: nat)
    requires c <= |src|
    ensures ReadAll(src, c) == Some([]) <==> c == |src|
    ensures c == |src| ==> NextRecord(src, c) == Fail
  {
  }

  /** Reading one more record and being at the end. */
  lemma ReadOneIff(src: Bytes, c: nat)
    requires c <= |src|
    ensures var r, all := NextRecord(src, c), ReadAll(src, c);
            (all.Some? && |all.value| == 1 <==> r.Got? && r.cursor == |src|) && (r.Got? && r.cursor == |src| ==> all == Some([r.record]))
  {
    if c < |src| {
      ReadHead(src, c);
      var r := NextRecord(src, c);
      if r.Got? {
        ReadEnd(src, r.cursor);
        assert [r.record] + [] == [r.record];
        assert ReadAll(src, r.cursor).Some? && |ReadAll(src, r.cursor).value| == 0 ==> ReadAll(src, r.cursor).value == [];
      }
    } else {
      ReadEnd(src, c);
    }
  }

  lemma ReadMore(src: Bytes, c: nat, n: nat)
    requires c <= |src| && 0 < n
    ensures var r, all := NextRecord(src, c), ReadAll(src, c);
            && (all.Some? && |all.value| == n <==> r.Got? && ReadAll(src, r.cursor).Some? && |ReadAll(src, r.cursor).value| == n - 1)
            && (all.Some? && |all.value| == n ==> all.value == [r.record] + ReadAll(src, r.cursor).value)
  {
    if c < |src| {
      ReadHead(src, c);
    } else {
      ReadEnd(src, c);
    }
  }

  // ------------------------------------------------------------ acceptance, message by message

  /** Known already and the same, or on the list of users, if there is one. */
  ghost predicate Trusted(known: Option<Bytes>, users: Option<set<Bytes>>, lt: Bytes)
  {
    || (known.Some? && known.value == lt)
    || (known == None && users == None)
    || (known == None && users.Some? && lt in users.value)
  }

  /** What the nonce is after a copy into a blob that `erase` did not empty. */
  ghost predicate IsCopied(was: Bytes, src: Bytes, now: Bytes)
  {
    && |now| == (if |src| < |was| then |was| else |src|) && now[..|src|] == src
    && (|src| <= |was| ==> now[|src|..] == was[|src|..])
  }

  lemma VersionAcceptedIff(suite: Suite, cfg: Config, s: Session, packet: Bytes)
    requires packet != []
    ensures OnServerVersion(suite, cfg, s, packet).1 == OK <==> packet[0] == 2 && |packet| == 5 && packet[4] == 1
    ensures OnClientVersion(suite, s, packet).1 == OK <==> packet[0] == 1 && |packet| == 5 && packet[4] == 1
  {
  }

  lemma NewKeysAcceptedIff(suite: Suite, cfg: Config, s: Session, packet: Bytes)
    requires Lawful(suite) && packet != []
    ensures OnServerNewKeys(suite, cfg, s, packet).1 == OKDone <==> packet == [5]
    ensures OnClientNewKeys(suite, s, packet).1 == OK <==> packet == [6]
  {
  }

  /** The four records of a server hello. */
  ghost predicate GoodServerHello(suite: Suite, cfg: Config, kex: Kex, rs: seq<Bytes>, nonce: Bytes)
  {
    && |rs| == 4 && suite.validPub(rs[0]) && suite.validPub(rs[2]) && Trusted(kex.ltRemote, cfg.users, rs[2])
    && IsCopied(kex.nonceB, rs[1], nonce)
    && suite.verify(rs[2],
                    suite.hash(Pack([suite.dh(kex.dhSelf, rs[0]), suite.pub(kex.dhSelf), rs[0], kex.nonceA, nonce])),
                    rs[3])
  }

  lemma IdentityAccepted(suite: Suite, cfg: Config, s: Session, data: Bytes, c: nat)
    requires c <= |data|
    ensures var r, all := OnServerIdentity(suite, cfg, s, data, c), ReadAll(data, c);
            r.1 == OK <==>
              all.Some? && |all.value| == 2 && suite.validPub(all.value[0]) && Trusted(s.kex.ltRemote, cfg.users, all.value[0])
              && suite.verify(all.value[0], s.kex.h, all.value[1])
  {
    ReadMore(data, c, 2);
    var r := NextRecord(data, c);
    if r.Got? {
      NextIsPacked(data, c, r.record, r.cursor);
      ReadOneIff(data, r.cursor);
      if NextRecord(data, r.cursor).Got? {
        NextIsPacked(data, r.cursor, NextRecord(data, r.cursor).record, NextRecord(data, r.cursor).cursor);
      }
    }
  }

  lemma NonceAccepted(suite: Suite, cfg: Config, s: Session, data: Bytes, c: nat, nonce: Bytes)
    requires c <= |data|
    requires NextRecord(data, c).Got? ==> IsCopied(s.kex.nonceB, NextRecord(data, c).record, nonce)
    ensures var r, all := OnServerNonce(suite, cfg, s, data, c), ReadAll(data, c);
            r.1 == OK <==>
              all.Some? && |all.value| == 3 && suite.validPub(all.value[1]) && Trusted(s.kex.ltRemote, cfg.users, all.value[1])
              && suite.verify(all.value[1],
                              suite.hash(Pack([s.kex.k, suite.pub(s.kex.dhSelf), s.kex.dhRemote, s.kex.nonceA, nonce])),
                              all.value[2])
  {
    ReadMore(data, c, 3);
    var r := NextRecord(data, c);
    if r.Got? {
      NextIsPacked(data, c, r.record, r.cursor);
      assert Overwrite(s.kex.nonceB, r.record) == nonce;
      var h := SecretHash(suite, s.kex.k, suite.pub(s.kex.dhSelf), s.kex.dhRemote, s.kex.nonceA, nonce);
      IdentityAccepted(suite, cfg, s.(kex := s.kex.(nonceB := nonce, h := h)), data, r.cursor);
    }
  }

  /** A server hello is accepted exactly if it is the type byte and the packed form of four records with valid keys,
      a trusted long-term key, and its signature on the hash of the shared secret, both ephemeral keys and both
      nonces. */
  lemma ServerHelloAcceptedIff(suite: Suite, cfg: Config, s: Session, packet: Bytes, nonce: Bytes)
    requires packet != []
    requires ReadAll(packet[1..], 0).Some? && |ReadAll(packet[1..], 0).value| == 4 ==>
               IsCopied(s.kex.nonceB, ReadAll(packet[1..], 0).value[1], nonce)
    ensures OnServerHello(suite, cfg, s, packet).1 == OK <==>
              packet[0] == 4 && ReadAll(packet[1..], 0).Some?
              && GoodServerHello(suite, cfg, s.kex, ReadAll(packet[1..], 0).value, nonce)
  {
    var data := packet[1..];
    var r := NextRecord(data, 0);
    ReadMore(data, 0, 4);
    if r.Got? {
      NextIsPacked(data, 0, r.record, r.cursor);
      ReadMore(data, r.cursor, 3);
      var second := NextRecord(data, r.cursor);
      var copied := if second.Got? then Overwrite(s.kex.nonceB, second.record) else [];
      if ReadAll(data, 0).Some? && |ReadAll(data, 0).value| == 4 {
        CopiedIsOne(s.kex.nonceB, second.record, copied, nonce);
      }
      NonceAccepted(suite, cfg, s.(kex := s.kex.(dhRemote := r.record, k := suite.dh(s.kex.dhSelf, r.record))), data, r.cursor, copied);
    }
  }

  lemma CopiedIsOne(was: Bytes, src: Bytes, a: Bytes, b: Bytes)
    requires IsCopied(was, src, a) && IsCopied(was, src, b)
    ensures a == b
  {
    assert a == a[..|src|] + a[|src|..] && b == b[..|src|] + b[|src|..];
  }

  /** A client hello is accepted exactly if it is the type byte and the packed form of a valid key and a nonce. */
  lemma ClientHelloAcceptedIff(suite: Suite, cfg: Config, s: Session, packet: Bytes)
    requires Lawful(suite) && packet != []
    ensures OnClientHello(suite, cfg, s, packet).1 == OK <==>
              packet[0] == 3 && ReadAll(packet[1..], 0).Some? && |ReadAll(packet[1..], 0).value| == 2
              && suite.validPub(ReadAll(packet[1..], 0).value[0])
  {
    var data := packet[1..];
    var r := NextRecord(data, 0);
    ReadMore(data, 0, 2);
    if r.Got? {
      NextIsPacked(data, 0, r.record, r.cursor);
      ReadOneIff(data, r.cursor);
      if NextRecord(data, r.cursor).Got? {
        NextIsPacked(data, r.cursor, NextRecord(data, r.cursor).record, NextRecord(data, r.cursor).cursor);
      }
    }
  }

  /** A client identity is accepted exactly if it is the type byte and the packed form of a valid and trusted key
      and its signature on the hash of the exchange hash, both version packets and the key. */
  lemma ClientIdentityAcceptedIff(suite: Suite, cfg: Config, s: Session, packet: Bytes)
    requires packet != []
    ensures OnClientIdentity(suite, cfg, s, packet).1 == OKDone <==>
              packet[0] == 7 && ReadAll(packet[1..], 0).Some? && |ReadAll(packet[1..], 0).value| == 2
              && var rs := ReadAll(packet[1..], 0).value;
                 suite.validPub(rs[0]) && Trusted(s.kex.ltRemote, cfg.users, rs[0])
                 && suite.verify(rs[0], suite.hash(Pack([s.kex.h, s.kex.m1, s.kex.m2, rs[0]])), rs[1])
  {
    var data := packet[1..];
    var r := NextRecord(data, 0);
    ReadMore(data, 0, 2);
    if r.Got? {
      NextIsPacked(data, 0, r.record, r.cursor);
      ReadOneIff(data, r.cursor);
      if NextRecord(data, r.cursor).Got? {
        NextIsPacked(data, r.cursor, NextRecord(data, r.cursor).record, NextRecord(data, r.cursor).cursor);
      }
    }
  }

  // ------------------------------------------------------------ refusal

  /** A refusal sends nothing, switches nothing and leaves the exchange in its error state. */
  ghost predicate EndsIt(s: Session, r: (Session, Event))
  {
    r.1 == OK || r.1 == OKDone || (r.0.kex.state == KF_Err && r.0 == s.(kex := r.0.kex))
  }

  lemma FailEnds(s: Session, kex: Kex, e: Event)
    ensures EndsIt(s, SessionModel.Fail(s.(kex := kex), e))
  {
  }

  lemma EndsFrom(s: Session, kex: Kex, r: (Session, Event))
    requires EndsIt(s.(kex := kex), r)
    ensures EndsIt(s, r)
  {
  }

  lemma VersionRefused(suite: Suite, cfg: Config, s: Session, packet: Bytes)
    requires packet != []
    ensures EndsIt(s, OnServerVersion(suite, cfg, s, packet)) && EndsIt(s, OnClientVersion(suite, s, packet))
  {
  }

  lemma NewKeysRefused(suite: Suite, cfg: Config, s: Session, packet: Bytes)
    requires Lawful(suite) && packet != []
    ensures EndsIt(s, OnServerNewKeys(suite, cfg, s, packet)) && EndsIt(s, OnClientNewKeys(suite, s, packet))
  {
  }

  lemma ServerIdentityRefused(suite: Suite, cfg: Config, s: Session, data: Bytes, c: nat)
    ensures EndsIt(s, OnServerIdentity(suite, cfg, s, data, c))
  {
    var r := OnServerIdentity(suite, cfg, s, data, c);
    var known := s.kex.(ltRemote := if NextRecord(data, c).Got? then Some(NextRecord(data, c).record) else s.kex.ltRemote);
    assert s.(kex := s.kex) == s;
    FailEnds(s, s.kex, r.1);
    FailEnds(s, known, r.1);
    assert r.1 == OK || r == SessionModel.Fail(s.(kex := s.kex), r.1) || r == SessionModel.Fail(s.(kex := known), r.1);
  }

  lemma ServerNonceRefused(suite: Suite, cfg: Config, s: Session, data: Bytes, c: nat)
    ensures EndsIt(s, OnServerNonce(suite, cfg, s, data, c))
  {
    var r := NextRecord(data, c);
    if r.Got? {
      var nonce := Overwrite(s.kex.nonceB, r.record);
      var h := SecretHash(suite, s.kex.k, suite.pub(s.kex.dhSelf), s.kex.dhRemote, s.kex.nonceA, nonce);
      var kex := s.kex.(nonceB := nonce, h := h);
      ServerIdentityRefused(suite, cfg, s.(kex := kex), data, r.cursor);
      EndsFrom(s, kex, OnServerIdentity(suite, cfg, s.(kex := kex), data, r.cursor));
    } else {
      FailEnds(s, s.kex, ErrorMalformed);
    }
  }

  lemma ServerHelloRefused(suite: Suite, cfg: Config, s: Session, packet: Bytes)
    requires packet != []
    ensures EndsIt(s, OnServerHello(suite, cfg, s, packet))
  {
    var data := packet[1..];
    var r := NextRecord(data, 0);
    if packet[0] == 4 && r.Got? && suite.validPub(r.record) {
      var kex := s.kex.(dhRemote := r.record, k := suite.dh(s.kex.dhSelf, r.record));
      ServerNonceRefused(suite, cfg, s.(kex := kex), data, r.cursor);
      EndsFrom(s, kex, OnServerNonce(suite, cfg, s.(kex := kex), data, r.cursor));
    } else {
      FailEnds(s, s.kex, OnServerHello(suite, cfg, s, packet).1);
    }
  }

  lemma ClientNonceRefused(suite: Suite, cfg: Config, s: Session, data: Bytes, c: nat)
    requires Lawful(suite)
    ensures EndsIt(s, OnClientNonce(suite, cfg, s, data, c))
  {
    var r := OnClientNonce(suite, cfg, s, data, c);
    FailEnds(s, s.kex, r.1);
    FailEnds(s, r.0.kex, r.1);
  }

  lemma ClientKeyRefused(suite: Suite, cfg: Config, s: Session, data: Bytes)
    requires Lawful(suite)
    ensures EndsIt(s, OnClientKey(suite, cfg, s, data))
  {
    var r := NextRecord(data, 0);
    if r.Got? && suite.validPub(r.record) {
      var kex := s.kex.(dhRemote := r.record, k := suite.dh(s.kex.dhSelf, r.record));
      ClientNonceRefused(suite, cfg, s.(kex := kex), data, r.cursor);
      EndsFrom(s, kex, OnClientNonce(suite, cfg, s.(kex := kex), data, r.cursor));
    } else {
      FailEnds(s, s.kex, if r.Got? then ErrorCrypto else ErrorMalformed);
    }
  }

  lemma ClientHelloRefused(suite: Suite, cfg: Config, s: Session, packet: Bytes)
    requires Lawful(suite) && packet != []
    ensures EndsIt(s, OnClientHello(suite, cfg, s, packet))
  {
    if packet[0] == 3 {
      var kex := s.kex.(dhSelf := cfg.dhFresh, dhRemote := [], nonceB := cfg.nonceFresh);
      ClientKeyRefused(suite, cfg, s.(kex := kex), packet[1..]);
      EndsFrom(s, kex, OnClientKey(suite, cfg, s.(kex := kex), packet[1..]));
    } else {
      FailEnds(s, s.kex, ErrorState);
    }
  }

  lemma ClientIdentityRefused(suite: Suite, cfg: Config, s: Session, packet: Bytes)
    requires packet != []
    ensures EndsIt(s, OnClientIdentity(suite, cfg, s, packet))
  {
  }

  lemma RefusedByClient(suite: Suite, cfg: Config, s: Session, packet: Bytes)
    requires Lawful(suite)
    ensures EndsIt(s, RecvClient(suite, cfg, s, packet))
  {
    if packet != [] {
      match s.kex.state
      case S1_M1 => VersionRefused(suite, cfg, s, packet);
      case K1_CHello => ServerHelloRefused(suite, cfg, s, packet);
      case K2_SHello => NewKeysRefused(suite, cfg, s, packet);
      case _ =>
    }
  }

  lemma RefusedByServer(suite: Suite, cfg: Config, s: Session, packet: Bytes)
    requires Lawful(suite)
    ensures EndsIt(s, RecvServer(suite, cfg, s, packet))
  {
    if packet != [] {
      match s.kex.state
      case S0_New => VersionRefused(suite, cfg, s, packet);
      case S2_M2 => ClientHelloRefused(suite, cfg, s, packet);
      case KF_Done => ClientHelloRefused(suite, cfg, s, packet);
      case K3_SEnc => NewKeysRefused(suite, cfg, s, packet);
      case K4_CEnc => ClientIdentityRefused(suite, cfg, s, packet);
      case _ =>
    }
  }

  /** At either side, whatever the packet. */
  lemma RefusalEnds(suite: Suite, cfg: Config, s: Session, packet: Bytes)
    requires Lawful(suite)
    ensures EndsIt(s, Recv(suite, cfg, s, packet))
  {
    RefusedByClient(suite, cfg, s, packet);
    RefusedByServer(suite, cfg, s, packet);
  }

  lemma ClientTakesOnly(suite: Suite, cfg: Config, s: Session, packet: Bytes)
    requires Lawful(suite) && cfg.isClient
    ensures var e := Recv(suite, cfg, s, packet).1;
            && (e == OK ==> packet != [] && (s.kex.state, packet[0]) in {(S1_M1, 2), (K1_CHello, 4)})
            && (e == OKDone ==> packet == [5] && s.kex.state == K2_SHello)
  {
    if packet != [] {
      match s.kex.state
      case S1_M1 => VersionAcceptedIff(suite, cfg, s, packet);
      case K1_CHello =>
        HelloNotDone(suite, cfg, s, packet);
      case K2_SHello => NewKeysAcceptedIff(suite, cfg, s, packet);
      case _ =>
    }
  }

  lemma HelloNotDone(suite: Suite, cfg: Config, s: Session, packet: Bytes)
    requires packet != []
    ensures OnServerHello(suite, cfg, s, packet).1 != OKDone
    ensures OnServerHello(suite, cfg, s, packet).1 == OK ==> packet[0] == 4
  {
  }

  lemma ServerTakesOnly(suite: Suite, cfg: Config, s: Session, packet: Bytes)
    requires Lawful(suite) && !cfg.isClient
    ensures var e := Recv(suite, cfg, s, packet).1;
            && (e == OK ==> packet != []
                            && (s.kex.state, packet[0]) in {(S0_New, 1), (S2_M2, 3), (KF_Done, 3), (K3_SEnc, 6)})
            && (e == OKDone ==> packet != [] && packet[0] == 7 && s.kex.state == K4_CEnc)
  {
    if packet != [] {
      match s.kex.state
      case S0_New => VersionAcceptedIff(suite, cfg, s, packet);
      case K3_SEnc => NewKeysAcceptedIff(suite, cfg, s, packet);
      case _ =>
    }
  }

  // ------------------------------------------------------------ the reason given

  lemma ReasonsForFixed(suite: Suite, cfg: Config, s: Session, packet: Bytes)
    requires Lawful(suite) && packet != []
    ensures OnServerVersion(suite, cfg, s, packet).1 in (if packet[0] != 2 then {ErrorState} else {OK, ErrorMalformed})
    ensures OnClientVersion(suite, s, packet).1 in (if packet[0] != 1 then {ErrorState} else {OK, ErrorMalformed})
    ensures OnServerNewKeys(suite, cfg, s, packet).1 in (if packet[0] != 5 then {ErrorState} else {OKDone, ErrorMalformed})
    ensures OnClientNewKeys(suite, s, packet).1 in (if packet[0] != 6 then {ErrorState} else {OK, ErrorMalformed})
  {
  }

  /** Of the records of a hello or an identity the first that is not there, not a key, not trusted or not signed
      decides. */
  lemma ReasonsForRecords(suite: Suite, cfg: Config, s: Session, packet: Bytes)
    requires Lawful(suite) && packet != []
    ensures var first := NextRecord(packet[1..], 0);
            var why := if first.Fail? then ErrorMalformed else ErrorCrypto;
            first.Fail? || !suite.validPub(first.record) ==>
              && OnServerHello(suite, cfg, s, packet).1 == (if packet[0] != 4 then ErrorState else why)
              && OnClientHello(suite, cfg, s, packet).1 == (if packet[0] != 3 then ErrorState else why)
              && OnClientIdentity(suite, cfg, s, packet).1 == (if packet[0] != 7 then ErrorState else why)
    ensures packet[0] != 4 ==> OnServerHello(suite, cfg, s, packet).1 == ErrorState
    ensures packet[0] != 3 ==> OnClientHello(suite, cfg, s, packet).1 == ErrorState
    ensures packet[0] != 7 ==> OnClientIdentity(suite, cfg, s, packet).1 == ErrorState
  {
  }

  lemma ReasonsForIdentity(suite: Suite, cfg: Config, s: Session, data: Bytes, c: nat)
    ensures var e, lt := OnServerIdentity(suite, cfg, s, data, c).1, NextRecord(data, c);
            && (lt.Fail? ==> e == ErrorMalformed)
            && (lt.Got? ==>
                 var sig := NextRecord(data, lt.cursor);
                 && (!suite.validPub(lt.record) ==> e == ErrorCrypto)
                 && (suite.validPub(lt.record) && !Trusted(s.kex.ltRemote, cfg.users, lt.record) ==> e == ErrorNotrust)
                 && (suite.validPub(lt.record) && Trusted(s.kex.ltRemote, cfg.users, lt.record) ==>
                      && (sig.Fail? ==> e == ErrorMalformed)
                      && (sig.Got? && !suite.verify(lt.record, s.kex.h, sig.record) ==> e == ErrorNotrust)
                      && (sig.Got? && suite.verify(lt.record, s.kex.h, sig.record) && sig.cursor < |data| ==> e == ErrorMalformed)))
  {
  }
}
