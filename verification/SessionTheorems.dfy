/** What a session over an ordered transport promises, in every run of an honest pair. */
module SessionTheorems {
  import opened Common
  import opened CipherModel
  import opened SessionModel
  import opened SessionNet
  import opened SessionSteps

  // ------------------------------------------------------------ every step keeps the pair where it should be

  lemma Lengths(w: World, n: Net, pa: nat, pb: nat)
    requires Lawful(w.suite) && At(w, n, pa, pb)
    ensures |n.a.out| == |n.a.sentTags| == OutA(pa, |n.aSent|) && |n.b.out| == |n.b.sentTags| == OutB(pb, |n.bSent|)
    ensures pa != 4 ==> pb <= pa
    ensures pb >= 1 ==> pa >= 1
  {
  }

  lemma HeadOfA(w: World, sent: seq<Bytes>, out: nat, k: nat)
    requires Lawful(w.suite) && k < out <= 4 + |sent|
    ensures WireA(w, sent)[..out][k]
            == if k < 3 then ClearA(w)[k] else Encrypted(w.suite, CipherAB(w, k - 3), PlainA(w, sent, k - 3))
  {
  }

  lemma HeadOfB(w: World, sent: seq<Bytes>, out: nat, k: nat)
    requires Lawful(w.suite) && k < out <= 3 + |sent|
    ensures WireB(w, sent)[..out][k]
            == if k < 3 then ClearB(w)[k] else Encrypted(w.suite, CipherBA(w, k - 3), DataPlain(sent[k - 3]))
  {
  }

  lemma ClientReadsSent(w: World, n: Net, pb: nat)
    requires Honest(w) && At(w, n, 4, pb) && Enabled(n, ToA)
    ensures n.baTaken < 3 + |n.bSent|
    ensures OnPacket(w.suite, w.ca, n.a, n.b.out[n.baTaken]) == ClientAt(w, 4, n.aSent, n.bSent[..n.baTaken - 2], n.baTaken + 1)
  {
    Lengths(w, n, 4, pb);
    HeadOfB(w, n.bSent, |n.b.out|, n.baTaken);
    ClientReadsData(w, n.aSent, n.bSent[..n.baTaken - 3], n.bSent[n.baTaken - 3]);
    TakeNextWire(n.bSent, n.baTaken - 3);
  }

  lemma ClientReadsRefused(w: World, n: Net, pb: nat)
    requires Honest(w) && At(w, n, 5, pb) && Enabled(n, ToA)
    ensures n.baTaken == 2 && n.aSent == []
    ensures OnPacket(w.suite, w.ca, n.a, n.b.out[n.baTaken]) == ClientAt(w, 5, [], [], n.baTaken + 1)
  {
    Lengths(w, n, 5, pb);
    HeadOfB(w, n.bSent, |n.b.out|, n.baTaken);
    ClientRefuses(w, 2, [KEXS_NEWKEYS]);
  }

  function AfterReadA(w: World, pa: nat): nat
  {
    if pa == 1 then 2 else if pa == 2 then (if TrustA(w) then 3 else 5) else if pa == 3 then 4 else pa
  }

  /** Before it is done the client reads the clear packets of the server in turn. */
  lemma ClientFacesClear(w: World, n: Net, pa: nat, pb: nat)
    requires Honest(w) && At(w, n, pa, pb) && Enabled(n, ToA) && pa <= 3
    ensures pa >= 1 && n.aSent == [] && n.baTaken == pa - 1
    ensures n.a == ClientAt(w, pa, [], [], pa - 1) && n.b.out[n.baTaken] == ClearB(w)[pa - 1]
  {
    Lengths(w, n, pa, pb);
    HeadOfB(w, n.bSent, |n.b.out|, n.baTaken);
  }

  lemma ClientReadsClear(w: World, pa: nat, to: nat)
    requires Honest(w) && 1 <= pa <= 3 && to == AfterReadA(w, pa)
    ensures OnPacket(w.suite, w.ca, ClientAt(w, pa, [], [], pa - 1), ClearB(w)[pa - 1]) == ClientAt(w, to, [], [], pa)
  {
    match pa
    case 1 => ClientReadsVersion(w);
    case 2 => ClientReadsHello(w, to);
    case _ => ClientReadsNewKeys(w);
  }

  lemma ClientReadsEarly(w: World, n: Net, pa: nat, pb: nat, to: nat)
    requires Honest(w) && At(w, n, pa, pb) && Enabled(n, ToA) && to == AfterReadA(w, pa) && pa <= 3
    ensures pa >= 1 && n.aSent == [] && n.baTaken == pa - 1
    ensures OnPacket(w.suite, w.ca, n.a, n.b.out[n.baTaken]) == ClientAt(w, to, [], [], n.baTaken + 1)
  {
    ClientFacesClear(w, n, pa, pb);
    ClientReadsClear(w, pa, to);
  }

  /** The client after reading the next packet of the server. */
  lemma ClientReads(w: World, n: Net, pa: nat, pb: nat, to: nat)
    requires Honest(w) && At(w, n, pa, pb) && Enabled(n, ToA) && to == AfterReadA(w, pa)
    ensures pa >= 1 && (pa == 4 ==> n.baTaken < 3 + |n.bSent|) && (pa == 5 ==> n.baTaken == 2)
    ensures OnPacket(w.suite, w.ca, n.a, n.b.out[n.baTaken])
            == ClientAt(w, to, n.aSent, if to == 4 then n.bSent[..n.baTaken - 2] else [], n.baTaken + 1)
  {
    if pa == 4 {
      ClientReadsSent(w, n, pb);
    } else if pa == 5 {
      ClientReadsRefused(w, n, pb);
    } else {
      ClientReadsEarly(w, n, pa, pb, to);
      assert n.bSent[..0] == [];
    }
  }

  lemma ServerReadsSent(w: World, n: Net, pa: nat)
    requires Honest(w) && At(w, n, pa, 4) && Enabled(n, ToB)
    ensures pa == 4 && n.abTaken < 4 + |n.aSent|
    ensures OnPacket(w.suite, w.cb, n.b, n.a.out[n.abTaken]) == ServerAt(w, 4, n.bSent, n.aSent[..n.abTaken - 3], n.abTaken + 1)
  {
    Lengths(w, n, pa, 4);
    HeadOfA(w, n.aSent, |n.a.out|, n.abTaken);
    ServerReadsData(w, n.bSent, n.aSent[..n.abTaken - 4], n.aSent[n.abTaken - 4]);
    TakeNextWire(n.aSent, n.abTaken - 4);
  }

  lemma ServerReadsRefused(w: World, n: Net, pa: nat)
    requires Honest(w) && At(w, n, pa, 5) && Enabled(n, ToB)
    ensures pa == 4 && n.abTaken < 4 + |n.aSent| && n.bSent == []
    ensures OnPacket(w.suite, w.cb, n.b, n.a.out[n.abTaken]) == ServerAt(w, 5, [], [], n.abTaken + 1)
  {
    Lengths(w, n, pa, 5);
    HeadOfA(w, n.aSent, |n.a.out|, n.abTaken);
    ServerRefuses(w, n.abTaken, n.aSent[n.abTaken - 4]);
  }

  function AfterReadB(w: World, pb: nat): nat
  {
    if pb < 3 then pb + 1 else if pb == 3 then (if TrustB(w) then 4 else 5) else pb
  }

  /** The server after reading the next packet of the client. */
  lemma ServerReads(w: World, n: Net, pa: nat, pb: nat, to: nat)
    requires Honest(w) && At(w, n, pa, pb) && Enabled(n, ToB) && to == AfterReadB(w, pb)
    ensures (pb >= 2 ==> pa == 4) && n.abTaken < 4 + |n.aSent|
    ensures OnPacket(w.suite, w.cb, n.b, n.a.out[n.abTaken])
            == ServerAt(w, to, n.bSent, if to == 4 then n.aSent[..n.abTaken - 3] else [], n.abTaken + 1)
  {
    if pb == 4 {
      ServerReadsSent(w, n, pa);
    } else if pb == 5 {
      ServerReadsRefused(w, n, pa);
    } else {
      Lengths(w, n, pa, pb);
      HeadOfA(w, n.aSent, |n.a.out|, n.abTaken);
      match pb
      case 0 => ServerReadsVersion(w);
      case 1 => ServerReadsHello(w);
      case 2 => ServerReadsNewKeys(w);
      case _ =>
        ServerReadsIdentity(w, to);
        assert PlainA(w, n.aSent, 0) == PlainA(w, [], 0) && n.aSent[..0] == [];
    }
  }

  /** Two sides that are where they should be make a pair that is. */
  lemma Paired(w: World, m: Net, pa: nat, pb: nat)
    requires Lawful(w.suite)
    requires SideA(w, m.a, m.started, m.baTaken, m.aSent, m.bSent, pa)
    requires SideB(w, m.b, m.abTaken, m.bSent, m.aSent, pb)
    requires m.abTaken <= |m.a.out| && m.baTaken <= |m.b.out|
    ensures Inv(w, m)
  {
    assert At(w, m, pa, pb);
  }

  lemma ClientAfterRead(w: World, n: Net, pa: nat, pb: nat, to: nat, m: Net)
    requires Honest(w) && At(w, n, pa, pb) && Enabled(n, ToA) && to == AfterReadA(w, pa) && m == Next(w, n, ToA)
    ensures SideA(w, m.a, m.started, m.baTaken, m.aSent, m.bSent, to) && n.abTaken <= |m.a.out|
  {
    ClientReads(w, n, pa, pb, to);
  }

  lemma ServerAfterRead(w: World, n: Net, pa: nat, pb: nat, to: nat, m: Net)
    requires Honest(w) && At(w, n, pa, pb) && Enabled(n, ToB) && to == AfterReadB(w, pb) && m == Next(w, n, ToB)
    ensures SideB(w, m.b, m.abTaken, m.bSent, m.aSent, to) && n.baTaken <= |m.b.out|
  {
    ServerReads(w, n, pa, pb, to);
  }

  lemma ToAKeeps(w: World, n: Net, pa: nat, pb: nat, m: Net)
    requires Honest(w) && At(w, n, pa, pb) && Enabled(n, ToA) && m == Next(w, n, ToA)
    ensures Inv(w, m)
  {
    ClientAfterRead(w, n, pa, pb, AfterReadA(w, pa), m);
    Paired(w, m, AfterReadA(w, pa), pb);
  }

  lemma ToBKeeps(w: World, n: Net, pa: nat, pb: nat, m: Net)
    requires Honest(w) && At(w, n, pa, pb) && Enabled(n, ToB) && m == Next(w, n, ToB)
    ensures Inv(w, m)
  {
    ServerAfterRead(w, n, pa, pb, AfterReadB(w, pb), m);
    Paired(w, m, pa, AfterReadB(w, pb));
  }

  lemma OpenMeansDone(w: World, n: Net, pa: nat, pb: nat)
    requires Lawful(w.suite) && At(w, n, pa, pb)
    ensures (n.a.opens > 0 <==> pa == 4) && (n.b.opens > 0 <==> pb == 4)
  {
  }

  /** What the peer sends changes nothing at this side. */
  lemma PeerOfA(w: World, b: Session, taken: nat, sent: seq<Bytes>, peerSent: seq<Bytes>, pb: nat, d: Bytes)
    requires Lawful(w.suite) && SideB(w, b, taken, sent, peerSent, pb)
    ensures SideB(w, b, taken, sent, peerSent + [d], pb)
  {
    assert pb == 4 ==> (peerSent + [d])[..taken - 4] == peerSent[..taken - 4];
  }

  lemma PeerOfB(w: World, a: Session, started: bool, taken: nat, sent: seq<Bytes>, peerSent: seq<Bytes>, pa: nat, d: Bytes)
    requires Lawful(w.suite) && SideA(w, a, started, taken, sent, peerSent, pa)
    ensures SideA(w, a, started, taken, sent, peerSent + [d], pa)
  {
    assert pa == 4 ==> (peerSent + [d])[..taken - 3] == peerSent[..taken - 3];
  }

  lemma ClientAfterSend(w: World, a: Session, started: bool, taken: nat, sent: seq<Bytes>, peerSent: seq<Bytes>, d: Bytes)
    requires Honest(w) && SideA(w, a, started, taken, sent, peerSent, 4)
    ensures SideA(w, Send(w.suite, a, d), started, taken, sent + [d], peerSent, 4)
    ensures |Send(w.suite, a, d).out| == |a.out| + 1
  {
    ClientSends(w, sent, peerSent[..taken - 3], d);
  }

  lemma ServerAfterSend(w: World, b: Session, taken: nat, sent: seq<Bytes>, peerSent: seq<Bytes>, d: Bytes)
    requires Honest(w) && SideB(w, b, taken, sent, peerSent, 4)
    ensures SideB(w, Send(w.suite, b, d), taken, sent + [d], peerSent, 4)
    ensures |Send(w.suite, b, d).out| == |b.out| + 1
  {
    ServerSends(w, sent, peerSent[..taken - 4], d);
  }

  lemma SendAKeeps(w: World, n: Net, pb: nat, d: Bytes, m: Net)
    requires Honest(w) && At(w, n, 4, pb) && Enabled(n, SendA(d)) && m == Next(w, n, SendA(d))
    ensures Inv(w, m)
  {
    ClientAfterSend(w, n.a, n.started, n.baTaken, n.aSent, n.bSent, d);
    PeerOfA(w, n.b, n.abTaken, n.bSent, n.aSent, pb, d);
    Paired(w, m, 4, pb);
  }

  lemma SendBKeeps(w: World, n: Net, pa: nat, d: Bytes, m: Net)
    requires Honest(w) && At(w, n, pa, 4) && Enabled(n, SendB(d)) && m == Next(w, n, SendB(d))
    ensures Inv(w, m)
  {
    ServerAfterSend(w, n.b, n.abTaken, n.bSent, n.aSent, d);
    PeerOfB(w, n.a, n.started, n.baTaken, n.aSent, n.bSent, pa, d);
    Paired(w, m, pa, 4);
  }

  lemma OpenKeeps(w: World, n: Net, pa: nat, pb: nat)
    requires Honest(w) && At(w, n, pa, pb) && Enabled(n, OpenA)
    ensures Inv(w, Next(w, n, OpenA))
  {
    ClientOpens(w);
    assert At(w, Next(w, n, OpenA), 1, pb);
  }

  lemma StepKeepsInv(w: World, n: Net, step: Step)
    requires Honest(w) && Inv(w, n) && Enabled(n, step)
    ensures Inv(w, Next(w, n, step))
  {
    var pa, pb :| At(w, n, pa, pb);
    OpenMeansDone(w, n, pa, pb);
    match step
    case OpenA => OpenKeeps(w, n, pa, pb);
    case OpenB => assert Next(w, n, step) == n;
    case ToA => ToAKeeps(w, n, pa, pb, Next(w, n, step));
    case ToB => ToBKeeps(w, n, pa, pb, Next(w, n, step));
    case SendA(d) => SendAKeeps(w, n, pb, d, Next(w, n, step));
    case SendB(d) => SendBKeeps(w, n, pa, d, Next(w, n, step));
  }

  lemma {:induction false} RunKeepsInv(w: World, n: Net, steps: seq<Step>)
    requires Honest(w) && Inv(w, n) && Run(w, n, steps)
    ensures Inv(w, Final(w, n, steps))
    decreases |steps|
  {
    if steps != [] {
      StepKeepsInv(w, n, steps[0]);
      RunKeepsInv(w, Next(w, n, steps[0]), steps[1..]);
    }
  }

  /** A state some run of the honest pair reaches. */
  ghost predicate Reachable(w: World, n: Net)
  {
    Honest(w) && exists steps :: Run(w, INITIAL, steps) && n == Final(w, INITIAL, steps)
  }

  lemma Reached(w: World, n: Net) returns (pa: nat, pb: nat)
    requires Reachable(w, n)
    ensures At(w, n, pa, pb)
    ensures |n.a.out| == |n.a.sentTags| == OutA(pa, |n.aSent|) && |n.b.out| == |n.b.sentTags| == OutB(pb, |n.bSent|)
    ensures (pa != 4 ==> pb <= pa) && (pb >= 1 ==> pa >= 1)
  {
    var steps :| Run(w, INITIAL, steps) && n == Final(w, INITIAL, steps);
    InitialInv(w);
    RunKeepsInv(w, INITIAL, steps);
    pa, pb :| At(w, n, pa, pb);
    Lengths(w, n, pa, pb);
  }

  // ------------------------------------------------------------ lockstep

  lemma TagsPrefix(c: Cipher, n: nat, k: nat)
    requires k <= n
    ensures Tags(c, n)[..k] == Tags(c, k)
  {
  }

  /** Every packet read so far was read with the flag, key, IV part and counter it was sent with. */
  lemma Lockstep(w: World, n: Net)
    requires Reachable(w, n)
    ensures |n.a.sentTags| == |n.a.out| && |n.b.sentTags| == |n.b.out|
    ensures n.abTaken <= |n.a.out| && n.b.usedTags == n.a.sentTags[..n.abTaken]
    ensures n.baTaken <= |n.b.out| && n.a.usedTags == n.b.sentTags[..n.baTaken]
  {
    var pa, pb := Reached(w, n);
    TagsPrefix(CipherAB(w, 0), |n.a.out|, n.abTaken);
    TagsPrefix(CipherBA(w, 0), |n.b.out|, n.baTaken);
  }

  lemma HeadForServer(w: World, n: Net, pa: nat, pb: nat)
    requires Lawful(w.suite) && At(w, n, pa, pb) && n.abTaken < |n.a.sentTags|
    ensures n.a.sentTags[n.abTaken] == TagOf(n.b.encIb, n.b.inbound)
  {
  }

  lemma HeadForClient(w: World, n: Net, pa: nat, pb: nat)
    requires Lawful(w.suite) && At(w, n, pa, pb) && n.baTaken < |n.b.sentTags|
    ensures n.b.sentTags[n.baTaken] == TagOf(n.a.encIb, n.a.inbound)
  {
  }

  /** And the packet at the head of each channel carries exactly what its receiver is about to use. */
  lemma HeadInLockstep(w: World, n: Net)
    requires Reachable(w, n)
    ensures |n.a.sentTags| == |n.a.out| && |n.b.sentTags| == |n.b.out|
    ensures n.abTaken < |n.a.out| ==> n.a.sentTags[n.abTaken] == TagOf(n.b.encIb, n.b.inbound)
    ensures n.baTaken < |n.b.out| ==> n.b.sentTags[n.baTaken] == TagOf(n.a.encIb, n.a.inbound)
  {
    var pa, pb := Reached(w, n);
    if n.abTaken < |n.a.out| { HeadForServer(w, n, pa, pb); }
    if n.baTaken < |n.b.out| { HeadForClient(w, n, pa, pb); }
  }

  function SealedIn(tags: seq<Tag>): nat
  {
    if tags == [] then 0
    else SealedIn(tags[..|tags| - 1]) + (if tags[|tags| - 1].Sealed? then 1 else 0)
  }

  lemma {:induction false} SealedInTags(c: Cipher, n: nat, k: nat)
    requires k <= n
    ensures SealedIn(Tags(c, n)[k..]) == SealedOf(n) - SealedOf(k)
    decreases n
  {
    if k < n {
      var tags := Tags(c, n)[k..];
      assert tags[..|tags| - 1] == Tags(c, n - 1)[k..];
      SealedInTags(c, n - 1, k);
    }
  }

  /** Sealed packets among the first `n` of a direction. */
  function SealedOf(n: nat): nat { if n < 3 then 0 else n - 3 }

  lemma ModSum(x: nat, y: nat, z: nat)
    requires x + y == z
    ensures (x % TWO_64 + y) % TWO_64 == z % TWO_64
  {
  }

  lemma ClientCounters(w: World, phase: nat, sent: seq<Bytes>, got: seq<Bytes>, taken: nat)
    requires Lawful(w.suite) && phase <= 5
    requires if phase == 4 then taken == 3 + |got| else sent == [] && got == [] && taken <= 3
    ensures ClientAt(w, phase, sent, got, taken).outbound.counter == SealedOf(OutA(phase, |sent|)) % TWO_64
    ensures ClientAt(w, phase, sent, got, taken).inbound.counter == SealedOf(taken) % TWO_64
  {
    assert SealedOf(OutA(phase, |sent|)) == (if phase == 4 then 1 + |sent| else 0);
    assert SealedOf(taken) == (if phase == 4 then |got| else 0);
  }

  lemma EndCountersA(w: World, a: Session, started: bool, taken: nat, sent: seq<Bytes>, peerSent: seq<Bytes>, phase: nat)
    requires Lawful(w.suite) && SideA(w, a, started, taken, sent, peerSent, phase) && (phase == 5 ==> taken <= 3)
    ensures a.outbound.counter == SealedOf(OutA(phase, |sent|)) % TWO_64 && a.inbound.counter == SealedOf(taken) % TWO_64
  {
    ClientCounters(w, phase, sent, if phase == 4 then peerSent[..taken - 3] else [], taken);
  }

  lemma EndCountersB(w: World, b: Session, taken: nat, sent: seq<Bytes>, peerSent: seq<Bytes>, phase: nat)
    requires Lawful(w.suite) && SideB(w, b, taken, sent, peerSent, phase)
    ensures b.outbound.counter == SealedOf(OutB(phase, |sent|)) % TWO_64 && b.inbound.counter == SealedOf(taken) % TWO_64
  {
  }

  lemma CountersOfA(w: World, n: Net, pa: nat, pb: nat)
    requires Lawful(w.suite) && At(w, n, pa, pb)
    ensures n.a.outbound.counter == SealedOf(OutA(pa, |n.aSent|)) % TWO_64 && n.a.inbound.counter == SealedOf(n.baTaken) % TWO_64
  {
    Lengths(w, n, pa, pb);
    EndCountersA(w, n.a, n.started, n.baTaken, n.aSent, n.bSent, pa);
  }

  lemma CountersOfB(w: World, n: Net, pa: nat, pb: nat)
    requires Lawful(w.suite) && At(w, n, pa, pb)
    ensures n.b.outbound.counter == SealedOf(OutB(pb, |n.bSent|)) % TWO_64 && n.b.inbound.counter == SealedOf(n.abTaken) % TWO_64
  {
    EndCountersB(w, n.b, n.abTaken, n.bSent, n.aSent, pb);
  }

  /** The sender's counter is the receiver's plus the sealed packets not yet read, modulo 2^64. */
  ghost predicate InStep(tags: seq<Tag>, taken: nat, read: nat, written: nat)
  {
    taken <= |tags| && (read + SealedIn(tags[taken..])) % TWO_64 == written
  }

  lemma InFlight(c: Cipher, n: nat, k: nat, tags: seq<Tag>, read: nat, written: nat)
    requires k <= n && tags == Tags(c, n) && read == SealedOf(k) % TWO_64 && written == SealedOf(n) % TWO_64
    ensures InStep(tags, k, read, written)
  {
    SealedInTags(c, n, k);
    ModSum(SealedOf(k), SealedIn(tags[k..]), SealedOf(n));
  }

  lemma TagsOfEnds(w: World, n: Net, pa: nat, pb: nat)
    requires Lawful(w.suite) && At(w, n, pa, pb)
    ensures n.a.sentTags == Tags(CipherAB(w, 0), OutA(pa, |n.aSent|)) && n.abTaken <= OutA(pa, |n.aSent|)
    ensures n.b.sentTags == Tags(CipherBA(w, 0), OutB(pb, |n.bSent|)) && n.baTaken <= OutB(pb, |n.bSent|)
  {
    Lengths(w, n, pa, pb);
  }

  lemma ConservedAB(w: World, n: Net, pa: nat, pb: nat)
    requires Lawful(w.suite) && At(w, n, pa, pb)
    ensures InStep(n.a.sentTags, n.abTaken, n.b.inbound.counter, n.a.outbound.counter)
  {
    TagsOfEnds(w, n, pa, pb);
    CountersOfA(w, n, pa, pb);
    CountersOfB(w, n, pa, pb);
    InFlight(CipherAB(w, 0), OutA(pa, |n.aSent|), n.abTaken, n.a.sentTags, n.b.inbound.counter, n.a.outbound.counter);
  }

  lemma ConservedBA(w: World, n: Net, pa: nat, pb: nat)
    requires Lawful(w.suite) && At(w, n, pa, pb)
    ensures InStep(n.b.sentTags, n.baTaken, n.a.inbound.counter, n.b.outbound.counter)
  {
    TagsOfEnds(w, n, pa, pb);
    CountersOfA(w, n, pa, pb);
    CountersOfB(w, n, pa, pb);
    InFlight(CipherBA(w, 0), OutB(pb, |n.bSent|), n.baTaken, n.b.sentTags, n.a.inbound.counter, n.b.outbound.counter);
  }

  /** Conservation, in both directions. */
  lemma CountersConserved(w: World, n: Net)
    requires Reachable(w, n)
    ensures InStep(n.a.sentTags, n.abTaken, n.b.inbound.counter, n.a.outbound.counter)
    ensures InStep(n.b.sentTags, n.baTaken, n.a.inbound.counter, n.b.outbound.counter)
  {
    var pa, pb := Reached(w, n);
    ConservedAB(w, n, pa, pb);
    ConservedBA(w, n, pa, pb);
  }

  lemma TagsDiffer(c: Cipher, n: nat, i: nat, j: nat)
    requires i < j < n && j < i + TWO_64
    ensures var t := Tags(c, n); t[i].Sealed? ==> t[i] != t[j]
  {
  }

  /** No two packets of a direction less than 2^64 apart are sealed with the same key and counter. */
  lemma NoncesNeverReused(w: World, n: Net, i: nat, j: nat)
    requires Reachable(w, n) && i < j < i + TWO_64
    ensures j < |n.a.sentTags| && n.a.sentTags[i].Sealed? ==> n.a.sentTags[i] != n.a.sentTags[j]
    ensures j < |n.b.sentTags| && n.b.sentTags[i].Sealed? ==> n.b.sentTags[i] != n.b.sentTags[j]
  {
    var pa, pb := Reached(w, n);
    if j < |n.a.sentTags| {
      TagsDiffer(CipherAB(w, 0), |n.a.out|, i, j);
    }
    if j < |n.b.sentTags| {
      TagsDiffer(CipherBA(w, 0), |n.b.out|, i, j);
    }
  }

  // ------------------------------------------------------------ the handshake

  /** An honest side fails and closes only by refusing the other's long-term key, as soon as it has read it. */
  lemma FailsIffDistrusts(w: World, n: Net)
    requires Reachable(w, n)
    ensures !n.a.fault && !n.b.fault
    ensures n.a.closed <==> n.a.kex.state == KF_Err
    ensures n.a.closed <==> n.baTaken >= 2 && !TrustA(w)
    ensures n.b.closed <==> n.b.kex.state == KF_Err
    ensures n.b.closed <==> n.abTaken >= 4 && !TrustB(w)
  {
    var pa, pb := Reached(w, n);
  }

  /** The two sides agree on everything the identity proof covers as soon as both have it. */
  lemma SecretsAgreeAtBothEnds(w: World, n: Net)
    requires Reachable(w, n)
    ensures n.a.kex.state in {K2_SHello, KF_Done} ==>
              && n.b.kex.state in {K3_SEnc, K4_CEnc, KF_Done, KF_Err}
              && n.a.kex.k == n.b.kex.k && n.a.kex.h == n.b.kex.h
              && n.a.kex.m1 == n.b.kex.m1 && n.a.kex.m2 == n.b.kex.m2
  {
    var pa, pb := Reached(w, n);
  }

  /** A finished server has a finished client, each knows the other's long-term key, and what the server
      checked is what the client signed. */
  lemma ServerDoneMeansClientDone(w: World, n: Net)
    requires Reachable(w, n) && n.b.kex.state == KF_Done
    ensures n.a.kex.state == KF_Done
    ensures n.b.kex.ltRemote == Some(w.suite.pub(w.ca.ltSelf)) && n.a.kex.ltRemote == Some(w.suite.pub(w.cb.ltSelf))
    ensures forall lt :: ProofHash(w.suite, n.b.kex.h, n.b.kex.m1, n.b.kex.m2, lt)
                      == ProofHash(w.suite, n.a.kex.h, n.a.kex.m1, n.a.kex.m2, lt)
  {
    var pa, pb := Reached(w, n);
  }

  /** Each side opens at most once: exactly when its exchange is done. */
  lemma OpensOnce(w: World, n: Net)
    requires Reachable(w, n)
    ensures n.a.opens == (if n.a.kex.state == KF_Done then 1 else 0)
    ensures n.b.opens == (if n.b.kex.state == KF_Done then 1 else 0)
  {
    var pa, pb := Reached(w, n);
  }

  // ------------------------------------------------------------ an ordered transport again

  lemma DeliveredPrefixes(w: World, n: Net)
    requires Reachable(w, n)
    ensures n.a.delivered <= n.bSent && n.b.delivered <= n.aSent
  {
    var pa, pb := Reached(w, n);
  }

  /** Data sent after the local open is never turned away at a side that accepts the sender: the packet at the
      head of the channel, when it is data, is delivered and is the next one sent. */
  lemma DataIsDelivered(w: World, n: Net)
    requires Reachable(w, n)
    ensures Enabled(n, ToB) && n.abTaken >= 4 && TrustB(w) ==>
              |n.b.delivered| < |n.aSent|
              && Next(w, n, ToB).b.delivered == n.b.delivered + [n.aSent[|n.b.delivered|]] && !Next(w, n, ToB).b.closed
    ensures Enabled(n, ToA) && n.baTaken >= 3 ==>
              |n.a.delivered| < |n.bSent|
              && Next(w, n, ToA).a.delivered == n.a.delivered + [n.bSent[|n.a.delivered|]] && !Next(w, n, ToA).a.closed
  {
    var pa, pb := Reached(w, n);
    if Enabled(n, ToB) && n.abTaken >= 4 && TrustB(w) {
      ServerReads(w, n, pa, pb, AfterReadB(w, pb));
      TakeNextWire(n.aSent, n.abTaken - 4);
    }
    if Enabled(n, ToA) && n.baTaken >= 3 {
      ClientReads(w, n, pa, pb, AfterReadA(w, pa));
      TakeNextWire(n.bSent, n.baTaken - 3);
    }
  }

  /** Nothing gets stuck: when a started pair that trust each other have read everything, both are open and
      everything sent was delivered. */
  lemma QuietMeansOpenAndDelivered(w: World, n: Net)
    requires Reachable(w, n) && n.started && TrustA(w) && TrustB(w)
    requires n.abTaken == |n.a.out| && n.baTaken == |n.b.out|
    ensures n.a.opens == n.b.opens == 1 && !n.a.closed && !n.b.closed
    ensures n.a.delivered == n.bSent && n.b.delivered == n.aSent
  {
    var pa, pb := Reached(w, n);
    assert pa == 4 && pb == 4;
    assert n.aSent[..|n.aSent|] == n.aSent && n.bSent[..|n.bSent|] == n.bSent;
  }

  // ------------------------------------------------------------ a second exchange

  lemma KexWhenDone(suite: Suite, cfg: Config, s: Session, p: Bytes)
    requires Lawful(suite) && !cfg.isClient && s.encIb && s.kex.state == KF_Done && p != [] && p[0] != KEXC_HELLO
    ensures var r := OnPacket(suite, cfg, s, Encrypted(suite, s.inbound, [KEX] + p)); r.closed && r.kex.state == KF_Err
  {
    SealedPacket(suite, cfg, s, [KEX] + p);
    assert ([KEX] + p)[1..] == p;
  }

  /** The code cannot rekey: whenever a finished client calls `init_kex` again and a finished server that has
      read everything else gets the message, the server fails and closes. */
  lemma RekeyAlwaysFails(w: World, n: Net)
    requires Reachable(w, n) && n.a.kex.state == n.b.kex.state == KF_Done && n.abTaken == |n.a.out|
    ensures var again := InitKex(w.suite, n.a);
            && |again.out| == |n.a.out| + 1 && again.kex.state == S1_M1
            && var b := OnPacket(w.suite, w.cb, n.b, again.out[|n.a.out|]);
            b.closed && b.kex.state == KF_Err
  {
    var pa, pb := Reached(w, n);
    assert n.b.inbound == n.a.outbound;
    KexWhenDone(w.suite, w.cb, n.b, M1);
  }
}
