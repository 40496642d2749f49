/** Two `OPTSession` objects at work: a client and a server carried through their key exchange and a
    conversation, one packet at a time. */
module SessionExchange {
  import opened Common
  import opened CipherModel
  import opened SessionModel
  import N = SessionNet
  import opened SessionTheorems
  import opened SessionEndpoint

  lemma {:induction false} RunSnoc(w: N.World, n: N.Net, steps: seq<N.Step>, step: N.Step)
    requires Lawful(w.suite) && N.Run(w, n, steps) && N.Enabled(N.Final(w, n, steps), step)
    ensures N.Run(w, n, steps + [step]) && N.Final(w, n, steps + [step]) == N.Next(w, N.Final(w, n, steps), step)
    decreases |steps|
  {
    if steps == [] {
      assert [step][1..] == [];
      assert N.Run(w, N.Next(w, n, step), []) && N.Final(w, N.Next(w, n, step), []) == N.Next(w, n, step);
    } else {
      RunSnoc(w, N.Next(w, n, steps[0]), steps[1..], step);
      assert (steps + [step])[1..] == steps[1..] + [step];
    }
  }

  lemma Reach(w: N.World, n: N.Net, step: N.Step)
    requires Reachable(w, n) && N.Enabled(n, step)
    ensures Reachable(w, N.Next(w, n, step))
  {
    var steps :| N.Run(w, N.INITIAL, steps) && n == N.Final(w, N.INITIAL, steps);
    RunSnoc(w, N.INITIAL, steps, step);
  }

  lemma InitialReachable(w: N.World)
    requires N.Honest(w)
    ensures Reachable(w, N.INITIAL)
  {
    assert N.Run(w, N.INITIAL, []) && N.Final(w, N.INITIAL, []) == N.INITIAL;
  }

  /** The packets of a run are bounded by what the users sent. */
  lemma PacketsBounded(w: N.World, n: N.Net)
    requires Reachable(w, n)
    ensures n.abTaken <= |n.a.out| <= 4 + |n.aSent| && n.baTaken <= |n.b.out| <= 3 + |n.bSent|
  {
    var pa, pb := Reached(w, n);
  }

  // ------------------------------------------------------------ the objects

  ghost function Parts(s: OptSession): set<object>
    reads s
  {
    {s, s.inbound, s.outbound, s.kex}
  }

  ghost predicate Is(s: OptSession, suite: Suite, cfg: Config)
    reads s
  {
    s.Valid() && s.suite == suite && s.cfg == cfg
  }

  /** The two objects are in the state `n` that some run reaches. */
  ghost predicate Tracks(w: N.World, a: OptSession, b: OptSession, n: N.Net)
    reads Parts(a), Parts(b)
  {
    && Is(a, w.suite, w.ca) && Is(b, w.suite, w.cb) && Parts(a) !! Parts(b)
    && a.State() == n.a && b.State() == n.b && Reachable(w, n) && n.started
  }

  method DeliverToA(ghost w: N.World, a: OptSession, b: OptSession, taken: nat, ghost n: N.Net) returns (ghost m: N.Net)
    requires Tracks(w, a, b, n) && taken == n.baTaken < |b.out|
    modifies Parts(a)
    ensures N.Enabled(n, N.ToA) && m == N.Next(w, n, N.ToA) && Tracks(w, a, b, m)
  {
    Reach(w, n, N.ToA);
    m := N.Next(w, n, N.ToA);
    a.OnPacket(b.out[taken]);
  }

  method DeliverToB(ghost w: N.World, a: OptSession, b: OptSession, taken: nat, ghost n: N.Net) returns (ghost m: N.Net)
    requires Tracks(w, a, b, n) && taken == n.abTaken < |a.out|
    modifies Parts(b)
    ensures N.Enabled(n, N.ToB) && m == N.Next(w, n, N.ToB) && Tracks(w, a, b, m)
  {
    Reach(w, n, N.ToB);
    m := N.Next(w, n, N.ToB);
    b.OnPacket(a.out[taken]);
  }

  method DeliverOne(ghost w: N.World, a: OptSession, b: OptSession, abTaken: nat, baTaken: nat, ghost n: N.Net)
    returns (i: nat, j: nat, ghost m: N.Net)
    requires Tracks(w, a, b, n) && abTaken == n.abTaken && baTaken == n.baTaken
    requires abTaken < |a.out| || baTaken < |b.out|
    modifies Parts(a), Parts(b)
    ensures Tracks(w, a, b, m) && i == m.abTaken && j == m.baTaken && i + j == abTaken + baTaken + 1
    ensures m.aSent == n.aSent && m.bSent == n.bSent
  {
    i, j := abTaken, baTaken;
    if
    case i < |a.out| =>
      m := DeliverToB(w, a, b, i, n);
      i := i + 1;
    case j < |b.out| =>
      m := DeliverToA(w, a, b, j, n);
      j := j + 1;
  }

  /** Delivers until nothing is in flight, the two channels in any order, with the packets the sessions
      themselves send meanwhile. */
  method Pump(ghost w: N.World, a: OptSession, b: OptSession, abTaken: nat, baTaken: nat, ghost n: N.Net)
    returns (i: nat, j: nat, ghost m: N.Net)
    requires Tracks(w, a, b, n) && abTaken == n.abTaken && baTaken == n.baTaken
    modifies Parts(a), Parts(b)
    ensures Tracks(w, a, b, m) && i == m.abTaken == |a.out| && j == m.baTaken == |b.out|
    ensures m.aSent == n.aSent && m.bSent == n.bSent
    ensures a.usedTags == b.sentTags && b.usedTags == a.sentTags
  {
    i, j, m := abTaken, baTaken, n;
    PacketsBounded(w, m);
    while i < |a.out| || j < |b.out|
      invariant Tracks(w, a, b, m) && i == m.abTaken <= |a.out| && j == m.baTaken <= |b.out|
      invariant m.aSent == n.aSent && m.bSent == n.bSent && i <= 4 + |n.aSent| && j <= 3 + |n.bSent|
      decreases 7 + |n.aSent| + |n.bSent| - i - j
    {
      i, j, m := DeliverOne(w, a, b, i, j, m);
      PacketsBounded(w, m);
    }
    Lockstep(w, m);
  }

  // ------------------------------------------------------------ a conversation

  /** A started pair that has read everything is open at both ends exactly if each trusts the other. */
  lemma OpenIffTrusted(w: N.World, n: N.Net)
    requires Reachable(w, n) && n.started && n.abTaken == |n.a.out| && n.baTaken == |n.b.out|
    ensures n.a.opens > 0 && n.b.opens > 0 <==> N.TrustA(w) && N.TrustB(w)
    ensures n.a.opens > 0 && n.b.opens > 0 ==> n.a.delivered == n.bSent && n.b.delivered == n.aSent
  {
    var pa, pb := Reached(w, n);
    if N.TrustA(w) && N.TrustB(w) {
      QuietMeansOpenAndDelivered(w, n);
    }
  }

  method SendA(ghost w: N.World, a: OptSession, b: OptSession, packet: Bytes, ghost n: N.Net) returns (ghost m: N.Net)
    requires Tracks(w, a, b, n) && n.a.opens > 0
    modifies a, a.outbound
    ensures Tracks(w, a, b, m) && m.a.opens == n.a.opens && m.b.opens == n.b.opens
    ensures m.aSent == n.aSent + [packet] && m.bSent == n.bSent && m.abTaken == n.abTaken && m.baTaken == n.baTaken
  {
    Reach(w, n, N.SendA(packet));
    m := N.Next(w, n, N.SendA(packet));
    a.Send(packet);
  }

  method SendB(ghost w: N.World, a: OptSession, b: OptSession, packet: Bytes, ghost n: N.Net) returns (ghost m: N.Net)
    requires Tracks(w, a, b, n) && n.b.opens > 0
    modifies b, b.outbound
    ensures Tracks(w, a, b, m) && m.a.opens == n.a.opens && m.b.opens == n.b.opens
    ensures m.bSent == n.bSent + [packet] && m.aSent == n.aSent && m.abTaken == n.abTaken && m.baTaken == n.baTaken
  {
    Reach(w, n, N.SendB(packet));
    m := N.Next(w, n, N.SendB(packet));
    b.Send(packet);
  }

  method TalkA(ghost w: N.World, a: OptSession, b: OptSession, data: seq<Bytes>, ghost n: N.Net) returns (ghost m: N.Net)
    requires Tracks(w, a, b, n) && n.a.opens > 0 && n.aSent == []
    modifies a, a.outbound
    ensures Tracks(w, a, b, m) && m.a.opens == n.a.opens && m.b.opens == n.b.opens
    ensures m.aSent == data && m.bSent == n.bSent && m.abTaken == n.abTaken && m.baTaken == n.baTaken
    decreases |data|
  {
    m := n;
    if data != [] {
      m := TalkA(w, a, b, data[..|data| - 1], m);
      m := SendA(w, a, b, data[|data| - 1], m);
    }
  }

  method TalkB(ghost w: N.World, a: OptSession, b: OptSession, data: seq<Bytes>, ghost n: N.Net) returns (ghost m: N.Net)
    requires Tracks(w, a, b, n) && n.b.opens > 0 && n.bSent == []
    modifies b, b.outbound
    ensures Tracks(w, a, b, m) && m.a.opens == n.a.opens && m.b.opens == n.b.opens
    ensures m.bSent == data && m.aSent == n.aSent && m.abTaken == n.abTaken && m.baTaken == n.baTaken
    decreases |data|
  {
    m := n;
    if data != [] {
      m := TalkB(w, a, b, data[..|data| - 1], m);
      m := SendB(w, a, b, data[|data| - 1], m);
    }
  }

  lemma StartReachable(w: N.World) returns (n: N.Net)
    requires N.Honest(w)
    ensures Reachable(w, n) && n == N.INITIAL.(a := OnOpen(w.suite, w.ca, NEW_SESSION), started := true)
  {
    InitialReachable(w);
    Reach(w, N.INITIAL, N.OpenA);
    n := N.Next(w, N.INITIAL, N.OpenA);
  }

  method Make(suite: Suite, ca: Config, cb: Config) returns (a: OptSession, b: OptSession)
    ensures Is(a, suite, ca) && Is(b, suite, cb) && Parts(a) !! Parts(b) && fresh(Parts(a)) && fresh(Parts(b))
    ensures a.State() == NEW_SESSION && b.State() == NEW_SESSION
  {
    b := new OptSession(suite, cb);
    a := new OptSession(suite, ca);
  }

  /** A new client and a new server, and the client's transport has opened. */
  method Start(ghost w: N.World, suite: Suite, ca: Config, cb: Config) returns (a: OptSession, b: OptSession, ghost n: N.Net)
    requires N.Honest(w) && w == N.World(suite, ca, cb)
    ensures Tracks(w, a, b, n) && fresh(Parts(a)) && fresh(Parts(b))
    ensures n.aSent == n.bSent == [] && n.abTaken == n.baTaken == 0
  {
    a, b := Make(suite, ca, cb);
    n := StartReachable(w);
    a.OnOpen();
  }

  /** A client and a server do their key exchange, send their packets and are done: they opened exactly if
      each trusts the other's key, and then each is given exactly what the other sent. */
  method Converse(suite: Suite, ca: Config, cb: Config, dataA: seq<Bytes>, dataB: seq<Bytes>)
    returns (both: bool, gotA: seq<Bytes>, gotB: seq<Bytes>)
    requires N.Honest(N.World(suite, ca, cb))
    ensures both <==> N.TrustA(N.World(suite, ca, cb)) && N.TrustB(N.World(suite, ca, cb))
    ensures both ==> gotA == dataB && gotB == dataA
    ensures !both ==> gotA == [] && gotB == []
  {
    ghost var w := N.World(suite, ca, cb);
    var a, b;
    ghost var n;
    a, b, n := Start(w, suite, ca, cb);
    var i, j;
    i, j, n := Pump(w, a, b, 0, 0, n);
    OpenIffTrusted(w, n);
    both := a.opens > 0 && b.opens > 0;
    if both {
      n := TalkA(w, a, b, dataA, n);
      n := TalkB(w, a, b, dataB, n);
      i, j, n := Pump(w, a, b, i, j, n);
      OpenIffTrusted(w, n);
    } else {
      DeliveredPrefixes(w, n);
    }
    gotA, gotB := a.delivered, b.delivered;
  }
}
