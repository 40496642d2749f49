/** Two `OPTUDP` objects over a network that loses, doubles and reorders their datagrams as it is told. */
module UdpExchange {
  import opened Common
  import opened Fragmentation
  import opened UdpModel
  import opened UdpWire
  import opened UdpRetransmit
  import opened UdpNetwork
  import opened UdpSafety
  import opened UdpTheorems
  import opened UdpLiveness
  import opened UdpEndpoint

  // ------------------------------------------------------------ a whole `send` as steps

  lemma BlockHead(index: nat, s: SeqNo, fs: seq<Fragment>)
    requires fs != []
    ensures Frames(index, s, fs) == [Frame(index, s, fs[0])] + Frames(index + 1, Plus(s, 1), fs[1..])
  {
    var frames, rest := Frames(index, s, fs), Frames(index + 1, Plus(s, 1), fs[1..]);
    forall k | 0 <= k < |rest| ensures frames[k + 1] == rest[k] {
      PlusPlus(s, 1, k);
    }
    assert frames[0] == Frame(index, s, fs[0]);
  }

  lemma EntriesHead(f: Frame, rest: seq<Frame>, clock: seq<Time>)
    requires |rest| < |clock|
    ensures FirstEntries([f] + rest, clock) == [TxEntry([clock[0]], f)] + FirstEntries(rest, clock[1..])
  {
  }

  lemma CopiesHead(f: Frame, rest: seq<Frame>)
    ensures Copies([f] + rest) == {Copy(f)} + Copies(rest)
  {
    var all := [f] + rest;
    assert Copy(all[0]) in Copies(all);
    forall c | c in Copies(rest) ensures c in Copies(all) {
      var k :| 0 <= k < |rest| && c == Copy(rest[k]);
      assert all[k + 1] == rest[k];
    }
  }

  /** `m` is `s` with these frames queued at these times and put on the network, and no `send` running. */
  ghost predicate Emitted(s: Sys, frames: seq<Frame>, clock: seq<Time>, m: Sys)
    requires |frames| <= |clock|
  {
    && m.tx == s.tx.(queue := s.tx.queue + FirstEntries(frames, clock)) && m.jobs == map[]
    && m.net == s.net + Copies(frames)
    && m.rx == s.rx && m.sent == s.sent && m.mode == s.mode && m.limit == s.limit
  }

  lemma EmittedMore(s: Sys, f: Frame, n: Sys, rest: seq<Frame>, clock: seq<Time>, m: Sys)
    requires |rest| < |clock| && Emitted(n, rest, clock[1..], m)
    requires n.tx == AfterEmit(s.tx, f, clock[0]) && n.net == s.net + {Copy(f)}
    requires n.rx == s.rx && n.sent == s.sent && n.mode == s.mode && n.limit == s.limit
    ensures Emitted(s, [f] + rest, clock, m)
  {
    EntriesHead(f, rest, clock);
    CopiesHead(f, rest);
    AppendAssoc(s.tx.queue, [TxEntry([clock[0]], f)], FirstEntries(rest, clock[1..]));
  }

  function After(j: Job): Job
    requires JobReady(j)
  {
    NextSizeFits(|j.msg| - j.progress, j.left);
    Job(j.msg, j.progress + NextSize(|j.msg| - j.progress, j.left), j.left - 1, j.next + 1, Plus(j.seqno, 1))
  }

  /** What a job has still to emit. */
  function Rest(j: Job): seq<Fragment>
    requires Splittable(j.msg, j.progress, j.left)
  {
    FragmentsFrom(j.msg, j.progress, j.left)
  }

  lemma RestHead(j: Job)
    requires JobReady(j)
    ensures Splittable(j.msg, After(j).progress, After(j).left) && (j.left > 1 ==> JobReady(After(j)))
    ensures |Rest(j)| == 1 + |Rest(After(j))| && Rest(j)[1..] == Rest(After(j))
    ensures EmittedFrame(j) == Frame(j.next, j.seqno, Rest(j)[0])
    ensures AfterJob(map[0 := j], 0) == if j.left == 1 then map[] else map[0 := After(j)]
  {
    FragmentsTail(j.msg, j.progress, j.left, NextSize(|j.msg| - j.progress, j.left));
  }

  function BlockOf(j: Job): seq<Frame>
    requires Splittable(j.msg, j.progress, j.left)
  {
    Frames(j.next, j.seqno, Rest(j))
  }

  lemma BlockOfHead(j: Job)
    requires JobReady(j)
    ensures Splittable(j.msg, After(j).progress, After(j).left)
    ensures BlockOf(j) == [EmittedFrame(j)] + BlockOf(After(j))
  {
    RestHead(j);
    BlockHead(j.next, j.seqno, Rest(j));
  }

  /** One emission, and all that follow it. */
  lemma EmitJoins(s: Sys, j: Job, clock: seq<Time>, n: Sys, rest: seq<Frame>, m: Sys)
    requires s.jobs == map[0 := j] && JobReady(j) && |rest| < |clock| && n == Next(s, Emit(0, clock[0]))
    requires Reaches(n, m) && Emitted(n, rest, clock[1..], m)
    ensures Reaches(s, m) && Emitted(s, [EmittedFrame(j)] + rest, clock, m)
  {
    EmittedMore(s, EmittedFrame(j), n, rest, clock, m);
    ReachesFirst(s, Emit(0, clock[0]), m);
  }

  lemma EmitLast(s: Sys, j: Job, clock: seq<Time>) returns (m: Sys)
    requires s.jobs == map[0 := j] && JobReady(j) && j.left == 1 && clock != []
    ensures Reaches(s, m) && Emitted(s, [EmittedFrame(j)], clock, m)
  {
    m := Next(s, Emit(0, clock[0]));
    RestHead(j);
    ReachesSelf(m);
    NoMore(m, clock[1..]);
    EmitJoins(s, j, clock, m, [], m);
    assert [EmittedFrame(j)] + [] == [EmittedFrame(j)];
  }

  /** A lone running `send` emits the rest of its message. */
  lemma {:induction false} EmitRest(s: Sys, j: Job, block: seq<Frame>, clock: seq<Time>) returns (m: Sys)
    requires s.jobs == map[0 := j] && JobReady(j) && block == BlockOf(j) && |block| <= |clock|
    ensures Reaches(s, m) && Emitted(s, block, clock, m)
    decreases j.left
  {
    BlockOfHead(j);
    RestHead(j);
    var rest := BlockOf(After(j));
    assert block == [EmittedFrame(j)] + rest;
    if j.left == 1 {
      assert rest == [];
      assert block == [EmittedFrame(j)];
      m := EmitLast(s, j, clock);
    } else {
      var n := Next(s, Emit(0, clock[0]));
      m := EmitRest(n, After(j), rest, clock[1..]);
      EmitJoins(s, j, clock, n, rest, m);
    }
  }

  lemma NoMore(n: Sys, clock: seq<Time>)
    requires n.jobs == map[]
    ensures Emitted(n, [], clock, n)
  {
    assert Copies([]) == {};
    assert n.tx.queue + FirstEntries([], clock) == n.tx.queue;
  }

  /** A `send` with nothing else running, from the reservation to the last frame. */
  lemma SendReaches(s: Sys, msg: Message, clock: seq<Time>) returns (m: Sys)
    requires Inv(s) && s.jobs == map[] && msg != [] && |Fragments(msg, s.limit)| <= |clock|
    ensures Reaches(s, m)
    ensures var r := s.(tx := AfterReserve(s.tx, ReservedCount(|msg|, s.limit)), sent := s.sent + [msg]);
            Emitted(r, Frames(s.tx.txIndex, s.tx.txSeq, Fragments(msg, s.limit)), clock, m)
  {
    var count := ReservedCount(|msg|, s.limit);
    ReservedSplits(msg, s.limit);
    FragmentationCorrect(msg, s.limit);
    var j := Job(msg, 0, count, s.tx.txIndex, s.tx.txSeq);
    var n := Next(s, Reserve(0, msg));
    assert n.jobs == map[0 := j];
    m := EmitRest(n, j, BlockOf(j), clock);
    ReachesFirst(s, Reserve(0, msg), m);
  }

  // ------------------------------------------------------------ the objects

  /** Of what the datagrams each side has put on the network are copies. */
  datatype Wire = Wire(fromA: seq<Flight>, fromB: seq<Flight>)

  ghost predicate IsCopy(b: Bytes, f: Flight)
  {
    match f
    case DataFlight(_, seqno, frag) => Decode(b) == Data(seqno, frag)
    case AckFlight(_, seqno) => Decode(b) == Ack(seqno)
  }

  ghost predicate Labelled(out: seq<Bytes>, flights: seq<Flight>, net: set<Flight>)
  {
    |out| == |flights| && forall k :: 0 <= k < |out| ==> flights[k] in net && IsCopy(out[k], flights[k])
  }

  ghost predicate AllData(flights: seq<Flight>)
  {
    forall k :: 0 <= k < |flights| ==> flights[k].DataFlight?
  }

  ghost predicate AllAcks(flights: seq<Flight>)
  {
    forall k :: 0 <= k < |flights| ==> flights[k].AckFlight?
  }

  /** The sending object and the receiving one are in the state `n` that some run reaches. */
  ghost predicate Tracks(a: OptUdp, b: OptUdp, w: Wire, n: Sys)
    reads a, b
  {
    && a != b && a.Valid() && b.Valid() && n.mode == FullSeq && n.limit == a.maxMtu - 5 && n.jobs == map[]
    && a.Tx() == n.tx && b.Rx() == n.rx && Reaches(Initial(FullSeq, n.limit), n)
    && Labelled(a.socketOut, w.fromA, n.net) && AllData(w.fromA)
    && Labelled(b.socketOut, w.fromB, n.net) && AllAcks(w.fromB)
  }

  lemma ReachedInv(limit: nat, n: Sys)
    requires 0 < limit && Reaches(Initial(FullSeq, limit), n)
    ensures Inv(n)
  {
    var steps :| Run(Initial(FullSeq, limit), steps) && n == Final(Initial(FullSeq, limit), steps);
    Reachable(FullSeq, limit, steps);
  }

  function CopyList(frames: seq<Frame>): (r: seq<Flight>)
    ensures |r| == |frames|
  {
    seq(|frames|, k requires 0 <= k < |frames| => Copy(frames[k]))
  }

  lemma {:induction false} EncodedAt(frames: seq<Frame>, k: nat)
    requires k < |frames|
    ensures EncodeAll(frames)[k] == EncodeData(frames[k].seqno, frames[k].frag)
  {
    if k < |frames| - 1 {
      EncodedAt(frames[..|frames| - 1], k);
    }
  }

  lemma BlockLabelled(out: seq<Bytes>, flights: seq<Flight>, net: set<Flight>, frames: seq<Frame>)
    requires Labelled(out, flights, net) && AllData(flights)
    ensures Labelled(out + EncodeAll(frames), flights + CopyList(frames), net + Copies(frames))
    ensures AllData(flights + CopyList(frames))
  {
    var more, labels := out + EncodeAll(frames), flights + CopyList(frames);
    forall k | 0 <= k < |more| ensures labels[k] in net + Copies(frames) && IsCopy(more[k], labels[k]) {
      if |out| <= k {
        EncodedAt(frames, k - |out|);
        DataRoundTrip(frames[k - |out|].seqno, frames[k - |out|].frag);
        assert Copy(frames[k - |out|]) in Copies(frames);
      }
    }
  }

  lemma StillLabelled(out: seq<Bytes>, flights: seq<Flight>, net: set<Flight>, more: set<Flight>)
    requires Labelled(out, flights, net) && net <= more
    ensures Labelled(out, flights, more)
  {
  }

  // ------------------------------------------------------------ what the network and the clock do

  method SendMessage(a: OptUdp, b: OptUdp, w: Wire, msg: Message, now: Time, delta: nat, ghost n: Sys)
    returns (w': Wire, ghost m: Sys)
    requires Tracks(a, b, w, n) && msg != []
    modifies a
    ensures Tracks(a, b, w', m) && m.sent == n.sent + [msg]
  {
    var frames := Frames(a.txIndex, a.txSeq, Fragments(msg, a.maxMtu - 5));
    var clock := seq(|frames|, _ => now);
    ReachedInv(n.limit, n);
    m := SendReaches(n, msg, clock);
    ReachesTransitive(Initial(FullSeq, n.limit), n, m);
    BlockLabelled(a.socketOut, w.fromA, n.net, frames);
    StillLabelled(b.socketOut, w.fromB, n.net, m.net);
    a.Send(msg, clock, delta);
    w' := w.(fromA := w.fromA + CopyList(frames));
  }

  method FireTimer(a: OptUdp, b: OptUdp, w: Wire, now: Time, delta: nat, ghost n: Sys) returns (w': Wire, ghost m: Sys)
    requires Tracks(a, b, w, n) && MIN_DELTA <= delta <= MAX_DELTA
    modifies a
    ensures Tracks(a, b, w', m) && m.sent == n.sent
  {
    var frames := Resent(a.transmitQueue, now, delta);
    m := Next(n, Retransmit(now, delta));
    OneStep(n, Retransmit(now, delta), m);
    BlockLabelled(a.socketOut, w.fromA, n.net, frames);
    StillLabelled(b.socketOut, w.fromB, n.net, m.net);
    a.OnRetransmitTimer(now, delta);
    w' := w.(fromA := w.fromA + CopyList(frames));
  }

  lemma OneStep(n: Sys, step: Step, m: Sys)
    requires Reaches(Initial(FullSeq, n.limit), n) && Enabled(n, step) && m == Next(n, step)
    ensures Reaches(Initial(FullSeq, n.limit), m)
  {
    ReachesSelf(m);
    ReachesFirst(n, step, m);
    ReachesTransitive(Initial(FullSeq, n.limit), n, m);
  }

  lemma AckLabelled(out: seq<Bytes>, flights: seq<Flight>, net: set<Flight>, index: nat, s: SeqNo)
    requires Labelled(out, flights, net) && AllAcks(flights)
    ensures var ack := AckFlight(index, s);
            Labelled(out + [EncodeAck(s)], flights + [ack], net + {ack}) && AllAcks(flights + [ack])
  {
    AckRoundTrip(s);
  }

  /** A copy of datagram `k` of the sender arrives. */
  method ToReceiver(a: OptUdp, b: OptUdp, w: Wire, k: nat, now: Time, delta: nat, ghost n: Sys) returns (w': Wire, ghost m: Sys)
    requires Tracks(a, b, w, n) && k < |w.fromA| && InWindow(w.fromA[k].index, b.rxIndex)
    modifies b
    ensures Tracks(a, b, w', m) && m.sent == n.sent
  {
    var f := w.fromA[k];
    assert f in n.net && IsCopy(a.socketOut[k], f);
    m := Next(n, Arrive(f));
    OneStep(n, Arrive(f), m);
    StillLabelled(a.socketOut, w.fromA, n.net, m.net);
    AckLabelled(b.socketOut, w.fromB, n.net, f.index, f.seqno);
    b.OnReceive(a.socketOut[k], now, delta);
    w' := w.(fromB := w.fromB + [AckFlight(f.index, f.seqno)]);
  }

  /** A copy of acknowledgement `k` of the receiver arrives. */
  method ToSender(a: OptUdp, b: OptUdp, w: Wire, k: nat, now: Time, delta: nat, ghost n: Sys) returns (ghost m: Sys)
    requires Tracks(a, b, w, n) && k < |w.fromB| && AckInWindow(w.fromB[k].index, a.transmitQueue)
    modifies a
    ensures Tracks(a, b, w, m) && m.sent == n.sent
  {
    var f := w.fromB[k];
    assert f in n.net && IsCopy(b.socketOut[k], f);
    m := Next(n, Arrive(f));
    OneStep(n, Arrive(f), m);
    a.OnReceive(b.socketOut[k], now, delta);
  }

  // ------------------------------------------------------------ a whole transfer

  /** A message is sent, the timer fires, or a copy of any datagram put on the network so far arrives at the other
      side. What is never chosen is lost. */
  datatype Choice =
    | Post(msg: Message, now: Time, delta: nat)
    | Fire(now: Time, delta: nat)
    | ToB(k: nat, now: Time, delta: nat)
    | ToA(k: nat, now: Time, delta: nat)

  function Posted(choices: seq<Choice>): (r: seq<Message>)
  {
    if choices == [] then []
    else
      var init, last := choices[..|choices| - 1], choices[|choices| - 1];
      if last.Post? && last.msg != [] then Posted(init) + [last.msg] else Posted(init)
  }

  /** One choice; one that cannot be (nothing there yet, outside the window, no such delay) does nothing. */
  method Happen(a: OptUdp, b: OptUdp, w: Wire, c: Choice, ghost n: Sys) returns (w': Wire, ghost m: Sys)
    requires Tracks(a, b, w, n)
    modifies a, b
    ensures Tracks(a, b, w', m) && m.limit == n.limit
    ensures m.sent == if c.Post? && c.msg != [] then n.sent + [c.msg] else n.sent
  {
    w', m := w, n;
    match c
    case Post(msg, now, delta) =>
      if msg != [] {
        w', m := SendMessage(a, b, w, msg, now, delta, n);
      }
    case Fire(now, delta) =>
      if MIN_DELTA <= delta <= MAX_DELTA {
        w', m := FireTimer(a, b, w, now, delta, n);
      }
    case ToB(k, now, delta) =>
      if k < |w.fromA| && InWindow(w.fromA[k].index, b.rxIndex) {
        w', m := ToReceiver(a, b, w, k, now, delta, n);
      }
    case ToA(k, now, delta) =>
      if k < |w.fromB| && AckInWindow(w.fromB[k].index, a.transmitQueue) {
        m := ToSender(a, b, w, k, now, delta, n);
      }
  }

  method Start(mtu: nat) returns (a: OptUdp, b: OptUdp, ghost n: Sys)
    requires 5 < mtu <= 0xffff
    ensures fresh(a) && fresh(b) && a.maxMtu == mtu && Tracks(a, b, Wire([], []), n) && n.sent == []
  {
    b := new OptUdp(mtu);
    a := new OptUdp(mtu);
    n := Initial(FullSeq, mtu - 5);
    ReachesSelf(n);
  }

  lemma Outcome(limit: nat, n: Sys)
    requires 0 < limit && Reaches(Initial(FullSeq, limit), n)
    ensures n.rx.delivered <= n.sent
    ensures n.jobs == map[] && n.tx.queue == [] ==> (n.rx.delivered == n.sent <==> n.usable == n.emitted)
    ensures (exists m :: Reaches(n, m) && m.sent == n.sent && m.rx.delivered == n.sent) <==> forall j :: !Stalled(n, j)
  {
    var steps :| Run(Initial(FullSeq, limit), steps) && n == Final(Initial(FullSeq, limit), steps);
    DeliveredIsPrefix(FullSeq, limit, steps);
    DeliverableIff(FullSeq, limit, steps);
    if n.jobs == map[] && n.tx.queue == [] {
      QuietMeansDeliveredIff(FullSeq, limit, steps);
    }
  }

  /** Two objects from creation on, whatever the network does: what comes out is a prefix of what was sent. Once
      nothing is queued it is all of it exactly if a usable copy of every fragment came through; and until then
      it can still be exactly if no fragment is stalled. */
  method Transfer(mtu: nat, choices: seq<Choice>) returns (got: seq<Bytes>, quiet: bool, ghost n: Sys)
    requires 5 < mtu <= 0xffff
    ensures Reaches(Initial(FullSeq, mtu - 5), n) && n.rx.delivered == got && n.sent == Posted(choices)
    ensures got <= Posted(choices)
    ensures quiet ==> (got == Posted(choices) <==> n.usable == n.emitted)
    ensures (exists m :: Reaches(n, m) && m.sent == n.sent && m.rx.delivered == n.sent) <==> forall j :: !Stalled(n, j)
  {
    var a, b;
    a, b, n := Start(mtu);
    var w := Wire([], []);
    for k := 0 to |choices|
      invariant Tracks(a, b, w, n) && n.limit == mtu - 5 && n.sent == Posted(choices[..k])
    {
      assert choices[..k + 1][..k] == choices[..k];
      w, n := Happen(a, b, w, choices[k], n);
    }
    assert choices[..|choices|] == choices;
    Outcome(mtu - 5, n);
    got, quiet := b.delivered, a.transmitQueue == [];
  }
}
