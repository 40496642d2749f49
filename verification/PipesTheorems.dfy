/** What multiplexed pipes promise, in every run of two endpoints under every interleaving of opening,
    accepting, sending, closing, dropping, expiring and the transport closing. */
module PipesTheorems {
  import opened Common
  import opened PipesModel
  import opened PipesPair
  import opened PipesNet

  ghost predicate Reachable(n: Net)
  {
    exists steps :: Run(INITIAL, steps) && n == Final(INITIAL, steps)
  }

  lemma Reached(n: Net)
    requires Reachable(n)
    ensures Inv(n)
  {
    var steps :| Run(INITIAL, steps) && n == Final(INITIAL, steps);
    InitialInv();
    RunKeepsInv(INITIAL, steps);
  }

  lemma ReachedPair(n: Net, id: U32)
    requires Reachable(n)
    ensures n.fromA <= |n.a.out| && n.fromB <= |n.b.out| && PairInv(ViewOf(n, id))
  {
    Reached(n);
  }

  // ------------------------------------------------------------ one pipe, both ends

  /** What each end was given is a prefix of what the other end sent, whatever was closed or dropped when. */
  lemma DeliveredPrefixes(n: Net, id: U32)
    requires Reachable(n) && id in n.a.pipes && id in n.b.pipes
    ensures Got(n.a.pipes[id].log) <= n.b.pipes[id].sent && Got(n.b.pipes[id].log) <= n.a.pipes[id].sent
  {
    ReachedPair(n, id);
  }

  /** An open initiator has an acceptor that is open or has closed, and nothing is missing on the way to an
      acceptor still open. */
  lemma OpenMeansAccepted(n: Net, id: U32)
    requires Reachable(n)
    ensures n.fromA <= |n.a.out| && n.fromB <= |n.b.out|
    ensures var v := ViewOf(n, id);
            v.o.Some? && v.o.value.state == Opened ==>
              && v.p.Some? && v.p.value.state in {Opened, Closed} && |v.toP| <= |v.o.value.sent|
              && (v.p.value.state == Opened ==> v.o.value.sent == Got(v.p.value.log) + Last(v.o.value.sent, |v.toP|)
                                                && v.toP == DataAll(Last(v.o.value.sent, |v.toP|)))
  {
    ReachedPair(n, id);
    var v := ViewOf(n, id);
    if v.o.Some? && v.o.value.state == Opened {
      OpenPair(EndOf(v.o.value), EndOf(v.p.value), v.toP, v.toO);
    }
  }

  lemma OpenPair(o: End, p: End, toP: seq<Body>, toO: seq<Body>)
    requires WhenOpened(o, Some(p), toP, toO) && p.got <= o.sent
    ensures p.state in {Opened, Closed} && |toP| <= |o.sent|
    ensures p.state == Opened ==> o.sent == p.got + Last(o.sent, |toP|) && toP == DataAll(Last(o.sent, |toP|))
  {
    assert o.sent == o.sent[..|o.sent| - |toP|] + o.sent[|o.sent| - |toP|..];
  }

  /** While the initiator still waits, the response of an acceptor that opened is ahead of all its data. */
  lemma ResponseAhead(n: Net, id: U32)
    requires Reachable(n)
    ensures n.fromA <= |n.a.out| && n.fromB <= |n.b.out|
    ensures var v := ViewOf(n, id);
            v.o.Some? && v.o.value.state == OpenRequestSent && v.p.Some? && v.p.value.state == Opened ==>
              v.toO == [Resp] + DataAll(v.p.value.sent)
  {
    ReachedPair(n, id);
  }

  datatype Settled = Unstarted | PendingBoth | OpenBoth | GoneBoth | PendingDropped

  /** An end that its own user and timer never closed was given everything the other end ever sent. */
  ghost predicate NothingOwed(v: View)
    requires v.o.Some?
  {
    && (!v.o.value.closedHere ==> v.p.Some? && Got(v.o.value.log) == v.p.value.sent)
    && (v.p.Some? && !v.p.value.closedHere ==> Got(v.p.value.log) == v.o.value.sent)
  }

  ghost predicate Is(v: View, s: Settled)
  {
    match s
    case Unstarted => v.p == None && (v.o == None || v.o.value.state == Fresh)
    case PendingBoth => v.o.Some? && v.o.value.state == OpenRequestSent
                        && v.p.Some? && v.p.value.state == OpenRequestRecv && v.p.value.registered
    case OpenBoth => v.o.Some? && v.o.value.state == Opened && v.p.Some? && v.p.value.state == Opened
                     && Got(v.o.value.log) == v.p.value.sent && Got(v.p.value.log) == v.o.value.sent
    case GoneBoth => v.o.Some? && v.o.value.state == Closed && (v.p.Some? ==> !v.p.value.registered) && NothingOwed(v)
    case PendingDropped => v.o.Some? && v.o.value.state == OpenRequestSent && v.p.Some? && !v.p.value.registered
  }

  lemma PairSettles(v: View) returns (s: Settled)
    requires PairInv(v) && v.toP == [] && v.toO == []
    ensures Is(v, s)
  {
    if v.o == None || v.o.value.state == Fresh {
      s := Unstarted;
    } else if v.o.value.state == Opened {
      s := OpenBoth;
      assert |Got(v.o.value.log)| == |v.p.value.sent|;
    } else if v.o.value.state == Closed {
      s := GoneBoth;
    } else {
      s := if v.p.value.registered then PendingBoth else PendingDropped;
    }
  }

  /** Once both channels are empty every id is unstarted, pending at both ends, open at both with everything
      delivered, gone at both, or waiting for an acceptor that dropped it. */
  lemma QuietMeansSettled(n: Net, id: U32, v: View) returns (s: Settled)
    requires Reachable(n) && n.fromA == |n.a.out| && n.fromB == |n.b.out| && v == ViewOf(n, id)
    ensures Is(v, s)
  {
    ReachedPair(n, id);
    assert n.a.out[n.fromA..] == [] && n.b.out[n.fromB..] == [];
    s := PairSettles(v);
  }

  // ------------------------------------------------------------ callbacks

  ghost predicate EndsOf(n: Net, e: Endpoint)
  {
    e == n.a || e == n.b
  }

  lemma PipeOfEnd(n: Net, e: Endpoint, id: U32)
    requires Reachable(n) && EndsOf(n, e) && id in e.pipes
    ensures PipeOk(e.pipes[id]) && DownOk(e.pipes[id], e.down)
  {
    Reached(n);
    assert PairInv(ViewOf(n, id));
  }

  /** No packet callback before the open, at most one open callback, and nothing at all after the close
      callback, which has fired exactly if the pipe is closed. `on_close` called back once exactly if the pipe
      was registered when the transport closed, and after that nothing from the other end is called back. */
  lemma CallbacksInOrder(n: Net, e: Endpoint, id: U32)
    requires Reachable(n) && EndsOf(n, e) && id in e.pipes
    ensures var p := e.pipes[id];
            && WellOrdered(p.log) && Count(p.log, OpenCb) <= 1
            && Count(p.log, CloseCb) == (if p.state == Closed then 1 else 0)
            && Count(p.log, DownCb) == (if p.heldDown then 1 else 0)
            && SilentOnceDown(p.log, p.initiator)
  {
    PipeOfEnd(n, e, id);
    PhaseMeans(e.pipes[id].log);
  }

  /** Hence the user of a pipe hears of at most one close exactly unless the pipe was registered when the
      transport closed and is closed now. */
  lemma OneCloseIff(n: Net, e: Endpoint, id: U32)
    requires Reachable(n) && EndsOf(n, e) && id in e.pipes
    ensures var p := e.pipes[id];
            Count(p.log, CloseCb) + Count(p.log, DownCb) <= 1 <==> !(p.heldDown && p.state == Closed)
  {
    CallbacksInOrder(n, e, id);
  }

  lemma {:induction false} RunSnoc(n: Net, steps: seq<Step>, s: Step)
    requires Run(n, steps) && Enabled(Final(n, steps), s)
    ensures Run(n, steps + [s]) && Final(n, steps + [s]) == Next(Final(n, steps), s)
    decreases |steps|
  {
    if steps == [] {
      assert [s][1..] == [];
      assert Run(Next(n, s), []) && Final(Next(n, s), []) == Next(n, s);
    } else {
      RunSnoc(Next(n, steps[0]), steps[1..], s);
      assert (steps + [s])[1..] == steps[1..] + [s];
    }
  }

  lemma Reach(n: Net, s: Step)
    requires Reachable(n) && Enabled(n, s)
    ensures Reachable(Next(n, s))
  {
    var steps :| Run(INITIAL, steps) && n == Final(INITIAL, steps);
    RunSnoc(INITIAL, steps, s);
  }

  lemma InitialReachable()
    ensures Reachable(INITIAL)
  {
    assert Run(INITIAL, []) && Final(INITIAL, []) == INITIAL;
  }

  /** The second close needs no user: the transport closes under a requested pipe, `on_close` leaves its state
      alone, and its expiry timer closes it. */
  lemma ClosesTwice() returns (n: Net)
    ensures Reachable(n) && 1 in n.a.pipes && n.a.pipes[1].log == [DownCb, CloseCb]
  {
    InitialReachable();
    Reach(INITIAL, Step(true, Open));
    var n1 := Next(INITIAL, Step(true, Open));
    assert n1.a.pipes[1] == NewPipe(true);
    Reach(n1, Step(true, Act.Use(1, Start)));
    var n2 := Next(n1, Step(true, Act.Use(1, Start)));
    assert n2.a.pipes[1] == NewPipe(true).(state := OpenRequestSent);
    Reach(n2, Step(true, Down));
    var n3 := Next(n2, Step(true, Down));
    assert n3.a.pipes[1] == Downed(n2.a.pipes[1]) && n3.a.pipes[1].log == [DownCb];
    Reach(n3, Step(true, Act.Use(1, Expire)));
    n := Next(n3, Step(true, Act.Use(1, Expire)));
    assert n.a.pipes[1].log == [DownCb] + [CloseCb];
  }

  // ------------------------------------------------------------ states only move forward

  function Rank(s: OpenState): nat
  {
    match s
    case Fresh => 0
    case OpenRequestSent => 1
    case OpenRequestRecv => 1
    case Opened => 2
    case Closed => 3
  }

  /** `q` is `p` later on. */
  ghost predicate Later(p: Pipe, q: Pipe)
  {
    Rank(p.state) <= Rank(q.state) && p.log <= q.log && p.sent <= q.sent && p.initiator == q.initiator
    && (q.registered ==> p.registered) && (q.owned ==> p.owned)
  }

  ghost predicate AllLater(e: Endpoint, f: Endpoint)
  {
    forall id :: id in e.pipes ==> id in f.pipes && Later(e.pipes[id], f.pipes[id])
  }

  lemma HearsLater(p: Pipe, b: Body)
    requires PipeOk(p)
    ensures Later(p, Hears(p, b))
  {
  }

  lemma ApplyLater(p: Pipe, op: Op)
    requires PipeOk(p) && Allowed(p, op)
    ensures Later(p, Apply(p, op))
  {
  }

  /** A request never meets an object of its id. */
  lemma NoSecondRequest(n: Net, x: Packet)
    requires Inv(n) && EnabledA(n, Deliver) && x == n.b.out[n.fromB]
    requires x.id in n.a.pipes && !Mine(n.a.isClient, x.id)
    ensures !x.body.Req?
  {
    var v := ViewOf(n, x.id);
    assert PairInv(v);
    assert n.b.out[n.fromB..][0] == x;
    FilterHead(n.b.out[n.fromB..], x.id);
    PGetsDataOrClose(EndOf(v.o.value), EndOf(v.p.value), v.toP, v.toO);
  }

  lemma PipeOfA(n: Net, id: U32)
    requires Inv(n) && id in n.a.pipes
    ensures PipeOk(n.a.pipes[id])
  {
    assert PairInv(ViewOf(n, id));
  }

  lemma DeliverLater(n: Net, x: Packet, e: Endpoint)
    requires Inv(n) && EnabledA(n, Deliver) && x == n.b.out[n.fromB] && e == OnPacket(n.a, x)
    ensures AllLater(n.a, e)
  {
    if x.id in n.a.pipes {
      PipeOfA(n, x.id);
      HearsLater(n.a.pipes[x.id], x.body);
      if !Mine(n.a.isClient, x.id) {
        NoSecondRequest(n, x);
      }
    }
  }

  lemma StepLater(n: Net, act: Act, e: Endpoint)
    requires Inv(n) && EnabledA(n, act) && e == NextA(n, act).a
    ensures AllLater(n.a, e)
  {
    match act
    case Open => FreshId(n.a);
    case Use(id, op) =>
      PipeOfA(n, id);
      ApplyLater(n.a.pipes[id], op);
    case Deliver => DeliverLater(n, n.b.out[n.fromB], e);
    case Down =>
  }

  lemma LaterTransitive(e: Endpoint, f: Endpoint, g: Endpoint)
    requires AllLater(e, f) && AllLater(f, g)
    ensures AllLater(e, g)
  {
  }

  lemma StepOnlyAdvances(n: Net, s: Step)
    requires Inv(n) && Enabled(n, s)
    ensures AllLater(n.a, Next(n, s).a) && AllLater(n.b, Next(n, s).b)
  {
    if s.atA {
      StepLater(n, s.act, Next(n, s).a);
    } else {
      SwapInv(n);
      StepLater(Swap(n), s.act, Next(n, s).b);
    }
  }

  /** Along every run no pipe disappears, no state moves back and no history is rewritten. */
  lemma {:induction false} RunOnlyAdvances(n: Net, steps: seq<Step>)
    requires Inv(n) && Run(n, steps)
    ensures AllLater(n.a, Final(n, steps).a) && AllLater(n.b, Final(n, steps).b)
    decreases |steps|
  {
    if steps != [] {
      var m := Next(n, steps[0]);
      StepOnlyAdvances(n, steps[0]);
      StepKeepsInv(n, steps[0]);
      RunOnlyAdvances(m, steps[1..]);
      LaterTransitive(n.a, m.a, Final(n, steps).a);
      LaterTransitive(n.b, m.b, Final(n, steps).b);
    }
  }

  // ------------------------------------------------------------ ids

  /** While fewer than 2^31 pipes were opened at an endpoint, the id it gives out next is in use at neither. */
  lemma NextIdIsNew(n: Net, e: Endpoint)
    requires Reachable(n) && EndsOf(n, e) && e.count < HALF_IDS
    ensures e.nextId !in n.a.pipes && e.nextId !in n.b.pipes
  {
    Reached(n);
    FreshId(e);
    assert PairInv(ViewOf(n, e.nextId));
  }
}
