/** Two `OPTPipes` objects at work: delivering what is in flight, and a whole exchange over one pipe. */
module PipesExchange {
  import opened Common
  import opened PipesModel
  import opened PipesPair
  import N = PipesNet
  import opened PipesTheorems
  import opened PipesEndpoint

  /** The two objects are in the state `n` that some run reaches, with their transports up. */
  ghost predicate Tracks(a: OptPipes, b: OptPipes, fromA: nat, fromB: nat, n: N.Net)
    reads a, b, a.all.Values, b.all.Values
  {
    && a != b && a.Valid() && b.Valid()
    && n == N.Net(a.State(), b.State(), fromA, fromB) && Reachable(n) && !n.a.down && !n.b.down
  }

  // ------------------------------------------------------------ what reading leaves alone

  ghost predicate SaidSame(e: Endpoint, f: Endpoint)
  {
    forall id :: id in e.pipes ==>
      id in f.pipes && f.pipes[id].sent == e.pipes[id].sent && f.pipes[id].closedHere == e.pipes[id].closedHere
  }

  /** `f` is `e` later on, its pipes having sent nothing and closed nothing of their own since. */
  ghost predicate OnlyRead(e: Endpoint, f: Endpoint)
  {
    AllLater(e, f) && SaidSame(e, f) && f.out == e.out && f.isClient == e.isClient
  }

  lemma NothingRead(e: Endpoint)
    ensures OnlyRead(e, e)
  {
  }

  lemma OnlyReadTransitive(e: Endpoint, f: Endpoint, g: Endpoint)
    requires OnlyRead(e, f) && OnlyRead(f, g)
    ensures OnlyRead(e, g)
  {
    LaterTransitive(e, f, g);
  }

  lemma ReceiveSaysNothing(p: Pipe, mine: bool, body: Body, q: Option<Pipe>)
    requires (body.Req? ==> mine) && q == Receive(Some(p), mine, body)
    ensures q.Some? && q.value.sent == p.sent && q.value.closedHere == p.closedHere
  {
  }

  /** A request is not about a pipe there is. */
  ghost predicate OnlyMeetsNew(e: Endpoint, x: Packet)
  {
    x.id in e.pipes && !Mine(e.isClient, x.id) ==> !x.body.Req?
  }

  lemma PacketSaysNothing(e: Endpoint, x: Packet)
    requires OnlyMeetsNew(e, x)
    ensures SaidSame(e, OnPacket(e, x))
  {
    if x.id in e.pipes {
      var p := e.pipes[x.id];
      ReceiveSaysNothing(p, Mine(e.isClient, x.id), x.body, Receive(Some(p), Mine(e.isClient, x.id), x.body));
    }
  }

  lemma DeliverOnlyReads(n: N.Net, x: Packet, f: Endpoint)
    requires N.Inv(n) && N.EnabledA(n, N.Deliver) && x == n.b.out[n.fromB] && f == OnPacket(n.a, x)
    ensures OnlyRead(n.a, f)
    ensures OnlyMeetsNew(n.a, x)
  {
    if x.id in n.a.pipes && !Mine(n.a.isClient, x.id) {
      NoSecondRequest(n, x);
    }
    PacketSaysNothing(n.a, x);
    DeliverLater(n, x, f);
  }

  // ------------------------------------------------------------ delivering

  /** The pipe objects there were are still the ones known under their ids. */
  twostate predicate Kept(e: OptPipes)
    reads e
  {
    && (forall i :: i in old(e.all) ==> i in e.all && e.all[i] == old(e.all[i]))
    && (forall i :: i in e.all && i !in old(e.all) ==> fresh(e.all[i]))
  }

  lemma AReads(n: N.Net) returns (m: N.Net)
    requires Reachable(n) && n.fromB < |n.b.out| && !n.a.down
    ensures N.Enabled(n, N.Step(true, N.Deliver)) && m == N.Next(n, N.Step(true, N.Deliver)) && Reachable(m)
    ensures OnlyRead(n.a, m.a) && OnlyMeetsNew(n.a, n.b.out[n.fromB])
  {
    var s := N.Step(true, N.Deliver);
    Reached(n);
    Reach(n, s);
    m := N.Next(n, s);
    DeliverOnlyReads(n, n.b.out[n.fromB], m.a);
  }

  lemma BReads(n: N.Net) returns (m: N.Net)
    requires Reachable(n) && n.fromA < |n.a.out| && !n.b.down
    ensures N.Enabled(n, N.Step(false, N.Deliver)) && m == N.Next(n, N.Step(false, N.Deliver)) && Reachable(m)
    ensures OnlyRead(n.b, m.b) && OnlyMeetsNew(n.b, n.a.out[n.fromA])
  {
    var s := N.Step(false, N.Deliver);
    Reached(n);
    Reach(n, s);
    m := N.Next(n, s);
    N.SwapInv(n);
    DeliverOnlyReads(N.Swap(n), n.a.out[n.fromA], m.b);
  }

  method DeliverToA(a: OptPipes, b: OptPipes, ghost fromA: nat, fromB: nat, ghost n: N.Net) returns (ghost m: N.Net)
    requires Tracks(a, b, fromA, fromB, n) && fromB < |b.out|
    modifies a, a.all.Values
    ensures Tracks(a, b, fromA, fromB + 1, m) && Kept(a)
    ensures N.Enabled(n, N.Step(true, N.Deliver)) && m == N.Next(n, N.Step(true, N.Deliver))
    ensures OnlyRead(n.a, m.a)
  {
    m := AReads(n);
    a.OnPacket(b.out[fromB]);
  }

  method DeliverToB(a: OptPipes, b: OptPipes, fromA: nat, ghost fromB: nat, ghost n: N.Net) returns (ghost m: N.Net)
    requires Tracks(a, b, fromA, fromB, n) && fromA < |a.out|
    modifies b, b.all.Values
    ensures Tracks(a, b, fromA + 1, fromB, m) && Kept(b)
    ensures N.Enabled(n, N.Step(false, N.Deliver)) && m == N.Next(n, N.Step(false, N.Deliver))
    ensures OnlyRead(n.b, m.b)
  {
    m := BReads(n);
    b.OnPacket(a.out[fromA]);
  }

  /** Delivers the next packet of either channel. */
  method DeliverOne(a: OptPipes, b: OptPipes, fromA: nat, fromB: nat, ghost n: N.Net)
    returns (readA: nat, readB: nat, ghost m: N.Net)
    requires Tracks(a, b, fromA, fromB, n) && (fromA < |a.out| || fromB < |b.out|)
    modifies a, b, a.all.Values, b.all.Values
    ensures Tracks(a, b, readA, readB, m) && readA + readB == fromA + fromB + 1
    ensures Kept(a) && Kept(b) && OnlyRead(n.a, m.a) && OnlyRead(n.b, m.b)
  {
    readA, readB := fromA, fromB;
    NothingRead(n.a);
    NothingRead(n.b);
    if
    case fromA < |a.out| =>
      m := DeliverToB(a, b, fromA, fromB, n);
      readA := readA + 1;
    case fromB < |b.out| =>
      m := DeliverToA(a, b, fromA, fromB, n);
      readB := readB + 1;
  }

  lemma TracksBounds(a: OptPipes, b: OptPipes, fromA: nat, fromB: nat, n: N.Net)
    requires Tracks(a, b, fromA, fromB, n)
    ensures fromA <= |a.out| && fromB <= |b.out|
  {
    Reached(n);
  }

  /** Delivers everything in flight, the two channels in any order. */
  method Drain(a: OptPipes, b: OptPipes, fromA: nat, fromB: nat, ghost n: N.Net) returns (ghost m: N.Net)
    requires Tracks(a, b, fromA, fromB, n)
    modifies a, b, a.all.Values, b.all.Values
    ensures Tracks(a, b, |a.out|, |b.out|, m) && Kept(a) && Kept(b)
    ensures OnlyRead(n.a, m.a) && OnlyRead(n.b, m.b)
  {
    var i: nat, j: nat := fromA, fromB;
    m := n;
    TracksBounds(a, b, i, j, m);
    while i < |a.out| || j < |b.out|
      invariant Tracks(a, b, i, j, m) && i <= |a.out| && j <= |b.out|
      invariant Kept(a) && Kept(b) && OnlyRead(n.a, m.a) && OnlyRead(n.b, m.b)
      decreases |n.a.out| + |n.b.out| - i - j
    {
      ghost var was := m;
      i, j, m := DeliverOne(a, b, i, j, m);
      TracksBounds(a, b, i, j, m);
      OnlyReadTransitive(n.a, was.a, m.a);
      OnlyReadTransitive(n.b, was.b, m.b);
    }
  }

  // ------------------------------------------------------------ a whole exchange

  /** An endpoint after sending a list of packets down a pipe. */
  function Says(e: Endpoint, id: U32, data: seq<Bytes>): (r: Endpoint)
    requires id in e.pipes
    ensures id in r.pipes
    decreases |data|
  {
    if data == [] then e else Use(Says(e, id, data[..|data| - 1]), id, SendData(data[|data| - 1]))
  }

  lemma SaysOneMore(e: Endpoint, id: U32, p: Pipe, s: Endpoint, last: Bytes)
    requires s.pipes == e.pipes[id := p]
    ensures Use(s, id, SendData(last)).pipes == e.pipes[id := p.(sent := p.sent + [last])]
    ensures Use(s, id, SendData(last)).down == s.down
  {
    UpdateTwice(e.pipes, id, p, p.(sent := p.sent + [last]));
  }

  lemma {:induction false} SaysIs(e: Endpoint, id: U32, data: seq<Bytes>)
    requires id in e.pipes
    ensures Says(e, id, data).pipes == e.pipes[id := e.pipes[id].(sent := e.pipes[id].sent + data)]
    ensures Says(e, id, data).down == e.down
    decreases |data|
  {
    var p := e.pipes[id];
    if data == [] {
      assert p.sent + data == p.sent;
      assert e.pipes[id := p] == e.pipes;
    } else {
      var init, last := data[..|data| - 1], data[|data| - 1];
      SaysIs(e, id, init);
      SaysOneMore(e, id, p.(sent := p.sent + init), Says(e, id, init), last);
      assert p.sent + init + [last] == p.sent + data;
    }
  }

  lemma {:induction false} SaysReachable(n: N.Net, atA: bool, id: U32, data: seq<Bytes>)
    requires Reachable(n) && id in (if atA then n.a else n.b).pipes
    requires var p := (if atA then n.a else n.b).pipes[id]; p.owned && p.state == Opened
    ensures Reachable(if atA then n.(a := Says(n.a, id, data)) else n.(b := Says(n.b, id, data)))
    decreases |data|
  {
    if data != [] {
      var init := data[..|data| - 1];
      SaysReachable(n, atA, id, init);
      SaysIs(if atA then n.a else n.b, id, init);
      Reach(if atA then n.(a := Says(n.a, id, init)) else n.(b := Says(n.b, id, init)),
            N.Step(atA, N.Use(id, SendData(data[|data| - 1]))));
    }
  }

  method SendAll(e: OptPipes, p: OptPipe, data: seq<Bytes>)
    requires p.Valid() && p.underlying == e
    modifies p, e
    ensures p.Valid() && e.all == old(e.all) && e.State() == Says(old(e.State()), p.id, data)
  {
    for k := 0 to |data|
      invariant p.Valid() && e.all == old(e.all) && e.State() == Says(old(e.State()), p.id, data[..k])
    {
      p.Send(data[k]);
      assert data[..k + 1][..k] == data[..k];
    }
    assert data[..|data|] == data;
  }

  /** `e` is open at this end under `id`, and its user and timer have not closed it. */
  ghost predicate Opens(e: Endpoint, id: U32, sent: seq<Bytes>)
  {
    && id in e.pipes && e.pipes[id].state == Opened && e.pipes[id].owned && !e.pipes[id].closedHere
    && e.pipes[id].sent == sent
  }

  /** The state after one endpoint opened a pipe and asked for it. */
  const REQUESTED := N.Net(
    Endpoint(true, 3, 1, map[1 := NewPipe(true).(state := OpenRequestSent)], [Packet(1, Req([]))], false),
    NewEndpoint(false), 0, 0)

  lemma RequestedReachable()
    ensures Reachable(REQUESTED)
  {
    InitialReachable();
    Reach(N.INITIAL, N.Step(true, N.Open));
    var n := N.Next(N.INITIAL, N.Step(true, N.Open));
    Reach(n, N.Step(true, N.Use(1, Start)));
    assert N.Next(n, N.Step(true, N.Use(1, Start))) == REQUESTED;
  }

  /** Open the first pipe and ask for it. */
  method Ask(a: OptPipes) returns (c: OptPipe)
    requires a.Valid() && a.all == map[] && a.State() == NewEndpoint(true)
    modifies a
    ensures a.Valid() && fresh(a.all.Values) && a.State() == REQUESTED.a
    ensures c.Valid() && c.underlying == a && c.id == 1
  {
    c := a.OpenPipe();
    c.Start();
    FirstAsked(NewEndpoint(true));
  }

  lemma FirstAsked(e: Endpoint)
    requires e == NewEndpoint(true)
    ensures 1 in OpenPipe(e).pipes && Use(OpenPipe(e), 1, Start) == REQUESTED.a
  {
    assert OpenPipe(e).pipes == map[1 := NewPipe(true)];
    assert Use(OpenPipe(e), 1, Start).out == [Packet(1, Req([]))];
  }

  method Request() returns (a: OptPipes, b: OptPipes, c: OptPipe)
    ensures fresh(a) && fresh(b) && fresh(a.all.Values) && fresh(b.all.Values) && Tracks(a, b, 0, 0, REQUESTED)
    ensures c.Valid() && c.underlying == a && c.id == 1
  {
    b := new OptPipes(false);
    a := new OptPipes(true);
    c := Ask(a);
    RequestedReachable();
  }

  const ACCEPTED := N.Net(
    REQUESTED.a, Endpoint(false, 0, 0, map[1 := NewPipe(false).(state := Opened, log := [OpenCb])], [Packet(1, Resp)], false), 1, 0)

  lemma AcceptedReachable()
    ensures Reachable(ACCEPTED)
    ensures var e := OnPacket(REQUESTED.b, Packet(1, Req([])));
            1 in e.pipes && e.pipes[1].registered && Use(e, 1, Start) == ACCEPTED.b
  {
    RequestedReachable();
    Reach(REQUESTED, N.Step(false, N.Deliver));
    var n := N.Next(REQUESTED, N.Step(false, N.Deliver));
    assert n.b.pipes == map[1 := NewPipe(false)] && n.b.out == [];
    Reach(n, N.Step(false, N.Use(1, Start)));
    var m := N.Next(n, N.Step(false, N.Use(1, Start)));
    assert m.b.pipes[1].log == [OpenCb];
    assert m.b.pipes == ACCEPTED.b.pipes;
    assert m.b.out == [Packet(1, Resp)];
  }

  /** The other endpoint reads the request and accepts. */
  method ReadRequest(b: OptPipes, request: Packet) returns (s: OptPipe)
    requires b.Valid() && b.State() == REQUESTED.b && request == Packet(1, Req([]))
    modifies b, b.all.Values
    ensures s.Valid() && s.underlying == b && s.id == 1 && Kept(b)
    ensures b.State() == OnPacket(REQUESTED.b, request)
  {
    AcceptedReachable();
    b.OnPacket(request);
    assert b.State().pipes[1] == b.all[1].Value(1 in b.pipes);
    s := b.pipes[1];
  }

  method Accept(b: OptPipes, request: Packet) returns (s: OptPipe)
    requires b.Valid() && b.State() == REQUESTED.b && request == Packet(1, Req([]))
    modifies b, b.all.Values
    ensures s.Valid() && s.underlying == b && s.id == 1 && Kept(b)
    ensures b.State() == ACCEPTED.b
  {
    AcceptedReachable();
    s := ReadRequest(b, request);
    s.Start();
  }

  method RequestAndAccept() returns (a: OptPipes, b: OptPipes, c: OptPipe, s: OptPipe)
    ensures fresh(a) && fresh(b) && fresh(a.all.Values) && fresh(b.all.Values) && Tracks(a, b, 1, 0, ACCEPTED)
    ensures c.Valid() && c.underlying == a && c.id == 1 && s.Valid() && s.underlying == b && s.id == 1
  {
    a, b, c := Request();
    s := Accept(b, a.out[0]);
    AcceptedReachable();
  }

  lemma AnsweredOpens(n: N.Net)
    requires N.Enabled(ACCEPTED, N.Step(true, N.Deliver)) && n == N.Next(ACCEPTED, N.Step(true, N.Deliver))
    ensures Opens(n.a, 1, []) && Opens(n.b, 1, []) && n.a.isClient
  {
  }

  /** A pipe opened, requested, accepted and answered. */
  method Connect() returns (a: OptPipes, b: OptPipes, c: OptPipe, s: OptPipe, ghost n: N.Net)
    ensures fresh(a) && fresh(b) && fresh(a.all.Values) && fresh(b.all.Values) && Tracks(a, b, 1, 1, n)
    ensures c.Valid() && c.underlying == a && c.id == 1 && s.Valid() && s.underlying == b && s.id == 1
    ensures Opens(n.a, 1, []) && Opens(n.b, 1, []) && a.isClient
  {
    a, b, c, s := RequestAndAccept();
    n := DeliverToA(a, b, 1, 0, ACCEPTED);
    AnsweredOpens(n);
  }

  /** A pipe open at both ends is still open at both once everything is delivered, and both ends have it all. */
  lemma StillOpen(n: N.Net, m: N.Net, id: U32, x: seq<Bytes>, y: seq<Bytes>)
    requires Opens(n.a, id, x) && Opens(n.b, id, y) && OnlyRead(n.a, m.a) && OnlyRead(n.b, m.b)
    requires Reachable(m) && m.fromA == |m.a.out| && m.fromB == |m.b.out| && Mine(m.a.isClient, id)
    ensures Opens(m.a, id, x) && Opens(m.b, id, y)
    ensures Got(m.a.pipes[id].log) == y && Got(m.b.pipes[id].log) == x
  {
    ReachedPair(m, id);
    var settled := QuietMeansSettled(m, id, N.ViewOf(m, id));
  }

  /** What an end says before closing is read before the close. */
  lemma LastWords(n: N.Net, m: N.Net, id: U32, x: seq<Bytes>, y: seq<Bytes>)
    requires id in n.a.pipes && n.a.pipes[id].closedHere && n.a.pipes[id].sent == x && Opens(n.b, id, y)
    requires OnlyRead(n.a, m.a) && OnlyRead(n.b, m.b)
    requires Reachable(m) && m.fromA == |m.a.out| && m.fromB == |m.b.out| && Mine(m.a.isClient, id)
    ensures id in m.b.pipes && m.b.pipes[id].state == Closed && Got(m.b.pipes[id].log) == x
  {
    ReachedPair(m, id);
    var settled := QuietMeansSettled(m, id, N.ViewOf(m, id));
  }

  /** The acceptor sends its data to an initiator that then has it all. */
  method Tell(a: OptPipes, b: OptPipes, c: OptPipe, s: OptPipe, data: seq<Bytes>, i: nat, j: nat, ghost n: N.Net)
    returns (got: seq<Bytes>, ghost m: N.Net)
    requires Tracks(a, b, i, j, n) && Opens(n.a, 1, []) && Opens(n.b, 1, []) && a.isClient
    requires c.Valid() && c.underlying == a && c.id == 1 && s.Valid() && s.underlying == b && s.id == 1
    modifies a, b, a.all.Values, b.all.Values
    ensures Tracks(a, b, |a.out|, |b.out|, m) && Kept(a) && Kept(b)
    ensures Opens(m.a, 1, []) && Opens(m.b, 1, data) && got == data
  {
    SaysReachable(n, false, 1, data);
    SaysIs(n.b, 1, data);
    ghost var told := n.(b := Says(n.b, 1, data));
    SendAll(b, s, data);
    m := Drain(a, b, i, j, told);
    StillOpen(told, m, 1, [], data);
    got := Got(c.log);
  }

  lemma SaysAndCloses(n: N.Net, data: seq<Bytes>) returns (m: N.Net)
    requires Reachable(n) && Opens(n.a, 1, [])
    ensures Reachable(m) && m == n.(a := Use(Says(n.a, 1, data), 1, CloseIt))
    ensures 1 in m.a.pipes && m.a.pipes[1].closedHere && m.a.pipes[1].sent == data && m.a.down == n.a.down
  {
    SaysReachable(n, true, 1, data);
    SaysIs(n.a, 1, data);
    var said := n.(a := Says(n.a, 1, data));
    Reach(said, N.Step(true, N.Use(1, CloseIt)));
    m := n.(a := Use(Says(n.a, 1, data), 1, CloseIt));
    assert m == N.Next(said, N.Step(true, N.Use(1, CloseIt)));
  }

  method SendAndClose(e: OptPipes, p: OptPipe, data: seq<Bytes>)
    requires p.Valid() && p.underlying == e
    modifies p, e
    ensures p.Valid() && e.all == old(e.all)
    ensures e.State() == Use(Says(old(e.State()), p.id, data), p.id, CloseIt)
  {
    SendAll(e, p, data);
    p.Close();
  }

  /** The initiator sends its data and closes at once. */
  method Finish(a: OptPipes, b: OptPipes, c: OptPipe, s: OptPipe, data: seq<Bytes>, ghost y: seq<Bytes>, i: nat, j: nat, ghost n: N.Net)
    returns (got: seq<Bytes>)
    requires Tracks(a, b, i, j, n) && Opens(n.a, 1, []) && Opens(n.b, 1, y) && a.isClient
    requires c.Valid() && c.underlying == a && c.id == 1 && s.Valid() && s.underlying == b && s.id == 1
    modifies a, b, a.all.Values, b.all.Values
    ensures got == data && s.openState == Closed
  {
    ghost var told := SaysAndCloses(n, data);
    SendAndClose(a, c, data);
    ghost var m := Drain(a, b, i, j, told);
    LastWords(told, m, 1, data, y);
    got := Got(s.log);
    assert s.Value(1 in b.pipes) == m.b.pipes[1];
  }

  /** Two endpoints, one pipe: the acceptor sends its data, the initiator answers and closes, and each is
      given exactly what the other sent. */
  method Exchange(dataC: seq<Bytes>, dataS: seq<Bytes>) returns (gotS: seq<Bytes>, gotC: seq<Bytes>, closed: bool)
    ensures gotS == dataC && gotC == dataS && closed
  {
    var a, b, c, s;
    ghost var n;
    a, b, c, s, n := Connect();
    gotC, n := Tell(a, b, c, s, dataS, 1, 1, n);
    gotS := Finish(a, b, c, s, dataC, dataS, |a.out|, |b.out|, n);
    closed := s.openState == Closed;
  }
}
