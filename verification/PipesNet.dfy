/** Two `OPTPipes` over two FIFO channels: the steps of the pair, and the projection of every step onto
    each pipe id. */
module PipesNet {
  import opened Common
  import opened PipesModel
  import opened PipesPair

  /** `fromA` counts the packets of `a` that `b` has read. */
  datatype Net = Net(a: Endpoint, b: Endpoint, fromA: nat, fromB: nat)

  datatype Act = Open | Use(id: U32, op: Op) | Deliver | Down
  datatype Step = Step(atA: bool, act: Act)

  const INITIAL := Net(NewEndpoint(true), NewEndpoint(false), 0, 0)

  function Swap(n: Net): Net
  {
    Net(n.b, n.a, n.fromB, n.fromA)
  }

  predicate EnabledA(n: Net, act: Act)
  {
    match act
    case Open => n.a.count < HALF_IDS
    case Use(id, op) => id in n.a.pipes && Allowed(n.a.pipes[id], op)
    case Deliver => n.fromB < |n.b.out| && !n.a.down
    case Down => !n.a.down
  }

  function NextA(n: Net, act: Act): Net
    requires EnabledA(n, act)
  {
    match act
    case Open => n.(a := OpenPipe(n.a))
    case Use(id, op) => n.(a := PipesModel.Use(n.a, id, op))
    case Deliver => n.(a := OnPacket(n.a, n.b.out[n.fromB]), fromB := n.fromB + 1)
    case Down => n.(a := OnDown(n.a))
  }

  predicate Enabled(n: Net, s: Step)
  {
    EnabledA(if s.atA then n else Swap(n), s.act)
  }

  function Next(n: Net, s: Step): Net
    requires Enabled(n, s)
  {
    if s.atA then NextA(n, s.act) else Swap(NextA(Swap(n), s.act))
  }

  ghost predicate Run(n: Net, steps: seq<Step>)
    decreases |steps|
  {
    steps == [] || (Enabled(n, steps[0]) && Run(Next(n, steps[0]), steps[1..]))
  }

  ghost function Final(n: Net, steps: seq<Step>): Net
    requires Run(n, steps)
    decreases |steps|
  {
    if steps == [] then n else Final(Next(n, steps[0]), steps[1..])
  }

  // ------------------------------------------------------------ one id of the pair

  function Filter(s: seq<Packet>, id: U32): seq<Body>
  {
    if s == [] then []
    else
      var last := s[|s| - 1];
      if last.id == id then Filter(s[..|s| - 1], id) + [last.body] else Filter(s[..|s| - 1], id)
  }

  lemma FilterSnoc(s: seq<Packet>, x: Packet, id: U32)
    ensures Filter(s + [x], id) == if x.id == id then Filter(s, id) + [x.body] else Filter(s, id)
  {
    assert (s + [x])[..|s|] == s;
  }

  lemma {:induction false} FilterHead(s: seq<Packet>, id: U32)
    requires s != []
    ensures Filter(s, id) == if s[0].id == id then [s[0].body] + Filter(s[1..], id) else Filter(s[1..], id)
  {
    if |s| > 1 {
      var init := s[..|s| - 1];
      FilterHead(init, id);
      assert s[1..][..|s| - 2] == init[1..];
    } else {
      assert s == [] + [s[0]];
      FilterSnoc([], s[0], id);
    }
  }

  function ViewOf(n: Net, id: U32): View
    requires n.fromA <= |n.a.out| && n.fromB <= |n.b.out|
  {
    if Mine(n.a.isClient, id) then
      View(Lookup(n.a, id), Lookup(n.b, id), Filter(n.a.out[n.fromA..], id), Filter(n.b.out[n.fromB..], id))
    else
      View(Lookup(n.b, id), Lookup(n.a, id), Filter(n.b.out[n.fromB..], id), Filter(n.a.out[n.fromA..], id))
  }

  // ------------------------------------------------------------ the invariant

  ghost predicate Ids(e: Endpoint)
  {
    && e.count <= HALF_IDS && e.nextId == IdOf(e.isClient, e.count)
    && (forall id :: id in e.pipes && Mine(e.isClient, id) ==> exists k :: 0 <= k < e.count && id == IdOf(e.isClient, k))
  }

  /** What the transport closing left in the history of a pipe. */
  ghost predicate DownOk(p: Pipe, down: bool)
  {
    && Count(p.log, DownCb) == (if p.heldDown then 1 else 0) && (p.heldDown ==> down)
    && SilentOnceDown(p.log, p.initiator)
  }

  ghost predicate Downs(e: Endpoint)
  {
    forall id :: id in e.pipes ==> DownOk(e.pipes[id], e.down)
  }

  ghost predicate Pairs(n: Net)
    requires n.fromA <= |n.a.out| && n.fromB <= |n.b.out|
  {
    forall id: U32 :: PairInv(ViewOf(n, id))
  }

  ghost predicate Inv(n: Net)
  {
    && n.a.isClient == !n.b.isClient && n.fromA <= |n.a.out| && n.fromB <= |n.b.out|
    && Ids(n.a) && Ids(n.b) && Downs(n.a) && Downs(n.b)
    && Pairs(n)
  }

  lemma InitialInv()
    ensures Inv(INITIAL)
  {
  }

  lemma SwapView(n: Net, id: U32)
    requires n.a.isClient == !n.b.isClient && n.fromA <= |n.a.out| && n.fromB <= |n.b.out|
    ensures ViewOf(Swap(n), id) == ViewOf(n, id)
  {
  }

  lemma SwapInv(n: Net)
    requires Inv(n)
    ensures Inv(Swap(n))
  {
    forall id: U32 ensures PairInv(ViewOf(Swap(n), id)) {
      SwapView(n, id);
      assert PairInv(ViewOf(n, id));
    }
  }

  // ------------------------------------------------------------ opening

  lemma FreshId(e: Endpoint)
    requires Ids(e) && e.count < HALF_IDS
    ensures e.nextId !in e.pipes && Mine(e.isClient, e.nextId)
  {
    IdStep(e.isClient, e.count);
    if e.nextId in e.pipes {
      var k :| 0 <= k < e.count && e.nextId == IdOf(e.isClient, k);
      IdsMeetIff(e.isClient, k, e.isClient, e.count);
    }
  }

  lemma OpenKeepsIds(e: Endpoint, f: Endpoint)
    requires Ids(e) && e.count < HALF_IDS && f == OpenPipe(e)
    ensures Ids(f)
  {
    IdStep(e.isClient, e.count);
    forall id | id in f.pipes && Mine(f.isClient, id)
      ensures exists k :: 0 <= k < f.count && id == IdOf(f.isClient, k)
    {
      if id in e.pipes {
        var k :| 0 <= k < e.count && id == IdOf(e.isClient, k);
      } else {
        assert id == IdOf(f.isClient, e.count);
      }
    }
  }

  lemma OpenKeepsInv(n: Net, m: Net)
    requires Inv(n) && EnabledA(n, Open) && m == NextA(n, Open)
    ensures Inv(m)
  {
    FreshId(n.a);
    OpenKeepsIds(n.a, m.a);
    forall id: U32 ensures PairInv(ViewOf(m, id)) {
      assert PairInv(ViewOf(n, id));
      if id == n.a.nextId {
        OpenKeeps(ViewOf(n, id));
      } else {
        assert ViewOf(m, id) == ViewOf(n, id);
      }
    }
  }

  // ------------------------------------------------------------ using

  lemma PostedIs(out: seq<Packet>, from: nat, id: U32, b: Option<Body>, other: U32)
    requires from <= |out|
    ensures Filter((out + Posted(id, b))[from..], other)
            == if other == id then Post(Filter(out[from..], other), b) else Filter(out[from..], other)
  {
    assert (out + Posted(id, b))[from..] == out[from..] + Posted(id, b);
    if b.Some? {
      FilterSnoc(out[from..], Packet(id, b.value), other);
    } else {
      assert out[from..] + [] == out[from..];
    }
  }

  lemma SnocKeepsDown(p: Pipe, e: Event, down: bool)
    requires DownOk(p, down) && !e.DownCb?
    requires p.heldDown ==> !e.PacketCb? && (p.initiator ==> !e.OpenCb?)
    ensures DownOk(p.(log := p.log + [e]), down)
  {
    CountSnoc(p.log, e, DownCb);
    CountIn(p.log, DownCb);
    SilentSnoc(p.log, e, p.initiator);
  }

  lemma UseKeepsDown(p: Pipe, op: Op, down: bool)
    requires PipeOk(p) && DownOk(p, down)
    ensures DownOk(Apply(p, op), down)
  {
    SnocKeepsDown(p, CloseCb, down);
    if p.state == OpenRequestRecv {
      SnocKeepsDown(p, OpenCb, down);
    }
  }

  lemma UseElsewhere(n: Net, id: U32, op: Op, m: Net, other: U32)
    requires Inv(n) && EnabledA(n, Use(id, op)) && m == NextA(n, Use(id, op)) && other != id
    ensures ViewOf(m, other) == ViewOf(n, other)
  {
    PostedIs(n.a.out, n.fromA, id, Emits(n.a.pipes[id], op), other);
  }

  lemma UseMine(n: Net, id: U32, op: Op, m: Net)
    requires Inv(n) && EnabledA(n, Use(id, op)) && m == NextA(n, Use(id, op)) && Mine(n.a.isClient, id)
    ensures PairInv(ViewOf(m, id))
  {
    var v := ViewOf(n, id);
    assert PairInv(v);
    PostedIs(n.a.out, n.fromA, id, Emits(n.a.pipes[id], op), id);
    OUses(v, n.a.pipes[id], op);
    assert ViewOf(m, id) == v.(o := Some(Apply(n.a.pipes[id], op)), toP := Post(v.toP, Emits(n.a.pipes[id], op)));
  }

  lemma UseTheirs(n: Net, id: U32, op: Op, m: Net)
    requires Inv(n) && EnabledA(n, Use(id, op)) && m == NextA(n, Use(id, op)) && !Mine(n.a.isClient, id)
    ensures PairInv(ViewOf(m, id))
  {
    var v := ViewOf(n, id);
    assert PairInv(v);
    PostedIs(n.a.out, n.fromA, id, Emits(n.a.pipes[id], op), id);
    PUses(v, n.a.pipes[id], op);
    assert ViewOf(m, id) == v.(p := Some(Apply(n.a.pipes[id], op)), toO := Post(v.toO, Emits(n.a.pipes[id], op)));
  }

  lemma UseKeepsPair(n: Net, id: U32, op: Op, m: Net, other: U32)
    requires Inv(n) && EnabledA(n, Use(id, op)) && m == NextA(n, Use(id, op))
    ensures PairInv(ViewOf(m, other))
  {
    if other != id {
      UseElsewhere(n, id, op, m, other);
      assert PairInv(ViewOf(n, other));
    } else if Mine(n.a.isClient, id) {
      UseMine(n, id, op, m);
    } else {
      UseTheirs(n, id, op, m);
    }
  }

  lemma UseKeepsEnds(e: Endpoint, id: U32, op: Op, f: Endpoint)
    requires Ids(e) && Downs(e) && id in e.pipes && PipeOk(e.pipes[id]) && f == PipesModel.Use(e, id, op)
    ensures Ids(f) && Downs(f)
  {
    UseKeepsDown(e.pipes[id], op, e.down);
  }

  lemma UseKeepsInv(n: Net, id: U32, op: Op, m: Net)
    requires Inv(n) && EnabledA(n, Use(id, op)) && m == NextA(n, Use(id, op))
    ensures Inv(m)
  {
    assert PipeOk(n.a.pipes[id]) by {
      assert PairInv(ViewOf(n, id));
    }
    UseKeepsEnds(n.a, id, op, m.a);
    forall other: U32 ensures PairInv(ViewOf(m, other)) {
      UseKeepsPair(n, id, op, m, other);
    }
  }

  // ------------------------------------------------------------ delivering

  /** The packet at the head of the other side's channel, for the ids it is of and not of. */
  lemma HeadIs(n: Net, x: Packet, other: U32)
    requires n.fromB < |n.b.out| && x == n.b.out[n.fromB]
    ensures var q := Filter(n.b.out[n.fromB..], other); var r := Filter(n.b.out[n.fromB + 1..], other);
            if x.id == other then q != [] && q[0] == x.body && q[1..] == r else q == r
  {
    var q := n.b.out[n.fromB..];
    assert q[0] == x && q[1..] == n.b.out[n.fromB + 1..];
    FilterHead(q, other);
  }

  lemma DeliverElsewhere(n: Net, m: Net, x: Packet, other: U32)
    requires Inv(n) && EnabledA(n, Deliver) && m == NextA(n, Deliver) && x == n.b.out[n.fromB] && x.id != other
    ensures ViewOf(m, other) == ViewOf(n, other)
  {
    HeadIs(n, x, other);
  }

  lemma DeliverMine(n: Net, m: Net, x: Packet)
    requires Inv(n) && EnabledA(n, Deliver) && m == NextA(n, Deliver) && x == n.b.out[n.fromB] && Mine(n.a.isClient, x.id)
    ensures PairInv(ViewOf(m, x.id))
  {
    var v := ViewOf(n, x.id);
    assert PairInv(v);
    HeadIs(n, x, x.id);
    OHears(v);
    assert ViewOf(m, x.id) == v.(o := Receive(v.o, true, v.toO[0]), toO := v.toO[1..]);
  }

  lemma DeliverTheirs(n: Net, m: Net, x: Packet)
    requires Inv(n) && EnabledA(n, Deliver) && m == NextA(n, Deliver) && x == n.b.out[n.fromB] && !Mine(n.a.isClient, x.id)
    ensures PairInv(ViewOf(m, x.id))
  {
    var v := ViewOf(n, x.id);
    assert PairInv(v);
    HeadIs(n, x, x.id);
    PHears(v);
    assert ViewOf(m, x.id) == v.(p := Receive(v.p, false, v.toP[0]), toP := v.toP[1..]);
  }

  lemma DeliverKeepsPair(n: Net, m: Net, other: U32)
    requires Inv(n) && EnabledA(n, Deliver) && m == NextA(n, Deliver)
    ensures PairInv(ViewOf(m, other))
  {
    var x := n.b.out[n.fromB];
    if x.id != other {
      DeliverElsewhere(n, m, x, other);
      assert PairInv(ViewOf(n, other));
    } else if Mine(n.a.isClient, other) {
      DeliverMine(n, m, x);
    } else {
      DeliverTheirs(n, m, x);
    }
  }

  lemma HearKeepsDown(p: Pipe, b: Body)
    requires DownOk(p, false)
    ensures DownOk(Hears(p, b), false)
  {
    SnocKeepsDown(p, CloseCb, false);
    SnocKeepsDown(p, OpenCb, false);
    if b.Data? {
      SnocKeepsDown(p, PacketCb(b.data), false);
    }
  }

  lemma OnPacketKeepsEnds(e: Endpoint, x: Packet, f: Endpoint)
    requires Ids(e) && Downs(e) && !e.down && f == OnPacket(e, x)
    ensures Ids(f) && Downs(f)
  {
    if x.id in e.pipes {
      HearKeepsDown(e.pipes[x.id], x.body);
    }
    assert forall id :: id in f.pipes && Mine(e.isClient, id) ==> id in e.pipes;
  }

  lemma DeliverKeepsInv(n: Net, m: Net)
    requires Inv(n) && EnabledA(n, Deliver) && m == NextA(n, Deliver)
    ensures Inv(m)
  {
    OnPacketKeepsEnds(n.a, n.b.out[n.fromB], m.a);
    forall other: U32 ensures PairInv(ViewOf(m, other)) {
      DeliverKeepsPair(n, m, other);
    }
  }

  // ------------------------------------------------------------ the transport closing

  lemma DownedPipe(p: Pipe)
    requires PipeOk(p)
    ensures PipeOk(Downed(p)) && EndOf(Downed(p)) == EndOf(p) && Downed(p).initiator == p.initiator
  {
    PhaseSnoc(p.log, DownCb);
    GotSnoc(p.log, DownCb);
  }

  lemma DownedKeepsDown(p: Pipe)
    requires DownOk(p, false)
    ensures DownOk(Downed(p), true)
  {
    CountSnoc(p.log, DownCb, DownCb);
    SilentSnoc(p.log, DownCb, p.initiator);
  }

  function DownedOption(o: Option<Pipe>): Option<Pipe>
  {
    if o == None then None else Some(Downed(o.value))
  }

  lemma DownKeepsPair(v: View)
    requires PairInv(v)
    ensures PairInv(v.(o := DownedOption(v.o))) && PairInv(v.(p := DownedOption(v.p)))
  {
    if v.o.Some? { DownedPipe(v.o.value); }
    if v.p.Some? { DownedPipe(v.p.value); }
  }

  lemma DownKeepsEnds(e: Endpoint, f: Endpoint)
    requires Ids(e) && Downs(e) && !e.down && f == OnDown(e)
    ensures Ids(f) && Downs(f)
  {
    forall id | id in f.pipes ensures DownOk(f.pipes[id], true) {
      DownedKeepsDown(e.pipes[id]);
    }
    assert f.pipes.Keys == e.pipes.Keys;
  }

  lemma DownKeepsInv(n: Net, m: Net)
    requires Inv(n) && EnabledA(n, Down) && m == NextA(n, Down)
    ensures Inv(m)
  {
    DownKeepsEnds(n.a, m.a);
    forall id: U32 ensures PairInv(ViewOf(m, id)) {
      var v := ViewOf(n, id);
      assert PairInv(v);
      DownKeepsPair(v);
      assert ViewOf(m, id)
          == if Mine(n.a.isClient, id) then v.(o := DownedOption(v.o)) else v.(p := DownedOption(v.p));
    }
  }

  // ------------------------------------------------------------ all steps, all runs

  lemma ActKeepsInv(n: Net, act: Act)
    requires Inv(n) && EnabledA(n, act)
    ensures Inv(NextA(n, act))
  {
    match act
    case Open => OpenKeepsInv(n, NextA(n, act));
    case Use(id, op) => UseKeepsInv(n, id, op, NextA(n, act));
    case Deliver => DeliverKeepsInv(n, NextA(n, act));
    case Down => DownKeepsInv(n, NextA(n, act));
  }

  lemma StepKeepsInv(n: Net, s: Step)
    requires Inv(n) && Enabled(n, s)
    ensures Inv(Next(n, s))
  {
    if s.atA {
      ActKeepsInv(n, s.act);
    } else {
      SwapInv(n);
      ActKeepsInv(Swap(n), s.act);
      SwapInv(NextA(Swap(n), s.act));
    }
  }

  lemma {:induction false} RunKeepsInv(n: Net, steps: seq<Step>)
    requires Inv(n) && Run(n, steps)
    ensures Inv(Final(n, steps))
    decreases |steps|
  {
    if steps != [] {
      StepKeepsInv(n, steps[0]);
      RunKeepsInv(Next(n, steps[0]), steps[1..]);
    }
  }
}
