/** `OPTPipe` and `OPTPipes` as values: one function per operation. */
module PipesModel {
  import opened Common

  const HALF_IDS: int := 0x8000_0000

  datatype OpenState = Fresh | OpenRequestSent | OpenRequestRecv | Opened | Closed

  /** What the packet kinds carry after the id. */
  datatype Body = Req(data: Bytes) | Resp | Close | Data(data: Bytes)
  datatype Packet = Packet(id: U32, body: Body)

  /** History of a pipe: the open callback (at the accepting side, its own `start`), the packet callbacks,
      the close callback, and the close callback of `OPTPipes::on_close`, which leaves the state alone. */
  datatype Event = OpenCb | PacketCb(data: Bytes) | CloseCb | DownCb

  /** `registered`: in `_pipes`. `owned`: not dropped or released by its user. `content`: what an accepting user was
      handed with the pipe, in `_callback_pipe`. History besides the log:
      `closedHere`, closed by its user or its timer and not by the other end; `heldDown`, registered when the
      transport closed. */
  datatype Pipe = Pipe(
    initiator: bool,
    state: OpenState,
    registered: bool,
    owned: bool,
    log: seq<Event>,
    sent: seq<Bytes>,
    closedHere: bool,
    heldDown: bool,
    content: Bytes)

  function NewPipe(initiator: bool): Pipe
  {
    Pipe(initiator, if initiator then Fresh else OpenRequestRecv, true, true, [], [], false, false, [])
  }

  /** A pipe the other end asked for. */
  function Incoming(content: Bytes): Pipe
  {
    NewPipe(false).(content := content)
  }

  // ------------------------------------------------------------ what a user does with a pipe

  datatype Op = Start | StartClient(data: Bytes) | SendData(data: Bytes) | CloseIt | Drop | Expire

  function Closing(p: Pipe): Pipe
  {
    if p.state == Closed then p.(registered := false)
    else p.(registered := false, state := Closed, log := p.log + [CloseCb])
  }

  /** `close` at this end. */
  function ClosingHere(p: Pipe): Pipe
  {
    Closing(p).(closedHere := p.closedHere || p.state != Closed)
  }

  function Apply(p: Pipe, op: Op): Pipe
  {
    match op
    case Start =>
      if p.state == Fresh then p.(state := OpenRequestSent)
      else if p.state == OpenRequestRecv then p.(state := Opened, log := p.log + [OpenCb])
      else p
    case StartClient(_) => if p.state == Fresh then p.(state := OpenRequestSent) else p
    case SendData(d) => p.(sent := p.sent + [d])
    case CloseIt => ClosingHere(p)
    case Drop =>
      if p.state == Opened || p.state == OpenRequestSent then ClosingHere(p).(owned := false)
      else p.(registered := false, owned := false)
    case Expire => if p.state == OpenRequestSent then ClosingHere(p) else p
  }

  function Emits(p: Pipe, op: Op): Option<Body>
  {
    match op
    case Start =>
      if p.state == Fresh then Some(Req([])) else if p.state == OpenRequestRecv then Some(Resp) else None
    case StartClient(d) => if p.state == Fresh then Some(Req(d)) else None
    case SendData(d) => Some(Data(d))
    case CloseIt => if p.state != Closed then Some(Close) else None
    case Drop => if p.state == Opened || p.state == OpenRequestSent then Some(Close) else None
    case Expire => if p.state == OpenRequestSent then Some(Close) else None
  }

  // ------------------------------------------------------------ what a packet does to a pipe

  function Hears(p: Pipe, body: Body): Pipe
  {
    match body
    case Req(_) => p
    case Resp => if p.initiator && p.state == OpenRequestSent then p.(state := Opened, log := p.log + [OpenCb]) else p
    case Close => Closing(p)
    case Data(d) => if p.state == Opened then p.(log := p.log + [PacketCb(d)]) else p
  }

  predicate Registered(o: Option<Pipe>)
  {
    o.Some? && o.value.registered
  }

  /** `mine`: the id has the parity of pipes this endpoint opens. */
  function Receive(o: Option<Pipe>, mine: bool, body: Body): Option<Pipe>
  {
    if body.Req? then (if mine || Registered(o) then o else Some(Incoming(body.data)))
    else if Registered(o) then Some(Hears(o.value, body))
    else o
  }

  // ------------------------------------------------------------ an endpoint

  /** `out` is everything handed to the transport; `count` how many pipes were opened here. */
  datatype Endpoint = Endpoint(isClient: bool, nextId: U32, count: nat, pipes: map<U32, Pipe>, out: seq<Packet>, down: bool)

  function NewEndpoint(isClient: bool): Endpoint
  {
    Endpoint(isClient, if isClient then 1 else 0, 0, map[], [], false)
  }

  predicate Mine(isClient: bool, id: U32)
  {
    (id % 2 == 1) == isClient
  }

  function Lookup(e: Endpoint, id: U32): Option<Pipe>
  {
    if id in e.pipes then Some(e.pipes[id]) else None
  }

  /** `_pipes.insert` keeps what is registered: a pipe opened under an id still registered is handed out all the
      same, but the endpoint does not know it. */
  function OpenPipe(e: Endpoint): Endpoint
  {
    e.(nextId := (e.nextId + 2) % TWO_32, count := e.count + 1,
       pipes := if Registered(Lookup(e, e.nextId)) then e.pipes else e.pipes[e.nextId := NewPipe(true)])
  }

  function Posted(id: U32, b: Option<Body>): seq<Packet>
  {
    if b.Some? then [Packet(id, b.value)] else []
  }

  function Use(e: Endpoint, id: U32, op: Op): Endpoint
    requires id in e.pipes
  {
    e.(pipes := e.pipes[id := Apply(e.pipes[id], op)], out := e.out + Posted(id, Emits(e.pipes[id], op)))
  }

  /** `on_packet` for the four pipe packets. */
  function OnPacket(e: Endpoint, packet: Packet): Endpoint
  {
    match Receive(Lookup(e, packet.id), Mine(e.isClient, packet.id), packet.body)
    case None => e
    case Some(p) => e.(pipes := e.pipes[packet.id := p])
  }

  function Downed(p: Pipe): Pipe
  {
    if p.registered then p.(log := p.log + [DownCb], heldDown := true) else p
  }

  /** `on_close`: the transport has closed. */
  function OnDown(e: Endpoint): Endpoint
  {
    e.(down := true, pipes := map id | id in e.pipes :: Downed(e.pipes[id]))
  }

  // ------------------------------------------------------------ ids

  /** The id of the n-th pipe an endpoint opens. */
  function IdOf(isClient: bool, n: nat): U32
  {
    ((if isClient then 1 else 0) + 2 * n) % TWO_32
  }

  lemma IdStep(isClient: bool, n: nat)
    ensures (IdOf(isClient, n) + 2) % TWO_32 == IdOf(isClient, n + 1) && Mine(isClient, IdOf(isClient, n))
  {
  }

  lemma SameIdIff(s: nat, i: nat, j: nat)
    requires i <= j
    ensures (s + 2 * i) % TWO_32 == (s + 2 * j) % TWO_32 <==> (j - i) % HALF_IDS == 0
  {
    if (s + 2 * i) % TWO_32 == (s + 2 * j) % TWO_32 {
      assert j - i == HALF_IDS * ((s + 2 * j) / TWO_32 - (s + 2 * i) / TWO_32);
    }
  }

  /** Ids of one endpoint repeat exactly every 2^31 pipes; ids of the two endpoints never meet. */
  lemma IdsMeetIff(left: bool, i: nat, right: bool, j: nat)
    requires i <= j
    ensures IdOf(left, i) == IdOf(right, j) <==> left == right && (j - i) % HALF_IDS == 0
  {
    if left == right {
      SameIdIff(if left then 1 else 0, i, j);
    } else {
      IdStep(left, i);
      IdStep(right, j);
    }
  }

  // ------------------------------------------------------------ reading a log

  function Got(log: seq<Event>): seq<Bytes>
  {
    if log == [] then []
    else
      var e := log[|log| - 1];
      if e.PacketCb? then Got(log[..|log| - 1]) + [e.data] else Got(log[..|log| - 1])
  }

  lemma GotSnoc(log: seq<Event>, e: Event)
    ensures Got(log + [e]) == if e.PacketCb? then Got(log) + [e.data] else Got(log)
  {
    assert (log + [e])[..|log|] == log;
  }

  /** 0 before the open, 1 after it, 2 after the close, 3 for a log no pipe should have. */
  function Phase(log: seq<Event>): nat
  {
    if log == [] then 0
    else
      var was := Phase(log[..|log| - 1]);
      match log[|log| - 1]
      case OpenCb => if was == 0 then 1 else 3
      case PacketCb(_) => if was == 1 then 1 else 3
      case CloseCb => if was <= 1 then 2 else 3
      case DownCb => if was <= 1 then was else 3
  }

  lemma PhaseSnoc(log: seq<Event>, e: Event)
    ensures Phase(log + [e]) == match e
                                case OpenCb => if Phase(log) == 0 then 1 else 3
                                case PacketCb(_) => if Phase(log) == 1 then 1 else 3
                                case CloseCb => if Phase(log) <= 1 then 2 else 3
                                case DownCb => if Phase(log) <= 1 then Phase(log) else 3
  {
    assert (log + [e])[..|log|] == log;
  }

  function Count(log: seq<Event>, e: Event): nat
  {
    if log == [] then 0 else Count(log[..|log| - 1], e) + (if log[|log| - 1] == e then 1 else 0)
  }

  lemma CountSnoc(log: seq<Event>, x: Event, e: Event)
    ensures Count(log + [x], e) == Count(log, e) + (if x == e then 1 else 0)
  {
    assert (log + [x])[..|log|] == log;
  }

  lemma {:induction false} CountIn(log: seq<Event>, e: Event)
    ensures Count(log, e) == 0 <==> e !in log
  {
    if log != [] {
      CountIn(log[..|log| - 1], e);
      assert log == log[..|log| - 1] + [log[|log| - 1]];
    }
  }

  /** No packet before the open, and nothing at all after the close. */
  ghost predicate WellOrdered(log: seq<Event>)
  {
    && (forall i :: 0 <= i < |log| && log[i].PacketCb? ==> OpenCb in log[..i])
    && (forall i :: 0 <= i < |log| && log[i].CloseCb? ==> i == |log| - 1)
  }

  /** Nothing that comes from the other end is called back once the transport has closed. */
  ghost predicate SilentOnceDown(log: seq<Event>, initiator: bool)
  {
    forall i, j :: 0 <= i < j < |log| && log[i].DownCb? ==> !log[j].PacketCb? && (initiator ==> !log[j].OpenCb?)
  }

  lemma SilentSnoc(log: seq<Event>, e: Event, initiator: bool)
    requires SilentOnceDown(log, initiator)
    requires DownCb in log ==> !e.PacketCb? && (initiator ==> !e.OpenCb?)
    ensures SilentOnceDown(log + [e], initiator)
  {
    var now := log + [e];
    forall i, j | 0 <= i < j < |now| && now[i].DownCb? ensures !now[j].PacketCb? && (initiator ==> !now[j].OpenCb?) {
      assert now[i] == log[i];
    }
  }

  lemma {:induction false} PhaseMeans(log: seq<Event>)
    requires Phase(log) <= 2
    ensures WellOrdered(log)
    ensures Count(log, OpenCb) <= 1 && (Phase(log) == 0 ==> Count(log, OpenCb) == 0)
    ensures Count(log, CloseCb) == if Phase(log) == 2 then 1 else 0
    ensures Phase(log) == 1 ==> OpenCb in log
    ensures Phase(log) <= 1 ==> CloseCb !in log
  {
    if log != [] {
      var init := log[..|log| - 1];
      PhaseMeans(init);
      assert log == init + [log[|log| - 1]];
      forall i | 0 <= i < |log| && log[i].PacketCb? ensures OpenCb in log[..i] {
        assert i < |init| ==> log[..i] == init[..i];
        assert log[..|init|] == init;
      }
    }
  }
}
