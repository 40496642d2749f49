/** `OPTPipe` and `OPTPipes` as objects, each method proved equal to its function in `PipesModel`. */
module PipesEndpoint {
  import opened Common
  import opened PipesModel

  class OptPipe {
    const id: U32
    const initiator: bool
    const underlying: OptPipes
    var openState: OpenState
    /** What the user was handed with the pipe. */
    var content: Bytes
    /** The callbacks so far. */
    var log: seq<Event>
    ghost var owned: bool
    ghost var sent: seq<Bytes>
    ghost var closedHere: bool
    ghost var heldDown: bool

    ghost function Value(registered: bool): Pipe
      reads this
    {
      Pipe(initiator, openState, registered, owned, log, sent, closedHere, heldDown, content)
    }

    /** Known to its endpoint under its id. */
    ghost predicate Valid()
      reads underlying, underlying.all.Values
    {
      underlying.Valid() && id in underlying.all && underlying.all[id] == this
    }

    /** What was handed to the transport meanwhile. */
    twostate predicate Says(packets: seq<Packet>)
      reads underlying
    {
      underlying.out == old(underlying.out) + packets
    }

    constructor (initiator: bool, underlying: OptPipes, id: U32)
      ensures this.id == id && this.initiator == initiator && this.underlying == underlying
      ensures Value(true) == NewPipe(true).(initiator := initiator)
    {
      this.initiator, this.underlying, this.id := initiator, underlying, id;
      openState, content, owned, log, sent, closedHere, heldDown := Fresh, [], true, [], [], false, false;
    }

    method Erase()
      requires Valid()
      modifies underlying
      ensures Valid() && underlying.pipes == old(underlying.pipes) - {id}
      ensures underlying.SameBut()
    {
      if id in underlying.pipes {
        underlying.pipes := underlying.pipes - {id};
      }
    }

    method Start()
      requires Valid()
      modifies this, underlying
      ensures Valid() && underlying.all == old(underlying.all)
      ensures underlying.State() == Use(old(underlying.State()), id, Op.Start)
      ensures old(openState) == Fresh ==> openState == OpenRequestSent && Says([Packet(id, Req([]))]) && log == old(log)
      ensures old(openState) == OpenRequestRecv ==> openState == Opened && Says([Packet(id, Resp)]) && log == old(log) + [OpenCb]
      ensures old(openState) !in {Fresh, OpenRequestRecv} ==> openState == old(openState) && Says([]) && log == old(log)
    {
      if openState == Fresh {
        openState := OpenRequestSent;
        underlying.Transmit(Packet(id, Req([])));
      } else if openState == OpenRequestRecv {
        openState := Opened;
        log := log + [OpenCb];
        underlying.Transmit(Packet(id, Resp));
      }
      underlying.OneChanged(id);
    }

    method StartClient(data: Bytes)
      requires Valid()
      modifies this, underlying
      ensures Valid() && underlying.all == old(underlying.all)
      ensures underlying.State() == Use(old(underlying.State()), id, Op.StartClient(data))
      ensures old(openState) == Fresh ==> openState == OpenRequestSent && Says([Packet(id, Req(data))])
      ensures old(openState) != Fresh ==> openState == old(openState) && Says([])
    {
      if openState == Fresh {
        openState := OpenRequestSent;
        underlying.Transmit(Packet(id, Req(data)));
      }
      underlying.OneChanged(id);
    }

    method Send(packet: Bytes)
      requires Valid()
      modifies this, underlying
      ensures Valid() && underlying.all == old(underlying.all)
      ensures underlying.State() == Use(old(underlying.State()), id, SendData(packet))
      ensures Says([Packet(id, Data(packet))]) && openState == old(openState) && log == old(log)
    {
      sent := sent + [packet];
      underlying.Transmit(Packet(id, Data(packet)));
      underlying.OneChanged(id);
    }

    method Close()
      requires Valid()
      modifies this, underlying
      ensures Valid() && underlying.all == old(underlying.all)
      ensures underlying.State() == Use(old(underlying.State()), id, CloseIt)
      ensures underlying.pipes == old(underlying.pipes) - {id} && openState == Closed
      ensures old(openState) == Closed ==> Says([]) && log == old(log)
      ensures old(openState) != Closed ==> Says([Packet(id, Body.Close)]) && log == old(log) + [CloseCb]
    {
      Erase();
      if openState != Closed {
        TellClosed();
      }
      underlying.OneChanged(id);
    }

    /** State, packet and callback of a close. */
    method TellClosed()
      modifies this, underlying`out
      ensures openState == Closed && closedHere && log == old(log) + [CloseCb]
      ensures owned == old(owned) && sent == old(sent) && heldDown == old(heldDown) && content == old(content)
      ensures underlying.out == old(underlying.out) + [Packet(id, Body.Close)]
    {
      openState := Closed;
      underlying.Transmit(Packet(id, Body.Close));
      log, closedHere := log + [CloseCb], true;
    }

    method Drop()
      requires Valid()
      modifies this, underlying
      ensures Valid() && underlying.all == old(underlying.all)
      ensures underlying.State() == Use(old(underlying.State()), id, Op.Drop)
      ensures underlying.pipes == old(underlying.pipes) - {id}
      ensures old(openState) in {Opened, OpenRequestSent} ==>
                openState == Closed && Says([Packet(id, Body.Close)]) && log == old(log) + [CloseCb]
      ensures old(openState) !in {Opened, OpenRequestSent} ==> openState == old(openState) && Says([]) && log == old(log)
    {
      if openState == Opened || openState == OpenRequestSent {
        ghost var before := underlying.State();
        Close();
        Release();
        UpdateTwice(before.pipes, id, Apply(before.pipes[id], CloseIt), Apply(before.pipes[id], Op.Drop));
      } else {
        DropUnopened();
      }
    }

    method DropUnopened()
      requires Valid()
      modifies this, underlying
      ensures Valid() && underlying.all == old(underlying.all)
      ensures underlying.State() == var e := old(underlying.State());
                                    e.(pipes := e.pipes[id := e.pipes[id].(registered := false, owned := false)])
      ensures underlying.pipes == old(underlying.pipes) - {id}
      ensures openState == old(openState) && Says([]) && log == old(log)
    {
      Erase();
      owned := false;
      underlying.OneChanged(id);
    }

    /** The user lets go of the pipe. */
    ghost method Release()
      requires Valid()
      modifies this`owned
      ensures Valid()
      ensures underlying.State() == var e := old(underlying.State());
                                    e.(pipes := e.pipes[id := e.pipes[id].(owned := false)])
    {
      owned := false;
      underlying.OneChanged(id);
    }

    method OnOpenExpired()
      requires Valid()
      modifies this, underlying
      ensures Valid() && underlying.all == old(underlying.all)
      ensures underlying.State() == Use(old(underlying.State()), id, Expire)
      ensures old(openState) == OpenRequestSent ==>
                openState == Closed && Says([Packet(id, Body.Close)]) && log == old(log) + [CloseCb]
      ensures old(openState) != OpenRequestSent ==>
                openState == old(openState) && Says([]) && log == old(log) && underlying.pipes == old(underlying.pipes)
    {
      if openState == OpenRequestSent {
        Close();
      }
    }
  }

  class OptPipes {
    const isClient: bool
    var nextId: U32
    /** `_pipes` */
    var pipes: map<U32, OptPipe>
    /** What was handed to the transport. */
    var out: seq<Packet>
    ghost var count: nat
    /** Every pipe object there ever was. */
    ghost var all: map<U32, OptPipe>
    ghost var down: bool

    ghost predicate Valid()
      reads this
    {
      && Mine(isClient, nextId)
      && (forall i :: i in all ==> all[i].id == i && all[i].underlying == this && all[i].initiator == Mine(isClient, i))
      && (forall i :: i in pipes ==> i in all && pipes[i] == all[i])
    }

    ghost function State(): Endpoint
      requires Valid()
      reads this, all.Values
    {
      Endpoint(isClient, nextId, count, map i | i in all :: all[i].Value(i in pipes), out, down)
    }

    /** Everything but the registry is as it was. */
    twostate predicate SameBut()
      reads this
    {
      nextId == old(nextId) && count == old(count) && all == old(all) && out == old(out) && down == old(down)
    }

    /** When only the pipe of one id and its registration changed, or it is new, so did only its entry. */
    twostate lemma OneChanged(i: U32)
      requires old(Valid()) && Valid() && i in all && all.Keys == old(all.Keys) + {i}
      requires forall j :: j in old(all) && j != i ==>
                 all[j] == old(all[j]) && unchanged(all[j]) && (j in pipes <==> j in old(pipes))
      ensures State().pipes == old(State()).pipes[i := all[i].Value(i in pipes)]
    {
    }

    constructor (isClient: bool)
      ensures Valid() && all == map[] && State() == NewEndpoint(isClient)
    {
      this.isClient := isClient;
      nextId := if isClient then 1 else 0;
      pipes, count, all, out, down := map[], 0, map[], [], false;
      new;
      assert State().pipes == map[];
    }

    /** Hand a packet to the transport. */
    method Transmit(packet: Packet)
      modifies this`out
      ensures out == old(out) + [packet]
    {
      out := out + [packet];
    }

    method OpenPipe() returns (pipe: OptPipe)
      requires Valid()
      modifies this
      ensures Valid() && fresh(pipe) && pipe.id == old(nextId) && pipe.Value(true) == NewPipe(true)
      ensures all == if old(nextId) in old(pipes) then old(all) else old(all)[old(nextId) := pipe]
      ensures State() == PipesModel.OpenPipe(old(State()))
    {
      pipe := new OptPipe(true, this, nextId);
      TakeId();
      if pipe.id !in pipes {
        Register(pipe);
      }
    }

    method TakeId()
      requires Valid()
      modifies this`nextId, this`count
      ensures Valid() && State() == var e := old(State()); e.(nextId := (e.nextId + 2) % TWO_32, count := e.count + 1)
    {
      nextId := (nextId + 2) % TWO_32;
      count := count + 1;
    }

    /** A new pipe under an id not registered. */
    method Register(pipe: OptPipe)
      requires Valid() && pipe.underlying == this && pipe.initiator == Mine(isClient, pipe.id)
      requires pipe !in all.Values && pipe.id !in pipes
      modifies this`pipes, this`all
      ensures Valid() && all == old(all)[pipe.id := pipe] && pipes == old(pipes)[pipe.id := pipe]
      ensures State() == var e := old(State()); e.(pipes := e.pipes[pipe.id := pipe.Value(true)])
    {
      pipes := pipes[pipe.id := pipe];
      all := all[pipe.id := pipe];
      OneChanged(pipe.id);
    }

    /** `on_packet`, the four pipe packets. */
    method OnPacket(packet: Packet)
      requires Valid()
      modifies this, all.Values
      ensures Valid() && all.Keys >= old(all.Keys)
      ensures State() == PipesModel.OnPacket(old(State()), packet)
      ensures forall i :: i in old(all) && (i in old(pipes) || Mine(isClient, i) || !packet.body.Req? || i != packet.id) ==>
                all[i] == old(all[i])
      ensures forall i :: i in all && i !in old(all) ==> fresh(all[i])
    {
      match packet.body
      case Req(data) => OnRequest(packet.id, data);
      case Resp => OnResponse(packet.id);
      case Close => OnPipeClose(packet.id);
      case Data(d) => OnData(packet.id, d);
    }

    method OnRequest(i: U32, data: Bytes)
      requires Valid()
      modifies this
      ensures Valid() && all.Keys >= old(all.Keys)
      ensures State() == PipesModel.OnPacket(old(State()), Packet(i, Req(data)))
      ensures out == old(out)
      ensures i in pipes <==> i in old(pipes) || (i % 2 == 1) != isClient
      ensures i in pipes && i !in old(pipes) ==> pipes[i].openState == OpenRequestRecv && pipes[i].content == data
      ensures forall j :: j in old(all) && (j in old(pipes) || Mine(isClient, j) || j != i) ==> all[j] == old(all[j])
      ensures forall j :: j in all && j !in old(all) ==> fresh(all[j])
    {
      if (i % 2 == 1) != isClient {
        if i !in pipes {
          Incoming(i, data);
        }
      }
    }

    method Incoming(i: U32, data: Bytes)
      requires Valid() && !Mine(isClient, i) && i !in pipes
      modifies this
      ensures Valid() && all.Keys >= old(all.Keys)
      ensures State() == var e := old(State()); e.(pipes := e.pipes[i := PipesModel.Incoming(data)])
      ensures i in all && all == old(all)[i := all[i]] && fresh(all[i]) && pipes == old(pipes)[i := all[i]]
      ensures all[i].openState == OpenRequestRecv && all[i].content == data && out == old(out)
    {
      var pipe := new OptPipe(false, this, i);
      pipe.openState, pipe.content := OpenRequestRecv, data;
      assert pipe.Value(true) == PipesModel.Incoming(data);
      assert Valid() && State() == old(State());
      Register(pipe);
    }

    method OnResponse(i: U32)
      requires Valid()
      modifies this, all.Values
      ensures Valid() && all == old(all)
      ensures State() == PipesModel.OnPacket(old(State()), Packet(i, Resp))
      ensures pipes == old(pipes) && out == old(out)
      ensures i in pipes && (i % 2 == 1) == isClient && old(pipes[i].openState) == OpenRequestSent ==>
                pipes[i].openState == Opened && pipes[i].log == old(pipes[i].log) + [OpenCb]
      ensures i in pipes && !((i % 2 == 1) == isClient && old(pipes[i].openState) == OpenRequestSent) ==>
                pipes[i].openState == old(pipes[i].openState) && pipes[i].log == old(pipes[i].log)
    {
      if (i % 2 == 1) == isClient {
        if i in pipes {
          var pipe := pipes[i];
          if pipe.openState == OpenRequestSent {
            pipe.openState := Opened;
            pipe.log := pipe.log + [OpenCb];
            OneChanged(i);
          }
        }
      }
    }

    method OnPipeClose(i: U32)
      requires Valid()
      modifies this, all.Values
      ensures Valid() && all == old(all)
      ensures State() == PipesModel.OnPacket(old(State()), Packet(i, Body.Close))
      ensures pipes == old(pipes) - {i} && out == old(out)
      ensures i in old(pipes) ==>
                var p := old(pipes[i]);
                p.openState == Closed && p.log == old(p.log) + (if old(p.openState) == Closed then [] else [CloseCb])
    {
      if i in pipes {
        var pipe := pipes[i];
        pipes := pipes - {i};
        if pipe.openState != Closed {
          pipe.openState := Closed;
          pipe.log := pipe.log + [CloseCb];
        }
        OneChanged(i);
      }
    }

    method OnData(i: U32, data: Bytes)
      requires Valid()
      modifies this, all.Values
      ensures Valid() && all == old(all)
      ensures State() == PipesModel.OnPacket(old(State()), Packet(i, Data(data)))
      ensures pipes == old(pipes) && out == old(out)
      ensures i in pipes ==>
                && pipes[i].openState == old(pipes[i].openState)
                && pipes[i].log == old(pipes[i].log) + (if pipes[i].openState == Opened then [PacketCb(data)] else [])
    {
      if i in pipes {
        var pipe := pipes[i];
        if pipe.openState == Opened {
          pipe.log := pipe.log + [PacketCb(data)];
          OneChanged(i);
        }
      }
    }

    /** `on_close` */
    method OnClose()
      requires Valid()
      modifies this, all.Values
      ensures Valid() && all == old(all)
      ensures State() == OnDown(old(State())) && pipes == old(pipes) && out == old(out)
      ensures forall i :: i in pipes ==>
                pipes[i].log == old(pipes[i].log) + [DownCb] && pipes[i].openState == old(pipes[i].openState)
    {
      TellAll();
      AllTold();
      down := true;
    }

    twostate lemma AllTold()
      requires old(Valid()) && Valid() && all == old(all) && pipes == old(pipes)
      requires State().pipes == OnDown(old(State())).pipes
      ensures forall i :: i in pipes ==>
                pipes[i].log == old(pipes[i].log) + [DownCb] && pipes[i].openState == old(pipes[i].openState)
    {
      forall i | i in pipes
        ensures pipes[i].log == old(pipes[i].log) + [DownCb] && pipes[i].openState == old(pipes[i].openState)
      {
        assert State().pipes[i] == all[i].Value(true);
        assert old(State()).pipes[i] == old(all[i].Value(true));
      }
    }

    /** The loop of `on_close`. */
    method TellAll()
      requires Valid()
      modifies all.Values
      ensures Valid() && State() == var e := old(State()); e.(pipes := OnDown(e).pipes)
    {
      ghost var before := State();
      var todo := pipes.Keys;
      PartDownEnds(before.pipes, todo);
      while todo != {}
        invariant todo <= pipes.Keys && Valid()
        invariant State() == before.(pipes := PartDown(before.pipes, todo))
      {
        var i :| i in todo;
        NotifyClose(i);
        PartDownStep(before.pipes, todo, i);
        todo := todo - {i};
      }
      PartDownDone(before, todo);
    }

    method NotifyClose(i: U32)
      requires Valid() && i in pipes
      modifies all[i]
      ensures Valid() && all == old(all) && pipes == old(pipes)
      ensures State() == var e := old(State()); e.(pipes := e.pipes[i := Downed(e.pipes[i])])
    {
      pipes[i].log := pipes[i].log + [DownCb];
      pipes[i].heldDown := true;
      OneChanged(i);
    }
  }

  /** `on_close` with some pipes still to be told. */
  ghost function PartDown(m: map<U32, Pipe>, todo: set<U32>): map<U32, Pipe>
  {
    map i | i in m :: if i in todo then m[i] else Downed(m[i])
  }

  lemma PartDownEnds(m: map<U32, Pipe>, todo: set<U32>)
    requires forall i :: i in m ==> (m[i].registered <==> i in todo)
    ensures PartDown(m, todo) == m
  {
  }

  lemma PartDownDone(e: Endpoint, todo: set<U32>)
    requires todo == {}
    ensures PartDown(e.pipes, todo) == OnDown(e).pipes
  {
  }

  lemma PartDownStep(m: map<U32, Pipe>, todo: set<U32>, i: U32)
    requires i in todo && i in m
    ensures PartDown(m, todo)[i := Downed(PartDown(m, todo)[i])] == PartDown(m, todo - {i})
  {
  }
}
