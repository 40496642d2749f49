/** The class `OPTUDP`, method by method, against the value-level functions of `UdpModel`. */
module UdpEndpoint {
  import opened Common
  import opened Fragmentation
  import opened UdpModel
  import opened UdpWire
  import opened UdpRetransmit

  class OptUdp {
    // Receive side
    var receiveMap: map<SeqNo, Fragment>
    var reassembleList: seq<Bytes>
    var rxSeq: SeqNo
    var lastPongIn: Time
    // Transmit side
    var transmitQueue: seq<TxEntry>
    var txSeq: SeqNo
    var retransmitTimer: Option<Time>
    var pongTimer: Option<Time>
    const maxMtu: nat

    // History of the collaborators: the socket, the callbacks, and the unbounded counts behind
    // the two 26-bit fragment numbers
    var txIndex: nat
    var rxIndex: nat
    var socketOut: seq<Bytes>
    var delivered: seq<Bytes>
    var raw: seq<Bytes>
    var errors: nat
    var closed: bool

    constructor (mtu: nat)
      requires 5 < mtu <= 0xffff
      ensures Tx() == INITIAL_TX && Rx() == INITIAL_RX && Valid()
      ensures retransmitTimer == None && pongTimer == None
      ensures maxMtu == mtu && socketOut == [] && raw == [] && errors == 0 && !closed
    {
      receiveMap, reassembleList, rxSeq, lastPongIn := map[], [], SeqNo(0, 0), 0;
      transmitQueue, txSeq, retransmitTimer, pongTimer := [], SeqNo(0, 0), None, None;
      txIndex, rxIndex, socketOut, delivered, raw, errors, closed := 0, 0, [], [], [], 0, false;
      maxMtu := mtu;
    }

    ghost predicate Valid()
      reads this
    {
      5 < maxMtu <= 0xffff && EntriesOk(transmitQueue) && txSeq.rt == 0
    }

    function Tx(): Tx
      reads this
    {
      UdpModel.Tx(txSeq, txIndex, transmitQueue)
    }

    function Rx(): Rx
      reads this
    {
      UdpModel.Rx(receiveMap, reassembleList, rxSeq, rxIndex, delivered)
    }

    method NextSeq(n: nat) returns (s: SeqNo)
      requires Valid()
      modifies this`txSeq, this`txIndex
      ensures Valid()
      ensures s == old(txSeq) && Tx() == AfterReserve(old(Tx()), n)
      ensures txSeq == SeqNo((s.num + n) % 0x400_0000, s.rt) && txIndex == old(txIndex) + n
    {
      s := txSeq;
      txSeq := Plus(txSeq, n);
      txIndex := txIndex + n;
    }

    /** `reset_retransmit_timer` */
    method ResetRetransmitTimer(delta: nat)
      requires Valid()
      modifies this`retransmitTimer
      ensures retransmitTimer == Deadline(transmitQueue, delta)
      ensures transmitQueue == [] ==> retransmitTimer == None
      ensures transmitQueue != [] ==>
                var front := transmitQueue[0];
                retransmitTimer == Some(front.transmits[front.frame.seqno.rt] + delta)
    {
      retransmitTimer := None;
      if |transmitQueue| > 0 {
        var oldRt := transmitQueue[0].frame.seqno.rt;
        retransmitTimer := Some(transmitQueue[0].transmits[oldRt] + delta);
      }
    }

    /** `reset_pong_timeout_timer` */
    method ResetPongTimeoutTimer()
      modifies this`pongTimer
      ensures pongTimer == Some(lastPongIn + 30_000_000)
    {
      pongTimer := Some(lastPongIn + MAX_PONG);
    }

    /** `on_pong_timeout_timer` */
    method OnPongTimeoutTimer(now: Time)
      requires Valid()
      modifies this`closed, this`pongTimer
      ensures closed == (old(closed) || lastPongIn + 30_000_000 < now) && pongTimer == Some(lastPongIn + 30_000_000)
    {
      if lastPongIn + MAX_PONG < now {
        closed := true;
      }
      ResetPongTimeoutTimer();
    }

    /** One pass of the loop of `send`: queue the frame and send it, under one lock. */
    method EmitFrame(f: Frame, now: Time)
      requires Valid() && f.seqno.rt == 0
      modifies this`transmitQueue, this`socketOut
      ensures Valid()
      ensures Tx() == AfterEmit(old(Tx()), f, now) && transmitQueue == old(transmitQueue) + [TxEntry([now], f)]
      ensures socketOut == old(socketOut) + [EncodeData(f.seqno, f.frag)]
    {
      transmitQueue := transmitQueue + [TxEntry([now], f)];
      socketOut := socketOut + [EncodeData(f.seqno, f.frag)];
    }

    /** The loop of `send`: `clock[k]` is the time read for the k-th frame of the reserved block. */
    method EmitAll(data: Message, first: nat, s0: SeqNo, count: nat, ghost fs: seq<Fragment>, clock: seq<Time>)
      requires Valid() && s0.rt == 0 && |fs| <= |clock|
      requires Remaining(data, 0, count, fs)
      modifies this`transmitQueue, this`socketOut
      ensures Valid()
      ensures transmitQueue == old(transmitQueue) + FirstEntries(Frames(first, s0, fs), clock)
      ensures socketOut == old(socketOut) + EncodeAll(Frames(first, s0, fs))
    {
      ghost var frames, q0, out := Frames(first, s0, fs), transmitQueue, socketOut;
      var k, progress, packetsLeft, s, index := 0, 0, count, s0, first;
      while progress < |data|
        invariant Valid() && s == Plus(s0, k) && index == first + k && progress <= |data|
        invariant BlockQueued(frames, clock, k, q0, transmitQueue, out, socketOut)
        invariant Remaining(data, progress, packetsLeft, fs[k..])
        decreases |data| - progress
      {
        FrameOfBlock(first, s0, fs, k);
        SendStep(data, progress, packetsLeft, fs[k..]);
        QueueOne(frames, clock, k, q0, transmitQueue, out, socketOut);
        PlusPlus(s0, k, 1);
        var packetData := EmitNext(data, progress, packetsLeft, index, s, clock[k]);
        s, index, packetsLeft, progress, k := Plus(s, 1), index + 1, packetsLeft - 1, progress + packetData, k + 1;
      }
      assert frames[..k] == frames;
    }

    /** One pass of that loop: how much goes into the next frame, and of which kind it is. */
    method EmitNext(data: Message, progress: nat, packetsLeft: nat, index: nat, s: SeqNo, now: Time) returns (packetData: nat)
      requires Valid() && s.rt == 0 && progress < |data| && 0 < packetsLeft
      requires progress + NextSize(|data| - progress, packetsLeft) <= |data|
      modifies this`transmitQueue, this`socketOut
      ensures Valid() && packetData == NextSize(|data| - progress, packetsLeft)
      ensures var dataLeft := |data| - progress;
              var frag := Fragment(KindOf(progress, packetData, dataLeft), data[progress..progress + packetData]);
              transmitQueue == old(transmitQueue) + [TxEntry([now], Frame(index, s, frag))]
              && socketOut == old(socketOut) + [EncodeData(s, frag)]
    {
      var dataLeft := |data| - progress;
      packetData := NextSize(dataLeft, packetsLeft);
      var kind :=
        if progress == 0 then (if packetData == dataLeft then Single else Start)
        else (if packetData == dataLeft then End else Mid);
      EmitFrame(Frame(index, s, Fragment(kind, data[progress..progress + packetData])), now);
    }

    /** `send`, with nothing else running. It touches nothing of the receive side. */
    method Send(data: Message, clock: seq<Time>, delta: nat)
      requires Valid() && |Fragments(data, maxMtu - 5)| <= |clock|
      modifies this`txSeq, this`txIndex, this`transmitQueue, this`socketOut, this`retransmitTimer
      ensures Valid()
      ensures var frames := Frames(old(txIndex), old(txSeq), Fragments(data, maxMtu - 5));
              Tx() == AfterReserve(old(Tx()), ReservedCount(|data|, maxMtu - 5))
                .(queue := old(transmitQueue) + FirstEntries(frames, clock))
              && socketOut == old(socketOut) + EncodeAll(frames)
      ensures retransmitTimer == Deadline(transmitQueue, delta)
    {
      var packetsLeft := ReservedCount(|data|, maxMtu - 5);
      var index := txIndex;
      var s := NextSeq(packetsLeft);
      SendBlock(data, index, s, packetsLeft, clock);
      ResetRetransmitTimer(delta);
    }

    /** The frames of a message, under the block of numbers reserved for it. */
    method SendBlock(data: Message, first: nat, s0: SeqNo, count: nat, clock: seq<Time>)
      requires Valid() && s0.rt == 0 && count == ReservedCount(|data|, maxMtu - 5)
      requires |Fragments(data, maxMtu - 5)| <= |clock|
      modifies this`transmitQueue, this`socketOut
      ensures Valid()
      ensures var frames := Frames(first, s0, Fragments(data, maxMtu - 5));
              transmitQueue == old(transmitQueue) + FirstEntries(frames, clock)
              && socketOut == old(socketOut) + EncodeAll(frames)
    {
      SendStart(data, maxMtu - 5);
      EmitAll(data, first, s0, count, Fragments(data, maxMtu - 5), clock);
    }

    /** The acknowledgement case of `on_receive`: erase every entry the number matches. */
    method OnAck(s: SeqNo, delta: nat)
      requires Valid()
      modifies this`transmitQueue, this`retransmitTimer
      ensures Valid() && transmitQueue == AfterAck(old(transmitQueue), s)
      ensures retransmitTimer == Deadline(transmitQueue, delta)
    {
      AckKeeps(transmitQueue, s);
      EraseAcked(s);
      ResetRetransmitTimer(delta);
    }

    method EraseAcked(s: SeqNo)
      modifies this`transmitQueue
      ensures transmitQueue == AfterAck(old(transmitQueue), s)
    {
      ghost var q, n := transmitQueue, 0;
      var it := 0;
      while it < |transmitQueue|
        invariant AckedSoFar(q, n, s, transmitQueue, it)
        decreases |transmitQueue| - it
      {
        AckTurn(q, n, s, transmitQueue, it);
        if transmitQueue[it].frame.seqno.num == s.num && s.rt < |transmitQueue[it].transmits| {
          transmitQueue := transmitQueue[..it] + transmitQueue[it + 1..];
        } else {
          it := it + 1;
        }
        n := n + 1;
      }
      AckedAll(q, n, s, transmitQueue, it);
    }

    /** The concatenation inside `try_reassemble`. */
    static method Assemble(list: seq<Bytes>) returns (buffer: Bytes)
      ensures buffer == Flatten(list)
    {
      buffer := [];
      for i := 0 to |list|
        invariant buffer == Flatten(list[..i])
      {
        assert list[..i + 1] == list[..i] + [list[i]];
        FlattenSnoc(list[..i], list[i]);
        buffer := buffer + list[i];
      }
      assert list[..|list|] == list;
    }

    method TryReassemble()
      modifies this`receiveMap, this`reassembleList, this`rxSeq, this`rxIndex, this`delivered
      ensures Rx() == Drain(old(Rx()))
    {
      while rxSeq in receiveMap
        invariant Drain(Rx()) == Drain(old(Rx()))
        decreases |receiveMap|
      {
        RemovalShrinks(receiveMap, rxSeq);
        var packet := receiveMap[rxSeq];
        receiveMap := receiveMap - {rxSeq};
        reassembleList := reassembleList + [packet.data];
        if packet.kind == End || packet.kind == Single {
          var assembled := Assemble(reassembleList);
          delivered := delivered + [assembled];
          reassembleList := [];
        }
        rxSeq := Plus(rxSeq, 1);
        rxIndex := rxIndex + 1;
      }
    }

    /** The data case of `on_receive`. */
    method OnData(s: SeqNo, frag: Fragment)
      modifies this`receiveMap, this`reassembleList, this`rxSeq, this`rxIndex, this`delivered, this`socketOut
      ensures socketOut == old(socketOut) + [EncodeAck(s)]
      ensures Rx() == Accept(FullSeq, old(Rx()), s, frag)
      ensures old(rxSeq) !in old(receiveMap) && s != old(rxSeq) ==>
                rxSeq == old(rxSeq) && delivered == old(delivered) && reassembleList == old(reassembleList)
      ensures old(rxSeq) !in old(receiveMap) && s != old(rxSeq) ==>
                receiveMap == if Advance(s, rxSeq) >= 0 && s !in old(receiveMap) then old(receiveMap)[s := frag] else old(receiveMap)
    {
      socketOut := socketOut + [EncodeAck(s)];
      if Advance(s, rxSeq) >= 0 {
        receiveMap := Insert(receiveMap, s, frag);
        TryReassemble();
      }
    }

    /** `on_receive`: `now` and `delta` stand for the clock and the retransmit delay. */
    method OnReceive(data: Bytes, now: Time, delta: nat)
      requires Valid()
      modifies this
      ensures Valid() && txSeq == old(txSeq) && txIndex == old(txIndex)
      ensures closed == (old(closed) || Decode(data) == Malformed)
      ensures errors == old(errors) + (if Decode(data) == BadPing then 1 else 0)
      ensures raw == old(raw) + (if Decode(data).Raw? then [data] else [])
      ensures lastPongIn == if Decode(data) == Pong then now else old(lastPongIn)
      ensures pongTimer == if Decode(data) == Pong then Some(now + 30_000_000) else old(pongTimer)
      ensures match Decode(data)
              case Ack(s) => transmitQueue == AfterAck(old(transmitQueue), s) && retransmitTimer == Deadline(transmitQueue, delta)
              case _ => transmitQueue == old(transmitQueue) && retransmitTimer == old(retransmitTimer)
      ensures match Decode(data)
              case Data(s, frag) => Rx() == Accept(FullSeq, old(Rx()), s, frag)
              case _ => Rx() == old(Rx())
      ensures match Decode(data)
              case Data(s, _) => socketOut == old(socketOut) + [EncodeAck(s)]
              case Ping(request) => socketOut == old(socketOut) + [request[0 := MGMT_PONG]]
              case _ => socketOut == old(socketOut)
    {
      if |data| < 1 {
        closed := true;
        return;
      }
      var kind := data[0];
      if kind == MGMT_PING {
        if |data| == 65 {
          socketOut := socketOut + [data[0 := MGMT_PONG]];
        } else {
          errors := errors + 1;
        }
      } else if kind == MGMT_PONG {
        lastPongIn := now;
        ResetPongTimeoutTimer();
      } else if kind == PKT_ACK {
        if |data| != 5 {
          closed := true;
          return;
        }
        OnAck(FromU32(FromLE32(data[1..5])), delta);
      } else if KindOfByte(kind).Some? {
        if |data| < 5 {
          closed := true;
          return;
        }
        OnData(FromU32(FromLE32(data[1..5])), Fragment(KindOfByte(kind).value, data[5..]));
      } else if kind == UDP_PIPE {
        raw := raw + [data];
      }
    }

    /** One turn of the retransmit loop: advance the number of the front entry, send it, move it back. */
    method ResendFront(now: Time)
      requires Valid() && transmitQueue != []
      modifies this`transmitQueue, this`socketOut
      ensures Valid()
      ensures var again := Refresh(old(transmitQueue)[0], now);
              transmitQueue == old(transmitQueue)[1..] + [again]
              && socketOut == old(socketOut) + [EncodeData(again.frame.seqno, again.frame.frag)]
    {
      var front := transmitQueue[0];
      var oldRt := front.frame.seqno.rt;
      var newRt := (oldRt + 1) % RT_COUNT;
      var times := if |front.transmits| <= newRt then front.transmits + [now] else front.transmits[newRt := now];
      var again := TxEntry(times, front.frame.(seqno := front.frame.seqno.(rt := newRt)));
      assert again == Refresh(front, now);
      socketOut := socketOut + [EncodeData(again.frame.seqno, again.frame.frag)];
      transmitQueue := transmitQueue[1..] + [again];
    }

    /** The retransmit loop: rotate the queue until the front is not overdue. */
    method ResendOverdue(now: Time, delta: nat)
      requires Valid() && transmitQueue != [] && 0 < delta
      modifies this`transmitQueue, this`socketOut
      ensures Valid()
      ensures transmitQueue == AfterRetransmit(old(transmitQueue), now, delta)
      ensures socketOut == old(socketOut) + EncodeAll(Resent(old(transmitQueue), now, delta))
    {
      ghost var q, out, k := transmitQueue, socketOut, 0;
      while true
        invariant Valid() && Turned(q, k, now, delta, transmitQueue, out, socketOut)
        decreases |q| - k
      {
        RotationFront(q, k, now, delta);
        if now < transmitQueue[0].transmits[transmitQueue[0].frame.seqno.rt] + delta {
          return;
        }
        TurnFront(q, k, now, delta, transmitQueue, out, socketOut);
        ResendFront(now);
        k := k + 1;
      }
    }

    /** `on_retransmit_timer` */
    method OnRetransmitTimer(now: Time, delta: nat)
      requires Valid() && MIN_DELTA <= delta <= MAX_DELTA
      modifies this`transmitQueue, this`socketOut, this`retransmitTimer
      ensures Valid()
      ensures transmitQueue == AfterRetransmit(old(transmitQueue), now, delta)
      ensures socketOut == old(socketOut) + EncodeAll(Resent(old(transmitQueue), now, delta))
      ensures retransmitTimer == Deadline(transmitQueue, delta)
    {
      if |transmitQueue| > 0 {
        ResendOverdue(now, delta);
      }
      ResetRetransmitTimer(delta);
    }

    method SendRaw(data: Bytes)
      modifies this`socketOut
      ensures socketOut == old(socketOut) + [EncodeRaw(data)]
    {
      socketOut := socketOut + [EncodeRaw(data)];
    }
  }

  /** One turn of the acknowledgement loop, entry `n` at the iterator. */
  lemma AckStep(q: seq<TxEntry>, n: nat, s: SeqNo)
    requires n < |q|
    ensures var kept, rest := AfterAck(q[..n], s), q[n..];
            && (kept + rest)[|kept|] == q[n]
            && (Acks(s, q[n]) ==> AfterAck(q[..n + 1], s) == kept
                                  && (kept + rest)[..|kept|] + (kept + rest)[|kept| + 1..] == kept + q[n + 1..])
            && (!Acks(s, q[n]) ==> AfterAck(q[..n + 1], s) == kept + [q[n]]
                                   && kept + rest == kept + [q[n]] + q[n + 1..])
  {
    assert q[..n + 1][..n] == q[..n];
    RemoveAt(AfterAck(q[..n], s), q[n], q[n + 1..]);
    assert q[n..] == [q[n]] + q[n + 1..];
  }

  /** The queue with the first `n` of its entries looked at, the iterator behind those that stay. */
  ghost predicate AckedSoFar(q: seq<TxEntry>, n: nat, s: SeqNo, queue: seq<TxEntry>, it: nat)
  {
    n <= |q| && it == |AfterAck(q[..n], s)| && queue == AfterAck(q[..n], s) + q[n..]
  }

  lemma AckTurn(q: seq<TxEntry>, n: nat, s: SeqNo, queue: seq<TxEntry>, it: nat)
    requires AckedSoFar(q, n, s, queue, it) && it < |queue|
    ensures Acks(s, queue[it]) ==> AckedSoFar(q, n + 1, s, queue[..it] + queue[it + 1..], it)
    ensures !Acks(s, queue[it]) ==> AckedSoFar(q, n + 1, s, queue, it + 1)
  {
    AckStep(q, n, s);
  }

  lemma AckedAll(q: seq<TxEntry>, n: nat, s: SeqNo, queue: seq<TxEntry>, it: nat)
    requires AckedSoFar(q, n, s, queue, it) && |queue| <= it
    ensures queue == AfterAck(q, s)
  {
    assert q[..n] == q;
  }

  lemma RemoveAt<T>(a: seq<T>, x: T, b: seq<T>)
    ensures (a + ([x] + b))[|a|] == x
    ensures (a + ([x] + b))[..|a|] == a && (a + ([x] + b))[|a| + 1..] == b
    ensures a + ([x] + b) == a + [x] + b
  {
  }

  /** After `k` turns the front is entry `k`, or, when all were resent, one that cannot be overdue. */
  lemma RotationFront(q: seq<TxEntry>, k: nat, now: Time, delta: nat)
    requires EntriesOk(q) && q != [] && 0 < delta && k <= OverduePrefix(q, now, delta)
    ensures var front := (q[k..] + RefreshAll(q[..k], now))[0];
            EntryOk(front) && (Overdue(front, now, delta) <==> k < OverduePrefix(q, now, delta))
            && (k < |q| ==> front == q[k])
  {
    if k == |q| {
      RefreshAllAt(q[..k], now, 0);
    }
  }

  lemma Rotate<T>(x: T, a: seq<T>, b: seq<T>, y: T)
    ensures ([x] + a + b)[1..] + [y] == a + (b + [y])
  {
  }

  lemma RefreshSnoc(q: seq<TxEntry>, k: nat, now: Time)
    requires EntriesOk(q) && k < |q|
    ensures RefreshAll(q[..k + 1], now) == RefreshAll(q[..k], now) + [Refresh(q[k], now)]
  {
    assert q[..k + 1][..k] == q[..k];
  }

  lemma EncodeSnoc(q: seq<TxEntry>, e: TxEntry)
    ensures EncodeAll(FramesOf(q + [e])) == EncodeAll(FramesOf(q)) + [EncodeData(e.frame.seqno, e.frame.frag)]
  {
    assert (q + [e])[..|q|] == q;
    var f := FramesOf(q);
    assert (f + [e.frame])[..|f|] == f;
  }

  lemma RotationStep(q: seq<TxEntry>, k: nat, now: Time)
    requires EntriesOk(q) && k < |q|
    ensures RefreshAll(q[..k + 1], now) == RefreshAll(q[..k], now) + [Refresh(q[k], now)]
    ensures (q[k..] + RefreshAll(q[..k], now))[1..] + [Refresh(q[k], now)]
            == q[k + 1..] + RefreshAll(q[..k + 1], now)
  {
    RefreshSnoc(q, k, now);
    assert q[k..] == [q[k]] + q[k + 1..];
    Rotate(q[k], q[k + 1..], RefreshAll(q[..k], now), Refresh(q[k], now));
  }

  /** The queue and the wire after `k` turns of the retransmit loop, none of them beyond the overdue prefix. */
  ghost predicate Turned(q: seq<TxEntry>, k: nat, now: Time, delta: nat, queue: seq<TxEntry>, out: seq<Bytes>, wire: seq<Bytes>)
  {
    && EntriesOk(q) && q != [] && k <= OverduePrefix(q, now, delta)
    && queue == q[k..] + RefreshAll(q[..k], now)
    && wire == out + EncodeAll(FramesOf(RefreshAll(q[..k], now)))
  }

  lemma TurnFront(q: seq<TxEntry>, k: nat, now: Time, delta: nat, queue: seq<TxEntry>, out: seq<Bytes>, wire: seq<Bytes>)
    requires Turned(q, k, now, delta, queue, out, wire)
    requires k < OverduePrefix(q, now, delta)
    ensures queue != [] && EntryOk(queue[0])
    ensures var again := Refresh(queue[0], now);
            Turned(q, k + 1, now, delta, queue[1..] + [again], out, wire + [EncodeData(again.frame.seqno, again.frame.frag)])
  {
    var again := Refresh(q[k], now);
    assert queue[0] == q[k];
    RotationStep(q, k, now);
    EncodeSnoc(RefreshAll(q[..k], now), again);
    AppendAssoc(out, EncodeAll(FramesOf(RefreshAll(q[..k], now))), [EncodeData(again.frame.seqno, again.frame.frag)]);
  }

  function EncodeAll(frames: seq<Frame>): (r: seq<Bytes>)
    ensures |r| == |frames|
  {
    if frames == [] then [] else
      EncodeAll(frames[..|frames| - 1])
      + [EncodeData(frames[|frames| - 1].seqno, frames[|frames| - 1].frag)]
  }

  /** `rest` is what the loop of `send` has yet to emit. */
  ghost predicate Remaining(data: Bytes, progress: nat, left: nat, rest: seq<Fragment>)
  {
    if data == [] then rest == [] else Splittable(data, progress, left) && rest == FragmentsFrom(data, progress, left)
  }

  lemma FrameOfBlock(first: nat, s0: SeqNo, fs: seq<Fragment>, k: nat)
    ensures k < |fs| ==> Frames(first, s0, fs)[k] == Frame(first + k, Plus(s0, k), fs[k])
    ensures k < |fs| ==> fs[k..][0] == fs[k] && fs[k..][1..] == fs[k + 1..]
  {
  }

  lemma SendStart(data: Message, limit: nat)
    requires limit > 0
    ensures Remaining(data, 0, ReservedCount(|data|, limit), Fragments(data, limit))
  {
    if data != [] {
      ReservedSplits(data, limit);
    }
  }

  lemma SendStep(data: Bytes, progress: nat, left: nat, rest: seq<Fragment>)
    requires progress < |data| && Remaining(data, progress, left, rest)
    ensures 0 < left && rest != []
    ensures var n := NextSize(|data| - progress, left);
            0 < n <= |data| - progress
            && rest[0] == Fragment(KindOf(progress, n, |data| - progress), data[progress..progress + n])
            && Remaining(data, progress + n, left - 1, rest[1..])
  {
    NextSizeFits(|data| - progress, left);
  }

  /** The queue and the wire after the first `k` frames of a block. */
  ghost predicate BlockQueued(frames: seq<Frame>, clock: seq<Time>, k: nat,
                         q0: seq<TxEntry>, queue: seq<TxEntry>, out: seq<Bytes>, wire: seq<Bytes>)
  {
    && k <= |frames| <= |clock|
    && queue == q0 + FirstEntries(frames[..k], clock)
    && wire == out + EncodeAll(frames[..k])
  }

  lemma QueueOne(frames: seq<Frame>, clock: seq<Time>, k: nat,
                 q0: seq<TxEntry>, queue: seq<TxEntry>, out: seq<Bytes>, wire: seq<Bytes>)
    requires k < |frames| && BlockQueued(frames, clock, k, q0, queue, out, wire)
    ensures BlockQueued(frames, clock, k + 1, q0, queue + [TxEntry([clock[k]], frames[k])],
                   out, wire + [EncodeData(frames[k].seqno, frames[k].frag)])
  {
    FirstEntriesSnoc(frames, clock, k);
    AppendAssoc(q0, FirstEntries(frames[..k], clock), [TxEntry([clock[k]], frames[k])]);
    AppendAssoc(out, EncodeAll(frames[..k]), [EncodeData(frames[k].seqno, frames[k].frag)]);
  }

  lemma FirstEntriesSnoc(frames: seq<Frame>, clock: seq<Time>, k: nat)
    requires k < |frames| <= |clock|
    ensures FirstEntries(frames[..k + 1], clock) == FirstEntries(frames[..k], clock) + [TxEntry([clock[k]], frames[k])]
    ensures EncodeAll(frames[..k + 1]) == EncodeAll(frames[..k]) + [EncodeData(frames[k].seqno, frames[k].frag)]
  {
    assert frames[..k + 1][..k] == frames[..k];
  }
}
