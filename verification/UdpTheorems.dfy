/** What `OPTUDP` promises, over every run; and exactly where the code departs from it. */
module UdpTheorems {
  import opened Common
  import opened Fragmentation
  import opened UdpModel
  import opened UdpRetransmit
  import opened UdpNetwork
  import opened UdpSafety

  lemma Reachable(mode: KeyMode, limit: nat, steps: seq<Step>)
    requires 0 < limit && Run(Initial(mode, limit), steps)
    ensures Inv(Final(Initial(mode, limit), steps))
  {
    InitialInv(mode, limit);
    RunKeepsInv(Initial(mode, limit), steps);
  }

  /** Order and integrity: what was delivered is a prefix of what was sent, in order of reservation,
      with the reorder map keyed as the code keys it or as intended. */
  lemma DeliveredIsPrefix(mode: KeyMode, limit: nat, steps: seq<Step>)
    requires 0 < limit && Run(Initial(mode, limit), steps)
    ensures var s := Final(Initial(mode, limit), steps); s.rx.delivered <= s.sent
  {
    Reachable(mode, limit, steps);
    var s := Final(Initial(mode, limit), steps);
    StreamReassembles(s.sent, s.limit, s.rx.rxIndex);
  }

  /** Every frame queued for retransmission: its times match its retransmit number, and every copy or
      acknowledgement of it in flight has a number below the count of times, before and after the wrap at 64. */
  lemma RetransmitCounters(mode: KeyMode, limit: nat, steps: seq<Step>, e: TxEntry, f: Flight)
    requires 0 < limit && Run(Initial(mode, limit), steps)
    requires var s := Final(Initial(mode, limit), steps);
             e in s.tx.queue && f in s.net && f.index == e.frame.index
    ensures |e.transmits| == e.frame.seqno.rt + 1 || |e.transmits| == 64
    ensures f.seqno.num == e.frame.seqno.num && f.seqno.rt < |e.transmits|
  {
    Reachable(mode, limit, steps);
    var s := Final(Initial(mode, limit), steps);
    var stream := Stream(s.sent, s.limit);
    assert EntryFits(stream, s.emitted, e);
    assert FlightOk(stream, s.emitted, s.got, f) && RtUsed(f, e);
  }

  /** Hence an acknowledgement that arrives in the window removes its own frame and nothing else. */
  lemma AckExact(mode: KeyMode, limit: nat, steps: seq<Step>, f: Flight)
    requires 0 < limit && Run(Initial(mode, limit), steps)
    requires f.AckFlight? && Enabled(Final(Initial(mode, limit), steps), Arrive(f))
    ensures var q := Final(Initial(mode, limit), steps).tx.queue;
            Queued(AfterAck(q, f.seqno)) == Queued(q) - {f.index}
            && forall e :: e in AfterAck(q, f.seqno) <==> e in q && e.frame.index != f.index
  {
    Reachable(mode, limit, steps);
    var s := Final(Initial(mode, limit), steps);
    AckQueue(Stream(s.sent, s.limit), s.emitted, s.got, s.tx.queue, s.net, f);
    AckRemovesOwn(Stream(s.sent, s.limit), s.emitted, s.got, s.tx.queue, s.net, f);
  }

  /** Stored where `try_reassemble` will look for it, and as the fragment it is. */
  ghost predicate Findable(s: Sys, i: nat)
  {
    && 0 < s.limit && s.rx.rxIndex <= i < s.rx.rxIndex + HALF_WINDOW
    && SeqOf(i) in s.rx.receiveMap
    && i < |Stream(s.sent, s.limit)| && s.rx.receiveMap[SeqOf(i)] == Stream(s.sent, s.limit)[i]
  }

  /** Neither lost nor forgotten: still queued, stored where it will be found, or already passed. */
  ghost predicate Safe(s: Sys, i: nat)
  {
    i in Queued(s.tx.queue) || Findable(s, i) || i < s.rx.rxIndex
  }

  lemma SafeIffUsable(s: Sys, i: nat)
    requires Inv(s) && i in s.emitted
    ensures Findable(s, i) || i < s.rx.rxIndex <==> i in s.usable
  {
    var stream, r, m := Stream(s.sent, s.limit), s.rx.rxIndex, s.rx.receiveMap;
    if r <= i && (Findable(s, i) || i in s.usable) {
      KeyOfIndex(r, i);
      assert KeyOk(stream, s.usable, r, m, SeqOf(i));
    }
  }

  /** No loss by acknowledgement, exactly: a fragment is safe while it is queued, and after its
      acknowledgement if and only if a usable copy of it (retransmit bits 0, as the code keys the map) arrived. */
  lemma LossExactly(mode: KeyMode, limit: nat, steps: seq<Step>, i: nat)
    requires 0 < limit && Run(Initial(mode, limit), steps)
    requires i in Final(Initial(mode, limit), steps).emitted
    ensures var s := Final(Initial(mode, limit), steps);
            Safe(s, i) <==> i in Queued(s.tx.queue) || i in s.usable
  {
    Reachable(mode, limit, steps);
    SafeIffUsable(Final(Initial(mode, limit), steps), i);
  }

  /** With the key masked by `seq_num_mask` nothing is ever lost by acknowledgement. */
  lemma MaskedNeverLoses(limit: nat, steps: seq<Step>, i: nat)
    requires 0 < limit && Run(Initial(Masked, limit), steps)
    requires i in Final(Initial(Masked, limit), steps).emitted
    ensures Safe(Final(Initial(Masked, limit), steps), i)
  {
    LossExactly(Masked, limit, steps, i);
    Reachable(Masked, limit, steps);
    ModeFixed(Initial(Masked, limit), steps);
  }

  lemma {:induction false} ModeFixed(s: Sys, steps: seq<Step>)
    requires Run(s, steps)
    ensures Final(s, steps).mode == s.mode && Final(s, steps).limit == s.limit
    decreases |steps|
  {
    if steps != [] {
      ModeFixed(Next(s, steps[0]), steps[1..]);
    }
  }

  lemma NothingPending(s: Sys)
    requires Inv(s) && s.jobs == map[]
    ensures forall i :: i in s.emitted <==> 0 <= i < s.tx.txIndex
  {
  }

  lemma UsableMeansPassed(s: Sys)
    requires Inv(s) && s.jobs == map[] && s.usable == s.emitted
    ensures s.rx.rxIndex == s.tx.txIndex
  {
    NothingPending(s);
    assert s.rx.rxIndex < s.tx.txIndex ==> s.rx.rxIndex in s.usable;
  }

  /** With every `send` finished and nothing left to retransmit, everything sent was delivered if and
      only if every fragment had a usable copy arrive. */
  lemma QuietMeansDeliveredIff(mode: KeyMode, limit: nat, steps: seq<Step>)
    requires 0 < limit && Run(Initial(mode, limit), steps)
    requires var s := Final(Initial(mode, limit), steps); s.jobs == map[] && s.tx.queue == []
    ensures var s := Final(Initial(mode, limit), steps);
            s.rx.delivered == s.sent <==> s.usable == s.emitted
  {
    Reachable(mode, limit, steps);
    var s := Final(Initial(mode, limit), steps);
    StreamReassembles(s.sent, s.limit, s.rx.rxIndex);
    if s.usable == s.emitted {
      UsableMeansPassed(s);
      assert Stream(s.sent, s.limit)[..s.rx.rxIndex] == Stream(s.sent, s.limit);
    }
    if s.rx.delivered == s.sent {
      assert s.rx.rxIndex == |Stream(s.sent, s.limit)|;
      assert Passed(s.usable, s.rx.rxIndex);
      NothingPending(s);
      assert s.emitted <= s.usable;
    }
  }

  /** The intended protocol therefore delivers everything once it is quiet. */
  lemma MaskedQuietMeansDelivered(limit: nat, steps: seq<Step>)
    requires 0 < limit && Run(Initial(Masked, limit), steps)
    requires var s := Final(Initial(Masked, limit), steps); s.jobs == map[] && s.tx.queue == []
    ensures var s := Final(Initial(Masked, limit), steps); s.rx.delivered == s.sent
  {
    QuietMeansDeliveredIff(Masked, limit, steps);
    Reachable(Masked, limit, steps);
    ModeFixed(Initial(Masked, limit), steps);
    var s := Final(Initial(Masked, limit), steps);
    assert Queued(s.tx.queue) == {};
    assert s.usable == s.emitted;
  }

  /** The emission step is never blocked: a running `send` always has a frame to emit. */
  lemma SendNeverStuck(mode: KeyMode, limit: nat, steps: seq<Step>, t: nat, now: Time)
    requires 0 < limit && Run(Initial(mode, limit), steps)
    requires t in Final(Initial(mode, limit), steps).jobs
    ensures Enabled(Final(Initial(mode, limit), steps), Emit(t, now))
  {
    Reachable(mode, limit, steps);
    var s := Final(Initial(mode, limit), steps);
    assert JobOk(Stream(s.sent, s.limit), s.jobs[t]);
  }

  /** Nor is the retransmit timer: whatever was queued, resent and acknowledged, every queued entry has the time
      its retransmit number stands for. */
  lemma TimerNeverStuck(mode: KeyMode, limit: nat, steps: seq<Step>, now: Time, delta: nat)
    requires 0 < limit && Run(Initial(mode, limit), steps)
    ensures EntriesOk(Final(Initial(mode, limit), steps).tx.queue)
    ensures Enabled(Final(Initial(mode, limit), steps), Retransmit(now, delta)) <==> MIN_DELTA <= delta <= MAX_DELTA
  {
    Reachable(mode, limit, steps);
    var s := Final(Initial(mode, limit), steps);
    QueueEntries(Stream(s.sent, s.limit), s.emitted, s.tx.queue);
  }

  // ------------------------------------------------------------ the retransmit timer

  const RACING_RUN := [Reserve(0, [1]), Reserve(1, [2]), Emit(0, 6), Emit(1, 5)]

  function RacingState(n: nat): Sys
  {
    var f, g := Frame(0, SeqNo(0, 0), Fragment(Single, [1])), Frame(1, SeqNo(1, 0), Fragment(Single, [2]));
    var j0, j1 := Job([1], 0, 1, 0, SeqNo(0, 0)), Job([2], 0, 1, 1, SeqNo(1, 0));
    var s := Initial(FullSeq, 10);
    if n == 0 then s
    else if n == 1 then s.(tx := Tx(SeqNo(1, 0), 1, []), jobs := map[0 := j0], sent := [[1]])
    else
      var s2 := s.(tx := Tx(SeqNo(2, 0), 2, []), sent := [[1], [2]]);
      if n == 2 then s2.(jobs := map[0 := j0, 1 := j1])
      else if n == 3 then s2.(tx := s2.tx.(queue := [TxEntry([6], f)]), jobs := map[1 := j1], net := {Copy(f)}, emitted := {0})
      else s2.(tx := s2.tx.(queue := [TxEntry([6], f), TxEntry([5], g)]), net := {Copy(f), Copy(g)}, emitted := {0, 1})
  }

  lemma RacingStep(n: nat)
    requires n < 4
    ensures Enabled(RacingState(n), RACING_RUN[n]) && Next(RacingState(n), RACING_RUN[n]) == RacingState(n + 1)
  {
    assert ReservedCount(1, 10) == 1;
    assert NextSize(1, 1) == 1;
    assert [1][0..1] == [1] && [2][0..1] == [2];
    if n == 3 {
      assert RacingState(3).jobs - {1} == map[];
    }
  }

  lemma {:induction false} RacingFrom(n: nat)
    requires n <= 4
    ensures Run(RacingState(n), RACING_RUN[n..]) && Final(RacingState(n), RACING_RUN[n..]) == RacingState(4)
    decreases 4 - n
  {
    if n < 4 {
      RacingStep(n);
      RacingFrom(n + 1);
      assert RACING_RUN[n..][1..] == RACING_RUN[n + 1..];
    }
  }

  lemma RacingQueue(q: seq<TxEntry>, delta: nat)
    requires q == RacingState(4).tx.queue
    ensures EntriesOk(q) && |q| == 2 && Latest(q[0]) == 6 && Latest(q[1]) == 5 && !Sorted(q)
    ensures Deadline(q, delta) == Some(6 + delta)
  {
  }

  /** Two threads may read the clock in one order and queue in the other: a run of two concurrent sends whose
      queue is not sorted, so its timer is set for a deadline that is not the earliest. */
  lemma UnorderedSendsBreakOrder(delta: nat) returns (s: Sys)
    ensures Run(Initial(FullSeq, 10), RACING_RUN) && s == Final(Initial(FullSeq, 10), RACING_RUN)
    ensures var q := s.tx.queue;
            && EntriesOk(q) && !Sorted(q) && |q| == 2
            && Deadline(q, delta).Some? && Deadline(q, delta).value > Latest(q[1]) + delta
  {
    s := RacingState(4);
    RacingFrom(0);
    assert RACING_RUN[0..] == RACING_RUN;
    RacingQueue(s.tx.queue, delta);
  }

  /** The clock readings of the steps never fall below `t` or below an earlier reading. */
  ghost predicate Monotone(t: Time, steps: seq<Step>)
    decreases |steps|
  {
    steps == [] ||
    match steps[0]
    case Emit(_, now) => t <= now && Monotone(now, steps[1..])
    case Retransmit(now, _) => t <= now && Monotone(now, steps[1..])
    case _ => Monotone(t, steps[1..])
  }

  /** The queue is sorted by latest time, and no time in it lies after `t`. */
  ghost predicate InOrder(q: seq<TxEntry>, t: Time)
  {
    EntriesOk(q) && Sorted(q) && NoneAfter(q, t)
  }

  lemma EmitInOrder(s: Sys, t: nat, was: Time, now: Time)
    requires Inv(s) && InOrder(s.tx.queue, was) && was <= now && Enabled(s, Emit(t, now))
    ensures InOrder(Next(s, Emit(t, now)).tx.queue, now)
  {
    var f := EmittedFrame(s.jobs[t]);
    assert JobOk(Stream(s.sent, s.limit), s.jobs[t]);
    EmitSortedIff(s.tx, f, now);
    assert Latest(TxEntry([now], f)) == now;
  }

  lemma ResendInOrder(q: seq<TxEntry>, was: Time, now: Time, delta: nat)
    requires InOrder(q, was) && was <= now && 0 < delta
    ensures InOrder(AfterRetransmit(q, now, delta), now) && NoneOverdue(AfterRetransmit(q, now, delta), now, delta)
  {
    RetransmitSorted(q, now, delta);
  }

  lemma AckInOrder(q: seq<TxEntry>, t: Time, a: SeqNo)
    requires InOrder(q, t)
    ensures InOrder(AfterAck(q, a), t)
  {
    AckKeeps(q, a);
    var rest := AfterAck(q, a);
    forall k | 0 <= k < |rest| ensures Latest(rest[k]) <= t {
      assert rest[k] in q;
    }
  }

  lemma {:induction false} RunInOrder(s: Sys, steps: seq<Step>, t: Time) returns (last: Time)
    requires Inv(s) && InOrder(s.tx.queue, t) && Run(s, steps) && Monotone(t, steps)
    ensures InOrder(Final(s, steps).tx.queue, last)
    decreases |steps|
  {
    if steps == [] {
      last := t;
    } else {
      var n := Next(s, steps[0]);
      StepKeepsInv(s, steps[0]);
      match steps[0]
      case Emit(thread, now) =>
        EmitInOrder(s, thread, t, now);
        last := RunInOrder(n, steps[1..], now);
      case Retransmit(now, delta) =>
        ResendInOrder(s.tx.queue, t, now, delta);
        last := RunInOrder(n, steps[1..], now);
      case Arrive(f) =>
        AckInOrder(s.tx.queue, t, f.seqno);
        last := RunInOrder(n, steps[1..], t);
      case _ => last := RunInOrder(n, steps[1..], t);
    }
  }

  /** While the clock does not run backwards from step to step, in every run the queue is sorted by latest
      transmit time, so the timer armed for its front is armed for the earliest deadline of all. */
  lemma TimerIsEarliest(mode: KeyMode, limit: nat, steps: seq<Step>, delta: nat)
    requires 0 < limit && Run(Initial(mode, limit), steps) && Monotone(0, steps)
    ensures var q := Final(Initial(mode, limit), steps).tx.queue;
            EntriesOk(q) && Sorted(q)
            && forall k :: 0 <= k < |q| ==> Deadline(q, delta).Some? && Deadline(q, delta).value <= Latest(q[k]) + delta
  {
    InitialInv(mode, limit);
    var last := RunInOrder(Initial(mode, limit), steps, 0);
    DeadlineIsEarliest(Final(Initial(mode, limit), steps).tx.queue, delta);
  }

  // ------------------------------------------------------------ the stall of the code as written

  /** Fragment `i` was acknowledged, no copy the receiver can use arrived, and none is on its way. */
  ghost predicate Stalled(s: Sys, i: nat)
  {
    && s.mode == FullSeq && i in s.emitted && i !in s.usable
    && i !in Queued(s.tx.queue)
    && forall f :: f in s.net && f.index == i ==> !Usable(s.mode, f)
  }

  lemma StalledStep(s: Sys, step: Step, i: nat)
    requires Inv(s) && Stalled(s, i) && Enabled(s, step)
    ensures Stalled(Next(s, step), i)
  {
    var n := Next(s, step);
    match step
    case Reserve(_, _) =>
    case Emit(t, now) =>
      var f := EmittedFrame(s.jobs[t]);
      EmitJobs(Stream(s.sent, s.limit), s.jobs, s.emitted, s.tx.txIndex, t);
      QueuedSnoc(s.tx.queue, TxEntry([now], f));
    case Retransmit(now, delta) =>
      RotatedIndices(s.tx.queue, now, delta);
      forall f | f in Copies(Resent(s.tx.queue, now, delta)) ensures f.index in Queued(s.tx.queue) {
        var k :| 0 <= k < |Resent(s.tx.queue, now, delta)| && f == Copy(Resent(s.tx.queue, now, delta)[k]);
        ResentEntry(s.tx.queue, now, delta, k);
        RefreshKeeps(s.tx.queue[k], now);
        assert s.tx.queue[k] in s.tx.queue;
      }
    case Arrive(f) =>
      if f.AckFlight? {
        AckKeepsInv(s, f);
      }
    case Drop(_) =>
  }

  lemma QueuedSnoc(q: seq<TxEntry>, e: TxEntry)
    ensures Queued(q + [e]) == Queued(q) + {e.frame.index}
  {
    assert forall x :: x in q + [e] <==> x in q || x == e;
    assert e in q + [e];
  }

  /** From then on, whatever happens, the receiver never gets past fragment `i`. */
  lemma {:induction false} StalledForever(s: Sys, steps: seq<Step>, i: nat)
    requires Inv(s) && Stalled(s, i) && Run(s, steps)
    ensures Stalled(Final(s, steps), i) && Final(s, steps).rx.rxIndex <= i
    decreases |steps|
  {
    if steps == [] {
      assert Passed(s.usable, s.rx.rxIndex);
    } else {
      StalledStep(s, steps[0], i);
      StepKeepsInv(s, steps[0]);
      StalledForever(Next(s, steps[0]), steps[1..], i);
    }
  }

  const STALL_FRAGMENT: Fragment := Fragment(Single, [7])

  /** Lose the first copy of a one-byte message, deliver the retransmitted one, acknowledge it. */
  const STALL_RUN: seq<Step> := [
    Reserve(0, [7]),
    Emit(0, 0),
    Drop(DataFlight(0, SeqNo(0, 0), STALL_FRAGMENT)),
    Retransmit(3000, 3000),
    Arrive(DataFlight(0, SeqNo(0, 1), STALL_FRAGMENT)),
    Arrive(AckFlight(0, SeqNo(0, 1)))
  ]

  function StallState(n: nat): Sys
  {
    var q0 := TxEntry([0], Frame(0, SeqNo(0, 0), STALL_FRAGMENT));
    var q1 := TxEntry([0, 3000], Frame(0, SeqNo(0, 1), STALL_FRAGMENT));
    var first, again := DataFlight(0, SeqNo(0, 0), STALL_FRAGMENT), DataFlight(0, SeqNo(0, 1), STALL_FRAGMENT);
    var ack := AckFlight(0, SeqNo(0, 1));
    var rx := INITIAL_RX.(receiveMap := map[SeqNo(0, 1) := STALL_FRAGMENT]);
    var tx := Tx(SeqNo(1, 0), 1, []);
    if n == 0 then Initial(FullSeq, 10)
    else if n == 1 then Sys(FullSeq, 10, tx, map[0 := Job([7], 0, 1, 0, SeqNo(0, 0))], INITIAL_RX, {}, [[7]], {}, {}, {})
    else if n == 2 then Sys(FullSeq, 10, tx.(queue := [q0]), map[], INITIAL_RX, {first}, [[7]], {0}, {}, {})
    else if n == 3 then Sys(FullSeq, 10, tx.(queue := [q0]), map[], INITIAL_RX, {}, [[7]], {0}, {}, {})
    else if n == 4 then Sys(FullSeq, 10, tx.(queue := [q1]), map[], INITIAL_RX, {again}, [[7]], {0}, {}, {})
    else if n == 5 then Sys(FullSeq, 10, tx.(queue := [q1]), map[], rx, {again, ack}, [[7]], {0}, {0}, {})
    else Sys(FullSeq, 10, tx, map[], rx, {again, ack}, [[7]], {0}, {0}, {})
  }

  lemma StallSend()
    ensures Enabled(StallState(0), STALL_RUN[0]) && Next(StallState(0), STALL_RUN[0]) == StallState(1)
    ensures Enabled(StallState(1), STALL_RUN[1]) && Next(StallState(1), STALL_RUN[1]) == StallState(2)
    ensures Enabled(StallState(2), STALL_RUN[2]) && Next(StallState(2), STALL_RUN[2]) == StallState(3)
  {
    assert ReservedCount(1, 10) == 1;
    assert NextSize(1, 1) == 1;
    assert [7][0..1] == [7];
    assert StallState(1).jobs - {0} == map[];
  }

  lemma StallResend()
    ensures Enabled(StallState(3), STALL_RUN[3]) && Next(StallState(3), STALL_RUN[3]) == StallState(4)
  {
    var q := StallState(3).tx.queue;
    assert Overdue(q[0], 3000, 3000);
    assert OverduePrefix(q[1..], 3000, 3000) == 0;
    assert OverduePrefix(q, 3000, 3000) == 1;
    RetransmitRotates(q, 3000, 3000, 0);
    assert [0] + [3000] == [0, 3000];
    assert Refresh(q[0], 3000) == StallState(4).tx.queue[0];
    assert AfterRetransmit(q, 3000, 3000) == StallState(4).tx.queue;
    var frames := Resent(q, 3000, 3000);
    assert |frames| == 1;
    ResentEntry(q, 3000, 3000, 0);
    assert frames[0] == StallState(4).tx.queue[0].frame;
    forall f | f in Copies(frames) ensures f == Copy(frames[0]) {
      var k :| 0 <= k < |frames| && f == Copy(frames[k]);
    }
    assert Copy(frames[0]) in Copies(frames);
  }

  lemma StallReceive()
    ensures Enabled(StallState(4), STALL_RUN[4]) && Next(StallState(4), STALL_RUN[4]) == StallState(5)
    ensures Enabled(StallState(5), STALL_RUN[5]) && Next(StallState(5), STALL_RUN[5]) == StallState(6)
  {
    assert Advance(SeqNo(0, 1), SeqNo(0, 0)) == 1;
    assert AfterAck([], SeqNo(0, 1)) == [];
  }

  lemma StallStep(n: nat)
    requires n < 6
    ensures Enabled(StallState(n), STALL_RUN[n]) && Next(StallState(n), STALL_RUN[n]) == StallState(n + 1)
  {
    if n < 3 {
      StallSend();
    } else if n == 3 {
      StallResend();
    } else {
      StallReceive();
    }
  }

  lemma {:induction false} StallFrom(n: nat)
    requires n <= 6
    ensures Run(StallState(n), STALL_RUN[n..]) && Final(StallState(n), STALL_RUN[n..]) == StallState(6)
    decreases 6 - n
  {
    if n < 6 {
      StallStep(n);
      StallFrom(n + 1);
      assert STALL_RUN[n..][1..] == STALL_RUN[n + 1..];
    }
  }

  /** The code as written does stall: the queue is empty, no `send` is running, and message and receiver
      stay where they are for ever. */
  lemma CodeCanStall()
    ensures Run(Initial(FullSeq, 10), STALL_RUN)
    ensures var s := Final(Initial(FullSeq, 10), STALL_RUN);
            Stalled(s, 0) && s.tx.queue == [] && s.jobs == map[] && s.sent == [[7]] && s.rx.delivered == []
  {
    StallFrom(0);
    assert STALL_RUN[0..] == STALL_RUN;
  }
}
