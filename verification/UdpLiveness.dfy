/** What can still be delivered: from any state some continuation passes a fragment exactly if neither it nor an
    earlier one is stalled. */
module UdpLiveness {
  import opened Common
  import opened Fragmentation
  import opened UdpModel
  import opened UdpRetransmit
  import opened UdpNetwork
  import opened UdpSafety
  import opened UdpTheorems

  // ------------------------------------------------------------ continuations

  /** Some continuation leads from `s` to `n`. */
  ghost predicate Reaches(s: Sys, n: Sys)
  {
    exists steps :: Run(s, steps) && n == Final(s, steps)
  }

  lemma ReachesSelf(s: Sys)
    ensures Reaches(s, s)
  {
    assert Run(s, []) && Final(s, []) == s;
  }

  lemma ReachesFirst(s: Sys, step: Step, n: Sys)
    requires Enabled(s, step) && Reaches(Next(s, step), n)
    ensures Reaches(s, n)
  {
    var rest :| Run(Next(s, step), rest) && n == Final(Next(s, step), rest);
    var steps := [step] + rest;
    assert steps[0] == step && steps[1..] == rest;
    assert Run(s, steps) && Final(s, steps) == n;
  }

  lemma {:induction false} ReachesThen(s: Sys, steps: seq<Step>, n: Sys)
    requires Run(s, steps) && Reaches(Final(s, steps), n)
    ensures Reaches(s, n)
    decreases |steps|
  {
    if steps != [] {
      ReachesThen(Next(s, steps[0]), steps[1..], n);
      ReachesFirst(s, steps[0], n);
    }
  }

  /** `n` comes after `s` with the same messages reserved, nothing forgotten and nothing newly stalled. */
  ghost predicate Onward(s: Sys, n: Sys)
  {
    && n.mode == s.mode && n.limit == s.limit && n.sent == s.sent && n.tx.txIndex == s.tx.txIndex
    && s.rx.rxIndex <= n.rx.rxIndex
    && (forall j :: Stalled(n, j) ==> Stalled(s, j))
  }

  ghost predicate Drives(s: Sys, n: Sys)
  {
    Inv(n) && Onward(s, n) && Reaches(s, n)
  }

  lemma DrivesSelf(s: Sys)
    requires Inv(s)
    ensures Drives(s, s)
  {
    ReachesSelf(s);
  }

  lemma OnwardTransitive(s: Sys, m: Sys, n: Sys)
    requires Onward(s, m) && Onward(m, n)
    ensures Onward(s, n)
  {
  }

  lemma ReachesTransitive(s: Sys, m: Sys, n: Sys)
    requires Reaches(s, m) && Reaches(m, n)
    ensures Reaches(s, n)
  {
    var steps :| Run(s, steps) && m == Final(s, steps);
    ReachesThen(s, steps, n);
  }

  lemma DrivesTransitive(s: Sys, m: Sys, n: Sys)
    requires Drives(s, m) && Drives(m, n)
    ensures Drives(s, n)
  {
    OnwardTransitive(s, m, n);
    ReachesTransitive(s, m, n);
  }

  /** A state that has at least what another has in the queue, on the network and at the receiver, and queues what
      it emitted since, stalls nothing more. */
  lemma NothingStalls(s: Sys, n: Sys)
    requires n.mode == s.mode && s.usable <= n.usable && s.net <= n.net
    requires Queued(s.tx.queue) <= Queued(n.tx.queue) && n.emitted <= s.emitted + Queued(n.tx.queue)
    ensures forall j :: Stalled(n, j) ==> Stalled(s, j)
  {
    forall j | Stalled(n, j) ensures Stalled(s, j) {
      assert forall f :: f in s.net && f.index == j ==> f in n.net;
    }
  }

  // ------------------------------------------------------------ the steps that drive

  lemma EmitDrives(s: Sys, t: nat, n: Sys)
    requires Inv(s) && t in s.jobs && JobReady(s.jobs[t]) && n == Next(s, Emit(t, 0))
    ensures Drives(s, n) && n.rx == s.rx
    ensures EmittedFrame(s.jobs[t]).index == s.jobs[t].next && Copy(EmittedFrame(s.jobs[t])) in n.net
  {
    StepKeepsInv(s, Emit(t, 0));
    QueuedSnoc(s.tx.queue, TxEntry([0], EmittedFrame(s.jobs[t])));
    NothingStalls(s, n);
    ReachesSelf(n);
    ReachesFirst(s, Emit(t, 0), n);
  }

  lemma ResendDrives(s: Sys, now: Time, n: Sys)
    requires Inv(s) && Enabled(s, Retransmit(now, MIN_DELTA)) && n == Next(s, Retransmit(now, MIN_DELTA))
    ensures Drives(s, n) && n.rx == s.rx && n.emitted == s.emitted
  {
    StepKeepsInv(s, Retransmit(now, MIN_DELTA));
    RotatedIndices(s.tx.queue, now, MIN_DELTA);
    NothingStalls(s, n);
    ReachesSelf(n);
    ReachesFirst(s, Retransmit(now, MIN_DELTA), n);
  }

  lemma {:induction false} DrainGrows(rx: Rx)
    ensures rx.rxIndex <= Drain(rx).rxIndex
    decreases |rx.receiveMap|
  {
    if rx.rxSeq in rx.receiveMap {
      RemovalShrinks(rx.receiveMap, rx.rxSeq);
      DrainGrows(TakeNext(rx));
    }
  }

  lemma ArriveDrives(s: Sys, f: Flight, n: Sys)
    requires Inv(s) && f.DataFlight? && Enabled(s, Arrive(f)) && n == Next(s, Arrive(f))
    ensures Drives(s, n)
  {
    StepKeepsInv(s, Arrive(f));
    DrainGrows(Store(s.mode, s.rx, f.seqno, f.frag));
    NothingStalls(s, n);
    ReachesSelf(n);
    ReachesFirst(s, Arrive(f), n);
  }

  /** The fragment the receiver waits for is passed when a usable copy of it arrives. */
  lemma UsablePasses(s: Sys, f: Flight) returns (n: Sys)
    requires Inv(s) && f in s.net && Usable(s.mode, f) && f.index == s.rx.rxIndex
    ensures Drives(s, n) && s.rx.rxIndex < n.rx.rxIndex
  {
    n := Next(s, Arrive(f));
    ArriveDrives(s, f, n);
    assert f.index in n.usable;
    assert n.rx.rxIndex == f.index ==> SeqOf(f.index) in n.rx.receiveMap;
  }

  // ------------------------------------------------------------ a usable copy of what is still to come

  /** Emitting goes on until the fragment is out, its first copy on the network. */
  lemma {:induction false} EmitUntil(s: Sys, t: nat, r: nat) returns (n: Sys, f: Flight)
    requires Inv(s) && t in s.jobs && Owns(s.jobs[t], r)
    ensures Drives(s, n) && n.rx == s.rx && f in n.net && Usable(n.mode, f) && f.index == r
    decreases r - s.jobs[t].next
  {
    var stream, j := Stream(s.sent, s.limit), s.jobs[t];
    assert JobOk(stream, j);
    var m := Next(s, Emit(t, 0));
    EmitDrives(s, t, m);
    if j.next == r {
      n, f := m, Copy(EmittedFrame(j));
    } else {
      AfterJobIs(stream, s.jobs, t);
      n, f := EmitUntil(m, t, r);
      DrivesTransitive(s, m, n);
    }
  }

  /** A time at which everything queued is overdue. */
  function OverdueAt(q: seq<TxEntry>): Time
    requires EntriesOk(q)
  {
    if q == [] then 0
    else
      var rest, last := OverdueAt(q[..|q| - 1]), Latest(q[|q| - 1]) + MIN_DELTA;
      if rest < last then last else rest
  }

  lemma {:induction false} AllOverdueAt(q: seq<TxEntry>, now: Time)
    requires EntriesOk(q) && OverdueAt(q) <= now
    ensures forall k :: 0 <= k < |q| ==> Overdue(q[k], now, MIN_DELTA)
  {
    if q != [] {
      AllOverdueAt(q[..|q| - 1], now);
    }
  }

  /** Then the timer resends everything. */
  lemma AllResent(q: seq<TxEntry>, now: Time, k: nat)
    requires EntriesOk(q) && now == OverdueAt(q) && k < |q|
    ensures |Resent(q, now, MIN_DELTA)| == |q|
    ensures Copy(Refresh(q[k], now).frame) in Copies(Resent(q, now, MIN_DELTA))
    ensures Refresh(q[k], now) in AfterRetransmit(q, now, MIN_DELTA)
  {
    AllOverdueAt(q, now);
    assert OverduePrefix(q, now, MIN_DELTA) == |q|;
    var frames := Resent(q, now, MIN_DELTA);
    ResentEntry(q, now, MIN_DELTA, k);
    assert Copy(frames[k]) in Copies(frames);
  }

  /** The queue entry and the flight after one resend of everything. */
  lemma ResendOnce(s: Sys, e: TxEntry) returns (n: Sys, again: TxEntry)
    requires Inv(s) && e in s.tx.queue
    ensures Drives(s, n) && n.rx == s.rx && again in n.tx.queue && Copy(again.frame) in n.net
    ensures again.frame.index == e.frame.index
    ensures again.frame.seqno.rt == 0 || again.frame.seqno.rt == e.frame.seqno.rt + 1
  {
    var q := s.tx.queue;
    QueueEntries(Stream(s.sent, s.limit), s.emitted, q);
    var k := EntryAt(q, e);
    var now := OverdueAt(q);
    n, again := Next(s, Retransmit(now, MIN_DELTA)), Refresh(e, now);
    ResendDrives(s, now, n);
    AllResent(q, now, k);
    RefreshTurns(e, now);
  }

  lemma EntryAt(q: seq<TxEntry>, e: TxEntry) returns (k: nat)
    requires e in q
    ensures k < |q| && q[k] == e
  {
    k :| 0 <= k < |q| && q[k] == e;
  }

  lemma RefreshTurns(e: TxEntry, now: Time)
    requires EntryOk(e)
    ensures var r := Refresh(e, now).frame;
            r.index == e.frame.index && (r.seqno.rt == 0 || r.seqno.rt == e.frame.seqno.rt + 1)
  {
  }

  /** Resending goes on until the retransmit number comes round to 0. */
  lemma {:induction false} ResendUntil(s: Sys, e: TxEntry) returns (n: Sys, f: Flight)
    requires Inv(s) && e in s.tx.queue
    ensures Drives(s, n) && n.rx == s.rx && f in n.net && Usable(n.mode, f) && f.index == e.frame.index
    decreases RT_COUNT - e.frame.seqno.rt
  {
    var m, again := ResendOnce(s, e);
    if again.frame.seqno.rt == 0 {
      n, f := m, Copy(again.frame);
    } else {
      n, f := ResendUntil(m, again);
      DrivesTransitive(s, m, n);
    }
  }

  lemma QueuedEntry(q: seq<TxEntry>, r: nat) returns (e: TxEntry)
    requires r in Queued(q)
    ensures e in q && e.frame.index == r
  {
    e :| e in q && e.frame.index == r;
  }

  lemma ExpectedIsNotUsable(s: Sys)
    requires Inv(s)
    ensures s.rx.rxIndex !in s.usable
  {
  }

  /** The fragment the receiver waits for, once reserved and not stalled, can be passed. */
  lemma ExpectedPasses(s: Sys) returns (n: Sys)
    requires Inv(s) && s.rx.rxIndex < s.tx.txIndex && !Stalled(s, s.rx.rxIndex)
    ensures Drives(s, n) && s.rx.rxIndex < n.rx.rxIndex
  {
    var r := s.rx.rxIndex;
    ExpectedIsNotUsable(s);
    var m: Sys, f: Flight;
    if r !in s.emitted {
      var t :| t in s.jobs && Owns(s.jobs[t], r);
      m, f := EmitUntil(s, t, r);
    } else if r in Queued(s.tx.queue) {
      var e := QueuedEntry(s.tx.queue, r);
      m, f := ResendUntil(s, e);
    } else {
      f :| f in s.net && f.index == r && Usable(s.mode, f);
      m := s;
      DrivesSelf(s);
    }
    n := UsablePasses(m, f);
    DrivesTransitive(s, m, n);
  }

  // ------------------------------------------------------------ exactly what can be passed

  lemma {:induction false} PassesUpTo(s: Sys, i: nat) returns (n: Sys)
    requires Inv(s) && i < s.tx.txIndex && forall j :: 0 <= j <= i ==> !Stalled(s, j)
    ensures Drives(s, n) && i < n.rx.rxIndex
    decreases i + 1 - s.rx.rxIndex
  {
    if i < s.rx.rxIndex {
      n := s;
      DrivesSelf(s);
    } else {
      var m := ExpectedPasses(s);
      n := PassesUpTo(m, i);
      DrivesTransitive(s, m, n);
    }
  }

  /** A reserved fragment is passed in some continuation exactly if neither it nor an earlier one is stalled. */
  lemma PassableIff(s: Sys, i: nat)
    requires Inv(s) && i < s.tx.txIndex
    ensures (exists n :: Reaches(s, n) && i < n.rx.rxIndex) <==> forall j :: 0 <= j <= i ==> !Stalled(s, j)
  {
    if forall j :: 0 <= j <= i ==> !Stalled(s, j) {
      var n := PassesUpTo(s, i);
      assert Reaches(s, n) && i < n.rx.rxIndex;
    } else {
      var j :| 0 <= j <= i && Stalled(s, j);
      forall n | Reaches(s, n) ensures n.rx.rxIndex <= i {
        var steps :| Run(s, steps) && n == Final(s, steps);
        StalledForever(s, steps, j);
      }
    }
  }

  lemma DeliveredUpTo(s: Sys)
    requires Inv(s)
    ensures s.rx.delivered == s.sent <==> s.rx.rxIndex == s.tx.txIndex
  {
    StreamReassembles(s.sent, s.limit, s.rx.rxIndex);
    assert s.rx.rxIndex == s.tx.txIndex ==> Stream(s.sent, s.limit)[..s.rx.rxIndex] == Stream(s.sent, s.limit);
  }

  lemma EarlierStalls(s: Sys, j: nat)
    requires Inv(s) && Stalled(s, j)
    ensures j < s.tx.txIndex
  {
  }

  /** In every run of concurrent senders: with nothing more sent, everything can still be delivered exactly if no
      fragment is stalled. */
  lemma DeliverableIff(mode: KeyMode, limit: nat, steps: seq<Step>)
    requires 0 < limit && Run(Initial(mode, limit), steps)
    ensures var s := Final(Initial(mode, limit), steps);
            (exists n :: Reaches(s, n) && n.sent == s.sent && n.rx.delivered == s.sent) <==> forall j :: !Stalled(s, j)
  {
    Reachable(mode, limit, steps);
    AllDeliverableIff(Final(Initial(mode, limit), steps));
  }

  lemma AllDeliverable(s: Sys) returns (n: Sys)
    requires Inv(s) && forall j :: !Stalled(s, j)
    ensures Reaches(s, n) && n.sent == s.sent && n.rx.delivered == s.sent
  {
    if s.tx.txIndex == 0 {
      n := s;
      ReachesSelf(s);
    } else {
      n := PassesUpTo(s, s.tx.txIndex - 1);
    }
    DeliveredUpTo(n);
  }

  lemma StalledNeverDelivered(s: Sys, j: nat, n: Sys)
    requires Inv(s) && Stalled(s, j) && Reaches(s, n) && n.sent == s.sent
    ensures n.rx.delivered != s.sent
  {
    var steps :| Run(s, steps) && n == Final(s, steps);
    StalledForever(s, steps, j);
    RunKeepsInv(s, steps);
    EarlierStalls(n, j);
    DeliveredUpTo(n);
  }

  lemma AllDeliverableIff(s: Sys)
    requires Inv(s)
    ensures (exists n :: Reaches(s, n) && n.sent == s.sent && n.rx.delivered == s.sent) <==> forall j :: !Stalled(s, j)
  {
    if forall j :: !Stalled(s, j) {
      var n := AllDeliverable(s);
    } else {
      var j :| Stalled(s, j);
      forall n | Reaches(s, n) && n.sent == s.sent ensures n.rx.delivered != s.sent {
        StalledNeverDelivered(s, j, n);
      }
    }
  }

  /** With the masked key nothing stalls, so everything can always still be delivered. */
  lemma MaskedDeliverable(limit: nat, steps: seq<Step>)
    requires 0 < limit && Run(Initial(Masked, limit), steps)
    ensures var s := Final(Initial(Masked, limit), steps);
            exists n :: Reaches(s, n) && n.sent == s.sent && n.rx.delivered == s.sent
  {
    DeliverableIff(Masked, limit, steps);
    ModeFixed(Initial(Masked, limit), steps);
  }
}
