/** Every step of the network keeps the invariant; what that means for every run. */
module UdpSafety {
  import opened Common
  import opened Fragmentation
  import opened UdpModel
  import opened UdpRetransmit
  import opened UdpNetwork

  // ------------------------------------------------------------ Reserve

  lemma GrownJob(stream: seq<Fragment>, more: seq<Fragment>, j: Job)
    requires JobOk(stream, j)
    ensures JobOk(stream + more, j)
  {
    assert (stream + more)[j.next..j.next + j.left] == stream[j.next..j.next + j.left];
  }

  lemma NewJob(stream: seq<Fragment>, msg: Message, limit: nat)
    requires 0 < limit && msg != []
    ensures |Fragments(msg, limit)| == ReservedCount(|msg|, limit)
    ensures JobOk(stream + Fragments(msg, limit), Job(msg, 0, ReservedCount(|msg|, limit), |stream|, SeqOf(|stream|)))
  {
    FragmentationCorrect(msg, limit);
    ReservedSplits(msg, limit);
    var fs := Fragments(msg, limit);
    assert (stream + fs)[|stream|..|stream| + |fs|] == fs;
  }

  lemma ReservePartition(jobs: map<nat, Job>, emitted: set<nat>, count: nat, t: nat, j: Job)
    requires Partition(jobs, emitted, count) && t !in jobs && j.next == count
    ensures Partition(jobs[t := j], emitted, count + j.left)
  {
    var after := jobs[t := j];
    forall i | 0 <= i < count + j.left && i !in emitted ensures exists u :: u in after && Owns(after[u], i) {
      if i < count {
        var u :| u in jobs && Owns(jobs[u], i);
        assert u in after && Owns(after[u], i);
      } else {
        assert t in after && Owns(after[t], i);
      }
    }
  }

  lemma GrownEntry(stream: seq<Fragment>, more: seq<Fragment>, emitted: set<nat>, e: TxEntry)
    requires EntryFits(stream, emitted, e)
    ensures EntryFits(stream + more, emitted, e)
  {
  }

  lemma GrownQueue(stream: seq<Fragment>, more: seq<Fragment>, emitted: set<nat>, q: seq<TxEntry>)
    requires QueueOk(stream, emitted, q)
    ensures QueueOk(stream + more, emitted, q)
  {
    forall e | e in q ensures EntryFits(stream + more, emitted, e) {
      GrownEntry(stream, more, emitted, e);
    }
  }

  lemma GrownNet(stream: seq<Fragment>, more: seq<Fragment>, emitted: set<nat>, got: set<nat>, q: seq<TxEntry>, net: set<Flight>)
    requires NetOk(stream, emitted, got, q, net)
    ensures NetOk(stream + more, emitted, got, q, net)
  {
    forall f | f in net ensures FlightOk(stream + more, emitted, got, f) {
      assert FlightOk(stream, emitted, got, f);
    }
  }

  lemma GrownRx(mode: KeyMode, stream: seq<Fragment>, more: seq<Fragment>, usable: set<nat>, rx: Rx)
    requires RxOk(mode, stream, usable, rx)
    ensures RxOk(mode, stream + more, usable, rx)
  {
    assert (stream + more)[..rx.rxIndex] == stream[..rx.rxIndex];
    forall key | key in rx.receiveMap ensures KeyOk(stream + more, usable, rx.rxIndex, rx.receiveMap, key) {
      assert KeyOk(stream, usable, rx.rxIndex, rx.receiveMap, key);
    }
  }

  lemma ReserveJobs(stream: seq<Fragment>, jobs: map<nat, Job>, emitted: set<nat>, t: nat, msg: Message, limit: nat)
    requires JobsOk(stream, jobs) && Partition(jobs, emitted, |stream|)
    requires t !in jobs && msg != [] && 0 < limit
    ensures var n := ReservedCount(|msg|, limit);
            var after := jobs[t := Job(msg, 0, n, |stream|, SeqOf(|stream|))];
            |Fragments(msg, limit)| == n
            && JobsOk(stream + Fragments(msg, limit), after) && Partition(after, emitted, |stream| + n)
  {
    var more := Fragments(msg, limit);
    NewJob(stream, msg, limit);
    forall u | u in jobs ensures JobOk(stream + more, jobs[u]) {
      GrownJob(stream, more, jobs[u]);
    }
    ReservePartition(jobs, emitted, |stream|, t, Job(msg, 0, ReservedCount(|msg|, limit), |stream|, SeqOf(|stream|)));
  }

  lemma ReserveStream(sent: seq<Message>, msg: Message, limit: nat)
    requires 0 < limit && NonEmptyMessages(sent) && msg != []
    ensures NonEmptyMessages(sent + [msg]) && Stream(sent + [msg], limit) == Stream(sent, limit) + Fragments(msg, limit)
    ensures |Stream(sent + [msg], limit)| == |Stream(sent, limit)| + ReservedCount(|msg|, limit)
  {
    StreamSnoc(sent, msg, limit);
    FragmentationCorrect(msg, limit);
  }

  lemma ReserveCounts(s: Sys, t: nat, msg: Message, n: Sys)
    requires Counts(s) && Enabled(s, Reserve(t, msg)) && n == Next(s, Reserve(t, msg))
    ensures Counts(n) && Stream(n.sent, n.limit) == Stream(s.sent, s.limit) + Fragments(msg, s.limit)
  {
    ReserveStream(s.sent, msg, s.limit);
    PlusSeqOf(s.tx.txIndex, ReservedCount(|msg|, s.limit));
  }

  lemma ReserveKeeps(s: Sys, t: nat, msg: Message, n: Sys)
    requires Inv(s) && Enabled(s, Reserve(t, msg)) && n == Next(s, Reserve(t, msg))
    ensures Inv(n)
  {
    var stream, more := Stream(s.sent, s.limit), Fragments(msg, s.limit);
    ReserveCounts(s, t, msg, n);
    ReserveJobs(stream, s.jobs, s.emitted, t, msg, s.limit);
    GrownQueue(stream, more, s.emitted, s.tx.queue);
    GrownNet(stream, more, s.emitted, s.got, s.tx.queue, s.net);
    GrownRx(s.mode, stream, more, s.usable, s.rx);
  }

  // ------------------------------------------------------------ Emit

  /** The loop body of `send` emits the fragment its number was reserved for. */
  lemma EmittedFrag(stream: seq<Fragment>, j: Job)
    requires JobOk(stream, j)
    ensures j.next < |stream| && EmittedFrame(j).frag == stream[j.next]
  {
    NextSizeFits(|j.msg| - j.progress, j.left);
    var fs := FragmentsFrom(j.msg, j.progress, j.left);
    assert stream[j.next] == stream[j.next..j.next + j.left][0] == fs[0];
  }

  lemma FragmentsTail(msg: Bytes, progress: nat, left: nat, n: nat)
    requires progress < |msg| && 0 < left && Splittable(msg, progress, left) && n == NextSize(|msg| - progress, left)
    ensures 0 < n && Splittable(msg, progress + n, left - 1) && (progress + n >= |msg| <==> left == 1)
    ensures FragmentsFrom(msg, progress, left) != []
    ensures FragmentsFrom(msg, progress, left)[1..] == FragmentsFrom(msg, progress + n, left - 1)
  {
    NextSizeFits(|msg| - progress, left);
    var first := Fragment(KindOf(progress, n, |msg| - progress), msg[progress..progress + n]);
    assert FragmentsFrom(msg, progress, left) == [first] + FragmentsFrom(msg, progress + n, left - 1);
  }

  lemma JobAdvances(stream: seq<Fragment>, j: Job, n: nat)
    requires JobOk(stream, j) && n == NextSize(|j.msg| - j.progress, j.left)
    ensures j.progress + n >= |j.msg| <==> j.left == 1
    ensures j.left > 1 ==> JobOk(stream, Job(j.msg, j.progress + n, j.left - 1, j.next + 1, Plus(j.seqno, 1)))
  {
    FragmentsTail(j.msg, j.progress, j.left, n);
    SubSub(stream, j.next, j.next + j.left, 1, j.left);
  }

  lemma EmitPartition(jobs: map<nat, Job>, emitted: set<nat>, count: nat, t: nat, after: map<nat, Job>)
    requires Partition(jobs, emitted, count) && t in jobs && 0 < jobs[t].left
    requires forall u :: u != t ==> (u in after <==> u in jobs) && (u in jobs ==> after[u] == jobs[u])
    requires t in after <==> jobs[t].left > 1
    requires t in after ==> after[t].next == jobs[t].next + 1 && after[t].left == jobs[t].left - 1
    ensures Partition(after, emitted + {jobs[t].next}, count)
  {
    var i0 := jobs[t].next;
    assert Owns(jobs[t], i0);
    forall i | 0 <= i < count && i !in emitted + {i0} ensures exists u :: u in after && Owns(after[u], i) {
      var u :| u in jobs && Owns(jobs[u], i);
      assert u in after && Owns(after[u], i);
    }
    forall u, i | u in after && i in emitted + {i0} ensures !Owns(after[u], i) {
      if i == i0 && u != t {
        assert !Owns(jobs[u], i0);
      } else if u != t {
        assert !Owns(jobs[u], i);
      } else {
        assert i in emitted ==> !Owns(jobs[t], i);
      }
    }
    forall u, v, i | u in after && v in after && Owns(after[u], i) && Owns(after[v], i) ensures u == v {
      assert Owns(jobs[u], i) && Owns(jobs[v], i);
    }
  }

  lemma EmitQueue(stream: seq<Fragment>, emitted: set<nat>, q: seq<TxEntry>, f: Frame, now: Time)
    requires QueueOk(stream, emitted, q)
    requires FrameOk(stream, f.index, f.seqno, f.frag) && f.seqno.rt == 0 && f.index !in emitted
    ensures QueueOk(stream, emitted + {f.index}, q + [TxEntry([now], f)])
    ensures Queued(q + [TxEntry([now], f)]) == Queued(q) + {f.index}
  {
    var e := TxEntry([now], f);
    assert forall x :: x in q + [e] <==> x in q || x == e;
    forall a | 0 <= a < |q| ensures q[a].frame.index != f.index {
      assert q[a] in q && EntryFits(stream, emitted, q[a]);
    }
    assert e in q + [e];
  }

  lemma EmitNet(stream: seq<Fragment>, emitted: set<nat>, got: set<nat>, q: seq<TxEntry>, net: set<Flight>, f: Frame, now: Time)
    requires QueueOk(stream, emitted, q) && NetOk(stream, emitted, got, q, net)
    requires FrameOk(stream, f.index, f.seqno, f.frag) && f.seqno.rt == 0 && f.index !in emitted
    ensures NetOk(stream, emitted + {f.index}, got, q + [TxEntry([now], f)], net + {Copy(f)})
  {
    forall g | g in net + {Copy(f)} ensures FlightOk(stream, emitted + {f.index}, got, g) {
      if g in net {
        assert FlightOk(stream, emitted, got, g);
      }
    }
    forall g, e | g in net + {Copy(f)} && e in q + [TxEntry([now], f)] ensures RtUsed(g, e) {
      if g in net {
        assert FlightOk(stream, emitted, got, g);
        if e in q {
          assert RtUsed(g, e);
        }
      } else if e in q {
        assert EntryFits(stream, emitted, e);
      }
    }
  }

  /** The job goes on with its next fragment, or is over after its last; the others are as they were. */
  lemma AfterJobIs(stream: seq<Fragment>, jobs: map<nat, Job>, t: nat)
    requires JobsOk(stream, jobs) && t in jobs
    ensures JobsOk(stream, AfterJob(jobs, t))
    ensures forall u :: u != t ==> (u in AfterJob(jobs, t) <==> u in jobs) && (u in jobs ==> AfterJob(jobs, t)[u] == jobs[u])
    ensures t in AfterJob(jobs, t) <==> jobs[t].left > 1
    ensures jobs[t].left > 1 ==> var a, j := AfterJob(jobs, t)[t], jobs[t]; a.next == j.next + 1 && a.left == j.left - 1
  {
    var j := jobs[t];
    JobAdvances(stream, j, NextSize(|j.msg| - j.progress, j.left));
  }

  lemma EmitJobs(stream: seq<Fragment>, jobs: map<nat, Job>, emitted: set<nat>, count: nat, t: nat)
    requires JobsOk(stream, jobs) && Partition(jobs, emitted, count) && t in jobs
    ensures JobsOk(stream, AfterJob(jobs, t)) && Partition(AfterJob(jobs, t), emitted + {jobs[t].next}, count)
    ensures jobs[t].next !in emitted
  {
    AfterJobIs(stream, jobs, t);
    assert Owns(jobs[t], jobs[t].next);
    EmitPartition(jobs, emitted, count, t, AfterJob(jobs, t));
  }

  lemma EmitKeeps(s: Sys, t: nat, now: Time)
    requires Inv(s) && Enabled(s, Emit(t, now))
    ensures Inv(Next(s, Emit(t, now)))
  {
    var stream := Stream(s.sent, s.limit);
    var f := EmittedFrame(s.jobs[t]);
    assert JobOk(stream, s.jobs[t]);
    EmittedFrag(stream, s.jobs[t]);
    EmitJobs(stream, s.jobs, s.emitted, s.tx.txIndex, t);
    EmitQueue(stream, s.emitted, s.tx.queue, f, now);
    EmitNet(stream, s.emitted, s.got, s.tx.queue, s.net, f, now);
  }

  // ------------------------------------------------------------ Retransmit

  lemma QueueEntries(stream: seq<Fragment>, emitted: set<nat>, q: seq<TxEntry>)
    requires QueueOk(stream, emitted, q)
    ensures EntriesOk(q)
  {
    forall k | 0 <= k < |q| ensures EntryOk(q[k]) {
      assert q[k] in q && EntryFits(stream, emitted, q[k]);
    }
  }

  /** Where entry `i` of the rotated queue comes from. */
  ghost function Origin(q: seq<TxEntry>, now: Time, delta: nat, i: nat): (j: nat)
    requires EntriesOk(q) && i < |q|
    ensures j < |q|
  {
    var k := OverduePrefix(q, now, delta);
    if i < |q| - k then i + k else i - (|q| - k)
  }

  /** The same frame, with at least the retransmit numbers it had. */
  ghost predicate Renewed(e: TxEntry, a: TxEntry)
  {
    && a.frame.index == e.frame.index && a.frame.frag == e.frame.frag && a.frame.seqno.num == e.frame.seqno.num
    && |e.transmits| <= |a.transmits| && EntryOk(a)
  }

  lemma RotatedEntry(q: seq<TxEntry>, now: Time, delta: nat, i: nat)
    requires EntriesOk(q) && i < |q|
    ensures Renewed(q[Origin(q, now, delta, i)], AfterRetransmit(q, now, delta)[i])
  {
    RetransmitRotates(q, now, delta, i);
    var k := OverduePrefix(q, now, delta);
    RefreshRenews(if i < |q| - k then q[i + k] else q[i - (|q| - k)], now);
  }

  lemma RefreshRenews(e: TxEntry, now: Time)
    requires EntryOk(e)
    ensures Renewed(e, e) && Renewed(e, Refresh(e, now))
  {
    RefreshKeeps(e, now);
  }

  lemma RotatedQueue(stream: seq<Fragment>, emitted: set<nat>, q: seq<TxEntry>, now: Time, delta: nat)
    requires QueueOk(stream, emitted, q) && EntriesOk(q)
    ensures QueueOk(stream, emitted, AfterRetransmit(q, now, delta))
  {
    var after := AfterRetransmit(q, now, delta);
    forall i | 0 <= i < |after| ensures EntryFits(stream, emitted, after[i]) {
      RotatedEntry(q, now, delta, i);
      assert EntryFits(stream, emitted, q[Origin(q, now, delta, i)]);
    }
    forall a, b | 0 <= a < b < |after| ensures after[a].frame.index != after[b].frame.index {
      RotatedEntry(q, now, delta, a);
      RotatedEntry(q, now, delta, b);
    }
  }

  lemma RotatedIndices(q: seq<TxEntry>, now: Time, delta: nat)
    requires EntriesOk(q)
    ensures Queued(AfterRetransmit(q, now, delta)) == Queued(q)
  {
    var after, k := AfterRetransmit(q, now, delta), OverduePrefix(q, now, delta);
    forall i | 0 <= i < |q| ensures after[i].frame.index in Queued(q) {
      RotatedEntry(q, now, delta, i);
      assert q[Origin(q, now, delta, i)] in q;
    }
    forall j | 0 <= j < |q| ensures q[j].frame.index in Queued(after) {
      var i := if k <= j then j - k else j + |q| - k;
      RotatedEntry(q, now, delta, i);
      assert after[i] in after;
    }
  }

  /** Every resent copy is the frame its queue entry now holds. */
  lemma ResentEntry(q: seq<TxEntry>, now: Time, delta: nat, k: nat)
    requires EntriesOk(q) && k < |Resent(q, now, delta)|
    ensures k < |q| && Resent(q, now, delta)[k] == Refresh(q[k], now).frame
    ensures Refresh(q[k], now) in AfterRetransmit(q, now, delta)
  {
    var n := OverduePrefix(q, now, delta);
    FrameAt(RefreshAll(q[..n], now), k);
    RefreshAllAt(q[..n], now, k);
    RetransmitRotates(q, now, delta, k + |q| - n);
  }

  lemma RotatedOldFlight(q: seq<TxEntry>, now: Time, delta: nat, f: Flight, e: TxEntry)
    requires EntriesOk(q) && (forall x :: x in q ==> RtUsed(f, x)) && e in AfterRetransmit(q, now, delta)
    ensures RtUsed(f, e)
  {
    var after := AfterRetransmit(q, now, delta);
    var i :| 0 <= i < |after| && after[i] == e;
    RotatedEntry(q, now, delta, i);
    assert q[Origin(q, now, delta, i)] in q;
  }

  lemma CopyOfEntry(stream: seq<Fragment>, emitted: set<nat>, got: set<nat>, q: seq<TxEntry>, own: TxEntry, e: TxEntry)
    requires QueueOk(stream, emitted, q) && own in q && e in q
    ensures FlightOk(stream, emitted, got, Copy(own.frame)) && RtUsed(Copy(own.frame), e)
  {
    assert EntryFits(stream, emitted, own);
    var a :| 0 <= a < |q| && q[a] == own;
    var b :| 0 <= b < |q| && q[b] == e;
  }

  lemma RotatedNet(stream: seq<Fragment>, emitted: set<nat>, got: set<nat>, q: seq<TxEntry>, net: set<Flight>, now: Time, delta: nat)
    requires QueueOk(stream, emitted, q) && EntriesOk(q) && NetOk(stream, emitted, got, q, net)
    ensures NetOk(stream, emitted, got, AfterRetransmit(q, now, delta), net + Copies(Resent(q, now, delta)))
  {
    var after, frames := AfterRetransmit(q, now, delta), Resent(q, now, delta);
    RotatedQueue(stream, emitted, q, now, delta);
    forall f | f in Copies(frames) && f !in net
      ensures FlightOk(stream, emitted, got, f) && forall e :: e in after ==> RtUsed(f, e)
    {
      var k :| 0 <= k < |frames| && f == Copy(frames[k]);
      ResentEntry(q, now, delta, k);
      forall e | e in after ensures FlightOk(stream, emitted, got, f) && RtUsed(f, e) {
        CopyOfEntry(stream, emitted, got, after, Refresh(q[k], now), e);
      }
    }
    forall f, e | f in net && e in after ensures RtUsed(f, e) {
      RotatedOldFlight(q, now, delta, f, e);
    }
  }

  lemma RetransmitKeeps(s: Sys, now: Time, delta: nat)
    requires Inv(s) && Enabled(s, Retransmit(now, delta))
    ensures Inv(Next(s, Retransmit(now, delta)))
  {
    var stream, q := Stream(s.sent, s.limit), s.tx.queue;
    RotatedQueue(stream, s.emitted, q, now, delta);
    RotatedIndices(q, now, delta);
    RotatedNet(stream, s.emitted, s.got, q, s.net, now, delta);
  }

  // ------------------------------------------------------------ Arrive, acknowledgement

  /** Inside the window an acknowledgement matches its own frame and no other, whatever its retransmit number. */
  lemma AckMatchesOwn(stream: seq<Fragment>, emitted: set<nat>, got: set<nat>, q: seq<TxEntry>, net: set<Flight>, f: Flight, e: TxEntry)
    requires QueueOk(stream, emitted, q) && NetOk(stream, emitted, got, q, net)
    requires f in net && AckInWindow(f.index, q) && e in q
    ensures Acks(f.seqno, e) <==> e.frame.index == f.index
  {
    assert EntryFits(stream, emitted, e) && FlightOk(stream, emitted, got, f) && RtUsed(f, e);
    var k :| 0 <= k < |q| && q[k] == e;
    assert -NUM_COUNT < f.index - q[k].frame.index < NUM_COUNT;
    if Acks(f.seqno, e) {
      SeqOfInjective(f.index, e.frame.index);
    }
  }

  lemma DistinctSnoc(r: seq<TxEntry>, last: TxEntry)
    requires Distinct(r) && forall e :: e in r ==> e.frame.index != last.frame.index
    ensures Distinct(r + [last])
  {
  }

  lemma {:induction false} AckKeepsDistinct(q: seq<TxEntry>, s: SeqNo)
    requires Distinct(q)
    ensures Distinct(AfterAck(q, s))
  {
    if q != [] {
      var front, last := q[..|q| - 1], q[|q| - 1];
      AckKeepsDistinct(front, s);
      AckKeeps(front, s);
      forall e | e in AfterAck(front, s) ensures e.frame.index != last.frame.index {
        var b :| 0 <= b < |front| && front[b] == e;
        assert q[b] == e;
      }
      DistinctSnoc(AfterAck(front, s), last);
    }
  }

  lemma AckRemovesOwn(stream: seq<Fragment>, emitted: set<nat>, got: set<nat>, q: seq<TxEntry>, net: set<Flight>, f: Flight)
    requires QueueOk(stream, emitted, q) && NetOk(stream, emitted, got, q, net)
    requires f in net && AckInWindow(f.index, q)
    ensures forall e :: e in AfterAck(q, f.seqno) <==> e in q && e.frame.index != f.index
  {
    AckKeeps(q, f.seqno);
    forall e | e in q ensures Acks(f.seqno, e) <==> e.frame.index == f.index {
      AckMatchesOwn(stream, emitted, got, q, net, f, e);
    }
  }

  lemma AckQueue(stream: seq<Fragment>, emitted: set<nat>, got: set<nat>, q: seq<TxEntry>, net: set<Flight>, f: Flight)
    requires QueueOk(stream, emitted, q) && NetOk(stream, emitted, got, q, net)
    requires f in net && AckInWindow(f.index, q)
    ensures QueueOk(stream, emitted, AfterAck(q, f.seqno)) && NetOk(stream, emitted, got, AfterAck(q, f.seqno), net)
    ensures Queued(AfterAck(q, f.seqno)) == Queued(q) - {f.index}
  {
    AckRemovesOwn(stream, emitted, got, q, net, f);
    AckKeepsDistinct(q, f.seqno);
  }

  lemma AckKeepsInv(s: Sys, f: Flight)
    requires Inv(s) && Enabled(s, Arrive(f)) && f.AckFlight?
    ensures Inv(Next(s, Arrive(f)))
    ensures Queued(Next(s, Arrive(f)).tx.queue) == Queued(s.tx.queue) - {f.index}
  {
    var stream := Stream(s.sent, s.limit);
    AckQueue(stream, s.emitted, s.got, s.tx.queue, s.net, f);
    assert FlightOk(stream, s.emitted, s.got, f);
  }

  // ------------------------------------------------------------ Arrive, data

  lemma TakeNextBase(stream: seq<Fragment>, rx: Rx)
    requires RxBase(stream, rx) && rx.rxSeq in rx.receiveMap
    requires rx.rxIndex < |stream| && rx.receiveMap[rx.rxSeq] == stream[rx.rxIndex]
    ensures RxBase(stream, TakeNext(rx))
  {
    var r := rx.rxIndex;
    assert stream[..r + 1][..r] == stream[..r];
    PlusSeqOf(r, 1);
  }

  lemma TakeNextMap(mode: KeyMode, stream: seq<Fragment>, usable: set<nat>, rx: Rx)
    requires RxOk(mode, stream, usable, rx) && rx.rxSeq in rx.receiveMap
    ensures MapOk(mode, stream, usable, rx.rxIndex + 1, rx.receiveMap - {rx.rxSeq})
  {
    var r, m := rx.rxIndex, rx.receiveMap;
    forall key | key in m - {rx.rxSeq} ensures KeyOk(stream, usable, r + 1, m - {rx.rxSeq}, key) {
      assert KeyOk(stream, usable, r, m, key);
      if key.rt == 0 {
        IndexOfKeyNext(r, key);
      }
    }
  }

  lemma TakeNextKept(usable: set<nat>, r: nat, m: map<SeqNo, Fragment>)
    requires Kept(usable, r, m)
    ensures Kept(usable, r + 1, m - {SeqOf(r)})
  {
    forall i | i in usable && r + 1 <= i ensures SeqOf(i) in m - {SeqOf(r)} {
      if SeqOf(i) == SeqOf(r) {
        SeqOfInjective(i, r);
      }
    }
  }

  lemma TakeNextOk(mode: KeyMode, stream: seq<Fragment>, usable: set<nat>, rx: Rx)
    requires RxOk(mode, stream, usable, rx) && rx.rxSeq in rx.receiveMap
    ensures RxOk(mode, stream, usable, TakeNext(rx))
  {
    assert KeyOk(stream, usable, rx.rxIndex, rx.receiveMap, rx.rxSeq);
    KeyOfIndex(rx.rxIndex, rx.rxIndex);
    TakeNextBase(stream, rx);
    TakeNextMap(mode, stream, usable, rx);
    TakeNextKept(usable, rx.rxIndex, rx.receiveMap);
  }

  lemma {:induction false} DrainOk(mode: KeyMode, stream: seq<Fragment>, usable: set<nat>, rx: Rx)
    requires RxOk(mode, stream, usable, rx)
    ensures RxOk(mode, stream, usable, Drain(rx)) && Drain(rx).rxSeq !in Drain(rx).receiveMap
    ensures rx.rxIndex <= Drain(rx).rxIndex
    decreases |rx.receiveMap|
  {
    if rx.rxSeq in rx.receiveMap {
      RemovalShrinks(rx.receiveMap, rx.rxSeq);
      TakeNextOk(mode, stream, usable, rx);
      DrainOk(mode, stream, usable, TakeNext(rx));
    }
  }

  lemma StoreOk(mode: KeyMode, stream: seq<Fragment>, usable: set<nat>, rx: Rx, f: Flight)
    requires RxOk(mode, stream, usable, rx)
    requires f.DataFlight? && FrameOk(stream, f.index, f.seqno, f.frag) && InWindow(f.index, rx.rxIndex) && rx.rxIndex <= f.index
    ensures RxOk(mode, stream, if Usable(mode, f) then usable + {f.index} else usable, Store(mode, rx, f.seqno, f.frag))
  {
    var r, m, k := rx.rxIndex, rx.receiveMap, Key(mode, f.seqno);
    var m', usable' := Insert(m, k, f.frag), if Usable(mode, f) then usable + {f.index} else usable;
    if Usable(mode, f) {
      assert k == SeqOf(f.index);
      KeyOfIndex(r, f.index);
    }
    forall key | key in m' ensures KeyOk(stream, usable', r, m', key) {
      if key in m {
        assert KeyOk(stream, usable, r, m, key);
      }
    }
  }

  lemma AcceptOk(mode: KeyMode, stream: seq<Fragment>, usable: set<nat>, rx: Rx, f: Flight)
    requires RxOk(mode, stream, usable, rx) && rx.rxSeq !in rx.receiveMap
    requires f.DataFlight? && FrameOk(stream, f.index, f.seqno, f.frag) && InWindow(f.index, rx.rxIndex)
    ensures var usable', rx' := if Usable(mode, f) then usable + {f.index} else usable, Accept(mode, rx, f.seqno, f.frag);
            RxOk(mode, stream, usable', rx') && rx'.rxSeq !in rx'.receiveMap
  {
    AdvanceInWindow(f.seqno, f.index, rx.rxIndex);
    if rx.rxIndex <= f.index {
      StoreOk(mode, stream, usable, rx, f);
      DrainOk(mode, stream, if Usable(mode, f) then usable + {f.index} else usable, Store(mode, rx, f.seqno, f.frag));
    } else {
      forall key | key in rx.receiveMap
        ensures KeyOk(stream, usable + {f.index}, rx.rxIndex, rx.receiveMap, key)
      {
        assert KeyOk(stream, usable, rx.rxIndex, rx.receiveMap, key);
      }
    }
  }

  lemma DataNet(stream: seq<Fragment>, emitted: set<nat>, got: set<nat>, q: seq<TxEntry>, net: set<Flight>, f: Flight)
    requires NetOk(stream, emitted, got, q, net) && f in net
    ensures NetOk(stream, emitted, got + {f.index}, q, net + {AckFlight(f.index, f.seqno)})
  {
    var ack := AckFlight(f.index, f.seqno);
    forall g | g in net + {ack} ensures FlightOk(stream, emitted, got + {f.index}, g) {
      assert FlightOk(stream, emitted, got, if g in net then g else f);
    }
    forall g, e | g in net + {ack} && e in q ensures RtUsed(g, e) {
      assert RtUsed(if g in net then g else f, e);
    }
  }

  lemma DataKeepsInv(s: Sys, f: Flight)
    requires Inv(s) && Enabled(s, Arrive(f)) && f.DataFlight?
    ensures Inv(Next(s, Arrive(f)))
  {
    var stream := Stream(s.sent, s.limit);
    assert FlightOk(stream, s.emitted, s.got, f);
    AcceptOk(s.mode, stream, s.usable, s.rx, f);
    DataNet(stream, s.emitted, s.got, s.tx.queue, s.net, f);
  }

  // ------------------------------------------------------------ every run

  lemma StepKeepsInv(s: Sys, step: Step)
    requires Inv(s) && Enabled(s, step)
    ensures Inv(Next(s, step))
  {
    match step
    case Reserve(t, msg) => ReserveKeeps(s, t, msg, Next(s, step));
    case Emit(t, now) => EmitKeeps(s, t, now);
    case Retransmit(now, delta) => RetransmitKeeps(s, now, delta);
    case Arrive(f) => if f.AckFlight? { AckKeepsInv(s, f); } else { DataKeepsInv(s, f); }
    case Drop(f) =>
  }

  lemma {:induction false} RunKeepsInv(s: Sys, steps: seq<Step>)
    requires Inv(s) && Run(s, steps)
    ensures Inv(Final(s, steps))
    decreases |steps|
  {
    if steps != [] {
      StepKeepsInv(s, steps[0]);
      RunKeepsInv(Next(s, steps[0]), steps[1..]);
    }
  }
}
