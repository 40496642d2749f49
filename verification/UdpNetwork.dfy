/** Concurrent `send` calls, a network that drops, duplicates and reorders, and one receiver:
    a state machine over the steps of `UdpModel`, and what holds in every run. */
module UdpNetwork {
  import opened Common
  import opened Fragmentation
  import opened UdpModel
  import opened UdpRetransmit

  /** A `send` call between reserving its block and emitting the last fragment of it. */
  datatype Job = Job(msg: Message, progress: nat, left: nat, next: nat, seqno: SeqNo)

  /** A datagram on its way. `index` is the history value of the frame it copies or acknowledges. */
  datatype Flight =
    | DataFlight(index: nat, seqno: SeqNo, frag: Fragment)
    | AckFlight(index: nat, seqno: SeqNo)

  datatype Sys = Sys(
    mode: KeyMode,
    limit: nat,
    tx: Tx,
    jobs: map<nat, Job>,
    rx: Rx,
    net: set<Flight>,
    // History: messages in order of reservation, indices emitted, indices of which any copy reached
    // the receiver, indices of which a copy did that the receiver can find again
    sent: seq<Message>,
    emitted: set<nat>,
    got: set<nat>,
    usable: set<nat>)

  datatype Step =
    | Reserve(thread: nat, msg: Message)
    | Emit(thread: nat, now: Time)
    | Retransmit(now: Time, delta: nat)
    | Arrive(flight: Flight)
    | Drop(flight: Flight)

  function Initial(mode: KeyMode, limit: nat): Sys
  {
    Sys(mode, limit, INITIAL_TX, map[], INITIAL_RX, {}, [], {}, {}, {})
  }

  predicate JobReady(j: Job)
  {
    j.progress < |j.msg| && 0 < j.left && Splittable(j.msg, j.progress, j.left)
  }

  /** No two queued frames and acknowledgements in flight are 2^26 fragments apart. */
  predicate AckInWindow(index: nat, q: seq<TxEntry>)
  {
    forall k :: 0 <= k < |q| ==> -NUM_COUNT < index - q[k].frame.index < NUM_COUNT
  }

  ghost predicate Enabled(s: Sys, step: Step)
  {
    match step
    case Reserve(t, msg) => t !in s.jobs && msg != [] && 0 < s.limit
    case Emit(t, _) => t in s.jobs && JobReady(s.jobs[t])
    case Retransmit(_, delta) => MIN_DELTA <= delta <= MAX_DELTA && EntriesOk(s.tx.queue)
    case Arrive(f) => f in s.net
                      && if f.DataFlight? then InWindow(f.index, s.rx.rxIndex) else AckInWindow(f.index, s.tx.queue)
    case Drop(f) => f in s.net
  }

  function EmittedFrame(j: Job): Frame
    requires JobReady(j)
  {
    NextSizeFits(|j.msg| - j.progress, j.left);
    var dataLeft := |j.msg| - j.progress;
    var n := NextSize(dataLeft, j.left);
    Frame(j.next, j.seqno, Fragment(KindOf(j.progress, n, dataLeft), j.msg[j.progress..j.progress + n]))
  }

  function AfterJob(jobs: map<nat, Job>, t: nat): map<nat, Job>
    requires t in jobs && JobReady(jobs[t])
  {
    var j := jobs[t];
    var n := NextSize(|j.msg| - j.progress, j.left);
    if j.progress + n >= |j.msg| then jobs - {t}
    else jobs[t := Job(j.msg, j.progress + n, j.left - 1, j.next + 1, Plus(j.seqno, 1))]
  }

  function Copy(f: Frame): Flight
  {
    DataFlight(f.index, f.seqno, f.frag)
  }

  /** The copies one call of `on_retransmit_timer` puts on the network. */
  function Copies(frames: seq<Frame>): set<Flight>
  {
    set k | 0 <= k < |frames| :: Copy(frames[k])
  }

  function Usable(mode: KeyMode, f: Flight): bool
  {
    f.DataFlight? && (mode == Masked || f.seqno.rt == 0)
  }

  function Next(s: Sys, step: Step): Sys
    requires Enabled(s, step)
  {
    match step
    case Reserve(t, msg) =>
      var n := ReservedCount(|msg|, s.limit);
      s.(tx := AfterReserve(s.tx, n), jobs := s.jobs[t := Job(msg, 0, n, s.tx.txIndex, s.tx.txSeq)], sent := s.sent + [msg])
    case Emit(t, now) =>
      var f := EmittedFrame(s.jobs[t]);
      s.(tx := AfterEmit(s.tx, f, now), jobs := AfterJob(s.jobs, t), net := s.net + {Copy(f)}, emitted := s.emitted + {f.index})
    case Retransmit(now, delta) =>
      s.(tx := s.tx.(queue := AfterRetransmit(s.tx.queue, now, delta)), net := s.net + Copies(Resent(s.tx.queue, now, delta)))
    case Arrive(f) =>
      if f.AckFlight? then s.(tx := s.tx.(queue := AfterAck(s.tx.queue, f.seqno)))
      else s.(rx := Accept(s.mode, s.rx, f.seqno, f.frag), net := s.net + {AckFlight(f.index, f.seqno)},
              got := s.got + {f.index}, usable := if Usable(s.mode, f) then s.usable + {f.index} else s.usable)
    case Drop(f) => s.(net := s.net - {f})
  }

  ghost predicate Run(s: Sys, steps: seq<Step>)
    decreases |steps|
  {
    steps == [] || (Enabled(s, steps[0]) && Run(Next(s, steps[0]), steps[1..]))
  }

  ghost function Final(s: Sys, steps: seq<Step>): Sys
    requires Run(s, steps)
    decreases |steps|
  {
    if steps == [] then s else Final(Next(s, steps[0]), steps[1..])
  }

  // ------------------------------------------------------------ the invariant, piece by piece

  ghost predicate JobOk(stream: seq<Fragment>, j: Job)
  {
    && JobReady(j)
    && j.next + j.left <= |stream|
    && stream[j.next..j.next + j.left] == FragmentsFrom(j.msg, j.progress, j.left)
    && j.seqno == SeqOf(j.next)
  }

  ghost predicate JobsOk(stream: seq<Fragment>, jobs: map<nat, Job>)
  {
    forall t :: t in jobs ==> JobOk(stream, jobs[t])
  }

  ghost predicate Owns(j: Job, i: nat)
  {
    j.next <= i < j.next + j.left
  }

  /** Every reserved index is emitted already or belongs to exactly one running `send`. */
  ghost predicate Partition(jobs: map<nat, Job>, emitted: set<nat>, count: nat)
  {
    && (forall i :: i in emitted ==> i < count)
    && (forall t, i :: t in jobs && i in emitted ==> !Owns(jobs[t], i))
    && (forall t, u, i :: t in jobs && u in jobs && Owns(jobs[t], i) && Owns(jobs[u], i) ==> t == u)
    && (forall i :: 0 <= i < count && i !in emitted ==> exists t :: t in jobs && Owns(jobs[t], i))
    && (forall t :: t in jobs ==> jobs[t].next + jobs[t].left <= count)
  }

  ghost predicate FrameOk(stream: seq<Fragment>, index: nat, seqno: SeqNo, frag: Fragment)
  {
    index < |stream| && frag == stream[index] && seqno.num == SeqOf(index).num
  }

  ghost predicate EntryFits(stream: seq<Fragment>, emitted: set<nat>, e: TxEntry)
  {
    EntryOk(e) && FrameOk(stream, e.frame.index, e.frame.seqno, e.frame.frag) && e.frame.index in emitted
  }

  ghost predicate Distinct(q: seq<TxEntry>)
  {
    forall a, b :: 0 <= a < b < |q| ==> q[a].frame.index != q[b].frame.index
  }

  ghost predicate QueueOk(stream: seq<Fragment>, emitted: set<nat>, q: seq<TxEntry>)
  {
    && (forall e :: e in q ==> EntryFits(stream, emitted, e))
    && Distinct(q)
  }

  ghost function Queued(q: seq<TxEntry>): set<nat>
  {
    set e | e in q :: e.frame.index
  }

  ghost predicate FlightOk(stream: seq<Fragment>, emitted: set<nat>, got: set<nat>, f: Flight)
  {
    && f.index in emitted && f.seqno.num == SeqOf(f.index).num
    && (f.DataFlight? ==> FrameOk(stream, f.index, f.seqno, f.frag))
    && (f.AckFlight? ==> f.index in got)
  }

  /** The retransmit number of a copy or acknowledgement of a queued frame has been used by it. */
  ghost predicate RtUsed(f: Flight, e: TxEntry)
  {
    f.index == e.frame.index ==> f.seqno.rt < |e.transmits|
  }

  ghost predicate NetOk(stream: seq<Fragment>, emitted: set<nat>, got: set<nat>, q: seq<TxEntry>, net: set<Flight>)
  {
    && (forall f :: f in net ==> FlightOk(stream, emitted, got, f))
    && (forall f, e :: f in net && e in q ==> RtUsed(f, e))
  }

  /** A stored frame that `try_reassemble` can look up is the fragment it will take it for. */
  ghost predicate KeyOk(stream: seq<Fragment>, usable: set<nat>, r: nat, m: map<SeqNo, Fragment>, key: SeqNo)
    requires key in m
  {
    key.rt == 0 ==>
      var i := IndexOfKey(r, key);
      i in usable && i < r + HALF_WINDOW && i < |stream| && m[key] == stream[i]
  }

  ghost predicate MapOk(mode: KeyMode, stream: seq<Fragment>, usable: set<nat>, r: nat, m: map<SeqNo, Fragment>)
  {
    && (forall key :: key in m ==> KeyOk(stream, usable, r, m, key))
    && (mode == Masked ==> forall key :: key in m ==> key.rt == 0)
  }

  ghost predicate Passed(usable: set<nat>, r: nat)
  {
    forall i :: 0 <= i < r ==> i in usable
  }

  ghost predicate Kept(usable: set<nat>, r: nat, m: map<SeqNo, Fragment>)
  {
    forall i :: i in usable && r <= i ==> i < r + HALF_WINDOW && SeqOf(i) in m
  }

  ghost predicate RxBase(stream: seq<Fragment>, rx: Rx)
  {
    && rx.rxSeq == SeqOf(rx.rxIndex) && rx.rxIndex <= |stream|
    && Assembly(rx.delivered, rx.list) == AbsorbAll(EMPTY_ASSEMBLY, stream[..rx.rxIndex])
  }

  ghost predicate RxOk(mode: KeyMode, stream: seq<Fragment>, usable: set<nat>, rx: Rx)
  {
    && RxBase(stream, rx)
    && MapOk(mode, stream, usable, rx.rxIndex, rx.receiveMap)
    && Passed(usable, rx.rxIndex) && Kept(usable, rx.rxIndex, rx.receiveMap)
  }

  /** What left the queue was acknowledged, so a copy of it arrived. */
  ghost predicate LossOk(mode: KeyMode, emitted: set<nat>, got: set<nat>, usable: set<nat>, q: seq<TxEntry>)
  {
    && usable <= got <= emitted
    && (mode == Masked ==> usable == got)
    && (forall i :: i in emitted ==> i in Queued(q) || i in got)
  }

  ghost predicate Counts(s: Sys)
  {
    && 0 < s.limit && NonEmptyMessages(s.sent)
    && |Stream(s.sent, s.limit)| == s.tx.txIndex
    && s.tx.txSeq == SeqOf(s.tx.txIndex)
  }

  ghost predicate Inv(s: Sys)
  {
    && Counts(s)
    && var stream := Stream(s.sent, s.limit);
    && JobsOk(stream, s.jobs)
    && Partition(s.jobs, s.emitted, s.tx.txIndex)
    && QueueOk(stream, s.emitted, s.tx.queue)
    && NetOk(stream, s.emitted, s.got, s.tx.queue, s.net)
    && RxOk(s.mode, stream, s.usable, s.rx)
    && s.rx.rxSeq !in s.rx.receiveMap
    && LossOk(s.mode, s.emitted, s.got, s.usable, s.tx.queue)
  }

  lemma InitialInv(mode: KeyMode, limit: nat)
    requires 0 < limit
    ensures Inv(Initial(mode, limit))
  {
  }
}
