/** The sender and receiver halves of `OPTUDP` as values: one function per operation. */
module UdpModel {
  import opened Common
  import opened Fragmentation

  type Time = nat

  const RT_COUNT: int := 64
  const NUM_COUNT: int := 0x400_0000
  const HALF_WINDOW: int := 0x200_0000
  const MIN_DELTA: nat := 3000
  const MAX_DELTA: nat := 500000
  /** Default setting, 30 seconds. */
  const MAX_PONG: nat := 30_000_000

  type FragNum = n: int | 0 <= n < 0x400_0000
  type RtNum = n: int | 0 <= n < 64

  /** How `on_receive` keys the reorder map: by the whole number (the code) or without the retransmit bits. */
  datatype KeyMode = FullSeq | Masked

  // ------------------------------------------------------------ sequence numbers

  /** A `uint32_t` sequence number as the two bit fields that `seq_num_mask` and `seq_rt_mask` cut it into. */
  datatype SeqNo = SeqNo(num: FragNum, rt: RtNum)

  function ToU32(s: SeqNo): U32 { RT_COUNT * s.num + s.rt }

  function FromU32(n: U32): SeqNo { SeqNo(n / RT_COUNT, n % RT_COUNT) }

  /** `seq & seq_num_mask` */
  function Base(s: SeqNo): SeqNo { s.(rt := 0) }

  /** `seq + seq_rt_cnt * n` */
  function Plus(s: SeqNo, n: nat): SeqNo { s.(num := (s.num + n) % NUM_COUNT) }

  /** `int32_t advance = seq - _rx_seq` */
  function Advance(s: SeqNo, rx: SeqNo): int
  {
    var d := (ToU32(s) - ToU32(rx)) % TWO_32;
    if d < 0x8000_0000 then d else d - TWO_32
  }

  /** The number, with retransmit bits 0, of the fragment of an unbounded index. */
  function SeqOf(index: nat): SeqNo { SeqNo(index % NUM_COUNT, 0) }

  /** The index in `[r, r + 2^26)` that `key` stands for. */
  function IndexOfKey(r: nat, key: SeqNo): nat
  {
    r + (key.num - r) % NUM_COUNT
  }

  predicate InWindow(index: nat, r: nat)
  {
    r - HALF_WINDOW <= index < r + HALF_WINDOW
  }

  /** The two fields are the 32-bit word, and the word operations are the field operations. */
  lemma SeqNoIsWord(s: SeqNo, w: U32, n: nat)
    ensures FromU32(ToU32(s)) == s && ToU32(FromU32(w)) == w
    ensures ToU32(Plus(s, n)) == (ToU32(s) + RT_COUNT * n) % TWO_32
  {
    var q := (s.num + n) / NUM_COUNT;
    assert s.num + n == NUM_COUNT * q + (s.num + n) % NUM_COUNT;
    assert ToU32(s) + RT_COUNT * n == TWO_32 * q + ToU32(Plus(s, n));
  }

  lemma ModUnique(a: int, q: int, d: nat)
    requires a == NUM_COUNT * q + d && d < NUM_COUNT
    ensures a % NUM_COUNT == d
  {
  }

  lemma PlusPlus(s: SeqNo, a: nat, b: nat)
    ensures Plus(Plus(s, a), b) == Plus(s, a + b)
  {
  }

  lemma PlusSeqOf(index: nat, n: nat)
    ensures Plus(SeqOf(index), n) == SeqOf(index + n)
  {
  }

  lemma SeqOfInjective(i: nat, j: nat)
    requires SeqOf(i) == SeqOf(j)
    requires -NUM_COUNT < i - j < NUM_COUNT
    ensures i == j
  {
  }

  lemma KeyOfIndex(r: nat, index: nat)
    requires r <= index < r + NUM_COUNT
    ensures IndexOfKey(r, SeqOf(index)) == index
  {
    ModUnique(index % NUM_COUNT - r, -(index / NUM_COUNT), index - r);
  }

  lemma IndexOfKeyInverse(r: nat, key: SeqNo)
    ensures r <= IndexOfKey(r, key) < r + NUM_COUNT && SeqOf(IndexOfKey(r, key)) == Base(key)
  {
    ModUnique(IndexOfKey(r, key), -((key.num - r) / NUM_COUNT), key.num);
  }

  /** Moving the receiver on by one does not change which fragment any other stored key stands for. */
  lemma IndexOfKeyNext(r: nat, key: SeqNo)
    requires Base(key) != SeqOf(r)
    ensures IndexOfKey(r, key) == IndexOfKey(r + 1, key) != r
  {
    IndexOfKeyInverse(r, key);
    IndexOfKeyInverse(r + 1, key);
    SeqOfInjective(IndexOfKey(r, key), IndexOfKey(r + 1, key));
  }

  /** The signed 32-bit comparison, exactly: it looks at the distance modulo 2^26 fragments. */
  lemma AdvanceSign(s: SeqNo, index: nat, r: nat)
    requires Base(s) == SeqOf(index)
    ensures Advance(s, SeqOf(r)) >= 0 <==> (index - r) % NUM_COUNT < HALF_WINDOW
  {
    var a, b := index % NUM_COUNT, r % NUM_COUNT;
    var d := if a >= b then a - b else a - b + NUM_COUNT;
    ModUnique(index - r, index / NUM_COUNT - r / NUM_COUNT + (if a >= b then 0 else -1), d);
    assert ToU32(s) - ToU32(SeqOf(r)) == RT_COUNT * (a - b) + s.rt;
  }

  /** Hence, and only inside the window, `advance >= 0` means "not yet passed". */
  lemma AdvanceInWindow(s: SeqNo, index: nat, r: nat)
    requires Base(s) == SeqOf(index) && InWindow(index, r)
    ensures Advance(s, SeqOf(r)) >= 0 <==> r <= index
  {
    AdvanceSign(s, index, r);
    if r <= index {
      ModUnique(index - r, 0, index - r);
    } else {
      ModUnique(index - r, -1, index - r + NUM_COUNT);
    }
  }

  // ------------------------------------------------------------ the sender

  /** A frame in the retransmit queue. `index` is a history value: the unbounded number of the
      fragment, of which the wire carries the low 26 bits. No operation branches on it. */
  datatype Frame = Frame(index: nat, seqno: SeqNo, frag: Fragment)
  datatype TxEntry = TxEntry(transmits: seq<Time>, frame: Frame)
  datatype Tx = Tx(txSeq: SeqNo, txIndex: nat, queue: seq<TxEntry>)

  /** `transmits` has one time per retransmit number used so far, 64 once they have all been used. */
  predicate EntryOk(e: TxEntry)
  {
    |e.transmits| == e.frame.seqno.rt + 1 || |e.transmits| == RT_COUNT
  }

  predicate EntriesOk(q: seq<TxEntry>)
  {
    forall k :: 0 <= k < |q| ==> EntryOk(q[k])
  }

  function Latest(e: TxEntry): Time
    requires EntryOk(e)
  {
    e.transmits[e.frame.seqno.rt]
  }

  predicate Overdue(e: TxEntry, now: Time, delta: nat)
    requires EntryOk(e)
  {
    Latest(e) + delta <= now
  }

  function AfterReserve(tx: Tx, n: nat): Tx
  {
    tx.(txSeq := Plus(tx.txSeq, n), txIndex := tx.txIndex + n)
  }

  /** The frames of a reserved block: consecutive numbers, one fragment each. */
  function Frames(index: nat, s: SeqNo, fs: seq<Fragment>): seq<Frame>
  {
    seq(|fs|, k requires 0 <= k < |fs| => Frame(index + k, Plus(s, k), fs[k]))
  }

  function FirstEntries(frames: seq<Frame>, clock: seq<Time>): seq<TxEntry>
    requires |frames| <= |clock|
  {
    seq(|frames|, k requires 0 <= k < |frames| => TxEntry([clock[k]], frames[k]))
  }

  function AfterEmit(tx: Tx, f: Frame, now: Time): Tx
  {
    tx.(queue := tx.queue + [TxEntry([now], f)])
  }

  /** The acknowledgement of `s` matches an entry. */
  predicate Acks(s: SeqNo, e: TxEntry)
  {
    e.frame.seqno.num == s.num && s.rt < |e.transmits|
  }

  function AfterAck(q: seq<TxEntry>, s: SeqNo): seq<TxEntry>
  {
    if q == [] then []
    else if Acks(s, q[|q| - 1]) then AfterAck(q[..|q| - 1], s)
    else AfterAck(q[..|q| - 1], s) + [q[|q| - 1]]
  }

  /** One turn of the retransmit loop on one entry: next retransmit number, time noted. */
  function Refresh(e: TxEntry, now: Time): (r: TxEntry)
    requires EntryOk(e)
    ensures EntryOk(r) && Latest(r) == now
  {
    var rt := (e.frame.seqno.rt + 1) % RT_COUNT;
    TxEntry(
      if |e.transmits| <= rt then e.transmits + [now] else e.transmits[rt := now],
      e.frame.(seqno := e.frame.seqno.(rt := rt)))
  }

  /** A resend keeps the fragment and its number, and forgets none of the retransmit numbers used. */
  lemma RefreshKeeps(e: TxEntry, now: Time)
    requires EntryOk(e)
    ensures var r := Refresh(e, now);
            && r.frame.seqno.num == e.frame.seqno.num
            && r.frame.index == e.frame.index && r.frame.frag == e.frame.frag
            && |e.transmits| <= |r.transmits| && r.frame.seqno.rt < |r.transmits|
  {
  }

  function RefreshAll(q: seq<TxEntry>, now: Time): (r: seq<TxEntry>)
    requires EntriesOk(q)
    ensures |r| == |q| && EntriesOk(r)
  {
    if q == [] then [] else RefreshAll(q[..|q| - 1], now) + [Refresh(q[|q| - 1], now)]
  }

  lemma {:induction false} RefreshAllAt(q: seq<TxEntry>, now: Time, k: nat)
    requires EntriesOk(q) && k < |q|
    ensures RefreshAll(q, now)[k] == Refresh(q[k], now)
  {
    if k < |q| - 1 {
      RefreshAllAt(q[..|q| - 1], now, k);
    }
  }

  function FramesOf(q: seq<TxEntry>): (r: seq<Frame>)
    ensures |r| == |q|
  {
    if q == [] then [] else FramesOf(q[..|q| - 1]) + [q[|q| - 1].frame]
  }

  /** How far from the front the retransmit loop gets. */
  function OverduePrefix(q: seq<TxEntry>, now: Time, delta: nat): (k: nat)
    requires EntriesOk(q)
    ensures k <= |q|
    ensures forall j :: 0 <= j < k ==> Overdue(q[j], now, delta)
    ensures k < |q| ==> !Overdue(q[k], now, delta)
  {
    if q == [] || !Overdue(q[0], now, delta) then 0 else 1 + OverduePrefix(q[1..], now, delta)
  }

  /** The queue after `on_retransmit_timer`. */
  function AfterRetransmit(q: seq<TxEntry>, now: Time, delta: nat): (r: seq<TxEntry>)
    requires EntriesOk(q)
    ensures EntriesOk(r) && |r| == |q|
  {
    var k := OverduePrefix(q, now, delta);
    q[k..] + RefreshAll(q[..k], now)
  }

  /** The frames `on_retransmit_timer` hands to the socket, in order. */
  function Resent(q: seq<TxEntry>, now: Time, delta: nat): seq<Frame>
    requires EntriesOk(q)
  {
    FramesOf(RefreshAll(q[..OverduePrefix(q, now, delta)], now))
  }

  /** When `reset_retransmit_timer` arms the timer. */
  function Deadline(q: seq<TxEntry>, delta: nat): Option<Time>
    requires EntriesOk(q)
  {
    if q == [] then None else Some(Latest(q[0]) + delta)
  }

  // ------------------------------------------------------------ the receiver

  datatype Rx = Rx(receiveMap: map<SeqNo, Fragment>, list: seq<Bytes>, rxSeq: SeqNo, rxIndex: nat, delivered: seq<Bytes>)

  const INITIAL_TX := Tx(SeqNo(0, 0), 0, [])
  const INITIAL_RX := Rx(map[], [], SeqNo(0, 0), 0, [])

  function Key(mode: KeyMode, s: SeqNo): SeqNo
  {
    if mode == Masked then Base(s) else s
  }

  /** `std::map::insert`: an existing key keeps its value. */
  function Insert<K, V>(m: map<K, V>, k: K, v: V): map<K, V>
  {
    if k in m then m else m[k := v]
  }

  /** One round of `try_reassemble` that finds its frame. */
  function TakeNext(rx: Rx): Rx
    requires rx.rxSeq in rx.receiveMap
  {
    var a := Absorb(Assembly(rx.delivered, rx.list), rx.receiveMap[rx.rxSeq]);
    Rx(rx.receiveMap - {rx.rxSeq}, a.partial, Plus(rx.rxSeq, 1), rx.rxIndex + 1, a.delivered)
  }

  function Drain(rx: Rx): Rx
    decreases |rx.receiveMap|
  {
    if rx.rxSeq !in rx.receiveMap then rx
    else
      RemovalShrinks(rx.receiveMap, rx.rxSeq);
      Drain(TakeNext(rx))
  }

  lemma RemovalShrinks<K, V>(m: map<K, V>, k: K)
    requires k in m
    ensures |m - {k}| < |m|
  {
    assert (m - {k}).Keys == m.Keys - {k};
    assert |m.Keys - {k}| == |m.Keys| - 1;
  }

  function Store(mode: KeyMode, rx: Rx, s: SeqNo, frag: Fragment): Rx
  {
    rx.(receiveMap := Insert(rx.receiveMap, Key(mode, s), frag))
  }

  /** The data case of `on_receive`, after the acknowledgement has been sent. */
  function Accept(mode: KeyMode, rx: Rx, s: SeqNo, frag: Fragment): Rx
  {
    if Advance(s, rx.rxSeq) >= 0 then Drain(Store(mode, rx, s, frag)) else rx
  }
}
