/** What the rotation of the retransmit queue achieves, and when its timer fires. */
module UdpRetransmit {
  import opened Common
  import opened Fragmentation
  import opened UdpModel

  ghost predicate Sorted(q: seq<TxEntry>)
    requires EntriesOk(q)
  {
    forall a, b :: 0 <= a < b < |q| ==> Latest(q[a]) <= Latest(q[b])
  }

  ghost predicate NoneAfter(q: seq<TxEntry>, now: Time)
    requires EntriesOk(q)
  {
    forall k :: 0 <= k < |q| ==> Latest(q[k]) <= now
  }

  ghost predicate NoneOverdue(q: seq<TxEntry>, now: Time, delta: nat)
    requires EntriesOk(q)
  {
    forall k :: 0 <= k < |q| ==> !Overdue(q[k], now, delta)
  }

  /** No entry that is not yet due stands in front of one that is. */
  ghost predicate OverdueFirst(q: seq<TxEntry>, now: Time, delta: nat)
    requires EntriesOk(q)
  {
    forall a, b :: 0 <= a < b < |q| && Overdue(q[b], now, delta) ==> Overdue(q[a], now, delta)
  }

  lemma SortedOverdueFirst(q: seq<TxEntry>, now: Time, delta: nat)
    requires EntriesOk(q) && Sorted(q)
    ensures OverdueFirst(q, now, delta)
  {
  }

  lemma RotatedAt(q: seq<TxEntry>, k: nat, now: Time, r: seq<TxEntry>, i: nat)
    requires EntriesOk(q) && k <= |q| && r == q[k..] + RefreshAll(q[..k], now) && i < |q|
    ensures |r| == |q| && r[i] == if i < |q| - k then q[i + k] else Refresh(q[i - (|q| - k)], now)
  {
    if i >= |q| - k {
      RefreshAllAt(q[..k], now, i - (|q| - k));
    }
  }

  /** The queue as the rotation leaves it: what was not resent, then the resent entries in order. */
  lemma RetransmitRotates(q: seq<TxEntry>, now: Time, delta: nat, i: nat)
    requires EntriesOk(q) && i < |q|
    ensures |AfterRetransmit(q, now, delta)| == |q|
    ensures var kept := |q| - OverduePrefix(q, now, delta);
            AfterRetransmit(q, now, delta)[i] ==
            if i < kept then q[i + OverduePrefix(q, now, delta)] else Refresh(q[i - kept], now)
  {
    RotatedAt(q, OverduePrefix(q, now, delta), now, AfterRetransmit(q, now, delta), i);
  }

  /** Every overdue entry is resent in this call exactly when the overdue entries come first. */
  lemma RetransmitClearsIff(q: seq<TxEntry>, now: Time, delta: nat)
    requires EntriesOk(q) && 0 < delta
    ensures NoneOverdue(AfterRetransmit(q, now, delta), now, delta) <==> OverdueFirst(q, now, delta)
  {
    var k := OverduePrefix(q, now, delta);
    var after := AfterRetransmit(q, now, delta);
    if OverdueFirst(q, now, delta) {
      forall j | 0 <= j < |after| ensures !Overdue(after[j], now, delta) {
        RetransmitRotates(q, now, delta, j);
      }
    }
    if NoneOverdue(after, now, delta) {
      forall b | k <= b < |q| ensures !Overdue(q[b], now, delta) {
        RetransmitRotates(q, now, delta, b - k);
      }
    }
  }

  lemma RetransmitLatest(q: seq<TxEntry>, now: Time, delta: nat, i: nat)
    requires EntriesOk(q) && NoneAfter(q, now) && i < |q|
    ensures var kept, after := |q| - OverduePrefix(q, now, delta), AfterRetransmit(q, now, delta);
            EntryOk(after[i]) && Latest(after[i]) <= now
            && (if i < kept then after[i] == q[i + OverduePrefix(q, now, delta)] else Latest(after[i]) == now)
  {
    RetransmitRotates(q, now, delta, i);
  }

  lemma RetransmitKeepsOrder(q: seq<TxEntry>, now: Time, delta: nat)
    requires EntriesOk(q) && Sorted(q) && NoneAfter(q, now)
    ensures Sorted(AfterRetransmit(q, now, delta)) && NoneAfter(AfterRetransmit(q, now, delta), now)
  {
    var after := AfterRetransmit(q, now, delta);
    forall b | 0 <= b < |after| ensures Latest(after[b]) <= now {
      RetransmitLatest(q, now, delta, b);
    }
    forall a, b | 0 <= a < b < |after| ensures Latest(after[a]) <= Latest(after[b]) {
      RetransmitLatest(q, now, delta, a);
      RetransmitLatest(q, now, delta, b);
    }
  }

  /** With a clock that never ran backwards, one call resends each overdue entry exactly once,
      leaves none overdue and keeps the order the timer relies on. */
  lemma RetransmitSorted(q: seq<TxEntry>, now: Time, delta: nat)
    requires EntriesOk(q) && Sorted(q) && NoneAfter(q, now) && 0 < delta
    ensures var after := AfterRetransmit(q, now, delta);
            Sorted(after) && NoneAfter(after, now) && NoneOverdue(after, now, delta)
    ensures |Resent(q, now, delta)| == OverduePrefix(q, now, delta)
    ensures forall j :: 0 <= j < |q| ==>
      (Overdue(q[j], now, delta) <==> j < OverduePrefix(q, now, delta))
  {
    SortedOverdueFirst(q, now, delta);
    RetransmitClearsIff(q, now, delta);
    RetransmitKeepsOrder(q, now, delta);
  }

  /** In the times themselves: an entry's last transmission is the time under its retransmit number, and it is
      resent when the delay has passed since. */
  lemma ResentWhileDue(q: seq<TxEntry>, now: Time, delta: nat, i: nat)
    requires EntriesOk(q) && i < |q|
    ensures var k, e := |Resent(q, now, delta)|, q[i];
            && k <= |q|
            && (i < k ==> e.transmits[e.frame.seqno.rt] + delta <= now)
            && (i == k ==> now < e.transmits[e.frame.seqno.rt] + delta)
  {
  }

  /** An entry once resent: the next of the 64 retransmit numbers, the time of sending noted under it, and nothing
      else changed. */
  lemma RefreshIs(e: TxEntry, now: Time)
    requires EntryOk(e)
    ensures var r, rt := Refresh(e, now), (e.frame.seqno.rt + 1) % 64;
            && r.frame == Frame(e.frame.index, SeqNo(e.frame.seqno.num, rt), e.frame.frag)
            && |r.transmits| == (if |e.transmits| <= rt then |e.transmits| + 1 else |e.transmits|)
            && rt < |r.transmits| && r.transmits[rt] == now
            && (forall j :: 0 <= j < |e.transmits| && j != rt ==> r.transmits[j] == e.transmits[j])
  {
  }

  lemma ResentAt(q: seq<TxEntry>, k: nat, now: Time, frames: seq<Frame>, i: nat)
    requires EntriesOk(q) && k <= |q| && frames == FramesOf(RefreshAll(q[..k], now)) && i < |frames|
    ensures |frames| == k && frames[i] == Refresh(q[i], now).frame
  {
    FrameAt(RefreshAll(q[..k], now), i);
    RefreshAllAt(q[..k], now, i);
  }

  /** The copy that is sent, and the entry that is queued again. */
  lemma ResentIs(q: seq<TxEntry>, now: Time, delta: nat, i: nat)
    requires EntriesOk(q) && i < |Resent(q, now, delta)|
    ensures |Resent(q, now, delta)| <= |q|
    ensures Resent(q, now, delta)[i] == Refresh(q[i], now).frame
    ensures AfterRetransmit(q, now, delta)[|q| - |Resent(q, now, delta)| + i] == Refresh(q[i], now)
  {
    var k := OverduePrefix(q, now, delta);
    var frames := Resent(q, now, delta);
    ResentAt(q, k, now, frames, i);
    assert k == |frames|;
    RetransmitRotates(q, now, delta, |q| - k + i);
  }

  lemma {:induction false} FrameAt(q: seq<TxEntry>, k: nat)
    requires k < |q|
    ensures FramesOf(q)[k] == q[k].frame
  {
    if k < |q| - 1 {
      FrameAt(q[..|q| - 1], k);
    }
  }

  /** In a sorted queue exactly the entries whose delay has passed are resent, each once, and any at all exactly
      if the timer was due. */
  lemma ResentIffDue(q: seq<TxEntry>, now: Time, delta: nat, i: nat)
    requires EntriesOk(q) && i < |q|
    requires forall a, b :: 0 <= a < b < |q| ==>
               q[a].transmits[q[a].frame.seqno.rt] <= q[b].transmits[q[b].frame.seqno.rt]
    ensures i < |Resent(q, now, delta)| <==> q[i].transmits[q[i].frame.seqno.rt] + delta <= now
    ensures Resent(q, now, delta) != [] <==> Deadline(q, delta).Some? && Deadline(q, delta).value <= now
  {
    var k := |Resent(q, now, delta)|;
    ResentWhileDue(q, now, delta, i);
    ResentWhileDue(q, now, delta, 0);
    if k < i {
      ResentWhileDue(q, now, delta, k);
    }
  }

  /** The deadline taken from the front entry is the earliest of the queue. */
  lemma DeadlineIsEarliest(q: seq<TxEntry>, delta: nat)
    requires EntriesOk(q) && Sorted(q)
    ensures q == [] <==> Deadline(q, delta) == None
    ensures forall k :: 0 <= k < |q| ==> Deadline(q, delta).value <= Latest(q[k]) + delta
    ensures q != [] ==> exists k :: 0 <= k < |q| && Deadline(q, delta).value == Latest(q[k]) + delta
  {
    if q != [] {
      assert Deadline(q, delta).value == Latest(q[0]) + delta;
    }
  }

  /** A new frame keeps the queue sorted exactly when its time is not before any time in the queue. */
  lemma EmitSortedIff(tx: Tx, f: Frame, now: Time)
    requires EntriesOk(tx.queue) && Sorted(tx.queue) && f.seqno.rt == 0
    ensures EntriesOk(AfterEmit(tx, f, now).queue)
    ensures Sorted(AfterEmit(tx, f, now).queue) <==> NoneAfter(tx.queue, now)
  {
    var q := AfterEmit(tx, f, now).queue;
    assert Latest(q[|tx.queue|]) == now;
    if Sorted(q) {
      forall k | 0 <= k < |tx.queue| ensures Latest(tx.queue[k]) <= now {
        assert q[k] == tx.queue[k];
        assert Latest(q[k]) <= Latest(q[|tx.queue|]);
      }
    }
  }

  /** An acknowledgement is judged entry by entry, in order: an entry goes exactly if it has the fragment number and
      has already been sent under the retransmit number. */
  lemma {:induction false} AckIsFilter(a: seq<TxEntry>, b: seq<TxEntry>, e: TxEntry, s: SeqNo)
    ensures AfterAck(a + b, s) == AfterAck(a, s) + AfterAck(b, s)
    ensures AfterAck([e], s) == if e.frame.seqno.num == s.num && s.rt < |e.transmits| then [] else [e]
    decreases |b|
  {
    assert AfterAck([e][..0], s) == [];
    if b == [] {
      assert a + b == a;
    } else {
      var init := b[..|b| - 1];
      AckIsFilter(a, init, e, s);
      assert (a + b)[..|a + b| - 1] == a + init;
    }
  }

  /** Acknowledgements drop entries and touch nothing else. */
  lemma {:induction false} AckKeeps(q: seq<TxEntry>, s: SeqNo)
    ensures forall e :: e in AfterAck(q, s) <==> e in q && !Acks(s, e)
    ensures EntriesOk(q) ==> EntriesOk(AfterAck(q, s))
    ensures EntriesOk(q) && Sorted(q) ==> Sorted(AfterAck(q, s))
  {
    if q != [] {
      var front, last := q[..|q| - 1], q[|q| - 1];
      AckKeeps(front, s);
      var rest := AfterAck(front, s);
      if EntriesOk(q) && Sorted(q) {
        forall k | 0 <= k < |rest| ensures Latest(rest[k]) <= Latest(last) {
          assert rest[k] in front;
        }
      }
    }
  }
}
