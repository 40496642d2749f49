/** How `OPTUDP::send` splits a message into balanced fragments, and how `try_reassemble` joins them. */
module Fragmentation {
  import opened Common

  type Message = m: Bytes | |m| < TWO_32

  datatype Kind = Mid | Start | End | Single
  datatype Fragment = Fragment(kind: Kind, data: Bytes)

  /** The size of the sequence block `send` reserves; `size - 1` wraps at size 0 as `uint32_t` does. */
  function ReservedCount(size: U32, limit: nat): nat
    requires limit > 0
  {
    Div((size - 1) % TWO_32, limit) + 1
  }

  /** The payload of the next fragment when `left` fragments must share `dataLeft` bytes. */
  function NextSize(dataLeft: nat, left: nat): nat
    requires 0 < left
  {
    if dataLeft == 0 then 0 else Div(dataLeft - 1, left) + 1
  }

  /** They are the quotients `send` computes. */
  lemma SharesAreQuotients(size: U32, limit: nat, dataLeft: nat, left: nat)
    requires 0 < limit && 0 < dataLeft && 0 < left
    ensures ReservedCount(size, limit) == (size - 1) % TWO_32 / limit + 1
    ensures NextSize(dataLeft, left) == (dataLeft - 1) / left + 1
  {
    DivIsQuotient((size - 1) % TWO_32, limit);
    DivIsQuotient(dataLeft - 1, left);
  }

  function KindOf(progress: nat, size: nat, dataLeft: nat): Kind
  {
    if progress == 0 then (if size == dataLeft then Single else Start)
    else (if size == dataLeft then End else Mid)
  }

  /** `left` fragments can share what is left of a message: none is empty, none is left over. */
  predicate Splittable(msg: Bytes, progress: nat, left: nat)
  {
    progress <= |msg| && left <= |msg| - progress && (left == 0 ==> progress == |msg|)
  }

  lemma NextSizeBounds(dataLeft: nat, left: nat)
    requires 0 < left && 0 < dataLeft
    ensures 1 <= NextSize(dataLeft, left)
    ensures (NextSize(dataLeft, left) - 1) * left < dataLeft <= NextSize(dataLeft, left) * left
  {
    DivBounds(dataLeft - 1, left);
    var q := Div(dataLeft - 1, left);
    assert (q + 1) * left == q * left + left;
  }

  lemma NextSizeFits(dataLeft: nat, left: nat)
    requires 0 < left <= dataLeft
    ensures 1 <= NextSize(dataLeft, left) <= dataLeft - (left - 1)
    ensures left == 1 ==> NextSize(dataLeft, left) == dataLeft
    ensures left > 1 ==> NextSize(dataLeft, left) < dataLeft
  {
    NextSizeBounds(dataLeft, left);
    var slack, others := dataLeft - left, left - 1;
    assert (slack + 1) * left == dataLeft + slack * others;
    assert 0 <= slack * others;
    LtFromMul(NextSize(dataLeft, left) - 1, slack + 1, left);
  }

  lemma MulMonotone(a: nat, b: nat, p: nat)
    requires a <= b
    ensures a * p <= b * p
  {
  }

  /** A fragment that fits leaves a rest that fits in the remaining fragments. */
  lemma NextSizeWithin(dataLeft: nat, left: nat, limit: nat)
    requires 0 < left && 0 < dataLeft <= left * limit
    ensures NextSize(dataLeft, left) <= limit
    ensures dataLeft - NextSize(dataLeft, left) <= (left - 1) * limit
  {
    NextSizeBounds(dataLeft, left);
    var n := NextSize(dataLeft, left);
    LtFromMul(n - 1, limit, left);
    MulMonotone(n, limit, left - 1);
    assert n * left == n * (left - 1) + n;
  }

  /** A fragment of a share between `q` and `q + 1` leaves such a share. */
  lemma NextSizeShares(dataLeft: nat, left: nat, q: nat)
    requires 0 < left && 0 < dataLeft && q * left <= dataLeft <= (q + 1) * left
    ensures q <= NextSize(dataLeft, left) <= q + 1
    ensures q * (left - 1) <= dataLeft - NextSize(dataLeft, left) <= (q + 1) * (left - 1)
  {
    NextSizeBounds(dataLeft, left);
    var n := NextSize(dataLeft, left);
    LtFromMul(n - 1, q + 1, left);
    assert (n + 1) * left == n * left + left;
    LtFromMul(q, n + 1, left);
    assert q * (left - 1) == q * left - q;
    assert (q + 1) * (left - 1) == (q + 1) * left - (q + 1);
  }

  /** The fragments the loop of `send` still has to emit. */
  function FragmentsFrom(msg: Bytes, progress: nat, left: nat): (fs: seq<Fragment>)
    requires Splittable(msg, progress, left)
    decreases left
  {
    if left == 0 then [] else
      NextSizeFits(|msg| - progress, left);
      var n := NextSize(|msg| - progress, left);
      [Fragment(KindOf(progress, n, |msg| - progress), msg[progress..progress + n])]
      + FragmentsFrom(msg, progress + n, left - 1)
  }

  /** For a message that is not empty the block is the ceiling of size over limit. */
  lemma ReservedSplits(msg: Message, limit: nat)
    requires limit > 0 && msg != []
    ensures 0 < ReservedCount(|msg|, limit)
    ensures Splittable(msg, 0, ReservedCount(|msg|, limit))
    ensures (ReservedCount(|msg|, limit) - 1) * limit < |msg| <= ReservedCount(|msg|, limit) * limit
  {
    DivBounds(|msg| - 1, limit);
    var q := Div(|msg| - 1, limit);
    assert (q + 1) * limit == q * limit + limit;
  }

  function Fragments(msg: Message, limit: nat): seq<Fragment>
    requires limit > 0
  {
    if msg == [] then [] else
      ReservedSplits(msg, limit);
      FragmentsFrom(msg, 0, ReservedCount(|msg|, limit))
  }

  function Payloads(fs: seq<Fragment>): seq<Bytes>
  {
    seq(|fs|, i requires 0 <= i < |fs| => fs[i].data)
  }

  /** What the loop emits, whatever was emitted before: a count, kinds, sizes and the bytes. */
  lemma {:induction false} FragmentsFromShape(msg: Bytes, progress: nat, left: nat)
    requires Splittable(msg, progress, left)
    ensures |FragmentsFrom(msg, progress, left)| == left
    ensures Flatten(Payloads(FragmentsFrom(msg, progress, left))) == msg[progress..]
    ensures forall k :: 0 <= k < left ==>
      FragmentsFrom(msg, progress, left)[k].data != []
      && FragmentsFrom(msg, progress, left)[k].kind ==
         (if progress == 0 && k == 0 then (if left == 1 then Single else Start)
          else if k == left - 1 then End else Mid)
    decreases left
  {
    if left > 0 {
      NextSizeFits(|msg| - progress, left);
      var n := NextSize(|msg| - progress, left);
      var rest := FragmentsFrom(msg, progress + n, left - 1);
      FragmentsFromShape(msg, progress + n, left - 1);
      var fs := FragmentsFrom(msg, progress, left);
      assert Payloads(fs)[1..] == Payloads(rest);
      assert msg[progress..] == msg[progress..progress + n] + msg[progress + n..];
      assert forall k :: 0 < k < left ==> fs[k] == rest[k - 1];
    }
  }

  /** No fragment exceeds the limit as long as the block was big enough. */
  lemma {:induction false} FragmentsFromFit(msg: Bytes, progress: nat, left: nat, limit: nat)
    requires Splittable(msg, progress, left)
    requires |msg| - progress <= left * limit
    ensures |FragmentsFrom(msg, progress, left)| == left
    ensures forall k :: 0 <= k < left ==> |FragmentsFrom(msg, progress, left)[k].data| <= limit
    decreases left
  {
    if left > 0 {
      var d := |msg| - progress;
      NextSizeFits(d, left);
      NextSizeWithin(d, left, limit);
      FragmentsFromFit(msg, progress + NextSize(d, left), left - 1, limit);
    }
  }

  /** Every length is `q` or `q + 1`. */
  lemma {:induction false} FragmentsFromBalanced(msg: Bytes, progress: nat, left: nat, q: nat)
    requires Splittable(msg, progress, left)
    requires q * left <= |msg| - progress <= (q + 1) * left
    ensures |FragmentsFrom(msg, progress, left)| == left
    ensures forall k :: 0 <= k < left ==> q <= |FragmentsFrom(msg, progress, left)[k].data| <= q + 1
    decreases left
  {
    if left > 0 {
      var d := |msg| - progress;
      NextSizeFits(d, left);
      NextSizeShares(d, left, q);
      FragmentsFromBalanced(msg, progress + NextSize(d, left), left - 1, q);
    }
  }

  /** The block is fully used exactly when the message is not empty; an empty one reserves numbers it never sends. */
  lemma ReservedIffNonEmpty(msg: Message, limit: nat)
    requires limit > 0
    ensures |Fragments(msg, limit)| == ReservedCount(|msg|, limit) <==> msg != []
  {
    if msg == [] {
      DivBounds(TWO_32 - 1, limit);
    } else {
      ReservedSplits(msg, limit);
      FragmentsFromShape(msg, 0, ReservedCount(|msg|, limit));
    }
  }

  ghost predicate GoodSplit(fs: seq<Fragment>, msg: Bytes, limit: nat)
  {
    && Flatten(Payloads(fs)) == msg
    && (forall i :: 0 <= i < |fs| ==> 1 <= |fs[i].data| <= limit)
    && (forall i, j :: 0 <= i < |fs| && 0 <= j < |fs| ==> |fs[i].data| <= |fs[j].data| + 1)
    && (|fs| == 1 ==> fs[0].kind == Single)
    && (|fs| > 1 ==> fs[0].kind == Start && fs[|fs| - 1].kind == End)
    && (forall i :: 0 < i < |fs| - 1 ==> fs[i].kind == Mid)
  }

  lemma SplitIsGood(msg: Bytes, n: nat, limit: nat, q: nat)
    requires 0 < n && Splittable(msg, 0, n) && |msg| <= n * limit
    requires q * n <= |msg| <= (q + 1) * n
    ensures |FragmentsFrom(msg, 0, n)| == n && GoodSplit(FragmentsFrom(msg, 0, n), msg, limit)
  {
    FragmentsFromShape(msg, 0, n);
    FragmentsFromFit(msg, 0, n, limit);
    FragmentsFromBalanced(msg, 0, n, q);
    assert msg[0..] == msg;
  }

  /** The arithmetic of `send`, for every non-empty message and every limit. */
  lemma FragmentationCorrect(msg: Message, limit: nat)
    requires limit > 0 && msg != []
    ensures |Fragments(msg, limit)| == ReservedCount(|msg|, limit) > 0
    ensures (ReservedCount(|msg|, limit) - 1) * limit < |msg|
    ensures GoodSplit(Fragments(msg, limit), msg, limit)
  {
    ReservedSplits(msg, limit);
    var n := ReservedCount(|msg|, limit);
    DivBounds(|msg|, n);
    var q := Div(|msg|, n);
    assert (q + 1) * n == q * n + n;
    SplitIsGood(msg, n, limit, q);
  }

  // ---------------------------------------------------------------- reassembly

  datatype Assembly = Assembly(delivered: seq<Bytes>, partial: seq<Bytes>)

  /** One round of `try_reassemble`: the frame joins the list, and an end of frame delivers the list. */
  function Absorb(a: Assembly, f: Fragment): Assembly
  {
    var list := a.partial + [f.data];
    if f.kind == End || f.kind == Single then Assembly(a.delivered + [Flatten(list)], [])
    else Assembly(a.delivered, list)
  }

  function AbsorbAll(a: Assembly, fs: seq<Fragment>): Assembly
  {
    if fs == [] then a else Absorb(AbsorbAll(a, fs[..|fs| - 1]), fs[|fs| - 1])
  }

  lemma {:induction false} AbsorbAllAppend(a: Assembly, x: seq<Fragment>, y: seq<Fragment>)
    ensures AbsorbAll(a, x + y) == AbsorbAll(AbsorbAll(a, x), y)
  {
    if y == [] {
      assert x + y == x;
    } else {
      assert (x + y)[..|x + y| - 1] == x + y[..|y| - 1];
      AbsorbAllAppend(a, x, y[..|y| - 1]);
    }
  }

  /** A proper prefix of a message's fragments delivers nothing. */
  lemma {:induction false} AbsorbOpen(a: Assembly, fs: seq<Fragment>)
    requires forall i :: 0 <= i < |fs| ==> fs[i].kind == Start || fs[i].kind == Mid
    ensures AbsorbAll(a, fs) == Assembly(a.delivered, a.partial + Payloads(fs))
  {
    if fs == [] {
      assert a.partial + Payloads(fs) == a.partial;
    } else {
      var front := fs[..|fs| - 1];
      AbsorbOpen(a, front);
      assert Payloads(fs) == Payloads(front) + [fs[|fs| - 1].data];
      assert a.partial + Payloads(front) + [fs[|fs| - 1].data] == a.partial + Payloads(fs);
    }
  }

  /** Reassembly undoes fragmentation: nothing before the last fragment, the message at it. */
  lemma AbsorbMessage(ds: seq<Bytes>, msg: Message, limit: nat, k: nat)
    requires limit > 0 && msg != [] && k <= |Fragments(msg, limit)|
    ensures k < |Fragments(msg, limit)| ==>
      AbsorbAll(Assembly(ds, []), Fragments(msg, limit)[..k]).delivered == ds
    ensures k == |Fragments(msg, limit)| ==>
      AbsorbAll(Assembly(ds, []), Fragments(msg, limit)[..k]) == Assembly(ds + [msg], [])
  {
    FragmentationCorrect(msg, limit);
    var fs := Fragments(msg, limit);
    if k < |fs| {
      AbsorbOpen(Assembly(ds, []), fs[..k]);
    } else {
      var front := fs[..|fs| - 1];
      AbsorbOpen(Assembly(ds, []), front);
      assert fs[..k] == fs;
      assert Payloads(fs) == [] + Payloads(front) + [fs[|fs| - 1].data];
    }
  }

  /** All fragments of a list of messages, in reservation order. */
  function Stream(msgs: seq<Message>, limit: nat): seq<Fragment>
    requires limit > 0
  {
    if msgs == [] then [] else Stream(msgs[..|msgs| - 1], limit) + Fragments(msgs[|msgs| - 1], limit)
  }

  lemma StreamSnoc(msgs: seq<Message>, msg: Message, limit: nat)
    requires limit > 0
    ensures Stream(msgs + [msg], limit) == Stream(msgs, limit) + Fragments(msg, limit)
  {
    assert (msgs + [msg])[..|msgs|] == msgs;
  }

  ghost predicate NonEmptyMessages(msgs: seq<Message>)
  {
    forall i :: 0 <= i < |msgs| ==> msgs[i] != []
  }

  const EMPTY_ASSEMBLY := Assembly([], [])

  ghost predicate Reassembles(fs: seq<Fragment>, k: nat, msgs: seq<Message>)
    requires k <= |fs|
  {
    && AbsorbAll(EMPTY_ASSEMBLY, fs[..k]).delivered <= msgs
    && (k < |fs| ==> |AbsorbAll(EMPTY_ASSEMBLY, fs[..k]).delivered| < |msgs|)
    && (k == |fs| ==> AbsorbAll(EMPTY_ASSEMBLY, fs) == Assembly(msgs, []))
  }

  /** The last message of a stream, once everything before it has been delivered. */
  lemma LastReassembles(before: seq<Fragment>, front: seq<Message>, last: Message, limit: nat, k: nat)
    requires limit > 0 && last != [] && k <= |Fragments(last, limit)|
    requires Reassembles(before, |before|, front)
    ensures Reassembles(before + Fragments(last, limit), |before| + k, front + [last])
  {
    var block := Fragments(last, limit);
    AbsorbAllAppend(EMPTY_ASSEMBLY, before, block[..k]);
    AbsorbMessage(front, last, limit, k);
    assert (before + block)[..|before| + k] == before + block[..k];
    assert k == |block| ==> block[..k] == block;
  }

  lemma EarlierReassembles(before: seq<Fragment>, block: seq<Fragment>, front: seq<Message>, last: Message, k: nat)
    requires k < |before| && Reassembles(before, k, front)
    ensures Reassembles(before + block, k, front + [last])
  {
    assert (before + block)[..k] == before[..k];
    assert front <= front + [last];
  }

  /** Any prefix of the stream reassembles to a prefix of the messages, the whole stream to all of them. */
  lemma {:induction false} StreamReassembles(msgs: seq<Message>, limit: nat, k: nat)
    requires limit > 0 && NonEmptyMessages(msgs) && k <= |Stream(msgs, limit)|
    ensures Reassembles(Stream(msgs, limit), k, msgs)
  {
    if msgs != [] {
      var front, last := msgs[..|msgs| - 1], msgs[|msgs| - 1];
      var before := Stream(front, limit);
      assert front + [last] == msgs;
      StreamReassembles(front, limit, if k < |before| then k else |before|);
      MoreReassembles(before, front, last, limit, k);
    }
  }

  lemma MoreReassembles(before: seq<Fragment>, front: seq<Message>, last: Message, limit: nat, k: nat)
    requires limit > 0 && last != [] && k <= |before + Fragments(last, limit)|
    requires Reassembles(before, if k < |before| then k else |before|, front)
    ensures Reassembles(before + Fragments(last, limit), k, front + [last])
  {
    if k < |before| {
      EarlierReassembles(before, Fragments(last, limit), front, last, k);
    } else {
      LastReassembles(before, front, last, limit, k - |before|);
    }
  }
}
