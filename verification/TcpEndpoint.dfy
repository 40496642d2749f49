/** The class `OPTTCP`: a list of received chunks that refines the flat stream `TcpFraming` parses. */
module TcpEndpoint {
  import opened Common
  import opened TcpFraming

  class OptTcp {
    var reassembleList: seq<Bytes>
    var totalLen: U32
    // History of the callbacks and the socket
    var received: seq<Frame>
    var written: Bytes
    var closed: bool

    constructor ()
      ensures Valid() && Flat() == [] && received == [] && written == [] && !closed
    {
      reassembleList, totalLen := [], 0;
      received, written, closed := [], [], false;
    }

    /** The bytes waiting to be parsed. */
    ghost function Flat(): Bytes
      reads this
    {
      Flatten(reassembleList)
    }

    /** The length counter is the length on 32 bits; unless a bad header stopped the parse it is the length. */
    ghost predicate Valid()
      reads this
    {
      && totalLen == |Flat()| % TWO_32
      && !Complete(Flat())
      && (BadHeader(Flat()) ==> closed)
      && (!BadHeader(Flat()) ==> |Flat()| < 5 + MAX_PACKET)
    }

    /** `read_from_reassamble_list` */
    method Read(len: nat, peek: bool) returns (ok: bool, dst: Bytes)
      requires totalLen == |Flat()| % TWO_32
      modifies this`reassembleList, this`totalLen
      ensures ok <==> len <= old(totalLen)
      ensures ok ==> len <= |old(Flat())| && dst == old(Flat())[..len]
      ensures !ok || peek ==> reassembleList == old(reassembleList) && totalLen == old(totalLen)
      ensures ok && !peek ==> Flat() == old(Flat())[len..] && totalLen == |Flat()| % TWO_32
    {
      ok, dst := len <= totalLen, [];
      if !ok {
        return;
      }
      ghost var flat := Flat();
      ModAtMost(|flat|);
      var it := 0;
      while |dst| < len
        invariant |dst| <= len && 0 <= it <= |reassembleList|
        invariant !peek ==> it == 0
        invariant peek ==> reassembleList == old(reassembleList)
        invariant totalLen == if peek then old(totalLen) else old(totalLen) - |dst|
        invariant len <= |flat| && dst == flat[..|dst|]
        invariant |dst| < len || !peek ==> dst + Flatten(reassembleList[it..]) == flat
        decreases len - |dst|, |reassembleList| - it
      {
        UnreadChunk(dst, reassembleList[it..], flat, len);
        assert reassembleList[it..][1..] == reassembleList[it + 1..];
        var chunk := reassembleList[it];
        var frag := if |chunk| < len - |dst| then |chunk| else len - |dst|;
        TakeFromChunk(dst, chunk, reassembleList[it + 1..], flat, frag);
        dst := dst + chunk[..frag];
        if peek {
          it := it + 1;
        } else {
          totalLen := totalLen - frag;
          if frag == |chunk| {
            reassembleList := reassembleList[1..];
          } else {
            assert |dst| == len;
            reassembleList := [chunk[frag..]] + reassembleList[1..];
          }
        }
        assert reassembleList[0..] == reassembleList;
      }
      if !peek {
        assert reassembleList[0..] == reassembleList;
        assert flat[len..] == Flat();
        ModMinus(|flat|, len);
      }
    }

    /** The length counter can be trusted, or nothing will be read any more. */
    ghost predicate Counted()
      reads this
    {
      totalLen == |Flat()| % TWO_32 && (|Flat()| < TWO_32 || (BadHeader(Flat()) && closed))
    }

    /** One pass of the loop of `on_receive`; `again` is false where the source leaves the loop. */
    method ReceiveOne() returns (again: bool)
      requires Counted()
      modifies this`reassembleList, this`totalLen, this`received, this`closed
      ensures Counted() && again == Complete(old(Flat()))
      ensures again ==> received == old(received) + [FirstFrame(old(Flat()))] && Flat() == AfterFirst(old(Flat()))
      ensures !again ==> received == old(received) && Flat() == old(Flat())
      ensures closed == (old(closed) || BadHeader(old(Flat())))
    {
      ghost var flat := Flat();
      var some, header := Read(5, true);
      if !some {
        return false;
      }
      HeaderOfPrefix(flat);
      if FromLE32(header[1..5]) >= MAX_PACKET || (header[0] != PKT_NORMAL && header[0] != PKT_RAW) {
        closed := true;
        return false;
      }
      var got, content := Read(5 + FromLE32(header[1..5]), false);
      if !got {
        return false;
      }
      FrameOfContent(flat, content);
      received := received + [if header[0] == PKT_NORMAL then Normal(content[5..]) else RawFrame(content[5..])];
      return true;
    }

    /** `on_receive` */
    method OnReceive(data: Bytes)
      requires Valid() && |data| < 0x8000_0000
      modifies this`reassembleList, this`totalLen, this`received, this`closed
      ensures Valid()
      ensures var p := ParseAll(old(Flat()) + data);
              && received == old(received) + p.frames
              && Flat() == p.rest
              && closed == (old(closed) || p.bad)
    {
      FlattenSnoc(reassembleList, data);
      ModPlus(|Flat()|, |data|);
      BadStays(Flat(), data);
      totalLen := (totalLen + |data|) % TWO_32;
      reassembleList := reassembleList + [data];
      ghost var whole := Flat();
      var again := true;
      while again && |reassembleList| > 0
        invariant Counted() && Continues(old(received), whole, received, Flat())
        invariant closed == (old(closed) || (!again && BadHeader(Flat())))
        invariant !again ==> !Complete(Flat())
        decreases |Flat()|, again
      {
        ghost var flat, before := Flat(), received;
        again := ReceiveOne();
        if again {
          ContinuesNext(old(received), whole, before, flat);
        }
      }
      Finished(old(received), whole, received, Flat());
    }

    method Send(data: Payload)
      modifies this`written
      ensures written == old(written) + Encode(Normal(data)) == old(written) + ([1] + LE32(|data|) + data)
    {
      written := written + ([PKT_NORMAL] + LE32(|data|) + data);
    }

    method SendRaw(data: Payload)
      modifies this`written
      ensures written == old(written) + Encode(RawFrame(data)) == old(written) + ([2] + LE32(|data|) + data)
    {
      written := written + ([PKT_RAW] + LE32(|data|) + data);
    }
  }

  // ------------------------------------------------------------ arithmetic of the length counter

  lemma ModAtMost(a: nat)
    ensures a % TWO_32 <= a
  {
    assert a == TWO_32 * (a / TWO_32) + a % TWO_32;
  }

  lemma ModMinus(a: nat, n: nat)
    requires n <= a % TWO_32
    ensures (a - n) % TWO_32 == a % TWO_32 - n
  {
    assert a == TWO_32 * (a / TWO_32) + a % TWO_32;
  }

  lemma ModPlus(a: nat, n: nat)
    ensures (a % TWO_32 + n) % TWO_32 == (a + n) % TWO_32
  {
    assert a == TWO_32 * (a / TWO_32) + a % TWO_32;
  }

  // ------------------------------------------------------------ reading from the chunk list

  /** While bytes are missing the list is not at its end: the `throw` of the source is unreachable. */
  lemma UnreadChunk(dst: Bytes, chunks: seq<Bytes>, flat: Bytes, len: nat)
    requires dst + Flatten(chunks) == flat && |dst| < len <= |flat|
    ensures chunks != []
  {
  }

  lemma TakeFromChunk(dst: Bytes, chunk: Bytes, others: seq<Bytes>, flat: Bytes, n: nat)
    requires dst + Flatten([chunk] + others) == flat && n <= |chunk|
    ensures dst + chunk[..n] == flat[..|dst| + n]
    ensures dst + chunk[..n] + Flatten([chunk[n..]] + others) == flat
    ensures n == |chunk| ==> dst + chunk[..n] + Flatten(others) == flat
  {
    assert ([chunk] + others)[1..] == others;
    assert ([chunk[n..]] + others)[1..] == others;
    assert chunk == chunk[..n] + chunk[n..];
    AppendAssoc(dst, chunk[..n], chunk[n..] + Flatten(others));
    AppendAssoc(chunk[..n], chunk[n..], Flatten(others));
  }

  // ------------------------------------------------------------ the receive loop

  lemma BadStays(flat: Bytes, data: Bytes)
    ensures BadHeader(flat) ==> BadHeader(flat + data)
  {
    if |flat| >= 5 {
      HeadKept(flat, data);
    }
  }

  lemma HeaderOfPrefix(flat: Bytes)
    requires |flat| >= 5
    ensures flat[..5][1..5] == flat[1..5] && flat[..5][0] == flat[0]
  {
  }

  lemma FrameOfContent(flat: Bytes, content: Bytes)
    requires |flat| >= 5 && !BadHeader(flat) && 5 + HeaderLen(flat) <= |flat| && content == flat[..5 + HeaderLen(flat)]
    ensures content[5..] == flat[5..5 + HeaderLen(flat)]
  {
  }

  /** What was received so far plus the parse of what is left is the parse of the whole. */
  ghost predicate Continues(before: seq<Frame>, whole: Bytes, received: seq<Frame>, flat: Bytes)
  {
    var p, q := ParseAll(whole), ParseAll(flat);
    received + q.frames == before + p.frames && q.rest == p.rest && q.bad == p.bad
  }

  lemma ContinuesNext(before: seq<Frame>, whole: Bytes, received: seq<Frame>, flat: Bytes)
    requires Complete(flat) && Continues(before, whole, received, flat)
    ensures Continues(before, whole, received + [FirstFrame(flat)], AfterFirst(flat))
  {
    AppendAssoc(received, [FirstFrame(flat)], ParseAll(AfterFirst(flat)).frames);
  }

  lemma Finished(before: seq<Frame>, whole: Bytes, received: seq<Frame>, flat: Bytes)
    requires !Complete(flat) && Continues(before, whole, received, flat)
    ensures received == before + ParseAll(whole).frames && flat == ParseAll(whole).rest
    ensures BadHeader(flat) == ParseAll(whole).bad
    ensures !BadHeader(flat) ==> |flat| < 5 + MAX_PACKET
  {
    RestIsStuck(flat);
    assert received + [] == received;
  }
}
