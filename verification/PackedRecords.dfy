/** Packed records: each a 32-bit length and that many bytes. The reader of the handshake packets, and
    why the packed form of a list of records is unambiguous. */
module PackedRecords {
  import opened Common

  type Record = b: Bytes | |b| < TWO_32

  /** `add_record`; a size beyond 32 bits would be cut off. */
  function PackOne(r: Bytes): Bytes
  {
    LE32(|r| % TWO_32) + r
  }

  function Pack(rs: seq<Bytes>): Bytes
  {
    if rs == [] then [] else PackOne(rs[0]) + Pack(rs[1..])
  }

  datatype ReadResult = Fail | Got(record: Bytes, cursor: nat)

  /** `PackedBlobReader::next_record` with the read cursor at `cursor`. */
  function NextRecord(src: Bytes, cursor: nat): ReadResult
  {
    if |src| < cursor + 4 then Fail
    else
      var size := FromLE32(src[cursor..cursor + 4]);
      if |src| - (4 + cursor) < size then Fail
      else Got(src[cursor + 4..cursor + 4 + size], cursor + 4 + size)
  }

  /** Reading records until the end of the source, `None` if a read fails before it. */
  function ReadAll(src: Bytes, cursor: nat): Option<seq<Record>>
    decreases |src| - cursor
  {
    if |src| <= cursor then (if cursor == |src| then Some([]) else None)
    else
      match NextRecord(src, cursor)
      case Fail => None
      case Got(r, next) =>
        match ReadAll(src, next)
        case None => None
        case Some(rs) => Some([r] + rs)
  }

  lemma NextOfPacked(before: Bytes, r: Record, after: Bytes)
    ensures NextRecord(before + PackOne(r) + after, |before|) == Got(r, |before| + 4 + |r|)
  {
    LE32RoundTrip(|r|);
    var src, c, p := before + PackOne(r) + after, |before|, PackOne(r);
    assert p[..4] == LE32(|r|) && p[4..] == r;
    assert src[c..c + |p|] == p;
    assert src[c..c + 4] == p[..4];
    assert src[c + 4..c + 4 + |r|] == p[4..];
  }

  /** Reading the next record of a packed list moves it to what has been read. */
  lemma PackStep(before: Bytes, rs: seq<Record>)
    requires rs != []
    ensures NextRecord(before + Pack(rs), |before|) == Got(rs[0], |before + PackOne(rs[0])|)
    ensures before + Pack(rs) == before + PackOne(rs[0]) + Pack(rs[1..])
  {
    AppendAssoc(before, PackOne(rs[0]), Pack(rs[1..]));
    NextOfPacked(before, rs[0], Pack(rs[1..]));
  }

  lemma {:induction false} ReadAllAfter(before: Bytes, rs: seq<Record>)
    ensures ReadAll(before + Pack(rs), |before|) == Some(rs)
    decreases |rs|
  {
    if rs == [] {
      assert before + Pack(rs) == before;
    } else {
      PackStep(before, rs);
      ReadAllAfter(before + PackOne(rs[0]), rs[1..]);
      assert [rs[0]] + rs[1..] == rs;
    }
  }

  lemma NextIsPacked(src: Bytes, cursor: nat, r: Bytes, next: nat)
    requires NextRecord(src, cursor) == Got(r, next)
    ensures cursor + 4 <= next <= |src| && |r| < TWO_32 && src[cursor..next] == PackOne(r)
  {
    LE32Inverse(src[cursor..cursor + 4]);
    assert src[cursor..next] == src[cursor..cursor + 4] + r;
  }

  lemma {:induction false} ReadAllIsPacked(src: Bytes, cursor: nat, rs: seq<Record>)
    requires cursor <= |src| && ReadAll(src, cursor) == Some(rs)
    ensures src[cursor..] == Pack(rs)
    decreases |src| - cursor
  {
    if cursor < |src| {
      var got := NextRecord(src, cursor);
      NextIsPacked(src, cursor, got.record, got.cursor);
      ReadAllIsPacked(src, got.cursor, rs[1..]);
      assert src[cursor..] == src[cursor..got.cursor] + src[got.cursor..];
    }
  }

  /** Reading succeeds to the end with these records exactly on their packed form. */
  lemma ReadIffPacked(src: Bytes, rs: seq<Record>)
    ensures ReadAll(src, 0) == Some(rs) <==> src == Pack(rs)
  {
    ReadAllAfter([], rs);
    assert [] + Pack(rs) == Pack(rs);
    if ReadAll(src, 0) == Some(rs) {
      ReadAllIsPacked(src, 0, rs);
      assert src[0..] == src;
    }
  }

  /** Equal packed bytes come from equal lists of records. */
  lemma PackInjective(a: seq<Record>, b: seq<Record>)
    requires Pack(a) == Pack(b)
    ensures a == b
  {
    ReadIffPacked(Pack(a), a);
    ReadIffPacked(Pack(b), b);
  }

  lemma {:induction false} PackAppend(a: seq<Record>, b: seq<Record>)
    ensures Pack(a + b) == Pack(a) + Pack(b)
  {
    if a == [] {
      assert a + b == b;
    } else {
      assert (a + b)[1..] == a[1..] + b;
      PackAppend(a[1..], b);
    }
  }

  lemma PackSnoc(rs: seq<Record>, r: Record)
    ensures Pack(rs + [r]) == Pack(rs) + PackOne(r)
  {
    PackAppend(rs, [r]);
    assert Pack([r]) == PackOne(r);
  }

  /** Where record `k` of a packed list starts. */
  function RecordStart(rs: seq<Record>, k: nat): nat
    requires k <= |rs|
  {
    |Pack(rs[..k])|
  }

  lemma SplitAt(rs: seq<Record>, k: nat)
    requires k < |rs|
    ensures Pack(rs) == Pack(rs[..k]) + Pack(rs[k..]) && Pack(rs[..k + 1]) == Pack(rs[..k]) + PackOne(rs[k])
  {
    assert rs == rs[..k] + rs[k..];
    PackAppend(rs[..k], rs[k..]);
    assert rs[..k + 1] == rs[..k] + [rs[k]];
    PackAppend(rs[..k], [rs[k]]);
    assert Pack([rs[k]]) == PackOne(rs[k]);
  }

  /** The k-th read of a packed list gives its k-th record and leaves the cursor at the next one. */
  lemma ReadAt(src: Bytes, rs: seq<Record>, k: nat)
    requires k < |rs| && src == Pack(rs)
    ensures NextRecord(src, RecordStart(rs, k)) == Got(rs[k], RecordStart(rs, k + 1))
  {
    SplitAt(rs, k);
    PackStep(Pack(rs[..k]), rs[k..]);
  }

  lemma RecordStartEnds(rs: seq<Record>)
    ensures RecordStart(rs, 0) == 0 && RecordStart(rs, |rs|) == |Pack(rs)|
  {
    assert rs[..0] == [] && rs[..|rs|] == rs;
  }

  lemma ReadPair(src: Bytes, rs: seq<Record>, k: nat, c0: nat) returns (c1: nat, c2: nat)
    requires k + 2 <= |rs| && src == Pack(rs) && c0 == RecordStart(rs, k)
    ensures NextRecord(src, c0) == Got(rs[k], c1) && NextRecord(src, c1) == Got(rs[k + 1], c2) && c2 == RecordStart(rs, k + 2)
  {
    ReadAt(src, rs, k);
    ReadAt(src, rs, k + 1);
    c1, c2 := RecordStart(rs, k + 1), RecordStart(rs, k + 2);
  }

  lemma ReadTwo(a: Record, b: Record) returns (c1: nat)
    ensures var src := Pack([a, b]); NextRecord(src, 0) == Got(a, c1) && NextRecord(src, c1) == Got(b, |src|)
  {
    RecordStartEnds([a, b]);
    var c2;
    c1, c2 := ReadPair(Pack([a, b]), [a, b], 0, 0);
  }

  lemma ReadFour(src: Bytes, rs: seq<Record>) returns (c1: nat, c2: nat, c3: nat)
    requires |rs| == 4 && src == Pack(rs)
    ensures NextRecord(src, 0) == Got(rs[0], c1) && NextRecord(src, c1) == Got(rs[1], c2)
    ensures NextRecord(src, c2) == Got(rs[2], c3) && NextRecord(src, c3) == Got(rs[3], |src|)
  {
    RecordStartEnds(rs);
    var c4;
    c1, c2 := ReadPair(src, rs, 0, 0);
    c3, c4 := ReadPair(src, rs, 2, c2);
  }
}
