/** `PackedBlobWriter` and `PackedBlobReader` as objects over a blob. */
module PackedBlob {
  import opened Common
  import opened BlobBuffer
  import opened BlobSlices
  import opened PackedRecords
  import opened PackedDrafts

  /** A record of `data` in place at the end of `now`, once its size field is set. */
  lemma RecordInPlace(done: Bytes, now: Bytes, data: Bytes, sized: Bytes)
    requires |now| == |done| + 4 + |data| && now[..|done|] == done && now[|done| + 4..] == data
    requires sized == now[..|done|] + LE32(|data| % TWO_32) + now[|done| + 4..]
    ensures sized == done + PackOne(data)
  {
    AppendAssoc(done, LE32(|data| % TWO_32), data);
  }

  /** The same with more behind the record. */
  lemma RecordFinished(was: Bytes, c: nat, n: nat, sized: Bytes)
    requires c + 4 + n <= |was| && sized == was[..c] + LE32(n % TWO_32) + was[c + 4..]
    ensures sized[..c + 4 + n] == was[..c] + PackOne(was[c + 4..c + 4 + n])
  {
    var data := was[c + 4..c + 4 + n];
    assert sized[..c + 4 + n] == was[..c] + LE32(n % TWO_32) + data;
    AppendAssoc(was[..c], LE32(n % TWO_32), data);
  }

  lemma CopiedAtEnd(was: Bytes, now: Bytes, data: Bytes, c: nat)
    requires Copied(was, now, data, c + 4) && c + 4 <= |was| <= c + 4 + |data|
    ensures |now| == c + 4 + |data| && now[..c] == was[..c] && now[c + 4..] == data
  {
  }

  /** `data` stands in `contents` from `at` on. */
  ghost predicate Stands(contents: Bytes, at: nat, data: Bytes)
  {
    at + |data| <= |contents| && contents[at..at + |data|] == data
  }

  lemma PackOneInjective(done: Bytes, a: Record, b: Record)
    requires done + PackOne(a) == done + PackOne(b)
    ensures a == b
  {
    assert (done + PackOne(a))[|done|..] == PackOne(a);
    assert (done + PackOne(b))[|done|..] == PackOne(b);
    assert PackOne(a)[..4] == LE32(|a|) && PackOne(b)[..4] == LE32(|b|);
    assert PackOne(a)[4..] == a && PackOne(b)[4..] == b;
  }

  /** Of a record in place, as much is finished as the slice is long: all of it exactly if the lengths agree. */
  lemma FinishedIff(done: Bytes, was: Bytes, at: nat, n: nat, data: Bytes)
    requires Stands(was, at, data) && at + n <= |was| < TWO_32
    ensures done + PackOne(was[at..at + n]) == done + PackOne(data) <==> n == |data|
  {
    if done + PackOne(was[at..at + n]) == done + PackOne(data) {
      PackOneInjective(done, was[at..at + n], data);
    }
  }

  // ------------------------------------------------------------ a draft in the blob

  /** The known bytes of a draft stand in the blob behind `base`. */
  ghost predicate Holds(contents: Bytes, base: nat, d: Draft)
  {
    && d.len <= d.reach && base + d.reach <= |contents|
    && (forall i :: i in d.known ==> i < d.reach && contents[base + i] == d.known[i])
  }

  lemma GrownHolds(was: Bytes, now: Bytes, base: nat, d: Draft, r: Draft)
    requires Holds(was, base, d) && |was| <= |now| && now[..|was|] == was
    requires r.known == d.known && d.reach <= r.reach && r.len <= r.reach && base + r.reach <= |now|
    ensures Holds(now, base, r) && now[..base] == was[..base]
  {
    forall i | i in r.known ensures i < r.reach && now[base + i] == r.known[i] {
      assert now[..|was|][base + i] == was[base + i];
    }
    assert now[..|was|][..base] == was[..base];
  }

  lemma CopiedHolds(was: Bytes, now: Bytes, base: nat, d: Draft, data: Bytes, at: nat)
    requires Holds(was, base, d) && Copied(was, now, data, base + at)
    ensures Holds(now, base, Edited(d, CopyIn(data, at))) && now[..base] == was[..base]
  {
  }

  lemma StoredHolds(was: Bytes, now: Bytes, base: nat, d: Draft, data: Bytes, at: nat)
    requires Holds(was, base, d) && at + |data| <= d.len
    requires now == was[..base + at] + data + was[base + at + |data|..]
    ensures Holds(now, base, Edited(d, StoreIn(data, at))) && now[..base] == was[..base]
  {
    assert Copied(was, now, data, base + at);
    CopiedHolds(was, now, base, d, data, at);
  }

  /** The blob after the draft in it was made into `r`. */
  ghost predicate Made(was: Bytes, now: Bytes, base: nat, r: Draft)
  {
    base <= |was| && Holds(now, base, r) && now[..base] == was[..base] && |now| == Max(|was|, base + r.reach)
  }

  lemma MadeTransitive(was: Bytes, mid: Bytes, now: Bytes, base: nat, d: Draft, r: Draft)
    requires Made(was, mid, base, d) && Made(mid, now, base, r) && d.reach <= r.reach
    ensures Made(was, now, base, r)
  {
  }

  /** A draft in a blob that had just been made to reach its start. */
  lemma MadeInNew(was: Bytes, now: Bytes, base: nat, r: Draft, c: nat, size: nat)
    requires Made(was, now, base, r) && c <= base && |was| == Max(size, base)
    ensures Holds(now, base, r) && now[..c] == was[..c] && |now| == Max(size, base + r.reach)
  {
    assert now[..base][..c] == now[..c] && was[..base][..c] == was[..c];
  }

  lemma HeldMatches(contents: Bytes, base: nat, d: Draft)
    requires Holds(contents, base, d)
    ensures Matches(d, contents[base..base + d.len])
  {
  }

  lemma SameFront(now: Bytes, was: Bytes, b: nat, c: nat)
    requires c <= b <= |was| && b <= |now| && now[0..b] == was[0..b]
    ensures now[..c] == was[..c]
  {
    assert now[0..b][..c] == was[0..b][..c];
  }

  class PackedBlobWriter {
    var writeCursor: nat
    const dst: Blob

    ghost predicate Valid()
      reads this, dst
    {
      dst.Valid() && writeCursor <= dst.size
    }

    /** What has been written and finished. */
    ghost function Done(): Bytes
      requires Valid()
      reads this, dst, dst.buffer
    {
      dst.Contents()[..writeCursor]
    }

    constructor (dst: Blob)
      requires dst.Valid()
      ensures this.dst == dst && Valid() && Done() == dst.Contents() && writeCursor == dst.size
    {
      this.dst := dst;
      writeCursor := dst.size;
      new;
      assert dst.Contents()[..writeCursor] == dst.Contents();
    }

    /** Room for `n` more bytes than `at`, in 32 bits. */
    predicate Room(n: nat)
      requires dst.Valid()
      reads this, dst
    {
      dst.size < n ==> dst.Fits(0, n - dst.size, true)
    }

    /** Write the size field at the cursor. */
    method SetSize(n: nat)
      requires Valid() && writeCursor + 4 <= dst.size
      modifies dst.buffer
      ensures dst.Contents() == old(dst.Contents()[..writeCursor]) + LE32(n % TWO_32) + old(dst.Contents()[writeCursor + 4..])
    {
      dst.Write(LE32(n % TWO_32), writeCursor);
    }

    method AddRecord(data: Bytes)
      requires Valid() && Room(writeCursor + 4 + |data|)
      modifies this, dst, dst.buffer
      ensures Valid() && Done() == dst.Contents() == old(Done()) + PackOne(data)
      ensures dst.size == writeCursor == old(writeCursor) + 4 + |data| && dst.preGap == old(dst.preGap)
      ensures dst.buffer == old(dst.buffer) || fresh(dst.buffer)
    {
      ghost var done := Done();
      MakeRoom(writeCursor + 4 + |data|);
      Put(data, done);
      writeCursor := writeCursor + 4 + |data|;
      assert dst.Contents()[..writeCursor] == dst.Contents();
    }

    /** Let the blob end at `n`, cutting off what it had behind. */
    method MakeRoom(n: nat)
      requires Valid() && writeCursor <= n && Room(n)
      modifies dst
      ensures Valid() && dst.size == n && Done() == old(Done()) && dst.preGap == old(dst.preGap)
      ensures dst.buffer == old(dst.buffer) || fresh(dst.buffer)
    {
      ghost var was := dst.Contents();
      dst.Resize(0, n);
      SameFront(dst.Contents(), was, if n < |was| then n else |was|, writeCursor);
    }

    /** Data and size field of a record the blob has just been given room for. */
    method Put(data: Bytes, ghost done: Bytes)
      requires Valid() && dst.size == writeCursor + 4 + |data| && done == Done()
      modifies dst, dst.buffer
      ensures dst.Valid() && dst.Contents() == done + PackOne(data) && dst.preGap == old(dst.preGap)
      ensures dst.buffer == old(dst.buffer) || fresh(dst.buffer)
    {
      ghost var was := dst.Contents();
      dst.CopyFrom(data, writeCursor + 4);
      ghost var now := dst.Contents();
      CopiedAtEnd(was, now, data, writeCursor);
      SetSize(|data|);
      RecordInPlace(done, now, data, dst.Contents());
    }

    /** The slice is the one of the record being written. */
    ghost predicate Open(record: BlobSlice)
      reads this, dst, record
    {
      && Valid() && PartOf(record, dst) && record.start == writeCursor + 4 && record.start + record.len <= dst.size
    }

    /** The slice handed out starts after the size field, and is empty. */
    method PrepareWriteableRecord() returns (record: BlobSlice)
      requires Valid() && Room(writeCursor + 4)
      modifies dst
      ensures fresh(record) && Open(record) && record.len == 0
      ensures writeCursor == old(writeCursor) && Done() == old(Done())
      ensures dst.size == Max(old(dst.size), writeCursor + 4) && dst.preGap == old(dst.preGap)
      ensures dst.buffer == old(dst.buffer) || fresh(dst.buffer)
    {
      ghost var was := dst.Contents();
      record := Slice(Whole(dst), writeCursor + 4, 0);
      PartOfIsNested(record, dst);
      assert dst.Contents()[..writeCursor] == dst.Contents()[..|was|][..writeCursor];
    }

    /** The record is as long as the slice. */
    method FinishWriteableRecord(record: BlobSlice)
      requires Open(record)
      modifies this, dst.buffer
      ensures Valid() && writeCursor == old(writeCursor) + 4 + record.len
      ensures Done() == old(Done()) + PackOne(old(dst.Contents())[record.start..record.start + record.len])
      ensures dst.size == old(dst.size)
    {
      ghost var was, c := dst.Contents(), writeCursor;
      SetSize(record.len);
      writeCursor := writeCursor + 4 + record.len;
      RecordFinished(was, c, record.len, dst.Contents());
    }

    /** Data that stands in place is the finished record exactly if the slice has its length. */
    method FinishHolding(record: BlobSlice, ghost data: Bytes)
      requires Open(record) && Stands(dst.Contents(), record.start, data)
      modifies this, dst.buffer
      ensures Valid() && (Done() == old(Done()) + PackOne(data) <==> record.len == |data|)
    {
      FinishedIff(Done(), dst.Contents(), record.start, record.len, data);
      FinishWriteableRecord(record);
    }

    method SetLength(record: BlobSlice, n: nat, ghost d: Draft)
      requires Open(record) && record.len == d.len && Holds(dst.Contents(), record.start, d)
      requires dst.preGap + 2 * Max(dst.size, record.start + Edited(d, SetLen(n)).reach) < TWO_32
      modifies record, dst, dst.buffer
      ensures Open(record) && record.len == Edited(d, SetLen(n)).len
      ensures Made(old(dst.Contents()), dst.Contents(), record.start, Edited(d, SetLen(n)))
      ensures dst.preGap == old(dst.preGap) && (dst.buffer == old(dst.buffer) || fresh(dst.buffer))
    {
      ghost var was := dst.Contents();
      PartOfIsNested(record, dst);
      BlobSlices.Resize(record, n);
      GrownHolds(was, dst.Contents(), record.start, d, Edited(d, SetLen(n)));
    }

    method SetMinLength(record: BlobSlice, n: nat, ghost d: Draft)
      requires Open(record) && record.len == d.len && Holds(dst.Contents(), record.start, d)
      requires dst.preGap + 2 * Max(dst.size, record.start + Edited(d, SetMinLen(n)).reach) < TWO_32
      modifies record, dst, dst.buffer
      ensures Open(record) && record.len == Edited(d, SetMinLen(n)).len
      ensures Made(old(dst.Contents()), dst.Contents(), record.start, Edited(d, SetMinLen(n)))
      ensures dst.preGap == old(dst.preGap) && (dst.buffer == old(dst.buffer) || fresh(dst.buffer))
    {
      ghost var was := dst.Contents();
      PartOfIsNested(record, dst);
      BlobSlices.ResizeMin(Part(record), n);
      GrownHolds(was, dst.Contents(), record.start, d, Edited(d, SetMinLen(n)));
    }

    method Copy(record: BlobSlice, data: Bytes, at: nat, ghost d: Draft)
      requires Open(record) && record.len == d.len && Holds(dst.Contents(), record.start, d)
      requires dst.preGap + 2 * Max(dst.size, record.start + Edited(d, CopyIn(data, at)).reach) < TWO_32
      modifies record, dst, dst.buffer
      ensures Open(record) && record.len == Edited(d, CopyIn(data, at)).len
      ensures Made(old(dst.Contents()), dst.Contents(), record.start, Edited(d, CopyIn(data, at)))
      ensures dst.preGap == old(dst.preGap) && (dst.buffer == old(dst.buffer) || fresh(dst.buffer))
    {
      ghost var was := dst.Contents();
      PartOfIsNested(record, dst);
      BlobSlices.CopyFrom(Part(record), data, at);
      CopiedHolds(was, dst.Contents(), record.start, d, data, at);
    }

    method Store(record: BlobSlice, data: Bytes, at: nat, ghost d: Draft)
      requires Open(record) && record.len == d.len && Holds(dst.Contents(), record.start, d)
      requires at + |data| <= d.len
      requires dst.preGap + 2 * Max(dst.size, record.start + Edited(d, StoreIn(data, at)).reach) < TWO_32
      modifies record, dst, dst.buffer
      ensures Open(record) && record.len == Edited(d, StoreIn(data, at)).len
      ensures Made(old(dst.Contents()), dst.Contents(), record.start, Edited(d, StoreIn(data, at)))
      ensures dst.preGap == old(dst.preGap) && (dst.buffer == old(dst.buffer) || fresh(dst.buffer))
    {
      ghost var was := dst.Contents();
      PartOfIsNested(record, dst);
      BlobSlices.Store(Part(record), data, at);
      StoredHolds(was, dst.Contents(), record.start, d, data, at);
    }

    /** One operation of the user on the slice. */
    method EditOnce(record: BlobSlice, e: Edit, ghost d: Draft)
      requires Open(record) && record.len == d.len && Holds(dst.Contents(), record.start, d)
      requires e.StoreIn? ==> e.at + |e.data| <= d.len
      requires dst.preGap + 2 * Max(dst.size, record.start + Edited(d, e).reach) < TWO_32
      modifies record, dst, dst.buffer
      ensures Open(record) && record.len == Edited(d, e).len
      ensures Made(old(dst.Contents()), dst.Contents(), record.start, Edited(d, e))
      ensures dst.preGap == old(dst.preGap) && (dst.buffer == old(dst.buffer) || fresh(dst.buffer))
    {
      match e
      case SetLen(n) => SetLength(record, n, d);
      case SetMinLen(n) => SetMinLength(record, n, d);
      case CopyIn(data, at) => Copy(record, data, at, d);
      case StoreIn(data, at) => Store(record, data, at, d);
    }

    /** All operations of the user on the slice. */
    method EditAll(record: BlobSlice, edits: Edits)
      requires Open(record) && record.len == 0 && Proper(edits)
      requires dst.preGap + 2 * Max(dst.size, record.start + Drafted(edits).reach) < TWO_32
      modifies record, dst, dst.buffer
      ensures Open(record) && record.len == Drafted(edits).len
      ensures Made(old(dst.Contents()), dst.Contents(), record.start, Drafted(edits))
      ensures dst.preGap == old(dst.preGap) && (dst.buffer == old(dst.buffer) || fresh(dst.buffer))
    {
      if edits.Then? {
        ghost var was := dst.Contents();
        EditAll(record, edits.before);
        ghost var mid, d := dst.Contents(), Drafted(edits.before);
        EditOnce(record, edits.last, d);
        MadeTransitive(was, mid, dst.Contents(), record.start, d, Edited(d, edits.last));
      }
    }

    /** Prepare a record and let the user write it. */
    method DraftRecord(edits: Edits) returns (record: BlobSlice)
      requires Valid() && Proper(edits)
      requires dst.preGap + 2 * (dst.size + 4 + Drafted(edits).reach) < TWO_32
      modifies dst, dst.buffer
      ensures fresh(record) && Open(record) && record.len == Drafted(edits).len && Done() == old(Done())
      ensures Holds(dst.Contents(), record.start, Drafted(edits))
      ensures dst.size == Max(old(dst.size), writeCursor + 4 + Drafted(edits).reach)
      ensures dst.preGap == old(dst.preGap) && (dst.buffer == old(dst.buffer) || fresh(dst.buffer))
    {
      ghost var size, d := dst.size, Drafted(edits);
      record := PrepareWriteableRecord();
      ghost var was := dst.Contents();
      EditAll(record, edits);
      MadeInNew(was, dst.Contents(), record.start, d, writeCursor, size);
    }

    /** A record written through its slice: prepare, the operations of the user, finish. */
    method WriteThrough(edits: Edits) returns (ghost data: Bytes)
      requires Valid() && Proper(edits)
      requires dst.preGap + 2 * (dst.size + 4 + Drafted(edits).reach) < TWO_32
      modifies this, dst, dst.buffer
      ensures Valid() && |data| < TWO_32 && Leaves(edits, data) && Done() == old(Done()) + PackOne(data)
      ensures writeCursor == old(writeCursor) + 4 + Drafted(edits).len
      ensures dst.size == Max(old(dst.size), old(writeCursor) + 4 + Drafted(edits).reach)
      ensures dst.preGap == old(dst.preGap) && (dst.buffer == old(dst.buffer) || fresh(dst.buffer))
    {
      var record := DraftRecord(edits);
      data := FinishDraft(record, Drafted(edits));
    }

    /** Finish a record whose draft is known. */
    method FinishDraft(record: BlobSlice, ghost d: Draft) returns (ghost data: Bytes)
      requires Open(record) && record.len == d.len && Holds(dst.Contents(), record.start, d)
      modifies this, dst.buffer
      ensures Valid() && |data| < TWO_32 && Matches(d, data) && Done() == old(Done()) + PackOne(data)
      ensures writeCursor == old(writeCursor) + 4 + d.len && dst.size == old(dst.size)
    {
      ghost var done, now := Done(), dst.Contents();
      HeldMatches(now, record.start, d);
      data := now[record.start..record.start + record.len];
      assert |data| == record.len;
      FinishWriteableRecord(record);
      assert Done() == done + PackOne(data);
    }

    method Perform(s: Step) returns (ghost data: Bytes)
      requires Valid() && ProperStep(s)
      requires dst.preGap + 2 * (dst.size + 4 + Reach(s)) < TWO_32
      modifies this, dst, dst.buffer
      ensures Valid() && |data| < TWO_32 && Gives(s, data) && Done() == old(Done()) + PackOne(data)
      ensures dst.size - writeCursor == Behind(old(dst.size - writeCursor), s)
      ensures dst.size <= old(dst.size) + 4 + Reach(s)
      ensures dst.preGap == old(dst.preGap) && (dst.buffer == old(dst.buffer) || fresh(dst.buffer))
    {
      match s
      case Add(d) =>
        AddRecord(d);
        data := d;
      case Through(edits) =>
        DraftBounds(edits);
        data := WriteThrough(edits);
    }

    /** Any sequence of records, each added or written through a slice: they stand one behind the other, and so
        many bytes are left behind the last. */
    method WriteAll(steps: Steps) returns (ghost records: seq<Record>)
      requires Valid() && ProperSteps(steps)
      requires dst.preGap + 2 * (dst.size + Total(steps)) < TWO_32
      modifies this, dst, dst.buffer
      ensures Valid() && GivesAll(steps, records) && Done() == old(Done()) + Pack(records)
      ensures dst.size - writeCursor == BehindAll(old(dst.size - writeCursor), steps)
      ensures dst.size <= old(dst.size) + Total(steps)
      ensures dst.preGap == old(dst.preGap) && (dst.buffer == old(dst.buffer) || fresh(dst.buffer))
    {
      match steps
      case NoStep =>
        records := [];
        assert Done() + Pack([]) == Done();
      case Next(before, last) =>
        records := WriteAll(before);
        records := WriteMore(before, last, records, old(Done()));
    }

    /** One more record behind those of `before`. */
    method WriteMore(ghost before: Steps, last: Step, ghost was: seq<Record>, ghost done: Bytes) returns (ghost records: seq<Record>)
      requires Valid() && ProperStep(last) && GivesAll(before, was) && Done() == done + Pack(was)
      requires dst.preGap + 2 * (dst.size + 4 + Reach(last)) < TWO_32
      modifies this, dst, dst.buffer
      ensures Valid() && GivesAll(Next(before, last), records) && Done() == done + Pack(records)
      ensures dst.size - writeCursor == Behind(old(dst.size - writeCursor), last)
      ensures dst.size <= old(dst.size) + 4 + Reach(last)
      ensures dst.preGap == old(dst.preGap) && (dst.buffer == old(dst.buffer) || fresh(dst.buffer))
    {
      ghost var data := Perform(last);
      GivesMore(done, before, last, was, data);
      records := was + [data];
    }
  }

  class PackedBlobReader {
    var readCursor: nat
    const src: Bytes

    ghost predicate Valid()
      reads this
    {
      readCursor <= |src|
    }

    constructor (src: Bytes)
      ensures this.src == src && readCursor == 0 && Valid()
    {
      this.src := src;
      readCursor := 0;
    }

    method NextRecord() returns (ok: bool, record: Bytes)
      requires Valid()
      modifies this
      ensures Valid()
      ensures match PackedRecords.NextRecord(src, old(readCursor))
              case Fail => !ok && readCursor == old(readCursor)
              case Got(r, c) => ok && record == r && readCursor == c
    {
      record := [];
      if |src| < readCursor + 4 {
        return false, record;
      }
      var recordSize := FromLE32(src[readCursor..readCursor + 4]);
      if |src| - (4 + readCursor) < recordSize {
        return false, record;
      }
      record := src[readCursor + 4..readCursor + 4 + recordSize];
      readCursor := readCursor + 4 + recordSize;
      ok := true;
    }

    /** There is nothing more to read. */
    method Eof() returns (r: bool)
      requires Valid()
      ensures r <==> ReadAll(src, readCursor) == Some([])
    {
      r := readCursor >= |src|;
    }

    /** Records until the end, as the readers of packed records take them. */
    method ReadRest() returns (ok: bool, records: seq<Record>)
      requires Valid()
      modifies this
      ensures ReadAll(src, old(readCursor)) == if ok then Some(records) else None
    {
      records := [];
      ghost var all := ReadAll(src, readCursor);
      FollowedByNone(records, all);
      while readCursor < |src|
        invariant Valid()
        invariant all == FollowedBy(records, ReadAll(src, readCursor))
        decreases |src| - readCursor
      {
        var record;
        ok, record := NextRecord();
        if !ok {
          return;
        }
        FollowedByOne(records, record, ReadAll(src, readCursor));
        records := records + [record];
      }
      ok := true;
      FollowedByNone(records, Some([]));
    }
  }

  function FollowedBy(records: seq<Record>, rest: Option<seq<Record>>): Option<seq<Record>>
  {
    if rest == None then None else Some(records + rest.value)
  }

  lemma FollowedByNone(records: seq<Record>, rest: Option<seq<Record>>)
    ensures FollowedBy(records, Some([])) == Some(records)
    ensures records == [] ==> FollowedBy(records, rest) == rest
  {
    assert records + [] == records;
    assert rest.Some? && records == [] ==> records + rest.value == rest.value;
  }

  lemma FollowedByOne(records: seq<Record>, r: Record, rest: Option<seq<Record>>)
    ensures FollowedBy(records + [r], rest)
            == FollowedBy(records, if rest == None then None else Some([r] + rest.value))
  {
    if rest.Some? {
      AppendAssoc(records, [r], rest.value);
    }
  }

  // ------------------------------------------------------------ writer and reader together

  lemma ReadsBackIff(contents: Bytes, done: nat, records: seq<Record>)
    requires done <= |contents| && contents[..done] == Pack(records)
    ensures ReadAll(contents, 0) == Some(records) <==> done == |contents|
  {
    ReadIffPacked(contents, records);
    if done == |contents| {
      assert contents[..done] == contents;
    }
  }

  /** The reader returns exactly the records, whatever mix of ways they were written in, exactly if no slice left
      bytes behind the last of them. */
  method WriteAndRead(dst: Blob, steps: Steps) returns (ok: bool, got: seq<Record>, ghost records: seq<Record>)
    requires dst.Valid() && dst.size == 0 && ProperSteps(steps)
    requires dst.preGap + 2 * Total(steps) < TWO_32
    modifies dst, dst.buffer
    ensures GivesAll(steps, records)
    ensures ok && got == records <==> BehindAll(0, steps) == 0
  {
    var writer := new PackedBlobWriter(dst);
    assert writer.Done() == [];
    records := writer.WriteAll(steps);
    assert [] + Pack(records) == Pack(records);
    ReadsBackIff(dst.Contents(), writer.writeCursor, records);
    var contents := dst.Read();
    var reader := new PackedBlobReader(contents);
    ok, got := reader.ReadRest();
  }

  /** A record copied into its slice without a resize is lost: an empty record is finished in its place, and the
      next `add_record` writes over the data. */
  method CopyOnly(dst: Blob, data: Record, next: Record)
    requires dst.Valid() && dst.preGap + 2 * (dst.size + 8 + |data| + |next|) < TWO_32
    modifies dst, dst.buffer
    ensures dst.Valid() && dst.Contents() == old(dst.Contents()) + PackOne([]) + PackOne(next)
  {
    var writer := new PackedBlobWriter(dst);
    CopyLeavesNothing(data, []);
    ghost var left := writer.WriteThrough(Then(NoEdit, CopyIn(data, 0)));
    CopyLeavesNothing(data, left);
    writer.AddRecord(next);
  }
}
