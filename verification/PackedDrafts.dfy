/** What a user of `PackedBlobWriter` does with the slice of a record that is being written, as values. */
module PackedDrafts {
  import opened Common
  import opened PackedRecords

  /** `resize`, `resize_min` and `copy_from` on the slice, and writing through `getw`. */
  datatype Edit = SetLen(n: nat) | SetMinLen(n: nat) | CopyIn(data: Bytes, at: nat) | StoreIn(data: Bytes, at: nat)

  datatype Edits = NoEdit | Then(before: Edits, last: Edit)

  /** The slice: its length, how far behind its start the blob was made to reach, and the bytes there that are
      known, the rest being whatever the blob held. */
  datatype Draft = Draft(len: nat, reach: nat, known: map<nat, Byte>)

  const EMPTY_DRAFT := Draft(0, 0, map[])

  function Max(a: nat, b: nat): nat
  {
    if a < b then b else a
  }

  predicate Within(i: nat, at: nat, n: nat)
  {
    at <= i < at + n
  }

  function Overlaid(known: map<nat, Byte>, data: Bytes, at: nat): map<nat, Byte>
  {
    known + map i: nat | at <= i < at + |data| && Within(i, at, |data|) :: data[i - at]
  }

  function Edited(d: Draft, e: Edit): Draft
  {
    match e
    case SetLen(n) => d.(len := n, reach := Max(d.reach, n))
    case SetMinLen(n) => if d.len < n then d.(len := n, reach := Max(d.reach, n)) else d
    case CopyIn(data, at) => d.(reach := Max(d.reach, at + |data|), known := Overlaid(d.known, data, at))
    case StoreIn(data, at) => d.(known := Overlaid(d.known, data, at))
  }

  function Drafted(edits: Edits): Draft
  {
    match edits
    case NoEdit => EMPTY_DRAFT
    case Then(before, last) => Edited(Drafted(before), last)
  }

  /** Writing through `getw` stays inside the slice. */
  predicate Proper(edits: Edits)
  {
    match edits
    case NoEdit => true
    case Then(before, last) => Proper(before) && (last.StoreIn? ==> last.at + |last.data| <= Drafted(before).len)
  }

  lemma {:induction false} DraftBounds(edits: Edits)
    requires Proper(edits)
    ensures var d := Drafted(edits); d.len <= d.reach && forall i :: i in d.known ==> i < d.reach
  {
    if edits.Then? {
      DraftBounds(edits.before);
    }
  }

  /** `r` is as long as the draft and has its known bytes. */
  ghost predicate Matches(d: Draft, r: Bytes)
  {
    |r| == d.len && forall i :: 0 <= i < |r| && i in d.known ==> r[i] == d.known[i]
  }

  /** `r` can be the record the edits leave: as long as the slice was left, and with the bytes written there. */
  ghost predicate Leaves(edits: Edits, r: Bytes)
  {
    Matches(Drafted(edits), r)
  }

  /** What all callers do, resize and then write through `getw`. */
  function Storing(data: Bytes): Edits
  {
    Then(Then(NoEdit, SetLen(|data|)), StoreIn(data, 0))
  }

  /** It leaves exactly what they wrote. */
  lemma StoredIsLeft(data: Bytes, r: Bytes)
    ensures Proper(Storing(data)) && Drafted(Storing(data)) == Draft(|data|, |data|, Overlaid(map[], data, 0))
    ensures Leaves(Storing(data), r) <==> r == data
  {
    assert Drafted(Then(NoEdit, SetLen(|data|))) == Draft(|data|, |data|, map[]);
    if Leaves(Storing(data), r) {
      OverlaidIsLeft(Drafted(Storing(data)).known, data, r);
    }
  }

  /** Copying a whole record in leaves it exactly if the slice has its length; a slice that was not resized has
      length 0, because a copy does not make it longer. */
  lemma CopiedIsLeftIff(n: nat, data: Bytes, r: Bytes)
    requires Leaves(Then(Then(NoEdit, SetLen(n)), CopyIn(data, 0)), r)
    ensures r == data <==> n == |data|
  {
    var e := Then(Then(NoEdit, SetLen(n)), CopyIn(data, 0));
    assert Drafted(Then(NoEdit, SetLen(n))) == Draft(n, n, map[]);
    assert Drafted(e) == Draft(n, Max(n, |data|), Overlaid(map[], data, 0));
    if n == |data| {
      OverlaidIsLeft(Drafted(e).known, data, r);
    }
  }

  lemma OverlaidIsLeft(known: map<nat, Byte>, data: Bytes, r: Bytes)
    requires known == Overlaid(map[], data, 0) && |r| == |data|
    requires forall i :: 0 <= i < |r| && i in known ==> r[i] == known[i]
    ensures r == data
  {
    forall i | 0 <= i < |r| ensures r[i] == data[i] {
      assert i in known;
    }
  }

  lemma CopyLeavesNothing(data: Bytes, r: Bytes)
    ensures Leaves(Then(NoEdit, CopyIn(data, 0)), r) <==> r == []
    ensures Drafted(Then(NoEdit, CopyIn(data, 0))) == Draft(0, |data|, Overlaid(map[], data, 0))
  {
    assert Drafted(NoEdit) == EMPTY_DRAFT;
    assert Edited(EMPTY_DRAFT, CopyIn(data, 0)) == Draft(0, |data|, Overlaid(map[], data, 0));
  }

  // ------------------------------------------------------------ a whole sequence of records

  datatype Step = Add(data: Record) | Through(edits: Edits)
  datatype Steps = NoStep | Next(before: Steps, last: Step)

  ghost predicate Gives(s: Step, r: Bytes)
  {
    match s
    case Add(data) => r == data
    case Through(edits) => Leaves(edits, r)
  }

  /** Each record is one its step can leave. */
  ghost predicate GivesAll(steps: Steps, records: seq<Record>)
  {
    match steps
    case NoStep => records == []
    case Next(before, last) =>
      records != [] && GivesAll(before, records[..|records| - 1]) && Gives(last, records[|records| - 1])
  }

  predicate ProperStep(s: Step)
  {
    s.Through? ==> Proper(s.edits)
  }

  predicate ProperSteps(steps: Steps)
  {
    steps.Next? ==> ProperSteps(steps.before) && ProperStep(steps.last)
  }

  function Reach(s: Step): nat
  {
    if s.Add? then |s.data| else Drafted(s.edits).reach
  }

  /** At most this much is written. */
  function Total(steps: Steps): nat
  {
    if steps.NoStep? then 0 else Total(steps.before) + 4 + Reach(steps.last)
  }

  /** The bytes the blob has behind the write cursor. `add_record` cuts them off; a slice leaves those it did not
      make part of its record. */
  function Behind(left: nat, s: Step): nat
    requires ProperStep(s)
  {
    if s.Add? then 0
    else
      DraftBounds(s.edits);
      Max(left, 4 + Drafted(s.edits).reach) - 4 - Drafted(s.edits).len
  }

  function BehindAll(left: nat, steps: Steps): nat
    requires ProperSteps(steps)
  {
    if steps.NoStep? then left else Behind(BehindAll(left, steps.before), steps.last)
  }

  /** Nothing is left behind exactly if the last step left nothing: an `add_record`, or a slice whose record ends
      where the blob was last made to reach and behind everything earlier steps left. */
  lemma NothingBehindIff(left: nat, steps: Steps)
    requires steps.Next? && ProperSteps(steps)
    ensures BehindAll(left, steps) == 0 <==>
            match steps.last
            case Add(_) => true
            case Through(edits) =>
              Drafted(edits).len == Drafted(edits).reach && BehindAll(left, steps.before) <= 4 + Drafted(edits).len
  {
    if steps.last.Through? {
      DraftBounds(steps.last.edits);
    }
  }

  lemma GivesMore(done: Bytes, before: Steps, last: Step, was: seq<Record>, data: Record)
    requires GivesAll(before, was) && Gives(last, data)
    ensures GivesAll(Next(before, last), was + [data])
    ensures done + Pack(was + [data]) == done + Pack(was) + PackOne(data)
  {
    assert (was + [data])[..|was|] == was;
    PackSnoc(was, data);
    AppendAssoc(done, Pack(was), PackOne(data));
  }
}
