/** `Blob`: a byte sequence in a buffer with free room before and after it. */
module BlobBuffer {
  import opened Common

  /** A gap after `grow_gap`: grown past what is asked for when `smart`. */
  function NewGap(gap: nat, min: nat, smart: bool): (r: nat)
    ensures gap <= r && min <= r && (min <= gap ==> r == gap)
  {
    if gap < min then (if smart then min + (min - gap) else min) else gap
  }

  /** `memcpy` into an array. */
  method BufCpy(dst: array<Byte>, at: nat, src: Bytes)
    requires at + |src| <= dst.Length
    modifies dst
    ensures dst[..] == old(dst[..at]) + src + old(dst[at + |src|..])
  {
    forall i | 0 <= i < |src| {
      dst[at + i] := src[i];
    }
  }

  /** What a copy of `src` to offset `at` leaves: the source there, and every other byte there was. Bytes the
      blob grew by before `at` are whatever the room held. */
  ghost predicate Copied(was: Bytes, now: Bytes, src: Bytes, at: nat)
  {
    && |now| == (if |was| < at + |src| then at + |src| else |was|)
    && (forall i :: 0 <= i < |src| ==> now[at + i] == src[i])
    && (forall i :: 0 <= i < |was| && !(at <= i < at + |src|) ==> now[i] == was[i])
  }

  lemma Spliced(was: Bytes, at: nat, src: Bytes, now: Bytes, lo: nat, hi: nat)
    requires lo <= at && at + |src| <= hi <= |was| && now == was[..at] + src + was[at + |src|..]
    ensures now[lo..hi] == was[lo..hi][..at - lo] + src + was[lo..hi][at - lo + |src|..]
  {
    var end := at + |src|;
    assert now[..at] == was[..at] && now[at..end] == src && now[end..] == was[end..];
    assert now[lo..hi] == now[lo..at] + now[at..end] + now[end..hi];
    SubSub(now, 0, at, lo, at);
    SubSub(was, 0, at, lo, at);
    SubSub(now, end, |now|, 0, hi - end);
    SubSub(was, end, |was|, 0, hi - end);
    SubSub(was, lo, hi, 0, at - lo);
    SubSub(was, lo, hi, end - lo, hi - lo);
  }

  lemma Shifted(all: Bytes, p: nat, n: nat, lo: int, hi: nat, a: nat, b: nat)
    requires p + n <= |all| && 0 <= p + lo <= p + hi <= |all| && lo <= a <= b <= hi && b <= n
    ensures all[p + lo..p + hi][a - lo..b - lo] == all[p..p + n][a..b]
  {
    SubSub(all, p + lo, p + hi, a - lo, b - lo);
    SubSub(all, p, p + n, a, b);
  }

  lemma Sandwiched(w: Bytes, left: Bytes, middle: Bytes, x: Bytes, right: Bytes)
    requires |w| == |left| + |middle| + |right| && w[|left|..|left| + |middle|] == middle
    requires x == left + w[|left|..]
    ensures x[..|left| + |middle|] == left + middle && x[|left| + |middle| + |right|..] == []
  {
  }

  lemma WrittenFirst(w: Bytes, other: Bytes, rest: Bytes)
    requires |w| == |other| + |rest| && w[|other|..|other| + |rest|] == rest
    ensures w[..0] + other + w[0 + |other|..] == other + rest
  {
  }

  lemma WrittenLast(w: Bytes, rest: Bytes, other: Bytes)
    requires |w| == |rest| + |other| && w[0..0 + |rest|] == rest
    ensures w[..|rest|] + other + w[|rest| + |other|..] == rest + other
  {
  }

  lemma WrittenIsCopied(was: Bytes, grown: Bytes, now: Bytes, src: Bytes, at: nat)
    requires |grown| == (if |was| < at + |src| then at + |src| else |was|) && grown[..|was|] == was
    requires now == grown[..at] + src + grown[at + |src|..]
    ensures Copied(was, now, src, at)
  {
    assert forall i :: 0 <= i < |was| ==> grown[i] == was[i];
  }

  class Blob {
    var buffer: array?<Byte>
    var preGap: nat
    var capacity: nat
    var size: nat

    ghost predicate Valid()
      reads this
    {
      && capacity == (if buffer == null then 0 else buffer.Length)
      && preGap + size <= capacity < TWO_32
    }

    ghost function Contents(): (r: Bytes)
      requires Valid()
      reads this, buffer
      ensures |r| == size
    {
      if buffer == null then [] else buffer[preGap..preGap + size]
    }

    /** The bytes `getr` and `size` stand for. */
    method Read() returns (r: Bytes)
      requires Valid()
      ensures r == Contents()
    {
      r := if buffer == null then [] else buffer[preGap..preGap + size];
    }

    function EndGap(): nat
      requires Valid()
      reads this
    {
      capacity - preGap - size
    }

    /** The capacity `grow_gap` computes fits in 32 bits. */
    predicate Fits(minPre: nat, minEnd: nat, smart: bool)
      requires Valid()
      reads this
    {
      NewGap(preGap, minPre, smart) + size + NewGap(EndGap(), minEnd, smart) < TWO_32
    }

    constructor ()
      ensures Valid() && Contents() == [] && buffer == null
    {
      buffer, preGap, capacity, size := null, 0, 0, 0;
    }

    /** `factory_empty` */
    constructor Empty(size: nat, preGap: nat, endGap: nat)
      requires size + preGap + endGap < TWO_32
      ensures Valid() && fresh(buffer) && Contents() == seq(size, _ => 0)
      ensures this.preGap == preGap && EndGap() == endGap
    {
      this.buffer := new Byte[size + preGap + endGap](_ => 0);
      this.preGap, this.capacity, this.size := preGap, size + preGap + endGap, size;
    }

    /** `factory_copy` */
    constructor Copy(src: Bytes, preGap: nat, endGap: nat)
      requires preGap + |src| + endGap < TWO_32
      ensures Valid() && fresh(buffer) && Contents() == src && this.preGap == preGap && EndGap() == endGap
    {
      var data := new Byte[preGap + |src| + endGap](_ => 0);
      this.buffer := data;
      this.preGap, this.capacity, this.size := preGap, preGap + |src| + endGap, |src|;
      new;
      BufCpy(data, preGap, src);
    }

    /** `factory_concat` */
    constructor Concat(list: seq<Bytes>, preGap: nat, endGap: nat)
      requires preGap + |Flatten(list)| + endGap < TWO_32
      ensures Valid() && fresh(buffer) && Contents() == Flatten(list) && this.preGap == preGap && EndGap() == endGap
    {
      var len := TotalSize(list);
      var data := new Byte[preGap + len + endGap](_ => 0);
      this.buffer := data;
      this.preGap, this.capacity, this.size := preGap, preGap + len + endGap, len;
      new;
      FillIn(data, preGap, list);
    }

    static method TotalSize(list: seq<Bytes>) returns (len: nat)
      ensures len == |Flatten(list)|
    {
      len := 0;
      var k := 0;
      while k < |list|
        invariant k <= |list| && len == |Flatten(list[..k])|
      {
        assert list[..k + 1] == list[..k] + [list[k]];
        FlattenSnoc(list[..k], list[k]);
        len := len + |list[k]|;
        k := k + 1;
      }
      assert list[..k] == list;
    }

    static method FillIn(data: array<Byte>, at: nat, list: seq<Bytes>)
      requires at + |Flatten(list)| <= data.Length
      modifies data
      ensures data[at..at + |Flatten(list)|] == Flatten(list)
    {
      var progress, k := at, 0;
      while k < |list|
        invariant k <= |list| && progress == at + |Flatten(list[..k])|
        invariant progress + |Flatten(list[k..])| == at + |Flatten(list)|
        invariant data[at..progress] == Flatten(list[..k])
      {
        assert list[..k + 1] == list[..k] + [list[k]];
        FlattenSnoc(list[..k], list[k]);
        assert Flatten(list[k..]) == list[k] + Flatten(list[k + 1..]) by {
          assert list[k..][1..] == list[k + 1..];
        }
        BufCpy(data, progress, list[k]);
        progress := progress + |list[k]|;
        k := k + 1;
      }
      assert list[..k] == list;
    }

    method GrowGap(minPre: nat, minEnd: nat, smart: bool)
      requires Valid() && Fits(minPre, minEnd, smart)
      modifies this
      ensures Valid() && Contents() == old(Contents()) && size == old(size)
      ensures minPre <= preGap && minEnd <= EndGap()
      ensures fresh(buffer) ==>
                && preGap == (if minPre <= old(preGap) then old(preGap) else if smart then 2 * minPre - old(preGap) else minPre)
                && EndGap() == (if minEnd <= old(EndGap()) then old(EndGap()) else if smart then 2 * minEnd - old(EndGap()) else minEnd)
      ensures || (buffer == old(buffer) && preGap == old(preGap) && capacity == old(capacity))
              || (fresh(buffer) && preGap == NewGap(old(preGap), minPre, smart) && EndGap() == NewGap(old(EndGap()), minEnd, smart))
    {
      var newPre := NewGap(preGap, minPre, smart);
      var newEnd := NewGap(EndGap(), minEnd, smart);
      var newCapacity := newPre + size + newEnd;
      if newCapacity > capacity {
        var data := new Byte[newCapacity](_ => 0);
        if buffer != null {
          BufCpy(data, newPre, buffer[preGap..preGap + size]);
        }
        buffer, capacity, preGap := data, newCapacity, newPre;
      }
    }

    /** The two-ended `resize`: start and end are counted from the old start. */
    method Resize(newStart: int, newEnd: nat)
      requires Valid() && -0x8000_0000 <= newStart <= newEnd
      requires Fits(if newStart < 0 then -newStart else 0, if newEnd < size then 0 else newEnd - size, true)
      modifies this
      ensures Valid() && size == newEnd - newStart
      ensures var a, b := if newStart < 0 then 0 else newStart, if newEnd < old(size) then newEnd else old(size);
              a <= b ==> Contents()[a - newStart..b - newStart] == old(Contents())[a..b]
      ensures newStart == 0 ==> preGap == old(preGap)
      ensures buffer == old(buffer) || fresh(buffer)
    {
      var minPre := if newStart < 0 then -newStart else 0;
      var minEnd := if newEnd < size then 0 else newEnd - size;
      GrowGap(minPre, minEnd, true);
      Shift(newStart, newEnd);
    }

    /** Move start and end within the room there is. */
    method Shift(newStart: int, newEnd: nat)
      requires Valid() && newStart <= newEnd && 0 <= preGap + newStart && preGap + newEnd <= capacity
      modifies this
      ensures Valid() && size == newEnd - newStart && buffer == old(buffer) && preGap == old(preGap) + newStart
      ensures var a, b := if newStart < 0 then 0 else newStart, if newEnd < old(size) then newEnd else old(size);
              a <= b ==> Contents()[a - newStart..b - newStart] == old(Contents())[a..b]
    {
      var a, b := if newStart < 0 then 0 else newStart, if newEnd < size then newEnd else size;
      if buffer != null && a <= b {
        Shifted(buffer[..], preGap, size, newStart, newEnd, a, b);
      }
      preGap := preGap + newStart;
      size := newEnd - newStart;
      assert buffer != null ==> buffer[..][preGap..preGap + size] == buffer[preGap..preGap + size];
    }

    method ResizeMin(minLen: nat)
      requires Valid() && (size < minLen ==> Fits(0, minLen - size, true))
      modifies this
      ensures Valid() && size == (if old(size) < minLen then minLen else old(size)) && preGap == old(preGap)
      ensures Contents()[..old(size)] == old(Contents())
      ensures buffer == old(buffer) || fresh(buffer)
    {
      if size < minLen {
        GrowGap(0, minLen - size, true);
        size := minLen;
      }
    }

    /** Write inside the active part. */
    method Write(src: Bytes, at: nat)
      requires Valid() && at + |src| <= size
      modifies buffer
      ensures Contents() == old(Contents()[..at]) + src + old(Contents()[at + |src|..])
    {
      if buffer != null {
        Splice(buffer, preGap, size, src, at);
      }
    }

    static method Splice(data: array<Byte>, pre: nat, size: nat, src: Bytes, at: nat)
      requires pre + size <= data.Length && at + |src| <= size
      modifies data
      ensures data[pre..pre + size] == old(data[pre..pre + size][..at]) + src + old(data[pre..pre + size][at + |src|..])
    {
      ghost var all := data[..];
      BufCpy(data, pre + at, src);
      Spliced(all, pre + at, src, data[..], pre, pre + size);
      assert all[pre..pre + size] == old(data[pre..pre + size]);
    }

    method CopyFrom(src: Bytes, at: nat)
      requires Valid() && (size < at + |src| ==> Fits(0, at + |src| - size, true))
      modifies this, buffer
      ensures Valid() && Copied(old(Contents()), Contents(), src, at) && preGap == old(preGap)
      ensures buffer == old(buffer) || fresh(buffer)
    {
      ResizeMin(at + |src|);
      ghost var grown := Contents();
      Write(src, at);
      WrittenIsCopied(old(Contents()), grown, Contents(), src, at);
    }

    method AddBlobBefore(other: Bytes)
      requires Valid() && Fits(|other|, 0, true)
      modifies this, buffer
      ensures Valid() && Contents() == other + old(Contents())
      ensures buffer == old(buffer) || fresh(buffer)
    {
      GrowGap(|other|, 0, true);
      Widen(|other|, 0);
      WrittenFirst(Contents(), other, old(Contents()));
      Write(other, 0);
    }

    method AddBlobAfter(other: Bytes)
      requires Valid() && Fits(0, |other|, true)
      modifies this, buffer
      ensures Valid() && Contents() == old(Contents()) + other
      ensures buffer == old(buffer) || fresh(buffer)
    {
      GrowGap(0, |other|, true);
      var at := size;
      Widen(0, |other|);
      WrittenLast(Contents(), old(Contents()), other);
      Write(other, at);
    }

    method Sandwich(left: Bytes, right: Bytes)
      requires Valid() && Fits(|left|, |right|, true)
      modifies this, buffer
      ensures Valid() && Contents() == left + old(Contents()) + right
      ensures buffer == old(buffer) || fresh(buffer)
    {
      GrowGap(|left|, |right|, true);
      var middle := size;
      Widen(|left|, |right|);
      WriteAround(left, middle, right);
    }

    method WriteAround(left: Bytes, middle: nat, right: Bytes)
      requires Valid() && size == |left| + middle + |right|
      modifies buffer
      ensures Contents() == left + old(Contents()[|left|..|left| + middle]) + right
    {
      ghost var w := Contents();
      ghost var m := w[|left|..|left| + middle];
      Write(left, 0);
      ghost var x := Contents();
      assert x == w[..0] + left + w[0 + |left|..] && w[..0] + left == left;
      Sandwiched(w, left, m, x, right);
      Write(right, |left| + middle);
      ghost var y := Contents();
      assert y == x[..|left| + middle] + right + x[|left| + middle + |right|..];
      assert y == (left + m) + right + [];
    }

    /** Take room on both sides into the active part. */
    method Widen(before: nat, after: nat)
      requires Valid() && before <= preGap && after <= EndGap()
      modifies this
      ensures Valid() && buffer == old(buffer) && size == before + old(size) + after
      ensures Contents()[before..before + old(size)] == old(Contents())
    {
      preGap := preGap - before;
      size := before + size + after;
    }

    /** The code passes `memset` its arguments in the wrong order, so this sets no byte. */
    method Erase()
      requires Valid()
      modifies buffer
      ensures Valid() && Contents() == old(Contents())
    {
      if buffer == null {
        return;
      }
      MemSet(buffer, capacity, 0);
    }

    static method MemSet(dst: array<Byte>, value: nat, count: nat)
      requires count <= dst.Length
      modifies dst
      ensures dst[..] == seq(count, i => value % 0x100) + old(dst[count..])
    {
      forall i | 0 <= i < count {
        dst[i] := value % 0x100;
      }
    }

    method Clear()
      modifies this
      ensures Valid() && Contents() == []
    {
      buffer, preGap, size, capacity := null, 0, 0, 0;
    }
  }

  // ------------------------------------------------------------ comparison

  datatype Ordering = Less | Equal | Greater

  /** First difference, then length. */
  function Compare(a: Bytes, b: Bytes): Ordering
  {
    if a == [] then (if b == [] then Equal else Less)
    else if b == [] then Greater
    else if a[0] < b[0] then Less
    else if a[0] > b[0] then Greater
    else Compare(a[1..], b[1..])
  }

  /** `operator<=>` */
  method CompareBytes(a: Bytes, b: Bytes) returns (r: Ordering)
    ensures r == Compare(a, b)
  {
    var i := 0;
    while i < |a| && i < |b|
      invariant i <= |a| && i <= |b| && Compare(a, b) == Compare(a[i..], b[i..])
    {
      if a[i] != b[i] {
        return if a[i] < b[i] then Less else Greater;
      }
      assert a[i..][1..] == a[i + 1..] && b[i..][1..] == b[i + 1..];
      i := i + 1;
    }
    r := if |a| < |b| then Less else if |a| == |b| then Equal else Greater;
  }

  function Flip(o: Ordering): Ordering
  {
    match o
    case Less => Greater
    case Equal => Equal
    case Greater => Less
  }

  /** The order is total, agrees with equality, and is what a sorted map needs. */
  lemma {:induction false} CompareTotal(a: Bytes, b: Bytes)
    ensures Compare(b, a) == Flip(Compare(a, b)) && (Compare(a, b) == Equal <==> a == b)
  {
    if a != [] && b != [] {
      CompareTotal(a[1..], b[1..]);
      assert a == [a[0]] + a[1..] && b == [b[0]] + b[1..];
    }
  }

  lemma {:induction false} CompareTransitive(a: Bytes, b: Bytes, c: Bytes)
    requires Compare(a, b) == Less && Compare(b, c) == Less
    ensures Compare(a, c) == Less
  {
    if a != [] && b != [] && c != [] && a[0] == b[0] == c[0] {
      CompareTransitive(a[1..], b[1..], c[1..]);
    }
  }

  /** `operator!=` as written: `memcmp` reads as many bytes on the right as the left has, going on into whatever
      lies behind the right side when that is shorter. */
  predicate CodeNotEqual(a: Bytes, b: Bytes, behind: Bytes)
    requires |a| <= |b| + |behind|
  {
    if |a| == |b| then true else a != (b + behind)[..|a|]
  }

  /** It is wrong exactly when the left side is what memory holds from the start of the right side on: it calls
      equal blobs different, and a proper prefix, or an extension that happens to lie there, equal. */
  lemma CodeNotEqualIff(a: Bytes, b: Bytes, behind: Bytes)
    requires |a| <= |b| + |behind|
    ensures (CodeNotEqual(a, b, behind) <==> a != b) <==> !(a <= b + behind)
  {
    assert a <= b + behind <==> a == (b + behind)[..|a|];
    assert |a| == |b| ==> (b + behind)[..|a|] == b;
  }
}
