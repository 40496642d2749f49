/** `BlobSliceView`: a part of a blob, or of another slice, that can be resized and written. */
module BlobSlices {
  import opened Common
  import opened BlobBuffer

  /** `BlobView*`: what a slice is a part of. */
  datatype View = Whole(blob: Blob) | Part(slice: BlobSlice)

  class BlobSlice {
    const parent: View
    const start: nat
    /** `_len` */
    var len: nat
    // The blob at the end of the parents, where in it this starts, and how many slices and which objects
    // lie on the way
    ghost const root: Blob
    ghost const base: nat
    ghost const depth: nat
    ghost const above: set<object>

    /** Nothing but the fields: `Slice` expands what it is a part of. */
    constructor (parent: View, start: nat)
      requires Nested(parent)
      ensures this.parent == parent && this.start == start && len == 0 && Nested(Part(this))
    {
      this.parent, this.start, this.len := parent, start, 0;
      root, base, depth, above := Root(parent), Base(parent) + start, DepthOf(parent) + 1, Chain(parent);
    }
  }

  ghost function DepthOf(v: View): nat
  {
    if v.Part? then v.slice.depth else 0
  }

  ghost function Root(v: View): Blob
  {
    if v.Part? then v.slice.root else v.blob
  }

  /** Where the view starts in the blob. */
  ghost function Base(v: View): nat
  {
    if v.Part? then v.slice.base else 0
  }

  /** The objects a resize may change. */
  ghost function Chain(v: View): set<object>
  {
    if v.Part? then {v.slice} + v.slice.above else {v.blob}
  }

  /** Slices of slices end at a blob, and offsets add up. */
  ghost predicate Nested(v: View)
    decreases DepthOf(v)
  {
    && Root(v) in Chain(v)
    && (v.Part? ==>
          var s := v.slice;
          && s.depth == DepthOf(s.parent) + 1 && s.root == Root(s.parent) && s.base == Base(s.parent) + s.start
          && s.above == Chain(s.parent) && s !in s.above && Nested(s.parent))
  }

  /** A slice of the blob itself. */
  ghost predicate PartOf(s: BlobSlice, b: Blob)
  {
    s.parent == Whole(b) && s.root == b && s.base == s.start && s.depth == 1 && s.above == {b}
  }

  lemma PartOfIsNested(s: BlobSlice, b: Blob)
    ensures s.parent == Whole(b) && Nested(Part(s)) <==> PartOf(s, b)
  {
  }

  function SizeOf(v: View): nat
    reads if v.Part? then {v.slice as object} else {v.blob as object}
  {
    if v.Part? then v.slice.len else v.blob.size
  }

  /** Each slice lies inside what it is a part of. */
  ghost predicate Inside(v: View)
    requires Nested(v)
    reads Chain(v)
    decreases DepthOf(v)
  {
    v.Part? ==> v.slice.start + v.slice.len <= SizeOf(v.slice.parent) && Inside(v.slice.parent)
  }

  /** The blob can hold `n` bytes of the view. */
  ghost predicate Room(v: View, n: nat)
    requires Nested(v) && Root(v).Valid()
    reads Root(v)
  {
    Root(v).size < Base(v) + n ==> Root(v).Fits(0, Base(v) + n - Root(v).size, true)
  }

  /** `b` was made to hold `n` bytes and is otherwise as it was. */
  twostate predicate Grown(b: Blob, n: nat)
    requires old(b.Valid()) && b.Valid()
    reads b, b.buffer
  {
    && b.size == (if old(b.size) < n then n else old(b.size)) && b.preGap == old(b.preGap)
    && b.Contents()[..old(b.size)] == old(b.Contents())
    && (b.buffer == old(b.buffer) || fresh(b.buffer))
  }

  /** `resize_min`: the blob grows when the slice would end behind it, and never shrinks. */
  method ResizeMin(v: View, n: nat)
    requires Nested(v) && Root(v).Valid() && Inside(v) && Room(v, n)
    modifies Chain(v)
    ensures Root(v).Valid() && Inside(v) && SizeOf(v) == (if old(SizeOf(v)) < n then n else old(SizeOf(v)))
    ensures Grown(Root(v), Base(v) + n)
    decreases DepthOf(v), 1
  {
    match v
    case Whole(b) => b.ResizeMin(n);
    case Part(s) =>
      if s.len < n {
        Resize(s, n);
      } else {
        InsideBlob(v);
      }
  }

  lemma {:induction false} InsideBlob(v: View)
    requires Nested(v) && Inside(v)
    ensures Base(v) + SizeOf(v) <= Root(v).size
    decreases DepthOf(v)
  {
    if v.Part? {
      InsideBlob(v.slice.parent);
    }
  }

  /** `resize`: this slice is then as long as asked for, and inside; what it is a part of is not shrunk. */
  method Resize(s: BlobSlice, n: nat)
    requires Nested(Part(s)) && Root(Part(s)).Valid() && Inside(s.parent) && Room(Part(s), n)
    modifies Chain(Part(s))
    ensures Root(Part(s)).Valid() && Inside(Part(s)) && s.len == n
    ensures Grown(Root(Part(s)), Base(Part(s)) + n)
    decreases DepthOf(s.parent) + 1, 0
  {
    ResizeMin(s.parent, s.start + n);
    s.len := n;
  }

  /** `slice` */
  method Slice(v: View, start: nat, len: nat) returns (s: BlobSlice)
    requires Nested(v) && Root(v).Valid() && Inside(v) && Room(v, start + len)
    modifies Chain(v)
    ensures fresh(s) && s.parent == v && s.start == start && s.len == len
    ensures Nested(Part(s)) && Root(v).Valid() && Inside(Part(s)) && Grown(Root(v), Base(v) + start + len)
  {
    s := new BlobSlice(v, start);
    Resize(s, len);
  }

  /** `copy_from`: through nested slices it is a copy into the blob, at the sum of the offsets. No slice becomes
      longer. */
  method CopyFrom(v: View, src: Bytes, at: nat)
    requires Nested(v) && Root(v).Valid() && Inside(v) && Room(v, at + |src|)
    modifies Root(v), Root(v).buffer
    ensures Root(v).Valid() && Inside(v) && (v.Part? ==> v.slice.len == old(v.slice.len)) && old(SizeOf(v)) <= SizeOf(v)
    ensures Copied(old(Root(v).Contents()), Root(v).Contents(), src, Base(v) + at) && Root(v).preGap == old(Root(v).preGap)
    ensures Root(v).buffer == old(Root(v).buffer) || fresh(Root(v).buffer)
    decreases DepthOf(v)
  {
    match v
    case Whole(b) => b.CopyFrom(src, at);
    case Part(s) => CopyFrom(s.parent, src, s.start + at);
  }

  /** Writing through `getw`, inside the slice. */
  method Store(v: View, src: Bytes, at: nat)
    requires Nested(v) && Root(v).Valid() && Inside(v) && at + |src| <= SizeOf(v)
    modifies Root(v).buffer
    ensures Root(v).Valid() && Base(v) + at + |src| <= Root(v).size
    ensures var was := old(Root(v).Contents());
            Root(v).Contents() == was[..Base(v) + at] + src + was[Base(v) + at + |src|..]
    decreases DepthOf(v)
  {
    InsideBlob(v);
    match v
    case Whole(b) => b.Write(src, at);
    case Part(s) => Store(s.parent, src, s.start + at);
  }
}
