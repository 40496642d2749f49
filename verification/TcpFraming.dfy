/** `OPTTCP`: frames of a type byte, a 32-bit length and a payload over a byte stream cut anywhere. */
module TcpFraming {
  import opened Common

  const PKT_NORMAL: Byte := 1
  const PKT_RAW: Byte := 2
  const MAX_PACKET: int := 0x100_0000

  type Payload = b: Bytes | |b| < TWO_32 - 5

  datatype Frame = Normal(data: Payload) | RawFrame(data: Payload)

  function TypeByte(f: Frame): Byte
  {
    if f.Normal? then PKT_NORMAL else PKT_RAW
  }

  function Encode(f: Frame): Bytes
  {
    [TypeByte(f)] + LE32(|f.data|) + f.data
  }

  function EncodeAll(fs: seq<Frame>): Bytes
  {
    if fs == [] then [] else Encode(fs[0]) + EncodeAll(fs[1..])
  }

  /** The direct parse of a byte stream: the frames, what is left over, and whether the header at the
      head of the rest makes the receiver close. */
  datatype Parse = Parse(frames: seq<Frame>, rest: Bytes, bad: bool)

  function HeaderLen(b: Bytes): U32
    requires |b| >= 5
  {
    FromLE32(b[1..5])
  }

  predicate BadHeader(b: Bytes)
  {
    |b| >= 5 && (HeaderLen(b) >= MAX_PACKET || (b[0] != PKT_NORMAL && b[0] != PKT_RAW))
  }

  /** A whole frame is at the head. */
  predicate Complete(b: Bytes)
  {
    |b| >= 5 && !BadHeader(b) && 5 + HeaderLen(b) <= |b|
  }

  function FirstFrame(b: Bytes): Frame
    requires Complete(b)
  {
    var data := b[5..5 + HeaderLen(b)];
    if b[0] == PKT_NORMAL then Normal(data) else RawFrame(data)
  }

  function AfterFirst(b: Bytes): (r: Bytes)
    requires Complete(b)
    ensures |r| < |b|
  {
    b[5 + HeaderLen(b)..]
  }

  function ParseAll(b: Bytes): Parse
    decreases |b|
  {
    if Complete(b) then
      var p := ParseAll(AfterFirst(b));
      p.(frames := [FirstFrame(b)] + p.frames)
    else Parse([], b, BadHeader(b))
  }

  /** Receiving the chunks one after the other, each time parsing what was left over plus the chunk. */
  function Feed(rest: Bytes, chunks: seq<Bytes>): Parse
    decreases |chunks|
  {
    if chunks == [] then Parse([], rest, BadHeader(rest))
    else
      var p := ParseAll(rest + chunks[0]);
      var q := Feed(p.rest, chunks[1..]);
      q.(frames := p.frames + q.frames)
  }

  // ------------------------------------------------------------ the parse

  lemma HeadKept(a: Bytes, b: Bytes)
    requires |a| >= 5
    ensures HeaderLen(a + b) == HeaderLen(a) && (a + b)[0] == a[0]
  {
    assert (a + b)[1..5] == a[1..5];
  }

  lemma CompleteKept(a: Bytes, b: Bytes)
    requires Complete(a)
    ensures Complete(a + b) && FirstFrame(a + b) == FirstFrame(a) && AfterFirst(a + b) == AfterFirst(a) + b
  {
    HeadKept(a, b);
    var n := 5 + HeaderLen(a);
    assert (a + b)[5..n] == a[5..n];
    assert (a + b)[n..] == a[n..] + b;
  }

  /** The parse can be stopped anywhere and resumed with the rest. */
  lemma {:induction false} ParseResumes(a: Bytes, b: Bytes)
    ensures var p, q := ParseAll(a), ParseAll(ParseAll(a).rest + b);
            ParseAll(a + b) == Parse(p.frames + q.frames, q.rest, q.bad)
    decreases |a|
  {
    if Complete(a) {
      CompleteKept(a, b);
      ParseResumes(AfterFirst(a), b);
      var p, q := ParseAll(AfterFirst(a)), ParseAll(ParseAll(AfterFirst(a)).rest + b);
      AppendAssoc([FirstFrame(a)], p.frames, q.frames);
    } else {
      assert [] + ParseAll(a + b).frames == ParseAll(a + b).frames;
    }
  }

  /** The rest of a parse holds no complete frame, so it is short unless its header is bad. */
  lemma {:induction false} RestIsStuck(b: Bytes)
    ensures var p := ParseAll(b); !Complete(p.rest) && p.bad == BadHeader(p.rest)
    ensures !ParseAll(b).bad ==> |ParseAll(b).rest| < 5 + MAX_PACKET
    decreases |b|
  {
    if Complete(b) {
      RestIsStuck(AfterFirst(b));
    }
  }

  /** However the stream was cut, the frames, the rest and the verdict are those of the whole stream. */
  lemma {:induction false} ChunkingIndependent(rest: Bytes, chunks: seq<Bytes>)
    requires !Complete(rest)
    ensures Feed(rest, chunks) == ParseAll(rest + Flatten(chunks))
    decreases |chunks|
  {
    if chunks == [] {
      assert rest + Flatten(chunks) == rest;
    } else {
      var p := ParseAll(rest + chunks[0]);
      RestIsStuck(rest + chunks[0]);
      ChunkingIndependent(p.rest, chunks[1..]);
      ParseResumes(rest + chunks[0], Flatten(chunks[1..]));
      AppendAssoc(rest, chunks[0], Flatten(chunks[1..]));
    }
  }

  /** Once a bad header is at the head nothing is emitted any more. */
  lemma BadForever(b: Bytes, more: Bytes)
    requires ParseAll(b).bad
    ensures ParseAll(ParseAll(b).rest + more) == Parse([], ParseAll(b).rest + more, true)
  {
    RestIsStuck(b);
    HeadKept(ParseAll(b).rest, more);
  }

  // ------------------------------------------------------------ in bytes

  /** A frame is a byte 1 or 2, the length in four bytes, the lowest first, and the payload. */
  lemma Layout(data: Payload, b0: Byte, b1: Byte, b2: Byte, b3: Byte)
    requires |data| == b0 + 0x100 * b1 + 0x1_0000 * b2 + 0x100_0000 * b3
    ensures Encode(Normal(data)) == [1, b0, b1, b2, b3] + data
    ensures Encode(RawFrame(data)) == [2, b0, b1, b2, b3] + data
  {
    LE32IsLittleEndian(|data|, b0, b1, b2, b3);
  }

  /** What the parse makes of a stream, by the first five bytes: too short to tell, a type or length that is not
      allowed, a frame still incomplete, or a frame and then the parse of what follows it. */
  lemma ParseByHead(b: Bytes, n: nat)
    requires |b| >= 5 ==> n == FromLE32(b[1..5])
    ensures |b| < 5 ==> ParseAll(b) == Parse([], b, false)
    ensures |b| >= 5 && (n >= 0x100_0000 || (b[0] != 1 && b[0] != 2)) ==> ParseAll(b) == Parse([], b, true)
    ensures |b| >= 5 && n < 0x100_0000 && (b[0] == 1 || b[0] == 2) ==>
              if |b| < 5 + n then ParseAll(b) == Parse([], b, false)
              else
                var data, p := b[5..5 + n], ParseAll(b[5 + n..]);
                ParseAll(b) == p.(frames := [if b[0] == 1 then Normal(data) else RawFrame(data)] + p.frames)
  {
  }

  // ------------------------------------------------------------ round trips

  lemma EncodedHead(f: Frame, more: Bytes)
    ensures |Encode(f) + more| >= 5 && HeaderLen(Encode(f) + more) == |f.data|
    ensures (Encode(f) + more)[0] == TypeByte(f)
    ensures BadHeader(Encode(f) + more) <==> |f.data| >= MAX_PACKET
  {
    LE32RoundTrip(|f.data|);
    var b := Encode(f) + more;
    assert b[1..5] == LE32(|f.data|);
  }

  lemma EncodedFirst(f: Frame, more: Bytes)
    requires |f.data| < MAX_PACKET
    ensures Complete(Encode(f) + more) && FirstFrame(Encode(f) + more) == f && AfterFirst(Encode(f) + more) == more
  {
    EncodedHead(f, more);
    var b := Encode(f) + more;
    assert b[5..5 + |f.data|] == f.data;
    assert b[5 + |f.data|..] == more;
  }

  ghost predicate Fits(fs: seq<Frame>)
  {
    forall k :: 0 <= k < |fs| ==> |fs[k].data| < MAX_PACKET
  }

  /** The frames written by `send` and `sendRaw` come back, exactly when each is below 2^24 bytes:
      one byte less than the MTU the class advertises. */
  lemma {:induction false} RoundTripIff(fs: seq<Frame>)
    ensures ParseAll(EncodeAll(fs)) == Parse(fs, [], false) <==> Fits(fs)
    ensures !Fits(fs) ==> ParseAll(EncodeAll(fs)).bad
    decreases |fs|
  {
    if fs != [] {
      var f, more := fs[0], EncodeAll(fs[1..]);
      EncodedHead(f, more);
      if |f.data| < MAX_PACKET {
        EncodedFirst(f, more);
        RoundTripIff(fs[1..]);
        assert fs == [f] + fs[1..];
        assert Fits(fs) <==> Fits(fs[1..]);
      } else {
        assert !Fits(fs);
      }
    }
  }

  /** Sent frames over a stream cut anywhere, complete or not: what came out is a prefix, in order. */
  lemma StreamDelivers(fs: seq<Frame>, chunks: seq<Bytes>, more: Bytes)
    requires Fits(fs) && Flatten(chunks) + more == EncodeAll(fs)
    ensures Feed([], chunks).frames <= fs && !Feed([], chunks).bad
    ensures more == [] ==> Feed([], chunks) == Parse(fs, [], false)
  {
    ChunkingIndependent([], chunks);
    assert [] + Flatten(chunks) == Flatten(chunks);
    ParseResumes(Flatten(chunks), more);
    RoundTripIff(fs);
    if more == [] {
      assert Flatten(chunks) + more == Flatten(chunks);
    }
    if Feed([], chunks).bad {
      BadForever(Flatten(chunks), more);
    }
  }
}
