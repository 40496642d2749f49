/** The datagrams of `OPTUDP` byte by byte: one type byte, four bytes of sequence number, payload. */
module UdpWire {
  import opened Common
  import opened Fragmentation
  import opened UdpModel

  const MGMT_PING: Byte := 2
  const MGMT_PONG: Byte := 3
  const PKT_ACK: Byte := 32
  const UDP_PIPE: Byte := 48

  function KindByte(k: Kind): Byte
  {
    match k
    case Mid => 16
    case Start => 17
    case End => 18
    case Single => 19
  }

  function KindOfByte(b: Byte): Option<Kind>
  {
    if b == 16 then Some(Mid)
    else if b == 17 then Some(Start)
    else if b == 18 then Some(End)
    else if b == 19 then Some(Single)
    else None
  }

  /** What `on_receive` makes of a datagram. */
  datatype Datagram =
    | Malformed
    | Ignored
    | Ping(request: Bytes)
    | BadPing
    | Pong
    | Ack(seqno: SeqNo)
    | Data(seqno: SeqNo, frag: Fragment)
    | Raw(bytes: Bytes)

  function Decode(b: Bytes): Datagram
  {
    if |b| < 1 then Malformed
    else if b[0] == MGMT_PING then (if |b| == 65 then Ping(b) else BadPing)
    else if b[0] == MGMT_PONG then Pong
    else if b[0] == PKT_ACK then (if |b| != 5 then Malformed else Ack(FromU32(FromLE32(b[1..5]))))
    else if KindOfByte(b[0]).Some? then
      (if |b| < 5 then Malformed
       else Data(FromU32(FromLE32(b[1..5])), Fragment(KindOfByte(b[0]).value, b[5..])))
    else if b[0] == UDP_PIPE then Raw(b)
    else Ignored
  }

  function EncodeData(s: SeqNo, f: Fragment): Bytes
  {
    [KindByte(f.kind)] + LE32(ToU32(s)) + f.data
  }

  function EncodeAck(s: SeqNo): Bytes
  {
    [PKT_ACK] + LE32(ToU32(s))
  }

  /** The bytes: type, then the word whose low six bits are the retransmit number, little endian, then the data. */
  lemma Layout(s: SeqNo, f: Fragment, b0: Byte, b1: Byte, b2: Byte, b3: Byte)
    requires 64 * s.num + s.rt == b0 + 0x100 * b1 + 0x1_0000 * b2 + 0x100_0000 * b3
    ensures var kind := match f.kind case Mid => 16 case Start => 17 case End => 18 case Single => 19;
            EncodeData(s, f) == [kind, b0, b1, b2, b3] + f.data
    ensures EncodeAck(s) == [32, b0, b1, b2, b3]
  {
    LE32IsLittleEndian(ToU32(s), b0, b1, b2, b3);
  }

  /** What is malformed, what is answered, what is reported and what is left alone, by type byte and length. */
  lemma Verdicts(b: Bytes)
    ensures Decode(b) == Malformed <==> b == [] || (b[0] == 32 && |b| != 5) || (16 <= b[0] <= 19 && |b| < 5)
    ensures b != [] ==>
      && (Decode(b).Ping? <==> b[0] == 2 && |b| == 65) && (Decode(b) == BadPing <==> b[0] == 2 && |b| != 65)
      && (Decode(b) == Pong <==> b[0] == 3) && (Decode(b).Ack? <==> b[0] == 32 && |b| == 5)
      && (Decode(b).Data? <==> 16 <= b[0] <= 19 && |b| >= 5) && (Decode(b).Raw? <==> b[0] == 48)
      && (Decode(b) == Ignored <==> b[0] !in {2, 3, 16, 17, 18, 19, 32, 48})
    ensures Decode(b).Ping? ==> Decode(b).request == b
  {
    match Decode(b)
    case Data(s, f) => DataInverse(b, s, f);
    case Raw(r) => RawKeepsHeader(b, []);
    case _ =>
  }

  lemma DataRoundTrip(s: SeqNo, f: Fragment)
    ensures Decode(EncodeData(s, f)) == Data(s, f)
  {
    SeqNoIsWord(s, 0, 0);
    LE32RoundTrip(ToU32(s));
    assert EncodeData(s, f)[1..5] == LE32(ToU32(s));
    assert EncodeData(s, f)[5..] == f.data;
  }

  lemma AckRoundTrip(s: SeqNo)
    ensures Decode(EncodeAck(s)) == Ack(s)
  {
    SeqNoIsWord(s, 0, 0);
    LE32RoundTrip(ToU32(s));
    assert EncodeAck(s)[1..5] == LE32(ToU32(s));
  }

  /** A datagram is read as data exactly when it is the encoding of that data. */
  lemma DataInverse(b: Bytes, s: SeqNo, f: Fragment)
    ensures Decode(b) == Data(s, f) <==> b == EncodeData(s, f)
  {
    if Decode(b) == Data(s, f) {
      LE32Inverse(b[1..5]);
      SeqNoIsWord(s, FromLE32(b[1..5]), 0);
      assert b == [b[0]] + b[1..5] + b[5..];
    }
    DataRoundTrip(s, f);
  }

  /** The datagram of `sendRaw`. */
  function EncodeRaw(data: Bytes): Bytes
  {
    [UDP_PIPE] + data
  }

  /** A raw datagram is handed out as it came, its type byte included: so what `sendRaw` was given never comes
      out, but the receiver can tell what it was. */
  lemma RawKeepsHeader(b: Bytes, data: Bytes)
    ensures Decode(EncodeRaw(data)) == Raw(EncodeRaw(data)) && EncodeRaw(data) != data
    ensures Decode(b).Raw? <==> b != [] && b == EncodeRaw(b[1..])
    ensures Decode(b).Raw? ==> Decode(b).bytes == b && (Decode(b) == Decode(EncodeRaw(data)) <==> b[1..] == data)
  {
    assert |EncodeRaw(data)| == 1 + |data|;
    assert EncodeRaw(data)[1..] == data;
    if b != [] {
      assert b == [b[0]] + b[1..];
    }
  }
}
