/**
  Frames of the KCP stream multiplexer: [CA FE][stream id][u16 length][payload].
  `DecodeFrame` answers the same for every extension of a buffer that starts with a
  complete frame, which is what makes arbitrary re-chunking of the wire harmless.
 */
module KcpFrame {
  import opened Bytes

  const FRAME_MAGIC: seq<byte> := [0xCA, 0xFE]
  const FRAME_HEADER_LEN: nat := 5
  const MAX_FRAME_PAYLOAD: nat := 65535

  datatype Decoded = Incomplete | Complete(id: byte, payload: seq<byte>, consumed: nat)

  function EncodeFrame(id: byte, payload: seq<byte>): (f: seq<byte>)
    requires |payload| <= MAX_FRAME_PAYLOAD
    ensures |f| == FRAME_HEADER_LEN + |payload|
  {
    FRAME_MAGIC + [id] + BE16(|payload|) + payload
  }

  function DecodeFrame(buf: seq<byte>): (d: Decoded)
    ensures d.Complete? ==> d.consumed == FRAME_HEADER_LEN + |d.payload| <= |buf|
  {
    if |buf| < FRAME_HEADER_LEN then
      Incomplete
    else if buf[0] != FRAME_MAGIC[0] || buf[1] != FRAME_MAGIC[1] then
      Incomplete
    else
      var len := FromBE16(buf[3..5]);
      if |buf| < FRAME_HEADER_LEN + len then
        Incomplete
      else
        Complete(buf[2], buf[FRAME_HEADER_LEN..FRAME_HEADER_LEN + len], FRAME_HEADER_LEN + len)
  }

  /** A frame on the wire: CA FE, the stream id, the length in two bytes, high byte first, and the payload. */
  lemma FrameLayout(id: byte, payload: seq<byte>)
    requires |payload| <= 65535
    ensures EncodeFrame(id, payload) == [0xCA, 0xFE, id, |payload| / 256, |payload| % 256] + payload
  {
  }

  /** What is parsed is exactly what printing the frame gives. */
  lemma DecodedIsEncoded(buf: seq<byte>)
    requires DecodeFrame(buf).Complete?
    ensures var d := DecodeFrame(buf);
            |d.payload| <= MAX_FRAME_PAYLOAD && buf[..d.consumed] == EncodeFrame(d.id, d.payload)
  {
    var d := DecodeFrame(buf);
    assert BE16(|d.payload|) == buf[3..5];
  }

  /** Printing then parsing gives the frame back, whatever bytes follow it. */
  lemma DecodeEncode(id: byte, payload: seq<byte>, rest: seq<byte>)
    requires |payload| <= MAX_FRAME_PAYLOAD
    ensures DecodeFrame(EncodeFrame(id, payload) + rest)
         == Complete(id, payload, FRAME_HEADER_LEN + |payload|)
  {
    var buf := EncodeFrame(id, payload) + rest;
    assert buf[3..5] == BE16(|payload|);
    assert buf[FRAME_HEADER_LEN..FRAME_HEADER_LEN + |payload|] == payload;
  }

  /** A complete head frame is read identically however many bytes follow. */
  lemma DecodeExtends(buf: seq<byte>, more: seq<byte>)
    requires DecodeFrame(buf).Complete?
    ensures DecodeFrame(buf + more) == DecodeFrame(buf)
  {
    assert (buf + more)[3..5] == buf[3..5];
    var n := DecodeFrame(buf).consumed;
    assert (buf + more)[FRAME_HEADER_LEN..n] == buf[FRAME_HEADER_LEN..n];
  }

  /** The bytes are a concatenation of complete frames, none of them empty. */
  ghost predicate WellFramed(bs: seq<byte>)
    decreases |bs|
  {
    bs == [] ||
    (var d := DecodeFrame(bs);
     d.Complete? && d.payload != [] && WellFramed(bs[d.consumed..]))
  }

  /** Everything the complete frames of `bs` carry for stream `id`, in order. */
  ghost function PayloadOf(id: byte, bs: seq<byte>): seq<byte>
    decreases |bs|
  {
    var d := DecodeFrame(bs);
    if d.Incomplete? then [] else
      (if d.id == id then d.payload else []) + PayloadOf(id, bs[d.consumed..])
  }

  lemma TailOfConcat(a: seq<byte>, b: seq<byte>)
    requires DecodeFrame(a).Complete?
    ensures DecodeFrame(a + b) == DecodeFrame(a)
    ensures (a + b)[DecodeFrame(a).consumed..] == a[DecodeFrame(a).consumed..] + b
  {
    DecodeExtends(a, b);
  }

  lemma {:induction false} WellFramedConcat(a: seq<byte>, b: seq<byte>)
    requires WellFramed(a) && WellFramed(b)
    ensures WellFramed(a + b)
    decreases |a|
  {
    if a == [] {
      assert a + b == b;
    } else {
      TailOfConcat(a, b);
      WellFramedConcat(a[DecodeFrame(a).consumed..], b);
    }
  }

  lemma PayloadStep(id: byte, a: seq<byte>)
    requires DecodeFrame(a).Complete?
    ensures var d := DecodeFrame(a);
            PayloadOf(id, a) == (if d.id == id then d.payload else []) + PayloadOf(id, a[d.consumed..])
  {
  }

  lemma {:induction false} PayloadOfConcat(id: byte, a: seq<byte>, b: seq<byte>)
    requires WellFramed(a)
    ensures PayloadOf(id, a + b) == PayloadOf(id, a) + PayloadOf(id, b)
    decreases |a|
  {
    if a == [] {
      assert a + b == b;
    } else {
      var d := DecodeFrame(a);
      var head := if d.id == id then d.payload else [];
      var rest := a[d.consumed..];
      calc {
        PayloadOf(id, a + b);
        { TailOfConcat(a, b); PayloadStep(id, a + b); }
        head + PayloadOf(id, rest + b);
        { PayloadOfConcat(id, rest, b); }
        head + (PayloadOf(id, rest) + PayloadOf(id, b));
        (head + PayloadOf(id, rest)) + PayloadOf(id, b);
        { PayloadStep(id, a); }
        PayloadOf(id, a) + PayloadOf(id, b);
      }
    }
  }

  lemma EncodeIsWellFramed(id: byte, payload: seq<byte>, other: byte)
    requires 0 < |payload| <= MAX_FRAME_PAYLOAD
    ensures WellFramed(EncodeFrame(id, payload))
    ensures PayloadOf(other, EncodeFrame(id, payload)) == if other == id then payload else []
  {
    var f := EncodeFrame(id, payload);
    DecodeEncode(id, payload, []);
    assert f + [] == f;
    assert f[FRAME_HEADER_LEN + |payload|..] == [];
    assert PayloadOf(other, []) == [];
  }
}
