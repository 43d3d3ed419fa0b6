/**
  Data over an established context stream: Chunked or Raw, compressed or not, with the send
  buffer of Raw + compressed mode. lz4 is a pair of functions the theorems quantify over.
 */
module ContextStream {
  import opened Bytes
  import opened StreamContext

  const MAX_RAW_FLUSH_CHUNK: nat := 8 * 1024 * 1024
  const SEND_BUFFER_EARLY_FLUSH: nat := 1024 * 1024
  const BATCH_INTERVAL: nat := 20
  const RAW_READ_LEN: nat := 65536

  datatype Lz4 = Lz4(compress: seq<byte> -> seq<byte>, decompress: seq<byte> -> Option<seq<byte>>)

  ghost predicate Lossless(z: Lz4) {
    forall d: seq<byte> :: z.decompress(z.compress(d)) == Some(d)
  }

  /** Worst-case expansion: a tenth and a constant, more than lz4's 0.4%. */
  ghost predicate Bounded(z: Lz4) {
    forall d: seq<byte> :: |z.compress(d)| <= |d| + |d| / 10 + 24
  }

  // ----- one framed message -----

  /** The 32-bit length of an uncompressed frame, as computed with wrapping additions. */
  function PlainTotal(len: nat): nat {
    (1 + len % 0x1_0000_0000) % 0x1_0000_0000
  }

  /** `send_framed`: the bytes written, or None for "message too large". */
  function SendFramed(z: Lz4, data: seq<byte>, compress: bool): Option<seq<byte>> {
    if compress then
      var payload := z.compress(data);
      if 1 + |payload| > MAX_MESSAGE_SIZE then None
      else Some(BE32(1 + |payload|) + ([1] + payload))
    else if PlainTotal(|data|) > MAX_MESSAGE_SIZE then None
    else Some(BE32(PlainTotal(|data|)) + ([0] + data))
  }

  datatype Received = Frame(data: seq<byte>, rest: seq<byte>) | NeedMore | OutOfSync

  /** `recv_framed` on the bytes that have arrived. */
  function RecvFramed(z: Lz4, wire: seq<byte>): (r: Received)
    ensures r.Frame? ==> |r.rest| < |wire|
  {
    if |wire| < 4 then NeedMore else
      var total := FromBE32(wire[..4]);
      if !(1 <= total <= MAX_MESSAGE_SIZE) then OutOfSync
      else if |wire| < 4 + total then NeedMore
      else
        var flags, payload := wire[4], wire[5..4 + total];
        if flags % 2 == 1 then
          match z.decompress(payload)
          case None => OutOfSync
          case Some(d) => Frame(d, wire[4 + total..])
        else Frame(payload, wire[4 + total..])
  }

  /** How a frame announced as `1 + len` bytes is read back: the low bit of its flags means compressed. */
  lemma RecvOfAnnounced(z: Lz4, flag: byte, body: seq<byte>, rest: seq<byte>, len: nat)
    requires len <= |body| && 1 + len <= MAX_MESSAGE_SIZE
    ensures RecvFramed(z, BE32(1 + len) + ([flag] + body) + rest)
         == if flag % 2 == 0 then Frame(body[..len], body[len..] + rest)
            else match z.decompress(body[..len])
                 case None => OutOfSync
                 case Some(d) => Frame(d, body[len..] + rest)
  {
    hide BE32, FromBE32;
    var wire := BE32(1 + len) + ([flag] + body) + rest;
    BE32RoundTrip(1 + len);
    assert wire[..4] == BE32(1 + len);
    assert wire[4] == flag && wire[5..5 + len] == body[..len];
    assert wire[5 + len..] == body[len..] + rest;
  }

  lemma CompressedFrameComesBack(z: Lz4, data: seq<byte>, rest: seq<byte>)
    requires Lossless(z) && SendFramed(z, data, true).Some?
    ensures RecvFramed(z, SendFramed(z, data, true).value + rest) == Frame(data, rest)
  {
    var payload := z.compress(data);
    RecvOfAnnounced(z, 1, payload, rest, |payload|);
    assert payload[..|payload|] == payload && payload[|payload|..] + rest == rest;
  }

  lemma RecvOfZero(z: Lz4, tail: seq<byte>, rest: seq<byte>)
    ensures RecvFramed(z, BE32(0) + tail + rest) == OutOfSync
  {
    hide BE32, FromBE32;
    BE32RoundTrip(0);
    assert (BE32(0) + tail + rest)[..4] == BE32(0);
  }

  /**
    An uncompressed frame that is accepted comes back as it went in exactly when the message
    is under 16 MiB. Messages just over a multiple of 4 GiB are accepted too, because the
    length wraps at 32 bits, and are then cut short or rejected by the receiver.
   */
  lemma PlainFrameFaithfulIff(z: Lz4, data: seq<byte>, rest: seq<byte>)
    requires SendFramed(z, data, false).Some?
    ensures RecvFramed(z, SendFramed(z, data, false).value + rest) == Frame(data, rest)
            <==> |data| < 0x100_0000
  {
    hide BE32, RecvFramed;
    var total := PlainTotal(|data|);
    if total >= 1 {
      RecvOfAnnounced(z, 0, data, rest, total - 1);
      if total == 1 + |data| {
        assert data[..|data|] == data && data[|data|..] + rest == rest;
      } else {
        assert |data[..total - 1]| != |data|;
      }
    } else {
      RecvOfZero(z, [0] + data, rest);
    }
  }

  /** A message of 4 GiB passes the size check and arrives as an empty message. */
  lemma FourGiBMessageIsLost(z: Lz4, data: seq<byte>)
    requires |data| == 0x1_0000_0000
    ensures SendFramed(z, data, false).Some?
    ensures RecvFramed(z, SendFramed(z, data, false).value) == Frame([], data)
  {
    RecvOfAnnounced(z, 0, data, [], 0);
    var wire := SendFramed(z, data, false).value;
    assert wire + [] == wire && data[..0] == [] && data[0..] + [] == data;
  }

  // ----- messages in transit -----

  /** The frames of `msgs`, one after the other. */
  ghost predicate CarriesAll(z: Lz4, wire: seq<byte>, msgs: seq<seq<byte>>)
    decreases |msgs|
  {
    if msgs == [] then wire == [] else
      var r := RecvFramed(z, wire);
      r.Frame? && r.data == msgs[0] && CarriesAll(z, r.rest, msgs[1..])
  }

  lemma RecvExtends(z: Lz4, wire: seq<byte>, more: seq<byte>)
    requires RecvFramed(z, wire).Frame?
    ensures var r := RecvFramed(z, wire);
            RecvFramed(z, wire + more) == Frame(r.data, r.rest + more)
  {
    hide FromBE32;
    var total := FromBE32(wire[..4]);
    assert (wire + more)[..4] == wire[..4];
    assert (wire + more)[5..4 + total] == wire[5..4 + total];
    assert (wire + more)[4 + total..] == wire[4 + total..] + more;
  }

  lemma {:induction false} CarriesConcat(z: Lz4, a: seq<byte>, ms: seq<seq<byte>>, b: seq<byte>, ns: seq<seq<byte>>)
    requires CarriesAll(z, a, ms) && CarriesAll(z, b, ns)
    ensures CarriesAll(z, a + b, ms + ns)
    decreases |ms|
  {
    hide RecvFramed;
    if ms == [] {
      assert a + b == b && ms + ns == ns;
    } else {
      RecvExtends(z, a, b);
      CarriesConcat(z, RecvFramed(z, a).rest, ms[1..], b, ns);
      assert (ms + ns)[1..] == ms[1..] + ns;
    }
  }

  lemma CarriesOne(z: Lz4, data: seq<byte>, compress: bool)
    requires Lossless(z) && SendFramed(z, data, compress).Some?
    requires !compress ==> |data| < MAX_MESSAGE_SIZE
    ensures CarriesAll(z, SendFramed(z, data, compress).value, [data])
  {
    hide RecvFramed, SendFramed;
    var w := SendFramed(z, data, compress).value;
    if compress {
      CompressedFrameComesBack(z, data, []);
    } else {
      PlainFrameFaithfulIff(z, data, []);
    }
    assert w + [] == w;
    assert CarriesAll(z, [], [data][1..]);
  }

  // ----- the sender -----

  /** What a sender has written so far and still buffers, and when it next flushes by itself. */
  datatype Tx = Tx(wire: seq<byte>, buffer: seq<byte>, nextFlush: nat)

  datatype Sending = SendOk(tx: Tx) | SendErr(tx: Tx)

  /** Drains the buffer in chunks of at most 8 MiB; a chunk that cannot be framed is lost. */
  function FlushStep(z: Lz4, tx: Tx, now: nat): Sending
    decreases |tx.buffer|
  {
    if tx.buffer == [] then SendOk(tx.(nextFlush := now + BATCH_INTERVAL)) else
      var end := Min(|tx.buffer|, MAX_RAW_FLUSH_CHUNK);
      var rest := tx.(buffer := tx.buffer[end..]);
      match SendFramed(z, tx.buffer[..end], true)
      case None => SendErr(rest)
      case Some(f) => FlushStep(z, rest.(wire := tx.wire + f), now)
  }

  function FlushSend(z: Lz4, tx: Tx, now: nat): Sending {
    if tx.buffer == [] then SendOk(tx) else FlushStep(z, tx, now)
  }

  /** `send_data` with the settings of the merged context. */
  function SendData(z: Lz4, ty: DataType, compressed: bool, tx: Tx, data: seq<byte>, now: nat): Sending {
    if data == [] then SendOk(tx)
    else if ty == Chunked then
      match SendFramed(z, data, compressed)
      case None => SendErr(tx)
      case Some(f) => SendOk(tx.(wire := tx.wire + f))
    else if compressed then
      var more := tx.(buffer := tx.buffer + data);
      if |more.buffer| >= SEND_BUFFER_EARLY_FLUSH || now >= tx.nextFlush then FlushSend(z, more, now)
      else SendOk(more)
    else
      SendOk(tx.(wire := tx.wire + data))
  }

  /** What fits a frame of 16 MiB; the length of an uncompressed one is computed on 32 bits. */
  predicate Fits(z: Lz4, ty: DataType, compressed: bool, data: seq<byte>) {
    ty == Chunked ==>
      if compressed then 1 + |z.compress(data)| <= 0x100_0000
      else (1 + |data|) % 0x1_0000_0000 <= 0x100_0000
  }

  lemma WrappedTotal(n: nat)
    ensures PlainTotal(n) == (1 + n) % 0x1_0000_0000
  {
  }

  /**
    A Chunked send succeeds exactly when the message fits, and then puts one frame on the
    wire that is compressed exactly when that was negotiated; otherwise it changes nothing.
   */
  lemma ChunkedSendIff(z: Lz4, compressed: bool, tx: Tx, data: seq<byte>, now: nat)
    requires data != []
    ensures var r := SendData(z, Chunked, compressed, tx, data, now);
            && (r.SendOk? <==> Fits(z, Chunked, compressed, data))
            && (r.SendErr? ==> r.tx == tx)
            && (r.SendOk? ==>
                  var payload := if compressed then z.compress(data) else data;
                  && |r.tx.wire| == |tx.wire| + 5 + |payload|
                  && r.tx.buffer == tx.buffer && r.tx.nextFlush == tx.nextFlush
                  && var f := r.tx.wire[|tx.wire|..];
                  && r.tx.wire == tx.wire + f
                  && f[4] == (if compressed then 1 else 0) && f[5..] == payload)
  {
    hide BE32;
    WrappedTotal(|data|);
    var f := SendFramed(z, data, compressed);
    if f.Some? {
      assert (tx.wire + f.value)[|tx.wire|..] == f.value;
    }
  }

  /** That frame is read back as the message, if the receiver shares the compressor and no length wrapped. */
  lemma ChunkedFrameComesBack(z: Lz4, compressed: bool, tx: Tx, data: seq<byte>, now: nat)
    requires Lossless(z) && data != [] && Fits(z, Chunked, compressed, data)
    requires !compressed ==> |data| < 0x100_0000
    ensures var r := SendData(z, Chunked, compressed, tx, data, now);
            && |r.tx.wire| >= |tx.wire|
            && RecvFramed(z, r.tx.wire[|tx.wire|..]) == Frame(data, [])
  {
    hide SendFramed, RecvFramed;
    ChunkedSendIff(z, compressed, tx, data, now);
    var f := SendFramed(z, data, compressed).value;
    assert (tx.wire + f)[|tx.wire|..] == f && f + [] == f;
    if compressed {
      CompressedFrameComesBack(z, data, []);
    } else {
      PlainFrameFaithfulIff(z, data, []);
    }
  }

  /** Raw and uncompressed, a send always succeeds and the bytes go out as they are; nothing to send is nothing done. */
  lemma RawSendIs(z: Lz4, ty: DataType, compressed: bool, tx: Tx, data: seq<byte>, now: nat)
    ensures SendData(z, Raw, false, tx, data, now) == SendOk(tx.(wire := tx.wire + data))
    ensures SendData(z, ty, compressed, tx, [], now) == SendOk(tx)
  {
    assert tx.wire + [] == tx.wire;
  }

  /** A raw receive takes as many bytes as arrived, up to what was asked and 64 KiB, and waits for none. */
  lemma RawRecvIs(z: Lz4, arrived: seq<byte>, n: nat)
    ensures var r := RecvData(z, Raw, false, arrived, n);
            && !r.OutOfSync?
            && (r.NeedMore? <==> arrived == [] || n == 0)
            && (r.Frame? ==> r.data + r.rest == arrived && |r.data| == Min(Min(n, 65536), |arrived|))
  {
  }

  /** A stream end: its merged settings, the bytes it writes, and the bytes arrived from its peer. */
  class Stream {
    const z: Lz4
    const context: Context
    var wire: seq<byte>
    var sendBuffer: seq<byte>
    var nextSendFlush: nat
    var arrived: seq<byte>

    constructor (z: Lz4, context: Context, now: nat)
      ensures this.z == z && this.context == context
      ensures State() == Tx([], [], now + 20) && arrived == []
    {
      this.z, this.context := z, context;
      wire, sendBuffer, nextSendFlush, arrived := [], [], now + BATCH_INTERVAL, [];
    }

    ghost function State(): Tx
      reads this
    {
      Tx(wire, sendBuffer, nextSendFlush)
    }

    /** Framing one message, compressed or not. */
    method WriteFramed(data: seq<byte>, compress: bool) returns (ok: bool)
      modifies this`wire
      ensures var f := SendFramed(z, data, compress);
              ok == f.Some? && wire == old(wire) + if ok then f.value else []
    {
      if compress {
        var payload := z.compress(data);
        var total := 1 + |payload|;
        if total > MAX_MESSAGE_SIZE {
          return false;
        }
        var header := BE32(total) + [1];
        wire := wire + header;
        wire := wire + payload;
        assert wire == old(wire) + (BE32(total) + ([1] + payload));
        return true;
      }
      var total := (1 + |data| % 0x1_0000_0000) % 0x1_0000_0000;
      if total > MAX_MESSAGE_SIZE {
        return false;
      }
      var header := BE32(total) + [0];
      wire := wire + header;
      wire := wire + data;
      assert wire == old(wire) + (BE32(total) + ([0] + data));
      return true;
    }

    method Flush(now: nat) returns (ok: bool)
      modifies this`wire, this`sendBuffer, this`nextSendFlush
      ensures (if ok then SendOk(State()) else SendErr(State())) == FlushSend(z, old(State()), now)
    {
      if sendBuffer == [] {
        return true;
      }
      while sendBuffer != []
        invariant FlushStep(z, State(), now) == FlushStep(z, old(State()), now)
        decreases |sendBuffer|
      {
        var end := Min(|sendBuffer|, MAX_RAW_FLUSH_CHUNK);
        var chunk := sendBuffer[..end];
        sendBuffer := sendBuffer[end..];
        var sent := WriteFramed(chunk, true);
        if !sent {
          return false;
        }
      }
      nextSendFlush := now + BATCH_INTERVAL;
      return true;
    }

    method Send(data: seq<byte>, now: nat) returns (ok: bool)
      modifies this`wire, this`sendBuffer, this`nextSendFlush
      ensures (if ok then SendOk(State()) else SendErr(State()))
           == SendData(z, context.sendType, context.sendCompressed, old(State()), data, now)
    {
      if data == [] {
        return true;
      }
      if context.sendType == Chunked {
        ok := WriteFramed(data, context.sendCompressed);
        return;
      }
      if context.sendCompressed {
        sendBuffer := sendBuffer + data;
        if |sendBuffer| >= SEND_BUFFER_EARLY_FLUSH {
          ok := Flush(now);
          return;
        }
        if now >= nextSendFlush {
          ok := Flush(now);
          return;
        }
        return true;
      }
      wire := wire + data;
      return true;
    }

    /**
      `recv_data` on what has arrived; `n` is how many bytes an unframed read returns.
      NeedMore stands for waiting, and for the end of the stream once it is closed.
     */
    method Recv(n: nat) returns (r: Received)
      modifies this`arrived
      ensures r == RecvData(z, context.recvType, context.recvCompressed, old(arrived), n)
      ensures arrived == if r.Frame? then r.rest else old(arrived)
    {
      if context.recvType == Chunked || context.recvCompressed {
        r := RecvFramed(z, arrived);
      } else {
        var k := Min(Min(n, RAW_READ_LEN), |arrived|);
        r := if k == 0 then NeedMore else Frame(arrived[..k], arrived[k..]);
      }
      if r.Frame? {
        arrived := r.rest;
      }
    }
  }

  function RecvData(z: Lz4, ty: DataType, compressed: bool, arrived: seq<byte>, n: nat): Received {
    if ty == Chunked || compressed then RecvFramed(z, arrived) else
      var k := Min(Min(n, RAW_READ_LEN), |arrived|);
      if k == 0 then NeedMore else Frame(arrived[..k], arrived[k..])
  }

  // ----- flushing -----

  /** No frame of a flush is refused: 8 MiB stays under 16 MiB after the worst expansion. */
  lemma ChunkFits(z: Lz4, chunk: seq<byte>)
    requires Bounded(z) && |chunk| <= 0x80_0000
    ensures SendFramed(z, chunk, true).Some?
  {
    assert |z.compress(chunk)| <= |chunk| + |chunk| / 10 + 24;
  }

  /** A flush succeeds, empties the buffer, and puts exactly its bytes on the wire, in frames. */
  lemma {:induction false} FlushDelivers(z: Lz4, tx: Tx, now: nat, msgs: seq<seq<byte>>) returns (more: seq<seq<byte>>)
    requires Lossless(z) && Bounded(z) && CarriesAll(z, tx.wire, msgs)
    ensures var r := FlushStep(z, tx, now);
            && r.SendOk? && r.tx.buffer == []
            && CarriesAll(z, r.tx.wire, msgs + more)
            && Flatten(more) == tx.buffer
            && r.tx.nextFlush == now + 20
            && (forall i | 0 <= i < |more| :: 0 < |more[i]| <= 0x80_0000)
            && (forall i | 0 <= i < |more| - 1 :: |more[i]| == 0x80_0000)
    decreases |tx.buffer|
  {
    hide CarriesAll, SendFramed;
    if tx.buffer == [] {
      more := [];
      assert msgs + [] == msgs;
    } else {
      var end := Min(|tx.buffer|, MAX_RAW_FLUSH_CHUNK);
      var chunk, rest := tx.buffer[..end], tx.buffer[end..];
      ChunkFits(z, chunk);
      CarriesOne(z, chunk, true);
      var f := SendFramed(z, chunk, true).value;
      CarriesConcat(z, tx.wire, msgs, f, [chunk]);
      var later := FlushDelivers(z, Tx(tx.wire + f, rest, tx.nextFlush), now, msgs + [chunk]);
      more := [chunk] + later;
      Assoc(msgs, [chunk], later);
      assert tx.buffer == chunk + rest && more[1..] == later;
    }
  }

  /** After a send in Raw + compressed mode the buffer is under 1 MiB, always. */
  lemma BufferStaysSmall(z: Lz4, tx: Tx, data: seq<byte>, now: nat)
    requires Lossless(z) && Bounded(z) && |tx.buffer| < 0x10_0000
    ensures var r := SendData(z, Raw, true, tx, data, now);
            r.SendOk? && |r.tx.buffer| < 0x10_0000
  {
    var clear := Tx([], tx.buffer + data, tx.nextFlush);
    var more := FlushDelivers(z, clear, now, []);
    FlushIgnoresWire(z, tx.(buffer := tx.buffer + data), clear, now);
  }

  /**
    A Raw + compressed send empties the buffer exactly when it has reached 1 MiB or the timer
    has run out, and then restarts the timer; otherwise it writes nothing and keeps the timer.
   */
  lemma FlushesExactlyWhen(z: Lz4, tx: Tx, data: seq<byte>, now: nat)
    requires Lossless(z) && Bounded(z) && data != []
    ensures var r := SendData(z, Raw, true, tx, data, now);
            && r.SendOk?
            && (r.tx.buffer == [] <==> |tx.buffer| + |data| >= 0x10_0000 || now >= tx.nextFlush)
            && r.tx == (if r.tx.buffer == [] then Tx(r.tx.wire, [], now + 20)
                        else Tx(tx.wire, tx.buffer + data, tx.nextFlush))
  {
    hide CarriesAll, SendFramed;
    var clear := Tx([], tx.buffer + data, tx.nextFlush);
    assert CarriesAll(z, clear.wire, []) by { EmptyCarriesNothing(z); }
    var more := FlushDelivers(z, clear, now, []);
    FlushIgnoresWire(z, tx.(buffer := tx.buffer + data), clear, now);
  }

  lemma EmptyCarriesNothing(z: Lz4)
    ensures CarriesAll(z, [], [])
  {
  }

  /** What is already on the wire does not influence a flush. */
  lemma {:induction false} FlushIgnoresWire(z: Lz4, a: Tx, b: Tx, now: nat)
    requires a.buffer == b.buffer
    ensures var r, s := FlushStep(z, a, now), FlushStep(z, b, now);
            r.SendOk? == s.SendOk? && r.tx.buffer == s.tx.buffer && (r.SendOk? ==> r.tx.nextFlush == s.tx.nextFlush)
    decreases |a.buffer|
  {
    hide SendFramed;
    if a.buffer != [] {
      var end := Min(|a.buffer|, MAX_RAW_FLUSH_CHUNK);
      match SendFramed(z, a.buffer[..end], true) {
        case None =>
        case Some(f) =>
          var a', b' := Tx(a.wire + f, a.buffer[end..], a.nextFlush), Tx(b.wire + f, b.buffer[end..], b.nextFlush);
          FlushIgnoresWire(z, a', b', now);
      }
    }
  }
}
