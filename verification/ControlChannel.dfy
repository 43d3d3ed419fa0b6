/**
  Length-prefixed control messages over a virtual stream: [u32 length][payload].
  The receivers are the shell's (one reused buffer) and the server's (a fresh buffer per
  read); both read through `VirtualStream.PollRead`, so chunks may be cut anywhere.
  Nothing arrives during a call: what the stream will ever deliver is already queued.
 */
module ControlChannel {
  import opened Bytes
  import opened KcpTransport
  import KcpSystem

  const MAX_CONTROL: nat := 16 * 1024 * 1024

  /** The length is cast to 32 bits, as the senders do. */
  function EncodeControl(payload: seq<byte>): (out: seq<byte>)
    ensures |out| == 4 + |payload|
  {
    BE32(|payload| % 0x1_0000_0000) + payload
  }

  // ----- the receiver's view of a byte string -----

  /** `rest` is what the stream still holds afterwards. */
  datatype Next = Message(payload: seq<byte>, rest: seq<byte>) | TooLarge(rest: seq<byte>) | Starved

  function NextMessage(bs: seq<byte>): Next {
    if |bs| < 4 then
      Starved
    else
      var len := FromBE32(bs[..4]);
      if len > MAX_CONTROL then TooLarge(bs[4..])
      else if |bs| < 4 + len then Starved
      else Message(bs[4..4 + len], bs[4 + len..])
  }

  /** All messages a receiver gets out of `bs`, one call after the other. */
  function ReceiveAll(bs: seq<byte>): seq<seq<byte>>
    decreases |bs|
  {
    var n := NextMessage(bs);
    if n.Message? then [n.payload] + ReceiveAll(n.rest) else []
  }

  function EncodeAll(msgs: seq<seq<byte>>): seq<byte> {
    if msgs == [] then [] else EncodeControl(msgs[0]) + EncodeAll(msgs[1..])
  }

  predicate Sendable(msgs: seq<seq<byte>>) {
    forall i | 0 <= i < |msgs| :: |msgs[i]| <= 0x100_0000
  }

  lemma NextIsFirst(payload: seq<byte>, rest: seq<byte>)
    requires |payload| <= 0x100_0000
    ensures NextMessage(EncodeControl(payload) + rest) == Message(payload, rest)
  {
    hide BE32, FromBE32;
    var bs := EncodeControl(payload) + rest;
    BE32RoundTrip(|payload|);
    assert bs[..4] == BE32(|payload|);
    assert bs[4..4 + |payload|] == payload;
    assert bs[4 + |payload|..] == rest;
  }

  /** A payload arrives exactly when it is within 16 MiB; its length prefix wraps at 32 bits. */
  lemma ArrivesIff(payload: seq<byte>, rest: seq<byte>)
    ensures NextMessage(EncodeControl(payload) + rest) == Message(payload, rest) <==> |payload| <= 0x100_0000
  {
    if |payload| <= MAX_CONTROL {
      NextIsFirst(payload, rest);
    } else {
      var n := NextMessage(EncodeControl(payload) + rest);
      assert n.Message? ==> |n.payload| <= MAX_CONTROL;
    }
  }

  /** A prefix over the limit is refused, whatever follows, and nothing is delivered. */
  lemma OversizeIsRefused(payload: seq<byte>, rest: seq<byte>)
    requires |payload| % 0x1_0000_0000 > 0x100_0000
    ensures ReceiveAll(EncodeControl(payload) + rest) == []
  {
    var bs := EncodeControl(payload) + rest;
    BE32RoundTrip(|payload| % 0x1_0000_0000);
    assert bs[..4] == BE32(|payload| % 0x1_0000_0000);
  }

  /** The messages come out as they went in, and then whatever the tail holds. */
  lemma {:induction false} ReceiveEncoded(msgs: seq<seq<byte>>, tail: seq<byte>)
    requires Sendable(msgs)
    ensures ReceiveAll(EncodeAll(msgs) + tail) == msgs + ReceiveAll(tail)
  {
    if msgs == [] {
      assert EncodeAll(msgs) + tail == tail;
    } else {
      Assoc(EncodeControl(msgs[0]), EncodeAll(msgs[1..]), tail);
      NextIsFirst(msgs[0], EncodeAll(msgs[1..]) + tail);
      ReceiveEncoded(msgs[1..], tail);
      Assoc([msgs[0]], msgs[1..], ReceiveAll(tail));
      assert msgs == [msgs[0]] + msgs[1..];
    }
  }

  /** More bytes can only add messages at the end. */
  lemma {:induction false} ReceiveIsMonotone(a: seq<byte>, b: seq<byte>)
    requires a <= b
    ensures ReceiveAll(a) <= ReceiveAll(b)
    decreases |a|
  {
    if NextMessage(a).Message? {
      NextExtends(a, b);
      ReceiveIsMonotone(NextMessage(a).rest, NextMessage(b).rest);
    }
  }

  lemma NextExtends(a: seq<byte>, b: seq<byte>)
    requires a <= b && NextMessage(a).Message?
    ensures NextMessage(b).Message? && NextMessage(b).payload == NextMessage(a).payload
    ensures NextMessage(a).rest <= NextMessage(b).rest
  {
    var len := |NextMessage(a).payload|;
    assert a[..4] == b[..4] && a[4..4 + len] == b[4..4 + len];
    assert a[4 + len..] <= b[4 + len..];
  }

  /**
    End to end: in every run of the connection, if A's writers on stream `id` have handed
    over some prefix of the encodings of `msgs`, then what B can receive from the bytes its
    reader got is a prefix of `msgs`: nothing lost in the middle, duplicated or reordered.
   */
  lemma ControlIsFifoOverKcp(aIds: set<byte>, bIds: set<byte>, run: seq<KcpSystem.Step>,
                             id: byte, msgs: seq<seq<byte>>)
    requires KcpSystem.IsRun(KcpSystem.Opened(aIds, bIds), run)
    requires KcpSystem.Live(KcpSystem.After(KcpSystem.Opened(aIds, bIds), run).b, id)
    requires Sendable(msgs)
    requires KcpSystem.SentOn(KcpSystem.After(KcpSystem.Opened(aIds, bIds), run).a, id) <= EncodeAll(msgs)
    ensures ReceiveAll(KcpSystem.After(KcpSystem.Opened(aIds, bIds), run).b.got[id]) <= msgs
  {
    var s := KcpSystem.After(KcpSystem.Opened(aIds, bIds), run);
    KcpSystem.EveryStreamIsFifo(aIds, bIds, run, id);
    ReceiveIsMonotone(s.b.got[id], EncodeAll(msgs));
    ReceiveEncoded(msgs, []);
    assert EncodeAll(msgs) + [] == EncodeAll(msgs);
    assert msgs + ReceiveAll([]) == msgs;
  }

  /**
    And nothing is missing: once A has sent the encodings of `msgs` in full, the wire is empty
    and no channel of B is full, what B's reader got, still buffers and has queued after the
    next pass decodes to exactly `msgs`; if it has read everything, it has received them all.
   */
  lemma ControlIsCompleteOverKcp(aIds: set<byte>, bIds: set<byte>, run: seq<KcpSystem.Step>,
                                 id: byte, msgs: seq<seq<byte>>)
    requires KcpSystem.IsRun(KcpSystem.Opened(aIds, bIds), run) && Sendable(msgs)
    requires var s := KcpSystem.After(KcpSystem.Opened(aIds, bIds), run);
             && KcpSystem.Live(s.b, id) && s.ab == [] && KcpSystem.Unsent(s.a) == []
             && KcpSystem.SentOn(s.a, id) == EncodeAll(msgs)
             && forall c <- s.b.routed.chans.Keys :: !Blocked(Route(s.b.routed).chans, c)
    ensures var b := KcpSystem.After(KcpSystem.Opened(aIds, bIds), run).b;
            var r := Route(b.routed);
            && r.unread == [] && id in r.chans
            && ReceiveAll(b.got[id] + b.leftover[id] + Flatten(r.chans[id].queue)) == msgs
            && (b.leftover[id] + Flatten(r.chans[id].queue) == [] ==> ReceiveAll(b.got[id]) == msgs)
  {
    var b := KcpSystem.After(KcpSystem.Opened(aIds, bIds), run).b;
    KcpSystem.DrainedMeansDelivered(aIds, bIds, run, id);
    ReceiveEncoded(msgs, []);
    assert EncodeAll(msgs) + [] == EncodeAll(msgs);
    assert msgs + ReceiveAll([]) == msgs;
    Assoc(b.got[id], b.leftover[id], Flatten(Route(b.routed).chans[id].queue));
    assert b.got[id] + [] == b.got[id];
  }

  // ----- the receivers -----

  /** What is left in a virtual stream for its reader. */
  ghost function Content(s: VirtualStream): seq<byte>
    requires s.Valid()
    reads s, s.readRx
  {
    s.Leftover() + Flatten(s.readRx.queue)
  }

  ghost predicate Readable(s: VirtualStream)
    reads s, s.readRx
  {
    s.Valid() && forall i | 0 <= i < |s.readRx.queue| :: s.readRx.queue[i] != []
  }

  /** One awaited read into `room` free bytes: a non-empty prefix, or None when nothing will come. */
  method ReadSome(s: VirtualStream, room: nat) returns (got: Option<seq<byte>>)
    requires Readable(s) && room > 0
    modifies s`readBuf, s`readBufOffset, s.readRx`queue
    ensures Readable(s)
    ensures got == None ==> old(Content(s)) == [] && Content(s) == []
    ensures got.Some? ==> 0 < |got.value| <= room && old(Content(s)) == got.value + Content(s)
  {
    ReadStepConserves(s.Leftover(), s.readRx.queue, s.readRx.senderAlive, room);
    var r := s.PollRead(room);
    match r {
      case Data(bytes) =>
        got := Some(bytes);
        Assoc(bytes, s.Leftover(), Flatten(s.readRx.queue));
      case _ =>
        got := None;
    }
  }

  /** A vector that grows on demand and is never cleared between messages. */
  class ReusedBuffer {
    var data: seq<byte>

    constructor ()
      ensures data == []
    {
      data := [];
    }

    method Resize(len: nat)
      modifies this
      ensures |data| == len
      ensures forall i | 0 <= i < Min(len, |old(data)|) :: data[i] == old(data)[i]
    {
      data := if len <= |data| then data[..len] else data + seq(len - |data|, _ => 0);
    }

    method Put(offset: nat, bytes: seq<byte>)
      requires offset + |bytes| <= |data|
      modifies this
      ensures data == old(data)[..offset] + bytes + old(data)[offset + |bytes|..]
      ensures |data| == |old(data)|
    {
      data := data[..offset] + bytes + data[offset + |bytes|..];
    }
  }

  datatype Received = Got(payload: seq<byte>) | Refused | StreamClosed

  /** Fills `buf[..len]` from the stream, however short the reads are. */
  method Fill(s: VirtualStream, buf: ReusedBuffer, len: nat) returns (ok: bool)
    requires Readable(s) && len <= |buf.data|
    modifies s`readBuf, s`readBufOffset, s.readRx`queue, buf
    ensures Readable(s) && |buf.data| == |old(buf.data)|
    ensures ok <==> len <= |old(Content(s))|
    ensures ok ==> buf.data[..len] == old(Content(s))[..len] && Content(s) == old(Content(s))[len..]
    ensures !ok ==> Content(s) == []
  {
    ghost var all := Content(s);
    var offset := 0;
    while offset < len
      invariant offset <= len && |buf.data| == |old(buf.data)|
      invariant Readable(s)
      invariant offset <= |all| && buf.data[..offset] == all[..offset] && Content(s) == all[offset..]
    {
      var got := ReadSome(s, len - offset);
      if got == None {
        return false;
      }
      assert all[offset..] == got.value + Content(s);
      assert all[offset..offset + |got.value|] == got.value;
      assert all[offset + |got.value|..] == Content(s);
      ghost var filled := buf.data[..offset];
      buf.Put(offset, got.value);
      assert buf.data[..offset + |got.value|] == filled + got.value;
      assert all[..offset + |got.value|] == all[..offset] + all[offset..offset + |got.value|];
      offset := offset + |got.value|;
    }
    return true;
  }

  /** The shell's receiver: whatever the buffer held before, only the message is returned. */
  method RecvControl(s: VirtualStream, buf: ReusedBuffer) returns (r: Received)
    requires Readable(s)
    modifies s`readBuf, s`readBufOffset, s.readRx`queue, buf
    ensures Readable(s)
    ensures match NextMessage(old(Content(s)))
            case Message(payload, rest) => r == Got(payload) && Content(s) == rest
            case TooLarge(rest) => r == Refused && Content(s) == rest
            case Starved => r == StreamClosed && Content(s) == []
  {
    ghost var all := Content(s);
    var lenBuf := new ReusedBuffer();
    lenBuf.Resize(4);
    var ok := Fill(s, lenBuf, 4);
    if !ok {
      return StreamClosed;
    }
    var len := FromBE32(lenBuf.data[..4]);
    if len > MAX_CONTROL {
      return Refused;
    }
    if |buf.data| < len {
      buf.Resize(len);
    }
    ok := Fill(s, buf, len);
    if !ok {
      return StreamClosed;
    }
    assert all[4..][..len] == all[4..4 + len] && all[4..][len..] == all[4 + len..];
    return Got(buf.data[..len]);
  }

  /** The server's `read_exact`: a fresh buffer per call. */
  method ReadExact(s: VirtualStream, n: nat) returns (r: Option<seq<byte>>)
    requires Readable(s)
    modifies s`readBuf, s`readBufOffset, s.readRx`queue
    ensures Readable(s)
    ensures n <= |old(Content(s))| ==> r == Some(old(Content(s))[..n]) && Content(s) == old(Content(s))[n..]
    ensures n > |old(Content(s))| ==> r == None && Content(s) == []
  {
    var buf := new ReusedBuffer();
    buf.Resize(n);
    var ok := Fill(s, buf, n);
    r := if ok then Some(buf.data[..n]) else None;
  }

  /** The server's receiver agrees with the shell's on every byte string. */
  method ServerRecvControl(s: VirtualStream) returns (r: Received)
    requires Readable(s)
    modifies s`readBuf, s`readBufOffset, s.readRx`queue
    ensures Readable(s)
    ensures match NextMessage(old(Content(s)))
            case Message(payload, rest) => r == Got(payload) && Content(s) == rest
            case TooLarge(rest) => r == Refused && Content(s) == rest
            case Starved => r == StreamClosed && Content(s) == []
  {
    ghost var all := Content(s);
    var lenBuf := ReadExact(s, 4);
    if lenBuf == None {
      return StreamClosed;
    }
    var len := FromBE32(lenBuf.value);
    if len > MAX_CONTROL {
      return Refused;
    }
    var data := ReadExact(s, len);
    if data == None {
      return StreamClosed;
    }
    assert all[4..][..len] == all[4..4 + len] && all[4..][len..] == all[4 + len..];
    return Got(data.value);
  }
}
