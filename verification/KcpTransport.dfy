/**
  The multiplexer of one KCP connection and its virtual streams, with the buffers and
  bounded channels they mutate. Each method is proved against a function of the old state;
  `KcpSystem` composes those functions into runs of a whole connection.
 */
module KcpTransport {
  import opened Bytes
  import opened KcpFrame

  const WRITE_CHANNEL_CAPACITY: nat := 512
  const STREAM_CHANNEL_CAPACITY: nat := 2048
  const MAX_BATCH_FRAMES: nat := 64

  // ----- routing, as a function of the unread bytes and the stream channels -----

  /** A stream's channel: what is queued, and whether its reader still exists. */
  datatype Chan = Chan(queue: seq<seq<byte>>, receiverAlive: bool)

  type Chans = map<byte, Chan>

  datatype Routed = Routed(unread: seq<byte>, chans: Chans)

  predicate Blocked(chans: Chans, id: byte) {
    id in chans && chans[id].receiverAlive && |chans[id].queue| >= STREAM_CHANNEL_CAPACITY
  }

  /** Frames for unknown streams and for closed channels are dropped. */
  function Deliver(chans: Chans, id: byte, payload: seq<byte>): Chans {
    if id in chans && chans[id].receiverAlive then
      chans[id := chans[id].(queue := chans[id].queue + [payload])]
    else
      chans
  }

  predicate CanRoute(r: Routed) {
    var d := DecodeFrame(r.unread);
    d.Complete? && !Blocked(r.chans, d.id)
  }

  function RouteOne(r: Routed): (out: Routed)
    requires CanRoute(r)
    ensures |out.unread| < |r.unread|
  {
    var d := DecodeFrame(r.unread);
    Routed(r.unread[d.consumed..], Deliver(r.chans, d.id, d.payload))
  }

  function Route(r: Routed): Routed
    decreases |r.unread|
  {
    if CanRoute(r) then Route(RouteOne(r)) else r
  }

  /** A complete head frame is held back exactly by a live reader whose channel holds 2048 chunks. */
  lemma BlockedIff(r: Routed)
    requires DecodeFrame(r.unread).Complete?
    ensures var id := DecodeFrame(r.unread).id;
            CanRoute(r) <==> id !in r.chans || !r.chans[id].receiverAlive || |r.chans[id].queue| < 2048
  {
  }

  /** The head frame of a stream that is unknown or has lost its reader is dropped, and nothing else happens. */
  lemma LostFrameIsDropped(r: Routed)
    requires DecodeFrame(r.unread).Complete?
    requires var id := DecodeFrame(r.unread).id; id !in r.chans || !r.chans[id].receiverAlive
    ensures CanRoute(r) && RouteOne(r) == Routed(r.unread[5 + |DecodeFrame(r.unread).payload|..], r.chans)
  {
  }

  /** `to` is reached from `r` by routing exactly `n` complete frames in order. */
  ghost predicate RoutesTo(r: Routed, n: nat, to: Routed)
    decreases n
  {
    if n == 0 then r == to else CanRoute(r) && RoutesTo(RouteOne(r), n - 1, to)
  }

  /** Routing stops exactly where no complete frame heads the bytes or its channel is full. */
  lemma {:induction false} RouteReaches(r: Routed) returns (n: nat)
    ensures RoutesTo(r, n, Route(r)) && !CanRoute(Route(r))
    decreases |r.unread|
  {
    if CanRoute(r) {
      var k := RouteReaches(RouteOne(r));
      n := k + 1;
    } else {
      n := 0;
    }
  }

  /** Greedy: whatever prefix of frames could be routed, `Route` routes it and goes on. */
  lemma {:induction false} RouteIsMaximal(r: Routed, n: nat, to: Routed)
    requires RoutesTo(r, n, to)
    ensures Route(to) == Route(r)
    ensures |Route(r).unread| <= |to.unread|
    decreases n
  {
    if n == 0 {
      RouteShrinks(r);
    } else {
      RouteIsMaximal(RouteOne(r), n - 1, to);
    }
  }

  lemma {:induction false} RouteShrinks(r: Routed)
    ensures |Route(r).unread| <= |r.unread|
    decreases |r.unread|
  {
    if CanRoute(r) { RouteShrinks(RouteOne(r)); }
  }

  /**
    Lossless: for a stream whose reader exists, what is queued plus what the bytes still
    carry (including any bytes that have not arrived yet) is the same before and after.
   */
  lemma {:induction false} RouteConserves(r: Routed, id: byte, rest: seq<byte>)
    requires id in r.chans && r.chans[id].receiverAlive
    ensures Route(r).chans.Keys == r.chans.Keys
    ensures Route(r).chans[id].receiverAlive
    ensures Ahead(Route(r), id, rest) == Ahead(r, id, rest)
    decreases |r.unread|
  {
    if CanRoute(r) {
      RouteOneConserves(r, id, rest);
      RouteConserves(RouteOne(r), id, rest);
    }
  }

  /** What stream `id` has still to read: its queue, then what the bytes carry for it. */
  ghost function Ahead(r: Routed, id: byte, rest: seq<byte>): seq<byte>
    requires id in r.chans
  {
    Flatten(r.chans[id].queue) + PayloadOf(id, r.unread + rest)
  }

  lemma RouteOneConserves(r: Routed, id: byte, rest: seq<byte>)
    requires CanRoute(r) && id in r.chans && r.chans[id].receiverAlive
    ensures RouteOne(r).chans.Keys == r.chans.Keys
    ensures RouteOne(r).chans[id].receiverAlive
    ensures Ahead(RouteOne(r), id, rest) == Ahead(r, id, rest)
  {
    var d := DecodeFrame(r.unread);
    var one := RouteOne(r);
    TailOfConcat(r.unread, rest);
    PayloadStep(id, r.unread + rest);
    var later := PayloadOf(id, one.unread + rest);
    if d.id == id {
      calc {
        Ahead(one, id, rest);
        Flatten(r.chans[id].queue + [d.payload]) + later;
        { FlattenAppend(r.chans[id].queue, d.payload); }
        Flatten(r.chans[id].queue) + d.payload + later;
        Flatten(r.chans[id].queue) + (d.payload + later);
        Ahead(r, id, rest);
      }
    } else {
      assert PayloadOf(id, r.unread + rest) == [] + later == later;
    }
  }

  lemma {:induction false} RouteKeepsFraming(r: Routed, rest: seq<byte>)
    requires WellFramed(r.unread + rest)
    ensures WellFramed(Route(r).unread + rest)
    decreases |r.unread|
  {
    if CanRoute(r) {
      TailOfConcat(r.unread, rest);
      RouteKeepsFraming(RouteOne(r), rest);
    }
  }

  /** No queue is over capacity or holds an empty chunk. */
  ghost predicate ChansOk(chans: Chans) {
    forall id <- chans.Keys ::
      && |chans[id].queue| <= STREAM_CHANNEL_CAPACITY
      && forall i | 0 <= i < |chans[id].queue| :: chans[id].queue[i] != []
  }

  lemma {:induction false} RouteKeepsChans(r: Routed, rest: seq<byte>)
    requires ChansOk(r.chans) && WellFramed(r.unread + rest)
    ensures ChansOk(Route(r).chans)
    ensures Route(r).chans.Keys == r.chans.Keys
    ensures forall id <- r.chans.Keys :: Route(r).chans[id].receiverAlive == r.chans[id].receiverAlive
    decreases |r.unread|
  {
    if CanRoute(r) {
      TailOfConcat(r.unread, rest);
      RouteKeepsChans(RouteOne(r), rest);
    }
  }

  /**
    A buffer that does not start with the magic bytes is never skipped over: the comment at
    the mismatch says "skip one byte and try again", the code stops for good.
   */
  lemma NoResynchronisation(r: Routed, more: seq<byte>)
    requires |r.unread| >= 2 && r.unread[..2] != FRAME_MAGIC
    ensures Route(Routed(r.unread + more, r.chans)) == Routed(r.unread + more, r.chans)
  {
    var u := r.unread + more;
    assert r.unread[..2] == [u[0], u[1]];
  }

  // ----- reading, as a function of the leftover and the queue -----

  datatype Reading = Data(bytes: seq<byte>) | Eof | Pending

  datatype ReadState = ReadState(result: Reading, leftover: seq<byte>, queue: seq<seq<byte>>)

  function ReadStep(leftover: seq<byte>, queue: seq<seq<byte>>, senderAlive: bool, cap: nat): ReadState {
    if leftover != [] then
      var n := Min(|leftover|, cap);
      ReadState(Data(leftover[..n]), leftover[n..], queue)
    else if queue != [] then
      var n := Min(|queue[0]|, cap);
      ReadState(Data(queue[0][..n]), queue[0][n..], queue[1..])
    else
      ReadState(if senderAlive then Pending else Eof, leftover, queue)
  }

  function Taken(r: Reading): seq<byte> {
    if r.Data? then r.bytes else []
  }

  /** A read hands out the next bytes in order, and never an empty chunk into a non-empty buffer. */
  lemma ReadStepConserves(leftover: seq<byte>, queue: seq<seq<byte>>, senderAlive: bool, cap: nat)
    requires forall i | 0 <= i < |queue| :: queue[i] != []
    ensures var s := ReadStep(leftover, queue, senderAlive, cap);
            && Taken(s.result) + s.leftover + Flatten(s.queue) == leftover + Flatten(queue)
            && |Taken(s.result)| <= cap
            && (s.result.Data? && cap > 0 ==> s.result.bytes != [])
            && (!s.result.Data? <==> leftover + Flatten(queue) == [])
            && (s.result == Eof <==> leftover + Flatten(queue) == [] && !senderAlive)
            && (s.result == Pending <==> leftover + Flatten(queue) == [] && senderAlive)
  {
    var s := ReadStep(leftover, queue, senderAlive, cap);
    if leftover != [] {
      assert Taken(s.result) + s.leftover == leftover;
    } else if queue != [] {
      assert Taken(s.result) + s.leftover == queue[0];
      assert leftover + Flatten(queue) == queue[0] + Flatten(queue[1..]);
    }
  }

  // ----- the bounded channel both sides share -----

  datatype SendResult = Sent | Full | Closed

  /** A bounded multi-producer channel with non-blocking ends. */
  class Channel {
    const capacity: nat
    var queue: seq<seq<byte>>
    var receiverAlive: bool
    var senderAlive: bool

    constructor (capacity: nat)
      ensures this.capacity == capacity && queue == [] && receiverAlive && senderAlive
    {
      this.capacity := capacity;
      queue, receiverAlive, senderAlive := [], true, true;
    }

    method TrySend(item: seq<byte>) returns (r: SendResult)
      modifies this`queue
      ensures r == if !receiverAlive then Closed else if |old(queue)| >= capacity then Full else Sent
      ensures queue == if r == Sent then old(queue) + [item] else old(queue)
    {
      if !receiverAlive {
        return Closed;
      }
      if |queue| >= capacity {
        return Full;
      }
      queue := queue + [item];
      return Sent;
    }

    method TryRecv() returns (r: Option<seq<byte>>)
      modifies this`queue
      ensures old(queue) == [] ==> r == None && queue == []
      ensures old(queue) != [] ==> r == Some(old(queue)[0]) && queue == old(queue)[1..]
    {
      if queue == [] {
        return None;
      }
      r := Some(queue[0]);
      queue := queue[1..];
    }
  }

  datatype Writing = Written(n: nat) | WritePending | BrokenPipe

  /** What `copy_within(from.., 0)` leaves in a buffer: its tail moved to the front, same length. */
  function CopyToFront(buf: seq<byte>, from: nat): (r: seq<byte>)
    requires from <= |buf|
    ensures |r| == |buf|
    ensures r[..|buf| - from] == buf[from..]
  {
    buf[from..] + buf[|buf| - from..]
  }

  // ----- a virtual stream -----

  class VirtualStream {
    const id: byte
    const writeTx: Channel
    const readRx: Channel
    var readBuf: seq<byte>
    var readBufOffset: nat

    constructor (id: byte, writeTx: Channel, readRx: Channel)
      requires writeTx != readRx
      ensures this.id == id && this.writeTx == writeTx && this.readRx == readRx
      ensures Valid() && Leftover() == []
    {
      this.id, this.writeTx, this.readRx := id, writeTx, readRx;
      readBuf, readBufOffset := [], 0;
    }

    ghost predicate Valid()
      reads this
    {
      writeTx != readRx && readBufOffset <= |readBuf|
    }

    /** Bytes received from the channel that did not fit the caller's buffer. */
    ghost function Leftover(): seq<byte>
      requires Valid()
      reads this
    {
      readBuf[readBufOffset..]
    }

    /** One frame per call; a full channel takes nothing. */
    method PollWrite(buf: seq<byte>) returns (r: Writing)
      requires Valid()
      modifies writeTx`queue
      ensures buf == [] ==> r == Written(0) && writeTx.queue == old(writeTx.queue)
      ensures buf != [] && !writeTx.receiverAlive ==>
                r == BrokenPipe && writeTx.queue == old(writeTx.queue)
      ensures buf != [] && writeTx.receiverAlive && |old(writeTx.queue)| >= writeTx.capacity ==>
                r == WritePending && writeTx.queue == old(writeTx.queue)
      ensures buf != [] && writeTx.receiverAlive && |old(writeTx.queue)| < writeTx.capacity ==>
                && r == Written(if |buf| < 65535 then |buf| else 65535)
                && writeTx.queue == old(writeTx.queue) + [EncodeFrame(id, buf[..r.n])]
    {
      if buf == [] {
        return Written(0);
      }
      var chunkLen := Min(|buf|, MAX_FRAME_PAYLOAD);
      var frame: seq<byte> := FRAME_MAGIC;
      frame := frame + [id];
      frame := frame + BE16(chunkLen);
      frame := frame + buf[..chunkLen];
      var sent := writeTx.TrySend(frame);
      match sent {
        case Sent => r := Written(chunkLen);
        case Full => r := WritePending;
        case Closed => r := BrokenPipe;
      }
    }

    method MaybeCompactReadBuf()
      requires Valid()
      modifies this`readBuf, this`readBufOffset
      ensures Valid() && Leftover() == old(Leftover())
    {
      if readBufOffset > 1024 && readBufOffset > |readBuf| / 2 {
        var remaining := |readBuf| - readBufOffset;
        readBuf := CopyToFront(readBuf, readBufOffset);
        readBuf := readBuf[..remaining];
        readBufOffset := 0;
      }
    }

    method PollRead(cap: nat) returns (r: Reading)
      requires Valid()
      modifies this`readBuf, this`readBufOffset, readRx`queue
      ensures Valid()
      ensures ReadState(r, Leftover(), readRx.queue)
           == ReadStep(old(Leftover()), old(readRx.queue), readRx.senderAlive, cap)
      ensures old(Leftover()) == [] && old(readRx.queue) == [] ==>
                && r == (if readRx.senderAlive then Pending else Eof)
                && Leftover() == [] && readRx.queue == []
      ensures old(Leftover()) == [] && old(readRx.queue) != [] ==>
                && r.Data? && |r.bytes| == Min(cap, |old(readRx.queue)[0]|)
                && old(readRx.queue) == [r.bytes + Leftover()] + readRx.queue
      ensures old(Leftover()) != [] ==>
                && r.Data? && |r.bytes| == Min(cap, |old(Leftover())|)
                && old(Leftover()) == r.bytes + Leftover() && readRx.queue == old(readRx.queue)
    {
      var remaining := |readBuf| - readBufOffset;
      if remaining > 0 {
        var n := Min(remaining, cap);
        r := Data(readBuf[readBufOffset..readBufOffset + n]);
        assert readBuf[readBufOffset..readBufOffset + n] == Leftover()[..n];
        assert readBuf[readBufOffset + n..] == Leftover()[n..];
        readBufOffset := readBufOffset + n;
        MaybeCompactReadBuf();
        return;
      }
      var got := readRx.TryRecv();
      match got {
        case Some(data) =>
          var n := Min(|data|, cap);
          r := Data(data[..n]);
          if n < |data| {
            readBuf := [];
            readBufOffset := 0;
            readBuf := readBuf + data[n..];
          }
          assert data == data[..n] + data[n..] && Leftover() == data[n..];
        case None =>
          r := if readRx.senderAlive then Pending else Eof;
      }
    }
  }

  // ----- the multiplexer -----

  class Multiplex {
    const writeRx: Channel
    var streams: map<byte, Channel>
    var readBuf: seq<byte>
    var readBufOffset: nat

    constructor ()
      ensures Valid() && fresh(writeRx) && writeRx.queue == [] && writeRx.receiverAlive && writeRx.capacity == 512
      ensures Unread() == [] && Channels() == map[]
    {
      writeRx := new Channel(WRITE_CHANNEL_CAPACITY);
      streams, readBuf, readBufOffset := map[], [], 0;
    }

    ghost predicate Valid()
      reads this
    {
      && readBufOffset <= |readBuf|
      && writeRx.capacity == WRITE_CHANNEL_CAPACITY
      && writeRx !in streams.Values
      && (forall id <- streams.Keys :: streams[id].capacity == STREAM_CHANNEL_CAPACITY)
      && (forall a, b | a in streams && b in streams && a != b :: streams[a] != streams[b])
    }

    ghost function Unread(): seq<byte>
      requires Valid()
      reads this
    {
      readBuf[readBufOffset..]
    }

    ghost function Channels(): Chans
      reads this, streams.Values
    {
      map id | id in streams.Keys :: Chan(streams[id].queue, streams[id].receiverAlive)
    }

    ghost function State(): Routed
      requires Valid()
      reads this, streams.Values
    {
      Routed(Unread(), Channels())
    }

    method OpenStream(id: byte) returns (s: VirtualStream)
      requires Valid()
      modifies this`streams
      ensures Valid() && fresh(s) && fresh(s.readRx) && s.readRx.capacity == 2048
      ensures s.Valid() && s.id == id && s.writeTx == writeRx && s.Leftover() == []
      ensures streams == old(streams)[id := s.readRx]
      ensures Channels() == old(Channels())[id := Chan([], true)]
    {
      var ch := new Channel(STREAM_CHANNEL_CAPACITY);
      streams := streams[id := ch];
      s := new VirtualStream(id, writeRx, ch);
    }

    /** One turn of the routing loop; stops on an incomplete frame or a full channel. */
    method RouteNext() returns (more: bool)
      requires Valid()
      modifies this`readBufOffset, streams.Values`queue
      ensures Valid()
      ensures more == CanRoute(old(State()))
      ensures State() == if more then RouteOne(old(State())) else old(State())
    {
      hide Route, RoutesTo, FromBE16;
      ghost var before := State();
      var d := DecodeFrame(readBuf[readBufOffset..]);
      if d.Incomplete? {
        return false;
      }
      if d.id in streams {
        var sent := streams[d.id].TrySend(d.payload);
        if sent == Full {
          assert Channels() == before.chans;
          return false;
        }
      }
      assert Channels() == Deliver(before.chans, d.id, d.payload);
      readBufOffset := readBufOffset + d.consumed;
      assert Unread() == before.unread[d.consumed..];
      return true;
    }

    /** Extracts and routes complete frames until none is left or a channel is full. */
    method ProcessReadBuffer()
      requires Valid()
      modifies this`readBuf, this`readBufOffset, streams.Values`queue
      ensures Valid() && State() == Route(old(State()))
    {
      var more := true;
      while readBufOffset < |readBuf| && more
        invariant Valid()
        invariant readBuf == old(readBuf)
        invariant Route(State()) == Route(old(State()))
        invariant !more ==> !CanRoute(State())
        decreases |readBuf| - readBufOffset, more
      {
        more := RouteNext();
      }
      assert !CanRoute(State());
      CompactIfLarge();
    }

    /** Compaction after routing: drop the consumed prefix once it is large. */
    method CompactIfLarge()
      requires Valid()
      modifies this`readBuf, this`readBufOffset
      ensures Valid() && Unread() == old(Unread())
    {
      if readBufOffset > 4096 && readBufOffset >= |readBuf| / 2 {
        var remaining := |readBuf| - readBufOffset;
        if remaining == 0 {
          readBuf := [];
        } else {
          readBuf := CopyToFront(readBuf, readBufOffset);
          readBuf := readBuf[..remaining];
        }
        readBufOffset := 0;
      }
    }

    /** The read arm of the run loop: bytes arrived from KCP. */
    method OnReceive(chunk: seq<byte>)
      requires Valid()
      modifies this`readBuf, this`readBufOffset, streams.Values`queue
      ensures Valid()
      ensures State() == Route(Routed(old(Unread()) + chunk, old(Channels())))
    {
      if readBufOffset > 4096 {
        var remaining := |readBuf| - readBufOffset;
        readBuf := CopyToFront(readBuf, readBufOffset);
        readBuf := readBuf[..remaining];
        readBufOffset := 0;
      }
      assert Unread() == old(Unread());
      readBuf := readBuf + chunk;
      assert Unread() == old(Unread()) + chunk;
      assert Channels() == old(Channels());
      ProcessReadBuffer();
    }

    /** The write arm up to the KCP write: merge at most 64 queued frames into one buffer. */
    method CollectBatch() returns (merged: seq<byte>)
      requires Valid() && writeRx.queue != []
      modifies writeRx`queue
      ensures var n := if |old(writeRx.queue)| < 64 then |old(writeRx.queue)| else 64;
              && merged == Flatten(old(writeRx.queue)[..n])
              && writeRx.queue == old(writeRx.queue)[n..]
    {
      var first := writeRx.TryRecv();
      var batch: seq<seq<byte>> := [first.value];
      while |batch| < MAX_BATCH_FRAMES
        invariant 1 <= |batch| <= Min(MAX_BATCH_FRAMES, |old(writeRx.queue)|)
        invariant batch == old(writeRx.queue)[..|batch|]
        invariant writeRx.queue == old(writeRx.queue)[|batch|..]
      {
        var next := writeRx.TryRecv();
        match next {
          case Some(f) => batch := batch + [f];
          case None => break;
        }
      }
      merged := [];
      for i := 0 to |batch|
        invariant merged == Flatten(batch[..i])
        invariant writeRx.queue == old(writeRx.queue)[|batch|..]
      {
        FlattenAppend(batch[..i], batch[i]);
        assert batch[..i + 1] == batch[..i] + [batch[i]];
        merged := merged + batch[i];
      }
      assert batch[..|batch|] == batch;
    }

    /** The write arm after the KCP write: retry the frames that were held back. */
    method AfterBatch()
      requires Valid()
      modifies this`readBuf, this`readBufOffset, streams.Values`queue
      ensures Valid() && State() == Route(old(State()))
    {
      ProcessReadBuffer();
    }
  }
}
