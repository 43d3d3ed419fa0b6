/**
  One direction of an established context stream: sends, flushes, partial deliveries and
  receives in any order, with each end using its own merged settings.
 */
module ContextLink {
  import opened Bytes
  import opened Bincode
  import opened StreamContext
  import opened ContextStream

  /** `tx.wire` is what the network still holds; `sent` and `got` are the accepted and returned messages. */
  datatype Link = Link(tx: Tx, arrived: seq<byte>, sent: seq<seq<byte>>, got: seq<seq<byte>>)

  datatype Event =
    | Send(data: seq<byte>, now: nat)
    | Flush(now: nat)
    | Transmit(k: nat)
    | Recv(n: nat)

  function Opened(now: nat): Link {
    Link(Tx([], [], now), [], [], [])
  }

  function Act(z: Lz4, from: Context, to: Context, l: Link, ev: Event): Link {
    match ev
    case Send(data, now) =>
      var r := SendData(z, from.sendType, from.sendCompressed, l.tx, data, now);
      l.(tx := r.tx, sent := if r.SendOk? && data != [] then l.sent + [data] else l.sent)
    case Flush(now) => l.(tx := FlushSend(z, l.tx, now).tx)
    case Transmit(k) =>
      var n := Min(k, |l.tx.wire|);
      l.(tx := l.tx.(wire := l.tx.wire[n..]), arrived := l.arrived + l.tx.wire[..n])
    case Recv(n) =>
      var r := RecvData(z, to.recvType, to.recvCompressed, l.arrived, n);
      if r.Frame? then l.(arrived := r.rest, got := l.got + [r.data]) else l
  }

  function Run(z: Lz4, from: Context, to: Context, l: Link, evs: seq<Event>): Link
    decreases |evs|
  {
    if evs == [] then l else Run(z, from, to, Act(z, from, to, l, evs[0]), evs[1..])
  }

  /** The network moves bytes in order; a receive returns what RecvData finds, once. */
  lemma EventEffect(z: Lz4, from: Context, to: Context, l: Link, k: nat, now: nat)
    ensures var r := Act(z, from, to, l, Transmit(k));
            var n := if k < |l.tx.wire| then k else |l.tx.wire|;
            && r.arrived == l.arrived + l.tx.wire[..n] && r.tx.wire == l.tx.wire[n..]
            && (r.tx.buffer, r.sent, r.got) == (l.tx.buffer, l.sent, l.got)
    ensures var r, x := Act(z, from, to, l, Recv(k)), RecvData(z, to.recvType, to.recvCompressed, l.arrived, k);
            && (x.Frame? ==> r == Link(l.tx, x.rest, l.sent, l.got + [x.data]))
            && (!x.Frame? ==> r == l)
    ensures Lossless(z) && Bounded(z) ==> Act(z, from, to, l, Flush(now)).tx.buffer == []
  {
    if Lossless(z) && Bounded(z) {
      assert CarriesAll(z, [], []);
      var more := FlushDelivers(z, Tx([], l.tx.buffer, l.tx.nextFlush), now, []);
      FlushIgnoresWire(z, l.tx, Tx([], l.tx.buffer, l.tx.nextFlush), now);
    }
  }

  // ----- what every run keeps -----

  predicate Mirrored(from: Context, to: Context) {
    from.sendType == to.recvType && from.sendCompressed == to.recvCompressed
  }

  predicate Framed(from: Context) {
    from.sendType == Chunked || from.sendCompressed
  }

  /**
    No uncompressed Chunked message of 16 MiB or more slips through the wrapped length check;
    by PlainFrameFaithfulIff this is exactly when every accepted frame comes back whole.
   */
  predicate Sendable(ty: DataType, compressed: bool, ev: Event) {
    ev.Send? && ty == Chunked && !compressed && PlainTotal(|ev.data|) <= MAX_MESSAGE_SIZE
    ==> |ev.data| < MAX_MESSAGE_SIZE
  }

  lemma UnderFourGiBIsSendable(ty: DataType, compressed: bool, data: seq<byte>, now: nat)
    requires |data| < 0xFFFF_FFFF
    ensures Sendable(ty, compressed, Send(data, now))
  {
    hide MAX_MESSAGE_SIZE;
    assert PlainTotal(|data|) == 1 + |data|;
  }

  ghost predicate Carried(z: Lz4, framed: bool, bytes: seq<byte>, ms: seq<seq<byte>>) {
    if framed then CarriesAll(z, bytes, ms) else Flatten(ms) == bytes
  }

  predicate NoneEmpty(ms: seq<seq<byte>>) {
    forall i | 0 <= i < |ms| :: ms[i] != []
  }

  /** Received, then in transit, then buffered: everything that was sent, in order. */
  ghost predicate Conserved(z: Lz4, from: Context, l: Link, ms: seq<seq<byte>>) {
    && Carried(z, Framed(from), l.arrived + l.tx.wire, ms)
    && NoneEmpty(ms) && NoneEmpty(l.got)
    && Flatten(l.got) + Flatten(ms) + l.tx.buffer == Flatten(l.sent)
    && (from.sendType == Chunked ==> l.got + ms == l.sent)
    && (l.tx.buffer != [] ==> from.sendType == Raw && from.sendCompressed)
  }

  lemma CarriedMore(z: Lz4, framed: bool, a: seq<byte>, ms: seq<seq<byte>>, b: seq<byte>, ns: seq<seq<byte>>)
    requires Carried(z, framed, a, ms) && Carried(z, framed, b, ns)
    ensures Carried(z, framed, a + b, ms + ns)
  {
    hide CarriesAll;
    if framed { CarriesConcat(z, a, ms, b, ns); } else { FlattenConcat(ms, ns); }
  }

  lemma PlainAccepted(z: Lz4, from: Context, data: seq<byte>, now: nat)
    requires Sendable(from.sendType, from.sendCompressed, Send(data, now)) && SendFramed(z, data, false).Some?
    requires from.sendType == Chunked && !from.sendCompressed
    ensures |data| < MAX_MESSAGE_SIZE
  {
  }

  /** A flush that starts with bytes already written adds to them exactly what it would write alone. */
  lemma {:induction false} FlushAppends(z: Lz4, tx: Tx, before: seq<byte>, now: nat)
    ensures FlushStep(z, tx.(wire := before + tx.wire), now).SendOk? == FlushStep(z, tx, now).SendOk?
    ensures FlushStep(z, tx.(wire := before + tx.wire), now).tx
         == FlushStep(z, tx, now).tx.(wire := before + FlushStep(z, tx, now).tx.wire)
    decreases |tx.buffer|
  {
    hide SendFramed;
    if tx.buffer != [] {
      var end := Min(|tx.buffer|, MAX_RAW_FLUSH_CHUNK);
      match SendFramed(z, tx.buffer[..end], true) {
        case None =>
        case Some(f) =>
          Assoc(before, tx.wire, f);
          FlushAppends(z, Tx(tx.wire + f, tx.buffer[end..], tx.nextFlush), before, now);
      }
    }
  }

  /** A flush with some bytes still in transit: they stay in front, and the buffer follows as frames. */
  lemma FlushKeeps(z: Lz4, from: Context, l: Link, now: nat, ms: seq<seq<byte>>) returns (ns: seq<seq<byte>>)
    requires Lossless(z) && Bounded(z) && Framed(from) && from.sendType == Raw
    requires Conserved(z, from, l, ms)
    ensures FlushSend(z, l.tx, now).SendOk? && FlushSend(z, l.tx, now).tx.buffer == []
    ensures Conserved(z, from, l.(tx := FlushSend(z, l.tx, now).tx), ns)
  {
    hide CarriesAll;
    if l.tx.buffer == [] {
      ns := ms;
    } else {
      var whole := l.tx.(wire := l.arrived + l.tx.wire);
      var more := FlushDelivers(z, whole, now, ms);
      FlushAppends(z, l.tx, l.arrived, now);
      ns := ms + more;
      FlattenConcat(ms, more);
      Assoc(Flatten(l.got), Flatten(ms), Flatten(more));
      var end := FlushStep(z, l.tx, now).tx;
      assert Flatten(l.got) + Flatten(ns) + [] == Flatten(l.got) + Flatten(ns);
      assert NoneEmpty(ns);
    }
  }

  /** One message put on the wire as one unit. */
  lemma WrittenKeeps(z: Lz4, from: Context, l: Link, ms: seq<seq<byte>>, w: seq<byte>, data: seq<byte>)
    requires Conserved(z, from, l, ms) && l.tx.buffer == [] && data != []
    requires Carried(z, Framed(from), w, [data])
    ensures Conserved(z, from, l.(tx := l.tx.(wire := l.tx.wire + w), sent := l.sent + [data]), ms + [data])
  {
    hide CarriesAll;
    CarriedMore(z, Framed(from), l.arrived + l.tx.wire, ms, w, [data]);
    Assoc(l.arrived, l.tx.wire, w);
    Assoc(l.got, ms, [data]);
    FlattenAppend(ms, data);
    FlattenAppend(l.sent, data);
    Tail(Flatten(l.got), Flatten(ms), data);
  }

  lemma Tail(a: seq<byte>, b: seq<byte>, c: seq<byte>)
    ensures a + (b + c) + [] == (a + b + []) + c
  {
  }

  lemma SendKeeps(z: Lz4, from: Context, to: Context, l: Link, ev: Event, ms: seq<seq<byte>>)
    returns (ns: seq<seq<byte>>)
    requires Lossless(z) && Bounded(z) && Mirrored(from, to)
    requires Conserved(z, from, l, ms) && ev.Send? && Sendable(from.sendType, from.sendCompressed, ev)
    ensures Conserved(z, from, Act(z, from, to, l, ev), ns)
  {
    hide CarriesAll, SendFramed, FlushSend;
    var data := ev.data;
    ns := ms;
    if data == [] {
    } else if from.sendType == Chunked {
      match SendFramed(z, data, from.sendCompressed) {
        case None =>
        case Some(f) =>
          if !from.sendCompressed { PlainAccepted(z, from, data, ev.now); }
          CarriesOne(z, data, from.sendCompressed);
          WrittenKeeps(z, from, l, ms, f, data);
          ns := ms + [data];
      }
    } else if from.sendCompressed {
      var more := l.(tx := l.tx.(buffer := l.tx.buffer + data), sent := l.sent + [data]);
      FlattenAppend(l.sent, data);
      Assoc(Flatten(l.got) + Flatten(ms), l.tx.buffer, data);
      assert Conserved(z, from, more, ms);
      if |more.tx.buffer| >= SEND_BUFFER_EARLY_FLUSH || ev.now >= l.tx.nextFlush {
        ns := FlushKeeps(z, from, more, ev.now, ms);
      }
    } else {
      FlattenAppend([], data);
      assert [data] == [] + [data];
      WrittenKeeps(z, from, l, ms, data, data);
      ns := ms + [data];
    }
  }

  lemma OutOfSyncStays(z: Lz4, wire: seq<byte>, more: seq<byte>)
    requires RecvFramed(z, wire).OutOfSync?
    ensures RecvFramed(z, wire + more).OutOfSync?
  {
    hide FromBE32;
    assert (wire + more)[..4] == wire[..4];
    var total := FromBE32(wire[..4]);
    if 1 <= total <= MAX_MESSAGE_SIZE {
      assert (wire + more)[5..4 + total] == wire[5..4 + total];
    }
  }

  /** A receiver never loses its place, and each message it returns is the oldest one in transit. */
  lemma RecvKeeps(z: Lz4, from: Context, to: Context, l: Link, n: nat, ms: seq<seq<byte>>) returns (ns: seq<seq<byte>>)
    requires Mirrored(from, to) && Conserved(z, from, l, ms)
    ensures !RecvData(z, to.recvType, to.recvCompressed, l.arrived, n).OutOfSync?
    ensures Conserved(z, from, Act(z, from, to, l, Recv(n)), ns)
  {
    hide RecvFramed, Conserved;
    if Framed(from) {
      ns := FramedRecvKeeps(z, from, l, ms);
    } else {
      ns := PlainRecvKeeps(z, from, l, n, ms);
    }
  }

  lemma FramedRecvKeeps(z: Lz4, from: Context, l: Link, ms: seq<seq<byte>>) returns (ns: seq<seq<byte>>)
    requires Framed(from) && Conserved(z, from, l, ms)
    ensures var r := RecvFramed(z, l.arrived);
            && !r.OutOfSync?
            && Conserved(z, from, if r.Frame? then l.(arrived := r.rest, got := l.got + [r.data]) else l, ns)
  {
    hide RecvFramed, CarriesAll;
    ns := ms;
    var r := RecvFramed(z, l.arrived);
    if r.OutOfSync? {
      OutOfSyncStays(z, l.arrived, l.tx.wire);
      ReadsOldest(z, l.arrived, l.tx.wire, ms);
    } else if r.Frame? {
      RecvExtends(z, l.arrived, l.tx.wire);
      ReadsOldest(z, l.arrived, l.tx.wire, ms);
      ns := ms[1..];
      Shifted(l.got, ms);
    }
  }

  lemma PlainRecvKeeps(z: Lz4, from: Context, l: Link, n: nat, ms: seq<seq<byte>>) returns (ns: seq<seq<byte>>)
    requires !Framed(from) && Conserved(z, from, l, ms)
    ensures var r := RecvData(z, Raw, false, l.arrived, n);
            && !r.OutOfSync?
            && Conserved(z, from, if r.Frame? then l.(arrived := r.rest, got := l.got + [r.data]) else l, ns)
  {
    hide Flatten, RecvFramed;
    ns := ms;
    var r := RecvData(z, Raw, false, l.arrived, n);
    if r.Frame? {
      assert l.arrived == r.data + r.rest;
      Assoc(r.data, r.rest, l.tx.wire);
      var left := r.rest + l.tx.wire;
      ns := if left == [] then [] else [left];
      Single(left);
      FlattenAppend(l.got, r.data);
      Regroup(Flatten(l.got), r.data, left);
    }
  }

  lemma Single(x: seq<byte>)
    ensures Flatten([]) == [] && Flatten([x]) == x
  {
    assert x + [] == x;
  }

  lemma Regroup(a: seq<byte>, b: seq<byte>, c: seq<byte>)
    ensures a + (b + c) + [] == (a + b) + c + []
  {
  }

  lemma Shifted(got: seq<seq<byte>>, ms: seq<seq<byte>>)
    requires ms != []
    ensures got + ms == got + [ms[0]] + ms[1..]
    ensures Flatten(got) + Flatten(ms) == Flatten(got + [ms[0]]) + Flatten(ms[1..])
  {
    FlattenAppend(got, ms[0]);
    Assoc(Flatten(got), ms[0], Flatten(ms[1..]));
    assert Flatten(ms) == ms[0] + Flatten(ms[1..]);
  }

  /** If anything can be judged from what arrived, some message is in transit. */
  lemma ReadsOldest(z: Lz4, arrived: seq<byte>, wire: seq<byte>, ms: seq<seq<byte>>)
    requires CarriesAll(z, arrived + wire, ms) && !RecvFramed(z, arrived).NeedMore?
    ensures ms != [] && RecvFramed(z, arrived + wire).Frame? && RecvFramed(z, arrived + wire).data == ms[0]
    ensures CarriesAll(z, RecvFramed(z, arrived + wire).rest, ms[1..])
  {
    assert |arrived + wire| == |arrived| + |wire|;
  }

  lemma StepKeeps(z: Lz4, from: Context, to: Context, l: Link, ev: Event, ms: seq<seq<byte>>)
    returns (ns: seq<seq<byte>>)
    requires Lossless(z) && Bounded(z) && Mirrored(from, to)
    requires Conserved(z, from, l, ms) && Sendable(from.sendType, from.sendCompressed, ev)
    ensures Conserved(z, from, Act(z, from, to, l, ev), ns)
  {
    hide CarriesAll, FlushStep, SendFramed, RecvFramed;
    match ev {
      case Send(_, _) => ns := SendKeeps(z, from, to, l, ev, ms);
      case Recv(n) => ns := RecvKeeps(z, from, to, l, n, ms);
      case Flush(now) =>
        if l.tx.buffer == [] { ns := ms; } else { ns := FlushKeeps(z, from, l, now, ms); }
      case Transmit(k) =>
        ns := ms;
        var n := Min(k, |l.tx.wire|);
        assert l.arrived + l.tx.wire[..n] + l.tx.wire[n..] == l.arrived + l.tx.wire;
    }
  }

  lemma {:induction false} RunKeeps(z: Lz4, from: Context, to: Context, l: Link, evs: seq<Event>, ms: seq<seq<byte>>)
    returns (ns: seq<seq<byte>>)
    requires Lossless(z) && Bounded(z) && Mirrored(from, to) && Conserved(z, from, l, ms)
    requires forall ev | ev in evs :: Sendable(from.sendType, from.sendCompressed, ev)
    ensures Conserved(z, from, Run(z, from, to, l, evs), ns)
    decreases |evs|
  {
    hide Conserved, Act, Mirrored;
    if evs == [] {
      ns := ms;
    } else {
      var mid := StepKeeps(z, from, to, l, evs[0], ms);
      ns := RunKeeps(z, from, to, Act(z, from, to, l, evs[0]), evs[1..], mid);
    }
  }

  /** The messages that the events ask to send and that are not empty and fit. */
  function Accepted(z: Lz4, ty: DataType, compressed: bool, evs: seq<Event>): seq<seq<byte>> {
    if evs == [] then [] else
      (if evs[0].Send? && evs[0].data != [] && Fits(z, ty, compressed, evs[0].data) then [evs[0].data] else [])
      + Accepted(z, ty, compressed, evs[1..])
  }

  lemma StepAccepts(z: Lz4, from: Context, to: Context, l: Link, ev: Event)
    requires Lossless(z) && Bounded(z)
    ensures Act(z, from, to, l, ev).sent
         == l.sent + Accepted(z, from.sendType, from.sendCompressed, [ev])
  {
    hide SendData, FlushSend, RecvData;
    assert [ev][1..] == [] && l.sent + [] == l.sent;
    if ev.Send? {
      RawSendIs(z, from.sendType, from.sendCompressed, l.tx, ev.data, ev.now);
      if ev.data != [] {
        if from.sendType == Chunked {
          ChunkedSendIff(z, from.sendCompressed, l.tx, ev.data, ev.now);
        } else if from.sendCompressed {
          FlushesExactlyWhen(z, l.tx, ev.data, ev.now);
        }
        assert l.sent + ([ev.data] + []) == l.sent + [ev.data];
      }
    }
  }

  /** Nothing that fits is refused: over every run exactly those messages are sent, in order. */
  lemma {:induction false} RunAccepts(z: Lz4, from: Context, to: Context, l: Link, evs: seq<Event>)
    requires Lossless(z) && Bounded(z)
    ensures Run(z, from, to, l, evs).sent
         == l.sent + Accepted(z, from.sendType, from.sendCompressed, evs)
    decreases |evs|
  {
    hide Act, Fits;
    if evs == [] {
      assert l.sent + [] == l.sent;
    } else {
      StepAccepts(z, from, to, l, evs[0]);
      RunAccepts(z, from, to, Act(z, from, to, l, evs[0]), evs[1..]);
      var first := Accepted(z, from.sendType, from.sendCompressed, [evs[0]]);
      assert [evs[0]][1..] == [];
      assert first + [] == first;
      Assoc(l.sent, first, Accepted(z, from.sendType, from.sendCompressed, evs[1..]));
    }
  }

  /**
    After any handshake, in either direction and in all four modes: what was received is
    the beginning of what was sent, and a Chunked receiver gets the very messages that
    were sent, each once, none of them empty. What was sent is every message that fits, in
    order. Once the buffer is flushed and nothing is in transit, all of it has been received.
   */
  lemma EveryRunDelivers(z: Lz4, c: Context, cfg: LocalConfig, forward: bool, now: nat, evs: seq<Event>)
    requires Lossless(z) && Bounded(z)
    requires Representable(c) && cfg.id < U64 && Valid(c)
    requires forall ev | ev in evs :: Sendable(if forward then c.sendType else cfg.sendType,
                                               if forward then c.sendCompressed else cfg.sendCompressed, ev)
    ensures Handshake(c, cfg).Some?
    ensures var h := Handshake(c, cfg).value;
            var from, to := if forward then h.opener else h.acceptor, if forward then h.acceptor else h.opener;
            var l := Run(z, from, to, Opened(now), evs);
            && l.sent == Accepted(z, if forward then c.sendType else cfg.sendType,
                                  if forward then c.sendCompressed else cfg.sendCompressed, evs)
            && Flatten(l.got) <= Flatten(l.sent)
            && NoneEmpty(l.got)
            && (from.sendType == Chunked ==> l.got <= l.sent)
            && (l.arrived + l.tx.wire == [] && l.tx.buffer == [] ==>
                  && Flatten(l.got) == Flatten(l.sent)
                  && (from.sendType == Chunked ==> l.got == l.sent))
  {
    hide Handshake, Run, Accepted;
    HandshakeMirrors(c, cfg);
    var h := Handshake(c, cfg).value;
    var from, to := if forward then h.opener else h.acceptor, if forward then h.acceptor else h.opener;
    assert Conserved(z, from, Opened(now), []);
    RunAccepts(z, from, to, Opened(now), evs);
    var sent := Accepted(z, from.sendType, from.sendCompressed, evs);
    assert [] + sent == sent;
    var ms := RunKeeps(z, from, to, Opened(now), evs, []);
    var l := Run(z, from, to, Opened(now), evs);
    Assoc(Flatten(l.got), Flatten(ms), l.tx.buffer);
    if l.arrived + l.tx.wire == [] {
      NothingCarried(z, Framed(from), ms);
    }
  }

  lemma FirstOf(ms: seq<seq<byte>>)
    ensures ms != [] ==> |Flatten(ms)| >= |ms[0]|
  {
  }

  /** An empty pipe carries no message: with framing because frames have a header, without because none is empty. */
  lemma NothingCarried(z: Lz4, framed: bool, ms: seq<seq<byte>>)
    requires Carried(z, framed, [], ms) && NoneEmpty(ms)
    ensures ms == []
  {
    FirstOf(ms);
  }

  /** With everything arrived, a receiver that asks for at least one byte is never left waiting. */
  lemma NeverStuck(z: Lz4, from: Context, to: Context, l: Link, n: nat, ms: seq<seq<byte>>)
    requires Mirrored(from, to) && Conserved(z, from, l, ms)
    requires l.tx.wire == [] && l.arrived != [] && n > 0
    ensures RecvData(z, to.recvType, to.recvCompressed, l.arrived, n).Frame?
  {
    hide RecvFramed;
    assert l.arrived + [] == l.arrived;
  }
}
