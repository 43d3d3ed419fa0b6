/**
  A whole KCP connection: two multiplexers with their virtual streams and the byte pipe
  in each direction. A run is any interleaving of writes, batches, partial KCP writes,
  partial KCP reads, stream reads and stream drops at either end.
 */
module KcpSystem {
  import opened Bytes
  import opened KcpFrame
  import opened KcpTransport

  const READ_CHUNK: nat := 16384

  /**
    One end. `merge` is the merged batch a KCP write has still to hand over (None when the
    run loop is waiting); while it is pending the loop neither reads nor starts a batch.
    `sent` and `got` record, per stream, the bytes accepted from writers and given to readers.
   */
  datatype End = End(
    outQ: seq<seq<byte>>,
    merge: Option<seq<byte>>,
    routed: Routed,
    leftover: map<byte, seq<byte>>,
    sent: map<byte, seq<byte>>,
    got: map<byte, seq<byte>>)

  datatype Line = Line(end: End, out: seq<byte>, inp: seq<byte>)

  datatype Event =
    | Write(id: byte, buf: seq<byte>)
    | StartBatch
    | Push(k: nat)
    | FinishBatch
    | Receive(n: nat)
    | Read(id: byte, cap: nat)
    | Drop(id: byte)

  predicate Live(e: End, id: byte) {
    id in e.routed.chans && e.routed.chans[id].receiverAlive && id in e.leftover && id in e.sent && id in e.got
  }

  /** Can this event happen now? */
  predicate Enabled(l: Line, ev: Event) {
    match ev
    case Write(id, buf) => Live(l.end, id) && buf != [] && |l.end.outQ| < WRITE_CHANNEL_CAPACITY
    case StartBatch => l.end.merge.None? && l.end.outQ != []
    case Push(k) => l.end.merge.Some? && 0 < k <= |l.end.merge.value|
    case FinishBatch => l.end.merge == Some([])
    case Receive(n) => l.end.merge.None? && 0 < n <= Min(READ_CHUNK, |l.inp|)
    case Read(id, _) => Live(l.end, id)
    case Drop(id) => Live(l.end, id)
  }

  function DoWrite(e: End, id: byte, buf: seq<byte>): End
    requires Live(e, id)
  {
    var n := Min(|buf|, MAX_FRAME_PAYLOAD);
    e.(outQ := e.outQ + [EncodeFrame(id, buf[..n])], sent := e.sent[id := e.sent[id] + buf[..n]])
  }

  function DoRead(e: End, id: byte, cap: nat): End
    requires Live(e, id)
  {
    var chan := e.routed.chans[id];
    var s := ReadStep(e.leftover[id], chan.queue, true, cap);
    e.(routed := e.routed.(chans := e.routed.chans[id := chan.(queue := s.queue)]),
       leftover := e.leftover[id := s.leftover],
       got := e.got[id := e.got[id] + Taken(s.result)])
  }

  function Act(l: Line, ev: Event): Line
    requires Enabled(l, ev)
  {
    var e := l.end;
    match ev
    case Write(id, buf) => l.(end := DoWrite(e, id, buf))
    case StartBatch =>
      var n := Min(MAX_BATCH_FRAMES, |e.outQ|);
      l.(end := e.(merge := Some(Flatten(e.outQ[..n])), outQ := e.outQ[n..]))
    case Push(k) =>
      l.(end := e.(merge := Some(e.merge.value[k..])), out := l.out + e.merge.value[..k])
    case FinishBatch => l.(end := e.(merge := None, routed := Route(e.routed)))
    case Receive(n) =>
      var more := e.routed.(unread := e.routed.unread + l.inp[..n]);
      l.(end := e.(routed := Route(more)), inp := l.inp[n..])
    case Read(id, cap) => l.(end := DoRead(e, id, cap))
    case Drop(id) =>
      var chans := e.routed.chans;
      l.(end := e.(routed := e.routed.(chans := chans[id := chans[id].(receiverAlive := false)])))
  }

  /** When the parties can act: a full write channel stops a writer, a pending batch the reading side of the loop. */
  lemma EnabledIff(l: Line, id: byte, buf: seq<byte>, n: nat, cap: nat)
    requires Live(l.end, id)
    ensures Enabled(l, Write(id, buf)) <==> buf != [] && |l.end.outQ| < 512
    ensures Enabled(l, StartBatch) <==> l.end.merge == None && l.end.outQ != []
    ensures Enabled(l, Push(n)) <==> l.end.merge.Some? && 0 < n <= |l.end.merge.value|
    ensures Enabled(l, FinishBatch) <==> l.end.merge == Some([])
    ensures Enabled(l, Receive(n)) <==> l.end.merge == None && 0 < n <= 16384 && n <= |l.inp|
    ensures Enabled(l, Read(id, cap)) && Enabled(l, Drop(id))
  {
  }

  /** A write hands over up to 65535 bytes as one frame behind all others, and touches no other stream. */
  lemma WriteEffect(l: Line, id: byte, buf: seq<byte>)
    requires Enabled(l, Write(id, buf))
    ensures var e, e' := l.end, Act(l, Write(id, buf)).end;
            var n := if |buf| < 65535 then |buf| else 65535;
            && e'.sent == e.sent[id := e.sent[id] + buf[..n]]
            && e'.outQ == e.outQ + [EncodeFrame(id, buf[..n])]
            && (e'.merge, e'.routed, e'.leftover, e'.got) == (e.merge, e.routed, e.leftover, e.got)
  {
  }

  /** The run loop: a batch is up to 64 whole frames, a push moves their bytes to the wire, then routing is retried. */
  lemma LoopEffect(l: Line, k: nat)
    ensures Enabled(l, StartBatch) ==>
              var r := Act(l, StartBatch);
              var n := if |l.end.outQ| < 64 then |l.end.outQ| else 64;
              r.end.merge == Some(Flatten(l.end.outQ[..n])) && r.end.outQ == l.end.outQ[n..] && r.out == l.out
    ensures Enabled(l, Push(k)) ==>
              var r := Act(l, Push(k));
              r.out == l.out + l.end.merge.value[..k] && r.end.merge == Some(l.end.merge.value[k..])
    ensures Enabled(l, FinishBatch) ==>
              var r := Act(l, FinishBatch);
              r.end.merge == None && r.end.routed == Route(l.end.routed) && r.out == l.out
    ensures Enabled(l, Receive(k)) ==>
              var r := Act(l, Receive(k));
              && r.inp == l.inp[k..]
              && r.end.routed == Route(Routed(l.end.routed.unread + l.inp[..k], l.end.routed.chans))
  {
  }

  /** A read gives its reader the next bytes of its own stream, as many as fit of the piece at the head. */
  lemma ReadEffect(l: Line, id: byte, cap: nat)
    requires Live(l.end, id)
    ensures var e, e' := l.end, Act(l, Read(id, cap)).end;
            var queue := e.routed.chans[id].queue;
            var head := if e.leftover[id] != [] then e.leftover[id] else if queue != [] then queue[0] else [];
            var n := if |head| < cap then |head| else cap;
            && e'.got == e.got[id := e.got[id] + head[..n]]
            && e'.leftover == e.leftover[id := head[n..]]
            && e'.routed.unread == e.routed.unread
            && e'.routed.chans.Keys == e.routed.chans.Keys
            && (forall other | other in e.routed.chans && other != id ::
                  e'.routed.chans[other] == e.routed.chans[other])
            && e'.routed.chans[id] == Chan(if e.leftover[id] == [] && queue != [] then queue[1..] else queue, true)
            && (e'.sent, e'.outQ, e'.merge) == (e.sent, e.outQ, e.merge)
  {
  }

  /** A dropped stream keeps nothing but its place: its reader is gone, everything else is as before. */
  lemma DropEffect(l: Line, id: byte)
    requires Live(l.end, id)
    ensures var e, e' := l.end, Act(l, Drop(id)).end;
            && !e'.routed.chans[id].receiverAlive && !Live(e', id)
            && e'.routed.chans.Keys == e.routed.chans.Keys
            && (forall other | other in e.routed.chans && other != id ::
                  e'.routed.chans[other] == e.routed.chans[other])
            && e'.routed.unread == e.routed.unread
            && (e'.sent, e'.got, e'.leftover, e'.outQ, e'.merge) == (e.sent, e.got, e.leftover, e.outQ, e.merge)
  {
  }

  // ----- one direction: from x over the wire to y -----

  function Unsent(x: End): seq<byte> {
    (if x.merge.Some? then x.merge.value else []) + Flatten(x.outQ)
  }

  /** Bytes that left a writer of x and have not been routed at y, oldest first. */
  function Underway(x: End, wire: seq<byte>): seq<byte> {
    wire + Unsent(x)
  }

  function SentOn(x: End, id: byte): seq<byte> {
    if id in x.sent then x.sent[id] else []
  }

  ghost predicate Flows(x: End, wire: seq<byte>, y: End, id: byte) {
    Live(y, id) ==>
      SentOn(x, id) == y.got[id] + y.leftover[id] + Ahead(y.routed, id, Underway(x, wire))
  }

  /** Framing of everything in flight, and conservation of every stream. */
  ghost predicate Direction(x: End, wire: seq<byte>, y: End) {
    && WellFramed(y.routed.unread + Underway(x, wire))
    && ChansOk(y.routed.chans)
    && |x.outQ| <= WRITE_CHANNEL_CAPACITY
    && forall id: byte :: Flows(x, wire, y, id)
  }

  // ----- steps of the sending end -----

  /** A frame appended to what is under way adds its payload to its own stream only. */
  lemma AheadGrows(y: Routed, id: byte, way: seq<byte>, frame: seq<byte>, carried: seq<byte>)
    requires id in y.chans && WellFramed(y.unread + way) && PayloadOf(id, frame) == carried
    ensures Ahead(y, id, way + frame) == Ahead(y, id, way) + carried
  {
    Assoc(y.unread, way, frame);
    PayloadOfConcat(id, y.unread + way, frame);
    Assoc(Flatten(y.chans[id].queue), PayloadOf(id, y.unread + way), carried);
  }

  lemma WriteFlows(x: End, wire: seq<byte>, y: End, id: byte, buf: seq<byte>, other: byte)
    requires WellFramed(y.routed.unread + Underway(x, wire)) && Live(x, id) && buf != []
    requires Flows(x, wire, y, other)
    ensures Flows(DoWrite(x, id, buf), wire, y, other)
  {
    var chunk := buf[..Min(|buf|, MAX_FRAME_PAYLOAD)];
    var frame := EncodeFrame(id, chunk);
    var x' := DoWrite(x, id, buf);
    if Live(y, other) {
      var carried := if other == id then chunk else [];
      UnderwayGrows(x, x', wire, frame);
      EncodeIsWellFramed(id, chunk, other);
      AheadGrows(y.routed, other, Underway(x, wire), frame, carried);
      assert SentOn(x', other) == SentOn(x, other) + carried;
      Assoc(y.got[other] + y.leftover[other], Ahead(y.routed, other, Underway(x, wire)), carried);
    }
  }

  lemma UnderwayGrows(x: End, x': End, wire: seq<byte>, frame: seq<byte>)
    requires x'.merge == x.merge && x'.outQ == x.outQ + [frame]
    ensures Underway(x', wire) == Underway(x, wire) + frame
  {
    FlattenAppend(x.outQ, frame);
    Assoc(if x.merge.Some? then x.merge.value else [], Flatten(x.outQ), frame);
    Assoc(wire, Unsent(x), frame);
  }

  lemma WriteKeeps(x: End, wire: seq<byte>, y: End, id: byte, buf: seq<byte>)
    requires Direction(x, wire, y) && Live(x, id) && buf != [] && |x.outQ| < WRITE_CHANNEL_CAPACITY
    ensures Direction(DoWrite(x, id, buf), wire, y)
  {
    var chunk := buf[..Min(|buf|, MAX_FRAME_PAYLOAD)];
    var frame := EncodeFrame(id, chunk);
    var x' := DoWrite(x, id, buf);
    var flight := y.routed.unread + Underway(x, wire);
    UnderwayGrows(x, x', wire, frame);
    Assoc(y.routed.unread, Underway(x, wire), frame);
    EncodeIsWellFramed(id, chunk, id);
    WellFramedConcat(flight, frame);
    forall other: byte ensures Flows(x', wire, y, other) {
      assert Flows(x, wire, y, other);
      WriteFlows(x, wire, y, id, buf, other);
    }
  }

  /** Events that only move bytes along keep `Underway`, hence the whole direction. */
  lemma SameUnderway(x: End, wire: seq<byte>, x': End, wire': seq<byte>, y: End)
    requires Direction(x, wire, y)
    requires Underway(x', wire') == Underway(x, wire) && x'.sent == x.sent && |x'.outQ| <= WRITE_CHANNEL_CAPACITY
    ensures Direction(x', wire', y)
  {
    forall id: byte ensures Flows(x', wire', y, id) {
      assert Flows(x, wire, y, id);
    }
  }

  lemma SenderKeeps(l: Line, ev: Event, y: End)
    requires Enabled(l, ev) && Direction(l.end, l.out, y)
    ensures Direction(Act(l, ev).end, Act(l, ev).out, y)
  {
    var x, l' := l.end, Act(l, ev);
    match ev {
      case Write(id, buf) => WriteKeeps(x, l.out, y, id, buf);
      case StartBatch =>
        var n := Min(MAX_BATCH_FRAMES, |x.outQ|);
        FlattenConcat(x.outQ[..n], x.outQ[n..]);
        assert x.outQ == x.outQ[..n] + x.outQ[n..];
        assert Unsent(x) == Unsent(l'.end);
        SameUnderway(x, l.out, l'.end, l'.out, y);
      case Push(k) =>
        var m := x.merge.value;
        assert m == m[..k] + m[k..];
        assert Underway(l'.end, l'.out) == Underway(x, l.out);
        SameUnderway(x, l.out, l'.end, l'.out, y);
      case FinishBatch => SameUnderway(x, l.out, l'.end, l'.out, y);
      case Receive(_) => SameUnderway(x, l.out, l'.end, l'.out, y);
      case Read(_, _) => SameUnderway(x, l.out, l'.end, l'.out, y);
      case Drop(_) => SameUnderway(x, l.out, l'.end, l'.out, y);
    }
  }

  // ----- steps of the receiving end -----

  /** Routing, after `moved` bytes came off the wire, keeps the direction. */
  lemma RoutingKeeps(x: End, wire: seq<byte>, y: End, moved: seq<byte>, rest: seq<byte>)
    requires Direction(x, wire, y) && wire == moved + rest
    ensures Direction(x, rest, y.(routed := Route(y.routed.(unread := y.routed.unread + moved))))
  {
    var more := y.routed.(unread := y.routed.unread + moved);
    var y' := y.(routed := Route(more));
    assert y.routed.unread + Underway(x, wire) == more.unread + Underway(x, rest);
    RouteKeepsFraming(more, Underway(x, rest));
    RouteKeepsChans(more, Underway(x, rest));
    forall id: byte ensures Flows(x, rest, y', id) {
      assert Flows(x, wire, y, id);
      if Live(y', id) {
        RouteConserves(more, id, Underway(x, rest));
      }
    }
  }

  lemma ReadFlows(x: End, wire: seq<byte>, y: End, id: byte, cap: nat)
    requires Live(y, id) && ChansOk(y.routed.chans) && Flows(x, wire, y, id)
    ensures Flows(x, wire, DoRead(y, id, cap), id)
  {
    var queue := y.routed.chans[id].queue;
    var s := ReadStep(y.leftover[id], queue, true, cap);
    ReadStepConserves(y.leftover[id], queue, true, cap);
    ReadRegroup(y.got[id], Taken(s.result), s.leftover, Flatten(s.queue), y.leftover[id], Flatten(queue),
                PayloadOf(id, y.routed.unread + Underway(x, wire)));
  }

  lemma ReadRegroup(got: seq<byte>, taken: seq<byte>, left': seq<byte>, queue': seq<byte>,
                    left: seq<byte>, queue: seq<byte>, carried: seq<byte>)
    requires taken + left' + queue' == left + queue
    ensures (got + taken) + left' + (queue' + carried) == got + left + (queue + carried)
  {
    assert (got + taken) + left' + (queue' + carried) == got + (taken + left' + queue') + carried;
    assert got + left + (queue + carried) == got + (left + queue) + carried;
  }

  lemma ReadKeeps(x: End, wire: seq<byte>, y: End, id: byte, cap: nat)
    requires Direction(x, wire, y) && Live(y, id)
    ensures Direction(x, wire, DoRead(y, id, cap))
  {
    var y' := DoRead(y, id, cap);
    forall other: byte ensures Flows(x, wire, y', other) {
      assert Flows(x, wire, y, other);
      if other == id {
        ReadFlows(x, wire, y, id, cap);
      }
    }
    assert ChansOk(y'.routed.chans);
  }

  lemma ReceiverKeeps(l: Line, ev: Event, x: End)
    requires Enabled(l, ev) && Direction(x, l.inp, l.end)
    ensures Direction(x, Act(l, ev).inp, Act(l, ev).end)
  {
    var y, l' := l.end, Act(l, ev);
    match ev {
      case Receive(n) =>
        assert l.inp == l.inp[..n] + l.inp[n..];
        RoutingKeeps(x, l.inp, y, l.inp[..n], l.inp[n..]);
        assert forall id: byte :: Flows(x, l'.inp, l'.end, id);
      case FinishBatch =>
        assert y.routed.unread + [] == y.routed.unread;
        RoutingKeeps(x, l.inp, y, [], l.inp);
        SameReceiver(x, l.inp, y.(routed := Route(y.routed)), l'.end);
      case Read(id, cap) => ReadKeeps(x, l.inp, y, id, cap);
      case Drop(id) =>
        forall other: byte ensures Flows(x, l.inp, l'.end, other) {
          assert Flows(x, l.inp, y, other);
        }
      case Write(id, buf) =>
        forall other: byte ensures Flows(x, l.inp, l'.end, other) {
          assert Flows(x, l.inp, y, other);
        }
      case StartBatch => SameReceiver(x, l.inp, y, l'.end);
      case Push(_) => SameReceiver(x, l.inp, y, l'.end);
    }
  }

  lemma SameReceiver(x: End, wire: seq<byte>, y: End, y': End)
    requires Direction(x, wire, y)
    requires y'.routed == y.routed && y'.leftover == y.leftover && y'.got == y.got && y'.sent == y.sent
    ensures Direction(x, wire, y')
  {
    forall id: byte ensures Flows(x, wire, y', id) {
      assert Flows(x, wire, y, id);
    }
  }

  // ----- runs of the connection -----

  datatype System = System(a: End, b: End, ab: seq<byte>, ba: seq<byte>)

  datatype Step = AtA(ev: Event) | AtB(ev: Event)

  predicate CanStep(s: System, st: Step) {
    match st
    case AtA(ev) => Enabled(Line(s.a, s.ab, s.ba), ev)
    case AtB(ev) => Enabled(Line(s.b, s.ba, s.ab), ev)
  }

  function DoStep(s: System, st: Step): System
    requires CanStep(s, st)
  {
    match st
    case AtA(ev) => var l := Act(Line(s.a, s.ab, s.ba), ev); System(l.end, s.b, l.out, l.inp)
    case AtB(ev) => var l := Act(Line(s.b, s.ba, s.ab), ev); System(s.a, l.end, l.inp, l.out)
  }

  predicate IsRun(s: System, run: seq<Step>)
    decreases |run|
  {
    run == [] || (CanStep(s, run[0]) && IsRun(DoStep(s, run[0]), run[1..]))
  }

  function After(s: System, run: seq<Step>): System
    requires IsRun(s, run)
    decreases |run|
  {
    if run == [] then s else After(DoStep(s, run[0]), run[1..])
  }

  function Fresh(ids: set<byte>): End {
    var none := map id | id in ids :: [];
    End([], None, Routed([], map id | id in ids :: Chan([], true)), none, none, none)
  }

  /** Both ends just opened their streams; the ids need not be the same. */
  function Opened(aIds: set<byte>, bIds: set<byte>): System {
    System(Fresh(aIds), Fresh(bIds), [], [])
  }

  ghost predicate Conserved(s: System) {
    Direction(s.a, s.ab, s.b) && Direction(s.b, s.ba, s.a)
  }

  lemma FreshDirection(xs: set<byte>, ys: set<byte>)
    ensures Direction(Fresh(xs), [], Fresh(ys))
  {
    var x, y := Fresh(xs), Fresh(ys);
    assert y.routed.unread + Underway(x, []) == [];
    forall id: byte ensures Flows(x, [], y, id) {
      assert PayloadOf(id, []) == [];
    }
  }

  lemma StepKeeps(s: System, st: Step)
    requires Conserved(s) && CanStep(s, st)
    ensures Conserved(DoStep(s, st))
  {
    match st {
      case AtA(ev) =>
        SenderKeeps(Line(s.a, s.ab, s.ba), ev, s.b);
        ReceiverKeeps(Line(s.a, s.ab, s.ba), ev, s.b);
      case AtB(ev) =>
        SenderKeeps(Line(s.b, s.ba, s.ab), ev, s.a);
        ReceiverKeeps(Line(s.b, s.ba, s.ab), ev, s.a);
    }
  }

  lemma {:induction false} RunKeeps(s: System, run: seq<Step>)
    requires Conserved(s) && IsRun(s, run)
    ensures Conserved(After(s, run))
    decreases |run|
  {
    if run != [] {
      StepKeeps(s, run[0]);
      RunKeeps(DoStep(s, run[0]), run[1..]);
    }
  }

  lemma Regroup(a: seq<byte>, b: seq<byte>, c: seq<byte>, d: seq<byte>)
    ensures a + b + (c + d) == a + b + c + d
    ensures a <= a + b + c + d
  {
    assert a + b + c + d == a + (b + c + d);
  }

  /**
    In every run and for every stream whose reader exists at B: what A's writers handed over
    is what B's reader got, its leftover, its channel, and what A's frames for that stream
    still carry in B's buffer, on the wire, in the batch and in A's write channel, in order.
   */
  lemma EveryStreamIsFifo(aIds: set<byte>, bIds: set<byte>, run: seq<Step>, id: byte)
    requires IsRun(Opened(aIds, bIds), run)
    requires Live(After(Opened(aIds, bIds), run).b, id)
    ensures var s := After(Opened(aIds, bIds), run);
            && WellFramed(s.b.routed.unread + s.ab + Unsent(s.a))
            && SentOn(s.a, id)
               == s.b.got[id] + s.b.leftover[id] + Flatten(s.b.routed.chans[id].queue)
                  + PayloadOf(id, s.b.routed.unread + s.ab + Unsent(s.a))
            && s.b.got[id] <= SentOn(s.a, id)
  {
    hide WellFramed, PayloadOf, Flatten, IsRun, After, ChansOk;
    var s := After(Opened(aIds, bIds), run);
    FreshDirection(aIds, bIds);
    FreshDirection(bIds, aIds);
    RunKeeps(Opened(aIds, bIds), run);
    assert Flows(s.a, s.ab, s.b, id);
    assert s.b.routed.unread + Underway(s.a, s.ab) == s.b.routed.unread + s.ab + Unsent(s.a);
    Regroup(s.b.got[id], s.b.leftover[id], Flatten(s.b.routed.chans[id].queue),
            PayloadOf(id, s.b.routed.unread + s.ab + Unsent(s.a)));
  }

  /** In every run, a read with room for a byte hands out at least one byte or waits. */
  lemma NoEmptyRead(aIds: set<byte>, bIds: set<byte>, run: seq<Step>, id: byte, cap: nat)
    requires IsRun(Opened(aIds, bIds), run) && cap > 0
    requires Live(After(Opened(aIds, bIds), run).b, id)
    ensures var e := After(Opened(aIds, bIds), run).b;
            var r := ReadStep(e.leftover[id], e.routed.chans[id].queue, true, cap).result;
            r == KcpTransport.Pending || (r.Data? && 0 < |r.bytes| <= cap)
  {
    var s := After(Opened(aIds, bIds), run);
    FreshDirection(aIds, bIds);
    FreshDirection(bIds, aIds);
    RunKeeps(Opened(aIds, bIds), run);
    ReadStepConserves(s.b.leftover[id], s.b.routed.chans[id].queue, true, cap);
  }

  /**
    Nothing is stranded: once A has handed everything to the wire, B has taken everything
    off it and no channel of B is full, B's next pass over its buffer empties it, and every
    byte written is then with the reader.
   */
  lemma DrainedMeansDelivered(aIds: set<byte>, bIds: set<byte>, run: seq<Step>, id: byte)
    requires IsRun(Opened(aIds, bIds), run)
    requires var s := After(Opened(aIds, bIds), run);
             && Live(s.b, id) && s.ab == [] && Unsent(s.a) == []
             && forall c <- s.b.routed.chans.Keys :: !Blocked(Route(s.b.routed).chans, c)
    ensures var s := After(Opened(aIds, bIds), run);
            var r := Route(s.b.routed);
            && r.unread == []
            && id in r.chans
            && SentOn(s.a, id) == s.b.got[id] + s.b.leftover[id] + Flatten(r.chans[id].queue)
  {
    var s := After(Opened(aIds, bIds), run);
    var r := Route(s.b.routed);
    FreshDirection(aIds, bIds);
    FreshDirection(bIds, aIds);
    RunKeeps(Opened(aIds, bIds), run);
    assert Flows(s.a, s.ab, s.b, id);
    assert Underway(s.a, s.ab) == [];
    assert s.b.routed.unread + [] == s.b.routed.unread;
    RouteKeepsFraming(s.b.routed, []);
    RouteKeepsChans(s.b.routed, []);
    RouteConserves(s.b.routed, id, []);
    assert r.unread + [] == r.unread;
    var n := RouteReaches(s.b.routed);
    var d := DecodeFrame(r.unread);
    assert d.Complete? ==> !Blocked(r.chans, d.id);
    assert PayloadOf(id, r.unread) == [];
  }

  /** Received bytes are routed only when more arrive or after an outgoing batch: reading makes room but moves none. */
  lemma OnlyTrafficRoutes(l: Line, ev: Event)
    requires Enabled(l, ev) && !ev.Receive? && !ev.FinishBatch?
    ensures Act(l, ev).end.routed.unread == l.end.routed.unread
  {
  }

  /** Does this step route bytes received by B? */
  predicate RoutesAtB(st: Step) {
    st.AtB? && (st.ev.Receive? || st.ev.FinishBatch?)
  }

  /** However long both ends run without such a step, what B has received and not routed stays put. */
  lemma {:induction false} QuietRunRoutesNothing(s: System, run: seq<Step>)
    requires IsRun(s, run) && forall st | st in run :: !RoutesAtB(st)
    ensures After(s, run).b.routed.unread == s.b.routed.unread
    decreases |run|
  {
    hide Act, Enabled;
    if run != [] {
      var st := run[0];
      if st.AtB? {
        assert st in run;
        OnlyTrafficRoutes(Line(s.b, s.ba, s.ab), st.ev);
      }
      QuietRunRoutesNothing(DoStep(s, st), run[1..]);
    }
  }

  /** So a frame deferred by a full channel can be routable and still wait for traffic to be retried. */
  lemma DeferredFrameWaits(e: End, id: byte, cap: nat)
    requires Live(e, id) && e.leftover[id] == [] && ChansOk(e.routed.chans)
    requires DecodeFrame(e.routed.unread).Complete? && DecodeFrame(e.routed.unread).id == id
    requires Blocked(e.routed.chans, id)
    ensures !CanRoute(e.routed)
    ensures var after := DoRead(e, id, cap);
            CanRoute(after.routed) && after.routed.unread == e.routed.unread
  {
    assert |e.routed.chans[id].queue| == STREAM_CHANNEL_CAPACITY;
  }
}
