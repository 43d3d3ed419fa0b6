/**
  The two stateful filters PTY output passes on its way to the local terminal:
  `QueryInterceptor.Process` and then `LocalStdout.Write`. Each holds back a trailing
  incomplete escape sequence. Proved here: what comes out for every chunking of every
  well-formed stream, and exactly which chunkings make it differ from filtering at once.
 */
module FilterPipeline {
  import opened Bytes
  import opened Ecma48
  import opened UnifiedFilter
  import FinalFilter

  // ----- the trailing incomplete sequence -----

  /** Is the sequence starting at the head of `d` complete within `d`? */
  predicate Complete(d: seq<byte>) {
    if d == [] || d[0] != ESC then true
    else if |d| < 2 then false
    else if d[1] == CSI_OPEN then
      var c := ScanCsi(d[2..]);
      c.final.Some? && 0x40 <= c.final.value <= 0x7E
    else if d[1] == DCS_OPEN || d[1] == OSC_OPEN then StringEnd(d[2..]).Some?
    else true
  }

  /** The rightmost ESC before `i` whose sequence is incomplete, or the end of the data. */
  function TrailingBefore(d: seq<byte>, i: nat): (r: nat)
    requires i <= |d|
    ensures r <= |d|
  {
    if i == 0 then |d|
    else if d[i - 1] == ESC && !Complete(d[i - 1..]) then i - 1
    else TrailingBefore(d, i - 1)
  }

  function TrailingStart(d: seq<byte>): (r: nat)
    ensures r <= |d|
  {
    TrailingBefore(d, |d|)
  }

  ghost predicate IsTrailingStart(d: seq<byte>, r: nat) {
    && r <= |d|
    && (r < |d| ==> d[r] == ESC && !Complete(d[r..]))
    && forall k | 0 <= k < |d| && (k > r || r == |d|) && d[k] == ESC :: Complete(d[k..])
  }

  lemma {:induction false} TrailingFrom(d: seq<byte>, i: nat, r: nat)
    requires i <= |d| && IsTrailingStart(d, r) && (r < |d| ==> r < i)
    ensures TrailingBefore(d, i) == r
  {
    if i != 0 && i - 1 != r {
      TrailingFrom(d, i - 1, r);
    }
  }

  lemma TrailingIs(d: seq<byte>, r: nat)
    requires IsTrailingStart(d, r)
    ensures TrailingStart(d) == r
  {
    TrailingFrom(d, |d|, r);
  }

  method IsSequenceComplete(data: seq<byte>, start: nat) returns (ok: bool)
    ensures ok == (start >= |data| || Complete(data[start..]))
  {
    if start >= |data| {
      return true;
    }
    ghost var d := data[start..];
    if data[start] != ESC {
      return true;
    }
    if start + 1 >= |data| {
      return false;
    }
    assert data[start + 2..] == d[2..];
    if data[start + 1] == CSI_OPEN {
      var c, _ := ScanCsiAt(data, start + 2);
      return c.final.Some? && 0x40 <= c.final.value <= 0x7E;
    }
    if data[start + 1] == DCS_OPEN || data[start + 1] == OSC_OPEN {
      var j := start + 2;
      while j < |data|
        invariant start + 2 <= j <= |data|
        invariant StringEnd(data[j..]).Some? == StringEnd(data[start + 2..]).Some?
      {
        if data[j] == BEL {
          return true;
        }
        if j + 1 < |data| && data[j] == ESC && data[j + 1] == ST_CLOSE {
          return true;
        }
        assert data[j..][1..] == data[j + 1..];
        j := j + 1;
      }
      return false;
    }
    return true;
  }

  method FindTrailingEscapeStart(data: seq<byte>) returns (r: nat)
    ensures r == TrailingStart(data)
    ensures r <= |data|
  {
    if |data| == 0 {
      return 0;
    }
    var i := |data|;
    while i > 0
      invariant 0 <= i <= |data|
      invariant TrailingBefore(data, i) == TrailingStart(data)
    {
      i := i - 1;
      if data[i] == ESC {
        var complete := IsSequenceComplete(data, i);
        if !complete {
          return i;
        }
      }
    }
    return |data|;
  }

  // ----- the stages -----

  datatype Pipe = Pipe(pending: seq<byte>, stdoutPending: seq<byte>, out: seq<byte>, replies: seq<Reply>)

  const Start: Pipe := Pipe([], [], [], [])

  /** One PTY read: interceptor first, its display data then to local stdout. */
  function Feed(p: Pipe, chunk: seq<byte>): Pipe {
    var first := p.pending + chunk;
    var cut := TrailingStart(first);
    var r := Unified(first[..cut]);
    var second := p.stdoutPending + r.display;
    var cut2 := TrailingStart(second);
    Pipe(first[cut..], second[cut2..], p.out + FinalFilter.Final(second[..cut2]), p.replies + r.replies)
  }

  function FeedAll(p: Pipe, chunks: seq<seq<byte>>): Pipe
    decreases |chunks|
  {
    if chunks == [] then p else FeedAll(Feed(p, chunks[0]), chunks[1..])
  }

  class QueryInterceptor {
    var pending: seq<byte>

    constructor ()
      ensures pending == []
    {
      pending := [];
    }

    method Process(data: seq<byte>) returns (r: Result)
      modifies this
      ensures var all := old(pending) + data;
              r == Unified(all[..TrailingStart(all)]) && pending == all[TrailingStart(all)..]
    {
      var combined := pending;
      pending := [];
      combined := combined + data;
      var split := FindTrailingEscapeStart(combined);
      if split < |combined| {
        pending := combined[split..];
        r := UnifiedFilter.UnifiedFilter(combined[..split]);
      } else {
        assert combined[..split] == combined;
        r := UnifiedFilter.UnifiedFilter(combined);
      }
    }
  }

  /** The pending buffer of local stdout, with everything written to it so far. */
  class LocalStdout {
    var pending: seq<byte>
    var written: seq<byte>

    constructor ()
      ensures pending == [] && written == []
    {
      pending, written := [], [];
    }

    method Write(data: seq<byte>)
      modifies this
      ensures var all := old(pending) + data;
              && written == old(written) + FinalFilter.Final(all[..TrailingStart(all)])
              && pending == all[TrailingStart(all)..]
    {
      var combined := pending;
      pending := [];
      combined := combined + data;
      var split := FindTrailingEscapeStart(combined);
      ghost var all := combined;
      if split < |combined| {
        pending := combined[split..];
        combined := combined[..split];
      }
      assert combined == all[..split];
      var filtered := FinalFilter.FinalDefenseFilter(combined);
      if filtered == [] {
        return;
      }
      written := written + filtered;
    }
  }

  /** One chunk through both objects is one `Feed`. */
  method FeedChunk(q: QueryInterceptor, o: LocalStdout, ghost replies: seq<Reply>, chunk: seq<byte>)
    returns (r: Result)
    modifies q, o
    ensures Pipe(q.pending, o.pending, o.written, replies + r.replies)
         == Feed(Pipe(old(q.pending), old(o.pending), old(o.written), replies), chunk)
  {
    r := q.Process(chunk);
    o.Write(r.display);
  }

  // ----- where a cut can fall in a token -----

  /** A proper, non-empty beginning of a token's bytes. */
  ghost predicate Partial(t: Token, part: seq<byte>) {
    WellFormed(t) && part != [] && part < Print(t)
  }

  /** The cut between the ESC and the \ of the terminator of a control string. */
  ghost predicate CutInSt(t: Token, part: seq<byte>) {
    (t.Osc? || t.Dcs?) && t.term == St && part == Unterminated(t) + [ESC]
  }

  lemma PartialHead(t: Token, part: seq<byte>)
    requires Partial(t, part)
    ensures part[0] == ESC && !t.Plain?
  {
  }

  lemma PartialString(t: Token, part: seq<byte>)
    requires (t.Osc? || t.Dcs?) && Partial(t, part)
    ensures part <= Unterminated(t) || CutInSt(t, part)
  {
    var u := Unterminated(t);
    assert Print(t) == u + PrintTerm(t.term);
    if |part| <= |u| {
      assert part == u[..|part|];
    } else {
      assert part == u + [PrintTerm(t.term)[0]];
    }
  }

  /** Nothing but the sequence's own ESC in a partial token, unless the cut is inside an ST. */
  lemma PartialEsc(t: Token, part: seq<byte>)
    requires Partial(t, part) && !CutInSt(t, part)
    ensures ESC !in part[1..]
    ensures (t.Osc? || t.Dcs?) && |part| >= 2 ==> part[2..] <= t.body
  {
    if t.Osc? || t.Dcs? {
      PartialString(t, part);
    }
  }

  lemma PartialIncomplete(t: Token, part: seq<byte>)
    requires Partial(t, part) && !CutInSt(t, part)
    ensures !Complete(part)
  {
    PartialEsc(t, part);
    if |part| >= 2 {
      match t {
        case Csi(params, inters, final) => PartialCsi(t, part);
        case Osc(body, _) => NoStringEnd(part[2..]);
        case Dcs(body, _) => NoStringEnd(part[2..]);
        case Esc2(_) =>
        case Plain(_) =>
      }
    }
  }

  lemma PartialCsi(t: Token, part: seq<byte>)
    requires t.Csi? && Partial(t, part) && |part| >= 2
    ensures part[1] == CSI_OPEN && ScanCsi(part[2..]).final == None
  {
    var s := part[2..];
    assert s <= t.params + t.inters;
    if |s| <= |t.params| {
      assert s == t.params[..|s|] + [] + [];
      ScanOf(t.params[..|s|], [], []);
    } else {
      assert s == t.params + t.inters[..|s| - |t.params|] + [];
      ScanOf(t.params, t.inters[..|s| - |t.params|], []);
    }
  }

  /** Every sequence inside whole tokens is complete. */
  lemma {:induction false} WholeTokensComplete(ts: seq<Token>, k: nat)
    requires AllWellFormed(ts) && k < |PrintAll(ts)| && PrintAll(ts)[k] == ESC
    ensures Complete(PrintAll(ts)[k..])
  {
    var t, rest := ts[0], PrintAll(ts[1..]);
    var n := |Print(t)|;
    if k >= n {
      assert PrintAll(ts)[k..] == rest[k - n..];
      WholeTokensComplete(ts[1..], k - n);
    } else if k == 0 {
      assert PrintAll(ts)[0..] == Print(t) + rest;
      TokenComplete(t, rest);
    } else {
      assert Print(t)[k] == ESC;
      InnerEsc(t, k);
      assert PrintAll(ts)[k + 1] == Print(t)[k + 1];
    }
  }

  /** A control sequence is complete exactly when what ends it is a final byte of the standard. */
  lemma CompleteByFinal(params: seq<byte>, inters: seq<byte>, b: byte, rest: seq<byte>)
    requires Within(params, 0x30, 0x3F) && Within(inters, 0x20, 0x2F) && !(0x20 <= b <= 0x3F)
    ensures Complete([ESC, CSI_OPEN] + params + inters + [b] + rest) <==> 0x40 <= b <= 0x7E
  {
    var tail := [b] + rest;
    var d := [ESC, CSI_OPEN] + params + inters + [b] + rest;
    assert d[2..] == params + (inters + tail);
    SpanOf(params, inters + tail, 0x30, 0x3F);
    assert (params + (inters + tail))[|params|..] == inters + tail;
    SpanOf(inters, tail, 0x20, 0x2F);
    assert d[2..][|params| + |inters|] == b;
  }

  lemma TokenComplete(t: Token, rest: seq<byte>)
    requires WellFormed(t)
    ensures Complete(Print(t) + rest)
  {
    match t {
      case Csi(_, _, _) => CsiReadsBack(t, rest);
      case Osc(_, _) => StringReadsBack(t, rest);
      case Dcs(_, _) => StringReadsBack(t, rest);
      case _ =>
    }
  }

  lemma InnerEsc(t: Token, k: nat)
    requires WellFormed(t) && 0 < k < |Print(t)| && Print(t)[k] == ESC
    ensures k + 1 < |Print(t)| && Print(t)[k + 1] == ST_CLOSE
  {
  }

  lemma SplitOfWhole(ts: seq<Token>)
    requires AllWellFormed(ts)
    ensures TrailingStart(PrintAll(ts)) == |PrintAll(ts)|
  {
    var d := PrintAll(ts);
    forall k | 0 <= k < |d| && d[k] == ESC ensures Complete(d[k..]) {
      WholeTokensComplete(ts, k);
    }
    TrailingIs(d, |d|);
  }

  /** A partial token is held back whole, except that a cut inside an ST holds back its ESC only. */
  lemma SplitOfPartial(s: seq<byte>, t: Token, part: seq<byte>)
    requires Partial(t, part)
    ensures TrailingStart(s + part) == if CutInSt(t, part) then |s + part| - 1 else |s|
  {
    var d := s + part;
    if CutInSt(t, part) {
      assert d[|d| - 1..] == [ESC];
      TrailingIs(d, |d| - 1);
    } else {
      PartialHead(t, part);
      PartialEsc(t, part);
      PartialIncomplete(t, part);
      assert d[|s|..] == part;
      forall k | |s| < k < |d| ensures d[k] != ESC {
        assert d[k] == part[1..][k - |s| - 1];
      }
      TrailingIs(d, |s|);
    }
  }

  // ----- positions in a stream -----

  /** The tokens that lie wholly within the first `n` bytes. */
  function Whole(ts: seq<Token>, n: nat): seq<Token> {
    if ts == [] || n < |Print(ts[0])| then [] else [ts[0]] + Whole(ts[1..], n - |Print(ts[0])|)
  }

  /** The tokens not yet complete after `n` bytes, and how many bytes of the first are in. */
  function Left(ts: seq<Token>, n: nat): seq<Token> {
    if ts == [] || n < |Print(ts[0])| then ts else Left(ts[1..], n - |Print(ts[0])|)
  }

  function Into(ts: seq<Token>, n: nat): nat {
    if ts == [] || n < |Print(ts[0])| then n else Into(ts[1..], n - |Print(ts[0])|)
  }

  /** The bytes of the next token that are already in. */
  function Part(ts: seq<Token>, k: nat): seq<byte> {
    if ts == [] || k > |Print(ts[0])| then [] else Print(ts[0])[..k]
  }

  ghost predicate Position(ts: seq<Token>, k: nat) {
    AllWellFormed(ts) && (if ts == [] then k == 0 else k < |Print(ts[0])|)
  }

  lemma WholeStep(ts: seq<Token>, n: nat)
    requires ts != [] && n >= |Print(ts[0])|
    ensures Whole(ts, n) == [ts[0]] + Whole(ts[1..], n - |Print(ts[0])|)
    ensures Left(ts, n) == Left(ts[1..], n - |Print(ts[0])|)
    ensures Into(ts, n) == Into(ts[1..], n - |Print(ts[0])|)
  {
  }

  lemma {:induction false} LocateTokens(ts: seq<Token>, n: nat)
    requires AllWellFormed(ts) && n <= |PrintAll(ts)|
    ensures ts == Whole(ts, n) + Left(ts, n) && AllWellFormed(Whole(ts, n))
    ensures Position(Left(ts, n), Into(ts, n))
  {
    if ts != [] && n >= |Print(ts[0])| {
      var m := n - |Print(ts[0])|;
      LocateTokens(ts[1..], m);
      Assoc([ts[0]], Whole(ts[1..], m), Left(ts[1..], m));
      assert ts == [ts[0]] + ts[1..];
      forall i | 0 <= i < |Whole(ts, n)| ensures WellFormed(Whole(ts, n)[i]) {
        assert i > 0 ==> Whole(ts, n)[i] == Whole(ts[1..], m)[i - 1];
      }
    }
  }

  lemma {:induction false} LocateBytes(ts: seq<Token>, n: nat)
    requires n <= |PrintAll(ts)|
    ensures PrintAll(ts)[..n] == PrintAll(Whole(ts, n)) + Part(Left(ts, n), Into(ts, n))
  {
    if ts == [] || n < |Print(ts[0])| {
      assert PrintAll([]) + Part(ts, n) == Part(ts, n);
      if ts != [] {
        assert PrintAll(ts)[..n] == Print(ts[0])[..n];
      }
    } else {
      var len := |Print(ts[0])|;
      var more := Whole(ts[1..], n - len);
      LocateBytes(ts[1..], n - len);
      assert PrintAll(ts)[..n] == Print(ts[0]) + PrintAll(ts[1..])[..n - len];
      assert Whole(ts, n) == [ts[0]] + more && Whole(ts, n)[1..] == more;
      Assoc(Print(ts[0]), PrintAll(more), Part(Left(ts, n), Into(ts, n)));
    }
  }

  /** Is position `k` of the next token between the ESC and the \ of its ST? */
  predicate InSt(ts: seq<Token>, k: nat) {
    ts != [] && (ts[0].Osc? || ts[0].Dcs?) && ts[0].term == St && k + 1 == |Print(ts[0])|
  }

  lemma PartIsPartial(ts: seq<Token>, k: nat)
    requires Position(ts, k) && k > 0
    ensures Partial(ts[0], Part(ts, k))
    ensures CutInSt(ts[0], Part(ts, k)) <==> InSt(ts, k)
  {
    var t := ts[0];
    if t.Osc? || t.Dcs? {
      assert Print(t) == Unterminated(t) + PrintTerm(t.term);
      if InSt(ts, k) {
        assert Part(ts, k) == Unterminated(t) + [ESC];
      }
    }
  }

  // ----- one chunk -----

  /** What both stages hold after some of the stream: the cut token, or the ESC of a cut ST. */
  ghost predicate Holds(p: Pipe, ts: seq<Token>, k: nat) {
    p.pending == (if InSt(ts, k) then [ESC] else Part(ts, k)) && p.stdoutPending == ShownCut(ts, k)
  }

  /** The part of a cut control string that the first stage already let through. */
  function ShownCut(ts: seq<Token>, k: nat): seq<byte> {
    if InSt(ts, k) && TokenAction(ts[0]).Keep? then Unterminated(ts[0]) else []
  }

  lemma FirstCut(whole: seq<byte>, ms: seq<Token>, ts: seq<Token>, k: nat)
    requires AllWellFormed(ms) && whole == PrintAll(ms) && Position(ts, k)
    ensures var x := whole + Part(ts, k);
            var cut := TrailingStart(x);
            if InSt(ts, k) then x[cut..] == [ESC] && x[..cut] == whole + Unterminated(ts[0])
            else x[cut..] == Part(ts, k) && x[..cut] == whole
  {
    var part := Part(ts, k);
    var x := whole + part;
    if k == 0 {
      assert x == whole;
      SplitOfWhole(ms);
    } else {
      PartIsPartial(ts, k);
      SplitOfPartial(whole, ts[0], part);
      if InSt(ts, k) {
        assert x == whole + Unterminated(ts[0]) + [ESC];
      }
    }
  }

  lemma FirstStage(ms: seq<Token>, ts: seq<Token>, k: nat)
    requires AllWellFormed(ms) && Position(ts, k)
    ensures var x := PrintAll(ms) + Part(ts, k);
            var cut := TrailingStart(x);
            if InSt(ts, k) then
              x[cut..] == [ESC] &&
              Unified(x[..cut]) == Then(Summary(ms), Acted(TokenAction(ts[0]), Unterminated(ts[0])))
            else
              x[cut..] == Part(ts, k) && Unified(x[..cut]) == Summary(ms)
  {
    FirstCut(PrintAll(ms), ms, ts, k);
    if InSt(ts, k) {
      UnifiedWithCut(ms, ts[0]);
    } else {
      UnifiedWhole(ms);
    }
  }

  lemma UnifiedWhole(ms: seq<Token>)
    requires AllWellFormed(ms)
    ensures Unified(PrintAll(ms)) == Summary(ms)
  {
    UnifiedOnTokens(ms, []);
    assert PrintAll(ms) + [] == PrintAll(ms);
    assert Then(Summary(ms), Nothing) == Summary(ms);
  }

  lemma UnifiedWithCut(ms: seq<Token>, t: Token)
    requires AllWellFormed(ms) && (t.Osc? || t.Dcs?) && WellFormed(t)
    ensures Unified(PrintAll(ms) + Unterminated(t)) == Then(Summary(ms), Acted(TokenAction(t), Unterminated(t)))
  {
    UnifiedOnTokens(ms, Unterminated(t));
    UnifiedOnUnterminated(t);
  }

  lemma SecondStage(ss: seq<Token>, ts: seq<Token>, k: nat)
    requires AllWellFormed(ss) && Position(ts, k)
    ensures var tail := ShownCut(ts, k);
            var x := PrintAll(ss) + tail;
            var cut := TrailingStart(x);
            x[cut..] == tail && FinalFilter.Final(x[..cut]) == PrintAll(FinalFilter.Kept(ss))
  {
    var tail := ShownCut(ts, k);
    var whole := PrintAll(ss);
    var x := whole + tail;
    if tail == [] {
      assert x == whole;
      SplitOfWhole(ss);
    } else {
      assert Print(ts[0]) == tail + PrintTerm(ts[0].term);
      assert Partial(ts[0], tail);
      SplitOfPartial(whole, ts[0], tail);
    }
    assert x[..|whole|] == whole;
    FinalFilter.FinalIsKept(ss);
  }

  /** The chunk starts between the ESC and the \ ending a control string the first stage removes. */
  predicate CutHarms(ts: seq<Token>, k: nat, chunk: seq<byte>) {
    InSt(ts, k) && !TokenAction(ts[0]).Keep? && chunk != []
  }

  /** What such a cut lets through. */
  function Leak(ts: seq<Token>, k: nat, chunk: seq<byte>): seq<byte> {
    if CutHarms(ts, k, chunk) then [ESC, ST_CLOSE] else []
  }

  /** The answer already given to a query whose ST is cut. */
  function AnsweredEarly(ts: seq<Token>, k: nat): seq<Reply> {
    if InSt(ts, k) && TokenAction(ts[0]).Intercept? then [TokenAction(ts[0]).reply] else []
  }

  /** The tokens the first stage sees: after a cut ST, its ESC \ stands alone. */
  function Seen(ts: seq<Token>, k: nat, n: nat): seq<Token> {
    if !InSt(ts, k) then Whole(ts, n)
    else if n < |Print(ts[0])| then []
    else [Esc2(ST_CLOSE)] + Whole(ts[1..], n - |Print(ts[0])|)
  }

  lemma DropPrefix(u: seq<byte>, a: seq<byte>, b: seq<byte>)
    requires u + a == u + b
    ensures a == b
  {
    assert (u + a)[|u|..] == a && (u + b)[|u|..] == b;
  }

  /** After a cut ST, what is held plus the chunk starts with the stand-alone ESC \. */
  lemma BytesAfterCut(t: Token, more: seq<byte>, part: seq<byte>, chunk: seq<byte>)
    requires (t.Osc? || t.Dcs?) && t.term == St
    requires Unterminated(t) + [ESC] + chunk == Print(t) + more + part
    ensures [ESC] + chunk == [ESC, ST_CLOSE] + more + part
  {
    hide Print, Unterminated;
    var u, st: seq<byte> := Unterminated(t), [ESC, ST_CLOSE];
    PrintOfSt(t);
    Assoc(u, st, more);
    Assoc(u, st + more, part);
    Assoc(u, [ESC], chunk);
    DropPrefix(u, [ESC] + chunk, st + more + part);
  }

  lemma PrintOfSt(t: Token)
    requires (t.Osc? || t.Dcs?) && t.term == St
    ensures Print(t) == Unterminated(t) + [ESC, ST_CLOSE]
  {
  }

  lemma SeenWellFormed(ts: seq<Token>, k: nat, n: nat)
    requires Position(ts, k) && n <= |PrintAll(ts)|
    ensures AllWellFormed(Seen(ts, k, n))
  {
    hide Whole, Left, Into, Print;
    LocateTokens(ts, n);
    if InSt(ts, k) && n >= |Print(ts[0])| {
      LocateTokens(ts[1..], n - |Print(ts[0])|);
      assert WellFormed(Esc2(ST_CLOSE));
    }
  }

  /** The bytes the first stage works on are those tokens and the next cut token. */
  lemma SeenBytes(p: Pipe, ts: seq<Token>, k: nat, chunk: seq<byte>)
    requires Position(ts, k) && Holds(p, ts, k) && Part(ts, k) + chunk <= PrintAll(ts)
    requires !(InSt(ts, k) && chunk == [])
    ensures var n := k + |chunk|;
            && n <= |PrintAll(ts)|
            && p.pending + chunk == PrintAll(Seen(ts, k, n)) + Part(Left(ts, n), Into(ts, n))
  {
    hide Whole, Left, Into, Print, PrintAll, Seen;
    var n := k + |chunk|;
    PartLength(ts, k);
    LocateBytes(ts, n);
    assert PrintAll(ts)[..n] == Part(ts, k) + chunk;
    if InSt(ts, k) {
      SeenAfterCut(ts, k, chunk);
    } else {
      SeenIsWhole(ts, k, n);
    }
  }

  lemma SeenIsWhole(ts: seq<Token>, k: nat, n: nat)
    requires !InSt(ts, k)
    ensures Seen(ts, k, n) == Whole(ts, n)
  {
  }

  lemma SeenAfterCut(ts: seq<Token>, k: nat, chunk: seq<byte>)
    requires Position(ts, k) && InSt(ts, k) && chunk != []
    requires var n := k + |chunk|;
             Part(ts, k) + chunk == PrintAll(Whole(ts, n)) + Part(Left(ts, n), Into(ts, n))
    ensures var n := k + |chunk|;
            [ESC] + chunk == PrintAll(Seen(ts, k, n)) + Part(Left(ts, n), Into(ts, n))
  {
    hide Whole, Left, Into, Print;
    var n := k + |chunk|;
    var t := ts[0];
    var more := Whole(ts[1..], n - |Print(t)|);
    WholeStep(ts, n);
    assert Whole(ts, n)[1..] == more && Seen(ts, k, n)[1..] == more;
    PartInSt(ts, k);
    BytesAfterCut(t, PrintAll(more), Part(Left(ts, n), Into(ts, n)), chunk);
    PrintOfLoneSt();
  }

  lemma PrintOfLoneSt()
    ensures Print(Esc2(ST_CLOSE)) == [ESC, ST_CLOSE]
  {
  }

  lemma PartInSt(ts: seq<Token>, k: nat)
    requires Position(ts, k) && InSt(ts, k)
    ensures Part(ts, k) == Unterminated(ts[0]) + [ESC]
  {
    PartIsPartial(ts, k);
  }

  lemma FirstStageShows(ms: seq<Token>, ts: seq<Token>, k: nat, x: seq<byte>)
    requires AllWellFormed(ms) && Position(ts, k) && x == PrintAll(ms) + Part(ts, k)
    ensures var r := Unified(x[..TrailingStart(x)]);
            && x[TrailingStart(x)..] == (if InSt(ts, k) then [ESC] else Part(ts, k))
            && r.display == PrintAll(ShownTokens(ms)) + ShownCut(ts, k)
            && r.replies == Answers(ms) + AnsweredEarly(ts, k)
  {
    FirstStage(ms, ts, k);
    SummaryIs(ms);
  }

  /** What the first stage does with a chunk. */
  lemma FirstStageStep(p: Pipe, ts: seq<Token>, k: nat, chunk: seq<byte>)
    requires Position(ts, k) && Holds(p, ts, k) && Part(ts, k) + chunk <= PrintAll(ts)
    requires !(InSt(ts, k) && chunk == [])
    ensures var n := k + |chunk|;
            var ts', k', seen := Left(ts, n), Into(ts, n), Seen(ts, k, n);
            var first := p.pending + chunk;
            var r := Unified(first[..TrailingStart(first)]);
            && first[TrailingStart(first)..] == (if InSt(ts', k') then [ESC] else Part(ts', k'))
            && r.display == PrintAll(ShownTokens(seen)) + ShownCut(ts', k')
            && r.replies == Answers(seen) + AnsweredEarly(ts', k')
  {
    hide Whole, Left, Into, Print, PrintAll, Seen, ShownTokens, Answers, AnsweredEarly, ShownCut, TrailingStart;
    hide Unified, Holds, Part, InSt;
    var n := k + |chunk|;
    SeenBytes(p, ts, k, chunk);
    SeenWellFormed(ts, k, n);
    LocateTokens(ts, n);
    FirstStageShows(Seen(ts, k, n), Left(ts, n), Into(ts, n), p.pending + chunk);
  }

  /** The tokens the second stage sees: a kept control string is whole again. */
  function Printed(ts: seq<Token>, k: nat, n: nat): seq<Token> {
    if InSt(ts, k) && n >= |Print(ts[0])| && TokenAction(ts[0]).Keep? then
      [ts[0]] + ShownTokens(Whole(ts[1..], n - |Print(ts[0])|))
    else
      ShownTokens(Seen(ts, k, n))
  }

  lemma PrintedBytes(ts: seq<Token>, k: nat, n: nat)
    requires Position(ts, k) && k <= n <= |PrintAll(ts)| && (InSt(ts, k) ==> k < n)
    ensures ShownCut(ts, k) + PrintAll(ShownTokens(Seen(ts, k, n))) == PrintAll(Printed(ts, k, n))
    ensures AllWellFormed(Printed(ts, k, n))
  {
    SeenWellFormed(ts, k, n);
    ShownFacts(Seen(ts, k, n));
    if InSt(ts, k) && TokenAction(ts[0]).Keep? {
      var t := ts[0];
      var more := Whole(ts[1..], n - |Print(t)|);
      assert Seen(ts, k, n)[1..] == more;
      assert ShownTokens(Seen(ts, k, n)) == [Esc2(ST_CLOSE)] + ShownTokens(more);
      LocateTokens(ts[1..], n - |Print(t)|);
      ShownFacts(more);
      PrintAllConcat([Esc2(ST_CLOSE)], ShownTokens(more));
      PrintAllConcat([t], ShownTokens(more));
      PrintOne(t);
      PrintOne(Esc2(ST_CLOSE));
      assert Print(t) == Unterminated(t) + [ESC, ST_CLOSE];
      Assoc(Unterminated(t), [ESC, ST_CLOSE], PrintAll(ShownTokens(more)));
    }
  }

  /** A removed control string contributes nothing, so its tail decides. */
  lemma KeptAfterString(t: Token, more: seq<Token>)
    requires t.Osc? || t.Dcs?
    ensures FinalFilter.Kept([t] + more) == FinalFilter.Kept(more)
  {
    FinalFilter.KeptConcat([t], more);
    assert FinalFilter.Kept([t]) == [];
  }

  lemma KeptAfterLeak(more: seq<Token>)
    ensures PrintAll(FinalFilter.Kept([Esc2(ST_CLOSE)] + more)) == [ESC, ST_CLOSE] + PrintAll(FinalFilter.Kept(more))
  {
    var st := Esc2(ST_CLOSE);
    FinalFilter.KeptConcat([st], more);
    assert FinalFilter.Kept([st]) == [st];
    PrintAllConcat([st], FinalFilter.Kept(more));
    PrintOne(st);
  }

  /** The second stage prints the kept tokens, after the leak of a cut ST if there is one. */
  lemma PrintedKept(ts: seq<Token>, k: nat, n: nat, chunk: seq<byte>)
    requires Position(ts, k) && n == k + |chunk| <= |PrintAll(ts)| && (InSt(ts, k) ==> chunk != [])
    ensures PrintAll(FinalFilter.Kept(Printed(ts, k, n)))
         == Leak(ts, k, chunk) + PrintAll(FinalFilter.Kept(Whole(ts, n)))
  {
    if !InSt(ts, k) {
      LocateTokens(ts, n);
      KeptOfShown(Whole(ts, n));
    } else {
      PrintedKeptAfterCut(ts, k, n);
    }
  }

  lemma PrintedKeptAfterCut(ts: seq<Token>, k: nat, n: nat)
    requires Position(ts, k) && InSt(ts, k) && k < n <= |PrintAll(ts)|
    ensures PrintAll(FinalFilter.Kept(Printed(ts, k, n)))
         == (if TokenAction(ts[0]).Keep? then [] else [ESC, ST_CLOSE]) + PrintAll(FinalFilter.Kept(Whole(ts, n)))
  {
    var t := ts[0];
    var more := Whole(ts[1..], n - |Print(t)|);
    LocateTokens(ts[1..], n - |Print(t)|);
    KeptOfShown(more);
    KeptAfterString(t, more);
    assert Whole(ts, n) == [t] + more;
    if TokenAction(t).Keep? {
      KeptAfterString(t, ShownTokens(more));
    } else {
      assert Seen(ts, k, n) == [Esc2(ST_CLOSE)] + more && Seen(ts, k, n)[1..] == more;
      assert Printed(ts, k, n) == [Esc2(ST_CLOSE)] + ShownTokens(more);
      KeptAfterLeak(ShownTokens(more));
    }
  }

  lemma LoneEscIsHeld()
    ensures TrailingStart([ESC]) == 0
  {
    assert [ESC][0..] == [ESC];
    TrailingIs([ESC], 0);
  }

  lemma ShownCutIsHeld(ts: seq<Token>, k: nat)
    requires Position(ts, k)
    ensures TrailingStart(ShownCut(ts, k)) == 0
  {
    var cut := ShownCut(ts, k);
    SecondStage([], ts, k);
    assert PrintAll([]) + cut == cut;
    assert |cut[TrailingStart(cut)..]| == |cut|;
  }

  lemma EmptyChunkInSt(p: Pipe, ts: seq<Token>, k: nat)
    requires Position(ts, k) && Holds(p, ts, k) && InSt(ts, k)
    ensures Feed(p, []) == p
  {
    LoneEscIsHeld();
    ShownCutIsHeld(ts, k);
    assert p.pending + [] == [ESC] == [ESC][0..] && [ESC][..0] == [];
    assert p.stdoutPending + [] == ShownCut(ts, k);
    assert ShownCut(ts, k)[..0] == [] && ShownCut(ts, k)[0..] == ShownCut(ts, k);
    assert p.out + [] == p.out && p.replies + [] == p.replies;
  }

  lemma PartLength(ts: seq<Token>, k: nat)
    requires Position(ts, k)
    ensures |Part(ts, k)| == k
  {
  }

  lemma EmptyStep(ts: seq<Token>, k: nat)
    requires Position(ts, k)
    ensures Left(ts, k) == ts && Into(ts, k) == k
    ensures Leak(ts, k, []) == [] && PrintAll(FinalFilter.Kept(Whole(ts, k))) == []
  {
  }

  /**
    One chunk: afterwards exactly the cut token is held, the kept tokens that became complete
    are out (after a leak, if the chunk follows a harmful cut), and the queries among them
    are answered, each once.
   */
  lemma FeedStep(p: Pipe, ts: seq<Token>, k: nat, chunk: seq<byte>)
    requires Position(ts, k) && Holds(p, ts, k) && Part(ts, k) + chunk <= PrintAll(ts)
    ensures var n := k + |chunk|;
            var q := Feed(p, chunk);
            && n <= |PrintAll(ts)|
            && Holds(q, Left(ts, n), Into(ts, n))
            && q.out == p.out + (Leak(ts, k, chunk) + PrintAll(FinalFilter.Kept(Whole(ts, n))))
  {
    hide Left, Into, Print, PrintAll, Seen, ShownTokens, ShownCut, TrailingStart, Unified, Printed, Leak;
    hide FinalFilter.Kept, FinalFilter.Final;
    var n := k + |chunk|;
    PartLength(ts, k);
    if InSt(ts, k) && chunk == [] {
      EmptyChunkInSt(p, ts, k);
      EmptyStep(ts, k);
      assert p.out + ([] + []) == p.out;
    } else {
      var ts', k' := Left(ts, n), Into(ts, n);
      FirstStageStep(p, ts, k, chunk);
      PrintedBytes(ts, k, n);
      LocateTokens(ts, n);
      SecondStage(Printed(ts, k, n), ts', k');
      Assoc(ShownCut(ts, k), PrintAll(ShownTokens(Seen(ts, k, n))), ShownCut(ts', k'));
      PrintedKept(ts, k, n, chunk);
    }
  }

  /** Answers to what the first stage sees are the answers still owed. */
  lemma SeenAnswers(ts: seq<Token>, k: nat, n: nat)
    requires InSt(ts, k) ==> n >= |Print(ts[0])|
    ensures AnsweredEarly(ts, k) + Answers(Seen(ts, k, n)) == Answers(Whole(ts, n))
  {
    hide Whole, Print, TokenAction;
    if InSt(ts, k) {
      var more := Whole(ts[1..], n - |Print(ts[0])|);
      WholeStep(ts, n);
      AnswersConcat([Esc2(ST_CLOSE)], more);
      AnswersConcat([ts[0]], more);
      PlainAnswers();
      assert Answers([ts[0]]) == AnsweredEarly(ts, k);
    }
  }

  lemma PlainAnswers()
    ensures Answers([Esc2(ST_CLOSE)]) == []
  {
  }

  /** What a chunk makes the interceptor answer. */
  function NewReplies(ts: seq<Token>, k: nat, chunk: seq<byte>): seq<Reply> {
    var n := k + |chunk|;
    if InSt(ts, k) && chunk == [] then [] else Answers(Seen(ts, k, n)) + AnsweredEarly(Left(ts, n), Into(ts, n))
  }

  lemma RepliesStep(p: Pipe, ts: seq<Token>, k: nat, chunk: seq<byte>)
    requires Position(ts, k) && Holds(p, ts, k) && Part(ts, k) + chunk <= PrintAll(ts)
    ensures Feed(p, chunk).replies == p.replies + NewReplies(ts, k, chunk)
  {
    if InSt(ts, k) && chunk == [] {
      EmptyChunkInSt(p, ts, k);
    } else {
      FirstStageStep(p, ts, k, chunk);
    }
  }

  // ----- every chunking -----

  /** The bytes are the next ones of the stream, `k` bytes into `ts`. */
  ghost predicate Next(ts: seq<Token>, k: nat, bytes: seq<byte>) {
    k + |bytes| <= |PrintAll(ts)| && PrintAll(ts)[k..k + |bytes|] == bytes
  }

  /** The state at a position of the stream, with what has come out so far. */
  function At(ts: seq<Token>, k: nat, out: seq<byte>, replies: seq<Reply>): Pipe {
    Pipe(if InSt(ts, k) then [ESC] else Part(ts, k), ShownCut(ts, k), out, replies)
  }

  /** What a chunk lets out. */
  function NewOut(ts: seq<Token>, k: nat, chunk: seq<byte>): seq<byte> {
    Leak(ts, k, chunk) + PrintAll(FinalFilter.Kept(Whole(ts, k + |chunk|)))
  }

  lemma NextIsPart(ts: seq<Token>, k: nat, chunk: seq<byte>)
    requires Position(ts, k) && Next(ts, k, chunk)
    ensures Part(ts, k) + chunk <= PrintAll(ts)
  {
    assert Part(ts, k) == PrintAll(ts)[..k];
    assert Part(ts, k) + chunk == PrintAll(ts)[..k + |chunk|];
  }

  lemma FeedAt(ts: seq<Token>, k: nat, out: seq<byte>, replies: seq<Reply>, chunk: seq<byte>)
    requires Position(ts, k) && Next(ts, k, chunk)
    ensures Feed(At(ts, k, out, replies), chunk)
         == At(Left(ts, k + |chunk|), Into(ts, k + |chunk|),
               out + NewOut(ts, k, chunk), replies + NewReplies(ts, k, chunk))
  {
    hide Whole, Left, Into, Print, PrintAll, Part, InSt, ShownCut, Feed, NewReplies, Leak, FinalFilter.Kept;
    var p := At(ts, k, out, replies);
    NextIsPart(ts, k, chunk);
    FeedStep(p, ts, k, chunk);
    RepliesStep(p, ts, k, chunk);
  }

  /** The bytes of the stream up to `n`, split at the last complete token. */
  lemma SplitAt(ts: seq<Token>, k: nat, n: nat)
    requires Position(ts, k) && k <= n <= |PrintAll(ts)|
    ensures Position(Left(ts, n), Into(ts, n))
    ensures PrintAll(ts) == PrintAll(Whole(ts, n)) + PrintAll(Left(ts, n))
    ensures n == |PrintAll(Whole(ts, n))| + Into(ts, n)
  {
    LocateTokens(ts, n);
    LocateBytes(ts, n);
    PrintAllConcat(Whole(ts, n), Left(ts, n));
    assert |Part(Left(ts, n), Into(ts, n))| == Into(ts, n);
  }

  lemma NextMoves(ts: seq<Token>, k: nat, chunk: seq<byte>, more: seq<byte>)
    requires Position(ts, k) && Next(ts, k, chunk + more)
    ensures Next(ts, k, chunk)
    ensures var n := k + |chunk|; Position(Left(ts, n), Into(ts, n)) && Next(Left(ts, n), Into(ts, n), more)
  {
    hide Whole, Left, Into, Print, PrintAll, Position;
    var n, m := k + |chunk|, |more|;
    SplitAt(ts, k, n);
    var all, done, rest := PrintAll(ts), PrintAll(Whole(ts, n)), PrintAll(Left(ts, n));
    assert all[k..n] == (chunk + more)[..|chunk|] == chunk;
    assert all[n..n + m] == (chunk + more)[|chunk|..] == more;
    assert all[n..n + m] == rest[n - |done|..n - |done| + m];
  }

  /** Bytes the pipeline lets out for a stream cut into these chunks, `k` bytes into `ts`. */
  function Expected(ts: seq<Token>, k: nat, chunks: seq<seq<byte>>): seq<byte>
    decreases |chunks|
  {
    if chunks == [] then [] else
      var n := k + |chunks[0]|;
      NewOut(ts, k, chunks[0]) + Expected(Left(ts, n), Into(ts, n), chunks[1..])
  }

  function ExpectedReplies(ts: seq<Token>, k: nat, chunks: seq<seq<byte>>): seq<Reply>
    decreases |chunks|
  {
    if chunks == [] then [] else
      var n := k + |chunks[0]|;
      NewReplies(ts, k, chunks[0]) + ExpectedReplies(Left(ts, n), Into(ts, n), chunks[1..])
  }

  /** How many chunks start at a harmful cut. */
  function HarmfulCuts(ts: seq<Token>, k: nat, chunks: seq<seq<byte>>): nat
    decreases |chunks|
  {
    if chunks == [] then 0 else
      var n := k + |chunks[0]|;
      (if CutHarms(ts, k, chunks[0]) then 1 else 0) + HarmfulCuts(Left(ts, n), Into(ts, n), chunks[1..])
  }

  lemma {:induction false} LocateTwice(ts: seq<Token>, n: nat, m: nat)
    ensures Left(Left(ts, n), Into(ts, n) + m) == Left(ts, n + m)
    ensures Into(Left(ts, n), Into(ts, n) + m) == Into(ts, n + m)
    ensures Whole(ts, n + m) == Whole(ts, n) + Whole(Left(ts, n), Into(ts, n) + m)
  {
    if ts != [] && n >= |Print(ts[0])| {
      LocateTwice(ts[1..], n - |Print(ts[0])|, m);
      Assoc([ts[0]], Whole(ts[1..], n - |Print(ts[0])|), Whole(Left(ts, n), Into(ts, n) + m));
    }
  }

  /** A position within the first token is where it says it is. */
  lemma PositionIsLeft(ts: seq<Token>, k: nat)
    requires Position(ts, k)
    ensures Whole(ts, k) == [] && Left(ts, k) == ts && Into(ts, k) == k
  {
  }

  lemma {:induction false} FeedAllAt(ts: seq<Token>, k: nat, out: seq<byte>, replies: seq<Reply>,
                                         chunks: seq<seq<byte>>)
    requires Position(ts, k) && Next(ts, k, Flatten(chunks))
    ensures var n := k + |Flatten(chunks)|;
            FeedAll(At(ts, k, out, replies), chunks)
            == At(Left(ts, n), Into(ts, n), out + Expected(ts, k, chunks), replies + ExpectedReplies(ts, k, chunks))
    decreases |chunks|
  {
    hide Whole, Left, Into, Print, PrintAll, Position, Next, Feed, At, NewOut, NewReplies;
    if chunks == [] {
      PositionIsLeft(ts, k);
      assert out + [] == out && replies + [] == replies;
    } else {
      var c, more := chunks[0], chunks[1..];
      var n := k + |c|;
      NextMoves(ts, k, c, Flatten(more));
      FeedAt(ts, k, out, replies, c);
      FeedAllAt(Left(ts, n), Into(ts, n), out + NewOut(ts, k, c), replies + NewReplies(ts, k, c), more);
      LocateTwice(ts, n, |Flatten(more)|);
      Assoc(out, NewOut(ts, k, c), Expected(Left(ts, n), Into(ts, n), more));
      Assoc(replies, NewReplies(ts, k, c), ExpectedReplies(Left(ts, n), Into(ts, n), more));
    }
  }

  /** The answers owed and the answers given balance after any chunks. */
  lemma {:induction false} RepliesBalance(ts: seq<Token>, k: nat, chunks: seq<seq<byte>>)
    requires Position(ts, k) && Next(ts, k, Flatten(chunks))
    ensures var n := k + |Flatten(chunks)|;
            AnsweredEarly(ts, k) + ExpectedReplies(ts, k, chunks)
            == Answers(Whole(ts, n)) + AnsweredEarly(Left(ts, n), Into(ts, n))
    decreases |chunks|
  {
    hide Whole, Left, Into, Print, PrintAll, Position, Next, NewReplies, AnsweredEarly;
    if chunks == [] {
      PositionIsLeft(ts, k);
      assert AnsweredEarly(ts, k) + [] == [] + AnsweredEarly(ts, k);
    } else {
      var c, more := chunks[0], chunks[1..];
      var n := k + |c|;
      var ts', k', m := Left(ts, n), Into(ts, n), |Flatten(more)|;
      NextMoves(ts, k, c, Flatten(more));
      SeenBalance(ts, k, c);
      RepliesBalance(ts', k', more);
      LocateTwice(ts, n, m);
      AnswersConcat(Whole(ts, n), Whole(ts', k' + m));
      Rebalance(AnsweredEarly(ts, k), NewReplies(ts, k, c), ExpectedReplies(ts', k', more), Answers(Whole(ts, n)),
                AnsweredEarly(ts', k'), Answers(Whole(ts', k' + m)),
                AnsweredEarly(Left(ts', k' + m), Into(ts', k' + m)));
    }
  }

  lemma Rebalance<T>(early: seq<T>, now: seq<T>, later: seq<T>, a: seq<T>, mid: seq<T>, b: seq<T>, end: seq<T>)
    requires early + now == a + mid && mid + later == b + end
    ensures early + (now + later) == (a + b) + end
  {
    Assoc(early, now, later);
    Assoc(a, mid, later);
    Assoc(a, b, end);
  }

  lemma SeenBalance(ts: seq<Token>, k: nat, chunk: seq<byte>)
    requires Position(ts, k) && Next(ts, k, chunk)
    ensures var n := k + |chunk|;
            AnsweredEarly(ts, k) + NewReplies(ts, k, chunk)
            == Answers(Whole(ts, n)) + AnsweredEarly(Left(ts, n), Into(ts, n))
  {
    var n := k + |chunk|;
    if InSt(ts, k) && chunk == [] {
      assert Whole(ts, n) == [];
    } else {
      SeenAnswers(ts, k, n);
      Assoc(AnsweredEarly(ts, k), Answers(Seen(ts, k, n)), AnsweredEarly(Left(ts, n), Into(ts, n)));
    }
  }

  lemma NothingKept()
    ensures PrintAll(FinalFilter.Kept([])) == []
  {
  }

  /** The kept tokens of two stretches of the stream. */
  lemma CleanConcat(a: seq<Token>, b: seq<Token>)
    ensures PrintAll(FinalFilter.Kept(a + b)) == PrintAll(FinalFilter.Kept(a)) + PrintAll(FinalFilter.Kept(b))
  {
    FinalFilter.KeptConcat(a, b);
    PrintAllConcat(FinalFilter.Kept(a), FinalFilter.Kept(b));
  }

  /** One chunk's share of the output: its clean bytes, and two more at a harmful cut. */
  lemma NewOutLength(ts: seq<Token>, k: nat, chunk: seq<byte>, clean: seq<byte>)
    requires clean == PrintAll(FinalFilter.Kept(Whole(ts, k + |chunk|)))
    ensures |NewOut(ts, k, chunk)| == |clean| + if CutHarms(ts, k, chunk) then 2 else 0
    ensures !CutHarms(ts, k, chunk) ==> NewOut(ts, k, chunk) == clean
  {
  }

  /** Each harmful cut adds exactly the two bytes ESC \ to what clean filtering gives. */
  lemma {:induction false} ExpectedIsCleanPlusLeaks(ts: seq<Token>, k: nat, chunks: seq<seq<byte>>)
    requires Position(ts, k) && Next(ts, k, Flatten(chunks))
    ensures var clean := PrintAll(FinalFilter.Kept(Whole(ts, k + |Flatten(chunks)|)));
            && |Expected(ts, k, chunks)| == |clean| + 2 * HarmfulCuts(ts, k, chunks)
            && (HarmfulCuts(ts, k, chunks) == 0 ==> Expected(ts, k, chunks) == clean)
    decreases |chunks|
  {
    hide Whole, Left, Into, Print, PrintAll, Position, Next, Leak, CutHarms, NewOut, FinalFilter.Kept;
    if chunks == [] {
      PositionIsLeft(ts, k);
      NothingKept();
    } else {
      var c, more := chunks[0], chunks[1..];
      var n := k + |c|;
      var ts', k', m := Left(ts, n), Into(ts, n), |Flatten(more)|;
      NextMoves(ts, k, c, Flatten(more));
      ExpectedIsCleanPlusLeaks(ts', k', more);
      LocateTwice(ts, n, m);
      CleanConcat(Whole(ts, n), Whole(ts', k' + m));
      NewOutLength(ts, k, c, PrintAll(FinalFilter.Kept(Whole(ts, n))));
      assert |Flatten(chunks)| == |c| + m;
    }
  }

  lemma StartIsClean(ts: seq<Token>)
    ensures AnsweredEarly(ts, 0) == [] && At(ts, 0, [], []) == Start
  {
  }

  /** Everything the pipeline has done after some chunks of a stream. */
  lemma AfterChunks(ts: seq<Token>, chunks: seq<seq<byte>>)
    requires AllWellFormed(ts) && Flatten(chunks) <= PrintAll(ts)
    ensures Position(ts, 0) && Next(ts, 0, Flatten(chunks))
    ensures var n := |Flatten(chunks)|;
            FeedAll(Start, chunks)
            == At(Left(ts, n), Into(ts, n), Expected(ts, 0, chunks), ExpectedReplies(ts, 0, chunks))
  {
    hide Whole, Left, Into, Print, At, Expected, ExpectedReplies, FeedAll;
    StartIsClean(ts);
    FeedAllAt(ts, 0, [], [], chunks);
    assert [] + Expected(ts, 0, chunks) == Expected(ts, 0, chunks);
    assert [] + ExpectedReplies(ts, 0, chunks) == ExpectedReplies(ts, 0, chunks);
  }

  /**
    Main result, for every beginning of every well-formed stream and every way of cutting it
    into chunks: what reaches the terminal is the final filter of the tokens that are
    complete, if and only if no chunk starts inside the ST of a control string that the
    first stage removes.
   */
  lemma ChunkingIsInvisibleIff(ts: seq<Token>, chunks: seq<seq<byte>>)
    requires AllWellFormed(ts) && Flatten(chunks) <= PrintAll(ts)
    ensures FeedAll(Start, chunks).out == FinalFilter.Final(PrintAll(Whole(ts, |Flatten(chunks)|)))
            <==> HarmfulCuts(ts, 0, chunks) == 0
  {
    hide Whole, Left, Into, Print, PrintAll, Next, Expected, HarmfulCuts, FeedAll, FinalFilter.Kept, FinalFilter.Final;
    AfterChunks(ts, chunks);
    ExpectedIsCleanPlusLeaks(ts, 0, chunks);
    LocateTokens(ts, |Flatten(chunks)|);
    FinalFilter.FinalIsKept(Whole(ts, |Flatten(chunks)|));
  }

  /** What the stages still hold is the cut token, or of a token cut inside its ST the ESC. */
  lemma HeldIsCutToken(ts: seq<Token>, chunks: seq<seq<byte>>)
    requires AllWellFormed(ts) && Flatten(chunks) <= PrintAll(ts)
    ensures var n := |Flatten(chunks)|;
            var p, ts', k := FeedAll(Start, chunks), Left(ts, n), Into(ts, n);
            && Flatten(chunks) == PrintAll(Whole(ts, n)) + Part(ts', k)
            && (!InSt(ts', k) ==> p.pending == Part(ts', k) && p.stdoutPending == [])
            && (InSt(ts', k) ==>
                  && p.pending == [ESC]
                  && p.stdoutPending == if TokenAction(ts'[0]).Keep? then Unterminated(ts'[0]) else [])
  {
    AfterChunks(ts, chunks);
    LocateBytes(ts, |Flatten(chunks)|);
  }

  /**
    For every chunking without exception, cuts inside an ST included: the queries of the
    stream are answered once each, in stream order, and nothing else is answered.
   */
  lemma EveryQueryAnsweredOnce(ts: seq<Token>, chunks: seq<seq<byte>>)
    requires AllWellFormed(ts) && Flatten(chunks) == PrintAll(ts)
    ensures FeedAll(Start, chunks).replies == Answers(ts)
  {
    hide Whole, Left, Into, Print, PrintAll, Next, Expected, ExpectedReplies, FeedAll;
    AfterChunks(ts, chunks);
    RepliesBalance(ts, 0, chunks);
    AllWhole(ts);
    StartIsClean(ts);
    assert AnsweredEarly([], Into(ts, |PrintAll(ts)|)) == [];
    assert [] + ExpectedReplies(ts, 0, chunks) == ExpectedReplies(ts, 0, chunks);
    assert Answers(ts) + [] == Answers(ts);
  }

  lemma {:induction false} AllWhole(ts: seq<Token>)
    ensures Whole(ts, |PrintAll(ts)|) == ts && Left(ts, |PrintAll(ts)|) == []
  {
    if ts != [] {
      AllWhole(ts[1..]);
    }
  }

  /** A cut inside the ST of a title leaks ESC \ to the terminal; whole, the title leaves nothing. */
  lemma CutTitleLeaks()
    ensures var title := Osc([0x30, 0x3B, 0x78], St);
            && Print(title) == [ESC, OSC_OPEN, 0x30, 0x3B, 0x78, ESC] + [ST_CLOSE]
            && FinalFilter.Final(Print(title)) == []
            && FeedAll(Start, [[ESC, OSC_OPEN, 0x30, 0x3B, 0x78, ESC], [ST_CLOSE]]).out == [ESC, ST_CLOSE]
  {
    var title := Osc([0x30, 0x3B, 0x78], St);
    var a: seq<byte>, b: seq<byte> := [ESC, OSC_OPEN, 0x30, 0x3B, 0x78, ESC], [ST_CLOSE];
    var ts := [title];
    PrintOne(title);
    assert Print(title) == a + b;
    FinalFilter.FinalIsKept(ts);
    assert FinalFilter.Kept(ts) == [];
    assert [a, b][1..] == [b];
    assert Flatten([b]) == b + [];
    assert Flatten([a, b]) == a + b;
    AfterChunks(ts, [a, b]);
    assert Left(ts, 6) == ts && Into(ts, 6) == 6 && InSt(ts, 6);
    assert Whole(ts, 6) == [] && NewOut(ts, 0, a) == [];
    assert Whole(ts, 7) == ts && Expected(Left(ts, 7), Into(ts, 7), []) == [];
    assert NewOut(ts, 6, b) == [ESC, ST_CLOSE];
    assert Expected(ts, 6, [b]) == [ESC, ST_CLOSE];
    assert Expected(ts, 0, [a, b]) == [ESC, ST_CLOSE];
  }
}
