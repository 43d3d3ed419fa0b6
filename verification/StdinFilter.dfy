/**
  The filter on what the local terminal types: the terminal's own answers are removed, key
  presses pass, and focus events are noticed.
 */
module StdinFilter {
  import opened Bytes
  import opened Ecma48
  import opened FilterPipeline
  import FinalFilter
  import UnifiedFilter

  const FINAL_FOCUS_IN: byte := 0x49    // I
  const FINAL_FOCUS_OUT: byte := 0x4F   // O

  /** Whether a control sequence passes, and whether it tells of the focus. */
  datatype Action = Action(keep: bool, focus: Option<bool>)

  function Classify(c: CsiScan, shellFocus: bool): Action {
    match c.final
    case None => Action(true, None)
    case Some(f) =>
      if f == FinalFilter.FINAL_DA then Action(false, None)
      else if f == FinalFilter.FINAL_XTVERSION then Action(c.inters != [], None)
      else if f == FinalFilter.FINAL_CPR then Action(!FinalFilter.IsCprResponse(c.params), None)
      else if (f == FINAL_FOCUS_IN || f == FINAL_FOCUS_OUT) && c.params == [] && c.inters == [] then
        Action(shellFocus, Some(f == FINAL_FOCUS_IN))
      else Action(true, None)
  }

  datatype Result = Result(out: seq<byte>, focus: Option<bool>)

  const Nothing: Result := Result([], None)

  /** The later focus event counts. */
  function Then(a: Result, b: Result): Result {
    Result(a.out + b.out, if b.focus.Some? then b.focus else a.focus)
  }

  datatype Head = Head(result: Result, len: nat)

  function StdinHead(d: seq<byte>, shellFocus: bool): (h: Head)
    requires d != []
    ensures 0 < h.len <= |d|
  {
    if d[0] != ESC || |d| < 2 then Head(Result([d[0]], None), 1)
    else if d[1] == CSI_OPEN then
      var a := Classify(ScanCsi(d[2..]), shellFocus);
      ScanWithin(d[2..]);
      if a.keep then Head(Result([ESC], a.focus), 1) else Head(Result([], a.focus), 2 + ScanLen(ScanCsi(d[2..])))
    else if d[1] == DCS_OPEN then Head(Nothing, 2 + SkipLen(d[2..]))
    else Head(Result([ESC], None), 1)
  }

  /** What the filter makes of any bytes. */
  function Stdin(d: seq<byte>, shellFocus: bool): Result
    decreases |d|
  {
    if d == [] then Nothing else
      var h := StdinHead(d, shellFocus);
      Then(h.result, Stdin(d[h.len..], shellFocus))
  }

  method ClassifyStdinCsi(data: seq<byte>, start: nat, shellFocus: bool) returns (a: Action, i: nat)
    requires start <= |data|
    ensures var c := ScanCsi(data[start..]);
            a == Classify(c, shellFocus) && i == start + ScanLen(c) <= |data|
  {
    var c, next := ScanCsiAt(data, start);
    match c.final {
      case None => return Action(true, None), next;
      case Some(f) =>
        if f == FinalFilter.FINAL_DA {
          return Action(false, None), next;
        }
        if f == FinalFilter.FINAL_XTVERSION {
          return Action(c.inters != [], None), next;
        }
        if f == FinalFilter.FINAL_CPR {
          return Action(!FinalFilter.IsCprResponse(c.params), None), next;
        }
        if (f == FINAL_FOCUS_IN || f == FINAL_FOCUS_OUT) && c.params == [] && c.inters == [] {
          return Action(shellFocus, Some(f == FINAL_FOCUS_IN)), next;
        }
        return Action(true, None), next;
    }
  }

  lemma Advances(acc: Result, data: seq<byte>, i: nat, r: Result, next: nat, shellFocus: bool)
    requires i < next <= |data| && StdinHead(data[i..], shellFocus) == Head(r, next - i)
    ensures Then(acc, Stdin(data[i..], shellFocus)) == Then(Then(acc, r), Stdin(data[next..], shellFocus))
  {
    hide StdinHead;
    assert data[i..][next - i..] == data[next..];
    Assoc(acc.out, r.out, Stdin(data[next..], shellFocus).out);
  }

  /** What happens at one index, and where the loop goes on. */
  method HandleAt(data: seq<byte>, i: nat, shellFocus: bool) returns (r: Result, next: nat)
    requires i < |data|
    ensures i < next <= |data| && StdinHead(data[i..], shellFocus) == Head(r, next - i)
  {
    hide ScanCsi, ScanLen, SkipLen, Classify;
    ghost var d := data[i..];
    if i + 1 < |data| && data[i] == ESC {
      assert data[i + 2..] == d[2..];
      if data[i + 1] == CSI_OPEN {
        var a, after := ClassifyStdinCsi(data, i + 2, shellFocus);
        if a.keep {
          return Result([data[i]], a.focus), i + 1;
        }
        return Result([], a.focus), after;
      }
      if data[i + 1] == DCS_OPEN {
        next := SkipString(data, i + 2);
        return Nothing, next;
      }
    }
    return Result([data[i]], None), i + 1;
  }

  method FilterInner(data: seq<byte>, shellFocus: bool) returns (r: Result)
    ensures r == Stdin(data, shellFocus)
  {
    r := Nothing;
    var i := 0;
    while i < |data|
      invariant i <= |data|
      invariant Then(r, Stdin(data[i..], shellFocus)) == Stdin(data, shellFocus)
    {
      var one, next := HandleAt(data, i, shellFocus);
      Advances(r, data, i, one, next, shellFocus);
      r := Result(r.out + one.out, if one.focus.Some? then one.focus else r.focus);
      i := next;
    }
  }

  // ----- the stateful filter -----

  datatype Fed = Fed(pending: seq<byte>, result: Result)

  function FeedStdin(pending: seq<byte>, data: seq<byte>, shellFocus: bool): Fed {
    var combined := pending + data;
    var cut := TrailingStart(combined);
    Fed(combined[cut..], Stdin(combined[..cut], shellFocus))
  }

  class StdinResponseFilter {
    var pending: seq<byte>
    var lastFocusEvent: Option<bool>
    var shellFocusEnabled: bool

    constructor ()
      ensures pending == [] && lastFocusEvent == None && !shellFocusEnabled
    {
      pending, lastFocusEvent, shellFocusEnabled := [], None, false;
    }

    method Filter(data: seq<byte>) returns (out: seq<byte>)
      modifies this`pending, this`lastFocusEvent
      ensures Fed(pending, Result(out, lastFocusEvent)) == FeedStdin(old(pending), data, shellFocusEnabled)
    {
      lastFocusEvent := None;
      var combined := pending;
      pending := [];
      combined := combined + data;
      var split := FindTrailingEscapeStart(combined);
      if split < |combined| {
        pending := combined[split..];
        var r := FilterInner(combined[..split], shellFocusEnabled);
        out, lastFocusEvent := r.out, r.focus;
      } else {
        var r := FilterInner(combined, shellFocusEnabled);
        assert combined[..split] == combined && combined[split..] == [];
        out, lastFocusEvent := r.out, r.focus;
      }
    }
  }

  // ----- on tokens -----

  function TokenAction(t: Token, shellFocus: bool): Action {
    match t
    case Csi(params, inters, final) => Classify(CsiScan(params, inters, Some(final)), shellFocus)
    case Dcs(_, _) => Action(false, None)
    case _ => Action(true, None)
  }

  predicate Passes(t: Token, shellFocus: bool) {
    TokenAction(t, shellFocus).keep
  }

  function Typed(ts: seq<Token>, shellFocus: bool): seq<Token> {
    if ts == [] then [] else (if Passes(ts[0], shellFocus) then [ts[0]] else []) + Typed(ts[1..], shellFocus)
  }

  function LastFocus(ts: seq<Token>, shellFocus: bool): Option<bool> {
    if ts == [] then None else
      var later := LastFocus(ts[1..], shellFocus);
      if later.Some? then later else TokenAction(ts[0], shellFocus).focus
  }

  /** ESC [ I tells of the focus gained, ESC [ O of the focus lost, and nothing else of either. */
  function FocusOf(t: Token): Option<bool> {
    if t == Csi([], [], 0x49) then Some(true) else if t == Csi([], [], 0x4F) then Some(false) else None
  }

  lemma FocusIs(t: Token, shellFocus: bool)
    ensures TokenAction(t, shellFocus).focus == FocusOf(t)
  {
  }

  /** Token `i` tells of the focus, and no later one does. */
  predicate IsLastFocus(ts: seq<Token>, i: int, gained: bool) {
    0 <= i < |ts| && FocusOf(ts[i]) == Some(gained) && forall j | i < j < |ts| :: FocusOf(ts[j]) == None
  }

  /** The event of a stream is that of its last token that tells of the focus. */
  lemma {:induction false} LastFocusIff(ts: seq<Token>, shellFocus: bool)
    ensures LastFocus(ts, shellFocus) == None <==> forall t | t in ts :: FocusOf(t) == None
    ensures forall gained: bool :: LastFocus(ts, shellFocus) == Some(gained) <==>
              exists i :: IsLastFocus(ts, i, gained)
  {
    hide TokenAction, FocusOf;
    if ts != [] {
      FocusIs(ts[0], shellFocus);
      LastFocusIff(ts[1..], shellFocus);
      var later, all := LastFocus(ts[1..], shellFocus), LastFocus(ts, shellFocus);
      assert forall t :: t in ts <==> t == ts[0] || t in ts[1..];
      forall gained: bool
        ensures all == Some(gained) <==>
                  exists i :: IsLastFocus(ts, i, gained)
      {
        if all == Some(gained) {
          if later == None {
            assert forall j | 0 < j < |ts| :: ts[j] in ts[1..];
            assert IsLastFocus(ts, 0, gained);
          } else {
            var i :| IsLastFocus(ts[1..], i, gained);
            assert forall j | i + 1 < j < |ts| :: ts[j] == ts[1..][j - 1];
            assert IsLastFocus(ts, i + 1, gained);
          }
        }
        if i :| IsLastFocus(ts, i, gained) {
          if i == 0 {
            forall t | t in ts[1..]
              ensures FocusOf(t) == None
            {
              var j :| 0 <= j < |ts[1..]| && ts[1..][j] == t;
              assert ts[j + 1] == t;
            }
          } else {
            assert forall j | i - 1 < j < |ts[1..]| :: ts[1..][j] == ts[j + 1];
            assert IsLastFocus(ts[1..], i - 1, gained);
          }
        }
      }
    }
  }

  /** Exactly what is removed from the input, spelled out: every answer a terminal gives but a status report. */
  lemma RemovedIff(t: Token, shellFocus: bool)
    requires WellFormed(t)
    ensures !Passes(t, shellFocus) <==>
              || t.Dcs?
              || (t.Csi? && t.final == 0x63)
              || (t.Csi? && t.final == 0x71 && t.inters == [])
              || (t.Csi? && t.final == 0x52 && FinalFilter.IsCprResponse(t.params))
              || (t.Csi? && (t.final == 0x49 || t.final == 0x4F) && t.params == [] && t.inters == [] && !shellFocus)
  {
  }

  /** The terminal's own answers to the queries the first output filter answers itself. */
  lemma OwnAnswersAreRemoved(r: UnifiedFilter.Reply, row: seq<byte>, col: seq<byte>, shellFocus: bool)
    requires UnifiedFilter.Decimal(row) && UnifiedFilter.Decimal(col)
    ensures Passes(UnifiedFilter.ReplyToken(r, row, col), shellFocus) <==> r == UnifiedFilter.StatusOk
  {
    hide UnifiedFilter.DA1_PARAMS, UnifiedFilter.DA2_PARAMS, UnifiedFilter.VERSION_BODY, FinalFilter.IsCprResponse;
    UnifiedFilter.CursorEcho(row, col);
  }

  lemma {:induction false} PassesPlain(s: seq<byte>, rest: seq<byte>, shellFocus: bool)
    requires ESC !in s
    ensures Stdin(s + rest, shellFocus) == Then(Result(s, None), Stdin(rest, shellFocus))
  {
    if s == [] {
      assert s + rest == rest;
    } else {
      assert (s + rest)[1..] == s[1..] + rest;
      PassesPlain(s[1..], rest, shellFocus);
      Assoc([s[0]], s[1..], Stdin(rest, shellFocus).out);
      assert [s[0]] + s[1..] == s;
    }
  }

  /** A kept sequence: its ESC passes alone, and so does the rest of it. */
  lemma PassesEscaped(s: seq<byte>, rest: seq<byte>, focus: Option<bool>, shellFocus: bool)
    requires s != [] && s[0] == ESC && ESC !in s[1..]
    requires StdinHead(s + rest, shellFocus) == Head(Result([ESC], focus), 1)
    ensures Stdin(s + rest, shellFocus) == Then(Result(s, focus), Stdin(rest, shellFocus))
  {
    var tail := s[1..];
    assert (s + rest)[1..] == tail + rest;
    PassesPlain(tail, rest, shellFocus);
    Assoc([ESC], tail, Stdin(rest, shellFocus).out);
    assert s == [ESC] + tail;
  }

  lemma OnCsi(t: Token, rest: seq<byte>, shellFocus: bool)
    requires t.Csi? && WellFormed(t)
    ensures var a := TokenAction(t, shellFocus);
            Stdin(Print(t) + rest, shellFocus)
            == Then(Result(if a.keep then Print(t) else [], a.focus), Stdin(rest, shellFocus))
  {
    hide Classify;
    var d := Print(t) + rest;
    var a := TokenAction(t, shellFocus);
    CsiHead(t, rest, shellFocus);
    if a.keep {
      hide StdinHead;
      PassesEscaped(Print(t), rest, a.focus, shellFocus);
    } else {
      hide StdinHead;
      assert d[|Print(t)|..] == rest;
    }
  }

  lemma CsiHead(t: Token, rest: seq<byte>, shellFocus: bool)
    requires t.Csi? && WellFormed(t)
    ensures var a := TokenAction(t, shellFocus);
            StdinHead(Print(t) + rest, shellFocus)
            == if a.keep then Head(Result([ESC], a.focus), 1) else Head(Result([], a.focus), |Print(t)|)
  {
    hide Classify, ScanCsi, ScanLen;
    CsiReadsBack(t, rest);
  }

  lemma OnDcs(t: Token, rest: seq<byte>, shellFocus: bool)
    requires t.Dcs? && WellFormed(t)
    ensures Stdin(Print(t) + rest, shellFocus) == Stdin(rest, shellFocus)
  {
    var d := Print(t) + rest;
    StringReadsBack(t, rest);
    assert StdinHead(d, shellFocus) == Head(Nothing, |Print(t)|);
    assert d[|Print(t)|..] == rest;
    assert [] + Stdin(rest, shellFocus).out == Stdin(rest, shellFocus).out;
  }

  lemma OnEsc2(x: byte, rest: seq<byte>, shellFocus: bool)
    requires WellFormed(Esc2(x))
    ensures Stdin([ESC, x] + rest, shellFocus) == Then(Result([ESC, x], None), Stdin(rest, shellFocus))
  {
    PassesEscaped([ESC, x], rest, None, shellFocus);
  }

  /** A control string other than a DCS passes byte by byte. */
  lemma OnOscStart(body: seq<byte>, rest: seq<byte>, shellFocus: bool)
    requires StringBody(body)
    ensures Stdin([ESC, OSC_OPEN] + body + rest, shellFocus)
         == Then(Result([ESC, OSC_OPEN] + body, None), Stdin(rest, shellFocus))
  {
    PassesEscaped([ESC, OSC_OPEN] + body, rest, None, shellFocus);
  }

  lemma OnOsc(t: Token, rest: seq<byte>, shellFocus: bool)
    requires t.Osc? && WellFormed(t)
    ensures Stdin(Print(t) + rest, shellFocus) == Then(Result(Print(t), None), Stdin(rest, shellFocus))
  {
    var start, term := [ESC, OSC_OPEN] + t.body, PrintTerm(t.term);
    Assoc(start, term, rest);
    OnOscStart(t.body, term + rest, shellFocus);
    if t.term == Bel {
      PassesPlain([BEL], rest, shellFocus);
    } else {
      OnEsc2(ST_CLOSE, rest, shellFocus);
    }
    Assoc(start, term, Stdin(rest, shellFocus).out);
  }

  lemma OnToken(t: Token, rest: seq<byte>, shellFocus: bool)
    requires WellFormed(t)
    ensures var a := TokenAction(t, shellFocus);
            Stdin(Print(t) + rest, shellFocus)
            == Then(Result(if a.keep then Print(t) else [], a.focus), Stdin(rest, shellFocus))
  {
    match t {
      case Plain(b) => PassesPlain([b], rest, shellFocus);
      case Esc2(x) => OnEsc2(x, rest, shellFocus);
      case Csi(_, _, _) => OnCsi(t, rest, shellFocus);
      case Osc(_, _) => OnOsc(t, rest, shellFocus);
      case Dcs(_, _) =>
        OnDcs(t, rest, shellFocus);
        assert [] + Stdin(rest, shellFocus).out == Stdin(rest, shellFocus).out;
    }
  }

  /** On well-formed input the byte loop passes exactly the typed tokens, and notices the last focus event. */
  lemma {:induction false} OnTokens(ts: seq<Token>, rest: seq<byte>, shellFocus: bool)
    requires AllWellFormed(ts)
    ensures Stdin(PrintAll(ts) + rest, shellFocus)
         == Then(Result(PrintAll(Typed(ts, shellFocus)), LastFocus(ts, shellFocus)), Stdin(rest, shellFocus))
  {
    hide Print, TokenAction, Stdin;
    if ts == [] {
      assert PrintAll(ts) + rest == rest && [] + Stdin(rest, shellFocus).out == Stdin(rest, shellFocus).out;
    } else {
      Assoc(Print(ts[0]), PrintAll(ts[1..]), rest);
      OnToken(ts[0], PrintAll(ts[1..]) + rest, shellFocus);
      OnTokens(ts[1..], rest, shellFocus);
      var head := if Passes(ts[0], shellFocus) then [ts[0]] else [];
      PrintAllConcat(head, Typed(ts[1..], shellFocus));
      PrintOne(ts[0]);
      Assoc(PrintAll(head), PrintAll(Typed(ts[1..], shellFocus)), Stdin(rest, shellFocus).out);
    }
  }

  /** A control sequence without its final byte passes, byte for byte. */
  lemma UnfinishedPasses(params: seq<byte>, inters: seq<byte>, shellFocus: bool)
    requires Within(params, 0x30, 0x3F) && Within(inters, 0x20, 0x2F)
    ensures var s := [ESC, CSI_OPEN] + params + inters; Stdin(s, shellFocus) == Result(s, None)
  {
    var s := [ESC, CSI_OPEN] + params + inters;
    assert s[2..] == params + inters + [];
    ScanOf(params, inters, []);
    assert s + [] == s;
    PassesEscaped(s, [], None, shellFocus);
  }

  /** On well-formed input: the typed tokens, and the focus event of the last token that carries one. */
  lemma OnStream(ts: seq<Token>, shellFocus: bool)
    requires AllWellFormed(ts)
    ensures Stdin(PrintAll(ts), shellFocus) == Result(PrintAll(Typed(ts, shellFocus)), LastFocus(ts, shellFocus))
  {
    OnTokens(ts, [], shellFocus);
    assert PrintAll(ts) + [] == PrintAll(ts);
    assert PrintAll(Typed(ts, shellFocus)) + [] == PrintAll(Typed(ts, shellFocus));
  }

  // ----- every chunking -----

  /** The start of a control string cut inside its ST, where it passes. */
  function PassedCut(ts: seq<Token>, k: nat): seq<byte> {
    if InSt(ts, k) && ts[0].Osc? then UnifiedFilter.Unterminated(ts[0]) else []
  }

  function Held(ts: seq<Token>, k: nat): seq<byte> {
    if InSt(ts, k) then [ESC] else Part(ts, k)
  }

  lemma OnCutString(t: Token, shellFocus: bool)
    requires (t.Osc? || t.Dcs?) && WellFormed(t)
    ensures Stdin(UnifiedFilter.Unterminated(t), shellFocus)
         == Result(if t.Osc? then UnifiedFilter.Unterminated(t) else [], None)
  {
    var u := UnifiedFilter.Unterminated(t);
    assert u + [] == u;
    if t.Osc? {
      OnOscStart(t.body, [], shellFocus);
    } else {
      NoStringEnd(t.body);
      assert u[2..] == t.body;
      assert u[|u|..] == [];
    }
  }

  /** What a chunk lets through: the typed tokens among those seen, and the start of a cut string. */
  lemma StepAt(ts: seq<Token>, k: nat, chunk: seq<byte>, shellFocus: bool)
    requires Position(ts, k) && Next(ts, k, chunk) && !(InSt(ts, k) && chunk == [])
    ensures var n := k + |chunk|;
            var r := FeedStdin(Held(ts, k), chunk, shellFocus);
            && r.pending == Held(Left(ts, n), Into(ts, n))
            && r.result.out == PrintAll(Typed(Seen(ts, k, n), shellFocus)) + PassedCut(Left(ts, n), Into(ts, n))
            && r.result.focus == LastFocus(Seen(ts, k, n), shellFocus)
  {
    hide Whole, Left, Into, Print, PrintAll, Seen, Typed, Stdin, TrailingStart, LastFocus;
    var n := k + |chunk|;
    var ms, ts', k' := Seen(ts, k, n), Left(ts, n), Into(ts, n);
    NextIsPart(ts, k, chunk);
    SeenBytes(At(ts, k, [], []), ts, k, chunk);
    SeenWellFormed(ts, k, n);
    LocateTokens(ts, n);
    FirstCut(PrintAll(ms), ms, ts', k');
    if InSt(ts', k') {
      OnTokens(ms, UnifiedFilter.Unterminated(ts'[0]), shellFocus);
      OnCutString(ts'[0], shellFocus);
    } else {
      OnTokens(ms, [], shellFocus);
      StdinOfNothing(shellFocus);
      assert PrintAll(ms) + [] == PrintAll(ms);
    }
  }

  lemma StdinOfNothing(shellFocus: bool)
    ensures Stdin([], shellFocus) == Nothing
  {
  }

  /** An empty chunk after a cut inside an ST leaves everything as it is. */
  lemma EmptyAtSt(ts: seq<Token>, k: nat, shellFocus: bool)
    requires Position(ts, k) && InSt(ts, k)
    ensures FeedStdin(Held(ts, k), [], shellFocus) == Fed(Held(ts, k), Nothing)
    ensures Left(ts, k) == ts && Into(ts, k) == k && Whole(ts, k) == []
  {
    LoneEscIsHeld();
    PositionIsLeft(ts, k);
    assert [ESC] + [] == [ESC];
    assert [ESC][..0] == [] && [ESC][0..] == [ESC];
  }

  /** The chunk starts between the ESC and the \ of a removed control string. */
  predicate CutHarmsStdin(ts: seq<Token>, k: nat, chunk: seq<byte>) {
    InSt(ts, k) && ts[0].Dcs? && chunk != []
  }

  lemma {:induction false} TypedConcat(a: seq<Token>, b: seq<Token>, shellFocus: bool)
    ensures Typed(a + b, shellFocus) == Typed(a, shellFocus) + Typed(b, shellFocus)
  {
    if a == [] {
      assert a + b == b;
    } else {
      assert (a + b)[1..] == a[1..] + b;
      TypedConcat(a[1..], b, shellFocus);
      Assoc(if Passes(a[0], shellFocus) then [a[0]] else [], Typed(a[1..], shellFocus), Typed(b, shellFocus));
    }
  }

  lemma TypedOne(t: Token, shellFocus: bool)
    ensures PrintAll(Typed([t], shellFocus)) == if Passes(t, shellFocus) then Print(t) else []
  {
    PrintOne(t);
    assert Typed([t], shellFocus) == (if Passes(t, shellFocus) then [t] else []) + Typed([], shellFocus);
  }

  lemma TypedCons(t: Token, more: seq<Token>, shellFocus: bool)
    ensures PrintAll(Typed([t] + more, shellFocus))
         == (if Passes(t, shellFocus) then Print(t) else []) + PrintAll(Typed(more, shellFocus))
  {
    TypedConcat([t], more, shellFocus);
    TypedOne(t, shellFocus);
    PrintAllConcat(Typed([t], shellFocus), Typed(more, shellFocus));
  }

  /** A cut string and the lone ESC \ after it, against the string whole. */
  lemma CutAddsUp(t: Token, more: seq<Token>, shellFocus: bool)
    requires (t.Osc? || t.Dcs?) && t.term == St
    ensures (if t.Osc? then UnifiedFilter.Unterminated(t) else [])
            + PrintAll(Typed([Esc2(ST_CLOSE)] + more, shellFocus))
         == (if t.Dcs? then [ESC, ST_CLOSE] else []) + PrintAll(Typed([t] + more, shellFocus))
  {
    hide PrintAll, Typed, Print;
    TypedCons(t, more, shellFocus);
    TypedCons(Esc2(ST_CLOSE), more, shellFocus);
    PrintOfSt(t);
    PrintOfLoneSt();
    Assoc(UnifiedFilter.Unterminated(t), [ESC, ST_CLOSE], PrintAll(Typed(more, shellFocus)));
  }

  lemma SeenAtCut(ts: seq<Token>, k: nat, n: nat)
    requires Position(ts, k) && InSt(ts, k) && k < n
    ensures (ts[0].Osc? || ts[0].Dcs?) && ts[0].term == St && n >= |Print(ts[0])|
    ensures Seen(ts, k, n) == [Esc2(ST_CLOSE)] + Whole(ts[1..], n - |Print(ts[0])|)
  {
  }

  /** What passed before a cut and what passes after it add up to the typed tokens, and ESC \ more at a harmful cut. */
  lemma SeenAddsUp(ts: seq<Token>, k: nat, n: nat, shellFocus: bool)
    requires Position(ts, k) && k <= n <= |PrintAll(ts)| && (InSt(ts, k) ==> k < n)
    ensures PassedCut(ts, k) + PrintAll(Typed(Seen(ts, k, n), shellFocus))
         == (if InSt(ts, k) && ts[0].Dcs? then [ESC, ST_CLOSE] else []) + PrintAll(Typed(Whole(ts, n), shellFocus))
  {
    hide Whole, PrintAll, Typed, Seen, Print;
    if InSt(ts, k) {
      SeenAtCut(ts, k, n);
      WholeStep(ts, n);
      CutAddsUp(ts[0], Whole(ts[1..], n - |Print(ts[0])|), shellFocus);
    } else {
      SeenIsWhole(ts, k, n);
    }
  }

  /** The filter over a list of chunks: what it holds at the end, and all it let through. */
  function FeedChunks(pending: seq<byte>, chunks: seq<seq<byte>>, shellFocus: bool): (seq<byte>, seq<byte>)
    decreases |chunks|
  {
    if chunks == [] then (pending, []) else
      var f := FeedStdin(pending, chunks[0], shellFocus);
      var rest := FeedChunks(f.pending, chunks[1..], shellFocus);
      (rest.0, f.result.out + rest.1)
  }

  function HarmfulStdinCuts(ts: seq<Token>, k: nat, chunks: seq<seq<byte>>): nat
    decreases |chunks|
  {
    if chunks == [] then 0 else
      var n := k + |chunks[0]|;
      (if CutHarmsStdin(ts, k, chunks[0]) then 1 else 0) + HarmfulStdinCuts(Left(ts, n), Into(ts, n), chunks[1..])
  }

  /** The bytes due after the first `n`: the typed tokens, and the start of a passing string cut in its ST. */
  function Due(ts: seq<Token>, n: nat, shellFocus: bool): seq<byte> {
    PrintAll(Typed(Whole(ts, n), shellFocus)) + PassedCut(Left(ts, n), Into(ts, n))
  }

  /** One chunk: what was due of the cut string, and the chunk's output, against what is due now. */
  lemma StepDue(ts: seq<Token>, k: nat, chunk: seq<byte>, shellFocus: bool)
    requires Position(ts, k) && Next(ts, k, chunk)
    ensures var n := k + |chunk|;
            var r := FeedStdin(Held(ts, k), chunk, shellFocus);
            && r.pending == Held(Left(ts, n), Into(ts, n))
            && PassedCut(ts, k) + r.result.out
               == (if CutHarmsStdin(ts, k, chunk) then [ESC, ST_CLOSE] else []) + Due(ts, n, shellFocus)
  {
    hide Whole, Left, Into, Print, PrintAll, Seen, Typed, FeedStdin, Held, Part, PassedCut;
    var n := k + |chunk|;
    if InSt(ts, k) && chunk == [] {
      EmptyAtSt(ts, k, shellFocus);
      NothingTyped(shellFocus);
    } else {
      StepAt(ts, k, chunk, shellFocus);
      SeenAddsUp(ts, k, n, shellFocus);
      var cut, seen := PassedCut(ts, k), PrintAll(Typed(Seen(ts, k, n), shellFocus));
      Assoc(cut, seen, PassedCut(Left(ts, n), Into(ts, n)));
      Assoc(if CutHarmsStdin(ts, k, chunk) then [ESC, ST_CLOSE] else [],
            PrintAll(Typed(Whole(ts, n), shellFocus)), PassedCut(Left(ts, n), Into(ts, n)));
    }
  }

  lemma NothingTyped(shellFocus: bool)
    ensures PrintAll(Typed([], shellFocus)) == []
  {
  }

  lemma DueMoves(ts: seq<Token>, n: nat, m: nat, shellFocus: bool)
    ensures Due(ts, n + m, shellFocus)
         == PrintAll(Typed(Whole(ts, n), shellFocus)) + Due(Left(ts, n), Into(ts, n) + m, shellFocus)
  {
    hide Whole, Left, Into, PrintAll, Typed, PassedCut;
    var ts', m' := Left(ts, n), Into(ts, n) + m;
    LocateTwice(ts, n, m);
    TypedConcat(Whole(ts, n), Whole(ts', m'), shellFocus);
    PrintAllConcat(Typed(Whole(ts, n), shellFocus), Typed(Whole(ts', m'), shellFocus));
    Assoc(PrintAll(Typed(Whole(ts, n), shellFocus)), PrintAll(Typed(Whole(ts', m'), shellFocus)),
          PassedCut(Left(ts', m'), Into(ts', m')));
  }

  lemma Combine(cut: seq<byte>, first: seq<byte>, later: seq<byte>, harm: seq<byte>, typed: seq<byte>,
                cut': seq<byte>, due': seq<byte>, harms: nat)
    requires cut + first == harm + (typed + cut')
    requires |cut' + later| == |due'| + 2 * harms && (harms == 0 ==> cut' + later == due')
    ensures |cut + (first + later)| == |typed + due'| + |harm| + 2 * harms
    ensures harm == [] && harms == 0 ==> cut + (first + later) == typed + due'
  {
    Assoc(cut, first, later);
    Assoc(harm, typed + cut', later);
    Assoc(typed, cut', later);
    assert harm == [] ==> harm + (typed + (cut' + later)) == typed + (cut' + later);
  }

  /** Any chunks of well-formed input: what is held, and what came out against what is due. */
  lemma {:induction false} ChunksDue(ts: seq<Token>, k: nat, chunks: seq<seq<byte>>, shellFocus: bool)
    requires Position(ts, k) && Next(ts, k, Flatten(chunks))
    ensures var n := k + |Flatten(chunks)|;
            var r := FeedChunks(Held(ts, k), chunks, shellFocus);
            var harms := HarmfulStdinCuts(ts, k, chunks);
            && r.0 == Held(Left(ts, n), Into(ts, n))
            && |PassedCut(ts, k) + r.1| == |Due(ts, n, shellFocus)| + 2 * harms
            && (harms == 0 ==> PassedCut(ts, k) + r.1 == Due(ts, n, shellFocus))
    decreases |chunks|
  {
    hide Whole, Left, Into, Print, PrintAll, Position, Next, FeedStdin, Held, PassedCut, CutHarmsStdin, Typed, Due;
    if chunks == [] {
      PositionIsLeft(ts, k);
      DueAtPosition(ts, k, shellFocus);
    } else {
      var c, more := chunks[0], chunks[1..];
      var n := k + |c|;
      var ts', k', m := Left(ts, n), Into(ts, n), |Flatten(more)|;
      NextMoves(ts, k, c, Flatten(more));
      StepDue(ts, k, c, shellFocus);
      ChunksDue(ts', k', more, shellFocus);
      LocateTwice(ts, n, m);
      DueMoves(ts, n, m, shellFocus);
      DueIs(ts, n, shellFocus);
      var f := FeedStdin(Held(ts, k), c, shellFocus);
      Combine(PassedCut(ts, k), f.result.out, FeedChunks(f.pending, more, shellFocus).1,
              if CutHarmsStdin(ts, k, c) then [ESC, ST_CLOSE] else [],
              PrintAll(Typed(Whole(ts, n), shellFocus)), PassedCut(ts', k'), Due(ts', k' + m, shellFocus),
              HarmfulStdinCuts(ts', k', more));
    }
  }

  lemma DueIs(ts: seq<Token>, n: nat, shellFocus: bool)
    ensures Due(ts, n, shellFocus) == PrintAll(Typed(Whole(ts, n), shellFocus)) + PassedCut(Left(ts, n), Into(ts, n))
  {
  }

  lemma DueAtPosition(ts: seq<Token>, k: nat, shellFocus: bool)
    requires Position(ts, k)
    ensures Due(ts, k, shellFocus) == PassedCut(ts, k) + []
  {
    PositionIsLeft(ts, k);
    NothingTyped(shellFocus);
  }

  /**
    For all well-formed input and every way of cutting it: what reaches the shell is the
    typed tokens and nothing else, if and only if no chunk starts inside the ST of a DCS.
   */
  lemma TypingIsKeptIff(ts: seq<Token>, chunks: seq<seq<byte>>, shellFocus: bool)
    requires AllWellFormed(ts) && Flatten(chunks) == PrintAll(ts)
    ensures var r := FeedChunks([], chunks, shellFocus);
            && r.0 == []
            && (r.1 == PrintAll(Typed(ts, shellFocus)) <==> HarmfulStdinCuts(ts, 0, chunks) == 0)
  {
    hide Whole, Left, Into, Print, Typed, FeedChunks, HarmfulStdinCuts;
    AtTheStart(ts);
    ChunksDue(ts, 0, chunks, shellFocus);
    AllWhole(ts);
    var n := |PrintAll(ts)|;
    AtTheEnd(Into(ts, n));
    DueIs(ts, n, shellFocus);
    var typed, out := PrintAll(Typed(ts, shellFocus)), FeedChunks([], chunks, shellFocus).1;
    assert typed + [] == typed && [] + out == out;
  }

  lemma AtTheStart(ts: seq<Token>)
    requires AllWellFormed(ts)
    ensures Position(ts, 0) && Held(ts, 0) == [] && PassedCut(ts, 0) == []
    ensures Next(ts, 0, PrintAll(ts))
  {
  }

  lemma AtTheEnd(k: nat)
    ensures Held([], k) == [] && PassedCut([], k) == []
  {
  }

  /** A version report cut inside its ST leaks ESC \ to the shell; whole, it leaves nothing. */
  lemma CutReportLeaks(shellFocus: bool)
    ensures var report := Dcs([0x3E], St);
            && Print(report) == [ESC, DCS_OPEN, 0x3E, ESC] + [ST_CLOSE]
            && FeedChunks([], [Print(report)], shellFocus).1 == []
            && FeedChunks([], [[ESC, DCS_OPEN, 0x3E, ESC], [ST_CLOSE]], shellFocus).1 != []
  {
    hide FeedChunks;
    var report := Dcs([0x3E], St);
    var ts := [report];
    var a: seq<byte>, b: seq<byte> := [ESC, DCS_OPEN, 0x3E, ESC], [ST_CLOSE];
    PrintOne(report);
    assert Print(report) == a + b;
    TypedOne(report, shellFocus);
    assert [a, b][1..] == [b] && [b][1..] == [] && [a + b][1..] == [];
    assert Flatten([b]) == b + [] && Flatten([a, b]) == a + b && Flatten([a + b]) == a + b + [];
    assert Left(ts, 4) == ts && Into(ts, 4) == 4 && InSt(ts, 4) && !InSt(ts, 0);
    assert HarmfulStdinCuts(ts, 0, [a + b]) == 0 + HarmfulStdinCuts(Left(ts, 5), Into(ts, 5), []);
    assert HarmfulStdinCuts(ts, 4, [b]) == 1 + HarmfulStdinCuts(Left(ts, 5), Into(ts, 5), []);
    assert HarmfulStdinCuts(ts, 0, [a, b]) == 0 + HarmfulStdinCuts(ts, 4, [b]);
    TypingIsKeptIff(ts, [a + b], shellFocus);
    TypingIsKeptIff(ts, [a, b], shellFocus);
  }
}
