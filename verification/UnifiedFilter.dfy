/**
  The first filter on PTY output: answers known queries itself, removes the other queries and
  the echoes of responses, and lets display sequences through.
 */
module UnifiedFilter {
  import opened Bytes
  import opened Ecma48
  import FinalFilter

  const GT: byte := 0x3E              // >
  const QUESTION: byte := 0x3F        // ?
  const SMALL_Q: byte := 0x71         // q
  const BAR: byte := 0x7C             // |
  const ONE: byte := 0x31
  const PLUS: byte := 0x2B
  const DOLLAR: byte := 0x24
  const SMALL_R: byte := 0x72         // r
  const FINAL_ED: byte := 0x4A        // J
  const FINAL_SET: byte := 0x68       // h
  const ALT_SCREEN: seq<byte> := [0x3F, 0x31, 0x30, 0x34, 0x39]   // ?1049

  /** The synthetic answers, one per kind of intercepted query. */
  datatype Reply = Da1 | Da2 | StatusOk | CursorReport | Version

  datatype Action =
    | Intercept(reply: Reply)
    | Filter
    | Keep(boundary: bool, focus: bool, clear: bool)

  predicate IsDaQuery(params: seq<byte>) {
    if params == [] then true
    else if QUESTION in params then false
    else if params[0] == GT then
      |params| == 1 || (FinalFilter.SEMICOLON !in params[1..] && params[1..] == [0x30])
    else FinalFilter.AllDigits(params)
  }

  predicate IsDaResponse(params: seq<byte>) {
    if params == [] then false
    else if QUESTION in params then true
    else if params[0] == GT then
      |params| > 1 && (FinalFilter.SEMICOLON in params[1..] || (|params| == 2 && params[1] != 0x30))
    else false
  }

  function ClassifyCsi(c: CsiScan): Action {
    match c.final
    case None => Keep(false, false, false)
    case Some(f) =>
      var clear := f == FINAL_ED && (c.params == [0x32] || c.params == [0x33]);
      var mode := f == FINAL_SET || f == FinalFilter.FINAL_RESET;
      var boundary := clear || (mode && c.params == ALT_SCREEN);
      var focus := f == FINAL_SET && c.params == FinalFilter.FOCUS_MODE;
      var keep := Keep(boundary, focus, clear);
      if f == FinalFilter.FINAL_RESET && c.params == FinalFilter.FOCUS_MODE then Filter
      else if f == FinalFilter.FINAL_DA then
        if IsDaQuery(c.params) then Intercept(if c.params != [] && c.params[0] == GT then Da2 else Da1)
        else if IsDaResponse(c.params) then Filter
        else keep
      else if f == FinalFilter.FINAL_DSR then
        if c.params == [0x36] then Intercept(CursorReport)
        else if c.params == [0x35] then Intercept(StatusOk)
        else if FinalFilter.IsCprResponse(c.params) then Filter
        else keep
      else if f == FinalFilter.FINAL_XTVERSION then
        if c.inters != [] then keep
        else if c.params != [] && c.params[0] == GT then Intercept(Version)
        else Filter
      else keep
  }

  /** Classified by the bytes after ESC P, terminated or not. */
  function ClassifyDcs(s: seq<byte>): (a: Action)
    ensures a.Keep? ==> a == Keep(false, false, false)
  {
    if |s| >= 2 && s[0] == GT && s[1] == SMALL_Q then Intercept(Version)
    else if |s| >= 2 && s[1] == SMALL_Q && (s[0] == PLUS || s[0] == DOLLAR || s[0] == GT) then Filter
    else if |s| >= 2 && s[0] == GT && s[1] == BAR then Filter
    else if |s| >= 3 && s[0] == ONE && (s[1] == PLUS || s[1] == DOLLAR) && s[2] == SMALL_R then Filter
    else Keep(false, false, false)
  }

  datatype Result = Result(
    display: seq<byte>,
    replies: seq<Reply>,
    filtered: bool,
    boundary: bool,
    focus: bool,
    clear: bool)

  const Nothing: Result := Result([], [], false, false, false, false)

  function Then(a: Result, b: Result): Result {
    Result(a.display + b.display, a.replies + b.replies, a.filtered || b.filtered,
           a.boundary || b.boundary, a.focus || b.focus, a.clear || b.clear)
  }

  lemma ThenAssoc(a: Result, b: Result, c: Result)
    ensures Then(Then(a, b), c) == Then(a, Then(b, c))
  {
    Assoc(a.display, b.display, c.display);
    Assoc(a.replies, b.replies, c.replies);
  }

  function Shown(s: seq<byte>): Result {
    Nothing.(display := s)
  }

  function Dropped(a: Action): Result {
    Nothing.(filtered := true, replies := if a.Intercept? then [a.reply] else [])
  }

  /** The result of acting on a sequence whose shown part is `s`. */
  function Acted(a: Action, s: seq<byte>): Result {
    match a
    case Keep(boundary, focus, clear) => Result(s, [], false, boundary, focus, clear)
    case _ => Dropped(a)
  }

  datatype Head = Head(result: Result, len: nat)

  function UnifiedHead(d: seq<byte>): (h: Head)
    requires d != []
    ensures 0 < h.len <= |d|
  {
    if |d| < 2 || d[0] != ESC then Head(Shown([d[0]]), 1)
    else if d[1] == CSI_OPEN then
      var c := ScanCsi(d[2..]);
      ScanWithin(d[2..]);
      var a := ClassifyCsi(c);
      Head(Acted(a, [ESC]), if a.Keep? then 1 else 2 + ScanLen(c))
    else if d[1] == OSC_OPEN then
      Head(Dropped(Filter), 2 + SkipLen(d[2..]))
    else if d[1] == DCS_OPEN then
      var a := ClassifyDcs(d[2..]);
      Head(Acted(a, [ESC]), if a.Keep? then 1 else 2 + SkipLen(d[2..]))
    else Head(Shown([ESC]), 1)
  }

  /** What the filter makes of any bytes, well-formed or not. */
  function Unified(d: seq<byte>): Result
    decreases |d|
  {
    if d == [] then Nothing else
      var h := UnifiedHead(d);
      Then(h.result, Unified(d[h.len..]))
  }

  lemma UnifiedAdvances(acc: Result, data: seq<byte>, i: nat, r: Result, next: nat)
    requires i < next <= |data| && UnifiedHead(data[i..]) == Head(r, next - i)
    ensures Then(acc, Unified(data[i..])) == Then(Then(acc, r), Unified(data[next..]))
  {
    hide UnifiedHead;
    assert data[i..][next - i..] == data[next..];
    ThenAssoc(acc, r, Unified(data[next..]));
  }

  method ClassifyCsiUnified(data: seq<byte>, start: nat) returns (a: Action, i: nat)
    requires start <= |data|
    ensures a == ClassifyCsi(ScanCsi(data[start..])) && i == start + ScanLen(ScanCsi(data[start..])) <= |data|
  {
    var c, next := ScanCsiAt(data, start);
    a := ClassifyCsi(c);
    i := next;
  }

  /**
    One turn of the loop: acts on the sequence or byte at index `i`. The six kinds of OSC the
    source tells apart differ only in what is extracted; all are skipped and count as filtered.
   */
  method HandleAt(data: seq<byte>, i: nat) returns (r: Result, next: nat)
    requires i < |data|
    ensures i < next <= |data| && Head(r, next - i) == UnifiedHead(data[i..])
  {
    ghost var d := data[i..];
    if i + 1 < |data| && data[i] == ESC {
      assert d[2..] == data[i + 2..];
      if data[i + 1] == CSI_OPEN {
        var a, after := ClassifyCsiUnified(data, i + 2);
        match a {
          case Intercept(reply) => r, next := Nothing.(filtered := true, replies := [reply]), after;
          case Filter => r, next := Nothing.(filtered := true), after;
          case Keep(boundary, focus, clear) => r, next := Result([data[i]], [], false, boundary, focus, clear), i + 1;
        }
      } else if data[i + 1] == OSC_OPEN {
        r := Nothing.(filtered := true);
        next := SkipString(data, i + 2);
      } else if data[i + 1] == DCS_OPEN {
        var a := ClassifyDcs(data[i + 2..]);
        if a.Keep? {
          r, next := Shown([data[i]]), i + 1;
        } else {
          r := Nothing.(filtered := true, replies := if a.Intercept? then [a.reply] else []);
          next := SkipString(data, i + 2);
        }
      } else {
        r, next := Shown([data[i]]), i + 1;
      }
    } else {
      r, next := Shown([data[i]]), i + 1;
    }
  }

  /** The single pass over the data. */
  method UnifiedFilter(data: seq<byte>) returns (r: Result)
    ensures r == Unified(data)
  {
    r := Nothing;
    var i := 0;
    while i < |data|
      invariant i <= |data|
      invariant Then(r, Unified(data[i..])) == Unified(data)
    {
      var one, next := HandleAt(data, i);
      UnifiedAdvances(r, data, i, one, next);
      r := Result(r.display + one.display, r.replies + one.replies, r.filtered || one.filtered,
                  r.boundary || one.boundary, r.focus || one.focus, r.clear || one.clear);
      i := next;
    }
  }

  // ----- on any bytes -----

  /** At each head the filter shows the byte there and moves on by one, or shows nothing. */
  lemma HeadShowsOrDrops(d: seq<byte>)
    requires d != []
    ensures var h := UnifiedHead(d);
            if h.result.filtered then h.result.display == []
            else h.len == 1 && h.result.display == [d[0]] && h.result.replies == []
  {
  }

  /** When nothing was filtered the display data is the input and nothing is answered. */
  lemma {:induction false} UnfilteredIsIdentity(d: seq<byte>)
    requires !Unified(d).filtered
    ensures Unified(d).display == d && Unified(d).replies == []
    decreases |d|
  {
    hide UnifiedHead;
    if d != [] {
      HeadShowsOrDrops(d);
      UnfilteredIsIdentity(d[1..]);
      assert d == [d[0]] + d[1..];
    }
  }

  /** Even on malformed input the display data is the input with some bytes removed. */
  lemma {:induction false} UnifiedOnlyRemoves(d: seq<byte>)
    ensures FinalFilter.Subsequence(Unified(d).display, d)
    decreases |d|
  {
    hide UnifiedHead;
    if d != [] {
      var h := UnifiedHead(d);
      var rest := Unified(d[h.len..]).display;
      UnifiedOnlyRemoves(d[h.len..]);
      HeadShowsOrDrops(d);
      assert Unified(d).display == h.result.display + rest;
      if h.result.filtered {
        assert Unified(d).display == rest;
        FinalFilter.SubsequenceSkips(rest, d, h.len);
      } else {
        assert Unified(d).display[1..] == rest;
      }
    }
  }

  // ----- on tokens -----

  function TokenAction(t: Token): Action {
    match t
    case Csi(params, inters, final) => ClassifyCsi(CsiScan(params, inters, Some(final)))
    case Osc(_, _) => Filter
    case Dcs(body, _) => ClassifyDcs(body)
    case _ => Keep(false, false, false)
  }

  function TokenResult(t: Token): Result {
    Acted(TokenAction(t), Print(t))
  }

  function Summary(ts: seq<Token>): Result {
    if ts == [] then Nothing else Then(TokenResult(ts[0]), Summary(ts[1..]))
  }

  function ShownTokens(ts: seq<Token>): seq<Token> {
    if ts == [] then [] else (if TokenAction(ts[0]).Keep? then [ts[0]] else []) + ShownTokens(ts[1..])
  }

  /** The answers the queries of a stream deserve, in stream order. */
  function Answers(ts: seq<Token>): seq<Reply> {
    if ts == [] then [] else
      (if TokenAction(ts[0]).Intercept? then [TokenAction(ts[0]).reply] else []) + Answers(ts[1..])
  }

  lemma {:induction false} AnswersConcat(a: seq<Token>, b: seq<Token>)
    ensures Answers(a + b) == Answers(a) + Answers(b)
  {
    if a == [] {
      assert a + b == b;
    } else {
      assert (a + b)[1..] == a[1..] + b;
      AnswersConcat(a[1..], b);
      Assoc(if TokenAction(a[0]).Intercept? then [TokenAction(a[0]).reply] else [], Answers(a[1..]), Answers(b));
    }
  }

  lemma {:induction false} SummaryIs(ts: seq<Token>)
    ensures Summary(ts).display == PrintAll(ShownTokens(ts))
    ensures Summary(ts).replies == Answers(ts)
    ensures Summary(ts).filtered <==> exists t <- ts :: !TokenAction(t).Keep?
  {
    if ts != [] {
      SummaryIs(ts[1..]);
      var head := if TokenAction(ts[0]).Keep? then [ts[0]] else [];
      PrintAllConcat(head, ShownTokens(ts[1..]));
      PrintOne(ts[0]);
      assert forall t :: t in ts <==> t == ts[0] || t in ts[1..];
    }
  }

  lemma {:induction false} ShownFacts(ts: seq<Token>)
    ensures AllWellFormed(ts) ==> AllWellFormed(ShownTokens(ts))
    ensures forall t <- ShownTokens(ts) :: t in ts && TokenAction(t).Keep?
  {
    if ts != [] {
      ShownFacts(ts[1..]);
    }
  }

  lemma {:induction false} ShowsPlain(s: seq<byte>, rest: seq<byte>)
    requires ESC !in s
    ensures Unified(s + rest) == Then(Shown(s), Unified(rest))
  {
    if s == [] {
      assert s + rest == rest;
    } else {
      assert (s + rest)[1..] == s[1..] + rest;
      ShowsPlain(s[1..], rest);
      ThenAssoc(Shown([s[0]]), Shown(s[1..]), Unified(rest));
      assert s == [s[0]] + s[1..];
    }
  }

  /** A kept sequence: its ESC with the action's flags, then its other bytes as they are. */
  lemma ShowsEscaped(s: seq<byte>, rest: seq<byte>, a: Action)
    requires s != [] && s[0] == ESC && ESC !in s[1..] && a.Keep?
    requires UnifiedHead(s + rest) == Head(Acted(a, [ESC]), 1)
    ensures Unified(s + rest) == Then(Acted(a, s), Unified(rest))
  {
    var tail := s[1..];
    assert (s + rest)[1..] == tail + rest;
    ShowsPlain(tail, rest);
    ThenAssoc(Acted(a, [ESC]), Shown(tail), Unified(rest));
    assert s == [ESC] + tail;
  }

  lemma UnifiedOnCsi(t: Token, rest: seq<byte>)
    requires t.Csi? && WellFormed(t)
    ensures Unified(Print(t) + rest) == Then(TokenResult(t), Unified(rest))
  {
    var d := Print(t) + rest;
    CsiReadsBack(t, rest);
    var a := TokenAction(t);
    assert d[0] == ESC && d[1] == CSI_OPEN;
    if a.Keep? {
      assert UnifiedHead(d) == Head(Acted(a, [ESC]), 1);
      ShowsEscaped(Print(t), rest, a);
    } else {
      assert UnifiedHead(d) == Head(Dropped(a), |Print(t)|);
      assert d[|Print(t)|..] == rest;
    }
  }

  /** A control string is classified by its body alone: the terminator's first byte ends it. */
  lemma DcsByBody(body: seq<byte>, tail: seq<byte>)
    requires tail == [] || tail[0] == ESC || tail[0] == BEL
    ensures ClassifyDcs(body + tail) == ClassifyDcs(body)
  {
    var s := body + tail;
    if |body| == 0 {
      assert s == tail;
    } else if |body| == 1 {
      assert s[0] == body[0] && (tail != [] ==> s[1] == tail[0]);
    } else if |body| == 2 {
      assert s[..2] == body && (tail != [] ==> s[2] == tail[0]);
    } else {
      assert s[..3] == body[..3];
    }
  }

  /** ESC P body without its terminator. */
  function Unterminated(t: Token): seq<byte>
    requires t.Osc? || t.Dcs?
  {
    [ESC, if t.Osc? then OSC_OPEN else DCS_OPEN] + t.body
  }

  lemma UnifiedOnKeptDcs(t: Token, rest: seq<byte>)
    requires t.Dcs? && WellFormed(t) && TokenAction(t).Keep?
    ensures Unified(Print(t) + rest) == Then(Shown(Print(t)), Unified(rest))
  {
    hide ClassifyDcs;
    var open, term := Unterminated(t), PrintTerm(t.term);
    var d := Print(t) + rest;
    assert d == open + (term + rest);
    assert d[2..] == t.body + (term + rest);
    DcsByBody(t.body, term + rest);
    ShowsEscaped(open, term + rest, TokenAction(t));
    TermShows(t.term, rest, TokenAction(t));
    ThenAssoc(Shown(open), Shown(term), Unified(rest));
    assert Print(t) == open + term;
  }

  lemma TermShows(term: Terminator, rest: seq<byte>, a: Action)
    requires a == Keep(false, false, false)
    ensures Unified(PrintTerm(term) + rest) == Then(Shown(PrintTerm(term)), Unified(rest))
  {
    match term {
      case Bel => ShowsPlain([BEL], rest);
      case St =>
        assert UnifiedHead([ESC, ST_CLOSE] + rest) == Head(Shown([ESC]), 1);
        ShowsEscaped([ESC, ST_CLOSE], rest, a);
    }
  }

  lemma UnifiedOnDroppedString(t: Token, rest: seq<byte>)
    requires (t.Osc? || t.Dcs?) && WellFormed(t) && !TokenAction(t).Keep?
    ensures Unified(Print(t) + rest) == Then(TokenResult(t), Unified(rest))
  {
    var d := Print(t) + rest;
    StringReadsBack(t, rest);
    if t.Dcs? {
      assert d[2..] == t.body + (PrintTerm(t.term) + rest);
      DcsByBody(t.body, PrintTerm(t.term) + rest);
    }
    assert UnifiedHead(d) == Head(Dropped(TokenAction(t)), |Print(t)|);
    assert d[|Print(t)|..] == rest;
  }

  lemma UnifiedOnToken(t: Token, rest: seq<byte>)
    requires WellFormed(t)
    ensures Unified(Print(t) + rest) == Then(TokenResult(t), Unified(rest))
  {
    match t {
      case Plain(b) => ShowsPlain([b], rest);
      case Esc2(x) => ShowsEscaped(Print(t), rest, TokenAction(t));
      case Csi(_, _, _) => UnifiedOnCsi(t, rest);
      case Osc(_, _) => UnifiedOnDroppedString(t, rest);
      case Dcs(_, _) =>
        if TokenAction(t).Keep? {
          UnifiedOnKeptDcs(t, rest);
        } else {
          UnifiedOnDroppedString(t, rest);
        }
    }
  }

  /** On well-formed streams the byte loop acts token by token, whatever follows. */
  lemma {:induction false} UnifiedOnTokens(ts: seq<Token>, rest: seq<byte>)
    requires AllWellFormed(ts)
    ensures Unified(PrintAll(ts) + rest) == Then(Summary(ts), Unified(rest))
  {
    if ts == [] {
      assert PrintAll(ts) + rest == rest;
    } else {
      Assoc(Print(ts[0]), PrintAll(ts[1..]), rest);
      UnifiedOnToken(ts[0], PrintAll(ts[1..]) + rest);
      UnifiedOnTokens(ts[1..], rest);
      ThenAssoc(TokenResult(ts[0]), Summary(ts[1..]), Unified(rest));
    }
  }

  /**
    A control string cut off before its terminator: dropped ones are consumed (and answered
    once, if they are a query), kept ones are shown up to the cut.
   */
  lemma UnifiedOnUnterminated(t: Token)
    requires (t.Osc? || t.Dcs?) && WellFormed(t)
    ensures Unified(Unterminated(t)) == Acted(TokenAction(t), Unterminated(t))
  {
    var d := Unterminated(t);
    assert d[2..] == t.body;
    NoStringEnd(t.body);
    var a := TokenAction(t);
    if a.Keep? {
      assert d + [] == d;
      ShowsEscaped(d, [], a);
    } else {
      assert UnifiedHead(d) == Head(Dropped(a), |d|);
      assert d[|d|..] == [];
    }
  }

  /** The second filter strips whatever the first would have: filtering twice is filtering last. */
  lemma {:induction false} KeptOfShown(ts: seq<Token>)
    requires AllWellFormed(ts)
    ensures FinalFilter.Kept(ShownTokens(ts)) == FinalFilter.Kept(ts)
  {
    if ts != [] {
      KeptOfShown(ts[1..]);
      var head := if TokenAction(ts[0]).Keep? then [ts[0]] else [];
      FinalFilter.KeptConcat(head, ShownTokens(ts[1..]));
      assert !TokenAction(ts[0]).Keep? ==> FinalFilter.Strips(ts[0]);
    }
  }

  lemma UnifiedDisplay(ts: seq<Token>)
    requires AllWellFormed(ts)
    ensures Unified(PrintAll(ts)).display == PrintAll(ShownTokens(ts))
    ensures Unified(PrintAll(ts)).replies == Answers(ts)
    ensures AllWellFormed(ShownTokens(ts))
  {
    UnifiedOnTokens(ts, []);
    assert PrintAll(ts) + [] == PrintAll(ts);
    SummaryIs(ts);
    ShownFacts(ts);
  }

  lemma FinalAbsorbsUnified(ts: seq<Token>)
    requires AllWellFormed(ts)
    ensures FinalFilter.Final(Unified(PrintAll(ts)).display) == FinalFilter.Final(PrintAll(ts))
  {
    UnifiedDisplay(ts);
    FinalFilter.FinalIsKept(ShownTokens(ts));
    FinalFilter.FinalIsKept(ts);
    KeptOfShown(ts);
  }

  /** A control sequence without its final byte is shown, byte for byte, and noted as nothing. */
  lemma UnfinishedIsShown(params: seq<byte>, inters: seq<byte>)
    requires Within(params, 0x30, 0x3F) && Within(inters, 0x20, 0x2F)
    ensures var s := [ESC, CSI_OPEN] + params + inters; Unified(s) == Result(s, [], false, false, false, false)
  {
    var s := [ESC, CSI_OPEN] + params + inters;
    assert s[2..] == params + inters + [];
    ScanOf(params, inters, []);
    assert s + [] == s;
    ShowsEscaped(s, [], Keep(false, false, false));
  }

  // ----- queries and answers, spelled out -----

  /** Which tokens are answered, and with what: nothing else is. */
  lemma AnsweredIff(t: Token)
    requires WellFormed(t)
    ensures TokenAction(t) == Intercept(Da1) <==>
              t.Csi? && t.final == 0x63 && forall i | 0 <= i < |t.params| :: 0x30 <= t.params[i] <= 0x39
    ensures TokenAction(t) == Intercept(Da2) <==>
              t.Csi? && t.final == 0x63 && (t.params == [0x3E] || t.params == [0x3E, 0x30])
    ensures TokenAction(t) == Intercept(StatusOk) <==> t.Csi? && t.final == 0x6E && t.params == [0x35]
    ensures TokenAction(t) == Intercept(CursorReport) <==> t.Csi? && t.final == 0x6E && t.params == [0x36]
    ensures TokenAction(t) == Intercept(Version) <==>
              || (t.Csi? && t.final == 0x71 && t.inters == [] && [0x3E] <= t.params)
              || (t.Dcs? && [0x3E, 0x71] <= t.body)
  {
    if t.Csi? && t.params != [] {
      assert t.params == [t.params[0]] + t.params[1..];
      assert t.params[0] == GT ==> !FinalFilter.IsDigit(t.params[0]);
    }
  }

  /** Which tokens are removed without an answer. */
  lemma FilteredIff(t: Token)
    requires WellFormed(t)
    ensures TokenAction(t) == Filter <==>
              || t.Osc?
              || (t.Csi? && t.final == 0x6C && t.params == [0x3F, 0x31, 0x30, 0x30, 0x34])
              || (t.Csi? && t.final == 0x63 && 0x3F in t.params)
              || (t.Csi? && t.final == 0x63 && |t.params| > 1 && t.params[0] == 0x3E
                  && (0x3B in t.params || (|t.params| == 2 && t.params[1] != 0x30)))
              || (t.Csi? && t.final == 0x6E && FinalFilter.IsCprResponse(t.params))
              || (t.Csi? && t.final == 0x71 && t.inters == [] && (t.params == [] || t.params[0] != 0x3E))
              || (t.Dcs? && ([0x2B, 0x71] <= t.body || [0x24, 0x71] <= t.body || [0x3E, 0x7C] <= t.body))
              || (t.Dcs? && ([0x31, 0x2B, 0x72] <= t.body || [0x31, 0x24, 0x72] <= t.body))
  {
    if t.Csi? && t.params != [] {
      assert t.params == [t.params[0]] + t.params[1..];
      assert !FinalFilter.IsCprResponse([0x35]) && !FinalFilter.IsCprResponse([0x36]) by {
        assert FinalFilter.Position([0x35], 0x3B) == None && FinalFilter.Position([0x36], 0x3B) == None;
      }
    }
  }

  /** Which shown tokens are noted: a cleared screen, a switch of screens, focus tracking turned on. */
  lemma NotedIff(t: Token)
    requires WellFormed(t) && TokenAction(t).Keep?
    ensures TokenAction(t).clear <==> t.Csi? && t.final == 0x4A && (t.params == [0x32] || t.params == [0x33])
    ensures TokenAction(t).boundary <==>
              || (t.Csi? && t.final == 0x4A && (t.params == [0x32] || t.params == [0x33]))
              || (t.Csi? && (t.final == 0x68 || t.final == 0x6C) && t.params == [0x3F, 0x31, 0x30, 0x34, 0x39])
    ensures TokenAction(t).focus <==> t.Csi? && t.final == 0x68 && t.params == [0x3F, 0x31, 0x30, 0x30, 0x34]
  {
  }

  /** The flags of a chunk tell of exactly the noted tokens among those shown. */
  lemma {:induction false} NotedOfStream(ts: seq<Token>)
    ensures Summary(ts).boundary <==> exists t <- ts :: TokenAction(t).Keep? && TokenAction(t).boundary
    ensures Summary(ts).focus <==> exists t <- ts :: TokenAction(t).Keep? && TokenAction(t).focus
    ensures Summary(ts).clear <==> exists t <- ts :: TokenAction(t).Keep? && TokenAction(t).clear
  {
    hide TokenAction;
    if ts != [] {
      NotedOfStream(ts[1..]);
      assert forall t :: t in ts <==> t == ts[0] || t in ts[1..];
    }
  }

  const DA1_PARAMS: seq<byte> := [
    0x3F, 0x36, 0x32, 0x3B, 0x31, 0x3B, 0x32, 0x3B, 0x36, 0x3B, 0x39, 0x3B, 0x31, 0x35, 0x3B, 0x31, 0x36, 0x3B,
    0x31, 0x37, 0x3B, 0x31, 0x38, 0x3B, 0x32, 0x31, 0x3B, 0x32, 0x32]   // ?62;1;2;6;9;15;16;17;18;21;22

  const DA2_PARAMS: seq<byte> := [0x3E, 0x30, 0x3B, 0x30, 0x3B, 0x31]   // >0;0;1

  const VERSION_BODY: seq<byte> := [
    0x3E, 0x7C, 0x53, 0x68, 0x65, 0x6C, 0x6C, 0x52, 0x65, 0x6D, 0x6F, 0x74, 0x65]   // >|ShellRemote

  predicate Spells(s: seq<byte>, text: string) {
    |s| == |text| && forall i | 0 <= i < |s| :: s[i] as int == text[i] as int
  }

  predicate Decimal(s: seq<byte>) {
    s != [] && FinalFilter.AllDigits(s)
  }

  /** The reply that is written to the shell; the shell's terminal may echo it back. */
  function ReplyToken(r: Reply, row: seq<byte>, col: seq<byte>): Token {
    match r
    case Da1 => Csi(DA1_PARAMS, [], 0x63)
    case Da2 => Csi(DA2_PARAMS, [], 0x63)
    case StatusOk => Csi([0x30], [], 0x6E)
    case CursorReport => Csi(row + [FinalFilter.SEMICOLON] + col, [], 0x52)
    case Version => Dcs(VERSION_BODY, St)
  }

  lemma ReplyLiterals()
    ensures Spells(DA1_PARAMS, "?62;1;2;6;9;15;16;17;18;21;22")
    ensures Spells(DA2_PARAMS, ">0;0;1") && Spells(VERSION_BODY, ">|ShellRemote")
  {
  }

  /** The replies, as text: each kind of query has its own. */
  lemma ReplyTexts(row: seq<byte>, col: seq<byte>)
    ensures var t := ReplyToken(Da1, row, col);
            t.Csi? && Spells(t.params, "?62;1;2;6;9;15;16;17;18;21;22") && t.inters == [] && t.final == 'c' as int
    ensures var t := ReplyToken(Da2, row, col);
            t.Csi? && Spells(t.params, ">0;0;1") && t.inters == [] && t.final == 'c' as int
    ensures ReplyToken(StatusOk, row, col) == Csi(['0' as int], [], 'n' as int)
    ensures ReplyToken(CursorReport, row, col) == Csi(row + [';' as int] + col, [], 'R' as int)
    ensures var t := ReplyToken(Version, row, col); t.Dcs? && Spells(t.body, ">|ShellRemote") && t.term == St
  {
    hide Spells, DA1_PARAMS, DA2_PARAMS, VERSION_BODY;
    ReplyLiterals();
  }

  lemma Da1Echo()
    ensures WellFormed(Csi(DA1_PARAMS, [], 0x63)) && !IsDaQuery(DA1_PARAMS) && IsDaResponse(DA1_PARAMS)
  {
    assert DA1_PARAMS[0] == QUESTION;
  }

  lemma Da2Echo()
    ensures WellFormed(Csi(DA2_PARAMS, [], 0x63)) && !IsDaQuery(DA2_PARAMS) && IsDaResponse(DA2_PARAMS)
  {
    hide DA1_PARAMS;
    assert DA2_PARAMS[1..][1] == FinalFilter.SEMICOLON;
  }

  lemma CursorEcho(row: seq<byte>, col: seq<byte>)
    requires Decimal(row) && Decimal(col)
    ensures var params := row + [FinalFilter.SEMICOLON] + col;
            Within(params, 0x30, 0x3F) && FinalFilter.IsCprResponse(params)
  {
    assert FinalFilter.SEMICOLON !in row;
    FinalFilter.CprIff(row + [FinalFilter.SEMICOLON] + col, row, col);
  }

  lemma VersionEcho()
    ensures StringBody(VERSION_BODY) && ClassifyDcs(VERSION_BODY) == Filter
  {
  }

  /**
    An echoed reply is never answered again. The first filter removes the echo except of a
    status or cursor report, whose test for it sits at the final byte of a query; the final
    filter removes every one.
   */
  lemma EchoOfReply(r: Reply, row: seq<byte>, col: seq<byte>)
    requires Decimal(row) && Decimal(col)
    ensures var t := ReplyToken(r, row, col);
            && WellFormed(t)
            && !TokenAction(t).Intercept?
            && (TokenAction(t) == Filter <==> r != StatusOk && r != CursorReport)
            && FinalFilter.Strips(t)
  {
    hide DA1_PARAMS, DA2_PARAMS, VERSION_BODY, IsDaQuery, IsDaResponse, ClassifyDcs, FinalFilter.IsCprResponse;
    Da1Echo();
    Da2Echo();
    CursorEcho(row, col);
    VersionEcho();
    assert !FinalFilter.IsCprResponse([0x30]) by { ZeroIsNoCpr(); }
  }

  lemma ZeroIsNoCpr()
    ensures !FinalFilter.IsCprResponse([0x30])
  {
    assert FinalFilter.Position([0x30], FinalFilter.SEMICOLON) == None;
  }

  // ----- the remote path -----

  /** What is sent to remote clients: the final filter runs only when something was filtered before. */
  function Remote(r: Result): seq<byte> {
    if r.filtered then FinalFilter.Final(r.display) else r.display
  }

  /**
    Remote clients get the final filter of a chunk exactly when the first filter removed
    something from it or there was nothing to remove. So an echoed cursor report in a chunk
    of its own reaches them.
   */
  lemma RemoteIsFinalIff(ts: seq<Token>)
    requires AllWellFormed(ts)
    ensures Remote(Unified(PrintAll(ts))) == FinalFilter.Final(PrintAll(ts))
       <==> Unified(PrintAll(ts)).filtered || forall t <- ts :: FinalFilter.IsDisplay(t)
  {
    hide Unified, FinalFilter.IsDisplay, FinalFilter.Final;
    FinalAbsorbsUnified(ts);
    FinalFilter.UntouchedIff(ts);
    if !Unified(PrintAll(ts)).filtered {
      UnfilteredIsIdentity(PrintAll(ts));
    }
  }

  lemma CursorEchoGoesRemote(row: seq<byte>, col: seq<byte>)
    requires Decimal(row) && Decimal(col)
    ensures var echo := Print(ReplyToken(CursorReport, row, col));
            Remote(Unified(echo)) == echo && FinalFilter.Final(echo) == []
  {
    var t := ReplyToken(CursorReport, row, col);
    EchoOfReply(CursorReport, row, col);
    PrintOne(t);
    UnifiedOnTokens([t], []);
    assert PrintAll([t]) + [] == PrintAll([t]);
    assert Summary([t]) == Then(TokenResult(t), Summary([]));
    assert Print(t) + [] == Print(t);
    FinalFilter.FinalIsKept([t]);
    assert FinalFilter.Kept([t]) == [] + FinalFilter.Kept([]);
  }
}
