/** The last filter before a terminal: strips queries, responses and all control strings. */
module FinalFilter {
  import opened Bytes
  import opened Ecma48

  const SEMICOLON: byte := 0x3B
  const FOCUS_MODE: seq<byte> := [0x3F, 0x31, 0x30, 0x30, 0x34]   // ?1004

  // Final bytes the filters single out.
  const FINAL_DA: byte := 0x63         // c
  const FINAL_DSR: byte := 0x6E        // n
  const FINAL_RESET: byte := 0x6C      // l
  const FINAL_XTVERSION: byte := 0x71  // q
  const FINAL_CPR: byte := 0x52        // R

  predicate IsDigit(b: byte) {
    0x30 <= b <= 0x39
  }

  predicate AllDigits(s: seq<byte>) {
    forall i | 0 <= i < |s| :: IsDigit(s[i])
  }

  /** Position of the first `b`, if any. */
  function Position(s: seq<byte>, b: byte): (p: Option<nat>)
    ensures p.Some? ==> p.value < |s| && s[p.value] == b
  {
    if s == [] then None
    else if s[0] == b then Some(0)
    else
      var rest := Position(s[1..], b);
      if rest.Some? then Some(rest.value + 1) else None
  }

  predicate IsCprResponse(params: seq<byte>) {
    var p := Position(params, SEMICOLON);
    if p.None? then false else
      var before, after := params[..p.value], params[p.value + 1..];
      before != [] && AllDigits(before) && after != [] && AllDigits(after)
  }

  lemma {:induction false} PositionOf(a: seq<byte>, b: byte, rest: seq<byte>)
    requires b !in a
    ensures Position(a + [b] + rest, b) == Some(|a|)
  {
    if a == [] {
      assert a + [b] + rest == [b] + rest;
    } else {
      assert (a + [b] + rest)[1..] == a[1..] + [b] + rest;
      PositionOf(a[1..], b, rest);
    }
  }

  lemma {:induction false} PositionNone(s: seq<byte>, b: byte)
    requires b !in s
    ensures Position(s, b) == None
  {
    if s != [] {
      PositionNone(s[1..], b);
    }
  }

  lemma NoCprWithout(params: seq<byte>)
    requires 0x3B !in params
    ensures !IsCprResponse(params)
  {
    PositionNone(params, SEMICOLON);
  }

  /** A cursor report's parameters are two decimal numbers with a semicolon between them. */
  lemma CprIff(params: seq<byte>, row: seq<byte>, col: seq<byte>)
    requires params == row + [0x3B] + col && 0x3B !in row
    ensures IsCprResponse(params) <==>
              && row != [] && (forall i | 0 <= i < |row| :: 0x30 <= row[i] <= 0x39)
              && col != [] && (forall i | 0 <= i < |col| :: 0x30 <= col[i] <= 0x39)
  {
    PositionOf(row, SEMICOLON, col);
    assert params[..|row|] == row && params[|row| + 1..] == col;
  }

  /** A control sequence this filter removes; one cut off by the end of the data is removed too. */
  predicate StripsCsi(c: CsiScan) {
    match c.final
    case None => true
    case Some(f) =>
      if f == FINAL_DA || f == FINAL_DSR then true
      else if f == FINAL_RESET then c.params == FOCUS_MODE
      else if f == FINAL_XTVERSION then c.inters == []
      else if f == FINAL_CPR then IsCprResponse(c.params)
      else false
  }

  /** What the filter does at the head of some bytes: what it emits and how far it moves. */
  datatype Head = Head(out: seq<byte>, len: nat)

  function FinalHead(d: seq<byte>): (h: Head)
    requires d != []
    ensures 0 < h.len <= |d|
  {
    if d[0] != ESC then Head([d[0]], 1)
    else if |d| < 2 then Head([], 1)
    else if d[1] == CSI_OPEN then
      var c := ScanCsi(d[2..]);
      ScanWithin(d[2..]);
      if StripsCsi(c) then Head([], 2 + ScanLen(c)) else Head([ESC], 1)
    else if d[1] == DCS_OPEN || d[1] == OSC_OPEN then
      Head([], 2 + SkipLen(d[2..]))
    else Head([ESC], 1)
  }

  /** What the filter makes of any bytes, well-formed or not. */
  function Final(d: seq<byte>): seq<byte>
    decreases |d|
  {
    if d == [] then [] else
      var h := FinalHead(d);
      h.out + Final(d[h.len..])
  }

  lemma {:induction false} FinalNoEsc(d: seq<byte>)
    requires ESC !in d
    ensures Final(d) == d
  {
    if d != [] {
      FinalNoEsc(d[1..]);
    }
  }

  method ClassifyFinalDefenseCsi(data: seq<byte>, start: nat) returns (strip: bool, i: nat)
    requires start <= |data|
    ensures var c := ScanCsi(data[start..]);
            strip == StripsCsi(c) && i == start + ScanLen(c) <= |data|
  {
    var c, next := ScanCsiAt(data, start);
    match c.final {
      case None => return true, next;
      case Some(f) =>
        if f == FINAL_DA || f == FINAL_DSR {
          return true, next;
        }
        if f == FINAL_RESET {
          return c.params == FOCUS_MODE, next;
        }
        if f == FINAL_XTVERSION {
          return c.inters == [], next;
        }
        if f == FINAL_CPR {
          return IsCprResponse(c.params), next;
        }
        return false, next;
    }
  }

  lemma FinalUnfolds(d: seq<byte>)
    requires d != []
    ensures Final(d) == FinalHead(d).out + Final(d[FinalHead(d).len..])
  {
    hide FinalHead;
  }

  lemma FinalAdvances(result: seq<byte>, data: seq<byte>, i: nat, out: seq<byte>, next: nat)
    requires i < next <= |data| && FinalHead(data[i..]) == Head(out, next - i)
    ensures result + Final(data[i..]) == (result + out) + Final(data[next..])
  {
    hide FinalHead, Final;
    assert data[i..][next - i..] == data[next..];
    FinalUnfolds(data[i..]);
    Assoc(result, out, Final(data[next..]));
  }

  /** The single pass over the data. */
  method FilterLoop(data: seq<byte>) returns (result: seq<byte>)
    ensures result == Final(data)
  {
    result := [];
    var i := 0;
    while i < |data|
      invariant i <= |data|
      invariant result + Final(data[i..]) == Final(data)
    {
      ghost var d := data[i..];
      if data[i] == ESC {
        if i + 1 >= |data| {
          FinalAdvances(result, data, i, [], i + 1);
          assert result + [] == result && data[i + 1..] == [];
          break;
        }
        assert data[i + 2..] == d[2..];
        if data[i + 1] == CSI_OPEN {
          var strip, next := ClassifyFinalDefenseCsi(data, i + 2);
          if strip {
            FinalAdvances(result, data, i, [], next);
            assert result + [] == result;
            i := next;
            continue;
          }
        } else if data[i + 1] == DCS_OPEN || data[i + 1] == OSC_OPEN {
          var next := SkipString(data, i + 2);
          FinalAdvances(result, data, i, [], next);
          assert result + [] == result;
          i := next;
          continue;
        }
      }
      FinalAdvances(result, data, i, [data[i]], i + 1);
      result := result + [data[i]];
      i := i + 1;
    }
    assert result + [] == result;
  }

  /** The filter with its fast path for data without ESC. */
  method FinalDefenseFilter(data: seq<byte>) returns (result: seq<byte>)
    ensures result == Final(data)
  {
    if ESC !in data {
      FinalNoEsc(data);
      return data;
    }
    result := FilterLoop(data);
  }

  // ----- on tokens -----

  predicate Strips(t: Token) {
    match t
    case Csi(params, inters, final) => StripsCsi(CsiScan(params, inters, Some(final)))
    case Osc(_, _) => true
    case Dcs(_, _) => true
    case _ => false
  }

  function Kept(ts: seq<Token>): seq<Token> {
    if ts == [] then [] else (if Strips(ts[0]) then [] else [ts[0]]) + Kept(ts[1..])
  }

  /** Bytes other than ESC pass through untouched. */
  lemma {:induction false} FinalPassesPlain(s: seq<byte>, rest: seq<byte>)
    requires ESC !in s
    ensures Final(s + rest) == s + Final(rest)
  {
    if s == [] {
      assert s + rest == rest;
    } else {
      assert (s + rest)[1..] == s[1..] + rest;
      FinalPassesPlain(s[1..], rest);
      Assoc([s[0]], s[1..], Final(rest));
    }
  }

  lemma FinalOnCsi(t: Token, rest: seq<byte>)
    requires t.Csi? && WellFormed(t)
    ensures Final(Print(t) + rest) == (if Strips(t) then [] else Print(t)) + Final(rest)
  {
    var d := Print(t) + rest;
    CsiReadsBack(t, rest);
    if Strips(t) {
      assert FinalHead(d) == Head([], |Print(t)|);
      assert d[|Print(t)|..] == rest;
    } else {
      assert FinalHead(d) == Head([ESC], 1);
      FinalKeepsEsc(Print(t), rest);
    }
  }

  lemma FinalKeepsEsc(s: seq<byte>, rest: seq<byte>)
    requires s != [] && s[0] == ESC && ESC !in s[1..]
    requires FinalHead(s + rest) == Head([ESC], 1)
    ensures Final(s + rest) == s + Final(rest)
  {
    var tail := s[1..];
    assert (s + rest)[1..] == tail + rest;
    FinalPassesPlain(tail, rest);
    Assoc([ESC], tail, Final(rest));
    assert s == [ESC] + tail;
  }

  lemma FinalOnString(t: Token, rest: seq<byte>)
    requires (t.Osc? || t.Dcs?) && WellFormed(t)
    ensures Final(Print(t) + rest) == Final(rest)
  {
    var d := Print(t) + rest;
    StringReadsBack(t, rest);
    assert FinalHead(d) == Head([], |Print(t)|);
    assert d[|Print(t)|..] == rest;
  }

  lemma FinalOnToken(t: Token, rest: seq<byte>)
    requires WellFormed(t)
    ensures Final(Print(t) + rest) == (if Strips(t) then [] else Print(t)) + Final(rest)
  {
    match t {
      case Plain(b) => FinalPassesPlain([b], rest);
      case Esc2(x) =>
        FinalKeepsEsc(Print(t), rest);
      case Csi(_, _, _) => FinalOnCsi(t, rest);
      case Osc(_, _) => FinalOnString(t, rest);
      case Dcs(_, _) => FinalOnString(t, rest);
    }
  }

  /** On well-formed streams the byte loop keeps exactly the tokens it does not strip. */
  lemma {:induction false} FinalOnTokens(ts: seq<Token>, rest: seq<byte>)
    requires AllWellFormed(ts)
    ensures Final(PrintAll(ts) + rest) == PrintAll(Kept(ts)) + Final(rest)
  {
    if ts == [] {
      assert PrintAll(ts) + rest == rest;
    } else {
      var more := PrintAll(ts[1..]) + rest;
      Assoc(Print(ts[0]), PrintAll(ts[1..]), rest);
      FinalOnToken(ts[0], more);
      FinalOnTokens(ts[1..], rest);
      var head := if Strips(ts[0]) then [] else [ts[0]];
      PrintAllConcat(head, Kept(ts[1..]));
      PrintOne(ts[0]);
      Assoc(PrintAll(head), PrintAll(Kept(ts[1..])), Final(rest));
    }
  }

  lemma FinalIsKept(ts: seq<Token>)
    requires AllWellFormed(ts)
    ensures Final(PrintAll(ts)) == PrintAll(Kept(ts))
  {
    FinalOnTokens(ts, []);
    assert PrintAll(ts) + [] == PrintAll(ts);
    assert PrintAll(Kept(ts)) + [] == PrintAll(Kept(ts));
  }

  lemma {:induction false} KeptFacts(ts: seq<Token>)
    ensures forall t <- Kept(ts) :: !Strips(t) && t in ts
    ensures AllWellFormed(ts) ==> AllWellFormed(Kept(ts))
    ensures (forall t <- ts :: !Strips(t)) ==> Kept(ts) == ts
  {
    if ts != [] {
      KeptFacts(ts[1..]);
    }
  }

  lemma {:induction false} KeptConcat(a: seq<Token>, b: seq<Token>)
    ensures Kept(a + b) == Kept(a) + Kept(b)
  {
    if a == [] {
      assert a + b == b;
    } else {
      assert (a + b)[1..] == a[1..] + b;
      KeptConcat(a[1..], b);
      Assoc(if Strips(a[0]) then [] else [a[0]], Kept(a[1..]), Kept(b));
    }
  }

  /** No control string and no query or report survives, in the only reading the output has. */
  lemma FinalOutputIsClean(ts: seq<Token>, reading: seq<Token>)
    requires AllWellFormed(ts) && AllWellFormed(reading) && PrintAll(reading) == Final(PrintAll(ts))
    ensures forall t <- reading ::
              && !t.Osc? && !t.Dcs?
              && (t.Csi? ==>
                    && t.final != FINAL_DA && t.final != FINAL_DSR
                    && !(t.final == FINAL_XTVERSION && t.inters == [])
                    && !(t.final == FINAL_CPR && IsCprResponse(t.params)))
  {
    FinalIsKept(ts);
    KeptFacts(ts);
    PrintIsInjective(reading, Kept(ts));
  }

  /** Characters, two-byte escapes, and control sequences that neither ask nor report. */
  predicate IsDisplay(t: Token) {
    match t
    case Plain(_) => true
    case Esc2(_) => true
    case Osc(_, _) => false
    case Dcs(_, _) => false
    case Csi(params, inters, final) =>
      && final != 0x63 && final != 0x6E
      && !(final == 0x6C && params == FOCUS_MODE)
      && !(final == 0x71 && inters == [])
      && !(final == 0x52 && IsCprResponse(params))
  }

  /** A stream passes untouched exactly when all of it is display. */
  lemma UntouchedIff(ts: seq<Token>)
    requires AllWellFormed(ts)
    ensures Final(PrintAll(ts)) == PrintAll(ts) <==> forall t <- ts :: IsDisplay(t)
  {
    FinalIsKept(ts);
    KeptFacts(ts);
    assert forall t <- ts :: IsDisplay(t) <==> !Strips(t);
    if Final(PrintAll(ts)) == PrintAll(ts) {
      PrintIsInjective(Kept(ts), ts);
    }
  }

  lemma FinalIsIdempotent(ts: seq<Token>)
    requires AllWellFormed(ts)
    ensures Final(Final(PrintAll(ts))) == Final(PrintAll(ts))
  {
    FinalIsKept(ts);
    KeptFacts(ts);
    FinalIsKept(Kept(ts));
    KeptFacts(Kept(ts));
  }

  lemma FinalDistributes(a: seq<Token>, b: seq<Token>)
    requires AllWellFormed(a) && AllWellFormed(b)
    ensures Final(PrintAll(a) + PrintAll(b)) == Final(PrintAll(a)) + Final(PrintAll(b))
  {
    FinalOnTokens(a, PrintAll(b));
    FinalIsKept(a);
  }

  /** What is cut off by the end of the data is removed: a lone ESC, an unfinished control sequence or string. */
  lemma UnfinishedIsRemoved(params: seq<byte>, inters: seq<byte>, body: seq<byte>)
    requires Within(params, 0x30, 0x3F) && Within(inters, 0x20, 0x2F) && StringBody(body)
    ensures Final([ESC]) == []
    ensures Final([ESC, CSI_OPEN] + params + inters) == []
    ensures Final([ESC, OSC_OPEN] + body) == [] && Final([ESC, DCS_OPEN] + body) == []
  {
    var s := [ESC, CSI_OPEN] + params + inters;
    assert s[2..] == params + inters + [];
    ScanOf(params, inters, []);
    assert FinalHead(s) == Head([], |s|) && s[|s|..] == [];
    NoStringEnd(body);
    var o, d := [ESC, OSC_OPEN] + body, [ESC, DCS_OPEN] + body;
    assert o[2..] == body && d[2..] == body;
    assert FinalHead(o) == Head([], |o|) && FinalHead(d) == Head([], |d|);
    assert o[|o|..] == [] && d[|d|..] == [];
  }

  // ----- on any bytes -----

  /** `a` is `b` with some bytes left out. */
  ghost predicate Subsequence(a: seq<byte>, b: seq<byte>)
    decreases |b|
  {
    a == [] || (b != [] && (if a[0] == b[0] then Subsequence(a[1..], b[1..]) else Subsequence(a, b[1..])))
  }

  lemma {:induction false} SubsequenceSkips(a: seq<byte>, b: seq<byte>, n: nat)
    requires n <= |b| && Subsequence(a, b[n..])
    ensures Subsequence(a, b)
    decreases |b|, 0
  {
    if n > 0 && a != [] {
      assert b[1..][n - 1..] == b[n..];
      SubsequenceSkips(a, b[1..], n - 1);
      if a[0] == b[0] {
        SubsequenceTail(a, b[1..]);
      }
    }
  }

  lemma {:induction false} SubsequenceTail(a: seq<byte>, b: seq<byte>)
    requires a != [] && Subsequence(a, b)
    ensures Subsequence(a[1..], b)
    decreases |b|, 1
  {
    if a[0] == b[0] {
      SubsequenceSkips(a[1..], b, 1);
    } else {
      SubsequenceTail(a, b[1..]);
      SubsequenceSkips(a[1..], b, 1);
    }
  }

  /** Even on malformed input the filter only removes bytes: it never adds or reorders one. */
  lemma {:induction false} FinalOnlyRemoves(d: seq<byte>)
    ensures Subsequence(Final(d), d)
    decreases |d|
  {
    if d != [] {
      var h := FinalHead(d);
      FinalOnlyRemoves(d[h.len..]);
      if h.out == [] {
        assert Final(d) == Final(d[h.len..]);
        SubsequenceSkips(Final(d), d, h.len);
      } else {
        assert Final(d)[1..] == Final(d[1..]);
      }
    }
  }
}
