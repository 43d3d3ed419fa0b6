/**
  Escape sequences as ECMA-48 lays them out: control sequences (section 5.4) and control
  strings (section 5.6). `Token` is the abstract syntax, `Print` its printer, and the scan
  functions are what the hand-written lexers of the filters compute.
 */
module Ecma48 {
  import opened Bytes

  const ESC: byte := 0x1B
  const BEL: byte := 0x07
  const CSI_OPEN: byte := 0x5B   // [
  const OSC_OPEN: byte := 0x5D   // ]
  const DCS_OPEN: byte := 0x50   // P
  const ST_CLOSE: byte := 0x5C   // \

  // ----- scanning -----

  /** Number of leading bytes of `s` within [lo, hi]. */
  function SpanLen(s: seq<byte>, lo: int, hi: int): (n: nat)
    ensures n <= |s|
  {
    if s != [] && lo <= s[0] <= hi then 1 + SpanLen(s[1..], lo, hi) else 0
  }

  /** What follows ESC [ : parameter bytes, intermediate bytes, and a final byte if there is one. */
  datatype CsiScan = CsiScan(params: seq<byte>, inters: seq<byte>, final: Option<byte>)

  function ScanCsi(s: seq<byte>): CsiScan {
    var p := SpanLen(s, 0x30, 0x3F);
    var q := SpanLen(s[p..], 0x20, 0x2F);
    CsiScan(s[..p], s[p..p + q], if p + q < |s| then Some(s[p + q]) else None)
  }

  /** Bytes of the sequence after ESC [ . */
  function ScanLen(c: CsiScan): nat {
    |c.params| + |c.inters| + (if c.final.Some? then 1 else 0)
  }

  lemma ScanWithin(s: seq<byte>)
    ensures ScanLen(ScanCsi(s)) <= |s|
  {
  }

  /** Where the first BEL or ESC \ of `s` ends, if there is one. */
  function StringEnd(s: seq<byte>): (e: Option<nat>)
    ensures e.Some? ==> 0 < e.value <= |s|
  {
    if s == [] then None
    else if s[0] == BEL then Some(1)
    else if |s| >= 2 && s[0] == ESC && s[1] == ST_CLOSE then Some(2)
    else
      var rest := StringEnd(s[1..]);
      if rest.Some? then Some(rest.value + 1) else None
  }

  /** How far the filters skip: past the terminator, or to the end of the data. */
  function SkipLen(s: seq<byte>): (n: nat)
    ensures n <= |s|
  {
    var e := StringEnd(s);
    if e.Some? then e.value else |s|
  }

  /** The loop every lexer uses to step over bytes in a range. */
  method SkipRange(data: seq<byte>, start: nat, lo: int, hi: int) returns (i: nat)
    requires start <= |data|
    ensures i == start + SpanLen(data[start..], lo, hi)
  {
    i := start;
    while i < |data| && lo <= data[i] <= hi
      invariant start <= i <= |data|
      invariant i + SpanLen(data[i..], lo, hi) == start + SpanLen(data[start..], lo, hi)
    {
      assert data[i..][1..] == data[i + 1..];
      i := i + 1;
    }
  }

  /** The lexer of a control sequence: scans from just after ESC [ and returns the index after it. */
  method ScanCsiAt(data: seq<byte>, start: nat) returns (c: CsiScan, i: nat)
    requires start <= |data|
    ensures c == ScanCsi(data[start..]) && i == start + ScanLen(c) <= |data|
  {
    hide SpanLen;
    ghost var s := data[start..];
    var p := SkipRange(data, start, 0x30, 0x3F);
    assert data[p..] == s[p - start..];
    var q := SkipRange(data, p, 0x20, 0x2F);
    var params, inters := data[start..p], data[p..q];
    assert params == s[..p - start];
    assert inters == s[p - start..q - start];
    if q >= |data| {
      return CsiScan(params, inters, None), q;
    }
    assert data[q] == s[q - start];
    return CsiScan(params, inters, Some(data[q])), q + 1;
  }

  /** `skip_osc_sequence` and `skip_dcs_sequence`: index after the terminator, or the end. */
  method SkipString(data: seq<byte>, start: nat) returns (i: nat)
    requires start <= |data|
    ensures i == start + SkipLen(data[start..]) <= |data|
  {
    i := start;
    while i < |data|
      invariant start <= i <= |data|
      invariant i + SkipLen(data[i..]) == start + SkipLen(data[start..])
    {
      if data[i] == BEL {
        return i + 1;
      }
      if i + 1 < |data| && data[i] == ESC && data[i + 1] == ST_CLOSE {
        return i + 2;
      }
      assert data[i..][1..] == data[i + 1..];
      i := i + 1;
    }
  }

  // ----- tokens -----

  datatype Terminator = Bel | St

  datatype Token =
    | Plain(b: byte)
    | Csi(params: seq<byte>, inters: seq<byte>, final: byte)
    | Osc(body: seq<byte>, term: Terminator)
    | Dcs(body: seq<byte>, term: Terminator)
    | Esc2(x: byte)

  ghost predicate Within(s: seq<byte>, lo: int, hi: int) {
    forall i | 0 <= i < |s| :: lo <= s[i] <= hi
  }

  ghost predicate StringBody(s: seq<byte>) {
    forall i | 0 <= i < |s| :: s[i] != ESC && s[i] != BEL
  }

  ghost predicate WellFormed(t: Token) {
    match t
    case Plain(b) => b != ESC
    case Csi(params, inters, final) =>
      Within(params, 0x30, 0x3F) && Within(inters, 0x20, 0x2F) && 0x40 <= final <= 0x7E
    case Osc(body, _) => StringBody(body)
    case Dcs(body, _) => StringBody(body)
    case Esc2(x) => x != CSI_OPEN && x != OSC_OPEN && x != DCS_OPEN && x != ESC
  }

  ghost predicate AllWellFormed(ts: seq<Token>) {
    forall i | 0 <= i < |ts| :: WellFormed(ts[i])
  }

  function PrintTerm(t: Terminator): seq<byte> {
    if t == Bel then [BEL] else [ESC, ST_CLOSE]
  }

  function Print(t: Token): (s: seq<byte>)
    ensures s != []
  {
    match t
    case Plain(b) => [b]
    case Csi(params, inters, final) => [ESC, CSI_OPEN] + params + inters + [final]
    case Osc(body, term) => [ESC, OSC_OPEN] + body + PrintTerm(term)
    case Dcs(body, term) => [ESC, DCS_OPEN] + body + PrintTerm(term)
    case Esc2(x) => [ESC, x]
  }

  /** The bytes of each kind of token. */
  lemma TokenForm(params: seq<byte>, inters: seq<byte>, final: byte, body: seq<byte>, x: byte)
    ensures Print(Plain(x)) == [x] && Print(Esc2(x)) == [0x1B, x]
    ensures Print(Csi(params, inters, final)) == [0x1B, 0x5B] + params + inters + [final]
    ensures Print(Osc(body, Bel)) == [0x1B, 0x5D] + body + [0x07]
    ensures Print(Osc(body, St)) == [0x1B, 0x5D] + body + [0x1B, 0x5C]
    ensures Print(Dcs(body, Bel)) == [0x1B, 0x50] + body + [0x07]
    ensures Print(Dcs(body, St)) == [0x1B, 0x50] + body + [0x1B, 0x5C]
  {
  }

  function PrintAll(ts: seq<Token>): seq<byte> {
    if ts == [] then [] else Print(ts[0]) + PrintAll(ts[1..])
  }

  lemma {:induction false} PrintAllConcat(a: seq<Token>, b: seq<Token>)
    ensures PrintAll(a + b) == PrintAll(a) + PrintAll(b)
  {
    hide Print;
    if a == [] {
      assert a + b == b;
    } else {
      PrintAllConcat(a[1..], b);
      assert (a + b)[1..] == a[1..] + b;
      Assoc(Print(a[0]), PrintAll(a[1..]), PrintAll(b));
    }
  }

  lemma PrintOne(t: Token)
    ensures PrintAll([t]) == Print(t)
  {
    assert PrintAll([t]) == Print(t) + PrintAll([]);
  }

  // ----- the scans read printed tokens back -----

  lemma {:induction false} SpanOf(a: seq<byte>, rest: seq<byte>, lo: int, hi: int)
    requires Within(a, lo, hi) && (rest == [] || !(lo <= rest[0] <= hi))
    ensures SpanLen(a + rest, lo, hi) == |a|
  {
    if a == [] {
      assert a + rest == rest;
    } else {
      assert (a + rest)[1..] == a[1..] + rest;
      SpanOf(a[1..], rest, lo, hi);
    }
  }

  lemma ScanOf(params: seq<byte>, inters: seq<byte>, tail: seq<byte>)
    requires Within(params, 0x30, 0x3F) && Within(inters, 0x20, 0x2F)
    requires tail == [] || 0x40 <= tail[0] <= 0x7E
    ensures ScanCsi(params + inters + tail)
         == CsiScan(params, inters, if tail == [] then None else Some(tail[0]))
  {
    var s := params + inters + tail;
    Assoc(params, inters, tail);
    SpanOf(params, inters + tail, 0x30, 0x3F);
    assert s[|params|..] == inters + tail;
    SpanOf(inters, tail, 0x20, 0x2F);
  }

  lemma CsiReadsBack(t: Token, rest: seq<byte>)
    requires t.Csi? && WellFormed(t)
    ensures var d := Print(t) + rest;
            && |d| >= 2 && ScanCsi(d[2..]) == CsiScan(t.params, t.inters, Some(t.final))
            && 2 + ScanLen(ScanCsi(d[2..])) == |Print(t)|
  {
    var d := Print(t) + rest;
    assert d[2..] == t.params + t.inters + ([t.final] + rest);
    ScanOf(t.params, t.inters, [t.final] + rest);
  }

  lemma {:induction false} StringEndOf(body: seq<byte>, term: Terminator, rest: seq<byte>)
    requires StringBody(body)
    ensures StringEnd(body + PrintTerm(term) + rest) == Some(|body| + |PrintTerm(term)|)
  {
    var s := body + PrintTerm(term) + rest;
    if body == [] {
      assert s == PrintTerm(term) + rest;
    } else {
      assert s[1..] == body[1..] + PrintTerm(term) + rest;
      StringEndOf(body[1..], term, rest);
    }
  }

  lemma {:induction false} NoStringEnd(body: seq<byte>)
    requires StringBody(body)
    ensures StringEnd(body) == None && SkipLen(body) == |body|
  {
    if body != [] {
      NoStringEnd(body[1..]);
    }
  }

  lemma StringReadsBack(t: Token, rest: seq<byte>)
    requires (t.Osc? || t.Dcs?) && WellFormed(t)
    ensures var d := Print(t) + rest;
            |d| >= 2 && StringEnd(d[2..]) == Some(|Print(t)| - 2)
  {
    var d := Print(t) + rest;
    var s := t.body + PrintTerm(t.term) + rest;
    assert d == [ESC, if t.Osc? then OSC_OPEN else DCS_OPEN] + s;
    assert d[2..] == s;
    StringEndOf(t.body, t.term, rest);
  }

  /** The token at the head of some bytes, if a complete one is there. */
  function Lex(d: seq<byte>): Option<Token> {
    if d == [] then None
    else if d[0] != ESC then Some(Plain(d[0]))
    else if |d| < 2 then None
    else if d[1] == CSI_OPEN then
      var c := ScanCsi(d[2..]);
      if c.final.Some? && 0x40 <= c.final.value <= 0x7E then Some(Csi(c.params, c.inters, c.final.value)) else None
    else if d[1] == OSC_OPEN || d[1] == DCS_OPEN then
      var e := StringEnd(d[2..]);
      if e.None? then None else
        var term := if d[1 + e.value] == BEL then Bel else St;
        var len := e.value - |PrintTerm(term)|;
        if len < 0 then None
        else if d[1] == OSC_OPEN then Some(Osc(d[2..2 + len], term))
        else Some(Dcs(d[2..2 + len], term))
    else Some(Esc2(d[1]))
  }

  /** Lexing a printed token gives it back, whatever follows. */
  lemma LexPrint(t: Token, rest: seq<byte>)
    requires WellFormed(t)
    ensures Lex(Print(t) + rest) == Some(t)
  {
    var d := Print(t) + rest;
    match t {
      case Plain(_) =>
      case Csi(_, _, _) => CsiReadsBack(t, rest);
      case Esc2(_) =>
      case Osc(_, _) => LexString(t, rest);
      case Dcs(_, _) => LexString(t, rest);
    }
  }

  lemma Pieces(open: byte, body: seq<byte>, tail: seq<byte>, rest: seq<byte>)
    requires tail != []
    ensures var d := [ESC, open] + body + tail + rest;
            && d[0] == ESC && d[1] == open
            && d[2..2 + |body|] == body
            && d[1 + |body| + |tail|] == tail[|tail| - 1]
  {
  }

  lemma LexString(t: Token, rest: seq<byte>)
    requires (t.Osc? || t.Dcs?) && WellFormed(t)
    ensures Lex(Print(t) + rest) == Some(t)
  {
    StringReadsBack(t, rest);
    Pieces(if t.Osc? then OSC_OPEN else DCS_OPEN, t.body, PrintTerm(t.term), rest);
    match t.term {
      case Bel => assert PrintTerm(t.term) == [BEL];
      case St => assert PrintTerm(t.term) == [ESC, ST_CLOSE];
    }
  }

  /** A well-formed byte string has one reading only. */
  lemma {:induction false} PrintIsInjective(a: seq<Token>, b: seq<Token>)
    requires AllWellFormed(a) && AllWellFormed(b) && PrintAll(a) == PrintAll(b)
    ensures a == b
  {
    if a != [] && b != [] {
      LexPrint(a[0], PrintAll(a[1..]));
      LexPrint(b[0], PrintAll(b[1..]));
      assert a[0] == b[0];
      var n := |Print(a[0])|;
      assert PrintAll(a)[n..] == PrintAll(a[1..]);
      assert PrintAll(b)[n..] == PrintAll(b[1..]);
      PrintIsInjective(a[1..], b[1..]);
    }
  }
}
