/**
  Terminal output between the relay (which prints a header and then data messages) and the
  browser (which tells them apart and parses the header).
 */
module TerminalOutput {
  import opened Bytes

  const WS_TYPE_TERM_OUTPUT: byte := 1
  const TERM_FLAG_RAW: byte := 0
  const TERM_FLAG_LZ4: byte := 1
  const VERSION: byte := 2
  const TERMINAL_IO: byte := 1

  // ----- LEB128 -----

  /** Seven bits a byte, low bits first, the high bit set on all but the last byte. */
  function Leb(n: nat): (b: seq<byte>)
    ensures |b| > 0
  {
    if n < 128 then [n] else [n % 128 + 128] + Leb(n / 128)
  }

  method WriteVarint(value: nat) returns (buf: seq<byte>)
    ensures buf == Leb(value)
  {
    buf := [];
    var rest := value;
    while true
      invariant buf + Leb(rest) == Leb(value)
      decreases rest
    {
      var low: byte := rest % 128;
      var shifted := rest / 128;
      if shifted == 0 {
        assert Leb(rest) == [low];
        buf := buf + [low];
        return;
      }
      Assoc(buf, [low + 128], Leb(shifted));
      buf := buf + [low + 128];
      rest := shifted;
    }
  }

  /** Bitwise or. */
  function Or(a: nat, b: nat): nat {
    if a == 0 then b else if b == 0 then a else (if a % 2 == 1 || b % 2 == 1 then 1 else 0) + 2 * Or(a / 2, b / 2)
  }

  function Pow2(k: nat): (p: nat)
    ensures p > 0
  {
    if k == 0 then 1 else 2 * Pow2(k - 1)
  }

  /** JavaScript's `v |= x << shift` on 32 bits; the shift distance counts modulo 32. */
  function OrShifted(v: nat, x: nat, shift: nat): nat {
    Or(v, x * Pow2(shift % 32) % 0x1_0000_0000)
  }

  function ToInt32(v: nat): int {
    if v % 0x1_0000_0000 < 0x8000_0000 then v % 0x1_0000_0000 else v % 0x1_0000_0000 - 0x1_0000_0000
  }

  datatype Read = Read(value: int, used: nat) | Overflow | Truncated

  /** The reader's loop from byte `i` on, with `v` gathered so far; `more` is the last byte's high bit. */
  function ReadFrom(buf: seq<byte>, offset: nat, i: nat, v: nat, shift: nat, more: bool): Read
    requires offset <= i
    decreases |buf| - i
  {
    if i >= |buf| then
      if more then Truncated else Read(ToInt32(v), i - offset)
    else
      var v' := OrShifted(v, buf[i] as int % 128, shift);
      if buf[i] < 128 then Read(ToInt32(v'), i + 1 - offset)
      else if shift + 7 >= 64 then Overflow
      else ReadFrom(buf, offset, i + 1, v', shift + 7, true)
  }

  method ReadVarint(buf: seq<byte>, offset: nat) returns (r: Read)
    ensures r == ReadFrom(buf, offset, offset, 0, 0, false)
  {
    var v, shift, i := 0, 0, offset;
    var ended := false;
    ghost var more := false;
    ghost var whole := ReadFrom(buf, offset, offset, 0, 0, false);
    while i < |buf| && !ended
      invariant offset <= i
      invariant more == (offset < i <= |buf| && buf[i - 1] >= 128)
      invariant whole == if ended then Read(ToInt32(v), i - offset) else ReadFrom(buf, offset, i, v, shift, more)
      invariant ended ==> i <= |buf| && !more
      decreases |buf| - i, !ended
    {
      var b := buf[i];
      i := i + 1;
      more := b >= 128;
      v := OrShifted(v, b as int % 128, shift);
      if b < 128 {
        ended := true;
      } else {
        shift := shift + 7;
        if shift >= 64 {
          return Overflow;
        }
      }
    }
    if i > offset && i <= |buf| && buf[i - 1] >= 128 {
      return Truncated;
    }
    return Read(ToInt32(v), i - offset);
  }

  lemma {:induction false} OrAdds(a: nat, b: nat, k: nat)
    requires a < Pow2(k)
    ensures Or(a, b * Pow2(k)) == a + b * Pow2(k)
  {
    if k > 0 && a > 0 && b > 0 {
      var p := Pow2(k - 1);
      Double(b, p);
      OrAdds(a / 2, b, k - 1);
    }
  }

  /** Bit by bit, it is the bitwise or. */
  lemma {:induction false} OrBit(a: nat, b: nat, k: nat)
    ensures Or(a, b) / Pow2(k) % 2 == 1 <==> a / Pow2(k) % 2 == 1 || b / Pow2(k) % 2 == 1
  {
    if a == 0 || b == 0 {
      ZeroBits(k);
    } else if k > 0 {
      var p := Pow2(k - 1);
      Halve(Or(a, b), p);
      Halve(a, p);
      Halve(b, p);
      OrBit(a / 2, b / 2, k - 1);
    }
  }

  lemma ZeroBits(k: nat)
    ensures 0 / Pow2(k) == 0
  {
  }

  lemma Halve(n: nat, p: nat)
    requires p > 0
    ensures n / (2 * p) == n / 2 / p
  {
    var q, r := n / 2 / p, n / 2 % p;
    assert n / 2 == q * p + r;
    assert n == q * (2 * p) + (2 * r + n % 2);
    Quotient(n, 2 * p, q, 2 * r + n % 2);
  }

  lemma Quotient(n: nat, d: nat, q: nat, r: nat)
    requires r < d && n == q * d + r
    ensures n / d == q
  {
    var e := n / d - q;
    assert e * d == r - n % d;
    assert e >= 1 ==> e * d >= d;
    assert e <= -1 ==> e * d + d <= 0;
  }

  /** The shift distance counts modulo 32, and what leaves the 32 bits is gone. */
  lemma ShiftWraps(x: nat)
    ensures OrShifted(0, x, 32) == x % 0x1_0000_0000 && OrShifted(0, x, 35) == 8 * x % 0x1_0000_0000
    ensures OrShifted(0, 127, 28) == 0xF000_0000
  {
    assert Pow2(0) == 1 && Pow2(3) == 8;
    Powers();
    assert 127 * 0x1000_0000 % 0x1_0000_0000 == 0xF000_0000;
  }

  /** Nothing to read is a zero of no bytes, a byte that promises another needs it, and ten such bytes are too many. */
  lemma BadVarints(buf: seq<byte>)
    requires forall i | 0 <= i < |buf| :: buf[i] >= 128
    ensures |buf| == 0 ==> ReadFrom(buf, 0, 0, 0, 0, false) == Read(0, 0)
    ensures 1 <= |buf| <= 9 ==> ReadFrom(buf, 0, 0, 0, 0, false) == Truncated
    ensures |buf| >= 10 ==> ReadFrom(buf, 0, 0, 0, 0, false) == Overflow
  {
    hide OrShifted;
    if buf != [] {
      Promising(buf, 0, 0, false);
    }
  }

  lemma {:induction false} Promising(buf: seq<byte>, i: nat, v: nat, more: bool)
    requires forall j | 0 <= j < |buf| :: buf[j] >= 128
    requires i <= |buf| && i <= 9 && (i == |buf| ==> more)
    ensures ReadFrom(buf, 0, i, v, 7 * i, more) == if |buf| >= 10 then Overflow else Truncated
    decreases |buf| - i
  {
    hide OrShifted;
    if i < |buf| && i < 9 {
      Promising(buf, i + 1, OrShifted(v, buf[i] as int % 128, 7 * i), true);
    }
  }

  lemma Double(b: nat, p: nat)
    ensures b * (2 * p) == 2 * (b * p) && b * (2 * p) / 2 == b * p && b * (2 * p) % 2 == 0
    ensures b > 0 && p > 0 ==> b * p > 0
  {
  }

  lemma {:induction false} PowSum(j: nat, k: nat)
    ensures Pow2(j + k) == Pow2(j) * Pow2(k)
  {
    if j > 0 {
      PowSum(j - 1, k);
      assert Pow2(j + k) == 2 * (Pow2(j - 1) * Pow2(k));
    }
  }

  lemma Powers()
    ensures Pow2(7) == 128 && Pow2(14) == 0x4000 && Pow2(21) == 0x20_0000
    ensures Pow2(28) == 0x1000_0000 && Pow2(31) == 0x8000_0000
  {
    assert Pow2(7) == 128;
    PowSum(7, 7);
    PowSum(14, 7);
    PowSum(21, 7);
    PowSum(28, 3);
  }

  /** What `n` counts for once `shift` bits have been read. */
  function Weight(n: nat, shift: nat): nat {
    n * Pow2(shift)
  }

  /** One group of seven bits of a number below 2^31: or-ing it in is adding it. */
  lemma GroupAdds(v: nat, n: nat, shift: nat)
    requires shift % 7 == 0 && shift <= 28 && v < Pow2(shift)
    requires v + Weight(n, shift) < 0x8000_0000
    ensures OrShifted(v, n % 128, shift) == v + Weight(n % 128, shift)
    ensures Weight(n, shift) == Weight(n % 128, shift) + Weight(n / 128, shift + 7)
    ensures v + Weight(n % 128, shift) < Pow2(shift + 7)
  {
    hide OrShifted, Pow2;
    var p := Pow2(shift);
    Seven(shift);
    Split(n / 128, n % 128, p);
    assert n == n / 128 * 128 + n % 128;
    assert n % 128 * p <= n * p;
    OrShiftedAdds(v, n % 128, shift);
  }

  lemma Seven(shift: nat)
    ensures Pow2(shift + 7) == Pow2(shift) * 128
  {
    PowSum(shift, 7);
    Powers();
  }

  lemma OrShiftedAdds(v: nat, x: nat, shift: nat)
    requires shift < 32 && v < Pow2(shift) && x * Pow2(shift) < 0x1_0000_0000
    ensures OrShifted(v, x, shift) == v + x * Pow2(shift)
  {
    hide Or, Pow2;
    assert shift % 32 == shift;
    var y := x * Pow2(shift);
    assert y % 0x1_0000_0000 == y;
    OrAdds(v, x, shift);
  }

  lemma Split(q: nat, r: nat, p: nat)
    requires p > 0 && r < 128
    ensures (q * 128 + r) * p == r * p + q * (p * 128)
    ensures r * p <= 127 * p
  {
  }

  lemma ShiftRoom(n: nat, shift: nat)
    requires n >= 128 && Weight(n, shift) < 0x8000_0000 && shift % 7 == 0 && shift <= 28
    ensures shift <= 21
  {
    Powers();
  }

  lemma Middle(pre: seq<byte>, x: byte, rest: seq<byte>, post: seq<byte>)
    ensures var buf := pre + ([x] + rest) + post;
            |buf| > |pre| && buf[|pre|] == x && buf == (pre + [x]) + rest + post
  {
  }

  /** The groups of a number below 2^31, read after `shift` bits have been gathered. */
  lemma {:induction false} ReadsLeb(pre: seq<byte>, n: nat, post: seq<byte>, offset: nat, v: nat, shift: nat,
                                        more: bool)
    requires offset <= |pre| && shift % 7 == 0 && shift <= 28 && v < Pow2(shift)
    requires v + Weight(n, shift) < 0x8000_0000
    ensures ReadFrom(pre + Leb(n) + post, offset, |pre|, v, shift, more)
         == Read(v + Weight(n, shift), |pre| + |Leb(n)| - offset)
    decreases n
  {
    hide OrShifted, Pow2, ReadFrom, Leb, Weight;
    GroupAdds(v, n, shift);
    LebSteps(n);
    if n < 128 {
      assert n % 128 == n;
      Middle(pre, n, [], post);
      ReadStep(pre + Leb(n) + post, offset, |pre|, v, shift, more);
    } else {
      ShiftRoom(n, shift);
      var x: byte := n % 128 + 128;
      Middle(pre, x, Leb(n / 128), post);
      ReadStep(pre + Leb(n) + post, offset, |pre|, v, shift, more);
      ReadsLeb(pre + [x], n / 128, post, offset, v + Weight(n % 128, shift), shift + 7, true);
    }
  }

  lemma LebSteps(n: nat)
    ensures n < 128 ==> Leb(n) == [n] + []
    ensures n >= 128 ==> Leb(n) == [n % 128 + 128] + Leb(n / 128)
  {
  }

  lemma ReadStep(buf: seq<byte>, offset: nat, i: nat, v: nat, shift: nat, more: bool)
    requires offset <= i < |buf| && shift <= 28
    ensures var v' := OrShifted(v, buf[i] as int % 128, shift);
            ReadFrom(buf, offset, i, v, shift, more) ==
              if buf[i] < 128 then Read(ToInt32(v'), i + 1 - offset)
              else ReadFrom(buf, offset, i + 1, v', shift + 7, true)
  {
  }

  lemma {:induction false} ReadIsInt32(buf: seq<byte>, offset: nat, i: nat, v: nat, shift: nat, more: bool)
    requires offset <= i
    ensures var r := ReadFrom(buf, offset, i, v, shift, more);
            r.Read? ==> -0x8000_0000 <= r.value < 0x8000_0000
    decreases |buf| - i
  {
    hide OrShifted;
    if i < |buf| && buf[i] >= 128 && shift + 7 < 64 {
      ReadIsInt32(buf, offset, i + 1, OrShifted(v, buf[i] as int % 128, shift), shift + 7, true);
    }
  }

  /** The browser reads a length back exactly when it is below 2^31: its arithmetic is 32-bit and signed. */
  lemma LebFaithfulIff(pre: seq<byte>, n: nat, post: seq<byte>)
    ensures ReadFrom(pre + Leb(n) + post, |pre|, |pre|, 0, 0, false) == Read(n, |Leb(n)|) <==> n < 0x8000_0000
  {
    assert Pow2(0) == 1 && Weight(n, 0) == n;
    if n < 0x8000_0000 {
      ReadsLeb(pre, n, post, |pre|, 0, 0, false);
    } else {
      ReadIsInt32(pre + Leb(n) + post, |pre|, |pre|, 0, 0, false);
    }
  }

  // ----- messages -----

  /** What the relay prints: one header, then a data message per chunk of output. */
  datatype Message = Header(session: seq<byte>, client: seq<byte>) | Chunk(data: seq<byte>)

  function Print(m: Message): seq<byte> {
    match m
    case Header(s, c) =>
      [WS_TYPE_TERM_OUTPUT, VERSION, TERMINAL_IO] + Leb(|s|) + s + Leb(|c|) + c + [0]
    case Chunk(data) => [WS_TYPE_TERM_OUTPUT, TERM_FLAG_RAW] + data
  }

  /** JavaScript's `slice`: negative positions count from the end, all are clamped. */
  function Slice(d: seq<byte>, from: int, to: int): seq<byte> {
    var a, b := Clamp(from, |d|), Clamp(to, |d|);
    if a < b then d[a..b] else []
  }

  function Clamp(at: int, len: nat): (k: nat)
    ensures k <= len
  {
    if at < 0 then (if len + at < 0 then 0 else len + at) else Min(at, len)
  }

  /** What the browser makes of the payload of a terminal-output message. */
  datatype Parsed = IsHeader(session: seq<byte>, client: seq<byte>) | IsData(data: seq<byte>) | Dropped | Failed

  /** Before the start of the buffer there is one `undefined` byte to read, and it ends a zero. */
  function ReadAt(d: seq<byte>, offset: int): Read {
    if offset < 0 then Read(0, 1) else ReadFrom(d, offset, offset, 0, 0, false)
  }

  function ParseHeader(d: seq<byte>): Parsed {
    if |d| < 4 then Dropped else
      match ReadFrom(d, 2, 2, 0, 0, false)
      case Overflow => Failed
      case Truncated => Failed
      case Read(len, used) =>
        var at := 2 + used;
        match ReadAt(d, at + len)
        case Overflow => Failed
        case Truncated => Failed
        case Read(len', used') =>
          var at' := at + len + used';
          IsHeader(Slice(d, at, at + len), Slice(d, at', at' + len'))
  }

  /** `lz4` decompresses, or fails. */
  function Parse(payload: seq<byte>, lz4: seq<byte> -> Option<seq<byte>>): Parsed {
    if |payload| >= 2 && payload[0] == VERSION && payload[1] == TERMINAL_IO then ParseHeader(payload)
    else if |payload| < 2 then Dropped
    else if payload[0] == TERM_FLAG_LZ4 then
      match lz4(payload[1..])
      case None => Dropped
      case Some(d) => IsData(d)
    else IsData(payload[1..])
  }

  lemma HeaderReadsBack(s: seq<byte>, c: seq<byte>)
    requires |s| < 0x8000_0000 && |c| < 0x8000_0000
    ensures ParseHeader(Print(Header(s, c))[1..]) == IsHeader(s, c)
  {
    hide Leb, ReadFrom, Slice, Print;
    PrintHeader(s, c);
    var d := Print(Header(s, c))[1..];
    var start: seq<byte> := [VERSION, TERMINAL_IO];
    var front := start + Leb(|s|) + s;
    HeaderShape(start, Leb(|s|), s, Leb(|c|), c);
    LebFaithfulIff(start, |s|, s + (Leb(|c|) + c + [0]));
    LebFaithfulIff(front, |c|, c + [0]);
    SliceInside(d, 2 + |Leb(|s|)|, |front|);
    SliceInside(d, |front| + |Leb(|c|)|, |front| + |Leb(|c|)| + |c|);
  }

  lemma PrintHeader(s: seq<byte>, c: seq<byte>)
    ensures |Print(Header(s, c))| > 1
    ensures Print(Header(s, c))[1..] == [VERSION, TERMINAL_IO] + Leb(|s|) + s + Leb(|c|) + c + [0]
  {
    hide Leb;
    DropFirst(WS_TYPE_TERM_OUTPUT, [VERSION, TERMINAL_IO], Leb(|s|), s, Leb(|c|), c);
    assert [WS_TYPE_TERM_OUTPUT, VERSION, TERMINAL_IO] == [WS_TYPE_TERM_OUTPUT] + [VERSION, TERMINAL_IO];
  }

  lemma DropFirst(x: byte, start: seq<byte>, a: seq<byte>, s: seq<byte>, b: seq<byte>, c: seq<byte>)
    ensures (([x] + start) + a + s + b + c + [0])[1..] == start + a + s + b + c + [0]
  {
  }

  lemma SliceInside(d: seq<byte>, a: nat, b: nat)
    requires a <= b <= |d|
    ensures Slice(d, a, b) == d[a..b]
  {
  }

  lemma HeaderShape(start: seq<byte>, a: seq<byte>, s: seq<byte>, b: seq<byte>, c: seq<byte>)
    ensures var d := start + a + s + b + c + [0];
            && d == start + a + (s + (b + c + [0]))
            && d == (start + a + s) + b + (c + [0])
            && d[|start| + |a|..|start| + |a| + |s|] == s
            && d[|start| + |a| + |s| + |b|..|start| + |a| + |s| + |b| + |c|] == c
  {
  }

  /** The bytes of a message: type 1, then either version 2, type 1 and two counted ids, or flag 0 and the output. */
  lemma PrintedForm(s: seq<byte>, c: seq<byte>, data: seq<byte>)
    ensures Print(Header(s, c)) == [1, 2, 1] + Leb(|s|) + s + Leb(|c|) + c + [0]
    ensures Print(Chunk(data)) == [1, 0] + data
  {
  }

  /** A message with flag 1 is decompressed, one with any other flag but a header's is taken as it is. */
  lemma FlaggedData(flag: byte, data: seq<byte>, lz4: seq<byte> -> Option<seq<byte>>)
    requires data != [] && !(flag == 2 && data[0] == 1)
    ensures Parse([flag] + data, lz4)
         == if flag == 1 then (match lz4(data) case None => Dropped case Some(d) => IsData(d)) else IsData(data)
  {
    assert ([flag] + data)[1..] == data;
  }

  /** Slices with negative positions count from the end; positions outside are clamped. */
  lemma SliceFromEnd(d: seq<byte>, k: int, n: int)
    ensures 0 < k <= |d| ==> Slice(d, -k, |d|) == d[|d| - k..]
    ensures k >= |d| ==> Slice(d, -k, |d|) == d || d == []
    ensures n >= |d| ==> Slice(d, 0, n) == d
    ensures n <= 0 ==> Slice(d, 0, n) == if n == 0 || -n >= |d| then [] else d[..|d| + n]
  {
  }

  /** A header of less than four bytes is dropped; an id that would start before the buffer is read as none. */
  lemma ShortHeader(payload: seq<byte>, lz4: seq<byte> -> Option<seq<byte>>, offset: int)
    requires [2, 1] <= payload
    ensures |payload| < 4 ==> Parse(payload, lz4) == Dropped
    ensures |payload| >= 4 ==> Parse(payload, lz4) == ParseHeader(payload) != Dropped
    ensures ReadAt(payload, offset) == if offset < 0 then Read(0, 1) else ReadFrom(payload, offset, offset, 0, 0, false)
  {
    hide ReadFrom, Slice;
    assert payload[0] == 2 && payload[1] == 1;
  }

  /** A closed connection, and messages of other types, do nothing here. */
  lemma IgnoredMessages(v: View, data: seq<byte>, lz4: seq<byte> -> Option<seq<byte>>)
    requires v.closed || data == [] || data[0] != 1
    ensures Receive(v, data, lz4) == v
  {
  }

  /** The browser's view of each printed message is that message; empty chunks vanish. */
  lemma ParseUndoesPrint(m: Message, lz4: seq<byte> -> Option<seq<byte>>)
    requires m.Header? ==> |m.session| < 0x8000_0000 && |m.client| < 0x8000_0000
    ensures Print(m) != [] && Print(m)[0] == WS_TYPE_TERM_OUTPUT
    ensures Parse(Print(m)[1..], lz4)
         == match m
            case Header(s, c) => IsHeader(s, c)
            case Chunk(data) => if data == [] then Dropped else IsData(data)
  {
    hide Leb, ParseHeader;
    var payload := Print(m)[1..];
    match m {
      case Header(s, c) => HeaderReadsBack(s, c);
      case Chunk(data) => assert payload[1..] == data;
    }
  }

  // ----- a whole connection -----

  /**
    The browser's terminal side. Its one consumer registers the output callback inside the
    call that hands it a header (web/src/components/TerminalView.tsx:218-256), so that a delivered
    header is what turns output on.
   */
  class Browser {
    const lz4: seq<byte> -> Option<seq<byte>>
    var closed: bool
    var handler: bool
    var outputCb: bool
    var headers: seq<(seq<byte>, seq<byte>)>
    var output: seq<seq<byte>>

    constructor (lz4: seq<byte> -> Option<seq<byte>>)
      ensures this.lz4 == lz4 && Value() == Unheard
    {
      this.lz4, closed, handler, outputCb, headers, output := lz4, false, false, false, [], [];
    }

    ghost function Value(): View
      reads this
    {
      View(closed, handler, outputCb, headers, output)
    }

    /** The terminal view installs its stream handler. */
    method OnTerminalIOStream()
      modifies this`handler
      ensures Value() == Listen(old(Value()))
    {
      handler := true;
    }

    /** The connection was lost: output waits for the next header. */
    method ResetTermState()
      modifies this`outputCb
      ensures Value() == Reset(old(Value()))
    {
      outputCb := false;
    }

    method Close()
      modifies this`closed, this`outputCb
      ensures Value() == Reset(old(Value())).(closed := true)
    {
      closed := true;
      ResetTermState();
    }

    /** One binary message; returns false when the header parser throws. */
    method HandleMessage(data: seq<byte>) returns (ok: bool)
      modifies this`headers, this`output, this`outputCb
      ensures Value() == Receive(old(Value()), data, lz4)
      ensures !ok <==> !closed && data != [] && data[0] == WS_TYPE_TERM_OUTPUT && Parse(data[1..], lz4) == Failed
    {
      if closed || |data| < 1 || data[0] != WS_TYPE_TERM_OUTPUT {
        return true;
      }
      var payload := data[1..];
      if |payload| >= 2 && payload[0] == VERSION && payload[1] == TERMINAL_IO {
        var h := ParseHeader(payload);
        if h.IsHeader? && handler {
          headers := headers + [(h.session, h.client)];
          outputCb := true;
        }
        return h != Failed;
      }
      ok := true;
      if !outputCb || |payload| < 1 {
        return;
      }
      var flag := payload[0];
      var body := payload[1..];
      if |body| == 0 {
        return;
      }
      if flag == TERM_FLAG_LZ4 {
        match lz4(body) {
          case None =>
          case Some(d) => output := output + [d];
        }
      } else {
        output := output + [body];
      }
    }
  }

  datatype View = View(
    closed: bool,
    handler: bool,
    outputCb: bool,
    headers: seq<(seq<byte>, seq<byte>)>,
    output: seq<seq<byte>>)

  /** A new connection: nobody listens yet. */
  const Unheard: View := View(false, false, false, [], [])

  function Listen(v: View): View {
    v.(handler := true)
  }

  function Reset(v: View): View {
    v.(outputCb := false)
  }

  function Receive(v: View, data: seq<byte>, lz4: seq<byte> -> Option<seq<byte>>): View {
    if v.closed || data == [] || data[0] != WS_TYPE_TERM_OUTPUT then v else
      match Parse(data[1..], lz4)
      case IsHeader(s, c) => if v.handler then v.(headers := v.headers + [(s, c)], outputCb := true) else v
      case IsData(d) => if v.outputCb then v.(output := v.output + [d]) else v
      case _ => v
  }

  function ReceiveAll(v: View, ms: seq<Message>, lz4: seq<byte> -> Option<seq<byte>>): View
    decreases |ms|
  {
    if ms == [] then v else ReceiveAll(Receive(v, Print(ms[0]), lz4), ms[1..], lz4)
  }

  function HeadersOf(ms: seq<Message>): seq<(seq<byte>, seq<byte>)> {
    if ms == [] then [] else
      (if ms[0].Header? then [(ms[0].session, ms[0].client)] else []) + HeadersOf(ms[1..])
  }

  function ChunksOf(ms: seq<Message>): seq<seq<byte>> {
    if ms == [] then [] else
      (if ms[0].Chunk? && ms[0].data != [] then [ms[0].data] else []) + ChunksOf(ms[1..])
  }

  /** The messages before the first header, and from it on. */
  function UntilHeader(ms: seq<Message>): seq<Message> {
    if ms == [] || ms[0].Header? then [] else [ms[0]] + UntilHeader(ms[1..])
  }

  function FromHeader(ms: seq<Message>): seq<Message> {
    if ms == [] || ms[0].Header? then ms else FromHeader(ms[1..])
  }

  predicate Printable(ms: seq<Message>) {
    forall m | m in ms && m.Header? :: |m.session| < 0x8000_0000 && |m.client| < 0x8000_0000
  }

  /**
    Any messages on an open connection with a handler: the browser is given every header,
    and every non-empty chunk from the first header on, in order, and nothing else. Chunks
    before that header are given too if output is on already.
   */
  lemma {:induction false} RunReadsBack(v: View, ms: seq<Message>, lz4: seq<byte> -> Option<seq<byte>>)
    requires Printable(ms) && !v.closed && v.handler
    ensures var heard := if v.outputCb then ms else FromHeader(ms);
            ReceiveAll(v, ms, lz4)
            == v.(headers := v.headers + HeadersOf(ms),
                  output := v.output + ChunksOf(heard),
                  outputCb := v.outputCb || HeadersOf(ms) != [])
    decreases |ms|
  {
    hide Print, Parse;
    assert v.headers + [] == v.headers && v.output + [] == v.output;
    if ms != [] {
      ParseUndoesPrint(ms[0], lz4);
      var w := Receive(v, Print(ms[0]), lz4);
      var headers := if ms[0].Header? then [(ms[0].session, ms[0].client)] else [];
      var chunks := if v.outputCb && ms[0].Chunk? && ms[0].data != [] then [ms[0].data] else [];
      Assoc(v.headers, headers, HeadersOf(ms[1..]));
      Assoc(v.output, chunks, ChunksOf(ms[1..]));
      assert w == v.(headers := v.headers + headers, output := v.output + chunks,
                     outputCb := v.outputCb || ms[0].Header?);
      RunReadsBack(w, ms[1..], lz4);
      FirstHeard(ms);
    }
  }

  /** After the connection was reset, output waits for the next header; headers are given all along. */
  lemma ResetWaits(v: View, ms: seq<Message>, lz4: seq<byte> -> Option<seq<byte>>)
    requires Printable(ms) && !v.closed && v.handler
    ensures var r := ReceiveAll(Reset(v), ms, lz4);
            r.headers == v.headers + HeadersOf(ms) && r.output == v.output + ChunksOf(FromHeader(ms))
  {
    RunReadsBack(Reset(v), ms, lz4);
  }

  lemma FirstHeard(ms: seq<Message>)
    requires ms != []
    ensures ms[0].Header? ==> FromHeader(ms) == ms && ChunksOf(ms) == ChunksOf(ms[1..]) && HeadersOf(ms) != []
    ensures ms[0].Chunk? ==> FromHeader(ms) == FromHeader(ms[1..]) && HeadersOf(ms) == HeadersOf(ms[1..])
  {
  }

  /** Until the handler is installed nothing at all is given to anyone, headers included. */
  lemma {:induction false} NothingBeforeHandler(v: View, ms: seq<Message>, lz4: seq<byte> -> Option<seq<byte>>)
    requires Printable(ms) && !v.handler && !v.outputCb
    ensures ReceiveAll(v, ms, lz4) == v
    decreases |ms|
  {
    hide Print, Parse;
    if ms != [] {
      ParseUndoesPrint(ms[0], lz4);
      NothingBeforeHandler(v, ms[1..], lz4);
    }
  }

  /** The bytes the agent wrote. */
  function Written(ms: seq<Message>): seq<byte> {
    if ms == [] then [] else (if ms[0].Chunk? then ms[0].data else []) + Written(ms[1..])
  }

  lemma {:induction false} ChunksAddUp(ms: seq<Message>)
    ensures Flatten(ChunksOf(ms)) == Written(ms)
  {
    if ms != [] {
      var chunks := if ms[0].Chunk? && ms[0].data != [] then [ms[0].data] else [];
      FlattenConcat(chunks, ChunksOf(ms[1..]));
      assert Flatten(chunks) == (if ms[0].Chunk? then ms[0].data else []) by {
        if chunks != [] {
          FlattenAppend([], ms[0].data);
          assert [] + chunks == chunks;
        }
      }
      ChunksAddUp(ms[1..]);
    }
  }

  lemma {:induction false} WrittenConcat(a: seq<Message>, b: seq<Message>)
    ensures Written(a + b) == Written(a) + Written(b)
  {
    if a == [] {
      assert a + b == b;
    } else {
      assert (a + b)[1..] == a[1..] + b;
      WrittenConcat(a[1..], b);
      Assoc(if a[0].Chunk? then a[0].data else [], Written(a[1..]), Written(b));
    }
  }

  lemma {:induction false} SplitAtHeader(ms: seq<Message>)
    ensures ms == UntilHeader(ms) + FromHeader(ms)
  {
    if ms != [] && ms[0].Chunk? {
      SplitAtHeader(ms[1..]);
      Assoc([ms[0]], UntilHeader(ms[1..]), FromHeader(ms[1..]));
      assert ms == [ms[0]] + ms[1..];
    }
  }

  /**
    A whole connection from its start, the handler being installed after `early`: the
    terminal gets every byte written exactly when none was written before the handler and
    none between the handler and the next header.
   */
  lemma NothingIsLostIff(early: seq<Message>, late: seq<Message>, lz4: seq<byte> -> Option<seq<byte>>)
    requires Printable(early) && Printable(late)
    ensures var v := ReceiveAll(Listen(ReceiveAll(Unheard, early, lz4)), late, lz4);
            && v.headers == HeadersOf(late)
            && v.output == ChunksOf(FromHeader(late))
            && (Flatten(v.output) == Written(early + late)
                <==> Written(early) == [] && Written(UntilHeader(late)) == [])
  {
    hide ReceiveAll, HeadersOf, ChunksOf, Written, UntilHeader, FromHeader;
    NothingBeforeHandler(Unheard, early, lz4);
    RunReadsBack(Listen(Unheard), late, lz4);
    SplitAtHeader(late);
    WrittenConcat(early, late);
    WrittenConcat(UntilHeader(late), FromHeader(late));
    ChunksAddUp(FromHeader(late));
    var a, b, c := Written(early), Written(UntilHeader(late)), Written(FromHeader(late));
    assert [] + HeadersOf(late) == HeadersOf(late) && [] + ChunksOf(FromHeader(late)) == ChunksOf(FromHeader(late));
    if a == [] && b == [] {
      assert a + (b + c) == c;
    } else {
      assert |a + (b + c)| > |c|;
    }
  }

  /** One relay, as the server runs it, with the handler in place: both ids and all the output. */
  lemma RelayIsDelivered(s: seq<byte>, c: seq<byte>, chunks: seq<Message>, lz4: seq<byte> -> Option<seq<byte>>)
    requires |s| < 0x8000_0000 && |c| < 0x8000_0000 && forall m | m in chunks :: m.Chunk?
    ensures var v := ReceiveAll(Listen(Unheard), [Header(s, c)] + chunks, lz4);
            v.headers == [(s, c)] && Flatten(v.output) == Written(chunks)
  {
    hide ReceiveAll, Written;
    var ms := [Header(s, c)] + chunks;
    RunReadsBack(Listen(Unheard), ms, lz4);
    assert ms[1..] == chunks;
    OnlyChunks(chunks);
    FirstHeard(ms);
    assert HeadersOf(ms) == [(s, c)] + HeadersOf(chunks);
    ChunksAddUp(chunks);
    assert [] + HeadersOf(ms) == HeadersOf(ms) && [] + ChunksOf(ms) == ChunksOf(ms);
  }

  lemma {:induction false} OnlyChunks(ms: seq<Message>)
    requires forall m | m in ms :: m.Chunk?
    ensures HeadersOf(ms) == []
  {
    if ms != [] {
      FirstHeard(ms);
      OnlyChunks(ms[1..]);
    }
  }
}
