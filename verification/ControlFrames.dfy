/**
  The twenty control frames and their wire form. A frame is its tag, a row of simple fields,
  and for two frames a list at the end; a table says which fields each tag has.
 */
module ControlFrames {
  import opened Bytes
  import opened Bincode

  /** A control message the browser's dispatcher accepts is no longer than this. */
  const MAX_CONTROL: nat := 65536

  type Text = seq<byte>

  datatype Info = Info(
    sessionId: Text, shell: Text, startedAt: nat, cols: nat, rows: nat, cwd: Text,
    firstCommand: Option<Text>, terminalProgram: Option<Text>, lastActivityAt: nat,
    hostname: Text, username: Text, title: Text)

  datatype Frame =
    | AuthInit(clientNonce: Text)
    | AuthChallenge(nonce: Text, proof: Text)
    | AuthResponse(response: Text)
    | AuthResult(ok: bool)
    | Ping
    | Pong
    | SessionRegister(session: Info, sshPublicKeys: seq<Text>)
    | SessionUpdate(session: Info)
    | SessionList(sessions: seq<Info>)
    | SessionAttach(sessionId: Text, mode: nat, previousClientId: Option<Text>)
    | AttachAck(sessionId: Text, clientId: Text, mode: nat)
    | AttachReject(sessionId: Text, reason: Text)
    | SessionDetach(sessionId: Text, clientId: Text)
    | SessionClose(sessionId: Text)
    | ClientAttached(sessionId: Text, clientId: Text, mode: nat)
    | ClientActive(sessionId: Text, clientId: Text, cols: nat, rows: nat)
    | ClientResize(sessionId: Text, clientId: Text, cols: nat, rows: nat)
    | DesktopNotification(sessionId: Text, title: Text, body: Text)
    | ClientSetTitle(sessionId: Text, clientId: Text, title: Text)
    | ClientRefresh(sessionId: Text, clientId: Text)

  // ----- fields -----

  datatype Kind = KText | KNum | KMaybe

  datatype Field = FText(t: Text) | FNum(n: nat) | FMaybe(o: Option<Text>)

  function KindOf(f: Field): Kind {
    match f
    case FText(_) => KText
    case FNum(_) => KNum
    case FMaybe(_) => KMaybe
  }

  function Kinds(fs: seq<Field>): seq<Kind> {
    seq(|fs|, i requires 0 <= i < |fs| => KindOf(fs[i]))
  }

  predicate FieldOk(f: Field) {
    match f
    case FText(t) => |t| < SAFE
    case FNum(n) => n < SAFE
    case FMaybe(o) => o.Some? ==> |o.value| < SAFE
  }

  predicate FieldsOk(fs: seq<Field>) {
    forall f | f in fs :: FieldOk(f)
  }

  function WriteField(f: Field): seq<byte>
    requires FieldOk(f)
  {
    match f
    case FText(t) => Str(t)
    case FNum(n) => Varint(n)
    case FMaybe(None) => Varint(0)
    case FMaybe(Some(t)) => Varint(1) + Str(t)
  }

  function ReadField(k: Kind, d: seq<byte>): (r: Option<Parsed<Field>>)
    ensures r.Some? ==> KindOf(r.value.value) == k && |r.value.rest| < |d|
  {
    match k
    case KText => (
      match ReadStr(d)
      case None => None
      case Some(p) => Some(Parsed(FText(p.value), p.rest)))
    case KNum => (
      match ReadVarint(d)
      case None => None
      case Some(p) => Some(Parsed(FNum(p.value), p.rest)))
    case KMaybe =>
      match ReadVarint(d)
      case None => None
      case Some(tag) =>
        if tag.value == 0 then Some(Parsed(FMaybe(None), tag.rest)) else
          match ReadStr(tag.rest)
          case None => None
          case Some(p) => Some(Parsed(FMaybe(Some(p.value)), p.rest))
  }

  lemma FieldRoundTrip(f: Field, rest: seq<byte>)
    requires FieldOk(f)
    ensures ReadField(KindOf(f), WriteField(f) + rest) == Some(Parsed(f, rest))
  {
    hide Varint, ReadVarint, Str, ReadStr;
    match f {
      case FText(t) => StrRoundTrip(t, rest);
      case FNum(n) => VarintRoundTrip(n, rest);
      case FMaybe(None) => VarintRoundTrip(0, rest);
      case FMaybe(Some(t)) =>
        Assoc(Varint(1), Str(t), rest);
        VarintRoundTrip(1, Str(t) + rest);
        StrRoundTrip(t, rest);
    }
  }

  function WriteFields(fs: seq<Field>): seq<byte>
    requires FieldsOk(fs)
  {
    if fs == [] then [] else WriteField(fs[0]) + WriteFields(fs[1..])
  }

  function ReadFields(ks: seq<Kind>, d: seq<byte>): (r: Option<Parsed<seq<Field>>>)
    ensures r.Some? ==> Kinds(r.value.value) == ks && |r.value.rest| <= |d|
    decreases |ks|
  {
    if ks == [] then Some(Parsed([], d)) else
      match ReadField(ks[0], d)
      case None => None
      case Some(f) =>
        match ReadFields(ks[1..], f.rest)
        case None => None
        case Some(fs) => Some(Parsed([f.value] + fs.value, fs.rest))
  }

  lemma {:induction false} FieldsRoundTrip(fs: seq<Field>, rest: seq<byte>)
    requires FieldsOk(fs)
    ensures ReadFields(Kinds(fs), WriteFields(fs) + rest) == Some(Parsed(fs, rest))
    decreases |fs|
  {
    hide ReadField, WriteField;
    if fs == [] {
      assert WriteFields(fs) + rest == rest;
    } else {
      Assoc(WriteField(fs[0]), WriteFields(fs[1..]), rest);
      FieldRoundTrip(fs[0], WriteFields(fs[1..]) + rest);
      FieldsRoundTrip(fs[1..], rest);
      assert Kinds(fs)[1..] == Kinds(fs[1..]);
      assert [fs[0]] + fs[1..] == fs;
    }
  }

  // ----- session infos -----

  const INFO: seq<Kind> := [KText, KText, KNum, KNum, KNum, KText, KMaybe, KMaybe, KNum, KText, KText, KText]

  function InfoFields(s: Info): (fs: seq<Field>)
    ensures Kinds(fs) == INFO
  {
    [FText(s.sessionId), FText(s.shell), FNum(s.startedAt), FNum(s.cols), FNum(s.rows), FText(s.cwd),
     FMaybe(s.firstCommand), FMaybe(s.terminalProgram), FNum(s.lastActivityAt),
     FText(s.hostname), FText(s.username), FText(s.title)]
  }

  function InfoOf(fs: seq<Field>): Info
    requires Kinds(fs) == INFO
  {
    AtKinds(fs, INFO);
    Info(fs[0].t, fs[1].t, fs[2].n, fs[3].n, fs[4].n, fs[5].t, fs[6].o, fs[7].o, fs[8].n, fs[9].t, fs[10].t, fs[11].t)
  }

  lemma AtKinds(fs: seq<Field>, ks: seq<Kind>)
    requires Kinds(fs) == ks
    ensures |fs| == |ks| && forall i | 0 <= i < |fs| :: KindOf(fs[i]) == ks[i]
  {
    assert forall i | 0 <= i < |fs| :: Kinds(fs)[i] == KindOf(fs[i]);
  }

  predicate InfoOk(s: Info) {
    FieldsOk(InfoFields(s))
  }

  predicate InfosOk(ss: seq<Info>) {
    forall i | 0 <= i < |ss| :: InfoOk(ss[i])
  }

  // ----- lists -----

  datatype TailKind = KNone | KTexts | KInfos

  datatype Tail = NoTail | Texts(texts: seq<Text>) | Infos(infos: seq<Info>)

  function TailKindOf(t: Tail): TailKind {
    match t
    case NoTail => KNone
    case Texts(_) => KTexts
    case Infos(_) => KInfos
  }

  predicate TailOk(t: Tail) {
    match t
    case NoTail => true
    case Texts(ts) => |ts| < SAFE && forall x | x in ts :: |x| < SAFE
    case Infos(ss) => |ss| < SAFE && InfosOk(ss)
  }

  function WriteTexts(ts: seq<Text>): seq<byte>
    requires forall x | x in ts :: |x| < SAFE
  {
    if ts == [] then [] else Str(ts[0]) + WriteTexts(ts[1..])
  }

  function ReadTexts(n: nat, d: seq<byte>): Option<Parsed<seq<Text>>>
    decreases n
  {
    if n == 0 then Some(Parsed([], d)) else
      match ReadStr(d)
      case None => None
      case Some(x) =>
        match ReadTexts(n - 1, x.rest)
        case None => None
        case Some(xs) => Some(Parsed([x.value] + xs.value, xs.rest))
  }

  function WriteInfos(ss: seq<Info>): seq<byte>
    requires InfosOk(ss)
  {
    if ss == [] then [] else WriteFields(InfoFields(ss[0])) + WriteInfos(ss[1..])
  }

  function ReadInfos(n: nat, d: seq<byte>): Option<Parsed<seq<Info>>>
    decreases n
  {
    if n == 0 then Some(Parsed([], d)) else
      match ReadFields(INFO, d)
      case None => None
      case Some(x) =>
        match ReadInfos(n - 1, x.rest)
        case None => None
        case Some(xs) => Some(Parsed([InfoOf(x.value)] + xs.value, xs.rest))
  }

  lemma {:induction false} TextsRoundTrip(ts: seq<Text>, rest: seq<byte>)
    requires forall x | x in ts :: |x| < SAFE
    ensures ReadTexts(|ts|, WriteTexts(ts) + rest) == Some(Parsed(ts, rest))
  {
    hide Str, ReadStr;
    if ts == [] {
      assert WriteTexts(ts) + rest == rest;
    } else {
      Assoc(Str(ts[0]), WriteTexts(ts[1..]), rest);
      StrRoundTrip(ts[0], WriteTexts(ts[1..]) + rest);
      TextsRoundTrip(ts[1..], rest);
      assert [ts[0]] + ts[1..] == ts;
    }
  }

  lemma {:induction false} InfosRoundTrip(ss: seq<Info>, rest: seq<byte>)
    requires InfosOk(ss)
    ensures ReadInfos(|ss|, WriteInfos(ss) + rest) == Some(Parsed(ss, rest))
  {
    hide WriteFields, ReadFields, InfoFields, InfoOf;
    if ss == [] {
      assert WriteInfos(ss) + rest == rest;
    } else {
      var fs := InfoFields(ss[0]);
      Assoc(WriteFields(fs), WriteInfos(ss[1..]), rest);
      FieldsRoundTrip(fs, WriteInfos(ss[1..]) + rest);
      InfosRoundTrip(ss[1..], rest);
      InfoOfFields(ss[0]);
      assert [ss[0]] + ss[1..] == ss;
    }
  }

  lemma InfoOfFields(s: Info)
    ensures InfoOf(InfoFields(s)) == s
  {
  }

  function WriteTail(t: Tail): seq<byte>
    requires TailOk(t)
  {
    match t
    case NoTail => []
    case Texts(ts) => Varint(|ts|) + WriteTexts(ts)
    case Infos(ss) => Varint(|ss|) + WriteInfos(ss)
  }

  function ReadTail(k: TailKind, d: seq<byte>): (r: Option<Parsed<Tail>>)
    ensures r.Some? ==> TailKindOf(r.value.value) == k
  {
    match k
    case KNone => Some(Parsed(NoTail, d))
    case KTexts => (
      match ReadVarint(d)
      case None => None
      case Some(n) =>
        match ReadTexts(n.value, n.rest)
        case None => None
        case Some(ts) => Some(Parsed(Texts(ts.value), ts.rest)))
    case KInfos =>
      match ReadVarint(d)
      case None => None
      case Some(n) =>
        match ReadInfos(n.value, n.rest)
        case None => None
        case Some(ss) => Some(Parsed(Infos(ss.value), ss.rest))
  }

  lemma TailRoundTrip(t: Tail, rest: seq<byte>)
    requires TailOk(t)
    ensures ReadTail(TailKindOf(t), WriteTail(t) + rest) == Some(Parsed(t, rest))
  {
    hide Varint, ReadVarint, ReadTexts, ReadInfos, WriteTexts, WriteInfos;
    match t {
      case NoTail => assert WriteTail(t) + rest == rest;
      case Texts(ts) =>
        Assoc(Varint(|ts|), WriteTexts(ts), rest);
        VarintRoundTrip(|ts|, WriteTexts(ts) + rest);
        TextsRoundTrip(ts, rest);
      case Infos(ss) =>
        Assoc(Varint(|ss|), WriteInfos(ss), rest);
        VarintRoundTrip(|ss|, WriteInfos(ss) + rest);
        InfosRoundTrip(ss, rest);
    }
  }

  // ----- frames -----

  datatype Parts = Parts(tag: nat, fields: seq<Field>, tail: Tail)

  /** The order in which `encodeFrame` writes. */
  function Take(f: Frame): Parts {
    match f
    case AuthInit(n) => Parts(0, [FText(n)], NoTail)
    case AuthChallenge(n, p) => Parts(1, [FText(n), FText(p)], NoTail)
    case AuthResponse(r) => Parts(2, [FText(r)], NoTail)
    case AuthResult(ok) => Parts(3, [FNum(if ok then 1 else 0)], NoTail)
    case Ping => Parts(4, [], NoTail)
    case Pong => Parts(5, [], NoTail)
    case SessionRegister(s, keys) => Parts(6, InfoFields(s), Texts(keys))
    case SessionUpdate(s) => Parts(7, InfoFields(s), NoTail)
    case SessionList(ss) => Parts(8, [], Infos(ss))
    case SessionAttach(s, m, p) => Parts(9, [FText(s), FNum(m), FMaybe(p)], NoTail)
    case AttachAck(s, c, m) => Parts(10, [FText(s), FText(c), FNum(m)], NoTail)
    case AttachReject(s, r) => Parts(11, [FText(s), FText(r)], NoTail)
    case SessionDetach(s, c) => Parts(12, [FText(s), FText(c)], NoTail)
    case SessionClose(s) => Parts(13, [FText(s)], NoTail)
    case ClientAttached(s, c, m) => Parts(14, [FText(s), FText(c), FNum(m)], NoTail)
    case ClientActive(s, c, w, h) => Parts(15, [FText(s), FText(c), FNum(w), FNum(h)], NoTail)
    case ClientResize(s, c, w, h) => Parts(16, [FText(s), FText(c), FNum(w), FNum(h)], NoTail)
    case DesktopNotification(s, t, b) => Parts(17, [FText(s), FText(t), FText(b)], NoTail)
    case ClientSetTitle(s, c, t) => Parts(18, [FText(s), FText(c), FText(t)], NoTail)
    case ClientRefresh(s, c) => Parts(19, [FText(s), FText(c)], NoTail)
  }

  datatype Layout = Layout(kinds: seq<Kind>, tail: TailKind)

  /** The fields `decodeFrame` reads for each tag; None is an unknown tag. */
  function LayoutOf(tag: nat): Option<Layout> {
    match tag
    case 0 => Some(Layout([KText], KNone))
    case 1 => Some(Layout([KText, KText], KNone))
    case 2 => Some(Layout([KText], KNone))
    case 3 => Some(Layout([KNum], KNone))
    case 4 => Some(Layout([], KNone))
    case 5 => Some(Layout([], KNone))
    case 6 => Some(Layout(INFO, KTexts))
    case 7 => Some(Layout(INFO, KNone))
    case 8 => Some(Layout([], KInfos))
    case 9 => Some(Layout([KText, KNum, KMaybe], KNone))
    case 10 => Some(Layout([KText, KText, KNum], KNone))
    case 11 => Some(Layout([KText, KText], KNone))
    case 12 => Some(Layout([KText, KText], KNone))
    case 13 => Some(Layout([KText], KNone))
    case 14 => Some(Layout([KText, KText, KNum], KNone))
    case 15 => Some(Layout([KText, KText, KNum, KNum], KNone))
    case 16 => Some(Layout([KText, KText, KNum, KNum], KNone))
    case 17 => Some(Layout([KText, KText, KText], KNone))
    case 18 => Some(Layout([KText, KText, KText], KNone))
    case 19 => Some(Layout([KText, KText], KNone))
    case _ => None
  }

  predicate Fits(p: Parts) {
    LayoutOf(p.tag) == Some(Layout(Kinds(p.fields), TailKindOf(p.tail)))
  }

  /** The order in which `decodeFrame` reads, given the fields of the tag's layout. */
  function Build(p: Parts): Frame
    requires Fits(p)
  {
    AtKinds(p.fields, LayoutOf(p.tag).value.kinds);
    var fs := p.fields;
    match p.tag
    case 0 => AuthInit(fs[0].t)
    case 1 => AuthChallenge(fs[0].t, fs[1].t)
    case 2 => AuthResponse(fs[0].t)
    case 3 => AuthResult(fs[0].n != 0)
    case 4 => Ping
    case 5 => Pong
    case 6 => SessionRegister(InfoOf(fs), p.tail.texts)
    case 7 => SessionUpdate(InfoOf(fs))
    case 8 => SessionList(p.tail.infos)
    case 9 => SessionAttach(fs[0].t, fs[1].n, fs[2].o)
    case 10 => AttachAck(fs[0].t, fs[1].t, fs[2].n)
    case 11 => AttachReject(fs[0].t, fs[1].t)
    case 12 => SessionDetach(fs[0].t, fs[1].t)
    case 13 => SessionClose(fs[0].t)
    case 14 => ClientAttached(fs[0].t, fs[1].t, fs[2].n)
    case 15 => ClientActive(fs[0].t, fs[1].t, fs[2].n, fs[3].n)
    case 16 => ClientResize(fs[0].t, fs[1].t, fs[2].n, fs[3].n)
    case 17 => DesktopNotification(fs[0].t, fs[1].t, fs[2].t)
    case 18 => ClientSetTitle(fs[0].t, fs[1].t, fs[2].t)
    case _ => ClientRefresh(fs[0].t, fs[1].t)
  }

  predicate FrameOk(f: Frame) {
    FieldsOk(Take(f).fields) && TailOk(Take(f).tail)
  }

  function EncodeFrame(f: Frame): seq<byte>
    requires FrameOk(f)
  {
    var p := Take(f);
    TagIsSmall(f);
    Varint(p.tag) + (WriteFields(p.fields) + WriteTail(p.tail))
  }

  function DecodeFrame(d: seq<byte>): Option<Parsed<Frame>> {
    match ReadVarint(d)
    case None => None
    case Some(tag) =>
      match LayoutOf(tag.value)
      case None => None
      case Some(l) =>
        match ReadFields(l.kinds, tag.rest)
        case None => None
        case Some(fs) =>
          match ReadTail(l.tail, fs.rest)
          case None => None
          case Some(t) => Some(Parsed(Build(Parts(tag.value, fs.value, t.value)), t.rest))
  }

  lemma TagIsSmall(f: Frame)
    ensures Take(f).tag < 20
  {
  }

  lemma TakeFits(f: Frame)
    ensures Fits(Take(f))
  {
    var p := Take(f);
    assert Kinds(p.fields) == LayoutOf(p.tag).value.kinds;
  }

  /** What is read in the decoder's order is what was written in the encoder's. */
  lemma BuildOfTake(f: Frame)
    ensures Fits(Take(f)) && Build(Take(f)) == f
  {
    TakeFits(f);
    if f.SessionRegister? || f.SessionUpdate? {
      InfoOfFields(f.session);
    }
  }

  /** Every frame comes back from its encoding, whatever bytes follow. */
  lemma DecodeUndoesEncode(f: Frame, rest: seq<byte>)
    requires FrameOk(f)
    ensures DecodeFrame(EncodeFrame(f) + rest) == Some(Parsed(f, rest))
  {
    hide Varint, ReadVarint, WriteFields, ReadFields, WriteTail, ReadTail, Take, Build, LayoutOf;
    var p := Take(f);
    BuildOfTake(f);
    TagIsSmall(f);
    var a, b, c := Varint(p.tag), WriteFields(p.fields), WriteTail(p.tail);
    Regroup(a, b, c, rest);
    VarintRoundTrip(p.tag, b + (c + rest));
    FieldsRoundTrip(p.fields, c + rest);
    TailRoundTrip(p.tail, rest);
  }

  lemma Regroup(a: seq<byte>, b: seq<byte>, c: seq<byte>, d: seq<byte>)
    ensures a + (b + c) + d == a + (b + (c + d))
  {
  }

  /** No encoding is the beginning of another frame's, so in particular no two are equal. */
  lemma EncodingIsPrefixFree(f: Frame, g: Frame)
    requires FrameOk(f) && FrameOk(g) && EncodeFrame(f) <= EncodeFrame(g)
    ensures f == g
  {
    hide EncodeFrame, DecodeFrame;
    var e, d := EncodeFrame(f), EncodeFrame(g);
    DecodeUndoesEncode(f, d[|e|..]);
    DecodeUndoesEncode(g, []);
    assert e + d[|e|..] == d && d + [] == d;
  }

  // ----- the encoder, branch by branch -----

  predicate Fitting(t: Text) {
    |t| < SAFE
  }

  function PrintMaybe(o: Option<Text>): seq<byte>
    requires o.Some? ==> Fitting(o.value)
  {
    match o
    case None => Varint(0)
    case Some(t) => Varint(1) + Str(t)
  }

  function PrintInfo(s: Info): seq<byte>
    requires InfoOk(s)
  {
    InfoParts(s);
    Str(s.sessionId) + (Str(s.shell) + (Varint(s.startedAt) + (Varint(s.cols) + (Varint(s.rows) + (Str(s.cwd)
      + PrintInfoEnd(s))))))
  }

  lemma InfoParts(s: Info)
    requires InfoOk(s)
    ensures FieldOk(FText(s.sessionId)) && FieldOk(FText(s.shell)) && FieldOk(FNum(s.startedAt))
    ensures FieldOk(FNum(s.cols)) && FieldOk(FNum(s.rows)) && FieldOk(FText(s.cwd))
    ensures FieldOk(FMaybe(s.firstCommand)) && FieldOk(FMaybe(s.terminalProgram)) && FieldOk(FNum(s.lastActivityAt))
    ensures FieldOk(FText(s.hostname)) && FieldOk(FText(s.username)) && FieldOk(FText(s.title))
  {
    var fs := InfoFields(s);
    assert fs[0] in fs && fs[1] in fs && fs[2] in fs && fs[3] in fs && fs[4] in fs && fs[5] in fs;
    assert fs[6] in fs && fs[7] in fs && fs[8] in fs && fs[9] in fs && fs[10] in fs && fs[11] in fs;
  }

  lemma FieldsOf1(a: Field)
    requires FieldOk(a)
    ensures WriteFields([a]) == WriteField(a)
  {
    assert WriteFields([a]) == WriteField(a) + WriteFields([]);
  }

  lemma FieldsCons(a: Field, fs: seq<Field>)
    requires FieldOk(a) && FieldsOk(fs)
    ensures FieldsOk([a] + fs) && WriteFields([a] + fs) == WriteField(a) + WriteFields(fs)
  {
    assert ([a] + fs)[1..] == fs;
  }

  function PrintInfoEnd(s: Info): seq<byte>
    requires InfoOk(s)
  {
    InfoParts(s);
    PrintMaybe(s.firstCommand) + (PrintMaybe(s.terminalProgram) + (Varint(s.lastActivityAt)
      + (Str(s.hostname) + (Str(s.username) + Str(s.title)))))
  }

  function InfoEnd(s: Info): seq<Field> {
    [FMaybe(s.firstCommand), FMaybe(s.terminalProgram), FNum(s.lastActivityAt),
     FText(s.hostname), FText(s.username), FText(s.title)]
  }

  lemma InfoEndOnWire(s: Info)
    requires InfoOk(s)
    ensures FieldsOk(InfoEnd(s)) && WriteFields(InfoEnd(s)) == PrintInfoEnd(s)
  {
    hide Varint, Str;
    InfoParts(s);
    FieldsOf1(FText(s.title));
    var f10 := [FText(s.username)] + [FText(s.title)];
    FieldsCons(FText(s.username), [FText(s.title)]);
    var f9 := [FText(s.hostname)] + f10;
    FieldsCons(FText(s.hostname), f10);
    var f8 := [FNum(s.lastActivityAt)] + f9;
    FieldsCons(FNum(s.lastActivityAt), f9);
    var f7 := [FMaybe(s.terminalProgram)] + f8;
    FieldsCons(FMaybe(s.terminalProgram), f8);
    FieldsCons(FMaybe(s.firstCommand), f7);
    assert InfoEnd(s) == [FMaybe(s.firstCommand)] + f7;
  }

  /** A session's fields go on the wire in the order of `writeSessionInfo`. */
  lemma InfoOnWire(s: Info)
    requires InfoOk(s)
    ensures WriteFields(InfoFields(s)) == PrintInfo(s)
  {
    hide Varint, Str, PrintInfoEnd, WriteFields, FieldOk;
    InfoParts(s);
    InfoEndOnWire(s);
    var f6 := InfoEnd(s);
    var f5 := [FText(s.cwd)] + f6;
    FieldsCons(FText(s.cwd), f6);
    var f4 := [FNum(s.rows)] + f5;
    FieldsCons(FNum(s.rows), f5);
    var f3 := [FNum(s.cols)] + f4;
    FieldsCons(FNum(s.cols), f4);
    var f2 := [FNum(s.startedAt)] + f3;
    FieldsCons(FNum(s.startedAt), f3);
    var f1 := [FText(s.shell)] + f2;
    FieldsCons(FText(s.shell), f2);
    FieldsCons(FText(s.sessionId), f1);
    assert InfoFields(s) == [FText(s.sessionId)] + f1;
  }

  lemma FieldsOf(fs: seq<Field>)
    requires FieldsOk(fs) && |fs| <= 4
    ensures forall i | 0 <= i < |fs| :: FieldOk(fs[i])
    ensures WriteFields(fs) == if |fs| == 0 then [] else if |fs| == 1 then WriteField(fs[0])
      else if |fs| == 2 then WriteField(fs[0]) + WriteField(fs[1])
      else if |fs| == 3 then WriteField(fs[0]) + (WriteField(fs[1]) + WriteField(fs[2]))
      else WriteField(fs[0]) + (WriteField(fs[1]) + (WriteField(fs[2]) + WriteField(fs[3])))
  {
    hide WriteField, FieldOk;
    if |fs| > 0 {
      assert fs == [fs[0]] + fs[1..];
      if |fs| == 1 {
        FieldsOf1(fs[0]);
      } else {
        FieldsOf(fs[1..]);
        FieldsCons(fs[0], fs[1..]);
      }
    }
  }

  function PrintFrame(f: Frame): seq<byte>
    requires FrameOk(f)
  {
    FieldsFit(f);
    match f
    case AuthInit(n) => Varint(0) + Str(n)
    case AuthChallenge(n, p) => Varint(1) + (Str(n) + Str(p))
    case AuthResponse(r) => Varint(2) + Str(r)
    case AuthResult(ok) => Varint(3) + Varint(if ok then 1 else 0)
    case Ping => Varint(4)
    case Pong => Varint(5)
    case SessionRegister(s, keys) => Varint(6) + (PrintInfo(s) + (Varint(|keys|) + WriteTexts(keys)))
    case SessionUpdate(s) => Varint(7) + PrintInfo(s)
    case SessionList(ss) => Varint(8) + (Varint(|ss|) + PrintInfos(ss))
    case SessionAttach(s, m, p) => Varint(9) + (Str(s) + (Varint(m) + PrintMaybe(p)))
    case AttachAck(s, c, m) => Varint(10) + (Str(s) + (Str(c) + Varint(m)))
    case AttachReject(s, r) => Varint(11) + (Str(s) + Str(r))
    case SessionDetach(s, c) => Varint(12) + (Str(s) + Str(c))
    case SessionClose(s) => Varint(13) + Str(s)
    case ClientAttached(s, c, m) => Varint(14) + (Str(s) + (Str(c) + Varint(m)))
    case ClientActive(s, c, w, h) => Varint(15) + (Str(s) + (Str(c) + (Varint(w) + Varint(h))))
    case ClientResize(s, c, w, h) => Varint(16) + (Str(s) + (Str(c) + (Varint(w) + Varint(h))))
    case DesktopNotification(s, t, b) => Varint(17) + (Str(s) + (Str(t) + Str(b)))
    case ClientSetTitle(s, c, t) => Varint(18) + (Str(s) + (Str(c) + Str(t)))
    case ClientRefresh(s, c) => Varint(19) + (Str(s) + Str(c))
  }

  function PrintInfos(ss: seq<Info>): seq<byte>
    requires InfosOk(ss)
  {
    if ss == [] then [] else PrintInfo(ss[0]) + PrintInfos(ss[1..])
  }

  lemma FieldsFit(f: Frame)
    requires FrameOk(f)
    ensures var fs := Take(f).fields;
            && (|fs| > 0 ==> FieldOk(fs[0])) && (|fs| > 1 ==> FieldOk(fs[1]))
            && (|fs| > 2 ==> FieldOk(fs[2])) && (|fs| > 3 ==> FieldOk(fs[3]))
  {
  }

  lemma {:induction false} InfosOnWire(ss: seq<Info>)
    requires InfosOk(ss)
    ensures WriteInfos(ss) == PrintInfos(ss)
  {
    hide WriteFields, PrintInfo;
    if ss != [] {
      InfoOnWire(ss[0]);
      InfosOnWire(ss[1..]);
    }
  }

  /** The table-driven encoding is, frame by frame, what the branches of `encodeFrame` write. */
  lemma FrameOnWire(f: Frame)
    requires FrameOk(f)
    ensures EncodeFrame(f) == PrintFrame(f)
  {
    hide Varint, Str, WriteFields, WriteTexts, PrintInfo, InfoFields, WriteInfos, PrintInfos;
    var p := Take(f);
    FieldsFit(f);
    NothingAfter(WriteFields(p.fields));
    NothingBefore(WriteTail(p.tail));
    match f {
      case SessionRegister(s, _) => InfoOnWire(s);
      case SessionUpdate(s) => InfoOnWire(s);
      case SessionList(ss) => InfosOnWire(ss); FieldsOf([]);
      case _ => FieldsOf(p.fields);
    }
  }

  lemma NothingAfter(a: seq<byte>)
    ensures a + [] == a
  {
  }

  lemma NothingBefore(a: seq<byte>)
    ensures [] + a == a
  {
  }

  /** The reader takes any number but 0 for true and for "present", and knows no tag from 20 on. */
  lemma ReaderIsLenient(n: nat, t: Text, rest: seq<byte>)
    requires 0 < n < SAFE && |t| < SAFE
    ensures DecodeFrame(Varint(3) + (Varint(n) + rest)) == Some(Parsed(AuthResult(true), rest))
    ensures DecodeFrame(Varint(3) + (Varint(0) + rest)) == Some(Parsed(AuthResult(false), rest))
    ensures ReadField(KMaybe, Varint(n) + (Str(t) + rest)) == Some(Parsed(FMaybe(Some(t)), rest))
    ensures n >= 20 ==> DecodeFrame(Varint(n) + rest) == None
  {
    hide Varint, ReadVarint, Str, ReadStr;
    VarintRoundTrip(3, Varint(n) + rest);
    VarintRoundTrip(3, Varint(0) + rest);
    VarintRoundTrip(n, rest);
    VarintRoundTrip(0, rest);
    VarintRoundTrip(n, Str(t) + rest);
    StrRoundTrip(t, rest);
    OneNumber(Varint(n) + rest);
    OneNumber(Varint(0) + rest);
  }

  lemma OneNumber(d: seq<byte>)
    ensures ReadFields([KNum], d)
         == (match ReadVarint(d)
             case None => None
             case Some(p) => Some(Parsed([FNum(p.value)], p.rest)))
  {
    hide ReadVarint;
    assert [KNum][1..] == [];
    var p := ReadVarint(d);
    if p.Some? {
      assert [FNum(p.value.value)] + [] == [FNum(p.value.value)];
    }
  }

  // ----- control messages -----

  /** [u32 length][frame]; the length must fit 32 bits. */
  function EncodeWireFrame(f: Frame): seq<byte>
    requires FrameOk(f) && |EncodeFrame(f)| < 0x1_0000_0000
  {
    BE32(|EncodeFrame(f)|) + EncodeFrame(f)
  }

  /** The frame a control message hands to the application, None when it is dropped. */
  function HandleControlMessage(payload: seq<byte>): Option<Frame> {
    if |payload| < 4 then None else
      var len := FromBE32(payload[..4]);
      if len > MAX_CONTROL || |payload| < 4 + len then None else
        match DecodeFrame(payload[4..4 + len])
        case None => None
        case Some(p) => Some(p.value)
  }

  /** A control message is delivered as the frame it encodes exactly when that takes at most 64 KiB. */
  lemma DeliveredIff(f: Frame)
    requires FrameOk(f) && |EncodeFrame(f)| < 0x1_0000_0000
    ensures HandleControlMessage(EncodeWireFrame(f)) == Some(f) <==> |EncodeFrame(f)| <= 65536
  {
    hide EncodeFrame, DecodeFrame, BE32, FromBE32;
    var e, w := EncodeFrame(f), EncodeWireFrame(f);
    BE32RoundTrip(|e|);
    assert w[..4] == BE32(|e|) && w[4..4 + |e|] == e;
    DecodeUndoesEncode(f, []);
    assert e + [] == e;
  }

  /** A nonce of 64 KiB makes a frame that is sent and dropped. */
  lemma LongNonceIsDropped()
    ensures var f := AuthInit(seq(65536, _ => 0));
            && FrameOk(f) && |EncodeFrame(f)| < 0x1_0000_0000
            && HandleControlMessage(EncodeWireFrame(f)) != Some(f)
  {
    hide HandleControlMessage, EncodeWireFrame;
    var f := AuthInit(seq(65536, _ => 0));
    FrameOnWire(f);
    assert |EncodeFrame(f)| == |Varint(0)| + |Varint(65536)| + 65536;
    DeliveredIff(f);
  }
}
