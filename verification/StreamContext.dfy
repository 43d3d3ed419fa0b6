/**
  The two-way context exchange: what is put on the wire, what is read back, and how each
  side merges its own settings with its peer's.
 */
module StreamContext {
  import opened Bytes
  import opened Bincode

  const MAX_MESSAGE_SIZE: nat := 16 * 1024 * 1024
  const MAX_TYPE_LEN: nat := 256

  datatype Role = Agent | Client | Server
  datatype DataType = Raw | Chunked

  function Priority(r: Role): nat {
    match r
    case Agent => 2
    case Client => 1
    case Server => 0
  }

  datatype Context = Context(
    id: nat,
    streamType: seq<byte>,
    role: Role,
    sendCompressed: bool,
    recvCompressed: bool,
    sendType: DataType,
    recvType: DataType)

  /** Ids are 64-bit. */
  predicate Representable(c: Context) {
    c.id < U64
  }

  /** `validate`: checked before sending. */
  predicate Valid(c: Context) {
    0 < |c.streamType| <= MAX_TYPE_LEN
  }

  datatype LocalConfig = LocalConfig(
    sendCompressed: bool,
    recvCompressed: bool,
    sendType: DataType,
    recvType: DataType,
    id: nat,
    role: Role)

  function ToAcceptorContext(cfg: LocalConfig, opener: Context): Context {
    Context(cfg.id, opener.streamType, cfg.role, cfg.sendCompressed, cfg.recvCompressed, cfg.sendType, cfg.recvType)
  }

  function EffectiveId(local: Context, peer: Context): nat {
    if local.id == 0 then peer.id
    else if peer.id == 0 then local.id
    else if Priority(local.role) >= Priority(peer.role) then local.id
    else peer.id
  }

  function Merge(local: Context, peer: Context, openerRole: Role): Context {
    Context(EffectiveId(local, peer), local.streamType, openerRole,
            local.sendCompressed, peer.sendCompressed, local.sendType, peer.sendType)
  }

  // ----- the wire form -----

  function RoleTag(r: Role): nat {
    match r
    case Agent => 0
    case Client => 1
    case Server => 2
  }

  function EncodeContext(c: Context): seq<byte>
    requires Representable(c) && |c.streamType| < U64
  {
    Varint(c.id) + (Str(c.streamType) + (Varint(RoleTag(c.role)) + Flags(c)))
  }

  function Flags(c: Context): (b: seq<byte>)
    ensures |b| == 4
  {
    [if c.sendCompressed then 1 else 0, if c.recvCompressed then 1 else 0,
     if c.sendType == Raw then 0 else 1, if c.recvType == Raw then 0 else 1]
  }

  function DecodeContext(d: seq<byte>): Option<Context> {
    match ReadVarint(d)
    case None => None
    case Some(id) =>
      match ReadStr(id.rest)
      case None => None
      case Some(ty) =>
        match ReadVarint(ty.rest)
        case None => None
        case Some(role) =>
          var f := role.rest;
          if role.value > 2 || |f| < 4 || f[0] > 1 || f[1] > 1 || f[2] > 1 || f[3] > 1 then None else
            Some(Context(id.value, ty.value,
                         if role.value == 0 then Agent else if role.value == 1 then Client else Server,
                         f[0] == 1, f[1] == 1,
                         if f[2] == 0 then Raw else Chunked, if f[3] == 0 then Raw else Chunked))
  }

  /** The order on the wire: id, type name, role, then one byte for each of the four settings. */
  lemma ContextLayout(c: Context)
    requires Representable(c) && |c.streamType| < U64
    ensures EncodeContext(c) ==
              Varint(c.id) + (Str(c.streamType)
              + (Varint(if c.role == Agent then 0 else if c.role == Client then 1 else 2)
              + [if c.sendCompressed then 1 else 0, if c.recvCompressed then 1 else 0,
                 if c.sendType == Chunked then 1 else 0, if c.recvType == Chunked then 1 else 0]))
  {
  }

  lemma ContextCodecRoundTrip(c: Context)
    requires Representable(c) && |c.streamType| < U64
    ensures DecodeContext(EncodeContext(c)) == Some(c)
  {
    hide Varint, ReadVarint, Str, ReadStr;
    var tail := Varint(RoleTag(c.role)) + Flags(c);
    VarintRoundTrip(c.id, Str(c.streamType) + tail);
    StrRoundTrip(c.streamType, tail);
    VarintRoundTrip(RoleTag(c.role), Flags(c));
  }

  /** What follows the type name: a role from 0 to 2 and four settings of 0 or 1, or the context is refused. */
  lemma DecodesIff(id: nat, ty: seq<byte>, role: nat, settings: seq<byte>)
    requires id < U64 && |ty| < U64 && role < U64
    ensures DecodeContext(Varint(id) + (Str(ty) + (Varint(role) + settings))).Some? <==>
              && role <= 2 && |settings| >= 4
              && settings[0] <= 1 && settings[1] <= 1 && settings[2] <= 1 && settings[3] <= 1
  {
    hide Varint, ReadVarint, Str, ReadStr;
    VarintRoundTrip(id, Str(ty) + (Varint(role) + settings));
    StrRoundTrip(ty, Varint(role) + settings);
    VarintRoundTrip(role, settings);
  }

  /** [u32 total][u16 length][context]; the length is cast to 16 bits. None is the size error. */
  function SendContext(c: Context): Option<seq<byte>>
    requires Representable(c) && |c.streamType| < U64
  {
    var body := EncodeContext(c);
    if 2 + |body| > MAX_MESSAGE_SIZE then None
    else Some(BE32(2 + |body|) + (BE16(|body| % 0x1_0000) + body))
  }

  function RecvContext(wire: seq<byte>): Option<Parsed<Context>> {
    if |wire| < 4 then None else
      var total := FromBE32(wire[..4]);
      if total > MAX_MESSAGE_SIZE || |wire| < 4 + total || total < 2 then None else
        var buf := wire[4..4 + total];
        var len := FromBE16(buf[..2]);
        if total < 2 + len then None else
          match DecodeContext(buf[2..2 + len])
          case None => None
          case Some(c) => Some(Parsed(c, wire[4 + total..]))
  }

  /** Sending refuses an encoding that with its length exceeds 16 MiB, receiving a total over 16 MiB. */
  lemma SizeLimits(c: Context, wire: seq<byte>)
    requires Representable(c) && |c.streamType| < U64
    ensures SendContext(c).None? <==> 2 + |EncodeContext(c)| > 0x100_0000
    ensures |wire| >= 4 && FromBE32(wire[..4]) > 0x100_0000 ==> RecvContext(wire).None?
    ensures |wire| < 4 ==> RecvContext(wire).None?
  {
    hide EncodeContext, DecodeContext;
  }

  lemma ContextSize(c: Context)
    requires Representable(c) && |c.streamType| < U64
    ensures |EncodeContext(c)| <= |c.streamType| + 31
  {
  }

  /** A context that passes `validate` fits the 16-bit length and comes back whole. */
  lemma ContextRoundTrip(c: Context, rest: seq<byte>)
    requires Representable(c) && |c.streamType| <= MAX_TYPE_LEN
    ensures SendContext(c).Some? && RecvContext(SendContext(c).value + rest) == Some(Parsed(c, rest))
  {
    hide EncodeContext, DecodeContext, RecvContext, BE32, FromBE32;
    ContextSize(c);
    ContextCodecRoundTrip(c);
    var body := EncodeContext(c);
    RecvOfFramed(body, rest, |body|);
    assert body[..|body|] == body;
  }

  /** Reading back a body announced with `len`: only its first `len` bytes are decoded. */
  lemma RecvOfFramed(body: seq<byte>, rest: seq<byte>, len: nat)
    requires len <= |body| && len < 0x1_0000 && 2 + |body| <= MAX_MESSAGE_SIZE
    ensures var wire := BE32(2 + |body|) + (BE16(len) + body) + rest;
            RecvContext(wire) == (match DecodeContext(body[..len])
                                  case None => None
                                  case Some(c) => Some(Parsed(c, rest)))
  {
    hide DecodeContext, BE32, FromBE32;
    var tail := BE16(len) + body;
    Framing(BE32(2 + |body|), tail, rest);
    BE32RoundTrip(2 + |body|);
    assert tail[..2] == BE16(len) && tail[2..2 + len] == body[..len];
  }

  lemma Framing(head: seq<byte>, tail: seq<byte>, rest: seq<byte>)
    ensures var w := head + tail + rest;
            && w[..|head|] == head && w[|head|..|head| + |tail|] == tail && w[|head| + |tail|..] == rest
  {
  }

  /**
    The 16-bit cast is harmless only because `validate` bounds the type name: a context of
    2^16 bytes or more is announced short and never comes back as itself.
   */
  lemma LongContextIsCutShort(c: Context, rest: seq<byte>)
    requires Representable(c) && |c.streamType| < U64
    requires SendContext(c).Some? && |EncodeContext(c)| >= 0x1_0000
    ensures var r := RecvContext(SendContext(c).value + rest); r.None? || r.value.value != c
  {
    hide EncodeContext, DecodeContext, RecvContext, BE32, FromBE32;
    var body := EncodeContext(c);
    var len := |body| % 0x1_0000;
    RecvOfFramed(body, rest, len);
    DecodedSize(body[..len]);
    ContextSize(c);
  }

  /** A context comes back exactly when its encoding fits the 16-bit length. */
  lemma ContextComesBackIff(c: Context, rest: seq<byte>)
    requires Representable(c) && |c.streamType| < U64 && SendContext(c).Some?
    ensures RecvContext(SendContext(c).value + rest) == Some(Parsed(c, rest)) <==> |EncodeContext(c)| < 0x1_0000
  {
    hide EncodeContext, DecodeContext, RecvContext, BE32, FromBE32;
    var body := EncodeContext(c);
    if |body| < 0x1_0000 {
      RecvOfFramed(body, rest, |body|);
      assert body[..|body|] == body;
      ContextCodecRoundTrip(c);
    } else {
      LongContextIsCutShort(c, rest);
    }
  }

  /** A decoded type name is no longer than the bytes it was read from. */
  lemma DecodedSize(d: seq<byte>)
    ensures var r := DecodeContext(d);
            r.Some? ==> |r.value.streamType| <= |d|
  {
  }

  // ----- the exchange -----

  datatype Ends = Ends(opener: Context, acceptor: Context)

  /** `open_on` against `from_raw`: None when either side refuses. */
  function Handshake(c: Context, cfg: LocalConfig): Option<Ends>
    requires Representable(c) && cfg.id < U64 && |c.streamType| < U64
  {
    if !Valid(c) then None else
      match SendContext(c)
      case None => None
      case Some(there) =>
        match RecvContext(there)
        case None => None
        case Some(o) =>
          var a := ToAcceptorContext(cfg, o.value);
          if !Valid(a) || !Representable(a) then None else
            match SendContext(a)
            case None => None
            case Some(back) =>
              match RecvContext(back)
              case None => None
              case Some(p) => Some(Ends(Merge(c, p.value, c.role), Merge(a, o.value, o.value.role)))
  }

  /** Every exchange a valid opener starts succeeds, and the two ends hold mirror images. */
  lemma HandshakeMirrors(c: Context, cfg: LocalConfig)
    requires Representable(c) && cfg.id < U64 && Valid(c)
    ensures var h := Handshake(c, cfg);
            && h.Some?
            && h.value.opener.sendCompressed == h.value.acceptor.recvCompressed == c.sendCompressed
            && h.value.opener.sendType == h.value.acceptor.recvType == c.sendType
            && h.value.acceptor.sendCompressed == h.value.opener.recvCompressed == cfg.sendCompressed
            && h.value.acceptor.sendType == h.value.opener.recvType == cfg.sendType
            && h.value.opener.role == h.value.acceptor.role == c.role
            && h.value.opener.streamType == h.value.acceptor.streamType == c.streamType
  {
    HandshakeIs(c, cfg);
  }

  /** An exchange succeeds exactly when the type name has 1 to 256 bytes. */
  lemma HandshakeIff(c: Context, cfg: LocalConfig)
    requires Representable(c) && cfg.id < U64 && |c.streamType| < U64
    ensures Handshake(c, cfg).Some? <==> 1 <= |c.streamType| <= 256
  {
    hide SendContext, RecvContext;
    if Valid(c) {
      HandshakeIs(c, cfg);
    }
  }

  lemma HandshakeIs(c: Context, cfg: LocalConfig)
    requires Representable(c) && cfg.id < U64 && Valid(c)
    ensures var a := ToAcceptorContext(cfg, c);
            Handshake(c, cfg) == Some(Ends(Merge(c, a, c.role), Merge(a, c, c.role)))
  {
    hide EncodeContext, DecodeContext, SendContext, RecvContext, Merge;
    var a := ToAcceptorContext(cfg, c);
    ContextRoundTrip(c, []);
    ContextRoundTrip(a, []);
    assert SendContext(c).value + [] == SendContext(c).value;
    assert SendContext(a).value + [] == SendContext(a).value;
  }

  /**
    The two ends agree on the stream id exactly when one of them left it 0, they proposed the
    same id, or their roles have different priority: with equal priority each keeps its own.
   */
  lemma IdsAgreeIff(c: Context, cfg: LocalConfig)
    requires Representable(c) && cfg.id < U64 && Valid(c)
    ensures var h := Handshake(c, cfg);
            && h.Some?
            && (h.value.opener.id == h.value.acceptor.id <==>
                  c.id == 0 || cfg.id == 0 || c.id == cfg.id || Priority(c.role) != Priority(cfg.role))
  {
    HandshakeIs(c, cfg);
  }

  /** Which id wins: the only one given, or else that of the agent, then of the client. */
  lemma WinningId(c: Context, cfg: LocalConfig)
    requires Representable(c) && cfg.id < U64 && Valid(c)
    ensures var h := Handshake(c, cfg);
            && h.Some?
            && (cfg.id == 0 ==> h.value.opener.id == h.value.acceptor.id == c.id)
            && (c.id == 0 ==> h.value.opener.id == h.value.acceptor.id == cfg.id)
            && (c.id != 0 && cfg.id != 0 && ((c.role == Agent) != (cfg.role == Agent)) ==>
                  h.value.opener.id == h.value.acceptor.id == if c.role == Agent then c.id else cfg.id)
            && (c.id != 0 && cfg.id != 0 && {c.role, cfg.role} == {Client, Server} ==>
                  h.value.opener.id == h.value.acceptor.id == if c.role == Client then c.id else cfg.id)
  {
    hide Handshake;
    HandshakeIs(c, cfg);
    assert c.role in {c.role, cfg.role} && cfg.role in {c.role, cfg.role};
    assert Client in {Client, Server} && Server in {Client, Server};
  }

  lemma SamePriorityIdsDiverge()
    ensures var c := Context(7, [0x78], Client, false, false, Chunked, Chunked);
            var cfg := LocalConfig(false, false, Chunked, Chunked, 9, Client);
            && Handshake(c, cfg).Some?
            && Handshake(c, cfg).value.opener.id == 7
            && Handshake(c, cfg).value.acceptor.id == 9
  {
    HandshakeIs(Context(7, [0x78], Client, false, false, Chunked, Chunked),
                LocalConfig(false, false, Chunked, Chunked, 9, Client));
  }
}
