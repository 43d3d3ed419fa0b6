/**
  Finding the server's ufrag in a STUN message: the part before the first colon of the first
  USERNAME attribute (sections 15 and 15.3 of RFC 5389) that is valid UTF-8.
 */
module StunUsername {
  import opened Bytes

  const MAGIC: nat := 0x2112_A442
  const USERNAME: nat := 6

  /** Whether bytes are valid UTF-8 is left to a parameter. */
  type Utf8 = seq<byte> -> bool

  function BeforeColon(s: seq<byte>): (r: seq<byte>)
    ensures r <= s && 0x3A !in r && (|r| < |s| ==> s[|r|] == 0x3A)
  {
    if s == [] || s[0] == 0x3A then [] else
      var r := [s[0]] + BeforeColon(s[1..]);
      assert s == [s[0]] + s[1..];
      r
  }

  function Padded(n: nat): nat {
    (n + 3) / 4 * 4
  }

  /** The walk over attributes from `offset`; `end` is where the message says it ends. */
  function Walk(packet: seq<byte>, offset: nat, end: nat, utf8: Utf8): Option<seq<byte>>
    requires end <= |packet|
    decreases end - offset
  {
    if offset + 4 > end then None else
      var kind := FromBE16(packet[offset..offset + 2]);
      var len := FromBE16(packet[offset + 2..offset + 4]);
      var start := offset + 4;
      if start + len > |packet| then None
      else if kind == USERNAME && utf8(packet[start..start + len]) then Some(BeforeColon(packet[start..start + len]))
      else Walk(packet, start + Padded(len), end, utf8)
  }

  function Extract(packet: seq<byte>, utf8: Utf8): Option<seq<byte>> {
    if |packet| < 20 then None
    else if FromBE16(packet[0..2]) >= 0x4000 then None
    else if FromBE32(packet[4..8]) != MAGIC then None
    else
      var len := FromBE16(packet[2..4]);
      if |packet| < 20 + len then None else Walk(packet, 20, 20 + len, utf8)
  }

  method ExtractStunUfrag(packet: seq<byte>, utf8: Utf8) returns (r: Option<seq<byte>>)
    ensures r == Extract(packet, utf8)
  {
    hide FromBE16, FromBE32, Padded, BeforeColon;
    if |packet| < 20 {
      return None;
    }
    if FromBE16(packet[0..2]) >= 0x4000 {
      return None;
    }
    if FromBE32(packet[4..8]) != MAGIC {
      return None;
    }
    var len := FromBE16(packet[2..4]);
    if |packet| < 20 + len {
      return None;
    }
    var offset := 20;
    while offset + 4 <= 20 + len
      invariant offset >= 20
      invariant Walk(packet, offset, 20 + len, utf8) == Walk(packet, 20, 20 + len, utf8)
      decreases 20 + len - offset
    {
      var kind := FromBE16(packet[offset..offset + 2]);
      var n := FromBE16(packet[offset + 2..offset + 4]);
      var start := offset + 4;
      if start + n > |packet| {
        break;
      }
      if kind == USERNAME {
        var name := packet[start..start + n];
        if utf8(name) {
          return Some(BeforeColon(name));
        }
      }
      offset := start + Padded(n);
    }
    return None;
  }

  // ----- messages as they are laid out -----

  /** A type, a value, and the bytes that pad the value to a multiple of four. */
  datatype Attribute = Attribute(kind: nat, value: seq<byte>, padding: seq<byte>)

  predicate WellFormed(a: Attribute) {
    a.kind < 0x1_0000 && |a.value| < 0x1_0000 && |a.value| + |a.padding| == Padded(|a.value|)
  }

  predicate AllWellFormed(attrs: seq<Attribute>) {
    forall a | a in attrs :: WellFormed(a)
  }

  function Layout(a: Attribute): (b: seq<byte>)
    requires WellFormed(a)
    ensures |b| == 4 + Padded(|a.value|)
  {
    BE16(a.kind) + BE16(|a.value|) + a.value + a.padding
  }

  function LayoutAll(attrs: seq<Attribute>): seq<byte>
    requires AllWellFormed(attrs)
  {
    if attrs == [] then [] else Layout(attrs[0]) + LayoutAll(attrs[1..])
  }

  /** What the message means: its first readable USERNAME. */
  function FirstUsername(attrs: seq<Attribute>, utf8: Utf8): Option<seq<byte>> {
    if attrs == [] then None
    else if attrs[0].kind == 6 && utf8(attrs[0].value) then Some(BeforeColon(attrs[0].value))
    else FirstUsername(attrs[1..], utf8)
  }

  lemma At(before: seq<byte>, a: Attribute, after: seq<byte>)
    requires WellFormed(a)
    ensures var p, at := before + Layout(a) + after, |before|;
            && |p| >= at + 4 + |a.value|
            && FromBE16(p[at..at + 2]) == a.kind
            && FromBE16(p[at + 2..at + 4]) == |a.value|
            && p[at + 4..at + 4 + |a.value|] == a.value
  {
    hide Padded;
    var p, at := before + Layout(a) + after, |before|;
    assert p[at..at + 2] == BE16(a.kind);
    assert p[at + 2..at + 4] == BE16(|a.value|);
  }

  lemma {:induction false} WalkFinds(before: seq<byte>, attrs: seq<Attribute>, trailer: seq<byte>, utf8: Utf8)
    requires AllWellFormed(attrs)
    ensures var p := before + LayoutAll(attrs) + trailer;
            Walk(p, |before|, |before| + |LayoutAll(attrs)|, utf8) == FirstUsername(attrs, utf8)
    decreases |attrs|
  {
    hide FromBE16, Layout, Padded, BeforeColon, Walk;
    var p, end := before + LayoutAll(attrs) + trailer, |before| + |LayoutAll(attrs)|;
    WalkStep(p, |before|, end, utf8);
    if attrs != [] {
      var a := attrs[0];
      var more := LayoutAll(attrs[1..]);
      Regroup(before, Layout(a), more, trailer);
      At(before, a, more + trailer);
      WalkFinds(before + Layout(a), attrs[1..], trailer, utf8);
    }
  }

  lemma WalkStep(p: seq<byte>, at: nat, end: nat, utf8: Utf8)
    requires end <= |p|
    ensures at + 4 > end ==> Walk(p, at, end, utf8) == None
    ensures at + 4 <= end ==>
              var len := FromBE16(p[at + 2..at + 4]);
              at + 4 + len <= |p| ==>
                Walk(p, at, end, utf8) ==
                  if FromBE16(p[at..at + 2]) == USERNAME && utf8(p[at + 4..at + 4 + len])
                  then Some(BeforeColon(p[at + 4..at + 4 + len]))
                  else Walk(p, at + 4 + Padded(len), end, utf8)
  {
    hide FromBE16, BeforeColon, Padded;
  }

  lemma Regroup(a: seq<byte>, b: seq<byte>, c: seq<byte>, d: seq<byte>)
    ensures a + (b + c) + d == a + b + (c + d)
    ensures a + (b + c) + d == (a + b) + c + d
  {
  }

  function Message(kind: nat, transaction: seq<byte>, attrs: seq<Attribute>): seq<byte>
    requires kind < 0x4000 && |transaction| == 12 && AllWellFormed(attrs) && |LayoutAll(attrs)| < 0x1_0000
  {
    BE16(kind) + BE16(|LayoutAll(attrs)|) + BE32(0x2112_A442) + transaction + LayoutAll(attrs)
  }

  /** For every well-formed message, whatever follows it in the packet. */
  lemma ExtractFinds(kind: nat, transaction: seq<byte>, attrs: seq<Attribute>, trailer: seq<byte>, utf8: Utf8)
    requires kind < 0x4000 && |transaction| == 12 && AllWellFormed(attrs) && |LayoutAll(attrs)| < 0x1_0000
    ensures Extract(Message(kind, transaction, attrs) + trailer, utf8) == FirstUsername(attrs, utf8)
  {
    hide FromBE16, FromBE32, BE32, LayoutAll, Walk, FirstUsername;
    var body := LayoutAll(attrs);
    var head := BE16(kind) + BE16(|body|) + BE32(MAGIC) + transaction;
    var p := Message(kind, transaction, attrs) + trailer;
    assert p == head + body + trailer;
    assert p[0..2] == BE16(kind) && p[2..4] == BE16(|body|) && p[4..8] == BE32(MAGIC);
    BE16RoundTrip(kind);
    BE16RoundTrip(|body|);
    BE32RoundTrip(MAGIC);
    WalkFinds(head, attrs, trailer, utf8);
  }

  /** What is not a STUN message, or is shorter than it says, has no username. */
  lemma RefusedWhen(packet: seq<byte>, utf8: Utf8)
    ensures |packet| < 20 ==> Extract(packet, utf8) == None
    ensures |packet| >= 20 && packet[0] >= 0x40 ==> Extract(packet, utf8) == None
    ensures |packet| >= 20 && packet[4..8] != [0x21, 0x12, 0xA4, 0x42] ==> Extract(packet, utf8) == None
    ensures |packet| >= 20 && |packet| < 20 + packet[2] as int * 256 + packet[3] as int ==>
              Extract(packet, utf8) == None
  {
    if |packet| >= 20 {
      var m := packet[4..8];
      if FromBE32(m) == MAGIC {
        assert m[0] == 0x21 && m[1] == 0x12 && m[2] == 0xA4 && m[3] == 0x42;
        assert m == [0x21, 0x12, 0xA4, 0x42];
      }
    }
  }

  /** An attribute that claims more bytes than the packet has ends the search. */
  lemma TruncatedEndsSearch(packet: seq<byte>, offset: nat, end: nat, utf8: Utf8)
    requires end <= |packet| && offset + 4 <= end
    requires offset + 4 + packet[offset + 2] as int * 256 + packet[offset + 3] as int > |packet|
    ensures Walk(packet, offset, end, utf8) == None
  {
  }

  lemma BE16RoundTrip(n: nat)
    requires n < 0x1_0000
    ensures FromBE16(BE16(n)) == n
  {
  }
}
