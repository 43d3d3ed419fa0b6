/**
  The bincode "standard" integer and string encoding, as the browser's reader and writer
  implement it: one byte up to 250, then a marker and 2, 4 or 8 little-endian bytes.
 */
module Bincode {
  import opened Bytes

  /** Integers below this are held exactly by the browser. */
  const SAFE: nat := 0x20_0000_0000_0000

  const U64: nat := 0x1_0000_0000_0000_0000

  /** `n` as `width` little-endian bytes. */
  function LE(n: nat, width: nat): (b: seq<byte>)
    ensures |b| == width
  {
    if width == 0 then [] else [n % 256] + LE(n / 256, width - 1)
  }

  function FromLE(b: seq<byte>): nat {
    if b == [] then 0 else b[0] as int + 256 * FromLE(b[1..])
  }

  function Pow256(k: nat): (p: nat)
    ensures p > 0
  {
    if k == 0 then 1 else 256 * Pow256(k - 1)
  }

  lemma {:induction false} LERoundTrip(n: nat, width: nat)
    requires n < Pow256(width)
    ensures FromLE(LE(n, width)) == n
  {
    if width > 0 {
      LERoundTrip(n / 256, width - 1);
      assert LE(n, width)[1..] == LE(n / 256, width - 1);
    }
  }

  lemma Powers()
    ensures Pow256(2) == 0x1_0000 && Pow256(4) == 0x1_0000_0000 && Pow256(8) == U64
  {
    assert Pow256(1) == 256;
    assert Pow256(3) == 0x100_0000;
    assert Pow256(5) == 0x100_0000_0000;
    assert Pow256(6) == 0x1_0000_0000_0000;
    assert Pow256(7) == 0x100_0000_0000_0000;
  }

  function Varint(n: nat): (b: seq<byte>)
    requires n < U64
    ensures 0 < |b| <= 9
  {
    if n <= 250 then [n]
    else if n <= 0xFFFF then [251] + LE(n, 2)
    else if n <= 0xFFFF_FFFF then [252] + LE(n, 4)
    else [253] + LE(n, 8)
  }

  /** A parsed value and the bytes after it; None stands for the reader's exceptions. */
  datatype Parsed<T> = Parsed(value: T, rest: seq<byte>)

  /** Bytes after the marker, or None when the marker is not an integer's. */
  function VarintWidth(marker: byte): Option<nat> {
    if marker <= 250 then Some(0)
    else if marker == 251 then Some(2)
    else if marker == 252 then Some(4)
    else if marker == 253 then Some(8)
    else None
  }

  function ReadVarint(d: seq<byte>): (r: Option<Parsed<nat>>)
    ensures r.Some? ==> |r.value.rest| < |d|
  {
    if d == [] then None else
      match VarintWidth(d[0])
      case None => None
      case Some(w) =>
        if w == 0 then Some(Parsed(d[0] as nat, d[1..]))
        else if |d| < 1 + w then None
        else Some(Parsed(FromLE(d[1..1 + w]), d[1 + w..]))
  }

  /** One byte up to 250, then the markers 251, 252 and 253 before two, four and eight bytes, low byte first. */
  lemma VarintForm(n: nat)
    requires n < U64
    ensures n <= 250 ==> Varint(n) == [n]
    ensures 251 <= n < 0x1_0000 ==> Varint(n) == [251, n % 256, n / 256]
    ensures 0x1_0000 <= n < 0x1_0000_0000 ==> |Varint(n)| == 5 && Varint(n)[0] == 252
    ensures n >= 0x1_0000_0000 ==> |Varint(n)| == 9 && Varint(n)[0] == 253
    ensures n > 250 ==> FromLE(Varint(n)[1..]) == n
  {
    Powers();
    if n > 250 {
      var w := |Varint(n)| - 1;
      LERoundTrip(n, w);
      assert Varint(n)[1..] == LE(n, w);
      if n < 0x1_0000 {
        assert LE(n, 2) == [n % 256] + LE(n / 256, 1);
        assert LE(n / 256, 1) == [n / 256 % 256] + LE(n / 256 / 256, 0);
      }
    }
  }

  /** No integer starts with the bytes 254 and 255, and none is cut short. */
  lemma BadVarint(d: seq<byte>)
    ensures d == [] ==> ReadVarint(d) == None
    ensures d != [] && d[0] >= 254 ==> ReadVarint(d) == None
    ensures d != [] && d[0] == 251 && |d| < 3 ==> ReadVarint(d) == None
    ensures d != [] && d[0] == 252 && |d| < 5 ==> ReadVarint(d) == None
    ensures d != [] && d[0] == 253 && |d| < 9 ==> ReadVarint(d) == None
  {
  }

  lemma VarintRoundTrip(n: nat, rest: seq<byte>)
    requires n < U64
    ensures ReadVarint(Varint(n) + rest) == Some(Parsed(n, rest))
  {
    Powers();
    var d := Varint(n) + rest;
    if n <= 250 {
      assert d[1..] == rest;
    } else {
      var w := VarintWidth(d[0]).value;
      LERoundTrip(n, w);
      assert d[1..1 + w] == LE(n, w);
      assert d[1 + w..] == rest;
    }
  }

  /** No shorter integer encoding reads back as the same number. */
  lemma VarintIsMinimal(d: seq<byte>, n: nat)
    requires n < U64 && ReadVarint(d) == Some(Parsed(n, []))
    ensures |Varint(n)| <= |d|
  {
    Powers();
    var w := VarintWidth(d[0]).value;
    if w == 0 {
    } else {
      LEBound(d[1..1 + w]);
    }
  }

  lemma {:induction false} LEBound(b: seq<byte>)
    ensures FromLE(b) < Pow256(|b|)
  {
    if b != [] {
      LEBound(b[1..]);
    }
  }

  /** A length-prefixed byte string; strings are taken as their UTF-8 bytes. */
  function Str(s: seq<byte>): (b: seq<byte>)
    requires |s| < U64
  {
    Varint(|s|) + s
  }

  function ReadStr(d: seq<byte>): (r: Option<Parsed<seq<byte>>>)
    ensures r.Some? ==> |r.value.rest| < |d|
  {
    match ReadVarint(d)
    case None => None
    case Some(p) =>
      if p.value > |p.rest| then None else Some(Parsed(p.rest[..p.value], p.rest[p.value..]))
  }

  lemma StrRoundTrip(s: seq<byte>, rest: seq<byte>)
    requires |s| < U64
    ensures ReadStr(Str(s) + rest) == Some(Parsed(s, rest))
  {
    Assoc(Varint(|s|), s, rest);
    VarintRoundTrip(|s|, s + rest);
    assert (s + rest)[..|s|] == s && (s + rest)[|s|..] == rest;
  }
}
