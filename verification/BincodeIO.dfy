/** The browser's reader, which moves a position over a buffer, and its writer, which collects parts. */
module BincodeIO {
  import opened Bytes
  import opened Bincode

  const HALF: nat := 0x1_0000_0000

  lemma {:induction false} FromLEConcat(a: seq<byte>, b: seq<byte>)
    ensures FromLE(a + b) == FromLE(a) + Pow256(|a|) * FromLE(b)
  {
    if a == [] {
      assert a + b == b;
    } else {
      assert (a + b)[1..] == a[1..] + b;
      FromLEConcat(a[1..], b);
      Scale(a[0] as int, FromLE(a[1..]), Pow256(|a| - 1), FromLE(b));
    }
  }

  lemma TwoHalves(body: seq<byte>)
    requires |body| >= 8
    ensures FromLE(body[..8]) == FromLE(body[..4]) + FromLE(body[4..][..4]) * HALF
  {
    Powers();
    assert body[..8] == body[..4] + body[4..][..4];
    FromLEConcat(body[..4], body[4..][..4]);
  }

  lemma Scale(x: int, y: int, p: int, z: int)
    ensures x + 256 * (y + p * z) == x + 256 * y + 256 * p * z
  {
  }

  lemma FourDigits(n: nat, width: nat)
    requires width >= 4
    ensures LE(n, width) == [n % 256, n / 256 % 256, n / 0x1_0000 % 256, n / 0x100_0000 % 256] + LE(n / HALF, width - 4)
  {
    assert LE(n, width) == [n % 256] + LE(n / 256, width - 1);
    assert LE(n / 256, width - 1) == [n / 256 % 256] + LE(n / 256 / 256, width - 2);
    assert LE(n / 256 / 256, width - 2) == [n / 256 / 256 % 256] + LE(n / 256 / 256 / 256, width - 3);
    assert LE(n / 256 / 256 / 256, width - 3) == [n / 256 / 256 / 256 % 256] + LE(n / 256 / 256 / 256 / 256, width - 4);
    assert n / 256 / 256 == n / 0x1_0000;
    assert n / 256 / 256 / 256 == n / 0x100_0000 && n / 256 / 256 / 256 / 256 == n / HALF;
  }

  /** Two 32-bit writes make a 64-bit one. */
  lemma LEHalves(n: nat)
    ensures LE(n, 8) == LE(n % HALF, 4) + LE(n / HALF, 4)
  {
    hide LE;
    FourDigits(n, 8);
    FourDigits(n % HALF, 4);
    LowDigits(n, n / HALF, n % HALF);
    assert LE(n % HALF / HALF, 0) == [];
  }

  lemma LowDigits(n: nat, q: nat, r: nat)
    requires n == q * HALF + r
    ensures n % 256 == r % 256 && n / 256 % 256 == r / 256 % 256
    ensures n / 0x1_0000 % 256 == r / 0x1_0000 % 256 && n / 0x100_0000 % 256 == r / 0x100_0000 % 256
  {
    LowDigit(n, q * 0x100_0000, r);
    LowDigit(n / 256, q * 0x1_0000, r / 256);
    LowDigit(n / 256 / 256, q * 256, r / 256 / 256);
    LowDigit(n / 256 / 256 / 256, q, r / 256 / 256 / 256);
    ThreeBytes(n);
    ThreeBytes(r);
  }

  lemma LowDigit(n: nat, t: nat, r: nat)
    requires n == 256 * t + r
    ensures n % 256 == r % 256 && n / 256 == t + r / 256
  {
  }

  lemma ThreeBytes(n: nat)
    ensures n / 256 / 256 == n / 0x1_0000 && n / 256 / 256 / 256 == n / 0x100_0000
  {
  }

  class BincodeReader {
    const buf: seq<byte>
    var pos: nat

    ghost predicate Valid()
      reads this
    {
      pos <= |buf|
    }

    ghost function Left(): seq<byte>
      requires Valid()
      reads this
    {
      buf[pos..]
    }

    constructor (buf: seq<byte>)
      ensures Valid() && this.buf == buf && Left() == buf
    {
      this.buf, pos := buf, 0;
    }

    method ReadU8() returns (r: Option<byte>)
      requires Valid()
      modifies this`pos
      ensures Valid()
      ensures old(Left()) == [] ==> r.None? && Left() == []
      ensures old(Left()) != [] ==> r == Some(old(Left())[0]) && Left() == old(Left())[1..]
    {
      if pos >= |buf| {
        return None;
      }
      r := Some(buf[pos]);
      pos := pos + 1;
    }

    /** `DataView.getUint..` in little-endian order: None outside the buffer. */
    method ReadLE(width: nat) returns (r: Option<nat>)
      requires Valid()
      modifies this`pos
      ensures Valid()
      ensures |old(Left())| < width ==> r.None? && Left() == old(Left())
      ensures |old(Left())| >= width ==> r == Some(FromLE(old(Left())[..width])) && Left() == old(Left())[width..]
    {
      if pos + width > |buf| {
        return None;
      }
      assert Left()[..width] == buf[pos..pos + width];
      r := Some(FromLE(buf[pos..pos + width]));
      pos := pos + width;
    }

    method ReadVarint() returns (r: Option<nat>)
      requires Valid()
      modifies this`pos
      ensures Valid()
      ensures r.Some? <==> Bincode.ReadVarint(old(Left())).Some?
      ensures r.Some? ==> Bincode.ReadVarint(old(Left())) == Some(Parsed(r.value, Left()))
    {
      hide FromLE;
      ghost var d := Left();
      ghost var body := if d == [] then [] else d[1..];
      assert forall w: nat | w <= |body| && d != [] :: body[..w] == d[1..1 + w] && body[w..] == d[1 + w..];
      var first := ReadU8();
      if first.None? {
        return None;
      }
      if first.value <= 250 {
        return Some(first.value as nat);
      }
      if first.value == 251 {
        r := ReadLE(2);
      } else if first.value == 252 {
        r := ReadLE(4);
      } else if first.value == 253 {
        var lo := ReadLE(4);
        if lo.None? {
          return None;
        }
        var hi := ReadLE(4);
        if hi.None? {
          return None;
        }
        TwoHalves(body);
        r := Some(lo.value + hi.value * HALF);
      } else {
        r := None;
      }
    }

    method ReadBytes(n: nat) returns (r: Option<seq<byte>>)
      requires Valid()
      modifies this`pos
      ensures Valid()
      ensures n > |old(Left())| ==> r.None? && Left() == old(Left())
      ensures n <= |old(Left())| ==> r == Some(old(Left())[..n]) && Left() == old(Left())[n..]
    {
      if pos + n > |buf| {
        return None;
      }
      assert Left()[..n] == buf[pos..pos + n];
      r := Some(buf[pos..pos + n]);
      pos := pos + n;
    }

    method ReadString() returns (r: Option<seq<byte>>)
      requires Valid()
      modifies this`pos
      ensures Valid()
      ensures r.Some? <==> ReadStr(old(Left())).Some?
      ensures r.Some? ==> ReadStr(old(Left())) == Some(Parsed(r.value, Left()))
    {
      var len := ReadVarint();
      if len.None? {
        return None;
      }
      r := ReadBytes(len.value);
    }
  }

  class BincodeWriter {
    var parts: seq<seq<byte>>
    var totalLen: nat

    ghost predicate Valid()
      reads this
    {
      totalLen == |Flatten(parts)|
    }

    constructor ()
      ensures Valid() && Flatten(parts) == []
    {
      parts, totalLen := [], 0;
    }

    method Append(data: seq<byte>)
      requires Valid()
      modifies this
      ensures Valid() && Flatten(parts) == old(Flatten(parts)) + data
    {
      FlattenAppend(parts, data);
      parts := parts + [data];
      totalLen := totalLen + |data|;
    }

    method WriteVarint(v: nat)
      requires Valid() && v < SAFE
      modifies this
      ensures Valid() && Flatten(parts) == old(Flatten(parts)) + Varint(v)
    {
      if v <= 250 {
        Append([v]);
      } else if v <= 0xFFFF {
        Append([251] + LE(v, 2));
      } else if v <= 0xFFFF_FFFF {
        Append([252] + LE(v, 4));
      } else {
        LEHalves(v);
        Append([253] + (LE(v % HALF, 4) + LE(v / HALF, 4)));
      }
    }

    method WriteString(bytes: seq<byte>)
      requires Valid() && |bytes| < SAFE
      modifies this
      ensures Valid() && Flatten(parts) == old(Flatten(parts)) + Str(bytes)
    {
      Assoc(Flatten(parts), Varint(|bytes|), bytes);
      WriteVarint(|bytes|);
      Append(bytes);
    }

    /** The parts, copied one after the other into one buffer of the recorded length. */
    method ToBytes() returns (result: array<byte>)
      requires Valid()
      ensures fresh(result) && result[..] == Flatten(parts)
    {
      result := new byte[totalLen](_ => 0);
      var offset, k := 0, 0;
      while k < |parts|
        invariant 0 <= k <= |parts| && 0 <= offset <= totalLen && totalLen == |Flatten(parts)|
        invariant result.Length == totalLen && offset + |Flatten(parts[k..])| == totalLen
        invariant result[..offset] + Flatten(parts[k..]) == Flatten(parts)
      {
        var part := parts[k];
        assert parts[k..][1..] == parts[k + 1..];
        Assoc(result[..offset], part, Flatten(parts[k + 1..]));
        ghost var front := result[..offset];
        forall i | 0 <= i < |part| {
          result[offset + i] := part[i];
        }
        assert result[..offset + |part|] == front + part;
        offset, k := offset + |part|, k + 1;
      }
      assert result[..] == result[..offset] + [];
    }
  }
}
