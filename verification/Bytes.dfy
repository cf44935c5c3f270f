/** Byte strings and the big-endian integers in them. */
module Bytes {
  import opened FixedPoint

  type byte = b: int | 0 <= b < 256
  type u16 = x: int | 0 <= x < 0x1_0000
  type u32 = x: int | 0 <= x < 0x1_0000_0000
  type u64 = x: int | 0 <= x < 0x1_0000_0000_0000_0000
  type u128 = x: int | 0 <= x < 0x1_0000_0000_0000_0000_0000_0000_0000_0000

  function Pow256(n: nat): (p: nat)
    ensures 0 < p
  {
    if n == 0 then 1 else 256 * Pow256(n - 1)
  }

  lemma WidthValues()
    ensures Pow256(2) == 0x1_0000 && Pow256(4) == 0x1_0000_0000
    ensures Pow256(8) == 0x1_0000_0000_0000_0000
    ensures Pow256(16) == 0x1_0000_0000_0000_0000_0000_0000_0000_0000
  {
    assert Pow256(1) == 256 && Pow256(2) == 0x1_0000 && Pow256(3) == 0x100_0000;
    assert Pow256(4) == 0x1_0000_0000 && Pow256(5) == 0x100_0000_0000;
    assert Pow256(6) == 0x1_0000_0000_0000 && Pow256(7) == 0x100_0000_0000_0000;
    assert Pow256(8) == 0x1_0000_0000_0000_0000 && Pow256(10) == 0x1_0000_0000_0000_0000_0000;
    assert Pow256(12) == 0x1_0000_0000_0000_0000_0000_0000;
    assert Pow256(14) == 0x1_0000_0000_0000_0000_0000_0000_0000;
  }

  /** The value of `bytes` read most significant byte first. */
  function FromBigEndian(bytes: seq<byte>): (v: nat)
    ensures v < Pow256(|bytes|)
  {
    if |bytes| == 0 then 0
    else FromBigEndian(bytes[..|bytes| - 1]) * 256 + bytes[|bytes| - 1]
  }

  /** The low `width` bytes of `v`, most significant first: `to_be_bytes` after a cast. */
  function ToBigEndian(v: nat, width: nat): (bytes: seq<byte>)
    ensures |bytes| == width
  {
    if width == 0 then []
    else ToBigEndian(v / 256, width - 1) + [v % 256]
  }

  /** Writing keeps the value up to its low bytes; reading back a value that fits is exact. */
  lemma {:induction false} WriteThenRead(v: nat, width: nat)
    ensures FromBigEndian(ToBigEndian(v, width)) == v % Pow256(width)
  {
    if width > 0 {
      var rest := ToBigEndian(v / 256, width - 1);
      WriteThenRead(v / 256, width - 1);
      var bytes := rest + [v % 256];
      assert bytes[..|bytes| - 1] == rest;
      var p := Pow256(width - 1);
      ModSplit(v, p);
    }
  }

  lemma Exact(v: nat, width: nat)
    requires v < Pow256(width)
    ensures FromBigEndian(ToBigEndian(v, width)) == v
  {
    WriteThenRead(v, width);
    ModOf(v, Pow256(width), 0, v);
  }

  lemma ModSplit(v: nat, p: nat)
    requires 0 < p
    ensures v % (256 * p) == (v / 256 % p) * 256 + v % 256
  {
    var q, r := v / 256 / p, v / 256 % p;
    assert v / 256 == q * p + r;
    assert v == (q * p + r) * 256 + v % 256;
    var low := r * 256 + v % 256;
    assert v == q * (256 * p) + low;
    assert low < 256 * p by { assert r + 1 <= p; }
    ModOf(v, 256 * p, q, low);
  }

  lemma ModOf(v: nat, m: nat, q: nat, r: nat)
    requires 0 < m && r < m && v == q * m + r
    ensures v % m == r
  {
    assert (q + 1) * m == q * m + m;
    DivAtLeast(v, m, q);
    DivAtMost(v, m, q);
    assert v == v / m * m + v % m;
  }

  /** Reading then writing gives the bytes back. */
  lemma {:induction false} ReadThenWrite(bytes: seq<byte>)
    ensures ToBigEndian(FromBigEndian(bytes), |bytes|) == bytes
  {
    if |bytes| > 0 {
      var front := bytes[..|bytes| - 1];
      ReadThenWrite(front);
      var v := FromBigEndian(bytes);
      assert v / 256 == FromBigEndian(front) && v % 256 == bytes[|bytes| - 1];
      assert bytes == front + [bytes[|bytes| - 1]];
    }
  }

  /** Byte order of storage keys. */
  predicate Before(a: seq<byte>, b: seq<byte>) {
    if |b| == 0 then false
    else if |a| == 0 then true
    else a[0] < b[0] || (a[0] == b[0] && Before(a[1..], b[1..]))
  }

  /** Among keys of one width, byte order is numeric order. */
  lemma {:induction false} OrderIsNumeric(a: seq<byte>, b: seq<byte>)
    requires |a| == |b|
    ensures Before(a, b) <==> FromBigEndian(a) < FromBigEndian(b)
  {
    if |a| > 0 {
      OrderIsNumeric(a[1..], b[1..]);
      HeadValue(a);
      HeadValue(b);
      var p := Pow256(|a| - 1);
      if a[0] < b[0] {
        HeadDominates(a[0], b[0], p, FromBigEndian(a[1..]), FromBigEndian(b[1..]));
      } else if b[0] < a[0] {
        HeadDominates(b[0], a[0], p, FromBigEndian(b[1..]), FromBigEndian(a[1..]));
      }
    }
  }

  lemma HeadDominates(x: nat, y: nat, p: nat, u: nat, v: nat)
    requires x < y && u < p
    ensures x * p + u < y * p + v
  {
    MulMono(x + 1, y, p);
    assert (x + 1) * p == x * p + p;
  }

  lemma {:induction false} HeadValue(bytes: seq<byte>)
    requires |bytes| > 0
    ensures FromBigEndian(bytes) == bytes[0] * Pow256(|bytes| - 1) + FromBigEndian(bytes[1..])
  {
    var n := |bytes|;
    if n == 1 {
      assert bytes[..0] == [];
    } else {
      var front := bytes[..n - 1];
      HeadValue(front);
      assert front[1..] == bytes[1..][..n - 2];
      assert bytes[0] * Pow256(n - 2) * 256 == bytes[0] * Pow256(n - 1);
    }
  }

  // ----- The readers. -----

  function Slice(data: seq<byte>, index: nat, width: nat): seq<byte>
    requires index + width <= |data|
  {
    data[index..index + width]
  }

  function GetU16(data: seq<byte>, index: nat): u16
    requires index + 2 <= |data|
  {
    WidthValues();
    FromBigEndian(Slice(data, index, 2))
  }

  function GetU64(data: seq<byte>, index: nat): u64
    requires index + 8 <= |data|
  {
    WidthValues();
    FromBigEndian(Slice(data, index, 8))
  }

  function GetU128(data: seq<byte>, index: nat): u128
    requires index + 16 <= |data|
  {
    WidthValues();
    FromBigEndian(Slice(data, index, 16))
  }

  lemma U16Back(v: u16)
    ensures GetU16(ToBigEndian(v, 2), 0) == v
  {
    WidthValues();
    Exact(v, 2);
    SliceAll(ToBigEndian(v, 2));
  }

  /** Reading back 32 bits of `v` gives its cast to 32 bits. */
  lemma U32Cast(v: nat)
    ensures FromBigEndian(ToBigEndian(v, 4)) == v % 0x1_0000_0000 <= v
    ensures v < 0x1_0000_0000 ==> FromBigEndian(ToBigEndian(v, 4)) == v
  {
    WidthValues();
    WriteThenRead(v, 4);
    DivBounds(v, 0x1_0000_0000);
  }

  /** `v as u32`. */
  function Cast32(v: nat): (c: nat)
    ensures c == v % 0x1_0000_0000 && c <= v && c < 0x1_0000_0000
    ensures v < 0x1_0000_0000 ==> c == v
  {
    U32Cast(v);
    FromBigEndian(ToBigEndian(v, 4))
  }

  lemma U64Back(v: u64)
    ensures GetU64(ToBigEndian(v, 8), 0) == v
  {
    WidthValues();
    Exact(v, 8);
    SliceAll(ToBigEndian(v, 8));
  }

  lemma U128Back(v: u128)
    ensures GetU128(ToBigEndian(v, 16), 0) == v
  {
    WidthValues();
    Exact(v, 16);
    SliceAll(ToBigEndian(v, 16));
  }

  lemma SliceAll(bytes: seq<byte>)
    ensures Slice(bytes, 0, |bytes|) == bytes
  {}

  /** The high and the low half of a 256-bit integer. */
  function GetU256(data: seq<byte>, index: nat): (u128, u128)
    requires index + 32 <= |data|
  {
    (GetU128(data, index), GetU128(data, index + 16))
  }

  /** The two halves are the 256-bit value. */
  lemma U256Halves(data: seq<byte>, index: nat)
    requires index + 32 <= |data|
    ensures var halves := GetU256(data, index);
            FromBigEndian(Slice(data, index, 32)) == halves.0 * Pow256(16) + halves.1
  {
    var high, low := Slice(data, index, 16), Slice(data, index + 16, 16);
    assert Slice(data, index, 32) == high + low;
    ConcatValue(high, low);
  }

  lemma {:induction false} ConcatValue(high: seq<byte>, low: seq<byte>)
    ensures FromBigEndian(high + low) == FromBigEndian(high) * Pow256(|low|) + FromBigEndian(low)
    decreases |low|
  {
    if |low| == 0 {
      assert high + low == high;
    } else {
      var front := low[..|low| - 1];
      ConcatValue(high, front);
      assert (high + low)[..|high + low| - 1] == high + front;
      AppendDigit(FromBigEndian(high), Pow256(|front|), FromBigEndian(front));
    }
  }

  lemma AppendDigit(h: nat, p: nat, f: nat)
    ensures (h * p + f) * 256 == h * (256 * p) + f * 256
  {}

  /** Twelve zero bytes make a 20-byte address a 32-byte one. */
  function ExtendTo32(address: seq<byte>): seq<byte> {
    [0, 0, 0, 0, 0, 0, 0, 0, 0, 0, 0, 0] + address
  }
}
