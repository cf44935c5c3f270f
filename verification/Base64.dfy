/** Base 64 with the standard alphabet and padding, section 4 of RFC 4648. Decoding accepts
    only what encoding produces. */
module Base64 {
  import opened Results
  import opened Bytes

  const PAD: byte := 61

  function Digit(v: nat): (c: byte)
    requires v < 64
    ensures c != PAD
  {
    if v < 26 then 65 + v
    else if v < 52 then 97 + (v - 26)
    else if v < 62 then 48 + (v - 52)
    else if v == 62 then 43
    else 47
  }

  function Value(c: byte): (v: Option<nat>)
    ensures v.Some? ==> v.value < 64
  {
    if 65 <= c < 91 then Some(c - 65)
    else if 97 <= c < 123 then Some(c - 97 + 26)
    else if 48 <= c < 58 then Some(c - 48 + 52)
    else if c == 43 then Some(62)
    else if c == 47 then Some(63)
    else None
  }

  /** Six bits of a 24-bit group at a time, from the left. */
  function First(x: byte): (v: nat) ensures v < 64 { x / 4 }
  function Second(x: byte, y: byte): (v: nat) ensures v < 64 { x % 4 * 16 + y / 16 }
  function Third(y: byte, z: byte): (v: nat) ensures v < 64 { y % 16 * 4 + z / 64 }
  function Fourth(z: byte): (v: nat) ensures v < 64 { z % 64 }

  /** Eight bits of a 24-bit group at a time, from the left. */
  function High(a: nat, b: nat): byte requires a < 64 && b < 64 { a * 4 + b / 16 }
  function Middle(b: nat, c: nat): byte requires b < 64 && c < 64 { b % 16 * 16 + c / 4 }
  function Low(c: nat, d: nat): byte requires c < 64 && d < 64 { c % 4 * 64 + d }

  function Encode(data: seq<byte>): seq<byte> {
    if |data| == 0 then []
    else if |data| == 1 then
      [Digit(First(data[0])), Digit(Second(data[0], 0)), PAD, PAD]
    else if |data| == 2 then
      [Digit(First(data[0])), Digit(Second(data[0], data[1])), Digit(Third(data[1], 0)), PAD]
    else
      [Digit(First(data[0])), Digit(Second(data[0], data[1])), Digit(Third(data[1], data[2])), Digit(Fourth(data[2]))]
      + Encode(data[3..])
  }

  // Padded groups must leave the unused bits zero.

  predicate PaddedPair(text: seq<byte>) {
    && |text| == 4 && text[2] == PAD && text[3] == PAD
    && Value(text[0]).Some? && Value(text[1]).Some? && Value(text[1]).value % 16 == 0
  }

  predicate PaddedTriple(text: seq<byte>) {
    && |text| == 4 && text[3] == PAD
    && Value(text[0]).Some? && Value(text[1]).Some? && Value(text[2]).Some? && Value(text[2]).value % 4 == 0
  }

  /** A whole group of four digits, none of them padding. */
  predicate WholeGroup(text: seq<byte>) {
    |text| >= 4 && forall k :: 0 <= k < 4 ==> Value(text[k]).Some?
  }

  function Decode(text: seq<byte>): Option<seq<byte>> {
    if |text| == 0 then Some([])
    else if PaddedPair(text) then Some([High(Value(text[0]).value, Value(text[1]).value)])
    else if PaddedTriple(text) then
      var b := Value(text[1]).value;
      Some([High(Value(text[0]).value, b), Middle(b, Value(text[2]).value)])
    else if !WholeGroup(text) then None
    else
      var rest := Decode(text[4..]);
      if rest.None? then None
      else
        var b, c := Value(text[1]).value, Value(text[2]).value;
        Some([High(Value(text[0]).value, b), Middle(b, c), Low(c, Value(text[3]).value)] + rest.value)
  }

  /** The digits are the letters, upper case before lower case, the figures, and the two signs. */
  lemma DigitsInOrder(v: nat)
    ensures Digit(0) == 'A' as int && Digit(25) == 'Z' as int && Digit(26) == 'a' as int && Digit(51) == 'z' as int
    ensures Digit(52) == '0' as int && Digit(61) == '9' as int && Digit(62) == '+' as int && Digit(63) == '/' as int
    ensures v < 61 && v != 25 && v != 51 ==> Digit(v + 1) == Digit(v) + 1
  {}

  /** Every three bytes are four digits of the same 24 bits, from the left. */
  lemma {:induction false} EncodesBits(data: seq<byte>, k: nat)
    requires 3 * k + 2 < |data|
    ensures var text := Encode(data);
            && 4 * k + 3 < |text|
            && Value(text[4 * k]).Some? && Value(text[4 * k + 1]).Some?
            && Value(text[4 * k + 2]).Some? && Value(text[4 * k + 3]).Some?
            && var a, b := Value(text[4 * k]).value, Value(text[4 * k + 1]).value;
               var c, d := Value(text[4 * k + 2]).value, Value(text[4 * k + 3]).value;
               var x: nat, y: nat, z: nat := data[3 * k], data[3 * k + 1], data[3 * k + 2];
               ((a * 64 + b) * 64 + c) * 64 + d == (x * 256 + y) * 256 + z
  {
    if k == 0 {
      DigitValue(First(data[0]));
      DigitValue(Second(data[0], data[1]));
      DigitValue(Third(data[1], data[2]));
      DigitValue(Fourth(data[2]));
    } else {
      var rest, j := data[3..], k - 1;
      EncodesBits(rest, j);
      assert rest[3 * j] == data[3 * k] && rest[3 * j + 1] == data[3 * k + 1] && rest[3 * j + 2] == data[3 * k + 2];
      assert Encode(data)[4..] == Encode(rest);
    }
  }

  /** Section 10 of RFC 4648: "f", "fo" and "foo" are "Zg==", "Zm8=" and "Zm9v". */
  lemma TestVectors()
    ensures Encode([102]) == [90, 103, 61, 61] && Encode([102, 111]) == [90, 109, 56, 61]
    ensures Encode([102, 111, 111]) == [90, 109, 57, 118]
  {
    assert Encode([102, 111, 111][3..]) == [];
  }

  lemma DigitValue(v: nat)
    requires v < 64
    ensures Value(Digit(v)) == Some(v)
  {}

  lemma ValueDigit(c: byte)
    requires Value(c).Some?
    ensures Digit(Value(c).value) == c && c != PAD
  {}

  /** Regrouping 24 bits by six and by eight are inverse to each other. */
  lemma Regroup(x: byte, y: byte, z: byte)
    ensures High(First(x), Second(x, y)) == x
    ensures Middle(Second(x, y), Third(y, z)) == y
    ensures Low(Third(y, z), Fourth(z)) == z
  {}

  lemma RegroupBack(a: nat, b: nat, c: nat, d: nat)
    requires a < 64 && b < 64 && c < 64 && d < 64
    ensures First(High(a, b)) == a && Second(High(a, b), Middle(b, c)) == b
    ensures Third(Middle(b, c), Low(c, d)) == c && Fourth(Low(c, d)) == d
    ensures b % 16 == 0 ==> Second(High(a, b), 0) == b
    ensures c % 4 == 0 ==> Third(Middle(b, c), 0) == c
  {}

  lemma {:induction false} EncodedLength(data: seq<byte>)
    ensures |Encode(data)| == (|data| + 2) / 3 * 4
  {
    if |data| >= 3 {
      EncodedLength(data[3..]);
      ThreeMore(|data|);
    }
  }

  lemma ThreeMore(n: nat)
    requires n >= 3
    ensures (n + 2) / 3 == (n - 1) / 3 + 1
  {}

  lemma DecodeQuad(a: nat, b: nat, c: nat, d: nat, rest: seq<byte>)
    requires a < 64 && b < 64 && c < 64 && d < 64 && Decode(rest).Some?
    ensures Decode([Digit(a), Digit(b), Digit(c), Digit(d)] + rest)
            == Some([High(a, b), Middle(b, c), Low(c, d)] + Decode(rest).value)
  {
    DigitValue(a);
    DigitValue(b);
    DigitValue(c);
    DigitValue(d);
    var text := [Digit(a), Digit(b), Digit(c), Digit(d)] + rest;
    assert text[4..] == rest;
  }

  lemma DecodePair(a: nat, b: nat)
    requires a < 64 && b < 64 && b % 16 == 0
    ensures Decode([Digit(a), Digit(b), PAD, PAD]) == Some([High(a, b)])
  {
    DigitValue(a);
    DigitValue(b);
  }

  lemma DecodeTriple(a: nat, b: nat, c: nat)
    requires a < 64 && b < 64 && c < 64 && c % 4 == 0
    ensures Decode([Digit(a), Digit(b), Digit(c), PAD]) == Some([High(a, b), Middle(b, c)])
  {
    DigitValue(a);
    DigitValue(b);
    DigitValue(c);
  }

  lemma RegroupShort(x: byte, y: byte)
    ensures Second(x, 0) % 16 == 0 && High(First(x), Second(x, 0)) == x
    ensures Third(y, 0) % 4 == 0 && High(First(x), Second(x, y)) == x && Middle(Second(x, y), Third(y, 0)) == y
  {}

  lemma DecodesShort(data: seq<byte>)
    requires 0 < |data| < 3
    ensures Decode(Encode(data)) == Some(data)
  {
    HeadAndRest(data);
    if |data| == 1 {
      RegroupShort(data[0], 0);
      DecodePair(First(data[0]), Second(data[0], 0));
    } else {
      RegroupShort(data[0], data[1]);
      DecodeTriple(First(data[0]), Second(data[0], data[1]), Third(data[1], 0));
    }
  }

  lemma HeadAndRest(data: seq<byte>)
    ensures |data| == 1 ==> data == [data[0]]
    ensures |data| == 2 ==> data == [data[0], data[1]]
    ensures |data| >= 3 ==> data == [data[0], data[1], data[2]] + data[3..]
  {}

  lemma DecodesLong(data: seq<byte>)
    requires |data| >= 3 && Decode(Encode(data[3..])) == Some(data[3..])
    ensures Decode(Encode(data)) == Some(data)
  {
    var x, y, z := data[0], data[1], data[2];
    var a, b, c, d := First(x), Second(x, y), Third(y, z), Fourth(z);
    assert Encode(data) == [Digit(a), Digit(b), Digit(c), Digit(d)] + Encode(data[3..]);
    DecodeQuad(a, b, c, d, Encode(data[3..]));
    Regroup(x, y, z);
    HeadAndRest(data);
  }

  lemma {:induction false} EncodeThenDecode(data: seq<byte>)
    ensures Decode(Encode(data)) == Some(data)
  {
    if |data| >= 3 {
      EncodeThenDecode(data[3..]);
      DecodesLong(data);
    } else if |data| > 0 {
      DecodesShort(data);
    }
  }

  /** Text decoded and encoded again, where it decodes. */
  function Reencoded(text: seq<byte>): Option<seq<byte>> {
    var data := Decode(text);
    if data.None? then None else Some(Encode(data.value))
  }

  lemma EncodeQuad(x: byte, y: byte, z: byte, rest: seq<byte>)
    ensures Encode([x, y, z] + rest)
         == [Digit(First(x)), Digit(Second(x, y)), Digit(Third(y, z)), Digit(Fourth(z))] + Encode(rest)
  {
    assert ([x, y, z] + rest)[3..] == rest;
  }

  lemma WholeGroupBack(text: seq<byte>)
    requires WholeGroup(text) && Decode(text[4..]).Some?
    ensures Decode(text).Some? && Encode(Decode(text).value) == text[..4] + Encode(Decode(text[4..]).value)
  {
    var a, b, c, d := Value(text[0]).value, Value(text[1]).value, Value(text[2]).value, Value(text[3]).value;
    ValueDigit(text[0]);
    ValueDigit(text[1]);
    ValueDigit(text[2]);
    ValueDigit(text[3]);
    assert text == [Digit(a), Digit(b), Digit(c), Digit(d)] + text[4..];
    DecodeQuad(a, b, c, d, text[4..]);
    EncodeQuad(High(a, b), Middle(b, c), Low(c, d), Decode(text[4..]).value);
    RegroupBack(a, b, c, d);
  }

  lemma PairBack(text: seq<byte>)
    requires PaddedPair(text)
    ensures Reencoded(text) == Some(text)
  {
    var a, b := Value(text[0]).value, Value(text[1]).value;
    ValueDigit(text[0]);
    ValueDigit(text[1]);
    assert text == [Digit(a), Digit(b), PAD, PAD];
    DecodePair(a, b);
    RegroupBack(a, b, 0, 0);
  }

  lemma TripleBack(text: seq<byte>)
    requires PaddedTriple(text)
    ensures Reencoded(text) == Some(text)
  {
    var a, b, c := Value(text[0]).value, Value(text[1]).value, Value(text[2]).value;
    ValueDigit(text[0]);
    ValueDigit(text[1]);
    ValueDigit(text[2]);
    assert text == [Digit(a), Digit(b), Digit(c), PAD];
    DecodeTriple(a, b, c);
    RegroupBack(a, b, c, 0);
  }

  /** Nothing but an encoding decodes. */
  lemma {:induction false} DecodeThenEncode(text: seq<byte>)
    ensures Reencoded(text).Some? ==> Reencoded(text) == Some(text)
    decreases |text|
  {
    if |text| > 0 && Decode(text).Some? {
      if PaddedPair(text) {
        PairBack(text);
      } else if PaddedTriple(text) {
        TripleBack(text);
      } else {
        DecodeThenEncode(text[4..]);
        WholeGroupBack(text);
        WholeAgain(text, Reencoded(text[4..]).value);
      }
    }
  }

  lemma WholeAgain(text: seq<byte>, rest: seq<byte>)
    requires |text| >= 4 && rest == text[4..]
    ensures text[..4] + rest == text
  {}

  lemma EncodeInjective(a: seq<byte>, b: seq<byte>)
    requires Encode(a) == Encode(b)
    ensures a == b
  {
    EncodeThenDecode(a);
    EncodeThenDecode(b);
  }
}
