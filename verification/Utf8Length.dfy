/**
 The byte counter of the partner export: the UTF-8 length of a JavaScript string, whose UTF-16 code units need
 not be well formed.
 */
module Utf8Length {
  import opened Bytes
  import opened Utf8

  newtype Unit = x: int | 0 <= x < 0x1_0000

  /** A Unicode scalar value. */
  type Scalar = x: int | 0 <= x < 0xD800 || 0xE000 <= x < 0x11_0000

  predicate IsHigh(u: Unit) { 0xD800 <= u <= 0xDBFF }

  predicate IsLow(u: Unit) { 0xDC00 <= u <= 0xDFFF }

  predicate StartsPair(units: seq<Unit>) { |units| >= 2 && IsHigh(units[0]) && IsLow(units[1]) }

  function Paired(high: Unit, low: Unit): (c: Scalar)
    requires IsHigh(high) && IsLow(low)
    ensures c >= 0x1_0000
  {
    0x1_0000 + (high as int - 0xD800) * 0x400 + (low as int - 0xDC00)
  }

  /** The text a sequence of code units stands for, an unpaired surrogate read as U+FFFD. */
  function Scalars(units: seq<Unit>): seq<Scalar>
    decreases |units|
  {
    if units == [] then []
    else if StartsPair(units) then [Paired(units[0], units[1])] + Scalars(units[2..])
    else if IsHigh(units[0]) || IsLow(units[0]) then [0xFFFD] + Scalars(units[1..])
    else [units[0] as int] + Scalars(units[1..])
  }

  /** The encoding of section 3 of RFC 3629. */
  function EncodeScalar(c: Scalar): Text {
    if c < 0x80 then [c as Byte]
    else if c < 0x800 then [(0xC0 + c / 0x40) as Byte, (0x80 + c % 0x40) as Byte]
    else if c < 0x1_0000 then
      [(0xE0 + c / 0x1000) as Byte, (0x80 + c / 0x40 % 0x40) as Byte, (0x80 + c % 0x40) as Byte]
    else
      [(0xF0 + c / 0x4_0000) as Byte, (0x80 + c / 0x1000 % 0x40) as Byte, (0x80 + c / 0x40 % 0x40) as Byte,
       (0x80 + c % 0x40) as Byte]
  }

  function Encode(cs: seq<Scalar>): Text { if cs == [] then [] else EncodeScalar(cs[0]) + Encode(cs[1..]) }

  // ---------------------------------------------------------------- the reference is UTF-16 and UTF-8

  function Utf16Scalar(c: Scalar): seq<Unit> {
    if c < 0x1_0000 then [c as Unit]
    else [(0xD800 + (c - 0x1_0000) / 0x400) as Unit, (0xDC00 + (c - 0x1_0000) % 0x400) as Unit]
  }

  function Utf16(cs: seq<Scalar>): seq<Unit> { if cs == [] then [] else Utf16Scalar(cs[0]) + Utf16(cs[1..]) }

  /** Well-formed UTF-16 is read back. */
  lemma {:induction false} ScalarsOfUtf16(cs: seq<Scalar>)
    ensures Scalars(Utf16(cs)) == cs
  {
    if cs != [] {
      var units, rest := Utf16Scalar(cs[0]), Utf16(cs[1..]);
      ScalarsOfUtf16(cs[1..]);
      assert (units + rest)[|units|..] == rest;
      assert cs == [cs[0]] + cs[1..];
    }
  }

  /** The scalar value that a well-formed UTF-8 character encodes. */
  function Decoded(s: Text): int
    requires IsChar(s, |s|)
  {
    if |s| == 1 then s[0] as int
    else if |s| == 2 then (s[0] as int - 0xC0) * 0x40 + (s[1] as int - 0x80)
    else if |s| == 3 then
      ((s[0] as int - 0xE0) * 0x40 + (s[1] as int - 0x80)) * 0x40 + (s[2] as int - 0x80)
    else
      (((s[0] as int - 0xF0) * 0x40 + (s[1] as int - 0x80)) * 0x40 + (s[2] as int - 0x80)) * 0x40
      + (s[3] as int - 0x80)
  }

  /** c in base 64, its last two digits split off. */
  lemma Base64(c: nat)
    ensures c == (c / 0x1000 * 0x40 + c / 0x40 % 0x40) * 0x40 + c % 0x40
  {
    assert c / 0x40 / 0x40 == c / 0x1000;
  }

  lemma EncodesThree(c: Scalar)
    requires 0x800 <= c < 0x1_0000
    ensures IsChar(EncodeScalar(c), 3) && Decoded(EncodeScalar(c)) == c
  {
    Base64(c);
  }

  lemma EncodesFour(c: Scalar)
    requires 0x1_0000 <= c
    ensures IsChar(EncodeScalar(c), 4) && Decoded(EncodeScalar(c)) == c
  {
    Base64(c);
    assert c / 0x1000 / 0x40 == c / 0x4_0000;
  }

  /** The bytes form one character of the grammar, and it is c. */
  lemma EncodesScalar(c: Scalar)
    ensures IsChar(EncodeScalar(c), |EncodeScalar(c)|) && Decoded(EncodeScalar(c)) == c
  {
    if 0x1_0000 <= c {
      EncodesFour(c);
    } else if 0x800 <= c {
      EncodesThree(c);
    }
  }

  lemma {:induction false} EncodedIsValid(cs: seq<Scalar>)
    ensures Valid(Encode(cs))
  {
    if cs != [] {
      var s := EncodeScalar(cs[0]);
      EncodesScalar(cs[0]);
      ReadChar(s, |s|);
      assert s[..|s|] == s;
      EncodedIsValid(cs[1..]);
      ValidConcat(s, Encode(cs[1..]));
    }
  }

  /** An unpaired surrogate stands for U+FFFD, whose encoding is the three bytes that replace ill-formed text. */
  lemma LoneSurrogate(u: Unit)
    requires IsHigh(u) || IsLow(u)
    ensures Encode(Scalars([u])) == REPLACEMENT
  {
    assert Scalars([u]) == [0xFFFD] + Scalars([u][1..]);
    assert Scalars([u][1..]) == [];
    assert Encode([0xFFFD]) == EncodeScalar(0xFFFD) + Encode([0xFFFD][1..]);
  }

  // ---------------------------------------------------------------- the counter

  lemma FirstCounts(units: seq<Unit>)
    requires units != []
    ensures var u, n := units[0], |Encode(Scalars(units))|;
            if StartsPair(units) then n == 4 + |Encode(Scalars(units[2..]))|
            else n == (if u < 0x80 then 1 else if u < 0x800 then 2 else 3) + |Encode(Scalars(units[1..]))|
  {
    var cs := Scalars(units);
    var k := if StartsPair(units) then 2 else 1;
    assert cs == [cs[0]] + Scalars(units[k..]);
    assert cs[1..] == Scalars(units[k..]);
  }

  /** utf8ByteLength */
  method ByteLength(value: seq<Unit>) returns (length: nat)
    ensures length == |Encode(Scalars(value))|
  {
    length := 0;
    var index := 0;
    while index < |value|
      invariant index <= |value|
      invariant length + |Encode(Scalars(value[index..]))| == |Encode(Scalars(value))|
    {
      FirstCounts(value[index..]);
      assert value[index..][1..] == value[index + 1..];
      var code := value[index];
      if code < 0x80 {
        length := length + 1;
      } else if code < 0x800 {
        length := length + 2;
      } else if 0xD800 <= code <= 0xDBFF && index + 1 < |value| && 0xDC00 <= value[index + 1] <= 0xDFFF {
        assert value[index..][2..] == value[index + 2..];
        length := length + 4;
        index := index + 1;
      } else {
        length := length + 3;
      }
      index := index + 1;
    }
  }
}
