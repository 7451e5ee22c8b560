/**
 Reading JSON strings back, as Go's decoder does: escapes, surrogate pairs, and U+FFFD for what is ill formed.
 */
module JsonStrings {
  import opened Options
  import opened Bytes
  import opened Utf8
  import opened Json
  import Utf8Length

  function HexValue(b: Byte): (v: Option<nat>)
    ensures v.Some? ==> v.value < 16
  {
    if 48 <= b <= 57 then Some(b as int - 48)
    else if 97 <= b <= 102 then Some(b as int - 87)
    else if 65 <= b <= 70 then Some(b as int - 55)
    else None
  }

  /** Four hexadecimal digits from position i on. */
  function Hex4(s: Text, i: nat): (u: Option<nat>)
    ensures u.Some? ==> u.value < 0x1_0000
  {
    if i + 4 > |s| then None
    else
      var (a, b, c, d) := (HexValue(s[i]), HexValue(s[i + 1]), HexValue(s[i + 2]), HexValue(s[i + 3]));
      if a.None? || b.None? || c.None? || d.None? then None
      else Some(((a.value * 16 + b.value) * 16 + c.value) * 16 + d.value)
  }

  /** What is read and how many bytes that takes. */
  datatype Piece = Piece(text: Text, size: nat)

  function Simple(b: Byte): Option<Byte> {
    if b == 34 || b == 92 || b == 47 || b == 39 then Some(b)
    else if b == 98 then Some(8)
    else if b == 102 then Some(12)
    else if b == 110 then Some(10)
    else if b == 114 then Some(13)
    else if b == 116 then Some(9)
    else None
  }

  /** A \u escape; a pair of surrogates is one character, a lone one is U+FFFD. */
  function Unicode(s: Text): Option<Piece> {
    var u := Hex4(s, 2);
    if u.None? then None
    else if 0xD800 <= u.value < 0xE000 then
      var low := if |s| >= 12 && s[6] == 92 && s[7] == 117 then Hex4(s, 8) else None;
      if u.value < 0xDC00 && low.Some? && 0xDC00 <= low.value < 0xE000
      then
        Some(Piece(Utf8Length.EncodeScalar(
          Utf8Length.Paired(u.value as Utf8Length.Unit, low.value as Utf8Length.Unit)), 12))
      else Some(Piece(REPLACEMENT, 6))
    else Some(Piece(Utf8Length.EncodeScalar(u.value), 6))
  }

  function FirstPiece(s: Text): (p: Option<Piece>)
    requires s != []
    ensures p.Some? ==> 1 <= p.value.size <= |s|
  {
    if s[0] == 92 then
      if |s| < 2 then None
      else if s[1] == 117 then Unicode(s)
      else if Simple(s[1]).Some? then Some(Piece([Simple(s[1]).value], 2))
      else None
    else if s[0] == 34 || s[0] < 0x20 then None
    else
      var n := FirstChar(s);
      if n == 0 then Some(Piece(REPLACEMENT, 1)) else Some(Piece(s[..n], n))
  }

  /** The text between the quotes; None when it is no JSON string. */
  function Unescaped(s: Text): Option<Text>
    decreases |s|
  {
    if s == [] then Some([])
    else
      var p := FirstPiece(s);
      if p.None? then None
      else
        var rest := Unescaped(s[p.value.size..]);
        if rest.None? then None else Some(p.value.text + rest.value)
  }

  function DecodedString(raw: Text): Option<Text> {
    if |raw| >= 2 && raw[0] == 34 && raw[|raw| - 1] == 34 then Unescaped(raw[1..|raw| - 1]) else None
  }

  // ---------------------------------------------------------------- what was written is read back

  lemma HexDigitValue(d: nat)
    requires d < 16
    ensures HexValue(HexDigit(d)) == Some(d)
  {
  }

  lemma ByteReadsBack(b: Byte, rest: Text)
    requires b < 0x80
    ensures FirstPiece(EscapedByte(b) + rest) == Some(Piece([b], |EscapedByte(b)|))
  {
    var s := EscapedByte(b) + rest;
    HexDigitValue(b as int / 16);
    HexDigitValue(b as int % 16);
    if |EscapedByte(b)| == 6 {
      assert s[..6] == EscapedByte(b);
      assert Hex4(s, 2) == Some(b as int);
    } else if |EscapedByte(b)| == 1 {
      assert IsChar(s, 1) && s[..1] == [b];
    }
  }

  lemma ReplacementReadsBack(rest: Text)
    ensures FirstPiece([92, 117, 102, 102, 102, 100] + rest) == Some(Piece(REPLACEMENT, 6))
  {
    var s := [92, 117, 102, 102, 102, 100] + rest;
    assert Hex4(s, 2) == Some(0xFFFD);
  }

  lemma CharReadsBack(c: Text, rest: Text)
    requires c != [] && IsChar(c, |c|)
    ensures FirstPiece(EscapedChar(c) + rest) == Some(Piece(c, |EscapedChar(c)|))
  {
    var s := EscapedChar(c) + rest;
    if |c| == 1 {
      assert c == [c[0]];
      ByteReadsBack(c[0], rest);
    } else if EscapedChar(c) == c {
      assert forall i :: 0 <= i < |c| ==> s[i] == c[i];
      assert IsChar(s, |c|) && s[..|c|] == c;
    } else {
      assert Hex4(s, 2) == Some(if c[2] == 0xA8 then 0x2028 else 0x2029);
      assert Utf8Length.EncodeScalar(0x2028) == [0xE2, 0x80, 0xA8];
      assert Utf8Length.EncodeScalar(0x2029) == [0xE2, 0x80, 0xA9];
      assert c == [0xE2, 0x80, c[2]];
    }
  }

  lemma UnescapedPiece(e: Text, rest: Text, t: Text)
    requires e != [] && FirstPiece(e + rest) == Some(Piece(t, |e|)) && Unescaped(rest).Some?
    ensures Unescaped(e + rest) == Some(t + Unescaped(rest).value)
  {
    assert (e + rest)[|e|..] == rest;
  }

  /** Decoding what was encoded gives the text with every ill-formed byte replaced by U+FFFD. */
  lemma {:induction false} UnescapesToSanitized(s: Text)
    ensures Unescaped(Escaped(s)) == Some(Sanitized(s))
    decreases |s|
  {
    if s != [] {
      var n := FirstChar(s);
      if n == 0 {
        UnescapesToSanitized(s[1..]);
        ReplacementReadsBack(Escaped(s[1..]));
        UnescapedPiece([92, 117, 102, 102, 102, 100], Escaped(s[1..]), REPLACEMENT);
      } else {
        var c := s[..n];
        assert IsChar(c, n);
        UnescapesToSanitized(s[n..]);
        CharReadsBack(c, Escaped(s[n..]));
        UnescapedPiece(EscapedChar(c), Escaped(s[n..]), c);
      }
    }
  }

  /** The decoded form that a written string is given is what the decoder reads in its bytes. */
  lemma RawStringReadsBack(t: Text)
    ensures RawString(t).value.Str? && DecodedString(RawString(t).bytes) == Some(RawString(t).value.text)
  {
    var raw := RawString(t).bytes;
    UnescapesToSanitized(t);
    assert raw[1..|raw| - 1] == Escaped(t);
  }

  /** So a text survives being written and read if and only if it is well-formed UTF-8. */
  lemma StringRoundTripIff(t: Text)
    ensures DecodedString(Quoted(t)) == Some(t) <==> Valid(t)
  {
    RawStringReadsBack(t);
    SanitizedIff(t);
  }

  // ---------------------------------------------------------------- escapes of any writer

  /** A hexadecimal digit in either case. */
  function AnyHexDigit(n: nat, upper: bool): Byte
    requires n < 16
  {
    if upper && n >= 10 then (55 + n) as Byte else HexDigit(n)
  }

  /** The code unit as a \u escape. */
  function UnitEscape(u: Utf8Length.Unit, upper: bool): Text {
    var n := u as int;
    [92, 117, AnyHexDigit(n / 0x1000, upper), AnyHexDigit(n / 0x100 % 16, upper), AnyHexDigit(n / 16 % 16, upper),
     AnyHexDigit(n % 16, upper)]
  }

  function UnitEscapes(units: seq<Utf8Length.Unit>, upper: bool): Text {
    if units == [] then [] else UnitEscape(units[0], upper) + UnitEscapes(units[1..], upper)
  }

  lemma AnyHexDigitValue(d: nat, upper: bool)
    requires d < 16
    ensures HexValue(AnyHexDigit(d, upper)) == Some(d)
  {
  }

  lemma Base16(n: nat)
    ensures n == ((n / 0x1000 * 16 + n / 0x100 % 16) * 16 + n / 16 % 16) * 16 + n % 16
  {
    assert n / 16 / 16 == n / 0x100;
    assert n / 0x100 / 16 == n / 0x1000;
  }

  lemma FourDigits(a: nat, b: nat, c: nat, d: nat, upper: bool, rest: Text)
    requires a < 16 && b < 16 && c < 16 && d < 16
    ensures Hex4([92, 117, AnyHexDigit(a, upper), AnyHexDigit(b, upper), AnyHexDigit(c, upper), AnyHexDigit(d, upper)]
                 + rest, 2) == Some(((a * 16 + b) * 16 + c) * 16 + d)
  {
    AnyHexDigitValue(a, upper);
    AnyHexDigitValue(b, upper);
    AnyHexDigitValue(c, upper);
    AnyHexDigitValue(d, upper);
  }

  lemma UnitReadsBack(u: Utf8Length.Unit, upper: bool, rest: Text)
    ensures |UnitEscape(u, upper) + rest| >= 6 && Hex4(UnitEscape(u, upper) + rest, 2) == Some(u as int)
  {
    var n := u as int;
    Base16(n);
    FourDigits(n / 0x1000, n / 0x100 % 16, n / 16 % 16, n % 16, upper, rest);
  }

  lemma Hex4Behind(e: Text, rest: Text, i: nat)
    requires |e| == 6
    ensures Hex4(e + rest, i + 6) == Hex4(rest, i)
  {
  }

  lemma PairReadsBack(high: Utf8Length.Unit, low: Utf8Length.Unit, upper: bool, rest: Text)
    requires Utf8Length.IsHigh(high) && Utf8Length.IsLow(low)
    ensures FirstPiece(UnitEscape(high, upper) + (UnitEscape(low, upper) + rest)) ==
            Some(Piece(Utf8Length.EncodeScalar(Utf8Length.Paired(high, low)), 12))
  {
    var more := UnitEscape(low, upper) + rest;
    UnitReadsBack(high, upper, more);
    UnitReadsBack(low, upper, rest);
    Hex4Behind(UnitEscape(high, upper), more, 2);
  }

  /** What follows a code unit that is not the first of a pair. */
  ghost predicate NoLowBehind(u: Utf8Length.Unit, rest: Text) {
    Utf8Length.IsHigh(u) && |rest| >= 6 && rest[0] == 92 && rest[1] == 117 ==>
      Hex4(rest, 2).Some? ==> !(0xDC00 <= Hex4(rest, 2).value < 0xE000)
  }

  lemma SingleReadsBack(u: Utf8Length.Unit, upper: bool, rest: Text)
    requires NoLowBehind(u, rest)
    ensures FirstPiece(UnitEscape(u, upper) + rest) ==
            Some(Piece(if Utf8Length.IsHigh(u) || Utf8Length.IsLow(u) then REPLACEMENT
                       else Utf8Length.EncodeScalar(u as int), 6))
  {
    UnitReadsBack(u, upper, rest);
    Hex4Behind(UnitEscape(u, upper), rest, 2);
  }

  lemma NextIsNoLow(units: seq<Utf8Length.Unit>, upper: bool)
    requires units != [] && !Utf8Length.StartsPair(units)
    ensures NoLowBehind(units[0], UnitEscapes(units[1..], upper))
  {
    if |units| > 1 {
      assert units[1..][0] == units[1];
      UnitReadsBack(units[1], upper, UnitEscapes(units[1..][1..], upper));
    }
  }

  lemma ReplacementEncoded()
    ensures Utf8Length.EncodeScalar(0xFFFD) == REPLACEMENT
  {
  }

  /** The scalar that the first one or two code units stand for. */
  function FirstScalar(units: seq<Utf8Length.Unit>): Utf8Length.Scalar
    requires units != []
  {
    if Utf8Length.StartsPair(units) then Utf8Length.Paired(units[0], units[1])
    else if Utf8Length.IsHigh(units[0]) || Utf8Length.IsLow(units[0]) then 0xFFFD
    else units[0] as int
  }

  lemma FirstScalars(units: seq<Utf8Length.Unit>)
    requires units != []
    ensures Utf8Length.Encode(Utf8Length.Scalars(units)) ==
            Utf8Length.EncodeScalar(FirstScalar(units))
            + Utf8Length.Encode(Utf8Length.Scalars(units[if Utf8Length.StartsPair(units) then 2 else 1..]))
  {
    var rest := Utf8Length.Scalars(units[if Utf8Length.StartsPair(units) then 2 else 1..]);
    assert Utf8Length.Scalars(units) == [FirstScalar(units)] + rest;
    assert ([FirstScalar(units)] + rest)[1..] == rest;
  }

  /** For every sequence of UTF-16 code units, paired or not, written as escapes in either case: what is read is the
      UTF-8 of the text they stand for. */
  lemma {:induction false} UnitsReadBack(units: seq<Utf8Length.Unit>, upper: bool)
    ensures Unescaped(UnitEscapes(units, upper)) == Some(Utf8Length.Encode(Utf8Length.Scalars(units)))
    decreases |units|
  {
    if units != [] {
      FirstScalars(units);
      ReplacementEncoded();
      if Utf8Length.StartsPair(units) {
        var e, f := UnitEscape(units[0], upper), UnitEscape(units[1], upper);
        var rest := UnitEscapes(units[2..], upper);
        UnitsReadBack(units[2..], upper);
        PairReadsBack(units[0], units[1], upper, rest);
        assert units[1..][0] == units[1] && units[1..][1..] == units[2..];
        assert UnitEscapes(units, upper) == e + (f + rest) && e + f + rest == e + (f + rest);
        UnescapedPiece(e + f, rest, Utf8Length.EncodeScalar(Utf8Length.Paired(units[0], units[1])));
      } else {
        UnitsReadBack(units[1..], upper);
        NextIsNoLow(units, upper);
        SingleReadsBack(units[0], upper, UnitEscapes(units[1..], upper));
        UnescapedPiece(UnitEscape(units[0], upper), UnitEscapes(units[1..], upper),
                       Utf8Length.EncodeScalar(FirstScalar(units)));
      }
    }
  }

  /** A quotation mark or a control byte inside a string is refused. */
  lemma UnquotedIsRefused(s: Text)
    requires s != [] && (s[0] == 34 || s[0] <= 31)
    ensures Unescaped(s) == None
  {
  }
}
