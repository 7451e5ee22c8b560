/**
 Go strings: sequences of bytes, with the decimal rendering of Go's 64-bit integers.
 */
module Bytes {
  newtype Byte = x: int | 0 <= x < 0x100
  type Text = seq<Byte>

  /** A string literal of the source, one byte per (ASCII) character. */
  function Ascii(s: string): Text {
    seq(|s|, i requires 0 <= i < |s| => (s[i] as int % 0x100) as Byte)
  }

  function Decimal(n: nat): Text {
    if n < 10 then [(48 + n) as Byte] else Decimal(n / 10) + [(48 + n % 10) as Byte]
  }

  const MAX_INT := 0x7FFF_FFFF_FFFF_FFFF

  /** The value of n in a Go int, which has 64 bits. No length or count leaves that range; the model extends
      the function past it by the nearest int. */
  function GoInt(n: int): int {
    if n > MAX_INT then MAX_INT else if n < -MAX_INT - 1 then -MAX_INT - 1 else n
  }

  /** What `%d` prints for a Go int that was computed as n. */
  function Printed(n: int): Text {
    if GoInt(n) < 0 then [45] + Decimal(-GoInt(n)) else Decimal(GoInt(n))
  }

  function Pow10(k: nat): nat { if k == 0 then 1 else 10 * Pow10(k - 1) }

  lemma {:induction false} DecimalLength(n: nat, k: nat)
    requires 1 <= k && n < Pow10(k)
    ensures 1 <= |Decimal(n)| <= k
  {
    if n >= 10 {
      assert k > 1;
      assert n / 10 < Pow10(k - 1);
      DecimalLength(n / 10, k - 1);
    }
  }

  lemma PrintedLength(n: int)
    ensures 1 <= |Printed(n)| <= 20
    ensures 0 <= n <= MAX_INT ==> |Printed(n)| <= 19
  {
    assert Pow10(5) == 100_000;
    assert Pow10(10) == 10_000_000_000;
    assert Pow10(15) == 1_000_000_000_000_000;
    assert Pow10(19) == 10_000_000_000_000_000_000;
    if GoInt(n) < 0 {
      DecimalLength(-GoInt(n), 19);
    } else {
      DecimalLength(GoInt(n), 19);
    }
  }

  /** Every byte is a printable ASCII character or a space. */
  predicate Printable(s: Text) { forall i :: 0 <= i < |s| ==> 0x20 <= s[i] < 0x7F }

  lemma PrintableAscii(s: string)
    requires forall i :: 0 <= i < |s| ==> ' ' <= s[i] <= '~'
    ensures Printable(Ascii(s))
  {
  }

  lemma PrintableConcat(a: Text, b: Text)
    requires Printable(a) && Printable(b)
    ensures Printable(a + b)
  {
  }

  lemma {:induction false} DecimalDigits(n: nat)
    ensures forall i :: 0 <= i < |Decimal(n)| ==> 48 <= Decimal(n)[i] < 58
  {
    if n >= 10 {
      DecimalDigits(n / 10);
    }
  }

  lemma PrintedPrintable(n: int)
    ensures Printable(Printed(n))
  {
    DecimalDigits(if GoInt(n) < 0 then -GoInt(n) else GoInt(n));
  }

  lemma PrintedBytes(n: int)
    ensures Printed(n) != []
    ensures forall i :: 0 <= i < |Printed(n)| ==> Printed(n)[i] == 45 || 48 <= Printed(n)[i] < 58
  {
    DecimalDigits(if GoInt(n) < 0 then -GoInt(n) else GoInt(n));
  }

  lemma AsciiLacks(s: string, b: Byte)
    requires forall i :: 0 <= i < |s| ==> s[i] as int % 0x100 != b as int
    ensures b !in Ascii(s)
  {
  }

  lemma LacksConcat(x: Text, y: Text, b: Byte)
    requires b !in x && b !in y
    ensures b !in x + y
  {
  }

  // ---------------------------------------------------------------- substrings

  predicate OccursAt(s: Text, t: Text, i: int) {
    0 <= i && i + |t| <= |s| && forall k :: 0 <= k < |t| ==> t[k] == s[i + k]
  }

  predicate StartsWith(s: Text, t: Text) {
    |t| <= |s| && forall k :: 0 <= k < |t| ==> t[k] == s[k]
  }

  predicate EndsWith(s: Text, t: Text) { |t| <= |s| && s[|s| - |t|..] == t }

  lemma EndsWithPart(a: Text, b: Text)
    ensures EndsWith(a + b, b)
  {
  }

  lemma EndsWithMore(a: Text, b: Text, c: Text)
    requires EndsWith(a, b)
    ensures EndsWith(a + c, b + c)
  {
    assert a + c == a[..|a| - |b|] + (b + c);
  }

  /** The join of Go's strings.Join. */
  function Join(parts: seq<Text>, separator: Text): Text {
    if parts == [] then []
    else if |parts| == 1 then parts[0]
    else Join(parts[..|parts| - 1], separator) + separator + parts[|parts| - 1]
  }
}

/**
 Well-formed UTF-8, as the automaton that reads it byte by byte, tied to the grammar of section 4 of RFC 3629.
 */
module Utf8 {
  import opened Bytes

  /** What the automaton expects next; `Bad` is a sink. */
  datatype Expect = Start | One | Two | Three | AfterE0 | AfterED | AfterF0 | AfterF4 | Bad

  function Within(b: Byte, lo: Byte, hi: Byte, next: Expect): Expect {
    if lo <= b <= hi then next else Bad
  }

  function Next(q: Expect, b: Byte): Expect {
    match q
    case Start =>
      if b < 0x80 then Start
      else if 0xC2 <= b <= 0xDF then One
      else if b == 0xE0 then AfterE0
      else if b == 0xED then AfterED
      else if 0xE1 <= b <= 0xEF then Two
      else if b == 0xF0 then AfterF0
      else if 0xF1 <= b <= 0xF3 then Three
      else if b == 0xF4 then AfterF4
      else Bad
    case One => Within(b, 0x80, 0xBF, Start)
    case Two => Within(b, 0x80, 0xBF, One)
    case Three => Within(b, 0x80, 0xBF, Two)
    case AfterE0 => Within(b, 0xA0, 0xBF, One)
    case AfterED => Within(b, 0x80, 0x9F, One)
    case AfterF0 => Within(b, 0x90, 0xBF, Two)
    case AfterF4 => Within(b, 0x80, 0x8F, Two)
    case Bad => Bad
  }

  function Read(q: Expect, s: Text): Expect
    decreases |s|
  {
    if s == [] then q else Read(Next(q, s[0]), s[1..])
  }

  predicate Valid(s: Text) { Read(Start, s) == Start }

  lemma ReadStep(q: Expect, s: Text, i: nat)
    requires i < |s|
    ensures Read(q, s[i..]) == Read(Next(q, s[i]), s[i + 1..])
  {
    assert s[i..][1..] == s[i + 1..];
  }

  lemma {:induction false} ReadConcat(q: Expect, a: Text, b: Text)
    ensures Read(q, a + b) == Read(Read(q, a), b)
    decreases |a|
  {
    if a == [] {
      assert a + b == b;
    } else {
      assert (a + b)[1..] == a[1..] + b;
      ReadConcat(Next(q, a[0]), a[1..], b);
    }
  }

  lemma {:induction false} ReadBad(s: Text)
    ensures Read(Bad, s) == Bad
  {
    if s != [] {
      ReadBad(s[1..]);
    }
  }

  lemma ValidConcat(a: Text, b: Text)
    requires Valid(a) && Valid(b)
    ensures Valid(a + b)
  {
    ReadConcat(Start, a, b);
  }

  lemma {:induction false} PrintableValid(s: Text)
    requires Printable(s)
    ensures Valid(s)
  {
    if s != [] {
      PrintableValid(s[1..]);
    }
  }

  /** A byte of the form 10xxxxxx does not start a rune. */
  predicate StartsRune(b: Byte) { !(0x80 <= b < 0xC0) }

  /** Cutting well-formed text in front of a byte that starts a rune leaves well-formed text. */
  lemma CutBeforeRune(s: Text, cut: nat)
    requires Valid(s) && cut < |s| && StartsRune(s[cut])
    ensures Valid(s[..cut])
  {
    var q := Read(Start, s[..cut]);
    assert s == s[..cut] + s[cut..];
    ReadConcat(Start, s[..cut], s[cut..]);
    if q != Start {
      assert Next(q, s[cut]) == Bad;
      ReadBad(s[cut..][1..]);
    }
  }

  // ---------------------------------------------------------------- the grammar of RFC 3629

  predicate Tail(b: Byte) { 0x80 <= b <= 0xBF }

  /** The first n bytes are UTF8-1, UTF8-2, UTF8-3 or UTF8-4 of section 4. */
  predicate IsChar(s: Text, n: nat)
    requires n <= |s|
  {
    || (n == 1 && s[0] <= 0x7F)
    || (n == 2 && 0xC2 <= s[0] <= 0xDF && Tail(s[1]))
    || (n == 3 && s[0] == 0xE0 && 0xA0 <= s[1] <= 0xBF && Tail(s[2]))
    || (n == 3 && 0xE1 <= s[0] <= 0xEC && Tail(s[1]) && Tail(s[2]))
    || (n == 3 && s[0] == 0xED && 0x80 <= s[1] <= 0x9F && Tail(s[2]))
    || (n == 3 && 0xEE <= s[0] <= 0xEF && Tail(s[1]) && Tail(s[2]))
    || (n == 4 && s[0] == 0xF0 && 0x90 <= s[1] <= 0xBF && Tail(s[2]) && Tail(s[3]))
    || (n == 4 && 0xF1 <= s[0] <= 0xF3 && Tail(s[1]) && Tail(s[2]) && Tail(s[3]))
    || (n == 4 && s[0] == 0xF4 && 0x80 <= s[1] <= 0x8F && Tail(s[2]) && Tail(s[3]))
  }

  /** UTF8-octets = *( UTF8-char ) */
  ghost predicate IsOctets(s: Text)
    decreases |s|
  {
    s == [] || exists n :: 1 <= n <= |s| && IsChar(s, n) && IsOctets(s[n..])
  }

  /** The automaton reads one character from `Start` back to `Start`. */
  lemma ReadChar(s: Text, n: nat)
    requires n <= |s| && IsChar(s, n)
    ensures Valid(s[..n])
  {
    var c := s[..n];
    assert c == c[0..] && c[n..] == [];
    var q := Start;
    for i := 0 to n
      invariant Read(Start, c) == Read(q, c[i..])
      invariant i == 0 ==> q == Start
      invariant i == 1 ==> q == Next(Start, s[0])
      invariant i == 2 ==> q == Next(Next(Start, s[0]), s[1])
      invariant i == 3 ==> q == Next(Next(Next(Start, s[0]), s[1]), s[2])
      invariant i == 4 ==> q == Next(Next(Next(Next(Start, s[0]), s[1]), s[2]), s[3])
    {
      ReadStep(q, c, i);
      q := Next(q, c[i]);
    }
  }

  /** The length of the character at the front, or 0 when none is well formed there. */
  function FirstChar(s: Text): (n: nat)
    ensures n <= |s| && (n > 0 ==> IsChar(s, n))
    ensures forall k :: 0 <= k <= |s| && IsChar(s, k) ==> n == k
  {
    if |s| >= 1 && IsChar(s, 1) then 1
    else if |s| >= 2 && IsChar(s, 2) then 2
    else if |s| >= 3 && IsChar(s, 3) then 3
    else if |s| >= 4 && IsChar(s, 4) then 4
    else 0
  }

  /** Text that starts no well-formed character is not read back to `Start`. */
  lemma NoCharNotValid(s: Text)
    requires s != [] && FirstChar(s) == 0
    ensures !Valid(s)
  {
    assert s == s[0..];
    ReadStep(Start, s, 0);
    var q1 := Next(Start, s[0]);
    ReadBad(s[1..]);
    if |s| >= 2 {
      ReadStep(q1, s, 1);
      ReadBad(s[2..]);
      var q2 := Next(q1, s[1]);
      if |s| >= 3 {
        ReadStep(q2, s, 2);
        ReadBad(s[3..]);
        var q3 := Next(q2, s[2]);
        if |s| >= 4 {
          ReadStep(q3, s, 3);
          ReadBad(s[4..]);
        }
      }
    }
  }

  /** The automaton accepts exactly the sequences of the grammar. */
  lemma {:induction false} ValidIffOctets(s: Text)
    ensures Valid(s) <==> IsOctets(s)
    decreases |s|
  {
    if s != [] {
      var n := FirstChar(s);
      if n == 0 {
        NoCharNotValid(s);
      } else {
        assert s == s[..n] + s[n..];
        ReadConcat(Start, s[..n], s[n..]);
        ReadChar(s, n);
        ValidIffOctets(s[n..]);
      }
    }
  }

  // ---------------------------------------------------------------- what JSON encoding does to ill-formed text

  /** U+FFFD */
  const REPLACEMENT: Text := [0xEF, 0xBF, 0xBD]

  /** Every byte that starts no well-formed character becomes U+FFFD. */
  function Sanitized(s: Text): (r: Text)
    ensures |r| <= 3 * |s|
    decreases |s|
  {
    if s == [] then []
    else
      var n := FirstChar(s);
      if n == 0 then REPLACEMENT + Sanitized(s[1..]) else s[..n] + Sanitized(s[n..])
  }

  lemma {:induction false} SanitizedValid(s: Text)
    ensures Valid(Sanitized(s))
    decreases |s|
  {
    if s != [] {
      var n := FirstChar(s);
      if n == 0 {
        SanitizedValid(s[1..]);
        ReadChar(REPLACEMENT, 3);
        assert REPLACEMENT[..3] == REPLACEMENT;
        ValidConcat(REPLACEMENT, Sanitized(s[1..]));
      } else {
        SanitizedValid(s[n..]);
        ReadChar(s, n);
        ValidConcat(s[..n], Sanitized(s[n..]));
      }
    }
  }

  /** Text survives a JSON round trip exactly when it is well formed. */
  lemma {:induction false} SanitizedIff(s: Text)
    ensures Valid(s) <==> Sanitized(s) == s
    decreases |s|
  {
    SanitizedValid(s);
    if Valid(s) && s != [] {
      var n := FirstChar(s);
      if n == 0 {
        NoCharNotValid(s);
      } else {
        assert s == s[..n] + s[n..];
        ReadConcat(Start, s[..n], s[n..]);
        ReadChar(s, n);
        SanitizedIff(s[n..]);
      }
    }
  }
}
