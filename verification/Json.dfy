/**
 As much of Go's encoding/json as the result bounding relies on: string quoting with its growth, map keys
 written in sorted order, and raw messages as bytes together with what json.Unmarshal reads in them.
 */
module Json {
  import opened Bytes
  import opened Utf8

  // ---------------------------------------------------------------- quoting

  function HexDigit(n: nat): Byte
    requires n < 16
  {
    if n < 10 then (48 + n) as Byte else (87 + n) as Byte
  }

  /** An ASCII byte in a JSON string as Go writes it, with `<`, `>` and `&` escaped for HTML. */
  function EscapedByte(b: Byte): Text {
    if b == 34 || b == 92 then [92, b]
    else if b == 8 then [92, 98]
    else if b == 9 then [92, 116]
    else if b == 10 then [92, 110]
    else if b == 12 then [92, 102]
    else if b == 13 then [92, 114]
    else if b < 0x20 || b == 60 || b == 62 || b == 38 then
      [92, 117, 48, 48, HexDigit(b as int / 16), HexDigit(b as int % 16)]
    else [b]
  }

  function EscapedChar(c: Text): Text {
    if |c| == 1 then EscapedByte(c[0])
    else if |c| == 3 && c[0] == 0xE2 && c[1] == 0x80 && (c[2] == 0xA8 || c[2] == 0xA9) then
      [92, 117, 50, 48, 50, if c[2] == 0xA8 then 56 else 57]
    else c
  }

  /** A byte that starts no well-formed character is written as the escape of U+FFFD. */
  function Escaped(s: Text): Text
    decreases |s|
  {
    if s == [] then []
    else
      var n := FirstChar(s);
      if n == 0 then [92, 117, 102, 102, 102, 100] + Escaped(s[1..])
      else EscapedChar(s[..n]) + Escaped(s[n..])
  }

  function Quoted(s: Text): Text { [34] + Escaped(s) + [34] }

  /** JSON string encoding never shrinks its input and grows it by a factor of six at most. */
  lemma {:induction false} EscapedLength(s: Text)
    ensures |s| <= |Escaped(s)| <= 6 * |s|
    decreases |s|
  {
    if s != [] {
      var n := FirstChar(s);
      EscapedLength(s[if n == 0 then 1 else n..]);
    }
  }

  /** How many bytes an ASCII byte takes in a JSON string. */
  lemma EscapedByteSize(b: Byte)
    requires b < 0x80
    ensures |EscapedByte(b)| ==
            if b in {8, 9, 10, 12, 13, 34, 92} then 2 else if b < 32 || b in {38, 60, 62} then 6 else 1
  {
  }

  predicate Ordinary(b: Byte) { b >= 32 && b != 34 && b != 38 && b != 60 && b != 62 && b != 92 }

  /** ASCII that needs no escape is written as it is. */
  lemma {:induction false} OrdinaryIsKept(s: Text)
    requires forall i :: 0 <= i < |s| ==> Ordinary(s[i]) && s[i] < 0x80
    ensures Escaped(s) == s
  {
    if s != [] {
      assert FirstChar(s) == 1 && s[..1] == [s[0]];
      OrdinaryIsKept(s[1..]);
      assert s == [s[0]] + s[1..];
    }
  }

  lemma CharIsSafe(c: Text)
    requires c != [] && IsChar(c, |c|)
    ensures forall b :: b in EscapedChar(c) ==> b >= 32 && b != 38 && b != 60 && b != 62
  {
    if |c| > 1 {
      assert forall i :: 0 <= i < |c| ==> c[i] >= 0x80;
    }
  }

  /** Whatever is written, there is no control byte in it, nor any of the three that HTML would read. */
  lemma {:induction false} EscapedIsSafe(s: Text)
    ensures forall b :: b in Escaped(s) ==> b >= 32 && b != 38 && b != 60 && b != 62
    decreases |s|
  {
    if s != [] {
      var n := FirstChar(s);
      if n == 0 {
        EscapedIsSafe(s[1..]);
      } else {
        assert IsChar(s[..n], n);
        CharIsSafe(s[..n]);
        EscapedIsSafe(s[n..]);
      }
    }
  }

  /** The two line separators that JavaScript does not take in a string are written as escapes. */
  lemma SeparatorsAreEscaped()
    ensures EscapedChar([0xE2, 0x80, 0xA8]) == Hexed(0xA8) && EscapedChar([0xE2, 0x80, 0xA9]) == Hexed(0xA9)
    ensures forall c: Text :: |c| == 3 && c[0] >= 0x80 && EscapedChar(c) != c ==>
              c == [0xE2, 0x80, 0xA8] || c == [0xE2, 0x80, 0xA9]
  {
  }

  /** The escape of U+20xx */
  function Hexed(low: Byte): Text
    requires low == 0xA8 || low == 0xA9
  {
    [92, 117, 50, 48, 50, if low == 0xA8 then 56 else 57]
  }

  // ---------------------------------------------------------------- sorted keys

  predicate LexLe(a: Text, b: Text)
    decreases |a|
  {
    a == [] || (b != [] && (a[0] < b[0] || (a[0] == b[0] && LexLe(a[1..], b[1..]))))
  }

  lemma {:induction false} LexTotal(a: Text, b: Text)
    ensures LexLe(a, b) || LexLe(b, a)
    ensures LexLe(a, b) && LexLe(b, a) ==> a == b
    decreases |a|
  {
    if a != [] && b != [] {
      LexTotal(a[1..], b[1..]);
      assert a == [a[0]] + a[1..] && b == [b[0]] + b[1..];
    }
  }

  lemma {:induction false} LexTransitive(a: Text, b: Text, c: Text)
    requires LexLe(a, b) && LexLe(b, c)
    ensures LexLe(a, c)
    decreases |a|
  {
    if a != [] && a[0] == b[0] == c[0] {
      LexTransitive(a[1..], b[1..], c[1..]);
    }
  }

  ghost predicate IsLeast(k: Text, s: set<Text>) { k in s && forall j :: j in s ==> LexLe(k, j) }

  lemma {:induction false} LeastExists(s: set<Text>) returns (k: Text)
    requires s != {}
    ensures IsLeast(k, s)
    decreases |s|
  {
    var x :| x in s;
    LexTotal(x, x);
    if s == {x} {
      return x;
    }
    assert s - {x} != {};
    var y := LeastExists(s - {x});
    LexTotal(x, y);
    if LexLe(x, y) {
      forall j | j in s
        ensures LexLe(x, j)
      {
        if j != x {
          LexTransitive(x, y, j);
        }
      }
      k := x;
    } else {
      k := y;
    }
  }

  lemma LeastUnique(s: set<Text>)
    requires s != {}
    ensures exists k :: IsLeast(k, s)
    ensures forall k, l :: IsLeast(k, s) && IsLeast(l, s) ==> k == l
  {
    var k := LeastExists(s);
    forall k, l | IsLeast(k, s) && IsLeast(l, s)
      ensures k == l
    {
      LexTotal(k, l);
    }
  }

  /** sort.Strings over the elements of s */
  ghost function Sorted(s: set<Text>): (r: seq<Text>)
    ensures |r| == |s|
    ensures forall k :: k in r <==> k in s
    decreases |s|
  {
    if s == {} then []
    else
      LeastUnique(s);
      var k :| IsLeast(k, s);
      [k] + Sorted(s - {k})
  }

  lemma SortedHead(s: set<Text>)
    requires s != {}
    ensures var k := Sorted(s)[0];
            IsLeast(k, s) && Sorted(s) == [k] + Sorted(s - {k})
  {
    LeastUnique(s);
  }

  lemma SortedFrom(s: set<Text>, k: Text)
    requires IsLeast(k, s)
    ensures Sorted(s) == [k] + Sorted(s - {k})
  {
    LeastUnique(s);
  }

  ghost predicate Increasing(r: seq<Text>) {
    forall i, j :: 0 <= i < j < |r| ==> LexLe(r[i], r[j]) && r[i] != r[j]
  }

  lemma IncreasingCons(k: Text, rest: seq<Text>)
    requires Increasing(rest) && forall x :: x in rest ==> LexLe(k, x) && k != x
    ensures Increasing([k] + rest)
  {
  }

  /** The keys come in strictly increasing byte order. */
  lemma {:induction false} SortedIncreases(s: set<Text>)
    ensures Increasing(Sorted(s))
    decreases |s|
  {
    if s != {} {
      var k := Sorted(s)[0];
      SortedHead(s);
      SortedIncreases(s - {k});
      IncreasingCons(k, Sorted(s - {k}));
    }
  }

  /** One pass finds the least element of what is left. */
  method FindLeast(s: set<Text>) returns (k: Text)
    requires s != {}
    ensures IsLeast(k, s)
  {
    k :| k in s;
    LexTotal(k, k);
    var rest := s - {k};
    while rest != {}
      invariant k in s && rest <= s && k !in rest
      invariant forall j :: j in s && j !in rest ==> LexLe(k, j)
      decreases |rest|
    {
      var x :| x in rest;
      LexTotal(x, x);
      LexTotal(k, x);
      if !LexLe(k, x) {
        forall j | j in s && j !in rest
          ensures LexLe(x, j)
        {
          LexTransitive(x, k, j);
        }
        k := x;
      }
      rest := rest - {x};
    }
  }

  method SortStrings(s: set<Text>) returns (r: seq<Text>)
    ensures r == Sorted(s)
  {
    r := [];
    var rest := s;
    while rest != {}
      invariant rest <= s && r + Sorted(rest) == Sorted(s)
      decreases |rest|
    {
      var k := FindLeast(rest);
      SortedFrom(rest, k);
      assert r + ([k] + Sorted(rest - {k})) == r + [k] + Sorted(rest - {k});
      r := r + [k];
      rest := rest - {k};
    }
  }

  // ---------------------------------------------------------------- raw messages

  /** Scalar: a number, true or false. */
  datatype Value = Null | Str(text: Text) | Scalar | Arr(items: seq<Raw>) | Obj(fields: map<Text, Raw>)

  /** json.RawMessage: its bytes, and the value they encode. */
  datatype Raw = Raw(bytes: Text, value: Value)

  /** What json.Marshal makes of a string: ill-formed bytes come back as U+FFFD. */
  function RawString(s: Text): Raw { Raw(Quoted(s), Str(Sanitized(s))) }

  const EMPTY_ARRAY := Raw(Ascii("[]"), Arr([]))

  predicate IsContainer(raw: Raw) { raw.value.Arr? || raw.value.Obj? }

  ghost function Entries(keys: seq<Text>, m: map<Text, Raw>): Text
    requires forall k :: k in keys ==> k in m
  {
    if keys == [] then []
    else
      Quoted(keys[0]) + [58] + m[keys[0]].bytes
      + (if |keys| == 1 then [] else [44] + Entries(keys[1..], m))
  }

  /** json.Marshal of a map of raw messages. */
  ghost function EncodedObject(m: map<Text, Raw>): Text {
    [123] + Entries(Sorted(m.Keys), m) + [125]
  }

  lemma SortedPair(a: Text, b: Text)
    requires LexLe(a, b) && a != b
    ensures Sorted({a, b}) == [a, b]
  {
    LexTotal(a, a);
    LexTotal(b, b);
    SortedFrom({a, b}, a);
    assert {a, b} - {a} == {b};
    SortedFrom({b}, b);
    assert {b} - {b} == {};
  }

  /** Two entries as they are written: in braces, in the order of their keys, with a colon and a comma. */
  lemma PairIsWritten(a: Text, x: Raw, b: Text, y: Raw)
    requires LexLe(a, b) && a != b
    ensures EncodedObject(map[a := x, b := y]) ==
            [123] + (Quoted(a) + [58] + x.bytes + ([44] + (Quoted(b) + [58] + y.bytes))) + [125]
  {
    var m := map[a := x, b := y];
    SortedPair(a, b);
    assert m.Keys == {a, b};
    assert [a, b][1..] == [b];
    assert Entries([b], m) == Quoted(b) + [58] + y.bytes + [];
    assert Quoted(b) + [58] + y.bytes + [] == Quoted(b) + [58] + y.bytes;
  }

  method EncodeObject(m: map<Text, Raw>) returns (text: Text)
    ensures text == EncodedObject(m)
  {
    var keys := SortStrings(m.Keys);
    var i := |keys|;
    var entries: Text := [];
    while i > 0
      invariant 0 <= i <= |keys| && entries == Entries(keys[i..], m)
    {
      i := i - 1;
      assert keys[i..][1..] == keys[i + 1..];
      entries := Quoted(keys[i]) + [58] + m[keys[i]].bytes + (if i + 1 == |keys| then [] else [44] + entries);
    }
    assert keys[0..] == keys;
    text := [123] + entries + [125];
  }

  /** n times a, without a product in the proofs by induction. */
  ghost function Times(a: nat, n: nat): nat { if n == 0 then 0 else a + Times(a, n - 1) }

  lemma {:induction false} TimesMonotone(a: nat, n: nat, k: nat)
    requires n <= k
    ensures Times(a, n) <= Times(a, k)
  {
    if n < k {
      TimesMonotone(a, n, k - 1);
    }
  }

  /** A bound on the encoded size of an entry. */
  function EntrySize(k: Text, raw: Raw): nat { 6 * |k| + 3 + |raw.bytes| }

  ghost predicate Bounded(m: map<Text, Raw>, bound: nat) { forall k :: k in m ==> EntrySize(k, m[k]) <= bound }

  lemma EntryLength(k: Text, raw: Raw)
    ensures |Quoted(k) + [58] + raw.bytes| <= EntrySize(k, raw)
  {
    EscapedLength(k);
  }

  lemma {:induction false} EntriesLength(keys: seq<Text>, m: map<Text, Raw>, bound: nat)
    requires Bounded(m, bound) && forall k :: k in keys ==> k in m
    ensures |Entries(keys, m)| <= Times(bound + 1, |keys|)
  {
    if keys != [] {
      EntryLength(keys[0], m[keys[0]]);
      EntriesLength(keys[1..], m, bound);
    }
  }

  /** An object of at most `count` entries, each of at most `bound` bytes. */
  lemma EncodedLength(m: map<Text, Raw>, bound: nat, count: nat)
    requires |m| <= count && Bounded(m, bound)
    ensures |EncodedObject(m)| <= 2 + Times(bound + 1, count)
  {
    EntriesLength(Sorted(m.Keys), m, bound);
    TimesMonotone(bound + 1, |m.Keys|, count);
  }
}
