/**
 Clipping text to a byte budget, and the `warning` field that carries a run's own text and the notes that
 the bounding tiers append to it.
 */
module TextTruncation {
  import opened Bytes
  import opened Utf8

  /** U+2026 */
  const ELLIPSIS: Text := [0xE2, 0x80, 0xA6]

  function Explanation(dropped: int): Text {
    Ascii(" (+") + Printed(dropped) + Ascii(" bytes truncated)")
  }

  function Suffix(dropped: int): Text { ELLIPSIS + Explanation(dropped) }

  /** The last position up to max at which a rune may start, or 0. */
  function Cut(s: Text, max: nat): (cut: nat)
    requires max < |s|
    ensures cut <= max && (cut > 0 ==> StartsRune(s[cut]))
    ensures forall k :: cut < k <= max ==> !StartsRune(s[k])
  {
    if max == 0 || StartsRune(s[max]) then max else Cut(s, max - 1)
  }

  function Dropped(s: Text, max: nat): nat { if |s| <= max then 0 else |s| - max }

  function Truncated(s: Text, max: nat): Text {
    if |s| <= max then s else s[..Cut(s, max)] + Suffix(|s| - max)
  }

  method TruncateText(s: Text, max: nat) returns (t: Text, dropped: nat)
    ensures t == Truncated(s, max) && dropped == Dropped(s, max)
  {
    if |s| <= max {
      return s, 0;
    }
    dropped := |s| - max;
    var cut := max;
    while cut > 0 && !StartsRune(s[cut])
      invariant 0 <= cut <= max && Cut(s, cut) == Cut(s, max)
    {
      cut := cut - 1;
    }
    t := s[..cut] + Suffix(dropped);
  }

  /** The widest suffix has 42 bytes for every length that fits a Go int. */
  lemma SuffixLength(dropped: int)
    ensures 24 <= |Suffix(dropped)| <= 43
    ensures 0 <= dropped <= MAX_INT ==> |Suffix(dropped)| <= 42
  {
    PrintedLength(dropped);
  }

  lemma SuffixStart(dropped: int)
    ensures Suffix(dropped) != [] && Suffix(dropped)[0] == 0xE2
  {
  }

  lemma PrintableAround(a: Text, b: Text, c: Text)
    requires Printable(a) && Printable(b) && Printable(c)
    ensures Printable(a + b + c)
  {
    PrintableConcat(a, b);
    PrintableConcat(a + b, c);
  }

  lemma WordsPrintable()
    ensures Printable(Ascii(" (+")) && Printable(Ascii(" bytes truncated)"))
  {
    PrintableAscii(" (+");
    PrintableAscii(" bytes truncated)");
  }

  /** The words of the mark contain neither a colon nor a bracket. */
  lemma WordsLack(b: Byte)
    requires b == 58 || b == 91
    ensures b !in Ascii(" (+") && b !in Ascii(" bytes truncated)")
  {
    AsciiLacks(" (+", b);
    AsciiLacks(" bytes truncated)", b);
  }

  lemma ExplanationPrintable(dropped: int)
    ensures Printable(Explanation(dropped))
  {
    PrintedPrintable(dropped);
    WordsPrintable();
    PrintableAround(Ascii(" (+"), Printed(dropped), Ascii(" bytes truncated)"));
  }

  lemma EllipsisValid()
    ensures Valid(ELLIPSIS)
  {
    ReadChar(ELLIPSIS, 3);
    assert ELLIPSIS[..3] == ELLIPSIS;
  }

  lemma SuffixValid(dropped: int)
    ensures Valid(Suffix(dropped))
  {
    ExplanationPrintable(dropped);
    PrintableValid(Explanation(dropped));
    EllipsisValid();
    ValidConcat(ELLIPSIS, Explanation(dropped));
  }

  /** Clipping keeps a prefix of the input, overshoots the cap by the suffix at most, and keeps UTF-8 valid. */
  lemma TruncatedIsBounded(s: Text, max: nat)
    ensures |Truncated(s, max)| <= max + 43
    ensures |s| <= MAX_INT ==> |Truncated(s, max)| <= max + 42
    ensures |s| > max ==> Truncated(s, max) == s[..Cut(s, max)] + Suffix(|s| - max)
    ensures Valid(s) ==> Valid(Truncated(s, max))
  {
    if |s| > max {
      SuffixLength(|s| - max);
      SuffixValid(|s| - max);
      if Valid(s) {
        if Cut(s, max) > 0 {
          CutBeforeRune(s, Cut(s, max));
        }
        ValidConcat(s[..Cut(s, max)], Suffix(|s| - max));
      }
    }
  }

  /** No character has four continuation bytes. */
  lemma FourTails(s: Text)
    requires |s| >= 5 && forall i :: 1 <= i <= 4 ==> !StartsRune(s[i])
    ensures !Valid(s)
  {
    assert s == s[0..];
    ReadStep(Start, s, 0);
    var q1 := Next(Start, s[0]);
    ReadStep(q1, s, 1);
    var q2 := Next(q1, s[1]);
    assert q2.Start? || q2.One? || q2.Two? || q2.Bad?;
    ReadStep(q2, s, 2);
    var q3 := Next(q2, s[2]);
    assert q3.Start? || q3.One? || q3.Bad?;
    ReadStep(q3, s, 3);
    var q4 := Next(q3, s[3]);
    assert q4.Start? || q4.Bad?;
    ReadStep(q4, s, 4);
    ReadBad(s[5..]);
  }

  /** On valid UTF-8 the back-off gives up less than one rune. */
  lemma CutLosesLessThanARune(s: Text, max: nat)
    requires Valid(s) && max < |s|
    ensures max - 3 <= Cut(s, max)
  {
    var c := Cut(s, max);
    if c > 0 {
      CutBeforeRune(s, c);
    }
    assert s == s[..c] + s[c..];
    ReadConcat(Start, s[..c], s[c..]);
    assert Valid(s[c..]);
    if c + 4 <= max {
      FourTails(s[c..]);
    }
  }

  /** A prefix p that ends where a rune starts survives any further clipping to a cap of at least |p|. */
  lemma KeptPrefixSurvives(p: Text, rest: Text, max: nat)
    requires |p| <= max && (rest != [] ==> StartsRune(rest[0]))
    ensures |p| <= |Truncated(p + rest, max)| && Truncated(p + rest, max)[..|p|] == p
    ensures |p| < |Truncated(p + rest, max)| ==> StartsRune(Truncated(p + rest, max)[|p|])
  {
    var s := p + rest;
    if |s| > max {
      var c := Cut(s, max);
      assert |p| < |s| && StartsRune(s[|p|]);
    }
  }

  /** Clipping twice keeps everything the first clipping kept. */
  lemma ClippedTwiceKeeps(s: Text, max: nat)
    requires |s| > max
    ensures StartsWith(Truncated(Truncated(s, max), max), s[..Cut(s, max)])
  {
    SuffixStart(|s| - max);
    KeptPrefixSurvives(s[..Cut(s, max)], Suffix(|s| - max), max);
  }

  lemma TruncatedEnd(s: Text, max: nat)
    requires |s| > max
    ensures EndsWith(Truncated(s, max), Suffix(|s| - max))
  {
    EndsWithPart(s[..Cut(s, max)], Suffix(|s| - max));
  }

  /** It fires again exactly when the kept prefix and the suffix together exceed the cap, and then the number
      of dropped bytes that it reports counts only what the second clipping removed. */
  lemma ClippedTwiceReports(s: Text, max: nat)
    requires |s| > max
    ensures var once := Truncated(s, max);
            && (Dropped(once, max) > 0 <==> Cut(s, max) + |Suffix(|s| - max)| > max)
            && (Dropped(once, max) > 0 ==> EndsWith(Truncated(once, max), Suffix(|once| - max)))
            && |once| - max <= 43
  {
    var once := Truncated(s, max);
    TruncatedIsBounded(s, max);
    assert |once| == Cut(s, max) + |Suffix(|s| - max)|;
    if |once| > max {
      TruncatedEnd(once, max);
    }
  }
}

module ResultWarning {
  import opened Bytes
  import opened Utf8
  import opened TextTruncation

  const MAX_RESULT_TEXT := 8 * 1024
  const MAX_RESULT_NOTE := 512
  const MAX_RESULT_NOTES := 4 * 1024
  const MAX_TRUNCATION_SUFFIX := 48
  const MAX_WARNING_TEXT := MAX_RESULT_TEXT - MAX_RESULT_NOTES - 2 * MAX_TRUNCATION_SUFFIX - 13

  const LABEL: Text := Ascii("bounded: ")
  const MARKER: Text := Ascii(" || bounded: ")
  const NEUTRAL_LABEL: Text := Ascii("bounded : ")
  const SEPARATOR: Text := Ascii("; ")

  /** strings.ReplaceAll(s, LABEL, NEUTRAL_LABEL) */
  function Neutralized(s: Text): Text {
    if s == [] then []
    else if StartsWith(s, LABEL) then NEUTRAL_LABEL + Neutralized(s[|LABEL|..])
    else [s[0]] + Neutralized(s[1..])
  }

  /** strings.Index from position i on: the first occurrence of t in s, or -1. */
  function IndexFrom(s: Text, t: Text, i: nat): (k: int)
    requires i <= |s|
    ensures k == -1 || (i <= k && OccursAt(s, t, k))
    ensures forall j :: i <= j && (k == -1 || j < k) ==> !OccursAt(s, t, j)
    decreases |s| - i
  {
    if OccursAt(s, t, i) then i else if i == |s| then -1 else IndexFrom(s, t, i + 1)
  }

  function Split(warning: Text): (Text, Text) {
    var i := IndexFrom(warning, MARKER, 0);
    if i >= 0 then (warning[..i], warning[i + |MARKER|..])
    else if StartsWith(warning, LABEL) then ([], warning[|LABEL|..])
    else (warning, [])
  }

  function ClampedText(text: Text): Text { Truncated(Neutralized(text), MAX_WARNING_TEXT) }

  function ClampedNotes(notes: Text): Text { Truncated(notes, MAX_RESULT_NOTES) }

  function ClampedNote(fragment: Text): Text { Truncated(fragment, MAX_RESULT_NOTE) }

  function Compose(text: Text, notes: Text): Text {
    var t, n := ClampedText(text), ClampedNotes(notes);
    if n == [] then t else if t == [] then LABEL + n else t + MARKER + n
  }

  /** The notes with one more, itself clamped first. */
  function Extended(notes: Text, f: Text): Text {
    if notes == [] then ClampedNote(f) else notes + SEPARATOR + ClampedNote(f)
  }

  function Append(warning: Text, fragment: Text): Text {
    var (text, notes) := Split(warning);
    Compose(text, Extended(notes, fragment))
  }

  // ---------------------------------------------------------------- the budget is total

  lemma ComposedFits(text: Text, notes: Text)
    ensures |Compose(text, notes)| <= MAX_RESULT_TEXT
  {
    TruncatedIsBounded(Neutralized(text), MAX_WARNING_TEXT);
    TruncatedIsBounded(notes, MAX_RESULT_NOTES);
  }

  // ---------------------------------------------------------------- the label

  ghost predicate Free(s: Text, t: Text) { forall i :: !OccursAt(s, t, i) }

  lemma FreeWithout(s: Text, t: Text, b: Byte)
    requires b in t && b !in s
    ensures Free(s, t)
  {
    var k :| 0 <= k < |t| && t[k] == b;
    forall i
      ensures !OccursAt(s, t, i)
    {
      if 0 <= i && i + |t| <= |s| {
        assert s[i + k] in s;
      }
    }
  }

  /** No occurrence straddles a byte that the pattern lacks. */
  lemma FreeAcross(a: Text, b: Text, t: Text)
    requires Free(a, t) && Free(b, t) && t != []
    requires (b != [] && b[0] !in t) || (a != [] && a[|a| - 1] !in t)
    ensures Free(a + b, t)
  {
    forall i
      ensures !OccursAt(a + b, t, i)
    {
      if i + |t| <= |a| {
        assert OccursAt(a + b, t, i) ==> OccursAt(a, t, i);
      } else if i >= |a| {
        assert OccursAt(a + b, t, i) ==> OccursAt(b, t, i - |a|);
      } else if 0 <= i && i + |t| <= |a + b| {
        assert t[|a| - i] in t && (a + b)[|a|] == b[0];
        assert t[|a| - 1 - i] in t && (a + b)[|a| - 1] == a[|a| - 1];
      }
    }
  }

  lemma FreePrefix(s: Text, t: Text, n: nat)
    requires Free(s, t) && n <= |s|
    ensures Free(s[..n], t)
  {
    assert forall i :: OccursAt(s[..n], t, i) ==> OccursAt(s, t, i);
  }

  /** Rewriting produces no proper tail of the label that was not there. */
  lemma {:induction false} TailsKept(s: Text, k: nat)
    requires 1 <= k <= |LABEL|
    ensures StartsWith(Neutralized(s), LABEL[k..]) ==> StartsWith(s, LABEL[k..])
    decreases |s|
  {
    if s != [] && k < |LABEL| {
      if StartsWith(s, LABEL) {
        assert Neutralized(s)[0] == NEUTRAL_LABEL[0] != LABEL[k..][0];
      } else {
        TailsKept(s[1..], k + 1);
        assert LABEL[k + 1..] == LABEL[k..][1..];
      }
    }
  }

  lemma NeutralHeadFree(rest: Text, i: nat)
    requires i < |NEUTRAL_LABEL|
    ensures !OccursAt(NEUTRAL_LABEL + rest, LABEL, i)
  {
    var s := NEUTRAL_LABEL + rest;
    if i == 0 {
      assert s[7] == NEUTRAL_LABEL[7] != LABEL[7];
    } else {
      assert s[i] == NEUTRAL_LABEL[i] != LABEL[0];
    }
  }

  /** Neutralising leaves no label behind, neither an old one nor one made by the rewriting. */
  lemma {:induction false} NeutralizedIsFree(s: Text)
    ensures Free(Neutralized(s), LABEL)
    decreases |s|
  {
    var n := Neutralized(s);
    if s == [] {
    } else if StartsWith(s, LABEL) {
      var rest := Neutralized(s[|LABEL|..]);
      NeutralizedIsFree(s[|LABEL|..]);
      forall i
        ensures !OccursAt(n, LABEL, i)
      {
        if 0 <= i < |NEUTRAL_LABEL| {
          NeutralHeadFree(rest, i);
        } else {
          assert OccursAt(n, LABEL, i) ==> OccursAt(rest, LABEL, i - |NEUTRAL_LABEL|);
        }
      }
    } else {
      var rest := Neutralized(s[1..]);
      NeutralizedIsFree(s[1..]);
      TailsKept(s[1..], 1);
      assert OccursAt(n, LABEL, 0) ==> StartsWith(rest, LABEL[1..]);
      assert StartsWith(s[1..], LABEL[1..]) && s[0] == LABEL[0] ==> StartsWith(s, LABEL);
      forall i
        ensures !OccursAt(n, LABEL, i)
      {
        assert i != 0 && OccursAt(n, LABEL, i) ==> OccursAt(rest, LABEL, i - 1);
      }
    }
  }

  lemma FreeBeforeEllipsis(a: Text, b: Text)
    requires Free(a, LABEL) && Free(b, LABEL) && b != [] && b[0] == 0xE2
    ensures Free(a + b, LABEL)
  {
    AsciiLacks("bounded: ", 0xE2);
    FreeAcross(a, b, LABEL);
  }

  /** Clipping makes no label either: the suffix starts with a byte that no label contains. */
  lemma TruncatedIsFree(s: Text, max: nat)
    requires Free(s, LABEL)
    ensures Free(Truncated(s, max), LABEL)
  {
    if |s| > max {
      FreePrefix(s, LABEL, Cut(s, max));
      SuffixIsFree(|s| - max);
      SuffixStart(|s| - max);
      FreeBeforeEllipsis(s[..Cut(s, max)], Suffix(|s| - max));
    }
  }

  lemma LacksAround(a: Text, b: Text, c: Text, x: Byte)
    requires x !in a && x !in b && x !in c
    ensures x !in a + b + c
  {
    LacksConcat(a, b, x);
    LacksConcat(a + b, c, x);
  }

  lemma PrintedLacks(n: int, b: Byte)
    requires b == 58 || b == 91
    ensures b !in Printed(n)
  {
    PrintedBytes(n);
  }

  lemma ExplanationLacks(dropped: int, b: Byte)
    requires b == 58 || b == 91
    ensures b !in Explanation(dropped)
  {
    PrintedLacks(dropped, b);
    WordsLack(b);
    LacksAround(Ascii(" (+"), Printed(dropped), Ascii(" bytes truncated)"), b);
  }

  lemma SuffixLacks(dropped: int, b: Byte)
    requires b == 58 || b == 91
    ensures b !in Suffix(dropped)
  {
    ExplanationLacks(dropped, b);
    LacksConcat(ELLIPSIS, Explanation(dropped), b);
  }

  lemma SuffixIsFree(dropped: int)
    ensures Free(Suffix(dropped), LABEL)
  {
    SuffixLacks(dropped, 58);
    assert LABEL[7] == 58;
    FreeWithout(Suffix(dropped), LABEL, 58);
  }

  // ---------------------------------------------------------------- the round trip

  /** The one byte on which the marker overlaps itself is its outer space, so a text can swallow the marker's
      first byte only by ending in the marker's other twelve. */
  predicate Swallows(text: Text) { OccursAt(text, MARKER[..12], |text| - 12) }

  lemma MarkerBorder(d: nat)
    requires 1 <= d <= 12 && forall k :: 0 <= k < 13 - d ==> MARKER[k] == MARKER[d + k]
    ensures d == 12
  {
    assert MARKER[0] == MARKER[d + 0];
    assert d == 3 || d == 12;
    assert MARKER[1] != MARKER[4];
  }

  /** The marker found first starts at the boundary, or twelve bytes before it when the text swallows. */
  lemma MarkerFoundAt(t: Text, n: Text, i: nat)
    requires Free(t, LABEL) && OccursAt(t + MARKER + n, MARKER, i) && i <= |t|
    ensures i == |t| || (i + 12 == |t| && Swallows(t))
  {
    var w := t + MARKER + n;
    assert forall k :: 0 <= k < |LABEL| ==> LABEL[k] == MARKER[4 + k];
    assert i + 13 <= |t| ==> OccursAt(t, LABEL, i + 4);
    var d := |t| - i;
    if d != 0 {
      forall k | 0 <= k < 13 - d
        ensures MARKER[k] == MARKER[d + k]
      {
        assert MARKER[d + k] == w[i + (d + k)] == w[|t| + k];
      }
      MarkerBorder(d);
      assert forall k :: 0 <= k < 12 ==> MARKER[k] == w[i + k];
    }
  }

  lemma ClampedTextIsFree(text: Text)
    ensures Free(ClampedText(text), LABEL)
  {
    NeutralizedIsFree(text);
    TruncatedIsFree(Neutralized(text), MAX_WARNING_TEXT);
  }

  lemma MarkerNeedsLabel(s: Text)
    requires Free(s, LABEL)
    ensures Free(s, MARKER)
  {
    assert forall k :: 0 <= k < |LABEL| ==> LABEL[k] == MARKER[4 + k];
    assert forall i :: OccursAt(s, MARKER, i) ==> OccursAt(s, LABEL, i + 4);
  }

  lemma SplitOfText(t: Text)
    requires Free(t, LABEL)
    ensures Split(t) == (t, [])
  {
    MarkerNeedsLabel(t);
    assert !OccursAt(t, LABEL, 0);
  }

  lemma MarkerAtBoundary(t: Text, n: Text)
    ensures OccursAt(t + MARKER + n, MARKER, |t|)
    ensures Swallows(t) ==> OccursAt(t + MARKER + n, MARKER, |t| - 12)
  {
    var w := t + MARKER + n;
    if Swallows(t) {
      forall k | 0 <= k < |MARKER|
        ensures MARKER[k] == w[|t| - 12 + k]
      {
        if k < 12 {
          assert MARKER[..12][k] == t[|t| - 12 + k];
        } else {
          assert w[|t|] == MARKER[0] == MARKER[12];
        }
      }
    }
  }

  /** With text and notes, splitting undoes composing exactly when the text does not swallow. */
  lemma SplitOfBoth(t: Text, n: Text)
    requires Free(t, LABEL) && t != [] && n != []
    ensures Split(t + MARKER + n) == if Swallows(t) then (t[..|t| - 12], MARKER[1..] + n) else (t, n)
  {
    var w := t + MARKER + n;
    MarkerAtBoundary(t, n);
    var i := IndexFrom(w, MARKER, 0);
    MarkerFoundAt(t, n, i);
    if Swallows(t) {
      assert i == |t| - 12;
      assert w[..i] == t[..|t| - 12];
      assert w[i + |MARKER|..] == MARKER[1..] + n;
    } else {
      assert w[..i] == t && w[i + |MARKER|..] == n;
    }
  }

  /** With notes only, it does so exactly when they do not complete a marker behind the label. */
  lemma SplitOfNotes(n: Text)
    requires n != []
    ensures Split(LABEL + n) == ([], n) <==> Free(LABEL + n, MARKER)
  {
    var w := LABEL + n;
    assert w[|LABEL|..] == n;
    assert StartsWith(w, LABEL);
    var i := IndexFrom(w, MARKER, 0);
    if i >= 0 {
      assert |w[i + |MARKER|..]| < |n|;
    }
  }

  /** What a caller can check: the clamped text does not end in the marker's first twelve bytes and, when it
      is empty, the clamped notes contain no marker behind the label. */
  ghost predicate Separable(text: Text, notes: Text) {
    if ClampedNotes(notes) == [] then true
    else if ClampedText(text) == [] then Free(LABEL + ClampedNotes(notes), MARKER)
    else !Swallows(ClampedText(text))
  }

  /** Splitting gives back the clamped text and the clamped notes if and only if they are separable. */
  lemma RoundTripIff(text: Text, notes: Text)
    ensures Split(Compose(text, notes)) == (ClampedText(text), ClampedNotes(notes)) <==> Separable(text, notes)
  {
    var t, n := ClampedText(text), ClampedNotes(notes);
    ClampedTextIsFree(text);
    if n == [] {
      SplitOfText(t);
    } else if t == [] {
      SplitOfNotes(n);
    } else {
      SplitOfBoth(t, n);
    }
  }

  lemma LabelFreeNotes(n: Text)
    requires Free(n, LABEL)
    ensures Free(LABEL + n, MARKER)
  {
    var w := LABEL + n;
    assert forall k :: 0 <= k < |LABEL| ==> LABEL[k] == MARKER[4 + k];
    forall i
      ensures !OccursAt(w, MARKER, i)
    {
      if i >= 5 {
        assert OccursAt(w, MARKER, i) ==> OccursAt(n, LABEL, i - 5);
      } else if 0 <= i {
        assert w[i + 4] == LABEL[i + 4] != MARKER[4];
      }
    }
  }

  /** For notes without the label the only exception is a text that swallows. */
  lemma RoundTrip(text: Text, notes: Text)
    requires Free(notes, LABEL) && !Swallows(ClampedText(text))
    ensures Split(Compose(text, notes)) == (ClampedText(text), ClampedNotes(notes))
  {
    TruncatedIsFree(notes, MAX_RESULT_NOTES);
    LabelFreeNotes(ClampedNotes(notes));
    RoundTripIff(text, notes);
  }

  /** The exception is real: a run text of the marker's first twelve bytes is read back as a note. */
  lemma SwallowedMarker(notes: Text)
    requires notes != [] && |notes| <= MAX_RESULT_NOTES
    ensures Split(Compose(MARKER[..12], notes)) == ([], MARKER[1..] + notes)
  {
    var text := MARKER[..12];
    forall i
      ensures !OccursAt(text, LABEL, i)
    {
      if 0 <= i <= 3 {
        assert text[i] == MARKER[i] != LABEL[0];
      }
    }
    NeutralizedSame(text);
    SplitOfBoth(text, notes);
    assert text[..0] == [];
  }

  lemma {:induction false} NeutralizedSame(s: Text)
    requires Free(s, LABEL)
    ensures Neutralized(s) == s
  {
    if s != [] {
      assert !OccursAt(s, LABEL, 0);
      assert forall i :: OccursAt(s[1..], LABEL, i) ==> OccursAt(s, LABEL, i + 1);
      NeutralizedSame(s[1..]);
    }
  }

  // ---------------------------------------------------------------- no note is ever evicted

  /** Every marker in p + j ends inside p, whatever p is. */
  ghost predicate Unsplittable(j: Text) {
    j != [] && Free(j, MARKER) && forall k :: 0 <= k < |MARKER| ==> !StartsWith(j, MARKER[k..])
  }

  lemma MarkerPosition(p: Text, j: Text, i: nat)
    requires OccursAt(p + j, MARKER, i)
    ensures || i + |MARKER| <= |p|
            || OccursAt(j, MARKER, i - |p|)
            || (i < |p| < i + |MARKER| && StartsWith(j, MARKER[|p| - i..]))
  {
    if i < |p| < i + |MARKER| {
      forall k | 0 <= k < |MARKER[|p| - i..]|
        ensures MARKER[|p| - i..][k] == j[k]
      {
        assert MARKER[|p| - i + k] == (p + j)[i + (|p| - i + k)];
      }
    } else if i >= |p| {
      assert forall k :: 0 <= k < |MARKER| ==> MARKER[k] == (p + j)[i + k] == j[i - |p| + k];
    }
  }

  lemma SplitKeepsTail(p: Text, j: Text)
    requires Unsplittable(j)
    requires StartsWith(p, LABEL) || exists i :: OccursAt(p, MARKER, i)
    ensures EndsWith(Split(p + j).1, j)
  {
    var w := p + j;
    var i := IndexFrom(w, MARKER, 0);
    if i >= 0 {
      MarkerPosition(p, j, i);
      assert w[i + |MARKER|..] == p[i + |MARKER|..] + j;
      EndsWithPart(p[i + |MARKER|..], j);
    } else {
      assert forall l :: OccursAt(p, MARKER, l) ==> OccursAt(w, MARKER, l);
      assert StartsWith(w, LABEL);
      assert w[|LABEL|..] == p[|LABEL|..] + j;
      EndsWithPart(p[|LABEL|..], j);
    }
  }

  /** Composing and splitting keeps an unsplittable tail of the notes, for every text; a text that swallows
      the marker lengthens the notes by twelve bytes at most. */
  lemma ComposeKeepsTail(text: Text, n: Text, j: Text)
    requires Unsplittable(j) && EndsWith(n, j) && |n| <= MAX_RESULT_NOTES
    ensures EndsWith(Split(Compose(text, n)).1, j)
    ensures |Split(Compose(text, n)).1| <= |n| + 12
  {
    var t := ClampedText(text);
    var g := n[..|n| - |j|];
    assert n == g + j;
    ClampedTextIsFree(text);
    if t == [] {
      assert LABEL + n == (LABEL + g) + j;
      SplitKeepsTail(LABEL + g, j);
      assert |Split(LABEL + n).1| <= |n|;
    } else {
      MarkerAtBoundary(t, g);
      assert t + MARKER + n == (t + MARKER + g) + j;
      SplitKeepsTail(t + MARKER + g, j);
      SplitOfBoth(t, n);
    }
  }

  /** A fragment as the tiers write it: free of the label, with an ASCII head that continues no marker. */
  ghost predicate CleanNote(f: Text) {
    && Free(f, LABEL)
    && |f| > |MARKER|
    && (forall i :: 0 <= i <= |MARKER| ==> StartsRune(f[i]))
    && forall k :: 0 <= k < |MARKER| ==> !StartsWith(f, MARKER[k..])
  }

  function Clamps(ns: seq<Text>): seq<Text> { seq(|ns|, i requires 0 <= i < |ns| => ClampedNote(ns[i])) }

  /** The notes as they are to be read at the end of the warning. */
  function Joined(ns: seq<Text>): Text { Join(Clamps(ns), SEPARATOR) }

  lemma JoinedMore(ns: seq<Text>, f: Text)
    ensures Joined(ns + [f]) == if ns == [] then ClampedNote(f) else Joined(ns) + SEPARATOR + ClampedNote(f)
  {
    var c := Clamps(ns + [f]);
    assert c[..|c| - 1] == Clamps(ns);
    assert c[|c| - 1] == ClampedNote(f);
  }

  predicate SameHead(a: Text, b: Text) {
    |MARKER| <= |a| && |MARKER| <= |b| && forall l :: 0 <= l < |MARKER| ==> a[l] == b[l]
  }

  lemma ClampedNoteHead(f: Text)
    requires CleanNote(f)
    ensures SameHead(ClampedNote(f), f)
    ensures Free(ClampedNote(f), LABEL) && |ClampedNote(f)| <= MAX_RESULT_NOTE + 43
  {
    TruncatedIsFree(f, MAX_RESULT_NOTE);
    TruncatedIsBounded(f, MAX_RESULT_NOTE);
    if |f| > MAX_RESULT_NOTE {
      assert StartsRune(f[|MARKER|]);
    }
  }

  /** A two-byte separator whose first byte is foreign to the label, and whose second does not start it. */
  lemma FreeAfterSeparator(j: Text, separator: Text, c: Text)
    requires Free(j, LABEL) && Free(c, LABEL)
    requires |separator| == 2 && separator[0] !in LABEL && separator[1] != LABEL[0]
    ensures Free(j + separator + c, LABEL)
  {
    var x := separator + c;
    forall i
      ensures !OccursAt(x, LABEL, i)
    {
      assert LABEL[0] in LABEL;
      assert i >= 2 && OccursAt(x, LABEL, i) ==> OccursAt(c, LABEL, i - 2);
    }
    FreeAcross(j, x, LABEL);
    assert j + separator + c == j + x;
  }

  lemma OneMoreIsFree(j: Text, c: Text, head: Text)
    requires Free(j, LABEL) && SameHead(j, head) && Free(c, LABEL)
    ensures Free(j + SEPARATOR + c, LABEL) && SameHead(j + SEPARATOR + c, head)
  {
    AsciiLacks("bounded: ", 59);
    FreeAfterSeparator(j, SEPARATOR, c);
  }

  lemma {:induction false} JoinedIsFree(ns: seq<Text>)
    requires ns != [] && forall f :: f in ns ==> CleanNote(f)
    ensures Free(Joined(ns), LABEL) && SameHead(Joined(ns), ns[0])
  {
    var init, f := ns[..|ns| - 1], ns[|ns| - 1];
    assert ns == init + [f];
    JoinedMore(init, f);
    ClampedNoteHead(f);
    if init != [] {
      JoinedIsFree(init);
      OneMoreIsFree(Joined(init), ClampedNote(f), ns[0]);
    }
  }

  lemma SameHeadUnsplittable(j: Text, f: Text)
    requires Free(j, MARKER) && SameHead(j, f) && CleanNote(f)
    ensures Unsplittable(j)
  {
    assert forall t: Text :: |t| <= |MARKER| && StartsWith(j, t) ==> StartsWith(f, t);
  }

  lemma JoinedIsUnsplittable(ns: seq<Text>)
    requires ns != [] && forall f :: f in ns ==> CleanNote(f)
    ensures Free(Joined(ns), LABEL)
    ensures SameHead(Joined(ns), ns[0])
    ensures Unsplittable(Joined(ns))
  {
    JoinedIsFree(ns);
    MarkerNeedsLabel(Joined(ns));
    SameHeadUnsplittable(Joined(ns), ns[0]);
  }

  /** The warning ends with these notes, each clamped to its own cap only, in this order. */
  ghost predicate Carries(warning: Text, ns: seq<Text>) {
    && (forall f :: f in ns ==> CleanNote(f))
    && EndsWith(Split(warning).1, Joined(ns))
    && |Split(warning).1| <= (MAX_RESULT_NOTE + 43 + 2 + 12) * |ns|
  }

  /** A warning without notes carries the empty list. */
  lemma PlainCarriesNothing(text: Text)
    requires Free(text, LABEL)
    ensures Carries(text, [])
  {
    SplitOfText(text);
  }

  lemma JoinedNonEmpty(ns: seq<Text>)
    requires ns != [] && forall f :: f in ns ==> CleanNote(f)
    ensures Joined(ns) != []
  {
    JoinedIsUnsplittable(ns);
  }

  lemma ExtendedEndsWith(notes: Text, ns: seq<Text>, f: Text)
    requires forall g :: g in ns + [f] ==> CleanNote(g)
    requires EndsWith(notes, Joined(ns)) && (ns == [] ==> notes == [])
    ensures EndsWith(Extended(notes, f), Joined(ns + [f]))
  {
    JoinedMore(ns, f);
    if ns != [] {
      assert forall g :: g in ns ==> g in ns + [f];
      JoinedNonEmpty(ns);
      EndsWithMore(notes, Joined(ns), SEPARATOR);
      EndsWithMore(notes + SEPARATOR, Joined(ns) + SEPARATOR, ClampedNote(f));
    }
  }

  /** Appending keeps all notes for up to seven of them, whatever the run's own text is. */
  lemma AppendCarries(warning: Text, ns: seq<Text>, f: Text)
    requires Carries(warning, ns) && CleanNote(f) && |ns| < 7
    ensures Carries(Append(warning, f), ns + [f])
  {
    var (text, notes) := Split(warning);
    ClampedNoteHead(f);
    ExtendedEndsWith(notes, ns, f);
    JoinedIsUnsplittable(ns + [f]);
    ComposeKeepsTail(text, Extended(notes, f), Joined(ns + [f]));
  }

  // ---------------------------------------------------------------- the run's own text is never shortened again

  /** What the first clamp keeps of a run's text. */
  function KeptPart(text: Text): (p: Text)
    ensures |p| <= MAX_WARNING_TEXT
  {
    var n := Neutralized(text);
    if |n| <= MAX_WARNING_TEXT then n else n[..Cut(n, MAX_WARNING_TEXT)]
  }

  /** The warning's text part starts with p, followed by nothing or by a new rune. */
  ghost predicate KeepsText(warning: Text, p: Text) {
    var (text, notes) := Split(warning);
    && |p| <= MAX_WARNING_TEXT
    && Free(text, LABEL) && Free(notes, LABEL)
    && StartsWith(text, p) && (|p| < |text| ==> StartsRune(text[|p|]))
    && !Swallows(ClampedText(text))
  }

  lemma ClosedNeverSwallows(a: Text, b: Text)
    requires b != [] && b[|b| - 1] == 41
    ensures !Swallows(a + b)
  {
    var t := a + b;
    assert t[|t| - 1] == 41 && MARKER[11] != 41;
    assert MARKER[..12][11] == MARKER[11];
  }

  lemma SuffixEnd(dropped: int)
    ensures Suffix(dropped) != [] && Suffix(dropped)[|Suffix(dropped)| - 1] == 41
  {
    assert Ascii(" bytes truncated)")[16] == 41;
  }

  lemma ClippedNeverSwallows(s: Text, max: nat)
    requires |s| > max
    ensures !Swallows(Truncated(s, max))
  {
    SuffixEnd(|s| - max);
    ClosedNeverSwallows(s[..Cut(s, max)], Suffix(|s| - max));
  }

  lemma ClampedStaysSeparable(text: Text)
    requires !Swallows(ClampedText(text))
    ensures !Swallows(ClampedText(ClampedText(text)))
  {
    var t := ClampedText(text);
    ClampedTextIsFree(text);
    NeutralizedSame(t);
    if |t| > MAX_WARNING_TEXT {
      ClippedNeverSwallows(t, MAX_WARNING_TEXT);
    }
  }

  lemma ClampedKeepsPrefix(text: Text, p: Text)
    requires Free(text, LABEL) && |p| <= MAX_WARNING_TEXT
    requires StartsWith(text, p) && (|p| < |text| ==> StartsRune(text[|p|]))
    ensures StartsWith(ClampedText(text), p)
    ensures |p| < |ClampedText(text)| ==> StartsRune(ClampedText(text)[|p|])
  {
    NeutralizedSame(text);
    assert text == p + text[|p|..];
    KeptPrefixSurvives(p, text[|p|..], MAX_WARNING_TEXT);
    assert ClampedText(text)[..|p|] == p;
  }

  lemma AppendKeepsText(warning: Text, p: Text, f: Text)
    requires KeepsText(warning, p) && CleanNote(f)
    ensures KeepsText(Append(warning, f), p)
  {
    var (text, notes) := Split(warning);
    ClampedNoteHead(f);
    AsciiLacks("bounded: ", 59);
    FreeAfterSeparator(notes, SEPARATOR, ClampedNote(f));
    ClampedTextIsFree(text);
    ClampedStaysSeparable(text);
    ClampedKeepsPrefix(text, p);
    RoundTrip(text, Extended(notes, f));
    TruncatedIsFree(Extended(notes, f), MAX_RESULT_NOTES);
  }

  lemma FirstClampStarts(text: Text)
    ensures var p, t := KeptPart(text), ClampedText(text);
            StartsWith(t, p) && (|p| < |t| ==> StartsRune(t[|p|]))
  {
    var n := Neutralized(text);
    if |n| > MAX_WARNING_TEXT {
      SuffixStart(|n| - MAX_WARNING_TEXT);
      assert ClampedText(text)[|KeptPart(text)|] == Suffix(|n| - MAX_WARNING_TEXT)[0];
    }
  }

  lemma FirstClampKeepsText(text: Text)
    requires !Swallows(ClampedText(text))
    ensures KeepsText(Compose(text, []), KeptPart(text))
  {
    FirstClampStarts(text);
    ClampedTextIsFree(text);
    SplitOfText(ClampedText(text));
    ClampedStaysSeparable(text);
  }

  function AppendAll(warning: Text, ns: seq<Text>): Text {
    if ns == [] then warning else Append(AppendAll(warning, ns[..|ns| - 1]), ns[|ns| - 1])
  }

  /** The law of the field: for every run text and every list of up to seven notes, the warning stays within
      its cap, ends with all the notes in order, and (unless the text swallows the marker) still starts with
      everything the first clamp kept of the run's text. */
  lemma {:induction false} TextAndNotesSurvive(text: Text, ns: seq<Text>)
    requires |ns| <= 7 && forall f :: f in ns ==> CleanNote(f)
    ensures var w := AppendAll(Compose(text, []), ns);
            && |w| <= MAX_RESULT_TEXT
            && Carries(w, ns)
            && (!Swallows(ClampedText(text)) ==> KeepsText(w, KeptPart(text)))
  {
    if ns == [] {
      ComposedFits(text, []);
      ClampedTextIsFree(text);
      PlainCarriesNothing(ClampedText(text));
      if !Swallows(ClampedText(text)) {
        FirstClampKeepsText(text);
      }
    } else {
      var init, f := ns[..|ns| - 1], ns[|ns| - 1];
      var v := AppendAll(Compose(text, []), init);
      assert ns == init + [f];
      TextAndNotesSurvive(text, init);
      AppendCarries(v, init, f);
      var (t, notes) := Split(v);
      ComposedFits(t, Extended(notes, f));
      if !Swallows(ClampedText(text)) {
        AppendKeepsText(v, KeptPart(text), f);
      }
    }
  }

  // ---------------------------------------------------------------- well-formed UTF-8 stays well formed

  lemma ReadAscii(q: Expect, s: Text)
    requires s != [] && Printable(s)
    ensures Read(q, s) == if q.Start? then Start else Bad
  {
    if q.Start? {
      PrintableValid(s);
    } else {
      ReadBad(s[1..]);
    }
  }

  lemma ReadAsciiThen(q: Expect, m: Text, rest: Text)
    requires m != [] && Printable(m)
    ensures Read(q, m + rest) == Read(if q.Start? then Start else Bad, rest)
  {
    ReadConcat(q, m, rest);
    ReadAscii(q, m);
  }

  lemma {:induction false} NeutralizedReads(q: Expect, s: Text)
    ensures Read(q, Neutralized(s)) == Read(q, s)
    decreases |s|
  {
    if s == [] {
    } else if StartsWith(s, LABEL) {
      var rest := s[|LABEL|..];
      assert s == LABEL + rest;
      PrintableAscii("bounded: ");
      PrintableAscii("bounded : ");
      ReadAsciiThen(q, LABEL, rest);
      ReadAsciiThen(q, NEUTRAL_LABEL, Neutralized(rest));
      NeutralizedReads(if q.Start? then Start else Bad, rest);
    } else {
      assert Neutralized(s)[1..] == Neutralized(s[1..]);
      NeutralizedReads(Next(q, s[0]), s[1..]);
    }
  }

  lemma ValidAround(a: Text, b: Text, m: Text)
    requires m != [] && Printable(m)
    ensures Valid(a + m + b) <==> Valid(a) && Valid(b)
  {
    ReadConcat(Start, a + m, b);
    ReadConcat(Start, a, m);
    ReadAscii(Read(Start, a), m);
    ReadBad(b);
  }

  lemma SplitValid(warning: Text)
    requires Valid(warning)
    ensures Valid(Split(warning).0) && Valid(Split(warning).1)
  {
    var i := IndexFrom(warning, MARKER, 0);
    PrintableAscii(" || bounded: ");
    PrintableAscii("bounded: ");
    if i >= 0 {
      assert warning == warning[..i] + MARKER + warning[i + |MARKER|..];
      ValidAround(warning[..i], warning[i + |MARKER|..], MARKER);
    } else if StartsWith(warning, LABEL) {
      assert warning == [] + LABEL + warning[|LABEL|..];
      ValidAround([], warning[|LABEL|..], LABEL);
    }
  }

  lemma ClampsAreValid(text: Text, notes: Text)
    requires Valid(text) && Valid(notes)
    ensures Valid(ClampedText(text)) && Valid(ClampedNotes(notes))
  {
    NeutralizedReads(Start, text);
    TruncatedIsBounded(Neutralized(text), MAX_WARNING_TEXT);
    TruncatedIsBounded(notes, MAX_RESULT_NOTES);
  }

  lemma ComposeValid(text: Text, notes: Text)
    requires Valid(text) && Valid(notes)
    ensures Valid(Compose(text, notes))
  {
    var t, n := ClampedText(text), ClampedNotes(notes);
    ClampsAreValid(text, notes);
    if n != [] {
      if t == [] {
        PrintableAscii("bounded: ");
        PrintableValid(LABEL);
        ValidConcat(LABEL, n);
      } else {
        PrintableAscii(" || bounded: ");
        ValidAround(t, n, MARKER);
      }
    }
  }

  lemma AppendValid(warning: Text, f: Text)
    requires Valid(warning) && Valid(f)
    ensures Valid(Append(warning, f))
  {
    var (text, notes) := Split(warning);
    SplitValid(warning);
    TruncatedIsBounded(f, MAX_RESULT_NOTE);
    PrintableAscii("; ");
    ValidAround(notes, ClampedNote(f), SEPARATOR);
    ComposeValid(text, Extended(notes, f));
  }
}
