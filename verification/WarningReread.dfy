/**
 Appending notes to a warning that is read back in between. A warning may start out ill formed, when it is a JSON
 container that is carried as raw bytes; the first note then writes it as a string, and reading that back can make the
 text three times as long. Only a warning with exactly one such note can exceed the cap that tier 3 clips to, and
 clipping then takes the note.
 */
module WarningReread {
  import opened Bytes
  import opened Utf8
  import opened TextTruncation
  import opened ResultWarning
  import opened ResultText
  import opened Sanitizing

  ghost predicate AllClean(ns: seq<Text>) { forall f :: f in ns ==> CleanNote(f) }

  ghost predicate AllValid(ns: seq<Text>) { forall f :: f in ns ==> Valid(f) }

  /** Every append is written out as JSON and read back. */
  function ReadAll(warning: Text, ns: seq<Text>): Text {
    if ns == [] then warning else Sanitized(Append(ReadAll(warning, ns[..|ns| - 1]), ns[|ns| - 1]))
  }

  lemma ReadAllMore(w: Text, ns: seq<Text>, f: Text)
    ensures ReadAll(w, ns + [f]) == Sanitized(Append(ReadAll(w, ns), f))
  {
    assert (ns + [f])[..|ns|] == ns;
  }

  lemma {:induction false} ReadAllConcat(w: Text, a: seq<Text>, b: seq<Text>)
    ensures ReadAll(w, a + b) == ReadAll(ReadAll(w, a), b)
    decreases |b|
  {
    if b == [] {
      assert a + b == a;
    } else {
      var init, f := b[..|b| - 1], b[|b| - 1];
      LastOf(a, b);
      assert b == init + [f];
      ReadAllConcat(w, a, init);
      ReadAllMore(w, a + init, f);
      ReadAllMore(ReadAll(w, a), init, f);
    }
  }

  /** Well-formed text and notes are read back as they were written. */
  lemma {:induction false} ReadAllValid(w: Text, ns: seq<Text>)
    requires Valid(w) && AllValid(ns)
    ensures ReadAll(w, ns) == AppendAll(w, ns) && Valid(AppendAll(w, ns))
  {
    if ns != [] {
      ReadAllValid(w, ns[..|ns| - 1]);
      AppendValid(AppendAll(w, ns[..|ns| - 1]), ns[|ns| - 1]);
      SanitizedIff(AppendAll(w, ns));
    }
  }

  lemma AppendedFits(w: Text, ns: seq<Text>)
    requires ns != []
    ensures |AppendAll(w, ns)| <= MAX_RESULT_TEXT
  {
    var v := AppendAll(w, ns[..|ns| - 1]);
    ComposedFits(Split(v).0, Extended(Split(v).1, ns[|ns| - 1]));
  }

  lemma LastOf(ns: seq<Text>, ms: seq<Text>)
    requires ms != []
    ensures ns + ms == ns + ms[..|ms| - 1] + [ms[|ms| - 1]]
  {
  }

  lemma CleanParts(ms: seq<Text>)
    requires AllClean(ms) && ms != []
    ensures AllClean(ms[..|ms| - 1]) && CleanNote(ms[|ms| - 1])
  {
  }

  lemma {:induction false} CarriesMore(w: Text, ns: seq<Text>, ms: seq<Text>)
    requires Carries(w, ns) && AllClean(ms) && |ns| + |ms| <= 7
    ensures Carries(AppendAll(w, ms), ns + ms)
    decreases |ms|
  {
    if ms == [] {
      assert ns + ms == ns;
    } else {
      var init, f := ms[..|ms| - 1], ms[|ms| - 1];
      CleanParts(ms);
      LastOf(ns, ms);
      CarriesMore(w, ns, init);
      AppendCarries(AppendAll(w, init), ns + init, f);
    }
  }

  // ---------------------------------------------------------------- the first note on raw bytes

  lemma SanitizedText(t: Text)
    requires Free(t, LABEL)
    ensures Free(Sanitized(t), LABEL) && Valid(Sanitized(t))
  {
    PrintableAscii("bounded: ");
    SanitizedFree(t, LABEL);
    SanitizedValid(t);
  }

  /** A text that the first clamp leaves alone. */
  ghost predicate Untouched(w: Text) { ClampedText(w) == w }

  lemma UntouchedIsText(w: Text)
    requires Untouched(w)
    ensures Free(w, LABEL) && Split(w) == (w, []) && Free(Sanitized(w), LABEL)
  {
    ClampedTextIsFree(w);
    SplitOfText(w);
    PrintableAscii("bounded: ");
    SanitizedFree(w, LABEL);
  }

  /** The warning as it is read back after one note on a text that is not empty. */
  function Reread(w: Text, n: Text): Text { Whole(Sanitized(w), ClampedNote(n)) }

  function Whole(x: Text, c: Text): Text { x + MARKER + c }

  lemma NoteIsShort(n: Text)
    requires CleanNote(n)
    ensures |ClampedNote(n)| <= 555 && ClampedNotes(ClampedNote(n)) == ClampedNote(n) && ClampedNote(n) != []
  {
    ClampedNoteHead(n);
  }

  lemma FirstNote(w: Text, n: Text)
    requires Untouched(w) && w != [] && CleanNote(n) && Valid(n)
    ensures Sanitized(Append(w, n)) == Reread(w, n)
  {
    UntouchedIsText(w);
    NoteIsShort(n);
    assert Append(w, n) == w + MARKER + ClampedNote(n);
    PrintableAscii(" || bounded: ");
    SanitizedAround(w, MARKER, ClampedNote(n));
    TruncatedIsBounded(n, MAX_RESULT_NOTE);
    SanitizedIff(ClampedNote(n));
  }

  lemma SanitizedNonEmpty(w: Text)
    requires w != []
    ensures Sanitized(w) != []
  {
    SanitizedGrows(w);
  }

  lemma JoinedOne(n: Text)
    ensures Joined([n]) == ClampedNote(n)
  {
    JoinedMore([], n);
    assert [] + [n] == [n];
  }

  lemma CarriesWhole(x: Text, n: Text)
    requires Free(x, LABEL) && x != [] && CleanNote(n)
    ensures Carries(Whole(x, ClampedNote(n)), [n])
  {
    NoteIsShort(n);
    SplitOfBoth(x, ClampedNote(n));
    JoinedOne(n);
    EndsWithPart(STUB, ClampedNote(n));
    EndsWithPart([], ClampedNote(n));
    assert [] + ClampedNote(n) == ClampedNote(n);
  }

  lemma WholeValid(x: Text, c: Text)
    requires Valid(x) && Valid(c)
    ensures Valid(Whole(x, c))
  {
    PrintableAscii(" || bounded: ");
    ValidAround(x, c, MARKER);
  }

  lemma NoteValid(n: Text)
    requires Valid(n)
    ensures Valid(ClampedNote(n))
  {
    TruncatedIsBounded(n, MAX_RESULT_NOTE);
  }

  lemma RereadValid(w: Text, n: Text)
    requires Valid(n)
    ensures Valid(Reread(w, n))
  {
    SanitizedValid(w);
    NoteValid(n);
    WholeValid(Sanitized(w), ClampedNote(n));
  }

  lemma ReadOne(w: Text, n: Text)
    ensures ReadAll(w, [n]) == Sanitized(Append(w, n))
  {
    ReadAllMore(w, [], n);
    assert [] + [n] == [n];
  }

  /** From the second note on, the text is well formed. */
  lemma UntouchedReads(w: Text, ns: seq<Text>)
    requires Untouched(w) && w != [] && ns != [] && AllClean(ns) && AllValid(ns)
    ensures ReadAll(w, ns) == AppendAll(Reread(w, ns[0]), ns[1..]) && Valid(ReadAll(w, ns))
  {
    assert ns == [ns[0]] + ns[1..];
    ReadAllConcat(w, [ns[0]], ns[1..]);
    ReadOne(w, ns[0]);
    FirstNote(w, ns[0]);
    RereadValid(w, ns[0]);
    ReadAllValid(Reread(w, ns[0]), ns[1..]);
  }

  /** A warning without notes, as tier 2 leaves it: well formed, or bytes that the first clamp leaves alone. */
  ghost predicate Noteless(w: Text) { (Valid(w) && Free(w, LABEL)) || Untouched(w) }

  lemma NotelessIsFree(w: Text)
    requires Noteless(w)
    ensures Free(w, LABEL)
  {
    if Untouched(w) {
      UntouchedIsText(w);
    }
  }

  lemma UntouchedCarries(w: Text, ns: seq<Text>)
    requires Untouched(w) && w != [] && ns != [] && AllClean(ns) && AllValid(ns) && |ns| <= 7
    ensures Carries(ReadAll(w, ns), ns)
  {
    UntouchedReads(w, ns);
    UntouchedIsText(w);
    SanitizedNonEmpty(w);
    CarriesWhole(Sanitized(w), ns[0]);
    CarriesMore(Reread(w, ns[0]), [ns[0]], ns[1..]);
    assert [ns[0]] + ns[1..] == ns;
  }

  /** Without clipping, every note is carried, however the text reads back. */
  lemma ReadCarries(w: Text, ns: seq<Text>)
    requires Noteless(w) && AllClean(ns) && AllValid(ns) && |ns| <= 7
    ensures Carries(ReadAll(w, ns), ns)
  {
    NotelessIsFree(w);
    PlainCarriesNothing(w);
    if Valid(w) {
      ReadAllValid(w, ns);
      CarriesMore(w, [], ns);
      assert [] + ns == ns;
    } else if ns != [] {
      UntouchedCarries(w, ns);
    }
  }

  /** A noted warning is too long only if it has one note and its text was ill formed before. */
  lemma LongHasOneNote(w: Text, ns: seq<Text>)
    requires Noteless(w) && AllClean(ns) && AllValid(ns) && ns != [] && |ReadAll(w, ns)| > MAX_RESULT_TEXT
    ensures !Valid(w) && Untouched(w) && w != [] && |ns| == 1 && ReadAll(w, ns) == Reread(w, ns[0])
  {
    if Valid(w) {
      ReadAllValid(w, ns);
      AppendedFits(w, ns);
    } else {
      UntouchedReads(w, ns);
      if |ns| > 1 {
        AppendedFits(Reread(w, ns[0]), ns[1..]);
      }
      assert AppendAll(Reread(w, ns[0]), []) == Reread(w, ns[0]);
    }
  }

  // ---------------------------------------------------------------- clipping a warning that has become too long

  /** What the two notes of tier 2 have in common once they are clamped: well over the length of a mark, not
      repeating their first two bytes within the length of a mark, and not starting like the rest of a marker. */
  ghost predicate Distinctive(c: Text) {
    && Valid(c) && 59 <= |c| <= 555
    && (forall d :: 1 <= d <= 23 ==> c[0] != c[d] || c[1] != c[d + 1])
    && forall k :: 0 <= k < |MARKER| ==> !StartsWith(c, MARKER[k..])
  }

  lemma {:induction false} FewDigits(n: nat)
    requires n >= 1
    ensures |Decimal(n)| <= n
  {
    if n >= 10 {
      FewDigits(n / 10);
    }
  }

  /** The mark for n dropped bytes is at most 23 bytes longer than n. */
  lemma MarkLength(n: nat)
    requires 1 <= n <= MAX_INT
    ensures |Suffix(n)| <= n + 23
  {
    FewDigits(n);
  }

  lemma CutInSecond(a: Text, b: Text, c: Text, s: Text, cut: nat)
    requires |a| <= cut <= |a| + |b|
    ensures (a + b + c)[..cut] + s == a + b[..cut - |a|] + s
  {
    assert (a + b + c)[..cut] == a + b[..cut - |a|];
  }

  lemma CutInThird(a: Text, b: Text, c: Text, s: Text, cut: nat)
    requires |a| + |b| <= cut <= |a| + |b| + |c|
    ensures (a + b + c)[..cut] + s == a + b + (c[..cut - |a| - |b|] + s)
  {
    assert (a + b + c)[..cut] == a + b + c[..cut - |a| - |b|];
  }

  lemma EndsDiffer(e: Text, c: Text, k: nat)
    requires |c| <= |e| && k < |c| && e[|e| - |c| + k] != c[k]
    ensures !EndsWith(e, c)
  {
    assert e[|e| - |c|..][k] == e[|e| - |c| + k];
  }

  lemma SameLengthEnds(e: Text, c: Text)
    requires |e| == |c| && e != c
    ensures !EndsWith(e, c)
  {
    assert e[0..] == e;
  }

  /** A note cut short and marked does not end with the whole note, unless clipping has changed nothing. */
  lemma CutNoteIsLost(c: Text, p: nat, n: nat)
    requires Distinctive(c) && p < |c| && 1 <= n <= |c| - p && n <= MAX_INT && c[..p] + Suffix(n) != c
    ensures !EndsWith(c[..p] + Suffix(n), c)
  {
    var e := c[..p] + Suffix(n);
    MarkLength(n);
    SuffixLength(n);
    if |e| > |c| {
      var d := |e| - |c|;
      assert 1 <= d <= 23;
      assert d + 1 < p;
      assert e[d] == c[d] && e[d + 1] == c[d + 1];
      EndsDiffer(e, c, if c[0] != c[d] then 0 else 1);
    } else if |e| == |c| {
      SameLengthEnds(e, c);
    }
  }

  /** Nor does a stub in front of it help: no note starts like the rest of a marker. */
  lemma StubDoesNotHelp(e: Text, c: Text)
    requires Distinctive(c) && !EndsWith(e, c)
    ensures !EndsWith(STUB + e, c)
  {
    var s := STUB + e;
    if |c| <= |e| {
      assert s[|s| - |c|..] == e[|e| - |c|..];
    } else if |c| <= |s| {
      var j := |s| - |c|;
      var k := StubHead(c, j);
      assert s[j + k] == STUB[j + k];
      EndsDiffer(s, c, k);
    }
  }

  lemma StubHead(c: Text, j: nat) returns (k: nat)
    requires Distinctive(c) && j < 12
    ensures k < 12 - j && c[k] != STUB[j + k]
  {
    var t := MARKER[j + 1..];
    assert !StartsWith(c, t);
    assert |t| == 12 - j;
    k :| 0 <= k < |t| && t[k] != c[k];
    assert t[k] == STUB[j + k];
  }

  // ---------------------------------------------------------------- where the clipped warning is split

  /** X, the marker and the note, all of it over the cap. */
  ghost predicate TooLong(x: Text, c: Text) {
    && Free(x, LABEL) && Valid(x) && Distinctive(c)
    && MAX_RESULT_TEXT < |x| + |MARKER| + |c| <= MAX_INT
  }

  lemma TooLongFacts(x: Text, c: Text)
    requires TooLong(x, c)
    ensures Valid(Whole(x, c)) && |x| > MAX_RESULT_TEXT - 568
    ensures MAX_RESULT_TEXT - 3 <= Cut(Whole(x, c), MAX_RESULT_TEXT) <= MAX_RESULT_TEXT
  {
    PrintableAscii(" || bounded: ");
    ValidAround(x, c, MARKER);
    CutLosesLessThanARune(Whole(x, c), MAX_RESULT_TEXT);
  }

  function Over(x: Text, c: Text): int { |x| + |MARKER| + |c| - MAX_RESULT_TEXT }

  /** The warning clipped at this position. */
  function ClipAt(x: Text, c: Text, cut: nat): Text
    requires cut <= |Whole(x, c)|
  {
    Whole(x, c)[..cut] + Suffix(Over(x, c))
  }

  lemma ClippedAt(w: Text, max: nat)
    requires max < |w|
    ensures Truncated(w, max) == w[..Cut(w, max)] + Suffix(|w| - max)
  {
  }

  lemma ClippedInNote(x: Text, c: Text, cut: nat)
    requires |x| + |MARKER| <= cut <= |Whole(x, c)|
    ensures ClipAt(x, c, cut) == x + MARKER + (c[..cut - |x| - |MARKER|] + Suffix(Over(x, c)))
  {
    CutInThird(x, MARKER, c, Suffix(Over(x, c)), cut);
  }

  /** Where the warning is split: a long text that starts like x, and the note not whole behind it. */
  ghost predicate NoNoteLeft(warning: Text, x: Text, c: Text) {
    var (y, m) := Split(warning);
    && |y| >= 7000 && |x| >= 7000 && y[..7000] == x[..7000] && |m| <= 700
    && !EndsWith(m, c)
  }

  /** A position at which the cap may cut. */
  predicate MayCut(x: Text, c: Text, cut: nat) {
    MAX_RESULT_TEXT - 3 <= cut <= MAX_RESULT_TEXT < |Whole(x, c)| && Over(x, c) <= MAX_INT
  }

  /** Cut behind the marker: the text is as before, and the note has been cut. */
  lemma CutInNote(x: Text, c: Text, cut: nat)
    requires TooLong(x, c) && |x| > MAX_RESULT_TEXT - 568 && MayCut(x, c, cut) && cut >= |x| + |MARKER|
    requires ClipAt(x, c, cut) != Whole(x, c)
    ensures NoNoteLeft(ClipAt(x, c, cut), x, c)
  {
    ClippedInNote(x, c, cut);
    NoteCutAt(x, c, cut - |x| - |MARKER|, Over(x, c));
  }

  lemma NoteCutAt(x: Text, c: Text, p: nat, over: nat)
    requires Free(x, LABEL) && |x| >= 7100 && Distinctive(c) && p < |c| && 1 <= over <= |c| - p
    requires x + MARKER + (c[..p] + Suffix(over)) != x + MARKER + c
    ensures NoNoteLeft(x + MARKER + (c[..p] + Suffix(over)), x, c)
  {
    SuffixLength(over);
    CutNoteIsLost(c, p, over);
    RemnantHasNoNote(x, c[..p] + Suffix(over), c);
  }

  lemma RemnantHasNoNote(x: Text, e: Text, c: Text)
    requires Free(x, LABEL) && |x| >= 7100 && Distinctive(c) && e != [] && |e| <= 600 && !EndsWith(e, c)
    ensures NoNoteLeft(x + MARKER + e, x, c)
  {
    StubDoesNotHelp(e, c);
    SplitOfBoth(x, e);
  }

  lemma ClippedInText(x: Text, c: Text, cut: nat)
    requires cut <= |x|
    ensures ClipAt(x, c, cut) == x[..cut] + Suffix(Over(x, c))
  {
    assert Whole(x, c)[..cut] == x[..cut];
  }

  lemma PlainTextHasNoNote(x: Text, cut: nat, over: int, c: Text)
    requires Free(x, LABEL) && 7000 <= cut <= |x| && |c| >= 59
    ensures NoNoteLeft(x[..cut] + Suffix(over), x, c)
  {
    FreePrefix(x, LABEL, cut);
    SuffixIsFree(over);
    SuffixStart(over);
    FreeBeforeEllipsis(x[..cut], Suffix(over));
    SplitOfText(x[..cut] + Suffix(over));
  }

  /** Cut inside the text: no marker is left, and the clipped warning is all text. */
  lemma CutInText(x: Text, c: Text, cut: nat)
    requires TooLong(x, c) && MayCut(x, c, cut) && cut <= |x|
    ensures NoNoteLeft(ClipAt(x, c, cut), x, c)
  {
    ClippedInText(x, c, cut);
    PlainTextHasNoNote(x, cut, Over(x, c), c);
  }

  /** Cut inside the marker: the text with the marker's first q bytes and the mark. */
  function CutMarker(x: Text, q: nat, over: int): Text
    requires q <= |MARKER|
  {
    x + MARKER[..q] + Suffix(over)
  }

  lemma MarkerIsPlain()
    ensures Printable(MARKER) && MARKER[11] == 58
  {
    PrintableAscii(" || bounded: ");
  }

  lemma BeforeTheMark(a: Text, b: Text, i: nat)
    requires b != [] && b[0] == 0xE2 && 58 !in b && OccursAt(a + b, MARKER, i)
    ensures i + |MARKER| <= |a|
  {
    var w := a + b;
    MarkerIsPlain();
    forall j | i <= j < i + |MARKER|
      ensures w[j] < 0x7F
    {
      assert w[i + (j - i)] == MARKER[j - i];
    }
    assert w[|a|] == 0xE2;
    assert w[i + 11] == MARKER[11];
    forall j | |a| <= j < |w|
      ensures w[j] != 58
    {
      assert w[j] == b[j - |a|];
    }
  }

  /** The only marker it can contain is the one that a swallowing text completes. */
  lemma MarkerInCutMarker(x: Text, q: nat, over: int, i: nat)
    requires Free(x, LABEL) && 1 <= q < |MARKER| && OccursAt(CutMarker(x, q, over), MARKER, i)
    ensures i + 12 == |x| && Swallows(x)
  {
    var w, cut := CutMarker(x, q, over), |x| + q;
    SuffixStart(over);
    SuffixLacks(over, 58);
    MarkerIsPlain();
    BeforeTheMark(x + MARKER[..q], Suffix(over), i);
    var v := x + MARKER + [];
    assert forall k :: 0 <= k < cut ==> v[k] == w[k];
    assert forall k :: 0 <= k < |MARKER| ==> MARKER[k] == w[i + k] == v[i + k];
    MarkerFoundAt(x, [], i);
  }

  /** A label-free text does not swallow twice. */
  lemma SwallowsOnce(x: Text)
    requires Free(x, LABEL) && Swallows(x)
    ensures !Swallows(x[..|x| - 12])
  {
    var y := x[..|x| - 12];
    if Swallows(y) {
      var i := |y| - 8;
      assert forall k :: 0 <= k < 8 ==> LABEL[k] == MARKER[..12][4 + k] == y[|y| - 12 + (4 + k)] == x[i + k];
      assert LABEL[8] == MARKER[..12][0] == x[|x| - 12 + 0];
      assert OccursAt(x, LABEL, i);
    }
  }

  lemma StartAndMarker(q: nat)
    requires 1 <= q < |MARKER|
    ensures MARKER[..12] + MARKER[..q] == MARKER + MARKER[1..q]
  {
    assert MARKER[..q] == [MARKER[0]] + MARKER[1..q];
    assert MARKER[..12] + [MARKER[0]] == MARKER;
    Regroup(MARKER[..12], [MARKER[0]], MARKER[1..q]);
  }

  lemma SwallowedForm(x: Text, q: nat, over: int)
    requires 1 <= q < |MARKER| && Swallows(x)
    ensures CutMarker(x, q, over) == x[..|x| - 12] + MARKER + (MARKER[1..q] + Suffix(over))
  {
    var y := x[..|x| - 12];
    assert x == y + MARKER[..12];
    Regroup(y, MARKER[..12], MARKER[..q]);
    StartAndMarker(q);
    Regroup(y, MARKER, MARKER[1..q]);
    Regroup(y + MARKER, MARKER[1..q], Suffix(over));
  }

  lemma SwallowedInCutMarker(x: Text, q: nat, over: int)
    requires Free(x, LABEL) && 1 <= q < |MARKER| && Swallows(x) && |x| > 12
    ensures Split(CutMarker(x, q, over)) == (x[..|x| - 12], MARKER[1..q] + Suffix(over))
  {
    SwallowedForm(x, q, over);
    SwallowsOnce(x);
    FreePrefix(x, LABEL, |x| - 12);
    SuffixStart(over);
    SplitOfBoth(x[..|x| - 12], MARKER[1..q] + Suffix(over));
  }

  lemma TextInCutMarker(x: Text, q: nat, over: int)
    requires Free(x, LABEL) && |x| >= 9 && 1 <= q < |MARKER| && !Swallows(x)
    ensures Split(CutMarker(x, q, over)) == (CutMarker(x, q, over), [])
  {
    var w := CutMarker(x, q, over);
    forall j: nat
      ensures !OccursAt(w, MARKER, j)
    {
      if OccursAt(w, MARKER, j) {
        MarkerInCutMarker(x, q, over, j);
      }
    }
    assert !OccursAt(x, LABEL, 0);
    assert forall k :: 0 <= k < 9 ==> w[k] == x[k];
  }

  lemma TooShortToEnd(m: Text, c: Text)
    requires |m| <= 54 && |c| >= 59
    ensures !EndsWith(m, c)
  {
  }

  lemma CutMarkerHasNoNote(x: Text, q: nat, over: int, c: Text)
    requires Free(x, LABEL) && |x| >= 7100 && 1 <= q < |MARKER| && |c| >= 59
    ensures NoNoteLeft(CutMarker(x, q, over), x, c)
  {
    SuffixLength(over);
    if Swallows(x) {
      SwallowedInCutMarker(x, q, over);
    } else {
      TextInCutMarker(x, q, over);
      CutMarkerStart(x, q, over);
    }
    TooShortToEnd(Split(CutMarker(x, q, over)).1, c);
  }

  lemma CutMarkerStart(x: Text, q: nat, over: int)
    requires q <= |MARKER| && |x| >= 7000
    ensures |CutMarker(x, q, over)| >= 7000 && CutMarker(x, q, over)[..7000] == x[..7000]
  {
  }

  lemma ClippedInMarker(x: Text, c: Text, cut: nat)
    requires |x| <= cut <= |x| + |MARKER|
    ensures ClipAt(x, c, cut) == CutMarker(x, cut - |x|, Over(x, c))
  {
    CutInSecond(x, MARKER, c, Suffix(Over(x, c)), cut);
  }

  lemma CutInMarker(x: Text, c: Text, cut: nat)
    requires TooLong(x, c) && |x| > MAX_RESULT_TEXT - 568 && |x| < cut < |x| + |MARKER|
    ensures NoNoteLeft(ClipAt(x, c, cut), x, c)
  {
    ClippedInMarker(x, c, cut);
    CutMarkerHasNoNote(x, cut - |x|, Over(x, c), c);
  }

  lemma ClipAtLosesNote(x: Text, c: Text, cut: nat)
    requires TooLong(x, c) && |x| > MAX_RESULT_TEXT - 568 && MayCut(x, c, cut) && ClipAt(x, c, cut) != Whole(x, c)
    ensures NoNoteLeft(ClipAt(x, c, cut), x, c)
  {
    if cut <= |x| {
      CutInText(x, c, cut);
    } else if cut < |x| + |MARKER| {
      CutInMarker(x, c, cut);
    } else {
      CutInNote(x, c, cut);
    }
  }

  /** Wherever the cut falls: unless clipping gives the warning back, its note is lost. */
  lemma ClippingLosesNote(x: Text, c: Text)
    requires TooLong(x, c) && Truncated(Whole(x, c), MAX_RESULT_TEXT) != Whole(x, c)
    ensures NoNoteLeft(Truncated(Whole(x, c), MAX_RESULT_TEXT), x, c)
  {
    TooLongFacts(x, c);
    ClippedAt(Whole(x, c), MAX_RESULT_TEXT);
    ClipAtLosesNote(x, c, Cut(Whole(x, c), MAX_RESULT_TEXT));
  }

  // ---------------------------------------------------------------- lost for good

  /** Appending will put the marker where it belongs. */
  ghost predicate Steady(warning: Text) {
    Split(warning).0 != [] && !Swallows(ClampedText(Split(warning).0))
  }

  lemma ClampedNonEmpty(x: Text)
    requires x != []
    ensures ClampedText(x) != []
  {
    NeutralizedNonEmpty(x);
    if |Neutralized(x)| > MAX_WARNING_TEXT {
      SuffixStart(|Neutralized(x)| - MAX_WARNING_TEXT);
    }
  }

  lemma NeutralizedNonEmpty(x: Text)
    requires x != []
    ensures Neutralized(x) != []
  {
  }

  lemma ExtendedLength(m: Text, f: Text)
    requires CleanNote(f) && |m| <= 3500
    ensures Extended(m, f) != [] && ClampedNotes(Extended(m, f)) == Extended(m, f)
    ensures |Extended(m, f)| <= |m| + 557
  {
    NoteIsShort(f);
  }

  lemma SteadyAppend(warning: Text, f: Text)
    requires Steady(warning) && CleanNote(f) && |Split(warning).1| <= 3500
    ensures Split(Append(warning, f)) == (ClampedText(Split(warning).0), Extended(Split(warning).1, f))
    ensures Steady(Append(warning, f))
  {
    var (x, m) := Split(warning);
    ClampedNonEmpty(x);
    ClampedTextIsFree(x);
    ExtendedLength(m, f);
    SplitOfBoth(ClampedText(x), Extended(m, f));
    ClampedStaysSeparable(x);
  }

  /** The notes do not end with these, and no further note changes that. */
  ghost predicate Lost(warning: Text, ns: seq<Text>) {
    && Steady(warning) && ns != [] && AllClean(ns)
    && |Split(warning).1| <= 700 + 557 * |ns|
    && !EndsWith(Split(warning).1, Joined(ns))
  }

  lemma NotEndsMore(m: Text, j: Text, s: Text)
    requires !EndsWith(m, j)
    ensures !EndsWith(m + s, j + s)
  {
    if |j| <= |m| {
      var k :| 0 <= k < |j| && m[|m| - |j| + k] != j[k];
      EndsDiffer(m + s, j + s, k);
    }
  }

  lemma LostMore(warning: Text, ns: seq<Text>, f: Text)
    requires Lost(warning, ns) && CleanNote(f) && |ns| <= 4
    ensures Lost(Append(warning, f), ns + [f])
  {
    var m, c := Split(warning).1, ClampedNote(f);
    SteadyAppend(warning, f);
    ExtendedLength(m, f);
    JoinedMore(ns, f);
    JoinedNonEmpty(ns);
    if m != [] {
      NotEndsMore(m, Joined(ns), SEPARATOR + c);
      Regroup(m, SEPARATOR, c);
      Regroup(Joined(ns), SEPARATOR, c);
    }
  }

  lemma {:induction false} LostForGood(warning: Text, ns: seq<Text>, ms: seq<Text>)
    requires Lost(warning, ns) && AllClean(ms) && |ns| + |ms| <= 5
    ensures Lost(AppendAll(warning, ms), ns + ms)
    decreases |ms|
  {
    if ms == [] {
      assert ns + ms == ns;
    } else {
      CleanParts(ms);
      LastOf(ns, ms);
      LostForGood(warning, ns, ms[..|ms| - 1]);
      LostMore(AppendAll(warning, ms[..|ms| - 1]), ns + ms[..|ms| - 1], ms[|ms| - 1]);
    }
  }

  lemma LostIsNotCarried(warning: Text, ns: seq<Text>)
    requires Lost(warning, ns)
    ensures !Carries(warning, ns)
  {
  }

  lemma LongNeverSwallows(x: Text)
    requires |x| > MAX_WARNING_TEXT
    ensures !Swallows(ClampedText(x))
  {
    NeutralizedGrows(x);
    ClippedNeverSwallows(Neutralized(x), MAX_WARNING_TEXT);
  }

  lemma {:induction false} NeutralizedGrows(x: Text)
    ensures |x| <= |Neutralized(x)|
    decreases |x|
  {
    if x != [] {
      NeutralizedGrows(x[if StartsWith(x, LABEL) then |LABEL| else 1..]);
    }
  }

  lemma DistinctiveNote(n: Text)
    requires CleanNote(n) && Valid(n) && |ClampedNote(n)| >= 59
    requires var c := ClampedNote(n); forall d :: 1 <= d <= 23 ==> c[0] != c[d] || c[1] != c[d + 1]
    ensures Distinctive(ClampedNote(n))
  {
    var c := ClampedNote(n);
    ClampedNoteHead(n);
    NoteIsShort(n);
    TruncatedIsBounded(n, MAX_RESULT_NOTE);
    forall k | 0 <= k < |MARKER|
      ensures !StartsWith(c, MARKER[k..])
    {
      HeadIsNot(c, n, MARKER[k..]);
    }
  }

  lemma HeadIsNot(c: Text, n: Text, t: Text)
    requires SameHead(c, n) && |t| <= |MARKER| && !StartsWith(n, t)
    ensures !StartsWith(c, t)
  {
    var k :| 0 <= k < |t| && t[k] != n[k];
    assert c[k] == n[k];
  }

  /** From the clipping on, whatever notes follow. */
  lemma ClippedIsLost(x: Text, n: Text, ms: seq<Text>)
    requires CleanNote(n) && TooLong(x, ClampedNote(n))
    requires Truncated(Whole(x, ClampedNote(n)), MAX_RESULT_TEXT) != Whole(x, ClampedNote(n))
    requires AllClean(ms) && |ms| <= 4
    ensures !Carries(AppendAll(Truncated(Whole(x, ClampedNote(n)), MAX_RESULT_TEXT), ms), [n] + ms)
  {
    var w := Truncated(Whole(x, ClampedNote(n)), MAX_RESULT_TEXT);
    ClippingLosesNote(x, ClampedNote(n));
    NoteLost(w, x, n);
    LostForGood(w, [n], ms);
    LostIsNotCarried(AppendAll(w, ms), [n] + ms);
  }

  lemma NoteLost(w: Text, x: Text, n: Text)
    requires CleanNote(n) && NoNoteLeft(w, x, ClampedNote(n))
    ensures Lost(w, [n])
  {
    JoinedOne(n);
    LongNeverSwallows(Split(w).0);
  }
}
