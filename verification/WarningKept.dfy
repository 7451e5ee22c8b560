/**
 The run's own text in a warning that is read back: how much of it every later append keeps.
 */
module WarningKept {
  import opened Bytes
  import opened Utf8
  import opened TextTruncation
  import opened ResultWarning
  import opened ResultText
  import opened Sanitizing
  import opened WarningReread

  /** The text part starts with what the first clamp would keep of x. */
  ghost predicate Keeps(warning: Text, x: Text) { StartsWith(Split(warning).0, KeptPart(x)) }

  predicate StartsClosed(t: Text, p: Text) { StartsWith(t, p) && (|p| < |t| ==> StartsRune(t[|p|])) }

  /** And it will go on doing so. */
  ghost predicate HoldsText(warning: Text, p: Text) {
    && Steady(warning) && |p| <= MAX_WARNING_TEXT
    && StartsWith(Split(warning).0, p) && StartsClosed(ClampedText(Split(warning).0), p)
  }

  lemma HoldsAppend(warning: Text, p: Text, f: Text)
    requires HoldsText(warning, p) && CleanNote(f) && |Split(warning).1| <= 3500
    ensures HoldsText(Append(warning, f), p)
    ensures |Split(Append(warning, f)).1| <= |Split(warning).1| + 557
  {
    var (x, m) := Split(warning);
    SteadyAppend(warning, f);
    ExtendedLength(m, f);
    ClampedTextIsFree(x);
    ClampedKeepsPrefix(ClampedText(x), p);
  }

  lemma {:induction false} HoldsAll(warning: Text, p: Text, ms: seq<Text>)
    requires HoldsText(warning, p) && AllClean(ms) && |ms| <= 4 && |Split(warning).1| <= 1270
    ensures HoldsText(AppendAll(warning, ms), p)
    ensures |Split(AppendAll(warning, ms)).1| <= |Split(warning).1| + 557 * |ms|
  {
    if ms != [] {
      CleanParts(ms);
      HoldsAll(warning, p, ms[..|ms| - 1]);
      HoldsAppend(AppendAll(warning, ms[..|ms| - 1]), p, ms[|ms| - 1]);
    }
  }

  // ---------------------------------------------------------------- where it starts

  lemma KeptIs(x: Text)
    requires Free(x, LABEL)
    ensures KeptPart(x) == if |x| <= MAX_WARNING_TEXT then x else x[..Cut(x, MAX_WARNING_TEXT)]
  {
    NeutralizedSame(x);
  }

  lemma PrefixCloses(x: Text, k: nat)
    requires k <= |x| && (k < |x| ==> StartsRune(x[k]))
    ensures StartsClosed(x, x[..k])
  {
  }

  lemma WholeCloses(x: Text)
    ensures StartsClosed(x, x)
  {
  }

  lemma KeptCloses(x: Text)
    requires Free(x, LABEL) && Valid(x)
    ensures StartsClosed(x, KeptPart(x)) && KeptPart(x) <= x
    ensures |x| > MAX_WARNING_TEXT ==> MAX_WARNING_TEXT - 3 <= |KeptPart(x)|
  {
    KeptIs(x);
    if |x| > MAX_WARNING_TEXT {
      CutLosesLessThanARune(x, MAX_WARNING_TEXT);
      PrefixCloses(x, Cut(x, MAX_WARNING_TEXT));
    } else {
      WholeCloses(x);
    }
  }

  lemma ClampedSeparable(x: Text)
    requires Free(x, LABEL) && !Swallows(x)
    ensures !Swallows(ClampedText(x))
  {
    NeutralizedSame(x);
    if |x| > MAX_WARNING_TEXT {
      ClippedNeverSwallows(x, MAX_WARNING_TEXT);
    }
  }

  /** A label-free text part that starts like x. */
  lemma HoldsFrom(warning: Text, p: Text)
    requires var y := Split(warning).0;
             Free(y, LABEL) && y != [] && StartsClosed(y, p) && |p| <= MAX_WARNING_TEXT && !Swallows(ClampedText(y))
    ensures HoldsText(warning, p)
  {
    ClampedKeepsPrefix(Split(warning).0, p);
  }

  lemma ShorterCloses(x: Text, y: Text, p: Text)
    requires StartsClosed(x, p) && y <= x && |p| <= |y|
    ensures StartsClosed(y, p)
  {
  }

  /** A text alone. */
  lemma TextHolds(x: Text)
    requires Free(x, LABEL) && Valid(x) && x != [] && !Swallows(ClampedText(x))
    ensures HoldsText(x, KeptPart(x)) && Split(x).1 == []
  {
    SplitOfText(x);
    KeptCloses(x);
    HoldsFrom(x, KeptPart(x));
  }

  /** A text with one note behind it, clamped or not. */
  lemma WholeHolds(x: Text, c: Text)
    requires Free(x, LABEL) && Valid(x) && x != [] && c != [] && |c| <= 555
    requires Swallows(x) ==> |KeptPart(x)| <= |x| - 12
    ensures HoldsText(Whole(x, c), KeptPart(x)) && |Split(Whole(x, c)).1| <= 567
  {
    SplitOfBoth(x, c);
    KeptCloses(x);
    if Swallows(x) {
      SwallowHolds(x, c);
    } else {
      ClampedSeparable(x);
      HoldsFrom(Whole(x, c), KeptPart(x));
    }
  }

  lemma SwallowHolds(x: Text, c: Text)
    requires Free(x, LABEL) && Valid(x) && c != [] && Swallows(x) && |KeptPart(x)| <= |x| - 12
    ensures HoldsText(Whole(x, c), KeptPart(x))
  {
    KeptIs(x);
    KeptCloses(x);
    ShorterHolds(x, c, KeptPart(x));
  }

  lemma ShorterHolds(x: Text, c: Text, p: Text)
    requires Free(x, LABEL) && c != [] && Swallows(x) && StartsClosed(x, p) && 0 < |p| <= |x| - 12
    requires |p| <= MAX_WARNING_TEXT
    ensures HoldsText(Whole(x, c), p)
  {
    var y := x[..|x| - 12];
    SplitOfBoth(x, c);
    FreePrefix(x, LABEL, |x| - 12);
    SwallowsOnce(x);
    ClampedSeparable(y);
    ShorterCloses(x, y, p);
    HoldsFrom(Whole(x, c), p);
  }

  lemma WholeLoses(x: Text, n: Text)
    requires Free(x, LABEL) && Valid(x) && CleanNote(n) && Swallows(x) && |KeptPart(x)| > |x| - 12
    ensures 12 <= |KeptPart(x)| && ShortText(Whole(x, ClampedNote(n)), |KeptPart(x)|)
  {
    NoteIsShort(n);
    ClampedNoteHead(n);
    KeptIs(x);
    KeptCloses(x);
    SwallowedIsShort(x, ClampedNote(n), |KeptPart(x)|);
  }

  lemma SwallowedIsShort(x: Text, c: Text, k: nat)
    requires Free(x, LABEL) && Swallows(x) && |x| - 12 < k <= MAX_WARNING_TEXT && Free(c, LABEL) && c != []
    ensures ShortText(Whole(x, c), k)
  {
    SplitOfBoth(x, c);
    FreePrefix(x, LABEL, |x| - 12);
    SwollenStub(c);
  }

  lemma {:induction false} ShortForGood(warning: Text, k: nat, ns: seq<Text>, ms: seq<Text>)
    requires ShortText(warning, k) && 12 <= k && Carries(warning, ns) && AllClean(ms) && |ns| + |ms| <= 6
    ensures ShortText(AppendAll(warning, ms), k)
    decreases |ms|
  {
    if ms != [] {
      var init, f := ms[..|ms| - 1], ms[|ms| - 1];
      CleanParts(ms);
      ShortForGood(warning, k, ns, init);
      CarriesMore(warning, ns, init);
      NoteIsShort(f);
      AppendStaysShort(AppendAll(warning, init), k, f);
    }
  }

  // ---------------------------------------------------------------- the three ways a warning goes on

  /** From a text as it was read, with further notes. */
  lemma TextKeptIff(x: Text, ms: seq<Text>)
    requires Free(x, LABEL) && Valid(x) && AllClean(ms) && |ms| <= 4
    ensures Keeps(AppendAll(x, ms), x) <==> ms == [] || !Swallows(ClampedText(x))
  {
    if |x| <= MAX_WARNING_TEXT {
      NeutralizedSame(x);
      assert Compose(x, []) == x;
      TextSurvivesIff(x, ms);
    } else {
      LongNeverSwallows(x);
      TextHolds(x);
      HoldsAll(x, KeptPart(x), ms);
    }
  }

  /** From a text that was read back with its first note. */
  lemma WholeKeptIff(x: Text, n: Text, ms: seq<Text>)
    requires Free(x, LABEL) && Valid(x) && x != [] && CleanNote(n) && AllClean(ms) && |ms| <= 4
    ensures Keeps(AppendAll(Whole(x, ClampedNote(n)), ms), x) <==> !(Swallows(x) && |KeptPart(x)| > |x| - 12)
  {
    NoteIsShort(n);
    if Swallows(x) && |KeptPart(x)| > |x| - 12 {
      WholeLoses(x, n);
      CarriesWhole(x, n);
      ShortForGood(Whole(x, ClampedNote(n)), |KeptPart(x)|, [n], ms);
    } else {
      WholeHolds(x, ClampedNote(n));
      HoldsAll(Whole(x, ClampedNote(n)), KeptPart(x), ms);
    }
  }

  // ---------------------------------------------------------------- after clipping

  lemma {:induction false} NeutralizedPrefix(s: Text, n: nat)
    requires n <= |s| && forall i :: 0 <= i < n ==> !OccursAt(s, LABEL, i)
    ensures StartsWith(Neutralized(s), s[..n])
    decreases |s|
  {
    if n > 0 {
      assert !OccursAt(s, LABEL, 0);
      assert forall i :: 0 <= i < n - 1 && OccursAt(s[1..], LABEL, i) ==> OccursAt(s, LABEL, i + 1);
      NeutralizedPrefix(s[1..], n - 1);
      assert Neutralized(s) == [s[0]] + Neutralized(s[1..]);
      assert s[..n] == [s[0]] + s[1..][..n - 1];
    }
  }

  lemma {:induction false} CutSame(s: Text, t: Text, max: nat)
    requires max < |s| && max < |t| && forall i :: 0 <= i <= max ==> s[i] == t[i]
    ensures Cut(s, max) == Cut(t, max)
  {
    if max > 0 && !StartsRune(s[max]) {
      CutSame(s, t, max - 1);
    }
  }

  lemma LabelsNotBefore(x: Text, y: Text, i: nat)
    requires Free(x, LABEL) && |x| >= 7000 && |y| >= 7000 && y[..7000] == x[..7000] && i < 3990
    ensures !OccursAt(y, LABEL, i)
  {
    assert forall k :: 0 <= k < 7000 ==> y[k] == y[..7000][k] == x[..7000][k] == x[k];
    assert OccursAt(y, LABEL, i) ==> OccursAt(x, LABEL, i);
  }

  lemma NeutralizedAgrees(x: Text, y: Text)
    requires Free(x, LABEL) && |x| >= 7000 && |y| >= 7000 && y[..7000] == x[..7000]
    ensures var n := Neutralized(y); |n| >= 7000 && forall k :: 0 <= k < 3990 ==> n[k] == x[k]
  {
    var n := Neutralized(y);
    NeutralizedGrows(y);
    forall i | 0 <= i < 3990
      ensures !OccursAt(y, LABEL, i)
    {
      LabelsNotBefore(x, y, i);
    }
    NeutralizedPrefix(y, 3990);
    assert forall k :: 0 <= k < 3990 ==> n[k] == y[..3990][k] == y[k] == y[..7000][k] == x[..7000][k] == x[k];
  }

  lemma SameCut(x: Text, n: Text)
    requires |x| >= 7000 && |n| >= 7000 && forall k :: 0 <= k < 3990 ==> n[k] == x[k]
    ensures Truncated(n, MAX_WARNING_TEXT) == x[..Cut(x, MAX_WARNING_TEXT)] + Suffix(|n| - MAX_WARNING_TEXT)
  {
    CutSame(n, x, MAX_WARNING_TEXT);
    assert n[..Cut(n, MAX_WARNING_TEXT)] == x[..Cut(x, MAX_WARNING_TEXT)];
  }

  lemma MarkCloses(p: Text, over: int)
    ensures StartsClosed(p + Suffix(over), p)
  {
    SuffixStart(over);
  }

  /** A long text that starts like x for far longer than the clamp keeps. */
  lemma ClampedLikeX(x: Text, y: Text)
    requires Free(x, LABEL) && Valid(x) && |x| >= 7000 && |y| >= 7000 && y[..7000] == x[..7000]
    ensures StartsWith(y, KeptPart(x)) && StartsClosed(ClampedText(y), KeptPart(x))
  {
    KeptIs(x);
    NeutralizedAgrees(x, y);
    SameCut(x, Neutralized(y));
    MarkCloses(KeptPart(x), |Neutralized(y)| - MAX_WARNING_TEXT);
    assert forall k :: 0 <= k < 7000 ==> y[k] == y[..7000][k] == x[..7000][k] == x[k];
  }

  lemma LongHolds(warning: Text, x: Text)
    requires Free(x, LABEL) && Valid(x) && |x| >= 7000
    requires |Split(warning).0| >= 7000 && Split(warning).0[..7000] == x[..7000]
    ensures HoldsText(warning, KeptPart(x))
  {
    ClampedLikeX(x, Split(warning).0);
    LongNeverSwallows(Split(warning).0);
  }

  /** However it was clipped. */
  lemma ClippedKeeps(warning: Text, x: Text, ms: seq<Text>)
    requires Free(x, LABEL) && Valid(x) && |x| >= 7000
    requires |Split(warning).0| >= 7000 && Split(warning).0[..7000] == x[..7000] && |Split(warning).1| <= 700
    requires AllClean(ms) && |ms| <= 4
    ensures Keeps(AppendAll(warning, ms), x)
  {
    LongHolds(warning, x);
    HoldsAll(warning, KeptPart(x), ms);
  }

  // ---------------------------------------------------------------- from the text that came in

  /** The first note takes the end of this text with it: it ends like the start of a marker, within what is to be
      kept, and it is not clipped before the note is appended. */
  predicate LosesEnd(x: Text, rewritten: bool) {
    Swallows(x) && |KeptPart(x)| > |x| - 12 && (rewritten ==> |x| <= MAX_WARNING_TEXT)
  }

  lemma LosesEndIff(x: Text)
    requires Free(x, LABEL)
    ensures LosesEnd(x, true) <==> Swallows(ClampedText(x))
  {
    KeptIs(x);
    NeutralizedSame(x);
    if |x| > MAX_WARNING_TEXT {
      LongNeverSwallows(x);
    }
  }

  lemma KeepsNothing(warning: Text)
    ensures Keeps(warning, [])
  {
  }

  lemma KeepsItself(x: Text)
    requires Free(x, LABEL) && Valid(x)
    ensures Keeps(x, x)
  {
    SplitOfText(x);
    KeptCloses(x);
  }

  /** A text that the first clamp has rewritten, and notes that are read back one by one. */
  lemma RewrittenKeptIff(t: Text, ns: seq<Text>)
    requires Free(t, LABEL) && AllClean(ns) && AllValid(ns) && |ns| <= 4
    ensures var x := Sanitized(t);
            Keeps(Sanitized(ReadAll(x, ns)), x) <==> ns == [] || !LosesEnd(x, true)
  {
    var x := Sanitized(t);
    SanitizedText(t);
    ReadAllValid(x, ns);
    SanitizedIff(ReadAll(x, ns));
    TextKeptIff(x, ns);
    LosesEndIff(x);
  }

  /** A text that the first clamp leaves alone. */
  lemma UntouchedKeptIff(t: Text, ns: seq<Text>)
    requires Untouched(t) && AllClean(ns) && AllValid(ns) && |ns| <= 4
    ensures var x := Sanitized(t);
            Keeps(Sanitized(ReadAll(t, ns)), x) <==> ns == [] || !LosesEnd(x, false)
  {
    var x := Sanitized(t);
    UntouchedIsText(t);
    SanitizedText(t);
    if ns == [] {
      KeepsItself(x);
    } else if t == [] {
      assert KeptPart([]) == [];
      KeepsNothing(Sanitized(ReadAll(t, ns)));
    } else {
      UntouchedReads(t, ns);
      SanitizedIff(ReadAll(t, ns));
      SanitizedNonEmpty(t);
      WholeKeptIff(x, ns[0], ns[1..]);
    }
  }

  /** After tier 3 has clipped it, a text of this length is kept whatever follows. */
  lemma ClippedReadKeeps(k: Text, x: Text, ms: seq<Text>)
    requires Free(x, LABEL) && Valid(x) && |x| >= 7000 && Valid(k)
    requires |Split(k).0| >= 7000 && Split(k).0[..7000] == x[..7000] && |Split(k).1| <= 700
    requires AllClean(ms) && AllValid(ms) && |ms| <= 4
    ensures Keeps(Sanitized(ReadAll(k, ms)), x) && forall rewritten :: !LosesEnd(x, rewritten)
  {
    ReadAllValid(k, ms);
    SanitizedIff(ReadAll(k, ms));
    ClippedKeeps(k, x, ms);
  }

  lemma ClippedTextSplit(x: Text)
    requires Free(x, LABEL) && Valid(x) && |x| > MAX_RESULT_TEXT
    ensures var k := Truncated(x, MAX_RESULT_TEXT);
            Valid(k) && Split(k) == (k, []) && |k| >= 7000 && k[..7000] == x[..7000]
  {
    TruncatedIsBounded(x, MAX_RESULT_TEXT);
    CutLosesLessThanARune(x, MAX_RESULT_TEXT);
    LongStart(x, Cut(x, MAX_RESULT_TEXT), Suffix(|x| - MAX_RESULT_TEXT));
    TruncatedIsFree(x, MAX_RESULT_TEXT);
    SplitOfText(Truncated(x, MAX_RESULT_TEXT));
  }

  lemma LongStart(x: Text, cut: nat, s: Text)
    requires 7000 <= cut <= |x|
    ensures |x[..cut] + s| >= 7000 && (x[..cut] + s)[..7000] == x[..7000]
  {
  }
}
