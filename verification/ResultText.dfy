/**
 When the run's own warning text is lost: exactly when the first clamp leaves it ending like the start of a marker
 and a note is appended. Splitting then takes twelve bytes of the text for notes, and no later append gives them
 back.
 */
module ResultText {
  import opened Bytes
  import opened Utf8
  import opened TextTruncation
  import opened ResultWarning

  /** The marker without its first byte, which is what a swallowing text leaves in front of the notes. */
  const STUB: Text := MARKER[1..]

  /** Any number of stubs, then notes without the label. */
  ghost predicate Swollen(m: Text)
    decreases |m|
  {
    Free(m, LABEL) || (StartsWith(m, STUB) && Swollen(m[12..]))
  }

  /** The text part is shorter than n, and so is every text part that further appends can make of it. */
  ghost predicate ShortText(warning: Text, n: nat) {
    var (x, m) := Split(warning);
    Free(x, LABEL) && |x| < n && |x| <= MAX_WARNING_TEXT && Swollen(m)
  }

  lemma {:induction false} SwollenMore(m: Text, c: Text)
    requires Swollen(m) && Free(c, LABEL)
    ensures Swollen(m + SEPARATOR + c)
    decreases |m|
  {
    if Free(m, LABEL) {
      AsciiLacks("bounded: ", 59);
      FreeAfterSeparator(m, SEPARATOR, c);
    } else {
      SwollenMore(m[12..], c);
      assert (m + SEPARATOR + c)[12..] == m[12..] + SEPARATOR + c;
    }
  }

  lemma SwollenStub(e: Text)
    requires Swollen(e)
    ensures Swollen(STUB + e)
  {
    assert (STUB + e)[12..] == e;
  }

  lemma SwollenExtended(m: Text, f: Text)
    requires Swollen(m) && CleanNote(f)
    ensures Swollen(Extended(m, f)) && Extended(m, f) != []
  {
    ClampedNoteHead(f);
    if m != [] {
      SwollenMore(m, ClampedNote(f));
    }
  }

  lemma StubCompletesMarker(e: Text)
    requires StartsWith(e, STUB)
    ensures OccursAt(LABEL + e, MARKER, 8)
  {
    var w := LABEL + e;
    assert w[8] == LABEL[8] == MARKER[0];
    assert forall k :: 0 <= k < 12 ==> STUB[k] == MARKER[k + 1];
    assert forall k :: 0 <= k < 12 ==> w[9 + k] == e[k];
    assert forall k :: 1 <= k < 13 ==> w[8 + k] == e[k - 1] == STUB[k - 1] == MARKER[k];
  }

  /** The label has no space before its end, so no marker starts there. */
  lemma NoMarkerInLabel(e: Text, k: nat)
    requires k < 8
    ensures !OccursAt(LABEL + e, MARKER, k)
  {
    AsciiLacks("bounded:", 32);
    assert LABEL[..8] == Ascii("bounded:");
    assert (LABEL + e)[k] == LABEL[..8][k];
    assert MARKER[0] == 32;
  }

  /** Notes behind the label alone: the first stub completes a marker there, and eight bytes pass for text. */
  lemma StubBehindLabel(e: Text)
    requires StartsWith(e, STUB)
    ensures Split(LABEL + e) == (LABEL[..8], e[12..])
  {
    var w := LABEL + e;
    StubCompletesMarker(e);
    forall k: nat | k < 8
      ensures !OccursAt(w, MARKER, k)
    {
      NoMarkerInLabel(e, k);
    }
    assert IndexFrom(w, MARKER, 0) == 8;
    assert w[..8] == LABEL[..8] && w[21..] == e[12..];
  }

  lemma ShortIsFree(s: Text)
    requires |s| < |LABEL|
    ensures Free(s, LABEL)
  {
  }

  lemma SplitAfterText(x: Text, e: Text, n: nat)
    requires Free(x, LABEL) && x != [] && |x| < n && |x| <= MAX_WARNING_TEXT && Swollen(e) && e != []
    ensures ShortText(x + MARKER + e, n)
  {
    SplitOfBoth(x, e);
    if Swallows(x) {
      FreePrefix(x, LABEL, |x| - 12);
      SwollenStub(e);
    }
  }

  lemma SplitAfterLabel(e: Text, n: nat)
    requires 12 <= n && Swollen(e) && e != []
    ensures ShortText(LABEL + e, n)
  {
    if Free(e, LABEL) {
      LabelFreeNotes(e);
      SplitOfNotes(e);
    } else {
      StubBehindLabel(e);
      ShortIsFree(LABEL[..8]);
    }
  }

  lemma AppendStaysShort(warning: Text, n: nat, f: Text)
    requires ShortText(warning, n) && 12 <= n && CleanNote(f)
    requires |Split(warning).1| + 2 + |ClampedNote(f)| <= MAX_RESULT_NOTES
    ensures ShortText(Append(warning, f), n)
  {
    var (x, m) := Split(warning);
    NeutralizedSame(x);
    SwollenExtended(m, f);
    if x == [] {
      SplitAfterLabel(Extended(m, f), n);
    } else {
      SplitAfterText(x, Extended(m, f), n);
    }
  }

  /** A text that swallows is not clipped, so all of it counts as kept. */
  lemma SwallowingIsWhole(text: Text)
    requires Swallows(ClampedText(text))
    ensures KeptPart(text) == ClampedText(text) && 12 <= |ClampedText(text)| <= MAX_WARNING_TEXT
  {
    if |Neutralized(text)| > MAX_WARNING_TEXT {
      ClippedNeverSwallows(Neutralized(text), MAX_WARNING_TEXT);
    }
  }

  lemma FirstNoteSwallowed(text: Text, f: Text)
    requires Swallows(ClampedText(text)) && CleanNote(f)
    ensures ShortText(Append(Compose(text, []), f), |ClampedText(text)|)
  {
    var t := ClampedText(text);
    SwallowingIsWhole(text);
    ClampedTextIsFree(text);
    SplitOfText(t);
    NeutralizedSame(t);
    ClampedNoteHead(f);
    SplitOfBoth(t, ClampedNote(f));
    FreePrefix(t, LABEL, |t| - 12);
    SwollenStub(ClampedNote(f));
  }

  lemma {:induction false} SwallowedForGood(text: Text, ns: seq<Text>)
    requires Swallows(ClampedText(text)) && 1 <= |ns| <= 7 && forall f :: f in ns ==> CleanNote(f)
    ensures ShortText(AppendAll(Compose(text, []), ns), |ClampedText(text)|)
  {
    var init, f := ns[..|ns| - 1], ns[|ns| - 1];
    SwallowingIsWhole(text);
    if init == [] {
      FirstNoteSwallowed(text, f);
    } else {
      SwallowedForGood(text, init);
      TextAndNotesSurvive(text, init);
      ClampedNoteHead(f);
      AppendStaysShort(AppendAll(Compose(text, []), init), |ClampedText(text)|, f);
    }
  }

  /** For every text and up to seven notes: the warning still starts with what the first clamp kept of the text if
      and only if there are no notes or the clamped text does not end in the first twelve bytes of the marker. */
  lemma TextSurvivesIff(text: Text, ns: seq<Text>)
    requires |ns| <= 7 && forall f :: f in ns ==> CleanNote(f)
    ensures StartsWith(Split(AppendAll(Compose(text, []), ns)).0, KeptPart(text)) <==>
            ns == [] || !Swallows(ClampedText(text))
  {
    if ns == [] {
      ClampedTextIsFree(text);
      SplitOfText(ClampedText(text));
      FirstClampStarts(text);
    } else if Swallows(ClampedText(text)) {
      SwallowedForGood(text, ns);
      SwallowingIsWhole(text);
    } else {
      TextAndNotesSurvive(text, ns);
    }
  }

  lemma ExtendedIsFree(m: Text, f: Text)
    requires Free(m, LABEL) && CleanNote(f)
    ensures Free(Extended(m, f), LABEL)
  {
    ClampedNoteHead(f);
    AsciiLacks("bounded: ", 59);
    FreeAfterSeparator(m, SEPARATOR, ClampedNote(f));
  }

  lemma AppendToNotesOnly(warning: Text, f: Text)
    requires Split(warning).0 == [] && Free(Split(warning).1, LABEL) && CleanNote(f)
    ensures Split(Append(warning, f)).0 == [] && Free(Split(Append(warning, f)).1, LABEL)
  {
    var e := Extended(Split(warning).1, f);
    ExtendedIsFree(Split(warning).1, f);
    assert ClampedText([]) == [];
    RoundTrip([], e);
    TruncatedIsFree(e, MAX_RESULT_NOTES);
  }

  /** Notes on an empty text leave the text part empty. */
  lemma {:induction false} NoTextStaysEmpty(ns: seq<Text>)
    requires forall f :: f in ns ==> CleanNote(f)
    ensures Split(AppendAll([], ns)).0 == [] && Free(Split(AppendAll([], ns)).1, LABEL)
  {
    if ns == [] {
      ShortIsFree([]);
      SplitOfText([]);
    } else {
      NoTextStaysEmpty(ns[..|ns| - 1]);
      AppendToNotesOnly(AppendAll([], ns[..|ns| - 1]), ns[|ns| - 1]);
    }
  }
}
