/**
 Which notes reach the reader. Every note that a tier writes is in the final warning, except that clipping in tier 3 can
 take the only note of tier 2 away when reading the warning back has made its text longer.
 */
module ResultEviction {
  import opened Bytes
  import opened Utf8
  import opened TextTruncation
  import opened ResultWarning
  import opened Sanitizing
  import opened WarningReread
  import opened Json
  import opened ResultBounds
  import opened ResultNotes

  // ---------------------------------------------------------------- the notes of tier 2 are distinctive

  /** The first two bytes do not come again within the first 25. */
  predicate Unrepeated(h: Text) {
    |h| >= 25 && forall d :: 1 <= d <= 23 ==> h[0] != h[d] || h[1] != h[d + 1]
  }

  lemma UnrepeatedAscii(s: string)
    requires 25 <= |s| && forall i :: 0 <= i < |s| ==> s[i] <= '~'
    requires forall d :: 1 <= d <= 23 ==> s[0] != s[d] || s[1] != s[d + 1]
    ensures Unrepeated(Ascii(s)) && |Ascii(s)| == |s|
  {
  }

  lemma SnapshotHeadUnrepeated()
    ensures Unrepeated(SNAPSHOT_HEAD) && |SNAPSHOT_HEAD| == 29
  {
    UnrepeatedAscii("snapshot file index omitted (");
  }

  lemma DetailHeadUnrepeated()
    ensures Unrepeated(DETAIL_HEAD) && |DETAIL_HEAD| == 25
  {
    UnrepeatedAscii("detail field(s) omitted (");
  }

  lemma ClampedStart(n: Text, k: nat)
    requires Valid(n) && 25 <= k <= |n| && k <= 500
    ensures |ClampedNote(n)| >= (if |n| < 59 then |n| else 59)
    ensures k <= |ClampedNote(n)| && ClampedNote(n)[..k] == n[..k]
  {
    if |n| > MAX_RESULT_NOTE {
      CutLosesLessThanARune(n, MAX_RESULT_NOTE);
      SuffixLength(|n| - MAX_RESULT_NOTE);
      assert ClampedNote(n)[..k] == n[..k];
    }
  }

  lemma HeadedIsDistinctive(h: Text, rest: Text)
    requires Unrepeated(h) && |h| <= 29 && |h + rest| >= 59 && CleanNote(h + rest) && Valid(h + rest)
    ensures Distinctive(ClampedNote(h + rest))
  {
    var n := h + rest;
    var c := ClampedNote(n);
    ClampedStart(n, |h|);
    forall d | 0 <= d < |h|
      ensures c[d] == h[d]
    {
      assert c[d] == c[..|h|][d] == n[..|h|][d];
    }
    DistinctiveNote(n);
  }

  lemma PartsAreDistinctive(h: Text, a: Text, b: Text, c: Text)
    requires Unrepeated(h) && |h| <= 29 && |h| + |a| + |b| + |c| >= 59
    requires CleanNote(h + a + b + c) && Valid(h + a + b + c)
    ensures Distinctive(ClampedNote(h + a + b + c))
  {
    assert h + a + b + c == h + (a + b + c);
    HeadedIsDistinctive(h, a + b + c);
  }

  lemma PartLengths(limit: Limit)
    ensures |Description(limit)| >= 7 && |EXCEEDED| == 26 && |SNAPSHOT_ENTRIES| == 9 && |Ascii(")")| == 1
  {
    PlainPrinted(Budget(limit));
  }

  lemma SnapshotNoteIsDistinctive(count: nat, limit: Limit)
    ensures Distinctive(ClampedNote(SnapshotNote(count, limit)))
  {
    SnapshotNoteIsClean(count, limit);
    SnapshotHeadUnrepeated();
    PartLengths(limit);
    PartsAreDistinctive(SNAPSHOT_HEAD, Printed(count) + SNAPSHOT_ENTRIES, EXCEEDED, Description(limit) + SNAPSHOT_TAIL);
  }

  lemma OmittedNoteIsDistinctive(keys: seq<Text>, limit: Limit)
    requires forall k :: k in keys ==> Valid(k) && Free(k, LABEL)
    ensures Distinctive(ClampedNote(OmittedNote(keys, limit)))
  {
    OmittedNoteIsClean(keys, limit);
    DetailHeadUnrepeated();
    PartLengths(limit);
    PartsAreDistinctive(DETAIL_HEAD, Join(keys, Ascii(", ")) + Ascii(")"), EXCEEDED, Description(limit));
  }

  lemma Emitted2IsDistinctive(fields: Fields, limit: Limit)
    requires LegibleKeys(fields.Keys) && Emitted2(fields, limit) != []
    ensures Distinctive(ClampedNote(Emitted2(fields, limit)[0]))
  {
    if FileCount(fields) != 0 {
      SnapshotNoteIsDistinctive(FileCount(fields), limit);
    } else {
      OmittedNoteIsDistinctive(Sorted(BulkKeys(fields) - {WARNING}), limit);
    }
  }

  // ---------------------------------------------------------------- when a note is lost

  /** The warning comes in as bytes that the first clamp leaves alone, tier 2 writes exactly one note, and read back
      with it the warning is over the cap and not what clipping would make of it. */
  ghost predicate Overlong(fields: Fields, limit: Limit) {
    && !WarningChanges(fields) && |Emitted2(fields, limit)| == 1
    && var w := Reread(WarningOf(fields), Emitted2(fields, limit)[0]);
       |w| > MAX_RESULT_TEXT && Truncated(w, MAX_RESULT_TEXT) != w
  }

  lemma RereadLength(w: Text, n: Text)
    requires Untouched(w) && CleanNote(n)
    ensures |Reread(w, n)| <= 3 * |w| + 568 <= 13_000
  {
    NoteIsShort(n);
    UntouchedLength(w);
  }

  lemma OverlongReads(fields: Fields, limit: Limit)
    requires LegibleKeys(fields.Keys) && Overlong(fields, limit)
    ensures Second(fields, limit) == Reread(WarningOf(fields), Emitted2(fields, limit)[0])
    ensures Untouched(WarningOf(fields)) && WarningOf(fields) != []
  {
    var w, ns := WarningOf(fields), Emitted2(fields, limit);
    EmittedIsClean(fields, limit, 2);
    FirstTextIsNoteless(fields);
    RereadLength(w, ns[0]);
    assert ns == [ns[0]];
    ReadOne(w, ns[0]);
    FirstNote(w, ns[0]);
  }

  /** What the condition on the input means for the warning of tier 2. */
  lemma OverlongIff(fields: Fields, limit: Limit)
    requires LegibleKeys(fields.Keys)
    ensures Overlong(fields, limit) <==>
            && Emitted2(fields, limit) != [] && |Second(fields, limit)| > MAX_RESULT_TEXT
            && Truncated(Second(fields, limit), MAX_RESULT_TEXT) != Second(fields, limit)
  {
    EmittedIsClean(fields, limit, 2);
    FirstTextIsNoteless(fields);
    if Overlong(fields, limit) {
      OverlongReads(fields, limit);
    } else if Emitted2(fields, limit) != [] && |Second(fields, limit)| > MAX_RESULT_TEXT {
      LongHasOneNote(FirstText(fields), Emitted2(fields, limit));
    }
  }

  /** Nothing of the warning is clipped, or only text. */
  lemma KeptNotes(fields: Fields, limit: Limit, tier: nat)
    requires LegibleKeys(fields.Keys) && 2 <= tier <= 4 && !(tier >= 3 && Overlong(fields, limit))
    ensures Carries(WarningOf(TierBody(fields, limit, tier)), Emitted(fields, limit, tier))
  {
    var first, ns, ms := FirstText(fields), Emitted2(fields, limit), Later(fields, limit, tier);
    WarningAfterTier(fields, limit, tier);
    EmittedIsClean(fields, limit, tier);
    FirstTextIsNoteless(fields);
    OverlongIff(fields, limit);
    if Resumed(fields, limit, tier) == Second(fields, limit) {
      ReadAllConcat(first, ns, ms);
      ReadCarries(first, ns + ms);
    } else {
      NotesBehindText(fields, limit, tier);
      assert ns + ms == ms;
      ReadCarries(Resumed(fields, limit, tier), ms);
    }
  }

  lemma EmptyIsNoteless()
    ensures Noteless([])
  {
    ClampedTextIsFree([]);
    assert ClampedText([]) == [];
  }

  lemma ClippedIsNoteless(t: Text)
    requires Valid(t) && Free(t, LABEL)
    ensures Noteless(Truncated(t, MAX_RESULT_TEXT))
  {
    TruncatedIsFree(t, MAX_RESULT_TEXT);
    TruncatedIsBounded(t, MAX_RESULT_TEXT);
  }

  /** A warning that tier 3 drops, or clips to text, had no notes. */
  lemma NotesBehindText(fields: Fields, limit: Limit, tier: nat)
    requires LegibleKeys(fields.Keys) && !Overlong(fields, limit)
    requires tier >= 3 && Resumed(fields, limit, tier) != Second(fields, limit)
    ensures Emitted2(fields, limit) == [] && Noteless(Resumed(fields, limit, tier))
  {
    if Replaces(fields, tier) {
      EmptyIsNoteless();
    } else {
      ClippedText(fields, limit);
      ClippedIsNoteless(FirstText(fields));
    }
  }

  lemma ClippedText(fields: Fields, limit: Limit)
    requires LegibleKeys(fields.Keys) && !Overlong(fields, limit)
    requires Truncated(Second(fields, limit), MAX_RESULT_TEXT) != Second(fields, limit)
    ensures Emitted2(fields, limit) == [] && Second(fields, limit) == FirstText(fields) && WarningChanges(fields)
    ensures Valid(FirstText(fields)) && Free(FirstText(fields), LABEL)
  {
    OverlongIff(fields, limit);
    UntouchedLengthOf(fields);
    FirstTextIsNoteless(fields);
  }

  lemma UntouchedLengthOf(fields: Fields)
    ensures |FirstText(fields)| > MAX_RESULT_TEXT ==> WarningChanges(fields)
  {
    FirstTextIsNoteless(fields);
    if !WarningChanges(fields) {
      UntouchedLength(WarningOf(fields));
    }
  }

  lemma LostNote(fields: Fields, limit: Limit, tier: nat)
    requires LegibleKeys(fields.Keys) && 3 <= tier <= 4 && Overlong(fields, limit)
    ensures !Carries(WarningOf(TierBody(fields, limit, tier)), Emitted(fields, limit, tier))
  {
    var w, n, ms := WarningOf(fields), Emitted2(fields, limit)[0], Later(fields, limit, tier);
    WarningAfterTier(fields, limit, tier);
    EmittedIsClean(fields, limit, tier);
    OverlongReads(fields, limit);
    assert Emitted2(fields, limit) == [n];
    OverlongIsTooLong(fields, limit);
    RereadValid(w, n);
    TruncatedIsBounded(Reread(w, n), MAX_RESULT_TEXT);
    ReadAllValid(Truncated(Reread(w, n), MAX_RESULT_TEXT), ms);
    ClippedIsLost(Sanitized(w), n, ms);
  }

  lemma OverlongIsTooLong(fields: Fields, limit: Limit)
    requires LegibleKeys(fields.Keys) && Overlong(fields, limit)
    ensures TooLong(Sanitized(WarningOf(fields)), ClampedNote(Emitted2(fields, limit)[0]))
  {
    var w, n := WarningOf(fields), Emitted2(fields, limit)[0];
    EmittedIsClean(fields, limit, 2);
    OverlongReads(fields, limit);
    Emitted2IsDistinctive(fields, limit);
    UntouchedIsText(w);
    SanitizedValid(w);
    RereadLength(w, n);
  }

  lemma ShortWhenValid(fields: Fields, limit: Limit, tier: nat)
    requires LegibleKeys(fields.Keys) && 2 <= tier <= 4 && Valid(WarningOf(fields))
    ensures |WarningOf(TierBody(fields, limit, tier))| <= MAX_RESULT_TEXT && !Overlong(fields, limit)
    ensures Valid(WarningOf(TierBody(fields, limit, tier)))
  {
    WarningAfterTier(fields, limit, tier);
    EmittedIsClean(fields, limit, tier);
    SecondFits(fields, limit);
    ResumedFits(fields, limit, tier);
    ReadFits(Resumed(fields, limit, tier), Later(fields, limit, tier));
  }

  lemma SecondFits(fields: Fields, limit: Limit)
    requires LegibleKeys(fields.Keys) && Valid(WarningOf(fields))
    ensures Valid(Second(fields, limit)) && |Second(fields, limit)| <= MAX_RESULT_TEXT && !Overlong(fields, limit)
  {
    EmittedIsClean(fields, limit, 2);
    ValidTextIsShort(fields);
    ReadFits(FirstText(fields), Emitted2(fields, limit));
    OverlongIff(fields, limit);
  }

  lemma ResumedFits(fields: Fields, limit: Limit, tier: nat)
    requires Valid(Second(fields, limit)) && |Second(fields, limit)| <= MAX_RESULT_TEXT
    ensures Valid(Resumed(fields, limit, tier)) && |Resumed(fields, limit, tier)| <= MAX_RESULT_TEXT
  {
  }

  lemma ValidTextIsShort(fields: Fields)
    requires Valid(WarningOf(fields))
    ensures Valid(FirstText(fields)) && |FirstText(fields)| <= MAX_WARNING_TEXT + 43
  {
    var w := WarningOf(fields);
    FirstTextIsNoteless(fields);
    TruncatedIsBounded(Neutralized(w), MAX_WARNING_TEXT);
    if WarningChanges(fields) {
      ClampsAreValid(w, []);
      SanitizedIff(ClampedText(w));
    }
  }

  lemma ReadFits(w: Text, ns: seq<Text>)
    requires Valid(w) && AllValid(ns) && |w| <= MAX_RESULT_TEXT
    ensures |ReadAll(w, ns)| <= MAX_RESULT_TEXT && Valid(ReadAll(w, ns))
  {
    ReadAllValid(w, ns);
    if ns != [] {
      AppendedFits(w, ns);
    }
  }

  /** The invariant of the tiers, for every body whose field names are legible and whatever its warning: after each
      tier the warning ends with every note any tier wrote, in order and clamped to its own cap only, if and only if
      tier 3 was not reached or the warning that came in is not `Overlong`. A well-formed warning never is, and then
      the warning is within its cap. */
  lemma NotesSurviveIff(fields: Fields, limit: Limit, tier: nat)
    requires LegibleKeys(fields.Keys) && 2 <= tier <= 4
    ensures var w := WarningOf(TierBody(fields, limit, tier));
            && (Carries(w, Emitted(fields, limit, tier)) <==> !(tier >= 3 && Overlong(fields, limit)))
            && (Valid(WarningOf(fields)) ==> |w| <= MAX_RESULT_TEXT && !Overlong(fields, limit))
  {
    if tier >= 3 && Overlong(fields, limit) {
      LostNote(fields, limit, tier);
    } else {
      KeptNotes(fields, limit, tier);
    }
    if Valid(WarningOf(fields)) {
      ShortWhenValid(fields, limit, tier);
    }
  }
}
