/**
 The warning across the tiers. Every tier appends to the warning it finds in the encoded result of the tier before, so
 the warning is a fold over the notes in which each append is read back, and tier 3 clips or replaces it once.
 */
module ResultNotes {
  import opened Options
  import opened Bytes
  import opened Utf8
  import opened TextTruncation
  import opened ResultWarning
  import opened WarningReread
  import opened Json
  import opened ResultBounds

  // ---------------------------------------------------------------- the notes the tiers write are clean

  /** What json.Unmarshal guarantees of keys, and keys free of the label. */
  ghost predicate LegibleKeys(keys: set<Text>) { forall k :: k in keys ==> Valid(k) && Free(k, LABEL) }

  lemma ColonFirst(s: Text)
    requires s != [] && 58 !in s[1..]
    ensures Free(s, LABEL)
  {
    assert LABEL[7] == 58;
    forall i
      ensures !OccursAt(s, LABEL, i)
    {
      if 0 <= i && i + 9 <= |s| {
        assert s[i + 7] == s[1..][i + 6];
      }
    }
  }

  lemma NoColon(s: Text)
    requires 58 !in s
    ensures Free(s, LABEL)
  {
    assert LABEL[7] == 58;
    FreeWithout(s, LABEL, 58);
  }

  /** Printable ASCII without a colon, hence free of the label and well-formed UTF-8. */
  predicate Plain(s: Text) { forall i :: 0 <= i < |s| ==> 0x20 <= s[i] < 0x7F && s[i] != 58 }

  lemma PlainAscii(s: string)
    requires forall i :: 0 <= i < |s| ==> ' ' <= s[i] <= '~' && s[i] != ':'
    ensures Plain(Ascii(s))
  {
  }

  lemma PlainPrinted(n: int)
    ensures Plain(Printed(n)) && Printed(n) != [] && Printed(n)[0] !in LABEL
  {
    PrintedBytes(n);
    NoDigitInLabel(Printed(n)[0]);
  }

  lemma NoDigitInLabel(b: Byte)
    requires 45 <= b < 58
    ensures b !in LABEL
  {
    AsciiLacks("bounded: ", b);
  }

  lemma PlainConcat(a: Text, b: Text)
    requires Plain(a) && Plain(b)
    ensures Plain(a + b)
  {
  }

  lemma PlainIsFree(s: Text)
    requires Plain(s)
    ensures Free(s, LABEL) && Valid(s)
  {
    NoColon(s);
    PrintableValid(s);
  }

  lemma PlainDescription(limit: Limit)
    ensures Plain(Description(limit)) && Description(limit) != [] && Description(limit)[0] !in LABEL
  {
    PlainPrinted(Budget(limit));
    PlainAscii(LimitLabel(limit));
    PlainConcat(Printed(Budget(limit)), Ascii(LimitLabel(limit)));
  }

  lemma ExceededIsFree()
    ensures Free(EXCEEDED, LABEL) && Valid(EXCEEDED)
  {
    AsciiLacks(" the result exceeded the ", 58);
    assert EXCEEDED[1..] == Ascii(" the result exceeded the ");
    ColonFirst(EXCEEDED);
    PrintableAscii(": the result exceeded the ");
    PrintableValid(EXCEEDED);
  }

  /** A note of the form "head) ...: the result exceeded the tail". */
  lemma NoteIsFree(head: Text, tail: Text)
    requires Free(head, LABEL) && Valid(head) && head != [] && head[|head| - 1] == 41
    requires Free(tail, LABEL) && Valid(tail) && tail != [] && tail[0] !in LABEL
    ensures Free(head + EXCEEDED + tail, LABEL) && Valid(head + EXCEEDED + tail)
  {
    ExceededIsFree();
    AsciiLacks("bounded: ", 41);
    FreeAcross(head, EXCEEDED, LABEL);
    FreeAcross(head + EXCEEDED, tail, LABEL);
    ValidConcat(head, EXCEEDED);
    ValidConcat(head + EXCEEDED, tail);
  }

  /** The head of a note decides whether a marker can run into it. */
  ghost predicate CleanHead(h: Text) {
    && |h| > |MARKER|
    && (forall i :: 0 <= i <= |MARKER| ==> StartsRune(h[i]))
    && forall k :: 0 <= k < |MARKER| ==> !StartsWith(h, MARKER[k..])
  }

  lemma CleanNoteFrom(h: Text, rest: Text)
    requires CleanHead(h) && Free(h + rest, LABEL)
    ensures CleanNote(h + rest)
  {
    assert forall k :: 0 <= k < |MARKER| && StartsWith(h + rest, MARKER[k..]) ==> StartsWith(h, MARKER[k..]);
  }

  /** No tail of the marker, from its k-th byte on, starts this text. */
  lemma HeadsDiffer(h: Text)
    requires Plain(h) && |h| > |MARKER|
    requires h[0] !in MARKER || h[1] !in MARKER || h[2] !in MARKER
    requires h[1] !in MARKER ==> h[0] != MARKER[12]
    requires h[1] in MARKER && h[2] !in MARKER ==> h[0] != MARKER[11] && h[0] != MARKER[12]
    ensures CleanHead(h)
  {
    forall k | 0 <= k < |MARKER|
      ensures !StartsWith(h, MARKER[k..])
    {
      assert MARKER[k..][0] == MARKER[k];
      if k + 1 < |MARKER| {
        assert MARKER[k..][1] == MARKER[k + 1];
      }
      if k + 2 < |MARKER| {
        assert MARKER[k..][2] == MARKER[k + 2];
      }
    }
  }

  lemma SnapshotHead()
    ensures Plain(SNAPSHOT_HEAD) && CleanHead(SNAPSHOT_HEAD)
  {
    var h := SNAPSHOT_HEAD;
    PlainAscii("snapshot file index omitted (");
    assert h[0] == 115 && h[1] == 110;
    AsciiLacks(" || bounded: ", 115);
    assert MARKER[7] == 110 && h[1] in MARKER;
    assert MARKER[11] == 58 && MARKER[12] == 32;
    HeadsDiffer(h);
  }

  lemma DetailHead()
    ensures Plain(DETAIL_HEAD) && CleanHead(DETAIL_HEAD) && DETAIL_HEAD[24] == 40
  {
    var h := DETAIL_HEAD;
    PlainAscii("detail field(s) omitted (");
    assert h[0] == 100 && h[1] == 101 && h[2] == 116;
    AsciiLacks(" || bounded: ", 116);
    assert MARKER[9] == 101 && h[1] in MARKER;
    assert MARKER[11] == 58 && MARKER[12] == 32;
    HeadsDiffer(h);
  }

  lemma BackupHead()
    ensures Plain(BACKUP_HEAD) && CleanHead(BACKUP_HEAD)
  {
    var h := BACKUP_HEAD;
    PlainAscii("backup result exceeded the ");
    assert h[0] == 98 && h[1] == 97;
    AsciiLacks(" || bounded: ", 97);
    assert MARKER[12] == 32;
    HeadsDiffer(h);
  }

  lemma SnapshotEntries()
    ensures Plain(SNAPSHOT_ENTRIES) && SNAPSHOT_ENTRIES[8] == 41 && |SNAPSHOT_ENTRIES| == 9
  {
    PlainAscii(" entries)");
  }

  lemma SnapshotTail()
    ensures Plain(SNAPSHOT_TAIL)
  {
    PlainAscii(", so per-file restore browsing");
    PlainAscii(" is unavailable for this snapshot");
    PlainConcat(Ascii(", so per-file restore browsing"), Ascii(" is unavailable for this snapshot"));
  }

  lemma BackupTail()
    ensures Plain(BACKUP_TAIL)
  {
    PlainAscii(" and was reduced to a terminal");
    PlainAscii(" status; detail was dropped");
    PlainConcat(Ascii(" and was reduced to a terminal"), Ascii(" status; detail was dropped"));
  }

  lemma FromHead(h: Text, a: Text, b: Text, c: Text)
    requires CleanHead(h) && Free(h + a + b + c, LABEL)
    ensures CleanNote(h + a + b + c)
  {
    assert h + a + b + c == h + (a + b + c);
    CleanNoteFrom(h, a + b + c);
  }

  /** head + middle + EXCEEDED + tail, all plain, the middle ending in a parenthesis. */
  lemma PlainNoteIsClean(h: Text, m: Text, t: Text)
    requires Plain(h) && CleanHead(h) && Plain(m) && m != [] && m[|m| - 1] == 41
    requires Plain(t) && t != [] && t[0] !in LABEL
    ensures CleanNote(h + m + EXCEEDED + t) && Valid(h + m + EXCEEDED + t)
  {
    PlainConcat(h, m);
    PlainIsFree(h + m);
    PlainIsFree(t);
    NoteIsFree(h + m, t);
    FromHead(h, m, EXCEEDED, t);
  }

  lemma SnapshotNoteIsClean(count: nat, limit: Limit)
    ensures CleanNote(SnapshotNote(count, limit)) && Valid(SnapshotNote(count, limit))
  {
    SnapshotHead();
    SnapshotEntries();
    SnapshotTail();
    PlainPrinted(count);
    PlainDescription(limit);
    PlainConcat(Printed(count), SNAPSHOT_ENTRIES);
    PlainConcat(Description(limit), SNAPSHOT_TAIL);
    PlainNoteIsClean(SNAPSHOT_HEAD, Printed(count) + SNAPSHOT_ENTRIES, Description(limit) + SNAPSHOT_TAIL);
  }

  lemma LastResortNoteIsClean(limit: Limit)
    ensures CleanNote(LastResortNote(limit)) && Valid(LastResortNote(limit))
  {
    BackupHead();
    BackupTail();
    PlainDescription(limit);
    PlainConcat(Description(limit), BACKUP_TAIL);
    PlainConcat(BACKUP_HEAD, Description(limit) + BACKUP_TAIL);
    PlainIsFree(BACKUP_HEAD + (Description(limit) + BACKUP_TAIL));
    CleanNoteFrom(BACKUP_HEAD, Description(limit) + BACKUP_TAIL);
  }

  lemma {:induction false} ListedKeys(keys: seq<Text>)
    requires forall k :: k in keys ==> Valid(k) && Free(k, LABEL)
    ensures Valid(Join(keys, Ascii(", "))) && Free(Join(keys, Ascii(", ")), LABEL)
  {
    var c := Ascii(", ");
    if |keys| > 1 {
      var init, last := keys[..|keys| - 1], keys[|keys| - 1];
      ListedKeys(init);
      PlainAscii(", ");
      PlainIsFree(c);
      ValidConcat(Join(init, c), c);
      ValidConcat(Join(init, c) + c, last);
      AsciiLacks("bounded: ", 44);
      FreeAfterSeparator(Join(init, c), c, last);
    }
  }

  lemma KeyListIsFree(list: Text)
    requires Valid(list) && Free(list, LABEL)
    ensures var h := DETAIL_HEAD + (list + Ascii(")"));
            Valid(h) && Free(h, LABEL) && h[|h| - 1] == 41
  {
    DetailHead();
    PlainAscii(")");
    PlainIsFree(DETAIL_HEAD);
    PlainIsFree(Ascii(")"));
    AsciiLacks("bounded: ", 40);
    AsciiLacks("bounded: ", 41);
    FreeAcross(list, Ascii(")"), LABEL);
    FreeAcross(DETAIL_HEAD, list + Ascii(")"), LABEL);
    ValidConcat(list, Ascii(")"));
    ValidConcat(DETAIL_HEAD, list + Ascii(")"));
  }

  lemma OmittedNoteIsClean(keys: seq<Text>, limit: Limit)
    requires forall k :: k in keys ==> Valid(k) && Free(k, LABEL)
    ensures CleanNote(OmittedNote(keys, limit)) && Valid(OmittedNote(keys, limit))
  {
    var list := Join(keys, Ascii(", "));
    ListedKeys(keys);
    KeyListIsFree(list);
    PlainDescription(limit);
    PlainIsFree(Description(limit));
    NoteIsFree(DETAIL_HEAD + (list + Ascii(")")), Description(limit));
    DetailHead();
    FromHead(DETAIL_HEAD, list + Ascii(")"), EXCEEDED, Description(limit));
  }

  // ---------------------------------------------------------------- the warning, tier by tier

  function IndexNotes(count: nat, limit: Limit): seq<Text> {
    if count == 0 then [] else [SnapshotNote(count, limit)]
  }

  ghost function OmittedNotes(keys: set<Text>, limit: Limit): seq<Text> {
    if keys == {} then [] else [OmittedNote(Sorted(keys), limit)]
  }

  /** The notes of tier 2, in terms of the body that comes in. */
  ghost function Emitted2(fields: Fields, limit: Limit): seq<Text> {
    IndexNotes(FileCount(fields), limit) + OmittedNotes(BulkKeys(fields) - {WARNING}, limit)
  }

  lemma KeysDiffer()
    ensures WARNING != SNAPSHOT && WARNING != SNAPSHOT_ID && SNAPSHOT != FILES && STATUS != WARNING
    ensures SNAPSHOT_ID != STATUS && STATUS != SNAPSHOT && ID != FILES && WARNING !in RECOVERED_KEYS
    ensures FILES !in IDENTITY_KEYS
  {
    assert |WARNING| == 7 && |SNAPSHOT| == 8 && |FILES| == 5 && |STATUS| == 6 && |SNAPSHOT_ID| == 10 && |ID| == 2;
    assert |JOB_ID| == 5;
  }

  /** The one case in which a tier replaces the run's text: tier 3 drops a container-valued warning. */
  predicate LosesText(fields: Fields) { WARNING in fields && IsContainer(fields[WARNING]) }

  /** A warning that has been written as a string, or one that is not long. */
  ghost predicate Settled(fields: Fields) {
    || |WarningOf(fields)| <= MAX_RESULT_TEXT
    || (WARNING in fields && fields[WARNING].value.Str? && Valid(WarningOf(fields)))
  }

  lemma WrittenWarning(fields: Fields, warning: Text)
    ensures var f := WithWarning(fields, warning);
            WarningOf(f) == Sanitized(warning) && !LosesText(f) && Settled(f)
  {
    SanitizedValid(warning);
  }

  lemma NotedWarning(fields: Fields, note: Text)
    ensures var f := Noted(fields, note);
            WarningOf(f) == ReadAll(WarningOf(fields), [note]) && !LosesText(f) && Settled(f)
  {
    WrittenWarning(fields, Append(WarningOf(fields), note));
    ReadOne(WarningOf(fields), note);
  }

  /** The run's text as the first clamp leaves it: rewritten, and then read back, or untouched. */
  function FirstText(fields: Fields): Text {
    if WarningChanges(fields) then Sanitized(ClampedText(WarningOf(fields))) else WarningOf(fields)
  }

  lemma FirstTextIsNoteless(fields: Fields)
    ensures Noteless(FirstText(fields)) && (!WarningChanges(fields) ==> Untouched(WarningOf(fields)))
    ensures WarningChanges(fields) ==> Valid(FirstText(fields)) && Free(FirstText(fields), LABEL)
  {
    var w := WarningOf(fields);
    if WarningChanges(fields) {
      ClampedTextIsFree(w);
      SanitizedText(ClampedText(w));
    }
  }

  lemma UntouchedLength(w: Text)
    requires Untouched(w)
    ensures |w| <= MAX_WARNING_TEXT + 43
  {
    TruncatedIsBounded(Neutralized(w), MAX_WARNING_TEXT);
  }

  lemma BoundWarningText(fields: Fields)
    ensures WarningOf(BoundWarning(fields)) == FirstText(fields) && Settled(BoundWarning(fields))
    ensures LosesText(BoundWarning(fields)) <==> LosesText(fields) && !WarningChanges(fields)
    ensures FileCount(BoundWarning(fields)) == FileCount(fields)
  {
    KeysDiffer();
    FirstTextIsNoteless(fields);
    if WarningChanges(fields) {
      WrittenWarning(fields, ClampedText(WarningOf(fields)));
    } else {
      UntouchedLength(WarningOf(fields));
    }
  }

  lemma EmptyIndexWarning(fields: Fields, limit: Limit)
    requires Settled(fields)
    ensures WarningOf(EmptyIndex(fields, limit)) == ReadAll(WarningOf(fields), IndexNotes(FileCount(fields), limit))
    ensures Settled(EmptyIndex(fields, limit))
    ensures LosesText(EmptyIndex(fields, limit)) <==> LosesText(fields) && FileCount(fields) == 0
  {
    if FileCount(fields) != 0 {
      var e := WithSnapshot(fields, SnapshotOf(fields)[FILES := EMPTY_ARRAY]);
      KeysDiffer();
      assert WarningOf(e) == WarningOf(fields);
      NotedWarning(e, SnapshotNote(FileCount(fields), limit));
    }
  }

  /** A warning that the first clamp leaves alone is shorter than the bulk threshold. */
  lemma WarningIsNotBulk(fields: Fields)
    ensures WARNING !in BulkKeys(BoundWarning(fields))
  {
    BoundWarningText(fields);
    if LosesText(BoundWarning(fields)) {
      FirstTextIsNoteless(fields);
      UntouchedLength(WarningOf(fields));
    }
  }

  lemma BulkAfterBound(fields: Fields)
    ensures BulkKeys(BoundWarning(fields)) == BulkKeys(fields) - {WARNING}
  {
    WarningIsNotBulk(fields);
    assert forall k :: k != WARNING ==> (k in BulkKeys(BoundWarning(fields)) <==> k in BulkKeys(fields));
  }

  /** Only the snapshot and the warning differ, and neither warning is bulk. */
  lemma SameBulk(f: Fields, snapshot: Raw, warning: Raw)
    requires WARNING !in BulkKeys(f) && !IsContainer(warning)
    ensures BulkKeys(f[SNAPSHOT := snapshot][WARNING := warning]) == BulkKeys(f)
  {
    var e := f[SNAPSHOT := snapshot][WARNING := warning];
    forall k
      ensures k in BulkKeys(e) <==> k in BulkKeys(f)
    {
      if k != WARNING && k != SNAPSHOT {
        assert (k in e <==> k in f) && (k in e ==> e[k] == f[k]);
      }
    }
  }

  lemma BulkAfterIndex(fields: Fields, limit: Limit)
    requires WARNING !in BulkKeys(fields)
    ensures BulkKeys(EmptyIndex(fields, limit)) == BulkKeys(fields)
  {
    if FileCount(fields) != 0 {
      var snapshot := SnapshotOf(fields)[FILES := EMPTY_ARRAY];
      var w := Append(WarningOf(WithSnapshot(fields, snapshot)), SnapshotNote(FileCount(fields), limit));
      SameBulk(fields, Raw(EncodedObject(snapshot), Obj(snapshot)), RawString(w));
    }
  }

  /** So the warning itself is never dropped as bulk, and which fields are can be seen on the input. */
  lemma BulkOfIndexless(fields: Fields, limit: Limit)
    ensures BulkKeys(Indexless(fields, limit)) == BulkKeys(fields) - {WARNING}
  {
    BulkAfterBound(fields);
    BulkAfterIndex(BoundWarning(fields), limit);
  }

  lemma DropBulkWarning(fields: Fields, limit: Limit)
    requires WARNING !in BulkKeys(fields) && Settled(fields)
    ensures WarningOf(DropBulk(fields, limit)) == ReadAll(WarningOf(fields), OmittedNotes(BulkKeys(fields), limit))
    ensures Settled(DropBulk(fields, limit))
    ensures LosesText(DropBulk(fields, limit)) <==> LosesText(fields) && BulkKeys(fields) == {}
  {
    var bulk := BulkKeys(fields);
    if bulk != {} {
      assert WarningOf(fields - bulk) == WarningOf(fields);
      NotedWarning(fields - bulk, OmittedNote(Sorted(bulk), limit));
    }
  }

  /** Tier 2 leaves the clamped run text with its notes appended, each append read back. The warning is then still a
      container only if it came in as one and nothing was written to it, and a long warning is a string. */
  lemma Tier2Warning(fields: Fields, limit: Limit)
    ensures WarningOf(Tier2(fields, limit)) == ReadAll(FirstText(fields), Emitted2(fields, limit))
    ensures Settled(Tier2(fields, limit))
    ensures LosesText(Tier2(fields, limit)) <==>
            LosesText(fields) && !WarningChanges(fields) && Emitted2(fields, limit) == []
  {
    BoundWarningText(fields);
    EmptyIndexWarning(BoundWarning(fields), limit);
    BulkOfIndexless(fields, limit);
    DropBulkWarning(Indexless(fields, limit), limit);
    ReadAllConcat(FirstText(fields), IndexNotes(FileCount(fields), limit),
                  OmittedNotes(BulkKeys(fields) - {WARNING}, limit));
  }

  // ---------------------------------------------------------------- tiers 3 and 4

  /** What tier 3 makes of the warning it finds: nothing of a container, and a long text is clipped. */
  function Clipped(fields: Fields): Text {
    if LosesText(fields) then [] else Truncated(WarningOf(fields), MAX_RESULT_TEXT)
  }

  lemma KeptWarning(fields: Fields)
    requires Settled(fields)
    ensures WarningOf(Kept(fields)) == Clipped(fields)
  {
    var w := WarningOf(fields);
    KeysDiffer();
    if WARNING in fields && !LosesText(fields) {
      assert ScalarFields(fields)[WARNING] == ClampedScalar(fields[WARNING]);
      if |w| > MAX_RESULT_TEXT {
        TruncatedIsBounded(w, MAX_RESULT_TEXT);
        SanitizedIff(Truncated(w, MAX_RESULT_TEXT));
      }
    }
  }

  lemma Tier3Warning(fields: Fields, limit: Limit)
    ensures var f := Tier2(fields, limit);
            WarningOf(Tier3(f, limit)) == ReadAll(Clipped(f), OmittedNotes(ContainerKeys(f), limit))
  {
    var f := Tier2(fields, limit);
    Tier2Warning(fields, limit);
    KeptWarning(f);
    if ContainerKeys(f) != {} {
      NotedWarning(Kept(f), OmittedNote(Sorted(ContainerKeys(f)), limit));
    }
  }

  lemma Tier4Warning(fields: Fields, limit: Limit)
    ensures WarningOf(LastResort(fields, limit)) == ReadAll(WarningOf(fields), [LastResortNote(limit)])
  {
    WrittenWarning(Recovered(fields), Append(WarningOf(fields), LastResortNote(limit)));
    ReadOne(WarningOf(fields), LastResortNote(limit));
  }

  /** The body that a tier produces from the decoded body of the result. */
  ghost function TierBody(fields: Fields, limit: Limit, tier: nat): Fields
    requires 2 <= tier <= 4
  {
    if tier == 2 then Tier2(fields, limit)
    else if tier == 3 then Tier3(Tier2(fields, limit), limit)
    else LastResort(Tier3(Tier2(fields, limit), limit), limit)
  }

  /** The notes that are written after tier 2. */
  ghost function Later(fields: Fields, limit: Limit, tier: nat): seq<Text> {
    if tier <= 2 then []
    else if tier == 3 then OmittedNotes(ContainerKeys(Tier2(fields, limit)), limit)
    else OmittedNotes(ContainerKeys(Tier2(fields, limit)), limit) + [LastResortNote(limit)]
  }

  /** All the notes written into the warning up to and including a tier. */
  ghost function Emitted(fields: Fields, limit: Limit, tier: nat): seq<Text> {
    Emitted2(fields, limit) + Later(fields, limit, tier)
  }

  /** Tier 3 meets the run's warning as a container: it is one, short enough for the first clamp to leave alone, and
      there is neither a file index nor a bulk field for tier 2 to note. */
  predicate Replaces(fields: Fields, tier: nat) {
    && tier >= 3 && LosesText(fields) && !WarningChanges(fields)
    && FileCount(fields) == 0 && BulkKeys(fields) - {WARNING} == {}
  }

  /** The warning of tier 2, with its notes. */
  ghost function Second(fields: Fields, limit: Limit): Text { ReadAll(FirstText(fields), Emitted2(fields, limit)) }

  /** The warning that the notes after tier 2 are appended to. */
  ghost function Resumed(fields: Fields, limit: Limit, tier: nat): Text {
    if tier <= 2 then Second(fields, limit)
    else if Replaces(fields, tier) then []
    else Truncated(Second(fields, limit), MAX_RESULT_TEXT)
  }

  /** Tier 3 finds the warning as a container exactly in the case that can be seen on the input. */
  lemma LosesTextIff(fields: Fields, limit: Limit, tier: nat)
    ensures tier >= 3 && LosesText(Tier2(fields, limit)) <==> Replaces(fields, tier)
  {
    Tier2Warning(fields, limit);
  }

  lemma ResumedIsClipped(fields: Fields, limit: Limit, tier: nat)
    requires tier >= 3
    ensures Resumed(fields, limit, tier) == Clipped(Tier2(fields, limit))
  {
    Tier2Warning(fields, limit);
    LosesTextIff(fields, limit, tier);
  }

  /** For every body and every tier: the warning is the run's text, clamped once, with the notes of tier 2; from tier 3
      on it is clipped, or dropped in the one case that `Replaces` describes, and the later notes follow. Every append
      is read back before the next. */
  lemma WarningAfterTier(fields: Fields, limit: Limit, tier: nat)
    requires 2 <= tier <= 4
    ensures WarningOf(TierBody(fields, limit, tier)) ==
            ReadAll(Resumed(fields, limit, tier), Later(fields, limit, tier))
  {
    Tier2Warning(fields, limit);
    if tier >= 3 {
      ResumedIsClipped(fields, limit, tier);
      Tier3Warning(fields, limit);
    }
    if tier == 4 {
      Tier4Warning(Tier3(Tier2(fields, limit), limit), limit);
      ReadAllConcat(Resumed(fields, limit, 4), OmittedNotes(ContainerKeys(Tier2(fields, limit)), limit),
                    [LastResortNote(limit)]);
    }
  }

  // ---------------------------------------------------------------- all of these notes are clean

  ghost predicate Fine(ns: seq<Text>) { AllClean(ns) && AllValid(ns) }

  lemma IndexNotesAreClean(count: nat, limit: Limit)
    ensures Fine(IndexNotes(count, limit)) && |IndexNotes(count, limit)| <= 1
  {
    SnapshotNoteIsClean(count, limit);
  }

  lemma OmittedNotesAreClean(keys: set<Text>, limit: Limit)
    requires LegibleKeys(keys)
    ensures Fine(OmittedNotes(keys, limit)) && |OmittedNotes(keys, limit)| <= 1
  {
    if keys != {} {
      OmittedNoteIsClean(Sorted(keys), limit);
    }
  }

  lemma FineConcat(a: seq<Text>, b: seq<Text>)
    requires Fine(a) && Fine(b)
    ensures Fine(a + b)
  {
  }

  lemma WarningKeyIsLegible()
    ensures Valid(WARNING) && Free(WARNING, LABEL)
  {
    PlainAscii("warning");
    PlainIsFree(WARNING);
  }

  lemma KeysOfTier2(fields: Fields, limit: Limit)
    ensures Tier2(fields, limit).Keys <= fields.Keys + {WARNING}
  {
    KeysOfIndexless(fields, limit);
  }

  lemma KeysOfIndexless(fields: Fields, limit: Limit)
    ensures Indexless(fields, limit).Keys <= fields.Keys + {WARNING}
  {
  }

  lemma EmittedIsClean(fields: Fields, limit: Limit, tier: nat)
    requires LegibleKeys(fields.Keys)
    ensures Fine(Emitted2(fields, limit)) && |Emitted2(fields, limit)| <= 2
    ensures Fine(Later(fields, limit, tier)) && |Later(fields, limit, tier)| <= 2
    ensures Fine(Emitted(fields, limit, tier))
  {
    IndexNotesAreClean(FileCount(fields), limit);
    OmittedNotesAreClean(BulkKeys(fields) - {WARNING}, limit);
    FineConcat(IndexNotes(FileCount(fields), limit), OmittedNotes(BulkKeys(fields) - {WARNING}, limit));
    LaterIsClean(fields, limit, tier);
    FineConcat(Emitted2(fields, limit), Later(fields, limit, tier));
  }

  lemma ContainersAreLegible(fields: Fields, limit: Limit)
    requires LegibleKeys(fields.Keys)
    ensures LegibleKeys(ContainerKeys(Tier2(fields, limit)))
  {
    KeysOfTier2(fields, limit);
    WarningKeyIsLegible();
  }

  lemma LaterIsClean(fields: Fields, limit: Limit, tier: nat)
    requires LegibleKeys(fields.Keys)
    ensures Fine(Later(fields, limit, tier)) && |Later(fields, limit, tier)| <= 2
  {
    var keys := ContainerKeys(Tier2(fields, limit));
    ContainersAreLegible(fields, limit);
    OmittedNotesAreClean(keys, limit);
    LastResortNoteIsClean(limit);
    FineConcat(OmittedNotes(keys, limit), [LastResortNote(limit)]);
  }

  lemma SentIsCandidate(r: CommandResult)
    requires r.stdout.body.Some? && !Fits(Candidate1(r))
    ensures 2 <= TierOf(r) <= 4
    ensures Sent(r) == if TierOf(r) == 2 then Candidate2(r) else if TierOf(r) == 3 then Candidate3(r) else Candidate4(r)
  {
  }

  lemma CandidateBodies(r: CommandResult)
    requires r.stdout.body.Some?
    ensures var fields, limit := r.stdout.body.value, ExceededLimit(r);
            && Candidate2(r).stdout == Document(TierBody(fields, limit, 2))
            && Candidate3(r).stdout == Document(TierBody(fields, limit, 3))
            && Candidate4(r).stdout == Document(TierBody(fields, limit, 4))
  {
  }

  /** That tier's body is what is sent. */
  lemma SentBody(r: CommandResult)
    requires r.stdout.body.Some? && !Fits(Candidate1(r))
    ensures 2 <= TierOf(r) <= 4
    ensures Sent(r).stdout == Document(TierBody(r.stdout.body.value, ExceededLimit(r), TierOf(r)))
  {
    SentIsCandidate(r);
    CandidateBodies(r);
  }
}
