/**
 What is on the wire, in the names and figures that the server knows.
 */
module ResultWire {
  import opened Options
  import opened Bytes
  import opened Utf8
  import opened TextTruncation
  import opened ResultWarning
  import opened ResultText
  import opened WarningReread
  import opened Json
  import opened ResultBounds
  import opened ResultNotes
  import opened ResultMeaning
  import opened ResultLimits

  /** The object under a name, if there is one. */
  predicate HasObject(fields: Fields, name: string) { Ascii(name) in fields && fields[Ascii(name)].value.Obj? }

  function ObjectAt(fields: Fields, name: string): Fields
    requires HasObject(fields, name)
  {
    fields[Ascii(name)].value.fields
  }

  /** The snapshot keeps what the server makes a restore point of, through tiers 2 and 3: field by field, absent or as
      it was. */
  lemma SnapshotFieldsKept(fields: Fields, limit: Limit, tier: nat)
    requires 2 <= tier <= 3 && HasObject(fields, "snapshot")
    ensures HasObject(TierBody(fields, limit, tier), "snapshot")
    ensures var a, b := ObjectAt(TierBody(fields, limit, tier), "snapshot"), ObjectAt(fields, "snapshot");
            && SameAt(a, b, Ascii("id")) && SameAt(a, b, Ascii("timestamp")) && SameAt(a, b, Ascii("size"))
            && SameAt(a, b, Ascii("formatVersion")) && SameAt(a, b, Ascii("baseSnapshotId"))
  {
    SnapshotIdentityKept(fields, limit, tier, Ascii("id"));
    SnapshotIdentityKept(fields, limit, tier, Ascii("timestamp"));
    SnapshotIdentityKept(fields, limit, tier, Ascii("size"));
    SnapshotIdentityKept(fields, limit, tier, Ascii("formatVersion"));
    SnapshotIdentityKept(fields, limit, tier, Ascii("baseSnapshotId"));
  }

  const SNAPSHOT_NAMES: set<Text> :=
    {Ascii("id"), Ascii("timestamp"), Ascii("size"), Ascii("formatVersion"), Ascii("baseSnapshotId")}

  lemma IdentityNames()
    ensures IDENTITY_KEYS == SNAPSHOT_NAMES && FILES == Ascii("files") && SNAPSHOT == Ascii("snapshot")
    ensures EMPTY_ARRAY == Raw(Ascii("[]"), Arr([]))
  {
  }

  lemma IdentityIsBare(snapshot: Fields, k: Text)
    ensures k in Identity(snapshot) ==> k in IDENTITY_KEYS || k == FILES
  {
  }

  lemma Tier3Snapshot(fields: Fields, limit: Limit)
    requires HasSnapshot(fields)
    ensures HasSnapshot(Tier3(Tier2(fields, limit), limit)) && HasSnapshot(Tier2(fields, limit))
    ensures SnapshotOf(Tier3(Tier2(fields, limit), limit)) == Identity(SnapshotOf(Tier2(fields, limit)))
  {
    var f2 := Tier2(fields, limit);
    KeysDiffer();
    Tier2KeepsSnapshot(fields, limit);
    Tier3IsKept(f2, limit, SNAPSHOT);
  }

  /** Tier 3 leaves nothing else in it but an empty file list. */
  lemma SnapshotIsBare(fields: Fields, limit: Limit, k: Text)
    requires HasObject(fields, "snapshot")
    ensures HasObject(TierBody(fields, limit, 3), "snapshot")
    ensures var a := ObjectAt(TierBody(fields, limit, 3), "snapshot");
            && Ascii("files") in a && a[Ascii("files")] == Raw(Ascii("[]"), Arr([]))
            && (k in a ==> k in SNAPSHOT_NAMES || k == Ascii("files"))
  {
    IdentityNames();
    Tier3Snapshot(fields, limit);
    IdentityIsBare(SnapshotOf(Tier2(fields, limit)), k);
  }

  /** A file index is sent whole or as an empty array, from tier 2 on. */
  lemma IndexIsAllOrNothing(fields: Fields, limit: Limit)
    requires HasObject(fields, "snapshot") && Ascii("files") in ObjectAt(fields, "snapshot")
    requires ObjectAt(fields, "snapshot")[Ascii("files")].value.Arr?
    ensures HasObject(Tier2(fields, limit), "snapshot")
    ensures var a := ObjectAt(Tier2(fields, limit), "snapshot");
            Ascii("files") in a && a[Ascii("files")].value == Arr([])
  {
    Tier2KeepsSnapshot(fields, limit);
  }

  /** A string over 8192 bytes is clipped by tier 3; any other scalar but the warning stays as it is. */
  lemma LongStringsAreClipped(fields: Fields, limit: Limit, k: Text)
    requires k in fields && k != Ascii("warning") && k != Ascii("snapshot") && !IsContainer(fields[k])
    requires fields[k].value.Str? ==> Valid(fields[k].value.text)
    ensures k in TierBody(fields, limit, 3)
    ensures TierBody(fields, limit, 3)[k].value ==
            if fields[k].value.Str? then Str(Truncated(fields[k].value.text, 8192)) else fields[k].value
  {
    Tier2Keeps(fields, limit, k);
    Tier3Keeps(Tier2(fields, limit), limit, k);
    if fields[k].value.Str? {
      TruncatedIsBounded(fields[k].value.text, MAX_RESULT_TEXT);
      SanitizedIff(Truncated(fields[k].value.text, MAX_RESULT_TEXT));
    }
  }

  /** Id, job id and status of at most 1024 bytes reach the server verbatim through every tier. */
  lemma NamedStringsSurvive(fields: Fields, limit: Limit, tier: nat, name: string, t: Text)
    requires 2 <= tier <= 4 && name in {"id", "jobId", "status"}
    requires Ascii(name) in fields && fields[Ascii(name)].value == Str(t) && Valid(t) && |t| <= 1024
    ensures Ascii(name) in TierBody(fields, limit, tier)
    ensures TierBody(fields, limit, tier)[Ascii(name)].value == Str(t)
  {
    RecoveredKeysAreScalar();
    assert |Ascii(name)| == |name| && |SNAPSHOT_ID| == 10;
    StatusSurvives(fields, limit, tier, Ascii(name), t);
  }

  lemma LastResortIs(fields: Fields, limit: Limit, k: Text)
    ensures WARNING in LastResort(fields, limit)
    ensures k in LastResort(fields, limit) ==>
              (k in RECOVERED_KEYS || k == WARNING) && LastResort(fields, limit)[k].value.Str?
  {
  }

  const RECOVERED_NAMES: set<Text> := {Ascii("id"), Ascii("jobId"), Ascii("status"), Ascii("snapshotId")}

  lemma RecoveredNames()
    ensures RECOVERED_KEYS == RECOVERED_NAMES && WARNING == Ascii("warning")
  {
  }

  /** Tier 4 sends five fields at most, all of them strings. */
  lemma LastResortNames(fields: Fields, limit: Limit, k: Text)
    ensures Ascii("warning") in LastResort(fields, limit)
    ensures k in LastResort(fields, limit) ==>
              (k in RECOVERED_NAMES || k == Ascii("warning")) && LastResort(fields, limit)[k].value.Str?
  {
    LastResortIs(fields, limit, k);
    RecoveredNames();
  }

  /** Tier 2 drops a field if and only if it is an array or object of more than 4096 bytes, other than the snapshot and
      the warning; everything else but these two stays as it is. */
  lemma BulkIsDropped(fields: Fields, limit: Limit, k: Text)
    requires k != Ascii("warning") && k != Ascii("snapshot")
    ensures var bulk := k in fields && |fields[k].bytes| > 4096 && (fields[k].value.Arr? || fields[k].value.Obj?);
            if bulk then k !in Tier2(fields, limit) else SameAt(Tier2(fields, limit), fields, k)
  {
    Tier2Keeps(fields, limit, k);
  }

  /** The run's warning is read from, and written to, the field of that name: a string as it is, null as nothing, and
      anything else as its bytes. */
  lemma WarningIsRead(fields: Fields)
    ensures Ascii("warning") !in fields ==> WarningOf(fields) == []
    ensures Ascii("warning") in fields ==>
              WarningOf(fields) == match fields[Ascii("warning")].value
                                   case Str(t) => t
                                   case Null => []
                                   case _ => fields[Ascii("warning")].bytes
  {
  }

  /** A warning of at most 3987 bytes without the note label is left as it is by tier 2, whatever its type. */
  lemma ShortWarningStays(fields: Fields)
    requires |WarningOf(fields)| <= 3987 && Free(WarningOf(fields), Ascii("bounded: "))
    ensures BoundWarning(fields) == fields
  {
    NeutralizedSame(WarningOf(fields));
  }

  /** Nor does tier 3 add a note to a body without arrays and objects, or drop a field of it. */
  lemma ScalarBodyStays(fields: Fields, limit: Limit)
    requires forall k :: k in fields ==> !fields[k].value.Arr? && !fields[k].value.Obj?
    requires forall k :: k in fields && fields[k].value.Str? ==> |fields[k].value.text| <= 8192
    ensures Tier3(fields, limit) == fields
  {
    assert ContainerKeys(fields) == {};
    assert !HasSnapshot(fields);
    assert ScalarFields(fields) == fields;
  }

  /** Tier 4 names the snapshot as snapshotId: by the id in the snapshot object, or else by what was there before. */
  lemma SnapshotIsNamed(fields: Fields, limit: Limit, t: Text)
    requires t != [] && Valid(t) && |t| <= 1024
    requires if HasObject(fields, "snapshot") && Ascii("id") in ObjectAt(fields, "snapshot")
             then ObjectAt(fields, "snapshot")[Ascii("id")].value == Str(t)
             else Ascii("snapshotId") in fields && fields[Ascii("snapshotId")].value == Str(t)
    ensures var f := LastResort(fields, limit);
            Ascii("snapshotId") in f && f[Ascii("snapshotId")].value == Str(t)
  {
    if HasObject(fields, "snapshot") && Ascii("id") in ObjectAt(fields, "snapshot") {
      LastResortReportsId(fields, limit, t);
    } else {
      RecoveredKeeps(fields, SNAPSHOT_ID, t);
      KeysDiffer();
    }
  }

  lemma NotedIsString(fields: Fields, note: Text)
    ensures var f := Noted(fields, note);
            Ascii("warning") in f && f[Ascii("warning")].value == Str(WarningOf(f))
  {
  }

  /** A tier that has noted anything sends the warning as a string. */
  lemma NotesAreUnderWarning(fields: Fields, limit: Limit)
    requires Emitted2(fields, limit) != []
    ensures var f := Tier2(fields, limit);
            Ascii("warning") in f && f[Ascii("warning")].value == Str(WarningOf(f))
  {
    var f, b := Indexless(fields, limit), BoundWarning(fields);
    BulkOfIndexless(fields, limit);
    BoundWarningText(fields);
    if BulkKeys(f) != {} {
      NotedIsString(f - BulkKeys(f), OmittedNote(Sorted(BulkKeys(f)), limit));
    } else {
      NotedIsString(WithSnapshot(b, SnapshotOf(b)[FILES := EMPTY_ARRAY]), SnapshotNote(FileCount(b), limit));
    }
  }

  // ---------------------------------------------------------------- the words of the notes

  lemma AsciiConcat(a: string, b: string)
    ensures Ascii(a + b) == Ascii(a) + Ascii(b)
  {
  }

  /** The limits as the notes name them. */
  lemma LimitsAreNamed()
    ensures Description(NoLimit) == Printed(0) + Ascii(" byte ")
    ensures Description(ServerResult) == Printed(4_934_464) + Ascii(" byte server result budget")
    ensures Description(IpcFrame) == Printed(16_711_680) + Ascii(" byte agent IPC budget")
    ensures Description(ResultText) == Printed(8192) + Ascii(" byte free-text field cap")
  {
  }

  lemma SnapshotTailReads()
    ensures SNAPSHOT_TAIL == Ascii(", so per-file restore browsing is unavailable for this snapshot")
  {
    AsciiConcat(", so per-file restore browsing", " is unavailable for this snapshot");
    assert ", so per-file restore browsing" + " is unavailable for this snapshot" ==
           ", so per-file restore browsing is unavailable for this snapshot";
  }

  lemma SnapshotPartsRead()
    ensures SNAPSHOT_HEAD == Ascii("snapshot file index omitted (") && SNAPSHOT_ENTRIES == Ascii(" entries)")
    ensures EXCEEDED == Ascii(": the result exceeded the ")
  {
  }

  lemma IndexNoteReads(count: nat, limit: Limit)
    ensures SnapshotNote(count, limit) ==
            Ascii("snapshot file index omitted (") + (Printed(count) + Ascii(" entries)"))
            + Ascii(": the result exceeded the ")
            + (Description(limit) + Ascii(", so per-file restore browsing is unavailable for this snapshot"))
  {
    SnapshotTailReads();
    SnapshotPartsRead();
  }

  lemma OmittedNoteReads(keys: seq<Text>, limit: Limit)
    ensures OmittedNote(keys, limit) ==
            Ascii("detail field(s) omitted (") + (Join(keys, Ascii(", ")) + Ascii(")"))
            + Ascii(": the result exceeded the ") + Description(limit)
  {
  }

  lemma LastNoteReads(limit: Limit)
    ensures LastResortNote(limit) ==
            Ascii("backup result exceeded the ")
            + (Description(limit) + Ascii(" and was reduced to a terminal status; detail was dropped"))
  {
    AsciiConcat(" and was reduced to a terminal", " status; detail was dropped");
    assert " and was reduced to a terminal" + " status; detail was dropped" ==
           " and was reduced to a terminal status; detail was dropped";
  }

  /** A short warning with its first note, and with its second, as the server reads it. */
  lemma NotedWarningReads(t: Text, n: Text, m: Text)
    requires t != [] && |t| <= 3987 && Free(t, Ascii("bounded: ")) && n != [] && m != []
    ensures Append(t, n) == t + Ascii(" || bounded: ") + Truncated(n, 512)
    ensures Append([], n) == Ascii("bounded: ") + Truncated(n, 512)
    ensures !Swallows(t) ==>
              Append(Append(t, n), m) ==
              t + Ascii(" || bounded: ") + (Truncated(n, 512) + Ascii("; ") + Truncated(m, 512))
  {
    NeutralizedSame(t);
    SplitOfText(t);
    ShortIsFree([]);
    SplitOfText([]);
    TruncatedIsBounded(n, 512);
    TruncatedIsBounded(m, 512);
    ClippedIsThere(n, 512);
    SplitOfBoth(t, Truncated(n, 512));
  }

  lemma ClippedIsThere(s: Text, max: nat)
    requires s != []
    ensures Truncated(s, max) != []
  {
    if |s| > max {
      SuffixStart(|s| - max);
    }
  }

  /** Printable text that is clipped: its first bytes, an ellipsis and the number of bytes dropped. */
  lemma ClippedTextReads(s: Text, max: nat)
    requires Printable(s) && |s| > max
    ensures Truncated(s, max) ==
            s[..max] + ([0xE2, 0x80, 0xA6] + (Ascii(" (+") + Printed(|s| - max) + Ascii(" bytes truncated)")))
  {
    assert Cut(s, max) == max;
  }

  lemma Tail(a: Text, l: Text, b: Text)
    requires a != []
    ensures (a + l + b)[1..] == a[1..] + l + b && (a + l + b)[0] == a[0]
    ensures [a[0]] + (a[1..] + l + b) == a + l + b
  {
  }

  lemma OccursOneLater(w: Text, t: Text, i: nat)
    requires w != [] && OccursAt(w[1..], t, i)
    ensures OccursAt(w, t, i + 1)
  {
  }

  lemma {:induction false} LabelIsRewritten(a: Text, b: Text)
    requires forall i :: 0 <= i < |a| ==> !OccursAt(a + Ascii("bounded: ") + b, Ascii("bounded: "), i)
    ensures Neutralized(a + Ascii("bounded: ") + b) == a + Ascii("bounded : ") + Neutralized(b)
    decreases |a|
  {
    var w := a + LABEL + b;
    if a == [] {
      assert w == LABEL + b && w[|LABEL|..] == b;
      assert [] + NEUTRAL_LABEL == NEUTRAL_LABEL;
    } else {
      assert !OccursAt(w, LABEL, 0);
      Tail(a, LABEL, b);
      forall i | 0 <= i < |a[1..]|
        ensures !OccursAt(w[1..], LABEL, i)
      {
        if OccursAt(w[1..], LABEL, i) {
          OccursOneLater(w, LABEL, i);
        }
      }
      LabelIsRewritten(a[1..], b);
      Tail(a, NEUTRAL_LABEL, Neutralized(b));
    }
  }

  lemma IndexNoteLength(count: nat, limit: Limit)
    requires count <= MAX_INT
    ensures 0 < |SnapshotNote(count, limit)| <= 512
  {
    PrintedLength(count);
    DescriptionLength(limit);
    assert |SNAPSHOT_HEAD| == 29 && |SNAPSHOT_ENTRIES| == 9 && |EXCEEDED| == 26 && |SNAPSHOT_TAIL| == 63;
  }

  /** What the operator reads when the file index alone was dropped from a result that was too large for the server: the
      run's own warning, word for word, and behind it the number of entries and the budget. */
  lemma OperatorReads(fields: Fields, t: Text)
    requires WarningOf(fields) == t && t != [] && |t| <= 3987 && Valid(t) && Free(t, Ascii("bounded: "))
    requires 0 < FileCount(fields) <= MAX_INT && BulkKeys(fields) <= {Ascii("warning")}
    ensures WarningOf(Tier2(fields, ServerResult)) ==
            t + Ascii(" || bounded: ")
            + (Ascii("snapshot file index omitted (") + (Printed(FileCount(fields)) + Ascii(" entries)"))
               + Ascii(": the result exceeded the ")
               + (Printed(4_934_464) + Ascii(" byte server result budget")
                  + Ascii(", so per-file restore browsing is unavailable for this snapshot")))
  {
    var note := SnapshotNote(FileCount(fields), ServerResult);
    OneIndexNote(fields, ServerResult);
    IndexNoteLength(FileCount(fields), ServerResult);
    SnapshotNoteIsClean(FileCount(fields), ServerResult);
    ReadsBackNoted(t, note);
    IndexNoteReads(FileCount(fields), ServerResult);
    LimitsAreNamed();
  }

  lemma ReadsBackNoted(t: Text, n: Text)
    requires t != [] && |t| <= 3987 && Valid(t) && Free(t, LABEL) && n != [] && |n| <= 512 && Valid(n)
    ensures ReadAll(t, [n]) == t + Ascii(" || bounded: ") + n
  {
    NotedWarningReads(t, n, n);
    AppendValid(t, n);
    SanitizedIff(Append(t, n));
    ReadOne(t, n);
  }

  lemma OneIndexNote(fields: Fields, limit: Limit)
    requires FileCount(fields) > 0 && BulkKeys(fields) <= {WARNING}
    requires Free(WarningOf(fields), LABEL) && |WarningOf(fields)| <= 3987
    ensures WarningOf(Tier2(fields, limit)) == ReadAll(WarningOf(fields), [SnapshotNote(FileCount(fields), limit)])
  {
    NeutralizedSame(WarningOf(fields));
    assert BulkKeys(fields) - {WARNING} == {};
    Tier2Warning(fields, limit);
  }

  lemma OversizeTextReads(size: nat, limit: Limit)
    ensures OversizeText(size, limit) ==
            Ascii("backup helper result exceeded the ") + Description(limit) + Ascii(" (") + Printed(size)
            + Ascii(" bytes) and could not be summarised; the command may have succeeded but its output could not be delivered")
  {
  }

  lemma OversizeSent(r: CommandResult)
    requires r.stdout.body.None? && !Fits(Candidate1(r))
    ensures Sent(r) == OversizeFailure(Candidate1(r), ExceededLimit(r))
  {
  }

  /** A body that is no object and cannot be sent is answered with a failure whose text, `OversizeTextReads`, says how
      much was dropped; nothing of its output is passed off as an answer. */
  lemma OversizeIsAFailure(r: CommandResult)
    requires r.stdout.body.None? && !Fits(Candidate1(r))
    ensures Sent(r).stdout == Stdout([], None) && !Sent(r).success
    ensures Sent(r).stderr == OversizeText(|r.stdout.text| + |Truncated(r.stderr, 8192)|, ExceededLimit(r))
    ensures Sent(r).commandId == Truncated(r.commandId, 1024)
  {
    OversizeSent(r);
  }

  // ---------------------------------------------------------------- sizes

  /** Whatever comes in, what is sent has at most 4,934,464 bytes of stdout and 16,711,680 bytes in all. */
  lemma WithinBothBudgets(r: CommandResult)
    ensures |Sent(r).stdout.text| <= 4_934_464 && |Marshalled(Sent(r))| <= 16_711_680
  {
    AlwaysFits(r);
    CheapTestIsSound(Sent(r));
  }

  lemma {:induction false} JoinedIsNonEmpty(a: Text, rest: seq<Text>)
    requires a != []
    ensures Join([a] + rest, SEPARATOR) != []
  {
    if rest == [] {
      assert [a] + rest == [a];
    } else {
      var all := [a] + rest;
      JoinedIsNonEmpty(a, rest[..|rest| - 1]);
      assert all[..|all| - 1] == [a] + rest[..|rest| - 1];
    }
  }

  lemma StderrIsNoted(r: CommandResult, tier: nat)
    requires |r.stderr| > 8192 && (tier > 1 ==> r.stdout.body.Some?)
    ensures Join(LogNotes(r, tier), SEPARATOR) != []
  {
    var all, first := LogNotes(r, tier), StderrNotes(r)[0];
    assert first[0] == Ascii("stderr truncated (")[0];
    assert all == [first] + all[1..];
    JoinedIsNonEmpty(first, all[1..]);
  }

  /** The limit that is named: the first of the two delivery limits that the result as it came in exceeds; if it exceeds
      neither, the free-text cap when stderr is over 8192 bytes, and none otherwise. */
  lemma LimitIsNamed(r: CommandResult)
    ensures Fit(r).limit ==
            if |r.stdout.text| > 4_934_464 then ServerResult
            else if |Marshalled(r)| > 16_711_680 then IpcFrame
            else if |r.stderr| > 8192 then ResultText
            else NoLimit
  {
    CheapTestIsSound(r);
    if Fits(r) {
      if |r.stderr| > 8192 {
        StderrIsNoted(r, TierOf(r));
      } else {
        FittingIsUntouched(r);
      }
    }
  }

  /** A result that needs nothing but its stderr clipped says so, and names the free-text cap. */
  lemma OnlyStderrClipped(r: CommandResult)
    requires Fits(r) && |r.stderr| > 8192 && TierOf(r) == 1
    ensures Fit(r).limit == ResultText && Fit(r).result == r.(stderr := Truncated(r.stderr, 8192))
    ensures Fit(r).notes == Ascii("stderr truncated (") + Printed(|r.stderr| - 8192) + Ascii(" bytes dropped)")
  {
    LimitIsNamed(r);
    CheapTestIsSound(r);
  }
}
