/**
 The log line of a degraded result: what it says, when it is empty, and the one loss that it does not report.
 */
module ResultLog {
  import opened Options
  import opened Bytes
  import opened Utf8
  import opened TextTruncation
  import opened ResultWarning
  import opened Sanitizing
  import opened WarningReread
  import opened Json
  import opened ResultBounds
  import opened ResultNotes
  import opened ResultMeaning
  import opened ResultSent
  import opened ResultWire

  // ---------------------------------------------------------------- its words

  ghost function BulkWords(keys: seq<Text>): seq<Text> {
    if keys == [] then [] else [keys[0] + Ascii(" dropped (bulk field)")] + BulkWords(keys[1..])
  }

  ghost function WarningWords(dropped: int): seq<Text> {
    if dropped > 0 then [Ascii("warning truncated (") + Printed(dropped) + Ascii(" bytes dropped)")] else []
  }

  ghost function FileWords(count: nat): seq<Text> {
    if count > 0 then [Ascii("snapshot file index dropped (") + Printed(count) + Ascii(" entries)")] else []
  }

  /** What tier 2 reports, in terms of the body that came in. */
  ghost function LogWords(fields: Fields): seq<Text> {
    WarningWords(if WarningChanges(fields) then |WarningOf(fields)| - 3987 else 0)
    + FileWords(FileCount(fields)) + BulkWords(Sorted(BulkKeys(fields) - {Ascii("warning")}))
  }

  lemma {:induction false} BulkWordsAre(keys: seq<Text>)
    ensures BulkNotes(keys) == BulkWords(keys)
  {
    if keys != [] {
      BulkWordsAre(keys[1..]);
      assert BulkNotes(keys) == [BulkNotes(keys)[0]] + BulkNotes(keys[1..]);
    }
  }

  lemma WarningWordsAre(fields: Fields)
    ensures WarningNotes(WarningBytesDropped(fields)) ==
            WarningWords(if WarningChanges(fields) then |WarningOf(fields)| - 3987 else 0)
  {
  }

  lemma Tier2NotesRead(fields: Fields, limit: Limit)
    ensures Tier2Notes(fields, limit) == LogWords(fields)
  {
    WarningWordsAre(fields);
    BulkOfIndexless(fields, limit);
    BoundWarningText(fields);
    BulkWordsAre(Sorted(BulkKeys(fields) - {WARNING}));
  }

  ghost function StderrWords(r: CommandResult): seq<Text> {
    if |r.stderr| > 8192
    then [Ascii("stderr truncated (") + Printed(|r.stderr| - 8192) + Ascii(" bytes dropped)")] else []
  }

  lemma StderrWordsAre(r: CommandResult)
    ensures StderrNotes(r) == StderrWords(r)
  {
  }

  ghost function TierWords(tier: nat): seq<Text> {
    if tier <= 2 then [] else if tier == 3 then [SCALARS_ONLY] else [SCALARS_ONLY, MINIMAL]
  }

  lemma TierWordsRead()
    ensures SCALARS_ONLY == Ascii("result reduced to summary scalars only")
    ensures MINIMAL == Ascii("result replaced with a minimal terminal status")
    ensures UNSUMMARISED == Ascii("result body could not be summarised and was replaced with an oversize failure")
  {
  }

  lemma AppendWords(words: seq<Text>, a: Text, b: Text)
    ensures words + [] == words && words + [a] + [b] == words + [a, b]
  {
  }

  lemma TierNotesRead(fields: Fields, limit: Limit, tier: nat)
    requires 2 <= tier <= 4
    ensures TierNotes(fields, limit, tier) == LogWords(fields) + TierWords(tier)
  {
    Tier2NotesRead(fields, limit);
    AppendWords(LogWords(fields), SCALARS_ONLY, MINIMAL);
  }

  lemma NotesOfFit(r: CommandResult)
    ensures Fit(r).notes == Join(LogNotes(r, TierOf(r)), SEPARATOR) && SEPARATOR == Ascii("; ")
  {
  }

  lemma LogNotesAre(r: CommandResult, tier: nat)
    requires tier >= 2 && r.stdout.body.Some?
    ensures LogNotes(r, tier) == StderrNotes(r) + TierNotes(r.stdout.body.value, ExceededLimit(r), tier)
  {
  }

  lemma TierIsOne(r: CommandResult)
    ensures TierOf(r) <= 4 && (TierOf(r) >= 2 ==> r.stdout.body.Some?)
  {
  }

  /** The log line names every tier that was needed and what tier 2 took out of the body that came in. */
  lemma LogReads(r: CommandResult)
    requires TierOf(r) >= 2
    ensures r.stdout.body.Some?
    ensures Fit(r).notes ==
            Join(StderrWords(r) + (LogWords(r.stdout.body.value) + TierWords(TierOf(r))), SEPARATOR)
  {
    TierIsOne(r);
    NotesOfFit(r);
    LogNotesAre(r, TierOf(r));
    StderrWordsAre(r);
    TierNotesRead(r.stdout.body.value, ExceededLimit(r), TierOf(r));
  }

  ghost function EarlyWords(tier: nat): seq<Text> { if tier == 1 then [] else [UNSUMMARISED] }

  lemma EarlyNotesAre(r: CommandResult, tier: nat)
    requires tier <= 1
    ensures LogNotes(r, tier) == StderrNotes(r) + EarlyWords(tier)
  {
    AppendWords(StderrNotes(r), UNSUMMARISED, UNSUMMARISED);
  }

  lemma LogReadsOtherwise(r: CommandResult)
    requires TierOf(r) <= 1
    ensures Fit(r).notes == Join(StderrWords(r) + EarlyWords(TierOf(r)), SEPARATOR)
  {
    NotesOfFit(r);
    EarlyNotesAre(r, TierOf(r));
    StderrWordsAre(r);
  }

  // ---------------------------------------------------------------- when it is empty

  /** Every entry has words. */
  ghost predicate Worded(parts: seq<Text>) { forall p :: p in parts ==> p != [] }

  lemma WordedConcat(a: seq<Text>, b: seq<Text>)
    requires Worded(a) && Worded(b)
    ensures Worded(a + b)
  {
  }

  lemma JoinedIsEmpty(parts: seq<Text>)
    requires Worded(parts)
    ensures Join(parts, SEPARATOR) == [] <==> parts == []
  {
    if parts != [] {
      assert parts[0] in parts && parts == [parts[0]] + parts[1..];
      JoinedIsNonEmpty(parts[0], parts[1..]);
    }
  }

  lemma CountsAreWorded(r: CommandResult, dropped: int, count: nat)
    ensures Worded(StderrWords(r)) && Worded(WarningWords(dropped)) && Worded(FileWords(count))
  {
    assert |Ascii("stderr truncated (")| == 18 && |Ascii("warning truncated (")| == 19;
    assert |Ascii("snapshot file index dropped (")| == 29;
  }

  lemma {:induction false} BulkIsWorded(keys: seq<Text>)
    ensures Worded(BulkWords(keys)) && (BulkWords(keys) == [] <==> keys == [])
  {
    if keys != [] {
      assert |Ascii(" dropped (bulk field)")| == 21;
      BulkIsWorded(keys[1..]);
    }
  }

  lemma TiersAreWorded(tier: nat)
    ensures Worded(TierWords(tier)) && (TierWords(tier) == [] <==> tier <= 2)
    ensures Worded(EarlyWords(tier)) && (EarlyWords(tier) == [] <==> tier == 1)
  {
    LiteralsAreWorded();
  }

  lemma LiteralsAreWorded()
    ensures SCALARS_ONLY != [] && MINIMAL != [] && UNSUMMARISED != []
  {
  }

  lemma LogIsWorded(r: CommandResult, fields: Fields, tier: nat)
    ensures Worded(StderrWords(r) + (LogWords(fields) + TierWords(tier)))
  {
    var dropped := if WarningChanges(fields) then |WarningOf(fields)| - 3987 else 0;
    var keys := Sorted(BulkKeys(fields) - {Ascii("warning")});
    CountsAreWorded(r, dropped, FileCount(fields));
    BulkIsWorded(keys);
    TiersAreWorded(tier);
    WordedConcat(WarningWords(dropped), FileWords(FileCount(fields)));
    WordedConcat(WarningWords(dropped) + FileWords(FileCount(fields)), BulkWords(keys));
    WordedConcat(LogWords(fields), TierWords(tier));
    WordedConcat(StderrWords(r), LogWords(fields) + TierWords(tier));
  }

  /** Tier 2 finds nothing to report in this body. */
  predicate NothingToReport(fields: Fields) {
    && FileCount(fields) == 0 && BulkKeys(fields) <= {Ascii("warning")}
    && (WarningChanges(fields) ==> |WarningOf(fields)| <= 3987)
  }

  lemma NoWordsIff(fields: Fields)
    ensures LogWords(fields) == [] <==> NothingToReport(fields)
  {
    BulkIsWorded(Sorted(BulkKeys(fields) - {Ascii("warning")}));
    assert BulkKeys(fields) <= {Ascii("warning")} <==> BulkKeys(fields) - {Ascii("warning")} == {};
  }

  lemma SilentAtTier1(r: CommandResult)
    requires TierOf(r) <= 1
    ensures Fit(r).notes == [] <==> TierOf(r) == 1 && |r.stderr| <= 8192
  {
    LogReadsOtherwise(r);
    CountsAreWorded(r, 0, 0);
    TiersAreWorded(TierOf(r));
    WordedConcat(StderrWords(r), EarlyWords(TierOf(r)));
    JoinedIsEmpty(StderrWords(r) + EarlyWords(TierOf(r)));
  }

  /** Exactly when nothing is logged: stderr is within its cap, and the result fits as it is, or fits once its body has
      been encoded again with nothing to report. */
  lemma SilentIff(r: CommandResult)
    ensures TierOf(r) >= 2 ==> r.stdout.body.Some?
    ensures Fit(r).notes == [] <==>
            |r.stderr| <= 8192 && (TierOf(r) == 1 || (TierOf(r) == 2 && NothingToReport(r.stdout.body.value)))
  {
    TierIsOne(r);
    if TierOf(r) <= 1 {
      SilentAtTier1(r);
    } else {
      LogReads(r);
      LogIsWorded(r, r.stdout.body.value, TierOf(r));
      JoinedIsEmpty(StderrWords(r) + (LogWords(r.stdout.body.value) + TierWords(TierOf(r))));
      NoWordsIff(r.stdout.body.value);
      TiersAreWorded(TierOf(r));
    }
  }

  /** What is sent in silence: the result as it came in, or its fields as they came in but for a warning that has been
      rewritten. */
  lemma SentInSilence(r: CommandResult, k: Text)
    requires Fit(r).notes == [] && k != Ascii("warning")
    ensures TierOf(r) != 1 ==>
              && r.stdout.body.Some? && Sent(r).stdout.body.Some?
              && SameAt(Sent(r).stdout.body.value, r.stdout.body.value, k)
              && WarningOf(Sent(r).stdout.body.value) == FirstText(r.stdout.body.value)
  {
    SilentIff(r);
    if TierOf(r) == 2 {
      SentIsSecond(r);
      QuietFields(r.stdout.body.value, ExceededLimit(r), k);
    }
  }

  lemma SentIsSecond(r: CommandResult)
    requires TierOf(r) == 2
    ensures r.stdout.body.Some? && Sent(r).stdout == Document(Tier2(r.stdout.body.value, ExceededLimit(r)))
  {
  }

  lemma QuietFields(fields: Fields, limit: Limit, k: Text)
    requires NothingToReport(fields) && k != Ascii("warning")
    ensures SameAt(Tier2(fields, limit), fields, k) && WarningOf(Tier2(fields, limit)) == FirstText(fields)
  {
    assert BulkKeys(fields) - {WARNING} == {};
    Tier2Warning(fields, limit);
    if k == SNAPSHOT {
      Tier2KeepsSnapshot(fields, limit);
    } else {
      Tier2Keeps(fields, limit, k);
      assert k !in BulkKeys(fields);
    }
  }

  // ---------------------------------------------------------------- the loss it does not report

  lemma {:induction false} NeutralizedLonger(w: Text)
    ensures |w| <= |Neutralized(w)|
    ensures |w| == |Neutralized(w)| <==> Free(w, LABEL)
    decreases |w|
  {
    if w != [] {
      if StartsWith(w, LABEL) {
        NeutralizedGrows(w[|LABEL|..]);
        assert OccursAt(w, LABEL, 0);
      } else {
        NeutralizedLonger(w[1..]);
        FreeTail(w);
      }
    }
  }

  lemma FreeTail(w: Text)
    requires w != [] && !StartsWith(w, LABEL)
    ensures Free(w, LABEL) <==> Free(w[1..], LABEL)
  {
    if Free(w, LABEL) {
      forall i
        ensures !OccursAt(w[1..], LABEL, i)
      {
        if OccursAt(w[1..], LABEL, i) {
          assert OccursAt(w, LABEL, i + 1);
        }
      }
    }
    if Free(w[1..], LABEL) {
      forall i
        ensures !OccursAt(w, LABEL, i)
      {
        if OccursAt(w, LABEL, i) {
          assert i > 0;
          assert OccursAt(w[1..], LABEL, i - 1);
        }
      }
    }
  }

  /** The number of bytes that are logged as dropped from a rewritten warning is the number that the clamp drops if and
      only if the clamp drops nothing, or the warning does not contain the note label: the clamp counts after the label
      has been rewritten, which makes the text longer, the log before. */
  lemma DropCountIff(fields: Fields)
    requires WarningChanges(fields)
    ensures var w := WarningOf(fields);
            WarningBytesDropped(fields) == Dropped(Neutralized(w), 3987) <==>
            |Neutralized(w)| <= 3987 || Free(w, Ascii("bounded: "))
  {
    NeutralizedLonger(WarningOf(fields));
  }

  /** In particular nothing at all is logged for a warning that is within its cap when it comes in and over it once its
      labels are rewritten, although it is clipped. */
  lemma UnloggedIff(fields: Fields)
    requires WarningChanges(fields)
    ensures var w := WarningOf(fields);
            Dropped(Neutralized(w), 3987) > 0 && WarningBytesDropped(fields) == 0 <==> |w| <= 3987 < |Neutralized(w)|
  {
  }

  /** A warning of 3987 bytes that starts with the label. */
  function Labelled(): Text { LABEL + seq(3978, _ => 97) }

  function OneWarning(w: Text): Fields { map[WARNING := RawString(w)] }

  function LabelledBody(): Fields { OneWarning(Labelled()) }

  lemma OneWarningFields(w: Text)
    requires Valid(w) && |w| <= 3987
    ensures WarningOf(OneWarning(w)) == w && NothingToReport(OneWarning(w))
  {
    SanitizedIff(w);
    KeysDiffer();
    assert forall k :: k in OneWarning(w) ==> k == WARNING;
  }

  /** The body behind five million blanks, more than the server takes. */
  ghost function Padded(fields: Fields): CommandResult {
    CommandResult([], true, Stdout(seq(5_000_000, _ => 32) + EncodedObject(fields), Some(fields)), [], 0)
  }

  lemma LettersAreFree(s: Text)
    requires forall i :: 0 <= i < |s| ==> s[i] == 97
    ensures Free(s, LABEL) && Valid(s)
  {
    assert LABEL[7] == 58;
    FreeWithout(s, LABEL, 58);
    PrintableValid(s);
  }

  lemma LabelledText()
    ensures |Labelled()| == 3987 && Valid(Labelled())
    ensures Neutralized(Labelled()) == NEUTRAL_LABEL + seq(3978, _ => 97) && |Neutralized(Labelled())| == 3988
  {
    var a := seq(3978, _ => 97 as Byte);
    var w: Text := LABEL + a;
    LettersAreFree(a);
    NeutralizedSame(a);
    assert StartsWith(w, LABEL) && w[|LABEL|..] == a;
    PrintableAscii("bounded: ");
    PrintableValid(LABEL);
    ValidConcat(LABEL, a);
    assert |NEUTRAL_LABEL| == 10 && |LABEL| == 9;
  }

  lemma LabelledIsClipped()
    ensures |Neutralized(Labelled())| == 3988
    ensures ClampedText(Labelled()) == Neutralized(Labelled())[..3987] + Suffix(1)
    ensures Valid(ClampedText(Labelled())) && |ClampedText(Labelled())| > |Labelled()|
  {
    var n := Neutralized(Labelled());
    LabelledText();
    ClampsAreValid(Labelled(), []);
    assert n[3987] == 97;
    assert Cut(n, 3987) == 3987;
    SuffixLength(1);
  }

  lemma LabelledFields()
    ensures WarningOf(LabelledBody()) == Labelled() && WarningChanges(LabelledBody())
    ensures NothingToReport(LabelledBody())
  {
    LabelledText();
    OneWarningFields(Labelled());
    LabelledIsClipped();
  }

  lemma OneStringLength(t: Text)
    requires |t| <= 8000
    ensures |EncodedObject(OneWarning(t))| <= 250_000
  {
    QuotedLength(t);
    assert |WARNING| == 7;
    SmallObjectLength(OneWarning(t), {WARNING});
  }

  lemma Rewritten(w: Text)
    requires WarningOf(OneWarning(w)) == w && WarningChanges(OneWarning(w))
    ensures BoundWarning(OneWarning(w)) == OneWarning(ClampedText(w))
  {
  }

  lemma QuietBound(fields: Fields, limit: Limit)
    requires NothingToReport(fields)
    ensures Tier2(fields, limit) == BoundWarning(fields)
  {
    assert BulkKeys(fields) - {WARNING} == {};
    QuietTier2(fields, limit);
  }

  lemma LabelledTier2(limit: Limit)
    ensures |EncodedObject(Tier2(LabelledBody(), limit))| <= 250_000
  {
    LabelledFields();
    QuietBound(LabelledBody(), limit);
    Rewritten(Labelled());
    TruncatedIsBounded(Neutralized(Labelled()), MAX_WARNING_TEXT);
    OneStringLength(ClampedText(Labelled()));
  }

  lemma PaddedTier(fields: Fields)
    requires |EncodedObject(Tier2(fields, ServerResult))| <= 250_000
    ensures TierOf(Padded(fields)) == 2 && ExceededLimit(Padded(fields)) == ServerResult
  {
    var r := Padded(fields);
    assert |r.stdout.text| > SERVER_BUDGET;
    assert Candidate1(r) == r;
    SmallFits(Candidate2(r));
  }

  /** Of this result, which is within every limit but for its blanks, nothing is logged, and yet the warning that is
      sent ends with the mark that a byte of it was truncated. */
  lemma ClippedInSilence()
    ensures var r := Padded(LabelledBody());
            && TierOf(r) == 2 && Fit(r).notes == [] && Sent(r).stdout.body.Some?
            && EndsWith(WarningOf(Sent(r).stdout.body.value), Suffix(1))
            && |WarningOf(r.stdout.body.value)| == 3987
  {
    var r := Padded(LabelledBody());
    LabelledTier2(ServerResult);
    PaddedTier(LabelledBody());
    LabelledFields();
    SilentIff(r);
    SentInSilence(r, SNAPSHOT);
    KeysDiffer();
    LabelledText();
    LabelledIsClipped();
    SanitizedIff(ClampedText(Labelled()));
    EndsWithPart(Neutralized(Labelled())[..3987], Suffix(1));
  }
}
