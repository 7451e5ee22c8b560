/**
 The warning of the result that is sent, in terms of the result that came in: when it still starts with the run's own
 text, and results for which tiers 3 and 4 are needed.
 */
module ResultSent {
  import opened Options
  import opened Bytes
  import opened Utf8
  import opened TextTruncation
  import opened ResultWarning
  import opened ResultText
  import opened Sanitizing
  import opened WarningReread
  import opened WarningKept
  import opened Json
  import opened ResultBounds
  import opened ResultNotes
  import opened ResultEviction

  /** No tier up to this one has anything to note. */
  predicate NothingToNote(fields: Fields, tier: nat) {
    if tier == 2 then FileCount(fields) == 0 && BulkKeys(fields) <= {WARNING}
    else if tier == 3 then ContainerKeys(fields) == {} || (ContainerKeys(fields) == {WARNING} && WarningChanges(fields))
    else false
  }

  lemma Noted2Iff(fields: Fields, limit: Limit)
    ensures Emitted2(fields, limit) == [] <==> NothingToNote(fields, 2)
  {
    assert BulkKeys(fields) <= {WARNING} <==> BulkKeys(fields) - {WARNING} == {};
  }

  lemma QuietTier2(fields: Fields, limit: Limit)
    requires Emitted2(fields, limit) == []
    ensures Tier2(fields, limit) == BoundWarning(fields)
  {
    BoundWarningText(fields);
    BulkOfIndexless(fields, limit);
  }

  lemma ContainersAfterBound(fields: Fields)
    ensures ContainerKeys(BoundWarning(fields)) ==
            if WarningChanges(fields) then ContainerKeys(fields) - {WARNING} else ContainerKeys(fields)
  {
  }

  lemma NoContainersNothingNoted(fields: Fields)
    requires ContainerKeys(fields) <= {WARNING}
    ensures NothingToNote(fields, 2)
  {
    KeysDiffer();
    assert forall k :: k in BulkKeys(fields) ==> k in ContainerKeys(fields);
    assert HasSnapshot(fields) ==> SNAPSHOT in ContainerKeys(fields);
  }

  lemma SmallSet(s: set<Text>)
    ensures s - {WARNING} == {} <==> s == {} || s == {WARNING}
  {
  }

  lemma NoContainersIff(fields: Fields)
    ensures ContainerKeys(BoundWarning(fields)) == {} <==> NothingToNote(fields, 3)
  {
    ContainersAfterBound(fields);
    SmallSet(ContainerKeys(fields));
  }

  lemma Noted3Iff(fields: Fields, limit: Limit)
    ensures Emitted(fields, limit, 3) == [] <==> NothingToNote(fields, 3)
  {
    Noted2Iff(fields, limit);
    if NothingToNote(fields, 3) {
      NoContainersNothingNoted(fields);
    }
    if Emitted2(fields, limit) == [] {
      QuietTier2(fields, limit);
      NoContainersIff(fields);
    }
  }

  lemma NotedIff(fields: Fields, limit: Limit, tier: nat)
    requires 2 <= tier <= 4
    ensures Emitted(fields, limit, tier) == [] <==> NothingToNote(fields, tier)
  {
    Noted2Iff(fields, limit);
    Noted3Iff(fields, limit);
  }

  // ---------------------------------------------------------------- the run's own text

  /** The run's text as it reads once it has been clamped. */
  function RunText(fields: Fields): Text { Sanitized(ClampedText(WarningOf(fields))) }

  /** What can be seen on the input: the text is no container that tier 3 drops, and no tier has anything to note or
      the text does not end like a marker. */
  predicate TextIsKept(fields: Fields, tier: nat) {
    if Replaces(fields, tier) then KeptPart(RunText(fields)) == []
    else NothingToNote(fields, tier) || !LosesEnd(RunText(fields), WarningChanges(fields))
  }

  lemma NoTextLeft(fields: Fields, limit: Limit, tier: nat)
    requires LegibleKeys(fields.Keys) && 2 <= tier <= 4 && Replaces(fields, tier)
    ensures var w := WarningOf(TierBody(fields, limit, tier)); Sanitized(w) == w && Split(w).0 == []
  {
    var ms := Later(fields, limit, tier);
    WarningAfterTier(fields, limit, tier);
    EmittedIsClean(fields, limit, tier);
    ReadAllValid([], ms);
    SanitizedIff(ReadAll([], ms));
    NoTextStaysEmpty(ms);
  }

  /** Nothing of the warning is clipped. */
  lemma WholeTextKeptIff(fields: Fields, limit: Limit, tier: nat)
    requires LegibleKeys(fields.Keys) && 2 <= tier <= 4
    requires Resumed(fields, limit, tier) == Second(fields, limit)
    ensures Keeps(Sanitized(WarningOf(TierBody(fields, limit, tier))), RunText(fields)) <==>
            Emitted(fields, limit, tier) == [] || !LosesEnd(RunText(fields), WarningChanges(fields))
  {
    var w, es := WarningOf(fields), Emitted(fields, limit, tier);
    WarningAfterTier(fields, limit, tier);
    EmittedIsClean(fields, limit, tier);
    FirstTextIsNoteless(fields);
    ReadAllConcat(FirstText(fields), Emitted2(fields, limit), Later(fields, limit, tier));
    if WarningChanges(fields) {
      ClampedTextIsFree(w);
      RewrittenKeptIff(ClampedText(w), es);
    } else {
      UntouchedKeptIff(w, es);
    }
  }

  /** Tier 3 has clipped the text, and a note with it. */
  lemma ClippedNoteKeeps(fields: Fields, limit: Limit, tier: nat)
    requires LegibleKeys(fields.Keys) && 3 <= tier <= 4 && Overlong(fields, limit)
    ensures Keeps(Sanitized(WarningOf(TierBody(fields, limit, tier))), RunText(fields))
    ensures !LosesEnd(RunText(fields), WarningChanges(fields))
  {
    var w, n := WarningOf(fields), Emitted2(fields, limit)[0];
    WarningAfterTier(fields, limit, tier);
    EmittedIsClean(fields, limit, tier);
    OverlongReads(fields, limit);
    OverlongIsTooLong(fields, limit);
    ClippingLosesNote(Sanitized(w), ClampedNote(n));
    RereadValid(w, n);
    TruncatedIsBounded(Reread(w, n), MAX_RESULT_TEXT);
    ClippedReadKeeps(Truncated(Reread(w, n), MAX_RESULT_TEXT), Sanitized(w), Later(fields, limit, tier));
  }

  /** Tier 3 has clipped a text that no note had been added to. */
  lemma ClippedTextKeeps(fields: Fields, limit: Limit, tier: nat)
    requires LegibleKeys(fields.Keys) && 3 <= tier <= 4 && !Overlong(fields, limit) && !Replaces(fields, tier)
    requires Resumed(fields, limit, tier) != Second(fields, limit)
    ensures Keeps(Sanitized(WarningOf(TierBody(fields, limit, tier))), RunText(fields))
    ensures !LosesEnd(RunText(fields), WarningChanges(fields))
  {
    var x := FirstText(fields);
    WarningAfterTier(fields, limit, tier);
    EmittedIsClean(fields, limit, tier);
    ClippedText(fields, limit);
    ClippedTextSplit(x);
    ClippedReadKeeps(Truncated(x, MAX_RESULT_TEXT), x, Later(fields, limit, tier));
  }

  /** The text part of the warning after a tier, for every body with legible field names, whatever its warning. */
  lemma TextAfterTierIff(fields: Fields, limit: Limit, tier: nat)
    requires LegibleKeys(fields.Keys) && 2 <= tier <= 4
    ensures Keeps(Sanitized(WarningOf(TierBody(fields, limit, tier))), RunText(fields)) <==> TextIsKept(fields, tier)
  {
    NotedIff(fields, limit, tier);
    if Replaces(fields, tier) {
      NoTextLeft(fields, limit, tier);
    } else if Resumed(fields, limit, tier) == Second(fields, limit) {
      WholeTextKeptIff(fields, limit, tier);
    } else if Overlong(fields, limit) {
      ClippedNoteKeeps(fields, limit, tier);
    } else {
      ClippedTextKeeps(fields, limit, tier);
    }
  }

  // ---------------------------------------------------------------- and of a warning that is well formed

  lemma ValidRunText(fields: Fields)
    requires Valid(WarningOf(fields))
    ensures RunText(fields) == ClampedText(WarningOf(fields))
    ensures LosesEnd(RunText(fields), WarningChanges(fields)) <==> Swallows(ClampedText(WarningOf(fields)))
    ensures StartsWith(KeptPart(RunText(fields)), KeptPart(WarningOf(fields)))
    ensures Swallows(RunText(fields)) ==> KeptPart(RunText(fields)) == KeptPart(WarningOf(fields))
  {
    var w := WarningOf(fields);
    ClampsAreValid(w, []);
    SanitizedIff(ClampedText(w));
    ClampedTextIsFree(w);
    KeptIs(ClampedText(w));
    if Swallows(ClampedText(w)) {
      SwallowingIsWhole(w);
    } else {
      ClampedKeptPart(w);
    }
  }

  /** Clamping twice keeps at least what clamping once keeps. */
  lemma ClampedKeptPart(w: Text)
    ensures StartsWith(KeptPart(ClampedText(w)), KeptPart(w))
  {
    FirstClampStarts(w);
    ClampedTextIsFree(w);
    KeptIs(ClampedText(w));
    if |ClampedText(w)| > MAX_WARNING_TEXT {
      KeptBeforeCut(ClampedText(w), KeptPart(w), MAX_WARNING_TEXT);
    }
  }

  lemma KeptBeforeCut(t: Text, p: Text, max: nat)
    requires max < |t| && StartsClosed(t, p) && |p| <= max
    ensures StartsWith(t[..Cut(t, max)], p)
  {
    assert |p| <= Cut(t, max);
  }

  lemma ValidTextAfterTierIff(fields: Fields, limit: Limit, tier: nat)
    requires LegibleKeys(fields.Keys) && 2 <= tier <= 4 && Valid(WarningOf(fields))
    ensures StartsWith(Split(WarningOf(TierBody(fields, limit, tier))).0, KeptPart(WarningOf(fields))) <==>
            if Replaces(fields, tier) then KeptPart(WarningOf(fields)) == []
            else NothingToNote(fields, tier) || !Swallows(ClampedText(WarningOf(fields)))
  {
    ShortWhenValid(fields, limit, tier);
    SanitizedIff(WarningOf(TierBody(fields, limit, tier)));
    if Replaces(fields, tier) {
      NoTextLeft(fields, limit, tier);
    } else {
      TextAfterTierIff(fields, limit, tier);
      ValidRunText(fields);
      StartsTransitive(Split(WarningOf(TierBody(fields, limit, tier))).0, KeptPart(RunText(fields)),
                       KeptPart(WarningOf(fields)));
    }
  }

  lemma StartsTransitive(t: Text, q: Text, p: Text)
    requires StartsWith(q, p)
    ensures StartsWith(t, q) ==> StartsWith(t, p)
  {
  }

  /** For every degraded result with legible field names: the warning that is sent, as it reads, still starts with what
      the first clamp keeps of the run's own text, except in exactly two cases that can be seen on the input. The text
      is a container that tier 3 drops, or it ends like a marker and some tier has something to note. For a
      well-formed warning that is the text as it came in. */
  lemma SentTextKeptIff(r: CommandResult)
    requires r.stdout.body.Some? && !Fits(Candidate1(r)) && LegibleKeys(r.stdout.body.value.Keys)
    ensures 2 <= TierOf(r) <= 4 && Sent(r).stdout.body.Some?
    ensures var fields := r.stdout.body.value;
            StartsWith(Split(Sanitized(WarningOf(Sent(r).stdout.body.value))).0, KeptPart(RunText(fields))) <==>
            TextIsKept(fields, TierOf(r))
    ensures var fields := r.stdout.body.value;
            Valid(WarningOf(fields)) ==>
              (StartsWith(Split(WarningOf(Sent(r).stdout.body.value)).0, KeptPart(WarningOf(fields))) <==>
               if Replaces(fields, TierOf(r)) then KeptPart(WarningOf(fields)) == []
               else NothingToNote(fields, TierOf(r)) || !Swallows(ClampedText(WarningOf(fields))))
  {
    var fields, limit, tier := r.stdout.body.value, ExceededLimit(r), TierOf(r);
    SentBody(r);
    TextAfterTierIff(fields, limit, tier);
    if Valid(WarningOf(fields)) {
      ValidTextAfterTierIff(fields, limit, tier);
    }
  }

  // ---------------------------------------------------------------- a result that needs tier 3

  lemma {:induction false} EntriesHold(keys: seq<Text>, m: map<Text, Raw>, k: Text)
    requires (forall j :: j in keys ==> j in m) && k in keys
    ensures |m[k].bytes| <= |Entries(keys, m)|
  {
    if keys[0] != k {
      EntriesHold(keys[1..], m, k);
    }
  }

  lemma EncodedHolds(m: map<Text, Raw>, k: Text)
    requires k in m
    ensures |m[k].bytes| <= |EncodedObject(m)|
  {
    EntriesHold(Sorted(m.Keys), m, k);
  }

  /** Five million letters, more than the server takes. */
  function Letters(): Text { seq(5_000_000, _ => 97) }

  function LongString(): Raw { Raw(Quoted(Letters()), Str(Letters())) }

  lemma LongStringLength()
    ensures |LongString().bytes| > SERVER_BUDGET
  {
    EscapedLength(Letters());
  }

  const LOG: Text := Ascii("log")

  ghost function WithBody(fields: Fields): CommandResult { CommandResult([], true, Document(fields), [], 0) }

  lemma BigBodyIsOver(fields: Fields, k: Text)
    requires k in fields && |fields[k].bytes| > SERVER_BUDGET
    ensures ExceededLimit(WithBody(fields)) == ServerResult && Candidate1(WithBody(fields)) == WithBody(fields)
    ensures !Fits(WithBody(fields))
  {
    EncodedHolds(fields, k);
  }

  /** A long log beside a warning that is an empty array. */
  function LogBody(): Fields { map[WARNING := EMPTY_ARRAY, LOG := LongString()] }

  lemma LogKeys()
    ensures LOG != WARNING && LOG != SNAPSHOT && WARNING != SNAPSHOT && |LOG| == 3 && |WARNING| == 7
  {
    assert |LOG| == 3 && |WARNING| == 7 && |SNAPSHOT| == 8;
  }

  /** A warning that is an empty array, left alone by the first clamp. */
  lemma EmptyArrayWarning(fields: Fields)
    requires WARNING in fields && fields[WARNING] == EMPTY_ARRAY
    ensures WarningOf(fields) == Ascii("[]") && !WarningChanges(fields)
  {
    var w := WarningOf(fields);
    NoColon(w);
    NeutralizedSame(w);
  }

  lemma LogContainers()
    ensures FileCount(LogBody()) == 0 && BulkKeys(LogBody()) == {} && ContainerKeys(LogBody()) == {WARNING}
  {
    LogKeys();
    assert forall k :: k in LogBody() ==> k == WARNING || k == LOG;
    assert |EMPTY_ARRAY.bytes| == 2;
  }

  lemma LogTier2(limit: Limit)
    ensures Tier2(LogBody(), limit) == LogBody()
  {
    EmptyArrayWarning(LogBody());
    LogContainers();
  }

  lemma LogScalars()
    ensures ScalarFields(LogBody()) == map[LOG := ClampedScalar(LongString())]
  {
    LogKeys();
    var m := ScalarFields(LogBody());
    assert LOG in LogBody() && LogBody()[LOG] == LongString() && !IsContainer(LongString());
    assert forall k :: k in LogBody() ==> k == WARNING || k == LOG;
    assert IsContainer(LogBody()[WARNING]);
    assert m.Keys == {LOG};
  }

  lemma LogKept()
    ensures Kept(LogBody()) == map[LOG := ClampedScalar(LongString())]
  {
    LogKeys();
    LogScalars();
    assert SNAPSHOT !in LogBody();
  }

  function LogNote(limit: Limit): Text { OmittedNote([WARNING], limit) }

  lemma SortedOne(k: Text)
    ensures Sorted({k}) == [k]
  {
    SortedHead({k});
    assert {k} - {k} == {};
  }

  lemma LogTier3(limit: Limit)
    ensures Tier3(LogBody(), limit) ==
            map[LOG := ClampedScalar(LongString())][WARNING := RawString(Append([], LogNote(limit)))]
  {
    LogKeys();
    LogContainers();
    LogKept();
    SortedOne(WARNING);
    NoWarningYet(map[LOG := ClampedScalar(LongString())], LogNote(limit));
  }

  lemma NoWarningYet(fields: Fields, note: Text)
    requires WARNING !in fields
    ensures Noted(fields, note) == fields[WARNING := RawString(Append([], note))]
  {
  }

  lemma LogStringSize()
    ensures |ClampedScalar(LongString()).bytes| <= 49_412
  {
    var t := Truncated(Letters(), MAX_RESULT_TEXT);
    TruncatedIsBounded(Letters(), MAX_RESULT_TEXT);
    EscapedLength(t);
  }

  lemma LogWarningSize(limit: Limit)
    ensures |RawString(Append([], LogNote(limit))).bytes| <= 49_154
  {
    AppendedLength([], LogNote(limit));
  }

  lemma PairLength(m: Fields, a: Text, b: Text)
    requires m.Keys == {a, b} && a != b && |a| <= 10 && |b| <= 10
    requires |m[a].bytes| <= 49_412 && |m[b].bytes| <= 49_412
    ensures |EncodedObject(m)| <= 250_000
  {
    assert |m| == |m.Keys| == 2;
    assert Bounded(m, 49_475);
    EncodedLength(m, 49_475, 2);
    assert Times(49_476, 2) == 98_952;
  }

  lemma LogTier3Length(limit: Limit)
    ensures |EncodedObject(Tier3(LogBody(), limit))| <= 250_000
  {
    LogKeys();
    LogTier3(limit);
    LogStringSize();
    LogWarningSize(limit);
    PairLength(Tier3(LogBody(), limit), LOG, WARNING);
  }

  lemma LogNeedsTier3()
    ensures TierOf(WithBody(LogBody())) == 3 && ExceededLimit(WithBody(LogBody())) == ServerResult
  {
    var r := WithBody(LogBody());
    LongStringLength();
    BigBodyIsOver(LogBody(), LOG);
    LogTier2(ServerResult);
    assert Candidate2(r) == r;
    LogTier3Length(ServerResult);
    SmallFits(Candidate3(r));
  }

  lemma TruncatedLacks(s: Text, max: nat)
    requires 91 !in s
    ensures 91 !in Truncated(s, max)
  {
    if |s| > max {
      SuffixLacks(|s| - max, 91);
      LacksConcat(s[..Cut(s, max)], Suffix(|s| - max), 91);
    }
  }

  lemma LabelLacksBracket(limit: Limit)
    ensures 91 !in Ascii(LimitLabel(limit))
  {
    match limit
    case NoLimit => AsciiLacks(" byte ", 91);
    case ServerResult => AsciiLacks(" byte server result budget", 91);
    case IpcFrame => AsciiLacks(" byte agent IPC budget", 91);
    case ResultText => AsciiLacks(" byte free-text field cap", 91);
  }

  lemma DescriptionLacksBracket(limit: Limit)
    ensures 91 !in Description(limit)
  {
    PrintedLacks(Budget(limit), 91);
    LabelLacksBracket(limit);
    LacksConcat(Printed(Budget(limit)), Ascii(LimitLabel(limit)), 91);
  }

  lemma LogNoteLacksBracket(limit: Limit)
    ensures 91 !in LogNote(limit)
  {
    AsciiLacks("detail field(s) omitted (", 91);
    AsciiLacks("warning", 91);
    AsciiLacks(")", 91);
    AsciiLacks(": the result exceeded the ", 91);
    DescriptionLacksBracket(limit);
    LacksConcat(WARNING, Ascii(")"), 91);
    LacksAround(DETAIL_HEAD, WARNING + Ascii(")"), EXCEEDED, 91);
    LacksConcat(DETAIL_HEAD + (WARNING + Ascii(")")) + EXCEEDED, Description(limit), 91);
  }

  lemma AppendToNothing(f: Text)
    requires f != []
    ensures Append([], f) == Compose([], ClampedNote(f))
  {
    ShortIsFree([]);
    SplitOfText([]);
  }

  lemma ComposedLacks(n: Text)
    requires 91 !in n
    ensures 91 !in Compose([], n)
  {
    TruncatedLacks(n, MAX_RESULT_NOTES);
    AsciiLacks("bounded: ", 91);
    LacksConcat(LABEL, ClampedNotes(n), 91);
    assert ClampedText([]) == [];
  }

  lemma LogNoteReadsBack(limit: Limit)
    ensures Sanitized(Append([], LogNote(limit))) == Append([], LogNote(limit))
  {
    WarningKeyIsLegible();
    OmittedNoteIsClean([WARNING], limit);
    AppendValid([], LogNote(limit));
    SanitizedIff(Append([], LogNote(limit)));
  }

  lemma LogWarningSent(limit: Limit)
    ensures WarningOf(Tier3(LogBody(), limit)) == Append([], LogNote(limit))
  {
    LogTier3(limit);
    LogNoteReadsBack(limit);
  }

  lemma SentIsThird(r: CommandResult)
    requires TierOf(r) == 3
    ensures r.stdout.body.Some? && Sent(r) == Candidate3(r)
  {
  }

  lemma LogSentWarning()
    ensures var r := WithBody(LogBody());
            && Sent(r).stdout.body.Some?
            && WarningOf(Sent(r).stdout.body.value) == Append([], LogNote(ServerResult))
  {
    LogNeedsTier3();
    SentIsThird(WithBody(LogBody()));
    LogTier2(ServerResult);
    LogWarningSent(ServerResult);
  }

  lemma BracketIn(s: string, i: nat)
    requires i < |s| && s[i] == '['
    ensures 91 in Ascii(s)
  {
    assert Ascii(s)[i] == 91;
  }

  lemma LogWarningLacksBracket(limit: Limit)
    ensures 91 !in Append([], LogNote(limit))
  {
    LogNoteLacksBracket(limit);
    AppendToNothing(LogNote(limit));
    TruncatedLacks(LogNote(limit), MAX_RESULT_NOTE);
    ComposedLacks(ClampedNote(LogNote(limit)));
  }

  /** The run's warning is not in what is sent: of a result with a five-megabyte log beside a warning that is an empty
      array, tier 3 sends a warning in which not even the bracket is left. */
  lemma ContainerWarningIsLost()
    ensures var r := WithBody(LogBody());
            && TierOf(r) == 3 && WarningOf(r.stdout.body.value) == Ascii("[]") && 91 in Ascii("[]")
            && Sent(r).stdout.body.Some? && 91 !in WarningOf(Sent(r).stdout.body.value)
  {
    LogNeedsTier3();
    EmptyArrayWarning(LogBody());
    BracketIn("[]", 0);
    LogSentWarning();
    LogWarningLacksBracket(ServerResult);
  }

  // ---------------------------------------------------------------- a result that needs tier 4

  function LongSnapshot(): Fields { map[ID := LongString()] }

  ghost function SnapshotBody(): Fields {
    map[SNAPSHOT := Raw(EncodedObject(LongSnapshot()), Obj(LongSnapshot()))]
  }

  lemma SnapshotTier2(limit: Limit)
    ensures Tier2(SnapshotBody(), limit) == SnapshotBody()
  {
    KeysDiffer();
    assert FileCount(SnapshotBody()) == 0;
    assert BulkKeys(SnapshotBody()) == {};
  }

  lemma LongIdentity()
    ensures |EncodedObject(Identity(LongSnapshot()))| > SERVER_BUDGET
  {
    KeysDiffer();
    var identity := Identity(LongSnapshot());
    assert ID in IDENTITY_KEYS && ID in identity && identity[ID] == LongString();
    LongStringLength();
    EncodedHolds(identity, ID);
  }

  lemma SnapshotKept()
    ensures SNAPSHOT in Kept(SnapshotBody())
    ensures Kept(SnapshotBody())[SNAPSHOT].bytes == EncodedObject(Identity(LongSnapshot()))
  {
    assert HasSnapshot(SnapshotBody()) && SnapshotOf(SnapshotBody()) == LongSnapshot();
  }

  lemma Tier3HasSnapshot(fields: Fields, limit: Limit)
    requires SNAPSHOT in Kept(fields)
    ensures SNAPSHOT in Tier3(fields, limit) && Tier3(fields, limit)[SNAPSHOT] == Kept(fields)[SNAPSHOT]
  {
    KeysDiffer();
  }

  /** The identity of the snapshot is not bounded by tier 3. */
  lemma SnapshotTier3(limit: Limit)
    ensures |EncodedObject(Tier3(SnapshotBody(), limit))| > SERVER_BUDGET
  {
    LongIdentity();
    SnapshotKept();
    Tier3HasSnapshot(SnapshotBody(), limit);
    EncodedHolds(Tier3(SnapshotBody(), limit), SNAPSHOT);
  }

  lemma SnapshotBodyIsOver()
    ensures ExceededLimit(WithBody(SnapshotBody())) == ServerResult
    ensures Candidate1(WithBody(SnapshotBody())) == WithBody(SnapshotBody()) && !Fits(WithBody(SnapshotBody()))
  {
    LongStringLength();
    EncodedHolds(LongSnapshot(), ID);
    BigBodyIsOver(SnapshotBody(), SNAPSHOT);
  }

  lemma TooLongText(r: CommandResult)
    requires |r.stdout.text| > SERVER_BUDGET
    ensures !Fits(r)
  {
  }

  /** A snapshot id of five million bytes takes the result past tier 3: only tier 4 bounds it. */
  lemma LongSnapshotIdNeedsTier4()
    ensures TierOf(WithBody(SnapshotBody())) == 4
  {
    var r := WithBody(SnapshotBody());
    SnapshotBodyIsOver();
    SnapshotTier2(ServerResult);
    assert Candidate2(r) == r;
    SnapshotTier3(ServerResult);
    TooLongText(Candidate3(r));
  }
}
