/**
 A result whose index note is evicted: its warning is an array of one string of 3000 ill-formed bytes, and beside it
 are a snapshot with one file and a five-megabyte log.
 */
module ResultEvicted {
  import opened Bytes
  import opened Utf8
  import opened TextTruncation
  import opened ResultWarning
  import opened Sanitizing
  import opened WarningReread
  import opened WarningKept
  import opened Json
  import opened ResultBounds
  import opened ResultNotes
  import opened ResultEviction
  import opened ResultSent

  function Bad(n: nat): Text { seq(n, _ => 0xFF) }

  const OPEN: Text := Ascii("[\"")
  const CLOSE: Text := Ascii("\"]")

  function BadText(): Text { OPEN + (Bad(3000) + CLOSE) }

  function BadWarning(): Raw { Raw(BadText(), Arr([RawString(Bad(3000))])) }

  function OneFile(): Fields { map[FILES := Raw(Ascii("[{}]"), Arr([Raw(Ascii("{}"), Obj(map[]))]))] }

  ghost function IndexedBody(): Fields {
    map[WARNING := BadWarning(), SNAPSHOT := Raw(EncodedObject(OneFile()), Obj(OneFile())), LOG := LongString()]
  }

  // ---------------------------------------------------------------- the warning as it is read back

  lemma {:induction false} BadGrows(n: nat)
    ensures |Sanitized(Bad(n))| == 3 * n
  {
    if n > 0 {
      BadGrows(n - 1);
      assert Bad(n)[1..] == Bad(n - 1);
      assert FirstChar(Bad(n)) == 0;
    }
  }

  lemma Brackets()
    ensures Printable(OPEN) && Printable(CLOSE) && |OPEN| == 2 && |CLOSE| == 2 && 58 !in OPEN && 58 !in CLOSE
  {
    PrintableAscii("[\"");
    PrintableAscii("\"]");
    AsciiLacks("[\"", 58);
    AsciiLacks("\"]", 58);
  }

  lemma BehindGrows(s: Text, b: Text)
    requires b != [] && Printable(b)
    ensures |Sanitized(s + b)| == |Sanitized(s)| + |b|
  {
    PrintableValid(b);
    SanitizedIff(b);
    SanitizedConcat(s, b);
  }

  lemma AroundGrows(a: Text, s: Text, b: Text)
    requires b != [] && Printable(a) && Printable(b)
    ensures |Sanitized(a + (s + b))| == |a| + |Sanitized(s)| + |b|
  {
    BehindGrows(s, b);
    SanitizedAscii(a, s + b);
  }

  lemma BadTextGrows()
    ensures |BadText()| == 3004 && |Sanitized(BadText())| == 9004
  {
    Brackets();
    BadGrows(3000);
    AroundGrows(OPEN, Bad(3000), CLOSE);
  }

  lemma BadTextIsUntouched()
    ensures Untouched(BadText())
  {
    Brackets();
    LacksAround(OPEN, Bad(3000), CLOSE, 58);
    assert OPEN + Bad(3000) + CLOSE == BadText();
    NoColon(BadText());
    NeutralizedSame(BadText());
    BadTextGrows();
  }

  // ---------------------------------------------------------------- what the tiers note

  const KEYS: set<Text> := {WARNING, SNAPSHOT, LOG}

  /** The shape of the body before and after tier 2. */
  ghost predicate Shaped(f: Fields) {
    && f.Keys == KEYS && HasSnapshot(f) && !IsContainer(f[LOG])
    && WARNING != SNAPSHOT && WARNING != LOG && SNAPSHOT != LOG
  }

  lemma IndexedShape()
    ensures Shaped(IndexedBody()) && IndexedBody()[WARNING] == BadWarning()
    ensures IndexedBody()[LOG] == LongString() && SnapshotOf(IndexedBody()) == OneFile()
  {
    LogKeys();
  }

  lemma WarningIsBad()
    ensures WarningOf(IndexedBody()) == BadText() && !WarningChanges(IndexedBody())
  {
    IndexedShape();
    BadTextIsUntouched();
  }

  lemma NoBulk(f: Fields)
    requires Shaped(f) && |f[WARNING].bytes| <= BULK_THRESHOLD
    ensures BulkKeys(f) == {}
  {
    forall k
      ensures k !in BulkKeys(f)
    {
      assert k in f ==> k in KEYS;
    }
  }

  lemma OneFileNoBulk()
    ensures FileCount(IndexedBody()) == 1 && BulkKeys(IndexedBody()) == {}
  {
    IndexedShape();
    BadTextGrows();
    NoBulk(IndexedBody());
  }

  lemma OneNote(limit: Limit)
    ensures Emitted2(IndexedBody(), limit) == [SnapshotNote(1, limit)]
  {
    OneFileNoBulk();
    assert BulkKeys(IndexedBody()) - {WARNING} == {};
  }

  lemma OnlyIndexNoted(f: Fields, limit: Limit)
    requires !WarningChanges(f) && FileCount(f) != 0 && BulkKeys(f) == {}
    ensures Tier2(f, limit) ==
            Noted(WithSnapshot(f, SnapshotOf(f)[FILES := EMPTY_ARRAY]), SnapshotNote(FileCount(f), limit))
  {
    BulkOfIndexless(f, limit);
    assert BulkKeys(f) - {WARNING} == {};
  }

  lemma ShapeKept(f: Fields, snapshot: Fields, note: Text)
    requires Shaped(f)
    ensures var g := Noted(WithSnapshot(f, snapshot), note);
            Shaped(g) && g[WARNING].value.Str? && g[LOG] == f[LOG] && SnapshotOf(g) == snapshot
  {
  }

  ghost predicate AfterTier2(f: Fields) {
    Shaped(f) && f[WARNING].value.Str? && f[LOG] == LongString() && SnapshotOf(f) == OneFile()[FILES := EMPTY_ARRAY]
  }

  lemma IndexedAfterTier2(limit: Limit)
    ensures AfterTier2(Tier2(IndexedBody(), limit))
  {
    WarningIsBad();
    OneFileNoBulk();
    OnlyIndexNoted(IndexedBody(), limit);
    IndexedShape();
    ShapeKept(IndexedBody(), OneFile()[FILES := EMPTY_ARRAY], SnapshotNote(1, limit));
  }

  lemma OneContainer(f: Fields)
    requires Shaped(f) && f[WARNING].value.Str?
    ensures ContainerKeys(f) == {SNAPSHOT}
  {
    forall k
      ensures k in ContainerKeys(f) <==> k == SNAPSHOT
    {
      assert k in f ==> k in KEYS;
    }
  }

  lemma IndexedLater(limit: Limit)
    ensures Later(IndexedBody(), limit, 3) == OmittedNotes({SNAPSHOT}, limit)
  {
    IndexedAfterTier2(limit);
    OneContainer(Tier2(IndexedBody(), limit));
  }

  lemma SnapshotOmitted(limit: Limit)
    ensures OmittedNotes({SNAPSHOT}, limit) == [OmittedNote([SNAPSHOT], limit)]
  {
    SortedOne(SNAPSHOT);
  }

  lemma TwoNotes(limit: Limit)
    ensures Emitted(IndexedBody(), limit, 3) == [SnapshotNote(1, limit), OmittedNote([SNAPSHOT], limit)]
  {
    OneNote(limit);
    IndexedLater(limit);
    SnapshotOmitted(limit);
  }

  // ---------------------------------------------------------------- that tier 3 sends it

  lemma EmptyListing()
    ensures |EncodedObject(map[FILES := EMPTY_ARRAY])| <= 200
  {
    var m: Fields := map[FILES := EMPTY_ARRAY];
    assert m.Keys == {FILES};
    assert |FILES| == 5 && |EMPTY_ARRAY.bytes| == 2;
    assert Bounded(m, 35);
    EncodedLength(m, 35, 1);
    assert Times(36, 1) == 36;
  }

  lemma IndexedIdentity()
    ensures Identity(OneFile()[FILES := EMPTY_ARRAY]) == map[FILES := EMPTY_ARRAY]
  {
    KeysDiffer();
  }

  lemma KeptShape(f: Fields)
    requires Shaped(f) && f[WARNING].value.Str?
    ensures Kept(f).Keys == KEYS && Kept(f)[LOG] == ClampedScalar(f[LOG])
    ensures Kept(f)[SNAPSHOT].bytes == EncodedObject(Identity(SnapshotOf(f)))
  {
    OneContainer(f);
    assert ScalarFields(f).Keys == KEYS - {SNAPSHOT};
  }

  ghost predicate Small(f: Fields) { f.Keys == KEYS && forall k :: k in f ==> |f[k].bytes| <= 49_412 }

  lemma NotedIsSmall(f: Fields, note: Text)
    requires f.Keys == KEYS && forall k :: k in f && k != WARNING ==> |f[k].bytes| <= 49_412
    ensures Small(Noted(f, note))
  {
    AppendedLength(WarningOf(f), note);
  }

  lemma KeptIsSmall(f: Fields)
    requires AfterTier2(f)
    ensures Kept(f).Keys == KEYS && forall k :: k in Kept(f) && k != WARNING ==> |Kept(f)[k].bytes| <= 49_412
  {
    KeptShape(f);
    IndexedIdentity();
    EmptyListing();
    LogStringSize();
  }

  lemma NotedOnce(f: Fields, limit: Limit)
    requires Shaped(f) && f[WARNING].value.Str?
    ensures Tier3(f, limit) == Noted(Kept(f), OmittedNote(Sorted({SNAPSHOT}), limit))
  {
    OneContainer(f);
  }

  lemma Tier3IsSmall(f: Fields, limit: Limit)
    requires AfterTier2(f)
    ensures Small(Tier3(f, limit))
  {
    KeptIsSmall(f);
    NotedOnce(f, limit);
    NotedIsSmall(Kept(f), OmittedNote(Sorted({SNAPSHOT}), limit));
  }

  lemma KeyLengths()
    ensures |KEYS| == 3 && forall k :: k in KEYS ==> |k| <= 10
  {
    LogKeys();
    assert |SNAPSHOT| == 8;
  }

  lemma TripleLength(m: Fields)
    requires Small(m)
    ensures |EncodedObject(m)| <= 250_000
  {
    KeyLengths();
    assert |m| == |m.Keys| == 3;
    assert Bounded(m, 49_475);
    EncodedLength(m, 49_475, 3);
    assert Times(49_476, 3) == 148_428;
  }

  lemma IndexedSizes()
    ensures |EncodedObject(Tier2(IndexedBody(), ServerResult))| > SERVER_BUDGET
    ensures |EncodedObject(Tier3(Tier2(IndexedBody(), ServerResult), ServerResult))| <= 250_000
  {
    var f := Tier2(IndexedBody(), ServerResult);
    LongStringLength();
    IndexedAfterTier2(ServerResult);
    EncodedHolds(f, LOG);
    Tier3IsSmall(f, ServerResult);
    TripleLength(Tier3(f, ServerResult));
  }

  lemma IndexedIsOver()
    ensures ExceededLimit(WithBody(IndexedBody())) == ServerResult
    ensures Candidate1(WithBody(IndexedBody())) == WithBody(IndexedBody()) && !Fits(WithBody(IndexedBody()))
  {
    LongStringLength();
    IndexedShape();
    BigBodyIsOver(IndexedBody(), LOG);
  }

  lemma ThirdFits(fields: Fields)
    requires ExceededLimit(WithBody(fields)) == ServerResult && Candidate1(WithBody(fields)) == WithBody(fields)
    requires |EncodedObject(Tier3(Tier2(fields, ServerResult), ServerResult))| <= 250_000
    ensures Fits(Candidate3(WithBody(fields)))
  {
    SmallFits(Candidate3(WithBody(fields)));
  }

  lemma SecondIsOver(fields: Fields)
    requires ExceededLimit(WithBody(fields)) == ServerResult
    requires |EncodedObject(Tier2(fields, ServerResult))| > SERVER_BUDGET
    ensures !Fits(Candidate2(WithBody(fields)))
  {
    TooLongText(Candidate2(WithBody(fields)));
  }

  lemma IndexedNeedsTier3()
    ensures TierOf(WithBody(IndexedBody())) == 3 && ExceededLimit(WithBody(IndexedBody())) == ServerResult
  {
    IndexedIsOver();
    IndexedSizes();
    SecondIsOver(IndexedBody());
    ThirdFits(IndexedBody());
  }

  // ---------------------------------------------------------------- and what is left of the notes

  lemma PlainKeys()
    ensures Plain(WARNING) && Plain(SNAPSHOT) && Plain(LOG)
  {
    PlainAscii("warning");
    PlainAscii("snapshot");
    PlainAscii("log");
  }

  lemma ThreeAreLegible(a: Text, b: Text, c: Text)
    requires Plain(a) && Plain(b) && Plain(c)
    ensures LegibleKeys({a, b, c})
  {
    PlainIsFree(a);
    PlainIsFree(b);
    PlainIsFree(c);
  }

  lemma IndexedKeysAreLegible()
    ensures LegibleKeys(IndexedBody().Keys)
  {
    IndexedShape();
    PlainKeys();
    ThreeAreLegible(WARNING, SNAPSHOT, LOG);
  }

  lemma LongReread(w: Text, n: Text)
    requires |Sanitized(w)| == 9004
    ensures var r := Reread(w, n); |r| > MAX_RESULT_TEXT && Truncated(r, MAX_RESULT_TEXT) != r
  {
    TruncatedIsBounded(Reread(w, n), MAX_RESULT_TEXT);
  }

  lemma IndexedIsOverlong(limit: Limit)
    ensures Overlong(IndexedBody(), limit)
  {
    WarningIsBad();
    OneNote(limit);
    BadTextGrows();
    LongReread(BadText(), SnapshotNote(1, limit));
  }

  /** Clipped inside its text, the warning has no notes left. */
  lemma ClippedHasNoNotes(x: Text, c: Text)
    requires Free(x, LABEL) && Valid(x) && Distinctive(c) && |x| == 9004
    ensures var k := Truncated(Whole(x, c), MAX_RESULT_TEXT);
            Split(k) == (k, []) && |k| >= 7000
  {
    var w := Whole(x, c);
    WholeValid(x, c);
    CutLosesLessThanARune(w, MAX_RESULT_TEXT);
    var cut := Cut(w, MAX_RESULT_TEXT);
    ClippedAt(w, MAX_RESULT_TEXT);
    assert w[..cut] == x[..cut];
    FreePrefix(x, LABEL, cut);
    SuffixIsFree(|w| - MAX_RESULT_TEXT);
    SuffixStart(|w| - MAX_RESULT_TEXT);
    FreeBeforeEllipsis(x[..cut], Suffix(|w| - MAX_RESULT_TEXT));
    SplitOfText(x[..cut] + Suffix(|w| - MAX_RESULT_TEXT));
  }

  lemma IndexedResumes(limit: Limit)
    ensures var k := Resumed(IndexedBody(), limit, 3);
            Split(k) == (k, []) && |k| >= 7000 && Valid(k)
  {
    var n := SnapshotNote(1, limit);
    IndexedIsOverlong(limit);
    IndexedKeysAreLegible();
    OverlongReads(IndexedBody(), limit);
    OneNote(limit);
    OneFileNoBulk();
    WarningIsBad();
    BadTextGrows();
    OverlongIsTooLong(IndexedBody(), limit);
    ClippedHasNoNotes(Sanitized(BadText()), ClampedNote(n));
    SnapshotNoteIsClean(1, limit);
    RereadValid(BadText(), n);
    TruncatedIsBounded(Reread(BadText(), n), MAX_RESULT_TEXT);
  }

  /** One note appended to a long text is then the only one. */
  lemma OnlyNote(k: Text, n: Text)
    requires Split(k) == (k, []) && |k| >= 7000 && Valid(k) && CleanNote(n) && Valid(n)
    ensures Split(ReadAll(k, [n])).1 == ClampedNote(n)
  {
    LongNeverSwallows(k);
    SteadyAppend(k, n);
    AppendValid(k, n);
    ReadOne(k, n);
    SanitizedIff(Append(k, n));
  }

  lemma SnapshotNoteSent(limit: Limit)
    ensures CleanNote(OmittedNote([SNAPSHOT], limit)) && Valid(OmittedNote([SNAPSHOT], limit))
  {
    PlainKeys();
    PlainIsFree(SNAPSHOT);
    OmittedNoteIsClean([SNAPSHOT], limit);
  }

  lemma OnlySnapshotNote(limit: Limit)
    ensures Split(WarningOf(TierBody(IndexedBody(), limit, 3))).1 == ClampedNote(OmittedNote([SNAPSHOT], limit))
  {
    WarningAfterTier(IndexedBody(), limit, 3);
    IndexedLater(limit);
    SnapshotOmitted(limit);
    IndexedResumes(limit);
    SnapshotNoteSent(limit);
    OnlyNote(Resumed(IndexedBody(), limit, 3), OmittedNote([SNAPSHOT], limit));
  }

  /** Of that result tier 2 notes the index, tier 3 the snapshot; what is sent carries only the second note. */
  lemma IndexNoteIsEvicted()
    ensures var r, l := WithBody(IndexedBody()), ServerResult;
            && TierOf(r) == 3 && ExceededLimit(r) == l
            && Emitted(IndexedBody(), l, 3) == [SnapshotNote(1, l), OmittedNote([SNAPSHOT], l)]
            && Sent(r).stdout.body.Some?
            && Split(WarningOf(Sent(r).stdout.body.value)).1 == ClampedNote(OmittedNote([SNAPSHOT], l))
  {
    IndexedNeedsTier3();
    SentBody(WithBody(IndexedBody()));
    TwoNotes(ServerResult);
    OnlySnapshotNote(ServerResult);
  }
}
