/**
 The bounding as it is carried out: a decoded body whose map is edited in place, and the method that runs the
 tiers. Every method is tied to the specification function of its tier.
 */
module ResultFitting {
  import opened Options
  import opened Bytes
  import opened Utf8
  import opened TextTruncation
  import opened ResultWarning
  import opened Json
  import opened ResultBounds

  /** The loop of dropBulkFields: deletes key by key while it goes over the keys in any order. */
  method DeleteBulk(fields: Fields) returns (rest: Fields, bulk: set<Text>)
    ensures rest == fields - BulkKeys(fields) && bulk == BulkKeys(fields)
    ensures bulk == {} ==> rest == fields
  {
    rest, bulk := fields, {};
    var todo := fields.Keys;
    while todo != {}
      invariant todo <= fields.Keys && bulk <= fields.Keys - todo && rest == fields - bulk
      invariant forall k :: k in fields && k !in todo ==> (k in bulk <==> IsBulk(fields, k))
      decreases |todo|
    {
      var k :| k in todo;
      todo := todo - {k};
      if k != SNAPSHOT && |rest[k].bytes| > BULK_THRESHOLD && IsContainer(rest[k]) {
        rest := rest - {k};
        bulk := bulk + {k};
      }
    }
    assert bulk == BulkKeys(fields);
  }

  /** The loops of reduceToScalars: one keeps the scalars and collects the containers, one clamps strings. */
  method KeepScalars(fields: Fields) returns (kept: Fields, containers: set<Text>)
    ensures kept == ScalarFields(fields) && containers == ContainerKeys(fields)
  {
    kept, containers := map[], {};
    var todo := fields.Keys;
    while todo != {}
      invariant todo <= fields.Keys
      invariant forall k :: k in containers <==> k in fields && k !in todo && IsContainer(fields[k])
      invariant forall k :: k in kept <==> k in fields && k !in todo && !IsContainer(fields[k])
      invariant forall k :: k in kept ==> kept[k] == fields[k]
      decreases |todo|
    {
      var k :| k in todo;
      todo := todo - {k};
      if IsContainer(fields[k]) {
        containers := containers + {k};
      } else {
        kept := kept[k := fields[k]];
      }
    }
    todo := kept.Keys;
    while todo != {}
      invariant todo <= kept.Keys
      invariant forall k :: k in kept <==> k in fields && !IsContainer(fields[k])
      invariant forall k :: k in kept ==> kept[k] == if k in todo then fields[k] else ClampedScalar(fields[k])
      decreases |todo|
    {
      var k :| k in todo;
      todo := todo - {k};
      kept := kept[k := ClampedScalar(kept[k])];
    }
    assert kept == ScalarFields(fields);
    assert containers == ContainerKeys(fields);
  }

  /** The scalars with the snapshot's identity beside them. */
  method KeepSummary(fields: Fields) returns (kept: Fields, containers: set<Text>)
    ensures kept == Kept(fields) && containers == ContainerKeys(fields)
  {
    kept, containers := KeepScalars(fields);
    if HasSnapshot(fields) {
      var identity := Identity(SnapshotOf(fields));
      var rebuilt := EncodeObject(identity);
      kept := kept[SNAPSHOT := Raw(rebuilt, Obj(identity))];
    }
  }

  class ResultObject {
    var fields: Fields

    constructor (fields: Fields)
      ensures this.fields == fields
    {
      this.fields := fields;
    }

    /** Clamps the run's own warning; answers the number of bytes dropped from it. */
    method BoundObjectWarning() returns (dropped: nat)
      modifies this
      ensures fields == BoundWarning(old(fields)) && dropped == WarningBytesDropped(old(fields))
    {
      if WARNING !in fields {
        return 0;
      }
      var original := WarningOf(fields);
      var composed := Compose(original, []);
      if composed == original {
        return 0;
      }
      fields := WithWarning(fields, composed);
      var clipped;
      clipped, dropped := TruncateText(original, MAX_WARNING_TEXT);
    }

    /** Empties snapshot.files and notes how many entries were dropped. */
    method EmptySnapshotFiles(limit: Limit) returns (count: nat)
      modifies this
      ensures fields == EmptyIndex(old(fields), limit) && count == FileCount(old(fields))
    {
      count := FileCount(fields);
      if count == 0 {
        return;
      }
      var snapshot := SnapshotOf(fields)[FILES := EMPTY_ARRAY];
      var rebuilt := EncodeObject(snapshot);
      fields := fields[SNAPSHOT := Raw(rebuilt, Obj(snapshot))];
      fields := Noted(fields, SnapshotNote(count, limit));
    }

    /** Deletes every bulk container, key by key, and notes the keys in sorted order. */
    method DropBulkFields(limit: Limit) returns (dropped: seq<Text>)
      modifies this
      ensures fields == DropBulk(old(fields), limit) && dropped == Sorted(BulkKeys(old(fields)))
    {
      var bulk;
      fields, bulk := DeleteBulk(fields);
      dropped := SortStrings(bulk);
      if bulk != {} {
        fields := Noted(fields, OmittedNote(dropped, limit));
      }
    }

    /** Replaces the fields by the scalars and the snapshot's identity, and notes the containers dropped. */
    method ReduceToScalars(limit: Limit)
      modifies this
      ensures fields == Tier3(old(fields), limit)
    {
      var kept, containers := KeepSummary(fields);
      if containers != {} {
        var keys := SortStrings(containers);
        kept := Noted(kept, OmittedNote(keys, limit));
      }
      fields := kept;
    }
  }

  method RecoverStrings(fields: Fields) returns (minimal: Fields)
    ensures minimal == Recovered(fields)
  {
    minimal := map[];
    var todo := RECOVERED_KEYS;
    while todo != {}
      invariant todo <= RECOVERED_KEYS
      invariant forall k :: k in minimal <==> k in Recovered(fields) && k !in todo
      invariant forall k :: k in minimal ==> minimal[k] == Recovered(fields)[k]
      decreases |todo|
    {
      var k :| k in todo;
      todo := todo - {k};
      if k in fields && StringOf(fields[k]).Some? {
        var t, dropped := TruncateText(StringOf(fields[k]).value, MAX_LAST_RESORT);
        minimal := minimal[k := RawString(t)];
      }
    }
    assert minimal == Recovered(fields);
  }

  /** lastResortStdout */
  method LastResortBody(fields: Fields, limit: Limit) returns (minimal: Fields)
    ensures minimal == LastResort(fields, limit)
  {
    minimal := RecoverStrings(fields);
    if SnapshotIdOf(fields) != [] {
      var t, dropped := TruncateText(SnapshotIdOf(fields), MAX_LAST_RESORT);
      minimal := minimal[SNAPSHOT_ID := RawString(t)];
    }
    minimal := WithWarning(minimal, Append(WarningOf(fields), LastResortNote(limit)));
  }

  method RunTier2(fields: Fields, limit: Limit) returns (body: ResultObject, notes: seq<Text>)
    ensures fresh(body) && body.fields == Tier2(fields, limit) && notes == Tier2Notes(fields, limit)
  {
    body := new ResultObject(fields);
    var dropped := body.BoundObjectWarning();
    var count := body.EmptySnapshotFiles(limit);
    var keys := body.DropBulkFields(limit);
    notes := WarningNotes(dropped) + FileNotes(count) + BulkNotes(keys);
  }

  /** Tier 4 on the body that tier 3 left. */
  method RunTier4(r: CommandResult, fields: Fields, limit: Limit) returns (out: CommandResult)
    ensures out == r.(stdout := Document(LastResort(fields, limit)),
                      stderr := Truncated(r.stderr, MAX_LAST_RESORT),
                      commandId := Truncated(r.commandId, MAX_LAST_RESORT))
  {
    var minimal := LastResortBody(fields, limit);
    var text := EncodeObject(minimal);
    var stderr, dropped := TruncateText(r.stderr, MAX_LAST_RESORT);
    var commandId;
    commandId, dropped := TruncateText(r.commandId, MAX_LAST_RESORT);
    out := r.(stdout := Stdout(text, Some(minimal)), stderr := stderr, commandId := commandId);
  }

  ghost function TierOut(r: CommandResult, fields: Fields, limit: Limit, tier: nat): CommandResult {
    var f3 := Tier3(Tier2(fields, limit), limit);
    if tier == 2 then r.(stdout := Document(Tier2(fields, limit)))
    else if tier == 3 then r.(stdout := Document(f3))
    else r.(stdout := Document(LastResort(f3, limit)), stderr := Truncated(r.stderr, MAX_LAST_RESORT),
            commandId := Truncated(r.commandId, MAX_LAST_RESORT))
  }

  /** The tier is the first of 2 and 3 whose result fits, else 4. */
  ghost predicate IsFirst(r: CommandResult, fields: Fields, limit: Limit, tier: nat) {
    && 2 <= tier <= 4
    && (tier > 2 ==> !Fits(TierOut(r, fields, limit, 2)))
    && (tier > 3 ==> !Fits(TierOut(r, fields, limit, 3)))
    && (tier < 4 ==> Fits(TierOut(r, fields, limit, tier)))
  }

  lemma TierOutIsCandidate(r: CommandResult)
    requires r.stdout.body.Some?
    ensures var fields, limit := r.stdout.body.value, ExceededLimit(r);
            && TierOut(Candidate1(r), fields, limit, 2) == Candidate2(r)
            && TierOut(Candidate1(r), fields, limit, 3) == Candidate3(r)
            && TierOut(Candidate1(r), fields, limit, 4) == Candidate4(r)
  {
  }

  lemma FirstIsSent(r: CommandResult, tier: nat)
    requires !Fits(Candidate1(r)) && r.stdout.body.Some?
    requires IsFirst(Candidate1(r), r.stdout.body.value, ExceededLimit(r), tier)
    ensures TierOut(Candidate1(r), r.stdout.body.value, ExceededLimit(r), tier) == Sent(r) && tier == TierOf(r)
  {
    TierOutIsCandidate(r);
    if tier == 2 {
      assert Fits(Candidate2(r));
    } else if tier == 3 {
      assert Fits(Candidate3(r));
    }
  }

  /** The two results that are decided before the body is looked into. */
  lemma DecidedEarly(r: CommandResult)
    ensures Fits(Candidate1(r)) ==> Fit(r) == Finished(Candidate1(r), StderrNotes(r), ExceededLimit(r))
    ensures !Fits(Candidate1(r)) && r.stdout.body.None? ==>
              Fit(r) == Finished(OversizeFailure(Candidate1(r), ExceededLimit(r)),
                                 StderrNotes(r) + [UNSUMMARISED], ExceededLimit(r))
  {
  }

  /** Tiers 2 to 4, each tried only when the result before it does not fit. */
  method RunTiers(r: CommandResult, fields: Fields, limit: Limit)
    returns (out: CommandResult, notes: seq<Text>, tier: nat)
    ensures IsFirst(r, fields, limit, tier)
    ensures out == TierOut(r, fields, limit, tier) && notes == TierNotes(fields, limit, tier)
  {
    var body;
    body, notes := RunTier2(fields, limit);
    var text := EncodeObject(body.fields);
    out := r.(stdout := Stdout(text, Some(body.fields)));
    if Fits(out) {
      tier := 2;
      return;
    }
    body.ReduceToScalars(limit);
    text := EncodeObject(body.fields);
    out := r.(stdout := Stdout(text, Some(body.fields)));
    if Fits(out) {
      notes := notes + [SCALARS_ONLY];
      tier := 3;
      return;
    }
    out := RunTier4(out, body.fields, limit);
    notes := notes + [SCALARS_ONLY] + [MINIMAL];
    tier := 4;
  }

  /** fitBackupResult */
  method FitBackupResult(r: CommandResult) returns (fitted: Fitted)
    ensures fitted == Fit(r)
  {
    var limit := ExceededLimit(r);
    var stderr, dropped := TruncateText(r.stderr, MAX_RESULT_TEXT);
    var out := r.(stderr := stderr);
    var notes := StderrNotes(r);
    DecidedEarly(r);
    if Fits(out) {
      return Finished(out, notes, limit);
    }
    if r.stdout.body.None? {
      return Finished(OversizeFailure(out, limit), notes + [UNSUMMARISED], limit);
    }
    var tierNotes, tier;
    out, tierNotes, tier := RunTiers(out, r.stdout.body.value, limit);
    FirstIsSent(r, tier);
    return Finished(out, notes + tierNotes, limit);
  }
}
