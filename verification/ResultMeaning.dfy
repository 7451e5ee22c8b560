/**
 What a degraded result still says: scalars, the snapshot's identity, the status and the success flag.
 */
module ResultMeaning {
  import opened Options
  import opened Bytes
  import opened Utf8
  import opened TextTruncation
  import opened ResultWarning
  import opened Json
  import opened ResultBounds
  import opened ResultNotes

  /** Key k is absent from both or present in both with the same raw message. */
  predicate SameAt(a: Fields, b: Fields, k: Text) { (k in a <==> k in b) && (k in a ==> a[k] == b[k]) }

  // ---------------------------------------------------------------- tier 2

  lemma NotedKeeps(fields: Fields, note: Text, k: Text)
    requires k != WARNING
    ensures SameAt(Noted(fields, note), fields, k)
  {
  }

  lemma BoundKeeps(fields: Fields, k: Text)
    requires k != WARNING
    ensures SameAt(BoundWarning(fields), fields, k)
  {
  }

  lemma EmptyIndexKeeps(fields: Fields, limit: Limit, k: Text)
    requires k != WARNING
    ensures k != SNAPSHOT || FileCount(fields) == 0 ==> SameAt(EmptyIndex(fields, limit), fields, k)
    ensures k == SNAPSHOT && FileCount(fields) != 0 ==>
              HasSnapshot(EmptyIndex(fields, limit))
              && SnapshotOf(EmptyIndex(fields, limit)) == SnapshotOf(fields)[FILES := EMPTY_ARRAY]
  {
    if FileCount(fields) != 0 {
      NotedKeeps(WithSnapshot(fields, SnapshotOf(fields)[FILES := EMPTY_ARRAY]),
                 SnapshotNote(FileCount(fields), limit), k);
    }
  }

  lemma DropBulkKeeps(fields: Fields, limit: Limit, k: Text)
    requires k != WARNING
    ensures if IsBulk(fields, k) then k !in DropBulk(fields, limit) else SameAt(DropBulk(fields, limit), fields, k)
  {
    var bulk := BulkKeys(fields);
    assert k in bulk <==> IsBulk(fields, k);
    if bulk != {} {
      NotedKeeps(fields - bulk, OmittedNote(Sorted(bulk), limit), k);
    }
  }

  /** Tier 2 removes exactly the bulk containers and leaves every other field but the warning as it is. */
  lemma Tier2Keeps(fields: Fields, limit: Limit, k: Text)
    requires k != WARNING && k != SNAPSHOT
    ensures if IsBulk(fields, k) then k !in Tier2(fields, limit) else SameAt(Tier2(fields, limit), fields, k)
  {
    BoundKeeps(fields, k);
    EmptyIndexKeeps(BoundWarning(fields), limit, k);
    DropBulkKeeps(Indexless(fields, limit), limit, k);
  }

  /** The snapshot stays. Its file index stays whole or becomes empty: never a proper non-empty part of it. */
  lemma Tier2KeepsSnapshot(fields: Fields, limit: Limit)
    ensures FileCount(fields) == 0 ==> SameAt(Tier2(fields, limit), fields, SNAPSHOT)
    ensures FileCount(fields) != 0 ==>
              HasSnapshot(Tier2(fields, limit))
              && SnapshotOf(Tier2(fields, limit)) == SnapshotOf(fields)[FILES := EMPTY_ARRAY]
  {
    KeysDiffer();
    BoundKeeps(fields, SNAPSHOT);
    BoundWarningText(fields);
    EmptyIndexKeeps(BoundWarning(fields), limit, SNAPSHOT);
    DropBulkKeeps(Indexless(fields, limit), limit, SNAPSHOT);
  }

  // ---------------------------------------------------------------- tier 3

  lemma Tier3IsKept(fields: Fields, limit: Limit, k: Text)
    requires k != WARNING
    ensures SameAt(Tier3(fields, limit), Kept(fields), k)
  {
    if ContainerKeys(fields) != {} {
      NotedKeeps(Kept(fields), OmittedNote(Sorted(ContainerKeys(fields)), limit), k);
    }
  }

  /** Tier 3 keeps exactly the scalars; only strings over the cap are clipped. */
  lemma Tier3Keeps(fields: Fields, limit: Limit, k: Text)
    requires k != WARNING && k != SNAPSHOT
    ensures k in Tier3(fields, limit) <==> k in fields && !IsContainer(fields[k])
    ensures k in Tier3(fields, limit) ==> Tier3(fields, limit)[k] == ClampedScalar(fields[k])
  {
    Tier3IsKept(fields, limit, k);
  }

  /** The snapshot keeps its identity, with an empty index. */
  lemma Tier3KeepsIdentity(fields: Fields, limit: Limit, k: Text)
    requires HasSnapshot(fields)
    ensures HasSnapshot(Tier3(fields, limit))
    ensures k in IDENTITY_KEYS ==> SameAt(SnapshotOf(Tier3(fields, limit)), SnapshotOf(fields), k)
    ensures FILES in SnapshotOf(Tier3(fields, limit)) && SnapshotOf(Tier3(fields, limit))[FILES] == EMPTY_ARRAY
  {
    KeysDiffer();
    Tier3IsKept(fields, limit, SNAPSHOT);
    assert SnapshotOf(Kept(fields)) == Identity(SnapshotOf(fields));
  }

  // ---------------------------------------------------------------- what the server reads

  /** A scalar as a reader sees it: the same value, or for a string over the cap a prefix of it. */
  ghost predicate SameScalar(a: Raw, b: Raw) {
    || a == b
    || (b.value.Str? && a.value.Str? && |b.value.text| > MAX_RESULT_TEXT
        && MAX_RESULT_TEXT - 3 <= |a.value.text|
        && a.value.text[..MAX_RESULT_TEXT - 3] == b.value.text[..MAX_RESULT_TEXT - 3])
  }

  lemma PrefixOfPrefix(t: Text, cut: nat, suffix: Text, n: nat)
    requires n <= cut <= |t|
    ensures (t[..cut] + suffix)[..n] == t[..n]
  {
  }

  lemma LongTextKeepsPrefix(t: Text)
    requires Valid(t) && |t| > MAX_RESULT_TEXT
    ensures var u := Truncated(t, MAX_RESULT_TEXT);
            Valid(u) && MAX_RESULT_TEXT - 3 <= |u| && u[..MAX_RESULT_TEXT - 3] == t[..MAX_RESULT_TEXT - 3]
  {
    TruncatedIsBounded(t, MAX_RESULT_TEXT);
    CutLosesLessThanARune(t, MAX_RESULT_TEXT);
    PrefixOfPrefix(t, Cut(t, MAX_RESULT_TEXT), Suffix(|t| - MAX_RESULT_TEXT), MAX_RESULT_TEXT - 3);
  }

  lemma ClampedIsPrefix(raw: Raw)
    requires raw.value.Str? ==> Valid(raw.value.text)
    ensures SameScalar(ClampedScalar(raw), raw)
  {
    if raw.value.Str? && |raw.value.text| > MAX_RESULT_TEXT {
      LongTextKeepsPrefix(raw.value.text);
      SanitizedIff(Truncated(raw.value.text, MAX_RESULT_TEXT));
    }
  }

  /** Tiers 2 and 3 lose no summary: every scalar but the warning, and every identity field of the snapshot,
      reads the same afterwards. */
  lemma SummaryKept(fields: Fields, limit: Limit, tier: nat, k: Text)
    requires 2 <= tier <= 3 && k in fields && k != WARNING && !IsContainer(fields[k])
    requires fields[k].value.Str? ==> Valid(fields[k].value.text)
    ensures k in TierBody(fields, limit, tier)
    ensures SameScalar(TierBody(fields, limit, tier)[k], fields[k])
  {
    KeysDiffer();
    ClampedIsPrefix(fields[k]);
    var f2 := Tier2(fields, limit);
    if k == SNAPSHOT {
      Tier2KeepsSnapshot(fields, limit);
      Tier3IsKept(f2, limit, k);
    } else {
      Tier2Keeps(fields, limit, k);
      Tier3Keeps(f2, limit, k);
    }
  }

  lemma SnapshotIdentityKept(fields: Fields, limit: Limit, tier: nat, k: Text)
    requires 2 <= tier <= 3 && HasSnapshot(fields) && k in IDENTITY_KEYS
    ensures HasSnapshot(TierBody(fields, limit, tier))
    ensures SameAt(SnapshotOf(TierBody(fields, limit, tier)), SnapshotOf(fields), k)
  {
    var f2 := Tier2(fields, limit);
    KeysDiffer();
    assert k != FILES;
    Tier2KeepsSnapshot(fields, limit);
    assert SameAt(SnapshotOf(f2), SnapshotOf(fields), k);
    if tier == 3 {
      Tier3KeepsIdentity(f2, limit, k);
    }
  }

  lemma RecoveredKeeps(fields: Fields, k: Text, t: Text)
    requires k in RECOVERED_KEYS && k in fields && fields[k].value == Str(t)
    requires Valid(t) && |t| <= MAX_LAST_RESORT
    ensures k in Recovered(fields) && Recovered(fields)[k].value == Str(t)
  {
    SanitizedIff(t);
  }

  lemma LastResortKeeps(fields: Fields, limit: Limit, k: Text)
    requires k in Recovered(fields) && k != SNAPSHOT_ID
    ensures k in LastResort(fields, limit) && LastResort(fields, limit)[k] == Recovered(fields)[k]
  {
    KeysDiffer();
  }

  lemma RecoveredReads(fields: Fields, limit: Limit, k: Text, t: Text)
    requires k in RECOVERED_KEYS && k != SNAPSHOT_ID && k in fields && fields[k].value == Str(t)
    requires Valid(t) && |t| <= MAX_LAST_RESORT
    ensures k in LastResort(fields, limit) && LastResort(fields, limit)[k].value == Str(t)
  {
    RecoveredKeeps(fields, k, t);
    LastResortKeeps(fields, limit, k);
  }

  lemma RecoveredKeysAreScalar()
    ensures WARNING !in RECOVERED_KEYS && SNAPSHOT !in RECOVERED_KEYS && STATUS in RECOVERED_KEYS
    ensures STATUS != SNAPSHOT_ID
  {
    KeysDiffer();
    assert |SNAPSHOT| == 8 && |ID| == 2 && |JOB_ID| == 5 && |STATUS| == 6 && |SNAPSHOT_ID| == 10;
  }

  /** An id, job id or status of ordinary length reaches the server verbatim through every tier: a partial run is never
      reported as anything else, nor for another job. */
  lemma StatusSurvives(fields: Fields, limit: Limit, tier: nat, k: Text, t: Text)
    requires 2 <= tier <= 4 && k in RECOVERED_KEYS && k != SNAPSHOT_ID && k in fields && fields[k].value == Str(t)
    requires Valid(t) && |t| <= MAX_LAST_RESORT
    ensures k in TierBody(fields, limit, tier) && TierBody(fields, limit, tier)[k].value == Str(t)
  {
    RecoveredKeysAreScalar();
    Tier2Keeps(fields, limit, k);
    Tier3Keeps(Tier2(fields, limit), limit, k);
    if tier == 4 {
      RecoveredReads(Tier3(Tier2(fields, limit), limit), limit, k, t);
    }
  }

  lemma SnapshotIdRead(fields: Fields, t: Text)
    requires HasSnapshot(fields) && ID in SnapshotOf(fields) && SnapshotOf(fields)[ID].value == Str(t)
    ensures SnapshotIdOf(fields) == t
  {
  }

  lemma LastResortReportsId(fields: Fields, limit: Limit, t: Text)
    requires SnapshotIdOf(fields) == t && t != [] && Valid(t) && |t| <= MAX_LAST_RESORT
    ensures var f := LastResort(fields, limit);
            SNAPSHOT_ID in f && f[SNAPSHOT_ID].value == Str(t)
  {
    KeysDiffer();
    SanitizedIff(t);
  }

  /** A restore point stays identifiable: tier 4 reports the id of the snapshot object as snapshotId. */
  lemma SnapshotIdSurvives(fields: Fields, limit: Limit, t: Text)
    requires HasSnapshot(fields) && ID in SnapshotOf(fields) && SnapshotOf(fields)[ID].value == Str(t)
    requires t != [] && Valid(t) && |t| <= MAX_LAST_RESORT
    ensures var f := TierBody(fields, limit, 4);
            SNAPSHOT_ID in f && f[SNAPSHOT_ID].value == Str(t)
  {
    var f3 := TierBody(fields, limit, 3);
    SnapshotIdentityKept(fields, limit, 3, ID);
    SnapshotIdRead(f3, t);
    LastResortReportsId(f3, limit, t);
  }

  /** The success flag is never raised, and lowered only for a body that is no object and cannot be sent. */
  lemma SuccessKept(r: CommandResult)
    ensures Sent(r).success == (r.success && (r.stdout.body.Some? || Fits(Candidate1(r))))
    ensures Sent(r).durationMs == r.durationMs
    ensures Sent(r).commandId == r.commandId || Sent(r).commandId == Truncated(r.commandId, MAX_LAST_RESORT)
  {
    if !Fits(Candidate1(r)) {
      if r.stdout.body.None? {
      } else if Fits(Candidate2(r)) {
      } else if Fits(Candidate3(r)) {
      }
    }
  }
}
