/**
 The tiered bounding of a terminal backup result. `Fit` is the specification: four candidate results, of which
 the first that is within every delivery limit is sent. Module ResultFitting performs it on maps that are edited
 in place.
 */
module ResultBounds {
  import opened Options
  import opened Bytes
  import opened Utf8
  import opened TextTruncation
  import opened ResultWarning
  import opened Json

  const MAX_MESSAGE := 16 * 1024 * 1024
  const PAYLOAD_BUDGET := MAX_MESSAGE - 64 * 1024
  const SERVER_BUDGET := 5_000_000 - 64 * 1024
  const MAX_LAST_RESORT := 1024
  const BULK_THRESHOLD := 4 * 1024

  newtype Int64 = x: int | -0x8000_0000_0000_0000 <= x < 0x8000_0000_0000_0000

  type Fields = map<Text, Raw>

  /** The text of stdout and what decodeStdoutObject reads in it: its fields, if it is a JSON object. */
  datatype Stdout = Stdout(text: Text, body: Option<Fields>)

  datatype CommandResult = CommandResult(
    commandId: Text, success: bool, stdout: Stdout, stderr: Text, durationMs: Int64)

  ghost function Document(fields: Fields): Stdout { Stdout(EncodedObject(fields), Some(fields)) }

  // ---------------------------------------------------------------- delivery limits

  datatype Limit = NoLimit | ServerResult | IpcFrame | ResultText

  function Budget(l: Limit): nat {
    match l
    case NoLimit => 0
    case ServerResult => SERVER_BUDGET
    case IpcFrame => PAYLOAD_BUDGET
    case ResultText => MAX_RESULT_TEXT
  }

  function LimitLabel(l: Limit): string {
    match l
    case NoLimit => " byte "
    case ServerResult => " byte server result budget"
    case IpcFrame => " byte agent IPC budget"
    case ResultText => " byte free-text field cap"
  }

  function Description(l: Limit): Text { Printed(Budget(l)) + Ascii(LimitLabel(l)) }

  /** json.Marshal of the result. */
  function Marshalled(r: CommandResult): Text {
    Ascii("{\"commandId\":") + Quoted(r.commandId)
    + Ascii(",\"success\":") + Ascii(if r.success then "true" else "false")
    + Ascii(",\"stdout\":") + Quoted(r.stdout.text)
    + Ascii(",\"stderr\":") + Quoted(r.stderr)
    + Ascii(",\"durationMs\":") + Printed(r.durationMs as int) + Ascii("}")
  }

  function ExceededLimit(r: CommandResult): Limit {
    if |r.stdout.text| > SERVER_BUDGET then ServerResult
    else if |r.stdout.text| + |r.stderr| + |r.commandId| > PAYLOAD_BUDGET then IpcFrame
    else if |Marshalled(r)| > PAYLOAD_BUDGET then IpcFrame
    else NoLimit
  }

  predicate Fits(r: CommandResult) { ExceededLimit(r).NoLimit? }

  lemma MarshalledLength(r: CommandResult)
    ensures |r.stdout.text| + |r.stderr| + |r.commandId| <= |Marshalled(r)|
    ensures |Marshalled(r)| <= 6 * (|r.stdout.text| + |r.stderr| + |r.commandId|) + 90
  {
    EscapedLength(r.commandId);
    EscapedLength(r.stdout.text);
    EscapedLength(r.stderr);
    PrintedLength(r.durationMs as int);
  }

  /** The raw-length test before marshalling rejects nothing that the marshalled test would pass. */
  lemma CheapTestIsSound(r: CommandResult)
    ensures Fits(r) <==> |r.stdout.text| <= SERVER_BUDGET && |Marshalled(r)| <= PAYLOAD_BUDGET
  {
    MarshalledLength(r);
  }

  // ---------------------------------------------------------------- the fields of a result body

  const WARNING: Text := Ascii("warning")
  const SNAPSHOT: Text := Ascii("snapshot")
  const FILES: Text := Ascii("files")
  const ID: Text := Ascii("id")
  const JOB_ID: Text := Ascii("jobId")
  const STATUS: Text := Ascii("status")
  const SNAPSHOT_ID: Text := Ascii("snapshotId")

  /** The snapshot fields kept when the per-file index is dropped. */
  const IDENTITY_KEYS: set<Text> :=
    {ID, Ascii("timestamp"), Ascii("size"), Ascii("formatVersion"), Ascii("baseSnapshotId")}

  const RECOVERED_KEYS: set<Text> := {ID, JOB_ID, STATUS, SNAPSHOT_ID}

  /** json.Unmarshal into a Go string; null leaves it empty. */
  function StringOf(raw: Raw): Option<Text> {
    match raw.value
    case Str(t) => Some(t)
    case Null => Some([])
    case _ => None
  }

  /** The warning text; a warning that is not a string is carried in its encoded form. */
  function WarningOf(fields: Fields): Text {
    if WARNING !in fields then []
    else match StringOf(fields[WARNING])
      case Some(t) => t
      case None => fields[WARNING].bytes
  }

  function WithWarning(fields: Fields, warning: Text): Fields { fields[WARNING := RawString(warning)] }

  function Noted(fields: Fields, note: Text): Fields { WithWarning(fields, Append(WarningOf(fields), note)) }

  predicate HasSnapshot(fields: Fields) { SNAPSHOT in fields && fields[SNAPSHOT].value.Obj? }

  function SnapshotOf(fields: Fields): Fields
    requires HasSnapshot(fields)
  {
    fields[SNAPSHOT].value.fields
  }

  ghost function WithSnapshot(fields: Fields, snapshot: Fields): Fields {
    fields[SNAPSHOT := Raw(EncodedObject(snapshot), Obj(snapshot))]
  }

  // ---------------------------------------------------------------- notes

  const SNAPSHOT_HEAD: Text := Ascii("snapshot file index omitted (")
  const SNAPSHOT_ENTRIES: Text := Ascii(" entries)")
  const SNAPSHOT_TAIL: Text :=
    Ascii(", so per-file restore browsing") + Ascii(" is unavailable for this snapshot")
  const DETAIL_HEAD: Text := Ascii("detail field(s) omitted (")
  const BACKUP_HEAD: Text := Ascii("backup result exceeded the ")
  const BACKUP_TAIL: Text :=
    Ascii(" and was reduced to a terminal") + Ascii(" status; detail was dropped")
  const EXCEEDED: Text := Ascii(": the result exceeded the ")

  function SnapshotNote(count: nat, limit: Limit): Text {
    SNAPSHOT_HEAD + (Printed(count) + SNAPSHOT_ENTRIES) + EXCEEDED + (Description(limit) + SNAPSHOT_TAIL)
  }

  function OmittedNote(keys: seq<Text>, limit: Limit): Text {
    DETAIL_HEAD + (Join(keys, Ascii(", ")) + Ascii(")")) + EXCEEDED + Description(limit)
  }

  function LastResortNote(limit: Limit): Text { BACKUP_HEAD + (Description(limit) + BACKUP_TAIL) }

  // ---------------------------------------------------------------- tier 2

  predicate WarningChanges(fields: Fields) {
    WARNING in fields && Compose(WarningOf(fields), []) != WarningOf(fields)
  }

  /** boundObjectWarning */
  function BoundWarning(fields: Fields): Fields {
    if WarningChanges(fields) then WithWarning(fields, Compose(WarningOf(fields), [])) else fields
  }

  function WarningBytesDropped(fields: Fields): nat {
    if WarningChanges(fields) then Dropped(WarningOf(fields), MAX_WARNING_TEXT) else 0
  }

  /** The entries of an array-valued snapshot.files. */
  function FileCount(fields: Fields): nat {
    if HasSnapshot(fields) && FILES in SnapshotOf(fields) && SnapshotOf(fields)[FILES].value.Arr?
    then |SnapshotOf(fields)[FILES].value.items| else 0
  }

  /** emptySnapshotFiles */
  ghost function EmptyIndex(fields: Fields, limit: Limit): Fields {
    if FileCount(fields) == 0 then fields
    else
      Noted(WithSnapshot(fields, SnapshotOf(fields)[FILES := EMPTY_ARRAY]), SnapshotNote(FileCount(fields), limit))
  }

  predicate IsBulk(fields: Fields, k: Text) {
    k in fields && k != SNAPSHOT && |fields[k].bytes| > BULK_THRESHOLD && IsContainer(fields[k])
  }

  function BulkKeys(fields: Fields): set<Text> { set k | k in fields && IsBulk(fields, k) }

  /** dropBulkFields */
  ghost function DropBulk(fields: Fields, limit: Limit): Fields {
    if BulkKeys(fields) == {} then fields
    else Noted(fields - BulkKeys(fields), OmittedNote(Sorted(BulkKeys(fields)), limit))
  }

  ghost function Indexless(fields: Fields, limit: Limit): Fields { EmptyIndex(BoundWarning(fields), limit) }

  ghost function Tier2(fields: Fields, limit: Limit): Fields { DropBulk(Indexless(fields, limit), limit) }

  // ---------------------------------------------------------------- tier 3

  function ContainerKeys(fields: Fields): set<Text> { set k | k in fields && IsContainer(fields[k]) }

  function Identity(snapshot: Fields): Fields {
    (map k | k in snapshot && k in IDENTITY_KEYS :: snapshot[k])[FILES := EMPTY_ARRAY]
  }

  function ClampedScalar(raw: Raw): Raw {
    if raw.value.Str? && |raw.value.text| > MAX_RESULT_TEXT then RawString(Truncated(raw.value.text, MAX_RESULT_TEXT))
    else raw
  }

  function ScalarFields(fields: Fields): Fields {
    map k | k in fields && !IsContainer(fields[k]) :: ClampedScalar(fields[k])
  }

  ghost function Kept(fields: Fields): Fields {
    if HasSnapshot(fields) then WithSnapshot(ScalarFields(fields), Identity(SnapshotOf(fields)))
    else ScalarFields(fields)
  }

  /** reduceToScalars */
  ghost function Tier3(fields: Fields, limit: Limit): Fields {
    if ContainerKeys(fields) == {} then Kept(fields)
    else Noted(Kept(fields), OmittedNote(Sorted(ContainerKeys(fields)), limit))
  }

  // ---------------------------------------------------------------- tier 4

  function Recovered(fields: Fields): Fields {
    map k | k in fields && k in RECOVERED_KEYS && StringOf(fields[k]).Some?
      :: RawString(Truncated(StringOf(fields[k]).value, MAX_LAST_RESORT))
  }

  /** The id of the snapshot object, when it is a non-empty string. */
  function SnapshotIdOf(fields: Fields): Text {
    if HasSnapshot(fields) && ID in SnapshotOf(fields) && StringOf(SnapshotOf(fields)[ID]).Some?
    then StringOf(SnapshotOf(fields)[ID]).value else []
  }

  /** lastResortStdout */
  function LastResort(fields: Fields, limit: Limit): Fields {
    var minimal := Recovered(fields);
    var withId :=
      if SnapshotIdOf(fields) == [] then minimal
      else minimal[SNAPSHOT_ID := RawString(Truncated(SnapshotIdOf(fields), MAX_LAST_RESORT))];
    WithWarning(withId, Append(WarningOf(fields), LastResortNote(limit)))
  }

  // ---------------------------------------------------------------- the tiers in order

  /** What is sent, what the log line reports, and the limit it names. */
  datatype Fitted = Fitted(result: CommandResult, notes: Text, limit: Limit)

  function Finished(r: CommandResult, notes: seq<Text>, limit: Limit): Fitted {
    var text := Join(notes, SEPARATOR);
    Fitted(r, text, if text != [] && limit.NoLimit? then ResultText else limit)
  }

  function OversizeText(size: nat, limit: Limit): Text {
    Ascii("backup helper result exceeded the ") + Description(limit) + Ascii(" (") + Printed(size)
    + Ascii(" bytes) and could not be summarised; the command may have succeeded but its output could not be delivered")
  }

  function OversizeFailure(r: CommandResult, limit: Limit): CommandResult {
    r.(stdout := Stdout([], None), success := false,
       stderr := OversizeText(|r.stdout.text| + |r.stderr|, limit),
       commandId := Truncated(r.commandId, MAX_LAST_RESORT))
  }

  function Candidate1(r: CommandResult): CommandResult {
    r.(stderr := Truncated(r.stderr, MAX_RESULT_TEXT))
  }

  ghost function Candidate2(r: CommandResult): CommandResult
    requires r.stdout.body.Some?
  {
    Candidate1(r).(stdout := Document(Tier2(r.stdout.body.value, ExceededLimit(r))))
  }

  ghost function Candidate3(r: CommandResult): CommandResult
    requires r.stdout.body.Some?
  {
    var limit := ExceededLimit(r);
    Candidate1(r).(stdout := Document(Tier3(Tier2(r.stdout.body.value, limit), limit)))
  }

  ghost function Candidate4(r: CommandResult): CommandResult
    requires r.stdout.body.Some?
  {
    var limit := ExceededLimit(r);
    var c := Candidate3(r);
    c.(stdout := Document(LastResort(c.stdout.body.value, limit)),
       stderr := Truncated(c.stderr, MAX_LAST_RESORT), commandId := Truncated(c.commandId, MAX_LAST_RESORT))
  }

  function StderrNotes(r: CommandResult): seq<Text> {
    var dropped := Dropped(r.stderr, MAX_RESULT_TEXT);
    if dropped == 0 then [] else [Ascii("stderr truncated (") + Printed(dropped) + Ascii(" bytes dropped)")]
  }

  function BulkNotes(keys: seq<Text>): seq<Text> {
    seq(|keys|, i requires 0 <= i < |keys| => keys[i] + Ascii(" dropped (bulk field)"))
  }

  function WarningNotes(dropped: nat): seq<Text> {
    if dropped == 0 then [] else [Ascii("warning truncated (") + Printed(dropped) + Ascii(" bytes dropped)")]
  }

  function FileNotes(count: nat): seq<Text> {
    if count == 0 then [] else [Ascii("snapshot file index dropped (") + Printed(count) + Ascii(" entries)")]
  }

  ghost function Tier2Notes(fields: Fields, limit: Limit): seq<Text> {
    WarningNotes(WarningBytesDropped(fields)) + FileNotes(FileCount(BoundWarning(fields)))
    + BulkNotes(Sorted(BulkKeys(Indexless(fields, limit))))
  }

  const UNSUMMARISED: Text :=
    Ascii("result body could not be summarised and was replaced with an oversize failure")
  const SCALARS_ONLY: Text := Ascii("result reduced to summary scalars only")
  const MINIMAL: Text := Ascii("result replaced with a minimal terminal status")

  /** The tier that produces the result: 0 is the oversize failure of a body that is not an object. */
  ghost function TierOf(r: CommandResult): nat {
    if Fits(Candidate1(r)) then 1
    else if r.stdout.body.None? then 0
    else if Fits(Candidate2(r)) then 2
    else if Fits(Candidate3(r)) then 3
    else 4
  }

  /** The first candidate that is within every limit. */
  ghost function Sent(r: CommandResult): CommandResult {
    if Fits(Candidate1(r)) then Candidate1(r)
    else if r.stdout.body.None? then OversizeFailure(Candidate1(r), ExceededLimit(r))
    else if Fits(Candidate2(r)) then Candidate2(r)
    else if Fits(Candidate3(r)) then Candidate3(r)
    else Candidate4(r)
  }

  ghost function TierNotes(fields: Fields, limit: Limit, tier: nat): seq<Text> {
    if tier == 2 then Tier2Notes(fields, limit)
    else if tier == 3 then Tier2Notes(fields, limit) + [SCALARS_ONLY]
    else Tier2Notes(fields, limit) + [SCALARS_ONLY] + [MINIMAL]
  }

  ghost function LogNotes(r: CommandResult, tier: nat): seq<Text>
    requires tier > 1 ==> r.stdout.body.Some?
  {
    if tier == 0 then StderrNotes(r) + [UNSUMMARISED]
    else if tier == 1 then StderrNotes(r)
    else StderrNotes(r) + TierNotes(r.stdout.body.value, ExceededLimit(r), tier)
  }

  ghost function Fit(r: CommandResult): Fitted { Finished(Sent(r), LogNotes(r, TierOf(r)), ExceededLimit(r)) }

  // ---------------------------------------------------------------- every result ends up deliverable

  lemma SmallFits(r: CommandResult)
    requires |r.stdout.text| <= 250_000 && |r.stderr| <= 2_000 && |r.commandId| <= 2_000
    ensures Fits(r)
  {
    MarshalledLength(r);
  }

  lemma DescriptionLength(limit: Limit)
    ensures |Description(limit)| <= 46
  {
    PrintedLength(Budget(limit));
  }

  lemma QuotedLength(s: Text)
    ensures |Quoted(s)| <= 6 * |s| + 2
  {
    EscapedLength(s);
  }

  const LAST_RESORT_KEYS: set<Text> := RECOVERED_KEYS + {WARNING}

  lemma LastResortKeys()
    ensures |LAST_RESORT_KEYS| <= 5
    ensures forall k :: k in LAST_RESORT_KEYS ==> |k| <= 10
  {
    UnionSize(RECOVERED_KEYS, {WARNING});
  }

  lemma UnionSize(a: set<Text>, b: set<Text>)
    ensures |a + b| <= |a| + |b|
  {
    assert a + b == a + (b - a);
  }

  lemma SubsetSize(a: set<Text>, b: set<Text>)
    requires a <= b
    ensures |a| <= |b|
  {
    assert b == a + (b - a);
  }

  lemma RecoveredLength(t: Text)
    ensures |RawString(Truncated(t, MAX_LAST_RESORT)).bytes| <= 49_154
  {
    TruncatedIsBounded(t, MAX_LAST_RESORT);
    QuotedLength(Truncated(t, MAX_LAST_RESORT));
  }

  lemma AppendedLength(warning: Text, note: Text)
    ensures |Append(warning, note)| <= MAX_RESULT_TEXT
    ensures |RawString(Append(warning, note)).bytes| <= 49_154
  {
    var (text, notes) := Split(warning);
    ComposedFits(text, Extended(notes, note));
    QuotedLength(Append(warning, note));
  }

  lemma LastResortValues(fields: Fields, limit: Limit, k: Text)
    requires k in LastResort(fields, limit)
    ensures k in LAST_RESORT_KEYS
    ensures |LastResort(fields, limit)[k].bytes| <= 49_154
  {
    if k == WARNING {
      AppendedLength(WarningOf(fields), LastResortNote(limit));
    } else if k == SNAPSHOT_ID && SnapshotIdOf(fields) != [] {
      RecoveredLength(SnapshotIdOf(fields));
    } else {
      RecoveredLength(StringOf(fields[k]).value);
    }
  }

  lemma SmallObjectLength(m: Fields, keys: set<Text>)
    requires m.Keys <= keys && |keys| <= 5 && forall k :: k in keys ==> |k| <= 10
    requires forall k :: k in m ==> |m[k].bytes| <= 49_154
    ensures |EncodedObject(m)| <= 250_000
  {
    SubsetSize(m.Keys, keys);
    SmallBounded(m);
    SmallCount(m);
  }

  lemma SmallCount(m: Fields)
    requires |m| <= 5 && Bounded(m, 49_217)
    ensures |EncodedObject(m)| <= 250_000
  {
    EncodedLength(m, 49_217, 5);
    FiveEntries();
  }

  lemma SmallBounded(m: Fields)
    requires forall k :: k in m ==> |k| <= 10 && |m[k].bytes| <= 49_154
    ensures Bounded(m, 49_217)
  {
  }

  lemma FiveEntries()
    ensures Times(49_218, 5) == 246_090
  {
    assert Times(49_218, 2) == 98_436;
    assert Times(49_218, 4) == 196_872;
  }

  lemma LastResortLength(fields: Fields, limit: Limit)
    ensures |EncodedObject(LastResort(fields, limit))| <= 250_000
  {
    var m := LastResort(fields, limit);
    forall k | k in m
      ensures k in LAST_RESORT_KEYS && |m[k].bytes| <= 49_154
    {
      LastResortValues(fields, limit, k);
    }
    LastResortKeys();
    SmallObjectLength(m, LAST_RESORT_KEYS);
  }

  lemma OversizeTextLength(size: nat, limit: Limit)
    ensures |OversizeText(size, limit)| <= 300
  {
    DescriptionLength(limit);
    PrintedLength(size);
  }

  lemma OversizeFits(r: CommandResult, limit: Limit)
    ensures Fits(OversizeFailure(r, limit))
  {
    OversizeTextLength(|r.stdout.text| + |r.stderr|, limit);
    TruncatedIsBounded(r.commandId, MAX_LAST_RESORT);
    SmallFits(OversizeFailure(r, limit));
  }

  lemma LastResortFits(r: CommandResult)
    requires r.stdout.body.Some?
    ensures Fits(Candidate4(r))
  {
    var limit := ExceededLimit(r);
    LastResortLength(Tier3(Tier2(r.stdout.body.value, limit), limit), limit);
    TruncatedIsBounded(Candidate1(r).stderr, MAX_LAST_RESORT);
    TruncatedIsBounded(r.commandId, MAX_LAST_RESORT);
    SmallFits(Candidate4(r));
  }

  /** For every result whatever, what is sent is within the server's budget for stdout and, marshalled, within
      the IPC budget: a terminal status always lands. */
  lemma AlwaysFits(r: CommandResult)
    ensures Fits(Sent(r))
  {
    if !Fits(Candidate1(r)) {
      if r.stdout.body.None? {
        OversizeFits(Candidate1(r), ExceededLimit(r));
      } else if !Fits(Candidate2(r)) && !Fits(Candidate3(r)) {
        LastResortFits(r);
      }
    }
  }
}
