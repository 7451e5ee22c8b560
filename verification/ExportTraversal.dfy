/**
 The partner export traversal: one resource is read page by page behind an opaque cursor, with bounded retries per
 page. The server is any function of the request's number and cursor, so nothing is assumed of it unless said.
 */
module ExportTraversal {
  import opened Options

  /** An element of a page; anything that is not an object counts as Junk. */
  datatype Record = Junk | Record(id: Option<string>, orgId: Option<string>, reason: bool, resource: Option<string>)

  datatype Cursor = Null | Text(text: string) | Other

  datatype Blocked = Undefined | List(records: seq<Record>) | Malformed

  /** A JSON body: None where a field does not have the type the envelope asks for. */
  datatype Envelope = Envelope(
    schemaVersion: Option<string>, snapshotAt: Option<string>, isDate: bool, data: Option<seq<Record>>,
    hasMore: Option<bool>, nextCursor: Cursor, blocked: Blocked)

  /** An HTTP response; the body is None when it is not JSON. */
  datatype Response = Response(status: int, body: Option<Envelope>)

  type Server = (nat, Option<string>) -> Response

  datatype Config = Config(resource: string, limit: nat, maxPages: nat, maxRetries: nat)

  datatype Problem =
    | Late | TooManyPages | HttpFailure | NotJson | BadEnvelope | SnapshotChanged | BadRecord | Duplicate
    | CursorRepeated

  datatype Result<+T> = Ok(value: T) | Err(problem: Problem)

  // ---------------------------------------------------------------- one page

  predicate Retryable(status: int) { status == 429 || status >= 500 }

  datatype Fetched = Fetched(response: Result<Option<Envelope>>, requests: nat)

  function GetPage(c: Config, server: Server, k: nat, cursor: Option<string>, attempt: nat): (f: Fetched)
    requires attempt <= c.maxRetries
    ensures k < f.requests <= k + c.maxRetries - attempt + 1
    decreases c.maxRetries - attempt
  {
    var r := server(k, cursor);
    if r.status == 200 then Fetched(Ok(r.body), k + 1)
    else if !Retryable(r.status) || attempt == c.maxRetries then Fetched(Err(HttpFailure), k + 1)
    else GetPage(c, server, k + 1, cursor, attempt + 1)
  }

  /** The client goes on to the next attempt. */
  predicate TriesAgain(server: Server, n: nat, cursor: Option<string>) {
    server(n, cursor).status == 429 || server(n, cursor).status >= 500
  }

  /** Exactly how a page is fetched: up to maxRetries answers with status 429 or from 500 on are passed over, and the
      next answer decides; only status 200 is a page. Every request carries the same cursor. */
  lemma {:induction false} FetchIff(c: Config, server: Server, k: nat, cursor: Option<string>, attempt: nat)
    requires attempt <= c.maxRetries
    ensures var f := GetPage(c, server, k, cursor, attempt);
            var last := server(f.requests - 1, cursor);
            && (forall n: nat :: k <= n < f.requests - 1 ==> TriesAgain(server, n, cursor))
            && (f.response == if last.status == 200 then Ok(last.body) else Err(HttpFailure))
            && (TriesAgain(server, f.requests - 1, cursor) ==> f.requests == k + c.maxRetries - attempt + 1)
    decreases c.maxRetries - attempt
  {
    var r := server(k, cursor);
    if r.status != 200 && Retryable(r.status) && attempt < c.maxRetries {
      FetchIff(c, server, k + 1, cursor, attempt + 1);
    }
  }

  predicate ValidEnvelope(e: Envelope, limit: nat) {
    && e.schemaVersion == Some("1")
    && e.snapshotAt.Some? && e.isDate
    && e.data.Some? && |e.data.value| <= limit
    && e.hasMore.Some?
    && (e.nextCursor.Null? || (e.nextCursor.Text? && |e.nextCursor.text| > 0))
    && e.hasMore.value == !e.nextCursor.Null?
    && (e.blocked.Undefined? || (e.blocked.List? && |e.blocked.records| <= 500))
  }

  /** The pages that are accepted: those before the last, with a cursor to go on from, and the last. */
  function Middle(at: string, data: seq<Record>, next: string, blocked: Blocked): Envelope {
    Envelope(Some("1"), Some(at), true, Some(data), Some(true), Text(next), blocked)
  }

  function Last(at: string, data: seq<Record>, blocked: Blocked): Envelope {
    Envelope(Some("1"), Some(at), true, Some(data), Some(false), Null, blocked)
  }

  predicate FewBlocked(blocked: Blocked) {
    match blocked
    case Undefined => true
    case List(records) => |records| < 501
    case Malformed => false
  }

  /** An envelope is accepted exactly when it is one of these, with no more records than were asked for and at most 500
      blocked ones. */
  lemma EnvelopeIff(e: Envelope, limit: nat)
    ensures ValidEnvelope(e, limit) <==>
            || (exists at, data, next, blocked ::
                  e == Middle(at, data, next, blocked) && |data| <= limit && next != "" && FewBlocked(blocked))
            || (exists at, data, blocked :: e == Last(at, data, blocked) && |data| <= limit && FewBlocked(blocked))
  {
    if ValidEnvelope(e, limit) {
      if e.nextCursor.Null? {
        assert e == Last(e.snapshotAt.value, e.data.value, e.blocked);
      } else {
        assert e == Middle(e.snapshotAt.value, e.data.value, e.nextCursor.text, e.blocked);
      }
    }
  }

  function Candidates(e: Envelope): seq<Record>
    requires e.data.Some?
  {
    if e.blocked.List? then e.data.value + e.blocked.records else e.data.value
  }

  predicate Identified(resource: string, r: Record) {
    r.Record? && r.id.Some? && r.orgId.Some? && (r.reason ==> r.resource == Some(resource))
  }

  /** A record counts when it has both ids; one with a reason, a blocked one, must also name this resource. */
  lemma IdentifiedIff(resource: string, r: Record)
    ensures Identified(resource, r) <==>
            || (exists id, org, of :: r == Record(Some(id), Some(org), false, of))
            || (exists id, org :: r == Record(Some(id), Some(org), true, Some(resource)))
  {
    if Identified(resource, r) {
      assert r == Record(Some(r.id.value), Some(r.orgId.value), r.reason, r.resource);
    }
  }

  const NUL: string := [0 as char]

  function Key(resource: string, r: Record): string
    requires Identified(resource, r)
  {
    resource + NUL + r.id.value + NUL + r.orgId.value
  }

  /** assertUniqueRecords: the keys seen so far with those of the records, which must be new. */
  function Collect(resource: string, records: seq<Record>, seen: set<string>): Result<set<string>> {
    if records == [] then Ok(seen)
    else if !Identified(resource, records[0]) then Err(BadRecord)
    else if Key(resource, records[0]) in seen then Err(Duplicate)
    else Collect(resource, records[1..], seen + {Key(resource, records[0])})
  }

  // ---------------------------------------------------------------- the walk over the pages

  /** The variables of the loop, and the number of requests sent. */
  datatype Walk = Walk(
    cursor: Option<string>, snapshotAt: Option<string>, pages: nat, records: nat, seen: set<string>,
    cursors: set<string>, requests: nat)

  function Begin(): Walk { Walk(None, None, 0, 0, {}, {}, 0) }

  function NextCursor(e: Envelope): Option<string>
    requires !e.nextCursor.Other?
  {
    if e.nextCursor.Text? then Some(e.nextCursor.text) else None
  }

  /** What the loop body makes of a page that has arrived. */
  function Accept(c: Config, w: Walk, body: Option<Envelope>, requests: nat): Result<Walk> {
    if body == None then Err(NotJson)
    else if !ValidEnvelope(body.value, c.limit) then Err(BadEnvelope)
    else
      var e := body.value;
      if w.snapshotAt.Some? && w.snapshotAt != e.snapshotAt then Err(SnapshotChanged)
      else
        var seen := Collect(c.resource, Candidates(e), w.seen);
        if seen.Err? then Err(seen.problem)
        else if e.nextCursor.Text? && e.nextCursor.text in w.cursors then Err(CursorRepeated)
        else
          Ok(Walk(NextCursor(e), e.snapshotAt, w.pages + 1, w.records + |e.data.value|, seen.value,
                  if e.nextCursor.Text? then w.cursors + {e.nextCursor.text} else w.cursors, requests))
  }

  function Page(c: Config, server: Server, late: nat -> bool, w: Walk): (r: Result<Walk>)
    ensures r.Ok? ==> r.value.pages == w.pages + 1 <= c.maxPages
  {
    if late(w.pages) then Err(Late)
    else if w.pages >= c.maxPages then Err(TooManyPages)
    else
      var f := GetPage(c, server, w.requests, w.cursor, 0);
      if f.response.Err? then Err(f.response.problem) else Accept(c, w, f.response.value, f.requests)
  }

  /** The whole loop from a given point. */
  function Traversal(c: Config, server: Server, late: nat -> bool, w: Walk): Result<Walk>
    decreases c.maxPages - w.pages
  {
    var r := Page(c, server, late, w);
    if r.Err? || r.value.cursor == None then r else Traversal(c, server, late, r.value)
  }

  method FetchPage(c: Config, server: Server, k: nat, cursor: Option<string>) returns (f: Fetched)
    ensures f == GetPage(c, server, k, cursor, 0)
  {
    var attempt := 0;
    while true
      invariant attempt <= c.maxRetries
      invariant GetPage(c, server, k, cursor, 0) == GetPage(c, server, k + attempt, cursor, attempt)
      decreases c.maxRetries - attempt
    {
      var response := server(k + attempt, cursor);
      if response.status == 200 {
        return Fetched(Ok(response.body), k + attempt + 1);
      }
      if !Retryable(response.status) || attempt == c.maxRetries {
        return Fetched(Err(HttpFailure), k + attempt + 1);
      }
      attempt := attempt + 1;
    }
  }

  method AssertUniqueRecords(resource: string, records: seq<Record>, seen: set<string>) returns (r: Result<set<string>>)
    ensures r == Collect(resource, records, seen)
  {
    var keys := seen;
    for i := 0 to |records|
      invariant Collect(resource, records, seen) == Collect(resource, records[i..], keys)
    {
      if !Identified(resource, records[i]) {
        return Err(BadRecord);
      }
      var key := Key(resource, records[i]);
      if key in keys {
        return Err(Duplicate);
      }
      keys := keys + {key};
      assert records[i..][1..] == records[i + 1..];
    }
    r := Ok(keys);
  }

  /** The loop body from the moment a page has arrived. */
  method TakePage(c: Config, w: Walk, body: Option<Envelope>, requests: nat) returns (r: Result<Walk>)
    ensures r == Accept(c, w, body, requests)
  {
    if body == None {
      return Err(NotJson);
    }
    var e := body.value;
    if !ValidEnvelope(e, c.limit) {
      return Err(BadEnvelope);
    }
    var snapshotAt := w.snapshotAt;
    if snapshotAt == None {
      snapshotAt := e.snapshotAt;
    } else if e.snapshotAt != snapshotAt {
      return Err(SnapshotChanged);
    }
    var keys := AssertUniqueRecords(c.resource, Candidates(e), w.seen);
    if keys.Err? {
      return Err(keys.problem);
    }
    if e.nextCursor.Text? && e.nextCursor.text in w.cursors {
      return Err(CursorRepeated);
    }
    var cursor, cursors := NextCursor(e), w.cursors;
    if cursor.Some? {
      cursors := cursors + {cursor.value};
    }
    r := Ok(Walk(cursor, snapshotAt, w.pages + 1, w.records + |e.data.value|, keys.value, cursors, requests));
  }

  method TraverseResource(c: Config, server: Server, late: nat -> bool) returns (r: Result<Walk>)
    ensures r == Traversal(c, server, late, Begin())
  {
    var w := Begin();
    while true
      invariant w.pages <= c.maxPages
      invariant Traversal(c, server, late, Begin()) == Traversal(c, server, late, w)
      decreases c.maxPages - w.pages
    {
      if late(w.pages) {
        return Err(Late);
      }
      if w.pages >= c.maxPages {
        return Err(TooManyPages);
      }
      var f := FetchPage(c, server, w.requests, w.cursor);
      if f.response.Err? {
        return Err(f.response.problem);
      }
      var next := TakePage(c, w, f.response.value, f.requests);
      if next.Err? || next.value.cursor == None {
        return next;
      }
      w := next.value;
    }
  }

  // ---------------------------------------------------------------- what a list of pages must be

  ghost predicate Unique(resource: string, records: seq<Record>) {
    && (forall i :: 0 <= i < |records| ==> Identified(resource, records[i]))
    && forall i, j :: 0 <= i < j < |records| ==> Key(resource, records[i]) != Key(resource, records[j])
  }

  ghost function Keys(resource: string, records: seq<Record>): set<string> {
    set i | 0 <= i < |records| && Identified(resource, records[i]) :: Key(resource, records[i])
  }

  /** The records of the pages, blocked ones included, in order. */
  function All(es: seq<Envelope>): seq<Record>
    requires forall i :: 0 <= i < |es| ==> es[i].data.Some?
  {
    if es == [] then [] else All(es[..|es| - 1]) + Candidates(es[|es| - 1])
  }

  function DataCount(es: seq<Envelope>): nat
    requires forall i :: 0 <= i < |es| ==> es[i].data.Some?
  {
    if es == [] then 0 else DataCount(es[..|es| - 1]) + |es[|es| - 1].data.value|
  }

  /** Pages of one snapshot, without a repeated record or a repeated cursor. */
  ghost predicate Consistent(c: Config, es: seq<Envelope>) {
    && (forall i :: 0 <= i < |es| ==> ValidEnvelope(es[i], c.limit))
    && (forall i :: 0 <= i < |es| ==> es[i].snapshotAt == es[0].snapshotAt)
    && (forall i, j :: 0 <= i < j < |es| && es[i].nextCursor.Text? ==> es[i].nextCursor != es[j].nextCursor)
    && Unique(c.resource, All(es))
  }

  /** A complete listing: consistent, and the last page is the first without a further cursor. */
  ghost predicate IsListing(c: Config, es: seq<Envelope>) {
    && es != [] && Consistent(c, es)
    && forall i :: 0 <= i < |es| ==> (es[i].nextCursor.Null? <==> i == |es| - 1)
  }

  ghost function CursorSet(es: seq<Envelope>): set<string> {
    set i | 0 <= i < |es| && es[i].nextCursor.Text? :: es[i].nextCursor.text
  }

  function CursorAfter(es: seq<Envelope>): Option<string>
    requires forall i :: 0 <= i < |es| ==> !es[i].nextCursor.Other?
  {
    if es == [] then None else NextCursor(es[|es| - 1])
  }

  /** The loop's variables after it has accepted these pages. */
  ghost predicate Tracks(c: Config, w: Walk, past: seq<Envelope>) {
    && Consistent(c, past)
    && w.pages == |past| && w.records == DataCount(past)
    && w.seen == Keys(c.resource, All(past)) && w.cursors == CursorSet(past)
    && w.snapshotAt == (if past == [] then None else past[0].snapshotAt)
    && w.cursor == CursorAfter(past)
    && w.requests <= Budget(c, |past|)
  }

  function Budget(c: Config, pages: nat): nat { pages * (c.maxRetries + 1) }

  lemma BudgetGrows(c: Config, pages: nat)
    ensures Budget(c, pages + 1) == Budget(c, pages) + c.maxRetries + 1
  {
  }

  lemma UniquePrefix(resource: string, a: seq<Record>, b: seq<Record>)
    ensures Unique(resource, a + b) <==>
            && Unique(resource, a) && Unique(resource, b)
            && forall i :: 0 <= i < |b| ==> Key(resource, b[i]) !in Keys(resource, a)
  {
    var ab := a + b;
    if Unique(resource, ab) {
      assert forall i :: 0 <= i < |a| ==> a[i] == ab[i];
      assert forall i :: 0 <= i < |b| ==> b[i] == ab[|a| + i];
    }
  }

  lemma KeysConcat(resource: string, a: seq<Record>, b: seq<Record>)
    ensures Keys(resource, a + b) == Keys(resource, a) + Keys(resource, b)
  {
    var ab := a + b;
    assert forall i :: 0 <= i < |a| ==> a[i] == ab[i];
    assert forall i :: 0 <= i < |b| ==> b[i] == ab[|a| + i];
  }

  /** assertUniqueRecords accepts exactly new, distinct, identified records, and remembers exactly their keys. */
  lemma {:induction false} CollectIff(resource: string, records: seq<Record>, seen: set<string>)
    ensures Collect(resource, records, seen).Ok? <==>
            && Unique(resource, records)
            && forall i :: 0 <= i < |records| ==> Key(resource, records[i]) !in seen
    ensures Collect(resource, records, seen).Ok? ==>
              Collect(resource, records, seen).value == seen + Keys(resource, records)
    decreases |records|
  {
    if records != [] {
      var first, rest := records[..1], records[1..];
      assert records == first + rest;
      if Identified(resource, records[0]) {
        CollectIff(resource, rest, seen + {Key(resource, records[0])});
        UniquePrefix(resource, first, rest);
        KeysConcat(resource, first, rest);
      }
    }
  }

  // ---------------------------------------------------------------- soundness

  ghost predicate AllData(es: seq<Envelope>) { forall i :: 0 <= i < |es| ==> es[i].data.Some? }

  lemma OneMore(past: seq<Envelope>, e: Envelope)
    requires AllData(past) && e.data.Some?
    ensures AllData(past + [e]) && All(past + [e]) == All(past) + Candidates(e)
    ensures DataCount(past + [e]) == DataCount(past) + |e.data.value|
  {
    assert (past + [e])[..|past|] == past;
  }

  /** The records of a page list are the data and the blocked records of its pages, and no others. */
  lemma {:induction false} AllIff(es: seq<Envelope>, r: Record)
    requires AllData(es)
    ensures r in All(es) <==>
            exists i :: 0 <= i < |es| && (r in es[i].data.value || (es[i].blocked.List? && r in es[i].blocked.records))
  {
    if es != [] {
      var past, e := es[..|es| - 1], es[|es| - 1];
      AllIff(past, r);
      assert r in All(es) <==> r in All(past) || r in Candidates(e);
      assert r in Candidates(e) <==> r in e.data.value || (e.blocked.List? && r in e.blocked.records);
      assert forall i :: 0 <= i < |past| ==> past[i] == es[i];
    }
  }

  lemma OneMoreCursor(past: seq<Envelope>, e: Envelope)
    ensures CursorSet(past + [e]) ==
            if e.nextCursor.Text? then CursorSet(past) + {e.nextCursor.text} else CursorSet(past)
  {
    var es := past + [e];
    assert forall i :: 0 <= i < |past| ==> es[i] == past[i];
    assert es[|past|] == e;
  }

  /** The page may follow these. */
  ghost predicate Continues(c: Config, past: seq<Envelope>, e: Envelope) {
    && AllData(past)
    && ValidEnvelope(e, c.limit)
    && (past == [] || e.snapshotAt == past[0].snapshotAt)
    && Unique(c.resource, All(past) + Candidates(e))
    && !(e.nextCursor.Text? && e.nextCursor.text in CursorSet(past))
  }

  lemma ContinuesIff(c: Config, past: seq<Envelope>, e: Envelope)
    requires Consistent(c, past)
    ensures Consistent(c, past + [e]) <==> Continues(c, past, e)
  {
    var es := past + [e];
    assert forall i :: 0 <= i < |past| ==> es[i] == past[i];
    assert es[|past|] == e;
    if e.data.Some? {
      OneMore(past, e);
    }
    if Consistent(c, es) && e.nextCursor.Text? {
      assert forall i :: 0 <= i < |past| && es[i].nextCursor.Text? ==> es[i].nextCursor != e.nextCursor;
    }
  }

  /** The loop body accepts a page exactly when it continues the pages so far. */
  lemma AcceptIff(c: Config, w: Walk, past: seq<Envelope>, e: Envelope, requests: nat)
    requires Tracks(c, w, past)
    ensures Accept(c, w, Some(e), requests).Ok? <==> Continues(c, past, e)
  {
    if ValidEnvelope(e, c.limit) {
      CollectIff(c.resource, Candidates(e), w.seen);
      UniquePrefix(c.resource, All(past), Candidates(e));
    }
  }

  /** Why a page is refused, in terms of the pages before it: it is not JSON; its envelope is not one of version 1; it
      is of another snapshot; a record has no identity or repeats one of this page or of an earlier one, whichever
      comes first; or its cursor leads back. */
  lemma RefusalIs(c: Config, w: Walk, past: seq<Envelope>, body: Option<Envelope>, requests: nat)
    requires Tracks(c, w, past) && Accept(c, w, body, requests).Err?
    ensures var problem := Accept(c, w, body, requests).problem;
            if body == None then problem == NotJson
            else if !ValidEnvelope(body.value, c.limit) then problem == BadEnvelope
            else if past != [] && body.value.snapshotAt != past[0].snapshotAt then problem == SnapshotChanged
            else if exists r :: r in Candidates(body.value) && !Identified(c.resource, r) then
              problem == BadRecord || problem == Duplicate
            else if !Unique(c.resource, All(past) + Candidates(body.value)) then problem == Duplicate
            else problem == CursorRepeated
  {
    if body.Some? && ValidEnvelope(body.value, c.limit) {
      var records := Candidates(body.value);
      CollectIff(c.resource, records, w.seen);
      UniquePrefix(c.resource, All(past), records);
      if Collect(c.resource, records, w.seen).Err? {
        var i := RefusedRecord(c.resource, records, w.seen);
        assert records[i] in records;
      }
    }
  }

  /** The first record that is refused: a duplicate has its ids, and their key came before; any other has none. */
  lemma {:induction false} RefusedRecord(resource: string, records: seq<Record>, seen: set<string>) returns (i: nat)
    requires Collect(resource, records, seen).Err?
    ensures i < |records| && Collect(resource, records[..i], seen).Ok?
    ensures Collect(resource, records, seen) == Err(if Identified(resource, records[i]) then Duplicate else BadRecord)
    ensures Identified(resource, records[i]) ==> Key(resource, records[i]) in seen + Keys(resource, records[..i])
    decreases |records|
  {
    if !Identified(resource, records[0]) || Key(resource, records[0]) in seen {
      i := 0;
    } else {
      var first := records[..1];
      var k := RefusedRecord(resource, records[1..], seen + {Key(resource, records[0])});
      i := k + 1;
      assert records[..i][1..] == records[1..][..k] && records[..i] == first + records[1..][..k];
      KeysConcat(resource, first, records[1..][..k]);
    }
  }

  lemma AcceptTracks(c: Config, w: Walk, past: seq<Envelope>, e: Envelope, requests: nat)
    requires Tracks(c, w, past) && Accept(c, w, Some(e), requests).Ok?
    requires requests <= w.requests + c.maxRetries + 1
    ensures Tracks(c, Accept(c, w, Some(e), requests).value, past + [e])
  {
    AcceptIff(c, w, past, e, requests);
    ContinuesIff(c, past, e);
    OneMore(past, e);
    OneMoreCursor(past, e);
    CollectIff(c.resource, Candidates(e), w.seen);
    KeysConcat(c.resource, All(past), Candidates(e));
    BudgetGrows(c, |past|);
  }

  /** The body of the page that a successful turn of the loop has read. */
  function PageRead(c: Config, server: Server, late: nat -> bool, w: Walk): Envelope
    requires Page(c, server, late, w).Ok?
  {
    GetPage(c, server, w.requests, w.cursor, 0).response.value.value
  }

  lemma PageTracks(c: Config, server: Server, late: nat -> bool, w: Walk, past: seq<Envelope>)
    requires Tracks(c, w, past) && Page(c, server, late, w).Ok?
    ensures Tracks(c, Page(c, server, late, w).value, past + [PageRead(c, server, late, w)])
  {
    var f := GetPage(c, server, w.requests, w.cursor, 0);
    AcceptTracks(c, w, past, f.response.value.value, f.requests);
  }

  /** All the pages read up to the end of the loop. */
  function PagesRead(c: Config, server: Server, late: nat -> bool, w: Walk): seq<Envelope>
    decreases c.maxPages - w.pages
  {
    var r := Page(c, server, late, w);
    if r.Err? then []
    else if r.value.cursor == None then [PageRead(c, server, late, w)]
    else [PageRead(c, server, late, w)] + PagesRead(c, server, late, r.value)
  }

  ghost predicate AllHaveNext(es: seq<Envelope>) { forall i :: 0 <= i < |es| ==> es[i].nextCursor.Text? }

  lemma ListingEnds(c: Config, past: seq<Envelope>, e: Envelope)
    requires AllHaveNext(past) && Consistent(c, past + [e]) && e.nextCursor.Null?
    ensures IsListing(c, past + [e])
  {
    var es := past + [e];
    assert forall i :: 0 <= i < |past| ==> es[i] == past[i];
  }

  lemma Regroup(past: seq<Envelope>, e: Envelope, rest: seq<Envelope>)
    ensures past + [e] + rest == past + ([e] + rest)
  {
  }

  lemma {:induction false} SoundFrom(c: Config, server: Server, late: nat -> bool, w: Walk, past: seq<Envelope>)
    requires Tracks(c, w, past) && AllHaveNext(past) && Traversal(c, server, late, w).Ok?
    ensures IsListing(c, past + PagesRead(c, server, late, w))
    ensures Tracks(c, Traversal(c, server, late, w).value, past + PagesRead(c, server, late, w))
    decreases c.maxPages - w.pages
  {
    var r, e := Page(c, server, late, w), PageRead(c, server, late, w);
    PageTracks(c, server, late, w, past);
    if r.value.cursor == None {
      ListingEnds(c, past, e);
    } else {
      assert (past + [e])[|past|] == e;
      SoundFrom(c, server, late, r.value, past + [e]);
      Regroup(past, e, PagesRead(c, server, late, r.value));
    }
  }

  lemma {:induction false} PageCountBounded(c: Config, server: Server, late: nat -> bool, w: Walk)
    requires Traversal(c, server, late, w).Ok?
    ensures Traversal(c, server, late, w).value.pages <= c.maxPages
    decreases c.maxPages - w.pages
  {
    var r := Page(c, server, late, w);
    if r.value.cursor.Some? {
      PageCountBounded(c, server, late, r.value);
    }
  }

  lemma {:induction false} NeverLate(c: Config, server: Server, late: nat -> bool, w: Walk)
    requires Traversal(c, server, late, w).Ok?
    ensures forall n: nat :: w.pages <= n < w.pages + |PagesRead(c, server, late, w)| ==> !late(n)
    decreases c.maxPages - w.pages
  {
    var r := Page(c, server, late, w);
    if r.value.cursor.Some? {
      NeverLate(c, server, late, r.value);
    }
  }

  lemma BudgetMonotone(c: Config, a: nat, b: nat)
    requires a <= b
    ensures Budget(c, a) <= Budget(c, b)
    decreases b - a
  {
    if a < b {
      BudgetGrows(c, b - 1);
      BudgetMonotone(c, a, b - 1);
    }
  }

  /** Whatever the server does, a traversal that returns normally has read a complete listing: one snapshot, no
      record key twice, no cursor twice, an end; its counts are that listing's, and it has sent no more requests
      than the page and retry bounds allow. */
  lemma SuccessIsAListing(c: Config, server: Server, late: nat -> bool)
    requires Traversal(c, server, late, Begin()).Ok?
    ensures var w, es := Traversal(c, server, late, Begin()).value, PagesRead(c, server, late, Begin());
            && IsListing(c, es)
            && w.snapshotAt == es[0].snapshotAt
            && w.pages == |es| <= c.maxPages && w.records == DataCount(es)
            && w.seen == Keys(c.resource, All(es))
            && w.requests <= Budget(c, c.maxPages)
            && forall n: nat :: n < |es| ==> !late(n)
  {
    var w, es := Traversal(c, server, late, Begin()).value, PagesRead(c, server, late, Begin());
    assert Tracks(c, Begin(), []);
    SoundFrom(c, server, late, Begin(), []);
    assert [] + es == es;
    PageCountBounded(c, server, late, Begin());
    NeverLate(c, server, late, Begin());
    BudgetMonotone(c, w.pages, c.maxPages);
  }

  // ---------------------------------------------------------------- completeness

  /** The request for page i, counted from 0. */
  function RequestFor(es: seq<Envelope>, i: nat): Option<string>
    requires i <= |es| && forall k :: 0 <= k < |es| ==> !es[k].nextCursor.Other?
  {
    CursorAfter(es[..i])
  }

  predicate Delivers(server: Server, n: nat, cursor: Option<string>, e: Envelope) {
    server(n, cursor) == Response(200, Some(e))
  }

  ghost predicate Soon(c: Config, server: Server, k: nat, cursor: Option<string>, e: Envelope) {
    exists n: nat :: k <= n <= k + c.maxRetries && Delivers(server, n, cursor, e)
  }

  /** Every request with this cursor either fails with status 429 or from 500 on or returns this page, and the
      failures in a row are never more than the client retries. */
  ghost predicate ServesAt(c: Config, server: Server, cursor: Option<string>, e: Envelope) {
    && (forall n: nat ::
          Delivers(server, n, cursor, e) || server(n, cursor).status == 429 || server(n, cursor).status >= 500)
    && forall k: nat :: Soon(c, server, k, cursor, e)
  }

  /** A server that pages a fixed listing. */
  ghost predicate Serves(c: Config, server: Server, es: seq<Envelope>) {
    && (forall i :: 0 <= i < |es| ==> !es[i].nextCursor.Other?)
    && forall i :: 0 <= i < |es| ==> ServesAt(c, server, RequestFor(es, i), es[i])
  }

  lemma {:induction false} Persists(
    c: Config, server: Server, k: nat, cursor: Option<string>, attempt: nat, e: Envelope, n: nat)
    requires attempt <= c.maxRetries && k <= n <= k + c.maxRetries - attempt && Delivers(server, n, cursor, e)
    requires forall m: nat ::
               Delivers(server, m, cursor, e) || server(m, cursor).status == 429 || server(m, cursor).status >= 500
    ensures GetPage(c, server, k, cursor, attempt).response == Ok(Some(e))
    decreases n - k
  {
    assert Delivers(server, k, cursor, e) || server(k, cursor).status == 429 || server(k, cursor).status >= 500;
    if server(k, cursor).status != 200 {
      Persists(c, server, k + 1, cursor, attempt + 1, e, n);
    }
  }

  lemma PageArrives(c: Config, server: Server, k: nat, cursor: Option<string>, e: Envelope)
    requires ServesAt(c, server, cursor, e)
    ensures GetPage(c, server, k, cursor, 0).response == Ok(Some(e))
  {
    assert Soon(c, server, k, cursor, e);
    var n: nat :| k <= n <= k + c.maxRetries && Delivers(server, n, cursor, e);
    Persists(c, server, k, cursor, 0, e, n);
  }

  lemma {:induction false} AllPrefix(es: seq<Envelope>, i: nat)
    requires AllData(es) && i <= |es|
    ensures AllData(es[..i]) && All(es[..i]) <= All(es)
    decreases |es| - i
  {
    if i == |es| {
      assert es[..i] == es;
    } else {
      AllPrefix(es, i + 1);
      assert es[..i + 1] == es[..i] + [es[i]];
      OneMore(es[..i], es[i]);
    }
  }

  lemma UniqueStart(resource: string, all: seq<Record>, some: seq<Record>)
    requires Unique(resource, all) && some <= all
    ensures Unique(resource, some)
  {
    assert forall i :: 0 <= i < |some| ==> some[i] == all[i];
  }

  lemma ConsistentPrefix(c: Config, es: seq<Envelope>, i: nat)
    requires Consistent(c, es) && i <= |es|
    ensures Consistent(c, es[..i])
  {
    AllPrefix(es, i);
    UniqueStart(c.resource, All(es), All(es[..i]));
  }

  /** The turn of the loop that asks for page i of the listing gets it and accepts it. */
  lemma PageOfListing(c: Config, server: Server, late: nat -> bool, es: seq<Envelope>, w: Walk, i: nat)
    requires IsListing(c, es) && Serves(c, server, es) && i < |es| <= c.maxPages
    requires Tracks(c, w, es[..i]) && !late(i)
    ensures Page(c, server, late, w).Ok? && PageRead(c, server, late, w) == es[i]
    ensures Page(c, server, late, w).value.cursor == None <==> i == |es| - 1
    ensures Tracks(c, Page(c, server, late, w).value, es[..i + 1])
  {
    var f := GetPage(c, server, w.requests, w.cursor, 0);
    PageArrives(c, server, w.requests, RequestFor(es, i), es[i]);
    ConsistentPrefix(c, es, i + 1);
    assert es[..i + 1] == es[..i] + [es[i]];
    ContinuesIff(c, es[..i], es[i]);
    AcceptIff(c, w, es[..i], es[i], f.requests);
    PageTracks(c, server, late, w, es[..i]);
  }

  /** One turn of the loop, and the rest. */
  lemma TraversalStep(c: Config, server: Server, late: nat -> bool, w: Walk)
    requires Page(c, server, late, w).Ok?
    ensures var r, e := Page(c, server, late, w), PageRead(c, server, late, w);
            if r.value.cursor == None
            then Traversal(c, server, late, w) == r && PagesRead(c, server, late, w) == [e]
            else && Traversal(c, server, late, w) == Traversal(c, server, late, r.value)
                 && PagesRead(c, server, late, w) == [e] + PagesRead(c, server, late, r.value)
  {
  }

  lemma SliceHead(es: seq<Envelope>, i: nat)
    requires i < |es|
    ensures es[i..] == [es[i]] + es[i + 1..]
    ensures i == |es| - 1 ==> es[i..] == [es[i]]
  {
  }

  lemma {:induction false} CompleteFrom(
    c: Config, server: Server, late: nat -> bool, es: seq<Envelope>, w: Walk, i: nat)
    requires IsListing(c, es) && Serves(c, server, es) && i < |es| <= c.maxPages
    requires Tracks(c, w, es[..i]) && forall n: nat :: n < |es| ==> !late(n)
    ensures Traversal(c, server, late, w).Ok? && PagesRead(c, server, late, w) == es[i..]
    decreases |es| - i
  {
    PageOfListing(c, server, late, es, w, i);
    TraversalStep(c, server, late, w);
    SliceHead(es, i);
    if i + 1 < |es| {
      CompleteFrom(c, server, late, es, Page(c, server, late, w).value, i + 1);
    }
  }

  /** Against a server that pages a fixed listing, with enough pages and time, the traversal succeeds and reads
      exactly that listing: every record once, and the record count is the number of its data records. */
  lemma ListingIsReadWhole(c: Config, server: Server, late: nat -> bool, es: seq<Envelope>)
    requires IsListing(c, es) && Serves(c, server, es) && |es| <= c.maxPages
    requires forall n: nat :: n < |es| ==> !late(n)
    ensures Traversal(c, server, late, Begin()).Ok?
    ensures PagesRead(c, server, late, Begin()) == es
    ensures Traversal(c, server, late, Begin()).value.records == DataCount(es)
    ensures Traversal(c, server, late, Begin()).value.seen == Keys(c.resource, All(es))
  {
    assert es[..0] == [] && es[0..] == es;
    assert Tracks(c, Begin(), []);
    CompleteFrom(c, server, late, es, Begin(), 0);
    SuccessIsAListing(c, server, late);
  }

  // ---------------------------------------------------------------- keys

  /** The key of a record without a NUL has its second separator in one place only. */
  lemma OneSeparator(resource: string, a: Record)
    requires Identified(resource, a) && (0 as char) !in a.id.value && (0 as char) !in a.orgId.value
    ensures var k, n, la := Key(resource, a), |resource| + 1, |a.id.value|;
            forall j :: n <= j < |k| && j != n + la ==> k[j] != 0 as char
  {
    var k, n, la := Key(resource, a), |resource| + 1, |a.id.value|;
    assert k[n..n + la] == a.id.value && k[n + la + 1..] == a.orgId.value;
    assert forall j :: n <= j < n + la ==> k[j] == k[n..n + la][j - n];
    assert forall j :: n + la < j < |k| ==> k[j] == k[n + la + 1..][j - n - la - 1];
  }

  lemma KeyIsInjective(resource: string, a: Record, b: Record)
    requires Identified(resource, a) && Identified(resource, b)
    requires (0 as char) !in a.id.value && (0 as char) !in a.orgId.value
    requires Key(resource, a) == Key(resource, b)
    ensures a.id == b.id && a.orgId == b.orgId
  {
    var ka, kb, n := Key(resource, a), Key(resource, b), |resource| + 1;
    OneSeparator(resource, a);
    assert kb[n + |b.id.value|] == 0 as char;
    assert ka[n..n + |a.id.value|] == a.id.value && kb[n..n + |b.id.value|] == b.id.value;
    assert ka[n + |a.id.value| + 1..] == a.orgId.value && kb[n + |b.id.value| + 1..] == b.orgId.value;
  }

  /** A NUL in the id or in the organisation can take over the separator's part. */
  lemma NulMovesTheSeparator(resource: string, a: Record) returns (b: Record)
    requires Identified(resource, a) && ((0 as char) in a.id.value || (0 as char) in a.orgId.value)
    ensures Identified(resource, b) && b.id != a.id && Key(resource, b) == Key(resource, a)
  {
    var id, org := a.id.value, a.orgId.value;
    if (0 as char) in id {
      var i :| 0 <= i < |id| && id[i] == 0 as char;
      b := Record(Some(id[..i]), Some(id[i + 1..] + NUL + org), false, None);
      assert id == id[..i] + NUL + id[i + 1..];
      assert b.id.value == id[..i] && |b.id.value| < |id|;
    } else {
      var i :| 0 <= i < |org| && org[i] == 0 as char;
      b := Record(Some(id + NUL + org[..i]), Some(org[i + 1..]), false, None);
      assert org == org[..i] + NUL + org[i + 1..];
      assert |b.id.value| > |id|;
    }
    assert Key(resource, b) == Key(resource, a);
  }

  /** A record can be taken for a duplicate of a different one if and only if one of its two ids contains a NUL. */
  lemma KeyIsSharedIff(resource: string, a: Record)
    requires Identified(resource, a)
    ensures (exists b :: Identified(resource, b) && b.id != a.id && Key(resource, b) == Key(resource, a)) <==>
            (0 as char) in a.id.value || (0 as char) in a.orgId.value
  {
    if (0 as char) in a.id.value || (0 as char) in a.orgId.value {
      var b := NulMovesTheSeparator(resource, a);
    } else {
      forall b | Identified(resource, b) && Key(resource, b) == Key(resource, a)
        ensures b.id == a.id
      {
        KeyIsInjective(resource, a, b);
      }
    }
  }

  /** With a NUL it can: two different records are then reported as a duplicate. */
  lemma NulShiftsTheKey(resource: string)
    ensures var z := [0 as char];
            var a := Record(Some("a" + z + "b"), Some("c"), false, None);
            var b := Record(Some("a"), Some("b" + z + "c"), false, None);
            a.id != b.id && Key(resource, a) == Key(resource, b)
            && Collect(resource, [a, b], {}) == Err(Duplicate)
  {
    var z := [0 as char];
    var a := Record(Some("a" + z + "b"), Some("c"), false, None);
    var b := Record(Some("a"), Some("b" + z + "c"), false, None);
    assert |a.id.value| == 3 && |b.id.value| == 1;
    assert Key(resource, a) == Key(resource, b);
    assert [a, b][1..] == [b];
  }
}
