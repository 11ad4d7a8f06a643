/** The append-only audit log of internal/audit/audit.go. */
module Audit {
  import opened Tables
  import opened Timestamps
  import opened Wrappers

  const SCREENING_COMPLETED := "screening_completed"
  const CASE_DECISION := "case_decision"

  /** What the handlers marshal into payload_json. */
  datatype Payload =
    | Decision(caseId: int, decision: string, decidedBy: string)
    | Screening(query: string, status: string, totalMatches: int, names: seq<string>, escalated: bool)
    | Other(text: string)

  /** An event as callers see it; no createdAt is the zero time. */
  datatype Event = Event(id: int, tenant: string, request: string, kind: string, payload: Payload,
                         createdAt: Option<Time>)

  /** A row of audit_events. */
  datatype EventRow = EventRow(id: int, tenant: string, request: string, kind: string, payload: Payload,
                               createdAt: string)

  /** The kind an event is stored under, and the time it is stamped with: the caller's, in whatever
      zone, or else the clock's in UTC. */
  function KindOf(e: Event): string {
    if e.kind == "" then SCREENING_COMPLETED else e.kind
  }

  function StampOf(e: Event, now: Instant): Time {
    if e.createdAt.Some? then e.createdAt.value else UTC(now)
  }

  /** INSERT of one event, with the text of its timestamp. */
  function Recorded(rows: seq<EventRow>, e: Event, stamp: string): seq<EventRow> {
    rows + [EventRow(|rows| + 1, e.tenant, e.request, KindOf(e), e.payload, stamp)]
  }

  /** What Query scans from a row. */
  function Scanned(row: EventRow): Event {
    Event(row.id, row.tenant, row.request, row.kind, row.payload, Parse(row.createdAt))
  }

  /** The WHERE clause of Query: a blank argument filters nothing. */
  function Matches(tenant: string, request: string, kind: string): EventRow -> bool {
    (row: EventRow) =>
      && (tenant == "" || row.tenant == tenant)
      && (request == "" || row.request == request)
      && (kind == "" || row.kind == kind)
  }

  /** Matching events, newest first, at most limit of them. */
  function Queried(rows: seq<EventRow>, tenant: string, request: string, kind: string, limit: int): seq<Event> {
    First(Reversed(Pick(Matches(tenant, request, kind), Scanned, rows)), Limit(limit))
  }

  /** The page shows the newest events that agree with every argument that is not blank, newest first:
      the ones at these places, at most limit of them, or a hundred if that is not positive. */
  ghost predicate IsPage(rows: seq<EventRow>, tenant: string, request: string, kind: string, limit: int,
      at: seq<int>, page: seq<Event>)
  {
    && NewestFitting((row: EventRow) =>
         && (tenant != "" ==> row.tenant == tenant)
         && (request != "" ==> row.request == request)
         && (kind != "" ==> row.kind == kind), rows, if limit <= 0 then 100 else limit, at)
    && Shows(Scanned, rows, at, page)
  }

  /** A query answers with such a page. */
  lemma {:induction false} QueriedIsPage(rows: seq<EventRow>, tenant: string, request: string, kind: string,
      limit: int) returns (at: seq<int>)
    ensures IsPage(rows, tenant, request, kind, limit, at,
                   Queried(rows, tenant, request, kind, limit))
  {
    at := PageIsFitting(Matches(tenant, request, kind), Scanned, rows, Limit(limit));
  }

  function Since(tenant: string, kind: string, text: string): EventRow -> bool {
    (row: EventRow) => row.tenant == tenant && row.kind == kind && !TextLess(row.createdAt, text)
  }

  class Store {
    var rows: seq<EventRow>

    constructor ()
      ensures rows == []
    {
      rows := [];
    }

    /** Appends one event and returns its id. */
    method Record(e: Event, now: Instant) returns (id: int)
      modifies this
      ensures id == |old(rows)| + 1 && rows == Recorded(old(rows), e, Format(StampOf(e, now)))
    {
      var stored := e;
      if stored.kind == "" {
        stored := stored.(kind := SCREENING_COMPLETED);
      }
      if stored.createdAt.None? {
        stored := stored.(createdAt := Some(UTC(now)));
      }
      id := |rows| + 1;
      rows := rows + [EventRow(id, stored.tenant, stored.request, stored.kind, stored.payload,
                               Format(stored.createdAt.value))];
    }

    method Query(tenant: string, request: string, kind: string, limit: int) returns (out: seq<Event>)
      ensures out == Queried(rows, tenant, request, kind, limit)
      ensures exists at :: IsPage(rows, tenant, request, kind, limit, at, out)
    {
      ghost var at := QueriedIsPage(rows, tenant, request, kind, limit);
      var n := if limit <= 0 then 100 else limit;
      out := Fetch(Matches(tenant, request, kind), Scanned, rows, n);
    }

    method Count(tenant: string) returns (n: int)
      ensures n == CountIf(Matches(tenant, "", ""), rows)
    {
      n := CountRows(Matches(tenant, "", ""), rows);
    }

    method CountSince(tenant: string, kind: string, since: Time) returns (n: int)
      ensures n == CountIf(Since(tenant, kind, Format(UTC(since.at))), rows)
    {
      n := CountRows(Since(tenant, kind, Format(UTC(since.at))), rows);
    }
  }

  // ----- Runs of Record -----

  /** One call of Record: the event and the text of its timestamp. */
  datatype Append = Append(event: Event, stamp: string)

  /** The log after these appends. */
  ghost function Log(appends: seq<Append>): (rows: seq<EventRow>)
    ensures |rows| == |appends|
  {
    if |appends| == 0 then [] else
      var n := |appends| - 1;
      Recorded(Log(appends[..n]), appends[n].event, appends[n].stamp)
  }

  /** Each append is stamped with its event's instant or else the clock's. */
  ghost predicate StampedBy(appends: seq<Append>, clock: seq<Instant>) {
    |clock| == |appends| &&
    forall i :: 0 <= i < |appends| ==> appends[i].stamp == Format(StampOf(appends[i].event, clock[i]))
  }

  lemma {:induction false} LogGrows(appends: seq<Append>, i: nat)
    requires i <= |appends|
    ensures Log(appends[..i]) <= Log(appends)
    decreases |appends|
  {
    var n := |appends| - 1;
    if i <= n {
      LogGrows(appends[..n], i);
      assert appends[..n][..i] == appends[..i];
    } else {
      assert appends[..i] == appends;
    }
  }

  /** The event as it reads back: under its number, as a screening unless told otherwise, at the time
      given or else the clock's in UTC, cut to the second. */
  ghost function ReadBack(e: Event, id: int, now: Instant): Event {
    e.(id := id, kind := if e.kind == "" then "screening_completed" else e.kind,
       createdAt := Some(CutToSecond(match e.createdAt case Some(t) => t case None => UTC(now))))
  }

  /** A recorded event is never changed or lost: every append stays at its place, and reads back
      with its id, its default kind and its instant cut to the second. */
  lemma {:induction false} AppendOnly(appends: seq<Append>, clock: seq<Instant>, i: nat)
    requires i < |appends| && StampedBy(appends, clock)
    ensures Log(appends[..i]) <= Log(appends)
    ensures Scanned(Log(appends)[i]) == ReadBack(appends[i].event, i + 1, clock[i])
  {
    LogGrows(appends, i);
    LogGrows(appends, i + 1);
    assert appends[..i + 1][..i] == appends[..i];
    assert Log(appends)[i] == Log(appends[..i + 1])[i];
    ParseFormat(StampOf(appends[i].event, clock[i]));
  }

  /** A smaller positive limit gives a prefix of what a larger one gives, and a page is short
      only when nothing is left. */
  lemma {:induction false} PagesArePrefixes(rows: seq<EventRow>, tenant: string, request: string, kind: string,
      m: int, n: int)
    requires 0 < m <= n
    ensures Queried(rows, tenant, request, kind, m) <= Queried(rows, tenant, request, kind, n)
    ensures |Queried(rows, tenant, request, kind, m)| < m ==>
      |Queried(rows, tenant, request, kind, m)| == CountIf(Matches(tenant, request, kind), rows)
  {
    CountIsPick(Matches(tenant, request, kind), Scanned, rows);
  }

  ghost predicate AskedFor(e: Event, tenant: string, request: string, kind: string) {
    && (tenant == "" || tenant == e.tenant) && (request == "" || request == e.request)
    && (kind == "" || kind == (if e.kind == "" then "screening_completed" else e.kind))
  }

  /** Whatever the stamp reads back as, the new event heads the page it belongs on. */
  lemma {:induction false} RecordedIsListed(rows: seq<EventRow>, e: Event, stamp: string, row: EventRow,
      tenant: string, request: string, kind: string, limit: int)
    requires Recorded(rows, e, stamp) == rows + [row]
    ensures var was, page := Queried(rows, tenant, request, kind, limit),
                             Queried(Recorded(rows, e, stamp), tenant, request, kind, limit);
      if AskedFor(e, tenant, request, kind)
      then page == [Scanned(row)] + First(was, (if limit <= 0 then 100 else limit) - 1)
      else page == was
  {
    assert row == (rows + [row])[|rows|] == Recorded(rows, e, stamp)[|rows|];
    assert Matches(tenant, request, kind)(row) <==> AskedFor(e, tenant, request, kind);
    PageGains(Matches(tenant, request, kind), Scanned, rows, row, Limit(limit));
  }

  lemma {:induction false} RecordedReadsBack(rows: seq<EventRow>, e: Event, now: Instant) returns (row: EventRow)
    ensures Recorded(rows, e, Format(StampOf(e, now))) == rows + [row]
    ensures Scanned(row) == ReadBack(e, |rows| + 1, now)
  {
    row := EventRow(|rows| + 1, e.tenant, e.request, KindOf(e), e.payload, Format(StampOf(e, now)));
    ParseFormat(StampOf(e, now));
  }

  /** Query after Record: a page the event belongs on starts with it as it reads back, the rest is the
      old page less its last place. No other page changes. */
  lemma {:induction false} RecordThenQuery(rows: seq<EventRow>, e: Event, now: Instant, tenant: string,
      request: string, kind: string, limit: int)
    ensures var was, page := Queried(rows, tenant, request, kind, limit),
                             Queried(Recorded(rows, e, Format(StampOf(e, now))), tenant, request, kind, limit);
      if AskedFor(e, tenant, request, kind)
      then page == [ReadBack(e, |rows| + 1, now)] + First(was, (if limit <= 0 then 100 else limit) - 1)
      else page == was
  {
    var row := RecordedReadsBack(rows, e, now);
    RecordedIsListed(rows, e, Format(StampOf(e, now)), row, tenant, request, kind, limit);
  }

  // ----- Counting -----

  /** The sum of the per-tenant counts of some tenants. */
  ghost function SumOfCounts(rows: seq<EventRow>, tenants: seq<string>): nat {
    if |tenants| == 0 then 0
    else SumOfCounts(rows, tenants[1..]) + CountIf(Matches(tenants[0], "", ""), rows)
  }

  ghost predicate Distinct(names: seq<string>) {
    forall i, j :: 0 <= i < j < |names| ==> names[i] != names[j]
  }

  /** One more row adds one to the sum if its tenant is listed. */
  lemma {:induction false} SumGrows(rows: seq<EventRow>, row: EventRow, tenants: seq<string>)
    requires Distinct(tenants) && "" !in tenants
    ensures SumOfCounts(rows + [row], tenants) == SumOfCounts(rows, tenants) + if row.tenant in tenants then 1 else 0
    decreases |tenants|
  {
    if |tenants| > 0 {
      var rest := tenants[1..];
      assert Distinct(rest) by {
        assert forall i :: 0 <= i < |rest| ==> rest[i] == tenants[i + 1];
      }
      SumGrows(rows, row, rest);
      assert (rows + [row])[..|rows|] == rows;
      assert tenants == [tenants[0]] + rest;
      assert tenants[0] !in rest;
    }
  }

  /** The unfiltered count is the sum of the per-tenant counts over any list of distinct,
      non-empty tenants exactly when that list names the tenant of every row. */
  lemma {:induction false} CountIsSumOverTenants(rows: seq<EventRow>, tenants: seq<string>)
    requires Distinct(tenants) && "" !in tenants
    ensures SumOfCounts(rows, tenants) <= CountIf(Matches("", "", ""), rows)
    ensures SumOfCounts(rows, tenants) == CountIf(Matches("", "", ""), rows)
      <==> forall row :: row in rows ==> row.tenant in tenants
    decreases |rows|
  {
    if |rows| == 0 {
      SumOverNothing(tenants);
    } else {
      var n := |rows| - 1;
      CountIsSumOverTenants(rows[..n], tenants);
      SumGrows(rows[..n], rows[n], tenants);
      assert rows == rows[..n] + [rows[n]];
    }
  }

  lemma {:induction false} SumOverNothing(tenants: seq<string>)
    ensures SumOfCounts([], tenants) == 0
    decreases |tenants|
  {
    if |tenants| > 0 {
      SumOverNothing(tenants[1..]);
    }
  }

  /** The append is one of this tenant and kind. */
  ghost predicate Concerns(e: Event, tenant: string, kind: string) {
    e.tenant == tenant && KindOf(e) == kind
  }

  /** It is, and is stamped in or after the second of since. */
  ghost predicate IsSince(e: Event, now: Instant, tenant: string, kind: string, since: Instant) {
    Concerns(e, tenant, kind) && StampOf(e, now).at / NANOS >= since / NANOS
  }

  /** How many of these appends, of one tenant and kind, are stamped in or after the second of since. */
  ghost function AppendedSince(appends: seq<Append>, clock: seq<Instant>, tenant: string, kind: string,
      since: Instant): nat
    requires |clock| == |appends|
  {
    if |appends| == 0 then 0 else
      var n := |appends| - 1;
      var e := appends[n].event;
      AppendedSince(appends[..n], clock[..n], tenant, kind, since)
        + if IsSince(e, clock[n], tenant, kind, since) then 1 else 0
  }

  /** The events of this tenant and kind are stamped in UTC; those the handlers append always are. */
  ghost predicate InUTC(appends: seq<Append>, clock: seq<Instant>, tenant: string, kind: string)
    requires |clock| == |appends|
  {
    forall i :: 0 <= i < |appends| && Concerns(appends[i].event, tenant, kind) ==>
      StampOf(appends[i].event, clock[i]).zone == 0
  }

  /** What the query sees of it. */
  ghost predicate TextIsSince(a: Append, tenant: string, kind: string, text: string) {
    Concerns(a.event, tenant, kind) && !TextLess(a.stamp, text)
  }

  /** A text that tells each of these events rightly counts them rightly. */
  lemma {:induction false} RightTextCounts(appends: seq<Append>, clock: seq<Instant>, tenant: string, kind: string,
      since: Instant, text: string)
    requires |clock| == |appends|
    requires forall i :: 0 <= i < |appends| ==>
      (IsSince(appends[i].event, clock[i], tenant, kind, since) <==> TextIsSince(appends[i], tenant, kind, text))
    ensures CountIf(Since(tenant, kind, text), Log(appends)) == AppendedSince(appends, clock, tenant, kind, since)
    decreases |appends|
  {
    if |appends| > 0 {
      var n := |appends| - 1;
      RightTextCounts(appends[..n], clock[..n], tenant, kind, since, text);
      CountAppend(Since(tenant, kind, text), Log(appends[..n]), Log(appends)[n]);
    }
  }

  /** CountSince compares text, and still counts exactly the tenant's events of the kind whose second
      is at or after the second of since, provided they are stamped in UTC. */
  lemma {:induction false} CountSinceCountsSeconds(appends: seq<Append>, clock: seq<Instant>, tenant: string,
      kind: string, since: Time)
    requires StampedBy(appends, clock) && InUTC(appends, clock, tenant, kind)
    ensures CountIf(Since(tenant, kind, Format(UTC(since.at))), Log(appends))
      == AppendedSince(appends, clock, tenant, kind, since.at)
  {
    var text := Format(UTC(since.at));
    forall i | 0 <= i < |appends|
      ensures IsSince(appends[i].event, clock[i], tenant, kind, since.at)
        <==> TextIsSince(appends[i], tenant, kind, text)
    {
      if Concerns(appends[i].event, tenant, kind) {
        UTCTells(StampOf(appends[i].event, clock[i]), since.at);
      }
    }
    RightTextCounts(appends, clock, tenant, kind, since.at, text);
  }

  /** A single event is counted rightly for every since exactly when it is stamped in UTC: a supplied
      time in a zone to the east is counted too long, one to the west not long enough. */
  lemma {:induction false} CountsRightlyIffUTC(e: Event, now: Instant)
    ensures (forall since: Instant :: CountsRightly(e, now, since)) <==> StampOf(e, now).zone == 0
  {
    TextTellsIffUTC(StampOf(e, now));
    forall since: Instant ensures CountsRightly(e, now, since) <==> TextTells(StampOf(e, now), since) {
      CountsOne(e, now, since);
    }
  }

  /** The append Record makes of an event. */
  ghost function Stamped(e: Event, now: Instant): Append {
    Append(e, Format(StampOf(e, now)))
  }

  ghost predicate CountsRightly(e: Event, now: Instant, since: Instant) {
    CountIf(Since(e.tenant, KindOf(e), Format(UTC(since))), Log([Stamped(e, now)]))
      == AppendedSince([Stamped(e, now)], [now], e.tenant, KindOf(e), since)
  }

  lemma {:induction false} CountsOne(e: Event, now: Instant, since: Instant)
    ensures CountsRightly(e, now, since) <==> TextTells(StampOf(e, now), since)
  {
    var a, text := Stamped(e, now), Format(UTC(since));
    var row := EventRow(1, e.tenant, e.request, KindOf(e), e.payload, a.stamp);
    assert Log([a]) == [] + [row];
    CountAppend(Since(e.tenant, KindOf(e), text), [], row);
    assert [now][..0] == [] && AppendedSince([], [], e.tenant, KindOf(e), since) == 0;
  }
}
