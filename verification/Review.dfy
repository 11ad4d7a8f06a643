/** The review queue of internal/review/review.go. */
module Review {
  import opened Tables
  import opened Text
  import opened Timestamps
  import opened Wrappers

  type Status = string

  const PENDING: Status := "pending"
  const APPROVED: Status := "approved"
  const REJECTED: Status := "rejected"
  const FALSE_POSITIVE: Status := "false_positive"

  /** A case as callers see it; no createdAt is the zero time. */
  datatype Case = Case(id: int, tenant: string, request: string, query: string, candidate: string, list: string,
                       confidence: real, reasoning: string, model: string, prompt: string, riskFlags: seq<string>,
                       status: Status, createdAt: Option<Time>, decidedAt: Option<Time>, decidedBy: string)

  /** A row of review_cases; decided_at and decided_by are NULL until a decision. */
  datatype CaseRow = CaseRow(id: int, tenant: string, request: string, query: string, candidate: string, list: string,
                             confidence: real, reasoning: string, model: string, prompt: string, riskFlags: string,
                             status: Status, createdAt: string, decidedAt: Option<string>, decidedBy: Option<string>)

  /** The time a case is stamped with: the caller's, in whatever zone, or else the clock's in UTC. */
  function StampOf(c: Case, now: Instant): Time {
    if c.createdAt.Some? then c.createdAt.value else UTC(now)
  }

  function NewRow(id: int, c: Case, stamp: string): CaseRow {
    CaseRow(id, c.tenant, c.request, c.query, c.candidate, c.list, c.confidence, c.reasoning, c.model, c.prompt,
            Join(c.riskFlags, ','), if c.status == "" then PENDING else c.status,
            stamp, None, None)
  }

  /** INSERT of one case, with the text of its timestamp. */
  function Created(rows: seq<CaseRow>, c: Case, stamp: string): seq<CaseRow> {
    rows + [NewRow(|rows| + 1, c, stamp)]
  }

  /** What Get and List scan from a row; COALESCE turns NULL into the blank text. */
  function Scanned(row: CaseRow): Case {
    Case(row.id, row.tenant, row.request, row.query, row.candidate, row.list, row.confidence, row.reasoning,
         row.model, row.prompt, if row.riskFlags == "" then [] else Split(row.riskFlags, ','),
         row.status, Parse(row.createdAt), Parse(if row.decidedAt.Some? then row.decidedAt.value else ""),
         if row.decidedBy.Some? then row.decidedBy.value else "")
  }

  predicate IsCase(row: CaseRow, tenant: string, id: int) {
    row.tenant == tenant && row.id == id
  }

  /** The rows the UPDATE of Decide changes. */
  predicate Decidable(row: CaseRow, tenant: string, id: int) {
    IsCase(row, tenant, id) && row.status == PENDING
  }

  function Decided(rows: seq<CaseRow>, tenant: string, id: int, status: Status, reviewer: string,
      stamp: string): (r: seq<CaseRow>)
    ensures |r| == |rows|
  {
    seq(|rows|, i requires 0 <= i < |rows| =>
      if Decidable(rows[i], tenant, id)
      then rows[i].(status := status, decidedAt := Some(stamp), decidedBy := Some(reviewer))
      else rows[i])
  }

  /** A decision is possible: RowsAffected will not be 0. */
  predicate CanDecide(rows: seq<CaseRow>, tenant: string, id: int) {
    exists i :: 0 <= i < |rows| && Decidable(rows[i], tenant, id)
  }

  datatype DecideError = BadStatus | NoRows | Failed

  function MatchesStatus(tenant: string, status: Status): CaseRow -> bool {
    (row: CaseRow) => row.tenant == tenant && (status == "" || row.status == status)
  }

  /** A tenant's cases, newest first, at most limit of them. */
  function Listed(rows: seq<CaseRow>, tenant: string, status: Status, limit: int): seq<Case> {
    First(Reversed(Pick(MatchesStatus(tenant, status), Scanned, rows)), Limit(limit))
  }

  /** The page shows the tenant's newest cases of the status, or of any if that is blank, newest first:
      the ones at these places, at most limit of them, or a hundred if that is not positive. */
  ghost predicate IsPage(rows: seq<CaseRow>, tenant: string, status: Status, limit: int, at: seq<int>,
      page: seq<Case>)
  {
    && NewestFitting((row: CaseRow) => row.tenant == tenant && (status != "" ==> row.status == status), rows,
                     if limit <= 0 then 100 else limit, at)
    && Shows(Scanned, rows, at, page)
  }

  lemma {:induction false} ListedIsPage(rows: seq<CaseRow>, tenant: string, status: Status,
      limit: int) returns (at: seq<int>)
    ensures IsPage(rows, tenant, status, limit, at, Listed(rows, tenant, status, limit))
  {
    at := PageIsFitting(MatchesStatus(tenant, status), Scanned, rows, Limit(limit));
  }

  /** SELECT of one case. */
  function Found(rows: seq<CaseRow>, tenant: string, id: int): Option<Case> {
    if |rows| == 0 then None
    else if IsCase(rows[0], tenant, id) then Some(Scanned(rows[0]))
    else Found(rows[1..], tenant, id)
  }

  class Store {
    var rows: seq<CaseRow>

    constructor ()
      ensures rows == []
    {
      rows := [];
    }

    method Create(c: Case, now: Instant) returns (id: int)
      modifies this
      ensures id == |old(rows)| + 1 && rows == Created(old(rows), c, Format(StampOf(c, now)))
    {
      var stored := c;
      if stored.status == "" {
        stored := stored.(status := PENDING);
      }
      if stored.createdAt.None? {
        stored := stored.(createdAt := Some(UTC(now)));
      }
      var flags := Join(stored.riskFlags, ',');
      id := |rows| + 1;
      rows := rows + [CaseRow(id, stored.tenant, stored.request, stored.query, stored.candidate, stored.list,
                              stored.confidence, stored.reasoning, stored.model, stored.prompt, flags,
                              stored.status, Format(stored.createdAt.value), None, None)];
    }

    method List(tenant: string, status: Status, limit: int) returns (out: seq<Case>)
      ensures out == Listed(rows, tenant, status, limit)
      ensures exists at :: IsPage(rows, tenant, status, limit, at, out)
    {
      ghost var at := ListedIsPage(rows, tenant, status, limit);
      var n := if limit <= 0 then 100 else limit;
      out := Fetch(MatchesStatus(tenant, status), Scanned, rows, n);
    }

    method Get(tenant: string, id: int) returns (c: Option<Case>)
      ensures c == Found(rows, tenant, id)
    {
      var i := 0;
      assert rows[i..] == rows;
      while i < |rows|
        invariant 0 <= i <= |rows| && Found(rows, tenant, id) == Found(rows[i..], tenant, id)
      {
        if rows[i].tenant == tenant && rows[i].id == id {
          return Some(Scanned(rows[i]));
        }
        assert rows[i..][1..] == rows[i + 1..];
        i := i + 1;
      }
      c := None;
    }

    /** The UPDATE statement; returns RowsAffected. */
    method Update(tenant: string, id: int, status: Status, reviewer: string, stamp: string) returns (affected: nat)
      modifies this
      ensures rows == Decided(old(rows), tenant, id, status, reviewer, stamp)
      ensures affected > 0 <==> CanDecide(old(rows), tenant, id)
    {
      var pending := (row: CaseRow) => Decidable(row, tenant, id);
      CountPositive(pending, rows);
      affected := CountRows(pending, rows);
      assert CanDecide(rows, tenant, id) <==> exists i :: 0 <= i < |rows| && pending(rows[i]);
      rows := Decided(rows, tenant, id, status, reviewer, stamp);
    }

    /** Compare-and-set on a pending case; done tells whether the database carries out the UPDATE. */
    method Decide(tenant: string, id: int, status: Status, reviewer: string, now: Instant,
        done: bool) returns (r: Result<(), DecideError>)
      modifies this
      ensures r == if status == "" || status == PENDING then Err(BadStatus)
                   else if !done then Err(Failed)
                   else if CanDecide(old(rows), tenant, id) then Ok(())
                   else Err(NoRows)
      ensures rows == if status == "" || status == PENDING || !done then old(rows)
                      else Decided(old(rows), tenant, id, status, reviewer, Format(UTC(now)))
    {
      if status == "" || status == PENDING {
        return Err(BadStatus);
      }
      if !done {
        return Err(Failed);
      }
      var affected := Update(tenant, id, status, reviewer, Format(UTC(now)));
      r := if affected == 0 then Err(NoRows) else Ok(());
    }
  }

  // ----- Numbered tables -----

  /** Row i has id i + 1: ids are handed out in order and rows never go away. */
  ghost predicate Numbered(rows: seq<CaseRow>) {
    forall i :: 0 <= i < |rows| ==> rows[i].id == i + 1
  }

  lemma {:induction false} FoundByPosition(rows: seq<CaseRow>, tenant: string, id: int, from: int)
    requires forall i :: 0 <= i < |rows| ==> rows[i].id == from + i + 1
    ensures Found(rows, tenant, id) ==
      if from < id <= from + |rows| && rows[id - from - 1].tenant == tenant then Some(Scanned(rows[id - from - 1]))
      else None
    decreases |rows|
  {
    if |rows| > 0 && !IsCase(rows[0], tenant, id) {
      FoundByPosition(rows[1..], tenant, id, from + 1);
    }
  }

  /** In a numbered table only the case in that place can be decided. */
  lemma CanDecideInPlace(rows: seq<CaseRow>, tenant: string, id: int)
    requires Numbered(rows)
    ensures CanDecide(rows, tenant, id) <==>
      1 <= id <= |rows| && rows[id - 1].tenant == tenant && rows[id - 1].status == PENDING
  {
    assert 1 <= id <= |rows| && rows[id - 1].tenant == tenant && rows[id - 1].status == PENDING ==>
      Decidable(rows[id - 1], tenant, id);
  }

  /** In a numbered table a decision touches the case with that id and nothing else, and is
      possible exactly when that case is the tenant's and pending; afterwards it no longer is. */
  lemma {:induction false} DecideIsCompareAndSet(rows: seq<CaseRow>, tenant: string, id: int, status: Status,
      reviewer: string, stamp: string)
    requires Numbered(rows)
    ensures CanDecide(rows, tenant, id) <==> 1 <= id <= |rows| && Decidable(rows[id - 1], tenant, id)
    ensures Decided(rows, tenant, id, status, reviewer, stamp) ==
      if CanDecide(rows, tenant, id)
      then rows[id - 1 := rows[id - 1].(status := status, decidedAt := Some(stamp), decidedBy := Some(reviewer))]
      else rows
    ensures status != PENDING ==> !CanDecide(Decided(rows, tenant, id, status, reviewer, stamp), tenant, id)
  {
    var after := Decided(rows, tenant, id, status, reviewer, stamp);
    if CanDecide(rows, tenant, id) {
      var row := rows[id - 1].(status := status, decidedAt := Some(stamp), decidedBy := Some(reviewer));
      assert after == rows[id - 1 := row];
    } else {
      assert after == rows;
    }
  }

  // ----- What comes back -----

  /** A created case reads back with its id, its default status, a time and no decision. */
  ghost function AsStored(c: Case, id: int, created: Option<Time>): Case {
    c.(id := id, status := if c.status == "" then "pending" else c.status,
       createdAt := created, decidedAt := None, decidedBy := "")
  }

  /** It does so at the time given or else the clock's in UTC, cut to the second. */
  ghost function ReadBack(c: Case, id: int, now: Instant): Case {
    AsStored(c, id, Some(CutToSecond(match c.createdAt case Some(t) => t case None => UTC(now))))
  }

  /** Flags survive storage exactly when none contains a comma and they are not a single blank. */
  ghost predicate Storable(flags: seq<string>) {
    (forall i :: 0 <= i < |flags| ==> ',' !in flags[i]) && flags != [""]
  }

  lemma {:induction false} FlagsSurvive(flags: seq<string>)
    ensures (if Join(flags, ',') == "" then [] else Split(Join(flags, ','), ',')) == flags <==> Storable(flags)
  {
    JoinEmpty(flags, ',');
    if flags != [] && flags != [""] {
      if Storable(flags) {
        SplitJoin(flags, ',');
      } else if Split(Join(flags, ','), ',') == flags {
        SplitJoinOnly(flags, ',');
      }
    }
  }

  lemma ParsesBlank()
    ensures Parse("") == None
  {
  }

  /** In a numbered table a case is found by its place. */
  lemma {:induction false} FoundInPlace(rows: seq<CaseRow>, tenant: string, id: int)
    requires Numbered(rows)
    ensures Found(rows, tenant, id) ==
      if 1 <= id <= |rows| && rows[id - 1].tenant == tenant then Some(Scanned(rows[id - 1])) else None
  {
    FoundByPosition(rows, tenant, id, 0);
  }

  /** What is scanned from a new row is the case as stored exactly when its flags are storable. */
  lemma {:induction false} NewRowScans(id: int, c: Case, stamp: string)
    ensures Scanned(NewRow(id, c, stamp)).(riskFlags := c.riskFlags) == AsStored(c, id, Parse(stamp))
    ensures Scanned(NewRow(id, c, stamp)) == AsStored(c, id, Parse(stamp)) <==> Storable(c.riskFlags)
  {
    FlagsSurvive(c.riskFlags);
    ParsesBlank();
  }

  /** Whatever the stamp reads back as, the new case is found with it. */
  lemma {:induction false} CreatedIsFound(rows: seq<CaseRow>, c: Case, stamp: string)
    requires Numbered(rows)
    ensures var found := Found(Created(rows, c, stamp), c.tenant, |rows| + 1);
      && found.Some? && found.value.(riskFlags := c.riskFlags) == AsStored(c, |rows| + 1, Parse(stamp))
      && (found.value == AsStored(c, |rows| + 1, Parse(stamp)) <==> Storable(c.riskFlags))
  {
    var after := Created(rows, c, stamp);
    assert after[|rows|] == NewRow(|rows| + 1, c, stamp);
    FoundInPlace(after, c.tenant, |rows| + 1);
    NewRowScans(|rows| + 1, c, stamp);
  }

  /** No other lookup changes. */
  lemma {:induction false} OthersAreFoundAsBefore(rows: seq<CaseRow>, c: Case, stamp: string, tenant: string, id: int)
    requires Numbered(rows) && (id != |rows| + 1 || tenant != c.tenant)
    ensures Found(Created(rows, c, stamp), tenant, id) == Found(rows, tenant, id)
  {
    FoundInPlace(rows, tenant, id);
    FoundInPlace(Created(rows, c, stamp), tenant, id);
  }

  /** Get after Create returns the case as it was given, its instant cut to the second, but for risk
      flags that are not storable; every other case is as it was. */
  lemma {:induction false} CreateThenGet(rows: seq<CaseRow>, c: Case, now: Instant, tenant: string, id: int)
    requires Numbered(rows)
    ensures var after := Created(rows, c, Format(StampOf(c, now)));
      var found := Found(after, c.tenant, |rows| + 1);
      && found.Some? && found.value.(riskFlags := c.riskFlags) == ReadBack(c, |rows| + 1, now)
      && (found.value == ReadBack(c, |rows| + 1, now) <==> Storable(c.riskFlags))
      && (id != |rows| + 1 || tenant != c.tenant ==> Found(after, tenant, id) == Found(rows, tenant, id))
  {
    CreatedIsFound(rows, c, Format(StampOf(c, now)));
    if id != |rows| + 1 || tenant != c.tenant {
      OthersAreFoundAsBefore(rows, c, Format(StampOf(c, now)), tenant, id);
    }
    ParseFormat(StampOf(c, now));
  }

  ghost predicate OnPage(c: Case, tenant: string, status: Status) {
    c.tenant == tenant && (status == "" || status == (if c.status == "" then "pending" else c.status))
  }

  /** Whatever the stamp reads back as, the new case heads the page it belongs on. */
  lemma {:induction false} CreatedIsListed(rows: seq<CaseRow>, c: Case, stamp: string, tenant: string,
      status: Status, limit: int)
    ensures var was, page := Listed(rows, tenant, status, limit),
                             Listed(Created(rows, c, stamp), tenant, status, limit);
      if OnPage(c, tenant, status)
      then |page| > 0 && page[0] == Scanned(NewRow(|rows| + 1, c, stamp)) && page[1..] == First(was, Limit(limit) - 1)
      else page == was
  {
    var row := NewRow(|rows| + 1, c, stamp);
    assert MatchesStatus(tenant, status)(row) <==> OnPage(c, tenant, status);
    PageGains(MatchesStatus(tenant, status), Scanned, rows, row, Limit(limit));
  }

  /** List after Create: a page of the tenant's cases, of that status or of any, starts with the case
      as given, its instant cut to the second, but for risk flags that are not storable; the rest is
      the old page less its last place. No other page changes. */
  lemma {:induction false} CreateThenList(rows: seq<CaseRow>, c: Case, now: Instant, tenant: string, status: Status,
      limit: int)
    ensures var was, page := Listed(rows, tenant, status, limit),
                             Listed(Created(rows, c, Format(StampOf(c, now))), tenant, status, limit);
      if OnPage(c, tenant, status)
      then
        && |page| > 0 && page[1..] == First(was, (if limit <= 0 then 100 else limit) - 1)
        && page[0].(riskFlags := c.riskFlags) == ReadBack(c, |rows| + 1, now)
        && (page[0] == ReadBack(c, |rows| + 1, now) <==> Storable(c.riskFlags))
      else page == was
  {
    CreatedIsListed(rows, c, Format(StampOf(c, now)), tenant, status, limit);
    NewRowScans(|rows| + 1, c, Format(StampOf(c, now)));
    ParseFormat(StampOf(c, now));
  }

  lemma {:induction false} DecidedIsFound(rows: seq<CaseRow>, tenant: string, id: int, status: Status,
      reviewer: string, stamp: string)
    requires Numbered(rows) && CanDecide(rows, tenant, id)
    ensures Found(rows, tenant, id).Some?
    ensures Found(Decided(rows, tenant, id, status, reviewer, stamp), tenant, id)
      == Some(Found(rows, tenant, id).value.(status := status, decidedAt := Parse(stamp), decidedBy := reviewer))
  {
    DecideIsCompareAndSet(rows, tenant, id, status, reviewer, stamp);
    FoundInPlace(rows, tenant, id);
    FoundInPlace(Decided(rows, tenant, id, status, reviewer, stamp), tenant, id);
  }

  lemma {:induction false} OthersAreFoundAlike(rows: seq<CaseRow>, tenant: string, id: int, status: Status,
      reviewer: string, stamp: string, t: string, other: int)
    requires Numbered(rows) && CanDecide(rows, tenant, id) && (t != tenant || other != id)
    ensures Found(Decided(rows, tenant, id, status, reviewer, stamp), t, other) == Found(rows, t, other)
  {
    DecideIsCompareAndSet(rows, tenant, id, status, reviewer, stamp);
    FoundInPlace(rows, t, other);
    FoundInPlace(Decided(rows, tenant, id, status, reviewer, stamp), t, other);
  }

  /** After a successful decision Get returns the same case with the decision, its second and its
      author; every other case, of this tenant or another, is as it was. */
  lemma {:induction false} DecideThenGet(rows: seq<CaseRow>, tenant: string, id: int, status: Status,
      reviewer: string,
      now: Instant, t: string, other: int)
    requires Numbered(rows) && CanDecide(rows, tenant, id)
    ensures var was, after := Found(rows, tenant, id), Decided(rows, tenant, id, status, reviewer, Format(UTC(now)));
      && was.Some?
      && Found(after, tenant, id)
         == Some(was.value.(status := status, decidedAt := Some(CutToSecond(UTC(now))), decidedBy := reviewer))
      && (t != tenant || other != id ==> Found(after, t, other) == Found(rows, t, other))
  {
    DecidedIsFound(rows, tenant, id, status, reviewer, Format(UTC(now)));
    if t != tenant || other != id {
      OthersAreFoundAlike(rows, tenant, id, status, reviewer, Format(UTC(now)), t, other);
    }
    ParseFormat(UTC(now));
  }

  // ----- Lists after a decision -----

  /** The case as it reads back after its decision. */
  ghost function AfterDecision(was: Case, status: Status, reviewer: string, now: Instant): Case {
    was.(status := status, decidedAt := Some(CutToSecond(UTC(now))), decidedBy := reviewer)
  }

  /** The list of a tenant's cases, of one status or of any, around the place of one case. */
  lemma {:induction false} ListedAround(older: seq<CaseRow>, row: CaseRow, newer: seq<CaseRow>, t: string,
      filter: Status, limit: int)
    ensures Listed(older + [row] + newer, t, filter, limit) ==
      First(Reversed(Pick(MatchesStatus(t, filter), Scanned, newer))
              + (if row.tenant == t && (filter == "" || row.status == filter) then [Scanned(row)] else [])
              + Reversed(Pick(MatchesStatus(t, filter), Scanned, older)), Limit(limit))
  {
    PickAround(MatchesStatus(t, filter), Scanned, older, row, newer);
  }

  /** All listed cases have ids in a range if the rows do. */
  lemma {:induction false} IdsInRange(rows: seq<CaseRow>, t: string, filter: Status, low: int, high: int)
    requires forall i :: 0 <= i < |rows| ==> low <= rows[i].id <= high
    ensures forall c :: c in Reversed(Pick(MatchesStatus(t, filter), Scanned, rows)) ==> low <= c.id <= high
  {
    forall c | c in Reversed(Pick(MatchesStatus(t, filter), Scanned, rows)) ensures low <= c.id <= high {
      PickSound(MatchesStatus(t, filter), Scanned, rows, c);
    }
  }

  /** What a decision leaves of the table: the rows around the case's, and its own with the decision. */
  lemma {:induction false} DecidedAround(rows: seq<CaseRow>, tenant: string, id: int, status: Status,
      reviewer: string, stamp: string) returns (older: seq<CaseRow>, row: CaseRow, newer: seq<CaseRow>)
    requires Numbered(rows) && CanDecide(rows, tenant, id)
    ensures rows == older + [row] + newer && row.tenant == tenant && row.status == "pending"
    ensures Found(rows, tenant, id) == Some(Scanned(row))
    ensures Decided(rows, tenant, id, status, reviewer, stamp)
      == older + [row.(status := status, decidedAt := Some(stamp), decidedBy := Some(reviewer))] + newer
    ensures forall i :: 0 <= i < |older| ==> 0 <= older[i].id <= id - 1
    ensures forall i :: 0 <= i < |newer| ==> id + 1 <= newer[i].id <= |rows|
  {
    DecideIsCompareAndSet(rows, tenant, id, status, reviewer, stamp);
    FoundInPlace(rows, tenant, id);
    older, row, newer := rows[..id - 1], rows[id - 1], rows[id..];
    PutInPlace(rows, id - 1, row.(status := status, decidedAt := Some(stamp), decidedBy := Some(reviewer)));
    IdsInPlace(rows, id, older, newer);
  }

  lemma PutInPlace<T>(s: seq<T>, i: nat, t: T)
    requires i < |s|
    ensures s == s[..i] + [s[i]] + s[i + 1..] && s[i := t] == s[..i] + [t] + s[i + 1..]
  {
  }

  lemma IdsInPlace(rows: seq<CaseRow>, id: int, older: seq<CaseRow>, newer: seq<CaseRow>)
    requires Numbered(rows) && 1 <= id <= |rows| && older == rows[..id - 1] && newer == rows[id..]
    ensures forall i :: 0 <= i < |older| ==> older[i].id == i + 1
    ensures forall i :: 0 <= i < |newer| ==> newer[i].id == id + i + 1
  {
  }

  lemma {:induction false} DecisionReadsBack(row: CaseRow, status: Status, reviewer: string, now: Instant)
    ensures Scanned(row.(status := status, decidedAt := Some(Format(UTC(now))), decidedBy := Some(reviewer)))
      == AfterDecision(Scanned(row), status, reviewer, now)
  {
    ParseFormat(UTC(now));
  }

  /** Lists after a successful decision: the case leaves the tenant's pending cases, appears among those
      of its new status between the newer and the older ones, and shows its decision where it stands
      among all; nothing else on any page of any tenant changes. */
  lemma {:induction false} DecideThenList(rows: seq<CaseRow>, tenant: string, id: int, status: Status,
      reviewer: string, now: Instant, t: string, filter: Status, limit: int, was: Option<Case>)
      returns (newer: seq<Case>, older: seq<Case>)
    requires Numbered(rows) && CanDecide(rows, tenant, id) && status != "" && status != "pending"
    requires was == Found(rows, tenant, id)
    ensures was.Some?
    ensures Listed(rows, t, filter, limit)
      == First(newer + (if t == tenant && (filter == "" || filter == "pending") then [was.value] else []) + older,
               if limit <= 0 then 100 else limit)
    ensures Listed(Decided(rows, tenant, id, status, reviewer, Format(UTC(now))), t, filter, limit)
      == First(newer + (if t == tenant && (filter == "" || filter == status)
                        then [AfterDecision(was.value, status, reviewer, now)] else []) + older,
               if limit <= 0 then 100 else limit)
    ensures (forall c :: c in newer ==> c.id > id) && (forall c :: c in older ==> c.id < id)
  {
    var stamp := Format(UTC(now));
    var before, row, after := DecidedAround(rows, tenant, id, status, reviewer, stamp);
    var decided := row.(status := status, decidedAt := Some(stamp), decidedBy := Some(reviewer));
    newer := Reversed(Pick(MatchesStatus(t, filter), Scanned, after));
    older := Reversed(Pick(MatchesStatus(t, filter), Scanned, before));
    ListedAround(before, row, after, t, filter, limit);
    ListedAround(before, decided, after, t, filter, limit);
    DecisionReadsBack(row, status, reviewer, now);
    IdsInRange(before, t, filter, 0, id - 1);
    IdsInRange(after, t, filter, id + 1, |rows|);
  }
}
