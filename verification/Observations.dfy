/** What a tenant can read is the same in its own part of the stores, up to the renaming of ids. */
module Observations {
  import Audit
  import Review
  import opened Erasure
  import opened Service
  import opened Tables
  import opened Watchlist
  import opened Wrappers

  /** The local copy of row i matches alike and answers the relabelled answer. */
  ghost predicate RelabelsAt<T, U>(own: T -> bool, number: (T, nat) -> T, p: T -> bool, f: T -> U, relabel: U -> U,
      rows: seq<T>, i: nat)
    requires i < |rows|
  {
    var copy := number(rows[i], CountIf(own, rows[..i + 1]));
    && (p(rows[i]) ==> own(rows[i]) && f(copy) == relabel(f(rows[i])))
    && (own(rows[i]) ==> p(copy) == p(rows[i]))
  }

  lemma {:induction false} RelabelOne<T, U>(own: T -> bool, number: (T, nat) -> T, p: T -> bool, f: T -> U,
      relabel: U -> U, rows: seq<T>, row: T)
    requires RelabelsAt(own, number, p, f, relabel, rows + [row], |rows|)
    requires Pick(p, f, Local(own, number, rows)) == Mapped(relabel, Pick(p, f, rows))
    ensures Pick(p, f, Local(own, number, rows + [row])) == Mapped(relabel, Pick(p, f, rows + [row]))
  {
    var earlier := Local(own, number, rows);
    LocalAppend(own, number, rows, row);
    PickAppend(p, f, rows, row);
    PickAppend(p, f, earlier, number(row, |earlier| + 1));
    CountAppend(own, rows, row);
    assert (rows + [row])[..|rows| + 1] == rows + [row];
  }

  /** Answers that differ row by row only by relabelling differ only by relabelling. */
  lemma {:induction false} PickRelabels<T, U>(own: T -> bool, number: (T, nat) -> T, p: T -> bool, f: T -> U,
      relabel: U -> U, rows: seq<T>)
    requires forall i {:trigger RelabelsAt(own, number, p, f, relabel, rows, i)} ::
      0 <= i < |rows| ==> RelabelsAt(own, number, p, f, relabel, rows, i)
    ensures Pick(p, f, Local(own, number, rows)) == Mapped(relabel, Pick(p, f, rows))
    decreases |rows|
  {
    if |rows| > 0 {
      var n := |rows| - 1;
      var rest := rows[..n];
      assert rest + [rows[n]] == rows;
      forall i | 0 <= i < n ensures RelabelsAt(own, number, p, f, relabel, rest, i) {
        assert RelabelsAt(own, number, p, f, relabel, rows, i);
        assert rest[..i + 1] == rows[..i + 1];
      }
      PickRelabels(own, number, p, f, relabel, rest);
      assert RelabelsAt(own, number, p, f, relabel, rows, n);
      RelabelOne(own, number, p, f, relabel, rest, rows[n]);
    }
  }

  lemma MappedPage<U>(relabel: U -> U, s: seq<U>, n: nat)
    ensures First(Reversed(Mapped(relabel, s)), n) == Mapped(relabel, First(Reversed(s), n))
  {
    assert Reversed(Mapped(relabel, s)) == Mapped(relabel, Reversed(s));
  }

  /** A count of owned rows that ignores their numbers. */
  lemma {:induction false} CountLocal<T(!new)>(own: T -> bool, number: (T, nat) -> T, p: T -> bool, rows: seq<T>)
    requires (forall row :: p(row) ==> own(row)) && Blind(own, number, p, (row: T) => true)
    ensures CountIf(p, Local(own, number, rows)) == CountIf(p, rows)
  {
    PickLocal(own, number, p, (row: T) => true, rows);
    CountIsPick(p, (row: T) => true, rows);
    CountIsPick(p, (row: T) => true, Local(own, number, rows));
  }

  /** An owned row further on has a higher number. */
  lemma {:induction false} CountsApart<T>(own: T -> bool, rows: seq<T>, id: nat, other: nat)
    requires id < other <= |rows| && own(rows[other - 1])
    ensures CountIf(own, rows[..id]) < CountIf(own, rows[..other])
  {
    CountGrows(own, rows, id, other - 1);
    assert rows[..other][..other - 1] == rows[..other - 1];
  }

  /** Names keep the order of ids. */
  lemma {:induction false} NamesKeepOrder(cases: seq<Review.CaseRow>, tenant: string, id: int, other: int)
    requires 1 <= id < other <= |cases| && cases[id - 1].tenant == tenant && cases[other - 1].tenant == tenant
    ensures 0 < CaseName(cases, tenant, id) < CaseName(cases, tenant, other) <= |LocalCases(cases, tenant)|
  {
    LocalAt(OwnCase(tenant), NumberCase(), cases, id - 1);
    LocalAt(OwnCase(tenant), NumberCase(), cases, other - 1);
    CountsApart(OwnCase(tenant), cases, id, other);
  }

  lemma {:induction false} EventNamesKeepOrder(log: seq<Audit.EventRow>, cases: seq<Review.CaseRow>, tenant: string,
      id: int, other: int)
    requires 1 <= id < other <= |log| && log[id - 1].tenant == tenant && log[other - 1].tenant == tenant
    ensures 0 < EventName(log, tenant, id) < EventName(log, tenant, other) <= |LocalLog(log, cases, tenant)|
  {
    LocalAt(OwnEvent(tenant), NumberEvent(cases, tenant), log, id - 1);
    LocalAt(OwnEvent(tenant), NumberEvent(cases, tenant), log, other - 1);
    CountsApart(OwnEvent(tenant), log, id, other);
  }

  // ----- Watchlists -----

  ghost function Unnumbered(e: Entry): Entry {
    e.(id := 0)
  }

  /** The next version of each list, the names with their versions, and the active entries apart
      from their row ids. */
  lemma {:induction false} SameWatchlists(s: State, tenant: string, list: string)
    ensures MaxVersion(LocalLists(s.lists, tenant), tenant, list) == MaxVersion(s.lists, tenant, list)
    ensures Grouped(LocalLists(s.lists, tenant), tenant) == Grouped(s.lists, tenant)
    ensures Pick(IsActive(tenant), Unnumbered, LocalLists(s.lists, tenant))
      == Pick(IsActive(tenant), Unnumbered, s.lists)
  {
    MaxVersionLocal(s.lists, tenant, list);
    PickLocal(OwnEntry(tenant), NumberEntry(), IsActive(tenant), Unnumbered, s.lists);
    var local := LocalLists(s.lists, tenant);
    forall name ensures name in ListsOf(local, tenant) <==> name in ListsOf(s.lists, tenant) {
      ListStays(s.lists, tenant, name);
    }
    forall name ensures MaxVersion(local, tenant, name) == MaxVersion(s.lists, tenant, name) {
      MaxVersionLocal(s.lists, tenant, name);
    }
  }

  lemma {:induction false} ListStays(lists: seq<Entry>, tenant: string, name: string)
    ensures name in ListsOf(LocalLists(lists, tenant), tenant) <==> name in ListsOf(lists, tenant)
    decreases |lists|
  {
    if |lists| > 0 {
      var n := |lists| - 1;
      ListStays(lists[..n], tenant, name);
      assert lists == lists[..n] + [lists[n]];
      ListsOfAppend(lists[..n], lists[n], tenant, name);
      if lists[n].tenant == tenant {
        var earlier := LocalLists(lists[..n], tenant);
        ListsOfAppend(earlier, lists[n].(id := |earlier| + 1), tenant, name);
      }
    }
  }

  lemma ListsOfAppend(lists: seq<Entry>, e: Entry, tenant: string, name: string)
    ensures name in ListsOf(lists + [e], tenant) <==>
      name in ListsOf(lists, tenant) || (e.tenant == tenant && e.list == name)
  {
    if e.tenant == tenant && e.list == name {
      assert e in lists + [e];
    }
    if name in ListsOf(lists, tenant) {
      var x :| x in lists && x.tenant == tenant && x.list == name;
      assert x in lists + [e];
    }
  }

  // ----- Cases -----

  ghost function CaseRenamer(cases: seq<Review.CaseRow>, tenant: string): Review.Case -> Review.Case {
    (c: Review.Case) => c.(id := CaseName(cases, tenant, c.id))
  }

  lemma ScannedCase(row: Review.CaseRow, k: nat)
    ensures Review.Scanned(row.(id := k)) == Review.Scanned(row).(id := k)
  {
  }

  /** Every page of cases, and every single case. */
  lemma {:induction false} SameCases(s: State, tenant: string, status: string, limit: int, id: int)
    requires Owned(s)
    ensures Review.Listed(LocalCases(s.cases, tenant), tenant, status, limit)
      == Mapped(CaseRenamer(s.cases, tenant), Review.Listed(s.cases, tenant, status, limit))
    ensures Review.Found(LocalCases(s.cases, tenant), tenant, CaseName(s.cases, tenant, id)) ==
      var found := Review.Found(s.cases, tenant, id);
      if found.Some? then Some(CaseRenamer(s.cases, tenant)(found.value)) else None
  {
    CasePages(s.cases, tenant, status, limit);
    CaseByName(s.cases, tenant, id);
  }

  lemma {:induction false} CasePages(cases: seq<Review.CaseRow>, tenant: string, status: string, limit: int)
    requires Review.Numbered(cases)
    ensures Review.Listed(LocalCases(cases, tenant), tenant, status, limit)
      == Mapped(CaseRenamer(cases, tenant), Review.Listed(cases, tenant, status, limit))
  {
    var p, relabel := Review.MatchesStatus(tenant, status), CaseRenamer(cases, tenant);
    forall i | 0 <= i < |cases|
      ensures RelabelsAt(OwnCase(tenant), NumberCase(), p, Review.Scanned, relabel, cases, i)
    {
      ScannedCase(cases[i], CountIf(OwnCase(tenant), cases[..i + 1]));
    }
    PickRelabels(OwnCase(tenant), NumberCase(), p, Review.Scanned, relabel, cases);
    MappedPage(relabel, Pick(p, Review.Scanned, cases), Limit(limit));
  }

  lemma {:induction false} CaseByName(cases: seq<Review.CaseRow>, tenant: string, id: int)
    requires Review.Numbered(cases)
    ensures var local, found := Review.Found(LocalCases(cases, tenant), tenant, CaseName(cases, tenant, id)),
                                Review.Found(cases, tenant, id);
      local == if found.Some? then Some(found.value.(id := CaseName(cases, tenant, id))) else None
    ensures Review.Found(cases, tenant, id).Some? ==> Review.Found(cases, tenant, id).value.id == id
  {
    LocalCasesNumbered(cases, tenant);
    Review.FoundByPosition(cases, tenant, id, 0);
    Review.FoundByPosition(LocalCases(cases, tenant), tenant, CaseName(cases, tenant, id), 0);
    if 1 <= id <= |cases| && cases[id - 1].tenant == tenant {
      LocalAt(OwnCase(tenant), NumberCase(), cases, id - 1);
      ScannedCase(cases[id - 1], CaseName(cases, tenant, id));
    }
  }

  // ----- Audit events -----

  ghost function EventRenamer(log: seq<Audit.EventRow>, cases: seq<Review.CaseRow>,
      tenant: string): Audit.Event -> Audit.Event {
    (e: Audit.Event) => e.(id := EventName(log, tenant, e.id), payload := RenamedPayload(cases, tenant, e.payload))
  }

  /** Every page of audit events, and both counts. */
  lemma {:induction false} SameEvents(s: State, tenant: string, request: string, kind: string, limit: int,
      since: string)
    requires Owned(s) && tenant != ""
    ensures Audit.Queried(LocalLog(s.log, s.cases, tenant), tenant, request, kind, limit)
      == Mapped(EventRenamer(s.log, s.cases, tenant), Audit.Queried(s.log, tenant, request, kind, limit))
    ensures CountIf(Audit.Matches(tenant, "", ""), LocalLog(s.log, s.cases, tenant))
      == CountIf(Audit.Matches(tenant, "", ""), s.log)
    ensures CountIf(Audit.Since(tenant, kind, since), LocalLog(s.log, s.cases, tenant))
      == CountIf(Audit.Since(tenant, kind, since), s.log)
  {
    EventPages(s.log, s.cases, tenant, request, kind, limit);
    CountLocal(OwnEvent(tenant), NumberEvent(s.cases, tenant), Audit.Matches(tenant, "", ""), s.log);
    CountLocal(OwnEvent(tenant), NumberEvent(s.cases, tenant), Audit.Since(tenant, kind, since), s.log);
  }

  lemma ScannedEvent(row: Audit.EventRow, k: nat, payload: Audit.Payload)
    ensures Audit.Scanned(row.(id := k, payload := payload)) == Audit.Scanned(row).(id := k, payload := payload)
  {
  }

  lemma {:induction false} EventPages(log: seq<Audit.EventRow>, cases: seq<Review.CaseRow>, tenant: string,
      request: string, kind: string, limit: int)
    requires LogNumbered(log) && tenant != ""
    ensures Audit.Queried(LocalLog(log, cases, tenant), tenant, request, kind, limit)
      == Mapped(EventRenamer(log, cases, tenant), Audit.Queried(log, tenant, request, kind, limit))
  {
    var p, relabel := Audit.Matches(tenant, request, kind), EventRenamer(log, cases, tenant);
    forall i | 0 <= i < |log|
      ensures RelabelsAt(OwnEvent(tenant), NumberEvent(cases, tenant), p, Audit.Scanned, relabel, log, i)
    {
      ScannedEvent(log[i], CountIf(OwnEvent(tenant), log[..i + 1]), RenamedPayload(cases, tenant, log[i].payload));
    }
    PickRelabels(OwnEvent(tenant), NumberEvent(cases, tenant), p, Audit.Scanned, relabel, log);
    MappedPage(relabel, Pick(p, Audit.Scanned, log), Limit(limit));
  }

  // ----- The theorem -----

  /** For every interleaved run and every tenant: had all other tenants' requests never been made,
      the tenant would read the same versions, list names and active entries, the same single cases
      and pages of cases and events, and the same counts, its cases and events renamed in order. */
  lemma {:induction false} TenantsAreIsolated(env: Env, actions: seq<Action>, tenant: string,
      list: string, status: string, id: int, request: string, kind: string, since: string, limit: int, all: State,
      alone: State)
    requires tenant != "" && all == Run(env, actions) && alone == Run(env, LocalActions(env, actions, tenant))
    ensures MaxVersion(alone.lists, tenant, list) == MaxVersion(all.lists, tenant, list)
    ensures Grouped(alone.lists, tenant) == Grouped(all.lists, tenant)
    ensures Pick(IsActive(tenant), Unnumbered, alone.lists) == Pick(IsActive(tenant), Unnumbered, all.lists)
    ensures Review.Listed(alone.cases, tenant, status, limit)
      == Mapped(CaseRenamer(all.cases, tenant), Review.Listed(all.cases, tenant, status, limit))
    ensures Review.Found(alone.cases, tenant, CaseName(all.cases, tenant, id)) ==
      var found := Review.Found(all.cases, tenant, id);
      if found.Some? then Some(CaseRenamer(all.cases, tenant)(found.value)) else None
    ensures Audit.Queried(alone.log, tenant, request, kind, limit)
      == Mapped(EventRenamer(all.log, all.cases, tenant), Audit.Queried(all.log, tenant, request, kind, limit))
    ensures CountIf(Audit.Matches(tenant, "", ""), alone.log) == CountIf(Audit.Matches(tenant, "", ""), all.log)
    ensures CountIf(Audit.Since(tenant, kind, since), alone.log) == CountIf(Audit.Since(tenant, kind, since), all.log)
  {
    OthersCanBeErased(env, actions, tenant);
    RunsOwn(env, actions);
    SameWatchlists(all, tenant, list);
    SameCases(all, tenant, status, limit, id);
    SameEvents(all, tenant, request, kind, limit, since);
  }
}
