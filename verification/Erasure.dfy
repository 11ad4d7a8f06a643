/** Tenant isolation over all stores: what a tenant sees is what it would see if no other tenant
    had ever made a request, up to an order-preserving renaming of ids. */
module Erasure {
  import Audit
  import Review
  import opened Csv
  import opened Service
  import opened Tables
  import opened Watchlist
  import opened Wrappers

  // ----- One tenant's part of a table -----

  /** The rows of one owner, numbered anew. */
  ghost function Local<T>(own: T -> bool, number: (T, nat) -> T, rows: seq<T>): (r: seq<T>)
    ensures |r| == CountIf(own, rows)
  {
    if |rows| == 0 then [] else
      var n := |rows| - 1;
      var earlier := Local(own, number, rows[..n]);
      if own(rows[n]) then earlier + [number(rows[n], |earlier| + 1)] else earlier
  }

  lemma LocalAppend<T>(own: T -> bool, number: (T, nat) -> T, rows: seq<T>, row: T)
    ensures Local(own, number, rows + [row]) ==
      Local(own, number, rows) + if own(row) then [number(row, |Local(own, number, rows)| + 1)] else []
  {
    assert (rows + [row])[..|rows|] == rows;
  }

  /** Row i of the owner is its row number CountIf(own, rows[..i + 1]). */
  lemma {:induction false} LocalAt<T>(own: T -> bool, number: (T, nat) -> T, rows: seq<T>, i: nat)
    requires i < |rows| && own(rows[i])
    ensures var k := CountIf(own, rows[..i + 1]);
      0 < k <= |Local(own, number, rows)| && Local(own, number, rows)[k - 1] == number(rows[i], k)
    decreases |rows|
  {
    var n := |rows| - 1;
    if i < n {
      LocalAt(own, number, rows[..n], i);
      assert rows[..n][..i + 1] == rows[..i + 1];
    } else {
      assert rows[..i + 1] == rows;
    }
  }

  lemma {:induction false} CountGrows<T>(own: T -> bool, rows: seq<T>, m: nat, n: nat)
    requires m <= n <= |rows|
    ensures CountIf(own, rows[..m]) <= CountIf(own, rows[..n])
    decreases n
  {
    if m < n {
      CountGrows(own, rows, m, n - 1);
      assert rows[..n][..n - 1] == rows[..n - 1];
    }
  }

  /** Changing another owner's row goes unnoticed. */
  lemma {:induction false} LocalIgnores<T>(own: T -> bool, number: (T, nat) -> T, xs: seq<T>, ys: seq<T>)
    requires |xs| == |ys|
    requires forall i :: 0 <= i < |xs| ==> own(xs[i]) == own(ys[i]) && (own(xs[i]) ==> xs[i] == ys[i])
    ensures Local(own, number, xs) == Local(own, number, ys)
    decreases |xs|
  {
    if |xs| > 0 {
      LocalIgnores(own, number, xs[..|xs| - 1], ys[..|ys| - 1]);
    }
  }

  /** Changing an owned row changes its local copy and no other. */
  lemma {:induction false} LocalUpdate<T>(own: T -> bool, number: (T, nat) -> T, rows: seq<T>, i: nat, row: T, k: nat)
    requires i < |rows| && own(row) && own(rows[i]) && k == CountIf(own, rows[..i + 1])
    ensures 0 < k <= |Local(own, number, rows)|
    ensures Local(own, number, rows[i := row]) == Local(own, number, rows)[k - 1 := number(row, k)]
    decreases |rows|
  {
    var n := |rows| - 1;
    var rest := rows[..n];
    LocalAt(own, number, rows, i);
    assert rows == rest + [rows[n]];
    if i < n {
      assert rest[..i + 1] == rows[..i + 1];
      LocalUpdate(own, number, rest, i, row, k);
      UpdateBeforeLast(own, number, rest, i, row, k, rows[n]);
    } else {
      assert rows[..i + 1] == rows && rows[i := row] == rest + [row];
      LocalAppend(own, number, rest, row);
      LocalAppend(own, number, rest, rows[n]);
    }
  }

  /** One more row after the changed one. */
  lemma {:induction false} UpdateBeforeLast<T>(own: T -> bool, number: (T, nat) -> T, rest: seq<T>, i: nat, row: T,
      k: nat, last: T)
    requires i < |rest| && 0 < k <= |Local(own, number, rest)|
    requires Local(own, number, rest[i := row]) == Local(own, number, rest)[k - 1 := number(row, k)]
    ensures k <= |Local(own, number, rest + [last])|
    ensures Local(own, number, (rest + [last])[i := row]) == Local(own, number, rest + [last])[k - 1 := number(row, k)]
  {
    LocalAppend(own, number, rest, last);
    LocalAppend(own, number, rest[i := row], last);
    assert (rest + [last])[i := row] == rest[i := row] + [last];
  }

  /** The predicate and the answer of a query do not look at the numbers of owned rows. */
  ghost predicate Blind<T(!new), U>(own: T -> bool, number: (T, nat) -> T, p: T -> bool, f: T -> U) {
    forall row, k: nat :: own(row) ==> p(number(row, k)) == p(row) && f(number(row, k)) == f(row)
  }

  /** A query for owned rows that ignores their numbers answers alike on the local part. */
  lemma {:induction false} PickLocal<T(!new), U>(own: T -> bool, number: (T, nat) -> T, p: T -> bool, f: T -> U,
      rows: seq<T>)
    requires (forall row :: p(row) ==> own(row)) && Blind(own, number, p, f)
    ensures Pick(p, f, Local(own, number, rows)) == Pick(p, f, rows)
    decreases |rows|
  {
    if |rows| > 0 {
      var n := |rows| - 1;
      PickLocal(own, number, p, f, rows[..n]);
      if own(rows[n]) {
        var earlier := Local(own, number, rows[..n]);
        PickAppend(p, f, earlier, number(rows[n], |earlier| + 1));
      }
    }
  }

  // ----- One tenant's part of the stores -----

  ghost function OwnEntry(tenant: string): Entry -> bool {
    (e: Entry) => e.tenant == tenant
  }

  ghost function OwnCase(tenant: string): Review.CaseRow -> bool {
    (row: Review.CaseRow) => row.tenant == tenant
  }

  ghost function OwnEvent(tenant: string): Audit.EventRow -> bool {
    (row: Audit.EventRow) => row.tenant == tenant
  }

  ghost function NumberEntry(): (Entry, nat) -> Entry {
    (e: Entry, k: nat) => e.(id := k)
  }

  ghost function NumberCase(): (Review.CaseRow, nat) -> Review.CaseRow {
    (row: Review.CaseRow, k: nat) => row.(id := k)
  }

  /** The number a tenant's own case has among the tenant's cases; any other positive id becomes
      one that is not in use there. */
  ghost function CaseName(cases: seq<Review.CaseRow>, tenant: string, id: int): int {
    if id <= 0 then id
    else if id <= |cases| && cases[id - 1].tenant == tenant then CountIf(OwnCase(tenant), cases[..id])
    else CountIf(OwnCase(tenant), cases) + 1
  }

  /** The number of a tenant's own event among the tenant's events. */
  ghost function EventName(log: seq<Audit.EventRow>, tenant: string, id: int): nat {
    if 1 <= id <= |log| then CountIf(OwnEvent(tenant), log[..id]) else 0
  }

  /** An event's payload with the case it mentions renamed. */
  ghost function RenamedPayload(cases: seq<Review.CaseRow>, tenant: string, payload: Audit.Payload): Audit.Payload {
    if payload.Decision? then payload.(caseId := CaseName(cases, tenant, payload.caseId)) else payload
  }

  ghost function NumberEvent(cases: seq<Review.CaseRow>, tenant: string): (Audit.EventRow, nat) -> Audit.EventRow {
    (row: Audit.EventRow, k: nat) => row.(id := k, payload := RenamedPayload(cases, tenant, row.payload))
  }

  ghost function LocalLists(lists: seq<Entry>, tenant: string): seq<Entry> {
    Local(OwnEntry(tenant), NumberEntry(), lists)
  }

  ghost function LocalCases(cases: seq<Review.CaseRow>, tenant: string): seq<Review.CaseRow> {
    Local(OwnCase(tenant), NumberCase(), cases)
  }

  ghost function LocalLog(log: seq<Audit.EventRow>, cases: seq<Review.CaseRow>, tenant: string): seq<Audit.EventRow> {
    Local(OwnEvent(tenant), NumberEvent(cases, tenant), log)
  }

  ghost function LocalEvent(s: State, tenant: string, event: Option<int>): Option<int> {
    if event.Some? then Some(EventName(s.log, tenant, event.value)) else None
  }

  ghost function LocalFiled(s: State, tenant: string, filed: seq<Option<int>>): (r: seq<Option<int>>)
    ensures |r| == |filed|
  {
    seq(|filed|, j requires 0 <= j < |filed| =>
      if filed[j].Some? then Some(CaseName(s.cases, tenant, filed[j].value)) else None)
  }

  ghost function LocalProc(s: State, tenant: string, p: Proc): Proc {
    match p
    case Deciding(id, decision, reviewer) => Deciding(CaseName(s.cases, tenant, id), decision, reviewer)
    case Decided(id, decision, reviewer, event) =>
      Decided(CaseName(s.cases, tenant, id), decision, reviewer, LocalEvent(s, tenant, event))
    case Auditing(_, _) => p
    case Filing(query, result, next, event, filed) =>
      Filing(query, result, next, LocalEvent(s, tenant, event), LocalFiled(s, tenant, filed))
  }

  ghost function LocalProcs(s: State, tenant: string): map<Pid, Proc> {
    map pid | pid in s.procs && pid.tenant == tenant :: LocalProc(s, tenant, s.procs[pid])
  }

  /** What is left of the stores and handlers when every other tenant is taken out. */
  ghost function LocalState(s: State, tenant: string): State {
    State(LocalLists(s.lists, tenant), LocalCases(s.cases, tenant), LocalLog(s.log, s.cases, tenant),
          LocalProcs(s, tenant))
  }

  /** A question as the tenant would put it alone. */
  ghost function LocalQuestion(s: State, tenant: string, question: Question): Question {
    if question.GetCase? then GetCase(CaseName(s.cases, tenant, question.id)) else question
  }

  /** The same request with the case it names renamed as of the state it meets. */
  ghost function LocalAction(s: State, a: Action): Action {
    match a.op
    case Decide(n, id, decision, header) => a.(op := Decide(n, CaseName(s.cases, a.tenant, id), decision, header))
    case Ask(question) => a.(op := Ask(LocalQuestion(s, a.tenant, question)))
    case _ => a
  }

  /** A tenant's own requests out of a run of everyone's. */
  ghost function LocalActions(env: Env, actions: seq<Action>, tenant: string): seq<Action> {
    if |actions| == 0 then [] else
      var n := |actions| - 1;
      LocalActions(env, actions[..n], tenant)
        + if actions[n].tenant == tenant then [LocalAction(Run(env, actions[..n]), actions[n])] else []
  }

  // ----- Ids that are in use -----

  /** Owned ids name owned rows, so that their names never change. */
  ghost predicate ProcOwns(s: State, pid: Pid, p: Proc) {
    match p
    case Deciding(id, _, _) => 1 <= id <= |s.cases| && s.cases[id - 1].tenant == pid.tenant
    case Decided(id, _, _, event) =>
      1 <= id <= |s.cases| && s.cases[id - 1].tenant == pid.tenant && (event.Some? ==> 1 <= event.value <= |s.log|)
    case Auditing(_, _) => true
    case Filing(_, _, _, event, filed) =>
      && (event.Some? ==> 1 <= event.value <= |s.log|)
      && forall j :: 0 <= j < |filed| && filed[j].Some? ==>
           1 <= filed[j].value <= |s.cases| && s.cases[filed[j].value - 1].tenant == pid.tenant
  }

  ghost predicate EventOwns(s: State, row: Audit.EventRow) {
    row.payload.Decision? ==>
      1 <= row.payload.caseId <= |s.cases| && s.cases[row.payload.caseId - 1].tenant == row.tenant
  }

  ghost predicate LogNumbered(log: seq<Audit.EventRow>) {
    forall i :: 0 <= i < |log| ==> log[i].id == i + 1
  }

  ghost predicate Owned(s: State) {
    && Review.Numbered(s.cases) && LogNumbered(s.log)
    && (forall pid :: pid in s.procs ==> ProcOwns(s, pid, s.procs[pid]))
    && (forall i :: 0 <= i < |s.log| ==> EventOwns(s, s.log[i]))
  }

  /** Case rows keep their place and tenant, and the log only grows. */
  ghost predicate Extends(s: State, after: State) {
    && |s.cases| <= |after.cases|
    && (forall i :: 0 <= i < |s.cases| ==> after.cases[i].tenant == s.cases[i].tenant)
    && s.log <= after.log
  }

  lemma {:induction false} NamesStable(s: State, after: State, tenant: string, id: int)
    requires Extends(s, after) && 1 <= id <= |s.cases| && s.cases[id - 1].tenant == tenant
    ensures CaseName(after.cases, tenant, id) == CaseName(s.cases, tenant, id)
  {
    CountAgrees(OwnCase(tenant), s.cases[..id], after.cases[..id]);
  }

  lemma {:induction false} ProcsStable(s: State, after: State, pid: Pid, p: Proc)
    requires Extends(s, after) && ProcOwns(s, pid, p)
    ensures ProcOwns(after, pid, p) && LocalProc(after, pid.tenant, p) == LocalProc(s, pid.tenant, p)
  {
    if p.Deciding? || p.Decided? {
      NamesStable(s, after, pid.tenant, p.id);
    }
    if (p.Decided? || p.Filing?) && p.event.Some? {
      assert after.log[..p.event.value] == s.log[..p.event.value];
    }
    if p.Filing? {
      forall j | 0 <= j < |p.filed| && p.filed[j].Some?
        ensures CaseName(after.cases, pid.tenant, p.filed[j].value) == CaseName(s.cases, pid.tenant, p.filed[j].value)
      {
        NamesStable(s, after, pid.tenant, p.filed[j].value);
      }
      assert LocalFiled(after, pid.tenant, p.filed) == LocalFiled(s, pid.tenant, p.filed);
    }
  }

  /** The local log does not notice case rows being added or decided. */
  lemma {:induction false} LogStable(s: State, after: State, tenant: string, log: seq<Audit.EventRow>)
    requires Extends(s, after) && forall i :: 0 <= i < |log| ==> EventOwns(s, log[i])
    ensures LocalLog(log, after.cases, tenant) == LocalLog(log, s.cases, tenant)
    decreases |log|
  {
    if |log| > 0 {
      var row := log[|log| - 1];
      LogStable(s, after, tenant, log[..|log| - 1]);
      if row.tenant == tenant && row.payload.Decision? {
        NamesStable(s, after, tenant, row.payload.caseId);
      }
    }
  }

  /** Replacing one handler's entry. */
  lemma {:induction false} ProcsAfter(s: State, after: State, pid: Pid, p: Proc, tenant: string)
    requires Owned(s) && Extends(s, after) && after.procs == s.procs[pid := p]
    ensures LocalProcs(after, tenant) ==
      if pid.tenant == tenant then LocalProcs(s, tenant)[pid := LocalProc(after, tenant, p)] else LocalProcs(s, tenant)
  {
    forall q | q in s.procs && q != pid && q.tenant == tenant
      ensures LocalProc(after, tenant, s.procs[q]) == LocalProc(s, tenant, s.procs[q])
    {
      ProcsStable(s, after, q, s.procs[q]);
    }
  }

  // ----- Uploads -----

  lemma {:induction false} MaxVersionLocal(lists: seq<Entry>, tenant: string, list: string)
    ensures MaxVersion(LocalLists(lists, tenant), tenant, list) == MaxVersion(lists, tenant, list)
    decreases |lists|
  {
    if |lists| > 0 {
      var n := |lists| - 1;
      MaxVersionLocal(lists[..n], tenant, list);
      if lists[n].tenant == tenant {
        var earlier := LocalLists(lists[..n], tenant);
        assert LocalLists(lists, tenant)[..|earlier|] == earlier;
      }
    }
  }

  lemma {:induction false} DeactivatedLocal(lists: seq<Entry>, tenant: string, list: string)
    ensures LocalLists(Deactivated(lists, tenant, list), tenant) == Deactivated(LocalLists(lists, tenant), tenant, list)
    decreases |lists|
  {
    if |lists| > 0 {
      var n := |lists| - 1;
      DeactivatedLocal(lists[..n], tenant, list);
      assert Deactivated(lists, tenant, list)[..n] == Deactivated(lists[..n], tenant, list);
    }
  }

  /** One INSERT. */
  lemma {:induction false} InsertLocal(lists: seq<Entry>, e: Entry, tenant: string)
    ensures LocalLists(Inserted(lists, e), tenant) ==
      if e.tenant == tenant then Inserted(LocalLists(lists, tenant), e) else LocalLists(lists, tenant)
  {
    LocalAppend(OwnEntry(tenant), NumberEntry(), lists, e.(id := |lists| + 1));
  }

  lemma {:induction false} InsertedLocal(lists: seq<Entry>, entries: seq<Entry>, whose: string, list: string,
      version: int, tenant: string)
    ensures LocalLists(InsertedAll(lists, entries, whose, list, version), tenant) ==
      if whose == tenant then InsertedAll(LocalLists(lists, tenant), entries, whose, list, version)
      else LocalLists(lists, tenant)
    decreases |entries|
  {
    if |entries| > 0 {
      var n := |entries| - 1;
      InsertedLocal(lists, entries[..n], whose, list, version, tenant);
      InsertLocal(InsertedAll(lists, entries[..n], whose, list, version), Stamped(entries[n], whose, list, version),
                  tenant);
    }
  }

  /** An upload is seen by its own tenant as if it were alone, and by nobody else. */
  lemma {:induction false} UploadLocal(lists: seq<Entry>, entries: seq<Entry>, whose: string, list: string,
      tenant: string)
    ensures LocalLists(Uploaded(lists, whose, list, entries), tenant) ==
      if whose == tenant then Uploaded(LocalLists(lists, tenant), whose, list, entries) else LocalLists(lists, tenant)
  {
    InsertedLocal(Deactivated(lists, whose, list), entries, whose, list, MaxVersion(lists, whose, list) + 1, tenant);
    if whose == tenant {
      MaxVersionLocal(lists, tenant, list);
      DeactivatedLocal(lists, tenant, list);
    } else {
      DeactivatedUnseen(lists, whose, list, tenant);
    }
  }

  lemma {:induction false} DeactivatedUnseen(lists: seq<Entry>, whose: string, list: string, tenant: string)
    requires whose != tenant
    ensures LocalLists(Deactivated(lists, whose, list), tenant) == LocalLists(lists, tenant)
  {
    LocalIgnores(OwnEntry(tenant), NumberEntry(), lists, Deactivated(lists, whose, list));
  }

  /** What a tenant's screening is given does not depend on other tenants. */
  lemma {:induction false} SuspectsLocal(lists: seq<Entry>, tenant: string)
    ensures Suspects(LocalLists(lists, tenant), tenant) == Suspects(lists, tenant)
  {
    PickLocal(OwnEntry(tenant), NumberEntry(), IsActive(tenant), SuspectOf, lists);
  }

  // ----- Decisions -----

  lemma {:induction false} LocalCasesNumbered(cases: seq<Review.CaseRow>, tenant: string)
    ensures Review.Numbered(LocalCases(cases, tenant))
    decreases |cases|
  {
    if |cases| > 0 {
      LocalCasesNumbered(cases[..|cases| - 1], tenant);
    }
  }

  /** A decision by the tenant itself, under the case's local name. */
  lemma {:induction false} DecideLocal(cases: seq<Review.CaseRow>, tenant: string, id: int, decision: string,
      reviewer: string, stamp: string)
    requires Review.Numbered(cases)
    ensures var local, name := LocalCases(cases, tenant), CaseName(cases, tenant, id);
      && (Review.CanDecide(local, tenant, name) <==> Review.CanDecide(cases, tenant, id))
      && LocalCases(Review.Decided(cases, tenant, id, decision, reviewer, stamp), tenant)
        == Review.Decided(local, tenant, name, decision, reviewer, stamp)
  {
    var local, name := LocalCases(cases, tenant), CaseName(cases, tenant, id);
    CanDecideLocal(cases, tenant, id);
    LocalCasesNumbered(cases, tenant);
    Review.DecideIsCompareAndSet(cases, tenant, id, decision, reviewer, stamp);
    Review.DecideIsCompareAndSet(local, tenant, name, decision, reviewer, stamp);
    if Review.CanDecide(cases, tenant, id) {
      OwnDecision(cases, tenant, id, decision, reviewer, stamp);
    }
  }

  /** Deciding an owned row. */
  lemma {:induction false} OwnDecision(cases: seq<Review.CaseRow>, tenant: string, id: int, decision: string,
      reviewer: string, stamp: string)
    requires 1 <= id <= |cases| && cases[id - 1].tenant == tenant
    ensures var local, name := LocalCases(cases, tenant), CaseName(cases, tenant, id);
      && 1 <= name <= |local|
      && LocalCases(cases[id - 1 := cases[id - 1].(status := decision, decidedAt := Some(stamp),
                                                   decidedBy := Some(reviewer))], tenant)
         == local[name - 1 := local[name - 1].(status := decision, decidedAt := Some(stamp),
                                               decidedBy := Some(reviewer))]
  {
    var row := cases[id - 1].(status := decision, decidedAt := Some(stamp), decidedBy := Some(reviewer));
    LocalAt(OwnCase(tenant), NumberCase(), cases, id - 1);
    LocalUpdate(OwnCase(tenant), NumberCase(), cases, id - 1, row, CaseName(cases, tenant, id));
  }

  /** A tenant can decide the cases of its own part that it can decide on the shared table. */
  lemma {:induction false} CanDecideLocal(cases: seq<Review.CaseRow>, tenant: string, id: int)
    requires Review.Numbered(cases)
    ensures Review.CanDecide(LocalCases(cases, tenant), tenant, CaseName(cases, tenant, id))
      <==> Review.CanDecide(cases, tenant, id)
  {
    LocalCasesNumbered(cases, tenant);
    Review.CanDecideInPlace(cases, tenant, id);
    Review.CanDecideInPlace(LocalCases(cases, tenant), tenant, CaseName(cases, tenant, id));
    if 1 <= id <= |cases| && cases[id - 1].tenant == tenant {
      LocalAt(OwnCase(tenant), NumberCase(), cases, id - 1);
    }
  }

  lemma {:induction false} DecideUnseen(cases: seq<Review.CaseRow>, whose: string, id: int, decision: string,
      reviewer: string, stamp: string, tenant: string)
    requires whose != tenant
    ensures LocalCases(Review.Decided(cases, whose, id, decision, reviewer, stamp), tenant) == LocalCases(cases, tenant)
  {
    LocalIgnores(OwnCase(tenant), NumberCase(), cases, Review.Decided(cases, whose, id, decision, reviewer, stamp));
  }

  // ----- One step -----

  lemma StepExtends(env: Env, s: State, a: Action)
    ensures Extends(s, Step(env, s, a))
  {
  }

  lemma {:induction false} ExtensionOwns(s: State, after: State)
    requires Owned(s) && Extends(s, after)
    ensures forall pid :: pid in s.procs ==> ProcOwns(after, pid, s.procs[pid])
    ensures forall i :: 0 <= i < |s.log| ==> EventOwns(after, s.log[i])
  {
    forall pid | pid in s.procs ensures ProcOwns(after, pid, s.procs[pid]) {
      ProcsStable(s, after, pid, s.procs[pid]);
    }
  }

  /** A step that extends the tables keeps ownership if what it adds owns what it mentions. */
  lemma {:induction false} OwnsAfter(s: State, after: State, pid: Pid, p: Proc)
    requires Owned(s) && Extends(s, after) && Review.Numbered(after.cases) && LogNumbered(after.log)
    requires after.procs == s.procs || (after.procs == s.procs[pid := p] && ProcOwns(after, pid, p))
    requires forall i :: |s.log| <= i < |after.log| ==> EventOwns(after, after.log[i])
    ensures Owned(after)
  {
    ExtensionOwns(s, after);
    forall i | 0 <= i < |after.log| ensures EventOwns(after, after.log[i]) {
      if i < |s.log| {
        assert after.log[i] == s.log[i];
      }
    }
  }

  /** A filing handler owns one more case if it is the tenant's. */
  lemma FilingOwns(s: State, pid: Pid, p: Proc, made: Option<int>)
    requires p.Filing? && ProcOwns(s, pid, p)
    requires made.Some? ==> 1 <= made.value <= |s.cases| && s.cases[made.value - 1].tenant == pid.tenant
    ensures ProcOwns(s, pid, p.(next := p.next + 1))
    ensures ProcOwns(s, pid, p.(next := p.next + 1, filed := p.filed + [made]))
  {
    var filed := p.filed + [made];
    assert forall j :: 0 <= j < |p.filed| ==> filed[j] == p.filed[j];
  }

  lemma {:induction false} MovedOnOwns(s: State, pid: Pid, p: Proc, filed: seq<Option<int>>)
    requires Owned(s) && pid in s.procs && p.Filing? && ProcOwns(s, pid, p.(next := p.next + 1, filed := filed))
    ensures Owned(MovedOn(s, pid, p, filed))
  {
    OwnsAfter(s, MovedOn(s, pid, p, filed), pid, p.(next := p.next + 1, filed := filed));
  }

  lemma {:induction false} FiledCaseOwns(s: State, pid: Pid, p: Proc, c: Review.Case, stamp: string)
    requires Owned(s) && pid in s.procs && s.procs[pid] == p && p.Filing? && c.tenant == pid.tenant
    ensures Owned(FiledCase(s, pid, p, c, stamp))
  {
    var after := FiledCase(s, pid, p, c, stamp);
    assert Extends(s, after);
    ProcsStable(s, after, pid, p);
    FilingOwns(after, pid, p, Some(|s.cases| + 1));
    OwnsAfter(s, after, pid, p.(next := p.next + 1, filed := p.filed + [Some(|s.cases| + 1)]));
  }

  lemma {:induction false} FileOwns(env: Env, s: State, pid: Pid, ok: bool, stamp: string)
    requires Owned(s) && pid in s.procs && s.procs[pid].Filing?
    ensures Owned(DoFile(env, s, pid, s.procs[pid], ok, stamp))
  {
    var p := s.procs[pid];
    if p.next < |Todo(p.result)| {
      FilingOwns(s, pid, p, None);
      MovedOnOwns(s, pid, p, p.filed);
      MovedOnOwns(s, pid, p, p.filed + [None]);
      FiledCaseOwns(s, pid, p, CaseOf(env, pid.tenant, p.query, p.result.request, Todo(p.result)[p.next]), stamp);
    }
  }

  lemma {:induction false} DecideOwns(s: State, pid: Pid, id: int, decision: string, header: string, stamp: string)
    requires Owned(s)
    ensures Owned(DoDecide(s, pid, id, decision, header, stamp))
  {
    var after := DoDecide(s, pid, id, decision, header, stamp);
    Review.DecideIsCompareAndSet(s.cases, pid.tenant, id, decision, DecidedBy(header), stamp);
    OwnsAfter(s, after, pid, Deciding(id, decision, DecidedBy(header)));
  }

  lemma {:induction false} AppendOwns(s: State, pid: Pid, ok: bool, stamp: string)
    requires Owned(s) && pid in s.procs && (s.procs[pid].Deciding? || s.procs[pid].Auditing?)
    ensures Owned(if s.procs[pid].Deciding? then DoRecord(s, pid, s.procs[pid], ok, stamp)
                  else DoAudit(s, pid, s.procs[pid], ok, stamp))
  {
    var p := s.procs[pid];
    var after := if p.Deciding? then DoRecord(s, pid, p, ok, stamp) else DoAudit(s, pid, p, ok, stamp);
    OwnsAfter(s, after, pid, after.procs[pid]);
  }

  lemma {:induction false} StepOwns(env: Env, s: State, a: Action)
    requires Owned(s)
    ensures Owned(Step(env, s, a))
  {
    match a.op
    case Upload(_, _, _) => OwnsAfter(s, Step(env, s, a), Pid("", 0), Auditing("", Screening("", "", 0, [])));
    case Decide(n, id, decision, header) => DecideOwns(s, Pid(a.tenant, n), id, decision, header, a.stamp);
    case Screen(n, query, cascade, draw) =>
      var pid, after := Pid(a.tenant, n), Step(env, s, a);
      OwnsAfter(s, after, pid, if pid in after.procs then after.procs[pid] else Auditing("", Screening("", "", 0, [])));
    case Ask(_) =>
    case Advance(n) =>
      var pid := Pid(a.tenant, n);
      if pid in s.procs {
        match s.procs[pid]
        case Deciding(_, _, _) => AppendOwns(s, pid, a.ok, a.stamp);
        case Auditing(_, _) => AppendOwns(s, pid, a.ok, a.stamp);
        case Filing(_, _, _, _, _) => FileOwns(env, s, pid, a.ok, a.stamp);
        case Decided(_, _, _, _) =>
      }
  }

  lemma RecordedLocal(log: seq<Audit.EventRow>, cases: seq<Review.CaseRow>, e: Audit.Event, stamp: string,
      tenant: string)
    ensures LocalLog(Audit.Recorded(log, e, stamp), cases, tenant) ==
      if e.tenant == tenant
      then Audit.Recorded(LocalLog(log, cases, tenant), e.(payload := RenamedPayload(cases, tenant, e.payload)), stamp)
      else LocalLog(log, cases, tenant)
    ensures e.tenant == tenant ==>
      EventName(Audit.Recorded(log, e, stamp), tenant, |log| + 1) == |LocalLog(log, cases, tenant)| + 1
  {
    var row := Audit.EventRow(|log| + 1, e.tenant, e.request, Audit.KindOf(e), e.payload, stamp);
    LocalAppend(OwnEvent(tenant), NumberEvent(cases, tenant), log, row);
    CountAppend(OwnEvent(tenant), log, row);
    assert (log + [row])[..|log| + 1] == log + [row];
  }

  lemma CreatedLocal(cases: seq<Review.CaseRow>, c: Review.Case, stamp: string, tenant: string)
    ensures LocalCases(Review.Created(cases, c, stamp), tenant) ==
      if c.tenant == tenant then Review.Created(LocalCases(cases, tenant), c, stamp) else LocalCases(cases, tenant)
    ensures c.tenant == tenant ==>
      CaseName(Review.Created(cases, c, stamp), tenant, |cases| + 1) == |LocalCases(cases, tenant)| + 1
  {
    var row := Review.NewRow(|cases| + 1, c, stamp);
    LocalAppend(OwnCase(tenant), NumberCase(), cases, row);
    CountAppend(OwnCase(tenant), cases, row);
    assert (cases + [row])[..|cases| + 1] == cases + [row];
  }

  lemma {:induction false} UploadCommutes(s: State, whose: string, list: string, heading: seq<string>,
      data: seq<seq<string>>, tenant: string)
    requires Owned(s)
    ensures LocalState(DoUpload(s, whose, list, heading, data), tenant) ==
      if whose == tenant then DoUpload(LocalState(s, tenant), whose, list, heading, data) else LocalState(s, tenant)
  {
    var parsed, after := Parsed(heading, data), DoUpload(s, whose, list, heading, data);
    if ValidListName(list) && parsed.Ok? {
      UploadLocal(s.lists, parsed.value, whose, list, tenant);
    }
    forall pid | pid in s.procs
      ensures LocalProc(after, pid.tenant, s.procs[pid]) == LocalProc(s, pid.tenant, s.procs[pid])
    {
      ProcsStable(s, after, pid, s.procs[pid]);
    }
    assert LocalProcs(after, tenant) == LocalProcs(s, tenant);
  }

  /** A decision that is made. */
  lemma {:induction false} WonDecisionCommutes(s: State, pid: Pid, id: int, decision: string, header: string,
      stamp: string, tenant: string)
    requires Owned(s) && pid !in s.procs && id > 0 && IsDecision(decision) && Review.CanDecide(s.cases, pid.tenant, id)
    ensures LocalState(DoDecide(s, pid, id, decision, header, stamp), tenant) ==
      if pid.tenant == tenant
      then DoDecide(LocalState(s, tenant), pid, CaseName(s.cases, tenant, id), decision, header, stamp)
      else LocalState(s, tenant)
  {
    var reviewer, after := DecidedBy(header), DoDecide(s, pid, id, decision, header, stamp);
    DecideUnseenOrLocal(s.cases, pid.tenant, id, decision, reviewer, stamp, tenant);
    DecidedTables(s, pid, id, decision, reviewer, stamp, tenant);
    DecisionExtends(s, pid, id, decision, reviewer, stamp, after);
    ProcsAfter(s, after, pid, Deciding(id, decision, reviewer), tenant);
  }

  lemma {:induction false} DecisionExtends(s: State, pid: Pid, id: int, decision: string, reviewer: string,
      stamp: string, after: State)
    requires after.cases == Review.Decided(s.cases, pid.tenant, id, decision, reviewer, stamp) && after.log == s.log
    ensures Extends(s, after)
  {
  }

  /** A decision that is not made: no such case, or already decided. */
  lemma {:induction false} LostDecisionCommutes(s: State, pid: Pid, id: int, decision: string, header: string,
      stamp: string, tenant: string)
    requires Owned(s)
    requires pid in s.procs || id <= 0 || !IsDecision(decision) || !Review.CanDecide(s.cases, pid.tenant, id)
    ensures DoDecide(s, pid, id, decision, header, stamp) == s
    ensures pid.tenant == tenant ==>
      DoDecide(LocalState(s, tenant), pid, CaseName(s.cases, tenant, id), decision, header, stamp)
        == LocalState(s, tenant)
  {
    if pid.tenant == tenant {
      CanDecideLocal(s.cases, tenant, id);
    }
  }

  lemma {:induction false} DecideCommutes(s: State, pid: Pid, id: int, decision: string, header: string,
      stamp: string, tenant: string)
    requires Owned(s)
    ensures LocalState(DoDecide(s, pid, id, decision, header, stamp), tenant) ==
      if pid.tenant == tenant
      then DoDecide(LocalState(s, tenant), pid, CaseName(s.cases, tenant, id), decision, header, stamp)
      else LocalState(s, tenant)
  {
    if pid !in s.procs && id > 0 && IsDecision(decision) && Review.CanDecide(s.cases, pid.tenant, id) {
      WonDecisionCommutes(s, pid, id, decision, header, stamp, tenant);
    } else {
      LostDecisionCommutes(s, pid, id, decision, header, stamp, tenant);
    }
  }

  /** A decision changes no name and nothing in the local log. */
  lemma {:induction false} DecidedTables(s: State, pid: Pid, id: int, decision: string, reviewer: string,
      stamp: string, tenant: string)
    requires Owned(s) && Review.CanDecide(s.cases, pid.tenant, id)
    ensures var cases := Review.Decided(s.cases, pid.tenant, id, decision, reviewer, stamp);
      && LocalLog(s.log, cases, tenant) == LocalLog(s.log, s.cases, tenant)
      && CaseName(cases, pid.tenant, id) == CaseName(s.cases, pid.tenant, id) > 0
  {
    var after := s.(cases := Review.Decided(s.cases, pid.tenant, id, decision, reviewer, stamp));
    Review.DecideIsCompareAndSet(s.cases, pid.tenant, id, decision, reviewer, stamp);
    assert Extends(s, after);
    LogStable(s, after, tenant, s.log);
    NamesStable(s, after, pid.tenant, id);
    LocalAt(OwnCase(pid.tenant), NumberCase(), s.cases, id - 1);
  }

  lemma {:induction false} DecideUnseenOrLocal(cases: seq<Review.CaseRow>, whose: string, id: int, decision: string,
      reviewer: string, stamp: string, tenant: string)
    requires Review.Numbered(cases)
    ensures whose != tenant ==>
      LocalCases(Review.Decided(cases, whose, id, decision, reviewer, stamp), tenant) == LocalCases(cases, tenant)
    ensures whose == tenant ==>
      && (Review.CanDecide(LocalCases(cases, tenant), tenant, CaseName(cases, tenant, id))
          <==> Review.CanDecide(cases, tenant, id))
      && LocalCases(Review.Decided(cases, tenant, id, decision, reviewer, stamp), tenant)
        == Review.Decided(LocalCases(cases, tenant), tenant, CaseName(cases, tenant, id), decision, reviewer, stamp)
  {
    if whose == tenant {
      DecideLocal(cases, tenant, id, decision, reviewer, stamp);
    } else {
      DecideUnseen(cases, whose, id, decision, reviewer, stamp, tenant);
    }
  }

  lemma {:induction false} ScreenCommutes(env: Env, s: State, pid: Pid, query: Query, cascade: bool, draw: nat,
      tenant: string)
    requires Owned(s)
    ensures LocalState(DoScreen(env, s, pid, query, cascade, draw), tenant) ==
      if pid.tenant == tenant then DoScreen(env, LocalState(s, tenant), pid, query, cascade, draw)
      else LocalState(s, tenant)
  {
    var result := env.screen(query, pid.tenant, Suspects(s.lists, pid.tenant), cascade, draw);
    var after := DoScreen(env, s, pid, query, cascade, draw);
    SuspectsLocal(s.lists, tenant);
    if after != s {
      ProcsAfter(s, after, pid, Auditing(query.name, result.value), tenant);
    }
  }

  /** An audit append by one handler. */
  lemma {:induction false} AppendCommutes(s: State, pid: Pid, p: Proc, e: Audit.Event, stamp: string, tenant: string)
    requires Owned(s) && e.tenant == pid.tenant
    ensures var after, local := s.(log := Audit.Recorded(s.log, e, stamp), procs := s.procs[pid := p]),
                                LocalState(s, tenant);
      LocalState(after, tenant) ==
      if pid.tenant == tenant
      then local.(log := Audit.Recorded(local.log, e.(payload := RenamedPayload(s.cases, tenant, e.payload)), stamp),
                  procs := local.procs[pid := LocalProc(after, tenant, p)])
      else local
    ensures pid.tenant == tenant ==>
      EventName(Audit.Recorded(s.log, e, stamp), tenant, |s.log| + 1) == |LocalState(s, tenant).log| + 1
  {
    var after := s.(log := Audit.Recorded(s.log, e, stamp), procs := s.procs[pid := p]);
    RecordedLocal(s.log, s.cases, e, stamp, tenant);
    ProcsAfter(s, after, pid, p, tenant);
  }

  /** A failed append: only the handler moves. */
  lemma {:induction false} NoAppendCommutes(s: State, pid: Pid, p: Proc, tenant: string)
    requires Owned(s)
    ensures LocalState(s.(procs := s.procs[pid := p]), tenant) ==
      if pid.tenant == tenant
      then LocalState(s, tenant).(procs := LocalProcs(s, tenant)[pid := LocalProc(s, tenant, p)])
      else LocalState(s, tenant)
  {
    var after := s.(procs := s.procs[pid := p]);
    ProcsAfter(s, after, pid, p, tenant);
    SameTablesSameNames(s, after, tenant, p);
  }

  lemma {:induction false} RecordCommutes(s: State, pid: Pid, ok: bool, stamp: string, tenant: string)
    requires Owned(s) && pid in s.procs && s.procs[pid].Deciding?
    ensures LocalState(DoRecord(s, pid, s.procs[pid], ok, stamp), tenant) ==
      if pid.tenant == tenant
      then DoRecord(LocalState(s, tenant), pid, LocalProc(s, tenant, s.procs[pid]), ok, stamp)
      else LocalState(s, tenant)
  {
    var p := s.procs[pid];
    if ok {
      AppendCommutes(s, pid, Decided(p.id, p.decision, p.reviewer, Some(|s.log| + 1)),
                     DecisionEvent(pid.tenant, p.id, p.decision, p.reviewer), stamp, tenant);
    } else {
      NoAppendCommutes(s, pid, Decided(p.id, p.decision, p.reviewer, None), tenant);
    }
  }

  lemma {:induction false} AuditCommutes(s: State, pid: Pid, ok: bool, stamp: string, tenant: string)
    requires Owned(s) && pid in s.procs && s.procs[pid].Auditing?
    ensures LocalState(DoAudit(s, pid, s.procs[pid], ok, stamp), tenant) ==
      if pid.tenant == tenant then DoAudit(LocalState(s, tenant), pid, s.procs[pid], ok, stamp)
      else LocalState(s, tenant)
  {
    var p := s.procs[pid];
    if ok {
      AppendCommutes(s, pid, Filing(p.query, p.result, 0, Some(|s.log| + 1), []),
                     ScreeningEvent(pid.tenant, p.query, p.result), stamp, tenant);
    } else {
      NoAppendCommutes(s, pid, Filing(p.query, p.result, 0, None, []), tenant);
    }
    assert forall t :: LocalFiled(t, tenant, []) == [];
  }

  lemma LocalFiledGrows(s: State, tenant: string, filed: seq<Option<int>>, made: Option<int>)
    ensures LocalFiled(s, tenant, filed + [made]) == LocalFiled(s, tenant, filed)
      + [if made.Some? then Some(CaseName(s.cases, tenant, made.value)) else None]
  {
  }

  lemma SameTablesSameNames(s: State, after: State, tenant: string, p: Proc)
    requires after.cases == s.cases && after.log == s.log
    ensures LocalProc(after, tenant, p) == LocalProc(s, tenant, p)
  {
    if p.Filing? {
      assert LocalFiled(after, tenant, p.filed) == LocalFiled(s, tenant, p.filed);
    }
  }

  /** A filing handler after a pass, seen locally. */
  lemma PassLocal(s: State, tenant: string, p: Proc, filed: seq<Option<int>>)
    requires p.Filing?
    ensures LocalProc(s, tenant, p).Filing?
    ensures LocalProc(s, tenant, p.(next := p.next + 1, filed := filed))
      == LocalProc(s, tenant, p).(next := p.next + 1, filed := LocalFiled(s, tenant, filed))
  {
  }

  /** A pass of the loop that inserts nothing: the candidate does not qualify or the insert fails. */
  lemma {:induction false} PassCommutes(s: State, pid: Pid, p: Proc, filed: seq<Option<int>>, tenant: string)
    requires Owned(s) && pid in s.procs && p.Filing?
    ensures LocalState(MovedOn(s, pid, p, filed), tenant) ==
      if pid.tenant == tenant
      then MovedOn(LocalState(s, tenant), pid, LocalProc(s, tenant, p), LocalFiled(s, tenant, filed))
      else LocalState(s, tenant)
  {
    var q := p.(next := p.next + 1, filed := filed);
    NoAppendCommutes(s, pid, q, tenant);
    PassLocal(s, tenant, p, filed);
    PassMoves(s, pid, p, filed, q);
    PassMoves(LocalState(s, tenant), pid, LocalProc(s, tenant, p), LocalFiled(s, tenant, filed),
              LocalProc(s, tenant, q));
  }

  lemma PassMoves(s: State, pid: Pid, p: Proc, filed: seq<Option<int>>, q: Proc)
    requires p.Filing? && q == p.(next := p.next + 1, filed := filed)
    ensures MovedOn(s, pid, p, filed) == s.(procs := s.procs[pid := q])
  {
  }

  /** What the inserting handler looks like locally. */
  lemma {:induction false} InserterLocal(s: State, pid: Pid, p: Proc, c: Review.Case, stamp: string)
    requires Owned(s) && pid in s.procs && s.procs[pid] == p && p.Filing? && c.tenant == pid.tenant
    ensures var after, local := FiledCase(s, pid, p, c, stamp), LocalProc(s, pid.tenant, p);
      LocalProc(after, pid.tenant, after.procs[pid]) ==
      local.(next := local.next + 1, filed := local.filed + [Some(|LocalCases(s.cases, pid.tenant)| + 1)])
  {
    var after, made := FiledCase(s, pid, p, c, stamp), Some(|s.cases| + 1);
    FilingExtends(s, pid, p, c, stamp);
    ProcsStable(s, after, pid, p);
    PassLocal(after, pid.tenant, p, p.filed + [made]);
    LocalFiledGrows(after, pid.tenant, p.filed, made);
    CreatedLocal(s.cases, c, stamp, pid.tenant);
  }

  lemma FilingExtends(s: State, pid: Pid, p: Proc, c: Review.Case, stamp: string)
    requires p.Filing?
    ensures Extends(s, FiledCase(s, pid, p, c, stamp))
  {
  }

  /** A pass that inserts a case. */
  lemma {:induction false} InsertCommutes(s: State, pid: Pid, p: Proc, c: Review.Case, stamp: string, tenant: string)
    requires Owned(s) && pid in s.procs && s.procs[pid] == p && p.Filing? && c.tenant == pid.tenant
    ensures LocalState(FiledCase(s, pid, p, c, stamp), tenant) ==
      if pid.tenant == tenant then FiledCase(LocalState(s, tenant), pid, LocalProc(s, tenant, p), c, stamp)
      else LocalState(s, tenant)
  {
    var after := FiledCase(s, pid, p, c, stamp);
    CreatedLocal(s.cases, c, stamp, tenant);
    LogStable(s, after, tenant, s.log);
    ProcsAfter(s, after, pid, after.procs[pid], tenant);
    InserterLocal(s, pid, p, c, stamp);
  }

  lemma {:induction false} FileCommutes(env: Env, s: State, pid: Pid, ok: bool, stamp: string, tenant: string)
    requires Owned(s) && pid in s.procs && s.procs[pid].Filing?
    ensures LocalState(DoFile(env, s, pid, s.procs[pid], ok, stamp), tenant) ==
      if pid.tenant == tenant
      then DoFile(env, LocalState(s, tenant), pid, LocalProc(s, tenant, s.procs[pid]), ok, stamp)
      else LocalState(s, tenant)
  {
    var p := s.procs[pid];
    if p.next < |Todo(p.result)| {
      var c := Todo(p.result)[p.next];
      if !Qualifies(c) {
        PassCommutes(s, pid, p, p.filed, tenant);
      } else if ok {
        InsertCommutes(s, pid, p, CaseOf(env, pid.tenant, p.query, p.result.request, c), stamp, tenant);
      } else {
        PassCommutes(s, pid, p, p.filed + [None], tenant);
        LocalFiledGrows(s, tenant, p.filed, None);
      }
    }
  }

  lemma {:induction false} AdvanceCommutes(env: Env, s: State, pid: Pid, ok: bool, stamp: string, tenant: string)
    requires Owned(s)
    ensures LocalState(DoAdvance(env, s, pid, ok, stamp), tenant) ==
      if pid.tenant == tenant then DoAdvance(env, LocalState(s, tenant), pid, ok, stamp) else LocalState(s, tenant)
  {
    if pid in s.procs {
      match s.procs[pid]
      case Deciding(_, _, _) => RecordCommutes(s, pid, ok, stamp, tenant);
      case Auditing(_, _) => AuditCommutes(s, pid, ok, stamp, tenant);
      case Filing(_, _, _, _, _) => FileCommutes(env, s, pid, ok, stamp, tenant);
      case Decided(_, _, _, _) =>
    }
  }

  /** What one step is to a tenant: its own requests do what they would do alone, and nobody else's
      do anything. */
  ghost predicate Commutes(env: Env, s: State, a: Action, tenant: string) {
    LocalState(Step(env, s, a), tenant) ==
      if a.tenant == tenant then Step(env, LocalState(s, tenant), LocalAction(s, a)) else LocalState(s, tenant)
  }

  lemma {:induction false} UploadStepCommutes(env: Env, s: State, a: Action, tenant: string)
    requires Owned(s) && a.op.Upload?
    ensures Commutes(env, s, a, tenant)
  {
    UploadCommutes(s, a.tenant, ListName(a.op.path), a.op.heading, a.op.data, tenant);
  }

  lemma {:induction false} DecideStepCommutes(env: Env, s: State, a: Action, tenant: string)
    requires Owned(s) && a.op.Decide?
    ensures Commutes(env, s, a, tenant)
  {
    DecideCommutes(s, Pid(a.tenant, a.op.n), a.op.id, a.op.decision, a.op.header, a.stamp, tenant);
  }

  lemma {:induction false} ScreenStepCommutes(env: Env, s: State, a: Action, tenant: string)
    requires Owned(s) && a.op.Screen?
    ensures Commutes(env, s, a, tenant)
  {
    ScreenCommutes(env, s, Pid(a.tenant, a.op.n), a.op.query, a.op.cascade, a.op.draw, tenant);
  }

  lemma {:induction false} AdvanceStepCommutes(env: Env, s: State, a: Action, tenant: string)
    requires Owned(s) && a.op.Advance?
    ensures Commutes(env, s, a, tenant)
  {
    AdvanceCommutes(env, s, Pid(a.tenant, a.op.n), a.ok, a.stamp, tenant);
  }

  /** Any step of anyone commutes with taking one tenant's part of the state. */
  lemma {:induction false} StepCommutes(env: Env, s: State, a: Action, tenant: string)
    requires Owned(s)
    ensures Commutes(env, s, a, tenant)
  {
    match a.op
    case Upload(_, _, _) => UploadStepCommutes(env, s, a, tenant);
    case Decide(_, _, _, _) => DecideStepCommutes(env, s, a, tenant);
    case Screen(_, _, _, _) => ScreenStepCommutes(env, s, a, tenant);
    case Advance(_) => AdvanceStepCommutes(env, s, a, tenant);
    case Ask(_) =>
  }

  // ----- Whole runs -----

  lemma {:induction false} RunsOwn(env: Env, actions: seq<Action>)
    ensures Owned(Run(env, actions))
    decreases |actions|
  {
    if |actions| > 0 {
      RunsOwn(env, actions[..|actions| - 1]);
      StepOwns(env, Run(env, actions[..|actions| - 1]), actions[|actions| - 1]);
    }
  }

  /** Deleting every other tenant's requests from any interleaved run leaves this tenant's part of
      all stores as it was, up to its own numbering of cases and events. */
  lemma {:induction false} OthersCanBeErased(env: Env, actions: seq<Action>, tenant: string)
    ensures LocalState(Run(env, actions), tenant) == Run(env, LocalActions(env, actions, tenant))
    decreases |actions|
  {
    if |actions| > 0 {
      var n := |actions| - 1;
      var s, own := Run(env, actions[..n]), LocalActions(env, actions[..n], tenant);
      OthersCanBeErased(env, actions[..n], tenant);
      RunsOwn(env, actions[..n]);
      StepCommutes(env, s, actions[n], tenant);
      if actions[n].tenant == tenant {
        assert (own + [LocalAction(s, actions[n])])[..|own|] == own;
      } else {
        assert own + [] == own;
      }
    }
  }
}
