/** The tables counted against the steps that wrote them, failed writes included: exactly how many
    events and cases every run leaves, and exactly when one is missing. */
module Ledgers {
  import Audit
  import Protocol
  import Review
  import opened ScreeningLedger
  import opened Service
  import opened Tables
  import opened Wrappers

  /** How many steps of a run do something, judged by the state each step meets. */
  ghost function Times(env: Env, actions: seq<Action>, does: (State, Action) -> bool): nat {
    if |actions| == 0 then 0 else
      var n := |actions| - 1;
      Times(env, actions[..n], does) + if does(Run(env, actions[..n]), actions[n]) then 1 else 0
  }

  /** The step is the next one of a handler under way. */
  ghost predicate Moves(s: State, a: Action, pid: Pid) {
    a.op.Advance? && pid == Pid(a.tenant, a.op.n) && pid in s.procs
  }

  /** The step is an audit append after a screening of this tenant and request, and succeeds. */
  ghost function Reporting(tenant: string, request: string): (State, Action) -> bool {
    (s: State, a: Action) => a.op.Advance? && Moves(s, a, Pid(tenant, a.op.n)) && a.ok
      && s.procs[Pid(tenant, a.op.n)].Auditing? && s.procs[Pid(tenant, a.op.n)].result.request == request
  }

  /** The step is an audit append after the decision of this case, and succeeds. */
  ghost function Recording(id: int): (State, Action) -> bool {
    (s: State, a: Action) => a.op.Advance? && Moves(s, a, Pid(a.tenant, a.op.n)) && a.ok
      && s.procs[Pid(a.tenant, a.op.n)].Deciding? && s.procs[Pid(a.tenant, a.op.n)].id == id
  }

  /** The candidates that call for review. */
  ghost function HighRisk(): Candidate -> bool {
    (c: Candidate) => c.sensitivity == "sanctions_related" && c.confidence >= 0.9
  }

  /** The handler of a pending screening looks at a candidate that calls for review. */
  ghost predicate AtHighRisk(p: Proc) {
    p.Filing? && p.result.status == "pending" && p.next < |p.result.candidates|
    && HighRisk()(p.result.candidates[p.next])
  }

  /** The step inserts a case for a screening of this tenant and request. */
  ghost function Filings(tenant: string, request: string): (State, Action) -> bool {
    (s: State, a: Action) => a.op.Advance? && Moves(s, a, Pid(tenant, a.op.n)) && a.ok
      && AtHighRisk(s.procs[Pid(tenant, a.op.n)]) && s.procs[Pid(tenant, a.op.n)].result.request == request
  }

  /** The step is this handler's insert of a case, which succeeds or fails as given. */
  ghost function Inserting(pid: Pid, ok: bool): (State, Action) -> bool {
    (s: State, a: Action) => Moves(s, a, pid) && a.ok == ok && AtHighRisk(s.procs[pid])
  }

  /** The step is this handler's audit append after its screening, and succeeds. */
  ghost function Appending(pid: Pid): (State, Action) -> bool {
    (s: State, a: Action) => Moves(s, a, pid) && a.ok && s.procs[pid].Auditing?
  }

  // ----- Screening events -----

  ghost function ReportOf(tenant: string, request: string): Audit.EventRow -> bool {
    (row: Audit.EventRow) => row.kind == Audit.SCREENING_COMPLETED && row.tenant == tenant && row.request == request
  }

  /** The row a step adds to the log, if any. */
  ghost function NewEvent(s: State, a: Action): Option<Audit.EventRow> {
    if !a.op.Advance? || Pid(a.tenant, a.op.n) !in s.procs || !a.ok then None
    else
      var e := match s.procs[Pid(a.tenant, a.op.n)]
        case Deciding(id, decision, reviewer) => Some(DecisionEvent(a.tenant, id, decision, reviewer))
        case Auditing(query, result) => Some(ScreeningEvent(a.tenant, query, result))
        case Decided(_, _, _, _) => None
        case Filing(_, _, _, _, _) => None;
      if e.None? then None
      else Some(Audit.EventRow(|s.log| + 1, a.tenant, e.value.request, e.value.kind, e.value.payload, a.stamp))
  }

  lemma StepLogs(env: Env, s: State, a: Action)
    ensures Step(env, s, a).log == s.log + if NewEvent(s, a).Some? then [NewEvent(s, a).value] else []
  {
  }

  lemma StepReports(env: Env, s: State, a: Action, tenant: string, request: string)
    ensures CountIf(ReportOf(tenant, request), Step(env, s, a).log) ==
      CountIf(ReportOf(tenant, request), s.log) + if Reporting(tenant, request)(s, a) then 1 else 0
  {
    var e := NewEvent(s, a);
    StepLogs(env, s, a);
    if e.Some? {
      CountAppend(ReportOf(tenant, request), s.log, e.value);
    }
    assert Reporting(tenant, request)(s, a) <==> e.Some? && ReportOf(tenant, request)(e.value);
  }

  /** In every run a tenant's request has as many screening events as its screenings had
      successful audit appends. */
  lemma {:induction false} EventsAreReports(env: Env, actions: seq<Action>, tenant: string, request: string)
    ensures CountIf(ReportOf(tenant, request), Run(env, actions).log) == Times(env, actions, Reporting(tenant, request))
    decreases |actions|
  {
    if |actions| > 0 {
      var n := |actions| - 1;
      EventsAreReports(env, actions[..n], tenant, request);
      StepReports(env, Run(env, actions[..n]), actions[n], tenant, request);
    }
  }

  /** The case's tenant and request have a screening event in the log. */
  ghost predicate RefersToEvent(s: State, row: Review.CaseRow) {
    exists i :: 0 <= i < |s.log| && s.log[i].kind == Audit.SCREENING_COMPLETED
      && s.log[i].tenant == row.tenant && s.log[i].request == row.request
  }

  /** In every run a case refers to a screening event already in the log exactly when some
      screening of its tenant and request had its audit append succeed. */
  lemma {:induction false} CaseRefersIff(env: Env, actions: seq<Action>, s: State, row: Review.CaseRow)
    requires s == Run(env, actions) && row in s.cases
    ensures RefersToEvent(s, row) <==> Times(env, actions, Reporting(row.tenant, row.request)) > 0
  {
    var p := ReportOf(row.tenant, row.request);
    EventsAreReports(env, actions, row.tenant, row.request);
    CountPositive(p, s.log);
    assert RefersToEvent(s, row) <==> exists i :: 0 <= i < |s.log| && p(s.log[i]);
  }

  /** The audit appends after screenings succeed; inserts and all other writes may fail. */
  ghost predicate ReportsSucceed(env: Env, actions: seq<Action>) {
    forall n, pid :: 0 <= n < |actions| && Moves(Run(env, actions[..n]), actions[n], pid) ==>
      Run(env, actions[..n]).procs[pid].Auditing? ==> actions[n].ok
  }

  /** A handler files cases after its audit append, for the result it had then. */
  lemma FilerAppended(env: Env, s: State, a: Action, pid: Pid)
    requires pid in Step(env, s, a).procs && Step(env, s, a).procs[pid].Filing?
    ensures pid in s.procs && s.procs[pid].result == Step(env, s, a).procs[pid].result
    ensures !s.procs[pid].Filing? ==> Moves(s, a, pid) && s.procs[pid].Auditing?
  {
  }

  /** A handler that files cases had its append succeed. */
  lemma {:induction false} FilersReported(env: Env, actions: seq<Action>, pid: Pid)
    requires ReportsSucceed(env, actions) && pid in Run(env, actions).procs && Run(env, actions).procs[pid].Filing?
    ensures Times(env, actions, Reporting(pid.tenant, Run(env, actions).procs[pid].result.request)) > 0
    decreases |actions|
  {
    var n := |actions| - 1;
    var s := Run(env, actions[..n]);
    FilerAppended(env, s, actions[n], pid);
    if s.procs[pid].Filing? {
      assert ReportsSucceed(env, actions[..n]) by {
        assert forall k :: 0 <= k < n ==> actions[..n][..k] == actions[..k];
      }
      FilersReported(env, actions[..n], pid);
    }
  }

  /** So if the appends succeed, every case refers to an earlier screening event of the same tenant
      and request: this holds after every step, whatever inserts fail. */
  lemma {:induction false} CasesReferToEvents(env: Env, actions: seq<Action>, s: State, id: int)
    requires ReportsSucceed(env, actions) && s == Run(env, actions) && 1 <= id <= |s.cases|
    ensures RefersToEvent(s, s.cases[id - 1])
  {
    ScreeningsAreBooked(env, actions);
    var pid := FilerOf(env, s, id);
    FilersReported(env, actions, pid);
    CaseRefersIff(env, actions, s, s.cases[id - 1]);
  }

  /** The handler that filed a case, for a screening of the case's tenant and request. */
  lemma {:induction false} FilerOf(env: Env, s: State, id: int) returns (pid: Pid)
    requires AllFiled(env, s) && CasesHaveOwners(s) && 1 <= id <= |s.cases|
    ensures pid in s.procs && s.procs[pid].Filing?
    ensures s.cases[id - 1].tenant == pid.tenant && s.cases[id - 1].request == s.procs[pid].result.request
  {
    assert HasFiler(s, id);
    var q, j :| FiledBy(s, id, q, j);
    assert Filed(env, s.cases, q, s.procs[q]);
    pid := q;
  }

  // ----- Cases -----

  ghost function CaseFor(tenant: string, request: string): Review.CaseRow -> bool {
    (row: Review.CaseRow) => row.tenant == tenant && row.request == request
  }

  /** A step inserts one case or changes at most the decisions of those there are. */
  lemma StepInserts(env: Env, s: State, a: Action, tenant: string, request: string)
    ensures var after := Step(env, s, a).cases;
      if |after| == |s.cases|
      then
        && !Filings(tenant, request)(s, a)
        && forall i :: 0 <= i < |after| ==>
             after[i].tenant == s.cases[i].tenant && after[i].request == s.cases[i].request
      else
        && after == s.cases + [after[|s.cases|]]
        && (CaseFor(tenant, request)(after[|s.cases|]) <==> Filings(tenant, request)(s, a))
  {
  }

  lemma StepFiles(env: Env, s: State, a: Action, tenant: string, request: string)
    ensures CountIf(CaseFor(tenant, request), Step(env, s, a).cases) ==
      CountIf(CaseFor(tenant, request), s.cases) + if Filings(tenant, request)(s, a) then 1 else 0
  {
    var after := Step(env, s, a).cases;
    StepInserts(env, s, a, tenant, request);
    if |after| == |s.cases| {
      CountAgrees(CaseFor(tenant, request), s.cases, after);
    } else {
      CountAppend(CaseFor(tenant, request), s.cases, after[|s.cases|]);
    }
  }

  /** In every run a tenant's request has as many cases, pending or decided, as its pending
      screenings made successful inserts for candidates that call for review. */
  lemma {:induction false} CasesAreFilings(env: Env, actions: seq<Action>, tenant: string, request: string)
    ensures CountIf(CaseFor(tenant, request), Run(env, actions).cases) == Times(env, actions, Filings(tenant, request))
    decreases |actions|
  {
    if |actions| > 0 {
      var n := |actions| - 1;
      CasesAreFilings(env, actions[..n], tenant, request);
      StepFiles(env, Run(env, actions[..n]), actions[n], tenant, request);
    }
  }

  /** The entries of a handler's books that stand for a case, or for a failed insert. */
  ghost function Marked(made: bool): Option<int> -> bool {
    (f: Option<int>) => f.Some? == made
  }

  /** The bookings and the event of a handler that files cases, if it does. */
  ghost function BooksOf(s: State, pid: Pid): (seq<Option<int>>, Option<int>) {
    if pid in s.procs && s.procs[pid].Filing? then (s.procs[pid].filed, s.procs[pid].event) else ([], None)
  }

  /** What a step does to a handler's books. */
  lemma StepBooks(env: Env, s: State, a: Action, pid: Pid)
    ensures var was, now := BooksOf(s, pid), BooksOf(Step(env, s, a), pid);
      if Moves(s, a, pid) && AtHighRisk(s.procs[pid])
      then now == (was.0 + [if a.ok then Some(|s.cases| + 1) else None], was.1)
      else if Moves(s, a, pid) && s.procs[pid].Auditing?
      then now == ([], if a.ok then Some(|s.log| + 1) else None) && was == ([], None)
      else now == was
  {
  }

  /** A handler's books match its own inserts, the successful and the failed ones. */
  lemma {:induction false} InsertsAreBooked(env: Env, actions: seq<Action>, pid: Pid, ok: bool)
    ensures Times(env, actions, Inserting(pid, ok)) == CountIf(Marked(ok), BooksOf(Run(env, actions), pid).0)
    decreases |actions|
  {
    if |actions| > 0 {
      var s, a := Run(env, actions[..|actions| - 1]), actions[|actions| - 1];
      InsertsAreBooked(env, actions[..|actions| - 1], pid, ok);
      StepBooks(env, s, a, pid);
      if Moves(s, a, pid) && AtHighRisk(s.procs[pid]) {
        CountAppend(Marked(ok), BooksOf(s, pid).0, if a.ok then Some(|s.cases| + 1) else None);
      }
    }
  }

  /** And they name its event exactly when its append succeeded. */
  lemma {:induction false} AppendIsBooked(env: Env, actions: seq<Action>, pid: Pid)
    ensures Times(env, actions, Appending(pid)) == if BooksOf(Run(env, actions), pid).1.Some? then 1 else 0
    decreases |actions|
  {
    if |actions| > 0 {
      AppendIsBooked(env, actions[..|actions| - 1], pid);
      StepBooks(env, Run(env, actions[..|actions| - 1]), actions[|actions| - 1], pid);
    }
  }

  /** The cases of the table that this handler filed. */
  ghost function FiledIds(s: State, pid: Pid): set<int> {
    set id | 1 <= id <= |s.cases| && Files(s, id, pid)
  }

  ghost predicate Files(s: State, id: int, pid: Pid) {
    exists j :: FiledBy(s, id, pid, j)
  }

  /** The ids some bookings name. */
  ghost function IdsOf(filed: seq<Option<int>>): set<int> {
    set f | f in filed && f.Some? :: f.value
  }

  lemma {:induction false} DistinctIds(filed: seq<Option<int>>)
    requires forall j, k :: 0 <= j < k < |filed| && filed[j].Some? ==> filed[j] != filed[k]
    ensures |IdsOf(filed)| == CountIf(Marked(true), filed)
    decreases |filed|
  {
    if |filed| > 0 {
      var n := |filed| - 1;
      DistinctIds(filed[..n]);
      assert filed == filed[..n] + [filed[n]];
      if filed[n].Some? {
        assert IdsOf(filed) == IdsOf(filed[..n]) + {filed[n].value};
        assert filed[n] !in filed[..n];
      } else {
        assert IdsOf(filed) == IdsOf(filed[..n]);
      }
    }
  }

  lemma {:induction false} MarkedAll(filed: seq<Option<int>>)
    ensures CountIf(Marked(true), filed) + CountIf(Marked(false), filed) == |filed|
    decreases |filed|
  {
    if |filed| > 0 {
      MarkedAll(filed[..|filed| - 1]);
    }
  }

  /** A handler's cases in the table are as many as its bookings. */
  lemma {:induction false} FiledIdsCount(env: Env, s: State, pid: Pid)
    requires Booked(env, s) && pid in s.procs && s.procs[pid].Filing?
    ensures |FiledIds(s, pid)| == CountIf(Marked(true), s.procs[pid].filed)
  {
    var filed := s.procs[pid].filed;
    forall j, k | 0 <= j < k < |filed| && filed[j].Some? ensures filed[j] != filed[k] {
      if filed[j] == filed[k] {
        assert FiledBy(s, filed[j].value, pid, j) && FiledBy(s, filed[j].value, pid, k);
      }
    }
    DistinctIds(filed);
    forall id ensures id in FiledIds(s, pid) <==> id in IdsOf(filed) {
      if id in IdsOf(filed) {
        var j :| 0 <= j < |filed| && filed[j] == Some(id);
        assert FiledBy(s, id, pid, j);
        FiledIsThere(env, s, id, pid, j);
      }
    }
    assert FiledIds(s, pid) == IdsOf(filed);
  }

  /** The handler's loop is over. */
  ghost predicate Finished(s: State, pid: Pid) {
    && pid in s.procs && s.procs[pid].Filing?
    && s.procs[pid].next == if s.procs[pid].result.status == "pending" then |s.procs[pid].result.candidates| else 0
  }

  /** The row is the one a pending screening inserts for one of its candidates that call for review,
      whatever was decided since. */
  ghost predicate ForCandidate(env: Env, row: Review.CaseRow, pid: Pid, p: Proc)
    requires p.Filing?
  {
    row.tenant == pid.tenant && p.result.status == "pending"
    && exists c :: c in p.result.candidates && TellsCandidate(env, row, p.query, p.result, c)
  }

  lemma {:induction false} FiledIsForCandidate(env: Env, s: State, pid: Pid, p: Proc, id: int)
    requires AllFiled(env, s) && pid in s.procs && p == s.procs[pid] && p.Filing? && id in FiledIds(s, pid)
    ensures ForCandidate(env, s.cases[id - 1], pid, p)
  {
    var j :| FiledBy(s, id, pid, j);
    assert Filed(env, s.cases, pid, p);
    QualifyingIsHighRisk(p.result, p.next, j);
    FiledTells(env, s.cases[id - 1], pid, p, Qualifying(p.result, p.next)[j]);
  }

  /** The events of the log that this handler appended after its screening. */
  ghost function ReportIds(s: State, pid: Pid): set<int> {
    set e | 1 <= e <= |s.log| && ReportedBy(s, e, pid)
  }

  /** A handler's cases, and its failed inserts, are as many as the qualifying candidates it has
      looked at. */
  lemma {:induction false} FilingsSoFar(env: Env, actions: seq<Action>, s: State, pid: Pid, p: Proc)
    requires s == Run(env, actions) && pid in s.procs && p == s.procs[pid] && p.Filing?
    ensures p.next <= |Todo(p.result)|
    ensures |FiledIds(s, pid)| + Times(env, actions, Inserting(pid, false))
      == CountIf(Qualifies, Todo(p.result)[..p.next])
    ensures forall id :: id in FiledIds(s, pid) ==> ForCandidate(env, s.cases[id - 1], pid, p)
  {
    ScreeningsAreBooked(env, actions);
    InsertsAreBooked(env, actions, pid, true);
    InsertsAreBooked(env, actions, pid, false);
    FiledIdsCount(env, s, pid);
    MarkedAll(p.filed);
    assert Filed(env, s.cases, pid, p);
    CountIsPick(Qualifies, (c: Candidate) => c, Todo(p.result)[..p.next]);
    forall id | id in FiledIds(s, pid) ensures ForCandidate(env, s.cases[id - 1], pid, p) {
      FiledIsForCandidate(env, s, pid, p, id);
    }
  }

  /** A handler's event is in the log exactly when its append succeeded. */
  lemma {:induction false} ReportSoFar(env: Env, actions: seq<Action>, s: State, pid: Pid, p: Proc)
    requires s == Run(env, actions) && pid in s.procs && p == s.procs[pid] && p.Filing?
    ensures |ReportIds(s, pid)| == Times(env, actions, Appending(pid)) <= 1
    ensures forall e :: e in ReportIds(s, pid) ==> ReportedFor(s.log[e - 1], pid, p)
  {
    ScreeningsAreBooked(env, actions);
    AppendIsBooked(env, actions, pid);
    assert Reported(s.log, pid, p);
    assert ReportIds(s, pid) == if p.event.Some? then {p.event.value} else {};
  }

  /** In every run, a screening that is over has filed exactly one case of the table per
      sanctions-related candidate of confidence at least 0.9 when pending, and none otherwise, less its
      own failed inserts; each is about such a candidate; and exactly one event of the log is its own
      unless its append failed. */
  lemma {:induction false} FinishedScreening(env: Env, actions: seq<Action>, s: State, pid: Pid, p: Proc)
    requires s == Run(env, actions) && Finished(s, pid) && p == s.procs[pid]
    ensures |FiledIds(s, pid)| + Times(env, actions, Inserting(pid, false)) ==
      if p.result.status == "pending"
      then CountIf((c: Candidate) => c.sensitivity == "sanctions_related" && c.confidence >= 0.9, p.result.candidates)
      else 0
    ensures forall id :: id in FiledIds(s, pid) ==> ForCandidate(env, s.cases[id - 1], pid, p)
    ensures |ReportIds(s, pid)| == Times(env, actions, Appending(pid)) <= 1
    ensures forall e :: e in ReportIds(s, pid) ==> ReportedFor(s.log[e - 1], pid, p)
  {
    FilingsSoFar(env, actions, s, pid, p);
    ReportSoFar(env, actions, s, pid, p);
    assert Todo(p.result)[..p.next] == Todo(p.result);
    CountAlike(Qualifies, (c: Candidate) => c.sensitivity == "sanctions_related" && c.confidence >= 0.9,
               p.result.candidates);
  }

  // ----- Decision events -----

  lemma StepRecords(env: Env, s: State, a: Action, id: int)
    ensures CountIf(Protocol.DecisionOf(id), Step(env, s, a).log) ==
      CountIf(Protocol.DecisionOf(id), s.log) + if Recording(id)(s, a) then 1 else 0
  {
    var e := NewEvent(s, a);
    StepLogs(env, s, a);
    if e.Some? {
      CountAppend(Protocol.DecisionOf(id), s.log, e.value);
    }
    assert Recording(id)(s, a) <==> e.Some? && Protocol.DecisionOf(id)(e.value);
  }

  lemma {:induction false} EventsAreRecords(env: Env, actions: seq<Action>, id: int)
    ensures CountIf(Protocol.DecisionOf(id), Run(env, actions).log) == Times(env, actions, Recording(id))
    decreases |actions|
  {
    if |actions| > 0 {
      var n := |actions| - 1;
      EventsAreRecords(env, actions[..n], id);
      StepRecords(env, Run(env, actions[..n]), actions[n], id);
    }
  }

  /** The log has a decision event of the case. */
  ghost predicate DecisionInLog(s: State, id: int) {
    exists i :: 0 <= i < |s.log| && Protocol.IsDecisionOf(s.log[i], id)
  }

  /** In every run a case's decision is in the log exactly when its winner's audit append succeeded:
      at most one append ever does, and none while the case is pending. */
  lemma {:induction false} DecisionIsLoggedIff(env: Env, actions: seq<Action>, s: State, id: int)
    requires s == Run(env, actions) && 1 <= id <= |s.cases|
    ensures DecisionInLog(s, id) <==> Times(env, actions, Recording(id)) == 1
    ensures Times(env, actions, Recording(id)) <= if s.cases[id - 1].status == Review.PENDING then 0 else 1
  {
    Protocol.EveryDecisionIsAccounted(env, actions, id);
    EventsAreRecords(env, actions, id);
    CountPositive(Protocol.DecisionOf(id), s.log);
    assert DecisionInLog(s, id) <==> exists i :: 0 <= i < |s.log| && Protocol.DecisionOf(id)(s.log[i]);
  }

  // ----- What deciders are told -----

  /** The step answers a request that it decided this case. */
  ghost function Telling(env: Env, id: int): (State, Action) -> bool {
    (s: State, a: Action) => TellsDecision(Answered(env, s, a), id)
  }

  ghost predicate TellsDecision(answer: Option<Answer>, id: int) {
    answer.Some? && answer.value.DecisionMade? && answer.value.id == id
  }

  /** The handlers that decided the case and are done. */
  ghost function DoneWith(s: State, id: int): set<Pid> {
    set pid | pid in s.procs && s.procs[pid].Decided? && s.procs[pid].id == id
  }

  /** The step ends a handler that decided this case. */
  ghost predicate Ends(s: State, a: Action, id: int) {
    a.op.Advance? && Pid(a.tenant, a.op.n) in s.procs && s.procs[Pid(a.tenant, a.op.n)].Deciding?
    && s.procs[Pid(a.tenant, a.op.n)].id == id
  }

  lemma TellingEnds(env: Env, s: State, a: Action, id: int)
    ensures Telling(env, id)(s, a) <==> Ends(s, a, id)
  {
  }

  lemma StepEnds(env: Env, s: State, a: Action, id: int, pid: Pid)
    ensures pid in DoneWith(Step(env, s, a), id) <==>
      pid in DoneWith(s, id) || (Ends(s, a, id) && pid == Pid(a.tenant, a.op.n))
    ensures Ends(s, a, id) ==> Pid(a.tenant, a.op.n) !in DoneWith(s, id)
  {
  }

  lemma {:induction false} StepTells(env: Env, s: State, a: Action, id: int)
    ensures |DoneWith(Step(env, s, a), id)| == |DoneWith(s, id)| + if Telling(env, id)(s, a) then 1 else 0
  {
    var was, now := DoneWith(s, id), DoneWith(Step(env, s, a), id);
    TellingEnds(env, s, a, id);
    forall pid ensures pid in now <==> pid in was || (Ends(s, a, id) && pid == Pid(a.tenant, a.op.n)) {
      StepEnds(env, s, a, id, pid);
    }
    if Ends(s, a, id) {
      StepEnds(env, s, a, id, Pid(a.tenant, a.op.n));
      assert now == was + {Pid(a.tenant, a.op.n)};
    } else {
      assert now == was;
    }
  }

  lemma {:induction false} TellingsAreDone(env: Env, actions: seq<Action>, id: int)
    ensures Times(env, actions, Telling(env, id)) == |DoneWith(Run(env, actions), id)|
    decreases |actions|
  {
    if |actions| > 0 {
      var n := |actions| - 1;
      TellingsAreDone(env, actions[..n], id);
      StepTells(env, Run(env, actions[..n]), actions[n], id);
    }
  }

  /** However many requests race to decide a case, at most one of them is ever answered 200. */
  lemma {:induction false} DecisionToldOnce(env: Env, actions: seq<Action>, id: int)
    ensures Times(env, actions, Telling(env, id)) <= 1
  {
    var s := Run(env, actions);
    Protocol.RunsAreSafe(env, actions);
    TellingsAreDone(env, actions, id);
    if DoneWith(s, id) != {} {
      var w :| w in DoneWith(s, id);
      assert forall q :: q in DoneWith(s, id) ==> Protocol.Won(s.procs[q], id);
      assert DoneWith(s, id) == {w};
    }
  }

  /** And what it was told stands: its tenant's case carries that decision for ever after. */
  lemma {:induction false} DecisionToldStands(env: Env, actions: seq<Action>, k: nat, now: State, id: int,
      decision: string)
    requires k < |actions| && now == Run(env, actions)
    requires Answered(env, Run(env, actions[..k]), actions[k]) == Some(DecisionMade(id, decision))
    ensures 1 <= id <= |now.cases|
    ensures now.cases[id - 1].tenant == actions[k].tenant && now.cases[id - 1].status == decision
  {
    var was, pid := Run(env, actions[..k]), Pid(actions[k].tenant, actions[k].op.n);
    Protocol.RunsAreSafe(env, actions[..k]);
    assert Protocol.CaseCarries(was.cases, pid, was.procs[pid]);
    Protocol.DecisionsAreFinal(env, actions, k, was, now, id);
  }

  // ----- Runs that lose an event -----

  /** A screening service that always finds one candidate to review. */
  const ALARM := Env((query, tenant, suspects, cascade, draw) => Some(Screening("r", SCREENING_PENDING, 1, [HIT])),
                     reason => reason, reason => [], "", "")

  const HIT := Candidate("Acme", "sdn", 0.95, SANCTIONS_RELATED, None)

  /** A screening whose audit append does as given, and whose one case is filed. */
  function OneScreening(query: Query, reported: bool): seq<Action> {
    [Action("t", Screen(0, query, false, 0), true, ""), Action("t", Advance(0), reported, ""),
     Action("t", Advance(0), true, "")]
  }

  lemma {:induction false} RunsInSteps(env: Env, actions: seq<Action>, a: Action)
    ensures Run(env, actions + [a]) == Step(env, Run(env, actions), a)
  {
    assert (actions + [a])[..|actions|] == actions;
  }

  /** What such a screening leaves. */
  lemma {:induction false} OneScreeningRuns(query: Query, reported: bool)
    ensures var s := Run(ALARM, OneScreening(query, reported));
      && |s.cases| == 1 && s.cases[0].tenant == "t" && s.cases[0].request == "r" && s.cases[0].status == Review.PENDING
      && s.cases[0].id == 1 && s.procs.Keys == {Pid("t", 0)}
      && |s.log| == (if reported then 1 else 0)
      && forall i :: 0 <= i < |s.log| ==> s.log[i].kind == Audit.SCREENING_COMPLETED
  {
    var all := OneScreening(query, reported);
    RunsInSteps(ALARM, [], all[0]);
    RunsInSteps(ALARM, all[..1], all[1]);
    RunsInSteps(ALARM, all[..2], all[2]);
    assert all[..1] == [] + [all[0]] && all[..2] == all[..1] + [all[1]] && all == all[..2] + [all[2]];
  }

  /** When its append fails and its insert does not, a screening leaves a case without an event. */
  lemma {:induction false} ACaseCanLackItsEvent(query: Query)
    ensures var s := Run(ALARM, OneScreening(query, false));
      |s.cases| == 1 && !RefersToEvent(s, s.cases[0])
  {
    OneScreeningRuns(query, false);
  }

  /** The same screening, reported, and a decision whose append fails. */
  function OneDecision(query: Query): seq<Action> {
    OneScreening(query, true)
      + [Action("t", Decide(1, 1, Review.APPROVED, ""), true, ""), Action("t", Advance(1), false, "")]
  }

  /** When its append fails, a decision leaves a decided case without a decision event, though its
      request was answered 200. */
  lemma {:induction false} ADecisionCanLackItsEvent(query: Query)
    ensures var s, last := Run(ALARM, OneDecision(query)), OneDecision(query)[4];
      && |s.cases| == 1 && s.cases[0].status == Review.APPROVED && !DecisionInLog(s, 1)
      && Answered(ALARM, Run(ALARM, OneDecision(query)[..4]), last) == Some(DecisionMade(1, Review.APPROVED))
  {
    var all, first := OneDecision(query), OneScreening(query, true);
    OneScreeningRuns(query, true);
    RunsInSteps(ALARM, first, all[3]);
    RunsInSteps(ALARM, all[..4], all[4]);
    assert all[..4] == first + [all[3]] && all == all[..4] + [all[4]];
    assert Review.Decidable(Run(ALARM, first).cases[0], "t", 1);
  }
}
