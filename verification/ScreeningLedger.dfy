/** What screenings leave in the audit log and the review queue, in every interleaving. */
module ScreeningLedger {
  import Audit
  import Review
  import opened Service
  import opened Tables
  import opened Text
  import opened Wrappers

  /** The qualifying candidates among the first n the loop runs over, in order. */
  ghost function Qualifying(result: Screening, n: nat): seq<Candidate>
    requires n <= |Todo(result)|
  {
    Pick(Qualifies, (c: Candidate) => c, Todo(result)[..n])
  }

  /** The row is the one ScreenTenant inserts for the candidate, whatever was decided since. */
  ghost predicate FiledFor(env: Env, row: Review.CaseRow, pid: Pid, p: Proc, c: Candidate)
    requires p.Filing?
  {
    row.(status := Review.PENDING, decidedAt := None, decidedBy := None)
      == Review.NewRow(row.id, CaseOf(env, pid.tenant, p.query, p.result.request, c), row.createdAt)
  }

  /** The row is the event ScreenTenant appends for its screening. */
  ghost predicate ReportedFor(row: Audit.EventRow, pid: Pid, p: Proc)
    requires p.Filing?
  {
    && row.tenant == pid.tenant && row.request == p.result.request && row.kind == Audit.SCREENING_COMPLETED
    && row.payload == ScreeningEvent(pid.tenant, p.query, p.result).payload
  }

  /** One entry per qualifying candidate so far: the case filed for it, or None where the insert failed. */
  ghost predicate Filed(env: Env, cases: seq<Review.CaseRow>, pid: Pid, p: Proc)
    requires p.Filing?
  {
    && p.next <= |Todo(p.result)|
    && |p.filed| == |Qualifying(p.result, p.next)|
    && forall j :: 0 <= j < |p.filed| && p.filed[j].Some? ==>
         && 1 <= p.filed[j].value <= |cases|
         && FiledFor(env, cases[p.filed[j].value - 1], pid, p, Qualifying(p.result, p.next)[j])
  }

  ghost predicate Reported(log: seq<Audit.EventRow>, pid: Pid, p: Proc)
    requires p.Filing?
  {
    p.event.Some? ==> 1 <= p.event.value <= |log| && ReportedFor(log[p.event.value - 1], pid, p)
  }

  /** Case id was filed by this handler as its j-th. */
  ghost predicate FiledBy(s: State, id: int, pid: Pid, j: int) {
    pid in s.procs && s.procs[pid].Filing? && 0 <= j < |s.procs[pid].filed| && s.procs[pid].filed[j] == Some(id)
  }

  /** Event e was appended by this handler after its screening. */
  ghost predicate ReportedBy(s: State, e: int, pid: Pid) {
    pid in s.procs && s.procs[pid].Filing? && s.procs[pid].event == Some(e)
  }

  ghost predicate HasFiler(s: State, id: int) {
    exists pid, j :: FiledBy(s, id, pid, j)
  }

  ghost predicate HasReporter(s: State, e: int) {
    exists pid :: ReportedBy(s, e, pid)
  }

  ghost predicate AllFiled(env: Env, s: State) {
    forall pid :: pid in s.procs && s.procs[pid].Filing? ==> Filed(env, s.cases, pid, s.procs[pid])
  }

  ghost predicate AllReported(s: State) {
    forall pid :: pid in s.procs && s.procs[pid].Filing? ==> Reported(s.log, pid, s.procs[pid])
  }

  /** Every case was filed by one handler, once. */
  ghost predicate CasesHaveOwners(s: State) {
    && (forall id {:trigger HasFiler(s, id)} :: 1 <= id <= |s.cases| ==> HasFiler(s, id))
    && (forall id, p, q, j, k :: FiledBy(s, id, p, j) && FiledBy(s, id, q, k) ==> p == q && j == k)
  }

  /** Every screening event was appended by one handler. */
  ghost predicate ReportsHaveOwners(s: State) {
    && (forall e {:trigger HasReporter(s, e)} ::
          1 <= e <= |s.log| && s.log[e - 1].kind == Audit.SCREENING_COMPLETED ==> HasReporter(s, e))
    && (forall e, p, q :: ReportedBy(s, e, p) && ReportedBy(s, e, q) ==> p == q)
  }

  ghost predicate Booked(env: Env, s: State) {
    AllFiled(env, s) && AllReported(s) && CasesHaveOwners(s) && ReportsHaveOwners(s) && Review.Numbered(s.cases)
  }

  // ----- Every step keeps the books -----

  /** Tables only grow, cases change at most their decision, and no screening handler moves. */
  ghost predicate LeavesFilings(s: State, after: State) {
    && |after.cases| == |s.cases| && Review.Numbered(after.cases)
    && (forall i :: 0 <= i < |s.cases| ==>
          after.cases[i].(status := Review.PENDING, decidedAt := None, decidedBy := None)
            == s.cases[i].(status := Review.PENDING, decidedAt := None, decidedBy := None))
    && |s.log| <= |after.log| && after.log[..|s.log|] == s.log
    && (forall i :: |s.log| <= i < |after.log| ==> after.log[i].kind != Audit.SCREENING_COMPLETED)
    && (forall pid :: pid in s.procs && s.procs[pid].Filing? ==>
          pid in after.procs && after.procs[pid] == s.procs[pid])
    && (forall pid :: pid in after.procs && after.procs[pid].Filing? ==>
          pid in s.procs && after.procs[pid] == s.procs[pid])
  }

  lemma {:induction false} LeavingKeepsBooks(env: Env, s: State, after: State)
    requires Booked(env, s) && LeavesFilings(s, after)
    ensures Booked(env, after)
  {
    assert forall id, pid, j :: FiledBy(s, id, pid, j) <==> FiledBy(after, id, pid, j);
    assert forall e, pid :: ReportedBy(s, e, pid) <==> ReportedBy(after, e, pid);
    assert forall i :: 0 <= i < |s.log| ==> after.log[i] == s.log[i];
    forall id | 1 <= id <= |after.cases| ensures HasFiler(after, id) {
      assert HasFiler(s, id);
    }
    forall e | 1 <= e <= |after.log| && after.log[e - 1].kind == Audit.SCREENING_COMPLETED
      ensures HasReporter(after, e)
    {
      assert HasReporter(s, e);
    }
    forall pid | pid in after.procs && after.procs[pid].Filing?
      ensures Filed(env, after.cases, pid, after.procs[pid]) && Reported(after.log, pid, after.procs[pid])
    {
      assert Filed(env, s.cases, pid, s.procs[pid]);
    }
  }

  lemma ReportIsReported(log: seq<Audit.EventRow>, pid: Pid, query: string, result: Screening, stamp: string)
    ensures Reported(Audit.Recorded(log, ScreeningEvent(pid.tenant, query, result), stamp), pid,
                     Filing(query, result, 0, Some(|log| + 1), []))
  {
  }

  lemma {:induction false} AuditKeepsCases(env: Env, s: State, pid: Pid, ok: bool, stamp: string)
    requires AllFiled(env, s) && CasesHaveOwners(s) && pid in s.procs && s.procs[pid].Auditing?
    ensures AllFiled(env, DoAudit(s, pid, s.procs[pid], ok, stamp))
    ensures CasesHaveOwners(DoAudit(s, pid, s.procs[pid], ok, stamp))
  {
    var after := DoAudit(s, pid, s.procs[pid], ok, stamp);
    assert forall id, q, j :: FiledBy(s, id, q, j) <==> FiledBy(after, id, q, j);
    forall id | 1 <= id <= |after.cases| ensures HasFiler(after, id) {
      assert HasFiler(s, id);
    }
    assert Todo(s.procs[pid].result)[..0] == [];
  }

  lemma {:induction false} AuditKeepsReports(s: State, pid: Pid, ok: bool, stamp: string)
    requires AllReported(s) && ReportsHaveOwners(s) && pid in s.procs && s.procs[pid].Auditing?
    ensures AllReported(DoAudit(s, pid, s.procs[pid], ok, stamp))
    ensures ReportsHaveOwners(DoAudit(s, pid, s.procs[pid], ok, stamp))
  {
    var p, after := s.procs[pid], DoAudit(s, pid, s.procs[pid], ok, stamp);
    ReportIsReported(s.log, pid, p.query, p.result, stamp);
    assert forall i :: 0 <= i < |s.log| ==> after.log[i] == s.log[i];
    assert forall e, q :: q != pid ==> (ReportedBy(s, e, q) <==> ReportedBy(after, e, q));
    forall q | q in after.procs && after.procs[q].Filing? ensures Reported(after.log, q, after.procs[q]) {
      if q != pid {
        assert Reported(s.log, q, s.procs[q]);
      }
    }
    forall e | 1 <= e <= |after.log| && after.log[e - 1].kind == Audit.SCREENING_COMPLETED
      ensures HasReporter(after, e)
    {
      if e <= |s.log| {
        assert HasReporter(s, e);
        var q :| ReportedBy(s, e, q);
        assert ReportedBy(after, e, q);
      } else {
        assert ReportedBy(after, e, pid);
      }
    }
    forall e, q, r | ReportedBy(after, e, q) && ReportedBy(after, e, r) ensures q == r {
      if q != pid { assert Reported(s.log, q, s.procs[q]); }
      if r != pid { assert Reported(s.log, r, s.procs[r]); }
    }
  }

  lemma {:induction false} QualifyingGrows(result: Screening, n: nat)
    requires n < |Todo(result)|
    ensures Qualifying(result, n + 1) ==
      Qualifying(result, n) + if Qualifies(Todo(result)[n]) then [Todo(result)[n]] else []
  {
    assert Todo(result)[..n + 1] == Todo(result)[..n] + [Todo(result)[n]];
    PickAppend(Qualifies, (c: Candidate) => c, Todo(result)[..n], Todo(result)[n]);
  }

  /** Rows already filed stay filed when the table grows. */
  lemma FiledWhileGrowing(env: Env, cases: seq<Review.CaseRow>, more: seq<Review.CaseRow>, pid: Pid, p: Proc)
    requires p.Filing? && Filed(env, cases, pid, p) && cases <= more
    ensures Filed(env, more, pid, p)
  {
    assert forall i :: 0 <= i < |cases| ==> more[i] == cases[i];
  }

  /** The handler that just filed a candidate, or failed to, has its books in order. */
  lemma {:induction false} FilerIsFiled(env: Env, cases: seq<Review.CaseRow>, pid: Pid, p: Proc,
      row: Review.CaseRow, made: Option<int>)
    requires p.Filing? && Filed(env, cases, pid, p) && p.next < |Todo(p.result)| && Qualifies(Todo(p.result)[p.next])
    requires FiledFor(env, row, pid, p, Todo(p.result)[p.next])
    requires made == None || made == Some(|cases| + 1)
    ensures Filed(env, cases + [row], pid, p.(next := p.next + 1, filed := p.filed + [made]))
  {
    QualifyingGrows(p.result, p.next);
    var q, more := p.(next := p.next + 1, filed := p.filed + [made]), cases + [row];
    forall j | 0 <= j < |q.filed| && q.filed[j].Some?
      ensures 1 <= q.filed[j].value <= |more|
      ensures FiledFor(env, more[q.filed[j].value - 1], pid, q, Qualifying(q.result, q.next)[j])
    {
      if j < |p.filed| {
        assert q.filed[j] == p.filed[j];
        assert FiledFor(env, cases[p.filed[j].value - 1], pid, p, Qualifying(p.result, p.next)[j]);
      }
    }
  }

  lemma NewRowIsFiled(env: Env, id: int, pid: Pid, p: Proc, c: Candidate, stamp: string)
    requires p.Filing?
    ensures FiledFor(env, Review.NewRow(id, CaseOf(env, pid.tenant, p.query, p.result.request, c), stamp), pid, p, c)
  {
  }

  /** An insert that fails leaves a gap in the books and nothing in the table. */
  lemma {:induction false} GapIsFiled(env: Env, cases: seq<Review.CaseRow>, pid: Pid, p: Proc)
    requires p.Filing? && Filed(env, cases, pid, p) && p.next < |Todo(p.result)|
    ensures Filed(env, cases, pid,
      if Qualifies(Todo(p.result)[p.next]) then p.(next := p.next + 1, filed := p.filed + [None])
      else p.(next := p.next + 1))
  {
    QualifyingGrows(p.result, p.next);
  }

  lemma {:induction false} FileKeepsFiled(env: Env, s: State, pid: Pid, ok: bool, stamp: string)
    requires AllFiled(env, s) && pid in s.procs && s.procs[pid].Filing?
    ensures AllFiled(env, DoFile(env, s, pid, s.procs[pid], ok, stamp))
  {
    var p, after := s.procs[pid], DoFile(env, s, pid, s.procs[pid], ok, stamp);
    forall q | q in after.procs && after.procs[q].Filing? ensures Filed(env, after.cases, q, after.procs[q]) {
      assert Filed(env, s.cases, q, s.procs[q]);
      if q != pid {
        FiledWhileGrowing(env, s.cases, after.cases, q, s.procs[q]);
      } else if p.next < |Todo(p.result)| {
        var c := Todo(p.result)[p.next];
        if ok && Qualifies(c) {
          var row := Review.NewRow(|s.cases| + 1, CaseOf(env, pid.tenant, p.query, p.result.request, c), stamp);
          NewRowIsFiled(env, |s.cases| + 1, pid, p, c, stamp);
          FilerIsFiled(env, s.cases, pid, p, row, Some(|s.cases| + 1));
        } else {
          GapIsFiled(env, s.cases, pid, p);
        }
      }
    }
  }

  /** The cases a handler filed are in the table. */
  lemma FiledIsThere(env: Env, s: State, id: int, q: Pid, j: int)
    requires AllFiled(env, s) && FiledBy(s, id, q, j)
    ensures 1 <= id <= |s.cases|
  {
    assert Filed(env, s.cases, q, s.procs[q]);
  }

  /** A pass that files a case is its filer; nothing else changes hands. */
  lemma FiledByAfter(env: Env, s: State, pid: Pid, ok: bool, stamp: string, id: int, q: Pid, j: int)
    requires pid in s.procs && s.procs[pid].Filing?
    ensures var after := DoFile(env, s, pid, s.procs[pid], ok, stamp);
      FiledBy(after, id, q, j) <==>
        || FiledBy(s, id, q, j)
        || (|after.cases| > |s.cases| && id == |s.cases| + 1 && q == pid && j == |s.procs[pid].filed|)
  {
  }

  lemma {:induction false} FileKeepsOwners(env: Env, s: State, pid: Pid, ok: bool, stamp: string)
    requires AllFiled(env, s) && CasesHaveOwners(s) && pid in s.procs && s.procs[pid].Filing?
    ensures CasesHaveOwners(DoFile(env, s, pid, s.procs[pid], ok, stamp))
  {
    var p, after := s.procs[pid], DoFile(env, s, pid, s.procs[pid], ok, stamp);
    forall id | 1 <= id <= |after.cases| ensures HasFiler(after, id) {
      if id <= |s.cases| {
        assert HasFiler(s, id);
        var q, j :| FiledBy(s, id, q, j);
        FiledByAfter(env, s, pid, ok, stamp, id, q, j);
      } else {
        FiledByAfter(env, s, pid, ok, stamp, id, pid, |p.filed|);
      }
    }
    forall id, q, r, j, k | FiledBy(after, id, q, j) && FiledBy(after, id, r, k) ensures q == r && j == k {
      FiledByAfter(env, s, pid, ok, stamp, id, q, j);
      FiledByAfter(env, s, pid, ok, stamp, id, r, k);
      if FiledBy(s, id, q, j) {
        FiledIsThere(env, s, id, q, j);
      }
      if FiledBy(s, id, r, k) {
        FiledIsThere(env, s, id, r, k);
      }
    }
  }

  lemma {:induction false} FileKeepsReports(env: Env, s: State, pid: Pid, ok: bool, stamp: string)
    requires AllReported(s) && ReportsHaveOwners(s) && pid in s.procs && s.procs[pid].Filing?
    ensures AllReported(DoFile(env, s, pid, s.procs[pid], ok, stamp))
    ensures ReportsHaveOwners(DoFile(env, s, pid, s.procs[pid], ok, stamp))
  {
    var after := DoFile(env, s, pid, s.procs[pid], ok, stamp);
    assert after.log == s.log;
    assert forall e, q :: ReportedBy(s, e, q) <==> ReportedBy(after, e, q);
    forall e | 1 <= e <= |s.log| && s.log[e - 1].kind == Audit.SCREENING_COMPLETED ensures HasReporter(after, e) {
      assert HasReporter(s, e);
    }
    forall q | q in after.procs && after.procs[q].Filing? ensures Reported(after.log, q, after.procs[q]) {
      assert Reported(s.log, q, s.procs[q]);
    }
  }

  lemma {:induction false} FileKeepsBooks(env: Env, s: State, pid: Pid, ok: bool, stamp: string)
    requires Booked(env, s) && pid in s.procs && s.procs[pid].Filing?
    ensures Booked(env, DoFile(env, s, pid, s.procs[pid], ok, stamp))
  {
    FileKeepsFiled(env, s, pid, ok, stamp);
    FileKeepsOwners(env, s, pid, ok, stamp);
    FileKeepsReports(env, s, pid, ok, stamp);
  }

  lemma {:induction false} DecideLeaves(s: State, pid: Pid, id: int, decision: string, header: string, stamp: string)
    requires Review.Numbered(s.cases)
    ensures LeavesFilings(s, DoDecide(s, pid, id, decision, header, stamp))
  {
    Review.DecideIsCompareAndSet(s.cases, pid.tenant, id, decision, DecidedBy(header), stamp);
  }

  lemma OthersLeave(env: Env, s: State, a: Action)
    requires Review.Numbered(s.cases)
    requires a.op.Upload? || a.op.Screen? || a.op.Ask? || (a.op.Decide? && !a.ok)
      || (a.op.Advance? && (Pid(a.tenant, a.op.n) in s.procs ==>
            s.procs[Pid(a.tenant, a.op.n)].Deciding? || s.procs[Pid(a.tenant, a.op.n)].Decided?))
    ensures LeavesFilings(s, Step(env, s, a))
  {
  }

  lemma {:induction false} StepKeepsBooks(env: Env, s: State, a: Action)
    requires Booked(env, s)
    ensures Booked(env, Step(env, s, a))
  {
    if a.op.Advance? && Pid(a.tenant, a.op.n) in s.procs && s.procs[Pid(a.tenant, a.op.n)].Auditing? {
      AuditKeepsCases(env, s, Pid(a.tenant, a.op.n), a.ok, a.stamp);
      AuditKeepsReports(s, Pid(a.tenant, a.op.n), a.ok, a.stamp);
    } else if a.op.Advance? && Pid(a.tenant, a.op.n) in s.procs && s.procs[Pid(a.tenant, a.op.n)].Filing? {
      FileKeepsBooks(env, s, Pid(a.tenant, a.op.n), a.ok, a.stamp);
    } else {
      if a.op.Decide? && a.ok {
        DecideLeaves(s, Pid(a.tenant, a.op.n), a.op.id, a.op.decision, a.op.header, a.stamp);
      } else {
        OthersLeave(env, s, a);
      }
      LeavingKeepsBooks(env, s, Step(env, s, a));
    }
  }

  /** In every run: a handler past its audit append has filed one case for each qualifying
      candidate it has looked at, in order, except where an insert failed; its event and its cases
      carry its screening; and every case and every screening event belongs to exactly one
      handler, so none is missing, duplicated or unexplained. */
  lemma {:induction false} ScreeningsAreBooked(env: Env, actions: seq<Action>)
    ensures Booked(env, Run(env, actions))
    decreases |actions|
  {
    if |actions| > 0 {
      ScreeningsAreBooked(env, actions[..|actions| - 1]);
      StepKeepsBooks(env, Run(env, actions[..|actions| - 1]), actions[|actions| - 1]);
    }
  }

  // ----- What cases and events say -----

  /** The row is about this candidate of a screening, which calls for review: it carries the
      screening's request and query, the candidate's name, list and confidence, the reasoning of its
      verification as sanitised, what flagging says of that, and the model and prompt in use. */
  ghost predicate TellsCandidate(env: Env, row: Review.CaseRow, query: string, result: Screening, c: Candidate) {
    && c.sensitivity == "sanctions_related" && c.confidence >= 0.9
    && row.request == result.request && row.query == query
    && row.candidate == c.name && row.list == c.list && row.confidence == c.confidence
    && row.reasoning == env.sanitize(match c.verification case Some(reasoning) => reasoning case None => "")
    && row.model == env.model && row.prompt == env.prompt && row.riskFlags == Join(env.flag(row.reasoning), ',')
  }

  /** The row is about some candidate of this handler's screening, which is pending. */
  ghost predicate AboutHighRisk(env: Env, s: State, row: Review.CaseRow, pid: Pid) {
    && pid in s.procs && s.procs[pid].Filing? && row.tenant == pid.tenant
    && s.procs[pid].result.status == "pending"
    && exists c :: c in s.procs[pid].result.candidates
         && TellsCandidate(env, row, s.procs[pid].query, s.procs[pid].result, c)
  }

  lemma {:induction false} QualifyingIsHighRisk(result: Screening, n: nat, j: nat)
    requires n <= |Todo(result)| && j < |Qualifying(result, n)|
    ensures Qualifies(Qualifying(result, n)[j]) && Qualifying(result, n)[j] in result.candidates
    ensures result.status == "pending"
  {
    PickSound(Qualifies, (c: Candidate) => c, Todo(result)[..n], Qualifying(result, n)[j]);
  }

  /** Every case of every run is about a sanctions-related candidate of confidence at least 0.9 that
      a pending screening of its tenant returned. */
  lemma {:induction false} CasesAreHighRisk(env: Env, actions: seq<Action>, s: State, id: int, row: Review.CaseRow)
    requires s == Run(env, actions) && 1 <= id <= |s.cases| && row == s.cases[id - 1]
    ensures exists pid :: AboutHighRisk(env, s, row, pid)
  {
    ScreeningsAreBooked(env, actions);
    assert HasFiler(s, id);
    var pid, j :| FiledBy(s, id, pid, j);
    var p := s.procs[pid];
    assert Filed(env, s.cases, pid, p);
    QualifyingIsHighRisk(p.result, p.next, j);
    FiledTells(env, row, pid, p, Qualifying(p.result, p.next)[j]);
    assert AboutHighRisk(env, s, row, pid);
  }

  lemma FiledTells(env: Env, row: Review.CaseRow, pid: Pid, p: Proc, c: Candidate)
    requires p.Filing? && FiledFor(env, row, pid, p, c) && Qualifies(c)
    ensures TellsCandidate(env, row, p.query, p.result, c) && row.tenant == pid.tenant
  {
  }

  /** The payload gives the query, the outcome and the candidates' names in order, and says whether
      any of them went through verification. */
  ghost predicate TellsScreening(row: Audit.EventRow, query: string, result: Screening) {
    && row.request == result.request && row.payload.Screening?
    && row.payload.query == query && row.payload.status == result.status
    && row.payload.totalMatches == result.totalMatches
    && |row.payload.names| == |result.candidates|
    && (forall i :: 0 <= i < |result.candidates| ==> row.payload.names[i] == result.candidates[i].name)
    && (row.payload.escalated <==> exists c :: c in result.candidates && c.verification.Some?)
  }

  ghost predicate ToldBy(s: State, row: Audit.EventRow, pid: Pid) {
    && pid in s.procs && s.procs[pid].Filing? && row.tenant == pid.tenant
    && TellsScreening(row, s.procs[pid].query, s.procs[pid].result)
  }

  lemma {:induction false} ReportTells(row: Audit.EventRow, pid: Pid, p: Proc)
    requires p.Filing? && ReportedFor(row, pid, p)
    ensures TellsScreening(row, p.query, p.result)
  {
    PickAll((c: Candidate) => true, NameOf, p.result.candidates);
    if c :| c in p.result.candidates && c.verification.Some? {
      var i :| 0 <= i < |p.result.candidates| && p.result.candidates[i] == c;
    }
  }

  /** Every screening event of every run tells a screening of its tenant. */
  lemma {:induction false} EventsTellScreenings(env: Env, actions: seq<Action>, s: State, e: int, row: Audit.EventRow)
    requires s == Run(env, actions) && 1 <= e <= |s.log| && row == s.log[e - 1] && row.kind == Audit.SCREENING_COMPLETED
    ensures exists pid :: ToldBy(s, row, pid)
  {
    ScreeningsAreBooked(env, actions);
    assert HasReporter(s, e);
    var pid :| ReportedBy(s, e, pid);
    assert Reported(s.log, pid, s.procs[pid]);
    ReportTells(row, pid, s.procs[pid]);
    assert ToldBy(s, row, pid);
  }
}
