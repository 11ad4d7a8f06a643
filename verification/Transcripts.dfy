/** What a tenant is answered along a run is what it would be answered alone, under one renaming of
    its case and event ids that keeps their order. */
module Transcripts {
  import Audit
  import Review
  import opened Csv
  import opened Erasure
  import opened Observations
  import opened Service
  import opened Tables
  import opened Wrappers

  /** What each of a tenant's own steps was answered, in order; None where the step left its request
      under way. */
  ghost function Transcript(env: Env, actions: seq<Action>, tenant: string): seq<Option<Answer>> {
    if |actions| == 0 then [] else
      var n := |actions| - 1;
      Transcript(env, actions[..n], tenant)
        + if actions[n].tenant == tenant then [Answered(env, Run(env, actions[..n]), actions[n])] else []
  }

  /** An answer with every case and event id in it renamed to the tenant's own numbering. */
  ghost function Renamed(s: State, tenant: string, answer: Answer): Answer {
    match answer
    case DecisionMade(id, decision) => DecisionMade(CaseName(s.cases, tenant, id), decision)
    case Cases(cases) => Cases(Mapped(CaseRenamer(s.cases, tenant), cases))
    case OneCase(c) => OneCase(CaseRenamer(s.cases, tenant)(c))
    case Events(events) => Events(Mapped(EventRenamer(s.log, s.cases, tenant), events))
    case _ => answer
  }

  ghost function Renamer(s: State, tenant: string): Option<Answer> -> Option<Answer> {
    (answer: Option<Answer>) => if answer.Some? then Some(Renamed(s, tenant, answer.value)) else None
  }

  // ----- One answer -----

  lemma {:induction false} NamesStayPositive(cases: seq<Review.CaseRow>, tenant: string, id: int)
    ensures CaseName(cases, tenant, id) > 0 <==> id > 0
  {
    if 1 <= id <= |cases| && cases[id - 1].tenant == tenant {
      LocalAt(OwnCase(tenant), NumberCase(), cases, id - 1);
    }
  }

  /** The step answers its tenant the same on the tenant's own part of the stores, ids renamed. */
  ghost predicate AnswersAlike(env: Env, s: State, a: Action) {
    Answered(env, LocalState(s, a.tenant), LocalAction(s, a)) == Renamer(s, a.tenant)(Answered(env, s, a))
  }

  lemma {:induction false} UploadAnswersAlike(env: Env, s: State, a: Action)
    requires a.op.Upload?
    ensures AnswersAlike(env, s, a)
  {
    var list, parsed := ListName(a.op.path), Parsed(a.op.heading, a.op.data);
    MaxVersionLocal(s.lists, a.tenant, list);
    assert LocalAction(s, a) == a;
    assert UploadAnswer(LocalState(s, a.tenant).lists, a.tenant, list, parsed, a.ok)
      == UploadAnswer(s.lists, a.tenant, list, parsed, a.ok);
  }

  lemma {:induction false} DecideAnswersAlike(env: Env, s: State, a: Action)
    requires Owned(s) && a.op.Decide?
    ensures AnswersAlike(env, s, a)
  {
    NamesStayPositive(s.cases, a.tenant, a.op.id);
    CanDecideLocal(s.cases, a.tenant, a.op.id);
  }

  lemma {:induction false} ScreenAnswersAlike(env: Env, s: State, a: Action)
    requires a.op.Screen?
    ensures AnswersAlike(env, s, a)
  {
    SuspectsLocal(s.lists, a.tenant);
  }

  lemma AdvanceAnswersAlike(env: Env, s: State, a: Action)
    requires a.op.Advance?
    ensures AnswersAlike(env, s, a)
  {
  }

  lemma {:induction false} GetAlike(s: State, tenant: string, id: int, ok: bool)
    requires Owned(s)
    ensures AskAnswer(LocalState(s, tenant), tenant, GetCase(CaseName(s.cases, tenant, id)), ok)
      == Renamed(s, tenant, AskAnswer(s, tenant, GetCase(id), ok))
  {
    NamesStayPositive(s.cases, tenant, id);
    SameCases(s, tenant, "", 0, id);
  }

  lemma {:induction false} ListCasesAlike(s: State, tenant: string, status: string, limit: int, ok: bool)
    requires Owned(s)
    ensures AskAnswer(LocalState(s, tenant), tenant, ListCases(status, limit), ok)
      == Renamed(s, tenant, AskAnswer(s, tenant, ListCases(status, limit), ok))
  {
    SameCases(s, tenant, status, PageSize(limit, 200, 50), 0);
  }

  lemma {:induction false} ListAuditAlike(s: State, tenant: string, request: string, kind: string, limit: int, ok: bool)
    requires Owned(s) && tenant != ""
    ensures AskAnswer(LocalState(s, tenant), tenant, ListAudit(request, kind, limit), ok)
      == Renamed(s, tenant, AskAnswer(s, tenant, ListAudit(request, kind, limit), ok))
  {
    SameEvents(s, tenant, request, kind, PageSize(limit, 500, 100), "");
  }

  lemma {:induction false} WatchlistsAlike(s: State, tenant: string, ok: bool)
    ensures AskAnswer(LocalState(s, tenant), tenant, ListWatchlists, ok)
      == Renamed(s, tenant, AskAnswer(s, tenant, ListWatchlists, ok))
  {
    SameWatchlists(s, tenant, "");
  }

  lemma {:induction false} AskAlike(s: State, tenant: string, question: Question, ok: bool)
    requires Owned(s) && tenant != ""
    ensures AskAnswer(LocalState(s, tenant), tenant, LocalQuestion(s, tenant, question), ok)
      == Renamed(s, tenant, AskAnswer(s, tenant, question, ok))
  {
    match question
    case GetCase(id) => GetAlike(s, tenant, id, ok);
    case ListCases(status, limit) => ListCasesAlike(s, tenant, status, limit, ok);
    case ListAudit(request, kind, limit) => ListAuditAlike(s, tenant, request, kind, limit, ok);
    case ListWatchlists => WatchlistsAlike(s, tenant, ok);
  }

  lemma {:induction false} AskAnswersAlike(env: Env, s: State, a: Action)
    requires Owned(s) && a.tenant != "" && a.op.Ask?
    ensures AnswersAlike(env, s, a)
  {
    AskAlike(s, a.tenant, a.op.question, a.ok);
  }

  lemma {:induction false} AllAnswersAlike(env: Env, s: State, a: Action)
    requires Owned(s) && a.tenant != ""
    ensures AnswersAlike(env, s, a)
  {
    match a.op
    case Upload(_, _, _) => UploadAnswersAlike(env, s, a);
    case Decide(_, _, _, _) => DecideAnswersAlike(env, s, a);
    case Screen(_, _, _, _) => ScreenAnswersAlike(env, s, a);
    case Advance(_) => AdvanceAnswersAlike(env, s, a);
    case Ask(_) => AskAnswersAlike(env, s, a);
  }

  // ----- The renaming of an answer never changes -----

  ghost predicate OwnsCase(s: State, tenant: string, id: int) {
    1 <= id <= |s.cases| && s.cases[id - 1].tenant == tenant
  }

  ghost predicate OwnsEvent(s: State, tenant: string, e: Audit.Event) {
    1 <= e.id <= |s.log| && (e.payload.Decision? ==> OwnsCase(s, tenant, e.payload.caseId))
  }

  /** Every id in the answer is in use, and the tenant's. */
  ghost predicate AnswerOwns(s: State, tenant: string, answer: Answer) {
    match answer
    case DecisionMade(id, _) => OwnsCase(s, tenant, id)
    case Cases(cases) => forall i :: 0 <= i < |cases| ==> OwnsCase(s, tenant, cases[i].id)
    case OneCase(c) => OwnsCase(s, tenant, c.id)
    case Events(events) => forall i :: 0 <= i < |events| ==> OwnsEvent(s, tenant, events[i])
    case _ => true
  }

  lemma PageFrom<U>(all: seq<U>, n: nat, u: U)
    requires u in First(Reversed(all), n)
    ensures u in all
  {
    var i :| 0 <= i < |First(Reversed(all), n)| && First(Reversed(all), n)[i] == u;
    assert all[|all| - 1 - i] == u;
  }

  /** A page holds nothing but what was selected. */
  lemma {:induction false} PageFromRows<T, U>(p: T -> bool, f: T -> U, rows: seq<T>, n: nat, u: U)
    requires u in First(Reversed(Pick(p, f, rows)), n)
    ensures exists row :: row in rows && p(row) && f(row) == u
  {
    PageFrom(Pick(p, f, rows), n, u);
    PickSound(p, f, rows, u);
  }

  lemma {:induction false} CasesOwned(s: State, tenant: string, status: string, limit: int)
    requires Owned(s)
    ensures AnswerOwns(s, tenant, Cases(Review.Listed(s.cases, tenant, status, limit)))
  {
    var page := Review.Listed(s.cases, tenant, status, limit);
    forall i | 0 <= i < |page| ensures OwnsCase(s, tenant, page[i].id) {
      PageFromRows(Review.MatchesStatus(tenant, status), Review.Scanned, s.cases, Limit(limit), page[i]);
    }
  }

  lemma {:induction false} EventsOwned(s: State, tenant: string, request: string, kind: string, limit: int)
    requires Owned(s) && tenant != ""
    ensures AnswerOwns(s, tenant, Events(Audit.Queried(s.log, tenant, request, kind, limit)))
  {
    var page := Audit.Queried(s.log, tenant, request, kind, limit);
    forall i | 0 <= i < |page| ensures OwnsEvent(s, tenant, page[i]) {
      PageFromRows(Audit.Matches(tenant, request, kind), Audit.Scanned, s.log, Limit(limit), page[i]);
      var row :| row in s.log && Audit.Matches(tenant, request, kind)(row) && Audit.Scanned(row) == page[i];
      var j :| 0 <= j < |s.log| && s.log[j] == row;
      assert EventOwns(s, s.log[j]);
    }
  }

  lemma {:induction false} CaseOwned(s: State, tenant: string, id: int, ok: bool)
    requires Owned(s)
    ensures AnswerOwns(s, tenant, AskAnswer(s, tenant, GetCase(id), ok))
  {
    Review.FoundInPlace(s.cases, tenant, id);
  }

  lemma {:induction false} AskOwns(s: State, tenant: string, question: Question, ok: bool)
    requires Owned(s) && tenant != ""
    ensures AnswerOwns(s, tenant, AskAnswer(s, tenant, question, ok))
  {
    match question
    case ListCases(status, limit) => CasesOwned(s, tenant, status, PageSize(limit, 200, 50));
    case GetCase(id) => CaseOwned(s, tenant, id, ok);
    case ListAudit(request, kind, limit) => EventsOwned(s, tenant, request, kind, PageSize(limit, 500, 100));
    case ListWatchlists =>
  }

  /** The answer of a step mentions ids in use only, before the step or after it. */
  lemma {:induction false} StepAnswerOwns(env: Env, s: State, a: Action)
    requires Owned(s) && a.tenant != "" && Answered(env, s, a).Some?
    ensures AnswerOwns(s, a.tenant, Answered(env, s, a).value)
  {
    if a.op.Ask? {
      AskOwns(s, a.tenant, a.op.question, a.ok);
    } else if a.op.Advance? {
      assert ProcOwns(s, Pid(a.tenant, a.op.n), s.procs[Pid(a.tenant, a.op.n)]);
    }
  }

  lemma {:induction false} EventStable(s: State, after: State, tenant: string, e: Audit.Event)
    requires Extends(s, after) && OwnsEvent(s, tenant, e)
    ensures EventRenamer(after.log, after.cases, tenant)(e) == EventRenamer(s.log, s.cases, tenant)(e)
    ensures OwnsEvent(after, tenant, e)
  {
    assert after.log[..e.id] == s.log[..e.id];
    if e.payload.Decision? {
      NamesStable(s, after, tenant, e.payload.caseId);
    }
  }

  /** Later steps do not rename what was answered. */
  lemma {:induction false} RenamedStable(s: State, after: State, tenant: string, answer: Answer)
    requires Extends(s, after) && AnswerOwns(s, tenant, answer)
    ensures Renamed(after, tenant, answer) == Renamed(s, tenant, answer) && AnswerOwns(after, tenant, answer)
  {
    match answer
    case DecisionMade(id, _) => NamesStable(s, after, tenant, id);
    case OneCase(c) => NamesStable(s, after, tenant, c.id);
    case Cases(cases) =>
      forall i | 0 <= i < |cases|
        ensures CaseName(after.cases, tenant, cases[i].id) == CaseName(s.cases, tenant, cases[i].id)
      {
        NamesStable(s, after, tenant, cases[i].id);
      }
    case Events(events) =>
      forall i | 0 <= i < |events|
        ensures EventRenamer(after.log, after.cases, tenant)(events[i])
          == EventRenamer(s.log, s.cases, tenant)(events[i])
        ensures OwnsEvent(after, tenant, events[i])
      {
        EventStable(s, after, tenant, events[i]);
      }
    case _ =>
  }

  // ----- All answers -----

  ghost predicate AllOwned(s: State, tenant: string, answers: seq<Option<Answer>>) {
    forall i :: 0 <= i < |answers| && answers[i].Some? ==> AnswerOwns(s, tenant, answers[i].value)
  }

  lemma {:induction false} AnswersStable(s: State, after: State, tenant: string, answers: seq<Option<Answer>>)
    requires Extends(s, after) && AllOwned(s, tenant, answers)
    ensures Mapped(Renamer(after, tenant), answers) == Mapped(Renamer(s, tenant), answers)
    ensures AllOwned(after, tenant, answers)
  {
    forall i | 0 <= i < |answers| && answers[i].Some?
      ensures Renamed(after, tenant, answers[i].value) == Renamed(s, tenant, answers[i].value)
      ensures AnswerOwns(after, tenant, answers[i].value)
    {
      RenamedStable(s, after, tenant, answers[i].value);
    }
  }

  lemma MappedAppend<T, U>(f: T -> U, s: seq<T>, t: T)
    ensures Mapped(f, s + [t]) == Mapped(f, s) + [f(t)]
  {
  }

  /** For every interleaved run and every tenant: had all other tenants' requests never been made,
      every request of the tenant would have been answered as it was - the same refusals and
      failures, versions, list names, screening results, case and event pages - but for one renaming
      of its case and event ids, which keeps their order. */
  lemma {:induction false} SameTranscript(env: Env, actions: seq<Action>, tenant: string)
    requires tenant != ""
    ensures Transcript(env, LocalActions(env, actions, tenant), tenant)
      == Mapped(Renamer(Run(env, actions), tenant), Transcript(env, actions, tenant))
    ensures AllOwned(Run(env, actions), tenant, Transcript(env, actions, tenant))
    decreases |actions|
  {
    if |actions| > 0 {
      var n := |actions| - 1;
      var s, own, answers := Run(env, actions[..n]), LocalActions(env, actions[..n], tenant),
                             Transcript(env, actions[..n], tenant);
      SameTranscript(env, actions[..n], tenant);
      StepExtends(env, s, actions[n]);
      AnswersStable(s, Run(env, actions), tenant, answers);
      if actions[n].tenant == tenant {
        OneMoreAnswer(env, actions, tenant);
        MappedAppend(Renamer(Run(env, actions), tenant), answers, Answered(env, s, actions[n]));
      } else {
        assert own + [] == own && answers + [] == answers;
      }
    }
  }

  /** Alone, the tenant's next request meets its own part of the stores and is answered alike. */
  lemma {:induction false} NextAnswer(env: Env, rest: seq<Action>, a: Action)
    requires a.tenant != ""
    ensures Answered(env, Run(env, LocalActions(env, rest, a.tenant)), LocalAction(Run(env, rest), a))
      == Renamer(Run(env, rest), a.tenant)(Answered(env, Run(env, rest), a))
  {
    RunsOwn(env, rest);
    OthersCanBeErased(env, rest, a.tenant);
    AllAnswersAlike(env, Run(env, rest), a);
  }

  /** The step itself does not rename its answer. */
  lemma {:induction false} AnswerStable(env: Env, rest: seq<Action>, a: Action)
    requires a.tenant != ""
    ensures var s, now := Run(env, rest), Answered(env, Run(env, rest), a);
      && Renamer(Step(env, s, a), a.tenant)(now) == Renamer(s, a.tenant)(now)
      && AllOwned(Step(env, s, a), a.tenant, [now])
  {
    var s, now := Run(env, rest), Answered(env, Run(env, rest), a);
    RunsOwn(env, rest);
    StepExtends(env, s, a);
    if now.Some? {
      StepAnswerOwns(env, s, a);
      RenamedStable(s, Step(env, s, a), a.tenant, now.value);
    }
  }

  /** The last step is the tenant's. */
  lemma {:induction false} OneMoreAnswer(env: Env, actions: seq<Action>, tenant: string)
    requires tenant != "" && |actions| > 0 && actions[|actions| - 1].tenant == tenant
    ensures var n := |actions| - 1;
      var own, now := LocalActions(env, actions[..n], tenant), Answered(env, Run(env, actions[..n]), actions[n]);
      && Transcript(env, LocalActions(env, actions, tenant), tenant)
         == Transcript(env, own, tenant) + [Renamer(Run(env, actions), tenant)(now)]
      && AllOwned(Run(env, actions), tenant, [now])
  {
    var n := |actions| - 1;
    var a, own := actions[n], LocalActions(env, actions[..n], tenant);
    var next := LocalAction(Run(env, actions[..n]), a);
    NextAnswer(env, actions[..n], a);
    AnswerStable(env, actions[..n], a);
    assert next.tenant == tenant && (own + [next])[..|own|] == own;
  }
}
