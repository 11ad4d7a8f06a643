/** The handlers as they run against the store objects: undisturbed, each does what its steps in
    the service model do in a row. */
module Handlers {
  import Audit
  import Gateway
  import Review
  import Tenants
  import Watchlist
  import WatchlistRuns
  import opened Csv
  import opened ScreeningLedger
  import opened Service
  import opened Tables
  import opened Text
  import opened Timestamps
  import opened Wrappers

  // ----- The tenant middleware -----

  datatype Refusal = Unauthorized | LookupFailed

  lemma {:induction false} KeyIsLookedUp(rows: seq<Tenants.Tenant>, keyHash: string)
    ensures var found := Tenants.ByHash(rows, keyHash);
      if found.Some? then exists i :: 0 <= i < |rows| && rows[i].keyHash == keyHash && rows[i] == found.value
      else forall i :: 0 <= i < |rows| ==> rows[i].keyHash != keyHash
    decreases |rows|
  {
    if |rows| > 0 && rows[|rows| - 1].keyHash != keyHash {
      KeyIsLookedUp(rows[..|rows| - 1], keyHash);
    }
  }

  /** TenantMiddleware: 401 for a missing or unknown key, 500 when the lookup fails; otherwise the
      handler gets the session of the tenant whose key it is, as one Enter event does. */
  method Authenticate(store: Tenants.Store, rawKey: string, done: bool) returns (r: Result<Gateway.Session, Refusal>)
    ensures r == if rawKey != "" && !done then Err(LookupFailed)
                 else
                   var session := Gateway.Admitted(store.hash, store.rows, rawKey);
                   if session.Some? then Ok(session.value) else Err(Unauthorized)
    ensures r == Err(LookupFailed) <==> rawKey != "" && !done
    ensures r == Err(Unauthorized) <==>
      rawKey == "" || (done && forall i :: 0 <= i < |store.rows| ==> store.rows[i].keyHash != store.hash(rawKey))
    ensures r.Ok? ==> exists i :: (0 <= i < |store.rows| && store.rows[i].keyHash == store.hash(rawKey)
                                   && r.value == Gateway.Session(store.rows[i].id, store.rows[i].cascade))
  {
    KeyIsLookedUp(store.rows, store.hash(rawKey));
    if rawKey == "" {
      return Err(Unauthorized);
    }
    var found := store.LookupByAPIKey(rawKey, done);
    if found == Err(Tenants.NotFound) {
      return Err(Unauthorized);
    } else if found.Err? {
      return Err(LookupFailed);
    }
    r := Ok(Gateway.Session(found.value.id, found.value.cascade));
  }

  // ----- DecideCase -----

  /** The stores as one request finds them, with no other request under way. */
  ghost function Alone(lists: seq<Watchlist.Entry>, cases: seq<Review.CaseRow>, log: seq<Audit.EventRow>): State {
    State(lists, cases, log, map[])
  }

  /** The UPDATE of a decision, and the audit append after it. */
  ghost function DecisionSteps(tenant: string, id: int, decision: string, header: string, done: bool,
      recorded: bool, stamp: string, later: string): (Action, Action)
  {
    (Action(tenant, Decide(0, id, decision, header), done, stamp), Action(tenant, Advance(0), recorded, later))
  }

  /** What two steps in a row answer: the first answer counts. */
  ghost function PairAnswer(env: Env, s: State, steps: (Action, Action)): Option<Answer> {
    var first := Answered(env, s, steps.0);
    if first.Some? then first else Answered(env, Step(env, s, steps.0), steps.1)
  }

  /** An UPDATE that matches no row leaves the table as it was. */
  lemma Unchanged(rows: seq<Review.CaseRow>, tenant: string, id: int, status: string, reviewer: string, stamp: string)
    requires !Review.CanDecide(rows, tenant, id)
    ensures Review.Decided(rows, tenant, id, status, reviewer, stamp) == rows
  {
  }

  /** What those steps leave in the tables and answer. */
  lemma DecisionOutcome(env: Env, cases: seq<Review.CaseRow>, log: seq<Audit.EventRow>, tenant: string,
      id: int, decision: string, header: string, done: bool, recorded: bool, stamp: string, later: string,
      steps: (Action, Action), s: State)
    requires steps == DecisionSteps(tenant, id, decision, header, done, recorded, stamp, later)
    requires s == Step(env, Step(env, Alone([], cases, log), steps.0), steps.1)
    ensures var won := id > 0 && IsDecision(decision) && done && Review.CanDecide(cases, tenant, id);
      && s.cases == (if won then Review.Decided(cases, tenant, id, decision, DecidedBy(header), stamp) else cases)
      && s.log == (if won && recorded
                   then Audit.Recorded(log, DecisionEvent(tenant, id, decision, DecidedBy(header)), later) else log)
    ensures PairAnswer(env, Alone([], cases, log), steps) == Some(
      if id <= 0 || !IsDecision(decision) then BadRequest
      else if !done then ServerError
      else if Review.CanDecide(cases, tenant, id) then DecisionMade(id, decision)
      else Conflict)
  {
  }

  /** A name a decision can be signed with. */
  ghost predicate Signs(v: string) {
    && 1 <= |v| <= 128
    && forall i :: 0 <= i < |v| ==>
         || 'A' <= v[i] <= 'Z' || 'a' <= v[i] <= 'z' || '0' <= v[i] <= '9'
         || v[i] == '.' || v[i] == '_' || v[i] == '%' || v[i] == '+' || v[i] == '-' || v[i] == '@'
  }

  ghost predicate Holds(header: string, v: string) {
    exists lead, trail :: White(lead) && White(trail) && header == lead + v + trail
  }

  /** The author of a decision: what the header holds between white space if that can sign, or else
      the API itself. */
  ghost predicate Authored(header: string, author: string) {
    (Signs(author) && Holds(header, author)) || (author == "api" && forall v :: Holds(header, v) ==> !Signs(v))
  }

  lemma {:induction false} SignatureIsTrimmed(header: string, v: string)
    requires Signs(v) && Holds(header, v)
    ensures Trim(header) == v
  {
    var lead, trail :| White(lead) && White(trail) && header == lead + v + trail;
    assert v[0] !in WHITE_SPACE && v[|v| - 1] !in WHITE_SPACE;
    assert Surrounds(lead, v, trail);
    TrimIff(header, v);
  }

  lemma {:induction false} AuthorIff(header: string, author: string)
    ensures DecidedBy(header) == author <==> Authored(header, author)
  {
    var lead, trail := TrimCuts(header);
    assert Holds(header, Trim(header));
    forall v | Signs(v) && Holds(header, v) ensures DecidedBy(header) == v {
      SignatureIsTrimmed(header, v);
    }
    assert Signs(Trim(header)) <==> ReviewerPattern(Trim(header));
  }

  /** The tables once a decision by this author was made, or was not. */
  ghost predicate LeavesDecision(cases: seq<Review.CaseRow>, log: seq<Audit.EventRow>, tenant: string, id: int,
      decision: string, author: string, made: bool, recorded: bool, stamp: string, later: string,
      casesNow: seq<Review.CaseRow>, logNow: seq<Audit.EventRow>)
  {
    && |casesNow| == |cases|
    && (forall i :: 0 <= i < |cases| ==>
          casesNow[i] == if made && cases[i].tenant == tenant && cases[i].id == id && cases[i].status == "pending"
                         then cases[i].(status := decision, decidedAt := Some(stamp), decidedBy := Some(author))
                         else cases[i])
    && logNow == log +
         if made && recorded
         then [Audit.EventRow(|log| + 1, tenant, "", "case_decision", Audit.Decision(id, decision, author), later)]
         else []
  }

  /** Whether the table has the tenant's case and it is pending. */
  ghost predicate Undecided(cases: seq<Review.CaseRow>, tenant: string, id: int) {
    exists i :: 0 <= i < |cases| && cases[i].tenant == tenant && cases[i].id == id && cases[i].status == "pending"
  }

  /** A decision that finds the stores as given ends with these tables: as its two steps leave them, and
      its answer is theirs. */
  ghost predicate DecisionEnds(env: Env, cases: seq<Review.CaseRow>, log: seq<Audit.EventRow>, tenant: string,
      id: int, decision: string, header: string, done: bool, recorded: bool, stamp: string, later: string,
      casesNow: seq<Review.CaseRow>, logNow: seq<Audit.EventRow>, r: Answer)
  {
    var from, steps := Alone([], cases, log), DecisionSteps(tenant, id, decision, header, done, recorded, stamp, later);
    var s := Step(env, Step(env, from, steps.0), steps.1);
    casesNow == s.cases && logNow == s.log && Some(r) == PairAnswer(env, from, steps)
  }

  /** Some author the header stands for has made this decision of the tables. */
  ghost predicate LeavesAuthored(cases: seq<Review.CaseRow>, log: seq<Audit.EventRow>, tenant: string, id: int,
      decision: string, header: string, made: bool, recorded: bool, stamp: string, later: string,
      casesNow: seq<Review.CaseRow>, logNow: seq<Audit.EventRow>)
  {
    exists author :: (Authored(header, author)
      && LeavesDecision(cases, log, tenant, id, decision, author, made, recorded, stamp, later, casesNow, logNow))
  }

  /** The review table and the log after a decision that was made, or was not. */
  ghost function CasesDecided(cases: seq<Review.CaseRow>, tenant: string, id: int, decision: string, author: string,
      made: bool, stamp: string): seq<Review.CaseRow>
  {
    if made then Review.Decided(cases, tenant, id, decision, author, stamp) else cases
  }

  ghost function LogDecided(log: seq<Audit.EventRow>, tenant: string, id: int, decision: string, author: string,
      made: bool, stamp: string): seq<Audit.EventRow>
  {
    if made then Audit.Recorded(log, DecisionEvent(tenant, id, decision, author), stamp) else log
  }

  lemma {:induction false} DecisionLeaves(cases: seq<Review.CaseRow>, log: seq<Audit.EventRow>, tenant: string,
      id: int, decision: string, header: string, made: bool, recorded: bool, stamp: string, later: string)
    ensures LeavesAuthored(cases, log, tenant, id, decision, header, made, recorded, stamp, later,
      CasesDecided(cases, tenant, id, decision, DecidedBy(header), made, stamp),
      LogDecided(log, tenant, id, decision, DecidedBy(header), made && recorded, later))
  {
    AuthorIff(header, DecidedBy(header));
    assert LeavesDecision(cases, log, tenant, id, decision, DecidedBy(header), made, recorded, stamp, later,
      CasesDecided(cases, tenant, id, decision, DecidedBy(header), made, stamp),
      LogDecided(log, tenant, id, decision, DecidedBy(header), made && recorded, later));
  }

  lemma UndecidedIff(cases: seq<Review.CaseRow>, tenant: string, id: int)
    ensures Review.CanDecide(cases, tenant, id) <==> Undecided(cases, tenant, id)
  {
    if i :| 0 <= i < |cases| && cases[i].tenant == tenant && cases[i].id == id && cases[i].status == "pending" {
      assert Review.Decidable(cases[i], tenant, id);
    }
  }

  /** What the handler answers a valid decision. */
  ghost function Decidedly(id: int, decision: string, done: bool, possible: bool): Answer {
    if !done then ServerError else if possible then DecisionMade(id, decision) else Conflict
  }

  lemma DecisionAnswers(env: Env, cases: seq<Review.CaseRow>, log: seq<Audit.EventRow>, tenant: string, id: int,
      decision: string, header: string, done: bool, recorded: bool, stamp: string, later: string)
    ensures var valid, possible := id > 0 && IsDecision(decision), Review.CanDecide(cases, tenant, id);
      DecisionEnds(env, cases, log, tenant, id, decision, header, done, recorded, stamp, later,
        CasesDecided(cases, tenant, id, decision, DecidedBy(header), valid && done && possible, stamp),
        LogDecided(log, tenant, id, decision, DecidedBy(header), valid && done && possible && recorded, later),
        if valid then Decidedly(id, decision, done, possible) else BadRequest)
  {
    var from, steps := Alone([], cases, log), DecisionSteps(tenant, id, decision, header, done, recorded, stamp, later);
    DecisionOutcome(env, cases, log, tenant, id, decision, header, done, recorded, stamp, later, steps,
                    Step(env, Step(env, from, steps.0), steps.1));
  }

  /** The writes of a valid decision: the compare-and-set and, if that succeeds, the audit append. */
  method WriteDecision(reviews: Review.Store, audit: Audit.Store, tenant: string, id: int, decision: string,
      author: string, done: bool, recorded: bool, now: Instant, later: Instant) returns (r: Answer)
    requires IsDecision(decision)
    modifies reviews, audit
    ensures var possible := Review.CanDecide(old(reviews.rows), tenant, id);
      && r == Decidedly(id, decision, done, possible)
      && reviews.rows == CasesDecided(old(reviews.rows), tenant, id, decision, author, done && possible,
                                      Format(UTC(now)))
      && audit.rows == LogDecided(old(audit.rows), tenant, id, decision, author, done && possible && recorded,
                                  Format(UTC(later)))
  {
    var decided := reviews.Decide(tenant, id, decision, author, now, done);
    if decided == Err(Review.NoRows) {
      Unchanged(old(reviews.rows), tenant, id, decision, author, Format(UTC(now)));
      return Conflict;
    } else if decided.Err? {
      return ServerError;
    }
    if recorded {
      var _ := audit.Record(DecisionEvent(tenant, id, decision, author), later);
    }
    r := DecisionMade(id, decision);
  }

  /** DecideCase: 400 for a bad id or decision, 500 when its UPDATE fails, 409 when the
      compare-and-set does; otherwise 200, whether or not the event could be appended. The tables then
      show the decision and its author, and are, like the answer, those of its two steps. */
  method DecideCase(ghost env: Env, reviews: Review.Store, audit: Audit.Store, tenant: string, id: int,
      decision: string, header: string, done: bool, recorded: bool, now: Instant, later: Instant) returns (r: Answer)
    modifies reviews, audit
    ensures r == if id <= 0 || decision !in {"approved", "rejected", "false_positive"} then BadRequest
                 else if !done then ServerError
                 else if Undecided(old(reviews.rows), tenant, id) then DecisionMade(id, decision)
                 else Conflict
    ensures LeavesAuthored(old(reviews.rows), old(audit.rows), tenant, id, decision, header, r.DecisionMade?, recorded,
                           Format(UTC(now)), Format(UTC(later)), reviews.rows, audit.rows)
    ensures DecisionEnds(env, old(reviews.rows), old(audit.rows), tenant, id, decision, header, done, recorded,
                         Format(UTC(now)), Format(UTC(later)), reviews.rows, audit.rows, r)
  {
    ghost var made := id > 0 && IsDecision(decision) && done && Review.CanDecide(reviews.rows, tenant, id);
    UndecidedIff(reviews.rows, tenant, id);
    DecisionLeaves(reviews.rows, audit.rows, tenant, id, decision, header, made, recorded, Format(UTC(now)),
                   Format(UTC(later)));
    DecisionAnswers(env, reviews.rows, audit.rows, tenant, id, decision, header, done, recorded, Format(UTC(now)),
                    Format(UTC(later)));
    if id <= 0 {
      return BadRequest;
    }
    if decision != Review.APPROVED && decision != Review.REJECTED && decision != Review.FALSE_POSITIVE {
      return BadRequest;
    }
    var reviewer := SanitizeReviewer(header);
    if reviewer == "" {
      reviewer := "api";
    }
    r := WriteDecision(reviews, audit, tenant, id, decision, reviewer, done, recorded, now, later);
  }

  // ----- ScreenTenant -----

  /** A screening nobody interrupts, up to and including pass n of its case loop; ok(0) tells
      whether its event could be appended and ok(i) whether pass i could insert its case. */
  ghost function ScreeningAlone(env: Env, from: State, tenant: string, query: Query, cascade: bool, draw: nat,
      ok: nat -> bool, stamp: nat -> string, n: nat): State
    decreases n, 1
  {
    Step(env, BeforePass(env, from, tenant, query, cascade, draw, ok, stamp, n),
         Action(tenant, Advance(0), ok(n), stamp(n)))
  }

  /** The state the audit append finds, which counts as pass 0, or a later pass. */
  ghost function BeforePass(env: Env, from: State, tenant: string, query: Query, cascade: bool, draw: nat,
      ok: nat -> bool, stamp: nat -> string, n: nat): State
    decreases n, 0
  {
    if n == 0 then Step(env, from, Action(tenant, Screen(0, query, cascade, draw), true, ""))
    else ScreeningAlone(env, from, tenant, query, cascade, draw, ok, stamp, n - 1)
  }

  /** The review table after a pass over this candidate. */
  ghost function AfterPass(env: Env, cases: seq<Review.CaseRow>, tenant: string, query: string, request: string,
      c: Candidate, ok: bool, stamp: string): seq<Review.CaseRow>
  {
    if Qualifies(c) && ok then Review.Created(cases, CaseOf(env, tenant, query, request, c), stamp) else cases
  }

  /** The review table after n passes over some candidates; pass i is the (i + 1)-th write. */
  ghost function CasesAfter(env: Env, cases: seq<Review.CaseRow>, tenant: string, query: string, request: string,
      todo: seq<Candidate>, ok: nat -> bool, stamp: nat -> string, n: nat): seq<Review.CaseRow>
    requires n <= |todo|
  {
    if n == 0 then cases else
      AfterPass(env, CasesAfter(env, cases, tenant, query, request, todo, ok, stamp, n - 1), tenant, query, request,
                todo[n - 1], ok(n), stamp(n))
  }

  /** The log after the audit append. */
  ghost function LogAfter(log: seq<Audit.EventRow>, tenant: string, query: string, result: Screening,
      recorded: bool, stamp: string): seq<Audit.EventRow>
  {
    if recorded then Audit.Recorded(log, ScreeningEvent(tenant, query, result), stamp) else log
  }

  /** Where n passes leave the tables and the handler. */
  ghost predicate Midway(env: Env, from: State, s: State, tenant: string, query: string, result: Screening,
      ok: nat -> bool, stamp: nat -> string, n: nat)
    requires n <= |Todo(result)|
  {
    var pid := Pid(tenant, 0);
    && s.cases == CasesAfter(env, from.cases, tenant, query, result.request, Todo(result), ok, stamp, n)
    && s.log == LogAfter(from.log, tenant, query, result, ok(0), stamp(0))
    && pid in s.procs && s.procs[pid].Filing?
    && s.procs[pid].query == query && s.procs[pid].result == result && s.procs[pid].next == n
  }

  /** One more pass. */
  lemma {:induction false} PassLeads(env: Env, from: State, s: State, tenant: string, query: string,
      result: Screening, ok: nat -> bool, stamp: nat -> string, n: nat)
    requires n < |Todo(result)| && Midway(env, from, s, tenant, query, result, ok, stamp, n)
    ensures Midway(env, from, Step(env, s, Action(tenant, Advance(0), ok(n + 1), stamp(n + 1))), tenant, query, result,
                   ok, stamp, n + 1)
    ensures Answered(env, s, Action(tenant, Advance(0), ok(n + 1), stamp(n + 1)))
      == if n + 1 == |Todo(result)| then Some(Screened(result)) else None
  {
  }

  /** The audit append comes first. */
  lemma {:induction false} AppendStarts(env: Env, from: State, s: State, tenant: string, query: Query, cascade: bool,
      draw: nat, ok: nat -> bool, stamp: nat -> string, result: Screening)
    requires env.screen(query, tenant, Suspects(from.lists, tenant), cascade, draw) == Some(result)
    requires from.procs == map[] && s == Step(env, from, Action(tenant, Screen(0, query, cascade, draw), true, ""))
    ensures Midway(env, from, Step(env, s, Action(tenant, Advance(0), ok(0), stamp(0))), tenant, query.name, result,
                   ok, stamp, 0)
    ensures Answered(env, s, Action(tenant, Advance(0), ok(0), stamp(0)))
      == if |Todo(result)| == 0 then Some(Screened(result)) else None
  {
    assert s.procs[Pid(tenant, 0)] == Auditing(query.name, result);
  }

  /** The handler's steps leave these tables. */
  lemma {:induction false} ScreeningTables(env: Env, from: State, tenant: string, query: Query, cascade: bool,
      draw: nat, ok: nat -> bool, stamp: nat -> string, result: Screening, n: nat)
    requires from.procs == map[] && n <= |Todo(result)|
    requires env.screen(query, tenant, Suspects(from.lists, tenant), cascade, draw) == Some(result)
    ensures Midway(env, from, ScreeningAlone(env, from, tenant, query, cascade, draw, ok, stamp, n), tenant, query.name,
                   result, ok, stamp, n)
    decreases n
  {
    var s := BeforePass(env, from, tenant, query, cascade, draw, ok, stamp, n);
    if n == 0 {
      AppendStarts(env, from, s, tenant, query, cascade, draw, ok, stamp, result);
    } else {
      ScreeningTables(env, from, tenant, query, cascade, draw, ok, stamp, result, n - 1);
      PassLeads(env, from, s, tenant, query.name, result, ok, stamp, n - 1);
    }
  }

  /** Its loop is over after one pass per candidate, and it answers then. */
  lemma {:induction false} ScreeningAnswers(env: Env, from: State, tenant: string, query: Query, cascade: bool,
      draw: nat, ok: nat -> bool, stamp: nat -> string, result: Screening, n: nat)
    requires from.procs == map[] && n <= |Todo(result)|
    requires env.screen(query, tenant, Suspects(from.lists, tenant), cascade, draw) == Some(result)
    ensures Answered(env, BeforePass(env, from, tenant, query, cascade, draw, ok, stamp, n),
                     Action(tenant, Advance(0), ok(n), stamp(n)))
      == if n == |Todo(result)| then Some(Screened(result)) else None
  {
    var s := BeforePass(env, from, tenant, query, cascade, draw, ok, stamp, n);
    if n == 0 {
      AppendStarts(env, from, s, tenant, query, cascade, draw, ok, stamp, result);
    } else {
      ScreeningTables(env, from, tenant, query, cascade, draw, ok, stamp, result, n - 1);
      PassLeads(env, from, s, tenant, query.name, result, ok, stamp, n - 1);
    }
  }

  /** A screening that finds the stores as in from ends with these tables and this answer: 500 and no
      change if the watchlists cannot be loaded or the screening fails, else as its steps in a row do. */
  ghost predicate ScreeningEnds(env: Env, from: State, tenant: string, query: Query, cascade: bool, draw: nat,
      loaded: bool, ok: nat -> bool, stamp: nat -> string, cases: seq<Review.CaseRow>, log: seq<Audit.EventRow>,
      r: Answer)
  {
    var result := env.screen(query, tenant, Suspects(from.lists, tenant), cascade, draw);
    if !loaded || result.None?
    then
      && cases == from.cases && log == from.log && r == ServerError
      && Some(r) == Answered(env, from, Action(tenant, Screen(0, query, cascade, draw), loaded, ""))
    else
      var n := |Todo(result.value)|;
      var s := ScreeningAlone(env, from, tenant, query, cascade, draw, ok, stamp, n);
      && cases == s.cases && log == s.log && r == Screened(result.value)
      && Some(r) == Answered(env, BeforePass(env, from, tenant, query, cascade, draw, ok, stamp, n),
                             Action(tenant, Advance(0), ok(n), stamp(n)))
  }

  lemma ScreeningFails(env: Env, from: State, tenant: string, query: Query, cascade: bool, draw: nat, loaded: bool,
      ok: nat -> bool, stamp: nat -> string)
    requires from.procs == map[]
    requires !loaded || env.screen(query, tenant, Suspects(from.lists, tenant), cascade, draw).None?
    ensures ScreeningEnds(env, from, tenant, query, cascade, draw, loaded, ok, stamp, from.cases, from.log, ServerError)
  {
  }

  lemma {:induction false} ScreeningSucceeds(env: Env, from: State, tenant: string, query: Query, cascade: bool,
      draw: nat, ok: nat -> bool, stamp: nat -> string, result: Screening)
    requires from.procs == map[]
    requires env.screen(query, tenant, Suspects(from.lists, tenant), cascade, draw) == Some(result)
    ensures ScreeningEnds(env, from, tenant, query, cascade, draw, true, ok, stamp,
      CasesAfter(env, from.cases, tenant, query.name, result.request, Todo(result), ok, stamp, |Todo(result)|),
      LogAfter(from.log, tenant, query.name, result, ok(0), stamp(0)), Screened(result))
  {
    ScreeningTables(env, from, tenant, query, cascade, draw, ok, stamp, result, |Todo(result)|);
    ScreeningAnswers(env, from, tenant, query, cascade, draw, ok, stamp, result, |Todo(result)|);
  }

  /** The candidates, by number, that get a case: the sanctions-related ones of a pending screening with
      confidence at least 0.9, where the insert of their pass succeeds. */
  ghost predicate GetCases(result: Screening, ok: nat -> bool, n: nat, at: seq<nat>) {
    && (forall j, k :: 0 <= j < k < |at| ==> at[j] < at[k])
    && (forall i: nat :: i in at <==>
          i < n && i < |result.candidates| && result.status == "pending"
          && result.candidates[i].sensitivity == "sanctions_related" && result.candidates[i].confidence >= 0.9
          && ok(i + 1))
  }

  /** The row is the new, pending case of a candidate. */
  ghost predicate NewCaseOf(env: Env, row: Review.CaseRow, id: int, tenant: string, query: string,
      result: Screening, c: Candidate, stamp: string)
  {
    && row.id == id && row.tenant == tenant && TellsCandidate(env, row, query, result, c)
    && row.status == "pending" && row.createdAt == stamp && row.decidedAt == None && row.decidedBy == None
  }

  /** The table has gained one case for each of these candidates, in order. */
  ghost predicate GainsCases(env: Env, cases: seq<Review.CaseRow>, now: seq<Review.CaseRow>, tenant: string,
      query: string, result: Screening, stamp: nat -> string, at: seq<nat>)
  {
    && |now| == |cases| + |at| && cases <= now
    && (forall j :: 0 <= j < |at| ==> at[j] < |result.candidates|)
    && forall j :: 0 <= j < |at| ==>
         NewCaseOf(env, now[|cases| + j], |cases| + j + 1, tenant, query, result, result.candidates[at[j]],
                   stamp(at[j] + 1))
  }

  /** The log has gained the screening's event, unless its append failed. */
  ghost predicate GainsReport(log: seq<Audit.EventRow>, now: seq<Audit.EventRow>, tenant: string, query: string,
      result: Screening, recorded: bool, stamp: string)
  {
    if !recorded then now == log
    else
      && |now| == |log| + 1 && log <= now
      && now[|log|].id == |log| + 1 && now[|log|].tenant == tenant && now[|log|].kind == "screening_completed"
      && now[|log|].createdAt == stamp && TellsScreening(now[|log|], query, result)
  }

  /** One more candidate has been looked at. */
  lemma {:induction false} OneMoreGetsCase(result: Screening, ok: nat -> bool, n: nat, at: seq<nat>)
    requires n < |Todo(result)| && GetCases(result, ok, n, at)
    ensures GetCases(result, ok, n + 1, at + if Qualifies(Todo(result)[n]) && ok(n + 1) then [n] else [])
  {
    var more := at + [n];
    assert forall i: nat :: i in more <==> i in at || i == n;
    assert at + [] == at;
    assert n !in at && forall j :: 0 <= j < |at| ==> at[j] in at;
  }

  lemma {:induction false} OneMoreGained(env: Env, cases: seq<Review.CaseRow>, was: seq<Review.CaseRow>,
      row: Review.CaseRow, tenant: string, query: string, result: Screening, stamp: nat -> string, at: seq<nat>, n: nat)
    requires GainsCases(env, cases, was, tenant, query, result, stamp, at) && n < |result.candidates|
    requires NewCaseOf(env, row, |was| + 1, tenant, query, result, result.candidates[n], stamp(n + 1))
    ensures GainsCases(env, cases, was + [row], tenant, query, result, stamp, at + [n])
  {
    var now, more := was + [row], at + [n];
    forall j | 0 <= j < |more|
      ensures NewCaseOf(env, now[|cases| + j], |cases| + j + 1, tenant, query, result, result.candidates[more[j]],
                        stamp(more[j] + 1))
    {
      if j < |at| {
        assert now[|cases| + j] == was[|cases| + j] && more[j] == at[j];
      }
    }
  }

  lemma {:induction false} PassGains(env: Env, cases: seq<Review.CaseRow>, was: seq<Review.CaseRow>, tenant: string,
      query: string, result: Screening, ok: nat -> bool, stamp: nat -> string, n: nat,
      at: seq<nat>) returns (more: seq<nat>)
    requires n < |Todo(result)|
    requires GetCases(result, ok, n, at) && GainsCases(env, cases, was, tenant, query, result, stamp, at)
    ensures GetCases(result, ok, n + 1, more)
    ensures GainsCases(env, cases,
      AfterPass(env, was, tenant, query, result.request, Todo(result)[n], ok(n + 1), stamp(n + 1)), tenant, query,
      result, stamp, more)
  {
    var c := Todo(result)[n];
    more := at + if Qualifies(c) && ok(n + 1) then [n] else [];
    OneMoreGetsCase(result, ok, n, at);
    if Qualifies(c) && ok(n + 1) {
      var row := Review.NewRow(|was| + 1, CaseOf(env, tenant, query, result.request, c), stamp(n + 1));
      NewRowTells(env, |was| + 1, tenant, query, result, c, stamp(n + 1));
      OneMoreGained(env, cases, was, row, tenant, query, result, stamp, at, n);
    } else {
      assert more == at;
    }
  }

  lemma NewRowTells(env: Env, id: int, tenant: string, query: string, result: Screening, c: Candidate, stamp: string)
    requires Qualifies(c)
    ensures NewCaseOf(env, Review.NewRow(id, CaseOf(env, tenant, query, result.request, c), stamp), id, tenant, query,
                      result, c, stamp)
  {
  }

  lemma {:induction false} PassesGain(env: Env, cases: seq<Review.CaseRow>, tenant: string, query: string,
      result: Screening, ok: nat -> bool, stamp: nat -> string, n: nat) returns (at: seq<nat>)
    requires n <= |Todo(result)|
    ensures GetCases(result, ok, n, at)
    ensures GainsCases(env, cases,
      CasesAfter(env, cases, tenant, query, result.request, Todo(result), ok, stamp, n), tenant, query, result, stamp,
      at)
  {
    if n == 0 {
      at := [];
    } else {
      var earlier := PassesGain(env, cases, tenant, query, result, ok, stamp, n - 1);
      at := PassGains(env, cases,
                      CasesAfter(env, cases, tenant, query, result.request, Todo(result), ok, stamp, n - 1), tenant,
                      query, result, ok, stamp, n - 1, earlier);
    }
  }

  lemma {:induction false} AppendGains(log: seq<Audit.EventRow>, tenant: string, query: string, result: Screening,
      recorded: bool, stamp: string)
    ensures GainsReport(log, LogAfter(log, tenant, query, result, recorded, stamp), tenant, query, result, recorded,
                        stamp)
  {
    if recorded {
      var p := Filing(query, result, 0, None, []);
      ReportTells(LogAfter(log, tenant, query, result, recorded, stamp)[|log|], Pid(tenant, 0), p);
    }
  }

  /** What a screening that succeeds has written. */
  ghost predicate Written(env: Env, from: State, tenant: string, query: string, result: Screening, ok: nat -> bool,
      stamp: nat -> string, cases: seq<Review.CaseRow>, log: seq<Audit.EventRow>)
  {
    && GainsReport(from.log, log, tenant, query, result, ok(0), stamp(0))
    && exists at: seq<nat> :: (GetCases(result, ok, |result.candidates|, at)
         && GainsCases(env, from.cases, cases, tenant, query, result, stamp, at))
  }

  lemma {:induction false} ScreeningWrites(env: Env, from: State, tenant: string, query: string, result: Screening,
      ok: nat -> bool, stamp: nat -> string)
    ensures Written(env, from, tenant, query, result, ok, stamp,
      CasesAfter(env, from.cases, tenant, query, result.request, Todo(result), ok, stamp, |Todo(result)|),
      LogAfter(from.log, tenant, query, result, ok(0), stamp(0)))
  {
    AppendGains(from.log, tenant, query, result, ok(0), stamp(0));
    var at := PassesGain(env, from.cases, tenant, query, result, ok, stamp, |Todo(result)|);
    assert GetCases(result, ok, |result.candidates|, at);
  }

  /** The slice of watchlist entries handed to the screening service. */
  method LoadSuspects(lists: Watchlist.Store, tenant: string) returns (out: seq<Suspect>)
    ensures out == Suspects(lists.rows, tenant)
  {
    var entries := lists.ActiveEntries(tenant);
    SuspectsOfActive(lists.rows, tenant);
    out := [];
    for i := 0 to |entries|
      invariant |out| == i && forall j :: 0 <= j < i ==> out[j] == SuspectOf(entries[j])
    {
      var e := entries[i];
      out := out + [Suspect(e.name, e.kind, e.country, e.dob, e.list, e.version, e.identifiers, e.tags)];
    }
    assert out == Mapped(SuspectOf, entries);
  }

  lemma {:induction false} SuspectsOfActive(rows: seq<Watchlist.Entry>, tenant: string)
    ensures Mapped(SuspectOf, Watchlist.ActiveRows(rows, tenant)) == Suspects(rows, tenant)
    decreases |rows|
  {
    if |rows| > 0 {
      SuspectsOfActive(rows[..|rows| - 1], tenant);
    }
  }

  /** The texts of a clock's readings. */
  ghost function Stamps(clock: nat -> Instant): nat -> string {
    (n: nat) => Format(UTC(clock(n)))
  }

  /** One pass of the loop that creates cases. */
  method FileCase(env: Env, reviews: Review.Store, tenant: string, query: string, request: string, c: Candidate,
      ok: bool, now: Instant, ghost stamp: string)
    requires stamp == Format(UTC(now))
    modifies reviews
    ensures reviews.rows == AfterPass(env, old(reviews.rows), tenant, query, request, c, ok, stamp)
  {
    if c.sensitivity == SANCTIONS_RELATED && c.confidence >= 0.9 && ok {
      var filed := CaseOf(env, tenant, query, request, c);
      assert Review.StampOf(filed, now) == UTC(now);
      var _ := reviews.Create(filed, now);
    }
  }

  /** The loop that creates cases. */
  method FileCases(env: Env, reviews: Review.Store, tenant: string, query: string, request: string,
      todo: seq<Candidate>, ok: nat -> bool, clock: nat -> Instant, ghost stamp: nat -> string)
    requires forall n :: stamp(n) == Format(UTC(clock(n)))
    modifies reviews
    ensures reviews.rows == CasesAfter(env, old(reviews.rows), tenant, query, request, todo, ok, stamp, |todo|)
  {
    ghost var given := reviews.rows;
    for i := 0 to |todo|
      invariant reviews.rows == CasesAfter(env, given, tenant, query, request, todo, ok, stamp, i)
    {
      FileCase(env, reviews, tenant, query, request, todo[i], ok(i + 1), clock(i + 1), stamp(i + 1));
    }
  }

  /** What a screening that succeeded writes: its event, then its cases. */
  method WriteScreening(env: Env, reviews: Review.Store, audit: Audit.Store, tenant: string, query: string,
      result: Screening, ok: nat -> bool, clock: nat -> Instant)
    modifies reviews, audit
    ensures audit.rows == LogAfter(old(audit.rows), tenant, query, result, ok(0), Stamps(clock)(0))
    ensures reviews.rows == CasesAfter(env, old(reviews.rows), tenant, query, result.request, Todo(result), ok,
                                       Stamps(clock), |Todo(result)|)
  {
    if ok(0) {
      var _ := audit.Record(ScreeningEvent(tenant, query, result), clock(0));
    }
    var todo := if result.status == SCREENING_PENDING then result.candidates else [];
    FileCases(env, reviews, tenant, query, result.request, todo, ok, clock, Stamps(clock));
  }

  /** ScreenTenant from the watchlist load onward: 500 and no change if the watchlists cannot be loaded or
      the screening fails; otherwise the event and the cases it calls for are in the tables, and it
      ends, and answers, as its steps in a row do. */
  method ScreenTenant(env: Env, lists: Watchlist.Store, reviews: Review.Store, audit: Audit.Store, tenant: string,
      query: Query, cascade: bool, draw: nat, loaded: bool, ok: nat -> bool,
      clock: nat -> Instant) returns (r: Answer)
    modifies reviews, audit
    ensures ScreeningEnds(env, Alone(lists.rows, old(reviews.rows), old(audit.rows)), tenant, query, cascade, draw,
                          loaded, ok, Stamps(clock), reviews.rows, audit.rows, r)
    ensures r == ServerError || r.Screened?
    ensures r == ServerError ==> reviews.rows == old(reviews.rows) && audit.rows == old(audit.rows)
    ensures r.Screened? ==> Written(env, Alone(lists.rows, old(reviews.rows), old(audit.rows)), tenant, query.name,
                                    r.result, ok, Stamps(clock), reviews.rows, audit.rows)
  {
    ghost var from := Alone(lists.rows, reviews.rows, audit.rows);
    if !loaded {
      ScreeningFails(env, from, tenant, query, cascade, draw, loaded, ok, Stamps(clock));
      return ServerError;
    }
    var suspects := LoadSuspects(lists, tenant);
    var result := env.screen(query, tenant, suspects, cascade, draw);
    if result.None? {
      ScreeningFails(env, from, tenant, query, cascade, draw, loaded, ok, Stamps(clock));
      return ServerError;
    }
    ScreeningSucceeds(env, from, tenant, query, cascade, draw, ok, Stamps(clock), result.value);
    ScreeningWrites(env, from, tenant, query.name, result.value, ok, Stamps(clock));
    WriteScreening(env, reviews, audit, tenant, query.name, result.value, ok, clock);
    r := Screened(result.value);
  }

  // ----- UploadWatchlist -----

  /** Hands a freshly parsed slice to the store. */
  method Save(store: Watchlist.Store, tenant: string, list: string, entries: seq<Watchlist.Entry>,
      done: nat) returns (version: Result<int, ()>)
    modifies store
    ensures version == if |entries| + 4 <= done then Ok(Watchlist.MaxVersion(old(store.rows), tenant, list) + 1)
                       else Err(())
    ensures store.rows == if version.Ok? then Watchlist.Uploaded(old(store.rows), tenant, list, entries)
                          else old(store.rows)
  {
    var slice := new Watchlist.Entry[|entries|](i requires 0 <= i < |entries| => entries[i]);
    assert slice[..] == entries;
    version := store.UploadList(tenant, list, slice, done);
  }

  /** A name no list can have: empty, or with a slash, a space or a tab. */
  ghost predicate BadName(list: string) {
    list == "" || exists i :: 0 <= i < |list| && (list[i] == '/' || list[i] == ' ' || list[i] == '\t')
  }

  /** The list a path names, if it is a valid name. */
  method CheckedName(path: string) returns (list: Option<string>)
    ensures list == if BadName(ListName(path)) then None else Some(ListName(path))
    ensures list.Some? <==> ValidListName(ListName(path))
  {
    var name := TrimSuffix(TrimPrefix(path, "/watchlists/"), "/upload");
    if name == "" || '/' in name || ' ' in name || '\t' in name {
      return None;
    }
    list := Some(name);
  }

  /** Whether the database carries out all statements of an upload of such a file. */
  predicate Stored(parsed: Outcome, done: nat) {
    parsed.Ok? && |parsed.value| + 4 <= done
  }

  /** What an upload answered 200 leaves: the version told holds its entries, as many as told, in order,
      and is the one in force. */
  ghost predicate HoldsUpload(rows: seq<Watchlist.Entry>, tenant: string, told: Answer,
      entries: seq<Watchlist.Entry>)
    requires told.ListUploaded?
  {
    && told.entries == |entries| > 0
    && WatchlistRuns.VersionRows(rows, tenant, told.list, told.version) == WatchlistRuns.Contents(entries)
    && WatchlistRuns.InForceRows(rows, tenant, told.list) == WatchlistRuns.Contents(entries)
  }

  lemma {:induction false} UploadHolds(rows: seq<Watchlist.Entry>, tenant: string, list: string,
      entries: seq<Watchlist.Entry>)
    requires |entries| > 0
    ensures HoldsUpload(Watchlist.Uploaded(rows, tenant, list, entries), tenant,
      ListUploaded(list, Watchlist.MaxVersion(rows, tenant, list) + 1, |entries|), entries)
  {
    var u := WatchlistRuns.Upload(tenant, list, entries);
    WatchlistRuns.UploadFillsVersion(rows, u);
    WatchlistRuns.ActiveAfterUpload(rows, u, tenant, list);
  }

  /** What the table and the answer are once the file is read. */
  ghost predicate UploadEnds(was: seq<Watchlist.Entry>, now: seq<Watchlist.Entry>, tenant: string, list: string,
      parsed: Outcome, done: nat, r: Answer)
  {
    if parsed.Err? then r == BadRequest && now == was
    else if |parsed.value| + 4 > done then r == ServerError && now == was
    else r.ListUploaded? && r.list == list && HoldsUpload(now, tenant, r, parsed.value)
  }

  /** The handler once the file is read. */
  method UploadFile(store: Watchlist.Store, tenant: string, list: string, parsed: Outcome,
      done: nat) returns (r: Answer)
    requires ValidListName(list) && (parsed.Ok? ==> |parsed.value| > 0)
    modifies store
    ensures UploadEnds(old(store.rows), store.rows, tenant, list, parsed, done, r)
    ensures store.rows == if Stored(parsed, done) then ListsAfter(old(store.rows), tenant, list, parsed)
                          else old(store.rows)
    ensures r == UploadAnswer(old(store.rows), tenant, list, parsed, Stored(parsed, done))
  {
    if parsed.Err? {
      return BadRequest;
    }
    UploadHolds(store.rows, tenant, list, parsed.value);
    var version := Save(store, tenant, list, parsed.value, done);
    if version.Err? {
      return ServerError;
    }
    r := ListUploaded(list, version.value, |parsed.value|);
  }

  /** UploadWatchlist: 400 for a bad list name or CSV, 500 and no change when the transaction fails,
      otherwise the new version and its size. The table and the answer are those of its one step. */
  method UploadWatchlist(store: Watchlist.Store, tenant: string, path: string, rows: seq<seq<string>>,
      done: nat) returns (r: Answer)
    modifies store
    ensures BadName(ListName(path)) || rows == [] ==> r == BadRequest && store.rows == old(store.rows)
    ensures !BadName(ListName(path)) && rows != [] ==>
      UploadEnds(old(store.rows), store.rows, tenant, ListName(path), Parsed(rows[0], rows[1..]), done, r)
    ensures rows != [] ==>
      var parsed := Parsed(rows[0], rows[1..]);
      && store.rows == (if Stored(parsed, done) then ListsAfter(old(store.rows), tenant, ListName(path), parsed)
                        else old(store.rows))
      && r == UploadAnswer(old(store.rows), tenant, ListName(path), parsed, Stored(parsed, done))
  {
    var list := CheckedName(path);
    if list.None? {
      return BadRequest;
    }
    var parsed := ParseCSV(rows);
    if rows == [] {
      return BadRequest;
    }
    AcceptedIsNonEmpty(rows[0], rows[1..]);
    r := UploadFile(store, tenant, list.value, parsed, done);
  }

  /** The long path of a list reaches it whatever its name, and so does the short one unless the name
      itself ends like the long path: nothing else is cut off. */
  lemma PathsOfAList(list: string)
    ensures ListName("/watchlists/" + list + "/upload") == list
    ensures ListName("/watchlists/" + list) == list <==> |list| < 7 || list[|list| - 7..] != "/upload"
  {
    var plain, long := "/watchlists/" + list, "/watchlists/" + list + "/upload";
    assert plain[|"/watchlists/"|..] == list;
    assert long[|"/watchlists/"|..] == list + "/upload";
    assert (list + "/upload")[|list|..] == "/upload";
  }

  // ----- Lists and single cases -----

  /** ListCases: the tenant's newest cases of the status asked for, or of any; as many as asked for
      from 1 to 200, otherwise 50. */
  method ListCases(reviews: Review.Store, tenant: string, status: Review.Status, limit: int,
      done: bool) returns (r: Answer)
    ensures !done ==> r == ServerError
    ensures done ==> r.Cases? && var n := if 1 <= limit <= 200 then limit else 50;
      exists at :: Review.IsPage(reviews.rows, tenant, status, n, at, r.cases)
    ensures r == AskAnswer(State([], reviews.rows, [], map[]), tenant, Service.ListCases(status, limit), done)
  {
    if !done {
      return ServerError;
    }
    var n := limit;
    if n <= 0 || n > 200 {
      n := 50;
    }
    var page := reviews.List(tenant, status, n);
    r := Cases(page);
  }

  /** ListAudit: the tenant's newest events, of the request and kind asked for; as many as asked for from
      1 to 500, otherwise 100. */
  method ListAudit(audit: Audit.Store, tenant: string, request: string, kind: string, limit: int,
      done: bool) returns (r: Answer)
    ensures !done ==> r == ServerError
    ensures done ==> r.Events? && var n := if 1 <= limit <= 500 then limit else 100;
      exists at :: Audit.IsPage(audit.rows, tenant, request, kind, n, at, r.events)
    ensures r == AskAnswer(State([], [], audit.rows, map[]), tenant, Service.ListAudit(request, kind, limit), done)
  {
    if !done {
      return ServerError;
    }
    var n := limit;
    if n <= 0 || n > 500 {
      n := 100;
    }
    var page := audit.Query(tenant, request, kind, n);
    r := Events(page);
  }

  /** GetCase: 400 for a bad id, 500 when the lookup fails, 404 exactly when the tenant has no such case. */
  method GetCase(reviews: Review.Store, tenant: string, id: int, done: bool) returns (r: Answer)
    ensures r == BadRequest <==> id <= 0
    ensures r == ServerError <==> id > 0 && !done
    ensures r == NotFound <==>
      && id > 0 && done
      && forall i :: 0 <= i < |reviews.rows| ==> !(reviews.rows[i].tenant == tenant && reviews.rows[i].id == id)
    ensures r.OneCase? ==> exists i :: (0 <= i < |reviews.rows| && reviews.rows[i].tenant == tenant
                                        && reviews.rows[i].id == id && r.c == Review.Scanned(reviews.rows[i]))
    ensures r == AskAnswer(State([], reviews.rows, [], map[]), tenant, Service.GetCase(id), done)
  {
    CaseIsFound(reviews.rows, tenant, id);
    if id <= 0 {
      return BadRequest;
    }
    if !done {
      return ServerError;
    }
    var found := reviews.Get(tenant, id);
    r := if found.Some? then OneCase(found.value) else NotFound;
  }

  lemma {:induction false} CaseIsFound(rows: seq<Review.CaseRow>, tenant: string, id: int)
    ensures var found := Review.Found(rows, tenant, id);
      if found.Some?
      then exists i :: (0 <= i < |rows| && rows[i].tenant == tenant && rows[i].id == id
                        && found.value == Review.Scanned(rows[i]))
      else forall i :: 0 <= i < |rows| ==> !(rows[i].tenant == tenant && rows[i].id == id)
    decreases |rows|
  {
    if |rows| > 0 && !(rows[0].tenant == tenant && rows[0].id == id) {
      CaseIsFound(rows[1..], tenant, id);
    }
  }

  /** ListWatchlists: the lists the tenant has rows of, each with the highest version among them. */
  method ListWatchlists(store: Watchlist.Store, tenant: string, done: bool) returns (r: Answer)
    ensures !done ==> r == ServerError
    ensures done ==> r.Watchlists? && forall list :: IsListed(store.rows, tenant, list, r.names)
    ensures r == AskAnswer(State(store.rows, [], [], map[]), tenant, Service.ListWatchlists, done)
  {
    if !done {
      return ServerError;
    }
    var names := store.ListNames(tenant);
    forall list ensures IsListed(store.rows, tenant, list, names) {
      GroupedIsListed(store.rows, tenant, list);
    }
    r := Watchlists(names);
  }

  /** The list is named if the tenant has rows of it, and then with their highest version. */
  ghost predicate IsListed(rows: seq<Watchlist.Entry>, tenant: string, list: string, names: map<string, int>) {
    && (list in names <==> exists e :: e in rows && e.tenant == tenant && e.list == list)
    && (list in names ==>
          && (forall e :: e in rows && e.tenant == tenant && e.list == list ==> e.version <= names[list])
          && (names[list] == 0 || exists e :: (e in rows && e.tenant == tenant && e.list == list
                                               && e.version == names[list])))
  }

  lemma {:induction false} GroupedIsListed(rows: seq<Watchlist.Entry>, tenant: string, list: string)
    ensures IsListed(rows, tenant, list, Watchlist.Grouped(rows, tenant))
  {
    WatchlistRuns.MaxVersionBounds(rows, tenant, list);
  }
}
