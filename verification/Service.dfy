/** The handlers of internal/httpapi as processes over the watchlist, review and audit stores, each
    SQL statement one atomic step: what every interleaving of them does and answers. */
module Service {
  import Audit
  import Review
  import opened Csv
  import opened Tables
  import opened Text
  import opened Watchlist
  import opened Wrappers

  // ----- What a screening sees and returns -----

  datatype Query = Query(name: string, entityType: string, country: string, dob: string,
                         registration: string, fuzzy: bool, threshold: real)

  /** A watchlist entry as the screening service gets it: without id, tenant or flags. */
  datatype Suspect = Suspect(name: string, kind: string, country: string, dob: string, list: string, version: int,
                             identifiers: seq<string>, tags: seq<string>)

  datatype Candidate = Candidate(name: string, list: string, confidence: real, sensitivity: string,
                                 verification: Option<string>)

  datatype Screening = Screening(request: string, status: string, totalMatches: int, candidates: seq<Candidate>)

  /** The code outside this repository: screening (the last argument stands for everything it
      draws from outside the request), sanitising and flagging of model output. */
  datatype Env = Env(screen: (Query, string, seq<Suspect>, bool, nat) -> Option<Screening>,
                     sanitize: string -> string, flag: string -> seq<string>, model: string, prompt: string)

  const SANCTIONS_RELATED := "sanctions_related"
  const SCREENING_PENDING := "pending"

  function SuspectOf(e: Entry): Suspect {
    Suspect(e.name, e.kind, e.country, e.dob, e.list, e.version, e.identifiers, e.tags)
  }

  /** The entries ScreenTenant passes on: the tenant's active ones. */
  function Suspects(lists: seq<Entry>, tenant: string): seq<Suspect> {
    Pick(IsActive(tenant), SuspectOf, lists)
  }

  /** High-risk: sanctions-related with confidence at least 0.9. */
  predicate Qualifies(c: Candidate) {
    c.sensitivity == SANCTIONS_RELATED && c.confidence >= 0.9
  }

  /** The candidates the case loop runs over: none unless the screening is pending. */
  function Todo(result: Screening): seq<Candidate> {
    if result.status == SCREENING_PENDING then result.candidates else []
  }

  function NameOf(c: Candidate): string {
    c.name
  }

  function ScreeningEvent(tenant: string, query: string, result: Screening): Audit.Event {
    Audit.Event(0, tenant, result.request, Audit.SCREENING_COMPLETED,
                Audit.Screening(query, result.status, result.totalMatches,
                                Pick((c: Candidate) => true, NameOf, result.candidates),
                                exists i :: 0 <= i < |result.candidates| && result.candidates[i].verification.Some?),
                None)
  }

  function CaseOf(env: Env, tenant: string, query: string, request: string, c: Candidate): Review.Case {
    var reason := env.sanitize(if c.verification.Some? then c.verification.value else "");
    Review.Case(0, tenant, request, query, c.name, c.list, c.confidence, reason, env.model, env.prompt,
                env.flag(reason), "", None, None, "")
  }

  // ----- Decisions -----

  predicate IsDecision(decision: string) {
    decision == Review.APPROVED || decision == Review.REJECTED || decision == Review.FALSE_POSITIVE
  }

  predicate ReviewerChar(ch: char) {
    'A' <= ch <= 'Z' || 'a' <= ch <= 'z' || '0' <= ch <= '9' || ch in "._%+-@"
  }

  /** The pattern ^[A-Za-z0-9._%+\-@]{1,128}$. */
  predicate ReviewerPattern(v: string) {
    1 <= |v| <= 128 && forall i :: 0 <= i < |v| ==> ReviewerChar(v[i])
  }

  function SanitizeReviewer(header: string): string {
    if ReviewerPattern(Trim(header)) then Trim(header) else ""
  }

  function DecidedBy(header: string): string {
    if SanitizeReviewer(header) == "" then "api" else SanitizeReviewer(header)
  }

  function DecisionEvent(tenant: string, id: int, decision: string, reviewer: string): Audit.Event {
    Audit.Event(0, tenant, "", Audit.CASE_DECISION, Audit.Decision(id, decision, reviewer), None)
  }

  // ----- Requests -----

  /** The list an upload path names. */
  function ListName(path: string): string {
    TrimSuffix(TrimPrefix(path, "/watchlists/"), "/upload")
  }

  predicate ValidListName(list: string) {
    list != "" && '/' !in list && ' ' !in list && '\t' !in list
  }

  /** The GET requests a tenant can make. */
  datatype Question =
    | ListCases(status: string, limit: int)
    | GetCase(id: int)
    | ListAudit(request: string, kind: string, limit: int)
    | ListWatchlists

  /** The page the list handlers ask their store for. */
  function PageSize(limit: int, most: nat, default: nat): int {
    if limit <= 0 || limit > most then default else limit
  }

  /** What a request is answered: 400, 404, 409, 500, or 200 with its content. */
  datatype Answer =
    | BadRequest
    | NotFound
    | Conflict
    | ServerError
    | DecisionMade(id: int, decision: string)
    | ListUploaded(list: string, version: int, entries: int)
    | Screened(result: Screening)
    | Cases(cases: seq<Review.Case>)
    | OneCase(c: Review.Case)
    | Events(events: seq<Audit.Event>)
    | Watchlists(names: map<string, int>)

  // ----- The machine -----

  /** A handler, named by its tenant and a number. */
  datatype Pid = Pid(tenant: string, n: nat)

  /** Where a handler stands. The ids it obtained are kept for the statements about runs; event
      is None and a case is None where the write failed, which the handlers ignore. */
  datatype Proc =
    | Deciding(id: int, decision: string, reviewer: string)
    | Decided(id: int, decision: string, reviewer: string, event: Option<int>)
    | Auditing(query: string, result: Screening)
    | Filing(query: string, result: Screening, next: nat, event: Option<int>, filed: seq<Option<int>>)

  datatype State = State(lists: seq<Entry>, cases: seq<Review.CaseRow>, log: seq<Audit.EventRow>, procs: map<Pid, Proc>)

  const EMPTY := State([], [], [], map[])

  datatype Op =
    | Upload(path: string, heading: seq<string>, data: seq<seq<string>>)
    | Decide(n: nat, id: int, decision: string, header: string)
    | Screen(n: nat, query: Query, cascade: bool, draw: nat)
    | Advance(n: nat)
    | Ask(question: Question)

  /** One atomic step of one tenant's request: ok tells whether the database carries out the
      step's statement, stamp is the text of the clock. */
  datatype Action = Action(tenant: string, op: Op, ok: bool, stamp: string)

  /** The watchlist table after an upload of a file that reads as given. */
  function ListsAfter(lists: seq<Entry>, tenant: string, list: string, parsed: Outcome): seq<Entry> {
    if ValidListName(list) && parsed.Ok? then Uploaded(lists, tenant, list, parsed.value) else lists
  }

  /** UploadWatchlist: parse, then one transaction. */
  function DoUpload(s: State, tenant: string, list: string, header: seq<string>, data: seq<seq<string>>): State {
    s.(lists := ListsAfter(s.lists, tenant, list, Parsed(header, data)))
  }

  /** DecideCase up to and including its UPDATE; a refused or lost decision leaves no handler. */
  function DoDecide(s: State, pid: Pid, id: int, decision: string, header: string, stamp: string): State {
    if pid !in s.procs && id > 0 && IsDecision(decision) && Review.CanDecide(s.cases, pid.tenant, id)
    then s.(cases := Review.Decided(s.cases, pid.tenant, id, decision, DecidedBy(header), stamp),
            procs := s.procs[pid := Deciding(id, decision, DecidedBy(header))])
    else s
  }

  /** ScreenTenant up to and including the screening itself. */
  function DoScreen(env: Env, s: State, pid: Pid, query: Query, cascade: bool, draw: nat): State {
    var result := env.screen(query, pid.tenant, Suspects(s.lists, pid.tenant), cascade, draw);
    if pid !in s.procs && result.Some?
    then s.(procs := s.procs[pid := Auditing(query.name, result.value)])
    else s
  }

  /** The audit append after a decision. */
  function DoRecord(s: State, pid: Pid, p: Proc, ok: bool, stamp: string): State
    requires p.Deciding?
  {
    if ok
    then s.(log := Audit.Recorded(s.log, DecisionEvent(pid.tenant, p.id, p.decision, p.reviewer), stamp),
            procs := s.procs[pid := Decided(p.id, p.decision, p.reviewer, Some(|s.log| + 1))])
    else s.(procs := s.procs[pid := Decided(p.id, p.decision, p.reviewer, None)])
  }

  /** The audit append after a screening. */
  function DoAudit(s: State, pid: Pid, p: Proc, ok: bool, stamp: string): State
    requires p.Auditing?
  {
    if ok
    then s.(log := Audit.Recorded(s.log, ScreeningEvent(pid.tenant, p.query, p.result), stamp),
            procs := s.procs[pid := Filing(p.query, p.result, 0, Some(|s.log| + 1), [])])
    else s.(procs := s.procs[pid := Filing(p.query, p.result, 0, None, [])])
  }

  /** The loop moves on without an insert. */
  function MovedOn(s: State, pid: Pid, p: Proc, filed: seq<Option<int>>): State
    requires p.Filing?
  {
    s.(procs := s.procs[pid := p.(next := p.next + 1, filed := filed)])
  }

  /** The loop inserts a case and moves on. */
  function FiledCase(s: State, pid: Pid, p: Proc, c: Review.Case, stamp: string): State
    requires p.Filing?
  {
    s.(cases := Review.Created(s.cases, c, stamp),
       procs := s.procs[pid := p.(next := p.next + 1, filed := p.filed + [Some(|s.cases| + 1)])])
  }

  /** One pass of the loop that creates cases. */
  function DoFile(env: Env, s: State, pid: Pid, p: Proc, ok: bool, stamp: string): State
    requires p.Filing?
  {
    if p.next >= |Todo(p.result)| then s
    else
      var c := Todo(p.result)[p.next];
      if !Qualifies(c) then MovedOn(s, pid, p, p.filed)
      else if ok then FiledCase(s, pid, p, CaseOf(env, pid.tenant, p.query, p.result.request, c), stamp)
      else MovedOn(s, pid, p, p.filed + [None])
  }

  /** The next statement of a running handler. */
  function DoAdvance(env: Env, s: State, pid: Pid, ok: bool, stamp: string): State {
    if pid !in s.procs then s
    else
      var p := s.procs[pid];
      match p
      case Deciding(_, _, _) => DoRecord(s, pid, p, ok, stamp)
      case Auditing(_, _) => DoAudit(s, pid, p, ok, stamp)
      case Filing(_, _, _, _, _) => DoFile(env, s, pid, p, ok, stamp)
      case Decided(_, _, _, _) => s
  }

  function Step(env: Env, s: State, a: Action): State {
    match a.op
    case Upload(path, heading, data) => if a.ok then DoUpload(s, a.tenant, ListName(path), heading, data) else s
    case Decide(n, id, decision, header) =>
      if a.ok then DoDecide(s, Pid(a.tenant, n), id, decision, header, a.stamp) else s
    case Screen(n, query, cascade, draw) => if a.ok then DoScreen(env, s, Pid(a.tenant, n), query, cascade, draw) else s
    case Advance(n) => DoAdvance(env, s, Pid(a.tenant, n), a.ok, a.stamp)
    case Ask(_) => s
  }

  /** The state after a run from the empty stores. */
  function Run(env: Env, actions: seq<Action>): State {
    if |actions| == 0 then EMPTY
    else Step(env, Run(env, actions[..|actions| - 1]), actions[|actions| - 1])
  }

  // ----- What the requests are answered -----

  function UploadAnswer(lists: seq<Entry>, tenant: string, list: string, parsed: Outcome, ok: bool): Answer {
    if !ValidListName(list) || parsed.Err? then BadRequest
    else if !ok then ServerError
    else ListUploaded(list, MaxVersion(lists, tenant, list) + 1, |parsed.value|)
  }

  /** A decision is refused at once; one that was made is answered after its audit append. */
  function DecideAnswer(s: State, tenant: string, id: int, decision: string, ok: bool): Option<Answer> {
    if id <= 0 || !IsDecision(decision) then Some(BadRequest)
    else if !ok then Some(ServerError)
    else if !Review.CanDecide(s.cases, tenant, id) then Some(Conflict)
    else None
  }

  /** A screening that cannot be done is answered at once, any other after its loop. */
  function ScreenAnswer(env: Env, s: State, tenant: string, query: Query, cascade: bool, draw: nat,
      ok: bool): Option<Answer>
  {
    if !ok || env.screen(query, tenant, Suspects(s.lists, tenant), cascade, draw).None? then Some(ServerError) else None
  }

  /** A handler answers on its last step: a winner's audit append, whether it succeeds or not, and
      the step after which the case loop has seen all candidates. */
  function AdvanceAnswer(p: Proc): Option<Answer> {
    match p
    case Deciding(id, decision, _) => Some(DecisionMade(id, decision))
    case Auditing(_, result) => if |Todo(result)| == 0 then Some(Screened(result)) else None
    case Filing(_, result, next, _, _) => if next + 1 == |Todo(result)| then Some(Screened(result)) else None
    case Decided(_, _, _, _) => None
  }

  function AskAnswer(s: State, tenant: string, question: Question, ok: bool): Answer {
    if question.GetCase? && question.id <= 0 then BadRequest
    else if !ok then ServerError
    else
      match question
      case ListCases(status, limit) => Cases(Review.Listed(s.cases, tenant, status, PageSize(limit, 200, 50)))
      case GetCase(id) =>
        var found := Review.Found(s.cases, tenant, id);
        if found.Some? then OneCase(found.value) else NotFound
      case ListAudit(request, kind, limit) =>
        Events(Audit.Queried(s.log, tenant, request, kind, PageSize(limit, 500, 100)))
      case ListWatchlists => Watchlists(Grouped(s.lists, tenant))
  }

  /** What the step's request is answered, if this step answers it. A number already in use names
      no new request. */
  function Answered(env: Env, s: State, a: Action): Option<Answer> {
    match a.op
    case Upload(path, heading, data) =>
      Some(UploadAnswer(s.lists, a.tenant, ListName(path), Parsed(heading, data), a.ok))
    case Decide(n, id, decision, _) =>
      if Pid(a.tenant, n) in s.procs then None else DecideAnswer(s, a.tenant, id, decision, a.ok)
    case Screen(n, query, cascade, draw) =>
      if Pid(a.tenant, n) in s.procs then None else ScreenAnswer(env, s, a.tenant, query, cascade, draw, a.ok)
    case Advance(n) => if Pid(a.tenant, n) in s.procs then AdvanceAnswer(s.procs[Pid(a.tenant, n)]) else None
    case Ask(question) => Some(AskAnswer(s, a.tenant, question, a.ok))
  }
}
