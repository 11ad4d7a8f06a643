/** Deciding a case is a compare-and-set on one store and an append to another: what every
    interleaving keeps. */
module Protocol {
  import Audit
  import Review
  import opened Service
  import opened Tables
  import opened Wrappers

  /** The handler won the decision of this case. */
  ghost predicate Won(p: Proc, id: int) {
    (p.Deciding? || p.Decided?) && p.id == id
  }

  /** The case is the winner's and carries its decision and author. */
  ghost predicate CaseCarries(cases: seq<Review.CaseRow>, pid: Pid, p: Proc)
    requires p.Deciding? || p.Decided?
  {
    && 1 <= p.id <= |cases|
    && cases[p.id - 1].tenant == pid.tenant
    && cases[p.id - 1].status == p.decision
    && cases[p.id - 1].decidedBy == Some(p.reviewer)
    && IsDecision(p.decision) && ReviewerPattern(p.reviewer)
  }

  ghost predicate IsDecisionOf(row: Audit.EventRow, id: int) {
    row.kind == Audit.CASE_DECISION && row.payload.Decision? && row.payload.caseId == id
  }

  /** The row is the event this handler appended. */
  ghost predicate EventCarries(row: Audit.EventRow, pid: Pid, p: Proc)
    requires p.Decided?
  {
    row.tenant == pid.tenant && row.kind == Audit.CASE_DECISION
    && row.payload == Audit.Decision(p.id, p.decision, p.reviewer)
  }

  // The clauses of the invariant.

  ghost predicate WinnersHold(s: State) {
    forall pid :: pid in s.procs && (s.procs[pid].Deciding? || s.procs[pid].Decided?) ==>
      CaseCarries(s.cases, pid, s.procs[pid])
  }

  ghost predicate OneWinner(s: State) {
    forall p, q, id :: p in s.procs && q in s.procs && Won(s.procs[p], id) && Won(s.procs[q], id) ==> p == q
  }

  /** A case has no winner, decision time or author while pending, and all of them afterwards. */
  ghost predicate DecidedHasWinner(s: State, id: int)
    requires 1 <= id <= |s.cases|
  {
    var row := s.cases[id - 1];
    if row.status == Review.PENDING
    then row.decidedAt == None && row.decidedBy == None && forall pid :: pid in s.procs ==> !Won(s.procs[pid], id)
    else row.decidedAt.Some? && exists pid :: pid in s.procs && Won(s.procs[pid], id)
  }

  /** A decision event was appended by a handler that is done. */
  ghost predicate HasAuthor(s: State, i: nat)
    requires i < |s.log|
  {
    s.log[i].kind == Audit.CASE_DECISION ==>
      exists pid :: pid in s.procs && s.procs[pid].Decided? && s.procs[pid].event == Some(i + 1)
  }

  ghost predicate EventsHold(s: State) {
    forall pid :: pid in s.procs && s.procs[pid].Decided? && s.procs[pid].event.Some? ==>
      var e := s.procs[pid].event.value;
      1 <= e <= |s.log| && EventCarries(s.log[e - 1], pid, s.procs[pid])
  }

  ghost predicate Safe(s: State) {
    && Review.Numbered(s.cases)
    && WinnersHold(s)
    && OneWinner(s)
    && (forall id {:trigger DecidedHasWinner(s, id)} :: 1 <= id <= |s.cases| ==> DecidedHasWinner(s, id))
    && (forall i {:trigger HasAuthor(s, i)} :: 0 <= i < |s.log| ==> HasAuthor(s, i))
    && EventsHold(s)
  }

  lemma ReviewerIsClean(header: string)
    ensures ReviewerPattern(DecidedBy(header))
  {
    assert ReviewerPattern("api");
  }

  /** What winning the decision of a pending case does: to that case's row, and to the handlers. */
  ghost predicate Wins(s: State, after: State, pid: Pid, id: int) {
    && 1 <= id <= |s.cases| == |after.cases| && s.cases[id - 1].status == Review.PENDING
    && (forall i :: 0 <= i < |s.cases| && i != id - 1 ==> after.cases[i] == s.cases[i])
    && after.cases[id - 1].id == id && after.cases[id - 1].status != Review.PENDING
    && after.cases[id - 1].decidedAt.Some?
    && pid !in s.procs && pid in after.procs && after.procs == s.procs[pid := after.procs[pid]]
    && after.procs[pid].Deciding? && after.procs[pid].id == id && CaseCarries(after.cases, pid, after.procs[pid])
    && after.log == s.log
  }

  lemma {:induction false} DecideWins(s: State, pid: Pid, id: int, decision: string, header: string, stamp: string)
    requires Safe(s) && DoDecide(s, pid, id, decision, header, stamp) != s
    ensures Wins(s, DoDecide(s, pid, id, decision, header, stamp), pid, id)
  {
    Review.DecideIsCompareAndSet(s.cases, pid.tenant, id, decision, DecidedBy(header), stamp);
    ReviewerIsClean(header);
  }

  /** The new winner is the only one, and the old ones keep their cases. */
  lemma {:induction false} WinKeepsWinners(s: State, after: State, pid: Pid, id: int)
    requires Safe(s) && Wins(s, after, pid, id)
    ensures WinnersHold(after) && OneWinner(after) && Review.Numbered(after.cases)
  {
    assert DecidedHasWinner(s, id);
    assert forall w :: w in s.procs ==> after.procs[w] == s.procs[w] && !Won(s.procs[w], id);
  }

  lemma {:induction false} WinKeepsCases(s: State, after: State, pid: Pid, id: int, c: int)
    requires Safe(s) && Wins(s, after, pid, id) && 1 <= c <= |s.cases|
    ensures DecidedHasWinner(after, c)
  {
    assert DecidedHasWinner(s, c);
    if c == id {
      assert Won(after.procs[pid], c);
    } else if s.cases[c - 1].status != Review.PENDING {
      var w :| w in s.procs && Won(s.procs[w], c);
      assert after.procs[w] == s.procs[w];
    } else {
      assert forall w :: w in s.procs ==> after.procs[w] == s.procs[w] && !Won(s.procs[w], c);
    }
  }

  /** A handler that already has its event keeps it when another handler enters. */
  lemma {:induction false} AuthorsStay(s: State, pid: Pid, p: Proc, after: State)
    requires Safe(s) && pid !in s.procs && after.log == s.log && after.procs == s.procs[pid := p] && p.Deciding?
    ensures EventsHold(after) && forall i {:trigger HasAuthor(after, i)} :: 0 <= i < |after.log| ==> HasAuthor(after, i)
  {
    forall i | 0 <= i < |after.log| ensures HasAuthor(after, i) {
      assert HasAuthor(s, i);
      if s.log[i].kind == Audit.CASE_DECISION {
        var w :| w in s.procs && s.procs[w].Decided? && s.procs[w].event == Some(i + 1);
        assert after.procs[w] == s.procs[w];
      }
    }
  }

  lemma {:induction false} DecideIsSafe(s: State, pid: Pid, id: int, decision: string, header: string, stamp: string)
    requires Safe(s)
    ensures Safe(DoDecide(s, pid, id, decision, header, stamp))
  {
    var after := DoDecide(s, pid, id, decision, header, stamp);
    if after != s {
      DecideWins(s, pid, id, decision, header, stamp);
      WinKeepsWinners(s, after, pid, id);
      forall c | 1 <= c <= |after.cases| ensures DecidedHasWinner(after, c) {
        WinKeepsCases(s, after, pid, id, c);
      }
      AuthorsStay(s, pid, Deciding(id, decision, DecidedBy(header)), after);
    }
  }

  /** After its append, or its failure, a winner still is the winner of its case. */
  lemma RecordKeepsWinners(s: State, pid: Pid, ok: bool, stamp: string, w: Pid, id: int)
    requires pid in s.procs && s.procs[pid].Deciding?
    ensures var after := DoRecord(s, pid, s.procs[pid], ok, stamp);
      w in s.procs && Won(s.procs[w], id) <==> w in after.procs && Won(after.procs[w], id)
  {
  }

  lemma {:induction false} RecordKeepsCases(s: State, pid: Pid, ok: bool, stamp: string)
    requires Safe(s) && pid in s.procs && s.procs[pid].Deciding?
    ensures var after := DoRecord(s, pid, s.procs[pid], ok, stamp);
      && WinnersHold(after) && OneWinner(after)
      && forall c {:trigger DecidedHasWinner(after, c)} :: 1 <= c <= |after.cases| ==> DecidedHasWinner(after, c)
  {
    var after := DoRecord(s, pid, s.procs[pid], ok, stamp);
    forall c | 1 <= c <= |after.cases| ensures DecidedHasWinner(after, c) {
      assert DecidedHasWinner(s, c);
      if s.cases[c - 1].status != Review.PENDING {
        var w :| w in s.procs && Won(s.procs[w], c);
        RecordKeepsWinners(s, pid, ok, stamp, w, c);
      }
    }
  }

  lemma {:induction false} RecordKeepsEvents(s: State, pid: Pid, ok: bool, stamp: string)
    requires Safe(s) && pid in s.procs && s.procs[pid].Deciding?
    ensures var after := DoRecord(s, pid, s.procs[pid], ok, stamp);
      && EventsHold(after)
      && forall i {:trigger HasAuthor(after, i)} :: 0 <= i < |after.log| ==> HasAuthor(after, i)
  {
    var after := DoRecord(s, pid, s.procs[pid], ok, stamp);
    forall i | 0 <= i < |after.log| ensures HasAuthor(after, i) {
      if i < |s.log| {
        assert HasAuthor(s, i);
        if s.log[i].kind == Audit.CASE_DECISION {
          var w :| w in s.procs && s.procs[w].Decided? && s.procs[w].event == Some(i + 1);
          assert after.procs[w] == s.procs[w];
        }
      } else {
        assert after.procs[pid].event == Some(i + 1);
      }
    }
  }

  lemma {:induction false} RecordIsSafe(s: State, pid: Pid, ok: bool, stamp: string)
    requires Safe(s) && pid in s.procs && s.procs[pid].Deciding?
    ensures Safe(DoRecord(s, pid, s.procs[pid], ok, stamp))
  {
    RecordKeepsCases(s, pid, ok, stamp);
    RecordKeepsEvents(s, pid, ok, stamp);
  }

  /** Steps that add no winner, decide no case and append no decision event. */
  ghost predicate Neutral(s: State, after: State, pid: Pid) {
    && |s.cases| <= |after.cases| && after.cases[..|s.cases|] == s.cases
    && (forall i :: |s.cases| <= i < |after.cases| ==>
          after.cases[i].id == i + 1 && after.cases[i].status == Review.PENDING
          && after.cases[i].decidedAt == None && after.cases[i].decidedBy == None)
    && |s.log| <= |after.log| && after.log[..|s.log|] == s.log
    && (forall i :: |s.log| <= i < |after.log| ==> after.log[i].kind != Audit.CASE_DECISION)
    && (after.procs == s.procs ||
        (pid in after.procs && after.procs == s.procs[pid := after.procs[pid]]
         && (after.procs[pid].Auditing? || after.procs[pid].Filing?)
         && (pid in s.procs ==> s.procs[pid].Auditing? || s.procs[pid].Filing?)))
  }

  /** The winners, those still to record and those done, are the same before and after. */
  ghost predicate SameWinners(s: State, after: State) {
    forall w :: (w in after.procs && (after.procs[w].Deciding? || after.procs[w].Decided?)) ||
                (w in s.procs && (s.procs[w].Deciding? || s.procs[w].Decided?)) ==>
      w in s.procs && w in after.procs && after.procs[w] == s.procs[w]
  }

  lemma NeutralKeepsWinners(s: State, after: State, pid: Pid)
    requires Safe(s) && Neutral(s, after, pid)
    ensures SameWinners(s, after)
    ensures Review.Numbered(after.cases) && WinnersHold(after) && OneWinner(after)
  {
    assert SameWinners(s, after);
    assert forall i :: 0 <= i < |s.cases| ==> after.cases[i] == s.cases[i];
  }

  lemma {:induction false} NeutralKeepsCase(s: State, after: State, pid: Pid, c: int)
    requires Safe(s) && Neutral(s, after, pid) && SameWinners(s, after) && 1 <= c <= |after.cases|
    ensures DecidedHasWinner(after, c)
  {
    if c <= |s.cases| {
      assert DecidedHasWinner(s, c) && after.cases[c - 1] == s.cases[c - 1];
      if s.cases[c - 1].status != Review.PENDING {
        var w :| w in s.procs && Won(s.procs[w], c);
        assert Won(after.procs[w], c);
      }
    }
  }

  lemma {:induction false} NeutralKeepsAuthor(s: State, after: State, pid: Pid, i: nat)
    requires Safe(s) && Neutral(s, after, pid) && SameWinners(s, after) && i < |after.log|
    ensures HasAuthor(after, i)
  {
    if i < |s.log| && s.log[i].kind == Audit.CASE_DECISION {
      assert HasAuthor(s, i) && after.log[i] == s.log[i];
      var w :| w in s.procs && s.procs[w].Decided? && s.procs[w].event == Some(i + 1);
      assert after.procs[w] == s.procs[w];
    }
  }

  lemma NeutralKeepsEvents(s: State, after: State, pid: Pid)
    requires Safe(s) && Neutral(s, after, pid) && SameWinners(s, after)
    ensures EventsHold(after)
  {
    assert forall i :: 0 <= i < |s.log| ==> after.log[i] == s.log[i];
  }

  lemma {:induction false} NeutralIsSafe(s: State, after: State, pid: Pid)
    requires Safe(s) && Neutral(s, after, pid)
    ensures Safe(after)
  {
    NeutralKeepsWinners(s, after, pid);
    forall c | 1 <= c <= |after.cases| ensures DecidedHasWinner(after, c) {
      NeutralKeepsCase(s, after, pid, c);
    }
    forall i | 0 <= i < |after.log| ensures HasAuthor(after, i) {
      NeutralKeepsAuthor(s, after, pid, i);
    }
    NeutralKeepsEvents(s, after, pid);
  }

  lemma AdvanceIsNeutral(env: Env, s: State, pid: Pid, ok: bool, stamp: string)
    requires pid in s.procs ==> !s.procs[pid].Deciding?
    ensures Neutral(s, DoAdvance(env, s, pid, ok, stamp), pid)
  {
  }

  lemma OthersAreNeutral(env: Env, s: State, a: Action)
    requires a.op.Upload? || a.op.Screen?
    ensures Neutral(s, Step(env, s, a), Pid(a.tenant, if a.op.Screen? then a.op.n else 0))
  {
  }

  lemma {:induction false} StepIsSafe(env: Env, s: State, a: Action)
    requires Safe(s)
    ensures Safe(Step(env, s, a))
  {
    match a.op
    case Decide(n, id, decision, header) => DecideIsSafe(s, Pid(a.tenant, n), id, decision, header, a.stamp);
    case Upload(_, _, _) =>
      OthersAreNeutral(env, s, a);
      NeutralIsSafe(s, Step(env, s, a), Pid(a.tenant, 0));
    case Screen(n, _, _, _) =>
      OthersAreNeutral(env, s, a);
      NeutralIsSafe(s, Step(env, s, a), Pid(a.tenant, n));
    case Ask(_) =>
    case Advance(n) =>
      var pid := Pid(a.tenant, n);
      if pid in s.procs && s.procs[pid].Deciding? {
        RecordIsSafe(s, pid, a.ok, a.stamp);
      } else {
        AdvanceIsNeutral(env, s, pid, a.ok, a.stamp);
        NeutralIsSafe(s, Step(env, s, a), pid);
      }
  }

  lemma {:induction false} RunsAreSafe(env: Env, actions: seq<Action>)
    ensures Safe(Run(env, actions))
    decreases |actions|
  {
    if |actions| > 0 {
      RunsAreSafe(env, actions[..|actions| - 1]);
      StepIsSafe(env, Run(env, actions[..|actions| - 1]), actions[|actions| - 1]);
    }
  }

  // ----- The books balance -----

  ghost function DecisionOf(id: int): Audit.EventRow -> bool {
    (row: Audit.EventRow) => IsDecisionOf(row, id)
  }

  /** Winners of the case that have yet to append their event. */
  ghost function YetToRecord(s: State, id: int): set<Pid> {
    set pid | pid in s.procs && s.procs[pid].Deciding? && s.procs[pid].id == id
  }

  /** Winners of the case whose append failed. */
  ghost function Unrecorded(s: State, id: int): set<Pid> {
    set pid | pid in s.procs && s.procs[pid].Decided? && s.procs[pid].id == id && s.procs[pid].event.None?
  }

  /** The events, the winners still to record and the winners whose append failed make exactly
      one once the case is decided and none while it is pending. */
  ghost predicate Balanced(s: State, id: int)
    requires 1 <= id <= |s.cases|
  {
    CountIf(DecisionOf(id), s.log) + |YetToRecord(s, id)| + |Unrecorded(s, id)|
      == if s.cases[id - 1].status == Review.PENDING then 0 else 1
  }

  /** A decision event belongs to the winner of its case. */
  lemma {:induction false} AuthorIsWinner(s: State, i: nat, id: int) returns (pid: Pid)
    requires Safe(s) && i < |s.log| && IsDecisionOf(s.log[i], id)
    ensures pid in s.procs && s.procs[pid].Decided? && s.procs[pid].id == id && s.procs[pid].event == Some(i + 1)
    ensures EventCarries(s.log[i], pid, s.procs[pid]) && CaseCarries(s.cases, pid, s.procs[pid])
  {
    assert HasAuthor(s, i);
    pid :| pid in s.procs && s.procs[pid].Decided? && s.procs[pid].event == Some(i + 1);
  }

  lemma {:induction false} SafeIsBalanced(s: State, id: int)
    requires Safe(s) && 1 <= id <= |s.cases|
    ensures Balanced(s, id)
  {
    assert DecidedHasWinner(s, id);
    if s.cases[id - 1].status == Review.PENDING {
      forall i | 0 <= i < |s.log| ensures !IsDecisionOf(s.log[i], id) {
        if IsDecisionOf(s.log[i], id) {
          var pid := AuthorIsWinner(s, i, id);
          assert Won(s.procs[pid], id);
        }
      }
      CountNone(DecisionOf(id), s.log);
      assert YetToRecord(s, id) == {} && Unrecorded(s, id) == {} by {
        assert forall pid :: pid in s.procs ==> !Won(s.procs[pid], id);
      }
    } else {
      var w :| w in s.procs && Won(s.procs[w], id);
      WinnerBalances(s, id, w);
    }
  }

  lemma {:induction false} WinnerBalances(s: State, id: int, w: Pid)
    requires Safe(s) && 1 <= id <= |s.cases| && w in s.procs && Won(s.procs[w], id)
    ensures CountIf(DecisionOf(id), s.log) + |YetToRecord(s, id)| + |Unrecorded(s, id)| == 1
  {
    var p := s.procs[w];
    forall i | 0 <= i < |s.log| && IsDecisionOf(s.log[i], id) ensures p.Decided? && p.event == Some(i + 1) {
      var pid := AuthorIsWinner(s, i, id);
      assert Won(s.procs[pid], id);
    }
    if p.Decided? && p.event.Some? {
      CountOne(DecisionOf(id), s.log, p.event.value - 1);
      assert YetToRecord(s, id) == {} && Unrecorded(s, id) == {};
    } else {
      CountNone(DecisionOf(id), s.log);
      if p.Deciding? {
        assert YetToRecord(s, id) == {w} && Unrecorded(s, id) == {};
      } else {
        assert YetToRecord(s, id) == {} && Unrecorded(s, id) == {w};
      }
    }
  }

  /** In every run, for every case: the books balance, and each event about it is its tenant's
      and carries its final status and author. */
  lemma {:induction false} EveryDecisionIsAccounted(env: Env, actions: seq<Action>, id: int)
    requires 1 <= id <= |Run(env, actions).cases|
    ensures Balanced(Run(env, actions), id)
    ensures forall i :: 0 <= i < |Run(env, actions).log| && IsDecisionOf(Run(env, actions).log[i], id) ==>
      var row, c := Run(env, actions).log[i], Run(env, actions).cases[id - 1];
      row.tenant == c.tenant && c.decidedBy.Some? && row.payload == Audit.Decision(id, c.status, c.decidedBy.value)
  {
    var s := Run(env, actions);
    RunsAreSafe(env, actions);
    SafeIsBalanced(s, id);
    forall i | 0 <= i < |s.log| && IsDecisionOf(s.log[i], id)
      ensures s.log[i].tenant == s.cases[id - 1].tenant && s.cases[id - 1].decidedBy.Some?
      ensures s.log[i].payload == Audit.Decision(id, s.cases[id - 1].status, s.cases[id - 1].decidedBy.value)
    {
      var pid := AuthorIsWinner(s, i, id);
    }
  }

  /** The case's row is there and unchanged. */
  ghost predicate SameRow(s: State, after: State, id: int)
    requires 1 <= id <= |s.cases|
  {
    id <= |after.cases| && after.cases[id - 1] == s.cases[id - 1]
  }

  lemma {:induction false} DecideKeepsDecided(s: State, pid: Pid, other: int, decision: string, header: string,
      stamp: string, id: int)
    requires Safe(s) && 1 <= id <= |s.cases| && s.cases[id - 1].status != Review.PENDING
    ensures SameRow(s, DoDecide(s, pid, other, decision, header, stamp), id)
  {
    Review.DecideIsCompareAndSet(s.cases, pid.tenant, other, decision, DecidedBy(header), stamp);
  }

  lemma {:induction false} StepKeepsDecided(env: Env, s: State, a: Action, after: State, id: int)
    requires Safe(s) && 1 <= id <= |s.cases| && s.cases[id - 1].status != Review.PENDING && after == Step(env, s, a)
    ensures SameRow(s, after, id)
  {
    if a.op.Decide? {
      DecideKeepsDecided(s, Pid(a.tenant, a.op.n), a.op.id, a.op.decision, a.op.header, a.stamp, id);
    }
  }

  /** A decided case stays as it was decided: no later step of any run changes its row. */
  lemma {:induction false} DecisionsAreFinal(env: Env, actions: seq<Action>, n: nat, was: State, now: State, id: int)
    requires n <= |actions| && was == Run(env, actions[..n]) && now == Run(env, actions)
    requires 1 <= id <= |was.cases| && was.cases[id - 1].status != Review.PENDING
    ensures SameRow(was, now, id)
    decreases |actions|
  {
    if n == |actions| {
      assert actions[..n] == actions;
    } else {
      var m := |actions| - 1;
      var s := Run(env, actions[..m]);
      assert actions[..m][..n] == actions[..n];
      DecisionsAreFinal(env, actions[..m], n, was, s, id);
      RunsAreSafe(env, actions[..m]);
      StepKeepsDecided(env, s, actions[m], now, id);
    }
  }
}
