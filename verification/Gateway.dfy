/** Requests as they come in: the tenant middleware of internal/httpapi/tenant_middleware.go looks up
    the key once, and the handlers act for the tenant it found, with the consent it had then. */
module Gateway {
  import Tenants
  import opened Service
  import opened Wrappers

  /** What the middleware hands on to the handler. */
  datatype Session = Session(tenant: string, cascade: bool)

  /** One step of anyone; n numbers the requests. ok tells whether the database carries it out. */
  datatype Event =
    | Manage(change: Tenants.Op, ok: bool)
    | Enter(n: nat, rawKey: string, ok: bool)
    | Serve(n: nat, op: Op, ok: bool, stamp: string)

  /** All four databases, and the requests let in. */
  datatype World = World(tenants: seq<Tenants.Tenant>, sessions: map<nat, Session>, service: State)

  const START := World([], map[], EMPTY)

  /** The request's next statement, under its own number and with its session's consent. */
  function Bound(op: Op, n: nat, cascade: bool): Op {
    match op
    case Decide(_, id, decision, header) => Decide(n, id, decision, header)
    case Screen(_, query, _, draw) => Screen(n, query, cascade, draw)
    case Advance(_) => Advance(n)
    case _ => op
  }

  /** The service step an event is, if its request was let in. */
  function ActionOf(w: World, e: Event): Option<Action> {
    if e.Serve? && e.n in w.sessions
    then Some(Action(w.sessions[e.n].tenant, Bound(e.op, e.n, w.sessions[e.n].cascade), e.ok, e.stamp))
    else None
  }

  /** A key lookup: 401 for a missing or unknown key. */
  function Admitted(hash: string -> string, tenants: seq<Tenants.Tenant>, rawKey: string): Option<Session> {
    var found := Tenants.ByHash(tenants, hash(rawKey));
    if rawKey == "" || found.None? then None else Some(Session(found.value.id, found.value.cascade))
  }

  ghost function Move(env: Env, hash: string -> string, w: World, e: Event): World {
    match e
    case Manage(change, ok) => if ok then w.(tenants := Tenants.Apply(hash, w.tenants, change)) else w
    case Enter(n, rawKey, ok) =>
      var session := Admitted(hash, w.tenants, rawKey);
      if ok && n !in w.sessions && session.Some? then w.(sessions := w.sessions[n := session.value]) else w
    case Serve(_, _, _, _) =>
      var a := ActionOf(w, e);
      if a.Some? then w.(service := Step(env, w.service, a.value)) else w
  }

  ghost function Play(env: Env, hash: string -> string, events: seq<Event>): World {
    if |events| == 0 then START
    else Move(env, hash, Play(env, hash, events[..|events| - 1]), events[|events| - 1])
  }

  /** The changes to tenants that the database carried out. */
  ghost function Changes(events: seq<Event>): seq<Tenants.Op> {
    if |events| == 0 then [] else
      var e := events[|events| - 1];
      Changes(events[..|events| - 1]) + if e.Manage? && e.ok then [e.change] else []
  }

  /** The service steps among the events. */
  ghost function Actions(env: Env, hash: string -> string, events: seq<Event>): seq<Action> {
    if |events| == 0 then [] else
      var rest, e := events[..|events| - 1], events[|events| - 1];
      var a := ActionOf(Play(env, hash, rest), e);
      Actions(env, hash, rest) + if a.Some? then [a.value] else []
  }

  lemma {:induction false} StoresRun(env: Env, hash: string -> string, events: seq<Event>)
    ensures Play(env, hash, events).service == Run(env, Actions(env, hash, events))
    decreases |events|
  {
    if |events| > 0 {
      var rest := events[..|events| - 1];
      var a, actions := ActionOf(Play(env, hash, rest), events[|events| - 1]), Actions(env, hash, rest);
      StoresRun(env, hash, rest);
      if a.Some? {
        assert (actions + [a.value])[..|actions|] == actions;
      } else {
        assert actions + [] == actions;
      }
    }
  }

  lemma {:induction false} TenantsRun(env: Env, hash: string -> string, events: seq<Event>)
    ensures Play(env, hash, events).tenants == Tenants.Run(hash, Changes(events))
    decreases |events|
  {
    if |events| > 0 {
      var e, changes := events[|events| - 1], Changes(events[..|events| - 1]);
      TenantsRun(env, hash, events[..|events| - 1]);
      if e.Manage? && e.ok {
        assert (changes + [e.change])[..|changes|] == changes;
      } else {
        assert changes + [] == changes;
      }
    }
  }

  /** Behind the middleware the stores run as the service model says, and the tenant table as its
      own store's runs do; so everything proved of those holds here. */
  lemma {:induction false} PlaysAreRuns(env: Env, hash: string -> string, events: seq<Event>)
    ensures Play(env, hash, events).service == Run(env, Actions(env, hash, events))
    ensures Play(env, hash, events).tenants == Tenants.Run(hash, Changes(events))
  {
    StoresRun(env, hash, events);
    TenantsRun(env, hash, events);
  }

  // ----- Where a session comes from -----

  /** Event at is the lookup that let request n in with this session: it succeeded, the number was
      new, the key is the tenant's, and the consent is what the tenant had opted for at that moment. */
  ghost predicate LetIn(env: Env, hash: string -> string, events: seq<Event>, at: int, n: nat, session: Session) {
    && 0 <= at < |events| && events[at].Enter? && events[at].n == n && events[at].ok
    && n !in Play(env, hash, events[..at]).sessions
    && Admitted(hash, Tenants.Run(hash, Changes(events[..at])), events[at].rawKey) == Some(session)
    && session.cascade == Tenants.OptedIn(hash, Changes(events[..at]), session.tenant)
  }

  lemma {:induction false} RowOfHash(rows: seq<Tenants.Tenant>, keyHash: string) returns (i: nat)
    requires Tenants.ByHash(rows, keyHash).Some?
    ensures i < |rows| && Tenants.ByHash(rows, keyHash) == Some(rows[i])
  {
    Tenants.ByHashIsRow(rows, keyHash);
    i :| 0 <= i < |rows| && rows[i] == Tenants.ByHash(rows, keyHash).value;
  }

  /** A key that is admitted gets the consent of the moment. */
  lemma {:induction false} AdmittedByConsent(hash: string -> string, changes: seq<Tenants.Op>, rawKey: string,
      session: Session)
    requires Admitted(hash, Tenants.Run(hash, changes), rawKey) == Some(session)
    ensures session.cascade == Tenants.OptedIn(hash, changes, session.tenant)
    ensures Tenants.Known(Tenants.Run(hash, changes), session.tenant)
  {
    var i := RowOfHash(Tenants.Run(hash, changes), hash(rawKey));
    Tenants.CascadeIsOptIn(hash, changes, i);
  }

  /** Every session of every run stems from the one lookup that let its request in. */
  lemma {:induction false} SessionsAreLookups(env: Env, hash: string -> string, events: seq<Event>, n: nat,
      session: Session) returns (at: nat)
    requires n in Play(env, hash, events).sessions && session == Play(env, hash, events).sessions[n]
    ensures LetIn(env, hash, events, at, n, session)
    decreases |events|
  {
    var m := |events| - 1;
    if n in Play(env, hash, events[..m]).sessions {
      at := SessionsAreLookups(env, hash, events[..m], n, session);
      assert events[..m][..at] == events[..at];
    } else {
      PlaysAreRuns(env, hash, events[..m]);
      AdmittedByConsent(hash, Changes(events[..m]), events[m].rawKey, session);
      at := m;
    }
  }

  /** A request is let in once. */
  lemma {:induction false} SessionsStay(env: Env, hash: string -> string, events: seq<Event>, k: nat, n: nat)
    requires k <= |events| && n in Play(env, hash, events[..k]).sessions
    ensures n in Play(env, hash, events).sessions
    ensures Play(env, hash, events).sessions[n] == Play(env, hash, events[..k]).sessions[n]
    decreases |events|
  {
    var m := |events| - 1;
    if k <= m {
      assert events[..m][..k] == events[..k];
      SessionsStay(env, hash, events[..m], k, n);
    } else {
      assert events[..k] == events;
    }
  }

  /** So the lookup that let a request in is the only one that did. */
  lemma {:induction false} LetInOnce(env: Env, hash: string -> string, events: seq<Event>, at: nat, other: nat, n: nat,
      session: Session, later: Session)
    requires LetIn(env, hash, events, at, n, session) && LetIn(env, hash, events, other, n, later)
    ensures at == other
  {
    if at < other {
      AfterLetIn(env, hash, events, at, n, session);
      assert events[..other][..at + 1] == events[..at + 1];
      SessionsStay(env, hash, events[..other], at + 1, n);
    } else if other < at {
      AfterLetIn(env, hash, events, other, n, later);
      assert events[..at][..other + 1] == events[..other + 1];
      SessionsStay(env, hash, events[..at], other + 1, n);
    }
  }

  lemma {:induction false} AfterLetIn(env: Env, hash: string -> string, events: seq<Event>, at: nat, n: nat,
      session: Session)
    requires LetIn(env, hash, events, at, n, session)
    ensures n in Play(env, hash, events[..at + 1]).sessions
  {
    PlaysAreRuns(env, hash, events[..at]);
    assert events[..at + 1][..at] == events[..at];
  }

  // ----- What a request does -----

  /** The step does what the request asks: the same operation with the same arguments, as the request
      of that number and with that consent. */
  ghost predicate SameRequest(asked: Op, done: Op, n: nat, cascade: bool) {
    match asked
    case Upload(_, _, _) => done == asked
    case Ask(_) => done == asked
    case Advance(_) => done == Advance(n)
    case Decide(_, id, decision, header) => done == Decide(n, id, decision, header)
    case Screen(_, query, _, draw) => done == Screen(n, query, cascade, draw)
  }

  /** Step k of the run is this service step. */
  ghost predicate Acts(env: Env, hash: string -> string, events: seq<Event>, k: nat, a: Action) {
    k < |events| && ActionOf(Play(env, hash, events[..k]), events[k]) == Some(a)
  }

  /** A request that was let in does at each step what it asks, for the tenant and with the consent of its
      session; one that was not let in does nothing. */
  lemma {:induction false} StepsAreRequests(env: Env, hash: string -> string, events: seq<Event>, k: nat)
    requires k < |events| && events[k].Serve?
    ensures var e, w := events[k], Play(env, hash, events[..k]);
      if e.n in w.sessions
      then exists a :: (Acts(env, hash, events, k, a) && a.tenant == w.sessions[e.n].tenant
                        && SameRequest(e.op, a.op, e.n, w.sessions[e.n].cascade) && a.ok == e.ok && a.stamp == e.stamp
                        && Play(env, hash, events[..k + 1]).service == Step(env, w.service, a))
      else Play(env, hash, events[..k + 1]) == w
  {
    var e, w := events[k], Play(env, hash, events[..k]);
    assert events[..k + 1][..k] == events[..k];
    if e.n in w.sessions {
      var session := w.sessions[e.n];
      assert Acts(env, hash, events, k, Action(session.tenant, Bound(e.op, e.n, session.cascade), e.ok, e.stamp));
    }
  }

  // ----- Consent -----

  /** In every run, a screening goes through the LLM cascade exactly when its tenant was opted in at
      the moment of the lookup that let its request in. */
  lemma {:induction false} ScreeningsAskConsent(env: Env, hash: string -> string, events: seq<Event>, k: nat,
      a: Action) returns (at: nat)
    requires Acts(env, hash, events, k, a) && a.op.Screen?
    ensures at < k && LetIn(env, hash, events, at, events[k].n, Session(a.tenant, a.op.cascade))
    ensures a.op.cascade == Tenants.OptedIn(hash, Changes(events[..at]), a.tenant)
  {
    at := SessionsAreLookups(env, hash, events[..k], events[k].n, Session(a.tenant, a.op.cascade));
    assert events[..k][..at] == events[..at];
  }

  /** The event is an opt-in or opt-out of this tenant that was carried out. */
  ghost predicate Toggles(e: Event, id: string) {
    e.Manage? && e.ok && e.change.SetCascade? && e.change.id == id
  }

  /** The tenant's last opt-in or opt-out among the events from at on, if any. */
  ghost function LastWord(events: seq<Event>, at: nat, id: string): Option<bool>
    requires at <= |events|
    decreases |events|
  {
    if |events| == at then None
    else if Toggles(events[|events| - 1], id) then Some(events[|events| - 1].change.enabled)
    else LastWord(events[..|events| - 1], at, id)
  }

  /** What a tenant has opted for is its last word since any moment it was known at, or what it had
      opted for then. */
  lemma {:induction false} OptedInSince(hash: string -> string, events: seq<Event>, at: nat, id: string)
    requires at <= |events| && Tenants.Known(Tenants.Run(hash, Changes(events[..at])), id)
    ensures Tenants.Known(Tenants.Run(hash, Changes(events)), id)
    ensures var word := LastWord(events, at, id);
      Tenants.OptedIn(hash, Changes(events), id) ==
        if word.Some? then word.value else Tenants.OptedIn(hash, Changes(events[..at]), id)
    decreases |events|
  {
    if |events| == at {
      assert events[..at] == events;
    } else {
      var rest, e := events[..|events| - 1], events[|events| - 1];
      assert rest[..at] == events[..at];
      OptedInSince(hash, rest, at, id);
      if e.Manage? && e.ok {
        Tenants.OptedInOneMore(hash, Changes(rest), e.change, id);
      } else {
        assert Changes(rest) + [] == Changes(rest);
      }
    }
  }

  /** A screening's use of the cascade agrees with what its tenant has opted for by then exactly when
      the tenant has said nothing else since the lookup that let the request in. */
  lemma {:induction false} ConsentIsCurrentIff(env: Env, hash: string -> string, events: seq<Event>, k: nat,
      a: Action) returns (at: nat)
    requires Acts(env, hash, events, k, a) && a.op.Screen?
    ensures at < k && LetIn(env, hash, events, at, events[k].n, Session(a.tenant, a.op.cascade))
    ensures var word := LastWord(events[..k], at, a.tenant);
      (a.op.cascade == Tenants.OptedIn(hash, Changes(events[..k]), a.tenant)) <==>
      (word.None? || word.value == a.op.cascade)
  {
    at := ScreeningsAskConsent(env, hash, events, k, a);
    assert events[..k][..at] == events[..at];
    AdmittedByConsent(hash, Changes(events[..at]), events[at].rawKey, Session(a.tenant, a.op.cascade));
    OptedInSince(hash, events[..k], at, a.tenant);
  }

  /** It uses the cascade only if, before that lookup, the tenant's last word was an opt-in. */
  lemma {:induction false} CascadeNeedsOptIn(env: Env, hash: string -> string, events: seq<Event>, k: nat, a: Action)
      returns (at: nat, last: nat)
    requires Acts(env, hash, events, k, a) && a.op.Screen? && a.op.cascade
    ensures at < k && LetIn(env, hash, events, at, events[k].n, Session(a.tenant, true))
    ensures last < at && events[last] == Manage(Tenants.SetCascade(a.tenant, true), true)
    ensures forall j :: last < j < at ==> !Toggles(events[j], a.tenant)
  {
    at := ScreeningsAskConsent(env, hash, events, k, a);
    last := LastOptIn(hash, events[..at], a.tenant);
    assert forall j :: 0 <= j < at ==> events[..at][j] == events[j];
  }

  lemma {:induction false} LastOptIn(hash: string -> string, events: seq<Event>, id: string) returns (last: nat)
    requires Tenants.OptedIn(hash, Changes(events), id)
    ensures last < |events| && events[last] == Manage(Tenants.SetCascade(id, true), true)
    ensures forall j :: last < j < |events| ==> !Toggles(events[j], id)
    decreases |events|
  {
    var n := |events| - 1;
    var e, changes := events[n], Changes(events[..n]);
    if e.Manage? && e.ok {
      assert (changes + [e.change])[..|changes|] == changes;
    } else {
      assert changes + [] == changes;
    }
    if Toggles(e, id) {
      last := n;
    } else {
      last := LastOptIn(hash, events[..n], id);
      assert forall j :: 0 <= j < n ==> events[..n][j] == events[j];
    }
  }

  /** With an injective hash, every step of every request is for the tenant created with the key that
      let the request in. */
  lemma {:induction false} RequestsActForTheirKey(env: Env, hash: string -> string, events: seq<Event>, k: nat,
      a: Action, session: Session) returns (at: nat)
    requires Tenants.Injective(hash) && Acts(env, hash, events, k, a)
    requires session == Play(env, hash, events[..k]).sessions[events[k].n]
    ensures at < k && LetIn(env, hash, events, at, events[k].n, session) && session.tenant == a.tenant
    ensures var created := Tenants.Creation(hash, Changes(events[..at]), events[at].rawKey);
      created.Some? && created.value.id == a.tenant
  {
    at := SessionsAreLookups(env, hash, events[..k], events[k].n, session);
    assert events[..k][..at] == events[..at];
    Tenants.KeyFindsItsTenant(hash, Changes(events[..at]), events[at].rawKey);
  }

  /** A tenant opts out after its request was let in and before it is screened. */
  function LateOptOut(query: Query): seq<Event> {
    [Manage(Tenants.Create("t", "Acme", "key", Tenants.FULL, ""), true), Manage(Tenants.SetCascade("t", true), true),
     Enter(0, "key", true), Manage(Tenants.SetCascade("t", false), true),
     Serve(0, Screen(0, query, false, 0), true, "")]
  }

  lemma PlayOneMore(env: Env, hash: string -> string, events: seq<Event>, e: Event)
    ensures Play(env, hash, events + [e]) == Move(env, hash, Play(env, hash, events), e)
  {
    assert (events + [e])[..|events|] == events;
  }

  /** An opt-out does not reach a request already let in: the tenant is opted out, and the request is
      still screened with the cascade. */
  lemma {:induction false} OptOutCanComeTooLate(env: Env, hash: string -> string, query: Query)
    ensures var events := LateOptOut(query);
      var w := Play(env, hash, events[..4]);
      && |w.tenants| == 1 && w.tenants[0].id == "t" && !w.tenants[0].cascade
      && Acts(env, hash, events, 4, Action("t", Screen(0, query, true, 0), true, ""))
  {
    var events := LateOptOut(query);
    PlayOneMore(env, hash, [], events[0]);
    PlayOneMore(env, hash, events[..1], events[1]);
    PlayOneMore(env, hash, events[..2], events[2]);
    PlayOneMore(env, hash, events[..3], events[3]);
    assert events[..1] == [] + [events[0]] && events[..2] == events[..1] + [events[1]];
    assert events[..3] == events[..2] + [events[2]] && events[..4] == events[..3] + [events[3]];
  }
}
