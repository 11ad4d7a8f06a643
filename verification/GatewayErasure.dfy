/** Tenant isolation over all four databases: deleting every other tenant's keys, requests and
    changes from a run leaves one tenant's table row, sessions, stores and answers as they were. */
module GatewayErasure {
  import Tenants
  import opened Erasure
  import opened Gateway
  import opened Service
  import opened Tables
  import opened Transcripts
  import opened Wrappers

  // ----- One tenant's part of the tenant table -----

  ghost function OwnTenant(id: string): Tenants.Tenant -> bool {
    (t: Tenants.Tenant) => t.id == id
  }

  ghost function SameTenant(): Tenants.Tenant -> Tenants.Tenant {
    (t: Tenants.Tenant) => t
  }

  ghost function OwnRows(rows: seq<Tenants.Tenant>, id: string): seq<Tenants.Tenant> {
    Pick(OwnTenant(id), SameTenant(), rows)
  }

  lemma {:induction false} ToggleOwnRows(rows: seq<Tenants.Tenant>, changed: string, enabled: bool, id: string)
    ensures OwnRows(Tenants.WithCascade(rows, changed, enabled), id) ==
      if changed == id then Tenants.WithCascade(OwnRows(rows, id), changed, enabled) else OwnRows(rows, id)
    decreases |rows|
  {
    if |rows| > 0 {
      var n := |rows| - 1;
      ToggleOwnRows(rows[..n], changed, enabled, id);
      assert Tenants.WithCascade(rows, changed, enabled)[..n] == Tenants.WithCascade(rows[..n], changed, enabled);
    }
  }

  /** What fits the whole table fits a part of it. */
  lemma {:induction false} FitsOwnRows(rows: seq<Tenants.Tenant>, id: string, keyHash: string, tenant: string)
    requires Tenants.Fits(rows, id, keyHash)
    ensures Tenants.Fits(OwnRows(rows, tenant), id, keyHash)
  {
    forall i | 0 <= i < |OwnRows(rows, tenant)|
      ensures OwnRows(rows, tenant)[i].id != id && OwnRows(rows, tenant)[i].keyHash != keyHash
    {
      PickSound(OwnTenant(tenant), SameTenant(), rows, OwnRows(rows, tenant)[i]);
    }
  }

  /** A key that finds the tenant among all finds it among its own rows. */
  lemma {:induction false} LookupOwnRows(rows: seq<Tenants.Tenant>, keyHash: string, id: string)
    requires Tenants.ByHash(rows, keyHash).Some? && Tenants.ByHash(rows, keyHash).value.id == id
    ensures Tenants.ByHash(OwnRows(rows, id), keyHash) == Tenants.ByHash(rows, keyHash)
    decreases |rows|
  {
    var rest, last := rows[..|rows| - 1], rows[|rows| - 1];
    if last.id == id {
      assert OwnRows(rows, id) == OwnRows(rest, id) + [last];
      assert OwnRows(rows, id)[..|OwnRows(rest, id)|] == OwnRows(rest, id);
    } else {
      assert OwnRows(rows, id) == OwnRows(rest, id);
    }
    if last.keyHash != keyHash {
      LookupOwnRows(rest, keyHash, id);
    }
  }

  /** And it is admitted with the same session. */
  lemma {:induction false} AdmittedAlone(hash: string -> string, rows: seq<Tenants.Tenant>, rawKey: string,
      session: Session)
    requires Admitted(hash, rows, rawKey) == Some(session)
    ensures Admitted(hash, OwnRows(rows, session.tenant), rawKey) == Some(session)
  {
    LookupOwnRows(rows, hash(rawKey), session.tenant);
  }

  // ----- One tenant's events -----

  /** A change that creates the tenant or sets its flag. */
  ghost predicate Concerns(hash: string -> string, rows: seq<Tenants.Tenant>, change: Tenants.Op, id: string) {
    change.id == id && (change.SetCascade? || Tenants.Inserts(hash, rows, change))
  }

  /** What an event is to a tenant alone, the case it names renamed; None for an event that is not its
      own: a change of someone else, a lookup that lets in no request of its own, someone else's step. */
  ghost function OwnEvent(env: Env, hash: string -> string, w: World, e: Event, id: string): Option<Event> {
    match e
    case Manage(change, ok) => if ok && Concerns(hash, w.tenants, change, id) then Some(e) else None
    case Enter(n, rawKey, ok) =>
      var session := Admitted(hash, w.tenants, rawKey);
      if ok && n !in w.sessions && session.Some? && session.value.tenant == id then Some(e) else None
    case Serve(n, _, ok, stamp) =>
      var a := ActionOf(w, e);
      if a.Some? && a.value.tenant == id then Some(Serve(n, LocalAction(w.service, a.value).op, ok, stamp)) else None
  }

  /** A tenant's own events out of a run of everyone's. */
  ghost function OwnEvents(env: Env, hash: string -> string, events: seq<Event>, id: string): seq<Event> {
    if |events| == 0 then [] else
      var rest, e := events[..|events| - 1], events[|events| - 1];
      var own := OwnEvent(env, hash, Play(env, hash, rest), e, id);
      OwnEvents(env, hash, rest, id) + if own.Some? then [own.value] else []
  }

  // ----- One step -----

  ghost function OwnSessions(sessions: map<nat, Session>, id: string): map<nat, Session> {
    map n | n in sessions && sessions[n].tenant == id :: sessions[n]
  }

  lemma OwnSessionsGrow(sessions: map<nat, Session>, n: nat, session: Session, id: string)
    requires n !in sessions
    ensures OwnSessions(sessions[n := session], id) ==
      if session.tenant == id then OwnSessions(sessions, id)[n := session] else OwnSessions(sessions, id)
  {
  }

  /** The second world is what is left of the first when every other tenant is taken out. */
  ghost predicate Mirrors(w: World, alone: World, id: string) {
    && alone.tenants == OwnRows(w.tenants, id)
    && alone.sessions == OwnSessions(w.sessions, id)
    && alone.service == LocalState(w.service, id)
  }

  /** The second world after what the event is to the tenant. */
  ghost function MoveAlone(env: Env, hash: string -> string, w: World, alone: World, e: Event, id: string): World {
    var own := OwnEvent(env, hash, w, e, id);
    if own.Some? then Move(env, hash, alone, own.value) else alone
  }

  lemma {:induction false} ChangeMirrors(env: Env, hash: string -> string, w: World, alone: World, change: Tenants.Op,
      ok: bool, id: string)
    requires Mirrors(w, alone, id)
    ensures Mirrors(Move(env, hash, w, Manage(change, ok)), MoveAlone(env, hash, w, alone, Manage(change, ok), id), id)
  {
    if ok && change.SetCascade? {
      ToggleOwnRows(w.tenants, change.id, change.enabled, id);
    } else if ok && Tenants.Inserts(hash, w.tenants, change) {
      var t := Tenants.Tenant(change.id, change.name, hash(change.rawKey), change.tier, false, change.stamp);
      PickAppend(OwnTenant(id), SameTenant(), w.tenants, t);
      FitsOwnRows(w.tenants, change.id, hash(change.rawKey), id);
    }
  }

  lemma {:induction false} EntryMirrors(env: Env, hash: string -> string, w: World, alone: World, n: nat,
      rawKey: string, ok: bool, id: string)
    requires Mirrors(w, alone, id)
    ensures Mirrors(Move(env, hash, w, Enter(n, rawKey, ok)),
                    MoveAlone(env, hash, w, alone, Enter(n, rawKey, ok), id), id)
  {
    var session := Admitted(hash, w.tenants, rawKey);
    if ok && n !in w.sessions && session.Some? {
      OwnSessionsGrow(w.sessions, n, session.value, id);
      if session.value.tenant == id {
        AdmittedAlone(hash, w.tenants, rawKey, session.value);
      }
    }
  }

  /** The tenant's own step is the step it would be alone. */
  lemma OwnActionAlone(env: Env, hash: string -> string, w: World, alone: World, e: Event, id: string, a: Action)
    requires Mirrors(w, alone, id) && ActionOf(w, e) == Some(a) && a.tenant == id
    ensures var own := OwnEvent(env, hash, w, e, id);
      own.Some? && own.value.Serve? && ActionOf(alone, own.value) == Some(LocalAction(w.service, a))
  {
  }

  lemma {:induction false} ServingMirrors(env: Env, hash: string -> string, w: World, alone: World, e: Event,
      id: string)
    requires Mirrors(w, alone, id) && Owned(w.service) && e.Serve?
    ensures Mirrors(Move(env, hash, w, e), MoveAlone(env, hash, w, alone, e, id), id)
  {
    var a := ActionOf(w, e);
    if a.Some? {
      StepCommutes(env, w.service, a.value, id);
      if a.value.tenant == id {
        OwnActionAlone(env, hash, w, alone, e, id, a.value);
      }
    }
  }

  lemma {:induction false} MoveMirrors(env: Env, hash: string -> string, w: World, alone: World, e: Event, id: string)
    requires Mirrors(w, alone, id) && Owned(w.service)
    ensures Mirrors(Move(env, hash, w, e), MoveAlone(env, hash, w, alone, e, id), id)
  {
    match e
    case Manage(change, ok) => ChangeMirrors(env, hash, w, alone, change, ok, id);
    case Enter(n, rawKey, ok) => EntryMirrors(env, hash, w, alone, n, rawKey, ok, id);
    case Serve(_, _, _, _) => ServingMirrors(env, hash, w, alone, e, id);
  }

  // ----- Whole runs -----

  lemma {:induction false} PlaysOwn(env: Env, hash: string -> string, events: seq<Event>)
    ensures Owned(Play(env, hash, events).service)
  {
    PlaysAreRuns(env, hash, events);
    RunsOwn(env, Actions(env, hash, events));
  }

  /** Deleting all other tenants' keys, requests and changes from any run leaves the tenant's row, its
      sessions and its part of all stores as they were, up to its own numbering. */
  lemma {:induction false} WorldsCanBeErased(env: Env, hash: string -> string, events: seq<Event>, id: string)
    ensures Mirrors(Play(env, hash, events), Play(env, hash, OwnEvents(env, hash, events, id)), id)
    decreases |events|
  {
    if |events| > 0 {
      var rest, e := events[..|events| - 1], events[|events| - 1];
      var w, own := Play(env, hash, rest), OwnEvents(env, hash, rest, id);
      var now := OwnEvent(env, hash, w, e, id);
      WorldsCanBeErased(env, hash, rest, id);
      PlaysOwn(env, hash, rest);
      MoveMirrors(env, hash, w, Play(env, hash, own), e, id);
      if now.Some? {
        PlayOneMore(env, hash, own, now.value);
      } else {
        assert own + [] == own;
      }
    }
  }

  /** What a tenant's requests are answered, step by step. */
  ghost function Heard(env: Env, hash: string -> string, events: seq<Event>, id: string): seq<Option<Answer>> {
    if |events| == 0 then [] else
      var w := Play(env, hash, events[..|events| - 1]);
      var a := ActionOf(w, events[|events| - 1]);
      Heard(env, hash, events[..|events| - 1], id)
        + if a.Some? && a.value.tenant == id then [Answered(env, w.service, a.value)] else []
  }

  lemma {:induction false} HeardIsTranscript(env: Env, hash: string -> string, events: seq<Event>, id: string)
    ensures Heard(env, hash, events, id) == Transcript(env, Actions(env, hash, events), id)
    decreases |events|
  {
    if |events| > 0 {
      var rest := events[..|events| - 1];
      var actions, a := Actions(env, hash, rest), ActionOf(Play(env, hash, rest), events[|events| - 1]);
      HeardIsTranscript(env, hash, rest, id);
      PlaysAreRuns(env, hash, rest);
      if a.Some? {
        assert (actions + [a.value])[..|actions|] == actions;
      } else {
        assert actions + [] == actions;
      }
    }
  }

  /** What one more event adds to the tenant's steps. */
  ghost function OneMore(env: Env, hash: string -> string, rest: seq<Event>, e: Event, id: string): seq<Action> {
    var w := Play(env, hash, rest);
    var a := ActionOf(w, e);
    if a.Some? && a.value.tenant == id then [LocalAction(w.service, a.value)] else []
  }

  lemma {:induction false} OwnActionsGrow(env: Env, hash: string -> string, rest: seq<Event>, e: Event, id: string)
    ensures Actions(env, hash, OwnEvents(env, hash, rest + [e], id))
      == Actions(env, hash, OwnEvents(env, hash, rest, id)) + OneMore(env, hash, rest, e, id)
  {
    var w, own := Play(env, hash, rest), OwnEvents(env, hash, rest, id);
    var now, a := OwnEvent(env, hash, w, e, id), ActionOf(w, e);
    assert (rest + [e])[..|rest|] == rest;
    WorldsCanBeErased(env, hash, rest, id);
    if now.Some? {
      assert (own + [now.value])[..|own|] == own;
      if a.Some? {
        OwnActionAlone(env, hash, w, Play(env, hash, own), e, id, a.value);
      }
    } else {
      assert own + [] == own;
    }
  }

  lemma {:induction false} LocalActionsGrow(env: Env, hash: string -> string, rest: seq<Event>, e: Event, id: string)
    ensures LocalActions(env, Actions(env, hash, rest + [e]), id)
      == LocalActions(env, Actions(env, hash, rest), id) + OneMore(env, hash, rest, e, id)
  {
    var actions, a := Actions(env, hash, rest), ActionOf(Play(env, hash, rest), e);
    assert (rest + [e])[..|rest|] == rest;
    PlaysAreRuns(env, hash, rest);
    if a.Some? {
      assert (actions + [a.value])[..|actions|] == actions;
    } else {
      assert actions + [] == actions;
    }
  }

  /** The service steps of a tenant's own events are its own steps of the whole run. */
  ghost predicate StepsAlike(env: Env, hash: string -> string, events: seq<Event>, id: string) {
    Actions(env, hash, OwnEvents(env, hash, events, id)) == LocalActions(env, Actions(env, hash, events), id)
  }

  lemma {:induction false} OneMoreAlike(env: Env, hash: string -> string, rest: seq<Event>, e: Event, id: string)
    requires StepsAlike(env, hash, rest, id)
    ensures StepsAlike(env, hash, rest + [e], id)
  {
    OwnActionsGrow(env, hash, rest, e, id);
    LocalActionsGrow(env, hash, rest, e, id);
  }

  lemma {:induction false} ActionsAlone(env: Env, hash: string -> string, events: seq<Event>, id: string)
    ensures StepsAlike(env, hash, events, id)
    decreases |events|
  {
    if |events| > 0 {
      var rest, e := events[..|events| - 1], events[|events| - 1];
      ActionsAlone(env, hash, rest, id);
      OneMoreAlike(env, hash, rest, e, id);
      assert rest + [e] == events;
    }
  }

  /** For every run over all four databases and every tenant: had nobody else ever been created, let in
      or served, every step of its requests would have been answered as it was, but for one renaming
      of its case and event ids that keeps their order. */
  lemma {:induction false} TenantsHearTheSame(env: Env, hash: string -> string, events: seq<Event>, id: string)
    requires id != ""
    ensures Heard(env, hash, OwnEvents(env, hash, events, id), id)
      == Mapped(Renamer(Play(env, hash, events).service, id), Heard(env, hash, events, id))
  {
    HeardIsTranscript(env, hash, events, id);
    HeardIsTranscript(env, hash, OwnEvents(env, hash, events, id), id);
    ActionsAlone(env, hash, events, id);
    PlaysAreRuns(env, hash, events);
    SameTranscript(env, Actions(env, hash, events), id);
  }
}
