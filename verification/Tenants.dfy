/** The tenant store of internal/tenant/store.go. */
module Tenants {
  import opened Wrappers

  const SCREENING_ONLY := "screening_only"
  const FULL := "full"

  datatype Tenant = Tenant(id: string, name: string, keyHash: string, tier: string, cascade: bool, createdAt: string)

  datatype TenantError = InvalidTier | Duplicate | NotFound | Failed

  predicate ValidTier(tier: string) {
    tier == SCREENING_ONLY || tier == FULL
  }

  /** INSERT succeeds: neither the primary key nor the unique hash is taken. */
  predicate Fits(rows: seq<Tenant>, id: string, keyHash: string) {
    forall i :: 0 <= i < |rows| ==> rows[i].id != id && rows[i].keyHash != keyHash
  }

  /** UPDATE tenants SET llm_cascade_enabled for one id. */
  function WithCascade(rows: seq<Tenant>, id: string, enabled: bool): (r: seq<Tenant>)
    ensures |r| == |rows|
  {
    seq(|rows|, i requires 0 <= i < |rows| => if rows[i].id == id then rows[i].(cascade := enabled) else rows[i])
  }

  /** SELECT by hash. */
  function ByHash(rows: seq<Tenant>, keyHash: string): Option<Tenant> {
    if |rows| == 0 then None
    else if rows[|rows| - 1].keyHash == keyHash then Some(rows[|rows| - 1])
    else ByHash(rows[..|rows| - 1], keyHash)
  }

  /** The store, with the hash of raw API keys as a parameter. */
  class Store {
    const hash: string -> string
    var rows: seq<Tenant>

    constructor (hash: string -> string)
      ensures rows == [] && this.hash == hash
    {
      this.hash := hash;
      rows := [];
    }

    /** Inserts a tenant under a newly drawn id, its LLM cascade off; done tells whether the database
        carries out an INSERT that fits. */
    method CreateTenant(id: string, name: string, rawKey: string, tier: string, stamp: string,
        done: bool) returns (r: Result<Tenant, TenantError>)
      modifies this
      ensures r == if tier !in {"screening_only", "full"} then Err(InvalidTier)
                   else if exists i :: 0 <= i < |old(rows)| &&
                             (old(rows)[i].id == id || old(rows)[i].keyHash == hash(rawKey)) then Err(Duplicate)
                   else if !done then Err(Failed)
                   else Ok(Tenant(id, name, hash(rawKey), tier, false, stamp))
      ensures rows == if r.Ok? then old(rows) + [r.value] else old(rows)
      ensures rows == if done then Apply(hash, old(rows), Create(id, name, rawKey, tier, stamp)) else old(rows)
    {
      if !ValidTier(tier) {
        return Err(InvalidTier);
      }
      var t := Tenant(id, name, hash(rawKey), tier, false, stamp);
      if !Fits(rows, t.id, t.keyHash) {
        return Err(Duplicate);
      }
      if !done {
        return Err(Failed);
      }
      rows := rows + [t];
      r := Ok(t);
    }

    method LookupByAPIKey(rawKey: string, done: bool) returns (r: Result<Tenant, TenantError>)
      ensures var found := ByHash(rows, hash(rawKey));
        r == if !done then Err(Failed) else if found.Some? then Ok(found.value) else Err(NotFound)
    {
      if !done {
        return Err(Failed);
      }
      var i := |rows|;
      assert rows[..i] == rows;
      while i > 0
        invariant 0 <= i <= |rows| && ByHash(rows, hash(rawKey)) == ByHash(rows[..i], hash(rawKey))
      {
        assert rows[..i][..i - 1] == rows[..i - 1];
        i := i - 1;
        if rows[i].keyHash == hash(rawKey) {
          return Ok(rows[i]);
        }
      }
      r := Err(NotFound);
    }

    /** If the database carries it out, the flag of the tenant with that id becomes the given one;
        nothing else changes, and nothing at all when there is no such tenant or the UPDATE fails. */
    method SetLLMCascade(id: string, enabled: bool, done: bool) returns (r: Result<(), TenantError>)
      modifies this
      ensures !done ==> r == Err(Failed) && rows == old(rows)
      ensures done ==>
        && |rows| == |old(rows)|
        && (forall i :: 0 <= i < |rows| && old(rows)[i].id != id ==> rows[i] == old(rows)[i])
        && (forall i :: 0 <= i < |rows| && old(rows)[i].id == id ==> rows[i] == old(rows)[i].(cascade := enabled))
        && (r == Ok(()) <==> exists i :: 0 <= i < |old(rows)| && old(rows)[i].id == id)
        && (r != Ok(()) ==> r == Err(NotFound))
        && rows == Apply(hash, old(rows), SetCascade(id, enabled))
    {
      if !done {
        return Err(Failed);
      }
      var affected, i := 0, 0;
      while i < |rows|
        invariant 0 <= i <= |rows| == |old(rows)|
        invariant forall j :: 0 <= j < i ==>
          rows[j] == if old(rows)[j].id == id then old(rows)[j].(cascade := enabled) else old(rows)[j]
        invariant forall j :: i <= j < |rows| ==> rows[j] == old(rows)[j]
        invariant affected > 0 <==> exists j :: 0 <= j < i && old(rows)[j].id == id
      {
        if rows[i].id == id {
          rows := rows[i := rows[i].(cascade := enabled)];
          affected := affected + 1;
        }
        i := i + 1;
      }
      r := if affected == 0 then Err(NotFound) else Ok(());
    }
  }

  // ----- Runs -----

  datatype Op =
    | Create(id: string, name: string, rawKey: string, tier: string, stamp: string)
    | SetCascade(id: string, enabled: bool)

  ghost predicate Inserts(hash: string -> string, rows: seq<Tenant>, op: Op) {
    op.Create? && ValidTier(op.tier) && Fits(rows, op.id, hash(op.rawKey))
  }

  ghost function Apply(hash: string -> string, rows: seq<Tenant>, op: Op): seq<Tenant> {
    if op.SetCascade? then WithCascade(rows, op.id, op.enabled)
    else if Inserts(hash, rows, op) then rows + [Tenant(op.id, op.name, hash(op.rawKey), op.tier, false, op.stamp)]
    else rows
  }

  ghost function Run(hash: string -> string, ops: seq<Op>): seq<Tenant> {
    if |ops| == 0 then [] else Apply(hash, Run(hash, ops[..|ops| - 1]), ops[|ops| - 1])
  }

  /** The last opt-in or opt-out of a tenant since it was created; off before any. */
  ghost function OptedIn(hash: string -> string, ops: seq<Op>, id: string): bool {
    if |ops| == 0 then false else
      var op, rest := ops[|ops| - 1], ops[..|ops| - 1];
      if op.SetCascade? && op.id == id then op.enabled
      else if Inserts(hash, Run(hash, rest), op) && op.id == id then false
      else OptedIn(hash, rest, id)
  }

  /** The tenant as it was created with this raw key. */
  ghost function Creation(hash: string -> string, ops: seq<Op>, rawKey: string): Option<Tenant> {
    if |ops| == 0 then None else
      var op, rest := ops[|ops| - 1], ops[..|ops| - 1];
      if Inserts(hash, Run(hash, rest), op) && op.rawKey == rawKey
      then Some(Tenant(op.id, op.name, hash(rawKey), op.tier, false, op.stamp))
      else Creation(hash, rest, rawKey)
  }

  ghost predicate Injective(hash: string -> string) {
    forall a, b :: hash(a) == hash(b) ==> a == b
  }

  ghost predicate Distinct(rows: seq<Tenant>) {
    forall i, j :: 0 <= i < j < |rows| ==> rows[i].id != rows[j].id && rows[i].keyHash != rows[j].keyHash
  }

  /** In every run ids and key hashes stay unique. */
  lemma {:induction false} RunsStayDistinct(hash: string -> string, ops: seq<Op>)
    ensures Distinct(Run(hash, ops))
    decreases |ops|
  {
    if |ops| > 0 {
      RunsStayDistinct(hash, ops[..|ops| - 1]);
    }
  }

  /** So an opt-in or opt-out changes at most one tenant. */
  lemma {:induction false} OneTenantChanges(hash: string -> string, ops: seq<Op>, id: string, enabled: bool, i: nat,
      j: nat)
    requires i < |Run(hash, ops)| && j < |Run(hash, ops)|
    requires WithCascade(Run(hash, ops), id, enabled)[i] != Run(hash, ops)[i]
    requires WithCascade(Run(hash, ops), id, enabled)[j] != Run(hash, ops)[j]
    ensures i == j
  {
    RunsStayDistinct(hash, ops);
  }

  ghost predicate Known(rows: seq<Tenant>, id: string) {
    exists i :: 0 <= i < |rows| && rows[i].id == id
  }

  /** No row ever goes away, so no later change creates a tenant of that id again. */
  lemma {:induction false} KnownStays(hash: string -> string, rows: seq<Tenant>, op: Op, id: string)
    requires Known(rows, id)
    ensures Known(Apply(hash, rows, op), id)
    ensures Inserts(hash, rows, op) ==> op.id != id
  {
    var i :| 0 <= i < |rows| && rows[i].id == id;
    assert Apply(hash, rows, op)[i].id == id;
  }

  /** So once a tenant is known, only its own opt-ins and opt-outs change what it has opted for. */
  lemma {:induction false} OptedInOneMore(hash: string -> string, ops: seq<Op>, op: Op, id: string)
    requires Known(Run(hash, ops), id)
    ensures Known(Run(hash, ops + [op]), id)
    ensures OptedIn(hash, ops + [op], id) ==
      if op.SetCascade? && op.id == id then op.enabled else OptedIn(hash, ops, id)
  {
    assert (ops + [op])[..|ops|] == ops;
    KnownStays(hash, Run(hash, ops), op, id);
  }

  /** A tenant's flag is its last opt-in or opt-out since its creation: off by default. */
  lemma {:induction false} CascadeIsOptIn(hash: string -> string, ops: seq<Op>, i: nat)
    requires i < |Run(hash, ops)|
    ensures Run(hash, ops)[i].cascade == OptedIn(hash, ops, Run(hash, ops)[i].id)
    decreases |ops|
  {
    var rest := ops[..|ops| - 1];
    if i < |Run(hash, rest)| {
      CascadeIsOptIn(hash, rest, i);
    }
  }

  lemma {:induction false} ByHashAfterSet(rows: seq<Tenant>, id: string, enabled: bool, keyHash: string)
    ensures ByHash(WithCascade(rows, id, enabled), keyHash) ==
      var found := ByHash(rows, keyHash);
      if found.Some? && found.value.id == id then Some(found.value.(cascade := enabled)) else found
    decreases |rows|
  {
    if |rows| > 0 {
      var n := |rows| - 1;
      ByHashAfterSet(rows[..n], id, enabled, keyHash);
      assert WithCascade(rows, id, enabled)[..n] == WithCascade(rows[..n], id, enabled);
    }
  }

  lemma {:induction false} ByHashIsRow(rows: seq<Tenant>, keyHash: string)
    ensures var found := ByHash(rows, keyHash); found.Some? ==> found.value in rows && found.value.keyHash == keyHash
    decreases |rows|
  {
    if |rows| > 0 {
      ByHashIsRow(rows[..|rows| - 1], keyHash);
    }
  }

  /** A raw key finds exactly the tenant created with it, as created but for its present opt-in. */
  lemma {:induction false} KeyFindsItsTenant(hash: string -> string, ops: seq<Op>, rawKey: string)
    requires Injective(hash)
    ensures ByHash(Run(hash, ops), hash(rawKey)) ==
      var created := Creation(hash, ops, rawKey);
      if created.None? then None else Some(created.value.(cascade := OptedIn(hash, ops, created.value.id)))
    decreases |ops|
  {
    if |ops| > 0 {
      var rest, op := ops[..|ops| - 1], ops[|ops| - 1];
      var rows := Run(hash, rest);
      KeyFindsItsTenant(hash, rest, rawKey);
      if op.SetCascade? {
        ByHashAfterSet(rows, op.id, op.enabled, hash(rawKey));
      } else if Inserts(hash, rows, op) {
        assert Run(hash, ops)[..|rows|] == rows;
        ByHashIsRow(rows, hash(rawKey));
      }
    }
  }
}
