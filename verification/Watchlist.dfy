/** The versioned watchlist store of internal/watchlist/watchlist.go. */
module Watchlist {
  import opened Tables
  import opened Wrappers

  /** One entry, in memory or as a row of tenant_watchlist_entries. */
  datatype Entry = Entry(id: int, tenant: string, list: string, version: int,
                         entityId: string, name: string, kind: string, country: string, dob: string,
                         identifiers: seq<string>, tags: seq<string>, active: bool)

  predicate Of(e: Entry, tenant: string, list: string) {
    e.tenant == tenant && e.list == list
  }

  function Max(a: int, b: int): int {
    if a < b then b else a
  }

  /** SELECT COALESCE(MAX(version), 0) for one list; versions are never negative. */
  function MaxVersion(rows: seq<Entry>, tenant: string, list: string): int {
    if |rows| == 0 then 0 else
      var n := |rows| - 1;
      var earlier := MaxVersion(rows[..n], tenant, list);
      if Of(rows[n], tenant, list) then Max(earlier, rows[n].version) else earlier
  }

  /** UPDATE ... SET active = 0 for one list. */
  function Deactivated(rows: seq<Entry>, tenant: string, list: string): (r: seq<Entry>)
    ensures |r| == |rows|
  {
    seq(|rows|, i requires 0 <= i < |rows| =>
      if Of(rows[i], tenant, list) then rows[i].(active := false) else rows[i])
  }

  /** The fields UploadList writes into each entry before inserting it. */
  function Stamped(e: Entry, tenant: string, list: string, version: int): Entry {
    e.(tenant := tenant, list := list, version := version, active := true)
  }

  /** INSERT of one entry; the row gets the next id. */
  function Inserted(rows: seq<Entry>, e: Entry): seq<Entry> {
    rows + [e.(id := |rows| + 1)]
  }

  function InsertedAll(rows: seq<Entry>, entries: seq<Entry>, tenant: string, list: string,
      version: int): seq<Entry> {
    if |entries| == 0 then rows else
      var n := |entries| - 1;
      Inserted(InsertedAll(rows, entries[..n], tenant, list, version), Stamped(entries[n], tenant, list, version))
  }

  lemma InsertedOneMore(rows: seq<Entry>, entries: seq<Entry>, i: nat, tenant: string, list: string, version: int)
    requires i < |entries|
    ensures InsertedAll(rows, entries[..i + 1], tenant, list, version) ==
      Inserted(InsertedAll(rows, entries[..i], tenant, list, version), Stamped(entries[i], tenant, list, version))
  {
    assert entries[..i + 1][..i] == entries[..i];
  }

  /** The table after the whole transaction. */
  function Uploaded(rows: seq<Entry>, tenant: string, list: string, entries: seq<Entry>): seq<Entry> {
    InsertedAll(Deactivated(rows, tenant, list), entries, tenant, list, MaxVersion(rows, tenant, list) + 1)
  }

  function IsActive(tenant: string): Entry -> bool {
    (e: Entry) => e.tenant == tenant && e.active
  }

  function Row(e: Entry): Entry {
    e
  }

  /** The rows ActiveEntries selects, in the order they were inserted. */
  function ActiveRows(rows: seq<Entry>, tenant: string): seq<Entry> {
    Pick(IsActive(tenant), Row, rows)
  }

  function ListsOf(rows: seq<Entry>, tenant: string): set<string> {
    set e | e in rows && e.tenant == tenant :: e.list
  }

  /** SELECT list_name, MAX(version) ... GROUP BY list_name, in some order. */
  function Grouped(rows: seq<Entry>, tenant: string): map<string, int> {
    map list | list in ListsOf(rows, tenant) :: MaxVersion(rows, tenant, list)
  }

  class Store {
    var rows: seq<Entry>

    constructor ()
      ensures rows == []
    {
      rows := [];
    }

    /** The loop that stamps and inserts the entries, inside a transaction that sees the table tx; the
        database carries out done more statements, and the loop ends at the first that fails. */
    static method InsertEntries(tx: seq<Entry>, tenant: string, list: string, version: int, entries: array<Entry>,
        done: nat) returns (rows: seq<Entry>, ok: bool)
      modifies entries
      ensures ok <==> entries.Length <= done
      ensures ok ==> rows == InsertedAll(tx, old(entries[..]), tenant, list, version)
      ensures forall i :: 0 <= i < entries.Length ==>
        entries[i] == if i <= done then Stamped(old(entries[i]), tenant, list, version) else old(entries[i])
    {
      rows := tx;
      ghost var given := entries[..];
      var i := 0;
      while i < entries.Length
        invariant 0 <= i <= entries.Length && i <= done
        invariant rows == InsertedAll(tx, given[..i], tenant, list, version)
        invariant forall j :: 0 <= j < i ==> entries[j] == Stamped(given[j], tenant, list, version)
        invariant forall j :: i <= j < entries.Length ==> entries[j] == given[j]
      {
        entries[i] := entries[i].(tenant := tenant, list := list, version := version, active := true);
        if i == done {
          return rows, false;
        }
        InsertedOneMore(tx, given, i, tenant, list, version);
        rows := rows + [entries[i].(id := |rows| + 1)];
        i := i + 1;
      }
      assert given[..i] == given;
      ok := true;
    }

    /** Replaces a list in one transaction: new rows under version + 1, the previous rows
        deactivated. The database carries out the first done of its statements (BEGIN, SELECT,
        UPDATE, the INSERTs, COMMIT); if that is not all of them the table is left alone, though the
        caller's slice keeps the stamps it has got so far. */
    method UploadList(tenant: string, list: string, entries: array<Entry>, done: nat) returns (r: Result<int, ()>)
      modifies this, entries
      ensures r == if entries.Length + 4 <= done then Ok(MaxVersion(old(rows), tenant, list) + 1) else Err(())
      ensures rows == if r.Ok? then Uploaded(old(rows), tenant, list, old(entries[..])) else old(rows)
      ensures forall i :: 0 <= i < entries.Length ==>
        entries[i] == if i + 3 <= done
                      then Stamped(old(entries[i]), tenant, list, MaxVersion(old(rows), tenant, list) + 1)
                      else old(entries[i])
    {
      if done < 3 {
        return Err(());
      }
      var version := MaxVersion(rows, tenant, list) + 1;
      var tx, ok := InsertEntries(Deactivated(rows, tenant, list), tenant, list, version, entries, done - 3);
      if !ok || done == entries.Length + 3 {
        return Err(());
      }
      rows := tx;
      r := Ok(version);
    }

    method ActiveEntries(tenant: string) returns (out: seq<Entry>)
      ensures out == ActiveRows(rows, tenant)
    {
      out := [];
      var i := 0;
      while i < |rows|
        invariant 0 <= i <= |rows| && out == ActiveRows(rows[..i], tenant)
      {
        if rows[i].tenant == tenant && rows[i].active {
          out := out + [rows[i]];
        }
        assert rows[..i + 1] == rows[..i] + [rows[i]];
        PickAppend(IsActive(tenant), Row, rows[..i], rows[i]);
        i := i + 1;
      }
      assert rows[..i] == rows;
    }

    method ListNames(tenant: string) returns (out: map<string, int>)
      ensures out == Grouped(rows, tenant)
    {
      out := map[];
      var groups := ListsOf(rows, tenant);
      while groups != {}
        invariant groups <= ListsOf(rows, tenant)
        invariant out == map list | list in ListsOf(rows, tenant) - groups :: MaxVersion(rows, tenant, list)
        decreases groups
      {
        var list :| list in groups;
        out := out[list := MaxVersion(rows, tenant, list)];
        groups := groups - {list};
      }
    }
  }
}
