/** The watchlist table after any sequence of uploads: it refines a map from (tenant, list) to
    the last upload and keeps every earlier one. */
module WatchlistRuns {
  import opened Tables
  import opened Watchlist

  datatype Upload = Upload(tenant: string, list: string, entries: seq<Entry>)

  /** The table after these uploads. */
  ghost function Table(ups: seq<Upload>): seq<Entry> {
    if |ups| == 0 then [] else
      var n := |ups| - 1;
      Uploaded(Table(ups[..n]), ups[n].tenant, ups[n].list, ups[n].entries)
  }

  /** The version number the n-th upload of the run returns. */
  ghost function VersionReturned(ups: seq<Upload>, n: nat): int
    requires n < |ups|
  {
    MaxVersion(Table(ups[..n]), ups[n].tenant, ups[n].list) + 1
  }

  /** What the caller supplied, without the fields the store assigns. */
  ghost function Content(e: Entry): Entry {
    e.(id := 0, tenant := "", list := "", version := 0, active := false)
  }

  ghost function Contents(entries: seq<Entry>): (r: seq<Entry>)
    ensures |r| == |entries|
  {
    seq(|entries|, i requires 0 <= i < |entries| => Content(entries[i]))
  }

  ghost function InVersion(tenant: string, list: string, version: int): Entry -> bool {
    (e: Entry) => Of(e, tenant, list) && e.version == version
  }

  ghost function InForce(tenant: string, list: string): Entry -> bool {
    (e: Entry) => Of(e, tenant, list) && e.active
  }

  /** The stored contents of one version of a list, and of its active rows, in row order. */
  ghost function VersionRows(rows: seq<Entry>, tenant: string, list: string, version: int): seq<Entry> {
    Pick(InVersion(tenant, list, version), Content, rows)
  }

  ghost function InForceRows(rows: seq<Entry>, tenant: string, list: string): seq<Entry> {
    Pick(InForce(tenant, list), Content, rows)
  }

  // ----- The reference: uploads alone -----

  /** The non-empty uploads of a list, oldest first. */
  ghost function History(ups: seq<Upload>, tenant: string, list: string): seq<seq<Entry>> {
    if |ups| == 0 then [] else
      var n := |ups| - 1;
      var u := ups[n];
      History(ups[..n], tenant, list)
        + if u.tenant == tenant && u.list == list && u.entries != [] then [Contents(u.entries)] else []
  }

  /** The last upload of each (tenant, list). */
  ghost function Current(ups: seq<Upload>): map<(string, string), seq<Entry>> {
    if |ups| == 0 then map[] else
      var n := |ups| - 1;
      Current(ups[..n])[(ups[n].tenant, ups[n].list) := Contents(ups[n].entries)]
  }

  ghost function LastUpload(ups: seq<Upload>, tenant: string, list: string): seq<Entry> {
    if (tenant, list) in Current(ups) then Current(ups)[(tenant, list)] else []
  }

  // ----- One upload -----

  /** The rows an upload inserts. */
  ghost function NewRows(from: nat, entries: seq<Entry>, tenant: string, list: string, version: int): (r: seq<Entry>)
    ensures |r| == |entries|
  {
    seq(|entries|, i requires 0 <= i < |entries| =>
      Stamped(entries[i], tenant, list, version).(id := from + i + 1))
  }

  lemma {:induction false} UploadAppends(rows: seq<Entry>, entries: seq<Entry>, tenant: string, list: string,
      version: int)
    ensures InsertedAll(rows, entries, tenant, list, version) == rows + NewRows(|rows|, entries, tenant, list, version)
    decreases |entries|
  {
    if |entries| > 0 {
      UploadAppends(rows, entries[..|entries| - 1], tenant, list, version);
    }
  }

  lemma {:induction false} PickNewRows(p: Entry -> bool, from: nat, entries: seq<Entry>, tenant: string,
      list: string, version: int, all: bool)
    requires forall e: Entry :: Of(e, tenant, list) && e.version == version && e.active ==> p(e) == all
    ensures Pick(p, Content, NewRows(from, entries, tenant, list, version)) == if all then Contents(entries) else []
  {
    var added := NewRows(from, entries, tenant, list, version);
    if all {
      PickAll(p, Content, added);
    } else {
      PickNone(p, Content, added);
    }
  }

  /** An upload adds its version and touches no row of any other. */
  lemma {:induction false} VersionsAfterUpload(rows: seq<Entry>, u: Upload, tenant: string, list: string,
      version: int)
    ensures var now := Uploaded(rows, u.tenant, u.list, u.entries);
      VersionRows(now, tenant, list, version) == VersionRows(rows, tenant, list, version) +
      if u.tenant == tenant && u.list == list && version == MaxVersion(rows, tenant, list) + 1
      then Contents(u.entries) else []
  {
    var kept, v := Deactivated(rows, u.tenant, u.list), MaxVersion(rows, u.tenant, u.list) + 1;
    var added := NewRows(|kept|, u.entries, u.tenant, u.list, v);
    UploadAppends(kept, u.entries, u.tenant, u.list, v);
    VersionRowsConcat(kept, added, tenant, list, version);
    VersionsWhenDeactivated(rows, u, tenant, list, version);
    VersionOfNewRows(|kept|, u, v, tenant, list, version);
  }

  lemma {:induction false} VersionRowsConcat(xs: seq<Entry>, ys: seq<Entry>, tenant: string, list: string, version: int)
    ensures VersionRows(xs + ys, tenant, list, version)
      == VersionRows(xs, tenant, list, version) + VersionRows(ys, tenant, list, version)
  {
    PickConcat(InVersion(tenant, list, version), Content, xs, ys);
  }

  lemma {:induction false} VersionOfNewRows(from: nat, u: Upload, v: int, tenant: string, list: string, version: int)
    ensures VersionRows(NewRows(from, u.entries, u.tenant, u.list, v), tenant, list, version) ==
      if u.tenant == tenant && u.list == list && version == v then Contents(u.entries) else []
  {
    PickNewRows(InVersion(tenant, list, version), from, u.entries, u.tenant, u.list, v,
                u.tenant == tenant && u.list == list && version == v);
  }

  lemma {:induction false} VersionsWhenDeactivated(rows: seq<Entry>, u: Upload, tenant: string, list: string,
      version: int)
    ensures VersionRows(Deactivated(rows, u.tenant, u.list), tenant, list, version)
      == VersionRows(rows, tenant, list, version)
  {
    var p := InVersion(tenant, list, version);
    PickAgrees(p, Content, rows, p, Content, Deactivated(rows, u.tenant, u.list));
  }

  /** The version an upload is given holds its entries, in order, and nothing else. */
  lemma {:induction false} UploadFillsVersion(rows: seq<Entry>, u: Upload)
    ensures VersionRows(Uploaded(rows, u.tenant, u.list, u.entries), u.tenant, u.list,
                        MaxVersion(rows, u.tenant, u.list) + 1) == Contents(u.entries)
  {
    var v := MaxVersion(rows, u.tenant, u.list) + 1;
    VersionsAfterUpload(rows, u, u.tenant, u.list, v);
    MaxVersionBounds(rows, u.tenant, u.list);
    PickNone(InVersion(u.tenant, u.list, v), Content, rows);
  }

  /** Of the uploaded list only the new entries are active; other lists keep theirs. */
  lemma {:induction false} ActiveAfterUpload(rows: seq<Entry>, u: Upload, tenant: string, list: string)
    ensures InForceRows(Uploaded(rows, u.tenant, u.list, u.entries), tenant, list) ==
      if u.tenant == tenant && u.list == list then Contents(u.entries) else InForceRows(rows, tenant, list)
  {
    var p, kept := InForce(tenant, list), Deactivated(rows, u.tenant, u.list);
    var v := MaxVersion(rows, u.tenant, u.list) + 1;
    var same := u.tenant == tenant && u.list == list;
    UploadAppends(kept, u.entries, u.tenant, u.list, v);
    PickConcat(p, Content, kept, NewRows(|kept|, u.entries, u.tenant, u.list, v));
    PickNewRows(p, |kept|, u.entries, u.tenant, u.list, v, same);
    InForceWhenDeactivated(rows, u, tenant, list);
  }

  lemma {:induction false} InForceWhenDeactivated(rows: seq<Entry>, u: Upload, tenant: string, list: string)
    ensures InForceRows(Deactivated(rows, u.tenant, u.list), tenant, list) ==
      if u.tenant == tenant && u.list == list then [] else InForceRows(rows, tenant, list)
  {
    var p, kept := InForce(tenant, list), Deactivated(rows, u.tenant, u.list);
    if u.tenant == tenant && u.list == list {
      PickNone(p, Content, kept);
    } else {
      PickAgrees(p, Content, rows, p, Content, kept);
    }
  }

  lemma {:induction false} MaxVersionBounds(rows: seq<Entry>, tenant: string, list: string)
    ensures forall e :: e in rows && Of(e, tenant, list) ==> e.version <= MaxVersion(rows, tenant, list)
    ensures MaxVersion(rows, tenant, list) == 0 ||
      exists e :: e in rows && Of(e, tenant, list) && e.version == MaxVersion(rows, tenant, list)
    ensures MaxVersion(rows, tenant, list) >= 0
    decreases |rows|
  {
    if |rows| > 0 {
      var n := |rows| - 1;
      assert rows == rows[..n] + [rows[n]];
      MaxVersionBounds(rows[..n], tenant, list);
    }
  }

  /** An upload raises its own list's version by one unless it is empty, and no other's. */
  lemma {:induction false} MaxVersionAfterUpload(rows: seq<Entry>, u: Upload, tenant: string, list: string)
    ensures MaxVersion(Uploaded(rows, u.tenant, u.list, u.entries), tenant, list) ==
      MaxVersion(rows, tenant, list) + if u.tenant == tenant && u.list == list && u.entries != [] then 1 else 0
  {
    var v, kept := MaxVersion(rows, u.tenant, u.list) + 1, Deactivated(rows, u.tenant, u.list);
    MaxVersionKept(rows, u, tenant, list);
    MaxVersionInserted(kept, u.entries, u.tenant, u.list, v, tenant, list);
  }

  lemma {:induction false} MaxVersionKept(rows: seq<Entry>, u: Upload, tenant: string, list: string)
    ensures MaxVersion(Deactivated(rows, u.tenant, u.list), tenant, list) == MaxVersion(rows, tenant, list)
    decreases |rows|
  {
    if |rows| > 0 {
      var n := |rows| - 1;
      MaxVersionKept(rows[..n], u, tenant, list);
      assert Deactivated(rows, u.tenant, u.list)[..n] == Deactivated(rows[..n], u.tenant, u.list);
    }
  }

  lemma {:induction false} MaxVersionInserted(rows: seq<Entry>, entries: seq<Entry>, t: string, l: string, v: int,
      tenant: string, list: string)
    requires Of(Entry(0, t, l, 0, "", "", "", "", "", [], [], false), tenant, list) ==>
      v == MaxVersion(rows, tenant, list) + 1
    ensures MaxVersion(InsertedAll(rows, entries, t, l, v), tenant, list) ==
      if t == tenant && l == list && entries != [] then v else MaxVersion(rows, tenant, list)
    decreases |entries|
  {
    if |entries| > 0 {
      var n := |entries| - 1;
      MaxVersionInserted(rows, entries[..n], t, l, v, tenant, list);
      var before := InsertedAll(rows, entries[..n], t, l, v);
      assert InsertedAll(rows, entries, t, l, v)[..|before|] == before;
    }
  }

  // ----- Whole runs -----

  lemma {:induction false} VersionIsNonEmptyUploads(ups: seq<Upload>, tenant: string, list: string)
    ensures MaxVersion(Table(ups), tenant, list) == |History(ups, tenant, list)|
    decreases |ups|
  {
    if |ups| > 0 {
      var n := |ups| - 1;
      VersionIsNonEmptyUploads(ups[..n], tenant, list);
      MaxVersionAfterUpload(Table(ups[..n]), ups[n], tenant, list);
    }
  }

  /** The table keeps the whole history: version v of a list is its v-th non-empty upload, in
      order, and no other version of it exists. */
  lemma {:induction false} KeepsHistory(ups: seq<Upload>, tenant: string, list: string, v: int)
    ensures VersionRows(Table(ups), tenant, list, v) ==
      if 1 <= v <= |History(ups, tenant, list)| then History(ups, tenant, list)[v - 1] else []
    decreases |ups|
  {
    if |ups| > 0 {
      var n := |ups| - 1;
      KeepsHistory(ups[..n], tenant, list, v);
      VersionIsNonEmptyUploads(ups[..n], tenant, list);
      VersionsAfterUpload(Table(ups[..n]), ups[n], tenant, list, v);
    }
  }

  /** The active rows of a list are the entries of its last upload, in order. */
  lemma {:induction false} ActiveIsLastUpload(ups: seq<Upload>, tenant: string, list: string)
    ensures InForceRows(Table(ups), tenant, list) == LastUpload(ups, tenant, list)
    decreases |ups|
  {
    if |ups| > 0 {
      ActiveIsLastUpload(ups[..|ups| - 1], tenant, list);
      ActiveAfterUpload(Table(ups[..|ups| - 1]), ups[|ups| - 1], tenant, list);
    }
  }

  ghost function Listed(e: Entry): (string, Entry) {
    (e.list, Content(e))
  }

  lemma {:induction false} ActiveByList(rows: seq<Entry>, tenant: string, list: string, content: Entry)
    ensures multiset(Pick(IsActive(tenant), Listed, rows))[(list, content)]
      == multiset(InForceRows(rows, tenant, list))[content]
    decreases |rows|
  {
    if |rows| > 0 {
      ActiveByList(rows[..|rows| - 1], tenant, list, content);
    }
  }

  /** What ActiveEntries returns is, as a multiset, the union over the tenant's lists of the
      entries of each list's last upload. */
  lemma {:induction false} ActiveEntriesAreLastUploads(ups: seq<Upload>, tenant: string, list: string, content: Entry)
    ensures multiset(ListedContents(ActiveRows(Table(ups), tenant)))[(list, content)]
      == multiset(LastUpload(ups, tenant, list))[content]
  {
    ActiveIsLastUpload(ups, tenant, list);
    ActiveByList(Table(ups), tenant, list, content);
    ListedRows(Table(ups), tenant);
  }

  /** The (list, content) pairs of some rows. */
  ghost function ListedContents(rows: seq<Entry>): seq<(string, Entry)> {
    seq(|rows|, i requires 0 <= i < |rows| => Listed(rows[i]))
  }

  lemma {:induction false} ListedRows(rows: seq<Entry>, tenant: string)
    ensures ListedContents(ActiveRows(rows, tenant)) == Pick(IsActive(tenant), Listed, rows)
    decreases |rows|
  {
    if |rows| > 0 {
      ListedRows(rows[..|rows| - 1], tenant);
    }
  }

  /** The row's version is its list's maximum if it is active, and not above it otherwise. */
  ghost predicate VersionFits(rows: seq<Entry>, e: Entry) {
    var most := MaxVersion(rows, e.tenant, e.list);
    1 <= e.version <= most && (e.active ==> e.version == most)
  }

  /** Ids number the rows, no version exceeds its list's maximum, and a row is active only in
      that version. */
  ghost predicate WellVersioned(rows: seq<Entry>) {
    forall i :: 0 <= i < |rows| ==> rows[i].id == i + 1 && VersionFits(rows, rows[i])
  }

  lemma {:induction false} ActiveRowsCarryMaximum(ups: seq<Upload>)
    ensures WellVersioned(Table(ups))
    decreases |ups|
  {
    if |ups| > 0 {
      var n, u := |ups| - 1, ups[|ups| - 1];
      ActiveRowsCarryMaximum(ups[..n]);
      UploadStaysWellVersioned(Table(ups[..n]), u);
    }
  }

  lemma {:induction false} RowStaysWellVersioned(rows: seq<Entry>, u: Upload, was: Entry, e: Entry)
    requires VersionFits(rows, was)
    requires e == if Of(was, u.tenant, u.list) then was.(active := false) else was
    ensures VersionFits(Uploaded(rows, u.tenant, u.list, u.entries), e)
  {
    MaxVersionAfterUpload(rows, u, e.tenant, e.list);
  }

  lemma {:induction false} NewRowIsWellVersioned(rows: seq<Entry>, u: Upload, e: Entry)
    requires u.entries != [] && Of(e, u.tenant, u.list) && e.version == MaxVersion(rows, u.tenant, u.list) + 1
    ensures VersionFits(Uploaded(rows, u.tenant, u.list, u.entries), e)
  {
    MaxVersionAfterUpload(rows, u, u.tenant, u.list);
    MaxVersionBounds(rows, u.tenant, u.list);
  }

  lemma {:induction false} UploadStaysWellVersioned(rows: seq<Entry>, u: Upload)
    requires WellVersioned(rows)
    ensures WellVersioned(Uploaded(rows, u.tenant, u.list, u.entries))
  {
    var v, kept := MaxVersion(rows, u.tenant, u.list) + 1, Deactivated(rows, u.tenant, u.list);
    var now, added := Uploaded(rows, u.tenant, u.list, u.entries), NewRows(|kept|, u.entries, u.tenant, u.list, v);
    UploadAppends(kept, u.entries, u.tenant, u.list, v);
    forall i | 0 <= i < |now| ensures now[i].id == i + 1 && VersionFits(now, now[i]) {
      if i < |kept| {
        assert now[i] == kept[i] && VersionFits(rows, rows[i]);
        RowStaysWellVersioned(rows, u, rows[i], now[i]);
      } else {
        assert now[i] == added[i - |kept|];
        NewRowIsWellVersioned(rows, u, now[i]);
      }
    }
  }

  // ----- Version numbers -----

  /** All uploads of a list, empty or not. */
  ghost function Uploads(ups: seq<Upload>, tenant: string, list: string): nat {
    if |ups| == 0 then 0 else
      var n := |ups| - 1;
      Uploads(ups[..n], tenant, list) + if ups[n].tenant == tenant && ups[n].list == list then 1 else 0
  }

  ghost predicate NoneEmpty(ups: seq<Upload>, tenant: string, list: string) {
    forall i :: 0 <= i < |ups| && ups[i].tenant == tenant && ups[i].list == list ==> ups[i].entries != []
  }

  lemma {:induction false} HistoryMissesEmpties(ups: seq<Upload>, tenant: string, list: string)
    ensures |History(ups, tenant, list)| <= Uploads(ups, tenant, list)
    ensures |History(ups, tenant, list)| == Uploads(ups, tenant, list) <==> NoneEmpty(ups, tenant, list)
    decreases |ups|
  {
    if |ups| > 0 {
      var n := |ups| - 1;
      HistoryMissesEmpties(ups[..n], tenant, list);
      assert ups == ups[..n] + [ups[n]];
    }
  }

  /** The n-th upload of a list returns n exactly when none before it was empty: an empty upload
      uses up no number. */
  lemma {:induction false} VersionsAreConsecutive(ups: seq<Upload>, n: nat)
    requires n < |ups|
    ensures VersionReturned(ups, n) == Uploads(ups[..n], ups[n].tenant, ups[n].list) + 1
      <==> NoneEmpty(ups[..n], ups[n].tenant, ups[n].list)
  {
    VersionIsNonEmptyUploads(ups[..n], ups[n].tenant, ups[n].list);
    HistoryMissesEmpties(ups[..n], ups[n].tenant, ups[n].list);
  }

  /** ListNames reports each list that has rows with the number of its non-empty uploads. */
  lemma {:induction false} NamesReportHistory(ups: seq<Upload>, tenant: string, list: string)
    ensures list in Grouped(Table(ups), tenant) <==> History(ups, tenant, list) != []
    ensures list in Grouped(Table(ups), tenant) ==>
      Grouped(Table(ups), tenant)[list] == |History(ups, tenant, list)|
  {
    var rows := Table(ups);
    VersionIsNonEmptyUploads(ups, tenant, list);
    MaxVersionBounds(rows, tenant, list);
    ActiveRowsCarryMaximum(ups);
    if list in ListsOf(rows, tenant) {
      var e :| e in rows && e.tenant == tenant && e.list == list;
      var i :| 0 <= i < |rows| && rows[i] == e;
      assert MaxVersion(rows, tenant, list) >= 1;
    }
  }
}
