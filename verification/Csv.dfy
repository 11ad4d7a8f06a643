/** ParseCSV of internal/watchlist/watchlist.go, from rows already split into cells. */
module Csv {
  import opened Tables
  import opened Text
  import opened Watchlist
  import opened Wrappers

  datatype CsvError = NeedHeaderAndRow | NoNameColumn | FormulaCell | NoDataRows

  type Outcome = Result<seq<Entry>, CsvError>

  /** The columns a file may have. */
  datatype Field = EntityId | Name | Kind | Country | Dob | Identifiers | Tags {
    const Heading: string :=
      match this
      case EntityId => "entity_id"
      case Name => "name"
      case Kind => "type"
      case Country => "country"
      case Dob => "dob"
      case Identifiers => "identifiers"
      case Tags => "tags"
  }

  /** A header cell names a field, whatever its case and the space around it. */
  predicate Names(cell: string, field: Field) {
    Trim(Lower(cell)) == field.Heading
  }

  /** The first column of a field, or -1. */
  function Col(header: seq<string>, field: Field): (i: int)
    ensures -1 <= i < |header|
    ensures i >= 0 ==> Names(header[i], field)
    ensures forall j :: 0 <= j < (if i < 0 then |header| else i) ==> !Names(header[j], field)
  {
    if |header| == 0 then -1
    else if Names(header[0], field) then 0
    else var i := Col(header[1..], field); if i < 0 then -1 else i + 1
  }

  /** The cell of a field, trimmed; blank when the column or the cell is missing. */
  function Get(header: seq<string>, row: seq<string>, field: Field): string {
    var i := Col(header, field);
    if 0 <= i < |row| then Trim(row[i]) else ""
  }

  predicate IsFormulaPrefix(s: string) {
    s != "" && s[0] in "=+-@"
  }

  predicate NonBlank(s: string) {
    Trim(s) != ""
  }

  /** The pipe-separated parts of a cell, trimmed, without the blank ones. */
  function Pieces(cell: string): seq<string> {
    Pick(NonBlank, Trim, Split(cell, '|'))
  }

  /** Rows whose first cell is blank are skipped, whatever column comes first. */
  predicate Live(row: seq<string>) {
    |row| > 0 && NonBlank(row[0])
  }

  /** The closure get of a row. */
  function Getter(header: seq<string>, row: seq<string>): Field -> string {
    field => Get(header, row, field)
  }

  /** The entry made of what get returns. */
  function EntryFrom(get: Field -> string): Entry {
    Entry(0, "", "", 0, get(EntityId), get(Name), get(Kind), get(Country), get(Dob),
          Pieces(get(Identifiers)), Pieces(get(Tags)), false)
  }

  function EntryOf(header: seq<string>, row: seq<string>): Entry {
    EntryFrom(Getter(header, row))
  }

  function Reader(header: seq<string>): seq<string> -> Entry {
    row => EntryOf(header, row)
  }

  /** An entry the formula guard rejects. */
  predicate Rejected(e: Entry) {
    IsFormulaPrefix(e.name) || IsFormulaPrefix(e.entityId) || IsFormulaPrefix(e.country) || IsFormulaPrefix(e.dob)
  }

  /** The entries of the data rows. */
  function Entries(header: seq<string>, data: seq<seq<string>>): seq<Entry> {
    Pick(Live, Reader(header), data)
  }

  /** One rejected entry refuses the file, and so does having none. */
  function Judged(entries: seq<Entry>): Outcome {
    if exists i :: 0 <= i < |entries| && Rejected(entries[i]) then Err(FormulaCell)
    else if entries == [] then Err(NoDataRows)
    else Ok(entries)
  }

  /** The reference reading of a header and data rows: a filtered map, judged as a whole. */
  function Parsed(header: seq<string>, data: seq<seq<string>>): Outcome {
    if data == [] then Err(NeedHeaderAndRow)
    else if Col(header, Name) < 0 then Err(NoNameColumn)
    else Judged(Entries(header, data))
  }

  // ----- What becomes of a file, cell by cell -----

  /** Column c is the first one with this heading. */
  ghost predicate Heads(header: seq<string>, c: int, heading: string) {
    && 0 <= c < |header| && Trim(Lower(header[c])) == heading
    && forall b :: 0 <= b < c ==> Trim(Lower(header[b])) != heading
  }

  ghost predicate HasNames(header: seq<string>) {
    exists c :: Heads(header, c, "name")
  }

  /** The row's cell under this heading, trimmed, starts with a spreadsheet formula character. */
  ghost predicate FormulaUnder(header: seq<string>, row: seq<string>, heading: string) {
    exists c :: Heads(header, c, heading) && c < |row| && Trim(row[c]) != ""
      && (Trim(row[c])[0] == '=' || Trim(row[c])[0] == '+' || Trim(row[c])[0] == '-' || Trim(row[c])[0] == '@')
  }

  ghost predicate DataRow(row: seq<string>) {
    |row| > 0 && Trim(row[0]) != ""
  }

  ghost predicate FormulaRow(header: seq<string>, row: seq<string>) {
    && DataRow(row)
    && (FormulaUnder(header, row, "name") || FormulaUnder(header, row, "entity_id")
        || FormulaUnder(header, row, "country") || FormulaUnder(header, row, "dob"))
  }

  lemma {:induction false} ColHeads(header: seq<string>, field: Field, c: int)
    ensures Heads(header, c, field.Heading) <==> c >= 0 && Col(header, field) == c
  {
    assert forall b :: 0 <= b < |header| ==> (Names(header[b], field) <==> Trim(Lower(header[b])) == field.Heading);
  }

  lemma {:induction false} GuardReadsCell(header: seq<string>, row: seq<string>, field: Field)
    ensures IsFormulaPrefix(Get(header, row, field)) <==> FormulaUnder(header, row, field.Heading)
  {
    forall c ensures Heads(header, c, field.Heading) <==> c >= 0 && Col(header, field) == c {
      ColHeads(header, field, c);
    }
  }

  lemma {:induction false} GuardReadsRow(header: seq<string>, row: seq<string>)
    ensures Live(row) && Rejected(EntryOf(header, row)) <==> FormulaRow(header, row)
  {
    GuardReadsCell(header, row, Name);
    GuardReadsCell(header, row, EntityId);
    GuardReadsCell(header, row, Country);
    GuardReadsCell(header, row, Dob);
  }

  lemma {:induction false} NameColumnIff(header: seq<string>)
    ensures HasNames(header) <==> Col(header, Name) >= 0
  {
    ColHeads(header, Name, Col(header, Name));
    if c :| Heads(header, c, "name") {
      ColHeads(header, Name, c);
    }
  }

  ghost predicate RowReads<T>(live: T -> bool, read: T -> Entry, row: T, isLive: bool, isRejected: bool) {
    live(row) == isLive && (live(row) && Rejected(read(row))) == isRejected
  }

  lemma {:induction false} JudgedRefusedIff<T>(live: T -> bool, read: T -> Entry, data: seq<T>)
    ensures Judged(Pick(live, read, data)) == Err(FormulaCell) <==>
      exists i :: 0 <= i < |data| && live(data[i]) && Rejected(read(data[i]))
    ensures Judged(Pick(live, read, data)) == Err(NoDataRows) <==> forall i :: 0 <= i < |data| ==> !live(data[i])
    ensures Judged(Pick(live, read, data)).Err? ==> Judged(Pick(live, read, data)).error in {FormulaCell, NoDataRows}
  {
    PickHas(live, read, data, Rejected);
    PickNonEmpty(live, read, data);
  }

  /** Which files are refused, and for what: a file without data rows at all; one without a name
      column; one with a row that has a name, id, country or date of birth starting with = + - or @;
      one whose rows all have a blank first cell. The earlier of these reasons is the one given. */
  lemma {:induction false} RefusedIff(header: seq<string>, data: seq<seq<string>>)
    ensures Parsed(header, data) == Err(NeedHeaderAndRow) <==> data == []
    ensures Parsed(header, data) == Err(NoNameColumn) <==> data != [] && !HasNames(header)
    ensures Parsed(header, data) == Err(FormulaCell) <==>
      HasNames(header) && exists i :: 0 <= i < |data| && FormulaRow(header, data[i])
    ensures Parsed(header, data) == Err(NoDataRows) <==>
      data != [] && HasNames(header) && forall i :: 0 <= i < |data| ==> !DataRow(data[i])
  {
    NameColumnIff(header);
    JudgedRefusedIff(Live, Reader(header), data);
    forall i | 0 <= i < |data|
      ensures RowReads(Live, Reader(header), data[i], DataRow(data[i]), FormulaRow(header, data[i]))
    {
      GuardReadsRow(header, data[i]);
    }
  }

  /** The trimmed cell under this heading, or blank when there is no such column or cell. */
  ghost predicate CellIs(header: seq<string>, row: seq<string>, heading: string, v: string) {
    && (forall c :: Heads(header, c, heading) && c < |row| ==> v == Trim(row[c]))
    && ((forall c :: Heads(header, c, heading) ==> c >= |row|) ==> v == "")
  }

  /** The entry holds the row's cells, the lists split at pipes, and nothing else. */
  ghost predicate HoldsRow(header: seq<string>, row: seq<string>, e: Entry) {
    && CellIs(header, row, "entity_id", e.entityId) && CellIs(header, row, "name", e.name)
    && CellIs(header, row, "type", e.kind) && CellIs(header, row, "country", e.country)
    && CellIs(header, row, "dob", e.dob)
    && (exists cell :: CellIs(header, row, "identifiers", cell) && e.identifiers == Pieces(cell))
    && (exists cell :: CellIs(header, row, "tags", cell) && e.tags == Pieces(cell))
    && e == Entry(0, "", "", 0, e.entityId, e.name, e.kind, e.country, e.dob, e.identifiers, e.tags, false)
  }

  lemma {:induction false} GetIsCell(header: seq<string>, row: seq<string>, field: Field, heading: string)
    requires heading == field.Heading
    ensures CellIs(header, row, heading, Get(header, row, field))
  {
    forall c ensures Heads(header, c, heading) <==> c >= 0 && Col(header, field) == c {
      ColHeads(header, field, c);
    }
    assert Col(header, field) >= 0 ==> Heads(header, Col(header, field), heading);
  }

  lemma EntryFields(header: seq<string>, row: seq<string>, e: Entry)
    requires e == EntryOf(header, row)
    ensures e.entityId == Get(header, row, EntityId) && e.name == Get(header, row, Name)
    ensures e.kind == Get(header, row, Kind) && e.country == Get(header, row, Country) && e.dob == Get(header, row, Dob)
    ensures e.identifiers == Pieces(Get(header, row, Identifiers)) && e.tags == Pieces(Get(header, row, Tags))
    ensures e == Entry(0, "", "", 0, e.entityId, e.name, e.kind, e.country, e.dob, e.identifiers, e.tags, false)
  {
  }

  lemma {:induction false} EntryHoldsRow(header: seq<string>, row: seq<string>)
    ensures HoldsRow(header, row, EntryOf(header, row))
  {
    EntryFields(header, row, EntryOf(header, row));
    GetIsCell(header, row, EntityId, "entity_id");
    GetIsCell(header, row, Name, "name");
    GetIsCell(header, row, Kind, "type");
    GetIsCell(header, row, Country, "country");
    GetIsCell(header, row, Dob, "dob");
    GetIsCell(header, row, Identifiers, "identifiers");
    GetIsCell(header, row, Tags, "tags");
  }

  /** The entries are those of the rows at these places, which are all that have a first cell. */
  ghost predicate HoldRows(header: seq<string>, data: seq<seq<string>>, entries: seq<Entry>, at: seq<int>) {
    && Places(DataRow, data, at) && |entries| == |at|
    && forall j :: 0 <= j < |at| ==> HoldsRowAt(header, data, at[j], entries[j])
  }

  ghost predicate HoldsRowAt(header: seq<string>, data: seq<seq<string>>, i: int, e: Entry) {
    0 <= i < |data| && HoldsRow(header, data[i], e)
  }

  lemma {:induction false} ShownHoldsRow(header: seq<string>, data: seq<seq<string>>, at: seq<int>,
      entries: seq<Entry>, j: nat)
    requires Shows(Reader(header), data, at, entries) && j < |at|
    ensures HoldsRowAt(header, data, at[j], entries[j])
  {
    assert entries[j] == Reader(header)(data[at[j]]) == EntryOf(header, data[at[j]]);
    EntryHoldsRow(header, data[at[j]]);
  }

  /** An accepted file gives one entry for each row with a non-blank first cell, in order, holding the
      row's cells. */
  lemma {:induction false} EntriesHoldRows(header: seq<string>, data: seq<seq<string>>) returns (at: seq<int>)
    requires Parsed(header, data).Ok?
    ensures HoldRows(header, data, Parsed(header, data).value, at)
  {
    var entries := Entries(header, data);
    at := PickPlaces(Live, Reader(header), data);
    PlacesAlike(Live, DataRow, data, at);
    forall j | 0 <= j < |at| ensures HoldsRowAt(header, data, at[j], entries[j]) {
      ShownHoldsRow(header, data, at, entries, j);
    }
    AcceptedEntries(header, data);
  }

  lemma AcceptedEntries(header: seq<string>, data: seq<seq<string>>)
    requires Parsed(header, data).Ok?
    ensures Parsed(header, data).value == Entries(header, data)
  {
  }

  // ----- The parser -----

  /** The closure split: a loop over the parts. */
  method SplitCell(cell: string) returns (out: seq<string>)
    ensures out == Pieces(cell)
  {
    out := [];
    var parts, i := Split(cell, '|'), 0;
    while i < |parts|
      invariant 0 <= i <= |parts| && out == Pick(NonBlank, Trim, parts[..i])
    {
      var p := Trim(parts[i]);
      if p != "" {
        out := out + [p];
      }
      assert parts[..i + 1] == parts[..i] + [parts[i]];
      PickAppend(NonBlank, Trim, parts[..i], parts[i]);
      i := i + 1;
    }
    assert parts[..i] == parts;
  }

  /** The guard loop over the four guarded fields of a row. */
  method HasFormula(fields: seq<string>) returns (found: bool)
    ensures found <==> exists i :: 0 <= i < |fields| && IsFormulaPrefix(fields[i])
  {
    found := false;
    for i := 0 to |fields|
      invariant !found && forall j :: 0 <= j < i ==> !IsFormulaPrefix(fields[j])
    {
      if IsFormulaPrefix(fields[i]) {
        return true;
      }
    }
  }

  /** The guard and the assembly of one live row: its entry, or None if the guard rejects it. */
  method ReadLive(get: Field -> string) returns (e: Option<Entry>)
    ensures e == if Rejected(EntryFrom(get)) then None else Some(EntryFrom(get))
  {
    var name := get(Name);
    var fields := [name, get(EntityId), get(Country), get(Dob)];
    var formula := HasFormula(fields);
    if formula {
      return None;
    }
    assert forall i :: 0 <= i < |fields| ==> !IsFormulaPrefix(fields[i]);
    assert fields[0] == name && fields[1] == get(EntityId) && fields[2] == get(Country) && fields[3] == get(Dob);
    var identifiers := SplitCell(get(Identifiers));
    var tags := SplitCell(get(Tags));
    e := Some(Entry(0, "", "", 0, get(EntityId), name, get(Kind), get(Country), get(Dob), identifiers, tags, false));
  }

  datatype RowVerdict = Skip | Reject | Keep(entry: Entry)

  function VerdictOn(live: bool, entry: Entry): RowVerdict {
    if !live then Skip else if Rejected(entry) then Reject else Keep(entry)
  }

  /** One pass of the loop. */
  method ReadRow(header: seq<string>, row: seq<string>) returns (v: RowVerdict)
    ensures v == VerdictOn(Live(row), Reader(header)(row))
  {
    if |row| == 0 || Trim(row[0]) == "" {
      return Skip;
    }
    var e := ReadLive(Getter(header, row));
    v := if e.None? then Reject else Keep(e.value);
  }

  /** The loop over the data rows, left at the first rejected one. */
  method ReadRows(header: seq<string>, data: seq<seq<string>>) returns (r: Outcome)
    ensures r == Judged(Entries(header, data))
  {
    var entries: seq<Entry> := [];
    var i := 0;
    while i < |data|
      invariant 0 <= i <= |data| && ReadSoFar(Live, Reader(header), data, i, entries)
    {
      var v := ReadRow(header, data[i]);
      if v.Reject? {
        RejectedRowEnds(Live, Reader(header), data, i);
        return Err(FormulaCell);
      }
      ReadOneMore(Live, Reader(header), data, i, entries, v);
      if v.Keep? {
        entries := entries + [v.entry];
      }
      i := i + 1;
    }
    assert data[..i] == data;
    r := if |entries| == 0 then Err(NoDataRows) else Ok(entries);
  }

  /** The first i rows gave these entries and no rejection. */
  ghost predicate ReadSoFar<T>(live: T -> bool, read: T -> Entry, data: seq<T>, i: nat, entries: seq<Entry>)
    requires i <= |data|
  {
    entries == Pick(live, read, data[..i]) && forall j :: 0 <= j < |entries| ==> !Rejected(entries[j])
  }

  lemma {:induction false} RejectedRowEnds<T>(live: T -> bool, read: T -> Entry, data: seq<T>, i: nat)
    requires i < |data| && live(data[i]) && Rejected(read(data[i]))
    ensures Judged(Pick(live, read, data)) == Err(FormulaCell)
  {
    PickHas(live, read, data, Rejected);
  }

  lemma ReadOneMore<T>(live: T -> bool, read: T -> Entry, data: seq<T>, i: nat, entries: seq<Entry>, v: RowVerdict)
    requires i < |data| && ReadSoFar(live, read, data, i, entries)
    requires v == VerdictOn(live(data[i]), read(data[i]))
    ensures v.Keep? ==> ReadSoFar(live, read, data, i + 1, entries + [v.entry])
    ensures v.Skip? ==> ReadSoFar(live, read, data, i + 1, entries)
  {
    assert data[..i + 1] == data[..i] + [data[i]];
    PickAppend(live, read, data[..i], data[i]);
  }

  /** The file's rows, header first; a file of no rows at all is refused like one of a single row. */
  method ParseCSV(rows: seq<seq<string>>) returns (r: Outcome)
    ensures r == if rows == [] then Err(NeedHeaderAndRow) else Parsed(rows[0], rows[1..])
    ensures r == Err(NeedHeaderAndRow) <==> |rows| < 2
    ensures r == Err(FormulaCell) <==>
      |rows| >= 2 && HasNames(rows[0]) && exists i :: 1 <= i < |rows| && FormulaRow(rows[0], rows[i])
    ensures r.Ok? ==> |rows| >= 2 && exists at :: HoldRows(rows[0], rows[1..], r.value, at)
  {
    if |rows| >= 2 {
      RefusedIff(rows[0], rows[1..]);
      assert forall i :: 1 <= i < |rows| ==> rows[i] == rows[1..][i - 1];
      if Parsed(rows[0], rows[1..]).Ok? {
        ghost var at := EntriesHoldRows(rows[0], rows[1..]);
      }
    }
    if |rows| < 2 {
      return Err(NeedHeaderAndRow);
    }
    if Col(rows[0], Name) < 0 {
      return Err(NoNameColumn);
    }
    r := ReadRows(rows[0], rows[1..]);
  }

  // ----- When a file is accepted -----

  /** A file is accepted exactly when it has a name column, at least one row with a non-blank first
      cell, and no such row with a guarded cell that starts with a formula character; it then yields
      the entries of those rows, so never an empty list. */
  lemma {:induction false} AcceptedIff(header: seq<string>, data: seq<seq<string>>)
    ensures Parsed(header, data).Ok? <==>
      && HasNames(header)
      && (exists i :: 0 <= i < |data| && DataRow(data[i]))
      && (forall i :: 0 <= i < |data| ==> !FormulaRow(header, data[i]))
    ensures Parsed(header, data).Ok? ==> Parsed(header, data).value == Entries(header, data) != []
  {
    RefusedIff(header, data);
    if Parsed(header, data).Ok? {
      assert Parsed(header, data) == Judged(Entries(header, data));
    }
  }

  lemma {:induction false} AcceptedIsNonEmpty(header: seq<string>, data: seq<seq<string>>)
    ensures Parsed(header, data).Ok? ==> |Parsed(header, data).value| > 0
  {
    AcceptedIff(header, data);
  }

  /** How the readings of two parts of a file make up the whole: a part without rows adds nothing,
      a rejected row refuses everything, and having no live row only shows if neither has. */
  function Combined(a: Outcome, b: Outcome): Outcome {
    if a == Err(NeedHeaderAndRow) then b
    else if b == Err(NeedHeaderAndRow) || a == Err(NoNameColumn) then a
    else if a == Err(FormulaCell) || b == Err(FormulaCell) then Err(FormulaCell)
    else if a.Err? then b
    else if b.Err? then a
    else Ok(a.value + b.value)
  }

  lemma {:induction false} JudgedSplits(xs: seq<Entry>, ys: seq<Entry>)
    ensures Judged(xs + ys) == Combined(Judged(xs), Judged(ys))
  {
    assert forall i :: 0 <= i < |xs| ==> (xs + ys)[i] == xs[i];
    assert forall i :: 0 <= i < |ys| ==> (xs + ys)[|xs| + i] == ys[i];
    assert xs == [] ==> xs + ys == ys;
    assert ys == [] ==> xs + ys == xs;
  }

  /** Parsing splits over rows: a file is read part by part under the same header. */
  lemma {:induction false} ParseSplits(header: seq<string>, xs: seq<seq<string>>, ys: seq<seq<string>>)
    ensures Parsed(header, xs + ys) == Combined(Parsed(header, xs), Parsed(header, ys))
  {
    if xs == [] {
      assert xs + ys == ys;
    } else if ys == [] {
      assert xs + ys == xs;
    } else {
      PickConcat(Live, Reader(header), xs, ys);
      JudgedSplits(Entries(header, xs), Entries(header, ys));
    }
  }

  /** Two rows, under two headers, that are both skipped or say the same. */
  ghost predicate SaySame(h: seq<string>, row: seq<string>, k: seq<string>, other: seq<string>) {
    (Live(row) <==> Live(other)) && (Live(row) ==> EntryOf(h, row) == EntryOf(k, other))
  }

  /** Files that agree on having a name column and say the same row by row are read alike. */
  lemma {:induction false} SameRowsSameReading(h: seq<string>, data: seq<seq<string>>, k: seq<string>,
      others: seq<seq<string>>)
    requires |data| == |others| && (Col(h, Name) < 0 <==> Col(k, Name) < 0)
    requires forall i :: 0 <= i < |data| ==> SaySame(h, data[i], k, others[i])
    ensures Parsed(h, data) == Parsed(k, others)
  {
    PickAgrees(Live, Reader(h), data, Live, Reader(k), others);
  }

  ghost function Padded(data: seq<seq<string>>, pads: seq<seq<string>>): (r: seq<seq<string>>)
    requires |pads| == |data|
    ensures |r| == |data|
  {
    seq(|data|, i requires 0 <= i < |data| => data[i] + pads[i])
  }

  /** Blank cells added to the end of rows make no difference, nor do any cells beyond the header. */
  lemma {:induction false} PaddingIsHarmless(header: seq<string>, data: seq<seq<string>>, pads: seq<seq<string>>)
    requires |pads| == |data|
    requires forall i :: 0 <= i < |data| ==>
      |data[i]| >= |header| > 0 || (forall j :: 0 <= j < |pads[i]| ==> !NonBlank(pads[i][j]))
    ensures Parsed(header, data) == Parsed(header, Padded(data, pads))
  {
    forall i | 0 <= i < |data| ensures SaySame(header, data[i], header, Padded(data, pads)[i]) {
      PaddedRowSaysSame(header, data[i], pads[i]);
    }
    SameRowsSameReading(header, data, header, Padded(data, pads));
  }

  lemma {:induction false} PaddedRowSaysSame(header: seq<string>, row: seq<string>, pad: seq<string>)
    requires |row| >= |header| > 0 || (forall j :: 0 <= j < |pad| ==> !NonBlank(pad[j]))
    ensures SaySame(header, row, header, row + pad)
  {
    forall field ensures Get(header, row, field) == Get(header, row + pad, field) {
      PaddedGet(header, row, pad, field);
    }
  }

  lemma {:induction false} PaddedGet(header: seq<string>, row: seq<string>, pad: seq<string>, field: Field)
    requires |row| >= |header| > 0 || (forall j :: 0 <= j < |pad| ==> !NonBlank(pad[j]))
    ensures Get(header, row, field) == Get(header, row + pad, field)
  {
    var i := Col(header, field);
    if |row| <= i < |row + pad| {
      assert !NonBlank(pad[i - |row|]);
    }
  }

  // ----- Permuting columns -----

  /** An arrangement of w columns: each occurs once. */
  ghost predicate Permutation(p: seq<nat>, w: nat) {
    && |p| == w
    && (forall i :: 0 <= i < w ==> p[i] < w)
    && (forall i, j :: 0 <= i < j < w ==> p[i] != p[j])
    && (forall c: nat :: c < w ==> c in p)
  }

  /** A row with its columns rearranged: a short one counts as filled up with blank cells, and cells
      beyond the columns stay at the end. */
  function Permuted(cells: seq<string>, p: seq<nat>): (r: seq<string>)
    ensures |r| == if |cells| > |p| then |cells| else |p|
    ensures forall i :: 0 <= i < |p| ==> r[i] == if p[i] < |cells| then cells[p[i]] else ""
  {
    seq(|p|, i requires 0 <= i < |p| => if p[i] < |cells| then cells[p[i]] else "")
      + if |cells| > |p| then cells[|p|..] else []
  }

  /** No field has two columns. */
  ghost predicate FieldsOnce(header: seq<string>) {
    forall i, j, field :: 0 <= i < j < |header| ==> !(Names(header[i], field) && Names(header[j], field))
  }

  /** However the columns are arranged, a live row of any width says the same. */
  ghost predicate OrderIrrelevant(header: seq<string>) {
    forall p, row :: Permutation(p, |header|) && Live(row) && Live(Permuted(row, p)) ==>
      EntryOf(header, row) == EntryOf(Permuted(header, p), Permuted(row, p))
  }

  lemma {:induction false} ColPermuted(header: seq<string>, p: seq<nat>, field: Field)
    requires FieldsOnce(header) && Permutation(p, |header|)
    ensures var i, j := Col(header, field), Col(Permuted(header, p), field);
      (i < 0 && j < 0) || (i >= 0 && j >= 0 && p[j] == i)
  {
    var i, j := Col(header, field), Col(Permuted(header, p), field);
    if i >= 0 {
      assert i as nat in p;
      var at :| 0 <= at < |p| && p[at] == i;
      assert Names(Permuted(header, p)[at], field);
    }
    if j >= 0 {
      assert Names(header[p[j]], field);
    }
  }

  lemma {:induction false} EntryPermuted(header: seq<string>, row: seq<string>, p: seq<nat>)
    requires FieldsOnce(header) && Permutation(p, |header|)
    ensures EntryOf(header, row) == EntryOf(Permuted(header, p), Permuted(row, p))
  {
    forall field ensures Get(header, row, field) == Get(Permuted(header, p), Permuted(row, p), field) {
      GetPermuted(header, row, p, field);
    }
  }

  lemma {:induction false} GetPermuted(header: seq<string>, row: seq<string>, p: seq<nat>, field: Field)
    requires FieldsOnce(header) && Permutation(p, |header|)
    ensures Get(header, row, field) == Get(Permuted(header, p), Permuted(row, p), field)
  {
    ColPermuted(header, p, field);
    assert Trim("") == "";
  }

  /** Swapping two columns. */
  function Swap(w: nat, a: nat, b: nat): (p: seq<nat>)
    requires a < w && b < w
    ensures |p| == w
  {
    seq(w, i requires 0 <= i < w => if i == a then b else if i == b then a else i)
  }

  lemma SwapPermutes(w: nat, a: nat, b: nat)
    requires a < b < w
    ensures Permutation(Swap(w, a, b), w)
  {
    var p := Swap(w, a, b);
    forall c: nat | c < w ensures c in p {
      var at := if c == a then b else if c == b then a else c;
      assert p[at] == c;
    }
  }

  lemma PlainPieces(s: string)
    requires s == "x" || s == "y"
    ensures Trim(s) == s && Pieces(s) == [s]
  {
    TrimSettles(s);
    SplitUnbroken(s, '|');
    PickAll(NonBlank, Trim, [s]);
  }

  /** Entries that agree agree on each field, the list fields up to their pieces. */
  lemma EntryTells(h: seq<string>, row: seq<string>, k: seq<string>, other: seq<string>, field: Field)
    requires EntryOf(h, row) == EntryOf(k, other)
    ensures Get(h, row, field) == Get(k, other, field) || Pieces(Get(h, row, field)) == Pieces(Get(k, other, field))
  {
  }

  lemma ColIs(header: seq<string>, field: Field, a: nat)
    requires a < |header| && Names(header[a], field) && forall c :: 0 <= c < a ==> !Names(header[c], field)
    ensures Col(header, field) == a
  {
  }

  /** Swapping the first column of a field with another of its columns leaves the field's first
      column in place. */
  lemma SwapKeepsCol(header: seq<string>, a: nat, j: nat, field: Field)
    requires a == Col(header, field) < j < |header| && Names(header[j], field)
    ensures Col(Permuted(header, Swap(|header|, a, j)), field) == a
  {
    var h := Permuted(header, Swap(|header|, a, j));
    assert h[a] == header[j] && forall c :: 0 <= c < a ==> h[c] == header[c];
    ColIs(h, field, a);
  }

  lemma SwapMovesCell(header: seq<string>, a: nat, j: nat, field: Field, row: seq<string>)
    requires a == Col(header, field) < j < |header| == |row| && Names(header[j], field)
    ensures Get(header, row, field) == Trim(row[a])
    ensures Get(Permuted(header, Swap(|header|, a, j)), Permuted(row, Swap(|header|, a, j)), field) == Trim(row[j])
  {
    SwapKeepsCol(header, a, j, field);
  }

  /** Cells all "x" but one "y". */
  function OneOdd(w: nat, a: nat): (row: seq<string>)
    ensures |row| == w && forall c :: 0 <= c < w ==> row[c] == if c == a then "y" else "x"
  {
    seq(w, c => if c == a then "y" else "x")
  }

  /** Such rows are live and say different things in two columns. */
  lemma {:induction false} OddCells(w: nat, a: nat, j: nat)
    requires a < j < w
    ensures Live(OneOdd(w, a)) && Live(Permuted(OneOdd(w, a), Swap(w, a, j)))
    ensures Trim(OneOdd(w, a)[a]) == "y" && Pieces("y") == ["y"]
    ensures Trim(OneOdd(w, a)[j]) == "x" && Pieces("x") == ["x"]
  {
    PlainPieces("x");
    PlainPieces("y");
  }

  /** A field with two columns is read from the first of them only, so swapping the two shows. */
  lemma {:induction false} RepeatedFieldShows(header: seq<string>, i: nat, j: nat, field: Field)
    requires i < j < |header| && Names(header[i], field) && Names(header[j], field)
    ensures !OrderIrrelevant(header)
  {
    var w, a := |header|, Col(header, field);
    assert 0 <= a <= i;
    var p, row := Swap(w, a, j), OneOdd(w, a);
    OddCells(w, a, j);
    SwapMovesCell(header, a, j, field, row);
    SwapPermutes(w, a, j);
    assert EntryOf(header, row) != EntryOf(Permuted(header, p), Permuted(row, p)) by {
      if EntryOf(header, row) == EntryOf(Permuted(header, p), Permuted(row, p)) {
        EntryTells(header, row, Permuted(header, p), Permuted(row, p), field);
      }
    }
  }

  /** The order of columns is irrelevant exactly when no field has two of them. */
  lemma {:induction false} OrderIrrelevantIff(header: seq<string>)
    ensures OrderIrrelevant(header) <==> FieldsOnce(header)
  {
    if FieldsOnce(header) {
      forall p, row | Permutation(p, |header|)
        ensures EntryOf(header, row) == EntryOf(Permuted(header, p), Permuted(row, p))
      {
        EntryPermuted(header, row, p);
      }
    } else {
      var i, j, field :| 0 <= i < j < |header| && Names(header[i], field) && Names(header[j], field);
      RepeatedFieldShows(header, i, j, field);
    }
  }

  ghost function AllPermuted(data: seq<seq<string>>, p: seq<nat>): (r: seq<seq<string>>)
    ensures |r| == |data|
  {
    seq(|data|, i requires 0 <= i < |data| => Permuted(data[i], p))
  }

  /** A file with its columns rearranged reads the same, if the verdicts on first cells do. */
  lemma {:induction false} ColumnsMayMove(header: seq<string>, data: seq<seq<string>>, p: seq<nat>)
    requires Permutation(p, |header|) && FieldsOnce(header)
    requires forall i :: 0 <= i < |data| ==> (Live(data[i]) <==> Live(Permuted(data[i], p)))
    ensures Parsed(header, data) == Parsed(Permuted(header, p), AllPermuted(data, p))
  {
    ColPermuted(header, p, Name);
    forall i | 0 <= i < |data|
      ensures SaySame(header, data[i], Permuted(header, p), AllPermuted(data, p)[i])
    {
      EntryPermuted(header, data[i], p);
    }
    SameRowsSameReading(header, data, Permuted(header, p), AllPermuted(data, p));
  }

  /** However the columns of a file under this header are arranged, it reads the same. */
  ghost predicate FileOrderIrrelevant(header: seq<string>) {
    forall p, data :: Permutation(p, |header|) ==>
      Parsed(header, data) == Parsed(Permuted(header, p), AllPermuted(data, p))
  }

  lemma {:induction false} NameStays(header: seq<string>, p: seq<nat>)
    requires Permutation(p, |header|)
    ensures Col(Permuted(header, p), Name) < 0 <==> Col(header, Name) < 0
  {
    var h, i, j := Permuted(header, p), Col(header, Name), Col(Permuted(header, p), Name);
    if i >= 0 {
      assert i as nat in p;
      var at :| 0 <= at < |p| && p[at] == i;
      assert Names(h[at], Name);
    }
    if j >= 0 {
      assert Names(header[p[j]], Name);
    }
  }

  /** One column has one arrangement. */
  lemma {:induction false} OneColumnStays(header: seq<string>, p: seq<nat>, row: seq<string>)
    requires |header| <= 1 && Permutation(p, |header|)
    ensures Permuted(header, p) == header && SaySame(header, row, Permuted(header, p), Permuted(row, p))
  {
    if Live(row) {
      assert Permuted(row, p) == row;
    }
  }

  /** A row whose first cell is blank and no other. */
  function BlankFirst(w: nat): (row: seq<string>)
    ensures |row| == w && forall c :: 0 <= c < w ==> row[c] == if c == 0 then "" else "x"
  {
    seq(w, c => if c == 0 then "" else "x")
  }

  /** It is skipped, and read once a second column takes its place. */
  lemma {:induction false} BlankFirstMoves(w: nat)
    requires w >= 2
    ensures !Live(BlankFirst(w)) && Live(Permuted(BlankFirst(w), Swap(w, 0, 1)))
  {
    PlainPieces("x");
    assert Permuted(BlankFirst(w), Swap(w, 0, 1))[0] == "x";
  }

  /** A file of one row has no data exactly when the row is skipped. */
  lemma {:induction false} OneRow(header: seq<string>, row: seq<string>)
    requires Col(header, Name) >= 0
    ensures Parsed(header, [row]) == Err(NoDataRows) <==> !Live(row)
  {
    PickNonEmpty(Live, Reader(header), [row]);
    assert [row][0] == row;
  }

  lemma OneRowPermuted(row: seq<string>, p: seq<nat>)
    ensures AllPermuted([row], p) == [Permuted(row, p)]
  {
  }

  /** So its file reads differently in the two arrangements. */
  lemma {:induction false} BlankFirstDiffers(header: seq<string>, p: seq<nat>, row: seq<string>)
    requires Permutation(p, |header|) && Col(header, Name) >= 0 && !Live(row) && Live(Permuted(row, p))
    ensures Parsed(header, [row]) != Parsed(Permuted(header, p), AllPermuted([row], p))
  {
    NameStays(header, p);
    OneRowPermuted(row, p);
    OneRow(header, row);
    OneRow(Permuted(header, p), Permuted(row, p));
  }

  lemma {:induction false} BlankFirstShows(header: seq<string>)
    requires |header| >= 2 && Col(header, Name) >= 0
    ensures !FileOrderIrrelevant(header)
  {
    SwapPermutes(|header|, 0, 1);
    BlankFirstMoves(|header|);
    BlankFirstDiffers(header, Swap(|header|, 0, 1), BlankFirst(|header|));
  }

  /** The order of a file's columns is irrelevant exactly when there are not two of them or none is a
      name column; otherwise the rule that skips rows with a blank first cell can tell. */
  lemma {:induction false} FileOrderIrrelevantIff(header: seq<string>)
    ensures FileOrderIrrelevant(header) <==>
      |header| <= 1 || forall c :: 0 <= c < |header| ==> !Names(header[c], Name)
  {
    if |header| >= 2 && Col(header, Name) >= 0 {
      BlankFirstShows(header);
    } else {
      forall p, data | Permutation(p, |header|)
        ensures Parsed(header, data) == Parsed(Permuted(header, p), AllPermuted(data, p))
      {
        NameStays(header, p);
        if |header| <= 1 {
          forall i | 0 <= i < |data|
            ensures SaySame(header, data[i], Permuted(header, p), AllPermuted(data, p)[i])
          {
            OneColumnStays(header, p, data[i]);
          }
          SameRowsSameReading(header, data, Permuted(header, p), AllPermuted(data, p));
        }
      }
    }
  }

  // ----- Pieces of a cell -----

  /** What a pipe-separated part looks like once trimmed. */
  ghost predicate IsPiece(s: string) {
    s != "" && Trimmed(s) && '|' !in s
  }

  lemma {:induction false} PiecesArePieces(cell: string, s: string)
    requires s in Pieces(cell)
    ensures IsPiece(s)
  {
    var parts := Split(cell, '|');
    PickSound(NonBlank, Trim, parts, s);
    var part :| part in parts && NonBlank(part) && Trim(part) == s;
    SplitPartsUnbroken(cell, '|');
    TrimSettles(part);
  }

  /** Joining some strings with pipes and splitting again gives them back exactly when each is a
      piece; in particular splitting a cell, joining and splitting again changes nothing. */
  lemma {:induction false} PiecesRoundTrip(parts: seq<string>)
    ensures Pieces(Join(parts, '|')) == parts <==> forall s :: s in parts ==> IsPiece(s)
  {
    if forall s :: s in parts ==> IsPiece(s) {
      forall i | 0 <= i < |parts| ensures Trim(parts[i]) == parts[i] && IsPiece(parts[i]) {
        assert parts[i] in parts;
        TrimSettles(parts[i]);
      }
      if parts == [] {
        assert Pick(NonBlank, Trim, [""]) == [];
      } else {
        SplitJoin(parts, '|');
        PickAll(NonBlank, Trim, parts);
      }
    } else if Pieces(Join(parts, '|')) == parts {
      forall s | s in parts ensures IsPiece(s) {
        PiecesArePieces(Join(parts, '|'), s);
      }
    }
  }

  /** A cell is split at its pipes, and each part is trimmed and kept unless it is blank. */
  lemma {:induction false} PiecesSplit(part: string, rest: string)
    requires '|' !in part
    ensures Pieces(part) == if Trim(part) == "" then [] else [Trim(part)]
    ensures Pieces(part + "|" + rest) == Pieces(part) + Pieces(rest)
  {
    SplitUnbroken(part, '|');
    SplitHead(part, '|', rest);
    PickConcat(NonBlank, Trim, [part], Split(rest, '|'));
    PickAppend(NonBlank, Trim, [], part);
    assert [] + [part] == [part];
  }

  lemma {:induction false} PiecesSettle(cell: string)
    ensures Pieces(Join(Pieces(cell), '|')) == Pieces(cell)
  {
    forall s | s in Pieces(cell) ensures IsPiece(s) {
      PiecesArePieces(cell, s);
    }
    PiecesRoundTrip(Pieces(cell));
  }

  // ----- Writing a file and reading it back -----

  /** The documented header. */
  const HEADER: seq<string> := ["entity_id", "name", "type", "country", "dob", "identifiers", "tags"]

  function Position(field: Field): (i: nat)
    ensures i < 7
  {
    match field
    case EntityId => 0
    case Name => 1
    case Kind => 2
    case Country => 3
    case Dob => 4
    case Identifiers => 5
    case Tags => 6
  }

  /** The row that a customer would write for an entry. */
  function RowOf(e: Entry): (row: seq<string>)
    ensures |row| == 7
  {
    [e.entityId, e.name, e.kind, e.country, e.dob, Join(e.identifiers, '|'), Join(e.tags, '|')]
  }

  /** Entries that a file can hold: unstamped, with trimmed fields, an entity id, proper pieces and
      nothing the formula guard rejects. */
  ghost predicate Writable(e: Entry) {
    && e.id == 0 && e.tenant == "" && e.list == "" && e.version == 0 && !e.active
    && Trimmed(e.entityId) && Trimmed(e.name) && Trimmed(e.kind) && Trimmed(e.country) && Trimmed(e.dob)
    && e.entityId != "" && !Rejected(e)
    && (forall s :: s in e.identifiers ==> IsPiece(s))
    && (forall s :: s in e.tags ==> IsPiece(s))
  }

  lemma LowerLeaves(s: string)
    requires Small(s)
    ensures Lower(s) == s && Trimmed(s)
  {
  }

  lemma HeadingIsPlain(field: Field)
    ensures HEADER[Position(field)] == field.Heading && Names(field.Heading, field)
  {
    var s := field.Heading;
    LowerLeaves(s);
    TrimSettles(s);
  }

  lemma HeadingsDiffer(f: Field, g: Field)
    requires f != g
    ensures f.Heading != g.Heading
  {
    var s, t := f.Heading, g.Heading;
    assert |s| != |t| || s[0] != t[0] || s[1] != t[1];
  }

  /** A header cell names a field exactly when it spells its heading, in whatever case, with or
      without white space around it. */
  lemma {:induction false} NamesIff(cell: string, field: Field)
    ensures Small(field.Heading)
    ensures Names(cell, field) <==> exists lead, word, trail :: Spelled(cell, lead, word, trail, field.Heading)
  {
    SpelledIff(cell, field.Heading);
  }

  lemma {:induction false} ColInHeader(field: Field)
    ensures Col(HEADER, field) == Position(field)
  {
    HeadingIsPlain(field);
    forall other: Field | other != field ensures !Names(other.Heading, field) {
      HeadingIsPlain(other);
      HeadingsDiffer(other, field);
    }
    forall i | 0 <= i < 7 && Names(HEADER[i], field) ensures i == Position(field) {
      var other := if i == 0 then EntityId else if i == 1 then Name else if i == 2 then Kind else if i == 3 then Country
                   else if i == 4 then Dob else if i == 5 then Identifiers else Tags;
      HeadingIsPlain(other);
    }
  }

  /** Every field has its (first) column where the documented header puts it. */
  ghost predicate InOrder(header: seq<string>) {
    forall field :: Col(header, field) == Position(field)
  }

  lemma {:induction false} DocumentedHeaderIsInOrder()
    ensures InOrder(HEADER)
  {
    forall field ensures Col(HEADER, field) == Position(field) {
      ColInHeader(field);
    }
  }

  lemma GetInOrder(header: seq<string>, row: seq<string>, field: Field)
    requires InOrder(header) && |row| == 7
    ensures Getter(header, row)(field) == Trim(row[Position(field)])
  {
  }

  /** Joined pieces need no trimming. */
  lemma {:induction false} JoinedIsTrimmed(parts: seq<string>)
    requires forall s :: s in parts ==> IsPiece(s)
    ensures Trimmed(Join(parts, '|')) && (parts != [] ==> Join(parts, '|') != "")
    decreases |parts|
  {
    if |parts| > 1 {
      assert IsPiece(parts[0]);
      JoinedIsTrimmed(parts[1..]);
    } else if |parts| == 1 {
      assert IsPiece(parts[0]);
    }
  }

  lemma {:induction false} PiecesOfJoined(parts: seq<string>)
    requires forall s :: s in parts ==> IsPiece(s)
    ensures Pieces(Trim(Join(parts, '|'))) == parts
  {
    JoinedIsTrimmed(parts);
    TrimSettles(Join(parts, '|'));
    PiecesRoundTrip(parts);
  }

  /** What get returns for the fields of a writable entry, trimmed, makes up the entry. */
  lemma {:induction false} FieldsMakeEntry(get: Field -> string, e: Entry)
    requires Writable(e)
    requires get(EntityId) == Trim(e.entityId) && get(Name) == Trim(e.name) && get(Kind) == Trim(e.kind)
    requires get(Country) == Trim(e.country) && get(Dob) == Trim(e.dob)
    requires get(Identifiers) == Trim(Join(e.identifiers, '|')) && get(Tags) == Trim(Join(e.tags, '|'))
    ensures EntryFrom(get) == e
  {
    TrimSettles(e.entityId);
    TrimSettles(e.name);
    TrimSettles(e.kind);
    TrimSettles(e.country);
    TrimSettles(e.dob);
    PiecesOfJoined(e.identifiers);
    PiecesOfJoined(e.tags);
  }

  lemma {:induction false} WrittenRowReads(header: seq<string>, e: Entry, row: seq<string>)
    requires InOrder(header) && Writable(e) && row == RowOf(e)
    ensures Live(row) && Reader(header)(row) == e
  {
    GetInOrder(header, row, EntityId);
    GetInOrder(header, row, Name);
    GetInOrder(header, row, Kind);
    GetInOrder(header, row, Country);
    GetInOrder(header, row, Dob);
    GetInOrder(header, row, Identifiers);
    GetInOrder(header, row, Tags);
    FieldsMakeEntry(Getter(header, row), e);
    TrimSettles(e.entityId);
  }

  /** Any entry that was read and not rejected can be written, if it has an id. */
  lemma {:induction false} FieldsMakeWritable(get: Field -> string)
    requires forall field :: Trimmed(get(field))
    requires get(EntityId) != "" && !Rejected(EntryFrom(get))
    ensures Writable(EntryFrom(get))
  {
    forall s | s in Pieces(get(Identifiers)) ensures IsPiece(s) {
      PiecesArePieces(get(Identifiers), s);
    }
    forall s | s in Pieces(get(Tags)) ensures IsPiece(s) {
      PiecesArePieces(get(Tags), s);
    }
  }

  lemma {:induction false} ReadEntryIsWritable(header: seq<string>, row: seq<string>)
    requires InOrder(header) && |row| == 7 && Live(row) && !Rejected(EntryOf(header, row))
    ensures Writable(EntryOf(header, row))
  {
    forall field ensures Trimmed(Getter(header, row)(field)) {
      GetInOrder(header, row, field);
      TrimSettles(row[Position(field)]);
    }
    GetInOrder(header, row, EntityId);
    FieldsMakeWritable(Getter(header, row));
  }

  lemma {:induction false} WrittenFileReads(header: seq<string>, entries: seq<Entry>, data: seq<seq<string>>)
    requires InOrder(header) && (forall e :: e in entries ==> Writable(e)) && data == Mapped(RowOf, entries)
    ensures Entries(header, data) == entries && forall i :: 0 <= i < |entries| ==> !Rejected(entries[i])
  {
    forall i | 0 <= i < |entries|
      ensures Live(data[i]) && Reader(header)(data[i]) == entries[i] && Writable(entries[i])
    {
      assert entries[i] in entries;
      WrittenRowReads(header, entries[i], data[i]);
    }
    PickAll(Live, Reader(header), data);
  }

  lemma {:induction false} ReadFileIsWritable(header: seq<string>, entries: seq<Entry>, data: seq<seq<string>>)
    requires InOrder(header) && data == Mapped(RowOf, entries) && Parsed(header, data) == Ok(entries)
    ensures forall e :: e in entries ==> Writable(e)
  {
    forall e | e in entries ensures Writable(e) {
      var i := ParsedEntryIsRead(header, data, e);
      assert |data[i]| == |RowOf(entries[i])|;
      ReadEntryIsWritable(header, data[i]);
    }
  }

  /** Writing entries under the documented header (DocumentedHeaderIsInOrder), or any header whose
      columns stand in its order, and parsing the file gives them back exactly when there is at least
      one and each can be written. */
  lemma {:induction false} WriteThenParse(header: seq<string>, entries: seq<Entry>, data: seq<seq<string>>)
    requires InOrder(header)
    requires data == Mapped(RowOf, entries)
    ensures Parsed(header, data) == Ok(entries) <==> entries != [] && forall e :: e in entries ==> Writable(e)
  {
    if forall e :: e in entries ==> Writable(e) {
      WrittenFileReads(header, entries, data);
    } else if Parsed(header, data) == Ok(entries) {
      ReadFileIsWritable(header, entries, data);
    }
  }

  lemma {:induction false} ParsedEntryIsRead(header: seq<string>, data: seq<seq<string>>, e: Entry) returns (i: nat)
    requires Parsed(header, data).Ok? && e in Parsed(header, data).value
    ensures i < |data| && Live(data[i]) && EntryOf(header, data[i]) == e && !Rejected(e)
  {
    PickSound(Live, Reader(header), data, e);
    var row :| row in data && Live(row) && Reader(header)(row) == e;
    i :| 0 <= i < |data| && data[i] == row;
    assert EntryOf(header, row) == e;
  }
}
