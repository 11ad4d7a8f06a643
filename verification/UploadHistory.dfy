/** Watchlists over interleaved runs: what uploaders are told, and what every version still holds. */
module UploadHistory {
  import WatchlistRuns
  import opened Csv
  import opened Ledgers
  import opened Service
  import opened Tables
  import opened Watchlist
  import opened Wrappers

  /** The step is an upload that is stored. */
  ghost predicate Stores(a: Action) {
    a.op.Upload? && a.ok && ValidListName(ListName(a.op.path)) && Parsed(a.op.heading, a.op.data).Ok?
  }

  ghost function UploadOf(a: Action): WatchlistRuns.Upload
    requires Stores(a)
  {
    WatchlistRuns.Upload(a.tenant, ListName(a.op.path), Parsed(a.op.heading, a.op.data).value)
  }

  /** The uploads a run stores, in order. */
  ghost function Performed(actions: seq<Action>): seq<WatchlistRuns.Upload> {
    if |actions| == 0 then [] else
      var a := actions[|actions| - 1];
      Performed(actions[..|actions| - 1]) + if Stores(a) then [UploadOf(a)] else []
  }

  lemma OtherStepsKeepLists(env: Env, s: State, a: Action)
    requires !Stores(a)
    ensures Step(env, s, a).lists == s.lists
  {
  }

  lemma StoringStep(env: Env, s: State, a: Action)
    requires Stores(a)
    ensures Step(env, s, a).lists == Uploaded(s.lists, UploadOf(a).tenant, UploadOf(a).list, UploadOf(a).entries)
  {
  }

  /** Whatever is interleaved with them, the watchlist table is that of the stored uploads alone. */
  lemma {:induction false} ListsAreUploads(env: Env, actions: seq<Action>)
    ensures Run(env, actions).lists == WatchlistRuns.Table(Performed(actions))
    decreases |actions|
  {
    if |actions| > 0 {
      var rest, a := actions[..|actions| - 1], actions[|actions| - 1];
      var ups := Performed(rest);
      ListsAreUploads(env, rest);
      if Stores(a) {
        StoringStep(env, Run(env, rest), a);
        assert (ups + [UploadOf(a)])[..|ups|] == ups;
      } else {
        OtherStepsKeepLists(env, Run(env, rest), a);
        assert ups + [] == ups;
      }
    }
  }

  lemma {:induction false} StoredAreNonEmpty(actions: seq<Action>)
    ensures forall i :: 0 <= i < |Performed(actions)| ==> Performed(actions)[i].entries != []
    decreases |actions|
  {
    if |actions| > 0 {
      var a := actions[|actions| - 1];
      StoredAreNonEmpty(actions[..|actions| - 1]);
      if Stores(a) {
        AcceptedIff(a.op.heading, a.op.data);
      }
    }
  }

  // ----- What uploaders are told -----

  ghost predicate ToldStored(answer: Option<Answer>, list: string) {
    answer.Some? && answer.value.ListUploaded? && answer.value.list == list
  }

  /** The step answers an upload of this tenant to this list with 200. */
  ghost function Uploading(env: Env, tenant: string, list: string): (State, Action) -> bool {
    (s: State, a: Action) => a.tenant == tenant && ToldStored(Answered(env, s, a), list)
  }

  /** Only an upload is answered with a version. */
  lemma OthersAreNotTold(env: Env, s: State, a: Action, list: string)
    requires !a.op.Upload?
    ensures !ToldStored(Answered(env, s, a), list)
  {
  }

  lemma ToldIsStored(env: Env, s: State, a: Action, tenant: string, list: string)
    ensures Uploading(env, tenant, list)(s, a) <==> Stores(a) && a.tenant == tenant && ListName(a.op.path) == list
  {
    if !a.op.Upload? {
      OthersAreNotTold(env, s, a, list);
    }
  }

  lemma {:induction false} ToldAreUploads(env: Env, actions: seq<Action>, tenant: string, list: string)
    ensures Times(env, actions, Uploading(env, tenant, list)) == WatchlistRuns.Uploads(Performed(actions), tenant, list)
    decreases |actions|
  {
    if |actions| > 0 {
      var rest, a := actions[..|actions| - 1], actions[|actions| - 1];
      var ups := Performed(rest);
      ToldAreUploads(env, rest, tenant, list);
      ToldIsStored(env, Run(env, rest), a, tenant, list);
      if Stores(a) {
        assert (ups + [UploadOf(a)])[..|ups|] == ups;
      } else {
        assert ups + [] == ups;
      }
    }
  }

  /** A list's version is always the number of its uploads answered with 200: none was empty. */
  lemma {:induction false} VersionIsTold(env: Env, actions: seq<Action>, tenant: string, list: string)
    ensures MaxVersion(Run(env, actions).lists, tenant, list) == Times(env, actions, Uploading(env, tenant, list))
    ensures |WatchlistRuns.History(Performed(actions), tenant, list)|
      == Times(env, actions, Uploading(env, tenant, list))
  {
    ListsAreUploads(env, actions);
    StoredAreNonEmpty(actions);
    ToldAreUploads(env, actions, tenant, list);
    WatchlistRuns.HistoryMissesEmpties(Performed(actions), tenant, list);
    WatchlistRuns.VersionIsNonEmptyUploads(Performed(actions), tenant, list);
  }

  /** The rows, in order, that the table has of a version. */
  ghost function RowsOf(s: State, tenant: string, list: string, version: int): seq<Entry> {
    WatchlistRuns.VersionRows(s.lists, tenant, list, version)
  }

  lemma UploadTold(lists: seq<Entry>, tenant: string, list: string, parsed: Outcome)
    requires ValidListName(list) && parsed.Ok?
    ensures UploadAnswer(lists, tenant, list, parsed, true)
      == ListUploaded(list, MaxVersion(lists, tenant, list) + 1, |parsed.value|)
  {
  }

  /** An upload that is answered with a version leaves that version with as many rows as it was told. */
  lemma {:induction false} AnswerTellsRows(env: Env, s: State, a: Action, u: WatchlistRuns.Upload, told: Answer)
    requires Stores(a) && u == UploadOf(a)
    requires told == UploadAnswer(s.lists, a.tenant, u.list, Parsed(a.op.heading, a.op.data), true)
    ensures told == ListUploaded(u.list, MaxVersion(s.lists, a.tenant, u.list) + 1, |u.entries|) && |u.entries| > 0
    ensures RowsOf(Step(env, s, a), a.tenant, told.list, told.version) == WatchlistRuns.Contents(u.entries)
  {
    UploadTold(s.lists, a.tenant, u.list, Parsed(a.op.heading, a.op.data));
    StoringStep(env, s, a);
    AcceptedIsNonEmpty(a.op.heading, a.op.data);
    WatchlistRuns.UploadFillsVersion(s.lists, u);
  }

  lemma {:induction false} TimesGrow(env: Env, actions: seq<Action>, does: (State, Action) -> bool, k: nat)
    requires k <= |actions|
    ensures Times(env, actions[..k], does) <= Times(env, actions, does)
    decreases |actions|
  {
    if k < |actions| {
      TimesGrow(env, actions[..|actions| - 1], does, k);
      assert actions[..|actions| - 1][..k] == actions[..k];
    } else {
      assert actions[..k] == actions;
    }
  }

  /** A version once told is never changed. */
  lemma {:induction false} VersionStays(env: Env, actions: seq<Action>, k: nat, tenant: string, list: string, v: int)
    requires k <= |actions| && 1 <= v <= Times(env, actions[..k], Uploading(env, tenant, list))
    ensures RowsOf(Run(env, actions), tenant, list, v) == RowsOf(Run(env, actions[..k]), tenant, list, v)
  {
    VersionIsTold(env, actions[..k], tenant, list);
    VersionIsTold(env, actions, tenant, list);
    TimesGrow(env, actions, Uploading(env, tenant, list), k);
    ListsAreUploads(env, actions[..k]);
    ListsAreUploads(env, actions);
    WatchlistRuns.KeepsHistory(Performed(actions[..k]), tenant, list, v);
    WatchlistRuns.KeepsHistory(Performed(actions), tenant, list, v);
    HistoryGrows(actions, k, tenant, list);
  }

  lemma {:induction false} HistoryGrows(actions: seq<Action>, k: nat, tenant: string, list: string)
    requires k <= |actions|
    ensures WatchlistRuns.History(Performed(actions[..k]), tenant, list)
      <= WatchlistRuns.History(Performed(actions), tenant, list)
    decreases |actions|
  {
    if k < |actions| {
      var rest, a := actions[..|actions| - 1], actions[|actions| - 1];
      HistoryGrows(rest, k, tenant, list);
      assert rest[..k] == actions[..k];
      if Stores(a) {
        assert (Performed(rest) + [UploadOf(a)])[..|Performed(rest)|] == Performed(rest);
      } else {
        assert Performed(rest) + [] == Performed(rest);
      }
    } else {
      assert actions[..k] == actions;
    }
  }

  lemma ToldIsAnswer(env: Env, s: State, a: Action, told: Answer)
    requires Answered(env, s, a) == Some(told) && Stores(a)
    ensures told == UploadAnswer(s.lists, a.tenant, UploadOf(a).list, Parsed(a.op.heading, a.op.data), true)
  {
  }

  /** The version just told is there to stay. */
  lemma {:induction false} ToldStays(env: Env, actions: seq<Action>, k: nat, tenant: string, list: string, v: int)
    requires k < |actions| && v == Times(env, actions[..k], Uploading(env, tenant, list)) + 1
    requires Uploading(env, tenant, list)(Run(env, actions[..k]), actions[k])
    ensures RowsOf(Run(env, actions), tenant, list, v)
      == RowsOf(Step(env, Run(env, actions[..k]), actions[k]), tenant, list, v)
  {
    assert actions[..k + 1][..k] == actions[..k];
    VersionStays(env, actions, k + 1, tenant, list, v);
  }

  /** In every interleaved run, failed uploads included, the n-th upload of a list that is answered
      with 200 is told version n and the number of entries that this version holds, which is not zero,
      then and ever after. */
  lemma {:induction false} VersionsToldAreConsecutive(env: Env, actions: seq<Action>, k: nat, a: Action, told: Answer)
    requires k < |actions| && a == actions[k]
    requires Answered(env, Run(env, actions[..k]), a) == Some(told) && told.ListUploaded?
    ensures told.version == Times(env, actions[..k], Uploading(env, a.tenant, told.list)) + 1
    ensures |RowsOf(Run(env, actions), a.tenant, told.list, told.version)| == told.entries > 0
  {
    ToldIsStored(env, Run(env, actions[..k]), a, a.tenant, told.list);
    VersionIsTold(env, actions[..k], a.tenant, told.list);
    ToldIsAnswer(env, Run(env, actions[..k]), a, told);
    AnswerTellsRows(env, Run(env, actions[..k]), a, UploadOf(a), told);
    ToldStays(env, actions, k, a.tenant, told.list, told.version);
  }

  /** At any time the list names a tenant is shown are those of its uploads answered with 200, each
      with how many there were; and version v of a list still holds the v-th of them, in order. */
  lemma {:induction false} HistoryIsKept(env: Env, actions: seq<Action>, s: State, tenant: string, list: string,
      v: int)
    requires s == Run(env, actions)
    ensures var told := Times(env, actions, Uploading(env, tenant, list));
      && (list in Grouped(s.lists, tenant) <==> told > 0)
      && (told > 0 ==> Grouped(s.lists, tenant)[list] == told)
      && |WatchlistRuns.History(Performed(actions), tenant, list)| == told
      && (1 <= v <= told ==> WatchlistRuns.VersionRows(s.lists, tenant, list, v)
                             == WatchlistRuns.History(Performed(actions), tenant, list)[v - 1])
  {
    ListsAreUploads(env, actions);
    VersionIsTold(env, actions, tenant, list);
    WatchlistRuns.NamesReportHistory(Performed(actions), tenant, list);
    WatchlistRuns.KeepsHistory(Performed(actions), tenant, list, v);
  }

  // ----- What screenings are handed -----

  ghost function FromList(list: string): Suspect -> bool {
    (s: Suspect) => s.list == list
  }

  ghost function SameSuspect(s: Suspect): Suspect {
    s
  }

  /** The suspects of one list, in order. */
  ghost function SuspectsFrom(suspects: seq<Suspect>, list: string): seq<Suspect> {
    Pick(FromList(list), SameSuspect, suspects)
  }

  /** What a screening sees of an uploaded entry. */
  ghost function Told(list: string, version: int): Entry -> Suspect {
    (e: Entry) => Suspect(e.name, e.kind, e.country, e.dob, list, version, e.identifiers, e.tags)
  }

  lemma {:induction false} SuspectsByList(rows: seq<Entry>, tenant: string, list: string, version: int)
    requires forall i :: 0 <= i < |rows| && Of(rows[i], tenant, list) && rows[i].active ==> rows[i].version == version
    ensures SuspectsFrom(Suspects(rows, tenant), list)
      == Mapped(Told(list, version), WatchlistRuns.InForceRows(rows, tenant, list))
    decreases |rows|
  {
    if |rows| > 0 {
      var n := |rows| - 1;
      SuspectsByList(rows[..n], tenant, list, version);
      if IsActive(tenant)(rows[n]) {
        PickAppend(FromList(list), SameSuspect, Suspects(rows[..n], tenant), SuspectOf(rows[n]));
      } else {
        assert Suspects(rows, tenant) == Suspects(rows[..n], tenant);
      }
    }
  }

  /** In every run, what a screening is handed of a list is the tenant's last upload of it that was
      answered with 200, in order and under its version; it is handed nothing else. */
  lemma {:induction false} SuspectsAreLastUploads(env: Env, actions: seq<Action>, tenant: string, list: string)
    ensures SuspectsFrom(Suspects(Run(env, actions).lists, tenant), list)
      == Mapped(Told(list, Times(env, actions, Uploading(env, tenant, list))),
                WatchlistRuns.LastUpload(Performed(actions), tenant, list))
  {
    var rows, ups := Run(env, actions).lists, Performed(actions);
    ListsAreUploads(env, actions);
    VersionIsTold(env, actions, tenant, list);
    WatchlistRuns.ActiveIsLastUpload(ups, tenant, list);
    WatchlistRuns.ActiveRowsCarryMaximum(ups);
    forall i | 0 <= i < |rows| && Of(rows[i], tenant, list) && rows[i].active
      ensures rows[i].version == MaxVersion(rows, tenant, list)
    {
      assert WatchlistRuns.VersionFits(rows, rows[i]);
    }
    SuspectsByList(rows, tenant, list, MaxVersion(rows, tenant, list));
  }
}
