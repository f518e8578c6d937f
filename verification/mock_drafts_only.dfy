/** `find_mock_drafts_only` (find_mock_drafts_only.py): gathers the user's
    mock drafts over three seasons, newest first, lets the user choose
    among the completed ones, reads the keepers, and imports the choice
    with the season in the notes. The drafts of each season are a
    parameter (`draftsOf`), as are the typed answers (`input`). */
module MockDraftsOnly {
  import opened Wrappers
  import opened Text
  import opened Sorting
  import opened Sleeper
  import opened Records
  import opened Selection
  import opened Importer
  import ManualEntry

  /** The seasons searched, in this order. */
  const Seasons: seq<int> := [2025, 2024, 2023]

  /** `mock_info`: the fields the script keeps of a mock draft (the days
      since it was created depend on the clock and are left out). */
  datatype MockInfo = MockInfo(
    draft_id: string,
    created: int,
    status: string,
    draft_type: string,
    season: int,
    league_id: Option<string>)

  /** The mock test: the type mentions `mock` or `practice`, or the draft
      belongs to no league. */
  predicate IsMock(d: DraftInfo) {
    var t := Lower(d.draft_type.GetOr(""));
    Contains(t, "mock") || d.league_id.None? || Contains(t, "practice")
  }

  function InfoOf(d: DraftInfo, season: int): MockInfo {
    MockInfo(d.draft_id, d.created.GetOr(0), Lower(d.status), Lower(d.draft_type.GetOr("")), season, d.league_id)
  }

  /** The mock drafts of one season, in the order the platform lists them. */
  function SeasonMocks(drafts: seq<DraftInfo>, season: int): seq<MockInfo> {
    if drafts == [] then []
    else
      var d := drafts[|drafts| - 1];
      SeasonMocks(drafts[..|drafts| - 1], season) + (if IsMock(d) then [InfoOf(d, season)] else [])
  }

  /** A season's list holds exactly its mock drafts. */
  lemma SeasonMocksSpec(drafts: seq<DraftInfo>, season: int)
    ensures |SeasonMocks(drafts, season)| <= |drafts|
    ensures forall m :: m in SeasonMocks(drafts, season) <==>
      exists k :: 0 <= k < |drafts| && IsMock(drafts[k]) && m == InfoOf(drafts[k], season)
  {
    SeasonMocksLength(drafts, season);
    forall m ensures m in SeasonMocks(drafts, season) <==>
      exists k :: 0 <= k < |drafts| && IsMock(drafts[k]) && m == InfoOf(drafts[k], season)
    {
      if m in SeasonMocks(drafts, season) {
        SeasonMocksFrom(drafts, season, m);
      }
      if exists k :: 0 <= k < |drafts| && IsMock(drafts[k]) && m == InfoOf(drafts[k], season) {
        var k :| 0 <= k < |drafts| && IsMock(drafts[k]) && m == InfoOf(drafts[k], season);
        SeasonMocksHas(drafts, season, k);
      }
    }
  }

  lemma {:induction false} SeasonMocksLength(drafts: seq<DraftInfo>, season: int)
    ensures |SeasonMocks(drafts, season)| <= |drafts|
  {
    if drafts != [] {
      SeasonMocksLength(drafts[..|drafts| - 1], season);
    }
  }

  /** Every mock draft of the season is listed. */
  lemma {:induction false} SeasonMocksHas(drafts: seq<DraftInfo>, season: int, k: int)
    requires 0 <= k < |drafts| && IsMock(drafts[k])
    ensures InfoOf(drafts[k], season) in SeasonMocks(drafts, season)
  {
    var init := drafts[..|drafts| - 1];
    if k < |init| {
      assert init[k] == drafts[k];
      SeasonMocksHas(init, season, k);
    }
  }

  /** Everything listed is the info of one of the season's mock drafts. */
  lemma {:induction false} SeasonMocksFrom(drafts: seq<DraftInfo>, season: int, m: MockInfo)
    requires m in SeasonMocks(drafts, season)
    ensures exists k :: 0 <= k < |drafts| && IsMock(drafts[k]) && m == InfoOf(drafts[k], season)
  {
    var init, d := drafts[..|drafts| - 1], drafts[|drafts| - 1];
    if m in SeasonMocks(init, season) {
      SeasonMocksFrom(init, season, m);
      var k :| 0 <= k < |init| && IsMock(init[k]) && m == InfoOf(init[k], season);
      assert drafts[k] == init[k];
    } else {
      assert IsMock(drafts[|drafts| - 1]) && m == InfoOf(d, season);
    }
  }

  /** `all_mock_drafts` before sorting: the seasons' lists one after
      another. */
  function MocksOf(seasons: seq<int>, draftsOf: int -> seq<DraftInfo>): seq<MockInfo> {
    if seasons == [] then []
    else
      var s := seasons[|seasons| - 1];
      MocksOf(seasons[..|seasons| - 1], draftsOf) + SeasonMocks(draftsOf(s), s)
  }

  /** The loops over the seasons and each season's drafts. */
  method CollectMocks(draftsOf: int -> seq<DraftInfo>) returns (all: seq<MockInfo>)
    ensures all == MocksOf(Seasons, draftsOf)
  {
    all := [];
    var i := 0;
    while i < |Seasons|
      invariant 0 <= i <= |Seasons|
      invariant all == MocksOf(Seasons[..i], draftsOf)
    {
      var season := Seasons[i];
      var drafts := draftsOf(season);
      var mocks: seq<MockInfo> := [];
      var j := 0;
      while j < |drafts|
        invariant 0 <= j <= |drafts|
        invariant mocks == SeasonMocks(drafts[..j], season)
      {
        assert drafts[..j + 1][..j] == drafts[..j];
        var d := drafts[j];
        if IsMock(d) {
          mocks := mocks + [InfoOf(d, season)];
        }
        j := j + 1;
      }
      assert drafts[..j] == drafts;
      assert Seasons[..i + 1][..i] == Seasons[..i];
      all := all + mocks;
      i := i + 1;
    }
    assert Seasons[..i] == Seasons;
  }

  function CreatedOf(m: MockInfo): int {
    m.created
  }

  /** `all_mock_drafts.sort(key=created, reverse=True)`: newest first,
      drafts created at the same moment kept in the order found. */
  function Newest(ms: seq<MockInfo>): (r: seq<MockInfo>)
    ensures multiset(r) == multiset(ms)
  {
    StableSort(ms, CreatedOf, Flip(IntLe))
  }

  /** The sorted list is a stable sort of the gathered one by creation
      time, newest first. */
  lemma NewestSorted(ms: seq<MockInfo>)
    ensures StablySorted(Newest(ms), ms, CreatedOf, Flip(IntLe))
    ensures forall i, j :: 0 <= i < j < |Newest(ms)| ==> Newest(ms)[i].created >= Newest(ms)[j].created
  {
    NumericOrders();
    FlipPreorder(IntLe);
    StableSortCorrect(ms, CreatedOf, Flip(IntLe));
    var r := Newest(ms);
    forall i, j | 0 <= i < j < |r| ensures r[i].created >= r[j].created {
      assert Flip(IntLe)(CreatedOf(r[i]), CreatedOf(r[j]));
    }
  }

  /** `[d for d in drafts if d['status'] == 'complete']`. */
  function Completed(ms: seq<MockInfo>): (r: seq<MockInfo>)
    ensures |r| <= |ms|
    ensures forall m :: m in r <==> m in ms && m.status == "complete"
  {
    Filter(ms, MockComplete)
  }

  predicate MockComplete(m: MockInfo) {
    m.status == "complete"
  }

  /** The text the import puts before the notes of an imported draft. */
  function Prefix(m: MockInfo): string {
    "Mock Draft - Season " + IntToString(m.season) + " - "
  }

  function ToImport(ms: seq<MockInfo>): (r: seq<Selected>)
    ensures |r| == |ms|
    ensures forall k :: 0 <= k < |ms| ==> r[k] == Selected(ms[k].draft_id, Prefix(ms[k]))
  {
    seq(|ms|, k requires 0 <= k < |ms| => Selected(ms[k].draft_id, Prefix(ms[k])))
  }

  /** Where the script stops: before importing, or after importing
      `imported` drafts. */
  datatype Outcome = NoMockDrafts | NoCompleted | InvalidSelection | NoneSelected | InputEnded | Done(imported: nat)

  datatype Plan = Stop(outcome: Outcome) | Import(selected: seq<MockInfo>, keepers: seq<string>)

  /** The selection prompt: the drafts chosen among `all`, the sorted mock
      drafts; `all` picks every completed one, numbers pick the drafts at
      those positions of the full list and then keep the completed ones. */
  function Choose(all: seq<MockInfo>, answer: string): (r: Option<seq<MockInfo>>)
    ensures r.Some? ==> forall m :: m in r.value ==> m in all && m.status == "complete"
    ensures ParseSelection(answer) == Some(All) ==> r == Some(Completed(all))
  {
    match ParseSelection(answer)
    case None => None
    case Some(All) => Some(Completed(all))
    case Some(Numbers(ix)) =>
      var picked := Pick(all, InRange(ix, |all|));
      assert forall m :: m in picked ==> m in all;
      Some(Completed(picked))
  }

  /** Numbers typed pick the drafts at those positions of the full list,
      in the order typed, skipping numbers out of range, and then keep
      only the completed ones. */
  lemma ChooseNumbers(all: seq<MockInfo>, ns: seq<int>)
    requires |ns| >= 1 && forall k :: 0 <= k < |ns| ==> ns[k] >= 1
    ensures Choose(all, Join(Numerals(ns), ',')) == Some(Completed(Pick(all, InRange(Decrement(ns), |all|))))
  {
    ParseSelectionNumbers(ns);
  }

  /** What the prompts decide, from the sorted mock drafts and the typed
      answers. */
  function MockPlan(all: seq<MockInfo>, input: seq<string>): (p: Plan)
    ensures p.Import? ==> p.selected != [] && |input| >= 2
    ensures p.Import? ==> forall m :: m in p.selected ==> m in all && m.status == "complete"
    ensures p.Import? ==> forall k :: 0 <= k < |p.keepers| ==> ManualEntry.Stripped(p.keepers[k])
    ensures p.Stop? ==> !p.outcome.Done?
  {
    if all == [] then Stop(NoMockDrafts)
    else if Completed(all) == [] then Stop(NoCompleted)
    else if input == [] then Stop(InputEnded)
    else
      match Choose(all, input[0])
      case None => Stop(InvalidSelection)
      case Some(selected) =>
        if selected == [] then Stop(NoneSelected)
        else
          match ManualEntry.ReadKeepers(input, 1, [])
          case None => Stop(InputEnded)
          case Some(found) =>
            ManualEntry.ReadKeepersSpec(input, 1, []);
            Import(selected, found.0)
  }

  /** `find_mock_drafts_only` from the search on; `selected` is what the
      function returns. */
  method FindMockDraftsOnly(importer: SleeperMockImporter, draftsOf: int -> seq<DraftInfo>, input: seq<string>,
                            picksOf: string -> seq<RawPick>, fetched: PlayerDirectory, now: DateTime)
    returns (outcome: Outcome, selected: seq<MockInfo>)
    modifies importer, importer.tracker
    ensures importer.tracker == old(importer.tracker)
    ensures var plan := MockPlan(Newest(MocksOf(Seasons, draftsOf)), input);
      plan.Stop? ==>
        && outcome == plan.outcome && selected == []
        && importer.allPlayers == old(importer.allPlayers)
        && importer.tracker.drafts == old(importer.tracker.drafts)
        && importer.tracker.file == old(importer.tracker.file)
    ensures var plan := MockPlan(Newest(MocksOf(Seasons, draftsOf)), input);
      plan.Import? ==>
        && selected == plan.selected
        && importer.allPlayers == DirectoryAfter(old(importer.allPlayers), fetched, ToImport(plan.selected), picksOf)
        && var added := ImportedAll(old(importer.allPlayers).GetOr(fetched), ToImport(plan.selected), plan.keepers, picksOf, now);
        && importer.tracker.drafts == old(importer.tracker.drafts) + added
        && outcome == Done(|added|)
  {
    var found := CollectMocks(draftsOf);
    selected := [];
    if found == [] {
      return NoMockDrafts, [];
    }
    var all := Newest(found);
    if Completed(all) == [] {
      return NoCompleted, [];
    }
    if input == [] {
      return InputEnded, [];
    }
    var chosen := Choose(all, input[0]);
    if chosen.None? {
      return InvalidSelection, [];
    }
    if chosen.value == [] {
      return NoneSelected, [];
    }
    var keepers := ManualEntry.ReadKeepersLoop(input, 1);
    if keepers.None? {
      return InputEnded, [];
    }
    var count := importer.ImportSelected(ToImport(chosen.value), keepers.value.0, picksOf, fetched, now);
    return Done(count), chosen.value;
  }
}
