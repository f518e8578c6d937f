/** `find_league_mocks` (find_league_mocks.py): finds the user's league
    whose name marks it as the 11:59ers league (or asks for one), lets the
    user choose among that league's drafts, newest first, reads the
    keepers, and imports the choice with the league in the notes. The
    leagues and the drafts the platform returns are parameters, as are the
    typed answers (`input`). */
module LeagueMocks {
  import opened Wrappers
  import opened Text
  import opened Sorting
  import opened Sleeper
  import opened Records
  import opened Selection
  import opened Importer
  import ManualEntry

  /** The league test: the lower-cased name mentions `11:59` or `eleven`. */
  predicate IsTarget(l: League) {
    Contains(Lower(l.name), "11:59") || Contains(Lower(l.name), "eleven")
  }

  /** The id of the last league that matches: the loop over the user's
      leagues keeps overwriting it and does not stop at the first. */
  function LastTarget(leagues: seq<League>): Option<string> {
    if leagues == [] then None
    else if IsTarget(leagues[|leagues| - 1]) then Some(leagues[|leagues| - 1].league_id)
    else LastTarget(leagues[..|leagues| - 1])
  }

  /** No league is found exactly when none matches. */
  lemma {:induction false} LastTargetNone(leagues: seq<League>)
    ensures LastTarget(leagues).None? <==> forall k :: 0 <= k < |leagues| ==> !IsTarget(leagues[k])
  {
    if leagues != [] {
      var n := |leagues| - 1;
      var init := leagues[..n];
      LastTargetNone(init);
      assert forall k :: 0 <= k < n ==> init[k] == leagues[k];
    }
  }

  /** A league found is the last one that matches: `k` is its index. */
  lemma {:induction false} LastTargetLast(leagues: seq<League>) returns (k: int)
    requires LastTarget(leagues).Some?
    ensures 0 <= k < |leagues| && IsTarget(leagues[k])
    ensures leagues[k].league_id == LastTarget(leagues).value
    ensures forall j :: k < j < |leagues| ==> !IsTarget(leagues[j])
  {
    var n := |leagues| - 1;
    if IsTarget(leagues[n]) {
      k := n;
    } else {
      var init := leagues[..n];
      k := LastTargetLast(init);
      assert leagues[k] == init[k];
      assert forall j :: k < j < n ==> leagues[j] == init[j];
    }
  }

  /** The loop over the user's leagues. */
  method FindTarget(leagues: seq<League>) returns (target: Option<string>)
    ensures target == LastTarget(leagues)
  {
    target := None;
    var i := 0;
    while i < |leagues|
      invariant 0 <= i <= |leagues|
      invariant target == LastTarget(leagues[..i])
    {
      assert leagues[..i + 1][..i] == leagues[..i];
      if IsTarget(leagues[i]) {
        target := Some(leagues[i].league_id);
      }
      i := i + 1;
    }
    assert leagues[..i] == leagues;
  }

  /** Where the script stops: before importing, or after importing
      `imported` drafts. */
  datatype Outcome =
    | NoLeagues | LeagueNotANumber | LeagueOutOfRange | NoLeagueDrafts
    | InvalidSelection | NoneSelected | InputEnded | Done(imported: nat)

  /** The league id to search, and the index of the next
      answer. When no league matched (or the match has an empty id) the
      user picks one by its 1-based number. */
  function TargetLeague(leagues: seq<League>, input: seq<string>): (r: Result<(string, nat), Outcome>)
    requires leagues != []
    ensures r.Ok? ==> r.value.1 <= 1 && r.value.1 <= |input|
    ensures r.Ok? ==> exists k :: 0 <= k < |leagues| && leagues[k].league_id == r.value.0
    ensures r.Err? ==> r.error in {LeagueNotANumber, LeagueOutOfRange, InputEnded}
  {
    var found := LastTarget(leagues);
    if found.Some? && found.value != "" then
      assert exists k :: 0 <= k < |leagues| && leagues[k].league_id == found.value by {
        var k := LastTargetLast(leagues);
      }
      Ok((found.value, 0))
    else if input == [] then Err(InputEnded)
    else
      match ParseInt(Strip(input[0]))
      case None => Err(LeagueNotANumber)
      case Some(v) =>
        if 0 <= v - 1 < |leagues| then Ok((leagues[v - 1].league_id, 1)) else Err(LeagueOutOfRange)
  }

  /** The league search and the fallback prompt. */
  method ChooseLeague(leagues: seq<League>, input: seq<string>) returns (r: Result<(string, nat), Outcome>)
    requires leagues != []
    ensures r == TargetLeague(leagues, input)
  {
    var found := FindTarget(leagues);
    if found.Some? && found.value != "" {
      return Ok((found.value, 0));
    }
    if input == [] {
      return Err(InputEnded);
    }
    var choice := ParseInt(Strip(input[0]));
    if choice.None? {
      return Err(LeagueNotANumber);
    }
    var idx := choice.value - 1;
    if !(0 <= idx < |leagues|) {
      return Err(LeagueOutOfRange);
    }
    return Ok((leagues[idx].league_id, 1));
  }

  /** The drafts of the target league, in the order listed. */
  function InLeague(drafts: seq<DraftInfo>, id: string): (r: seq<DraftInfo>)
    ensures |r| <= |drafts|
    ensures forall d :: d in r <==> d in drafts && d.league_id == Some(id)
  {
    if drafts == [] then []
    else (if drafts[0].league_id == Some(id) then [drafts[0]] else []) + InLeague(drafts[1..], id)
  }

  function CreatedAt(d: DraftInfo): int {
    d.created.GetOr(0)
  }

  /** The sort by creation time: newest first, drafts created at the same moment kept in
      the order listed. */
  function NewestDrafts(ds: seq<DraftInfo>): (r: seq<DraftInfo>)
    ensures multiset(r) == multiset(ds)
  {
    StableSort(ds, CreatedAt, Flip(IntLe))
  }

  lemma NewestDraftsSorted(ds: seq<DraftInfo>)
    ensures StablySorted(NewestDrafts(ds), ds, CreatedAt, Flip(IntLe))
    ensures forall i, j :: 0 <= i < j < |NewestDrafts(ds)| ==> CreatedAt(NewestDrafts(ds)[i]) >= CreatedAt(NewestDrafts(ds)[j])
  {
    NumericOrders();
    FlipPreorder(IntLe);
    StableSortCorrect(ds, CreatedAt, Flip(IntLe));
    var r := NewestDrafts(ds);
    forall i, j | 0 <= i < j < |r| ensures CreatedAt(r[i]) >= CreatedAt(r[j]) {
      assert Flip(IntLe)(CreatedAt(r[i]), CreatedAt(r[j]));
    }
  }

  /** The drafts offered: the target league's, newest first. */
  function LeagueDrafts(allDrafts: seq<DraftInfo>, id: string): (r: seq<DraftInfo>)
    ensures forall d :: d in r <==> d in allDrafts && d.league_id == Some(id)
  {
    var r := NewestDrafts(InLeague(allDrafts, id));
    assert forall d :: d in r <==> d in multiset(r);
    r
  }

  /** The selection prompt: `all` picks the completed drafts; numbers pick the
      drafts at those positions whatever their status. */
  function ChooseDrafts(drafts: seq<DraftInfo>, answer: string): (r: Option<seq<DraftInfo>>)
    ensures r.Some? ==> forall d :: d in r.value ==> d in drafts
    ensures ParseSelection(answer) == Some(All) ==> r == Some(CompletedDrafts(drafts))
    ensures r.None? <==> ParseSelection(answer).None?
  {
    match ParseSelection(answer)
    case None => None
    case Some(All) => Some(CompletedDrafts(drafts))
    case Some(Numbers(ix)) => Some(Pick(drafts, InRange(ix, |drafts|)))
  }

  /** Numbers typed pick the drafts at those positions, in the order
      typed, skipping numbers out of range; unlike `all`, an incomplete
      draft can be picked this way. */
  lemma ChooseDraftsNumbers(drafts: seq<DraftInfo>, ns: seq<int>)
    requires |ns| >= 1 && forall k :: 0 <= k < |ns| ==> ns[k] >= 1
    ensures ChooseDrafts(drafts, Join(Numerals(ns), ',')) == Some(Pick(drafts, InRange(Decrement(ns), |drafts|)))
  {
    ParseSelectionNumbers(ns);
  }

  /** The text the import puts before the notes of an imported draft. */
  const LeaguePrefix: string := "11:59ers League - "

  function ToImport(ds: seq<DraftInfo>): (r: seq<Selected>)
    ensures |r| == |ds|
    ensures forall k :: 0 <= k < |ds| ==> r[k] == Selected(ds[k].draft_id, LeaguePrefix)
  {
    seq(|ds|, k requires 0 <= k < |ds| => Selected(ds[k].draft_id, LeaguePrefix))
  }

  datatype Plan = Stop(outcome: Outcome) | Import(selected: seq<DraftInfo>, keepers: seq<string>)

  /** What the prompts decide, from the leagues, the user's drafts and the
      typed answers. */
  function LeaguePlan(leagues: seq<League>, allDrafts: seq<DraftInfo>, input: seq<string>): (p: Plan)
    ensures p.Import? ==> leagues != [] && TargetLeague(leagues, input).Ok? && p.selected != []
    ensures p.Import? ==> forall d :: d in p.selected ==>
      d in allDrafts && d.league_id == Some(TargetLeague(leagues, input).value.0)
    ensures p.Import? ==> forall k :: 0 <= k < |p.keepers| ==> ManualEntry.Stripped(p.keepers[k])
    ensures p.Stop? ==> !p.outcome.Done?
  {
    if leagues == [] then Stop(NoLeagues)
    else
      match TargetLeague(leagues, input)
      case Err(o) => Stop(o)
      case Ok(found) => DraftPlan(LeagueDrafts(allDrafts, found.0), input, found.1)
  }

  /** The draft listing and selection: from the league's drafts, newest first, and the index
      of the next answer. */
  function DraftPlan(drafts: seq<DraftInfo>, input: seq<string>, pos: nat): (p: Plan)
    ensures p.Import? ==> p.selected != [] && forall d :: d in p.selected ==> d in drafts
    ensures p.Import? ==> forall k :: 0 <= k < |p.keepers| ==> ManualEntry.Stripped(p.keepers[k])
    ensures p.Stop? ==> !p.outcome.Done?
  {
    if drafts == [] then Stop(NoLeagueDrafts)
    else if pos >= |input| then Stop(InputEnded)
    else
      match ChooseDrafts(drafts, input[pos])
      case None => Stop(InvalidSelection)
      case Some(selected) =>
        if selected == [] then Stop(NoneSelected)
        else
          match ManualEntry.ReadKeepers(input, pos + 1, [])
          case None => Stop(InputEnded)
          case Some(keepers) =>
            ManualEntry.ReadKeepersSpec(input, pos + 1, []);
            Import(selected, keepers.0)
  }

  /** `find_league_mocks` from fetching the leagues on. */
  method FindLeagueMocks(importer: SleeperMockImporter, leagues: seq<League>, allDrafts: seq<DraftInfo>,
                         input: seq<string>, picksOf: string -> seq<RawPick>, fetched: PlayerDirectory,
                         now: DateTime)
    returns (outcome: Outcome)
    modifies importer, importer.tracker
    ensures importer.tracker == old(importer.tracker)
    ensures var plan := LeaguePlan(leagues, allDrafts, input);
      plan.Stop? ==>
        && outcome == plan.outcome
        && importer.allPlayers == old(importer.allPlayers)
        && importer.tracker.drafts == old(importer.tracker.drafts)
        && importer.tracker.file == old(importer.tracker.file)
    ensures var plan := LeaguePlan(leagues, allDrafts, input);
      plan.Import? ==>
        && importer.allPlayers == DirectoryAfter(old(importer.allPlayers), fetched, ToImport(plan.selected), picksOf)
        && var added := ImportedAll(old(importer.allPlayers).GetOr(fetched), ToImport(plan.selected), plan.keepers, picksOf, now);
        && importer.tracker.drafts == old(importer.tracker.drafts) + added
        && outcome == Done(|added|)
  {
    if leagues == [] {
      return NoLeagues;
    }
    var target := ChooseLeague(leagues, input);
    if target.Err? {
      return target.error;
    }
    var id := target.value.0;
    var pos := target.value.1;
    var drafts := LeagueDrafts(allDrafts, id);
    if drafts == [] {
      return NoLeagueDrafts;
    }
    if pos >= |input| {
      return InputEnded;
    }
    var chosen := ChooseDrafts(drafts, input[pos]);
    if chosen.None? {
      return InvalidSelection;
    }
    if chosen.value == [] {
      return NoneSelected;
    }
    var keepers := ManualEntry.ReadKeepersLoop(input, pos + 1);
    if keepers.None? {
      return InputEnded;
    }
    var count := importer.ImportSelected(ToImport(chosen.value), keepers.value.0, picksOf, fetched, now);
    outcome := Done(count);
  }
}
