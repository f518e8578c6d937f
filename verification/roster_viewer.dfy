/** `get_roster_data` and the by-position view of `display_roster_data`
    (scripts/utilities/roster_viewer.py): picks the league (the Grundle
    league, else the one chosen by number, else the first), the first
    season with draft picks among the current one and the two before it,
    and lists every owned, non-empty roster's known players with their
    draft round and pick. The user lookup, the API replies and the typed
    league number are parameters. */
module RosterViewer {
  import opened Wrappers
  import opened Text
  import opened Sorting
  import opened Sleeper
  import opened PickMaps
  import Grundle

  // ----- the league -----

  /** The league choice: the first Grundle league; without one, the league at the
      1-based number typed, or the first league when the number is out of
      range or not a number. */
  function ChooseLeague(leagues: seq<League>, choice: string): (l: League)
    requires leagues != []
    ensures l in leagues
    ensures Grundle.FirstGrundle(leagues).Some? ==> l == Grundle.FirstGrundle(leagues).value
    ensures Grundle.FirstGrundle(leagues).None? && ParseInt(choice).None? ==> l == leagues[0]
  {
    match Grundle.FirstGrundle(leagues)
    case Some(g) => g
    case None =>
      match ParseInt(choice)
      case None => leagues[0]
      case Some(n) => if 0 <= n - 1 < |leagues| then leagues[n - 1] else leagues[0]
  }

  /** Typing a number picks that league when it is in range and the first
      league otherwise. */
  lemma ChooseLeagueNumber(leagues: seq<League>, n: int)
    requires leagues != [] && Grundle.FirstGrundle(leagues).None?
    ensures 1 <= n <= |leagues| ==> ChooseLeague(leagues, IntToString(n)) == leagues[n - 1]
    ensures !(1 <= n <= |leagues|) ==> ChooseLeague(leagues, IntToString(n)) == leagues[0]
  {
    ParseIntRoundTrip(n);
    ChooseLeagueParsed(leagues, IntToString(n), n);
  }

  lemma ChooseLeagueParsed(leagues: seq<League>, choice: string, n: int)
    requires leagues != [] && Grundle.FirstGrundle(leagues).None? && ParseInt(choice) == Some(n)
    ensures 1 <= n <= |leagues| ==> ChooseLeague(leagues, choice) == leagues[n - 1]
    ensures !(1 <= n <= |leagues|) ==> ChooseLeague(leagues, choice) == leagues[0]
  {
    assert ChooseLeague(leagues, choice) == if 0 <= n - 1 < |leagues| then leagues[n - 1] else leagues[0];
  }

  // ----- the draft picks -----

  /** `[season, str(int(season) - 1), str(int(season) - 2)]`. */
  function SeasonsToTry(season: int): (r: seq<string>)
    ensures |r| == 3
  {
    [IntToString(season), IntToString(season - 1), IntToString(season - 2)]
  }

  /** The seasons tried read back as this season and the two before, newest
      first. */
  lemma SeasonsToTrySpec(season: int)
    ensures ParseInt(SeasonsToTry(season)[0]) == Some(season)
    ensures ParseInt(SeasonsToTry(season)[1]) == Some(season - 1)
    ensures ParseInt(SeasonsToTry(season)[2]) == Some(season - 2)
  {
    ParseIntRoundTrip(season);
    ParseIntRoundTrip(season - 1);
    ParseIntRoundTrip(season - 2);
  }

  /** A season yields picks when it has a draft and the first draft listed
      has picks. */
  function SeasonPicks(s: string, draftsOf: string -> seq<DraftInfo>, picksOf: string -> seq<RawPick>): seq<RawPick> {
    var drafts := draftsOf(s);
    if drafts == [] then [] else picksOf(drafts[0].draft_id)
  }

  /** The picks of the first season that yields any, `[]` when none does. */
  function FirstPicks(seasons: seq<string>, draftsOf: string -> seq<DraftInfo>, picksOf: string -> seq<RawPick>): seq<RawPick> {
    if seasons == [] then []
    else if SeasonPicks(seasons[0], draftsOf, picksOf) != [] then SeasonPicks(seasons[0], draftsOf, picksOf)
    else FirstPicks(seasons[1..], draftsOf, picksOf)
  }

  /** The picks used come from the first season, in the order tried, that
      has any. */
  lemma {:induction false} FirstPicksSpec(seasons: seq<string>, draftsOf: string -> seq<DraftInfo>, picksOf: string -> seq<RawPick>)
      returns (k: int)
    ensures FirstPicks(seasons, draftsOf, picksOf) == [] <==>
      forall j :: 0 <= j < |seasons| ==> SeasonPicks(seasons[j], draftsOf, picksOf) == []
    ensures FirstPicks(seasons, draftsOf, picksOf) != [] ==>
      && 0 <= k < |seasons|
      && FirstPicks(seasons, draftsOf, picksOf) == SeasonPicks(seasons[k], draftsOf, picksOf)
      && forall j :: 0 <= j < k ==> SeasonPicks(seasons[j], draftsOf, picksOf) == []
  {
    k := 0;
    if seasons != [] && SeasonPicks(seasons[0], draftsOf, picksOf) == [] {
      var k' := FirstPicksSpec(seasons[1..], draftsOf, picksOf);
      k := k' + 1;
      assert forall j :: 1 <= j < |seasons| ==> seasons[j] == seasons[1..][j - 1];
    }
  }

  /** The loop over the seasons to try, which stops at the first season with picks. */
  method FindDraftPicks(seasons: seq<string>, draftsOf: string -> seq<DraftInfo>, picksOf: string -> seq<RawPick>)
      returns (picks: seq<RawPick>)
    ensures picks == FirstPicks(seasons, draftsOf, picksOf)
  {
    picks := [];
    var i := 0;
    while i < |seasons|
      invariant 0 <= i <= |seasons|
      invariant FirstPicks(seasons, draftsOf, picksOf) == FirstPicks(seasons[i..], draftsOf, picksOf)
      invariant picks == []
    {
      var drafts := draftsOf(seasons[i]);
      if drafts != [] {
        picks := picksOf(drafts[0].draft_id);
        if picks != [] {
          break;
        }
      }
      assert seasons[i..][1..] == seasons[i + 1..];
      i := i + 1;
    }
  }

  // ----- the pick map -----

  /** Where a player was drafted: `round`, and `pick_no`, else
      `draft_slot`, else 'N/A'. */
  datatype PickSpot = PickSpot(round: Slot, pick: Slot)

  function ViewerRef(p: RawPick): (r: PickSpot)
    ensures r.round == SlotOf(p.round)
    ensures p.pick_no.Some? ==> r.pick == Num(p.pick_no.value)
    ensures p.pick_no.None? ==> r.pick == SlotOf(p.draft_slot)
  {
    PickSpot(SlotOf(p.round), if p.pick_no.Some? then Num(p.pick_no.value) else SlotOf(p.draft_slot))
  }

  function ViewerPickMap(picks: seq<RawPick>): map<string, PickSpot> {
    PickMap(picks, TruthyPlayerId, ViewerRef)
  }

  // ----- the players of a roster -----

  datatype ViewerPlayer = ViewerPlayer(id: string, name: string, position: string, draft_round: Slot, draft_pick: Slot, team: string)

  /** `player_map.get(player_id)` is truthy: known and not an empty entry. */
  predicate Known(players: PlayerDirectory, id: string) {
    id in players && !IsEmptyInfo(players[id])
  }

  function PlayerOf(id: string, info: PlayerInfo, pickMap: map<string, PickSpot>): (p: ViewerPlayer)
    ensures p.id == id && p.position == DisplayPosition(info)
    ensures id !in pickMap ==> p.draft_round == NA && p.draft_pick == NA
  {
    var spot := if id in pickMap then pickMap[id] else PickSpot(NA, NA);
    ViewerPlayer(id, info.full_name.GetOr("Unknown Player"), DisplayPosition(info), spot.round, spot.pick, info.team.GetOr("FA"))
  }

  /** `player_details_list`: the known players, in roster order. */
  function KnownPlayers(ids: seq<string>, players: PlayerDirectory, pickMap: map<string, PickSpot>): seq<ViewerPlayer> {
    if ids == [] then []
    else
      var id := ids[|ids| - 1];
      KnownPlayers(ids[..|ids| - 1], players, pickMap)
        + (if Known(players, id) then [PlayerOf(id, players[id], pickMap)] else [])
  }

  /** Players the directory does not know are dropped; every known player
      is listed, with its own entry. */
  lemma {:induction false} KnownPlayersSpec(ids: seq<string>, players: PlayerDirectory, pickMap: map<string, PickSpot>)
    ensures |KnownPlayers(ids, players, pickMap)| <= |ids|
    ensures forall p :: p in KnownPlayers(ids, players, pickMap) ==>
      Known(players, p.id) && p == PlayerOf(p.id, players[p.id], pickMap) && p.id in ids
    ensures forall k :: 0 <= k < |ids| && Known(players, ids[k]) ==>
      PlayerOf(ids[k], players[ids[k]], pickMap) in KnownPlayers(ids, players, pickMap)
  {
    if ids != [] {
      var init := ids[..|ids| - 1];
      KnownPlayersSpec(init, players, pickMap);
      assert forall k :: 0 <= k < |init| ==> ids[k] == init[k];
    }
  }

  /** The loop over one roster's players. */
  method CollectPlayers(ids: seq<string>, players: PlayerDirectory, pickMap: map<string, PickSpot>) returns (list: seq<ViewerPlayer>)
    ensures list == KnownPlayers(ids, players, pickMap)
  {
    list := [];
    var i := 0;
    while i < |ids|
      invariant 0 <= i <= |ids|
      invariant list == KnownPlayers(ids[..i], players, pickMap)
    {
      assert ids[..i + 1][..i] == ids[..i];
      var id := ids[i];
      if id in players {
        var info := players[id];
        if !IsEmptyInfo(info) {
          list := list + [PlayerOf(id, info, pickMap)];
        }
      }
      i := i + 1;
    }
    assert ids[..i] == ids;
  }

  function PositionOf(p: ViewerPlayer): string {
    p.position
  }

  /** `sorted(player_details_list, key=position)`. */
  function ByPositionOrder(list: seq<ViewerPlayer>): (r: seq<ViewerPlayer>)
    ensures multiset(r) == multiset(list)
  {
    StableSort(list, PositionOf, StrLe)
  }

  lemma ByPositionOrderSorted(list: seq<ViewerPlayer>)
    ensures StablySorted(ByPositionOrder(list), list, PositionOf, StrLe)
    ensures forall i, j :: 0 <= i < j < |ByPositionOrder(list)| ==>
      StrLe(ByPositionOrder(list)[i].position, ByPositionOrder(list)[j].position)
  {
    StrLePreorder();
    StableSortCorrect(list, PositionOf, StrLe);
  }

  // ----- the teams -----

  datatype ViewerTeam = ViewerTeam(owner_id: string, owner_name: string, players: seq<ViewerPlayer>)

  /** A roster is listed when it has an owner and a non-empty player list. */
  predicate Listed(r: Roster) {
    HasOwner(r) && RosterPlayers(r) != []
  }

  function TeamOf(r: Roster, users: seq<User>, players: PlayerDirectory, pickMap: map<string, PickSpot>): ViewerTeam
    requires HasOwner(r)
  {
    var owner := r.owner_id.value;
    ViewerTeam(owner, Grundle.OwnerName(UserMap(users), owner), ByPositionOrder(KnownPlayers(RosterPlayers(r), players, pickMap)))
  }

  /** `teams_data` before sorting. */
  function Teams(rosters: seq<Roster>, users: seq<User>, players: PlayerDirectory, pickMap: map<string, PickSpot>): seq<ViewerTeam> {
    if rosters == [] then []
    else
      var last := rosters[|rosters| - 1];
      Teams(rosters[..|rosters| - 1], users, players, pickMap)
        + (if Listed(last) then [TeamOf(last, users, players, pickMap)] else [])
  }

  /** Every team comes from a listed roster and every listed roster gives a
      team. */
  lemma {:induction false} TeamsSpec(rosters: seq<Roster>, users: seq<User>, players: PlayerDirectory, pickMap: map<string, PickSpot>)
    ensures |Teams(rosters, users, players, pickMap)| <= |rosters|
    ensures forall t :: t in Teams(rosters, users, players, pickMap) ==>
      exists k :: 0 <= k < |rosters| && Listed(rosters[k]) && t == TeamOf(rosters[k], users, players, pickMap)
    ensures forall k :: 0 <= k < |rosters| && Listed(rosters[k]) ==>
      TeamOf(rosters[k], users, players, pickMap) in Teams(rosters, users, players, pickMap)
  {
    if rosters != [] {
      var init := rosters[..|rosters| - 1];
      TeamsSpec(init, users, players, pickMap);
      assert forall k :: 0 <= k < |init| ==> rosters[k] == init[k];
    }
  }

  /** The loop over the rosters. */
  method CollectTeams(rosters: seq<Roster>, users: seq<User>, players: PlayerDirectory, pickMap: map<string, PickSpot>)
      returns (teams: seq<ViewerTeam>)
    ensures teams == Teams(rosters, users, players, pickMap)
  {
    teams := [];
    var i := 0;
    while i < |rosters|
      invariant 0 <= i <= |rosters|
      invariant teams == Teams(rosters[..i], users, players, pickMap)
    {
      assert rosters[..i + 1][..i] == rosters[..i];
      var roster := rosters[i];
      if HasOwner(roster) && RosterPlayers(roster) != [] {
        var list := CollectPlayers(RosterPlayers(roster), players, pickMap);
        var owner := roster.owner_id.value;
        teams := teams + [ViewerTeam(owner, Grundle.OwnerName(UserMap(users), owner), ByPositionOrder(list))];
      }
      i := i + 1;
    }
    assert rosters[..i] == rosters;
  }

  function OwnerNameOf(t: ViewerTeam): string {
    t.owner_name
  }


  datatype RosterReport = RosterReport(league_name: string, teams: seq<ViewerTeam>)

  /** What `get_roster_data` returns for a found user: `None` when the user
      has no leagues in the season. */
  function RosterReportOf(leagues: seq<League>, choice: string, rostersOf: string -> seq<Roster>, usersOf: string -> seq<User>,
                          players: PlayerDirectory, season: int, draftsOf: string -> seq<DraftInfo>,
                          picksOf: string -> seq<RawPick>): (r: Option<RosterReport>)
    ensures r.None? <==> leagues == []
    ensures r.Some? ==> r.value.league_name == ChooseLeague(leagues, choice).name
    ensures r.Some? ==> forall i, j :: 0 <= i < j < |r.value.teams| ==> StrLe(r.value.teams[i].owner_name, r.value.teams[j].owner_name)
  {
    if leagues == [] then None
    else
      var league := ChooseLeague(leagues, choice);
      var pickMap := ViewerPickMap(FirstPicks(SeasonsToTry(season), draftsOf, picksOf));
      var teams := Teams(rostersOf(league.league_id), usersOf(league.league_id), players, pickMap);
      SortByNameOrder(teams, OwnerNameOf);
      Some(RosterReport(league.name, SortByName(teams, OwnerNameOf)))
  }

  /** `get_roster_data` after the user lookup. */
  method GetRosterData(leagues: seq<League>, choice: string, rostersOf: string -> seq<Roster>, usersOf: string -> seq<User>,
                       players: PlayerDirectory, season: int, draftsOf: string -> seq<DraftInfo>,
                       picksOf: string -> seq<RawPick>) returns (r: Option<RosterReport>)
    ensures r == RosterReportOf(leagues, choice, rostersOf, usersOf, players, season, draftsOf, picksOf)
  {
    if leagues == [] {
      return None;
    }
    var league := ChooseLeague(leagues, choice);
    var picks := FindDraftPicks(SeasonsToTry(season), draftsOf, picksOf);
    var pickMap := BuildPickMap(picks, TruthyPlayerId, ViewerRef);
    var teams := CollectTeams(rostersOf(league.league_id), usersOf(league.league_id), players, pickMap);
    r := Some(RosterReport(league.name, SortByName(teams, OwnerNameOf)));
  }

  // ----- the by-position view -----

  datatype FlatPlayer = FlatPlayer(owner: string, name: string, position: string, team: string, draft_round: Slot, draft_pick: Slot)

  function Flatten(p: ViewerPlayer, owner: string): FlatPlayer {
    FlatPlayer(owner, p.name, p.position, p.team, p.draft_round, p.draft_pick)
  }

  /** `all_players`: every team's players in turn. */
  function AllPlayers(teams: seq<ViewerTeam>): seq<FlatPlayer> {
    if teams == [] then []
    else
      var t := teams[|teams| - 1];
      AllPlayers(teams[..|teams| - 1]) + seq(|t.players|, i requires 0 <= i < |t.players| => Flatten(t.players[i], t.owner_name))
  }

  /** Every listed player of every team appears, under its owner. */
  lemma {:induction false} AllPlayersSpec(teams: seq<ViewerTeam>)
    ensures forall k, i :: 0 <= k < |teams| && 0 <= i < |teams[k].players| ==>
      Flatten(teams[k].players[i], teams[k].owner_name) in AllPlayers(teams)
    ensures forall x :: x in AllPlayers(teams) ==>
      exists k, i :: 0 <= k < |teams| && 0 <= i < |teams[k].players| && x == Flatten(teams[k].players[i], teams[k].owner_name)
  {
    if teams != [] {
      var init := teams[..|teams| - 1];
      var t := teams[|teams| - 1];
      AllPlayersSpec(init);
      var tail := seq(|t.players|, i requires 0 <= i < |t.players| => Flatten(t.players[i], t.owner_name));
      assert forall k :: 0 <= k < |init| ==> teams[k] == init[k];
      forall i | 0 <= i < |t.players| ensures Flatten(t.players[i], t.owner_name) in AllPlayers(teams) {
        assert tail[i] == Flatten(t.players[i], t.owner_name);
      }
      forall x | x in AllPlayers(teams)
        ensures exists k, i :: 0 <= k < |teams| && 0 <= i < |teams[k].players| && x == Flatten(teams[k].players[i], teams[k].owner_name)
      {
        if x !in AllPlayers(init) {
          var i :| 0 <= i < |tail| && tail[i] == x;
          assert x == Flatten(teams[|teams| - 1].players[i], teams[|teams| - 1].owner_name);
        }
      }
    }
  }

  /** The nested loop over the teams and their players. */
  method CollectAllPlayers(teams: seq<ViewerTeam>) returns (all: seq<FlatPlayer>)
    ensures all == AllPlayers(teams)
  {
    all := [];
    var k := 0;
    while k < |teams|
      invariant 0 <= k <= |teams|
      invariant all == AllPlayers(teams[..k])
    {
      assert teams[..k + 1][..k] == teams[..k];
      var t := teams[k];
      ghost var start := all;
      var i := 0;
      while i < |t.players|
        invariant 0 <= i <= |t.players|
        invariant all == start + seq(i, j requires 0 <= j < i => Flatten(t.players[j], t.owner_name))
      {
        all := all + [Flatten(t.players[i], t.owner_name)];
        i := i + 1;
      }
      k := k + 1;
    }
    assert teams[..k] == teams;
  }

  function FlatPosition(p: FlatPlayer): string {
    p.position
  }

  function PositionList(all: seq<FlatPlayer>): (r: seq<string>)
    ensures |r| == |all|
    ensures forall i :: 0 <= i < |all| ==> r[i] == all[i].position
  {
    seq(|all|, i requires 0 <= i < |all| => all[i].position)
  }

  function Same(s: string): string {
    s
  }

  /** `sorted(set(p['position'] for p in all_players))`. */
  function Headings(all: seq<FlatPlayer>): (r: seq<string>)
    ensures multiset(r) == multiset(Dedup(PositionList(all)))
  {
    StableSort(Dedup(PositionList(all)), Same, StrLe)
  }

  /** The headings are the positions that occur, each once, in increasing
      order. */
  lemma HeadingsSpec(all: seq<FlatPlayer>)
    ensures forall s :: s in Headings(all) <==> exists p :: p in all && p.position == s
    ensures forall i, j :: 0 <= i < j < |Headings(all)| ==> StrLe(Headings(all)[i], Headings(all)[j]) && Headings(all)[i] != Headings(all)[j]
  {
    var d := Dedup(PositionList(all));
    var h := Headings(all);
    StrLePreorder();
    StableSortCorrect(d, Same, StrLe);
    DedupDistinct(PositionList(all));
    PermutationDistinct(d, h);
    forall s ensures s in h <==> exists p :: p in all && p.position == s {
      assert s in h <==> s in multiset(h);
      assert s in d <==> s in multiset(d);
      if s in PositionList(all) {
        var i :| 0 <= i < |all| && PositionList(all)[i] == s;
        assert all[i] in all;
      }
    }
  }

  /** `[p for p in all_players if p['position'] == pos]`. */
  function OfPosition(all: seq<FlatPlayer>, pos: string): (r: seq<FlatPlayer>)
    ensures forall x :: multiset(r)[x] == if x.position == pos then multiset(all)[x] else 0
  {
    if all == [] then []
    else
      assert all == [all[0]] + all[1..];
      (if all[0].position == pos then [all[0]] else []) + OfPosition(all[1..], pos)
  }

  /** The round a player sorts by: 999 for 'N/A'. */
  function RoundKey(p: FlatPlayer): int {
    if p.draft_round.NA? then 999 else p.draft_round.n
  }

  function RoundNameKey(p: FlatPlayer): (int, string) {
    (RoundKey(p), p.name)
  }

  const RoundNameLe: ((int, string), (int, string)) -> bool := Lex(IntLe, StrLe)

  datatype PositionGroup = PositionGroup(position: string, players: seq<FlatPlayer>)

  /** The players under one heading, by round then name. */
  function GroupOf(all: seq<FlatPlayer>, pos: string): PositionGroup {
    PositionGroup(pos, StableSort(OfPosition(all, pos), RoundNameKey, RoundNameLe))
  }

  /** The `by_position` view: one group per heading. */
  function ByPosition(all: seq<FlatPlayer>): (r: seq<PositionGroup>)
    ensures |r| == |Headings(all)|
    ensures forall k :: 0 <= k < |r| ==> r[k] == GroupOf(all, Headings(all)[k])
  {
    var h := Headings(all);
    seq(|h|, k requires 0 <= k < |h| => GroupOf(all, h[k]))
  }

  /** Each group holds exactly the players of its position, as often as
      they occur. */
  lemma GroupCount(all: seq<FlatPlayer>, pos: string)
    ensures forall x :: multiset(GroupOf(all, pos).players)[x] == if x.position == pos then multiset(all)[x] else 0
  {
  }

  /** A player is in a group exactly when it is of the group's position. */
  lemma InGroup(all: seq<FlatPlayer>, pos: string, x: FlatPlayer)
    ensures x in GroupOf(all, pos).players <==> x in all && x.position == pos
  {
    GroupCount(all, pos);
    assert x in GroupOf(all, pos).players <==> x in multiset(GroupOf(all, pos).players);
    assert x in all <==> x in multiset(all);
  }

  /** A group's players are ordered by round ('N/A' as 999) and then by
      name, players that tie keeping their order. */
  lemma GroupOrder(all: seq<FlatPlayer>, pos: string)
    ensures StablySorted(GroupOf(all, pos).players, OfPosition(all, pos), RoundNameKey, RoundNameLe)
    ensures forall i, j :: 0 <= i < j < |GroupOf(all, pos).players| ==>
      var a := GroupOf(all, pos).players[i];
      var b := GroupOf(all, pos).players[j];
      RoundKey(a) < RoundKey(b) || (RoundKey(a) == RoundKey(b) && StrLe(a.name, b.name))
  {
    NumericOrders();
    StrLePreorder();
    LexPreorder(IntLe, StrLe);
    var g := GroupOf(all, pos).players;
    StableSortCorrect(OfPosition(all, pos), RoundNameKey, RoundNameLe);
    forall i, j | 0 <= i < j < |g|
      ensures RoundKey(g[i]) < RoundKey(g[j]) || (RoundKey(g[i]) == RoundKey(g[j]) && StrLe(g[i].name, g[j].name))
    {
      assert RoundNameLe(RoundNameKey(g[i]), RoundNameKey(g[j]));
    }
  }

  /** Every player appears under exactly one heading: the one of its
      position. */
  lemma ExactlyOneHeading(all: seq<FlatPlayer>, x: FlatPlayer) returns (k: int)
    requires x in all
    ensures 0 <= k < |ByPosition(all)| && x in ByPosition(all)[k].players
    ensures forall k' :: 0 <= k' < |ByPosition(all)| && x in ByPosition(all)[k'].players ==> k' == k
  {
    var h := Headings(all);
    var g := ByPosition(all);
    HeadingsSpec(all);
    assert x.position in h;
    k :| 0 <= k < |h| && h[k] == x.position;
    InGroup(all, h[k], x);
    assert g[k] == GroupOf(all, h[k]);
    forall k' | 0 <= k' < |g| && x in g[k'].players ensures k' == k {
      assert g[k'] == GroupOf(all, h[k']);
      InGroup(all, h[k'], x);
      assert h[k'] == h[k];
    }
  }
}
