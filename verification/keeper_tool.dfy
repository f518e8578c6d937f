/** `get_keeper_data` (keeper_tool.py) after its API calls: takes the
    user's first league, the league's draft of the season before, and lists
    every owned, non-empty roster's known players, in roster order, with
    the round and pick each was drafted at. The API replies are
    parameters. */
module KeeperTool {
  import opened Wrappers
  import opened Text
  import opened Sleeper
  import opened PickMaps
  import Grundle
  import RosterViewer

  /** Why the function raises: no league, or a pick lacking `player_id`,
      `round` or `pick` (the `KeyError` of the dict comprehension). */
  datatype KeeperError = NoLeagues | MissingPickKey

  // ----- the previous season's draft -----

  /** `next((d for d in drafts if d['season'] == s), None)`. */
  function FirstOfSeason(drafts: seq<DraftInfo>, s: string): (r: Option<DraftInfo>)
    ensures r.Some? ==> r.value in drafts && r.value.season == s
    ensures r.None? <==> forall k :: 0 <= k < |drafts| ==> drafts[k].season != s
  {
    if drafts == [] then None
    else if drafts[0].season == s then Some(drafts[0])
    else
      assert forall k :: 1 <= k < |drafts| ==> drafts[k] == drafts[1..][k - 1];
      FirstOfSeason(drafts[1..], s)
  }

  /** The draft found is the first of that season. */
  lemma {:induction false} FirstOfSeasonIsFirst(drafts: seq<DraftInfo>, s: string, k: int)
    requires 0 <= k < |drafts| && drafts[k].season == s
    requires forall j :: 0 <= j < k ==> drafts[j].season != s
    ensures FirstOfSeason(drafts, s) == Some(drafts[k])
  {
    if k > 0 {
      FirstOfSeasonIsFirst(drafts[1..], s, k - 1);
    }
  }

  /** The draft lookup of `get_keeper_data`: the picks of the first draft of the previous season, or
      none. */
  function PreviousSeasonPicks(drafts: seq<DraftInfo>, picksOf: string -> seq<RawPick>, season: int): (r: seq<RawPick>)
    ensures (forall k :: 0 <= k < |drafts| ==> drafts[k].season != IntToString(season - 1)) ==> r == []
  {
    match FirstOfSeason(drafts, IntToString(season - 1))
    case None => []
    case Some(d) => picksOf(d.draft_id)
  }

  // ----- the pick map -----

  /** The pick has every key the comprehension reads. */
  predicate Complete(p: RawPick) {
    p.player_id.Some? && p.round.Some? && p.pick.Some?
  }

  function PlayerIdKey(p: RawPick): Option<string> {
    p.player_id
  }

  /** `{'round': pick['round'], 'pick': pick['pick']}`. */
  function KeeperRef(p: RawPick): RosterViewer.PickSpot {
    RosterViewer.PickSpot(SlotOf(p.round), SlotOf(p.pick))
  }

  /** The pick map of `get_keeper_data`: every pick is keyed by its player id, with no filtering, the
      last pick of a player winning; a pick lacking a key raises. */
  function KeeperPickMap(picks: seq<RawPick>): (r: Result<map<string, RosterViewer.PickSpot>, KeeperError>)
    ensures r.Err? <==> exists k :: 0 <= k < |picks| && !Complete(picks[k])
    ensures r.Ok? ==> r.value == PickMap(picks, PlayerIdKey, KeeperRef)
  {
    if forall k :: 0 <= k < |picks| ==> Complete(picks[k]) then Ok(PickMap(picks, PlayerIdKey, KeeperRef))
    else Err(MissingPickKey)
  }

  /** With every key present, each player of the draft maps to the round and
      pick of their last pick. */
  lemma KeeperPickMapSpec(picks: seq<RawPick>, id: string, i: int)
    requires forall k :: 0 <= k < |picks| ==> Complete(picks[k])
    requires IsLastFor<RosterViewer.PickSpot>(picks, PlayerIdKey, id, i)
    ensures KeeperPickMap(picks).Ok?
    ensures id in KeeperPickMap(picks).value
    ensures KeeperPickMap(picks).value[id] == RosterViewer.PickSpot(Num(picks[i].round.value), Num(picks[i].pick.value))
  {
    PickMapSpec(picks, PlayerIdKey, KeeperRef, id);
  }

  // ----- the players and teams -----

  datatype KeeperPlayer = KeeperPlayer(id: string, name: string, position: string, draft_round: Slot, draft_pick: Slot)

  /** One entry of `player_details_list`; unlike the other scripts there is
      no defensive-position substitution. */
  function PlayerOf(id: string, info: PlayerInfo, pickMap: map<string, RosterViewer.PickSpot>): (p: KeeperPlayer)
    ensures p.id == id
    ensures p.name == (if info.full_name.Some? then info.full_name.value else "Unknown Player")
    ensures p.position == (if info.position.Some? then info.position.value else "N/A")
    ensures id !in pickMap ==> p.draft_round == NA && p.draft_pick == NA
  {
    var spot := if id in pickMap then pickMap[id] else RosterViewer.PickSpot(NA, NA);
    KeeperPlayer(id, info.full_name.GetOr("Unknown Player"), info.position.GetOr("N/A"), spot.round, spot.pick)
  }

  /** The known players of a roster, in roster order. */
  function KnownPlayers(ids: seq<string>, players: PlayerDirectory, pickMap: map<string, RosterViewer.PickSpot>): seq<KeeperPlayer> {
    if ids == [] then []
    else
      var id := ids[|ids| - 1];
      KnownPlayers(ids[..|ids| - 1], players, pickMap)
        + (if RosterViewer.Known(players, id) then [PlayerOf(id, players[id], pickMap)] else [])
  }

  /** The list keeps roster order: the players of a roster split in two are
      the players of the first part followed by those of the second. */
  lemma {:induction false} KnownPlayersAppend(a: seq<string>, b: seq<string>, players: PlayerDirectory, pickMap: map<string, RosterViewer.PickSpot>)
    ensures KnownPlayers(a + b, players, pickMap) == KnownPlayers(a, players, pickMap) + KnownPlayers(b, players, pickMap)
  {
    if b == [] {
      assert a + b == a;
    } else {
      var b' := b[..|b| - 1];
      assert (a + b)[..|a + b| - 1] == a + b';
      assert (a + b)[|a + b| - 1] == b[|b| - 1];
      KnownPlayersAppend(a, b', players, pickMap);
    }
  }

  datatype KeeperTeam = KeeperTeam(owner_id: string, owner_name: string, players: seq<KeeperPlayer>)

  function TeamOf(r: Roster, users: seq<User>, players: PlayerDirectory, pickMap: map<string, RosterViewer.PickSpot>): KeeperTeam
    requires HasOwner(r)
  {
    var owner := r.owner_id.value;
    KeeperTeam(owner, Grundle.OwnerName(UserMap(users), owner), KnownPlayers(RosterPlayers(r), players, pickMap))
  }

  /** The rosters with an owner and players, in order. */
  function ListedRosters(rosters: seq<Roster>): (r: seq<Roster>)
    ensures forall x :: x in r <==> x in rosters && RosterViewer.Listed(x)
  {
    if rosters == [] then []
    else
      var init := rosters[..|rosters| - 1];
      var last := rosters[|rosters| - 1];
      assert forall x :: x in rosters <==> x in init || x == last;
      ListedRosters(init) + (if RosterViewer.Listed(last) then [last] else [])
  }

  /** `teams_data`, in roster order. */
  function Teams(rosters: seq<Roster>, users: seq<User>, players: PlayerDirectory, pickMap: map<string, RosterViewer.PickSpot>): seq<KeeperTeam> {
    if rosters == [] then []
    else
      var last := rosters[|rosters| - 1];
      Teams(rosters[..|rosters| - 1], users, players, pickMap)
        + (if RosterViewer.Listed(last) then [TeamOf(last, users, players, pickMap)] else [])
  }

  /** Rosters without an owner or without players are skipped; every other
      roster gives one team, in roster order. */
  lemma {:induction false} TeamsSpec(rosters: seq<Roster>, users: seq<User>, players: PlayerDirectory, pickMap: map<string, RosterViewer.PickSpot>)
    ensures |Teams(rosters, users, players, pickMap)| == |ListedRosters(rosters)|
    ensures forall i :: 0 <= i < |ListedRosters(rosters)| ==>
      RosterViewer.Listed(ListedRosters(rosters)[i])
      && Teams(rosters, users, players, pickMap)[i] == TeamOf(ListedRosters(rosters)[i], users, players, pickMap)
  {
    if rosters != [] {
      TeamsSpec(rosters[..|rosters| - 1], users, players, pickMap);
    }
  }

  /** The loop over one roster's players in `get_keeper_data`. */
  method CollectPlayers(ids: seq<string>, players: PlayerDirectory, pickMap: map<string, RosterViewer.PickSpot>)
      returns (list: seq<KeeperPlayer>)
    ensures list == KnownPlayers(ids, players, pickMap)
  {
    list := [];
    var j := 0;
    while j < |ids|
      invariant 0 <= j <= |ids|
      invariant list == KnownPlayers(ids[..j], players, pickMap)
    {
      assert ids[..j + 1][..j] == ids[..j];
      var id := ids[j];
      if id in players && !IsEmptyInfo(players[id]) {
        list := list + [PlayerOf(id, players[id], pickMap)];
      }
      j := j + 1;
    }
    assert ids[..j] == ids;
  }

  /** The loop over the rosters in `get_keeper_data`. */
  method CollectTeams(rosters: seq<Roster>, users: seq<User>, players: PlayerDirectory, pickMap: map<string, RosterViewer.PickSpot>)
      returns (teams: seq<KeeperTeam>)
    ensures teams == Teams(rosters, users, players, pickMap)
  {
    var userMap := UserMap(users);
    teams := [];
    var i := 0;
    while i < |rosters|
      invariant 0 <= i <= |rosters|
      invariant teams == Teams(rosters[..i], users, players, pickMap)
    {
      assert rosters[..i + 1][..i] == rosters[..i];
      var roster := rosters[i];
      var ids := RosterPlayers(roster);
      if HasOwner(roster) && ids != [] {
        var list := CollectPlayers(ids, players, pickMap);
        var owner := roster.owner_id.value;
        teams := teams + [KeeperTeam(owner, Grundle.OwnerName(userMap, owner), list)];
      }
      i := i + 1;
    }
    assert rosters[..i] == rosters;
  }

  datatype KeeperData = KeeperData(league_name: string, teams: seq<KeeperTeam>)

  /** What `get_keeper_data` returns for a found user, given the API replies:
      `rostersOf`, `usersOf` and `draftsOf` by league id, `picksOf` by draft
      id. */
  function KeeperDataOf(leagues: seq<League>, rostersOf: string -> seq<Roster>, usersOf: string -> seq<User>,
                        players: PlayerDirectory, draftsOf: string -> seq<DraftInfo>, picksOf: string -> seq<RawPick>,
                        season: int): (r: Result<KeeperData, KeeperError>)
    ensures r == Err(NoLeagues) <==> leagues == []
    ensures r.Ok? ==> r.value.league_name == leagues[0].name
  {
    if leagues == [] then Err(NoLeagues)
    else
      var league := leagues[0];
      match KeeperPickMap(PreviousSeasonPicks(draftsOf(league.league_id), picksOf, season))
      case Err(e) => Err(e)
      case Ok(pickMap) =>
        Ok(KeeperData(league.name, Teams(rostersOf(league.league_id), usersOf(league.league_id), players, pickMap)))
  }

  /** `get_keeper_data` after the user lookup. */
  method GetKeeperData(leagues: seq<League>, rostersOf: string -> seq<Roster>, usersOf: string -> seq<User>,
                       players: PlayerDirectory, draftsOf: string -> seq<DraftInfo>, picksOf: string -> seq<RawPick>,
                       season: int) returns (r: Result<KeeperData, KeeperError>)
    ensures r == KeeperDataOf(leagues, rostersOf, usersOf, players, draftsOf, picksOf, season)
  {
    if leagues == [] {
      return Err(NoLeagues);
    }
    var league := leagues[0];
    var picks := PreviousSeasonPicks(draftsOf(league.league_id), picksOf, season);
    var pickMap := KeeperPickMap(picks);
    if pickMap.Err? {
      return Err(pickMap.error);
    }
    var teams := CollectTeams(rostersOf(league.league_id), usersOf(league.league_id), players, pickMap.value);
    r := Ok(KeeperData(league.name, teams));
  }
}
