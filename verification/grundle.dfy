/** `GrundleDraftAnalyzer` (grundle_draft_positions.py): finds the user's
    "Grundle" league for the current season, takes the last completed draft
    of the previous season, and lists every owned roster's players with the
    draft position each was taken at, plus per-team counts and the earliest
    and latest pick. The leagues, rosters, users, drafts, picks and player
    directory the API would return are parameters. */
module Grundle {
  import opened Wrappers
  import opened Text
  import opened Sorting
  import opened Sleeper
  import opened PickMaps

  /** The season whose rosters are read and the season whose draft is used. */
  const Season: string := "2025"
  const DraftSeason: string := "2024"

  // ----- the league -----

  predicate IsGrundle(l: League) {
    Contains(Lower(l.name), "grundle")
  }

  /** The first league whose lower-cased name contains "grundle". */
  function FirstGrundle(leagues: seq<League>): (r: Option<League>)
    ensures r.Some? ==> r.value in leagues && IsGrundle(r.value)
    ensures r.None? <==> forall k :: 0 <= k < |leagues| ==> !IsGrundle(leagues[k])
  {
    if leagues == [] then None
    else if IsGrundle(leagues[0]) then Some(leagues[0])
    else
      assert forall k :: 1 <= k < |leagues| ==> leagues[k] == leagues[1..][k - 1];
      FirstGrundle(leagues[1..])
  }

  /** The league found is the first match: every league before it is not
      a Grundle league. */
  lemma {:induction false} FirstGrundleIsFirst(leagues: seq<League>, k: int)
    requires 0 <= k < |leagues| && IsGrundle(leagues[k])
    requires forall j :: 0 <= j < k ==> !IsGrundle(leagues[j])
    ensures FirstGrundle(leagues) == Some(leagues[k])
  {
    if k > 0 {
      FirstGrundleIsFirst(leagues[1..], k - 1);
    }
  }

  // ----- the draft -----

  /** `d.get('last_picked', 0)`. */
  function LastPicked(d: DraftInfo): int {
    d.last_picked.GetOr(0)
  }

  /** The position `max(drafts, key=last_picked)` returns: scanning left to
      right, a later draft replaces the best so far only when it is
      strictly later, so on ties the first one wins. */
  function LatestIndex(drafts: seq<DraftInfo>): (k: nat)
    requires drafts != []
    ensures k < |drafts|
    ensures forall j :: 0 <= j < |drafts| ==> LastPicked(drafts[j]) <= LastPicked(drafts[k])
    ensures forall j :: 0 <= j < k ==> LastPicked(drafts[j]) < LastPicked(drafts[k])
  {
    if |drafts| == 1 then 0
    else
      var k := LatestIndex(drafts[..|drafts| - 1]);
      if LastPicked(drafts[|drafts| - 1]) > LastPicked(drafts[k]) then |drafts| - 1 else k
  }

  /** `get_2024_draft_data`: the picks of the most recently picked completed
      draft, or `None` when there is no completed draft or it has no picks. */
  function LatestDraftPicks(drafts: seq<DraftInfo>, picksOf: string -> seq<RawPick>): (r: Option<seq<RawPick>>)
    ensures r.Some? ==> r.value != [] && CompletedDrafts(drafts) != []
    ensures r.None? <==> (CompletedDrafts(drafts) == []
      || picksOf(CompletedDrafts(drafts)[LatestIndex(CompletedDrafts(drafts))].draft_id) == [])
  {
    var completed := CompletedDrafts(drafts);
    if completed == [] then None
    else
      var picks := picksOf(completed[LatestIndex(completed)].draft_id);
      if picks == [] then None else Some(picks)
  }

  // ----- the pick map -----

  /** Where a player was drafted: round, pick and overall pick; the last
      two both come from `pick_no`. */
  datatype PickRef = PickRef(round: Slot, pick: Slot, overall: Slot)

  const Undrafted: PickRef := PickRef(NA, NA, NA)

  function GrundleRef(p: RawPick): PickRef {
    PickRef(SlotOf(p.round), SlotOf(p.pick_no), SlotOf(p.pick_no))
  }

  /** `draft_pick_map`: picks with a truthy player id, the last one winning. */
  function DraftPickMap(picks: seq<RawPick>): map<string, PickRef> {
    PickMap(picks, TruthyPlayerId, GrundleRef)
  }

  /** A player is in the map exactly when some pick names them; the entry
      holds the round and the `pick_no` (as both pick and overall) of the
      last such pick. */
  lemma DraftPickMapSpec(picks: seq<RawPick>, id: string, i: int)
    requires IsLastFor<PickRef>(picks, TruthyPlayerId, id, i)
    ensures id in DraftPickMap(picks)
    ensures DraftPickMap(picks)[id] == PickRef(SlotOf(picks[i].round), SlotOf(picks[i].pick_no), SlotOf(picks[i].pick_no))
    ensures picks[i].player_id == Some(id) && id != ""
  {
    PickMapSpec(picks, TruthyPlayerId, GrundleRef, id);
  }

  /** A player no pick names has no entry. */
  lemma DraftPickMapAbsent(picks: seq<RawPick>, id: string)
    requires forall i :: 0 <= i < |picks| ==> picks[i].player_id != Some(id) || id == ""
    ensures id !in DraftPickMap(picks)
  {
    PickMapSpec(picks, TruthyPlayerId, GrundleRef, id);
  }

  // ----- the players of a roster -----

  const NoInfo: PlayerInfo := PlayerInfo(None, None, None, None, None, None)

  datatype PlayerRow = PlayerRow(
    id: string,
    name: string,
    position: string,
    nfl_team: string,
    draft_round: Slot,
    draft_pick: Slot,
    overall_pick: Slot,
    drafted: bool)

  /** `player_data` for one player id: drafted exactly when the map has an
      entry for them with a round; no entry shows no round and no overall
      pick. */
  function RowOf(id: string, players: PlayerDirectory, pickMap: map<string, PickRef>): (r: PlayerRow)
    ensures r.id == id
    ensures r.drafted <==> id in pickMap && pickMap[id].round.Num?
    ensures id !in pickMap ==> r.draft_round == NA && r.overall_pick == NA
  {
    var info := if id in players then players[id] else NoInfo;
    var draft := if id in pickMap then pickMap[id] else Undrafted;
    PlayerRow(id, info.full_name.GetOr("Unknown Player"), DisplayPosition(info), info.team.GetOr("FA"),
              draft.round, draft.pick, draft.overall, draft.round != NA)
  }

  function Rows(ids: seq<string>, players: PlayerDirectory, pickMap: map<string, PickRef>): (r: seq<PlayerRow>)
    ensures |r| == |ids|
    ensures forall k :: 0 <= k < |ids| ==> r[k] == RowOf(ids[k], players, pickMap)
  {
    seq(|ids|, k requires 0 <= k < |ids| => RowOf(ids[k], players, pickMap))
  }

  // ----- per-team statistics -----

  /** An integer or `float('inf')`. */
  datatype Ext = Fin(v: int) | Inf

  function ExtLe(a: Ext, b: Ext): bool {
    b.Inf? || (a.Fin? && a.v <= b.v)
  }

  lemma ExtLePreorder()
    ensures TotalPreorder(ExtLe)
  {
  }

  /** Python's `min(a, b)` and `max(a, b)`: `a` unless `b` is strictly
      smaller (larger). */
  function ExtMin(a: Ext, b: Ext): Ext {
    if ExtLe(a, b) then a else b
  }

  function ExtMax(a: Ext, b: Ext): Ext {
    if ExtLe(b, a) then a else b
  }

  /** The number a drafted player's overall pick counts as: the pick, or
      infinity when it is 'N/A'. */
  function PickNum(r: PlayerRow): Ext {
    if r.overall_pick.Num? then Fin(r.overall_pick.n) else Inf
  }

  /** The counters while the roster is walked. */
  datatype Tally = Tally(drafted: nat, undrafted: nat, earliest: Ext, latest: Ext, picks: nat)

  const NoTally: Tally := Tally(0, 0, Inf, Fin(0), 0)

  /** The counters after one more player. */
  function Count(t: Tally, r: PlayerRow): Tally {
    if r.drafted then
      Tally(t.drafted + 1, t.undrafted, ExtMin(t.earliest, PickNum(r)), ExtMax(t.latest, PickNum(r)), t.picks + 1)
    else
      Tally(t.drafted, t.undrafted + 1, t.earliest, t.latest, t.picks)
  }

  function TallyOf(rows: seq<PlayerRow>): Tally {
    if rows == [] then NoTally else Count(TallyOf(rows[..|rows| - 1]), rows[|rows| - 1])
  }

  /** The drafted players, in order. */
  function DraftedRows(rows: seq<PlayerRow>): (r: seq<PlayerRow>)
    ensures forall x :: x in r <==> x in rows && x.drafted
  {
    if rows == [] then []
    else
      var init := rows[..|rows| - 1];
      var last := rows[|rows| - 1];
      assert forall x :: x in rows <==> x in init || x == last;
      DraftedRows(init) + (if last.drafted then [last] else [])
  }

  /** What the counters mean: drafted and undrafted players add up to the
      roster and every drafted player counts one draft pick. */
  lemma {:induction false} TallyCounts(rows: seq<PlayerRow>)
    ensures TallyOf(rows).drafted + TallyOf(rows).undrafted == |rows|
    ensures TallyOf(rows).picks == TallyOf(rows).drafted == |DraftedRows(rows)|
  {
    if rows != [] {
      TallyCounts(rows[..|rows| - 1]);
    }
  }

  /** The earliest pick is the smallest drafted pick, infinity when there
      is none. */
  lemma {:induction false} TallyEarliest(rows: seq<PlayerRow>)
    ensures forall i :: 0 <= i < |rows| && rows[i].drafted ==> ExtLe(TallyOf(rows).earliest, PickNum(rows[i]))
    ensures TallyOf(rows).earliest == Inf
      || exists i :: 0 <= i < |rows| && rows[i].drafted && PickNum(rows[i]) == TallyOf(rows).earliest
  {
    if rows != [] {
      var init := rows[..|rows| - 1];
      var last := rows[|rows| - 1];
      TallyEarliest(init);
      var t0 := TallyOf(init);
      var t := TallyOf(rows);
      forall i | 0 <= i < |rows| && rows[i].drafted ensures ExtLe(t.earliest, PickNum(rows[i])) {
        if i < |init| {
          assert rows[i] == init[i];
        }
      }
      if t.earliest != Inf && t.earliest != PickNum(last) {
        var i :| 0 <= i < |init| && init[i].drafted && PickNum(init[i]) == t0.earliest;
        assert rows[i] == init[i];
      }
    }
  }

  /** The latest pick is the largest drafted pick, or 0. */
  lemma {:induction false} TallyLatest(rows: seq<PlayerRow>)
    ensures forall i :: 0 <= i < |rows| && rows[i].drafted ==> ExtLe(PickNum(rows[i]), TallyOf(rows).latest)
    ensures ExtLe(Fin(0), TallyOf(rows).latest)
    ensures TallyOf(rows).latest == Fin(0)
      || exists i :: 0 <= i < |rows| && rows[i].drafted && PickNum(rows[i]) == TallyOf(rows).latest
  {
    if rows != [] {
      var init := rows[..|rows| - 1];
      var last := rows[|rows| - 1];
      TallyLatest(init);
      var t0 := TallyOf(init);
      var t := TallyOf(rows);
      forall i | 0 <= i < |rows| && rows[i].drafted ensures ExtLe(PickNum(rows[i]), t.latest) {
        if i < |init| {
          assert rows[i] == init[i];
        }
      }
      if t.latest != Fin(0) && t.latest != PickNum(last) {
        var i :| 0 <= i < |init| && init[i].drafted && PickNum(init[i]) == t0.latest;
        assert rows[i] == init[i];
      }
    }
  }

  /** `stats` of a team. `earliest_pick` is 'N/A' when no drafted player
      has a number; `latest_pick` can be infinity when a drafted player's
      overall pick is 'N/A'. */
  datatype Stats = Stats(
    total_players: nat,
    drafted_players: nat,
    undrafted_players: nat,
    earliest_pick: Slot,
    latest_pick: Ext,
    total_draft_picks: nat)

  function StatsOf(total: nat, t: Tally): Stats {
    Stats(total, t.drafted, t.undrafted, if t.earliest.Fin? then Num(t.earliest.v) else NA, t.latest, t.picks)
  }

  // ----- one team -----

  datatype TeamAnalysis = TeamAnalysis(
    owner_id: string,
    owner_name: string,
    team_name: string,
    players: seq<PlayerRow>,
    stats: Stats)

  /** `owner_info.get('display_name', 'Unknown Owner')`. */
  function OwnerName(users: map<string, User>, owner: string): string {
    if owner in users then users[owner].display_name else "Unknown Owner"
  }

  /** `owner_info.get('metadata', {}).get('team_name', owner_name)`. */
  function TeamName(users: map<string, User>, owner: string): string {
    if owner in users then users[owner].team_name.GetOr(users[owner].display_name) else "Unknown Owner"
  }

  /** The sort key of a player: drafted first, then by overall pick
      ('N/A' last), then by name. */
  function PlayerKey(r: PlayerRow): (bool, (Ext, string)) {
    (!r.drafted, (PickNum(r), r.name))
  }

  const PlayerLe: ((bool, (Ext, string)), (bool, (Ext, string))) -> bool := Lex(BoolLe, Lex(ExtLe, StrLe))

  function SortPlayers(rows: seq<PlayerRow>): (r: seq<PlayerRow>)
    ensures multiset(r) == multiset(rows)
  {
    StableSort(rows, PlayerKey, PlayerLe)
  }

  /** The players come drafted first, drafted players by ascending overall
      pick, ties by name; players that tie on the whole key keep roster
      order. */
  lemma SortPlayersOrder(rows: seq<PlayerRow>)
    ensures StablySorted(SortPlayers(rows), rows, PlayerKey, PlayerLe)
    ensures forall i, j :: 0 <= i < j < |SortPlayers(rows)| && SortPlayers(rows)[j].drafted ==> SortPlayers(rows)[i].drafted
    ensures forall i, j :: 0 <= i < j < |SortPlayers(rows)| && SortPlayers(rows)[i].drafted && SortPlayers(rows)[j].drafted ==>
      ExtLe(PickNum(SortPlayers(rows)[i]), PickNum(SortPlayers(rows)[j]))
  {
    NumericOrders();
    ExtLePreorder();
    StrLePreorder();
    LexPreorder(ExtLe, StrLe);
    LexPreorder(BoolLe, Lex(ExtLe, StrLe));
    StableSortCorrect(rows, PlayerKey, PlayerLe);
    var s := SortPlayers(rows);
    forall i, j | 0 <= i < j < |s|
      ensures s[j].drafted ==> s[i].drafted
      ensures s[i].drafted && s[j].drafted ==> ExtLe(PickNum(s[i]), PickNum(s[j]))
    {
      assert PlayerLe(PlayerKey(s[i]), PlayerKey(s[j]));
    }
  }

  /** `roster_analysis` of a roster owned by `owner` holding `ids`. */
  function TeamOf(owner: string, ids: seq<string>, users: map<string, User>, players: PlayerDirectory,
                  pickMap: map<string, PickRef>): TeamAnalysis {
    var rows := Rows(ids, players, pickMap);
    TeamAnalysis(owner, OwnerName(users, owner), TeamName(users, owner), SortPlayers(rows), StatsOf(|ids|, TallyOf(rows)))
  }

  /** A team lists every roster player once, and its counts add up. */
  lemma TeamCounts(owner: string, ids: seq<string>, users: map<string, User>, players: PlayerDirectory,
                   pickMap: map<string, PickRef>)
    ensures var t := TeamOf(owner, ids, users, players, pickMap);
      && multiset(t.players) == multiset(Rows(ids, players, pickMap))
      && t.stats.total_players == |ids| == |t.players|
      && t.stats.drafted_players + t.stats.undrafted_players == t.stats.total_players
      && t.stats.total_draft_picks == t.stats.drafted_players
  {
    TallyCounts(Rows(ids, players, pickMap));
  }

  /** The team's earliest pick is no later, and its latest pick no
      earlier, than that of any of its drafted players. */
  lemma TeamBounds(owner: string, ids: seq<string>, users: map<string, User>, players: PlayerDirectory,
                   pickMap: map<string, PickRef>)
    ensures var t := TeamOf(owner, ids, users, players, pickMap);
      forall p :: p in t.players && p.drafted ==>
        && (t.stats.earliest_pick.Num? ==> ExtLe(Fin(t.stats.earliest_pick.n), PickNum(p)))
        && (t.stats.earliest_pick.NA? ==> PickNum(p) == Inf)
        && ExtLe(PickNum(p), t.stats.latest_pick)
  {
    var rows := Rows(ids, players, pickMap);
    var t := TeamOf(owner, ids, users, players, pickMap);
    TallyEarliest(rows);
    TallyLatest(rows);
    forall p | p in t.players && p.drafted
      ensures t.stats.earliest_pick.Num? ==> ExtLe(Fin(t.stats.earliest_pick.n), PickNum(p))
      ensures t.stats.earliest_pick.NA? ==> PickNum(p) == Inf
      ensures ExtLe(PickNum(p), t.stats.latest_pick)
    {
      assert p in multiset(t.players);
      var i :| 0 <= i < |rows| && rows[i] == p;
    }
  }

  /** The team's earliest pick is that of one of its drafted players, and
      so is its latest pick unless it is the 0 it starts from. */
  lemma TeamExtremesAttained(owner: string, ids: seq<string>, users: map<string, User>, players: PlayerDirectory,
                             pickMap: map<string, PickRef>)
    ensures var t := TeamOf(owner, ids, users, players, pickMap);
      t.stats.earliest_pick.Num? ==> exists p :: p in t.players && p.drafted && PickNum(p) == Fin(t.stats.earliest_pick.n)
    ensures var t := TeamOf(owner, ids, users, players, pickMap);
      && ExtLe(Fin(0), t.stats.latest_pick)
      && (t.stats.latest_pick == Fin(0) || exists p :: p in t.players && p.drafted && PickNum(p) == t.stats.latest_pick)
  {
    var rows := Rows(ids, players, pickMap);
    var t := TeamOf(owner, ids, users, players, pickMap);
    TallyEarliest(rows);
    TallyLatest(rows);
    if t.stats.earliest_pick.Num? {
      var i :| 0 <= i < |rows| && rows[i].drafted && PickNum(rows[i]) == TallyOf(rows).earliest;
      assert rows[i] in multiset(t.players);
    }
    if t.stats.latest_pick != Fin(0) {
      var i :| 0 <= i < |rows| && rows[i].drafted && PickNum(rows[i]) == TallyOf(rows).latest;
      assert rows[i] in multiset(t.players);
    }
  }

  lemma RowsSnoc(ids: seq<string>, i: int, players: PlayerDirectory, pickMap: map<string, PickRef>)
    requires 0 <= i < |ids|
    ensures Rows(ids[..i + 1], players, pickMap) == Rows(ids[..i], players, pickMap) + [RowOf(ids[i], players, pickMap)]
  {
  }

  lemma TallySnoc(rows: seq<PlayerRow>, row: PlayerRow)
    ensures TallyOf(rows + [row]) == Count(TallyOf(rows), row)
  {
    assert (rows + [row])[..|rows|] == rows;
  }

  /** The loop over one roster's players in `analyze_rosters_with_draft_data`. */
  method AnalyzeRoster(owner: string, ids: seq<string>, users: map<string, User>, players: PlayerDirectory,
                       pickMap: map<string, PickRef>) returns (team: TeamAnalysis)
    ensures team == TeamOf(owner, ids, users, players, pickMap)
  {
    var rows: seq<PlayerRow> := [];
    var drafted, undrafted, picks := 0, 0, 0;
    var earliest, latest := Inf, Fin(0);
    var i := 0;
    while i < |ids|
      invariant 0 <= i <= |ids|
      invariant rows == Rows(ids[..i], players, pickMap)
      invariant Tally(drafted, undrafted, earliest, latest, picks) == TallyOf(rows)
    {
      var row := RowOf(ids[i], players, pickMap);
      RowsSnoc(ids, i, players, pickMap);
      TallySnoc(rows, row);
      rows := rows + [row];
      if row.drafted {
        drafted := drafted + 1;
        var pickNum := PickNum(row);
        earliest := ExtMin(earliest, pickNum);
        latest := ExtMax(latest, pickNum);
        picks := picks + 1;
      } else {
        undrafted := undrafted + 1;
      }
      i := i + 1;
    }
    assert ids[..i] == ids;
    var earliestPick := if earliest.Inf? then NA else Num(earliest.v);
    var stats := Stats(|ids|, drafted, undrafted, earliestPick, latest, picks);
    team := TeamAnalysis(owner, OwnerName(users, owner), TeamName(users, owner), SortPlayers(rows), stats);
  }

  // ----- all teams -----

  /** The rosters with a truthy `owner_id`, in order. */
  function Owned(rosters: seq<Roster>): (r: seq<Roster>)
    ensures forall x :: x in r <==> x in rosters && HasOwner(x)
  {
    if rosters == [] then []
    else
      var init := rosters[..|rosters| - 1];
      var last := rosters[|rosters| - 1];
      assert forall x :: x in rosters <==> x in init || x == last;
      Owned(init) + (if HasOwner(last) then [last] else [])
  }

  function TeamOfRoster(r: Roster, users: map<string, User>, players: PlayerDirectory, pickMap: map<string, PickRef>): TeamAnalysis
    requires HasOwner(r)
  {
    TeamOf(r.owner_id.value, RosterPlayers(r), users, players, pickMap)
  }

  /** `analysis_results` before sorting. */
  function Teams(rosters: seq<Roster>, users: map<string, User>, players: PlayerDirectory, pickMap: map<string, PickRef>): seq<TeamAnalysis> {
    if rosters == [] then []
    else
      var last := rosters[|rosters| - 1];
      Teams(rosters[..|rosters| - 1], users, players, pickMap)
        + (if HasOwner(last) then [TeamOfRoster(last, users, players, pickMap)] else [])
  }

  /** Rosters without an owner are skipped and every other roster gives
      exactly one team, in roster order. */
  lemma {:induction false} TeamsSpec(rosters: seq<Roster>, users: map<string, User>, players: PlayerDirectory, pickMap: map<string, PickRef>)
    ensures |Teams(rosters, users, players, pickMap)| == |Owned(rosters)|
    ensures forall i :: 0 <= i < |Owned(rosters)| ==>
      HasOwner(Owned(rosters)[i]) && Teams(rosters, users, players, pickMap)[i] == TeamOfRoster(Owned(rosters)[i], users, players, pickMap)
  {
    if rosters != [] {
      TeamsSpec(rosters[..|rosters| - 1], users, players, pickMap);
    }
  }

  /** The loop over the rosters in `analyze_rosters_with_draft_data`. */
  method AnalyzeTeams(rosters: seq<Roster>, users: map<string, User>, players: PlayerDirectory, pickMap: map<string, PickRef>)
    returns (teams: seq<TeamAnalysis>)
    ensures teams == Teams(rosters, users, players, pickMap)
  {
    teams := [];
    var i := 0;
    while i < |rosters|
      invariant 0 <= i <= |rosters|
      invariant teams == Teams(rosters[..i], users, players, pickMap)
    {
      assert rosters[..i + 1][..i] == rosters[..i];
      var roster := rosters[i];
      if HasOwner(roster) {
        var team := AnalyzeRoster(roster.owner_id.value, RosterPlayers(roster), users, players, pickMap);
        teams := teams + [team];
      }
      i := i + 1;
    }
    assert rosters[..i] == rosters;
  }

  function OwnerNameOf(t: TeamAnalysis): string {
    t.owner_name
  }


  // ----- the analysis -----

  /** `roster_data`: the rosters and the users by id. */
  datatype RosterData = RosterData(rosters: seq<Roster>, users: map<string, User>)

  /** `get_league_rosters`: `None` when either list is empty. */
  function RosterDataOf(rosters: seq<Roster>, users: seq<User>): (r: Option<RosterData>)
    ensures r.None? <==> rosters == [] || users == []
    ensures r.Some? ==> r.value.rosters == rosters
  {
    if rosters == [] || users == [] then None else Some(RosterData(rosters, UserMap(users)))
  }

  /** `get_all_players`: `None` when the directory is empty. */
  function PlayersOf(fetched: PlayerDirectory): Option<PlayerDirectory> {
    if fetched == map[] then None else Some(fetched)
  }

  datatype Analysis = Analysis(league_name: string, season: string, draft_season: string, teams: seq<TeamAnalysis>)

  /** What `analyze_rosters_with_draft_data` returns, given what each API
      call would return: `rostersOf` and `usersOf` by league id, the
      user's drafts of the draft season, `picksOf` by draft id and the
      player directory. */
  function AnalysisOf(leagues: seq<League>, rostersOf: string -> seq<Roster>, usersOf: string -> seq<User>,
                      drafts: seq<DraftInfo>, picksOf: string -> seq<RawPick>, fetched: PlayerDirectory): Option<Analysis> {
    match FirstGrundle(leagues)
    case None => None
    case Some(league) =>
      match RosterDataOf(rostersOf(league.league_id), usersOf(league.league_id))
      case None => None
      case Some(rd) =>
        if fetched == map[] then None
        else
          var pickMap := DraftPickMap(LatestDraftPicks(drafts, picksOf).GetOr([]));
          Some(Analysis(league.name, Season, DraftSeason, SortByName(Teams(rd.rosters, rd.users, fetched, pickMap), OwnerNameOf)))
  }

  /** An analysis exists exactly when there is a Grundle league with
      rosters and users and the player directory is not empty; it has one
      team per owned roster, in owner-name order. */
  lemma AnalysisSpec(leagues: seq<League>, rostersOf: string -> seq<Roster>, usersOf: string -> seq<User>,
                     drafts: seq<DraftInfo>, picksOf: string -> seq<RawPick>, fetched: PlayerDirectory)
    ensures var r := AnalysisOf(leagues, rostersOf, usersOf, drafts, picksOf, fetched);
      r.Some? <==>
        && FirstGrundle(leagues).Some?
        && rostersOf(FirstGrundle(leagues).value.league_id) != []
        && usersOf(FirstGrundle(leagues).value.league_id) != []
        && fetched != map[]
    ensures var r := AnalysisOf(leagues, rostersOf, usersOf, drafts, picksOf, fetched);
      r.Some? ==>
        && r.value.league_name == FirstGrundle(leagues).value.name
        && |r.value.teams| == |Owned(rostersOf(FirstGrundle(leagues).value.league_id))|
        && forall i, j :: 0 <= i < j < |r.value.teams| ==> StrLe(r.value.teams[i].owner_name, r.value.teams[j].owner_name)
  {
    var r := AnalysisOf(leagues, rostersOf, usersOf, drafts, picksOf, fetched);
    if r.Some? {
      var league := FirstGrundle(leagues).value;
      var rd := RosterDataOf(rostersOf(league.league_id), usersOf(league.league_id)).value;
      var pickMap := DraftPickMap(LatestDraftPicks(drafts, picksOf).GetOr([]));
      TeamsSpec(rd.rosters, rd.users, fetched, pickMap);
      SortByNameOrder(Teams(rd.rosters, rd.users, fetched, pickMap), OwnerNameOf);
    }
  }

  /** The analyzer and the data it keeps between steps. */
  class GrundleDraftAnalyzer {
    var leagueData: Option<League>
    var rosterData: Option<RosterData>
    var draftData: Option<seq<RawPick>>
    var playersData: Option<PlayerDirectory>

    constructor()
      ensures leagueData == None && rosterData == None && draftData == None && playersData == None
    {
      leagueData := None;
      rosterData := None;
      draftData := None;
      playersData := None;
    }

    /** `find_grundle_league`: the loop with `break`. */
    method FindGrundleLeague(leagues: seq<League>) returns (r: Option<League>)
      ensures r == FirstGrundle(leagues)
    {
      r := None;
      var i := 0;
      while i < |leagues|
        invariant 0 <= i <= |leagues|
        invariant FirstGrundle(leagues) == FirstGrundle(leagues[i..])
        invariant r.None?
      {
        if IsGrundle(leagues[i]) {
          r := Some(leagues[i]);
          break;
        }
        assert leagues[i..][1..] == leagues[i + 1..];
        i := i + 1;
      }
    }

    /** `analyze_rosters_with_draft_data`: each step stores what it fetched
        in its field, and a step that finds nothing ends the analysis. */
    method AnalyzeRostersWithDraftData(leagues: seq<League>, rostersOf: string -> seq<Roster>, usersOf: string -> seq<User>,
                                       drafts: seq<DraftInfo>, picksOf: string -> seq<RawPick>, fetched: PlayerDirectory)
      returns (r: Option<Analysis>)
      modifies this
      ensures r == AnalysisOf(leagues, rostersOf, usersOf, drafts, picksOf, fetched)
      ensures FirstGrundle(leagues).None? ==>
        leagueData == old(leagueData) && rosterData == old(rosterData) && draftData == old(draftData) && playersData == old(playersData)
      ensures FirstGrundle(leagues).Some? ==>
        var id := FirstGrundle(leagues).value.league_id;
        && leagueData == FirstGrundle(leagues)
        && rosterData == RosterDataOf(rostersOf(id), usersOf(id))
        && (rosterData.None? ==> draftData == old(draftData) && playersData == old(playersData))
        && (rosterData.Some? ==>
              draftData == Some(LatestDraftPicks(drafts, picksOf).GetOr([])) && playersData == PlayersOf(fetched))
    {
      var league := FindGrundleLeague(leagues);
      if league.None? {
        return None;
      }
      leagueData := league;
      var id := league.value.league_id;
      rosterData := RosterDataOf(rostersOf(id), usersOf(id));
      if rosterData.None? {
        return None;
      }
      var rd := rosterData.value;
      var picks := LatestDraftPicks(drafts, picksOf);
      draftData := Some(picks.GetOr([]));
      playersData := PlayersOf(fetched);
      if playersData.None? {
        return None;
      }
      var pickMap := BuildPickMap(picks.GetOr([]), TruthyPlayerId, GrundleRef);
      var teams := AnalyzeTeams(rd.rosters, rd.users, fetched, pickMap);
      r := Some(Analysis(league.value.name, Season, DraftSeason, SortByName(teams, OwnerNameOf)));
    }
  }
}
