/** The records that the draft platform's HTTP API returns, as the modelled
    code reads them, and the small lookups that several scripts share.
    Fetching them is not modelled: every operation receives them as values.
    An `Option` field that is `None` stands for a key that is absent. */
module Sleeper {
  import opened Wrappers
  import opened Sorting

  /** One pick of a draft (`/draft/<id>/picks`). */
  datatype RawPick = RawPick(
    player_id: Option<string>,
    round: Option<int>,
    pick_no: Option<int>,
    draft_slot: Option<int>,
    pick: Option<int>,
    picked_by: Option<string>)

  /** `pick.get('player_id')` is truthy: present and not the empty string. */
  predicate HasPlayerId(p: RawPick) {
    p.player_id.Some? && p.player_id.value != ""
  }

  /** One entry of the player directory (`/players/nfl`). */
  datatype PlayerInfo = PlayerInfo(
    first_name: Option<string>,
    last_name: Option<string>,
    full_name: Option<string>,
    position: Option<string>,
    team: Option<string>,
    fantasy_positions: Option<seq<string>>)

  /** An entry with no keys at all is the empty dict, which Python treats as false. */
  predicate IsEmptyInfo(info: PlayerInfo) {
    info == PlayerInfo(None, None, None, None, None, None)
  }

  type PlayerDirectory = map<string, PlayerInfo>

  /** One draft of a user or a league (`/user/<id>/drafts/nfl/<season>`). */
  datatype DraftInfo = DraftInfo(
    draft_id: string,
    status: string,
    draft_type: Option<string>,
    league_id: Option<string>,
    created: Option<int>,
    last_picked: Option<int>,
    season: string)

  predicate IsComplete(d: DraftInfo) {
    d.status == "complete"
  }

  /** `[d for d in drafts if d['status'] == 'complete']`, the filter that
      several scripts apply to a user's or a league's drafts. */
  function CompletedDrafts(drafts: seq<DraftInfo>): (r: seq<DraftInfo>)
    ensures |r| <= |drafts|
    ensures forall d :: d in r <==> d in drafts && d.status == "complete"
  {
    Filter(drafts, IsComplete)
  }

  datatype League = League(league_id: string, name: string)

  datatype User = User(user_id: string, display_name: string, team_name: Option<string>)

  datatype Roster = Roster(owner_id: Option<string>, players: Option<seq<string>>)

  /** `roster.get('owner_id')` is truthy. */
  predicate HasOwner(r: Roster) {
    r.owner_id.Some? && r.owner_id.value != ""
  }

  /** `roster.get('players', [])`. */
  function RosterPlayers(r: Roster): seq<string> {
    r.players.GetOr([])
  }

  /** A draft-position cell: an integer, or the placeholder string 'N/A'. */
  datatype Slot = NA | Num(n: int)

  /** `d.get(key, 'N/A')` for an integer-valued key. */
  function SlotOf(o: Option<int>): (s: Slot)
    ensures s.Num? <==> o.Some?
    ensures o.Some? ==> s.n == o.value
  {
    match o
    case Some(n) => Num(n)
    case None => NA
  }

  const IdpPositions: seq<string> := ["DL", "LB", "DB"]

  /** The position shown for a player: `position` (default 'N/A'), except that
      an individual defensive player (DL, LB, DB) with a non-empty
      `fantasy_positions` list shows the first entry of that list. */
  function DisplayPosition(info: PlayerInfo): (pos: string)
    ensures info.position.None? ==> pos == "N/A"
    ensures info.position.Some? && info.position.value !in IdpPositions ==> pos == info.position.value
    ensures pos != info.position.GetOr("N/A") ==>
      && info.position.Some? && info.position.value in IdpPositions
      && info.fantasy_positions.Some? && info.fantasy_positions.value != []
      && pos == info.fantasy_positions.value[0]
  {
    var position := info.position.GetOr("N/A");
    if position in IdpPositions && info.fantasy_positions.Some? && info.fantasy_positions.value != [] then
      info.fantasy_positions.value[0]
    else
      position
  }

  /** A dict built by assigning `pairs` in order: the last value for a key wins. */
  function LastWins<K, V>(pairs: seq<(K, V)>): map<K, V> {
    if pairs == [] then map[]
    else LastWins(pairs[..|pairs| - 1])[pairs[|pairs| - 1].0 := pairs[|pairs| - 1].1]
  }

  /** Index `i` holds the last pair whose key is `k`. */
  predicate IsLastWithKey<K(==), V>(pairs: seq<(K, V)>, k: K, i: int) {
    0 <= i < |pairs| && pairs[i].0 == k && forall j :: i < j < |pairs| ==> pairs[j].0 != k
  }

  lemma {:induction false} LastWinsSpec<K, V>(pairs: seq<(K, V)>, k: K)
    ensures k in LastWins(pairs) <==> exists i :: 0 <= i < |pairs| && pairs[i].0 == k
    ensures forall i :: IsLastWithKey(pairs, k, i) ==> k in LastWins(pairs) && LastWins(pairs)[k] == pairs[i].1
  {
    if pairs != [] {
      var init, last := pairs[..|pairs| - 1], pairs[|pairs| - 1];
      LastWinsSpec(init, k);
      assert LastWins(pairs) == LastWins(init)[last.0 := last.1];
      forall i | IsLastWithKey(pairs, k, i) ensures k in LastWins(pairs) && LastWins(pairs)[k] == pairs[i].1 {
        if i < |pairs| - 1 {
          LastWithKeyInit(pairs, k, i);
        }
      }
      if exists i :: 0 <= i < |pairs| && pairs[i].0 == k {
        var i :| 0 <= i < |pairs| && pairs[i].0 == k;
        if i < |pairs| - 1 {
          assert init[i].0 == k;
        }
      }
    }
  }

  /** The last pair with key `k`, when it is not the very last pair, is also
      the last one with that key among all but the last pair. */
  lemma LastWithKeyInit<K, V>(pairs: seq<(K, V)>, k: K, i: int)
    requires IsLastWithKey(pairs, k, i) && i < |pairs| - 1
    ensures pairs[|pairs| - 1].0 != k && IsLastWithKey(pairs[..|pairs| - 1], k, i)
  {
    var init := pairs[..|pairs| - 1];
    assert forall j :: 0 <= j < |init| ==> init[j] == pairs[j];
  }

  /** `{u['user_id']: u for u in users}`. */
  function UserMap(users: seq<User>): map<string, User> {
    LastWins(seq(|users|, i requires 0 <= i < |users| => (users[i].user_id, users[i])))
  }
}
