/** `SleeperMockImporter` (sleeper_mock_importer.py): turns the picks of a
    platform draft into a `MockDraft` and stores it in a tracker. Fetching
    is not modelled: the player directory the API returns, the picks of
    each draft and the current time are parameters. */
module Importer {
  import opened Wrappers
  import opened Text
  import opened Sleeper
  import opened Records
  import opened Tracker

  /** `get_player_name` for a loaded directory: the first and last name
      joined by a space and stripped, each missing part read as empty, or
      `Unknown Player (<id>)` for an unknown id. */
  function PlayerName(players: PlayerDirectory, id: string): (name: string)
    ensures id !in players ==> name == "Unknown Player (" + id + ")"
    ensures id in players ==> name == Strip(players[id].first_name.GetOr("") + " " + players[id].last_name.GetOr(""))
  {
    if id in players then
      var info := players[id];
      Strip(info.first_name.GetOr("") + " " + info.last_name.GetOr(""))
    else "Unknown Player (" + id + ")"
  }

  /** The `DraftPick` that one raw pick with a player id becomes. */
  function ConvertPick(players: PlayerDirectory, raw: RawPick): (p: DraftPick)
    requires HasPlayerId(raw)
    ensures p.player_id == raw.player_id && p.pick_num == p.overall_pick
  {
    var id := raw.player_id.value;
    var info := if id in players then players[id] else PlayerInfo(None, None, None, None, None, None);
    DraftPick(
      PlayerName(players, id), Some(id), info.position.GetOr("UNK"), info.team.GetOr("FA"),
      raw.round.GetOr(0), raw.pick_no.GetOr(0), raw.pick_no.GetOr(0),
      "Team" + IntToString(raw.draft_slot.GetOr(0)))
  }

  /** The picks the loop of `import_draft_by_id` appends: one per raw pick
      with a player id, in input order. */
  function ConvertPicks(players: PlayerDirectory, raw: seq<RawPick>): seq<DraftPick> {
    if raw == [] then []
    else
      var last := raw[|raw| - 1];
      ConvertPicks(players, raw[..|raw| - 1]) + (if HasPlayerId(last) then [ConvertPick(players, last)] else [])
  }

  /** Converting a concatenation converts each part: nothing is reordered
      and no pick depends on another. */
  lemma {:induction false} ConvertPicksAppend(players: PlayerDirectory, a: seq<RawPick>, b: seq<RawPick>)
    ensures ConvertPicks(players, a + b) == ConvertPicks(players, a) + ConvertPicks(players, b)
    decreases |b|
  {
    if b == [] {
      assert a + b == a;
    } else {
      assert (a + b)[..|a + b| - 1] == a + b[..|b| - 1];
      assert (a + b)[|a + b| - 1] == b[|b| - 1];
      ConvertPicksAppend(players, a, b[..|b| - 1]);
    }
  }

  /** A single raw pick yields exactly one pick when it has a player id and
      none otherwise. */
  lemma ConvertPicksSingle(players: PlayerDirectory, raw: RawPick)
    ensures ConvertPicks(players, [raw]) == if HasPlayerId(raw) then [ConvertPick(players, raw)] else []
  {
    assert [raw][..0] == [];
  }

  /** Every converted pick carries a player id, its pick number equals its
      overall number, and there are no more picks than raw picks. */
  lemma {:induction false} ConvertPicksSpec(players: PlayerDirectory, raw: seq<RawPick>)
    ensures |ConvertPicks(players, raw)| <= |raw|
    ensures forall k :: 0 <= k < |ConvertPicks(players, raw)| ==>
      && ConvertPicks(players, raw)[k].player_id.Some? && ConvertPicks(players, raw)[k].player_id.value != ""
      && ConvertPicks(players, raw)[k].pick_num == ConvertPicks(players, raw)[k].overall_pick
  {
    if raw != [] {
      ConvertPicksSpec(players, raw[..|raw| - 1]);
    }
  }

  /** `max(pick.round_num for pick in picks)`. */
  function MaxRound(picks: seq<DraftPick>): (m: int)
    requires picks != []
    ensures forall k :: 0 <= k < |picks| ==> picks[k].round_num <= m
    ensures exists k :: 0 <= k < |picks| && picks[k].round_num == m
  {
    if |picks| == 1 then picks[0].round_num
    else
      var rest := MaxRound(picks[..|picks| - 1]);
      var last := picks[|picks| - 1].round_num;
      assert forall k :: 0 <= k < |picks| - 1 ==> picks[..|picks| - 1][k] == picks[k];
      if last > rest then last else rest
  }

  function TeamLabels(picks: seq<DraftPick>): set<string> {
    set k | 0 <= k < |picks| :: picks[k].drafted_by_team
  }

  /** The labels taken by index are the labels of the picks as elements:
      `set(pick.drafted_by_team for pick in picks)`. */
  lemma TeamLabelsElements(picks: seq<DraftPick>)
    ensures TeamLabels(picks) == set p | p in picks :: p.drafted_by_team
  {
    forall x | x in set p | p in picks :: p.drafted_by_team
      ensures x in TeamLabels(picks)
    {
      var p :| p in picks && p.drafted_by_team == x;
      var k :| 0 <= k < |picks| && picks[k] == p;
    }
  }

  /** The number of distinct drafting teams is at least one and at most
      the number of picks. */
  lemma {:induction false} TeamLabelsBounds(picks: seq<DraftPick>)
    requires picks != []
    ensures 1 <= |TeamLabels(picks)| <= |picks|
  {
    assert picks[0].drafted_by_team in TeamLabels(picks);
    if |picks| > 1 {
      var init := picks[..|picks| - 1];
      TeamLabelsBounds(init);
      var t := picks[|picks| - 1].drafted_by_team;
      assert TeamLabels(picks) == TeamLabels(init) + {t} by {
        forall x ensures x in TeamLabels(picks) <==> x in TeamLabels(init) + {t} {
          if x in TeamLabels(picks) {
            var k :| 0 <= k < |picks| && picks[k].drafted_by_team == x;
            if k < |picks| - 1 {
              assert init[k] == picks[k];
            }
          }
          if x in TeamLabels(init) {
            var k :| 0 <= k < |init| && init[k].drafted_by_team == x;
            assert picks[k] == init[k];
          }
        }
      }
      if t in TeamLabels(init) {
        assert TeamLabels(init) + {t} == TeamLabels(init);
      } else {
        assert |TeamLabels(init) + {t}| == |TeamLabels(init)| + 1;
      }
      assert |TeamLabels(picks)| <= |TeamLabels(init)| + 1;
    } else {
      assert TeamLabels(picks) == {picks[0].drafted_by_team};
    }
  }

  /** The draft `import_draft_by_id` returns for non-empty raw picks: the
      rounds are the highest round and the league size the number of
      distinct drafting teams, 16 and 12 when no pick has a player id. */
  function ImportedDraft(players: PlayerDirectory, draftId: string, keepers: Option<seq<string>>,
                         raw: seq<RawPick>, now: DateTime): (d: MockDraft)
    ensures d.draft_id == draftId && d.draft_date == now
    ensures d.picks == ConvertPicks(players, raw)
    ensures d.keepers == keepers.GetOr([])
    ensures d.notes == Some("Imported from Sleeper draft " + draftId)
  {
    var picks := ConvertPicks(players, raw);
    var rounds := if picks != [] then MaxRound(picks) else 16;
    var size := if picks != [] then |TeamLabels(picks)| else 12;
    MockDraft(draftId, now, size, rounds, keepers.GetOr([]), picks, Some("Imported from Sleeper draft " + draftId))
  }

  /** The league size and the rounds of an imported draft. */
  lemma ImportedDraftShape(players: PlayerDirectory, draftId: string, keepers: Option<seq<string>>,
                           raw: seq<RawPick>, now: DateTime)
    ensures var d := ImportedDraft(players, draftId, keepers, raw, now);
      && (d.picks == [] ==> d.rounds == 16 && d.league_size == 12)
      && (d.picks != [] ==>
            && d.league_size == |set p | p in d.picks :: p.drafted_by_team|
            && 1 <= d.league_size <= |d.picks|
            && (forall k :: 0 <= k < |d.picks| ==> d.picks[k].round_num <= d.rounds)
            && (exists k :: 0 <= k < |d.picks| && d.picks[k].round_num == d.rounds))
  {
    var picks := ConvertPicks(players, raw);
    if picks != [] {
      TeamLabelsBounds(picks);
      TeamLabelsElements(picks);
    }
  }

  /** `ValueError` from `import_draft_by_id` when the draft has no picks. */
  datatype ImportError = NoPicks(draft_id: string)

  class SleeperMockImporter {
    /** `self.all_players`: `None` until the directory is fetched. */
    var allPlayers: Option<PlayerDirectory>
    var tracker: MockDraftTracker

    /** `__init__`; the tracker it opens is passed in. */
    constructor (t: MockDraftTracker)
      ensures allPlayers == None && tracker == t
    {
      allPlayers := None;
      tracker := t;
    }

    /** `load_players`: fetches the directory only the first time. */
    method LoadPlayers(fetched: PlayerDirectory)
      modifies this
      ensures tracker == old(tracker)
      ensures allPlayers == if old(allPlayers).None? then Some(fetched) else old(allPlayers)
    {
      if allPlayers.None? {
        allPlayers := Some(fetched);
      }
    }

    /** `get_player_name`: loads the directory when none is held (an empty
        one held already is kept), then looks the id up. */
    method GetPlayerName(id: string, fetched: PlayerDirectory) returns (name: string)
      modifies this
      ensures tracker == old(tracker)
      ensures allPlayers == if old(allPlayers).None? then Some(fetched) else old(allPlayers)
      ensures name == PlayerName(allPlayers.value, id)
    {
      if allPlayers.None? || allPlayers.value == map[] {
        LoadPlayers(fetched);
      }
      name := PlayerName(allPlayers.value, id);
    }

    /** `import_draft_by_id` for the fetched raw picks of `draftId`. */
    method ImportDraftById(draftId: string, keepers: Option<seq<string>>, raw: seq<RawPick>,
                           fetched: PlayerDirectory, now: DateTime)
      returns (r: Result<MockDraft, ImportError>)
      modifies this
      ensures tracker == old(tracker)
      ensures raw == [] ==> r == Err(NoPicks(draftId)) && allPlayers == old(allPlayers)
      ensures raw != [] ==> allPlayers == (if old(allPlayers).None? then Some(fetched) else old(allPlayers))
      ensures raw != [] ==> r == Ok(ImportedDraft(allPlayers.value, draftId, keepers, raw, now))
    {
      if raw == [] {
        return Err(NoPicks(draftId));
      }
      LoadPlayers(fetched);
      var players := allPlayers.value;
      var picks: seq<DraftPick> := [];
      var i := 0;
      while i < |raw|
        invariant 0 <= i <= |raw|
        invariant picks == ConvertPicks(players, raw[..i])
      {
        var p := raw[i];
        assert raw[..i + 1][..i] == raw[..i];
        if HasPlayerId(p) {
          var id := p.player_id.value;
          var info := if id in players then players[id] else PlayerInfo(None, None, None, None, None, None);
          var pick := DraftPick(
            PlayerName(players, id), Some(id), info.position.GetOr("UNK"), info.team.GetOr("FA"),
            p.round.GetOr(0), p.pick_no.GetOr(0), p.pick_no.GetOr(0),
            "Team" + IntToString(p.draft_slot.GetOr(0)));
          picks := picks + [pick];
        }
        i := i + 1;
      }
      assert raw[..i] == raw;
      var rounds := 16;
      var size := 12;
      if picks != [] {
        rounds := MaxRound(picks);
        size := |TeamLabels(picks)|;
      }
      r := Ok(MockDraft(draftId, now, size, rounds, keepers.GetOr([]), picks, Some("Imported from Sleeper draft " + draftId)));
    }

    /** One pass of the shared import loop: imports the selected draft and,
        when it has picks, adds it with its notes prefixed. */
    method ImportAndAdd(s: Selected, keepers: seq<string>, picksOf: string -> seq<RawPick>,
                        fetched: PlayerDirectory, now: DateTime) returns (added: bool)
      modifies this, tracker
      ensures tracker == old(tracker)
      ensures allPlayers == if picksOf(s.draft_id) == [] then old(allPlayers) else Some(old(allPlayers).GetOr(fetched))
      ensures added <==> picksOf(s.draft_id) != []
      ensures tracker.drafts == old(tracker.drafts) + ImportOne(old(allPlayers).GetOr(fetched), s, keepers, picksOf, now)
      ensures added ==> tracker.file == Holds(Serialize(tracker.drafts))
      ensures !added ==> tracker.file == old(tracker.file) && tracker.drafts == old(tracker.drafts)
    {
      var r := ImportDraftById(s.draft_id, Some(keepers), picksOf(s.draft_id), fetched, now);
      added := r.Ok?;
      if r.Ok? {
        var d := r.value.(notes := Some(s.prefix + r.value.notes.value));
        tracker.AddMockDraft(d);
      }
    }

    /** The import loop the scripts share: each selected draft id, with the
        text its notes are prefixed with, is imported and added to the
        tracker; a draft without picks is reported and skipped. The
        directory is fetched by the first import that reaches it, so it
        stays unloaded when no selected draft has picks. Returns
        `imported_count`. */
    method ImportSelected(selected: seq<Selected>, keepers: seq<string>,
                          picksOf: string -> seq<RawPick>, fetched: PlayerDirectory, now: DateTime)
      returns (count: nat)
      modifies this, tracker
      ensures tracker == old(tracker)
      ensures allPlayers == DirectoryAfter(old(allPlayers), fetched, selected, picksOf)
      ensures tracker.drafts == old(tracker.drafts) + ImportedAll(old(allPlayers).GetOr(fetched), selected, keepers, picksOf, now)
      ensures count == |ImportedAll(old(allPlayers).GetOr(fetched), selected, keepers, picksOf, now)|
      ensures count > 0 ==> tracker.file == Holds(Serialize(tracker.drafts))
      ensures count == 0 ==> tracker.file == old(tracker.file)
    {
      ghost var held := allPlayers;
      ghost var players := allPlayers.GetOr(fetched);
      ghost var before := tracker.drafts;
      ghost var done: seq<MockDraft> := [];
      count := 0;
      var i := 0;
      while i < |selected|
        invariant 0 <= i <= |selected|
        invariant allPlayers == DirectoryAfter(held, fetched, selected[..i], picksOf) && tracker == old(tracker)
        invariant allPlayers.GetOr(fetched) == players
        invariant done == ImportedAll(players, selected[..i], keepers, picksOf, now)
        invariant tracker.drafts == before + done && count == |done|
        invariant count > 0 ==> tracker.file == Holds(Serialize(tracker.drafts))
        invariant count == 0 ==> tracker.file == old(tracker.file)
      {
        var s := selected[i];
        ImportedAllSnoc(players, selected, i, keepers, picksOf, now);
        DirectoryStep(held, fetched, selected, i, picksOf);
        ghost var one := ImportOne(players, s, keepers, picksOf, now);
        var added := ImportAndAdd(s, keepers, picksOf, fetched, now);
        AppendAssoc(before, done, one);
        done := done + one;
        if added {
          count := count + 1;
        }
        i := i + 1;
      }
      assert selected[..i] == selected;
    }
  }

  /** A selected draft: its id and the text its notes are prefixed with. */
  datatype Selected = Selected(draft_id: string, prefix: string)

  /** Some selected draft has picks. */
  predicate AnyPicks(selected: seq<Selected>, picksOf: string -> seq<RawPick>) {
    exists k :: 0 <= k < |selected| && picksOf(selected[k].draft_id) != []
  }

  /** `all_players` after the import loop: `load_players` runs inside
      `import_draft_by_id` only for a draft with picks, so a directory not
      held before is fetched exactly when some selected draft has picks. */
  function DirectoryAfter(held: Option<PlayerDirectory>, fetched: PlayerDirectory, selected: seq<Selected>,
                          picksOf: string -> seq<RawPick>): (r: Option<PlayerDirectory>)
    ensures r.None? <==> held.None? && forall k :: 0 <= k < |selected| ==> picksOf(selected[k].draft_id) == []
    ensures r.Some? ==> r.value == held.GetOr(fetched)
  {
    if held.Some? || AnyPicks(selected, picksOf) then Some(held.GetOr(fetched)) else None
  }

  /** One more selected draft loads the directory iff it has picks. */
  lemma DirectoryStep(held: Option<PlayerDirectory>, fetched: PlayerDirectory, selected: seq<Selected>, i: nat,
                      picksOf: string -> seq<RawPick>)
    requires i < |selected|
    ensures var before := DirectoryAfter(held, fetched, selected[..i], picksOf);
      DirectoryAfter(held, fetched, selected[..i + 1], picksOf)
        == if picksOf(selected[i].draft_id) == [] then before else Some(before.GetOr(fetched))
  {
    AnyPicksSnoc(selected, i, picksOf);
  }

  lemma AnyPicksSnoc(selected: seq<Selected>, i: nat, picksOf: string -> seq<RawPick>)
    requires i < |selected|
    ensures AnyPicks(selected[..i + 1], picksOf) <==> AnyPicks(selected[..i], picksOf) || picksOf(selected[i].draft_id) != []
  {
    assert selected[..i + 1][i] == selected[i];
    if AnyPicks(selected[..i + 1], picksOf) && picksOf(selected[i].draft_id) == [] {
      var k :| 0 <= k < i + 1 && picksOf(selected[..i + 1][k].draft_id) != [];
      assert selected[..i][k] == selected[..i + 1][k];
    }
    if AnyPicks(selected[..i], picksOf) {
      var k :| 0 <= k < i && picksOf(selected[..i][k].draft_id) != [];
      assert selected[..i + 1][k] == selected[..i][k];
    }
  }

  /** What importing one selected draft adds: nothing when it has no
      picks, else the imported draft with its notes prefixed. */
  function ImportOne(players: PlayerDirectory, s: Selected, keepers: seq<string>,
                     picksOf: string -> seq<RawPick>, now: DateTime): (r: seq<MockDraft>)
    ensures |r| == if picksOf(s.draft_id) == [] then 0 else 1
    ensures r != [] ==>
      && r[0].draft_id == s.draft_id && r[0].keepers == keepers && r[0].draft_date == now
      && r[0].notes == Some(s.prefix + ("Imported from Sleeper draft " + s.draft_id))
  {
    var raw := picksOf(s.draft_id);
    if raw == [] then []
    else
      var d := ImportedDraft(players, s.draft_id, Some(keepers), raw, now);
      [d.(notes := Some(s.prefix + d.notes.value))]
  }

  /** The drafts the shared import loop adds, in selection order (a draft
      selected twice is added twice). */
  function ImportedAll(players: PlayerDirectory, selected: seq<Selected>, keepers: seq<string>,
                       picksOf: string -> seq<RawPick>, now: DateTime): seq<MockDraft>
  {
    if selected == [] then []
    else
      ImportedAll(players, selected[..|selected| - 1], keepers, picksOf, now)
      + ImportOne(players, selected[|selected| - 1], keepers, picksOf, now)
  }

  lemma ImportedAllSnoc(players: PlayerDirectory, selected: seq<Selected>, i: nat, keepers: seq<string>,
                        picksOf: string -> seq<RawPick>, now: DateTime)
    requires i < |selected|
    ensures ImportedAll(players, selected[..i + 1], keepers, picksOf, now)
         == ImportedAll(players, selected[..i], keepers, picksOf, now) + ImportOne(players, selected[i], keepers, picksOf, now)
  {
    assert selected[..i + 1][..i] == selected[..i];
  }

  lemma AppendAssoc<T>(a: seq<T>, b: seq<T>, c: seq<T>)
    ensures (a + b) + c == a + (b + c)
  {
  }

  /** At most one draft per selection, exactly one when every selected
      draft has picks. */
  lemma {:induction false} ImportedAllCount(players: PlayerDirectory, selected: seq<Selected>, keepers: seq<string>,
                                            picksOf: string -> seq<RawPick>, now: DateTime)
    ensures |ImportedAll(players, selected, keepers, picksOf, now)| <= |selected|
    ensures (forall k :: 0 <= k < |selected| ==> picksOf(selected[k].draft_id) != []) ==>
      |ImportedAll(players, selected, keepers, picksOf, now)| == |selected|
  {
    if selected != [] {
      var init := selected[..|selected| - 1];
      ImportedAllCount(players, init, keepers, picksOf, now);
      assert forall k :: 0 <= k < |init| ==> init[k] == selected[k];
    }
  }

  /** Every added draft comes from some selection: it has that draft's id,
      the keepers entered, and notes prefixed as the selection says. */
  lemma {:induction false} ImportedAllOrigin(players: PlayerDirectory, selected: seq<Selected>, keepers: seq<string>,
                                             picksOf: string -> seq<RawPick>, now: DateTime, d: MockDraft)
    requires d in ImportedAll(players, selected, keepers, picksOf, now)
    ensures d.keepers == keepers && d.draft_date == now
    ensures exists k ::
      && 0 <= k < |selected|
      && d.draft_id == selected[k].draft_id
      && d.notes == Some(selected[k].prefix + ("Imported from Sleeper draft " + selected[k].draft_id))
  {
    var init := selected[..|selected| - 1];
    if d in ImportedAll(players, init, keepers, picksOf, now) {
      ImportedAllOrigin(players, init, keepers, picksOf, now, d);
      var k :| 0 <= k < |init| && d.draft_id == init[k].draft_id
        && d.notes == Some(init[k].prefix + ("Imported from Sleeper draft " + init[k].draft_id));
      assert selected[k] == init[k];
    } else {
      assert selected[|selected| - 1].draft_id == d.draft_id;
    }
  }
}
