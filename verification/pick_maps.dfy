/** The dictionaries from player id to draft position that the roster
    scripts build from a draft's picks (grundle_draft_positions.py,
    roster_viewer.py, keeper_tool.py). Each script picks which picks count
    (its `key` returns `None` for a pick it skips) and what it records for
    a pick (its `val`); a later pick of the same player overwrites an
    earlier one. */
module PickMaps {
  import opened Wrappers
  import opened Sleeper

  /** The dictionary after assigning the picks in order. */
  function PickMap<V>(picks: seq<RawPick>, key: RawPick -> Option<string>, val: RawPick -> V): map<string, V> {
    if picks == [] then map[]
    else
      var m := PickMap(picks[..|picks| - 1], key, val);
      var p := picks[|picks| - 1];
      if key(p).Some? then m[key(p).value := val(p)] else m
  }

  /** Pick `i` is the last one recorded under `id`. */
  predicate IsLastFor<V>(picks: seq<RawPick>, key: RawPick -> Option<string>, id: string, i: int) {
    && 0 <= i < |picks|
    && key(picks[i]) == Some(id)
    && forall j :: i < j < |picks| ==> key(picks[j]) != Some(id)
  }

  /** An id is a key exactly when some pick is recorded under it, and its
      value comes from the last such pick. */
  lemma {:induction false} PickMapSpec<V>(picks: seq<RawPick>, key: RawPick -> Option<string>, val: RawPick -> V, id: string)
    ensures id in PickMap(picks, key, val) <==> exists i :: 0 <= i < |picks| && key(picks[i]) == Some(id)
    ensures forall i :: IsLastFor<V>(picks, key, id, i) ==>
      id in PickMap(picks, key, val) && PickMap(picks, key, val)[id] == val(picks[i])
  {
    if picks != [] {
      var init := picks[..|picks| - 1];
      PickMapSpec(init, key, val, id);
      forall i | IsLastFor<V>(picks, key, id, i) ensures PickMap(picks, key, val)[id] == val(picks[i]) {
        if i < |picks| - 1 {
          assert IsLastFor<V>(init, key, id, i);
        }
      }
      if exists i :: 0 <= i < |picks| && key(picks[i]) == Some(id) {
        var i :| 0 <= i < |picks| && key(picks[i]) == Some(id);
        if i < |picks| - 1 {
          assert key(init[i]) == Some(id);
        }
      }
    }
  }

  /** The `for pick in picks: ... map[id] = ...` loop. */
  method BuildPickMap<V>(picks: seq<RawPick>, key: RawPick -> Option<string>, val: RawPick -> V) returns (m: map<string, V>)
    ensures m == PickMap(picks, key, val)
  {
    m := map[];
    var i := 0;
    while i < |picks|
      invariant 0 <= i <= |picks|
      invariant m == PickMap(picks[..i], key, val)
    {
      assert picks[..i + 1][..i] == picks[..i];
      var p := picks[i];
      if key(p).Some? {
        m := m[key(p).value := val(p)];
      }
      i := i + 1;
    }
    assert picks[..i] == picks;
  }

  /** `pick.get('player_id')` when it is truthy: the key of the two scripts
      that skip picks without a player. */
  function TruthyPlayerId(p: RawPick): (k: Option<string>)
    ensures k.Some? <==> HasPlayerId(p)
    ensures k.Some? ==> k == p.player_id
  {
    if HasPlayerId(p) then p.player_id else None
  }
}
