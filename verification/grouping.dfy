/** The dict of picks per player that `calculate_adp` fills with nested
    loops (mock_draft_tracker.py), stated one pick at a time and proved to
    agree with the whole-list functions of `Adp`. */
module Grouping {
  import opened Records
  import opened Sorting
  import opened Adp

  lemma LastSplit(picks: seq<DraftPick>)
    requires picks != []
    ensures picks[..|picks| - 1] + [picks[|picks| - 1]] == picks
  {
  }

  lemma NamesSnoc(picks: seq<DraftPick>, p: DraftPick)
    ensures Names(picks + [p]) == Names(picks) + [p.player_name]
  {
    assert (picks + [p])[..|picks|] == picks;
  }

  lemma DedupSnoc(s: seq<string>, x: string)
    ensures Dedup(s + [x]) == if x in Dedup(s) then Dedup(s) else Dedup(s) + [x]
  {
    assert (s + [x])[..|s|] == s;
  }

  /** `order` lists the names of `picks` once each, in order of first
      appearance, and `groups` maps each of them to its overall picks. */
  ghost predicate Grouped(order: seq<string>, groups: map<string, seq<int>>, picks: seq<DraftPick>) {
    && order == Dedup(Names(picks))
    && (forall n :: n in groups <==> n in Names(picks))
    && (forall n :: n in groups ==> groups[n] == PicksOf(picks, n))
  }

  /** One step of the loop that fills `player_picks` (a `defaultdict(list)`):
      the pick's overall number is appended to its player's list, and a
      player seen for the first time becomes the last key. */
  function AddPick(state: (seq<string>, map<string, seq<int>>), p: DraftPick): (seq<string>, map<string, seq<int>>) {
    var (order, groups) := state;
    if p.player_name in groups then (order, groups[p.player_name := groups[p.player_name] + [p.overall_pick]])
    else (order + [p.player_name], groups[p.player_name := [p.overall_pick]])
  }

  /** The keys and the dict after `AddPick` over all of `picks`. */
  function GroupAll(picks: seq<DraftPick>): (seq<string>, map<string, seq<int>>) {
    if picks == [] then ([], map[]) else AddPick(GroupAll(picks[..|picks| - 1]), picks[|picks| - 1])
  }

  /** One `player_picks[name].append(overall)` keeps the dict grouped: a
      player already in the dict has the pick added to their list, a new
      player becomes the last key with a one-pick list. */
  lemma GroupedStep(order: seq<string>, groups: map<string, seq<int>>, picks: seq<DraftPick>, p: DraftPick)
    requires Grouped(order, groups, picks)
    ensures Grouped(AddPick((order, groups), p).0, AddPick((order, groups), p).1, picks + [p])
  {
    StepOrder(order, groups, picks, p);
    StepKeys(order, groups, picks, p);
    StepValues(order, groups, picks, p);
  }

  lemma StepOrder(order: seq<string>, groups: map<string, seq<int>>, picks: seq<DraftPick>, p: DraftPick)
    requires Grouped(order, groups, picks)
    ensures AddPick((order, groups), p).0 == Dedup(Names(picks + [p]))
  {
    NamesSnoc(picks, p);
    DedupSnoc(Names(picks), p.player_name);
  }

  lemma StepKeys(order: seq<string>, groups: map<string, seq<int>>, picks: seq<DraftPick>, p: DraftPick)
    requires forall n :: n in groups <==> n in Names(picks)
    ensures forall n :: n in AddPick((order, groups), p).1 <==> n in Names(picks + [p])
  {
    var x := p.player_name;
    var v := if x in groups then groups[x] + [p.overall_pick] else [p.overall_pick];
    assert AddPick((order, groups), p).1 == groups[x := v];
    NamesSnoc(picks, p);
    KeysSnoc(groups, Names(picks), x, v);
  }

  lemma StepValues(order: seq<string>, groups: map<string, seq<int>>, picks: seq<DraftPick>, p: DraftPick)
    requires forall n :: n in groups <==> n in Names(picks)
    requires forall n :: n in groups ==> groups[n] == PicksOf(picks, n)
    ensures forall n :: n in AddPick((order, groups), p).1 ==> AddPick((order, groups), p).1[n] == PicksOf(picks + [p], n)
  {
    var x := p.player_name;
    var v := if x in groups then groups[x] + [p.overall_pick] else [p.overall_pick];
    assert AddPick((order, groups), p).1 == groups[x := v];
    PicksOfSnoc(picks, p, x);
    PicksOfOthers(picks, p);
    ValuesSnoc(groups, x, v, (n: string) => PicksOf(picks, n), (n: string) => PicksOf(picks + [p], n));
  }

  /** A key added to a dict whose keys are the names `ns`. */
  lemma KeysSnoc(groups: map<string, seq<int>>, ns: seq<string>, x: string, v: seq<int>)
    requires forall n :: n in groups <==> n in ns
    ensures forall n :: n in groups[x := v] <==> n in ns + [x]
  {
    forall n ensures n in groups[x := v] <==> n in ns + [x] {
      assert n in ns + [x] <==> n in ns || n == x;
    }
  }

  /** The picks of every other player are unchanged by `p`. */
  lemma PicksOfOthers(picks: seq<DraftPick>, p: DraftPick)
    ensures forall n :: n != p.player_name ==> PicksOf(picks + [p], n) == PicksOf(picks, n)
  {
    forall n | n != p.player_name ensures PicksOf(picks + [p], n) == PicksOf(picks, n) {
      PicksOfSnoc(picks, p, n);
    }
  }

  /** A dict holding `before` for each key, updated at `x` to what `after`
      gives there, holds `after` for each key when only `x` changed. */
  lemma ValuesSnoc(groups: map<string, seq<int>>, x: string, v: seq<int>, before: string -> seq<int>, after: string -> seq<int>)
    requires forall n :: n in groups ==> groups[n] == before(n)
    requires forall n :: n != x ==> after(n) == before(n)
    requires v == after(x)
    ensures forall n :: n in groups[x := v] ==> groups[x := v][n] == after(n)
  {
  }

  /** Filling the dict pick by pick yields every player once, in order of
      first appearance, with all of that player's overall picks in order. */
  lemma {:induction false} GroupAllSpec(picks: seq<DraftPick>)
    ensures Grouped(GroupAll(picks).0, GroupAll(picks).1, picks)
  {
    if picks != [] {
      var init := picks[..|picks| - 1];
      var p := picks[|picks| - 1];
      LastSplit(picks);
      GroupAllSpec(init);
      var state := GroupAll(init);
      GroupedStep(state.0, state.1, init, p);
      assert GroupAll(picks) == AddPick((state.0, state.1), p);
    }
  }

  /** The entries `calculate_adp` builds from the filled dict, key by key,
      are those of `AdpOf`. */
  lemma AdpFromGroups(drafts: seq<MockDraft>, order: seq<string>, groups: map<string, seq<int>>)
    requires (order, groups) == GroupAll(AllPicks(drafts))
    ensures |AdpOf(drafts)| == |order|
    ensures forall k :: 0 <= k < |order| ==>
      && order[k] in groups && groups[order[k]] != [] && drafts != []
      && AdpOf(drafts)[k] == Summarize(order[k], groups[order[k]], |drafts|)
  {
    var all := AllPicks(drafts);
    GroupAllSpec(all);
    assert order == Players(drafts);
    if drafts == [] {
      assert all == [];
    }
    forall k | 0 <= k < |order|
      ensures order[k] in groups && groups[order[k]] != [] && drafts != []
      ensures AdpOf(drafts)[k] == Summarize(order[k], groups[order[k]], |drafts|)
    {
      assert order[k] in Names(all);
      assert groups[order[k]] == PicksOf(all, order[k]);
    }
  }
}
