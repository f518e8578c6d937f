/** `analyze_draft_value` and the report around it (data_analysis.py):
    each pick of a player with a known name that has an ADP gets the value
    `adp - pick_no`; the entries come out by value, highest first, and the
    report shows the first five and the last five. The ADP table and the
    picks come from the network and are parameters. */
module DraftValue {
  import opened Wrappers
  import opened Sorting
  import opened Sleeper

  /** Player name to average draft position. */
  type AdpData = map<string, real>

  datatype ValuePick = ValuePick(name: string, pick: int, adp: real, value: real)

  /** A kept pick without a `pick_no` raises. */
  datatype ValueError = MissingPickNo

  /** `all_players.get(player_id, {}).get('full_name')`. */
  function NameOf(p: RawPick, players: PlayerDirectory): Option<string> {
    if p.player_id.Some? && p.player_id.value in players then players[p.player_id.value].full_name else None
  }

  /** The filter of `analyze_draft_value`: the name is truthy and has an ADP. */
  predicate Valued(p: RawPick, adp: AdpData, players: PlayerDirectory) {
    var n := NameOf(p, players);
    n.Some? && n.value != "" && n.value in adp
  }

  /** The entry of a kept pick: its value is its ADP minus where it was
      actually taken, positive when the player came later than expected. */
  function Entry(p: RawPick, adp: AdpData, players: PlayerDirectory): (e: ValuePick)
    requires Valued(p, adp, players) && p.pick_no.Some?
    ensures e.name == NameOf(p, players).value && e.pick == p.pick_no.value
    ensures e.adp == adp[e.name] && e.value == e.adp - e.pick as real
  {
    var name := NameOf(p, players).value;
    ValuePick(name, p.pick_no.value, adp[name], adp[name] - p.pick_no.value as real)
  }

  /** `value_picks` before sorting. */
  function ValuePicks(picks: seq<RawPick>, adp: AdpData, players: PlayerDirectory): Result<seq<ValuePick>, ValueError> {
    if picks == [] then Ok([])
    else
      var last := picks[|picks| - 1];
      match ValuePicks(picks[..|picks| - 1], adp, players)
      case Err(e) => Err(e)
      case Ok(vs) =>
        if !Valued(last, adp, players) then Ok(vs)
        else if last.pick_no.None? then Err(MissingPickNo)
        else Ok(vs + [Entry(last, adp, players)])
  }

  /** The positions of the picks that are kept, in increasing order. */
  function KeptIndices(picks: seq<RawPick>, adp: AdpData, players: PlayerDirectory): (ix: seq<int>)
    ensures |ix| <= |picks|
    ensures forall k :: 0 <= k < |ix| ==> 0 <= ix[k] < |picks| && Valued(picks[ix[k]], adp, players)
  {
    if picks == [] then []
    else
      var n := |picks| - 1;
      var init := KeptIndices(picks[..n], adp, players);
      assert forall k :: 0 <= k < |init| ==> picks[init[k]] == picks[..n][init[k]];
      init + (if Valued(picks[n], adp, players) then [n] else [])
  }

  /** The kept positions increase, and every valued pick is kept. */
  lemma {:induction false} KeptIndicesSpec(picks: seq<RawPick>, adp: AdpData, players: PlayerDirectory)
    ensures var ix := KeptIndices(picks, adp, players);
      && (forall k, l :: 0 <= k < l < |ix| ==> ix[k] < ix[l])
      && (forall i :: 0 <= i < |picks| && Valued(picks[i], adp, players) ==> i in ix)
  {
    if picks != [] {
      var n := |picks| - 1;
      var init := picks[..n];
      KeptIndicesSpec(init, adp, players);
      var ix0 := KeptIndices(init, adp, players);
      var ix := KeptIndices(picks, adp, players);
      assert ix == ix0 + (if Valued(picks[n], adp, players) then [n] else []);
      forall i | 0 <= i < |picks| && Valued(picks[i], adp, players) ensures i in ix {
        if i < n {
          assert init[i] == picks[i];
          assert i in ix0;
        }
      }
    }
  }

  /** A kept pick lacking `pick_no` makes the analysis fail. */
  lemma {:induction false} ValuePicksError(picks: seq<RawPick>, adp: AdpData, players: PlayerDirectory)
    ensures ValuePicks(picks, adp, players).Err? <==>
      exists i :: 0 <= i < |picks| && Valued(picks[i], adp, players) && picks[i].pick_no.None?
  {
    if picks != [] {
      var init := picks[..|picks| - 1];
      ValuePicksError(init, adp, players);
      if exists i :: 0 <= i < |init| && Valued(init[i], adp, players) && init[i].pick_no.None? {
        var i :| 0 <= i < |init| && Valued(init[i], adp, players) && init[i].pick_no.None?;
        assert picks[i] == init[i];
      }
      if exists i :: 0 <= i < |picks| && Valued(picks[i], adp, players) && picks[i].pick_no.None? {
        var i :| 0 <= i < |picks| && Valued(picks[i], adp, players) && picks[i].pick_no.None?;
        if i < |init| {
          assert init[i] == picks[i];
        }
      }
    }
  }

  /** Otherwise the entries are exactly those of the kept picks, one per
      kept pick, in pick order: no more entries than picks, and no two
      entries from the same pick. */
  lemma {:induction false} ValuePicksSpec(picks: seq<RawPick>, adp: AdpData, players: PlayerDirectory)
    requires ValuePicks(picks, adp, players).Ok?
    ensures var vs := ValuePicks(picks, adp, players).value;
      var ix := KeptIndices(picks, adp, players);
      && |vs| == |ix| <= |picks|
      && forall k :: 0 <= k < |ix| ==> picks[ix[k]].pick_no.Some? && vs[k] == Entry(picks[ix[k]], adp, players)
  {
    if picks != [] {
      var n := |picks| - 1;
      var init := picks[..n];
      ValuePicksSpec(init, adp, players);
      var vs0 := ValuePicks(init, adp, players).value;
      var ix0 := KeptIndices(init, adp, players);
      var vs := ValuePicks(picks, adp, players).value;
      var ix := KeptIndices(picks, adp, players);
      if Valued(picks[n], adp, players) {
        assert vs == vs0 + [Entry(picks[n], adp, players)];
        assert ix == ix0 + [n];
      } else {
        assert vs == vs0 && ix == ix0;
      }
      forall k | 0 <= k < |ix|
        ensures picks[ix[k]].pick_no.Some? && vs[k] == Entry(picks[ix[k]], adp, players)
      {
        if k < |ix0| {
          assert ix[k] == ix0[k] && vs[k] == vs0[k];
          assert picks[ix0[k]] == init[ix0[k]];
        }
      }
    }
  }

  function ValueOf(e: ValuePick): real {
    e.value
  }

  /** `sorted(value_picks, key=value, reverse=True)`. */
  function ByValue(vs: seq<ValuePick>): (r: seq<ValuePick>)
    ensures multiset(r) == multiset(vs)
  {
    StableSort(vs, ValueOf, Flip(RealLe))
  }

  /** Highest value first; equal values keep pick order. */
  lemma ByValueSorted(vs: seq<ValuePick>)
    ensures StablySorted(ByValue(vs), vs, ValueOf, Flip(RealLe))
    ensures forall i, j :: 0 <= i < j < |ByValue(vs)| ==> ByValue(vs)[i].value >= ByValue(vs)[j].value
  {
    NumericOrders();
    FlipPreorder(RealLe);
    StableSortCorrect(vs, ValueOf, Flip(RealLe));
    var r := ByValue(vs);
    forall i, j | 0 <= i < j < |r| ensures r[i].value >= r[j].value {
      assert Flip(RealLe)(ValueOf(r[i]), ValueOf(r[j]));
    }
  }

  /** What `analyze_draft_value` returns. */
  function AnalyzeDraftValueOf(picks: seq<RawPick>, adp: AdpData, players: PlayerDirectory): Result<seq<ValuePick>, ValueError> {
    match ValuePicks(picks, adp, players)
    case Err(e) => Err(e)
    case Ok(vs) => Ok(ByValue(vs))
  }

  /** `analyze_draft_value`: the loop, then the sort. */
  method AnalyzeDraftValue(picks: seq<RawPick>, adp: AdpData, players: PlayerDirectory) returns (r: Result<seq<ValuePick>, ValueError>)
    ensures r == AnalyzeDraftValueOf(picks, adp, players)
  {
    var vs: seq<ValuePick> := [];
    var i := 0;
    while i < |picks|
      invariant 0 <= i <= |picks|
      invariant ValuePicks(picks[..i], adp, players) == Ok(vs)
    {
      assert picks[..i + 1][..i] == picks[..i];
      var p := picks[i];
      var name := NameOf(p, players);
      if name.Some? && name.value != "" && name.value in adp {
        if p.pick_no.None? {
          assert picks[..i + 1][i] == p;
          assert ValuePicks(picks[..i + 1], adp, players) == Err(MissingPickNo);
          ValuePicksPrefixError(picks, i + 1, adp, players);
          return Err(MissingPickNo);
        }
        vs := vs + [Entry(p, adp, players)];
      }
      i := i + 1;
    }
    assert picks[..i] == picks;
    r := Ok(ByValue(vs));
  }

  /** An error among the first picks is an error of the whole list. */
  lemma {:induction false} ValuePicksPrefixError(picks: seq<RawPick>, n: int, adp: AdpData, players: PlayerDirectory)
    requires 0 <= n <= |picks| && ValuePicks(picks[..n], adp, players) == Err(MissingPickNo)
    ensures ValuePicks(picks, adp, players) == Err(MissingPickNo)
  {
    if n < |picks| {
      var init := picks[..|picks| - 1];
      assert init[..n] == picks[..n];
      ValuePicksPrefixError(init, n, adp, players);
    } else {
      assert picks[..n] == picks;
    }
  }

  /** Every entry of the analysis names a player with an ADP. */
  lemma AnalyzedNamesHaveAdp(picks: seq<RawPick>, adp: AdpData, players: PlayerDirectory)
    requires AnalyzeDraftValueOf(picks, adp, players).Ok?
    ensures forall e :: e in AnalyzeDraftValueOf(picks, adp, players).value ==> e.name in adp
  {
    var raw := ValuePicks(picks, adp, players).value;
    ValuePicksSpec(picks, adp, players);
    var ix := KeptIndices(picks, adp, players);
    forall e | e in AnalyzeDraftValueOf(picks, adp, players).value ensures e.name in adp {
      assert e in multiset(raw);
      var k :| 0 <= k < |raw| && raw[k] == e;
      assert e == Entry(picks[ix[k]], adp, players);
    }
  }

  // ----- the report -----

  /** The picks made by the user, as the main block selects them. */
  function UserPicks(picks: seq<RawPick>, userId: string): (r: seq<RawPick>)
    ensures |r| <= |picks|
    ensures forall p :: p in r <==> p in picks && p.picked_by == Some(userId)
  {
    if picks == [] then []
    else (if picks[0].picked_by == Some(userId) then [picks[0]] else []) + UserPicks(picks[1..], userId)
  }

  /** `value_analysis[:5]` and `value_analysis[-5:]`. */
  function Best(vs: seq<ValuePick>): (r: seq<ValuePick>)
    ensures r == vs[..if |vs| < 5 then |vs| else 5]
  {
    if |vs| < 5 then vs else vs[..5]
  }

  function Worst(vs: seq<ValuePick>): (r: seq<ValuePick>)
    ensures r == vs[if |vs| < 5 then 0 else |vs| - 5..]
  {
    if |vs| < 5 then vs else vs[|vs| - 5..]
  }

  /** The best entries are worth at least as much as any other, the worst
      at most as much as any other. */
  lemma BestWorst(vs: seq<ValuePick>)
    ensures forall b, e :: b in Best(ByValue(vs)) && e in ByValue(vs)[|Best(ByValue(vs))|..] ==> b.value >= e.value
    ensures forall w, e :: w in Worst(ByValue(vs)) && e in ByValue(vs)[..|ByValue(vs)| - |Worst(ByValue(vs))|] ==> e.value >= w.value
  {
    ByValueSorted(vs);
    var r := ByValue(vs);
    var nb := |Best(r)|;
    var nw := |r| - |Worst(r)|;
    forall b, e | b in Best(r) && e in r[nb..] ensures b.value >= e.value {
      var i :| 0 <= i < nb && r[i] == b;
      var j :| 0 <= j < |r| - nb && r[nb..][j] == e;
      assert r[nb + j] == e;
    }
    forall w, e | w in Worst(r) && e in r[..nw] ensures e.value >= w.value {
      var i :| 0 <= i < |r| - nw && r[nw..][i] == w;
      var j :| 0 <= j < nw && r[j] == e;
      assert r[nw + i] == w;
    }
  }

  /** What the script ends with. */
  datatype Report =
    | MissingData        // no player directory or no ADP table
    | NoPicks            // the draft has no picks
    | NoValue            // none of the user's picks could be valued
    | Failed(error: ValueError)
    | Shown(best: seq<ValuePick>, worst: seq<ValuePick>)

  /** The main block after the fetches: missing data raises, an empty draft
      and an empty analysis get a message, a failed analysis raises, and
      otherwise the best and worst five of the user's picks are shown. */
  function ValueReport(picks: seq<RawPick>, userId: string, adp: AdpData, players: PlayerDirectory): (r: Report)
    ensures r == MissingData <==> players == map[] || adp == map[]
    ensures r == NoPicks <==> players != map[] && adp != map[] && picks == []
    ensures r.Failed? <==> (players != map[] && adp != map[] && picks != []
      && ValuePicks(UserPicks(picks, userId), adp, players).Err?)
    ensures r.Shown? <==> (players != map[] && adp != map[] && picks != []
      && AnalyzeDraftValueOf(UserPicks(picks, userId), adp, players).Ok?
      && AnalyzeDraftValueOf(UserPicks(picks, userId), adp, players).value != [])
    ensures r == NoValue <==> (players != map[] && adp != map[] && picks != []
      && AnalyzeDraftValueOf(UserPicks(picks, userId), adp, players).Ok?
      && AnalyzeDraftValueOf(UserPicks(picks, userId), adp, players).value == [])
    ensures r.Shown? ==> var vs := AnalyzeDraftValueOf(UserPicks(picks, userId), adp, players);
      vs.Ok? && vs.value != [] && r.best == Best(vs.value) && r.worst == Worst(vs.value)
    ensures r.Shown? ==> forall e :: e in r.best ==> e.name in adp
  {
    if players == map[] || adp == map[] then MissingData
    else if picks == [] then NoPicks
    else
      match AnalyzeDraftValueOf(UserPicks(picks, userId), adp, players)
      case Err(e) => Failed(e)
      case Ok(vs) =>
        if vs == [] then NoValue
        else
          AnalyzedNamesHaveAdp(UserPicks(picks, userId), adp, players);
          Shown(Best(vs), Worst(vs))
  }
}
