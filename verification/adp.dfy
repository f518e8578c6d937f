/** What `calculate_adp` computes from the tracked drafts, stated as
    functions on the drafts: the picks of each player in the order they
    were made, the per-player statistics, and the rows `export_adp_to_csv`
    writes (mock_draft_tracker.py). The tracker's methods that compute
    these with loops are proved equal to them. */
module Adp {
  import opened Wrappers
  import opened Records
  import opened Sorting

  /** Every pick of every draft, draft by draft, in pick order. */
  function AllPicks(drafts: seq<MockDraft>): seq<DraftPick> {
    if drafts == [] then [] else AllPicks(drafts[..|drafts| - 1]) + drafts[|drafts| - 1].picks
  }

  function Names(picks: seq<DraftPick>): (r: seq<string>)
    ensures |r| == |picks| && forall i :: 0 <= i < |picks| ==> r[i] == picks[i].player_name
  {
    if picks == [] then [] else Names(picks[..|picks| - 1]) + [picks[|picks| - 1].player_name]
  }

  /** The overall pick numbers at which `name` was taken, in order. */
  function PicksOf(picks: seq<DraftPick>, name: string): (r: seq<int>)
    ensures r != [] <==> name in Names(picks)
    ensures |r| <= |picks|
  {
    if picks == [] then []
    else
      var last := picks[|picks| - 1];
      assert Names(picks) == Names(picks[..|picks| - 1]) + [last.player_name];
      PicksOf(picks[..|picks| - 1], name) + (if last.player_name == name then [last.overall_pick] else [])
  }

  lemma PicksOfSnoc(picks: seq<DraftPick>, p: DraftPick, n: string)
    ensures PicksOf(picks + [p], n) == PicksOf(picks, n) + (if p.player_name == n then [p.overall_pick] else [])
  {
    assert (picks + [p])[..|picks|] == picks;
  }

  lemma {:induction false} PicksOfAppend(a: seq<DraftPick>, b: seq<DraftPick>, name: string)
    ensures PicksOf(a + b, name) == PicksOf(a, name) + PicksOf(b, name)
  {
    if b == [] {
      assert a + b == a;
    } else {
      var b', last := b[..|b| - 1], b[|b| - 1];
      assert a + b == (a + b') + [last];
      assert b == b' + [last];
      PicksOfAppend(a, b', name);
      PicksOfSnoc(a + b', last, name);
      PicksOfSnoc(b', last, name);
      AppendAssoc(PicksOf(a, name), PicksOf(b', name), if last.player_name == name then [last.overall_pick] else []);
    }
  }

  /** The players drafted at least once, in order of their first pick. */
  function Players(drafts: seq<MockDraft>): (r: seq<string>)
    ensures forall n :: n in r <==> n in Names(AllPicks(drafts))
  {
    Dedup(Names(AllPicks(drafts)))
  }

  /** Each drafted name is a key once. */
  lemma PlayersDistinct(drafts: seq<MockDraft>)
    ensures forall i, j :: 0 <= i < j < |Players(drafts)| ==> Players(drafts)[i] != Players(drafts)[j]
  {
    DedupDistinct(Names(AllPicks(drafts)));
  }

  function Sum(s: seq<int>): int {
    if s == [] then 0 else Sum(s[..|s| - 1]) + s[|s| - 1]
  }

  function Min(s: seq<int>): (m: int)
    requires s != []
    ensures m in s && forall x :: x in s ==> m <= x
  {
    if |s| == 1 then s[0]
    else
      var m := Min(s[..|s| - 1]);
      assert forall x :: x in s ==> x in s[..|s| - 1] || x == s[|s| - 1];
      if s[|s| - 1] < m then s[|s| - 1] else m
  }

  function Max(s: seq<int>): (m: int)
    requires s != []
    ensures m in s && forall x :: x in s ==> x <= m
  {
    if |s| == 1 then s[0]
    else
      var m := Max(s[..|s| - 1]);
      assert forall x :: x in s ==> x in s[..|s| - 1] || x == s[|s| - 1];
      if s[|s| - 1] > m then s[|s| - 1] else m
  }

  /** `statistics.mean`. */
  function Mean(s: seq<int>): real
    requires s != []
  {
    Sum(s) as real / |s| as real
  }

  /** `statistics.median` of a sorted list: the middle element, or the
      mean of the two middle elements. */
  function MedianOfSorted(s: seq<int>): real
    requires s != []
  {
    var n := |s|;
    if n % 2 == 1 then s[n / 2] as real else (s[n / 2 - 1] + s[n / 2]) as real / 2.0
  }

  function SquaredDeviations(s: seq<int>, mean: real): real {
    if s == [] then 0.0
    else
      var d := s[|s| - 1] as real - mean;
      SquaredDeviations(s[..|s| - 1], mean) + d * d
  }

  /** The square of `statistics.stdev` (sample variance) when there are at
      least two picks, and 0 otherwise. */
  function Variance(s: seq<int>): real
    requires s != []
  {
    if |s| > 1 then SquaredDeviations(s, Mean(s)) / (|s| - 1) as real else 0.0
  }

  /** `round(x, 1)`: the nearest multiple of 0.1, ties to the even tenth. */
  function RoundTenth(x: real): (r: real)
    ensures (10.0 * r).Floor as real == 10.0 * r
    ensures -0.05 <= r - x <= 0.05
  {
    var y := x * 10.0;
    var f := y.Floor;
    var frac := y - f as real;
    var n := if frac < 0.5 then f else if frac > 0.5 then f + 1 else if f % 2 == 0 then f else f + 1;
    n as real / 10.0
  }

  /** An integer bound on `x` stays a bound after rounding to a tenth. */
  lemma RoundTenthWithin(x: real, lo: int, hi: int)
    requires lo as real <= x <= hi as real
    ensures lo as real <= RoundTenth(x) <= hi as real
  {
    var y := x * 10.0;
    assert (10 * lo) as real <= y <= (10 * hi) as real;
    assert 10 * lo <= y.Floor <= 10 * hi;
  }

  /** One player's entry of `calculate_adp`. `variance` is the square of
      `std_dev` before rounding. */
  datatype AdpEntry = AdpEntry(
    player_name: string,
    times_drafted: nat,
    draft_percentage: real,
    average_pick: real,
    median_pick: real,
    earliest_pick: int,
    latest_pick: int,
    variance: real,
    all_picks: seq<int>)

  /** The statistics of one player drafted at `picks` over `total` drafts. */
  function Summarize(name: string, picks: seq<int>, total: nat): (e: AdpEntry)
    requires picks != [] && total >= 1
  {
    AdpEntry(
      name, |picks|, (|picks| as real / total as real) * 100.0,
      RoundTenth(Mean(picks)), MedianOfSorted(StableSort(picks, Identity, IntLe)),
      Min(picks), Max(picks), Variance(picks), StableSort(picks, Identity, IntLe))
  }

  function Identity(x: int): int {
    x
  }

  /** `calculate_adp`: one entry per drafted player, in order of the
      player's first pick (the order of the returned dict). */
  function AdpOf(drafts: seq<MockDraft>): (r: seq<AdpEntry>)
    ensures |r| == |Players(drafts)|
  {
    var players := Players(drafts);
    var all := AllPicks(drafts);
    assert forall k :: 0 <= k < |players| ==> players[k] in Names(all);
    if drafts == [] then []
    else seq(|players|, k requires 0 <= k < |players| => Summarize(players[k], PicksOf(all, players[k]), |drafts|))
  }

  lemma {:induction false} SumBounds(s: seq<int>, lo: int, hi: int)
    requires forall i :: 0 <= i < |s| ==> lo <= s[i] <= hi
    ensures lo * |s| <= Sum(s) <= hi * |s|
  {
    if s != [] {
      var init := s[..|s| - 1];
      assert forall i :: 0 <= i < |init| ==> init[i] == s[i];
      SumBounds(init, lo, hi);
      assert lo * |s| == lo * |init| + lo;
      assert hi * |s| == hi * |init| + hi;
    }
  }

  lemma {:induction false} SortedInts(s: seq<int>)
    ensures var r := StableSort(s, Identity, IntLe);
      multiset(r) == multiset(s) && forall i, j :: 0 <= i < j < |r| ==> r[i] <= r[j]
  {
    NumericOrders();
    StableSortCorrect(s, Identity, IntLe);
  }

  /** The facts about a sorted copy that the entry's fields rely on. */
  lemma {:induction false} SortedCopy(s: seq<int>)
    requires s != []
    ensures var r := StableSort(s, Identity, IntLe);
      && multiset(r) == multiset(s)
      && (forall i, j :: 0 <= i < j < |r| ==> r[i] <= r[j])
      && r[0] == Min(s) && r[|r| - 1] == Max(s)
  {
    SortedInts(s);
    SortedEnds(StableSort(s, Identity, IntLe), s);
  }

  /** A sorted rearrangement of `s` starts at its minimum and ends at its
      maximum. */
  lemma SortedEnds(r: seq<int>, s: seq<int>)
    requires s != [] && multiset(r) == multiset(s)
    requires forall i, j :: 0 <= i < j < |r| ==> r[i] <= r[j]
    ensures r[0] == Min(s) && r[|r| - 1] == Max(s)
  {
    SameMembers(r, s);
    var i :| 0 <= i < |r| && r[i] == Min(s);
    var j :| 0 <= j < |r| && r[j] == Max(s);
    assert r[0] <= r[i] && r[j] <= r[|r| - 1];
    assert r[0] in s && r[|r| - 1] in s;
  }

  lemma SameMembers(a: seq<int>, b: seq<int>)
    requires multiset(a) == multiset(b)
    ensures forall x :: x in a <==> x in b
  {
    forall x ensures x in a <==> x in b {
      assert x in a <==> x in multiset(a);
      assert x in b <==> x in multiset(b);
    }
  }

  lemma MeanWithin(s: seq<int>)
    requires s != []
    ensures Min(s) as real <= Mean(s) <= Max(s) as real
  {
    assert forall i :: 0 <= i < |s| ==> s[i] in s;
    SumBounds(s, Min(s), Max(s));
    QuotientWithin(Sum(s), |s|, Min(s), Max(s));
  }

  lemma QuotientWithin(sum: int, n: int, lo: int, hi: int)
    requires n >= 1 && lo * n <= sum <= hi * n
    ensures lo as real <= sum as real / n as real <= hi as real
  {
    var q := sum as real / n as real;
    assert q * n as real == sum as real;
    assert (lo * n) as real == lo as real * n as real;
    assert (hi * n) as real == hi as real * n as real;
  }

  lemma MedianWithin(r: seq<int>)
    requires r != []
    requires forall i, j :: 0 <= i < j < |r| ==> r[i] <= r[j]
    ensures r[0] as real <= MedianOfSorted(r) <= r[|r| - 1] as real
  {
    var n := |r|;
    if n % 2 == 0 {
      assert r[0] <= r[n / 2 - 1] <= r[n / 2] <= r[n - 1];
    } else {
      assert r[0] <= r[n / 2] <= r[n - 1];
    }
  }

  lemma RoundTenthInteger(k: int)
    ensures RoundTenth(k as real) == k as real
  {
    assert (k as real * 10.0).Floor == 10 * k;
  }

  /** What an entry promises: it counts the player's picks, lists them in
      ascending order, its earliest and latest picks are the extremes of
      that list, and the average and median lie between them; a player
      drafted once has the one pick as average and median and no spread. */
  lemma SummarizeSpec(name: string, picks: seq<int>, total: nat)
    requires picks != [] && total >= 1
    ensures var e := Summarize(name, picks, total);
      && e.player_name == name && e.times_drafted == |picks|
      && multiset(e.all_picks) == multiset(picks)
      && (forall i, j :: 0 <= i < j < |e.all_picks| ==> e.all_picks[i] <= e.all_picks[j])
      && e.all_picks[0] == e.earliest_pick && e.all_picks[|e.all_picks| - 1] == e.latest_pick
      && e.earliest_pick as real <= e.average_pick <= e.latest_pick as real
      && e.earliest_pick as real <= e.median_pick <= e.latest_pick as real
      && (|picks| == 1 ==> e.variance == 0.0 && e.average_pick == e.median_pick == e.earliest_pick as real)
  {
    var r := StableSort(picks, Identity, IntLe);
    SortedCopy(picks);
    MedianWithin(r);
    MeanWithin(picks);
    RoundTenthWithin(Mean(picks), Min(picks), Max(picks));
    if |picks| == 1 {
      assert Sum(picks) == picks[0];
      RoundTenthInteger(picks[0]);
    }
  }

  /** `get_player_analysis`: the entry of the named player, if drafted. */
  function Lookup(entries: seq<AdpEntry>, name: string): (r: Option<AdpEntry>)
    ensures r.Some? ==> r.value in entries && r.value.player_name == name
    ensures r.None? ==> forall e :: e in entries ==> e.player_name != name
  {
    if entries == [] then None
    else if entries[0].player_name == name then Some(entries[0])
    else Lookup(entries[1..], name)
  }

  /** A player has an entry exactly when some tracked draft picked them,
      and that entry summarizes all of the player's picks. */
  lemma AnalysisSpec(drafts: seq<MockDraft>, name: string)
    ensures var r := Lookup(AdpOf(drafts), name);
      && (r.Some? <==> name in Names(AllPicks(drafts)))
      && (r.Some? ==> drafts != [] && r.value == Summarize(name, PicksOf(AllPicks(drafts), name), |drafts|))
  {
    AdpOfEntries(drafts);
    LookupByName(AdpOf(drafts), Players(drafts), name);
  }

  /** In entries named after `names`, the lookup finds `name` exactly when
      it is one of them, and then returns an entry at one of its places. */
  lemma {:induction false} LookupByName(entries: seq<AdpEntry>, names: seq<string>, name: string)
    requires |entries| == |names|
    requires forall k :: 0 <= k < |entries| ==> entries[k].player_name == names[k]
    ensures Lookup(entries, name).Some? <==> name in names
    ensures Lookup(entries, name).Some? ==>
      exists k :: 0 <= k < |names| && names[k] == name && entries[k] == Lookup(entries, name).value
  {
    if entries != [] && entries[0].player_name != name {
      LookupByName(entries[1..], names[1..], name);
      assert names == [names[0]] + names[1..];
      if Lookup(entries, name).Some? {
        var k :| 0 <= k < |names[1..]| && names[1..][k] == name && entries[1..][k] == Lookup(entries, name).value;
        assert names[k + 1] == name && entries[k + 1] == Lookup(entries, name).value;
      }
    }
  }

  /** Entry `k` of the result summarizes the `k`-th player's picks. */
  lemma AdpOfEntries(drafts: seq<MockDraft>)
    ensures forall k :: 0 <= k < |AdpOf(drafts)| ==>
      && drafts != [] && Players(drafts)[k] in Names(AllPicks(drafts))
      && AdpOf(drafts)[k].player_name == Players(drafts)[k]
      && AdpOf(drafts)[k] == Summarize(Players(drafts)[k], PicksOf(AllPicks(drafts), Players(drafts)[k]), |drafts|)
  {
    var players := Players(drafts);
    forall k | 0 <= k < |AdpOf(drafts)| ensures players[k] in Names(AllPicks(drafts)) {
      assert players[k] in players;
    }
  }

  /** A player taken first overall in one of two drafts and second in the
      other: drafted twice, at 1.5 on average, in every draft. */
  lemma SummarizeExample(name: string)
    ensures var e := Summarize(name, [1, 2], 2);
      && e.times_drafted == 2 && e.average_pick == 1.5 && e.draft_percentage == 100.0
      && e.earliest_pick == 1 && e.latest_pick == 2
  {
    assert [1, 2][..1] == [1];
    assert Sum([1, 2]) == 3;
    assert Mean([1, 2]) == 1.5;
    assert (1.5 * 10.0).Floor == 15;
  }

  /** The demonstration's two drafts, as far as its first player goes. */
  lemma TwoDraftExample(d1: MockDraft, d2: MockDraft)
    requires PicksOf(AllPicks([d1, d2]), "Ja'Marr Chase") == [1, 2]
    ensures var r := Lookup(AdpOf([d1, d2]), "Ja'Marr Chase");
      && r.Some?
      && r.value.times_drafted == 2 && r.value.average_pick == 1.5 && r.value.draft_percentage == 100.0
      && r.value.earliest_pick == 1 && r.value.latest_pick == 2
  {
    AnalysisSpec([d1, d2], "Ja'Marr Chase");
    SummarizeExample("Ja'Marr Chase");
  }

  /** Each player is picked at most once in a draft. */
  predicate DistinctNames(d: MockDraft) {
    forall i, j :: 0 <= i < j < |d.picks| ==> d.picks[i].player_name != d.picks[j].player_name
  }

  lemma {:induction false} AtMostOncePerDraft(picks: seq<DraftPick>, name: string)
    requires forall i, j :: 0 <= i < j < |picks| ==> picks[i].player_name != picks[j].player_name
    ensures |PicksOf(picks, name)| <= 1
  {
    if picks != [] {
      var init := picks[..|picks| - 1];
      AtMostOncePerDraft(init, name);
    }
  }

  lemma {:induction false} TimesDraftedAtMostDrafts(drafts: seq<MockDraft>, name: string)
    requires forall d :: d in drafts ==> DistinctNames(d)
    ensures |PicksOf(AllPicks(drafts), name)| <= |drafts|
  {
    if drafts != [] {
      var init := drafts[..|drafts| - 1];
      var last := drafts[|drafts| - 1];
      forall d | d in init ensures DistinctNames(d) {
        assert d in drafts;
      }
      assert last in drafts;
      TimesDraftedAtMostDrafts(init, name);
      PicksOfAppend(AllPicks(init), last.picks, name);
      AtMostOncePerDraft(last.picks, name);
    }
  }

  /** When no draft picks a player twice, every draft percentage lies in
      (0, 100]. */
  lemma PercentageBounds(drafts: seq<MockDraft>, e: AdpEntry)
    requires forall d :: d in drafts ==> DistinctNames(d)
    requires e in AdpOf(drafts)
    ensures 0.0 < e.draft_percentage <= 100.0
  {
    var players := Players(drafts);
    var k :| 0 <= k < |players| && AdpOf(drafts)[k] == e;
    assert drafts != [];
    assert players[k] in players;
    assert PicksOf(AllPicks(drafts), players[k]) != [];
    assert e == Summarize(players[k], PicksOf(AllPicks(drafts), players[k]), |drafts|);
    TimesDraftedAtMostDrafts(drafts, players[k]);
    assert 1 <= e.times_drafted;
    assert e.times_drafted <= |drafts|;
    PercentageAtMost100(e.times_drafted, |drafts|);
  }

  lemma PercentageAtMost100(k: nat, n: nat)
    requires 1 <= k <= n
    ensures 0.0 < (k as real / n as real) * 100.0 <= 100.0
  {
    assert k as real / n as real <= 1.0;
  }

  /** A row of the exported CSV: the entry without `all_picks`, with its
      1-based rank. */
  datatype CsvRow = CsvRow(
    rank: nat, player_name: string, times_drafted: nat, draft_percentage: real,
    average_pick: real, median_pick: real, earliest_pick: int, latest_pick: int, variance: real)

  function AveragePick(e: AdpEntry): real {
    e.average_pick
  }

  /** `sorted(adp_data.values(), key=lambda x: x['average_pick'])`. */
  function ByAveragePick(entries: seq<AdpEntry>): (r: seq<AdpEntry>)
    ensures |r| == |entries|
  {
    StableSort(entries, AveragePick, RealLe)
  }

  function Row(rank: nat, e: AdpEntry): CsvRow {
    CsvRow(rank, e.player_name, e.times_drafted, e.draft_percentage,
           e.average_pick, e.median_pick, e.earliest_pick, e.latest_pick, e.variance)
  }

  /** The rows of `export_adp_to_csv`, ranked 1, 2, ... */
  function CsvRows(entries: seq<AdpEntry>): (rows: seq<CsvRow>)
    ensures |rows| == |entries|
  {
    var sorted := ByAveragePick(entries);
    seq(|sorted|, i requires 0 <= i < |sorted| => Row(i + 1, sorted[i]))
  }

  /** The exported rows are ranked 1..n in ascending average pick, cover
      every entry once, and keep entries with equal averages in the order
      of the ADP result. */
  lemma CsvRowsSpec(entries: seq<AdpEntry>)
    ensures var rows := CsvRows(entries);
      && (forall i :: 0 <= i < |rows| ==> rows[i].rank == i + 1)
      && (forall i, j :: 0 <= i < j < |rows| ==> rows[i].average_pick <= rows[j].average_pick)
      && StablySorted(ByAveragePick(entries), entries, AveragePick, RealLe)
      && (forall i :: 0 <= i < |rows| ==> rows[i] == Row(i + 1, ByAveragePick(entries)[i]))
  {
    NumericOrders();
    StableSortCorrect(entries, AveragePick, RealLe);
    var sorted := ByAveragePick(entries);
    var rows := CsvRows(entries);
    assert forall i :: 0 <= i < |rows| ==> rows[i] == Row(i + 1, sorted[i]);
    forall i, j | 0 <= i < j < |rows| ensures rows[i].average_pick <= rows[j].average_pick {
      assert RealLe(AveragePick(sorted[i]), AveragePick(sorted[j]));
    }
  }
}
