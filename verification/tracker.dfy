/** `MockDraftTracker` (mock_draft_tracker.py): the list of tracked drafts
    and the data file that persists it. The file's contents are a field,
    so saving and loading are state changes of the tracker; printing is
    not modelled. */
module Tracker {
  import opened Wrappers
  import opened Text
  import opened Records
  import opened Adp
  import opened Sorting
  import opened Grouping
  import ManualEntry

  class MockDraftTracker {
    var drafts: seq<MockDraft>
    /** What the data file currently holds. */
    var file: FileState

    /** The attributes `__init__` sets before it loads the file. */
    constructor (f: FileState)
      ensures drafts == [] && file == f
    {
      drafts := [];
      file := f;
    }

    /** `__init__`: a tracker over the data file, or the exception that
        loading it raises. */
    static method Open(f: FileState) returns (r: Result<MockDraftTracker, LoadError>)
      ensures r.Ok? <==> LoadFile(f).Loaded?
      ensures r.Ok? ==> fresh(r.value) && r.value.file == f && r.value.drafts == LoadFile(f).drafts
      ensures r.Err? ==> r.error == LoadFile(f).error
    {
      var t := new MockDraftTracker(f);
      var raised := t.LoadData();
      if raised.Some? {
        return Err(raised.value);
      }
      return Ok(t);
    }

    /** `load_data`: replaces the drafts with what the file holds; an
        exception that is not caught leaves them unchanged. */
    method LoadData() returns (raised: Option<LoadError>)
      modifies this
      ensures file == old(file)
      ensures LoadFile(file).Loaded? ==> raised.None? && drafts == LoadFile(file).drafts
      ensures LoadFile(file).Raised? ==> raised == Some(LoadFile(file).error) && drafts == old(drafts)
    {
      match LoadFile(file)
      case Loaded(ds) =>
        drafts := ds;
        raised := None;
      case Raised(e) =>
        raised := Some(e);
    }

    /** `save_data`: the file holds the drafts, and reading it back gives
        them again. */
    method SaveData()
      modifies this
      ensures drafts == old(drafts)
      ensures file == Holds(Serialize(drafts))
      ensures LoadFile(file) == Loaded(drafts)
    {
      file := Holds(Serialize(drafts));
      SaveLoadRoundTrip(drafts);
    }

    /** `add_mock_draft`: appends the draft and saves. */
    method AddMockDraft(d: MockDraft)
      modifies this
      ensures drafts == old(drafts) + [d]
      ensures file == Holds(Serialize(drafts))
      ensures LoadFile(file) == Loaded(drafts)
    {
      drafts := drafts + [d];
      SaveData();
    }

    /** `calculate_adp`: whether to warn that there are fewer drafts than
        `minDrafts`, and the entry of every drafted player. */
    method CalculateAdp(minDrafts: int) returns (warning: bool, entries: seq<AdpEntry>)
      ensures warning <==> |drafts| < minDrafts
      ensures entries == AdpOf(drafts)
    {
      warning := |drafts| < minDrafts;
      var order, groups := GroupPicks();
      AdpFromGroups(drafts, order, groups);
      entries := SummarizeGroups(order, groups, |drafts|);
    }

    /** The loop of `calculate_adp` over the filled dict: one entry per key
        with picks, in key order. */
    static method SummarizeGroups(order: seq<string>, groups: map<string, seq<int>>, total: nat)
      returns (entries: seq<AdpEntry>)
      requires forall k :: 0 <= k < |order| ==> order[k] in groups
      requires order != [] ==> total >= 1
      ensures |entries| <= |order|
      ensures (forall k :: 0 <= k < |order| ==> groups[order[k]] != []) ==>
        |entries| == |order| && forall k :: 0 <= k < |order| ==> entries[k] == Summarize(order[k], groups[order[k]], total)
    {
      ghost var full := forall k :: 0 <= k < |order| ==> groups[order[k]] != [];
      entries := [];
      var k := 0;
      while k < |order|
        invariant 0 <= k <= |order|
        invariant |entries| <= k
        invariant full ==> |entries| == k && forall i :: 0 <= i < k ==> entries[i] == Summarize(order[i], groups[order[i]], total)
      {
        var picks := groups[order[k]];
        if |picks| >= 1 {
          entries := entries + [Summarize(order[k], picks, total)];
        }
        k := k + 1;
      }
    }

    /** The two nested loops of `calculate_adp` that fill `player_picks`:
        its keys in insertion order, and the dict itself. */
    method GroupPicks() returns (order: seq<string>, groups: map<string, seq<int>>)
      ensures (order, groups) == GroupAll(AllPicks(drafts))
    {
      order := [];
      groups := map[];
      ghost var seen: seq<DraftPick> := [];
      var i := 0;
      while i < |drafts|
        invariant 0 <= i <= |drafts|
        invariant seen == AllPicks(drafts[..i])
        invariant (order, groups) == GroupAll(seen)
      {
        var ps := drafts[i].picks;
        assert AllPicks(drafts[..i + 1]) == seen + ps by {
          assert drafts[..i + 1][..i] == drafts[..i];
        }
        var j := 0;
        ghost var prev := seen;
        while j < |ps|
          invariant 0 <= j <= |ps|
          invariant seen == prev + ps[..j]
          invariant (order, groups) == GroupAll(seen)
        {
          var p := ps[j];
          assert (seen + [p])[..|seen|] == seen;
          assert ps[..j + 1] == ps[..j] + [p];
          if p.player_name in groups {
            groups := groups[p.player_name := groups[p.player_name] + [p.overall_pick]];
          } else {
            order := order + [p.player_name];
            groups := groups[p.player_name := [p.overall_pick]];
          }
          seen := seen + [p];
          j := j + 1;
        }
        assert ps[..j] == ps;
        i := i + 1;
      }
      assert drafts[..i] == drafts;
    }

    /** `export_adp_to_csv`: the rows written below the header, from an
        ADP computed with the default `min_drafts` of 3. */
    method ExportAdpToCsv() returns (rows: seq<CsvRow>)
      ensures rows == CsvRows(AdpOf(drafts))
    {
      var _, entries := CalculateAdp(3);
      rows := RankRows(entries);
    }

    /** `get_player_analysis`: the player's entry when some tracked draft
        picked them. */
    method GetPlayerAnalysis(name: string) returns (r: Option<AdpEntry>)
      ensures r.Some? <==> name in Names(AllPicks(drafts))
      ensures r.Some? ==> drafts != [] && r.value == Summarize(name, PicksOf(AllPicks(drafts), name), |drafts|)
    {
      var _, entries := CalculateAdp(3);
      r := Lookup(entries, name);
      AnalysisSpec(drafts, name);
    }

    /** `create_mock_draft_from_input`, reading the answers from `input`
        one line per prompt; see `ManualEntry.CreateMockDraft`. */
    method CreateMockDraftFromInput(input: seq<string>, now: DateTime, autoId: string)
      returns (r: Result<MockDraft, ManualEntry.EntryError>)
      ensures r == ManualEntry.CreateMockDraft(input, now, autoId)
    {
      r := ManualEntry.CreateMockDraftLoop(input, now, autoId);
    }
  }

  /** The loop of `export_adp_to_csv` over the entries sorted by average
      pick, numbering them from 1. */
  method RankRows(entries: seq<AdpEntry>) returns (rows: seq<CsvRow>)
    ensures rows == CsvRows(entries)
  {
    var sorted := ByAveragePick(entries);
    rows := [];
    var rank := 1;
    while rank <= |sorted|
      invariant 1 <= rank <= |sorted| + 1
      invariant rows == CsvRows(entries)[..rank - 1]
    {
      rows := rows + [Row(rank, sorted[rank - 1])];
      rank := rank + 1;
    }
  }
}
