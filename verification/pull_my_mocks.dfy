/** `pull_user_mocks` (pull_my_mocks.py): offers the user's recent drafts,
    reads which to import and the league's keepers, and imports the chosen
    drafts. Finding the recent drafts depends on the clock and the network,
    so they are a parameter; the answers typed are the lines of `input`,
    and running out of lines is the `EOFError` that ends the script. */
module PullMyMocks {
  import opened Wrappers
  import opened Text
  import opened Sleeper
  import opened Records
  import opened Selection
  import opened Importer
  import ManualEntry

  /** Where the script stops: before importing, or after importing
      `imported` drafts. */
  datatype Outcome = NoRecentDrafts | InvalidSelection | NoneSelected | InputEnded | Done(imported: nat)

  /** The selection prompt: the 0-based positions chosen among `n` drafts, in the
      order typed and with repeats; `None` when the answer is rejected. */
  function SelectedIndices(answer: string, n: nat): (r: Option<seq<int>>)
    ensures r.Some? ==> forall k :: 0 <= k < |r.value| ==> 0 <= r.value[k] < n
    ensures ParseSelection(answer) == Some(All) ==> r == Some(Range(n))
    ensures r.None? <==> ParseSelection(answer).None?
  {
    match ParseSelection(answer)
    case None => None
    case Some(All) => Some(Range(n))
    case Some(Numbers(ix)) => Some(InRange(ix, n))
  }

  /** The drafts at the chosen positions, their notes left as imported. */
  function Chosen(recent: seq<string>, indices: seq<int>): (r: seq<Selected>)
    requires forall k :: 0 <= k < |indices| ==> 0 <= indices[k] < |recent|
    ensures |r| == |indices|
    ensures forall k :: 0 <= k < |indices| ==> r[k] == Selected(recent[indices[k]], "")
  {
    seq(|indices|, k requires 0 <= k < |indices| => Selected(recent[indices[k]], ""))
  }

  /** What the prompts decide: a stop, or the drafts to import and the
      keepers entered. */
  datatype Plan = Stop(outcome: Outcome) | Import(chosen: seq<Selected>, keepers: seq<string>)

  function PullPlan(recent: seq<string>, input: seq<string>): (p: Plan)
    ensures p.Stop? ==> p.outcome != Done(0) && !p.outcome.Done?
    ensures p.Import? ==> p.chosen != [] && recent != [] && |input| >= 2
    ensures p.Import? ==> forall k :: 0 <= k < |p.chosen| ==> p.chosen[k].draft_id in recent && p.chosen[k].prefix == ""
    ensures p.Import? ==> forall k :: 0 <= k < |p.keepers| ==> ManualEntry.Stripped(p.keepers[k])
  {
    if recent == [] then Stop(NoRecentDrafts)
    else if input == [] then Stop(InputEnded)
    else
      match SelectedIndices(input[0], |recent|)
      case None => Stop(InvalidSelection)
      case Some(indices) =>
        if indices == [] then Stop(NoneSelected)
        else
          match ManualEntry.ReadKeepers(input, 1, [])
          case None => Stop(InputEnded)
          case Some(found) =>
            ManualEntry.ReadKeepersSpec(input, 1, []);
            Import(Chosen(recent, indices), found.0)
  }

  /** Answering `all` imports every recent draft once, in the order
      offered. */
  lemma PullPlanAll(recent: seq<string>, input: seq<string>)
    requires recent != [] && |input| >= 1 && Lower(Strip(input[0])) == "all"
    requires ManualEntry.ReadKeepers(input, 1, []).Some?
    ensures PullPlan(recent, input).Import?
    ensures |PullPlan(recent, input).chosen| == |recent|
    ensures forall i :: 0 <= i < |recent| ==> PullPlan(recent, input).chosen[i] == Selected(recent[i], "")
  {
    assert ParseSelection(input[0]) == Some(All);
    var indices := Range(|recent|);
    assert SelectedIndices(input[0], |recent|) == Some(indices);
    assert indices != [];
  }

  /** Answering with numbers imports the drafts at those positions, in
      the order typed, skipping numbers out of range; when none is in
      range nothing is imported. */
  lemma PullPlanNumbers(recent: seq<string>, input: seq<string>, ns: seq<int>)
    requires recent != [] && |input| >= 1
    requires ManualEntry.ReadKeepers(input, 1, []).Some?
    requires |ns| >= 1 && forall k :: 0 <= k < |ns| ==> ns[k] >= 1
    requires input[0] == Join(Numerals(ns), ',')
    ensures var ix := InRange(Decrement(ns), |recent|);
      PullPlan(recent, input) == (if ix == [] then Stop(NoneSelected)
        else Import(Chosen(recent, ix), ManualEntry.ReadKeepers(input, 1, []).value.0))
  {
    ParseSelectionNumbers(ns);
    assert SelectedIndices(input[0], |recent|) == Some(InRange(Decrement(ns), |recent|));
  }

  /** `pull_user_mocks` from the search for recent drafts on: the prompts,
      then the import loop. */
  method PullUserMocks(importer: SleeperMockImporter, recent: seq<string>, input: seq<string>,
                       picksOf: string -> seq<RawPick>, fetched: PlayerDirectory, now: DateTime)
    returns (outcome: Outcome)
    modifies importer, importer.tracker
    ensures importer.tracker == old(importer.tracker)
    ensures PullPlan(recent, input).Stop? ==>
      && outcome == PullPlan(recent, input).outcome
      && importer.allPlayers == old(importer.allPlayers)
      && importer.tracker.drafts == old(importer.tracker.drafts)
      && importer.tracker.file == old(importer.tracker.file)
    ensures PullPlan(recent, input).Import? ==>
      var plan := PullPlan(recent, input);
      && importer.allPlayers == DirectoryAfter(old(importer.allPlayers), fetched, plan.chosen, picksOf)
      && var added := ImportedAll(old(importer.allPlayers).GetOr(fetched), plan.chosen, plan.keepers, picksOf, now);
      && importer.tracker.drafts == old(importer.tracker.drafts) + added
      && outcome == Done(|added|)
  {
    if recent == [] {
      return NoRecentDrafts;
    }
    if input == [] {
      return InputEnded;
    }
    var indices := SelectedIndices(input[0], |recent|);
    if indices.None? {
      return InvalidSelection;
    }
    if indices.value == [] {
      return NoneSelected;
    }
    var keepers := ManualEntry.ReadKeepersLoop(input, 1);
    if keepers.None? {
      return InputEnded;
    }
    var count := importer.ImportSelected(Chosen(recent, indices.value), keepers.value.0, picksOf, fetched, now);
    outcome := Done(count);
  }
}
