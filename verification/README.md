# sleeper-tools, modelled in Dafny

sleeper-tools collects fantasy-football mock drafts and computes a custom
average draft position (ADP) for each player. It imports drafts from the
Sleeper API or takes them typed in by hand, and keeps them in a JSON file.
From the stored drafts it computes, per player:

- how often the player was drafted and in what share of the drafts;
- the mean, median, minimum and maximum overall pick, and the spread;
- the sorted list of picks.

It exports these rankings as CSV. Around this engine sit:

- scripts that choose which Sleeper drafts to import;
- roster tools that merge a league's rosters with its draft picks (the
  Grundle analyzer, the roster viewer, the keeper tool);
- a draft-value report against public ADP;
- a React front end with an ADP table and a keeper list.

This project models that core. Each module is one source file:

- **Records, Tracker, Adp, Grouping, ManualEntry**
  (`mock_draft_tracker.py`):
  - the `DraftPick` and `MockDraft` records and their JSON dictionaries,
    which round-trip;
  - `MockDraftTracker` as a class whose draft list only grows;
  - `calculate_adp` as nested loops, proved equal to whole-list functions;
  - the CSV ranking;
  - the typed-in draft with its slot arithmetic. The pick readers take the
    line parser as a parameter, so their loop lemmas hold for any parser
    that numbers its picks as asked; `ParsePickLine` is shown to be one.
- **Importer** (`sleeper_mock_importer.py`): Sleeper picks become
  `DraftPick`s, with the league size and the number of rounds derived from
  the picks that survive.
- **Grundle** (`grundle_draft_positions.py`), **RosterViewer**
  (`scripts/utilities/roster_viewer.py`) and **KeeperTool**
  (`keeper_tool.py`): the three roster × draft merges.
  - **PickMaps** holds the "last pick wins" dictionary that all three
    build.
  - **Sleeper** holds the API payload records they share.
- **DraftValue** (`data_analysis.py`): `analyze_draft_value` and the
  best/worst report.
- **Selection**, **PullMyMocks**, **MockDraftsOnly** and **LeagueMocks**:
  - the `"all"` / `"1,3,5"` selection parsing;
  - the import scripts' classification, ordering and selection rules.
- **KeeperList** (`frontend/src/KeeperTool.jsx`) and **AdpTable**
  (`frontend/src/App.jsx`): the front end's list and table logic.
- **Text**, **Sorting** and **Wrappers** are shared helpers:
  - Python's `strip`, `lower`, `split`, `in` and `int()`;
  - a stable sort, the model of `sorted`, `list.sort` and
    `Array.prototype.sort`;
  - `Option` and `Result`.

The network, the clock, the console and the file system are left out.
Every API reply, the current time, each typed answer and the data file's
contents are parameters or fields.

## Model

| member | source | states |
|---|---|---|
| Records.IsoFormat | mock_draft_tracker.py:72 | a draft date is written as `YYYY-MM-DDTHH:MM:SS`, followed by `.ffffff` only when the microseconds are not zero (19 or 26 characters) |
| Records.FromIsoFormat | mock_draft_tracker.py:77 | `datetime.fromisoformat` accepts only a date, or a date and time with optional microseconds, at the ISO positions; anything else is the `ValueError` |
| Records.DateRoundTrip | mock_draft_tracker.py:72-77 | the written date part parses back to the same year, month and day |
| Records.TimeRoundTrip | mock_draft_tracker.py:72-77 | the written time part parses back to the same hour, minute and second |
| Records.IsoRoundTrip | mock_draft_tracker.py:72-77 | reading back the date `isoformat` wrote gives the same date and time, microseconds included |
| Records.PickToDict | mock_draft_tracker.py:71 | `asdict` of a pick has exactly the eight field names as keys |
| Records.DictToPick | mock_draft_tracker.py:78 | `DraftPick(**pick)` succeeds only on an object whose keys are exactly the field names; a value that is not an object, or an object with other keys, is a `TypeError`; exact keys with a value of another JSON type give `Untyped` (see Left out) |
| Records.PickRoundTrip | mock_draft_tracker.py:71-78 | a pick turned into a dict and back is the same pick |
| Records.DecodeAll | mock_draft_tracker.py:53 | a list comprehension over decoded items yields one value per item, in order, or the first item's failure |
| Records.EncodeAll | mock_draft_tracker.py:64 | the list comprehension that encodes yields one dict per element, in order |
| Records.DecodeEncodeAll | mock_draft_tracker.py:53-64 | decoding the encoded list gives back the list whenever each element round-trips |
| Records.DecodeIterable | mock_draft_tracker.py:53 | iterating a JSON list decodes its items; any other value fails with `TypeError` unless it is empty |
| Records.DraftToDict | mock_draft_tracker.py:69-73 | `_mock_draft_to_dict` keeps every field, with the date as its ISO text and the picks and keepers in order |
| Records.DictToDraft | mock_draft_tracker.py:75-80 | `_dict_to_mock_draft` raises `KeyError` only for a missing date or picks key; a loaded draft had the required keys, and its date is the parse of the stored text |
| Records.DraftFields | mock_draft_tracker.py:80 | `MockDraft(**d)` keeps the parsed date and picks |
| Records.PicksRoundTrip | mock_draft_tracker.py:71-78 | a draft's picks, encoded and decoded, come back equal and in order |
| Records.DraftFieldsRoundTrip | mock_draft_tracker.py:71-80 | the encoded id, size, rounds, keepers and notes decode to the same draft |
| Records.DraftObjectLoads | mock_draft_tracker.py:69-80 | any object with the keys and values `_mock_draft_to_dict` writes loads back as that draft |
| Records.DraftRoundTrip | mock_draft_tracker.py:69-80 | `_dict_to_mock_draft(_mock_draft_to_dict(d))` is `d`: all fields, the picks in order, the date through `isoformat`/`fromisoformat` |
| Records.LoadFile | mock_draft_tracker.py:47-60 | a missing file, text that is not JSON and a `KeyError` all give no drafts; a list whose drafts all decode gives them in file order; any other error of the first failing draft escapes as that error; a document that is not a list gives no drafts when it is `{}` or `""` and escapes as a `TypeError` otherwise |
| Records.BadDateRaises | mock_draft_tracker.py:78 | a saved draft whose date is not ISO text makes loading raise `ValueError` |
| Records.Serialize | mock_draft_tracker.py:62-66 | `save_data` writes one dict per stored draft |
| Records.SaveLoadRoundTrip | mock_draft_tracker.py:47-66 | loading what `save_data` wrote gives back exactly the saved drafts |
| Tracker.MockDraftTracker.constructor | mock_draft_tracker.py:42-44 | a new tracker has no drafts and the given data file |
| Tracker.MockDraftTracker.Open | mock_draft_tracker.py:42-60 | `__init__` succeeds exactly when loading the file does, and then holds the loaded drafts |
| Tracker.MockDraftTracker.LoadData | mock_draft_tracker.py:47-60 | `load_data` replaces the drafts with what the file yields, and leaves the file untouched |
| Tracker.MockDraftTracker.SaveData | mock_draft_tracker.py:62-66 | `save_data` keeps the drafts, and the file then holds all of them so that loading it gives them back |
| Tracker.MockDraftTracker.AddMockDraft | mock_draft_tracker.py:82-85 | `add_mock_draft` appends exactly one draft at the end, leaves the earlier drafts in order, and persists the whole list |
| Tracker.MockDraftTracker.CalculateAdp | mock_draft_tracker.py:165-192 | `calculate_adp` warns exactly when there are fewer drafts than `min_drafts`; the warning does not change the entries, which are those of `Adp.AdpOf` |
| Tracker.MockDraftTracker.SummarizeGroups | mock_draft_tracker.py:177-190 | the loop over the filled dict skips no key when every list is non-empty, and then builds one summary per key in key order |
| Tracker.MockDraftTracker.GroupPicks | mock_draft_tracker.py:170-175 | the nested loops fill `player_picks` exactly as `Grouping.GroupAll` over all picks of all drafts |
| Tracker.MockDraftTracker.ExportAdpToCsv | mock_draft_tracker.py:194-217 | the exported rows are the ranked rows of the ADP entries |
| Tracker.MockDraftTracker.GetPlayerAnalysis | mock_draft_tracker.py:225-228 | there is an entry for a player exactly when some stored draft picked them, and it summarizes all of that player's picks |
| Tracker.MockDraftTracker.CreateMockDraftFromInput | mock_draft_tracker.py:88-163 | the interactive entry gives the draft `ManualEntry.CreateMockDraft` describes |
| Tracker.RankRows | mock_draft_tracker.py:212-217 | the `enumerate(sorted_players, 1)` loop gives the rows `Adp.CsvRows` describes |
| Adp.Names | mock_draft_tracker.py:173-175 | the player name of every pick, in order |
| Adp.PicksOf | mock_draft_tracker.py:173-175 | a player's list of overall picks is non-empty exactly when some pick carries the name |
| Adp.PicksOfAppend | mock_draft_tracker.py:173-175 | a player's picks over two runs of picks are those of the first run followed by those of the second |
| Adp.PicksOfSnoc | mock_draft_tracker.py:173-175 | one more pick appends its overall pick to its own player's list and to no other |
| Adp.Players | mock_draft_tracker.py:178 | the keys of `player_picks` are exactly the drafted names |
| Adp.PlayersDistinct | mock_draft_tracker.py:178 | each drafted name is a key only once |
| Adp.Min | mock_draft_tracker.py:186 | `min(picks)` is one of the picks and no pick is smaller |
| Adp.Max | mock_draft_tracker.py:187 | `max(picks)` is one of the picks and no pick is larger |
| Adp.RoundTenth | mock_draft_tracker.py:184 | `round(x, 1)` is a whole number of tenths within 0.05 of `x` |
| Adp.RoundTenthWithin | mock_draft_tracker.py:184 | rounding to a tenth keeps a value within integer bounds |
| Adp.RoundTenthInteger | mock_draft_tracker.py:184 | rounding leaves a whole number unchanged |
| Adp.AdpOf | mock_draft_tracker.py:177-192 | `calculate_adp` has exactly one entry per distinct player name |
| Adp.SumBounds | mock_draft_tracker.py:184 | the sum of picks lies between the count times the smallest and the count times the largest |
| Adp.SortedInts | mock_draft_tracker.py:189 | `sorted(picks)` is ascending and holds the same picks |
| Adp.SortedCopy | mock_draft_tracker.py:186-189 | the sorted picks are a sorted permutation of the picks; the first is `min(picks)` and the last is `max(picks)` |
| Adp.SortedEnds | mock_draft_tracker.py:186-189 | any sorted rearrangement of a non-empty list starts at its minimum and ends at its maximum |
| Adp.MeanWithin | mock_draft_tracker.py:184 | the mean lies between the smallest and the largest pick |
| Adp.QuotientWithin | mock_draft_tracker.py:184 | a sum between `lo * n` and `hi * n`, divided by `n`, lies between `lo` and `hi` |
| Adp.MedianWithin | mock_draft_tracker.py:185 | the median of sorted picks lies between the first and the last |
| Adp.SummarizeSpec | mock_draft_tracker.py:180-190 | per player: `times_drafted` counts the picks; `all_picks` is their sorted multiset; `earliest_pick` is its first and `latest_pick` its last; average and median lie between them; one pick gives no spread |
| Adp.Lookup | mock_draft_tracker.py:228 | `adp_data.get(name)` returns the player's entry, or nothing when no entry has that name |
| Adp.AnalysisSpec | mock_draft_tracker.py:170-192 | a player has an entry exactly when some draft picked them, and the entry summarizes all their picks over all stored drafts |
| Adp.AdpOfEntries | mock_draft_tracker.py:178-190 | entry `k` is named after the `k`-th key and summarizes exactly that player's picks |
| Adp.LookupByName | mock_draft_tracker.py:228 | `adp_data.get(name)` finds an entry exactly when the name is a key, and then the entry stored under it |
| Adp.SummarizeExample | demo_adp_system.py:17-55 | one player taken first overall in one draft and second in the other: drafted twice, mean 1.5, in 100% of the drafts |
| Adp.TwoDraftExample | demo_adp_system.py:17-55 | for two stored drafts picking Ja'Marr Chase at 1 and 2, the lookup gives times 2, average 1.5, percentage 100 |
| Adp.AtMostOncePerDraft | mock_draft_tracker.py:173-175 | a draft that picks nobody twice contributes at most one pick per player |
| Adp.TimesDraftedAtMostDrafts | mock_draft_tracker.py:173-183 | then no player is drafted more times than there are drafts |
| Adp.PercentageBounds | mock_draft_tracker.py:183 | `draft_percentage` is `100 * times_drafted / len(drafts)`, over every stored draft, and lies in (0, 100] when no draft repeats a player |
| Adp.PercentageAtMost100 | mock_draft_tracker.py:183 | `k / n * 100` lies in (0, 100] for `1 <= k <= n` |
| Adp.ByAveragePick | mock_draft_tracker.py:202 | sorting by average pick keeps the number of entries |
| Adp.CsvRows | mock_draft_tracker.py:212-217 | one row per ADP entry |
| Adp.CsvRowsSpec | mock_draft_tracker.py:202-217 | rows are ranked 1 to n by non-decreasing `average_pick`; ties keep the order of the ADP result; `all_picks` is dropped |
| Grouping.NamesSnoc | mock_draft_tracker.py:173-175 | one more pick adds its name at the end |
| Grouping.DedupSnoc | mock_draft_tracker.py:175 | a new key is added at the end of the dict's key order, an existing key keeps its place |
| Grouping.GroupedStep | mock_draft_tracker.py:175 | one `player_picks[name].append(overall)` keeps the keys in first-appearance order and each list equal to that player's picks |
| Grouping.StepOrder | mock_draft_tracker.py:175 | the key order after one step |
| Grouping.StepKeys | mock_draft_tracker.py:175 | the keys after one step are the names seen so far |
| Grouping.KeysSnoc | mock_draft_tracker.py:175 | adding a key to a dict whose keys are some names makes its keys those names and the new one |
| Grouping.StepValues | mock_draft_tracker.py:175 | every list after one step is its player's picks so far |
| Grouping.PicksOfOthers | mock_draft_tracker.py:175 | one more pick leaves every other player's picks unchanged |
| Grouping.ValuesSnoc | mock_draft_tracker.py:175 | updating one key to its new value keeps every other entry right |
| Grouping.GroupAllSpec | mock_draft_tracker.py:170-175 | after all picks, the dict has every player once, in order of first pick, with all of their picks in order |
| Grouping.AdpFromGroups | mock_draft_tracker.py:177-190 | building one entry per key of the filled dict gives `Adp.AdpOf` |
| ManualEntry.FloorDivSpec | mock_draft_tracker.py:115-116 | Python's `//` and `%` divide exactly, with the remainder taking the divisor's sign |
| ManualEntry.SlotSpec | mock_draft_tracker.py:114-116 | for overall pick `o` in `1..L*R`: `1 <= round <= R`, `1 <= pick <= L`, and `(round-1)*L + pick == o` |
| ManualEntry.ParsePickLine | mock_draft_tracker.py:120-145 | an empty line or one with fewer than four comma-separated parts is rejected; otherwise the pick carries the prompt's round, pick and overall numbers and no player id |
| ManualEntry.PickLineRoundTrip | mock_draft_tracker.py:125-144 | the fourth part is ignored; the drafting team is the fifth part, or `Team<pick>` by default |
| ManualEntry.JoinLength | mock_draft_tracker.py:125 | a line of `n` comma-separated parts is at least `n - 1` characters long |
| ManualEntry.ReadKeepersSpec | mock_draft_tracker.py:101-106 | the keeper prompt collects stripped, non-empty names in order until the first empty answer |
| ManualEntry.ReadPickSpec | mock_draft_tracker.py:118-146 | the pick prompt repeats until an answer parses, and the pick has the requested numbers |
| ManualEntry.NumberedSnoc | mock_draft_tracker.py:114-145 | appending the next pick keeps the picks numbered and slotted |
| ManualEntry.ReadPicksLength | mock_draft_tracker.py:113-146 | the pick loop gives one pick per overall number |
| ManualEntry.ReadPicksNumbered | mock_draft_tracker.py:113-146 | the picks are numbered 1, 2, ... and each sits in the round and pick its number gives |
| ManualEntry.ParsePickLineNumbers | mock_draft_tracker.py:118-146 | a parsed pick line has no player id and the round, pick and overall number the prompt asked for |
| ManualEntry.CreateMockDraftSpec | mock_draft_tracker.py:88-163 | a typed draft has `league_size * rounds` picks, numbered and slotted; keepers and notes are stripped and non-empty; the id is the typed one or the generated one; the date is the current time |
| ManualEntry.ReadKeepersLoop | mock_draft_tracker.py:101-106 | the keeper `while` loop reads what `ReadKeepers` describes |
| ManualEntry.ReadPickLoop | mock_draft_tracker.py:118-146 | the retry loop for one pick reads what `ReadPick` describes |
| ManualEntry.ReadPicksLoop | mock_draft_tracker.py:114-149 | the `for overall_pick` loop reads what `ReadPicks` describes |
| ManualEntry.ReadAllPicksLoop | mock_draft_tracker.py:113-149 | reading all picks reads what `ReadAllPicks` describes, none when the league has no slots |
| ManualEntry.CreateMockDraftLoop | mock_draft_tracker.py:88-163 | the prompts, answered line by line, give the draft `CreateMockDraft` describes |
| AdpTable.RequestSort | frontend/src/App.jsx:62-68 | a click sorts by the clicked column; descending exactly when that column was already sorted ascending |
| AdpTable.ClickTwice | frontend/tests/e2e.spec.cjs:59-69 | a second click on the same header flips the direction; from the initial ADP-ascending state, one click gives descending and a second gives ascending again |
| AdpTable.SortIndicator | frontend/src/App.jsx:70-73 | the arrow is ` ↕` exactly for an unsorted column, ` ▲` exactly for the column sorted ascending, ` ▼` exactly for the one sorted descending |
| AdpTable.IndicatorAfterClick | frontend/src/App.jsx:62-73 | after a click every other header shows ` ↕`, and the clicked one shows the direction the click chose |
| AdpTable.BoundOf | frontend/src/App.jsx:41-42 | `a[key] ?? Infinity`: a missing number becomes `Infinity` and only a missing one does |
| AdpTable.CellOf | frontend/src/App.jsx:41-42 | the name column compares as text, every other column as a number |
| AdpTable.CellLePreorder | frontend/src/App.jsx:44-50 | the comparison of two cells is a total preorder, so the comparator sorts consistently |
| AdpTable.SortedData | frontend/src/App.jsx:36-54 | no data gives no rows; otherwise the sorted copy holds exactly the fetched rows |
| AdpTable.SortedDataSpec | frontend/src/App.jsx:36-54 | the sorted copy is ordered by the configured column in the configured direction, and rows the comparator returns 0 for keep their fetched order |
| AdpTable.SortedByAdp | frontend/tests/e2e.spec.cjs:59-69 | by ADP, ascending puts the ADPs in non-decreasing order with missing ones last; descending puts them in non-increasing order with missing ones first |
| AdpTable.FilteredData | frontend/src/App.jsx:56-60 | a row is shown exactly when it is in the sorted rows and its lowercased name contains the lowercased search term; no more rows than sorted ones |
| AdpTable.FilterEmptyTerm | frontend/tests/e2e.spec.cjs:36-40 | clearing the search shows every sorted row again |
| AdpTable.FilterKeepsOrder | frontend/src/App.jsx:56-60 | the shown rows stay in the sorted order |
| KeeperList.Remove | frontend/src/KeeperTool.jsx:39-41 | removing drops every occurrence of the id and keeps every other id with its count |
| KeeperList.RemoveAppend | frontend/src/KeeperTool.jsx:40 | `filter` keeps the remaining ids in their order: it works part by part |
| KeeperList.RemoveAbsent | frontend/src/KeeperTool.jsx:40 | removing an id that is not selected changes nothing |
| KeeperList.RemoveDistinct | frontend/src/KeeperTool.jsx:40 | removing keeps a list without repeats without repeats |
| KeeperList.Toggle | frontend/src/KeeperTool.jsx:30-37 | after a tick, the ticked id is selected exactly when it was not before, and every other id is selected exactly as before |
| KeeperList.ToggleTwice | frontend/src/KeeperTool.jsx:30-37 | ticking an unselected box twice restores the list |
| KeeperList.ToggleDistinct | frontend/src/KeeperTool.jsx:30-37 | ticking never makes an id appear twice |
| KeeperList.RemoveAt | frontend/src/KeeperTool.jsx:47 | `splice(i, 1)` leaves the elements before `i` and shifts those after it one place left |
| KeeperList.InsertAt | frontend/src/KeeperTool.jsx:48 | `splice(j, 0, x)` puts `x` at `j`, leaves those before and shifts those after one place right |
| KeeperList.RemoveAtMultiset | frontend/src/KeeperTool.jsx:47 | splicing out removes just the one element |
| KeeperList.InsertAtMultiset | frontend/src/KeeperTool.jsx:48 | splicing in adds just the one element |
| KeeperList.RemoveInserted | frontend/src/KeeperTool.jsx:47-48 | splicing out what was just spliced in restores the list |
| KeeperList.MovedSpec | frontend/src/KeeperTool.jsx:43-51 | a drag keeps the length and the keepers, puts the dragged keeper at the destination and the others in their relative order |
| KeeperList.MovedInPlace | frontend/src/KeeperTool.jsx:43-51 | dropping a keeper where it was changes nothing |
| KeeperList.SpliceOut | frontend/src/KeeperTool.jsx:47 | the in-place `splice(i, 1)` on the copied array leaves the list without its element at `i` |
| KeeperList.SpliceIn | frontend/src/KeeperTool.jsx:48 | the in-place `splice(j, 0, x)` leaves the list with `x` inserted at `j` |
| KeeperList.DragEnd | frontend/src/KeeperTool.jsx:43-51 | a drop outside the list changes nothing; otherwise the new list is the moved list |
| KeeperTool.FirstOfSeason | keeper_tool.py:29 | the draft found is of the wanted season; there is none exactly when no draft is of that season |
| KeeperTool.FirstOfSeasonIsFirst | keeper_tool.py:29 | `next(...)` takes the first draft of that season |
| KeeperTool.PreviousSeasonPicks | keeper_tool.py:28-34 | without a draft of the season before, there are no picks |
| KeeperTool.KeeperPickMap | keeper_tool.py:43 | the map fails with `KeyError` exactly when some pick lacks its player id, round or pick; otherwise it keys every pick by player id |
| KeeperTool.KeeperPickMapSpec | keeper_tool.py:43 | each drafted player maps to the round and pick of their last pick |
| KeeperTool.PlayerOf | keeper_tool.py:56-66 | a listed player keeps the id, has the full name or `Unknown Player`, the position or `N/A`, and `N/A` for round and pick when not drafted |
| KeeperTool.KnownPlayersAppend | keeper_tool.py:55-66 | the players of a roster are listed in roster order |
| KeeperTool.ListedRosters | keeper_tool.py:46-53 | a roster gives a team exactly when it has an owner and players |
| KeeperTool.TeamsSpec | keeper_tool.py:45-72 | one team per such roster, in roster order, each holding that roster's owner and known players |
| KeeperTool.CollectTeams | keeper_tool.py:45-72 | the roster loop builds the teams `Teams` describes |
| KeeperTool.CollectPlayers | keeper_tool.py:55-65 | the player loop keeps the known players of a roster, in roster order, with their picks |
| KeeperTool.KeeperDataOf | keeper_tool.py:15-77 | no leagues is the error; otherwise the data is named after the first league |
| KeeperTool.GetKeeperData | keeper_tool.py:15-77 | `get_keeper_data` after the user lookup returns what `KeeperDataOf` describes |
| DraftValue.Entry | data_analysis.py:25-29 | a valued pick's entry carries the player's name, the pick number, the player's ADP, and the value `adp - pick_no` |
| DraftValue.KeptIndices | data_analysis.py:20-25 | only valued picks (known name with an ADP) are kept, by index |
| DraftValue.KeptIndicesSpec | data_analysis.py:20-25 | the kept indices increase, and every valued pick is kept |
| DraftValue.ValuePicksError | data_analysis.py:20-29 | the loop raises exactly when some valued pick lacks `pick_no` |
| DraftValue.ValuePicksPrefixError | data_analysis.py:20-29 | once a prefix of the picks raises, the whole loop raises |
| DraftValue.ValuePicksSpec | data_analysis.py:19-29 | otherwise the entries are those of the valued picks, one per valued pick, in pick order, never more than the picks |
| DraftValue.ByValue | data_analysis.py:31 | `sorted(..., reverse=True)` holds the same entries |
| DraftValue.ByValueSorted | data_analysis.py:31 | the entries go from highest value to lowest, and entries of equal value keep pick order |
| DraftValue.AnalyzeDraftValue | data_analysis.py:17-31 | the loop of `analyze_draft_value` computes the sorted entries or the error |
| DraftValue.AnalyzedNamesHaveAdp | data_analysis.py:25 | every analysed player has an ADP |
| DraftValue.UserPicks | data_analysis.py:58 | a pick is the user's exactly when it is one of the draft's picks and `picked_by` is the user; never more than the draft's picks |
| DraftValue.Best | data_analysis.py:63 | `value_analysis[:5]`: the first five entries, or all when there are fewer |
| DraftValue.Worst | data_analysis.py:67 | `value_analysis[-5:]`: the last five entries, or all when there are fewer |
| DraftValue.BestWorst | data_analysis.py:61-69 | no entry after the best five beats any of them, and none before the worst five is worse than any of them |
| DraftValue.ValueReport | data_analysis.py:50-73 | missing data exactly when either table is empty; no picks exactly when the draft is empty; failure exactly when the user's picks raise; the no-value message exactly when the analysis is empty; the tables are shown exactly when the analysis is non-empty, and they list its best and worst five, all of players with an ADP |
| Sleeper.SlotOf | grundle_draft_positions.py:150-152 | `d.get(key, 'N/A')` is the number when the key is present and `N/A` exactly when it is absent |
| Sleeper.DisplayPosition | grundle_draft_positions.py:189-193 | the shown position is `position`, or `N/A` without one; it differs only for a DL, LB or DB player with a non-empty `fantasy_positions`, and is then its first entry |
| Sleeper.LastWinsSpec | grundle_draft_positions.py:67 | a dict comprehension over pairs has a key exactly when some pair has it, with the value of the last such pair |
| Sleeper.LastWithKeyInit | grundle_draft_positions.py:67 | the last pair with a key, if not the very last pair, is also last among the pairs before it |
| PickMaps.PickMapSpec | grundle_draft_positions.py:146-153 | a player is in the pick map exactly when some counted pick names them, and maps to the value of the last such pick |
| PickMaps.BuildPickMap | grundle_draft_positions.py:146-153 | the `for pick in ...` loop builds that map |
| PickMaps.TruthyPlayerId | grundle_draft_positions.py:148 | a pick counts exactly when `pick.get('player_id')` is truthy, under that id |
| Grundle.FirstGrundle | grundle_draft_positions.py:40-45 | the league found has "grundle" in its lower-cased name; there is none exactly when no league has |
| Grundle.FirstGrundleIsFirst | grundle_draft_positions.py:42-45 | the loop with `break` finds the first such league |
| Sleeper.CompletedDrafts | grundle_draft_positions.py:85 | a draft is kept exactly when its status is `complete`; never more than the drafts; the same filter serves find_league_mocks.py:103 |
| Grundle.LatestIndex | grundle_draft_positions.py:92 | `max(..., key=last_picked)` is a draft with the largest `last_picked` (0 when absent), the first of several that tie |
| Grundle.LatestDraftPicks | grundle_draft_positions.py:71-105 | no picks exactly when no draft is complete or the latest completed draft has no picks; otherwise its non-empty picks |
| Grundle.DraftPickMapSpec | grundle_draft_positions.py:146-153 | a player named by a pick maps to the round and `pick_no` (as pick and overall) of their last pick |
| Grundle.DraftPickMapAbsent | grundle_draft_positions.py:146-153 | a player no pick names has no entry |
| Grundle.RowOf | grundle_draft_positions.py:184-204 | a player row keeps the id, is drafted exactly when the map gives a round, and is `N/A` for round and overall pick when not in the map |
| Grundle.Rows | grundle_draft_positions.py:184-206 | one row per roster player, in roster order |
| Grundle.ExtLePreorder | grundle_draft_positions.py:211-213 | comparing integers and `float('inf')` is a total preorder |
| Grundle.DraftedRows | grundle_draft_positions.py:209 | the drafted rows, all of them |
| Grundle.TallyCounts | grundle_draft_positions.py:208-216 | drafted plus undrafted players is the number of rows; `total_draft_picks` equals the drafted count |
| Grundle.TallyEarliest | grundle_draft_positions.py:211-212 | `earliest_pick` is at most every drafted player's pick, and is either still infinite or one of those picks |
| Grundle.TallyLatest | grundle_draft_positions.py:211-213 | `latest_pick` is at least every drafted player's pick and at least 0, and is either still 0 or one of those picks |
| Grundle.TeamCounts | grundle_draft_positions.py:167-216 | a team lists each roster player once, `total_players` is the roster size, drafted plus undrafted is the total, and the drafted count equals `total_draft_picks` |
| Grundle.TeamBounds | grundle_draft_positions.py:209-220 | every drafted player's pick lies between the team's earliest and latest pick; when `earliest_pick` shows `N/A`, every drafted player's pick is infinite |
| Grundle.TeamExtremesAttained | grundle_draft_positions.py:209-220 | the earliest pick is some drafted player's pick, and so is the latest unless it is the starting 0 |
| Grundle.SortPlayers | grundle_draft_positions.py:223-227 | sorting a team's players keeps the same players |
| Grundle.SortPlayersOrder | grundle_draft_positions.py:223-227 | drafted players come first, drafted ones by ascending overall pick, then by name; full ties keep roster order |
| Grundle.AnalyzeRoster | grundle_draft_positions.py:163-227 | the per-player loop builds the team `TeamOf` describes |
| Grundle.Owned | grundle_draft_positions.py:159-161 | a roster is analysed exactly when it has a truthy `owner_id` |
| Grundle.TeamsSpec | grundle_draft_positions.py:156-229 | one team per owned roster, in roster order |
| Grundle.AnalyzeTeams | grundle_draft_positions.py:156-229 | the roster loop builds those teams |
| Grundle.RosterDataOf | grundle_draft_positions.py:56-69 | `get_league_rosters` fails exactly when the rosters or the users are empty, and keeps the rosters |
| Grundle.AnalysisSpec | grundle_draft_positions.py:119-240 | an analysis exists exactly when there is a Grundle league with rosters and users and a non-empty player directory; it is named after that league and has one team per owned roster, in owner-name order |
| Grundle.GrundleDraftAnalyzer.constructor | grundle_draft_positions.py:20-29 | a new analyzer holds no league, roster, draft or player data |
| Grundle.GrundleDraftAnalyzer.FindGrundleLeague | grundle_draft_positions.py:31-54 | the loop finds the first Grundle league, or none |
| Grundle.GrundleDraftAnalyzer.AnalyzeRostersWithDraftData | grundle_draft_positions.py:119-240 | returns the analysis `AnalysisOf` describes; each step stores what it fetched, a missing draft is stored as no picks, and a step that finds nothing leaves the later fields as they were |
| RosterViewer.ChooseLeague | scripts/utilities/roster_viewer.py:36-58 | the league used is one of the user's; the first Grundle league when there is one; otherwise the first league when the answer is not a number |
| RosterViewer.ChooseLeagueNumber | scripts/utilities/roster_viewer.py:48-58 | a typed number in range picks that league, any other number the first |
| RosterViewer.ChooseLeagueParsed | scripts/utilities/roster_viewer.py:48-58 | an answer that parses to a number in range picks that league, to any other number the first |
| RosterViewer.SeasonsToTrySpec | scripts/utilities/roster_viewer.py:79 | the seasons tried are this one and the two before, newest first |
| RosterViewer.FirstPicksSpec | scripts/utilities/roster_viewer.py:78-99 | no picks exactly when no season tried yields any; otherwise the picks of the first season that does |
| RosterViewer.FindDraftPicks | scripts/utilities/roster_viewer.py:78-99 | the loop with `break` finds those picks |
| RosterViewer.ViewerRef | scripts/utilities/roster_viewer.py:114-117 | a pick's round, and `pick_no`, else `draft_slot`, else `N/A` |
| RosterViewer.PlayerOf | scripts/utilities/roster_viewer.py:131-150 | a listed player keeps the id, shows the display position, and is `N/A` for round and pick when not drafted |
| RosterViewer.KnownPlayersSpec | scripts/utilities/roster_viewer.py:129-150 | exactly the players the directory knows are listed, each with its own entry; never more than the roster |
| RosterViewer.CollectPlayers | scripts/utilities/roster_viewer.py:129-150 | the player loop builds that list |
| RosterViewer.ByPositionOrder | scripts/utilities/roster_viewer.py:155 | sorting by position keeps the same players |
| RosterViewer.ByPositionOrderSorted | scripts/utilities/roster_viewer.py:155 | the players come in position order, ties in roster order |
| RosterViewer.TeamsSpec | scripts/utilities/roster_viewer.py:119-156 | every team comes from a roster with an owner and players, and every such roster gives a team |
| RosterViewer.CollectTeams | scripts/utilities/roster_viewer.py:119-156 | the roster loop builds those teams |
| RosterViewer.RosterReportOf | scripts/utilities/roster_viewer.py:28-163 | no result exactly when the user has no leagues; otherwise it is named after the chosen league and its teams are in owner-name order |
| RosterViewer.GetRosterData | scripts/utilities/roster_viewer.py:28-163 | `get_roster_data` after the user lookup returns what `RosterReportOf` describes |
| RosterViewer.AllPlayersSpec | scripts/utilities/roster_viewer.py:215-225 | every player of every team appears under its owner, and nothing else does |
| RosterViewer.CollectAllPlayers | scripts/utilities/roster_viewer.py:215-225 | the nested loop builds that list |
| RosterViewer.PositionList | scripts/utilities/roster_viewer.py:227 | the position of each player, in order |
| RosterViewer.Headings | scripts/utilities/roster_viewer.py:227 | the headings are the distinct positions |
| RosterViewer.HeadingsSpec | scripts/utilities/roster_viewer.py:227 | a heading exists exactly for each position that occurs, each once, in increasing order |
| RosterViewer.OfPosition | scripts/utilities/roster_viewer.py:233 | the players of one position, each as often as in the list |
| RosterViewer.ByPosition | scripts/utilities/roster_viewer.py:227-242 | one group per heading, in heading order |
| RosterViewer.GroupCount | scripts/utilities/roster_viewer.py:233-238 | a group holds exactly the players of its position |
| RosterViewer.InGroup | scripts/utilities/roster_viewer.py:233 | a player is in a group exactly when it has the group's position |
| RosterViewer.GroupOrder | scripts/utilities/roster_viewer.py:235-238 | a group's players come by round (`N/A` as 999), then by name |
| RosterViewer.ExactlyOneHeading | scripts/utilities/roster_viewer.py:227-242 | every player appears under exactly one heading |
| Importer.PlayerName | sleeper_mock_importer.py:27-37 | a known player's name is the stripped `first last`; an unknown id gives `Unknown Player (<id>)` |
| Importer.ConvertPick | sleeper_mock_importer.py:54-75 | a converted pick keeps the raw pick's player id and uses `pick_no` both as pick and overall number |
| Importer.ConvertPicksAppend | sleeper_mock_importer.py:54-76 | the loop converts the raw picks in order, without reordering |
| Importer.ConvertPicksSingle | sleeper_mock_importer.py:55-57 | a raw pick yields one pick when it has a truthy player id and none otherwise |
| Importer.ConvertPicksSpec | sleeper_mock_importer.py:53-76 | every imported pick has a non-empty player id and equal pick and overall numbers; never more picks than raw picks |
| Importer.MaxRound | sleeper_mock_importer.py:80 | `max(round_num)` is the round of some pick and no pick's round exceeds it |
| Importer.TeamLabelsElements | sleeper_mock_importer.py:81 | the labels collected by position are `set(pick.drafted_by_team for pick in picks)` |
| Importer.TeamLabelsBounds | sleeper_mock_importer.py:81 | the number of distinct drafting teams is between 1 and the number of picks |
| Importer.ImportedDraft | sleeper_mock_importer.py:86-94 | an imported draft has the requested id, the current time, the converted picks, the keepers or `[]`, and the notes `Imported from Sleeper draft <id>` |
| Importer.ImportedDraftShape | sleeper_mock_importer.py:78-84 | without picks, 16 rounds and 12 teams; otherwise `rounds` is the largest pick round and the league size is the number of distinct `drafted_by_team` labels among the picks (repeats counted once), hence between 1 and the number of picks |
| Importer.SleeperMockImporter.constructor | sleeper_mock_importer.py:16-18 | a new importer has no player directory and the given tracker |
| Importer.SleeperMockImporter.LoadPlayers | sleeper_mock_importer.py:20-25 | the directory is fetched only when none is held |
| Importer.SleeperMockImporter.GetPlayerName | sleeper_mock_importer.py:27-37 | loads the directory when needed and returns `PlayerName` over it |
| Importer.SleeperMockImporter.ImportDraftById | sleeper_mock_importer.py:39-96 | no raw picks is the `ValueError` and loads nothing; otherwise the directory is loaded and the draft is `ImportedDraft` |
| Importer.ImportOne | find_mock_drafts_only.py:150-163 | importing one selected draft adds nothing when it has no picks, otherwise one draft with its id, the keepers, the current time and the notes prefixed as the script does |
| Importer.ImportedAllSnoc | find_mock_drafts_only.py:150-163 | one more selection adds what importing it adds, at the end |
| Importer.AppendAssoc | find_mock_drafts_only.py:150-163 | appending drafts one batch at a time is appending them all at once |
| Importer.ImportedAllCount | pull_my_mocks.py:81-91 | at most one draft per selection, exactly one each when every selected draft has picks |
| Importer.ImportedAllOrigin | pull_my_mocks.py:81-91 | every added draft comes from a selection: its id, the keepers entered, the current time and the prefixed notes |
| Importer.SleeperMockImporter.ImportAndAdd | pull_my_mocks.py:84-91 | one pass of the import loop adds a draft exactly when the selected draft has picks, appends it and saves the file; a failure changes nothing and leaves the directory as it was; a draft with picks loads the directory when none was held |
| Importer.SleeperMockImporter.ImportSelected | pull_my_mocks.py:81-91 | the loop appends the drafts `ImportedAll` describes, in selection order, counts them, and saves the file when any was added; the directory ends up loaded exactly when it was held before or some selected draft has picks |
| Importer.DirectoryAfter | sleeper_mock_importer.py:46-50 | the directory stays unloaded exactly when none was held and no selected draft has picks, since `load_players` runs only after the empty-picks check |
| Importer.DirectoryStep | sleeper_mock_importer.py:46-50 | one more selected draft loads the directory exactly when it has picks |
| Selection.ParseNumbers | pull_my_mocks.py:58 | every comma-separated part, stripped, is read by `int`; one index per part, each one less than its number; any part that is not a number fails the whole answer |
| Selection.ParseSelection | pull_my_mocks.py:52-62 | an answer reading `all` once stripped and lower-cased selects everything |
| Selection.InRange | pull_my_mocks.py:59 | only indices within the list are kept, never more than were typed |
| Selection.InRangeAppend | pull_my_mocks.py:59 | the kept indices stay in the typed order |
| Selection.InRangeCount | pull_my_mocks.py:59 | an in-range index is kept as often as it was typed, an out-of-range one never |
| Selection.Range | pull_my_mocks.py:55 | `range(n)` is `0, 1, ..., n - 1` |
| Selection.Pick | find_mock_drafts_only.py:122 | `[xs[i] for i in indices]`: one element per index, the one at that index |
| Selection.Numerals | pull_my_mocks.py:51-52 | the text of each typed number |
| Selection.Decrement | pull_my_mocks.py:58 | each 1-based number as a 0-based index |
| Selection.JoinNumerals | pull_my_mocks.py:51-52 | numbers typed with commas between them are only digits and commas |
| Selection.NumeralTextNormal | pull_my_mocks.py:52 | such an answer is unchanged by `strip().lower()` and is not `all` |
| Selection.JoinNonEmpty | pull_my_mocks.py:52 | joining parts whose first is not empty gives a non-empty answer |
| Selection.ParseNumbersOf | pull_my_mocks.py:58 | the numbers typed are read back as those numbers minus one |
| Selection.ParseSelectionNumbers | pull_my_mocks.py:52-62 | typing 1-based numbers separated by commas selects exactly those positions, as 0-based indices, in the typed order |
| PullMyMocks.SelectedIndices | pull_my_mocks.py:52-62 | the answer is invalid exactly when it is neither `all` nor numbers; `all` selects every position; every index returned is within the list |
| PullMyMocks.Chosen | pull_my_mocks.py:82-83 | the drafts at the chosen positions, in the chosen order, with no notes prefix |
| PullMyMocks.PullPlan | pull_my_mocks.py:32-78 | the script stops before importing without drafts, without a valid or non-empty selection, or when the input ends; otherwise it imports chosen recent drafts with stripped keepers |
| PullMyMocks.PullPlanAll | pull_my_mocks.py:54-55 | answering `all` imports every recent draft once, in listed order |
| PullMyMocks.PullPlanNumbers | pull_my_mocks.py:56-66 | answering with numbers imports the drafts at those positions that exist, in typed order, and stops when none does |
| PullMyMocks.PullUserMocks | pull_my_mocks.py:27-94 | a stop leaves the tracker, the directory and the file untouched; otherwise the imported drafts are appended in order, their number is reported, and the directory is loaded only if some chosen draft has picks |
| MockDraftsOnly.SeasonMocksSpec | find_mock_drafts_only.py:39-63 | a season's list holds exactly the info of its drafts that look like mock drafts, each tagged with the season |
| MockDraftsOnly.SeasonMocksLength | find_mock_drafts_only.py:39-63 | a season lists no more mocks than it has drafts |
| MockDraftsOnly.SeasonMocksHas | find_mock_drafts_only.py:39-63 | every draft that looks like a mock draft is listed |
| MockDraftsOnly.SeasonMocksFrom | find_mock_drafts_only.py:39-63 | everything listed comes from a draft that looks like a mock draft |
| MockDraftsOnly.CollectMocks | find_mock_drafts_only.py:28-72 | the loops gather the seasons 2025, 2024 and 2023 in that order |
| MockDraftsOnly.Newest | find_mock_drafts_only.py:88 | sorting keeps the same mock drafts |
| MockDraftsOnly.NewestSorted | find_mock_drafts_only.py:88 | newest first; drafts created at the same moment keep their gathered order |
| MockDraftsOnly.Completed | find_mock_drafts_only.py:103 | exactly the completed mock drafts, never more than the list |
| MockDraftsOnly.ToImport | find_mock_drafts_only.py:150-156 | each selected mock draft is imported with the notes prefix `Mock Draft - Season <season> - ` |
| MockDraftsOnly.Choose | find_mock_drafts_only.py:115-127 | `all` picks the completed mock drafts; whatever is picked is a completed mock draft of the list |
| MockDraftsOnly.ChooseNumbers | find_mock_drafts_only.py:121-124 | numbers pick the drafts at those positions of the whole list, then keep only the completed ones |
| MockDraftsOnly.MockPlan | find_mock_drafts_only.py:74-144 | an import takes a non-empty list of completed mock drafts and stripped keepers; a stop imports nothing |
| MockDraftsOnly.FindMockDraftsOnly | find_mock_drafts_only.py:21-190 | a stop returns no drafts and leaves the tracker, the directory and the file untouched; otherwise the selected drafts are returned, their imports appended in order, and the directory is loaded only if some selected draft has picks |
| LeagueMocks.LastTargetNone | find_league_mocks.py:35-47 | no target league exactly when no league name mentions `11:59` or `eleven` |
| LeagueMocks.LastTargetLast | find_league_mocks.py:37-45 | the loop keeps the last matching league, not the first |
| LeagueMocks.FindTarget | find_league_mocks.py:35-45 | the loop over the leagues finds that league |
| LeagueMocks.TargetLeague | find_league_mocks.py:47-64 | the league used is one of the user's; without a match, an answer that is not a number, out of range, or missing stops the script |
| LeagueMocks.ChooseLeague | find_league_mocks.py:35-64 | the search and the fallback prompt give what `TargetLeague` describes |
| LeagueMocks.InLeague | find_league_mocks.py:71 | exactly the drafts of the target league, never more than the drafts |
| LeagueMocks.NewestDrafts | find_league_mocks.py:85 | sorting keeps the same drafts |
| LeagueMocks.NewestDraftsSorted | find_league_mocks.py:85 | newest first; drafts created at the same moment keep their listed order |
| LeagueMocks.LeagueDrafts | find_league_mocks.py:70-85 | the drafts offered are exactly the target league's |
| LeagueMocks.ChooseDrafts | find_league_mocks.py:100-110 | `all` picks the completed drafts; an answer that is neither is invalid; anything picked is one of the offered drafts |
| LeagueMocks.ChooseDraftsNumbers | find_league_mocks.py:105-107 | numbers pick the drafts at those positions, completed or not, in typed order |
| LeagueMocks.ToImport | find_league_mocks.py:132-138 | each selected draft is imported with the notes prefix `11:59ers League - ` |
| LeagueMocks.LeaguePlan | find_league_mocks.py:30-126 | an import needs a target league and a non-empty selection of its drafts, with stripped keepers; a stop imports nothing |
| LeagueMocks.DraftPlan | find_league_mocks.py:73-124 | from the league's drafts: an import selects some of them, with stripped keepers |
| LeagueMocks.FindLeagueMocks | find_league_mocks.py:20-169 | a stop leaves the tracker, the directory and the file untouched; otherwise the imports are appended in order and counted, and the directory is loaded only if some selected draft has picks |
| Text.StripStart | pull_my_mocks.py:52 | the leading whitespace `strip` removes, and no more |
| Text.StripEnd | pull_my_mocks.py:52 | the trailing whitespace `strip` removes, and no more |
| Text.Strip | pull_my_mocks.py:52 | `strip()` is the slice between the leading and the trailing whitespace; it leaves no whitespace at either end and never lengthens the text |
| Text.StripNoSpace | pull_my_mocks.py:52 | text without whitespace at either end is left alone |
| Text.StripIdempotent | pull_my_mocks.py:52 | stripping twice is stripping once |
| Text.Lower | pull_my_mocks.py:52 | `lower()` maps each character on its own, keeping the length |
| Text.LowerIdempotent | pull_my_mocks.py:52 | lower-casing twice is lower-casing once |
| Text.Contains | grundle_draft_positions.py:43 | `p in s` holds exactly when `p` occurs at some position of `s` |
| Text.ContainsEmpty | frontend/src/App.jsx:58 | every text contains the empty text |
| Text.Split | pull_my_mocks.py:58 | `split(sep)` gives at least one part |
| Text.SplitParts | pull_my_mocks.py:58 | no part holds the separator |
| Text.JoinSplit | pull_my_mocks.py:58 | joining the parts with the separator gives the text back |
| Text.SplitJoin | pull_my_mocks.py:58 | splitting parts joined by a separator they do not hold gives the parts back |
| Text.SplitNoSep | pull_my_mocks.py:58 | text without the separator is one part |
| Text.SplitPrefix | pull_my_mocks.py:58 | a first part without the separator splits off on its own |
| Text.DigitChar | keeper_tool.py:29 | each digit value has its character |
| Text.NatToString | keeper_tool.py:29 | `str(n)` of a natural number is a non-empty run of digits |
| Text.NatToStringValue | keeper_tool.py:29 | those digits read back as `n` |
| Text.IntToString | keeper_tool.py:29 | `str(n)` is non-empty and has no surrounding whitespace |
| Text.ParseInt | pull_my_mocks.py:58 | `int(s)` succeeds only on text that is not blank |
| Text.ParseIntRoundTrip | keeper_tool.py:29 | `int(str(n)) == n` |
| Text.IntToStringInjective | keeper_tool.py:29 | different seasons have different texts |
| Sorting.Insert | mock_draft_tracker.py:202 | inserting one element adds exactly it |
| Sorting.StableSort | mock_draft_tracker.py:202 | `sorted` keeps the same elements |
| Sorting.TiedToAppend | mock_draft_tracker.py:202 | the elements tied with a key are taken part by part |
| Sorting.InsertSorted | mock_draft_tracker.py:202 | inserting into a sorted list keeps it sorted |
| Sorting.AboveHasNoTies | mock_draft_tracker.py:202 | a sorted list starting above a key holds nothing tied with it |
| Sorting.InsertTied | mock_draft_tracker.py:202 | an inserted element goes after every element tied with it |
| Sorting.InsertTiedFront | mock_draft_tracker.py:202 | inserting past the first element leaves it first among the ties |
| Sorting.StableSortCorrect | mock_draft_tracker.py:202 | for a total preorder, `sorted` orders by the key and keeps tied elements in input order, as Python's sort is stable |
| Sorting.FlipPreorder | mock_draft_tracker.py:202 | `reverse=True` sorts by a total preorder too |
| Sorting.FlipTiedTo | data_analysis.py:31 | reversing the order does not change which elements tie |
| Sorting.NumericOrders | grundle_draft_positions.py:223-227 | `<=` on integers, reals and booleans are total preorders |
| Sorting.StrLeTotal | grundle_draft_positions.py:232 | any two strings compare one way or the other |
| Sorting.StrLeTransitive | grundle_draft_positions.py:232 | string comparison is transitive |
| Sorting.StrLeAntisymmetric | grundle_draft_positions.py:232 | strings that compare both ways are equal |
| Sorting.StrLePreorder | grundle_draft_positions.py:232 | string comparison is a total preorder |
| Sorting.LexPreorder | grundle_draft_positions.py:223-227 | tuples compared left to right are a total preorder when each part is |
| Sorting.Filter | find_mock_drafts_only.py:103 | a list comprehension with a condition keeps exactly the elements that satisfy it, never more than the list |
| Sorting.SortByName | grundle_draft_positions.py:232 | sorting by a text key keeps the same elements; the teams of scripts/utilities/roster_viewer.py:160 are sorted the same way |
| Sorting.SortByNameOrder | grundle_draft_positions.py:232 | the elements come in key order, equal keys in their original order |
| Sorting.Dedup | scripts/utilities/roster_viewer.py:227 | `set(...)` keeps every value that occurs and no other |
| Sorting.DedupDistinct | scripts/utilities/roster_viewer.py:227 | no value is kept twice |
| Sorting.DistinctCount | scripts/utilities/roster_viewer.py:227 | a list without repeats holds each value at most once |
| Sorting.PermutationDistinct | scripts/utilities/roster_viewer.py:227 | sorting a list without repeats leaves it without repeats |

## Left out

- The network: every Sleeper, ADP-site and local-API reply is a parameter, and every fetch is taken to succeed. Failed fetches are not modelled. Two cases show what that leaves out. `get_all_players` raises on a failed fetch (sleeper_api.py:23-27), so the import loops skip the draft; the model's directory is always a value, so an empty one imports the draft with `Unknown Player (<id>)` names. `SleeperAPI._make_request` returns `None` on failure (sleeper_api.py:39-47), so `len(all_players)` raises a `TypeError` (scripts/utilities/roster_viewer.py:73-74); `RosterViewer.RosterReportOf` has no such case and returns a report.
- The clock: `datetime.now()` is a parameter. The 7-day window of `find_recent_drafts` (sleeper_mock_importer.py:98-131) is not modelled; its result is the `recent` parameter of `PullMyMocks.PullUserMocks`.
- The console: prompts are a list of typed lines, and printed text is left out. This covers the summaries and top-20/top-25 tables printed after an import, `print_summary`, and the export prompts that follow.
- The file system: the data file is a field holding the saved JSON or nothing. The CSV and JSON files written by `export_adp_to_csv`, `save_to_csv` and `save_to_json` are modelled as the rows they hold.
- User lookup and environment variables (`get_user`, `SLEEPER_USERNAME`): each script is modelled from the point where the user is known.
- `api.py` (the Flask server) is not part of this model. The ADP table takes its rows as a parameter, so the empty-string fields it can send are not modelled: every number cell is a number or missing.
- `frontend/src/DraftBoard.jsx` is not part of this model beyond the remove and drag handlers it calls.
- React state and rendering: the handlers are functions from the old list to the new one. The selected-count label (KeeperTool.jsx:77), loading and error states are not modelled.
- The `simple`, `by_team` and `json` displays of `display_roster_data` and `save_draftable_players` (roster_viewer.py:165-301) only print or write what `get_roster_data` returned. They are not modelled; the `by_position` grouping is.
- The Grundle analyzer's display and save functions (grundle_draft_positions.py:242-350) and its `analysis_date` field are not modelled.
- JSON `null` and a missing key are one case (`None`). Where the code distinguishes them, the model follows one of the two, as the lines below say. It takes the missing-key behaviour for the `KeyError` of keeper_tool.py:43.
- DraftValue.ValuePicksError, DraftValue.UserPicks: these take the `null` behaviour. A pick without a `player_id` key is not valued, and a pick without a `picked_by` key is not the user's. Python raises `KeyError` for both (data_analysis.py:21 and data_analysis.py:58).
- Sleeper.User: `display_name` is always present. A user without the key is not modelled. For such a user, grundle_draft_positions.py:164 and sleeper_api.py:134 fall back to `Unknown Owner`, and keeper_tool.py:37 and scripts/utilities/roster_viewer.py:105 raise `KeyError`.
- RosterViewer.Known, Sleeper.IsEmptyInfo: a directory entry whose modelled fields are all null or missing counts as empty, so its player is dropped. Python's `if player_info:` (scripts/utilities/roster_viewer.py:132) tests dict truthiness and lists such a player when the entry holds any key, such as `{"position": null}` or only keys the model does not keep.
- Records.DictToPick, Records.DraftFields, Records.LoadFile: mistyped field values are outside the model (a pick with `"round_num": "3"`, a draft with `"draft_id": 5`). So are JSON booleans and floats. Such values are reported as `Untyped`. The dataclasses do not check types, so Python would load them as they are.
- DraftValue.Entry: ADP and value are exact reals. Float rounding of `adp - pick_no` is not modelled, so which entries tie in the descending sort can differ from Python.
- Seasons are integers, and `str(int(season) - 1)` is `IntToString`.
- Text.ParseInt: accepts an optional sign and ASCII digits with surrounding whitespace. It does not model Python's underscores or non-ASCII digits.
- Text.Strip: removes the six ASCII whitespace characters only. Python's `strip` also removes other Unicode whitespace and the separators `\x1c`-`\x1f`.
- Text.Lower: maps ASCII letters only. Python's `lower` and JavaScript's `toLowerCase` also map other letters.
- Sorting.StrLe: compares by code point, as Python does. JavaScript compares UTF-16 code units, which differs only outside the Basic Multilingual Plane.
- Records.FromIsoFormat: accepts only the forms `isoformat` writes (a date, or a date and time with optional microseconds). Time-zone offsets and the other forms `fromisoformat` accepts are not modelled.
- Adp.SummarizeSpec: keeps `std_dev` as the sample variance (its square before rounding). The square root and the rounding of `std_dev` are not modelled. `round(x, 1)` is exact half-to-even rounding of the rational mean, without floating-point representation effects.
- Sorting.StableSort: one value-level stable sort models `sorted`, `list.sort` and `Array.prototype.sort`. The in-place update of `list.sort` is not modelled.
- KeeperList.DragEnd: requires in-range source and destination indices, as the drag library supplies them. JavaScript's `splice` clamping of out-of-range indices is not modelled.
- AdpTable.CellLe: orders text before numbers only to make the order total. No column of the table mixes the two.
- keeper_tool.py:8-28 call `SleeperAPI()` without a username and methods that sleeper_api.py does not define (`get_user_leagues`, `get_users_in_league`, `get_all_drafts_for_league`). roster_viewer.py:85 calls `get_all_drafts` with two arguments. find_league_mocks.py:5 imports `get_all_leagues`, which sleeper_api.py does not define. These scripts would fail before reaching the modelled logic; each is modelled as if the calls returned the replies they evidently expect.
- Importer.SleeperMockImporter.ImportAndAdd: of the exceptions the import loops catch with `except Exception`, only the `ValueError` for a draft without picks is modelled. Other failures inside `import_draft_by_id` make Python skip the draft and are not modelled. Examples: a failed fetch of the picks or of the player directory.
