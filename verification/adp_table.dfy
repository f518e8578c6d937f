/** The ADP table of the web front end (frontend/src/App.jsx): the rows the
    ADP endpoint serves, a sort configuration that clicking a column header
    changes, the rows sorted by the configured column, the rows whose player
    name contains the search term, and the arrow shown beside each header.
    The fetch is left out; the fetched rows are a parameter. */
module AdpTable {
  import opened Wrappers
  import opened Text
  import opened Sorting

  /** The sortable columns, one per clickable header. */
  datatype Column = PlayerName | AveragePick | StdDev | TimesDrafted | EarliestPick | LatestPick

  datatype Direction = Ascending | Descending

  datatype SortConfig = SortConfig(key: Column, direction: Direction)

  /** The initial state of `sortConfig`: the table starts sorted by ADP, lowest first. */
  const InitialSort := SortConfig(AveragePick, Ascending)

  /** `requestSort`: clicking the header of the column sorted ascending
      turns it descending; any other click sorts that column ascending. */
  function RequestSort(config: SortConfig, key: Column): (c: SortConfig)
    ensures c.key == key
    ensures c.direction == Descending <==> config == SortConfig(key, Ascending)
  {
    if config.key == key && config.direction == Ascending then SortConfig(key, Descending)
    else SortConfig(key, Ascending)
  }

  /** Clicking the same header again always flips the direction; from the
      initial state, two clicks on ADP give descending, then ascending. */
  lemma ClickTwice(config: SortConfig, key: Column)
    ensures RequestSort(RequestSort(config, key), key).direction != RequestSort(config, key).direction
    ensures RequestSort(InitialSort, AveragePick) == SortConfig(AveragePick, Descending)
    ensures RequestSort(RequestSort(InitialSort, AveragePick), AveragePick) == InitialSort
  {
  }

  /** `getSortIndicator`. */
  function SortIndicator(config: SortConfig, key: Column): (s: string)
    ensures s == " ↕" <==> config.key != key
    ensures s == " ▲" <==> config == SortConfig(key, Ascending)
    ensures s == " ▼" <==> config == SortConfig(key, Descending)
  {
    assert " ↕" != " ▲" && " ↕" != " ▼" && " ▲" != " ▼";
    if config.key != key then " ↕"
    else
      match config.direction
      case Ascending => " ▲"
      case Descending => " ▼"
  }

  /** After a click only the clicked column shows an arrow, and it shows
      the direction the table is now sorted in. */
  lemma IndicatorAfterClick(config: SortConfig, key: Column, other: Column)
    requires other != key
    ensures SortIndicator(RequestSort(config, key), other) == " ↕"
    ensures SortIndicator(RequestSort(config, key), key) ==
      (if config == SortConfig(key, Ascending) then " ▼" else " ▲")
  {
  }

  // ----- the rows and their order -----

  /** One row of the ADP endpoint; a number column may be missing. */
  datatype AdpRow = AdpRow(
    player_name: string,
    average_pick: Option<real>,
    std_dev: Option<real>,
    times_drafted: Option<int>,
    earliest_pick: Option<real>,
    latest_pick: Option<real>)

  /** A number, or the `Infinity` that stands in for a missing one. */
  datatype Bound = Finite(v: real) | Infinity

  function BoundLe(a: Bound, b: Bound): bool {
    b.Infinity? || (a.Finite? && a.v <= b.v)
  }

  /** `a[key] ?? Infinity`: the name column holds text, the others numbers. */
  datatype Cell = Text(s: string) | Number(b: Bound)

  function BoundOf(x: Option<real>): (b: Bound)
    ensures b.Infinity? <==> x.None?
  {
    match x
    case None => Infinity
    case Some(v) => Finite(v)
  }

  function CellOf(row: AdpRow, key: Column): (c: Cell)
    ensures c.Text? <==> key == PlayerName
  {
    match key
    case PlayerName => Text(row.player_name)
    case AveragePick => Number(BoundOf(row.average_pick))
    case StdDev => Number(BoundOf(row.std_dev))
    case TimesDrafted => Number(BoundOf(if row.times_drafted.Some? then Some(row.times_drafted.value as real) else None))
    case EarliestPick => Number(BoundOf(row.earliest_pick))
    case LatestPick => Number(BoundOf(row.latest_pick))
  }

  /** JavaScript's `<` on the two cells of one column: strings by character
      code, numbers by value. A column never mixes the two; text is placed
      first only so that the order is total. */
  function CellLe(a: Cell, b: Cell): bool {
    match (a, b)
    case (Text(x), Text(y)) => StrLe(x, y)
    case (Number(x), Number(y)) => BoundLe(x, y)
    case (Text(_), Number(_)) => true
    case (Number(_), Text(_)) => false
  }

  lemma CellLePreorder()
    ensures TotalPreorder(CellLe)
  {
    StrLePreorder();
  }

  /** The comparator `sortedData` passes to `sort`: ascending compares the cells, and
      descending is the same comparison the other way round. */
  function Order(direction: Direction): (Cell, Cell) -> bool {
    if direction == Ascending then CellLe else Flip(CellLe)
  }

  /** The column as the sort sees it. */
  function KeyOf(key: Column): AdpRow -> Cell {
    row => CellOf(row, key)
  }

  /** `sortedData`: no data gives no rows; otherwise a copy of the rows,
      sorted stably by the configured column. */
  function SortedData(adpData: Option<seq<AdpRow>>, config: SortConfig): (r: seq<AdpRow>)
    ensures adpData.None? ==> r == []
    ensures adpData.Some? ==> multiset(r) == multiset(adpData.value)
  {
    match adpData
    case None => []
    case Some(rows) => StableSort(rows, KeyOf(config.key), Order(config.direction))
  }

  /** The sorted rows are the fetched rows, ordered by the column in the
      configured direction, with rows that compare equal kept in their
      fetched order. */
  lemma SortedDataSpec(rows: seq<AdpRow>, config: SortConfig)
    ensures StablySorted(SortedData(Some(rows), config), rows, KeyOf(config.key), Order(config.direction))
  {
    CellLePreorder();
    if config.direction == Descending {
      FlipPreorder(CellLe);
    }
    StableSortCorrect(rows, KeyOf(config.key), Order(config.direction));
  }

  /** For the ADP column: ascending, a row with a missing ADP comes after
      every row with one and the ADPs never decrease; descending is the
      mirror image. */
  lemma SortedByAdp(rows: seq<AdpRow>, direction: Direction)
    ensures var r := SortedData(Some(rows), SortConfig(AveragePick, direction));
      forall i, j :: 0 <= i < j < |r| ==>
        if direction == Ascending then BoundLe(BoundOf(r[i].average_pick), BoundOf(r[j].average_pick))
        else BoundLe(BoundOf(r[j].average_pick), BoundOf(r[i].average_pick))
  {
    var config := SortConfig(AveragePick, direction);
    SortedDataSpec(rows, config);
    var r := SortedData(Some(rows), config);
    forall i, j | 0 <= i < j < |r|
      ensures if direction == Ascending then BoundLe(BoundOf(r[i].average_pick), BoundOf(r[j].average_pick))
        else BoundLe(BoundOf(r[j].average_pick), BoundOf(r[i].average_pick))
    {
      assert Order(direction)(KeyOf(AveragePick)(r[i]), KeyOf(AveragePick)(r[j]));
      if direction == Descending {
        assert CellLe(CellOf(r[j], AveragePick), CellOf(r[i], AveragePick));
      }
    }
  }

  // ----- the search -----

  /** The row's lowercased name contains the lowercased search term. */
  predicate Matches(row: AdpRow, term: string) {
    Contains(Lower(row.player_name), Lower(term))
  }

  /** `filteredData`: the sorted rows that match the search, in order. */
  function FilteredData(sorted: seq<AdpRow>, term: string): (r: seq<AdpRow>)
    ensures |r| <= |sorted|
    ensures forall x :: x in r <==> x in sorted && Matches(x, term)
  {
    if sorted == [] then []
    else
      var init := sorted[..|sorted| - 1];
      var last := sorted[|sorted| - 1];
      assert sorted == init + [last];
      FilteredData(init, term) + (if Matches(last, term) then [last] else [])
  }

  /** An empty search keeps every row. */
  lemma {:induction false} FilterEmptyTerm(sorted: seq<AdpRow>)
    ensures FilteredData(sorted, "") == sorted
  {
    if sorted != [] {
      var init := sorted[..|sorted| - 1];
      FilterEmptyTerm(init);
      assert Lower("") == "";
      ContainsEmpty(Lower(sorted[|sorted| - 1].player_name));
    }
  }

  /** Filtering keeps the rows in their sorted order. */
  lemma {:induction false} FilterKeepsOrder<K>(sorted: seq<AdpRow>, term: string, key: AdpRow -> K, le: (K, K) -> bool)
    requires SortedBy(sorted, key, le)
    ensures SortedBy(FilteredData(sorted, term), key, le)
  {
    if sorted != [] {
      var init := sorted[..|sorted| - 1];
      var last := sorted[|sorted| - 1];
      assert SortedBy(init, key, le) by {
        forall i, j | 0 <= i < j < |init| ensures le(key(init[i]), key(init[j])) {
          assert init[i] == sorted[i] && init[j] == sorted[j];
        }
      }
      FilterKeepsOrder(init, term, key, le);
      var f := FilteredData(init, term);
      forall x | x in f ensures le(key(x), key(last)) {
        var i :| 0 <= i < |init| && init[i] == x;
        assert sorted[i] == x;
      }
    }
  }
}
