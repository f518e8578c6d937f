/** The records the mock-draft tracker keeps (`DraftPick`, `MockDraft`), the
    ISO-8601 text of a draft's date, and the JSON form in which the tracker
    saves its drafts and reads them back (mock_draft_tracker.py). A JSON
    document is modelled as a `JValue`; turning it into text and back is
    left to the JSON library and not modelled. */
module Records {
  import opened Wrappers
  import opened Text

  datatype DraftPick = DraftPick(
    player_name: string,
    player_id: Option<string>,
    position: string,
    team: string,
    round_num: int,
    pick_num: int,
    overall_pick: int,
    drafted_by_team: string)

  function Pow10(n: nat): (p: nat)
    ensures p >= 1
  {
    if n == 0 then 1 else 10 * Pow10(n - 1)
  }

  function IsLeap(y: int): bool {
    y % 4 == 0 && (y % 100 != 0 || y % 400 == 0)
  }

  function DaysInMonth(y: int, m: int): int {
    if m == 2 then (if IsLeap(y) then 29 else 28)
    else if m == 4 || m == 6 || m == 9 || m == 11 then 30
    else 31
  }

  /** The fields of a naive `datetime`. */
  datatype Timestamp = Timestamp(
    year: int, month: int, day: int,
    hour: int, minute: int, second: int, microsecond: int)
  {
    predicate Valid() {
      && 1 <= year <= 9999 && 1 <= month <= 12 && 1 <= day <= DaysInMonth(year, month)
      && 0 <= hour < 24 && 0 <= minute < 60 && 0 <= second < 60
      && 0 <= microsecond < 1000000
    }
  }

  /** Python's `datetime` can hold only valid dates and times. */
  type DateTime = t: Timestamp | t.Valid() witness Timestamp(1, 1, 1, 0, 0, 0, 0)

  datatype MockDraft = MockDraft(
    draft_id: string,
    draft_date: DateTime,
    league_size: int,
    rounds: int,
    keepers: seq<string>,
    picks: seq<DraftPick>,
    notes: Option<string>)

  /** `n` written with exactly `w` decimal digits, zero-padded on the left. */
  function Pad(n: nat, w: nat): (s: string)
    requires n < Pow10(w)
    ensures |s| == w && AllDigits(s)
    ensures DigitsValue(s) == n
  {
    if w == 0 then ""
    else
      var s := Pad(n / 10, w - 1) + [DigitChar(n % 10)];
      assert s[..|s| - 1] == Pad(n / 10, w - 1);
      s
  }

  function DateText(d: DateTime): (s: string)
    ensures |s| == 10
  {
    Pad(d.year, 4) + "-" + Pad(d.month, 2) + "-" + Pad(d.day, 2)
  }

  function TimeText(d: DateTime): (s: string)
    ensures |s| == 8
  {
    Pad(d.hour, 2) + ":" + Pad(d.minute, 2) + ":" + Pad(d.second, 2)
  }

  function FracText(d: DateTime): (s: string)
    ensures |s| == (if d.microsecond == 0 then 0 else 7)
  {
    if d.microsecond == 0 then "" else "." + Pad(d.microsecond, 6)
  }

  /** `datetime.isoformat()`: `YYYY-MM-DDTHH:MM:SS`, followed by
      `.ffffff` only when the microseconds are not zero. */
  function IsoFormat(d: DateTime): (s: string)
    ensures |s| == (if d.microsecond == 0 then 19 else 26)
  {
    DateText(d) + "T" + TimeText(d) + FracText(d)
  }

  /** `YYYY-MM-DD`. */
  function ParseDate(s: string): (r: Option<(int, int, int)>)
    requires |s| == 10
    ensures r.Some? ==> s[4] == '-' && s[7] == '-'
  {
    if s[4] == '-' && s[7] == '-' && AllDigits(s[0..4]) && AllDigits(s[5..7]) && AllDigits(s[8..10]) then
      Some((DigitsValue(s[0..4]), DigitsValue(s[5..7]), DigitsValue(s[8..10])))
    else None
  }

  /** `HH:MM:SS`. */
  function ParseTime(s: string): (r: Option<(int, int, int)>)
    requires |s| == 8
    ensures r.Some? ==> s[2] == ':' && s[5] == ':'
  {
    if s[2] == ':' && s[5] == ':' && AllDigits(s[0..2]) && AllDigits(s[3..5]) && AllDigits(s[6..8]) then
      Some((DigitsValue(s[0..2]), DigitsValue(s[3..5]), DigitsValue(s[6..8])))
    else None
  }

  /** Nothing, or `.ffffff`. */
  function ParseFrac(s: string): (r: Option<int>)
    ensures r.Some? ==> |s| == 0 || |s| == 7
  {
    if s == "" then Some(0)
    else if |s| == 7 && s[0] == '.' && AllDigits(s[1..]) then Some(DigitsValue(s[1..]))
    else None
  }

  function Assemble(date: (int, int, int), time: (int, int, int), micro: int): Option<DateTime> {
    var t := Timestamp(date.0, date.1, date.2, time.0, time.1, time.2, micro);
    if t.Valid() then Some(t) else None
  }

  /** `datetime.fromisoformat(s)` for the forms `YYYY-MM-DD`,
      `YYYY-MM-DD?HH:MM:SS` and `YYYY-MM-DD?HH:MM:SS.ffffff`, where `?` is
      any single character; `None` is the `ValueError` raised for any other
      text and for a date or time out of range. */
  function FromIsoFormat(s: string): (r: Option<DateTime>)
    ensures r.Some? ==> (|s| == 10 || |s| == 19 || |s| == 26) && s[4] == '-' && s[7] == '-'
  {
    if |s| == 10 then
      match ParseDate(s)
      case Some(date) => Assemble(date, (0, 0, 0), 0)
      case None => None
    else if |s| >= 19 then
      match (ParseDate(s[..10]), ParseTime(s[11..19]), ParseFrac(s[19..]))
      case (Some(date), Some(time), Some(micro)) => Assemble(date, time, micro)
      case _ => None
    else None
  }

  lemma DateRoundTrip(d: DateTime)
    ensures ParseDate(DateText(d)) == Some((d.year, d.month, d.day))
  {
    var s := DateText(d);
    assert s[0..4] == Pad(d.year, 4);
    assert s[5..7] == Pad(d.month, 2);
    assert s[8..10] == Pad(d.day, 2);
  }

  lemma TimeRoundTrip(d: DateTime)
    ensures ParseTime(TimeText(d)) == Some((d.hour, d.minute, d.second))
  {
    var s := TimeText(d);
    assert s[0..2] == Pad(d.hour, 2);
    assert s[3..5] == Pad(d.minute, 2);
    assert s[6..8] == Pad(d.second, 2);
  }

  /** Reading back what `isoformat` wrote gives the same date and time. */
  lemma IsoRoundTrip(d: DateTime)
    ensures FromIsoFormat(IsoFormat(d)) == Some(d)
  {
    var s := IsoFormat(d);
    assert s[..10] == DateText(d);
    assert s[11..19] == TimeText(d);
    assert s[19..] == FracText(d);
    DateRoundTrip(d);
    TimeRoundTrip(d);
    if d.microsecond != 0 {
      assert FracText(d)[1..] == Pad(d.microsecond, 6);
    }
  }

  /** A parsed JSON document. */
  datatype JValue =
    | JNull
    | JInt(i: int)
    | JStr(s: string)
    | JList(items: seq<JValue>)
    | JObject(fields: map<string, JValue>)

  /** Why reading the saved drafts fails. `Untyped` is a JSON value of
      another type than the field declares: Python would store it as it is,
      and this model has no such record. */
  datatype LoadError = KeyError | TypeError | ValueError | Untyped

  function OptStr(o: Option<string>): JValue {
    match o
    case Some(s) => JStr(s)
    case None => JNull
  }

  const PickKeys: set<string> := {
    "player_name", "player_id", "position", "team",
    "round_num", "pick_num", "overall_pick", "drafted_by_team"}

  /** `dataclasses.asdict` of a pick. */
  function PickToDict(p: DraftPick): (j: JValue)
    ensures j.JObject? && j.fields.Keys == PickKeys
  {
    JObject(map[
      "player_name" := JStr(p.player_name),
      "player_id" := OptStr(p.player_id),
      "position" := JStr(p.position),
      "team" := JStr(p.team),
      "round_num" := JInt(p.round_num),
      "pick_num" := JInt(p.pick_num),
      "overall_pick" := JInt(p.overall_pick),
      "drafted_by_team" := JStr(p.drafted_by_team)])
  }

  /** `DraftPick(**pick)`: the argument must be an object whose keys are
      exactly the field names (a missing or an unexpected keyword is a
      `TypeError`). */
  function DictToPick(j: JValue): (r: Result<DraftPick, LoadError>)
    ensures r.Ok? ==> j.JObject? && j.fields.Keys == PickKeys
    ensures r.Err? && r.error != Untyped ==> r.error == TypeError
    ensures j.JObject? && j.fields.Keys != PickKeys ==> r == Err(TypeError)
  {
    match j
    case JObject(f) =>
      if f.Keys != PickKeys then Err(TypeError)
      else if && f["player_name"].JStr? && (f["player_id"].JStr? || f["player_id"].JNull?)
              && f["position"].JStr? && f["team"].JStr? && f["round_num"].JInt?
              && f["pick_num"].JInt? && f["overall_pick"].JInt? && f["drafted_by_team"].JStr?
      then
        Ok(DraftPick(
          f["player_name"].s,
          if f["player_id"].JStr? then Some(f["player_id"].s) else None,
          f["position"].s, f["team"].s,
          f["round_num"].i, f["pick_num"].i, f["overall_pick"].i,
          f["drafted_by_team"].s))
      else Err(Untyped)
    case _ => Err(TypeError)
  }

  lemma PickRoundTrip(p: DraftPick)
    ensures DictToPick(PickToDict(p)) == Ok(p)
  {
  }

  /** `[f(x) for x in items]`: the first failure propagates. */
  function DecodeAll<T>(items: seq<JValue>, f: JValue -> Result<T, LoadError>): (r: Result<seq<T>, LoadError>)
    ensures r.Ok? ==> |r.value| == |items| && forall i :: 0 <= i < |items| ==> f(items[i]) == Ok(r.value[i])
    ensures r.Err? ==> exists i :: 0 <= i < |items| && f(items[i]) == Err(r.error)
  {
    if items == [] then Ok([])
    else
      match f(items[0])
      case Err(e) => Err(e)
      case Ok(x) =>
        match DecodeAll(items[1..], f)
        case Err(e) =>
          Err(e)
        case Ok(xs) =>
          Ok([x] + xs)
  }

  /** `enc` applied to every element, in order. */
  function EncodeAll<T>(xs: seq<T>, enc: T -> JValue): (r: seq<JValue>)
    ensures |r| == |xs| && forall i :: 0 <= i < |xs| ==> r[i] == enc(xs[i])
  {
    if xs == [] then [] else [enc(xs[0])] + EncodeAll(xs[1..], enc)
  }

  /** Decoding what `enc` produced gives the elements back when `f` undoes `enc`. */
  lemma {:induction false} DecodeEncodeAll<T>(xs: seq<T>, enc: T -> JValue, f: JValue -> Result<T, LoadError>)
    requires forall x :: x in xs ==> f(enc(x)) == Ok(x)
    ensures DecodeAll(EncodeAll(xs, enc), f) == Ok(xs)
  {
    if xs != [] {
      DecodeEncodeAll(xs[1..], enc, f);
      assert EncodeAll(xs, enc)[1..] == EncodeAll(xs[1..], enc);
      assert xs == [xs[0]] + xs[1..];
    }
  }

  /** Iterating over a JSON value in a `for` loop or a comprehension: a list
      yields its items, an object its keys, a string its characters; a
      number or `null` cannot be iterated (`TypeError`). Each key or
      character is itself a string, which `f` then rejects as `TypeError`,
      so only an empty object or string yields nothing. */
  function DecodeIterable<T>(v: JValue, f: JValue -> Result<T, LoadError>): (r: Result<seq<T>, LoadError>)
    ensures v.JList? ==> r == DecodeAll(v.items, f)
    ensures r.Ok? && !v.JList? ==> r.value == [] && (v == JObject(map[]) || v == JStr(""))
  {
    match v
    case JList(items) => DecodeAll(items, f)
    case JObject(m) => if m == map[] then Ok([]) else Err(TypeError)
    case JStr(s) => if s == "" then Ok([]) else Err(TypeError)
    case _ => Err(TypeError)
  }

  const DraftKeys: set<string> := {
    "draft_id", "draft_date", "league_size", "rounds", "keepers", "picks", "notes"}

  function StrToJson(s: string): JValue {
    JStr(s)
  }

  /** `_mock_draft_to_dict`: `asdict` with the date as ISO text. */
  function DraftToDict(d: MockDraft): (j: JValue)
    ensures j.JObject? && j.fields.Keys == DraftKeys
    ensures j.fields["draft_date"] == JStr(IsoFormat(d.draft_date))
    ensures j.fields["draft_id"] == JStr(d.draft_id)
    ensures j.fields["league_size"] == JInt(d.league_size) && j.fields["rounds"] == JInt(d.rounds)
    ensures j.fields["keepers"] == JList(EncodeAll(d.keepers, StrToJson))
    ensures j.fields["picks"] == JList(EncodeAll(d.picks, PickToDict))
    ensures j.fields["notes"] == OptStr(d.notes)
  {
    JObject(map[
      "draft_id" := JStr(d.draft_id),
      "draft_date" := JStr(IsoFormat(d.draft_date)),
      "league_size" := JInt(d.league_size),
      "rounds" := JInt(d.rounds),
      "keepers" := JList(EncodeAll(d.keepers, StrToJson)),
      "picks" := JList(EncodeAll(d.picks, PickToDict)),
      "notes" := OptStr(d.notes)])
  }

  function AsStr(j: JValue): Result<string, LoadError> {
    if j.JStr? then Ok(j.s) else Err(Untyped)
  }

  /** `_dict_to_mock_draft`, in the order Python evaluates it: the date key
      (`KeyError` when absent), its parse (`TypeError` when not text,
      `ValueError` when not ISO), the picks key (`KeyError`), each pick,
      then `MockDraft(**d)` (`TypeError` for a missing required or an
      unexpected key; `notes` may be absent). */
  function DictToDraft(j: JValue): (r: Result<MockDraft, LoadError>)
    ensures r == Err(KeyError) ==> j.JObject? && ("draft_date" !in j.fields || "picks" !in j.fields)
    ensures r.Ok? ==> j.JObject? && DraftKeys - {"notes"} <= j.fields.Keys <= DraftKeys
    ensures r.Ok? ==> j.fields["draft_date"].JStr? && FromIsoFormat(j.fields["draft_date"].s) == Some(r.value.draft_date)
  {
    if !j.JObject? then Err(TypeError)
    else
      var f := j.fields;
      if "draft_date" !in f then Err(KeyError)
      else if !f["draft_date"].JStr? then Err(TypeError)
      else if FromIsoFormat(f["draft_date"].s).None? then Err(ValueError)
      else if "picks" !in f then Err(KeyError)
      else
        var picks := DecodeIterable(f["picks"], DictToPick);
        if picks.Err? then Err(picks.error)
        else if !(DraftKeys - {"notes"} <= f.Keys <= DraftKeys) then Err(TypeError)
        else
          DraftFields(f["draft_id"], f["league_size"], f["rounds"], f["keepers"],
                      if "notes" in f then Some(f["notes"]) else None,
                      FromIsoFormat(f["draft_date"].s).value, picks.value)
  }

  /** The remaining fields of a draft object whose keys are all present:
      `id`, `size`, `rounds`, `keepers` and, when the key is there, `notes`. */
  function DraftFields(id: JValue, size: JValue, rounds: JValue, keepers: JValue, notes: Option<JValue>,
                       date: DateTime, picks: seq<DraftPick>): (r: Result<MockDraft, LoadError>)
    ensures r.Ok? ==> r.value.draft_date == date && r.value.picks == picks
  {
    if !(id.JStr? && size.JInt? && rounds.JInt? && keepers.JList?) then Err(Untyped)
    else if !(notes.None? || notes.value.JNull? || notes.value.JStr?) then Err(Untyped)
    else
      var names := DecodeAll(keepers.items, AsStr);
      if names.Err? then Err(Untyped)
      else
        Ok(MockDraft(
          id.s, date, size.i, rounds.i, names.value, picks,
          if notes.Some? && notes.value.JStr? then Some(notes.value.s) else None))
  }

  lemma PicksRoundTrip(picks: seq<DraftPick>)
    ensures DecodeAll(EncodeAll(picks, PickToDict), DictToPick) == Ok(picks)
  {
    forall p | p in picks ensures DictToPick(PickToDict(p)) == Ok(p) {
      PickRoundTrip(p);
    }
    DecodeEncodeAll(picks, PickToDict, DictToPick);
  }

  lemma DraftFieldsRoundTrip(d: MockDraft)
    ensures DraftFields(JStr(d.draft_id), JInt(d.league_size), JInt(d.rounds), JList(EncodeAll(d.keepers, StrToJson)),
                        Some(OptStr(d.notes)), d.draft_date, d.picks) == Ok(d)
  {
    DecodeEncodeAll(d.keepers, StrToJson, AsStr);
  }

  /** Any draft object with the keys and values `DraftToDict` writes loads
      back as `d`. */
  lemma DraftObjectLoads(f: map<string, JValue>, d: MockDraft)
    requires f.Keys == DraftKeys
    requires f["draft_date"] == JStr(IsoFormat(d.draft_date))
    requires f["draft_id"] == JStr(d.draft_id)
    requires f["league_size"] == JInt(d.league_size) && f["rounds"] == JInt(d.rounds)
    requires f["keepers"] == JList(EncodeAll(d.keepers, StrToJson))
    requires f["picks"] == JList(EncodeAll(d.picks, PickToDict))
    requires f["notes"] == OptStr(d.notes)
    ensures DictToDraft(JObject(f)) == Ok(d)
  {
    assert "draft_date" in f && "picks" in f && "notes" in f;
    IsoRoundTrip(d.draft_date);
    PicksRoundTrip(d.picks);
    assert DecodeIterable(f["picks"], DictToPick) == Ok(d.picks);
    assert DraftKeys - {"notes"} <= f.Keys <= DraftKeys;
    DraftFieldsRoundTrip(d);
  }

  lemma DraftRoundTrip(d: MockDraft)
    ensures DictToDraft(DraftToDict(d)) == Ok(d)
  {
    DraftObjectLoads(DraftToDict(d).fields, d);
  }

  /** What the data file holds: nothing, text that is not JSON, or a JSON
      document. */
  datatype FileState = Missing | Unparsable | Holds(json: JValue)

  /** `load_data`: the drafts the tracker ends up with, or the exception
      that escapes. A missing file, text that is not JSON and a `KeyError`
      leave the tracker empty; every other exception escapes. */
  datatype LoadOutcome = Loaded(drafts: seq<MockDraft>) | Raised(error: LoadError)

  function LoadFile(f: FileState): (r: LoadOutcome)
    ensures r.Raised? ==> r.error != KeyError && f.Holds?
    ensures f.Missing? || f.Unparsable? ==> r == Loaded([])
    ensures f.Holds? && f.json.JList? && DecodeAll(f.json.items, DictToDraft) == Err(KeyError) ==> r == Loaded([])
    ensures f.Holds? && f.json.JList? && DecodeAll(f.json.items, DictToDraft).Ok? ==>
      r == Loaded(DecodeAll(f.json.items, DictToDraft).value)
    ensures f.Holds? && f.json.JList? && DecodeAll(f.json.items, DictToDraft).Err?
      && DecodeAll(f.json.items, DictToDraft).error != KeyError
      ==> r == Raised(DecodeAll(f.json.items, DictToDraft).error)
    ensures f.Holds? && !f.json.JList? ==>
      r == if f.json == JObject(map[]) || f.json == JStr("") then Loaded([]) else Raised(TypeError)
  {
    match f
    case Missing => Loaded([])
    case Unparsable => Loaded([])
    case Holds(j) =>
      match DecodeIterable(j, DictToDraft)
      case Ok(drafts) => Loaded(drafts)
      case Err(KeyError) => Loaded([])
      case Err(e) => Raised(e)
  }

  /** A saved draft whose date is not ISO text makes `fromisoformat` raise
      a `ValueError`, which escapes `load_data`. */
  lemma BadDateRaises(picks: JValue)
    ensures LoadFile(Holds(JList([JObject(map["draft_date" := JStr("yesterday"), "picks" := picks])])))
            == Raised(ValueError)
  {
    var j := JObject(map["draft_date" := JStr("yesterday"), "picks" := picks]);
    assert FromIsoFormat("yesterday") == None;
    assert DictToDraft(j) == Err(ValueError);
    assert DecodeAll([j], DictToDraft) == Err(ValueError);
  }

  /** `save_data`: the list of draft dicts `json.dump` writes. */
  function Serialize(drafts: seq<MockDraft>): (j: JValue)
    ensures j.JList? && |j.items| == |drafts|
  {
    JList(EncodeAll(drafts, DraftToDict))
  }

  /** Saving and loading again gives back exactly the saved drafts. */
  lemma SaveLoadRoundTrip(drafts: seq<MockDraft>)
    ensures LoadFile(Holds(Serialize(drafts))) == Loaded(drafts)
  {
    forall d | d in drafts ensures DictToDraft(DraftToDict(d)) == Ok(d) {
      DraftRoundTrip(d);
    }
    DecodeEncodeAll(drafts, DraftToDict, DictToDraft);
  }
}
