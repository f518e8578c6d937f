/** `create_mock_draft_from_input` (mock_draft_tracker.py:88-163): a mock
    draft typed in answer to prompts. The answers are the lines of
    `input`, one per `input()` call; running out of lines is the
    `EOFError` that `input()` raises. Printing the prompts is not
    modelled; the current time and the generated draft id are parameters. */
module ManualEntry {
  import opened Wrappers
  import opened Text
  import opened Records

  /** `ValueError` from `int(...)` of a count; `EndOfInput` from `input()`. */
  datatype EntryError = ValueError | EndOfInput

  /** Python's `a // b`, rounding toward negative infinity. */
  function FloorDiv(a: int, b: int): int
    requires b != 0
  {
    if b > 0 then a / b else (-a) / (-b)
  }

  /** Python's `a % b`, which takes the sign of `b`. */
  function PyMod(a: int, b: int): int
    requires b != 0
  {
    a - b * FloorDiv(a, b)
  }

  lemma FloorDivSpec(a: int, b: int)
    requires b != 0
    ensures a == b * FloorDiv(a, b) + PyMod(a, b)
    ensures b > 0 ==> 0 <= PyMod(a, b) < b
    ensures b < 0 ==> b < PyMod(a, b) <= 0
  {
    if b < 0 {
      var q := (-a) / (-b);
      assert -a == (-b) * q + (-a) % (-b);
    }
  }

  /** A league with picks has teams. */
  lemma ProductFactors(size: int, rounds: int)
    requires size * rounds >= 1
    ensures size != 0 && rounds != 0
  {
  }

  /** The round and the pick within the round of overall pick `o` in a
      league of `size` teams. */
  function Slot(o: int, size: int): (int, int)
    requires size != 0
  {
    (FloorDiv(o - 1, size) + 1, PyMod(o - 1, size) + 1)
  }

  /** For every overall pick of a `size`-team, `rounds`-round draft, the
      slot is a valid round and pick, and it numbers the pick back. */
  lemma SlotSpec(o: int, size: int, rounds: int)
    requires size >= 1 && 1 <= o <= size * rounds
    ensures var (round, pick) := Slot(o, size);
      && 1 <= round <= rounds && 1 <= pick <= size
      && (round - 1) * size + pick == o
  {
    FloorDivSpec(o - 1, size);
  }

  /** `int(answer or default)`. */
  function ParseCount(answer: string, default: string): Option<int> {
    ParseInt(if answer == "" then default else answer)
  }

  /** One answer to a pick prompt: `None` when the stripped line is empty
      or has fewer than four comma-separated parts, and the prompt is
      repeated. The fourth part is not used; a fifth names the drafting
      team, which otherwise is `Team<pick>`. */
  function ParsePickLine(line: string, round: int, pick: int, overall: int): (r: Option<DraftPick>)
    ensures r.Some? <==> Strip(line) != [] && |Split(Strip(line), ',')| >= 4
    ensures r.Some? ==> (r.value.player_id.None? && r.value.round_num == round
      && r.value.pick_num == pick && r.value.overall_pick == overall)
  {
    var text := Strip(line);
    if text == [] then None
    else
      var parts := Split(text, ',');
      if |parts| < 4 then None
      else
        Some(DraftPick(
          Strip(parts[0]), None, Strip(parts[1]), Strip(parts[2]), round, pick, overall,
          if |parts| > 4 then Strip(parts[4]) else "Team" + IntToString(pick)))
  }

  /** Text without a comma and without surrounding whitespace. */
  predicate PlainField(s: string) {
    ',' !in s && Strip(s) == s
  }

  /** A line `name,position,team,x` gives back the fields, whatever `x`
      is, with the default team label; `name,position,team,x,by` gives
      `by` as the drafting team. */
  lemma PickLineRoundTrip(parts: seq<string>, round: int, pick: int, overall: int)
    requires |parts| == 4 || |parts| == 5
    requires forall i :: 0 <= i < |parts| ==> PlainField(parts[i])
    requires Strip(Join(parts, ',')) == Join(parts, ',')
    ensures ParsePickLine(Join(parts, ','), round, pick, overall) ==
      Some(DraftPick(parts[0], None, parts[1], parts[2], round, pick, overall,
                     if |parts| == 5 then parts[4] else "Team" + IntToString(pick)))
  {
    SplitJoin(parts, ',');
    assert Join(parts, ',') != [] by {
      assert |Join(parts, ',')| >= 3 by {
        JoinLength(parts, ',');
      }
    }
  }

  lemma {:induction false} JoinLength(parts: seq<string>, sep: char)
    requires |parts| >= 1
    ensures |Join(parts, sep)| >= |parts| - 1
  {
    if |parts| > 1 {
      JoinLength(parts[1..], sep);
    }
  }

  /** The keeper prompt from line `pos` on, after the keepers `acc`: the
      names typed one per line up to the first line that is empty after
      stripping, and the index of the line after it. */
  function ReadKeepers(input: seq<string>, pos: nat, acc: seq<string>): Option<(seq<string>, nat)>
    decreases |input| - pos
  {
    if pos >= |input| then None
    else if Strip(input[pos]) == [] then Some((acc, pos + 1))
    else ReadKeepers(input, pos + 1, acc + [Strip(input[pos])])
  }

  /** A reader of answers to a pick prompt: the line, then the round, the
      pick and the overall number asked for. The pick prompts are stated
      for any reader, and used with `ParsePickLine`. */
  type PickParser = (string, int, int, int) -> Option<DraftPick>

  /** Every pick the reader gives has no player id and the numbers asked
      for. */
  ghost predicate NumbersPicks(parse: PickParser) {
    forall line, round, pick, overall :: parse(line, round, pick, overall).Some? ==>
      && parse(line, round, pick, overall).value.player_id.None?
      && parse(line, round, pick, overall).value.round_num == round
      && parse(line, round, pick, overall).value.pick_num == pick
      && parse(line, round, pick, overall).value.overall_pick == overall
  }

  lemma ParsePickLineNumbers()
    ensures NumbersPicks(ParsePickLine)
  {
    forall line, round, pick, overall | ParsePickLine(line, round, pick, overall).Some?
      ensures ParsePickLine(line, round, pick, overall).value.overall_pick == overall
    {
    }
  }

  /** The first line from `pos` on that parses as pick `overall`, and the
      index of the line after it. */
  function ReadPick(parse: PickParser, input: seq<string>, pos: nat, round: int, pick: int, overall: int): Option<(DraftPick, nat)>
    decreases |input| - pos
  {
    if pos >= |input| then None
    else
      match parse(input[pos], round, pick, overall)
      case Some(p) => Some((p, pos + 1))
      case None => ReadPick(parse, input, pos + 1, round, pick, overall)
  }

  /** Picks `overall..last` after the picks `acc`, each with its slot. */
  function ReadPicks(parse: PickParser, input: seq<string>, pos: nat, overall: int, last: int, size: int, acc: seq<DraftPick>): Option<(seq<DraftPick>, nat)>
    requires size != 0
    decreases last - overall + 1
  {
    if overall > last then Some((acc, pos))
    else
      var slot := Slot(overall, size);
      match ReadPick(parse, input, pos, slot.0, slot.1, overall)
      case None => None
      case Some(found) => ReadPicks(parse, input, found.1, overall + 1, last, size, acc + [found.0])
  }

  /** The `for overall_pick in range(1, league_size * rounds + 1)` loop. */
  function ReadAllPicks(input: seq<string>, pos: nat, size: int, rounds: int): Option<(seq<DraftPick>, nat)> {
    if size * rounds < 1 then Some(([], pos))
    else
      assert size != 0 by { ProductFactors(size, rounds); }
      ReadPicks(ParsePickLine, input, pos, 1, size * rounds, size, [])
  }

  /** `notes`, the last prompt, answered by line `pos`. */
  function ReadNotes(input: seq<string>, pos: nat): Option<Option<string>> {
    if pos >= |input| then None
    else
      var notes := Strip(input[pos]);
      Some(if notes == [] then None else Some(notes))
  }

  /** The draft the prompts produce, in the order Python asks: the id, the
      league size, the rounds, the keepers, one pick per overall number,
      then the notes. */
  function CreateMockDraft(input: seq<string>, now: DateTime, autoId: string): Result<MockDraft, EntryError> {
    if |input| < 2 then Err(EndOfInput)
    else
      var id := if Strip(input[0]) == [] then autoId else Strip(input[0]);
      match ParseCount(input[1], "12")
      case None => Err(EntryError.ValueError)
      case Some(size) =>
        if |input| < 3 then Err(EndOfInput)
        else
          match ParseCount(input[2], "16")
          case None => Err(EntryError.ValueError)
          case Some(rounds) =>
            match ReadKeepers(input, 3, [])
            case None => Err(EndOfInput)
            case Some((keepers, afterKeepers)) =>
              match ReadAllPicks(input, afterKeepers, size, rounds)
              case None => Err(EndOfInput)
              case Some((picks, afterPicks)) =>
                match ReadNotes(input, afterPicks)
                case None => Err(EndOfInput)
                case Some(notes) => Ok(MockDraft(id, now, size, rounds, keepers, picks, notes))
  }

  /** Text that is non-empty and has no surrounding whitespace. */
  predicate Stripped(s: string) {
    s != [] && Strip(s) == s
  }

  /** Each keeper is non-empty and stripped; the ones before are kept. */
  lemma {:induction false} ReadKeepersSpec(input: seq<string>, pos: nat, acc: seq<string>)
    requires forall k :: 0 <= k < |acc| ==> Stripped(acc[k])
    ensures var r := ReadKeepers(input, pos, acc);
      r.Some? ==> (pos < r.value.1 <= |input| && |acc| <= |r.value.0| && r.value.0[..|acc|] == acc
        && forall k :: 0 <= k < |r.value.0| ==> Stripped(r.value.0[k]))
    decreases |input| - pos
  {
    if pos < |input| && Strip(input[pos]) != [] {
      var s := Strip(input[pos]);
      StripNoSpace(s);
      var acc' := acc + [s];
      assert forall k :: 0 <= k < |acc'| ==> Stripped(acc'[k]);
      ReadKeepersSpec(input, pos + 1, acc');
      var r := ReadKeepers(input, pos + 1, acc');
      if r.Some? {
        assert r.value.0[..|acc'|][..|acc|] == r.value.0[..|acc|];
      }
    }
  }

  /** The pick read is the parse of a line with the requested numbers. */
  lemma {:induction false} ReadPickSpec(parse: PickParser, input: seq<string>, pos: nat, round: int, pick: int, overall: int)
    requires NumbersPicks(parse)
    ensures var r := ReadPick(parse, input, pos, round, pick, overall);
      r.Some? ==> (pos < r.value.1 <= |input|
        && r.value.0.player_id.None? && r.value.0.round_num == round
        && r.value.0.pick_num == pick && r.value.0.overall_pick == overall)
    decreases |input| - pos
  {
    if pos < |input| && parse(input[pos], round, pick, overall).None? {
      ReadPickSpec(parse, input, pos + 1, round, pick, overall);
    }
  }

  /** The picks are numbered `first`, `first + 1`, ... in order, each in the
      slot its number gives, none with a player id. */
  predicate NumberedFrom(ps: seq<DraftPick>, first: int, size: int)
    requires size != 0
  {
    forall k :: 0 <= k < |ps| ==>
      && ps[k].player_id.None?
      && ps[k].overall_pick == first + k
      && (ps[k].round_num, ps[k].pick_num) == Slot(first + k, size)
  }

  lemma NumberedSnoc(ps: seq<DraftPick>, p: DraftPick, first: int, size: int)
    requires size != 0
    requires NumberedFrom(ps, first, size)
    requires p.player_id.None? && p.overall_pick == first + |ps|
    requires (p.round_num, p.pick_num) == Slot(first + |ps|, size)
    ensures NumberedFrom(ps + [p], first, size)
  {
    forall k | 0 <= k < |ps| + 1
      ensures (ps + [p])[k].player_id.None? && (ps + [p])[k].overall_pick == first + k
      ensures ((ps + [p])[k].round_num, (ps + [p])[k].pick_num) == Slot(first + k, size)
    {
      if k < |ps| {
        assert (ps + [p])[k] == ps[k];
      }
    }
  }

  /** Reading picks `overall..last` after the picks `acc` gives one pick
      per number. */
  lemma {:induction false} ReadPicksLength(parse: PickParser, input: seq<string>, pos: nat, overall: int, last: int, size: int, acc: seq<DraftPick>)
    requires size != 0 && overall <= last + 1
    ensures var r := ReadPicks(parse, input, pos, overall, last, size, acc);
      r.Some? ==> |r.value.0| == |acc| + last - overall + 1
    decreases last - overall + 1
  {
    if overall <= last {
      var slot := Slot(overall, size);
      var one := ReadPick(parse, input, pos, slot.0, slot.1, overall);
      ReadPicksStep(parse, input, pos, overall, last, size, acc);
      if one.Some? {
        ReadPicksLength(parse, input, one.value.1, overall + 1, last, size, acc + [one.value.0]);
      }
    }
  }

  /** One step of the pick prompts: the pick found for `overall` joins the
      picks read, and the prompts go on from the line after it. */
  lemma ReadPicksStep(parse: PickParser, input: seq<string>, pos: nat, overall: int, last: int, size: int, acc: seq<DraftPick>)
    requires size != 0 && overall <= last
    ensures var slot := Slot(overall, size);
      var one := ReadPick(parse, input, pos, slot.0, slot.1, overall);
      && (one.None? ==> ReadPicks(parse, input, pos, overall, last, size, acc) == None)
      && (one.Some? ==> ReadPicks(parse, input, pos, overall, last, size, acc) ==
                          ReadPicks(parse, input, one.value.1, overall + 1, last, size, acc + [one.value.0]))
  {
  }

  /** The same step, naming the pick found: it is numbered `overall`,
      slotted by its number, and has no player id. */
  lemma ReadPicksNext(parse: PickParser, input: seq<string>, pos: nat, overall: int, last: int, size: int, acc: seq<DraftPick>)
      returns (one: Option<(DraftPick, nat)>)
    requires NumbersPicks(parse)
    requires size != 0 && overall <= last
    ensures one.None? ==> ReadPicks(parse, input, pos, overall, last, size, acc) == None
    ensures one.Some? ==> ReadPicks(parse, input, pos, overall, last, size, acc) ==
                            ReadPicks(parse, input, one.value.1, overall + 1, last, size, acc + [one.value.0])
    ensures one.Some? ==> && one.value.0.player_id.None? && one.value.0.overall_pick == overall
                          && (one.value.0.round_num, one.value.0.pick_num) == Slot(overall, size)
  {
    var slot := Slot(overall, size);
    one := ReadPick(parse, input, pos, slot.0, slot.1, overall);
    ReadPickSpec(parse, input, pos, slot.0, slot.1, overall);
    ReadPicksStep(parse, input, pos, overall, last, size, acc);
  }

  /** The picks read after the picks `acc`, numbered from `first`, are
      numbered and slotted on from there. */
  lemma {:induction false} ReadPicksNumbered(parse: PickParser, input: seq<string>, pos: nat, overall: int, last: int, size: int,
                                             acc: seq<DraftPick>, first: int)
    requires NumbersPicks(parse)
    requires size != 0
    requires overall == first + |acc| && NumberedFrom(acc, first, size)
    ensures var r := ReadPicks(parse, input, pos, overall, last, size, acc);
      r.Some? ==> NumberedFrom(r.value.0, first, size)
    decreases last - overall + 1
  {
    if overall <= last {
      var one := ReadPicksNext(parse, input, pos, overall, last, size, acc);
      if one.Some? {
        NumberedSnoc(acc, one.value.0, first, size);
        ReadPicksNumbered(parse, input, one.value.1, overall + 1, last, size, acc + [one.value.0], first);
      }
    }
  }

  /** What a typed draft promises: `league_size * rounds` picks numbered
      1, 2, ... in order, each in the round and at the pick its number
      gives, none with a player id; keepers and notes are stripped and
      non-empty, and the id is the typed one or the generated one. */
  lemma CreateMockDraftSpec(input: seq<string>, now: DateTime, autoId: string)
    ensures var r := CreateMockDraft(input, now, autoId);
      r.Ok? ==>
        var d := r.value;
        && d.draft_date == now
        && (d.draft_id == autoId || (Stripped(d.draft_id) && d.draft_id == Strip(input[0])))
        && (forall k :: 0 <= k < |d.keepers| ==> Stripped(d.keepers[k]))
        && (d.notes.Some? ==> Stripped(d.notes.value))
        && |d.picks| == (if d.league_size * d.rounds < 1 then 0 else d.league_size * d.rounds)
        && (d.picks != [] ==> d.league_size != 0 && NumberedFrom(d.picks, 1, d.league_size))
  {
    var r := CreateMockDraft(input, now, autoId);
    if r.Ok? {
      StripNoSpace(Strip(input[0]));
      var size := ParseCount(input[1], "12").value;
      var rounds := ParseCount(input[2], "16").value;
      ReadKeepersSpec(input, 3, []);
      var afterKeepers := ReadKeepers(input, 3, []).value.1;
      if size * rounds >= 1 {
        ProductFactors(size, rounds);
        ParsePickLineNumbers();
        ReadPicksLength(ParsePickLine, input, afterKeepers, 1, size * rounds, size, []);
        ReadPicksNumbered(ParsePickLine, input, afterKeepers, 1, size * rounds, size, [], 1);
      }
      var afterPicks := ReadAllPicks(input, afterKeepers, size, rounds).value.1;
      StripNoSpace(Strip(input[afterPicks]));
    }
  }

  /** The keeper prompt repeated until an empty answer. */
  method ReadKeepersLoop(input: seq<string>, start: nat) returns (r: Option<(seq<string>, nat)>)
    ensures r == ReadKeepers(input, start, [])
  {
    var pos := start;
    var keepers: seq<string> := [];
    while true
      invariant start <= pos
      invariant ReadKeepers(input, start, []) == ReadKeepers(input, pos, keepers)
      decreases |input| - pos
    {
      if pos >= |input| {
        return None;
      }
      var keeper := Strip(input[pos]);
      pos := pos + 1;
      if keeper == [] {
        break;
      }
      keepers := keepers + [keeper];
    }
    return Some((keepers, pos));
  }

  /** One pick prompt, repeated until an answer parses. */
  method ReadPickLoop(parse: PickParser, input: seq<string>, start: nat, round: int, pick: int, overall: int)
    returns (r: Option<(DraftPick, nat)>)
    ensures r == ReadPick(parse, input, start, round, pick, overall)
  {
    var pos := start;
    while true
      invariant start <= pos
      invariant ReadPick(parse, input, start, round, pick, overall) == ReadPick(parse, input, pos, round, pick, overall)
      decreases |input| - pos
    {
      if pos >= |input| {
        return None;
      }
      var parsed := parse(input[pos], round, pick, overall);
      if parsed.Some? {
        return Some((parsed.value, pos + 1));
      }
      pos := pos + 1;
    }
  }

  /** The pick prompts for overall picks 1 to `total`. */
  method ReadPicksLoop(parse: PickParser, input: seq<string>, start: nat, total: int, size: int)
    returns (r: Option<(seq<DraftPick>, nat)>)
    requires size != 0
    ensures r == ReadPicks(parse, input, start, 1, total, size, [])
  {
    var picks: seq<DraftPick> := [];
    var pos := start;
    var overall := 1;
    while overall <= total
      invariant overall >= 1
      invariant ReadPicks(parse, input, start, 1, total, size, []) == ReadPicks(parse, input, pos, overall, total, size, picks)
      decreases total - overall + 1
    {
      var slot := Slot(overall, size);
      var one := ReadPickLoop(parse, input, pos, slot.0, slot.1, overall);
      ReadPicksStep(parse, input, pos, overall, total, size, picks);
      if one.None? {
        return None;
      }
      picks := picks + [one.value.0];
      pos := one.value.1;
      overall := overall + 1;
    }
    return Some((picks, pos));
  }

  /** The `for overall_pick in range(1, league_size * rounds + 1)` loop,
      each answer read by `ParsePickLine`. */
  method ReadAllPicksLoop(input: seq<string>, start: nat, size: int, rounds: int)
    returns (r: Option<(seq<DraftPick>, nat)>)
    ensures r == ReadAllPicks(input, start, size, rounds)
  {
    var total := size * rounds;
    if total < 1 {
      return Some(([], start));
    }
    ProductFactors(size, rounds);
    r := ReadPicksLoop(ParsePickLine, input, start, total, size);
  }

  /** The prompts answered line by line, as the source does it. */
  method CreateMockDraftLoop(input: seq<string>, now: DateTime, autoId: string)
    returns (r: Result<MockDraft, EntryError>)
    ensures r == CreateMockDraft(input, now, autoId)
  {
    if |input| < 1 {
      return Err(EndOfInput);
    }
    var id := Strip(input[0]);
    if id == [] {
      id := autoId;
    }
    if |input| < 2 {
      return Err(EndOfInput);
    }
    var size := ParseCount(input[1], "12");
    if size.None? {
      return Err(EntryError.ValueError);
    }
    if |input| < 3 {
      return Err(EndOfInput);
    }
    var rounds := ParseCount(input[2], "16");
    if rounds.None? {
      return Err(EntryError.ValueError);
    }
    var keepers := ReadKeepersLoop(input, 3);
    if keepers.None? {
      return Err(EndOfInput);
    }
    var picks := ReadAllPicksLoop(input, keepers.value.1, size.value, rounds.value);
    if picks.None? {
      return Err(EndOfInput);
    }
    var pos := picks.value.1;
    if pos >= |input| {
      return Err(EndOfInput);
    }
    var notes := Strip(input[pos]);
    r := Ok(MockDraft(id, now, size.value, rounds.value, keepers.value.0, picks.value.0, if notes == [] then None else Some(notes)));
  }
}
