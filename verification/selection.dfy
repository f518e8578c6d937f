/** The draft selection prompt the import scripts share
    (pull_my_mocks.py, find_mock_drafts_only.py, find_league_mocks.py):
    the answer is stripped and lower-cased; `all` selects every draft the
    script offers, anything else is read as comma-separated 1-based
    numbers, and one part that is not an integer rejects the answer. */
module Selection {
  import opened Wrappers
  import opened Text

  datatype Choice = All | Numbers(indices: seq<int>)

  /** The 0-based indices of the parts: each part stripped, read as an
      integer, minus one; `None` when some part is not an integer. */
  function ParseNumbers(parts: seq<string>): (r: Option<seq<int>>)
    ensures r.Some? ==> |r.value| == |parts|
    ensures r.Some? ==> forall k :: 0 <= k < |parts| ==> ParseInt(Strip(parts[k])) == Some(r.value[k] + 1)
    ensures r.None? ==> exists k :: 0 <= k < |parts| && ParseInt(Strip(parts[k])).None?
  {
    if parts == [] then Some([])
    else
      match ParseInt(Strip(parts[0]))
      case None => None
      case Some(v) =>
        match ParseNumbers(parts[1..])
        case None => None
        case Some(rest) => Some([v - 1] + rest)
  }

  /** `selection.strip().lower()`, then `'all'` or the numbers. `None`
      stands for the `ValueError` that rejects the answer. */
  function ParseSelection(answer: string): (r: Option<Choice>)
    ensures Lower(Strip(answer)) == "all" ==> r == Some(All)
  {
    var s := Lower(Strip(answer));
    if s == "all" then Some(All)
    else
      match ParseNumbers(Split(s, ','))
      case None => None
      case Some(ix) => Some(Numbers(ix))
  }

  /** `[i for i in indices if 0 <= i < n]`. */
  function InRange(indices: seq<int>, n: nat): (r: seq<int>)
    ensures |r| <= |indices|
    ensures forall k :: 0 <= k < |r| ==> 0 <= r[k] < n
  {
    if indices == [] then []
    else (if 0 <= indices[0] < n then [indices[0]] else []) + InRange(indices[1..], n)
  }

  /** Filtering keeps the order: it filters each part of a concatenation. */
  lemma {:induction false} InRangeAppend(a: seq<int>, b: seq<int>, n: nat)
    ensures InRange(a + b, n) == InRange(a, n) + InRange(b, n)
  {
    if a != [] {
      assert (a + b)[0] == a[0] && (a + b)[1..] == a[1..] + b;
      InRangeAppend(a[1..], b, n);
      var h := if 0 <= a[0] < n then [a[0]] else [];
      assert InRange(a + b, n) == h + (InRange(a[1..], n) + InRange(b, n));
      assert h + (InRange(a[1..], n) + InRange(b, n)) == (h + InRange(a[1..], n)) + InRange(b, n);
    } else {
      assert a + b == b;
    }
  }

  /** Every index in range is kept as often as it was given (duplicates
      included) and every other index is dropped. */
  lemma {:induction false} InRangeCount(indices: seq<int>, n: nat, i: int)
    ensures multiset(InRange(indices, n))[i] == if 0 <= i < n then multiset(indices)[i] else 0
  {
    if indices != [] {
      var x, t := indices[0], indices[1..];
      InRangeCount(t, n, i);
      assert indices == [x] + t;
      CountCons(x, t, i);
      if 0 <= x < n {
        assert InRange(indices, n) == [x] + InRange(t, n);
        CountCons(x, InRange(t, n), i);
      } else {
        assert InRange(indices, n) == InRange(t, n);
      }
    }
  }

  lemma CountCons(x: int, t: seq<int>, i: int)
    ensures multiset([x] + t)[i] == (if x == i then 1 else 0) + multiset(t)[i]
  {
  }

  /** `range(n)`. */
  function Range(n: nat): (r: seq<int>)
    ensures |r| == n
    ensures forall i :: 0 <= i < n ==> r[i] == i
  {
    seq(n, i => i)
  }

  /** `[xs[i] for i in indices]` for indices known to be in range. */
  function Pick<T>(xs: seq<T>, indices: seq<int>): (r: seq<T>)
    requires forall k :: 0 <= k < |indices| ==> 0 <= indices[k] < |xs|
    ensures |r| == |indices|
    ensures forall k :: 0 <= k < |indices| ==> r[k] == xs[indices[k]]
  {
    seq(|indices|, k requires 0 <= k < |indices| => xs[indices[k]])
  }

  /** `str(n)` of each number, as a user types them. */
  function Numerals(ns: seq<int>): (r: seq<string>)
    ensures |r| == |ns|
    ensures forall k :: 0 <= k < |ns| ==> r[k] == IntToString(ns[k])
  {
    seq(|ns|, k requires 0 <= k < |ns| => IntToString(ns[k]))
  }

  /** Each number minus one: 1-based positions as 0-based indices. */
  function Decrement(ns: seq<int>): (r: seq<int>)
    ensures |r| == |ns|
    ensures forall k :: 0 <= k < |ns| ==> r[k] == ns[k] - 1
  {
    if ns == [] then [] else [ns[0] - 1] + Decrement(ns[1..])
  }

  /** Digits and commas only. */
  predicate NumeralText(s: string) {
    forall i :: 0 <= i < |s| ==> IsDigit(s[i]) || s[i] == ','
  }

  lemma {:induction false} JoinNumerals(parts: seq<string>)
    requires |parts| >= 1
    requires forall k :: 0 <= k < |parts| ==> AllDigits(parts[k])
    ensures NumeralText(Join(parts, ','))
  {
    if |parts| > 1 {
      JoinNumerals(parts[1..]);
      var s := Join(parts, ',');
      var rest := Join(parts[1..], ',');
      assert s == parts[0] + [','] + rest;
      forall i | 0 <= i < |s| ensures IsDigit(s[i]) || s[i] == ',' {
        if i > |parts[0]| {
          assert s[i] == rest[i - |parts[0]| - 1];
        }
      }
    }
  }

  /** A text of digits and commas is left alone by `strip` and `lower`,
      and is not `all`. */
  lemma NumeralTextNormal(s: string)
    requires s != [] && NumeralText(s)
    ensures Lower(Strip(s)) == s && s != "all"
  {
    assert !IsSpace(s[0]) && !IsSpace(s[|s| - 1]);
    StripNoSpace(s);
    assert Lower(s) == s;
    assert s[0] != 'a';
  }

  lemma {:induction false} JoinNonEmpty(parts: seq<string>, sep: char)
    requires |parts| >= 1 && parts[0] != []
    ensures Join(parts, sep) != []
  {
    if |parts| > 1 {
      assert |Join(parts, sep)| >= |parts[0]|;
    }
  }

  lemma {:induction false} ParseNumbersOf(ns: seq<int>)
    requires forall k :: 0 <= k < |ns| ==> ns[k] >= 1
    ensures ParseNumbers(Numerals(ns)) == Some(Decrement(ns))
  {
    if ns != [] {
      var parts := Numerals(ns);
      StripNoSpace(IntToString(ns[0]));
      ParseIntRoundTrip(ns[0]);
      assert parts[1..] == Numerals(ns[1..]);
      ParseNumbersOf(ns[1..]);
    }
  }

  /** Typing 1-based numbers separated by commas selects exactly those
      drafts, in the order typed, repeats included. */
  lemma ParseSelectionNumbers(ns: seq<int>)
    requires |ns| >= 1 && forall k :: 0 <= k < |ns| ==> ns[k] >= 1
    ensures ParseSelection(Join(Numerals(ns), ',')) == Some(Numbers(Decrement(ns)))
  {
    var parts := Numerals(ns);
    var s := Join(parts, ',');
    forall k | 0 <= k < |parts| ensures AllDigits(parts[k]) && ',' !in parts[k] {
      assert parts[k] == NatToString(ns[k]);
    }
    JoinNumerals(parts);
    JoinNonEmpty(parts, ',');
    NumeralTextNormal(s);
    SplitJoin(parts, ',');
    ParseNumbersOf(ns);
  }
}
