/** Stable sorting by a key, as Python's `sorted(xs, key=...)` /
    `list.sort(key=...)` (with or without `reverse=True`) and JavaScript's
    `Array.prototype.sort` with a comparator do it, plus the orders the
    sources sort by: integers, reals, strings (by code point), booleans
    (`False < True`), and tuples compared left to right. */
module Sorting {

  /** `le` is total and transitive: the order that a key comparison induces. */
  ghost predicate TotalPreorder<K(!new)>(le: (K, K) -> bool) {
    && (forall a, b :: le(a, b) || le(b, a))
    && (forall a, b, c :: le(a, b) && le(b, c) ==> le(a, c))
  }

  /** Neither key sorts before the other. */
  predicate Tied<K>(le: (K, K) -> bool, a: K, b: K) {
    le(a, b) && le(b, a)
  }

  ghost predicate SortedBy<T, K>(s: seq<T>, key: T -> K, le: (K, K) -> bool) {
    forall i, j :: 0 <= i < j < |s| ==> le(key(s[i]), key(s[j]))
  }

  /** The elements of `s` whose key is tied with `v`, in their order in `s`. */
  function TiedTo<T, K>(s: seq<T>, key: T -> K, le: (K, K) -> bool, v: K): seq<T> {
    if s == [] then []
    else (if Tied(le, key(s[0]), v) then [s[0]] else []) + TiedTo(s[1..], key, le, v)
  }

  /** `r` is `s` sorted by `key` under `le`, and elements whose keys tie keep
      their relative order from `s` (stability). */
  ghost predicate StablySorted<T, K(!new)>(r: seq<T>, s: seq<T>, key: T -> K, le: (K, K) -> bool) {
    && SortedBy(r, key, le)
    && multiset(r) == multiset(s)
    && forall v :: TiedTo(r, key, le, v) == TiedTo(s, key, le, v)
  }

  /** Puts `x` after every element whose key is not above its own. */
  function Insert<T, K>(x: T, s: seq<T>, key: T -> K, le: (K, K) -> bool): (r: seq<T>)
    ensures |r| == |s| + 1
    ensures multiset(r) == multiset(s) + multiset{x}
  {
    if s == [] then [x]
    else if le(key(s[0]), key(x)) then
      var rest := Insert(x, s[1..], key, le);
      assert s == [s[0]] + s[1..];
      [s[0]] + rest
    else [x] + s
  }

  /** Insertion sort that inserts the elements in input order. */
  function StableSort<T, K>(s: seq<T>, key: T -> K, le: (K, K) -> bool): (r: seq<T>)
    ensures |r| == |s|
    ensures multiset(r) == multiset(s)
  {
    if s == [] then []
    else
      var init := StableSort(s[..|s| - 1], key, le);
      assert s == s[..|s| - 1] + [s[|s| - 1]];
      Insert(s[|s| - 1], init, key, le)
  }

  lemma {:induction false} TiedToAppend<T, K>(a: seq<T>, b: seq<T>, key: T -> K, le: (K, K) -> bool, v: K)
    ensures TiedTo(a + b, key, le, v) == TiedTo(a, key, le, v) + TiedTo(b, key, le, v)
  {
    if a == [] {
      assert a + b == b;
    } else {
      var h := if Tied(le, key(a[0]), v) then [a[0]] else [];
      assert a + b == [a[0]] + (a[1..] + b);
      assert a == [a[0]] + a[1..];
      TiedToAppend(a[1..], b, key, le, v);
      TiedToCons(a[0], a[1..] + b, key, le, v);
      TiedToCons(a[0], a[1..], key, le, v);
      AppendAssoc(h, TiedTo(a[1..], key, le, v), TiedTo(b, key, le, v));
    }
  }

  lemma {:induction false} InsertSorted<T, K(!new)>(x: T, s: seq<T>, key: T -> K, le: (K, K) -> bool)
    requires TotalPreorder(le)
    requires SortedBy(s, key, le)
    ensures SortedBy(Insert(x, s, key, le), key, le)
  {
    if s != [] && le(key(s[0]), key(x)) {
      InsertSorted(x, s[1..], key, le);
      var r := Insert(x, s, key, le);
      forall j | 1 <= j < |r| ensures le(key(r[0]), key(r[j])) {
        var y := r[j];
        assert y in multiset(Insert(x, s[1..], key, le));
        assert y == x || y in s[1..];
      }
    } else if s != [] {
      var r := Insert(x, s, key, le);
      forall j | 1 <= j < |r| ensures le(key(r[0]), key(r[j])) {
        assert r[j] == s[j - 1];
        assert le(key(s[0]), key(s[j - 1])) || j == 1;
      }
    }
  }

  /** In a sorted sequence whose first key lies strictly above `key(x)`, no
      element is tied with anything that `x` is tied with. */
  lemma {:induction false} AboveHasNoTies<T, K(!new)>(x: T, s: seq<T>, key: T -> K, le: (K, K) -> bool, v: K)
    requires TotalPreorder(le)
    requires SortedBy(s, key, le)
    requires s != [] && !le(key(s[0]), key(x))
    requires Tied(le, key(x), v)
    ensures TiedTo(s, key, le, v) == []
  {
    if |s| > 1 {
      assert le(key(s[0]), key(s[1]));
      AboveHasNoTies(x, s[1..], key, le, v);
    }
  }

  lemma SortedTail<T, K>(s: seq<T>, key: T -> K, le: (K, K) -> bool)
    requires s != [] && SortedBy(s, key, le)
    ensures SortedBy(s[1..], key, le)
  {
    forall i, j | 0 <= i < j < |s[1..]| ensures le(key(s[1..][i]), key(s[1..][j])) {
      assert s[1..][i] == s[i + 1] && s[1..][j] == s[j + 1];
    }
  }

  lemma TiedToCons<T, K>(y: T, s: seq<T>, key: T -> K, le: (K, K) -> bool, v: K)
    ensures TiedTo([y] + s, key, le, v) == (if Tied(le, key(y), v) then [y] else []) + TiedTo(s, key, le, v)
  {
    assert ([y] + s)[1..] == s;
  }

  /** The step of `InsertTied` where `x` goes after the first element. */
  lemma InsertTiedFront<T, K>(x: T, s: seq<T>, key: T -> K, le: (K, K) -> bool, v: K)
    requires s != [] && le(key(s[0]), key(x))
    requires TiedTo(Insert(x, s[1..], key, le), key, le, v) == TiedTo(s[1..], key, le, v) + TiedTo([x], key, le, v)
    ensures TiedTo(Insert(x, s, key, le), key, le, v) == TiedTo(s, key, le, v) + TiedTo([x], key, le, v)
  {
    var rest := Insert(x, s[1..], key, le);
    var h := if Tied(le, key(s[0]), v) then [s[0]] else [];
    assert Insert(x, s, key, le) == [s[0]] + rest;
    assert s == [s[0]] + s[1..];
    TiedToCons(s[0], rest, key, le, v);
    TiedToCons(s[0], s[1..], key, le, v);
    AppendAssoc(h, TiedTo(s[1..], key, le, v), TiedTo([x], key, le, v));
  }

  lemma AppendAssoc<T>(a: seq<T>, b: seq<T>, c: seq<T>)
    ensures a + (b + c) == (a + b) + c
  {
  }

  lemma {:induction false} InsertTied<T, K(!new)>(x: T, s: seq<T>, key: T -> K, le: (K, K) -> bool, v: K)
    requires TotalPreorder(le)
    requires SortedBy(s, key, le)
    ensures TiedTo(Insert(x, s, key, le), key, le, v) == TiedTo(s, key, le, v) + TiedTo([x], key, le, v)
  {
    if s == [] {
    } else if le(key(s[0]), key(x)) {
      SortedTail(s, key, le);
      InsertTied(x, s[1..], key, le, v);
      InsertTiedFront(x, s, key, le, v);
    } else {
      assert Insert(x, s, key, le) == [x] + s;
      TiedToCons(x, s, key, le, v);
      if Tied(le, key(x), v) {
        AboveHasNoTies(x, s, key, le, v);
      }
    }
  }

  lemma {:induction false} StableSortCorrect<T, K(!new)>(s: seq<T>, key: T -> K, le: (K, K) -> bool)
    requires TotalPreorder(le)
    ensures StablySorted(StableSort(s, key, le), s, key, le)
  {
    if s != [] {
      var init := s[..|s| - 1];
      var x := s[|s| - 1];
      StableSortCorrect(init, key, le);
      InsertSorted(x, StableSort(init, key, le), key, le);
      forall v ensures TiedTo(StableSort(s, key, le), key, le, v) == TiedTo(s, key, le, v) {
        InsertTied(x, StableSort(init, key, le), key, le, v);
        assert s == init + [x];
        TiedToAppend(init, [x], key, le, v);
      }
    }
  }

  /** Reversing every comparison (`reverse=True`, or a descending comparator). */
  function Flip<K>(le: (K, K) -> bool): (K, K) -> bool {
    (a, b) => le(b, a)
  }

  lemma FlipPreorder<K(!new)>(le: (K, K) -> bool)
    requires TotalPreorder(le)
    ensures TotalPreorder(Flip(le))
  {
  }

  /** Flipping the order does not change which keys tie. */
  lemma {:induction false} FlipTiedTo<T, K>(s: seq<T>, key: T -> K, le: (K, K) -> bool, v: K)
    ensures TiedTo(s, key, Flip(le), v) == TiedTo(s, key, le, v)
  {
    if s != [] {
      FlipTiedTo(s[1..], key, le, v);
    }
  }

  function IntLe(a: int, b: int): bool {
    a <= b
  }

  function RealLe(a: real, b: real): bool {
    a <= b
  }

  /** `False < True`. */
  function BoolLe(a: bool, b: bool): bool {
    !a || b
  }

  lemma NumericOrders()
    ensures TotalPreorder(IntLe) && TotalPreorder(RealLe) && TotalPreorder(BoolLe)
  {
  }

  /** String comparison by code point, as Python's `<` on `str`. */
  function StrLe(a: string, b: string): bool {
    if a == [] then true
    else if b == [] then false
    else if a[0] != b[0] then a[0] < b[0]
    else StrLe(a[1..], b[1..])
  }

  lemma {:induction false} StrLeTotal(a: string, b: string)
    ensures StrLe(a, b) || StrLe(b, a)
  {
    if a != [] && b != [] && a[0] == b[0] {
      StrLeTotal(a[1..], b[1..]);
    }
  }

  lemma {:induction false} StrLeTransitive(a: string, b: string, c: string)
    requires StrLe(a, b) && StrLe(b, c)
    ensures StrLe(a, c)
  {
    if a != [] && b != [] && c != [] && a[0] == b[0] && b[0] == c[0] {
      StrLeTransitive(a[1..], b[1..], c[1..]);
    }
  }

  lemma {:induction false} StrLeAntisymmetric(a: string, b: string)
    requires StrLe(a, b) && StrLe(b, a)
    ensures a == b
  {
    if a != [] && b != [] {
      StrLeAntisymmetric(a[1..], b[1..]);
      assert a == [a[0]] + a[1..] && b == [b[0]] + b[1..];
    }
  }

  lemma StrLePreorder()
    ensures TotalPreorder(StrLe)
  {
    forall a, b ensures StrLe(a, b) || StrLe(b, a) {
      StrLeTotal(a, b);
    }
    forall a, b, c | StrLe(a, b) && StrLe(b, c) ensures StrLe(a, c) {
      StrLeTransitive(a, b, c);
    }
  }

  /** Tuples `(x0, x1)` compared left to right, as Python compares them. */
  function LexLe<A, B>(leA: (A, A) -> bool, leB: (B, B) -> bool, x: (A, B), y: (A, B)): bool {
    (leA(x.0, y.0) && !leA(y.0, x.0)) || (Tied(leA, x.0, y.0) && leB(x.1, y.1))
  }

  function Lex<A, B>(leA: (A, A) -> bool, leB: (B, B) -> bool): ((A, B), (A, B)) -> bool {
    (x, y) => LexLe(leA, leB, x, y)
  }

  lemma LexPreorder<A(!new), B(!new)>(leA: (A, A) -> bool, leB: (B, B) -> bool)
    requires TotalPreorder(leA) && TotalPreorder(leB)
    ensures TotalPreorder(Lex(leA, leB))
  {
  }

  /** The first occurrence of every element, in order (`dict.fromkeys`,
      or a set before it is sorted). */
  function Dedup<T(==,!new)>(s: seq<T>): (r: seq<T>)
    ensures forall x :: x in r <==> x in s
  {
    if s == [] then []
    else
      var init := Dedup(s[..|s| - 1]);
      assert forall x :: x in s <==> x in s[..|s| - 1] || x == s[|s| - 1];
      if s[|s| - 1] in init then init else init + [s[|s| - 1]]
  }

  /** No value is kept twice. */
  lemma {:induction false} DedupDistinct<T(!new)>(s: seq<T>)
    ensures forall i, j :: 0 <= i < j < |Dedup(s)| ==> Dedup(s)[i] != Dedup(s)[j]
  {
    if s != [] {
      var init := s[..|s| - 1];
      DedupDistinct(init);
    }
  }

  /** A duplicate-free sequence holds every value at most once. */
  lemma {:induction false} DistinctCount<T>(s: seq<T>, x: T)
    requires forall i, j :: 0 <= i < j < |s| ==> s[i] != s[j]
    ensures multiset(s)[x] <= 1
  {
    if s != [] {
      DistinctCount(s[1..], x);
      assert s == [s[0]] + s[1..];
      assert forall k :: 0 <= k < |s[1..]| ==> s[1..][k] == s[k + 1];
    }
  }

  /** Reordering a duplicate-free sequence (sorting it, say) leaves it
      duplicate-free. */
  lemma PermutationDistinct<T>(a: seq<T>, b: seq<T>)
    requires multiset(a) == multiset(b)
    requires forall i, j :: 0 <= i < j < |a| ==> a[i] != a[j]
    ensures forall i, j :: 0 <= i < j < |b| ==> b[i] != b[j]
  {
    forall i, j | 0 <= i < j < |b| ensures b[i] != b[j] {
      var x := b[i];
      assert b == b[..i] + [b[i]] + b[i + 1..j] + [b[j]] + b[j + 1..];
      DistinctCount(a, x);
    }
  }

  /** `[x for x in xs if keep(x)]`: the elements `keep` accepts, in order. */
  function Filter<T(!new)>(xs: seq<T>, keep: T -> bool): (r: seq<T>)
    ensures |r| <= |xs|
    ensures forall x :: x in r <==> x in xs && keep(x)
  {
    if xs == [] then []
    else (if keep(xs[0]) then [xs[0]] else []) + Filter(xs[1..], keep)
  }

  /** `sorted(xs, key=lambda x: name(x))` for a text key. */
  function SortByName<T>(xs: seq<T>, name: T -> string): (r: seq<T>)
    ensures multiset(r) == multiset(xs)
  {
    StableSort(xs, name, StrLe)
  }

  /** The elements come in name order, equal names in their order in `xs`. */
  lemma SortByNameOrder<T>(xs: seq<T>, name: T -> string)
    ensures StablySorted(SortByName(xs, name), xs, name, StrLe)
    ensures forall i, j :: 0 <= i < j < |SortByName(xs, name)| ==> StrLe(name(SortByName(xs, name)[i]), name(SortByName(xs, name)[j]))
  {
    StrLePreorder();
    StableSortCorrect(xs, name, StrLe);
  }
}
