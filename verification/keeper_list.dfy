/** The list of selected keepers in the keeper tool page
    (frontend/src/KeeperTool.jsx): ticking a player's box toggles their id
    in the list, the draft board's remove button drops it, and dragging a
    keeper moves it to another place in the list. The React state holding
    the list is the value these operations take and return. */
module KeeperList {
  import opened Wrappers

  /** The list has no id twice. */
  predicate Distinct(s: seq<string>) {
    forall i, j :: 0 <= i < j < |s| ==> s[i] != s[j]
  }

  // ----- removing -----

  /** `prev.filter(id => id !== playerId)`: every occurrence of the id goes,
      the other ids stay, with their counts. */
  function Remove(prev: seq<string>, id: string): (r: seq<string>)
    ensures |r| <= |prev|
    ensures forall x :: x in r <==> x in prev && x != id
    ensures multiset(r)[id] == 0
    ensures forall x :: x != id ==> multiset(r)[x] == multiset(prev)[x]
  {
    if prev == [] then []
    else
      var init := prev[..|prev| - 1];
      var last := prev[|prev| - 1];
      assert prev == init + [last];
      Remove(init, id) + (if last == id then [] else [last])
  }

  /** The kept ids stay in their relative order: removing from a list split
      in two removes from each part. */
  lemma {:induction false} RemoveAppend(a: seq<string>, b: seq<string>, id: string)
    ensures Remove(a + b, id) == Remove(a, id) + Remove(b, id)
  {
    if b == [] {
      assert a + b == a;
    } else {
      var b' := b[..|b| - 1];
      assert (a + b)[..|a + b| - 1] == a + b';
      assert (a + b)[|a + b| - 1] == b[|b| - 1];
      RemoveAppend(a, b', id);
    }
  }

  /** Removing an id that is not in the list changes nothing. */
  lemma {:induction false} RemoveAbsent(prev: seq<string>, id: string)
    requires id !in prev
    ensures Remove(prev, id) == prev
  {
    if prev != [] {
      var init := prev[..|prev| - 1];
      assert prev == init + [prev[|prev| - 1]];
      RemoveAbsent(init, id);
    }
  }

  /** Removing keeps a list without repeats without repeats. */
  lemma {:induction false} RemoveDistinct(prev: seq<string>, id: string)
    requires Distinct(prev)
    ensures Distinct(Remove(prev, id))
  {
    if prev != [] {
      var init := prev[..|prev| - 1];
      var last := prev[|prev| - 1];
      assert Distinct(init);
      RemoveDistinct(init, id);
      assert last !in init by {
        assert forall k :: 0 <= k < |init| ==> init[k] == prev[k];
      }
      assert last !in multiset(Remove(init, id));
    }
  }

  // ----- toggling -----

  /** `handleKeeperSelect`: an id already selected is removed, every
      occurrence of it; any other id is appended at the end. */
  function Toggle(prev: seq<string>, id: string): (r: seq<string>)
    ensures forall x :: x in r <==> (if x == id then id !in prev else x in prev)
  {
    if id in prev then Remove(prev, id) else prev + [id]
  }

  /** Ticking an unselected box twice gives back the list it started from. */
  lemma ToggleTwice(prev: seq<string>, id: string)
    requires id !in prev
    ensures Toggle(Toggle(prev, id), id) == prev
  {
    assert id in prev + [id];
    RemoveAppend(prev, [id], id);
    RemoveAbsent(prev, id);
    assert Remove([id], id) == [] by {
      assert [id][..0] == [];
    }
  }

  /** A list without repeats stays without repeats. */
  lemma ToggleDistinct(prev: seq<string>, id: string)
    requires Distinct(prev)
    ensures Distinct(Toggle(prev, id))
  {
    if id in prev {
      RemoveDistinct(prev, id);
    }
  }

  // ----- dragging -----

  /** The list without its element at `i` (`splice(i, 1)`). */
  function RemoveAt(s: seq<string>, i: int): (r: seq<string>)
    requires 0 <= i < |s|
    ensures |r| == |s| - 1
    ensures forall k :: 0 <= k < i ==> r[k] == s[k]
    ensures forall k :: i <= k < |r| ==> r[k] == s[k + 1]
  {
    s[..i] + s[i + 1..]
  }

  /** The list with `x` placed at `j` (`splice(j, 0, x)`). */
  function InsertAt(s: seq<string>, j: int, x: string): (r: seq<string>)
    requires 0 <= j <= |s|
    ensures |r| == |s| + 1 && r[j] == x
    ensures forall k :: 0 <= k < j ==> r[k] == s[k]
    ensures forall k :: j < k < |r| ==> r[k] == s[k - 1]
  {
    s[..j] + [x] + s[j..]
  }

  /** The list after dragging the keeper at `source` to `destination`. */
  function Moved(items: seq<string>, source: int, destination: int): seq<string>
    requires 0 <= source < |items| && 0 <= destination < |items|
  {
    InsertAt(RemoveAt(items, source), destination, items[source])
  }

  /** Splicing out and back in: the multiset is kept. */
  lemma RemoveAtMultiset(s: seq<string>, i: int)
    requires 0 <= i < |s|
    ensures multiset(RemoveAt(s, i)) + multiset{s[i]} == multiset(s)
  {
    assert s == s[..i] + [s[i]] + s[i + 1..];
  }

  lemma InsertAtMultiset(s: seq<string>, j: int, x: string)
    requires 0 <= j <= |s|
    ensures multiset(InsertAt(s, j, x)) == multiset(s) + multiset{x}
  {
    assert s == s[..j] + s[j..];
  }

  /** Taking out what was just put in gives back the list. */
  lemma RemoveInserted(s: seq<string>, j: int, x: string)
    requires 0 <= j <= |s|
    ensures RemoveAt(InsertAt(s, j, x), j) == s
  {
    var t := RemoveAt(InsertAt(s, j, x), j);
    assert |t| == |s|;
    forall k | 0 <= k < |s| ensures t[k] == s[k] {
      if k < j {
        assert t[k] == InsertAt(s, j, x)[k];
      } else {
        assert t[k] == InsertAt(s, j, x)[k + 1];
      }
    }
  }

  /** A drag keeps the same keepers, puts the dragged one at the
      destination, and leaves the others in their relative order. */
  lemma MovedSpec(items: seq<string>, source: int, destination: int)
    requires 0 <= source < |items| && 0 <= destination < |items|
    ensures |Moved(items, source, destination)| == |items|
    ensures multiset(Moved(items, source, destination)) == multiset(items)
    ensures Moved(items, source, destination)[destination] == items[source]
    ensures RemoveAt(Moved(items, source, destination), destination) == RemoveAt(items, source)
  {
    var rest := RemoveAt(items, source);
    RemoveAtMultiset(items, source);
    InsertAtMultiset(rest, destination, items[source]);
    RemoveInserted(rest, destination, items[source]);
  }

  /** Dragging to where it started changes nothing. */
  lemma MovedInPlace(items: seq<string>, i: int)
    requires 0 <= i < |items|
    ensures Moved(items, i, i) == items
  {
    assert Moved(items, i, i) == items[..i] + [items[i]] + items[i + 1..];
    assert items == items[..i] + [items[i]] + items[i + 1..];
  }

  /** `items.splice(i, 1)` on the copy: the elements after `i` move one
      place left; the last cell still holds the old last element and is no
      longer part of the list. */
  method SpliceOut(a: array<string>, i: int)
    requires 0 <= i < a.Length
    modifies a
    ensures a[..a.Length - 1] == RemoveAt(old(a[..]), i)
  {
    ghost var s := a[..];
    ghost var rest := RemoveAt(s, i);
    var k := i;
    while k < a.Length - 1
      invariant i <= k <= a.Length - 1
      invariant forall l :: 0 <= l < k ==> a[l] == rest[l]
      invariant forall l :: k <= l < a.Length ==> a[l] == s[l]
    {
      a[k] := a[k + 1];
      k := k + 1;
    }
    assert a[..a.Length - 1] == rest by {
      forall l | 0 <= l < a.Length - 1 ensures a[..a.Length - 1][l] == rest[l] {
      }
    }
  }

  /** `items.splice(j, 0, x)` on a list held in all but the last cell of
      `a`: the elements from `j` on move one place right and `x` goes in at
      `j`. */
  method SpliceIn(a: array<string>, j: int, x: string)
    requires 0 <= j < a.Length
    modifies a
    ensures a[..] == InsertAt(old(a[..a.Length - 1]), j, x)
  {
    ghost var s := a[..a.Length - 1];
    var k := a.Length - 1;
    while k > j
      invariant j <= k <= a.Length - 1
      invariant forall l :: 0 <= l < k ==> a[l] == s[l]
      invariant forall l :: k < l < a.Length ==> a[l] == s[l - 1]
    {
      a[k] := a[k - 1];
      k := k - 1;
    }
    a[j] := x;
    assert a[..] == InsertAt(s, j, x) by {
      var t := InsertAt(s, j, x);
      forall l | 0 <= l < a.Length ensures a[..][l] == t[l] {
      }
    }
  }

  /** `handleDragEnd`: a drop outside the list does nothing; otherwise the
      list is copied (`Array.from`), the dragged keeper is spliced out of
      the copy and spliced back in at the destination, and the copy becomes
      the new list. */
  method DragEnd(items: seq<string>, source: int, destination: Option<int>) returns (r: seq<string>)
    requires destination.Some? ==> 0 <= source < |items| && 0 <= destination.value < |items|
    ensures destination.None? ==> r == items
    ensures destination.Some? ==> r == Moved(items, source, destination.value)
  {
    if destination.None? {
      return items;
    }
    var n := |items|;
    var a := new string[n](k requires 0 <= k < n => items[k]);
    assert a[..] == items;
    var moved := a[source];
    SpliceOut(a, source);
    SpliceIn(a, destination.value, moved);
    r := a[..];
  }
}
