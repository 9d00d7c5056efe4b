/** src/lib/utils.ts: `sortByOrder`, `reorder` and the thresholds of
    `formatRelativeDate`. */
module Utils {
  import opened Seqs
  import opened Sorting
  import opened Text

  /** The comparator `(a, b) => a.order - b.order` as a sort key. */
  function OrderKey<T>(order: T -> int): T -> Key {
    x => (order(x), 0)
  }

  /** `sortByOrder(items)`: a stable ascending sort by the `order` field, on a copy. */
  function SortByOrder<T>(items: seq<T>, order: T -> int): (r: seq<T>)
    ensures |r| == |items|
    ensures multiset(r) == multiset(items)
    ensures forall i, j :: 0 <= i < j < |r| ==> order(r[i]) <= order(r[j])
  {
    var r := SortBy(items, OrderKey(order));
    assert forall i, j :: 0 <= i < j < |r| ==> KeyLe(OrderKey(order)(r[i]), OrderKey(order)(r[j]));
    r
  }

  /** Items with equal `order` keep their input relative order. */
  lemma SortByOrderStable<T>(items: seq<T>, order: T -> int, v: int)
    ensures WithKey(SortByOrder(items, order), OrderKey(order), (v, 0))
         == WithKey(items, OrderKey(order), (v, 0))
  {
    SortByStable(items, OrderKey(order), (v, 0));
  }

  /** Items whose `order` already ascends come back unchanged. */
  lemma SortByOrderSorted<T>(items: seq<T>, order: T -> int)
    requires forall i, j :: 0 <= i < j < |items| ==> order(items[i]) <= order(items[j])
    ensures SortByOrder(items, order) == items
  {
    SortBySorted(items, OrderKey(order));
  }

  /** What `reorder(list, start, end)` returns: the element at `start` taken out
      and put back so that it ends up at index `end`. */
  function Reordered<T>(list: seq<T>, start: nat, end: nat): (r: seq<T>)
    requires start < |list| && end < |list|
    ensures |r| == |list|
  {
    InsertAt(RemoveAt(list, start), end, list[start])
  }

  /** The moved element lands at `end`, nothing is lost or added, and the list keeps its length. */
  lemma ReorderedMoves<T>(list: seq<T>, start: nat, end: nat)
    requires start < |list| && end < |list|
    ensures |Reordered(list, start, end)| == |list|
    ensures Reordered(list, start, end)[end] == list[start]
    ensures multiset(Reordered(list, start, end)) == multiset(list)
  {
    assert SpliceIndex(end, |list| - 1) == end;
  }

  /** Moving an element onto its own index changes nothing. */
  lemma ReorderedSame<T>(list: seq<T>, i: nat)
    requires i < |list|
    ensures Reordered(list, i, i) == list
  {
    assert list == list[..i] + [list[i]] + list[i + 1..];
  }

  /** Taking out what was just inserted gives back the sequence. */
  lemma RemoveInserted<T>(s: seq<T>, k: nat, x: T)
    requires k <= |s|
    ensures RemoveAt(InsertAt(s, k, x), k) == s
  {
    var t := InsertAt(s, k, x);
    assert SpliceIndex(k, |s|) == k;
    assert RemoveAt(t, k) == t[..k] + t[k + 1..];
  }

  /** Putting back what was just taken out gives back the sequence. */
  lemma InsertRemoved<T>(s: seq<T>, i: nat)
    requires i < |s|
    ensures InsertAt(RemoveAt(s, i), i, s[i]) == s
  {
    var rest := RemoveAt(s, i);
    assert SpliceIndex(i, |rest|) == i;
    assert rest[..i] == s[..i];
    assert rest[i..] == s[i + 1..];
    assert s == s[..i] + [s[i]] + s[i + 1..];
  }

  /** Moving back undoes a move. */
  lemma ReorderedUndo<T>(list: seq<T>, start: nat, end: nat)
    requires start < |list| && end < |list|
    ensures Reordered(Reordered(list, start, end), end, start) == list
  {
    ReorderedMoves(list, start, end);
    var m := Reordered(list, start, end);
    RemoveInserted(RemoveAt(list, start), end, list[start]);
    assert RemoveAt(m, end) == RemoveAt(list, start);
    InsertRemoved(list, start);
  }

  /** The element `Reordered` puts at each index. */
  lemma ReorderedIndex<T>(list: seq<T>, start: nat, end: nat, j: nat)
    requires start < |list| && end < |list| && j < |list|
    ensures Reordered(list, start, end)[j] ==
      if j == end then list[start]
      else if start <= j < end then list[j + 1]
      else if end < j <= start then list[j - 1]
      else list[j]
  {
    var rest := RemoveAt(list, start);
    InsertAtIndex(rest, end, list[start], j);
    if j < end {
      assert Reordered(list, start, end)[j] == rest[j];
    } else if j > end {
      assert Reordered(list, start, end)[j] == rest[j - 1];
    }
  }

  /** The element `InsertAt` puts at each index, for an index inside the sequence. */
  lemma InsertAtIndex<T>(s: seq<T>, i: nat, x: T, j: nat)
    requires i <= |s| && j <= |s|
    ensures InsertAt(s, i, x)[j] == if j < i then s[j] else if j == i then x else s[j - 1]
  {
    assert SpliceIndex(i, |s|) == i;
    var r := InsertAt(s, i, x);
    if j < i {
      assert r[..i][j] == r[j];
    } else if j > i {
      assert r[i + 1..][j - i - 1] == r[j];
    }
  }

  /** The first splice and the second, for `start <= end`: elements after
      `start` up to `end` move one place left. */
  method ShiftLeft<T>(a: array<T>, start: nat, end: nat)
    requires start <= end < a.Length
    modifies a
    ensures forall j :: 0 <= j < a.Length ==>
      a[j] == if start <= j < end then old(a[j + 1]) else old(a[j])
  {
    var i := start;
    while i < end
      invariant start <= i <= end
      invariant forall j :: 0 <= j < a.Length ==>
        a[j] == if start <= j < i then old(a[j + 1]) else old(a[j])
    {
      a[i] := a[i + 1];
      i := i + 1;
    }
  }

  /** The same for `end < start`: elements from `end` up to before `start` move one place right. */
  method ShiftRight<T>(a: array<T>, start: nat, end: nat)
    requires end < start < a.Length
    modifies a
    ensures forall j :: 0 <= j < a.Length ==>
      a[j] == if end < j <= start then old(a[j - 1]) else old(a[j])
  {
    var i := start;
    while i > end
      invariant end <= i <= start
      invariant forall j :: 0 <= j < a.Length ==>
        a[j] == if i < j <= start then old(a[j - 1]) else old(a[j])
    {
      a[i] := a[i - 1];
      i := i - 1;
    }
  }

  /** `reorder(list, start, end)`: `Array.from(list)`, then `splice(start, 1)` and
      `splice(end, 0, removed)` on the copy. Both splices act on one array whose
      length ends where it started, which amounts to shifting the elements
      between the two indices by one place and storing the removed element at
      `end`. */
  method Reorder<T>(list: seq<T>, start: nat, end: nat) returns (r: seq<T>)
    requires start < |list| && end < |list|
    ensures r == Reordered(list, start, end)
  {
    var a := new T[|list|](i requires 0 <= i < |list| => list[i]);
    assert a[..] == list;
    var removed := a[start];
    if start <= end {
      ShiftLeft(a, start, end);
    } else {
      ShiftRight(a, start, end);
    }
    a[end] := removed;
    r := a[..];
    forall j | 0 <= j < |r| ensures r[j] == Reordered(list, start, end)[j] {
      ReorderedIndex(list, start, end, j);
    }
  }

  /** `arr.splice(k, 0, x)` on an array holding `s`: the array grows by one,
      the elements from the insertion index on move one place right, and `x`
      is stored in the gap. */
  method SpliceInsert<T>(s: seq<T>, k: int, x: T) returns (r: seq<T>)
    ensures r == InsertAt(s, k, x)
  {
    var i := SpliceIndex(k, |s|);
    var a := new T[|s| + 1](j requires 0 <= j < |s| + 1 => if j < |s| then s[j] else x);
    var j := |s|;
    while j > i
      invariant i <= j <= |s|
      invariant forall m :: 0 <= m < j ==> a[m] == s[m]
      invariant forall m :: j < m <= |s| ==> a[m] == s[m - 1]
    {
      a[j] := a[j - 1];
      j := j - 1;
    }
    a[i] := x;
    r := a[..];
    InsertAtIndices(s, k, x, r);
  }

  /** A sequence that holds `x` at the splice index and the elements of `s`
      around it, in order, is `InsertAt(s, k, x)`. */
  lemma InsertAtIndices<T>(s: seq<T>, k: int, x: T, r: seq<T>)
    requires |r| == |s| + 1 && r[SpliceIndex(k, |s|)] == x
    requires forall m :: 0 <= m < SpliceIndex(k, |s|) ==> r[m] == s[m]
    requires forall m :: SpliceIndex(k, |s|) < m <= |s| ==> r[m] == s[m - 1]
    ensures r == InsertAt(s, k, x)
  {
    var i := SpliceIndex(k, |s|);
    assert r[..i] == s[..i];
    assert r[i + 1..] == s[i..];
    assert r == r[..i] + [x] + r[i + 1..];
  }

  const MinuteMs := 60000
  const HourMs := 3600000
  const DayMs := 86400000

  /** `formatRelativeDate(timestamp)` at the instant `now`; `formatDate`
      (locale formatting) is a parameter. `Math.floor` of a quotient by a
      positive constant is Dafny's `/`. */
  function FormatRelativeDate(timestamp: int, now: int, formatDate: int -> string): (r: string)
    ensures now - timestamp < MinuteMs ==> r == "Just now"
    ensures MinuteMs <= now - timestamp < HourMs ==>
      r == NatToString((now - timestamp) / MinuteMs) + "m ago" && 1 <= (now - timestamp) / MinuteMs < 60
    ensures HourMs <= now - timestamp < DayMs ==>
      r == NatToString((now - timestamp) / HourMs) + "h ago" && 1 <= (now - timestamp) / HourMs < 24
    ensures DayMs <= now - timestamp < 7 * DayMs ==>
      r == NatToString((now - timestamp) / DayMs) + "d ago" && 1 <= (now - timestamp) / DayMs < 7
    ensures 7 * DayMs <= now - timestamp ==> r == formatDate(timestamp)
  {
    var diff := now - timestamp;
    var minutes := diff / MinuteMs;
    var hours := diff / HourMs;
    var days := diff / DayMs;
    if minutes < 1 then "Just now"
    else if minutes < 60 then IntToString(minutes) + "m ago"
    else if hours < 24 then IntToString(hours) + "h ago"
    else if days < 7 then IntToString(days) + "d ago"
    else formatDate(timestamp)
  }
}
