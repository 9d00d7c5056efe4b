/** The array operations the source relies on (`filter`, `map` over a matching
    record, `slice(0, n)`, `splice(k, 0, x)`), as functions on sequences. */
module Seqs {

  /** `Array.prototype.filter`: the elements satisfying `p`, in their original order. */
  function Filter<T>(s: seq<T>, p: T -> bool): (r: seq<T>)
    ensures |r| <= |s|
    ensures forall i :: 0 <= i < |r| ==> p(r[i]) && r[i] in s
    ensures forall i :: 0 <= i < |s| && p(s[i]) ==> s[i] in r
    ensures multiset(r) <= multiset(s)
  {
    if s == [] then []
    else
      var rest := Filter(s[1..], p);
      var r := if p(s[0]) then [s[0]] + rest else rest;
      FilterStep(s, p, rest, r);
      r
  }

  /** What `Filter` promises of its result `r`. */
  ghost predicate FilterOf<T>(s: seq<T>, p: T -> bool, r: seq<T>) {
    |r| <= |s|
    && (forall i :: 0 <= i < |r| ==> p(r[i]) && r[i] in s)
    && (forall i :: 0 <= i < |s| && p(s[i]) ==> s[i] in r)
    && multiset(r) <= multiset(s)
  }

  /** Keeping or dropping the first element preserves what `Filter` promises. */
  lemma FilterStep<T>(s: seq<T>, p: T -> bool, rest: seq<T>, r: seq<T>)
    requires s != [] && FilterOf(s[1..], p, rest)
    requires r == if p(s[0]) then [s[0]] + rest else rest
    ensures FilterOf(s, p, r)
  {
    assert s == [s[0]] + s[1..];
    assert forall x :: x in s[1..] ==> x in s;
    forall i | 0 <= i < |s| && p(s[i]) ensures s[i] in r {
      if i > 0 {
        assert s[i] == s[1..][i - 1];
      }
    }
  }

  /** `idx` picks `sub` out of `s` at strictly increasing positions. */
  ghost predicate IndexMap<T>(idx: seq<nat>, sub: seq<T>, s: seq<T>) {
    |idx| == |sub|
    && (forall i :: 0 <= i < |idx| ==> idx[i] < |s| && sub[i] == s[idx[i]])
    && (forall i, j :: 0 <= i < j < |idx| ==> idx[i] < idx[j])
  }

  /** `sub` is `s` with some elements left out and the rest in their order. */
  ghost predicate Subsequence<T>(sub: seq<T>, s: seq<T>) {
    exists idx :: IndexMap(idx, sub, s)
  }

  /** Every position shifted one place right, for a sequence gaining a first element. */
  function Shifted(idx: seq<nat>): (r: seq<nat>)
    ensures |r| == |idx| && forall i :: 0 <= i < |idx| ==> r[i] == idx[i] + 1
  {
    Map(idx, (n: nat) => n + 1)
  }

  /** Positions in the tail of `s` are positions one further on in `s`. */
  lemma IndexMapSkip<T>(idx: seq<nat>, sub: seq<T>, s: seq<T>)
    requires s != [] && IndexMap(idx, sub, s[1..])
    ensures IndexMap(Shifted(idx), sub, s)
  {
    var sh := Shifted(idx);
    forall i | 0 <= i < |idx| ensures sh[i] < |s| && sub[i] == s[sh[i]] {
      assert s[1..][idx[i]] == s[idx[i] + 1];
    }
  }

  /** Keeping the first element of `s` adds position 0 in front. */
  lemma IndexMapKeep<T>(idx: seq<nat>, sub: seq<T>, s: seq<T>)
    requires s != [] && IndexMap(idx, sub, s[1..])
    ensures IndexMap([0] + Shifted(idx), [s[0]] + sub, s)
  {
    IndexMapSkip(idx, sub, s);
    var sh := Shifted(idx);
    var full := [0] + sh;
    var r := [s[0]] + sub;
    forall i | 0 <= i < |full| ensures full[i] < |s| && r[i] == s[full[i]] {
      if i > 0 {
        assert full[i] == sh[i - 1] && r[i] == sub[i - 1];
      }
    }
  }

  /** A filter keeps the elements it keeps in their original relative order. */
  lemma {:induction false} FilterSubsequence<T>(s: seq<T>, p: T -> bool)
    ensures Subsequence(Filter(s, p), s)
  {
    if s == [] {
      assert IndexMap([], Filter(s, p), s);
    } else {
      var rest := Filter(s[1..], p);
      FilterSubsequence(s[1..], p);
      var idx :| IndexMap(idx, rest, s[1..]);
      if p(s[0]) {
        IndexMapKeep(idx, rest, s);
        assert IndexMap([0] + Shifted(idx), Filter(s, p), s);
      } else {
        IndexMapSkip(idx, rest, s);
        assert IndexMap(Shifted(idx), Filter(s, p), s);
      }
    }
  }

  /** `r` is what a filter by `p` leaves of `s`: a subsequence of `s` holding
      each element satisfying `p` exactly as often as `s` does, and no other. */
  ghost predicate FilteredFrom<T(!new)>(r: seq<T>, s: seq<T>, p: T -> bool) {
    Subsequence(r, s) && forall x :: multiset(r)[x] == if p(x) then multiset(s)[x] else 0
  }

  /** A filter keeps each element satisfying `p` as often as it occurs, and drops the others. */
  lemma {:induction false} FilterCounts<T>(s: seq<T>, p: T -> bool)
    ensures forall x :: multiset(Filter(s, p))[x] == if p(x) then multiset(s)[x] else 0
  {
    if s != [] {
      FilterCounts(s[1..], p);
      assert s == [s[0]] + s[1..];
      var rest := Filter(s[1..], p);
      assert Filter(s, p) == if p(s[0]) then [s[0]] + rest else rest;
    }
  }

  /** `Filter` is a filter in the sense of `FilteredFrom`. */
  lemma FilterFilteredFrom<T(!new)>(s: seq<T>, p: T -> bool)
    ensures FilteredFrom(Filter(s, p), s, p)
  {
    FilterSubsequence(s, p);
    FilterCounts(s, p);
  }

  lemma {:induction false} FilterConcat<T>(a: seq<T>, b: seq<T>, p: T -> bool)
    ensures Filter(a + b, p) == Filter(a, p) + Filter(b, p)
  {
    if a == [] {
      assert a + b == b;
    } else {
      assert (a + b)[1..] == a[1..] + b;
      FilterConcat(a[1..], b, p);
    }
  }

  /** Dropping a prefix the filter rejects entirely changes nothing. */
  lemma {:induction false} FilterDropPrefix<T>(u: seq<T>, k: nat, p: T -> bool)
    requires k <= |u|
    requires forall i :: 0 <= i < k ==> !p(u[i])
    ensures Filter(u[k..], p) == Filter(u, p)
  {
    if k > 0 {
      assert u[1..][k - 1..] == u[k..];
      FilterDropPrefix(u[1..], k - 1, p);
    }
  }

  /** Dropping a suffix the filter rejects entirely changes nothing. */
  lemma FilterDropSuffix<T>(u: seq<T>, k: nat, p: T -> bool)
    requires k <= |u|
    requires forall i :: k <= i < |u| ==> !p(u[i])
    ensures Filter(u[..k], p) == Filter(u, p)
  {
    assert u == u[..k] + u[k..];
    FilterConcat(u[..k], u[k..], p);
    FilterNone(u[k..], p);
  }

  /** A filter whose predicate holds everywhere keeps the sequence as it is. */
  lemma {:induction false} FilterAll<T>(s: seq<T>, p: T -> bool)
    requires forall i :: 0 <= i < |s| ==> p(s[i])
    ensures Filter(s, p) == s
  {
    if s != [] {
      FilterAll(s[1..], p);
    }
  }

  /** A filter whose predicate holds nowhere yields the empty sequence. */
  lemma {:induction false} FilterNone<T>(s: seq<T>, p: T -> bool)
    requires forall i :: 0 <= i < |s| ==> !p(s[i])
    ensures Filter(s, p) == []
  {
    if s != [] {
      FilterNone(s[1..], p);
    }
  }

  /** Filtering twice is filtering once by the conjunction of the predicates. */
  lemma {:induction false} FilterFilter<T>(s: seq<T>, p: T -> bool, q: T -> bool, pq: T -> bool)
    requires forall x :: pq(x) == (p(x) && q(x))
    ensures Filter(Filter(s, p), q) == Filter(s, pq)
  {
    if s != [] {
      FilterFilter(s[1..], p, q, pq);
    }
  }

  /** Two predicates that agree on the elements of `s` filter it alike. */
  lemma {:induction false} FilterCongruent<T>(s: seq<T>, p: T -> bool, q: T -> bool)
    requires forall i :: 0 <= i < |s| ==> p(s[i]) == q(s[i])
    ensures Filter(s, p) == Filter(s, q)
  {
    if s != [] {
      FilterCongruent(s[1..], p, q);
    }
  }

  /** The elements of `s` that match `p`, each replaced by `f` of it: `s.map(x => p(x) ? f(x) : x)`. */
  function MapIf<T>(s: seq<T>, p: T -> bool, f: T -> T): (r: seq<T>)
    ensures |r| == |s|
    ensures forall i :: 0 <= i < |s| ==> r[i] == (if p(s[i]) then f(s[i]) else s[i])
  {
    if s == [] then []
    else [if p(s[0]) then f(s[0]) else s[0]] + MapIf(s[1..], p, f)
  }

  /** When nothing matches, a `MapIf` leaves the sequence unchanged. */
  lemma MapIfNoMatch<T>(s: seq<T>, p: T -> bool, f: T -> T)
    requires forall i :: 0 <= i < |s| ==> !p(s[i])
    ensures MapIf(s, p, f) == s
  {
  }

  /** The index `findIndex(p)` returns, with `|s|` standing for "not found":
      the first element satisfying `p`. */
  function FirstIndex<T>(s: seq<T>, p: T -> bool): (r: nat)
    ensures r <= |s|
    ensures r < |s| ==> p(s[r])
    ensures forall j :: 0 <= j < r ==> !p(s[j])
  {
    if s == [] then 0
    else if p(s[0]) then 0
    else 1 + FirstIndex(s[1..], p)
  }

  /** `slice(0, n)`: at most the first `n` elements. */
  function Take<T>(s: seq<T>, n: nat): (r: seq<T>)
    ensures |r| == if |s| < n then |s| else n
    ensures r <= s
    ensures multiset(r) <= multiset(s)
  {
    if |s| <= n then s
    else
      assert s == s[..n] + s[n..];
      s[..n]
  }

  /** The start index `splice(k, ...)` uses on an array of length `len`:
      a negative `k` counts from the end, and the result is clamped to `[0, len]`. */
  function SpliceIndex(k: int, len: nat): (r: nat)
    ensures r <= len
    ensures 0 <= k <= len ==> r == k
    ensures k > len ==> r == len
    ensures k < 0 ==> r == (if len + k < 0 then 0 else len + k)
  {
    if k < 0 then (if len + k < 0 then 0 else len + k)
    else if k > len then len
    else k
  }

  /** `splice(k, 0, x)`: `x` inserted before position `SpliceIndex(k, |s|)`. */
  function InsertAt<T>(s: seq<T>, k: int, x: T): (r: seq<T>)
    ensures |r| == |s| + 1
    ensures r[SpliceIndex(k, |s|)] == x
    ensures r[..SpliceIndex(k, |s|)] == s[..SpliceIndex(k, |s|)]
    ensures r[SpliceIndex(k, |s|) + 1..] == s[SpliceIndex(k, |s|)..]
    ensures multiset(r) == multiset(s) + multiset{x}
  {
    var i := SpliceIndex(k, |s|);
    assert s == s[..i] + s[i..];
    s[..i] + [x] + s[i..]
  }

  /** `splice(i, 1)` for an index inside the array: the element at `i` removed. */
  function RemoveAt<T>(s: seq<T>, i: nat): (r: seq<T>)
    requires i < |s|
    ensures |r| == |s| - 1
    ensures forall j :: 0 <= j < i ==> r[j] == s[j]
    ensures forall j :: i <= j < |r| ==> r[j] == s[j + 1]
    ensures multiset(r) + multiset{s[i]} == multiset(s)
  {
    assert s == s[..i] + [s[i]] + s[i + 1..];
    s[..i] + s[i + 1..]
  }

  /** The sequence with `f` applied to each element: `Array.prototype.map`. */
  function Map<T, U>(s: seq<T>, f: T -> U): (r: seq<U>)
    ensures |r| == |s|
    ensures forall i :: 0 <= i < |s| ==> r[i] == f(s[i])
  {
    if s == [] then [] else [f(s[0])] + Map(s[1..], f)
  }

  /** Where each of four concatenated sequences sits in the result. */
  lemma ConcatSections<T>(a: seq<T>, b: seq<T>, c: seq<T>, d: seq<T>)
    ensures var r := a + b + c + d;
      (forall i :: 0 <= i < |a| ==> r[i] == a[i])
      && (forall i :: |a| <= i < |a| + |b| ==> r[i] == b[i - |a|])
      && (forall i :: |a| + |b| <= i < |a| + |b| + |c| ==> r[i] == c[i - |a| - |b|])
      && (forall i :: |a| + |b| + |c| <= i < |r| ==> r[i] == d[i - |a| - |b| - |c|])
  {
  }

  /** The values of a mapped sequence are exactly the images of its elements. */
  lemma MapMembers<T, U>(s: seq<T>, f: T -> U, y: U)
    ensures y in Map(s, f) <==> exists x :: x in s && f(x) == y
  {
    var r := Map(s, f);
    if y in r {
      var j :| 0 <= j < |r| && r[j] == y;
      assert s[j] in s && f(s[j]) == y;
    }
    if x :| x in s && f(x) == y {
      var j :| 0 <= j < |s| && s[j] == x;
      assert r[j] == y;
    }
  }

  /** Mapping commutes with inserting. */
  lemma MapInsertAt<T, U>(s: seq<T>, k: int, x: T, f: T -> U)
    ensures Map(InsertAt(s, k, x), f) == InsertAt(Map(s, f), k, f(x))
  {
    var i := SpliceIndex(k, |s|);
    var a := Map(InsertAt(s, k, x), f);
    var b := InsertAt(Map(s, f), k, f(x));
    forall j | 0 <= j < |a| ensures a[j] == b[j] {
      if j < i {
        assert InsertAt(s, k, x)[j] == s[j];
        assert b[j] == Map(s, f)[j];
      } else if j > i {
        assert InsertAt(s, k, x)[j] == s[j - 1];
        assert b[j] == Map(s, f)[j - 1];
      }
    }
  }

  lemma {:induction false} MapConcat<T, U>(a: seq<T>, b: seq<T>, f: T -> U)
    ensures Map(a + b, f) == Map(a, f) + Map(b, f)
  {
    assert |Map(a + b, f)| == |Map(a, f) + Map(b, f)|;
    forall i | 0 <= i < |a + b|
      ensures Map(a + b, f)[i] == (Map(a, f) + Map(b, f))[i]
    {
      if i < |a| {
        assert (a + b)[i] == a[i];
      } else {
        assert (a + b)[i] == b[i - |a|];
      }
    }
  }

  /** No two elements of `s` share an identifier. */
  ghost predicate UniqueBy<T>(s: seq<T>, id: T -> string) {
    forall i, j :: 0 <= i < |s| && 0 <= j < |s| && i != j ==> id(s[i]) != id(s[j])
  }

  /** Membership in a filter: exactly the members of `s` that satisfy `p`. */
  lemma FilterMembers<T>(s: seq<T>, p: T -> bool, x: T)
    ensures x in Filter(s, p) <==> x in s && p(x)
  {
    if x in s && p(x) {
      var i :| 0 <= i < |s| && s[i] == x;
    }
  }

  /** Splitting by a predicate and its negation loses and adds nothing. */
  lemma {:induction false} FilterSplit<T>(s: seq<T>, p: T -> bool, q: T -> bool)
    requires forall x :: q(x) == !p(x)
    ensures multiset(Filter(s, p)) + multiset(Filter(s, q)) == multiset(s)
    ensures |Filter(s, p)| + |Filter(s, q)| == |s|
  {
    if s != [] {
      FilterSplit(s[1..], p, q);
      assert s == [s[0]] + s[1..];
    }
  }

  /** Filtering by two disjoint predicates counts what their disjunction keeps. */
  lemma {:induction false} FilterCountDisjoint<T>(s: seq<T>, a: T -> bool, b: T -> bool, ab: T -> bool)
    requires forall x :: ab(x) == (a(x) || b(x))
    requires forall x :: !(a(x) && b(x))
    ensures |Filter(s, a)| + |Filter(s, b)| == |Filter(s, ab)|
    ensures multiset(Filter(s, a)) + multiset(Filter(s, b)) == multiset(Filter(s, ab))
  {
    if s != [] {
      FilterCountDisjoint(s[1..], a, b, ab);
    }
  }

  /** Filtering keeps identifiers unique. */
  lemma {:induction false} FilterUnique<T>(s: seq<T>, p: T -> bool, id: T -> string)
    requires UniqueBy(s, id)
    ensures UniqueBy(Filter(s, p), id)
  {
    if s != [] {
      var rest := s[1..];
      UniqueTail(s, id);
      FilterUnique(rest, p, id);
      if p(s[0]) {
        var f := Filter(rest, p);
        forall k | 0 <= k < |f| ensures id(f[k]) != id(s[0]) {
          var m :| 0 <= m < |rest| && rest[m] == f[k];
          assert s[m + 1] == f[k];
        }
        UniqueCons(s[0], f, id);
      }
    }
  }

  /** Dropping the first element keeps identifiers unique. */
  lemma UniqueTail<T>(s: seq<T>, id: T -> string)
    requires s != [] && UniqueBy(s, id)
    ensures UniqueBy(s[1..], id)
  {
    var rest := s[1..];
    forall i, j | 0 <= i < |rest| && 0 <= j < |rest| && i != j
      ensures id(rest[i]) != id(rest[j])
    {
      assert rest[i] == s[i + 1] && rest[j] == s[j + 1];
    }
  }

  /** Putting an element with a new identifier in front keeps identifiers unique. */
  lemma UniqueCons<T>(x: T, f: seq<T>, id: T -> string)
    requires UniqueBy(f, id)
    requires forall k :: 0 <= k < |f| ==> id(f[k]) != id(x)
    ensures UniqueBy([x] + f, id)
  {
    var r := [x] + f;
    forall i, j | 0 <= i < |r| && 0 <= j < |r| && i != j ensures id(r[i]) != id(r[j]) {
      if i > 0 && j > 0 {
        assert r[i] == f[i - 1] && r[j] == f[j - 1];
      } else if i == 0 {
        assert r[j] == f[j - 1];
      } else {
        assert r[i] == f[i - 1];
      }
    }
  }


  /** Mapping around the element at `j`. */
  lemma MapSplitAt<T, U>(b: seq<T>, j: nat, f: T -> U)
    requires j < |b|
    ensures Map(b, f) == Map(b[..j], f) + [f(b[j])] + Map(b[j + 1..], f)
  {
    var l, r := Map(b[..j], f), Map(b[j + 1..], f);
    var m := l + [f(b[j])] + r;
    forall i | 0 <= i < |b| ensures Map(b, f)[i] == m[i] {
      if i < j {
        assert m[i] == l[i] && b[..j][i] == b[i];
      } else if i > j {
        assert m[i] == r[i - j - 1] && b[j + 1..][i - j - 1] == b[i];
      }
    }
  }

  /** Taking out the element at `j` takes its image out of the mapped sequence. */
  lemma MapRemove<T, U>(b: seq<T>, j: nat, f: T -> U)
    requires j < |b|
    ensures multiset(Map(b, f)) == multiset(Map(RemoveAt(b, j), f)) + multiset{f(b[j])}
  {
    MapSplitAt(b, j, f);
    MapConcat(b[..j], b[j + 1..], f);
  }

  /** Taking one `x` back out of a multiset that gained it. */
  lemma MultisetCancel<T>(m: multiset<T>, n: multiset<T>, x: T)
    requires m + multiset{x} == n
    ensures m == n - multiset{x}
  {
  }

  /** Removing the first of `a` and a matching element of `b` keeps the elements equal. */
  lemma RemoveMatching<T>(a: seq<T>, b: seq<T>, j: nat)
    requires a != [] && j < |b| && b[j] == a[0]
    requires multiset(a) == multiset(b)
    ensures multiset(a[1..]) == multiset(RemoveAt(b, j))
  {
    assert a == [a[0]] + a[1..];
    MultisetCancel(multiset(a[1..]), multiset(a), a[0]);
    MultisetCancel(multiset(RemoveAt(b, j)), multiset(b), a[0]);
  }

  /** The images of `a` and `b` each hold the image of the matched element once more. */
  lemma MapMatching<T, U>(a: seq<T>, b: seq<T>, j: nat, f: T -> U)
    requires a != [] && j < |b| && b[j] == a[0]
    ensures multiset(Map(a, f)) == multiset(Map(a[1..], f)) + multiset{f(a[0])}
    ensures multiset(Map(b, f)) == multiset(Map(RemoveAt(b, j), f)) + multiset{f(a[0])}
  {
    assert Map(a, f) == [f(a[0])] + Map(a[1..], f);
    MapRemove(b, j, f);
  }

  /** Sequences with the same elements map to sequences with the same elements. */
  lemma {:induction false} MapMultiset<T, U>(a: seq<T>, b: seq<T>, f: T -> U)
    requires multiset(a) == multiset(b)
    ensures multiset(Map(a, f)) == multiset(Map(b, f))
    decreases |a|
  {
    if a != [] {
      assert a[0] in multiset(b);
      var j :| 0 <= j < |b| && b[j] == a[0];
      RemoveMatching(a, b, j);
      MapMultiset(a[1..], RemoveAt(b, j), f);
      MapMatching(a, b, j, f);
    }
  }

  /** The images of `outside + renumbered` hold what the images of `all` hold
      when `renumbered` has the images of `list`, and `list` the images of
      `inside` plus `x`, and `outside`, `inside` and `x` together are `all`. */
  lemma MapPartsCount<T, U>(outside: seq<T>, renumbered: seq<T>, list: seq<T>,
                            inside: seq<T>, all: seq<T>, f: T -> U, x: U)
    requires multiset(Map(renumbered, f)) == multiset(Map(list, f))
    requires multiset(Map(list, f)) == multiset(Map(inside, f)) + multiset{x}
    requires multiset(Map(outside, f)) + multiset(Map(inside, f)) + multiset{x} == multiset(Map(all, f))
    ensures multiset(Map(outside + renumbered, f)) == multiset(Map(all, f))
  {
    MapConcat(outside, renumbered, f);
    var o, r := Map(outside, f), Map(renumbered, f);
    assert multiset(o + r) == multiset(o) + multiset(r);
    MultisetParts(multiset(o + r), multiset(o), multiset(r), multiset(Map(inside, f)),
                  multiset(Map(all, f)), x);
  }

  /** Multiset arithmetic behind `MapPartsCount`. */
  lemma MultisetParts<T>(m: multiset<T>, o: multiset<T>, r: multiset<T>, n: multiset<T>, a: multiset<T>, x: T)
    requires m == o + r && r == n + multiset{x} && o + n + multiset{x} == a
    ensures m == a
  {
    assert o + (n + multiset{x}) == o + n + multiset{x};
  }

  /** No identifier occurs twice in the identifiers of a sequence with unique identifiers. */
  lemma {:induction false} UniqueCounts<T>(s: seq<T>, id: T -> string, v: string)
    requires UniqueBy(s, id)
    ensures multiset(Map(s, id))[v] <= 1
  {
    if s != [] {
      UniqueTail(s, id);
      UniqueCounts(s[1..], id, v);
      assert Map(s, id) == [id(s[0])] + Map(s[1..], id);
      if id(s[0]) == v {
        forall k | 0 <= k < |s[1..]| ensures Map(s[1..], id)[k] != v {
          assert s[1..][k] == s[k + 1];
        }
        assert v !in Map(s[1..], id);
      }
    }
  }

  /** A value at two positions occurs at least twice. */
  lemma OccursTwice<U>(m: seq<U>, i: nat, j: nat)
    requires i < j < |m| && m[i] == m[j]
    ensures multiset(m)[m[i]] >= 2
  {
    var v := m[i];
    var a, b := m[..j], m[j..];
    assert m == a + b;
    assert a[i] == v && b[0] == v;
    assert multiset(a)[v] >= 1 && multiset(b)[v] >= 1;
  }

  /** Two elements sharing an identifier make it occur twice. */
  lemma SharedIdCount<T>(s: seq<T>, id: T -> string, i: nat, j: nat)
    requires i < j < |s| && id(s[i]) == id(s[j])
    ensures multiset(Map(s, id))[id(s[i])] >= 2
  {
    OccursTwice(Map(s, id), i, j);
  }

  /** Identifiers occurring as often as in a sequence with unique identifiers are unique too. */
  lemma UniqueByIds<T>(a: seq<T>, b: seq<T>, id: T -> string)
    requires UniqueBy(b, id)
    requires multiset(Map(a, id)) == multiset(Map(b, id))
    ensures UniqueBy(a, id)
  {
    forall i, j | 0 <= i < |a| && 0 <= j < |a| && i != j ensures id(a[i]) != id(a[j]) {
      UniqueCounts(b, id, id(a[i]));
      if id(a[i]) == id(a[j]) {
        if i < j {
          SharedIdCount(a, id, i, j);
        } else {
          SharedIdCount(a, id, j, i);
        }
      }
    }
  }

  /** When exactly one element of a sequence with unique identifiers carries
      `v`, filtering out `v` removes one element. */
  lemma {:induction false} FilterRemovesOne<T>(s: seq<T>, id: T -> string, v: string, p: T -> bool, i: nat)
    requires UniqueBy(s, id)
    requires i < |s| && id(s[i]) == v
    requires forall x :: p(x) == (id(x) != v)
    ensures |Filter(s, p)| == |s| - 1
  {
    var rest := s[1..];
    if i == 0 {
      forall k | 0 <= k < |rest| ensures p(rest[k]) {
        assert rest[k] == s[k + 1];
      }
      FilterAll(rest, p);
    } else {
      assert UniqueBy(rest, id) by {
        forall a, b | 0 <= a < |rest| && 0 <= b < |rest| && a != b
          ensures id(rest[a]) != id(rest[b])
        {
          assert rest[a] == s[a + 1] && rest[b] == s[b + 1];
        }
      }
      assert rest[i - 1] == s[i];
      FilterRemovesOne(rest, id, v, p, i - 1);
    }
  }

  /** Filtering out the one element that carries `v` removes exactly that element. */
  lemma FilterRemovesIt<T>(s: seq<T>, id: T -> string, v: string, p: T -> bool, i: nat)
    requires UniqueBy(s, id)
    requires i < |s| && id(s[i]) == v
    requires forall x :: p(x) == (id(x) != v)
    ensures multiset(Filter(s, p)) + multiset{s[i]} == multiset(s)
  {
    var q := (x: T) => !p(x);
    FilterSplit(s, p, q);
    FilterRemovesOne(s, id, v, p, i);
    var f := Filter(s, q);
    assert s[i] in f;
    assert f == [s[i]];
  }

  /** A `MapIf` whose update keeps identifiers keeps them unique. */
  lemma MapIfUnique<T>(s: seq<T>, p: T -> bool, f: T -> T, id: T -> string)
    requires UniqueBy(s, id)
    requires forall x :: id(f(x)) == id(x)
    ensures UniqueBy(MapIf(s, p, f), id)
  {
    var r := MapIf(s, p, f);
    forall i, j | 0 <= i < |r| && 0 <= j < |r| && i != j ensures id(r[i]) != id(r[j]) {
      assert id(r[i]) == id(s[i]) && id(r[j]) == id(s[j]);
    }
  }

  /** Appending one element whose identifier is new keeps identifiers unique. */
  lemma AppendFresh<T>(s: seq<T>, x: T, id: T -> string)
    requires UniqueBy(s, id)
    requires forall i :: 0 <= i < |s| ==> id(s[i]) != id(x)
    ensures UniqueBy(s + [x], id)
  {
    AppendUnique(s, [x], id);
  }

  /** Appending elements keeps identifiers unique when the new ones are unique and fresh. */
  lemma AppendUnique<T>(s: seq<T>, t: seq<T>, id: T -> string)
    requires UniqueBy(s, id) && UniqueBy(t, id)
    requires forall i, j :: 0 <= i < |s| && 0 <= j < |t| ==> id(s[i]) != id(t[j])
    ensures UniqueBy(s + t, id)
  {
    var r := s + t;
    forall i, j | 0 <= i < |r| && 0 <= j < |r| && i != j ensures id(r[i]) != id(r[j]) {
      if i < |s| && j >= |s| {
        assert r[i] == s[i] && r[j] == t[j - |s|];
      } else if i >= |s| && j < |s| {
        assert r[j] == s[j] && r[i] == t[i - |s|];
      } else if i < |s| {
        assert r[i] == s[i] && r[j] == s[j];
      } else {
        assert r[i] == t[i - |s|] && r[j] == t[j - |s|];
      }
    }
  }
}
