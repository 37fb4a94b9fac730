/** The array combinators the source uses (`filter`, `find`, `findIndex`,
    `reduce` with `+`), as functions on sequences with their contracts. */
module Seqs {
  import opened Wrappers

  /** `r` can be obtained from `s` by deleting elements (order is kept). */
  ghost predicate IsSubsequence<T>(r: seq<T>, s: seq<T>)
    decreases |s|
  {
    if r == [] then true
    else if s == [] then false
    else if r[0] == s[0] then IsSubsequence(r[1..], s[1..])
    else IsSubsequence(r, s[1..])
  }

  /** `Array.prototype.filter`: the elements that satisfy `p`, in order. */
  function Filter<T>(s: seq<T>, p: T -> bool): (r: seq<T>)
    ensures |r| <= |s|
    ensures forall i :: 0 <= i < |r| ==> p(r[i])
    decreases |s|
  {
    if s == [] then []
    else
      assert s == [s[0]] + s[1..];
      if p(s[0]) then [s[0]] + Filter(s[1..], p) else Filter(s[1..], p)
  }

  /** An element is kept exactly when it occurs and satisfies `p`. */
  lemma {:induction false} FilterMembers<T>(s: seq<T>, p: T -> bool, x: T)
    ensures x in Filter(s, p) <==> x in s && p(x)
    decreases |s|
  {
    if s != [] {
      FilterMembers(s[1..], p, x);
      assert s == [s[0]] + s[1..];
    }
  }

  lemma FilterMembership<T>(s: seq<T>, p: T -> bool)
    ensures forall x :: x in Filter(s, p) <==> x in s && p(x)
  {
    forall x {
      FilterMembers(s, p, x);
    }
  }

  /** `filter` keeps the order of what it keeps. */
  lemma {:induction false} FilterSubsequence<T>(s: seq<T>, p: T -> bool)
    ensures IsSubsequence(Filter(s, p), s)
    decreases |s|
  {
    if s != [] {
      FilterSubsequence(s[1..], p);
      var r := Filter(s, p);
      if p(s[0]) {
        assert r[0] == s[0] && r[1..] == Filter(s[1..], p);
      }
    }
  }

  /** `filter` keeps each element at most as often as it occurs. */
  /** Each element is kept as many times as it occurs when it satisfies `p`,
      and not at all otherwise. */
  lemma {:induction false} FilterMultiplicity<T>(s: seq<T>, p: T -> bool, x: T)
    ensures multiset(Filter(s, p))[x] == if p(x) then multiset(s)[x] else 0
    decreases |s|
  {
    if s != [] {
      FilterMultiplicity(s[1..], p, x);
      FilterUnfold(s, p);
      assert multiset(s) == multiset{s[0]} + multiset(s[1..]) by {
        assert s == [s[0]] + s[1..];
      }
    }
  }

  lemma {:induction false} FilterSubmultiset<T>(s: seq<T>, p: T -> bool)
    ensures multiset(Filter(s, p)) <= multiset(s)
    decreases |s|
  {
    if s != [] {
      FilterSubmultiset(s[1..], p);
      FilterUnfold(s, p);
      assert multiset(s) == multiset{s[0]} + multiset(s[1..]) by {
        assert s == [s[0]] + s[1..];
      }
    }
  }

  lemma FilterCons<T>(x: T, s: seq<T>, p: T -> bool)
    ensures Filter([x] + s, p) == (if p(x) then [x] else []) + Filter(s, p)
  {
    assert ([x] + s)[1..] == s;
  }

  lemma {:induction false} FilterAppend<T>(a: seq<T>, b: seq<T>, p: T -> bool)
    ensures Filter(a + b, p) == Filter(a, p) + Filter(b, p)
    decreases |a|
  {
    if a == [] {
      assert a + b == b;
    } else {
      var h, t := a[0], a[1..];
      assert a == [h] + t;
      assert a + b == [h] + (t + b);
      FilterAppend(t, b, p);
      FilterCons(h, t + b, p);
      FilterCons(h, t, p);
      var c: seq<T>, ft, fb := if p(h) then [h] else [], Filter(t, p), Filter(b, p);
      assert Filter(a + b, p) == c + (ft + fb);
      assert Filter(a, p) == c + ft;
      assert (c + ft) + fb == c + (ft + fb);
    }
  }

  lemma FilterUnfold<T>(s: seq<T>, p: T -> bool)
    requires s != []
    ensures multiset(Filter(s, p)) ==
            (if p(s[0]) then multiset{s[0]} else multiset{}) + multiset(Filter(s[1..], p))
  {
    if p(s[0]) {
      assert Filter(s, p) == [s[0]] + Filter(s[1..], p);
    }
  }

  /** Keeping every element that satisfies `p` and then every element that
      does not loses nothing: the two parts together are a permutation. */
  lemma {:induction false} FilterPartition<T>(s: seq<T>, p: T -> bool, q: T -> bool)
    requires forall x :: q(x) == !p(x)
    ensures multiset(Filter(s, p)) + multiset(Filter(s, q)) == multiset(s)
    decreases |s|
  {
    if s != [] {
      var rest := s[1..];
      FilterPartition(rest, p, q);
      FilterUnfold(s, p);
      FilterUnfold(s, q);
      assert s == [s[0]] + rest;
      MultisetSplitStep(s[0], p(s[0]), multiset(Filter(rest, p)), multiset(Filter(rest, q)), multiset(rest));
    }
  }

  /** One element added to one of two parts of a multiset. */
  lemma MultisetSplitStep<T>(x: T, left: bool, a: multiset<T>, b: multiset<T>, whole: multiset<T>)
    requires a + b == whole
    ensures (if left then multiset{x} else multiset{}) + a + ((if left then multiset{} else multiset{x}) + b) ==
            multiset{x} + whole
  {
  }

  /** `Array.prototype.findIndex`: the first index whose element satisfies `p`. */
  function FindIndex<T>(s: seq<T>, p: T -> bool): (r: Option<nat>)
    ensures r.Some? ==> r.value < |s| && p(s[r.value])
    ensures r.Some? ==> forall j :: 0 <= j < r.value ==> !p(s[j])
    ensures r.None? <==> forall j :: 0 <= j < |s| ==> !p(s[j])
    decreases |s|
  {
    if s == [] then None
    else if p(s[0]) then Some(0)
    else
      match FindIndex(s[1..], p)
      case None => None
      case Some(i) => Some(i + 1)
  }

  /** `Array.prototype.find`: the first element satisfying `p`, or nothing. */
  function Find<T>(s: seq<T>, p: T -> bool): (r: Option<T>)
    ensures r.None? <==> forall j :: 0 <= j < |s| ==> !p(s[j])
    ensures r.Some? ==> exists i :: 0 <= i < |s| && s[i] == r.value && p(s[i]) &&
                                    forall j :: 0 <= j < i ==> !p(s[j])
  {
    match FindIndex(s, p)
    case None => None
    case Some(i) => Some(s[i])
  }

  /** Two lists whose elements pass their tests at the same positions have
      their first hit at the same position. */
  lemma {:induction false} FindIndexPointwise<T, U>(s: seq<T>, p: T -> bool, t: seq<U>, q: U -> bool)
    requires |s| == |t|
    requires forall i :: 0 <= i < |s| ==> (p(s[i]) <==> q(t[i]))
    ensures FindIndex(s, p) == FindIndex(t, q)
    decreases |s|
  {
    if s != [] && !p(s[0]) {
      FindIndexPointwise(s[1..], p, t[1..], q);
    }
  }

  /** `find` on a list with a known head. */
  lemma FindCons<T>(x: T, s: seq<T>, p: T -> bool)
    ensures Find([x] + s, p) == if p(x) then Some(x) else Find(s, p)
  {
    var t := [x] + s;
    assert t[0] == x && t[1..] == s;
  }

  /** What `findIndex` finds in `s` it finds in `s + t` too. */
  lemma {:induction false} FindIndexAppend<T>(s: seq<T>, t: seq<T>, p: T -> bool)
    requires FindIndex(s, p).Some?
    ensures FindIndex(s + t, p) == FindIndex(s, p)
    decreases |s|
  {
    if !p(s[0]) {
      assert (s + t)[0] == s[0] && (s + t)[1..] == s[1..] + t;
      FindIndexAppend(s[1..], t, p);
    }
  }

  /** What `find` finds in `s` it finds in `s + t` too. */
  lemma FindAppend<T>(s: seq<T>, t: seq<T>, p: T -> bool)
    requires Find(s, p).Some?
    ensures Find(s + t, p) == Find(s, p)
  {
    FindIndexAppend(s, t, p);
    assert (s + t)[FindIndex(s, p).value] == s[FindIndex(s, p).value];
  }

  /** Filtering by a condition that every match satisfies does not change what `find` finds. */
  lemma {:induction false} FindAfterFilter<T>(s: seq<T>, p: T -> bool, q: T -> bool)
    requires forall x :: p(x) ==> q(x)
    ensures Find(Filter(s, q), p) == Find(s, p)
    decreases |s|
  {
    if s != [] {
      FindAfterFilter(s[1..], p, q);
      assert s == [s[0]] + s[1..];
      FindCons(s[0], s[1..], p);
      if q(s[0]) {
        FindCons(s[0], Filter(s[1..], q), p);
      }
    }
  }

  /** `Array.prototype.some`. */
  predicate Any<T>(s: seq<T>, p: T -> bool) {
    exists i :: 0 <= i < |s| && p(s[i])
  }

  /** `s.reduce((acc, x) => acc + f(x), 0)`. */
  function SumBy<T>(s: seq<T>, f: T -> real): real
    decreases |s|
  {
    if s == [] then 0.0 else f(s[0]) + SumBy(s[1..], f)
  }

  lemma {:induction false} SumByAppend<T>(a: seq<T>, b: seq<T>, f: T -> real)
    ensures SumBy(a + b, f) == SumBy(a, f) + SumBy(b, f)
    decreases |a|
  {
    if a == [] {
      assert a + b == b;
    } else {
      assert (a + b)[1..] == a[1..] + b;
      SumByAppend(a[1..], b, f);
    }
  }

  /** Summing a prefix one element longer adds that element. */
  lemma SumByPrefix<T>(s: seq<T>, i: nat, f: T -> real)
    requires i < |s|
    ensures SumBy(s[..i + 1], f) == SumBy(s[..i], f) + f(s[i])
  {
    assert s[..i + 1] == s[..i] + [s[i]];
    SumByAppend(s[..i], [s[i]], f);
  }

  /** `Array.prototype.map`. */
  function Map<T, U>(s: seq<T>, f: T -> U): (r: seq<U>)
    ensures |r| == |s| && forall i :: 0 <= i < |s| ==> r[i] == f(s[i])
  {
    seq(|s|, i requires 0 <= i < |s| => f(s[i]))
  }

  lemma MapCons<T, U>(x: T, s: seq<T>, f: T -> U)
    ensures Map([x] + s, f) == [f(x)] + Map(s, f)
  {
  }

  /** `filter` drops something as soon as one element fails. */
  lemma {:induction false} FilterShorter<T>(s: seq<T>, p: T -> bool, i: nat)
    requires i < |s| && !p(s[i])
    ensures |Filter(s, p)| < |s|
    decreases |s|
  {
    if i > 0 {
      assert s[1..][i - 1] == s[i];
      FilterShorter(s[1..], p, i - 1);
    }
  }

  /** `filter` keeps every element exactly when all of them pass. */
  lemma FilterKeepsAll<T>(s: seq<T>, p: T -> bool)
    ensures |Filter(s, p)| == |s| <==> forall i :: 0 <= i < |s| ==> p(s[i])
  {
    if forall i :: 0 <= i < |s| ==> p(s[i]) {
      FilterAllKept(s, p);
    } else {
      var i :| 0 <= i < |s| && !p(s[i]);
      FilterShorter(s, p, i);
    }
  }

  /** Filtering twice by the same test is filtering once. */
  lemma {:induction false} FilterIdempotent<T>(s: seq<T>, p: T -> bool)
    ensures Filter(Filter(s, p), p) == Filter(s, p)
  {
    var r := Filter(s, p);
    FilterKeepsAll(r, p);
    FilterAllKept(r, p);
  }

  /** A list whose every element passes is its own filter. */
  lemma {:induction false} FilterAllKept<T>(s: seq<T>, p: T -> bool)
    requires forall i :: 0 <= i < |s| ==> p(s[i])
    ensures Filter(s, p) == s
    decreases |s|
  {
    if s != [] {
      FilterAllKept(s[1..], p);
      assert s == [s[0]] + s[1..];
    }
  }

  /** `filter(Boolean)` after a `map` to optional values: the present values, in order. */
  function Somes<T>(s: seq<Option<T>>): (r: seq<T>)
    ensures |r| <= |s|
    decreases |s|
  {
    if s == [] then []
    else match s[0]
      case Some(v) => [v] + Somes(s[1..])
      case None => Somes(s[1..])
  }

  /** A sum of non-negative terms is non-negative. */
  lemma {:induction false} SumByNonNegative<T>(s: seq<T>, f: T -> real)
    requires forall i :: 0 <= i < |s| ==> f(s[i]) >= 0.0
    ensures SumBy(s, f) >= 0.0
    decreases |s|
  {
    if s != [] {
      assert forall i :: 0 <= i < |s[1..]| ==> s[1..][i] == s[i + 1];
      SumByNonNegative(s[1..], f);
    }
  }

  /** Sums respect a pointwise bound. */
  lemma {:induction false} SumByMonotone<T>(s: seq<T>, f: T -> real, g: T -> real)
    requires forall i :: 0 <= i < |s| ==> f(s[i]) <= g(s[i])
    ensures SumBy(s, f) <= SumBy(s, g)
    decreases |s|
  {
    if s != [] {
      assert forall i :: 0 <= i < |s[1..]| ==> s[1..][i] == s[i + 1];
      SumByMonotone(s[1..], f, g);
    }
  }

  /** Sums of pointwise-equal terms are equal. */
  lemma {:induction false} SumBySame<T>(s: seq<T>, f: T -> real, g: T -> real)
    requires forall i :: 0 <= i < |s| ==> f(s[i]) == g(s[i])
    ensures SumBy(s, f) == SumBy(s, g)
    decreases |s|
  {
    if s != [] {
      assert forall i :: 0 <= i < |s[1..]| ==> s[1..][i] == s[i + 1];
      SumBySame(s[1..], f, g);
    }
  }

  /** Summing over a mapped list is summing the composed terms. */
  lemma {:induction false} SumByMap<T, U>(s: seq<T>, m: T -> U, f: U -> real, g: T -> real)
    requires forall i :: 0 <= i < |s| ==> g(s[i]) == f(m(s[i]))
    ensures SumBy(Map(s, m), f) == SumBy(s, g)
    decreases |s|
  {
    if s != [] {
      assert forall i :: 0 <= i < |s[1..]| ==> s[1..][i] == s[i + 1];
      SumByMap(s[1..], m, f, g);
      assert Map(s, m)[1..] == Map(s[1..], m);
    }
  }

  /** Composing two filters is filtering by both tests. */
  lemma {:induction false} FilterFilter<T>(s: seq<T>, p: T -> bool, q: T -> bool, pq: T -> bool)
    requires forall x :: pq(x) == (p(x) && q(x))
    ensures Filter(Filter(s, p), q) == Filter(s, pq)
    decreases |s|
  {
    if s != [] {
      FilterFilter(s[1..], p, q, pq);
      if p(s[0]) {
        var f := Filter(s[1..], p);
        assert ([s[0]] + f)[0] == s[0] && ([s[0]] + f)[1..] == f;
      }
    }
  }

  // ---------------------------------------------------------------------
  // Sorting by a comparison (`Array.prototype.sort` with a comparator)

  predicate Sorted<T>(s: seq<T>, le: (T, T) -> bool) {
    forall i, j :: 0 <= i < j < |s| ==> le(s[i], s[j])
  }

  ghost predicate TotalPreorder<T(!new)>(le: (T, T) -> bool) {
    (forall a, b :: le(a, b) || le(b, a)) &&
    (forall a, b, c :: le(a, b) && le(b, c) ==> le(a, c))
  }

  /** `x` placed before the first element it does not come after. */
  function Insert<T>(x: T, s: seq<T>, le: (T, T) -> bool): (r: seq<T>)
    ensures multiset(r) == multiset(s) + multiset{x}
    ensures |r| == |s| + 1
    decreases |s|
  {
    if s == [] then [x]
    else if le(x, s[0]) then [x] + s
    else
      assert s == [s[0]] + s[1..];
      [s[0]] + Insert(x, s[1..], le)
  }

  lemma {:induction false} InsertSorted<T(!new)>(x: T, s: seq<T>, le: (T, T) -> bool)
    requires TotalPreorder(le) && Sorted(s, le)
    ensures Sorted(Insert(x, s, le), le)
    decreases |s|
  {
    if s != [] && !le(x, s[0]) {
      var rest := s[1..];
      assert Sorted(rest, le) by {
        assert forall i :: 0 <= i < |rest| ==> rest[i] == s[i + 1];
      }
      InsertSorted(x, rest, le);
      assert le(s[0], x);
      assert forall k :: 0 <= k < |rest| ==> le(s[0], rest[k]) by {
        assert forall k :: 0 <= k < |rest| ==> rest[k] == s[k + 1];
      }
      InsertBounded(s[0], x, rest, le);
      ConsSorted(s[0], Insert(x, rest, le), le);
    }
  }

  /** A lower bound of `x` and of every element of `s` bounds `Insert(x, s)`. */
  lemma InsertBounded<T>(y: T, x: T, s: seq<T>, le: (T, T) -> bool)
    requires le(y, x) && forall k :: 0 <= k < |s| ==> le(y, s[k])
    ensures forall k :: 0 <= k < |Insert(x, s, le)| ==> le(y, Insert(x, s, le)[k])
  {
    var ins := Insert(x, s, le);
    forall k | 0 <= k < |ins|
      ensures le(y, ins[k])
    {
      assert ins[k] in multiset(ins);
      assert ins[k] in multiset(s) + multiset{x};
      if ins[k] != x {
        assert ins[k] in multiset(s);
        var j :| 0 <= j < |s| && s[j] == ins[k];
      }
    }
  }

  /** A sorted list stays sorted behind a lower bound of all its elements. */
  lemma ConsSorted<T>(y: T, t: seq<T>, le: (T, T) -> bool)
    requires Sorted(t, le) && forall k :: 0 <= k < |t| ==> le(y, t[k])
    ensures Sorted([y] + t, le)
  {
    var r := [y] + t;
    forall i, j | 0 <= i < j < |r|
      ensures le(r[i], r[j])
    {
      assert r[j] == t[j - 1];
      if i > 0 {
        assert r[i] == t[i - 1];
      }
    }
  }

  /** Insertion sort: the same elements, in `le` order. */
  function SortBy<T>(s: seq<T>, le: (T, T) -> bool): (r: seq<T>)
    ensures multiset(r) == multiset(s)
    ensures |r| == |s|
    decreases |s|
  {
    if s == [] then []
    else
      assert s == [s[0]] + s[1..];
      Insert(s[0], SortBy(s[1..], le), le)
  }

  lemma {:induction false} SortBySorted<T(!new)>(s: seq<T>, le: (T, T) -> bool)
    requires TotalPreorder(le)
    ensures Sorted(SortBy(s, le), le)
    decreases |s|
  {
    if s != [] {
      SortBySorted(s[1..], le);
      InsertSorted(s[0], SortBy(s[1..], le), le);
    }
  }

  /** A rearrangement of a filter holds only elements passing the filter. */
  lemma PermutedFilterPasses<T>(r: seq<T>, s: seq<T>, p: T -> bool)
    requires multiset(r) == multiset(Filter(s, p))
    ensures forall i | 0 <= i < |r| :: p(r[i])
  {
    forall i | 0 <= i < |r|
      ensures p(r[i])
    {
      assert r[i] in multiset(r);
      assert r[i] in Filter(s, p);
    }
  }

  /** Two sorted groups, the first failing `q` and the second passing it,
      joined: `q` never goes from true to false, and each group stays sorted. */
  lemma JoinedGroups<T>(u: seq<T>, d: seq<T>, q: T -> bool, le: (T, T) -> bool)
    requires forall i :: 0 <= i < |u| ==> !q(u[i])
    requires forall i :: 0 <= i < |d| ==> q(d[i])
    requires Sorted(u, le) && Sorted(d, le)
    ensures forall i, j | 0 <= i < j < |u + d| :: q((u + d)[i]) ==> q((u + d)[j])
    ensures forall i, j | 0 <= i < j < |u + d| && q((u + d)[i]) == q((u + d)[j]) :: le((u + d)[i], (u + d)[j])
  {
    var r := u + d;
    forall i, j | 0 <= i < j < |r|
      ensures q(r[i]) ==> q(r[j])
      ensures q(r[i]) == q(r[j]) ==> le(r[i], r[j])
    {
      if j < |u| {
        assert r[i] == u[i] && r[j] == u[j];
      } else if i >= |u| {
        assert r[i] == d[i - |u|] && r[j] == d[j - |u|];
      } else {
        assert r[i] == u[i] && r[j] == d[j - |u|];
      }
    }
  }

  /** The elements failing `q`, then those passing it, taken from a sorted
      list: the same elements, `q` never goes from true to false, and each
      group keeps the order. */
  lemma SortedPartition<T>(s: seq<T>, p: T -> bool, q: T -> bool, le: (T, T) -> bool)
    requires forall x :: q(x) == !p(x)
    requires Sorted(s, le)
    ensures multiset(Filter(s, p) + Filter(s, q)) == multiset(s)
    ensures forall i, j | 0 <= i < j < |Filter(s, p) + Filter(s, q)| ::
      q((Filter(s, p) + Filter(s, q))[i]) ==> q((Filter(s, p) + Filter(s, q))[j])
    ensures forall i, j | 0 <= i < j < |Filter(s, p) + Filter(s, q)| &&
      q((Filter(s, p) + Filter(s, q))[i]) == q((Filter(s, p) + Filter(s, q))[j]) ::
      le((Filter(s, p) + Filter(s, q))[i], (Filter(s, p) + Filter(s, q))[j])
  {
    var u, d := Filter(s, p), Filter(s, q);
    FilterPartition(s, p, q);
    FilterKeepsSorted(s, p, le);
    FilterKeepsSorted(s, q, le);
    forall i | 0 <= i < |u|
      ensures !q(u[i])
    {
      FilterMembers(s, p, u[i]);
    }
    JoinedGroups(u, d, q, le);
  }

  /** A filter of a sorted list is sorted. */
  lemma {:induction false} FilterKeepsSorted<T>(s: seq<T>, p: T -> bool, le: (T, T) -> bool)
    requires Sorted(s, le)
    ensures Sorted(Filter(s, p), le)
    decreases |s|
  {
    if s != [] {
      var rest := s[1..];
      assert Sorted(rest, le) by {
        assert forall i :: 0 <= i < |rest| ==> rest[i] == s[i + 1];
      }
      FilterKeepsSorted(rest, p, le);
      if p(s[0]) {
        var f := Filter(rest, p);
        var r := [s[0]] + f;
        forall i, j | 0 <= i < j < |r|
          ensures le(r[i], r[j])
        {
          if i == 0 {
            FilterMembers(rest, p, f[j - 1]);
            assert r[j] == f[j - 1] && f[j - 1] in rest;
            var k :| 0 <= k < |rest| && rest[k] == f[j - 1];
            assert s[k + 1] == r[j];
          } else {
            assert r[i] == f[i - 1] && r[j] == f[j - 1];
          }
        }
      }
    }
  }

  predicate Distinct<T(==)>(s: seq<T>) {
    forall i, j :: 0 <= i < j < |s| ==> s[i] != s[j]
  }

  lemma AppendKeepsDistinct<T>(s: seq<T>, x: T)
    requires Distinct(s) && x !in s
    ensures Distinct(s + [x])
    ensures forall y :: y in s + [x] <==> y in s || y == x
  {
    var r := s + [x];
    forall i, j | 0 <= i < j < |r|
      ensures r[i] != r[j]
    {
      assert r[i] == s[i];
      if j == |s| {
        assert r[j] == x;
      } else {
        assert r[j] == s[j];
      }
    }
  }

  /** Sorting keeps exactly the same elements. */
  lemma SortByMembers<T>(s: seq<T>, le: (T, T) -> bool, x: T)
    ensures x in SortBy(s, le) <==> x in s
  {
    var r := SortBy(s, le);
    assert x in r <==> x in multiset(r);
    assert x in s <==> x in multiset(s);
  }

  lemma InsertMembers<T>(x: T, s: seq<T>, le: (T, T) -> bool, y: T)
    ensures y in Insert(x, s, le) <==> y == x || y in s
  {
    var r := Insert(x, s, le);
    assert y in r <==> y in multiset(r);
    assert y in s <==> y in multiset(s);
  }

  lemma {:induction false} InsertKeepsDistinct<T>(x: T, s: seq<T>, le: (T, T) -> bool)
    requires Distinct(s) && x !in s
    ensures Distinct(Insert(x, s, le))
    decreases |s|
  {
    var r := Insert(x, s, le);
    if s == [] {
    } else if le(x, s[0]) {
      assert r == [x] + s;
      forall i, j | 0 <= i < j < |r|
        ensures r[i] != r[j]
      {
        assert r[j] == s[j - 1];
        if i > 0 {
          assert r[i] == s[i - 1];
        }
      }
    } else {
      var rest := s[1..];
      assert Distinct(rest) by {
        assert forall i :: 0 <= i < |rest| ==> rest[i] == s[i + 1];
      }
      assert s[0] !in rest by {
        assert forall i :: 0 <= i < |rest| ==> rest[i] == s[i + 1];
      }
      InsertKeepsDistinct(x, rest, le);
      var ins := Insert(x, rest, le);
      InsertMembers(x, rest, le, s[0]);
      assert r == [s[0]] + ins;
      forall i, j | 0 <= i < j < |r|
        ensures r[i] != r[j]
      {
        assert r[j] == ins[j - 1];
        if i > 0 {
          assert r[i] == ins[i - 1];
        }
      }
    }
  }

  /** Sorting a list without duplicates leaves none. */
  lemma {:induction false} SortKeepsDistinct<T>(s: seq<T>, le: (T, T) -> bool)
    requires Distinct(s)
    ensures Distinct(SortBy(s, le))
    decreases |s|
  {
    if s != [] {
      var rest := s[1..];
      assert Distinct(rest) && s[0] !in rest by {
        assert forall i :: 0 <= i < |rest| ==> rest[i] == s[i + 1];
      }
      SortKeepsDistinct(rest, le);
      SortByMembers(rest, le, s[0]);
      InsertKeepsDistinct(s[0], SortBy(rest, le), le);
    }
  }

  /** Filters by predicates that agree on every element are equal. */
  lemma {:induction false} FilterSame<T>(s: seq<T>, p: T -> bool, q: T -> bool)
    requires forall i :: 0 <= i < |s| ==> p(s[i]) == q(s[i])
    ensures Filter(s, p) == Filter(s, q)
    decreases |s|
  {
    if s != [] {
      assert forall i :: 0 <= i < |s[1..]| ==> s[1..][i] == s[i + 1];
      FilterSame(s[1..], p, q);
    }
  }
}
