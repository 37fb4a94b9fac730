/** A JavaScript `Map` (or a plain object used as one): keys in first-insertion
    order, each with one value. `set` on a present key replaces the value in
    place; on a new key it appends. */
module AssocLists {
  import opened Wrappers
  import opened Seqs

  datatype Entry<K, V> = Entry(key: K, value: V)

  function Keys<K, V>(m: seq<Entry<K, V>>): (r: seq<K>)
    ensures |r| == |m|
    ensures forall i :: 0 <= i < |m| ==> r[i] == m[i].key
  {
    seq(|m|, i requires 0 <= i < |m| => m[i].key)
  }

  predicate DistinctKeys<K(==), V>(m: seq<Entry<K, V>>) {
    forall i, j :: 0 <= i < j < |m| ==> m[i].key != m[j].key
  }

  /** `map.get(k)`. */
  function Get<K(==), V>(m: seq<Entry<K, V>>, k: K): (r: Option<V>)
    ensures r.None? <==> k !in Keys(m)
    ensures r.Some? ==> exists i :: 0 <= i < |m| && m[i] == Entry(k, r.value)
    decreases |m|
  {
    if m == [] then None
    else if m[0].key == k then Some(m[0].value)
    else
      var r := Get(m[1..], k);
      assert Keys(m) == [m[0].key] + Keys(m[1..]);
      r
  }

  /** `map.set(k, v)`. */
  function Put<K(==), V>(m: seq<Entry<K, V>>, k: K, v: V): (r: seq<Entry<K, V>>)
    ensures k in Keys(m) ==> Keys(r) == Keys(m)
    ensures k !in Keys(m) ==> Keys(r) == Keys(m) + [k]
    decreases |m|
  {
    if m == [] then [Entry(k, v)]
    else if m[0].key == k then [Entry(k, v)] + m[1..]
    else
      assert Keys(m) == [m[0].key] + Keys(m[1..]);
      var r := [m[0]] + Put(m[1..], k, v);
      assert Keys(r) == [m[0].key] + Keys(Put(m[1..], k, v));
      r
  }

  lemma {:induction false} PutGet<K, V>(m: seq<Entry<K, V>>, k: K, v: V, k2: K)
    requires DistinctKeys(m)
    ensures Get(Put(m, k, v), k2) == if k2 == k then Some(v) else Get(m, k2)
    decreases |m|
  {
    if m != [] && m[0].key != k {
      DistinctTail(m);
      PutGet(m[1..], k, v, k2);
    } else if m != [] && k2 != k {
      var r := Put(m, k, v);
      assert r[1..] == m[1..];
    }
  }

  lemma PutDistinct<K, V>(m: seq<Entry<K, V>>, k: K, v: V)
    requires DistinctKeys(m)
    ensures DistinctKeys(Put(m, k, v))
  {
    var r := Put(m, k, v);
    var km, kr := Keys(m), Keys(r);
    forall i, j | 0 <= i < j < |r|
      ensures r[i].key != r[j].key
    {
      assert r[i].key == kr[i] && r[j].key == kr[j];
      if k !in km && j == |m| {
        assert kr[i] == km[i];
      } else {
        assert kr[i] == km[i] && kr[j] == km[j];
      }
    }
  }

  /** `map.set(k, (map.get(k) || 0) + x)`: the accumulation the source uses
      for per-bucket sums, written entry by entry (`AddToIsSet` ties it to
      `Put` and `Get`). */
  function AddTo<K(==)>(m: seq<Entry<K, real>>, k: K, x: real): (r: seq<Entry<K, real>>)
    ensures k in Keys(m) ==> Keys(r) == Keys(m)
    ensures k !in Keys(m) ==> Keys(r) == Keys(m) + [k]
    decreases |m|
  {
    if m == [] then [Entry(k, x)]
    else if m[0].key == k then [Entry(k, m[0].value + x)] + m[1..]
    else
      assert Keys(m) == [m[0].key] + Keys(m[1..]);
      var r := [m[0]] + AddTo(m[1..], k, x);
      assert Keys(r) == [m[0].key] + Keys(AddTo(m[1..], k, x));
      r
  }

  /** `AddTo` is `set` of the old value, or 0, plus `x`. */
  lemma {:induction false} AddToIsSet<K>(m: seq<Entry<K, real>>, k: K, x: real, v: real)
    requires v == Get(m, k).GetOr(0.0) + x
    ensures AddTo(m, k, x) == Put(m, k, v)
    decreases |m|
  {
    if m != [] && m[0].key != k {
      AddToIsSet(m[1..], k, x, v);
    }
  }

  function SumValues<K>(m: seq<Entry<K, real>>): real
    decreases |m|
  {
    if m == [] then 0.0 else m[0].value + SumValues(m[1..])
  }

  lemma DistinctTail<K, V>(m: seq<Entry<K, V>>)
    requires m != [] && DistinctKeys(m)
    ensures DistinctKeys(m[1..])
    ensures m[0].key !in Keys(m[1..])
  {
    var t := m[1..];
    assert forall i :: 0 <= i < |t| ==> t[i] == m[i + 1];
  }

  /** Setting a bucket changes the grand total by the difference. */
  lemma {:induction false} PutSum<K>(m: seq<Entry<K, real>>, k: K, v: real)
    requires DistinctKeys(m)
    ensures SumValues(Put(m, k, v)) == SumValues(m) - Get(m, k).GetOr(0.0) + v
    decreases |m|
  {
    if m != [] {
      var r := Put(m, k, v);
      if m[0].key == k {
        assert r[0].value == v && r[1..] == m[1..];
      } else {
        DistinctTail(m);
        PutSum(m[1..], k, v);
        assert r[0] == m[0] && r[1..] == Put(m[1..], k, v);
      }
    }
  }

  /** Accumulating `x` into any bucket adds exactly `x` to the grand total. */
  lemma AddToSum<K>(m: seq<Entry<K, real>>, k: K, x: real)
    requires DistinctKeys(m)
    ensures SumValues(AddTo(m, k, x)) == SumValues(m) + x
  {
    var v := Get(m, k).GetOr(0.0) + x;
    AddToIsSet(m, k, x, v);
    PutSum(m, k, v);
  }

  lemma AddToDistinct<K>(m: seq<Entry<K, real>>, k: K, x: real)
    requires DistinctKeys(m)
    ensures DistinctKeys(AddTo(m, k, x))
  {
    var v := Get(m, k).GetOr(0.0) + x;
    AddToIsSet(m, k, x, v);
    PutDistinct(m, k, v);
  }

  lemma OptionOfValue(o: Option<real>, present: bool, v: real)
    requires o.Some? <==> present
    requires o.GetOr(0.0) == v
    ensures o == if present then Some(v) else None
  {
  }

  /** `set(k, v)` then `get(k)` gives `v`, whatever else the map holds. */
  lemma {:induction false} PutGetSame<K, V>(m: seq<Entry<K, V>>, k: K, v: V)
    ensures Get(Put(m, k, v), k) == Some(v)
    decreases |m|
  {
    if m != [] && m[0].key != k {
      PutGetSame(m[1..], k, v);
      var r := Put(m, k, v);
      assert r[0] == m[0] && r[1..] == Put(m[1..], k, v);
    }
  }

  /** Accumulating adds its key to the map's keys and no other. */
  lemma AddToKeys<K>(m: seq<Entry<K, real>>, k: K, x: real, k2: K)
    ensures k2 in Keys(AddTo(m, k, x)) <==> k2 in Keys(m) || k2 == k
  {
    var r := AddTo(m, k, x);
    if k !in Keys(m) {
      assert Keys(r) == Keys(m) + [k];
    }
  }

  /** The value accumulated under `k`: the old value, or 0, plus `x`. */
  lemma AddToGetSame<K>(m: seq<Entry<K, real>>, k: K, x: real, v: real)
    requires v == Get(m, k).GetOr(0.0) + x
    ensures Get(AddTo(m, k, x), k) == Some(v)
  {
    AddToIsSet(m, k, x, v);
    PutGetSame(m, k, v);
  }

  /** Accumulating under `k` leaves every other key's value as it was. */
  lemma {:induction false} AddToGetOther<K>(m: seq<Entry<K, real>>, k: K, x: real, k2: K)
    requires k2 != k
    ensures Get(AddTo(m, k, x), k2) == Get(m, k2)
    decreases |m|
  {
    if m != [] {
      var r := AddTo(m, k, x);
      if m[0].key == k {
        assert r[1..] == m[1..];
      } else {
        AddToGetOther(m[1..], k, x, k2);
        assert r[0] == m[0] && r[1..] == AddTo(m[1..], k, x);
      }
    }
  }

  // ---------------------------------------------------------------------
  // `Array.from(map.entries()).sort(...)`

  /** Two lists with the same entries have the same keys. */
  lemma KeysOfPermutation<K, V>(r: seq<Entry<K, V>>, s: seq<Entry<K, V>>, k: K)
    requires multiset(r) == multiset(s)
    ensures k in Keys(r) <==> k in Keys(s)
  {
    if k in Keys(r) {
      var i :| 0 <= i < |r| && Keys(r)[i] == k;
      assert r[i] in multiset(s);
      var j :| 0 <= j < |s| && s[j] == r[i];
      assert Keys(s)[j] == k;
    }
    if k in Keys(s) {
      var i :| 0 <= i < |s| && Keys(s)[i] == k;
      assert s[i] in multiset(r);
      var j :| 0 <= j < |r| && r[j] == s[i];
      assert Keys(r)[j] == k;
    }
  }

  /** With distinct keys, `get` of a stored key finds its own entry. */
  lemma {:induction false} GetAt<K, V>(m: seq<Entry<K, V>>, i: nat)
    requires DistinctKeys(m) && i < |m|
    ensures Get(m, m[i].key) == Some(m[i].value)
    decreases |m|
  {
    if i > 0 {
      DistinctTail(m);
      assert m[1..][i - 1] == m[i];
      GetAt(m[1..], i - 1);
    }
  }

  /** Two orderings of the same distinct-key entries answer every `get` alike. */
  lemma GetOfPermutation<K, V>(r: seq<Entry<K, V>>, s: seq<Entry<K, V>>, k: K)
    requires multiset(r) == multiset(s) && DistinctKeys(r) && DistinctKeys(s)
    ensures Get(r, k) == Get(s, k)
  {
    if Get(s, k).Some? {
      var i :| 0 <= i < |s| && s[i] == Entry(k, Get(s, k).value);
      assert s[i] in multiset(r);
      var j :| 0 <= j < |r| && r[j] == s[i];
      GetAt(s, i);
      GetAt(r, j);
    } else {
      KeysOfPermutation(r, s, k);
    }
  }

  /** Sorting distinct-key entries keeps every `get`. */
  lemma SortByGet<K, V>(m: seq<Entry<K, V>>, le: (Entry<K, V>, Entry<K, V>) -> bool, k: K)
    requires DistinctKeys(m)
    ensures Get(SortBy(m, le), k) == Get(m, k)
  {
    SortDistinct(m, le);
    GetOfPermutation(SortBy(m, le), m, k);
  }

  lemma {:induction false} InsertSum<K>(x: Entry<K, real>, s: seq<Entry<K, real>>, le: (Entry<K, real>, Entry<K, real>) -> bool)
    ensures SumValues(Insert(x, s, le)) == x.value + SumValues(s)
    decreases |s|
  {
    if s != [] && !le(x, s[0]) {
      InsertSum(x, s[1..], le);
      var r := Insert(x, s, le);
      assert r[0] == s[0] && r[1..] == Insert(x, s[1..], le);
    } else if s != [] {
      var r := Insert(x, s, le);
      assert r[0] == x && r[1..] == s;
    }
  }

  /** Sorting the entries keeps the grand total. */
  lemma {:induction false} SortSum<K>(s: seq<Entry<K, real>>, le: (Entry<K, real>, Entry<K, real>) -> bool)
    ensures SumValues(SortBy(s, le)) == SumValues(s)
    decreases |s|
  {
    if s != [] {
      SortSum(s[1..], le);
      InsertSum(s[0], SortBy(s[1..], le), le);
    }
  }

  lemma {:induction false} InsertDistinct<K, V>(x: Entry<K, V>, s: seq<Entry<K, V>>, le: (Entry<K, V>, Entry<K, V>) -> bool)
    requires DistinctKeys(s) && x.key !in Keys(s)
    ensures DistinctKeys(Insert(x, s, le))
    decreases |s|
  {
    var r := Insert(x, s, le);
    if s == [] {
    } else if le(x, s[0]) {
      assert r == [x] + s;
      forall i, j | 0 <= i < j < |r|
        ensures r[i].key != r[j].key
      {
        assert r[j] == s[j - 1] && Keys(s)[j - 1] == r[j].key;
        if i > 0 {
          assert r[i] == s[i - 1];
        }
      }
    } else {
      var rest := s[1..];
      DistinctTail(s);
      assert x.key !in Keys(rest) by {
        assert forall i :: 0 <= i < |rest| ==> Keys(rest)[i] == Keys(s)[i + 1];
      }
      InsertDistinct(x, rest, le);
      var ins := Insert(x, rest, le);
      assert s[0].key != x.key by {
        assert Keys(s)[0] == s[0].key;
      }
      KeysOfPermutation(ins, rest + [x], s[0].key);
      assert s[0].key !in Keys(rest + [x]) by {
        assert Keys(rest + [x]) == Keys(rest) + [x.key];
      }
      assert r == [s[0]] + ins;
      forall i, j | 0 <= i < j < |r|
        ensures r[i].key != r[j].key
      {
        assert r[j] == ins[j - 1] && Keys(ins)[j - 1] == r[j].key;
        if i > 0 {
          assert r[i] == ins[i - 1];
        }
      }
    }
  }

  /** Sorting the entries keeps each key once. */
  lemma {:induction false} SortDistinct<K, V>(s: seq<Entry<K, V>>, le: (Entry<K, V>, Entry<K, V>) -> bool)
    requires DistinctKeys(s)
    ensures DistinctKeys(SortBy(s, le))
    decreases |s|
  {
    if s != [] {
      DistinctTail(s);
      SortDistinct(s[1..], le);
      KeysOfPermutation(SortBy(s[1..], le), s[1..], s[0].key);
      InsertDistinct(s[0], SortBy(s[1..], le), le);
    }
  }

  // ---------------------------------------------------------------------
  // Accumulating loops: `xs.forEach(x => m.set(key(x), (m.get(key(x)) || 0) + val(x)))`

  function Accumulate<T, K(==)>(m: seq<Entry<K, real>>, xs: seq<T>, key: T -> K, val: T -> real): seq<Entry<K, real>>
    decreases |xs|
  {
    if xs == [] then m
    else
      var last := xs[|xs| - 1];
      AddTo(Accumulate(m, xs[..|xs| - 1], key, val), key(last), val(last))
  }

  predicate KeyOfSome<T, K(==)>(xs: seq<T>, key: T -> K, k: K) {
    exists i | 0 <= i < |xs| :: key(xs[i]) == k
  }

  lemma KeyOfSomeSnoc<T, K>(xs: seq<T>, key: T -> K, k: K)
    requires xs != []
    ensures KeyOfSome(xs, key, k) <==>
            KeyOfSome(xs[..|xs| - 1], key, k) || key(xs[|xs| - 1]) == k
  {
    var init := xs[..|xs| - 1];
    if KeyOfSome(xs, key, k) {
      var i :| 0 <= i < |xs| && key(xs[i]) == k;
      if i < |init| {
        assert init[i] == xs[i];
      }
    }
    if KeyOfSome(init, key, k) {
      var i :| 0 <= i < |init| && key(init[i]) == k;
      assert xs[i] == init[i];
    }
  }

  lemma {:induction false} AccumulateDistinct<T, K>(m: seq<Entry<K, real>>, xs: seq<T>, key: T -> K, val: T -> real)
    requires DistinctKeys(m)
    ensures DistinctKeys(Accumulate(m, xs, key, val))
    decreases |xs|
  {
    if xs != [] {
      var init, last := xs[..|xs| - 1], xs[|xs| - 1];
      AccumulateDistinct(m, init, key, val);
      AddToDistinct(Accumulate(m, init, key, val), key(last), val(last));
    }
  }

  lemma SumBySnoc<T>(xs: seq<T>, f: T -> real)
    requires xs != []
    ensures SumBy(xs, f) == SumBy(xs[..|xs| - 1], f) + f(xs[|xs| - 1])
  {
    var init, last := xs[..|xs| - 1], xs[|xs| - 1];
    assert xs == init + [last];
    SumByAppend(init, [last], f);
  }

  lemma {:induction false} AccumulateSum<T, K>(m: seq<Entry<K, real>>, xs: seq<T>, key: T -> K, val: T -> real)
    requires DistinctKeys(m)
    ensures SumValues(Accumulate(m, xs, key, val)) == SumValues(m) + SumBy(xs, val)
    decreases |xs|
  {
    if xs != [] {
      var init, last := xs[..|xs| - 1], xs[|xs| - 1];
      AccumulateSum(m, init, key, val);
      AccumulateDistinct(m, init, key, val);
      AddToSum(Accumulate(m, init, key, val), key(last), val(last));
      SumBySnoc(xs, val);
    }
  }

  lemma {:induction false} AccumulateKeys<T, K>(m: seq<Entry<K, real>>, xs: seq<T>, key: T -> K, val: T -> real, k: K)
    ensures k in Keys(Accumulate(m, xs, key, val)) <==> k in Keys(m) || KeyOfSome(xs, key, k)
    decreases |xs|
  {
    if xs != [] {
      var init, last := xs[..|xs| - 1], xs[|xs| - 1];
      AccumulateKeys(m, init, key, val, k);
      AddToKeys(Accumulate(m, init, key, val), key(last), val(last), k);
      KeyOfSomeSnoc(xs, key, k);
    }
  }

  /** Accumulating keeps each key once, adds the sum of the values to the
      total, has a bucket for exactly the keys met, and each bucket holds the
      sum of its own items. */
  lemma AccumulateFacts<T, K>(m: seq<Entry<K, real>>, xs: seq<T>, key: T -> K, val: T -> real, k: K)
    requires DistinctKeys(m)
    ensures DistinctKeys(Accumulate(m, xs, key, val))
    ensures SumValues(Accumulate(m, xs, key, val)) == SumValues(m) + SumBy(xs, val)
    ensures k in Keys(Accumulate(m, xs, key, val)) <==> k in Keys(m) || KeyOfSome(xs, key, k)
    ensures Get(Accumulate(m, xs, key, val), k) ==
            if k in Keys(m) || KeyOfSome(xs, key, k)
            then Some(Get(m, k).GetOr(0.0) + KeySum(xs, key, val, k))
            else None
  {
    AccumulateDistinct(m, xs, key, val);
    AccumulateSum(m, xs, key, val);
    AccumulateKeys(m, xs, key, val, k);
    AccumulateGet(m, xs, key, val, k);
  }

  /** The items filed under key `k`. */
  function KeyIs<T, K(==)>(key: T -> K, k: K): T -> bool {
    (x: T) => key(x) == k
  }

  /** The sum of the values of the items whose key is `k`. */
  function KeySum<T, K(==)>(xs: seq<T>, key: T -> K, val: T -> real, k: K): real {
    SumBy(Filter(xs, KeyIs(key, k)), val)
  }

  lemma KeySumSnoc<T, K>(xs: seq<T>, key: T -> K, val: T -> real, k: K)
    requires xs != []
    ensures KeySum(xs, key, val, k) ==
            KeySum(xs[..|xs| - 1], key, val, k) + (if key(xs[|xs| - 1]) == k then val(xs[|xs| - 1]) else 0.0)
  {
    var init, last, p := xs[..|xs| - 1], xs[|xs| - 1], KeyIs(key, k);
    assert xs == init + [last];
    FilterAppend(init, [last], p);
    assert Filter([last], p) == if p(last) then [last] else [] by {
      FilterCons(last, [], p);
    }
    SumByAppend(Filter(init, p), Filter([last], p), val);
  }

  /** After the loop, bucket `k` holds its starting value (or 0) plus the
      values of exactly the items filed under `k`. */
  lemma {:induction false} AccumulateValue<T, K>(m: seq<Entry<K, real>>, xs: seq<T>, key: T -> K, val: T -> real, k: K)
    ensures Get(Accumulate(m, xs, key, val), k).GetOr(0.0) == Get(m, k).GetOr(0.0) + KeySum(xs, key, val, k)
    decreases |xs|
  {
    if xs == [] {
      assert Filter(xs, KeyIs(key, k)) == [];
    } else {
      var init, last := xs[..|xs| - 1], xs[|xs| - 1];
      var a := Accumulate(m, init, key, val);
      AccumulateValue(m, init, key, val, k);
      KeySumSnoc(xs, key, val, k);
      if key(last) == k {
        AddToGetSame(a, k, val(last), Get(a, k).GetOr(0.0) + val(last));
      } else {
        AddToGetOther(a, key(last), val(last), k);
      }
    }
  }

  /** `map.get(k)` after the loop: the starting value (or 0) plus the sum
      for `k` when `k` was met or already present, and nothing otherwise. */
  lemma AccumulateGet<T, K>(m: seq<Entry<K, real>>, xs: seq<T>, key: T -> K, val: T -> real, k: K)
    ensures Get(Accumulate(m, xs, key, val), k) ==
            if k in Keys(m) || KeyOfSome(xs, key, k)
            then Some(Get(m, k).GetOr(0.0) + KeySum(xs, key, val, k))
            else None
  {
    var r := Accumulate(m, xs, key, val);
    AccumulateKeys(m, xs, key, val, k);
    AccumulateValue(m, xs, key, val, k);
    OptionOfValue(Get(r, k), k in Keys(r), Get(m, k).GetOr(0.0) + KeySum(xs, key, val, k));
  }

  /** A bucket of the map built from empty, then sorted. */
  lemma SortedAccumulateGet<T, K>(xs: seq<T>, key: T -> K, val: T -> real,
                                  le: (Entry<K, real>, Entry<K, real>) -> bool, k: K)
    ensures Get(SortBy(Accumulate([], xs, key, val), le), k) ==
            if KeyOfSome(xs, key, k) then Some(KeySum(xs, key, val, k)) else None
  {
    var e: seq<Entry<K, real>> := [];
    var a := Accumulate(e, xs, key, val);
    AccumulateDistinct(e, xs, key, val);
    AccumulateKeys(e, xs, key, val, k);
    AccumulateValue(e, xs, key, val, k);
    SortByGet(a, le, k);
    OptionOfValue(Get(SortBy(a, le), k), KeyOfSome(xs, key, k), KeySum(xs, key, val, k));
  }

  /** The same with an inner `forEach` over `inner(x)` for each `x`. */
  function AccumulateNested<T, U, K(==)>(m: seq<Entry<K, real>>, xs: seq<T>, inner: T -> seq<U>,
                                         key: U -> K, val: U -> real): seq<Entry<K, real>>
    decreases |xs|
  {
    if xs == [] then m
    else Accumulate(AccumulateNested(m, xs[..|xs| - 1], inner, key, val), inner(xs[|xs| - 1]), key, val)
  }

  /** The per-element total of the inner loop. */
  function InnerSum<T, U>(inner: T -> seq<U>, val: U -> real): T -> real {
    (x: T) => SumBy(inner(x), val)
  }

  predicate InnerKeyOfSome<T, U, K(==)>(xs: seq<T>, inner: T -> seq<U>, key: U -> K, k: K) {
    exists i | 0 <= i < |xs| :: KeyOfSome(inner(xs[i]), key, k)
  }

  lemma {:induction false} AccumulateNestedDistinct<T, U, K>(m: seq<Entry<K, real>>, xs: seq<T>, inner: T -> seq<U>,
                                                            key: U -> K, val: U -> real)
    requires DistinctKeys(m)
    ensures DistinctKeys(AccumulateNested(m, xs, inner, key, val))
    decreases |xs|
  {
    if xs != [] {
      var init := xs[..|xs| - 1];
      AccumulateNestedDistinct(m, init, inner, key, val);
      AccumulateDistinct(AccumulateNested(m, init, inner, key, val), inner(xs[|xs| - 1]), key, val);
    }
  }

  lemma {:induction false} AccumulateNestedSum<T, U, K>(m: seq<Entry<K, real>>, xs: seq<T>, inner: T -> seq<U>,
                                                       key: U -> K, val: U -> real)
    requires DistinctKeys(m)
    ensures SumValues(AccumulateNested(m, xs, inner, key, val)) ==
            SumValues(m) + SumBy(xs, InnerSum(inner, val))
    decreases |xs|
  {
    if xs != [] {
      var init := xs[..|xs| - 1];
      AccumulateNestedSum(m, init, inner, key, val);
      AccumulateNestedDistinct(m, init, inner, key, val);
      AccumulateSum(AccumulateNested(m, init, inner, key, val), inner(xs[|xs| - 1]), key, val);
      SumBySnoc(xs, InnerSum(inner, val));
    }
  }

  lemma InnerKeyOfSomeSnoc<T, U, K>(xs: seq<T>, inner: T -> seq<U>, key: U -> K, k: K)
    requires xs != []
    ensures InnerKeyOfSome(xs, inner, key, k) <==>
            InnerKeyOfSome(xs[..|xs| - 1], inner, key, k) || KeyOfSome(inner(xs[|xs| - 1]), key, k)
  {
    var init := xs[..|xs| - 1];
    if InnerKeyOfSome(xs, inner, key, k) {
      var i :| 0 <= i < |xs| && KeyOfSome(inner(xs[i]), key, k);
      if i < |init| {
        assert init[i] == xs[i];
      }
    }
    if InnerKeyOfSome(init, inner, key, k) {
      var i :| 0 <= i < |init| && KeyOfSome(inner(init[i]), key, k);
      assert xs[i] == init[i];
    }
  }

  lemma {:induction false} AccumulateNestedKeys<T, U, K>(m: seq<Entry<K, real>>, xs: seq<T>, inner: T -> seq<U>,
                                                        key: U -> K, val: U -> real, k: K)
    ensures k in Keys(AccumulateNested(m, xs, inner, key, val)) <==> k in Keys(m) || InnerKeyOfSome(xs, inner, key, k)
    decreases |xs|
  {
    if xs != [] {
      var init := xs[..|xs| - 1];
      AccumulateNestedKeys(m, init, inner, key, val, k);
      AccumulateKeys(AccumulateNested(m, init, inner, key, val), inner(xs[|xs| - 1]), key, val, k);
      InnerKeyOfSomeSnoc(xs, inner, key, k);
    }
  }

  /** The per-element sum of the inner items filed under `k`. */
  function InnerKeySum<T, U, K(==)>(inner: T -> seq<U>, key: U -> K, val: U -> real, k: K): T -> real {
    (x: T) => KeySum(inner(x), key, val, k)
  }

  lemma {:induction false} AccumulateNestedValue<T, U, K>(m: seq<Entry<K, real>>, xs: seq<T>, inner: T -> seq<U>,
                                                         key: U -> K, val: U -> real, k: K)
    ensures Get(AccumulateNested(m, xs, inner, key, val), k).GetOr(0.0) ==
            Get(m, k).GetOr(0.0) + SumBy(xs, InnerKeySum(inner, key, val, k))
    decreases |xs|
  {
    if xs != [] {
      var init := xs[..|xs| - 1];
      AccumulateNestedValue(m, init, inner, key, val, k);
      AccumulateValue(AccumulateNested(m, init, inner, key, val), inner(xs[|xs| - 1]), key, val, k);
      SumBySnoc(xs, InnerKeySum(inner, key, val, k));
    }
  }

  /** `map.get(k)` after the nested loops: the sum, over the outer items, of
      their inner items filed under `k`, when `k` was met or already present. */
  lemma AccumulateNestedGet<T, U, K>(m: seq<Entry<K, real>>, xs: seq<T>, inner: T -> seq<U>,
                                     key: U -> K, val: U -> real, k: K)
    ensures Get(AccumulateNested(m, xs, inner, key, val), k) ==
            if k in Keys(m) || InnerKeyOfSome(xs, inner, key, k)
            then Some(Get(m, k).GetOr(0.0) + SumBy(xs, InnerKeySum(inner, key, val, k)))
            else None
  {
    var r := AccumulateNested(m, xs, inner, key, val);
    AccumulateNestedKeys(m, xs, inner, key, val, k);
    AccumulateNestedValue(m, xs, inner, key, val, k);
    OptionOfValue(Get(r, k), k in Keys(r), Get(m, k).GetOr(0.0) + SumBy(xs, InnerKeySum(inner, key, val, k)));
  }

  /** A bucket of the nested map built from empty. */
  lemma AccumulateNestedEmptyGet<T, U, K>(xs: seq<T>, inner: T -> seq<U>, key: U -> K, val: U -> real, k: K)
    ensures Get(AccumulateNested([], xs, inner, key, val), k) ==
            if InnerKeyOfSome(xs, inner, key, k) then Some(SumBy(xs, InnerKeySum(inner, key, val, k))) else None
  {
    var e: seq<Entry<K, real>> := [];
    var a := AccumulateNested(e, xs, inner, key, val);
    AccumulateNestedKeys(e, xs, inner, key, val, k);
    AccumulateNestedValue(e, xs, inner, key, val, k);
    OptionOfValue(Get(a, k), InnerKeyOfSome(xs, inner, key, k), SumBy(xs, InnerKeySum(inner, key, val, k)));
  }

  /** A bucket of the nested map built from empty, then sorted. */
  lemma SortedAccumulateNestedGet<T, U, K>(xs: seq<T>, inner: T -> seq<U>, key: U -> K, val: U -> real,
                                           le: (Entry<K, real>, Entry<K, real>) -> bool, k: K)
    ensures Get(SortBy(AccumulateNested([], xs, inner, key, val), le), k) ==
            if InnerKeyOfSome(xs, inner, key, k) then Some(SumBy(xs, InnerKeySum(inner, key, val, k))) else None
  {
    var e: seq<Entry<K, real>> := [];
    var a := AccumulateNested(e, xs, inner, key, val);
    AccumulateNestedDistinct(e, xs, inner, key, val);
    AccumulateNestedKeys(e, xs, inner, key, val, k);
    AccumulateNestedValue(e, xs, inner, key, val, k);
    SortByGet(a, le, k);
    OptionOfValue(Get(SortBy(a, le), k), InnerKeyOfSome(xs, inner, key, k), SumBy(xs, InnerKeySum(inner, key, val, k)));
  }

  lemma AccumulateNestedFacts<T, U, K>(m: seq<Entry<K, real>>, xs: seq<T>, inner: T -> seq<U>,
                                       key: U -> K, val: U -> real, k: K)
    requires DistinctKeys(m)
    ensures DistinctKeys(AccumulateNested(m, xs, inner, key, val))
    ensures SumValues(AccumulateNested(m, xs, inner, key, val)) ==
            SumValues(m) + SumBy(xs, InnerSum(inner, val))
    ensures k in Keys(AccumulateNested(m, xs, inner, key, val)) <==> k in Keys(m) || InnerKeyOfSome(xs, inner, key, k)
    ensures Get(AccumulateNested(m, xs, inner, key, val), k) ==
            if k in Keys(m) || InnerKeyOfSome(xs, inner, key, k)
            then Some(Get(m, k).GetOr(0.0) + SumBy(xs, InnerKeySum(inner, key, val, k)))
            else None
  {
    AccumulateNestedDistinct(m, xs, inner, key, val);
    AccumulateNestedSum(m, xs, inner, key, val);
    AccumulateNestedKeys(m, xs, inner, key, val, k);
    AccumulateNestedGet(m, xs, inner, key, val, k);
  }
}
