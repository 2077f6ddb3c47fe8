/** Sums over sequences and maps, and their independence of order. */
module Sums {

  /** The sum of `f` over the elements of `s`. */
  function SumBy<T>(f: T -> int, s: seq<T>): int {
    if s == [] then 0 else SumBy(f, s[..|s| - 1]) + f(s[|s| - 1])
  }

  lemma SumByAppend<T>(f: T -> int, s: seq<T>, x: T)
    ensures SumBy(f, s + [x]) == SumBy(f, s) + f(x)
  {
    assert (s + [x])[..|s|] == s;
  }

  lemma {:induction false} SumByConcat<T>(f: T -> int, s: seq<T>, t: seq<T>)
    ensures SumBy(f, s + t) == SumBy(f, s) + SumBy(f, t)
  {
    if t == [] {
      assert s + t == s;
    } else {
      var n := |t| - 1;
      SumByConcat(f, s, t[..n]);
      assert s + t == (s + t[..n]) + [t[n]];
      SumByAppend(f, s + t[..n], t[n]);
    }
  }

  /** A sum does not depend on the order of the summands. */
  lemma {:induction false} SumByPermutation<T>(f: T -> int, s: seq<T>, t: seq<T>)
    requires multiset(s) == multiset(t)
    ensures SumBy(f, s) == SumBy(f, t)
    decreases |s|
  {
    if s == [] {
      assert |multiset(t)| == 0;
    } else {
      var n := |s| - 1;
      assert s == s[..n] + [s[n]];
      assert s[n] in multiset(t);
      var i :| 0 <= i < |t| && t[i] == s[n];
      var rest := t[..i] + t[i + 1..];
      assert t == t[..i] + ([t[i]] + t[i + 1..]);
      assert multiset(s[..n]) == multiset(s) - multiset{s[n]};
      assert multiset(rest) == multiset(t) - multiset{s[n]};
      SumByPermutation(f, s[..n], rest);
      SumByConcat(f, t[..i], t[i + 1..]);
      SumByConcat(f, t[..i], [t[i]] + t[i + 1..]);
      SumByConcat(f, [t[i]], t[i + 1..]);
      SumByAppend(f, [], t[i]);
      assert [] + [t[i]] == [t[i]];
    }
  }

  /** Equal summands give equal sums, whichever functions compute them. */
  lemma {:induction false} SumByAgree<T>(f: T -> int, g: T -> int, s: seq<T>)
    requires forall x | x in s :: f(x) == g(x)
    ensures SumBy(f, s) == SumBy(g, s)
  {
    if s != [] {
      SumByAgree(f, g, s[..|s| - 1]);
    }
  }

  lemma {:induction false} SumByZero<T>(f: T -> int, s: seq<T>)
    requires forall x | x in s :: f(x) == 0
    ensures SumBy(f, s) == 0
  {
    if s != [] {
      SumByZero(f, s[..|s| - 1]);
    }
  }

  /** Termwise addition. */
  lemma {:induction false} SumByAdd<T>(f: T -> int, g: T -> int, h: T -> int, s: seq<T>)
    requires forall x | x in s :: h(x) == f(x) + g(x)
    ensures SumBy(h, s) == SumBy(f, s) + SumBy(g, s)
  {
    if s != [] {
      SumByAdd(f, g, h, s[..|s| - 1]);
    }
  }

  function Identity(): int -> int { x => x }

  function Sum(s: seq<int>): int { SumBy(Identity(), s) }

  // ---------- maps ----------

  function Get<K>(m: map<K, int>, k: K): int { if k in m then m[k] else 0 }

  /** The sum of all values of a finite map, in whatever order they are visited. */
  ghost function MapSum<K>(m: map<K, int>): int
    decreases |m|
  {
    if m == map[] then 0
    else
      var k :| k in m;
      assert |m - {k}| < |m| by { assert m.Keys == (m - {k}).Keys + {k}; }
      m[k] + MapSum(m - {k})
  }

  lemma {:induction false} MapSumRemove<K>(m: map<K, int>, k: K)
    requires k in m
    ensures MapSum(m) == m[k] + MapSum(m - {k})
    decreases |m|
  {
    var j :| j in m && MapSum(m) == m[j] + MapSum(m - {j});
    if j != k {
      assert m.Keys == (m - {j}).Keys + {j};
      assert m.Keys == (m - {k}).Keys + {k};
      MapSumRemove(m - {j}, k);
      MapSumRemove(m - {k}, j);
      assert (m - {j}) - {k} == (m - {k}) - {j};
    }
  }

  /** Writing one key changes the sum by the difference at that key. */
  lemma MapSumUpdate<K>(m: map<K, int>, k: K, v: int)
    ensures MapSum(m[k := v]) == MapSum(m) - Get(m, k) + v
  {
    var m' := m[k := v];
    MapSumRemove(m', k);
    if k in m {
      MapSumRemove(m, k);
      assert m' - {k} == m - {k};
    } else {
      assert m' - {k} == m;
    }
  }

  predicate NoDuplicates<T(==)>(s: seq<T>) {
    forall i, j | 0 <= i < j < |s| :: s[i] != s[j]
  }

  lemma {:induction false} CountInList<T>(list: seq<T>, x: T)
    requires NoDuplicates(list)
    ensures multiset(list)[x] == if x in list then 1 else 0
  {
    if list != [] {
      var n := |list| - 1;
      assert list == list[..n] + [list[n]];
      CountInList(list[..n], x);
    }
  }

  /** Visiting every nonzero key once gives the sum of the map. */
  lemma {:induction false} MapSumBySequence<K>(m: map<K, int>, keys: seq<K>, f: K -> int)
    requires NoDuplicates(keys)
    requires forall k | k in m && m[k] != 0 :: k in keys
    requires forall k | k in keys :: f(k) == Get(m, k)
    ensures SumBy(f, keys) == MapSum(m)
    decreases |keys|
  {
    if keys == [] {
      MapSumZero(m);
    } else {
      var n := |keys| - 1;
      var m' := m - {keys[n]};
      assert keys == keys[..n] + [keys[n]];
      MapSumBySequence(m', keys[..n], f);
      if keys[n] in m {
        MapSumRemove(m, keys[n]);
      } else {
        assert m' == m;
      }
    }
  }

  lemma {:induction false} MapSumNonnegative<K>(m: map<K, int>)
    requires forall k | k in m :: m[k] >= 0
    ensures MapSum(m) >= 0
    decreases |m|
  {
    if m != map[] {
      var k :| k in m;
      MapSumRemove(m, k);
      assert m.Keys == (m - {k}).Keys + {k};
      MapSumNonnegative(m - {k});
    }
  }

  /** Visiting some keys once gives at most the sum of a nonnegative map. */
  lemma {:induction false} MapSumPart<K>(m: map<K, int>, keys: seq<K>, f: K -> int)
    requires NoDuplicates(keys) && forall k | k in m :: m[k] >= 0
    requires forall k | k in keys :: f(k) == Get(m, k)
    ensures 0 <= SumBy(f, keys) <= MapSum(m)
    decreases |keys|
  {
    if keys == [] {
      MapSumNonnegative(m);
    } else {
      var n := |keys| - 1;
      var m' := m - {keys[n]};
      assert keys == keys[..n] + [keys[n]];
      MapSumPart(m', keys[..n], f);
      if keys[n] in m {
        MapSumRemove(m, keys[n]);
      } else {
        assert m' == m;
      }
    }
  }

  lemma {:induction false} MapSumZero<K>(m: map<K, int>)
    requires forall k | k in m :: m[k] == 0
    ensures MapSum(m) == 0
    decreases |m|
  {
    if m != map[] {
      var k :| k in m;
      MapSumRemove(m, k);
      assert m.Keys == (m - {k}).Keys + {k};
      MapSumZero(m - {k});
    }
  }
}
