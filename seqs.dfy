/** Sequence operations shared by the models: an order-preserving filter
    (Python list comprehensions with a condition, JavaScript's
    `Array.prototype.filter`), first-occurrence deduplication
    (`Array.from(new Set(xs))`) and sums grouped by a key (SQL `GROUP BY`). */
module Seqs {

  // ---------------------------------------------------------------------
  // Filter
  // ---------------------------------------------------------------------

  function Filter<T(!new)>(s: seq<T>, p: T -> bool): (r: seq<T>)
    ensures |r| <= |s|
    ensures forall x :: x in r <==> x in s && p(x)
    ensures forall i :: 0 <= i < |r| ==> p(r[i])
  {
    if s == [] then []
    else (if p(s[0]) then [s[0]] else []) + Filter(s[1..], p)
  }

  /** `r` is `s` with some elements left out and the rest kept in order. */
  ghost predicate IsSubsequence<T>(r: seq<T>, s: seq<T>)
    decreases |s|
  {
    if r == [] then true
    else if s == [] then false
    else (r[0] == s[0] && IsSubsequence(r[1..], s[1..])) || IsSubsequence(r, s[1..])
  }

  lemma {:induction false} FilterIsSubsequence<T(!new)>(s: seq<T>, p: T -> bool)
    ensures IsSubsequence(Filter(s, p), s)
    decreases |s|
  {
    if s != [] {
      FilterIsSubsequence(s[1..], p);
      var r := Filter(s, p);
      if p(s[0]) {
        assert r == [s[0]] + Filter(s[1..], p);
        assert r[0] == s[0] && r[1..] == Filter(s[1..], p);
      } else {
        assert r == Filter(s[1..], p);
      }
    }
  }

  /** A filter that keeps everything is the identity. */
  lemma {:induction false} FilterKeepsAll<T(!new)>(s: seq<T>, p: T -> bool)
    requires forall x :: x in s ==> p(x)
    ensures Filter(s, p) == s
    decreases |s|
  {
    if s != [] {
      FilterKeepsAll(s[1..], p);
      assert s == [s[0]] + s[1..];
    }
  }

  /** Filtering twice is filtering once with both conditions. */
  lemma {:induction false} FilterCompose<T(!new)>(s: seq<T>, p: T -> bool, q: T -> bool, pq: T -> bool)
    requires forall x :: pq(x) == (p(x) && q(x))
    ensures Filter(Filter(s, p), q) == Filter(s, pq)
    decreases |s|
  {
    if s != [] {
      FilterCompose(s[1..], p, q, pq);
      var head := if p(s[0]) then [s[0]] else [];
      assert Filter(s, p) == head + Filter(s[1..], p);
      FilterAppend(head, Filter(s[1..], p), q);
    }
  }

  lemma {:induction false} FilterAppend<T(!new)>(a: seq<T>, b: seq<T>, p: T -> bool)
    ensures Filter(a + b, p) == Filter(a, p) + Filter(b, p)
    decreases |a|
  {
    if a == [] {
      assert a + b == b;
    } else {
      assert (a + b)[0] == a[0] && (a + b)[1..] == a[1..] + b;
      var head := if p(a[0]) then [a[0]] else [];
      calc {
        Filter(a + b, p);
        head + Filter(a[1..] + b, p);
        { FilterAppend(a[1..], b, p); }
        head + (Filter(a[1..], p) + Filter(b, p));
        (head + Filter(a[1..], p)) + Filter(b, p);
        Filter(a, p) + Filter(b, p);
      }
    }
  }

  /** A filter that keeps nothing gives the empty sequence. */
  lemma {:induction false} FilterNone<T(!new)>(s: seq<T>, p: T -> bool)
    requires forall x :: x in s ==> !p(x)
    ensures Filter(s, p) == []
    decreases |s|
  {
    if s != [] {
      FilterNone(s[1..], p);
    }
  }

  /** Filters with conditions that agree everywhere agree. */
  lemma {:induction false} FilterExtensional<T(!new)>(s: seq<T>, p: T -> bool, q: T -> bool)
    requires forall x :: p(x) == q(x)
    ensures Filter(s, p) == Filter(s, q)
    decreases |s|
  {
    if s != [] {
      FilterExtensional(s[1..], p, q);
    }
  }

  function Min(a: int, b: int): int { if a <= b then a else b }

  /** Number of elements of `s` satisfying `p`. */
  function Count<T(!new)>(s: seq<T>, p: T -> bool): (n: nat)
    ensures n <= |s|
  {
    |Filter(s, p)|
  }

  // ---------------------------------------------------------------------
  // Distinct elements in first-occurrence order
  // ---------------------------------------------------------------------

  predicate Distinct<T(==)>(s: seq<T>)
  {
    forall i, j :: 0 <= i < j < |s| ==> s[i] != s[j]
  }

  /** `Array.from(new Set(s))`: the distinct elements of `s`, each at the
      place of its first occurrence. */
  function Dedupe<T(==,!new)>(s: seq<T>): (r: seq<T>)
    ensures Distinct(r)
    ensures forall x :: x in r <==> x in s
    ensures |r| <= |s|
  {
    if s == [] then []
    else
      var d := Dedupe(s[..|s| - 1]);
      assert forall x :: x in s <==> x in s[..|s| - 1] || x == s[|s| - 1];
      if s[|s| - 1] in d then d else d + [s[|s| - 1]]
  }

  // ---------------------------------------------------------------------
  // Sums grouped by a key
  // ---------------------------------------------------------------------

  /** The sum of `w` over `s`, added up from the left. */
  function SumOf<T>(s: seq<T>, w: T -> int): int
  {
    if s == [] then 0 else SumOf(s[..|s| - 1], w) + w(s[|s| - 1])
  }

  /** `SUM(w) ... WHERE key = k`. */
  function SumWhere<T, K(==)>(s: seq<T>, key: T -> K, k: K, w: T -> int): int
  {
    if s == [] then 0
    else SumWhere(s[..|s| - 1], key, k, w) + (if key(s[|s| - 1]) == k then w(s[|s| - 1]) else 0)
  }

  /** The group sums of the keys in `keys`, added up. */
  function SumOverKeys<T, K(==)>(keys: seq<K>, s: seq<T>, key: T -> K, w: T -> int): int
  {
    if keys == [] then 0
    else SumOverKeys(keys[..|keys| - 1], s, key, w) + SumWhere(s, key, keys[|keys| - 1], w)
  }

  /** Over distinct keys, a single element's contribution is counted once if
      its key is among them and not at all otherwise. */
  function Indicator<K(==)>(keys: seq<K>, k: K, v: int): int
  {
    if keys == [] then 0
    else Indicator(keys[..|keys| - 1], k, v) + (if keys[|keys| - 1] == k then v else 0)
  }

  lemma {:induction false} IndicatorValue<K>(keys: seq<K>, k: K, v: int)
    requires Distinct(keys)
    ensures Indicator(keys, k, v) == if k in keys then v else 0
  {
    if keys != [] {
      var p := keys[..|keys| - 1];
      assert Distinct(p);
      IndicatorValue(p, k, v);
      assert k in keys <==> k in p || k == keys[|keys| - 1];
      assert keys[|keys| - 1] !in p;
    }
  }

  lemma {:induction false} SumOverKeysEmpty<T, K>(keys: seq<K>, key: T -> K, w: T -> int)
    ensures SumOverKeys(keys, [], key, w) == 0
  {
    if keys != [] {
      SumOverKeysEmpty(keys[..|keys| - 1], key, w);
    }
  }

  lemma {:induction false} SumOverKeysSnoc<T, K>(keys: seq<K>, s: seq<T>, x: T, key: T -> K, w: T -> int)
    ensures SumOverKeys(keys, s + [x], key, w) == SumOverKeys(keys, s, key, w) + Indicator(keys, key(x), w(x))
  {
    assert (s + [x])[..|s|] == s;
    if keys != [] {
      SumOverKeysSnoc(keys[..|keys| - 1], s, x, key, w);
    }
  }

  /** Grouping preserves the grand total: when `keys` lists every key that
      occurs, once each, the group sums add up to the sum over everything. */
  lemma {:induction false} GroupSumsAddUp<T, K>(keys: seq<K>, s: seq<T>, key: T -> K, w: T -> int)
    requires Distinct(keys)
    requires forall x :: x in s ==> key(x) in keys
    ensures SumOverKeys(keys, s, key, w) == SumOf(s, w)
  {
    if s == [] {
      SumOverKeysEmpty(keys, key, w);
    } else {
      var p, x := s[..|s| - 1], s[|s| - 1];
      assert s == p + [x];
      GroupSumsAddUp(keys, p, key, w);
      SumOverKeysSnoc(keys, p, x, key, w);
      IndicatorValue(keys, key(x), w(x));
    }
  }
}
