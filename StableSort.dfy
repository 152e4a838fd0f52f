/**
 * Python's `list.sort(key=..., reverse=...)` and `sorted(...)`: a stable
 * sort by a key.  With `reverse=True` the order is by descending key and
 * elements with equal keys still keep their original order, which is the
 * same as an ascending stable sort by the negated key.
 */
module StableSort {

  /** The quantity the sort arranges in ascending order. */
  function Rank<T>(key: T -> real, descending: bool, x: T): real
  {
    if descending then -key(x) else key(x)
  }

  predicate Ordered<T>(s: seq<T>, key: T -> real, descending: bool)
  {
    forall i, j :: 0 <= i < j < |s| ==> Rank(key, descending, s[i]) <= Rank(key, descending, s[j])
  }

  /** The elements of `s` whose rank is `k`, in their order in `s`. */
  function WithRank<T>(s: seq<T>, key: T -> real, descending: bool, k: real): seq<T>
  {
    if s == [] then []
    else
      var earlier := WithRank(s[..|s| - 1], key, descending, k);
      if Rank(key, descending, s[|s| - 1]) == k then earlier + [s[|s| - 1]] else earlier
  }

  /** Places `x` after every element of `t` whose rank is at most that of `x`. */
  function Insert<T>(t: seq<T>, x: T, key: T -> real, descending: bool): (r: seq<T>)
    ensures |r| == |t| + 1
  {
    if t == [] || Rank(key, descending, t[|t| - 1]) <= Rank(key, descending, x) then t + [x]
    else Insert(t[..|t| - 1], x, key, descending) + [t[|t| - 1]]
  }

  /** The stable sort: each element in turn is inserted into the sorted prefix before it. */
  function Sort<T>(s: seq<T>, key: T -> real, descending: bool): (r: seq<T>)
    ensures |r| == |s|
  {
    if s == [] then [] else Insert(Sort(s[..|s| - 1], key, descending), s[|s| - 1], key, descending)
  }

  lemma {:induction false} InsertPermutes<T>(t: seq<T>, x: T, key: T -> real, descending: bool)
    ensures multiset(Insert(t, x, key, descending)) == multiset(t) + multiset{x}
  {
    if t != [] && Rank(key, descending, t[|t| - 1]) > Rank(key, descending, x) {
      InsertPermutes(t[..|t| - 1], x, key, descending);
      assert t == t[..|t| - 1] + [t[|t| - 1]];
    }
  }

  /** The sort is a permutation. */
  lemma {:induction false} SortPermutes<T>(s: seq<T>, key: T -> real, descending: bool)
    ensures multiset(Sort(s, key, descending)) == multiset(s)
  {
    if s != [] {
      SortPermutes(s[..|s| - 1], key, descending);
      InsertPermutes(Sort(s[..|s| - 1], key, descending), s[|s| - 1], key, descending);
      assert s == s[..|s| - 1] + [s[|s| - 1]];
    }
  }

  lemma {:induction false} InsertOrdered<T>(t: seq<T>, x: T, key: T -> real, descending: bool)
    requires Ordered(t, key, descending)
    ensures Ordered(Insert(t, x, key, descending), key, descending)
  {
    if t != [] && Rank(key, descending, t[|t| - 1]) > Rank(key, descending, x) {
      var t' := t[..|t| - 1];
      InsertOrdered(t', x, key, descending);
      InsertBound(t', x, key, descending, Rank(key, descending, t[|t| - 1]));
    }
  }

  /** Every element of an insertion has a rank no greater than a bound both `t` and `x` respect. */
  lemma {:induction false} InsertBound<T>(t: seq<T>, x: T, key: T -> real, descending: bool, b: real)
    requires forall i :: 0 <= i < |t| ==> Rank(key, descending, t[i]) <= b
    requires Rank(key, descending, x) <= b
    ensures forall i :: 0 <= i < |t| + 1 ==> Rank(key, descending, Insert(t, x, key, descending)[i]) <= b
  {
    if t != [] && Rank(key, descending, t[|t| - 1]) > Rank(key, descending, x) {
      InsertBound(t[..|t| - 1], x, key, descending, b);
    }
  }

  /** The sort puts the elements in ascending rank. */
  lemma {:induction false} SortOrdered<T>(s: seq<T>, key: T -> real, descending: bool)
    ensures Ordered(Sort(s, key, descending), key, descending)
  {
    if s != [] {
      SortOrdered(s[..|s| - 1], key, descending);
      InsertOrdered(Sort(s[..|s| - 1], key, descending), s[|s| - 1], key, descending);
    }
  }

  lemma {:induction false} WithRankAppend<T>(a: seq<T>, b: seq<T>, key: T -> real, descending: bool, k: real)
    ensures WithRank(a + b, key, descending, k) == WithRank(a, key, descending, k) + WithRank(b, key, descending, k)
    decreases |b|
  {
    if b == [] {
      assert a + b == a;
    } else {
      assert (a + b)[..|a + b| - 1] == a + b[..|b| - 1];
      WithRankAppend(a, b[..|b| - 1], key, descending, k);
    }
  }

  lemma WithRankSingle<T>(y: T, key: T -> real, descending: bool, k: real)
    ensures WithRank([y], key, descending, k) == if Rank(key, descending, y) == k then [y] else []
  {
    assert [y][..0] == [];
  }

  /** Inserting `x` adds it at the end of its own rank class and leaves every class in order. */
  lemma {:induction false} InsertWithRank<T>(t: seq<T>, x: T, key: T -> real, descending: bool, k: real)
    ensures WithRank(Insert(t, x, key, descending), key, descending, k)
      == WithRank(t, key, descending, k) + WithRank([x], key, descending, k)
  {
    if t == [] || Rank(key, descending, t[|t| - 1]) <= Rank(key, descending, x) {
      WithRankAppend(t, [x], key, descending, k);
    } else {
      var t', last := t[..|t| - 1], t[|t| - 1];
      var u := Insert(t', x, key, descending);
      var wx, wl := WithRank([x], key, descending, k), WithRank([last], key, descending, k);
      // `last` and `x` have different ranks, so at most one of them lies in class `k`.
      WithRankSingle(x, key, descending, k);
      WithRankSingle(last, key, descending, k);
      assert Insert(t, x, key, descending) == u + [last];
      assert wx == [] || wl == [];
      WithRankAppend(u, [last], key, descending, k);
      InsertWithRank(t', x, key, descending, k);
      var w' := WithRank(t', key, descending, k);
      assert WithRank(u, key, descending, k) == w' + wx;
      WithRankAppend(t', [last], key, descending, k);
      assert t' + [last] == t;
      assert WithRank(t, key, descending, k) == w' + wl;
      SwapEmpty(w', wx, wl);
    }
  }

  /** Two pieces of which one is empty can be appended in either order. */
  lemma SwapEmpty<T>(w: seq<T>, a: seq<T>, b: seq<T>)
    requires a == [] || b == []
    ensures (w + a) + b == (w + b) + a
  {
    if a == [] {
      assert w + a == w;
    } else {
      assert w + b == w;
    }
  }

  /** Stability: within each rank the sorted list keeps the original order. */
  lemma {:induction false} SortStable<T>(s: seq<T>, key: T -> real, descending: bool, k: real)
    ensures WithRank(Sort(s, key, descending), key, descending, k) == WithRank(s, key, descending, k)
  {
    if s != [] {
      var p := s[..|s| - 1];
      SortStable(p, key, descending, k);
      InsertWithRank(Sort(p, key, descending), s[|s| - 1], key, descending, k);
      WithRankAppend(p, [s[|s| - 1]], key, descending, k);
      assert s == p + [s[|s| - 1]];
    }
  }

  /** Sorting an already ordered list changes nothing. */
  lemma {:induction false} SortOfOrdered<T>(s: seq<T>, key: T -> real, descending: bool)
    requires Ordered(s, key, descending)
    ensures Sort(s, key, descending) == s
  {
    if s != [] {
      var p := s[..|s| - 1];
      OrderedInit(s, key, descending);
      SortOfOrdered(p, key, descending);
      assert s == p + [s[|s| - 1]];
    }
  }

  /** Dropping the last element keeps the order, and the last element has the greatest rank. */
  lemma OrderedInit<T>(s: seq<T>, key: T -> real, descending: bool)
    requires Ordered(s, key, descending) && s != []
    ensures Ordered(s[..|s| - 1], key, descending)
    ensures forall i :: 0 <= i < |s| - 1 ==> Rank(key, descending, s[i]) <= Rank(key, descending, s[|s| - 1])
  {
    var p := s[..|s| - 1];
    forall i, j | 0 <= i < j < |p| ensures Rank(key, descending, p[i]) <= Rank(key, descending, p[j]) {
      assert p[i] == s[i] && p[j] == s[j];
    }
  }

  /** Appending an element of rank at least every other keeps the order. */
  lemma OrderedSnoc<T>(l: seq<T>, x: T, key: T -> real, descending: bool)
    requires Ordered(l, key, descending)
    requires forall i :: 0 <= i < |l| ==> Rank(key, descending, l[i]) <= Rank(key, descending, x)
    ensures Ordered(l + [x], key, descending)
  {
    var r := l + [x];
    forall i, j | 0 <= i < j < |r| ensures Rank(key, descending, r[i]) <= Rank(key, descending, r[j]) {
      assert r[i] == l[i];
      if j < |l| {
        assert r[j] == l[j];
      } else {
        assert r[j] == x;
      }
    }
  }
}
