/**
 * Python's ordering of `str` values and `sorted` on a list of strings:
 * the first differing character decides, and a proper prefix comes first.
 * Also the fact that makes zero padding work: digit strings of one length
 * compare as the numbers they denote.
 */
module StringOrder {
  import opened Strings

  /** `a < b` on Python strings. */
  predicate Less(a: string, b: string)
    decreases |a|
  {
    if a == [] then b != []
    else if b == [] then false
    else if a[0] != b[0] then a[0] < b[0]
    else Less(a[1..], b[1..])
  }

  predicate LessEq(a: string, b: string)
  {
    a == b || Less(a, b)
  }

  lemma {:induction false} LessIrreflexive(a: string)
    ensures !Less(a, a)
    decreases |a|
  {
    if a != [] {
      LessIrreflexive(a[1..]);
    }
  }

  /** Any two strings are equal or ordered one way, and never both ways. */
  lemma {:induction false} LessTotal(a: string, b: string)
    ensures a == b || Less(a, b) || Less(b, a)
    ensures !(Less(a, b) && Less(b, a))
    decreases |a|
  {
    if a != [] && b != [] && a[0] == b[0] {
      LessTotal(a[1..], b[1..]);
      if a[1..] == b[1..] {
        assert a == [a[0]] + a[1..] && b == [b[0]] + b[1..];
      }
    }
  }

  lemma {:induction false} LessTransitive(a: string, b: string, c: string)
    requires Less(a, b) && Less(b, c)
    ensures Less(a, c)
    decreases |a|
  {
    if a != [] && a[0] == b[0] && b[0] == c[0] {
      LessTransitive(a[1..], b[1..], c[1..]);
    }
  }

  /** A common prefix does not change the comparison. */
  lemma {:induction false} LessPrefix(p: string, a: string, b: string)
    ensures Less(p + a, p + b) <==> Less(a, b)
    decreases |p|
  {
    if p != [] {
      assert (p + a)[1..] == p[1..] + a && (p + b)[1..] == p[1..] + b;
      LessPrefix(p[1..], a, b);
    } else {
      assert p + a == a && p + b == b;
    }
  }

  /** Between two different strings of one length, what follows them does not matter. */
  lemma {:induction false} LessSameLength(x: string, y: string, s: string, t: string)
    requires |x| == |y| && x != y
    ensures Less(x + s, y + t) <==> Less(x, y)
    decreases |x|
  {
    if x[0] == y[0] {
      assert (x + s)[1..] == x[1..] + s && (y + t)[1..] == y[1..] + t;
      assert x[1..] != y[1..] by {
        assert x == [x[0]] + x[1..] && y == [y[0]] + y[1..];
      }
      LessSameLength(x[1..], y[1..], s, t);
    }
  }

  predicate Sorted(s: seq<string>)
  {
    forall i, j :: 0 <= i < j < |s| ==> LessEq(s[i], s[j])
  }

  predicate StrictlyIncreasing(s: seq<string>)
  {
    forall i, j :: 0 <= i < j < |s| ==> Less(s[i], s[j])
  }

  /** Places `x` after every element of the sorted `t` that is not greater. */
  function Insert(t: seq<string>, x: string): (r: seq<string>)
    ensures |r| == |t| + 1
  {
    if t == [] || LessEq(t[|t| - 1], x) then t + [x]
    else Insert(t[..|t| - 1], x) + [t[|t| - 1]]
  }

  /** `sorted(names)`. */
  function SortStrings(s: seq<string>): (r: seq<string>)
    ensures |r| == |s|
  {
    if s == [] then [] else Insert(SortStrings(s[..|s| - 1]), s[|s| - 1])
  }

  lemma {:induction false} InsertPermutes(t: seq<string>, x: string)
    ensures multiset(Insert(t, x)) == multiset(t) + multiset{x}
  {
    if t != [] && !LessEq(t[|t| - 1], x) {
      InsertPermutes(t[..|t| - 1], x);
      assert t == t[..|t| - 1] + [t[|t| - 1]];
    }
  }

  /** The sort is a permutation. */
  lemma {:induction false} SortPermutes(s: seq<string>)
    ensures multiset(SortStrings(s)) == multiset(s)
  {
    if s != [] {
      SortPermutes(s[..|s| - 1]);
      InsertPermutes(SortStrings(s[..|s| - 1]), s[|s| - 1]);
      assert s == s[..|s| - 1] + [s[|s| - 1]];
    }
  }

  lemma {:induction false} InsertSorted(t: seq<string>, x: string)
    requires Sorted(t)
    ensures Sorted(Insert(t, x))
  {
    if t == [] {
    } else if LessEq(t[|t| - 1], x) {
      var r := t + [x];
      forall i, j | 0 <= i < j < |r| ensures LessEq(r[i], r[j]) {
        if j == |t| && i < |t| - 1 && t[i] != t[|t| - 1] && t[|t| - 1] != x {
          LessTransitive(t[i], t[|t| - 1], x);
        }
      }
    } else {
      var last := t[|t| - 1];
      var init := t[..|t| - 1];
      InsertSorted(init, x);
      InsertPermutes(init, x);
      LessTotal(last, x);
      var r := Insert(init, x) + [last];
      forall i, j | 0 <= i < j < |r| ensures LessEq(r[i], r[j]) {
        if j == |r| - 1 {
          var e := r[i];
          assert e in multiset(Insert(init, x));
          assert e in multiset(init) || e == x;
          if e != x {
            var k :| 0 <= k < |init| && init[k] == e;
            assert t[k] == e;
          }
        }
      }
    }
  }

  /** The sort puts the strings in ascending order. */
  lemma {:induction false} SortSorted(s: seq<string>)
    ensures Sorted(SortStrings(s))
  {
    if s != [] {
      SortSorted(s[..|s| - 1]);
      InsertSorted(SortStrings(s[..|s| - 1]), s[|s| - 1]);
    }
  }

  /** Two sorted arrangements of the same strings are the same sequence. */
  lemma {:induction false} SortedUnique(a: seq<string>, b: seq<string>)
    requires Sorted(a) && Sorted(b) && multiset(a) == multiset(b)
    ensures a == b
  {
    if a != [] {
      var x := SameLast(a, b);
      var a', b' := a[..|a| - 1], b[..|b| - 1];
      SortedInit(a);
      SortedInit(b);
      SortedUnique(a', b');
      assert a == a' + [x] && b == b' + [x];
    }
  }

  /** Sorted arrangements of the same non-empty strings end with the same element; removing it leaves equal multisets. */
  lemma SameLast(a: seq<string>, b: seq<string>) returns (x: string)
    requires Sorted(a) && Sorted(b) && multiset(a) == multiset(b) && a != []
    ensures |a| == |b| && x == a[|a| - 1] == b[|b| - 1]
    ensures multiset(a[..|a| - 1]) == multiset(b[..|b| - 1])
  {
    assert |b| == |a| by {
      assert |multiset(a)| == |a| && |multiset(b)| == |b|;
    }
    x := a[|a| - 1];
    var y := b[|b| - 1];
    SortedLastIsMax(a, y);
    SortedLastIsMax(b, x);
    LessTotal(x, y);
    DropLast(a, b);
  }

  lemma DropLast<T>(a: seq<T>, b: seq<T>)
    requires multiset(a) == multiset(b) && a != [] && b != [] && a[|a| - 1] == b[|b| - 1]
    ensures multiset(a[..|a| - 1]) == multiset(b[..|b| - 1])
  {
    var x := a[|a| - 1];
    var a', b' := a[..|a| - 1], b[..|b| - 1];
    assert a == a' + [x] && b == b' + [x];
    var ma, mb := multiset(a'), multiset(b');
    assert ma + multiset{x} == mb + multiset{x};
    forall e ensures ma[e] == mb[e] {
      assert (ma + multiset{x})[e] == (mb + multiset{x})[e];
    }
  }

  lemma SortedLastIsMax(a: seq<string>, e: string)
    requires Sorted(a) && e in multiset(a)
    ensures LessEq(e, a[|a| - 1])
  {
    var j :| 0 <= j < |a| && a[j] == e;
    if j < |a| - 1 {
      assert LessEq(a[j], a[|a| - 1]);
    }
  }

  lemma SortedInit(a: seq<string>)
    requires Sorted(a) && a != []
    ensures Sorted(a[..|a| - 1])
  {
    var a' := a[..|a| - 1];
    forall i, j | 0 <= i < j < |a'| ensures LessEq(a'[i], a'[j]) {
      assert a'[i] == a[i] && a'[j] == a[j];
    }
  }

  /** Two strings out of order are swapped. */
  lemma SortTwo(a: string, b: string)
    requires Less(b, a)
    ensures SortStrings([a, b]) == [b, a]
  {
    LessTotal(a, b);
    assert !LessEq(a, b);
    assert [a, b][..1] == [a] && [a][..0] == [];
    assert SortStrings([a]) == Insert([], a) == [a];
    assert Insert([a], b) == Insert([], b) + [a] == [b, a];
  }

  /** Sorting what is already in order changes nothing. */
  lemma SortOfSorted(s: seq<string>)
    requires Sorted(s)
    ensures SortStrings(s) == s
  {
    SortSorted(s);
    SortPermutes(s);
    SortedUnique(SortStrings(s), s);
  }

  // ------------------------------------------------------- digit strings

  function Pow10(k: nat): (r: nat)
    ensures r >= 1
  {
    if k == 0 then 1 else 10 * Pow10(k - 1)
  }

  lemma {:induction false} DigitsBound(s: string)
    requires AllDigits(s)
    ensures DigitsValue(s) < Pow10(|s|)
  {
    if s != [] {
      DigitsBound(s[..|s| - 1]);
    }
  }

  /** The value of a digit string read from its first digit. */
  lemma {:induction false} DigitsFront(s: string)
    requires AllDigits(s) && s != []
    ensures DigitsValue(s) == DigitValue(s[0]) * Pow10(|s| - 1) + DigitsValue(s[1..])
  {
    var n := |s|;
    if n > 1 {
      var init, t := s[..n - 1], s[1..];
      DigitsFront(init);
      assert t[..|t| - 1] == init[1..] && t[|t| - 1] == s[n - 1] && init[0] == s[0];
      var d0, p, v, e := DigitValue(s[0]), Pow10(n - 2), DigitsValue(init[1..]), DigitValue(s[n - 1]);
      assert DigitsValue(s) == DigitsValue(init) * 10 + e;
      assert DigitsValue(init) == d0 * p + v;
      assert DigitsValue(t) == v * 10 + e;
      assert Pow10(n - 1) == 10 * p;
      ShiftDigit(d0, p, v, e);
    }
  }

  lemma ShiftDigit(d: int, p: int, v: int, e: int)
    ensures (d * p + v) * 10 + e == d * (10 * p) + (v * 10 + e)
  {
  }

  /** Digit strings of one length compare as their values. */
  lemma {:induction false} DigitsLess(a: string, b: string)
    requires AllDigits(a) && AllDigits(b) && |a| == |b|
    ensures Less(a, b) <==> DigitsValue(a) < DigitsValue(b)
    decreases |a|
  {
    if a != [] {
      DigitsFront(a);
      DigitsFront(b);
      if a[0] == b[0] {
        DigitsLess(a[1..], b[1..]);
      } else if a[0] < b[0] {
        FirstDigitDecides(a, b);
      } else {
        FirstDigitDecides(b, a);
      }
    }
  }

  /** A smaller first digit makes the smaller value. */
  lemma FirstDigitDecides(a: string, b: string)
    requires AllDigits(a) && AllDigits(b) && |a| == |b| && a != [] && a[0] < b[0]
    ensures DigitsValue(a) < DigitsValue(b)
  {
    DigitsFront(a);
    DigitsFront(b);
    DigitsBound(a[1..]);
    var p: int := Pow10(|a| - 1);
    var da: int, db: int := DigitValue(a[0]), DigitValue(b[0]);
    var ra: int, rb: int := DigitsValue(a[1..]), DigitsValue(b[1..]);
    BelowNextMultiple(da, db, p, ra, rb);
  }

  /** `d * p + r < e * p + s` when `d < e`, `0 <= r < p` and `s >= 0`. */
  lemma BelowNextMultiple(d: int, e: int, p: int, r: int, s: int)
    requires d < e && 0 <= r < p && s >= 0
    ensures d * p + r < e * p + s
  {
    MulNonneg(e - d - 1, p);
    assert e * p == d * p + p + (e - d - 1) * p;
  }

  lemma MulNonneg(x: int, y: int)
    requires x >= 0 && y >= 0
    ensures x * y >= 0
  {
  }
}
