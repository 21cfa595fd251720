/** Python's ordering of `str` values and the stable sort that `sorted(...)` and
    `list.sort(key=...)` perform, with the facts the rest of the model needs:
    the result is ordered, a permutation of the input, and keeps the input order
    of elements whose keys are equal. */
module Ordering {

  /** `a <= b` on Python strings: code points compared left to right, and a
      proper prefix sorts before the longer string. */
  predicate LexLe(a: string, b: string)
    decreases |a|
  {
    |a| == 0 || (|b| > 0 && (a[0] < b[0] || (a[0] == b[0] && LexLe(a[1..], b[1..]))))
  }

  /** Python's order as usually stated: `a` is a prefix of `b`, or at the first
      position where they differ `a` has the smaller code point. */
  ghost predicate PrefixOrFirstSmaller(a: string, b: string)
  {
    (|a| <= |b| && a == b[..|a|])
    || (exists k :: 0 <= k < |a| && k < |b| && a[..k] == b[..k] && a[k] < b[k])
  }

  /** Strings with the same first character compare as their tails do. */
  lemma SameHeadCompareAsTails(a: string, b: string)
    requires |a| > 0 && |b| > 0 && a[0] == b[0]
    ensures PrefixOrFirstSmaller(a, b) <==> PrefixOrFirstSmaller(a[1..], b[1..])
  {
    if |a| <= |b| {
      assert a == [a[0]] + a[1..];
      assert b[..|a|] == [b[0]] + b[1..][..|a| - 1];
    }
    forall k | 0 <= k < |a| - 1 && k < |b| - 1
      ensures a[1..][..k] == b[1..][..k] <==> a[..k + 1] == b[..k + 1]
    {
      assert a[..k + 1] == [a[0]] + a[1..][..k];
      assert b[..k + 1] == [b[0]] + b[1..][..k];
    }
    if exists k :: 0 <= k < |a| && k < |b| && a[..k] == b[..k] && a[k] < b[k] {
      var k :| 0 <= k < |a| && k < |b| && a[..k] == b[..k] && a[k] < b[k];
      assert a[1..][k - 1] < b[1..][k - 1];
    }
  }

  /** Strings whose first characters differ compare as those characters do. */
  lemma DifferentHeadsDecide(a: string, b: string)
    requires |a| > 0 && |b| > 0 && a[0] != b[0]
    ensures PrefixOrFirstSmaller(a, b) <==> a[0] < b[0]
  {
    if a[0] < b[0] {
      assert a[..0] == b[..0];
    } else {
      forall k | 0 < k < |a| && k < |b| ensures a[..k] != b[..k] {
        assert a[..k][0] != b[..k][0];
      }
    }
  }

  /** `LexLe` is exactly `PrefixOrFirstSmaller`. */
  lemma {:induction false} LexLeIffFirstDifference(a: string, b: string)
    ensures LexLe(a, b) <==> PrefixOrFirstSmaller(a, b)
    decreases |a|
  {
    if |a| > 0 && |b| > 0 {
      if a[0] == b[0] {
        LexLeIffFirstDifference(a[1..], b[1..]);
        SameHeadCompareAsTails(a, b);
      } else {
        DifferentHeadsDecide(a, b);
      }
    }
  }

  lemma {:induction false} LexLeReflexive(a: string)
    ensures LexLe(a, a)
    decreases |a|
  {
    if |a| > 0 {
      LexLeReflexive(a[1..]);
    }
  }

  lemma {:induction false} LexLeTotal(a: string, b: string)
    ensures LexLe(a, b) || LexLe(b, a)
    decreases |a|
  {
    if |a| > 0 && |b| > 0 && a[0] == b[0] {
      LexLeTotal(a[1..], b[1..]);
    }
  }

  lemma {:induction false} LexLeAntisymmetric(a: string, b: string)
    requires LexLe(a, b) && LexLe(b, a)
    ensures a == b
    decreases |a|
  {
    if |a| > 0 {
      LexLeAntisymmetric(a[1..], b[1..]);
      assert a == [a[0]] + a[1..];
      assert b == [b[0]] + b[1..];
    }
  }

  lemma {:induction false} LexLeTransitive(a: string, b: string, c: string)
    requires LexLe(a, b) && LexLe(b, c)
    ensures LexLe(a, c)
    decreases |a|
  {
    if |a| > 0 && a[0] == b[0] && b[0] == c[0] {
      LexLeTransitive(a[1..], b[1..], c[1..]);
    }
  }

  /** The elements of `s` appear in ascending order of their keys. */
  ghost predicate SortedBy<T>(s: seq<T>, key: T -> string)
  {
    forall i, j :: 0 <= i < j < |s| ==> LexLe(key(s[i]), key(s[j]))
  }

  /** Places `x` in front of the first element whose key is not below its own. */
  function InsertBy<T>(x: T, s: seq<T>, key: T -> string): seq<T>
    decreases |s|
  {
    if |s| == 0 || LexLe(key(x), key(s[0])) then [x] + s
    else [s[0]] + InsertBy(x, s[1..], key)
  }

  /** The stable sort by key: an element that comes first in `s` stays in front of
      every later element with the same key. */
  function SortBy<T>(s: seq<T>, key: T -> string): seq<T>
    decreases |s|
  {
    if |s| == 0 then [] else InsertBy(s[0], SortBy(s[1..], key), key)
  }

  /** The elements of `s` whose key is `k`, in their order in `s`. */
  function KeyFilter<T>(s: seq<T>, key: T -> string, k: string): seq<T>
    decreases |s|
  {
    if |s| == 0 then []
    else if key(s[0]) == k then [s[0]] + KeyFilter(s[1..], key, k)
    else KeyFilter(s[1..], key, k)
  }

  /** How many elements of `s` satisfy `p`. */
  function Count<T>(s: seq<T>, p: T -> bool): (n: nat)
    ensures n <= |s|
    decreases |s|
  {
    if |s| == 0 then 0 else (if p(s[0]) then 1 else 0) + Count(s[1..], p)
  }

  lemma {:induction false} InsertByPermutes<T>(x: T, s: seq<T>, key: T -> string)
    ensures multiset(InsertBy(x, s, key)) == multiset{x} + multiset(s)
    ensures |InsertBy(x, s, key)| == |s| + 1
    decreases |s|
  {
    if |s| > 0 && !LexLe(key(x), key(s[0])) {
      InsertByPermutes(x, s[1..], key);
      assert s == [s[0]] + s[1..];
    }
  }

  /** A lower bound of `x` and of every element of `s` bounds every element of the insertion. */
  lemma {:induction false} InsertByLowerBound<T>(x: T, s: seq<T>, key: T -> string, bound: string)
    requires LexLe(bound, key(x))
    requires forall i :: 0 <= i < |s| ==> LexLe(bound, key(s[i]))
    ensures forall j :: 0 <= j < |InsertBy(x, s, key)| ==> LexLe(bound, key(InsertBy(x, s, key)[j]))
    decreases |s|
  {
    if |s| > 0 && !LexLe(key(x), key(s[0])) {
      InsertByLowerBound(x, s[1..], key, bound);
      var r := InsertBy(x, s, key);
      assert forall j :: 1 <= j < |r| ==> r[j] == InsertBy(x, s[1..], key)[j - 1];
    }
  }

  lemma {:induction false} InsertByKeepsSorted<T>(x: T, s: seq<T>, key: T -> string)
    requires SortedBy(s, key)
    ensures SortedBy(InsertBy(x, s, key), key)
    decreases |s|
  {
    if |s| == 0 {
    } else if LexLe(key(x), key(s[0])) {
      var r := [x] + s;
      forall i, j | 0 <= i < j < |r| ensures LexLe(key(r[i]), key(r[j])) {
        if i == 0 && j > 1 {
          LexLeTransitive(key(x), key(s[0]), key(s[j - 1]));
        }
      }
    } else {
      LexLeTotal(key(x), key(s[0]));
      var tail := InsertBy(x, s[1..], key);
      InsertByKeepsSorted(x, s[1..], key);
      InsertByLowerBound(x, s[1..], key, key(s[0]));
      var r := [s[0]] + tail;
      forall i, j | 0 <= i < j < |r| ensures LexLe(key(r[i]), key(r[j])) {
        if i == 0 {
          assert r[j] == tail[j - 1];
        } else {
          assert r[i] == tail[i - 1] && r[j] == tail[j - 1];
        }
      }
    }
  }

  /** `SortBy` yields the input's elements, each as often as in the input, in
      ascending key order. */
  lemma {:induction false} SortBySortsAndPermutes<T>(s: seq<T>, key: T -> string)
    ensures SortedBy(SortBy(s, key), key)
    ensures multiset(SortBy(s, key)) == multiset(s)
    ensures |SortBy(s, key)| == |s|
    decreases |s|
  {
    if |s| > 0 {
      SortBySortsAndPermutes(s[1..], key);
      InsertByKeepsSorted(s[0], SortBy(s[1..], key), key);
      InsertByPermutes(s[0], SortBy(s[1..], key), key);
      assert s == [s[0]] + s[1..];
    }
  }

  lemma {:induction false} InsertByKeyFilter<T>(x: T, s: seq<T>, key: T -> string, k: string)
    ensures KeyFilter(InsertBy(x, s, key), key, k) == KeyFilter([x] + s, key, k)
    decreases |s|
  {
    assert ([x] + s)[1..] == s;
    if |s| > 0 && !LexLe(key(x), key(s[0])) {
      // the element skipped over has a key different from x's, since LexLe is reflexive
      LexLeReflexive(key(x));
      InsertByKeyFilter(x, s[1..], key, k);
      var r := [s[0]] + InsertBy(x, s[1..], key);
      assert r[1..] == InsertBy(x, s[1..], key);
      assert ([x] + s[1..])[1..] == s[1..];
      assert s[1..] == s[1..];
    }
  }

  /** Stability: for every key, the elements carrying it appear in the sorted
      sequence exactly in the order they had in the input. */
  lemma {:induction false} SortByIsStable<T>(s: seq<T>, key: T -> string, k: string)
    ensures KeyFilter(SortBy(s, key), key, k) == KeyFilter(s, key, k)
    decreases |s|
  {
    if |s| > 0 {
      SortByIsStable(s[1..], key, k);
      InsertByKeyFilter(s[0], SortBy(s[1..], key), key, k);
      assert ([s[0]] + SortBy(s[1..], key))[1..] == SortBy(s[1..], key);
    }
  }

  lemma {:induction false} InsertByCount<T>(x: T, s: seq<T>, key: T -> string, p: T -> bool)
    ensures Count(InsertBy(x, s, key), p) == Count(s, p) + (if p(x) then 1 else 0)
    decreases |s|
  {
    if |s| > 0 && !LexLe(key(x), key(s[0])) {
      InsertByCount(x, s[1..], key, p);
      var r := [s[0]] + InsertBy(x, s[1..], key);
      assert r[1..] == InsertBy(x, s[1..], key);
    } else {
      assert ([x] + s)[1..] == s;
    }
  }

  /** Sorting neither adds nor drops elements satisfying any property. */
  lemma {:induction false} SortByKeepsCount<T>(s: seq<T>, key: T -> string, p: T -> bool)
    ensures Count(SortBy(s, key), p) == Count(s, p)
    decreases |s|
  {
    if |s| > 0 {
      SortByKeepsCount(s[1..], key, p);
      InsertByCount(s[0], SortBy(s[1..], key), key, p);
    }
  }
}
