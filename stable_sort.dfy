/**
 * The result of Python's `list.sort(key=..., reverse=True)`: a stable sort into non-increasing key
 * order. A stable sort has exactly one possible result, so any definition that is sorted, a
 * permutation and keeps equal keys in input order describes it; insertion is the simplest one.
 */
module StableSort {

  /** `x` placed in front of the first element whose key is not above its own. */
  function Insert<T>(x: T, s: seq<T>, key: T -> real): (r: seq<T>)
    ensures |r| == |s| + 1
  {
    if s == [] then [x]
    else if key(x) >= key(s[0]) then [x] + s
    else [s[0]] + Insert(x, s[1..], key)
  }

  /** Sorting the tail first and inserting the head in front of its equals keeps input order on ties. */
  function SortDesc<T>(s: seq<T>, key: T -> real): (r: seq<T>)
    ensures |r| == |s|
  {
    if s == [] then [] else Insert(s[0], SortDesc(s[1..], key), key)
  }

  /** Keys never increase from left to right. */
  predicate SortedDesc<T>(s: seq<T>, key: T -> real) {
    forall i, j :: 0 <= i < j < |s| ==> key(s[i]) >= key(s[j])
  }

  /** The elements whose key is exactly `v`, in their order in `s`. */
  function Filter<T>(s: seq<T>, key: T -> real, v: real): seq<T> {
    if s == [] then []
    else (if key(s[0]) == v then [s[0]] else []) + Filter(s[1..], key, v)
  }

  /** `[f(x) for x in s]` */
  function Map<T, U>(s: seq<T>, f: T -> U): (r: seq<U>)
    ensures |r| == |s|
    ensures forall i :: 0 <= i < |s| ==> r[i] == f(s[i])
  {
    if s == [] then [] else [f(s[0])] + Map(s[1..], f)
  }

  lemma {:induction false} InsertSorted<T>(x: T, s: seq<T>, key: T -> real)
    requires SortedDesc(s, key)
    ensures SortedDesc(Insert(x, s, key), key)
  {
    if s != [] && key(x) < key(s[0]) {
      InsertSorted(x, s[1..], key);
      var r := Insert(x, s, key);
      var t := Insert(x, s[1..], key);
      assert r == [s[0]] + t;
      InsertMembers(x, s[1..], key);
      forall j | 0 < j < |r| ensures key(r[0]) >= key(r[j]) {
        assert r[j] == t[j - 1] && t[j - 1] in multiset(t);
        if t[j - 1] != x {
          var k :| 0 <= k < |s[1..]| && s[1..][k] == t[j - 1];
          assert s[1..][k] == s[k + 1];
        }
      }
    }
  }

  lemma {:induction false} InsertMembers<T>(x: T, s: seq<T>, key: T -> real)
    ensures multiset(Insert(x, s, key)) == multiset(s) + multiset{x}
  {
    if s != [] && key(x) < key(s[0]) {
      InsertMembers(x, s[1..], key);
      assert s == [s[0]] + s[1..];
    }
  }

  /** The sort's output is ordered by non-increasing key. */
  lemma {:induction false} SortDescSorted<T>(s: seq<T>, key: T -> real)
    ensures SortedDesc(SortDesc(s, key), key)
  {
    if s != [] {
      SortDescSorted(s[1..], key);
      InsertSorted(s[0], SortDesc(s[1..], key), key);
    }
  }

  /** The sort's output holds exactly the input's elements, each as many times. */
  lemma {:induction false} SortDescPermutation<T>(s: seq<T>, key: T -> real)
    ensures multiset(SortDesc(s, key)) == multiset(s)
  {
    if s != [] {
      SortDescPermutation(s[1..], key);
      InsertMembers(s[0], SortDesc(s[1..], key), key);
      assert s == [s[0]] + s[1..];
    }
  }

  lemma FilterCons<T>(y: T, t: seq<T>, key: T -> real, v: real)
    ensures Filter([y] + t, key, v) == (if key(y) == v then [y] else []) + Filter(t, key, v)
  {
    assert ([y] + t)[1..] == t;
  }

  /** Inserting `x` puts it ahead of every element with its key: only larger keys are skipped. */
  lemma {:induction false} InsertFilter<T>(x: T, s: seq<T>, key: T -> real, v: real)
    ensures Filter(Insert(x, s, key), key, v) == (if key(x) == v then [x] else []) + Filter(s, key, v)
  {
    if s == [] {
      FilterCons(x, [], key, v);
    } else if key(x) >= key(s[0]) {
      FilterCons(x, s, key, v);
    } else {
      InsertFilter(x, s[1..], key, v);
      FilterCons(s[0], Insert(x, s[1..], key), key, v);
      FilterCons(s[0], s[1..], key, v);
      assert [s[0]] + s[1..] == s;
      // s[0] has a larger key than x, so at most one of the two is kept
      assert key(s[0]) != v || key(x) != v;
    }
  }

  /** Stability: the elements of any one key come out in the order they went in. */
  lemma {:induction false} SortDescStable<T>(s: seq<T>, key: T -> real, v: real)
    ensures Filter(SortDesc(s, key), key, v) == Filter(s, key, v)
  {
    if s != [] {
      SortDescStable(s[1..], key, v);
      InsertFilter(s[0], SortDesc(s[1..], key), key, v);
    }
  }

  lemma {:induction false} MapInsert<T, U>(x: T, s: seq<T>, key: T -> real, f: T -> U)
    ensures multiset(Map(Insert(x, s, key), f)) == multiset(Map(s, f)) + multiset{f(x)}
  {
    if s != [] && key(x) < key(s[0]) {
      MapInsert(x, s[1..], key, f);
      assert Map(s, f) == [f(s[0])] + Map(s[1..], f);
    } else if s != [] {
      assert Map([x] + s, f) == [f(x)] + Map(s, f) by {
        assert ([x] + s)[1..] == s;
      }
    }
  }

  /** Any projection of the elements is permuted as well: the sort only reorders. */
  lemma {:induction false} SortDescMapPermutation<T, U>(s: seq<T>, key: T -> real, f: T -> U)
    ensures multiset(Map(SortDesc(s, key), f)) == multiset(Map(s, f))
  {
    if s != [] {
      SortDescMapPermutation(s[1..], key, f);
      MapInsert(s[0], SortDesc(s[1..], key), key, f);
    }
  }

  /** Input that is already in non-increasing order comes back unchanged. */
  lemma {:induction false} SortDescOfSorted<T>(s: seq<T>, key: T -> real)
    requires SortedDesc(s, key)
    ensures SortDesc(s, key) == s
  {
    if s != [] {
      assert SortedDesc(s[1..], key) by {
        forall i, j | 0 <= i < j < |s[1..]| ensures key(s[1..][i]) >= key(s[1..][j]) {
          assert s[1..][i] == s[i + 1] && s[1..][j] == s[j + 1];
        }
      }
      SortDescOfSorted(s[1..], key);
      if |s| > 1 {
        assert key(s[0]) >= key(s[1]);
        assert s[1..][0] == s[1];
      }
      assert [s[0]] + s[1..] == s;
    }
  }
}
