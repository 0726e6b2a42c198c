/** JavaScript's `Array.prototype.sort`, which is stable, applied with a
    comparator that compares one key per element: elements are ordered by
    their key (ascending, or descending when the comparator is negated) and
    elements with equal keys keep their input order. Keys are sequences of
    integers ordered lexicographically, which covers both numeric keys (a
    one-element sequence) and string keys (their character codes). */
module Sorting {
  import opened Seqs

  /** Lexicographic order on integer sequences; a proper prefix comes first. */
  predicate LexLe(x: seq<int>, y: seq<int>) {
    |x| == 0 || (|y| > 0 && (x[0] < y[0] || (x[0] == y[0] && LexLe(x[1..], y[1..]))))
  }

  lemma {:induction false} LexRefl(x: seq<int>)
    ensures LexLe(x, x)
  {
    if |x| > 0 {
      LexRefl(x[1..]);
    }
  }

  lemma {:induction false} LexTotal(x: seq<int>, y: seq<int>)
    ensures LexLe(x, y) || LexLe(y, x)
  {
    if |x| > 0 && |y| > 0 && x[0] == y[0] {
      LexTotal(x[1..], y[1..]);
    }
  }

  lemma {:induction false} LexTrans(x: seq<int>, y: seq<int>, z: seq<int>)
    requires LexLe(x, y) && LexLe(y, z)
    ensures LexLe(x, z)
  {
    if |x| > 0 && x[0] == y[0] && y[0] == z[0] {
      LexTrans(x[1..], y[1..], z[1..]);
    }
  }

  lemma {:induction false} LexAntisym(x: seq<int>, y: seq<int>)
    requires LexLe(x, y) && LexLe(y, x)
    ensures x == y
  {
    if |x| > 0 {
      LexAntisym(x[1..], y[1..]);
      assert x == [x[0]] + x[1..];
      assert y == [y[0]] + y[1..];
    }
  }

  /** The order the sort produces: by key, reversed when `asc` is false. */
  predicate Before(asc: bool, x: seq<int>, y: seq<int>) {
    if asc then LexLe(x, y) else LexLe(y, x)
  }

  /** `Before` is a total order on keys: reflexive, total, transitive and
      antisymmetric, in both directions. */
  lemma BeforeLaws(asc: bool, x: seq<int>, y: seq<int>, z: seq<int>)
    ensures Before(asc, x, x)
    ensures Before(asc, x, y) || Before(asc, y, x)
    ensures Before(asc, x, y) && Before(asc, y, z) ==> Before(asc, x, z)
    ensures Before(asc, x, y) && Before(asc, y, x) ==> x == y
  {
    LexRefl(x);
    LexTotal(x, y);
    if Before(asc, x, y) && Before(asc, y, z) {
      if asc { LexTrans(x, y, z); } else { LexTrans(z, y, x); }
    }
    if Before(asc, x, y) && Before(asc, y, x) {
      LexAntisym(x, y);
    }
  }

  /** `x` placed before the first element whose key it does not follow. */
  function Insert<T>(x: T, s: seq<T>, key: T -> seq<int>, asc: bool): seq<T> {
    if |s| == 0 then [x]
    else if Before(asc, key(x), key(s[0])) then [x] + s
    else [s[0]] + Insert(x, s[1..], key, asc)
  }

  /** The stable sort, as an insertion sort from the back. */
  function SortBy<T>(s: seq<T>, key: T -> seq<int>, asc: bool): seq<T> {
    if |s| == 0 then [] else Insert(s[0], SortBy(s[1..], key, asc), key, asc)
  }

  predicate Sorted<T>(s: seq<T>, key: T -> seq<int>, asc: bool) {
    forall i, j :: 0 <= i < j < |s| ==> Before(asc, key(s[i]), key(s[j]))
  }

  /** The elements whose key is `k`. */
  function KeyIs<T>(key: T -> seq<int>, k: seq<int>): T -> bool {
    y => key(y) == k
  }

  lemma {:induction false} InsertPerm<T>(x: T, s: seq<T>, key: T -> seq<int>, asc: bool)
    ensures multiset(Insert(x, s, key, asc)) == multiset(s) + multiset{x}
    decreases |s|
  {
    if |s| > 0 && !Before(asc, key(x), key(s[0])) {
      InsertPerm(x, s[1..], key, asc);
      assert s == [s[0]] + s[1..];
    }
  }

  lemma {:induction false} InsertSorted<T>(x: T, s: seq<T>, key: T -> seq<int>, asc: bool)
    requires Sorted(s, key, asc)
    ensures Sorted(Insert(x, s, key, asc), key, asc)
    decreases |s|
  {
    var r := Insert(x, s, key, asc);
    if |s| == 0 {
    } else if Before(asc, key(x), key(s[0])) {
      forall i, j | 0 <= i < j < |r|
        ensures Before(asc, key(r[i]), key(r[j]))
      {
        if i == 0 && j > 1 {
          BeforeLaws(asc, key(x), key(s[0]), key(s[j - 1]));
        }
      }
    } else {
      var t := Insert(x, s[1..], key, asc);
      InsertSorted(x, s[1..], key, asc);
      InsertPerm(x, s[1..], key, asc);
      BeforeLaws(asc, key(x), key(s[0]), key(s[0]));
      forall j | 0 <= j < |t|
        ensures Before(asc, key(s[0]), key(t[j]))
      {
        assert t[j] in multiset(t);
        if t[j] != x {
          assert t[j] in multiset(s[1..]);
          var m :| 0 <= m < |s[1..]| && s[1..][m] == t[j];
          assert s[m + 1] == t[j];
        }
      }
      assert r == [s[0]] + t;
    }
  }

  /** Inserting `x` leaves the elements of every other key where they were,
      and puts `x` in front of the elements sharing its key. */
  lemma {:induction false} InsertKeepsKeyOrder<T>(x: T, s: seq<T>, key: T -> seq<int>, asc: bool, k: seq<int>)
    ensures Filter(Insert(x, s, key, asc), KeyIs(key, k)) == Filter([x], KeyIs(key, k)) + Filter(s, KeyIs(key, k))
    decreases |s|
  {
    var p := KeyIs(key, k);
    FilterSingleton(x, p);
    if |s| == 0 {
      assert Filter([x], p) + Filter([], p) == Filter([x], p);
    } else if Before(asc, key(x), key(s[0])) {
      var r := [x] + s;
      assert r[0] == x && r[1..] == s;
    } else {
      var t := Insert(x, s[1..], key, asc);
      InsertKeepsKeyOrder(x, s[1..], key, asc, k);
      var r := [s[0]] + t;
      assert r[0] == s[0] && r[1..] == t;
      BeforeLaws(asc, key(x), key(x), key(x));
      if p(x) {
        assert !p(s[0]);
      }
    }
  }

  /** The sort returns a permutation of its input, ordered by key, and
      elements with equal keys keep their input order. */
  lemma {:induction false} SortBySpec<T>(s: seq<T>, key: T -> seq<int>, asc: bool)
    ensures multiset(SortBy(s, key, asc)) == multiset(s)
    ensures Sorted(SortBy(s, key, asc), key, asc)
    ensures forall k :: Filter(SortBy(s, key, asc), KeyIs(key, k)) == Filter(s, KeyIs(key, k))
    decreases |s|
  {
    if |s| > 0 {
      var rest := SortBy(s[1..], key, asc);
      SortBySpec(s[1..], key, asc);
      InsertPerm(s[0], rest, key, asc);
      InsertSorted(s[0], rest, key, asc);
      assert s == [s[0]] + s[1..];
      forall k
        ensures Filter(SortBy(s, key, asc), KeyIs(key, k)) == Filter(s, KeyIs(key, k))
      {
        InsertKeepsKeyOrder(s[0], rest, key, asc, k);
        FilterSingleton(s[0], KeyIs(key, k));
      }
    }
  }

  /** When every key is the same the sort changes nothing. */
  lemma SortByConstantKey<T>(s: seq<T>, key: T -> seq<int>, asc: bool, k: seq<int>)
    requires forall i :: 0 <= i < |s| ==> key(s[i]) == k
    ensures SortBy(s, key, asc) == s
  {
    SortBySpec(s, key, asc);
    FilterAll(s, KeyIs(key, k));
    var r := SortBy(s, key, asc);
    forall y | y in r
      ensures KeyIs(key, k)(y)
    {
      assert y in multiset(r);
      assert y in multiset(s);
    }
    FilterAll(r, KeyIs(key, k));
  }
}
