/** Stable sorting, largest key first. */
module StableSort {

  function InsertDesc<T>(x: T, s: seq<T>, key: T -> int): seq<T>
    decreases |s|
  {
    if s == [] || key(x) >= key(s[0]) then [x] + s else [s[0]] + InsertDesc(x, s[1..], key)
  }

  function SortDesc<T>(s: seq<T>, key: T -> int): seq<T>
    decreases |s|
  {
    if s == [] then [] else InsertDesc(s[0], SortDesc(s[1..], key), key)
  }

  predicate Descending<T>(s: seq<T>, key: T -> int) {
    forall i, j | 0 <= i < j < |s| :: key(s[i]) >= key(s[j])
  }

  lemma {:induction false} InsertKeepsItems<T>(x: T, s: seq<T>, key: T -> int)
    ensures multiset(InsertDesc(x, s, key)) == multiset(s) + multiset{x}
    decreases |s|
  {
    if s != [] && key(x) < key(s[0]) {
      InsertKeepsItems(x, s[1..], key);
      assert s == [s[0]] + s[1..];
    }
  }

  lemma {:induction false} SortKeepsItems<T>(s: seq<T>, key: T -> int)
    ensures multiset(SortDesc(s, key)) == multiset(s)
    ensures |SortDesc(s, key)| == |s|
    decreases |s|
  {
    if s != [] {
      SortKeepsItems(s[1..], key);
      InsertKeepsItems(s[0], SortDesc(s[1..], key), key);
      assert s == [s[0]] + s[1..];
    }
    assert |multiset(SortDesc(s, key))| == |SortDesc(s, key)| && |multiset(s)| == |s|;
  }

  lemma {:induction false} InsertKeepsOrder<T>(x: T, s: seq<T>, key: T -> int)
    requires Descending(s, key)
    ensures Descending(InsertDesc(x, s, key), key)
    decreases |s|
  {
    if s != [] && key(x) < key(s[0]) {
      InsertKeepsOrder(x, s[1..], key);
      var rest := InsertDesc(x, s[1..], key);
      InsertKeepsItems(x, s[1..], key);
      forall i | 0 <= i < |rest|
        ensures key(s[0]) >= key(rest[i])
      {
        assert rest[i] in multiset(rest);
        if rest[i] != x {
          assert rest[i] in s[1..];
        }
      }
    }
  }

  lemma {:induction false} SortIsDescending<T>(s: seq<T>, key: T -> int)
    ensures Descending(SortDesc(s, key), key)
    decreases |s|
  {
    if s != [] {
      SortIsDescending(s[1..], key);
      InsertKeepsOrder(s[0], SortDesc(s[1..], key), key);
    }
  }

  /** The items with key `v`, in order. */
  function WithKey<T>(s: seq<T>, key: T -> int, v: int): seq<T>
    decreases |s|
  {
    if s == [] then []
    else if key(s[0]) == v then [s[0]] + WithKey(s[1..], key, v)
    else WithKey(s[1..], key, v)
  }

  lemma {:induction false} InsertIsStable<T>(x: T, s: seq<T>, key: T -> int, v: int)
    ensures WithKey(InsertDesc(x, s, key), key, v) == if key(x) == v then [x] + WithKey(s, key, v) else WithKey(s, key, v)
    decreases |s|
  {
    if s == [] || key(x) >= key(s[0]) {
      assert ([x] + s)[1..] == s;
    } else {
      InsertIsStable(x, s[1..], key, v);
      assert ([s[0]] + InsertDesc(x, s[1..], key))[1..] == InsertDesc(x, s[1..], key);
    }
  }

  /** Items with equal keys keep their order. */
  lemma {:induction false} SortIsStable<T>(s: seq<T>, key: T -> int, v: int)
    ensures WithKey(SortDesc(s, key), key, v) == WithKey(s, key, v)
    decreases |s|
  {
    if s != [] {
      SortIsStable(s[1..], key, v);
      InsertIsStable(s[0], SortDesc(s[1..], key), key, v);
    }
  }

  lemma SortSameItem<T>(s: seq<T>, key: T -> int, x: T)
    ensures x in SortDesc(s, key) <==> x in s
  {
    SortKeepsItems(s, key);
    assert x in SortDesc(s, key) <==> x in multiset(SortDesc(s, key));
    assert x in s <==> x in multiset(s);
  }

  /** Sorting a sequence that is already in order changes nothing. */
  lemma {:induction false} SortOfSorted<T>(s: seq<T>, key: T -> int)
    requires Descending(s, key)
    ensures SortDesc(s, key) == s
    decreases |s|
  {
    if s != [] {
      SortOfSorted(s[1..], key);
      assert s == [s[0]] + s[1..];
    }
  }

  lemma {:induction false} InsertSameKeys<T>(x: T, s: seq<T>, key: T -> int, other: T -> int)
    requires key(x) == other(x) && forall y | y in s :: key(y) == other(y)
    ensures InsertDesc(x, s, key) == InsertDesc(x, s, other)
    decreases |s|
  {
    if s != [] && key(x) < key(s[0]) {
      InsertSameKeys(x, s[1..], key, other);
    }
  }

  /** The order depends only on the keys of the items. */
  lemma {:induction false} SortSameKeys<T>(s: seq<T>, key: T -> int, other: T -> int)
    requires forall y | y in s :: key(y) == other(y)
    ensures SortDesc(s, key) == SortDesc(s, other)
    decreases |s|
  {
    if s != [] {
      var sorted := SortDesc(s[1..], key);
      SortSameKeys(s[1..], key, other);
      forall y | y in sorted
        ensures key(y) == other(y)
      {
        SortSameItem(s[1..], key, y);
      }
      InsertSameKeys(s[0], sorted, key, other);
    }
  }
}
