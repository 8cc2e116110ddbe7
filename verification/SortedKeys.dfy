/** Canonical file keys, in the order in which both lock protocols sort them. */
module SortedKeys {

  /** A canonical path; only equality and the sort order matter, so a path is its rank. */
  type Key = int

  ghost predicate Ascending(s: seq<Key>) {
    forall i, j | 0 <= i < j < |s| :: s[i] < s[j]
  }

  function Insert(s: seq<Key>, k: Key): (r: seq<Key>)
    requires Ascending(s)
    ensures Ascending(r)
    ensures forall x :: x in r <==> x == k || x in s
  {
    if s == [] then [k]
    else if k < s[0] then [k] + s
    else if k == s[0] then s
    else
      assert s == [s[0]] + s[1..];
      var rest := Insert(s[1..], k);
      assert forall j | 0 <= j < |rest| :: rest[j] in rest;
      [s[0]] + rest
  }

  /** `[...new Set(keys)].sort()` and `sorted({...})`. */
  function SortedSet(s: seq<Key>): (r: seq<Key>)
    ensures Ascending(r)
    ensures forall x :: x in r <==> x in s
  {
    if s == [] then []
    else
      assert s == [s[0]] + s[1..];
      Insert(SortedSet(s[1..]), s[0])
  }

  lemma {:induction false} SortedSetOfAscending(s: seq<Key>)
    requires Ascending(s)
    ensures SortedSet(s) == s
  {
    if s != [] {
      SortedSetOfAscending(s[1..]);
      assert s == [s[0]] + s[1..];
    }
  }

  lemma {:induction false} SortedSetNoLonger(s: seq<Key>)
    ensures |SortedSet(s)| <= |s|
  {
    if s != [] {
      SortedSetNoLonger(s[1..]);
      InsertOneAtMost(SortedSet(s[1..]), s[0]);
    }
  }

  lemma {:induction false} InsertOneAtMost(s: seq<Key>, k: Key)
    requires Ascending(s)
    ensures |Insert(s, k)| <= |s| + 1
  {
    if s != [] && k > s[0] {
      InsertOneAtMost(s[1..], k);
    }
  }
}
