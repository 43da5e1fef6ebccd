/** Python's sorted() with an integer key: a stable sort, written as an
    insertion sort. */
module Sorting {

  ghost predicate SortedBy<T>(s: seq<T>, key: T -> int)
  {
    forall i, j :: 0 <= i < j < |s| ==> key(s[i]) <= key(s[j])
  }

  /** x inserted in front of the first element whose key is not smaller,
      so that x stays ahead of the elements with an equal key. */
  function Insert<T>(x: T, s: seq<T>, key: T -> int): (r: seq<T>)
    ensures |r| == |s| + 1
    ensures multiset(r) == multiset(s) + multiset{x}
  {
    if s == [] || key(x) <= key(s[0]) then [x] + s
    else
      assert s == [s[0]] + s[1..];
      [s[0]] + Insert(x, s[1..], key)
  }

  /** The elements of s ordered by key, equal keys in their original order
      (SortByStable). */
  function SortBy<T>(s: seq<T>, key: T -> int): (r: seq<T>)
    ensures |r| == |s|
    ensures multiset(r) == multiset(s)
  {
    if s == [] then []
    else
      assert s == [s[0]] + s[1..];
      Insert(s[0], SortBy(s[1..], key), key)
  }

  lemma {:induction false} InsertSorted<T>(x: T, s: seq<T>, key: T -> int)
    requires SortedBy(s, key)
    ensures SortedBy(Insert(x, s, key), key)
    ensures Insert(x, s, key) != [] &&
      (key(Insert(x, s, key)[0]) == key(x) || (s != [] && key(Insert(x, s, key)[0]) == key(s[0])))
  {
    if s == [] || key(x) <= key(s[0]) {
    } else {
      var tail := s[1..];
      assert SortedBy(tail, key);
      InsertSorted(x, tail, key);
      var r := Insert(x, s, key);
      assert r == [s[0]] + Insert(x, tail, key);
      forall i, j | 0 <= i < j < |r| ensures key(r[i]) <= key(r[j]) {
        if i == 0 && j > 1 {
          assert r[j] == Insert(x, tail, key)[j - 1];
          assert r[j] in multiset(Insert(x, tail, key));
          assert r[j] in multiset(tail) + multiset{x};
          if r[j] in multiset(tail) {
            var k :| 0 <= k < |tail| && tail[k] == r[j];
            assert s[k + 1] == tail[k];
          }
        } else if i == 0 && j == 1 {
          assert r[1] == Insert(x, tail, key)[0];
          if tail != [] {
            assert s[1] == tail[0];
          }
        }
      }
    }
  }

  /** The result is sorted by key. */
  lemma {:induction false} SortByIsSorted<T>(s: seq<T>, key: T -> int)
    ensures SortedBy(SortBy(s, key), key)
  {
    if s != [] {
      SortByIsSorted(s[1..], key);
      InsertSorted(s[0], SortBy(s[1..], key), key);
    }
  }

  /** The elements of s whose key is v, in their order in s. */
  function WithKey<T>(s: seq<T>, key: T -> int, v: int): seq<T>
  {
    if s == [] then [] else (if key(s[0]) == v then [s[0]] else []) + WithKey(s[1..], key, v)
  }

  /** Insert passes only elements with a smaller key, so x lands ahead of
      every element with its key and the others keep their order. */
  lemma {:induction false} InsertWithKey<T>(x: T, s: seq<T>, key: T -> int, v: int)
    ensures WithKey(Insert(x, s, key), key, v) == (if key(x) == v then [x] else []) + WithKey(s, key, v)
  {
    var r := Insert(x, s, key);
    if s == [] || key(x) <= key(s[0]) {
      assert r[0] == x && r[1..] == s;
    } else {
      InsertWithKey(x, s[1..], key, v);
      assert r[0] == s[0] && r[1..] == Insert(x, s[1..], key);
      var head := if key(s[0]) == v then [s[0]] else [];
      var mine := if key(x) == v then [x] else [];
      assert head == [] || mine == [];
      calc {
        WithKey(r, key, v);
        head + (mine + WithKey(s[1..], key, v));
        { assert head + mine == mine + head; }
        mine + (head + WithKey(s[1..], key, v));
      }
    }
  }

  /** The sort is stable: the elements with any one key come out in the
      order they went in. */
  lemma {:induction false} SortByStable<T>(s: seq<T>, key: T -> int, v: int)
    ensures WithKey(SortBy(s, key), key, v) == WithKey(s, key, v)
  {
    if s != [] {
      SortByStable(s[1..], key, v);
      InsertWithKey(s[0], SortBy(s[1..], key), key, v);
    }
  }

  /** A sequence that is already sorted comes back unchanged. */
  lemma {:induction false} SortBySortedIsIdentity<T>(s: seq<T>, key: T -> int)
    requires SortedBy(s, key)
    ensures SortBy(s, key) == s
  {
    if s != [] {
      var tail := s[1..];
      assert SortedBy(tail, key);
      SortBySortedIsIdentity(tail, key);
      if tail != [] {
        assert key(s[0]) <= key(tail[0]);
      }
      assert s == [s[0]] + tail;
    }
  }
}
