/**
 * Swift's `sorted(by: { key($0) > key($1) })`: a stable sort into descending
 * order of an integer key, written as an insertion sort.
 */
module Sorting {

  predicate SortedDesc<T>(key: T -> int, s: seq<T>)
  {
    forall i, j :: 0 <= i < j < |s| ==> key(s[i]) >= key(s[j])
  }

  /** Puts `e` in front of the first element whose key is not above its own. */
  function InsertDesc<T>(key: T -> int, e: T, s: seq<T>): seq<T>
    decreases |s|
  {
    if s == [] || key(e) >= key(s[0]) then [e] + s else [s[0]] + InsertDesc(key, e, s[1..])
  }

  /** Insertion sort by descending key; elements with equal keys keep their order. */
  function SortDesc<T>(key: T -> int, s: seq<T>): seq<T>
    decreases |s|
  {
    if s == [] then [] else InsertDesc(key, s[0], SortDesc(key, s[1..]))
  }

  lemma {:induction false} InsertDescPermutes<T>(key: T -> int, e: T, s: seq<T>)
    ensures multiset(InsertDesc(key, e, s)) == multiset(s) + multiset{e}
    decreases |s|
  {
    if !(s == [] || key(e) >= key(s[0])) {
      InsertDescPermutes(key, e, s[1..]);
      assert InsertDesc(key, e, s) == [s[0]] + InsertDesc(key, e, s[1..]);
      assert s == [s[0]] + s[1..];
    }
  }

  lemma ConsSorted<T>(key: T -> int, x: T, t: seq<T>)
    requires SortedDesc(key, t)
    requires forall j :: 0 <= j < |t| ==> key(t[j]) <= key(x)
    ensures SortedDesc(key, [x] + t)
  {
    var r := [x] + t;
    forall i, j | 0 <= i < j < |r| ensures key(r[i]) >= key(r[j]) {
      assert r[j] == t[j - 1];
      if i > 0 {
        assert r[i] == t[i - 1];
      }
    }
  }

  lemma {:induction false} InsertDescCorrect<T>(key: T -> int, e: T, s: seq<T>)
    requires SortedDesc(key, s)
    ensures SortedDesc(key, InsertDesc(key, e, s))
    ensures multiset(InsertDesc(key, e, s)) == multiset(s) + multiset{e}
    decreases |s|
  {
    InsertDescPermutes(key, e, s);
    if s == [] || key(e) >= key(s[0]) {
      assert InsertDesc(key, e, s) == [e] + s;
      ConsSorted(key, e, s);
    } else {
      InsertDescCorrect(key, e, s[1..]);
      var t := InsertDesc(key, e, s[1..]);
      assert InsertDesc(key, e, s) == [s[0]] + t;
      forall j | 0 <= j < |t| ensures key(t[j]) <= key(s[0]) {
        assert t[j] in multiset(s[1..]) + multiset{e};
        if t[j] != e {
          assert t[j] in s[1..];
        }
      }
      ConsSorted(key, s[0], t);
    }
  }

  /** The result is ordered by descending key and is a permutation of the input. */
  lemma {:induction false} SortDescCorrect<T>(key: T -> int, s: seq<T>)
    ensures SortedDesc(key, SortDesc(key, s))
    ensures multiset(SortDesc(key, s)) == multiset(s)
    decreases |s|
  {
    if s != [] {
      SortDescCorrect(key, s[1..]);
      InsertDescCorrect(key, s[0], SortDesc(key, s[1..]));
      assert s == [s[0]] + s[1..];
    }
  }

  /** The elements of `s` whose key is `v`, in their order in `s`. */
  function WithKey<T>(key: T -> int, s: seq<T>, v: int): seq<T>
    decreases |s|
  {
    if s == [] then [] else (if key(s[0]) == v then [s[0]] else []) + WithKey(key, s[1..], v)
  }

  lemma WithKeyCons<T>(key: T -> int, x: T, t: seq<T>, v: int)
    ensures WithKey(key, [x] + t, v) == (if key(x) == v then [x] else []) + WithKey(key, t, v)
  {
    assert ([x] + t)[0] == x;
    assert ([x] + t)[1..] == t;
  }

  lemma {:induction false} InsertDescStable<T>(key: T -> int, e: T, s: seq<T>, v: int)
    ensures WithKey(key, InsertDesc(key, e, s), v) == (if key(e) == v then [e] else []) + WithKey(key, s, v)
    decreases |s|
  {
    if s == [] || key(e) >= key(s[0]) {
      assert InsertDesc(key, e, s) == [e] + s;
      WithKeyCons(key, e, s, v);
    } else {
      var t := InsertDesc(key, e, s[1..]);
      assert InsertDesc(key, e, s) == [s[0]] + t;
      InsertDescStable(key, e, s[1..], v);
      WithKeyCons(key, s[0], t, v);
      WithKeyCons(key, s[0], s[1..], v);
      assert [s[0]] + s[1..] == s;
    }
  }

  /** Stability: for every key value, the elements carrying it keep their relative order. */
  lemma {:induction false} SortDescStable<T>(key: T -> int, s: seq<T>, v: int)
    ensures WithKey(key, SortDesc(key, s), v) == WithKey(key, s, v)
    decreases |s|
  {
    if s != [] {
      SortDescStable(key, s[1..], v);
      InsertDescStable(key, s[0], SortDesc(key, s[1..]), v);
    }
  }
}
