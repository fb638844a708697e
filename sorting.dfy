/** `Array.prototype.sort` with a comparator `(a, b) => key(b) - key(a)`:
    a stable sort into descending order of an integer key. The language has
    required `sort` to be stable since ECMAScript 2019, so elements with
    equal keys keep their original relative order. The model is an
    insertion sort; only its result matters to the callers. */
module Sorting {

  ghost predicate SortedDesc<T>(s: seq<T>, key: T -> int) {
    forall i, j :: 0 <= i < j < |s| ==> key(s[i]) >= key(s[j])
  }

  /** Places `x` in front of the first element whose key is not larger. */
  function Insert<T>(x: T, s: seq<T>, key: T -> int): (r: seq<T>)
    ensures multiset(r) == multiset(s) + multiset{x}
  {
    if s == [] || key(s[0]) <= key(x) then [x] + s
    else
      assert s == [s[0]] + s[1..];
      [s[0]] + Insert(x, s[1..], key)
  }

  lemma {:induction false} InsertSorted<T>(x: T, s: seq<T>, key: T -> int)
    requires SortedDesc(s, key)
    ensures SortedDesc(Insert(x, s, key), key)
  {
    if s == [] || key(s[0]) <= key(x) {
    } else {
      var t := Insert(x, s[1..], key);
      InsertSorted(x, s[1..], key);
      forall j | 0 <= j < |t|
        ensures key(s[0]) >= key(t[j])
      {
        assert t[j] in multiset(t);
        assert t[j] in multiset(s[1..]) + multiset{x};
        if t[j] != x {
          var i :| 0 <= i < |s[1..]| && s[1..][i] == t[j];
          assert s[i + 1] == t[j];
        }
      }
      var r := [s[0]] + t;
      forall i, j | 0 <= i < j < |r|
        ensures key(r[i]) >= key(r[j])
      {
        if i > 0 { assert r[i] == t[i - 1] && r[j] == t[j - 1]; }
        else { assert r[j] == t[j - 1]; }
      }
    }
  }

  function SortDesc<T>(s: seq<T>, key: T -> int): (r: seq<T>)
    ensures multiset(r) == multiset(s)
    ensures SortedDesc(r, key)
  {
    if s == [] then []
    else
      assert s == [s[0]] + s[1..];
      var t := SortDesc(s[1..], key);
      InsertSorted(s[0], t, key);
      Insert(s[0], t, key)
  }

  /** The elements of `s` whose key is `k`, in their order in `s`. */
  function Tier<T>(s: seq<T>, key: T -> int, k: int): (r: seq<T>)
    ensures forall x :: x in r ==> x in s && key(x) == k
    ensures forall x :: x in s && key(x) == k ==> x in r
  {
    if s == [] then []
    else (if key(s[0]) == k then [s[0]] else []) + Tier(s[1..], key, k)
  }

  /** The filter keeps relative order: it distributes over concatenation. */
  lemma {:induction false} TierAppend<T>(a: seq<T>, b: seq<T>, key: T -> int, k: int)
    ensures Tier(a + b, key, k) == Tier(a, key, k) + Tier(b, key, k)
  {
    if a == [] {
      assert a + b == b;
    } else {
      assert (a + b)[0] == a[0] && (a + b)[1..] == a[1..] + b;
      TierAppend(a[1..], b, key, k);
    }
  }

  lemma {:induction false} TierOfInsert<T>(x: T, s: seq<T>, key: T -> int, k: int)
    ensures Tier(Insert(x, s, key), key, k) == (if key(x) == k then [x] else []) + Tier(s, key, k)
  {
    if s == [] || key(s[0]) <= key(x) {
      var r := [x] + s;
      assert r[0] == x && r[1..] == s;
    } else {
      var t := Insert(x, s[1..], key);
      var r := [s[0]] + t;
      assert r[0] == s[0] && r[1..] == t;
      assert Tier(r, key, k) == (if key(s[0]) == k then [s[0]] else []) + Tier(t, key, k);
      TierOfInsert(x, s[1..], key, k);
      assert Tier(s, key, k) == (if key(s[0]) == k then [s[0]] else []) + Tier(s[1..], key, k);
    }
  }

  /** Stability: sorting does not reorder the elements of one key. */
  lemma {:induction false} SortKeepsTier<T>(s: seq<T>, key: T -> int, k: int)
    ensures Tier(SortDesc(s, key), key, k) == Tier(s, key, k)
  {
    if s != [] {
      SortKeepsTier(s[1..], key, k);
      TierOfInsert(s[0], SortDesc(s[1..], key), key, k);
    }
  }

  /** The head of the sorted sequence carries the largest key. */
  lemma SortedHeadIsMax<T>(s: seq<T>, key: T -> int)
    requires |s| > 0
    ensures |SortDesc(s, key)| == |s|
    ensures SortDesc(s, key)[0] in s
    ensures forall x :: x in s ==> key(x) <= key(SortDesc(s, key)[0])
  {
    var r := SortDesc(s, key);
    assert |r| == |multiset(r)| == |multiset(s)| == |s|;
    assert r[0] in multiset(s);
    forall x | x in s
      ensures key(x) <= key(r[0])
    {
      assert x in multiset(r);
      var i :| 0 <= i < |r| && r[i] == x;
      assert i == 0 || key(r[0]) >= key(r[i]);
    }
  }
}
