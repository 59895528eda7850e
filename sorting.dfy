/**
  The stable sort that Python's `list.sort` and JavaScript's
  `Array.prototype.sort` perform, written as an insertion sort over a
  "goes no later than" test `le`.
*/
module Sorting {

  /** Put `x` right before the first element `e` of `s` with `le(x, e)`. */
  function Insert<T>(x: T, s: seq<T>, le: (T, T) -> bool): (r: seq<T>)
    ensures multiset(r) == multiset(s) + multiset{x}
    ensures |r| == |s| + 1
  {
    if s == [] then [x]
    else if le(x, s[0]) then [x] + s
    else
      var t := Insert(x, s[1..], le);
      assert s == [s[0]] + s[1..];
      [s[0]] + t
  }

  function SortWith<T>(s: seq<T>, le: (T, T) -> bool): (r: seq<T>)
    ensures multiset(r) == multiset(s)
    ensures |r| == |s|
  {
    if s == [] then []
    else
      assert s == [s[0]] + s[1..];
      Insert(s[0], SortWith(s[1..], le), le)
  }

  /** Ordering by an integer key: the comparison `key(a) - key(b) <= 0`. */
  function ByKey<T>(key: T -> int): (T, T) -> bool
  {
    (a: T, b: T) => key(a) <= key(b)
  }

  ghost predicate SortedBy<T>(s: seq<T>, key: T -> int)
  {
    forall i, j :: 0 <= i < j < |s| ==> key(s[i]) <= key(s[j])
  }

  /** The elements of `s` whose key is `k`, in their order in `s`. */
  function WithKey<T>(s: seq<T>, key: T -> int, k: int): seq<T>
  {
    if s == [] then []
    else (if key(s[0]) == k then [s[0]] else []) + WithKey(s[1..], key, k)
  }

  lemma {:induction false} InsertSorted<T>(x: T, s: seq<T>, key: T -> int)
    requires SortedBy(s, key)
    ensures SortedBy(Insert(x, s, ByKey(key)), key)
  {
    if s == [] {
    } else if key(x) <= key(s[0]) {
      var r := [x] + s;
      forall i, j | 0 <= i < j < |r| ensures key(r[i]) <= key(r[j]) {
        if i > 0 {
          assert r[i] == s[i - 1] && r[j] == s[j - 1];
        } else {
          assert r[j] == s[j - 1];
          assert key(s[0]) <= key(s[j - 1]);
        }
      }
    } else {
      var t := Insert(x, s[1..], ByKey(key));
      InsertSorted(x, s[1..], key);
      var r := [s[0]] + t;
      assert Insert(x, s, ByKey(key)) == r;
      forall i, j | 0 <= i < j < |r| ensures key(r[i]) <= key(r[j]) {
        if i > 0 {
          assert r[i] == t[i - 1] && r[j] == t[j - 1];
        } else {
          assert r[j] == t[j - 1];
          assert t[j - 1] in multiset(t);
          assert t[j - 1] in multiset(s[1..]) || t[j - 1] == x;
          if t[j - 1] != x {
            var m :| 0 <= m < |s[1..]| && s[1..][m] == t[j - 1];
            assert s[m + 1] == t[j - 1];
          }
        }
      }
    }
  }

  lemma {:induction false} InsertWithKey<T>(x: T, s: seq<T>, key: T -> int, k: int)
    ensures WithKey(Insert(x, s, ByKey(key)), key, k)
         == (if key(x) == k then [x] else []) + WithKey(s, key, k)
  {
    if s != [] {
      if key(x) <= key(s[0]) {
        assert ([x] + s)[1..] == s;
      } else {
        var t := Insert(x, s[1..], ByKey(key));
        InsertWithKey(x, s[1..], key, k);
        assert Insert(x, s, ByKey(key)) == [s[0]] + t;
        assert ([s[0]] + t)[1..] == t;
        var wx := if key(x) == k then [x] else [];
        var w0 := if key(s[0]) == k then [s[0]] else [];
        var rest := WithKey(s[1..], key, k);
        assert WithKey([s[0]] + t, key, k) == w0 + (wx + rest);
        assert WithKey(s, key, k) == w0 + rest;
        if key(x) == k {
          assert w0 == [];
          assert w0 + (wx + rest) == wx + (w0 + rest);
        } else {
          assert wx == [];
          assert w0 + (wx + rest) == wx + (w0 + rest);
        }
      }
    } else {
      assert [x][1..] == [];
    }
  }

  /** The sort leaves the elements in ascending key order. */
  lemma {:induction false} SortSorted<T>(s: seq<T>, key: T -> int)
    ensures SortedBy(SortWith(s, ByKey(key)), key)
  {
    if s != [] {
      SortSorted(s[1..], key);
      InsertSorted(s[0], SortWith(s[1..], ByKey(key)), key);
    }
  }

  /** The sort is stable: elements with equal keys keep their relative order. */
  lemma {:induction false} SortStable<T>(s: seq<T>, key: T -> int, k: int)
    ensures WithKey(SortWith(s, ByKey(key)), key, k) == WithKey(s, key, k)
  {
    if s != [] {
      SortStable(s[1..], key, k);
      InsertWithKey(s[0], SortWith(s[1..], ByKey(key)), key, k);
    }
  }

  /** Two tests that agree on the elements being sorted give the same order. */
  lemma {:induction false} SortAgree<T>(s: seq<T>, le1: (T, T) -> bool, le2: (T, T) -> bool)
    requires forall a, b :: a in s && b in s ==> le1(a, b) == le2(a, b)
    ensures SortWith(s, le1) == SortWith(s, le2)
  {
    if s != [] {
      assert s == [s[0]] + s[1..];
      SortAgree(s[1..], le1, le2);
      InsertAgree(s[0], SortWith(s[1..], le1), le1, le2, s);
    }
  }

  lemma {:induction false} InsertAgree<T>(x: T, t: seq<T>, le1: (T, T) -> bool, le2: (T, T) -> bool, s: seq<T>)
    requires x in s && multiset(t) <= multiset(s)
    requires forall a, b :: a in s && b in s ==> le1(a, b) == le2(a, b)
    ensures Insert(x, t, le1) == Insert(x, t, le2)
  {
    if t != [] {
      assert t[0] in multiset(t);
      assert multiset(t[1..]) <= multiset(t) by { assert t == [t[0]] + t[1..]; }
      InsertAgree(x, t[1..], le1, le2, s);
    }
  }
}
