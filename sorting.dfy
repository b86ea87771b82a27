/** Python's `sorted(xs, key=...)` on integer keys: the result is ordered by key,
    holds the same elements, and elements with equal keys keep their input order
    (Python's sort is stable). Modelled as an insertion sort that places each
    element after every element already placed with a key not greater than its
    own. */
module Sorting {

  predicate SortedBy<T>(s: seq<T>, key: T -> int) {
    forall i, j :: 0 <= i < j < |s| ==> key(s[i]) <= key(s[j])
  }

  /** The elements of `s` whose key is `k`, in their order in `s`. */
  function WithKey<T>(s: seq<T>, key: T -> int, k: int): seq<T>
  {
    if s == [] then [] else (if key(s[0]) == k then [s[0]] else []) + WithKey(s[1..], key, k)
  }

  /** Inserts `x` after every element of `s` whose key is not greater than its own. */
  function Insert<T>(x: T, s: seq<T>, key: T -> int): seq<T>
  {
    if s == [] then [x]
    else if key(s[0]) > key(x) then [x] + s
    else [s[0]] + Insert(x, s[1..], key)
  }

  /** Inserting adds `x` and nothing else. */
  lemma {:induction false} InsertCount<T>(x: T, s: seq<T>, key: T -> int)
    ensures |Insert(x, s, key)| == |s| + 1
    ensures multiset(Insert(x, s, key)) == multiset(s) + multiset{x}
    decreases |s|
  {
    if s != [] && key(s[0]) <= key(x) {
      InsertCount(x, s[1..], key);
      assert s == [s[0]] + s[1..];
    }
  }

  predicate KeysAtLeast<T>(s: seq<T>, key: T -> int, lo: int) {
    forall i :: 0 <= i < |s| ==> lo <= key(s[i])
  }

  lemma {:induction false} InsertKeysAtLeast<T>(x: T, s: seq<T>, key: T -> int, lo: int)
    requires KeysAtLeast(s, key, lo) && lo <= key(x)
    ensures KeysAtLeast(Insert(x, s, key), key, lo)
    decreases |s|
  {
    if s != [] && key(s[0]) <= key(x) {
      InsertKeysAtLeast(x, s[1..], key, lo);
    }
  }

  /** Inserting into a list ordered by key keeps it ordered. */
  lemma {:induction false} InsertSorted<T>(x: T, s: seq<T>, key: T -> int)
    requires SortedBy(s, key)
    ensures SortedBy(Insert(x, s, key), key)
    decreases |s|
  {
    if s != [] && key(s[0]) <= key(x) {
      InsertSorted(x, s[1..], key);
      InsertKeysAtLeast(x, s[1..], key, key(s[0]));
    }
  }

  /** `sorted(s, key=key)`. */
  function SortBy<T>(s: seq<T>, key: T -> int): seq<T>
  {
    if s == [] then [] else Insert(s[|s| - 1], SortBy(s[..|s| - 1], key), key)
  }

  // ------------------------------------------------------------------ properties

  predicate StrictlySortedBy<T>(s: seq<T>, key: T -> int) {
    forall i, j :: 0 <= i < j < |s| ==> key(s[i]) < key(s[j])
  }

  predicate DistinctKeys<T>(s: seq<T>, key: T -> int) {
    forall i, j :: 0 <= i < j < |s| ==> key(s[i]) != key(s[j])
  }

  /** The result holds exactly the elements of the input. */
  lemma SortByHas<T>(s: seq<T>, key: T -> int, y: T)
    ensures y in SortBy(s, key) <==> y in s
  {
    SortByCount(s, key);
    assert y in SortBy(s, key) <==> y in multiset(SortBy(s, key));
    assert y in s <==> y in multiset(s);
  }

  lemma {:induction false} InsertStrict<T>(x: T, s: seq<T>, key: T -> int)
    requires StrictlySortedBy(s, key)
    requires forall i :: 0 <= i < |s| ==> key(s[i]) != key(x)
    ensures StrictlySortedBy(Insert(x, s, key), key)
    decreases |s|
  {
    if s != [] && key(s[0]) <= key(x) {
      InsertStrict(x, s[1..], key);
      InsertKeysAtLeast(x, s[1..], key, key(s[0]) + 1);
    }
  }

  /** Sorting a list whose keys are pairwise distinct gives strictly ascending keys. */
  lemma {:induction false} SortByStrict<T>(s: seq<T>, key: T -> int)
    requires DistinctKeys(s, key)
    ensures StrictlySortedBy(SortBy(s, key), key)
    decreases |s|
  {
    if s != [] {
      var n := |s| - 1;
      var p := SortBy(s[..n], key);
      SortByStrict(s[..n], key);
      forall i | 0 <= i < |p| ensures key(p[i]) != key(s[n]) {
        SortByHas(s[..n], key, p[i]);
        assert p[i] in p;
        var j :| 0 <= j < n && s[..n][j] == p[i];
      }
      InsertStrict(s[n], p, key);
    }
  }

  /** The result is ordered by key. */
  lemma {:induction false} SortBySortedOrder<T>(s: seq<T>, key: T -> int)
    ensures SortedBy(SortBy(s, key), key)
    decreases |s|
  {
    if s != [] {
      var n := |s| - 1;
      SortBySortedOrder(s[..n], key);
      InsertSorted(s[n], SortBy(s[..n], key), key);
    }
  }

  /** The result holds the elements of the input. */
  lemma {:induction false} SortByCount<T>(s: seq<T>, key: T -> int)
    ensures multiset(SortBy(s, key)) == multiset(s)
    ensures |SortBy(s, key)| == |s|
    decreases |s|
  {
    if s != [] {
      var n := |s| - 1;
      var p := SortBy(s[..n], key);
      SortByCount(s[..n], key);
      InsertCount(s[n], p, key);
      var r := SortBy(s, key);
      assert r == Insert(s[n], p, key);
      assert multiset(s) == multiset(s[..n]) + multiset{s[n]} by {
        assert s == s[..n] + [s[n]];
      }
      assert multiset(r) == multiset(p) + multiset{s[n]};
    }
  }

  /** The result is ordered by key and is a permutation of the input. */
  lemma SortBySortedPermutation<T>(s: seq<T>, key: T -> int)
    ensures SortedBy(SortBy(s, key), key)
    ensures multiset(SortBy(s, key)) == multiset(s)
    ensures |SortBy(s, key)| == |s|
  {
    SortBySortedOrder(s, key);
    SortByCount(s, key);
  }

  lemma {:induction false} WithKeyAppend<T>(a: seq<T>, b: seq<T>, key: T -> int, k: int)
    ensures WithKey(a + b, key, k) == WithKey(a, key, k) + WithKey(b, key, k)
    decreases |a|
  {
    if a != [] {
      assert (a + b)[1..] == a[1..] + b;
      WithKeyAppend(a[1..], b, key, k);
    } else {
      assert a + b == b;
    }
  }

  lemma {:induction false} WithKeyAbove<T>(s: seq<T>, key: T -> int, k: int)
    requires SortedBy(s, key) && (s == [] || key(s[0]) > k)
    ensures WithKey(s, key, k) == []
    decreases |s|
  {
    if s != [] {
      if |s| > 1 {
        assert key(s[0]) <= key(s[1]);
      }
      WithKeyAbove(s[1..], key, k);
    }
  }

  /** Inserting `x` into a sorted list puts it after every element with its key. */
  lemma {:induction false} WithKeyInsert<T>(x: T, s: seq<T>, key: T -> int, k: int)
    requires SortedBy(s, key)
    ensures WithKey(Insert(x, s, key), key, k) == WithKey(s, key, k) + WithKey([x], key, k)
    decreases |s|
  {
    var r := Insert(x, s, key);
    assert [x][1..] == [];
    if s == [] {
      assert WithKey([x], key, k) == (if key(x) == k then [x] else []);
    } else if key(s[0]) > key(x) {
      assert r[1..] == s;
      if key(x) == k {
        WithKeyAbove(s, key, k);
      }
    } else {
      var h := if key(s[0]) == k then [s[0]] else [];
      assert SortedBy(s[1..], key) by {
        forall i, j | 0 <= i < j < |s| - 1 ensures key(s[1..][i]) <= key(s[1..][j]) {
          assert s[1..][i] == s[i + 1] && s[1..][j] == s[j + 1];
        }
      }
      WithKeyInsert(x, s[1..], key, k);
      assert r[1..] == Insert(x, s[1..], key);
      assert WithKey(r, key, k) == h + WithKey(r[1..], key, k);
      assert WithKey(s, key, k) == h + WithKey(s[1..], key, k);
    }
  }

  /** Stability: for every key, the elements with that key appear in the result
      in the order they had in the input. */
  lemma {:induction false} SortByStable<T>(s: seq<T>, key: T -> int, k: int)
    ensures WithKey(SortBy(s, key), key, k) == WithKey(s, key, k)
    decreases |s|
  {
    if s != [] {
      var n := |s| - 1;
      SortByStable(s[..n], key, k);
      SortBySortedOrder(s[..n], key);
      WithKeyInsert(s[n], SortBy(s[..n], key), key, k);
      assert s == s[..n] + [s[n]];
      WithKeyAppend(s[..n], [s[n]], key, k);
    }
  }

  /** All but the last element of a list in key order are in key order, and
      none has a key above the last one's. */
  lemma SortedInit<T>(s: seq<T>, key: T -> int)
    requires SortedBy(s, key) && s != []
    ensures SortedBy(s[..|s| - 1], key)
    ensures forall i :: 0 <= i < |s| - 1 ==> key(s[i]) <= key(s[|s| - 1])
  {
    var init := s[..|s| - 1];
    forall i, j | 0 <= i < j < |init| ensures key(init[i]) <= key(init[j]) {
      assert init[i] == s[i] && init[j] == s[j];
    }
  }

  /** A list already in key order is left as it is. */
  lemma {:induction false} SortBySorted<T>(s: seq<T>, key: T -> int)
    requires SortedBy(s, key)
    ensures SortBy(s, key) == s
    decreases |s|
  {
    if s != [] {
      var n := |s| - 1;
      var init := s[..n];
      SortedInit(s, key);
      SortBySorted(init, key);
      InsertAtEnd(s[n], init, key);
      assert s == init + [s[n]];
    }
  }

  lemma {:induction false} InsertAtEnd<T>(x: T, s: seq<T>, key: T -> int)
    requires forall i :: 0 <= i < |s| ==> key(s[i]) <= key(x)
    ensures Insert(x, s, key) == s + [x]
    decreases |s|
  {
    if s != [] {
      InsertAtEnd(x, s[1..], key);
      assert [s[0]] + (s[1..] + [x]) == s + [x];
    }
  }
}
