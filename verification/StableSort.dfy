/** Sorting by a key so that items with equal keys keep their order. */
module StableSort {

  ghost predicate StrictTotalOrder<K(!new)>(less: (K, K) -> bool) {
    && (forall a :: !less(a, a))
    && (forall a, b, c :: less(a, b) && less(b, c) ==> less(a, c))
    && (forall a, b :: a == b || less(a, b) || less(b, a))
  }

  /** `a` placed before the first item that is not smaller: it came before all of them. */
  function Placed<T, K>(a: T, items: seq<T>, key: T -> K, less: (K, K) -> bool): seq<T> {
    if items == [] || !less(key(items[0]), key(a)) then [a] + items else [items[0]] + Placed(a, items[1..], key, less)
  }

  function Sorted<T, K>(items: seq<T>, key: T -> K, less: (K, K) -> bool): seq<T> {
    if items == [] then [] else Placed(items[0], Sorted(items[1..], key, less), key, less)
  }

  /** No item is smaller than the one before it. */
  predicate InOrder<T, K>(items: seq<T>, key: T -> K, less: (K, K) -> bool) {
    |items| <= 1 || (!less(key(items[1]), key(items[0])) && InOrder(items[1..], key, less))
  }

  /** The items with one key, in their order. */
  function WithKey<T, K(==)>(items: seq<T>, key: T -> K, k: K): seq<T> {
    if items == [] then [] else (if key(items[0]) == k then [items[0]] else []) + WithKey(items[1..], key, k)
  }

  /** The same items, with those of one key in the same order. */
  ghost predicate StableRearrangement<T, K(!new)>(a: seq<T>, b: seq<T>, key: T -> K) {
    forall k :: WithKey(a, key, k) == WithKey(b, key, k)
  }

  lemma {:induction false} PlacedInOrder<T, K(!new)>(a: T, items: seq<T>, key: T -> K, less: (K, K) -> bool)
    requires StrictTotalOrder(less) && InOrder(items, key, less)
    ensures InOrder(Placed(a, items, key, less), key, less)
  {
    if items != [] && less(key(items[0]), key(a)) {
      PlacedInOrder(a, items[1..], key, less);
      assert !less(key(a), key(items[0]));
    }
  }

  lemma WithKeyCons<T, K>(a: T, items: seq<T>, key: T -> K, k: K)
    ensures WithKey([a] + items, key, k) == (if key(a) == k then [a] else []) + WithKey(items, key, k)
  {
    assert ([a] + items)[1..] == items;
  }

  /** At most one of two parts is there, so they can change places. */
  lemma OneOfTwo<T>(a: seq<T>, b: seq<T>, c: seq<T>)
    requires a == [] || b == []
    ensures a + (b + c) == b + (a + c)
  {
  }

  lemma {:induction false} PlacedWithKey<T, K>(a: T, items: seq<T>, key: T -> K, less: (K, K) -> bool, k: K)
    requires forall i :: 0 <= i < |items| && less(key(items[i]), key(a)) ==> key(items[i]) != key(a)
    ensures WithKey(Placed(a, items, key, less), key, k) == (if key(a) == k then [a] else []) + WithKey(items, key, k)
  {
    if items != [] && less(key(items[0]), key(a)) {
      var b, rest := items[0], items[1..];
      PlacedWithKey(a, rest, key, less, k);
      WithKeyCons(b, Placed(a, rest, key, less), key, k);
      WithKeyCons(b, rest, key, k);
      assert items == [b] + rest;
      OneOfTwo(if key(b) == k then [b] else [], if key(a) == k then [a] else [], WithKey(rest, key, k));
    } else {
      WithKeyCons(a, items, key, k);
    }
  }

  /** The sorted list is in order, holds the same items, and keeps those of equal keys in the order given. */
  lemma {:induction false} SortedIsStable<T, K(!new)>(items: seq<T>, key: T -> K, less: (K, K) -> bool)
    requires StrictTotalOrder(less)
    ensures InOrder(Sorted(items, key, less), key, less)
    ensures StableRearrangement(items, Sorted(items, key, less), key)
  {
    if items != [] {
      var rest := Sorted(items[1..], key, less);
      SortedIsStable(items[1..], key, less);
      PlacedInOrder(items[0], rest, key, less);
      forall k ensures WithKey(items, key, k) == WithKey(Sorted(items, key, less), key, k) {
        PlacedWithKey(items[0], rest, key, less, k);
      }
    }
  }

  /** In an ordered list no later item is smaller than an earlier one. */
  lemma {:induction false} NeverBackwards<T, K(!new)>(items: seq<T>, key: T -> K, less: (K, K) -> bool, i: nat, j: nat)
    requires StrictTotalOrder(less) && InOrder(items, key, less) && i < j < |items|
    ensures !less(key(items[j]), key(items[i]))
    decreases |items|
  {
    if i > 0 {
      NeverBackwards(items[1..], key, less, i - 1, j - 1);
    } else if j > 1 {
      NeverBackwards(items[1..], key, less, 0, j - 1);
      assert key(items[0]) == key(items[1]) || less(key(items[0]), key(items[1]));
    }
  }

  lemma {:induction false} KeyIsThere<T, K>(items: seq<T>, key: T -> K, k: K) returns (i: nat)
    requires WithKey(items, key, k) != []
    ensures i < |items| && key(items[i]) == k
  {
    if key(items[0]) == k {
      i := 0;
    } else {
      i := KeyIsThere(items[1..], key, k);
      i := i + 1;
    }
  }

  lemma HeadNotBeaten<T, K(!new)>(a: seq<T>, b: seq<T>, key: T -> K, less: (K, K) -> bool)
    requires StrictTotalOrder(less) && InOrder(b, key, less) && StableRearrangement(a, b, key) && a != []
    ensures b != [] && !less(key(a[0]), key(b[0]))
  {
    var k := key(a[0]);
    assert WithKey(a, key, k) == WithKey(b, key, k) && WithKey(a, key, k)[0] == a[0];
    var i := KeyIsThere(b, key, k);
    if i > 0 { NeverBackwards(b, key, less, 0, i); }
  }

  lemma HeadIsFirstWithKey<T, K>(items: seq<T>, key: T -> K)
    requires items != []
    ensures WithKey(items, key, key(items[0])) == [items[0]] + WithKey(items[1..], key, key(items[0]))
  {
  }

  lemma HeadSkipped<T, K>(items: seq<T>, key: T -> K, k: K)
    requires items != [] && key(items[0]) != k
    ensures WithKey(items, key, k) == WithKey(items[1..], key, k)
  {
  }

  lemma TailsRearranged<T, K(!new)>(a: seq<T>, b: seq<T>, key: T -> K)
    requires StableRearrangement(a, b, key) && a != [] && b != [] && key(a[0]) == key(b[0])
    ensures a[0] == b[0] && StableRearrangement(a[1..], b[1..], key)
  {
    HeadIsFirstWithKey(a, key);
    HeadIsFirstWithKey(b, key);
    assert WithKey(a, key, key(a[0])) == WithKey(b, key, key(a[0]));
    SameTail(a[0], WithKey(a[1..], key, key(a[0])), b[0], WithKey(b[1..], key, key(a[0])));
    forall k ensures WithKey(a[1..], key, k) == WithKey(b[1..], key, k) {
      assert WithKey(a, key, k) == WithKey(b, key, k);
      if k != key(a[0]) {
        HeadSkipped(a, key, k);
        HeadSkipped(b, key, k);
      }
    }
  }

  lemma SameTail<T>(x: T, a: seq<T>, y: T, b: seq<T>)
    requires [x] + a == [y] + b
    ensures x == y && a == b
  {
    assert ([x] + a)[0] == x && ([y] + b)[0] == y;
    assert ([x] + a)[1..] == a && ([y] + b)[1..] == b;
  }

  /** There is only one such list, so it does not matter which stable sort is used. */
  lemma {:induction false} StableSortUnique<T, K(!new)>(a: seq<T>, b: seq<T>, key: T -> K, less: (K, K) -> bool)
    requires StrictTotalOrder(less)
    requires InOrder(a, key, less) && InOrder(b, key, less) && StableRearrangement(a, b, key)
    ensures a == b
  {
    if a != [] || b != [] {
      if a != [] { HeadNotBeaten(a, b, key, less); }
      if b != [] { HeadNotBeaten(b, a, key, less); }
      TailsRearranged(a, b, key);
      StableSortUnique(a[1..], b[1..], key, less);
      assert a == [a[0]] + a[1..] && b == [b[0]] + b[1..];
    }
  }
}
