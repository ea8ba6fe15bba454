/** `list.sort(key=...)`: ascending by key, equal keys in their old order. */
module Sorting {

  /** `x` goes in front of the first element whose key is not smaller. */
  function Insert<T>(x: T, xs: seq<T>, key: T -> int): seq<T> {
    if xs == [] then [x]
    else if key(x) <= key(xs[0]) then [x] + xs
    else [xs[0]] + Insert(x, xs[1..], key)
  }

  function StableSort<T>(xs: seq<T>, key: T -> int): seq<T> {
    if xs == [] then [] else Insert(xs[0], StableSort(xs[1..], key), key)
  }

  ghost predicate Sorted<T>(xs: seq<T>, key: T -> int) {
    forall i, j :: 0 <= i < j < |xs| ==> key(xs[i]) <= key(xs[j])
  }

  function IfKey<T>(x: T, key: T -> int, k: int): seq<T> {
    if key(x) == k then [x] else []
  }

  /** The elements with key `k`, in order. */
  function WithKey<T>(xs: seq<T>, key: T -> int, k: int): seq<T> {
    if xs == [] then []
    else IfKey(xs[0], key, k) + WithKey(xs[1..], key, k)
  }

  lemma {:induction false} InsertElements<T>(x: T, xs: seq<T>, key: T -> int)
    ensures multiset(Insert(x, xs, key)) == multiset([x]) + multiset(xs)
  {
    if xs != [] && key(x) > key(xs[0]) {
      InsertElements(x, xs[1..], key);
      assert xs == [xs[0]] + xs[1..];
    }
  }

  lemma {:induction false} InsertSorted<T>(x: T, xs: seq<T>, key: T -> int)
    requires Sorted(xs, key)
    ensures Sorted(Insert(x, xs, key), key)
  {
    if xs != [] && key(x) > key(xs[0]) {
      var rest := Insert(x, xs[1..], key);
      InsertSorted(x, xs[1..], key);
      InsertElements(x, xs[1..], key);
      forall i | 0 <= i < |rest| ensures key(xs[0]) <= key(rest[i]) {
        assert rest[i] in multiset(rest);
        assert rest[i] == x || rest[i] in xs[1..];
      }
    }
  }

  lemma WithKeyHead<T>(x: T, xs: seq<T>, key: T -> int, k: int)
    ensures WithKey([x] + xs, key, k) == IfKey(x, key, k) + WithKey(xs, key, k)
  {
    assert ([x] + xs)[1..] == xs;
  }

  lemma Exchange<T>(a: seq<T>, b: seq<T>, c: seq<T>)
    requires a == [] || b == []
    ensures a + (b + c) == b + (a + c)
  {
    assert [] + c == c;
  }

  lemma {:induction false} InsertStable<T>(x: T, xs: seq<T>, key: T -> int, k: int)
    ensures WithKey(Insert(x, xs, key), key, k) == IfKey(x, key, k) + WithKey(xs, key, k)
  {
    if xs == [] {
      WithKeyHead(x, xs, key, k);
    } else if key(x) <= key(xs[0]) {
      WithKeyHead(x, xs, key, k);
    } else {
      var head, tail := xs[0], xs[1..];
      InsertStable(x, tail, key, k);
      WithKeyHead(head, Insert(x, tail, key), key, k);
      assert xs == [head] + tail;
      WithKeyHead(head, tail, key, k);
      Exchange(IfKey(head, key, k), IfKey(x, key, k), WithKey(tail, key, k));
    }
  }

  /** Sorting orders the list, keeps its elements, and keeps the order of those with equal keys. */
  lemma {:induction false} StableSortProperties<T>(xs: seq<T>, key: T -> int)
    ensures Sorted(StableSort(xs, key), key)
    ensures multiset(StableSort(xs, key)) == multiset(xs)
    ensures forall k :: WithKey(StableSort(xs, key), key, k) == WithKey(xs, key, k)
  {
    if xs == [] {
    } else {
      var rest := StableSort(xs[1..], key);
      StableSortProperties(xs[1..], key);
      InsertSorted(xs[0], rest, key);
      InsertElements(xs[0], rest, key);
      assert xs == [xs[0]] + xs[1..];
      forall k ensures WithKey(StableSort(xs, key), key, k) == WithKey(xs, key, k) {
        InsertStable(xs[0], rest, key, k);
      }
    }
  }

  lemma SortKeepsMembers<T>(xs: seq<T>, key: T -> int)
    ensures forall x :: x in StableSort(xs, key) <==> x in xs
  {
    StableSortProperties(xs, key);
    forall x ensures x in StableSort(xs, key) <==> x in xs {
      assert x in multiset(StableSort(xs, key)) <==> x in multiset(xs);
    }
  }
}
