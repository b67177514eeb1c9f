/**
 Stable sorting by an integer key, as the planners and the rule engine do it.
 */
module StableSort {

  /** Inserts an element behind every element of the same or a lower key. */
  function Insert<T>(xs: seq<T>, x: T, key: T -> int): (out: seq<T>)
    ensures |out| == |xs| + 1
  {
    if |xs| == 0 || key(xs[|xs| - 1]) <= key(x) then xs + [x]
    else Insert(xs[..|xs| - 1], x, key) + [xs[|xs| - 1]]
  }

  function SortBy<T>(xs: seq<T>, key: T -> int): (out: seq<T>)
    ensures |out| == |xs|
  {
    if xs == [] then [] else Insert(SortBy(xs[..|xs| - 1], key), xs[|xs| - 1], key)
  }

  /** The elements of one key, in order. */
  function OfKey<T>(xs: seq<T>, key: T -> int, q: int): seq<T> {
    if xs == [] then []
    else OfKey(xs[..|xs| - 1], key, q) + (if key(xs[|xs| - 1]) == q then [xs[|xs| - 1]] else [])
  }

  ghost predicate InOrder<T>(xs: seq<T>, key: T -> int) {
    forall i, j :: 0 <= i < j < |xs| ==> key(xs[i]) <= key(xs[j])
  }

  lemma {:induction false} OfKeySnoc<T>(xs: seq<T>, x: T, key: T -> int, q: int)
    ensures OfKey(xs + [x], key, q) == OfKey(xs, key, q) + (if key(x) == q then [x] else [])
  {
    assert (xs + [x])[..|xs|] == xs;
  }

  lemma {:induction false} InsertSorts<T>(xs: seq<T>, x: T, key: T -> int, out: seq<T>)
    requires InOrder(xs, key) && out == Insert(xs, x, key)
    ensures InOrder(out, key)
    ensures forall i :: 0 <= i < |out| ==> key(out[i]) <= if xs != [] && key(xs[|xs| - 1]) > key(x) then key(xs[|xs| - 1]) else key(x)
    decreases |xs|
  {
    if xs != [] && key(xs[|xs| - 1]) > key(x) {
      InsertSorts(xs[..|xs| - 1], x, key, Insert(xs[..|xs| - 1], x, key));
    }
  }

  lemma {:induction false} InsertKeeps<T>(xs: seq<T>, x: T, key: T -> int, q: int)
    ensures OfKey(Insert(xs, x, key), key, q) == OfKey(xs, key, q) + (if key(x) == q then [x] else [])
    decreases |xs|
  {
    if xs == [] || key(xs[|xs| - 1]) <= key(x) {
      OfKeySnoc(xs, x, key, q);
    } else {
      var init, last := xs[..|xs| - 1], xs[|xs| - 1];
      InsertKeeps(init, x, key, q);
      OfKeySnoc(Insert(init, x, key), last, key, q);
    }
  }

  lemma {:induction false} InsertAdds<T>(xs: seq<T>, x: T, key: T -> int, out: seq<T>)
    requires out == Insert(xs, x, key)
    ensures multiset(out) == multiset(xs) + multiset{x}
    decreases |xs|
  {
    if xs != [] && key(xs[|xs| - 1]) > key(x) {
      InsertAdds(xs[..|xs| - 1], x, key, Insert(xs[..|xs| - 1], x, key));
      assert xs == xs[..|xs| - 1] + [xs[|xs| - 1]];
    }
  }

  /** Sorting orders by key and keeps all elements. */
  lemma {:induction false} SortSorts<T>(xs: seq<T>, key: T -> int)
    ensures InOrder(SortBy(xs, key), key) && multiset(SortBy(xs, key)) == multiset(xs)
    decreases |xs|
  {
    if xs != [] {
      var init, last := xs[..|xs| - 1], xs[|xs| - 1];
      SortSorts(init, key);
      InsertSorts(SortBy(init, key), last, key, SortBy(xs, key));
      InsertAdds(SortBy(init, key), last, key, SortBy(xs, key));
      assert xs == init + [last];
    }
  }

  /** Elements of the same key keep their order. */
  lemma {:induction false} SortIsStable<T>(xs: seq<T>, key: T -> int, q: int)
    ensures OfKey(SortBy(xs, key), key, q) == OfKey(xs, key, q)
    decreases |xs|
  {
    if xs != [] {
      var init, last := xs[..|xs| - 1], xs[|xs| - 1];
      SortIsStable(init, key, q);
      InsertKeeps(SortBy(init, key), last, key, q);
    }
  }

  /** What holds of every element before holds of every element after. */
  lemma {:induction false} SortKeepsMembers<T>(xs: seq<T>, key: T -> int, x: T)
    ensures x in SortBy(xs, key) <==> x in xs
  {
    SortSorts(xs, key);
    assert x in SortBy(xs, key) <==> x in multiset(SortBy(xs, key));
    assert x in xs <==> x in multiset(xs);
  }
}
