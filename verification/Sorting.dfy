/** Sorting by a text key, as `sorted(..., key=...)` does. */
module Sorting {
  import opened Common

  ghost predicate Sorted<T>(key: T -> string, xs: seq<T>) {
    forall i, j :: 0 <= i < j < |xs| ==> !TextLess(key(xs[j]), key(xs[i]))
  }

  ghost predicate DistinctKeys<T>(key: T -> string, xs: seq<T>) {
    forall i, j :: 0 <= i < j < |xs| ==> key(xs[i]) != key(xs[j])
  }

  function Insert<T>(key: T -> string, x: T, xs: seq<T>): (r: seq<T>)
    ensures multiset(r) == multiset{x} + multiset(xs)
    ensures |r| == |xs| + 1
  {
    if xs == [] || TextLess(key(x), key(xs[0])) then [x] + xs else
      assert xs == [xs[0]] + xs[1..];
      [xs[0]] + Insert(key, x, xs[1..])
  }

  function Sort<T>(key: T -> string, xs: seq<T>): (r: seq<T>)
    ensures multiset(r) == multiset(xs)
    ensures |r| == |xs|
  {
    if xs == [] then [] else
      assert xs == [xs[0]] + xs[1..];
      Insert(key, xs[0], Sort(key, xs[1..]))
  }

  lemma {:induction false} InsertSorted<T>(key: T -> string, x: T, xs: seq<T>)
    requires Sorted(key, xs)
    ensures Sorted(key, Insert(key, x, xs))
  {
    var r := Insert(key, x, xs);
    if xs == [] {
    } else if TextLess(key(x), key(xs[0])) {
      forall j | 0 < j < |r| ensures !TextLess(key(r[j]), key(r[0])) {
        TextTrichotomy(key(x), key(xs[0]));
        TextTrichotomy(key(xs[0]), key(xs[0]));
        if TextLess(key(r[j]), key(x)) {
          TextTransitive(key(r[j]), key(x), key(xs[0]));
        }
      }
    } else {
      InsertSorted(key, x, xs[1..]);
      var tail := Insert(key, x, xs[1..]);
      forall j | 0 <= j < |tail| ensures !TextLess(key(tail[j]), key(xs[0])) {
        assert tail[j] in multiset(tail);
        if tail[j] != x {
          assert tail[j] in xs[1..];
        }
      }
    }
  }

  lemma {:induction false} SortSorted<T>(key: T -> string, xs: seq<T>)
    ensures Sorted(key, Sort(key, xs))
  {
    if xs != [] {
      SortSorted(key, xs[1..]);
      InsertSorted(key, xs[0], Sort(key, xs[1..]));
    }
  }

  lemma {:induction false} DistinctUnderPermutation<T>(key: T -> string, xs: seq<T>, ys: seq<T>)
    requires multiset(xs) == multiset(ys) && DistinctKeys(key, xs)
    ensures forall x, y :: x in ys && y in ys && key(x) == key(y) ==> x == y
    ensures forall x :: x in xs <==> x in ys
  {
    forall x ensures x in xs <==> x in ys {
      assert x in multiset(xs) <==> x in multiset(ys);
    }
  }

  lemma {:induction false} SameFirst<T>(key: T -> string, xs: seq<T>, ys: seq<T>)
    requires multiset(xs) == multiset(ys) && xs != [] && ys != []
    requires Sorted(key, xs) && Sorted(key, ys) && DistinctKeys(key, xs)
    ensures xs[0] == ys[0]
  {
    DistinctUnderPermutation(key, xs, ys);
    assert xs[0] in ys && ys[0] in xs;
    TextTrichotomy(key(xs[0]), key(ys[0]));
  }

  lemma {:induction false} TailSorted<T>(key: T -> string, xs: seq<T>)
    requires xs != []
    ensures Sorted(key, xs) ==> Sorted(key, xs[1..])
    ensures DistinctKeys(key, xs) ==> DistinctKeys(key, xs[1..])
  {}

  lemma {:induction false} RemoveFirst<T>(xs: seq<T>)
    requires xs != []
    ensures multiset(xs[1..]) == multiset(xs) - multiset{xs[0]}
  {
    assert xs == [xs[0]] + xs[1..];
  }

  /** A sorted arrangement of elements with distinct keys is unique. */
  lemma {:induction false} SortedUnique<T>(key: T -> string, xs: seq<T>, ys: seq<T>)
    requires multiset(xs) == multiset(ys)
    requires Sorted(key, xs) && Sorted(key, ys) && DistinctKeys(key, xs)
    ensures xs == ys
  {
    hide Sorted, DistinctKeys;
    assert |xs| == |multiset(xs)| == |multiset(ys)| == |ys|;
    if xs != [] {
      SameFirst(key, xs, ys);
      RemoveFirst(xs);
      RemoveFirst(ys);
      TailSorted(key, xs);
      TailSorted(key, ys);
      SortedUnique(key, xs[1..], ys[1..]);
      assert xs == [xs[0]] + xs[1..] && ys == [ys[0]] + ys[1..];
    }
  }

  lemma {:induction false} DistinctInsert<T>(key: T -> string, x: T, xs: seq<T>)
    requires DistinctKeys(key, xs) && forall y :: y in xs ==> key(y) != key(x)
    ensures DistinctKeys(key, Insert(key, x, xs))
  {
    if xs != [] && !TextLess(key(x), key(xs[0])) {
      DistinctInsert(key, x, xs[1..]);
      var tail := Insert(key, x, xs[1..]);
      forall j | 0 <= j < |tail| ensures key(tail[j]) != key(xs[0]) {
        assert tail[j] in multiset(tail);
        if tail[j] != x {
          assert tail[j] in xs[1..];
        }
      }
    }
  }

  lemma {:induction false} DistinctSort<T>(key: T -> string, xs: seq<T>)
    requires DistinctKeys(key, xs)
    ensures DistinctKeys(key, Sort(key, xs))
  {
    if xs != [] {
      DistinctSort(key, xs[1..]);
      forall y | y in Sort(key, xs[1..]) ensures key(y) != key(xs[0]) {
        assert y in multiset(xs[1..]);
      }
      DistinctInsert(key, xs[0], Sort(key, xs[1..]));
    }
  }

  /** Sorting forgets the order of the input. */
  lemma {:induction false} SortPermutation<T>(key: T -> string, xs: seq<T>, ys: seq<T>)
    requires multiset(xs) == multiset(ys) && DistinctKeys(key, xs)
    ensures Sort(key, xs) == Sort(key, ys)
  {
    SortSorted(key, xs);
    SortSorted(key, ys);
    DistinctSort(key, xs);
    SortedUnique(key, Sort(key, xs), Sort(key, ys));
  }
}
