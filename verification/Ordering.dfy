/** Total orders, insertion sort and the fact that a sorted list is determined by its
    multiset.  Go iterates maps in random order and then sorts; these lemmas are why the
    result does not depend on that order. */
module Ordering {

  ghost predicate TotalOrder<T(!new)>(le: (T, T) -> bool) {
    && (forall x :: le(x, x))
    && (forall x, y :: le(x, y) || le(y, x))
    && (forall x, y :: le(x, y) && le(y, x) ==> x == y)
    && (forall x, y, z :: le(x, y) && le(y, z) ==> le(x, z))
  }

  ghost predicate Sorted<T>(le: (T, T) -> bool, xs: seq<T>) {
    forall i, j :: 0 <= i < j < |xs| ==> le(xs[i], xs[j])
  }

  function Insert<T>(le: (T, T) -> bool, x: T, xs: seq<T>): seq<T> {
    if xs == [] then [x]
    else if le(x, xs[0]) then [x] + xs
    else [xs[0]] + Insert(le, x, xs[1..])
  }

  function Sort<T>(le: (T, T) -> bool, xs: seq<T>): seq<T> {
    if xs == [] then [] else Insert(le, xs[0], Sort(le, xs[1..]))
  }

  lemma {:induction false} InsertIsSorted<T(!new)>(le: (T, T) -> bool, x: T, xs: seq<T>)
    requires TotalOrder(le) && Sorted(le, xs)
    ensures Sorted(le, Insert(le, x, xs))
    ensures multiset(Insert(le, x, xs)) == multiset(xs) + multiset{x}
  {
    if xs == [] {
    } else if le(x, xs[0]) {
      assert multiset([x] + xs) == multiset(xs) + multiset{x};
    } else {
      InsertIsSorted(le, x, xs[1..]);
      var r := Insert(le, x, xs[1..]);
      assert xs == [xs[0]] + xs[1..];
      forall y | y in r ensures le(xs[0], y) {
        assert y in multiset(r);
        assert y in multiset(xs[1..]) || y == x;
      }
    }
  }

  lemma {:induction false} SortSorts<T(!new)>(le: (T, T) -> bool, xs: seq<T>)
    requires TotalOrder(le)
    ensures Sorted(le, Sort(le, xs))
    ensures multiset(Sort(le, xs)) == multiset(xs)
  {
    if xs != [] {
      SortSorts(le, xs[1..]);
      InsertIsSorted(le, xs[0], Sort(le, xs[1..]));
      assert xs == [xs[0]] + xs[1..];
    }
  }

  lemma Tail<T>(xs: seq<T>)
    requires xs != []
    ensures multiset(xs[1..]) == multiset(xs) - multiset{xs[0]}
  {
    assert xs == [xs[0]] + xs[1..];
  }

  lemma TailSorted<T>(le: (T, T) -> bool, xs: seq<T>)
    requires Sorted(le, xs) && xs != []
    ensures Sorted(le, xs[1..])
  {
  }

  lemma SameLeast<T(!new)>(le: (T, T) -> bool, xs: seq<T>, ys: seq<T>)
    requires TotalOrder(le) && Sorted(le, xs) && Sorted(le, ys)
    requires multiset(xs) == multiset(ys) && xs != []
    ensures ys != [] && xs[0] == ys[0]
  {
    assert xs[0] in multiset(ys);
    assert ys[0] in multiset(xs);
    assert le(xs[0], ys[0]) && le(ys[0], xs[0]);
  }

  lemma {:induction false} SortedUnique<T(!new)>(le: (T, T) -> bool, xs: seq<T>, ys: seq<T>)
    requires TotalOrder(le) && Sorted(le, xs) && Sorted(le, ys)
    requires multiset(xs) == multiset(ys)
    ensures xs == ys
  {
    hide TotalOrder, Sorted;
    if xs == [] {
      assert |multiset(ys)| == 0;
    } else {
      SameLeast(le, xs, ys);
      Tail(xs);
      Tail(ys);
      TailSorted(le, xs);
      TailSorted(le, ys);
      SortedUnique(le, xs[1..], ys[1..]);
      assert xs == [xs[0]] + xs[1..] && ys == [ys[0]] + ys[1..];
    }
  }

  /** Sorting forgets the order the elements arrived in. */
  lemma SortCanonical<T(!new)>(le: (T, T) -> bool, xs: seq<T>, ys: seq<T>)
    requires TotalOrder(le)
    ensures Sort(le, xs) == Sort(le, ys) <==> multiset(xs) == multiset(ys)
  {
    SortSorts(le, xs);
    SortSorts(le, ys);
    if multiset(xs) == multiset(ys) {
      SortedUnique(le, Sort(le, xs), Sort(le, ys));
    }
  }

  // ----- byte-wise string order, as Go compares strings -----

  predicate StrLe(a: string, b: string) {
    a == [] || (b != [] && (a[0] < b[0] || (a[0] == b[0] && StrLe(a[1..], b[1..]))))
  }

  predicate StrLess(a: string, b: string) {
    a != b && StrLe(a, b)
  }

  lemma StrLeTotal()
    ensures TotalOrder(StrLe)
  {
    forall x ensures StrLe(x, x) { StrLeLaws(x, x, x); }
    forall x, y ensures StrLe(x, y) || StrLe(y, x) { StrLeLaws(x, y, y); }
    forall x, y | StrLe(x, y) && StrLe(y, x) ensures x == y { StrLeLaws(x, y, y); }
    forall x, y, z | StrLe(x, y) && StrLe(y, z) ensures StrLe(x, z) { StrLeLaws(x, y, z); }
  }

  lemma {:induction false} StrLeLaws(x: string, y: string, z: string)
    ensures StrLe(x, x)
    ensures StrLe(x, y) || StrLe(y, x)
    ensures StrLe(x, y) && StrLe(y, x) ==> x == y
    ensures StrLe(x, y) && StrLe(y, z) ==> StrLe(x, z)
    decreases |x|
  {
    if x != [] {
      StrLeLaws(x[1..], if y == [] then [] else y[1..], if z == [] then [] else z[1..]);
      if y != [] && x[0] == y[0] && x[1..] == y[1..] {
        assert x == [x[0]] + x[1..] && y == [y[0]] + y[1..];
      }
    }
  }

  // ----- listing a set -----

  ghost function ListOf<T(!new)>(s: set<T>): (xs: seq<T>)
    ensures multiset(xs) == multiset(s)
  {
    if s == {} then []
    else
      var x :| x in s;
      assert multiset(s) == multiset(s - {x}) + multiset{x};
      [x] + ListOf(s - {x})
  }

  /** The keys of a map in increasing order; a function of the key SET alone. */
  ghost function SortedKeys(ks: set<string>): seq<string> {
    Sort(StrLe, ListOf(ks))
  }

  lemma ListingHasNoDuplicates<T>(xs: seq<T>, s: set<T>, i: nat, j: nat)
    requires multiset(xs) == multiset(s)
    requires i < j < |xs|
    ensures xs[i] != xs[j]
  {
    var l, r := xs[..j], xs[j..];
    assert xs == l + r;
    assert l[i] in multiset(l) && r[0] in multiset(r);
    assert multiset(xs)[xs[j]] <= 1;
  }

  lemma SortedKeysFacts(ks: set<string>)
    ensures forall k :: k in SortedKeys(ks) <==> k in ks
    ensures |SortedKeys(ks)| == |ks|
    ensures forall i, j :: 0 <= i < j < |SortedKeys(ks)| ==> SortedKeys(ks)[i] != SortedKeys(ks)[j]
  {
    StrLeTotal();
    var r := SortedKeys(ks);
    SortSorts(StrLe, ListOf(ks));
    forall k ensures k in r <==> k in ks {
      assert k in r <==> k in multiset(r);
    }
    assert |multiset(r)| == |multiset(ks)|;
    forall i, j | 0 <= i < j < |r| ensures r[i] != r[j] {
      ListingHasNoDuplicates(r, ks, i, j);
    }
  }

  /** Collecting a map's keys in any iteration order and sorting them gives `SortedKeys`. */
  method CollectSorted(ks: set<string>) returns (keys: seq<string>)
    ensures keys == SortedKeys(ks)
  {
    var rest, acc := ks, [];
    while rest != {}
      invariant rest <= ks
      invariant multiset(acc) == multiset(ks - rest)
      decreases |rest|
    {
      var k :| k in rest;
      assert ks - (rest - {k}) == (ks - rest) + {k};
      acc, rest := acc + [k], rest - {k};
    }
    assert ks - rest == ks;
    keys := Sort(StrLe, acc);
    StrLeTotal();
    SortCanonical(StrLe, acc, ListOf(ks));
  }
}
