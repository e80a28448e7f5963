/** Byte order of texts, and lists sorted by a strict total order. */
module Ordering {

  /** The first text comes before the second in byte order. */
  predicate Less(a: seq<nat>, b: seq<nat>) {
    b != [] && (a == [] || a[0] < b[0] || (a[0] == b[0] && Less(a[1..], b[1..])))
  }

  /** The texts agree up to n, and there the first one ends or has the smaller byte. */
  predicate DiffersAt(a: seq<nat>, b: seq<nat>, n: nat) {
    n < |b| && n <= |a| && a[..n] == b[..n] && (n == |a| || a[n] < b[n])
  }

  lemma {:induction false} LessIff(a: seq<nat>, b: seq<nat>)
    ensures Less(a, b) <==> exists n: nat :: DiffersAt(a, b, n)
  {
    if b == [] {
    } else if a == [] || a[0] < b[0] {
      assert DiffersAt(a, b, 0);
    } else if a[0] == b[0] {
      LessIff(a[1..], b[1..]);
      if Less(a[1..], b[1..]) {
        var n: nat :| DiffersAt(a[1..], b[1..], n);
        assert a[..n + 1] == [a[0]] + a[1..][..n] && b[..n + 1] == [b[0]] + b[1..][..n];
        assert DiffersAt(a, b, n + 1);
      }
      if n: nat :| DiffersAt(a, b, n) {
        assert n > 0;
        assert a[1..][..n - 1] == a[..n][1..] && b[1..][..n - 1] == b[..n][1..];
        assert DiffersAt(a[1..], b[1..], n - 1);
      }
    } else {
      assert forall n: nat :: 0 < n <= |a| && n < |b| ==> a[..n][0] != b[..n][0];
    }
  }

  lemma {:induction false} LessIsTotal(a: seq<nat>, b: seq<nat>)
    ensures a == b || Less(a, b) || Less(b, a)
    ensures !(Less(a, b) && Less(b, a)) && !Less(a, a)
  {
    if a != [] {
      LessIsTotal(a[1..], a[1..]);
      if b != [] && a[0] == b[0] {
        LessIsTotal(a[1..], b[1..]);
        assert a == [a[0]] + a[1..] && b == [b[0]] + b[1..];
      }
    }
  }

  lemma {:induction false} LessIsTransitive(a: seq<nat>, b: seq<nat>, c: seq<nat>)
    requires Less(a, b) && Less(b, c)
    ensures Less(a, c)
  {
    if a != [] && a[0] == b[0] == c[0] {
      LessIsTransitive(a[1..], b[1..], c[1..]);
    }
  }

  ghost predicate StrictOrder<T(!new)>(less: (T, T) -> bool) {
    && (forall x, y :: less(x, y) ==> !less(y, x))
    && (forall x, y :: less(x, y) || less(y, x) || x == y)
    && (forall x, y, z :: less(x, y) && less(y, z) ==> less(x, z))
  }

  ghost predicate Sorted<T>(less: (T, T) -> bool, list: seq<T>) {
    forall i, j :: 0 <= i < j < |list| ==> less(list[i], list[j])
  }

  /** The list holds the items of the set, each once, in order. */
  ghost predicate SortedList<T(!new)>(less: (T, T) -> bool, items: set<T>, list: seq<T>) {
    Sorted(less, list) && forall x :: x in list <==> x in items
  }

  predicate Least<T>(less: (T, T) -> bool, items: set<T>, x: T) {
    x in items && forall y :: y in items && y != x ==> less(x, y)
  }

  lemma {:induction false} LeastExists<T(!new)>(less: (T, T) -> bool, items: set<T>) returns (x: T)
    requires StrictOrder(less) && items != {}
    ensures Least(less, items, x)
    decreases |items|
  {
    x :| x in items;
    if items != {x} {
      var rest := LeastExists(less, items - {x});
      assert less(x, rest) || less(rest, x);
      forall y | y in items && y != x && y != rest ensures less(rest, y) {
        assert y in items - {x};
      }
      if less(rest, x) {
        x := rest;
      }
    }
  }

  method Sort<T(!new, ==)>(less: (T, T) -> bool, items: set<T>) returns (list: seq<T>)
    requires StrictOrder(less)
    ensures SortedList(less, items, list)
  {
    var left := items;
    list := [];
    while left != {}
      invariant left <= items && Sorted(less, list)
      invariant forall i, x :: 0 <= i < |list| && x in left ==> less(list[i], x)
      invariant forall x :: x in list <==> x in items - left
      decreases |left|
    {
      ghost var least := LeastExists(less, left);
      var x :| Least(less, left, x);
      assert Least(less, left, x);
      list := list + [x];
      left := left - {x};
    }
  }

  /** A set has one sorted list. */
  lemma {:induction false} SortedListIsUnique<T(!new)>(less: (T, T) -> bool, items: set<T>, a: seq<T>, b: seq<T>)
    requires StrictOrder(less) && SortedList(less, items, a) && SortedList(less, items, b)
    ensures a == b
  {
    assert a != [] ==> a[0] in items;
    assert b != [] ==> b[0] in items;
    if x :| x in items {
      assert x in a && x in b;
      assert a[0] in b && b[0] in a;
      var i :| 0 <= i < |a| && a[i] == b[0];
      var j :| 0 <= j < |b| && b[j] == a[0];
      assert a[0] == b[0];
      SortedListIsUnique(less, items - {a[0]}, a[1..], b[1..]);
      assert a == [a[0]] + a[1..] && b == [b[0]] + b[1..];
    }
  }
}
