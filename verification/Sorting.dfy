/** Sorting, as far as its result is fixed: an unstable sort may put equal keys in any order, a stable
    sort by a total order has one result only. */
module Sorting {
  import opened Collections

  predicate Descending<T>(key: T -> real, s: seq<T>) {
    forall i, j :: 0 <= i < j < |s| ==> key(s[i]) >= key(s[j])
  }

  lemma {:induction false} SomeLargest<T>(key: T -> real, s: seq<T>) returns (k: nat)
    requires s != []
    ensures k < |s| && forall j :: 0 <= j < |s| ==> key(s[j]) <= key(s[k])
  {
    if |s| == 1 {
      k := 0;
    } else {
      k := SomeLargest(key, s[..|s| - 1]);
      assert forall j :: 0 <= j < |s| - 1 ==> s[..|s| - 1][j] == s[j];
      if key(s[|s| - 1]) > key(s[k]) {
        k := |s| - 1;
      }
    }
  }

  lemma TakeOut<T>(s: seq<T>, k: nat)
    requires k < |s|
    ensures multiset(s) == multiset(s[..k] + s[k + 1..]) + multiset{s[k]}
  {
    assert s == s[..k] + [s[k]] + s[k + 1..];
  }

  lemma {:induction false} DescendingSnoc<T>(key: T -> real, s: seq<T>, x: T)
    requires Descending(key, s) && forall y :: y in s ==> key(y) >= key(x)
    ensures Descending(key, s + [x])
  {
    forall i, j | 0 <= i < j < |s + [x]| ensures key((s + [x])[i]) >= key((s + [x])[j]) {
      assert s[i] in s;
    }
  }

  /** A sort that is not stable: among items with the largest key, any may come next. */
  method SortDescending<T(==)>(key: T -> real, items: seq<T>) returns (out: seq<T>)
    ensures multiset(out) == multiset(items) && Descending(key, out)
  {
    out := [];
    var rest := items;
    while rest != []
      invariant multiset(out) + multiset(rest) == multiset(items) && Descending(key, out)
      invariant forall x, y :: x in out && y in rest ==> key(x) >= key(y)
      decreases |rest|
    {
      ghost var w := SomeLargest(key, rest);
      var k: nat :| k < |rest| && forall j :: 0 <= j < |rest| ==> key(rest[j]) <= key(rest[k]);
      TakeOut(rest, k);
      DescendingSnoc(key, out, rest[k]);
      var rest' := rest[..k] + rest[k + 1..];
      assert forall y :: y in rest' ==> y in rest && key(y) <= key(rest[k]);
      out, rest := out + [rest[k]], rest';
    }
  }

  // ---------------------------------------------------------------- sorting by an order

  predicate Ascending<T>(less: (T, T) -> bool, s: seq<T>) {
    forall i, j :: 0 <= i < j < |s| ==> !less(s[j], s[i])
  }

  /** Any two different members are ordered, one way only. */
  predicate Separates<T(==)>(less: (T, T) -> bool, s: seq<T>) {
    forall x, y :: x in s && y in s && x != y ==> (less(x, y) <==> !less(y, x))
  }

  /** The laws of a strict weak order. */
  ghost predicate StrictWeak<T(!new)>(less: (T, T) -> bool) {
    && (forall x, y :: less(x, y) ==> !less(y, x))
    && (forall x, y, z :: less(x, z) ==> less(x, y) || less(y, z))
  }

  lemma SameMembers<T>(a: seq<T>, b: seq<T>)
    requires multiset(a) == multiset(b)
    ensures |a| == |b| && forall x :: x in a <==> x in b
  {
    assert |multiset(a)| == |a| && |multiset(b)| == |b|;
    forall x ensures x in a <==> x in b {
      assert x in a <==> x in multiset(a);
      assert x in b <==> x in multiset(b);
    }
  }

  lemma FrontsAgree<T>(a: seq<T>, b: seq<T>)
    requires |a| == |b| > 0 && multiset(a) == multiset(b) && a[|a| - 1] == b[|b| - 1]
    ensures multiset(a[..|a| - 1]) == multiset(b[..|b| - 1])
  {
    MultisetSnoc(a);
    MultisetSnoc(b);
    assert multiset(a[..|a| - 1]) == multiset(a) - multiset{a[|a| - 1]};
    assert multiset(b[..|b| - 1]) == multiset(b) - multiset{b[|b| - 1]};
  }

  /** If the order separates the members, there is one sorted arrangement of them only. */
  lemma {:induction false} OneArrangement<T>(less: (T, T) -> bool, a: seq<T>, b: seq<T>)
    requires multiset(a) == multiset(b) && Ascending(less, a) && Ascending(less, b) && Separates(less, a)
    ensures a == b
    decreases |a|
  {
    SameMembers(a, b);
    if a != [] {
      var n := |a| - 1;
      SameLast(less, a, b);
      FrontsAgree(a, b);
      assert forall x :: x in a[..n] ==> x in a;
      OneArrangement(less, a[..n], b[..n]);
      assert a == a[..n] + [a[n]] && b == b[..n] + [b[n]];
    }
  }

  lemma SameLast<T>(less: (T, T) -> bool, a: seq<T>, b: seq<T>)
    requires |a| == |b| > 0 && Ascending(less, a) && Ascending(less, b) && Separates(less, a)
    requires forall x :: x in a <==> x in b
    ensures a[|a| - 1] == b[|b| - 1]
  {
    var x, y := a[|a| - 1], b[|b| - 1];
    assert x in b && y in a;
    var i :| 0 <= i < |a| && a[i] == y;
    var j :| 0 <= j < |b| && b[j] == x;
    assert x == y || (!less(x, y) && !less(y, x));
  }

  function InsertInOrder<T>(less: (T, T) -> bool, s: seq<T>, x: T): seq<T> {
    if s == [] || !less(x, s[|s| - 1]) then s + [x]
    else InsertInOrder(less, s[..|s| - 1], x) + [s[|s| - 1]]
  }

  /** The stable sort. */
  function Arranged<T>(less: (T, T) -> bool, s: seq<T>): seq<T> {
    if s == [] then [] else InsertInOrder(less, Arranged(less, s[..|s| - 1]), s[|s| - 1])
  }

  lemma {:induction false} InsertMembers<T>(less: (T, T) -> bool, s: seq<T>, x: T)
    ensures multiset(InsertInOrder(less, s, x)) == multiset(s) + multiset{x}
  {
    if s != [] && less(x, s[|s| - 1]) {
      InsertMembers(less, s[..|s| - 1], x);
      MultisetSnoc(s);
    }
  }

  lemma {:induction false} InsertAscends<T(!new)>(less: (T, T) -> bool, s: seq<T>, x: T)
    requires StrictWeak(less) && Ascending(less, s)
    ensures Ascending(less, InsertInOrder(less, s, x))
  {
    if s == [] {
    } else if !less(x, s[|s| - 1]) {
      forall i | 0 <= i < |s| ensures !less(x, s[i]) {
        assert i < |s| - 1 ==> !less(s[|s| - 1], s[i]);
      }
    } else {
      var front, last := s[..|s| - 1], s[|s| - 1];
      InsertAscends(less, front, x);
      InsertMembers(less, front, x);
      var inner := InsertInOrder(less, front, x);
      forall i | 0 <= i < |inner| ensures !less(last, inner[i]) {
        assert inner[i] in multiset(inner);
        if inner[i] in front {
          var k :| 0 <= k < |front| && front[k] == inner[i];
          assert s[k] == inner[i];
        }
      }
    }
  }

  lemma {:induction false} ArrangedMembers<T>(less: (T, T) -> bool, s: seq<T>)
    ensures multiset(Arranged(less, s)) == multiset(s)
  {
    if s != [] {
      ArrangedMembers(less, s[..|s| - 1]);
      InsertMembers(less, Arranged(less, s[..|s| - 1]), s[|s| - 1]);
      MultisetSnoc(s);
    }
  }

  lemma {:induction false} ArrangedAscends<T(!new)>(less: (T, T) -> bool, s: seq<T>)
    requires StrictWeak(less)
    ensures Ascending(less, Arranged(less, s))
  {
    if s != [] {
      ArrangedAscends(less, s[..|s| - 1]);
      InsertAscends(less, Arranged(less, s[..|s| - 1]), s[|s| - 1]);
    }
  }

  /** Arranging forgets the order of its input. */
  lemma ArrangedForgetsOrder<T(!new)>(less: (T, T) -> bool, a: seq<T>, b: seq<T>)
    requires StrictWeak(less) && multiset(a) == multiset(b) && Separates(less, a)
    ensures Arranged(less, a) == Arranged(less, b)
  {
    ArrangedMembers(less, a);
    ArrangedMembers(less, b);
    ArrangedAscends(less, a);
    ArrangedAscends(less, b);
    SameMembers(a, Arranged(less, a));
    OneArrangement(less, Arranged(less, a), Arranged(less, b));
  }

  method StableSort<T>(less: (T, T) -> bool, items: seq<T>) returns (out: seq<T>)
    ensures out == Arranged(less, items)
  {
    out := [];
    for i := 0 to |items|
      invariant out == Arranged(less, items[..i])
    {
      assert items[..i + 1][..i] == items[..i];
      out := InsertInOrder(less, out, items[i]);
    }
    assert items[..|items|] == items;
  }

  // ---------------------------------------------------------------- strings in order

  function LexLess(a: string, b: string): bool {
    if b == "" then false
    else if a == "" then true
    else a[0] < b[0] || (a[0] == b[0] && LexLess(a[1..], b[1..]))
  }

  lemma {:induction false} LexOneWay(a: string, b: string)
    ensures LexLess(a, b) ==> !LexLess(b, a)
    ensures a != b ==> LexLess(a, b) || LexLess(b, a)
  {
    if a != "" && b != "" {
      LexOneWay(a[1..], b[1..]);
      assert a == [a[0]] + a[1..] && b == [b[0]] + b[1..];
    }
  }

  lemma {:induction false} LexSplits(a: string, b: string, c: string)
    ensures LexLess(a, c) ==> LexLess(a, b) || LexLess(b, c)
  {
    if a != "" && b != "" && c != "" {
      LexSplits(a[1..], b[1..], c[1..]);
    }
  }
}
