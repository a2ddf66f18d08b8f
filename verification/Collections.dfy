/** Small facts about finite collections that the rest of the model leans on: enumerations of a
    set in some order (Go's map iteration), and integer sums over a map. */
module Collections {

  datatype Option<+T> = None | Some(value: T)

  predicate NoDup<T(==)>(s: seq<T>) {
    forall i, j :: 0 <= i < j < |s| ==> s[i] != s[j]
  }

  function Elems<T(==)>(s: seq<T>): set<T> {
    set x | x in s
  }

  /** `s` visits every member of `all` exactly once, in some order. */
  predicate Enumerates<T(==)>(s: seq<T>, all: set<T>) {
    NoDup(s) && Elems(s) == all
  }

  function Min(a: int, b: int): int { if a <= b then a else b }

  function Max(a: int, b: int): int { if a >= b then a else b }

  function MinReal(a: real, b: real): real { if a <= b then a else b }

  function MaxReal(a: real, b: real): real { if a >= b then a else b }

  lemma EnumeratesSnoc<T>(s: seq<T>, x: T)
    requires NoDup(s) && x !in s
    ensures NoDup(s + [x]) && Elems(s + [x]) == Elems(s) + {x}
  {
  }

  lemma SubsetSize<T>(a: set<T>, b: set<T>)
    requires a <= b
    ensures |a| <= |b|
  {
    assert b == a + (b - a);
  }

  lemma MultisetSnoc<T>(s: seq<T>)
    requires s != []
    ensures multiset(s) == multiset(s[..|s| - 1]) + multiset{s[|s| - 1]}
  {
    assert s == s[..|s| - 1] + [s[|s| - 1]];
  }

  lemma HasMember<T>(s: seq<T>)
    requires s != []
    ensures exists x :: x in s
  {
    assert s[0] in s;
  }

  lemma {:induction false} EnumerationSize<T>(s: seq<T>)
    requires NoDup(s)
    ensures |Elems(s)| == |s|
  {
    if s == [] {
    } else {
      var front, last := s[..|s| - 1], s[|s| - 1];
      assert s == front + [last];
      EnumerationSize(front);
      assert Elems(s) == Elems(front) + {last};
    }
  }

  /** Two duplicate-free sequences with the same members are permutations of one another. */
  lemma SameElemsSameMultiset<T>(a: seq<T>, b: seq<T>)
    requires NoDup(a) && NoDup(b) && Elems(a) == Elems(b)
    ensures multiset(a) == multiset(b)
  {
    forall x ensures multiset(a)[x] == multiset(b)[x] {
      NoDupCount(a, x);
      NoDupCount(b, x);
      assert x in a <==> x in Elems(a);
      assert x in b <==> x in Elems(b);
    }
  }

  lemma {:induction false} NoDupCount<T>(s: seq<T>, x: T)
    requires NoDup(s)
    ensures multiset(s)[x] == if x in s then 1 else 0
  {
    if s == [] {
    } else {
      var front, last := s[..|s| - 1], s[|s| - 1];
      assert s == front + [last];
      NoDupCount(front, x);
    }
  }

  /** The sum of the values of a map. */
  ghost function Sum<K>(m: map<K, int>): int
    decreases |m.Keys|
  {
    if m == map[] then 0
    else
      var k :| k in m;
      m[k] + Sum(m - {k})
  }

  lemma {:induction false} SumPick<K>(m: map<K, int>, k: K)
    requires k in m
    ensures Sum(m) == m[k] + Sum(m - {k})
    decreases |m.Keys|
  {
    var k0 :| k0 in m && Sum(m) == m[k0] + Sum(m - {k0});
    if k0 != k {
      var rest := m - {k0};
      assert rest.Keys < m.Keys;
      SumPick(rest, k);
      SumPick(m - {k}, k0);
      assert m - {k0} - {k} == m - {k} - {k0};
    }
  }

  lemma SumInsert<K>(m: map<K, int>, k: K, v: int)
    requires k !in m
    ensures Sum(m[k := v]) == Sum(m) + v
  {
    SumPick(m[k := v], k);
    assert m[k := v] - {k} == m;
  }

  lemma UnionMinus<K, V>(a: map<K, V>, b: map<K, V>, k: K)
    requires k in b && k !in a
    ensures (a + b) - {k} == a + (b - {k})
  {
  }

  /** Two maps over disjoint keys. */
  lemma {:induction false} SumDisjoint<K>(a: map<K, int>, b: map<K, int>)
    requires a.Keys !! b.Keys
    ensures Sum(a + b) == Sum(a) + Sum(b)
    decreases |b.Keys|
  {
    if b.Keys == {} {
      assert a + b == a;
    } else {
      var k :| k in b.Keys;
      UnionMinus(a, b, k);
      SumPick(a + b, k);
      SumPick(b, k);
      SumDisjoint(a, b - {k});
    }
  }

  /** The sum of the values of a map, over the reals. */
  ghost function RealSum<K>(m: map<K, real>): real
    decreases |m.Keys|
  {
    if m == map[] then 0.0
    else
      var k :| k in m;
      m[k] + RealSum(m - {k})
  }

  lemma {:induction false} RealSumPick<K>(m: map<K, real>, k: K)
    requires k in m
    ensures RealSum(m) == m[k] + RealSum(m - {k})
    decreases |m.Keys|
  {
    var k0 :| k0 in m && RealSum(m) == m[k0] + RealSum(m - {k0});
    if k0 != k {
      assert (m - {k0}).Keys < m.Keys;
      RealSumPick(m - {k0}, k);
      RealSumPick(m - {k}, k0);
      assert m - {k0} - {k} == m - {k} - {k0};
    }
  }

  lemma RealSumInsert<K>(m: map<K, real>, k: K, v: real)
    requires k !in m
    ensures RealSum(m[k := v]) == RealSum(m) + v
  {
    RealSumPick(m[k := v], k);
    assert m[k := v] - {k} == m;
  }
}
