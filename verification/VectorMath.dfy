/** Cosine similarity over exact reals. `sqrt` is any function with the defining property of a
    square root. */
module VectorMath {

  type Vec = seq<real>

  ghost predicate IsSquareRoot(sqrt: real -> real) {
    forall x :: x >= 0.0 ==> sqrt(x) >= 0.0 && sqrt(x) * sqrt(x) == x
  }

  function Dot(a: Vec, b: Vec): real
    requires |a| == |b|
  {
    if a == [] then 0.0 else Dot(a[..|a| - 1], b[..|b| - 1]) + a[|a| - 1] * b[|b| - 1]
  }

  /** The quotient both `CosineSim` and `cosineDistance` compute from their three sums. */
  function Quotient(sqrt: real -> real, dot: real, na: real, nb: real): real {
    var d := sqrt(na) * sqrt(nb);
    if na == 0.0 || nb == 0.0 || d == 0.0 then 0.0 else dot / d
  }

  function Cosine(sqrt: real -> real, a: Vec, b: Vec): real {
    if |a| != |b| || |a| == 0 then 0.0 else Quotient(sqrt, Dot(a, b), Dot(a, a), Dot(b, b))
  }

  function Distance(sqrt: real -> real, a: Vec, b: Vec): real {
    1.0 - Cosine(sqrt, a, b)
  }

  lemma DotSnoc(a: Vec, b: Vec, i: nat)
    requires |a| == |b| && i < |a|
    ensures Dot(a[..i + 1], b[..i + 1]) == Dot(a[..i], b[..i]) + a[i] * b[i]
  {
    assert a[..i + 1][..i] == a[..i] && b[..i + 1][..i] == b[..i];
  }

  /** The three sums, accumulated in one pass. */
  method Sums(a: Vec, b: Vec) returns (dot: real, na: real, nb: real)
    requires |a| == |b|
    ensures dot == Dot(a, b) && na == Dot(a, a) && nb == Dot(b, b)
  {
    dot, na, nb := 0.0, 0.0, 0.0;
    for i := 0 to |a|
      invariant dot == Dot(a[..i], b[..i]) && na == Dot(a[..i], a[..i]) && nb == Dot(b[..i], b[..i])
    {
      DotSnoc(a, b, i);
      DotSnoc(a, a, i);
      DotSnoc(b, b, i);
      var x, y := a[i], b[i];
      dot, na, nb := dot + x * y, na + x * x, nb + y * y;
    }
    assert a[..|a|] == a && b[..|b|] == b;
  }

  method CosineSim(sqrt: real -> real, a: Vec, b: Vec) returns (sim: real)
    requires IsSquareRoot(sqrt)
    ensures sim == Cosine(sqrt, a, b)
  {
    if |a| != |b| || |a| == 0 {
      return 0.0;
    }
    var dot, na, nb := Sums(a, b);
    if na == 0.0 || nb == 0.0 {
      return 0.0;
    }
    RootsNonZero(sqrt, a, b);
    sim := dot / (sqrt(na) * sqrt(nb));
  }

  method CosineDistance(sqrt: real -> real, a: Vec, b: Vec) returns (d: real)
    requires IsSquareRoot(sqrt)
    ensures d == Distance(sqrt, a, b)
  {
    if |a| != |b| || |a| == 0 {
      return 1.0;
    }
    var dot, na, nb := Sums(a, b);
    if na == 0.0 || nb == 0.0 {
      return 1.0;
    }
    RootsNonZero(sqrt, a, b);
    var sim := dot / (sqrt(na) * sqrt(nb));
    d := 1.0 - sim;
  }

  lemma {:induction false} NormNonNegative(a: Vec)
    ensures Dot(a, a) >= 0.0
  {
    if a != [] {
      NormNonNegative(a[..|a| - 1]);
    }
  }

  /** The division is safe once neither norm is zero. */
  lemma RootsNonZero(sqrt: real -> real, a: Vec, b: Vec)
    requires IsSquareRoot(sqrt) && Dot(a, a) != 0.0 && Dot(b, b) != 0.0
    ensures sqrt(Dot(a, a)) * sqrt(Dot(b, b)) > 0.0
  {
    NormNonNegative(a);
    NormNonNegative(b);
  }

  /** The norm of `a - t b` is not negative. */
  lemma {:induction false} Discriminant(a: Vec, b: Vec, t: real)
    requires |a| == |b|
    ensures Dot(a, a) - 2.0 * t * Dot(a, b) + t * t * Dot(b, b) >= 0.0
  {
    if a != [] {
      var n := |a| - 1;
      Discriminant(a[..n], b[..n], t);
      var xx, xy, yy := a[n] * a[n], a[n] * b[n], b[n] * b[n];
      OneMoreSquare(t, a[n], b[n], xx, xy, yy);
      Regroup(t, Dot(a[..n], a[..n]), Dot(a[..n], b[..n]), Dot(b[..n], b[..n]), xx, xy, yy);
    }
  }

  lemma OneMoreSquare(t: real, x: real, y: real, xx: real, xy: real, yy: real)
    requires xx == x * x && xy == x * y && yy == y * y
    ensures xx - 2.0 * t * xy + t * t * yy >= 0.0
  {
    var z := x - t * y;
    assert z * z == xx - 2.0 * t * xy + t * t * yy;
    assert z * z >= 0.0;
  }

  lemma Regroup(t: real, p: real, d: real, q: real, xx: real, xy: real, yy: real)
    ensures (p - 2.0 * t * d + t * t * q) + (xx - 2.0 * t * xy + t * t * yy)
         == (p + xx) - 2.0 * t * (d + xy) + t * t * (q + yy)
  {
  }

  /** The inequality of Cauchy and Schwarz. */
  lemma CauchySchwarz(a: Vec, b: Vec)
    requires |a| == |b|
    ensures Dot(a, b) * Dot(a, b) <= Dot(a, a) * Dot(b, b)
  {
    var p, d, q := Dot(a, a), Dot(a, b), Dot(b, b);
    NormNonNegative(a);
    NormNonNegative(b);
    if q > 0.0 {
      Discriminant(a, b, d / q);
      VertexBound(p, d, q, d / q);
    } else {
      assert d == 0.0 by {
        if d != 0.0 {
          var t := (p + 1.0) / (2.0 * d);
          Discriminant(a, b, t);
          Cancel(p + 1.0, 2.0 * d);
          assert false;
        }
      }
    }
  }

  lemma VertexBound(p: real, d: real, q: real, t: real)
    requires q > 0.0 && t == d / q && p - 2.0 * t * d + t * t * q >= 0.0
    ensures d * d <= p * q
  {
    Cancel(d, q);
    assert t * t * q == t * d;
    assert (p - t * d) * q >= 0.0;
    assert t * d * q == d * d;
  }

  lemma Cancel(x: real, y: real)
    requires y != 0.0
    ensures x / y * y == x
  {
  }

  /** A quotient of a number by something at least as large in size. */
  lemma QuotientBound(x: real, d: real)
    requires d > 0.0 && x * x <= d * d
    ensures -1.0 <= x / d <= 1.0
  {
    assert x <= d by {
      if x > d { SquareGrows(d, x); assert false; }
    }
    assert -d <= x by {
      if x < -d { SquareGrows(d, -x); assert false; }
    }
  }

  lemma SquareGrows(d: real, x: real)
    requires 0.0 < d < x
    ensures x * x > d * d
  {
  }

  lemma QuotientInRange(sqrt: real -> real, p: real, d: real, q: real)
    requires IsSquareRoot(sqrt) && p >= 0.0 && q >= 0.0 && d * d <= p * q
    ensures -1.0 <= Quotient(sqrt, d, p, q) <= 1.0
  {
    var rp, rq := sqrt(p), sqrt(q);
    var m := rp * rq;
    if p != 0.0 && q != 0.0 && m != 0.0 {
      assert rp >= 0.0 && rq >= 0.0 && m > 0.0;
      assert m * m == p * q by { assert m * m == (rp * rp) * (rq * rq); }
      QuotientBound(d, m);
    }
  }

  /** Cosine similarity lies between -1 and 1. */
  lemma CosineBounds(sqrt: real -> real, a: Vec, b: Vec)
    requires IsSquareRoot(sqrt)
    ensures -1.0 <= Cosine(sqrt, a, b) <= 1.0
  {
    if |a| == |b| && |a| != 0 {
      NormNonNegative(a);
      NormNonNegative(b);
      CauchySchwarz(a, b);
      QuotientInRange(sqrt, Dot(a, a), Dot(a, b), Dot(b, b));
    }
  }

  // ---------------------------------------------------------------- direction

  lemma {:induction false} DotOfMultiple(a: Vec, b: Vec, t: real)
    requires |a| == |b| && forall k :: 0 <= k < |a| ==> b[k] == t * a[k]
    ensures Dot(a, b) == t * Dot(a, a) && Dot(b, b) == t * t * Dot(a, a)
  {
    if a != [] {
      var n := |a| - 1;
      DotOfMultiple(a[..n], b[..n], t);
      MultipleStep(t, Dot(a[..n], a[..n]), a[n], b[n]);
    }
  }

  lemma MultipleStep(t: real, d: real, x: real, y: real)
    requires y == t * x
    ensures t * d + x * y == t * (d + x * x)
    ensures t * t * d + y * y == t * t * (d + x * x)
  {
    assert x * y == t * (x * x);
    assert y * y == t * t * (x * x);
  }

  lemma {:induction false} NormPositive(a: Vec, i: nat)
    requires i < |a| && a[i] != 0.0
    ensures Dot(a, a) > 0.0
  {
    var n := |a| - 1;
    var square := a[n] * a[n];
    assert Dot(a, a) == Dot(a[..n], a[..n]) + square;
    NormNonNegative(a[..n]);
    SquareSign(a[n], square);
    if i < n {
      NormPositive(a[..n], i);
    }
  }

  lemma SquareSign(x: real, square: real)
    requires square == x * x
    ensures square >= 0.0 && (x != 0.0 ==> square > 0.0)
  {
    if x > 0.0 {
      Positive(x, x, square);
    } else if x < 0.0 {
      assert square == -x * -x;
      Positive(-x, -x, square);
    }
  }

  lemma EqualSquares(x: real, y: real)
    requires x >= 0.0 && y >= 0.0 && x * x == y * y
    ensures x == y
  {
    if x < y {
      SquaresDiffer(x, y);
    } else if y < x {
      SquaresDiffer(y, x);
    }
  }

  lemma SquaresDiffer(x: real, y: real)
    requires 0.0 <= x < y
    ensures x * x < y * y
  {
    var d := y - x;
    assert y * y == x * x + 2.0 * (x * d) + d * d;
    assert x * d >= 0.0 && d * d > 0.0;
  }

  lemma Positive(x: real, y: real, product: real)
    requires x > 0.0 && y > 0.0 && product == x * y
    ensures product > 0.0
  {
  }

  lemma ScaledRoots(sqrt: real -> real, n: real, t: real, m: real)
    requires IsSquareRoot(sqrt) && n > 0.0 && t > 0.0 && m == t * t * n
    ensures m > 0.0 && sqrt(n) * sqrt(m) == t * n > 0.0
  {
    var u := t * t;
    SquareSign(t, u);
    Positive(u, n, m);
    Positive(t, n, t * n);
    var p, q := sqrt(n), sqrt(m);
    SquareOfProduct(p, q);
    SquareOfProduct(t, n);
    SwapFactors(n, u);
    assert p * q >= 0.0;
    EqualSquares(p * q, t * n);
  }

  lemma SwapFactors(n: real, u: real)
    ensures n * (u * n) == u * (n * n)
  {
  }

  lemma SquareOfProduct(x: real, y: real)
    ensures (x * y) * (x * y) == (x * x) * (y * y)
  {
  }

  /** The cosine of a vector and a positive multiple of it is 1, that of a negative multiple -1. */
  lemma CosineOfMultiple(sqrt: real -> real, a: Vec, b: Vec, t: real, i: nat)
    requires IsSquareRoot(sqrt) && i < |a| == |b| && a[i] != 0.0 && t != 0.0
    requires forall k :: 0 <= k < |a| ==> b[k] == t * a[k]
    ensures Cosine(sqrt, a, b) == if t > 0.0 then 1.0 else -1.0
  {
    NormPositive(a, i);
    DotOfMultiple(a, b, t);
    if t > 0.0 {
      ScaledQuotient(sqrt, Dot(a, a), t, Dot(a, b), Dot(b, b));
    } else {
      assert t * t == -t * -t;
      ScaledQuotient(sqrt, Dot(a, a), -t, -Dot(a, b), Dot(b, b));
      NegatedQuotient(sqrt, Dot(a, a), -Dot(a, b), Dot(b, b), Dot(a, b));
    }
  }

  lemma ScaledQuotient(sqrt: real -> real, n: real, t: real, d: real, m: real)
    requires IsSquareRoot(sqrt) && n > 0.0 && t > 0.0 && d == t * n && m == t * t * n
    ensures Quotient(sqrt, d, n, m) == 1.0
  {
    ScaledRoots(sqrt, n, t, m);
    SelfQuotient(d, sqrt(n) * sqrt(m));
  }

  lemma SelfQuotient(d: real, size: real)
    requires size == d != 0.0
    ensures d / size == 1.0
  {
  }

  lemma NegatedQuotient(sqrt: real -> real, n: real, d: real, m: real, e: real)
    requires Quotient(sqrt, d, n, m) == 1.0 && e == -d
    ensures Quotient(sqrt, e, n, m) == -1.0
  {
    var size := sqrt(n) * sqrt(m);
    assert size != 0.0 && d / size == 1.0;
    Negated(d, size, e);
    assert Quotient(sqrt, e, n, m) == e / size;
  }

  lemma Negated(d: real, size: real, e: real)
    requires size != 0.0 && d / size == 1.0 && e == -d
    ensures e / size == -1.0
  {
    Cancel(d, size);
    assert e == -1.0 * size;
  }

  lemma {:induction false} DisjointDot(a: Vec, b: Vec)
    requires |a| == |b| && forall k :: 0 <= k < |a| ==> a[k] == 0.0 || b[k] == 0.0
    ensures Dot(a, b) == 0.0
  {
    if a != [] {
      DisjointDot(a[..|a| - 1], b[..|b| - 1]);
    }
  }

  /** Vectors that share no component have cosine 0. */
  lemma CosineOfDisjoint(sqrt: real -> real, a: Vec, b: Vec)
    requires |a| == |b| && forall k :: 0 <= k < |a| ==> a[k] == 0.0 || b[k] == 0.0
    ensures Cosine(sqrt, a, b) == 0.0
  {
    DisjointDot(a, b);
  }
}
