/** How near the score of a search comes to the cosine, and what its dot product is. */
module SearchScores {
  import opened VectorSearch

  // ---------------------------------------------------------------- the dot product

  function Plus(a: seq<real>, b: seq<real>): (s: seq<real>)
    requires |a| == |b|
    ensures |s| == |a| && forall i :: 0 <= i < |a| ==> s[i] == a[i] + b[i]
  {
    seq(|a|, i requires 0 <= i < |a| => a[i] + b[i])
  }

  function Times(x: real, a: seq<real>): (s: seq<real>)
    ensures |s| == |a| && forall i :: 0 <= i < |a| ==> s[i] == x * a[i]
  {
    seq(|a|, i requires 0 <= i < |a| => x * a[i])
  }

  /** One at position i and zero elsewhere. */
  function Unit(size: nat, i: nat): (s: seq<real>)
    ensures |s| == size && forall j :: 0 <= j < size ==> s[j] == if j == i then 1.0 else 0.0
  {
    seq(size, j => if j == i then 1.0 else 0.0)
  }

  lemma Distribute(x: real, a: real, b: real, c: real)
    ensures (a + x * b) * c == a * c + x * (b * c)
  {
  }

  /** One more coordinate of a linear combination. */
  lemma LinearStep(p: real, q: real, x: real, a: real, b: real, c: real)
    ensures (p + x * q) + (a + x * b) * c == (p + a * c) + x * (q + b * c)
  {
    Distribute(x, a, b, c);
  }

  lemma {:induction false} DotLinearFirst(a: seq<real>, x: real, b: seq<real>, c: seq<real>, n: nat)
    requires n <= |a| == |b| && n <= |c|
    ensures Dot(Plus(a, Times(x, b)), c, n) == Dot(a, c, n) + x * Dot(b, c, n)
  {
    if n > 0 {
      DotLinearFirst(a, x, b, c, n - 1);
      LinearStep(Dot(a, c, n - 1), Dot(b, c, n - 1), x, a[n - 1], b[n - 1], c[n - 1]);
    }
  }

  /** Linear in the first argument, and by symmetry in the second. */
  lemma DotLinear(a: seq<real>, x: real, b: seq<real>, c: seq<real>, n: nat)
    requires n <= |a| == |b| && n <= |c|
    ensures Dot(Plus(a, Times(x, b)), c, n) == Dot(a, c, n) + x * Dot(b, c, n)
    ensures Dot(c, Plus(a, Times(x, b)), n) == Dot(c, a, n) + x * Dot(c, b, n)
  {
    DotLinearFirst(a, x, b, c, n);
    DotSymmetric(Plus(a, Times(x, b)), c, n);
    DotSymmetric(a, c, n);
    DotSymmetric(b, c, n);
  }

  /** Against a unit vector it is the coordinate: with linearity this fixes the dot product. */
  lemma {:induction false} DotUnit(a: seq<real>, i: nat, n: nat)
    requires n <= |a|
    ensures Dot(a, Unit(|a|, i), n) == if i < n then a[i] else 0.0
  {
    if n > 0 {
      DotUnit(a, i, n - 1);
    }
  }

  // ---------------------------------------------------------------- the norm

  lemma TwentyDoublings()
    ensures Pow2(20) == 1048576.0
  {
    assert Pow2(5) == 32.0;
    assert Pow2(10) == 1024.0;
    assert Pow2(15) == 32768.0;
  }

  /** A vector whose length r is not tiny is divided by r and at most (r - 1)^2 / 2^20 more. */
  lemma NormNearLength(a: seq<real>, n: nat, r: real)
    requires n <= |a| && r >= 0.000001 && r * r == Dot(a, a, n)
    ensures r <= Norm(a, n) <= r + (r - 1.0) * (r - 1.0) / 1048576.0
  {
    PositiveProduct(r, r);
    TwentyDoublings();
    SqrtBounds(r * r, r);
  }

  lemma SquareZero(d: real, p: real, s: real)
    requires d * d <= p * s && p == 0.0
    ensures d == 0.0
  {
    SquareOrder(d, 0.0);
  }

  /** A zero vector is divided by 1, so that it scores 0 against everything. */
  lemma ZeroScores(q: seq<real>, v: seq<real>, n: nat)
    requires n <= |q| && n <= |v| && Dot(q, q, n) == 0.0
    ensures Norm(q, n) == 1.0 && Similarity(q, v, n) == 0.0
  {
    CauchySchwarz(q, v, n);
    SquareZero(Dot(q, v, n), Dot(q, q, n), Dot(v, v, n));
    ScoreTimesNorms(q, v, n, Similarity(q, v, n));
  }

  // ---------------------------------------------------------------- the score

  function Abs(x: real): real {
    if x < 0.0 then -x else x
  }

  lemma AbsTimes(x: real, y: real)
    requires y >= 0.0
    ensures Abs(x * y) == Abs(x) * y
  {
    if x >= 0.0 {
      MulMono(0.0, x, y);
    } else {
      MulMono(x, 0.0, y);
      assert (-x) * y == -(x * y);
    }
  }

  /** When both lengths are too large by the factors 1 + a and 1 + b, the quotient s of the cosine c
      by their product is at most a + b away from it. */
  lemma FactorsBound(s: real, c: real, a: real, b: real)
    requires a >= 0.0 && b >= 0.0 && Abs(c) <= 1.0 && s * ((1.0 + a) * (1.0 + b)) == c
    ensures Abs(c - s) <= a + b
  {
    var m, u := (1.0 + a) * (1.0 + b), a + b;
    ProductOfSums(a, b);
    GrowthBound(a, b, m);
    GapBound(s, c, m, u);
  }

  lemma ProductOfSums(a: real, b: real)
    requires a >= 0.0 && b >= 0.0
    ensures (1.0 + a) * (1.0 + b) == 1.0 + (a + b) + a * b
    ensures (1.0 + a) * (1.0 + b) >= 1.0
  {
    MulMono(0.0, a, b);
  }

  lemma GapBound(s: real, c: real, m: real, u: real)
    requires m >= 1.0 && u >= 0.0 && m - 1.0 <= u * m && s * m == c && Abs(c) <= 1.0
    ensures Abs(c - s) <= u
  {
    var t := Abs(s);
    AbsTimes(s, m);
    assert c - s == s * (m - 1.0);
    AbsTimes(s, m - 1.0);
    calc {
      Abs(c - s);
      (m - 1.0) * t;
    <= { MulMono(m - 1.0, u * m, t); }
      (u * m) * t;
      (t * m) * u;
    <= { MulMono(t * m, 1.0, u); }
      1.0 * u;
    }
  }

  lemma GrowthBound(a: real, b: real, m: real)
    requires a >= 0.0 && b >= 0.0 && m == 1.0 + (a + b) + a * b
    ensures m - 1.0 <= (a + b) * m
  {
    var u, w := a + b, a * b;
    MulMono(0.0, a, b);
    MulMono(0.0, u, w);
    SquareOfSum(a, b);
    assert u * m == u + u * u + u * w;
  }

  lemma SquareOfSum(a: real, b: real)
    ensures (a + b) * (a + b) >= 2.0 * (a * b)
  {
    ExpandSquare(a, b);
    Squares(a);
    Squares(b);
  }

  /** The relative excess of a length. */
  lemma Excess(k: real, p: real, e: real) returns (a: real)
    requires p > 0.0 && p <= k <= p + e
    ensures 0.0 <= a <= e / p && k == (1.0 + a) * p
  {
    a := (k - p) / p;
    var b := e / p;
    QuotientTimes(k - p, p);
    QuotientTimes(e, p);
    assert a * p == k - p && b * p == e;
    Cancel(0.0, a, p);
    Cancel(a, b, p);
  }

  lemma Regroup(s: real, a: real, p: real, b: real, r: real)
    ensures s * (((1.0 + a) * p) * ((1.0 + b) * r)) == (s * ((1.0 + a) * (1.0 + b))) * (p * r)
  {
    var x, y := 1.0 + a, 1.0 + b;
    assert (x * p) * (y * r) == (x * y) * (p * r);
    assert s * ((x * y) * (p * r)) == (s * (x * y)) * (p * r);
  }

  lemma SameFactor(x: real, y: real, m: real)
    requires m > 0.0 && x * m == y * m
    ensures x == y
  {
    Cancel(x, y, m);
    Cancel(y, x, m);
  }

  lemma CosineBounded(q: seq<real>, v: seq<real>, n: nat, p: real, r: real, c: real)
    requires n <= |q| && n <= |v| && p > 0.0 && r > 0.0
    requires p * p == Dot(q, q, n) && r * r == Dot(v, v, n) && Yields(c, p, r, Dot(q, v, n))
    ensures Abs(c) <= 1.0
  {
    CauchySchwarz(q, v, n);
    QuotientWithin(Dot(q, v, n), Dot(q, q, n), Dot(v, v, n), p, r, c);
  }

  lemma QuotientWithin(d: real, x: real, y: real, p: real, r: real, c: real)
    requires d * d <= x * y && p > 0.0 && r > 0.0 && p * p == x && r * r == y && c * (p * r) == d
    ensures Abs(c) <= 1.0
  {
    var m := p * r;
    PositiveProduct(p, r);
    assert m * m == x * y by {
      SquareOfProduct(r, p);
      assert r * p == m;
    }
    SquareOrder(d, m);
    assert c * m == d && 1.0 * m == m && (-1.0) * m == -m;
    Cancel(c, 1.0, m);
    Cancel(-1.0, c, m);
  }

  lemma Compared(d: real, k: real, l: real, s: real, c: real, p: real, r: real, e: real, f: real)
    requires p > 0.0 && r > 0.0 && p <= k <= p + e && r <= l <= r + f
    requires Yields(s, k, l, d) && Yields(c, p, r, d) && Abs(c) <= 1.0
    ensures Abs(c - s) <= e / p + f / r
  {
    var a := Excess(k, p, e);
    var b := Excess(l, r, f);
    Regroup(s, a, p, b, r);
    PositiveProduct(p, r);
    SameFactor(s * ((1.0 + a) * (1.0 + b)), c, p * r);
    FactorsBound(s, c, a, b);
  }

  /** The score of two vectors whose lengths p and r are not tiny is the cosine c of their angle, up
      to an explicit error. */
  lemma ScoreNearCosine(q: seq<real>, v: seq<real>, n: nat, p: real, r: real, c: real, score: real)
    requires n <= |q| && n <= |v| && p >= 0.000001 && r >= 0.000001 && score == Similarity(q, v, n)
    requires p * p == Dot(q, q, n) && r * r == Dot(v, v, n) && Yields(c, p, r, Dot(q, v, n))
    ensures Abs(c - score) <=
              ((p - 1.0) * (p - 1.0) / 1048576.0) / p + ((r - 1.0) * (r - 1.0) / 1048576.0) / r
  {
    NormNearLength(q, n, p);
    NormNearLength(v, n, r);
    CosineBounded(q, v, n, p, r, c);
    ScoreYields(q, v, n, score);
    Compared(Dot(q, v, n), Norm(q, n), Norm(v, n), score, c, p, r,
             (p - 1.0) * (p - 1.0) / 1048576.0, (r - 1.0) * (r - 1.0) / 1048576.0);
  }

  /** In particular a vector finds itself with a score near 1. */
  lemma SelfScore(v: seq<real>, n: nat, r: real)
    requires n <= |v| && r >= 0.000001 && r * r == Dot(v, v, n)
    ensures Similarity(v, v, n) <= 1.0
    ensures Similarity(v, v, n) >= 1.0 - 2.0 * (((r - 1.0) * (r - 1.0) / 1048576.0) / r)
  {
    SimilarityBounded(v, v, n);
    ScoreNearCosine(v, v, n, r, r, 1.0, Similarity(v, v, n));
  }
}
