/** The arithmetic of `ai_semantic_search`: the dot product, the Newton square root and the
    cosine similarity built from them. Floats are modelled by exact reals. */
module VectorSearch {

  // ---------------------------------------------------------------- dot product

  /** The sum of the products of the first `n` coordinates. */
  function Dot(a: seq<real>, b: seq<real>, n: nat): real
    requires n <= |a| && n <= |b|
  {
    if n == 0 then 0.0 else Dot(a, b, n - 1) + a[n - 1] * b[n - 1]
  }

  method DotProduct(n: nat, a: seq<real>, b: seq<real>) returns (sum: real)
    requires n <= |a| && n <= |b|
    ensures sum == Dot(a, b, n)
  {
    sum := 0.0;
    for i := 0 to n
      invariant sum == Dot(a, b, i)
    {
      sum := sum + a[i] * b[i];
    }
  }

  lemma Squares(x: real)
    ensures x * x >= 0.0
  {
  }

  lemma MulMono(x: real, y: real, z: real)
    requires x <= y && 0.0 <= z
    ensures x * z <= y * z
  {
    assert (y - x) * z >= 0.0;
  }

  lemma PositiveProduct(x: real, y: real)
    requires x > 0.0 && y > 0.0
    ensures x * y > 0.0
  {
  }

  /** A positive factor cancels on both sides of an inequality. */
  lemma Cancel(x: real, y: real, z: real)
    requires z > 0.0 && x * z <= y * z
    ensures x <= y
  {
    if x > y {
      PositiveProduct(x - y, z);
    }
  }

  lemma StrictMul(x: real, y: real, z: real)
    requires x < y && 0.0 < z
    ensures x * z < y * z
  {
    PositiveProduct(y - x, z);
  }

  lemma SquareGrows(x: real, y: real)
    requires 0.0 <= y < x
    ensures y * y < x * x
  {
    MulMono(y, x, y);
    calc {
      y * y;
    <=
      x * y;
      y * x;
    < { StrictMul(y, x, x); }
      x * x;
    }
  }

  lemma RootOrder(x: real, y: real)
    requires 0.0 <= x && 0.0 <= y && x * x <= y * y
    ensures x <= y
  {
    if x > y {
      SquareGrows(x, y);
    }
  }

  /** Squares order the absolute values. */
  lemma SquareOrder(x: real, y: real)
    requires 0.0 <= y && x * x <= y * y
    ensures -y <= x <= y
  {
    if x >= 0.0 {
      RootOrder(x, y);
    } else {
      assert (-x) * (-x) == x * x;
      RootOrder(-x, y);
    }
  }

  lemma SquareOfProduct(k: real, l: real)
    ensures (k * l) * (k * l) == (l * l) * (k * k)
  {
  }

  lemma SquareOfDouble(k: real)
    ensures (2.0 * k) * (2.0 * k) == 4.0 * (k * k)
  {
  }

  lemma {:induction false} DotSelfNonNegative(a: seq<real>, n: nat)
    requires n <= |a|
    ensures Dot(a, a, n) >= 0.0
  {
    if n > 0 {
      DotSelfNonNegative(a, n - 1);
      Squares(a[n - 1]);
    }
  }

  /** One step of the Cauchy-Schwarz induction: p, q are sums of squares, s the mixed sum. */
  lemma CauchyStep(s: real, p: real, q: real, x: real, y: real)
    requires p >= 0.0 && q >= 0.0 && s * s <= p * q
    ensures (s + x * y) * (s + x * y) <= (p + x * x) * (q + y * y)
  {
    var u, v := y * y, x * x;
    Squares(y);
    Squares(x);
    var w := x * y;
    var d, m := 2.0 * (s * w), p * u + q * v;
    assert p * u >= 0.0 && q * v >= 0.0;
    assert d * d <= m * m by {
      SquareOfDouble(s * w);
      SquareOfProduct(s, w);
      SquareOfProduct(x, y);
      Squares(w);
      MulMono(s * s, p * q, w * w);
      Shuffle(p, q, u, v);
      FourProduct(p * u, q * v);
    }
    SquareOrder(d, m);
    ExpandSquare(s, w);
    ExpandProduct(p, v, q, u);
    SquareOfProduct(x, y);
  }

  lemma Shuffle(p: real, q: real, u: real, v: real)
    ensures (p * q) * (u * v) == (p * u) * (q * v)
  {
  }

  lemma ExpandSquare(s: real, w: real)
    ensures (s + w) * (s + w) == s * s + 2.0 * (s * w) + w * w
  {
  }

  lemma ExpandProduct(p: real, v: real, q: real, u: real)
    ensures (p + v) * (q + u) == p * q + (p * u + q * v) + u * v
  {
  }

  lemma FourProduct(x: real, y: real)
    ensures 4.0 * (x * y) <= (x + y) * (x + y)
  {
    Squares(x - y);
    assert (x - y) * (x - y) == x * x - 2.0 * (x * y) + y * y;
    assert (x + y) * (x + y) == x * x + 2.0 * (x * y) + y * y;
  }

  predicate SquareWithin(s: real, p: real, q: real) {
    s * s <= p * q
  }

  lemma {:induction false} DotWithin(a: seq<real>, b: seq<real>, n: nat)
    requires n <= |a| && n <= |b|
    ensures SquareWithin(Dot(a, b, n), Dot(a, a, n), Dot(b, b, n))
  {
    if n > 0 {
      DotWithin(a, b, n - 1);
      DotSelfNonNegative(a, n - 1);
      DotSelfNonNegative(b, n - 1);
      StepWithin(Dot(a, b, n - 1), Dot(a, a, n - 1), Dot(b, b, n - 1), a[n - 1], b[n - 1]);
    }
  }

  lemma StepWithin(s: real, p: real, q: real, x: real, y: real)
    requires p >= 0.0 && q >= 0.0 && SquareWithin(s, p, q)
    ensures SquareWithin(s + x * y, p + x * x, q + y * y)
  {
    CauchyStep(s, p, q, x, y);
  }

  /** Cauchy-Schwarz for the dot product the search computes. */
  lemma CauchySchwarz(a: seq<real>, b: seq<real>, n: nat)
    requires n <= |a| && n <= |b|
    ensures Dot(a, b, n) * Dot(a, b, n) <= Dot(a, a, n) * Dot(b, b, n)
  {
    DotWithin(a, b, n);
  }

  // ---------------------------------------------------------------- Newton square root

  const ROUNDS: nat := 20

  /** The value of `guess` after `n` rounds. */
  function Newton(x: real, n: nat): (g: real)
    requires x > 0.0
    ensures g > 0.0
  {
    if n == 0 then x
    else
      var g := Newton(x, n - 1);
      assert x / g > 0.0;
      (g + x / g) * 0.5
  }

  method FloatSqrt(x: real) returns (guess: real)
    ensures x <= 0.0 ==> guess == 0.0
    ensures x > 0.0 ==> guess == Newton(x, ROUNDS)
  {
    if x <= 0.0 {
      return 0.0;
    }
    guess := x;
    for i := 0 to ROUNDS
      invariant guess == Newton(x, i)
    {
      guess := (guess + x / guess) * 0.5;
    }
  }

  /** The mean of two numbers is at least their geometric mean. */
  lemma MeanAbove(g: real, h: real)
    ensures ((g + h) * 0.5) * ((g + h) * 0.5) >= g * h
  {
    FourProduct(g, h);
    var s := g + h;
    assert (s * 0.5) * (s * 0.5) == s * s * 0.25;
  }

  lemma QuotientTimes(x: real, g: real)
    requires g > 0.0
    ensures g * (x / g) == x
  {
  }

  /** Every iterate from the first on is at or above the root. */
  lemma NewtonAbove(x: real, n: nat)
    requires x > 0.0 && n > 0
    ensures Newton(x, n) * Newton(x, n) >= x
  {
    var g := Newton(x, n - 1);
    QuotientTimes(x, g);
    MeanAbove(g, x / g);
  }

  lemma Descent(x: real, g: real, h: real)
    requires g > 0.0 && g * h == x && x <= g * g
    ensures (g + h) * 0.5 <= g
  {
    assert h * g == g * h;
    Cancel(h, g, g);
  }

  /** From the first iterate on the iterates never increase. */
  lemma NewtonDescends(x: real, n: nat)
    requires x > 0.0 && n > 0
    ensures Newton(x, n + 1) <= Newton(x, n)
  {
    NewtonAbove(x, n);
    var g := Newton(x, n);
    QuotientTimes(x, g);
    Descent(x, g, x / g);
  }

  function Pow2(n: nat): (p: real)
    ensures p >= 1.0
  {
    if n == 0 then 1.0 else 2.0 * Pow2(n - 1)
  }

  /** The error law: one round squares the error and divides it by twice the iterate. */
  lemma NewtonErrorLaw(x: real, r: real, n: nat)
    requires r > 0.0 && r * r == x && x > 0.0
    ensures (Newton(x, n + 1) - r) * (2.0 * Newton(x, n)) == (Newton(x, n) - r) * (Newton(x, n) - r)
  {
    var g := Newton(x, n);
    QuotientTimes(x, g);
    ErrorAlgebra(r, g, x / g);
  }

  lemma ErrorAlgebra(r: real, g: real, h: real)
    requires g * h == r * r
    ensures ((g + h) * 0.5 - r) * (2.0 * g) == (g - r) * (g - r)
  {
    calc {
      ((g + h) * 0.5 - r) * (2.0 * g);
      g * g + g * h - 2.0 * r * g;
      (g - r) * (g - r);
    }
  }

  /** An error multiplied by 2^n. */
  function Scaled(e: real, n: nat): real {
    e * Pow2(n)
  }

  /** Linear bound from the error law: after `n` rounds the result exceeds the root by at
      most (r - 1)^2 / 2^n, and never falls below it. */
  lemma {:induction false} NewtonError(x: real, r: real, n: nat)
    requires r > 0.0 && r * r == x && x > 0.0 && n > 0
    ensures 0.0 <= Newton(x, n) - r
    ensures Scaled(Newton(x, n) - r, n) <= (r - 1.0) * (r - 1.0)
  {
    NewtonAboveRoot(x, r, n);
    if n == 1 {
      FirstError(x, r);
      HalvedBound(Newton(x, n) - r, 2.0 * (Newton(x, n) - r), 0, (r - 1.0) * (r - 1.0));
    } else {
      NewtonError(x, r, n - 1);
      ErrorHalves(x, r, n - 1);
      HalvedBound(Newton(x, n) - r, Newton(x, n - 1) - r, n - 1, (r - 1.0) * (r - 1.0));
    }
  }

  lemma HalvedBound(e: real, d: real, n: nat, c: real)
    requires 2.0 * e <= d && Scaled(d, n) <= c
    ensures Scaled(e, n + 1) <= c
  {
    MulMono(2.0 * e, d, Pow2(n));
    Doubling(e, Pow2(n));
  }

  lemma Doubling(e: real, p: real)
    ensures e * (2.0 * p) == (2.0 * e) * p
  {
  }

  lemma NewtonAboveRoot(x: real, r: real, n: nat)
    requires r > 0.0 && r * r == x && x > 0.0 && n > 0
    ensures r <= Newton(x, n)
  {
    NewtonAbove(x, n);
    SquareOrder(r, Newton(x, n));
  }

  lemma FirstError(x: real, r: real)
    requires r > 0.0 && r * r == x && x > 0.0
    ensures 2.0 * (Newton(x, 1) - r) == (r - 1.0) * (r - 1.0)
  {
    NewtonErrorLaw(x, r, 0);
    assert Newton(x, 0) == x;
    FirstErrorAlgebra(x, r, Newton(x, 1) - r);
  }

  lemma FirstErrorAlgebra(x: real, r: real, e: real)
    requires r * r == x && x > 0.0 && e * (2.0 * x) == (x - r) * (x - r)
    ensures 2.0 * e == (r - 1.0) * (r - 1.0)
  {
    var c := (r - 1.0) * (r - 1.0);
    Doubling(e, x);
    FactorRoot(x, r);
    assert (2.0 * e) * x == c * x;
    Cancel(2.0 * e, c, x);
    Cancel(c, 2.0 * e, x);
  }

  lemma ErrorHalves(x: real, r: real, n: nat)
    requires r > 0.0 && r * r == x && x > 0.0 && n > 0
    ensures 2.0 * (Newton(x, n + 1) - r) <= Newton(x, n) - r
  {
    NewtonAboveRoot(x, r, n);
    NewtonErrorLaw(x, r, n);
    HalfError(Newton(x, n + 1) - r, Newton(x, n) - r, Newton(x, n), r);
  }

  lemma FactorRoot(x: real, r: real)
    requires r * r == x
    ensures (x - r) * (x - r) == ((r - 1.0) * (r - 1.0)) * x
  {
    var c := r - 1.0;
    assert x - r == r * c;
    SquareOfProduct(r, c);
  }

  lemma HalfError(e: real, d: real, g: real, r: real)
    requires g > 0.0 && r > 0.0 && d == g - r && d >= 0.0 && e * (2.0 * g) == d * d
    ensures 2.0 * e <= d
  {
    MulMono(d, g, d);
    assert (2.0 * e) * g == d * d;
    Cancel(2.0 * e, d, g);
  }

  /** What `ai_float_sqrt` promises for the value it returns. */
  lemma SqrtBounds(x: real, r: real)
    requires r > 0.0 && r * r == x && x > 0.0
    ensures r <= Newton(x, ROUNDS) <= r + (r - 1.0) * (r - 1.0) / Pow2(ROUNDS)
  {
    NewtonError(x, r, ROUNDS);
    DivideBound(Newton(x, ROUNDS) - r, (r - 1.0) * (r - 1.0), ROUNDS);
  }

  lemma DivideBound(e: real, c: real, n: nat)
    requires Scaled(e, n) <= c
    ensures e <= c / Pow2(n)
  {
    QuotientTimes(c, Pow2(n));
    Cancel(e, c / Pow2(n), Pow2(n));
  }

  // ---------------------------------------------------------------- similarity

  const TINY: real := 0.000001

  /** The norm the search divides by: the Newton root, or 1 when that is too small. */
  function Norm(a: seq<real>, n: nat): real
    requires n <= |a|
  {
    var s := Dot(a, a, n);
    var g := if s <= 0.0 then 0.0 else Newton(s, ROUNDS);
    if g < TINY then 1.0 else g
  }

  lemma NormDominates(a: seq<real>, n: nat)
    requires n <= |a|
    ensures Norm(a, n) >= TINY
    ensures Norm(a, n) * Norm(a, n) >= Dot(a, a, n)
  {
    var s := Dot(a, a, n);
    if s > 0.0 {
      NewtonAbove(s, ROUNDS);
      var g := Newton(s, ROUNDS);
      if g < TINY {
        MulMono(g, 1.0, g);
        assert g * g <= 1.0 * g <= 1.0;
      }
    }
  }

  /** `dot / (query_norm * vec_norm)`: the guard makes the denominator positive. */
  function Quotient(d: real, k: real, l: real): real
    requires k > 0.0 && l > 0.0
  {
    PositiveProduct(k, l);
    d / (k * l)
  }

  /** The similarity the search stores for one database vector. */
  function Similarity(q: seq<real>, v: seq<real>, n: nat): real
    requires n <= |q| && n <= |v|
  {
    NormDominates(q, n);
    NormDominates(v, n);
    Quotient(Dot(q, v, n), Norm(q, n), Norm(v, n))
  }

  /** A quotient is within [-1, 1] when k and l bound the roots of p and s. */
  lemma QuotientBounded(d: real, p: real, s: real, k: real, l: real)
    requires p >= 0.0 && s >= 0.0 && d * d <= p * s
    requires k > 0.0 && l > 0.0 && p <= k * k && s <= l * l
    ensures -1.0 <= Quotient(d, k, l) <= 1.0
  {
    var m := k * l;
    PositiveProduct(k, l);
    MulMono(p, k * k, s);
    Squares(k);
    MulMono(s, l * l, k * k);
    SquareOfProduct(k, l);
    SquareOrder(d, m);
    var t := Quotient(d, k, l);
    assert t * m == d;
    Cancel(t, 1.0, m);
    Cancel(-1.0, t, m);
  }

  /** No two vectors ever score outside [-1, 1]: the norms used are never below the true
      norms, so Cauchy-Schwarz bounds the quotient. */
  lemma SimilarityBounded(q: seq<real>, v: seq<real>, n: nat)
    requires n <= |q| && n <= |v|
    ensures -1.0 <= Similarity(q, v, n) <= 1.0
  {
    NormDominates(q, n);
    NormDominates(v, n);
    CauchySchwarz(q, v, n);
    DotSelfNonNegative(q, n);
    DotSelfNonNegative(v, n);
    QuotientBounded(Dot(q, v, n), Dot(q, q, n), Dot(v, v, n), Norm(q, n), Norm(v, n));
  }

  lemma NormPositive(a: seq<real>, n: nat)
    requires n <= |a|
    ensures Norm(a, n) > 0.0
  {
    NormDominates(a, n);
  }

  lemma QuotientMeans(d: real, k: real, l: real, t: real)
    requires k > 0.0 && l > 0.0 && t == Quotient(d, k, l)
    ensures t * (k * l) == d
    ensures t > 0.0 <==> d > 0.0
    ensures t < 0.0 <==> d < 0.0
  {
    PositiveProduct(k, l);
    var m := k * l;
    if t > 0.0 {
      PositiveProduct(t, m);
    } else if t < 0.0 {
      PositiveProduct(-t, m);
    }
  }

  /** s times the product of k and l is d. */
  predicate Yields(s: real, k: real, l: real, d: real) {
    s * (k * l) == d
  }

  lemma QuotientYields(d: real, k: real, l: real, t: real)
    requires k > 0.0 && l > 0.0 && t == Quotient(d, k, l)
    ensures Yields(t, k, l, d) && (t > 0.0 <==> d > 0.0) && (t < 0.0 <==> d < 0.0)
  {
    QuotientMeans(d, k, l, t);
  }

  lemma ScoreYields(q: seq<real>, v: seq<real>, n: nat, score: real)
    requires n <= |q| && n <= |v| && score == Similarity(q, v, n)
    ensures Yields(score, Norm(q, n), Norm(v, n), Dot(q, v, n))
    ensures score > 0.0 <==> Dot(q, v, n) > 0.0
    ensures score < 0.0 <==> Dot(q, v, n) < 0.0
  {
    NormPositive(q, n);
    NormPositive(v, n);
    QuotientYields(Dot(q, v, n), Norm(q, n), Norm(v, n), score);
  }

  /** What a score is: times the two norms it is the dot product, whose sign it has. */
  lemma ScoreTimesNorms(q: seq<real>, v: seq<real>, n: nat, score: real)
    requires n <= |q| && n <= |v| && score == Similarity(q, v, n)
    ensures score * (Norm(q, n) * Norm(v, n)) == Dot(q, v, n)
    ensures score > 0.0 <==> Dot(q, v, n) > 0.0
    ensures score < 0.0 <==> Dot(q, v, n) < 0.0
  {
    ScoreYields(q, v, n, score);
  }

  // ---------------------------------------------------------------- the search

  datatype SearchError = InvalidParam

  datatype SearchResult = Scored(scores: seq<(real, nat)>, topK: nat) | Rejected(error: SearchError)

  lemma AllScores(query: seq<real>, database: seq<seq<real>>, scores: seq<(real, nat)>, dim: nat)
    requires |scores| == |database| && dim <= |query| && forall row :: row in database ==> dim <= |row|
    requires forall i :: 0 <= i < |database| ==> scores[i] == (Similarity(query, database[i], dim), i)
    ensures forall i :: 0 <= i < |database| ==>
              && -1.0 <= scores[i].0 <= 1.0
              && Yields(scores[i].0, Norm(query, dim), Norm(database[i], dim), Dot(query, database[i], dim))
  {
    forall i | 0 <= i < |database|
      ensures -1.0 <= scores[i].0 <= 1.0
      ensures Yields(scores[i].0, Norm(query, dim), Norm(database[i], dim), Dot(query, database[i], dim))
    {
      SimilarityBounded(query, database[i], dim);
      ScoreYields(query, database[i], dim, scores[i].0);
    }
  }

  /** The scoring loop of the search; `database[i]` is the i-th vector copied from the caller.
      Every accepted request yields one score per vector, in order: the number within [-1, 1]
      that times the two norms is the dot product. */
  method SemanticScores(query: seq<real>, queryDim: nat, database: seq<seq<real>>, vectorDim: nat, topK: nat)
    returns (r: SearchResult)
    requires |query| == queryDim
    requires forall row :: row in database ==> |row| == vectorDim
    ensures r.Scored? <==> queryDim == vectorDim && 0 < queryDim <= 4096 && 0 < |database| <= 10000
    ensures r.Scored? ==>
              && |r.scores| == |database|
              && (forall i :: 0 <= i < |database| ==>
                    && r.scores[i].1 == i && -1.0 <= r.scores[i].0 <= 1.0
                    && Yields(r.scores[i].0, Norm(query, vectorDim), Norm(database[i], vectorDim),
                              Dot(query, database[i], vectorDim)))
              && r.topK in {if topK == 0 then 10 else topK, |database|, 1000}
              && (topK > 0 ==> r.topK <= topK) && r.topK <= |database| && r.topK <= 1000
              && (topK == 0 ==> r.topK <= 10)
  {
    var dbSize := |database|;
    if queryDim == 0 || queryDim > 4096 {
      return Rejected(InvalidParam);
    }
    if vectorDim == 0 || vectorDim > 4096 {
      return Rejected(InvalidParam);
    }
    if queryDim != vectorDim {
      return Rejected(InvalidParam);
    }
    if dbSize == 0 || dbSize > 10000 {
      return Rejected(InvalidParam);
    }
    var k := if topK == 0 then 10 else topK;
    k := if k > dbSize then dbSize else k;
    k := if k > 1000 then 1000 else k;

    var scores := ScoreRows(query, database, vectorDim);
    AllScores(query, database, scores, vectorDim);
    return Scored(scores, k);
  }

  /** The loop over the rows. */
  method ScoreRows(query: seq<real>, database: seq<seq<real>>, dim: nat) returns (scores: seq<(real, nat)>)
    requires dim <= |query| && forall row :: row in database ==> dim <= |row|
    ensures |scores| == |database|
    ensures forall i :: 0 <= i < |database| ==> scores[i] == (Similarity(query, database[i], dim), i)
  {
    var queryNorm := GuardedNorm(query, dim);
    scores := [];
    for i := 0 to |database|
      invariant |scores| == i
      invariant forall j :: 0 <= j < i ==> scores[j] == (Similarity(query, database[j], dim), j)
    {
      var score := ScoreVector(query, queryNorm, database[i], dim);
      scores := scores + [(score, i)];
    }
  }

  /** The body of the scoring loop. */
  method ScoreVector(query: seq<real>, queryNorm: real, vec: seq<real>, dim: nat) returns (score: real)
    requires dim <= |query| && dim <= |vec|
    requires queryNorm == Norm(query, dim) && queryNorm > 0.0
    ensures score == Similarity(query, vec, dim)
    ensures -1.0 <= score <= 1.0
    ensures score * (queryNorm * Norm(vec, dim)) == Dot(query, vec, dim)
  {
    var dot := DotProduct(dim, query, vec);
    var vecNorm := GuardedNorm(vec, dim);
    score := Quotient(dot, queryNorm, vecNorm);
    SimilarityBounded(query, vec, dim);
    ScoreTimesNorms(query, vec, dim, score);
  }

  /** The norm computation both call sites repeat, with the guard against division by zero. */
  method GuardedNorm(a: seq<real>, n: nat) returns (norm: real)
    requires n <= |a|
    ensures norm == Norm(a, n) && norm > 0.0
    ensures var s := Dot(a, a, n);
            norm == if s > 0.0 && Newton(s, 20) >= 0.000001 then Newton(s, 20) else 1.0
  {
    var dot := DotProduct(n, a, a);
    norm := FloatSqrt(dot);
    if norm < TINY {
      norm := 1.0;
    }
    NormDominates(a, n);
  }

  lemma {:induction false} DotSymmetric(a: seq<real>, b: seq<real>, n: nat)
    requires n <= |a| && n <= |b|
    ensures Dot(a, b, n) == Dot(b, a, n)
  {
    if n > 0 {
      DotSymmetric(a, b, n - 1);
    }
  }

  /** Cosine similarity does not depend on which vector is the query. */
  lemma SimilaritySymmetric(q: seq<real>, v: seq<real>, n: nat)
    requires n <= |q| && n <= |v|
    ensures Similarity(q, v, n) == Similarity(v, q, n)
  {
    DotSymmetric(q, v, n);
    assert Norm(q, n) * Norm(v, n) == Norm(v, n) * Norm(q, n);
  }
}
