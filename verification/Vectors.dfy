/** Dot products, normalisation and the two-embedder ensemble, over the reals. */
module Vectors {
  import opened Common

  type Vec = seq<real>

  function Sum(xs: seq<real>): real {
    if xs == [] then 0.0 else Sum(xs[..|xs| - 1]) + xs[|xs| - 1]
  }

  function Products(a: Vec, b: Vec): seq<real>
    requires |a| == |b|
  {
    seq(|a|, i requires 0 <= i < |a| => a[i] * b[i])
  }

  function Dot(a: Vec, b: Vec): real
    requires |a| == |b|
  {
    Sum(Products(a, b))
  }

  function Cosine(a: Vec, b: Vec): real {
    if |a| != |b| || |a| == 0 then 0.0 else Dot(a, b)
  }

  /** Where there is anything to compare, and also where there is nothing, it is the dot product. */
  lemma CosineIsDot(a: Vec, b: Vec)
    requires |a| == |b|
    ensures Cosine(a, b) == Dot(a, b)
  {
  }

  lemma SumSnoc(xs: seq<real>, x: real)
    ensures Sum(xs + [x]) == Sum(xs) + x
  {
    assert (xs + [x])[..|xs|] == xs;
  }

  method ComputeCosine(a: Vec, b: Vec) returns (sum: real)
    ensures sum == Cosine(a, b)
  {
    if |a| != |b| || |a| == 0 {
      return 0.0;
    }
    sum := 0.0;
    ghost var ps := Products(a, b);
    for i := 0 to |a|
      invariant sum == Sum(ps[..i])
    {
      SumSnoc(ps[..i], ps[i]);
      assert ps[..i + 1] == ps[..i] + [ps[i]];
      sum := sum + a[i] * b[i];
    }
    assert ps[..|a|] == ps;
  }

  predicate IsUnit(a: Vec) {
    Dot(a, a) == 1.0
  }

  function Scale(a: Vec, c: real): Vec {
    seq(|a|, i requires 0 <= i < |a| => a[i] * c)
  }

  lemma {:induction false} SumScaled(xs: seq<real>, ys: seq<real>, k: real)
    requires |xs| == |ys| && forall i | 0 <= i < |xs| :: ys[i] == k * xs[i]
    ensures Sum(ys) == k * Sum(xs)
  {
    if xs != [] {
      var n := |xs| - 1;
      SumScaled(xs[..n], ys[..n], k);
      assert ys[n] == k * xs[n];
      assert k * (Sum(xs[..n]) + xs[n]) == k * Sum(xs[..n]) + k * xs[n];
    }
  }

  lemma {:induction false} SumAppend(xs: seq<real>, ys: seq<real>)
    ensures Sum(xs + ys) == Sum(xs) + Sum(ys)
  {
    if ys == [] {
      assert xs + ys == xs;
    } else {
      var n := |ys| - 1;
      SumAppend(xs, ys[..n]);
      assert (xs + ys)[..|xs + ys| - 1] == xs + ys[..n];
    }
  }

  lemma ScaleStep(x: real, c: real, y: real, d: real, k: real)
    requires k == c * d
    ensures (x * c) * (y * d) == k * (x * y)
  {
    assert (x * c) * (y * d) == (c * d) * (x * y);
  }

  lemma DotScale(a: Vec, b: Vec, c: real, d: real, k: real)
    requires |a| == |b| && k == c * d
    ensures Dot(Scale(a, c), Scale(b, d)) == k * Dot(a, b)
  {
    var xs, ys := Products(a, b), Products(Scale(a, c), Scale(b, d));
    forall i | 0 <= i < |xs| ensures ys[i] == k * xs[i] {
      ScaleStep(a[i], c, b[i], d, k);
    }
    SumScaled(xs, ys, k);
  }

  lemma DotAppend(a: Vec, b: Vec, c: Vec, d: Vec)
    requires |a| == |b| && |c| == |d|
    ensures Dot(a + c, b + d) == Dot(a, b) + Dot(c, d)
  {
    var all := Products(a + c, b + d);
    forall i | 0 <= i < |all| ensures all[i] == (Products(a, b) + Products(c, d))[i] {
      assert (a + c)[i] == (if i < |a| then a[i] else c[i - |a|]);
      assert (b + d)[i] == (if i < |a| then b[i] else d[i - |a|]);
    }
    assert all == Products(a, b) + Products(c, d);
    SumAppend(Products(a, b), Products(c, d));
  }

  lemma {:induction false} SumNonNegative(xs: seq<real>)
    requires forall i | 0 <= i < |xs| :: xs[i] >= 0.0
    ensures Sum(xs) >= 0.0
  {
    if xs != [] { SumNonNegative(xs[..|xs| - 1]); }
  }

  lemma SquareNonNegative(a: Vec)
    ensures Dot(a, a) >= 0.0
  {
    forall i | 0 <= i < |a| ensures Products(a, a)[i] >= 0.0 {
      SquareIsNonNegative(a[i]);
    }
    SumNonNegative(Products(a, a));
  }

  lemma SquareIsNonNegative(x: real)
    ensures x * x >= 0.0
  {
    if x < 0.0 { assert (-x) * (-x) > 0.0; }
  }

  lemma {:induction false} SumOfThree(s: seq<real>, x: seq<real>, y: seq<real>, z: seq<real>)
    requires |s| == |x| == |y| == |z| && forall i | 0 <= i < |s| :: s[i] == x[i] + 2.0 * y[i] + z[i]
    ensures Sum(s) == Sum(x) + 2.0 * Sum(y) + Sum(z)
  {
    if s != [] {
      var n := |s| - 1;
      SumOfThree(s[..n], x[..n], y[..n], z[..n]);
      assert s[n] == x[n] + 2.0 * y[n] + z[n];
    }
  }

  lemma Binomial(x: real, y: real, s: real)
    requires s == x + y
    ensures s * s == x * x + 2.0 * (x * y) + y * y
  {
  }

  lemma SquareOfSum(a: Vec, b: Vec, sum: Vec)
    requires |a| == |b| == |sum| && forall i | 0 <= i < |a| :: sum[i] == a[i] + b[i]
    ensures Dot(sum, sum) == Dot(a, a) + 2.0 * Dot(a, b) + Dot(b, b)
  {
    forall i | 0 <= i < |a|
      ensures Products(sum, sum)[i] == Products(a, a)[i] + 2.0 * Products(a, b)[i] + Products(b, b)[i]
    {
      Binomial(a[i], b[i], sum[i]);
    }
    SumOfThree(Products(sum, sum), Products(a, a), Products(a, b), Products(b, b));
  }

  lemma UnitCosineAbove(a: Vec, b: Vec)
    requires |a| == |b| && IsUnit(a) && IsUnit(b)
    ensures -1.0 <= Dot(a, b)
  {
    var sum := seq(|a|, i requires 0 <= i < |a| => a[i] + b[i]);
    SquareOfSum(a, b, sum);
    SquareNonNegative(sum);
  }

  /** The cosine of unit vectors lies between -1 and 1. */
  lemma UnitCosineBounded(a: Vec, b: Vec)
    requires |a| == |b| && IsUnit(a) && IsUnit(b)
    ensures -1.0 <= Cosine(a, b) <= 1.0
  {
    UnitCosineAbove(a, b);
    DotScale(b, b, -1.0, -1.0, 1.0);
    DotScale(a, b, 1.0, -1.0, -1.0);
    assert Scale(a, 1.0) == a;
    UnitCosineAbove(a, Scale(b, -1.0));
    CosineIsDot(a, b);
  }

  function Difference(a: Vec, b: Vec): Vec
    requires |a| == |b|
  {
    seq(|a|, i requires 0 <= i < |a| => a[i] - b[i])
  }

  function SquaredDistance(a: Vec, b: Vec): real
    requires |a| == |b|
  {
    Dot(Difference(a, b), Difference(a, b))
  }

  /** What the cosine measures: of vectors of given lengths, the higher it is, the nearer they are; for
      unit vectors, 2 minus the squared distance is twice the cosine. */
  lemma CosineIsNearness(a: Vec, b: Vec)
    requires |a| == |b|
    ensures SquaredDistance(a, b) == Dot(a, a) + Dot(b, b) - 2.0 * Cosine(a, b)
    ensures IsUnit(a) && IsUnit(b) ==> SquaredDistance(a, b) == 2.0 - 2.0 * Cosine(a, b)
  {
    var minus := Scale(b, -1.0);
    SquareOfSum(a, minus, Difference(a, b));
    DotScale(b, b, -1.0, -1.0, 1.0);
    DotScale(a, b, 1.0, -1.0, -1.0);
    assert Scale(a, 1.0) == a;
    CosineIsDot(a, b);
  }

  /** A square root, as the math library gives it. */
  ghost predicate IsSqrt(sqrt: real -> real) {
    forall x: real | x >= 0.0 :: sqrt(x) >= 0.0 && sqrt(x) * sqrt(x) == x
  }

  lemma Root(x: real, sqrt: real -> real) returns (n: real)
    requires IsSqrt(sqrt) && x > 0.0
    ensures n == sqrt(x) && n > 0.0 && n * n == x
  {
    n := sqrt(x);
    assert n >= 0.0 && n * n == x;
  }

  lemma DivideIsScale(x: real, n: real, c: real)
    requires n != 0.0 && c == 1.0 / n
    ensures x / n == x * c
  {
  }

  function Normalized(a: Vec, sqrt: real -> real): Vec {
    if Dot(a, a) == 0.0 || sqrt(Dot(a, a)) == 0.0 then a else Scale(a, 1.0 / sqrt(Dot(a, a)))
  }

  method SumOfSquares(vec: array<real>) returns (sumSq: real)
    ensures sumSq == Dot(vec[..], vec[..])
  {
    sumSq := 0.0;
    ghost var ps := Products(vec[..], vec[..]);
    for i := 0 to vec.Length
      invariant sumSq == Sum(ps[..i])
    {
      SumSnoc(ps[..i], ps[i]);
      assert ps[..i + 1] == ps[..i] + [ps[i]];
      sumSq := sumSq + vec[i] * vec[i];
    }
    assert ps[..vec.Length] == ps;
  }

  method DivideAll(vec: array<real>, norm: real, ghost c: real)
    requires norm != 0.0 && c == 1.0 / norm
    modifies vec
    ensures vec[..] == Scale(old(vec[..]), c)
  {
    ghost var was := vec[..];
    for i := 0 to vec.Length
      invariant forall k | 0 <= k < i :: vec[k] == Scale(was, c)[k]
      invariant forall k | i <= k < vec.Length :: vec[k] == was[k]
    {
      DivideIsScale(vec[i], norm, c);
      vec[i] := vec[i] / norm;
    }
    assert vec[..] == Scale(was, c);
  }

  /** Divides by the norm in place; a zero vector is left alone. */
  method L2Normalize(vec: array<real>, sqrt: real -> real)
    requires IsSqrt(sqrt)
    modifies vec
    ensures vec[..] == Normalized(old(vec[..]), sqrt)
  {
    var sumSq := SumOfSquares(vec);
    if sumSq == 0.0 {
      return;
    }
    SquareNonNegative(vec[..]);
    var norm := sqrt(sumSq);
    ghost var root := Root(sumSq, sqrt);
    DivideAll(vec, norm, 1.0 / norm);
  }

  /** Both parts weighted, side by side. */
  function Weighted(va: Vec, vb: Vec, alpha: real, beta: real): Vec {
    Scale(va, alpha) + Scale(vb, beta)
  }

  /** The ensemble's vector. */
  function Combined(va: Vec, vb: Vec, alpha: real, beta: real, sqrt: real -> real): Vec {
    Normalized(Weighted(va, vb, alpha, beta), sqrt)
  }

  /** No vector if a source fails or misses its declared dimension. */
  method Embed(va: Option<Vec>, vb: Option<Vec>, dimA: nat, dimB: nat, alpha: real, beta: real, sqrt: real -> real)
    returns (out: array?<real>)
    requires IsSqrt(sqrt)
    ensures out == null <==> va.None? || vb.None? || |va.value| != dimA || |vb.value| != dimB
    ensures out != null ==> out[..] == Combined(va.value, vb.value, alpha, beta, sqrt)
  {
    if va.None? || vb.None? {
      return null;
    }
    if |va.value| != dimA || |vb.value| != dimB {
      return null;
    }
    var sum := new real[dimA + dimB](_ => 0.0);
    WriteScaled(sum, 0, va.value, alpha);
    WriteScaled(sum, |va.value|, vb.value, beta);
    assert sum[..] == Weighted(va.value, vb.value, alpha, beta);
    L2Normalize(sum, sqrt);
    return sum;
  }

  /** Writes the weighted vector into its place and leaves the rest alone. */
  method WriteScaled(out: array<real>, at: nat, v: Vec, weight: real)
    requires at + |v| <= out.Length
    modifies out
    ensures forall k | at <= k < at + |v| :: out[k] == Scale(v, weight)[k - at]
    ensures forall k | 0 <= k < at || at + |v| <= k < out.Length :: out[k] == old(out[k])
  {
    for i := 0 to |v|
      invariant forall k | at <= k < at + i :: out[k] == Scale(v, weight)[k - at]
      invariant forall k | 0 <= k < at || at + i <= k < out.Length :: out[k] == old(out[k])
    {
      out[at + i] := v[i] * weight;
    }
  }

  function SquaredWeights(alpha: real, beta: real): real {
    alpha * alpha + beta * beta
  }

  /** The source cosines, weighted by the squared weights. */
  function MixedCosine(pa: Vec, pb: Vec, sa: Vec, sb: Vec, alpha: real, beta: real): real
    requires |pa| == |sa| && |pb| == |sb|
  {
    alpha * alpha * Cosine(pa, sa) + beta * beta * Cosine(pb, sb)
  }

  lemma MixedDot(pa: Vec, pb: Vec, sa: Vec, sb: Vec, alpha: real, beta: real)
    requires |pa| == |sa| && |pb| == |sb|
    ensures Dot(Weighted(pa, pb, alpha, beta), Weighted(sa, sb, alpha, beta))
        == MixedCosine(pa, pb, sa, sb, alpha, beta)
  {
    CosineIsDot(pa, sa);
    CosineIsDot(pb, sb);
    DotScale(pa, sa, alpha, alpha, alpha * alpha);
    DotScale(pb, sb, beta, beta, beta * beta);
    DotAppend(Scale(pa, alpha), Scale(sa, alpha), Scale(pb, beta), Scale(sb, beta));
  }

  lemma NormalizedIsScale(p: Vec, sqrt: real -> real) returns (n: real, c: real)
    requires IsSqrt(sqrt) && Dot(p, p) > 0.0
    ensures n == sqrt(Dot(p, p)) && n > 0.0 && n * n == Dot(p, p)
    ensures c > 0.0 && c * n == 1.0 && Normalized(p, sqrt) == Scale(p, c)
  {
    n := Root(Dot(p, p), sqrt);
    c := 1.0 / n;
  }

  /** Stated for a name for the square, which keeps the solver from rewriting it away. */
  lemma SquarePositive(a: real, square: real)
    requires a != 0.0 && square == a * a
    ensures square > 0.0
  {
    if a > 0.0 { Positive(a, a, square); } else { Positive(-a, -a, square); }
  }

  lemma Positive(x: real, y: real, product: real)
    requires x > 0.0 && y > 0.0 && product == x * y
    ensures product > 0.0
  {
  }

  lemma WeightPositive(alpha: real, beta: real)
    requires alpha != 0.0 || beta != 0.0
    ensures SquaredWeights(alpha, beta) > 0.0
  {
    SquareIsNonNegative(alpha);
    SquareIsNonNegative(beta);
    var a2, b2 := alpha * alpha, beta * beta;
    if alpha != 0.0 { SquarePositive(alpha, a2); }
    if beta != 0.0 { SquarePositive(beta, b2); }
  }

  lemma Quotient(k: real, w: real, x: real)
    requires k * w == 1.0
    ensures w != 0.0 && k * x == x / w
  {
    var q := x / w;
    assert q * w == x;
    assert k * x == k * (q * w) == (k * w) * q;
  }

  lemma RootOfSquare(b: real, n: real)
    requires b > 0.0 && n >= 0.0 && n * n == b * b
    ensures n == b
  {
    var difference := (n - b) * (n + b);
    assert difference == n * n - b * b;
    if n != b { NonZero(n - b, n + b, difference); }
  }

  lemma NonZero(x: real, y: real, product: real)
    requires x != 0.0 && y != 0.0 && product == x * y
    ensures product != 0.0
  {
    assert x == product / y;
  }

  lemma QuotientsAgree(x: real, k: real, w: real)
    requires k > 0.0 && w > 0.0
    ensures x / k == x / w <==> x == 0.0 || k == w
  {
    var q, r := x / k, x / w;
    assert q * k == x && r * w == x;
    if x != 0.0 && k != w {
      assert q != 0.0;
      NonZero(q, k - w, q * (k - w));
      assert q * k - q * w == q * (k - w);
    }
  }

  /** Dividing by both norms is dividing by w exactly if their product is w, that is, if the
      product of their squares is the square of w; unless there is nothing to divide. */
  lemma NormsMatchIff(n: real, c: real, m: real, d: real, w: real, x: real)
    requires n > 0.0 && m > 0.0 && c * n == 1.0 && d * m == 1.0 && w > 0.0
    ensures (c * d) * x == x / w <==> x == 0.0 || (n * n) * (m * m) == w * w
  {
    var k := n * m;
    Positive(n, m, k);
    assert (c * d) * k == (c * n) * (d * m);
    Quotient(c * d, k, x);
    QuotientsAgree(x, k, w);
    assert (n * n) * (m * m) == k * k;
    if k * k == w * w { RootOfSquare(w, k); }
  }

  lemma {:induction false} ZeroSum(xs: seq<real>)
    requires (forall i | 0 <= i < |xs| :: xs[i] >= 0.0) && Sum(xs) == 0.0
    ensures forall i | 0 <= i < |xs| :: xs[i] == 0.0
  {
    if xs != [] {
      SumNonNegative(xs[..|xs| - 1]);
      ZeroSum(xs[..|xs| - 1]);
      forall i | 0 <= i < |xs| ensures xs[i] == 0.0 {
        if i < |xs| - 1 { assert xs[..|xs| - 1][i] == xs[i]; }
      }
    }
  }

  lemma {:induction false} SumOfZeros(xs: seq<real>)
    requires forall i | 0 <= i < |xs| :: xs[i] == 0.0
    ensures Sum(xs) == 0.0
  {
    if xs != [] { SumOfZeros(xs[..|xs| - 1]); }
  }

  /** A vector of length zero has no component along any other. */
  lemma ZeroVector(p: Vec, s: Vec)
    requires |p| == |s| && (Dot(p, p) == 0.0 || Dot(s, s) == 0.0)
    ensures Dot(p, s) == 0.0
  {
    var z := if Dot(p, p) == 0.0 then p else s;
    forall i | 0 <= i < |z| ensures Products(z, z)[i] >= 0.0 {
      SquareIsNonNegative(z[i]);
    }
    ZeroSum(Products(z, z));
    forall i | 0 <= i < |z| ensures z[i] == 0.0 {
      assert Products(z, z)[i] == 0.0;
      if z[i] != 0.0 { SquarePositive(z[i], Products(z, z)[i]); }
    }
    SumOfZeros(Products(p, s));
  }

  /** The cosine of two vectors after normalisation is theirs over w exactly if theirs is zero, or
      their squared lengths multiply to the square of w. A vector of length zero is left as it
      is, and has cosine zero with everything. */
  lemma NormalizedDotIff(p: Vec, s: Vec, sqrt: real -> real, w: real)
    requires IsSqrt(sqrt) && |p| == |s| && w > 0.0
    ensures |Normalized(p, sqrt)| == |Normalized(s, sqrt)|
    ensures Dot(Normalized(p, sqrt), Normalized(s, sqrt)) == Dot(p, s) / w
            <==> Dot(p, s) == 0.0 || Dot(p, p) * Dot(s, s) == w * w
  {
    SquareNonNegative(p);
    SquareNonNegative(s);
    if Dot(p, p) == 0.0 || Dot(s, s) == 0.0 {
      ZeroVector(p, s);
      ZeroVector(Normalized(p, sqrt), Normalized(s, sqrt));
    } else {
      NonzeroDotIff(p, s, sqrt, w);
    }
  }

  lemma NonzeroDotIff(p: Vec, s: Vec, sqrt: real -> real, w: real)
    requires IsSqrt(sqrt) && |p| == |s| && w > 0.0 && Dot(p, p) > 0.0 && Dot(s, s) > 0.0
    ensures |Normalized(p, sqrt)| == |Normalized(s, sqrt)|
    ensures Dot(Normalized(p, sqrt), Normalized(s, sqrt)) == Dot(p, s) / w
            <==> Dot(p, s) == 0.0 || Dot(p, p) * Dot(s, s) == w * w
  {
    var n, c := NormalizedIsScale(p, sqrt);
    var m, d := NormalizedIsScale(s, sqrt);
    DotScale(p, s, c, d, c * d);
    NormsMatchIff(n, c, m, d, w, Dot(p, s));
  }

  /** The square of w is u times v. */
  predicate Squared(w: real, u: real, v: real) {
    u * v == w * w
  }

  /** The same for the cosine, with names for what it is stated in. */
  lemma NormalizedCosineIff(p: Vec, s: Vec, sqrt: real -> real, w: real, x: real, u: real, v: real)
    requires IsSqrt(sqrt) && |p| == |s| && w > 0.0 && x == Dot(p, s) && u == Dot(p, p) && v == Dot(s, s)
    ensures |Normalized(p, sqrt)| == |Normalized(s, sqrt)|
    ensures Cosine(Normalized(p, sqrt), Normalized(s, sqrt)) == x / w <==> x == 0.0 || Squared(w, u, v)
  {
    NormalizedDotIff(p, s, sqrt, w);
    CosineIsDot(Normalized(p, sqrt), Normalized(s, sqrt));
  }

  /** The documented identity: the cosine of the combined vectors is the average of the source
      cosines, weighted by the squared weights. */
  ghost predicate Averages(pa: Vec, pb: Vec, sa: Vec, sb: Vec, alpha: real, beta: real, sqrt: real -> real)
    requires |pa| == |sa| && |pb| == |sb| && SquaredWeights(alpha, beta) != 0.0
  {
    var p, s := Combined(pa, pb, alpha, beta, sqrt), Combined(sa, sb, alpha, beta, sqrt);
    |p| == |s| && Cosine(p, s) == MixedCosine(pa, pb, sa, sb, alpha, beta) / SquaredWeights(alpha, beta)
  }

  /** Exactly when the identity holds, for all vectors and all weights that are not both zero: the
      mix of the source cosines is zero, or the squared lengths of the two weighted vectors
      multiply to the square of the summed squared weights. */
  lemma IdentityIff(pa: Vec, pb: Vec, sa: Vec, sb: Vec, alpha: real, beta: real, sqrt: real -> real)
    requires IsSqrt(sqrt) && |pa| == |sa| && |pb| == |sb| && (alpha != 0.0 || beta != 0.0)
    ensures SquaredWeights(alpha, beta) > 0.0
    ensures var w := SquaredWeights(alpha, beta);
            var u, v := MixedCosine(pa, pb, pa, pb, alpha, beta), MixedCosine(sa, sb, sa, sb, alpha, beta);
            Averages(pa, pb, sa, sb, alpha, beta, sqrt)
            <==> MixedCosine(pa, pb, sa, sb, alpha, beta) == 0.0 || Squared(w, u, v)
  {
    WeightPositive(alpha, beta);
    AveragesIff(pa, pb, sa, sb, alpha, beta, sqrt, MixedCosine(pa, pb, sa, sb, alpha, beta),
                MixedCosine(pa, pb, pa, pb, alpha, beta), MixedCosine(sa, sb, sa, sb, alpha, beta),
                SquaredWeights(alpha, beta));
  }

  lemma AveragesIff(
      pa: Vec, pb: Vec, sa: Vec, sb: Vec, alpha: real, beta: real, sqrt: real -> real,
      x: real, u: real, v: real, w: real)
    requires IsSqrt(sqrt) && |pa| == |sa| && |pb| == |sb| && w == SquaredWeights(alpha, beta) && w > 0.0
    requires x == MixedCosine(pa, pb, sa, sb, alpha, beta)
    requires u == MixedCosine(pa, pb, pa, pb, alpha, beta) && v == MixedCosine(sa, sb, sa, sb, alpha, beta)
    ensures Averages(pa, pb, sa, sb, alpha, beta, sqrt) <==> x == 0.0 || Squared(w, u, v)
  {
    MixedDot(pa, pb, pa, pb, alpha, beta);
    MixedDot(sa, sb, sa, sb, alpha, beta);
    MixedDot(pa, pb, sa, sb, alpha, beta);
    NormalizedCosineIff(Weighted(pa, pb, alpha, beta), Weighted(sa, sb, alpha, beta), sqrt, w, x, u, v);
  }

  lemma UnitsMix(va: Vec, vb: Vec, alpha: real, beta: real)
    requires IsUnit(va) && IsUnit(vb)
    ensures MixedCosine(va, vb, va, vb, alpha, beta) == SquaredWeights(alpha, beta)
  {
    CosineIsDot(va, va);
    CosineIsDot(vb, vb);
  }

  lemma UnitIsUnit(a: Vec, sqrt: real -> real)
    requires IsSqrt(sqrt) && Dot(a, a) > 0.0
    ensures IsUnit(Normalized(a, sqrt))
  {
    var n, c := NormalizedIsScale(a, sqrt);
    var d, k := Dot(a, a), c * c;
    DotScale(a, a, c, c, k);
    assert k * d == (c * n) * (c * n);
  }

  lemma CombinedIsUnit(va: Vec, vb: Vec, alpha: real, beta: real, sqrt: real -> real)
    requires IsSqrt(sqrt) && IsUnit(va) && IsUnit(vb) && (alpha != 0.0 || beta != 0.0)
    ensures IsUnit(Combined(va, vb, alpha, beta, sqrt))
  {
    UnitsMix(va, vb, alpha, beta);
    WeightPositive(alpha, beta);
    MixedDot(va, vb, va, vb, alpha, beta);
    UnitIsUnit(Weighted(va, vb, alpha, beta), sqrt);
  }

  /** With unit source vectors it holds, and the combined cosine lies in [-1, 1]. */
  lemma EnsembleCosine(pa: Vec, pb: Vec, sa: Vec, sb: Vec, alpha: real, beta: real, sqrt: real -> real)
    requires IsSqrt(sqrt) && |pa| == |sa| && |pb| == |sb|
    requires IsUnit(pa) && IsUnit(pb) && IsUnit(sa) && IsUnit(sb)
    requires alpha != 0.0 || beta != 0.0
    ensures SquaredWeights(alpha, beta) > 0.0 && Averages(pa, pb, sa, sb, alpha, beta, sqrt)
    ensures -1.0 <= Cosine(Combined(pa, pb, alpha, beta, sqrt), Combined(sa, sb, alpha, beta, sqrt)) <= 1.0
  {
    UnitsMix(pa, pb, alpha, beta);
    UnitsMix(sa, sb, alpha, beta);
    IdentityIff(pa, pb, sa, sb, alpha, beta, sqrt);
    CombinedIsUnit(pa, pb, alpha, beta, sqrt);
    CombinedIsUnit(sa, sb, alpha, beta, sqrt);
    UnitCosineBounded(Combined(pa, pb, alpha, beta, sqrt), Combined(sa, sb, alpha, beta, sqrt));
  }

  /** Where it needs unit vectors: a prompt outside the TF-IDF vocabulary has a zero vector on
      that side, and then the identity holds exactly if either weight or the other cosine is
      zero. */
  lemma ZeroSideBreaksIdentity(pa: Vec, pb: Vec, sa: Vec, sb: Vec, alpha: real, beta: real, sqrt: real -> real)
    requires IsSqrt(sqrt) && |pa| == |sa| && |pb| == |sb| && (alpha != 0.0 || beta != 0.0)
    requires Dot(pa, pa) == 0.0 && IsUnit(pb) && IsUnit(sa) && IsUnit(sb)
    ensures SquaredWeights(alpha, beta) > 0.0
    ensures Averages(pa, pb, sa, sb, alpha, beta, sqrt) <==> alpha == 0.0 || beta == 0.0 || Cosine(pb, sb) == 0.0
  {
    WeightPositive(alpha, beta);
    var w, y := SquaredWeights(alpha, beta), Cosine(pb, sb);
    var a2, b2 := alpha * alpha, beta * beta;
    UnitsMix(sa, sb, alpha, beta);
    ZeroSideMixes(pa, pb, sa, sb, alpha, beta, b2);
    AveragesIff(pa, pb, sa, sb, alpha, beta, sqrt, b2 * y, b2, w, w);
    OneSideLeft(alpha, beta, a2, b2, y, w);
  }

  lemma ZeroSideMixes(pa: Vec, pb: Vec, sa: Vec, sb: Vec, alpha: real, beta: real, b2: real)
    requires |pa| == |sa| && |pb| == |sb| && Dot(pa, pa) == 0.0 && IsUnit(pb) && b2 == beta * beta
    ensures MixedCosine(pa, pb, pa, pb, alpha, beta) == b2
    ensures MixedCosine(pa, pb, sa, sb, alpha, beta) == b2 * Cosine(pb, sb)
  {
    ZeroVector(pa, sa);
    CosineIsDot(pa, sa);
    CosineIsDot(pa, pa);
    CosineIsDot(pb, pb);
  }

  lemma OneSideLeft(alpha: real, beta: real, a2: real, b2: real, y: real, w: real)
    requires a2 == alpha * alpha && b2 == beta * beta && w == a2 + b2 > 0.0
    ensures b2 * y == 0.0 || b2 * w == w * w <==> alpha == 0.0 || beta == 0.0 || y == 0.0
  {
    assert w * w - b2 * w == a2 * w;
    if alpha != 0.0 {
      SquarePositive(alpha, a2);
      Positive(a2, w, a2 * w);
    }
    if beta != 0.0 && y != 0.0 {
      SquarePositive(beta, b2);
      NonZero(b2, y, b2 * y);
    }
  }
}
