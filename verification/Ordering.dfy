/** What the skipped magnitude divisions cost: when ranking by dot products finds two prototypes in
    the order of their true cosines, for embeddings that are not normalised. */
module Ordering {
  import opened Vectors

  /** Two comparisons come out alike. */
  predicate SameOrder(x: real, y: real, x': real, y': real) {
    (x < y <==> x' < y') && (y < x <==> y' < x')
  }

  /** The cosine with the divisions by both magnitudes. */
  function TrueCosine(q: Vec, v: Vec, sqrt: real -> real): real {
    Cosine(Normalized(q, sqrt), Normalized(v, sqrt))
  }

  /** This prompt finds the two vectors in the order of their true cosines. */
  predicate OrderedRight(q: Vec, a: Vec, b: Vec, sqrt: real -> real) {
    SameOrder(Cosine(q, a), Cosine(q, b), TrueCosine(q, a, sqrt), TrueCosine(q, b, sqrt))
  }

  ghost predicate KeepsOrder(a: Vec, b: Vec, sqrt: real -> real) {
    forall q: Vec | |q| == |a| :: OrderedRight(q, a, b, sqrt)
  }

  lemma ScaledOrder(k: real, x: real, y: real)
    requires k > 0.0
    ensures SameOrder(x, y, k * x, k * y)
  {
    if x < y { Positive(k, y - x, k * (y - x)); }
    if y < x { Positive(k, x - y, k * (x - y)); }
  }

  lemma DotCommutes(a: Vec, b: Vec)
    requires |a| == |b|
    ensures Dot(a, b) == Dot(b, a)
  {
    assert Products(a, b) == Products(b, a);
  }

  lemma DotScaleRight(q: Vec, a: Vec, c: real)
    requires |q| == |a|
    ensures Dot(q, Scale(a, c)) == c * Dot(q, a)
  {
    assert Scale(q, 1.0) == q;
    DotScale(q, a, 1.0, c, c);
  }

  lemma NormalizedSize(a: Vec, sqrt: real -> real)
    ensures |Normalized(a, sqrt)| == |a|
  {
  }

  /** The dot product with the normalised vector. */
  function UnitDot(q: Vec, a: Vec, sqrt: real -> real): real
    requires |q| == |a|
  {
    NormalizedSize(a, sqrt);
    Dot(q, Normalized(a, sqrt))
  }

  lemma LengthTimesUnit(q: Vec, a: Vec, sqrt: real -> real, n: real, x: real)
    requires IsSqrt(sqrt) && |q| == |a| && Dot(a, a) > 0.0 && n == sqrt(Dot(a, a)) && x == UnitDot(q, a, sqrt)
    ensures Cosine(q, a) == n * x
  {
    var n', c := NormalizedIsScale(a, sqrt);
    DotScaleRight(q, a, c);
    Cancels(c, n, Dot(q, a), x);
    CosineIsDot(q, a);
  }

  lemma LengthIsRoot(a: Vec, sqrt: real -> real, n: real)
    requires IsSqrt(sqrt) && Dot(a, a) > 0.0 && n == sqrt(Dot(a, a))
    ensures n > 0.0 && n * n == Dot(a, a)
  {
    var _ := Root(Dot(a, a), sqrt);
  }

  lemma Cancels(c: real, n: real, d: real, x: real)
    requires c * n == 1.0 && x == c * d
    ensures d == n * x
  {
    assert n * (c * d) == (c * n) * d;
  }

  lemma TrueIsScaled(q: Vec, a: Vec, sqrt: real -> real, c: real)
    requires IsSqrt(sqrt) && |q| == |a| && Normalized(q, sqrt) == Scale(q, c)
    ensures TrueCosine(q, a, sqrt) == c * UnitDot(q, a, sqrt)
  {
    var u := Normalized(a, sqrt);
    NormalizedSize(a, sqrt);
    DotCommutes(Scale(q, c), u);
    DotScaleRight(u, q, c);
    DotCommutes(u, q);
    CosineIsDot(Scale(q, c), u);
  }

  lemma ZeroPrompt(q: Vec, a: Vec, sqrt: real -> real)
    requires |q| == |a| && Dot(q, q) == 0.0
    ensures TrueCosine(q, a, sqrt) == 0.0 == UnitDot(q, a, sqrt)
  {
    NormalizedSize(a, sqrt);
    ZeroVector(q, Normalized(a, sqrt));
    CosineIsDot(q, Normalized(a, sqrt));
  }

  /** True cosines are in the order of the dot products with the normalised vectors. */
  lemma TrueOrder(q: Vec, a: Vec, b: Vec, sqrt: real -> real)
    requires IsSqrt(sqrt) && |q| == |a| == |b|
    ensures SameOrder(UnitDot(q, a, sqrt), UnitDot(q, b, sqrt), TrueCosine(q, a, sqrt), TrueCosine(q, b, sqrt))
  {
    SquareNonNegative(q);
    if Dot(q, q) == 0.0 {
      ZeroPrompt(q, a, sqrt);
      ZeroPrompt(q, b, sqrt);
    } else {
      var n, c := NormalizedIsScale(q, sqrt);
      var x, y := UnitDot(q, a, sqrt), UnitDot(q, b, sqrt);
      ScaledOrder(c, x, y);
      TrueIsScaled(q, a, sqrt, c);
      TrueIsScaled(q, b, sqrt, c);
    }
  }

  /** What a prompt makes of two vectors, in numbers. */
  lemma OrderInNumbers(q: Vec, a: Vec, b: Vec, sqrt: real -> real, c: real, d: real, x: real, y: real)
    requires IsSqrt(sqrt) && |q| == |a| == |b| && c == Cosine(q, a) && d == Cosine(q, b)
    requires x == UnitDot(q, a, sqrt) && y == UnitDot(q, b, sqrt)
    ensures OrderedRight(q, a, b, sqrt) <==> SameOrder(c, d, x, y)
  {
    TrueOrder(q, a, b, sqrt);
    OrdersCompose(c, d, TrueCosine(q, a, sqrt), TrueCosine(q, b, sqrt), x, y);
  }

  lemma OrdersCompose(a: real, b: real, t: real, u: real, x: real, y: real)
    requires SameOrder(x, y, t, u)
    ensures SameOrder(a, b, t, u) <==> SameOrder(a, b, x, y)
  {
  }

  lemma EqualLengthsKeep(a: Vec, b: Vec, sqrt: real -> real)
    requires IsSqrt(sqrt) && |a| == |b| && Dot(a, a) == Dot(b, b) > 0.0
    ensures KeepsOrder(a, b, sqrt)
  {
    forall q: Vec | |q| == |a| ensures OrderedRight(q, a, b, sqrt) {
      var n, x, y := sqrt(Dot(a, a)), UnitDot(q, a, sqrt), UnitDot(q, b, sqrt);
      LengthTimesUnit(q, a, sqrt, n, x);
      LengthTimesUnit(q, b, sqrt, n, y);
      OrderInNumbers(q, a, b, sqrt, n * x, n * y, x, y);
      LengthIsRoot(a, sqrt, n);
      ScaledOrder(n, x, y);
    }
  }

  function Plus(a: Vec, b: Vec): (s: Vec)
    requires |a| == |b|
    ensures |s| == |a|
  {
    seq(|a|, i requires 0 <= i < |a| => a[i] + b[i])
  }

  lemma {:induction false} SumOfTwo(s: seq<real>, x: seq<real>, y: seq<real>)
    requires |s| == |x| == |y| && forall i | 0 <= i < |s| :: s[i] == x[i] + y[i]
    ensures Sum(s) == Sum(x) + Sum(y)
  {
    if s != [] {
      var n := |s| - 1;
      SumOfTwo(s[..n], x[..n], y[..n]);
      assert s[n] == x[n] + y[n];
    }
  }

  lemma Distribute(x: real, y: real, z: real, sum: real)
    requires sum == y + z
    ensures x * sum == x * y + x * z
  {
  }

  lemma DotPlus(q: Vec, a: Vec, b: Vec)
    requires |q| == |a| == |b|
    ensures Dot(q, Plus(a, b)) == Dot(q, a) + Dot(q, b)
  {
    var sum := Plus(a, b);
    forall i | 0 <= i < |q| ensures Products(q, sum)[i] == Products(q, a)[i] + Products(q, b)[i] {
      Distribute(q[i], a[i], b[i], sum[i]);
    }
    SumOfTwo(Products(q, sum), Products(q, a), Products(q, b));
  }

  lemma OpposedOrder(n: real, m: real, x: real, y: real)
    requires n > 0.0 && m > 0.0 && x + y == 0.0
    ensures SameOrder(n * x, m * y, x, y)
  {
    var k := n + m;
    ScaledOrder(k, 0.0, x);
    assert n * x - m * y == k * x by {
      assert m * y == -(m * x);
    }
  }

  /** Of opposed vectors every prompt is as far along the one as it is against the other. */
  lemma OpposedCancel(q: Vec, a: Vec, b: Vec, sqrt: real -> real)
    requires IsSqrt(sqrt) && |q| == |a| == |b| && Dot(a, a) > 0.0 && Dot(b, b) > 0.0
    requires TrueCosine(a, b, sqrt) == -1.0
    ensures UnitDot(q, a, sqrt) + UnitDot(q, b, sqrt) == 0.0
  {
    var u, v := Normalized(a, sqrt), Normalized(b, sqrt);
    NormalizedSize(a, sqrt);
    NormalizedSize(b, sqrt);
    UnitIsUnit(a, sqrt);
    UnitIsUnit(b, sqrt);
    CosineIsDot(u, v);
    SquareOfSum(u, v, Plus(u, v));
    ZeroVector(q, Plus(u, v));
    DotPlus(q, u, v);
  }

  lemma OpposedKeep(a: Vec, b: Vec, sqrt: real -> real)
    requires IsSqrt(sqrt) && |a| == |b| && Dot(a, a) > 0.0 && Dot(b, b) > 0.0
    requires TrueCosine(a, b, sqrt) == -1.0
    ensures KeepsOrder(a, b, sqrt)
  {
    forall q: Vec | |q| == |a| ensures OrderedRight(q, a, b, sqrt) {
      var n, m, x, y := sqrt(Dot(a, a)), sqrt(Dot(b, b)), UnitDot(q, a, sqrt), UnitDot(q, b, sqrt);
      LengthTimesUnit(q, a, sqrt, n, x);
      LengthTimesUnit(q, b, sqrt, m, y);
      OrderInNumbers(q, a, b, sqrt, n * x, m * y, x, y);
      OpposedCancel(q, a, b, sqrt);
      LengthIsRoot(a, sqrt, n);
      LengthIsRoot(b, sqrt, m);
      OpposedOrder(n, m, x, y);
    }
  }

  /** The prompt half way between the directions of two vectors. */
  function Bisector(a: Vec, b: Vec, sqrt: real -> real): (q: Vec)
    requires |a| == |b|
    ensures |q| == |a|
  {
    NormalizedSize(a, sqrt);
    NormalizedSize(b, sqrt);
    Plus(Normalized(a, sqrt), Normalized(b, sqrt))
  }

  lemma BisectorTies(a: Vec, b: Vec, sqrt: real -> real)
    requires IsSqrt(sqrt) && |a| == |b| && Dot(a, a) > 0.0 && Dot(b, b) > 0.0
    ensures var q, x := Bisector(a, b, sqrt), 1.0 + TrueCosine(a, b, sqrt);
            UnitDot(q, a, sqrt) == x && UnitDot(q, b, sqrt) == x
  {
    var u, v := Normalized(a, sqrt), Normalized(b, sqrt);
    NormalizedSize(a, sqrt);
    NormalizedSize(b, sqrt);
    UnitIsUnit(a, sqrt);
    UnitIsUnit(b, sqrt);
    CosineIsDot(u, v);
    DotCommutes(Plus(u, v), u);
    DotCommutes(Plus(u, v), v);
    DotPlus(u, u, v);
    DotPlus(v, u, v);
    DotCommutes(u, v);
  }

  lemma DifferentLengths(n: real, m: real, n2: real, m2: real, x: real, c: real, d: real)
    requires n2 == n * n && m2 == m * m && n2 != m2 && x != 0.0 && c == n * x && d == m * x
    ensures c != d
  {
    var difference := n - m;
    NonZero(difference, x, c - d);
  }

  /** It tells their lengths apart, unless they are opposed. */
  lemma BisectorTells(a: Vec, b: Vec, sqrt: real -> real)
    requires IsSqrt(sqrt) && |a| == |b| && Dot(a, a) > 0.0 && Dot(b, b) > 0.0
    requires Dot(a, a) != Dot(b, b) && TrueCosine(a, b, sqrt) != -1.0
    ensures !OrderedRight(Bisector(a, b, sqrt), a, b, sqrt)
  {
    BisectorTies(a, b, sqrt);
    TieTells(Bisector(a, b, sqrt), a, b, sqrt, 1.0 + TrueCosine(a, b, sqrt));
  }

  lemma TieTells(q: Vec, a: Vec, b: Vec, sqrt: real -> real, x: real)
    requires IsSqrt(sqrt) && |q| == |a| == |b| && Dot(a, a) > 0.0 && Dot(b, b) > 0.0 && Dot(a, a) != Dot(b, b)
    requires UnitDot(q, a, sqrt) == x == UnitDot(q, b, sqrt) && x != 0.0
    ensures !OrderedRight(q, a, b, sqrt)
  {
    var n, m, c, d := sqrt(Dot(a, a)), sqrt(Dot(b, b)), Cosine(q, a), Cosine(q, b);
    assert c != d by {
      LengthTimesUnit(q, a, sqrt, n, x);
      LengthTimesUnit(q, b, sqrt, m, x);
      LengthIsRoot(a, sqrt, n);
      LengthIsRoot(b, sqrt, m);
      DifferentLengths(n, m, Dot(a, a), Dot(b, b), x, c, d);
    }
    OrderInNumbers(q, a, b, sqrt, c, d, x, x);
  }

  /** Of two vectors that are not zero every prompt sees the right one nearer exactly if they are
      equally long or point in opposite directions: where embeddings are not normalised, dropping the
      divisions does not just let the scores drift. */
  lemma KeepsOrderIff(a: Vec, b: Vec, sqrt: real -> real)
    requires IsSqrt(sqrt) && |a| == |b| && Dot(a, a) > 0.0 && Dot(b, b) > 0.0
    ensures KeepsOrder(a, b, sqrt) <==> Dot(a, a) == Dot(b, b) || TrueCosine(a, b, sqrt) == -1.0
  {
    if Dot(a, a) == Dot(b, b) {
      EqualLengthsKeep(a, b, sqrt);
    } else if TrueCosine(a, b, sqrt) == -1.0 {
      OpposedKeep(a, b, sqrt);
    } else {
      BisectorTells(a, b, sqrt);
    }
  }
}
