/** Pearson correlation over exact reals, and the pairing of two columns with gaps. */
module Pearson {
  import opened Basics

  function Sum(xs: seq<real>): real {
    if xs == [] then 0.0 else Sum(xs[..|xs| - 1]) + xs[|xs| - 1]
  }

  function Mean(xs: seq<real>): real
    requires xs != []
  {
    Sum(xs) / |xs| as real
  }

  /** Each value less m. */
  function Less(xs: seq<real>, m: real): (ds: seq<real>)
    ensures |ds| == |xs|
    ensures forall i | 0 <= i < |xs| :: ds[i] == xs[i] - m
  {
    seq(|xs|, i requires 0 <= i < |xs| => xs[i] - m)
  }

  function Deviations(xs: seq<real>): (ds: seq<real>)
    requires xs != []
    ensures |ds| == |xs|
  {
    Less(xs, Mean(xs))
  }

  function Dot(u: seq<real>, v: seq<real>): real
    requires |u| == |v|
  {
    if u == [] then 0.0 else Dot(u[..|u| - 1], v[..|v| - 1]) + u[|u| - 1] * v[|v| - 1]
  }

  function Num(xs: seq<real>, ys: seq<real>): real
    requires |xs| == |ys| && xs != []
  {
    Dot(Deviations(xs), Deviations(ys))
  }

  function Den(xs: seq<real>): real
    requires xs != []
  {
    Dot(Deviations(xs), Deviations(xs))
  }

  /** `Math.sqrt` on numbers that are not negative. */
  ghost predicate IsSqrt(sqrt: real -> real) {
    forall x | x >= 0.0 :: sqrt(x) >= 0.0 && sqrt(x) * sqrt(x) == x
  }

  /** The end of `pearson`; None is NaN. */
  function Ratio(sqrt: real -> real, num: real, denX: real, denY: real): Option<real> {
    var den := sqrt(denX * denY);
    if den == 0.0 then None else Some(num / den)
  }

  function Correlation(sqrt: real -> real, xs: seq<real>, ys: seq<real>): Option<real>
    requires |xs| == |ys|
  {
    if |xs| < 2 then None else Ratio(sqrt, Num(xs, ys), Den(xs), Den(ys))
  }

  method AddUp(xs: seq<real>) returns (sum: real)
    ensures sum == Sum(xs)
  {
    sum := 0.0;
    for i := 0 to |xs|
      invariant sum == Sum(xs[..i])
    {
      assert xs[..i + 1][..i] == xs[..i];
      sum := sum + xs[i];
    }
    assert xs[..|xs|] == xs;
  }

  method Average(xs: seq<real>) returns (mean: real)
    requires xs != []
    ensures mean == Mean(xs)
  {
    var sum := AddUp(xs);
    mean := sum / |xs| as real;
  }

  /** The loop over deviations. */
  method Accumulate(dx: seq<real>, dy: seq<real>) returns (num: real, denX: real, denY: real)
    requires |dx| == |dy|
    ensures num == Dot(dx, dy) && denX == Dot(dx, dx) && denY == Dot(dy, dy)
  {
    num, denX, denY := 0.0, 0.0, 0.0;
    for i := 0 to |dx|
      invariant num == Dot(dx[..i], dy[..i]) && denX == Dot(dx[..i], dx[..i]) && denY == Dot(dy[..i], dy[..i])
    {
      assert dx[..i + 1][..i] == dx[..i] && dy[..i + 1][..i] == dy[..i];
      num := num + dx[i] * dy[i];
      denX := denX + dx[i] * dx[i];
      denY := denY + dy[i] * dy[i];
    }
    assert dx[..|dx|] == dx && dy[..|dy|] == dy;
  }

  method Pearson(sqrt: real -> real, xs: seq<real>, ys: seq<real>) returns (r: Option<real>)
    requires |xs| == |ys|
    ensures r == Correlation(sqrt, xs, ys)
  {
    var n := |xs|;
    if n < 2 {
      return None;
    }
    var meanX := Average(xs);
    var meanY := Average(ys);
    var num, denX, denY := Accumulate(Less(xs, meanX), Less(ys, meanY));
    r := Ratio(sqrt, num, denX, denY);
  }

  // ---- Cauchy-Schwarz

  lemma BothPositive(x: real, y: real, product: real)
    requires product == x * y && x > 0.0 && y > 0.0
    ensures product > 0.0
  {}

  lemma BothNegative(x: real, y: real, product: real)
    requires product == x * y && x < 0.0 && y < 0.0
    ensures product > 0.0
  {}

  lemma SquareSign(x: real, square: real)
    requires square == x * x
    ensures if x == 0.0 then square == 0.0 else square > 0.0
  {
    if x < 0.0 {
      BothNegative(x, x, square);
    } else if x > 0.0 {
      BothPositive(x, x, square);
    }
  }

  lemma {:induction false} DotSelfNonneg(u: seq<real>)
    ensures Dot(u, u) >= 0.0
    decreases |u|
  {
    if u != [] {
      DotSelfNonneg(u[..|u| - 1]);
      SquareSign(u[|u| - 1], u[|u| - 1] * u[|u| - 1]);
    }
  }

  lemma {:induction false} DotSymmetric(u: seq<real>, v: seq<real>)
    requires |u| == |v|
    ensures Dot(u, v) == Dot(v, u)
    decreases |u|
  {
    if u != [] {
      DotSymmetric(u[..|u| - 1], v[..|v| - 1]);
    }
  }

  predicate AllZero(u: seq<real>) { forall i | 0 <= i < |u| :: u[i] == 0.0 }

  lemma AllZeroFromEnd(u: seq<real>)
    requires u != []
    ensures AllZero(u) <==> AllZero(u[..|u| - 1]) && u[|u| - 1] == 0.0
  {
    var init := u[..|u| - 1];
    if AllZero(init) && u[|u| - 1] == 0.0 {
      forall i | 0 <= i < |u| ensures u[i] == 0.0 {
        if i < |init| { assert u[i] == init[i]; }
      }
    }
  }

  lemma {:induction false} DotSelfZeroIff(u: seq<real>)
    ensures AllZero(u) ==> Dot(u, u) == 0.0
    ensures !AllZero(u) ==> Dot(u, u) > 0.0
    decreases |u|
  {
    if u != [] {
      var (init, last) := (u[..|u| - 1], u[|u| - 1]);
      DotSelfZeroIff(init);
      SquareSign(last, last * last);
      AllZeroFromEnd(u);
    }
  }

  lemma {:induction false} DotZero(u: seq<real>, v: seq<real>)
    requires |u| == |v| && AllZero(u)
    ensures Dot(u, v) == 0.0
    decreases |u|
  {
    if u != [] {
      DotZero(u[..|u| - 1], v[..|v| - 1]);
    }
  }

  /** p times v less q times u. */
  function Residual(p: real, q: real, u: seq<real>, v: seq<real>): (r: seq<real>)
    requires |u| == |v|
    ensures |r| == |u|
    ensures forall i | 0 <= i < |u| :: r[i] == p * v[i] - q * u[i]
  {
    seq(|u|, i requires 0 <= i < |u| => p * v[i] - q * u[i])
  }

  function Expanded(p: real, q: real, vv: real, uv: real, uu: real): real {
    p * p * vv - 2.0 * (p * q) * uv + q * q * uu
  }

  lemma ExpandSquare(p: real, q: real, x: real, y: real)
    ensures (p * y - q * x) * (p * y - q * x) == Expanded(p, q, y * y, x * y, x * x)
  {}

  lemma ExpandSums(p: real, q: real, a: real, b: real, c: real, x: real, y: real, z: real)
    ensures Expanded(p, q, a, b, c) + Expanded(p, q, x, y, z) == Expanded(p, q, a + x, b + y, c + z)
  {}

  lemma ResidualFromEnd(p: real, q: real, u: seq<real>, v: seq<real>)
    requires |u| == |v| > 0
    ensures Residual(p, q, u, v)[..|u| - 1] == Residual(p, q, u[..|u| - 1], v[..|u| - 1])
  {
    var (n, r) := (|u| - 1, Residual(p, q, u, v));
    forall i | 0 <= i < n ensures r[..n][i] == Residual(p, q, u[..n], v[..n])[i] {
      assert u[..n][i] == u[i] && v[..n][i] == v[i];
    }
  }

  lemma LastSquare(p: real, q: real, u: seq<real>, v: seq<real>)
    requires |u| == |v| > 0
    ensures
      var (r, n) := (Residual(p, q, u, v), |u| - 1);
      r[n] * r[n] == Expanded(p, q, v[n] * v[n], u[n] * v[n], u[n] * u[n])
  {
    ExpandSquare(p, q, u[|u| - 1], v[|u| - 1]);
  }

  function Squares(p: real, q: real, u: seq<real>, v: seq<real>): real
    requires |u| == |v|
  {
    Expanded(p, q, Dot(v, v), Dot(u, v), Dot(u, u))
  }

  lemma SquaresFromEnd(p: real, q: real, u: seq<real>, v: seq<real>)
    requires |u| == |v| > 0
    ensures
      var n := |u| - 1;
      Squares(p, q, u, v) == Squares(p, q, u[..n], v[..n]) + Expanded(p, q, v[n] * v[n], u[n] * v[n], u[n] * u[n])
  {
    var n := |u| - 1;
    ExpandSums(p, q, Dot(v[..n], v[..n]), Dot(u[..n], v[..n]), Dot(u[..n], u[..n]),
               v[n] * v[n], u[n] * v[n], u[n] * u[n]);
  }

  lemma {:induction false} ResidualSquares(p: real, q: real, u: seq<real>, v: seq<real>)
    requires |u| == |v|
    ensures Dot(Residual(p, q, u, v), Residual(p, q, u, v)) == Squares(p, q, u, v)
    decreases |u|
  {
    if u != [] {
      ResidualSquares(p, q, u[..|u| - 1], v[..|u| - 1]);
      ResidualFromEnd(p, q, u, v);
      LastSquare(p, q, u, v);
      SquaresFromEnd(p, q, u, v);
    }
  }

  lemma PositiveFactor(p: real, x: real)
    requires p > 0.0 && p * x >= 0.0
    ensures x >= 0.0
    ensures p * x == 0.0 <==> x == 0.0
  {}

  lemma FactorExpanded(p: real, q: real, s: real)
    requires p > 0.0 && Expanded(p, q, s, q, p) >= 0.0
    ensures q * q <= p * s
    ensures q * q == p * s <==> Expanded(p, q, s, q, p) == 0.0
  {
    assert Expanded(p, q, s, q, p) == p * (p * s - q * q);
    PositiveFactor(p, p * s - q * q);
  }

  lemma ResidualIsNonneg(p: real, q: real, u: seq<real>, v: seq<real>)
    requires |u| == |v|
    ensures Squares(p, q, u, v) >= 0.0
    ensures Squares(p, q, u, v) == 0.0 <==> AllZero(Residual(p, q, u, v))
  {
    ResidualSquares(p, q, u, v);
    DotSelfNonneg(Residual(p, q, u, v));
    DotSelfZeroIff(Residual(p, q, u, v));
  }

  lemma PositiveUnlessZero(u: seq<real>)
    requires !AllZero(u)
    ensures Dot(u, u) > 0.0
  {
    DotSelfNonneg(u);
    DotSelfZeroIff(u);
  }

  predicate Multiple(u: seq<real>, v: seq<real>)
    requires |u| == |v|
  {
    AllZero(Residual(Dot(u, u), Dot(u, v), u, v))
  }

  predicate Within(p: real, q: real, s: real) { q * q <= p * s }

  predicate Attained(p: real, q: real, s: real) { q * q == p * s }

  lemma FromSquares(p: real, q: real, s: real, e: real)
    requires p > 0.0 && e == Expanded(p, q, s, q, p) && e >= 0.0
    ensures Within(p, q, s) && (Attained(p, q, s) <==> e == 0.0)
  {
    FactorExpanded(p, q, s);
  }

  lemma CauchySchwarzNonzero(u: seq<real>, v: seq<real>)
    requires |u| == |v| && !AllZero(u)
    ensures Within(Dot(u, u), Dot(u, v), Dot(v, v))
    ensures Attained(Dot(u, u), Dot(u, v), Dot(v, v)) <==> Multiple(u, v)
  {
    PositiveUnlessZero(u);
    ResidualIsNonneg(Dot(u, u), Dot(u, v), u, v);
    FromSquares(Dot(u, u), Dot(u, v), Dot(v, v), Squares(Dot(u, u), Dot(u, v), u, v));
  }

  lemma WithinZero(s: real)
    ensures Within(0.0, 0.0, s)
  {}

  /** Dot(u, v) squared is at most Dot(u, u) times Dot(v, v). */
  lemma CauchySchwarz(u: seq<real>, v: seq<real>)
    requires |u| == |v|
    ensures Within(Dot(u, u), Dot(u, v), Dot(v, v))
  {
    if AllZero(u) {
      DotZero(u, v);
      DotZero(u, u);
      WithinZero(Dot(v, v));
    } else {
      CauchySchwarzNonzero(u, v);
    }
  }

  // ---- the coefficient

  predicate Constant(xs: seq<real>) { forall i, j | 0 <= i < |xs| && 0 <= j < |xs| :: xs[i] == xs[j] }

  lemma {:induction false} SumOfConstant(xs: seq<real>, c: real)
    requires forall i | 0 <= i < |xs| :: xs[i] == c
    ensures Sum(xs) == |xs| as real * c
    decreases |xs|
  {
    if xs != [] {
      SumOfConstant(xs[..|xs| - 1], c);
      assert |xs| as real * c == (|xs| - 1) as real * c + c;
    }
  }

  lemma QuotientOfProduct(n: real, c: real)
    requires n > 0.0
    ensures n * c / n == c
  {}

  lemma MeanOfConstant(xs: seq<real>)
    requires xs != [] && Constant(xs)
    ensures Mean(xs) == xs[0]
  {
    SumOfConstant(xs, xs[0]);
    QuotientOfProduct(|xs| as real, xs[0]);
  }

  lemma ConstantIff(xs: seq<real>)
    requires xs != []
    ensures AllZero(Deviations(xs)) <==> Constant(xs)
  {
    var ds := Deviations(xs);
    if Constant(xs) {
      MeanOfConstant(xs);
      forall i | 0 <= i < |ds| ensures ds[i] == 0.0 {
        assert xs[i] == xs[0];
      }
    }
    if AllZero(ds) {
      forall i, j | 0 <= i < |xs| && 0 <= j < |xs| ensures xs[i] == xs[j] {
        assert ds[i] == 0.0 && ds[j] == 0.0;
      }
    }
  }

  lemma ProductSign(p: real, s: real)
    requires p >= 0.0 && s >= 0.0
    ensures p * s >= 0.0
    ensures p == 0.0 || s == 0.0 ==> p * s == 0.0
    ensures p > 0.0 && s > 0.0 ==> p * s > 0.0
  {}

  lemma RootSign(sqrt: real -> real, x: real)
    requires IsSqrt(sqrt) && x >= 0.0
    ensures sqrt(x) >= 0.0
    ensures x == 0.0 ==> sqrt(x) == 0.0
    ensures x > 0.0 ==> sqrt(x) > 0.0
  {
    var root := sqrt(x);
    assert root * root == x;
    SquareSign(root, x);
  }

  lemma RootOfProduct(sqrt: real -> real, p: real, s: real)
    requires IsSqrt(sqrt) && p >= 0.0 && s >= 0.0
    ensures sqrt(p * s) >= 0.0
    ensures p == 0.0 || s == 0.0 ==> sqrt(p * s) == 0.0
    ensures p > 0.0 && s > 0.0 ==> sqrt(p * s) > 0.0
  {
    ProductSign(p, s);
    RootSign(sqrt, p * s);
  }

  lemma SquaresDiffer(q: real, den: real, square: real, limit: real)
    requires square == q * q && limit == den * den && den > 0.0
    ensures q > den || q < -den ==> square > limit
    ensures q == den || q == -den ==> square == limit
    ensures -den < q < den ==> square < limit
  {
    var product := (q - den) * (q + den);
    assert product == square - limit;
    if q > den {
      BothPositive(q - den, q + den, product);
    } else if q < -den {
      BothNegative(q - den, q + den, product);
    } else if -den < q < den {
      BothPositive(den - q, q + den, limit - square);
    }
  }

  lemma QuotientInRange(q: real, den: real)
    requires den > 0.0
    ensures -den <= q <= den ==> -1.0 <= q / den <= 1.0
    ensures q == den <==> q / den == 1.0
    ensures q == -den <==> q / den == -1.0
  {}

  predicate Defined(xs: seq<real>, ys: seq<real>)
    requires |xs| == |ys|
  {
    |xs| >= 2 && !Constant(xs) && !Constant(ys)
  }

  lemma DenPositiveIff(xs: seq<real>)
    requires xs != []
    ensures if Constant(xs) then Den(xs) == 0.0 else Den(xs) > 0.0
  {
    DotSelfZeroIff(Deviations(xs));
    ConstantIff(xs);
  }

  /** NaN exactly for fewer than two points or a constant series. */
  lemma CorrelationDefinedIff(sqrt: real -> real, xs: seq<real>, ys: seq<real>)
    requires |xs| == |ys| && IsSqrt(sqrt)
    ensures Correlation(sqrt, xs, ys).Some? <==> Defined(xs, ys)
  {
    if |xs| >= 2 {
      DenPositiveIff(xs);
      DenPositiveIff(ys);
      RootOfProduct(sqrt, Den(xs), Den(ys));
    }
  }

  lemma CorrelationSymmetric(sqrt: real -> real, xs: seq<real>, ys: seq<real>)
    requires |xs| == |ys|
    ensures Correlation(sqrt, xs, ys) == Correlation(sqrt, ys, xs)
  {
    if |xs| >= 2 {
      DotSymmetric(Deviations(xs), Deviations(ys));
      assert Den(xs) * Den(ys) == Den(ys) * Den(xs);
    }
  }

  lemma RatioInRange(sqrt: real -> real, q: real, p: real, s: real)
    requires IsSqrt(sqrt) && p > 0.0 && s > 0.0 && Within(p, q, s)
    ensures Ratio(sqrt, q, p, s).Some? && -1.0 <= Ratio(sqrt, q, p, s).value <= 1.0
    ensures Attained(p, q, s) <==> Ratio(sqrt, q, p, s).value in {-1.0, 1.0}
  {
    RootOfProduct(sqrt, p, s);
    var den := sqrt(p * s);
    BothPositive(p, s, p * s);
    assert den * den == p * s;
    SquaresDiffer(q, den, q * q, p * s);
    QuotientInRange(q, den);
  }

  lemma CorrelationInRange(sqrt: real -> real, xs: seq<real>, ys: seq<real>)
    requires IsSqrt(sqrt) && |xs| == |ys| && Defined(xs, ys)
    ensures Correlation(sqrt, xs, ys).Some? && -1.0 <= Correlation(sqrt, xs, ys).value <= 1.0
    ensures Correlation(sqrt, xs, ys).value in {-1.0, 1.0} <==> Multiple(Deviations(xs), Deviations(ys))
  {
    DenPositiveIff(xs);
    DenPositiveIff(ys);
    ConstantIff(xs);
    CauchySchwarzNonzero(Deviations(xs), Deviations(ys));
    RatioInRange(sqrt, Num(xs, ys), Den(xs), Den(ys));
  }

  // ---- points on a line

  predicate OnLine(a: real, b: real, xs: seq<real>, ys: seq<real>)
    requires |xs| == |ys|
  {
    forall i | 0 <= i < |xs| :: ys[i] == a * xs[i] + b
  }

  lemma ScaleSum(a: real, b: real, n: real, sum: real, x: real)
    ensures (a * sum + n * b) + (a * x + b) == a * (sum + x) + (n + 1.0) * b
  {}

  lemma {:induction false} SumOnLine(a: real, b: real, xs: seq<real>, ys: seq<real>)
    requires |xs| == |ys| && OnLine(a, b, xs, ys)
    ensures Sum(ys) == a * Sum(xs) + |xs| as real * b
    decreases |xs|
  {
    if xs != [] {
      var n := |xs| - 1;
      SumOnLine(a, b, xs[..n], ys[..n]);
      ScaleSum(a, b, n as real, Sum(xs[..n]), xs[n]);
    }
  }

  lemma MeanScales(a: real, b: real, n: real, sum: real)
    requires n > 0.0
    ensures (a * sum + n * b) / n == a * (sum / n) + b
  {}

  lemma MeanOnLine(a: real, b: real, xs: seq<real>, ys: seq<real>)
    requires |xs| == |ys| > 0 && OnLine(a, b, xs, ys)
    ensures Mean(ys) == a * Mean(xs) + b
  {
    SumOnLine(a, b, xs, ys);
    MeanScales(a, b, |xs| as real, Sum(xs));
  }

  predicate Scaled(a: real, u: seq<real>, v: seq<real>)
    requires |u| == |v|
  {
    forall i | 0 <= i < |u| :: v[i] == a * u[i]
  }

  lemma DeviationsOnLine(a: real, b: real, xs: seq<real>, ys: seq<real>)
    requires |xs| == |ys| > 0 && OnLine(a, b, xs, ys)
    ensures Scaled(a, Deviations(xs), Deviations(ys))
  {
    MeanOnLine(a, b, xs, ys);
    var m := Mean(xs);
    forall i | 0 <= i < |xs| ensures Deviations(ys)[i] == a * Deviations(xs)[i] {
      assert a * (xs[i] - m) == a * xs[i] - a * m;
    }
  }

  function Scale(a: real, x: real): real { a * x }

  lemma AddScaled(a: real, sum: real, x: real, y: real, z: real, total: real)
    requires y == a * x && total == sum + x * z
    ensures Scale(a, sum) + y * z == Scale(a, total)
  {
    assert a * total == a * sum + a * (x * z);
  }

  lemma {:induction false} DotScaled(a: real, u: seq<real>, v: seq<real>, w: seq<real>)
    requires |u| == |v| == |w| && Scaled(a, u, v)
    ensures Dot(v, w) == Scale(a, Dot(u, w))
    decreases |u|
  {
    if u != [] {
      var n := |u| - 1;
      DotScaled(a, u[..n], v[..n], w[..n]);
      AddScaled(a, Dot(u[..n], w[..n]), u[n], v[n], w[n], Dot(u, w));
    }
  }

  lemma DeviationsScaled(a: real, u: seq<real>, v: seq<real>)
    requires |u| == |v| && Scaled(a, u, v)
    ensures Dot(u, v) == Scale(a, Dot(u, u))
    ensures Dot(v, v) == Scale(a, Dot(u, v))
  {
    DotScaled(a, u, v, u);
    DotScaled(a, u, v, v);
    DotSymmetric(u, v);
  }

  /** A nonnegative root is the only one. */
  lemma RootIs(sqrt: real -> real, x: real, root: real)
    requires IsSqrt(sqrt) && root > 0.0 && x == root * root
    ensures sqrt(x) == root
  {
    BothPositive(root, root, x);
    SquaresDiffer(sqrt(x), root, x, x);
  }

  lemma RatioAtRoot(sqrt: real -> real, q: real, p: real, s: real, root: real)
    requires IsSqrt(sqrt) && root > 0.0 && p * s == root * root && (q == root || q == -root)
    ensures Ratio(sqrt, q, p, s) == Some(if q == root then 1.0 else -1.0)
  {
    RootIs(sqrt, p * s, root);
    QuotientInRange(q, root);
  }

  lemma RatioOfScaled(sqrt: real -> real, a: real, p: real, q: real, s: real)
    requires IsSqrt(sqrt) && p > 0.0 && a != 0.0 && q == Scale(a, p) && s == Scale(a, q)
    ensures Ratio(sqrt, q, p, s) == Some(if a > 0.0 then 1.0 else -1.0)
  {
    var root := if a > 0.0 then q else -q;
    if a > 0.0 {
      BothPositive(a, p, root);
    } else {
      BothPositive(-a, p, root);
    }
    assert p * s == q * q == root * root;
    RatioAtRoot(sqrt, q, p, s, root);
  }

  /** The sign of the slope, for points on a line that is neither flat nor upright. */
  lemma CorrelationOnLine(sqrt: real -> real, a: real, b: real, xs: seq<real>, ys: seq<real>)
    requires IsSqrt(sqrt) && |xs| == |ys| >= 2 && !Constant(xs)
    requires a != 0.0 && OnLine(a, b, xs, ys)
    ensures Correlation(sqrt, xs, ys) == Some(if a > 0.0 then 1.0 else -1.0)
  {
    DenPositiveIff(xs);
    DeviationsOnLine(a, b, xs, ys);
    DeviationsScaled(a, Deviations(xs), Deviations(ys));
    RatioOfScaled(sqrt, a, Den(xs), Num(xs, ys), Den(ys));
  }

  lemma LineThrough(p: real, q: real, x: real, mx: real, y: real, my: real)
    requires p > 0.0 && p * (y - my) - q * (x - mx) == 0.0
    ensures y == (q / p) * x + (my - (q / p) * mx)
  {
    var a := q / p;
    assert p * a == q;
    var gap := (y - my) - a * (x - mx);
    assert p * gap == p * (y - my) - q * (x - mx);
    PositiveFactor(p, gap);
  }

  lemma MultipleIsLine(xs: seq<real>, ys: seq<real>)
    requires |xs| == |ys| > 0 && Den(xs) > 0.0 && Multiple(Deviations(xs), Deviations(ys))
    ensures exists a, b :: OnLine(a, b, xs, ys)
  {
    var (p, q, mx, my) := (Den(xs), Num(xs, ys), Mean(xs), Mean(ys));
    forall i | 0 <= i < |xs| ensures ys[i] == (q / p) * xs[i] + (my - (q / p) * mx) {
      assert Residual(p, q, Deviations(xs), Deviations(ys))[i] == 0.0;
      LineThrough(p, q, xs[i], mx, ys[i], my);
    }
    assert OnLine(q / p, my - (q / p) * mx, xs, ys);
  }

  ghost predicate Collinear(xs: seq<real>, ys: seq<real>)
    requires |xs| == |ys|
  {
    exists a, b :: OnLine(a, b, xs, ys)
  }

  predicate Perfect(r: Option<real>) { r == Some(1.0) || r == Some(-1.0) }

  lemma FlatLineIsConstant(b: real, xs: seq<real>, ys: seq<real>)
    requires |xs| == |ys| && OnLine(0.0, b, xs, ys)
    ensures Constant(ys)
  {
    forall i | 0 <= i < |ys| ensures ys[i] == b {}
  }

  lemma LineIsPerfect(sqrt: real -> real, xs: seq<real>, ys: seq<real>)
    requires IsSqrt(sqrt) && |xs| == |ys| && Defined(xs, ys) && Collinear(xs, ys)
    ensures Perfect(Correlation(sqrt, xs, ys))
  {
    var a, b :| OnLine(a, b, xs, ys);
    if a == 0.0 {
      FlatLineIsConstant(b, xs, ys);
    } else {
      CorrelationOnLine(sqrt, a, b, xs, ys);
    }
  }

  lemma PerfectIsLine(sqrt: real -> real, xs: seq<real>, ys: seq<real>)
    requires IsSqrt(sqrt) && |xs| == |ys| && Defined(xs, ys) && Perfect(Correlation(sqrt, xs, ys))
    ensures Collinear(xs, ys)
  {
    CorrelationInRange(sqrt, xs, ys);
    DenPositiveIff(xs);
    MultipleIsLine(xs, ys);
  }

  /** The coefficient is 1 or -1 exactly for points on one line. */
  lemma PerfectIffCollinear(sqrt: real -> real, xs: seq<real>, ys: seq<real>)
    requires IsSqrt(sqrt) && |xs| == |ys| && Defined(xs, ys)
    ensures Perfect(Correlation(sqrt, xs, ys)) <==> Collinear(xs, ys)
  {
    if Collinear(xs, ys) {
      LineIsPerfect(sqrt, xs, ys);
    }
    if Perfect(Correlation(sqrt, xs, ys)) {
      PerfectIsLine(sqrt, xs, ys);
    }
  }

  /** A series correlates perfectly with itself, unless it has no coefficient. */
  lemma SelfCorrelation(sqrt: real -> real, xs: seq<real>)
    requires IsSqrt(sqrt)
    ensures Correlation(sqrt, xs, xs) == if |xs| >= 2 && !Constant(xs) then Some(1.0) else None
  {
    CorrelationDefinedIff(sqrt, xs, xs);
    if Defined(xs, xs) {
      assert OnLine(1.0, 0.0, xs, xs);
      CorrelationOnLine(sqrt, 1.0, 0.0, xs, xs);
    }
  }

  // ---- what the coefficient says of points that are not on a line

  function Square(x: real): real { x * x }

  /** How far above the line y = a * x + b a point is. */
  function Miss(a: real, b: real, x: real, y: real): real { y - (a * x + b) }

  /** How far the points are from the line y = a * x + b: the sum of the squares of the vertical distances. */
  function SquaredErrors(a: real, b: real, xs: seq<real>, ys: seq<real>): real
    requires |xs| == |ys|
  {
    if xs == [] then 0.0
    else
      var n := |xs| - 1;
      SquaredErrors(a, b, xs[..n], ys[..n]) + Square(Miss(a, b, xs[n], ys[n]))
  }

  /** How far the values are from their mean. */
  function Spread(ys: seq<real>): real
    requires ys != []
  {
    SquaredErrors(0.0, Sum(ys) / |ys| as real, ys, ys)
  }

  function Shifted(dot: real, sum: real, n: real, c: real): real { dot + 2.0 * c * sum + n * Square(c) }

  lemma AddShifted(dot: real, sum: real, n: real, c: real, x: real, dot': real, sum': real, n': real, e: real)
    requires dot' == dot + x * x && sum' == sum + x && n' == n + 1.0 && e == x + c
    ensures Shifted(dot, sum, n, c) + Square(e) == Shifted(dot', sum', n', c)
  {}

  lemma {:induction false} ErrorsOfShifted(a: real, b: real, xs: seq<real>, ys: seq<real>, r: seq<real>, c: real)
    requires |xs| == |ys| == |r|
    requires forall i | 0 <= i < |r| :: Miss(a, b, xs[i], ys[i]) == r[i] + c
    ensures SquaredErrors(a, b, xs, ys) == Shifted(Dot(r, r), Sum(r), |r| as real, c)
    decreases |xs|
  {
    if xs != [] {
      var n := |xs| - 1;
      ErrorsOfShifted(a, b, xs[..n], ys[..n], r[..n], c);
      AddShifted(Dot(r[..n], r[..n]), Sum(r[..n]), n as real, c, r[n], Dot(r, r), Sum(r), |r| as real,
                 Miss(a, b, xs[n], ys[n]));
    }
  }

  lemma {:induction false} SumOfLess(xs: seq<real>, m: real)
    ensures Sum(Less(xs, m)) == Sum(xs) - |xs| as real * m
    decreases |xs|
  {
    if xs != [] {
      var n := |xs| - 1;
      SumOfLess(xs[..n], m);
      assert Less(xs, m)[..n] == Less(xs[..n], m);
      assert |xs| as real * m == n as real * m + m;
    }
  }

  lemma TimesQuotient(n: real, sum: real)
    requires n > 0.0
    ensures n * (sum / n) == sum
  {}

  lemma DeviationsCancel(xs: seq<real>)
    requires xs != []
    ensures Sum(Deviations(xs)) == 0.0
  {
    SumOfLess(xs, Mean(xs));
    TimesQuotient(|xs| as real, Sum(xs));
  }

  lemma AddWeighted(p: real, q: real, s: real, t: real, x: real, y: real)
    ensures (p * s - q * t) + (p * y - q * x) == p * (s + y) - q * (t + x)
  {}

  lemma {:induction false} SumOfResidual(p: real, q: real, u: seq<real>, v: seq<real>)
    requires |u| == |v|
    ensures Sum(Residual(p, q, u, v)) == p * Sum(v) - q * Sum(u)
    decreases |u|
  {
    if u != [] {
      var n := |u| - 1;
      SumOfResidual(p, q, u[..n], v[..n]);
      ResidualFromEnd(p, q, u, v);
      AddWeighted(p, q, Sum(v[..n]), Sum(u[..n]), u[n], v[n]);
    }
  }

  lemma ErrorAtPoint(a: real, b: real, x: real, mx: real, y: real, my: real)
    ensures Miss(a, b, x, y) == (1.0 * (y - my) - a * (x - mx)) + Beside(a, b, mx, my)
  {}

  lemma WithoutSum(dot: real, n: real, c: real, q: real, sum: real)
    requires sum == 1.0 * 0.0 - q * 0.0
    ensures Shifted(dot, sum, n, c) == dot + Weighted(n, c)
  {}

  /** How far the means are beside the line. */
  function Beside(a: real, b: real, mx: real, my: real): real { my - a * mx - b }

  function Weighted(n: real, c: real): real { n * Square(c) }

  /** The distance from a line is that of the line of the same slope through the means, and more for every other. */
  lemma ErrorsAroundMeans(a: real, b: real, xs: seq<real>, ys: seq<real>, c: real)
    requires |xs| == |ys| > 0 && c == Beside(a, b, Mean(xs), Mean(ys))
    ensures SquaredErrors(a, b, xs, ys) == Squares(1.0, a, Deviations(xs), Deviations(ys)) + Weighted(|xs| as real, c)
  {
    var (u, v) := (Deviations(xs), Deviations(ys));
    var r := Residual(1.0, a, u, v);
    forall i | 0 <= i < |r|
      ensures Miss(a, b, xs[i], ys[i]) == r[i] + c
    {
      ErrorAtPoint(a, b, xs[i], Mean(xs), ys[i], Mean(ys));
    }
    ErrorsOfShifted(a, b, xs, ys, r, c);
    ResidualSquares(1.0, a, u, v);
    SumOfResidual(1.0, a, u, v);
    DeviationsCancel(xs);
    DeviationsCancel(ys);
    WithoutSum(Dot(r, r), |xs| as real, c, a, Sum(r));
  }

  lemma SpreadIsDen(ys: seq<real>)
    requires ys != []
    ensures Spread(ys) == Den(ys)
  {
    ErrorsAroundMeans(0.0, Mean(ys), ys, ys, 0.0);
    assert Squares(1.0, 0.0, Deviations(ys), Deviations(ys)) == Den(ys);
  }

  lemma CompleteSquare(p: real, q: real, s: real, a: real, m: real)
    requires p > 0.0 && m * p == q
    ensures Expanded(1.0, a, s, q, p) == (s - m * q) + p * Square(a - m)
  {
    assert p * Square(a - m) == a * a * p - 2.0 * a * (m * p) + m * (m * p);
  }

  /** What the square of the coefficient leaves over. */
  lemma LeftOver(r: real, den: real, p: real, q: real, s: real, m: real)
    requires p > 0.0 && s > 0.0 && m * p == q && r * den == q && den * den == p * s
    ensures (1.0 - r * r) * s == s - m * q
  {
    var x := r * r * s - m * q;
    assert p * (r * r * s) == r * r * (p * s) == (r * den) * (r * den) == q * q;
    assert p * (m * q) == q * q;
    assert p * x == 0.0;
    PositiveFactor(p, x);
  }

  predicate SameSigns(a: real, r: real) { (a > 0.0 <==> r > 0.0) && (a < 0.0 <==> r < 0.0) }

  lemma SameSign(r: real, den: real, p: real, q: real, m: real)
    requires p > 0.0 && den > 0.0 && m * p == q && r * den == q
    ensures SameSigns(m, r)
  {
    FactorSign(m, p, q);
    FactorSign(r, den, q);
  }

  lemma FactorSign(m: real, p: real, q: real)
    requires p > 0.0 && m * p == q
    ensures (m > 0.0 <==> q > 0.0) && (m < 0.0 <==> q < 0.0)
  {
    if m > 0.0 {
      BothPositive(m, p, q);
    } else if m < 0.0 {
      BothPositive(-m, p, -q);
    }
  }

  lemma NotNegative(n: real, x: real)
    requires n >= 0.0
    ensures n * Square(x) >= 0.0 && (x == 0.0 ==> n * Square(x) == 0.0)
  {
    SquareSign(x, Square(x));
    ProductSign(n, Square(x));
  }

  /** The slope m of the best line and the coefficient r, by what they satisfy. */
  predicate Fits(r: real, m: real, p: real, q: real, s: real) {
    && p > 0.0 && s > 0.0 && m * p == q
    && (1.0 - r * r) * s == s - m * q && SameSigns(m, r)
  }

  lemma RatioFits(sqrt: real -> real, q: real, p: real, s: real) returns (m: real)
    requires IsSqrt(sqrt) && p > 0.0 && s > 0.0
    ensures Ratio(sqrt, q, p, s).Some? && Fits(Ratio(sqrt, q, p, s).value, m, p, q, s)
  {
    RootOfProduct(sqrt, p, s);
    BothPositive(p, s, p * s);
    var den := sqrt(p * s);
    assert den * den == p * s;
    m := q / p;
    TimesQuotient(den, q);
    TimesQuotient(p, q);
    LeftOver(q / den, den, p, q, s, m);
    SameSign(q / den, den, p, q, m);
  }

  lemma CorrelationFits(sqrt: real -> real, xs: seq<real>, ys: seq<real>) returns (m: real)
    requires IsSqrt(sqrt) && |xs| == |ys| && Defined(xs, ys)
    ensures Correlation(sqrt, xs, ys).Some?
    ensures Fits(Correlation(sqrt, xs, ys).value, m, Den(xs), Num(xs, ys), Den(ys))
  {
    DenPositiveIff(xs);
    DenPositiveIff(ys);
    m := RatioFits(sqrt, Num(xs, ys), Den(xs), Den(ys));
  }

  lemma ErrorAbove(p: real, q: real, s: real, m: real, a: real, n: real, c: real, squares: real, error: real)
    requires p > 0.0 && n > 0.0 && m * p == q
    requires squares == Expanded(1.0, a, s, q, p) && error == squares + Weighted(n, c)
    ensures error >= s - m * q && (a == m && c == 0.0 ==> error == s - m * q)
  {
    CompleteSquare(p, q, s, a, m);
    NotNegative(p, a - m);
    NotNegative(n, c);
  }

  /** The error of the line with this slope and intercept, by what the points contribute to it. */
  function ErrorBy(p: real, q: real, s: real, mx: real, my: real, n: real, a: real, b: real): real {
    Expanded(1.0, a, s, q, p) + Weighted(n, Beside(a, b, mx, my))
  }

  lemma ErrorOfLine(a: real, b: real, xs: seq<real>, ys: seq<real>)
    requires |xs| == |ys| > 0
    ensures SquaredErrors(a, b, xs, ys) ==
      ErrorBy(Den(xs), Num(xs, ys), Den(ys), Mean(xs), Mean(ys), |xs| as real, a, b)
  {
    ErrorsAroundMeans(a, b, xs, ys, Beside(a, b, Mean(xs), Mean(ys)));
  }

  lemma LeastOf(error: (real, real) -> real, p: real, q: real, s: real, mx: real, my: real, n: real, m: real,
                least: real)
    requires p > 0.0 && n > 0.0 && m * p == q && least == s - m * q
    requires forall a, b :: error(a, b) == ErrorBy(p, q, s, mx, my, n, a, b)
    ensures forall a, b :: error(a, b) >= least
    ensures error(m, my - m * mx) == least
  {
    forall a, b
      ensures error(a, b) >= least && (a == m && b == my - m * mx ==> error(a, b) == least)
    {
      assert error(a, b) == ErrorBy(p, q, s, mx, my, n, a, b);
      ErrorAbove(p, q, s, m, a, n, Beside(a, b, mx, my), Expanded(1.0, a, s, q, p), error(a, b));
    }
  }

  ghost function ErrorsOf(xs: seq<real>, ys: seq<real>): (real, real) -> real
    requires |xs| == |ys|
  {
    (a, b) => SquaredErrors(a, b, xs, ys)
  }

  lemma LeastError(xs: seq<real>, ys: seq<real>, p: real, q: real, s: real, m: real, least: real) returns (best: real)
    requires |xs| == |ys| > 0 && p == Den(xs) && q == Num(xs, ys) && s == Den(ys)
    requires p > 0.0 && m * p == q && least == s - m * q
    ensures forall a, b :: ErrorsOf(xs, ys)(a, b) >= least
    ensures ErrorsOf(xs, ys)(m, best) == least
  {
    var (mx, my) := (Mean(xs), Mean(ys));
    ErrorsAre(xs, ys, p, q, s, mx, my);
    best := my - m * mx;
    LeastOf(ErrorsOf(xs, ys), p, q, s, mx, my, |xs| as real, m, least);
  }

  lemma ErrorsAre(xs: seq<real>, ys: seq<real>, p: real, q: real, s: real, mx: real, my: real)
    requires |xs| == |ys| > 0 && p == Den(xs) && q == Num(xs, ys) && s == Den(ys) && mx == Mean(xs) && my == Mean(ys)
    ensures forall a, b :: ErrorsOf(xs, ys)(a, b) == ErrorBy(p, q, s, mx, my, |xs| as real, a, b)
  {
    forall a, b
      ensures ErrorsOf(xs, ys)(a, b) == ErrorBy(p, q, s, mx, my, |xs| as real, a, b)
    {
      ErrorOfLine(a, b, xs, ys);
    }
  }

  /** Any line misses the points by at least that much, and one whose slope has the sign of r by no more. */
  ghost predicate LeastIs(least: real, r: real, xs: seq<real>, ys: seq<real>)
    requires |xs| == |ys|
  {
    && (forall a, b :: SquaredErrors(a, b, xs, ys) >= least)
    && (exists a, b :: SquaredErrors(a, b, xs, ys) == least && SameSigns(a, r))
  }

  lemma LeastErrorIs(xs: seq<real>, ys: seq<real>, least: real, r: real, m: real, best: real)
    requires |xs| == |ys| && SameSigns(m, r)
    requires forall a, b :: ErrorsOf(xs, ys)(a, b) >= least
    requires ErrorsOf(xs, ys)(m, best) == least
    ensures LeastIs(least, r, xs, ys)
  {
    forall a, b
      ensures SquaredErrors(a, b, xs, ys) >= least
    {
      assert ErrorsOf(xs, ys)(a, b) == SquaredErrors(a, b, xs, ys);
    }
    assert ErrorsOf(xs, ys)(m, best) == SquaredErrors(m, best, xs, ys);
  }

  /** The share of the spread that the square of the coefficient leaves over. */
  function Unexplained(r: real, spread: real): real { (1.0 - r * r) * spread }

  lemma LeastForCoefficient(xs: seq<real>, ys: seq<real>, p: real, q: real, s: real, r: real, m: real, least: real)
    requires |xs| == |ys| > 0 && p == Den(xs) && q == Num(xs, ys) && s == Den(ys)
    requires Fits(r, m, p, q, s) && least == Unexplained(r, s)
    ensures LeastIs(least, r, xs, ys)
  {
    var best := LeastError(xs, ys, p, q, s, m, least);
    LeastErrorIs(xs, ys, least, r, m, best);
  }

  /** The least error of a line is the share of the spread that the square of the coefficient leaves over; the
      line that has it rises if the coefficient is positive and falls if it is negative. */
  lemma LeastSquares(sqrt: real -> real, xs: seq<real>, ys: seq<real>)
    requires IsSqrt(sqrt) && |xs| == |ys| && Defined(xs, ys)
    ensures
      && Correlation(sqrt, xs, ys).Some?
      && var r := Correlation(sqrt, xs, ys).value;
      LeastIs(Unexplained(r, Spread(ys)), r, xs, ys)
  {
    var m := CorrelationFits(sqrt, xs, ys);
    var r := Correlation(sqrt, xs, ys).value;
    SpreadIsDen(ys);
    LeastForCoefficient(xs, ys, Den(xs), Num(xs, ys), Den(ys), r, m, Unexplained(r, Den(ys)));
  }

  // ---- columns with gaps

  type Column = seq<Option<real>>

  /** Row i of a column; undefined past its end. */
  function At(column: Column, i: nat): Option<real> {
    if i < |column| then column[i] else None
  }

  function PairsUpTo(a: Column, b: Column, len: nat): seq<(real, real)> {
    if len == 0 then []
    else
      var before := PairsUpTo(a, b, len - 1);
      match (At(a, len - 1), At(b, len - 1))
      case (Some(x), Some(y)) => before + [(x, y)]
      case _ => before
  }

  function Firsts(pairs: seq<(real, real)>): (xs: seq<real>)
    ensures |xs| == |pairs|
    ensures forall i | 0 <= i < |pairs| :: xs[i] == pairs[i].0
  {
    seq(|pairs|, i requires 0 <= i < |pairs| => pairs[i].0)
  }

  function Seconds(pairs: seq<(real, real)>): (ys: seq<real>)
    ensures |ys| == |pairs|
    ensures forall i | 0 <= i < |pairs| :: ys[i] == pairs[i].1
  {
    seq(|pairs|, i requires 0 <= i < |pairs| => pairs[i].1)
  }

  function PairsOf(a: Column, b: Column): seq<(real, real)> {
    PairsUpTo(a, b, |a|)
  }

  method PairCorrelation(sqrt: real -> real, a: Column, b: Column) returns (r: Option<real>, n: nat)
    ensures n == |PairsOf(a, b)|
    ensures r == Correlation(sqrt, Firsts(PairsOf(a, b)), Seconds(PairsOf(a, b)))
  {
    var xs, ys := [], [];
    for i := 0 to |a|
      invariant xs == Firsts(PairsUpTo(a, b, i)) && ys == Seconds(PairsUpTo(a, b, i))
    {
      match (At(a, i), At(b, i))
      case (Some(x), Some(y)) =>
        xs, ys := xs + [x], ys + [y];
      case _ =>
    }
    r := Pearson(sqrt, xs, ys);
    n := |xs|;
  }

  /** The rows where both columns hold a number, in order. */
  predicate Both(a: Column, b: Column, i: nat) { At(a, i).Some? && At(b, i).Some? }

  function RowsUpTo(a: Column, b: Column, len: nat): seq<nat> {
    if len == 0 then []
    else if Both(a, b, len - 1) then RowsUpTo(a, b, len - 1) + [len - 1]
    else RowsUpTo(a, b, len - 1)
  }

  lemma BothIff(a: Column, b: Column, i: nat)
    ensures Both(a, b, i) <==> i < |a| && i < |b| && a[i] != None && b[i] != None
    ensures Both(a, b, i) ==> At(a, i) == a[i] && At(b, i) == b[i]
  {}

  lemma {:induction false} RowsAreIncreasing(a: Column, b: Column, len: nat)
    ensures
      var rows := RowsUpTo(a, b, len);
      && (forall k | 0 <= k < |rows| :: rows[k] < len && Both(a, b, rows[k]))
      && (forall j, k | 0 <= j < k < |rows| :: rows[j] < rows[k])
      && (forall i: nat | i < len && Both(a, b, i) :: i in rows)
  {
    if len > 0 {
      RowsAreIncreasing(a, b, len - 1);
    }
  }

  /** The pairs are the values of the two columns in these rows. */
  predicate AreValues(a: Column, b: Column, rows: seq<nat>, pairs: seq<(real, real)>) {
    && |pairs| == |rows|
    && forall k | 0 <= k < |rows| :: At(a, rows[k]) == Some(pairs[k].0) && At(b, rows[k]) == Some(pairs[k].1)
  }

  lemma OneMorePair(a: Column, b: Column, rows: seq<nat>, pairs: seq<(real, real)>, row: nat)
    requires AreValues(a, b, rows, pairs) && Both(a, b, row)
    ensures AreValues(a, b, rows + [row], pairs + [(At(a, row).value, At(b, row).value)])
  {}

  lemma {:induction false} PairsAreRows(a: Column, b: Column, len: nat)
    ensures AreValues(a, b, RowsUpTo(a, b, len), PairsUpTo(a, b, len))
  {
    if len > 0 {
      PairsAreRows(a, b, len - 1);
      if Both(a, b, len - 1) {
        OneMorePair(a, b, RowsUpTo(a, b, len - 1), PairsUpTo(a, b, len - 1), len - 1);
      }
    }
  }

  lemma {:induction false} PairsSwapped(a: Column, b: Column, len: nat)
    ensures |PairsUpTo(b, a, len)| == |PairsUpTo(a, b, len)|
    ensures Firsts(PairsUpTo(b, a, len)) == Seconds(PairsUpTo(a, b, len))
    ensures Seconds(PairsUpTo(b, a, len)) == Firsts(PairsUpTo(a, b, len))
  {
    if len > 0 {
      PairsSwapped(a, b, len - 1);
    }
  }

  lemma {:induction false} PairsPastTheEnd(a: Column, b: Column, len: nat)
    requires |b| <= |a|
    ensures |b| <= len ==> PairsUpTo(a, b, len) == PairsUpTo(a, b, |b|)
  {
    if len > |b| {
      PairsPastTheEnd(a, b, len - 1);
    }
  }

  /** The correlation of two columns and its number of points do not depend on which comes first. */
  lemma PairCorrelationSwapped(sqrt: real -> real, a: Column, b: Column)
    ensures |PairsOf(a, b)| == |PairsOf(b, a)|
    ensures Correlation(sqrt, Firsts(PairsOf(a, b)), Seconds(PairsOf(a, b)))
         == Correlation(sqrt, Firsts(PairsOf(b, a)), Seconds(PairsOf(b, a)))
  {
    if |b| <= |a| {
      PairsPastTheEnd(a, b, |a|);
      PairsSwapped(a, b, |b|);
    } else {
      PairsPastTheEnd(b, a, |b|);
      PairsSwapped(b, a, |a|);
    }
    CorrelationSymmetric(sqrt, Firsts(PairsOf(a, b)), Seconds(PairsOf(a, b)));
  }

  lemma {:induction false} PairsWithItself(a: Column, len: nat)
    ensures Firsts(PairsUpTo(a, a, len)) == Seconds(PairsUpTo(a, a, len))
  {
    if len > 0 {
      PairsWithItself(a, len - 1);
    }
  }

  /** All numbers in the column are the same. */
  ghost predicate OneValue(a: Column) { forall i: nat, j: nat | Both(a, a, i) && Both(a, a, j) :: a[i] == a[j] }

  /** What the report would have for a column and itself, where it writes 1.000 without computing it: that
      is right exactly for columns with two different values. */
  lemma DiagonalIff(sqrt: real -> real, a: Column)
    requires IsSqrt(sqrt)
    ensures
      var (xs, ys) := (Firsts(PairsOf(a, a)), Seconds(PairsOf(a, a)));
      Correlation(sqrt, xs, ys) == if OneValue(a) then None else Some(1.0)
  {
    var xs := Firsts(PairsOf(a, a));
    PairsWithItself(a, |a|);
    SelfCorrelation(sqrt, xs);
    if Constant(xs) {
      ConstantColumn(a);
    }
    if OneValue(a) {
      OneValueIsConstant(a);
    }
  }

  lemma ConstantColumn(a: Column)
    requires Constant(Firsts(PairsOf(a, a)))
    ensures OneValue(a)
  {
    var (xs, rows) := (Firsts(PairsOf(a, a)), RowsUpTo(a, a, |a|));
    RowsAreIncreasing(a, a, |a|);
    PairsAreRows(a, a, |a|);
    forall i: nat, j: nat | Both(a, a, i) && Both(a, a, j)
      ensures a[i] == a[j]
    {
      var p :| 0 <= p < |rows| && rows[p] == i;
      var q :| 0 <= q < |rows| && rows[q] == j;
      assert xs[p] == xs[q];
    }
  }

  lemma OneValueIsConstant(a: Column)
    requires OneValue(a)
    ensures Constant(Firsts(PairsOf(a, a)))
  {
    var (xs, rows) := (Firsts(PairsOf(a, a)), RowsUpTo(a, a, |a|));
    RowsAreIncreasing(a, a, |a|);
    PairsAreRows(a, a, |a|);
    forall p, q | 0 <= p < |xs| && 0 <= q < |xs|
      ensures xs[p] == xs[q]
    {
      assert Both(a, a, rows[p]) && Both(a, a, rows[q]);
    }
  }
}
