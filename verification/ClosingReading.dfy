/** How much of a closing transaction's payment counts as the ring's last hop
    (`_closing_leg_amounts`, `_closing_reading`, `_amount_similarity`). */
module ClosingReading {
  import opened Collections
  import opened SubsetSums

  function Sum(h: seq<nat>): nat {
    if h == [] then 0 else Sum(h[..|h| - 1]) + h[|h| - 1]
  }

  function SumSq(h: seq<nat>): nat {
    if h == [] then 0 else SumSq(h[..|h| - 1]) + h[|h| - 1] * h[|h| - 1]
  }

  // ---------------------------------------------------------------- amount similarity

  function Mean(h: seq<nat>): real
    requires h != []
  {
    Sum(h) as real / |h| as real
  }

  /** The sum of the squared distances to `m`. */
  ghost function SquaredDeviations(h: seq<nat>, m: real): real {
    if h == [] then 0.0
    else var d := h[|h| - 1] as real - m; SquaredDeviations(h[..|h| - 1], m) + d * d
  }

  ghost function DeviationsFromMean(h: seq<nat>): real
    requires h != []
  {
    SquaredDeviations(h, Mean(h))
  }

  /** The sample standard deviation, with its n - 1 denominator. */
  ghost predicate IsStdev(h: seq<nat>, sd: real)
    requires |h| >= 2
  {
    sd >= 0.0 && Variance(sd, |h| as real, DeviationsFromMean(h))
  }

  /** `sd` squared is the sample variance of n values with these squared deviations. */
  ghost predicate Variance(sd: real, n: real, deviations: real) {
    sd * sd * (n - 1.0) == deviations
  }

  function Clip(x: real): real {
    if x < 0.0 then 0.0 else if x > 1.0 then 1.0 else x
  }

  /** `sim` is 1 - CV of the amounts, clipped to [0, 1]. */
  ghost predicate IsAmountSimilarity(h: seq<nat>, sim: real) {
    if |h| >= 2 then
      if Mean(h) > 0.0 then exists sd: real :: IsStdev(h, sd) && sim == Clip(1.0 - sd / Mean(h))
      else sim == 0.0
    else sim == if |h| == 1 && h[0] > 0 then 1.0 else 0.0
  }

  /** The square of the clipped coefficient of variation: the root-free key the candidates are compared by. */
  function Unevenness(h: seq<nat>): real {
    if |h| >= 2 then
      var n, s, q := |h|, Sum(h), SumSq(h);
      if s > 0 then Min(1.0, SquaredCv(n, s, q)) else 1.0
    else if |h| == 1 && h[0] > 0 then 0.0 else 1.0
  }

  function SquaredCv(n: nat, s: nat, q: nat): real
    requires n >= 2 && s > 0
  {
    assert (n - 1) * (s * s) > 0;
    (n * (n * q - s * s)) as real / ((n - 1) * (s * s)) as real
  }

  /** `c` added to itself `k` times: keeps the induction below linear. */
  ghost function Times(c: real, k: nat): real {
    if k == 0 then 0.0 else Times(c, k - 1) + c
  }

  lemma {:induction false} TimesAdds(c: real, j: nat, k: nat)
    ensures Times(c, j + k) == Times(c, j) + Times(c, k)
  {
    if k > 0 { TimesAdds(c, j, k - 1); }
  }

  lemma {:induction false} TimesMultiplies(c: real, k: nat)
    ensures Times(c, k) == c * k as real
  {
    if k > 0 {
      TimesMultiplies(c, k - 1);
      assert c * k as real == c * (k - 1) as real + c;
    }
  }

  lemma LastDeviation(h: seq<nat>, m: real, c: real, d: real)
    requires h != [] && c == 2.0 * m && d == m * m
    ensures var x := h[|h| - 1];
            SquaredDeviations(h, m) == SquaredDeviations(h[..|h| - 1], m) + (x * x) as real - Times(c, x) + d
  {
    var x := h[|h| - 1];
    TimesMultiplies(c, x);
    CastSquare(x);
  }

  lemma CastSquare(x: nat)
    ensures (x * x) as real == x as real * x as real
  {}

  lemma {:induction false} DeviationsLinearly(h: seq<nat>, m: real, c: real, d: real)
    requires c == 2.0 * m && d == m * m
    ensures SquaredDeviations(h, m) == SumSq(h) as real - Times(c, Sum(h)) + Times(d, |h|)
  {
    if h != [] {
      var t, x := h[..|h| - 1], h[|h| - 1];
      DeviationsLinearly(t, m, c, d);
      LastDeviation(h, m, c, d);
      TimesAdds(c, Sum(t), x);
      TimesAdds(d, |t|, 1);
    }
  }

  lemma DeviationsFromAnywhere(h: seq<nat>, m: real)
    ensures DeviationIdentity(SquaredDeviations(h, m), |h| as real, m, Sum(h) as real, SumSq(h) as real)
  {
    hide SquaredDeviations, Sum, SumSq, Times;
    var c, d := 2.0 * m, m * m;
    DeviationsLinearly(h, m, c, d);
    TimesMultiplies(c, Sum(h));
    TimesMultiplies(d, |h|);
    IdentityFrom(SquaredDeviations(h, m), |h| as real, m, Sum(h) as real, SumSq(h) as real, c, d);
  }

  lemma IdentityFrom(dev: real, n: real, m: real, s: real, q: real, c: real, d: real)
    requires c == 2.0 * m && d == m * m && dev == q - c * s + d * n
    ensures DeviationIdentity(dev, n, m, s, q)
  {}

  /** The squared ratio of a standard deviation to the mean, without the root. */
  lemma SquaredCvOf(h: seq<nat>, sd: real)
    requires |h| >= 2 && Sum(h) > 0 && IsStdev(h, sd)
    ensures Mean(h) > 0.0
    ensures (sd / Mean(h)) * (sd / Mean(h)) == SquaredCv(|h|, Sum(h), SumSq(h))
  {
    var dev, n, m, s, q := DeviationsFromMean(h), |h|, Mean(h), Sum(h), SumSq(h);
    assert m > 0.0 by { MeanPositive(h); }
    assert m * n as real == s as real by { MeanTimes(h); }
    assert DeviationIdentity(dev, n as real, m, s as real, q as real) by { DeviationsFromMeanIdentity(h); }
    assert Variance(sd, n as real, dev);
    CvSquared(dev, n, s, q, m, sd);
  }

  lemma DeviationsFromMeanIdentity(h: seq<nat>)
    requires h != []
    ensures DeviationIdentity(DeviationsFromMean(h), |h| as real, Mean(h), Sum(h) as real, SumSq(h) as real)
  {
    DeviationsFromAnywhere(h, Mean(h));
  }

  lemma MeanTimes(h: seq<nat>)
    requires h != []
    ensures Mean(h) * |h| as real == Sum(h) as real
  {
    QuotientTimes(Sum(h) as real, |h| as real);
  }

  ghost predicate DeviationIdentity(dev: real, n: real, m: real, s: real, q: real) {
    dev == q - (2.0 * m) * s + (m * m) * n
  }

  lemma CvSquared(dev: real, n: nat, s: nat, q: nat, m: real, sd: real)
    requires n >= 2 && s > 0 && m > 0.0 && m * n as real == s as real
    requires DeviationIdentity(dev, n as real, m, s as real, q as real) && Variance(sd, n as real, dev)
    ensures (sd / m) * (sd / m) == SquaredCv(n, s, q)
  {
    var cv := sd / m;
    QuotientTimes(sd, m);
    CvAlgebra(dev, n as real, m, s as real, q as real, sd, cv);
    SquaredCvQuotient(n, s, q, cv * cv);
  }

  lemma QuotientTimes(a: real, d: real)
    requires d > 0.0
    ensures (a / d) * d == a
  {}

  lemma SquaredCvQuotient(n: nat, s: nat, q: nat, c: real)
    requires n >= 2 && s > 0
    requires c * ((n as real - 1.0) * (s as real * s as real))
               == n as real * (n as real * q as real - s as real * s as real)
    ensures c == SquaredCv(n, s, q)
  {
    CastProducts(n, s, q);
    assert (n - 1) * (s * s) > 0;
    Quotient(c, (n * (n * q - s * s)) as real, ((n - 1) * (s * s)) as real);
  }

  lemma CastProducts(n: nat, s: nat, q: nat)
    ensures ((n - 1) * (s * s)) as real == (n as real - 1.0) * (s as real * s as real)
    ensures (n * (n * q - s * s)) as real == n as real * (n as real * q as real - s as real * s as real)
  {
    assert (s * s) as real == s as real * s as real;
    assert (n * q) as real == n as real * q as real;
    var t := n * q - s * s;
    assert (n * t) as real == n as real * t as real;
    var k, u := n - 1, s * s;
    assert (k * u) as real == k as real * u as real;
  }

  lemma CvAlgebra(dev: real, n: real, m: real, s: real, q: real, sd: real, cv: real)
    requires cv * m == sd && m * n == s
    requires DeviationIdentity(dev, n, m, s, q) && Variance(sd, n, dev)
    ensures (cv * cv) * ((n - 1.0) * (s * s)) == n * (n * q - s * s)
  {
    CvAlgebraLeft(n, m, cv);
    CvAlgebraRight(n, m, q);
  }

  lemma CvAlgebraLeft(n: real, m: real, cv: real)
    ensures (cv * cv) * ((n - 1.0) * ((m * n) * (m * n))) == ((cv * m) * (cv * m) * (n - 1.0)) * (n * n)
  {}

  lemma CvAlgebraRight(n: real, m: real, q: real)
    ensures (q - (2.0 * m) * (m * n) + (m * m) * n) * (n * n) == n * (n * q - (m * n) * (m * n))
  {}

  lemma Quotient(c: real, a: real, d: real)
    requires d > 0.0 && c * d == a
    ensures c == a / d
  {}

  /** A similarity is the distance of the root of the unevenness from 1. */
  lemma SimilarityFromUnevenness(h: seq<nat>, sim: real)
    requires IsAmountSimilarity(h, sim)
    ensures 0.0 <= sim <= 1.0 && (1.0 - sim) * (1.0 - sim) == Unevenness(h)
  {
    if |h| >= 2 {
      if Sum(h) > 0 {
        MeanPositive(h);
        var sd :| IsStdev(h, sd) && sim == Clip(1.0 - sd / Mean(h));
        SquaredCvOf(h, sd);
        var cv := sd / Mean(h);
        assert cv >= 0.0;
        if cv <= 1.0 { SquareMonotone(cv, 1.0); } else { SquareMonotone(1.0, cv); }
      } else {
        assert Mean(h) == 0.0;
      }
    }
  }

  lemma MeanPositive(h: seq<nat>)
    requires h != [] && Sum(h) > 0
    ensures Mean(h) > 0.0
  {}

  lemma SquareMonotone(a: real, b: real)
    requires 0.0 <= a && 0.0 <= b
    ensures a <= b <==> a * a <= b * b
  {
    var d, t := b - a, a + b;
    assert b * b - a * a == d * t;
    if d >= 0.0 { assert d * t >= 0.0; } else { assert t > 0.0; assert (-d) * t > 0.0; assert d * t == -((-d) * t); }
  }

  lemma RootOrder(ua: real, ub: real, simA: real, simB: real)
    requires simA <= 1.0 && (1.0 - simA) * (1.0 - simA) == ua
    requires simB <= 1.0 && (1.0 - simB) * (1.0 - simB) == ub
    ensures ua <= ub <==> simB <= simA
  {
    SquareMonotone(1.0 - simA, 1.0 - simB);
  }

  /** Comparing unevenness compares similarity, the other way round. */
  lemma LessUnevenIsMoreSimilar(a: seq<nat>, b: seq<nat>, simA: real, simB: real)
    requires IsAmountSimilarity(a, simA) && IsAmountSimilarity(b, simB)
    ensures Unevenness(a) <= Unevenness(b) <==> simB <= simA
  {
    SimilarityFromUnevenness(a, simA);
    SimilarityFromUnevenness(b, simB);
    RootOrder(Unevenness(a), Unevenness(b), simA, simB);
  }

  // ---------------------------------------------------------------- unimodality

  /** Moving the last hop away from sum(h^2) / sum(h) never makes the amounts more even. */
  lemma EvenestAtPeak(s: nat, q: nat, x: nat, y: nat)
    requires (q <= s * x && x <= y) || (y <= x && s * x <= q)
    ensures (q + x * x) * ((s + y) * (s + y)) <= (q + y * y) * ((s + x) * (s + x))
  {
    Factored(s, q, x, y);
    AwayFromPeak(s, q, x, y);
  }

  lemma AwayFromPeak(s: nat, q: nat, x: nat, y: nat)
    requires (q <= s * x && x <= y) || (y <= x && s * x <= q)
    ensures (y - x) * (s * (s * x - q) + s * (s * y - q) + x * (s * y - q) + y * (s * x - q)) >= 0
  {
    var u, v := s * x - q, s * y - q;
    var bracket := s * u + s * v + x * v + y * u;
    if q <= s * x && x <= y {
      Scale(s, x, y);
      NonNegative(s, u); NonNegative(s, v); NonNegative(x, v); NonNegative(y, u);
      NonNegative(y - x, bracket);
    } else {
      Scale(s, y, x);
      NonPositive(s, u); NonPositive(s, v); NonPositive(x, v); NonPositive(y, u);
      NonNegative(x - y, -bracket);
      assert (y - x) * bracket == (x - y) * (-bracket);
    }
  }

  lemma NonNegative(k: nat, t: int)
    requires t >= 0
    ensures k * t >= 0
  {}

  lemma NonPositive(k: nat, t: int)
    requires t <= 0
    ensures k * t <= 0
  {}

  lemma Factored(s: int, q: int, x: int, y: int)
    ensures (q + y * y) * ((s + x) * (s + x)) - (q + x * x) * ((s + y) * (s + y))
         == (y - x) * (s * (s * x - q) + s * (s * y - q) + x * (s * y - q) + y * (s * x - q))
  {
    FactoredOut(s, q, x, y);
    Bracket(s, q, x, y);
  }

  lemma FactoredOut(s: int, q: int, x: int, y: int)
    ensures (q + y * y) * ((s + x) * (s + x)) - (q + x * x) * ((s + y) * (s + y))
         == (y - x) * (s * (s * (x + y) + 2 * x * y) - q * (2 * s + x + y))
  {
    var a, b := s + x, s + y;
    Weighted(q, y, a);
    Weighted(q, x, b);
    DifferenceOfSquares(a, b);
    DifferenceOfSquares(y * a, x * b);
    Parts(s, x, y);
    Gathered(s, q, x, y, s * (x + y) + 2 * x * y, 2 * s + x + y, a * a, b * b);
  }

  lemma Weighted(q: int, y: int, a: int)
    ensures (q + y * y) * (a * a) == q * (a * a) + (y * a) * (y * a)
  {}

  lemma DifferenceOfSquares(a: int, b: int)
    ensures a * a - b * b == (a - b) * (a + b)
  {}

  lemma Parts(s: int, x: int, y: int)
    ensures y * (s + x) - x * (s + y) == s * (y - x)
    ensures y * (s + x) + x * (s + y) == s * (x + y) + 2 * x * y
  {}

  lemma Gathered(s: int, q: int, x: int, y: int, u: int, v: int, aa: int, bb: int)
    requires aa - bb == (x - y) * v
    ensures q * aa - q * bb + (s * (y - x)) * u == (y - x) * (s * u - q * v)
  {
    assert q * aa - q * bb == q * (aa - bb);
  }

  lemma Bracket(s: int, q: int, x: int, y: int)
    ensures s * (s * (x + y) + 2 * x * y) - q * (2 * s + x + y)
         == s * (s * x - q) + s * (s * y - q) + x * (s * y - q) + y * (s * x - q)
  {}

  lemma UnevennessOrder(a: seq<nat>, b: seq<nat>)
    requires |a| == |b| >= 2 && Sum(a) > 0 && Sum(b) > 0
    requires SquaredCv(|a|, Sum(a), SumSq(a)) <= SquaredCv(|b|, Sum(b), SumSq(b))
    ensures Unevenness(a) <= Unevenness(b)
  {}

  lemma SquaredCvOrder(n: nat, sx: nat, qx: nat, sy: nat, qy: nat)
    requires n >= 2 && sx > 0 && sy > 0
    requires qx * (sy * sy) <= qy * (sx * sx)
    ensures SquaredCv(n, sx, qx) <= SquaredCv(n, sy, qy)
  {
    Cross(n, n - 1, sx * sx, sy * sy, qx, qy);
    FractionOrder(n * (n * qx - sx * sx), (n - 1) * (sx * sx), n * (n * qy - sy * sy), (n - 1) * (sy * sy));
  }

  lemma FractionOrder(a: int, b: int, c: int, d: int)
    requires b > 0 && d > 0 && a * d <= c * b
    ensures a as real / b as real <= c as real / d as real
  {
    assert (a * d) as real == a as real * d as real && (c * b) as real == c as real * b as real;
    Fractions(a as real, b as real, c as real, d as real);
  }

  lemma Cross(n: nat, k: nat, x: nat, y: nat, qx: int, qy: int)
    requires qx * y <= qy * x
    ensures (n * (n * qx - x)) * (k * y) <= (n * (n * qy - y)) * (k * x)
  {
    CrossInner(n, x, y, qx, qy);
    Regroup(n, k, n * qy - y, x);
    Regroup(n, k, n * qx - x, y);
    Scale(n, qx * y, qy * x);
    Scale(n * k, (n * qx - x) * y, (n * qy - y) * x);
  }

  lemma CrossInner(n: int, x: int, y: int, qx: int, qy: int)
    ensures (n * qy - y) * x - (n * qx - x) * y == n * (qy * x - qx * y)
  {}

  lemma Regroup(n: int, k: int, a: int, x: int)
    ensures (n * a) * (k * x) == (n * k) * (a * x)
  {}

  lemma Scale(k: nat, a: int, b: int)
    requires a <= b
    ensures k * a <= k * b
  {}

  lemma Appended(prior: seq<nat>, x: nat)
    ensures Sum(prior + [x]) == Sum(prior) + x && SumSq(prior + [x]) == SumSq(prior) + x * x
  {
    assert (prior + [x])[..|prior|] == prior;
  }

  /** The amount at which the last hop is most even with the others. */
  function Peak(prior: seq<nat>): real
    requires Sum(prior) > 0
  {
    SumSq(prior) as real / Sum(prior) as real
  }

  /** Between two sums, the one nearer the peak on the same side is at least as even. */
  lemma NearerIsMoreEven(prior: seq<nat>, x: nat, y: nat)
    requires Sum(prior) > 0
    requires (y <= x && x as real <= Peak(prior)) || (Peak(prior) <= x as real && x <= y)
    ensures Unevenness(prior + [x]) <= Unevenness(prior + [y])
  {
    var a, b := prior + [x], prior + [y];
    Appended(prior, x);
    Appended(prior, y);
    PeakSide(Sum(prior), SumSq(prior), x);
    EvenerHop(Sum(prior), SumSq(prior), x, y, |a|, Sum(a), SumSq(a), Sum(b), SumSq(b));
    UnevennessOrder(a, b);
  }

  lemma EvenerHop(s: nat, q: nat, x: nat, y: nat, n: nat, sx: nat, qx: nat, sy: nat, qy: nat)
    requires n >= 2 && s > 0
    requires sx == s + x && qx == q + x * x && sy == s + y && qy == q + y * y
    requires (q <= s * x && x <= y) || (y <= x && s * x <= q)
    ensures SquaredCv(n, sx, qx) <= SquaredCv(n, sy, qy)
  {
    EvenestAtPeak(s, q, x, y);
    SquaredCvOrder(n, sx, qx, sy, qy);
  }

  lemma PeakSide(s: nat, q: nat, x: nat)
    requires s > 0
    ensures x as real <= q as real / s as real ==> s * x <= q
    ensures q as real / s as real <= x as real ==> q <= s * x
  {
    var p := q as real / s as real;
    assert p * s as real == q as real;
    assert (s * x) as real == x as real * s as real;
  }

  /** With nothing in the other hops, every last hop reads as equally uneven. */
  lemma NothingToMatch(prior: seq<nat>, x: nat)
    requires prior != [] && Sum(prior) == 0
    ensures Unevenness(prior + [x]) == 1.0
  {
    Appended(prior, x);
    ZeroSumOfSquares(prior);
    if x > 0 { LoneAmount(|prior| + 1, x); }
  }

  lemma LoneAmount(n: nat, x: nat)
    requires n >= 2 && x > 0
    ensures SquaredCv(n, x, x * x) >= 1.0
  {
    var d := (n - 1) * (x * x);
    assert n * (x * x) - x * x == d;
    assert d > 0;
    assert n * d >= d;
    FractionOrder(1, 1, n * d, d);
  }

  lemma {:induction false} ZeroSumOfSquares(h: seq<nat>)
    requires Sum(h) == 0
    ensures SumSq(h) == 0
  {
    if h != [] { ZeroSumOfSquares(h[..|h| - 1]); }
  }

  // ---------------------------------------------------------------- the reading

  /** Python's `round`: to the nearest integer, halves to the even one. */
  function Round(x: real): int {
    var f := x.Floor;
    var d := x - f as real;
    if d < 0.5 then f else if d > 0.5 then f + 1 else if f % 2 == 0 then f else f + 1
  }

  function Least(a: seq<nat>): nat
    requires a != []
  {
    if |a| == 1 then a[0] else var m := Least(a[1..]); if a[0] <= m then a[0] else m
  }

  /** `c` fits the prior hops at least as well as `x`. */
  predicate FitsAtLeast(prior: seq<nat>, c: nat, x: nat) {
    Unevenness(prior + [c]) <= Unevenness(prior + [x])
  }

  /** `max(finalists, key=similarity)`: the first of the best-fitting candidates. */
  method FirstBestFit(prior: seq<nat>, finalists: seq<nat>) returns (c: nat)
    requires finalists != []
    ensures exists i :: 0 <= i < |finalists| && c == finalists[i]
    ensures forall i :: 0 <= i < |finalists| ==> FitsAtLeast(prior, c, finalists[i])
    ensures FitsAtLeast(prior, finalists[0], c) ==> c == finalists[0]
  {
    c := finalists[0];
    var best := Unevenness(prior + [c]);
    for k := 1 to |finalists|
      invariant best == Unevenness(prior + [c])
      invariant exists i :: 0 <= i < |finalists| && c == finalists[i]
      invariant forall i :: 0 <= i < k ==> FitsAtLeast(prior, c, finalists[i])
      invariant FitsAtLeast(prior, finalists[0], c) ==> c == finalists[0]
    {
      var u := Unevenness(prior + [finalists[k]]);
      if u < best { c, best := finalists[k], u; }
    }
  }

  /** Past the output limit: the rounded peak, no lower than the least output and no higher than the total. */
  function Clamped(amounts: seq<nat>, total: nat, prior: seq<nat>): nat
    requires amounts != [] && Sum(prior) > 0
  {
    var r := Round(Peak(prior));
    var low := if r >= Least(amounts) then r else Least(amounts);
    if low <= total then low else total
  }

  lemma {:induction false} LeastIsLeast(a: seq<nat>, i: nat)
    requires i < |a|
    ensures Least(a) in a && Least(a) <= a[i]
  {
    if |a| > 1 { LeastIsLeast(a[1..], if i > 0 then i - 1 else 0); }
  }

  lemma RoundIsNear(x: real)
    ensures -0.5 <= Round(x) as real - x <= 0.5
  {}

  lemma ClampIsNearest(peak: real, r: int, low: nat, high: nat, x: nat)
    requires -0.5 <= r as real - peak <= 0.5 && low <= x <= high
    ensures var c: nat := if r <= low then low else if r <= high then r else high;
            Distance(c, peak) <= Distance(x, peak)
  {
    var c: nat := if r <= low then low else if r <= high then r else high;
    if c != x { assert c as real + 1.0 <= x as real || x as real + 1.0 <= c as real; }
  }

  /** It is at most the total, and of the whole amounts from some output up to the total none is nearer to the amount
      that evens the hops out most. */
  lemma ClampedIsNearest(amounts: seq<nat>, total: nat, prior: seq<nat>, i: nat, x: nat)
    requires Sum(prior) > 0 && i < |amounts| && amounts[i] <= x <= total
    ensures var (c, peak) := (Clamped(amounts, total, prior), SumSq(prior) as real / Sum(prior) as real);
            c <= total && Distance(c, peak) <= Distance(x, peak) && exists j :: 0 <= j < |amounts| && amounts[j] <= c
  {
    hide Sum, SumSq, Least, Round, Distance;
    LeastIsLeast(amounts, i);
    RoundIsNear(Peak(prior));
    ClampIsNearest(Peak(prior), Round(Peak(prior)), Least(amounts), total, x);
    var j :| 0 <= j < |amounts| && amounts[j] == Least(amounts);
    assert amounts[j] <= Clamped(amounts, total, prior);
  }

  function Distance(x: nat, y: real): real {
    if x as real >= y then x as real - y else y - x as real
  }

  /** The subset search applies. */
  predicate Searches(amounts: seq<nat>, prior: seq<nat>, subsetMaxOutputs: nat) {
    Sum(prior) > 0 && amounts != [] && |amounts| <= subsetMaxOutputs
  }

  /** `c` is the amount the closing leg reads as: it fits at least as well as the total and the matched row, a tie with
      the total goes to the total, and it fits at least as well as every positive subset sum, or past the output limit
      as the clamped peak. It is one of these. */
  ghost predicate IsReading(amounts: seq<nat>, matched: nat, total: nat, prior: seq<nat>, subsetMaxOutputs: nat,
                            c: nat)
  {
    && FitsAtLeast(prior, c, total) && FitsAtLeast(prior, c, matched)
    && (FitsAtLeast(prior, total, c) ==> c == total)
    && (|amounts| <= subsetMaxOutputs ==> forall x :: x in SumsOf(amounts) && x > 0 ==> FitsAtLeast(prior, c, x))
    && (|amounts| > subsetMaxOutputs && Sum(prior) > 0 && amounts != [] ==>
          FitsAtLeast(prior, c, Clamped(amounts, total, prior)))
    && (|| c == total || c == matched
        || (Searches(amounts, prior, subsetMaxOutputs) && c in SumsOf(amounts) && c > 0)
        || (|amounts| > subsetMaxOutputs && Sum(prior) > 0 && amounts != [] && c == Clamped(amounts, total, prior)))
  }

  /** `_closing_reading`. */
  method Reading(amounts: seq<nat>, matched: nat, total: nat, prior: seq<nat>, subsetMaxOutputs: nat) returns (c: nat)
    requires prior != []
    ensures IsReading(amounts, matched, total, prior, subsetMaxOutputs, c)
  {
    hide FitsAtLeast, Sum, SumSq, Unevenness, Round, Least;
    var finalists := [total, matched];
    var weight := Sum(prior);
    if weight > 0 && amounts != [] {
      var peak := SumSq(prior) as real / weight as real;
      if |amounts| <= subsetMaxOutputs {
        assert peak > 0.0 by { PositiveSquares(prior); PositiveQuotient(SumSq(prior), weight); }
        var below, above := NearestSubsetSums(amounts, peak);
        if below.Some? { finalists := finalists + [below.value]; }
        if above.Some? { finalists := finalists + [above.value]; }
        c := FirstBestFit(prior, finalists);
        assert finalists[1] == matched;
        assert below.Some? ==> finalists[2] == below.value;
        assert above.Some? ==> finalists[|finalists| - 1] == above.value;
        NearestSumsSuffice(amounts, prior, below, above, c);
      } else {
        var least := Least(amounts);
        var low := if Round(peak) >= least then Round(peak) else least;
        finalists := finalists + [if low <= total then low else total];
        c := FirstBestFit(prior, finalists);
        assert finalists[1] == matched && finalists[2] == Clamped(amounts, total, prior);
      }
    } else {
      c := FirstBestFit(prior, finalists);
      assert finalists[1] == matched;
      if weight == 0 {
        AllFitAlike(prior, c);
      }
    }
  }

  lemma AllFitAlike(prior: seq<nat>, c: nat)
    requires prior != [] && Sum(prior) == 0
    ensures forall x: nat :: FitsAtLeast(prior, c, x)
  {
    hide Unevenness, Sum;
    NothingToMatch(prior, c);
    forall x: nat ensures FitsAtLeast(prior, c, x) { NothingToMatch(prior, x); }
  }

  lemma {:induction false} PositiveSquares(h: seq<nat>)
    requires Sum(h) > 0
    ensures SumSq(h) > 0
  {
    var x := h[|h| - 1];
    if x > 0 { assert x * x > 0; } else { PositiveSquares(h[..|h| - 1]); }
  }

  lemma PositiveQuotient(a: nat, b: nat)
    requires a > 0 && b > 0
    ensures a as real / b as real > 0.0
  {}

  /** Beating the nearest sum on each side of the peak is beating every sum. */
  lemma NearestSumsSuffice(amounts: seq<nat>, prior: seq<nat>, below: Option<int>, above: Option<int>, c: nat)
    requires Sum(prior) > 0
    requires IsNearestBelow(SumsOf(amounts), Peak(prior), below) && IsNearestAbove(SumsOf(amounts), Peak(prior), above)
    requires below.Some? ==> FitsAtLeast(prior, c, below.value)
    requires above.Some? ==> FitsAtLeast(prior, c, above.value)
    ensures forall x :: x in SumsOf(amounts) && x > 0 ==> FitsAtLeast(prior, c, x)
  {
    forall x | x in SumsOf(amounts) && x > 0 ensures FitsAtLeast(prior, c, x) {
      if x as real <= Peak(prior) { NearerIsMoreEven(prior, below.value, x); }
      else { NearerIsMoreEven(prior, above.value, x); }
    }
  }

  /** `FitsAtLeast` is the order of the similarities themselves. */
  lemma FitIsSimilarity(prior: seq<nat>, c: nat, x: nat, simC: real, simX: real)
    requires IsAmountSimilarity(prior + [c], simC) && IsAmountSimilarity(prior + [x], simX)
    ensures FitsAtLeast(prior, c, x) <==> simX <= simC
  {
    LessUnevenIsMoreSimilar(prior + [c], prior + [x], simC, simX);
  }

  /** `c` fits at least as well as every non-empty part of the payment. */
  ghost predicate BeatsEveryPart(amounts: seq<nat>, prior: seq<nat>, c: nat) {
    forall x: nat :: IsNonEmptySubsetSum(amounts, x) ==> FitsAtLeast(prior, c, x)
  }

  predicate PositiveAndFits(amounts: seq<nat>, prior: seq<nat>, i: nat)
    requires i < |amounts|
  {
    amounts[i] > 0 && FitsAtLeast(prior, amounts[i], 0)
  }

  /** A zero output's own sum cannot be missed: there is none, the other hops are empty, or the total, the matched row
      or some positive output fits at least as well as 0. */
  predicate ZeroIsCovered(amounts: seq<nat>, matched: nat, total: nat, prior: seq<nat>) {
    || (forall i :: 0 <= i < |amounts| ==> amounts[i] > 0)
    || Sum(prior) == 0
    || FitsAtLeast(prior, total, 0) || FitsAtLeast(prior, matched, 0)
    || exists i :: 0 <= i < |amounts| && PositiveAndFits(amounts, prior, i)
  }

  /** Up to the output limit, the reading beats every non-empty part of the payment exactly when a zero output's own sum
      is covered. */
  lemma BestOfEveryPart(amounts: seq<nat>, matched: nat, total: nat, prior: seq<nat>, subsetMaxOutputs: nat, c: nat)
    requires prior != [] && |amounts| <= subsetMaxOutputs
    requires IsReading(amounts, matched, total, prior, subsetMaxOutputs, c)
    ensures BeatsEveryPart(amounts, prior, c) <==> ZeroIsCovered(amounts, matched, total, prior)
  {
    hide Unevenness, Sum;
    ZeroIsNonEmptySum(amounts);
    if BeatsEveryPart(amounts, prior, c) {
      if !(forall i :: 0 <= i < |amounts| ==> amounts[i] > 0) && Sum(prior) > 0 {
        assert FitsAtLeast(prior, c, 0);
        if c != total && c != matched {
          var i := PositiveSumCovers(amounts, prior, c);
          assert PositiveAndFits(amounts, prior, i);
        }
      }
    }
    if ZeroIsCovered(amounts, matched, total, prior) {
      forall x: nat | IsNonEmptySubsetSum(amounts, x) ensures FitsAtLeast(prior, c, x) {
        if x > 0 {
          PositiveSumsAreNonEmpty(amounts, x);
          assert x in SumsOf(amounts);
        } else {
          CoveredZero(amounts, matched, total, prior, subsetMaxOutputs, c);
        }
      }
    }
  }

  lemma CoveredZero(amounts: seq<nat>, matched: nat, total: nat, prior: seq<nat>, subsetMaxOutputs: nat, c: nat)
    requires prior != [] && |amounts| <= subsetMaxOutputs && exists i :: 0 <= i < |amounts| && amounts[i] == 0
    requires IsReading(amounts, matched, total, prior, subsetMaxOutputs, c)
    requires ZeroIsCovered(amounts, matched, total, prior)
    ensures FitsAtLeast(prior, c, 0)
  {
    hide Unevenness, Sum;
    if Sum(prior) == 0 {
      NothingToMatch(prior, c);
      NothingToMatch(prior, 0);
    } else if i :| 0 <= i < |amounts| && PositiveAndFits(amounts, prior, i) {
      AmountIsSum(amounts, i);
    }
  }

  /** An output is a sum of the outputs. */
  lemma AmountIsSum(amounts: seq<nat>, i: nat)
    requires i < |amounts|
    ensures amounts[i] in SumsOf(amounts)
  {
    var pick := seq(|amounts|, k => k == i);
    OnePicked(amounts, pick, i);
  }

  lemma {:induction false} OnePicked(amounts: seq<nat>, pick: seq<bool>, i: nat)
    requires i < |amounts| == |pick| && forall k :: 0 <= k < |pick| ==> pick[k] == (k == i)
    ensures PickSum(amounts, pick) == amounts[i]
  {
    var n := |amounts| - 1;
    if i < n {
      OnePicked(amounts[..n], pick[..n], i);
    } else {
      NonePicked(amounts[..n], pick[..n]);
    }
  }

  lemma {:induction false} NonePicked(amounts: seq<nat>, pick: seq<bool>)
    requires |amounts| == |pick| && forall k :: 0 <= k < |pick| ==> !pick[k]
    ensures PickSum(amounts, pick) == 0
  {
    if amounts != [] { NonePicked(amounts[..|amounts| - 1], pick[..|pick| - 1]); }
  }

  /** A positive sum that fits at least as well as 0 has a positive part that does. */
  lemma PositiveSumCovers(amounts: seq<nat>, prior: seq<nat>, c: nat) returns (i: nat)
    requires Sum(prior) > 0 && c > 0 && c in SumsOf(amounts) && FitsAtLeast(prior, c, 0)
    ensures i < |amounts| && amounts[i] > 0 && FitsAtLeast(prior, amounts[i], 0)
  {
    hide Unevenness, Sum, SumSq;
    var pick :| |pick| == |amounts| && PickSum(amounts, pick) == c;
    PickSumPositive(amounts, pick);
    i :| 0 <= i < |pick| && pick[i] && amounts[i] > 0;
    PickedIsWithin(amounts, pick, i);
    if amounts[i] as real <= Peak(prior) {
      NearerIsMoreEven(prior, amounts[i], 0);
    } else {
      NearerIsMoreEven(prior, amounts[i], c);
    }
  }

  lemma {:induction false} PickedIsWithin(amounts: seq<nat>, pick: seq<bool>, i: nat)
    requires i < |amounts| == |pick| && pick[i]
    ensures amounts[i] <= PickSum(amounts, pick)
  {
    var n := |amounts| - 1;
    if i < n { PickedIsWithin(amounts[..n], pick[..n], i); }
  }

  /** Where it is not covered: outputs 0 and 1000 after hops of 10, the matched row and the total being 1000. The
      reading is 1000, and 0 would have fitted better. */
  lemma ZeroOutputMissed(subsetMaxOutputs: nat, c: nat)
    requires subsetMaxOutputs >= 2 && IsReading([0, 1000], 1000, 1000, [10, 10, 10, 10], subsetMaxOutputs, c)
    ensures c == 1000 && IsNonEmptySubsetSum([0, 1000], 0) && !FitsAtLeast([10, 10, 10, 10], c, 0)
    ensures !BeatsEveryPart([0, 1000], [10, 10, 10, 10], c)
  {
    var amounts, prior: seq<nat> := [0, 1000], [10, 10, 10, 10];
    ZeroIsNonEmptySum(amounts);
    assert amounts[0] == 0;
    ThousandOnly(c);
    Tens();
    Appended(prior, 0);
    Appended(prior, 1000);
    assert SquaredCv(5, 40, 400) == 2000.0 / 6400.0;
    assert SquaredCv(5, 1040, 1000400) >= 1.0 by { AtLeastOne(5 * (5 * 1000400 - 1040 * 1040), 4 * (1040 * 1040)); }
  }

  lemma ThousandOnly(x: int)
    ensures x in SumsOf([0, 1000]) && x > 0 ==> x == 1000
  {
    var amounts: seq<nat> := [0, 1000];
    assert amounts[..1] == [0];
    if x in SumsOf(amounts) && x > 0 {
      var pick :| |pick| == |amounts| && PickSum(amounts, pick) == x;
      assert PickSum([0], pick[..1]) == 0;
    }
  }

  lemma Tens()
    ensures Sum([10, 10, 10, 10]) == 40 && SumSq([10, 10, 10, 10]) == 400
  {
    Appended([], 10);
    Appended([10], 10);
    Appended([10, 10], 10);
    Appended([10, 10, 10], 10);
    assert [10, 10, 10, 10] == [10, 10, 10] + [10] && [10, 10, 10] == [10, 10] + [10] && [10, 10] == [10] + [10];
    assert [] + [10] == [10];
  }

  lemma AtLeastOne(a: int, d: int)
    requires 0 < d <= a
    ensures a as real / d as real >= 1.0
  {
    FractionOrder(1, 1, a, d);
  }

  /** `_closing_leg_amounts`: what the closing transaction returned, the amount its similarity is read on,
      and whether the read of its outputs failed (`outputs` is what that read gave). */
  method ClosingLegAmounts(outputs: Option<seq<nat>>, scored: bool, matched: nat, prior: seq<nat>,
                           subsetMaxOutputs: nat)
    returns (total: nat, reading: nat, failed: bool)
    requires prior != []
    ensures failed <==> scored && outputs.None?
    ensures !scored || failed ==> total == matched && reading == matched
    ensures scored && outputs.Some? ==> total == if Sum(outputs.value) >= matched then Sum(outputs.value) else matched
    ensures FitsAtLeast(prior, reading, matched)
    ensures scored && outputs.Some? ==> IsReading(outputs.value, matched, total, prior, subsetMaxOutputs, reading)
  {
    if !scored { return matched, matched, false; }
    match outputs {
      case None => return matched, matched, true;
      case Some(amounts) =>
        total := if Sum(amounts) >= matched then Sum(amounts) else matched;
        reading := Reading(amounts, matched, total, prior, subsetMaxOutputs);
        failed := false;
    }
  }
}
