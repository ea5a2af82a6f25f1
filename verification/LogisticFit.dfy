/**
 The logistic fit of calibrate.py: standardise the columns, descend the ridge
 penalised gradient, and map the weights back to the original feature scale.
 Arithmetic is over the reals; sigmoid, log and square root are parameters.
 */
module LogisticFit {
  import opened Options

  type Row = seq<real>

  datatype Config = Config(
    rate: real, iterations: nat, tolerance: real, l2: real,
    sigmoid: real -> real, log: real -> real, sqrt: real -> real)

  /** A rectangular, non-empty training set with one label a row. */
  ghost predicate Table(X: seq<Row>, y: seq<int>) {
    && |X| > 0 && |y| == |X|
    && forall i :: 0 <= i < |X| ==> |X[i]| == |X[0]|
  }

  ghost predicate Rectangular(X: seq<Row>, k: nat) {
    forall i :: 0 <= i < |X| ==> |X[i]| == k
  }

  // ----- standardisation -----

  function ColumnSum(X: seq<Row>, k: nat, j: nat): real
    requires Rectangular(X, k) && j < k
  {
    if X == [] then 0.0 else ColumnSum(X[..|X| - 1], k, j) + X[|X| - 1][j]
  }

  function Mean(X: seq<Row>, k: nat, j: nat): real
    requires Rectangular(X, k) && j < k && X != []
  {
    ColumnSum(X, k, j) / |X| as real
  }

  function Sum(s: Row): real {
    if s == [] then 0.0 else Sum(s[..|s| - 1]) + s[|s| - 1]
  }

  /** The squared distances of a column from a point. */
  function Squares(X: seq<Row>, k: nat, j: nat, mu: real): (r: Row)
    requires Rectangular(X, k) && j < k
    ensures |r| == |X|
  {
    seq(|X|, i requires 0 <= i < |X| => (X[i][j] - mu) * (X[i][j] - mu))
  }

  function Variance(X: seq<Row>, k: nat, j: nat): real
    requires Rectangular(X, k) && j < k && X != []
  {
    Sum(Squares(X, k, j, Mean(X, k, j))) / |X| as real
  }

  const FLAT := 0.000000000001

  function RootOrOne(v: real, sqrt: real -> real): real {
    if v > FLAT then sqrt(v) else 1.0
  }

  /** The standard deviation of a column; a flat column falls back to one. */
  function Deviation(X: seq<Row>, k: nat, j: nat, sqrt: real -> real): real
    requires Rectangular(X, k) && j < k && X != []
  {
    RootOrOne(Variance(X, k, j), sqrt)
  }

  ghost predicate IsSqrt(sqrt: real -> real) {
    forall v :: v >= 0.0 ==> sqrt(v) >= 0.0 && sqrt(v) * sqrt(v) == v
  }

  function Means(X: seq<Row>, k: nat): (r: Row)
    requires Rectangular(X, k) && X != []
    ensures |r| == k
  {
    seq(k, j requires 0 <= j < k => Mean(X, k, j))
  }

  function Deviations(X: seq<Row>, k: nat, sqrt: real -> real): (r: Row)
    requires Rectangular(X, k) && X != []
    ensures |r| == k
  {
    seq(k, j requires 0 <= j < k => Deviation(X, k, j, sqrt))
  }

  lemma DeviationPositive(X: seq<Row>, k: nat, j: nat, sqrt: real -> real)
    requires Rectangular(X, k) && j < k && X != [] && IsSqrt(sqrt)
    ensures Deviation(X, k, j, sqrt) > 0.0
  {
    var v := Variance(X, k, j);
    assert v > FLAT ==> sqrt(v) * sqrt(v) == v;
  }

  ghost predicate AllPositive(sd: Row) {
    forall j :: 0 <= j < |sd| ==> sd[j] > 0.0
  }

  function Scaled(x: Row, mu: Row, sd: Row): (r: Row)
    requires |x| == |mu| == |sd| && AllPositive(sd)
    ensures |r| == |x|
  {
    seq(|x|, j requires 0 <= j < |x| => (x[j] - mu[j]) / sd[j])
  }

  function ScaledAll(X: seq<Row>, mu: Row, sd: Row): (r: seq<Row>)
    requires Rectangular(X, |mu|) && |mu| == |sd| && AllPositive(sd)
    ensures |r| == |X| && Rectangular(r, |mu|)
  {
    seq(|X|, i requires 0 <= i < |X| => Scaled(X[i], mu, sd))
  }

  lemma DivideSum(a: real, b: real, s: real)
    requires s > 0.0
    ensures (a + b) / s == a / s + b / s
  {}

  lemma {:induction false} ScaledSum(X: seq<Row>, mu: Row, sd: Row, j: nat)
    requires Rectangular(X, |mu|) && |mu| == |sd| && AllPositive(sd) && j < |mu|
    ensures ColumnSum(ScaledAll(X, mu, sd), |mu|, j) == (ColumnSum(X, |mu|, j) - |X| as real * mu[j]) / sd[j]
  {
    if X != [] {
      var n := |X| - 1;
      ScaledSum(X[..n], mu, sd, j);
      assert ScaledAll(X, mu, sd)[..n] == ScaledAll(X[..n], mu, sd);
      var a, b := ColumnSum(X[..n], |mu|, j) - n as real * mu[j], X[n][j] - mu[j];
      DivideSum(a, b, sd[j]);
      assert |X| as real * mu[j] == n as real * mu[j] + mu[j];
    }
  }

  /** Every standardised training column sums to zero. */
  lemma StandardisedSumsToZero(X: seq<Row>, k: nat, j: nat, sqrt: real -> real)
    requires Rectangular(X, k) && X != [] && j < k && IsSqrt(sqrt)
    ensures AllPositive(Deviations(X, k, sqrt))
    ensures ColumnSum(ScaledAll(X, Means(X, k), Deviations(X, k, sqrt)), k, j) == 0.0
  {
    PositiveDeviations(X, k, sqrt);
    ScaledSum(X, Means(X, k), Deviations(X, k, sqrt), j);
    TimesMean(ColumnSum(X, k, j), |X| as real);
  }

  lemma ScaledSquare(x: real, mu: real, sd: real, factor: real)
    requires sd > 0.0 && factor * (sd * sd) == 1.0
    ensures ((x - mu) / sd - 0.0) * ((x - mu) / sd - 0.0) == factor * ((x - mu) * (x - mu))
  {
    var q := (x - mu) / sd;
    assert q * sd == x - mu;
    assert (x - mu) * (x - mu) == (q * q) * (sd * sd);
    assert factor * ((q * q) * (sd * sd)) == (q * q) * (factor * (sd * sd));
  }

  /** The squares of a standardised column, in proportion to its squared distances from the mean. */
  lemma StandardisedSquares(X: seq<Row>, mu: Row, sd: Row, j: nat, factor: real)
    requires Rectangular(X, |mu|) && |mu| == |sd| && AllPositive(sd) && j < |mu|
    requires factor * (sd[j] * sd[j]) == 1.0
    ensures Proportional(Squares(X, |mu|, j, mu[j]), Squares(ScaledAll(X, mu, sd), |mu|, j, 0.0), factor)
  {
    forall i | 0 <= i < |X|
      ensures Squares(ScaledAll(X, mu, sd), |mu|, j, 0.0)[i] == factor * Squares(X, |mu|, j, mu[j])[i]
    {
      ScaledSquare(X[i][j], mu[j], sd[j], factor);
    }
  }

  /** The squares of the standardised column add up to the number of rows, that is, its variance is one. */
  lemma UnitVariance(X: seq<Row>, k: nat, j: nat, sqrt: real -> real) returns (squares: real)
    requires Rectangular(X, k) && X != [] && j < k && IsSqrt(sqrt) && Variance(X, k, j) > 0.000000000001
    ensures AllPositive(Deviations(X, k, sqrt))
    ensures squares == Sum(Squares(ScaledAll(X, Means(X, k), Deviations(X, k, sqrt)), k, j, 0.0))
    ensures squares == |X| as real
  {
    PositiveDeviations(X, k, sqrt);
    var mu, sd := Means(X, k), Deviations(X, k, sqrt);
    var factor, sum := VarianceInverse(X, k, j, sqrt, |X| as real);
    StandardisedSquares(X, mu, sd, j, factor);
    var s, t := Squares(X, k, j, mu[j]), Squares(ScaledAll(X, mu, sd), k, j, 0.0);
    var u, u' := SumsScale(s, t, factor);
    squares := u';
  }

  lemma VarianceInverse(X: seq<Row>, k: nat, j: nat, sqrt: real -> real, n: real) returns (factor: real, sum: real)
    requires Rectangular(X, k) && X != [] && j < k && IsSqrt(sqrt) && Variance(X, k, j) > FLAT && n == |X| as real
    ensures sum == Sum(Squares(X, k, j, Mean(X, k, j)))
    ensures factor * (Deviation(X, k, j, sqrt) * Deviation(X, k, j, sqrt)) == 1.0 && factor * sum == n
  {
    var v := Variance(X, k, j);
    factor, sum := 1.0 / v, Sum(Squares(X, k, j, Mean(X, k, j)));
    TimesMean(sum, n);
    assert sqrt(v) * sqrt(v) == v && factor * v == 1.0;
    assert factor * (n * v) == n * (factor * v);
  }

  /** A column whose variance is at most 1e-12 is centred and keeps its scale. */
  lemma FlatColumnKeepsScale(X: seq<Row>, k: nat, i: nat, j: nat, sqrt: real -> real)
    requires Rectangular(X, k) && i < |X| && j < k && IsSqrt(sqrt) && Variance(X, k, j) <= 0.000000000001
    ensures AllPositive(Deviations(X, k, sqrt))
    ensures ScaledAll(X, Means(X, k), Deviations(X, k, sqrt))[i][j] == X[i][j] - Mean(X, k, j)
  {
    PositiveDeviations(X, k, sqrt);
  }

  lemma TimesMean(sum: real, n: real)
    requires n > 0.0
    ensures n * (sum / n) == sum
  {}

  lemma PositiveDeviations(X: seq<Row>, k: nat, sqrt: real -> real)
    requires Rectangular(X, k) && X != [] && IsSqrt(sqrt)
    ensures AllPositive(Deviations(X, k, sqrt))
  {
    forall j | 0 <= j < k
      ensures Deviations(X, k, sqrt)[j] > 0.0
    {
      DeviationPositive(X, k, j, sqrt);
    }
  }

  // ----- training on standardised rows -----

  /** The score of a row under weights whose index 0 is the intercept, over the first m features. */
  function ScoreTo(w: Row, x: Row, m: nat): real
    requires |w| == |x| + 1 && m <= |x|
  {
    if m == 0 then w[0] else ScoreTo(w, x, m - 1) + w[m] * x[m - 1]
  }

  function Score(w: Row, x: Row): real
    requires |w| == |x| + 1
  {
    ScoreTo(w, x, |x|)
  }

  function Zeros(k: nat): (r: Row)
    ensures |r| == k
  {
    seq(k, _ => 0.0)
  }

  function Accumulated(g: Row, error: real, x: Row): (r: Row)
    requires |g| == |x| + 1
    ensures |r| == |g|
  {
    seq(|g|, j requires 0 <= j < |g| => g[j] + if j == 0 then error else error * x[j - 1])
  }

  function Ridged(g: Row, w: Row, l2: real): (r: Row)
    requires |g| == |w|
    ensures |r| == |g|
  {
    seq(|g|, j requires 0 <= j < |g| => if j == 0 then g[j] else g[j] + l2 * w[j])
  }

  function Moved(w: Row, g: Row, rate: real, n: nat): (r: Row)
    requires |g| == |w| && n > 0
    ensures |r| == |w|
  {
    seq(|w|, j requires 0 <= j < |w| => w[j] - rate * g[j] / n as real)
  }

  /** The gradient of the first m rows, before the ridge term. */
  function GradientTo(w: Row, X: seq<Row>, y: seq<int>, sigmoid: real -> real, m: nat): (g: Row)
    requires |w| > 0 && Rectangular(X, |w| - 1) && m <= |X| == |y|
    ensures |g| == |w|
  {
    if m == 0 then Zeros(|w|)
    else
      var error := sigmoid(Score(w, X[m - 1])) - y[m - 1] as real;
      Accumulated(GradientTo(w, X, y, sigmoid, m - 1), error, X[m - 1])
  }

  /** The error of the first m rows, each weighted by feature j; index 0 stands for the constant feature. */
  function ErrorSum(w: Row, X: seq<Row>, y: seq<int>, sigmoid: real -> real, j: nat, m: nat): real
    requires |w| > 0 && Rectangular(X, |w| - 1) && m <= |X| == |y| && j < |w|
  {
    if m == 0 then 0.0
    else
      var error := sigmoid(Score(w, X[m - 1])) - y[m - 1] as real;
      ErrorSum(w, X, y, sigmoid, j, m - 1) + if j == 0 then error else error * X[m - 1][j - 1]
  }

  lemma AccumulatedAt(g: Row, error: real, x: Row, j: nat)
    requires |g| == |x| + 1 && j < |g|
    ensures Accumulated(g, error, x)[j] == g[j] + if j == 0 then error else error * x[j - 1]
  {}

  /** The gradient accumulated row by row is, weight by weight, the error weighted by that weight's feature. */
  lemma {:induction false} GradientIsErrorSum(w: Row, X: seq<Row>, y: seq<int>, sigmoid: real -> real, j: nat, m: nat)
    requires |w| > 0 && Rectangular(X, |w| - 1) && m <= |X| == |y| && j < |w|
    ensures GradientTo(w, X, y, sigmoid, m)[j] == ErrorSum(w, X, y, sigmoid, j, m)
  {
    if m > 0 {
      GradientIsErrorSum(w, X, y, sigmoid, j, m - 1);
      var error := sigmoid(Score(w, X[m - 1])) - y[m - 1] as real;
      AccumulatedAt(GradientTo(w, X, y, sigmoid, m - 1), error, X[m - 1], j);
    }
  }

  // ----- the gradient and the step -----

  /** The whole gradient: the error sum of every feature, with the ridge on all weights but the intercept. */
  function Gradient(w: Row, X: seq<Row>, y: seq<int>, c: Config): (g: Row)
    requires |w| > 0 && Rectangular(X, |w| - 1) && |X| == |y|
    ensures |g| == |w|
  {
    seq(|w|, j requires 0 <= j < |w| =>
      ErrorSum(w, X, y, c.sigmoid, j, |X|) + if j == 0 then 0.0 else c.l2 * w[j])
  }

  /** The step from w to v. */
  function Difference(w: Row, v: Row): (d: Row)
    requires |w| == |v|
    ensures |d| == |w|
  {
    seq(|w|, j requires 0 <= j < |w| => v[j] - w[j])
  }

  /** The inner product of two rows over their first m entries. */
  function Inner(a: Row, b: Row, m: nat): real
    requires m <= |a| == |b|
  {
    if m == 0 then 0.0 else Inner(a, b, m - 1) + a[m - 1] * b[m - 1]
  }

  /** Each weight moves against its gradient component, in proportion to the rate and per row. */
  ghost predicate Against(g: Row, d: Row, rate: real, n: nat) {
    && |g| == |d|
    && forall j :: 0 <= j < |d| ==> n as real * -d[j] == rate * g[j]
  }

  lemma MovedBy(w: real, rate: real, g: real, n: nat)
    requires n > 0
    ensures n as real * (w - (w - rate * g / n as real)) == rate * g
  {
    var q := rate * g / n as real;
    assert q * n as real == rate * g;
  }

  /** The gradient that a pass accumulates is the whole gradient. */
  lemma RidgedGradient(w: Row, X: seq<Row>, y: seq<int>, c: Config)
    requires |w| > 0 && Rectangular(X, |w| - 1) && 0 < |X| == |y|
    ensures Ridged(GradientTo(w, X, y, c.sigmoid, |X|), w, c.l2) == Gradient(w, X, y, c)
  {
    forall j | 0 <= j < |w|
      ensures Ridged(GradientTo(w, X, y, c.sigmoid, |X|), w, c.l2)[j] == Gradient(w, X, y, c)[j]
    {
      GradientIsErrorSum(w, X, y, c.sigmoid, j, |X|);
    }
  }

  lemma MovedAgainst(w: Row, g: Row, rate: real, n: nat)
    requires |g| == |w| && n > 0
    ensures Against(g, Difference(w, Moved(w, g, rate, n)), rate, n)
  {
    forall j | 0 <= j < |w|
      ensures n as real * -Difference(w, Moved(w, g, rate, n))[j] == rate * g[j]
    {
      MovedBy(w[j], rate, g[j], n);
    }
  }

  lemma DescendsGradient(w: Row, X: seq<Row>, y: seq<int>, c: Config)
    requires |w| > 0 && Rectangular(X, |w| - 1) && 0 < |X| == |y|
    ensures Against(Gradient(w, X, y, c), Difference(w, Descended(w, X, y, c)), c.rate, |X|)
  {
    RidgedGradient(w, X, y, c);
    MovedAgainst(w, Gradient(w, X, y, c), c.rate, |X|);
  }

  lemma TermFalls(g: real, step: real, rate: real, n: real)
    requires rate > 0.0 && n > 0.0 && n * -step == rate * g
    ensures g * step <= 0.0 && (g * step == 0.0 <==> g == 0.0) && (g == 0.0 <==> step == 0.0)
  {
    var k := n / rate;
    assert k * rate == n;
    assert rate * (k * -step) == rate * g;
    assert g == k * -step && k > 0.0;
    assert g * step == -(k * (step * step));
  }

  lemma TermAt(g: Row, d: Row, rate: real, n: nat, j: nat) returns (t: real)
    requires Against(g, d, rate, n) && rate > 0.0 && n > 0 && j < |d|
    ensures t == g[j] * d[j] && t <= 0.0
    ensures (t == 0.0 <==> g[j] == 0.0) && (g[j] == 0.0 <==> d[j] == 0.0)
  {
    TermFalls(g[j], d[j], rate, n as real);
    t := g[j] * d[j];
  }

  lemma {:induction false} StepFallsTo(g: Row, d: Row, rate: real, n: nat, m: nat)
    requires Against(g, d, rate, n) && rate > 0.0 && n > 0 && m <= |d|
    ensures Inner(g, d, m) <= 0.0
    ensures Inner(g, d, m) == 0.0 <==> forall j :: 0 <= j < m ==> g[j] == 0.0
    ensures forall j :: 0 <= j < m ==> (g[j] == 0.0 <==> d[j] == 0.0)
  {
    if m > 0 {
      var t := TermAt(g, d, rate, n, m - 1);
      StepFallsTo(g, d, rate, n, m - 1);
    }
  }

  /** A step against the gradient goes down it, unless the gradient is zero and the step leads nowhere. */
  lemma StepFalls(g: Row, w: Row, v: Row, rate: real, n: nat)
    requires |w| == |v| > 0 && Against(g, Difference(w, v), rate, n) && rate > 0.0 && n > 0
    ensures Inner(g, Difference(w, v), |w|) <= 0.0
    ensures Inner(g, Difference(w, v), |w|) == 0.0 <==> forall j :: 0 <= j < |w| ==> g[j] == 0.0
    ensures Inner(g, Difference(w, v), |w|) == 0.0 <==> v == w
  {
    var d := Difference(w, v);
    StepFallsTo(g, d, rate, n, |w|);
    assert v == w <==> forall j :: 0 <= j < |w| ==> d[j] == 0.0 by {
      assert forall j :: 0 <= j < |w| ==> (d[j] == 0.0 <==> v[j] == w[j]);
    }
  }

  // ----- the loss -----

  function Clip(p: real): real {
    if p > FLAT then p else FLAT
  }

  /** The negative log-likelihood of one row. */
  function RowLoss(p: real, t: real, log: real -> real): real {
    -(t * log(Clip(p)) + (1.0 - t) * log(Clip(1.0 - p)))
  }

  /** Likelihood plus half the ridge penalty, per row. */
  function MeanLoss(nll: real, ridge: real, l2: real, n: nat): real
    requires n > 0
  {
    (nll + l2 * ridge / 2.0) / n as real
  }

  function LossTo(w: Row, X: seq<Row>, y: seq<int>, c: Config, m: nat): real
    requires |w| > 0 && Rectangular(X, |w| - 1) && m <= |X| == |y|
  {
    if m == 0 then 0.0
    else
      LossTo(w, X, y, c, m - 1) + RowLoss(c.sigmoid(Score(w, X[m - 1])), y[m - 1] as real, c.log)
  }

  /** The sum of squares of the first m feature weights, the intercept left out. */
  function RidgeTo(w: Row, m: nat): real
    requires m < |w|
  {
    if m == 0 then 0.0 else RidgeTo(w, m - 1) + w[m] * w[m]
  }

  function Descended(w: Row, X: seq<Row>, y: seq<int>, c: Config): (r: Row)
    requires |w| > 0 && Rectangular(X, |w| - 1) && 0 < |X| == |y|
    ensures |r| == |w|
  {
    Moved(w, Ridged(GradientTo(w, X, y, c.sigmoid, |X|), w, c.l2), c.rate, |X|)
  }

  function LossOf(w: Row, X: seq<Row>, y: seq<int>, c: Config): real
    requires |w| > 0 && Rectangular(X, |w| - 1) && 0 < |X| == |y|
  {
    MeanLoss(LossTo(w, X, y, c, |X|), RidgeTo(w, |w| - 1), c.l2, |X|)
  }

  predicate Settled(now: real, before: Option<real>, tolerance: real) {
    before.Some? && now - before.value <= tolerance && before.value - now <= tolerance
  }

  /** Gradient steps until the loss settles or the budget runs out; None stands for the initial infinite loss. */
  function Trained(
    w: Row, loss: Option<real>, X: seq<Row>, y: seq<int>, c: Config, budget: nat): (r: (Row, Option<real>))
    requires |w| > 0 && Rectangular(X, |w| - 1) && 0 < |X| == |y|
    ensures |r.0| == |w|
    decreases budget
  {
    if budget == 0 then (w, loss)
    else
      var now, next := LossOf(w, X, y, c), Descended(w, X, y, c);
      if Settled(now, loss, c.tolerance) then (next, loss) else Trained(next, Some(now), X, y, c, budget - 1)
  }

  // ----- back to the original scale -----

  function OffsetTo(w: Row, mu: Row, sd: Row, m: nat): real
    requires |mu| == |sd| == |w| - 1 && m <= |mu| && AllPositive(sd)
  {
    if m == 0 then 0.0 else OffsetTo(w, mu, sd, m - 1) + w[m] * mu[m - 1] / sd[m - 1]
  }

  function BackMapped(w: Row, mu: Row, sd: Row): (r: Row)
    requires |mu| == |sd| == |w| - 1 && AllPositive(sd)
    ensures |r| == |w|
  {
    seq(|w|, j requires 0 <= j < |w| => if j == 0 then w[0] - OffsetTo(w, mu, sd, |mu|) else w[j] / sd[j - 1])
  }

  lemma TermMaps(w: real, x: real, mu: real, sd: real)
    requires sd > 0.0
    ensures w / sd * x - w * mu / sd == w * ((x - mu) / sd)
  {
    assert w * ((x - mu) / sd) == w * (x - mu) / sd;
    assert w / sd * x == w * x / sd;
    DivideSum(w * x, -(w * mu), sd);
    assert w * (x - mu) == w * x - w * mu;
  }

  lemma {:induction false} BackMapTo(w: Row, mu: Row, sd: Row, x: Row, m: nat)
    requires |x| == |mu| == |sd| == |w| - 1 && AllPositive(sd) && m <= |x|
    ensures ScoreTo(BackMapped(w, mu, sd), x, m)
      == ScoreTo(w, Scaled(x, mu, sd), m) + OffsetTo(w, mu, sd, m) - OffsetTo(w, mu, sd, |mu|)
  {
    if m > 0 {
      BackMapTo(w, mu, sd, x, m - 1);
      TermMaps(w[m], x[m - 1], mu[m - 1], sd[m - 1]);
    }
  }

  /**
   Un-standardising preserves meaning: on every row the returned weights score
   what the trained ones score on the standardised row.
   */
  lemma BackMapPreserves(w: Row, mu: Row, sd: Row, x: Row)
    requires |x| == |mu| == |sd| == |w| - 1 && AllPositive(sd)
    ensures Score(BackMapped(w, mu, sd), x) == Score(w, Scaled(x, mu, sd))
  {
    BackMapTo(w, mu, sd, x, |x|);
  }

  // ----- the fit -----

  /** The whole fit: coefficients with the intercept first, and the last recorded loss. */
  function Fitted(X: seq<Row>, y: seq<int>, k: nat, c: Config): (r: (Row, Option<real>))
    requires Rectangular(X, k) && 0 < |X| == |y| && IsSqrt(c.sqrt)
    ensures |r.0| == k + 1
  {
    var mu, sd := Means(X, k), Deviations(X, k, c.sqrt);
    PositiveDeviations(X, k, c.sqrt);
    var (w, loss) := Trained(Zeros(k + 1), None, ScaledAll(X, mu, sd), y, c, c.iterations);
    (BackMapped(w, mu, sd), loss)
  }

  /** Add one row's contribution to the gradient. */
  method AddRow(g: Row, error: real, x: Row) returns (grads: Row)
    requires |g| == |x| + 1
    ensures grads == Accumulated(g, error, x)
  {
    grads := g[0 := g[0] + error];
    for j := 0 to |x|
      invariant |grads| == |g| && grads[0] == g[0] + error
      invariant forall l :: 1 <= l <= j ==> grads[l] == g[l] + error * x[l - 1]
      invariant forall l :: j < l < |g| && l > 0 ==> grads[l] == g[l]
    {
      grads := grads[j + 1 := grads[j + 1] + error * x[j]];
    }
    assert forall l :: 0 <= l < |g| ==> grads[l] == Accumulated(g, error, x)[l];
  }

  /** Add the ridge term to every weight but the intercept, and sum their squares. */
  method AddRidge(g: Row, w: Row, l2: real) returns (grads: Row, ridge: real)
    requires |g| == |w| > 0
    ensures grads == Ridged(g, w, l2) && ridge == RidgeTo(w, |w| - 1)
  {
    grads, ridge := g, 0.0;
    for j := 1 to |w|
      invariant ridge == RidgeTo(w, j - 1)
      invariant |grads| == |w| && grads[0] == g[0]
      invariant forall l :: 1 <= l < j ==> grads[l] == g[l] + l2 * w[l]
      invariant forall l :: j <= l < |w| ==> grads[l] == g[l]
    {
      grads := grads[j := grads[j] + l2 * w[j]];
      ridge := ridge + w[j] * w[j];
    }
    assert forall l :: 0 <= l < |w| ==> grads[l] == Ridged(g, w, l2)[l];
  }

  /** Every weight moves against its component of the gradient. */
  method Move(w: Row, g: Row, rate: real, n: nat) returns (next: Row)
    requires |g| == |w| && n > 0
    ensures next == Moved(w, g, rate, n)
    ensures forall j :: 0 <= j < |w| ==> n as real * (w[j] - next[j]) == rate * g[j]
  {
    next := w;
    for j := 0 to |w|
      invariant |next| == |w|
      invariant forall l :: 0 <= l < j ==> next[l] == Moved(w, g, rate, n)[l]
      invariant forall l :: j <= l < |w| ==> next[l] == w[l]
    {
      next := next[j := next[j] - rate * g[j] / n as real];
    }
    forall j | 0 <= j < |w|
      ensures n as real * (w[j] - next[j]) == rate * g[j]
    {
      MovedBy(w[j], rate, g[j], n);
    }
  }

  method Accumulate(w: Row, X: seq<Row>, y: seq<int>, c: Config) returns (grads: Row, nll: real)
    requires |w| > 0 && Rectangular(X, |w| - 1) && |X| == |y|
    ensures grads == GradientTo(w, X, y, c.sigmoid, |X|) && nll == LossTo(w, X, y, c, |X|)
  {
    grads, nll := Zeros(|w|), 0.0;
    for i := 0 to |X|
      invariant grads == GradientTo(w, X, y, c.sigmoid, i)
      invariant nll == LossTo(w, X, y, c, i)
    {
      var p, t := c.sigmoid(Score(w, X[i])), y[i] as real;
      grads := AddRow(grads, p - t, X[i]);
      nll := nll + RowLoss(p, t, c.log);
    }
  }

  /**
   One batch pass: gradient and loss accumulate row by row, then every weight
   moves. The step never climbs: its inner product with the gradient is negative
   unless the gradient is zero.
   */
  method Epoch(w: Row, X: seq<Row>, y: seq<int>, c: Config) returns (next: Row, loss: real)
    requires |w| > 0 && Rectangular(X, |w| - 1) && 0 < |X| == |y|
    ensures next == Descended(w, X, y, c) && loss == LossOf(w, X, y, c)
    ensures Against(Gradient(w, X, y, c), Difference(w, next), c.rate, |X|)
    ensures c.rate > 0.0 ==>
      var slope := Inner(Gradient(w, X, y, c), Difference(w, next), |w|);
      && slope <= 0.0
      && (slope == 0.0 <==> forall j :: 0 <= j < |w| ==> Gradient(w, X, y, c)[j] == 0.0)
      && (slope == 0.0 <==> next == w)
  {
    var grads, nll := Accumulate(w, X, y, c);
    var ridge;
    grads, ridge := AddRidge(grads, w, c.l2);
    next := Move(w, grads, c.rate, |X|);
    loss := MeanLoss(nll, ridge, c.l2, |X|);
    DescendsGradient(w, X, y, c);
    if c.rate > 0.0 {
      StepFalls(Gradient(w, X, y, c), w, next, c.rate, |X|);
    }
  }

  method Train(X: seq<Row>, y: seq<int>, k: nat, c: Config) returns (w: Row, loss: Option<real>)
    requires Rectangular(X, k) && 0 < |X| == |y|
    ensures |w| == k + 1 && (w, loss) == Trained(Zeros(k + 1), None, X, y, c, c.iterations)
  {
    w, loss := Zeros(k + 1), None;
    var i := 0;
    while i < c.iterations
      invariant 0 <= i <= c.iterations && |w| == k + 1
      invariant Trained(w, loss, X, y, c, c.iterations - i) == Trained(Zeros(k + 1), None, X, y, c, c.iterations)
    {
      var next, now := Epoch(w, X, y, c);
      w := next;
      if Settled(now, loss, c.tolerance) {
        return;
      }
      loss := Some(now);
      i := i + 1;
    }
  }

  method FitLogistic(X: seq<Row>, y: seq<int>, c: Config) returns (coefficients: Row, loss: Option<real>)
    requires Table(X, y) && IsSqrt(c.sqrt)
    ensures Rectangular(X, |X[0]|) && (coefficients, loss) == Fitted(X, y, |X[0]|, c)
    ensures var mu, sd := Means(X, |X[0]|), Deviations(X, |X[0]|, c.sqrt);
            && |coefficients| == |X[0]| + 1 && AllPositive(sd)
            && var w := Trained(Zeros(|X[0]| + 1), None, ScaledAll(X, mu, sd), y, c, c.iterations).0;
               forall x: Row :: |x| == |X[0]| ==> Score(coefficients, x) == Score(w, Scaled(x, mu, sd))
  {
    var k := |X[0]|;
    var mu, sd := Means(X, k), Deviations(X, k, c.sqrt);
    PositiveDeviations(X, k, c.sqrt);
    var w;
    w, loss := Train(ScaledAll(X, mu, sd), y, k, c);
    coefficients := BackMapped(w, mu, sd);
    forall x: Row | |x| == k
      ensures Score(coefficients, x) == Score(w, Scaled(x, mu, sd))
    {
      BackMapPreserves(w, mu, sd, x);
    }
  }

  // ----- which loss is returned -----

  /** The weights after n passes. */
  function Iterate(w: Row, X: seq<Row>, y: seq<int>, c: Config, n: nat): (r: Row)
    requires |w| > 0 && Rectangular(X, |w| - 1) && 0 < |X| == |y|
    ensures |r| == |w|
    decreases n
  {
    if n == 0 then w else Iterate(Descended(w, X, y, c), X, y, c, n - 1)
  }

  lemma {:induction false} OnePassMore(w: Row, X: seq<Row>, y: seq<int>, c: Config, n: nat)
    requires |w| > 0 && Rectangular(X, |w| - 1) && 0 < |X| == |y|
    ensures Iterate(w, X, y, c, n + 1) == Descended(Iterate(w, X, y, c, n), X, y, c)
    decreases n
  {
    if n > 0 {
      OnePassMore(Descended(w, X, y, c), X, y, c, n - 1);
    }
  }

  /**
   Every pass of training moves each weight against the gradient at the weights it
   starts from, so at a positive rate it never climbs the gradient and stands
   still only where the gradient is zero.
   */
  lemma EveryPassDescends(w: Row, X: seq<Row>, y: seq<int>, c: Config, n: nat)
    requires |w| > 0 && Rectangular(X, |w| - 1) && 0 < |X| == |y|
    ensures var u, v := Iterate(w, X, y, c, n), Iterate(w, X, y, c, n + 1);
            var g := Gradient(u, X, y, c);
            && Against(g, Difference(u, v), c.rate, |X|)
            && (c.rate > 0.0 ==>
                  && Inner(g, Difference(u, v), |w|) <= 0.0
                  && (Inner(g, Difference(u, v), |w|) == 0.0 <==> forall j :: 0 <= j < |w| ==> g[j] == 0.0)
                  && (v == u <==> forall j :: 0 <= j < |w| ==> g[j] == 0.0))
  {
    var u := Iterate(w, X, y, c, n);
    OnePassMore(w, X, y, c, n);
    DescendsGradient(u, X, y, c);
    if c.rate > 0.0 {
      StepFalls(Gradient(u, X, y, c), u, Iterate(w, X, y, c, n + 1), c.rate, |X|);
    }
  }

  /** The loss remembered when pass n begins. */
  function Remembered(w: Row, loss: Option<real>, X: seq<Row>, y: seq<int>, c: Config, n: nat): Option<real>
    requires |w| > 0 && Rectangular(X, |w| - 1) && 0 < |X| == |y|
  {
    if n == 0 then loss else Some(LossOf(Iterate(w, X, y, c, n - 1), X, y, c))
  }

  /** Counting passes from the second one shifts weights and remembered losses by one. */
  lemma PassNext(w: Row, loss: Option<real>, X: seq<Row>, y: seq<int>, c: Config, n: nat)
    requires |w| > 0 && Rectangular(X, |w| - 1) && 0 < |X| == |y|
    ensures var next, now := Descended(w, X, y, c), Some(LossOf(w, X, y, c));
            && Iterate(w, X, y, c, n + 1) == Iterate(next, X, y, c, n)
            && Remembered(w, loss, X, y, c, n + 1) == Remembered(next, now, X, y, c, n)
            && Iterate(w, X, y, c, 0) == w && Remembered(w, loss, X, y, c, 0) == loss
  {}

  /** How many passes training makes, and whether the last one settled. */
  function Passes(w: Row, loss: Option<real>, X: seq<Row>, y: seq<int>, c: Config, budget: nat): (r: (nat, bool))
    requires |w| > 0 && Rectangular(X, |w| - 1) && 0 < |X| == |y|
    ensures r.0 <= budget && (r.0 == 0 <==> budget == 0) && (r.1 ==> r.0 > 0) && (r.0 < budget ==> r.1)
    decreases budget
  {
    if budget == 0 then (0, false)
    else
      var now, next := LossOf(w, X, y, c), Descended(w, X, y, c);
      if Settled(now, loss, c.tolerance) then (1, true)
      else
        var (n, settled) := Passes(next, Some(now), X, y, c, budget - 1);
        (n + 1, settled)
  }

  lemma {:induction false} WeightsAfter(w: Row, loss: Option<real>, X: seq<Row>, y: seq<int>, c: Config, budget: nat)
    requires |w| > 0 && Rectangular(X, |w| - 1) && 0 < |X| == |y|
    ensures Trained(w, loss, X, y, c, budget).0 == Iterate(w, X, y, c, Passes(w, loss, X, y, c, budget).0)
    decreases budget
  {
    if budget > 0 {
      var now, next := LossOf(w, X, y, c), Descended(w, X, y, c);
      if Settled(now, loss, c.tolerance) {
        PassNext(w, loss, X, y, c, 0);
        PassNext(next, loss, X, y, c, 0);
      } else {
        WeightsAfter(next, Some(now), X, y, c, budget - 1);
        PassNext(w, loss, X, y, c, Passes(next, Some(now), X, y, c, budget - 1).0);
      }
    }
  }

  /** When the last pass settled, the loss kept is the one remembered before it. */
  lemma {:induction false} SettledLoss(w: Row, loss: Option<real>, X: seq<Row>, y: seq<int>, c: Config, budget: nat)
    requires |w| > 0 && Rectangular(X, |w| - 1) && 0 < |X| == |y|
    requires Passes(w, loss, X, y, c, budget).1
    ensures Trained(w, loss, X, y, c, budget).1
      == Remembered(w, loss, X, y, c, Passes(w, loss, X, y, c, budget).0 - 1)
    decreases budget
  {
    var now, next := LossOf(w, X, y, c), Descended(w, X, y, c);
    if !Settled(now, loss, c.tolerance) {
      SettledLoss(next, Some(now), X, y, c, budget - 1);
      PassNext(w, loss, X, y, c, Passes(next, Some(now), X, y, c, budget - 1).0 - 1);
    }
  }

  /** Otherwise it is that of the last pass. */
  lemma {:induction false} LastLoss(w: Row, loss: Option<real>, X: seq<Row>, y: seq<int>, c: Config, budget: nat)
    requires |w| > 0 && Rectangular(X, |w| - 1) && 0 < |X| == |y|
    requires !Passes(w, loss, X, y, c, budget).1
    ensures Trained(w, loss, X, y, c, budget).1 == Remembered(w, loss, X, y, c, budget)
    decreases budget
  {
    if budget > 0 {
      var now, next := LossOf(w, X, y, c), Descended(w, X, y, c);
      LastLoss(next, Some(now), X, y, c, budget - 1);
      PassNext(w, loss, X, y, c, budget - 1);
    }
  }

  lemma {:induction false} LastSettled(w: Row, loss: Option<real>, X: seq<Row>, y: seq<int>, c: Config, budget: nat)
    requires |w| > 0 && Rectangular(X, |w| - 1) && 0 < |X| == |y|
    requires Passes(w, loss, X, y, c, budget).1
    ensures var n := Passes(w, loss, X, y, c, budget).0 - 1;
            Settled(LossOf(Iterate(w, X, y, c, n), X, y, c), Remembered(w, loss, X, y, c, n), c.tolerance)
    decreases budget
  {
    var now, next := LossOf(w, X, y, c), Descended(w, X, y, c);
    if Settled(now, loss, c.tolerance) {
      PassNext(w, loss, X, y, c, 0);
    } else {
      LastSettled(next, Some(now), X, y, c, budget - 1);
      PassNext(w, loss, X, y, c, Passes(next, Some(now), X, y, c, budget - 1).0 - 1);
    }
  }

  lemma {:induction false} NoneSettledBefore(
    w: Row, loss: Option<real>, X: seq<Row>, y: seq<int>, c: Config, budget: nat, i: nat)
    returns (now: real, before: Option<real>)
    requires |w| > 0 && Rectangular(X, |w| - 1) && 0 < |X| == |y|
    requires var (n, settled) := Passes(w, loss, X, y, c, budget); i < if settled then n - 1 else n
    ensures now == LossOf(Iterate(w, X, y, c, i), X, y, c) && before == Remembered(w, loss, X, y, c, i)
    ensures !Settled(now, before, c.tolerance)
    decreases budget
  {
    now, before := LossOf(w, X, y, c), loss;
    if i > 0 {
      var next := Descended(w, X, y, c);
      PassNext(w, loss, X, y, c, i - 1);
      now, before := NoneSettledBefore(next, Some(now), X, y, c, budget - 1, i - 1);
    } else {
      PassNext(w, loss, X, y, c, 0);
    }
  }

  /** The loss of the weights that n passes from zero have reached. */
  function LossAt(X: seq<Row>, y: seq<int>, k: nat, c: Config, n: nat): real
    requires Rectangular(X, k) && 0 < |X| == |y|
  {
    LossOf(Iterate(Zeros(k + 1), X, y, c, n), X, y, c)
  }

  lemma {:induction false} ZeroScore(x: Row, m: nat)
    requires m <= |x|
    ensures ScoreTo(Zeros(|x| + 1), x, m) == 0.0
  {
    if m > 0 {
      ZeroScore(x, m - 1);
    }
  }

  lemma {:induction false} ZeroRidge(k: nat, m: nat)
    requires m <= k
    ensures RidgeTo(Zeros(k + 1), m) == 0.0
  {
    if m > 0 {
      ZeroRidge(k, m - 1);
    }
  }

  lemma HalfLoss(t: real, log: real -> real)
    ensures RowLoss(0.5, t, log) == -log(0.5)
  {
    assert t * log(0.5) + (1.0 - t) * log(0.5) == log(0.5);
  }

  lemma {:induction false} StartTo(X: seq<Row>, y: seq<int>, k: nat, c: Config, m: nat)
    requires Rectangular(X, k) && m <= |X| == |y| && c.sigmoid(0.0) == 0.5
    ensures LossTo(Zeros(k + 1), X, y, c, m) == m as real * -c.log(0.5)
  {
    if m > 0 {
      StartTo(X, y, k, c, m - 1);
      ZeroScore(X[m - 1], k);
      HalfLoss(y[m - 1] as real, c.log);
    }
  }

  /** Training starts from the loss of a coin toss. */
  lemma StartLoss(X: seq<Row>, y: seq<int>, k: nat, c: Config)
    requires Rectangular(X, k) && 0 < |X| == |y| && c.sigmoid(0.0) == 0.5
    ensures LossAt(X, y, k, c, 0) == -c.log(0.5)
  {
    StartTo(X, y, k, c, |X|);
    ZeroRidge(k, k);
    TimesMean(-c.log(0.5), |X| as real);
    MulDiv(-c.log(0.5), |X| as real, |X| as real);
  }

  /** Passes i and i + 1 begin with losses that differ by at most the tolerance. */
  ghost predicate Stalls(X: seq<Row>, y: seq<int>, k: nat, c: Config, i: nat)
    requires Rectangular(X, k) && 0 < |X| == |y|
  {
    Within(LossAt(X, y, k, c, i + 1), LossAt(X, y, k, c, i), c.tolerance)
  }

  predicate Within(a: real, b: real, tolerance: real) {
    -tolerance <= a - b <= tolerance
  }

  lemma NoStallAt(X: seq<Row>, y: seq<int>, k: nat, c: Config, i: nat)
    requires Rectangular(X, k) && 0 < |X| == |y|
    requires var (n, settled) := Passes(Zeros(k + 1), None, X, y, c, c.iterations);
             i + 1 < if settled then n - 1 else n
    ensures !Stalls(X, y, k, c, i)
  {
    var w: Row, none: Option<real> := Zeros(k + 1), None;
    var now, before := NoneSettledBefore(w, none, X, y, c, c.iterations, i + 1);
    UnsettledApart(now, before, c.tolerance);
    RememberedLoss(w, none, X, y, c, i, before);
    NoStallFrom(X, y, k, c, i, now, before.value);
  }

  lemma NoStallFrom(X: seq<Row>, y: seq<int>, k: nat, c: Config, i: nat, now: real, before: real)
    requires Rectangular(X, k) && 0 < |X| == |y| && !Within(now, before, c.tolerance)
    requires now == LossOf(Iterate(Zeros(k + 1), X, y, c, i + 1), X, y, c)
    requires before == LossOf(Iterate(Zeros(k + 1), X, y, c, i), X, y, c)
    ensures !Stalls(X, y, k, c, i)
  {
    LossAtIs(X, y, k, c, i + 1, now);
    LossAtIs(X, y, k, c, i, before);
  }

  lemma UnsettledApart(now: real, before: Option<real>, tolerance: real)
    requires !Settled(now, before, tolerance)
    ensures before.Some? ==> !Within(now, before.value, tolerance)
  {}

  lemma RememberedLoss(w: Row, loss: Option<real>, X: seq<Row>, y: seq<int>, c: Config, i: nat, before: Option<real>)
    requires |w| > 0 && Rectangular(X, |w| - 1) && 0 < |X| == |y| && before == Remembered(w, loss, X, y, c, i + 1)
    ensures before.Some? && before.value == LossOf(Iterate(w, X, y, c, i), X, y, c)
  {}

  lemma LossAtIs(X: seq<Row>, y: seq<int>, k: nat, c: Config, i: nat, loss: real)
    requires Rectangular(X, k) && 0 < |X| == |y| && loss == LossOf(Iterate(Zeros(k + 1), X, y, c, i), X, y, c)
    ensures loss == LossAt(X, y, k, c, i)
  {}

  lemma NoStallBefore(X: seq<Row>, y: seq<int>, k: nat, c: Config, m: int)
    requires Rectangular(X, k) && 0 < |X| == |y|
    requires var (n, settled) := Passes(Zeros(k + 1), None, X, y, c, c.iterations);
             m == if settled then n - 2 else n - 1
    ensures forall i :: 0 <= i < m ==> !Stalls(X, y, k, c, i)
  {
    forall i | 0 <= i < m
      ensures !Stalls(X, y, k, c, i)
    {
      NoStallAt(X, y, k, c, i);
    }
  }

  /**
   Training stops with the first pass whose loss is within the tolerance of the
   one before, or when the passes run out. The loss that comes with the weights is
   not theirs: it belongs to the weights one pass earlier when the passes ran out,
   and two passes earlier when the loss settled.
   */
  lemma LossLags(X: seq<Row>, y: seq<int>, k: nat, c: Config) returns (n: nat)
    requires Rectangular(X, k) && 0 < |X| == |y| && c.iterations > 0
    ensures 0 < n <= c.iterations
    ensures Trained(Zeros(k + 1), None, X, y, c, c.iterations).0 == Iterate(Zeros(k + 1), X, y, c, n)
    ensures var loss := Trained(Zeros(k + 1), None, X, y, c, c.iterations).1;
            || (n == c.iterations && loss == Some(LossAt(X, y, k, c, n - 1))
                && forall i :: 0 <= i < n - 1 ==> !Stalls(X, y, k, c, i))
            || (2 <= n && loss == Some(LossAt(X, y, k, c, n - 2)) && Stalls(X, y, k, c, n - 2)
                && forall i :: 0 <= i < n - 2 ==> !Stalls(X, y, k, c, i))
  {
    var w: Row, none: Option<real> := Zeros(k + 1), None;
    n := Passes(w, none, X, y, c, c.iterations).0;
    WeightsAfter(w, none, X, y, c, c.iterations);
    NoStallBefore(X, y, k, c, if Passes(w, none, X, y, c, c.iterations).1 then n - 2 else n - 1);
    if Passes(w, none, X, y, c, c.iterations).1 {
      SettledLoss(w, none, X, y, c, c.iterations);
      LastSettled(w, none, X, y, c, c.iterations);
    } else {
      LastLoss(w, none, X, y, c, c.iterations);
    }
  }

  // ----- the fit is scale-free -----

  /** Column j measured in other units: scaled by a positive factor and shifted. */
  function Rescaled(x: Row, a: Row, b: Row): (r: Row)
    requires |x| == |a| == |b|
    ensures |r| == |x|
  {
    seq(|x|, j requires 0 <= j < |x| => a[j] * x[j] + b[j])
  }

  function RescaledAll(X: seq<Row>, a: Row, b: Row): (r: seq<Row>)
    requires Rectangular(X, |a|) && |a| == |b|
    ensures |r| == |X| && Rectangular(r, |a|)
  {
    seq(|X|, i requires 0 <= i < |X| => Rescaled(X[i], a, b))
  }

  lemma {:induction false} RescaledColumn(X: seq<Row>, a: Row, b: Row, j: nat)
    requires Rectangular(X, |a|) && |a| == |b| && j < |a|
    ensures ColumnSum(RescaledAll(X, a, b), |a|, j) == a[j] * ColumnSum(X, |a|, j) + |X| as real * b[j]
  {
    if X != [] {
      var n := |X| - 1;
      RescaledColumn(X[..n], a, b, j);
      assert RescaledAll(X, a, b)[..n] == RescaledAll(X[..n], a, b);
      RescaledTerm(a[j], b[j], X[n][j], ColumnSum(X[..n], |a|, j), n);
    }
  }

  lemma RescaledTerm(a: real, b: real, x: real, sum: real, n: nat)
    ensures a * sum + n as real * b + (a * x + b) == a * (sum + x) + (n + 1) as real * b
  {
    assert (n + 1) as real * b == n as real * b + b;
  }

  lemma RescaledSquare(a: real, b: real, x: real, x': real, mu: real, mu': real, factor: real)
    requires x' == a * x + b && mu' == a * mu + b && factor == a * a
    ensures (x' - mu') * (x' - mu') == factor * ((x - mu) * (x - mu))
  {
    var d := x - mu;
    assert x' - mu' == a * d;
    assert (a * d) * (a * d) == (a * a) * (d * d) == factor * (d * d);
  }

  ghost predicate Proportional(s: Row, t: Row, factor: real) {
    |s| == |t| && forall i :: 0 <= i < |s| ==> t[i] == factor * s[i]
  }

  lemma SquaresProportional(X: seq<Row>, a: Row, b: Row, j: nat, mu: real, mu': real, factor: real)
    requires Rectangular(X, |a|) && |a| == |b| && j < |a|
    requires mu' == a[j] * mu + b[j] && factor == a[j] * a[j]
    ensures Proportional(Squares(X, |a|, j, mu), Squares(RescaledAll(X, a, b), |a|, j, mu'), factor)
  {
    forall i | 0 <= i < |X|
      ensures Squares(RescaledAll(X, a, b), |a|, j, mu')[i] == factor * Squares(X, |a|, j, mu)[i]
    {
      RescaledSquare(a[j], b[j], X[i][j], RescaledAll(X, a, b)[i][j], mu, mu', factor);
    }
  }

  lemma {:induction false} SumScales(s: Row, t: Row, factor: real)
    requires Proportional(s, t, factor)
    ensures Sum(t) == factor * Sum(s)
  {
    if s != [] {
      SumScales(s[..|s| - 1], t[..|t| - 1], factor);
    }
  }

  lemma MulDiv(a: real, s: real, n: real)
    requires n > 0.0
    ensures a * s / n == a * (s / n)
  {
    var q := s / n;
    assert q * n == s;
    assert a * q * n == a * s;
  }

  lemma MeanScales(a: real, s: real, b: real, n: real)
    requires n > 0.0
    ensures (a * s + n * b) / n == a * (s / n) + b
  {
    DivideSum(a * s, n * b, n);
    MulDiv(a, s, n);
    MulDiv(b, n, n);
  }

  lemma RescaledMean(X: seq<Row>, a: Row, b: Row, j: nat)
    requires Rectangular(X, |a|) && |a| == |b| && j < |a| && X != []
    ensures Mean(RescaledAll(X, a, b), |a|, j) == a[j] * Mean(X, |a|, j) + b[j]
  {
    RescaledColumn(X, a, b, j);
    MeanScales(a[j], ColumnSum(X, |a|, j), b[j], |X| as real);
  }

  lemma QuotientScales(q: real, q': real, n: real, factor: real)
    requires n > 0.0 && q' == factor * q
    ensures q' / n == factor * (q / n)
  {
    MulDiv(factor, q, n);
  }

  lemma QuotientOfSums(s: Row, t: Row, n: real, factor: real) returns (q: real, q': real)
    requires n > 0.0 && Proportional(s, t, factor)
    ensures q == Sum(s) / n && q' == Sum(t) / n && q' == factor * q
  {
    var u, u' := SumsScale(s, t, factor);
    QuotientScales(u, u', n, factor);
    q, q' := u / n, u' / n;
  }

  lemma SumsScale(s: Row, t: Row, factor: real) returns (u: real, u': real)
    requires Proportional(s, t, factor)
    ensures u == Sum(s) && u' == Sum(t) && u' == factor * u
  {
    SumScales(s, t, factor);
    u, u' := Sum(s), Sum(t);
  }

  lemma RescaledSquares(X: seq<Row>, a: Row, b: Row, j: nat, mu: real, mu': real, factor: real)
    returns (v: real, v': real)
    requires Rectangular(X, |a|) && |a| == |b| && j < |a| && X != []
    requires mu' == a[j] * mu + b[j] && factor == a[j] * a[j]
    ensures v == Sum(Squares(X, |a|, j, mu)) / |X| as real
    ensures v' == Sum(Squares(RescaledAll(X, a, b), |a|, j, mu')) / |X| as real
    ensures v' == factor * v
  {
    var s, t := Squares(X, |a|, j, mu), Squares(RescaledAll(X, a, b), |a|, j, mu');
    SquaresProportional(X, a, b, j, mu, mu', factor);
    v, v' := QuotientOfSums(s, t, |X| as real, factor);
  }

  /** The variance of a column goes with the square of its scale. */
  lemma RescaledVariance(X: seq<Row>, a: Row, b: Row, j: nat, factor: real) returns (v: real, v': real)
    requires Rectangular(X, |a|) && |a| == |b| && j < |a| && X != [] && factor == a[j] * a[j]
    ensures v == Variance(X, |a|, j) && v' == Variance(RescaledAll(X, a, b), |a|, j)
    ensures v' == factor * v
  {
    var mu, mu' := Mean(X, |a|, j), Mean(RescaledAll(X, a, b), |a|, j);
    RescaledMean(X, a, b, j);
    v, v' := RescaledSquares(X, a, b, j, mu, mu', factor);
  }

  lemma RootUnique(s: real, t: real)
    requires s >= 0.0 && t >= 0.0 && s * s == t * t
    ensures s == t
  {
    assert (s - t) * (s + t) == s * s - t * t == 0.0;
    NoZeroProduct(s - t, s + t);
  }

  lemma NoZeroProduct(x: real, y: real)
    requires x * y == 0.0
    ensures x == 0.0 || y == 0.0
  {
    if x != 0.0 {
      assert y == (x * y) / x;
    }
  }

  lemma SqrtScales(sqrt: real -> real, a: real, factor: real, v: real, v': real)
    requires IsSqrt(sqrt) && a > 0.0 && v >= 0.0 && v' >= 0.0 && factor == a * a && v' == factor * v
    ensures sqrt(v') == a * sqrt(v)
  {
    var r := sqrt(v);
    assert (a * r) * (a * r) == factor * (r * r) == v' == sqrt(v') * sqrt(v');
    assert a * r >= 0.0;
    RootUnique(sqrt(v'), a * r);
  }

  /**
   A change of units the standardisation sees through: shifts always, scalings
   where the column is not flat in either unit.
   */
  ghost predicate UnitChange(X: seq<Row>, a: Row, b: Row) {
    && |a| == |b| && Rectangular(X, |a|) && X != []
    && forall j :: 0 <= j < |a| ==>
         && a[j] > 0.0
         && (a[j] == 1.0 || (Variance(X, |a|, j) > FLAT && Variance(RescaledAll(X, a, b), |a|, j) > FLAT))
  }

  /** The two variances of a column, and their ratio. */
  lemma VarianceFactor(X: seq<Row>, a: Row, b: Row, j: nat, scale: real) returns (factor: real, v: real, v': real)
    requires Rectangular(X, |a|) && |a| == |b| && j < |a| && X != [] && scale == a[j]
    ensures factor == scale * scale && v' == factor * v
    ensures v == Variance(X, |a|, j) && v' == Variance(RescaledAll(X, a, b), |a|, j)
  {
    factor := Square(scale);
    v, v' := RescaledVariance(X, a, b, j, factor);
  }

  /** The two deviations of a column. */
  lemma DeviationScales(X: seq<Row>, a: Row, b: Row, j: nat, sqrt: real -> real, scale: real)
    returns (sd: real, sd': real)
    requires UnitChange(X, a, b) && j < |a| && IsSqrt(sqrt) && scale == a[j]
    ensures sd == Deviation(X, |a|, j, sqrt) && sd' == Deviation(RescaledAll(X, a, b), |a|, j, sqrt)
    ensures sd > 0.0 && sd' == scale * sd
  {
    var factor, v, v' := VarianceFactor(X, a, b, j, scale);
    DeviationPositive(X, |a|, j, sqrt);
    RootScales(sqrt, scale, factor, v, v');
    sd := DeviationFrom(X, |a|, j, sqrt, v);
    sd' := DeviationFrom(RescaledAll(X, a, b), |a|, j, sqrt, v');
  }

  lemma DeviationFrom(X: seq<Row>, k: nat, j: nat, sqrt: real -> real, v: real) returns (sd: real)
    requires Rectangular(X, k) && j < k && X != [] && v == Variance(X, k, j)
    ensures sd == Deviation(X, k, j, sqrt) && sd == RootOrOne(v, sqrt)
  {
    sd := RootOrOne(v, sqrt);
  }

  function Square(a: real): (r: real)
    ensures r == a * a
  {
    a * a
  }

  lemma RootScales(sqrt: real -> real, a: real, factor: real, v: real, v': real)
    requires IsSqrt(sqrt) && a > 0.0 && factor == a * a && v' == factor * v
    requires a == 1.0 || (v > FLAT && v' > FLAT)
    ensures RootOrOne(v', sqrt) == a * RootOrOne(v, sqrt)
  {
    if a == 1.0 {
      assert factor == 1.0 && v' == v && a * RootOrOne(v, sqrt) == RootOrOne(v, sqrt);
    } else {
      SqrtScales(sqrt, a, factor, v, v');
    }
  }

  lemma RatioInvariant(x: real, x': real, mu: real, mu': real, sd: real, sd': real, a: real, b: real)
    requires sd > 0.0 && a > 0.0 && x' == a * x + b && mu' == a * mu + b && sd' == a * sd
    ensures sd' > 0.0 && (x' - mu') / sd' == (x - mu) / sd
  {
    var q := (x - mu) / sd;
    assert q * sd == x - mu;
    assert x' - mu' == a * (x - mu);
    assert q * sd' == x' - mu';
  }

  /** A value and its column's mean, in both units. */
  lemma EntryMoves(X: seq<Row>, a: Row, b: Row, x: Row, j: nat, scale: real, shift: real)
    returns (u: real, u': real, mu: real, mu': real)
    requires Rectangular(X, |a|) && |a| == |b| == |x| && j < |a| && X != [] && scale == a[j] && shift == b[j]
    ensures u == x[j] && u' == Rescaled(x, a, b)[j] && u' == scale * u + shift
    ensures mu == Mean(X, |a|, j) && mu' == Mean(RescaledAll(X, a, b), |a|, j) && mu' == scale * mu + shift
  {
    RescaledMean(X, a, b, j);
    u, u', mu, mu' := x[j], Rescaled(x, a, b)[j], Mean(X, |a|, j), Mean(RescaledAll(X, a, b), |a|, j);
  }

  lemma ScaledEntry(X: seq<Row>, a: Row, b: Row, x: Row, j: nat, sqrt: real -> real)
    requires UnitChange(X, a, b) && |x| == |a| && j < |a| && IsSqrt(sqrt)
    ensures var X', k := RescaledAll(X, a, b), |a|;
            && Deviation(X', k, j, sqrt) > 0.0 && Deviation(X, k, j, sqrt) > 0.0
            && (Rescaled(x, a, b)[j] - Mean(X', k, j)) / Deviation(X', k, j, sqrt)
               == (x[j] - Mean(X, k, j)) / Deviation(X, k, j, sqrt)
  {
    var scale, shift := a[j], b[j];
    var u, u', mu, mu' := EntryMoves(X, a, b, x, j, scale, shift);
    var sd, sd' := DeviationScales(X, a, b, j, sqrt, scale);
    RatioInvariant(u, u', mu, mu', sd, sd', scale, shift);
  }

  /** A row in other units standardises to the same row. */
  lemma ScaledInvariant(X: seq<Row>, a: Row, b: Row, x: Row, sqrt: real -> real)
    requires UnitChange(X, a, b) && |x| == |a| && IsSqrt(sqrt)
    ensures var X', k := RescaledAll(X, a, b), |a|;
            && AllPositive(Deviations(X, k, sqrt)) && AllPositive(Deviations(X', k, sqrt))
            && Scaled(Rescaled(x, a, b), Means(X', k), Deviations(X', k, sqrt))
               == Scaled(x, Means(X, k), Deviations(X, k, sqrt))
  {
    var X', k := RescaledAll(X, a, b), |a|;
    PositiveDeviations(X, k, sqrt);
    PositiveDeviations(X', k, sqrt);
    var l := Scaled(Rescaled(x, a, b), Means(X', k), Deviations(X', k, sqrt));
    var r := Scaled(x, Means(X, k), Deviations(X, k, sqrt));
    forall j | 0 <= j < k
      ensures l[j] == r[j]
    {
      ScaledEntry(X, a, b, x, j, sqrt);
    }
  }

  /**
   The fit is scale-free: measuring the columns in other units gives the same
   loss and the same score on every row, seen in training or not.
   */
  lemma FitScaleFree(X: seq<Row>, y: seq<int>, a: Row, b: Row, x: Row, c: Config)
    requires UnitChange(X, a, b) && |y| == |X| && |x| == |a| && IsSqrt(c.sqrt)
    ensures var X' := RescaledAll(X, a, b);
            && Fitted(X', y, |a|, c).1 == Fitted(X, y, |a|, c).1
            && Score(Fitted(X', y, |a|, c).0, Rescaled(x, a, b)) == Score(Fitted(X, y, |a|, c).0, x)
  {
    var X', k := RescaledAll(X, a, b), |a|;
    var mu, sd, mu', sd' := Means(X, k), Deviations(X, k, c.sqrt), Means(X', k), Deviations(X', k, c.sqrt);
    ScaledInvariant(X, a, b, x, c.sqrt);
    forall i | 0 <= i < |X|
      ensures ScaledAll(X', mu', sd')[i] == ScaledAll(X, mu, sd)[i]
    {
      ScaledInvariant(X, a, b, X[i], c.sqrt);
    }
    assert ScaledAll(X', mu', sd') == ScaledAll(X, mu, sd);
    var w := Trained(Zeros(k + 1), None, ScaledAll(X, mu, sd), y, c, c.iterations).0;
    BackMapPreserves(w, mu, sd, x);
    BackMapPreserves(w, mu', sd', Rescaled(x, a, b));
  }
}
