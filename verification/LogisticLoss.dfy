/**
 The loss of the logistic fit is the one its gradient belongs to: along any
 direction the loss lies above the line that the gradient draws, so every pass
 steps downhill and a point at which training stands still is the best one.
 */
module LogisticLoss {
  import opened LogisticFit

  predicate LogAdds(log: real -> real, a: real, b: real) {
    a > 0.0 && b > 0.0 ==> log(a * b) == log(a) + log(b)
  }

  predicate LogBelow(log: real -> real, a: real) {
    a > 0.0 ==> log(a) <= a - 1.0
  }

  /** The laws of the logarithm. */
  ghost predicate Logarithm(log: real -> real) {
    (forall a, b :: LogAdds(log, a, b)) && (forall a :: LogBelow(log, a))
  }

  predicate ExpAdds(exp: real -> real, x: real, y: real) {
    exp(x + y) == exp(x) * exp(y)
  }

  predicate ExpInverts(exp: real -> real, log: real -> real, x: real) {
    exp(x) > 0.0 && log(exp(x)) == x
  }

  /** The logistic curve at one score. */
  predicate Curve(sigmoid: real -> real, exp: real -> real, z: real) {
    sigmoid(z) * (1.0 + exp(-z)) == 1.0
  }

  /** Logarithm and exponential by their laws, and the sigmoid is the logistic curve. */
  ghost predicate Logistic(c: Config, exp: real -> real) {
    && Logarithm(c.log)
    && (forall x, y :: ExpAdds(exp, x, y))
    && (forall x :: ExpInverts(exp, c.log, x))
    && (forall z :: Curve(c.sigmoid, exp, z))
  }

  // ----- one row -----

  lemma Product(log: real -> real, a: real, b: real, ab: real)
    requires Logarithm(log) && a > 0.0 && b > 0.0 && ab == a * b
    ensures log(ab) == log(a) + log(b)
  {
    assert LogAdds(log, a, b);
  }

  /** The logarithm lies under its tangent at a. */
  lemma Tangent(log: real -> real, a: real, x: real, q: real)
    requires Logarithm(log) && a > 0.0 && q > 0.0 && q * a == x
    ensures log(x) <= log(a) + q - 1.0
  {
    Product(log, q, a, x);
    assert LogBelow(log, q);
  }

  lemma LogOne(log: real -> real)
    requires Logarithm(log)
    ensures log(1.0) == 0.0
  {
    Product(log, 1.0, 1.0, 1.0);
  }

  lemma LogRises(log: real -> real, a: real, b: real)
    requires Logarithm(log) && 0.0 < a <= b
    ensures log(a) <= log(b)
  {
    var q := Ratio(a, b);
    Tangent(log, b, a, q);
  }

  lemma Ratio(a: real, b: real) returns (q: real)
    requires 0.0 < a <= b
    ensures q * b == a && 0.0 < q <= 1.0
  {
    q := a / b;
  }

  /** The logarithm of a mean of 1 and e is at least the mean of their logarithms. */
  lemma MeanOfTwo(log: real -> real, p: real, r: real, e: real, a: real)
    requires Logarithm(log) && p >= 0.0 && r >= 0.0 && p + r == 1.0 && e > 0.0 && a == p + r * e && a > 0.0
    ensures r * log(e) <= log(a)
  {
    var u, v := Shares(p, r, e, a);
    Tangent(log, a, 1.0, u);
    Tangent(log, a, e, v);
    LogOne(log);
    MeanBelow(p, r, log(e), log(a), u, v);
  }

  lemma Shares(p: real, r: real, e: real, a: real) returns (u: real, v: real)
    requires e > 0.0 && a == p + r * e && a > 0.0
    ensures u > 0.0 && v > 0.0 && u * a == 1.0 && v * a == e && p * u + r * v == 1.0
  {
    u, v := 1.0 / a, e / a;
    assert u * a == 1.0 && v * a == e;
    assert (p * u + r * v) * a == p * (u * a) + r * (v * a);
    OneFactor(p * u + r * v, a);
  }

  lemma MeanBelow(p: real, r: real, le: real, la: real, u: real, v: real)
    requires p >= 0.0 && r >= 0.0 && p + r == 1.0 && p * u + r * v == 1.0
    requires 0.0 <= la + u - 1.0 && le <= la + v - 1.0
    ensures r * le <= la
  {
    NonNegative(p, la + u - 1.0);
    NonNegative(r, la + v - 1.0 - le);
    assert p * (la + u - 1.0) + r * (la + v - 1.0 - le) == (p + r) * (la - 1.0) + (p * u + r * v) - r * le;
  }

  lemma NonNegative(x: real, y: real)
    requires x >= 0.0 && y >= 0.0
    ensures x * y >= 0.0
  {}

  lemma OneFactor(x: real, a: real)
    requires a > 0.0 && x * a == a
    ensures x == 1.0
  {
    assert (x - 1.0) * a == 0.0;
    NoZeroProduct(x - 1.0, a);
  }

  /** How the logarithm of a probability p moves when the odds against it are multiplied by e. */
  lemma Tilted(log: real -> real, p: real, r: real, q: real, e: real)
    requires Logarithm(log) && 0.0 < p && 0.0 <= r && p + r == 1.0 && e > 0.0 && q > 0.0 && q * (p + r * e) == p
    ensures log(q) <= log(p) - r * log(e)
  {
    var a := p + r * e;
    assert r * e >= 0.0;
    Product(log, q, a, p);
    MeanOfTwo(log, p, r, e, a);
  }

  /** The probability at a score, and the odds against it. */
  lemma OddsAt(c: Config, exp: real -> real, z: real) returns (s: real, e: real)
    requires Logistic(c, exp)
    ensures s == c.sigmoid(z) && e == exp(-z) && e > 0.0 && s * (1.0 + e) == 1.0
    ensures 0.0 < s < 1.0
  {
    s, e := c.sigmoid(z), exp(-z);
    assert Curve(c.sigmoid, exp, z) && ExpInverts(exp, c.log, -z);
    Share(s, e);
  }

  lemma Share(s: real, e: real)
    requires e > 0.0 && s * (1.0 + e) == 1.0
    ensures 0.0 < s < 1.0
  {
    assert s == 1.0 / (1.0 + e);
  }

  /** Two scores: the odds at the second are those at the first times a factor. */
  lemma TiltFor(s: real, e: real, s': real, e': real, down: real, up: real)
    requires e > 0.0 && e' > 0.0 && s * (1.0 + e) == 1.0 && s' * (1.0 + e') == 1.0
    requires e' == e * down && down * up == 1.0
    ensures s' * (s + (1.0 - s) * down) == s
    ensures (1.0 - s') * ((1.0 - s) + s * up) == 1.0 - s
  {
    assert 1.0 - s == s * e && 1.0 - s' == s' * e';
    assert (1.0 - s) * down == s * (e * down) == s * e';
    assert s' * (s + s * e') == s * (s' * (1.0 + e'));
    assert s' * e' * (s * e + s * up) == s * s' * (e' * e + e' * up);
    assert e' * up == e * (down * up) == e;
    assert s * s' * (e' * e + e) == s * e * (s' * (1.0 + e'));
  }

  lemma ExpProduct(exp: real -> real, x: real, y: real, z: real) returns (a: real, b: real, ab: real)
    requires ExpAdds(exp, x, y) && z == x + y
    ensures a == exp(x) && b == exp(y) && ab == exp(z) && ab == a * b
  {
    a, b, ab := exp(x), exp(y), exp(z);
  }

  lemma ExpZero(c: Config, exp: real -> real)
    requires Logistic(c, exp)
    ensures exp(0.0) == 1.0
  {
    assert ExpAdds(exp, 0.0, 0.0) && ExpInverts(exp, c.log, 0.0);
    var a, b, ab := ExpProduct(exp, 0.0, 0.0, 0.0);
    OneFactor(a, a);
  }

  /** The factor by which the odds fall when the score moves from z to z', and the one by which they rise again. */
  lemma Factors(c: Config, exp: real -> real, z: real, z': real, e: real, e': real) returns (down: real, up: real)
    requires Logistic(c, exp) && e == exp(-z) && e' == exp(-z')
    ensures down > 0.0 && up > 0.0 && c.log(down) == z - z' && c.log(up) == z' - z
    ensures e' == e * down && down * up == 1.0
  {
    assert ExpAdds(exp, -z, z - z') && ExpAdds(exp, z - z', z' - z);
    assert ExpInverts(exp, c.log, z - z') && ExpInverts(exp, c.log, z' - z);
    var a, b, ab := ExpProduct(exp, -z, z - z', -z');
    var a', b', ab' := ExpProduct(exp, z - z', z' - z, 0.0);
    ExpZero(c, exp);
    down, up := b, b';
  }

  /** Moving the score by d moves either log-probability at most along its slope. */
  lemma LabelsBend(c: Config, exp: real -> real, z: real, z': real, d: real) returns (s: real, s': real)
    requires Logistic(c, exp) && d == z' - z
    ensures s == c.sigmoid(z) && s' == c.sigmoid(z') && 0.0 < s < 1.0 && 0.0 < s' < 1.0
    ensures c.log(s') <= c.log(s) + (1.0 - s) * d
    ensures c.log(1.0 - s') <= c.log(1.0 - s) - s * d
  {
    var e, e';
    s, e := OddsAt(c, exp, z);
    s', e' := OddsAt(c, exp, z');
    var down, up := Factors(c, exp, z, z', e, e');
    TiltFor(s, e, s', e', down, up);
    Tilted(c.log, s, 1.0 - s, s', down);
    Tilted(c.log, 1.0 - s, s, 1.0 - s', up);
    Negated(1.0 - s, d, c.log(down));
  }

  lemma Negated(r: real, d: real, m: real)
    requires m == -d
    ensures r * m == -(r * d)
  {}

  /** The probability of the label is at least 1e-12, so the loss at it is not clipped. */
  predicate Clear(p: real, t: int) {
    (if t == 1 then p else 1.0 - p) >= 0.000000000001
  }

  lemma ClippedBelow(log: real -> real, p: real)
    requires Logarithm(log) && p > 0.0
    ensures log(p) <= log(Clip(p)) && (p >= 0.000000000001 ==> Clip(p) == p)
  {
    LogRises(log, p, Clip(p));
  }

  /** The loss of a row for either label. */
  lemma LossForLabel(p: real, t: int, log: real -> real)
    requires t in {0, 1}
    ensures RowLoss(p, t as real, log) == -log(Clip(if t == 1 then p else 1.0 - p))
  {}

  /** The loss of a row lies above its tangent, whose slope is the error. */
  lemma RowAbove(c: Config, exp: real -> real, z: real, z': real, error: real, d: real, t: int)
    returns (before: real, after: real, slope: real)
    requires Logistic(c, exp) && t in {0, 1} && Clear(c.sigmoid(z'), t)
    requires d == z' - z && error == c.sigmoid(z) - t as real
    ensures before == RowLoss(c.sigmoid(z), t as real, c.log) && after == RowLoss(c.sigmoid(z'), t as real, c.log)
    ensures slope == error * d && after >= before + slope
  {
    var s, s' := LabelsBend(c, exp, z, z', d);
    before, after := RowLoss(s, t as real, c.log), RowLoss(s', t as real, c.log);
    LossForLabel(s, t, c.log);
    LossForLabel(s', t, c.log);
    if t == 1 {
      ClippedBelow(c.log, s);
      ClippedBelow(c.log, s');
      slope := error * d;
      Negated(d, s - 1.0, 1.0 - s);
    } else {
      ClippedBelow(c.log, 1.0 - s);
      ClippedBelow(c.log, 1.0 - s');
      slope := error * d;
    }
  }

  // ----- where the clip breaks the tangent -----

  /** The loss of a row at score z' lies above its tangent at score z. */
  ghost predicate Above(c: Config, z: real, z': real, t: int) {
    RowLoss(c.sigmoid(z'), t as real, c.log)
    >= RowLoss(c.sigmoid(z), t as real, c.log) + (c.sigmoid(z) - t as real) * (z' - z)
  }

  lemma AboveWhenClear(c: Config, exp: real -> real, z: real, z': real, t: int)
    requires Logistic(c, exp) && t in {0, 1} && Clear(c.sigmoid(z'), t)
    ensures Above(c, z, z', t)
  {
    var before, after, slope := RowAbove(c, exp, z, z', c.sigmoid(z) - t as real, z' - z, t);
  }

  /** Moving a score by d multiplies the odds against it by at least 1 - d, or at most 1 / (1 - d) the other way. */
  lemma OddsMove(c: Config, exp: real -> real, z: real, z': real, d: real, e: real, e': real)
    requires Logistic(c, exp) && e == exp(-z) && e' == exp(-z') && z' == z + d
    ensures e > 0.0 && e' > 0.0 && e' >= e * (1.0 - d)
  {
    var down, up := Factors(c, exp, z, z', e, e');
    assert ExpInverts(exp, c.log, -z) && ExpInverts(exp, c.log, -z') && LogBelow(c.log, down);
    assert down >= 1.0 - d;
    NonNegative(e, down - (1.0 - d));
    assert e * (down - (1.0 - d)) == e * down - e * (1.0 - d);
  }

  const LEAST := 0.000000000001

  /** A score a little above one at which a won label is clipped, and still clipped. */
  lemma ClippedAbove(c: Config, exp: real -> real, z': real) returns (z: real)
    requires Logistic(c, exp) && c.sigmoid(z') < LEAST
    ensures z > z' && 0.0 < c.sigmoid(z) <= LEAST
  {
    var s', e' := OddsAt(c, exp, z');
    var d := StepUp(s', e');
    z := z' + d;
    var s, e := OddsAt(c, exp, z);
    OddsMove(c, exp, z', z, d, e', e);
    StillClipped(s, e, e', d);
  }

  lemma StepUp(s: real, e: real) returns (d: real)
    requires 0.0 < s < LEAST && e > 0.0 && s * (1.0 + e) == 1.0
    ensures 0.0 < d && e * (1.0 - d) == 999999999999.0
  {
    assert LEAST * (1.0 + e) > s * (1.0 + e);
    assert e > 999999999999.0;
    d := 1.0 - 999999999999.0 / e;
    assert 999999999999.0 / e * e == 999999999999.0;
  }

  lemma StillClipped(s: real, e: real, e': real, d: real)
    requires s > 0.0 && s * (1.0 + e) == 1.0 && e >= e' * (1.0 - d) && e' * (1.0 - d) == 999999999999.0
    ensures s <= LEAST
  {
    NonNegative(s, e - 999999999999.0);
    assert s * (e - 999999999999.0) == s * e - s * 999999999999.0;
  }

  /** A score a little below one at which a lost label is clipped, and still clipped. */
  lemma ClippedUnder(c: Config, exp: real -> real, z': real) returns (z: real)
    requires Logistic(c, exp) && 1.0 - c.sigmoid(z') < LEAST
    ensures z < z' && 0.0 < 1.0 - c.sigmoid(z) <= LEAST
  {
    var s', e' := OddsAt(c, exp, z');
    var d := StepDown(s', e');
    z := z' - d;
    var s, e := OddsAt(c, exp, z);
    OddsMove(c, exp, z, z', d, e, e');
    StillLost(s, e, e', d);
  }

  lemma StepDown(s: real, e: real) returns (d: real)
    requires 1.0 - s < LEAST && e > 0.0 && 0.0 < s < 1.0 && s * (1.0 + e) == 1.0
    ensures 0.0 < d < 1.0 && 999999999999.0 * e == 1.0 - d
  {
    assert s * e == 1.0 - s;
    d := 1.0 - 999999999999.0 * e;
    SmallOdds(s, e);
  }

  lemma SmallOdds(s: real, e: real)
    requires e > 0.0 && 0.0 < s < 1.0 && s * (1.0 + e) == 1.0 && s * e < LEAST
    ensures 999999999999.0 * e < 1.0
  {
    var x := 1.0 - 999999999999.0 * e;
    assert s + s * e == 1.0;
    assert s * x == s - 999999999999.0 * (s * e);
    PositiveFactor(s, x);
  }

  lemma PositiveFactor(s: real, x: real)
    requires s > 0.0
    ensures s * x > 0.0 ==> x > 0.0
    ensures s * x >= 0.0 ==> x >= 0.0
  {}

  lemma StillLost(s: real, e: real, e': real, d: real)
    requires s > 0.0 && s * (1.0 + e) == 1.0 && e > 0.0 && 0.0 < d < 1.0
    requires e' >= e * (1.0 - d) && 999999999999.0 * e' == 1.0 - d
    ensures 0.0 < 1.0 - s <= LEAST
  {
    var k := 1.0 - d;
    SmallAgain(e, e * k, k, e');
    assert s * e == 1.0 - s;
    NonNegative(s, 1.0 - 999999999999.0 * e);
    assert s * (1.0 - 999999999999.0 * e) == s - 999999999999.0 * (s * e);
  }

  lemma SmallAgain(e: real, m: real, k: real, e': real)
    requires k > 0.0 && m == e * k && e' >= m && 999999999999.0 * e' == k
    ensures 999999999999.0 * e <= 1.0
  {
    var x := 1.0 - 999999999999.0 * e;
    assert k * x == k - 999999999999.0 * m;
    PositiveFactor(k, x);
  }

  /** Two clipped scores have the same loss, so a tangent that points down from one to the other passes above it. */
  lemma FlatWhereClipped(c: Config, z: real, z': real, t: int)
    requires t in {0, 1}
    requires var p, p' := c.sigmoid(z), c.sigmoid(z');
             if t == 1 then p <= LEAST && p' < LEAST && z' < z else 1.0 - p <= LEAST && 1.0 - p' < LEAST && z < z'
    ensures !Above(c, z, z', t)
  {
    LossForLabel(c.sigmoid(z), t, c.log);
    LossForLabel(c.sigmoid(z'), t, c.log);
    var before, after := RowLoss(c.sigmoid(z), t as real, c.log), RowLoss(c.sigmoid(z'), t as real, c.log);
    var slope := SameSign(c.sigmoid(z) - t as real, z' - z);
    assert before == after == -c.log(LEAST);
  }

  lemma SameSign(x: real, y: real) returns (product: real)
    requires (x < 0.0 && y < 0.0) || (x > 0.0 && y > 0.0)
    ensures product == x * y && product > 0.0
  {
    product := x * y;
  }

  /** The loss at a score lies above its tangents at all scores exactly when the label is not clipped there. */
  lemma TangentExactly(c: Config, exp: real -> real, z': real, t: int)
    requires Logistic(c, exp) && t in {0, 1}
    ensures (forall z :: Above(c, z, z', t)) <==> Clear(c.sigmoid(z'), t)
  {
    if Clear(c.sigmoid(z'), t) {
      forall z
        ensures Above(c, z, z', t)
      {
        AboveWhenClear(c, exp, z, z', t);
      }
    } else if t == 1 {
      var z := ClippedAbove(c, exp, z');
      FlatWhereClipped(c, z, z', t);
    } else {
      var z := ClippedUnder(c, exp, z');
      FlatWhereClipped(c, z, z', t);
    }
  }

  // ----- sums -----

  /** T holds the partial sums of t. */
  ghost predicate Accumulates(T: Row, t: Row) {
    |T| == |t| + 1 && T[0] == 0.0 && forall i :: 0 <= i < |t| ==> T[i + 1] == T[i] + t[i]
  }

  /** A sum that is termwise at least two others together. */
  lemma {:induction false} SumsAbove(T: Row, t: Row, U: Row, u: Row, S: Row, s: Row, m: nat)
    requires Accumulates(T, t) && Accumulates(U, u) && Accumulates(S, s) && m <= |t| == |u| == |s|
    requires forall i :: 0 <= i < |t| ==> u[i] >= t[i] + s[i]
    ensures U[m] >= T[m] + S[m]
  {
    if m > 0 {
      SumsAbove(T, t, U, u, S, s, m - 1);
      assert U[m - 1 + 1] == U[m - 1] + u[m - 1] && T[m - 1 + 1] == T[m - 1] + t[m - 1];
      assert S[m - 1 + 1] == S[m - 1] + s[m - 1];
    }
  }

  lemma {:induction false} SumsEqual(T: Row, t: Row, U: Row, m: nat)
    requires Accumulates(T, t) && Accumulates(U, t) && m <= |t|
    ensures U[m] == T[m]
  {
    if m > 0 {
      SumsEqual(T, t, U, m - 1);
      assert U[m - 1 + 1] == U[m - 1] + t[m - 1] && T[m - 1 + 1] == T[m - 1] + t[m - 1];
    }
  }

  lemma Distribute(k: real, a: real, b: real)
    ensures k * (a + b) == k * a + k * b
  {}

  /** A sum that is termwise another one plus a multiple of a third. */
  lemma {:induction false} SumsCombine(T: Row, t: Row, U: Row, u: Row, S: Row, s: Row, k: real, m: nat)
    requires Accumulates(T, t) && Accumulates(U, u) && Accumulates(S, s) && m <= |t| == |u| == |s|
    requires forall i :: 0 <= i < |t| ==> u[i] == t[i] + k * s[i]
    ensures U[m] == T[m] + k * S[m]
  {
    if m > 0 {
      SumsCombine(T, t, U, u, S, s, k, m - 1);
      assert U[m - 1 + 1] == U[m - 1] + u[m - 1] && T[m - 1 + 1] == T[m - 1] + t[m - 1];
      assert S[m - 1 + 1] == S[m - 1] + s[m - 1];
      Distribute(k, S[m - 1], s[m - 1]);
    }
  }

  /** The inner product of two rows, by a name that leaves it unopened. */
  ghost predicate IsInner(p: real, a: Row, b: Row) {
    |a| == |b| && forall m :: m == |a| ==> Inner(a, b, m) == p
  }

  lemma InnerTable(a: Row, b: Row) returns (T: Row, t: Row)
    requires |a| == |b|
    ensures Accumulates(T, t) && |t| == |a| && IsInner(T[|a|], a, b)
    ensures forall i :: 0 <= i < |a| ==> t[i] == a[i] * b[i]
  {
    T := seq(|a| + 1, m requires 0 <= m <= |a| => Inner(a, b, m));
    t := seq(|a|, i requires 0 <= i < |a| => a[i] * b[i]);
    forall i | 0 <= i < |a|
      ensures T[i + 1] == T[i] + t[i]
    {
      assert Inner(a, b, i + 1) == Inner(a, b, i) + a[i] * b[i];
    }
  }

  /** The inner product is linear in its first row. */
  lemma InnerCombines(a: Row, b: Row, c: Row, d: Row, k: real, p: real, q: real) returns (r: real)
    requires IsInner(p, a, d) && IsInner(q, b, d) && |c| == |d|
    requires forall i :: 0 <= i < |c| ==> c[i] == a[i] + k * b[i]
    ensures IsInner(r, c, d) && r == p + k * q
  {
    var T, t := InnerTable(a, d);
    var S, s := InnerTable(b, d);
    var U, u := InnerTable(c, d);
    forall i | 0 <= i < |c|
      ensures u[i] == t[i] + k * s[i]
    {
      TermCombines(a[i], b[i], c[i], d[i], k);
    }
    SumsCombine(T, t, U, u, S, s, k, |c|);
    SameInner(a, d, p, T[|c|]);
    SameInner(b, d, q, S[|c|]);
    r := U[|c|];
  }

  lemma TermCombines(a: real, b: real, c: real, d: real, k: real)
    requires c == a + k * b
    ensures c * d == a * d + k * (b * d)
  {}

  lemma SameInner(a: Row, b: Row, p: real, q: real)
    requires IsInner(p, a, b) && IsInner(q, a, b)
    ensures p == q
  {
    assert Inner(a, b, |a|) == p;
  }

  // ----- all rows -----

  ghost predicate Labels(y: seq<int>) {
    forall i :: 0 <= i < |y| ==> y[i] in {0, 1}
  }

  /** Under the weights no row's label has a probability below 1e-12. */
  ghost predicate AllClear(v: Row, X: seq<Row>, y: seq<int>, sigmoid: real -> real)
    requires |v| > 0 && Rectangular(X, |v| - 1) && |X| == |y|
  {
    forall i :: 0 <= i < |X| ==> Clear(sigmoid(Score(v, X[i])), y[i])
  }

  /** The error of each row. */
  function Errors(w: Row, X: seq<Row>, y: seq<int>, sigmoid: real -> real): (e: Row)
    requires |w| > 0 && Rectangular(X, |w| - 1) && |X| == |y|
    ensures |e| == |X|
  {
    seq(|X|, i requires 0 <= i < |X| => sigmoid(Score(w, X[i])) - y[i] as real)
  }

  /** How far each row's score moves. */
  function Moves(w: Row, v: Row, X: seq<Row>): (d: Row)
    requires |w| == |v| > 0 && Rectangular(X, |w| - 1)
    ensures |d| == |X|
  {
    seq(|X|, i requires 0 <= i < |X| => Score(v, X[i]) - Score(w, X[i]))
  }

  /** The loss of each row. */
  function Losses(w: Row, X: seq<Row>, y: seq<int>, c: Config): (e: Row)
    requires |w| > 0 && Rectangular(X, |w| - 1) && |X| == |y|
    ensures |e| == |X|
  {
    seq(|X|, i requires 0 <= i < |X| => RowLoss(c.sigmoid(Score(w, X[i])), y[i] as real, c.log))
  }

  /** The likelihood of all rows, by a name that leaves it unopened. */
  ghost predicate IsLikelihood(nll: real, w: Row, X: seq<Row>, y: seq<int>, c: Config) {
    && |w| > 0 && Rectangular(X, |w| - 1) && |X| == |y|
    && forall m :: m == |X| ==> LossTo(w, X, y, c, m) == nll
  }

  lemma LossTable(w: Row, X: seq<Row>, y: seq<int>, c: Config) returns (T: Row)
    requires |w| > 0 && Rectangular(X, |w| - 1) && |X| == |y|
    ensures Accumulates(T, Losses(w, X, y, c)) && IsLikelihood(T[|X|], w, X, y, c)
  {
    T := seq(|X| + 1, m requires 0 <= m <= |X| => LossTo(w, X, y, c, m));
    forall i | 0 <= i < |X|
      ensures T[i + 1] == T[i] + Losses(w, X, y, c)[i]
    {
      assert LossTo(w, X, y, c, i + 1)
        == LossTo(w, X, y, c, i) + RowLoss(c.sigmoid(Score(w, X[i])), y[i] as real, c.log);
    }
  }

  lemma RowTerms(w: Row, v: Row, X: seq<Row>, y: seq<int>, c: Config, exp: real -> real, i: nat, term: real)
    requires |w| == |v| > 0 && Rectangular(X, |w| - 1) && i < |X| == |y|
    requires Logistic(c, exp) && y[i] in {0, 1} && Clear(c.sigmoid(Score(v, X[i])), y[i])
    requires term == Errors(w, X, y, c.sigmoid)[i] * Moves(w, v, X)[i]
    ensures Losses(v, X, y, c)[i] >= Losses(w, X, y, c)[i] + term
  {
    var error, move := Errors(w, X, y, c.sigmoid)[i], Moves(w, v, X)[i];
    var before, after, slope := RowAbove(c, exp, Score(w, X[i]), Score(v, X[i]), error, move, y[i]);
  }

  /** The likelihood lies above the errors times the moves of the scores. */
  lemma RowsAbove(w: Row, v: Row, X: seq<Row>, y: seq<int>, c: Config, exp: real -> real)
    returns (nll: real, nll': real, slope: real)
    requires |w| == |v| > 0 && Rectangular(X, |w| - 1) && |X| == |y|
    requires Logistic(c, exp) && Labels(y) && AllClear(v, X, y, c.sigmoid)
    ensures IsLikelihood(nll, w, X, y, c) && IsLikelihood(nll', v, X, y, c)
    ensures IsInner(slope, Errors(w, X, y, c.sigmoid), Moves(w, v, X)) && nll' >= nll + slope
  {
    var T := LossTable(w, X, y, c);
    var U := LossTable(v, X, y, c);
    var S, s := InnerTable(Errors(w, X, y, c.sigmoid), Moves(w, v, X));
    forall i | 0 <= i < |X|
      ensures Losses(v, X, y, c)[i] >= Losses(w, X, y, c)[i] + s[i]
    {
      RowTerms(w, v, X, y, c, exp, i, s[i]);
    }
    SumsAbove(T, Losses(w, X, y, c), U, Losses(v, X, y, c), S, s, |X|);
    nll, nll', slope := T[|X|], U[|X|], S[|X|];
  }

  // ----- rows and weights -----

  lemma AddTerm(a: real, b: real, x: real)
    ensures (a + b) * x == a * x + b * x
  {}

  /** A score moves by the score of the step. */
  lemma {:induction false} ScoreMoves(w: Row, v: Row, d: Row, x: Row, m: nat)
    requires |w| == |v| == |d| == |x| + 1 && m <= |x| && forall j :: 0 <= j < |w| ==> d[j] == v[j] - w[j]
    ensures ScoreTo(v, x, m) == ScoreTo(w, x, m) + ScoreTo(d, x, m)
  {
    if m > 0 {
      ScoreMoves(w, v, d, x, m - 1);
      AddTerm(w[m], d[m], x[m - 1]);
    }
  }

  /** A row with the constant feature in front. */
  function WithConstant(x: Row): (r: Row)
    ensures |r| == |x| + 1
  {
    [1.0] + x
  }

  lemma {:induction false} ScoreIsInner(w: Row, x: Row, m: nat)
    requires |w| == |x| + 1 && m <= |x|
    ensures Inner(WithConstant(x), w, m + 1) == ScoreTo(w, x, m)
  {
    if m == 0 {
      assert Inner(WithConstant(x), w, 0) == 0.0;
    } else {
      ScoreIsInner(w, x, m - 1);
    }
  }

  /** The error sums of the first m rows. */
  function ErrorSums(w: Row, X: seq<Row>, y: seq<int>, sigmoid: real -> real, m: nat): (g: Row)
    requires |w| > 0 && Rectangular(X, |w| - 1) && m <= |X| == |y|
    ensures |g| == |w|
  {
    seq(|w|, j requires 0 <= j < |w| => ErrorSum(w, X, y, sigmoid, j, m))
  }

  lemma ErrorSumsNext(w: Row, X: seq<Row>, y: seq<int>, sigmoid: real -> real, i: nat)
    requires |w| > 0 && Rectangular(X, |w| - 1) && i < |X| == |y|
    ensures forall j :: 0 <= j < |w| ==>
      ErrorSums(w, X, y, sigmoid, i + 1)[j]
      == ErrorSums(w, X, y, sigmoid, i)[j] + Errors(w, X, y, sigmoid)[i] * WithConstant(X[i])[j]
  {
    forall j | 0 <= j < |w|
      ensures ErrorSums(w, X, y, sigmoid, i + 1)[j]
        == ErrorSums(w, X, y, sigmoid, i)[j] + Errors(w, X, y, sigmoid)[i] * WithConstant(X[i])[j]
    {
      ErrorSumNext(w, X, y, sigmoid, i, j, Errors(w, X, y, sigmoid)[i]);
    }
  }

  lemma ErrorSumNext(w: Row, X: seq<Row>, y: seq<int>, sigmoid: real -> real, i: nat, j: nat, error: real)
    requires |w| > 0 && Rectangular(X, |w| - 1) && i < |X| == |y| && j < |w|
    requires error == sigmoid(Score(w, X[i])) - y[i] as real
    ensures ErrorSum(w, X, y, sigmoid, j, i + 1)
      == ErrorSum(w, X, y, sigmoid, j, i) + error * WithConstant(X[i])[j]
  {}

  /** One row adds its error times its move to the slope. */
  lemma SlopeNext(w: Row, v: Row, X: seq<Row>, y: seq<int>, sigmoid: real -> real, i: nat, rest: real, error: real,
                  move: real) returns (slope: real)
    requires |w| == |v| > 0 && Rectangular(X, |w| - 1) && i < |X| == |y|
    requires IsInner(rest, ErrorSums(w, X, y, sigmoid, i), Difference(w, v))
    requires error == Errors(w, X, y, sigmoid)[i] && move == Moves(w, v, X)[i]
    ensures IsInner(slope, ErrorSums(w, X, y, sigmoid, i + 1), Difference(w, v)) && slope == rest + error * move
  {
    var d := Difference(w, v);
    MoveIsInner(w, v, X, i, move);
    ErrorSumsNext(w, X, y, sigmoid, i);
    slope := InnerCombines(ErrorSums(w, X, y, sigmoid, i), WithConstant(X[i]), ErrorSums(w, X, y, sigmoid, i + 1),
                           d, error, rest, move);
  }

  lemma MoveIsInner(w: Row, v: Row, X: seq<Row>, i: nat, move: real)
    requires |w| == |v| > 0 && Rectangular(X, |w| - 1) && i < |X| && move == Moves(w, v, X)[i]
    ensures IsInner(move, WithConstant(X[i]), Difference(w, v))
  {
    ScoreMoves(w, v, Difference(w, v), X[i], |X[i]|);
    ScoreIsInner(Difference(w, v), X[i], |X[i]|);
  }

  /** The slopes of the partial gradients, row by row. */
  lemma {:induction false} SlopeTable(w: Row, v: Row, X: seq<Row>, y: seq<int>, sigmoid: real -> real, t: Row, m: nat)
    returns (T: Row)
    requires |w| == |v| > 0 && Rectangular(X, |w| - 1) && m <= |X| == |y| == |t|
    requires forall i :: 0 <= i < |t| ==> t[i] == Errors(w, X, y, sigmoid)[i] * Moves(w, v, X)[i]
    ensures Accumulates(T, t[..m]) && IsInner(T[m], ErrorSums(w, X, y, sigmoid, m), Difference(w, v))
  {
    if m == 0 {
      ZeroSlope(ErrorSums(w, X, y, sigmoid, 0), Difference(w, v), |w|);
      T := [0.0];
    } else {
      T := SlopeTable(w, v, X, y, sigmoid, t, m - 1);
      var slope := SlopeNext(w, v, X, y, sigmoid, m - 1, T[m - 1], Errors(w, X, y, sigmoid)[m - 1],
                             Moves(w, v, X)[m - 1]);
      T := Extended(T, t, m, slope);
    }
  }

  lemma Extended(T: Row, t: Row, m: nat, next: real) returns (U: Row)
    requires 0 < m <= |t| && Accumulates(T, t[..m - 1]) && next == T[m - 1] + t[m - 1]
    ensures Accumulates(U, t[..m]) && U[m] == next
  {
    U := T + [next];
  }

  lemma {:induction false} ZeroSlope(g: Row, d: Row, m: nat)
    requires m <= |g| == |d| && forall j :: 0 <= j < |g| ==> g[j] == 0.0
    ensures Inner(g, d, m) == 0.0
  {
    if m > 0 {
      ZeroSlope(g, d, m - 1);
    }
  }

  /** Summing over rows or over weights gives the same slope. */
  lemma RowsAndWeights(w: Row, v: Row, X: seq<Row>, y: seq<int>, sigmoid: real -> real, slope: real)
    requires |w| == |v| > 0 && Rectangular(X, |w| - 1) && |X| == |y|
    requires IsInner(slope, Errors(w, X, y, sigmoid), Moves(w, v, X))
    ensures IsInner(slope, ErrorSums(w, X, y, sigmoid, |X|), Difference(w, v))
  {
    var S, s := InnerTable(Errors(w, X, y, sigmoid), Moves(w, v, X));
    var T := SlopeTable(w, v, X, y, sigmoid, s, |X|);
    assert s[..|X|] == s;
    SumsEqual(T, s, S, |X|);
    SameInner(Errors(w, X, y, sigmoid), Moves(w, v, X), slope, S[|X|]);
  }

  // ----- the ridge -----

  /** The weights without the intercept. */
  function Features(w: Row): (r: Row)
    requires |w| > 0
    ensures |r| == |w|
  {
    w[0 := 0.0]
  }

  lemma {:induction false} RidgeIsInner(w: Row, m: nat)
    requires m < |w|
    ensures Inner(Features(w), Features(w), m + 1) == RidgeTo(w, m)
  {
    if m == 0 {
      assert Inner(Features(w), Features(w), 0) == 0.0;
    } else {
      RidgeIsInner(w, m - 1);
    }
  }

  /** The sum of squares, by a name that leaves it unopened. */
  ghost predicate IsRidge(r: real, w: Row) {
    |w| > 0 && forall m :: m == |w| - 1 ==> RidgeTo(w, m) == r
  }

  lemma SquareAbove(w: real, v: real, s: real)
    requires s == 2.0 * w * (v - w)
    ensures v * v >= w * w + s
  {
    var d := v - w;
    assert d * d >= 0.0;
    assert v * v == w * w + 2.0 * w * d + d * d;
  }

  lemma RidgeTable(w: Row) returns (T: Row, t: Row)
    requires |w| > 0
    ensures Accumulates(T, t) && |t| == |w| && IsRidge(T[|w|], w)
    ensures forall i :: 0 <= i < |w| ==> t[i] == if i == 0 then 0.0 else w[i] * w[i]
  {
    T, t := InnerTable(Features(w), Features(w));
    RidgeIsInner(w, |w| - 1);
  }

  /** The sum of squares lies above its tangent. */
  lemma RidgesAbove(w: Row, v: Row) returns (r: real, r': real, s: real)
    requires |w| == |v| > 0
    ensures IsRidge(r, w) && IsRidge(r', v) && IsInner(s, Features(w), Difference(w, v)) && r' >= r + 2.0 * s
  {
    var T, t := RidgeTable(w);
    var U, u := RidgeTable(v);
    var S, q := InnerTable(Features(w), Difference(w, v));
    var S2, q2 := Doubled(S, q);
    forall i | 0 <= i < |w|
      ensures u[i] >= t[i] + q2[i]
    {
      if i > 0 {
        SquareAbove(w[i], v[i], q2[i]);
      }
    }
    SumsAbove(T, t, U, u, S2, q2, |w|);
    r, r', s := T[|w|], U[|w|], S[|w|];
  }

  lemma Doubled(S: Row, s: Row) returns (D: Row, d: Row)
    requires Accumulates(S, s)
    ensures Accumulates(D, d) && |d| == |s| && forall i :: 0 <= i < |s| ==> d[i] == 2.0 * s[i]
    ensures forall i :: 0 <= i <= |s| ==> D[i] == 2.0 * S[i]
  {
    D := seq(|S|, i requires 0 <= i < |S| => 2.0 * S[i]);
    d := seq(|s|, i requires 0 <= i < |s| => 2.0 * s[i]);
  }

  lemma GradientRidge(w: Row, X: seq<Row>, y: seq<int>, c: Config)
    requires |w| > 0 && Rectangular(X, |w| - 1) && |X| == |y|
    ensures forall j :: 0 <= j < |w| ==>
      Gradient(w, X, y, c)[j] == ErrorSums(w, X, y, c.sigmoid, |X|)[j] + c.l2 * Features(w)[j]
  {}

  lemma PenaltyAbove(l2: real, r: real, r': real, s: real)
    requires l2 >= 0.0 && r' >= r + 2.0 * s
    ensures l2 * r' / 2.0 >= l2 * r / 2.0 + l2 * s
  {
    NonNegative(l2, r' - r - 2.0 * s);
    assert l2 * (r' - r - 2.0 * s) == l2 * r' - l2 * r - 2.0 * (l2 * s);
  }

  // ----- the whole loss -----

  lemma PerRow(a: real, b: real, slope: real, n: real) returns (share: real)
    requires n > 0.0 && a >= b + slope
    ensures share == slope / n && a / n >= b / n + share && (slope >= 0.0 ==> share >= 0.0)
  {
    DivideSum(b, slope, n);
    DivideSum(b + slope, a - (b + slope), n);
    share := slope / n;
  }

  lemma Penalised(nll: real, nll': real, l2: real, r: real, r': real, s: real, bare: real, slope: real, n: nat)
    returns (before: real, after: real, share: real)
    requires n > 0 && l2 >= 0.0 && r' >= r + 2.0 * s && slope == bare + l2 * s && nll' >= nll + bare
    ensures before == MeanLoss(nll, r, l2, n) && after == MeanLoss(nll', r', l2, n)
    ensures share == slope / n as real && after >= before + share && (slope >= 0.0 ==> share >= 0.0)
  {
    PenaltyAbove(l2, r, r', s);
    before, after := MeanLoss(nll, r, l2, n), MeanLoss(nll', r', l2, n);
    share := PerRow(nll' + l2 * r' / 2.0, nll + l2 * r / 2.0, slope, n as real);
  }

  lemma LossFrom(w: Row, X: seq<Row>, y: seq<int>, c: Config, nll: real, r: real, loss: real)
    requires 0 < |X| && IsLikelihood(nll, w, X, y, c) && IsRidge(r, w) && loss == MeanLoss(nll, r, c.l2, |X|)
    ensures loss == LossOf(w, X, y, c)
  {
    assert LossTo(w, X, y, c, |X|) == nll && RidgeTo(w, |w| - 1) == r;
  }

  /**
   The loss at any weights that clip no row is at least the loss at w plus the
   slope towards them that the gradient at w promises, per row.
   */
  lemma LossAbove(w: Row, v: Row, X: seq<Row>, y: seq<int>, c: Config, exp: real -> real)
    returns (before: real, after: real, slope: real, share: real)
    requires |w| == |v| > 0 && Rectangular(X, |w| - 1) && 0 < |X| == |y|
    requires Logistic(c, exp) && c.l2 >= 0.0 && Labels(y) && AllClear(v, X, y, c.sigmoid)
    ensures before == LossOf(w, X, y, c) && after == LossOf(v, X, y, c)
    ensures IsInner(slope, Gradient(w, X, y, c), Difference(w, v))
    ensures share == slope / |X| as real && after >= before + share && (slope >= 0.0 ==> share >= 0.0)
  {
    var nll, nll', bare := RowsAbove(w, v, X, y, c, exp);
    RowsAndWeights(w, v, X, y, c.sigmoid, bare);
    var r, r', s := RidgesAbove(w, v);
    GradientRidge(w, X, y, c);
    slope := InnerCombines(ErrorSums(w, X, y, c.sigmoid, |X|), Features(w), Gradient(w, X, y, c), Difference(w, v),
                           c.l2, bare, s);
    before, after, share := Penalised(nll, nll', c.l2, r, r', s, bare, slope, |X|);
    LossFrom(w, X, y, c, nll, r, before);
    LossFrom(v, X, y, c, nll', r', after);
  }

  /**
   Where a pass at a positive rate leaves the weights as they are, no weights that
   clip no row have a smaller loss.
   */
  lemma StandstillIsBest(w: Row, v: Row, X: seq<Row>, y: seq<int>, c: Config, exp: real -> real)
    requires |w| == |v| > 0 && Rectangular(X, |w| - 1) && 0 < |X| == |y|
    requires Logistic(c, exp) && c.l2 >= 0.0 && Labels(y) && AllClear(v, X, y, c.sigmoid)
    requires c.rate > 0.0 && Descended(w, X, y, c) == w
    ensures LossOf(w, X, y, c) <= LossOf(v, X, y, c)
  {
    FlatGradient(w, X, y, c);
    var before, after, slope, share := LossAbove(w, v, X, y, c, exp);
    ZeroInner(Gradient(w, X, y, c), Difference(w, v), slope);
  }

  lemma ZeroInner(g: Row, d: Row, p: real)
    requires IsInner(p, g, d) && forall j :: 0 <= j < |g| ==> g[j] == 0.0
    ensures p == 0.0
  {
    ZeroSlope(g, d, |g|);
  }

  lemma FlatGradient(w: Row, X: seq<Row>, y: seq<int>, c: Config)
    requires |w| > 0 && Rectangular(X, |w| - 1) && 0 < |X| == |y|
    requires c.rate > 0.0 && Descended(w, X, y, c) == w
    ensures forall j :: 0 <= j < |w| ==> Gradient(w, X, y, c)[j] == 0.0
  {
    DescendsGradient(w, X, y, c);
    StepFalls(Gradient(w, X, y, c), w, w, c.rate, |X|);
  }
}
