/**
 The execution trigger (analytics-engine-py/src/filter_engine.py): the model
 probability of each leg, the choice of the strongest edge, and what an executed
 order is worth to the model after paper slippage.
 */
module Filter {
  import opened Options
  import opened Features
  import Study
  import Settle
  import PaperLedger
  import LogisticFit

  /** The engine's settings; `exp` is the exponential function. */
  datatype Config = Config(
    minOdds: real, maxOdds: real, slack: real, selectDraw: bool, drawCap: real,
    temperature: real, maxProb: real, weights: seq<real>, bias: real, exp: real -> real)

  ghost predicate ValidConfig(c: Config) {
    && 0.0 < c.minOdds && 0.0 < c.temperature && 0.0 < c.maxProb && 0.0 <= c.drawCap && |c.weights| == 5
    && forall x :: c.exp(x) > 0.0
  }

  function Dot(w: seq<real>, x: seq<real>): real
    requires |w| == |x|
  {
    if w == [] then 0.0 else w[0] * x[0] + Dot(w[1..], x[1..])
  }

  /** The calibrated posterior of a side; draw is what the two other legs leave over. */
  function TrueProbability(f: FeatureSet, side: Side, c: Config): (p: real)
    requires ValidConfig(c)
    ensures 0.0 <= p <= MaxReal(c.maxProb, c.drawCap)
    decreases if side == Draw then 1 else 0
  {
    if side == Draw then
      var away, home := TrueProbability(f, Away, c), TrueProbability(f, Home, c);
      MinReal(MaxReal(0.0, 1.0 - away - home), c.drawCap)
    else
      var score := (c.bias + Dot(c.weights, ScoreInputs(f, side))) / c.temperature;
      MinReal(1.0 / (1.0 + c.exp(-score)), c.maxProb)
  }

  function Price(odds: map<string, real>, side: Side): real {
    if SideKey(side) in odds then odds[SideKey(side)] else 0.0
  }

  function Sides(c: Config): seq<Side> {
    if c.selectDraw then [Home, Away, Draw] else [Home, Away]
  }

  predicate Admissible(odds: map<string, real>, side: Side, c: Config) {
    side in Sides(c) && c.minOdds <= Price(odds, side) <= c.maxOdds
  }

  function Implied(odds: map<string, real>, side: Side, c: Config): real
    requires ValidConfig(c) && Admissible(odds, side, c)
  {
    1.0 / Price(odds, side)
  }

  /** The model posterior as a function of the side. */
  function Posterior(f: FeatureSet, c: Config): Side -> real
    requires ValidConfig(c)
  {
    side => TrueProbability(f, side, c)
  }

  function Edge(odds: map<string, real>, p: Side -> real, side: Side, c: Config): real
    requires ValidConfig(c) && Admissible(odds, side, c)
  {
    p(side) - Implied(odds, side, c)
  }

  /** The order in which the legs are tried. */
  predicate Earlier(a: Side, b: Side) {
    (a == Home && b != Home) || (a == Away && b == Draw)
  }

  datatype Leg = Leg(side: Side, trueProb: real, implied: real)

  /** The admissible leg with the largest edge, the earliest one among equals. */
  method BestSide(odds: map<string, real>, p: Side -> real, c: Config) returns (best: Option<Leg>)
    requires ValidConfig(c)
    ensures best.None? <==> forall s :: !Admissible(odds, s, c)
    ensures best.Some? ==>
      && Admissible(odds, best.value.side, c)
      && best.value == Leg(best.value.side, p(best.value.side), Implied(odds, best.value.side, c))
      && (forall s :: Admissible(odds, s, c) ==> Edge(odds, p, s, c) <= Edge(odds, p, best.value.side, c))
      && (forall s :: Admissible(odds, s, c) && Earlier(s, best.value.side) ==>
            Edge(odds, p, s, c) < Edge(odds, p, best.value.side, c))
  {
    best := None;
    var sides := Sides(c);
    ghost var at := 0;
    for i := 0 to |sides|
      invariant best.None? <==> forall j :: 0 <= j < i ==> !Admissible(odds, sides[j], c)
      invariant best.Some? ==>
        && Admissible(odds, best.value.side, c)
        && best.value == Leg(best.value.side, p(best.value.side), Implied(odds, best.value.side, c))
        && (forall j :: 0 <= j < i && Admissible(odds, sides[j], c) ==>
              Edge(odds, p, sides[j], c) <= Edge(odds, p, best.value.side, c))
        && at < i && sides[at] == best.value.side
        && (forall j :: 0 <= j < at && Admissible(odds, sides[j], c) ==>
              Edge(odds, p, sides[j], c) < Edge(odds, p, best.value.side, c))
    {
      var price := Price(odds, sides[i]);
      if price < c.minOdds || price > c.maxOdds {
        continue;
      }
      var trueProb := p(sides[i]);
      var implied := 1.0 / price;
      var edge := trueProb - implied;
      if best.None? || edge > best.value.trueProb - best.value.implied {
        best, at := Some(Leg(sides[i], trueProb, implied)), i;
      }
    }
    assert sides[0] == Home && sides[1] == Away;
    assert c.selectDraw ==> sides[2] == Draw;
  }

  datatype Verdict = Verdict(execute: bool, leg: Option<Leg>, price: real)

  /** The verdict executes exactly when some admissible leg beats implied plus slack, on the leg of greatest edge. */
  ghost predicate Justified(v: Verdict, odds: map<string, real>, f: FeatureSet, c: Config)
    requires ValidConfig(c)
  {
    && (v.execute <==>
          exists s :: Admissible(odds, s, c) && TrueProbability(f, s, c) > Implied(odds, s, c) + c.slack)
    && (v.execute ==>
          && v.leg.Some? && Admissible(odds, v.leg.value.side, c) && v.price == Price(odds, v.leg.value.side)
          && v.leg.value.trueProb == TrueProbability(f, v.leg.value.side, c)
          && v.leg.value.trueProb > 1.0 / v.price + c.slack
          && c.minOdds <= v.price <= c.maxOdds
          && forall s :: Admissible(odds, s, c) ==>
               Edge(odds, Posterior(f, c), s, c) <= Edge(odds, Posterior(f, c), v.leg.value.side, c))
  }

  method Evaluate(odds: map<string, real>, f: FeatureSet, c: Config) returns (v: Verdict)
    requires ValidConfig(c)
    ensures Justified(v, odds, f, c)
  {
    if odds == map[] {
      return Verdict(false, None, 0.0);
    }
    var p := Posterior(f, c);
    var best := BestSide(odds, p, c);
    if best.None? {
      return Verdict(false, None, 0.0);
    }
    var leg := best.value;
    assert Edge(odds, p, leg.side, c) == leg.trueProb - leg.implied;
    v := Verdict(leg.trueProb > leg.implied + c.slack, best, Price(odds, leg.side));
    forall s | Admissible(odds, s, c) && TrueProbability(f, s, c) > Implied(odds, s, c) + c.slack
      ensures v.execute
    {
      assert Edge(odds, p, s, c) <= Edge(odds, p, leg.side, c);
    }
  }

  // ----- what the posterior means -----

  /** The exponential function as far as the posterior needs it. */
  ghost predicate IsExp(exp: real -> real) {
    && exp(0.0) == 1.0
    && (forall x :: exp(x) > 0.0 && exp(x) * exp(-x) == 1.0)
    && (forall x, y :: x < y ==> exp(x) < exp(y))
  }

  /** The weighted sum of an input row. */
  function Weighted(c: Config, x: seq<real>): real
    requires |c.weights| == |x| == 5
  {
    c.bias + c.weights[0] * x[0] + c.weights[1] * x[1] + c.weights[2] * x[2] + c.weights[3] * x[3]
    + c.weights[4] * x[4]
  }

  lemma DotFive(w: seq<real>, x: seq<real>)
    requires |w| == |x| == 5
    ensures Dot(w, x) == w[0] * x[0] + w[1] * x[1] + w[2] * x[2] + w[3] * x[3] + w[4] * x[4]
  {
    DotFrom(w, x, 0);
    DotFrom(w, x, 1);
    DotFrom(w, x, 2);
    DotFrom(w, x, 3);
    DotFrom(w, x, 4);
    assert w[0..] == w && x[0..] == x && w[5..] == [];
  }

  lemma DotFrom(w: seq<real>, x: seq<real>, i: nat)
    requires i < |w| == |x|
    ensures Dot(w[i..], x[i..]) == w[i] * x[i] + Dot(w[i + 1..], x[i + 1..])
  {
    assert w[i..][1..] == w[i + 1..] && x[i..][1..] == x[i + 1..];
  }

  lemma ReciprocalFalls(a: real, b: real)
    requires 0.0 < a < b
    ensures 1.0 / (1.0 + b) < 1.0 / (1.0 + a)
  {
  }

  lemma QuotientRises(a: real, b: real, t: real)
    requires a < b && t > 0.0
    ensures a / t < b / t
  {
    var p, q := a / t, b / t;
    assert p * t == a && q * t == b;
  }

  /** The logistic curve before the cap, over a score and its temperature. */
  lemma CurveRises(exp: real -> real, a: real, b: real, t: real)
    requires IsExp(exp) && t > 0.0
    ensures exp(-(a / t)) > 0.0 && exp(-(b / t)) > 0.0
    ensures a < b ==> 1.0 / (1.0 + exp(-(a / t))) < 1.0 / (1.0 + exp(-(b / t)))
    ensures a == 0.0 ==> 1.0 / (1.0 + exp(-(a / t))) == 0.5
  {
    if a < b {
      QuotientRises(a, b, t);
      ReciprocalFalls(exp(-(b / t)), exp(-(a / t)));
    }
    if a == 0.0 {
      assert a / t == 0.0 && -(a / t) == 0.0;
    }
  }

  lemma LegForm(f: FeatureSet, side: Side, c: Config) returns (score: real)
    requires ValidConfig(c) && side != Draw
    ensures score == Weighted(c, ScoreInputs(f, side)) && c.exp(-(score / c.temperature)) > 0.0
    ensures TrueProbability(f, side, c) == MinReal(1.0 / (1.0 + c.exp(-(score / c.temperature))), c.maxProb)
  {
    var x := ScoreInputs(f, side);
    DotFive(c.weights, x);
    score := c.bias + Dot(c.weights, x);
    assert score / c.temperature == (c.bias + Dot(c.weights, x)) / c.temperature;
  }

  /**
   Of two home or away legs, of one snapshot or two, the one whose row has the
   larger weighted sum gets the larger posterior, or both are at the cap.
   */
  lemma PosteriorRises(f: FeatureSet, side: Side, g: FeatureSet, other: Side, c: Config)
    requires ValidConfig(c) && IsExp(c.exp) && side != Draw && other != Draw
    requires Weighted(c, ScoreInputs(f, side)) < Weighted(c, ScoreInputs(g, other))
    ensures || TrueProbability(f, side, c) < TrueProbability(g, other, c)
            || TrueProbability(f, side, c) == TrueProbability(g, other, c) == c.maxProb
  {
    var a := LegForm(f, side, c);
    var b := LegForm(g, other, c);
    CurveRises(c.exp, a, b, c.temperature);
  }

  /** A leg is more likely than not exactly when its weighted sum is positive and the cap is above one half. */
  lemma PosteriorAboveHalf(f: FeatureSet, side: Side, c: Config)
    requires ValidConfig(c) && IsExp(c.exp) && side != Draw
    ensures TrueProbability(f, side, c) > 0.5 <==> Weighted(c, ScoreInputs(f, side)) > 0.0 && c.maxProb > 0.5
    ensures TrueProbability(f, side, c) < 0.5 <==> Weighted(c, ScoreInputs(f, side)) < 0.0 || c.maxProb < 0.5
  {
    var a := LegForm(f, side, c);
    CurveRises(c.exp, 0.0, a, c.temperature);
    CurveRises(c.exp, a, 0.0, c.temperature);
  }

  /**
   The draw leg is what the other two leave over, between nothing and its cap:
   the three legs add up to one exactly when that residual is within the cap.
   */
  lemma DrawClosesMarket(f: FeatureSet, c: Config)
    requires ValidConfig(c)
    ensures var home, away := TrueProbability(f, Home, c), TrueProbability(f, Away, c);
            var draw := TrueProbability(f, Draw, c);
            && (home + draw + away == 1.0 <==> 0.0 <= 1.0 - home - away <= c.drawCap)
            && (home + away > 1.0 ==> draw == 0.0)
            && (home + away < 1.0 - c.drawCap ==> draw == c.drawCap)
  {}

  /** The bounded logistic of the calibration: the exponential is never taken of a positive number. */
  function Sigmoid(exp: real -> real, z: real): real
    requires IsExp(exp)
  {
    if z >= 0.0 then
      var e := exp(-z);
      1.0 / (1.0 + e)
    else
      var e := exp(z);
      e / (1.0 + e)
  }

  lemma SigmoidForm(exp: real -> real, z: real)
    requires IsExp(exp)
    ensures exp(-z) > 0.0 && Sigmoid(exp, z) == 1.0 / (1.0 + exp(-z))
  {
    if z < 0.0 {
      assert exp(z) > 0.0 && exp(z) * exp(-z) == 1.0;
      SameCurve(exp(z), exp(-z));
    }
  }

  lemma SameCurve(e: real, r: real)
    requires e > 0.0 && r > 0.0 && e * r == 1.0
    ensures e / (1.0 + e) == 1.0 / (1.0 + r)
  {
    var p := e / (1.0 + e);
    assert p * (1.0 + e) == e;
    assert p * (1.0 + e) * r == p * (r + e * r) == p * (1.0 + r);
  }

  /** The live score is the score of the fit under the same coefficients. */
  lemma SameScore(c: Config, x: seq<real>)
    requires |c.weights| == |x| == 5
    ensures Weighted(c, x) == LogisticFit.Score([c.bias] + c.weights, x)
  {
    var w := [c.bias] + c.weights;
    assert LogisticFit.ScoreTo(w, x, 1) == w[0] + w[1] * x[0];
    assert LogisticFit.ScoreTo(w, x, 3) == LogisticFit.ScoreTo(w, x, 1) + w[2] * x[1] + w[3] * x[2];
    assert LogisticFit.ScoreTo(w, x, 5) == LogisticFit.ScoreTo(w, x, 3) + w[4] * x[3] + w[5] * x[4];
  }

  /**
   Fitted weights keep their meaning at run time: with the coefficients of a fit
   in force, the posterior of a leg is the fit's own sigmoid of the trained
   weights on the standardised row, at the live temperature and under the cap.
   */
  lemma FittedPosterior(f: FeatureSet, side: Side, c: Config, X: seq<LogisticFit.Row>, y: seq<int>,
                        fit: LogisticFit.Config)
    requires ValidConfig(c) && IsExp(c.exp) && side != Draw
    requires LogisticFit.Rectangular(X, 5) && 0 < |X| == |y| && LogisticFit.IsSqrt(fit.sqrt)
    requires forall z :: fit.sigmoid(z) == Sigmoid(c.exp, z)
    requires [c.bias] + c.weights == LogisticFit.Fitted(X, y, 5, fit).0
    ensures var mu, sd := LogisticFit.Means(X, 5), LogisticFit.Deviations(X, 5, fit.sqrt);
      && LogisticFit.AllPositive(sd)
      && var w := LogisticFit.Trained(
           LogisticFit.Zeros(6), None, LogisticFit.ScaledAll(X, mu, sd), y, fit, fit.iterations).0;
         TrueProbability(f, side, c)
         == MinReal(fit.sigmoid(LogisticFit.Score(w, LogisticFit.Scaled(ScoreInputs(f, side), mu, sd)) / c.temperature),
                    c.maxProb)
  {
    var x := ScoreInputs(f, side);
    var score := CurveOfScore(f, side, c);
    SameScore(c, x);
    FittedScore(X, y, x, fit);
  }

  lemma CurveOfScore(f: FeatureSet, side: Side, c: Config) returns (score: real)
    requires ValidConfig(c) && IsExp(c.exp) && side != Draw
    ensures score == Weighted(c, ScoreInputs(f, side))
    ensures TrueProbability(f, side, c) == MinReal(Sigmoid(c.exp, score / c.temperature), c.maxProb)
  {
    score := LegForm(f, side, c);
    SigmoidForm(c.exp, score / c.temperature);
  }

  /** The score of the fitted coefficients is that of the trained weights on the standardised row. */
  lemma FittedScore(X: seq<LogisticFit.Row>, y: seq<int>, x: LogisticFit.Row, fit: LogisticFit.Config)
    requires LogisticFit.Rectangular(X, 5) && 0 < |X| == |y| && LogisticFit.IsSqrt(fit.sqrt) && |x| == 5
    ensures var mu, sd := LogisticFit.Means(X, 5), LogisticFit.Deviations(X, 5, fit.sqrt);
      && LogisticFit.AllPositive(sd)
      && LogisticFit.Score(LogisticFit.Fitted(X, y, 5, fit).0, x)
         == LogisticFit.Score(
              LogisticFit.Trained(
                LogisticFit.Zeros(6), None, LogisticFit.ScaledAll(X, mu, sd), y, fit, fit.iterations).0,
              LogisticFit.Scaled(x, mu, sd))
  {
    var mu, sd := LogisticFit.Means(X, 5), LogisticFit.Deviations(X, 5, fit.sqrt);
    LogisticFit.PositiveDeviations(X, 5, fit.sqrt);
    LogisticFit.BackMapPreserves(
      LogisticFit.Trained(LogisticFit.Zeros(6), None, LogisticFit.ScaledAll(X, mu, sd), y, fit, fit.iterations).0,
      mu, sd, x);
  }

  /**
   A leg of a snapshot may be bet exactly when its own market quoted that side
   within the bounds, the draw only where draws are selected; the snapshot keeps
   the quoted price.
   */
  lemma AdmissibleQuote(f: Study.Frame, market: Study.Market, win: seq<Study.Entry>, now: real, side: Side, c: Config)
    requires ValidConfig(c) && win != []
    ensures var key := match side { case Home => "home" case Draw => "draw" case Away => "away" };
      Admissible(Study.SnapshotOf(f, market, win, now).odds, side, c)
      <==> (side == Draw ==> c.selectDraw) && key in market.odds && c.minOdds <= market.odds[key] <= c.maxOdds
  {
    Study.SnapshotFields(f, market, win, now);
  }

  // ----- what an executed order is worth -----

  /** What the model believes of the final score. */
  datatype Belief = Belief(home: real, draw: real, away: real)

  ghost predicate Distribution(b: Belief) {
    0.0 <= b.home && 0.0 <= b.draw && 0.0 <= b.away && b.home + b.draw + b.away == 1.0
  }

  /** The belief gives the bet side of a verdict the posterior that the verdict rests on. */
  ghost predicate Believes(b: Belief, side: Side, p: real) {
    && Distribution(b)
    && match side
       case Home => b.home == p
       case Draw => b.draw == p
       case Away => b.away == p
  }

  /** The cents that grading a filled order on a final score pays. */
  function Paid(fill: PaperLedger.Fill, score: PaperLedger.Score): real {
    Settle.Graded(fill.order, score.home as real, score.away as real, "feed_ft", true).pnl as real
  }

  /** A final score for each of the three outcomes. */
  datatype Scores = Scores(home: PaperLedger.Score, draw: PaperLedger.Score, away: PaperLedger.Score)

  /** The expectation of an amount that depends on the outcome. */
  function Mean(b: Belief, home: real, draw: real, away: real): real {
    b.home * home + b.draw * draw + b.away * away
  }

  /** The expected cents of a filled order over a home win, a draw and an away win. */
  function Expected(b: Belief, fill: PaperLedger.Fill, scores: Scores): real {
    Mean(b, Paid(fill, scores.home), Paid(fill, scores.draw), Paid(fill, scores.away))
  }

  /** A home win, a draw and an away win. */
  predicate ThreeScores(scores: Scores) {
    scores.home.home > scores.home.away && scores.draw.home == scores.draw.away && scores.away.home < scores.away.away
  }

  /** A probability times an amount that is known to half a cent. */
  lemma Share(p: real, paid: real, exact: real) returns (u: real, v: real)
    requires 0.0 <= p && exact - 0.5 <= paid
    ensures u == p * paid && v == p * exact && u >= v - 0.5 * p
  {
    u, v := p * paid, p * exact;
    var d := paid - exact + 0.5;
    assert p * d >= 0.0;
    assert p * d == p * paid - p * exact + p * 0.5;
  }

  lemma ThreeShares(p: real, q: real, r: real, won: real, lost: real, lost': real, win: real, loss: real)
    requires 0.0 <= p && 0.0 <= q && 0.0 <= r && p + q + r == 1.0
    requires win - 0.5 <= won && loss - 0.5 <= lost && loss - 0.5 <= lost'
    ensures p * won + q * lost + r * lost' >= p * win + (1.0 - p) * loss - 0.5
  {
    var a, a' := Share(p, won, win);
    var b, b' := Share(q, lost, loss);
    var c, c' := Share(r, lost', loss);
    Rest(p, q, r, loss);
    assert a + b + c >= a' + (b' + c') - 0.5;
  }

  lemma Rest(p: real, q: real, r: real, loss: real)
    requires p + q + r == 1.0
    ensures q * loss + r * loss == (1.0 - p) * loss
  {
    assert q == 1.0 - p - r;
    assert q * loss == (1.0 - p - r) * loss == (1.0 - p) * loss - r * loss;
  }

  lemma WinOrLose(p: real, stake: real, odds: real)
    ensures p * (100.0 * (stake * odds - stake)) + (1.0 - p) * (-100.0 * stake) == 100.0 * (stake * (p * odds - 1.0))
  {
    var s, o := stake, odds;
    assert p * (100.0 * (s * o - s)) == 100.0 * (s * (p * o)) - 100.0 * (s * p);
    assert (1.0 - p) * (-100.0 * s) == 100.0 * (s * p) - 100.0 * s;
    assert s * (p * o - 1.0) == s * (p * o) - s;
  }

  /** The final score is a win of the side. */
  predicate Comes(side: Side, score: PaperLedger.Score) {
    match side
    case Home => score.home > score.away
    case Draw => score.home == score.away
    case Away => score.home < score.away
  }

  /** Grading a bet on a side pays its winnings where the side wins and takes the stake elsewhere, to half a cent. */
  lemma PaidOn(fill: PaperLedger.Fill, side: Side, score: PaperLedger.Score, stake: real, odds: real)
    returns (paid: real)
    requires fill.order.side == SideKey(side) && stake == fill.order.stake && odds == fill.order.odds
    ensures paid == Paid(fill, score)
    ensures Comes(side, score) ==> 100.0 * (stake * odds - stake) - 0.5 <= paid
    ensures !Comes(side, score) ==> -100.0 * stake - 0.5 <= paid
  {
    Settle.GradedMoney(fill.order, score.home as real, score.away as real, "feed_ft", true);
    paid := Paid(fill, score);
  }

  /** The expected cents of a bet on a side, to half a cent. */
  lemma ExpectedForm(b: Belief, fill: PaperLedger.Fill, side: Side, p: real, stake: real, odds: real,
                     scores: Scores)
    returns (e: real, worth: real)
    requires Believes(b, side, p) && ThreeScores(scores)
    requires fill.order.side == SideKey(side) && stake == fill.order.stake && odds == fill.order.odds
    ensures e == Expected(b, fill, scores) && worth == stake * (p * odds - 1.0) && e >= 100.0 * worth - 0.5
  {
    var x := PaidOn(fill, side, scores.home, stake, odds);
    var y := PaidOn(fill, side, scores.draw, stake, odds);
    var z := PaidOn(fill, side, scores.away, stake, odds);
    e := Mixed(side, p, b, x, y, z, stake, odds);
    worth := stake * (p * odds - 1.0);
  }

  lemma Mixed(side: Side, p: real, b: Belief, x: real, y: real, z: real, stake: real, odds: real) returns (e: real)
    requires Believes(b, side, p)
    requires x >= if side == Home then 100.0 * (stake * odds - stake) - 0.5 else -100.0 * stake - 0.5
    requires y >= if side == Draw then 100.0 * (stake * odds - stake) - 0.5 else -100.0 * stake - 0.5
    requires z >= if side == Away then 100.0 * (stake * odds - stake) - 0.5 else -100.0 * stake - 0.5
    ensures e == Mean(b, x, y, z) && e >= 100.0 * (stake * (p * odds - 1.0)) - 0.5
  {
    var win, loss := 100.0 * (stake * odds - stake), -100.0 * stake;
    WinOrLose(p, stake, odds);
    e := Mean(b, x, y, z);
    match side {
      case Home => ThreeShares(b.home, b.draw, b.away, x, y, z, win, loss);
      case Draw => ThreeShares(b.draw, b.home, b.away, y, x, z, win, loss);
      case Away => ThreeShares(b.away, b.home, b.draw, z, x, y, win, loss);
    }
  }

  lemma EdgeTimesPrice(p: real, price: real, slack: real, floor: real)
    requires 0.0 < floor <= price && 0.0 <= slack && p > 1.0 / price + slack
    ensures p * price > 1.0 + slack * floor
  {
    assert p * price > (1.0 / price + slack) * price;
    assert (1.0 / price + slack) * price == 1.0 / price * price + slack * price;
    assert 1.0 / price * price == 1.0;
    assert slack * price >= slack * floor;
  }

  lemma MultiplyLess(s: real, a: real, b: real)
    requires s > 0.0 && a < b
    ensures s * a < s * b
  {}

  lemma SlippedPrice(p: real, price: real, odds: real, slack: real, floor: real, stake: real)
    returns (worth: real, bound: real)
    requires stake > 0.0 && 0.0 < floor <= price && 0.0 <= slack && p > 1.0 / price + slack && odds == 0.995 * price
    ensures worth == stake * (p * odds - 1.0) && bound == stake * (0.995 * (1.0 + slack * floor) - 1.0)
    ensures worth > bound
  {
    worth, bound := stake * (p * odds - 1.0), stake * (0.995 * (1.0 + slack * floor) - 1.0);
    EdgeTimesPrice(p, price, slack, floor);
    assert p * odds == 0.995 * (p * price);
    MultiplyLess(stake, 0.995 * (1.0 + slack * floor) - 1.0, p * odds - 1.0);
  }

  /** The order that an executed verdict sends. */
  function OrderFor(v: Verdict, matchId: string, market: string, stake: real): PaperLedger.Payload
    requires v.leg.Some?
  {
    PaperLedger.Payload(matchId, market, SideKey(v.leg.value.side), v.price, stake)
  }

  lemma OrderPays(v: Verdict, c: Config, id: string, matchId: string, market: string, stake: real, b: Belief,
                  scores: Scores)
    requires v.leg.Some? && 0.0 < c.minOdds <= v.price && 0.0 <= c.slack && stake > 0.0
    requires v.leg.value.trueProb > 1.0 / v.price + c.slack
    requires Believes(b, v.leg.value.side, v.leg.value.trueProb) && ThreeScores(scores)
    ensures Expected(b, PaperLedger.FillFor(id, OrderFor(v, matchId, market, stake)), scores)
      > 100.0 * (stake * (0.995 * (1.0 + c.slack * c.minOdds) - 1.0)) - 0.5
  {
    var fill := PaperLedger.FillFor(id, OrderFor(v, matchId, market, stake));
    var p := v.leg.value.trueProb;
    var e, bound := FillPays(b, fill, v.leg.value.side, p, v.price, c.slack, c.minOdds, stake, scores);
  }

  lemma FillPays(b: Belief, fill: PaperLedger.Fill, side: Side, p: real, price: real, slack: real, floor: real,
                 stake: real, scores: Scores)
    returns (e: real, bound: real)
    requires Believes(b, side, p) && ThreeScores(scores) && fill.order.side == SideKey(side)
    requires stake == fill.order.stake && stake > 0.0
    requires fill.order.odds == price - price * PaperLedger.SLIPPAGE
    requires 0.0 < floor <= price && 0.0 <= slack && p > 1.0 / price + slack
    ensures e == Expected(b, fill, scores) && bound == stake * (0.995 * (1.0 + slack * floor) - 1.0)
    ensures e > 100.0 * bound - 0.5
  {
    var odds := Slipped(fill, price);
    var worth, same;
    e, worth := ExpectedForm(b, fill, side, p, stake, odds, scores);
    same, bound := SlippedPrice(p, price, odds, slack, floor, stake);
    assert worth == same;
  }

  lemma Slipped(fill: PaperLedger.Fill, price: real) returns (odds: real)
    requires fill.order.odds == price - price * PaperLedger.SLIPPAGE
    ensures odds == fill.order.odds && odds == 0.995 * price
  {
    odds := fill.order.odds;
  }

  /**
   The order of an executed verdict, filled on paper and graded, is worth in
   expectation more than 0.995 (1 + slack * floor) - 1 of its stake, less half a
   cent of rounding, under every belief about the final score that gives the bet
   side the posterior of the model.
   */
  lemma ExecutedOrderPays(v: Verdict, odds: map<string, real>, f: FeatureSet, c: Config,
                          id: string, matchId: string, market: string, stake: real, b: Belief,
                          scores: Scores)
    requires ValidConfig(c) && 0.0 <= c.slack && Justified(v, odds, f, c) && v.execute && stake > 0.0
    requires Believes(b, v.leg.value.side, TrueProbability(f, v.leg.value.side, c)) && ThreeScores(scores)
    ensures Expected(b, PaperLedger.FillFor(id, OrderFor(v, matchId, market, stake)), scores)
      > 100.0 * (stake * (0.995 * (1.0 + c.slack * c.minOdds) - 1.0)) - 0.5
  {
    OrderPays(v, c, id, matchId, market, stake, b, scores);
  }

  /** With the default floor 5.0 and slack 0.02 that is more than 9.45 per cent of the stake, less half a cent. */
  lemma DefaultOrderPays(v: Verdict, odds: map<string, real>, f: FeatureSet, c: Config,
                         id: string, matchId: string, market: string, stake: real, b: Belief,
                         scores: Scores)
    requires ValidConfig(c) && c.slack == 0.02 && c.minOdds == 5.0
    requires Justified(v, odds, f, c) && v.execute && stake > 0.0
    requires Believes(b, v.leg.value.side, TrueProbability(f, v.leg.value.side, c)) && ThreeScores(scores)
    ensures Expected(b, PaperLedger.FillFor(id, OrderFor(v, matchId, market, stake)), scores) > 9.45 * stake - 0.5
  {
    ExecutedOrderPays(v, odds, f, c, id, matchId, market, stake, b, scores);
    assert 0.995 * (1.0 + 0.02 * 5.0) - 1.0 == 0.0945;
  }
}
