/**
 The feature vector of a snapshot (feature_study.py) and the oriented input row
 that the live score and the calibration share (filter_engine.py).
 */
module Features {
  import opened Study

  /** Expected statistics of a league. */
  datatype Baseline = Baseline(dangerPerMinute: real, possession: real, shotAccuracy: real)

  datatype FeatureSet = FeatureSet(
    divergence: real, dangerIntensity: real, possessionGap: real, shotAccuracyGap: real,
    scorePressure: real, homeBehind: real)

  datatype Side = Home | Draw | Away

  function SideKey(side: Side): string {
    match side
    case Home => "home"
    case Draw => "draw"
    case Away => "away"
  }

  function MaxReal(a: real, b: real): real {
    if a < b then b else a
  }

  function MinReal(a: real, b: real): real {
    if a < b then a else b
  }

  function ShotAccuracy(s: Snapshot): real {
    if s.counts.shots <= 0 then 0.0 else s.counts.onTarget as real / s.counts.shots as real
  }

  /** The minutes a snapshot is judged on: at least half a minute, at most the study window. */
  function StudyMinutes(s: Snapshot, w: nat): real {
    MinReal(MaxReal(s.windowEnd - s.windowStart, 30.0) / 60.0, w as real / 60.0)
  }

  function ExpectedDanger(s: Snapshot, b: Baseline, w: nat): real {
    b.dangerPerMinute * StudyMinutes(s, w)
  }

  function FeatureVector(s: Snapshot, b: Baseline, w: nat): FeatureSet {
    var expected := ExpectedDanger(s, b, w);
    var danger := s.counts.danger as real;
    FeatureSet(
      danger * (1.0 + ShotAccuracy(s)) - expected,
      danger / MaxReal(expected, 0.000001),
      s.possession - b.possession,
      ShotAccuracy(s) - b.shotAccuracy,
      (s.scoreHome + s.scoreAway) as real,
      if s.scoreHome < s.scoreAway then 1.0 else 0.0)
  }

  /** Features are home-centric: the away leg sees every gap with its sign turned. */
  function ScoreInputs(f: FeatureSet, side: Side): seq<real> {
    var invert := side == Away;
    var behind :=
      if !invert then f.homeBehind
      else if f.scorePressure > 0.0 && f.homeBehind == 0.0 then 1.0
      else 0.0;
    [if invert then -f.divergence else f.divergence,
     f.dangerIntensity,
     if invert then -f.possessionGap else f.possessionGap,
     if invert then -f.shotAccuracyGap else f.shotAccuracyGap,
     behind]
  }

  /**
   The fifth input flags a trailing side. For home that is exact. For away it is
   exact unless the match is level with goals scored: then the flag is set
   although nobody trails.
   */
  lemma BehindFlag(s: Snapshot, b: Baseline, w: nat)
    requires s.scoreHome >= 0 && s.scoreAway >= 0
    ensures ScoreInputs(FeatureVector(s, b, w), Home)[4] == (if s.scoreHome < s.scoreAway then 1.0 else 0.0)
    ensures ScoreInputs(FeatureVector(s, b, w), Away)[4] == (if s.scoreAway < s.scoreHome then 1.0 else 0.0)
      <==> !(s.scoreHome == s.scoreAway && s.scoreHome > 0)
  {
    var f := FeatureVector(s, b, w);
    assert f.scorePressure == (s.scoreHome + s.scoreAway) as real;
  }

  /**
   Home and away rows of one snapshot see opposite gaps and the same danger
   intensity, and at most one of the two sides is flagged as behind.
   */
  lemma AwayMirrorsHome(s: Snapshot, b: Baseline, w: nat)
    requires s.scoreHome >= 0 && s.scoreAway >= 0
    ensures var f := FeatureVector(s, b, w);
            var home, away := ScoreInputs(f, Home), ScoreInputs(f, Away);
            && |home| == |away| == 5
            && away[0] == -home[0] && away[1] == home[1] && away[2] == -home[2] && away[3] == -home[3]
            && home[4] * away[4] == 0.0
            && home[0] == s.counts.danger as real * (1.0 + ShotAccuracy(s)) - ExpectedDanger(s, b, w)
            && home[2] == s.possession - b.possession && home[3] == ShotAccuracy(s) - b.shotAccuracy
  {}

  /**
   What the home row holds: the danger above what the league expects over the
   studied minutes, which lie between half a minute and the window; their ratio;
   and the gaps of possession and accuracy to the league.
   */
  lemma FeatureMeaning(s: Snapshot, b: Baseline, w: nat) returns (accuracy: real, minutes: real)
    ensures if s.counts.shots > 0
      then accuracy * s.counts.shots as real == s.counts.onTarget as real else accuracy == 0.0
    ensures var span := if s.windowEnd - s.windowStart > 30.0 then s.windowEnd - s.windowStart else 30.0;
      60.0 * minutes == if span > w as real then w as real else span
    ensures var row, danger := ScoreInputs(FeatureVector(s, b, w), Home), s.counts.danger as real;
      var expected := b.dangerPerMinute * minutes;
      && row[0] == danger * (1.0 + accuracy) - expected
      && row[1] * (if expected > 0.000001 then expected else 0.000001) == danger
      && row[2] == s.possession - b.possession && row[3] == accuracy - b.shotAccuracy
  {
    accuracy, minutes := ShotAccuracy(s), StudyMinutes(s, w);
    var expected := b.dangerPerMinute * minutes;
    assert expected == ExpectedDanger(s, b, w);
    RatioTimes(s.counts.danger as real, if expected > 0.000001 then expected else 0.000001);
    assert MaxReal(expected, 0.000001) == if expected > 0.000001 then expected else 0.000001;
    if s.counts.shots > 0 {
      RatioTimes(s.counts.onTarget as real, s.counts.shots as real);
    }
  }

  lemma RatioTimes(x: real, y: real)
    requires y > 0.0
    ensures x / y * y == x
  {}
}
