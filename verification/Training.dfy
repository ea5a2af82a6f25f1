/**
 Training rows (calibrate.py): each complete cycle is replayed through a fresh
 study and every snapshot yields one home and one away row, labelled by the
 cycle's final score.
 */
module Training {
  import opened Options
  import opened Study
  import opened Features
  import opened Replay
  import opened ReplayCore
  import opened ReplayExact
  import Settle

  datatype Score = Score(home: int, away: int)

  datatype Row = Row(inputs: seq<real>, won: int, implied: real)

  datatype Report = Report(cycles: nat, frames: nat, snapshots: nat)

  /**
   What the run depends on from outside: the league baselines, the clock parser,
   and the study window in seconds.
   */
  datatype Env = Env(baselineOf: string -> Baseline, minuteOf: string -> Option<real>, w: nat)

  // ----- the final score of a cycle -----

  function LastFullTime(cycle: seq<Frame>): Option<Frame> {
    if cycle == [] then None
    else if IsFullTime(cycle[|cycle| - 1].clock) then Some(cycle[|cycle| - 1])
    else LastFullTime(cycle[..|cycle| - 1])
  }

  /** Near-final frames carry a minute of at least 88. */
  predicate Late(f: Frame, env: Env) {
    env.minuteOf(f.clock).Some? && env.minuteOf(f.clock).value >= 88.0
  }

  function LatestLate(cycle: seq<Frame>, env: Env): (r: Option<Frame>)
    ensures r.Some? ==> Late(r.value, env)
  {
    if cycle == [] then None
    else
      var best, f := LatestLate(cycle[..|cycle| - 1], env), cycle[|cycle| - 1];
      if Late(f, env)
         && (best.None? || env.minuteOf(f.clock).value > env.minuteOf(best.value.clock).value)
      then Some(f) else best
  }

  function FinalScoreOf(cycle: seq<Frame>, env: Env): Option<Score> {
    match LastFullTime(cycle)
    case Some(f) => Some(Score(f.scoreHome, f.scoreAway))
    case None =>
      match LatestLate(cycle, env)
      case Some(f) => Some(Score(f.scoreHome, f.scoreAway))
      case None => None
  }

  method FinalScore(cycle: seq<Frame>, env: Env) returns (score: Option<Score>)
    ensures score == FinalScoreOf(cycle, env)
  {
    var i := |cycle|;
    assert cycle[..i] == cycle;
    while i > 0
      invariant 0 <= i <= |cycle|
      invariant LastFullTime(cycle) == LastFullTime(cycle[..i])
    {
      i := i - 1;
      assert cycle[..i + 1][..i] == cycle[..i];
      if IsFullTime(cycle[i].clock) {
        return Some(Score(cycle[i].scoreHome, cycle[i].scoreAway));
      }
    }
    var best: Option<Frame> := None;
    for j := 0 to |cycle|
      invariant best == LatestLate(cycle[..j], env)
    {
      assert cycle[..j + 1][..j] == cycle[..j];
      var minute := env.minuteOf(cycle[j].clock);
      if minute.None? || minute.value < 88.0 {
        continue;
      }
      if best.None? || minute.value > env.minuteOf(best.value.clock).value {
        best := Some(cycle[j]);
      }
    }
    assert cycle[..|cycle|] == cycle;
    if best.None? {
      return None;
    }
    return Some(Score(best.value.scoreHome, best.value.scoreAway));
  }

  lemma {:induction false} LastFullTimeMeaning(cycle: seq<Frame>) returns (at: nat)
    ensures LastFullTime(cycle).None? ==> forall i :: 0 <= i < |cycle| ==> !IsFullTime(cycle[i].clock)
    ensures LastFullTime(cycle).Some? ==>
      && at < |cycle| && IsFullTime(cycle[at].clock) && LastFullTime(cycle) == Some(cycle[at])
      && forall i :: at < i < |cycle| ==> !IsFullTime(cycle[i].clock)
  {
    at := 0;
    if cycle != [] {
      var n := |cycle| - 1;
      if IsFullTime(cycle[n].clock) {
        at := n;
      } else {
        at := LastFullTimeMeaning(cycle[..n]);
        assert forall i :: 0 <= i < n ==> cycle[..n][i] == cycle[i];
      }
    }
  }

  lemma {:induction false} LatestLateMeaning(cycle: seq<Frame>, env: Env) returns (at: nat)
    ensures LatestLate(cycle, env).None? <==> forall i :: 0 <= i < |cycle| ==> !Late(cycle[i], env)
    ensures LatestLate(cycle, env).Some? ==>
      && at < |cycle| && LatestLate(cycle, env) == Some(cycle[at])
      && (forall i :: 0 <= i < |cycle| && Late(cycle[i], env) ==>
            && env.minuteOf(cycle[i].clock).value <= env.minuteOf(cycle[at].clock).value
            && (i < at ==> env.minuteOf(cycle[i].clock).value < env.minuteOf(cycle[at].clock).value))
  {
    at := 0;
    if cycle != [] {
      var n := |cycle| - 1;
      at := LatestLateMeaning(cycle[..n], env);
      assert forall i :: 0 <= i < n ==> cycle[..n][i] == cycle[i];
      if LatestLate(cycle, env) != LatestLate(cycle[..n], env) || LatestLate(cycle[..n], env).None? {
        at := n;
      }
    }
  }

  /**
   The final score comes from the last full-time frame; without one, from the
   earliest frame that carries the greatest minute of at least 88; and there is
   none exactly when a cycle has neither.
   */
  lemma FinalScoreMeaning(cycle: seq<Frame>, env: Env) returns (at: nat)
    ensures FinalScoreOf(cycle, env).None?
      <==> forall i :: 0 <= i < |cycle| ==>
             && !IsFullTime(cycle[i].clock)
             && (env.minuteOf(cycle[i].clock).Some? ==> env.minuteOf(cycle[i].clock).value < 88.0)
    ensures FinalScoreOf(cycle, env).Some? ==>
      at < |cycle| && FinalScoreOf(cycle, env) == Some(Score(cycle[at].scoreHome, cycle[at].scoreAway))
    ensures (exists i :: 0 <= i < |cycle| && IsFullTime(cycle[i].clock)) ==>
      IsFullTime(cycle[at].clock) && forall i :: at < i < |cycle| ==> !IsFullTime(cycle[i].clock)
    ensures FinalScoreOf(cycle, env).Some? && !IsFullTime(cycle[at].clock) ==>
      && Late(cycle[at], env)
      && forall i :: 0 <= i < |cycle| && Late(cycle[i], env) ==>
           && env.minuteOf(cycle[i].clock).value <= env.minuteOf(cycle[at].clock).value
           && (i < at ==> env.minuteOf(cycle[i].clock).value < env.minuteOf(cycle[at].clock).value)
  {
    at := LastFullTimeMeaning(cycle);
    if LastFullTime(cycle).None? {
      at := LatestLateMeaning(cycle, env);
    }
  }

  // ----- rows -----

  predicate SideWon(side: Side, score: Score) {
    match side
    case Home => score.home > score.away
    case Away => score.away > score.home
    case Draw => score.home == score.away
  }

  function RowOf(snap: Snapshot, side: Side, score: Score, env: Env): Row {
    var key := SideKey(side);
    Row(ScoreInputs(FeatureVector(snap, env.baselineOf(snap.league), env.w), side),
        if SideWon(side, score) then 1 else 0,
        if key in snap.odds && snap.odds[key] != 0.0 then 1.0 / snap.odds[key] else 0.5)
  }

  function SnapshotRows(snaps: seq<Snapshot>, score: Score, env: Env): (r: seq<Row>)
    ensures |r| == 2 * |snaps|
  {
    if snaps == [] then []
    else
      var last := snaps[|snaps| - 1];
      SnapshotRows(snaps[..|snaps| - 1], score, env) + [RowOf(last, Home, score, env), RowOf(last, Away, score, env)]
  }

  function OutputRows(outputs: seq<seq<Snapshot>>, score: Score, env: Env): seq<Row> {
    if outputs == [] then []
    else OutputRows(outputs[..|outputs| - 1], score, env) + SnapshotRows(outputs[|outputs| - 1], score, env)
  }

  /** The cycles that yield rows: a known final score and at least two frames. */
  predicate Used(cycle: seq<Frame>, env: Env) {
    FinalScoreOf(cycle, env).Some? && |cycle| >= 2
  }

  function CycleRows(cycle: seq<Frame>, env: Env): seq<Row>
    requires Used(cycle, env)
  {
    OutputRows(ReplayOutputs(EMPTY_STUDY, cycle, env.w), FinalScoreOf(cycle, env).value, env)
  }

  /** The rows of each used cycle, in cycle order. */
  function RowParts(cycles: seq<seq<Frame>>, env: Env): seq<seq<Row>> {
    if cycles == [] then []
    else
      var parts, last := RowParts(cycles[..|cycles| - 1], env), cycles[|cycles| - 1];
      if Used(last, env) then parts + [CycleRows(last, env)] else parts
  }

  function FramesUsed(cycles: seq<seq<Frame>>, env: Env): nat {
    if cycles == [] then 0
    else
      var last := cycles[|cycles| - 1];
      FramesUsed(cycles[..|cycles| - 1], env) + if Used(last, env) then |last| else 0
  }

  /** The frames of the cycles without a final score or with a single frame. */
  function FramesSkipped(cycles: seq<seq<Frame>>, env: Env): nat {
    if cycles == [] then 0
    else
      var last := cycles[|cycles| - 1];
      FramesSkipped(cycles[..|cycles| - 1], env)
      + if FinalScoreOf(last, env).None? || |last| <= 1 then |last| else 0
  }

  lemma {:induction false} LengthsSplit(cycles: seq<seq<Frame>>, env: Env)
    ensures FramesUsed(cycles, env) + FramesSkipped(cycles, env) == TotalLength(cycles)
  {
    if cycles != [] {
      LengthsSplit(cycles[..|cycles| - 1], env);
    }
  }

  /** Every frame of the history is reported as used or belongs to a skipped cycle. */
  lemma FramesCounted(frames: seq<Frame>, env: Env)
    ensures FramesUsed(Cycles(frames), env) + FramesSkipped(Cycles(frames), env) == |frames|
  {
    LengthsSplit(Cycles(frames), env);
    CyclesPartition(frames);
  }

  function Concat<T>(parts: seq<seq<T>>): seq<T> {
    if parts == [] then [] else Concat(parts[..|parts| - 1]) + parts[|parts| - 1]
  }

  function Lengths<T>(parts: seq<seq<T>>): (r: seq<int>)
    ensures |r| == |parts|
  {
    seq(|parts|, i requires 0 <= i < |parts| => |parts[i]|)
  }

  function Sum(s: seq<int>): int {
    if s == [] then 0 else Sum(s[..|s| - 1]) + s[|s| - 1]
  }

  /** A cycle yields rows exactly when it has a final score and more than one frame. */
  lemma {:induction false} PartsAre(cycles: seq<seq<Frame>>, env: Env, part: seq<Row>)
    ensures part in RowParts(cycles, env)
      <==> exists i :: 0 <= i < |cycles| && FinalScoreOf(cycles[i], env).Some? && |cycles[i]| > 1
                       && part == CycleRows(cycles[i], env)
  {
    if cycles != [] {
      var n := |cycles| - 1;
      PartsAre(cycles[..n], env, part);
      assert forall i :: 0 <= i < n ==> cycles[..n][i] == cycles[i];
    }
  }

  lemma ConcatAppend<T>(parts: seq<seq<T>>, part: seq<T>)
    ensures Concat(parts + [part]) == Concat(parts) + part
    ensures Lengths(parts + [part]) == Lengths(parts) + [|part|]
  {
    assert (parts + [part])[..|parts|] == parts;
  }

  method RowPairs(snaps: seq<Snapshot>, score: Score, env: Env) returns (rows: seq<Row>)
    ensures rows == SnapshotRows(snaps, score, env)
  {
    rows := [];
    for j := 0 to |snaps|
      invariant rows == SnapshotRows(snaps[..j], score, env)
    {
      assert snaps[..j + 1][..j] == snaps[..j];
      rows := rows + [RowOf(snaps[j], Home, score, env), RowOf(snaps[j], Away, score, env)];
    }
    assert snaps[..|snaps|] == snaps;
  }

  /** Replay one cycle through a fresh study, in the order frame, snapshot, side. */
  method ReplayRows(cycle: seq<Frame>, score: Score, env: Env) returns (rows: seq<Row>)
    ensures rows == OutputRows(ReplayOutputs(EMPTY_STUDY, cycle, env.w), score, env)
  {
    var study := new FeatureStudy(env.w);
    rows := [];
    ghost var outputs: seq<seq<Snapshot>> := [];
    for i := 0 to |cycle|
      invariant study.seconds == env.w
      invariant study.State() == ReplayState(EMPTY_STUDY, cycle[..i], env.w)
      invariant outputs == ReplayOutputs(EMPTY_STUDY, cycle[..i], env.w)
      invariant rows == OutputRows(outputs, score, env)
    {
      var snaps := study.ObserveMany(cycle[i], cycle[i].epoch, cycle[i].replayClock);
      ReplayNext(cycle, i, env.w);
      var pairs := RowPairs(snaps, score, env);
      assert (outputs + [snaps])[..|outputs|] == outputs;
      outputs, rows := outputs + [snaps], rows + pairs;
    }
    assert cycle[..|cycle|] == cycle;
  }

  lemma ReplayNext(cycle: seq<Frame>, i: nat, w: nat)
    requires i < |cycle|
    ensures var s := ReplayState(EMPTY_STUDY, cycle[..i], w);
            && ReplayOutputs(EMPTY_STUDY, cycle[..i + 1], w)
               == ReplayOutputs(EMPTY_STUDY, cycle[..i], w) + [Snapshots(s, cycle[i], ReplayNow(cycle[i]), Some(w))]
            && ReplayState(EMPTY_STUDY, cycle[..i + 1], w) == Observed(s, cycle[i], ReplayNow(cycle[i]), Some(w))
  {
    var s := ReplayState(EMPTY_STUDY, cycle[..i], w);
    assert cycle[..i + 1] == cycle[..i] + [cycle[i]];
    ReplayAppend(EMPTY_STUDY, cycle[..i], [cycle[i]], w);
    ReplayStateAppend(EMPTY_STUDY, cycle[..i], [cycle[i]], w);
    assert [cycle[i]][1..] == [];
  }

  lemma {:induction false} ReplayStateAppend(r: StudyState, a: seq<Frame>, b: seq<Frame>, w: nat)
    ensures ReplayState(r, a + b, w) == ReplayState(ReplayState(r, a, w), b, w)
    decreases a
  {
    if a == [] {
      assert a + b == b;
    } else {
      assert (a + b)[1..] == a[1..] + b;
      ReplayStateAppend(Observed(r, a[0], ReplayNow(a[0]), Some(w)), a[1..], b, w);
    }
  }

  method CollectRows(cycles: seq<seq<Frame>>, env: Env)
    returns (rows: seq<Row>, sizes: seq<int>, report: Report)
    ensures rows == Concat(RowParts(cycles, env))
    ensures sizes == Lengths(RowParts(cycles, env))
    ensures report == Report(|sizes|, FramesUsed(cycles, env), |rows|)
  {
    rows, sizes, report := [], [], Report(0, 0, 0);
    ghost var parts: seq<seq<Row>> := [];
    for i := 0 to |cycles|
      invariant parts == RowParts(cycles[..i], env)
      invariant rows == Concat(parts) && sizes == Lengths(parts)
      invariant report == Report(|sizes|, FramesUsed(cycles[..i], env), |rows|)
    {
      assert cycles[..i + 1][..i] == cycles[..i];
      var score := FinalScore(cycles[i], env);
      if score.None? || |cycles[i]| < 2 {
        continue;
      }
      var added := ReplayRows(cycles[i], score.value, env);
      ConcatAppend(parts, added);
      parts, rows, sizes := parts + [added], rows + added, sizes + [|added|];
      report := Report(report.cycles + 1, report.frames + |cycles[i]|, report.snapshots + |added|);
    }
    assert cycles[..|cycles|] == cycles;
  }

  lemma {:induction false} ConcatLength<T>(parts: seq<seq<T>>)
    ensures Sum(Lengths(parts)) == |Concat(parts)|
  {
    if parts != [] {
      var n := |parts| - 1;
      assert Lengths(parts)[..n] == Lengths(parts[..n]);
      ConcatLength(parts[..n]);
    }
  }

  lemma {:induction false} ConcatSplit<T>(parts: seq<seq<T>>, k: nat)
    requires k <= |parts|
    ensures Concat(parts) == Concat(parts[..k]) + Concat(parts[k..])
  {
    if k == |parts| {
      assert parts[..k] == parts && parts[k..] == [];
    } else {
      var n := |parts| - 1;
      ConcatSplit(parts[..n], k);
      assert parts[..n][..k] == parts[..k] && parts[k..] == parts[..n][k..] + [parts[n]];
      ConcatAppend(parts[..n][k..], parts[n]);
    }
  }

  /** Taking the rows up to the sum of the first k cycle sizes is taking the rows of the first k cycles. */
  lemma SplitAfter<T>(parts: seq<seq<T>>, k: nat)
    requires k <= |parts|
    ensures var cut := Sum(Lengths(parts)[..k]);
            && 0 <= cut <= |Concat(parts)|
            && Concat(parts)[..cut] == Concat(parts[..k]) && Concat(parts)[cut..] == Concat(parts[k..])
  {
    ConcatSplit(parts, k);
    ConcatLength(parts[..k]);
    assert Lengths(parts)[..k] == Lengths(parts[..k]);
  }

  /** The first 80 per cent of the cycles, but at least one. */
  function SplitCount(n: nat): nat {
    var k := (n as real * 0.8).Floor;
    if k < 1 then 1 else k
  }

  /**
   The train/validation split never cuts a cycle in two: training gets the rows of
   the first 80 per cent of the cycles and at least one, validation those of the
   rest, which are some cycles exactly when there are two or more.
   */
  lemma SplitAtCycle<T>(parts: seq<seq<T>>)
    requires parts != []
    ensures var k := SplitCount(|parts|);
            && 1 <= k <= |parts| && (k < |parts| <==> |parts| >= 2)
            && (|parts| >= 2 ==> 5 * k <= 4 * |parts| < 5 * (k + 1))
            && var cut := Sum(Lengths(parts)[..k]);
               && 0 <= cut <= |Concat(parts)|
               && Concat(parts)[..cut] == Concat(parts[..k]) && Concat(parts)[cut..] == Concat(parts[k..])
  {
    SplitAfter(parts, SplitCount(|parts|));
  }

  lemma KeyOfCycle(frames: seq<Frame>, key: Key) returns (i: nat)
    requires CycleOf(frames, key) != []
    ensures i < |Cycles(frames)| && Cycles(frames)[i] == CycleOf(frames, key)
  {
    KeyAppears(frames, key);
    i :| 0 <= i < |Keys(frames)| && Keys(frames)[i] == key;
  }

  lemma {:induction false} KeyAppears(frames: seq<Frame>, key: Key)
    requires CycleOf(frames, key) != []
    ensures key in Keys(frames)
  {
    var init, last := frames[..|frames| - 1], frames[|frames| - 1];
    assert frames == init + [last] && [last][1..] == [];
    CycleAppend(init, [last], key);
    if KeyOf(last) != key {
      KeyAppears(init, key);
    }
  }

  /** Where replay is exact, the training rows are the rows of the live snapshots, cut history or not. */
  lemma TrainingRowsAreLive(
    lost: seq<Frame>, before: seq<Frame>, during: seq<Frame>, after: seq<Frame>, key: Key, first: real, env: Env)
    requires Silent(before, key) && Own(during, key) && Silent(after, key)
    requires ClockRises(lost + before + during, key.matchId, first)
    requires FinalScoreOf(CycleOf(before + during + after, key), env).Some?
    requires |CycleOf(before + during + after, key)| > 1
    requires ClocksAgree(CycleOf(before + during + after, key))
    requires CountersFresh(Peak(lost + before, key.matchId), CycleOf(during, key))
    requires Resumes(during, key, env.w, Opening(lost + before, key.matchId))
    ensures var held := before + during + after;
            var score := FinalScoreOf(CycleOf(held, key), env).value;
            OutputRows(LiveOutputsOf(LiveState(EMPTY_STUDY, lost, Some(env.w)), held, key, env.w), score, env)
              in RowParts(Cycles(held), env)
  {
    var held := before + during + after;
    ParityExact(lost, before, during, after, key, first, env.w);
    var i := KeyOfCycle(held, key);
    PartsAre(Cycles(held), env, CycleRows(CycleOf(held, key), env));
  }

  /**
   Whatever the clocks, the cuts, the restarts and the shed frames: in any history
   in which the cycle's counters are its own, each replayed row of a common frame
   agrees with the live one on the shot accuracy gap, the trailing flag, the label
   and the implied probability.
   */
  lemma ClockFreeRows(
    history: seq<Sighting>, key: Key, k: nat, i: nat, side: Side, score: Score, env: Env)
    requires AllOwn(history, key)
    requires k < |LiveCommon(history, key, env.w)| && i < |LiveCommon(history, key, env.w)[k]|
    ensures var live, replay := LiveCommon(history, key, env.w), ReplayCommon(history, key, env.w);
            && |replay| == |live| && |replay[k]| == |live[k]|
            && var a, b := RowOf(live[k][i], side, score, env), RowOf(replay[k][i], side, score, env);
               && a.inputs[3] == b.inputs[3] && a.inputs[4] == b.inputs[4]
               && a.won == b.won && a.implied == b.implied
  {
    var live, replay := LiveCommon(history, key, env.w), ReplayCommon(history, key, env.w);
    CoreParity(history, key, env.w);
    assert CoreLists(live)[k] == CoresOf(live[k]) && CoreLists(replay)[k] == CoresOf(replay[k]);
    assert CoresOf(live[k])[i] == CoreOf(live[k][i]) && CoresOf(replay[k])[i] == CoreOf(replay[k][i]);
    RowFromCore(live[k][i], replay[k][i], side, score, env);
  }

  lemma RowFromCore(x: Snapshot, y: Snapshot, side: Side, score: Score, env: Env)
    requires CoreOf(x) == CoreOf(y)
    ensures var a, b := RowOf(x, side, score, env), RowOf(y, side, score, env);
            && a.inputs[3] == b.inputs[3] && a.inputs[4] == b.inputs[4]
            && a.won == b.won && a.implied == b.implied
  {
    assert ShotAccuracy(x) == ShotAccuracy(y);
  }

  /** A training label says exactly what the executor's grading would say of a bet on that side. */
  lemma LabelsMatchGrading(snap: Snapshot, side: Side, score: Score, env: Env)
    ensures RowOf(snap, side, score, env).won == 1
      <==> Settle.OutcomeFor(SideKey(side), score.home as real, score.away as real) == Settle.Won
    ensures SideKey(side) in snap.odds && snap.odds[SideKey(side)] != 0.0 ==>
      RowOf(snap, side, score, env).implied * snap.odds[SideKey(side)] == 1.0
    ensures (SideKey(side) in snap.odds ==> snap.odds[SideKey(side)] == 0.0) ==>
      RowOf(snap, side, score, env).implied == 0.5
  {
    assert SideKey(Home)[0] != SideKey(Away)[0] && SideKey(Draw)[0] != SideKey(Away)[0];
    assert SideKey(Home)[0] != SideKey(Draw)[0];
  }

  /** A drawn cycle labels both legs lost; any other cycle labels exactly one leg won. */
  lemma {:induction false} LabelBalance(snaps: seq<Snapshot>, score: Score, env: Env, i: nat)
    requires i < |snaps|
    ensures var rows := SnapshotRows(snaps, score, env);
            var features := FeatureVector(snaps[i], env.baselineOf(snaps[i].league), env.w);
            && rows[2 * i].inputs == ScoreInputs(features, Home)
            && rows[2 * i + 1].inputs == ScoreInputs(features, Away)
            && (rows[2 * i].won == 1 <==> score.home > score.away)
            && (rows[2 * i + 1].won == 1 <==> score.away > score.home)
            && rows[2 * i].won + rows[2 * i + 1].won == if score.home == score.away then 0 else 1
  {
    if i < |snaps| - 1 {
      LabelBalance(snaps[..|snaps| - 1], score, env, i);
    }
  }
}
