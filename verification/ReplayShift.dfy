/**
 Replay under a clock that is off by whole minutes: the 60-second buckets move
 with it, and the training rows do not change.
 */
module ReplayShift {
  import opened Options
  import opened Study
  import opened Features
  import opened Replay
  import opened ReplayExact
  import opened Training

  function LaterEntry(e: Entry, d: real): Entry {
    e.(ts := e.ts + d)
  }

  function Later(s: seq<Entry>, d: real): (r: seq<Entry>)
    ensures |r| == |s|
  {
    seq(|s|, i requires 0 <= i < |s| => LaterEntry(s[i], d))
  }

  /** Whole minutes, and no time before zero on either clock. */
  ghost predicate Shifts(s: seq<Entry>, d: real, n: int) {
    d == 60.0 * n as real && forall i :: 0 <= i < |s| ==> 0.0 <= s[i].ts && 0.0 <= s[i].ts + d
  }

  lemma BucketLater(e: Entry, d: real, n: int)
    requires Shifts([e], d, n)
    ensures BucketOf(LaterEntry(e, d)) == BucketOf(e) + n
  {
    assert [e][0] == e;
    var x := e.ts / 60.0;
    assert (e.ts + d) / 60.0 == x + n as real;
    assert (x + n as real).Floor == x.Floor + n;
  }

  ghost predicate LaterBuckets(a: Buckets, b: Buckets, d: real, n: int) {
    && |a.order| == |b.order| && (forall i :: 0 <= i < |a.order| ==> b.order[i] == a.order[i] + n)
    && (forall k :: k in a.at ==> k + n in b.at && b.at[k + n] == LaterEntry(a.at[k], d))
    && (forall k :: k in b.at ==> k - n in a.at)
  }

  /** What a deposit leaves in its bucket. */
  function Filled(b: Buckets, e: Entry): Entry {
    var k := BucketOf(e);
    var base := if k in b.at then b.at[k] else Entry(e.ts, e.clock, e.scoreHome, e.scoreAway, ZERO, 0.5);
    base.(counts := Join(base.counts, e.counts), possession := e.possession)
  }

  function Put(b: Buckets, k: int, e: Entry): Buckets {
    Buckets(if k in b.at then b.order else b.order + [k], b.at[k := e])
  }

  lemma PutLater(a: Buckets, b: Buckets, k: int, e: Entry, d: real, n: int)
    requires LaterBuckets(a, b, d, n) && (k in a.at <==> k + n in b.at)
    ensures LaterBuckets(Put(a, k, e), Put(b, k + n, LaterEntry(e, d)), d, n)
  {}

  lemma DepositLater(a: Buckets, b: Buckets, e: Entry, d: real, n: int)
    requires LaterBuckets(a, b, d, n) && Shifts([e], d, n)
    ensures LaterBuckets(Deposit(a, e), Deposit(b, LaterEntry(e, d)), d, n)
  {
    BucketLater(e, d, n);
    var k := BucketOf(e);
    assert k + n in b.at ==> k + n - n in a.at;
    PutLater(a, b, k, Filled(a, e), d, n);
    assert Filled(b, LaterEntry(e, d)) == LaterEntry(Filled(a, e), d);
    assert Deposit(a, e) == Put(a, k, Filled(a, e));
    assert Deposit(b, LaterEntry(e, d)) == Put(b, k + n, LaterEntry(Filled(a, e), d));
  }

  lemma {:induction false} DepositsLater(s: seq<Entry>, d: real, n: int)
    requires Shifts(s, d, n)
    ensures LaterBuckets(Deposits(s), Deposits(Later(s, d)), d, n)
  {
    if s != [] {
      var m := |s| - 1;
      DepositsLater(s[..m], d, n);
      assert Later(s, d)[..m] == Later(s[..m], d);
      assert Shifts([s[m]], d, n);
      DepositLater(Deposits(s[..m]), Deposits(Later(s[..m], d)), s[m], d, n);
    }
  }

  lemma {:induction false} InsertLater(e: Entry, s: seq<Entry>, d: real)
    ensures InsertByTs(LaterEntry(e, d), Later(s, d)) == Later(InsertByTs(e, s), d)
  {
    if s == [] {
      assert Later(s, d) == [];
    } else {
      var m := |s| - 1;
      assert Later(s, d)[..m] == Later(s[..m], d);
      if s[m].ts <= e.ts {
        assert Later(s + [e], d) == Later(s, d) + [LaterEntry(e, d)];
      } else {
        InsertLater(e, s[..m], d);
        assert Later(InsertByTs(e, s[..m]) + [s[m]], d) == Later(InsertByTs(e, s[..m]), d) + [LaterEntry(s[m], d)];
      }
    }
  }

  lemma {:induction false} SortLater(s: seq<Entry>, d: real)
    ensures SortByTs(Later(s, d)) == Later(SortByTs(s), d)
  {
    if s == [] {
      assert Later(s, d) == [];
    } else {
      var m := |s| - 1;
      SortLater(s[..m], d);
      assert Later(s, d)[..m] == Later(s[..m], d);
      InsertLater(s[m], SortByTs(s[..m]), d);
    }
  }

  lemma ValuesLater(a: Buckets, b: Buckets, d: real, n: int)
    requires LaterBuckets(a, b, d, n) && ValidBuckets(a) && ValidBuckets(b)
    ensures BucketValues(b.order, b.at) == Later(BucketValues(a.order, a.at), d)
  {
    var x, y := BucketValues(a.order, a.at), BucketValues(b.order, b.at);
    forall i | 0 <= i < |x|
      ensures y[i] == LaterEntry(x[i], d)
    {
      var k := a.order[i];
      assert k in a.at && b.order[i] == k + n;
    }
  }

  /** Folding a later window gives the fold, later. */
  lemma AggregatedLater(s: seq<Entry>, d: real, n: int)
    requires Shifts(s, d, n)
    ensures Aggregated(Later(s, d)) == Later(Aggregated(s), d)
  {
    DepositsLater(s, d, n);
    var a, b := Deposits(s), Deposits(Later(s, d));
    ValuesLater(a, b, d, n);
    SortLater(BucketValues(a.order, a.at), d);
  }

  lemma {:induction false} TotalsLater(s: seq<Entry>, d: real)
    ensures Totals(Later(s, d)) == Totals(s) && PossessionSum(Later(s, d)) == PossessionSum(s)
  {
    if s != [] {
      TotalsLater(s[1..], d);
      assert Later(s, d)[1..] == Later(s[1..], d);
    }
  }

  lemma {:induction false} SinceLater(s: seq<Entry>, c: real, d: real)
    ensures Since(Later(s, d), c + d) == Later(Since(s, c), d)
  {
    if s == [] {
      assert Later(s, d) == [];
    } else {
      var m := |s| - 1;
      SinceLater(s[..m], c, d);
      assert Later(s, d)[..m] == Later(s[..m], d);
      assert Later(Since(s[..m], c) + [s[m]], d) == Later(Since(s[..m], c), d) + [LaterEntry(s[m], d)];
    }
  }

  // ----- a later study -----

  function LaterSnapshot(s: Snapshot, d: real): Snapshot {
    s.(windowStart := s.windowStart + d, windowEnd := s.windowEnd + d)
  }

  function LaterSnapshots(s: seq<Snapshot>, d: real): (r: seq<Snapshot>)
    ensures |r| == |s|
  {
    seq(|s|, i requires 0 <= i < |s| => LaterSnapshot(s[i], d))
  }

  function LaterLists(s: seq<seq<Snapshot>>, d: real): (r: seq<seq<Snapshot>>)
    ensures |r| == |s|
  {
    seq(|s|, i requires 0 <= i < |s| => LaterSnapshots(s[i], d))
  }

  ghost predicate LaterStudy(s: StudyState, t: StudyState, m: string, d: real, n: int) {
    Guard(t, m) == Guard(s, m) && Window(t, m) == Later(Window(s, m), d) && Shifts(Window(s, m), d, n)
  }

  lemma SlideLater(win: seq<Entry>, e: Entry, c: real, d: real, n: int)
    requires Shifts(win, d, n) && Shifts([e], d, n)
    ensures Since(Later(win, d) + [LaterEntry(e, d)], c + d) == Later(Since(win + [e], c), d)
    ensures Shifts(Since(win + [e], c), d, n)
  {
    assert Later(win + [e], d) == Later(win, d) + [LaterEntry(e, d)];
    SinceLater(win + [e], c, d);
    SinceMembers(win + [e], c);
    var kept := Since(win + [e], c);
    assert [e][0] == e;
    forall i | 0 <= i < |kept|
      ensures 0.0 <= kept[i].ts && 0.0 <= kept[i].ts + d
    {
      assert kept[i] in kept && kept[i] in win + [e];
    }
  }

  lemma SlidLater(s: StudyState, t: StudyState, f: Frame, now: real, d: real, n: int, w: nat)
    requires LaterStudy(s, t, f.matchId, d, n) && 0.0 <= now && 0.0 <= now + d
    ensures Slid(t, f, now + d, Some(w)) == Later(Slid(s, f, now, Some(w)), d)
    ensures Shifts(Slid(s, f, now, Some(w)), d, n)
  {
    var e := EntryOf(f, Guard(s, f.matchId), now);
    SlideLater(Window(s, f.matchId), e, now - w as real, d, n);
    assert LaterEntry(e, d) == EntryOf(f, Guard(t, f.matchId), now + d);
    assert now + d - w as real == now - w as real + d;
  }

  lemma SnapshotLater(f: Frame, market: Market, win: seq<Entry>, now: real, d: real, n: int)
    requires win != [] && Shifts(win, d, n)
    ensures SnapshotOf(f, market, Later(win, d), now + d) == LaterSnapshot(SnapshotOf(f, market, win, now), d)
  {
    AggregatedLater(win, d, n);
    TotalsLater(Aggregated(win), d);
  }

  lemma SnapshotsLater(s: StudyState, t: StudyState, f: Frame, now: real, d: real, n: int, w: nat)
    requires LaterStudy(s, t, f.matchId, d, n) && (Ingestible(f) ==> 0.0 <= now && 0.0 <= now + d)
    ensures Snapshots(t, f, now + d, Some(w)) == LaterSnapshots(Snapshots(s, f, now, Some(w)), d)
    ensures LaterStudy(Observed(s, f, now, Some(w)), Observed(t, f, now + d, Some(w)), f.matchId, d, n)
  {
    if Ingestible(f) {
      SlidLater(s, t, f, now, d, n, w);
      var win := Slid(s, f, now, Some(w));
      forall i | 0 <= i < |f.markets|
        ensures SnapshotOf(f, f.markets[i], Later(win, d), now + d)
          == LaterSnapshot(SnapshotOf(f, f.markets[i], win, now), d)
      {
        SnapshotLater(f, f.markets[i], win, now, d, n);
      }
    }
  }

  /** A frame as a live clock d seconds behind would have seen it. */
  function Lag(f: Frame, d: real): Frame {
    f.(liveClock := f.liveClock - d)
  }

  function Behind(frames: seq<Frame>, d: real): (r: seq<Frame>)
    ensures |r| == |frames|
  {
    seq(|frames|, i requires 0 <= i < |frames| => Lag(frames[i], d))
  }

  predicate ClockFits(f: Frame, m: string, d: real) {
    f.matchId == m && Ingestible(f) ==> 0.0 <= f.liveClock && 0.0 <= f.liveClock - d
  }

  ghost predicate ClocksFit(frames: seq<Frame>, m: string, d: real) {
    forall i :: 0 <= i < |frames| ==> ClockFits(frames[i], m, d)
  }

  lemma SettledLater(s: StudyState, t: StudyState, f: Frame, m: string, d: real, n: int)
    requires LaterStudy(s, t, m, d, n)
    ensures LaterStudy(Settled(s, Lag(f, d)), Settled(t, f), m, d, n)
  {
    assert Later([], d) == [];
  }

  /** What a frame does at a given instant does not depend on its live clock. */
  lemma SameFrame(t: StudyState, f: Frame, d: real, now: real, w: nat)
    ensures Observed(t, Lag(f, d), now, Some(w)) == Observed(t, f, now, Some(w))
    ensures Snapshots(t, Lag(f, d), now, Some(w)) == Snapshots(t, f, now, Some(w))
  {
    var a, b := Snapshots(t, Lag(f, d), now, Some(w)), Snapshots(t, f, now, Some(w));
    assert forall i :: 0 <= i < |a| ==> a[i] == b[i];
  }

  lemma OtherLater(s: StudyState, t: StudyState, f: Frame, m: string, d: real, n: int, w: nat)
    requires LaterStudy(s, t, m, d, n) && f.matchId != m
    ensures LaterStudy(LiveStep(s, Lag(f, d), Some(w)), LiveStep(t, f, Some(w)), m, d, n)
  {}

  lemma OwnLater(s: StudyState, t: StudyState, f: Frame, d: real, n: int, w: nat)
    requires LaterStudy(s, t, f.matchId, d, n) && ClockFits(f, f.matchId, d)
    ensures LaterStudy(LiveStep(s, Lag(f, d), Some(w)), LiveStep(t, f, Some(w)), f.matchId, d, n)
    ensures LiveOutput(t, f, Some(w)) == LaterSnapshots(LiveOutput(s, Lag(f, d), Some(w)), d)
  {
    var g := Lag(f, d);
    var a, b := Settled(s, g), Settled(t, f);
    SettledLater(s, t, f, f.matchId, d, n);
    SnapshotsLater(a, b, g, g.liveClock, d, n, w);
    SameFrame(b, f, d, f.liveClock, w);
    assert g.liveClock + d == f.liveClock;
  }

  lemma BehindTail(frames: seq<Frame>, m: string, d: real)
    requires frames != [] && ClocksFit(frames, m, d)
    ensures Behind(frames, d)[1..] == Behind(frames[1..], d) && Behind(frames, d)[0] == Lag(frames[0], d)
    ensures ClocksFit(frames[1..], m, d) && ClockFits(frames[0], m, d)
  {}

  lemma LaterCons(x: seq<Snapshot>, rest: seq<seq<Snapshot>>, d: real)
    ensures LaterLists([x] + rest, d) == [LaterSnapshots(x, d)] + LaterLists(rest, d)
  {}

  lemma {:induction false} RunLater(
    s: StudyState, t: StudyState, frames: seq<Frame>, key: Key, d: real, n: int, w: nat)
    requires LaterStudy(s, t, key.matchId, d, n) && ClocksFit(frames, key.matchId, d)
    ensures LiveOutputsOf(t, frames, key, w) == LaterLists(LiveOutputsOf(s, Behind(frames, d), key, w), d)
    decreases frames
  {
    if frames != [] {
      var f := frames[0];
      var s', t' := LiveStep(s, Lag(f, d), Some(w)), LiveStep(t, f, Some(w));
      BehindTail(frames, key.matchId, d);
      if f.matchId == key.matchId {
        OwnLater(s, t, f, d, n, w);
      } else {
        OtherLater(s, t, f, key.matchId, d, n, w);
      }
      RunLater(s', t', frames[1..], key, d, n, w);
      LaterCons(LiveOutput(s, Lag(f, d), Some(w)), LiveOutputsOf(s', Behind(frames[1..], d), key, w), d);
    }
  }

  lemma {:induction false} StateLater(
    s: StudyState, t: StudyState, frames: seq<Frame>, m: string, d: real, n: int, w: nat)
    requires LaterStudy(s, t, m, d, n) && ClocksFit(frames, m, d)
    ensures LaterStudy(LiveState(s, Behind(frames, d), Some(w)), LiveState(t, frames, Some(w)), m, d, n)
    decreases frames
  {
    if frames != [] {
      var f := frames[0];
      BehindTail(frames, m, d);
      if f.matchId == m {
        OwnLater(s, t, f, d, n, w);
      } else {
        OtherLater(s, t, f, m, d, n, w);
      }
      StateLater(LiveStep(s, Lag(f, d), Some(w)), LiveStep(t, f, Some(w)), frames[1..], m, d, n, w);
    }
  }

  lemma {:induction false} ReplayBehind(r: StudyState, frames: seq<Frame>, key: Key, d: real, w: nat)
    ensures ReplayOutputs(r, CycleOf(Behind(frames, d), key), w) == ReplayOutputs(r, CycleOf(frames, key), w)
    decreases frames
  {
    if frames != [] {
      var f := frames[0];
      assert Behind(frames, d)[1..] == Behind(frames[1..], d) && Behind(frames, d)[0] == Lag(f, d);
      if KeyOf(f) == key {
        SameFrame(r, f, d, ReplayNow(f), w);
        ReplayBehind(Observed(r, f, ReplayNow(f), Some(w)), frames[1..], key, d, w);
        CycleHead(frames, key);
        CycleHead(Behind(frames, d), key);
      } else {
        ReplayBehind(r, frames[1..], key, d, w);
      }
    }
  }

  // ----- the rows -----

  lemma RowLater(s: Snapshot, d: real, side: Side, score: Score, env: Env)
    ensures RowOf(LaterSnapshot(s, d), side, score, env) == RowOf(s, side, score, env)
  {
    var t := LaterSnapshot(s, d);
    assert t.windowEnd - t.windowStart == s.windowEnd - s.windowStart;
    assert FeatureVector(t, env.baselineOf(t.league), env.w) == FeatureVector(s, env.baselineOf(s.league), env.w);
  }

  lemma {:induction false} SnapshotRowsLater(snaps: seq<Snapshot>, d: real, score: Score, env: Env)
    ensures SnapshotRows(LaterSnapshots(snaps, d), score, env) == SnapshotRows(snaps, score, env)
  {
    if snaps != [] {
      var m := |snaps| - 1;
      SnapshotRowsLater(snaps[..m], d, score, env);
      assert LaterSnapshots(snaps, d)[..m] == LaterSnapshots(snaps[..m], d);
      RowLater(snaps[m], d, Home, score, env);
      RowLater(snaps[m], d, Away, score, env);
    }
  }

  lemma {:induction false} OutputRowsLater(outputs: seq<seq<Snapshot>>, d: real, score: Score, env: Env)
    ensures OutputRows(LaterLists(outputs, d), score, env) == OutputRows(outputs, score, env)
  {
    if outputs != [] {
      var m := |outputs| - 1;
      OutputRowsLater(outputs[..m], d, score, env);
      assert LaterLists(outputs, d)[..m] == LaterLists(outputs[..m], d);
      SnapshotRowsLater(outputs[m], d, score, env);
    }
  }

  /**
   A live clock that is off by n whole minutes against the receive times costs
   nothing: whenever replay would be exact without the lag, the training rows are
   the rows of the live snapshots.
   */
  lemma LaggingRows(
    lost: seq<Frame>, held: seq<Frame>, key: Key, d: real, n: int, score: Score, env: Env)
    requires d == 60.0 * n as real && ClocksFit(lost, key.matchId, d) && ClocksFit(held, key.matchId, d)
    requires Exact(Behind(lost, d), Behind(held, d), key, env.w)
    ensures OutputRows(LiveOutputsOf(LiveState(EMPTY_STUDY, lost, Some(env.w)), held, key, env.w), score, env)
      == OutputRows(ReplayOutputs(EMPTY_STUDY, CycleOf(held, key), env.w), score, env)
  {
    assert Window(EMPTY_STUDY, key.matchId) == [] && Later([], d) == [];
    var s, t := LiveState(EMPTY_STUDY, Behind(lost, d), Some(env.w)), LiveState(EMPTY_STUDY, lost, Some(env.w));
    StateLater(EMPTY_STUDY, EMPTY_STUDY, lost, key.matchId, d, n, env.w);
    RunLater(s, t, held, key, d, n, env.w);
    ReplayBehind(EMPTY_STUDY, held, key, d, env.w);
    OutputRowsLater(LiveOutputsOf(s, Behind(held, d), key, env.w), d, score, env);
  }
}
