/**
 What offline replay preserves whatever the clocks did: of each snapshot the
 score, the odds and the counters, but not its window and its mean possession.
 */
module ReplayCore {
  import opened Options
  import opened Study
  import opened Replay

  /** A snapshot without what depends on the clock. */
  datatype Core = Core(
    matchId: string, marketId: string, league: string, clock: string,
    scoreHome: int, scoreAway: int, odds: map<string, real>, counts: Counters)

  function CoreOf(s: Snapshot): Core {
    Core(s.matchId, s.marketId, s.league, s.clock, s.scoreHome, s.scoreAway, s.odds, s.counts)
  }

  function CoresOf(snaps: seq<Snapshot>): (r: seq<Core>)
    ensures |r| == |snaps|
  {
    seq(|snaps|, i requires 0 <= i < |snaps| => CoreOf(snaps[i]))
  }

  /** The cores a frame yields when the guard, once raised, stands at the given counters. */
  function FrameCores(f: Frame, counts: Counters): seq<Core> {
    if !Ingestible(f) then []
    else
      seq(|f.markets|, i requires 0 <= i < |f.markets| =>
        Core(f.matchId, f.markets[i].id, f.league, f.clock, f.scoreHome, f.scoreAway, ScopedOdds(f.markets[i]), counts))
  }

  lemma SnapshotCores(s: StudyState, f: Frame, now: real, w: nat)
    requires Guarded(s, f.matchId)
    ensures CoresOf(Snapshots(s, f, now, Some(w))) == FrameCores(f, Join(Guard(s, f.matchId), f.counts))
  {
    if Ingestible(f) {
      SnapshotTotals(s, f, now, Some(w));
      var snaps := Snapshots(s, f, now, Some(w));
      forall i | 0 <= i < |snaps|
        ensures CoreOf(snaps[i]) == FrameCores(f, Join(Guard(s, f.matchId), f.counts))[i]
      {
        SnapshotIsCurrent(s, f, i, now, w);
        assert snaps[i] in snaps;
      }
    }
  }

  /** Different counters give different cores, as an ingestible frame has a market. */
  lemma CoresTell(f: Frame, a: Counters, b: Counters)
    ensures FrameCores(f, a) == FrameCores(f, b) <==> !Ingestible(f) || a == b
  {
    if Ingestible(f) {
      assert FrameCores(f, a)[0].counts == a && FrameCores(f, b)[0].counts == b;
    }
  }

  /** The replay study's guard is the peak of the cycle so far. */
  lemma {:induction false} ReplayGuardIsPeak(r: StudyState, cycle: seq<Frame>, m: string, w: nat)
    requires Guarded(r, m)
    ensures Guarded(ReplayState(r, cycle, w), m)
    ensures Guard(ReplayState(r, cycle, w), m) == Join(Guard(r, m), Peak(cycle, m))
    decreases cycle
  {
    if cycle != [] {
      ObservedGuarded(r, cycle[0], m, ReplayNow(cycle[0]), Some(w));
      ReplayGuardIsPeak(Observed(r, cycle[0], ReplayNow(cycle[0]), Some(w)), cycle[1..], m, w);
    }
  }

  lemma {:induction false} LiveGuarded(s: StudyState, frames: seq<Frame>, m: string, w: nat)
    requires Guarded(s, m)
    ensures Guarded(LiveState(s, frames, Some(w)), m)
    decreases frames
  {
    if frames != [] {
      StepGuarded(s, frames[0], m, Some(w));
      LiveGuarded(LiveStep(s, frames[0], Some(w)), frames[1..], m, w);
    }
  }

  /**
   At a frame of the cycle: as far as its counters can tell, the largest that live
   has seen of the match id are the largest that offline holds of the cycle.
   */
  predicate CountersOwn(seen: seq<Frame>, held: seq<Frame>, f: Frame, key: Key) {
    Ingestible(f) ==>
      Join(Peak(seen, key.matchId), f.counts) == Join(Peak(CycleOf(held, key), key.matchId), f.counts)
  }

  /** A study whose guard is the peak of some frames yields the cores of that peak. */
  lemma PeakCores(s: StudyState, f: Frame, peak: Counters, now: real, w: nat)
    requires Guarded(s, f.matchId) && Guard(s, f.matchId) == peak
    ensures CoresOf(Snapshots(s, f, now, Some(w))) == FrameCores(f, Join(peak, f.counts))
  {
    SnapshotCores(s, f, now, w);
  }

  lemma LivePeak(before: seq<Frame>, f: Frame, w: nat)
    ensures var s := Settled(LiveState(EMPTY_STUDY, before, Some(w)), f);
            Guarded(s, f.matchId) && Guard(s, f.matchId) == Peak(before, f.matchId)
  {
    LiveGuarded(EMPTY_STUDY, before, f.matchId, w);
    GuardIsPeak(EMPTY_STUDY, before, f.matchId, Some(w));
    PeakFloor(before, f.matchId);
  }

  lemma ReplayPeak(cycle: seq<Frame>, f: Frame, w: nat)
    ensures var r := ReplayState(EMPTY_STUDY, cycle, w);
            Guarded(r, f.matchId) && Guard(r, f.matchId) == Peak(cycle, f.matchId)
  {
    ReplayGuardIsPeak(EMPTY_STUDY, cycle, f.matchId, w);
    PeakFloor(cycle, f.matchId);
  }

  lemma LiveCores(before: seq<Frame>, f: Frame, w: nat)
    ensures CoresOf(LiveOutput(LiveState(EMPTY_STUDY, before, Some(w)), f, Some(w)))
      == FrameCores(f, Join(Peak(before, f.matchId), f.counts))
  {
    LivePeak(before, f, w);
    PeakCores(Settled(LiveState(EMPTY_STUDY, before, Some(w)), f), f, Peak(before, f.matchId), f.liveClock, w);
  }

  lemma ReplayCores(cycle: seq<Frame>, f: Frame, w: nat)
    ensures CoresOf(Snapshots(ReplayState(EMPTY_STUDY, cycle, w), f, ReplayNow(f), Some(w)))
      == FrameCores(f, Join(Peak(cycle, f.matchId), f.counts))
  {
    ReplayPeak(cycle, f, w);
    PeakCores(ReplayState(EMPTY_STUDY, cycle, w), f, Peak(cycle, f.matchId), ReplayNow(f), w);
  }

  /**
   Frame by frame, whatever live has seen before it and whatever offline holds
   before it: the replayed cores are the live ones exactly when the counters are
   the cycle's own.
   */
  lemma FrameParity(seen: seq<Frame>, held: seq<Frame>, f: Frame, key: Key, w: nat)
    requires KeyOf(f) == key
    ensures
      CoresOf(LiveOutput(LiveState(EMPTY_STUDY, seen, Some(w)), f, Some(w)))
        == CoresOf(Snapshots(ReplayState(EMPTY_STUDY, CycleOf(held, key), w), f, ReplayNow(f), Some(w)))
      <==> CountersOwn(seen, held, f, key)
  {
    LiveCores(seen, f, w);
    ReplayCores(CycleOf(held, key), f, w);
    CoresTell(f, Join(Peak(seen, key.matchId), f.counts), Join(Peak(CycleOf(held, key), key.matchId), f.counts));
  }

  function CoreLists(outputs: seq<seq<Snapshot>>): (r: seq<seq<Core>>)
    ensures |r| == |outputs|
  {
    seq(|outputs|, i requires 0 <= i < |outputs| => CoresOf(outputs[i]))
  }

  lemma SnocEqual<T>(a: seq<T>, x: T, b: seq<T>, y: T)
    requires |a| == |b|
    ensures a + [x] == b + [y] <==> a == b && x == y
  {
    if a + [x] == b + [y] {
      assert a == (a + [x])[..|a|] && b == (b + [y])[..|b|];
      assert x == (a + [x])[|a|] && y == (b + [y])[|b|];
    }
  }

  // ----- what each side got to see -----

  /**
   A frame of the history: whether the live study handled it since it last started,
   and whether offline still holds it. The live queue sheds frames and a restart
   forgets them; offline loads the newest frames only.
   */
  datatype Sighting = Sighting(frame: Frame, live: bool, held: bool)

  function Seen(history: seq<Sighting>): seq<Frame> {
    if history == [] then []
    else
      var last := history[|history| - 1];
      Seen(history[..|history| - 1]) + if last.live then [last.frame] else []
  }

  function Held(history: seq<Sighting>): seq<Frame> {
    if history == [] then []
    else
      var last := history[|history| - 1];
      Held(history[..|history| - 1]) + if last.held then [last.frame] else []
  }

  /** A frame of the cycle that both sides have. */
  predicate Common(x: Sighting, key: Key) {
    x.live && x.held && KeyOf(x.frame) == key
  }

  /** The live snapshots of the common frames, one list a frame. */
  function LiveCommon(history: seq<Sighting>, key: Key, w: nat): seq<seq<Snapshot>> {
    if history == [] then []
    else
      var init, x := history[..|history| - 1], history[|history| - 1];
      LiveCommon(init, key, w)
      + if Common(x, key) then [LiveOutput(LiveState(EMPTY_STUDY, Seen(init), Some(w)), x.frame, Some(w))] else []
  }

  /** The replayed snapshots of the common frames. */
  function ReplayCommon(history: seq<Sighting>, key: Key, w: nat): seq<seq<Snapshot>> {
    if history == [] then []
    else
      var init, x := history[..|history| - 1], history[|history| - 1];
      var r := ReplayState(EMPTY_STUDY, CycleOf(Held(init), key), w);
      ReplayCommon(init, key, w)
      + if Common(x, key) then [Snapshots(r, x.frame, ReplayNow(x.frame), Some(w))] else []
  }

  /** The counters are the cycle's own at each of the common frames. */
  predicate AllOwn(history: seq<Sighting>, key: Key) {
    history == [] ||
    var init, x := history[..|history| - 1], history[|history| - 1];
    AllOwn(init, key) && (Common(x, key) ==> CountersOwn(Seen(init), Held(init), x.frame, key))
  }

  lemma {:induction false} CommonLength(history: seq<Sighting>, key: Key, w: nat)
    ensures |LiveCommon(history, key, w)| == |ReplayCommon(history, key, w)|
  {
    if history != [] {
      CommonLength(history[..|history| - 1], key, w);
    }
  }

  lemma CoreListsAppend(outputs: seq<seq<Snapshot>>, last: seq<Snapshot>)
    ensures CoreLists(outputs + [last]) == CoreLists(outputs) + [CoresOf(last)]
  {}

  /**
   For any history at all, fixtures overlapping, match ids reused, full times
   misplaced, frames shed, live restarted, the oldest frames cut off for offline,
   and clocks running as they like: on the frames both sides have, the cycle's
   replay agrees with live on score, odds and counters if and only if at each of
   them the counters are the cycle's own.
   */
  lemma {:induction false} CoreParity(history: seq<Sighting>, key: Key, w: nat)
    ensures CoreLists(LiveCommon(history, key, w)) == CoreLists(ReplayCommon(history, key, w))
      <==> AllOwn(history, key)
  {
    if history != [] {
      var n := |history| - 1;
      var init, x := history[..n], history[n];
      CoreParity(init, key, w);
      if Common(x, key) {
        CommonLength(init, key, w);
        FrameParity(Seen(init), Held(init), x.frame, key, w);
        var s, r := LiveState(EMPTY_STUDY, Seen(init), Some(w)), ReplayState(EMPTY_STUDY, CycleOf(Held(init), key), w);
        LastCores(LiveCommon(init, key, w), LiveOutput(s, x.frame, Some(w)),
                  ReplayCommon(init, key, w), Snapshots(r, x.frame, ReplayNow(x.frame), Some(w)));
      } else {
        assert LiveCommon(history, key, w) == LiveCommon(init, key, w);
        assert ReplayCommon(history, key, w) == ReplayCommon(init, key, w);
      }
    }
  }

  lemma LastCores(a: seq<seq<Snapshot>>, x: seq<Snapshot>, b: seq<seq<Snapshot>>, y: seq<Snapshot>)
    requires |a| == |b|
    ensures CoreLists(a + [x]) == CoreLists(b + [y]) <==> CoreLists(a) == CoreLists(b) && CoresOf(x) == CoresOf(y)
  {
    CoreListsAppend(a, x);
    CoreListsAppend(b, y);
    SnocEqual(CoreLists(a), CoresOf(x), CoreLists(b), CoresOf(y));
  }

  // ----- a history cut off at the front -----

  /** The oldest frames are gone for offline; from then on both sides have everything. */
  function Cut(lost: seq<Frame>, kept: seq<Frame>): seq<Sighting> {
    seq(|lost|, i requires 0 <= i < |lost| => Sighting(lost[i], true, false))
    + seq(|kept|, i requires 0 <= i < |kept| => Sighting(kept[i], true, true))
  }

  lemma CutSnoc(lost: seq<Frame>, kept: seq<Frame>)
    requires lost != [] || kept != []
    ensures var h := Cut(lost, kept);
            if kept != [] then
              h[..|h| - 1] == Cut(lost, kept[..|kept| - 1]) && h[|h| - 1] == Sighting(kept[|kept| - 1], true, true)
            else
              h[..|h| - 1] == Cut(lost[..|lost| - 1], []) && h[|h| - 1] == Sighting(lost[|lost| - 1], true, false)
  {}

  lemma {:induction false} CutParts(lost: seq<Frame>, kept: seq<Frame>)
    ensures Seen(Cut(lost, kept)) == lost + kept && Held(Cut(lost, kept)) == kept
    decreases kept
  {
    if kept == [] {
      LostParts(lost);
      assert lost + [] == lost;
    } else {
      CutSnoc(lost, kept);
      CutParts(lost, kept[..|kept| - 1]);
      assert lost + kept == (lost + kept[..|kept| - 1]) + [kept[|kept| - 1]];
    }
  }

  lemma {:induction false} LostParts(lost: seq<Frame>)
    ensures Seen(Cut(lost, [])) == lost && Held(Cut(lost, [])) == []
  {
    if lost != [] {
      CutSnoc(lost, []);
      LostParts(lost[..|lost| - 1]);
      assert lost == lost[..|lost| - 1] + [lost[|lost| - 1]];
    }
  }

  lemma {:induction false} LostCommon(lost: seq<Frame>, key: Key, w: nat)
    ensures LiveCommon(Cut(lost, []), key, w) == [] && ReplayCommon(Cut(lost, []), key, w) == []
  {
    if lost != [] {
      CutSnoc(lost, []);
      LostCommon(lost[..|lost| - 1], key, w);
    }
  }

  lemma {:induction false} LiveStateAppend(s: StudyState, a: seq<Frame>, b: seq<Frame>, w: nat)
    ensures LiveState(s, a + b, Some(w)) == LiveState(LiveState(s, a, Some(w)), b, Some(w))
    decreases a
  {
    if a == [] {
      assert a + b == b;
    } else {
      assert (a + b)[1..] == a[1..] + b;
      LiveStateAppend(LiveStep(s, a[0], Some(w)), a[1..], b, w);
    }
  }

  /** What the last frame of a history adds to the live run. */
  lemma LastLive(s: StudyState, init: seq<Frame>, last: Frame, key: Key, w: nat)
    ensures LiveOutputsOf(s, init + [last], key, w) == LiveOutputsOf(s, init, key, w)
      + if KeyOf(last) == key then [LiveOutput(LiveState(s, init, Some(w)), last, Some(w))] else []
  {
    var t := LiveState(s, init, Some(w));
    LiveAppend(s, init, [last], key, w);
    assert [last][1..] == [];
    assert LiveOutputsOf(LiveStep(t, last, Some(w)), [last][1..], key, w) == [];
  }

  lemma LastReplay(init: seq<Frame>, last: Frame, key: Key, w: nat)
    ensures ReplayOutputs(EMPTY_STUDY, CycleOf(init + [last], key), w)
      == ReplayOutputs(EMPTY_STUDY, CycleOf(init, key), w)
         + if KeyOf(last) == key
           then [Snapshots(ReplayState(EMPTY_STUDY, CycleOf(init, key), w), last, ReplayNow(last), Some(w))] else []
  {
    var r := ReplayState(EMPTY_STUDY, CycleOf(init, key), w);
    CycleAppend(init, [last], key);
    ReplayAppend(EMPTY_STUDY, CycleOf(init, key), CycleOf([last], key), w);
    assert [last][1..] == [];
    assert CycleOf([last], key) == if KeyOf(last) == key then [last] else [];
    assert ReplayOutputs(Observed(r, last, ReplayNow(last), Some(w)), [last][1..], w) == [];
  }

  /** On a cut history the common frames are the kept ones of the cycle. */
  lemma {:induction false} CutLive(lost: seq<Frame>, kept: seq<Frame>, key: Key, w: nat)
    ensures LiveCommon(Cut(lost, kept), key, w)
      == LiveOutputsOf(LiveState(EMPTY_STUDY, lost, Some(w)), kept, key, w)
    decreases |kept|
  {
    if kept == [] {
      LostCommon(lost, key, w);
    } else {
      var init, last := kept[..|kept| - 1], kept[|kept| - 1];
      assert kept == init + [last];
      CutLive(lost, init, key, w);
      CutSnoc(lost, kept);
      CutParts(lost, init);
      LiveStateAppend(EMPTY_STUDY, lost, init, w);
      LastLive(LiveState(EMPTY_STUDY, lost, Some(w)), init, last, key, w);
    }
  }

  lemma {:induction false} CutReplay(lost: seq<Frame>, kept: seq<Frame>, key: Key, w: nat)
    ensures ReplayCommon(Cut(lost, kept), key, w) == ReplayOutputs(EMPTY_STUDY, CycleOf(kept, key), w)
    decreases |kept|
  {
    if kept == [] {
      LostCommon(lost, key, w);
    } else {
      var init, last := kept[..|kept| - 1], kept[|kept| - 1];
      assert kept == init + [last];
      CutReplay(lost, init, key, w);
      CutSnoc(lost, kept);
      CutParts(lost, init);
      LastReplay(init, last, key, w);
    }
  }

  /** On a cut history: the replay of what offline holds agrees with live under that condition. */
  lemma CutCores(lost: seq<Frame>, kept: seq<Frame>, key: Key, w: nat)
    ensures CoreLists(LiveOutputsOf(LiveState(EMPTY_STUDY, lost, Some(w)), kept, key, w))
              == CoreLists(ReplayOutputs(EMPTY_STUDY, CycleOf(kept, key), w))
      <==> AllOwn(Cut(lost, kept), key)
  {
    CutLive(lost, kept, key, w);
    CutReplay(lost, kept, key, w);
    CoreParity(Cut(lost, kept), key, w);
  }

  /** A match id with one fixture always meets the condition, as long as both sides have every frame of it. */
  lemma {:induction false} OneFixtureOwn(kept: seq<Frame>, key: Key)
    requires forall f :: f in kept && f.matchId == key.matchId ==> KeyOf(f) == key
    ensures AllOwn(Cut([], kept), key)
  {
    if kept != [] {
      var init := kept[..|kept| - 1];
      CutSnoc([], kept);
      CutParts([], init);
      assert [] + init == init && forall f :: f in init ==> f in kept;
      OneFixtureOwn(init, key);
      PeakOfCycle(init, key);
    }
  }

  lemma {:induction false} PeakOfCycle(frames: seq<Frame>, key: Key)
    requires forall f :: f in frames && f.matchId == key.matchId ==> KeyOf(f) == key
    ensures Peak(CycleOf(frames, key), key.matchId) == Peak(frames, key.matchId)
  {
    if frames != [] {
      assert frames[0] in frames && forall f :: f in frames[1..] ==> f in frames;
      PeakOfCycle(frames[1..], key);
    }
  }
}
