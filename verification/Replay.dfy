/**
 Offline calibration replay (analytics-engine-py/scripts/calibrate.py): history
 is regrouped into cycles, each cycle is replayed through a fresh study, and the
 snapshots become training rows. The question answered here is when the replay
 sees exactly what the one shared live study saw.
 */
module Replay {
  import opened Options
  import opened Text
  import opened Study

  datatype Key = Key(matchId: string, kickoff: int)

  function KeyOf(f: Frame): Key {
    Key(f.matchId, f.kickoff)
  }

  // ----- grouping into cycles -----

  /** The frames of one cycle in history order. */
  function CycleOf(frames: seq<Frame>, key: Key): seq<Frame> {
    if frames == [] then []
    else if KeyOf(frames[0]) == key then [frames[0]] + CycleOf(frames[1..], key)
    else CycleOf(frames[1..], key)
  }

  /** The cycle keys in order of first appearance. */
  function Keys(frames: seq<Frame>): seq<Key> {
    if frames == [] then []
    else
      var keys, key := Keys(frames[..|frames| - 1]), KeyOf(frames[|frames| - 1]);
      if key in keys then keys else keys + [key]
  }

  function Cycles(frames: seq<Frame>): seq<seq<Frame>> {
    var keys := Keys(frames);
    seq(|keys|, i requires 0 <= i < |keys| => CycleOf(frames, keys[i]))
  }

  lemma {:induction false} CycleAppend(a: seq<Frame>, b: seq<Frame>, key: Key)
    ensures CycleOf(a + b, key) == CycleOf(a, key) + CycleOf(b, key)
  {
    if a == [] {
      assert a + b == b;
    } else {
      assert (a + b)[1..] == a[1..] + b;
      CycleAppend(a[1..], b, key);
    }
  }

  method GroupCycles(frames: seq<Frame>) returns (cycles: seq<seq<Frame>>)
    ensures cycles == Cycles(frames)
  {
    var groups: map<Key, seq<Frame>>, order: seq<Key> := map[], [];
    for i := 0 to |frames|
      invariant order == Keys(frames[..i])
      invariant forall k :: k in groups <==> k in order
      invariant forall k :: k in groups ==> groups[k] == CycleOf(frames[..i], k)
      invariant forall k :: k !in order ==> CycleOf(frames[..i], k) == []
    {
      var key := KeyOf(frames[i]);
      assert frames[..i + 1] == frames[..i] + [frames[i]] && frames[..i + 1][..i] == frames[..i];
      forall k
        ensures CycleOf(frames[..i + 1], k) == CycleOf(frames[..i], k) + if k == key then [frames[i]] else []
      {
        CycleAppend(frames[..i], [frames[i]], k);
        assert CycleOf([frames[i]], k) == if k == key then [frames[i]] else [];
      }
      if key !in groups {
        groups := groups[key := []];
        order := order + [key];
      }
      groups := groups[key := groups[key] + [frames[i]]];
    }
    assert frames[..|frames|] == frames;
    cycles := seq(|order|, i requires 0 <= i < |order| => groups[order[i]]);
  }

  function TotalLength(cycles: seq<seq<Frame>>): nat {
    if cycles == [] then 0 else TotalLength(cycles[..|cycles| - 1]) + |cycles[|cycles| - 1]|
  }

  lemma {:induction false} TotalLengthGrows(a: seq<seq<Frame>>, b: seq<seq<Frame>>, at: nat)
    requires |a| == |b| && at < |a| && |b[at]| == |a[at]| + 1
    requires forall i :: 0 <= i < |a| && i != at ==> |a[i]| == |b[i]|
    ensures TotalLength(b) == TotalLength(a) + 1
  {
    var n := |a| - 1;
    if at == n {
      TotalLengthSame(a[..n], b[..n]);
    } else {
      TotalLengthGrows(a[..n], b[..n], at);
    }
  }

  lemma {:induction false} TotalLengthSame(a: seq<seq<Frame>>, b: seq<seq<Frame>>)
    requires |a| == |b|
    requires forall i :: 0 <= i < |a| ==> |a[i]| == |b[i]|
    ensures TotalLength(b) == TotalLength(a)
  {
    if a != [] {
      TotalLengthSame(a[..|a| - 1], b[..|b| - 1]);
    }
  }

  /** No cycle is listed twice, and every frame has its cycle. */
  lemma {:induction false} KeysDistinct(frames: seq<Frame>)
    ensures forall i, j :: 0 <= i < j < |Keys(frames)| ==> Keys(frames)[i] != Keys(frames)[j]
    ensures forall f :: f in frames ==> KeyOf(f) in Keys(frames)
  {
    if frames != [] {
      var n := |frames| - 1;
      assert frames == frames[..n] + [frames[n]];
      KeysDistinct(frames[..n]);
    }
  }

  lemma CycleGrows(init: seq<Frame>, last: Frame, k: Key)
    ensures |CycleOf(init + [last], k)| == |CycleOf(init, k)| + if k == KeyOf(last) then 1 else 0
  {
    CycleAppend(init, [last], k);
    assert CycleOf([last], k) == if k == KeyOf(last) then [last] else [];
  }

  /** Grouping is a partition: no frame is lost and none is counted twice. */
  lemma {:induction false} CyclesPartition(frames: seq<Frame>)
    ensures TotalLength(Cycles(frames)) == |frames|
  {
    if frames != [] {
      var n := |frames| - 1;
      var init, last := frames[..n], frames[n];
      assert frames == init + [last];
      CyclesPartition(init);
      KeysDistinct(init);
      var keys := Keys(init);
      forall i | 0 <= i < |keys|
        ensures |Cycles(frames)[i]| == |Cycles(init)[i]| + if keys[i] == KeyOf(last) then 1 else 0
      {
        CycleGrows(init, last, keys[i]);
      }
      if KeyOf(last) in keys {
        var at :| 0 <= at < |keys| && keys[at] == KeyOf(last);
        TotalLengthGrows(Cycles(init), Cycles(frames), at);
      } else {
        AbsentCycle(init, KeyOf(last));
        CycleGrows(init, last, KeyOf(last));
        TotalLengthSame(Cycles(init), Cycles(frames)[..|keys|]);
      }
    }
  }

  lemma {:induction false} AbsentCycle(frames: seq<Frame>, key: Key)
    requires key !in Keys(frames)
    ensures CycleOf(frames, key) == []
  {
    if frames != [] {
      var n := |frames| - 1;
      assert frames == frames[..n] + [frames[n]];
      AbsentCycle(frames[..n], key);
      CycleAppend(frames[..n], [frames[n]], key);
    }
  }

  // ----- the replay of one cycle -----

  /** The replay clock of a frame: its own receive time, else the wall clock. */
  function ReplayNow(f: Frame): real {
    f.epoch.GetOr(f.replayClock)
  }

  function ReplayOutputs(r: StudyState, cycle: seq<Frame>, w: nat): (out: seq<seq<Snapshot>>)
    ensures |out| == |cycle|
    decreases cycle
  {
    if cycle == [] then []
    else [Snapshots(r, cycle[0], ReplayNow(cycle[0]), Some(w))]
         + ReplayOutputs(Observed(r, cycle[0], ReplayNow(cycle[0]), Some(w)), cycle[1..], w)
  }

  function ReplayState(r: StudyState, cycle: seq<Frame>, w: nat): StudyState
    decreases cycle
  {
    if cycle == [] then r
    else ReplayState(Observed(r, cycle[0], ReplayNow(cycle[0]), Some(w)), cycle[1..], w)
  }

  /** What the shared live study reported for the frames of one cycle, one list per frame. */
  function LiveOutputsOf(s: StudyState, frames: seq<Frame>, key: Key, w: nat): (out: seq<seq<Snapshot>>)
    ensures |out| == |CycleOf(frames, key)|
    decreases frames
  {
    if frames == [] then []
    else
      var rest := LiveOutputsOf(LiveStep(s, frames[0], Some(w)), frames[1..], key, w);
      if KeyOf(frames[0]) == key then [LiveOutput(s, frames[0], Some(w))] + rest else rest
  }

  lemma {:induction false} ReplayAppend(r: StudyState, a: seq<Frame>, b: seq<Frame>, w: nat)
    ensures ReplayOutputs(r, a + b, w) == ReplayOutputs(r, a, w) + ReplayOutputs(ReplayState(r, a, w), b, w)
    decreases a
  {
    if a == [] {
      assert a + b == b;
    } else {
      assert (a + b)[1..] == a[1..] + b;
      ReplayAppend(Observed(r, a[0], ReplayNow(a[0]), Some(w)), a[1..], b, w);
    }
  }

  lemma {:induction false} LiveAppend(s: StudyState, a: seq<Frame>, b: seq<Frame>, key: Key, w: nat)
    ensures LiveOutputsOf(s, a + b, key, w)
      == LiveOutputsOf(s, a, key, w) + LiveOutputsOf(LiveState(s, a, Some(w)), b, key, w)
    decreases a
  {
    if a == [] {
      assert a + b == b;
    } else {
      assert (a + b)[1..] == a[1..] + b;
      LiveAppend(LiveStep(s, a[0], Some(w)), a[1..], b, key, w);
    }
  }

  // ----- when the two agree -----

  /** No frame of the cycle is ingestible here. */
  ghost predicate Silent(frames: seq<Frame>, key: Key) {
    forall f :: f in frames && KeyOf(f) == key ==> !Ingestible(f)
  }

  /** One uninterrupted spell: only this cycle's frames of the match are ingestible, none after full time. */
  ghost predicate Spell(frames: seq<Frame>, key: Key) {
    frames == [] ||
    (&& (frames[0].matchId == key.matchId && Ingestible(frames[0]) ==> KeyOf(frames[0]) == key)
     && (frames[0].matchId == key.matchId && IsFullTime(frames[0].clock) ==> Silent(frames[1..], key))
     && Spell(frames[1..], key))
  }

  /** Every earlier spell of the match was closed by its full-time frame. */
  ghost predicate Closed(frames: seq<Frame>, m: string) {
    frames == [] ||
    var last := frames[|frames| - 1];
    if last.matchId == m && IsFullTime(last.clock) then m != ""
    else !(last.matchId == m && Ingestible(last)) && Closed(frames[..|frames| - 1], m)
  }

  ghost predicate ClocksAgree(cycle: seq<Frame>) {
    forall f :: f in cycle && Ingestible(f) ==>
      f.liveClock == if f.epoch.Some? then f.epoch.value else f.replayClock
  }

  /** The counters start the cycle at or above everything the match ever reported before. */
  predicate CountersFresh(peak: Counters, cycle: seq<Frame>) {
    cycle == [] ||
    if Ingestible(cycle[0]) then Leq(peak, Join(ZERO, cycle[0].counts)) else CountersFresh(peak, cycle[1..])
  }

  ghost predicate SameMatch(s: StudyState, r: StudyState, m: string) {
    Window(s, m) == Window(r, m) && Guard(s, m) == Guard(r, m)
  }

  lemma {:induction false} SilentOutputs(s: StudyState, r: StudyState, frames: seq<Frame>, key: Key, w: nat)
    requires Silent(frames, key)
    ensures LiveOutputsOf(s, frames, key, w) == ReplayOutputs(r, CycleOf(frames, key), w)
    ensures ReplayState(r, CycleOf(frames, key), w) == r
    ensures ClocksAgree(CycleOf(frames, key))
    decreases frames
  {
    if frames != [] {
      var f, rest := frames[0], frames[1..];
      SilentOutputs(LiveStep(s, f, Some(w)), r, rest, key, w);
      if KeyOf(f) == key {
        assert f in frames;
        CycleHead(frames, key);
      }
    }
  }

  lemma CycleHead(frames: seq<Frame>, key: Key)
    requires frames != [] && KeyOf(frames[0]) == key
    ensures var cycle := CycleOf(frames, key);
            cycle != [] && cycle[0] == frames[0] && cycle[1..] == CycleOf(frames[1..], key)
  {}

  /** One ingestible frame seen from equal states: equal outputs exactly when the clocks agree. */
  lemma StepParity(s: StudyState, r: StudyState, f: Frame, w: nat)
    requires SameMatch(s, r, f.matchId) && Ingestible(f)
    ensures LiveOutput(s, f, Some(w)) == Snapshots(r, f, ReplayNow(f), Some(w)) <==> f.liveClock == ReplayNow(f)
    ensures f.liveClock == ReplayNow(f) ==>
      SameMatch(LiveStep(s, f, Some(w)), Observed(r, f, ReplayNow(f), Some(w)), f.matchId)
  {
    var live, replay := LiveOutput(s, f, Some(w)), Snapshots(r, f, ReplayNow(f), Some(w));
    assert live[0].windowEnd == f.liveClock && replay[0].windowEnd == ReplayNow(f);
  }

  /** A frame that is not ingestible adds an empty list on both sides and leaves the replay alone. */
  lemma SkipParity(s: StudyState, r: StudyState, frames: seq<Frame>, key: Key, w: nat)
    requires frames != [] && !(KeyOf(frames[0]) == key && Ingestible(frames[0]))
    ensures var s', rest := LiveStep(s, frames[0], Some(w)), frames[1..];
            && (LiveOutputsOf(s, frames, key, w) == ReplayOutputs(r, CycleOf(frames, key), w)
                <==> LiveOutputsOf(s', rest, key, w) == ReplayOutputs(r, CycleOf(rest, key), w))
            && (ClocksAgree(CycleOf(frames, key)) <==> ClocksAgree(CycleOf(rest, key)))
            && (forall p :: CountersFresh(p, CycleOf(frames, key)) <==> CountersFresh(p, CycleOf(rest, key)))
  {
    var f, rest := frames[0], frames[1..];
    if KeyOf(f) == key {
      CycleHead(frames, key);
      HeadTail([], LiveOutputsOf(LiveStep(s, f, Some(w)), rest, key, w), [], ReplayOutputs(r, CycleOf(rest, key), w));
    }
  }

  /** An ingestible frame: both runs add one list and go on. */
  lemma TakeParity(s: StudyState, r: StudyState, frames: seq<Frame>, key: Key, w: nat)
    requires frames != [] && KeyOf(frames[0]) == key && Ingestible(frames[0])
    ensures var f, rest := frames[0], frames[1..];
            var s', r' := LiveStep(s, f, Some(w)), Observed(r, f, ReplayNow(f), Some(w));
            && (LiveOutputsOf(s, frames, key, w) == ReplayOutputs(r, CycleOf(frames, key), w)
                <==> LiveOutput(s, f, Some(w)) == Snapshots(r, f, ReplayNow(f), Some(w))
                     && LiveOutputsOf(s', rest, key, w) == ReplayOutputs(r', CycleOf(rest, key), w))
            && (ClocksAgree(CycleOf(frames, key)) <==> f.liveClock == ReplayNow(f) && ClocksAgree(CycleOf(rest, key)))
            && (forall p :: CountersFresh(p, CycleOf(frames, key)) <==> Leq(p, Join(ZERO, f.counts)))
  {
    var f, rest := frames[0], frames[1..];
    CycleHead(frames, key);
    HeadTail(LiveOutput(s, f, Some(w)), LiveOutputsOf(LiveStep(s, f, Some(w)), rest, key, w),
             Snapshots(r, f, ReplayNow(f), Some(w)),
             ReplayOutputs(Observed(r, f, ReplayNow(f), Some(w)), CycleOf(rest, key), w));
  }

  /** One ingestible frame from equal states: the runs agree iff the clocks agree here and the rest agrees. */
  lemma TakeFromSame(s: StudyState, r: StudyState, frames: seq<Frame>, key: Key, w: nat)
    requires SameMatch(s, r, key.matchId)
    requires frames != [] && KeyOf(frames[0]) == key && Ingestible(frames[0])
    ensures var f, rest := frames[0], frames[1..];
            var s', r' := LiveStep(s, f, Some(w)), Observed(r, f, ReplayNow(f), Some(w));
            && (f.liveClock == ReplayNow(f) ==> SameMatch(s', r', key.matchId))
            && (LiveOutputsOf(s, frames, key, w) == ReplayOutputs(r, CycleOf(frames, key), w)
                <==> f.liveClock == ReplayNow(f)
                     && LiveOutputsOf(s', rest, key, w) == ReplayOutputs(r', CycleOf(rest, key), w))
            && (ClocksAgree(CycleOf(frames, key)) <==> f.liveClock == ReplayNow(f) && ClocksAgree(CycleOf(rest, key)))
  {
    StepParity(s, r, frames[0], w);
    TakeParity(s, r, frames, key, w);
  }

  /** From equal states, a spell replays exactly if and only if the clocks agree on its ingested frames. */
  lemma {:induction false} SpellParity(s: StudyState, r: StudyState, frames: seq<Frame>, key: Key, w: nat)
    requires SameMatch(s, r, key.matchId) && Spell(frames, key)
    ensures LiveOutputsOf(s, frames, key, w) == ReplayOutputs(r, CycleOf(frames, key), w)
      <==> ClocksAgree(CycleOf(frames, key))
    decreases frames
  {
    if frames != [] {
      var f, rest := frames[0], frames[1..];
      if f.matchId == key.matchId && IsFullTime(f.clock) {
        SilentOutputs(s, r, frames, key, w);
      } else if KeyOf(f) == key && Ingestible(f) {
        TakeFromSame(s, r, frames, key, w);
        if f.liveClock == ReplayNow(f) {
          SpellParity(LiveStep(s, f, Some(w)), Observed(r, f, ReplayNow(f), Some(w)), rest, key, w);
        }
      } else {
        SkipParity(s, r, frames, key, w);
        SpellParity(LiveStep(s, f, Some(w)), r, rest, key, w);
      }
    }
  }

  lemma HeadTail<T>(x: T, xs: seq<T>, y: T, ys: seq<T>)
    ensures [x] + xs == [y] + ys <==> x == y && xs == ys
  {
    if [x] + xs == [y] + ys {
      assert ([x] + xs)[0] == ([y] + ys)[0];
      assert ([x] + xs)[1..] == xs && ([y] + ys)[1..] == ys;
    }
  }

  /** The first ingestible frame of a spell, entered with an empty window and a guard left by earlier fixtures. */
  lemma FirstParity(s: StudyState, r: StudyState, f: Frame, w: nat)
    requires Window(s, f.matchId) == [] == Window(r, f.matchId) && Ingestible(f)
    requires Leq(ZERO, Guard(s, f.matchId)) && Guard(r, f.matchId) == ZERO
    ensures LiveOutput(s, f, Some(w)) == Snapshots(r, f, ReplayNow(f), Some(w))
      <==> f.liveClock == ReplayNow(f) && Leq(Guard(s, f.matchId), Join(ZERO, f.counts))
    ensures f.liveClock == ReplayNow(f) && Leq(Guard(s, f.matchId), Join(ZERO, f.counts)) ==>
      SameMatch(LiveStep(s, f, Some(w)), Observed(r, f, ReplayNow(f), Some(w)), f.matchId)
  {
    var m := f.matchId;
    var live, replay := LiveOutput(s, f, Some(w)), Snapshots(r, f, ReplayNow(f), Some(w));
    assert live[0].windowEnd == f.liveClock && replay[0].windowEnd == ReplayNow(f);
    SingleTotals(s, f, f.liveClock, w);
    SingleTotals(r, f, ReplayNow(f), w);
    assert live[0].counts == Join(Guard(s, m), f.counts) && replay[0].counts == Join(ZERO, f.counts);
    if Leq(Guard(s, m), Join(ZERO, f.counts)) {
      assert Join(Guard(s, m), f.counts) == Join(ZERO, f.counts);
    }
  }

  lemma SingleTotals(s: StudyState, f: Frame, now: real, w: nat)
    requires Window(s, f.matchId) == [] && Leq(ZERO, Guard(s, f.matchId))
    ensures Slid(s, f, now, Some(w)) == [EntryOf(f, Guard(s, f.matchId), now)]
    ensures Totals(Aggregated(Slid(s, f, now, Some(w)))) == Join(Guard(s, f.matchId), f.counts)
  {
    var e := EntryOf(f, Guard(s, f.matchId), now);
    assert Window(s, f.matchId) + [e] == [e] && [e][..0] == [];
    assert Since([e][..0], now - w as real) == [];
    assert Since([e], now - w as real) == [e];
    WindowTotals([e], 0, e.counts);
  }

  /** A spell entered with an empty window replays exactly iff clocks agree and the counters start fresh. */
  lemma {:induction false} OpeningParity(s: StudyState, r: StudyState, frames: seq<Frame>, key: Key, w: nat)
    requires Window(s, key.matchId) == [] == Window(r, key.matchId)
    requires Leq(ZERO, Guard(s, key.matchId)) && Guard(r, key.matchId) == ZERO
    requires Spell(frames, key)
    ensures LiveOutputsOf(s, frames, key, w) == ReplayOutputs(r, CycleOf(frames, key), w)
      <==> ClocksAgree(CycleOf(frames, key)) && CountersFresh(Guard(s, key.matchId), CycleOf(frames, key))
    decreases frames
  {
    if frames != [] {
      var f, rest := frames[0], frames[1..];
      if KeyOf(f) == key && Ingestible(f) {
        FirstParity(s, r, f, w);
        TakeParity(s, r, frames, key, w);
        if f.liveClock == ReplayNow(f) && Leq(Guard(s, key.matchId), Join(ZERO, f.counts)) {
          SpellParity(LiveStep(s, f, Some(w)), Observed(r, f, ReplayNow(f), Some(w)), rest, key, w);
        }
      } else {
        SkipParity(s, r, frames, key, w);
        OpeningParity(LiveStep(s, f, Some(w)), r, rest, key, w);
      }
    }
  }

  lemma {:induction false} ClosedEmpties(frames: seq<Frame>, m: string, w: nat)
    requires Closed(frames, m)
    ensures Window(LiveState(EMPTY_STUDY, frames, Some(w)), m) == []
  {
    if frames != [] {
      var n := |frames| - 1;
      LiveStateInit(EMPTY_STUDY, frames, w);
      var last := frames[n];
      if !(last.matchId == m && IsFullTime(last.clock)) {
        ClosedEmpties(frames[..n], m, w);
      }
    }
  }

  lemma {:induction false} LiveStateInit(s: StudyState, frames: seq<Frame>, w: nat)
    requires frames != []
    ensures LiveState(s, frames, Some(w))
      == LiveStep(LiveState(s, frames[..|frames| - 1], Some(w)), frames[|frames| - 1], Some(w))
    decreases frames
  {
    if |frames| > 1 {
      assert frames[..|frames| - 1][1..] == frames[1..][..|frames| - 2];
      LiveStateInit(LiveStep(s, frames[0], Some(w)), frames[1..], w);
    }
  }

  /**
   Replay of one spell, on any clock, even one that runs backwards. Take any
   history in which the cycle's ingestible frames form one spell of their match
   and every earlier spell of that match was closed by full time; other matches
   interleave freely. The replay of the cycle in a fresh study yields exactly the
   snapshots of the shared live study if and only if, on each ingested frame, the
   live worker's clock was the frame's replay clock, and the cycle's first
   ingested counters are not below the match's earlier peak.
   */
  lemma ReplayParity(before: seq<Frame>, during: seq<Frame>, after: seq<Frame>, key: Key, w: nat)
    requires Closed(before, key.matchId) && Silent(before, key)
    requires Spell(during, key)
    requires Silent(after, key)
    ensures
      var history := before + during + after;
      var cycle := CycleOf(history, key);
      LiveOutputsOf(EMPTY_STUDY, history, key, w) == ReplayOutputs(EMPTY_STUDY, cycle, w)
      <==> ClocksAgree(cycle) && CountersFresh(Peak(before, key.matchId), CycleOf(during, key))
  {
    var s0 := LiveState(EMPTY_STUDY, before, Some(w));
    var c1 := CycleOf(during, key);
    OpeningState(before, key.matchId, w);
    OpeningParity(s0, EMPTY_STUDY, during, key, w);
    LiveParts(EMPTY_STUDY, before, during, after, key, w);
    ReplayParts(EMPTY_STUDY, before, during, after, key, w);
    Sandwich(Blanks(CycleOf(before, key)), LiveOutputsOf(s0, during, key, w), ReplayOutputs(EMPTY_STUDY, c1, w),
             Blanks(CycleOf(after, key)));
  }

  lemma OpeningState(before: seq<Frame>, m: string, w: nat)
    requires Closed(before, m)
    ensures var s := LiveState(EMPTY_STUDY, before, Some(w));
            Window(s, m) == [] && Guard(s, m) == Peak(before, m) && Leq(ZERO, Guard(s, m))
  {
    ClosedEmpties(before, m, w);
    GuardIsPeak(EMPTY_STUDY, before, m, Some(w));
    PeakFloor(before, m);
  }

  /** One empty list per frame. */
  function Blanks(cycle: seq<Frame>): seq<seq<Snapshot>> {
    seq(|cycle|, _ => [])
  }

  lemma {:induction false} SilentBlanks(s: StudyState, frames: seq<Frame>, key: Key, w: nat)
    requires Silent(frames, key)
    ensures LiveOutputsOf(s, frames, key, w) == Blanks(CycleOf(frames, key))
    decreases frames
  {
    if frames != [] {
      assert frames[0] in frames;
      SilentBlanks(LiveStep(s, frames[0], Some(w)), frames[1..], key, w);
    }
  }

  lemma LiveParts(s: StudyState, before: seq<Frame>, during: seq<Frame>, after: seq<Frame>, key: Key, w: nat)
    requires Silent(before, key) && Silent(after, key)
    ensures LiveOutputsOf(s, before + during + after, key, w)
      == Blanks(CycleOf(before, key))
         + LiveOutputsOf(LiveState(s, before, Some(w)), during, key, w)
         + Blanks(CycleOf(after, key))
  {
    LiveAppend(s, before + during, after, key, w);
    LiveAppend(s, before, during, key, w);
    SilentBlanks(s, before, key, w);
    SilentBlanks(LiveState(s, before + during, Some(w)), after, key, w);
  }

  lemma ReplayParts(r: StudyState, before: seq<Frame>, during: seq<Frame>, after: seq<Frame>, key: Key, w: nat)
    requires Silent(before, key) && Silent(after, key)
    ensures var cycle := CycleOf(before + during + after, key);
            && ReplayOutputs(r, cycle, w)
               == Blanks(CycleOf(before, key))
                  + ReplayOutputs(r, CycleOf(during, key), w)
                  + Blanks(CycleOf(after, key))
            && (ClocksAgree(cycle) <==> ClocksAgree(CycleOf(during, key)))
  {
    var c0, c1, c2 := CycleOf(before, key), CycleOf(during, key), CycleOf(after, key);
    CycleAppend(before + during, after, key);
    CycleAppend(before, during, key);
    ReplayAppend(r, c0 + c1, c2, w);
    ReplayAppend(r, c0, c1, w);
    SilentReplay(r, before, key, w);
    SilentReplay(ReplayState(r, c0 + c1, w), after, key, w);
    assert forall f :: f in c0 + c1 + c2 <==> f in c0 || f in c1 || f in c2;
  }

  lemma SilentReplay(r: StudyState, frames: seq<Frame>, key: Key, w: nat)
    requires Silent(frames, key)
    ensures ReplayOutputs(r, CycleOf(frames, key), w) == Blanks(CycleOf(frames, key))
    ensures ReplayState(r, CycleOf(frames, key), w) == r
    ensures ClocksAgree(CycleOf(frames, key))
  {
    SilentBlanks(r, frames, key, w);
    SilentOutputs(r, r, frames, key, w);
  }

  lemma Sandwich<T>(a: seq<T>, x: seq<T>, y: seq<T>, b: seq<T>)
    requires |x| == |y|
    ensures a + x + b == a + y + b <==> x == y
  {
    if a + x + b == a + y + b {
      assert x == (a + x + b)[|a|..|a| + |x|] && y == (a + y + b)[|a|..|a| + |x|];
    }
  }

  lemma {:induction false} PeakFloor(frames: seq<Frame>, m: string)
    ensures Leq(ZERO, Peak(frames, m))
  {
    if frames != [] {
      PeakFloor(frames[1..], m);
    }
  }

  lemma {:induction false} ZeroIsFresh(cycle: seq<Frame>)
    ensures CountersFresh(ZERO, cycle)
  {
    if cycle != [] {
      ZeroIsFresh(cycle[1..]);
    }
  }

  function SampleFrame(kickoff: int, clock: string, danger: int, at: real): Frame {
    Frame("epl-2026-0042", kickoff, clock, "epl", 0, 1, [Market("2H_1X2", map["away" := 5.25])],
          Counters(9, 4, danger), 0.5, Some(at), at, at)
  }

  /**
   Replay and live disagree as soon as a match id is reused for a new fixture
   whose counters restart: the live guard survives full time, the fresh replay
   study has none. Here both clocks agree, and the cycles are properly closed.
   */
  lemma RepeatedFixtureDiverges(w: nat)
    ensures
      var first, end := SampleFrame(1000, "60'", 20, 4600.0), SampleFrame(1000, "FULLTIME", 20, 6400.0);
      var second := SampleFrame(9000, "31'", 12, 10860.0);
      var history, key := [first, end] + [second] + [], Key("epl-2026-0042", 9000);
      && ClocksAgree(CycleOf(history, key))
      && LiveOutputsOf(EMPTY_STUDY, history, key, w) != ReplayOutputs(EMPTY_STUDY, CycleOf(history, key), w)
  {
    var first, end := SampleFrame(1000, "60'", 20, 4600.0), SampleFrame(1000, "FULLTIME", 20, 6400.0);
    var second := SampleFrame(9000, "31'", 12, 10860.0);
    var before, key := [first, end], Key("epl-2026-0042", 9000);
    SampleClocks();
    assert [first, end] == [first] + [end];
    SampleBefore(first, end, key);
    CycleAppend(before + [second], [], key);
    CycleAppend(before, [second], key);
    assert CycleOf([second], key) == [second] && [second][1..] == [];
    ReplayParity(before, [second], [], key, w);
  }

  lemma SampleBefore(first: Frame, end: Frame, key: Key)
    requires first.matchId == end.matchId == key.matchId != "" && KeyOf(first) != key && KeyOf(end) != key
    requires Ingestible(first) && IsFullTime(end.clock)
    ensures var before := [first] + [end];
            && Closed(before, key.matchId) && CycleOf(before, key) == []
            && Peak(before, key.matchId) == Join(first.counts, ZERO)
  {
    var before := [first] + [end];
    assert before[1..] == [end] && [end][1..] == [] && before[..1] == [first];
    assert CycleOf([end], key) == [];
    assert Peak([end][1..], key.matchId) == ZERO && Peak([end], key.matchId) == ZERO;
  }

  lemma SampleClocks()
    ensures !IsBoundary("60'") && !IsBoundary("31'") && IsFullTime("FULLTIME")
  {
    MinuteIsNoBoundary("60'");
    MinuteIsNoBoundary("31'");
    assert Trim("FULLTIME") == "FULLTIME" && Upper("FULLTIME") == "FULLTIME";
  }

  /** A clock that ends in a prime is a minute. */
  lemma MinuteIsNoBoundary(clock: string)
    requires clock != "" && !IsSpace(clock[0]) && clock[|clock| - 1] == '\''
    ensures !IsBoundary(clock)
  {
    assert Trim(clock) == clock;
    UpperAt(clock, |clock| - 1);
    assert "FULLTIME"[7] == 'E' && "FT"[1] == 'T' && "HALFTIME"[7] == 'E' && "HT"[1] == 'T';
  }

  lemma {:induction false} UpperAt(s: string, i: nat)
    requires i < |s|
    ensures Upper(s)[i] == UpperChar(s[i])
  {
    if i > 0 {
      UpperAt(s[1..], i - 1);
    }
  }
}
