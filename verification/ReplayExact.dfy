/**
 When offline replay reproduces the live snapshots to the last field, whatever
 happened in between: full-time frames in the middle of a fixture, which empty
 the live window only; earlier fixtures of the same match id that were never closed,
 and older frames that offline no longer holds, both of which only the live window
 knows; and a restart of the live study. The live clock never runs backwards here.
 */
module ReplayExact {
  import opened Options
  import opened Study
  import opened Replay
  import opened ReplayCore

  // ----- windows that differ at their first instant only -----

  /** `b` is `a` behind more entries of the instant at which `a` starts. */
  ghost predicate Padded(a: seq<Entry>, b: seq<Entry>) {
    && a != [] && |a| <= |b| && b[|b| - |a|..] == a
    && forall i :: 0 <= i < |b| - |a| ==> b[i].ts == a[0].ts
  }

  ghost predicate Akin(a: seq<Entry>, b: seq<Entry>) {
    Padded(a, b) || Padded(b, a)
  }

  ghost predicate SameBuckets(a: Buckets, b: Buckets) {
    && a.order == b.order && a.at.Keys == b.at.Keys
    && forall k :: k in a.at ==> a.at[k].ts == b.at[k].ts && a.at[k].possession == b.at[k].possession
  }

  lemma DepositSame(a: Buckets, b: Buckets, e: Entry)
    requires SameBuckets(a, b)
    ensures SameBuckets(Deposit(a, e), Deposit(b, e))
  {}

  /** A single bucket, opened at instant t. */
  ghost predicate IsInstant(b: Buckets, t: real) {
    var k := Truncate(t / 60.0);
    b.order == [k] && b.at.Keys == {k} && b.at[k].ts == t
  }

  lemma DepositInstant(b: Buckets, e: Entry)
    requires IsInstant(b, e.ts) || b == Buckets([], map[])
    ensures IsInstant(Deposit(b, e), e.ts)
  {}

  /** Entries of one instant share a bucket. */
  lemma {:induction false} InstantBucket(x: seq<Entry>, t: real)
    requires x != [] && forall i :: 0 <= i < |x| ==> x[i].ts == t
    ensures IsInstant(Deposits(x), t)
  {
    var n := |x| - 1;
    if n > 0 {
      InstantBucket(x[..n], t);
    } else {
      assert Deposits(x[..n]) == Buckets([], map[]);
    }
    DepositInstant(Deposits(x[..n]), x[n]);
  }

  lemma {:induction false} PaddedBuckets(a: seq<Entry>, b: seq<Entry>)
    requires Padded(a, b)
    ensures SameBuckets(Deposits(a), Deposits(b))
  {
    var n, m := |a| - 1, |b| - 1;
    assert b[m] == a[n];
    if n > 0 {
      assert Padded(a[..n], b[..m]);
      PaddedBuckets(a[..n], b[..m]);
      DepositSame(Deposits(a[..n]), Deposits(b[..m]), a[n]);
    } else {
      InstantBucket(a, a[0].ts);
      InstantBucket(b, a[0].ts);
      LastPossession(a);
      LastPossession(b);
    }
  }

  lemma LastPossession(s: seq<Entry>)
    requires s != []
    ensures var e := s[|s| - 1];
            BucketOf(e) in Deposits(s).at && Deposits(s).at[BucketOf(e)].possession == e.possession
  {}

  /** Entries equal in time and possession. */
  ghost predicate Alike(a: seq<Entry>, b: seq<Entry>) {
    |a| == |b| && forall i :: 0 <= i < |a| ==> a[i].ts == b[i].ts && a[i].possession == b[i].possession
  }

  lemma {:induction false} InsertAlike(x: Entry, y: Entry, a: seq<Entry>, b: seq<Entry>)
    requires x.ts == y.ts && x.possession == y.possession && Alike(a, b)
    ensures Alike(InsertByTs(x, a), InsertByTs(y, b))
  {
    if a != [] {
      var n := |a| - 1;
      if a[n].ts <= x.ts {
        assert InsertByTs(x, a) == a + [x] && InsertByTs(y, b) == b + [y];
      } else {
        InsertAlike(x, y, a[..n], b[..n]);
        AlikeAppend(InsertByTs(x, a[..n]), InsertByTs(y, b[..n]), a[n], b[n]);
      }
    }
  }

  lemma AlikeAppend(a: seq<Entry>, b: seq<Entry>, x: Entry, y: Entry)
    requires Alike(a, b) && x.ts == y.ts && x.possession == y.possession
    ensures Alike(a + [x], b + [y])
  {}

  lemma {:induction false} SortAlike(a: seq<Entry>, b: seq<Entry>)
    requires Alike(a, b)
    ensures Alike(SortByTs(a), SortByTs(b))
  {
    if a != [] {
      var n := |a| - 1;
      SortAlike(a[..n], b[..n]);
      InsertAlike(a[n], b[n], SortByTs(a[..n]), SortByTs(b[..n]));
    }
  }

  lemma {:induction false} SumAlike(a: seq<Entry>, b: seq<Entry>)
    requires Alike(a, b)
    ensures PossessionSum(a) == PossessionSum(b)
  {
    if a != [] {
      SumAlike(a[1..], b[1..]);
    }
  }

  /** Padding never shows in the mean possession. */
  lemma PaddedPossession(a: seq<Entry>, b: seq<Entry>)
    requires Padded(a, b)
    ensures MeanPossession(Aggregated(a)) == MeanPossession(Aggregated(b))
  {
    PaddedBuckets(a, b);
    var x, y := Deposits(a), Deposits(b);
    var u, v := BucketValues(x.order, x.at), BucketValues(y.order, y.at);
    assert Alike(u, v);
    SortAlike(u, v);
    SumAlike(SortByTs(u), SortByTs(v));
  }

  // ----- pruning such windows -----

  lemma {:induction false} SinceConcat(a: seq<Entry>, b: seq<Entry>, c: real)
    ensures Since(a + b, c) == Since(a, c) + Since(b, c)
  {
    if b == [] {
      assert a + b == a;
    } else {
      var n := |b| - 1;
      assert (a + b)[..|a + b| - 1] == a + b[..n];
      SinceConcat(a, b[..n], c);
    }
  }

  lemma {:induction false} SinceInstant(x: seq<Entry>, t: real, c: real)
    requires forall i :: 0 <= i < |x| ==> x[i].ts == t
    ensures Since(x, c) == if t >= c then x else []
  {
    if x != [] {
      var m := |x| - 1;
      SinceInstant(x[..m], t, c);
      assert x == x[..m] + [x[m]];
    }
  }

  lemma SinceOne(e: Entry, c: real)
    ensures Since([e], c) == if e.ts >= c then [e] else []
  {
    assert [e][..0] == [] && Since([e][..0], c) == [];
  }

  lemma {:induction false} SinceHead(a: seq<Entry>, c: real)
    requires a != [] && a[0].ts >= c
    ensures Since(a, c) != [] && Since(a, c)[0] == a[0]
  {
    if |a| > 1 {
      SinceHead(a[..|a| - 1], c);
    } else {
      SinceOne(a[0], c);
      assert a == [a[0]];
    }
  }

  /** Windows that differ by padding still do after the next entry. */
  lemma PaddedPrune(a: seq<Entry>, b: seq<Entry>, e: Entry, c: real)
    requires Padded(a, b) && e.ts >= c
    ensures Padded(Since(a + [e], c), Since(b + [e], c))
  {
    var x, t := b[..|b| - |a|], a[0].ts;
    assert b + [e] == x + (a + [e]);
    SinceConcat(x, a + [e], c);
    SinceInstant(x, t, c);
    if t >= c {
      SinceHead(a + [e], c);
      PadFront(x, Since(a + [e], c), t);
    } else {
      SinceConcat(a, [e], c);
      SinceOne(e, c);
      PadFront([], Since(a + [e], c), Since(a + [e], c)[0].ts);
    }
  }

  lemma PadFront(x: seq<Entry>, a: seq<Entry>, t: real)
    requires a != [] && a[0].ts == t && forall i :: 0 <= i < |x| ==> x[i].ts == t
    ensures Padded(a, x + a)
  {
    assert (x + a)[|x|..] == a;
    assert forall i :: 0 <= i < |x| ==> (x + a)[i] == x[i];
  }

  ghost predicate Ordered(win: seq<Entry>, last: real) {
    && (forall i, j :: 0 <= i < j < |win| ==> win[i].ts <= win[j].ts)
    && forall i :: 0 <= i < |win| ==> win[i].ts <= last
  }

  ghost predicate HasTime(win: seq<Entry>, u: real) {
    exists i :: 0 <= i < |win| && win[i].ts == u
  }

  /** The window holds the listed times, except those that pruning at `last` has dropped. */
  ghost predicate Covers(times: seq<real>, win: seq<Entry>, last: real, w: nat) {
    && (forall i :: 0 <= i < |win| ==> win[i].ts in times)
    && forall u :: u in times ==> u < last - w as real || HasTime(win, u)
  }

  lemma {:induction false} SinceOrdered(win: seq<Entry>, last: real, c: real)
    requires Ordered(win, last)
    ensures Ordered(Since(win, c), last)
  {
    if win != [] {
      var n := |win| - 1;
      SinceOrdered(win[..n], win[n].ts, c);
    }
  }

  lemma SinceHasTime(win: seq<Entry>, u: real, c: real)
    ensures HasTime(Since(win, c), u) <==> HasTime(win, u) && u >= c
  {
    SinceMembers(win, c);
    var kept := Since(win, c);
    if HasTime(win, u) && u >= c {
      var i :| 0 <= i < |win| && win[i].ts == u;
      assert win[i] in win && win[i] in kept;
    }
    if HasTime(kept, u) {
      var i :| 0 <= i < |kept| && kept[i].ts == u;
      assert kept[i] in kept && kept[i] in win;
    }
  }

  lemma HasTimeAppend(win: seq<Entry>, e: Entry, u: real)
    ensures HasTime(win + [e], u) <==> HasTime(win, u) || u == e.ts
  {
    var all := win + [e];
    assert all[|win|] == e && forall i :: 0 <= i < |win| ==> all[i] == win[i];
  }

  lemma SlideCovers(win: seq<Entry>, e: Entry, times: seq<real>, last: real, w: nat)
    requires Covers(times, win, last, w) && Ordered(win, last) && last <= e.ts
    ensures var next := Since(win + [e], e.ts - w as real);
            Covers(times + [e.ts], next, e.ts, w) && Ordered(next, e.ts)
  {
    var c := e.ts - w as real;
    var next := Since(win + [e], c);
    assert Ordered(win + [e], e.ts);
    SinceOrdered(win + [e], e.ts, c);
    forall i | 0 <= i < |next|
      ensures next[i].ts in times + [e.ts]
    {
      assert HasTime(next, next[i].ts);
      SinceHasTime(win + [e], next[i].ts, c);
      HasTimeAppend(win, e, next[i].ts);
    }
    forall u | u in times + [e.ts]
      ensures u < c || HasTime(next, u)
    {
      SinceHasTime(win + [e], u, c);
      HasTimeAppend(win, e, u);
    }
  }

  /** None of the times lies in the w seconds before t; t itself may be among them. */
  predicate Apart(times: seq<real>, t: real, w: nat) {
    forall u :: u in times ==> u < t - w as real || u == t
  }

  lemma KeptStart(kept: seq<Entry>, e: Entry)
    requires Ordered(kept, e.ts)
    ensures (kept + [e])[0].ts == e.ts <==> forall i :: 0 <= i < |kept| ==> kept[i].ts == e.ts
    ensures (kept + [e])[0].ts == e.ts ==> Padded([e], kept + [e])
  {
    var all := kept + [e];
    assert all[|all| - 1..] == [e];
    assert forall i :: 0 <= i < |kept| ==> all[i] == kept[i];
  }

  lemma KeptApart(win: seq<Entry>, times: seq<real>, last: real, t: real, w: nat)
    requires Covers(times, win, last, w) && Ordered(win, last) && last <= t
    ensures var kept := Since(win, t - w as real);
            (forall i :: 0 <= i < |kept| ==> kept[i].ts == t) <==> Apart(times, t, w)
  {
    var c := t - w as real;
    var kept := Since(win, c);
    if forall i :: 0 <= i < |kept| ==> kept[i].ts == t {
      forall u | u in times
        ensures u < c || u == t
      {
        SinceHasTime(win, u, c);
      }
    }
    forall i | 0 <= i < |kept|
      ensures kept[i].ts in times && kept[i].ts >= c
    {
      assert HasTime(kept, kept[i].ts);
      SinceHasTime(win, kept[i].ts, c);
    }
  }

  /** A window that slides onto a new entry starts at that entry's instant exactly when its times are apart. */
  lemma SlideStart(win: seq<Entry>, e: Entry, times: seq<real>, last: real, w: nat)
    requires Covers(times, win, last, w) && Ordered(win, last) && last <= e.ts
    ensures var next := Since(win + [e], e.ts - w as real);
            && next != [] && (next[0].ts == e.ts <==> Apart(times, e.ts, w))
            && (next[0].ts == e.ts ==> Padded([e], next))
            && (win == [] ==> next == [e])
  {
    KeptApart(win, times, last, e.ts, w);
    var kept := Kept(win, e, last, w);
    KeptStart(kept, e);
  }

  lemma {:induction false} Kept(win: seq<Entry>, e: Entry, last: real, w: nat) returns (kept: seq<Entry>)
    requires Ordered(win, last) && last <= e.ts
    ensures kept == Since(win, e.ts - w as real) && Ordered(kept, e.ts)
    ensures Since(win + [e], e.ts - w as real) == kept + [e]
    ensures win == [] ==> kept == []
  {
    var c := e.ts - w as real;
    kept := Since(win, c);
    SinceConcat(win, [e], c);
    SinceOne(e, c);
    SinceOrdered(win, last, c);
  }

  // ----- one frame seen by two studies -----

  predicate SameStart(p: seq<Entry>, q: seq<Entry>)
    requires p != [] && q != []
  {
    p[0].ts == q[0].ts
  }

  /** What a snapshot shows of its window, besides the newest entry. */
  ghost predicate SameView(p: seq<Entry>, q: seq<Entry>)
    requires p != [] && q != []
  {
    && SameStart(p, q)
    && Totals(Aggregated(p)) == Totals(Aggregated(q))
    && MeanPossession(Aggregated(p)) == MeanPossession(Aggregated(q))
  }

  lemma SnapshotsTell(s: StudyState, r: StudyState, f: Frame, now: real, w: nat)
    requires Ingestible(f)
    ensures Snapshots(s, f, now, Some(w)) == Snapshots(r, f, now, Some(w))
      <==> SameView(Slid(s, f, now, Some(w)), Slid(r, f, now, Some(w)))
  {
    var a, b := Snapshots(s, f, now, Some(w)), Snapshots(r, f, now, Some(w));
    var p, q := Slid(s, f, now, Some(w)), Slid(r, f, now, Some(w));
    assert a[0] == SnapshotOf(f, f.markets[0], p, now) && b[0] == SnapshotOf(f, f.markets[0], q, now);
    if SameView(p, q) {
      forall i | 0 <= i < |a|
        ensures a[i] == b[i]
      {
        assert a[i] == SnapshotOf(f, f.markets[i], p, now) && b[i] == SnapshotOf(f, f.markets[i], q, now);
      }
    }
  }

  lemma ClocksTell(s: StudyState, r: StudyState, f: Frame, a: real, b: real, w: nat)
    requires Ingestible(f) && Snapshots(s, f, a, Some(w)) == Snapshots(r, f, b, Some(w))
    ensures a == b
  {
    assert Snapshots(s, f, a, Some(w))[0].windowEnd == a && Snapshots(r, f, b, Some(w))[0].windowEnd == b;
  }

  lemma AkinView(p: seq<Entry>, q: seq<Entry>)
    requires Akin(p, q) && Totals(Aggregated(p)) == Totals(Aggregated(q))
    ensures SameView(p, q)
  {
    if Padded(p, q) {
      PaddedPossession(p, q);
    } else {
      PaddedPossession(q, p);
    }
  }

  // ----- keeping track of both windows -----

  /**
   The times of the match's frames in the live window's run, those of the cycle's
   frames in the replay, whether the two windows' runs are joined, and whether both
   studies have yet seen a frame of the cycle in common.
   */
  datatype Track = Track(live: seq<real>, mine: seq<real>, joined: bool, met: bool)

  function AfterFullTime(k: Track): Track {
    k.(live := [], joined := false)
  }

  function AfterFrame(k: Track, t: real): Track {
    Track(k.live + [t], k.mine + [t], true, true)
  }

  /** The frame may resume: it follows its predecessor, or the two windows start with it. */
  predicate MayResume(k: Track, t: real, w: nat) {
    k.joined || (Apart(k.live, t, w) && Apart(k.mine, t, w))
  }

  /**
   Whenever the cycle goes on after a break of the live window, or starts, no
   frame that only one of the two windows holds lies in the w seconds before.
   */
  predicate Resumes(frames: seq<Frame>, key: Key, w: nat, k: Track)
    decreases frames
  {
    frames == [] ||
    var f := frames[0];
    if f.matchId == key.matchId && IsFullTime(f.clock) then Resumes(frames[1..], key, w, AfterFullTime(k))
    else if KeyOf(f) == key && Ingestible(f)
    then MayResume(k, f.liveClock, w) && Resumes(frames[1..], key, w, AfterFrame(k, f.liveClock))
    else Resumes(frames[1..], key, w, k)
  }

  /** Only this cycle's frames of the match are ingestible here. */
  ghost predicate Own(frames: seq<Frame>, key: Key) {
    forall i :: 0 <= i < |frames| && frames[i].matchId == key.matchId && Ingestible(frames[i]) ==>
      KeyOf(frames[i]) == key
  }

  ghost predicate Follows(s: StudyState, m: string, times: seq<real>, last: real, w: nat) {
    Guarded(s, m) && Covers(times, Window(s, m), last, w) && Ordered(Window(s, m), last)
  }

  ghost predicate InStep(s: StudyState, r: StudyState, m: string, k: Track, last: real, w: nat) {
    && Follows(s, m, k.live, last, w) && Follows(r, m, k.mine, last, w)
    && (k.met ==> Guard(s, m) == Guard(r, m))
    && if k.joined then k.met && Akin(Window(s, m), Window(r, m)) else Window(s, m) == [] || Window(r, m) == []
  }

  lemma IngestFollows(s: StudyState, f: Frame, now: real, times: seq<real>, last: real, w: nat)
    requires Follows(s, f.matchId, times, last, w) && Ingestible(f) && last <= now
    ensures Follows(Observed(s, f, now, Some(w)), f.matchId, times + [now], now, w)
  {
    var e := EntryOf(f, Guard(s, f.matchId), now);
    ObservedGuarded(s, f, f.matchId, now, Some(w));
    SlideCovers(Window(s, f.matchId), e, times, last, w);
  }

  /** The counters that both studies report of the first common ingestible frame. */
  predicate CountersMeet(gs: Counters, gr: Counters, cycle: seq<Frame>) {
    cycle == [] ||
    if Ingestible(cycle[0]) then Join(gs, cycle[0].counts) == Join(gr, cycle[0].counts)
    else CountersMeet(gs, gr, cycle[1..])
  }

  /** From one guard at zero they meet exactly when the counters start at or above the other. */
  lemma {:induction false} MeetIsFresh(g: Counters, cycle: seq<Frame>)
    requires Leq(ZERO, g)
    ensures CountersMeet(g, ZERO, cycle) <==> CountersFresh(g, cycle)
    ensures CountersMeet(ZERO, g, cycle) <==> CountersFresh(g, cycle)
  {
    if cycle != [] {
      MeetIsFresh(g, cycle[1..]);
    }
  }

  lemma MeetStep(gs: Counters, gr: Counters, frames: seq<Frame>, key: Key)
    requires frames != []
    ensures CountersMeet(gs, gr, CycleOf(frames, key))
      <==> if KeyOf(frames[0]) == key && Ingestible(frames[0])
           then Join(gs, frames[0].counts) == Join(gr, frames[0].counts)
           else CountersMeet(gs, gr, CycleOf(frames[1..], key))
  {
    if KeyOf(frames[0]) == key {
      CycleHead(frames, key);
    }
  }

  lemma JoinedWindows(s: StudyState, r: StudyState, f: Frame, w: nat)
    requires Akin(Window(s, f.matchId), Window(r, f.matchId)) && Ingestible(f)
    requires Join(Guard(s, f.matchId), f.counts) == Join(Guard(r, f.matchId), f.counts)
    ensures Akin(Slid(s, f, f.liveClock, Some(w)), Slid(r, f, f.liveClock, Some(w)))
  {
    var a, b, t := Window(s, f.matchId), Window(r, f.matchId), f.liveClock;
    var e := EntryOf(f, Guard(s, f.matchId), t);
    if Padded(a, b) {
      PaddedPrune(a, b, e, t - w as real);
    } else {
      PaddedPrune(b, a, e, t - w as real);
    }
  }

  lemma BrokenSlides(a: seq<Entry>, b: seq<Entry>, e: Entry, k: Track, last: real, w: nat)
    requires Covers(k.live, a, last, w) && Ordered(a, last) && Covers(k.mine, b, last, w) && Ordered(b, last)
    requires last <= e.ts && !k.joined && (a == [] || b == [])
    ensures var p, q := Since(a + [e], e.ts - w as real), Since(b + [e], e.ts - w as real);
            && p != [] && q != []
            && (MayResume(k, e.ts, w) ==> Akin(p, q)) && (!MayResume(k, e.ts, w) ==> !SameStart(p, q))
  {
    SlideStart(a, e, k.live, last, w);
    SlideStart(b, e, k.mine, last, w);
  }

  lemma SlidIs(s: StudyState, f: Frame, now: real, e: Entry, w: nat)
    requires e == EntryOf(f, Guard(s, f.matchId), now)
    ensures Slid(s, f, now, Some(w)) == Since(Window(s, f.matchId) + [e], now - w as real)
  {}

  lemma BrokenWindows(s: StudyState, r: StudyState, f: Frame, k: Track, last: real, w: nat)
    requires Covers(k.live, Window(s, f.matchId), last, w) && Ordered(Window(s, f.matchId), last)
    requires Covers(k.mine, Window(r, f.matchId), last, w) && Ordered(Window(r, f.matchId), last)
    requires Ingestible(f) && last <= f.liveClock
    requires !k.joined && (Window(s, f.matchId) == [] || Window(r, f.matchId) == [])
    requires Join(Guard(s, f.matchId), f.counts) == Join(Guard(r, f.matchId), f.counts)
    ensures var p, q := Slid(s, f, f.liveClock, Some(w)), Slid(r, f, f.liveClock, Some(w));
            && (MayResume(k, f.liveClock, w) ==> Akin(p, q))
            && (!MayResume(k, f.liveClock, w) ==> !SameStart(p, q))
  {
    var t := f.liveClock;
    var e := EntryOf(f, Guard(s, f.matchId), t);
    SlidIs(s, f, t, e, w);
    SlidIs(r, f, t, e, w);
    BrokenSlides(Window(s, f.matchId), Window(r, f.matchId), e, k, last, w);
  }

  /** The windows after a frame with equal counters: akin exactly when the frame may resume. */
  lemma WindowsTell(s: StudyState, r: StudyState, f: Frame, k: Track, last: real, w: nat)
    requires InStep(s, r, f.matchId, k, last, w) && Ingestible(f) && last <= f.liveClock
    requires Join(Guard(s, f.matchId), f.counts) == Join(Guard(r, f.matchId), f.counts)
    ensures var p, q := Slid(s, f, f.liveClock, Some(w)), Slid(r, f, f.liveClock, Some(w));
            && (MayResume(k, f.liveClock, w) ==> Akin(p, q))
            && (!MayResume(k, f.liveClock, w) ==> !SameStart(p, q))
  {
    if k.joined {
      JoinedWindows(s, r, f, w);
    } else {
      BrokenWindows(s, r, f, k, last, w);
    }
  }

  /** The counters the two studies will report of the frame agree. */
  predicate MayCount(s: StudyState, r: StudyState, f: Frame) {
    Join(Guard(s, f.matchId), f.counts) == Join(Guard(r, f.matchId), f.counts)
  }

  /** One frame of the cycle on one clock: the snapshots agree exactly when the counters do and it may resume. */
  lemma SameClock(s: StudyState, r: StudyState, f: Frame, k: Track, last: real, w: nat)
    requires InStep(s, r, f.matchId, k, last, w) && Ingestible(f) && last <= f.liveClock
    ensures Snapshots(s, f, f.liveClock, Some(w)) == Snapshots(r, f, f.liveClock, Some(w))
      <==> MayCount(s, r, f) && MayResume(k, f.liveClock, w)
  {
    var t := f.liveClock;
    SnapshotsTell(s, r, f, t, w);
    SnapshotTotals(s, f, t, Some(w));
    SnapshotTotals(r, f, t, Some(w));
    if MayCount(s, r, f) {
      WindowsTell(s, r, f, k, last, w);
      if MayResume(k, t, w) {
        AkinView(Slid(s, f, t, Some(w)), Slid(r, f, t, Some(w)));
      }
    }
  }

  /** The two studies stay in step over a frame they agree on. */
  lemma StaysInStep(s: StudyState, r: StudyState, f: Frame, k: Track, last: real, w: nat)
    requires InStep(s, r, f.matchId, k, last, w) && Ingestible(f) && last <= f.liveClock
    requires MayCount(s, r, f) && MayResume(k, f.liveClock, w)
    ensures InStep(Observed(s, f, f.liveClock, Some(w)), Observed(r, f, f.liveClock, Some(w)), f.matchId,
                   AfterFrame(k, f.liveClock), f.liveClock, w)
  {
    WindowsTell(s, r, f, k, last, w);
    IngestFollows(s, f, f.liveClock, k.live, last, w);
    IngestFollows(r, f, f.liveClock, k.mine, last, w);
  }

  lemma OwnTail(frames: seq<Frame>, key: Key)
    requires Own(frames, key) && frames != []
    ensures Own(frames[1..], key)
  {
    forall i | 0 <= i < |frames| - 1 && frames[1..][i].matchId == key.matchId && Ingestible(frames[1..][i])
      ensures KeyOf(frames[1..][i]) == key
    {
      assert frames[1..][i] == frames[i + 1];
    }
  }

  lemma FullTimeStep(s: StudyState, r: StudyState, f: Frame, k: Track, last: real, w: nat)
    requires InStep(s, r, f.matchId, k, last, w) && IsFullTime(f.clock) && f.matchId != ""
    ensures InStep(LiveStep(s, f, Some(w)), r, f.matchId, AfterFullTime(k), last, w)
  {}

  lemma OtherStep(s: StudyState, r: StudyState, f: Frame, m: string, k: Track, last: real, w: nat)
    requires InStep(s, r, m, k, last, w)
    requires f.matchId == m ==> !Ingestible(f) && !IsFullTime(f.clock)
    ensures InStep(LiveStep(s, f, Some(w)), r, m, k, last, w)
  {}

  /** What must hold from here on for the rest of the cycle to replay exactly. */
  ghost predicate Replays(s: StudyState, r: StudyState, frames: seq<Frame>, key: Key, k: Track, w: nat) {
    && ClocksAgree(CycleOf(frames, key))
    && (!k.met ==> CountersMeet(Guard(s, key.matchId), Guard(r, key.matchId), CycleOf(frames, key)))
    && Resumes(frames, key, w, k)
  }

  ghost predicate Agree(s: StudyState, r: StudyState, frames: seq<Frame>, key: Key, w: nat) {
    LiveOutputsOf(s, frames, key, w) == ReplayOutputs(r, CycleOf(frames, key), w)
  }

  /** An ingestible frame of the cycle: both sides reduce to the rest in the same way. */
  lemma TakeExact(s: StudyState, r: StudyState, frames: seq<Frame>, key: Key, k: Track, last: real, w: nat)
    requires frames != [] && KeyOf(frames[0]) == key && Ingestible(frames[0])
    requires InStep(s, r, key.matchId, k, last, w) && last <= frames[0].liveClock
    ensures var f, rest := frames[0], frames[1..];
            var s', r' := LiveStep(s, f, Some(w)), Observed(r, f, ReplayNow(f), Some(w));
            var good := f.liveClock == ReplayNow(f) && MayCount(s, r, f) && MayResume(k, f.liveClock, w);
            && (Agree(s, r, frames, key, w) <==> good && Agree(s', r', rest, key, w))
            && (Replays(s, r, frames, key, k, w)
                <==> good && Replays(s', r', rest, key, AfterFrame(k, f.liveClock), w))
            && (good ==> InStep(s', r', key.matchId, AfterFrame(k, f.liveClock), f.liveClock, w))
  {
    var f := frames[0];
    TakeParity(s, r, frames, key, w);
    MeetStep(Guard(s, key.matchId), Guard(r, key.matchId), frames, key);
    if LiveOutput(s, f, Some(w)) == Snapshots(r, f, ReplayNow(f), Some(w)) {
      ClocksTell(s, r, f, f.liveClock, ReplayNow(f), w);
    }
    SameClock(s, r, f, k, last, w);
    if MayCount(s, r, f) && MayResume(k, f.liveClock, w) {
      StaysInStep(s, r, f, k, last, w);
    }
  }

  /** Any other frame: both sides reduce to the rest, after a full time with the live run broken. */
  lemma SkipExact(s: StudyState, r: StudyState, frames: seq<Frame>, key: Key, k: Track, w: nat)
    requires frames != [] && !(KeyOf(frames[0]) == key && Ingestible(frames[0]))
    requires frames[0].matchId == key.matchId ==> !Ingestible(frames[0])
    ensures var f, rest, s' := frames[0], frames[1..], LiveStep(s, frames[0], Some(w));
            var k' := if f.matchId == key.matchId && IsFullTime(f.clock) then AfterFullTime(k) else k;
            && (Agree(s, r, frames, key, w) <==> Agree(s', r, rest, key, w))
            && (Replays(s, r, frames, key, k, w) <==> Replays(s', r, rest, key, k', w))
  {
    SkipParity(s, r, frames, key, w);
    MeetStep(Guard(s, key.matchId), Guard(r, key.matchId), frames, key);
    assert Guard(LiveStep(s, frames[0], Some(w)), key.matchId) == Guard(s, key.matchId);
  }

  lemma {:induction false} RunExact(
    s: StudyState, r: StudyState, frames: seq<Frame>, key: Key, k: Track, last: real, w: nat)
    requires key.matchId != "" && Own(frames, key) && ClockRises(frames, key.matchId, last)
    requires InStep(s, r, key.matchId, k, last, w)
    ensures Agree(s, r, frames, key, w) <==> Replays(s, r, frames, key, k, w)
    decreases frames
  {
    if frames != [] {
      var f, rest := frames[0], frames[1..];
      OwnTail(frames, key);
      var s' := LiveStep(s, f, Some(w));
      if f.matchId == key.matchId && IsFullTime(f.clock) {
        SkipExact(s, r, frames, key, k, w);
        FullTimeStep(s, r, f, k, last, w);
        RunExact(s', r, rest, key, AfterFullTime(k), last, w);
      } else if KeyOf(f) == key && Ingestible(f) {
        TakeExact(s, r, frames, key, k, last, w);
        var r' := Observed(r, f, ReplayNow(f), Some(w));
        if InStep(s', r', key.matchId, AfterFrame(k, f.liveClock), f.liveClock, w) {
          RunExact(s', r', rest, key, AfterFrame(k, f.liveClock), f.liveClock, w);
        }
      } else {
        SkipExact(s, r, frames, key, k, w);
        OtherStep(s, r, f, key.matchId, k, last, w);
        RunExact(s', r, rest, key, k, last, w);
      }
    }
  }

  // ----- a whole history -----

  /** The live times of the match's frames since its last full time, after the given ones. */
  function TimesAfter(frames: seq<Frame>, m: string, times: seq<real>): seq<real>
    decreases frames
  {
    if frames == [] then times
    else
      var f := frames[0];
      TimesAfter(frames[1..], m,
        if f.matchId == m && IsFullTime(f.clock) then []
        else if f.matchId == m && Ingestible(f) then times + [f.liveClock]
        else times)
  }

  lemma {:induction false} RunFollows(
    s: StudyState, frames: seq<Frame>, m: string, times: seq<real>, last: real, w: nat)
    requires m != "" && Follows(s, m, times, last, w) && ClockRises(frames, m, last)
    ensures Follows(LiveState(s, frames, Some(w)), m, TimesAfter(frames, m, times), LastSeen(frames, m, last), w)
    decreases frames
  {
    if frames != [] {
      var f := frames[0];
      var s' := LiveStep(s, f, Some(w));
      if f.matchId == m && IsFullTime(f.clock) {
        assert Follows(s', m, [], last, w);
        RunFollows(s', frames[1..], m, [], last, w);
      } else if f.matchId == m && Ingestible(f) {
        IngestFollows(s, f, f.liveClock, times, last, w);
        RunFollows(s', frames[1..], m, times + [f.liveClock], f.liveClock, w);
      } else {
        assert Window(s', m) == Window(s, m) && Guard(s', m) == Guard(s, m);
        RunFollows(s', frames[1..], m, times, last, w);
      }
    }
  }

  lemma {:induction false} RisesOn(a: seq<Frame>, b: seq<Frame>, m: string, last: real)
    requires ClockRises(a + b, m, last)
    ensures ClockRises(a, m, last) && ClockRises(b, m, LastSeen(a, m, last))
    decreases a
  {
    if a == [] {
      assert a + b == b;
    } else {
      assert (a + b)[1..] == a[1..] + b && (a + b)[0] == a[0];
      RisesOn(a[1..], b, m, if a[0].matchId == m && Ingestible(a[0]) then a[0].liveClock else last);
    }
  }

  /**
   The cycle's replay is exact over the history that offline holds, the live study
   having seen the lost frames before it.
   */
  ghost predicate Exact(lost: seq<Frame>, history: seq<Frame>, key: Key, w: nat) {
    LiveOutputsOf(LiveState(EMPTY_STUDY, lost, Some(w)), history, key, w)
      == ReplayOutputs(EMPTY_STUDY, CycleOf(history, key), w)
  }

  /** Frames around the fixture that yield nothing for its cycle change nothing about it. */
  lemma AroundSilent(
    s: StudyState, r: StudyState, before: seq<Frame>, during: seq<Frame>, after: seq<Frame>, key: Key, w: nat)
    requires Silent(before, key) && Silent(after, key)
    ensures Agree(s, r, before + during + after, key, w)
      <==> Agree(LiveState(s, before, Some(w)), r, during, key, w)
    ensures ClocksAgree(CycleOf(before + during + after, key)) <==> ClocksAgree(CycleOf(during, key))
  {
    LiveParts(s, before, during, after, key, w);
    ReplayParts(r, before, during, after, key, w);
    Sandwich(Blanks(CycleOf(before, key)), LiveOutputsOf(LiveState(s, before, Some(w)), during, key, w),
             ReplayOutputs(r, CycleOf(during, key), w), Blanks(CycleOf(after, key)));
  }

  /** What the live study brings along from the earlier frames of the match id. */
  function Opening(earlier: seq<Frame>, m: string): Track {
    Track(TimesAfter(earlier, m, []), [], false, false)
  }

  lemma OpeningInStep(earlier: seq<Frame>, m: string, first: real, w: nat)
    requires m != "" && ClockRises(earlier, m, first)
    ensures var s := LiveState(EMPTY_STUDY, earlier, Some(w));
            && InStep(s, EMPTY_STUDY, m, Opening(earlier, m), LastSeen(earlier, m, first), w)
            && Guard(s, m) == Peak(earlier, m) && Leq(ZERO, Peak(earlier, m)) && Guard(EMPTY_STUDY, m) == ZERO
  {
    assert Follows(EMPTY_STUDY, m, [], first, w);
    RunFollows(EMPTY_STUDY, earlier, m, [], first, w);
    GuardIsPeak(EMPTY_STUDY, earlier, m, Some(w));
    PeakFloor(earlier, m);
  }

  /** From any earlier frames: the stretch replays exactly if and only if the three conditions hold. */
  lemma StretchExact(earlier: seq<Frame>, during: seq<Frame>, key: Key, first: real, w: nat)
    requires Own(during, key) && ClockRises(earlier + during, key.matchId, first)
    ensures Agree(LiveState(EMPTY_STUDY, earlier, Some(w)), EMPTY_STUDY, during, key, w)
      <==> && ClocksAgree(CycleOf(during, key))
           && CountersFresh(Peak(earlier, key.matchId), CycleOf(during, key))
           && Resumes(during, key, w, Opening(earlier, key.matchId))
  {
    var m, s := key.matchId, LiveState(EMPTY_STUDY, earlier, Some(w));
    if m == "" {
      Nameless(s, EMPTY_STUDY, during, key, w, Opening(earlier, m), Peak(earlier, m));
    } else {
      RisesOn(earlier, during, m, first);
      OpeningInStep(earlier, m, first, w);
      MeetIsFresh(Peak(earlier, m), CycleOf(during, key));
      RunExact(s, EMPTY_STUDY, during, key, Opening(earlier, m), LastSeen(earlier, m, first), w);
    }
  }

  /**
   Offline replay equals live, exactly. Offline holds a history whose older frames,
   if any, were cut off, though live saw them. One stretch of it holds the cycle's
   remaining ingestible frames and no other fixture's of the same match id, and the
   live clock of the match never runs backwards. Replaying the cycle in a fresh
   study then yields the snapshots of the shared live study to the last field if and
   only if
   - on each ingested frame the live clock was the frame's replay clock,
   - the first ingested counters are not below the peak live had seen of the match
     id by then, and
   - at the start, and again after every full-time clock of the match, no frame
     that only one of the two windows holds lies in the w seconds before the next
     ingested frame.
   */
  lemma ParityExact(
    lost: seq<Frame>, before: seq<Frame>, during: seq<Frame>, after: seq<Frame>, key: Key, first: real, w: nat)
    requires Silent(before, key) && Own(during, key) && Silent(after, key)
    requires ClockRises(lost + before + during, key.matchId, first)
    ensures Exact(lost, before + during + after, key, w)
      <==> && ClocksAgree(CycleOf(before + during + after, key))
           && CountersFresh(Peak(lost + before, key.matchId), CycleOf(during, key))
           && Resumes(during, key, w, Opening(lost + before, key.matchId))
  {
    AroundSilent(LiveState(EMPTY_STUDY, lost, Some(w)), EMPTY_STUDY, before, during, after, key, w);
    LiveStateAppend(EMPTY_STUDY, lost, before, w);
    StretchExact(lost + before, during, key, first, w);
  }

  /** The same with nothing around the stretch: a fixture cut in two, or whole when nothing is lost. */
  lemma CutParity(lost: seq<Frame>, kept: seq<Frame>, key: Key, first: real, w: nat)
    requires Own(kept, key) && ClockRises(lost + kept, key.matchId, first)
    ensures Exact(lost, kept, key, w)
      <==> && ClocksAgree(CycleOf(kept, key)) && CountersFresh(Peak(lost, key.matchId), CycleOf(kept, key))
           && Resumes(kept, key, w, Opening(lost, key.matchId))
  {
    StretchExact(lost, kept, key, first, w);
  }

  /** The same with nothing lost. */
  lemma WholeParity(history: seq<Frame>, key: Key, first: real, w: nat)
    requires Own(history, key) && ClockRises(history, key.matchId, first)
    ensures Exact([], history, key, w)
      <==> && ClocksAgree(CycleOf(history, key)) && CountersFresh(ZERO, CycleOf(history, key))
           && Resumes(history, key, w, Track([], [], false, false))
  {
    assert [] + history == history;
    assert TimesAfter([], key.matchId, []) == [] && Peak([], key.matchId) == ZERO;
    CutParity([], history, key, first, w);
  }

  // ----- a live study that started later than the history -----

  /** The receive clock never runs backwards on the ingestible frames of a cycle. */
  ghost predicate ReplayRises(cycle: seq<Frame>, last: real) {
    cycle == [] ||
    if Ingestible(cycle[0]) then last <= ReplayNow(cycle[0]) && ReplayRises(cycle[1..], ReplayNow(cycle[0]))
    else ReplayRises(cycle[1..], last)
  }

  function LastReplayed(cycle: seq<Frame>, last: real): real {
    if cycle == [] then last
    else LastReplayed(cycle[1..], if Ingestible(cycle[0]) then ReplayNow(cycle[0]) else last)
  }

  /** The replay times of the ingestible frames of a cycle, after the given ones. */
  function TimesReplayed(cycle: seq<Frame>, times: seq<real>): seq<real>
    decreases cycle
  {
    if cycle == [] then times
    else TimesReplayed(cycle[1..], if Ingestible(cycle[0]) then times + [ReplayNow(cycle[0])] else times)
  }

  lemma {:induction false} ReplayFollows(
    r: StudyState, cycle: seq<Frame>, m: string, times: seq<real>, last: real, w: nat)
    requires forall i :: 0 <= i < |cycle| ==> cycle[i].matchId == m
    requires Follows(r, m, times, last, w) && ReplayRises(cycle, last)
    ensures Follows(ReplayState(r, cycle, w), m, TimesReplayed(cycle, times), LastReplayed(cycle, last), w)
    decreases cycle
  {
    if cycle != [] {
      var f := cycle[0];
      var r' := Observed(r, f, ReplayNow(f), Some(w));
      if Ingestible(f) {
        IngestFollows(r, f, ReplayNow(f), times, last, w);
        ReplayFollows(r', cycle[1..], m, times + [ReplayNow(f)], ReplayNow(f), w);
      } else {
        ReplayFollows(r', cycle[1..], m, times, last, w);
      }
    }
  }

  lemma {:induction false} CycleNames(frames: seq<Frame>, key: Key)
    ensures forall i :: 0 <= i < |CycleOf(frames, key)| ==> KeyOf(CycleOf(frames, key)[i]) == key
  {
    if frames != [] {
      CycleNames(frames[1..], key);
    }
  }

  /** What the replay brings along from frames that live has missed. */
  function Ahead(missed: seq<Frame>): Track {
    Track([], TimesReplayed(missed, []), false, false)
  }

  lemma AheadInStep(missed: seq<Frame>, key: Key, first: real, w: nat)
    requires ReplayRises(CycleOf(missed, key), first)
    ensures var cycle, m := CycleOf(missed, key), key.matchId;
            var r := ReplayState(EMPTY_STUDY, cycle, w);
            && InStep(EMPTY_STUDY, r, m, Ahead(cycle), LastReplayed(cycle, first), w)
            && Guard(r, m) == Peak(cycle, m) && Leq(ZERO, Peak(cycle, m)) && Guard(EMPTY_STUDY, m) == ZERO
  {
    var cycle, m := CycleOf(missed, key), key.matchId;
    CycleNames(missed, key);
    assert Follows(EMPTY_STUDY, m, [], first, w);
    ReplayFollows(EMPTY_STUDY, cycle, m, [], first, w);
    ReplayGuardIsPeak(EMPTY_STUDY, cycle, m, w);
    PeakFloor(cycle, m);
    assert Follows(EMPTY_STUDY, m, [], LastReplayed(cycle, first), w);
  }

  /**
   The mirror image: live was restarted, offline holds frames that the new live
   study never saw. From there on replay is exact under the same three conditions,
   with the two sides exchanged.
   */
  lemma RestartParity(
    missed: seq<Frame>, during: seq<Frame>, after: seq<Frame>, key: Key, first: real, w: nat)
    requires Own(during, key) && Silent(after, key)
    requires ReplayRises(CycleOf(missed, key), first)
    requires ClockRises(during, key.matchId, LastReplayed(CycleOf(missed, key), first))
    ensures var r := ReplayState(EMPTY_STUDY, CycleOf(missed, key), w);
            ReplayOutputs(EMPTY_STUDY, CycleOf(missed + (during + after), key), w)
              == ReplayOutputs(EMPTY_STUDY, CycleOf(missed, key), w)
                 + ReplayOutputs(r, CycleOf(during + after, key), w)
    ensures Agree(EMPTY_STUDY, ReplayState(EMPTY_STUDY, CycleOf(missed, key), w), during + after, key, w)
      <==> && ClocksAgree(CycleOf(during + after, key))
           && CountersFresh(Peak(CycleOf(missed, key), key.matchId), CycleOf(during, key))
           && Resumes(during, key, w, Ahead(CycleOf(missed, key)))
  {
    var m, cycle := key.matchId, CycleOf(missed, key);
    var r := ReplayState(EMPTY_STUDY, cycle, w);
    CycleAppend(missed, during + after, key);
    ReplayAppend(EMPTY_STUDY, cycle, CycleOf(during + after, key), w);
    assert [] + during + after == during + after;
    AroundSilent(EMPTY_STUDY, r, [], during, after, key, w);
    if m == "" {
      Nameless(EMPTY_STUDY, r, during, key, w, Ahead(cycle), Peak(cycle, m));
    } else {
      AheadInStep(missed, key, first, w);
      MeetIsFresh(Peak(cycle, m), CycleOf(during, key));
      RunExact(EMPTY_STUDY, r, during, key, Ahead(cycle), LastReplayed(cycle, first), w);
    }
  }

  lemma {:induction false} NeverIngested(frames: seq<Frame>, m: string)
    requires forall f :: f in frames && f.matchId == m ==> !Ingestible(f)
    ensures Peak(frames, m) == ZERO && TimesAfter(frames, m, []) == []
    decreases frames
  {
    if frames != [] {
      assert frames[0] in frames;
      NeverIngested(frames[1..], m);
    }
  }

  /** The first fixture of a match id: only the clocks and misplaced full times matter. */
  lemma FirstFixtureParity(
    lost: seq<Frame>, before: seq<Frame>, during: seq<Frame>, after: seq<Frame>, key: Key, first: real, w: nat)
    requires forall f :: f in lost + before && f.matchId == key.matchId ==> !Ingestible(f)
    requires Own(during, key) && Silent(after, key)
    requires ClockRises(lost + before + during, key.matchId, first)
    ensures Exact(lost, before + during + after, key, w)
      <==> && ClocksAgree(CycleOf(before + during + after, key))
           && Resumes(during, key, w, Track([], [], false, false))
  {
    assert forall f :: f in before ==> f in lost + before;
    NeverIngested(lost + before, key.matchId);
    ZeroIsFresh(CycleOf(during, key));
    ParityExact(lost, before, during, after, key, first, w);
  }

  /** Without a match id nothing is ingested, and everything agrees. */
  lemma Nameless(
    s: StudyState, r: StudyState, frames: seq<Frame>, key: Key, w: nat, k: Track, peak: Counters)
    requires key.matchId == ""
    ensures Agree(s, r, frames, key, w) && ClocksAgree(CycleOf(frames, key))
    ensures CountersFresh(peak, CycleOf(frames, key)) && Resumes(frames, key, w, k)
  {
    SilentOutputs(s, r, frames, key, w);
    NamelessResumes(frames, key, w, k);
    NamelessFresh(frames, key, peak);
  }

  lemma {:induction false} NamelessResumes(frames: seq<Frame>, key: Key, w: nat, k: Track)
    requires key.matchId == ""
    ensures Resumes(frames, key, w, k)
    decreases frames
  {
    if frames != [] {
      NamelessResumes(frames[1..], key, w, k);
      NamelessResumes(frames[1..], key, w, AfterFullTime(k));
    }
  }

  lemma {:induction false} NamelessFresh(frames: seq<Frame>, key: Key, peak: Counters)
    requires key.matchId == ""
    ensures CountersFresh(peak, CycleOf(frames, key))
    decreases frames
  {
    if frames != [] {
      NamelessFresh(frames[1..], key, peak);
    }
  }

  // ----- histories that diverge -----

  lemma {:induction false} RisesWhen(frames: seq<Frame>, m: string, last: real)
    requires forall i :: 0 <= i < |frames| ==> last <= frames[i].liveClock
    requires forall i, j :: 0 <= i < j < |frames| ==> frames[i].liveClock <= frames[j].liveClock
    ensures ClockRises(frames, m, last)
    decreases frames
  {
    if frames != [] {
      RisesWhen(frames[1..], m, last);
      RisesWhen(frames[1..], m, frames[0].liveClock);
    }
  }

  lemma ThreeOfCycle(a: Frame, b: Frame, c: Frame, key: Key)
    requires KeyOf(a) == KeyOf(b) == KeyOf(c) == key
    ensures CycleOf([a, b, c], key) == [a, b, c]
  {
    assert [a, b, c][1..] == [b, c] && [b, c][1..] == [c] && [c][1..] == [];
    assert CycleOf([c], key) == [c] && CycleOf([b, c], key) == [b, c];
  }

  lemma MidResumes(a: Frame, b: Frame, c: Frame, key: Key, w: nat)
    requires KeyOf(a) == KeyOf(b) == KeyOf(c) == key && Ingestible(a) && IsFullTime(b.clock) && Ingestible(c)
    requires c.liveClock - w as real <= a.liveClock < c.liveClock
    ensures !Resumes([a, b, c], key, w, Track([], [], false, false))
  {
    var k := Track([], [], false, false);
    assert [a, b, c][1..] == [b, c] && [b, c][1..] == [c];
    var k1 := AfterFrame(k, a.liveClock);
    assert a.liveClock in AfterFullTime(k1).mine;
    assert !MayResume(AfterFullTime(k1), c.liveClock, w);
    assert !Resumes([c], key, w, AfterFullTime(k1));
    assert !Resumes([b, c], key, w, k1);
  }

  /**
   A full-time clock in the middle of a fixture: whenever the next frame comes
   later than the last one but within the window, replay differs from live.
   */
  lemma MidCycle(a: Frame, b: Frame, c: Frame, key: Key, w: nat)
    requires KeyOf(a) == KeyOf(b) == KeyOf(c) == key && Ingestible(a) && IsFullTime(b.clock) && Ingestible(c)
    requires c.liveClock - w as real <= a.liveClock < c.liveClock && a.liveClock <= b.liveClock <= c.liveClock
    ensures !Exact([], [a, b, c], key, w)
  {
    RisesWhen([a, b, c], key.matchId, a.liveClock);
    MidResumes(a, b, c, key, w);
    WholeParity([a, b, c], key, a.liveClock, w);
  }

  lemma OnClock(a: Frame, b: Frame, c: Frame, key: Key)
    requires KeyOf(a) == KeyOf(b) == KeyOf(c) == key
    requires a.liveClock == ReplayNow(a) && b.liveClock == ReplayNow(b) && c.liveClock == ReplayNow(c)
    ensures CycleOf([a, b, c], key) == [a, b, c] && ClocksAgree([a, b, c]) && CountersFresh(ZERO, [a, b, c])
  {
    ThreeOfCycle(a, b, c, key);
    ZeroIsFresh([a, b, c]);
  }

  lemma SampleFacts(kickoff: int, clock: string, danger: int, at: real)
    ensures var f := SampleFrame(kickoff, clock, danger, at);
            && KeyOf(f) == Key("epl-2026-0042", kickoff) && f.liveClock == ReplayNow(f) == at && f.clock == clock
            && f.counts == Counters(9, 4, danger) && (clock != "" && !IsBoundary(clock) ==> Ingestible(f))
  {}

  /** Concretely: a match shown once as full time while it still runs, on one clock and with rising counters. */
  lemma MidCycleDiverges(w: nat)
    requires w >= 120
    ensures var history := [SampleFrame(1000, "60'", 20, 4600.0), SampleFrame(1000, "FULLTIME", 20, 4660.0),
                            SampleFrame(1000, "62'", 21, 4720.0)];
            var key := Key("epl-2026-0042", 1000);
            && CycleOf(history, key) == history && ClocksAgree(history) && CountersFresh(ZERO, history)
            && !Exact([], history, key, w)
  {
    var a, b, c := SampleFrame(1000, "60'", 20, 4600.0), SampleFrame(1000, "FULLTIME", 20, 4660.0),
                   SampleFrame(1000, "62'", 21, 4720.0);
    var key := Key("epl-2026-0042", 1000);
    SampleFacts(1000, "60'", 20, 4600.0);
    SampleFacts(1000, "FULLTIME", 20, 4660.0);
    SampleFacts(1000, "62'", 21, 4720.0);
    SampleClocks();
    MinuteIsNoBoundary("62'");
    OnClock(a, b, c, key);
    MidCycle(a, b, c, key, w);
  }

  /** A fixture dropped without its full time shows in the next one under the same match id. */
  lemma Unclosed(a: Frame, b: Frame, key: Key, w: nat)
    requires a.matchId == key.matchId && KeyOf(a) != key == KeyOf(b) && Ingestible(a) && Ingestible(b)
    requires b.liveClock - w as real <= a.liveClock < b.liveClock
    ensures !Exact([], [a] + [b] + [], key, w)
  {
    var m, u := key.matchId, a.liveClock;
    RisesWhen([a] + [b], m, u);
    assert [a][1..] == [] && TimesAfter([a][1..], m, [] + [u]) == [] + [u];
    assert TimesAfter([a], m, []) == [] + [u];
    assert [] + [a] == [a];
    var k := Opening([a], m);
    assert u in k.live && !MayResume(k, b.liveClock, w);
    assert !Resumes([b], key, w, k);
    ParityExact([], [a], [b], [], key, u, w);
  }

  lemma OneFrame(f: Frame, key: Key)
    ensures CycleOf([f], key) == if KeyOf(f) == key then [f] else []
    ensures Ingestible(f) && f.matchId == key.matchId ==> Peak([f], key.matchId) == Join(f.counts, ZERO)
  {
    assert [f][1..] == [] && Peak([f][1..], key.matchId) == ZERO;
  }

  /** Concretely: two fixtures a hundred seconds apart, the counters of the second above those of the first. */
  lemma UnclosedDiverges(w: nat)
    requires w >= 100
    ensures var before, during := [SampleFrame(1000, "60'", 20, 4600.0)], [SampleFrame(9000, "1'", 25, 4700.0)];
            var key := Key("epl-2026-0042", 9000);
            && CycleOf(during, key) == during && ClocksAgree(during)
            && CountersFresh(Peak(before, key.matchId), during)
            && !Exact([], before + during + [], key, w)
  {
    var a, b := SampleFrame(1000, "60'", 20, 4600.0), SampleFrame(9000, "1'", 25, 4700.0);
    var key := Key("epl-2026-0042", 9000);
    SampleFacts(1000, "60'", 20, 4600.0);
    SampleFacts(9000, "1'", 25, 4700.0);
    SampleClocks();
    MinuteIsNoBoundary("1'");
    OneFrame(a, key);
    OneFrame(b, key);
    Unclosed(a, b, key, w);
  }

  lemma TwoOnClock(a: Frame, b: Frame, key: Key, w: nat)
    requires KeyOf(a) == KeyOf(b) == key && Ingestible(a) && Ingestible(b)
    requires a.liveClock == ReplayNow(a) && b.liveClock == ReplayNow(b)
    ensures CycleOf([a, b], key) == [a, b] && ClocksAgree([a, b]) && CountersFresh(ZERO, [a, b])
    ensures Resumes([a, b], key, w, Track([], [], false, false))
  {
    assert [a, b][1..] == [b] && [b][1..] == [];
    assert CycleOf([b], key) == [b];
    ZeroIsFresh([a, b]);
    var k := Track([], [], false, false);
    assert MayResume(k, a.liveClock, w);
    var k1 := AfterFrame(k, a.liveClock);
    assert Resumes([b][1..], key, w, AfterFrame(k1, b.liveClock));
    assert Resumes([b], key, w, k1);
  }

  /** A fixture whose first frame offline no longer holds differs whenever the second came within the window. */
  lemma CutFixture(a: Frame, b: Frame, key: Key, w: nat)
    requires KeyOf(a) == KeyOf(b) == key && Ingestible(a) && Ingestible(b)
    requires b.liveClock - w as real <= a.liveClock < b.liveClock
    ensures !Exact([a], [b], key, w)
  {
    var m, u := key.matchId, a.liveClock;
    RisesWhen([a] + [b], m, u);
    assert [a][1..] == [] && TimesAfter([a][1..], m, [] + [u]) == [] + [u];
    assert TimesAfter([a], m, []) == [] + [u];
    var k := Opening([a], m);
    assert u in k.live && !MayResume(k, b.liveClock, w);
    assert !Resumes([b], key, w, k);
    CutParity([a], [b], key, u, w);
  }

  /** So does a fixture whose first frame came before live was restarted. */
  lemma RestartFixture(a: Frame, b: Frame, key: Key, w: nat)
    requires KeyOf(a) == KeyOf(b) == key && Ingestible(a) && Ingestible(b)
    requires b.liveClock - w as real <= ReplayNow(a) < b.liveClock
    ensures !Agree(EMPTY_STUDY, ReplayState(EMPTY_STUDY, CycleOf([a], key), w), [b] + [], key, w)
  {
    var u := ReplayNow(a);
    OneFrame(a, key);
    assert [a][1..] == [] && ReplayRises([a][1..], u) && LastReplayed([a], u) == LastReplayed([a][1..], u) == u;
    assert TimesReplayed([a], []) == TimesReplayed([a][1..], [] + [u]) == [] + [u];
    RisesWhen([b], key.matchId, u);
    var k := Ahead([a]);
    assert u in k.mine && !MayResume(k, b.liveClock, w);
    assert !Resumes([b], key, w, k);
    RestartParity([a], [b], [], key, u, w);
  }

  /**
   Concretely: two minutes of a fixture replay exactly, but not the second alone
   after the first was cut off, nor after live was restarted in between.
   */
  lemma CutDiverges(w: nat)
    requires w >= 60
    ensures var a, b := SampleFrame(1000, "60'", 20, 4600.0), SampleFrame(1000, "61'", 21, 4660.0);
            var key := Key("epl-2026-0042", 1000);
            && Exact([], [a, b], key, w) && !Exact([a], [b], key, w)
            && !Agree(EMPTY_STUDY, ReplayState(EMPTY_STUDY, CycleOf([a], key), w), [b] + [], key, w)
  {
    var a, b := SampleFrame(1000, "60'", 20, 4600.0), SampleFrame(1000, "61'", 21, 4660.0);
    var key := Key("epl-2026-0042", 1000);
    SampleFacts(1000, "60'", 20, 4600.0);
    SampleFacts(1000, "61'", 21, 4660.0);
    SampleClocks();
    MinuteIsNoBoundary("61'");
    CutFixture(a, b, key, w);
    RestartFixture(a, b, key, w);
    WholeFixture(a, b, key, w);
  }

  lemma WholeFixture(a: Frame, b: Frame, key: Key, w: nat)
    requires KeyOf(a) == KeyOf(b) == key && Ingestible(a) && Ingestible(b) && a.liveClock <= b.liveClock
    requires a.liveClock == ReplayNow(a) && b.liveClock == ReplayNow(b)
    ensures Exact([], [a, b], key, w)
  {
    TwoOnClock(a, b, key, w);
    RisesWhen([a, b], key.matchId, a.liveClock);
    WholeParity([a, b], key, a.liveClock, w);
  }
}
