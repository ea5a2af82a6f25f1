/**
 The Study Room (analytics-engine-py/src/feature_study.py): one sliding window
 and one monotone counter guard per match, folded into 60-second buckets.

 `FeatureStudy` is the mutable object. Its methods are proved against the step
 functions on `StudyState`, and what the study promises over a whole history is
 proved about runs of those functions.
 */
module Study {
  import opened Options
  import opened Text

  /** The three cumulative match counters that the guard protects. */
  datatype Counters = Counters(shots: int, onTarget: int, danger: int)

  const ZERO := Counters(0, 0, 0)

  datatype Market = Market(id: string, odds: map<string, real>)

  /**
   A decoded match frame. `matchId` and `clock` are empty when missing.
   `epoch` is the frame's own receive time; `liveClock` and `replayClock` are
   what the wall clock reads when the live worker, respectively the offline
   replay, handles the frame.
   */
  datatype Frame = Frame(
    matchId: string, kickoff: int, clock: string, league: string, scoreHome: int, scoreAway: int,
    markets: seq<Market>, counts: Counters, possession: real,
    epoch: Option<real>, liveClock: real, replayClock: real)

  datatype Entry = Entry(
    ts: real, clock: string, scoreHome: int, scoreAway: int, counts: Counters, possession: real)

  datatype Snapshot = Snapshot(
    matchId: string, marketId: string, league: string, clock: string, scoreHome: int, scoreAway: int,
    odds: map<string, real>, windowStart: real, windowEnd: real, counts: Counters, possession: real)

  datatype SettledEntry = SettledEntry(
    matchId: string, marketId: string, finalHome: int, finalAway: int, closingOdds: map<string, real>)

  predicate IsFullTime(clock: string) {
    var c := Upper(Trim(clock));
    c == "FULLTIME" || c == "FT"
  }

  /** Clock values that mark a period boundary instead of momentum. */
  predicate IsBoundary(clock: string) {
    var c := Upper(Trim(clock));
    IsFullTime(clock) || c == "HALFTIME" || c == "HT"
  }

  /** The frames that observe_many ingests instead of returning no snapshot. */
  predicate Ingestible(f: Frame) {
    f.matchId != "" && f.clock != "" && !IsBoundary(f.clock) && f.markets != []
  }

  /** The two words that end a match, trimmed and in any case. */
  lemma FullTimeWords(clock: string)
    ensures IsFullTime(clock) <==> Spells(Trim(clock), "FULLTIME", "fulltime") || Spells(Trim(clock), "FT", "ft")
  {
    UpperEquals(Trim(clock), "FULLTIME", "fulltime");
    UpperEquals(Trim(clock), "FT", "ft");
  }

  lemma HalfTimeWords(clock: string)
    ensures IsBoundary(clock)
      <==> IsFullTime(clock) || Spells(Trim(clock), "HALFTIME", "halftime") || Spells(Trim(clock), "HT", "ht")
  {
    UpperEquals(Trim(clock), "HALFTIME", "halftime");
    UpperEquals(Trim(clock), "HT", "ht");
  }

  /** A frame is ingested when it names its match, has a clock that is no boundary word, and carries a market. */
  lemma IngestsWhen(f: Frame)
    ensures Ingestible(f) <==>
      && f.matchId != "" && f.clock != "" && f.markets != []
      && !Spells(Trim(f.clock), "FULLTIME", "fulltime") && !Spells(Trim(f.clock), "FT", "ft")
      && !Spells(Trim(f.clock), "HALFTIME", "halftime") && !Spells(Trim(f.clock), "HT", "ht")
  {
    FullTimeWords(f.clock);
    HalfTimeWords(f.clock);
  }

  // ----- counters: a componentwise join -----

  function Max(a: int, b: int): int {
    if a < b then b else a
  }

  function Join(a: Counters, b: Counters): Counters {
    Counters(Max(a.shots, b.shots), Max(a.onTarget, b.onTarget), Max(a.danger, b.danger))
  }

  predicate Leq(a: Counters, b: Counters) {
    a.shots <= b.shots && a.onTarget <= b.onTarget && a.danger <= b.danger
  }

  /** The largest counters among the entries, zero when there are none. */
  function Totals(s: seq<Entry>): Counters {
    if s == [] then ZERO
    else if |s| == 1 then s[0].counts
    else Join(s[0].counts, Totals(s[1..]))
  }

  lemma {:induction false} TotalsAttained(s: seq<Entry>, c: Counters)
    requires forall i :: 0 <= i < |s| ==> Leq(s[i].counts, c)
    requires exists i :: 0 <= i < |s| && s[i].counts == c
    ensures Totals(s) == c
  {
    if |s| > 1 {
      if s[0].counts == c {
        TotalsBelow(s[1..], c);
      } else {
        var i :| 0 <= i < |s| && s[i].counts == c;
        assert s[1..][i - 1].counts == c;
        TotalsAttained(s[1..], c);
      }
    }
  }

  lemma {:induction false} TotalsBelow(s: seq<Entry>, c: Counters)
    requires s != []
    requires forall i :: 0 <= i < |s| ==> Leq(s[i].counts, c)
    ensures Leq(Totals(s), c)
  {
    if |s| > 1 {
      TotalsBelow(s[1..], c);
    }
  }

  // ----- pruning -----

  /** The entries observed at the cutoff or later, in order. */
  function Since(s: seq<Entry>, cutoff: real): seq<Entry> {
    if s == [] then []
    else
      var rest := Since(s[..|s| - 1], cutoff);
      if s[|s| - 1].ts >= cutoff then rest + [s[|s| - 1]] else rest
  }

  lemma {:induction false} SinceMembers(s: seq<Entry>, cutoff: real)
    ensures forall e :: e in Since(s, cutoff) <==> e in s && e.ts >= cutoff
  {
    if s != [] {
      assert s == s[..|s| - 1] + [s[|s| - 1]];
      SinceMembers(s[..|s| - 1], cutoff);
    }
  }

  /** Pruning again at a later cutoff, with a new entry, is pruning once. */
  lemma SinceAgain(s: seq<Entry>, e: Entry, early: real, late: real)
    requires early <= late
    ensures Since(Since(s, early) + [e], late) == Since(s + [e], late)
  {
    SinceSince(s, early, late);
    var once := Since(s, early);
    assert (once + [e])[..|once|] == once && (s + [e])[..|s|] == s;
  }

  lemma {:induction false} SinceSince(s: seq<Entry>, early: real, late: real)
    requires early <= late
    ensures Since(Since(s, early), late) == Since(s, late)
  {
    if s != [] {
      var init, e := s[..|s| - 1], s[|s| - 1];
      SinceSince(init, early, late);
      var once := Since(init, early);
      if e.ts >= early {
        assert Since(s, early) == once + [e];
        assert (once + [e])[..|once|] == once;
      }
    }
  }

  // ----- 60-second buckets -----

  /** Truncation toward zero, as int() does on a float. */
  function Truncate(x: real): int {
    if x >= 0.0 then x.Floor else -((-x).Floor)
  }

  function BucketOf(e: Entry): int {
    Truncate(e.ts / 60.0)
  }

  /** The bucket dictionary together with the order its keys were inserted in. */
  datatype Buckets = Buckets(order: seq<int>, at: map<int, Entry>)

  ghost predicate ValidBuckets(b: Buckets) {
    && (forall k :: k in b.at ==> k in b.order)
    && (forall i :: 0 <= i < |b.order| ==> b.order[i] in b.at)
    && (forall i, j :: 0 <= i < j < |b.order| ==> b.order[i] != b.order[j])
  }

  function Deposit(b: Buckets, e: Entry): (r: Buckets)
    ensures ValidBuckets(b) ==> ValidBuckets(r)
  {
    var k := BucketOf(e);
    var missing := k !in b.at;
    var base := if missing then Entry(e.ts, e.clock, e.scoreHome, e.scoreAway, ZERO, 0.5) else b.at[k];
    Buckets(if missing then b.order + [k] else b.order,
            b.at[k := base.(counts := Join(base.counts, e.counts), possession := e.possession)])
  }

  function Deposits(s: seq<Entry>): (b: Buckets)
    ensures ValidBuckets(b)
  {
    if s == [] then Buckets([], map[]) else Deposit(Deposits(s[..|s| - 1]), s[|s| - 1])
  }

  function BucketValues(order: seq<int>, at: map<int, Entry>): (r: seq<Entry>)
    requires forall i :: 0 <= i < |order| ==> order[i] in at
    ensures |r| == |order| && forall i :: 0 <= i < |r| ==> r[i] == at[order[i]]
  {
    seq(|order|, i requires 0 <= i < |order| => at[order[i]])
  }

  /** Stable insertion by timestamp. */
  function InsertByTs(e: Entry, s: seq<Entry>): (r: seq<Entry>)
    ensures multiset(r) == multiset(s) + multiset{e}
  {
    if s == [] then [e]
    else if s[|s| - 1].ts <= e.ts then s + [e]
    else
      assert s == s[..|s| - 1] + [s[|s| - 1]];
      InsertByTs(e, s[..|s| - 1]) + [s[|s| - 1]]
  }

  function SortByTs(s: seq<Entry>): (r: seq<Entry>)
    ensures multiset(r) == multiset(s)
  {
    if s == [] then []
    else
      assert s == s[..|s| - 1] + [s[|s| - 1]];
      InsertByTs(s[|s| - 1], SortByTs(s[..|s| - 1]))
  }

  function Aggregated(s: seq<Entry>): seq<Entry> {
    var b := Deposits(s);
    SortByTs(BucketValues(b.order, b.at))
  }

  /** Each loop pass of the fold is one deposit; the sort comes last. */
  method Aggregate(entries: seq<Entry>) returns (r: seq<Entry>)
    ensures r == Aggregated(entries)
  {
    if entries == [] {
      return [];
    }
    var order: seq<int>, at: map<int, Entry> := [], map[];
    for i := 0 to |entries|
      invariant Buckets(order, at) == Deposits(entries[..i])
    {
      var e := entries[i];
      assert entries[..i + 1][..i] == entries[..i];
      var bucket := BucketOf(e);
      if bucket !in at {
        order := order + [bucket];
        at := at[bucket := Entry(e.ts, e.clock, e.scoreHome, e.scoreAway, ZERO, 0.5)];
      }
      var base := at[bucket];
      at := at[bucket := base.(counts := Join(base.counts, e.counts), possession := e.possession)];
    }
    assert entries[..|entries|] == entries;
    r := SortByTs(BucketValues(order, at));
  }

  lemma {:induction false} BucketAbove(s: seq<Entry>, i: nat)
    requires i < |s|
    ensures BucketOf(s[i]) in Deposits(s).at && Leq(s[i].counts, Deposits(s).at[BucketOf(s[i])].counts)
  {
    if i < |s| - 1 {
      BucketAbove(s[..|s| - 1], i);
    }
  }

  lemma {:induction false} BucketBelow(s: seq<Entry>, k: int, c: Counters)
    requires k in Deposits(s).at && Leq(ZERO, c)
    requires forall i :: 0 <= i < |s| && BucketOf(s[i]) == k ==> Leq(s[i].counts, c)
    ensures Leq(Deposits(s).at[k].counts, c)
  {
    if s != [] {
      var init := s[..|s| - 1];
      if k in Deposits(init).at {
        assert forall i :: 0 <= i < |init| ==> init[i] == s[i];
        BucketBelow(init, k, c);
      }
    }
  }

  /** The last entry of a bucket, whose possession the bucket reports. */
  lemma {:induction false} BucketLast(s: seq<Entry>, k: int) returns (i: nat)
    requires k in Deposits(s).at
    ensures i < |s| && BucketOf(s[i]) == k && Deposits(s).at[k].possession == s[i].possession
    ensures forall j :: i < j < |s| ==> BucketOf(s[j]) != k
  {
    if BucketOf(s[|s| - 1]) == k {
      i := |s| - 1;
    } else {
      i := BucketLast(s[..|s| - 1], k);
    }
  }

  lemma AggregatedFrom(s: seq<Entry>, i: nat) returns (k: int)
    requires i < |Aggregated(s)|
    ensures k in Deposits(s).at && Aggregated(s)[i] == Deposits(s).at[k]
  {
    var b := Deposits(s);
    var values := BucketValues(b.order, b.at);
    assert Aggregated(s)[i] in multiset(values);
    var j :| 0 <= j < |values| && values[j] == Aggregated(s)[i];
    k := b.order[j];
  }

  lemma AggregatedHas(s: seq<Entry>, k: int) returns (i: nat)
    requires k in Deposits(s).at
    ensures i < |Aggregated(s)| && Aggregated(s)[i] == Deposits(s).at[k]
  {
    var b := Deposits(s);
    var values := BucketValues(b.order, b.at);
    var j :| 0 <= j < |b.order| && b.order[j] == k;
    assert values[j] in multiset(Aggregated(s));
    i :| 0 <= i < |Aggregated(s)| && Aggregated(s)[i] == values[j];
  }

  lemma AggregatedLength(s: seq<Entry>)
    ensures |Aggregated(s)| == |Deposits(s).order|
  {
    var b := Deposits(s);
    var values := BucketValues(b.order, b.at);
    assert |Aggregated(s)| == |multiset(Aggregated(s))| == |multiset(values)| == |values|;
  }

  /** Bucketing never hides the newest counters: the reported totals are the window's largest. */
  lemma WindowTotals(s: seq<Entry>, n: nat, c: Counters)
    requires Leq(ZERO, c)
    requires forall i :: 0 <= i < |s| ==> Leq(s[i].counts, c)
    requires n < |s| && s[n].counts == c
    ensures Totals(Aggregated(s)) == c
  {
    var agg := Aggregated(s);
    forall j | 0 <= j < |agg|
      ensures Leq(agg[j].counts, c)
    {
      var k := AggregatedFrom(s, j);
      BucketBelow(s, k, c);
    }
    BucketAbove(s, n);
    var i := AggregatedHas(s, BucketOf(s[n]));
    assert agg[i].counts == c;
    TotalsAttained(agg, c);
  }

  // ----- mean possession -----

  function PossessionSum(s: seq<Entry>): real {
    if s == [] then 0.0 else s[0].possession + PossessionSum(s[1..])
  }

  function MeanPossession(s: seq<Entry>): real {
    PossessionSum(s) / Max(|s|, 1) as real
  }

  lemma {:induction false} SumBetween(s: seq<Entry>, lo: real, hi: real)
    requires forall i :: 0 <= i < |s| ==> lo <= s[i].possession <= hi
    ensures |s| as real * lo <= PossessionSum(s) <= |s| as real * hi
  {
    if s != [] {
      SumBetween(s[1..], lo, hi);
      assert |s| as real == |s[1..]| as real + 1.0;
    }
  }

  lemma DivideBetween(sum: real, n: real, lo: real, hi: real)
    requires n > 0.0 && n * lo <= sum <= n * hi
    ensures lo <= sum / n <= hi
  {
    var q := sum / n;
    assert q * n == sum;
    assert q < lo ==> q * n < lo * n;
    assert hi < q ==> hi * n < q * n;
  }

  lemma MeanBetween(s: seq<Entry>, lo: real, hi: real)
    requires s != []
    requires forall i :: 0 <= i < |s| ==> lo <= s[i].possession <= hi
    ensures lo <= MeanPossession(s) <= hi
  {
    SumBetween(s, lo, hi);
    DivideBetween(PossessionSum(s), |s| as real, lo, hi);
  }

  /** The mean over buckets stays between the smallest and largest possession in the window. */
  lemma PossessionBetween(s: seq<Entry>, lo: real, hi: real)
    requires s != []
    requires forall i :: 0 <= i < |s| ==> lo <= s[i].possession <= hi
    ensures lo <= MeanPossession(Aggregated(s)) <= hi
  {
    forall j | 0 <= j < |Aggregated(s)|
      ensures lo <= Aggregated(s)[j].possession <= hi
    {
      var k := AggregatedFrom(s, j);
      var i := BucketLast(s, k);
    }
    BucketAbove(s, 0);
    var i := AggregatedHas(s, BucketOf(s[0]));
    MeanBetween(Aggregated(s), lo, hi);
  }

  // ----- the number of buckets -----

  lemma {:induction false} RangeSize(s: set<int>, lo: int, hi: int)
    requires forall x :: x in s ==> lo <= x <= hi
    requires lo <= hi + 1
    ensures |s| <= hi - lo + 1
    decreases hi - lo
  {
    if lo <= hi {
      RangeSize(s - {hi}, lo, hi - 1);
      assert s <= (s - {hi}) + {hi};
    } else {
      assert forall x :: x !in s;
    }
  }

  lemma {:induction false} DistinctSize(s: seq<int>)
    requires forall i, j :: 0 <= i < j < |s| ==> s[i] != s[j]
    ensures |set x | x in s| == |s|
  {
    if s != [] {
      DistinctSize(s[1..]);
      assert (set x | x in s) == (set x | x in s[1..]) + {s[0]};
    }
  }

  /** A window of w seconds on a non-negative clock folds into at most w/60 + 2 buckets: 14 for 750 s. */
  lemma BucketCount(s: seq<Entry>, now: real, w: nat)
    requires forall i :: 0 <= i < |s| ==> 0.0 <= s[i].ts && now - w as real <= s[i].ts <= now
    ensures |Aggregated(s)| <= w / 60 + 2
  {
    AggregatedLength(s);
    var b := Deposits(s);
    var lo, hi := ((now - w as real) / 60.0).Floor, (now / 60.0).Floor;
    assert lo <= hi <= lo + w / 60 + 1 by {
      assert now / 60.0 == (now - w as real) / 60.0 + w as real / 60.0;
      assert w as real / 60.0 < (w / 60 + 1) as real;
    }
    forall k | k in b.order
      ensures lo <= k <= hi
    {
      var i := BucketLast(s, k);
      assert (now - w as real) / 60.0 <= s[i].ts / 60.0 <= now / 60.0;
    }
    DistinctSize(b.order);
    RangeSize((set k | k in b.order), lo, hi);
  }

  // ----- one step of the study -----

  datatype StudyState = StudyState(windows: map<string, seq<Entry>>, monotonic: map<string, Counters>)

  const EMPTY_STUDY := StudyState(map[], map[])

  function Window(s: StudyState, m: string): seq<Entry> {
    if m in s.windows then s.windows[m] else []
  }

  function Guard(s: StudyState, m: string): Counters {
    if m in s.monotonic then s.monotonic[m] else ZERO
  }

  function EntryOf(f: Frame, guard: Counters, now: real): Entry {
    Entry(now, f.clock, f.scoreHome, f.scoreAway, Join(guard, f.counts), f.possession)
  }

  /** Keep the last w seconds; None keeps everything and serves as the unbounded reference. */
  function Prune(s: seq<Entry>, now: real, w: Option<nat>): seq<Entry> {
    match w
    case None => s
    case Some(seconds) => Since(s, now - seconds as real)
  }

  /** The match's window after the frame has been appended and old entries pruned. */
  function Slid(s: StudyState, f: Frame, now: real, w: Option<nat>): (r: seq<Entry>)
    ensures r != [] && r[|r| - 1] == EntryOf(f, Guard(s, f.matchId), now)
  {
    var e := EntryOf(f, Guard(s, f.matchId), now);
    NewestSurvives(Window(s, f.matchId), e, now, w);
    Prune(Window(s, f.matchId) + [e], now, w)
  }

  function Observed(s: StudyState, f: Frame, now: real, w: Option<nat>): StudyState {
    if !Ingestible(f) then s
    else StudyState(s.windows[f.matchId := Slid(s, f, now, w)],
                    s.monotonic[f.matchId := Join(Guard(s, f.matchId), f.counts)])
  }

  lemma PruneMembers(s: seq<Entry>, now: real, w: Option<nat>)
    ensures forall e :: e in Prune(s, now, w) ==> e in s
  {
    if w.Some? {
      SinceMembers(s, now - w.value as real);
    }
  }

  /** The quotes of the three scoped sides. */
  function ScopedOdds(market: Market): map<string, real> {
    map side | side in {"home", "draw", "away"} && side in market.odds :: market.odds[side]
  }

  /** Exactly the market's quotes of the three sides, at their prices. */
  ghost predicate Quotes(odds: map<string, real>, market: Market) {
    forall side ::
      && (side in odds <==> side in {"home", "draw", "away"} && side in market.odds)
      && (side in odds ==> odds[side] == market.odds[side])
  }

  function SnapshotOf(f: Frame, market: Market, win: seq<Entry>, now: real): Snapshot
    requires win != []
  {
    var buckets := Aggregated(win);
    var last := win[|win| - 1];
    Snapshot(f.matchId, market.id, f.league, f.clock, last.scoreHome, last.scoreAway,
             ScopedOdds(market), win[0].ts, now, Totals(buckets), MeanPossession(buckets))
  }

  lemma NewestSurvives(s: seq<Entry>, e: Entry, now: real, w: Option<nat>)
    requires e.ts == now
    ensures var win := Prune(s + [e], now, w); win != [] && win[|win| - 1] == e
  {
    assert (s + [e])[..|s|] == s;
  }

  /** One snapshot per scoped market, all folded from the same window. */
  function Snapshots(s: StudyState, f: Frame, now: real, w: Option<nat>): (r: seq<Snapshot>)
    ensures |r| == if Ingestible(f) then |f.markets| else 0
  {
    if !Ingestible(f) then []
    else
      var win := Slid(s, f, now, w);
      seq(|f.markets|, i requires 0 <= i < |f.markets| => SnapshotOf(f, f.markets[i], win, now))
  }

  /** A full-time frame drops the match's window but leaves its counter guard. */
  function Settled(s: StudyState, f: Frame): StudyState {
    if IsFullTime(f.clock) && f.matchId != "" then s.(windows := s.windows - {f.matchId}) else s
  }

  /** The counter guard: a value below the guard is lifted to it, any other value becomes the guard. */
  method RaiseGuard(guard: Counters, counts: Counters) returns (mono: Counters, raw: Counters)
    ensures mono == raw == Join(guard, counts)
  {
    mono, raw := guard, counts;
    if raw.shots < mono.shots {
      raw := raw.(shots := mono.shots);
    } else {
      mono := mono.(shots := raw.shots);
    }
    if raw.onTarget < mono.onTarget {
      raw := raw.(onTarget := mono.onTarget);
    } else {
      mono := mono.(onTarget := raw.onTarget);
    }
    if raw.danger < mono.danger {
      raw := raw.(danger := mono.danger);
    } else {
      mono := mono.(danger := raw.danger);
    }
  }

  /** Fold the window once, then emit one snapshot per market. */
  method FoldMarkets(f: Frame, window: seq<Entry>, now: real) returns (snapshots: seq<Snapshot>)
    requires window != []
    ensures |snapshots| == |f.markets|
    ensures forall i :: 0 <= i < |snapshots| ==> snapshots[i] == SnapshotOf(f, f.markets[i], window, now)
    ensures forall i :: 0 <= i < |snapshots| ==> Quotes(snapshots[i].odds, f.markets[i])
  {
    var momentum := Aggregate(window);
    var totals, mean := Totals(momentum), MeanPossession(momentum);
    var last := window[|window| - 1];
    snapshots := [];
    for i := 0 to |f.markets|
      invariant |snapshots| == i
      invariant forall j :: 0 <= j < i ==> snapshots[j] == SnapshotOf(f, f.markets[j], window, now)
    {
      var odds := ScopedOdds(f.markets[i]);
      snapshots := snapshots + [
        Snapshot(f.matchId, f.markets[i].id, f.league, f.clock, last.scoreHome, last.scoreAway, odds,
                 window[0].ts, now, totals, mean)];
    }
  }

  /** The study as an object with its two dictionaries. */
  class FeatureStudy {
    const seconds: nat
    var windows: map<string, seq<Entry>>
    var monotonic: map<string, Counters>

    function State(): StudyState
      reads this
    {
      StudyState(windows, monotonic)
    }

    constructor (seconds: nat)
      ensures State() == EMPTY_STUDY && this.seconds == seconds
    {
      this.seconds := seconds;
      windows, monotonic := map[], map[];
    }

    method ObserveMany(f: Frame, asof: Option<real>, wall: real) returns (snapshots: seq<Snapshot>)
      modifies this
      ensures State() == Observed(old(State()), f, asof.GetOr(wall), Some(seconds))
      ensures snapshots == Snapshots(old(State()), f, asof.GetOr(wall), Some(seconds))
    {
      if f.matchId == "" || f.clock == "" {
        return [];
      }
      if IsBoundary(f.clock) {
        return [];
      }
      if f.markets == [] {
        return [];
      }
      var now := asof.GetOr(wall);
      var window := Ingest(f, now);
      snapshots := FoldMarkets(f, window, now);
    }

    /** Raise the guard, append the entry, prune the window. */
    method Ingest(f: Frame, now: real) returns (window: seq<Entry>)
      requires Ingestible(f)
      modifies this
      ensures State() == Observed(old(State()), f, now, Some(seconds))
      ensures window == Slid(old(State()), f, now, Some(seconds))
    {
      var raw := Raise(f.matchId, f.counts);
      window := Slide(f.matchId, Entry(now, f.clock, f.scoreHome, f.scoreAway, raw, f.possession), now);
    }

    /** Lift the counters to the match's guard, or the guard to the counters. */
    method Raise(m: string, counts: Counters) returns (raw: Counters)
      modifies this`monotonic
      ensures raw == Join(Guard(old(State()), m), counts)
      ensures monotonic == old(monotonic)[m := raw]
    {
      if m !in monotonic {
        monotonic := monotonic[m := ZERO];
      }
      var mono;
      mono, raw := RaiseGuard(monotonic[m], counts);
      monotonic := monotonic[m := mono];
      assert monotonic == old(monotonic)[m := raw];
    }

    /** Append to the match's window and drop what is too old. */
    method Slide(m: string, e: Entry, now: real) returns (window: seq<Entry>)
      modifies this`windows
      ensures window == Since(Window(old(State()), m) + [e], now - seconds as real)
      ensures windows == old(windows)[m := window]
    {
      if m !in windows {
        windows := windows[m := []];
      }
      window := Since(windows[m] + [e], now - seconds as real);
      windows := windows[m := window];
      assert windows == old(windows)[m := window];
    }

    method CollectSettled(f: Frame) returns (entries: seq<SettledEntry>)
      modifies this`windows
      ensures State() == Settled(old(State()), f)
      ensures |entries| == if IsFullTime(f.clock) then |f.markets| else 0
      ensures forall i :: 0 <= i < |entries| ==>
        entries[i] == SettledEntry(f.matchId, f.markets[i].id, f.scoreHome, f.scoreAway, f.markets[i].odds)
    {
      if !IsBoundary(f.clock) || !IsFullTime(f.clock) {
        return [];
      }
      if f.matchId != "" {
        windows := windows - {f.matchId};
      }
      entries := [];
      for i := 0 to |f.markets|
        invariant |entries| == i
        invariant forall j :: 0 <= j < i ==>
          entries[j] == SettledEntry(f.matchId, f.markets[j].id, f.scoreHome, f.scoreAway, f.markets[j].odds)
      {
        entries := entries + [SettledEntry(f.matchId, f.markets[i].id, f.scoreHome, f.scoreAway, f.markets[i].odds)];
      }
    }
  }

  // ----- runs of the live study -----

  /** What a worker does to the study with one frame: settle first, then observe. */
  function LiveStep(s: StudyState, f: Frame, w: Option<nat>): StudyState {
    Observed(Settled(s, f), f, f.liveClock, w)
  }

  function LiveOutput(s: StudyState, f: Frame, w: Option<nat>): seq<Snapshot> {
    Snapshots(Settled(s, f), f, f.liveClock, w)
  }

  function LiveState(s: StudyState, frames: seq<Frame>, w: Option<nat>): StudyState
    decreases frames
  {
    if frames == [] then s else LiveState(LiveStep(s, frames[0], w), frames[1..], w)
  }

  /** The snapshots each frame produced, one list per frame. */
  function LiveOutputs(s: StudyState, frames: seq<Frame>, w: Option<nat>): (r: seq<seq<Snapshot>>)
    ensures |r| == |frames|
    decreases frames
  {
    if frames == [] then []
    else [LiveOutput(s, frames[0], w)] + LiveOutputs(LiveStep(s, frames[0], w), frames[1..], w)
  }

  /** The largest raw counters ever ingested for a match, floored at zero. */
  function Peak(frames: seq<Frame>, m: string): Counters {
    if frames == [] then ZERO
    else if frames[0].matchId == m && Ingestible(frames[0]) then Join(frames[0].counts, Peak(frames[1..], m))
    else Peak(frames[1..], m)
  }

  /** Every retained entry of a match is within the match's guard. */
  ghost predicate Guarded(s: StudyState, m: string) {
    Leq(ZERO, Guard(s, m)) && forall e :: e in Window(s, m) ==> Leq(e.counts, Guard(s, m))
  }

  lemma ObservedGuarded(s: StudyState, f: Frame, m: string, now: real, w: Option<nat>)
    requires Guarded(s, m)
    ensures Guarded(Observed(s, f, now, w), m)
    ensures Guard(Observed(s, f, now, w), m)
      == if f.matchId == m && Ingestible(f) then Join(Guard(s, m), f.counts) else Guard(s, m)
  {
    if Ingestible(f) && f.matchId == m {
      PruneMembers(Window(s, m) + [EntryOf(f, Guard(s, m), now)], now, w);
    } else {
      assert Window(Observed(s, f, now, w), m) == Window(s, m);
    }
  }

  lemma StepGuarded(s: StudyState, f: Frame, m: string, w: Option<nat>)
    requires Guarded(s, m)
    ensures Guarded(LiveStep(s, f, w), m)
    ensures Guard(LiveStep(s, f, w), m)
      == if f.matchId == m && Ingestible(f) then Join(Guard(s, m), f.counts) else Guard(s, m)
  {
    ObservedGuarded(Settled(s, f), f, m, f.liveClock, w);
  }

  /** Every snapshot reports the guard as raised by its frame, whatever the clock and the window. */
  lemma SnapshotTotals(s: StudyState, f: Frame, now: real, w: Option<nat>)
    requires Guarded(s, f.matchId) && Ingestible(f)
    ensures Totals(Aggregated(Slid(s, f, now, w))) == Join(Guard(s, f.matchId), f.counts)
    ensures forall snap :: snap in Snapshots(s, f, now, w) ==> snap.counts == Join(Guard(s, f.matchId), f.counts)
  {
    var e := EntryOf(f, Guard(s, f.matchId), now);
    var win := Slid(s, f, now, w);
    PruneMembers(Window(s, f.matchId) + [e], now, w);
    forall i | 0 <= i < |win|
      ensures Leq(win[i].counts, e.counts)
    {
      assert win[i] in win;
      assert win[i] in Window(s, f.matchId) || win[i] == e;
    }
    WindowTotals(win, |win| - 1, e.counts);
  }

  lemma StepTotals(s: StudyState, f: Frame, w: Option<nat>)
    requires Guarded(s, f.matchId) && Ingestible(f)
    ensures forall snap :: snap in LiveOutput(s, f, w) ==> snap.counts == Join(Guard(s, f.matchId), f.counts)
  {
    SnapshotTotals(Settled(s, f), f, f.liveClock, w);
  }

  lemma PeakHead(frames: seq<Frame>, i: nat, m: string)
    requires i < |frames|
    ensures var rest := Peak(frames[1..][..i], m);
            Peak(frames[..i + 1], m)
              == if frames[0].matchId == m && Ingestible(frames[0]) then Join(frames[0].counts, rest) else rest
  {
    assert frames[..i + 1][1..] == frames[1..][..i];
  }

  /**
   Study totals: whatever the timestamps, the pruning, the bucketing and the
   full-time resets, each snapshot reports the running maximum of all raw
   counters its match ever ingested.
   */
  lemma {:induction false} StudyTotals(s: StudyState, frames: seq<Frame>, i: nat, w: Option<nat>)
    requires i < |frames| && Guarded(s, frames[i].matchId)
    ensures forall snap :: snap in LiveOutputs(s, frames, w)[i] ==>
      snap.counts == Join(Guard(s, frames[i].matchId), Peak(frames[..i + 1], frames[i].matchId))
    decreases frames
  {
    var f, m := frames[0], frames[i].matchId;
    PeakHead(frames, i, m);
    if i == 0 {
      assert Peak(frames[1..][..0], m) == ZERO;
      if Ingestible(f) {
        StepTotals(s, f, w);
      }
    } else {
      StepGuarded(s, f, m, w);
      StudyTotals(LiveStep(s, f, w), frames[1..], i - 1, w);
    }
  }

  /** The guard itself is that running maximum, through every full-time reset. */
  lemma {:induction false} GuardIsPeak(s: StudyState, frames: seq<Frame>, m: string, w: Option<nat>)
    requires Guarded(s, m)
    ensures Guard(LiveState(s, frames, w), m) == Join(Guard(s, m), Peak(frames, m))
    decreases frames
  {
    if frames != [] {
      StepGuarded(s, frames[0], m, w);
      GuardIsPeak(LiveStep(s, frames[0], w), frames[1..], m, w);
    }
  }

  /** No entry of a slid window is older than the window allows. */
  lemma SlidReach(s: StudyState, f: Frame, now: real, w: nat)
    ensures Slid(s, f, now, Some(w))[0].ts >= now - w as real
  {
    var e := EntryOf(f, Guard(s, f.matchId), now);
    SinceMembers(Window(s, f.matchId) + [e], now - w as real);
    assert Slid(s, f, now, Some(w))[0] in Slid(s, f, now, Some(w));
  }

  /** A snapshot shows the newest entry of its window and the odds of its market. */
  lemma SnapshotFields(f: Frame, market: Market, win: seq<Entry>, now: real)
    requires win != []
    ensures var snap := SnapshotOf(f, market, win, now);
            && snap.matchId == f.matchId && snap.marketId == market.id && snap.clock == f.clock
            && snap.league == f.league
            && snap.scoreHome == win[|win| - 1].scoreHome && snap.scoreAway == win[|win| - 1].scoreAway
            && snap.windowStart == win[0].ts && snap.windowEnd == now
            && Quotes(snap.odds, market)
  {}

  /**
   Whatever was pruned, every snapshot of a frame shows that frame's own score,
   clock and odds, and its window reaches back at most w seconds.
   */
  lemma SnapshotIsCurrent(s: StudyState, f: Frame, i: nat, now: real, w: nat)
    requires i < |Snapshots(s, f, now, Some(w))|
    ensures var snap, market := Snapshots(s, f, now, Some(w))[i], f.markets[i];
            && snap.matchId == f.matchId && snap.marketId == market.id && snap.clock == f.clock
            && snap.league == f.league && snap.scoreHome == f.scoreHome && snap.scoreAway == f.scoreAway
            && snap.windowEnd == now && now - w as real <= snap.windowStart
            && forall side ::
                 && (side in snap.odds <==> side in {"home", "draw", "away"} && side in market.odds)
                 && (side in snap.odds ==> snap.odds[side] == market.odds[side])
  {
    SlidReach(s, f, now, w);
    SnapshotFields(f, f.markets[i], Slid(s, f, now, Some(w)), now);
  }

  // ----- the pruned window against the unbounded one -----

  /** The ingested frames of a match since its last full-time frame. */
  function Current(frames: seq<Frame>, m: string): seq<Frame> {
    if frames == [] then []
    else
      var init, last := Current(frames[..|frames| - 1], m), frames[|frames| - 1];
      if last.matchId != m then init
      else if IsFullTime(last.clock) then []
      else if Ingestible(last) then init + [last] else init
  }

  /** The entries carry the observations of the frames, one each, in order. */
  ghost predicate Observes(win: seq<Entry>, frames: seq<Frame>) {
    && |win| == |frames|
    && forall i :: 0 <= i < |win| ==>
         && win[i].ts == frames[i].liveClock && win[i].clock == frames[i].clock
         && win[i].scoreHome == frames[i].scoreHome && win[i].scoreAway == frames[i].scoreAway
         && win[i].possession == frames[i].possession && Leq(frames[i].counts, win[i].counts)
  }

  lemma {:induction false} OneFrameMore(s: StudyState, frames: seq<Frame>, f: Frame, w: Option<nat>)
    ensures LiveState(s, frames + [f], w) == LiveStep(LiveState(s, frames, w), f, w)
    decreases frames
  {
    if frames == [] {
      assert frames + [f] == [f] && [f][1..] == [];
    } else {
      assert (frames + [f])[1..] == frames[1..] + [f];
      OneFrameMore(LiveStep(s, frames[0], w), frames[1..], f, w);
    }
  }

  lemma StepObserves(s: StudyState, f: Frame, m: string, frames: seq<Frame>)
    requires m != "" && Observes(Window(s, m), frames)
    ensures Observes(Window(LiveStep(s, f, None), m),
      if f.matchId != m then frames
      else if IsFullTime(f.clock) then []
      else if Ingestible(f) then frames + [f] else frames)
  {}

  /** Without pruning a match's window holds the frames it ingested since its last full-time frame. */
  lemma {:induction false} WindowIsFrames(frames: seq<Frame>, m: string)
    requires m != ""
    ensures Observes(Window(LiveState(EMPTY_STUDY, frames, None), m), Current(frames, m))
  {
    if frames != [] {
      var init, last := frames[..|frames| - 1], frames[|frames| - 1];
      assert frames == init + [last];
      WindowIsFrames(init, m);
      OneFrameMore(EMPTY_STUDY, init, last, None);
      StepObserves(LiveState(EMPTY_STUDY, init, None), last, m, Current(init, m));
    }
  }

  /** The clock of the last ingested frame of a match, `last` when there is none. */
  function LastSeen(frames: seq<Frame>, m: string, last: real): real {
    if frames == [] then last
    else LastSeen(frames[1..], m,
                  if frames[0].matchId == m && Ingestible(frames[0]) then frames[0].liveClock else last)
  }

  /** The live clock never runs backwards on the ingested frames of a match. */
  ghost predicate ClockRises(frames: seq<Frame>, m: string, last: real) {
    frames == [] ||
    if frames[0].matchId == m && Ingestible(frames[0])
    then last <= frames[0].liveClock && ClockRises(frames[1..], m, frames[0].liveClock)
    else ClockRises(frames[1..], m, last)
  }

  ghost predicate WindowAgrees(s: StudyState, u: StudyState, m: string, last: real, w: nat) {
    Guard(s, m) == Guard(u, m) && Window(s, m) == Since(Window(u, m), last - w as real)
  }

  lemma IngestWindow(s: StudyState, f: Frame, w: Option<nat>)
    requires Ingestible(f)
    ensures var t, m := LiveStep(s, f, w), f.matchId;
            && Window(t, m) == Prune(Window(s, m) + [EntryOf(f, Guard(s, m), f.liveClock)], f.liveClock, w)
            && Guard(t, m) == Join(Guard(s, m), f.counts)
  {}

  lemma IngestAgrees(s: StudyState, u: StudyState, f: Frame, last: real, w: nat)
    requires WindowAgrees(s, u, f.matchId, last, w)
    requires Ingestible(f) && last <= f.liveClock
    ensures WindowAgrees(LiveStep(s, f, Some(w)), LiveStep(u, f, None), f.matchId, f.liveClock, w)
  {
    IngestWindow(s, f, Some(w));
    IngestWindow(u, f, None);
    var e := EntryOf(f, Guard(s, f.matchId), f.liveClock);
    SinceAgain(Window(u, f.matchId), e, last - w as real, f.liveClock - w as real);
  }

  lemma SkipAgrees(s: StudyState, u: StudyState, f: Frame, m: string, last: real, w: nat)
    requires WindowAgrees(s, u, m, last, w)
    requires !(f.matchId == m && Ingestible(f))
    ensures WindowAgrees(LiveStep(s, f, Some(w)), LiveStep(u, f, None), m, last, w)
  {}

  /**
   On a rising clock the incrementally pruned window is the plain filter, to the
   last w seconds, of every entry since the last full-time reset.
   */
  lemma {:induction false} WindowIsFilter(
    s: StudyState, u: StudyState, frames: seq<Frame>, m: string, last: real, w: nat)
    requires WindowAgrees(s, u, m, last, w)
    requires ClockRises(frames, m, last)
    ensures WindowAgrees(LiveState(s, frames, Some(w)), LiveState(u, frames, None), m, LastSeen(frames, m, last), w)
    decreases frames
  {
    if frames != [] {
      var f := frames[0];
      var s', u' := LiveStep(s, f, Some(w)), LiveStep(u, f, None);
      if f.matchId == m && Ingestible(f) {
        IngestAgrees(s, u, f, last, w);
        WindowIsFilter(s', u', frames[1..], m, f.liveClock, w);
      } else {
        SkipAgrees(s, u, f, m, last, w);
        WindowIsFilter(s', u', frames[1..], m, last, w);
      }
    }
  }

  /** Every retained entry is at most w seconds older than the last observation. */
  ghost predicate Timed(s: StudyState, m: string, last: real, w: nat) {
    forall i :: 0 <= i < |Window(s, m)| ==> 0.0 <= Window(s, m)[i].ts && last - w as real <= Window(s, m)[i].ts <= last
  }

  lemma IngestTimed(s: StudyState, f: Frame, last: real, w: nat)
    requires Timed(s, f.matchId, last, w)
    requires Ingestible(f) && 0.0 <= last <= f.liveClock
    ensures Timed(LiveStep(s, f, Some(w)), f.matchId, f.liveClock, w)
  {
    var kept := Window(s, f.matchId) + [EntryOf(f, Guard(s, f.matchId), f.liveClock)];
    IngestWindow(s, f, Some(w));
    SinceBetween(kept, f.liveClock - w as real, f.liveClock);
  }

  lemma SinceBetween(s: seq<Entry>, cutoff: real, now: real)
    requires forall i :: 0 <= i < |s| ==> 0.0 <= s[i].ts <= now
    ensures forall i :: 0 <= i < |Since(s, cutoff)| ==>
      0.0 <= Since(s, cutoff)[i].ts && cutoff <= Since(s, cutoff)[i].ts <= now
  {
    SinceMembers(s, cutoff);
    assert forall i :: 0 <= i < |Since(s, cutoff)| ==> Since(s, cutoff)[i] in Since(s, cutoff);
  }

  /** At every point of a run on a rising, non-negative clock the window folds into at most w/60 + 2 buckets. */
  lemma {:induction false} LiveBuckets(s: StudyState, frames: seq<Frame>, m: string, last: real, w: nat)
    requires Timed(s, m, last, w)
    requires 0.0 <= last && ClockRises(frames, m, last)
    ensures |Aggregated(Window(LiveState(s, frames, Some(w)), m))| <= w / 60 + 2
    decreases frames
  {
    if frames == [] {
      BucketCount(Window(s, m), last, w);
    } else {
      var f := frames[0];
      var s' := LiveStep(s, f, Some(w));
      if f.matchId == m && Ingestible(f) {
        IngestTimed(s, f, last, w);
        LiveBuckets(s', frames[1..], m, f.liveClock, w);
      } else {
        assert Window(s', m) == Window(s, m) || Window(s', m) == [];
        LiveBuckets(s', frames[1..], m, last, w);
      }
    }
  }
}
