/**
 The Helabet feed poller (data-ingestion-go/internal/helabet): it tracks live
 fixtures, republishes their frames, and emits one settlement frame per match.
 */
module Helabet {
  import opened Options
  import opened Text
  import opened Listing

  // ----- the vendor's fixture (types.go) -----

  datatype Timer = Timer(seconds: int, running: bool)

  datatype Scores = Scores(home: int, away: int, status: string, period: int, timer: Option<Timer>)

  datatype Leg = Leg(kind: int, price: real)

  datatype Group = Group(id: int, events: seq<seq<Leg>>)

  datatype Raw = Raw(
    id: int, sport: int, homeName: string, awayName: string, scores: Option<Scores>, groups: seq<Group>, startTs: int)

  datatype Odds = Odds(home: real, draw: real, away: real)

  /** A pipeline frame; the vendor id stands for the "hb-" match id made from it. */
  datatype Frame = Frame(id: int, clock: string, home: int, away: int, odds: Odds, kickoff: int, receivedAt: int)

  predicate SaysFinished(upper: string) {
    Contains(upper, "FINISHED") || Contains(upper, "ENDED") || Contains(upper, "FULL TIME")
  }

  predicate SaysHalfTime(upper: string) {
    upper == "HT" || HasPrefix(upper, "HALF TIME") || HasPrefix(upper, "HALFTIME")
  }

  function ParseClock(status: string, timer: Option<Timer>): string {
    var s := Trim(status);
    var upper := Upper(s);
    if SaysHalfTime(upper) then "HT"
    else if Contains(upper, "FT") || SaysFinished(upper) then "FULLTIME"
    else
      var n := Atoi(Trim(Head(s, ' ')));
      if s != "" && n.Some? && n.value > 0 then Itoa(n.value) + "'"
      else if timer.Some? && timer.value.seconds > 0 then Itoa(timer.value.seconds / 60) + "'"
      else "LIVE"
  }

  /** The clock ran out: stopped at ninety minutes or later in the second half. */
  predicate ClockRanOut(sc: Scores) {
    sc.timer.Some? && !sc.timer.value.running && sc.period >= 2 && sc.timer.value.seconds >= 5400
  }

  predicate IsFullTime(raw: Raw) {
    raw.scores.Some?
    && var sc := raw.scores.value;
       var upper := Upper(Trim(sc.status));
       SaysFinished(upper) || upper == "FT" || ClockRanOut(sc)
  }

  function StatusOf(raw: Raw): string {
    if raw.scores.Some? then raw.scores.value.status else ""
  }

  function TimerOf(raw: Raw): Option<Timer> {
    if raw.scores.Some? then raw.scores.value.timer else None
  }

  function ClockOf(raw: Raw): string {
    ParseClock(StatusOf(raw), TimerOf(raw))
  }

  /** A status that mentions FT without being FT, on a match that has not run out. */
  predicate Misread(raw: Raw) {
    var upper := Upper(Trim(StatusOf(raw)));
    && !SaysHalfTime(upper) && Contains(upper, "FT") && upper != "FT" && !SaysFinished(upper)
    && (raw.scores.Some? ==> !ClockRanOut(raw.scores.value))
  }

  /** Only three clock words are not minutes. */
  lemma MinutesAreNotFullTime(n: int)
    ensures Itoa(n) + "'" != "FULLTIME"
  {
    var s := Itoa(n) + "'";
    assert s[|s| - 1] == '\'';
  }

  /**
   The published clock and the settlement test disagree exactly on misread
   statuses: such a live frame carries a FULLTIME clock although the match is
   not treated as finished.
   */
  lemma ClockDisagreement(raw: Raw)
    ensures ClockOf(raw) == "FULLTIME" && !IsFullTime(raw) <==> Misread(raw)
    ensures Misread(raw) <==>
      var upper := Upper(Trim(if raw.scores.Some? then raw.scores.value.status else ""));
      && Contains(upper, "FT") && upper != "FT" && upper != "HT"
      && !HasPrefix(upper, "HALF TIME") && !HasPrefix(upper, "HALFTIME")
      && !Contains(upper, "FINISHED") && !Contains(upper, "ENDED") && !Contains(upper, "FULL TIME")
      && !(raw.scores.Some? && raw.scores.value.timer.Some? && raw.scores.value.period >= 2
           && !raw.scores.value.timer.value.running && raw.scores.value.timer.value.seconds >= 5400)
  {
    var s := Trim(StatusOf(raw));
    var n := Atoi(Trim(Head(s, ' ')));
    if n.Some? {
      MinutesAreNotFullTime(n.value);
    }
    if TimerOf(raw).Some? {
      MinutesAreNotFullTime(TimerOf(raw).value.seconds / 60);
    }
    assert "HT"[1] != "FULLTIME"[1] && "LIVE"[0] != "FULLTIME"[0];
    if raw.scores.None? {
      assert s == "";
    }
  }

  /** The clock is one of four words, or a printed minute that reads back. */
  ghost predicate PrintsMinute(clock: string, m: nat) {
    && clock != "" && clock[|clock| - 1] == '\'' && AllDigits(clock[..|clock| - 1])
    && DigitsValue(clock[..|clock| - 1]) == m
  }

  /**
   A clock that is no word prints a minute: the number that leads the status if it
   is positive, and otherwise the full minutes on the vendor's timer.
   */
  lemma ClockMinute(raw: Raw) returns (m: nat)
    requires ClockOf(raw) !in {"HT", "FULLTIME", "LIVE"}
    ensures PrintsMinute(ClockOf(raw), m)
    ensures var lead := Atoi(Trim(Head(Trim(StatusOf(raw)), ' ')));
      if Trim(StatusOf(raw)) != "" && lead.Some? && lead.value > 0 then lead.value == m
      else raw.scores.Some? && raw.scores.value.timer.Some?
           && 0 < raw.scores.value.timer.value.seconds && 60 * m <= raw.scores.value.timer.value.seconds < 60 * (m + 1)
  {
    var s := Trim(StatusOf(raw));
    var lead := Atoi(Trim(Head(s, ' ')));
    m := if s != "" && lead.Some? && lead.value > 0 then lead.value else TimerOf(raw).value.seconds / 60;
    DigitsParse(m);
    assert ClockOf(raw) == Digits(m) + "'";
    assert ClockOf(raw)[..|ClockOf(raw)| - 1] == Digits(m);
  }

  /** A string lacking one letter of a phrase does not contain the phrase. */
  lemma {:induction false} NotContained(s: string, part: string, k: nat)
    requires k < |part| && part[k] !in s
    ensures !Contains(s, part)
  {
    if s != "" {
      NotContained(s[1..], part, k);
    }
    assert !(part <= s) by {
      if k < |s| {
        assert s[k] in s;
      }
    }
  }

  lemma {:induction false} ContainsLater(s: string, k: nat, part: string)
    requires k <= |s| && Contains(s[k..], part)
    ensures Contains(s, part)
  {
    if k > 0 {
      assert s[1..][k - 1..] == s[k..];
      ContainsLater(s[1..], k - 1, part);
    } else {
      assert s[0..] == s;
    }
  }

  // ----- odds -----

  function Flatten(events: seq<seq<Leg>>): seq<Leg> {
    if events == [] then [] else Flatten(events[..|events| - 1]) + events[|events| - 1]
  }

  /** The legs of the main market groups, up to the group that completes three. */
  function ThreeWay(groups: seq<Group>, legs: seq<Leg>): seq<Leg>
    decreases groups
  {
    if groups == [] then legs
    else if groups[0].id != 1 then ThreeWay(groups[1..], legs)
    else
      var more := legs + Flatten(groups[0].events);
      if |more| >= 3 then more else ThreeWay(groups[1..], more)
  }

  /** The price of the last leg of a kind, zero when there is none. */
  function PriceOf(legs: seq<Leg>, kind: int): real {
    if legs == [] then 0.0
    else if legs[|legs| - 1].kind == kind then legs[|legs| - 1].price
    else PriceOf(legs[..|legs| - 1], kind)
  }

  function FtOddsOf(groups: seq<Group>): (r: Option<Odds>)
    ensures r.Some? ==> r.value.home > 0.0 && r.value.draw > 0.0 && r.value.away > 0.0
  {
    var legs := ThreeWay(groups, []);
    var o := Odds(PriceOf(legs, 1), PriceOf(legs, 2), PriceOf(legs, 3));
    if (forall i :: 0 <= i < |legs| ==> legs[i].price > 0.0) && o.home > 0.0 && o.draw > 0.0 && o.away > 0.0
    then Some(o) else None
  }

  /** Gather the legs of the main market, group by group, until there are three. */
  method GatherLegs(groups: seq<Group>) returns (legs: seq<Leg>)
    ensures legs == ThreeWay(groups, [])
  {
    legs := [];
    var g := 0;
    while g < |groups|
      invariant 0 <= g <= |groups|
      invariant ThreeWay(groups, []) == ThreeWay(groups[g..], legs)
    {
      if groups[g].id != 1 {
        g := g + 1;
        continue;
      }
      ghost var before := legs;
      for e := 0 to |groups[g].events|
        invariant legs == before + Flatten(groups[g].events[..e])
      {
        assert groups[g].events[..e + 1][..e] == groups[g].events[..e];
        legs := legs + groups[g].events[e];
      }
      assert groups[g].events[..|groups[g].events|] == groups[g].events;
      if |legs| >= 3 {
        return;
      }
      g := g + 1;
    }
  }

  /** The last price of each kind, refused as soon as a leg has none. */
  method FtOdds(groups: seq<Group>) returns (odds: Option<Odds>)
    ensures odds == FtOddsOf(groups)
  {
    var legs := GatherLegs(groups);
    var home, draw, away := 0.0, 0.0, 0.0;
    for i := 0 to |legs|
      invariant forall j :: 0 <= j < i ==> legs[j].price > 0.0
      invariant home == PriceOf(legs[..i], 1) && draw == PriceOf(legs[..i], 2) && away == PriceOf(legs[..i], 3)
    {
      assert legs[..i + 1][..i] == legs[..i];
      if legs[i].price <= 0.0 {
        return None;
      }
      if legs[i].kind == 1 {
        home := legs[i].price;
      } else if legs[i].kind == 2 {
        draw := legs[i].price;
      } else if legs[i].kind == 3 {
        away := legs[i].price;
      }
    }
    assert legs[..|legs|] == legs;
    if home <= 0.0 || draw <= 0.0 || away <= 0.0 {
      return None;
    }
    return Some(Odds(home, draw, away));
  }

  ghost predicate HasKind(legs: seq<Leg>, kind: int) {
    exists i :: 0 <= i < |legs| && legs[i].kind == kind
  }

  ghost predicate IsLastOfKind(legs: seq<Leg>, kind: int, price: real) {
    exists i :: 0 <= i < |legs| && legs[i].kind == kind && legs[i].price == price
                && forall j :: i < j < |legs| ==> legs[j].kind != kind
  }

  lemma {:induction false} PriceIsLast(legs: seq<Leg>, kind: int)
    requires forall i :: 0 <= i < |legs| ==> legs[i].price > 0.0
    ensures PriceOf(legs, kind) > 0.0 ==> IsLastOfKind(legs, kind, PriceOf(legs, kind))
    ensures PriceOf(legs, kind) > 0.0 <==> HasKind(legs, kind)
  {
    if legs != [] {
      var n := |legs| - 1;
      PriceIsLast(legs[..n], kind);
      assert forall i :: 0 <= i < n ==> legs[..n][i] == legs[i];
      if legs[n].kind != kind {
        if PriceOf(legs, kind) > 0.0 {
          var i :| 0 <= i < n && legs[..n][i].kind == kind && legs[..n][i].price == PriceOf(legs, kind)
                   && forall j :: i < j < n ==> legs[..n][j].kind != kind;
          assert legs[i].kind == kind;
        }
      }
    }
  }

  /** All legs of the groups that encode the three-way market. */
  function MainLegs(groups: seq<Group>): seq<Leg> {
    if groups == [] then []
    else
      var last := groups[|groups| - 1];
      MainLegs(groups[..|groups| - 1]) + if last.id == 1 then Flatten(last.events) else []
  }

  lemma {:induction false} FlattenHas(events: seq<seq<Leg>>, leg: Leg)
    ensures leg in Flatten(events) <==> exists e :: 0 <= e < |events| && leg in events[e]
  {
    if events != [] {
      FlattenHas(events[..|events| - 1], leg);
      assert forall e :: 0 <= e < |events| - 1 ==> events[..|events| - 1][e] == events[e];
    }
  }

  /** A leg counts exactly when it stands in a group whose id is 1. */
  lemma {:induction false} MainLegsHave(groups: seq<Group>, leg: Leg)
    ensures leg in MainLegs(groups)
      <==> exists g, e :: 0 <= g < |groups| && groups[g].id == 1
                          && 0 <= e < |groups[g].events| && leg in groups[g].events[e]
  {
    if groups != [] {
      var n := |groups| - 1;
      MainLegsHave(groups[..n], leg);
      FlattenHas(groups[n].events, leg);
      assert forall g :: 0 <= g < n ==> groups[..n][g] == groups[g];
    }
  }

  lemma MainLegsNext(groups: seq<Group>, n: nat)
    requires n < |groups|
    ensures MainLegs(groups[..n + 1])
      == MainLegs(groups[..n]) + if groups[n].id == 1 then Flatten(groups[n].events) else []
  {
    assert groups[..n + 1][..n] == groups[..n];
  }

  /** The first groups up to the one that completes three legs, or all of them. */
  ghost predicate Completes(groups: seq<Group>, n: nat) {
    && n <= |groups|
    && (n < |groups| ==> |MainLegs(groups[..n])| >= 3)
    && forall m :: 0 <= m < n ==> |MainLegs(groups[..m])| < 3
  }

  lemma {:induction false} ThreeWayFrom(groups: seq<Group>, k: nat) returns (n: nat)
    requires k <= |groups| && forall m :: 0 <= m <= k ==> |MainLegs(groups[..m])| < 3
    ensures Completes(groups, n) && ThreeWay(groups[k..], MainLegs(groups[..k])) == MainLegs(groups[..n])
    decreases |groups| - k
  {
    if k == |groups| {
      n := k;
    } else {
      ThreeWayNext(groups, k);
      n := k + 1;
      if |MainLegs(groups[..k + 1])| < 3 {
        n := ThreeWayFrom(groups, k + 1);
      }
    }
  }

  lemma ThreeWayNext(groups: seq<Group>, k: nat)
    requires k < |groups| && |MainLegs(groups[..k])| < 3
    ensures ThreeWay(groups[k..], MainLegs(groups[..k]))
      == if |MainLegs(groups[..k + 1])| >= 3 then MainLegs(groups[..k + 1])
         else ThreeWay(groups[k + 1..], MainLegs(groups[..k + 1]))
  {
    MainLegsNext(groups, k);
    assert groups[k..][0] == groups[k] && groups[k..][1..] == groups[k + 1..];
    assert MainLegs(groups[..k]) + [] == MainLegs(groups[..k]);
  }

  /**
   The legs that count are those of the groups with id 1, up to the group that
   completes three. A fixture is quoted exactly when none of them has a
   non-positive price and each of home, draw and away is there; each price is its
   last leg's.
   */
  lemma FtOddsMeaning(groups: seq<Group>) returns (n: nat)
    ensures Completes(groups, n)
    ensures var legs := MainLegs(groups[..n]);
            && (FtOddsOf(groups).Some?
                <==> (forall i :: 0 <= i < |legs| ==> legs[i].price > 0.0)
                     && HasKind(legs, 1) && HasKind(legs, 2) && HasKind(legs, 3))
            && (FtOddsOf(groups).Some? ==>
                  && IsLastOfKind(legs, 1, FtOddsOf(groups).value.home)
                  && IsLastOfKind(legs, 2, FtOddsOf(groups).value.draw)
                  && IsLastOfKind(legs, 3, FtOddsOf(groups).value.away))
  {
    assert groups[..0] == [] && groups[0..] == groups;
    n := ThreeWayFrom(groups, 0);
    var legs := ThreeWay(groups, []);
    if forall i :: 0 <= i < |legs| ==> legs[i].price > 0.0 {
      PriceIsLast(legs, 1);
      PriceIsLast(legs, 2);
      PriceIsLast(legs, 3);
    }
  }

  /** The pipeline frame of a fixture: football with a full three-way market only. */
  function ToMatch(raw: Raw, now: int): Option<Frame> {
    if raw.sport != 1 then None
    else
      match FtOddsOf(raw.groups)
      case None => None
      case Some(odds) =>
        var home := if raw.scores.Some? then raw.scores.value.home else 0;
        var away := if raw.scores.Some? then raw.scores.value.away else 0;
        Some(Frame(raw.id, ClockOf(raw), home, away, odds, raw.startTs, now))
  }

  const SAMPLE_LEGS := [Leg(1, 5.25), Leg(2, 3.5), Leg(3, 1.75)]

  /** A second-half fixture with a complete market. */
  function SampleRaw(home: int, away: int, status: string): Raw {
    Raw(7, 1, "A", "B", Some(Scores(home, away, status, 2, None)), [Group(1, [SAMPLE_LEGS])], 0)
  }

  lemma SampleOdds()
    ensures FtOddsOf([Group(1, [SAMPLE_LEGS])]).Some?
  {
    var groups := [Group(1, [SAMPLE_LEGS])];
    assert groups[0].events[..0] == [] && Flatten(groups[0].events[..0]) == [];
    assert Flatten(groups[0].events) == SAMPLE_LEGS && ThreeWay(groups, []) == SAMPLE_LEGS;
    var legs := SAMPLE_LEGS;
    assert legs[0].kind == 1 && legs[1].kind == 2 && legs[2].kind == 3;
    PriceIsLast(legs, 1);
    PriceIsLast(legs, 2);
    PriceIsLast(legs, 3);
  }

  lemma SampleQuoted(home: int, away: int, status: string, now: int)
    ensures var m := ToMatch(SampleRaw(home, away, status), now);
            m.Some? && m.value.id == 7 && m.value.home == home && m.value.away == away
            && m.value.clock == ParseClock(status, None)
  {
    SampleOdds();
  }

  /** A running match whose status counts what is left is published with a FULLTIME clock. */
  lemma MisreadExample(home: int, away: int, now: int)
    ensures var raw := SampleRaw(home, away, "5 left");
            && Misread(raw) && Named(raw) && ToMatch(raw, now).Some? && ToMatch(raw, now).value.clock == "FULLTIME"
  {
    assert Trim("5 left") == "5 left" && Upper("5 left") == "5 LEFT";
    SampleStatus();
    SampleQuoted(home, away, "5 left", now);
  }

  lemma SampleStatus()
    ensures var status := "5 LEFT";
            Contains(status, "FT") && status != "FT" && !SaysFinished(status) && !SaysHalfTime(status)
  {
    var status := "5 LEFT";
    NotContained(status, "FINISHED", 1);
    NotContained(status, "ENDED", 1);
    NotContained(status, "FULL TIME", 1);
    assert status[4..] == "FT";
    ContainsLater(status, 4, "FT");
    assert status[0] != "HT"[0] && status[0] != "HALF TIME"[0] && status[0] != "HALFTIME"[0] && status[0] != "FT"[0];
  }

  // ----- the poller (poller.go) -----

  datatype Kind = Live | Settlement

  /** One publish attempt. */
  datatype Publish = Publish(kind: Kind, frame: Frame)

  datatype Tracked = Tracked(raw: Raw, last: Frame)

  /** `active` and `settled` are the poller's maps; `log` and `tracked` remember attempts and ids ever tracked. */
  datatype Poll = Poll(active: map<int, Tracked>, settled: set<int>, log: seq<Publish>, tracked: set<int>)

  predicate Named(raw: Raw) {
    raw.id != 0 && raw.homeName != "" && raw.awayName != ""
  }

  function Settled(f: Frame, now: int): Publish {
    Publish(Settlement, f.(clock := "FULLTIME", receivedAt := now))
  }

  function ScanOne(s: Poll, raw: Raw, now: int): Poll {
    if !Named(raw) || raw.id in s.settled then s
    else
      match ToMatch(raw, now)
      case None => s
      case Some(frame) =>
        if IsFullTime(raw)
        then Poll(s.active - {raw.id}, s.settled + {raw.id}, s.log + [Settled(frame, now)], s.tracked + {raw.id})
        else Poll(s.active[raw.id := Tracked(raw, frame)], s.settled,
                  s.log + [Publish(Live, frame)], s.tracked + {raw.id})
  }

  function Scan(s: Poll, raws: seq<Raw>, now: int): Poll {
    if raws == [] then s else ScanOne(Scan(s, raws[..|raws| - 1], now), raws[|raws| - 1], now)
  }

  function Seen(raws: seq<Raw>): set<int> {
    set i | 0 <= i < |raws| && Named(raws[i]) :: raws[i].id
  }

  const LATE_SECONDS := 5390
  const OLD_SECONDS := 90 * 60

  predicate ClockLateForDrop(raw: Raw) {
    TimerOf(raw).Some? && TimerOf(raw).value.seconds >= LATE_SECONDS
  }

  predicate Finished(raw: Raw, now: int) {
    IsFullTime(raw) || ClockLateForDrop(raw) || (raw.startTs > 0 && now - raw.startTs > OLD_SECONDS)
  }

  /** A match gone from the feed: settle it, with a full-time frame if it was as good as over. */
  function DropOne(s: Poll, id: int, now: int): Poll
    requires id in s.active
  {
    var t := s.active[id];
    Poll(s.active - {id}, s.settled + {id},
         if Finished(t.raw, now) then s.log + [Settled(t.last, now)] else s.log, s.tracked)
  }

  function Drop(s: Poll, ids: seq<int>, now: int): (r: Poll)
    requires forall i :: 0 <= i < |ids| ==> ids[i] in s.active
    requires forall i, j :: 0 <= i < j < |ids| ==> ids[i] != ids[j]
    ensures forall id :: id in s.active && id !in ids ==> id in r.active && r.active[id] == s.active[id]
  {
    if ids == [] then s
    else
      assert ids == ids[..|ids| - 1] + [ids[|ids| - 1]];
      DropOne(Drop(s, ids[..|ids| - 1], now), ids[|ids| - 1], now)
  }

  /** A feed snapshot, or None when fetching it failed; `order` lists the vanished ids as the map yields them. */
  datatype Tick = Tick(feed: Option<seq<Raw>>, now: int, order: seq<int>)

  ghost predicate Enabled(s: Poll, t: Tick) {
    t.feed.Some? ==>
      var scanned := Scan(s, t.feed.value, t.now);
      Lists(t.order, scanned.active.Keys - Seen(t.feed.value))
  }

  ghost function Step(s: Poll, t: Tick): Poll
    requires Enabled(s, t)
  {
    match t.feed
    case None => s
    case Some(raws) => Drop(Scan(s, raws, t.now), t.order, t.now)
  }

  ghost predicate Run(s: Poll, ticks: seq<Tick>)
    decreases ticks
  {
    ticks == [] || (Enabled(s, ticks[0]) && Run(Step(s, ticks[0]), ticks[1..]))
  }

  ghost function After(s: Poll, ticks: seq<Tick>): Poll
    requires Run(s, ticks)
    decreases ticks
  {
    if ticks == [] then s else After(Step(s, ticks[0]), ticks[1..])
  }

  const START := Poll(map[], {}, [], {})

  // ----- invariants -----

  /** The last publish attempt for an id. */
  function LastOf(log: seq<Publish>, id: int): Option<Publish> {
    if log == [] then None
    else if log[|log| - 1].frame.id == id then Some(log[|log| - 1])
    else LastOf(log[..|log| - 1], id)
  }

  lemma LastOfAppend(log: seq<Publish>, p: Publish, id: int)
    ensures LastOf(log + [p], id) == if p.frame.id == id then Some(p) else LastOf(log, id)
  {
    assert (log + [p])[..|log|] == log;
  }

  /** Active and settled ids are disjoint and together are every id ever tracked. */
  ghost predicate IdsOk(s: Poll) {
    && s.active.Keys !! s.settled
    && s.tracked == s.active.Keys + s.settled
    && (forall i :: 0 <= i < |s.log| ==> s.log[i].frame.id in s.tracked)
  }

  /** An active match is not full time, and its tracked frame is the last one published for it. */
  ghost predicate ActiveOk(s: Poll) {
    forall id :: id in s.active ==>
      && !IsFullTime(s.active[id].raw)
      && s.active[id].last.id == id
      && LastOf(s.log, id) == Some(Publish(Live, s.active[id].last))
  }

  /** A settlement frame says FULLTIME, its match is settled, and nothing is published for it later. */
  ghost predicate SettlementsOk(s: Poll) {
    forall i :: 0 <= i < |s.log| && s.log[i].kind == Settlement ==>
      && s.log[i].frame.clock == "FULLTIME"
      && s.log[i].frame.id in s.settled
      && forall j :: i < j < |s.log| ==> s.log[j].frame.id != s.log[i].frame.id
  }

  ghost predicate PollOk(s: Poll) {
    IdsOk(s) && ActiveOk(s) && SettlementsOk(s)
  }

  lemma PublishOk(s: Poll, t: Poll, p: Publish)
    requires PollOk(s) && t.log == s.log + [p] && IdsOk(t)
    requires p.frame.id !in s.settled && s.settled <= t.settled
    requires p.kind == Settlement ==> p.frame.clock == "FULLTIME" && p.frame.id in t.settled
    requires forall id :: id in t.active ==>
      if id == p.frame.id then p.kind == Live && t.active[id].last == p.frame && !IsFullTime(t.active[id].raw)
      else id in s.active && t.active[id] == s.active[id]
    ensures PollOk(t)
  {
    forall id | id in t.active
      ensures LastOf(t.log, id) == Some(Publish(Live, t.active[id].last))
    {
      LastOfAppend(s.log, p, id);
    }
  }

  lemma ScanOneOk(s: Poll, raw: Raw, now: int)
    requires PollOk(s)
    ensures PollOk(ScanOne(s, raw, now))
  {
    var t := ScanOne(s, raw, now);
    if t != s {
      var frame := ToMatch(raw, now).value;
      PublishOk(s, t, if IsFullTime(raw) then Settled(frame, now) else Publish(Live, frame));
    }
  }

  lemma DropOneOk(s: Poll, id: int, now: int)
    requires PollOk(s) && id in s.active
    ensures PollOk(DropOne(s, id, now))
  {
    if Finished(s.active[id].raw, now) {
      PublishOk(s, DropOne(s, id, now), Settled(s.active[id].last, now));
    }
  }

  lemma {:induction false} ScanOk(s: Poll, raws: seq<Raw>, now: int)
    requires PollOk(s)
    ensures PollOk(Scan(s, raws, now))
  {
    if raws != [] {
      ScanOk(s, raws[..|raws| - 1], now);
      ScanOneOk(Scan(s, raws[..|raws| - 1], now), raws[|raws| - 1], now);
    }
  }

  lemma {:induction false} DropOk(s: Poll, ids: seq<int>, now: int)
    requires PollOk(s)
    requires forall i :: 0 <= i < |ids| ==> ids[i] in s.active
    requires forall i, j :: 0 <= i < j < |ids| ==> ids[i] != ids[j]
    ensures PollOk(Drop(s, ids, now))
  {
    if ids != [] {
      var n := |ids| - 1;
      assert ids == ids[..n] + [ids[n]];
      DropOk(s, ids[..n], now);
      DropOneOk(Drop(s, ids[..n], now), ids[n], now);
    }
  }

  /** At every tick boundary of every run the poller's bookkeeping is consistent. */
  lemma {:induction false} RunOk(s: Poll, ticks: seq<Tick>)
    requires PollOk(s) && Run(s, ticks)
    ensures PollOk(After(s, ticks))
    decreases ticks
  {
    if ticks != [] {
      var t := ticks[0];
      if t.feed.Some? {
        ScanOk(s, t.feed.value, t.now);
        DropOk(Scan(s, t.feed.value, t.now), t.order, t.now);
      }
      RunOk(Step(s, t), ticks[1..]);
    }
  }

  /** Every settlement is unique for its match and is the last thing published for it. */
  lemma SettlementUnique(ticks: seq<Tick>, i: nat, j: nat)
    requires Run(START, ticks)
    requires i < j < |After(START, ticks).log| && After(START, ticks).log[i].kind == Settlement
    ensures After(START, ticks).log[j].frame.id != After(START, ticks).log[i].frame.id
  {
    RunOk(START, ticks);
  }

  // ----- silence after settlement -----

  /** The attempts made since s concern no id that was settled in s, and settled ids stay settled. */
  ghost predicate Quiet(s: Poll, t: Poll) {
    && s.log <= t.log && s.settled <= t.settled && s.tracked <= t.tracked
    && forall i :: |s.log| <= i < |t.log| ==> t.log[i].frame.id !in s.settled
  }

  lemma QuietTrans(s: Poll, t: Poll, u: Poll)
    requires Quiet(s, t) && Quiet(t, u)
    ensures Quiet(s, u)
  {
    forall i | |s.log| <= i < |u.log|
      ensures u.log[i].frame.id !in s.settled
    {
      if i < |t.log| {
        assert u.log[i] == t.log[i];
      }
    }
  }

  lemma {:induction false} ScanQuiet(s: Poll, raws: seq<Raw>, now: int)
    requires PollOk(s)
    ensures Quiet(s, Scan(s, raws, now))
  {
    if raws != [] {
      var t := Scan(s, raws[..|raws| - 1], now);
      ScanQuiet(s, raws[..|raws| - 1], now);
      QuietTrans(s, t, ScanOne(t, raws[|raws| - 1], now));
    }
  }

  lemma {:induction false} DropQuiet(s: Poll, ids: seq<int>, now: int)
    requires PollOk(s)
    requires forall i :: 0 <= i < |ids| ==> ids[i] in s.active
    requires forall i, j :: 0 <= i < j < |ids| ==> ids[i] != ids[j]
    ensures Quiet(s, Drop(s, ids, now))
  {
    if ids != [] {
      var n := |ids| - 1;
      assert ids == ids[..n] + [ids[n]];
      DropQuiet(s, ids[..n], now);
      DropOk(s, ids[..n], now);
      var t := Drop(s, ids[..n], now);
      QuietTrans(s, t, DropOne(t, ids[n], now));
    }
  }

  /** Nothing is ever published again for a settled id, whatever the feed shows later. */
  lemma {:induction false} SettledStaysQuiet(s: Poll, ticks: seq<Tick>)
    requires PollOk(s) && Run(s, ticks)
    ensures Quiet(s, After(s, ticks))
    decreases ticks
  {
    if ticks != [] {
      var t, u := ticks[0], Step(s, ticks[0]);
      if t.feed.Some? {
        var v := Scan(s, t.feed.value, t.now);
        ScanOk(s, t.feed.value, t.now);
        ScanQuiet(s, t.feed.value, t.now);
        DropOk(v, t.order, t.now);
        DropQuiet(v, t.order, t.now);
        QuietTrans(s, v, u);
      }
      SettledStaysQuiet(u, ticks[1..]);
      QuietTrans(s, u, After(s, ticks));
    }
  }

  /** A dropped match is settled on the last score that was published for it, and only if it was as good as over. */
  lemma DropCarriesLastScore(s: Poll, id: int, now: int)
    requires PollOk(s) && id in s.active
    ensures LastOf(s.log, id).Some? && LastOf(s.log, id).value.kind == Live
    ensures var last := LastOf(s.log, id).value.frame;
            var log := DropOne(s, id, now).log;
            var raw := s.active[id].raw;
            if (raw.scores.Some? && raw.scores.value.timer.Some? && raw.scores.value.timer.value.seconds >= 5390)
               || (raw.startTs > 0 && now - raw.startTs > 5400)
            then log == s.log + [Publish(Settlement, last.(clock := "FULLTIME", receivedAt := now))]
            else log == s.log
  {}

  // ----- full-time clocks -----

  ghost predicate LiveClocksOk(s: Poll) {
    forall i :: 0 <= i < |s.log| && s.log[i].frame.clock == "FULLTIME" ==> s.log[i].kind == Settlement
  }

  lemma LiveClocksEarlier(s: Poll, t: Poll)
    requires s.log <= t.log && LiveClocksOk(t)
    ensures LiveClocksOk(s)
  {
    assert forall i :: 0 <= i < |s.log| ==> s.log[i] == t.log[i];
  }

  /** The fixture is one the poller publishes in this state. */
  predicate Publishes(s: Poll, raw: Raw, now: int) {
    Named(raw) && raw.id !in s.settled && ToMatch(raw, now).Some?
  }

  /** No published fixture of the snapshot is misread. */
  predicate CleanScan(s: Poll, raws: seq<Raw>, now: int) {
    raws == [] ||
    var init, raw := raws[..|raws| - 1], raws[|raws| - 1];
    CleanScan(s, init, now) && (Publishes(Scan(s, init, now), raw, now) ==> !Misread(raw))
  }

  ghost predicate CleanFeed(s: Poll, ticks: seq<Tick>)
    requires Run(s, ticks)
    decreases ticks
  {
    ticks == [] ||
    var t := ticks[0];
    (t.feed.Some? ==> CleanScan(s, t.feed.value, t.now)) && CleanFeed(Step(s, t), ticks[1..])
  }

  lemma ScanOneClocks(s: Poll, raw: Raw, now: int)
    ensures s.log <= ScanOne(s, raw, now).log
    ensures LiveClocksOk(ScanOne(s, raw, now)) <==> LiveClocksOk(s) && (Publishes(s, raw, now) ==> !Misread(raw))
  {
    var t := ScanOne(s, raw, now);
    ClockDisagreement(raw);
    if LiveClocksOk(t) {
      LiveClocksEarlier(s, t);
    }
    if Publishes(s, raw, now) && Misread(raw) {
      assert t.log[|s.log|] == Publish(Live, ToMatch(raw, now).value);
    }
  }

  lemma {:induction false} ScanClocks(s: Poll, raws: seq<Raw>, now: int)
    ensures s.log <= Scan(s, raws, now).log
    ensures LiveClocksOk(Scan(s, raws, now)) <==> LiveClocksOk(s) && CleanScan(s, raws, now)
  {
    if raws != [] {
      ScanClocks(s, raws[..|raws| - 1], now);
      ScanOneClocks(Scan(s, raws[..|raws| - 1], now), raws[|raws| - 1], now);
    }
  }

  lemma DropOneClocks(s: Poll, id: int, now: int)
    requires id in s.active
    ensures s.log <= DropOne(s, id, now).log
    ensures LiveClocksOk(DropOne(s, id, now)) <==> LiveClocksOk(s)
  {
    var t := DropOne(s, id, now);
    assert forall i :: |s.log| <= i < |t.log| ==> t.log[i].kind == Settlement;
    if LiveClocksOk(t) {
      LiveClocksEarlier(s, t);
    }
  }

  lemma {:induction false} DropClocks(s: Poll, ids: seq<int>, now: int)
    requires forall i :: 0 <= i < |ids| ==> ids[i] in s.active
    requires forall i, j :: 0 <= i < j < |ids| ==> ids[i] != ids[j]
    ensures s.log <= Drop(s, ids, now).log
    ensures LiveClocksOk(Drop(s, ids, now)) <==> LiveClocksOk(s)
  {
    if ids != [] {
      var n := |ids| - 1;
      assert ids == ids[..n] + [ids[n]];
      DropClocks(s, ids[..n], now);
      DropOneClocks(Drop(s, ids[..n], now), ids[n], now);
    }
  }

  lemma StepClocks(s: Poll, t: Tick)
    requires Enabled(s, t)
    ensures s.log <= Step(s, t).log
    ensures LiveClocksOk(Step(s, t))
      <==> LiveClocksOk(s) && (t.feed.Some? ==> CleanScan(s, t.feed.value, t.now))
  {
    if t.feed.Some? {
      ScanClocks(s, t.feed.value, t.now);
      DropClocks(Scan(s, t.feed.value, t.now), t.order, t.now);
    }
  }

  lemma {:induction false} RunLogGrows(s: Poll, ticks: seq<Tick>)
    requires Run(s, ticks)
    ensures s.log <= After(s, ticks).log
    decreases ticks
  {
    if ticks != [] {
      StepClocks(s, ticks[0]);
      RunLogGrows(Step(s, ticks[0]), ticks[1..]);
    }
  }

  /** Every published FULLTIME clock belongs to a settlement frame exactly when no published fixture was misread. */
  lemma {:induction false} FullTimeOnlyOnSettlement(s: Poll, ticks: seq<Tick>)
    requires LiveClocksOk(s) && Run(s, ticks)
    ensures LiveClocksOk(After(s, ticks)) <==> CleanFeed(s, ticks)
    decreases ticks
  {
    if ticks != [] {
      var u := Step(s, ticks[0]);
      StepClocks(s, ticks[0]);
      if LiveClocksOk(u) {
        FullTimeOnlyOnSettlement(u, ticks[1..]);
      } else {
        RunLogGrows(u, ticks[1..]);
        assert LiveClocksOk(After(u, ticks[1..])) ==> LiveClocksOk(u) by {
          if LiveClocksOk(After(u, ticks[1..])) {
            LiveClocksEarlier(u, After(u, ticks[1..]));
          }
        }
      }
    }
  }

  // ----- the poller object -----

  class Poller {
    var active: map<int, Tracked>
    var settled: set<int>
    ghost var log: seq<Publish>
    ghost var tracked: set<int>

    ghost function Now(): Poll
      reads this
    {
      Poll(active, settled, log, tracked)
    }

    constructor ()
      ensures Now() == START
    {
      active, settled, log, tracked := map[], {}, [], {};
    }

    method SafePublish(ghost p: Publish)
      modifies this`log
      ensures log == old(log) + [p]
    {
      log := log + [p];
    }

    method MarkSettled(id: int)
      modifies this`active, this`settled
      ensures active == old(active) - {id} && settled == old(settled) + {id}
    {
      settled := settled + {id};
      active := active - {id};
    }

    method Visit(raw: Raw, now: int)
      modifies this
      ensures Now() == ScanOne(old(Now()), raw, now)
    {
      if raw.id == 0 || raw.homeName == "" || raw.awayName == "" {
        return;
      }
      if raw.id in settled {
        return;
      }
      var frame := ToMatch(raw, now);
      if frame.None? {
        return;
      }
      active := active[raw.id := Tracked(raw, frame.value)];
      tracked := tracked + {raw.id};
      if IsFullTime(raw) {
        SafePublish(Settled(frame.value, now));
        MarkSettled(raw.id);
        assert active == old(active) - {raw.id};
        return;
      }
      SafePublish(Publish(Live, frame.value));
    }

    method Vanish(id: int, now: int)
      requires id in active
      modifies this
      ensures Now() == DropOne(old(Now()), id, now)
    {
      var t := active[id];
      active := active - {id};
      var finished := IsFullTime(t.raw) || ClockLateForDrop(t.raw)
                      || (t.raw.startTs > 0 && now - t.raw.startTs > OLD_SECONDS);
      if finished {
        SafePublish(Settled(t.last, now));
      }
      MarkSettled(id);
      assert active == old(active) - {id};
    }

    /** One poll: visit every fixture of the feed, then drop what vanished. */
    method OnTick(feed: Option<seq<Raw>>, now: int) returns (order: seq<int>)
      modifies this
      ensures Enabled(old(Now()), Tick(feed, now, order))
      ensures Now() == Step(old(Now()), Tick(feed, now, order))
    {
      order := [];
      if feed.None? {
        return;
      }
      var raws := feed.value;
      var seen: set<int> := {};
      for i := 0 to |raws|
        invariant Now() == Scan(old(Now()), raws[..i], now)
        invariant seen == Seen(raws[..i])
      {
        assert raws[..i + 1][..i] == raws[..i];
        SeenNext(raws, i);
        if Named(raws[i]) {
          seen := seen + {raws[i].id};
        }
        Visit(raws[i], now);
      }
      assert raws[..|raws|] == raws;
      ghost var scanned := Now();
      order := ListAll(active.Keys - seen);
      for i := 0 to |order|
        invariant Now() == Drop(scanned, order[..i], now)
      {
        assert order[..i + 1][..i] == order[..i];
        assert order[i] !in order[..i];
        Vanish(order[i], now);
      }
      assert order[..|order|] == order;
    }
  }

  lemma SeenNext(raws: seq<Raw>, i: nat)
    requires i < |raws|
    ensures Seen(raws[..i + 1]) == Seen(raws[..i]) + if Named(raws[i]) then {raws[i].id} else {}
  {
    var a, b := raws[..i], raws[..i + 1];
    forall x | x in Seen(b)
      ensures x in Seen(a) + if Named(raws[i]) then {raws[i].id} else {}
    {
      var j :| 0 <= j < |b| && Named(b[j]) && b[j].id == x;
      assert j < i ==> a[j] == b[j];
    }
    forall x | x in Seen(a)
      ensures x in Seen(b)
    {
      var j :| 0 <= j < |a| && Named(a[j]) && a[j].id == x;
      assert b[j] == a[j];
    }
    assert Named(raws[i]) ==> Named(b[i]) && b[i].id in Seen(b);
  }
}
