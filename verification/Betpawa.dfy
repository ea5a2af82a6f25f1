/**
 The betPawa feed poller (data-ingestion-go/internal/betpawa). A match that
 leaves the feed and comes back starts a new tracking episode; within one
 episode at most one full-time frame is synthesized.
 */
module Betpawa {
  import opened Options
  import opened Text
  import opened Listing

  // ----- clocks (types.go) -----

  datatype Display = Display(minute: string, slug: string)

  predicate SaysFinished(slug: string) {
    Contains(slug, "FULL_TIME") || Contains(slug, "FINISHED") || Contains(slug, "ENDED")
  }

  predicate SaysHalfTime(slug: string) {
    Contains(slug, "HALF_TIME") || slug == "HALF"
  }

  function ParseClock(d: Display): string {
    var slug, n := Upper(d.slug), Atoi(Trim(d.minute));
    if SaysHalfTime(slug) then "HT"
    else if SaysFinished(slug) then "FULLTIME"
    else if n.Some? && n.value >= 0 then Itoa(n.value) + "'"
    else "LIVE"
  }

  predicate IsFullTimePeriod(d: Display) {
    var slug := Upper(d.slug);
    !Contains(slug, "HALF_TIME") && SaysFinished(slug)
  }

  function TrimSuffix(s: string, c: char): string {
    if s != "" && s[|s| - 1] == c then s[..|s| - 1] else s
  }

  predicate ClockIsLate(clock: string) {
    var c := Trim(clock);
    if c == "FULLTIME" || c == "HT" then c == "FULLTIME"
    else
      var n := Atoi(TrimSuffix(c, '\''));
      n.Some? && n.value >= 85
  }

  lemma NoSpace(s: string)
    requires s != "" && !IsSpace(s[0]) && !IsSpace(s[|s| - 1])
    ensures Trim(s) == s
  {}

  lemma HalfIsUnfinished()
    ensures !SaysFinished("HALF")
  {
    assert !Contains("", "FULL_TIME") && !Contains("", "FINISHED") && !Contains("", "ENDED");
  }

  /** The clock says FULLTIME exactly when the period test holds: this provider's two tests agree. */
  lemma ClocksAgree(d: Display)
    ensures ParseClock(d) == "FULLTIME" <==> IsFullTimePeriod(d)
    ensures IsFullTimePeriod(d) <==>
      var slug := Upper(d.slug);
      && !Contains(slug, "HALF_TIME")
      && (Contains(slug, "FULL_TIME") || Contains(slug, "FINISHED") || Contains(slug, "ENDED"))
    ensures ParseClock(d) == "HT" <==> Contains(Upper(d.slug), "HALF_TIME") || Upper(d.slug) == "HALF"
  {
    var n := Atoi(Trim(d.minute));
    HalfIsUnfinished();
    if n.Some? {
      var s := Itoa(n.value) + "'";
      assert s[|s| - 1] == '\'';
    }
    assert "HT"[0] != "FULLTIME"[0] && "LIVE"[0] != "FULLTIME"[0];
  }

  /** A printed clock counts as late exactly at full time or from minute 85 on. */
  lemma LateClock(d: Display)
    ensures ClockIsLate(ParseClock(d)) <==>
      IsFullTimePeriod(d)
      || (ParseClock(d) != "HT" && Atoi(Trim(d.minute)).Some? && Atoi(Trim(d.minute)).value >= 85)
  {
    var slug, n := Upper(d.slug), Atoi(Trim(d.minute));
    ClocksAgree(d);
    if SaysHalfTime(slug) {
      NoSpace("HT");
    } else if SaysFinished(slug) {
      NoSpace("FULLTIME");
    } else if n.Some? && n.value >= 0 {
      MinuteRoundTrip(n.value);
    } else {
      NoSpace("LIVE");
      assert "LIVE"[0] != "FULLTIME"[0] && !('0' <= "LIVE"[0] <= '9');
    }
  }

  /** Printing a minute and reading it back gives the same minute. */
  lemma MinuteRoundTrip(n: nat)
    requires n < 0x8000_0000_0000_0000
    ensures var s := Itoa(n) + "'";
            Trim(s) == s && s != "FULLTIME" && s != "HT" && Atoi(TrimSuffix(s, '\'')) == Some(n)
  {
    var s := Itoa(n) + "'";
    DigitsParse(n);
    assert '0' <= s[0] <= '9' && s[|s| - 1] == '\'';
    NoSpace(s);
    assert TrimSuffix(s, '\'') == Digits(n);
  }

  // ----- the poller (poller.go) -----

  datatype Event = Event(id: string, quoted: bool, display: Display, home: int, away: int, kickoff: Option<int>)

  datatype Frame = Frame(id: string, clock: string, home: int, away: int, kickoff: Option<int>)

  /** A football event with a complete full-time market becomes a frame. */
  function ToMatch(e: Event): Option<Frame> {
    if e.quoted then Some(Frame(e.id, ParseClock(e.display), e.home, e.away, e.kickoff)) else None
  }

  datatype Kind = Feed | Synthesized

  datatype Publish = Publish(kind: Kind, frame: Frame, episode: nat)

  datatype Tracked = Tracked(frame: Frame, ftEmitted: bool, episode: nat)

  /** `active` is the poller's map; `log` and `episodes` remember publications and tracking episodes. */
  datatype Poll = Poll(active: map<string, Tracked>, log: seq<Publish>, episodes: nat)

  const START := Poll(map[], [], 0)

  function VisitOne(s: Poll, e: Event): Poll {
    match ToMatch(e)
    case None => s
    case Some(m) =>
      var known := m.id in s.active;
      var episode := if known then s.active[m.id].episode else s.episodes;
      var emitted := known && s.active[m.id].ftEmitted;
      var now := !emitted && IsFullTimePeriod(e.display);
      Poll(s.active[m.id := Tracked(m, emitted || now, episode)],
           s.log + [Publish(Feed, m, episode)]
             + if now then [Publish(Synthesized, m.(clock := "FULLTIME"), episode)] else [],
           if known then s.episodes else s.episodes + 1)
  }

  function Visits(s: Poll, events: seq<Event>): Poll {
    if events == [] then s else VisitOne(Visits(s, events[..|events| - 1]), events[|events| - 1])
  }

  const OLD_SECONDS := 90 * 60

  predicate Over(f: Frame, now: int) {
    ClockIsLate(f.clock) || (f.kickoff.Some? && now - f.kickoff.value > OLD_SECONDS)
  }

  function DropOne(s: Poll, id: string, now: int): Poll
    requires id in s.active
  {
    var t := s.active[id];
    Poll(s.active - {id},
         if !t.ftEmitted && Over(t.frame, now)
         then s.log + [Publish(Synthesized, t.frame.(clock := "FULLTIME"), t.episode)] else s.log,
         s.episodes)
  }

  function Drops(s: Poll, ids: seq<string>, now: int): (r: Poll)
    requires forall i :: 0 <= i < |ids| ==> ids[i] in s.active
    requires forall i, j :: 0 <= i < j < |ids| ==> ids[i] != ids[j]
    ensures forall id :: id in s.active && id !in ids ==> id in r.active && r.active[id] == s.active[id]
  {
    if ids == [] then s
    else
      assert ids == ids[..|ids| - 1] + [ids[|ids| - 1]];
      DropOne(Drops(s, ids[..|ids| - 1], now), ids[|ids| - 1], now)
  }

  function Seen(events: seq<Event>): set<string> {
    set i | 0 <= i < |events| && events[i].quoted :: events[i].id
  }

  datatype Tick = Tick(events: seq<Event>, now: int, order: seq<string>)

  ghost predicate Enabled(s: Poll, t: Tick) {
    Lists(t.order, Visits(s, t.events).active.Keys - Seen(t.events))
  }

  ghost function Step(s: Poll, t: Tick): Poll
    requires Enabled(s, t)
  {
    Drops(Visits(s, t.events), t.order, t.now)
  }

  ghost predicate Run(s: Poll, ticks: seq<Tick>)
    decreases ticks
  {
    ticks == [] || (Enabled(s, ticks[0]) && Run(Step(s, ticks[0]), ticks[1..]))
  }

  ghost function After(s: Poll, ticks: seq<Tick>): Poll
    requires Run(s, ticks)
    decreases ticks
  {
    if ticks == [] then s else After(Step(s, ticks[0]), ticks[1..])
  }

  // ----- one synthesized full time per episode -----

  function Synths(log: seq<Publish>, episode: nat): nat {
    if log == [] then 0
    else
      var p := log[|log| - 1];
      Synths(log[..|log| - 1], episode) + if p.kind == Synthesized && p.episode == episode then 1 else 0
  }

  /** The frame the feed last showed in an episode. */
  function LastFeed(log: seq<Publish>, episode: nat): Option<Frame> {
    if log == [] then None
    else
      var p := log[|log| - 1];
      if p.kind == Feed && p.episode == episode then Some(p.frame) else LastFeed(log[..|log| - 1], episode)
  }

  lemma LogAppend(log: seq<Publish>, p: Publish, episode: nat)
    ensures Synths(log + [p], episode)
      == Synths(log, episode) + if p.kind == Synthesized && p.episode == episode then 1 else 0
    ensures LastFeed(log + [p], episode)
      == if p.kind == Feed && p.episode == episode then Some(p.frame) else LastFeed(log, episode)
  {
    assert (log + [p])[..|log|] == log;
  }

  /** An active match owns one episode, and its flag tells whether full time was synthesized in it. */
  ghost predicate ActiveOk(s: Poll) {
    && (forall id :: id in s.active ==>
          var t := s.active[id];
          && t.frame.id == id && t.episode < s.episodes
          && Synths(s.log, t.episode) == (if t.ftEmitted then 1 else 0)
          && LastFeed(s.log, t.episode) == Some(t.frame))
    && (forall a, b :: a in s.active && b in s.active && a != b ==> s.active[a].episode != s.active[b].episode)
  }

  /** No episode has two synthesized frames, and a full time shown by the feed has one. */
  ghost predicate LogOk(s: Poll) {
    && (forall e: nat :: Synths(s.log, e) <= 1)
    && (forall e: nat :: e >= s.episodes ==> Synths(s.log, e) == 0)
    && (forall i :: 0 <= i < |s.log| ==> s.log[i].episode < s.episodes)
    && (forall i :: 0 <= i < |s.log| && s.log[i].kind == Feed && s.log[i].frame.clock == "FULLTIME" ==>
          Synths(s.log, s.log[i].episode) == 1)
  }

  ghost predicate PollOk(s: Poll) {
    ActiveOk(s) && LogOk(s)
  }

  /** What one visit does to the counts of every episode. */
  lemma VisitCounts(s: Poll, e: Event, x: nat)
    requires e.quoted
    ensures var m, t := ToMatch(e).value, VisitOne(s, e);
            var ep := t.active[m.id].episode;
            && Synths(t.log, x) == Synths(s.log, x) + (if |t.log| == |s.log| + 2 && x == ep then 1 else 0)
            && LastFeed(t.log, x) == if x == ep then Some(m) else LastFeed(s.log, x)
  {
    var m, t := ToMatch(e).value, VisitOne(s, e);
    var ep := t.active[m.id].episode;
    var fed := s.log + [Publish(Feed, m, ep)];
    LogAppend(s.log, Publish(Feed, m, ep), x);
    LogAppend(fed, Publish(Synthesized, m.(clock := "FULLTIME"), ep), x);
    assert t.log == fed || t.log == fed + [Publish(Synthesized, m.(clock := "FULLTIME"), ep)];
  }

  lemma VisitOneOk(s: Poll, e: Event)
    requires PollOk(s)
    ensures PollOk(VisitOne(s, e))
  {
    if e.quoted {
      VisitActive(s, e);
      VisitLog(s, e);
    }
  }

  lemma VisitActive(s: Poll, e: Event)
    requires PollOk(s) && e.quoted
    ensures ActiveOk(VisitOne(s, e))
  {
    var t := VisitOne(s, e);
    forall id | id in t.active
      ensures t.active[id].frame.id == id && t.active[id].episode < t.episodes
      ensures Synths(t.log, t.active[id].episode) == (if t.active[id].ftEmitted then 1 else 0)
      ensures LastFeed(t.log, t.active[id].episode) == Some(t.active[id].frame)
    {
      VisitCounts(s, e, t.active[id].episode);
    }
  }

  lemma VisitLog(s: Poll, e: Event)
    requires PollOk(s) && e.quoted
    ensures LogOk(VisitOne(s, e))
  {
    var t := VisitOne(s, e);
    ClocksAgree(e.display);
    forall x: nat
      ensures Synths(t.log, x) <= 1 && (x >= t.episodes ==> Synths(t.log, x) == 0)
    {
      VisitCounts(s, e, x);
    }
    forall i | 0 <= i < |t.log|
      ensures t.log[i].episode < t.episodes
      ensures t.log[i].kind == Feed && t.log[i].frame.clock == "FULLTIME" ==> Synths(t.log, t.log[i].episode) == 1
    {
      VisitCounts(s, e, t.log[i].episode);
      assert i < |s.log| ==> t.log[i] == s.log[i];
    }
  }

  lemma DropOneOk(s: Poll, id: string, now: int)
    requires PollOk(s) && id in s.active
    ensures PollOk(DropOne(s, id, now))
  {
    var t := s.active[id];
    var p := Publish(Synthesized, t.frame.(clock := "FULLTIME"), t.episode);
    forall x: nat {
      LogAppend(s.log, p, x);
    }
  }

  lemma {:induction false} VisitsOk(s: Poll, events: seq<Event>)
    requires PollOk(s)
    ensures PollOk(Visits(s, events))
  {
    if events != [] {
      VisitsOk(s, events[..|events| - 1]);
      VisitOneOk(Visits(s, events[..|events| - 1]), events[|events| - 1]);
    }
  }

  lemma {:induction false} DropsOk(s: Poll, ids: seq<string>, now: int)
    requires PollOk(s)
    requires forall i :: 0 <= i < |ids| ==> ids[i] in s.active
    requires forall i, j :: 0 <= i < j < |ids| ==> ids[i] != ids[j]
    ensures PollOk(Drops(s, ids, now))
  {
    if ids != [] {
      var n := |ids| - 1;
      assert ids == ids[..n] + [ids[n]];
      DropsOk(s, ids[..n], now);
      DropOneOk(Drops(s, ids[..n], now), ids[n], now);
    }
  }

  /**
   Over every run, each tracking episode has at most one synthesized full-time
   frame, and exactly one as soon as the feed showed full time in it.
   */
  lemma {:induction false} RunOk(s: Poll, ticks: seq<Tick>)
    requires PollOk(s) && Run(s, ticks)
    ensures PollOk(After(s, ticks))
    decreases ticks
  {
    if ticks != [] {
      VisitsOk(s, ticks[0].events);
      DropsOk(Visits(s, ticks[0].events), ticks[0].order, ticks[0].now);
      RunOk(Step(s, ticks[0]), ticks[1..]);
    }
  }

  /**
   A dropped match gets its full-time frame, with the last score the feed
   showed, exactly when none was synthesized before and it was as good as over.
   */
  lemma DropSynthesizes(s: Poll, id: string, now: int)
    requires PollOk(s) && id in s.active
    ensures var e := s.active[id].episode;
            && LastFeed(s.log, e).Some?
            && var last := LastFeed(s.log, e).value;
               if Synths(s.log, e) == 0
                  && (ClockIsLate(last.clock) || (last.kickoff.Some? && now > last.kickoff.value + 5400))
               then DropOne(s, id, now).log == s.log + [Publish(Synthesized, last.(clock := "FULLTIME"), e)]
               else DropOne(s, id, now).log == s.log
  {}

  // ----- the poller object -----

  class Poller {
    var active: map<string, Tracked>
    ghost var log: seq<Publish>
    var episodes: nat

    ghost function Now(): Poll
      reads this
    {
      Poll(active, log, episodes)
    }

    constructor ()
      ensures Now() == START
    {
      active, log, episodes := map[], [], 0;
    }

    method Emit(ghost p: Publish)
      modifies this`log
      ensures log == old(log) + [p]
    {
      log := log + [p];
    }

    method Visit(e: Event)
      modifies this
      ensures Now() == VisitOne(old(Now()), e)
    {
      var m := ToMatch(e);
      if m.None? {
        return;
      }
      var id := m.value.id;
      if id !in active {
        active := active[id := Tracked(m.value, false, episodes)];
        episodes := episodes + 1;
      }
      active := active[id := active[id].(frame := m.value)];
      Emit(Publish(Feed, m.value, active[id].episode));
      if !active[id].ftEmitted && IsFullTimePeriod(e.display) {
        active := active[id := active[id].(ftEmitted := true)];
        Emit(Publish(Synthesized, m.value.(clock := "FULLTIME"), active[id].episode));
      }
      assert active == old(active)[id := active[id]];
    }

    method Vanish(id: string, now: int)
      requires id in active
      modifies this
      ensures Now() == DropOne(old(Now()), id, now)
    {
      var t := active[id];
      if !t.ftEmitted
         && (ClockIsLate(t.frame.clock) || (t.frame.kickoff.Some? && now - t.frame.kickoff.value > OLD_SECONDS)) {
        Emit(Publish(Synthesized, t.frame.(clock := "FULLTIME"), t.episode));
      }
      active := active - {id};
    }

    method OnTick(events: seq<Event>, now: int) returns (order: seq<string>)
      modifies this
      ensures Enabled(old(Now()), Tick(events, now, order))
      ensures Now() == Step(old(Now()), Tick(events, now, order))
    {
      var seen: set<string> := {};
      for i := 0 to |events|
        invariant Now() == Visits(old(Now()), events[..i])
        invariant seen == Seen(events[..i])
      {
        assert events[..i + 1][..i] == events[..i];
        SeenNext(events, i);
        if events[i].quoted {
          seen := seen + {events[i].id};
        }
        Visit(events[i]);
      }
      assert events[..|events|] == events;
      ghost var visited := Now();
      order := ListAll(active.Keys - seen);
      for i := 0 to |order|
        invariant Now() == Drops(visited, order[..i], now)
      {
        assert order[..i + 1][..i] == order[..i];
        assert order[i] !in order[..i];
        Vanish(order[i], now);
      }
      assert order[..|order|] == order;
    }
  }

  lemma SeenNext(events: seq<Event>, i: nat)
    requires i < |events|
    ensures Seen(events[..i + 1]) == Seen(events[..i]) + if events[i].quoted then {events[i].id} else {}
  {
    var a, b := events[..i], events[..i + 1];
    forall x | x in Seen(b)
      ensures x in Seen(a) + if events[i].quoted then {events[i].id} else {}
    {
      var j :| 0 <= j < |b| && b[j].quoted && b[j].id == x;
      assert j < i ==> a[j] == b[j];
    }
    forall x | x in Seen(a)
      ensures x in Seen(b)
    {
      var j :| 0 <= j < |a| && a[j].quoted && a[j].id == x;
      assert b[j] == a[j];
    }
    assert events[i].quoted ==> b[i].quoted && b[i].id in Seen(b);
  }
}
