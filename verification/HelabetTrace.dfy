/**
 What the Helabet poller publishes and tracks, in terms of the feed alone: every
 published frame was shown by some snapshot, and after a snapshot the poller
 tracks exactly what it shows.
 */
module HelabetTrace {
  import opened Options
  import opened Text
  import opened Listing
  import opened Helabet

  /** The fixture is a named football fixture with a full three-way quote. */
  predicate Quoted(raw: Raw) {
    raw.id != 0 && raw.homeName != "" && raw.awayName != "" && raw.sport == 1 && FtOddsOf(raw.groups).Some?
  }

  /** The frame carries what the fixture shows. */
  predicate Shows(raw: Raw, f: Frame) {
    && Quoted(raw) && f.id == raw.id && f.kickoff == raw.startTs && Some(f.odds) == FtOddsOf(raw.groups)
    && match raw.scores
       case None => f.home == 0 && f.away == 0
       case Some(sc) => f.home == sc.home && f.away == sc.away
  }

  /** Every frame published and every match tracked was shown by one of the fixtures. */
  ghost predicate Traced(s: Poll, raws: set<Raw>) {
    && (forall i :: 0 <= i < |s.log| ==> exists raw :: raw in raws && Shows(raw, s.log[i].frame))
    && (forall id :: id in s.active ==> s.active[id].raw in raws && Shows(s.active[id].raw, s.active[id].last))
  }

  lemma ScanOneTraced(s: Poll, raw: Raw, now: int, raws: set<Raw>)
    requires Traced(s, raws) && raw in raws
    ensures Traced(ScanOne(s, raw, now), raws)
  {
    if Publishes(s, raw, now) {
      assert Shows(raw, ToMatch(raw, now).value);
      assert Shows(raw, Settled(ToMatch(raw, now).value, now).frame);
    }
  }

  lemma {:induction false} ScanTraced(s: Poll, feed: seq<Raw>, now: int, raws: set<Raw>)
    requires Traced(s, raws) && forall i :: 0 <= i < |feed| ==> feed[i] in raws
    ensures Traced(Scan(s, feed, now), raws)
  {
    if feed != [] {
      ScanTraced(s, feed[..|feed| - 1], now, raws);
      ScanOneTraced(Scan(s, feed[..|feed| - 1], now), feed[|feed| - 1], now, raws);
    }
  }

  lemma DropOneTraced(s: Poll, id: int, now: int, raws: set<Raw>)
    requires Traced(s, raws) && id in s.active
    ensures Traced(DropOne(s, id, now), raws)
  {
    assert Shows(s.active[id].raw, Settled(s.active[id].last, now).frame);
  }

  lemma {:induction false} DropTraced(s: Poll, ids: seq<int>, now: int, raws: set<Raw>)
    requires Traced(s, raws)
    requires forall i :: 0 <= i < |ids| ==> ids[i] in s.active
    requires forall i, j :: 0 <= i < j < |ids| ==> ids[i] != ids[j]
    ensures Traced(Drop(s, ids, now), raws)
  {
    if ids != [] {
      assert ids == ids[..|ids| - 1] + [ids[|ids| - 1]];
      DropTraced(s, ids[..|ids| - 1], now, raws);
      DropOneTraced(Drop(s, ids[..|ids| - 1], now), ids[|ids| - 1], now, raws);
    }
  }

  /** The fixtures of all snapshots of a run. */
  function Shown(ticks: seq<Tick>): set<Raw> {
    if ticks == [] then {}
    else (if ticks[0].feed.Some? then set raw | raw in ticks[0].feed.value else {}) + Shown(ticks[1..])
  }

  lemma {:induction false} RunTraced(s: Poll, ticks: seq<Tick>, raws: set<Raw>)
    requires Run(s, ticks) && Traced(s, raws) && Shown(ticks) <= raws
    ensures Traced(After(s, ticks), raws)
    decreases ticks
  {
    if ticks != [] {
      var t := ticks[0];
      if t.feed.Some? {
        ScanTraced(s, t.feed.value, t.now, raws);
        DropTraced(Scan(s, t.feed.value, t.now), t.order, t.now, raws);
      }
      RunTraced(Step(s, t), ticks[1..], raws);
    }
  }

  lemma {:induction false} ShownMeans(ticks: seq<Tick>, raw: Raw)
    ensures raw in Shown(ticks) <==> exists t :: 0 <= t < |ticks| && ticks[t].feed.Some? && raw in ticks[t].feed.value
  {
    if ticks != [] {
      ShownMeans(ticks[1..], raw);
      assert forall t :: 1 <= t < |ticks| ==> ticks[t] == ticks[1..][t - 1];
      if exists t :: 0 <= t < |ticks[1..]| && ticks[1..][t].feed.Some? && raw in ticks[1..][t].feed.value {
        var t :| 0 <= t < |ticks[1..]| && ticks[1..][t].feed.Some? && raw in ticks[1..][t].feed.value;
        assert ticks[t + 1].feed.Some?;
      }
    }
  }

  /** Every frame that a run publishes carries the id, score, kickoff and quote of a fixture some snapshot showed. */
  lemma PublishedWasShown(ticks: seq<Tick>, i: nat) returns (raw: Raw)
    requires Run(START, ticks) && i < |After(START, ticks).log|
    ensures Shows(raw, After(START, ticks).log[i].frame)
    ensures exists t :: 0 <= t < |ticks| && ticks[t].feed.Some? && raw in ticks[t].feed.value
  {
    RunTraced(START, ticks, Shown(ticks));
    raw :| raw in Shown(ticks) && Shows(raw, After(START, ticks).log[i].frame);
    ShownMeans(ticks, raw);
  }

  // ----- what is tracked after a snapshot -----

  lemma {:induction false} ScanTracks(s: Poll, feed: seq<Raw>, now: int)
    ensures var t := Scan(s, feed, now);
      && s.settled <= t.settled && s.active.Keys <= t.active.Keys + t.settled
      && (forall i :: 0 <= i < |feed| && Quoted(feed[i]) ==> feed[i].id in t.active.Keys + t.settled)
      && (forall id :: id in t.active ==>
            id in s.active || exists i :: 0 <= i < |feed| && feed[i].id == id && Quoted(feed[i]))
  {
    if feed != [] {
      var n := |feed| - 1;
      ScanTracks(s, feed[..n], now);
      assert forall i :: 0 <= i < n ==> feed[..n][i] == feed[i];
      ScanOneTracks(Scan(s, feed[..n], now), feed[n], now);
    }
  }

  lemma ScanOneTracks(s: Poll, raw: Raw, now: int)
    ensures var t := ScanOne(s, raw, now);
      && s.settled <= t.settled && s.active.Keys <= t.active.Keys + t.settled
      && (Quoted(raw) ==> raw.id in t.active.Keys + t.settled)
      && (forall id :: id in t.active ==> id in s.active || (id == raw.id && Quoted(raw)))
  {}

  lemma {:induction false} DropSettles(s: Poll, ids: seq<int>, now: int)
    requires forall i :: 0 <= i < |ids| ==> ids[i] in s.active
    requires forall i, j :: 0 <= i < j < |ids| ==> ids[i] != ids[j]
    ensures var t := Drop(s, ids, now);
      t.active.Keys == (set id | id in s.active && id !in ids) && t.settled == s.settled + set id | id in ids
  {
    if ids != [] {
      var n := |ids| - 1;
      assert ids == ids[..n] + [ids[n]];
      DropSettles(s, ids[..n], now);
    }
  }

  /** Some named fixture of the snapshot has the id. */
  ghost predicate InFeed(feed: seq<Raw>, id: int) {
    exists i :: 0 <= i < |feed| && feed[i].id == id && id != 0 && feed[i].homeName != "" && feed[i].awayName != ""
  }

  /**
   After a snapshot every tracked match is in it; every quoted football fixture of
   it is tracked or settled; and a match tracked before that it does not name is
   settled.
   */
  lemma TickTracks(s: Poll, t: Tick)
    requires Enabled(s, t) && t.feed.Some?
    ensures var u, feed := Step(s, t), t.feed.value;
      && (forall id :: id in u.active ==> InFeed(feed, id))
      && (forall i :: 0 <= i < |feed| && Quoted(feed[i]) ==> feed[i].id in u.active.Keys + u.settled)
      && (forall id :: id in s.active && !InFeed(feed, id) ==> id in u.settled)
  {
    var feed := t.feed.value;
    ScanTracks(s, feed, t.now);
    DropSettles(Scan(s, feed, t.now), t.order, t.now);
    assert forall id :: id in Seen(feed) <==> InFeed(feed, id);
  }
}
