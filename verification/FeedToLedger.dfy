/**
 From a feed to the paper ledger: the pollers' frames are published to the channel
 and the match hash (data-ingestion-go/internal/cache/redis.go), and the paper
 broker grades orders on every frame whose clock says FULLTIME. The question
 answered here is when all orders of a match are graded on one score.
 */
module FeedToLedger {
  import opened Options
  import opened Text
  import Settle
  import Helabet
  import Betpawa
  import PaperLedger

  // ----- what the broker makes of any published frames -----

  /** The published frames that the listed attempts name, in order. */
  ghost predicate Picks(at: seq<nat>, published: seq<PaperLedger.Message>, frames: seq<PaperLedger.Match>) {
    && |at| == |published|
    && (forall i :: 0 <= i < |at| ==> at[i] < |frames| && published[i] == PaperLedger.MessageOf(frames[at[i]]))
    && (forall i, j :: 0 <= i < j < |at| ==> at[i] < at[j])
  }

  /** What was published is a poller's frames in order, with failed attempts left out. */
  ghost predicate Fed(published: seq<PaperLedger.Message>, frames: seq<PaperLedger.Match>) {
    exists at :: Picks(at, published, frames)
  }

  predicate IsGraded(e: PaperLedger.Entry) {
    e.settled.result != Settle.Unresolved
  }

  /** All graded orders of a match rest on one score. */
  ghost predicate OneScore(ledger: seq<PaperLedger.Entry>) {
    forall i, j ::
      (0 <= i < |ledger| && 0 <= j < |ledger| && IsGraded(ledger[i]) && IsGraded(ledger[j])
       && ledger[i].matchId == ledger[j].matchId)
      ==> ledger[i].score == ledger[j].score
  }

  predicate SaysFullTime(m: PaperLedger.Match) {
    m.clock == "FULLTIME"
  }

  /** The full-time frames of each match carry the same score. */
  ghost predicate SameFinals(frames: seq<PaperLedger.Match>) {
    forall a, b ::
      (0 <= a < b < |frames| && SaysFullTime(frames[a]) && SaysFullTime(frames[b])
       && frames[a].matchId == frames[b].matchId)
      ==> frames[a].score == frames[b].score
  }

  /** Each graded entry carries match and score of a published full-time frame. */
  lemma EntryFrame(s: PaperLedger.State, frames: seq<PaperLedger.Match>, i: nat) returns (k: nat)
    requires PaperLedger.Honest(s) && Fed(s.published, frames) && i < |s.ledger| && IsGraded(s.ledger[i])
    ensures k < |frames| && SaysFullTime(frames[k])
    ensures s.ledger[i].matchId == frames[k].matchId && s.ledger[i].score == frames[k].score
  {
    var e := s.ledger[i];
    assert PaperLedger.Backed(s, e);
    var m := PaperLedger.Message("FULLTIME", e.matchId, Some(e.score));
    var n :| 0 <= n < |s.published| && s.published[n] == m;
    var at :| Picks(at, s.published, frames);
    k := at[n];
  }

  lemma SameFinalsGradeOnce(s: PaperLedger.State, frames: seq<PaperLedger.Match>)
    requires PaperLedger.Honest(s) && Fed(s.published, frames) && SameFinals(frames)
    ensures OneScore(s.ledger)
  {
    forall i, j | 0 <= i < |s.ledger| && 0 <= j < |s.ledger| && IsGraded(s.ledger[i]) && IsGraded(s.ledger[j])
                  && s.ledger[i].matchId == s.ledger[j].matchId
      ensures s.ledger[i].score == s.ledger[j].score
    {
      var a := EntryFrame(s, frames, i);
      var b := EntryFrame(s, frames, j);
    }
  }

  // ----- a run that grades on two frames -----

  function Bet(m: PaperLedger.Match): PaperLedger.Payload {
    PaperLedger.Payload(m.matchId, "FULLTIME_1X2", "away", 2.0, 100.0)
  }

  /** A frame arrives, a bet is placed on its match, and the frame is delivered. */
  function BetAndSettle(m: PaperLedger.Match, id: string): seq<PaperLedger.Event> {
    [PaperLedger.Publish(m)] + [PaperLedger.Place(id, Bet(m))] + [PaperLedger.Deliver([id])]
  }

  lemma BetRun(s: PaperLedger.State, m: PaperLedger.Match, id: string) returns (t: PaperLedger.State)
    requires s.orders == map[] && s.queue == [] && m.clock == "FULLTIME"
    ensures PaperLedger.Run(s, BetAndSettle(m, id)) && t == PaperLedger.After(s, BetAndSettle(m, id))
    ensures t.orders == map[] && t.queue == [] && t.published == s.published + [PaperLedger.MessageOf(m)]
    ensures |t.ledger| == |s.ledger| + 1 && s.ledger <= t.ledger
    ensures var e := t.ledger[|s.ledger|];
            && e.matchId == m.matchId && e.score == m.score
            && e.settled.result == if m.score.away > m.score.home then Settle.Won else Settle.Lost
  {
    var first, second, third := PaperLedger.Publish(m), PaperLedger.Place(id, Bet(m)), PaperLedger.Deliver([id]);
    var a := PaperLedger.Step(s, first);
    PaperLedger.RunOne(s, first);
    var b := PaperLedger.Step(a, second);
    PaperLedger.RunOne(a, second);
    PaperLedger.RunAppend(s, [first], [second]);
    assert b.orders == map[id := PaperLedger.FillFor(id, Bet(m))] && b.queue == [PaperLedger.MessageOf(m)];
    assert PaperLedger.MatchedIds(b.orders, b.queue[0]) == {id};
    t := PaperLedger.Step(b, third);
    PaperLedger.RunOne(b, third);
    PaperLedger.RunAppend(s, [first] + [second], [third]);
  }

  /** Two full-time frames of one match, in the order of publication, grade one bet each. */
  lemma TwoGrades(frames: seq<PaperLedger.Match>, a: nat, b: nat, base: Settle.Tally)
    returns (events: seq<PaperLedger.Event>, s: PaperLedger.State)
    requires a < b < |frames| && SaysFullTime(frames[a]) && SaysFullTime(frames[b])
    ensures PaperLedger.Run(PaperLedger.Initial(base), events)
    ensures s == PaperLedger.After(PaperLedger.Initial(base), events) && Fed(s.published, frames)
    ensures |s.ledger| == 2 && s.ledger[0].matchId == frames[a].matchId && s.ledger[1].matchId == frames[b].matchId
    ensures s.ledger[0].score == frames[a].score && s.ledger[1].score == frames[b].score
    ensures s.ledger[0].settled.result
      == if frames[a].score.away > frames[a].score.home then Settle.Won else Settle.Lost
    ensures s.ledger[1].settled.result
      == if frames[b].score.away > frames[b].score.home then Settle.Won else Settle.Lost
  {
    var start := PaperLedger.Initial(base);
    var t := BetRun(start, frames[a], "1");
    s := BetRun(t, frames[b], "2");
    events := BetAndSettle(frames[a], "1") + BetAndSettle(frames[b], "2");
    PaperLedger.RunAppend(start, BetAndSettle(frames[a], "1"), BetAndSettle(frames[b], "2"));
    assert t.ledger[0] == s.ledger[0];
    assert Picks([a, b], s.published, frames);
  }

  /** Every broker run fed with the frames grades each match on one score. */
  ghost predicate GradesOnce(frames: seq<PaperLedger.Match>, base: Settle.Tally) {
    forall events ::
      (PaperLedger.Run(PaperLedger.Initial(base), events)
       && Fed(PaperLedger.After(PaperLedger.Initial(base), events).published, frames))
      ==> OneScore(PaperLedger.After(PaperLedger.Initial(base), events).ledger)
  }

  /**
   Whatever orders are placed, whichever messages are lost and whenever the sweep
   runs, a match is graded on one score if and only if its full-time frames agree.
   The frames may come from any poller, or from several runs of one.
   */
  lemma GradedOnOneScore(frames: seq<PaperLedger.Match>, base: Settle.Tally)
    ensures GradesOnce(frames, base) <==> SameFinals(frames)
  {
    var start := PaperLedger.Initial(base);
    if SameFinals(frames) {
      forall events | PaperLedger.Run(start, events) && Fed(PaperLedger.After(start, events).published, frames)
        ensures OneScore(PaperLedger.After(start, events).ledger)
      {
        PaperLedger.PaperTradingSafe(events, base);
        SameFinalsGradeOnce(PaperLedger.After(start, events), frames);
      }
    } else {
      var a, b :| 0 <= a < b < |frames| && SaysFullTime(frames[a]) && SaysFullTime(frames[b])
                  && frames[a].matchId == frames[b].matchId && frames[a].score != frames[b].score;
      var events, s := TwoGrades(frames, a, b, base);
      assert !OneScore(s.ledger);
    }
  }

  // ----- Helabet -----

  function MatchKey(id: int): string {
    "hb-" + Itoa(id)
  }

  /** A frame as publication writes it; receive times are stored in milliseconds. */
  function MatchOf(f: Helabet.Frame): PaperLedger.Match {
    PaperLedger.Match(MatchKey(f.id), f.clock, PaperLedger.Score(f.home, f.away), f.kickoff, f.receivedAt * 1000)
  }

  function FramesOf(log: seq<Helabet.Publish>): (r: seq<PaperLedger.Match>)
    ensures |r| == |log|
  {
    seq(|log|, i requires 0 <= i < |log| => MatchOf(log[i].frame))
  }

  /** Different vendor ids have different match ids. */
  lemma KeysDiffer(a: int, b: int)
    requires MatchKey(a) == MatchKey(b)
    ensures a == b
  {
    assert MatchKey(a)[3..] == Itoa(a) && MatchKey(b)[3..] == Itoa(b);
    var m, n := if a < 0 then -a else a, if b < 0 then -b else b;
    DigitsParse(m);
    DigitsParse(n);
    assert '0' <= Digits(m)[0] <= '9' && '0' <= Digits(n)[0] <= '9';
    if a < 0 {
      assert Itoa(a)[1..] == Digits(m);
    }
    if b < 0 {
      assert Itoa(b)[1..] == Digits(n);
    }
  }

  /** A live frame whose status was misread as full time. */
  predicate IsEarly(p: Helabet.Publish) {
    p.kind == Helabet.Live && p.frame.clock == "FULLTIME"
  }

  /** Each misread frame already shows the score of every later full-time frame of its match. */
  ghost predicate EarlyIsFinal(log: seq<Helabet.Publish>) {
    forall a, b ::
      (0 <= a < b < |log| && IsEarly(log[a]) && log[b].frame.clock == "FULLTIME"
       && log[a].frame.id == log[b].frame.id)
      ==> log[a].frame.home == log[b].frame.home && log[a].frame.away == log[b].frame.away
  }

  lemma EarlyFinals(p: Helabet.Poll)
    requires Helabet.SettlementsOk(p)
    ensures SameFinals(FramesOf(p.log)) <==> EarlyIsFinal(p.log)
  {
    var frames := FramesOf(p.log);
    if EarlyIsFinal(p.log) {
      forall a, b | 0 <= a < b < |frames| && SaysFullTime(frames[a]) && SaysFullTime(frames[b])
                    && frames[a].matchId == frames[b].matchId
        ensures frames[a].score == frames[b].score
      {
        KeysDiffer(p.log[a].frame.id, p.log[b].frame.id);
        assert IsEarly(p.log[a]);
      }
    }
    if SameFinals(frames) {
      forall a, b | 0 <= a < b < |p.log| && IsEarly(p.log[a]) && p.log[b].frame.clock == "FULLTIME"
                    && p.log[a].frame.id == p.log[b].frame.id
        ensures p.log[a].frame.home == p.log[b].frame.home && p.log[a].frame.away == p.log[b].frame.away
      {
        assert SaysFullTime(frames[a]) && SaysFullTime(frames[b]);
        assert frames[a].score == frames[b].score;
      }
    }
  }

  /**
   Fed by one run of the Helabet poller, every match is graded on one score if and
   only if each misread frame already shows the score of the full-time frames after
   it: settlements themselves are unique and last.
   */
  lemma FeedGradesOnce(ticks: seq<Helabet.Tick>, base: Settle.Tally)
    requires Helabet.Run(Helabet.START, ticks)
    ensures var log := Helabet.After(Helabet.START, ticks).log;
            GradesOnce(FramesOf(log), base) <==> EarlyIsFinal(log)
  {
    Helabet.RunOk(Helabet.START, ticks);
    EarlyFinals(Helabet.After(Helabet.START, ticks));
    GradedOnOneScore(FramesOf(Helabet.After(Helabet.START, ticks).log), base);
  }

  /** In particular while no published fixture is misread. */
  lemma CleanFeedGradesOnce(ticks: seq<Helabet.Tick>, base: Settle.Tally)
    requires Helabet.Run(Helabet.START, ticks) && Helabet.CleanFeed(Helabet.START, ticks)
    ensures GradesOnce(FramesOf(Helabet.After(Helabet.START, ticks).log), base)
  {
    Helabet.FullTimeOnlyOnSettlement(Helabet.START, ticks);
    FeedGradesOnce(ticks, base);
  }

  /**
   A live fixture is published as a frame that the broker grades on, while the
   poller keeps tracking the match, exactly when its status is misread.
   */
  lemma GradedWhileTracked(s: Helabet.Poll, raw: Helabet.Raw, now: int)
    requires Helabet.PollOk(s) && Helabet.Publishes(s, raw, now)
    ensures var t := Helabet.ScanOne(s, raw, now);
            && |t.log| == |s.log| + 1
            && (PaperLedger.Grades(PaperLedger.MessageOf(MatchOf(t.log[|s.log|].frame))) && raw.id in t.active
                <==> Helabet.Misread(raw))
  {
    Helabet.ClockDisagreement(raw);
  }

  /** A match shown at 0-1 with "5 left" and later at 2-1 as finished. */
  const SAMPLE_TICKS := [
    Helabet.Tick(Some([Helabet.SampleRaw(0, 1, "5 left")]), 6000, []),
    Helabet.Tick(Some([Helabet.SampleRaw(2, 1, "FT")]), 6300, [])]

  lemma ScanSingle(s: Helabet.Poll, raw: Helabet.Raw, now: int)
    ensures Helabet.Scan(s, [raw], now) == Helabet.ScanOne(s, raw, now)
  {
    var raws := [raw];
    assert raws[..|raws| - 1] == [];
    assert Helabet.Scan(s, raws[..|raws| - 1], now) == s;
  }

  /** A tick that shows the one tracked match is a scan of it. */
  lemma SingleTick(s: Helabet.Poll, raw: Helabet.Raw, now: int)
    requires s.active.Keys <= {raw.id} && Helabet.Publishes(s, raw, now)
    ensures Helabet.Enabled(s, Helabet.Tick(Some([raw]), now, []))
    ensures Helabet.Step(s, Helabet.Tick(Some([raw]), now, [])) == Helabet.ScanOne(s, raw, now)
  {
    ScanSingle(s, raw, now);
    assert [raw][0] == raw && raw.id in Helabet.Seen([raw]);
    assert Helabet.Scan(s, [raw], now).active.Keys - Helabet.Seen([raw]) == {};
  }

  lemma TwoSteps(s: Helabet.Poll, t: Helabet.Tick, u: Helabet.Tick)
    requires Helabet.Enabled(s, t) && Helabet.Enabled(Helabet.Step(s, t), u)
    ensures Helabet.Run(s, [t, u]) && Helabet.After(s, [t, u]) == Helabet.Step(Helabet.Step(s, t), u)
  {
    var ticks, end := [t, u], Helabet.Step(Helabet.Step(s, t), u);
    assert ticks[1..] == [u] && [u][1..] == [];
    assert Helabet.Run(end, [u][1..]) && Helabet.After(end, [u][1..]) == end;
    assert Helabet.Run(Helabet.Step(s, t), [u]) && Helabet.After(Helabet.Step(s, t), [u]) == end;
  }

  /** A misread fixture that finishes later: the poller publishes two full-time frames of it. */
  lemma MisreadThenFinal(early: Helabet.Raw, late: Helabet.Raw, now: int, later: int)
    requires Helabet.Misread(early) && Helabet.Publishes(Helabet.START, early, now)
    requires Helabet.IsFullTime(late) && early.id == late.id
    requires Helabet.Named(late) && Helabet.ToMatch(late, later).Some?
    ensures var ticks := [Helabet.Tick(Some([early]), now, []), Helabet.Tick(Some([late]), later, [])];
            && Helabet.Run(Helabet.START, ticks)
            && Helabet.After(Helabet.START, ticks).log
               == [Helabet.Publish(Helabet.Live, Helabet.ToMatch(early, now).value),
                   Helabet.Settled(Helabet.ToMatch(late, later).value, later)]
    ensures Helabet.ToMatch(early, now).value.clock == "FULLTIME"
  {
    Helabet.ClockDisagreement(early);
    var mid := Helabet.ScanOne(Helabet.START, early, now);
    SingleTick(Helabet.START, early, now);
    SingleTick(mid, late, later);
    TwoSteps(Helabet.START, Helabet.Tick(Some([early]), now, []), Helabet.Tick(Some([late]), later, []));
  }

  lemma SampleLog()
    ensures Helabet.Run(Helabet.START, SAMPLE_TICKS)
    ensures var frames := FramesOf(Helabet.After(Helabet.START, SAMPLE_TICKS).log);
            && |frames| == 2 && SaysFullTime(frames[0]) && SaysFullTime(frames[1])
            && frames[0].matchId == frames[1].matchId == MatchKey(7)
            && frames[0].score == PaperLedger.Score(0, 1) && frames[1].score == PaperLedger.Score(2, 1)
  {
    Helabet.MisreadExample(0, 1, 6000);
    Helabet.SampleQuoted(0, 1, "5 left", 6000);
    Helabet.SampleQuoted(2, 1, "FT", 6300);
    assert Trim("FT") == "FT" && Upper("FT") == "FT";
    MisreadThenFinal(Helabet.SampleRaw(0, 1, "5 left"), Helabet.SampleRaw(2, 1, "FT"), 6000, 6300);
  }

  /**
   How it breaks, on a concrete feed: the broker grades a bet on away won on the
   misread frame, and the same bet on the same match lost on the final one.
   */
  lemma TwoFinalScores(base: Settle.Tally) returns (events: seq<PaperLedger.Event>, s: PaperLedger.State)
    ensures Helabet.Run(Helabet.START, SAMPLE_TICKS) && PaperLedger.Run(PaperLedger.Initial(base), events)
    ensures s == PaperLedger.After(PaperLedger.Initial(base), events)
    ensures Fed(s.published, FramesOf(Helabet.After(Helabet.START, SAMPLE_TICKS).log))
    ensures |s.ledger| == 2 && s.ledger[0].matchId == s.ledger[1].matchId == MatchKey(7)
    ensures s.ledger[0].score == PaperLedger.Score(0, 1) && s.ledger[1].score == PaperLedger.Score(2, 1)
    ensures s.ledger[0].settled.result == Settle.Won && s.ledger[1].settled.result == Settle.Lost
    ensures !GradesOnce(FramesOf(Helabet.After(Helabet.START, SAMPLE_TICKS).log), base)
  {
    SampleLog();
    events, s := TwoGrades(FramesOf(Helabet.After(Helabet.START, SAMPLE_TICKS).log), 0, 1, base);
    assert !OneScore(s.ledger);
  }

  // ----- betPawa -----

  /** A betPawa frame as publication writes it. Its receive time is not part of this poller's model. */
  function BetMatch(f: Betpawa.Frame): PaperLedger.Match {
    PaperLedger.Match(f.id, f.clock, PaperLedger.Score(f.home, f.away), f.kickoff.GetOr(0), 0)
  }

  function BetFrames(log: seq<Betpawa.Publish>): (r: seq<PaperLedger.Match>)
    ensures |r| == |log|
  {
    seq(|log|, i requires 0 <= i < |log| => BetMatch(log[i].frame))
  }

  /** A match is shown, leaves the feed as good as over, and comes back finished. */
  function BackAgain(early: Betpawa.Event, late: Betpawa.Event, now: int): seq<Betpawa.Tick> {
    [Betpawa.Tick([early], now, []), Betpawa.Tick([], now, [early.id]), Betpawa.Tick([late], now, [])]
  }

  lemma BetTick(s: Betpawa.Poll, e: Betpawa.Event, now: int)
    requires e.quoted && s.active.Keys <= {e.id}
    ensures Betpawa.Enabled(s, Betpawa.Tick([e], now, []))
    ensures Betpawa.Step(s, Betpawa.Tick([e], now, [])) == Betpawa.VisitOne(s, e)
  {
    var events := [e];
    assert events[..|events| - 1] == [];
    assert Betpawa.Visits(s, events[..|events| - 1]) == s;
    assert Betpawa.Visits(s, events) == Betpawa.VisitOne(s, e);
    assert events[0] == e && e.id in Betpawa.Seen(events);
    assert Betpawa.VisitOne(s, e).active.Keys - Betpawa.Seen(events) == {};
  }

  lemma DropTick(s: Betpawa.Poll, id: string, now: int)
    requires s.active.Keys == {id}
    ensures Betpawa.Enabled(s, Betpawa.Tick([], now, [id]))
    ensures Betpawa.Step(s, Betpawa.Tick([], now, [id])) == Betpawa.DropOne(s, id, now)
  {
    assert Betpawa.Seen([]) == {} && s.active.Keys - Betpawa.Seen([]) == {id};
    var ids := [id];
    assert ids[..|ids| - 1] == [];
    assert Betpawa.Drops(s, ids[..|ids| - 1], now) == s;
    assert Betpawa.Drops(s, ids, now) == Betpawa.DropOne(s, id, now);
  }

  lemma ThreeSteps(s: Betpawa.Poll, t: Betpawa.Tick, u: Betpawa.Tick, v: Betpawa.Tick)
    requires Betpawa.Enabled(s, t) && Betpawa.Enabled(Betpawa.Step(s, t), u)
    requires Betpawa.Enabled(Betpawa.Step(Betpawa.Step(s, t), u), v)
    ensures Betpawa.Run(s, [t, u, v])
    ensures Betpawa.After(s, [t, u, v]) == Betpawa.Step(Betpawa.Step(Betpawa.Step(s, t), u), v)
  {
    var a, b, c := Betpawa.Step(s, t), Betpawa.Step(Betpawa.Step(s, t), u),
                   Betpawa.Step(Betpawa.Step(Betpawa.Step(s, t), u), v);
    assert [t, u, v][1..] == [u, v] && [u, v][1..] == [v] && [v][1..] == [];
    assert Betpawa.Run(c, [v][1..]) && Betpawa.After(c, [v][1..]) == c;
    assert Betpawa.Run(b, [v]) && Betpawa.After(b, [v]) == c;
    assert Betpawa.Run(a, [u, v]) && Betpawa.After(a, [u, v]) == c;
  }

  /** What a poller with nothing tracked makes of an event. */
  lemma FirstVisit(log: seq<Betpawa.Publish>, n: nat, e: Betpawa.Event)
    requires e.quoted
    ensures var m, over := Betpawa.ToMatch(e).value, Betpawa.IsFullTimePeriod(e.display);
            Betpawa.VisitOne(Betpawa.Poll(map[], log, n), e)
              == Betpawa.Poll(map[e.id := Betpawa.Tracked(m, over, n)],
                   log + [Betpawa.Publish(Betpawa.Feed, m, n)]
                     + (if over then [Betpawa.Publish(Betpawa.Synthesized, m.(clock := "FULLTIME"), n)] else []),
                   n + 1)
  {}

  lemma LastDrop(log: seq<Betpawa.Publish>, n: nat, m: Betpawa.Frame, now: int)
    requires Betpawa.Over(m, now)
    ensures Betpawa.DropOne(Betpawa.Poll(map[m.id := Betpawa.Tracked(m, false, n)], log, n + 1), m.id, now)
      == Betpawa.Poll(map[], log + [Betpawa.Publish(Betpawa.Synthesized, m.(clock := "FULLTIME"), n)], n + 1)
  {
    assert map[m.id := Betpawa.Tracked(m, false, n)] - {m.id} == map[];
  }

  /** Shown and synthesized at the drop. */
  lemma ShownAndDropped(early: Betpawa.Event, now: int)
    requires early.quoted && !Betpawa.IsFullTimePeriod(early.display) && Betpawa.Over(Betpawa.ToMatch(early).value, now)
    ensures var a, m := Betpawa.VisitOne(Betpawa.START, early), Betpawa.ToMatch(early).value;
            && a.active.Keys == {early.id}
            && Betpawa.DropOne(a, early.id, now)
               == Betpawa.Poll(map[], [Betpawa.Publish(Betpawa.Feed, m, 0)]
                                      + [Betpawa.Publish(Betpawa.Synthesized, m.(clock := "FULLTIME"), 0)], 1)
  {
    var m := Betpawa.ToMatch(early).value;
    FirstVisit([], 0, early);
    assert [] + [Betpawa.Publish(Betpawa.Feed, m, 0)] + [] == [Betpawa.Publish(Betpawa.Feed, m, 0)];
    LastDrop([Betpawa.Publish(Betpawa.Feed, m, 0)], 0, m, now);
  }

  /** Shown, synthesized at the drop, shown as finished, synthesized again. */
  lemma BackAgainLog(early: Betpawa.Event, late: Betpawa.Event, now: int)
    requires early.quoted && late.quoted && early.id == late.id
    requires !Betpawa.IsFullTimePeriod(early.display) && Betpawa.IsFullTimePeriod(late.display)
    requires Betpawa.Over(Betpawa.ToMatch(early).value, now)
    ensures var a := Betpawa.VisitOne(Betpawa.START, early);
            && a.active.Keys == {early.id}
            && var b := Betpawa.DropOne(a, early.id, now);
               && b.active.Keys == {}
               && var log := Betpawa.VisitOne(b, late).log;
                  && |log| == 4 && log[1].frame == Betpawa.ToMatch(early).value.(clock := "FULLTIME")
                  && log[2].frame == Betpawa.ToMatch(late).value
                  && log[3].frame == Betpawa.ToMatch(late).value.(clock := "FULLTIME")
  {
    ShownAndDropped(early, now);
    var b := Betpawa.DropOne(Betpawa.VisitOne(Betpawa.START, early), early.id, now);
    FirstVisit(b.log, 1, late);
  }

  /** The frames of such a feed. */
  lemma BackAgainFrames(early: Betpawa.Event, late: Betpawa.Event, now: int)
    requires early.quoted && late.quoted && early.id == late.id
    requires !Betpawa.IsFullTimePeriod(early.display) && Betpawa.IsFullTimePeriod(late.display)
    requires Betpawa.Over(Betpawa.ToMatch(early).value, now)
    ensures Betpawa.Run(Betpawa.START, BackAgain(early, late, now))
    ensures var frames := BetFrames(Betpawa.After(Betpawa.START, BackAgain(early, late, now)).log);
            && |frames| == 4 && SaysFullTime(frames[1]) && SaysFullTime(frames[2]) && SaysFullTime(frames[3])
            && frames[1].matchId == frames[2].matchId == frames[3].matchId == early.id
            && frames[1].score == PaperLedger.Score(early.home, early.away)
            && frames[2].score == frames[3].score == PaperLedger.Score(late.home, late.away)
  {
    Betpawa.ClocksAgree(late.display);
    BackAgainLog(early, late, now);
    var a := Betpawa.VisitOne(Betpawa.START, early);
    BetTick(Betpawa.START, early, now);
    DropTick(a, early.id, now);
    BetTick(Betpawa.DropOne(a, early.id, now), late, now);
    ThreeSteps(Betpawa.START, Betpawa.Tick([early], now, []), Betpawa.Tick([], now, [early.id]),
               Betpawa.Tick([late], now, []));
  }

  /**
   Concretely: a match of unknown minute leaves the betPawa feed a hundred minutes
   after kickoff at 0-1 and comes back as finished at 2-1. It is graded on both.
   */
  lemma BetpawaTwoFinalScores(base: Settle.Tally)
    ensures var early := Betpawa.Event("m", true, Betpawa.Display("", ""), 0, 1, Some(0));
            var late := Betpawa.Event("m", true, Betpawa.Display("", "FULL_TIME"), 2, 1, Some(0));
            && Betpawa.Run(Betpawa.START, BackAgain(early, late, 6000))
            && !GradesOnce(BetFrames(Betpawa.After(Betpawa.START, BackAgain(early, late, 6000)).log), base)
  {
    var early := Betpawa.Event("m", true, Betpawa.Display("", ""), 0, 1, Some(0));
    var late := Betpawa.Event("m", true, Betpawa.Display("", "FULL_TIME"), 2, 1, Some(0));
    SampleSlugs();
    BackAgainFrames(early, late, 6000);
    var frames := BetFrames(Betpawa.After(Betpawa.START, BackAgain(early, late, 6000)).log);
    assert !SameFinals(frames) by {
      assert SaysFullTime(frames[1]) && SaysFullTime(frames[2]) && frames[1].score != frames[2].score;
    }
    GradedOnOneScore(frames, base);
  }

  lemma SampleSlugs()
    ensures !Betpawa.IsFullTimePeriod(Betpawa.Display("", ""))
    ensures Betpawa.IsFullTimePeriod(Betpawa.Display("", "FULL_TIME"))
  {
    assert Upper("FULL_TIME") == "FULL_TIME" && Upper("") == "";
    assert !Contains("", "FULL_TIME") && !Contains("", "FINISHED") && !Contains("", "ENDED");
    assert Contains("FULL_TIME", "FULL_TIME");
    Helabet.NotContained("FULL_TIME", "HALF_TIME", 0);
  }
}
