/**
 Paper trading and the maintenance handlers at work on one store, in any order.
 The question answered here is when the PnL hash and the stream agree, however
 often the stream was trimmed, pruned and regraded before.
 */
module MixedLedger {
  import Settle
  import PaperLedger
  import opened AdminLedger
  import opened LedgerBridge

  type Tally = Settle.Tally

  /** `stream` is what the ledger stream holds, `paper.pnl` the PnL hash. */
  datatype Store = Store(paper: PaperLedger.State, stream: seq<Row>)

  datatype Event = Trade(e: PaperLedger.Event) | TrimOldest(n: nat) | Prune | Regrade

  predicate MayTrim(stream: seq<Row>, n: nat) {
    n == 0 || n + TRIM_CAP <= |stream|
  }

  /** Trimming is an event of its own, because the handlers change what is oldest. */
  ghost predicate Enabled(s: Store, e: Event) {
    match e
    case Trade(p) => !p.Trim? && PaperLedger.Enabled(s.paper, p)
    case TrimOldest(n) => MayTrim(s.stream, n)
    case Prune => true
    case Regrade => true
  }

  /** The entries a trading step wrote, as rows. */
  function NewRows(before: PaperLedger.State, after: PaperLedger.State): seq<Row> {
    var n := |before.ledger|;
    if n <= |after.ledger| then Rows(after.ledger)[n..] else []
  }

  /** The totals of the rows a handler reads back, as it writes them to the hash. */
  function Rebuilt(stream: seq<Row>): Tally {
    var t := SumsOf(First(stream));
    Settle.Tally(Cents(t.net), t.won, t.lost, t.void)
  }

  function Rewritten(s: Store, stream: seq<Row>): Store {
    Store(s.paper.(pnl := Rebuilt(stream)), stream)
  }

  ghost function Step(s: Store, e: Event): Store
    requires Enabled(s, e)
  {
    match e
    case Trade(p) =>
      var t := PaperLedger.Step(s.paper, p);
      Store(t, s.stream + NewRows(s.paper, t))
    case TrimOldest(n) => s.(stream := s.stream[n..])
    case Prune => Rewritten(s, PrunedStream(s.stream))
    case Regrade => Rewritten(s, RegradedStream(s.stream, |s.paper.ledger|))
  }

  ghost predicate Run(s: Store, events: seq<Event>)
    decreases events
  {
    events == [] || (Enabled(s, events[0]) && Run(Step(s, events[0]), events[1..]))
  }

  ghost function After(s: Store, events: seq<Event>): Store
    requires Run(s, events)
    decreases events
  {
    if events == [] then s else After(Step(s, events[0]), events[1..])
  }

  // ----- counting rows in whole cents -----

  function RowTally(b: Body): Tally {
    Settle.Tally(Cents(b.pnl), if b.result == "won" then 1 else 0, if b.result == "lost" then 1 else 0,
                 if b.result == "won" || b.result == "lost" then 0 else 1)
  }

  function TallyRows(rows: seq<Row>): Tally {
    if rows == [] then Settle.Tally(0, 0, 0, 0)
    else Settle.Plus(TallyRows(rows[..|rows| - 1]), RowTally(rows[|rows| - 1].body))
  }

  lemma {:induction false} TallyConcat(a: seq<Row>, b: seq<Row>)
    ensures TallyRows(a + b) == Settle.Plus(TallyRows(a), TallyRows(b))
  {
    if b == [] {
      assert a + b == a;
    } else {
      var n := |b| - 1;
      assert (a + b)[..|a + b| - 1] == a + b[..n];
      TallyConcat(a, b[..n]);
      PlusAssoc(TallyRows(a), TallyRows(b[..n]), RowTally(b[n].body));
    }
  }

  lemma PlusAssoc(x: Tally, y: Tally, z: Tally)
    ensures Settle.Plus(Settle.Plus(x, y), z) == Settle.Plus(x, Settle.Plus(y, z))
    ensures Settle.Plus(Settle.Plus(x, y), z) == Settle.Plus(Settle.Plus(x, z), y)
  {}

  lemma {:induction false} TallySize(rows: seq<Row>)
    ensures var t := TallyRows(rows);
            t.won >= 0 && t.lost >= 0 && t.void >= 0 && t.won + t.lost + t.void == |rows|
  {
    if rows != [] {
      TallySize(rows[..|rows| - 1]);
    }
  }

  lemma WholeRounds(x: real)
    requires WholeCents(x)
    ensures Cents(x) as real == x * 100.0
  {
    Settle.RoundWhole((x * 100.0).Floor);
  }

  lemma CentsAdd(x: real, y: real)
    requires WholeCents(x) && WholeCents(y)
    ensures WholeCents(x + y) && Cents(x + y) == Cents(x) + Cents(y)
  {
    WholeAdd(x, y);
    WholeRounds(x);
    WholeRounds(y);
    WholeRounds(x + y);
    assert Cents(x + y) as real == (Cents(x) + Cents(y)) as real;
  }

  /** On rows that paper trading wrote, the handlers' rounded totals are the sum of the whole cents. */
  lemma {:induction false} TallySums(rows: seq<Row>)
    requires Graded(rows)
    ensures var t := SumsOf(rows);
            && WholeCents(t.net) && TallyRows(rows) == Settle.Tally(Cents(t.net), t.won, t.lost, t.void)
  {
    if rows == [] {
      WholeRounds(0.0);
    } else {
      var n := |rows| - 1;
      GradedPart(rows, 0, n);
      TallySums(rows[..n]);
      CentsAdd(SumsOf(rows[..n]).net, rows[n].body.pnl);
    }
  }

  /** Deleting what p selects takes the tally of the selection away. */
  lemma {:induction false} TallyDrop(rows: seq<Row>, p: Body -> bool)
    ensures TallyRows(rows) == Settle.Plus(TallyRows(Drop(rows, p)), TallyRows(Select(rows, p)))
  {
    if rows != [] {
      var n := |rows| - 1;
      TallyDrop(rows[..n], p);
      var kept, gone, last := Drop(rows[..n], p), Select(rows[..n], p), RowTally(rows[n].body);
      TallySnoc(kept, rows[n]);
      TallySnoc(gone, rows[n]);
      PlusAssoc(TallyRows(kept), TallyRows(gone), last);
    }
  }

  lemma TallySnoc(rows: seq<Row>, r: Row)
    ensures TallyRows(rows + [r]) == Settle.Plus(TallyRows(rows), RowTally(r.body))
  {
    assert (rows + [r])[..|rows|] == rows;
  }

  // ----- the gap between hash and stream -----

  function Less(a: Tally, b: Tally): Tally {
    Settle.Tally(a.net - b.net, a.won - b.won, a.lost - b.lost, a.void - b.void)
  }

  /** What the hash counts and the stream does not hold. */
  function GapOf(s: Store): Tally {
    Less(s.paper.pnl, TallyRows(s.stream))
  }

  /** Hash and stream agree. */
  predicate Closed(g: Tally) {
    g.net == 0 && g.won == 0 && g.lost == 0 && g.void == 0
  }

  /** What holds in every state: rows and ledger are honest, and the session counts the ledger. */
  ghost predicate Ok(s: Store) {
    && Graded(s.stream)
    && PaperLedger.Honest(s.paper) && PaperLedger.KeysOk(s.paper)
    && s.paper.session == Settle.Totals(PaperLedger.SettledOf(s.paper.ledger))
  }

  lemma {:induction false} TallyLedger(ledger: seq<PaperLedger.Entry>)
    ensures TallyRows(Rows(ledger)) == Settle.Totals(PaperLedger.SettledOf(ledger))
  {
    if ledger != [] {
      var n := |ledger| - 1;
      TallyLedger(ledger[..n]);
      NamesDiffer();
      assert Rows(ledger)[..n] == Rows(ledger[..n]);
      assert PaperLedger.SettledOf(ledger)[..n] == PaperLedger.SettledOf(ledger[..n]);
      assert ledger[n].settled.pnl as real / 100.0 * 100.0 == ledger[n].settled.pnl as real;
      Settle.RoundWhole(ledger[n].settled.pnl);
    }
  }

  lemma RowsSplit(a: seq<PaperLedger.Entry>, b: seq<PaperLedger.Entry>)
    requires a <= b
    ensures Rows(b) == Rows(a) + Rows(b)[|a|..]
  {}

  /** A trading step adds to the hash exactly what it adds to the stream. */
  lemma TradeAdds(p: PaperLedger.State, e: PaperLedger.Event)
    requires PaperLedger.Enabled(p, e) && p.session == Settle.Totals(PaperLedger.SettledOf(p.ledger))
    ensures var t := PaperLedger.Step(p, e);
            && p.ledger <= t.ledger && t.session == Settle.Totals(PaperLedger.SettledOf(t.ledger))
            && t.pnl == Settle.Plus(p.pnl, TallyRows(NewRows(p, t)))
  {
    var t := PaperLedger.Step(p, e);
    PaperLedger.StepGrows(p, e);
    PaperLedger.StepTotals(p, e, Less(p.pnl, p.session));
    TallyLedger(p.ledger);
    TallyLedger(t.ledger);
    RowsSplit(p.ledger, t.ledger);
    TallyConcat(Rows(p.ledger), NewRows(p, t));
  }

  lemma GradedConcat(a: seq<Row>, b: seq<Row>)
    requires Graded(a) && Graded(b)
    ensures Graded(a + b)
  {}

  lemma TradeRows(p: PaperLedger.State, e: PaperLedger.Event)
    requires PaperLedger.Honest(p) && PaperLedger.KeysOk(p) && PaperLedger.Enabled(p, e)
    ensures |p.ledger| <= |PaperLedger.Step(p, e).ledger| && Graded(NewRows(p, PaperLedger.Step(p, e)))
  {
    var t := PaperLedger.Step(p, e);
    PaperLedger.StepGrows(p, e);
    PaperLedger.StepHonest(p, e);
    HonestRows(t);
    GradedPart(Rows(t.ledger), |p.ledger|, |t.ledger|);
    assert NewRows(p, t) == Rows(t.ledger)[|p.ledger|..|t.ledger|];
  }

  lemma TradeOk(s: Store, p: PaperLedger.Event)
    requires Ok(s) && Enabled(s, Trade(p))
    ensures Ok(Step(s, Trade(p))) && GapOf(Step(s, Trade(p))) == GapOf(s)
  {
    var t := PaperLedger.Step(s.paper, p);
    TradeAdds(s.paper, p);
    PaperLedger.StepHonest(s.paper, p);
    TradeRows(s.paper, p);
    GradedConcat(s.stream, NewRows(s.paper, t));
    TallyConcat(s.stream, NewRows(s.paper, t));
  }

  lemma TrimOk(s: Store, n: nat)
    requires Ok(s) && Enabled(s, TrimOldest(n))
    ensures Ok(Step(s, TrimOldest(n)))
    ensures GapOf(Step(s, TrimOldest(n))) == Settle.Plus(GapOf(s), TallyRows(s.stream[..n]))
  {
    var gone, kept := s.stream[..n], s.stream[n..];
    GradedPart(s.stream, n, |s.stream|);
    assert kept == s.stream[n..|s.stream|] && s.stream == gone + kept;
    TallyConcat(gone, kept);
    GapTrim(s.paper.pnl, TallyRows(s.stream), TallyRows(gone), TallyRows(kept));
  }

  lemma GapTrim(p: Tally, all: Tally, gone: Tally, kept: Tally)
    requires all == Settle.Plus(gone, kept)
    ensures Less(p, kept) == Settle.Plus(Less(p, all), gone)
  {}

  lemma ReadParts(rows: seq<Row>)
    requires Graded(rows)
    ensures Graded(First(rows)) && Graded(Beyond(rows))
    ensures TallyRows(rows) == Settle.Plus(TallyRows(First(rows)), TallyRows(Beyond(rows)))
  {
    var n := if |rows| <= READ_CAP then |rows| else READ_CAP;
    assert First(rows) == rows[0..n] && Beyond(rows) == rows[n..|rows|];
    GradedPart(rows, 0, n);
    GradedPart(rows, n, |rows|);
    assert rows == First(rows) + Beyond(rows);
    TallyConcat(First(rows), Beyond(rows));
  }

  /** After a rewrite the hash counts what the handler read, and misses what it could not. */
  lemma RewriteOk(s: Store, stream: seq<Row>)
    requires Ok(s) && Graded(stream)
    ensures Ok(Rewritten(s, stream))
    ensures GapOf(Rewritten(s, stream)) == Less(Settle.Tally(0, 0, 0, 0), TallyRows(Beyond(stream)))
  {
    ReadParts(stream);
    TallySums(First(stream));
  }

  /** Pruning deletes only voids, one for each entry it selects. */
  lemma {:induction false} TallyUnresolved(rows: seq<Row>)
    requires Graded(rows)
    ensures TallyRows(Select(rows, Unresolved)) == Settle.Tally(0, 0, 0, |Select(rows, Unresolved)|)
  {
    if rows != [] {
      var n := |rows| - 1;
      GradedPart(rows, 0, n);
      TallyUnresolved(rows[..n]);
      WholeRounds(0.0);
      var gone := Select(rows[..n], Unresolved);
      assert (gone + [rows[n]])[..|gone|] == gone;
      assert "unresolved"[0] != "won"[0] && "unresolved"[0] != "lost"[0];
    }
  }

  lemma PruneRows(rows: seq<Row>)
    requires Graded(rows)
    ensures Graded(PrunedStream(rows))
    ensures TallyRows(rows)
      == Settle.Plus(TallyRows(PrunedStream(rows)), Settle.Tally(0, 0, 0, |Select(First(rows), Unresolved)|))
  {
    ReadParts(rows);
    SelectGraded(First(rows), Not(Unresolved));
    GradedConcat(Pruned(First(rows)), Beyond(rows));
    TallyConcat(Pruned(First(rows)), Beyond(rows));
    TallyDrop(First(rows), Unresolved);
    TallyUnresolved(First(rows));
  }

  /** What the handler of a rewrite could not read. */
  function Unread(s: Store, e: Event): seq<Row> {
    match e
    case Prune => Beyond(PrunedStream(s.stream))
    case Regrade => Beyond(s.stream)
    case _ => []
  }

  /** The gap a step leaves. */
  function GapNext(s: Store, e: Event, g: Tally): Tally
    requires e.TrimOldest? ==> MayTrim(s.stream, e.n)
  {
    match e
    case Trade(_) => g
    case TrimOldest(n) => Settle.Plus(g, TallyRows(s.stream[..n]))
    case _ => Less(Settle.Tally(0, 0, 0, 0), TallyRows(Unread(s, e)))
  }

  lemma StepOk(s: Store, e: Event)
    requires Ok(s) && Enabled(s, e)
    ensures Ok(Step(s, e)) && GapOf(Step(s, e)) == GapNext(s, e, GapOf(s))
  {
    match e {
      case Trade(p) => TradeOk(s, p);
      case TrimOldest(n) => TrimOk(s, n);
      case Prune =>
        PruneRows(s.stream);
        RewriteOk(s, PrunedStream(s.stream));
      case Regrade =>
        NothingToRegrade(s.stream, |s.paper.ledger|);
        RewriteOk(s, s.stream);
    }
  }

  // ----- mixed runs -----

  ghost function GapAfter(s: Store, events: seq<Event>, g: Tally): Tally
    requires Run(s, events)
    decreases events
  {
    if events == [] then g else GapAfter(Step(s, events[0]), events[1..], GapNext(s, events[0], g))
  }

  /**
   Over every mixed run the gap between hash and stream is what was trimmed since
   the last rewrite, less what that rewrite could not read.
   */
  lemma {:induction false} RunGap(s: Store, events: seq<Event>)
    requires Ok(s) && Run(s, events)
    ensures Ok(After(s, events)) && GapOf(After(s, events)) == GapAfter(s, events, GapOf(s))
    decreases events
  {
    if events != [] {
      StepOk(s, events[0]);
      RunGap(Step(s, events[0]), events[1..]);
    }
  }

  /** No rewrite of the run left entries past the read limit. */
  ghost predicate AllRead(s: Store, events: seq<Event>)
    requires Run(s, events)
    decreases events
  {
    events == [] || (Unread(s, events[0]) == [] && AllRead(Step(s, events[0]), events[1..]))
  }

  function TrimmedNext(e: Event, n: nat): nat {
    match e
    case Trade(_) => n
    case TrimOldest(k) => n + k
    case _ => 0
  }

  /** How many entries were trimmed since the last rewrite, n of them before the run. */
  function TrimmedSince(events: seq<Event>, n: nat): nat
    decreases events
  {
    if events == [] then n else TrimmedSince(events[1..], TrimmedNext(events[0], n))
  }

  /** The gap is that of n entries, and none when n is zero. */
  predicate GapOfSize(g: Tally, n: nat) {
    g.won >= 0 && g.lost >= 0 && g.void >= 0 && g.won + g.lost + g.void == n && (n == 0 ==> g.net == 0)
  }

  lemma StepSize(s: Store, e: Event, g: Tally, n: nat)
    requires Enabled(s, e) && GapOfSize(g, n) && Unread(s, e) == []
    ensures GapOfSize(GapNext(s, e, g), TrimmedNext(e, n))
  {
    if e.TrimOldest? {
      TallySize(s.stream[..e.n]);
      assert e.n == 0 ==> s.stream[..e.n] == [];
    }
  }

  lemma SizeTells(t: Store, n: nat)
    requires GapOfSize(GapOf(t), n)
    ensures Closed(GapOf(t)) <==> n == 0
    ensures |t.stream| + n == t.paper.pnl.won + t.paper.pnl.lost + t.paper.pnl.void
  {
    TallySize(t.stream);
  }

  /**
   Start from a store whose hash counts n entries more than its stream holds, none
   if the two agree. Through any mix of trading, trimming, pruning and regrading
   whose rewrites could read everything, hash and stream agree on net, won, lost and
   voids if and only if nothing was trimmed since the last rewrite, and that is the
   case if and only if the stream holds as many entries as the hash counts.
   */
  lemma {:induction false} MixedAgreement(s: Store, events: seq<Event>, n: nat)
    requires Ok(s) && Run(s, events) && AllRead(s, events) && GapOfSize(GapOf(s), n)
    ensures var t := After(s, events);
            && (Closed(GapOf(t)) <==> TrimmedSince(events, n) == 0)
            && (Closed(GapOf(t)) <==> |t.stream| == t.paper.pnl.won + t.paper.pnl.lost + t.paper.pnl.void)
    decreases events
  {
    if events == [] {
      SizeTells(s, n);
    } else {
      StepOk(s, events[0]);
      StepSize(s, events[0], GapOf(s), n);
      MixedAgreement(Step(s, events[0]), events[1..], TrimmedNext(events[0], n));
    }
  }

  /** An empty store is one whose hash and stream agree. */
  lemma StartOk(s: Store)
    requires s.paper.ledger == [] && s.paper.queue == [] && s.paper.orders == map[] && s.paper.matches == map[]
    requires s.paper.session == Settle.Tally(0, 0, 0, 0) == s.paper.pnl && s.stream == []
    ensures Ok(s) && GapOfSize(GapOf(s), 0)
  {
    var settled := PaperLedger.SettledOf(s.paper.ledger);
    assert settled == [] && Settle.Totals(settled) == Settle.Tally(0, 0, 0, 0);
  }

  /** The hash without some voids. */
  function FewerVoids(t: Tally, gone: nat): Tally {
    Settle.Tally(t.net, t.won, t.lost, t.void - gone)
  }

  lemma GapRight(was: Tally, now: Tally, x: Tally, y: Tally, unread: Tally, gone: nat)
    requires x == Settle.Plus(y, Settle.Tally(0, 0, 0, gone)) && y == Settle.Plus(now, unread)
    ensures now == FewerVoids(was, gone) <==> Closed(Settle.Plus(Less(was, x), unread))
  {}

  lemma RebuiltParts(rows: seq<Row>)
    requires Graded(rows)
    ensures TallyRows(rows) == Settle.Plus(Rebuilt(rows), TallyRows(Beyond(rows)))
  {
    ReadParts(rows);
    TallySums(First(rows));
  }

  /**
   In any state of a mixed run, a prune keeps net, won and lost and takes exactly
   the deleted entries off the voids if and only if the gap and the entries past the
   read limit cancel out.
   */
  lemma PruneInRun(s: Store, t: seq<Row>, gone: nat)
    requires Graded(s.stream) && t == PrunedStream(s.stream) && gone == |Select(First(s.stream), Unresolved)|
    ensures Rebuilt(t) == FewerVoids(s.paper.pnl, gone) <==> Closed(Settle.Plus(GapOf(s), TallyRows(Beyond(t))))
  {
    PruneRows(s.stream);
    RebuiltParts(t);
    GapRight(s.paper.pnl, Rebuilt(t), TallyRows(s.stream), TallyRows(t), TallyRows(Beyond(t)), gone);
  }

  /** A regrade finds nothing to change, and keeps the hash under the same condition. */
  lemma RegradeInRun(s: Store, t: seq<Row>)
    requires Graded(s.stream) && t == RegradedStream(s.stream, |s.paper.ledger|)
    ensures t == s.stream
    ensures Rebuilt(t) == FewerVoids(s.paper.pnl, 0) <==> Closed(Settle.Plus(GapOf(s), TallyRows(Beyond(t))))
  {
    NothingToRegrade(s.stream, |s.paper.ledger|);
    RebuiltParts(t);
    GapRight(s.paper.pnl, Rebuilt(t), TallyRows(t), TallyRows(t), TallyRows(Beyond(t)), 0);
  }

  /** A prune that reads everything closes any gap, and run again at once it changes nothing. */
  lemma PruneSettles(s: Store)
    requires Ok(s) && |s.stream| <= READ_CAP
    ensures Closed(GapOf(Step(s, Prune))) && Step(Step(s, Prune), Prune) == Step(s, Prune)
  {
    var t := PrunedStream(s.stream);
    StepOk(s, Prune);
    Idempotent(s.stream, 0, 0);
    LengthSplit(s.stream, Unresolved);
    assert t == Pruned(s.stream) && PrunedStream(t) == t && Beyond(t) == [];
  }
}
