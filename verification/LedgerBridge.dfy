/**
 The ledger that paper trading writes, read by the maintenance handlers. The PnL
 hash counts every entry ever written, the handlers rebuild it from what they can
 still read, so a rewrite is right exactly when nothing is missing.
 */
module LedgerBridge {
  import opened Options
  import Text
  import Settle
  import PaperLedger
  import opened AdminLedger

  function ResultName(o: Settle.Outcome): string {
    match o
    case Won => "won"
    case Lost => "lost"
    case Void => "void"
    case Unresolved => "unresolved"
  }

  /** A ledger entry as the handlers read it back from the stream. */
  function BodyOf(e: PaperLedger.Entry): Body {
    Body(e.settled.order.side, e.settled.order.stake, ResultName(e.settled.result), e.settled.pnl as real / 100.0,
         e.settled.source, Some(e.score.home as real), Some(e.score.away as real), e.settled.order.orderId)
  }

  /** Every entry ever written, as rows. */
  function Rows(ledger: seq<PaperLedger.Entry>): (r: seq<Row>)
    ensures |r| == |ledger|
  {
    seq(|ledger|, i requires 0 <= i < |ledger| => Row(i, BodyOf(ledger[i])))
  }

  /** The rows that trimming has left in the stream. */
  function Stream(s: PaperLedger.State): seq<Row>
    requires s.trimmed <= |s.ledger|
  {
    Rows(s.ledger)[s.trimmed..]
  }

  /** The rows that the hash counts and a handler does not see: those trimmed, and those past its read limit. */
  function Missing(s: PaperLedger.State, rewritten: seq<Row>): seq<Row>
    requires s.trimmed <= |s.ledger|
  {
    Rows(s.ledger)[..s.trimmed] + Beyond(rewritten)
  }

  /** The totals the PnL hash started from and the totals of some rows cancel out. */
  predicate Cancel(base: Settle.Tally, m: Sums) {
    && base.net as real + m.net * 100.0 == 0.0
    && base.won + m.won == 0 && base.lost + m.lost == 0 && base.void + m.void == 0
  }

  lemma NamesDiffer()
    ensures ResultName(Settle.Won) != ResultName(Settle.Lost)
    ensures ResultName(Settle.Void) !in {"won", "lost", "unresolved"}
    ensures ResultName(Settle.Unresolved) !in {"won", "lost", "void"}
    ensures ResultName(Settle.Won) !in {"lost", "void", "unresolved"}
  {
    assert "won"[0] != "lost"[0] && "void"[0] != "unresolved"[0] && "void"[0] != "won"[0] && "void"[0] != "lost"[0];
    assert "unresolved"[0] != "won"[0] && "unresolved"[0] != "lost"[0] && "won"[0] != "void"[0];
  }

  /** Counting every entry ever written the way the handlers count is the broker's own fold. */
  lemma {:induction false} RecountAgrees(ledger: seq<PaperLedger.Entry>)
    ensures var t, s := Settle.Totals(PaperLedger.SettledOf(ledger)), SumsOf(Rows(ledger));
            s.net * 100.0 == t.net as real && s.won == t.won && s.lost == t.lost && s.void == t.void
  {
    if ledger != [] {
      var n := |ledger| - 1;
      RecountAgrees(ledger[..n]);
      NamesDiffer();
      assert Rows(ledger)[..n] == Rows(ledger[..n]);
      assert PaperLedger.SettledOf(ledger)[..n] == PaperLedger.SettledOf(ledger[..n]);
    }
  }

  /** Entries as grading writes them: void and unresolved are flat, and no void is a home or away bet. */
  lemma HonestEntry(s: PaperLedger.State, i: nat)
    requires PaperLedger.Honest(s) && i < |s.ledger|
    ensures var b := BodyOf(s.ledger[i]);
            !VoidDraw(b) && (b.result in {"void", "unresolved"} ==> b.pnl == 0.0)
  {
    var e := s.ledger[i];
    NamesDiffer();
    Settle.RoundWhole(0);
    assert PaperLedger.Backed(s, e) || PaperLedger.Returned(e);
  }

  /** Rows that paper trading wrote: voids are flat, none is a void draw, and profits are whole cents. */
  ghost predicate Graded(rows: seq<Row>) {
    && VoidsAreFlat(rows)
    && forall i :: 0 <= i < |rows| ==> !VoidDraw(rows[i].body) && WholeCents(rows[i].body.pnl)
  }

  lemma HonestRows(s: PaperLedger.State)
    requires PaperLedger.Honest(s)
    ensures Graded(Rows(s.ledger))
  {
    var rows := Rows(s.ledger);
    forall i | 0 <= i < |rows|
      ensures !VoidDraw(rows[i].body) && WholeCents(rows[i].body.pnl)
      ensures rows[i].body.result in {"void", "unresolved"} ==> rows[i].body.pnl == 0.0
    {
      HonestEntry(s, i);
      assert rows[i].body.pnl * 100.0 == s.ledger[i].settled.pnl as real;
    }
  }

  lemma GradedPart(rows: seq<Row>, a: nat, b: nat)
    requires Graded(rows) && a <= b <= |rows|
    ensures Graded(rows[a..b])
  {}

  lemma {:induction false} WholeNet(rows: seq<Row>)
    requires Graded(rows)
    ensures WholeCents(SumsOf(rows).net)
  {
    if rows != [] {
      var n := |rows| - 1;
      GradedPart(rows, 0, n);
      WholeNet(rows[..n]);
      WholeAdd(SumsOf(rows[..n]).net, rows[n].body.pnl);
    }
  }

  function Sum(a: Sums, b: Sums): Sums {
    Sums(a.net + b.net, a.won + b.won, a.lost + b.lost, a.void + b.void)
  }

  lemma SumsConcat(a: seq<Row>, b: seq<Row>)
    ensures SumsOf(a + b) == Sum(SumsOf(a), SumsOf(b))
  {
    SumsAppend(a, b);
  }

  /** What the handler reads after rewriting, what it misses, and the deleted voids make up the whole history. */
  lemma SeenAndMissing(s: PaperLedger.State, rewritten: seq<Row>, gone: nat)
    requires s.trimmed <= |s.ledger|
    requires SumsOf(Stream(s)) == Sum(SumsOf(rewritten), Sums(0.0, 0, 0, gone))
    ensures SumsOf(Rows(s.ledger))
      == Sum(Sum(SumsOf(First(rewritten)), SumsOf(Missing(s, rewritten))), Sums(0.0, 0, 0, gone))
  {
    var past, rest := Rows(s.ledger)[..s.trimmed], Beyond(rewritten);
    assert Rows(s.ledger) == past + Stream(s) && rewritten == First(rewritten) + rest;
    SumsConcat(past, Stream(s));
    SumsConcat(First(rewritten), rest);
    SumsConcat(past, rest);
    SumsRegroup(SumsOf(past), SumsOf(First(rewritten)), SumsOf(rest), Sums(0.0, 0, 0, gone));
  }

  lemma SumsRegroup(a: Sums, b: Sums, c: Sums, d: Sums)
    ensures Sum(a, Sum(Sum(b, c), d)) == Sum(Sum(b, Sum(a, c)), d)
  {}

  /** A rebuilt hash is the old one, less the deleted voids, exactly when base and missing totals cancel. */
  lemma RebuiltHash(s: PaperLedger.State, base: Settle.Tally, seen: Sums, missing: Sums, gone: nat, source: string)
    requires PaperLedger.TotalsKept(s, base) && WholeCents(seen.net)
    requires SumsOf(Rows(s.ledger)) == Sum(Sum(seen, missing), Sums(0.0, 0, 0, gone))
    ensures HashOf(seen, source) == Hash(s.pnl.net, s.pnl.won, s.pnl.lost, s.pnl.void - gone, source)
      <==> Cancel(base, missing)
    ensures HashOf(seen, source).net == s.pnl.net <==> base.net as real + missing.net * 100.0 == 0.0
  {
    RecountAgrees(s.ledger);
    var cents := (seen.net * 100.0).Floor;
    Settle.RoundWhole(cents);
    assert Cents(seen.net) == cents && seen.net * 100.0 == cents as real;
    assert s.pnl.net as real == base.net as real + seen.net * 100.0 + missing.net * 100.0;
  }

  lemma PrunedSum(rows: seq<Row>)
    requires VoidsAreFlat(rows)
    ensures SumsOf(rows) == Sum(SumsOf(Pruned(rows)), Sums(0.0, 0, 0, |Select(rows, Unresolved)|))
  {
    var t, gone := SumsOf(rows), |Select(rows, Unresolved)|;
    PruneTotals(rows);
    var kept := SumsOf(Pruned(rows));
    assert kept == Sums(t.net, t.won, t.lost, t.void - gone);
  }

  lemma SumMoves(a: Sums, b: Sums, c: Sums)
    ensures Sum(Sum(a, b), c) == Sum(Sum(a, c), b)
  {}

  lemma PrunedParts(rows: seq<Row>)
    requires VoidsAreFlat(rows)
    ensures SumsOf(rows) == Sum(SumsOf(PrunedStream(rows)), Sums(0.0, 0, 0, |Select(First(rows), Unresolved)|))
  {
    var first, rest, gone := First(rows), Beyond(rows), Sums(0.0, 0, 0, |Select(First(rows), Unresolved)|);
    assert rows == first + rest && VoidsAreFlat(first);
    SumsConcat(first, rest);
    SumsConcat(Pruned(first), rest);
    PrunedSum(first);
    SumMoves(SumsOf(Pruned(first)), gone, SumsOf(rest));
  }

  lemma {:induction false} SelectGraded(rows: seq<Row>, p: Body -> bool)
    requires Graded(rows)
    ensures Graded(Select(rows, p))
  {
    if rows != [] {
      GradedPart(rows, 0, |rows| - 1);
      SelectGraded(rows[..|rows| - 1], p);
    }
  }

  lemma FirstWhole(rows: seq<Row>)
    requires Graded(rows)
    ensures WholeCents(SumsOf(First(rows)).net)
  {
    var n := if |rows| <= READ_CAP then |rows| else READ_CAP;
    assert First(rows) == rows[0..n];
    GradedPart(rows, 0, n);
    WholeNet(First(rows));
  }

  lemma PrunedWhole(rows: seq<Row>)
    requires Graded(rows)
    ensures WholeCents(SumsOf(First(PrunedStream(rows))).net)
  {
    var n := if |rows| <= READ_CAP then |rows| else READ_CAP;
    assert First(rows) == rows[0..n] && Beyond(rows) == rows[n..|rows|];
    GradedPart(rows, 0, n);
    GradedPart(rows, n, |rows|);
    SelectGraded(First(rows), Not(Unresolved));
    FirstWhole(PrunedStream(rows));
  }

  lemma StreamGraded(s: PaperLedger.State, base: Settle.Tally)
    requires PaperLedger.Sound(s, base)
    ensures Graded(Stream(s))
  {
    HonestRows(s);
    assert Stream(s) == Rows(s.ledger)[s.trimmed..|s.ledger|];
    GradedPart(Rows(s.ledger), s.trimmed, |s.ledger|);
  }

  /**
   Pruning the stream that paper trading wrote: the rebuilt hash is the old one
   less the deleted voids if and only if what the hash started from and what the
   handler cannot read cancel out; its net is right if and only if theirs do.
   */
  lemma PruneOnPaperLedger(s: PaperLedger.State, base: Settle.Tally)
    requires PaperLedger.Sound(s, base)
    ensures var rewritten := PrunedStream(Stream(s));
            var gone := |Select(First(Stream(s)), Unresolved)|;
            var missing := SumsOf(Missing(s, rewritten));
            var rebuilt := HashOf(SumsOf(First(rewritten)), "prune-unresolved");
            && (rebuilt == Hash(s.pnl.net, s.pnl.won, s.pnl.lost, s.pnl.void - gone, "prune-unresolved")
                <==> Cancel(base, missing))
            && (rebuilt.net == s.pnl.net <==> base.net as real + missing.net * 100.0 == 0.0)
  {
    StreamGraded(s, base);
    var rewritten := PrunedStream(Stream(s));
    var gone := |Select(First(Stream(s)), Unresolved)|;
    PrunedParts(Stream(s));
    PrunedWhole(Stream(s));
    SeenAndMissing(s, rewritten, gone);
    RebuiltHash(s, base, SumsOf(First(rewritten)), SumsOf(Missing(s, rewritten)), gone, "prune-unresolved");
  }

  lemma NothingToRegrade(rows: seq<Row>, next: nat)
    requires Graded(rows)
    ensures RegradedStream(rows, next) == rows && Select(First(rows), VoidDraw) == []
  {
    var n := if |rows| <= READ_CAP then |rows| else READ_CAP;
    assert First(rows) == rows[0..n];
    SelectNone(First(rows), VoidDraw);
    SelectAll(First(rows), Not(VoidDraw));
    assert rows == First(rows) + Beyond(rows);
  }

  /** Regrading finds nothing to change there, and its rebuilt hash is the old one under the same condition. */
  lemma RegradeOnPaperLedger(s: PaperLedger.State, base: Settle.Tally, next: nat)
    requires PaperLedger.Sound(s, base)
    ensures var missing := SumsOf(Missing(s, Stream(s)));
            var rebuilt := HashOf(SumsOf(First(Stream(s))), "regrade-draws");
            && RegradedStream(Stream(s), next) == Stream(s)
            && (rebuilt == Hash(s.pnl.net, s.pnl.won, s.pnl.lost, s.pnl.void, "regrade-draws")
                <==> Cancel(base, missing))
            && (rebuilt.net == s.pnl.net <==> base.net as real + missing.net * 100.0 == 0.0)
  {
    StreamGraded(s, base);
    var rows := Stream(s);
    NothingToRegrade(rows, next);
    FirstWhole(rows);
    SeenAndMissing(s, rows, 0);
    RebuiltHash(s, base, SumsOf(First(rows)), SumsOf(Missing(s, rows)), 0, "regrade-draws");
  }

  lemma NoneMissing(s: PaperLedger.State, rewritten: seq<Row>)
    requires s.trimmed <= |s.ledger|
    ensures Cancel(Settle.NOTHING, SumsOf(Missing(s, rewritten))) <==> s.trimmed == 0 && |rewritten| <= READ_CAP
  {
    SumsCount(Missing(s, rewritten));
    assert |Missing(s, rewritten)| == s.trimmed + |Beyond(rewritten)|;
  }

  /** A hash that started empty counts as many entries as were ever written. */
  lemma HashCounts(s: PaperLedger.State)
    requires PaperLedger.Sound(s, Settle.NOTHING)
    ensures s.pnl.won + s.pnl.lost + s.pnl.void == |s.ledger|
    ensures |Stream(s)| == s.pnl.won + s.pnl.lost + s.pnl.void <==> s.trimmed == 0
  {
    Settle.TotalsCount(PaperLedger.SettledOf(s.ledger));
  }

  /** From an empty hash, pruning is right exactly when no entry was trimmed and none is past the read limit. */
  lemma PruneExact(s: PaperLedger.State)
    requires PaperLedger.Sound(s, Settle.NOTHING)
    ensures var rewritten, gone := PrunedStream(Stream(s)), |Select(First(Stream(s)), Unresolved)|;
            HashOf(SumsOf(First(rewritten)), "prune-unresolved")
              == Hash(s.pnl.net, s.pnl.won, s.pnl.lost, s.pnl.void - gone, "prune-unresolved")
            <==> s.trimmed == 0 && |rewritten| <= READ_CAP
  {
    PruneOnPaperLedger(s, Settle.NOTHING);
    NoneMissing(s, PrunedStream(Stream(s)));
  }

  lemma RegradeExact(s: PaperLedger.State)
    requires PaperLedger.Sound(s, Settle.NOTHING)
    ensures HashOf(SumsOf(First(Stream(s))), "regrade-draws")
              == Hash(s.pnl.net, s.pnl.won, s.pnl.lost, s.pnl.void, "regrade-draws")
            <==> s.trimmed == 0 && |Stream(s)| <= READ_CAP
  {
    RegradeOnPaperLedger(s, Settle.NOTHING, 0);
    NoneMissing(s, Stream(s));
  }

  /**
   In every state s that paper trading reaches from an empty PnL hash, either
   handler rebuilds the right hash if and only if the stream still holds as many
   entries as the hash counts and none is past the read limit.
   */
  lemma RewritesOnPaperLedger(s: PaperLedger.State, events: seq<PaperLedger.Event>)
    requires PaperLedger.Run(PaperLedger.Initial(Settle.NOTHING), events)
    requires s == PaperLedger.After(PaperLedger.Initial(Settle.NOTHING), events)
    ensures s.trimmed <= |s.ledger|
    ensures var rewritten, gone := PrunedStream(Stream(s)), |Select(First(Stream(s)), Unresolved)|;
            HashOf(SumsOf(First(rewritten)), "prune-unresolved")
              == Hash(s.pnl.net, s.pnl.won, s.pnl.lost, s.pnl.void - gone, "prune-unresolved")
            <==> |Stream(s)| == s.pnl.won + s.pnl.lost + s.pnl.void && |rewritten| <= READ_CAP
    ensures HashOf(SumsOf(First(Stream(s))), "regrade-draws")
              == Hash(s.pnl.net, s.pnl.won, s.pnl.lost, s.pnl.void, "regrade-draws")
            <==> |Stream(s)| == s.pnl.won + s.pnl.lost + s.pnl.void && |Stream(s)| <= READ_CAP
  {
    PaperLedger.PaperTradingSafe(events, Settle.NOTHING);
    HashCounts(s);
    PruneExact(s);
    RegradeExact(s);
  }

  /** As long as no more entries were ever written than the stream keeps, both handlers are right. */
  lemma RightBelowCap(s: PaperLedger.State)
    requires PaperLedger.Sound(s, Settle.NOTHING)
    requires s.pnl.won + s.pnl.lost + s.pnl.void <= 1000
    ensures var rewritten, gone := PrunedStream(Stream(s)), |Select(First(Stream(s)), Unresolved)|;
            HashOf(SumsOf(First(rewritten)), "prune-unresolved")
              == Hash(s.pnl.net, s.pnl.won, s.pnl.lost, s.pnl.void - gone, "prune-unresolved")
    ensures HashOf(SumsOf(First(Stream(s))), "regrade-draws")
              == Hash(s.pnl.net, s.pnl.won, s.pnl.lost, s.pnl.void, "regrade-draws")
  {
    NothingMissing(s);
    PruneExact(s);
    RegradeExact(s);
  }

  lemma NothingMissing(s: PaperLedger.State)
    requires PaperLedger.Sound(s, Settle.NOTHING)
    requires s.pnl.won + s.pnl.lost + s.pnl.void <= TRIM_CAP
    ensures s.trimmed == 0 && |Stream(s)| <= READ_CAP && |PrunedStream(Stream(s))| <= READ_CAP
  {
    HashCounts(s);
    LengthSplit(First(Stream(s)), Unresolved);
  }

  // ----- what goes wrong past the cap -----

  const PAYLOAD := PaperLedger.Payload("m", "FULLTIME_1X2", "home", 2.0, 100.0)
  const FINAL := PaperLedger.Match("m", "FULLTIME", PaperLedger.Score(1, 0), 0, 0)

  function SampleIds(n: nat): (r: seq<string>)
    ensures |r| == n
  {
    seq(n, i requires 0 <= i < n => Text.Digits(i))
  }

  lemma SampleIdsDiffer(n: nat)
    ensures forall i, j :: 0 <= i < j < n ==> SampleIds(n)[i] != SampleIds(n)[j]
  {
    forall i, j | 0 <= i < j < n
      ensures SampleIds(n)[i] != SampleIds(n)[j]
    {
      Text.DigitsParse(i);
      Text.DigitsParse(j);
    }
  }

  /** One bet on home for every sample id. */
  function SampleBets(n: nat): seq<PaperLedger.Event> {
    seq(n, i requires 0 <= i < n => PaperLedger.Place(Text.Digits(i), PAYLOAD))
  }

  ghost predicate OnlyBets(s: PaperLedger.State, n: nat) {
    && s == PaperLedger.Initial(Settle.NOTHING).(orders := s.orders, logged := s.logged)
    && s.orders == map id | id in SampleIds(n) :: PaperLedger.FillFor(id, PAYLOAD)
  }

  lemma {:induction false} BetsRun(n: nat)
    ensures PaperLedger.Run(PaperLedger.Initial(Settle.NOTHING), SampleBets(n))
    ensures OnlyBets(PaperLedger.After(PaperLedger.Initial(Settle.NOTHING), SampleBets(n)), n)
  {
    if n > 0 {
      BetsRun(n - 1);
      var s := PaperLedger.After(PaperLedger.Initial(Settle.NOTHING), SampleBets(n - 1));
      var e := PaperLedger.Place(Text.Digits(n - 1), PAYLOAD);
      assert SampleBets(n) == SampleBets(n - 1) + [e];
      PaperLedger.RunOne(s, e);
      PaperLedger.RunAppend(PaperLedger.Initial(Settle.NOTHING), SampleBets(n - 1), [e]);
      assert SampleIds(n) == SampleIds(n - 1) + [Text.Digits(n - 1)];
    }
  }

  /** All n bets are settled at once by their match's full-time frame, and the stream is trimmed to its cap. */
  function SettleAndTrim(n: nat): seq<PaperLedger.Event>
    requires n >= TRIM_CAP
  {
    [PaperLedger.Publish(FINAL)] + [PaperLedger.Deliver(SampleIds(n))] + [PaperLedger.Trim(n - TRIM_CAP)]
  }

  ghost predicate AllWon(ledger: seq<PaperLedger.Entry>) {
    forall i :: 0 <= i < |ledger| ==> ledger[i].settled.result == Settle.Won && ledger[i].settled.pnl == 9900
  }

  lemma {:induction false} WonSums(rows: seq<Row>)
    requires WonRows(rows)
    ensures SumsOf(rows) == Sums(99.0 * |rows| as real, |rows|, 0, 0)
  {
    if rows != [] {
      WonSums(rows[..|rows| - 1]);
    }
  }

  lemma SettledRun(s: PaperLedger.State, n: nat) returns (t: PaperLedger.State)
    requires OnlyBets(s, n) && n >= TRIM_CAP
    ensures PaperLedger.Run(s, SettleAndTrim(n)) && t == PaperLedger.After(s, SettleAndTrim(n))
    ensures |t.ledger| == n && AllWon(t.ledger) && t.trimmed == n - TRIM_CAP
  {
    var ids := SampleIds(n);
    var b := DeliveredRun(s, n, ids);
    PaperLedger.RunOne(b, PaperLedger.Trim(n - TRIM_CAP));
    t := PaperLedger.Step(b, PaperLedger.Trim(n - TRIM_CAP));
    PaperLedger.RunAppend(
      s, [PaperLedger.Publish(FINAL)] + [PaperLedger.Deliver(ids)], [PaperLedger.Trim(n - TRIM_CAP)]);
  }

  lemma DeliveredRun(s: PaperLedger.State, n: nat, ids: seq<string>) returns (b: PaperLedger.State)
    requires OnlyBets(s, n) && n > 0 && ids == SampleIds(n)
    ensures var events := [PaperLedger.Publish(FINAL)] + [PaperLedger.Deliver(ids)];
            PaperLedger.Run(s, events) && b == PaperLedger.After(s, events)
    ensures |b.ledger| == n && AllWon(b.ledger) && b.trimmed == 0
  {
    var a := PaperLedger.Step(s, PaperLedger.Publish(FINAL));
    SampleIdsDiffer(n);
    PaperLedger.RunOne(s, PaperLedger.Publish(FINAL));
    assert a.queue == [PaperLedger.MessageOf(FINAL)];
    assert forall id :: id in PaperLedger.MatchedIds(a.orders, a.queue[0]) <==> id in ids;
    PaperLedger.RunOne(a, PaperLedger.Deliver(ids));
    b := PaperLedger.Step(a, PaperLedger.Deliver(ids));
    PaperLedger.RunAppend(s, [PaperLedger.Publish(FINAL)], [PaperLedger.Deliver(ids)]);
    Settle.RoundWhole(9900);
  }

  /**
   A failing input for every n past the cap: n winning bets of one match, the
   stream trimmed to a thousand. Pruning deletes nothing and still takes every
   trimmed win and its profit out of the hash.
   */
  lemma TrimmedProfit(n: nat) returns (s: PaperLedger.State)
    requires n > 1000
    ensures PaperLedger.Run(PaperLedger.Initial(Settle.NOTHING), SampleBets(n) + SettleAndTrim(n))
    ensures s == PaperLedger.After(PaperLedger.Initial(Settle.NOTHING), SampleBets(n) + SettleAndTrim(n))
    ensures s.trimmed <= |s.ledger| && Select(First(Stream(s)), Unresolved) == []
    ensures s.pnl.net == 9900 * n && s.pnl.won == n
    ensures var h := HashOf(SumsOf(First(PrunedStream(Stream(s)))), "prune-unresolved");
            h.net == 9_900_000 < s.pnl.net && h.won == 1000 < s.pnl.won
  {
    var start := PaperLedger.Initial(Settle.NOTHING);
    BetsRun(n);
    s := SettledRun(PaperLedger.After(start, SampleBets(n)), n);
    PaperLedger.RunAppend(start, SampleBets(n), SettleAndTrim(n));
    WonHistory(s, n);
    PaperLedger.PaperTradingSafe(SampleBets(n) + SettleAndTrim(n), Settle.NOTHING);
    RecountAgrees(s.ledger);
    Settle.RoundWhole(9900 * TRIM_CAP);
  }

  ghost predicate WonRows(rows: seq<Row>) {
    forall i :: 0 <= i < |rows| ==> rows[i].body.result == "won" && rows[i].body.pnl == 99.0
  }

  lemma WonHistory(s: PaperLedger.State, n: nat)
    requires |s.ledger| == n && AllWon(s.ledger) && s.trimmed == n - TRIM_CAP && n > TRIM_CAP
    ensures SumsOf(Rows(s.ledger)) == Sums(99.0 * n as real, n, 0, 0)
    ensures Select(First(Stream(s)), Unresolved) == []
    ensures SumsOf(First(PrunedStream(Stream(s)))) == Sums(99.0 * TRIM_CAP as real, TRIM_CAP, 0, 0)
  {
    var rows, stream := Rows(s.ledger), Stream(s);
    forall i | 0 <= i < n
      ensures rows[i].body.result == "won" && rows[i].body.pnl == 99.0
    {
      assert rows[i].body == BodyOf(s.ledger[i]);
    }
    WonSums(rows);
    assert WonRows(stream) && |stream| == TRIM_CAP;
    WonStream(stream);
  }

  lemma WonStream(stream: seq<Row>)
    requires WonRows(stream) && |stream| == TRIM_CAP
    ensures Select(First(stream), Unresolved) == []
    ensures SumsOf(First(PrunedStream(stream))) == Sums(99.0 * TRIM_CAP as real, TRIM_CAP, 0, 0)
  {
    NamesDiffer();
    SelectNone(stream, Unresolved);
    SelectAll(stream, Not(Unresolved));
    WonSums(stream);
    assert PrunedStream(stream) == stream;
  }
}
