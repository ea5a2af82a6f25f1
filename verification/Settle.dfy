/** Grading of filled orders against a final score (execution-engine-go/internal/broker/settle.go). */
module Settle {

  datatype Outcome = Won | Lost | Void | Unresolved

  datatype Order = Order(orderId: string, market: string, side: string, odds: real, stake: real)

  /** A graded order; `pnl` counts whole cents. */
  datatype SettledOrder = SettledOrder(order: Order, result: Outcome, pnl: int, source: string, verified: bool)

  /** The running totals of a session; `net` counts whole cents. */
  datatype Tally = Tally(net: int, won: int, lost: int, void: int)

  const NOTHING := Tally(0, 0, 0, 0)

  function Plus(a: Tally, b: Tally): Tally {
    Tally(a.net + b.net, a.won + b.won, a.lost + b.lost, a.void + b.void)
  }

  function OutcomeFor(side: string, home: real, away: real): Outcome {
    if side == "home" then (if home > away then Won else Lost)
    else if side == "away" then (if away > home then Won else Lost)
    else if side == "draw" then (if home == away then Won else Lost)
    else Void
  }

  /** Rounding half away from zero. */
  function Round(x: real): int {
    if x >= 0.0 then (x + 0.5).Floor else -((0.5 - x).Floor)
  }

  /** The profit of a graded order before rounding to the cent. */
  function ExactPnl(result: Outcome, stake: real, odds: real): real {
    match result
    case Won => stake * (odds - 1.0)
    case Lost => -stake
    case _ => 0.0
  }

  function PnlFor(result: Outcome, stake: real, odds: real): int {
    Round(ExactPnl(result, stake, odds) * 100.0)
  }

  function Graded(o: Order, home: real, away: real, source: string, verified: bool): SettledOrder {
    var result := if verified then OutcomeFor(o.side, home, away) else Unresolved;
    SettledOrder(o, result, PnlFor(result, o.stake, o.odds), source, verified)
  }

  function GradedAll(orders: seq<Order>, home: real, away: real, source: string, verified: bool): (r: seq<SettledOrder>)
    ensures |r| == |orders|
  {
    seq(|orders|, i requires 0 <= i < |orders| => Graded(orders[i], home, away, source, verified))
  }

  method SettleOrders(orders: seq<Order>, home: real, away: real, source: string, verified: bool)
    returns (settled: seq<SettledOrder>)
    ensures settled == GradedAll(orders, home, away, source, verified)
  {
    settled := [];
    for i := 0 to |orders|
      invariant settled == GradedAll(orders, home, away, source, verified)[..i]
    {
      var o := orders[i];
      var result := OutcomeFor(o.side, home, away);
      if !verified {
        result := Unresolved;
      }
      settled := settled + [SettledOrder(o, result, PnlFor(result, o.stake, o.odds), source, verified)];
    }
  }

  function TallyOf(so: SettledOrder): Tally {
    Tally(so.pnl,
          if so.result == Won then 1 else 0,
          if so.result == Lost then 1 else 0,
          if so.result == Void || so.result == Unresolved then 1 else 0)
  }

  function Totals(settled: seq<SettledOrder>): Tally {
    if settled == [] then NOTHING
    else Plus(Totals(settled[..|settled| - 1]), TallyOf(settled[|settled| - 1]))
  }

  method SettlementTotals(settled: seq<SettledOrder>) returns (t: Tally)
    ensures t == Totals(settled)
  {
    var net, won, lost, void := 0, 0, 0, 0;
    for i := 0 to |settled|
      invariant Tally(net, won, lost, void) == Totals(settled[..i])
    {
      assert settled[..i + 1][..i] == settled[..i];
      net := net + settled[i].pnl;
      match settled[i].result
      case Won => won := won + 1;
      case Lost => lost := lost + 1;
      case Void => void := void + 1;
      case Unresolved => void := void + 1;
    }
    assert settled[..|settled|] == settled;
    t := Tally(net, won, lost, void);
  }

  lemma {:induction false} TotalsAppend(a: seq<SettledOrder>, b: seq<SettledOrder>)
    ensures Totals(a + b) == Plus(Totals(a), Totals(b))
  {
    if b == [] {
      assert a + b == a;
    } else {
      var n := |b| - 1;
      assert (a + b)[..|a + b| - 1] == a + b[..n];
      TotalsAppend(a, b[..n]);
    }
  }

  /** Every order is counted exactly once, as won, lost or void. */
  lemma {:induction false} TotalsCount(settled: seq<SettledOrder>)
    ensures Totals(settled).won + Totals(settled).lost + Totals(settled).void == |settled|
  {
    if settled != [] {
      TotalsCount(settled[..|settled| - 1]);
    }
  }

  function ExactNet(settled: seq<SettledOrder>): real {
    if settled == [] then 0.0
    else
      var so := settled[|settled| - 1];
      ExactNet(settled[..|settled| - 1]) + ExactPnl(so.result, so.order.stake, so.order.odds)
  }

  lemma RoundNear(x: real)
    ensures -0.5 <= Round(x) as real - x <= 0.5
  {}

  /** n is the whole number nearest to x, and at a tie the one further from zero. */
  ghost predicate Nearest(n: int, x: real) {
    && -0.5 <= n as real - x <= 0.5
    && (n as real - x == 0.5 ==> x > 0.0) && (n as real - x == -0.5 ==> x < 0.0)
  }

  lemma RoundNearest(x: real, n: int)
    ensures Round(x) == n <==> Nearest(n, x)
    ensures Round(-x) == -Round(x)
  {}

  lemma RoundWhole(n: int)
    ensures Round(n as real) == n
  {
    RoundNear(n as real);
  }

  /** Rounding each order to the cent moves the net by at most half a cent an order. */
  lemma {:induction false} NetNearExact(orders: seq<Order>, home: real, away: real, source: string, verified: bool)
    ensures var settled := GradedAll(orders, home, away, source, verified);
            && Totals(settled).net as real - ExactNet(settled) * 100.0 <= |orders| as real * 0.5
            && ExactNet(settled) * 100.0 - Totals(settled).net as real <= |orders| as real * 0.5
  {
    if orders != [] {
      var n := |orders| - 1;
      var settled := GradedAll(orders, home, away, source, verified);
      NetNearExact(orders[..n], home, away, source, verified);
      assert settled[..n] == GradedAll(orders[..n], home, away, source, verified);
      var so := settled[n];
      RoundNear(ExactPnl(so.result, so.order.stake, so.order.odds) * 100.0);
    }
  }

  /**
   A verified score splits the three sides into exactly one winner and two
   losers, draws included; any other side is void. Unverified grading moves no
   money.
   */
  lemma OneWinner(o: Order, home: real, away: real, source: string)
    ensures
      var r := (side: string) => Graded(o.(side := side), home, away, source, true).result;
      && (r("home") == Won <==> home > away) && (r("away") == Won <==> away > home)
      && (r("draw") == Won <==> home == away)
      && TallyOf(Graded(o.(side := "home"), home, away, source, true)).won
         + TallyOf(Graded(o.(side := "draw"), home, away, source, true)).won
         + TallyOf(Graded(o.(side := "away"), home, away, source, true)).won == 1
      && TallyOf(Graded(o.(side := "home"), home, away, source, true)).lost
         + TallyOf(Graded(o.(side := "draw"), home, away, source, true)).lost
         + TallyOf(Graded(o.(side := "away"), home, away, source, true)).lost == 2
      && (r(o.side) == Void <==> o.side !in {"home", "draw", "away"})
      && r(o.side) != Unresolved
    ensures TallyOf(Graded(o, home, away, source, false)) == Tally(0, 0, 0, 1)
  {
    assert o.(side := o.side) == o;
  }

  /** The side names the outcome of the score. */
  ghost predicate SideWins(side: string, home: real, away: real) {
    || (side == "home" && home > away)
    || (side == "away" && away > home)
    || (side == "draw" && home == away)
  }

  /**
   The money of a graded order: a winner is paid its stake times the odds less
   the stake, a loser pays the stake, each to the nearest cent, and nothing else
   moves money.
   */
  lemma GradedMoney(o: Order, home: real, away: real, source: string, verified: bool)
    ensures var g, known := Graded(o, home, away, source, verified), o.side in {"home", "draw", "away"};
      && g.order == o && g.source == source && g.verified == verified
      && (verified && SideWins(o.side, home, away) ==>
            g.result == Won && Nearest(g.pnl, 100.0 * (o.stake * o.odds - o.stake)))
      && (verified && known && !SideWins(o.side, home, away) ==>
            g.result == Lost && Nearest(g.pnl, -100.0 * o.stake))
      && (verified && !known ==> g.result == Void && g.pnl == 0)
      && (!verified ==> g.result == Unresolved && g.pnl == 0)
  {
    var g := Graded(o, home, away, source, verified);
    assert o.stake * (o.odds - 1.0) * 100.0 == 100.0 * (o.stake * o.odds - o.stake);
    RoundNearest(ExactPnl(g.result, o.stake, o.odds) * 100.0, g.pnl);
    RoundWhole(0);
  }
}
