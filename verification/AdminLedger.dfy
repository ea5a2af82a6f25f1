/**
 The two maintenance rewrites of the settlement ledger
 (execution-engine-go/internal/api/server.go): pruning unresolved entries and
 regrading void draws, each followed by a recomputation of the PnL hash.
 */
module AdminLedger {
  import opened Options
  import Settle
  import PaperLedger

  /** One ledger entry; `rest` stands for the fields no rewrite reads. */
  datatype Body = Body(
    side: string, stake: real, result: string, pnl: real, source: string,
    home: Option<real>, away: Option<real>, rest: string)

  datatype Row = Row(id: nat, body: Body)

  datatype Sums = Sums(net: real, won: nat, lost: nat, void: nat)

  /** The PnL hash; `net` counts whole cents. */
  datatype Hash = Hash(net: int, won: int, lost: int, voids: int, source: string)

  const READ_CAP: nat := 5000
  const TRIM_CAP: nat := PaperLedger.TRIM_CAP

  predicate Unresolved(b: Body) {
    b.result == "unresolved"
  }

  /** A void home or away bet on a match that ended level. */
  predicate VoidDraw(b: Body) {
    && b.result == "void" && (b.side == "home" || b.side == "away")
    && b.home.Some? && b.away.Some? && b.home.value == b.away.value
  }

  function AsLost(b: Body): Body {
    b.(result := "lost", pnl := -b.stake, source := "regrade-draws")
  }

  // ----- reading and selecting -----

  function First(s: seq<Row>): seq<Row> {
    if |s| <= READ_CAP then s else s[..READ_CAP]
  }

  function Beyond(s: seq<Row>): seq<Row> {
    if |s| <= READ_CAP then [] else s[READ_CAP..]
  }

  function Select(s: seq<Row>, p: Body -> bool): seq<Row> {
    if s == [] then []
    else
      var rest := Select(s[..|s| - 1], p);
      if p(s[|s| - 1].body) then rest + [s[|s| - 1]] else rest
  }

  function Not(p: Body -> bool): Body -> bool {
    b => !p(b)
  }

  function Drop(s: seq<Row>, p: Body -> bool): seq<Row> {
    Select(s, Not(p))
  }

  function Without(s: seq<Row>, ids: set<nat>): seq<Row> {
    if s == [] then []
    else
      var rest := Without(s[..|s| - 1], ids);
      if s[|s| - 1].id in ids then rest else rest + [s[|s| - 1]]
  }

  function SumsOf(s: seq<Row>): Sums {
    if s == [] then Sums(0.0, 0, 0, 0)
    else
      var t, b := SumsOf(s[..|s| - 1]), s[|s| - 1].body;
      Sums(t.net + b.pnl,
           t.won + if b.result == "won" then 1 else 0,
           t.lost + if b.result == "lost" then 1 else 0,
           t.void + if b.result == "won" || b.result == "lost" then 0 else 1)
  }

  function Cents(x: real): int {
    Settle.Round(x * 100.0)
  }

  function HashOf(t: Sums, source: string): Hash {
    Hash(Cents(t.net), t.won, t.lost, t.void, source)
  }

  /** Regraded copies of the selected rows under fresh stream ids. */
  function Readded(s: seq<Row>, next: nat): (r: seq<Row>)
    ensures |r| == |s|
  {
    seq(|s|, i requires 0 <= i < |s| => Row(next + i, AsLost(s[i].body)))
  }

  /** What the prune handler leaves of a stream: it reads and deletes in the first part only. */
  function PrunedStream(s: seq<Row>): seq<Row> {
    Pruned(First(s)) + Beyond(s)
  }

  /** What the regrade handler makes of a stream, before any trimming. */
  function RegradedStream(s: seq<Row>, next: nat): seq<Row> {
    Drop(First(s), VoidDraw) + Beyond(s) + Readded(Select(First(s), VoidDraw), next)
  }

  function Pruned(s: seq<Row>): seq<Row> {
    Drop(s, Unresolved)
  }

  function Regraded(s: seq<Row>, next: nat): seq<Row> {
    Drop(s, VoidDraw) + Readded(Select(s, VoidDraw), next)
  }

  // ----- facts about selection -----

  lemma {:induction false} SelectAppend(a: seq<Row>, b: seq<Row>, p: Body -> bool)
    ensures Select(a + b, p) == Select(a, p) + Select(b, p)
  {
    if b == [] {
      assert a + b == a;
    } else {
      var n := |b| - 1;
      assert (a + b)[..|a + b| - 1] == a + b[..n];
      SelectAppend(a, b[..n], p);
    }
  }

  lemma {:induction false} SelectAll(s: seq<Row>, p: Body -> bool)
    requires forall i :: 0 <= i < |s| ==> p(s[i].body)
    ensures Select(s, p) == s
  {
    if s != [] {
      SelectAll(s[..|s| - 1], p);
    }
  }

  lemma {:induction false} SelectNone(s: seq<Row>, p: Body -> bool)
    requires forall i :: 0 <= i < |s| ==> !p(s[i].body)
    ensures Select(s, p) == []
  {
    if s != [] {
      SelectNone(s[..|s| - 1], p);
    }
  }

  lemma {:induction false} SelectSome(s: seq<Row>, p: Body -> bool, i: nat)
    requires i < |Select(s, p)|
    ensures p(Select(s, p)[i].body) && Select(s, p)[i] in s
  {
    var n := |s| - 1;
    if i < |Select(s[..n], p)| {
      SelectSome(s[..n], p, i);
    }
  }

  lemma {:induction false} SelectSwap(s: seq<Row>, p: Body -> bool, q: Body -> bool)
    ensures Select(Select(s, p), q) == Select(Select(s, q), p)
  {
    if s != [] {
      var n := |s| - 1;
      var a, b := Select(s[..n], p), Select(s[..n], q);
      SelectSwap(s[..n], p, q);
      assert (a + [s[n]])[..|a|] == a && (b + [s[n]])[..|b|] == b;
    }
  }

  lemma {:induction false} SumsAppend(a: seq<Row>, b: seq<Row>)
    ensures var x, y, z := SumsOf(a), SumsOf(b), SumsOf(a + b);
            z == Sums(x.net + y.net, x.won + y.won, x.lost + y.lost, x.void + y.void)
  {
    if b == [] {
      assert a + b == a;
    } else {
      var n := |b| - 1;
      assert (a + b)[..|a + b| - 1] == a + b[..n];
      SumsAppend(a, b[..n]);
    }
  }

  lemma {:induction false} SumsSplit(s: seq<Row>, p: Body -> bool)
    ensures var x, y, z := SumsOf(Select(s, p)), SumsOf(Drop(s, p)), SumsOf(s);
            z == Sums(x.net + y.net, x.won + y.won, x.lost + y.lost, x.void + y.void)
  {
    if s != [] {
      var n := |s| - 1;
      var a, b := Select(s[..n], p), Drop(s[..n], p);
      SumsSplit(s[..n], p);
      assert (a + [s[n]])[..|a|] == a && (b + [s[n]])[..|b|] == b;
    }
  }

  /** Rows that count as void and carry no profit. */
  lemma {:induction false} SumsVoid(s: seq<Row>)
    requires forall i :: 0 <= i < |s| ==> s[i].body.pnl == 0.0 && s[i].body.result !in {"won", "lost"}
    ensures SumsOf(s) == Sums(0.0, 0, 0, |s|)
  {
    if s != [] {
      SumsVoid(s[..|s| - 1]);
    }
  }

  lemma {:induction false} SumsCount(s: seq<Row>)
    ensures SumsOf(s).won + SumsOf(s).lost + SumsOf(s).void == |s|
  {
    if s != [] {
      SumsCount(s[..|s| - 1]);
    }
  }

  function Stakes(s: seq<Row>): real {
    if s == [] then 0.0 else Stakes(s[..|s| - 1]) + s[|s| - 1].body.stake
  }

  lemma {:induction false} SumsReadded(s: seq<Row>, next: nat)
    ensures SumsOf(Readded(s, next)) == Sums(-Stakes(s), 0, |s|, 0)
  {
    if s != [] {
      var n := |s| - 1;
      SumsReadded(s[..n], next);
      assert Readded(s, next)[..n] == Readded(s[..n], next);
    }
  }

  // ----- what the handlers take -----

  lemma {:induction false} SelectMember(s: seq<Row>, p: Body -> bool, r: Row)
    ensures r in Select(s, p) <==> r in s && p(r.body)
  {
    if s != [] {
      SelectMember(s[..|s| - 1], p, r);
      assert s == s[..|s| - 1] + [s[|s| - 1]];
    }
  }

  ghost predicate Ascending(s: seq<Row>) {
    forall i, j :: 0 <= i < j < |s| ==> s[i].id < s[j].id
  }

  lemma {:induction false} SelectAscending(s: seq<Row>, p: Body -> bool)
    requires Ascending(s)
    ensures Ascending(Select(s, p))
    ensures forall r :: r in Select(s, p) ==> r.id <= s[|s| - 1].id
  {
    if s != [] {
      SelectAscending(s[..|s| - 1], p);
      forall r | r in Select(s[..|s| - 1], p)
        ensures r.id < s[|s| - 1].id
      {
        SelectMember(s[..|s| - 1], p, r);
      }
    }
  }

  lemma DropsFromFirst(s: seq<Row>, p: Body -> bool, j: nat)
    requires Ascending(s) && j < |s|
    ensures s[j] in Drop(First(s), p) + Beyond(s) <==> j >= 5000 || !p(s[j].body)
  {
    var rows, rest := First(s), Beyond(s);
    assert s == rows + rest;
    SelectMember(rows, Not(p), s[j]);
    if j < |rows| {
      assert rows[j] == s[j];
      assert s[j] !in rest by {
        assert forall i :: 0 <= i < |rest| ==> rest[i] == s[|rows| + i];
      }
    } else {
      assert rest[j - |rows|] == s[j];
    }
  }

  /** A prune takes exactly the entries among the first five thousand whose result is unresolved. */
  lemma PruneTakes(s: seq<Row>, j: nat)
    requires Ascending(s) && j < |s|
    ensures s[j] in PrunedStream(s) <==> j >= 5000 || s[j].body.result != "unresolved"
  {
    DropsFromFirst(s, Unresolved, j);
  }

  /** What it leaves stays in order, and is nothing new. */
  lemma PruneKeeps(s: seq<Row>)
    requires Ascending(s)
    ensures Ascending(PrunedStream(s)) && forall r :: r in PrunedStream(s) ==> r in s
  {
    DropKeeps(s, Unresolved);
  }

  lemma DropKeeps(s: seq<Row>, p: Body -> bool)
    requires Ascending(s)
    ensures Ascending(Drop(First(s), p) + Beyond(s))
    ensures forall r :: r in Drop(First(s), p) + Beyond(s) ==> r in s
  {
    var rows, rest := First(s), Beyond(s);
    assert s == rows + rest;
    assert Ascending(rows) && Ascending(rest);
    SelectAscending(rows, Not(p));
    forall r | r in Drop(rows, p)
      ensures r in s && forall i :: 0 <= i < |rest| ==> r.id < rest[i].id
    {
      SelectMember(rows, Not(p), r);
      var k :| 0 <= k < |rows| && rows[k] == r;
      assert s[k] == r;
      assert forall i :: 0 <= i < |rest| ==> rest[i] == s[|rows| + i];
    }
  }

  /** A void home or away bet whose recorded score is level. */
  ghost predicate LevelVoid(b: Body) {
    && b.result == "void" && b.side in {"home", "away"}
    && b.home.Some? && b.away.Some? && b.home.value - b.away.value == 0.0
  }

  /** A regrade takes exactly the void home and away bets on level scores among the first five thousand entries. */
  lemma RegradeTakes(s: seq<Row>, next: nat, j: nat)
    requires Ascending(s) && j < |s| && forall i :: 0 <= i < |s| ==> s[i].id < next
    ensures s[j] in RegradedStream(s, next) <==> j >= 5000 || !LevelVoid(s[j].body)
  {
    DropsFromFirst(s, VoidDraw, j);
    var draws := Select(First(s), VoidDraw);
    assert s[j] !in Readded(draws, next) by {
      assert forall i :: 0 <= i < |draws| ==> Readded(draws, next)[i].id >= next;
    }
  }

  /**
   It puts one copy of each taken entry at the end, lost at its stake and marked
   by the handler, in their order and under fresh ids; the rest stays in order.
   */
  lemma RegradeAppends(s: seq<Row>, next: nat) returns (kept: seq<Row>, taken: seq<Row>)
    requires Ascending(s)
    ensures Ascending(kept) && Ascending(taken) && |RegradedStream(s, next)| == |kept| + |taken| == |s|
    ensures forall r :: r in kept ==> r in s
    ensures forall r :: r in taken <==> r in s[..if |s| < 5000 then |s| else 5000] && LevelVoid(r.body)
    ensures RegradedStream(s, next)[..|kept|] == kept
    ensures forall i :: 0 <= i < |taken| ==>
      var e := RegradedStream(s, next)[|kept| + i];
      && e.id == next + i
      && e.body == taken[i].body.(result := "lost", pnl := 0.0 - taken[i].body.stake, source := "regrade-draws")
  {
    kept, taken := Drop(First(s), VoidDraw) + Beyond(s), Select(First(s), VoidDraw);
    DropKeeps(s, VoidDraw);
    SelectAscending(First(s), VoidDraw);
    SplitFirst(s);
    forall r
      ensures r in taken <==> r in First(s) && LevelVoid(r.body)
    {
      SelectMember(First(s), VoidDraw, r);
    }
    CopiesFollow(kept, taken, next);
  }

  lemma SplitFirst(s: seq<Row>)
    ensures First(s) == s[..if |s| < 5000 then |s| else 5000]
    ensures |Drop(First(s), VoidDraw) + Beyond(s)| + |Select(First(s), VoidDraw)| == |s|
  {
    LengthSplit(First(s), VoidDraw);
  }

  lemma CopiesFollow(kept: seq<Row>, taken: seq<Row>, next: nat)
    ensures var all := kept + Readded(taken, next);
      && all[..|kept|] == kept
      && forall i :: 0 <= i < |taken| ==>
           && all[|kept| + i].id == next + i
           && all[|kept| + i].body
              == taken[i].body.(result := "lost", pnl := 0.0 - taken[i].body.stake, source := "regrade-draws")
  {}

  // ----- the main results -----

  /** Void and unresolved entries moved no money, as grading guarantees. */
  ghost predicate VoidsAreFlat(s: seq<Row>) {
    forall i :: 0 <= i < |s| && s[i].body.result in {"void", "unresolved"} ==> s[i].body.pnl == 0.0
  }

  /** Pruning keeps net, won and lost and lowers voids by exactly the number deleted. */
  lemma {:induction false} PruneTotals(s: seq<Row>)
    requires VoidsAreFlat(s)
    ensures |Pruned(s)| + |Select(s, Unresolved)| == |s|
    ensures var t := SumsOf(s);
            t.void >= |Select(s, Unresolved)|
            && SumsOf(Pruned(s)) == t.(void := t.void - |Select(s, Unresolved)|)
  {
    SumsSplit(s, Unresolved);
    LengthSplit(s, Unresolved);
    FlatUnresolved(s);
  }

  lemma FlatUnresolved(s: seq<Row>)
    requires VoidsAreFlat(s)
    ensures SumsOf(Select(s, Unresolved)) == Sums(0.0, 0, 0, |Select(s, Unresolved)|)
  {
    var gone := Select(s, Unresolved);
    forall i | 0 <= i < |gone|
      ensures gone[i].body.pnl == 0.0 && gone[i].body.result !in {"won", "lost"}
    {
      SelectSome(s, Unresolved, i);
    }
    SumsVoid(gone);
  }

  lemma {:induction false} LengthSplit(s: seq<Row>, p: Body -> bool)
    ensures |Select(s, p)| + |Drop(s, p)| == |s|
  {
    if s != [] {
      LengthSplit(s[..|s| - 1], p);
    }
  }

  /** Regrading k draws moves k entries from void to lost and lowers net by their stakes. */
  lemma RegradeTotals(s: seq<Row>, next: nat)
    requires VoidsAreFlat(s)
    ensures |Regraded(s, next)| == |s|
    ensures var t, draws := SumsOf(s), Select(s, VoidDraw);
            t.void >= |draws|
            && SumsOf(Regraded(s, next)) == Sums(t.net - Stakes(draws), t.won, t.lost + |draws|, t.void - |draws|)
  {
    var draws := Select(s, VoidDraw);
    SumsSplit(s, VoidDraw);
    LengthSplit(s, VoidDraw);
    FlatDraws(s);
    SumsReadded(draws, next);
    SumsAppend(Drop(s, VoidDraw), Readded(draws, next));
  }

  lemma FlatDraws(s: seq<Row>)
    requires VoidsAreFlat(s)
    ensures SumsOf(Select(s, VoidDraw)) == Sums(0.0, 0, 0, |Select(s, VoidDraw)|)
  {
    var draws := Select(s, VoidDraw);
    forall i | 0 <= i < |draws|
      ensures draws[i].body.pnl == 0.0 && draws[i].body.result !in {"won", "lost"}
    {
      SelectSome(s, VoidDraw, i);
    }
    SumsVoid(draws);
  }

  predicate WholeCents(x: real) {
    x * 100.0 == (x * 100.0).Floor as real
  }

  lemma {:induction false} WholeSums(s: seq<Row>)
    requires WholeAmounts(s)
    ensures WholeCents(SumsOf(s).net) && WholeCents(Stakes(s))
  {
    if s != [] {
      WholeSums(s[..|s| - 1]);
      WholeAdd(SumsOf(s[..|s| - 1]).net, s[|s| - 1].body.pnl);
      WholeAdd(Stakes(s[..|s| - 1]), s[|s| - 1].body.stake);
    }
  }

  lemma WholeAdd(x: real, y: real)
    requires WholeCents(x) && WholeCents(y)
    ensures WholeCents(x + y)
  {
    var a, b := (x * 100.0).Floor, (y * 100.0).Floor;
    assert (x + y) * 100.0 == (a + b) as real;
  }

  ghost predicate WholeAmounts(s: seq<Row>) {
    forall i :: 0 <= i < |s| ==> WholeCents(s[i].body.pnl) && WholeCents(s[i].body.stake)
  }

  /**
   The hash after a regrade, when it agreed before: the counts move exactly, and
   net falls by the stakes, to the cent when every amount is a whole number of
   cents and to within one cent of rounding otherwise.
   */
  lemma RegradeHash(s: seq<Row>, next: nat, prior: Hash, source: string)
    requires VoidsAreFlat(s) && prior == HashOf(SumsOf(s), prior.source)
    ensures var draws, h := Select(s, VoidDraw), HashOf(SumsOf(Regraded(s, next)), source);
            && prior.voids >= |draws| && h.won == prior.won && h.source == source
            && h.lost == prior.lost + |draws| && h.voids == prior.voids - |draws|
            && -1 <= h.net - (prior.net - Cents(Stakes(draws))) <= 1
            && (WholeAmounts(s) ==> h.net == prior.net - Cents(Stakes(draws)))
  {
    RegradeTotals(s, next);
    NearDifference(SumsOf(s).net, Stakes(Select(s, VoidDraw)));
    if WholeAmounts(s) {
      WholeParts(s);
      WholeDifference(SumsOf(s).net, Stakes(Select(s, VoidDraw)));
    }
  }

  lemma NearDifference(x: real, y: real)
    ensures -1 <= Cents(x - y) - (Cents(x) - Cents(y)) <= 1
  {
    Settle.RoundNear(x * 100.0);
    Settle.RoundNear(y * 100.0);
    Settle.RoundNear((x - y) * 100.0);
    assert (x - y) * 100.0 == x * 100.0 - y * 100.0;
  }

  lemma WholeParts(s: seq<Row>)
    requires WholeAmounts(s)
    ensures WholeCents(SumsOf(s).net) && WholeCents(Stakes(Select(s, VoidDraw)))
  {
    WholeSums(s);
    WholeDraws(s);
  }

  lemma WholeDraws(s: seq<Row>)
    requires WholeAmounts(s)
    ensures WholeCents(Stakes(Select(s, VoidDraw)))
  {
    var draws := Select(s, VoidDraw);
    forall i | 0 <= i < |draws|
      ensures WholeCents(draws[i].body.pnl) && WholeCents(draws[i].body.stake)
    {
      SelectSome(s, VoidDraw, i);
    }
    WholeSums(draws);
  }

  lemma WholeDifference(x: real, y: real)
    requires WholeCents(x) && WholeCents(y)
    ensures Cents(x - y) == Cents(x) - Cents(y)
  {
    var a, b := (x * 100.0).Floor, (y * 100.0).Floor;
    assert (x - y) * 100.0 == (a - b) as real;
    Settle.RoundWhole(a);
    Settle.RoundWhole(b);
    Settle.RoundWhole(a - b);
  }

  /** Both rewrites are idempotent: run again at once, they find nothing to change. */
  lemma Idempotent(s: seq<Row>, next: nat, later: nat)
    ensures Pruned(Pruned(s)) == Pruned(s)
    ensures Regraded(Regraded(s, next), later) == Regraded(s, next)
  {
    forall i | 0 <= i < |Pruned(s)|
      ensures Not(Unresolved)(Pruned(s)[i].body)
    {
      SelectSome(s, Not(Unresolved), i);
    }
    SelectAll(Pruned(s), Not(Unresolved));
    var t := Regraded(s, next);
    forall i | 0 <= i < |t|
      ensures !VoidDraw(t[i].body)
    {
      if i < |Drop(s, VoidDraw)| {
        SelectSome(s, Not(VoidDraw), i);
      }
    }
    SelectAll(t, Not(VoidDraw));
    SelectNone(t, VoidDraw);
  }

  function Bodies(s: seq<Row>): (r: seq<Body>)
    ensures |r| == |s|
  {
    seq(|s|, i requires 0 <= i < |s| => s[i].body)
  }

  /** The two rewrites commute on the entries, in order, up to stream ids, and so on all totals. */
  lemma RewritesCommute(s: seq<Row>, next: nat, next': nat)
    ensures Bodies(Pruned(Regraded(s, next))) == Bodies(Regraded(Pruned(s), next'))
    ensures SumsOf(Pruned(Regraded(s, next))) == SumsOf(Regraded(Pruned(s), next'))
  {
    var x, y := Pruned(Regraded(s, next)), Regraded(Pruned(s), next');
    PrunedRegraded(s, next);
    SelectSwap(s, Not(Unresolved), Not(VoidDraw));
    DrawsSurvive(s);
    assert y == Drop(Pruned(s), VoidDraw) + Readded(Select(s, VoidDraw), next');
    SumsBodies(x, y);
  }

  /** Pruning takes no void draw away. */
  lemma DrawsSurvive(s: seq<Row>)
    ensures Select(Pruned(s), VoidDraw) == Select(s, VoidDraw)
  {
    var draws := Select(s, VoidDraw);
    forall i | 0 <= i < |draws|
      ensures Not(Unresolved)(draws[i].body)
    {
      SelectSome(s, VoidDraw, i);
      assert VoidDraw(draws[i].body) && "void"[0] != "unresolved"[0];
      assert !Unresolved(draws[i].body);
    }
    SelectAll(draws, Not(Unresolved));
    SelectSwap(s, Not(Unresolved), VoidDraw);
  }

  lemma PrunedRegraded(s: seq<Row>, next: nat)
    ensures Pruned(Regraded(s, next)) == Select(Drop(s, VoidDraw), Not(Unresolved)) + Readded(Select(s, VoidDraw), next)
  {
    var lost := Readded(Select(s, VoidDraw), next);
    SelectAppend(Drop(s, VoidDraw), lost, Not(Unresolved));
    SelectAll(lost, Not(Unresolved));
  }

  lemma {:induction false} SumsBodies(a: seq<Row>, b: seq<Row>)
    requires Bodies(a) == Bodies(b)
    ensures SumsOf(a) == SumsOf(b)
  {
    if a != [] {
      var n := |a| - 1;
      assert Bodies(a)[n] == a[n].body && Bodies(b)[n] == b[n].body;
      assert Bodies(a[..n]) == Bodies(a)[..n] == Bodies(b)[..n] == Bodies(b[..n]);
      SumsBodies(a[..n], b[..n]);
    }
  }

  /** A regraded draw is what grading the same order against the same score would have written. */
  lemma RegradeIsGrading(b: Body, o: Settle.Order)
    requires VoidDraw(b) && o.side == b.side && o.stake == b.stake
    ensures var g := Settle.Graded(o, b.home.value, b.away.value, "regrade-draws", true);
            && AsLost(b).result == "lost" && g.result == Settle.Lost
            && (WholeCents(b.stake) ==> g.pnl as real == AsLost(b).pnl * 100.0)
  {
    if WholeCents(b.stake) {
      Settle.RoundWhole(-((b.stake * 100.0).Floor));
      assert -b.stake * 100.0 == (-((b.stake * 100.0).Floor)) as real;
    }
  }

  // ----- the handlers -----

  lemma {:induction false} WithoutAppend(a: seq<Row>, b: seq<Row>, ids: set<nat>)
    ensures Without(a + b, ids) == Without(a, ids) + Without(b, ids)
  {
    if b == [] {
      assert a + b == a;
    } else {
      var n := |b| - 1;
      assert (a + b)[..|a + b| - 1] == a + b[..n];
      WithoutAppend(a, b[..n], ids);
    }
  }

  /** Deleting by id the rows that were selected is dropping them. */
  lemma {:induction false} WithoutSelected(s: seq<Row>, p: Body -> bool, ids: set<nat>)
    requires forall i :: 0 <= i < |s| ==> (s[i].id in ids <==> p(s[i].body))
    ensures Without(s, ids) == Drop(s, p)
  {
    if s != [] {
      WithoutSelected(s[..|s| - 1], p, ids);
    }
  }

  /** Deleting collected ids takes exactly the selected readable rows, because ids are distinct. */
  lemma WithoutFirstPart(s: seq<Row>, p: Body -> bool, ids: set<nat>)
    requires forall i, j :: 0 <= i < j < |s| ==> s[i].id < s[j].id
    requires forall x :: x in ids ==> exists j :: 0 <= j < |First(s)| && First(s)[j].id == x && p(First(s)[j].body)
    requires forall j :: 0 <= j < |First(s)| && p(First(s)[j].body) ==> First(s)[j].id in ids
    ensures Without(s, ids) == Drop(First(s), p) + Beyond(s)
  {
    var rows, rest := First(s), Beyond(s);
    assert s == rows + rest;
    forall i | 0 <= i < |rows|
      ensures rows[i].id in ids <==> p(rows[i].body)
    {
      assert rows[i] == s[i];
    }
    forall i | 0 <= i < |rest|
      ensures rest[i].id !in ids
    {
      assert rest[i] == s[|rows| + i];
    }
    WithoutSelected(rows, p, ids);
    WithoutNone(rest, ids);
    WithoutAppend(rows, rest, ids);
  }

  class Ledger {
    var stream: seq<Row>
    var next: nat
    var hash: Hash

    /** Redis hands out strictly increasing stream ids. */
    ghost predicate Valid()
      reads this
    {
      && (forall i, j :: 0 <= i < j < |stream| ==> stream[i].id < stream[j].id)
      && (forall i :: 0 <= i < |stream| ==> stream[i].id < next)
    }

    /** The readable rows that satisfy p, and their ids. */
    method Collect(p: Body -> bool) returns (ids: set<nat>, selected: seq<Row>)
      ensures forall x :: x in ids ==>
        exists j :: 0 <= j < |First(stream)| && First(stream)[j].id == x && p(First(stream)[j].body)
      ensures forall j :: 0 <= j < |First(stream)| && p(First(stream)[j].body) ==> First(stream)[j].id in ids
      ensures selected == Select(First(stream), p)
    {
      var rows := First(stream);
      ids, selected := {}, [];
      for i := 0 to |rows|
        invariant forall x :: x in ids ==> exists j :: 0 <= j < i && rows[j].id == x && p(rows[j].body)
        invariant forall j :: 0 <= j < i && p(rows[j].body) ==> rows[j].id in ids
        invariant selected == Select(rows[..i], p)
      {
        assert rows[..i + 1][..i] == rows[..i];
        if p(rows[i].body) {
          ids, selected := ids + {rows[i].id}, selected + [rows[i]];
        }
      }
      assert rows[..|rows|] == rows;
    }

    /** Delete the readable rows that satisfy p. */
    method Extract(p: Body -> bool) returns (selected: seq<Row>)
      requires Valid()
      modifies this`stream
      ensures Valid()
      ensures stream == Drop(First(old(stream)), p) + Beyond(old(stream))
      ensures selected == Select(First(old(stream)), p)
    {
      var ids;
      ids, selected := Collect(p);
      WithoutFirstPart(stream, p, ids);
      WithoutValid(stream, ids, next);
      stream := Without(stream, ids);
    }

    /** Rebuild the PnL hash from the surviving entries. */
    method Recompute(source: string)
      modifies this`hash
      ensures hash == HashOf(SumsOf(First(stream)), source)
    {
      var rows := First(stream);
      var net, won, lost, void := 0.0, 0, 0, 0;
      for i := 0 to |rows|
        invariant Sums(net, won, lost, void) == SumsOf(rows[..i])
      {
        assert rows[..i + 1][..i] == rows[..i];
        net := net + rows[i].body.pnl;
        if rows[i].body.result == "won" {
          won := won + 1;
        } else if rows[i].body.result == "lost" {
          lost := lost + 1;
        } else {
          void := void + 1;
        }
      }
      assert rows[..|rows|] == rows;
      hash := Hash(Cents(net), won, lost, void, source);
    }

    /** Append one entry; above the cap Redis may trim any number of the oldest entries down to it. */
    method Add(b: Body) returns (ghost trimmed: nat)
      requires Valid()
      modifies this`stream, this`next
      ensures Valid() && next == old(next) + 1
      ensures trimmed <= |old(stream)| && stream == (old(stream) + [Row(old(next), b)])[trimmed..]
      ensures trimmed > 0 ==> |stream| >= TRIM_CAP
    {
      var grown := stream + [Row(next, b)];
      next := next + 1;
      var excess := if |grown| > TRIM_CAP then |grown| - TRIM_CAP else 0;
      var drop: nat :| drop <= excess;
      stream := grown[drop..];
      trimmed := drop;
    }

    method PruneUnresolved() returns (deleted: nat)
      requires Valid()
      modifies this
      ensures Valid() && next == old(next)
      ensures stream == PrunedStream(old(stream))
      ensures deleted == |Select(First(old(stream)), Unresolved)|
      ensures hash == HashOf(SumsOf(First(stream)), "prune-unresolved")
    {
      var gone := Extract(Unresolved);
      Recompute("prune-unresolved");
      deleted := |gone|;
    }

    method RegradeDraws() returns (regraded: nat, ghost trimmed: nat)
      requires Valid()
      modifies this
      ensures Valid()
      ensures var rewritten := RegradedStream(old(stream), old(next));
              trimmed <= |rewritten| && stream == rewritten[trimmed..]
      ensures trimmed > 0 ==> |stream| >= TRIM_CAP
      ensures regraded == |Select(First(old(stream)), VoidDraw)|
      ensures hash == HashOf(SumsOf(First(stream)), "regrade-draws")
    {
      var draws := Extract(VoidDraw);
      trimmed := ReaddAll(draws);
      Recompute("regrade-draws");
      regraded := |draws|;
    }

    /** Append the regraded copies one by one. */
    method ReaddAll(draws: seq<Row>) returns (ghost trimmed: nat)
      requires Valid()
      modifies this`stream, this`next
      ensures Valid()
      ensures var full := old(stream) + Readded(draws, old(next)); trimmed <= |full| && stream == full[trimmed..]
      ensures trimmed > 0 ==> |stream| >= TRIM_CAP
    {
      ghost var kept, first := stream, next;
      trimmed := 0;
      for i := 0 to |draws|
        invariant Valid() && next == first + i
        invariant trimmed <= |kept| + i && stream == (kept + Readded(draws, first)[..i])[trimmed..]
        invariant trimmed > 0 ==> |stream| >= TRIM_CAP
      {
        ghost var before, row := kept + Readded(draws, first)[..i], Row(first + i, AsLost(draws[i].body));
        ghost var more := Add(AsLost(draws[i].body));
        TrimAgain(before, row, trimmed, more);
        NextReadded(kept, draws, first, i);
        trimmed := trimmed + more;
      }
    }
  }

  lemma NextReadded(kept: seq<Row>, draws: seq<Row>, first: nat, i: nat)
    requires i < |draws|
    ensures kept + Readded(draws, first)[..i + 1]
      == kept + Readded(draws, first)[..i] + [Row(first + i, AsLost(draws[i].body))]
  {}

  lemma TrimAgain(s: seq<Row>, r: Row, d: nat, e: nat)
    requires d <= |s| && e <= |s| - d
    ensures (s[d..] + [r])[e..] == (s + [r])[d + e..]
  {}

  /** Below the trim cap the handlers compute exactly the rewrites studied above. */
  lemma BelowCap(s: seq<Row>, next: nat, trimmed: nat)
    requires |s| <= 1000
    ensures PrunedStream(s) == Pruned(s) && First(Pruned(s)) == Pruned(s)
    ensures var rewritten := RegradedStream(s, next);
            && rewritten == Regraded(s, next) && First(rewritten) == rewritten
            && (trimmed <= |rewritten| && (trimmed > 0 ==> |rewritten[trimmed..]| >= TRIM_CAP) ==> trimmed == 0)
  {
    LengthSplit(s, Unresolved);
    LengthSplit(s, VoidDraw);
  }

  lemma {:induction false} WithoutNone(s: seq<Row>, ids: set<nat>)
    requires forall i :: 0 <= i < |s| ==> s[i].id !in ids
    ensures Without(s, ids) == s
  {
    if s != [] {
      WithoutNone(s[..|s| - 1], ids);
    }
  }

  lemma {:induction false} WithoutValid(s: seq<Row>, ids: set<nat>, next: nat)
    requires forall i, j :: 0 <= i < j < |s| ==> s[i].id < s[j].id
    requires forall i :: 0 <= i < |s| ==> s[i].id < next
    ensures var r := Without(s, ids);
            && |r| <= |s|
            && (forall i, j :: 0 <= i < j < |r| ==> r[i].id < r[j].id)
            && (forall i :: 0 <= i < |r| ==> r[i].id < next && r[i].id <= s[|s| - 1].id)
  {
    if s != [] {
      WithoutValid(s[..|s| - 1], ids, s[|s| - 1].id);
    }
  }
}
