/**
 The paper order lifecycle: frames are published to a match hash and a channel
 (data-ingestion-go/internal/cache/redis.go), orders are filled into a pending
 hash, and full-time frames and the stale sweep grade them into a ledger and a
 PnL hash (execution-engine-go/internal/broker/interfaces.go).

 One grading pass, from reading the pending hash to deleting the graded ids, is
 one step. Redis writes succeed; channel messages may be lost, and the stream that
 holds the ledger may lose its oldest entries above the cap.
 */
module PaperLedger {
  import opened Options
  import opened Settle
  import opened Listing

  datatype Score = Score(home: int, away: int)

  datatype Fill = Fill(order: Order, matchId: string)

  /** The fields of a published match that settlement reads. */
  datatype Match = Match(matchId: string, clock: string, score: Score, kickoff: int, receivedAt: int)

  /** A channel message as the paper loop decodes it. */
  datatype Message = Message(clock: string, matchId: string, score: Option<Score>)

  datatype Entry = Entry(settled: SettledOrder, matchId: string, score: Score)

  datatype Payload = Payload(matchId: string, market: string, side: string, odds: real, amount: real)

  /**
   `orders`, `matches` and `pnl` are Redis keys, `queue` the undelivered channel
   messages, `session` and `cycle` the broker's fields. `ledger` is every entry
   ever written; the first `trimmed` of them are no longer in the stream.
   `logged` and `published` remember every accepted fill and every frame.
   */
  datatype State = State(
    orders: map<string, Fill>, matches: map<string, Match>, queue: seq<Message>,
    pnl: Tally, session: Tally, cycle: int, ledger: seq<Entry>, trimmed: nat,
    logged: seq<Fill>, published: seq<Message>)

  function Initial(pnl: Tally): State {
    State(map[], map[], [], pnl, NOTHING, 0, [], 0, [], [])
  }

  /** The stream cap that every append asks for, approximately. */
  const TRIM_CAP: nat := 1000

  /** Trimming takes the oldest readable entries and leaves at least the cap. */
  predicate Trimmable(s: State, n: nat) {
    n == 0 || s.trimmed + n + TRIM_CAP <= |s.ledger|
  }

  function TrimmedBy(s: State, n: nat): State {
    s.(trimmed := s.trimmed + n)
  }

  // ----- one batch of graded orders -----

  function SettledOf(entries: seq<Entry>): (r: seq<SettledOrder>)
    ensures |r| == |entries|
  {
    seq(|entries|, i requires 0 <= i < |entries| => entries[i].settled)
  }

  function EntriesOf(settled: seq<SettledOrder>, matchId: string, score: Score): (r: seq<Entry>)
    ensures |r| == |settled| && SettledOf(r) == settled
  {
    seq(|settled|, i requires 0 <= i < |settled| => Entry(settled[i], matchId, score))
  }

  function OrdersOf(orders: map<string, Fill>, ids: seq<string>): (r: seq<Order>)
    requires forall i :: 0 <= i < |ids| ==> ids[i] in orders
    ensures |r| == |ids|
  {
    seq(|ids|, i requires 0 <= i < |ids| => orders[ids[i]].order)
  }

  /** The entries a grading pass writes for the given ids, in that order. */
  function EntriesFor(orders: map<string, Fill>, ids: seq<string>, matchId: string, score: Score,
                      source: string, verified: bool): (r: seq<Entry>)
    requires forall i :: 0 <= i < |ids| ==> ids[i] in orders
    ensures |r| == |ids|
  {
    var batch := OrdersOf(orders, ids);
    EntriesOf(GradedAll(batch, score.home as real, score.away as real, source, verified), matchId, score)
  }

  /** Grade a non-empty batch: totals, ledger and pending hash change together. */
  function Booked(s: State, ids: seq<string>, entries: seq<Entry>): State
    requires |ids| == |entries|
  {
    if ids == [] then s
    else
      var delta := Totals(SettledOf(entries));
      s.(orders := s.orders - (set id | id in ids),
         pnl := Plus(s.pnl, delta), session := Plus(s.session, delta), cycle := s.cycle + 1,
         ledger := s.ledger + entries)
  }

  // ----- the full-time pass -----

  predicate Grades(m: Message) {
    m.clock == "FULLTIME" && m.score.Some?
  }

  /** The pending orders a full-time frame grades: those of its match, and those without a match. */
  function MatchedIds(orders: map<string, Fill>, m: Message): set<string> {
    set id | id in orders && (orders[id].matchId == "" || orders[id].matchId == m.matchId)
  }

  function Delivered(s: State, ids: seq<string>): State
    requires s.queue != []
    requires forall i :: 0 <= i < |ids| ==> ids[i] in s.orders
  {
    var m, t := s.queue[0], s.(queue := s.queue[1..]);
    if !Grades(m) then t
    else Booked(t, ids, EntriesFor(s.orders, ids, m.matchId, m.score.value, "feed_ft", true))
  }

  // ----- the stale sweep -----

  const STALE_MS := 180 * 60 * 1000

  /** The sweep takes an order once its recorded match is three hours past kickoff or past its last frame. */
  predicate Stale(f: Fill, matches: map<string, Match>, nowMs: int) {
    && f.matchId != "" && f.matchId in matches
    && var m := matches[f.matchId];
       || (m.kickoff > 0 && nowMs - m.kickoff * 1000 > STALE_MS)
       || (m.receivedAt > 0 && nowMs - m.receivedAt > STALE_MS)
  }

  function StaleIds(s: State, nowMs: int): set<string> {
    set id | id in s.orders && Stale(s.orders[id], s.matches, nowMs)
  }

  /** Distinct pending orders whose match is recorded. */
  ghost predicate Sweepable(s: State, ids: seq<string>) {
    && (forall i :: 0 <= i < |ids| ==> ids[i] in s.orders && s.orders[ids[i]].matchId in s.matches)
    && (forall i, j :: 0 <= i < j < |ids| ==> ids[i] != ids[j])
  }

  function EntriesSwept(s: State, id: string): (r: seq<Entry>)
    requires id in s.orders && s.orders[id].matchId in s.matches
    ensures |r| == 1 && r[0].settled.order == s.orders[id].order
  {
    var m := s.matches[s.orders[id].matchId];
    EntriesFor(s.orders, [id], s.orders[id].matchId, m.score, "stale_sweep", m.clock == "FULLTIME")
  }

  function SweptOne(s: State, id: string): State
    requires id in s.orders && s.orders[id].matchId in s.matches
  {
    Booked(s, [id], EntriesSwept(s, id))
  }

  /** Each stale order is graded on its own, against the recorded match. */
  function Swept(s: State, ids: seq<string>): (t: State)
    requires Sweepable(s, ids)
    ensures t.matches == s.matches && t.orders == s.orders - (set id | id in ids)
  {
    if ids == [] then s
    else
      var n := |ids| - 1;
      assert ids == ids[..n] + [ids[n]];
      var t := Swept(s, ids[..n]);
      assert ids[n] !in ids[..n];
      SweptOne(t, ids[n])
  }

  // ----- steps and runs -----

  datatype Event =
    | Publish(m: Match)
    | Expire(matchId: string)
    | Lose
    | Place(id: string, payload: Payload)
    | Deliver(ids: seq<string>)
    | Sweep(nowMs: int, ids: seq<string>)
    | Trim(n: nat)

  const SLIPPAGE := 0.005

  function FillFor(id: string, p: Payload): Fill {
    Fill(Order(id, p.market, p.side, p.odds - p.odds * SLIPPAGE, p.amount), p.matchId)
  }

  /** Grading passes list exactly the orders they select. */
  ghost predicate Enabled(s: State, e: Event) {
    match e
    case Publish(_) => true
    case Expire(_) => true
    case Lose => s.queue != []
    case Place(_, _) => true
    case Deliver(ids) =>
      s.queue != [] && Lists(ids, if Grades(s.queue[0]) then MatchedIds(s.orders, s.queue[0]) else {})
    case Sweep(nowMs, ids) => Lists(ids, StaleIds(s, nowMs))
    case Trim(n) => Trimmable(s, n)
  }

  function MessageOf(m: Match): Message {
    Message(m.clock, m.matchId, Some(m.score))
  }

  ghost function Step(s: State, e: Event): State
    requires Enabled(s, e)
  {
    match e
    case Publish(m) =>
      s.(matches := s.matches[m.matchId := m],
         queue := s.queue + [MessageOf(m)], published := s.published + [MessageOf(m)])
    case Expire(matchId) => s.(matches := s.matches - {matchId})
    case Lose => s.(queue := s.queue[1..])
    case Place(id, payload) =>
      if payload.amount <= 0.0 then s
      else s.(orders := s.orders[id := FillFor(id, payload)], logged := s.logged + [FillFor(id, payload)])
    case Deliver(ids) => Delivered(s, ids)
    case Sweep(nowMs, ids) => Swept(s, ids)
    case Trim(n) => TrimmedBy(s, n)
  }

  ghost predicate Run(s: State, events: seq<Event>)
    decreases events
  {
    events == [] || (Enabled(s, events[0]) && Run(Step(s, events[0]), events[1..]))
  }

  ghost function After(s: State, events: seq<Event>): State
    requires Run(s, events)
    decreases events
  {
    if events == [] then s else After(Step(s, events[0]), events[1..])
  }

  lemma RunOne(s: State, e: Event)
    requires Enabled(s, e)
    ensures Run(s, [e]) && After(s, [e]) == Step(s, e)
  {
    assert [e][1..] == [];
    assert Run(Step(s, e), [e][1..]);
  }

  lemma {:induction false} RunAppend(s: State, a: seq<Event>, b: seq<Event>)
    requires Run(s, a) && Run(After(s, a), b)
    ensures Run(s, a + b) && After(s, a + b) == After(After(s, a), b)
    decreases a
  {
    if a == [] {
      assert a + b == b;
    } else {
      assert (a + b)[1..] == a[1..] + b;
      RunAppend(Step(s, a[0]), a[1..], b);
    }
  }

  // ----- money -----

  /** The PnL hash and the session are the fold of the whole ledger. */
  ghost predicate TotalsKept(s: State, base: Tally) {
    && s.pnl == Plus(base, Totals(SettledOf(s.ledger)))
    && s.session == Totals(SettledOf(s.ledger))
  }

  lemma BookTotals(s: State, ids: seq<string>, entries: seq<Entry>, base: Tally)
    requires TotalsKept(s, base) && |ids| == |entries|
    ensures TotalsKept(Booked(s, ids, entries), base)
  {
    if ids != [] {
      assert SettledOf(s.ledger + entries) == SettledOf(s.ledger) + SettledOf(entries);
      TotalsAppend(SettledOf(s.ledger), SettledOf(entries));
    }
  }

  lemma {:induction false} SweepTotals(s: State, ids: seq<string>, base: Tally)
    requires TotalsKept(s, base)
    requires Sweepable(s, ids)
    ensures TotalsKept(Swept(s, ids), base)
  {
    if ids != [] {
      var n := |ids| - 1;
      SweepTotals(s, ids[..n], base);
      var t, id := Swept(s, ids[..n]), ids[n];
      BookTotals(t, [id], EntriesSwept(t, id), base);
    }
  }

  // ----- orders -----

  function OrdersLogged(logged: seq<Fill>): (r: seq<Order>)
    ensures |r| == |logged|
  {
    seq(|logged|, i requires 0 <= i < |logged| => logged[i].order)
  }

  function OrdersGraded(ledger: seq<Entry>): (r: seq<Order>)
    ensures |r| == |ledger|
  {
    seq(|ledger|, i requires 0 <= i < |ledger| => ledger[i].settled.order)
  }

  predicate IsPending(s: State, o: Order) {
    o.orderId in s.orders && s.orders[o.orderId].order == o
  }

  /** The pending hash is keyed by order id and holds accepted fills only. */
  ghost predicate KeysOk(s: State) {
    forall id :: id in s.orders ==> s.orders[id].order.orderId == id && s.orders[id] in s.logged
  }

  /** The accepted orders, counted with repetition, are the graded ones and the pending ones. */
  ghost predicate Balanced(s: State) {
    && |s.logged| == |s.ledger| + |s.orders|
    && forall o: Order ::
         multiset(OrdersLogged(s.logged))[o]
           == multiset(OrdersGraded(s.ledger))[o] + if IsPending(s, o) then 1 else 0
  }

  /** How many accepted orders are neither graded nor pending. */
  function Lost(s: State): int {
    |s.logged| - |s.ledger| - |s.orders|
  }

  lemma {:induction false} BatchCount(orders: map<string, Fill>, ids: seq<string>, o: Order)
    requires forall i :: 0 <= i < |ids| ==> ids[i] in orders && orders[ids[i]].order.orderId == ids[i]
    requires forall i, j :: 0 <= i < j < |ids| ==> ids[i] != ids[j]
    ensures multiset(OrdersOf(orders, ids))[o]
      == if o.orderId in ids && orders[o.orderId].order == o then 1 else 0
  {
    if ids != [] {
      var n := |ids| - 1;
      BatchCount(orders, ids[..n], o);
      assert ids == ids[..n] + [ids[n]];
      assert OrdersOf(orders, ids) == OrdersOf(orders, ids[..n]) + [orders[ids[n]].order];
    }
  }

  lemma {:induction false} DistinctIds(ids: seq<string>)
    requires forall i, j :: 0 <= i < j < |ids| ==> ids[i] != ids[j]
    ensures |set id | id in ids| == |ids|
  {
    if ids != [] {
      var n := |ids| - 1;
      DistinctIds(ids[..n]);
      assert ids == ids[..n] + [ids[n]];
      assert (set id | id in ids) == (set id | id in ids[..n]) + {ids[n]};
    }
  }

  lemma BookLost(s: State, ids: seq<string>, entries: seq<Entry>)
    requires |ids| == |entries| && forall i :: 0 <= i < |ids| ==> ids[i] in s.orders
    requires forall i, j :: 0 <= i < j < |ids| ==> ids[i] != ids[j]
    ensures Lost(Booked(s, ids, entries)) == Lost(s)
  {
    if ids != [] {
      var gone := set id | id in ids;
      DistinctIds(ids);
      var left := s.orders - gone;
      assert left.Keys == s.orders.Keys - gone && gone <= s.orders.Keys;
      assert |left| == |left.Keys| && |s.orders| == |s.orders.Keys|;
      assert |s.orders.Keys - gone| == |s.orders.Keys| - |gone|;
    }
  }

  /** A graded batch moves each of its orders from pending to graded. */
  lemma BookCount(s: State, ids: seq<string>, entries: seq<Entry>, o: Order)
    requires KeysOk(s) && |ids| == |entries| && ids != []
    requires forall i, j :: 0 <= i < j < |ids| ==> ids[i] != ids[j]
    requires forall i :: 0 <= i < |ids| ==> ids[i] in s.orders && entries[i].settled.order == s.orders[ids[i]].order
    ensures var t := Booked(s, ids, entries);
            multiset(OrdersGraded(t.ledger))[o] + (if IsPending(t, o) then 1 else 0)
            == multiset(OrdersGraded(s.ledger))[o] + if IsPending(s, o) then 1 else 0
  {
    var t := Booked(s, ids, entries);
    assert OrdersGraded(t.ledger) == OrdersGraded(s.ledger) + OrdersGraded(entries);
    assert OrdersGraded(entries) == OrdersOf(s.orders, ids);
    BatchCount(s.orders, ids, o);
    assert IsPending(t, o) <==> IsPending(s, o) && o.orderId !in ids;
  }

  lemma BookBalanced(s: State, ids: seq<string>, entries: seq<Entry>)
    requires KeysOk(s) && Balanced(s) && |ids| == |entries|
    requires forall i, j :: 0 <= i < j < |ids| ==> ids[i] != ids[j]
    requires forall i :: 0 <= i < |ids| ==> ids[i] in s.orders && entries[i].settled.order == s.orders[ids[i]].order
    ensures Balanced(Booked(s, ids, entries))
  {
    if ids != [] {
      BookLost(s, ids, entries);
      forall o: Order {
        BookCount(s, ids, entries, o);
      }
    }
  }

  lemma SweptOneBalanced(s: State, id: string)
    requires KeysOk(s) && Balanced(s) && id in s.orders && s.orders[id].matchId in s.matches
    ensures KeysOk(SweptOne(s, id)) && Balanced(SweptOne(s, id))
  {
    BookBalanced(s, [id], EntriesSwept(s, id));
  }

  lemma SweptOneLost(s: State, id: string)
    requires id in s.orders && s.orders[id].matchId in s.matches
    ensures Lost(SweptOne(s, id)) == Lost(s)
  {
    BookLost(s, [id], EntriesSwept(s, id));
  }

  lemma {:induction false} SweepBalanced(s: State, ids: seq<string>)
    requires KeysOk(s) && Balanced(s) && Sweepable(s, ids)
    ensures KeysOk(Swept(s, ids)) && Balanced(Swept(s, ids))
  {
    if ids != [] {
      var n := |ids| - 1;
      SweepBalanced(s, ids[..n]);
      SweptOneBalanced(Swept(s, ids[..n]), ids[n]);
    }
  }

  lemma {:induction false} SweepLost(s: State, ids: seq<string>)
    requires Sweepable(s, ids)
    ensures Lost(Swept(s, ids)) == Lost(s)
  {
    if ids != [] {
      var n := |ids| - 1;
      SweepLost(s, ids[..n]);
      SweptOneLost(Swept(s, ids[..n]), ids[n]);
    }
  }

  /** An accepted order whose id a pending order already has: the hash forgets the pending one. */
  predicate Overwrites(s: State, e: Event) {
    e.Place? && e.payload.amount > 0.0 && e.id in s.orders
  }

  lemma PutSize(orders: map<string, Fill>, id: string, f: Fill)
    ensures |orders[id := f]| == |orders| + if id in orders then 0 else 1
  {
    assert orders[id := f].Keys == orders.Keys + {id};
    assert |orders[id := f]| == |orders[id := f].Keys| && |orders| == |orders.Keys|;
  }

  lemma PlaceBalanced(s: State, id: string, payload: Payload)
    requires Balanced(s) && !Overwrites(s, Place(id, payload))
    ensures Balanced(Step(s, Place(id, payload)))
  {
    var t := Step(s, Place(id, payload));
    if payload.amount > 0.0 {
      assert OrdersLogged(t.logged) == OrdersLogged(s.logged) + [FillFor(id, payload).order];
      PutSize(s.orders, id, FillFor(id, payload));
      forall o: Order
        ensures multiset(OrdersLogged(t.logged))[o]
          == multiset(OrdersGraded(t.ledger))[o] + if IsPending(t, o) then 1 else 0
      {
        assert multiset(OrdersLogged(t.logged))[o]
          == multiset(OrdersLogged(s.logged))[o] + if o == FillFor(id, payload).order then 1 else 0;
        assert IsPending(t, o) <==> IsPending(s, o) || o == FillFor(id, payload).order;
      }
    }
  }

  lemma PlaceLost(s: State, id: string, payload: Payload)
    ensures Lost(Step(s, Place(id, payload))) == Lost(s) + if Overwrites(s, Place(id, payload)) then 1 else 0
  {
    var t := Step(s, Place(id, payload));
    if payload.amount > 0.0 {
      PutSize(s.orders, id, FillFor(id, payload));
    }
  }

  /** A step loses an accepted order exactly when it overwrites a pending one. */
  lemma StepLost(s: State, e: Event)
    requires Enabled(s, e)
    ensures Lost(Step(s, e)) == Lost(s) + if Overwrites(s, e) then 1 else 0
  {
    match e {
      case Deliver(ids) =>
        var m := s.queue[0];
        if Grades(m) {
          BookLost(s.(queue := s.queue[1..]), ids,
            EntriesFor(s.orders, ids, m.matchId, m.score.value, "feed_ft", true));
        }
      case Sweep(_, ids) => SweepLost(s, ids);
      case Place(id, payload) => PlaceLost(s, id, payload);
      case _ =>
    }
  }

  lemma StepBalanced(s: State, e: Event)
    requires KeysOk(s) && Balanced(s) && Enabled(s, e) && !Overwrites(s, e)
    ensures Balanced(Step(s, e))
  {
    match e {
      case Deliver(ids) =>
        var m := s.queue[0];
        if Grades(m) {
          BookBalanced(s.(queue := s.queue[1..]), ids,
            EntriesFor(s.orders, ids, m.matchId, m.score.value, "feed_ft", true));
        }
      case Sweep(_, ids) => SweepBalanced(s, ids);
      case Place(id, payload) => PlaceBalanced(s, id, payload);
      case _ =>
    }
  }

  // ----- no fabricated results -----

  /**
   The result rests on a full-time frame published for the entry's match, which
   is the match of the accepted fill if that has one.
   */
  ghost predicate Backed(s: State, e: Entry) {
    && Message("FULLTIME", e.matchId, Some(e.score)) in s.published
    && e.settled == Graded(e.settled.order, e.score.home as real, e.score.away as real, e.settled.source, true)
    && (exists k :: 0 <= k < |s.logged| && s.logged[k].order == e.settled.order
                    && s.logged[k].matchId in {"", e.matchId})
  }

  /** A sweep without a recorded full-time frame returns the stake and moves no money. */
  ghost predicate Returned(e: Entry) {
    e.settled.result == Unresolved && e.settled.pnl == 0 && !e.settled.verified && e.settled.source == "stale_sweep"
  }

  ghost predicate Honest(s: State) {
    && (forall i :: 0 <= i < |s.queue| ==> s.queue[i] in s.published)
    && (forall id :: id in s.matches ==> s.matches[id].matchId == id && MessageOf(s.matches[id]) in s.published)
    && (forall i :: 0 <= i < |s.ledger| ==> Backed(s, s.ledger[i]) || Returned(s.ledger[i]))
  }

  lemma {:induction false} SweepHonest(s: State, ids: seq<string>)
    requires Honest(s) && KeysOk(s)
    requires Sweepable(s, ids)
    ensures Honest(Swept(s, ids)) && KeysOk(Swept(s, ids))
    ensures Swept(s, ids).published == s.published && Swept(s, ids).logged == s.logged && Swept(s, ids).queue == s.queue
  {
    if ids != [] {
      var n := |ids| - 1;
      SweepHonest(s, ids[..n]);
      var t := Swept(s, ids[..n]);
      assert ids[n] in t.orders;
      SweptOneHonest(t, ids[n]);
    }
  }

  lemma SweptOneHonest(s: State, id: string)
    requires Honest(s) && KeysOk(s) && id in s.orders && s.orders[id].matchId in s.matches
    ensures Honest(SweptOne(s, id))
  {
    SweptEntry(s, id);
    CarryEntries(s, SweptOne(s, id));
  }

  /** The one entry a sweep step writes. */
  lemma SweptEntry(s: State, id: string)
    requires Honest(s) && KeysOk(s) && id in s.orders && s.orders[id].matchId in s.matches
    ensures var u := SweptOne(s, id);
            && |u.ledger| == |s.ledger| + 1
            && (Backed(u, u.ledger[|s.ledger|]) <==> s.matches[s.orders[id].matchId].clock == "FULLTIME")
            && (Returned(u.ledger[|s.ledger|]) <==> s.matches[s.orders[id].matchId].clock != "FULLTIME")
  {
    var m := s.matches[s.orders[id].matchId];
    var e := SweptOne(s, id).ledger[|s.ledger|];
    var k :| 0 <= k < |s.logged| && s.logged[k] == s.orders[id];
    if m.clock == "FULLTIME" {
      assert MessageOf(m) == Message("FULLTIME", e.matchId, Some(e.score));
    } else {
      RoundWhole(0);
    }
  }

  lemma CarryBacked(s: State, t: State, e: Entry)
    requires Backed(s, e) && s.logged <= t.logged
    requires forall m :: m in s.published ==> m in t.published
    ensures Backed(t, e)
  {
    var k :| 0 <= k < |s.logged| && s.logged[k].order == e.settled.order && s.logged[k].matchId in {"", e.matchId};
    assert t.logged[k] == s.logged[k];
  }

  /** Earlier entries stay honest as long as nothing published or logged is forgotten. */
  lemma CarryEntries(s: State, t: State)
    requires Honest(s) && s.ledger <= t.ledger && s.logged <= t.logged
    requires forall m :: m in s.published ==> m in t.published
    ensures forall i :: 0 <= i < |s.ledger| ==> Backed(t, t.ledger[i]) || Returned(t.ledger[i])
  {
    forall i | 0 <= i < |s.ledger|
      ensures Backed(t, t.ledger[i]) || Returned(t.ledger[i])
    {
      assert t.ledger[i] == s.ledger[i];
      if Backed(s, s.ledger[i]) {
        CarryBacked(s, t, s.ledger[i]);
      }
    }
  }

  lemma DeliverHonest(s: State, ids: seq<string>)
    requires Honest(s) && KeysOk(s) && Enabled(s, Deliver(ids))
    ensures Honest(Delivered(s, ids))
  {
    var m, t := s.queue[0], Delivered(s, ids);
    CarryEntries(s, t);
    forall i | |s.ledger| <= i < |t.ledger|
      ensures Backed(t, t.ledger[i])
    {
      var id := ids[i - |s.ledger|];
      assert id in MatchedIds(s.orders, m);
      var k :| 0 <= k < |s.logged| && s.logged[k] == s.orders[id];
      assert m == Message("FULLTIME", m.matchId, Some(m.score.value));
    }
  }

  lemma StepHonest(s: State, e: Event)
    requires Honest(s) && KeysOk(s) && Enabled(s, e)
    ensures Honest(Step(s, e)) && KeysOk(Step(s, e))
  {
    match e {
      case Deliver(ids) => DeliverHonest(s, ids);
      case Sweep(nowMs, ids) => SweepHonest(s, ids);
      case Place(_, _) => CarryEntries(s, Step(s, e));
      case Publish(_) => CarryEntries(s, Step(s, e));
      case Expire(_) => CarryEntries(s, Step(s, e));
      case Lose => CarryEntries(s, Step(s, e));
      case Trim(_) => CarryEntries(s, Step(s, e));
    }
  }

  // ----- the main results -----

  /** Something was trimmed only if at least the cap is still readable. */
  ghost predicate StreamOk(s: State) {
    s.trimmed == 0 || s.trimmed + TRIM_CAP <= |s.ledger|
  }

  /** What holds in every state, whatever ids orders get: money, stream and honesty. */
  ghost predicate Sound(s: State, base: Tally) {
    KeysOk(s) && TotalsKept(s, base) && StreamOk(s) && Honest(s)
  }

  lemma {:induction false} SweepGrows(s: State, ids: seq<string>)
    requires Sweepable(s, ids)
    ensures s.ledger <= Swept(s, ids).ledger && Swept(s, ids).trimmed == s.trimmed
  {
    if ids != [] {
      SweepGrows(s, ids[..|ids| - 1]);
    }
  }

  lemma StepGrows(s: State, e: Event)
    requires Enabled(s, e)
    ensures s.ledger <= Step(s, e).ledger && s.trimmed <= Step(s, e).trimmed
    ensures StreamOk(s) ==> StreamOk(Step(s, e))
  {
    if e.Sweep? {
      SweepGrows(s, e.ids);
    }
  }

  lemma StepTotals(s: State, e: Event, base: Tally)
    requires TotalsKept(s, base) && Enabled(s, e)
    ensures TotalsKept(Step(s, e), base)
  {
    match e {
      case Deliver(ids) =>
        var m := s.queue[0];
        if Grades(m) {
          BookTotals(s.(queue := s.queue[1..]), ids,
            EntriesFor(s.orders, ids, m.matchId, m.score.value, "feed_ft", true), base);
        }
      case Sweep(_, ids) => SweepTotals(s, ids, base);
      case _ =>
    }
  }

  /** No step of the run gives an order the id of a pending one. */
  ghost predicate Careful(s: State, events: seq<Event>)
    requires Run(s, events)
    decreases events
  {
    events == [] || (!Overwrites(s, events[0]) && Careful(Step(s, events[0]), events[1..]))
  }

  lemma {:induction false} RunSound(s: State, events: seq<Event>, base: Tally)
    requires Sound(s, base) && Run(s, events)
    ensures Sound(After(s, events), base)
    decreases events
  {
    if events != [] {
      StepTotals(s, events[0], base);
      StepGrows(s, events[0]);
      StepHonest(s, events[0]);
      RunSound(Step(s, events[0]), events[1..], base);
    }
  }

  lemma {:induction false} RunLost(s: State, events: seq<Event>)
    requires Run(s, events)
    ensures Lost(s) <= Lost(After(s, events))
    decreases events
  {
    if events != [] {
      StepLost(s, events[0]);
      RunLost(Step(s, events[0]), events[1..]);
    }
  }

  /** Orders are conserved over a run exactly when no id is reused while its order is pending. */
  lemma {:induction false} RunBalanced(s: State, events: seq<Event>)
    requires KeysOk(s) && Honest(s) && Balanced(s) && Run(s, events)
    ensures Balanced(After(s, events)) <==> Careful(s, events)
    decreases events
  {
    if events != [] {
      var e, t := events[0], Step(s, events[0]);
      StepLost(s, e);
      if Overwrites(s, e) {
        RunLost(t, events[1..]);
      } else {
        StepBalanced(s, e);
        StepHonest(s, e);
        RunBalanced(t, events[1..]);
      }
    }
  }

  /**
   Over every run from an empty store, whatever totals the PnL hash already
   holds, money is conserved and no result is fabricated; and every accepted
   order is pending or graded, counted exactly, if and only if no order gets the
   id of a pending one.
   */
  lemma PaperTradingSafe(events: seq<Event>, base: Tally)
    requires Run(Initial(base), events)
    ensures Sound(After(Initial(base), events), base)
    ensures Balanced(After(Initial(base), events)) <==> Careful(Initial(base), events)
  {
    RunSound(Initial(base), events, base);
    RunBalanced(Initial(base), events);
  }

  /** Two accepted orders under one id, the first still pending: the first is gone. */
  lemma ReusedIdLosesOrder(id: string, p: Payload, q: Payload, base: Tally)
    requires p.amount > 0.0 && q.amount > 0.0
    ensures Run(Initial(base), [Place(id, p), Place(id, q)])
    ensures !Balanced(After(Initial(base), [Place(id, p), Place(id, q)]))
  {
    var events := [Place(id, p), Place(id, q)];
    assert events[1..] == [Place(id, q)] && events[1..][1..] == [];
    assert !Careful(Step(Initial(base), events[0]), events[1..]);
    RunBalanced(Initial(base), events);
  }

  ghost predicate UniqueIds(s: State) {
    forall i, j :: 0 <= i < j < |s.logged| ==> s.logged[i].order.orderId != s.logged[j].order.orderId
  }

  lemma {:induction false} CountAtMostOne(orders: seq<Order>, o: Order)
    requires forall i, j :: 0 <= i < j < |orders| ==> orders[i].orderId != orders[j].orderId
    ensures multiset(orders)[o] <= 1
  {
    if orders != [] {
      var n := |orders| - 1;
      CountAtMostOne(orders[..n], o);
      assert orders == orders[..n] + [orders[n]];
      assert orders[n] !in orders[..n];
      assert multiset(orders)[o] == multiset(orders[..n])[o] + if orders[n] == o then 1 else 0;
    }
  }

  lemma CountTwice(orders: seq<Order>, i: nat, j: nat)
    requires i < j < |orders| && orders[i] == orders[j]
    ensures multiset(orders)[orders[i]] >= 2
  {
    var a, b := orders[..j], orders[j..];
    assert orders == a + b;
    assert a[i] == orders[i] && b[0] == orders[i];
    assert multiset(a)[orders[i]] >= 1 && multiset(b)[orders[i]] >= 1;
  }

  /** With unique ids that means: each accepted order is pending, or in the ledger exactly once, and never both. */
  lemma ExactlyOnce(s: State, k: nat)
    requires KeysOk(s) && Balanced(s) && UniqueIds(s) && k < |s.logged|
    ensures var o := s.logged[k].order;
            && (IsPending(s, o) <==> o !in OrdersGraded(s.ledger))
            && (forall i, j :: 0 <= i < j < |s.ledger| && s.ledger[i].settled.order == o ==>
                  s.ledger[j].settled.order != o)
  {
    var o, logged, graded := s.logged[k].order, OrdersLogged(s.logged), OrdersGraded(s.ledger);
    CountAtMostOne(logged, o);
    assert logged[k] == o && multiset(logged)[o] >= 1;
    forall i, j | 0 <= i < j < |s.ledger| && s.ledger[i].settled.order == o
      ensures s.ledger[j].settled.order != o
    {
      if s.ledger[j].settled.order == o {
        assert graded[i] == graded[j];
        CountTwice(graded, i, j);
      }
    }
  }

  /** The ledger only grows and the stream is its readable end: no graded order is rewritten, only trimmed away. */
  lemma {:induction false} LedgerGrows(s: State, events: seq<Event>)
    requires Run(s, events)
    ensures s.ledger <= After(s, events).ledger && s.trimmed <= After(s, events).trimmed
    decreases events
  {
    if events != [] {
      StepGrows(s, events[0]);
      LedgerGrows(Step(s, events[0]), events[1..]);
    }
  }

  /** A second full-time frame of the same match pays nothing. */
  lemma RepeatedFullTimePaysNothing(s: State, first: seq<string>, second: seq<string>)
    requires Enabled(s, Deliver(first)) && Grades(s.queue[0])
    requires Enabled(Delivered(s, first), Deliver(second)) && Grades(Delivered(s, first).queue[0])
    requires s.queue[0].matchId == Delivered(s, first).queue[0].matchId
    ensures var t, u := Delivered(s, first), Delivered(Delivered(s, first), second);
            u == t.(queue := t.queue[1..])
  {
    var t := Delivered(s, first);
    forall id | id in t.orders
      ensures id !in MatchedIds(t.orders, t.queue[0])
    {
      assert id in s.orders && id !in first;
      assert id !in MatchedIds(s.orders, s.queue[0]);
    }
    assert MatchedIds(t.orders, t.queue[0]) == {};
  }

  /**
   What the next message does to one pending order: a full-time frame with a
   score grades it on that score exactly when the order names the frame's match
   or none, and in every other case the order stays pending as it is.
   */
  lemma FullTimeDecides(s: State, ids: seq<string>, id: string)
    requires Enabled(s, Deliver(ids)) && id in s.orders
    ensures var t, m, f := Step(s, Deliver(ids)), s.queue[0], s.orders[id];
      && (id !in t.orders <==>
            m.clock == "FULLTIME" && m.score.Some? && (f.matchId == "" || f.matchId == m.matchId))
      && (id in t.orders ==> t.orders[id] == f)
      && (id !in t.orders ==>
            Entry(Graded(f.order, m.score.value.home as real, m.score.value.away as real, "feed_ft", true),
                  m.matchId, m.score.value) in t.ledger[|s.ledger|..])
      && |t.ledger| + |t.orders| == |s.ledger| + |s.orders|
  {
    var m, t := s.queue[0], Delivered(s, ids);
    if Grades(m) {
      var entries := EntriesFor(s.orders, ids, m.matchId, m.score.value, "feed_ft", true);
      assert t.ledger[|s.ledger|..] == entries;
      if id in MatchedIds(s.orders, m) {
        var i :| 0 <= i < |ids| && ids[i] == id;
        assert entries[i] in entries;
      }
      BookLost(s.(queue := s.queue[1..]), ids, entries);
    }
  }

  // ----- what the sweep takes -----

  lemma SweptAppends(s: State, ids: seq<string>)
    requires Sweepable(s, ids) && ids != []
    ensures var n := |ids| - 1;
            Swept(s, ids).ledger == Swept(s, ids[..n]).ledger + [EntriesSwept(s, ids[n])[0]]
  {
    var n := |ids| - 1;
    assert ids[n] !in ids[..n];
    var t := Swept(s, ids[..n]);
    assert EntriesSwept(t, ids[n])[0] == EntriesSwept(s, ids[n])[0];
  }

  /** What a sweep writes for each order, each against the recorded match. */
  function SweptEntries(s: State, ids: seq<string>): (r: seq<Entry>)
    requires Sweepable(s, ids)
    ensures |r| == |ids|
  {
    seq(|ids|, i requires 0 <= i < |ids| => EntriesSwept(s, ids[i])[0])
  }

  lemma {:induction false} SweptLedger(s: State, ids: seq<string>)
    requires Sweepable(s, ids)
    ensures Swept(s, ids).ledger == s.ledger + SweptEntries(s, ids)
  {
    if ids != [] {
      var n := |ids| - 1;
      SweptAppends(s, ids);
      SweptLedger(s, ids[..n]);
      SweptEntriesNext(s, ids, n);
    }
  }

  lemma SweptEntriesNext(s: State, ids: seq<string>, n: nat)
    requires Sweepable(s, ids) && |ids| == n + 1
    ensures SweptEntries(s, ids) == SweptEntries(s, ids[..n]) + [EntriesSwept(s, ids[n])[0]]
  {}

  lemma SweptIsWritten(s: State, ids: seq<string>, id: string)
    requires Sweepable(s, ids) && id in ids
    ensures var t, m := Swept(s, ids), s.matches[s.orders[id].matchId];
      && |s.ledger| <= |t.ledger|
      && Entry(Graded(s.orders[id].order, m.score.home as real, m.score.away as real, "stale_sweep",
                      m.clock == "FULLTIME"), s.orders[id].matchId, m.score) in t.ledger[|s.ledger|..]
  {
    var i :| 0 <= i < |ids| && ids[i] == id;
    SweptLedger(s, ids);
    assert Swept(s, ids).ledger[|s.ledger|..] == SweptEntries(s, ids);
    assert SweptEntries(s, ids)[i] == EntriesSwept(s, id)[0];
  }

  /** A recorded instant in ms lies more than three hours, 10800000 ms, before now. */
  ghost predicate Past(instant: int, nowMs: int) {
    instant > 0 && instant + 10_800_000 < nowMs
  }

  /**
   What a sweep does to one pending order: it is graded against the recorded
   match exactly when the match is recorded and its kickoff, in seconds, or its
   last frame, in milliseconds, lies more than three hours back; otherwise the
   order stays pending as it is.
   */
  lemma SweepDecides(s: State, nowMs: int, ids: seq<string>, id: string)
    requires Enabled(s, Sweep(nowMs, ids)) && id in s.orders
    ensures var t, f := Step(s, Sweep(nowMs, ids)), s.orders[id];
      && (id !in t.orders <==>
            && f.matchId != "" && f.matchId in s.matches
            && (Past(1000 * s.matches[f.matchId].kickoff, nowMs) || Past(s.matches[f.matchId].receivedAt, nowMs)))
      && (id in t.orders ==> t.orders[id] == f)
      && |s.ledger| <= |t.ledger|
      && (id !in t.orders ==>
            var m := s.matches[f.matchId];
            Entry(Graded(f.order, m.score.home as real, m.score.away as real, "stale_sweep", m.clock == "FULLTIME"),
                  f.matchId, m.score) in t.ledger[|s.ledger|..])
      && |t.ledger| + |t.orders| == |s.ledger| + |s.orders|
  {
    SweepLost(s, ids);
    SweepLogs(s, ids);
    SweepGrows(s, ids);
    assert id in ids <==> Stale(s.orders[id], s.matches, nowMs);
    if id in ids {
      SweptIsWritten(s, ids, id);
    }
  }

  lemma {:induction false} SweepLogs(s: State, ids: seq<string>)
    requires Sweepable(s, ids)
    ensures Swept(s, ids).logged == s.logged
  {
    if ids != [] {
      SweepLogs(s, ids[..|ids| - 1]);
    }
  }

  /** The match played d seconds later. */
  function Later(m: Match, d: int): Match {
    m.(kickoff := m.kickoff + d, receivedAt := m.receivedAt + 1000 * d)
  }

  /** The sweep takes the same orders whenever the matches are played, as long as the recorded times stay positive. */
  lemma SweepAnyDay(s: State, t: State, nowMs: int, d: int, ids: seq<string>)
    requires t.orders == s.orders && t.matches.Keys == s.matches.Keys
    requires forall k :: k in s.matches ==>
      && t.matches[k] == Later(s.matches[k], d)
      && (s.matches[k].kickoff > 0 <==> t.matches[k].kickoff > 0)
      && (s.matches[k].receivedAt > 0 <==> t.matches[k].receivedAt > 0)
    ensures Enabled(s, Sweep(nowMs, ids)) <==> Enabled(t, Sweep(nowMs + 1000 * d, ids))
  {
    forall id | id in s.orders
      ensures Stale(s.orders[id], s.matches, nowMs) <==> Stale(t.orders[id], t.matches, nowMs + 1000 * d)
    {
    }
    assert StaleIds(s, nowMs) == StaleIds(t, nowMs + 1000 * d);
  }

  // ----- what is recorded and what is delivered -----

  /** Since then no frame of the match was published and its record did not expire. */
  ghost predicate Undisturbed(events: seq<Event>, matchId: string) {
    forall i :: 0 <= i < |events| ==>
      && (events[i].Publish? ==> events[i].m.matchId != matchId)
      && (events[i].Expire? ==> events[i].matchId != matchId)
  }

  lemma {:induction false} StaysRecorded(s: State, events: seq<Event>, matchId: string)
    requires Run(s, events) && Undisturbed(events, matchId)
    ensures matchId in s.matches <==> matchId in After(s, events).matches
    ensures matchId in s.matches ==> After(s, events).matches[matchId] == s.matches[matchId]
    decreases events
  {
    if events != [] {
      assert events[0].Publish? ==> events[0].m.matchId != matchId;
      assert events[0].Expire? ==> events[0].matchId != matchId;
      StaysRecorded(Step(s, events[0]), events[1..], matchId);
    }
  }

  /** The hash holds the last frame published for a match until it expires. */
  lemma LastFrameRecorded(s: State, m: Match, events: seq<Event>)
    requires Run(Step(s, Publish(m)), events) && Undisturbed(events, m.matchId)
    ensures var t := After(Step(s, Publish(m)), events); m.matchId in t.matches && t.matches[m.matchId] == m
  {
    StaysRecorded(Step(s, Publish(m)), events, m.matchId);
  }

  /** Once it has expired a match is unrecorded until its next frame. */
  lemma ExpiredForgotten(s: State, matchId: string, events: seq<Event>)
    requires Run(Step(s, Expire(matchId)), events) && Undisturbed(events, matchId)
    ensures matchId !in After(Step(s, Expire(matchId)), events).matches
  {
    StaysRecorded(Step(s, Expire(matchId)), events, matchId);
  }

  function SentBy(e: Event): seq<Message> {
    if e.Publish? then [Message(e.m.clock, e.m.matchId, Some(e.m.score))] else []
  }

  function ConsumedBy(e: Event): nat {
    if e.Deliver? || e.Lose? then 1 else 0
  }

  /** The frames a run publishes, as messages. */
  function Sent(events: seq<Event>): seq<Message> {
    if events == [] then [] else SentBy(events[0]) + Sent(events[1..])
  }

  /** How many messages a run delivers or loses. */
  function Consumed(events: seq<Event>): nat {
    if events == [] then 0 else ConsumedBy(events[0]) + Consumed(events[1..])
  }

  lemma StepQueue(s: State, e: Event)
    requires Enabled(s, e)
    ensures ConsumedBy(e) <= |s.queue| && Step(s, e).queue == s.queue[ConsumedBy(e)..] + SentBy(e)
  {
    if e.Sweep? {
      SweepQueue(s, e.ids);
    }
  }

  lemma {:induction false} SweepQueue(s: State, ids: seq<string>)
    requires Sweepable(s, ids)
    ensures Swept(s, ids).queue == s.queue
  {
    if ids != [] {
      SweepQueue(s, ids[..|ids| - 1]);
    }
  }

  lemma Rest(q: seq<Message>, n: nat, one: seq<Message>, m: nat, more: seq<Message>, last: seq<Message>)
    requires n <= |q| && m <= |(q[n..] + one) + more| && last == ((q[n..] + one) + more)[m..]
    ensures n + m <= |q + (one + more)| && last == (q + (one + more))[n + m..]
  {
    var all := q + (one + more);
    assert (q[n..] + one) + more == all[n..];
    assert all[n..][m..] == all[n + m..];
  }

  lemma {:induction false} QueueIsUnread(s: State, events: seq<Event>)
    requires Run(s, events)
    ensures Consumed(events) <= |s.queue + Sent(events)|
    ensures After(s, events).queue == (s.queue + Sent(events))[Consumed(events)..]
    decreases events
  {
    if events != [] {
      var t := Step(s, events[0]);
      StepQueue(s, events[0]);
      QueueIsUnread(t, events[1..]);
      QueueJoins(s.queue, t.queue, events, After(t, events[1..]).queue);
    }
  }

  lemma QueueJoins(q: seq<Message>, next: seq<Message>, events: seq<Event>, last: seq<Message>)
    requires events != [] && ConsumedBy(events[0]) <= |q|
    requires next == q[ConsumedBy(events[0])..] + SentBy(events[0])
    requires Consumed(events[1..]) <= |next + Sent(events[1..])|
    requires last == (next + Sent(events[1..]))[Consumed(events[1..])..]
    ensures Consumed(events) <= |q + Sent(events)| && last == (q + Sent(events))[Consumed(events)..]
  {
    var n, one, m, more := ConsumedBy(events[0]), SentBy(events[0]), Consumed(events[1..]), Sent(events[1..]);
    Rest(q, n, one, m, more, last);
    assert Sent(events) == one + more && Consumed(events) == n + m;
  }

  /** Over every run the channel holds the published frames in order, less those delivered or lost. */
  lemma DeliveredInOrder(events: seq<Event>, base: Tally)
    requires Run(Initial(base), events)
    ensures Consumed(events) <= |Sent(events)|
    ensures After(Initial(base), events).queue == Sent(events)[Consumed(events)..]
  {
    QueueIsUnread(Initial(base), events);
    assert [] + Sent(events) == Sent(events);
  }

  // ----- the broker object -----

  /** The broker together with the Redis keys it shares with the ingestor. */
  class PaperBroker {
    var orders: map<string, Fill>
    var matches: map<string, Match>
    var queue: seq<Message>
    var pnl: Tally
    var session: Tally
    var cycle: int
    var stream: seq<Entry>
    ghost var gone: seq<Entry>
    ghost var logged: seq<Fill>
    ghost var published: seq<Message>

    ghost function Now(): State
      reads this
    {
      State(orders, matches, queue, pnl, session, cycle, gone + stream, |gone|, logged, published)
    }

    constructor (pnl: Tally)
      ensures Now() == Initial(pnl)
    {
      this.pnl := pnl;
      orders, matches, queue, session, cycle, stream := map[], map[], [], NOTHING, 0, [];
      gone, logged, published := [], [], [];
    }

    /** The ingestor's write: the last frame per match wins, and the frame goes out on the channel. */
    method PublishMatch(m: Match)
      modifies this
      ensures Now() == Step(old(Now()), Publish(m))
    {
      matches := matches[m.matchId := m];
      queue := queue + [Message(m.clock, m.matchId, Some(m.score))];
      published := published + [MessageOf(m)];
    }

    /** Fill at degraded odds and log the fill with its match id; a non-positive stake is rejected. */
    method ExecuteEnvelope(id: string, payload: Payload) returns (ok: bool)
      modifies this
      ensures Now() == Step(old(Now()), Place(id, payload))
      ensures ok <==> payload.amount > 0.0
    {
      if payload.amount <= 0.0 {
        return false;
      }
      var price := payload.odds - payload.odds * SLIPPAGE;
      var fill := Fill(Order(id, payload.market, payload.side, price, payload.amount), payload.matchId);
      orders := orders[id := fill];
      logged := logged + [fill];
      return true;
    }

    method PersistSession(settled: seq<SettledOrder>)
      modifies this`pnl, this`session
      ensures pnl == Plus(old(pnl), Totals(settled)) && session == Plus(old(session), Totals(settled))
    {
      if settled == [] {
        return;
      }
      var delta := SettlementTotals(settled);
      session := Tally(session.net + delta.net, session.won + delta.won,
                       session.lost + delta.lost, session.void + delta.void);
      pnl := Tally(pnl.net + delta.net, pnl.won + delta.won, pnl.lost + delta.lost, pnl.void + delta.void);
    }

    /** Append one entry; above the cap Redis may trim any number of the oldest entries down to it. */
    method Append(e: Entry) returns (ghost n: nat)
      modifies this`stream, this`gone
      ensures gone + stream == old(gone + stream) + [e] && |gone| == |old(gone)| + n
      ensures n > 0 ==> |stream| >= TRIM_CAP
    {
      var grown := stream + [e];
      var excess := if |grown| > TRIM_CAP then |grown| - TRIM_CAP else 0;
      var drop: nat :| drop <= excess;
      assert gone + grown == (gone + grown[..drop]) + grown[drop..];
      gone := gone + grown[..drop];
      stream := grown[drop..];
      n := drop;
    }

    /** The batch goes to the end of the stream, one append an order. */
    method RecordSettlements(matchId: string, score: Score, settled: seq<SettledOrder>) returns (ghost n: nat)
      modifies this`stream, this`gone
      ensures gone + stream == old(gone + stream) + EntriesOf(settled, matchId, score)
      ensures |gone| == |old(gone)| + n && (n > 0 ==> |stream| >= TRIM_CAP)
    {
      n := 0;
      ghost var entries := EntriesOf(settled, matchId, score);
      for i := 0 to |settled|
        invariant gone + stream == old(gone + stream) + entries[..i]
        invariant |gone| == |old(gone)| + n && (n > 0 ==> |stream| >= TRIM_CAP)
      {
        ghost var k := Append(Entry(settled[i], matchId, score));
        assert entries[..i + 1] == entries[..i] + [entries[i]];
        n := n + k;
      }
    }

    /** The pending orders a full-time message grades, in whatever order the hash is read. */
    method CollectMatched(m: Message) returns (ids: seq<string>, batch: seq<Order>)
      ensures Lists(ids, MatchedIds(orders, m))
      ensures |batch| == |ids| && forall i :: 0 <= i < |ids| ==> batch[i] == orders[ids[i]].order
    {
      ids, batch := [], [];
      var todo := orders.Keys;
      while todo != {}
        invariant todo <= orders.Keys
        invariant Lists(ids, MatchedIds(orders, m) - todo)
        invariant |batch| == |ids| && forall i :: 0 <= i < |ids| ==> batch[i] == orders[ids[i]].order
        decreases todo
      {
        var id :| id in todo;
        todo := todo - {id};
        if orders[id].matchId != "" && orders[id].matchId != m.matchId {
          continue;
        }
        ids, batch := ids + [id], batch + [orders[id].order];
      }
    }

    /** One message of the paper loop: grade the finished match and clear the graded orders. */
    method OnMessage() returns (ids: seq<string>, ghost n: nat)
      requires queue != []
      modifies this
      ensures Run(old(Now()), [Deliver(ids), Trim(n)])
      ensures Now() == TrimmedBy(Step(old(Now()), Deliver(ids)), n)
    {
      n := 0;
      var m := queue[0];
      queue := queue[1..];
      if m.clock != "FULLTIME" || m.score.None? {
        ids := [];
        DeliverThenTrim(old(Now()), ids, n);
        return;
      }
      var batch;
      ids, batch := CollectMatched(m);
      if batch != [] {
        assert batch == OrdersOf(orders, ids);
        n := GradeBatch(ids, batch, m.matchId, m.score.value, "feed_ft", true);
      }
      DeliverThenTrim(old(Now()), ids, n);
    }

    /** Grade, persist the totals, write the ledger, and clear the graded orders. */
    method GradeBatch(ids: seq<string>, batch: seq<Order>, matchId: string, score: Score,
                      source: string, verified: bool) returns (ghost n: nat)
      requires ids != [] && |batch| == |ids|
      requires (forall i :: 0 <= i < |ids| ==> ids[i] in orders) && batch == OrdersOf(orders, ids)
      modifies this
      ensures var t := Booked(old(Now()), ids, EntriesFor(old(orders), ids, matchId, score, source, verified));
              Trimmable(t, n) && Now() == TrimmedBy(t, n)
    {
      var settled := SettleOrders(batch, score.home as real, score.away as real, source, verified);
      n := Book(matchId, score, settled);
      orders := orders - (set id | id in ids);
    }

    method Book(matchId: string, score: Score, settled: seq<SettledOrder>) returns (ghost n: nat)
      modifies this`cycle, this`pnl, this`session, this`stream, this`gone
      ensures cycle == old(cycle) + 1
      ensures pnl == Plus(old(pnl), Totals(settled)) && session == Plus(old(session), Totals(settled))
      ensures gone + stream == old(gone + stream) + EntriesOf(settled, matchId, score)
      ensures |gone| == |old(gone)| + n && (n > 0 ==> |stream| >= TRIM_CAP)
    {
      cycle := cycle + 1;
      PersistSession(settled);
      n := RecordSettlements(matchId, score, settled);
    }

    /** Every pending order of a match whose kickoff or last frame is more than three hours old, each once. */
    method CollectStale(nowMs: int) returns (ids: seq<string>)
      ensures Lists(ids, StaleIds(Now(), nowMs))
      ensures forall id :: id in ids <==>
        && id in orders && orders[id].matchId != "" && orders[id].matchId in matches
        && var m := matches[orders[id].matchId];
           Past(1000 * m.kickoff, nowMs) || Past(m.receivedAt, nowMs)
    {
      ids := [];
      var todo := orders.Keys;
      while todo != {}
        invariant todo <= orders.Keys
        invariant Lists(ids, StaleIds(Now(), nowMs) - todo)
        decreases todo
      {
        var id :| id in todo;
        todo := todo - {id};
        var f := orders[id];
        if f.matchId == "" || f.matchId !in matches {
          continue;
        }
        var m := matches[f.matchId];
        if m.kickoff > 0 && nowMs - m.kickoff * 1000 > STALE_MS {
          ids := ids + [id];
          continue;
        }
        if m.receivedAt > 0 && nowMs - m.receivedAt > STALE_MS {
          ids := ids + [id];
        }
      }
    }

    /** One tick of the safety net. */
    method SweepStale(nowMs: int) returns (ids: seq<string>, ghost n: nat)
      modifies this
      ensures Run(old(Now()), [Sweep(nowMs, ids), Trim(n)])
      ensures Now() == TrimmedBy(Step(old(Now()), Sweep(nowMs, ids)), n)
    {
      ids := CollectStale(nowMs);
      ghost var before := Now();
      n := GradeAll(ids);
      SweepThenTrim(before, nowMs, ids, n);
    }

    method GradeAll(ids: seq<string>) returns (ghost n: nat)
      requires Sweepable(Now(), ids)
      modifies this
      ensures Trimmable(Swept(old(Now()), ids), n) && Now() == TrimmedBy(Swept(old(Now()), ids), n)
    {
      n := 0;
      ghost var before := Now();
      for i := 0 to |ids|
        invariant Now() == TrimmedBy(Swept(before, ids[..i]), n)
        invariant Trimmable(Swept(before, ids[..i]), n)
      {
        var id := ids[i];
        assert ids[..i + 1][..i] == ids[..i];
        assert id in orders && orders[id] == before.orders[id];
        ghost var k := GradeStale(id);
        SweepNext(before, ids, i, n, k);
        n := n + k;
      }
      assert ids[..|ids|] == ids;
    }

    method GradeStale(id: string) returns (ghost n: nat)
      requires id in orders && orders[id].matchId in matches
      modifies this
      ensures Trimmable(SweptOne(old(Now()), id), n) && Now() == TrimmedBy(SweptOne(old(Now()), id), n)
    {
      var f := orders[id];
      var m := matches[f.matchId];
      assert [f.order] == OrdersOf(orders, [id]);
      n := GradeBatch([id], [f.order], f.matchId, m.score, "stale_sweep", m.clock == "FULLTIME");
    }
  }

  /** Trimming between the orders of a sweep is trimming after it. */
  lemma SweepNext(s: State, ids: seq<string>, i: nat, n: nat, k: nat)
    requires Sweepable(s, ids) && i < |ids| && Trimmable(Swept(s, ids[..i]), n)
    requires Trimmable(SweptOne(TrimmedBy(Swept(s, ids[..i]), n), ids[i]), k)
    ensures TrimmedBy(SweptOne(TrimmedBy(Swept(s, ids[..i]), n), ids[i]), k) == TrimmedBy(Swept(s, ids[..i + 1]), n + k)
    ensures Trimmable(Swept(s, ids[..i + 1]), n + k)
  {
    assert ids[..i + 1][..i] == ids[..i];
  }

  lemma DeliverThenTrim(s: State, ids: seq<string>, n: nat)
    requires Enabled(s, Deliver(ids)) && Trimmable(Step(s, Deliver(ids)), n)
    ensures Run(s, [Deliver(ids), Trim(n)])
  {
    assert [Deliver(ids), Trim(n)][1..] == [Trim(n)] && [Trim(n)][1..] == [];
  }

  lemma SweepThenTrim(s: State, nowMs: int, ids: seq<string>, n: nat)
    requires Enabled(s, Sweep(nowMs, ids)) && Trimmable(Step(s, Sweep(nowMs, ids)), n)
    ensures Run(s, [Sweep(nowMs, ids), Trim(n)])
  {
    assert [Sweep(nowMs, ids), Trim(n)][1..] == [Trim(n)] && [Trim(n)][1..] == [];
  }
}
