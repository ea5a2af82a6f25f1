/**
 The live broker's bounded position store and session
 (execution-engine-go/internal/broker/client.go): a map of fills with a queue of
 their ids in arrival order, capped at 500.
 */
module PositionStore {
  import opened Settle

  datatype Fill = Fill(order: Order, matchId: string)

  /** `positions` and `order` are the broker's fields; `arrived` numbers the arrivals of each id. */
  datatype Store = Store(positions: map<string, Fill>, order: seq<string>, arrived: map<string, nat>, clock: nat)

  const CAP := 500

  const EMPTY := Store(map[], [], map[], 0)

  /** The store without the order at a queue position. */
  function RemovedAt(s: Store, k: nat): Store
    requires k < |s.order|
  {
    s.(positions := s.positions - {s.order[k]}, order := s.order[..k] + s.order[k + 1..])
  }

  function Appended(s: Store, f: Fill): Store {
    var id := f.order.orderId;
    Store(s.positions[id := f], s.order + [id], s.arrived[id := s.clock], s.clock + 1)
  }

  function Recorded(s: Store, f: Fill): Store {
    if f.order.orderId in s.positions then s
    else Appended(if |s.order| >= CAP then RemovedAt(s, 0) else s, f)
  }

  /** The queue without the first occurrence of an id. */
  function WithoutFirst(order: seq<string>, id: string): seq<string> {
    if order == [] then []
    else if order[0] == id then order[1..]
    else [order[0]] + WithoutFirst(order[1..], id)
  }

  function ForgotOne(s: Store, id: string): Store {
    if id in s.positions then s.(positions := s.positions - {id}, order := WithoutFirst(s.order, id)) else s
  }

  function Forgot(s: Store, ids: seq<string>): Store {
    if ids == [] then s else ForgotOne(Forgot(s, ids[..|ids| - 1]), ids[|ids| - 1])
  }

  datatype Step = Record(fill: Fill) | Forget(ids: seq<string>)

  function Next(s: Store, step: Step): Store {
    match step
    case Record(f) => Recorded(s, f)
    case Forget(ids) => Forgot(s, ids)
  }

  function After(s: Store, steps: seq<Step>): Store
    decreases steps
  {
    if steps == [] then s else After(Next(s, steps[0]), steps[1..])
  }

  // ----- the invariant -----

  /** Map and queue hold the same ids. */
  ghost predicate SameIds(s: Store) {
    && (forall i :: 0 <= i < |s.order| ==> s.order[i] in s.positions)
    && (forall id :: id in s.positions ==> id in s.order && s.positions[id].order.orderId == id)
  }

  /** Each id stands once, in the order of arrival. */
  ghost predicate InArrivalOrder(s: Store) {
    && (forall i :: 0 <= i < |s.order| ==> s.order[i] in s.arrived && s.arrived[s.order[i]] < s.clock)
    && (forall i, j :: 0 <= i < j < |s.order| ==> s.arrived[s.order[i]] < s.arrived[s.order[j]])
  }

  ghost predicate Ok(s: Store) {
    SameIds(s) && InArrivalOrder(s) && |s.order| <= CAP
  }

  lemma {:induction false} WithoutFirstAt(order: seq<string>, id: string) returns (k: nat)
    requires id in order
    ensures k < |order| && order[k] == id
    ensures WithoutFirst(order, id) == order[..k] + order[k + 1..]
  {
    if order[0] == id {
      k := 0;
    } else {
      k := WithoutFirstAt(order[1..], id);
      k := k + 1;
    }
  }

  lemma RemovedArrival(s: Store, k: nat)
    requires InArrivalOrder(s) && k < |s.order|
    ensures InArrivalOrder(RemovedAt(s, k))
    ensures forall i :: 0 <= i < |s.order| && i != k ==> s.order[i] != s.order[k]
  {
    var t := RemovedAt(s, k);
    assert forall i :: 0 <= i < |t.order| ==> t.order[i] == s.order[if i < k then i else i + 1];
  }

  lemma RemovedIds(s: Store, k: nat)
    requires SameIds(s) && k < |s.order|
    requires forall i :: 0 <= i < |s.order| && i != k ==> s.order[i] != s.order[k]
    ensures SameIds(RemovedAt(s, k))
  {
    var t := RemovedAt(s, k);
    forall i | 0 <= i < |t.order|
      ensures t.order[i] in t.positions
    {
      var j := if i < k then i else i + 1;
      assert t.order[i] == s.order[j] && s.order[j] in s.positions;
    }
    forall x | x in t.positions
      ensures x in t.order
    {
      var i :| 0 <= i < |s.order| && s.order[i] == x;
      assert t.order[if i < k then i else i - 1] == x;
    }
  }

  lemma AppendOk(s: Store, f: Fill)
    requires SameIds(s) && InArrivalOrder(s) && f.order.orderId !in s.positions
    ensures SameIds(Appended(s, f)) && InArrivalOrder(Appended(s, f))
  {
    AppendIds(s, f);
    AppendArrival(s, f);
  }

  lemma AppendIds(s: Store, f: Fill)
    requires SameIds(s)
    ensures SameIds(Appended(s, f))
  {
    var t := Appended(s, f);
    assert t.order[|s.order|] == f.order.orderId;
    forall id | id in s.positions
      ensures id in t.order
    {
      var i :| 0 <= i < |s.order| && s.order[i] == id;
      assert t.order[i] == id;
    }
  }

  lemma AppendArrival(s: Store, f: Fill)
    requires InArrivalOrder(s)
    requires forall i :: 0 <= i < |s.order| ==> s.order[i] != f.order.orderId
    ensures InArrivalOrder(Appended(s, f))
  {
    var t := Appended(s, f);
    assert forall i :: 0 <= i < |s.order| ==> t.order[i] == s.order[i];
  }

  lemma RecordOk(s: Store, f: Fill)
    requires Ok(s)
    ensures Ok(Recorded(s, f))
  {
    if f.order.orderId !in s.positions {
      if |s.order| >= CAP {
        RemovedArrival(s, 0);
        RemovedIds(s, 0);
      }
      AppendOk(if |s.order| >= CAP then RemovedAt(s, 0) else s, f);
    }
  }

  lemma ForgetOneOk(s: Store, id: string)
    requires Ok(s)
    ensures Ok(ForgotOne(s, id))
    ensures forall x :: x in ForgotOne(s, id).positions <==> x in s.positions && x != id
  {
    if id in s.positions {
      var k := WithoutFirstAt(s.order, id);
      assert ForgotOne(s, id) == RemovedAt(s, k);
      RemovedArrival(s, k);
      RemovedIds(s, k);
    }
  }

  lemma {:induction false} ForgetOk(s: Store, ids: seq<string>)
    requires Ok(s)
    ensures Ok(Forgot(s, ids))
    ensures forall x :: x in Forgot(s, ids).positions <==> x in s.positions && x !in ids
  {
    if ids != [] {
      var n := |ids| - 1;
      ForgetOk(s, ids[..n]);
      ForgetOneOk(Forgot(s, ids[..n]), ids[n]);
      assert ids == ids[..n] + [ids[n]];
    }
  }

  /** Through any mix of records and forgets, map and queue stay in agreement. */
  lemma {:induction false} RunOk(s: Store, steps: seq<Step>)
    requires Ok(s)
    ensures Ok(After(s, steps))
    decreases steps
  {
    if steps != [] {
      match steps[0] {
        case Record(f) => RecordOk(s, f);
        case Forget(ids) => ForgetOk(s, ids);
      }
      RunOk(Next(s, steps[0]), steps[1..]);
    }
  }

  /** An order leaves exactly by being forgotten, or by being the oldest of 500 when a new one arrives. */
  lemma LeavesOnlyIf(s: Store, step: Step, id: string)
    requires Ok(s) && id in s.positions
    ensures id !in Next(s, step).positions <==>
      match step
      case Forget(ids) => id in ids
      case Record(f) => f.order.orderId !in s.positions && |s.order| == 500 && s.order[0] == id
  {
    match step {
      case Forget(ids) => ForgetOk(s, ids);
      case Record(f) => RecordOk(s, f);
    }
  }

  /** A recorded order keeps its first fill for as long as it stays. */
  lemma FirstFillStays(s: Store, step: Step, id: string)
    requires Ok(s) && id in s.positions && id in Next(s, step).positions
    ensures Next(s, step).positions[id] == s.positions[id]
  {
    match step {
      case Forget(ids) => ForgetKeeps(s, ids, id);
      case Record(f) =>
    }
  }

  lemma {:induction false} ForgetKeeps(s: Store, ids: seq<string>, id: string)
    requires id in Forgot(s, ids).positions
    ensures id in s.positions && Forgot(s, ids).positions[id] == s.positions[id]
  {
    if ids != [] {
      ForgetKeeps(s, ids[..|ids| - 1], id);
    }
  }

  // ----- the session -----

  datatype Settlement = Settlement(orders: seq<Order>, home: real, away: real, source: string, verified: bool)

  function SettledBy(s: Settlement): seq<SettledOrder> {
    GradedAll(s.orders, s.home, s.away, s.source, s.verified)
  }

  function SessionAfter(settlements: seq<Settlement>): Tally {
    if settlements == [] then NOTHING
    else Plus(SessionAfter(settlements[..|settlements| - 1]), Totals(SettledBy(settlements[|settlements| - 1])))
  }

  function AllSettled(settlements: seq<Settlement>): seq<SettledOrder> {
    if settlements == [] then []
    else AllSettled(settlements[..|settlements| - 1]) + SettledBy(settlements[|settlements| - 1])
  }

  /** The cumulative session is the fold over every order ever settled, however it was batched. */
  lemma {:induction false} SessionIsFold(settlements: seq<Settlement>)
    ensures SessionAfter(settlements) == Totals(AllSettled(settlements))
  {
    if settlements != [] {
      var n := |settlements| - 1;
      SessionIsFold(settlements[..n]);
      TotalsAppend(AllSettled(settlements[..n]), SettledBy(settlements[n]));
    }
  }

  // ----- the broker object -----

  class Broker {
    var positions: map<string, Fill>
    var order: seq<string>
    var session: Tally
    var pnl: Tally
    ghost var arrived: map<string, nat>
    ghost var clock: nat

    ghost function Now(): Store
      reads this
    {
      Store(positions, order, arrived, clock)
    }

    constructor (pnl: Tally)
      ensures Now() == EMPTY && session == NOTHING && this.pnl == pnl
    {
      positions, order, session, arrived, clock := map[], [], NOTHING, map[], 0;
      this.pnl := pnl;
    }

    method RecordFill(f: Fill)
      modifies this`positions, this`order, this`arrived, this`clock
      ensures Now() == Recorded(old(Now()), f)
    {
      if f.order.orderId in positions {
        return;
      }
      if |order| >= CAP {
        var oldest := order[0];
        order := order[1..];
        positions := positions - {oldest};
      }
      positions := positions[f.order.orderId := f];
      order := order + [f.order.orderId];
      arrived, clock := arrived[f.order.orderId := clock], clock + 1;
    }

    /** Cut the id out of the queue at its first occurrence. */
    method RemoveFromQueue(id: string)
      modifies this`order
      ensures order == WithoutFirst(old(order), id)
    {
      var at := 0;
      while at < |order| && order[at] != id
        invariant 0 <= at <= |order|
        invariant WithoutFirst(order, id) == order[..at] + WithoutFirst(order[at..], id)
      {
        assert order[at..][1..] == order[at + 1..];
        at := at + 1;
      }
      if at < |order| {
        assert order[at..][1..] == order[at + 1..];
        order := order[..at] + order[at + 1..];
      }
    }

    method ForgetSettled(settled: seq<SettledOrder>)
      requires Ok(Now())
      modifies this`positions, this`order
      ensures Now() == Forgot(old(Now()), Ids(settled))
    {
      for i := 0 to |settled|
        invariant Now() == Forgot(old(Now()), Ids(settled)[..i])
        invariant Ok(Now())
      {
        var id := settled[i].order.orderId;
        assert Ids(settled)[..i + 1][..i] == Ids(settled)[..i];
        ForgetOneOk(Now(), id);
        if id in positions {
          positions := positions - {id};
          RemoveFromQueue(id);
        }
      }
      assert Ids(settled)[..|settled|] == Ids(settled);
    }

    /** Grade one settlement into the cumulative session. */
    method Grade(s: Settlement) returns (settled: seq<SettledOrder>)
      modifies this`session
      ensures settled == SettledBy(s) && session == Plus(old(session), Totals(settled))
    {
      settled := SettleOrders(s.orders, s.home, s.away, s.source, s.verified);
      var t := SettlementTotals(settled);
      session := Tally(session.net + t.net, session.won + t.won, session.lost + t.lost, session.void + t.void);
    }

    /** Only this settlement's deltas reach the PnL hash. */
    method PersistSession(settled: seq<SettledOrder>)
      modifies this`pnl
      ensures pnl == Plus(old(pnl), Totals(settled))
    {
      if settled == [] {
        return;
      }
      var t := SettlementTotals(settled);
      pnl := Tally(pnl.net + t.net, pnl.won + t.won, pnl.lost + t.lost, pnl.void + t.void);
    }

    /** One message of the settlement loop. */
    method OnSettlement(s: Settlement)
      requires Ok(Now())
      modifies this
      ensures Ok(Now()) && Now() == Forgot(old(Now()), Ids(SettledBy(s)))
      ensures session == Plus(old(session), Totals(SettledBy(s)))
      ensures pnl == Plus(old(pnl), Totals(SettledBy(s)))
    {
      var settled := Grade(s);
      PersistSession(settled);
      ForgetOk(Now(), Ids(settled));
      ForgetSettled(settled);
    }
  }

  function Ids(settled: seq<SettledOrder>): (r: seq<string>)
    ensures |r| == |settled|
  {
    seq(|settled|, i requires 0 <= i < |settled| => settled[i].order.orderId)
  }
}
