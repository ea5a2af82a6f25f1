/**
 The single-position gate (analytics-engine-py/src/position_gate.py) under the
 interleaved workers of the analytics broker (analytics-engine-py/src/main.py).
 Acquire and release are atomic under the gate lock; the order is emitted later,
 outside the lock, and any worker may fail between any two steps.
 */
module PositionGate {
  import opened Text

  datatype Key = Key(matchId: string, marketId: string)

  type Open = map<Key, string>

  function Released(open: Open, m: string): Open {
    map k | k in open && k.matchId != m :: open[k]
  }

  /** The gate object with its dictionary of open positions. */
  class Gate {
    var open: Open

    constructor ()
      ensures open == map[]
    {
      open := map[];
    }

    method TryAcquire(matchId: string, marketId: string, side: string) returns (ok: bool)
      modifies this
      ensures ok <==> Key(matchId, marketId) !in old(open)
      ensures open == if ok then old(open)[Key(matchId, marketId) := side] else old(open)
    {
      var key := Key(matchId, marketId);
      if key in open {
        return false;
      }
      open := open[key := side];
      return true;
    }

    method Release(matchId: string)
      modifies this
      ensures open == Released(old(open), matchId)
    {
      var doomed := set k | k in open && k.matchId == matchId;
      while doomed != {}
        invariant forall k :: k in doomed ==> k in open && k.matchId == matchId
        invariant forall k :: k in open ==> k in old(open) && open[k] == old(open)[k]
        invariant forall k :: k in old(open) && k !in open ==> k.matchId == matchId
        invariant forall k :: k in open && k.matchId == matchId ==> k in doomed
        decreases doomed
      {
        assert (forall k :: k !in doomed) ==> doomed == {};
        var key :| key in doomed;
        doomed := doomed - {key};
        open := open - {key};
      }
    }
  }

  // ----- the workers -----

  datatype Frame = Frame(matchId: string, clock: string)

  /** What evaluating one snapshot came to. Any list of verdicts may follow a frame: safety must not depend on it. */
  datatype Verdict = Verdict(key: Key, side: string, execute: bool)

  /** Where a worker stands with its frame. */
  datatype Worker =
    | Idle
    | Settling(frame: Frame)
    | Releasing(frame: Frame)
    | Observing(frame: Frame)
    | Trading(todo: seq<Verdict>)
    | Emitting(key: Key, todo: seq<Verdict>)

  datatype Event = Acquire(key: Key) | Release(matchId: string) | Emit(key: Key)

  /** `events` remembers every gate operation that changed something and every order emitted. */
  datatype System = System(open: Open, queue: seq<Frame>, workers: seq<Worker>, events: seq<Event>)

  const QUEUE_CAP := 4096

  datatype Action =
    | Arrive(frame: Frame)
    | Take(w: nat)
    | Settle(w: nat)
    | DoRelease(w: nat)
    | Observe(w: nat, verdicts: seq<Verdict>)
    | Decide(w: nat)
    | DoEmit(w: nat)
    | Finish(w: nat)
    | Fail(w: nat)

  predicate ReleasesGate(f: Frame) {
    Upper(f.clock) == "FULLTIME" && f.matchId != ""
  }

  predicate Enabled(s: System, a: Action) {
    match a
    case Arrive(_) => true
    case Take(w) => w < |s.workers| && s.workers[w].Idle? && s.queue != []
    case Settle(w) => w < |s.workers| && s.workers[w].Settling?
    case DoRelease(w) => w < |s.workers| && s.workers[w].Releasing?
    case Observe(w, verdicts) => w < |s.workers| && s.workers[w].Observing?
    case Decide(w) => w < |s.workers| && s.workers[w].Trading? && s.workers[w].todo != []
    case DoEmit(w) => w < |s.workers| && s.workers[w].Emitting?
    case Finish(w) => w < |s.workers| && s.workers[w] == Trading([])
    case Fail(w) => w < |s.workers|
  }

  function Step(s: System, a: Action): System
    requires Enabled(s, a)
  {
    match a
    case Arrive(f) => if |s.queue| < QUEUE_CAP then s.(queue := s.queue + [f]) else s
    case Take(w) => s.(queue := s.queue[1..], workers := s.workers[w := Settling(s.queue[0])])
    case Settle(w) =>
      var f := s.workers[w].frame;
      s.(workers := s.workers[w := if ReleasesGate(f) then Releasing(f) else Observing(f)])
    case DoRelease(w) =>
      var f := s.workers[w].frame;
      s.(open := Released(s.open, f.matchId),
         workers := s.workers[w := Observing(f)],
         events := s.events + [Release(f.matchId)])
    case Observe(w, verdicts) => s.(workers := s.workers[w := Trading(verdicts)])
    case Decide(w) =>
      var v, rest := s.workers[w].todo[0], s.workers[w].todo[1..];
      if !v.execute || v.key in s.open then s.(workers := s.workers[w := Trading(rest)])
      else s.(open := s.open[v.key := v.side],
              workers := s.workers[w := Emitting(v.key, rest)],
              events := s.events + [Acquire(v.key)])
    case DoEmit(w) =>
      s.(workers := s.workers[w := Trading(s.workers[w].todo)], events := s.events + [Emit(s.workers[w].key)])
    case Finish(w) => s.(workers := s.workers[w := Idle])
    case Fail(w) => s.(workers := s.workers[w := Idle])
  }

  predicate Run(s: System, actions: seq<Action>)
    decreases actions
  {
    actions == [] || (Enabled(s, actions[0]) && Run(Step(s, actions[0]), actions[1..]))
  }

  function After(s: System, actions: seq<Action>): System
    requires Run(s, actions)
    decreases actions
  {
    if actions == [] then s else After(Step(s, actions[0]), actions[1..])
  }

  function Start(workers: nat): System {
    System(map[], [], seq(workers, _ => Idle), [])
  }

  // ----- counting events -----

  function Count(events: seq<Event>, e: Event): nat {
    if events == [] then 0
    else Count(events[..|events| - 1], e) + if events[|events| - 1] == e then 1 else 0
  }

  lemma CountAppend(events: seq<Event>, last: Event, e: Event)
    ensures Count(events + [last], e) == Count(events, e) + if last == e then 1 else 0
  {
    assert (events + [last])[..|events|] == events;
  }

  /** A quantity summed over the workers. */
  function Total(workers: seq<Worker>, weight: Worker -> nat): nat {
    if workers == [] then 0
    else Total(workers[..|workers| - 1], weight) + weight(workers[|workers| - 1])
  }

  lemma {:induction false} TotalUpdate(workers: seq<Worker>, w: nat, pc: Worker, weight: Worker -> nat)
    requires w < |workers|
    ensures Total(workers[w := pc], weight) + weight(workers[w]) == Total(workers, weight) + weight(pc)
  {
    var n := |workers| - 1;
    if w < n {
      TotalUpdate(workers[..n], w, pc, weight);
      assert workers[w := pc][..n] == workers[..n][w := pc];
    } else {
      assert workers[w := pc][..n] == workers[..n];
    }
  }

  lemma {:induction false} IdleTotal(n: nat, weight: Worker -> nat)
    requires weight(Idle) == 0
    ensures Total(seq(n, _ => Idle), weight) == 0
  {
    if n > 0 {
      IdleTotal(n - 1, weight);
      assert seq(n, _ => Idle)[..n - 1] == seq(n - 1, _ => Idle);
    }
  }

  /** One for a worker that has acquired k and not yet emitted it. */
  function Emits(k: Key): Worker -> nat {
    (worker: Worker) => if worker.Emitting? && worker.key == k then 1 else 0
  }

  /** One for a worker that is releasing m, or about to settle a full-time frame of it. */
  function Frees(m: string): Worker -> nat {
    (worker: Worker) =>
      if worker.Releasing? && worker.frame.matchId == m then 1
      else if worker.Settling? && worker.frame.matchId == m && EndsMatch(worker.frame) then 1
      else 0
  }

  /** The executing verdicts for k that a worker has before it. */
  function Wants(k: Key): Worker -> nat {
    (worker: Worker) =>
      if worker.Trading? || worker.Emitting? then Executing(worker.todo, k) else 0
  }

  /** The last gate event that concerns k acquired it. */
  predicate Held(events: seq<Event>, k: Key) {
    events != [] &&
    var last := events[|events| - 1];
    last == Acquire(k) || (last != Release(k.matchId) && Held(events[..|events| - 1], k))
  }

  lemma HeldAppend(events: seq<Event>, last: Event, k: Key)
    ensures Held(events + [last], k) <==> last == Acquire(k) || (last != Release(k.matchId) && Held(events, k))
  {
    assert (events + [last])[..|events|] == events;
  }

  lemma {:induction false} NotHeldWasReleased(events: seq<Event>, k: Key, i: nat)
    requires !Held(events, k) && i < |events| && events[i] == Acquire(k)
    ensures exists r :: i < r < |events| && events[r] == Release(k.matchId)
  {
    var n := |events| - 1;
    if events[n] != Release(k.matchId) {
      NotHeldWasReleased(events[..n], k, i);
      var r :| i < r < n && events[..n][r] == Release(k.matchId);
      assert events[r] == Release(k.matchId);
    }
  }

  // ----- what arrives -----

  /** A clock that reads FULLTIME in any mix of cases, on a frame that names its match. */
  predicate EndsMatch(f: Frame) {
    f.matchId != "" && |f.clock| == 8
    && forall i :: 0 <= i < 8 ==> f.clock[i] == "FULLTIME"[i] || f.clock[i] == "fulltime"[i]
  }

  /** How many frames of the list end match m. */
  function Endings(frames: seq<Frame>, m: string): nat {
    if frames == [] then 0
    else Endings(frames[1..], m) + if frames[0].matchId == m && EndsMatch(frames[0]) then 1 else 0
  }

  lemma {:induction false} EndingsAppend(a: seq<Frame>, b: seq<Frame>, m: string)
    ensures Endings(a + b, m) == Endings(a, m) + Endings(b, m)
  {
    if a == [] {
      assert a + b == b;
    } else {
      assert (a + b)[1..] == a[1..] + b;
      EndingsAppend(a[1..], b, m);
    }
  }

  /** The frames that a run sends. */
  function Arrivals(actions: seq<Action>): seq<Frame> {
    if actions == [] then []
    else (if actions[0].Arrive? then [actions[0].frame] else []) + Arrivals(actions[1..])
  }

  function Executing(verdicts: seq<Verdict>, k: Key): nat {
    if verdicts == [] then 0
    else Executing(verdicts[1..], k) + if verdicts[0].execute && verdicts[0].key == k then 1 else 0
  }

  /** The executing verdicts for k in a run. */
  function Requested(actions: seq<Action>, k: Key): nat {
    if actions == [] then 0
    else Requested(actions[1..], k) + if actions[0].Observe? then Executing(actions[0].verdicts, k) else 0
  }

  /** Releases of m that happened or that frames in hand can still cause. */
  function Due(s: System, m: string): nat {
    Count(s.events, Release(m)) + Total(s.workers, Frees(m)) + Endings(s.queue, m)
  }

  lemma StepDue(s: System, a: Action, m: string)
    requires Enabled(s, a)
    ensures Due(Step(s, a), m) <= Due(s, m) + Endings(Arrivals([a]), m)
  {
    var t := Step(s, a);
    if a.Arrive? {
      EndingsAppend(s.queue, [a.frame], m);
      assert Arrivals([a]) == [a.frame];
    } else {
      TotalUpdate(s.workers, a.w, t.workers[a.w], Frees(m));
    }
    if a.Settle? {
      FullTimeClock(s.workers[a.w].frame.clock);
    }
    if |t.events| == |s.events| + 1 {
      assert t.events == s.events + [t.events[|s.events|]];
      CountAppend(s.events, t.events[|s.events|], Release(m));
    }
  }

  /** Gate positions taken for k, with the verdicts that may still take one. */
  function Asked(s: System, k: Key): nat {
    Count(s.events, Acquire(k)) + Total(s.workers, Wants(k))
  }

  lemma StepAsked(s: System, a: Action, k: Key)
    requires Enabled(s, a)
    ensures Asked(Step(s, a), k) <= Asked(s, k) + Requested([a], k)
  {
    var t := Step(s, a);
    if !a.Arrive? {
      TotalUpdate(s.workers, a.w, t.workers[a.w], Wants(k));
    }
    if |t.events| == |s.events| + 1 {
      assert t.events == s.events + [t.events[|s.events|]];
      CountAppend(s.events, t.events[|s.events|], Acquire(k));
    }
  }

  lemma {:induction false} RunBounded(s: System, actions: seq<Action>, k: Key)
    requires Run(s, actions)
    ensures Due(After(s, actions), k.matchId) <= Due(s, k.matchId) + Endings(Arrivals(actions), k.matchId)
    ensures Asked(After(s, actions), k) <= Asked(s, k) + Requested(actions, k)
    decreases actions
  {
    if actions != [] {
      StepDue(s, actions[0], k.matchId);
      StepAsked(s, actions[0], k);
      RunBounded(Step(s, actions[0]), actions[1..], k);
      assert Arrivals([actions[0]]) + Arrivals(actions[1..]) == Arrivals(actions);
      EndingsAppend(Arrivals([actions[0]]), Arrivals(actions[1..]), k.matchId);
    }
  }

  // ----- frames are settled in order -----

  /** A frame that finds fewer than 4096 frames waiting; any other is shed. */
  function AdmittedBy(s: System, a: Action): seq<Frame> {
    if a.Arrive? && |s.queue| < 4096 then [a.frame] else []
  }

  /** The frame that a worker holds right after taking one. */
  function TakenBy(s: System, a: Action): seq<Frame>
    requires Enabled(s, a)
  {
    if a.Take? && Step(s, a).workers[a.w].Settling? then [Step(s, a).workers[a.w].frame] else []
  }

  function Admitted(s: System, actions: seq<Action>): seq<Frame>
    requires Run(s, actions)
    decreases actions
  {
    if actions == [] then [] else AdmittedBy(s, actions[0]) + Admitted(Step(s, actions[0]), actions[1..])
  }

  function Taken(s: System, actions: seq<Action>): seq<Frame>
    requires Run(s, actions)
    decreases actions
  {
    if actions == [] then [] else TakenBy(s, actions[0]) + Taken(Step(s, actions[0]), actions[1..])
  }

  lemma StepServed(s: System, a: Action)
    requires Enabled(s, a) && |s.queue| <= 4096
    ensures TakenBy(s, a) + Step(s, a).queue == s.queue + AdmittedBy(s, a)
    ensures |Step(s, a).queue| <= 4096
  {}

  lemma Rearranged(head: seq<Frame>, tail: seq<Frame>, last: seq<Frame>, q: seq<Frame>, q': seq<Frame>,
                   one: seq<Frame>, more: seq<Frame>)
    requires head + q' == q + one && tail + last == q' + more
    ensures (head + tail) + last == q + (one + more)
  {
    assert (head + tail) + last == head + (tail + last);
    assert head + (q' + more) == (head + q') + more;
    assert (q + one) + more == q + (one + more);
  }

  /** Workers take exactly the admitted frames, in the order of arrival, and at most 4096 wait. */
  lemma {:induction false} FirstComeFirstServed(s: System, actions: seq<Action>)
    requires Run(s, actions) && |s.queue| <= 4096
    ensures Taken(s, actions) + After(s, actions).queue == s.queue + Admitted(s, actions)
    ensures |After(s, actions).queue| <= 4096
    decreases actions
  {
    if actions != [] {
      var a, t := actions[0], Step(s, actions[0]);
      StepServed(s, a);
      FirstComeFirstServed(t, actions[1..]);
      Rearranged(TakenBy(s, a), Taken(t, actions[1..]), After(t, actions[1..]).queue, s.queue, t.queue,
        AdmittedBy(s, a), Admitted(t, actions[1..]));
    }
  }

  /** Nothing in the list is a step of worker w. */
  predicate Bystanders(actions: seq<Action>, w: nat) {
    forall i :: 0 <= i < |actions| ==> actions[i].Arrive? || actions[i].w != w
  }

  lemma {:induction false} Undisturbed(s: System, actions: seq<Action>, w: nat)
    requires Run(s, actions) && Bystanders(actions, w) && w < |s.workers|
    ensures |After(s, actions).workers| == |s.workers| && After(s, actions).workers[w] == s.workers[w]
    decreases actions
  {
    if actions != [] {
      assert actions[0].Arrive? || actions[0].w != w;
      Undisturbed(Step(s, actions[0]), actions[1..], w);
    }
  }

  /**
   A worker that settles its frame goes on to release exactly when the frame ends
   its match; whatever the other workers do until then, that release leaves no
   position of the match open and every other position as it was.
   */
  lemma FullTimeReleases(s: System, w: nat, between: seq<Action>)
    requires Enabled(s, Settle(w)) && Bystanders(between, w) && Run(Step(s, Settle(w)), between)
    ensures var f, t := s.workers[w].frame, After(Step(s, Settle(w)), between);
            && w < |t.workers|
            && (EndsMatch(f) <==> Enabled(t, DoRelease(w)))
            && (!EndsMatch(f) <==> t.workers[w] == Observing(f))
            && (EndsMatch(f) ==>
                  var u := Step(t, DoRelease(w));
                  && u.workers[w] == Observing(f)
                  && (forall k :: k in u.open <==> k in t.open && k.matchId != f.matchId)
                  && (forall k :: k in u.open ==> u.open[k] == t.open[k]))
  {
    FullTimeClock(s.workers[w].frame.clock);
    Undisturbed(Step(s, Settle(w)), between, w);
  }

  // ----- the invariant -----

  ghost predicate KeyOk(s: System, k: Key) {
    && (k in s.open <==> Held(s.events, k))
    && Count(s.events, Acquire(k)) <= Count(s.events, Release(k.matchId)) + (if k in s.open then 1 else 0)
    && Count(s.events, Emit(k)) + Total(s.workers, Emits(k)) <= Count(s.events, Acquire(k))
  }

  /** Between two acquisitions of a key its match was released. */
  ghost predicate Spaced(events: seq<Event>) {
    forall i, j, k :: 0 <= i < j < |events| && events[i] == Acquire(k) && events[j] == Acquire(k) ==>
      exists r :: i < r < j && events[r] == Release(k.matchId)
  }

  lemma SpacedAppend(events: seq<Event>, last: Event)
    requires Spaced(events)
    requires last.Acquire? ==> !Held(events, last.key)
    ensures Spaced(events + [last])
  {
    var all := events + [last];
    forall i, j, k | 0 <= i < j < |all| && all[i] == Acquire(k) && all[j] == Acquire(k)
      ensures exists r :: i < r < j && all[r] == Release(k.matchId)
    {
      if j < |events| {
        assert events[i] == Acquire(k) && events[j] == Acquire(k);
        var r :| i < r < j && events[r] == Release(k.matchId);
        assert all[r] == events[r];
      } else {
        NotHeldWasReleased(events, k, i);
        var r :| i < r < |events| && events[r] == Release(k.matchId);
        assert all[r] == events[r];
      }
    }
  }

  lemma StepKeyOk(s: System, a: Action, k: Key)
    requires KeyOk(s, k) && Enabled(s, a)
    ensures KeyOk(Step(s, a), k)
  {
    var t := Step(s, a);
    if !a.Arrive? {
      TotalUpdate(s.workers, a.w, t.workers[a.w], Emits(k));
    }
    if |t.events| == |s.events| + 1 {
      var last := t.events[|s.events|];
      assert t.events == s.events + [last];
      HeldAppend(s.events, last, k);
      CountAppend(s.events, last, Acquire(k));
      CountAppend(s.events, last, Release(k.matchId));
      CountAppend(s.events, last, Emit(k));
    }
  }

  lemma StepSpaced(s: System, a: Action)
    requires Spaced(s.events) && Enabled(s, a)
    requires forall k :: k in s.open <==> Held(s.events, k)
    ensures Spaced(Step(s, a).events)
  {
    var t := Step(s, a);
    if |t.events| == |s.events| + 1 {
      var last := t.events[|s.events|];
      assert t.events == s.events + [last];
      SpacedAppend(s.events, last);
    }
  }

  /** Under every interleaving of any number of workers the gate's counts stay in order. */
  lemma {:induction false} RunOk(s: System, actions: seq<Action>)
    requires Run(s, actions)
    requires Spaced(s.events) && forall k :: KeyOk(s, k)
    ensures Spaced(After(s, actions).events) && forall k :: KeyOk(After(s, actions), k)
    decreases actions
  {
    if actions != [] {
      forall k
        ensures KeyOk(Step(s, actions[0]), k)
      {
        StepKeyOk(s, actions[0], k);
      }
      assert forall k :: KeyOk(s, k) ==> (k in s.open <==> Held(s.events, k));
      StepSpaced(s, actions[0]);
      RunOk(Step(s, actions[0]), actions[1..]);
    }
  }

  /**
   The orders emitted for a (match, market) never exceed its executing verdicts,
   nor one plus the full-time frames of the match that arrived; no emission lacks
   its own acquisition, and between two acquisitions of a key there is a release
   of its match.
   */
  lemma GateSafe(workers: nat, actions: seq<Action>, k: Key)
    requires Run(Start(workers), actions)
    ensures var events := After(Start(workers), actions).events;
            && Count(events, Emit(k)) <= Count(events, Acquire(k)) <= Count(events, Release(k.matchId)) + 1
            && Count(events, Release(k.matchId)) <= Endings(Arrivals(actions), k.matchId)
            && Count(events, Emit(k)) <= 1 + Endings(Arrivals(actions), k.matchId)
            && Count(events, Emit(k)) <= Requested(actions, k)
            && Spaced(events)
  {
    var s := Start(workers);
    forall k
      ensures KeyOk(s, k)
    {
      IdleTotal(workers, Emits(k));
    }
    RunOk(s, actions);
    assert KeyOk(After(s, actions), k);
    IdleTotal(workers, Frees(k.matchId));
    IdleTotal(workers, Wants(k));
    RunBounded(s, actions, k);
  }

  /**
   A worker goes on to emit exactly when the verdict before it executes and the
   key was not acquired since its match was last released.
   */
  lemma EmitsWhenFree(s: System, w: nat)
    requires Enabled(s, Decide(w)) && KeyOk(s, s.workers[w].todo[0].key)
    ensures var v, t := s.workers[w].todo[0], Step(s, Decide(w));
            && (t.workers[w].Emitting? <==> v.execute && !Held(s.events, v.key))
            && (t.workers[w].Emitting? ==> t.workers[w].key == v.key)
            && t.workers[w].todo == s.workers[w].todo[1..]
            && (v.execute ==> v.key in t.open)
  {}
}
