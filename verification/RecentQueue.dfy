/**
 The dashboard's most-recent-first queues
 (web-interface-js/frontend/src/hooks/useSignalStream.js and useWebSockets.js):
 each frame moves to the front, older copies go, and the list is cut to its cap.
 */
module RecentQueue {

  datatype Item = Item(id: string, body: string)

  const SIGNAL_CAP := 60
  const MATCH_CAP := 40

  function Take(s: seq<Item>, n: nat): seq<Item> {
    if |s| <= n then s else s[..n]
  }

  /** The items whose id differs. */
  function Others(s: seq<Item>, id: string): seq<Item> {
    if s == [] then []
    else if s[0].id == id then Others(s[1..], id)
    else [s[0]] + Others(s[1..], id)
  }

  function Prepended(s: seq<Item>, x: Item): seq<Item> {
    [x] + Others(s, x.id)
  }

  /** A socket frame: its type and its payload. */
  datatype Frame = Frame(kind: string, item: Item)

  /** Frames of another type, or without an id, are ignored. */
  predicate Relevant(f: Frame, kind: string) {
    f.kind == kind && f.item.id != ""
  }

  function OnMatch(s: seq<Item>, f: Frame): seq<Item> {
    if Relevant(f, "matches:live") then Take(Prepended(s, f.item), MATCH_CAP) else s
  }

  function OnSignal(s: seq<Item>, f: Frame): seq<Item> {
    if Relevant(f, "signal") then Take(Prepended(s, f.item), SIGNAL_CAP) else s
  }

  /** The items of a list whose ids are not yet known. */
  function Unknown(list: seq<Item>, known: seq<Item>): seq<Item> {
    if list == [] then []
    else if HasId(known, list[0].id) then Unknown(list[1..], known)
    else [list[0]] + Unknown(list[1..], known)
  }

  predicate HasId(s: seq<Item>, id: string) {
    exists i :: 0 <= i < |s| && s[i].id == id
  }

  /** Seeding from the REST snapshot: streamed entries stay in front. */
  function Seed(s: seq<Item>, list: seq<Item>): seq<Item> {
    if list == [] then s
    else if s != [] then Take(s + Unknown(list, s), SIGNAL_CAP)
    else Take(list, SIGNAL_CAP)
  }

  // ----- runs -----

  /** A capped queue after a history of frames, oldest first. */
  function Capped(s: seq<Item>, history: seq<Item>, n: nat): seq<Item> {
    if history == [] then s
    else Take(Prepended(Capped(s, history[..|history| - 1], n), history[|history| - 1]), n)
  }

  /** The reference queue, which forgets nothing. */
  function Full(s: seq<Item>, history: seq<Item>): seq<Item> {
    if history == [] then s else Prepended(Full(s, history[..|history| - 1]), history[|history| - 1])
  }

  ghost predicate Distinct(s: seq<Item>) {
    forall i, j :: 0 <= i < j < |s| ==> s[i].id != s[j].id
  }

  lemma {:induction false} OthersMembers(s: seq<Item>, id: string)
    requires Distinct(s)
    ensures Distinct(Others(s, id))
    ensures forall x :: x in Others(s, id) <==> x in s && x.id != id
  {
    if s != [] {
      OthersMembers(s[1..], id);
      assert forall x :: x in s <==> x == s[0] || x in s[1..];
      assert forall x :: x in s[1..] ==> x.id != s[0].id;
    }
  }

  lemma {:induction false} OthersNone(s: seq<Item>, id: string)
    requires forall i :: 0 <= i < |s| ==> s[i].id != id
    ensures Others(s, id) == s
  {
    if s != [] {
      OthersNone(s[1..], id);
    }
  }

  lemma TakeTail(s: seq<Item>, n: nat)
    requires s != []
    ensures Take(s, n + 1) == [s[0]] + Take(s[1..], n)
    ensures Take(s, n + 1)[1..] == Take(s[1..], n)
  {}

  /** Cutting before or after removing one id makes no difference to the first n entries. */
  lemma {:induction false} TakeOthers(s: seq<Item>, id: string, n: nat)
    requires Distinct(s)
    ensures Take(Others(Take(s, n + 1), id), n) == Take(Others(s, id), n)
  {
    if s != [] {
      TakeTail(s, n);
      if s[0].id == id {
        OthersNone(s[1..], id);
        OthersNone(Take(s[1..], n), id);
      } else if n > 0 {
        TakeOthers(s[1..], id, n - 1);
        TakeTail([s[0]] + Others(Take(s[1..], n), id), n - 1);
        TakeTail([s[0]] + Others(s[1..], id), n - 1);
      }
    }
  }

  lemma {:induction false} FullDistinct(s: seq<Item>, history: seq<Item>)
    requires Distinct(s)
    ensures Distinct(Full(s, history))
  {
    if history != [] {
      var init, x := history[..|history| - 1], history[|history| - 1];
      FullDistinct(s, init);
      OthersMembers(Full(s, init), x.id);
      var rest := Others(Full(s, init), x.id);
      assert forall i :: 0 <= i < |rest| ==> rest[i] in rest;
    }
  }

  /** After any history, the capped queue is the first n entries of the queue that forgets nothing. */
  lemma {:induction false} CapLosesNothing(s: seq<Item>, history: seq<Item>, n: nat)
    requires Distinct(s) && n >= 1
    ensures Capped(Take(s, n), history, n) == Take(Full(s, history), n)
  {
    if history != [] {
      var init, x := history[..|history| - 1], history[|history| - 1];
      CapLosesNothing(s, init, n);
      FullDistinct(s, init);
      var full := Full(s, init);
      TakeOthers(full, x.id, n - 1);
      TakeTail(Prepended(Take(full, n), x), n - 1);
      TakeTail(Prepended(full, x), n - 1);
    }
  }

  function Matches(frames: seq<Frame>): seq<Item> {
    if frames == [] then [] else OnMatch(Matches(frames[..|frames| - 1]), frames[|frames| - 1])
  }

  function Signals(frames: seq<Frame>): seq<Item> {
    if frames == [] then [] else OnSignal(Signals(frames[..|frames| - 1]), frames[|frames| - 1])
  }

  /** The payloads of the relevant frames, oldest first. */
  function History(frames: seq<Frame>, kind: string): seq<Item> {
    if frames == [] then []
    else
      var init, f := History(frames[..|frames| - 1], kind), frames[|frames| - 1];
      if Relevant(f, kind) then init + [f.item] else init
  }

  lemma {:induction false} HooksAreCapped(frames: seq<Frame>)
    ensures Matches(frames) == Capped([], History(frames, "matches:live"), MATCH_CAP)
    ensures Signals(frames) == Capped([], History(frames, "signal"), SIGNAL_CAP)
  {
    if frames != [] {
      var init, f := frames[..|frames| - 1], frames[|frames| - 1];
      HooksAreCapped(init);
      assert forall kind :: (History(init, kind) + [f.item])[..|History(init, kind)|] == History(init, kind);
    }
  }

  /** A payload reaches the history exactly when its frame has the type and names an id. */
  lemma {:induction false} HistoryHas(frames: seq<Frame>, kind: string, item: Item)
    ensures item in History(frames, kind)
      <==> item.id != "" && exists i :: 0 <= i < |frames| && frames[i] == Frame(kind, item)
  {
    if frames != [] {
      var n := |frames| - 1;
      HistoryHas(frames[..n], kind, item);
      assert forall i :: 0 <= i < n ==> frames[..n][i] == frames[i];
      assert frames[n] == Frame(frames[n].kind, frames[n].item);
    }
  }

  /** Both live hooks always show the most recent 40 matches and 60 signals of everything received. */
  lemma HooksShowMostRecent(frames: seq<Frame>)
    ensures Matches(frames) == Take(Full([], History(frames, "matches:live")), 40)
    ensures Signals(frames) == Take(Full([], History(frames, "signal")), 60)
  {
    HooksAreCapped(frames);
    CapLosesNothing([], History(frames, "matches:live"), MATCH_CAP);
    CapLosesNothing([], History(frames, "signal"), SIGNAL_CAP);
  }

  // ----- what the reference queue contains -----

  /** The position of the last frame with an id, -1 when there is none. */
  function LastIndex(history: seq<Item>, id: string): (r: int)
    ensures -1 <= r < |history|
    ensures r >= 0 ==> history[r].id == id
  {
    if history == [] then -1
    else if history[|history| - 1].id == id then |history| - 1
    else LastIndex(history[..|history| - 1], id)
  }

  /** Every item is the last frame of its id, and items stand most recent first. */
  ghost predicate MostRecentFirst(s: seq<Item>, history: seq<Item>) {
    && (forall i :: 0 <= i < |s| ==>
          LastIndex(history, s[i].id) >= 0 && s[i] == history[LastIndex(history, s[i].id)])
    && (forall i, j :: 0 <= i < j < |s| ==> LastIndex(history, s[i].id) > LastIndex(history, s[j].id))
  }

  /** Where the last frame of a remaining id stands does not change when a frame of another id arrives. */
  lemma OldItem(init: seq<Item>, x: Item, i: nat)
    requires MostRecentFirst(Full([], init), init) && i < |Others(Full([], init), x.id)|
    ensures var y, history := Others(Full([], init), x.id)[i], init + [x];
            LastIndex(history, y.id) == LastIndex(init, y.id) >= 0 && y == history[LastIndex(history, y.id)]
  {
    var a := OthersOrigin(Full([], init), x.id, i);
    assert (init + [x])[..|init|] == init;
  }

  /** The reference queue orders the last frames of its ids by how recently they came. */
  lemma {:induction false} FullIsRecent(history: seq<Item>)
    ensures MostRecentFirst(Full([], history), history)
  {
    if history != [] {
      var n := |history| - 1;
      var init, x := history[..n], history[n];
      FullIsRecent(init);
      assert history == init + [x];
      var rest := Others(Full([], init), x.id);
      forall i | 0 <= i < |rest|
        ensures LastIndex(history, rest[i].id) == LastIndex(init, rest[i].id) >= 0
        ensures rest[i] == history[LastIndex(history, rest[i].id)]
      {
        OldItem(init, x, i);
      }
      forall i, j | 0 <= i < j < |rest|
        ensures LastIndex(init, rest[i].id) > LastIndex(init, rest[j].id)
      {
        var a, b := OthersOrder(Full([], init), x.id, i, j);
      }
      assert Full([], history) == [x] + rest;
    }
  }

  /** No id of the history is missing from the reference queue. */
  lemma {:induction false} FullIsComplete(history: seq<Item>, k: nat)
    requires k < |history|
    ensures HasId(Full([], history), history[k].id)
  {
    var n := |history| - 1;
    var init, x, full := history[..n], history[n], Full([], history);
    if history[k].id == x.id {
      assert full[0].id == x.id;
    } else {
      FullIsComplete(init, k);
      var before := Full([], init);
      var i :| 0 <= i < |before| && before[i].id == history[k].id;
      var j := OthersPlace(before, x.id, i);
      assert full[j + 1] == before[i];
    }
  }

  lemma {:induction false} OthersPlace(s: seq<Item>, id: string, i: nat) returns (j: nat)
    requires i < |s| && s[i].id != id
    ensures j < |Others(s, id)| && Others(s, id)[j] == s[i]
  {
    if i == 0 {
      j := 0;
    } else {
      j := OthersPlace(s[1..], id, i - 1);
      j := if s[0].id == id then j else j + 1;
    }
  }

  lemma {:induction false} OthersOrigin(s: seq<Item>, id: string, i: nat) returns (a: nat)
    requires i < |Others(s, id)|
    ensures a < |s| && Others(s, id)[i] == s[a] && s[a].id != id
  {
    if s[0].id != id && i == 0 {
      a := 0;
    } else {
      a := OthersOrigin(s[1..], id, if s[0].id == id then i else i - 1);
      a := a + 1;
    }
  }

  lemma {:induction false} OthersOrder(s: seq<Item>, id: string, i: nat, j: nat) returns (a: nat, b: nat)
    requires i < j < |Others(s, id)|
    ensures a < b < |s| && Others(s, id)[i] == s[a] && Others(s, id)[j] == s[b]
  {
    if s[0].id == id {
      a, b := OthersOrder(s[1..], id, i, j);
      a, b := a + 1, b + 1;
    } else if i == 0 {
      b := OthersOrigin(s[1..], id, j - 1);
      a, b := 0, b + 1;
    } else {
      a, b := OthersOrder(s[1..], id, i - 1, j - 1);
      a, b := a + 1, b + 1;
    }
  }

  // ----- seeding -----

  lemma {:induction false} UnknownMembers(list: seq<Item>, known: seq<Item>)
    requires Distinct(list)
    ensures Distinct(Unknown(list, known))
    ensures forall x :: x in Unknown(list, known) <==> x in list && !HasId(known, x.id)
  {
    if list != [] {
      UnknownMembers(list[1..], known);
      assert forall x :: x in list <==> x == list[0] || x in list[1..];
      assert forall x :: x in list[1..] ==> x.id != list[0].id;
    }
  }

  /** Seeding always appends what is unknown and cuts to the cap. */
  lemma SeedAppends(s: seq<Item>, list: seq<Item>)
    requires |s| <= SIGNAL_CAP
    ensures Seed(s, list) == Take(s + Unknown(list, s), SIGNAL_CAP)
  {
    if s == [] {
      AllUnknown(list);
      assert s + list == list;
    } else if list == [] {
      assert s + Unknown(list, s) == s;
    }
  }

  lemma {:induction false} AllUnknown(list: seq<Item>)
    ensures Unknown(list, []) == list
  {
    if list != [] {
      AllUnknown(list[1..]);
    }
  }

  lemma {:induction false} UnknownIds(list: seq<Item>, known: seq<Item>, i: nat)
    requires i < |Unknown(list, known)|
    ensures !HasId(known, Unknown(list, known)[i].id) && Unknown(list, known)[i] in list
  {
    if HasId(known, list[0].id) {
      UnknownIds(list[1..], known, i);
    } else if i > 0 {
      UnknownIds(list[1..], known, i - 1);
    }
  }

  lemma DistinctParts(s: seq<Item>, u: seq<Item>)
    requires Distinct(s) && forall i :: 0 <= i < |u| ==> !HasId(s, u[i].id)
    ensures Distinct(s + u) <==> Distinct(u)
  {
    var all := s + u;
    if Distinct(u) {
      forall i, j | 0 <= i < j < |all|
        ensures all[i].id != all[j].id
      {
        if i < |s| <= j {
          assert !HasId(s, u[j - |s|].id);
        }
      }
    }
    if Distinct(all) {
      forall i, j | 0 <= i < j < |u|
        ensures u[i].id != u[j].id
      {
        assert all[|s| + i] == u[i] && all[|s| + j] == u[j];
      }
    }
  }

  /**
   Seeding keeps every streamed entry in place and respects the cap. It repeats an
   id exactly when what it appends does: a list that repeats an unknown id within
   the room left is shown with the repetition.
   */
  lemma SeedKeepsStream(s: seq<Item>, list: seq<Item>)
    requires Distinct(s) && |s| <= SIGNAL_CAP
    ensures s <= Seed(s, list) && |Seed(s, list)| <= SIGNAL_CAP
    ensures Distinct(Seed(s, list)) <==> Distinct(Take(Unknown(list, s), SIGNAL_CAP - |s|))
  {
    SeedAppends(s, list);
    var u := Take(Unknown(list, s), SIGNAL_CAP - |s|);
    assert Seed(s, list) == s + u;
    forall i | 0 <= i < |u|
      ensures !HasId(s, u[i].id)
    {
      UnknownIds(list, s, i);
    }
    DistinctParts(s, u);
  }

  /** A later frame of an id clears every earlier copy of it, repeated or not. */
  lemma OthersClears(s: seq<Item>, id: string, i: nat)
    requires i < |Others(s, id)|
    ensures Others(s, id)[i].id != id
  {
    var a := OthersOrigin(s, id, i);
  }

  // ----- streaming and seeding mixed -----

  datatype Step = Stream(frame: Frame) | SeedWith(list: seq<Item>)

  function OnStep(s: seq<Item>, step: Step): seq<Item> {
    match step
    case Stream(f) => OnSignal(s, f)
    case SeedWith(list) => Seed(s, list)
  }

  function Mixed(steps: seq<Step>): seq<Item> {
    if steps == [] then [] else OnStep(Mixed(steps[..|steps| - 1]), steps[|steps| - 1])
  }

  /** The reference that forgets nothing. */
  function FullStep(s: seq<Item>, step: Step): seq<Item> {
    match step
    case Stream(f) => if Relevant(f, "signal") then Prepended(s, f.item) else s
    case SeedWith(list) => s + Unknown(list, s)
  }

  function FullMixed(steps: seq<Step>): seq<Item> {
    if steps == [] then [] else FullStep(FullMixed(steps[..|steps| - 1]), steps[|steps| - 1])
  }

  ghost predicate SeedsDistinct(steps: seq<Step>) {
    forall i :: 0 <= i < |steps| && steps[i].SeedWith? ==> Distinct(steps[i].list)
  }

  lemma PrependedDistinct(s: seq<Item>, x: Item)
    requires Distinct(s)
    ensures Distinct(Prepended(s, x))
  {
    OthersMembers(s, x.id);
    var rest := Others(s, x.id);
    assert forall i :: 0 <= i < |rest| ==> rest[i] in rest;
  }

  lemma SeededDistinct(s: seq<Item>, list: seq<Item>)
    requires Distinct(s) && Distinct(list)
    ensures Distinct(s + Unknown(list, s))
  {
    UnknownMembers(list, s);
    var u := Unknown(list, s);
    forall i | 0 <= i < |u|
      ensures !HasId(s, u[i].id)
    {
      UnknownIds(list, s, i);
    }
    DistinctParts(s, u);
  }

  lemma SeedCapped(full: seq<Item>, list: seq<Item>)
    ensures Seed(Take(full, SIGNAL_CAP), list) == Take(full + Unknown(list, full), SIGNAL_CAP)
  {
    SeedAppends(Take(full, SIGNAL_CAP), list);
    if |full| <= SIGNAL_CAP {
      assert Take(full, SIGNAL_CAP) == full;
    } else {
      assert Take(full, SIGNAL_CAP) == full[..SIGNAL_CAP];
      assert (full + Unknown(list, full))[..SIGNAL_CAP] == full[..SIGNAL_CAP];
    }
  }

  lemma StreamCapped(full: seq<Item>, x: Item)
    requires Distinct(full)
    ensures Take(Prepended(Take(full, SIGNAL_CAP), x), SIGNAL_CAP) == Take(Prepended(full, x), SIGNAL_CAP)
  {
    TakeOthers(full, x.id, SIGNAL_CAP - 1);
    TakeTail(Prepended(Take(full, SIGNAL_CAP), x), SIGNAL_CAP - 1);
    TakeTail(Prepended(full, x), SIGNAL_CAP - 1);
  }

  /**
   Over any mix of frames and seeds whose lists repeat no id, the queue is the
   first 60 entries of the reference, each id once.
   */
  lemma {:induction false} MixedShowsFirst(steps: seq<Step>)
    requires SeedsDistinct(steps)
    ensures Mixed(steps) == Take(FullMixed(steps), SIGNAL_CAP) && Distinct(FullMixed(steps))
  {
    if steps != [] {
      var n := |steps| - 1;
      MixedShowsFirst(steps[..n]);
      var full := FullMixed(steps[..n]);
      match steps[n] {
        case Stream(f) =>
          StreamCapped(full, f.item);
          PrependedDistinct(full, f.item);
        case SeedWith(list) =>
          SeedCapped(full, list);
          SeededDistinct(full, list);
      }
    }
  }

  /** The payloads of the relevant frames among the steps, oldest first. */
  function Streamed(steps: seq<Step>): seq<Item> {
    if steps == [] then []
    else
      var init, step := Streamed(steps[..|steps| - 1]), steps[|steps| - 1];
      if step.Stream? && Relevant(step.frame, "signal") then init + [step.frame.item] else init
  }

  lemma {:induction false} OthersConcat(a: seq<Item>, b: seq<Item>, id: string)
    ensures Others(a + b, id) == Others(a, id) + Others(b, id)
  {
    if a == [] {
      assert a + b == b;
    } else {
      assert (a + b)[1..] == a[1..] + b;
      OthersConcat(a[1..], b, id);
    }
  }

  lemma HasIdConcat(a: seq<Item>, b: seq<Item>, id: string)
    ensures HasId(a + b, id) <==> HasId(a, id) || HasId(b, id)
  {
    var all := a + b;
    if HasId(a, id) {
      var i :| 0 <= i < |a| && a[i].id == id;
      assert all[i].id == id;
    }
    if HasId(b, id) {
      var i :| 0 <= i < |b| && b[i].id == id;
      assert all[|a| + i].id == id;
    }
  }

  ghost predicate NeverStreamed(tail: seq<Item>, history: seq<Item>) {
    forall i :: 0 <= i < |tail| ==> !HasId(history, tail[i].id)
  }

  /** Streamed entries come first, most recent first as ever; what was only seeded follows. */
  lemma {:induction false} StreamedFirst(steps: seq<Step>) returns (tail: seq<Item>)
    ensures FullMixed(steps) == Full([], Streamed(steps)) + tail && NeverStreamed(tail, Streamed(steps))
  {
    tail := [];
    if steps != [] {
      var n := |steps| - 1;
      var seeded := StreamedFirst(steps[..n]);
      var history := Streamed(steps[..n]);
      var head := Full([], history);
      match steps[n] {
        case Stream(f) =>
          tail := seeded;
          if Relevant(f, "signal") {
            tail := StreamedTail(head, seeded, history, f.item);
          }
        case SeedWith(list) =>
          tail := seeded + Unknown(list, head + seeded);
          SeededTail(seeded, list, history);
      }
    }
  }

  lemma StreamedTail(head: seq<Item>, seeded: seq<Item>, history: seq<Item>, x: Item)
    returns (tail: seq<Item>)
    requires head == Full([], history) && NeverStreamed(seeded, history)
    ensures Prepended(head + seeded, x) == Full([], history + [x]) + tail && NeverStreamed(tail, history + [x])
  {
    tail := Others(seeded, x.id);
    OthersConcat(head, seeded, x.id);
    assert (history + [x])[..|history|] == history;
    assert Full([], history + [x]) == Prepended(head, x);
    OthersNeverStreamed(seeded, history, x);
  }

  lemma OthersNeverStreamed(seeded: seq<Item>, history: seq<Item>, x: Item)
    requires NeverStreamed(seeded, history)
    ensures NeverStreamed(Others(seeded, x.id), history + [x])
  {
    var tail := Others(seeded, x.id);
    forall i | 0 <= i < |tail|
      ensures !HasId(history + [x], tail[i].id)
    {
      var a := OthersOrigin(seeded, x.id, i);
      HasIdConcat(history, [x], tail[i].id);
      assert [x][0] == x;
    }
  }

  lemma SeededTail(seeded: seq<Item>, list: seq<Item>, history: seq<Item>)
    requires NeverStreamed(seeded, history)
    ensures NeverStreamed(seeded + Unknown(list, Full([], history) + seeded), history)
  {
    var head := Full([], history);
    var u := Unknown(list, head + seeded);
    forall i | 0 <= i < |u|
      ensures !HasId(history, u[i].id)
    {
      UnknownIds(list, head + seeded, i);
      HasIdConcat(head, seeded, u[i].id);
      if HasId(history, u[i].id) {
        var k :| 0 <= k < |history| && history[k].id == u[i].id;
        FullIsComplete(history, k);
      }
    }
  }
}
