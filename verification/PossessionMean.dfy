/**
 What the mean possession of a snapshot is (feature_study.py): the plain mean,
 over the clock minutes of the window, of the last possession seen in each.
 */
module PossessionMean {
  import opened Study

  /** The clock minute of an instant, truncated toward zero. */
  function MinuteOf(ts: real): int {
    if ts >= 0.0 then (ts / 60.0).Floor else -((-(ts / 60.0)).Floor)
  }

  predicate SameMinuteLater(s: seq<Entry>) {
    exists i :: 1 <= i < |s| && MinuteOf(s[i].ts) == MinuteOf(s[0].ts)
  }

  /** The entries that no later entry of the same minute follows, in order. */
  function LastOfMinutes(s: seq<Entry>): seq<Entry> {
    if s == [] then []
    else if SameMinuteLater(s) then LastOfMinutes(s[1..])
    else [s[0]] + LastOfMinutes(s[1..])
  }

  /** The entries of other minutes. */
  function Others(s: seq<Entry>, k: int): seq<Entry> {
    if s == [] then []
    else if MinuteOf(s[0].ts) == k then Others(s[1..], k)
    else [s[0]] + Others(s[1..], k)
  }

  /** A new entry takes the place of the last one of its minute. */
  lemma {:induction false} LastAppend(s: seq<Entry>, e: Entry)
    ensures LastOfMinutes(s + [e]) == Others(LastOfMinutes(s), MinuteOf(e.ts)) + [e]
  {
    var all := s + [e];
    if s == [] {
      assert all == [e] && all[1..] == [];
    } else {
      assert all[1..] == s[1..] + [e];
      LastAppend(s[1..], e);
      if SameMinuteLater(s) {
        var i :| 1 <= i < |s| && MinuteOf(s[i].ts) == MinuteOf(s[0].ts);
        assert all[i] == s[i];
      } else if MinuteOf(e.ts) == MinuteOf(s[0].ts) {
        assert all[|s|] == e;
      } else {
        assert forall i :: 1 <= i < |all| ==> all[i] == if i < |s| then s[i] else e;
      }
    }
  }

  // ----- sums of possession -----

  lemma {:induction false} SumAppend(s: seq<Entry>, e: Entry)
    ensures PossessionSum(s + [e]) == PossessionSum(s) + e.possession
  {
    if s == [] {
      assert s + [e] == [e] && [e][1..] == [];
    } else {
      assert (s + [e])[1..] == s[1..] + [e];
      SumAppend(s[1..], e);
    }
  }

  lemma {:induction false} SumReplaced(s: seq<Entry>, p: nat, e: Entry)
    requires p < |s|
    ensures PossessionSum(s[p := e]) == PossessionSum(s) - s[p].possession + e.possession
  {
    if p > 0 {
      assert s[p := e][1..] == s[1..][p - 1 := e];
      SumReplaced(s[1..], p - 1, e);
    } else {
      assert s[p := e][1..] == s[1..];
    }
  }

  lemma SumSplit(s: seq<Entry>)
    requires s != []
    ensures PossessionSum(s) == PossessionSum(s[..|s| - 1]) + s[|s| - 1].possession
  {
    SumAppend(s[..|s| - 1], s[|s| - 1]);
    assert s == s[..|s| - 1] + [s[|s| - 1]];
  }

  lemma {:induction false} SumInserted(e: Entry, s: seq<Entry>)
    ensures PossessionSum(InsertByTs(e, s)) == PossessionSum(s) + e.possession
    decreases s
  {
    if s == [] || s[|s| - 1].ts <= e.ts {
      SumAppend(s, e);
      assert [] + [e] == [e];
    } else {
      SumInserted(e, s[..|s| - 1]);
      SumAppend(InsertByTs(e, s[..|s| - 1]), s[|s| - 1]);
      SumSplit(s);
    }
  }

  lemma {:induction false} SumSorted(s: seq<Entry>)
    ensures PossessionSum(SortByTs(s)) == PossessionSum(s)
  {
    if s != [] {
      SumSorted(s[..|s| - 1]);
      SumInserted(s[|s| - 1], SortByTs(s[..|s| - 1]));
      SumSplit(s);
    }
  }

  // ----- the buckets hold the last entries -----

  ghost predicate DistinctMinutes(s: seq<Entry>) {
    forall i, j :: 0 <= i < j < |s| ==> MinuteOf(s[i].ts) != MinuteOf(s[j].ts)
  }

  lemma {:induction false} OthersNone(s: seq<Entry>, k: int)
    requires forall i :: 0 <= i < |s| ==> MinuteOf(s[i].ts) != k
    ensures Others(s, k) == s
  {
    if s != [] {
      OthersNone(s[1..], k);
    }
  }

  lemma {:induction false} OthersOne(s: seq<Entry>, p: nat, k: int)
    requires DistinctMinutes(s) && p < |s| && MinuteOf(s[p].ts) == k
    ensures Others(s, k) == s[..p] + s[p + 1..]
    ensures PossessionSum(Others(s, k)) == PossessionSum(s) - s[p].possession
  {
    if p == 0 {
      OthersNone(s[1..], k);
      assert s[..0] + s[1..] == s[1..];
    } else {
      OthersOne(s[1..], p - 1, k);
      assert s[..p] + s[p + 1..] == [s[0]] + (s[1..][..p - 1] + s[1..][p..]);
    }
  }

  /** The last entries of the minutes, as the bucket dictionary holds them. */
  ghost predicate Holds(b: Buckets, last: seq<Entry>) {
    && DistinctMinutes(last)
    && (forall i :: 0 <= i < |last| ==>
          MinuteOf(last[i].ts) in b.at && b.at[MinuteOf(last[i].ts)].possession == last[i].possession)
    && (forall k :: k in b.at ==> exists i :: 0 <= i < |last| && MinuteOf(last[i].ts) == k)
  }

  lemma BucketIsMinute(e: Entry)
    ensures BucketOf(e) == MinuteOf(e.ts)
  {}

  function Values(b: Buckets): seq<Entry>
    requires ValidBuckets(b)
  {
    BucketValues(b.order, b.at)
  }

  lemma ReplaceSums(b: Buckets, e: Entry, last: seq<Entry>, i: nat)
    requires ValidBuckets(b) && Holds(b, last) && i < |last| && MinuteOf(last[i].ts) == MinuteOf(e.ts)
    requires |last| == |b.order| && PossessionSum(last) == PossessionSum(Values(b))
    ensures var c, more := Deposit(b, e), Others(last, MinuteOf(e.ts)) + [e];
            |more| == |c.order| && PossessionSum(more) == PossessionSum(Values(c))
  {
    var k, c := MinuteOf(e.ts), Deposit(b, e);
    BucketIsMinute(e);
    var p :| 0 <= p < |b.order| && b.order[p] == k;
    OthersOne(last, i, k);
    SumAppend(Others(last, k), e);
    assert Values(c) == Values(b)[p := c.at[k]];
    SumReplaced(Values(b), p, c.at[k]);
  }

  lemma AppendSums(b: Buckets, e: Entry, last: seq<Entry>)
    requires ValidBuckets(b) && Holds(b, last) && MinuteOf(e.ts) !in b.at
    requires |last| == |b.order| && PossessionSum(last) == PossessionSum(Values(b))
    ensures var c, more := Deposit(b, e), Others(last, MinuteOf(e.ts)) + [e];
            |more| == |c.order| && PossessionSum(more) == PossessionSum(Values(c))
  {
    var k, c := MinuteOf(e.ts), Deposit(b, e);
    BucketIsMinute(e);
    OthersNone(last, k);
    SumAppend(last, e);
    assert Values(c) == Values(b) + [c.at[k]];
    SumAppend(Values(b), c.at[k]);
  }

  /** One deposit changes sum and number like one entry taking its place. */
  lemma DepositSums(b: Buckets, e: Entry, last: seq<Entry>)
    requires ValidBuckets(b) && Holds(b, last)
    requires |last| == |b.order| && PossessionSum(last) == PossessionSum(Values(b))
    ensures var c, more := Deposit(b, e), Others(last, MinuteOf(e.ts)) + [e];
            |more| == |c.order| && PossessionSum(more) == PossessionSum(Values(c))
  {
    if MinuteOf(e.ts) in b.at {
      var i :| 0 <= i < |last| && MinuteOf(last[i].ts) == MinuteOf(e.ts);
      ReplaceSums(b, e, last, i);
    } else {
      AppendSums(b, e, last);
    }
  }

  /** The entry at p gives way to one of the same minute at the end. */
  function Renewed(s: seq<Entry>, p: nat, e: Entry): (r: seq<Entry>)
    requires p < |s|
    ensures |r| == |s| && r[|s| - 1] == e
    ensures forall i :: 0 <= i < |s| - 1 ==> r[i] == s[if i < p then i else i + 1]
  {
    s[..p] + s[p + 1..] + [e]
  }

  lemma RenewedDistinct(s: seq<Entry>, p: nat, e: Entry)
    requires p < |s| && DistinctMinutes(s) && MinuteOf(s[p].ts) == MinuteOf(e.ts)
    ensures DistinctMinutes(Renewed(s, p, e))
  {
    var r := Renewed(s, p, e);
    forall i, j | 0 <= i < j < |r|
      ensures MinuteOf(r[i].ts) != MinuteOf(r[j].ts)
    {
      assert r[i] == s[if i < p then i else i + 1];
      assert MinuteOf(r[j].ts) == MinuteOf(s[if j == |r| - 1 then p else if j < p then j else j + 1].ts);
    }
  }

  lemma RenewedFinds(s: seq<Entry>, p: nat, e: Entry, x: int)
    requires p < |s| && MinuteOf(s[p].ts) == MinuteOf(e.ts)
    requires exists i :: 0 <= i < |s| && MinuteOf(s[i].ts) == x
    ensures exists i :: 0 <= i < |s| && MinuteOf(Renewed(s, p, e)[i].ts) == x
  {
    var i :| 0 <= i < |s| && MinuteOf(s[i].ts) == x;
    assert MinuteOf(Renewed(s, p, e)[if i < p then i else if i > p then i - 1 else |s| - 1].ts) == x;
  }

  lemma ReplaceHolds(b: Buckets, e: Entry, last: seq<Entry>, p: nat)
    requires ValidBuckets(b) && Holds(b, last) && p < |last| && MinuteOf(last[p].ts) == MinuteOf(e.ts)
    ensures Holds(Deposit(b, e), Renewed(last, p, e))
  {
    var more, c := Renewed(last, p, e), Deposit(b, e);
    BucketIsMinute(e);
    RenewedDistinct(last, p, e);
    forall i | 0 <= i < |more|
      ensures MinuteOf(more[i].ts) in c.at && c.at[MinuteOf(more[i].ts)].possession == more[i].possession
    {
      if i < |more| - 1 {
        assert MinuteOf(more[i].ts) != MinuteOf(more[|more| - 1].ts);
      }
    }
    forall x | x in c.at
      ensures exists i :: 0 <= i < |more| && MinuteOf(more[i].ts) == x
    {
      RenewedFinds(last, p, e, x);
    }
  }

  lemma AppendHolds(b: Buckets, e: Entry, last: seq<Entry>)
    requires ValidBuckets(b) && Holds(b, last) && MinuteOf(e.ts) !in b.at
    ensures Holds(Deposit(b, e), last + [e])
  {
    var more, c := last + [e], Deposit(b, e);
    BucketIsMinute(e);
    assert more[|last|] == e;
    forall x | x in c.at
      ensures exists i :: 0 <= i < |more| && MinuteOf(more[i].ts) == x
    {
      if x != MinuteOf(e.ts) {
        var i :| 0 <= i < |last| && MinuteOf(last[i].ts) == x;
        assert more[i] == last[i];
      }
    }
  }

  lemma DepositHolds(b: Buckets, e: Entry, last: seq<Entry>)
    requires ValidBuckets(b) && Holds(b, last)
    ensures Holds(Deposit(b, e), Others(last, MinuteOf(e.ts)) + [e])
  {
    var k := MinuteOf(e.ts);
    if k in b.at {
      var p :| 0 <= p < |last| && MinuteOf(last[p].ts) == k;
      OthersOne(last, p, k);
      ReplaceHolds(b, e, last, p);
    } else {
      OthersNone(last, k);
      AppendHolds(b, e, last);
    }
  }

  lemma {:induction false} BucketsHoldLast(s: seq<Entry>)
    ensures var b, last := Deposits(s), LastOfMinutes(s);
            Holds(b, last) && |last| == |b.order| && PossessionSum(last) == PossessionSum(Values(b))
  {
    if s != [] {
      var init, e := s[..|s| - 1], s[|s| - 1];
      assert s == init + [e];
      BucketsHoldLast(init);
      LastAppend(init, e);
      DepositHolds(Deposits(init), e, LastOfMinutes(init));
      DepositSums(Deposits(init), e, LastOfMinutes(init));
    }
  }

  /**
   The mean possession over the buckets of a window is the mean of the last
   possession of each clock minute, whatever the order of the entries.
   */
  lemma MeanOfMinutes(s: seq<Entry>)
    requires s != []
    ensures |LastOfMinutes(s)| > 0
    ensures MeanPossession(Aggregated(s)) == PossessionSum(LastOfMinutes(s)) / |LastOfMinutes(s)| as real
  {
    var b := Deposits(s);
    BucketsHoldLast(s);
    SumSorted(Values(b));
    AggregatedLength(s);
    BucketAbove(s, 0);
    assert b.order != [];
  }
}
