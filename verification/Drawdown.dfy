/**
 The one-pass maximum drawdown over a newest-first ledger
 (web-interface-js/frontend/src/components/PnLTracker.jsx).
 */
module Drawdown {
  import opened Options

  /** An entry's profit; a value that is not a number counts as zero. */
  function Pnl(e: Option<real>): real {
    e.GetOr(0.0)
  }

  /** The equity after the k oldest entries. */
  function Equity(entries: seq<Option<real>>, k: nat): real
    requires k <= |entries|
  {
    if k == 0 then 0.0 else Equity(entries, k - 1) + Pnl(entries[|entries| - k])
  }

  /** Each older-to-newer step of the equity is one entry's profit, or nothing when that is not a number. */
  lemma EquityStep(entries: seq<Option<real>>, k: nat)
    requires k < |entries|
    ensures Equity(entries, 0) == 0.0
    ensures Equity(entries, k + 1) - Equity(entries, k)
      == match entries[|entries| - 1 - k] case None => 0.0 case Some(pnl) => pnl
  {}

  /** How far the equity fell from point i to point j. */
  function Fall(entries: seq<Option<real>>, i: nat, j: nat): real
    requires i <= |entries| && j <= |entries|
  {
    Equity(entries, i) - Equity(entries, j)
  }

  /** The equity never stood above `peak` among the n oldest entries, and once stood at it. */
  ghost predicate IsPeak(entries: seq<Option<real>>, n: nat, peak: real)
    requires n <= |entries|
  {
    && (forall i :: 0 <= i <= n ==> Equity(entries, i) <= peak)
    && (exists i :: 0 <= i <= n && Equity(entries, i) == peak)
  }

  /** `dd` is the largest fall of the equity from any point to any later one, among the n oldest entries. */
  ghost predicate IsDrawdown(entries: seq<Option<real>>, n: nat, dd: real)
    requires n <= |entries|
  {
    && (forall i, j :: 0 <= i <= j <= n ==> Fall(entries, i, j) <= dd)
    && (exists i, j :: 0 <= i <= j <= n && Fall(entries, i, j) == dd)
  }

  lemma PeakStep(entries: seq<Option<real>>, n: nat, peak: real)
    requires n < |entries| && IsPeak(entries, n, peak)
    ensures var curve := Equity(entries, n + 1);
            IsPeak(entries, n + 1, if curve > peak then curve else peak)
  {
    var i :| 0 <= i <= n && Equity(entries, i) == peak;
    assert Equity(entries, if Equity(entries, n + 1) > peak then n + 1 else i) >= peak;
  }

  lemma DrawdownStep(entries: seq<Option<real>>, n: nat, peak: real, dd: real)
    requires n < |entries| && IsPeak(entries, n + 1, peak) && IsDrawdown(entries, n, dd)
    ensures var fall := peak - Equity(entries, n + 1);
            IsDrawdown(entries, n + 1, if fall > dd then fall else dd)
  {
    var fall := peak - Equity(entries, n + 1);
    var t :| 0 <= t <= n + 1 && Equity(entries, t) == peak;
    var a, b :| 0 <= a <= b <= n && Fall(entries, a, b) == dd;
    var top := if fall > dd then fall else dd;
    forall i, j | 0 <= i <= j <= n + 1
      ensures Fall(entries, i, j) <= top
    {
      if j == n + 1 {
        assert Equity(entries, i) <= peak;
      } else {
        assert Fall(entries, i, j) <= dd;
      }
    }
    assert if fall > dd then Fall(entries, t, n + 1) == top else Fall(entries, a, b) == top;
  }

  method MaxDrawdown(entries: seq<Option<real>>) returns (dd: real)
    ensures IsDrawdown(entries, |entries|, dd)
  {
    var peak, curve := 0.0, 0.0;
    dd := 0.0;
    var i := |entries| - 1;
    assert Fall(entries, 0, 0) == 0.0;
    while i >= 0
      invariant -1 <= i < |entries|
      invariant curve == Equity(entries, |entries| - 1 - i)
      invariant IsPeak(entries, |entries| - 1 - i, peak)
      invariant IsDrawdown(entries, |entries| - 1 - i, dd)
    {
      ghost var n := |entries| - 1 - i;
      PeakStep(entries, n, peak);
      curve := curve + Pnl(entries[i]);
      assert curve == Equity(entries, n + 1);
      if curve > peak {
        peak := curve;
      }
      DrawdownStep(entries, n, peak, dd);
      var fall := peak - curve;
      if fall > dd {
        dd := fall;
      }
      i := i - 1;
    }
  }

  /** The whole loss of a session never exceeds its drawdown, and a session that only wins has none. */
  lemma DrawdownBounds(entries: seq<Option<real>>, dd: real)
    requires IsDrawdown(entries, |entries|, dd)
    ensures dd >= 0.0 && -Equity(entries, |entries|) <= dd
    ensures dd == 0.0 <==> forall k :: 0 <= k < |entries| ==> Pnl(entries[k]) >= 0.0
  {
    assert Fall(entries, 0, 0) == 0.0;
    assert Fall(entries, 0, |entries|) <= dd;
    if forall k :: 0 <= k < |entries| ==> Pnl(entries[k]) >= 0.0 {
      var i, j :| 0 <= i <= j <= |entries| && Fall(entries, i, j) == dd;
      EquityRises(entries, i, j);
    } else {
      var k :| 0 <= k < |entries| && Pnl(entries[k]) < 0.0;
      var n := |entries| - k;
      assert Equity(entries, n) == Equity(entries, n - 1) + Pnl(entries[|entries| - n]);
      assert Fall(entries, n - 1, n) <= dd;
    }
  }

  lemma {:induction false} EquityRises(entries: seq<Option<real>>, i: nat, j: nat)
    requires i <= j <= |entries|
    requires forall k :: 0 <= k < |entries| ==> Pnl(entries[k]) >= 0.0
    ensures Equity(entries, i) <= Equity(entries, j)
  {
    if i < j {
      EquityRises(entries, i, j - 1);
    }
  }
}
