/**
 The tie-aware rank-sum AUC of calibrate.py, proved equal to the quadratic
 Mann-Whitney count over all positive-negative pairs.
 */
module Auc {

  /** What one comparison contributes: a win counts one, a tie one half. */
  function Beat(a: real, b: real): real {
    if a > b then 1.0 else if a == b then 0.5 else 0.0
  }

  predicate Labels(y: seq<int>) {
    forall i :: 0 <= i < |y| ==> y[i] == 0 || y[i] == 1
  }

  /** The rows among the first m that carry the given label. */
  function Count(y: seq<int>, c: int, m: nat): nat
    requires m <= |y|
  {
    if m == 0 then 0 else Count(y, c, m - 1) + if y[m - 1] == c then 1 else 0
  }

  /** The comparisons of x against the scores labelled c among the first m rows. */
  function BeatsOf(x: real, y: seq<int>, p: seq<real>, c: int, m: nat): real
    requires m <= |y| == |p|
  {
    if m == 0 then 0.0
    else BeatsOf(x, y, p, c, m - 1) + if y[m - 1] == c then Beat(x, p[m - 1]) else 0.0
  }

  /** All comparisons of a row labelled a, among the first n, against a row labelled b, among the first m. */
  function Pairs(y: seq<int>, p: seq<real>, a: int, b: int, n: nat, m: nat): real
    requires n <= |y| == |p| && m <= |y|
  {
    if n == 0 then 0.0
    else Pairs(y, p, a, b, n - 1, m) + if y[n - 1] == a then BeatsOf(p[n - 1], y, p, b, m) else 0.0
  }

  /** The Mann-Whitney statistic: positive-above-negative pairs plus half the tied pairs. */
  function MannWhitney(y: seq<int>, p: seq<real>): real
    requires |y| == |p|
  {
    Pairs(y, p, 1, 0, |y|, |y|)
  }

  function AucOf(y: seq<int>, p: seq<real>): real
    requires |y| == |p|
  {
    var pos, neg := Count(y, 1, |y|), Count(y, 0, |y|);
    if pos == 0 || neg == 0 then 0.5 else MannWhitney(y, p) / (pos * neg) as real
  }

  // ----- what the Mann-Whitney count satisfies -----

  /** The comparisons of the scores labelled c, among the first m, against x. */
  function LosesTo(x: real, y: seq<int>, p: seq<real>, c: int, m: nat): real
    requires m <= |y| == |p|
  {
    if m == 0 then 0.0
    else LosesTo(x, y, p, c, m - 1) + if y[m - 1] == c then Beat(p[m - 1], x) else 0.0
  }

  lemma {:induction false} BeatsBothWays(x: real, y: seq<int>, p: seq<real>, c: int, m: nat)
    requires m <= |y| == |p|
    ensures BeatsOf(x, y, p, c, m) + LosesTo(x, y, p, c, m) == Count(y, c, m) as real
    ensures BeatsOf(x, y, p, c, m) >= 0.0
  {
    if m > 0 {
      BeatsBothWays(x, y, p, c, m - 1);
    }
  }

  lemma {:induction false} PairsGrow(y: seq<int>, p: seq<real>, a: int, b: int, n: nat, m: nat)
    requires n <= |y| == |p| && m < |y|
    ensures Pairs(y, p, a, b, n, m + 1)
      == Pairs(y, p, a, b, n, m) + if y[m] == b then LosesTo(p[m], y, p, a, n) else 0.0
  {
    if n > 0 {
      PairsGrow(y, p, a, b, n - 1, m);
    }
  }

  lemma {:induction false} PairsNone(y: seq<int>, p: seq<real>, a: int, b: int, n: nat)
    requires n <= |y| == |p|
    ensures Pairs(y, p, a, b, n, 0) == 0.0
  {
    if n > 0 {
      PairsNone(y, p, a, b, n - 1);
    }
  }

  /** Every pair is decided one way, the other way, or split evenly. */
  lemma {:induction false} PairsBothWays(y: seq<int>, p: seq<real>, a: int, b: int, n: nat, m: nat)
    requires n <= |y| == |p| && m <= |y|
    ensures Pairs(y, p, a, b, n, m) + Pairs(y, p, b, a, m, n) == (Count(y, a, n) * Count(y, b, m)) as real
    ensures Pairs(y, p, a, b, n, m) >= 0.0
  {
    if n == 0 {
      PairsNone(y, p, b, a, m);
    } else {
      PairsBothWays(y, p, a, b, n - 1, m);
      PairsGrow(y, p, b, a, m, n - 1);
      BeatsBothWays(p[n - 1], y, p, b, m);
      assert (Count(y, a, n - 1) + 1) * Count(y, b, m) == Count(y, a, n - 1) * Count(y, b, m) + Count(y, b, m);
    }
  }

  lemma QuotientBounds(u: real, v: real, d: real)
    requires d > 0.0 && 0.0 <= u && 0.0 <= v && u + v == d
    ensures 0.0 <= u / d <= 1.0
    ensures v / d == 1.0 - u / d
  {
    assert u / d + v / d == (u + v) / d;
    assert u / d >= 0.0 && v / d >= 0.0;
  }

  lemma AucBounds(y: seq<int>, p: seq<real>)
    requires |y| == |p|
    ensures 0.0 <= AucOf(y, p) <= 1.0
  {
    var pos, neg := Count(y, 1, |y|), Count(y, 0, |y|);
    if pos != 0 && neg != 0 {
      PairsBothWays(y, p, 1, 0, |y|, |y|);
      PairsBothWays(y, p, 0, 1, |y|, |y|);
      assert pos * neg > 0;
      QuotientBounds(MannWhitney(y, p), Pairs(y, p, 0, 1, |y|, |y|), (pos * neg) as real);
    }
  }

  function Flip(y: seq<int>): (r: seq<int>)
    ensures |r| == |y|
  {
    seq(|y|, i requires 0 <= i < |y| => 1 - y[i])
  }

  lemma {:induction false} FlipParts(x: real, y: seq<int>, p: seq<real>, c: int, m: nat)
    requires m <= |y| == |p|
    ensures Count(Flip(y), c, m) == Count(y, 1 - c, m)
    ensures BeatsOf(x, Flip(y), p, c, m) == BeatsOf(x, y, p, 1 - c, m)
  {
    if m > 0 {
      FlipParts(x, y, p, c, m - 1);
    }
  }

  lemma {:induction false} FlipPairs(y: seq<int>, p: seq<real>, a: int, b: int, n: nat, m: nat)
    requires n <= |y| == |p| && m <= |y|
    ensures Pairs(Flip(y), p, a, b, n, m) == Pairs(y, p, 1 - a, 1 - b, n, m)
  {
    if n > 0 {
      FlipPairs(y, p, a, b, n - 1, m);
      FlipParts(p[n - 1], y, p, b, m);
    }
  }

  /** Swapping the two labels turns the AUC into its complement. */
  lemma FlipAuc(y: seq<int>, p: seq<real>)
    requires |y| == |p|
    ensures AucOf(Flip(y), p) == 1.0 - AucOf(y, p)
  {
    var n := |y|;
    var pos, neg := Count(y, 1, n), Count(y, 0, n);
    FlipParts(0.0, y, p, 1, n);
    FlipParts(0.0, y, p, 0, n);
    FlipPairs(y, p, 1, 0, n, n);
    if pos != 0 && neg != 0 {
      PairsBothWays(y, p, 1, 0, n, n);
      PairsBothWays(y, p, 0, 1, n, n);
      assert pos * neg > 0 && neg * pos == pos * neg;
      QuotientBounds(MannWhitney(y, p), Pairs(y, p, 0, 1, n, n), (pos * neg) as real);
    }
  }

  /** Two score lists that order every pair of rows the same way. */
  ghost predicate SameOrder(p: seq<real>, q: seq<real>) {
    |p| == |q| && forall i, j :: 0 <= i < |p| && 0 <= j < |p| ==> Beat(p[i], p[j]) == Beat(q[i], q[j])
  }

  /** Only the order of the scores matters, so the sigmoid, being increasing, cannot change the AUC. */
  lemma OrderOnly(y: seq<int>, p: seq<real>, q: seq<real>)
    requires |y| == |p| && SameOrder(p, q)
    ensures AucOf(y, p) == AucOf(y, q)
  {
    OrderOnlyPairs(y, p, q, 1, 0, |y|);
  }

  lemma {:induction false} OrderOnlyPairs(y: seq<int>, p: seq<real>, q: seq<real>, a: int, b: int, n: nat)
    requires n <= |y| == |p| && SameOrder(p, q)
    ensures Pairs(y, p, a, b, n, |y|) == Pairs(y, q, a, b, n, |y|)
  {
    if n > 0 {
      OrderOnlyPairs(y, p, q, a, b, n - 1);
      OrderOnlyBeats(y, p, q, n - 1, b, |y|);
    }
  }

  lemma {:induction false} OrderOnlyBeats(y: seq<int>, p: seq<real>, q: seq<real>, i: nat, b: int, m: nat)
    requires m <= |y| == |p| && SameOrder(p, q) && i < |y|
    ensures BeatsOf(p[i], y, p, b, m) == BeatsOf(q[i], y, q, b, m)
  {
    if m > 0 {
      OrderOnlyBeats(y, p, q, i, b, m - 1);
      assert Beat(p[i], p[m - 1]) == Beat(q[i], q[m - 1]);
    }
  }

  // ----- average ranks -----

  function BeatsAll(x: real, p: seq<real>, m: nat): real
    requires m <= |p|
  {
    if m == 0 then 0.0 else BeatsAll(x, p, m - 1) + Beat(x, p[m - 1])
  }

  /** The average 1-based rank of row i among all scores. */
  function Rank(p: seq<real>, i: nat): real
    requires i < |p|
  {
    0.5 + BeatsAll(p[i], p, |p|)
  }

  function RankSum(y: seq<int>, p: seq<real>, m: nat): real
    requires m <= |y| == |p|
  {
    if m == 0 then 0.0 else RankSum(y, p, m - 1) + if y[m - 1] == 1 then Rank(p, m - 1) else 0.0
  }

  lemma {:induction false} BeatsSplit(x: real, y: seq<int>, p: seq<real>, m: nat)
    requires m <= |y| == |p| && Labels(y)
    ensures BeatsAll(x, p, m) == BeatsOf(x, y, p, 0, m) + BeatsOf(x, y, p, 1, m)
  {
    if m > 0 {
      BeatsSplit(x, y, p, m - 1);
    }
  }

  lemma {:induction false} RankSumSplit(y: seq<int>, p: seq<real>, m: nat)
    requires m <= |y| == |p| && Labels(y)
    ensures RankSum(y, p, m)
      == 0.5 * Count(y, 1, m) as real + Pairs(y, p, 1, 0, m, |y|) + Pairs(y, p, 1, 1, m, |y|)
  {
    if m > 0 {
      RankSumSplit(y, p, m - 1);
      BeatsSplit(p[m - 1], y, p, |y|);
    }
  }

  /** The rank-sum formula is the Mann-Whitney count. */
  lemma RankSumIsMannWhitney(y: seq<int>, p: seq<real>)
    requires |y| == |p| && Labels(y)
    ensures var pos := Count(y, 1, |y|);
            RankSum(y, p, |y|) - (pos * (pos + 1)) as real / 2.0 == MannWhitney(y, p)
  {
    var pos := Count(y, 1, |y|);
    RankSumSplit(y, p, |y|);
    PairsBothWays(y, p, 1, 1, |y|, |y|);
    assert pos * (pos + 1) == pos * pos + pos;
  }

  // ----- the sort -----

  function Range(n: nat): (r: seq<nat>)
    ensures |r| == n && forall i :: 0 <= i < n ==> r[i] == i
  {
    seq(n, i => i)
  }

  ghost predicate InRange(s: seq<nat>, n: nat) {
    forall i :: 0 <= i < |s| ==> s[i] < n
  }

  /** An index order sorted by score; equal scores may stand in any order. */
  ghost predicate IsOrder(order: seq<nat>, p: seq<real>) {
    && InRange(order, |p|)
    && multiset(order) == multiset(Range(|p|))
    && forall i, j :: 0 <= i < j < |order| ==> p[order[i]] <= p[order[j]]
  }

  method SortedOrder(p: seq<real>) returns (order: seq<nat>)
    ensures IsOrder(order, p)
  {
    order := [];
    for n := 0 to |p|
      invariant InRange(order, |p|)
      invariant multiset(order) == multiset(Range(n))
      invariant forall i, j :: 0 <= i < j < |order| ==> p[order[i]] <= p[order[j]]
    {
      var at := |order|;
      while at > 0 && p[order[at - 1]] > p[n]
        invariant 0 <= at <= |order|
        invariant forall i :: at <= i < |order| ==> p[order[i]] > p[n]
      {
        at := at - 1;
      }
      order := InsertAt(order, at, n);
      assert Range(n + 1) == Range(n) + [n];
    }
  }

  function InsertAt(s: seq<nat>, at: nat, v: nat): (r: seq<nat>)
    requires at <= |s|
    ensures |r| == |s| + 1 && r[at] == v
    ensures forall i :: 0 <= i < at ==> r[i] == s[i]
    ensures forall i :: at < i < |r| ==> r[i] == s[i - 1]
    ensures multiset(r) == multiset(s) + multiset{v}
  {
    assert s == s[..at] + s[at..];
    s[..at] + [v] + s[at..]
  }

  function BeatsOver(x: real, p: seq<real>, s: seq<nat>): real
    requires InRange(s, |p|)
  {
    if s == [] then 0.0 else BeatsOver(x, p, s[..|s| - 1]) + Beat(x, p[s[|s| - 1]])
  }

  lemma {:induction false} BeatsOverRemove(x: real, p: seq<real>, s: seq<nat>, k: nat)
    requires InRange(s, |p|) && k < |s|
    ensures BeatsOver(x, p, s) == BeatsOver(x, p, s[..k] + s[k + 1..]) + Beat(x, p[s[k]])
  {
    var n := |s| - 1;
    var rest := s[..k] + s[k + 1..];
    if k < n {
      BeatsOverRemove(x, p, s[..n], k);
      assert s[..n][..k] + s[..n][k + 1..] == rest[..|rest| - 1];
    } else {
      assert rest == s[..n];
    }
  }

  lemma RemoveOne<T>(s: seq<T>, k: nat)
    requires k < |s|
    ensures multiset(s) == multiset(s[..k] + s[k + 1..]) + multiset{s[k]}
    ensures multiset(s[..k] + s[k + 1..]) == multiset(s) - multiset{s[k]}
  {
    assert s == s[..k] + [s[k]] + s[k + 1..];
  }

  lemma RepeatCounts<T>(s: seq<T>, i: nat, j: nat)
    requires i < j < |s|
    ensures s[i] == s[j] ==> multiset(s)[s[i]] >= 2
  {
    var rest := s[..i] + s[i + 1..];
    RemoveOne(s, i);
    assert rest[j - 1] == s[j];
    assert multiset(rest)[s[j]] >= 1;
  }

  /** A sum over indices depends only on the indices as a multiset. */
  lemma {:induction false} BeatsOverPermuted(x: real, p: seq<real>, s: seq<nat>, t: seq<nat>)
    requires InRange(s, |p|) && InRange(t, |p|)
    requires multiset(s) == multiset(t)
    ensures BeatsOver(x, p, s) == BeatsOver(x, p, t)
  {
    if s == [] {
      assert |multiset(t)| == 0;
    } else {
      var n := |s| - 1;
      var k := MatchLast(s, t);
      BeatsOverRemove(x, p, t, k);
      BeatsOverPermuted(x, p, s[..n], t[..k] + t[k + 1..]);
    }
  }

  lemma MatchLast<T>(s: seq<T>, t: seq<T>) returns (k: nat)
    requires multiset(s) == multiset(t) && s != []
    ensures k < |t| && t[k] == s[|s| - 1]
    ensures multiset(s[..|s| - 1]) == multiset(t[..k] + t[k + 1..])
  {
    var n := |s| - 1;
    RemoveOne(s, n);
    assert s[..n] + s[n + 1..] == s[..n];
    assert s[n] in multiset(t);
    k :| 0 <= k < |t| && t[k] == s[n];
    RemoveOne(t, k);
  }

  lemma {:induction false} BeatsOverRange(x: real, p: seq<real>, n: nat)
    requires n <= |p|
    ensures BeatsOver(x, p, Range(n)) == BeatsAll(x, p, n)
  {
    if n > 0 {
      BeatsOverRange(x, p, n - 1);
      assert Range(n)[..n - 1] == Range(n - 1);
    }
  }

  /** In sorted order, a tie group from i to j beats what stands before it and ties with itself. */
  lemma {:induction false} BeatsOfGroup(x: real, p: seq<real>, s: seq<nat>, i: nat, j: nat, m: nat)
    requires InRange(s, |p|) && i <= j < |s| && m <= |s|
    requires forall k :: 0 <= k < i ==> p[s[k]] < x
    requires forall k :: i <= k <= j ==> p[s[k]] == x
    requires forall k :: j < k < |s| ==> p[s[k]] > x
    ensures BeatsOver(x, p, s[..m])
      == if m <= i then m as real
         else if m <= j + 1 then i as real + 0.5 * (m - i) as real
         else i as real + 0.5 * (j + 1 - i) as real
  {
    if m > 0 {
      BeatsOfGroup(x, p, s, i, j, m - 1);
      assert s[..m][..m - 1] == s[..m - 1];
    }
  }

  /** The average position of its tie group is a row's rank. */
  lemma GroupRank(p: seq<real>, order: seq<nat>, i: nat, j: nat, q: nat)
    requires IsOrder(order, p) && i <= q <= j < |order|
    requires forall k :: 0 <= k < i ==> p[order[k]] < p[order[q]]
    requires forall k :: i <= k <= j ==> p[order[k]] == p[order[q]]
    requires forall k :: j < k < |order| ==> p[order[k]] > p[order[q]]
    ensures (i + j) as real / 2.0 + 1.0 == Rank(p, order[q])
  {
    var x := p[order[q]];
    BeatsOfGroup(x, p, order, i, j, |order|);
    assert order[..|order|] == order;
    BeatsOverPermuted(x, p, order, Range(|p|));
    BeatsOverRange(x, p, |p|);
  }

  lemma OrderCovers(order: seq<nat>, p: seq<real>)
    requires IsOrder(order, p)
    ensures |order| == |p|
    ensures forall i, j :: 0 <= i < j < |order| ==> order[i] != order[j]
    ensures forall v: nat :: v < |p| ==> v in order
  {
    var n := |p|;
    assert |multiset(order)| == |multiset(Range(n))|;
    forall i, j | 0 <= i < j < |order|
      ensures order[i] != order[j]
    {
      RangeOnce(n, order[i]);
      RepeatCounts(order, i, j);
    }
    forall v: nat | v < n
      ensures v in order
    {
      assert Range(n)[v] in multiset(Range(n));
    }
  }

  lemma {:induction false} RangeOnce(n: nat, v: nat)
    ensures multiset(Range(n))[v] <= 1
    ensures v >= n ==> multiset(Range(n))[v] == 0
  {
    if n > 0 {
      RangeOnce(n - 1, v);
      assert Range(n) == Range(n - 1) + [n - 1];
    }
  }

  // ----- the algorithm -----

  /** Average ranks by one sweep over the tie groups of any sorted order. */
  method AverageRanks(p: seq<real>, order: seq<nat>) returns (ranks: array<real>)
    requires IsOrder(order, p)
    ensures fresh(ranks) && ranks.Length == |p|
    ensures forall v: nat :: v < |p| ==> ranks[v] == Rank(p, v)
  {
    var n := |p|;
    OrderCovers(order, p);
    ranks := new real[n](_ => 0.0);
    var i := 0;
    while i < n
      invariant 0 <= i <= n
      invariant forall k, l :: 0 <= k < i <= l < n ==> p[order[k]] < p[order[l]]
      invariant forall k :: 0 <= k < i ==> ranks[order[k]] == Rank(p, order[k])
    {
      var j := i;
      while j + 1 < n && p[order[j + 1]] == p[order[i]]
        invariant i <= j < n
        invariant forall k :: i <= k <= j ==> p[order[k]] == p[order[i]]
      {
        j := j + 1;
      }
      var average := (i + j) as real / 2.0 + 1.0;
      forall q | i <= q <= j
        ensures average == Rank(p, order[q])
      {
        GroupRank(p, order, i, j, q);
      }
      AssignGroup(ranks, order, i, j, average);
      i := j + 1;
    }
    forall v: nat | v < n
      ensures ranks[v] == Rank(p, v)
    {
      assert v in order;
      var k :| 0 <= k < |order| && order[k] == v;
    }
  }

  method AssignGroup(ranks: array<real>, order: seq<nat>, i: nat, j: nat, average: real)
    requires InRange(order, ranks.Length) && i <= j < |order|
    requires forall k, l :: 0 <= k < l < |order| ==> order[k] != order[l]
    modifies ranks
    ensures forall k :: i <= k <= j ==> ranks[order[k]] == average
    ensures forall k :: 0 <= k < |order| && !(i <= k <= j) ==> ranks[order[k]] == old(ranks[order[k]])
  {
    for q := i to j + 1
      invariant forall k :: i <= k < q ==> ranks[order[k]] == average
      invariant forall k :: 0 <= k < |order| && !(i <= k < q) ==> ranks[order[k]] == old(ranks[order[k]])
    {
      ranks[order[q]] := average;
    }
  }

  method Auc(y: seq<int>, p: seq<real>) returns (auc: real)
    requires |y| == |p| && Labels(y)
    ensures auc == AucOf(y, p)
  {
    var n := |y|;
    CountTotal(y, n);
    if n == 0 {
      return 0.5;
    }
    var pos := 0;
    for k := 0 to n
      invariant pos == Count(y, 1, k)
    {
      pos := pos + y[k];
    }
    var neg := n - pos;
    if pos == 0 || neg == 0 {
      return 0.5;
    }
    var order := SortedOrder(p);
    var ranks := AverageRanks(p, order);
    var rankPos := 0.0;
    for k := 0 to n
      invariant rankPos == RankSum(y, p, k)
    {
      if y[k] == 1 {
        rankPos := rankPos + ranks[k];
      }
    }
    RankSumIsMannWhitney(y, p);
    var u := rankPos - (pos * (pos + 1)) as real / 2.0;
    assert pos * neg > 0;
    auc := u / (pos * neg) as real;
  }

  lemma {:induction false} CountTotal(y: seq<int>, m: nat)
    requires m <= |y| && Labels(y)
    ensures Count(y, 0, m) + Count(y, 1, m) == m
  {
    if m > 0 {
      CountTotal(y, m - 1);
    }
  }
}
