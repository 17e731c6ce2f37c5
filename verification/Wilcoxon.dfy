/** The signed-rank statistic of scripts/bench_stats.py: mid-ranks of the absolute
    differences, doubled so that ties stay integral. */
module Wilcoxon {
  function Abs(x: real): (r: real)
    ensures r >= 0.0 && (r == x || r == -x)
  {
    if x < 0.0 then -x else x
  }

  function Magnitudes(d: seq<real>): (r: seq<real>)
    ensures |r| == |d|
  {
    seq(|d|, i requires 0 <= i < |d| => Abs(d[i]))
  }

  /** The differences that count. */
  function NonZero(d: seq<real>): (r: seq<real>)
    ensures |r| <= |d| && forall i :: 0 <= i < |r| ==> r[i] != 0.0
  {
    if d == [] then [] else NonZero(d[..|d| - 1]) + if d[|d| - 1] != 0.0 then [d[|d| - 1]] else []
  }

  /** The kept differences, with where each came from: the positions where x and y differ, in
      order and each once, and there x minus y. */
  ghost predicate AreKept(x: seq<real>, y: seq<real>, d: seq<real>, from: seq<nat>)
    requires |x| == |y|
  {
    && |from| == |d| && (forall i, j :: 0 <= i < j < |from| ==> from[i] < from[j])
    && (forall i :: 0 <= i < |d| ==> from[i] < |x| && d[i] == x[from[i]] - y[from[i]])
    && (forall k: nat :: k in from <==> k < |x| && x[k] != y[k])
  }

  function Differences(x: seq<real>, y: seq<real>): (d: seq<real>)
    requires |x| == |y|
    ensures forall i :: 0 <= i < |d| ==> d[i] != 0.0
  {
    NonZero(seq(|x|, i requires 0 <= i < |x| => x[i] - y[i]))
  }

  lemma {:induction false} DifferencesAreKept(x: seq<real>, y: seq<real>) returns (from: seq<nat>)
    requires |x| == |y|
    ensures AreKept(x, y, Differences(x, y), from) && |from| == |Differences(x, y)|
  {
    from := [];
    if x != [] {
      var n := |x| - 1;
      var all := seq(|x|, i requires 0 <= i < |x| => x[i] - y[i]);
      var before := DifferencesAreKept(x[..n], y[..n]);
      assert all[..n] == seq(n, i requires 0 <= i < n => x[..n][i] - y[..n][i]);
      from := before + if x[n] != y[n] then [n] else [];
    }
  }

  function Below(s: seq<real>, x: real): set<nat> {
    set k: nat | 0 <= k < |s| && s[k] < x
  }

  function Equal(s: seq<real>, x: real): set<nat> {
    set k: nat | 0 <= k < |s| && s[k] == x
  }

  /** Twice the mid-rank of a value: its ties share the ranks they occupy evenly. */
  function DoubledRank(s: seq<real>, x: real): nat {
    2 * |Below(s, x)| + |Equal(s, x)| + 1
  }

  /** What argsort returns: the positions in nondecreasing order, ties in any order. */
  predicate IsArgsort(s: seq<real>, order: seq<nat>) {
    && |order| == |s| && (forall i :: 0 <= i < |order| ==> order[i] < |s|)
    && (forall i, j :: 0 <= i < j < |order| ==> order[i] != order[j])
    && (forall i, j :: 0 <= i < j < |order| ==> s[order[i]] <= s[order[j]])
  }

  // ---------- counting along a permutation ----------

  function Taken(order: seq<nat>, i: nat, j: nat): set<nat>
    requires i <= j <= |order|
  {
    set t: nat | i <= t < j :: order[t]
  }

  lemma {:induction false} TakenCount(order: seq<nat>, i: nat, j: nat)
    requires i <= j <= |order| && forall a, b :: 0 <= a < b < |order| ==> order[a] != order[b]
    ensures |Taken(order, i, j)| == j - i
  {
    if i < j {
      TakenCount(order, i, j - 1);
      assert Taken(order, i, j) == Taken(order, i, j - 1) + {order[j - 1]};
    }
  }

  function Firsts(n: nat): (r: set<nat>)
    ensures |r| == n && forall k: nat :: k in r <==> k < n
  {
    if n == 0 then {} else Firsts(n - 1) + {n - 1}
  }

  lemma {:induction false} SameSize<T>(a: set<T>, b: set<T>)
    requires a <= b && |a| == |b|
    ensures a == b
  {
    assert b == a + (b - a);
  }

  /** An order of n distinct positions below n reaches them all. */
  lemma Position(s: seq<real>, order: seq<nat>, k: nat) returns (t: nat)
    requires IsArgsort(s, order) && k < |s|
    ensures t < |order| && order[t] == k
  {
    TakenCount(order, 0, |order|);
    SameSize(Taken(order, 0, |order|), Firsts(|s|));
    assert k in Firsts(|s|);
    t :| t < |order| && order[t] == k;
  }

  /** A maximal run [i, j) of equal magnitudes has i smaller items and j - i equal ones. */
  lemma RunRanks(s: seq<real>, order: seq<nat>, i: nat, j: nat)
    requires IsArgsort(s, order) && i < j <= |order|
    requires forall t :: i <= t < j ==> s[order[t]] == s[order[i]]
    requires j < |order| ==> s[order[j]] != s[order[i]]
    requires i > 0 ==> s[order[i - 1]] != s[order[i]]
    ensures DoubledRank(s, s[order[i]]) == i + j + 1
  {
    var x := s[order[i]];
    forall k: nat | k < |s|
      ensures k in Below(s, x) <==> k in Taken(order, 0, i)
      ensures k in Equal(s, x) <==> k in Taken(order, i, j)
    {
      var t := Position(s, order, k);
      if t < i { assert s[order[t]] <= s[order[i - 1]] < x; }
      if t >= j { assert x < s[order[j]] <= s[order[t]]; }
    }
    assert Below(s, x) == Taken(order, 0, i);
    assert Equal(s, x) == Taken(order, i, j);
    TakenCount(order, 0, i);
    TakenCount(order, i, j);
  }

  /** The tie-grouping loop gives every item its doubled mid-rank, whatever the order among ties. */
  method MidRanks(absd: seq<real>, order: seq<nat>) returns (doubled: seq<nat>)
    requires IsArgsort(absd, order)
    ensures |doubled| == |absd| && forall k :: 0 <= k < |absd| ==> doubled[k] == DoubledRank(absd, absd[k])
  {
    var n := |absd|;
    var ranks := new nat[n];
    var i := 0;
    hide DoubledRank;
    while i < n
      invariant 0 <= i <= n
      invariant 0 < i < n ==> absd[order[i - 1]] != absd[order[i]]
      invariant forall t :: 0 <= t < i ==> ranks[order[t]] == DoubledRank(absd, absd[order[t]])
    {
      var j := i;
      while j < n && absd[order[j]] == absd[order[i]]
        invariant i <= j <= n && (j == i ==> j < n)
        invariant forall t :: i <= t < j ==> absd[order[t]] == absd[order[i]]
      {
        j := j + 1;
      }
      RunRanks(absd, order, i, j);
      for t := i to j
        invariant forall u :: 0 <= u < t ==> ranks[order[u]] == DoubledRank(absd, absd[order[u]])
      {
        ranks[order[t]] := i + j + 1;
      }
      i := j;
    }
    doubled := ranks[..];
    forall k: nat | k < n ensures doubled[k] == DoubledRank(absd, absd[k]) {
      var t := Position(absd, order, k);
    }
  }

  // ---------- the two rank sums ----------

  /** The doubled ranks summed over the positive, or over the negative, differences. */
  function RankSum(d: seq<real>, doubled: seq<nat>, positive: bool): nat
    requires |doubled| == |d|
  {
    if d == [] then 0 else
      RankSum(d[..|d| - 1], doubled[..|d| - 1], positive)
      + if (if positive then d[|d| - 1] > 0.0 else d[|d| - 1] < 0.0) then doubled[|d| - 1] else 0
  }

  /** The sum of the numbers at some positions. */
  ghost function SumAt(doubled: seq<nat>, at: set<nat>): nat {
    if doubled == [] then 0 else
      var last: nat := |doubled| - 1;
      SumAt(doubled[..last], at) + if last in at then doubled[last] else 0
  }

  /** Nothing adds up to zero, and taking one position away takes away the number there. */
  lemma {:induction false} SumAtLaws(doubled: seq<nat>, at: set<nat>, k: nat)
    requires k < |doubled|
    ensures SumAt(doubled, {}) == 0
    ensures k in at ==> SumAt(doubled, at) == doubled[k] + SumAt(doubled, at - {k})
    ensures k !in at ==> SumAt(doubled, at) == SumAt(doubled, at - {k})
  {
    var last: nat := |doubled| - 1;
    if last > 0 { SumAtLaws(doubled[..last], at, if k < last then k else 0); }
    if k == last { SumAtBelow(doubled[..last], at, k); }
  }

  lemma {:induction false} SumAtBelow(doubled: seq<nat>, at: set<nat>, k: nat)
    requires k >= |doubled|
    ensures SumAt(doubled, at - {k}) == SumAt(doubled, at)
  {
    if doubled != [] { SumAtBelow(doubled[..|doubled| - 1], at, k); }
  }

  /** The positions of the differences of one sign. */
  ghost function Positions(d: seq<real>, positive: bool): set<nat> {
    set k: nat | 0 <= k < |d| && (if positive then d[k] > 0.0 else d[k] < 0.0)
  }

  lemma {:induction false} RankSumBySign(d: seq<real>, doubled: seq<nat>, positive: bool)
    requires |doubled| == |d|
    ensures RankSum(d, doubled, positive) == SumAt(doubled, Positions(d, positive))
  {
    if d != [] {
      var last: nat := |d| - 1;
      RankSumBySign(d[..last], doubled[..last], positive);
      var all, some := Positions(d, positive), Positions(d[..last], positive);
      assert some == all - {last};
      SumAtBelow(doubled[..last], all, last);
    }
  }

  /** Negating every difference swaps the two sums. */
  lemma {:induction false} NegationSwaps(d: seq<real>, negated: seq<real>, doubled: seq<nat>, positive: bool)
    requires |negated| == |d| == |doubled| && forall k :: 0 <= k < |d| ==> negated[k] == -d[k]
    ensures RankSum(negated, doubled, positive) == RankSum(d, doubled, !positive)
  {
    RankSumBySign(d, doubled, !positive);
    RankSumBySign(negated, doubled, positive);
    assert Positions(negated, positive) == Positions(d, !positive);
  }

  function Total(doubled: seq<nat>): nat {
    if doubled == [] then 0 else Total(doubled[..|doubled| - 1]) + doubled[|doubled| - 1]
  }

  lemma {:induction false} SumsSplit(d: seq<real>, doubled: seq<nat>)
    requires |doubled| == |d| && forall i :: 0 <= i < |d| ==> d[i] != 0.0
    ensures RankSum(d, doubled, true) + RankSum(d, doubled, false) == Total(doubled)
  {
    if d != [] { SumsSplit(d[..|d| - 1], doubled[..|d| - 1]); }
  }

  /** Twice the smaller items plus the equal ones, for each of some values, against s. */
  function Weights(s: seq<real>, values: seq<real>): nat {
    if values == [] then 0 else
      Weights(s, values[..|values| - 1]) + 2 * |Below(s, values[|values| - 1])| + |Equal(s, values[|values| - 1])|
  }

  lemma OneMore(s: seq<real>, x: real, y: real)
    ensures |Below(s + [x], y)| == |Below(s, y)| + (if x < y then 1 else 0)
    ensures |Equal(s + [x], y)| == |Equal(s, y)| + (if x == y then 1 else 0)
  {
    var n: nat := |s|;
    assert Below(s + [x], y) == Below(s, y) + if x < y then {n} else {};
    assert Equal(s + [x], y) == Equal(s, y) + if x == y then {n} else {};
  }

  /** One more value adds exactly two to the weights for each value compared with it. */
  lemma {:induction false} PairsWeighTwo(s: seq<real>, values: seq<real>, x: real)
    ensures Weights(s + [x], values) + 2 * |Below(values, x)| + |Equal(values, x)| == Weights(s, values) + 2 * |values|
  {
    if values == [] {
      assert Below(values, x) == {} && Equal(values, x) == {};
    } else {
      var rest, y := values[..|values| - 1], values[|values| - 1];
      PairsWeighTwo(s, rest, x);
      OneMore(s, x, y);
      OneMore(rest, y, x);
      assert rest + [y] == values;
    }
  }

  lemma {:induction false} AllWeights(s: seq<real>)
    ensures Weights(s, s) == |s| * |s|
  {
    if s != [] {
      var rest, x := s[..|s| - 1], s[|s| - 1];
      AllWeights(rest);
      PairsWeighTwo(rest, rest, x);
      OneMore(rest, x, x);
      assert rest + [x] == s;
      SquareStep(|rest|);
    }
  }

  lemma SquareStep(n: nat)
    ensures (n + 1) * (n + 1) == n * n + 2 * n + 1
  {
  }

  lemma {:induction false} TotalIsWeights(s: seq<real>, doubled: seq<nat>, values: seq<real>)
    requires |doubled| == |values| && forall k :: 0 <= k < |values| ==> doubled[k] == DoubledRank(s, values[k])
    ensures Total(doubled) == Weights(s, values) + |values|
  {
    if values != [] { TotalIsWeights(s, doubled[..|values| - 1], values[..|values| - 1]); }
  }

  /** Mid-ranks always add up to n(n + 1)/2, ties or not. */
  lemma RanksAddUp(absd: seq<real>, doubled: seq<nat>)
    requires |doubled| == |absd| && forall k :: 0 <= k < |absd| ==> doubled[k] == DoubledRank(absd, absd[k])
    ensures Total(doubled) == |absd| * (|absd| + 1)
  {
    TotalIsWeights(absd, doubled, absd);
    AllWeights(absd);
  }

  /** What makes wp and wm the rank sums of the positive and negative differences. */
  ghost predicate AreRankSums(d: seq<real>, wp: nat, wm: nat) {
    exists doubled: seq<nat> ::
      |doubled| == |d| && (forall k :: 0 <= k < |d| ==> doubled[k] == DoubledRank(Magnitudes(d), Abs(d[k])))
      && wp == SumAt(doubled, set k: nat | 0 <= k < |d| && d[k] > 0.0)
      && wm == SumAt(doubled, set k: nat | 0 <= k < |d| && d[k] < 0.0)
  }

  lemma SumsAreRankSums(d: seq<real>, doubled: seq<nat>)
    requires |doubled| == |d|
    requires forall k :: 0 <= k < |d| ==> doubled[k] == DoubledRank(Magnitudes(d), Abs(d[k]))
    ensures AreRankSums(d, RankSum(d, doubled, true), RankSum(d, doubled, false))
  {
    RankSumBySign(d, doubled, true);
    RankSumBySign(d, doubled, false);
    assert Positions(d, true) == set k: nat | 0 <= k < |d| && d[k] > 0.0;
    assert Positions(d, false) == set k: nat | 0 <= k < |d| && d[k] < 0.0;
    hide RankSum, SumAt, DoubledRank, Abs;
  }

  /** The statistic, all quantities doubled: the two rank sums over the nonzero differences
      add up to n(n + 1), and the smaller one never exceeds its mean n(n + 1)/4. */
  method SignedRank(x: seq<real>, y: seq<real>, order: seq<nat>)
    returns (w: nat, wp: nat, wm: nat, n: nat, ghost from: seq<nat>)
    requires |x| == |y| && IsArgsort(Magnitudes(Differences(x, y)), order)
    ensures AreKept(x, y, Differences(x, y), from) && n == |from|
    ensures AreRankSums(Differences(x, y), wp, wm) && wp + wm == n * (n + 1)
    ensures (w == wp || w == wm) && w <= wp && w <= wm && 2 * w <= n * (n + 1)
  {
    hide AreRankSums, DoubledRank, IsArgsort, Magnitudes, Differences, AreKept;
    var d := Differences(x, y);
    from := DifferencesAreKept(x, y);
    n := |d|;
    if n == 0 {
      SumsAreRankSums(d, []);
      return 0, 0, 0, 0, from;
    }
    var absd := Magnitudes(d);
    var doubled := MidRanks(absd, order);
    wp, wm := RankSums(d, doubled);
    w := if wp < wm then wp else wm;
  }

  /** The two sums, from the ranks. */
  method RankSums(d: seq<real>, doubled: seq<nat>) returns (wp: nat, wm: nat)
    requires |doubled| == |d| && forall k :: 0 <= k < |d| ==> d[k] != 0.0
    requires forall k :: 0 <= k < |d| ==> doubled[k] == DoubledRank(Magnitudes(d), Magnitudes(d)[k])
    ensures AreRankSums(d, wp, wm) && wp + wm == |d| * (|d| + 1)
  {
    wp, wm := RankSum(d, doubled, true), RankSum(d, doubled, false);
    SumsSplit(d, doubled);
    RanksAddUp(Magnitudes(d), doubled);
    SumsAreRankSums(d, doubled);
    hide *;
  }
}
