/** Multiple-testing corrections (`multiple_testing.py`), without the rounding of adjusted values. */
module MultipleTesting {

  import opened Common

  datatype TestResult = TestResult(name: string, pValue: real, adjusted: real, reject: bool)

  // ----- Definitions that do not depend on the order of the input -----

  function PValues(items: seq<(string, real)>): (ps: seq<real>)
    ensures |ps| == |items|
  {
    seq(|items|, i requires 0 <= i < |items| => items[i].1)
  }

  /** How many p-values are at most `x`. */
  function CountLe(ps: seq<real>, x: real): nat {
    if ps == [] then 0 else CountLe(Init(ps), x) + (if Last(ps) <= x then 1 else 0)
  }

  lemma {:induction false} CountsItself(ps: seq<real>, w: real)
    requires w in ps
    ensures 1 <= CountLe(ps, w)
  {
    if Last(ps) != w {
      CountsItself(Init(ps), w);
    }
  }

  /** A p-value scaled by the number of tests over its rank. */
  function Scaled(p: real, rank: nat, n: nat): real
    requires rank > 0
  {
    p * n as real / rank as real
  }

  /** The line of slope alpha / n at a rank. */
  predicate Fits(p: real, rank: nat, n: nat, alpha: real)
    requires n > 0
  {
    p <= rank as real / n as real * alpha
  }

  function ScaledByCount(ps: seq<real>, w: real): real
    requires w in ps
  {
    CountsItself(ps, w);
    Scaled(w, CountLe(ps, w), |ps|)
  }

  /** The q-value of `v`: the least of one and of w * n / #{p <= w} over all p-values w from `v` up. */
  predicate IsQ(ps: seq<real>, v: real, q: real) {
    && q <= 1.0
    && (forall w :: w in ps && w >= v ==> q <= ScaledByCount(ps, w))
    && (q == 1.0 || exists w :: w in ps && w >= v && q == ScaledByCount(ps, w))
  }

  /** The step-up rule: some p-value from `v` up lies under the line at its own count. */
  predicate StepsUp(ps: seq<real>, v: real, alpha: real) {
    exists w :: w in ps && w >= v && Fits(w, CountLe(ps, w), |ps|, alpha)
  }

  // ----- Stable sorting of indexed p-values -----

  datatype Indexed = Indexed(index: nat, value: real)

  function PValue(y: Indexed): real { y.value }

  /** `sorted(enumerate(items), key=p)`: stable, ascending. */
  function Ranked(ps: seq<real>): (r: seq<Indexed>)
    ensures |r| == |ps|
  {
    if ps == [] then [] else InsertBy(Ranked(Init(ps)), Indexed(|ps| - 1, Last(ps)), PValue)
  }

  function Values(s: seq<Indexed>): (r: seq<real>)
    ensures |r| == |s|
  {
    seq(|s|, k requires 0 <= k < |s| => s[k].value)
  }

  predicate Ascending(ps: seq<real>) { forall i, j :: 0 <= i < j < |ps| ==> ps[i] <= ps[j] }

  predicate HasIndex(s: seq<Indexed>, i: nat) { exists r :: 0 <= r < |s| && s[r].index == i }

  /** Each index once, with its p-value, in ascending order. */
  predicate IsRanking(s: seq<Indexed>, ps: seq<real>) {
    && |s| == |ps|
    && (forall r :: 0 <= r < |s| ==> s[r].index < |ps| && s[r].value == ps[s[r].index])
    && (forall r, t :: 0 <= r < t < |s| ==> s[r].index != s[t].index && s[r].value <= s[t].value)
    && (forall i: nat :: i < |ps| ==> HasIndex(s, i))
  }

  lemma CountSnoc(s: seq<Indexed>, y: Indexed, x: real)
    ensures CountLe(Values(s + [y]), x) == CountLe(Values(s), x) + (if y.value <= x then 1 else 0)
  {
    assert Init(Values(s + [y])) == Values(s);
  }

  lemma {:induction false} InsertCounts(s: seq<Indexed>, y: Indexed, x: real)
    ensures CountLe(Values(InsertBy(s, y, PValue)), x) == CountLe(Values(s), x) + (if y.value <= x then 1 else 0)
  {
    hide CountLe, Values;
    if s == [] || Last(s).value <= y.value {
      CountSnoc(s, y, x);
    } else {
      InsertCounts(Init(s), y, x);
      CountSnoc(InsertBy(Init(s), y, PValue), Last(s), x);
      CountSnoc(Init(s), Last(s), x);
      assert s == Init(s) + [Last(s)];
    }
  }

  lemma {:induction false} RankedIsRanking(ps: seq<real>)
    ensures IsRanking(Ranked(ps), ps)
  {
    if ps != [] {
      var past, y := Init(ps), Indexed(|ps| - 1, Last(ps));
      RankedIsRanking(past);
      var s := Ranked(past);
      var k := InsertAt(s, y, PValue);
      RankingStep(s, past, y, k);
      assert ps == past + [y.value];
    }
  }

  lemma RankingStep(s: seq<Indexed>, past: seq<real>, y: Indexed, k: nat)
    requires IsRanking(s, past) && y.index == |past| && k <= |s|
    requires forall r :: 0 <= r < k ==> s[r].value <= y.value
    requires forall r :: k <= r < |s| ==> y.value < s[r].value
    ensures IsRanking(s[..k] + [y] + s[k..], past + [y.value])
  {
    var t, ps := s[..k] + [y] + s[k..], past + [y.value];
    forall r: nat, u: nat | r < u < |t| ensures t[r].index != t[u].index && t[r].value <= t[u].value {
      Inserted(s, y, k, r);
      Inserted(s, y, k, u);
    }
    forall r: nat | r < |t| ensures t[r].index < |ps| && t[r].value == ps[t[r].index] {
      Inserted(s, y, k, r);
    }
    forall i: nat | i < |ps| ensures HasIndex(t, i) {
      if i == |past| {
        Inserted(s, y, k, k);
      } else {
        assert HasIndex(s, i);
        var r: nat :| r < |s| && s[r].index == i;
        Inserted(s, y, k, if r < k then r else r + 1);
      }
    }
  }

  lemma Inserted(s: seq<Indexed>, y: Indexed, k: nat, r: nat)
    requires k <= |s| && r <= |s|
    ensures (s[..k] + [y] + s[k..])[r] == if r < k then s[r] else if r == k then y else s[r - 1]
  {}

  lemma {:induction false} RankedCounts(ps: seq<real>, x: real)
    ensures CountLe(Values(Ranked(ps)), x) == CountLe(ps, x)
  {
    if ps != [] {
      RankedCounts(Init(ps), x);
      InsertCounts(Ranked(Init(ps)), Indexed(|ps| - 1, Last(ps)), x);
    } else {
      assert Values([]) == [];
    }
  }

  /** In an ascending sequence the values at most `x` are the first CountLe(x) ones. */
  lemma {:induction false} CountSplits(vs: seq<real>, x: real)
    requires Ascending(vs)
    ensures CountLe(vs, x) <= |vs|
    ensures forall r :: 0 <= r < |vs| ==> (vs[r] <= x <==> r < CountLe(vs, x))
  {
    if vs != [] {
      CountSplits(Init(vs), x);
      assert forall r :: 0 <= r < |vs| - 1 ==> Init(vs)[r] == vs[r];
    }
  }

  /** `vs` lists the p-values in ascending order, so that the last one at most `w` is `w` itself. */
  predicate Sorts(vs: seq<real>, ps: seq<real>) {
    && |vs| == |ps| && Ascending(vs)
    && (forall r :: 0 <= r < |vs| ==> vs[r] in ps)
    && (forall w :: w in ps ==> 1 <= CountLe(ps, w) <= |vs| && vs[CountLe(ps, w) - 1] == w)
    && (forall w, r :: w in ps && 0 <= r < |vs| ==> (vs[r] <= w <==> r < CountLe(ps, w)))
  }

  lemma RankedSorts(ps: seq<real>)
    ensures Sorts(Values(Ranked(ps)), ps)
  {
    hide Ranked, CountLe;
    var vs := Values(Ranked(ps));
    RankedIsRanking(ps);
    forall w | w in ps
      ensures 1 <= CountLe(ps, w) <= |vs| && vs[CountLe(ps, w) - 1] == w
      ensures forall r :: 0 <= r < |vs| ==> (vs[r] <= w <==> r < CountLe(ps, w))
    {
      RankOf(ps, w);
    }
  }

  lemma RankOf(ps: seq<real>, w: real)
    requires w in ps
    ensures var vs, k := Values(Ranked(ps)), CountLe(ps, w);
      && 1 <= k <= |vs| && vs[k - 1] == w
      && forall r :: 0 <= r < |vs| ==> (vs[r] <= w <==> r < k)
  {
    hide Ranked, CountLe;
    var s, vs := Ranked(ps), Values(Ranked(ps));
    RankedIsRanking(ps);
    RankedCounts(ps, w);
    CountSplits(vs, w);
    var i: nat :| i < |ps| && ps[i] == w;
    assert HasIndex(s, i);
    var r :| 0 <= r < |s| && s[r].index == i;
    assert vs[r] == w;
    assert vs[CountLe(ps, w) - 1] <= w;
  }

  // ----- Adjusted values -----

  /** `q` is the least of one and of the scaled p-values from position `from` up; position k has rank k + 1. */
  predicate IsRunningMin(vs: seq<real>, from: nat, q: real) {
    && q <= 1.0
    && (forall k: nat :: from <= k < |vs| ==> q <= Scaled(vs[k], k + 1, |vs|))
    && (q == 1.0 || exists k: nat :: from <= k < |vs| && q == Scaled(vs[k], k + 1, |vs|))
  }

  lemma ScaledFalls(p: real, rank: nat, larger: nat, n: nat)
    requires p >= 0.0 && 1 <= rank <= larger
    ensures Scaled(p, larger, n) <= Scaled(p, rank, n)
  {
    var x, r, l := p * n as real, rank as real, larger as real;
    assert x >= 0.0;
    DivTimes(x, r);
    DivTimes(x, l);
    TimesLe(x / l, r, l);
    CancelRank(x / l, x / r, r);
  }

  lemma TimesLe(b: real, r: real, l: real)
    requires b >= 0.0 && r <= l
    ensures b * r <= b * l
  {}

  lemma CancelRank(b: real, a: real, k: real)
    requires k > 0.0 && b * k <= a * k
    ensures b <= a
  {}

  /** The running minimum is the q-value: among tied p-values the highest rank decides. */
  lemma RunningMinIsQ(ps: seq<real>, vs: seq<real>, k: nat, q: real)
    requires Sorts(vs, ps) && k < |ps| && (forall i :: 0 <= i < |ps| ==> ps[i] >= 0.0)
    requires IsRunningMin(vs, k, q)
    ensures IsQ(ps, vs[k], q)
  {
    hide CountLe, Scaled;
    forall w | w in ps && w >= vs[k] ensures q <= ScaledByCount(ps, w) {
      assert vs[CountLe(ps, w) - 1] == w;
    }
    if q != 1.0 {
      var r: nat :| k <= r < |vs| && q == Scaled(vs[r], r + 1, |vs|);
      var w := vs[r];
      ScaledFalls(w, r + 1, CountLe(ps, w), |ps|);
      assert w in ps && w >= vs[k] && q == ScaledByCount(ps, w);
    }
  }

  // ----- The step-up -----

  lemma FitsLarger(p: real, rank: nat, larger: nat, n: nat, alpha: real)
    requires n > 0 && p >= 0.0 && 1 <= rank <= larger && Fits(p, rank, n, alpha)
    ensures Fits(p, larger, n, alpha)
  {
    var a, b := rank as real / n as real, larger as real / n as real;
    assert 0.0 < a <= b;
    SignOf(a, alpha);
    assert (b - a) * alpha == b * alpha - a * alpha;
  }

  lemma SignOf(a: real, alpha: real)
    requires a > 0.0 && a * alpha >= 0.0
    ensures alpha >= 0.0
  {}

  /** Some rank from `k` up fits exactly when the step-up rule rejects the p-value at `k`. */
  lemma FitsFromIff(ps: seq<real>, vs: seq<real>, k: nat, alpha: real)
    requires Sorts(vs, ps) && k < |ps| && (forall i :: 0 <= i < |ps| ==> ps[i] >= 0.0)
    ensures FitsFrom(vs, k, alpha) <==> StepsUp(ps, vs[k], alpha)
  {
    hide CountLe, Fits;
    if FitsFrom(vs, k, alpha) {
      var r: nat :| k <= r < |vs| && Fits(vs[r], r + 1, |vs|, alpha);
      FitsLarger(vs[r], r + 1, CountLe(ps, vs[r]), |ps|, alpha);
    }
    if StepsUp(ps, vs[k], alpha) {
      var w :| w in ps && w >= vs[k] && Fits(w, CountLe(ps, w), |ps|, alpha);
      var r: nat := CountLe(ps, w) - 1;
      assert vs[r] == w && k <= r;
    }
  }

  /** Benjamini-Hochberg: unrounded q-values and step-up rejections, in input order. */
  method BenjaminiHochberg(items: seq<(string, real)>, alpha: real) returns (results: seq<TestResult>)
    ensures |results| == |items|
    ensures forall i :: 0 <= i < |items| ==> results[i].name == items[i].0 && results[i].pValue == items[i].1
    ensures forall i: nat :: i < |items| ==> ByRank(PValues(items), i, alpha, results[i])
    ensures (forall i :: 0 <= i < |items| ==> items[i].1 >= 0.0) ==> forall i :: 0 <= i < |items| ==>
      && IsQ(PValues(items), items[i].1, results[i].adjusted)
      && (results[i].reject <==> StepsUp(PValues(items), items[i].1, alpha))
  {
    hide Ranked, IsQ, StepsUp, Fits, IsRunningMin;
    var n, ps := |items|, PValues(items);
    if n == 0 {
      return [];
    }
    var ordered := Ranked(ps);
    RankedIsRanking(ps);
    var maxRejectRank := MaxRejectRank(ordered, alpha);
    var adjusted := AdjustedByIndex(ordered);
    results := [];
    for i := 0 to n
      invariant |results| == i
      invariant forall j :: 0 <= j < i ==> results[j].name == items[j].0 && results[j].pValue == items[j].1
      invariant forall j: nat :: j < i ==> ByRank(ps, j, alpha, results[j])
    {
      var r := RankOfIndex(ordered, ps, i);
      var result := TestResult(items[i].0, items[i].1, adjusted[i], r < maxRejectRank);
      RejectedByRank(Values(ordered), maxRejectRank, r, alpha);
      assert ByRank(ps, i, alpha, result);
      results := results + [result];
    }
    if forall i :: 0 <= i < n ==> items[i].1 >= 0.0 {
      forall i | 0 <= i < n
        ensures IsQ(ps, items[i].1, results[i].adjusted)
        ensures results[i].reject <==> StepsUp(ps, items[i].1, alpha)
      {
        ByRankIsByValue(ps, i, alpha, results[i]);
      }
    }
  }

  /** For any p-values at all: at the position k where the stable ranking puts an item, its adjusted value is the
      running minimum from k up, and it is rejected if some position from k up lies under the line. */
  predicate ByRank(ps: seq<real>, i: nat, alpha: real, result: TestResult)
    requires i < |ps|
  {
    var vs := Values(Ranked(ps));
    exists k: nat :: k < |ps| && Ranked(ps)[k].index == i && IsRunningMin(vs, k, result.adjusted)
      && (result.reject <==> FitsFrom(vs, k, alpha))
  }

  predicate FitsFrom(vs: seq<real>, k: nat, alpha: real) {
    exists r: nat :: k <= r < |vs| && Fits(vs[r], r + 1, |vs|, alpha)
  }

  lemma RejectedByRank(vs: seq<real>, maxRank: nat, k: nat, alpha: real)
    requires k < |vs| && maxRank <= |vs|
    requires maxRank > 0 ==> Fits(vs[maxRank - 1], maxRank, |vs|, alpha)
    requires forall r: nat :: maxRank <= r < |vs| ==> !Fits(vs[r], r + 1, |vs|, alpha)
    ensures k < maxRank <==> FitsFrom(vs, k, alpha)
  {
    hide Fits;
    if k < maxRank {
      var r: nat := maxRank - 1;
      assert Fits(vs[r], r + 1, |vs|, alpha);
    }
  }

  /** For non-negative p-values the ranks drop out of the description. */
  lemma ByRankIsByValue(ps: seq<real>, i: nat, alpha: real, result: TestResult)
    requires i < |ps| && (forall j :: 0 <= j < |ps| ==> ps[j] >= 0.0) && ByRank(ps, i, alpha, result)
    ensures IsQ(ps, ps[i], result.adjusted)
    ensures result.reject <==> StepsUp(ps, ps[i], alpha)
  {
    hide Ranked, IsQ, StepsUp, Sorts, Fits, IsRunningMin, FitsFrom;
    var vs := Values(Ranked(ps));
    RankedIsRanking(ps);
    RankedSorts(ps);
    var k: nat :| k < |ps| && Ranked(ps)[k].index == i && IsRunningMin(vs, k, result.adjusted)
      && (result.reject <==> FitsFrom(vs, k, alpha));
    assert vs[k] == ps[i];
    RunningMinIsQ(ps, vs, k, result.adjusted);
    FitsFromIff(ps, vs, k, alpha);
  }

  /** Position of an input index in the ranking. */
  method RankOfIndex(ordered: seq<Indexed>, ps: seq<real>, i: nat) returns (r: nat)
    requires IsRanking(ordered, ps) && i < |ps|
    ensures r < |ordered| && ordered[r].index == i && ordered[r].value == ps[i]
  {
    assert HasIndex(ordered, i);
    r := 0;
    while ordered[r].index != i
      invariant r < |ordered|
      invariant forall t :: 0 <= t < r ==> ordered[t].index != i
      decreases |ordered| - r
    {
      r := r + 1;
    }
  }

  method MaxRejectRank(ordered: seq<Indexed>, alpha: real) returns (maxRejectRank: nat)
    requires ordered != []
    ensures maxRejectRank <= |ordered|
    ensures maxRejectRank > 0 ==> Fits(Values(ordered)[maxRejectRank - 1], maxRejectRank, |ordered|, alpha)
    ensures forall r: nat :: maxRejectRank <= r < |ordered| ==> !Fits(Values(ordered)[r], r + 1, |ordered|, alpha)
  {
    hide Fits;
    maxRejectRank := 0;
    var n := |ordered|;
    for rank := 1 to n + 1
      invariant maxRejectRank < rank
      invariant maxRejectRank > 0 ==> Fits(Values(ordered)[maxRejectRank - 1], maxRejectRank, n, alpha)
      invariant forall r: nat :: maxRejectRank <= r < rank - 1 ==> !Fits(Values(ordered)[r], r + 1, n, alpha)
    {
      if Fits(ordered[rank - 1].value, rank, n, alpha) {
        maxRejectRank := rank;
      }
    }
  }

  method AdjustedByIndex(ordered: seq<Indexed>) returns (adjusted: map<nat, real>)
    requires forall r, t :: 0 <= r < t < |ordered| ==> ordered[r].index != ordered[t].index
    ensures forall r :: 0 <= r < |ordered| ==>
      ordered[r].index in adjusted && IsRunningMin(Values(ordered), r, adjusted[ordered[r].index])
  {
    hide IsRunningMin, Scaled;
    adjusted := map[];
    ghost var vs := Values(ordered);
    var n, prev := |ordered|, 1.0;
    NoRanks(vs);
    for rank := n downto 0
      invariant IsRunningMin(vs, rank, prev)
      invariant forall r :: rank <= r < n ==>
        ordered[r].index in adjusted && IsRunningMin(vs, r, adjusted[ordered[r].index])
    {
      var q := Min(prev, Scaled(ordered[rank].value, rank + 1, n));
      RunningMinStep(vs, rank, prev);
      adjusted := adjusted[ordered[rank].index := q];
      prev := q;
    }
  }

  lemma NoRanks(vs: seq<real>)
    ensures IsRunningMin(vs, |vs|, 1.0)
  {}

  lemma RunningMinStep(vs: seq<real>, k: nat, prev: real)
    requires k < |vs| && IsRunningMin(vs, k + 1, prev)
    ensures IsRunningMin(vs, k, Min(prev, Scaled(vs[k], k + 1, |vs|)))
  {
    hide Scaled;
  }

  // ----- What the q-values mean -----

  lemma FitsIffScaled(w: real, k: nat, n: nat, alpha: real)
    requires n > 0 && k > 0
    ensures Fits(w, k, n, alpha) <==> Scaled(w, k, n) <= alpha
  {
    var kr, nr := k as real, n as real;
    DivTimes(kr, nr);
    DivTimes(w * nr, kr);
    CrossLe(w, kr / nr * alpha, nr);
    CrossLe(Scaled(w, k, n), alpha, kr);
    assert kr / nr * alpha * nr == kr / nr * nr * alpha;
  }

  lemma CrossLe(a: real, b: real, k: real)
    requires k > 0.0
    ensures a <= b <==> a * k <= b * k
  {}

  lemma RejectedIffQ(ps: seq<real>, v: real, q: real, alpha: real)
    requires IsQ(ps, v, q) && v in ps
    requires alpha < 1.0 || Largest(ps) <= alpha
    ensures StepsUp(ps, v, alpha) <==> q <= alpha
  {
    hide CountLe, Fits, Scaled;
    forall w | w in ps
      ensures CountLe(ps, w) >= 1 && (Fits(w, CountLe(ps, w), |ps|, alpha) <==> ScaledByCount(ps, w) <= alpha)
    {
      CountsItself(ps, w);
      FitsIffScaled(w, CountLe(ps, w), |ps|, alpha);
    }
    if q == 1.0 && q <= alpha {
      LargestScaledToItself(ps);
    }
  }

  /** Items are rejected exactly when their q-value is at most alpha, for all of them, if and only if alpha is below
      one or no p-value exceeds it; so always for p-values up to one, and for any alpha that is a level. */
  lemma RejectionIsQIff(ps: seq<real>, alpha: real)
    requires ps != []
    ensures (forall v, q :: v in ps && IsQ(ps, v, q) ==> (StepsUp(ps, v, alpha) <==> q <= alpha)) <==>
      (alpha < 1.0 || Largest(ps) <= alpha)
  {
    hide IsQ, StepsUp;
    if alpha < 1.0 || Largest(ps) <= alpha {
      forall v, q | v in ps && IsQ(ps, v, q) ensures StepsUp(ps, v, alpha) <==> q <= alpha {
        RejectedIffQ(ps, v, q, alpha);
      }
    } else {
      LargestIsCapped(ps, alpha);
    }
  }

  /** A largest p-value above alpha, itself at least one, is not rejected although its capped q-value is one. */
  lemma LargestIsCapped(ps: seq<real>, alpha: real)
    requires ps != [] && alpha >= 1.0 && Largest(ps) > alpha
    ensures IsQ(ps, Largest(ps), 1.0) && !StepsUp(ps, Largest(ps), alpha)
  {
    var v := Largest(ps);
    LargestScaledToItself(ps);
    CountsItself(ps, v);
    FitsIffScaled(v, CountLe(ps, v), |ps|, alpha);
    hide CountLe, Fits, Scaled;
    assert forall w :: w in ps && w >= v ==> w == v;
  }

  /** The largest p-value is scaled by one. */
  lemma LargestScaledToItself(ps: seq<real>)
    requires ps != []
    ensures ScaledByCount(ps, Largest(ps)) == Largest(ps)
  {
    var w := Largest(ps);
    CountAll(ps, w);
    CountsItself(ps, w);
    DivTimes(w * |ps| as real, |ps| as real);
    assert ScaledByCount(ps, w) * |ps| as real == w * |ps| as real;
    CrossLe(ScaledByCount(ps, w), w, |ps| as real);
    CrossLe(w, ScaledByCount(ps, w), |ps| as real);
  }

  function Largest(ps: seq<real>): (w: real)
    requires ps != []
    ensures w in ps && forall i :: 0 <= i < |ps| ==> ps[i] <= w
  {
    if |ps| == 1 then ps[0] else Max(Largest(Init(ps)), Last(ps))
  }

  lemma {:induction false} CountAll(ps: seq<real>, w: real)
    requires forall i :: 0 <= i < |ps| ==> ps[i] <= w
    ensures CountLe(ps, w) == |ps|
  {
    if ps != [] {
      CountAll(Init(ps), w);
    }
  }

  /** Q-values are unique and grow with the p-value; tied p-values share one. */
  lemma QMonotone(ps: seq<real>, v: real, q: real, v': real, q': real)
    requires IsQ(ps, v, q) && IsQ(ps, v', q') && v <= v'
    ensures q <= q' && (v == v' ==> q == q')
  {
    hide CountLe, Scaled;
  }

  // ----- The order of the input does not matter -----

  lemma {:induction false} CountRemoved(ps: seq<real>, j: nat, x: real)
    requires j < |ps|
    ensures CountLe(ps, x) == CountLe(ps[..j] + ps[j + 1..], x) + (if ps[j] <= x then 1 else 0)
  {
    if j == |ps| - 1 {
      assert ps[..j] + ps[j + 1..] == Init(ps);
    } else {
      CountRemoved(Init(ps), j, x);
      assert ps[..j] + ps[j + 1..] == (Init(ps)[..j] + Init(ps)[j + 1..]) + [Last(ps)];
      assert Init((Init(ps)[..j] + Init(ps)[j + 1..]) + [Last(ps)]) == Init(ps)[..j] + Init(ps)[j + 1..];
    }
  }

  lemma Removed(ps: seq<real>, j: nat)
    requires j < |ps|
    ensures multiset(ps[..j] + ps[j + 1..]) == multiset(ps) - multiset{ps[j]}
  {
    assert ps == ps[..j] + [ps[j]] + ps[j + 1..];
  }

  lemma SameBagWithout(ps: seq<real>, rs: seq<real>) returns (j: nat)
    requires multiset(ps) == multiset(rs) && ps != []
    ensures j < |rs| && rs[j] == Last(ps) && multiset(Init(ps)) == multiset(rs[..j] + rs[j + 1..])
  {
    assert Last(ps) in multiset(ps);
    assert Last(ps) in multiset(rs);
    j :| 0 <= j < |rs| && rs[j] == Last(ps);
    Removed(rs, j);
    Removed(ps, |ps| - 1);
    assert ps[..|ps| - 1] + ps[|ps|..] == Init(ps);
  }

  lemma {:induction false} CountOfMultiset(ps: seq<real>, rs: seq<real>, x: real)
    requires multiset(ps) == multiset(rs)
    ensures CountLe(ps, x) == CountLe(rs, x) && |ps| == |rs|
  {
    assert |multiset(ps)| == |ps| && |multiset(rs)| == |rs|;
    if ps != [] {
      var j := SameBagWithout(ps, rs);
      CountOfMultiset(Init(ps), rs[..j] + rs[j + 1..], x);
      CountRemoved(rs, j, x);
    }
  }

  /** Permuting the input permutes the output: an item's result depends on its p-value and the bag of all p-values. */
  lemma PermutationEquivariant(ps: seq<real>, rs: seq<real>, v: real, q: real, alpha: real)
    requires multiset(ps) == multiset(rs)
    ensures IsQ(ps, v, q) <==> IsQ(rs, v, q)
    ensures StepsUp(ps, v, alpha) <==> StepsUp(rs, v, alpha)
  {
    hide CountLe, Scaled, Fits;
    forall w ensures CountLe(ps, w) == CountLe(rs, w) && (w in ps <==> w in rs) && |ps| == |rs| {
      CountOfMultiset(ps, rs, w);
      assert w in ps <==> w in multiset(ps);
      assert w in rs <==> w in multiset(rs);
    }
    forall w | w in ps ensures ScaledByCount(ps, w) == ScaledByCount(rs, w) {}
  }

  // ----- Bonferroni -----

  function BonferroniResult(name: string, p: real, n: nat, alpha: real): TestResult
    requires n > 0
  {
    TestResult(name, p, Min(1.0, p * n as real), p <= alpha / n as real)
  }

  function Bonferroni(items: seq<(string, real)>, alpha: real): (r: seq<TestResult>)
    ensures |r| == |items|
  {
    seq(|items|, i requires 0 <= i < |items| => BonferroniResult(items[i].0, items[i].1, |items|, alpha))
  }

  /** Each result is its own: rejected exactly when n times the p-value is at most alpha, with that product, capped at
      one, as adjusted value; below an alpha of one, rejection is adjusted value at most alpha. */
  lemma BonferroniMeaning(items: seq<(string, real)>, alpha: real, i: nat)
    requires i < |items|
    ensures var r, product := Bonferroni(items, alpha)[i], |items| as real * items[i].1;
      && r.name == items[i].0 && r.pValue == items[i].1
      && (r.reject <==> product <= alpha)
      && r.adjusted <= 1.0 && r.adjusted <= product && (r.adjusted == 1.0 || r.adjusted == product)
      && (alpha < 1.0 ==> (r.reject <==> r.adjusted <= alpha))
  {
    var p, n := items[i].1, |items| as real;
    DivTimes(alpha, n);
    CrossLe(p, alpha / n, n);
  }

  /** Whatever Bonferroni rejects, Benjamini-Hochberg rejects too, with a q-value no larger than Bonferroni's. */
  lemma BonferroniIsStricter(items: seq<(string, real)>, alpha: real, i: nat, q: real)
    requires i < |items| && items[i].1 >= 0.0 && IsQ(PValues(items), items[i].1, q)
    ensures Bonferroni(items, alpha)[i].reject ==> StepsUp(PValues(items), items[i].1, alpha)
    ensures q <= Bonferroni(items, alpha)[i].adjusted
  {
    var ps, p, n := PValues(items), items[i].1, |items|;
    assert ps[i] == p;
    CountsItself(ps, p);
    var k := CountLe(ps, p);
    hide CountLe;
    ScaledFalls(p, 1, k, n);
    FirstRank(p, n, alpha);
    FitsIffScaled(p, k, n, alpha);
    FitsIffScaled(p, 1, n, alpha);
    hide Scaled, Fits;
    assert q <= ScaledByCount(ps, p);
  }

  lemma FirstRank(p: real, n: nat, alpha: real)
    requires n > 0
    ensures Scaled(p, 1, n) == p * n as real
    ensures p <= alpha / n as real ==> Fits(p, 1, n, alpha)
  {
    var d := alpha / n as real;
    DivTimes(alpha, n as real);
    assert 1.0 / n as real * alpha * n as real == 1.0 / n as real * n as real * alpha;
    DivTimes(1.0, n as real);
    CrossLe(d, 1.0 / n as real * alpha, n as real);
  }
}
