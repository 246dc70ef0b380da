/** The single-pass drawdown loops of `backtesting/models.py` and `validation/monte_carlo.py`. */
module Drawdown {
  import opened Common
  import opened IndicatorSpec
  import opened Backtest

  /** Equity after the first `k` steps of a path that starts at zero. */
  function Equity(path: seq<real>, k: nat): real
    requires k <= |path|
  {
    Sum(path[..k])
  }

  /** `dd` is the largest fall of the equity curve from any earlier point to any later one. */
  ghost predicate IsMaxDrawdown(path: seq<real>, dd: real) { IsMaxFall(path, |path|, dd) }

  lemma EquityStep(path: seq<real>, k: nat)
    requires k < |path|
    ensures Equity(path, k + 1) == Equity(path, k) + path[k]
  {
    assert path[..k + 1] == path[..k] + [path[k]];
    SumAppend(path[..k], path[k]);
  }

  /** Tracking only the running peak finds the largest fall between any two points. */
  method MaxDrawdown(path: seq<real>) returns (worst: real)
    ensures IsMaxDrawdown(path, worst)
  {
    hide Equity;
    var peak, equity := 0.0, 0.0;
    worst := 0.0;
    EquityStart(path);
    var k := 0;
    while k < |path|
      invariant 0 <= k <= |path| && equity == Equity(path, k)
      invariant IsPeak(path, k, peak) && IsMaxFall(path, k, worst)
    {
      EquityStep(path, k);
      equity := equity + path[k];
      peak := NextPeak(path, k, peak, equity);
      worst := NextFall(path, k, peak, equity, worst);
      k := k + 1;
    }
  }

  /** The highest equity among the first `k` steps. */
  ghost predicate IsPeak(path: seq<real>, k: nat, peak: real)
    requires k <= |path|
  {
    && (exists i :: 0 <= i <= k && Equity(path, i) == peak)
    && (forall i :: 0 <= i <= k ==> Equity(path, i) <= peak)
  }

  /** The largest fall within the first `k` steps. */
  ghost predicate IsMaxFall(path: seq<real>, k: nat, worst: real)
    requires k <= |path|
  {
    && (exists i, j :: 0 <= i <= j <= k && Equity(path, i) - Equity(path, j) == worst)
    && (forall i, j :: 0 <= i <= j <= k ==> Equity(path, i) - Equity(path, j) <= worst)
  }

  method NextPeak(path: seq<real>, k: nat, peak: real, equity: real) returns (r: real)
    requires k < |path| && IsPeak(path, k, peak) && equity == Equity(path, k + 1)
    ensures IsPeak(path, k + 1, r)
  {
    hide Equity;
    r := Max(peak, equity);
    if r == peak {
      var i :| 0 <= i <= k && Equity(path, i) == peak;
      assert Equity(path, i) == r;
    }
  }

  method NextFall(path: seq<real>, k: nat, peak: real, equity: real, worst: real) returns (r: real)
    requires k < |path| && IsPeak(path, k + 1, peak) && equity == Equity(path, k + 1) && IsMaxFall(path, k, worst)
    ensures IsMaxFall(path, k + 1, r)
  {
    hide Equity;
    r := Max(worst, peak - equity);
    ghost var i :| 0 <= i <= k + 1 && Equity(path, i) == peak;
    ghost var from, to :| 0 <= from <= to <= k && Equity(path, from) - Equity(path, to) == worst;
    assert Equity(path, i) - Equity(path, k + 1) == peak - equity;
  }

  lemma EquityStart(path: seq<real>)
    ensures Equity(path, 0) == 0.0
  {}

  /** `max_drawdown_r`: the same loop over the R-multiples of a list of trades. */
  method MaxDrawdownR(trades: seq<Trade>) returns (dd: real)
    ensures IsMaxDrawdown(RMultiples(trades), dd)
  {
    dd := MaxDrawdown(RMultiples(trades));
  }

  /** How many steps of a path are negative: the number of losing trades. */
  function Negatives(path: seq<real>): nat {
    if |path| == 0 then 0
    else Negatives(path[..|path| - 1]) + (if path[|path| - 1] < 0.0 then 1 else 0)
  }

  lemma {:induction false} FallBoundedByLosses(path: seq<real>, i: nat, j: nat)
    requires i <= j <= |path|
    requires forall k :: 0 <= k < |path| ==> path[k] >= -1.0
    ensures Equity(path, i) - Equity(path, j) <= Negatives(path[..j]) as real
    decreases j
  {
    if i < j {
      FallBoundedByLosses(path, i, j - 1);
      EquityStep(path, j - 1);
      assert path[..j][..j - 1] == path[..j - 1];
    }
  }

  lemma {:induction false} NegativesGrow(path: seq<real>, j: nat)
    requires j <= |path|
    ensures Negatives(path[..j]) <= Negatives(path)
  {
    if j == |path| {
      assert path[..j] == path;
    } else {
      var init := path[..|path| - 1];
      NegativesGrow(init, j);
      assert init[..j] == path[..j];
    }
  }

  /** If no step loses more than one unit, the drawdown is at most the number of losing steps. */
  lemma DrawdownAtMostLosses(path: seq<real>, dd: real)
    requires forall k :: 0 <= k < |path| ==> path[k] >= -1.0
    requires IsMaxDrawdown(path, dd)
    ensures dd <= Negatives(path) as real
  {
    var i, j :| 0 <= i <= j <= |path| && Equity(path, i) - Equity(path, j) == dd;
    FallBoundedByLosses(path, i, j);
    NegativesGrow(path, j);
  }

  /** A whole backtest of a strategy with well-formed signals draws down by at most its number of losing trades. */
  lemma BacktestDrawdownAtMostLosses(setup: Setup, series: Series, bench: seq<Bar>, dd: real)
    requires SoundStrategy(setup) && AllTrades(setup, series, bench).Some?
    requires forall k :: 0 <= k < |series| ==> AllConsistent(series[k].1)
    requires IsMaxDrawdown(RMultiples(AllTrades(setup, series, bench).value), dd)
    ensures dd <= Negatives(RMultiples(AllTrades(setup, series, bench).value)) as real
  {
    hide AllTrades, RMultiple, IsMaxDrawdown;
    AllTradesBounded(setup, series, bench);
    DrawdownAtMostLosses(RMultiples(AllTrades(setup, series, bench).value), dd);
  }
}
