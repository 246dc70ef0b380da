/**
 * The batch indicator functions (`core.py`) and the batch bundle (`indicator_engine.py`).
 * Each loop fills an output list aligned with its input; every entry is proved to be the value
 * of the definition on the prefix that ends there, so no entry depends on a later bar.
 */
module BatchIndicators {
  import opened Common
  import opened IndicatorSpec

  type OptSeries = seq<Option<real>>

  /** Taking one more element of a sequence appends that element. */
  lemma TakeSucc<T>(xs: seq<T>, i: nat)
    requires i < |xs|
    ensures xs[..i + 1][..i] == xs[..i] && xs[..i + 1] == xs[..i] + [xs[i]]
  {}

  /** Sliding a window by one changes its sum by the element gained minus the element lost. */
  lemma SumSlide(xs: seq<real>, i: nat, p: nat)
    requires 0 < p <= i < |xs|
    ensures Sum(xs[i + 1 - p..i + 1]) == Sum(xs[i - p..i]) + xs[i] - xs[i - p]
  {
    var inner := xs[i + 1 - p..i];
    assert xs[i - p..i] == [xs[i - p]] + inner;
    assert xs[i + 1 - p..i + 1] == inner + [xs[i]];
    SumConcat([xs[i - p]], inner);
    SumAppend(inner, xs[i]);
    SumAppend([], xs[i - p]);
    assert [] + [xs[i - p]] == [xs[i - p]];
  }

  /** The moving average at bar `i` in terms of the window that ends there. */
  lemma SmaAt(values: seq<real>, i: nat, p: nat)
    requires 0 < p <= i + 1 <= |values|
    ensures Sma(values[..i + 1], p) == Some(Sum(values[i + 1 - p..i + 1]) / p as real)
  {
    assert values[..i + 1][i + 1 - p..] == values[i + 1 - p..i + 1];
  }

  method SmaSeries(values: seq<real>, period: nat) returns (out: OptSeries)
    requires period > 0
    ensures |out| == |values|
    ensures forall i :: 0 <= i < |values| ==> out[i] == Sma(values[..i + 1], period)
  {
    hide Sma, Sum;
    out := seq(|values|, _ => None);
    if |values| < period {
      return;
    }
    var windowSum := Sum(values[..period]);
    SmaAt(values, period - 1, period);
    assert values[0..period] == values[..period];
    out := out[period - 1 := Some(windowSum / period as real)];
    var i := period;
    while i < |values|
      invariant period <= i <= |values| && |out| == |values|
      invariant windowSum == Sum(values[i - period..i])
      invariant forall k :: 0 <= k < i ==> out[k] == Sma(values[..k + 1], period)
    {
      SumSlide(values, i, period);
      SmaAt(values, i, period);
      windowSum := windowSum + (values[i] - values[i - period]);
      out := out[i := Some(windowSum / period as real)];
      i := i + 1;
    }
  }

  /** The EMA recurrence, one value at a time. */
  method EmaUpdate(ghost past: seq<real>, prev: real, x: real, k: real, period: nat) returns (next: real)
    requires 0 < period <= |past| && k == Smoothing(period) && Some(prev) == Ema(past, period)
    ensures Some(next) == Ema(past + [x], period)
  {
    assert (past + [x])[..|past|] == past;
    next := x * k + prev * (1.0 - k);
    assert next == EmaStep(prev, x, period);
  }

  /** Wilder's recurrence, one value at a time. */
  method WilderUpdate(ghost past: seq<real>, prev: real, x: real, period: nat) returns (next: real)
    requires 0 < period <= |past| && Some(prev) == Wilder(past, period)
    ensures Some(next) == Wilder(past + [x], period)
  {
    assert (past + [x])[..|past|] == past;
    next := (prev * (period as real - 1.0) + x) / period as real;
    assert next == WilderStep(prev, x, period);
  }

  /** The seed of both averages: the mean of the first `period` values. */
  method SeedMean(xs: seq<real>, period: nat) returns (r: real)
    requires |xs| == period > 0
    ensures Some(r) == Ema(xs, period) == Wilder(xs, period)
  {
    r := Sum(xs) / period as real;
  }

  method EmaSeries(values: seq<real>, period: nat) returns (out: OptSeries)
    requires period > 0
    ensures |out| == |values|
    ensures forall i :: 0 <= i < |values| ==> out[i] == Ema(values[..i + 1], period)
  {
    out := seq(|values|, _ => None);
    if |values| < period {
      return;
    }
    hide Ema;
    var k := 2.0 / (period as real + 1.0);
    var prev := SeedMean(values[..period], period);
    out := out[period - 1 := Some(prev)];
    var i := period;
    while i < |values|
      invariant period <= i <= |values| && |out| == |values|
      invariant k == Smoothing(period) && Some(prev) == Ema(values[..i], period)
      invariant forall j :: 0 <= j < i ==> out[j] == Ema(values[..j + 1], period)
    {
      TakeSucc(values, i);
      prev := EmaUpdate(values[..i], prev, values[i], k, period);
      out := out[i := Some(prev)];
      i := i + 1;
    }
  }

  method WilderSeries(values: seq<real>, period: nat) returns (out: OptSeries)
    requires period > 0
    ensures |out| == |values|
    ensures forall i :: 0 <= i < |values| ==> out[i] == Wilder(values[..i + 1], period)
  {
    out := seq(|values|, _ => None);
    if |values| < period {
      return;
    }
    hide Wilder;
    var prev := SeedMean(values[..period], period);
    out := out[period - 1 := Some(prev)];
    var i := period;
    while i < |values|
      invariant period <= i <= |values| && |out| == |values|
      invariant Some(prev) == Wilder(values[..i], period)
      invariant forall j :: 0 <= j < i ==> out[j] == Wilder(values[..j + 1], period)
    {
      TakeSucc(values, i);
      prev := WilderUpdate(values[..i], prev, values[i], period);
      out := out[i := Some(prev)];
      i := i + 1;
    }
  }

  /** The gain and loss lists, with the leading 0.0 the code keeps so that they align with `close`. */
  method ChangeLists(close: seq<real>) returns (gains: seq<real>, losses: seq<real>)
    requires |close| > 0
    ensures gains == [0.0] + Gains(close) && losses == [0.0] + Losses(close)
  {
    gains, losses := [0.0], [0.0];
    var i := 1;
    while i < |close|
      invariant 1 <= i <= |close|
      invariant gains == [0.0] + Gains(close[..i]) && losses == [0.0] + Losses(close[..i])
    {
      TakeSucc(close, i);
      var change := close[i] - close[i - 1];
      gains, losses := gains + [Max(change, 0.0)], losses + [Max(-change, 0.0)];
      i := i + 1;
    }
    assert close[..i] == close;
  }

  method RsiSeries(close: seq<real>, period: nat) returns (out: OptSeries)
    requires period > 0
    ensures |out| == |close|
    ensures forall i :: 0 <= i < |close| ==> out[i] == Rsi(close[..i + 1], period)
  {
    out := seq(|close|, _ => None);
    if |close| <= period {
      return;
    }
    var gains, losses := ChangeLists(close);
    var g, l := gains[1..], losses[1..];
    assert gains[1..period + 1] == g[..period] && losses[1..period + 1] == l[..period];
    var avgGain := SeedMean(gains[1..period + 1], period);
    var avgLoss := SeedMean(losses[1..period + 1], period);
    out := RsiSmooth(close, g, l, avgGain, avgLoss, period);
  }

  /** The smoothing loop of `rsi`, from the seeded averages on. */
  method RsiSmooth(close: seq<real>, g: seq<real>, l: seq<real>, seedGain: real, seedLoss: real, period: nat)
    returns (out: OptSeries)
    requires 0 < period < |close| && g == Gains(close) && l == Losses(close)
    requires Some(seedGain) == Wilder(g[..period], period) && Some(seedLoss) == Wilder(l[..period], period)
    ensures |out| == |close|
    ensures forall i :: 0 <= i < |close| ==> out[i] == Rsi(close[..i + 1], period)
  {
    hide Wilder, Gains, Losses, Rsi, RsiValue;
    out := seq(|close|, _ => None);
    var avgGain, avgLoss := seedGain, seedLoss;
    var entry := RsiEntry(close, period, period, avgGain, avgLoss);
    out := out[period := entry];
    var i := period + 1;
    while i < |close|
      invariant period < i <= |close| == |out|
      invariant Some(avgGain) == Wilder(g[..i - 1], period) && Some(avgLoss) == Wilder(l[..i - 1], period)
      invariant forall k :: 0 <= k < i ==> out[k] == Rsi(close[..k + 1], period)
    {
      TakeSucc(g, i - 1);
      TakeSucc(l, i - 1);
      avgGain := WilderUpdate(g[..i - 1], avgGain, g[i - 1], period);
      avgLoss := WilderUpdate(l[..i - 1], avgLoss, l[i - 1], period);
      entry := RsiEntry(close, period, i, avgGain, avgLoss);
      out := out[i := entry];
      i := i + 1;
    }
  }

  lemma {:induction false} GainsOfPrefix(close: seq<real>, i: nat)
    requires i < |close|
    ensures Gains(close[..i + 1]) == Gains(close)[..i]
    ensures Losses(close[..i + 1]) == Losses(close)[..i]
  {
    if i + 1 == |close| {
      assert close[..i + 1] == close;
    } else {
      var m := |close| - 1;
      GainsOfPrefix(close[..m], i);
      assert close[..m][..i + 1] == close[..i + 1];
    }
  }

  /** The output entry at bar `i`, from the averages of the first `i` changes. */
  function RsiEntry(close: seq<real>, p: nat, i: nat, avgGain: real, avgLoss: real): (r: Option<real>)
    requires 0 < p <= i < |close|
    requires Some(avgGain) == Wilder(Gains(close)[..i], p) && Some(avgLoss) == Wilder(Losses(close)[..i], p)
    ensures r == Rsi(close[..i + 1], p)
  {
    GainsOfPrefix(close, i);
    GainsNonNegative(close[..i + 1]);
    WilderNonNegative(Gains(close[..i + 1]), p);
    WilderNonNegative(Losses(close[..i + 1]), p);
    Some(RsiValue(avgGain, avgLoss))
  }

  // ----- Smoothing the defined part of a series -----

  /** The defined values of a series, in order. */
  function DefinedValues(series: OptSeries): (r: seq<real>)
    ensures |r| <= |series|
  {
    if |series| == 0 then []
    else
      DefinedValues(series[..|series| - 1])
      + (match series[|series| - 1] case Some(v) => [v] case None => [])
  }

  /** The positions of the defined values of a series. */
  function DefinedIndices(series: OptSeries): (r: seq<nat>)
    ensures |r| == |DefinedValues(series)|
    ensures forall j :: 0 <= j < |r| ==> r[j] < |series|
  {
    if |series| == 0 then []
    else
      var n := |series| - 1;
      DefinedIndices(series[..n]) + (if series[n].Some? then [n] else [])
  }

  lemma {:induction false} IndicesIncrease(series: OptSeries)
    ensures var r := DefinedIndices(series); forall j, k :: 0 <= j < k < |r| ==> r[j] < r[k]
  {
    if |series| > 0 {
      var past := series[..|series| - 1];
      IndicesIncrease(past);
      assert forall j :: 0 <= j < |DefinedIndices(past)| ==> DefinedIndices(series)[j] == DefinedIndices(past)[j];
    }
  }

  lemma {:induction false} IndicesAreDefined(series: OptSeries)
    ensures forall j :: 0 <= j < |DefinedIndices(series)| ==> series[DefinedIndices(series)[j]].Some?
  {
    if |series| > 0 {
      IndicesAreDefined(series[..|series| - 1]);
    }
  }

  /** A defined entry sits in the list at the number of defined entries before it. */
  lemma {:induction false} IndexOfDefined(series: OptSeries, i: nat) returns (j: nat)
    requires i < |series| && series[i].Some?
    ensures j < |DefinedIndices(series)| && DefinedIndices(series)[j] == i
    ensures DefinedValues(series[..i + 1]) == DefinedValues(series)[..j + 1]
  {
    var n := |series| - 1;
    if i == n {
      j := |DefinedIndices(series)| - 1;
      assert series[..i + 1] == series;
    } else {
      j := IndexOfDefined(series[..n], i);
      assert series[..n][..i + 1] == series[..i + 1];
      assert DefinedValues(series[..n]) <= DefinedValues(series);
    }
  }

  /** The list of defined entries with their positions, as both `macd` and `adx` build it. */
  method DefinedEntries(series: OptSeries) returns (idxs: seq<nat>, vals: seq<real>)
    ensures vals == DefinedValues(series) && idxs == DefinedIndices(series)
  {
    idxs, vals := [], [];
    var i := 0;
    while i < |series|
      invariant 0 <= i <= |series|
      invariant vals == DefinedValues(series[..i]) && idxs == DefinedIndices(series[..i])
    {
      TakeSucc(series, i);
      if series[i].Some? {
        idxs, vals := idxs + [i], vals + [series[i].value];
      }
      i := i + 1;
    }
    assert series[..i] == series;
  }

  /** Writes the smoothed values back to the positions they came from. */
  method Scatter(n: nat, idxs: seq<nat>, smoothed: OptSeries) returns (out: OptSeries)
    requires |idxs| == |smoothed|
    requires forall j :: 0 <= j < |idxs| ==> idxs[j] < n
    requires forall j, k :: 0 <= j < k < |idxs| ==> idxs[j] < idxs[k]
    ensures |out| == n
    ensures forall j :: 0 <= j < |idxs| ==> out[idxs[j]] == smoothed[j]
    ensures forall i :: 0 <= i < n && i !in idxs ==> out[i] == None
  {
    out := seq(n, _ => None);
    var j := 0;
    while j < |idxs|
      invariant 0 <= j <= |idxs| && |out| == n
      invariant forall k :: 0 <= k < j ==> out[idxs[k]] == smoothed[k]
      invariant forall i :: 0 <= i < n && i !in idxs ==> out[i] == None
    {
      out := out[idxs[j] := smoothed[j]];
      j := j + 1;
    }
  }

  // ----- MACD -----

  method MacdLineSeries(close: seq<real>, fast: nat, slow: nat) returns (line: OptSeries)
    requires fast > 0 && slow > 0
    ensures |line| == |close|
    ensures forall i :: 0 <= i < |close| ==> line[i] == MacdLine(close[..i + 1], fast, slow)
  {
    hide Ema;
    var emaFast := EmaSeries(close, fast);
    var emaSlow := EmaSeries(close, slow);
    line := [];
    var i := 0;
    while i < |close|
      invariant 0 <= i <= |close| && |line| == i
      invariant forall k :: 0 <= k < i ==> line[k] == MacdLine(close[..k + 1], fast, slow)
    {
      if emaFast[i].Some? && emaSlow[i].Some? {
        line := line + [Some(emaFast[i].value - emaSlow[i].value)];
      } else {
        line := line + [None];
      }
      i := i + 1;
    }
  }

  lemma {:induction false} MacdDefinedIsFilter(close: seq<real>, fast: nat, slow: nat, line: OptSeries, i: nat)
    requires fast > 0 && slow > 0 && |line| == |close| && i <= |close|
    requires forall k :: 0 <= k < |close| ==> line[k] == MacdLine(close[..k + 1], fast, slow)
    ensures MacdDefined(close[..i], fast, slow) == DefinedValues(line[..i])
  {
    hide MacdLine;
    if i > 0 {
      MacdDefinedIsFilter(close, fast, slow, line, i - 1);
      TakeSucc(close, i - 1);
      TakeSucc(line, i - 1);
    }
  }

  /** Distance of two values, where both are defined. */
  function Difference(a: Option<real>, b: Option<real>): Option<real> {
    if a.Some? && b.Some? then Some(a.value - b.value) else None
  }

  method Differences(a: OptSeries, b: OptSeries) returns (out: OptSeries)
    requires |a| == |b|
    ensures |out| == |a| && forall i :: 0 <= i < |a| ==> out[i] == Difference(a[i], b[i])
  {
    out := seq(|a|, _ => None);
    for i := 0 to |a|
      invariant |out| == |a|
      invariant forall k :: 0 <= k < |a| ==> out[k] == if k < i then Difference(a[k], b[k]) else None
    {
      if a[i].Some? && b[i].Some? {
        out := out[i := Some(a[i].value - b[i].value)];
      }
    }
  }

  method MacdSeries(close: seq<real>, fast: nat, slow: nat, signal: nat)
    returns (line: OptSeries, signalLine: OptSeries, histogram: OptSeries)
    requires fast > 0 && slow > 0 && signal > 0
    ensures |line| == |signalLine| == |histogram| == |close|
    ensures forall i :: 0 <= i < |close| ==> line[i] == MacdLine(close[..i + 1], fast, slow)
    ensures forall i :: 0 <= i < |close| ==>
      signalLine[i] == (if line[i].Some? then MacdSignal(close[..i + 1], fast, slow, signal) else None)
    ensures forall i :: 0 <= i < |close| ==> histogram[i] == Difference(line[i], signalLine[i])
    ensures forall i :: 0 <= i < |close| && histogram[i].Some? ==>
      line[i].Some? && signalLine[i].Some? && histogram[i].value + signalLine[i].value == line[i].value
  {
    hide Ema, MacdDefined, MacdLine, DefinedValues, DefinedIndices;
    line := MacdLineSeries(close, fast, slow);
    var idxs, vals := DefinedEntries(line);
    IndicesIncrease(line);
    IndicesAreDefined(line);
    var sigVals := seq(|vals|, _ => None);
    if |vals| >= signal {
      sigVals := EmaSeries(vals, signal);
    }
    signalLine := Scatter(|close|, idxs, sigVals);
    histogram := Differences(line, signalLine);
    forall i | 0 <= i < |close|
      ensures signalLine[i] == (if line[i].Some? then MacdSignal(close[..i + 1], fast, slow, signal) else None)
    {
      if line[i].Some? {
        var j := IndexOfDefined(line, i);
        MacdDefinedIsFilter(close, fast, slow, line, i + 1);
        assert sigVals[j] == Ema(vals[..j + 1], signal);
      }
    }
  }

  lemma {:induction false} MacdDefinedStart(close: seq<real>, fast: nat, slow: nat)
    requires fast > 0 && slow > 0
    ensures MacdLine(close, fast, slow).None? ==> MacdDefined(close, fast, slow) == []
  {
    if |close| > 0 {
      MacdDefinedStart(close[..|close| - 1], fast, slow);
    }
  }

  /** Longer histories define at least as many MACD values. */
  lemma {:induction false} MacdDefinedGrows(close: seq<real>, fast: nat, slow: nat, i: nat)
    requires fast > 0 && slow > 0 && i <= |close|
    ensures |MacdDefined(close[..i], fast, slow)| <= |MacdDefined(close, fast, slow)|
  {
    if i == |close| {
      assert close[..i] == close;
    } else {
      var past := close[..|close| - 1];
      MacdDefinedGrows(past, fast, slow, i);
      assert past[..i] == close[..i];
    }
  }

  // ----- True range, ATR -----

  method TrueRangeSeries(bars: seq<Bar>) returns (tr: seq<real>)
    ensures tr == TrueRanges(bars)
  {
    if |bars| == 0 {
      return [];
    }
    tr := [bars[0].high - bars[0].low];
    var i := 1;
    while i < |bars|
      invariant 1 <= i <= |bars| && tr == TrueRanges(bars[..i])
    {
      TakeSucc(bars, i);
      tr := tr + [Max(Max(bars[i].high - bars[i].low, Abs(bars[i].high - bars[i - 1].close)),
                      Abs(bars[i].low - bars[i - 1].close))];
      i := i + 1;
    }
    assert bars[..i] == bars;
  }

  lemma {:induction false} TrueRangesPrefix(bars: seq<Bar>, i: nat)
    requires i <= |bars|
    ensures TrueRanges(bars[..i]) == TrueRanges(bars)[..i]
  {
    if i == |bars| {
      assert bars[..i] == bars;
    } else {
      var past := bars[..|bars| - 1];
      TrueRangesPrefix(past, i);
      assert past[..i] == bars[..i];
    }
  }

  method AtrSeries(bars: seq<Bar>, period: nat) returns (out: OptSeries)
    requires period > 0
    ensures |out| == |bars|
    ensures forall i :: 0 <= i < |bars| ==> out[i] == Atr(bars[..i + 1], period)
  {
    var tr := TrueRangeSeries(bars);
    out := WilderSeries(tr, period);
    forall i | 0 <= i < |bars| ensures out[i] == Atr(bars[..i + 1], period) {
      TrueRangesPrefix(bars, i + 1);
    }
  }

  // ----- SuperTrend -----

  /** The loop body of `supertrend`: the next bands, line and direction from the previous ones. */
  method TrendUpdate(prev: Option<Trend>, prevClose: Option<real>, b: Bar, reach: real)
    returns (upper: real, lower: real, st: real, curDir: int)
    requires prev.Some? ==> prevClose.Some?
    ensures Trend(upper, lower, st, curDir) == NextTrend(prev, prevClose, b, reach)
  {
    var mid := (b.high + b.low) / 2.0;
    var basicUpper, basicLower := mid + reach, mid - reach;
    upper, lower := basicUpper, basicLower;
    if prev.Some? {
      var keepUpper := basicUpper < prev.value.upper || prevClose.value > prev.value.upper;
      var keepLower := basicLower > prev.value.lower || prevClose.value < prev.value.lower;
      upper := if keepUpper then basicUpper else prev.value.upper;
      lower := if keepLower then basicLower else prev.value.lower;
    }
    if prev.None? {
      curDir := if b.close >= mid then 1 else -1;
      st := if curDir == 1 then lower else upper;
    } else if b.close > (if prev.value.dir == -1 then prev.value.upper else prev.value.line) {
      curDir, st := 1, lower;
    } else if b.close < (if prev.value.dir == 1 then prev.value.lower else prev.value.line) {
      curDir, st := -1, upper;
    } else {
      curDir := prev.value.dir;
      st := if curDir == 1 then lower else upper;
    }
  }

  lemma SuperTrendStep(bars: seq<Bar>, i: nat, p: nat, mult: real)
    requires 0 < p && i < |bars|
    ensures SuperTrend(bars[..i + 1], p, mult) ==
      if i + 1 < p then None
      else Some(NextTrend(SuperTrend(bars[..i], p, mult), if i > 0 then Some(bars[i - 1].close) else None,
                          bars[i], Reach(mult, Atr(bars[..i + 1], p).value)))
  {
    hide NextTrend, Atr;
    TakeSucc(bars, i);
  }

  /** The output lists of `supertrend` zipped together: line, direction and the two bands of each bar. */
  method SuperTrendSeries(bars: seq<Bar>, period: nat, mult: real) returns (out: seq<Option<Trend>>)
    requires period > 0
    ensures |out| == |bars|
    ensures forall i :: 0 <= i < |bars| ==> out[i] == SuperTrend(bars[..i + 1], period, mult)
  {
    hide Atr, NextTrend, SuperTrend;
    var atr := AtrSeries(bars, period);
    out := seq(|bars|, _ => None);
    var prev: Option<Trend> := None;
    var i := 0;
    while i < |bars|
      invariant 0 <= i <= |bars| == |out|
      invariant prev == SuperTrend(bars[..i], period, mult)
      invariant forall k :: 0 <= k < i ==> out[k] == SuperTrend(bars[..k + 1], period, mult)
      invariant forall k :: i <= k < |bars| ==> out[k] == None
    {
      SuperTrendStep(bars, i, period, mult);
      if atr[i].Some? {
        var prevClose := if i > 0 then Some(bars[i - 1].close) else None;
        var upper, lower, st, curDir := TrendUpdate(prev, prevClose, bars[i], Reach(mult, atr[i].value));
        prev := Some(Trend(upper, lower, st, curDir));
        out := out[i := prev];
      }
      i := i + 1;
    }
  }

  // ----- Bollinger -----

  method BandsOfWindow(ghost past: seq<real>, window: seq<real>, m: real, period: nat, mult: real, sqrt: real -> real)
    returns (upper: real, lower: real)
    requires 0 < period <= |past| && window == past[|past| - period..] && Sma(past, period) == Some(m)
    ensures Bollinger(past, period, mult, sqrt) == Some(Bands(upper, m, lower))
  {
    var variance := Sum(SquaredDeviations(window, m)) / period as real;
    var sd := sqrt(variance);
    var reach := Reach(mult, sd);
    upper, lower := m + reach, m - reach;
  }

  method BollingerSeries(close: seq<real>, period: nat, mult: real, sqrt: real -> real)
    returns (upper: OptSeries, middle: OptSeries, lower: OptSeries)
    requires period > 0
    ensures |upper| == |middle| == |lower| == |close|
    ensures forall i :: 0 <= i < |close| ==>
      var b := Bollinger(close[..i + 1], period, mult, sqrt);
      upper[i] == UpperOf(b) && middle[i] == Sma(close[..i + 1], period) && lower[i] == LowerOf(b)
  {
    hide Bollinger, Sma;
    var n := |close|;
    middle := SmaSeries(close, period);
    upper, lower := seq(n, _ => None), seq(n, _ => None);
    var i := period - 1;
    while i < n
      invariant period - 1 <= i && (i <= n || i == period - 1) && |upper| == |lower| == n
      invariant forall k :: 0 <= k < i && k < n ==>
        upper[k] == UpperOf(Bollinger(close[..k + 1], period, mult, sqrt)) &&
        lower[k] == LowerOf(Bollinger(close[..k + 1], period, mult, sqrt))
      invariant forall k :: i <= k < n ==> upper[k] == None && lower[k] == None
    {
      var up, lo := BandsOfWindow(close[..i + 1], close[i - period + 1..i + 1], middle[i].value, period, mult, sqrt);
      upper, lower := upper[i := Some(up)], lower[i := Some(lo)];
      i := i + 1;
    }
  }

  // ----- ADX -----

  method MoveSeries(bars: seq<Bar>) returns (plus: seq<real>, minus: seq<real>)
    requires |bars| > 0
    ensures plus == PlusMoves(bars) && minus == MinusMoves(bars)
  {
    plus, minus := [0.0], [0.0];
    var i := 1;
    while i < |bars|
      invariant 1 <= i <= |bars| && plus == PlusMoves(bars[..i]) && minus == MinusMoves(bars[..i])
    {
      TakeSucc(bars, i);
      var up := bars[i].high - bars[i - 1].high;
      var down := bars[i - 1].low - bars[i].low;
      plus := plus + [if up > down && up > 0.0 then up else 0.0];
      minus := minus + [if down > up && down > 0.0 then down else 0.0];
      i := i + 1;
    }
    assert bars[..i] == bars;
  }

  lemma {:induction false} MovesPrefix(bars: seq<Bar>, i: nat)
    requires i <= |bars|
    ensures PlusMoves(bars[..i]) == PlusMoves(bars)[..i]
    ensures MinusMoves(bars[..i]) == MinusMoves(bars)[..i]
  {
    if i == |bars| {
      assert bars[..i] == bars;
    } else {
      var past := bars[..|bars| - 1];
      MovesPrefix(past, i);
      assert past[..i] == bars[..i];
    }
  }

  /** The two directional indicators and the directional index of one bar. */
  method DxEntry(atr: Option<real>, plus: Option<real>, minus: Option<real>)
    returns (dx: Option<real>, plusDi: Option<real>, minusDi: Option<real>)
    requires atr.Some? ==> plus.Some? && minus.Some?
    ensures dx == if atr.Some? then Dx(atr.value, plus.value, minus.value) else None
    ensures plusDi == (if atr.Some? then Di(atr.value, plus.value) else None)
    ensures minusDi == (if atr.Some? then Di(atr.value, minus.value) else None)
  {
    dx, plusDi, minusDi := None, None, None;
    if atr.Some? && atr.value != 0.0 {
      var pdi := 100.0 * (plus.value / atr.value);
      var mdi := 100.0 * (minus.value / atr.value);
      plusDi, minusDi := Some(pdi), Some(mdi);
      var denom := pdi + mdi;
      dx := Some(if denom != 0.0 then 100.0 * Abs(pdi - mdi) / denom else 0.0);
    }
  }

  method DxSeries(bars: seq<Bar>, period: nat) returns (dx: OptSeries, plusDi: OptSeries, minusDi: OptSeries)
    requires period > 0 && |bars| > 0
    ensures |dx| == |plusDi| == |minusDi| == |bars|
    ensures forall i :: 0 <= i < |bars| ==> dx[i] == DxAt(bars[..i + 1], period)
    ensures forall i :: 0 <= i < |bars| ==> plusDi[i] == PlusDiAt(bars[..i + 1], period)
    ensures forall i :: 0 <= i < |bars| ==> minusDi[i] == MinusDiAt(bars[..i + 1], period)
  {
    hide Wilder, PlusMoves, MinusMoves, TrueRanges, Dx, Di;
    var plusDm, minusDm := MoveSeries(bars);
    var atr := AtrSeries(bars, period);
    var plus := WilderSeries(plusDm, period);
    var minus := WilderSeries(minusDm, period);
    dx, plusDi, minusDi := [], [], [];
    var i := 0;
    while i < |bars|
      invariant 0 <= i <= |bars| && |dx| == |plusDi| == |minusDi| == i
      invariant forall k :: 0 <= k < i ==> dx[k] == DxAt(bars[..k + 1], period)
      invariant forall k :: 0 <= k < i ==> plusDi[k] == PlusDiAt(bars[..k + 1], period)
      invariant forall k :: 0 <= k < i ==> minusDi[k] == MinusDiAt(bars[..k + 1], period)
    {
      MovesPrefix(bars, i + 1);
      var d, p, m := DxEntry(atr[i], plus[i], minus[i]);
      dx, plusDi, minusDi := dx + [d], plusDi + [p], minusDi + [m];
      i := i + 1;
    }
  }

  lemma {:induction false} DxDefinedIsFilter(bars: seq<Bar>, p: nat, dx: OptSeries, i: nat)
    requires p > 0 && |dx| == |bars| && i <= |bars|
    requires forall k :: 0 <= k < |bars| ==> dx[k] == DxAt(bars[..k + 1], p)
    ensures DxDefined(bars[..i], p) == DefinedValues(dx[..i])
  {
    hide DxAt;
    if i > 0 {
      DxDefinedIsFilter(bars, p, dx, i - 1);
      TakeSucc(bars, i - 1);
      TakeSucc(dx, i - 1);
    }
  }

  /** The last defined entry of a series (`_last`). */
  function LastDefined<T>(series: seq<Option<T>>): Option<T> {
    if |series| == 0 then None
    else if series[|series| - 1].Some? then series[|series| - 1]
    else LastDefined(series[..|series| - 1])
  }

  lemma {:induction false} LastDefinedAt<T>(series: seq<Option<T>>, i: nat)
    requires i < |series| && series[i].Some?
    requires forall k :: i < k < |series| ==> series[k] == None
    ensures LastDefined(series) == series[i]
  {
    if i < |series| - 1 {
      LastDefinedAt(series[..|series| - 1], i);
    }
  }

  lemma {:induction false} LastDefinedNone<T>(series: seq<Option<T>>)
    requires forall k :: 0 <= k < |series| ==> series[k] == None
    ensures LastDefined(series) == None
  {
    if |series| > 0 {
      LastDefinedNone(series[..|series| - 1]);
    }
  }

  /** The averages of the defined indices, put back at the bars they belong to. */
  method SmoothedDx(bars: seq<Bar>, period: nat, dx: OptSeries) returns (out: OptSeries)
    requires period > 0 && |dx| == |bars|
    requires forall i :: 0 <= i < |bars| ==> dx[i] == DxAt(bars[..i + 1], period)
    ensures |out| == |bars|
    ensures forall i :: 0 <= i < |bars| ==> out[i] == AdxAt(bars[..i + 1], period)
  {
    hide Wilder, DxDefined, DxAt, DefinedValues, DefinedIndices;
    var idxs, vals := DefinedEntries(dx);
    IndicesIncrease(dx);
    IndicesAreDefined(dx);
    var smoothed := seq(|vals|, _ => None);
    if |vals| >= period {
      smoothed := WilderSeries(vals, period);
    }
    out := Scatter(|bars|, idxs, smoothed);
    forall i | 0 <= i < |bars| ensures out[i] == AdxAt(bars[..i + 1], period) {
      if dx[i].Some? {
        var j := IndexOfDefined(dx, i);
        DxDefinedIsFilter(bars, period, dx, i + 1);
        assert smoothed[j] == Wilder(vals[..j + 1], period);
      }
    }
  }

  /** All three series are empty of values until the history is longer than two periods. */
  method AdxSeries(bars: seq<Bar>, period: nat) returns (out: OptSeries, plusDi: OptSeries, minusDi: OptSeries)
    requires period > 0
    ensures |out| == |plusDi| == |minusDi| == |bars|
    ensures forall i :: 0 <= i < |bars| ==>
      out[i] == if |bars| <= 2 * period then None else AdxAt(bars[..i + 1], period)
    ensures forall i :: 0 <= i < |bars| ==>
      plusDi[i] == if |bars| <= 2 * period then None else PlusDiAt(bars[..i + 1], period)
    ensures forall i :: 0 <= i < |bars| ==>
      minusDi[i] == if |bars| <= 2 * period then None else MinusDiAt(bars[..i + 1], period)
  {
    hide DxAt, AdxAt, PlusDiAt, MinusDiAt;
    var dx;
    if |bars| <= period * 2 {
      out := seq(|bars|, _ => None);
      return out, out, out;
    }
    dx, plusDi, minusDi := DxSeries(bars, period);
    out := SmoothedDx(bars, period, dx);
  }

  /** The last defined entry of the series is the ADX of the history. */
  lemma LatestAdx(bars: seq<Bar>, period: nat, out: OptSeries)
    requires period > 0 && |out| == |bars|
    requires forall i :: 0 <= i < |bars| ==>
      out[i] == if |bars| <= 2 * period then None else AdxAt(bars[..i + 1], period)
    ensures LastDefined(out) == Adx(bars, period)
  {
    if |bars| <= 2 * period {
      LastDefinedNone(out);
    } else {
      LatestSmoothed(bars, period, out);
    }
  }

  lemma {:induction false} LatestSmoothed(bars: seq<Bar>, period: nat, out: OptSeries)
    requires period > 0 && |out| == |bars|
    requires forall i :: 0 <= i < |bars| ==> out[i] == AdxAt(bars[..i + 1], period)
    ensures LastDefined(out) == Wilder(DxDefined(bars, period), period)
  {
    hide Wilder, DxAt;
    if |bars| > 0 {
      var n := |bars| - 1;
      assert bars[..n + 1] == bars;
      if DxAt(bars, period).None? || out[n].None? {
        forall i | 0 <= i < n ensures out[..n][i] == AdxAt(bars[..n][..i + 1], period) {
          assert bars[..n][..i + 1] == bars[..i + 1];
        }
        LatestSmoothed(bars[..n], period, out[..n]);
        assert DxAt(bars, period).None? ==> DxDefined(bars, period) == DxDefined(bars[..n], period);
      }
    }
  }

  // ----- VWAP -----

  function VwapEntry(bars: seq<Bar>, cumPv: real, cumVol: int): (r: Option<real>)
    requires cumPv == TradedValue(bars) && cumVol == TradedVolume(bars)
    ensures r == Vwap(bars)
  {
    if cumVol != 0 then Some(cumPv / cumVol as real) else None
  }

  method VwapSeries(bars: seq<Bar>) returns (out: OptSeries)
    ensures |out| == |bars|
    ensures forall i :: 0 <= i < |bars| ==> out[i] == Vwap(bars[..i + 1])
  {
    hide Typical, Vwap;
    out := [];
    var cumPv, cumVol := 0.0, 0;
    var i := 0;
    while i < |bars|
      invariant 0 <= i <= |bars| && |out| == i
      invariant cumPv == TradedValue(bars[..i]) && cumVol == TradedVolume(bars[..i])
      invariant forall k :: 0 <= k < i ==> out[k] == Vwap(bars[..k + 1])
    {
      TakeSucc(bars, i);
      cumPv := cumPv + Typical(bars[i]) * bars[i].volume as real;
      cumVol := cumVol + bars[i].volume;
      out := out + [VwapEntry(bars[..i + 1], cumPv, cumVol)];
      i := i + 1;
    }
  }

  /** Once something has traded, the cumulative volume stays positive, so the last entry is the last defined one. */
  lemma {:induction false} VwapLast(bars: seq<Bar>, out: OptSeries)
    requires |out| == |bars|
    requires forall i :: 0 <= i < |bars| ==> out[i] == Vwap(bars[..i + 1])
    ensures LastDefined(out) == Vwap(bars) && TradedVolume(bars) >= 0
  {
    var n := |bars|;
    if n > 0 {
      assert bars[..n] == bars;
      var past := bars[..n - 1];
      forall i | 0 <= i < n - 1 ensures out[i] == Vwap(past[..i + 1]) {
        assert past[..i + 1] == bars[..i + 1];
      }
      VwapLast(past, out[..n - 1]);
    }
  }

  // ----- The bundle -----

  /** A series whose entries are defined exactly from some bar on has its last entry as last defined one. */
  lemma LastOfSeries<T>(series: seq<Option<T>>)
    requires |series| > 0
    requires series[|series| - 1].None? ==> forall k :: 0 <= k < |series| ==> series[k].None?
    ensures LastDefined(series) == series[|series| - 1]
  {
    if series[|series| - 1].None? {
      LastDefinedNone(series);
    }
  }

  method ClosesOf(bars: seq<Bar>) returns (closes: seq<real>)
    ensures closes == Closes(bars)
  {
    closes := [];
    var i := 0;
    while i < |bars|
      invariant 0 <= i <= |bars| && closes == Closes(bars[..i])
    {
      TakeSucc(bars, i);
      closes := closes + [bars[i].close];
      i := i + 1;
    }
    assert bars[..i] == bars;
  }

  /** `compute_bundle`: the latest value of every indicator over a whole history; nothing for an empty one. */
  method ComputeBundle(bars: seq<Bar>, sqrt: real -> real) returns (r: Option<Bundle>)
    ensures r == if |bars| == 0 then None else Some(FullBundle(bars, sqrt))
  {
    if |bars| == 0 {
      return None;
    }
    hide Ema, Rsi, Atr, SuperTrend, MacdLine, MacdSignal, Adx, Bollinger, Vwap, Closes;
    var n := |bars|;
    var closes := ClosesOf(bars);
    assert closes[..n] == closes && bars[..n] == bars;
    var e9 := EmaSeries(closes, 9);
    LastOfSeries(e9);
    var e21 := EmaSeries(closes, 21);
    LastOfSeries(e21);
    var e50 := EmaSeries(closes, 50);
    LastOfSeries(e50);
    var e200 := EmaSeries(closes, 200);
    LastOfSeries(e200);
    var rsi := RsiSeries(closes, 14);
    LastOfSeries(rsi);
    var macd, macdSignal := LatestMacd(closes);
    var atr := AtrSeries(bars, 14);
    LastOfSeries(atr);
    var adx, _, _ := AdxSeries(bars, 14);
    LatestAdx(bars, 14, adx);
    var vwap := VwapSeries(bars);
    VwapLast(bars, vwap);
    var st := SuperTrendSeries(bars, 10, 3.0);
    LastOfSeries(st);
    var bbUpper, bbLower := LatestBands(closes, sqrt);
    r := Some(Bundle(
      LastDefined(e9), LastDefined(e21), LastDefined(e50), LastDefined(e200),
      LastDefined(rsi), macd, macdSignal, LastDefined(atr), LastDefined(adx), LastDefined(vwap),
      LineOf(LastDefined(st)), DirOf(LastDefined(st)), bbUpper, bbLower));
  }

  method LatestMacd(closes: seq<real>) returns (macd: Option<real>, macdSignal: Option<real>)
    requires |closes| > 0
    ensures macd == MacdLine(closes, 12, 26) && macdSignal == MacdSignal(closes, 12, 26, 9)
  {
    var line, signalLine, _ := MacdSeries(closes, 12, 26, 9);
    var n := |closes|;
    assert closes[..n] == closes;
    LastOfSeries(line);
    forall k | 0 <= k < n ensures signalLine[n - 1].None? ==> signalLine[k].None? {
      MacdDefinedGrows(closes, 12, 26, k + 1);
    }
    LastOfSeries(signalLine);
    MacdDefinedStart(closes, 12, 26);
    macd, macdSignal := LastDefined(line), LastDefined(signalLine);
  }

  method LatestBands(closes: seq<real>, sqrt: real -> real) returns (upper: Option<real>, lower: Option<real>)
    ensures upper == UpperOf(Bollinger(closes, 20, 2.0, sqrt)) && lower == LowerOf(Bollinger(closes, 20, 2.0, sqrt))
  {
    var up, mid, lo := BollingerSeries(closes, 20, 2.0, sqrt);
    if |closes| == 0 {
      return None, None;
    }
    assert closes[..|closes|] == closes;
    LastOfSeries(up);
    LastOfSeries(lo);
    upper, lower := LastDefined(up), LastDefined(lo);
  }
}
