/**
 * The mathematical meaning of every indicator, as a function of the bar history seen so far.
 * Both implementations of the repository, the batch functions of `core.py` and the stateful
 * classes of `incremental.py`, are proved against these definitions.
 */
module IndicatorSpec {
  import opened Common

  datatype Bar = Bar(ts: int, open: real, high: real, low: real, close: real, volume: nat)

  function Closes(bars: seq<Bar>): (cs: seq<real>)
    ensures |cs| == |bars| && forall i :: 0 <= i < |bars| ==> cs[i] == bars[i].close
  {
    if |bars| == 0 then [] else Closes(bars[..|bars| - 1]) + [bars[|bars| - 1].close]
  }

  // ----- Moving averages -----

  function Mean(xs: seq<real>): real
    requires |xs| > 0
  {
    Sum(xs) / |xs| as real
  }

  /** Simple mean of the last `p` values. */
  function Sma(xs: seq<real>, p: nat): (r: Option<real>)
    requires p > 0
    ensures r.Some? <==> |xs| >= p
  {
    if |xs| < p then None else Some(Mean(xs[|xs| - p..]))
  }

  function Smoothing(p: nat): real { 2.0 / (p as real + 1.0) }

  function EmaStep(prev: real, x: real, p: nat): real {
    x * Smoothing(p) + prev * (1.0 - Smoothing(p))
  }

  function WilderStep(prev: real, x: real, p: nat): real
    requires p > 0
  {
    (prev * (p as real - 1.0) + x) / p as real
  }

  /** Exponential moving average, seeded by the simple mean of the first `p` values. */
  function Ema(xs: seq<real>, p: nat): (r: Option<real>)
    requires p > 0
    ensures r.Some? <==> |xs| >= p
  {
    if |xs| < p then None
    else if |xs| == p then Some(Mean(xs))
    else Some(EmaStep(Ema(xs[..|xs| - 1], p).value, xs[|xs| - 1], p))
  }

  /** Wilder's smoothing: like `Ema` with weight 1/p on the newest value. */
  function Wilder(xs: seq<real>, p: nat): (r: Option<real>)
    requires p > 0
    ensures r.Some? <==> |xs| >= p
  {
    if |xs| < p then None
    else if |xs| == p then Some(Mean(xs))
    else Some(WilderStep(Wilder(xs[..|xs| - 1], p).value, xs[|xs| - 1], p))
  }

  /** Wilder's average of one value more. */
  lemma WilderSnoc(xs: seq<real>, x: real, p: nat)
    requires p > 0
    ensures Wilder(xs + [x], p) ==
      if |xs| + 1 < p then None
      else if |xs| + 1 == p then Some(Sum(xs + [x]) / p as real)
      else Some(WilderStep(Wilder(xs, p).value, x, p))
  {
    assert (xs + [x])[..|xs|] == xs;
  }

  predicate NonNegative(xs: seq<real>) { forall i :: 0 <= i < |xs| ==> xs[i] >= 0.0 }

  lemma DivideBounds(s: real, n: real, lo: real, hi: real)
    requires n > 0.0 && n * lo <= s <= n * hi
    ensures lo <= s / n <= hi
  {
    assert s / n * n == s;
  }

  lemma MulBounds(x: real, q: real, lo: real, hi: real)
    requires q >= 0.0 && lo <= x <= hi
    ensures q * lo <= x * q <= q * hi
  {
    assert (x - lo) * q >= 0.0 && (hi - x) * q >= 0.0;
  }

  lemma MeanWithin(xs: seq<real>, lo: real, hi: real)
    requires |xs| > 0
    requires forall i :: 0 <= i < |xs| ==> lo <= xs[i] <= hi
    ensures lo <= Mean(xs) <= hi
  {
    SumBounds(xs, lo, hi);
    DivideBounds(Sum(xs), |xs| as real, lo, hi);
  }

  lemma ConvexStep(prev: real, x: real, n: real, lo: real, hi: real)
    requires n >= 1.0 && lo <= prev <= hi && lo <= x <= hi
    ensures lo <= (prev * (n - 1.0) + x) / n <= hi
  {
    var q := n - 1.0;
    MulBounds(prev, q, lo, hi);
    var a, b, c := prev * q, q * lo, q * hi;
    assert n * lo == b + lo && n * hi == c + hi;
    DivideBounds(a + x, n, lo, hi);
  }

  lemma WilderStepWithin(prev: real, x: real, p: nat, lo: real, hi: real)
    requires p > 0 && lo <= prev <= hi && lo <= x <= hi
    ensures lo <= WilderStep(prev, x, p) <= hi
  {
    ConvexStep(prev, x, p as real, lo, hi);
  }

  lemma SmoothingWithin(p: nat)
    requires p > 0
    ensures 0.0 <= Smoothing(p) <= 1.0
  {
    DivideBounds(2.0, p as real + 1.0, 0.0, 1.0);
  }

  /** A weighted sum of two values lies between the bounds times the total weight. */
  lemma WeightedWithin(x: real, y: real, k: real, q: real, total: real, lo: real, hi: real)
    requires k >= 0.0 && q >= 0.0 && total == k + q && lo <= x <= hi && lo <= y <= hi
    ensures total * lo <= x * k + y * q <= total * hi
  {
    MulBounds(x, k, lo, hi);
    MulBounds(y, q, lo, hi);
    assert total * lo == k * lo + q * lo;
    assert total * hi == k * hi + q * hi;
  }

  lemma EmaStepWithin(prev: real, x: real, p: nat, lo: real, hi: real)
    requires p > 0 && lo <= prev <= hi && lo <= x <= hi
    ensures lo <= EmaStep(prev, x, p) <= hi
  {
    SmoothingWithin(p);
    hide Smoothing;
    var k := Smoothing(p);
    WeightedWithin(x, prev, k, 1.0 - k, 1.0, lo, hi);
  }

  /** Both averages are convex: they never leave a range that holds the whole history. */
  lemma {:induction false} AveragesWithinRange(xs: seq<real>, p: nat, lo: real, hi: real)
    requires p > 0 && |xs| >= p
    requires forall i :: 0 <= i < |xs| ==> lo <= xs[i] <= hi
    ensures lo <= Wilder(xs, p).value <= hi
    ensures lo <= Ema(xs, p).value <= hi
  {
    if |xs| == p {
      MeanWithin(xs, lo, hi);
    } else {
      var past := xs[..|xs| - 1];
      AveragesWithinRange(past, p, lo, hi);
      WilderStepWithin(Wilder(past, p).value, xs[|xs| - 1], p, lo, hi);
      EmaStepWithin(Ema(past, p).value, xs[|xs| - 1], p, lo, hi);
    }
  }

  lemma {:induction false} WilderNonNegative(xs: seq<real>, p: nat)
    requires p > 0 && |xs| >= p && NonNegative(xs)
    ensures Wilder(xs, p).value >= 0.0
  {
    var hi := Ceiling(xs);
    AveragesWithinRange(xs, p, 0.0, hi);
  }

  /** An upper bound of a sequence. */
  function Ceiling(xs: seq<real>): (m: real)
    ensures forall i :: 0 <= i < |xs| ==> xs[i] <= m
  {
    if |xs| == 0 then 0.0 else Max(Ceiling(xs[..|xs| - 1]), xs[|xs| - 1])
  }

  // ----- RSI -----

  function Gain(prev: real, cur: real): real { Max(cur - prev, 0.0) }

  function Loss(prev: real, cur: real): real { Max(-(cur - prev), 0.0) }

  function Gains(closes: seq<real>): (g: seq<real>)
    ensures |g| == if |closes| == 0 then 0 else |closes| - 1
  {
    if |closes| <= 1 then []
    else Gains(closes[..|closes| - 1]) + [Gain(closes[|closes| - 2], closes[|closes| - 1])]
  }

  function Losses(closes: seq<real>): (g: seq<real>)
    ensures |g| == if |closes| == 0 then 0 else |closes| - 1
  {
    if |closes| <= 1 then []
    else Losses(closes[..|closes| - 1]) + [Loss(closes[|closes| - 2], closes[|closes| - 1])]
  }

  lemma {:induction false} GainsNonNegative(closes: seq<real>)
    ensures NonNegative(Gains(closes)) && NonNegative(Losses(closes))
  {
    if |closes| > 1 {
      GainsNonNegative(closes[..|closes| - 1]);
    }
  }

  lemma QuotientNonNegative(a: real, b: real)
    requires a >= 0.0 && b > 0.0
    ensures a / b >= 0.0
  {}

  function RsiValue(avgGain: real, avgLoss: real): real
    requires avgGain >= 0.0 && avgLoss >= 0.0
  {
    if avgLoss == 0.0 then 100.0
    else
      var rs := avgGain / avgLoss;
      QuotientNonNegative(avgGain, avgLoss);
      100.0 - 100.0 / (1.0 + rs)
  }

  function Rsi(closes: seq<real>, p: nat): (r: Option<real>)
    requires p > 0
    ensures r.Some? <==> |closes| > p
  {
    if |closes| <= p then None
    else
      GainsNonNegative(closes);
      WilderNonNegative(Gains(closes), p);
      WilderNonNegative(Losses(closes), p);
      Some(RsiValue(Wilder(Gains(closes), p).value, Wilder(Losses(closes), p).value))
  }

  // ----- MACD -----

  function MacdLine(closes: seq<real>, fast: nat, slow: nat): (r: Option<real>)
    requires fast > 0 && slow > 0
    ensures r.Some? <==> |closes| >= fast && |closes| >= slow
  {
    if |closes| >= fast && |closes| >= slow then
      Some(Ema(closes, fast).value - Ema(closes, slow).value)
    else None
  }

  /** The MACD values of every prefix on which both averages are defined. */
  function MacdDefined(closes: seq<real>, fast: nat, slow: nat): seq<real>
    requires fast > 0 && slow > 0
  {
    if |closes| == 0 then []
    else
      MacdDefined(closes[..|closes| - 1], fast, slow)
      + (match MacdLine(closes, fast, slow) case Some(m) => [m] case None => [])
  }

  function MacdSignal(closes: seq<real>, fast: nat, slow: nat, signal: nat): Option<real>
    requires fast > 0 && slow > 0 && signal > 0
  {
    Ema(MacdDefined(closes, fast, slow), signal)
  }

  // ----- True range, ATR -----

  function TrueRange(prev: Option<real>, b: Bar): real {
    match prev
    case None => b.high - b.low
    case Some(c) => Max(Max(b.high - b.low, Abs(b.high - c)), Abs(b.low - c))
  }

  function LastClose(bars: seq<Bar>): Option<real> {
    if |bars| == 0 then None else Some(bars[|bars| - 1].close)
  }

  function TrueRanges(bars: seq<Bar>): (r: seq<real>)
    ensures |r| == |bars|
  {
    if |bars| == 0 then []
    else
      var past := bars[..|bars| - 1];
      TrueRanges(past) + [TrueRange(LastClose(past), bars[|bars| - 1])]
  }

  function Atr(bars: seq<Bar>, p: nat): (r: Option<real>)
    requires p > 0
    ensures r.Some? <==> |bars| >= p
  {
    Wilder(TrueRanges(bars), p)
  }

  // ----- SuperTrend -----

  /** The two ratcheting bands, the published line and the direction (1 up, -1 down). */
  datatype Trend = Trend(upper: real, lower: real, line: real, dir: int)

  /** Distance of a band from its centre: a multiple of the volatility. */
  function Reach(mult: real, volatility: real): real { mult * volatility }

  /** One bar of SuperTrend, with bands `reach` away from the mid price. */
  function NextTrend(prev: Option<Trend>, prevClose: Option<real>, b: Bar, reach: real): Trend
    requires prev.Some? ==> prevClose.Some?
  {
    var mid := (b.high + b.low) / 2.0;
    var basicUpper := mid + reach;
    var basicLower := mid - reach;
    match prev
    case None =>
      var dir := if b.close >= mid then 1 else -1;
      Trend(basicUpper, basicLower, if dir == 1 then basicLower else basicUpper, dir)
    case Some(t) =>
      var upper := if basicUpper < t.upper || prevClose.value > t.upper then basicUpper else t.upper;
      var lower := if basicLower > t.lower || prevClose.value < t.lower then basicLower else t.lower;
      var dir :=
        if b.close > (if t.dir == -1 then t.upper else t.line) then 1
        else if b.close < (if t.dir == 1 then t.lower else t.line) then -1
        else t.dir;
      Trend(upper, lower, if dir == 1 then lower else upper, dir)
  }

  function SuperTrend(bars: seq<Bar>, p: nat, mult: real): (r: Option<Trend>)
    requires p > 0
    ensures r.Some? <==> |bars| >= p
  {
    if |bars| < p then None
    else
      var past := bars[..|bars| - 1];
      Some(NextTrend(SuperTrend(past, p, mult), LastClose(past), bars[|bars| - 1],
                     Reach(mult, Atr(bars, p).value)))
  }

  function LineOf(t: Option<Trend>): Option<real> { if t.Some? then Some(t.value.line) else None }

  function DirOf(t: Option<Trend>): Option<int> { if t.Some? then Some(t.value.dir) else None }

  // ----- Bollinger -----

  datatype Bands = Bands(upper: real, middle: real, lower: real)

  function Squared(x: real, m: real): real { (x - m) * (x - m) }

  function SquaredDeviations(xs: seq<real>, m: real): (r: seq<real>)
    ensures |r| == |xs|
  {
    if |xs| == 0 then []
    else SquaredDeviations(xs[..|xs| - 1], m) + [Squared(xs[|xs| - 1], m)]
  }

  /** Population standard deviation around a given centre, with the square root left open. */
  function StdDev(xs: seq<real>, m: real, sqrt: real -> real): real
    requires |xs| > 0
  {
    sqrt(Sum(SquaredDeviations(xs, m)) / |xs| as real)
  }

  function Bollinger(closes: seq<real>, p: nat, mult: real, sqrt: real -> real): (r: Option<Bands>)
    requires p > 0
    ensures r.Some? <==> |closes| >= p
  {
    if |closes| < p then None
    else
      var m := Sma(closes, p).value;
      var reach := Reach(mult, StdDev(closes[|closes| - p..], m, sqrt));
      Some(Bands(m + reach, m, m - reach))
  }

  function UpperOf(b: Option<Bands>): Option<real> { if b.Some? then Some(b.value.upper) else None }

  function LowerOf(b: Option<Bands>): Option<real> { if b.Some? then Some(b.value.lower) else None }

  // ----- ADX -----

  function PlusMove(a: Bar, b: Bar): real {
    var up := b.high - a.high;
    var down := a.low - b.low;
    if up > down && up > 0.0 then up else 0.0
  }

  function MinusMove(a: Bar, b: Bar): real {
    var up := b.high - a.high;
    var down := a.low - b.low;
    if down > up && down > 0.0 then down else 0.0
  }

  function PlusMoves(bars: seq<Bar>): (r: seq<real>)
    ensures |r| == |bars|
  {
    if |bars| == 0 then []
    else if |bars| == 1 then [0.0]
    else PlusMoves(bars[..|bars| - 1]) + [PlusMove(bars[|bars| - 2], bars[|bars| - 1])]
  }

  function MinusMoves(bars: seq<Bar>): (r: seq<real>)
    ensures |r| == |bars|
  {
    if |bars| == 0 then []
    else if |bars| == 1 then [0.0]
    else MinusMoves(bars[..|bars| - 1]) + [MinusMove(bars[|bars| - 2], bars[|bars| - 1])]
  }

  /** Directional index of one bar from the smoothed range and moves; undefined on a zero range. */
  function Dx(atr: real, plus: real, minus: real): Option<real> {
    if atr == 0.0 then None
    else
      var pdi := 100.0 * (plus / atr);
      var mdi := 100.0 * (minus / atr);
      Some(if pdi + mdi != 0.0 then 100.0 * Abs(pdi - mdi) / (pdi + mdi) else 0.0)
  }

  /** One directional indicator: a smoothed move relative to the smoothed range. */
  function Di(atr: real, move: real): Option<real> { if atr == 0.0 then None else Some(100.0 * (move / atr)) }

  function PlusDiAt(bars: seq<Bar>, p: nat): Option<real>
    requires p > 0
  {
    if |bars| < p then None else Di(Atr(bars, p).value, Wilder(PlusMoves(bars), p).value)
  }

  function MinusDiAt(bars: seq<Bar>, p: nat): Option<real>
    requires p > 0
  {
    if |bars| < p then None else Di(Atr(bars, p).value, Wilder(MinusMoves(bars), p).value)
  }

  function DxAt(bars: seq<Bar>, p: nat): Option<real>
    requires p > 0
  {
    if |bars| < p then None
    else Dx(Atr(bars, p).value, Wilder(PlusMoves(bars), p).value, Wilder(MinusMoves(bars), p).value)
  }

  function DxDefined(bars: seq<Bar>, p: nat): seq<real>
    requires p > 0
  {
    if |bars| == 0 then []
    else
      DxDefined(bars[..|bars| - 1], p) + (match DxAt(bars, p) case Some(d) => [d] case None => [])
  }

  /** ADX at a bar whose directional index is defined. */
  function AdxAt(bars: seq<Bar>, p: nat): Option<real>
    requires p > 0
  {
    if DxAt(bars, p).Some? then Wilder(DxDefined(bars, p), p) else None
  }

  /** The latest defined ADX value of a series, absent while the series is not longer than 2p. */
  function Adx(bars: seq<Bar>, p: nat): Option<real>
    requires p > 0
  {
    if |bars| <= 2 * p then None else Wilder(DxDefined(bars, p), p)
  }

  // ----- VWAP -----

  function Typical(b: Bar): real { (b.high + b.low + b.close) / 3.0 }

  function TradedValue(bars: seq<Bar>): real {
    if |bars| == 0 then 0.0
    else TradedValue(bars[..|bars| - 1]) + Typical(bars[|bars| - 1]) * bars[|bars| - 1].volume as real
  }

  function TradedVolume(bars: seq<Bar>): int {
    if |bars| == 0 then 0 else TradedVolume(bars[..|bars| - 1]) + bars[|bars| - 1].volume
  }

  /** Cumulative volume-weighted average price of a whole series. */
  function Vwap(bars: seq<Bar>): Option<real> {
    if TradedVolume(bars) == 0 then None
    else Some(TradedValue(bars) / TradedVolume(bars) as real)
  }

  /** Maps a timestamp to the session it belongs to, if any (the exchange calendar). */
  type Calendar = int -> Option<int>

  /** The session the accumulator is anchored to after the given bars. */
  function AnchorSession(bars: seq<Bar>, cal: Calendar): Option<int> {
    if |bars| == 0 then None
    else
      match cal(bars[|bars| - 1].ts)
      case Some(s) => Some(s)
      case None => AnchorSession(bars[..|bars| - 1], cal)
  }

  /** Index of the first bar that counts towards the current session's VWAP. */
  function AnchorIndex(bars: seq<Bar>, cal: Calendar): (k: nat)
    ensures k <= |bars|
  {
    if |bars| == 0 then 0
    else
      var n := |bars| - 1;
      var s := cal(bars[n].ts);
      if s.Some? && s != AnchorSession(bars[..n], cal) then n else AnchorIndex(bars[..n], cal)
  }

  /** Session VWAP: the plain VWAP of the bars since the last change of session. */
  function SessionVwap(bars: seq<Bar>, cal: Calendar): Option<real> {
    Vwap(bars[AnchorIndex(bars, cal)..])
  }

  // ----- The bundle -----

  datatype Bundle = Bundle(
    ema9: Option<real>, ema21: Option<real>, ema50: Option<real>, ema200: Option<real>,
    rsi: Option<real>, macd: Option<real>, macdSignal: Option<real>, atr: Option<real>,
    adx: Option<real>, vwap: Option<real>,
    trendLine: Option<real>, trendDir: Option<int>,
    bandUpper: Option<real>, bandLower: Option<real>)

  /** What the batch bundle reports on a whole history. */
  function FullBundle(bars: seq<Bar>, sqrt: real -> real): Bundle {
    var cs := Closes(bars);
    var t := SuperTrend(bars, 10, 3.0);
    var bb := Bollinger(cs, 20, 2.0, sqrt);
    Bundle(
      Ema(cs, 9), Ema(cs, 21), Ema(cs, 50), Ema(cs, 200),
      Rsi(cs, 14), MacdLine(cs, 12, 26), MacdSignal(cs, 12, 26, 9), Atr(bars, 14),
      Adx(bars, 14), Vwap(bars),
      LineOf(t), DirOf(t), UpperOf(bb), LowerOf(bb))
  }

  /** The last `w` elements of a sequence, as a bounded deque keeps them. */
  function LastN<T>(xs: seq<T>, w: nat): (r: seq<T>)
    ensures |r| == if |xs| <= w then |xs| else w
  {
    if |xs| <= w then xs else xs[|xs| - w..]
  }
}
