/** What each indicator is, stated apart from how it is computed. */
module IndicatorMeaning {

  import opened Common
  import opened IndicatorSpec
  import opened IndicatorProperties

  // ----- Averages -----

  /** Both averages start at the plain mean of their first `p` values. */
  lemma AveragesSeed(xs: seq<real>, p: nat)
    requires p > 0 && |xs| == p
    ensures Ema(xs, p).value * p as real == Sum(xs)
    ensures Wilder(xs, p).value * p as real == Sum(xs)
  {
    DivTimes(Sum(xs), p as real);
  }

  /** A new value then draws the EMA 2 / (p + 1) of the way towards itself, and Wilder's average 1 / p of the way. */
  lemma AveragesRespond(xs: seq<real>, x: real, p: nat)
    requires p > 0 && |xs| >= p
    ensures (Ema(xs + [x], p).value - Ema(xs, p).value) * (p as real + 1.0) == 2.0 * (x - Ema(xs, p).value)
    ensures (Wilder(xs + [x], p).value - Wilder(xs, p).value) * p as real == x - Wilder(xs, p).value
  {
    assert (xs + [x])[..|xs|] == xs;
    EmaPull(Ema(xs, p).value, x, p);
    WilderPull(Wilder(xs, p).value, x, p);
    hide EmaStep, WilderStep;
  }

  lemma EmaPull(prev: real, x: real, p: nat)
    ensures (EmaStep(prev, x, p) - prev) * (p as real + 1.0) == 2.0 * (x - prev)
  {
    var n, k := p as real + 1.0, Smoothing(p);
    DivTimes(2.0, n);
    hide Smoothing;
    assert x * k + prev * (1.0 - k) - prev == k * (x - prev);
    assert k * (x - prev) * n == k * n * (x - prev);
  }

  lemma WilderPull(prev: real, x: real, p: nat)
    requires p > 0
    ensures (WilderStep(prev, x, p) - prev) * p as real == x - prev
  {
    var n := p as real;
    var y := prev * (n - 1.0) + x;
    DivTimes(y, n);
    assert (y / n - prev) * n == y / n * n - prev * n;
  }

  /** The simple average times its period is the sum of the last `p` values. */
  lemma SmaIsWindowMean(xs: seq<real>, p: nat)
    requires p > 0 && |xs| >= p
    ensures Sma(xs, p).value * p as real == Sum(xs[|xs| - p..])
  {
    DivTimes(Sum(xs[|xs| - p..]), p as real);
  }

  // ----- RSI -----

  /** Every change of the close is a gain less a loss, one of which is zero. */
  lemma {:induction false} ChangesSplit(closes: seq<real>, i: nat)
    requires i + 1 < |closes|
    ensures Gains(closes)[i] - Losses(closes)[i] == closes[i + 1] - closes[i]
    ensures Gains(closes)[i] >= 0.0 && Losses(closes)[i] >= 0.0 && (Gains(closes)[i] == 0.0 || Losses(closes)[i] == 0.0)
  {
    if i + 2 < |closes| {
      ChangesSplit(closes[..|closes| - 1], i);
    }
  }

  /** `r` is the share of the average gain in all average movement, in percent; 100 when there is no average loss. */
  predicate IsShare(r: real, g: real, l: real) {
    g >= 0.0 && l >= 0.0 && r * (g + l) == 100.0 * g && (l == 0.0 ==> r == 100.0)
  }

  lemma RsiIsShare(closes: seq<real>, p: nat)
    requires 0 < p < |closes|
    ensures IsShare(Rsi(closes, p).value, Wilder(Gains(closes), p).value, Wilder(Losses(closes), p).value)
  {
    GainsNonNegative(closes);
    WilderNonNegative(Gains(closes), p);
    WilderNonNegative(Losses(closes), p);
    ValueIsShare(Wilder(Gains(closes), p).value, Wilder(Losses(closes), p).value);
    hide Gains, Losses, Wilder, RsiValue, IsShare;
  }

  lemma ValueIsShare(g: real, l: real)
    requires g >= 0.0 && l >= 0.0
    ensures IsShare(RsiValue(g, l), g, l)
  {
    if l > 0.0 {
      var q := g / l;
      DivTimes(g, l);
      QuotientNonNegative(g, l);
      DivTimes(100.0, 1.0 + q);
      ShareOf(g, l, q, 100.0 / (1.0 + q));
    }
  }

  lemma ShareOf(g: real, l: real, q: real, s: real)
    requires q * l == g && s * (1.0 + q) == 100.0
    ensures (100.0 - s) * (g + l) == 100.0 * g
  {
    assert g + l == (1.0 + q) * l;
    assert s * ((1.0 + q) * l) == s * (1.0 + q) * l;
  }

  /** So its extremes and its middle are those of the balance of gains and losses. */
  lemma RsiExtremes(closes: seq<real>, p: nat)
    requires 0 < p < |closes|
    ensures var r, g, l := Rsi(closes, p).value, Wilder(Gains(closes), p).value, Wilder(Losses(closes), p).value;
      && (r == 100.0 <==> l == 0.0)
      && (r == 0.0 <==> g == 0.0 && l != 0.0)
      && (l > 0.0 ==> (r > 50.0 <==> g > l))
  {
    hide Rsi, Gains, Losses, Wilder, IsShare;
    RsiIsShare(closes, p);
    ShareExtremes(Rsi(closes, p).value, Wilder(Gains(closes), p).value, Wilder(Losses(closes), p).value);
  }

  lemma ShareExtremes(r: real, g: real, l: real)
    requires IsShare(r, g, l)
    ensures (r == 100.0 <==> l == 0.0) && (r == 0.0 <==> g == 0.0 && l != 0.0)
    ensures l > 0.0 ==> (r > 50.0 <==> g > l)
  {
    if l > 0.0 {
      Shares(r, g, l);
    }
  }

  lemma Shares(r: real, g: real, l: real)
    requires g >= 0.0 && l > 0.0 && r * (g + l) == 100.0 * g
    ensures r < 100.0 && (r == 0.0 <==> g == 0.0) && (r > 50.0 <==> g > l)
  {
    var t := g + l;
    assert (100.0 - r) * t == 100.0 * l;
    assert (r - 50.0) * t == 50.0 * (g - l);
    ProductSign(100.0 - r, t);
    ProductSign(r - 50.0, t);
    ProductSign(r, t);
  }

  lemma ProductSign(x: real, t: real)
    requires t > 0.0
    ensures (x > 0.0 <==> x * t > 0.0) && (x == 0.0 <==> x * t == 0.0)
  {}

  /** A larger newest value never lowers Wilder's average. */
  lemma WilderMonotone(xs: seq<real>, a: real, b: real, p: nat)
    requires p > 0 && |xs| + 1 >= p && a <= b
    ensures Wilder(xs + [a], p).value <= Wilder(xs + [b], p).value
  {
    WilderSnoc(xs, a, p);
    WilderSnoc(xs, b, p);
    SumAppend(xs, a);
    SumAppend(xs, b);
    if |xs| + 1 == p {
      DivMonotone(Sum(xs) + a, Sum(xs) + b, p as real);
    } else {
      var past := Wilder(xs, p).value * (p as real - 1.0);
      DivMonotone(past + a, past + b, p as real);
    }
  }

  lemma DivMonotone(x: real, y: real, n: real)
    requires n > 0.0 && x <= y
    ensures x / n <= y / n
  {}

  /** A larger last close never lowers RSI. */
  lemma RsiRisesWithClose(closes: seq<real>, x: real, y: real, p: nat)
    requires 0 < p <= |closes| && x <= y
    ensures Rsi(closes + [x], p).value <= Rsi(closes + [y], p).value
  {
    MovesSnoc(closes, x);
    MovesSnoc(closes, y);
    var last := closes[|closes| - 1];
    hide Rsi, Wilder, Gains, Losses, IsShare;
    assert Gain(last, x) <= Gain(last, y) && Loss(last, y) <= Loss(last, x);
    hide Gain, Loss;
    WilderMonotone(Gains(closes), Gain(last, x), Gain(last, y), p);
    WilderMonotone(Losses(closes), Loss(last, y), Loss(last, x), p);
    RsiIsShare(closes + [x], p);
    RsiIsShare(closes + [y], p);
    var g1, l1 := Wilder(Gains(closes + [x]), p).value, Wilder(Losses(closes + [x]), p).value;
    var g2, l2 := Wilder(Gains(closes + [y]), p).value, Wilder(Losses(closes + [y]), p).value;
    SharesOrdered(Rsi(closes + [x], p).value, g1, l1, Rsi(closes + [y], p).value, g2, l2);
  }

  lemma MovesSnoc(closes: seq<real>, x: real)
    requires closes != []
    ensures Gains(closes + [x]) == Gains(closes) + [Gain(closes[|closes| - 1], x)]
    ensures Losses(closes + [x]) == Losses(closes) + [Loss(closes[|closes| - 1], x)]
  {
    hide Gain, Loss;
    var now := closes + [x];
    assert now[..|now| - 1] == closes && now[|now| - 2] == closes[|closes| - 1];
  }

  lemma SharesOrdered(r1: real, g1: real, l1: real, r2: real, g2: real, l2: real)
    requires IsShare(r1, g1, l1) && IsShare(r2, g2, l2) && g1 <= g2 && l2 <= l1
    ensures r1 <= r2
  {
    if l1 > 0.0 {
      Shares(r1, g1, l1);
      if l2 > 0.0 {
        Cross(r1, g1, l1, r2, g2, l2);
      }
    }
  }

  lemma Cross(r1: real, g1: real, l1: real, r2: real, g2: real, l2: real)
    requires 0.0 <= g1 <= g2 && 0.0 < l2 <= l1
    requires r1 * (g1 + l1) == 100.0 * g1 && r2 * (g2 + l2) == 100.0 * g2
    ensures r1 <= r2
  {
    var s, t := g1 + l1, g2 + l2;
    assert g1 * l2 <= g2 * l1 by {
      assert (g2 - g1) * l1 >= 0.0;
      assert g1 * (l1 - l2) >= 0.0;
    }
    assert r1 * s * t == 100.0 * g1 * t && r2 * t * s == 100.0 * g2 * s;
    assert g1 * t == g1 * g2 + g1 * l2 && g2 * s == g2 * g1 + g2 * l1;
    assert (r2 - r1) * (s * t) == r2 * t * s - r1 * s * t;
    assert s * t > 0.0;
    NotNegative(r2 - r1, s * t);
  }

  lemma NotNegative(x: real, t: real)
    requires t > 0.0 && x * t >= 0.0
    ensures x >= 0.0
  {}

  // ----- MACD -----

  /** The line is what the slow average lacks of the fast one, from the first close on that completes both. */
  lemma MacdIsGap(closes: seq<real>, fast: nat, slow: nat)
    requires 0 < fast <= slow
    ensures MacdLine(closes, fast, slow).Some? <==> |closes| >= slow
    ensures |closes| >= slow ==>
      Ema(closes, slow).value + MacdLine(closes, fast, slow).value == Ema(closes, fast).value
  {}

  /** How much an average over `h` and one more value changes with that value. */
  lemma EmaResponse(h: seq<real>, x: real, y: real, p: nat)
    requires p > 0 && |h| + 1 >= p
    ensures var d := Ema(h + [y], p).value - Ema(h + [x], p).value;
      if |h| >= p then d * (p as real + 1.0) == 2.0 * (y - x) else d * p as real == y - x
  {
    if |h| >= p {
      AveragesRespond(h, x, p);
      AveragesRespond(h, y, p);
      var e := Ema(h, p).value;
      Spread(Ema(h + [x], p).value, Ema(h + [y], p).value, e, p as real + 1.0);
    } else {
      AveragesSeed(h + [x], p);
      AveragesSeed(h + [y], p);
      SumAppend(h, x);
      SumAppend(h, y);
      Spread(Ema(h + [x], p).value, Ema(h + [y], p).value, 0.0, p as real);
    }
  }

  lemma Spread(a: real, b: real, e: real, n: real)
    ensures (b - a) * n == (b - e) * n - (a - e) * n && (b - a) * n == b * n - a * n
  {}

  /** With the faster average first, a larger last close means a larger MACD line. */
  lemma MacdRisesWithClose(h: seq<real>, x: real, y: real, fast: nat, slow: nat)
    requires 0 < fast < slow <= |h| + 1 && x < y
    ensures MacdLine(h + [x], fast, slow).value < MacdLine(h + [y], fast, slow).value
  {
    hide Ema;
    EmaResponse(h, x, y, fast);
    EmaResponse(h, x, y, slow);
    var a := Ema(h + [y], fast).value - Ema(h + [x], fast).value;
    var b := Ema(h + [y], slow).value - Ema(h + [x], slow).value;
    if |h| >= slow {
      Faster(a, fast as real + 1.0, b, slow as real + 1.0, 2.0 * (y - x));
    } else {
      Faster(a, fast as real + 1.0, b, 2.0 * slow as real, 2.0 * (y - x));
    }
  }

  lemma Faster(a: real, m: real, b: real, n: real, d: real)
    requires 0.0 < m < n && d > 0.0 && a * m == d && b * n == d
    ensures b < a
  {
    assert b > 0.0 by { ProductSign(b, n); }
    assert b * (n - m) > 0.0;
    assert (a - b) * m == b * (n - m);
    ProductSign(a - b, m);
  }

  /** The signal averages the MACD line at every bar from the slow period on. */
  lemma {:induction false} MacdDefinedAt(closes: seq<real>, fast: nat, slow: nat)
    requires 0 < fast <= slow
    ensures |MacdDefined(closes, fast, slow)| == if |closes| < slow then 0 else |closes| - slow + 1
    ensures forall j :: 0 <= j < |MacdDefined(closes, fast, slow)| ==>
      Some(MacdDefined(closes, fast, slow)[j]) == MacdLine(closes[..slow + j], fast, slow)
  {
    hide MacdLine;
    if closes != [] {
      var past := closes[..|closes| - 1];
      MacdDefinedAt(past, fast, slow);
      var before, now := MacdDefined(past, fast, slow), MacdDefined(closes, fast, slow);
      assert now == if |closes| < slow then before else before + [MacdLine(closes, fast, slow).value];
      hide MacdDefined;
      forall j | 0 <= j < |now| ensures Some(now[j]) == MacdLine(closes[..slow + j], fast, slow) {
        if j < |before| {
          assert past[..slow + j] == closes[..slow + j];
        } else {
          assert closes[..slow + j] == closes;
        }
      }
    }
  }

  // ----- True range -----

  /** The true range of a bar is the length of the stretch that holds the bar and the close before it. */
  lemma {:induction false} TrueRangeIsSpan(bars: seq<Bar>, i: nat)
    requires i < |bars| && bars[i].low <= bars[i].high
    ensures TrueRanges(bars)[i] ==
      if i == 0 then bars[i].high - bars[i].low
      else Max(bars[i].high, bars[i - 1].close) - Min(bars[i].low, bars[i - 1].close)
  {
    if i < |bars| - 1 {
      TrueRangeIsSpan(bars[..|bars| - 1], i);
    }
  }

  // ----- SuperTrend -----

  /** The mid price of bar `k` plus a multiple of the ATR. */
  function BasicUpper(bars: seq<Bar>, k: nat, p: nat, mult: real): real
    requires 0 < p <= k + 1 <= |bars|
  {
    (bars[k].high + bars[k].low) / 2.0 + mult * Atr(bars[..k + 1], p).value
  }

  function BasicLower(bars: seq<Bar>, k: nat, p: nat, mult: real): real
    requires 0 < p <= k + 1 <= |bars|
  {
    (bars[k].high + bars[k].low) / 2.0 - mult * Atr(bars[..k + 1], p).value
  }

  /** The upper band starts afresh at bar `i`: it is the first, or the close before was above the band. */
  predicate UpperRestarts(bars: seq<Bar>, i: nat, p: nat, mult: real)
    requires 0 < p <= i + 1 <= |bars|
  {
    i + 1 == p || bars[i - 1].close > UpperBand(bars, i - 1, p, mult)
  }

  predicate LowerRestarts(bars: seq<Bar>, i: nat, p: nat, mult: real)
    requires 0 < p <= i + 1 <= |bars|
  {
    i + 1 == p || bars[i - 1].close < LowerBand(bars, i - 1, p, mult)
  }

  lemma UpperStep(bars: seq<Bar>, j: nat, p: nat, mult: real)
    requires 0 < p <= j + 1 <= |bars|
    ensures UpperRestarts(bars, j, p, mult) ==> UpperBand(bars, j, p, mult) == BasicUpper(bars, j, p, mult)
    ensures !UpperRestarts(bars, j, p, mult) ==>
      UpperBand(bars, j, p, mult) == Min(BasicUpper(bars, j, p, mult), UpperBand(bars, j - 1, p, mult))
  {
    hide Atr;
    assert bars[..j + 1][..j] == bars[..j];
  }

  lemma LowerStep(bars: seq<Bar>, j: nat, p: nat, mult: real)
    requires 0 < p <= j + 1 <= |bars|
    ensures LowerRestarts(bars, j, p, mult) ==> LowerBand(bars, j, p, mult) == BasicLower(bars, j, p, mult)
    ensures !LowerRestarts(bars, j, p, mult) ==>
      LowerBand(bars, j, p, mult) == Max(BasicLower(bars, j, p, mult), LowerBand(bars, j - 1, p, mult))
  {
    hide Atr;
    assert bars[..j + 1][..j] == bars[..j];
  }

  /** Since it last started afresh the upper band is the least of the basic ones. */
  lemma {:induction false} UpperBandIsLeast(bars: seq<Bar>, i: nat, j: nat, p: nat, mult: real)
    requires 0 < p <= i + 1 <= j + 1 <= |bars| && UpperRestarts(bars, i, p, mult)
    requires forall k :: i < k <= j ==> !UpperRestarts(bars, k, p, mult)
    ensures forall k :: i <= k <= j ==> UpperBand(bars, j, p, mult) <= BasicUpper(bars, k, p, mult)
    ensures exists k :: i <= k <= j && UpperBand(bars, j, p, mult) == BasicUpper(bars, k, p, mult)
    decreases j
  {
    hide UpperBand, BasicUpper, UpperRestarts;
    UpperStep(bars, j, p, mult);
    if i < j {
      UpperBandIsLeast(bars, i, j - 1, p, mult);
    }
  }

  /** And the lower band the greatest. */
  lemma {:induction false} LowerBandIsGreatest(bars: seq<Bar>, i: nat, j: nat, p: nat, mult: real)
    requires 0 < p <= i + 1 <= j + 1 <= |bars| && LowerRestarts(bars, i, p, mult)
    requires forall k :: i < k <= j ==> !LowerRestarts(bars, k, p, mult)
    ensures forall k :: i <= k <= j ==> LowerBand(bars, j, p, mult) >= BasicLower(bars, k, p, mult)
    ensures exists k :: i <= k <= j && LowerBand(bars, j, p, mult) == BasicLower(bars, k, p, mult)
    decreases j
  {
    hide LowerBand, BasicLower, LowerRestarts;
    LowerStep(bars, j, p, mult);
    if i < j {
      LowerBandIsGreatest(bars, i, j - 1, p, mult);
    }
  }

  /** The first direction is up exactly when the close is not below the mid price. */
  lemma FirstDirection(bars: seq<Bar>, p: nat, mult: real)
    requires p > 0 && |bars| == p
    ensures var b, t := bars[p - 1], SuperTrend(bars, p, mult).value;
      t.dir == 1 <==> 2.0 * b.close >= b.high + b.low
  {
    hide Atr;
  }

  // ----- Bollinger -----

  function SumOfSquares(xs: seq<real>): real {
    if xs == [] then 0.0 else SumOfSquares(Init(xs)) + Squared(Last(xs), 0.0)
  }

  /** How a sum of squared deviations from `m` depends on the sums of `n` values and of their squares. */
  predicate Around(deviations: real, squares: real, total: real, n: real, m: real) {
    deviations == squares - 2.0 * (m * total) + n * (m * m)
  }

  lemma AroundStep(d: real, squares: real, total: real, n: real, m: real, x: real)
    requires Around(d, squares, total, n, m)
    ensures Around(d + Squared(x, m), squares + Squared(x, 0.0), total + x, n + 1.0, m)
  {
    assert (x - m) * (x - m) == x * x - 2.0 * (m * x) + m * m;
    assert m * (total + x) == m * total + m * x;
    assert (n + 1.0) * (m * m) == n * (m * m) + m * m;
  }

  lemma {:induction false} DeviationsSum(xs: seq<real>, m: real)
    ensures Around(Sum(SquaredDeviations(xs, m)), SumOfSquares(xs), Sum(xs), |xs| as real, m)
  {
    if xs != [] {
      var past, x := Init(xs), Last(xs);
      DeviationsSum(past, m);
      hide Around, Squared;
      SumAppend(SquaredDeviations(past, m), Squared(x, m));
      AroundStep(Sum(SquaredDeviations(past, m)), SumOfSquares(past), Sum(past), |past| as real, m, x);
    }
  }

  /** `v` is the mean square less the squared mean. */
  predicate IsVariance(v: real, xs: seq<real>) {
    var n := |xs| as real; v * (n * n) == SumOfSquares(xs) * n - Sum(xs) * Sum(xs)
  }

  lemma VarianceOf(d: real, squares: real, total: real, n: real, m: real, v: real)
    requires Around(d, squares, total, n, m) && m * n == total && v * n == d
    ensures v * (n * n) == squares * n - total * total
  {
    assert m * total == n * (m * m);
    assert n * (n * (m * m)) == total * total;
    assert v * (n * n) == d * n;
    assert d == squares - n * (m * m);
  }

  lemma WindowVariance(xs: seq<real>, m: real, v: real)
    requires m * |xs| as real == Sum(xs) && v * |xs| as real == Sum(SquaredDeviations(xs, m))
    ensures IsVariance(v, xs)
  {
    DeviationsSum(xs, m);
    hide Around, SumOfSquares, SquaredDeviations, Sum;
    VarianceOf(Sum(SquaredDeviations(xs, m)), SumOfSquares(xs), Sum(xs), |xs| as real, m, v);
  }

  /** The bands lie `mult` deviations on either side of the window's mean, a deviation being the root of the
      variance. */
  lemma BandsMeaning(closes: seq<real>, p: nat, mult: real, sqrt: real -> real)
    requires 0 < p <= |closes|
    ensures var b, xs := Bollinger(closes, p, mult, sqrt).value, closes[|closes| - p..];
      && b.middle * p as real == Sum(xs)
      && exists v: real :: IsVariance(v, xs) && b.upper - b.middle == Reach(mult, sqrt(v)) == b.middle - b.lower
  {
    hide Reach, Sum;
    var xs := closes[|closes| - p..];
    var m := Mean(xs);
    var total := Sum(SquaredDeviations(xs, m));
    DivTimes(Sum(xs), p as real);
    DivTimes(total, p as real);
    WindowVariance(xs, m, total / p as real);
    hide IsVariance, SquaredDeviations;
  }

  // ----- ADX -----

  /** At most one of the two moves of a bar is positive, and then it is the larger of how far the high has risen and how
      far the low has fallen; both are zero when neither outdoes the other. */
  lemma MovesMeaning(a: Bar, b: Bar)
    ensures var up, down, plus, minus := b.high - a.high, a.low - b.low, PlusMove(a, b), MinusMove(a, b);
      && (plus == 0.0 || minus == 0.0) && plus >= 0.0 && minus >= 0.0
      && (plus > 0.0 <==> up > 0.0 && up > down) && (minus > 0.0 <==> down > 0.0 && down > up)
      && (up != down ==> plus + minus == Max(0.0, Max(up, down)))
  {}

  /** Each bar's move is taken against the bar before it. */
  lemma {:induction false} MovesAt(bars: seq<Bar>, i: nat)
    requires 0 < i < |bars|
    ensures PlusMoves(bars)[i] == PlusMove(bars[i - 1], bars[i])
    ensures MinusMoves(bars)[i] == MinusMove(bars[i - 1], bars[i])
    ensures PlusMoves(bars)[0] == MinusMoves(bars)[0] == 0.0
  {
    hide PlusMove, MinusMove;
    if i < |bars| - 1 {
      MovesAt(bars[..|bars| - 1], i);
    } else if i > 1 {
      MovesAt(bars[..|bars| - 1], i - 1);
    }
  }

  /** `d` is a part in percent of a whole. */
  predicate IsPercent(d: real, part: real, whole: real) { d * whole == 100.0 * part }

  /** The directional lines, from bar `p` on: the smoothed moves in percent of the average true range. */
  lemma DiMeaning(bars: seq<Bar>, p: nat)
    requires p > 0
    ensures PlusDiAt(bars, p).Some? <==> |bars| >= p && Atr(bars, p).value != 0.0
    ensures MinusDiAt(bars, p).Some? <==> |bars| >= p && Atr(bars, p).value != 0.0
    ensures PlusDiAt(bars, p).Some? ==>
      IsPercent(PlusDiAt(bars, p).value, Wilder(PlusMoves(bars), p).value, Atr(bars, p).value)
    ensures MinusDiAt(bars, p).Some? ==>
      IsPercent(MinusDiAt(bars, p).value, Wilder(MinusMoves(bars), p).value, Atr(bars, p).value)
  {
    hide Wilder, PlusMoves, MinusMoves, TrueRanges, Atr, IsPercent, Di;
    if |bars| >= p {
      DiIsPercent(Atr(bars, p).value, Wilder(PlusMoves(bars), p).value);
      DiIsPercent(Atr(bars, p).value, Wilder(MinusMoves(bars), p).value);
    }
  }

  lemma DiIsPercent(range: real, move: real)
    ensures Di(range, move).Some? <==> range != 0.0
    ensures range != 0.0 ==> IsPercent(Di(range, move).value, move, range)
  {
    if range != 0.0 {
      var q := move / range;
      assert q * range == move;
      assert 100.0 * q * range == 100.0 * (q * range);
    }
  }

  /** The directional index is the imbalance of the two moves in percent of their sum, whatever the range. */
  lemma DxIsImbalance(atr: real, plus: real, minus: real)
    requires atr > 0.0 && plus >= 0.0 && minus >= 0.0
    ensures var d := Dx(atr, plus, minus);
      && d.Some? && 0.0 <= d.value <= 100.0 && d.value * (plus + minus) == 100.0 * Abs(plus - minus)
      && (plus + minus == 0.0 ==> d.value == 0.0)
  {
    var p := Ratio(plus, atr);
    var m := Ratio(minus, atr);
    QuotientNonNegative(plus, atr);
    QuotientNonNegative(minus, atr);
    if p + m > 0.0 {
      Imbalance(100.0 * p, 100.0 * m, 100.0 * Abs(100.0 * p - 100.0 * m) / (100.0 * p + 100.0 * m));
      Rescale(Dx(atr, plus, minus).value, p, m, atr, plus, minus);
    } else {
      assert plus == 0.0 && minus == 0.0;
    }
  }

  lemma Imbalance(p: real, m: real, d: real)
    requires p >= 0.0 && m >= 0.0 && p + m > 0.0 && d == 100.0 * Abs(p - m) / (p + m)
    ensures d * (p + m) == 100.0 * Abs(p - m) && 0.0 <= d <= 100.0
  {
    DivTimes(100.0 * Abs(p - m), p + m);
    DivideBounds(100.0 * Abs(p - m), p + m, 0.0, 100.0);
  }

  lemma Rescale(d: real, p: real, m: real, atr: real, plus: real, minus: real)
    requires d * (100.0 * p + 100.0 * m) == 100.0 * Abs(100.0 * p - 100.0 * m)
    requires atr > 0.0 && p * atr == plus && m * atr == minus
    ensures d * (plus + minus) == 100.0 * Abs(plus - minus)
  {
    assert d * (p + m) == 100.0 * Abs(p - m);
    assert plus + minus == (p + m) * atr && plus - minus == (p - m) * atr;
    ScaledAbs(p - m, atr);
    assert d * ((p + m) * atr) == d * (p + m) * atr;
  }

  lemma ScaledAbs(x: real, t: real)
    requires t > 0.0
    ensures Abs(x * t) == Abs(x) * t
  {}

  /** On bars that are not upside down the directional indices, and so ADX, lie between 0 and 100. */
  lemma AdxWithinRange(bars: seq<Bar>, p: nat)
    requires p > 0 && forall i :: 0 <= i < |bars| ==> bars[i].low <= bars[i].high
    ensures Adx(bars, p).Some? ==> 0.0 <= Adx(bars, p).value <= 100.0
  {
    hide DxDefined, Wilder;
    if Adx(bars, p).Some? {
      DxWithinRange(bars, p);
      AveragesWithinRange(DxDefined(bars, p), p, 0.0, 100.0);
    }
  }

  lemma {:induction false} RangesAndMoves(bars: seq<Bar>)
    requires forall i :: 0 <= i < |bars| ==> bars[i].low <= bars[i].high
    ensures NonNegative(TrueRanges(bars)) && NonNegative(PlusMoves(bars)) && NonNegative(MinusMoves(bars))
  {
    if bars != [] {
      RangesAndMoves(bars[..|bars| - 1]);
    }
  }

  lemma {:induction false} DxWithinRange(bars: seq<Bar>, p: nat)
    requires p > 0 && forall i :: 0 <= i < |bars| ==> bars[i].low <= bars[i].high
    ensures forall j :: 0 <= j < |DxDefined(bars, p)| ==> 0.0 <= DxDefined(bars, p)[j] <= 100.0
  {
    hide Dx, Wilder, TrueRanges, PlusMoves, MinusMoves;
    if bars != [] {
      DxWithinRange(bars[..|bars| - 1], p);
      if |bars| >= p {
        RangesAndMoves(bars);
        WilderNonNegative(TrueRanges(bars), p);
        WilderNonNegative(PlusMoves(bars), p);
        WilderNonNegative(MinusMoves(bars), p);
        DxRange(Atr(bars, p).value, Wilder(PlusMoves(bars), p).value, Wilder(MinusMoves(bars), p).value);
      }
    }
  }

  lemma DxRange(atr: real, plus: real, minus: real)
    requires atr >= 0.0 && plus >= 0.0 && minus >= 0.0
    ensures Dx(atr, plus, minus).Some? ==> 0.0 <= Dx(atr, plus, minus).value <= 100.0
  {
    if atr > 0.0 {
      DxIsImbalance(atr, plus, minus);
    }
  }

  // ----- VWAP -----

  /** What high, low and close of the traded volume miss a price by, in total. */
  function Missed(bars: seq<Bar>, v: real): real {
    if bars == [] then 0.0
    else
      var b := Last(bars);
      Missed(Init(bars), v) + (b.high - v + (b.low - v) + (b.close - v)) * b.volume as real
  }

  lemma MissedStep(missed: real, value: real, volume: real, v: real, h: real, l: real, c: real, n: real)
    requires missed == 3.0 * (value - v * volume)
    ensures missed + (h - v + (l - v) + (c - v)) * n == 3.0 * (value + (h + l + c) / 3.0 * n - v * (volume + n))
  {
    assert (h - v + (l - v) + (c - v)) * n == (h + l + c) * n - 3.0 * v * n;
    assert (h + l + c) / 3.0 * n * 3.0 == (h + l + c) * n;
    assert v * (volume + n) == v * volume + v * n;
  }

  lemma {:induction false} MissedSum(bars: seq<Bar>, v: real)
    ensures Missed(bars, v) == 3.0 * (TradedValue(bars) - v * TradedVolume(bars) as real)
  {
    if bars != [] {
      var past, b := Init(bars), Last(bars);
      MissedSum(past, v);
      MissedStep(Missed(past, v), TradedValue(past), TradedVolume(past) as real, v, b.high, b.low, b.close,
                 b.volume as real);
    }
  }

  /** VWAP is the price at which the traded volume balances: highs, lows and closes miss it by zero in total. */
  lemma VwapBalances(bars: seq<Bar>)
    ensures Vwap(bars).Some? <==> exists i :: 0 <= i < |bars| && bars[i].volume > 0
    ensures Vwap(bars).Some? ==> Missed(bars, Vwap(bars).value) == 0.0
  {
    SomeVolume(bars);
    if Vwap(bars).Some? {
      MissedSum(bars, Vwap(bars).value);
      TradedSign(bars);
      hide Missed, TradedValue, TradedVolume;
      DivTimes(TradedValue(bars), TradedVolume(bars) as real);
    }
  }

  lemma {:induction false} SomeVolume(bars: seq<Bar>)
    ensures TradedVolume(bars) >= 0
    ensures TradedVolume(bars) > 0 <==> exists i :: 0 <= i < |bars| && bars[i].volume > 0
  {
    if bars != [] {
      SomeVolume(Init(bars));
      assert forall i :: 0 <= i < |bars| - 1 ==> Init(bars)[i] == bars[i];
      assert Last(bars) == bars[|bars| - 1];
    }
  }

  /** The anchor is where the current session began: it and every later bar within a session share one, and the last
      bar within a session before it, if any, was in another. */
  lemma {:induction false} AnchorMeaning(bars: seq<Bar>, cal: Calendar)
    requires bars != []
    ensures var k := AnchorIndex(bars, cal);
      && k < |bars|
      && (k > 0 ==> cal(bars[k].ts).Some?)
      && (forall j :: k <= j < |bars| && cal(bars[j].ts).Some? ==> cal(bars[j].ts) == cal(bars[k].ts))
      && (k > 0 ==> AnchorSession(bars[..k], cal) != cal(bars[k].ts))
    ensures cal(bars[AnchorIndex(bars, cal)].ts).Some? ==>
      AnchorSession(bars, cal) == cal(bars[AnchorIndex(bars, cal)].ts)
    ensures AnchorSession(bars, cal).Some? ==> AnchorSession(bars, cal) == cal(bars[AnchorIndex(bars, cal)].ts)
  {
    var past := bars[..|bars| - 1];
    if past != [] {
      AnchorMeaning(past, cal);
      assert forall k :: 0 <= k <= |past| ==> past[..k] == bars[..k];
    }
  }

  /** The session before the anchor is that of the last bar within a session. */
  lemma {:induction false} AnchorSessionIsLast(bars: seq<Bar>, cal: Calendar, j: nat)
    requires j < |bars| && cal(bars[j].ts).Some?
    requires forall m :: j < m < |bars| ==> cal(bars[m].ts) == None
    ensures AnchorSession(bars, cal) == cal(bars[j].ts)
  {
    if j < |bars| - 1 {
      AnchorSessionIsLast(bars[..|bars| - 1], cal, j);
    }
  }
}
