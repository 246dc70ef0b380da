/** What the indicator definitions promise over whole runs. */
module IndicatorProperties {
  import opened Common
  import opened IndicatorSpec
  import opened BatchIndicators
  import opened RollingIndicators

  // ----- Fast form against simple form -----

  function Timestamps(bars: seq<Bar>): (ts: seq<int>)
    ensures |ts| == |bars| && forall i :: 0 <= i < |bars| ==> ts[i] == bars[i].ts
  {
    seq(|bars|, i requires 0 <= i < |bars| => bars[i].ts)
  }

  /** Every instant within a trading session is in the session of the first instant. */
  predicate SameSession(ts: seq<int>, cal: Calendar) {
    forall i :: 0 <= i < |ts| && cal(ts[i]).Some? ==> cal(ts[i]) == cal(ts[0])
  }

  /** What the bars before the current session contribute agrees with it: nothing was traded, or at the same average. */
  predicate SameAverageBefore(bars: seq<Bar>, cal: Calendar) {
    var before := Vwap(bars[..AnchorIndex(bars, cal)]);
    before == None || before == SessionVwap(bars, cal)
  }

  function WithoutWindowed(b: Bundle): Bundle { b.(adx := None, vwap := None, bandUpper := None, bandLower := None) }

  /**
   * On the same history the two bundles agree in every field other than ADX, VWAP and the bands; in the bands
   * exactly when the window covers their period or the history is too short for them; in ADX while the history
   * fits the window; and in VWAP exactly when the bars before the current session average the same, if they trade.
   */
  lemma RollingMatchesBatch(bars: seq<Bar>, window: nat, cal: Calendar, sqrt: real -> real)
    ensures var r, f := RollingBundle(bars, window, cal, sqrt), FullBundle(bars, sqrt);
      && WithoutWindowed(r) == WithoutWindowed(f)
      && ((r.bandUpper == f.bandUpper && r.bandLower == f.bandLower) <==> (window >= 20 || |bars| < 20))
      && (|bars| <= window ==> r.adx == f.adx)
      && (r.vwap == f.vwap <==> SameAverageBefore(bars, cal))
  {
    VwapAgreesIff(bars, cal);
    hide Ema, Rsi, MacdLine, MacdSignal, Atr, SuperTrend, Adx, Vwap, StdDev, Mean, SessionVwap, SameAverageBefore;
    if window >= 20 {
      BollingerOnWindow(bars, window, 20, 2.0, sqrt);
    }
  }

  /** Feeds a history to both forms, bar by bar to the one and at once to the other: they report the same, with
      the exceptions of the windowed and the session-anchored indicators. */
  method BothForms(bars: seq<Bar>, window: nat, cal: Calendar, sqrt: real -> real)
    returns (rolling: Bundle, batch: Bundle)
    requires bars != []
    ensures WithoutWindowed(rolling) == WithoutWindowed(batch)
    ensures (rolling.bandUpper == batch.bandUpper && rolling.bandLower == batch.bandLower) <==>
      (window >= 20 || |bars| < 20)
    ensures |bars| <= window ==> rolling.adx == batch.adx
    ensures rolling.vwap == batch.vwap <==> SameAverageBefore(bars, cal)
  {
    hide RollingBundle, FullBundle, RollingIndicatorState.Valid, SameAverageBefore;
    var state := new RollingIndicatorState(window, cal, sqrt);
    rolling := state.Update(bars[0]);
    assert [] + [bars[0]] == bars[..1];
    for i := 1 to |bars|
      invariant state.Valid() && fresh(state.Repr()) && state.history == bars[..i]
      invariant state.window == window && state.sqrt == sqrt && state.vwap.cal == cal
      invariant rolling == RollingBundle(bars[..i], window, cal, sqrt)
    {
      assert bars[..i + 1] == bars[..i] + [bars[i]];
      rolling := state.Update(bars[i]);
    }
    assert bars[..|bars|] == bars;
    var result := ComputeBundle(bars, sqrt);
    batch := result.value;
    RollingMatchesBatch(bars, window, cal, sqrt);
  }

  // ----- VWAP -----

  lemma {:induction false} TradedConcat(a: seq<Bar>, b: seq<Bar>)
    ensures TradedVolume(a + b) == TradedVolume(a) + TradedVolume(b)
    ensures TradedValue(a + b) == TradedValue(a) + TradedValue(b)
  {
    hide Typical;
    if b == [] {
      assert a + b == a;
    } else {
      var init := b[..|b| - 1];
      assert (a + b)[..|a + b| - 1] == a + init;
      TradedConcat(a, init);
    }
  }

  lemma {:induction false} TradedSign(bars: seq<Bar>)
    ensures TradedVolume(bars) >= 0
    ensures TradedVolume(bars) == 0 ==> TradedValue(bars) == 0.0
  {
    hide Typical;
    if bars != [] {
      TradedSign(bars[..|bars| - 1]);
    }
  }

  lemma Ratio(x: real, m: real) returns (q: real)
    requires m > 0.0
    ensures q == x / m && q * m == x
  {
    DivTimes(x, m);
    q := x / m;
  }

  lemma ZeroProduct(a: real, m: real)
    requires m > 0.0
    ensures a * m == 0.0 <==> a == 0.0
  {}

  /** Equal multiples are zero together. */
  lemma ZeroTogether(a: real, b: real, m: real, n: real)
    requires m > 0.0 && n > 0.0 && a * m == b * n
    ensures a == 0.0 <==> b == 0.0
  {
    ZeroProduct(a, m);
    ZeroProduct(b, n);
  }

  lemma WeightedAverage(x: real, y: real, p: real, q: real, r: real, m: real, n: real)
    requires m > 0.0 && n > 0.0 && p * m == x && q * n == y && r * (m + n) == x + y
    ensures r == q <==> p == q
  {
    assert (r - q) * (m + n) == (p - q) * m;
    ZeroTogether(r - q, p - q, m + n, m);
  }

  /** Merging two averages gives the second one exactly when they are equal. */
  lemma MergedAverage(x: real, m: real, y: real, n: real)
    requires m > 0.0 && n > 0.0
    ensures (x + y) / (m + n) == y / n <==> x / m == y / n
  {
    var p := Ratio(x, m);
    var q := Ratio(y, n);
    var r := Ratio(x + y, m + n);
    WeightedAverage(x, y, p, q, r, m, n);
  }

  /** For any history the session's VWAP is the VWAP of everything exactly when what came before averages the same. */
  lemma VwapAgreesIff(bars: seq<Bar>, cal: Calendar)
    ensures SessionVwap(bars, cal) == Vwap(bars) <==> SameAverageBefore(bars, cal)
  {
    var k := AnchorIndex(bars, cal);
    var before, since := bars[..k], bars[k..];
    assert bars == before + since;
    TradedConcat(before, since);
    TradedSign(before);
    TradedSign(since);
    hide TradedValue, TradedVolume, AnchorIndex;
    if TradedVolume(before) > 0 && TradedVolume(since) > 0 {
      MergedAverage(TradedValue(before), TradedVolume(before) as real, TradedValue(since), TradedVolume(since) as real);
    }
  }

  /** The accumulator is anchored to the first bar exactly while no other session has begun. */
  lemma {:induction false} AnchoredAtStartIff(bars: seq<Bar>, cal: Calendar)
    ensures AnchorIndex(bars, cal) == 0 <==> SameSession(Timestamps(bars), cal)
    ensures AnchorIndex(bars, cal) == 0 && bars != [] ==> AnchorSession(bars, cal) == cal(bars[0].ts)
  {
    if |bars| > 1 {
      var past := bars[..|bars| - 1];
      AnchoredAtStartIff(past, cal);
      var ts, before := Timestamps(bars), Timestamps(past);
      assert ts == before + [bars[|bars| - 1].ts] && ts[0] == before[0];
    }
  }

  /** One share at every instant: the first at 1, all others at 2. */
  function Rise(ts: seq<int>): (bars: seq<Bar>)
    ensures |bars| == |ts| && Timestamps(bars) == ts
  {
    seq(|ts|, i requires 0 <= i < |ts| =>
      var price := if i == 0 then 1.0 else 2.0; Bar(ts[i], price, price, price, price, 1))
  }

  lemma {:induction false} RiseTrades(ts: seq<int>, n: nat)
    requires 1 <= n <= |ts|
    ensures TradedVolume(Rise(ts)[..n]) == n && TradedValue(Rise(ts)[..n]) == 2.0 * n as real - 1.0
    decreases n
  {
    var bars := Rise(ts)[..n];
    assert bars[..n - 1] == Rise(ts)[..n - 1];
    if n > 1 {
      RiseTrades(ts, n - 1);
    } else {
      assert bars[..0] == [];
    }
  }

  /** Once a second session has begun this history's session VWAP is 2, and its full VWAP is below. */
  lemma VwapDiffers(ts: seq<int>, cal: Calendar)
    requires !SameSession(ts, cal)
    ensures SessionVwap(Rise(ts), cal) == Some(2.0)
    ensures Vwap(Rise(ts)).Some? && Vwap(Rise(ts)).value < 2.0
  {
    var bars := Rise(ts);
    AnchoredAtStartIff(bars, cal);
    var k := AnchorIndex(bars, cal);
    assert k < |ts|;
    hide TradedValue, TradedVolume, AnchorIndex, Rise, SameSession;
    RiseSince(ts, k);
    QuotientOf(2.0, (|ts| - k) as real);
    RiseTrades(ts, |ts|);
    assert bars[..|ts|] == bars;
    Below(2.0 * |ts| as real - 1.0, |ts| as real);
  }

  lemma RiseSince(ts: seq<int>, k: nat)
    requires 1 <= k < |ts|
    ensures TradedVolume(Rise(ts)[k..]) == |ts| - k && TradedValue(Rise(ts)[k..]) == 2.0 * (|ts| - k) as real
  {
    var bars := Rise(ts);
    RiseTrades(ts, k);
    RiseTrades(ts, |ts|);
    assert bars[..|ts|] == bars && bars == bars[..k] + bars[k..];
    TradedConcat(bars[..k], bars[k..]);
    hide TradedValue, TradedVolume, Rise;
    assert (|ts| - k) as real == |ts| as real - k as real;
  }

  lemma QuotientOf(q: real, n: real)
    requires n > 0.0
    ensures q * n / n == q
  {}

  lemma Below(x: real, n: real)
    requires n > 0.0 && x < 2.0 * n
    ensures x / n < 2.0
  {}

  /**
   * At given times the session VWAP is the VWAP of the whole history, for all prices and volumes, exactly when the
   * times lie in one session, off-session ones behind its first bar included.
   */
  lemma VwapAgreesExactlyInOneSession(ts: seq<int>, cal: Calendar)
    ensures (forall bars: seq<Bar> :: Timestamps(bars) == ts ==> SessionVwap(bars, cal) == Vwap(bars)) <==>
      SameSession(ts, cal)
  {
    hide Vwap, SameSession, Rise;
    if SameSession(ts, cal) {
      forall bars: seq<Bar> | Timestamps(bars) == ts ensures SessionVwap(bars, cal) == Vwap(bars) {
        AnchoredAtStartIff(bars, cal);
        assert bars[0..] == bars;
      }
    } else {
      VwapDiffers(ts, cal);
      assert Timestamps(Rise(ts)) == ts;
    }
  }

  // ----- SuperTrend -----

  /** The published line is always the band on the side of the current direction. */
  lemma {:induction false} LineIsActiveBand(bars: seq<Bar>, p: nat, mult: real)
    requires p > 0 && |bars| >= p
    ensures var t := SuperTrend(bars, p, mult).value;
      (t.dir == 1 && t.line == t.lower) || (t.dir == -1 && t.line == t.upper)
    decreases |bars|
  {
    if |bars| > p {
      LineIsActiveBand(bars[..|bars| - 1], p, mult);
    }
  }

  /** After the first defined bar the direction flips exactly when the close strictly crosses the previous line. */
  lemma FlipIffCross(bars: seq<Bar>, p: nat, mult: real)
    requires p > 0 && |bars| > p
    ensures var was := SuperTrend(bars[..|bars| - 1], p, mult).value;
      var now := SuperTrend(bars, p, mult).value;
      var close := bars[|bars| - 1].close;
      now.dir != was.dir <==> (if was.dir == 1 then close < was.line else close > was.line)
  {
    LineIsActiveBand(bars[..|bars| - 1], p, mult);
  }

  function LowerBand(bars: seq<Bar>, i: nat, p: nat, mult: real): real
    requires 0 < p <= i + 1 <= |bars|
  {
    SuperTrend(bars[..i + 1], p, mult).value.lower
  }

  function UpperBand(bars: seq<Bar>, i: nat, p: nat, mult: real): real
    requires 0 < p <= i + 1 <= |bars|
  {
    SuperTrend(bars[..i + 1], p, mult).value.upper
  }

  /** A band only gives way on the bar after a close beyond it. */
  lemma BandStep(bars: seq<Bar>, i: nat, p: nat, mult: real)
    requires 0 < p <= i + 1 < |bars|
    ensures bars[i].close >= LowerBand(bars, i, p, mult) ==>
      LowerBand(bars, i + 1, p, mult) >= LowerBand(bars, i, p, mult)
    ensures bars[i].close <= UpperBand(bars, i, p, mult) ==>
      UpperBand(bars, i + 1, p, mult) <= UpperBand(bars, i, p, mult)
  {
    var cur := bars[..i + 2];
    assert cur[..|cur| - 1] == bars[..i + 1];
  }

  /** Over a stretch with no close below the lower band that band never falls; mirror for the upper band. */
  lemma {:induction false} BandsRatchet(bars: seq<Bar>, i: nat, j: nat, p: nat, mult: real)
    requires 0 < p <= i + 1 <= j + 1 <= |bars|
    ensures (forall k :: i <= k < j ==> bars[k].close >= LowerBand(bars, k, p, mult))
      ==> LowerBand(bars, j, p, mult) >= LowerBand(bars, i, p, mult)
    ensures (forall k :: i <= k < j ==> bars[k].close <= UpperBand(bars, k, p, mult))
      ==> UpperBand(bars, j, p, mult) <= UpperBand(bars, i, p, mult)
    decreases j
  {
    hide LowerBand, UpperBand;
    if i < j {
      BandsRatchet(bars, i, j - 1, p, mult);
      BandStep(bars, j - 1, p, mult);
    }
  }

  // ----- RSI -----

  /** The relative strength index is always between 0 and 100. */
  lemma RsiWithinRange(closes: seq<real>, p: nat)
    requires 0 < p < |closes|
    ensures 0.0 <= Rsi(closes, p).value <= 100.0
  {
    GainsNonNegative(closes);
    WilderNonNegative(Gains(closes), p);
    WilderNonNegative(Losses(closes), p);
    var g, l := Wilder(Gains(closes), p).value, Wilder(Losses(closes), p).value;
    if l != 0.0 {
      QuotientNonNegative(g, l);
      DivideBounds(100.0, 1.0 + g / l, 0.0, 100.0);
    }
  }

  // ----- ADX over a bounded window -----

  const LOW := Bar(0, 0.5, 1.0, 0.0, 0.5, 0)
  const FLAT := Bar(0, 1.5, 2.0, 1.0, 1.5, 0)

  /** One step up, then no movement. */
  function StepBars(n: nat): (r: seq<Bar>)
    ensures |r| == n
    ensures forall i :: 0 <= i < n ==> r[i] == if i == 0 then LOW else FLAT
  {
    if n == 0 then [] else if n == 1 then [LOW] else StepBars(n - 1) + [FLAT]
  }

  function FlatBars(n: nat): (r: seq<Bar>)
    ensures |r| == n && forall i :: 0 <= i < n ==> r[i] == FLAT
  {
    seq(n, _ => FLAT)
  }

  /** Every bar of both series has a true range of at least one. */
  lemma {:induction false} RangesPositive(bars: seq<Bar>)
    requires forall i :: 0 <= i < |bars| ==> bars[i].high - bars[i].low == 1.0
    ensures forall i :: 0 <= i < |bars| ==> TrueRanges(bars)[i] >= 1.0
  {
    if |bars| > 0 {
      RangesPositive(bars[..|bars| - 1]);
    }
  }

  lemma {:induction false} StepMoves(n: nat)
    ensures forall i :: 0 <= i < n ==> PlusMoves(StepBars(n))[i] == if i == 1 then 1.0 else 0.0
    ensures forall i :: 0 <= i < n ==> MinusMoves(StepBars(n))[i] == 0.0
  {
    if n > 1 {
      var b := StepBars(n);
      StepMoves(n - 1);
      assert b[..n - 1] == StepBars(n - 1);
      assert PlusMoves(b) == PlusMoves(StepBars(n - 1)) + [if n == 2 then 1.0 else 0.0];
      assert MinusMoves(b) == MinusMoves(StepBars(n - 1)) + [0.0];
    }
  }

  lemma {:induction false} FlatMoves(n: nat)
    ensures forall i :: 0 <= i < n ==> PlusMoves(FlatBars(n))[i] == 0.0 && MinusMoves(FlatBars(n))[i] == 0.0
  {
    if n > 1 {
      var b := FlatBars(n);
      FlatMoves(n - 1);
      assert b[..n - 1] == FlatBars(n - 1);
      assert PlusMoves(b) == PlusMoves(FlatBars(n - 1)) + [0.0];
      assert MinusMoves(b) == MinusMoves(FlatBars(n - 1)) + [0.0];
    }
  }

  lemma {:induction false} SumDominates(xs: seq<real>, k: nat)
    requires k < |xs| && NonNegative(xs)
    ensures Sum(xs) >= xs[k]
  {
    var init := xs[..|xs| - 1];
    if k == |xs| - 1 {
      var hi := Ceiling(init);
      SumBounds(init, 0.0, hi);
    } else {
      SumDominates(init, k);
    }
  }

  /** One positive value among the seeding bars keeps Wilder's average positive for ever. */
  lemma {:induction false} WilderStaysPositive(xs: seq<real>, p: nat, k: nat)
    requires 1 < p <= |xs| && k < p && NonNegative(xs) && xs[k] > 0.0
    ensures Wilder(xs, p).value > 0.0
  {
    if |xs| == p {
      SumDominates(xs, k);
      PositiveQuotient(Sum(xs), p as real);
    } else {
      var past := xs[..|xs| - 1];
      WilderStaysPositive(past, p, k);
      var prev := Wilder(past, p).value;
      PositiveProduct(prev, p as real - 1.0);
      PositiveQuotient(prev * (p as real - 1.0) + xs[|xs| - 1], p as real);
    }
  }

  lemma PositiveQuotient(a: real, b: real)
    requires a > 0.0 && b > 0.0
    ensures a / b > 0.0
  {}

  lemma DxOneSided(a: real, plus: real)
    requires a > 0.0 && plus > 0.0
    ensures Dx(a, plus, 0.0) == Some(100.0)
  {
    PositiveQuotient(plus, a);
    var pdi := 100.0 * (plus / a);
    assert 0.0 / a == 0.0;
    assert 100.0 * pdi / pdi == 100.0;
  }

  lemma DxNoMove(a: real)
    requires a > 0.0
    ensures Dx(a, 0.0, 0.0) == Some(0.0)
  {
    assert 0.0 / a == 0.0;
  }

  /** On the stepped series every directional index is 100: the only move ever seen is upwards. */
  lemma {:induction false} StepDx(n: nat, p: nat)
    requires p > 1
    ensures var d := DxDefined(StepBars(n), p);
      |d| == (if n < p then 0 else n - p + 1) && forall i :: 0 <= i < |d| ==> d[i] == 100.0
  {
    hide Wilder, Dx, TrueRanges, PlusMoves, MinusMoves;
    if n > 0 {
      var b := StepBars(n);
      StepDx(n - 1, p);
      assert b[..n - 1] == StepBars(n - 1);
      if n >= p {
        StepMoves(n);
        RangesPositive(b);
        WilderStaysPositive(PlusMoves(b), p, 1);
        WilderStaysPositive(TrueRanges(b), p, 0);
        AveragesWithinRange(MinusMoves(b), p, 0.0, 0.0);
        DxOneSided(Atr(b, p).value, Wilder(PlusMoves(b), p).value);
      }
    }
  }

  lemma {:induction false} FlatDx(n: nat, p: nat)
    requires p > 1
    ensures var d := DxDefined(FlatBars(n), p);
      |d| == (if n < p then 0 else n - p + 1) && forall i :: 0 <= i < |d| ==> d[i] == 0.0
  {
    hide Wilder, Dx, TrueRanges, PlusMoves, MinusMoves;
    if n > 0 {
      var b := FlatBars(n);
      FlatDx(n - 1, p);
      assert b[..n - 1] == FlatBars(n - 1);
      if n >= p {
        FlatMoves(n);
        AveragesWithinRange(PlusMoves(b), p, 0.0, 0.0);
        AveragesWithinRange(MinusMoves(b), p, 0.0, 0.0);
        RangesPositive(b);
        WilderStaysPositive(TrueRanges(b), p, 0);
        DxNoMove(Atr(b, p).value);
      }
    }
  }

  /** The full history says 100 for ever; any window that has lost the first bar says 0 or nothing. */
  lemma AdxForgets(n: nat, w: nat, p: nat)
    requires p > 1 && n > w && n > 2 * p
    ensures Adx(StepBars(n), p) == Some(100.0)
    ensures Adx(LastN(StepBars(n), w), p) == if w > 2 * p then Some(0.0) else None
  {
    hide Wilder, DxDefined, StepBars;
    StepDx(n, p);
    AveragesWithinRange(DxDefined(StepBars(n), p), p, 100.0, 100.0);
    assert LastN(StepBars(n), w) == FlatBars(w);
    FlatDx(w, p);
    if w > 2 * p {
      AveragesWithinRange(DxDefined(FlatBars(w), p), p, 0.0, 0.0);
    }
  }

  /**
   * The rolling ADX agrees with the batch ADX on every history of `n` bars exactly when the history
   * fits the window, or is too short for ADX to be defined at all.
   */
  lemma AdxAgreesExactlyWithinWindow(n: nat, w: nat, p: nat)
    requires p > 1
    ensures (forall bars: seq<Bar> :: |bars| == n ==> Adx(LastN(bars, w), p) == Adx(bars, p))
        <==> (n <= w || n <= 2 * p)
  {
    if n > w && n > 2 * p {
      AdxForgets(n, w, p);
      assert |StepBars(n)| == n;
    }
  }
}
