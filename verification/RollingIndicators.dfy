/**
 * The stateful indicators of `incremental.py`. Every class remembers, as ghost state only, the
 * history it has been fed; `Valid` says that its few fields are what the definitions of
 * `IndicatorSpec` give on that history, and each `Update` returns the definition's value.
 */
module RollingIndicators {
  import opened Common
  import opened IndicatorSpec
  import opened BatchIndicators

  class IncrementalEMA {
    const period: nat
    var seed: seq<real>
    var value: Option<real>
    ghost var history: seq<real>

    ghost predicate Valid()
      reads this
    {
      && period > 0
      && value == Ema(history, period)
      && (value.None? ==> seed == history)
    }

    constructor (period: nat)
      requires period > 0
      ensures Valid() && history == [] && this.period == period
    {
      this.period := period;
      seed, value, history := [], None, [];
    }

    method Update(price: real) returns (r: Option<real>)
      requires Valid()
      modifies this
      ensures Valid() && history == old(history) + [price]
      ensures r == value == Ema(history, period)
    {
      ghost var past := history;
      history := history + [price];
      if value.None? {
        seed := seed + [price];
        if |seed| == period {
          value := Some(Sum(seed) / period as real);
        }
        return value;
      }
      var next := EmaUpdate(past, value.value, price, Smoothing(period), period);
      value := Some(next);
      return value;
    }
  }

  class IncrementalRSI {
    const period: nat
    var prev: Option<real>
    var gains: seq<real>
    var losses: seq<real>
    var avgGain: Option<real>
    var avgLoss: Option<real>
    var value: Option<real>
    ghost var history: seq<real>

    ghost predicate Valid()
      reads this
    {
      && period > 0
      && prev == (if |history| == 0 then None else Some(history[|history| - 1]))
      && avgGain == Wilder(Gains(history), period)
      && avgLoss == Wilder(Losses(history), period)
      && (avgGain.None? ==> gains == Gains(history) && losses == Losses(history))
      && value == Rsi(history, period)
    }

    constructor (period: nat)
      requires period > 0
      ensures Valid() && history == [] && this.period == period
    {
      this.period := period;
      prev, gains, losses, avgGain, avgLoss, value, history := None, [], [], None, None, None, [];
    }

    method Update(close: real) returns (r: Option<real>)
      requires Valid()
      modifies this
      ensures Valid() && history == old(history) + [close]
      ensures r == Rsi(history, period)
    {
      hide Wilder, Rsi, RsiValue;
      ghost var past := history;
      history := history + [close];
      assert history[..|past|] == past;
      if prev.None? {
        prev := Some(close);
        return None;
      }
      var change := close - prev.value;
      prev := Some(close);
      var gain, loss := Max(change, 0.0), Max(-change, 0.0);
      assert Gains(history) == Gains(past) + [gain] && Losses(history) == Losses(past) + [loss];
      UpdateAverages(past, gain, loss);
      if avgGain.Some? {
        value := Latest();
      }
      return value;
    }

    /** Seeds the two averages from the collected lists, then smooths them. */
    method UpdateAverages(ghost past: seq<real>, gain: real, loss: real)
      requires period > 0
      requires avgGain == Wilder(Gains(past), period) && avgLoss == Wilder(Losses(past), period)
      requires avgGain.None? ==> gains == Gains(past) && losses == Losses(past)
      modifies `avgGain, `avgLoss, `gains, `losses
      ensures avgGain == Wilder(Gains(past) + [gain], period) && avgLoss == Wilder(Losses(past) + [loss], period)
      ensures avgGain.None? ==> gains == Gains(past) + [gain] && losses == Losses(past) + [loss]
    {
      WilderSnoc(Gains(past), gain, period);
      WilderSnoc(Losses(past), loss, period);
      hide Wilder, Gains, Losses, Sum;
      if avgGain.None? {
        gains, losses := gains + [gain], losses + [loss];
        if |gains| == period {
          avgGain, avgLoss := Some(Sum(gains) / period as real), Some(Sum(losses) / period as real);
        }
        return;
      }
      var g := WilderUpdate(Gains(past), avgGain.value, gain, period);
      var l := WilderUpdate(Losses(past), avgLoss.value, loss, period);
      avgGain, avgLoss := Some(g), Some(l);
    }

    /** The value computed from the two averages, once they are defined. */
    function Latest(): (r: Option<real>)
      requires period > 0 && |history| > period
      requires avgGain == Wilder(Gains(history), period) && avgLoss == Wilder(Losses(history), period)
      reads this
      ensures r == Rsi(history, period)
    {
      GainsNonNegative(history);
      WilderNonNegative(Gains(history), period);
      WilderNonNegative(Losses(history), period);
      Some(RsiValue(avgGain.value, avgLoss.value))
    }
  }

  lemma TrueRangesSnoc(bars: seq<Bar>, b: Bar)
    ensures TrueRanges(bars + [b]) == TrueRanges(bars) + [TrueRange(LastClose(bars), b)]
  {
    assert (bars + [b])[..|bars|] == bars;
  }

  class IncrementalATR {
    const period: nat
    var prevClose: Option<real>
    var seed: seq<real>
    var value: Option<real>
    ghost var history: seq<Bar>

    ghost predicate Valid()
      reads this
    {
      && period > 0
      && prevClose == LastClose(history)
      && value == Atr(history, period)
      && (value.None? ==> seed == TrueRanges(history))
    }

    constructor (period: nat)
      requires period > 0
      ensures Valid() && history == [] && this.period == period
    {
      this.period := period;
      prevClose, seed, value, history := None, [], None, [];
    }

    method Update(b: Bar) returns (r: Option<real>)
      requires Valid()
      modifies this
      ensures Valid() && history == old(history) + [b]
      ensures r == value == Atr(history, period)
    {
      hide Wilder, TrueRanges, Max;
      ghost var past := TrueRanges(history);
      TrueRangesSnoc(history, b);
      var tr;
      if prevClose.None? {
        tr := b.high - b.low;
      } else {
        tr := Max(Max(b.high - b.low, Abs(b.high - prevClose.value)), Abs(b.low - prevClose.value));
      }
      prevClose, history := Some(b.close), history + [b];
      Absorb(past, tr);
      return value;
    }

    /** One more true range: collected until the seed is complete, smoothed from then on. */
    method Absorb(ghost past: seq<real>, tr: real)
      requires period > 0 && value == Wilder(past, period) && (value.None? ==> seed == past)
      modifies `seed, `value
      ensures value == Wilder(past + [tr], period) && (value.None? ==> seed == past + [tr])
    {
      WilderSnoc(past, tr, period);
      hide Wilder, Sum;
      if value.None? {
        seed := seed + [tr];
        if |seed| == period {
          value := Some(Sum(seed) / period as real);
        }
      } else {
        var next := WilderUpdate(past, value.value, tr, period);
        value := Some(next);
      }
    }
  }

  lemma MacdSnoc(past: seq<real>, close: real, fast: nat, slow: nat)
    requires fast > 0 && slow > 0
    ensures MacdDefined(past + [close], fast, slow) ==
      match MacdLine(past + [close], fast, slow)
      case None => MacdDefined(past, fast, slow)
      case Some(line) => MacdDefined(past, fast, slow) + [line]
  {
    assert (past + [close])[..|past|] == past;
  }

  class IncrementalMACD {
    const fast: IncrementalEMA
    const slow: IncrementalEMA
    const signal: IncrementalEMA
    var macd: Option<real>
    var signalValue: Option<real>
    ghost var history: seq<real>

    ghost function Parts(): set<object> { {this, fast, slow, signal} }

    ghost predicate Valid()
      reads this, fast, slow, signal
    {
      && fast != slow && fast != signal && slow != signal
      && fast.Valid() && slow.Valid() && signal.Valid()
      && fast.history == slow.history == history
      && signal.history == MacdDefined(history, fast.period, slow.period)
      && macd == MacdLine(history, fast.period, slow.period)
      && signalValue == signal.value
    }

    constructor (fastPeriod: nat, slowPeriod: nat, signalPeriod: nat)
      requires fastPeriod > 0 && slowPeriod > 0 && signalPeriod > 0
      ensures Valid() && fresh(Parts()) && history == []
      ensures fast.period == fastPeriod && slow.period == slowPeriod && signal.period == signalPeriod
    {
      fast := new IncrementalEMA(fastPeriod);
      slow := new IncrementalEMA(slowPeriod);
      signal := new IncrementalEMA(signalPeriod);
      macd, signalValue, history := None, None, [];
    }

    method Update(close: real) returns (m: Option<real>, s: Option<real>)
      requires Valid()
      modifies this, fast, slow, signal
      ensures Valid() && history == old(history) + [close]
      ensures m == MacdLine(history, fast.period, slow.period)
      ensures s == MacdSignal(history, fast.period, slow.period, signal.period)
    {
      MacdSnoc(history, close, fast.period, slow.period);
      assert signal.value == Ema(signal.history, signal.period);
      hide Ema, MacdDefined, IncrementalEMA.Valid;
      ghost var now := history + [close];
      var f := fast.Update(close);
      var sl := slow.Update(close);
      if f.Some? && sl.Some? {
        macd := Some(f.value - sl.value);
        signalValue := signal.Update(f.value - sl.value);
      }
      history := now;
      assert macd == MacdLine(now, fast.period, slow.period);
      hide MacdLine;
      return macd, signalValue;
    }
  }

  lemma SuperTrendSnoc(bars: seq<Bar>, b: Bar, p: nat, mult: real)
    requires p > 0
    ensures SuperTrend(bars + [b], p, mult) ==
      if |bars| + 1 < p then None
      else Some(NextTrend(SuperTrend(bars, p, mult), LastClose(bars), b, Reach(mult, Atr(bars + [b], p).value)))
  {
    hide NextTrend, Atr;
    assert (bars + [b])[..|bars|] == bars;
  }

  class IncrementalSupertrend {
    const atr: IncrementalATR
    const mult: real
    var prev: Option<Trend>
    var prevClose: Option<real>
    ghost var history: seq<Bar>

    ghost function Parts(): set<object> { {this, atr} }

    ghost predicate Valid()
      reads this, atr
    {
      && atr.Valid() && atr.history == history
      && prevClose == LastClose(history)
      && prev == SuperTrend(history, atr.period, mult)
    }

    constructor (period: nat, mult: real)
      requires period > 0
      ensures Valid() && fresh(Parts()) && history == []
      ensures atr.period == period && this.mult == mult
    {
      atr := new IncrementalATR(period);
      this.mult := mult;
      prev, prevClose, history := None, None, [];
    }

    method Update(b: Bar) returns (line: Option<real>, dir: Option<int>)
      requires Valid()
      modifies this, atr
      ensures Valid() && history == old(history) + [b]
      ensures line == LineOf(SuperTrend(history, atr.period, mult))
      ensures dir == DirOf(SuperTrend(history, atr.period, mult))
    {
      ghost var past := history;
      SuperTrendSnoc(past, b, atr.period, mult);
      hide SuperTrend, Atr, NextTrend;
      history := history + [b];
      var a := atr.Update(b);
      if a.None? {
        prevClose := Some(b.close);
        return None, None;
      }
      var next := Step(b, Reach(mult, a.value));
      prev, prevClose := Some(next), Some(b.close);
      return Some(next.line), Some(next.dir);
    }

    /** The branches of `update` once the ATR is defined. */
    method Step(b: Bar, reach: real) returns (next: Trend)
      requires prev.Some? ==> prevClose.Some?
      ensures next == NextTrend(prev, prevClose, b, reach)
    {
      var mid := (b.high + b.low) / 2.0;
      var basicUpper, basicLower := mid + reach, mid - reach;
      var upper, lower := basicUpper, basicLower;
      if prev.Some? {
        if !(basicUpper < prev.value.upper || prevClose.value > prev.value.upper) {
          upper := prev.value.upper;
        }
        if !(basicLower > prev.value.lower || prevClose.value < prev.value.lower) {
          lower := prev.value.lower;
        }
      }
      var dir, st;
      if prev.None? {
        dir := if b.close >= mid then 1 else -1;
        st := if dir == 1 then lower else upper;
      } else if b.close > (if prev.value.dir == -1 then prev.value.upper else prev.value.line) {
        dir, st := 1, lower;
      } else if b.close < (if prev.value.dir == 1 then prev.value.lower else prev.value.line) {
        dir, st := -1, upper;
      } else {
        dir := prev.value.dir;
        st := if dir == 1 then lower else upper;
      }
      next := Trend(upper, lower, st, dir);
    }
  }

  /** How the anchored sums change with one more bar: they restart exactly on a new session. */
  lemma AnchorStep(past: seq<Bar>, b: Bar, cal: Calendar)
    ensures var h := past + [b];
      var restart := cal(b.ts).Some? && cal(b.ts) != AnchorSession(past, cal);
      var old_ := past[AnchorIndex(past, cal)..];
      var new_ := h[AnchorIndex(h, cal)..];
      && AnchorSession(h, cal) == (if restart then cal(b.ts) else AnchorSession(past, cal))
      && TradedValue(new_) == (if restart then 0.0 else TradedValue(old_)) + Typical(b) * b.volume as real
      && TradedVolume(new_) == (if restart then 0 else TradedVolume(old_)) + b.volume
  {
    var h := past + [b];
    assert h[..|past|] == past;
    var k := AnchorIndex(h, cal);
    var new_ := h[k..];
    assert new_[..|new_| - 1] == past[k..];
  }

  class SessionVWAP {
    const cal: Calendar
    var session: Option<int>
    var cumPv: real
    var cumVol: int
    var value: Option<real>
    ghost var history: seq<Bar>

    ghost predicate Valid()
      reads this
    {
      && session == AnchorSession(history, cal)
      && cumPv == TradedValue(history[AnchorIndex(history, cal)..])
      && cumVol == TradedVolume(history[AnchorIndex(history, cal)..])
    }

    constructor (cal: Calendar)
      ensures Valid() && history == [] && this.cal == cal
    {
      this.cal := cal;
      session, cumPv, cumVol, value, history := None, 0.0, 0, None, [];
    }

    method Update(b: Bar) returns (r: Option<real>)
      requires Valid()
      modifies this
      ensures Valid() && history == old(history) + [b]
      ensures r == SessionVwap(history, cal)
    {
      ghost var past := history;
      history := history + [b];
      AnchorStep(past, b, cal);
      var s := cal(b.ts);
      if s.Some? && s != session {
        session, cumPv, cumVol := s, 0.0, 0;
      }
      cumPv := cumPv + Typical(b) * b.volume as real;
      cumVol := cumVol + b.volume;
      value := if cumVol != 0 then Some(cumPv / cumVol as real) else None;
      return value;
    }
  }

  // ----- The bundle -----

  /** What the rolling state reports: most indicators on the whole history, ADX and the bands on the window of
      recent bars, VWAP on the session. */
  function RollingBundle(bars: seq<Bar>, window: nat, cal: Calendar, sqrt: real -> real): Bundle {
    var cs, recent := Closes(bars), LastN(bars, window);
    var t := SuperTrend(bars, 10, 3.0);
    var bb := Bollinger(Closes(recent), 20, 2.0, sqrt);
    Bundle(
      Ema(cs, 9), Ema(cs, 21), Ema(cs, 50), Ema(cs, 200),
      Rsi(cs, 14), MacdLine(cs, 12, 26), MacdSignal(cs, 12, 26, 9), Atr(bars, 14),
      Adx(recent, 14), SessionVwap(bars, cal),
      LineOf(t), DirOf(t), UpperOf(bb), LowerOf(bb))
  }

  lemma ClosesSnoc(bars: seq<Bar>, b: Bar)
    ensures Closes(bars + [b]) == Closes(bars) + [b.close]
  {
    assert (bars + [b])[..|bars|] == bars;
  }

  lemma {:induction false} ClosesOfSuffix(bars: seq<Bar>, k: nat)
    requires k <= |bars|
    ensures Closes(bars[k..]) == Closes(bars)[k..]
  {
    assert forall i :: 0 <= i < |bars| - k ==> Closes(bars[k..])[i] == bars[k + i].close;
  }

  /** A window at least as long as the period carries everything the bands need. */
  lemma BollingerOnWindow(bars: seq<Bar>, window: nat, p: nat, mult: real, sqrt: real -> real)
    requires 0 < p <= window
    ensures Bollinger(Closes(LastN(bars, window)), p, mult, sqrt) == Bollinger(Closes(bars), p, mult, sqrt)
  {
    hide Mean, StdDev, Closes;
    if |bars| > window {
      var k := |bars| - window;
      ClosesOfSuffix(bars, k);
      assert Closes(bars)[k..][window - p..] == Closes(bars)[|bars| - p..];
    }
  }

  lemma LastNAppend<T>(xs: seq<T>, x: T, w: nat)
    ensures LastN(xs + [x], w) == LastN(LastN(xs, w) + [x], w)
  {}

  class RollingIndicatorState {
    const window: nat
    const sqrt: real -> real
    const ema9: IncrementalEMA
    const ema21: IncrementalEMA
    const ema50: IncrementalEMA
    const ema200: IncrementalEMA
    const rsi: IncrementalRSI
    const atr: IncrementalATR
    const macd: IncrementalMACD
    const supertrend: IncrementalSupertrend
    const vwap: SessionVWAP
    var recent: seq<Bar>
    ghost var history: seq<Bar>

    ghost const averages: set<object>
    ghost const plain: set<object>
    ghost const composite: set<object>

    ghost function Repr(): set<object> { {this} + averages + plain + composite }

    static ghost predicate AveragesWired(objs: set<object>, e9: IncrementalEMA, e21: IncrementalEMA,
                                         e50: IncrementalEMA, e200: IncrementalEMA) {
      && objs == {e9, e21, e50, e200}
      && e9 != e21 && e9 != e50 && e9 != e200 && e21 != e50 && e21 != e200 && e50 != e200
      && e9.period == 9 && e21.period == 21 && e50.period == 50 && e200.period == 200
    }

    static ghost predicate PlainWired(objs: set<object>, rs: IncrementalRSI, at: IncrementalATR, vw: SessionVWAP) {
      objs == {rs, at, vw} && rs.period == 14 && at.period == 14
    }

    static ghost predicate CompositeWired(objs: set<object>, m: IncrementalMACD, st: IncrementalSupertrend) {
      && objs == m.Parts() + st.Parts()
      && m.fast.period == 12 && m.slow.period == 26 && m.signal.period == 9
      && st.atr.period == 10 && st.mult == 3.0
    }

    /** The fixed configuration: which objects exist, that none is shared, and their parameters. */
    ghost predicate Wiring() {
      && AveragesWired(averages, ema9, ema21, ema50, ema200)
      && PlainWired(plain, rsi, atr, vwap)
      && CompositeWired(composite, macd, supertrend)
    }

    ghost predicate Separate() {
      && averages !! plain && averages !! composite && plain !! composite
      && this !in averages && this !in plain && this !in composite
    }

    ghost predicate AveragesFed(closes: seq<real>)
      requires Wiring()
      reads averages
    {
      && ema9.Valid() && ema21.Valid() && ema50.Valid() && ema200.Valid()
      && ema9.history == ema21.history == ema50.history == ema200.history == closes
    }

    ghost predicate PlainFed(bars: seq<Bar>, closes: seq<real>)
      requires Wiring()
      reads plain
    {
      && rsi.Valid() && atr.Valid() && vwap.Valid()
      && rsi.history == closes && atr.history == vwap.history == bars
    }

    ghost predicate CompositeFed(bars: seq<Bar>, closes: seq<real>)
      requires Wiring()
      reads composite
    {
      && macd.Valid() && supertrend.Valid()
      && macd.history == closes && supertrend.history == bars
    }

    ghost predicate Valid()
      reads this, Repr()
    {
      && Wiring() && Separate()
      && AveragesFed(Closes(history))
      && PlainFed(history, Closes(history))
      && CompositeFed(history, Closes(history))
      && recent == LastN(history, window)
    }

    constructor (window: nat, cal: Calendar, sqrt: real -> real)
      ensures Valid() && fresh(Repr()) && history == []
      ensures this.window == window && this.sqrt == sqrt && vwap.cal == cal
    {
      hide IncrementalEMA.Valid, IncrementalRSI.Valid, IncrementalATR.Valid;
      hide IncrementalMACD.Valid, IncrementalSupertrend.Valid, SessionVWAP.Valid;
      hide AveragesWired, PlainWired, CompositeWired;
      var e9, e21, e50, e200, objs := NewAverages();
      var rs, at, vw, objs' := NewPlain(cal);
      var m, st, objs'' := NewComposite();
      this.window, this.sqrt := window, sqrt;
      ema9, ema21, ema50, ema200 := e9, e21, e50, e200;
      rsi, atr, vwap, macd, supertrend := rs, at, vw, m, st;
      averages, plain, composite := objs, objs', objs'';
      recent, history := [], [];
    }

    static method NewAverages()
      returns (e9: IncrementalEMA, e21: IncrementalEMA, e50: IncrementalEMA, e200: IncrementalEMA,
               ghost objs: set<object>)
      ensures fresh(objs) && AveragesWired(objs, e9, e21, e50, e200)
      ensures e9.Valid() && e21.Valid() && e50.Valid() && e200.Valid()
      ensures e9.history == e21.history == e50.history == e200.history == []
    {
      e9 := new IncrementalEMA(9);
      e21 := new IncrementalEMA(21);
      e50 := new IncrementalEMA(50);
      e200 := new IncrementalEMA(200);
      objs := {e9, e21, e50, e200};
    }

    static method NewPlain(cal: Calendar)
      returns (rs: IncrementalRSI, at: IncrementalATR, vw: SessionVWAP, ghost objs: set<object>)
      ensures fresh(objs) && PlainWired(objs, rs, at, vw) && vw.cal == cal
      ensures rs.Valid() && at.Valid() && vw.Valid()
      ensures rs.history == [] && at.history == vw.history == []
    {
      rs := new IncrementalRSI(14);
      at := new IncrementalATR(14);
      vw := new SessionVWAP(cal);
      objs := {rs, at, vw};
    }

    static method NewComposite()
      returns (m: IncrementalMACD, st: IncrementalSupertrend, ghost objs: set<object>)
      ensures fresh(objs) && CompositeWired(objs, m, st)
      ensures m.Valid() && st.Valid() && m.history == [] && st.history == []
    {
      m := new IncrementalMACD(12, 26, 9);
      st := new IncrementalSupertrend(10, 3.0);
      objs := m.Parts() + st.Parts();
    }

    method UpdateAverages(close: real, ghost past: seq<real>)
      returns (e9: Option<real>, e21: Option<real>, e50: Option<real>, e200: Option<real>)
      requires Wiring() && AveragesFed(past)
      modifies averages
      ensures AveragesFed(past + [close])
      ensures e9 == Ema(past + [close], 9) && e21 == Ema(past + [close], 21)
      ensures e50 == Ema(past + [close], 50) && e200 == Ema(past + [close], 200)
    {
      e9 := ema9.Update(close);
      e21 := ema21.Update(close);
      e50 := ema50.Update(close);
      e200 := ema200.Update(close);
    }

    method UpdatePlain(b: Bar, ghost past: seq<Bar>, ghost closes: seq<real>)
      returns (rs: Option<real>, at: Option<real>, vw: Option<real>)
      requires Wiring() && PlainFed(past, closes)
      modifies plain
      ensures PlainFed(past + [b], closes + [b.close])
      ensures rs == Rsi(closes + [b.close], 14) && at == Atr(past + [b], 14)
      ensures vw == SessionVwap(past + [b], vwap.cal)
    {
      rs := rsi.Update(b.close);
      at := atr.Update(b);
      vw := vwap.Update(b);
    }

    method UpdateComposite(b: Bar, ghost past: seq<Bar>, ghost closes: seq<real>)
      returns (m: Option<real>, sig: Option<real>, st: Option<real>, dir: Option<int>)
      requires Wiring() && CompositeFed(past, closes)
      modifies composite
      ensures CompositeFed(past + [b], closes + [b.close])
      ensures m == MacdLine(closes + [b.close], 12, 26) && sig == MacdSignal(closes + [b.close], 12, 26, 9)
      ensures st == LineOf(SuperTrend(past + [b], 10, 3.0)) && dir == DirOf(SuperTrend(past + [b], 10, 3.0))
    {
      m, sig := macd.Update(b.close);
      st, dir := supertrend.Update(b);
    }

    /** The two indicators that the state recomputes from its bounded window. */
    method FromWindow(ghost bars: seq<Bar>) returns (adx: Option<real>, upper: Option<real>, lower: Option<real>)
      requires recent == LastN(bars, window)
      ensures adx == Adx(LastN(bars, window), 14)
      ensures upper == UpperOf(Bollinger(Closes(LastN(bars, window)), 20, 2.0, sqrt))
      ensures lower == LowerOf(Bollinger(Closes(LastN(bars, window)), 20, 2.0, sqrt))
    {
      hide Adx, AdxAt, Bollinger;
      var adxSeries, _, _ := AdxSeries(recent, 14);
      LatestAdx(recent, 14, adxSeries);
      adx := LastDefined(adxSeries);
      var cs := ClosesOf(recent);
      upper, lower := LatestBands(cs, sqrt);
    }

    /** One closed bar: every field is its definition on the history fed so far, which is kept nowhere. */
    method Update(b: Bar) returns (r: Bundle)
      requires Valid()
      modifies Repr()
      ensures Valid() && history == old(history) + [b]
      ensures r == RollingBundle(history, window, vwap.cal, sqrt)
    {
      hide Ema, Rsi, Wilder, Atr, SuperTrend, MacdLine, MacdSignal, Adx, Bollinger, SessionVwap;
      hide Wiring, AveragesFed, PlainFed, CompositeFed, Closes, LineOf, DirOf, UpperOf, LowerOf, LastN;
      ghost var past, closes := history, Closes(history);
      LastNAppend(past, b, window);
      ClosesSnoc(past, b);
      history := past + [b];
      recent := LastN(recent + [b], window);
      var m, sig, st, dir := UpdateComposite(b, past, closes);
      var adx, bbUpper, bbLower := FromWindow(history);
      var e9, e21, e50, e200 := UpdateAverages(b.close, closes);
      var rs, at, vw := UpdatePlain(b, past, closes);
      r := Bundle(e9, e21, e50, e200, rs, m, sig, at, adx, vw, st, dir, bbUpper, bbLower);
    }
  }

  /** `_replay_all`: the bundle at every bar, which depends on no later bar. */
  method ReplayAll(bars: seq<Bar>, cal: Calendar, sqrt: real -> real) returns (out: seq<Bundle>)
    ensures |out| == |bars|
    ensures forall i :: 0 <= i < |bars| ==> out[i] == RollingBundle(bars[..i + 1], 250, cal, sqrt)
  {
    hide RollingBundle, RollingIndicatorState.Valid;
    out := [];
    if |bars| == 0 {
      return;
    }
    var state := new RollingIndicatorState(250, cal, sqrt);
    var i := 0;
    while i < |bars|
      invariant 0 <= i <= |bars| && |out| == i
      invariant state.Valid() && fresh(state.Repr()) && state.history == bars[..i]
      invariant state.window == 250 && state.sqrt == sqrt && state.vwap.cal == cal
      invariant forall k :: 0 <= k < i ==> out[k] == RollingBundle(bars[..k + 1], 250, cal, sqrt)
    {
      TakeSucc(bars, i);
      var bundle := state.Update(bars[i]);
      out := out + [bundle];
      i := i + 1;
    }
  }
}
