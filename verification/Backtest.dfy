/**
 * The trade simulator (`simulator.py`), the causal bar walk (`engine.py`) and the R-multiple
 * metrics (`models.py`) of the backtester. A strategy is one uninterpreted pure function of its
 * context, as the strategy contract demands.
 */
module Backtest {
  import opened Common
  import opened IndicatorSpec
  import opened BatchIndicators
  import opened RollingIndicators

  datatype Direction = LONG | SHORT | NONE

  datatype Signal = Signal(symbol: string, direction: Direction, entry: real, stop: real, targets: seq<real>)

  datatype Outcome = WIN | LOSS | BREAKEVEN | TIMEOUT

  datatype Trade = Trade(symbol: string, direction: Direction, entryTs: int, entry: real, stop: real, target: real,
                         exitTs: int, exit: real, holdingBars: nat, outcome: Outcome)

  // ----- Simulating one trade -----

  function TargetOf(s: Signal): real { if |s.targets| > 0 then s.targets[0] else s.entry }

  function Pnl(direction: Direction, entry: real, exit: real): real {
    if direction == LONG then exit - entry else entry - exit
  }

  predicate HitsStop(s: Signal, b: Bar) {
    if s.direction == LONG then b.low <= s.stop else b.high >= s.stop
  }

  predicate HitsTarget(s: Signal, b: Bar) {
    if s.direction == LONG then b.high >= TargetOf(s) else b.low <= TargetOf(s)
  }

  predicate Touches(s: Signal, b: Bar) { HitsStop(s, b) || HitsTarget(s, b) }

  /** The first bar of the horizon that reaches either level; its length if none does. */
  function FirstTouch(s: Signal, horizon: seq<Bar>): (k: nat)
    ensures k <= |horizon|
    ensures forall j :: 0 <= j < k ==> !Touches(s, horizon[j])
    ensures k < |horizon| ==> Touches(s, horizon[k])
  {
    if |horizon| == 0 || Touches(s, horizon[0]) then 0 else 1 + FirstTouch(s, horizon[1..])
  }

  function CloseTrade(s: Signal, entryBar: Bar, exitBar: Bar, exit: real, held: nat, timed: bool): Trade {
    var raw := Pnl(s.direction, s.entry, exit);
    var outcome := if timed then TIMEOUT else if raw > 0.0 then WIN else if raw < 0.0 then LOSS else BREAKEVEN;
    Trade(s.symbol, s.direction, entryBar.ts, s.entry, s.stop, TargetOf(s), exitBar.ts, exit, held, outcome)
  }

  /** A trade ends on the first bar that touches a level, the stop taking precedence, or on the last bar. */
  function Simulated(s: Signal, entryBar: Bar, horizon: seq<Bar>): Trade {
    var k := FirstTouch(s, horizon);
    if k < |horizon| then
      CloseTrade(s, entryBar, horizon[k], if HitsStop(s, horizon[k]) then s.stop else TargetOf(s), k + 1, false)
    else if k > 0 then CloseTrade(s, entryBar, horizon[k - 1], horizon[k - 1].close, k, true)
    else CloseTrade(s, entryBar, entryBar, s.entry, 0, true)
  }

  function Take<T>(xs: seq<T>, n: nat): (r: seq<T>)
    ensures r == if n <= |xs| then xs[..n] else xs
  {
    if n <= |xs| then xs[..n] else xs
  }

  lemma FirstTouchUnique(s: Signal, horizon: seq<Bar>, k: nat)
    requires k <= |horizon|
    requires forall j :: 0 <= j < k ==> !Touches(s, horizon[j])
    requires k < |horizon| ==> Touches(s, horizon[k])
    ensures FirstTouch(s, horizon) == k
  {}

  /** A long is out at bar `k`, the first to reach its stop from above or its target from below: at the stop if that
      bar reaches it, at the target only if not. */
  predicate LongOut(stop: real, target: real, horizon: seq<Bar>, k: nat, t: Trade)
    requires k < |horizon|
  {
    && (forall j :: 0 <= j < k ==> stop < horizon[j].low && horizon[j].high < target)
    && (if horizon[k].low <= stop then t.exit == stop else target <= horizon[k].high && t.exit == target)
    && t.exitTs == horizon[k].ts && t.holdingBars == k + 1
    && (t.outcome == if t.exit > t.entry then WIN else if t.exit < t.entry then LOSS else BREAKEVEN)
  }

  predicate ShortOut(stop: real, target: real, horizon: seq<Bar>, k: nat, t: Trade)
    requires k < |horizon|
  {
    && (forall j :: 0 <= j < k ==> horizon[j].high < stop && target < horizon[j].low)
    && (if stop <= horizon[k].high then t.exit == stop else horizon[k].low <= target && t.exit == target)
    && t.exitTs == horizon[k].ts && t.holdingBars == k + 1
    && (t.outcome == if t.exit < t.entry then WIN else if t.exit > t.entry then LOSS else BREAKEVEN)
  }

  /** No bar reaches a level: out at the last close, or at the entry if there is no bar at all. */
  predicate TimedOut(s: Signal, target: real, entryBar: Bar, horizon: seq<Bar>, t: Trade) {
    && (forall j :: 0 <= j < |horizon| ==>
      if s.direction == LONG then s.stop < horizon[j].low && horizon[j].high < target
      else horizon[j].high < s.stop && target < horizon[j].low)
    && t.outcome == TIMEOUT && t.holdingBars == |horizon|
    && (if horizon == [] then t.exit == s.entry && t.exitTs == entryBar.ts
        else t.exit == horizon[|horizon| - 1].close && t.exitTs == horizon[|horizon| - 1].ts)
  }

  /** How a trade must end, in terms of the bars alone. */
  predicate Exits(s: Signal, entryBar: Bar, horizon: seq<Bar>, t: Trade) {
    var target := if s.targets == [] then s.entry else s.targets[0];
    && t.entry == s.entry && t.stop == s.stop && t.direction == s.direction && t.entryTs == entryBar.ts
    && if t.outcome == TIMEOUT then TimedOut(s, target, entryBar, horizon, t)
       else
         && 1 <= t.holdingBars <= |horizon|
         && if s.direction == LONG then LongOut(s.stop, target, horizon, t.holdingBars - 1, t)
            else ShortOut(s.stop, target, horizon, t.holdingBars - 1, t)
  }

  lemma SimulatedExits(s: Signal, entryBar: Bar, horizon: seq<Bar>)
    ensures Exits(s, entryBar, horizon, Simulated(s, entryBar, horizon))
  {}

  method SimulateTrade(signal: Signal, entryBar: Bar, futureBars: seq<Bar>, maxHoldingBars: nat) returns (t: Trade)
    ensures t == Simulated(signal, entryBar, Take(futureBars, maxHoldingBars))
    ensures Exits(signal, entryBar, Take(futureBars, maxHoldingBars), t)
  {
    SimulatedExits(signal, entryBar, Take(futureBars, maxHoldingBars));
    var stop := signal.stop;
    var target := if |signal.targets| > 0 then signal.targets[0] else signal.entry;
    var long := signal.direction == LONG;
    var horizon := Take(futureBars, maxHoldingBars);
    var i := 0;
    while i < |horizon|
      invariant 0 <= i <= |horizon|
      invariant forall j :: 0 <= j < i ==> !Touches(signal, horizon[j])
    {
      var bar := horizon[i];
      var hitStop := if long then bar.low <= stop else bar.high >= stop;
      var hitTarget := if long then bar.high >= target else bar.low <= target;
      if hitStop || hitTarget {
        FirstTouchUnique(signal, horizon, i);
      }
      if hitStop && hitTarget {
        return CloseTrade(signal, entryBar, bar, stop, i + 1, false);
      }
      if hitStop {
        return CloseTrade(signal, entryBar, bar, stop, i + 1, false);
      }
      if hitTarget {
        return CloseTrade(signal, entryBar, bar, target, i + 1, false);
      }
      i := i + 1;
    }
    FirstTouchUnique(signal, horizon, |horizon|);
    if |horizon| > 0 {
      var last := horizon[|horizon| - 1];
      return CloseTrade(signal, entryBar, last, last.close, |horizon|, true);
    }
    return CloseTrade(signal, entryBar, entryBar, signal.entry, 0, true);
  }

  /** A horizon that is only cut short changes a trade only if the trade had run into the cut. */
  lemma SimulatedOnLongerHorizon(s: Signal, entryBar: Bar, short: seq<Bar>, long: seq<Bar>)
    requires short <= long && |short| > 0
    ensures Simulated(s, entryBar, short) == Simulated(s, entryBar, long)
         || (Simulated(s, entryBar, short).outcome == TIMEOUT && Simulated(s, entryBar, short).holdingBars == |short|
             && Simulated(s, entryBar, short).exitTs == short[|short| - 1].ts)
  {
    var k := FirstTouch(s, short);
    if k < |short| {
      FirstTouchUnique(s, long, k);
    }
  }

  // ----- R-multiples -----

  function RiskPerUnit(t: Trade): real { Abs(t.entry - t.stop) }

  function RMultiple(t: Trade): real {
    if RiskPerUnit(t) <= 0.0 then 0.0 else Pnl(t.direction, t.entry, t.exit) / RiskPerUnit(t)
  }

  function RiskReward(s: Signal): real {
    var risk := Abs(s.entry - s.stop);
    if risk > 0.0 && |s.targets| > 0 then Abs(s.targets[0] - s.entry) / risk else 0.0
  }

  /** The same ratio read off a trade. */
  function TradeRiskReward(t: Trade): real {
    if RiskPerUnit(t) > 0.0 then Abs(t.target - t.entry) / RiskPerUnit(t) else 0.0
  }

  /** Stop and first target lie on their proper sides of the entry. */
  predicate WellFormed(s: Signal) {
    if s.direction == LONG then s.stop < s.entry && (|s.targets| > 0 ==> s.entry < s.targets[0])
    else s.entry < s.stop && (|s.targets| > 0 ==> s.targets[0] < s.entry)
  }

  predicate Consistent(b: Bar) { b.low <= b.close <= b.high }

  lemma QuotientRange(x: real, risk: real, lo: real, hi: real)
    requires risk > 0.0 && lo <= x <= hi
    ensures lo / risk <= x / risk <= hi / risk
  {}

  /** Distance from entry to the first target, zero without one. */
  function Reward(s: Signal): real { if |s.targets| > 0 then Abs(s.targets[0] - s.entry) else 0.0 }

  /** The profit of a simulated trade lies between minus the risk and the reward. */
  lemma PnlBounds(s: Signal, entryBar: Bar, horizon: seq<Bar>)
    requires WellFormed(s) && forall j :: 0 <= j < |horizon| ==> Consistent(horizon[j])
    ensures var t := Simulated(s, entryBar, horizon);
      var pnl, risk := Pnl(t.direction, t.entry, t.exit), RiskPerUnit(t);
      && risk > 0.0 && -risk <= pnl <= Reward(s)
      && (t.outcome == LOSS ==> pnl == -risk)
      && (t.outcome == WIN ==> pnl == Reward(s))
      && (t.outcome == TIMEOUT ==> -risk < pnl && (pnl < Reward(s) || Reward(s) == 0.0))
  {
    var k := FirstTouch(s, horizon);
    if k == |horizon| && k > 0 {
      assert !Touches(s, horizon[k - 1]) && Consistent(horizon[k - 1]);
    }
  }

  /**
   * A simulated trade never loses more than one unit of risk and never gains more than the signal's
   * risk-reward ratio; a trade closed at its stop loses exactly one unit.
   */
  lemma RMultipleBounds(s: Signal, entryBar: Bar, horizon: seq<Bar>)
    requires WellFormed(s) && forall j :: 0 <= j < |horizon| ==> Consistent(horizon[j])
    ensures var t := Simulated(s, entryBar, horizon);
      && -1.0 <= RMultiple(t) <= RiskReward(s) == TradeRiskReward(t)
      && (t.outcome == LOSS ==> RMultiple(t) == -1.0)
      && (t.outcome == WIN ==> RMultiple(t) == RiskReward(s))
      && (t.outcome == TIMEOUT ==> -1.0 < RMultiple(t) && (RMultiple(t) < RiskReward(s) || RiskReward(s) == 0.0))
  {
    var t := Simulated(s, entryBar, horizon);
    PnlBounds(s, entryBar, horizon);
    RatioBounds(Pnl(t.direction, t.entry, t.exit), RiskPerUnit(t), Reward(s));
    assert t.entry == s.entry && t.stop == s.stop;
    hide Simulated, Pnl, WellFormed;
  }

  /** A trade whose exit bar reaches the stop loses exactly one unit of risk, whatever else that bar reaches; one that
      exits on a bar short of the stop makes exactly the reward-to-risk ratio. */
  lemma StopBeforeTarget(s: Signal, entryBar: Bar, horizon: seq<Bar>)
    requires WellFormed(s) && Simulated(s, entryBar, horizon).outcome != TIMEOUT
    ensures var t := Simulated(s, entryBar, horizon);
      && 1 <= t.holdingBars <= |horizon|
      && var b := horizon[t.holdingBars - 1];
         RMultiple(t) == if (if s.direction == LONG then b.low <= s.stop else s.stop <= b.high) then -1.0
                         else RiskReward(s)
  {
    var t := Simulated(s, entryBar, horizon);
    SimulatedExits(s, entryBar, horizon);
    hide Simulated;
    UnitRisk(RiskPerUnit(t));
  }

  lemma UnitRisk(risk: real)
    requires risk > 0.0
    ensures -risk / risk == -1.0 && 0.0 / risk == 0.0
  {}

  lemma RatioBounds(pnl: real, risk: real, reward: real)
    requires risk > 0.0 && -risk <= pnl <= reward
    ensures -1.0 <= pnl / risk <= reward / risk && -risk / risk == -1.0 && 0.0 / risk == 0.0
    ensures -risk < pnl ==> -1.0 < pnl / risk
    ensures pnl < reward ==> pnl / risk < reward / risk
  {
    QuotientRange(pnl, risk, -risk, reward);
    StrictQuotient(-risk, pnl, risk);
    StrictQuotient(pnl, reward, risk);
  }

  lemma StrictQuotient(x: real, y: real, risk: real)
    requires risk > 0.0
    ensures x < y ==> x / risk < y / risk
  {}

  // ----- The walk -----

  datatype Context = Context(symbol: string, timeframe: string, window: seq<Bar>, indicators: Bundle,
                             prevClose: Option<real>, now: int, relativeStrength: Option<real>, indexTrend: Direction)

  type Strategy = Context -> Option<Signal>

  /** A strategy with its timeframe and history requirement, the configuration and the external functions. */
  datatype Setup = Setup(evaluate: Strategy, timeframe: string, requiredHistory: nat, maxHolding: nat,
                         warmupBars: nat, rsLookback: nat, cal: Calendar, sqrt: real -> real)
  {
    function Warmup(): nat { if warmupBars >= requiredHistory then warmupBars else requiredHistory }
  }

  function BundleAt(setup: Setup, bars: seq<Bar>, i: nat): Bundle
    requires i < |bars|
  {
    RollingBundle(bars[..i + 1], 250, setup.cal, setup.sqrt)
  }

  function Return(now: real, before: real): real
    requires before != 0.0
  {
    (now / before - 1.0) * 100.0
  }

  datatype Strength = Raised | Computed(value: Option<real>)

  /** Relative strength against the benchmark, an empty one standing for none. A zero close to divide by and an
      index past the benchmark raise errors. */
  function RelativeStrength(window: seq<Bar>, benchCloses: seq<real>, idx: nat, lookback: nat): Strength {
    if benchCloses == [] || idx < lookback || |window| <= lookback then Computed(None)
    else
      var before := window[|window| - 1 - lookback].close;
      if before == 0.0 || idx >= |benchCloses| || benchCloses[idx - lookback] == 0.0 then Raised
      else
        Computed(Some(
          Return(window[|window| - 1].close, before) - Return(benchCloses[idx], benchCloses[idx - lookback])))
  }

  function TrendOf(b: Bundle): Direction {
    if b.ema21.None? || b.ema50.None? then NONE
    else if b.ema21.value > b.ema50.value then LONG
    else if b.ema21.value < b.ema50.value then SHORT
    else NONE
  }

  function WindowAt(bars: seq<Bar>, i: nat, cap: nat): (w: seq<Bar>)
    requires i < |bars|
    ensures |w| == if i + 1 < cap then i + 1 else cap
    ensures forall k :: 0 <= k < |w| ==> w[k] == bars[i + 1 - |w| + k]
  {
    bars[(if i + 1 >= cap then i + 1 - cap else 0)..i + 1]
  }

  /** `_context`: the strategy's view, from the window, the bundles and the benchmark closes; nothing when an
      error is raised, as by an empty window. */
  function MakeContext(symbol: string, timeframe: string, window: seq<Bar>, indicators: Bundle, benchCloses: seq<real>,
                       benchBundle: Option<Bundle>, idx: nat, lookback: nat): Option<Context>
  {
    var rs := RelativeStrength(window, benchCloses, idx, lookback);
    if rs.Raised? || window == [] then None
    else
      Some(Context(
        symbol, timeframe, window, indicators,
        if |window| >= 2 then Some(window[|window| - 2].close) else None,
        window[|window| - 1].ts,
        rs.value,
        if benchBundle.Some? then TrendOf(benchBundle.value) else NONE))
  }

  /** What the strategy is shown at bar `i`. */
  function ContextAt(setup: Setup, symbol: string, bars: seq<Bar>, bench: seq<Bar>, i: nat): Option<Context>
    requires i < |bars|
  {
    MakeContext(symbol, setup.timeframe, WindowAt(bars, i, setup.Warmup()), BundleAt(setup, bars, i), Closes(bench),
                if i < |bench| then Some(BundleAt(setup, bench, i)) else None, i, setup.rsLookback)
  }

  function HorizonAt(bars: seq<Bar>, i: nat, maxHolding: nat): seq<Bar>
    requires i < |bars|
  {
    Take(bars[i + 1..], maxHolding)
  }

  lemma HorizonIsShort(bars: seq<Bar>, i: nat, m: nat)
    requires i < |bars|
    ensures Take(HorizonAt(bars, i, m), m) == HorizonAt(bars, i, m)
  {}

  function Step(t: Trade): (n: nat)
    ensures n >= 1 && n >= t.holdingBars
  {
    if t.holdingBars >= 1 then t.holdingBars else 1
  }

  predicate Fires(signal: Option<Signal>) { signal.Some? && signal.value.direction != NONE }

  function TradeAt(setup: Setup, bars: seq<Bar>, i: nat, s: Signal): Trade
    requires i < |bars|
  {
    Simulated(s, bars[i], HorizonAt(bars, i, setup.maxHolding))
  }

  /** Trades found so far in front of the rest, unless the rest raises an error. */
  function Prepend(found: seq<Trade>, rest: Option<seq<Trade>>): Option<seq<Trade>> {
    if rest.Some? then Some(found + rest.value) else None
  }

  /** The trades taken from bar `i` on: one position at a time, skipping each holding period; nothing at all when a
      bar raises an error. */
  function Walk(setup: Setup, symbol: string, bars: seq<Bar>, bench: seq<Bar>, i: nat): Option<seq<Trade>>
    decreases |bars| - i
  {
    if i + 1 >= |bars| then Some([])
    else
      var ctx := ContextAt(setup, symbol, bars, bench, i);
      if ctx.None? then None
      else
        var signal := setup.evaluate(ctx.value);
        if !Fires(signal) then Walk(setup, symbol, bars, bench, i + 1)
        else
          var t := TradeAt(setup, bars, i, signal.value);
          Prepend([t], Walk(setup, symbol, bars, bench, i + Step(t)))
  }

  function SymbolTrades(setup: Setup, symbol: string, bars: seq<Bar>, bench: seq<Bar>): Option<seq<Trade>> {
    if |bars| <= setup.Warmup() + 1 then Some([]) else Walk(setup, symbol, bars, bench, setup.Warmup())
  }

  lemma WalkUnfold(setup: Setup, symbol: string, bars: seq<Bar>, bench: seq<Bar>, i: nat)
    requires i + 1 < |bars|
    ensures var ctx := ContextAt(setup, symbol, bars, bench, i);
      Walk(setup, symbol, bars, bench, i) ==
        if ctx.None? then None
        else if Fires(setup.evaluate(ctx.value)) then
          var t := TradeAt(setup, bars, i, setup.evaluate(ctx.value).value);
          Prepend([t], Walk(setup, symbol, bars, bench, i + Step(t)))
        else Walk(setup, symbol, bars, bench, i + 1)
  {
    hide ContextAt, Simulated, HorizonAt, Prepend;
  }

  lemma WalkEnd(setup: Setup, symbol: string, bars: seq<Bar>, bench: seq<Bar>, i: nat)
    requires i + 1 >= |bars|
    ensures Walk(setup, symbol, bars, bench, i) == Some([])
  {}

  /** The benchmark as the run prepares it: its closes and its bundles. */
  ghost predicate Prepared(setup: Setup, bench: seq<Bar>, benchCloses: seq<real>, benchInd: seq<Bundle>) {
    && benchCloses == Closes(bench) && |benchInd| == |bench|
    && forall j :: 0 <= j < |bench| ==> benchInd[j] == BundleAt(setup, bench, j)
  }

  /** `_run_symbol`: the trades of one symbol, appended to the result list; `ok` is false when an error is raised. */
  method RunSymbol(setup: Setup, symbol: string, bars: seq<Bar>, ghost bench: seq<Bar>, benchCloses: seq<real>,
                   benchInd: seq<Bundle>, result: seq<Trade>) returns (ok: bool, trades: seq<Trade>, taken: nat)
    requires Prepared(setup, bench, benchCloses, benchInd)
    ensures ok <==> SymbolTrades(setup, symbol, bars, bench).Some?
    ensures ok ==> Some(trades) == Prepend(result, SymbolTrades(setup, symbol, bars, bench))
    ensures ok ==> taken == |trades| - |result|
  {
    hide Walk, RollingBundle, Prepared;
    ok, trades, taken := true, result, 0;
    assert result + [] == result;
    if |bars| <= setup.Warmup() + 1 {
      return;
    }
    var indicators := ReplayAll(bars, setup.cal, setup.sqrt);
    ok, trades := WalkLoop(setup, symbol, bars, indicators, bench, benchCloses, benchInd, result);
    if ok {
      taken := |trades| - |result|;
    }
  }

  /** The `while` loop of `_run_symbol`. */
  method WalkLoop(setup: Setup, symbol: string, bars: seq<Bar>, indicators: seq<Bundle>, ghost bench: seq<Bar>,
                  benchCloses: seq<real>, benchInd: seq<Bundle>, result: seq<Trade>)
    returns (ok: bool, trades: seq<Trade>)
    requires |indicators| == |bars| && forall i :: 0 <= i < |bars| ==> indicators[i] == BundleAt(setup, bars, i)
    requires Prepared(setup, bench, benchCloses, benchInd)
    ensures ok <==> Walk(setup, symbol, bars, bench, setup.Warmup()).Some?
    ensures ok ==> Some(trades) == Prepend(result, Walk(setup, symbol, bars, bench, setup.Warmup()))
    ensures ok ==> |trades| >= |result|
  {
    hide BundleAt, Simulated, Walk, ContextAt, HorizonAt, Prepared;
    trades, ok := result, true;
    var i := setup.Warmup();
    while i < |bars| - 1
      invariant Prepend(trades, Walk(setup, symbol, bars, bench, i))
        == Prepend(result, Walk(setup, symbol, bars, bench, setup.Warmup()))
      invariant |trades| >= |result|
      decreases |bars| - i
    {
      var ctx := ContextOf(setup, symbol, bars, indicators[i], bench, benchCloses, benchInd, i);
      WalkUnfold(setup, symbol, bars, bench, i);
      if ctx.None? {
        ok := false;
        return;
      }
      var signal := setup.evaluate(ctx.value);
      if signal.None? || signal.value.direction == NONE {
        i := i + 1;
      } else {
        var horizon := HorizonAt(bars, i, setup.maxHolding);
        HorizonIsShort(bars, i, setup.maxHolding);
        var trade := SimulateTrade(signal.value, bars[i], horizon, setup.maxHolding);
        PrependTwice(trades, trade, Walk(setup, symbol, bars, bench, i + Step(trade)));
        trades := trades + [trade];
        i := i + Step(trade);
      }
    }
    WalkEnd(setup, symbol, bars, bench, i);
    assert trades + [] == trades;
  }

  lemma PrependTwice(found: seq<Trade>, t: Trade, rest: Option<seq<Trade>>)
    ensures Prepend(found, Prepend([t], rest)) == Prepend(found + [t], rest)
  {
    if rest.Some? {
      assert found + ([t] + rest.value) == found + [t] + rest.value;
    }
  }

  method ContextOf(setup: Setup, symbol: string, bars: seq<Bar>, bundle: Bundle, ghost bench: seq<Bar>,
                   benchCloses: seq<real>, benchInd: seq<Bundle>, i: nat) returns (ctx: Option<Context>)
    requires i < |bars| && bundle == BundleAt(setup, bars, i) && Prepared(setup, bench, benchCloses, benchInd)
    ensures ctx == ContextAt(setup, symbol, bars, bench, i)
  {
    hide BundleAt, MakeContext;
    ctx := MakeContext(symbol, setup.timeframe, WindowAt(bars, i, setup.Warmup()), bundle, benchCloses,
                       if i < |benchInd| then Some(benchInd[i]) else None, i, setup.rsLookback);
  }

  /** A symbol with its bars, in the order of the mapping. */
  type Series = seq<(string, seq<Bar>)>

  datatype BacktestResult = BacktestResult(trades: seq<Trade>, symbolsTested: nat, barsTested: nat)

  /** The trades of every symbol; nothing once one of them raises an error. */
  function AllTrades(setup: Setup, series: Series, bench: seq<Bar>): Option<seq<Trade>> {
    if series == [] then Some([])
    else
      var before := AllTrades(setup, Init(series), bench);
      if before.None? then None
      else Prepend(before.value, SymbolTrades(setup, Last(series).0, Last(series).1, bench))
  }

  function TotalBars(series: Series): nat {
    if series == [] then 0 else TotalBars(Init(series)) + |Last(series).1|
  }

  /** Symbols with more bars than the configured warm-up. */
  function Tested(setup: Setup, series: Series): nat {
    if series == [] then 0 else Tested(setup, Init(series)) + (if |Last(series).1| > setup.warmupBars then 1 else 0)
  }

  /** `run`: the benchmark is replayed once, then every symbol is walked; nothing when an error is raised. */
  method Run(setup: Setup, series: Series, bench: seq<Bar>) returns (result: Option<BacktestResult>)
    ensures result.Some? <==> AllTrades(setup, series, bench).Some?
    ensures result.Some? ==>
      && Some(result.value.trades) == AllTrades(setup, series, bench)
      && result.value.barsTested == TotalBars(series) && result.value.symbolsTested == Tested(setup, series)
  {
    hide SymbolTrades, RollingBundle, Closes;
    var benchCloses := ClosesOf(bench);
    var benchInd := ReplayAll(bench, setup.cal, setup.sqrt);
    assert Prepared(setup, bench, benchCloses, benchInd);
    hide Prepared;
    var trades, symbolsTested, barsTested := [], 0, 0;
    assert series[..0] == [];
    for k := 0 to |series|
      invariant AllTrades(setup, series[..k], bench) == Some(trades)
      invariant symbolsTested == Tested(setup, series[..k]) && barsTested == TotalBars(series[..k])
    {
      var (symbol, bars) := series[k];
      assert Init(series[..k + 1]) == series[..k] && Last(series[..k + 1]) == series[k];
      NoTradesOnShort(setup, symbol, bars, bench);
      var ok, found, taken := RunSymbol(setup, symbol, bars, bench, benchCloses, benchInd, trades);
      if !ok {
        ErrorEndsRun(setup, series, bench, k + 1);
        return None;
      }
      if taken > 0 || |bars| > setup.warmupBars {
        symbolsTested := symbolsTested + 1;
      }
      trades, barsTested := found, barsTested + |bars|;
    }
    assert series[..|series|] == series;
    result := Some(BacktestResult(trades, symbolsTested, barsTested));
  }

  /** A symbol with any trade has more bars than the warm-up. */
  lemma NoTradesOnShort(setup: Setup, symbol: string, bars: seq<Bar>, bench: seq<Bar>)
    ensures |bars| <= setup.warmupBars ==> SymbolTrades(setup, symbol, bars, bench) == Some([])
  {}

  lemma {:induction false} ErrorEndsRun(setup: Setup, series: Series, bench: seq<Bar>, k: nat)
    requires k <= |series| && AllTrades(setup, series[..k], bench).None?
    ensures AllTrades(setup, series, bench).None?
  {
    hide SymbolTrades;
    if k == |series| {
      assert series[..k] == series;
    } else {
      assert Init(series)[..k] == series[..k];
      ErrorEndsRun(setup, Init(series), bench, k);
    }
  }

  // ----- What a strategy is shown -----

  /** A return is the change over the earlier price, in percent. */
  lemma ReturnIsPercent(now: real, before: real)
    requires before != 0.0
    ensures Return(now, before) * before == 100.0 * (now - before)
  {
    var q := now / before;
    assert q * before == now;
    assert (q - 1.0) * 100.0 * before == 100.0 * (q * before - before);
  }

  lemma StrengthShows(w: seq<Bar>, bars: seq<Bar>, bench: seq<Bar>, i: nat, back: nat)
    requires i < |bars| && |w| <= i + 1 && forall k :: 0 <= k < |w| ==> w[k] == bars[i + 1 - |w| + k]
    ensures var rs := RelativeStrength(w, Closes(bench), i, back);
      rs.Computed? ==>
      && (rs.value.Some? <==> bench != [] && back <= i && back < |w|)
      && (rs.value.Some? ==>
        && i < |bench| && bars[i - back].close != 0.0 && bench[i - back].close != 0.0
        && rs.value.value ==
             Return(bars[i].close, bars[i - back].close) - Return(bench[i].close, bench[i - back].close))
  {
    hide Return;
    if back < |w| {
      assert w[|w| - 1] == bars[i] && w[|w| - 1 - back] == bars[i - back];
    }
  }

  /** The context of bar `i` in terms of the bars: the trailing bars up to it, the close before it and the indicators of
      the history so far. */
  lemma ContextShows(setup: Setup, symbol: string, bars: seq<Bar>, bench: seq<Bar>, i: nat)
    requires i < |bars| && ContextAt(setup, symbol, bars, bench, i).Some?
    ensures var ctx := ContextAt(setup, symbol, bars, bench, i).value;
      var capacity, n := setup.Warmup(), |ctx.window|;
      && ctx.symbol == symbol && ctx.timeframe == setup.timeframe && ctx.now == bars[i].ts
      && n == (if i + 1 < capacity then i + 1 else capacity)
      && (forall k :: 0 <= k < n ==> ctx.window[k] == bars[i + 1 - n + k])
      && ctx.indicators == RollingBundle(bars[..i + 1], 250, setup.cal, setup.sqrt)
      && ctx.prevClose == (if i >= 1 && capacity >= 2 then Some(bars[i - 1].close) else None)
  {
    hide RollingBundle, TrendOf, RelativeStrength, WindowAt, Closes, Return, Setup.Warmup;
    var w := WindowAt(bars, i, setup.Warmup());
    assert ContextAt(setup, symbol, bars, bench, i).value.window == w;
    assert |w| >= 2 ==> w[|w| - 2] == bars[i - 1];
  }

  /** Its relative strength: by how much the symbol's return over the lookback exceeds the index's. */
  lemma ContextStrength(setup: Setup, symbol: string, bars: seq<Bar>, bench: seq<Bar>, i: nat)
    requires i < |bars| && ContextAt(setup, symbol, bars, bench, i).Some?
    ensures var rs, back := ContextAt(setup, symbol, bars, bench, i).value.relativeStrength, setup.rsLookback;
      && (rs.Some? <==> bench != [] && back <= i && back < setup.Warmup())
      && (rs.Some? ==>
        && i < |bench| && bars[i - back].close != 0.0 && bench[i - back].close != 0.0
        && rs.value == Return(bars[i].close, bars[i - back].close) - Return(bench[i].close, bench[i - back].close))
  {
    hide RollingBundle, TrendOf, RelativeStrength, WindowAt, Closes, Return, Setup.Warmup;
    StrengthShows(WindowAt(bars, i, setup.Warmup()), bars, bench, i, setup.rsLookback);
  }

  /** Over positive closes relative strength is positive exactly when the symbol has grown by more than the index. */
  lemma OutperformsIff(setup: Setup, symbol: string, bars: seq<Bar>, bench: seq<Bar>, i: nat)
    requires i < |bars| && i < |bench| && setup.rsLookback <= i
    requires bars[i - setup.rsLookback].close > 0.0 && bench[i - setup.rsLookback].close > 0.0
    requires ContextAt(setup, symbol, bars, bench, i).Some?
    requires ContextAt(setup, symbol, bars, bench, i).value.relativeStrength.Some?
    ensures var before := i - setup.rsLookback;
      ContextAt(setup, symbol, bars, bench, i).value.relativeStrength.value > 0.0 <==>
      bars[i].close * bench[before].close > bench[i].close * bars[before].close
  {
    hide ContextAt, RollingBundle, Return;
    ContextStrength(setup, symbol, bars, bench, i);
    var before := i - setup.rsLookback;
    CompareReturns(bars[i].close, bars[before].close, bench[i].close, bench[before].close);
  }

  lemma CompareReturns(a: real, b: real, c: real, d: real)
    requires b > 0.0 && d > 0.0
    ensures Return(a, b) > Return(c, d) <==> a * d > c * b
  {
    ReturnIsPercent(a, b);
    ReturnIsPercent(c, d);
    hide Return;
    CompareScaled(Return(a, b), Return(c, d), a, b, c, d);
  }

  lemma CompareScaled(p: real, q: real, a: real, b: real, c: real, d: real)
    requires b > 0.0 && d > 0.0 && p * b == 100.0 * (a - b) && q * d == 100.0 * (c - d)
    ensures p > q <==> a * d > c * b
  {
    assert p * b * d == 100.0 * (a * d - b * d) && q * d * b == 100.0 * (c * b - b * d);
    assert (p - q) * (b * d) == 100.0 * (a * d - c * b);
    assert b * d > 0.0;
    SignOf(p - q, b * d);
  }

  lemma SignOf(x: real, m: real)
    requires m > 0.0
    ensures x > 0.0 <==> x * m > 0.0
  {}

  /** The index trend of the context compares the benchmark's 21- and 50-bar averages up to bar `i`. */
  lemma IndexTrendShows(setup: Setup, symbol: string, bars: seq<Bar>, bench: seq<Bar>, i: nat)
    requires i < |bars| && ContextAt(setup, symbol, bars, bench, i).Some?
    ensures var trend := ContextAt(setup, symbol, bars, bench, i).value.indexTrend;
      if 49 <= i < |bench| then
        var closes := Closes(bench[..i + 1]);
        && (trend == LONG <==> Ema(closes, 21).value > Ema(closes, 50).value)
        && (trend == SHORT <==> Ema(closes, 21).value < Ema(closes, 50).value)
      else trend == NONE
  {
    hide Closes, Ema, Rsi, MacdLine, MacdSignal, Atr, SuperTrend, Adx, Vwap, SessionVwap, Bollinger, RelativeStrength;
  }

  // ----- Which signals are taken -----

  /** The strategy answers the context of bar `k` with a signal to buy or to sell short. */
  predicate FiresAt(setup: Setup, symbol: string, bars: seq<Bar>, bench: seq<Bar>, k: nat)
    requires k < |bars|
  {
    var ctx := ContextAt(setup, symbol, bars, bench, k);
    ctx.Some? &&
    match setup.evaluate(ctx.value)
    case None => false
    case Some(signal) => signal.direction == LONG || signal.direction == SHORT
  }

  /** The trade a firing bar opens. */
  function TradeOn(setup: Setup, symbol: string, bars: seq<Bar>, bench: seq<Bar>, k: nat): Trade
    requires k < |bars| && FiresAt(setup, symbol, bars, bench, k)
  {
    TradeAt(setup, bars, k, setup.evaluate(ContextAt(setup, symbol, bars, bench, k).value).value)
  }

  /** Bar `e` opened one of the trades, and bar `k` is that bar or lies within the trade's holding period. */
  predicate TakenFrom(setup: Setup, symbol: string, bars: seq<Bar>, bench: seq<Bar>, trades: seq<Trade>, e: nat, k: nat)
    requires k < |bars|
  {
    && e <= k && FiresAt(setup, symbol, bars, bench, e) && TradeOn(setup, symbol, bars, bench, e) in trades
    && (e == k || k < e + TradeOn(setup, symbol, bars, bench, e).holdingBars)
  }

  /** No signal is missed: every firing bar opens a trade, or falls into the holding period of an earlier one. */
  lemma {:induction false} EverySignalIsTaken(
    setup: Setup, symbol: string, bars: seq<Bar>, bench: seq<Bar>, i: nat, k: nat)
    requires Walk(setup, symbol, bars, bench, i).Some? && i <= k && k + 1 < |bars|
    requires FiresAt(setup, symbol, bars, bench, k)
    ensures exists e: nat ::
      i <= e && TakenFrom(setup, symbol, bars, bench, Walk(setup, symbol, bars, bench, i).value, e, k)
    decreases k - i
  {
    hide ContextAt, TradeAt, Walk;
    WalkUnfold(setup, symbol, bars, bench, i);
    var trades := Walk(setup, symbol, bars, bench, i).value;
    if FiresAt(setup, symbol, bars, bench, i) {
      var t := TradeOn(setup, symbol, bars, bench, i);
      assert t in trades;
      if k < i + Step(t) {
        assert TakenFrom(setup, symbol, bars, bench, trades, i, k);
      } else {
        EverySignalIsTaken(setup, symbol, bars, bench, i + Step(t), k);
        var later := Walk(setup, symbol, bars, bench, i + Step(t)).value;
        var e: nat :| i + Step(t) <= e && TakenFrom(setup, symbol, bars, bench, later, e, k);
        assert TakenFrom(setup, symbol, bars, bench, trades, e, k);
      }
    } else {
      EverySignalIsTaken(setup, symbol, bars, bench, i + 1, k);
    }
  }

  /** And nothing else is traded: every trade was opened by a firing bar. */
  lemma {:induction false} OnlySignalsAreTaken(
    setup: Setup, symbol: string, bars: seq<Bar>, bench: seq<Bar>, i: nat, n: nat)
    requires Walk(setup, symbol, bars, bench, i).Some? && n < |Walk(setup, symbol, bars, bench, i).value|
    ensures exists e: nat ::
      && i <= e && e + 1 < |bars| && FiresAt(setup, symbol, bars, bench, e)
      && TradeOn(setup, symbol, bars, bench, e) == Walk(setup, symbol, bars, bench, i).value[n]
    decreases |bars| - i
  {
    hide ContextAt, TradeAt, Walk;
    if i + 1 >= |bars| {
      WalkEnd(setup, symbol, bars, bench, i);
    } else {
      WalkUnfold(setup, symbol, bars, bench, i);
      if !FiresAt(setup, symbol, bars, bench, i) {
        OnlySignalsAreTaken(setup, symbol, bars, bench, i + 1, n);
      } else if n > 0 {
        OnlySignalsAreTaken(setup, symbol, bars, bench, i + Step(TradeOn(setup, symbol, bars, bench, i)), n - 1);
      }
    }
  }

  /** Every one of the trades was opened by a firing bar past both warm-ups. */
  ghost predicate AllFromSignals(setup: Setup, symbol: string, bars: seq<Bar>, bench: seq<Bar>, trades: seq<Trade>) {
    forall t :: t in trades ==> exists e: nat ::
      && setup.warmupBars <= e && setup.requiredHistory <= e && e + 1 < |bars|
      && FiresAt(setup, symbol, bars, bench, e) && TradeOn(setup, symbol, bars, bench, e) == t
  }

  /** And every firing bar past both warm-ups but the last bar is one of the trades or lies within one. */
  ghost predicate AllSignalsTaken(setup: Setup, symbol: string, bars: seq<Bar>, bench: seq<Bar>, trades: seq<Trade>) {
    forall k: nat ::
      && setup.warmupBars <= k && setup.requiredHistory <= k && k + 1 < |bars|
      && FiresAt(setup, symbol, bars, bench, k) ==>
      exists e: nat :: TakenFrom(setup, symbol, bars, bench, trades, e, k)
  }

  /** The trades of a symbol are exactly its signals, one position at a time. */
  lemma SymbolTradesAreTheSignals(setup: Setup, symbol: string, bars: seq<Bar>, bench: seq<Bar>)
    requires SymbolTrades(setup, symbol, bars, bench).Some?
    ensures AllFromSignals(setup, symbol, bars, bench, SymbolTrades(setup, symbol, bars, bench).value)
    ensures AllSignalsTaken(setup, symbol, bars, bench, SymbolTrades(setup, symbol, bars, bench).value)
  {
    hide Walk, FiresAt, TradeOn, TakenFrom;
    var trades, i := SymbolTrades(setup, symbol, bars, bench).value, setup.Warmup();
    if |bars| > i + 1 {
      forall t | t in trades ensures exists e: nat ::
          && setup.warmupBars <= e && setup.requiredHistory <= e && e + 1 < |bars|
          && FiresAt(setup, symbol, bars, bench, e) && TradeOn(setup, symbol, bars, bench, e) == t
      {
        var n: nat :| n < |trades| && trades[n] == t;
        OnlySignalsAreTaken(setup, symbol, bars, bench, i, n);
      }
      forall k: nat | i <= k && k + 1 < |bars| && FiresAt(setup, symbol, bars, bench, k)
        ensures exists e: nat :: TakenFrom(setup, symbol, bars, bench, trades, e, k)
      {
        EverySignalIsTaken(setup, symbol, bars, bench, i, k);
      }
    }
  }

  // ----- When a run completes -----

  /** Evaluating bar `k` raises an error: the window is empty, or the relative strength divides by a zero close or
      indexes past the end of the benchmark. */
  predicate Offends(setup: Setup, bars: seq<Bar>, bench: seq<Bar>, k: nat)
    requires k < |bars|
  {
    setup.Warmup() == 0 ||
    (var back := setup.rsLookback;
     && bench != [] && back <= k && back < setup.Warmup()
     && (bars[k - back].close == 0.0 || k >= |bench| || bench[k - back].close == 0.0))
  }

  lemma ContextRaisesIff(setup: Setup, symbol: string, bars: seq<Bar>, bench: seq<Bar>, k: nat)
    requires k < |bars|
    ensures ContextAt(setup, symbol, bars, bench, k).None? <==> Offends(setup, bars, bench, k)
  {
    hide RollingBundle, TrendOf, Return;
    var w, back := WindowAt(bars, k, setup.Warmup()), setup.rsLookback;
    assert |w| == if k + 1 < setup.Warmup() then k + 1 else setup.Warmup();
    if back < |w| {
      assert w[|w| - 1 - back] == bars[k - back];
    }
  }

  /** The bars from `i` on that a walk may evaluate raise no error. */
  predicate Harmless(setup: Setup, bars: seq<Bar>, bench: seq<Bar>, i: nat) {
    forall k: nat :: i <= k && k + 1 < |bars| ==> !Offends(setup, bars, bench, k)
  }

  /** Then the walk completes, whatever the strategy. */
  lemma {:induction false} WalkCompletes(setup: Setup, symbol: string, bars: seq<Bar>, bench: seq<Bar>, i: nat)
    requires Harmless(setup, bars, bench, i)
    ensures Walk(setup, symbol, bars, bench, i).Some?
    decreases |bars| - i
  {
    hide ContextAt, TradeAt, Walk, Offends;
    if i + 1 >= |bars| {
      WalkEnd(setup, symbol, bars, bench, i);
    } else {
      ContextRaisesIff(setup, symbol, bars, bench, i);
      WalkUnfold(setup, symbol, bars, bench, i);
      var signal := setup.evaluate(ContextAt(setup, symbol, bars, bench, i).value);
      if Fires(signal) {
        WalkCompletes(setup, symbol, bars, bench, i + Step(TradeAt(setup, bars, i, signal.value)));
      } else {
        WalkCompletes(setup, symbol, bars, bench, i + 1);
      }
    }
  }

  /** A walk that evaluates such a bar ends in an error, whatever the strategy. */
  lemma OffendingBarRaises(setup: Setup, symbol: string, bars: seq<Bar>, bench: seq<Bar>, i: nat)
    requires i + 1 < |bars| && Offends(setup, bars, bench, i)
    ensures Walk(setup, symbol, bars, bench, i) == None
  {
    hide ContextAt, Walk, Offends;
    ContextRaisesIff(setup, symbol, bars, bench, i);
    WalkUnfold(setup, symbol, bars, bench, i);
  }

  /** A strategy that never trades, so that every bar is evaluated. */
  function Idle(ctx: Context): Option<Signal> { None }

  lemma {:induction false} IdleWalkRaises(setup: Setup, symbol: string, bars: seq<Bar>, bench: seq<Bar>, i: nat, k: nat)
    requires i <= k && k + 1 < |bars| && Offends(setup, bars, bench, k) && setup.evaluate == Idle
    ensures Walk(setup, symbol, bars, bench, i) == None
    decreases k - i
  {
    hide ContextAt, Walk, Offends;
    if Offends(setup, bars, bench, i) {
      OffendingBarRaises(setup, symbol, bars, bench, i);
    } else {
      WalkUnfold(setup, symbol, bars, bench, i);
      IdleWalkRaises(setup, symbol, bars, bench, i + 1, k);
    }
  }

  /** Exactly when a walk completes for every strategy: a condition on the bars, the benchmark and the configuration. */
  lemma WalkCompletesIff(setup: Setup, symbol: string, bars: seq<Bar>, bench: seq<Bar>, i: nat)
    ensures (forall e: Strategy :: Walk(setup.(evaluate := e), symbol, bars, bench, i).Some?) <==>
      Harmless(setup, bars, bench, i)
  {
    hide Walk, Offends;
    if Harmless(setup, bars, bench, i) {
      forall e: Strategy ensures Walk(setup.(evaluate := e), symbol, bars, bench, i).Some? {
        OffendsAlike(setup, setup.(evaluate := e), bars, bench, i);
        WalkCompletes(setup.(evaluate := e), symbol, bars, bench, i);
      }
    } else {
      OffendsAlike(setup, setup.(evaluate := Idle), bars, bench, i);
      var k: nat :| i <= k && k + 1 < |bars| && Offends(setup.(evaluate := Idle), bars, bench, k);
      IdleWalkRaises(setup.(evaluate := Idle), symbol, bars, bench, i, k);
    }
  }

  lemma OffendsAlike(a: Setup, b: Setup, bars: seq<Bar>, bench: seq<Bar>, i: nat)
    requires b == a.(evaluate := b.evaluate)
    ensures Harmless(a, bars, bench, i) <==> Harmless(b, bars, bench, i)
  {
    assert forall k: nat :: k < |bars| ==> Offends(a, bars, bench, k) == Offends(b, bars, bench, k);
  }

  /** No symbol with enough history has a bar that raises an error. */
  predicate AllHarmless(setup: Setup, series: Series, bench: seq<Bar>) {
    forall n :: 0 <= n < |series| && |series[n].1| > setup.Warmup() + 1 ==>
      Harmless(setup, series[n].1, bench, setup.Warmup())
  }

  /** Exactly when a whole run completes for every strategy. */
  lemma RunCompletesIff(setup: Setup, series: Series, bench: seq<Bar>)
    ensures (forall e: Strategy :: AllTrades(setup.(evaluate := e), series, bench).Some?) <==>
      AllHarmless(setup, series, bench)
  {
    hide AllTrades, Harmless;
    if AllHarmless(setup, series, bench) {
      forall e: Strategy ensures AllTrades(setup.(evaluate := e), series, bench).Some? {
        AllComplete(setup, setup.(evaluate := e), series, bench);
      }
    } else {
      var idle := setup.(evaluate := Idle);
      var n: nat :| n < |series| && |series[n].1| > setup.Warmup() + 1 &&
                    !Harmless(setup, series[n].1, bench, setup.Warmup());
      IdleRaises(setup, series[n].0, series[n].1, bench);
      SymbolEndsRun(idle, series, bench, n);
    }
  }

  lemma {:induction false} AllComplete(a: Setup, b: Setup, series: Series, bench: seq<Bar>)
    requires AllHarmless(a, series, bench) && b == a.(evaluate := b.evaluate)
    ensures AllTrades(b, series, bench).Some?
  {
    hide Harmless, Walk;
    if series != [] {
      var past := Init(series);
      var (symbol, bars) := Last(series);
      assert series[|series| - 1] == Last(series) && forall n :: 0 <= n < |past| ==> past[n] == series[n];
      AllComplete(a, b, past, bench);
      if |bars| > a.Warmup() + 1 {
        OffendsAlike(a, b, bars, bench, a.Warmup());
        WalkCompletes(b, symbol, bars, bench, a.Warmup());
      }
    }
  }

  lemma IdleRaises(setup: Setup, symbol: string, bars: seq<Bar>, bench: seq<Bar>)
    requires |bars| > setup.Warmup() + 1 && !Harmless(setup, bars, bench, setup.Warmup())
    ensures SymbolTrades(setup.(evaluate := Idle), symbol, bars, bench) == None
  {
    hide Walk, Offends;
    var idle := setup.(evaluate := Idle);
    OffendsAlike(setup, idle, bars, bench, setup.Warmup());
    var k: nat :| setup.Warmup() <= k && k + 1 < |bars| && Offends(idle, bars, bench, k);
    IdleWalkRaises(idle, symbol, bars, bench, setup.Warmup(), k);
  }

  /** A symbol that raises an error ends the run. */
  lemma SymbolEndsRun(setup: Setup, series: Series, bench: seq<Bar>, n: nat)
    requires n < |series| && SymbolTrades(setup, series[n].0, series[n].1, bench) == None
    ensures AllTrades(setup, series, bench) == None
  {
    hide SymbolTrades;
    assert Last(series[..n + 1]) == series[n];
    ErrorEndsRun(setup, series, bench, n + 1);
  }

  /** Three bars against a benchmark of one: with a warm-up of one bar the run of any strategy ends in an error at the
      second bar. */
  lemma ShortBenchmarkEndsRun(setup: Setup, b: Bar)
    requires setup.Warmup() == 1 && setup.rsLookback == 0
    ensures AllTrades(setup, [("X", [b, b, b])], [b]) == None
  {
    hide ContextAt, Walk, AllTrades;
    var bars := [b, b, b];
    OffendingBarRaises(setup, "X", bars, [b], 1);
    SymbolEndsRun(setup, [("X", bars)], [b], 0);
  }

  // ----- No look-ahead, and stability when bars are appended -----

  /** Two histories, either of which may be shorter, agree up to and including position `i`. */
  predicate AgreeUpTo<T(==)>(a: seq<T>, b: seq<T>, i: nat) { Take(a, i + 1) == Take(b, i + 1) }

  /** The context at bar `i` depends on nothing after bar `i`, in the symbol or in the benchmark. */
  lemma ContextIsCausal(setup: Setup, symbol: string, a: seq<Bar>, b: seq<Bar>,
      benchA: seq<Bar>, benchB: seq<Bar>, i: nat)
    requires i < |a| && i < |b| && AgreeUpTo(a, b, i) && AgreeUpTo(benchA, benchB, i)
    ensures ContextAt(setup, symbol, a, benchA, i) == ContextAt(setup, symbol, b, benchB, i)
  {
    var cap, back := setup.Warmup(), setup.rsLookback;
    WindowIsCausal(a, b, i, cap);
    var w, closesA, closesB := WindowAt(a, i, cap), Closes(benchA), Closes(benchB);
    StrengthIsCausal(w, benchA, benchB, i, back);
    var trend := if i < |benchA| then Some(BundleAt(setup, benchA, i)) else None;
    MadeAlike(symbol, setup.timeframe, w, BundleAt(setup, a, i), closesA, closesB, trend, i, back);
    hide RollingBundle, RelativeStrength, WindowAt, Closes, MakeContext;
    assert BundleAt(setup, a, i) == BundleAt(setup, b, i);
    assert i < |benchA| <==> i < |benchB|;
    assert i < |benchA| ==> BundleAt(setup, benchA, i) == BundleAt(setup, benchB, i);
  }

  lemma MadeAlike(symbol: string, timeframe: string, window: seq<Bar>, indicators: Bundle, closesA: seq<real>,
      closesB: seq<real>, benchBundle: Option<Bundle>, idx: nat, lookback: nat)
    requires RelativeStrength(window, closesA, idx, lookback) == RelativeStrength(window, closesB, idx, lookback)
    ensures MakeContext(symbol, timeframe, window, indicators, closesA, benchBundle, idx, lookback) ==
      MakeContext(symbol, timeframe, window, indicators, closesB, benchBundle, idx, lookback)
  {
    hide RelativeStrength, TrendOf;
  }

  lemma WindowIsCausal(a: seq<Bar>, b: seq<Bar>, i: nat, cap: nat)
    requires i < |a| && i < |b| && AgreeUpTo(a, b, i)
    ensures WindowAt(a, i, cap) == WindowAt(b, i, cap)
  {
    var from := if i + 1 >= cap then i + 1 - cap else 0;
    assert a[from..i + 1] == a[..i + 1][from..] && b[from..i + 1] == b[..i + 1][from..];
  }

  lemma StrengthIsCausal(window: seq<Bar>, benchA: seq<Bar>, benchB: seq<Bar>, idx: nat, lookback: nat)
    requires AgreeUpTo(benchA, benchB, idx)
    ensures RelativeStrength(window, Closes(benchA), idx, lookback) ==
      RelativeStrength(window, Closes(benchB), idx, lookback)
  {
    hide Return;
    var ta, tb := Take(benchA, idx + 1), Take(benchB, idx + 1);
    assert Closes(benchA) == [] <==> Closes(benchB) == [];
    if idx < |benchA| {
      assert benchA[idx] == ta[idx] && benchB[idx] == tb[idx];
      assert idx >= lookback ==>
        benchA[idx - lookback] == ta[idx - lookback] && benchB[idx - lookback] == tb[idx - lookback];
    }
  }

  /** The trades on the longer series extend those on the shorter one, except for a last cut-off timeout. */
  ghost predicate Extends(ta: seq<Trade>, tb: seq<Trade>, lastTs: int, maxHolding: nat) {
    ta <= tb ||
    (var n := |ta| - 1;
     && n >= 0 && n < |tb| && ta[..n] == tb[..n]
     && ta[n].outcome == TIMEOUT && ta[n].exitTs == lastTs && ta[n].holdingBars < maxHolding
     && ta[n] ==
       tb[n].(exitTs := ta[n].exitTs, exit := ta[n].exit, holdingBars := ta[n].holdingBars, outcome := TIMEOUT)
     && ta[n].holdingBars <= tb[n].holdingBars)
  }

  /** If the longer run completes so does the shorter one, and its trades are extended. */
  ghost predicate ExtendsRun(ta: Option<seq<Trade>>, tb: Option<seq<Trade>>, lastTs: int, maxHolding: nat) {
    tb.Some? ==> ta.Some? && Extends(ta.value, tb.value, lastTs, maxHolding)
  }

  lemma ExtendsCons(t: Trade, ta: Option<seq<Trade>>, tb: Option<seq<Trade>>, lastTs: int, maxHolding: nat)
    requires ExtendsRun(ta, tb, lastTs, maxHolding)
    ensures ExtendsRun(Prepend([t], ta), Prepend([t], tb), lastTs, maxHolding)
  {
    if tb.Some? && !(ta.value <= tb.value) {
      var n := |ta.value| - 1;
      assert ([t] + ta.value)[..n + 1] == [t] + ta.value[..n];
      assert ([t] + tb.value)[..n + 1] == [t] + tb.value[..n];
    }
  }

  lemma {:induction false} WalkExtends(
    setup: Setup, symbol: string, a: seq<Bar>, b: seq<Bar>, benchA: seq<Bar>, benchB: seq<Bar>, i: nat)
    requires 0 < |a| && a <= b && AgreeUpTo(benchA, benchB, |a| - 1)
    ensures ExtendsRun(Walk(setup, symbol, a, benchA, i), Walk(setup, symbol, b, benchB, i), a[|a| - 1].ts,
      setup.maxHolding)
    decreases |a| - i
  {
    hide ContextAt, Simulated, Walk, ExtendsRun;
    if i + 1 >= |a| {
      WalkEnd(setup, symbol, a, benchA, i);
      ExtendsEmpty(Walk(setup, symbol, b, benchB, i), a[|a| - 1].ts, setup.maxHolding);
    } else {
      EarlierAgree(a, b, benchA, benchB, i);
      ContextIsCausal(setup, symbol, a, b, benchA, benchB, i);
      WalkUnfold(setup, symbol, a, benchA, i);
      WalkUnfold(setup, symbol, b, benchB, i);
      var ctx := ContextAt(setup, symbol, a, benchA, i);
      if ctx.None? {
        ExtendsNone(Walk(setup, symbol, a, benchA, i), a[|a| - 1].ts, setup.maxHolding);
      } else if Fires(setup.evaluate(ctx.value)) {
        TradeExtends(setup, symbol, a, b, benchA, benchB, i, setup.evaluate(ctx.value).value);
      } else {
        WalkExtends(setup, symbol, a, b, benchA, benchB, i + 1);
      }
    }
  }

  lemma EarlierAgree(a: seq<Bar>, b: seq<Bar>, benchA: seq<Bar>, benchB: seq<Bar>, i: nat)
    requires i < |a| && a <= b && AgreeUpTo(benchA, benchB, |a| - 1)
    ensures AgreeUpTo(a, b, i) && AgreeUpTo(benchA, benchB, i)
  {
    assert Take(benchA, i + 1) == Take(Take(benchA, |a|), i + 1);
    assert Take(benchB, i + 1) == Take(Take(benchB, |a|), i + 1);
  }

  lemma ExtendsEmpty(tb: Option<seq<Trade>>, lastTs: int, maxHolding: nat)
    ensures ExtendsRun(Some([]), tb, lastTs, maxHolding)
  {}

  lemma ExtendsNone(ta: Option<seq<Trade>>, lastTs: int, maxHolding: nat)
    ensures ExtendsRun(ta, None, lastTs, maxHolding)
  {}

  lemma {:induction false} TradeExtends(
    setup: Setup, symbol: string, a: seq<Bar>, b: seq<Bar>, benchA: seq<Bar>, benchB: seq<Bar>, i: nat, s: Signal)
    requires i + 1 < |a| && a <= b && AgreeUpTo(benchA, benchB, |a| - 1)
    ensures var t, u := TradeAt(setup, a, i, s), TradeAt(setup, b, i, s);
      ExtendsRun(Prepend([t], Walk(setup, symbol, a, benchA, i + Step(t))),
                 Prepend([u], Walk(setup, symbol, b, benchB, i + Step(u))), a[|a| - 1].ts, setup.maxHolding)
    decreases |a| - i, 0
  {
    hide Walk, HorizonAt, Simulated, AgreeUpTo;
    var m, lastTs := setup.maxHolding, a[|a| - 1].ts;
    var ha, hb := HorizonAt(a, i, m), HorizonAt(b, i, m);
    var t, u := TradeAt(setup, a, i, s), TradeAt(setup, b, i, s);
    HorizonGrows(a, b, i, m);
    if t == u {
      hide ExtendsRun;
      WalkExtends(setup, symbol, a, b, benchA, benchB, i + Step(t));
      ExtendsCons(t, Walk(setup, symbol, a, benchA, i + Step(t)), Walk(setup, symbol, b, benchB, i + Step(t)),
        lastTs, m);
    } else {
      SimulatedOnLongerHorizon(s, a[i], ha, hb);
      SameEntry(s, a[i], ha, hb);
      WalkEnd(setup, symbol, a, benchA, i + Step(t));
      assert [t] + [] == [t];
    }
  }

  lemma HorizonGrows(a: seq<Bar>, b: seq<Bar>, i: nat, m: nat)
    requires i + 1 < |a| && a <= b
    ensures HorizonAt(a, i, m) <= HorizonAt(b, i, m) && a[i] == b[i]
    ensures |HorizonAt(a, i, m)| == m || (|HorizonAt(a, i, m)| < m && |HorizonAt(a, i, m)| == |a| - 1 - i)
    ensures |HorizonAt(a, i, m)| == m ==> HorizonAt(a, i, m) == HorizonAt(b, i, m)
    ensures |HorizonAt(a, i, m)| < m ==> HorizonAt(a, i, m)[|HorizonAt(a, i, m)| - 1] == a[|a| - 1]
  {}

  /** When a cut horizon changes a trade, only its exit changes, and the full trade lasts at least as long. */
  lemma SameEntry(s: Signal, entryBar: Bar, short: seq<Bar>, long: seq<Bar>)
    requires short <= long && Simulated(s, entryBar, short) != Simulated(s, entryBar, long)
    ensures var t, u := Simulated(s, entryBar, short), Simulated(s, entryBar, long);
      && u.(exitTs := t.exitTs, exit := t.exit, holdingBars := t.holdingBars, outcome := t.outcome) == t
      && t.holdingBars <= u.holdingBars
  {
    var k := FirstTouch(s, short);
    if k < |short| {
      FirstTouchUnique(s, long, k);
    }
  }

  /**
   * Appending bars never rewrites earlier trades: the trades on the shorter history are a prefix of
   * those on the longer one, except possibly its last, and then only if that one was a TIMEOUT closed
   * on the very last bar before its holding limit; the same entry is then merely held longer. If the
   * run on the longer history completes, so does the run on the shorter one.
   */
  lemma ExtensionStability(setup: Setup, symbol: string, a: seq<Bar>, b: seq<Bar>, benchA: seq<Bar>, benchB: seq<Bar>)
    requires 0 < |a| && a <= b && AgreeUpTo(benchA, benchB, |a| - 1)
    ensures ExtendsRun(SymbolTrades(setup, symbol, a, benchA), SymbolTrades(setup, symbol, b, benchB),
                       a[|a| - 1].ts, setup.maxHolding)
  {
    hide Walk;
    if |a| > setup.Warmup() + 1 {
      WalkExtends(setup, symbol, a, b, benchA, benchB, setup.Warmup());
    }
  }

  // ----- One position at a time -----

  predicate SortedByTime(bars: seq<Bar>) {
    forall i, j :: 0 <= i < j < |bars| ==> bars[i].ts <= bars[j].ts
  }

  predicate NoOverlap(trades: seq<Trade>) {
    && (forall i :: 0 <= i < |trades| ==> trades[i].entryTs <= trades[i].exitTs)
    && (forall i, j :: 0 <= i < j < |trades| ==> trades[i].exitTs <= trades[j].entryTs)
  }

  /** On bars in time order, no trade enters before the previous one has exited. */
  lemma {:induction false} TradesDoNotOverlap(setup: Setup, symbol: string, bars: seq<Bar>, bench: seq<Bar>, i: nat)
    requires SortedByTime(bars) && Walk(setup, symbol, bars, bench, i).Some?
    ensures var trades := Walk(setup, symbol, bars, bench, i).value;
      NoOverlap(trades) && forall k :: 0 <= k < |trades| ==> i < |bars| && bars[i].ts <= trades[k].entryTs
    decreases |bars| - i
  {
    hide ContextAt, Walk, TradeAt;
    if i + 1 >= |bars| {
      WalkEnd(setup, symbol, bars, bench, i);
    } else {
      WalkUnfold(setup, symbol, bars, bench, i);
      var signal := setup.evaluate(ContextAt(setup, symbol, bars, bench, i).value);
      if Fires(signal) {
        ExitWithinHolding(setup, signal.value, bars, i);
        TradesDoNotOverlap(setup, symbol, bars, bench, i + Step(TradeAt(setup, bars, i, signal.value)));
      } else {
        TradesDoNotOverlap(setup, symbol, bars, bench, i + 1);
      }
    }
  }

  lemma ExitWithinHolding(setup: Setup, s: Signal, bars: seq<Bar>, i: nat)
    requires i + 1 < |bars|
    ensures var t := TradeAt(setup, bars, i, s);
      t.entryTs == bars[i].ts && i + t.holdingBars < |bars| && t.exitTs == bars[i + t.holdingBars].ts
  {}

  // ----- Bounded results over a run -----

  function RMultiples(trades: seq<Trade>): (r: seq<real>)
    ensures |r| == |trades| && forall i :: 0 <= i < |trades| ==> r[i] == RMultiple(trades[i])
  {
    seq(|trades|, i requires 0 <= i < |trades| => RMultiple(trades[i]))
  }

  ghost predicate SoundStrategy(setup: Setup) {
    forall ctx :: Fires(setup.evaluate(ctx)) ==> WellFormed(setup.evaluate(ctx).value)
  }

  predicate AllConsistent(bars: seq<Bar>) { forall j :: 0 <= j < |bars| ==> Consistent(bars[j]) }

  /** No trade loses more than one unit of risk or gains more than its own reward-to-risk ratio. */
  predicate AllBounded(trades: seq<Trade>) {
    forall k :: 0 <= k < |trades| ==> -1.0 <= RMultiple(trades[k]) <= TradeRiskReward(trades[k])
  }

  lemma {:induction false} WalkBounded(setup: Setup, symbol: string, bars: seq<Bar>, bench: seq<Bar>, i: nat)
    requires SoundStrategy(setup) && AllConsistent(bars) && Walk(setup, symbol, bars, bench, i).Some?
    ensures AllBounded(Walk(setup, symbol, bars, bench, i).value)
    decreases |bars| - i
  {
    hide ContextAt, Walk, Simulated, RMultiple, TradeRiskReward;
    if i + 1 >= |bars| {
      WalkEnd(setup, symbol, bars, bench, i);
    } else {
      WalkUnfold(setup, symbol, bars, bench, i);
      var signal := setup.evaluate(ContextAt(setup, symbol, bars, bench, i).value);
      if Fires(signal) {
        RMultipleBounds(signal.value, bars[i], HorizonAt(bars, i, setup.maxHolding));
        WalkBounded(setup, symbol, bars, bench, i + Step(TradeAt(setup, bars, i, signal.value)));
      } else {
        WalkBounded(setup, symbol, bars, bench, i + 1);
      }
    }
  }

  /** Over a whole backtest of a strategy with well-formed signals every R-multiple is within these bounds. */
  lemma {:induction false} AllTradesBounded(setup: Setup, series: Series, bench: seq<Bar>)
    requires SoundStrategy(setup) && AllTrades(setup, series, bench).Some?
    requires forall k :: 0 <= k < |series| ==> AllConsistent(series[k].1)
    ensures AllBounded(AllTrades(setup, series, bench).value)
  {
    hide RMultiple, TradeRiskReward, Walk, SoundStrategy, AllConsistent;
    if series != [] {
      assert Last(series) == series[|series| - 1];
      assert forall k :: 0 <= k < |Init(series)| ==> Init(series)[k] == series[k];
      AllTradesBounded(setup, Init(series), bench);
      if |Last(series).1| > setup.Warmup() + 1 {
        WalkBounded(setup, Last(series).0, Last(series).1, bench, setup.Warmup());
      }
    }
  }
}
