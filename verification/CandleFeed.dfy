/**
 * From quotes to candles: the per-symbol, per-timeframe aggregators (`CandleBuilder` of `candle_builder.py`)
 * and the conversion of cumulative to incremental volume in front of them (`_handle_quote` of `feed/service.py`).
 */
module CandleFeed {

  import opened Common
  import opened Timeframes
  import opened Candles
  import opened CandleProperties

  type Key = (string, Timeframe)

  const MAX_GAP_FILL := 500

  // ----- What one quote does, as a function on the accepted ticks -----

  function SessionOf(sessions: map<Key, seq<Tick>>, key: Key): seq<Tick> {
    if key in sessions then sessions[key] else []
  }

  /** A quote visits the timeframes in order and stops at the first one that raises. */
  function Spread(sessions: map<Key, seq<Tick>>, symbol: string, tfs: seq<Timeframe>, t: Tick)
    : (map<Key, seq<Tick>>, bool)
  {
    if tfs == [] then (sessions, true)
    else
      var (before, ok) := Spread(sessions, symbol, Init(tfs), t);
      var key := (symbol, Last(tfs));
      if !ok then (before, false)
      else (before[key := Accept(SessionOf(before, key), t, Last(tfs))], !Refused(SessionOf(before, key), t, Last(tfs)))
  }

  class CandleBuilder {
    const timeframes: seq<Timeframe>
    var aggregators: map<Key, TimeframeAggregator>

    ghost predicate Valid()
      reads this, aggregators.Values
    {
      && (forall k :: k in aggregators ==>
        aggregators[k].Valid() && aggregators[k].timeframe == k.1 && aggregators[k].maxGapFill == MAX_GAP_FILL)
      && (forall j, k :: j in aggregators && k in aggregators && j != k ==> aggregators[j] != aggregators[k])
    }

    ghost function Sessions(): map<Key, seq<Tick>>
      reads this, aggregators.Values
    {
      map k | k in aggregators :: aggregators[k].session
    }

    constructor (timeframes: seq<Timeframe>)
      ensures Valid() && this.timeframes == timeframes && aggregators == map[]
    {
      this.timeframes, aggregators := timeframes, map[];
    }

    method AddQuote(symbol: string, price: real, volume: int, ts: nat) returns (ok: bool)
      requires Valid()
      modifies this, aggregators.Values
      ensures Valid() && (Sessions(), ok) == Spread(old(Sessions()), symbol, timeframes, Tick(price, volume, ts))
      ensures forall k :: k in aggregators ==> aggregators[k] in old(aggregators.Values) || fresh(aggregators[k])
    {
      hide TimeframeAggregator.Valid, Refused;
      ghost var t, first := Tick(price, volume, ts), Sessions();
      ok := true;
      assert timeframes[..0] == [];
      for i := 0 to |timeframes|
        invariant Valid() && ok
        invariant forall k :: k in aggregators ==> aggregators[k] in old(aggregators.Values) || fresh(aggregators[k])
        invariant (Sessions(), true) == Spread(first, symbol, timeframes[..i], t)
      {
        var tf := timeframes[i];
        assert Init(timeframes[..i + 1]) == timeframes[..i] && Last(timeframes[..i + 1]) == tf;
        ghost var before := Sessions();
        ok := AddTo((symbol, tf), price, volume, ts);
        if !ok {
          StaysRefused(first, symbol, timeframes, i + 1, t);
          return;
        }
      }
      assert timeframes[..|timeframes|] == timeframes;
    }

    method AddTo(key: Key, price: real, volume: int, ts: nat) returns (ok: bool)
      requires Valid()
      modifies this, aggregators.Values
      ensures Valid()
      ensures forall k :: k in aggregators ==> aggregators[k] in old(aggregators.Values) || fresh(aggregators[k])
      ensures ok <==> !Refused(SessionOf(old(Sessions()), key), Tick(price, volume, ts), key.1)
      ensures Sessions() ==
        old(Sessions())[key := Accept(SessionOf(old(Sessions()), key), Tick(price, volume, ts), key.1)]
    {
      hide TimeframeAggregator.Valid, Refused;
      ghost var before := Sessions();
      if key !in aggregators {
        var created := new TimeframeAggregator(key.1, MAX_GAP_FILL);
        aggregators := aggregators[key := created];
      }
      var agg := aggregators[key];
      assert agg.session == SessionOf(before, key);
      ok := agg.Add(price, volume, ts);
    }
  }

  lemma {:induction false} StaysRefused(sessions: map<Key, seq<Tick>>, symbol: string, tfs: seq<Timeframe>,
      n: nat, t: Tick)
    requires n <= |tfs| && !Spread(sessions, symbol, tfs[..n], t).1
    ensures Spread(sessions, symbol, tfs, t) == Spread(sessions, symbol, tfs[..n], t)
  {
    if n == |tfs| {
      assert tfs[..n] == tfs;
    } else {
      assert Init(tfs)[..n] == tfs[..n];
      StaysRefused(sessions, symbol, Init(tfs), n, t);
    }
  }

  /** A first timeframe stuck on a bar it cannot close shuts out the symbol's other timeframes: a quote in another
      bar raises there and no aggregator sees it. */
  lemma {:induction false} StuckTimeframeShutsOutTheRest(sessions: map<Key, seq<Tick>>, symbol: string,
      tfs: seq<Timeframe>, t: Tick)
    requires tfs != [] && (symbol, tfs[0]) in sessions
    requires Refused(sessions[(symbol, tfs[0])], t, tfs[0])
    ensures Spread(sessions, symbol, tfs, t) == (sessions, false)
  {
    hide Refused;
    if |tfs| == 1 {
      assert Init(tfs) == [];
      var key := (symbol, tfs[0]);
      assert sessions[key := sessions[key]] == sessions;
    } else {
      StuckTimeframeShutsOutTheRest(sessions, symbol, Init(tfs), t);
    }
  }

  /** When no timeframe refuses it, a quote is added to each of the symbol's timeframes once, and nothing else
      changes. */
  lemma {:induction false} QuoteReachesEveryTimeframe(
    sessions: map<Key, seq<Tick>>, symbol: string, tfs: seq<Timeframe>, t: Tick, key: Key)
    requires forall i, j :: 0 <= i < j < |tfs| ==> tfs[i] != tfs[j]
    requires Spread(sessions, symbol, tfs, t).1
    ensures SessionOf(Spread(sessions, symbol, tfs, t).0, key) ==
      if key.0 == symbol && key.1 in tfs then SessionOf(sessions, key) + [t] else SessionOf(sessions, key)
  {
    hide Refused;
    if tfs != [] {
      assert tfs == Init(tfs) + [Last(tfs)];
      QuoteReachesEveryTimeframe(sessions, symbol, Init(tfs), t, key);
    }
  }

  // ----- Volume -----

  /** The volume of a quote: what the cumulative count gained since the last quote, never negative; a first quote adds
      none. */
  function Increment(last: Option<int>, cumulative: int): int {
    if last == None || cumulative < last.value then 0 else cumulative - last.value
  }

  function Lookup(counts: map<string, int>, symbol: string): Option<int> {
    if symbol in counts then Some(counts[symbol]) else None
  }

  datatype Quote = Quote(symbol: string, price: real, cumulative: int, ts: nat)

  /** `isOpen` is the exchange calendar: whether the market is open at an instant. */
  datatype FeedConfig = FeedConfig(
    symbols: set<string>, enforceSession: bool, isOpen: nat -> bool, timeframes: seq<Timeframe>)

  /** The last cumulative count of each symbol, and the ticks each aggregator has accepted. */
  datatype FeedState = FeedState(counts: map<string, int>, sessions: map<Key, seq<Tick>>)

  /** Quotes that go into candles: of a known symbol and, if sessions are enforced, while the market is open. */
  predicate Builds(q: Quote, c: FeedConfig) { q.symbol in c.symbols && (!c.enforceSession || c.isOpen(q.ts)) }

  function TickOf(s: FeedState, q: Quote): Tick {
    Tick(q.price, Increment(Lookup(s.counts, q.symbol), q.cumulative), q.ts)
  }

  /** One quote: every known quote moves the count, a building one is offered to the symbol's timeframes. */
  function Handle(s: FeedState, q: Quote, c: FeedConfig): (FeedState, bool) {
    if q.symbol !in c.symbols then (s, true)
    else
      var counts := s.counts[q.symbol := q.cumulative];
      if !Builds(q, c) then (FeedState(counts, s.sessions), true)
      else
        var (sessions, ok) := Spread(s.sessions, q.symbol, c.timeframes, TickOf(s, q));
        (FeedState(counts, sessions), ok)
  }

  class QuoteHandler {
    const symbols: set<string>
    const enforceSession: bool
    const isOpen: nat -> bool
    const builder: CandleBuilder
    var lastVolume: map<string, int>

    ghost predicate Valid()
      reads this, builder, builder.aggregators.Values
    {
      builder.Valid()
    }

    ghost function Config(): FeedConfig { FeedConfig(symbols, enforceSession, isOpen, builder.timeframes) }

    ghost function View(): FeedState
      reads this, builder, builder.aggregators.Values
    {
      FeedState(lastVolume, builder.Sessions())
    }

    constructor (symbols: set<string>, enforceSession: bool, isOpen: nat -> bool, timeframes: seq<Timeframe>)
      ensures Valid() && View() == FeedState(map[], map[])
      ensures Config() == FeedConfig(symbols, enforceSession, isOpen, timeframes)
    {
      this.symbols, this.enforceSession, this.isOpen, lastVolume := symbols, enforceSession, isOpen, map[];
      builder := new CandleBuilder(timeframes);
    }

    /** An error raised by an aggregator leaves the count moved. */
    method HandleQuote(q: Quote) returns (ok: bool)
      requires Valid()
      modifies this, builder, builder.aggregators.Values
      ensures Valid() && (View(), ok) == Handle(old(View()), q, Config())
      ensures q.symbol !in symbols || (enforceSession && !isOpen(q.ts)) ==> ok
    {
      hide Spread, CandleBuilder.Valid, CandleBuilder.Sessions, Increment;
      ok := true;
      if q.symbol !in symbols {
        return;
      }
      var incr := CountVolume(q.symbol, q.cumulative);
      if !enforceSession || isOpen(q.ts) {
        ok := builder.AddQuote(q.symbol, q.price, incr, q.ts);
      }
    }

    method CountVolume(symbol: string, cumVol: int) returns (incr: int)
      modifies this
      ensures incr == Increment(Lookup(old(lastVolume), symbol), cumVol)
      ensures lastVolume == old(lastVolume)[symbol := cumVol]
    {
      var gained := cumVol - (if symbol in lastVolume then lastVolume[symbol] else cumVol);
      incr := if gained > 0 then gained else 0;
      lastVolume := lastVolume[symbol := cumVol];
    }
  }

  // ----- Runs of the feed -----

  /** The feed after interleaved quotes of any symbols. */
  function Feed(quotes: seq<Quote>, c: FeedConfig): FeedState {
    if quotes == [] then FeedState(map[], map[]) else Handle(Feed(Init(quotes), c), Last(quotes), c).0
  }

  /** The cumulative counts a symbol's quotes reported. */
  function Counts(quotes: seq<Quote>, symbol: string): seq<int> {
    if quotes == [] then []
    else Counts(Init(quotes), symbol) + (if Last(quotes).symbol == symbol then [Last(quotes).cumulative] else [])
  }

  function LastCount(counts: seq<int>): Option<int> { if counts == [] then None else Some(Last(counts)) }

  /** The volume a symbol's next quote adds to what its earlier quotes reported. */
  function Gain(quotes: seq<Quote>, q: Quote): int { Increment(LastCount(Counts(quotes, q.symbol)), q.cumulative) }

  /** The ticks made of a symbol's building quotes. */
  function Built(quotes: seq<Quote>, symbol: string, c: FeedConfig): seq<Tick> {
    if quotes == [] then []
    else
      var past, q := Init(quotes), Last(quotes);
      Built(past, symbol, c) + (if q.symbol == symbol && Builds(q, c) then [Tick(q.price, Gain(past, q), q.ts)] else [])
  }

  /** What a symbol's quotes gained, over those that build candles or over those that do not. */
  function Gained(quotes: seq<Quote>, symbol: string, c: FeedConfig, building: bool): int {
    if quotes == [] then 0
    else
      var past, q := Init(quotes), Last(quotes);
      Gained(past, symbol, c, building) + (if q.symbol == symbol && Builds(q, c) == building then Gain(past, q) else 0)
  }

  /** How far the counts fell back, in total. */
  function Fallbacks(counts: seq<int>): int {
    if |counts| <= 1 then 0
    else
      var before, now := Last(Init(counts)), Last(counts);
      Fallbacks(Init(counts)) + (if now < before then before - now else 0)
  }

  /** No quote of the symbol is refused by its first `n + 1` timeframes. */
  predicate Reaches(quotes: seq<Quote>, symbol: string, c: FeedConfig, n: nat)
    requires n < |c.timeframes|
  {
    quotes == [] ||
    (var past, q := Init(quotes), Last(quotes);
     && Reaches(past, symbol, c, n)
     && (q.symbol == symbol && Builds(q, c) ==>
         Spread(Feed(past, c).sessions, symbol, c.timeframes[..n + 1], TickOf(Feed(past, c), q)).1))
  }

  lemma {:induction false} CountIsLastCount(quotes: seq<Quote>, symbol: string, c: FeedConfig)
    requires symbol in c.symbols
    ensures Lookup(Feed(quotes, c).counts, symbol) == LastCount(Counts(quotes, symbol))
  {
    hide Spread, Increment;
    if quotes != [] {
      CountIsLastCount(Init(quotes), symbol, c);
    }
  }

  /** A timeframe that the quote reaches adds the tick, whatever the later ones do. */
  lemma {:induction false} SpreadReaches(
    sessions: map<Key, seq<Tick>>, symbol: string, tfs: seq<Timeframe>, t: Tick, n: nat)
    requires forall i, j :: 0 <= i < j < |tfs| ==> tfs[i] != tfs[j]
    requires n < |tfs| && Spread(sessions, symbol, tfs[..n + 1], t).1
    ensures SessionOf(Spread(sessions, symbol, tfs, t).0, (symbol, tfs[n])) ==
      SessionOf(sessions, (symbol, tfs[n])) + [t]
  {
    hide Refused;
    if n + 1 == |tfs| {
      assert tfs[..n + 1] == tfs;
      QuoteReachesEveryTimeframe(sessions, symbol, tfs, t, (symbol, tfs[n]));
    } else {
      assert Init(tfs)[..n + 1] == tfs[..n + 1];
      SpreadReaches(sessions, symbol, Init(tfs), t, n);
    }
  }

  /** Quotes of one symbol never touch another's aggregators. */
  lemma {:induction false} SpreadKeepsOthers(
    sessions: map<Key, seq<Tick>>, symbol: string, tfs: seq<Timeframe>, t: Tick, key: Key)
    requires key.0 != symbol
    ensures SessionOf(Spread(sessions, symbol, tfs, t).0, key) == SessionOf(sessions, key)
  {
    hide Refused;
    if tfs != [] {
      SpreadKeepsOthers(sessions, symbol, Init(tfs), t, key);
    }
  }

  /** Each timeframe that accepts a symbol's quotes holds exactly the ticks of that symbol's building quotes. */
  lemma {:induction false} SessionIsBuilt(quotes: seq<Quote>, symbol: string, c: FeedConfig, n: nat)
    requires symbol in c.symbols && n < |c.timeframes| && Reaches(quotes, symbol, c, n)
    requires forall i, j :: 0 <= i < j < |c.timeframes| ==> c.timeframes[i] != c.timeframes[j]
    ensures SessionOf(Feed(quotes, c).sessions, (symbol, c.timeframes[n])) == Built(quotes, symbol, c)
  {
    hide Spread, Increment, Counts;
    if quotes != [] {
      var past, q := Init(quotes), Last(quotes);
      SessionIsBuilt(past, symbol, c, n);
      var s := Feed(past, c);
      if q.symbol != symbol {
        SpreadKeepsOthers(s.sessions, q.symbol, c.timeframes, TickOf(s, q), (symbol, c.timeframes[n]));
      } else if Builds(q, c) {
        CountIsLastCount(past, symbol, c);
        SpreadReaches(s.sessions, symbol, c.timeframes, TickOf(s, q), n);
      }
    }
  }

  lemma {:induction false} BuiltVolume(quotes: seq<Quote>, symbol: string, c: FeedConfig)
    ensures TickVolume(Built(quotes, symbol, c)) == Gained(quotes, symbol, c, true)
  {
    hide Gain, Builds;
    if quotes != [] {
      var past, q := Init(quotes), Last(quotes);
      BuiltVolume(past, symbol, c);
      if q.symbol == symbol && Builds(q, c) {
        assert Init(Built(quotes, symbol, c)) == Built(past, symbol, c);
      } else {
        assert Built(quotes, symbol, c) == Built(past, symbol, c);
      }
    }
  }

  /** All gains of a symbol add up to the change of its count plus whatever the count fell back. */
  lemma {:induction false} GainsTelescope(quotes: seq<Quote>, symbol: string, c: FeedConfig)
    ensures var cs := Counts(quotes, symbol);
      Gained(quotes, symbol, c, true) + Gained(quotes, symbol, c, false) ==
      if cs == [] then 0 else Last(cs) - cs[0] + Fallbacks(cs)
  {
    hide Builds;
    if quotes != [] {
      var past, q := Init(quotes), Last(quotes);
      GainsTelescope(past, symbol, c);
      if q.symbol == symbol {
        assert Init(Counts(quotes, symbol)) == Counts(past, symbol);
      } else {
        assert Counts(quotes, symbol) == Counts(past, symbol);
      }
    }
  }

  /** The volume in a session's candles: what has been emitted and the working bar. */
  function CandleVolume(session: seq<Tick>, tf: Timeframe, max: int): int {
    if session == [] then 0
    else VolumeOf(Emission(Bars(session, tf), tf, max)) + Last(Bars(session, tf)).volume
  }

  lemma SessionVolume(session: seq<Tick>, tf: Timeframe, max: int)
    ensures CandleVolume(session, tf, max) == TickVolume(session)
  {
    hide Bars, Emission;
    if session != [] {
      VolumeConserved(session, tf, max);
    }
  }

  /** End to end, over any interleaving of quotes of any symbols: the candles of a timeframe that accepts a
      symbol's quotes hold the change of the symbol's count, plus its fallbacks, less what was gained on quotes
      that build no candle. */
  lemma CandlesHoldTradedVolume(quotes: seq<Quote>, symbol: string, c: FeedConfig, n: nat, max: int)
    requires symbol in c.symbols && n < |c.timeframes| && Reaches(quotes, symbol, c, n)
    requires forall i, j :: 0 <= i < j < |c.timeframes| ==> c.timeframes[i] != c.timeframes[j]
    requires Counts(quotes, symbol) != []
    ensures var cs, tf := Counts(quotes, symbol), c.timeframes[n];
      CandleVolume(SessionOf(Feed(quotes, c).sessions, (symbol, tf)), tf, max) ==
      Last(cs) - cs[0] + Fallbacks(cs) - Gained(quotes, symbol, c, false)
  {
    hide Feed, Built, Counts, Fallbacks, Gained, CandleVolume, TickVolume, Reaches;
    SessionIsBuilt(quotes, symbol, c, n);
    BuiltVolume(quotes, symbol, c);
    GainsTelescope(quotes, symbol, c);
    SessionVolume(Built(quotes, symbol, c), c.timeframes[n], max);
  }

  predicate NeverFalls(counts: seq<int>) { forall i, j :: 0 <= i < j < |counts| ==> counts[i] <= counts[j] }

  lemma {:induction false} NoFallbacks(counts: seq<int>)
    ensures Fallbacks(counts) >= 0 && (Fallbacks(counts) == 0 <==> NeverFalls(counts))
  {
    if |counts| > 1 {
      NoFallbacks(Init(counts));
      assert forall i :: 0 <= i < |counts| - 1 ==> Init(counts)[i] == counts[i];
      assert Last(Init(counts)) == counts[|counts| - 2] && Last(counts) == counts[|counts| - 1];
    }
  }

  /** No quote that builds no candle gained anything on the symbol's quote before it. */
  predicate NothingGainedOutside(quotes: seq<Quote>, symbol: string, c: FeedConfig) {
    forall k ::
      0 <= k < |quotes| && quotes[k].symbol == symbol && !Builds(quotes[k], c) ==> Gain(quotes[..k], quotes[k]) == 0
  }

  lemma {:induction false} NothingLost(quotes: seq<Quote>, symbol: string, c: FeedConfig)
    ensures Gained(quotes, symbol, c, false) >= 0
    ensures Gained(quotes, symbol, c, false) == 0 <==> NothingGainedOutside(quotes, symbol, c)
  {
    hide Counts, Builds;
    if quotes != [] {
      var past, q := Init(quotes), Last(quotes);
      NothingLost(past, symbol, c);
      assert forall k :: 0 <= k < |past| ==> past[k] == quotes[k] && past[..k] == quotes[..k];
      assert quotes[..|past|] == past && quotes[|past|] == q;
    }
  }

  /** For a count that never falls, the candles hold exactly what was traded since the symbol's first quote if and
      only if nothing was gained on a quote that builds no candle. */
  lemma CandlesHoldAllVolumeIff(quotes: seq<Quote>, symbol: string, c: FeedConfig, n: nat, max: int)
    requires symbol in c.symbols && n < |c.timeframes| && Reaches(quotes, symbol, c, n)
    requires forall i, j :: 0 <= i < j < |c.timeframes| ==> c.timeframes[i] != c.timeframes[j]
    requires Counts(quotes, symbol) != [] && NeverFalls(Counts(quotes, symbol))
    ensures var cs, tf := Counts(quotes, symbol), c.timeframes[n];
      CandleVolume(SessionOf(Feed(quotes, c).sessions, (symbol, tf)), tf, max) == Last(cs) - cs[0]
      <==> NothingGainedOutside(quotes, symbol, c)
  {
    hide Feed, Counts, Fallbacks, Gained, CandleVolume, Reaches, NeverFalls, NothingGainedOutside;
    CandlesHoldTradedVolume(quotes, symbol, c, n, max);
    NoFallbacks(Counts(quotes, symbol));
    NothingLost(quotes, symbol, c);
  }

  // ----- Quotes that no timeframe refuses -----

  predicate Clean(ticks: seq<Tick>) { forall i :: 0 <= i < |ticks| ==> ticks[i].price > 0.0 && ticks[i].volume >= 0 }

  /** Ticks with positive prices and non-negative volumes make valid bars, in any order of arrival. */
  lemma {:induction false} CleanBarsAreValid(ticks: seq<Tick>, tf: Timeframe)
    requires Clean(ticks)
    ensures AllValid(Bars(ticks, tf))
  {
    hide FloorTo, NextBar, Aligned, Bars, RollUp;
    if ticks == [] {
      NoBars(tf);
    } else {
      var past, t := Init(ticks), Last(ticks);
      assert ticks == past + [t] && t == ticks[|ticks| - 1];
      assert forall i :: 0 <= i < |past| ==> past[i] == ticks[i];
      CleanBarsAreValid(past, tf);
      BarsSnoc(past, t, tf);
      PushValid(Bars(past, tf), At(OfTick(t), tf));
    }
  }

  lemma PushValid(bars: seq<Candle>, c: Candle)
    requires AllValid(bars) && ValidCandle(c)
    ensures AllValid(Push(bars, c))
  {
    if bars != [] {
      assert ValidCandle(bars[|bars| - 1]);
    }
  }

  lemma CleanIsAccepted(ticks: seq<Tick>, t: Tick, tf: Timeframe)
    requires Clean(ticks)
    ensures !Refused(ticks, t, tf)
  {
    hide Bars, RollUp, ValidCandle;
    CleanBarsAreValid(ticks, tf);
    assert ticks != [] ==> Last(Bars(ticks, tf)) == Bars(ticks, tf)[|Bars(ticks, tf)| - 1];
  }

  ghost predicate CleanFor(sessions: map<Key, seq<Tick>>, symbol: string) {
    forall tf: Timeframe :: Clean(SessionOf(sessions, (symbol, tf)))
  }

  lemma {:induction false} CleanSpread(sessions: map<Key, seq<Tick>>, symbol: string, tfs: seq<Timeframe>, t: Tick)
    requires CleanFor(sessions, symbol) && Clean([t])
    ensures Spread(sessions, symbol, tfs, t).1 && CleanFor(Spread(sessions, symbol, tfs, t).0, symbol)
  {
    hide Refused;
    if tfs != [] {
      CleanSpread(sessions, symbol, Init(tfs), t);
      var before := Spread(sessions, symbol, Init(tfs), t).0;
      CleanIsAccepted(SessionOf(before, (symbol, Last(tfs))), t, Last(tfs));
      CleanSnoc(SessionOf(before, (symbol, Last(tfs))), t);
    }
  }

  lemma CleanSnoc(ticks: seq<Tick>, t: Tick)
    requires Clean(ticks) && Clean([t])
    ensures Clean(ticks + [t])
  {
    assert [t][0] == t;
  }

  /** If a symbol's building quotes all have positive prices, none is ever refused, by any timeframe. */
  lemma {:induction false} PositivePricesReach(quotes: seq<Quote>, symbol: string, c: FeedConfig, n: nat)
    requires n < |c.timeframes|
    requires forall k ::
      0 <= k < |quotes| && quotes[k].symbol == symbol && Builds(quotes[k], c) ==> quotes[k].price > 0.0
    ensures Reaches(quotes, symbol, c, n) && CleanFor(Feed(quotes, c).sessions, symbol)
  {
    hide Spread, Clean;
    if quotes == [] {
      NothingIsClean(symbol);
    } else {
      var past, q := Init(quotes), Last(quotes);
      assert q == quotes[|quotes| - 1] && forall k :: 0 <= k < |past| ==> past[k] == quotes[k];
      PositivePricesReach(past, symbol, c, n);
      var s := Feed(past, c);
      if q.symbol != symbol {
        forall tf: Timeframe
          ensures SessionOf(Feed(quotes, c).sessions, (symbol, tf)) == SessionOf(s.sessions, (symbol, tf))
        {
          SpreadKeepsOthers(s.sessions, q.symbol, c.timeframes, TickOf(s, q), (symbol, tf));
        }
      } else if Builds(q, c) {
        TickIsClean(s, q);
        CleanSpread(s.sessions, symbol, c.timeframes, TickOf(s, q));
        CleanSpread(s.sessions, symbol, c.timeframes[..n + 1], TickOf(s, q));
      }
    }
  }

  lemma NothingIsClean(symbol: string)
    ensures CleanFor(map[], symbol)
  {}

  lemma TickIsClean(s: FeedState, q: Quote)
    requires q.price > 0.0
    ensures Clean([TickOf(s, q)])
  {}

  // ----- Volume that the candles miss -----

  /** Midnight UTC of Tuesday, 3 June 2025. */
  const TUESDAY: nat := 739404 * DAY

  /** Two quotes of the pre-open session, at 09:00 and 09:08 in India, and one after the open, at 09:16. */
  const TEN := Quote("X", 1.0, 10, TUESDAY + 210 * MINUTE)
  const FIFTEEN := Quote("X", 1.0, 15, TUESDAY + 218 * MINUTE)
  const TWENTY := Quote("X", 1.0, 20, TUESDAY + 226 * MINUTE)

  /** The regular session of a trading day, 09:15 to 15:30 in India. */
  function RegularHours(ts: nat): bool { 225 * MINUTE <= ts % DAY < 600 * MINUTE }

  /** Counts of 10 and 15 before the open and of 20 after it: ten were traded and the candles hold five. */
  lemma OffSessionVolumeIsLost(max: int)
    ensures var quotes, c := [TEN, FIFTEEN, TWENTY], FeedConfig({"X"}, true, RegularHours, [M1]);
      Counts(quotes, "X") == [10, 15, 20] && CandleVolume(SessionOf(Feed(quotes, c).sessions, ("X", M1)), M1, max) == 5
  {
    var quotes, c := [TEN, FIFTEEN, TWENTY], FeedConfig({"X"}, true, RegularHours, [M1]);
    HoursOfExample();
    hide RegularHours;
    BuiltExample(c);
    hide Feed, Built, CandleVolume, TickVolume, Reaches;
    PositivePricesReach(quotes, "X", c, 0);
    SessionIsBuilt(quotes, "X", c, 0);
    SessionVolume(Built(quotes, "X", c), M1, max);
  }

  lemma HoursOfExample()
    ensures !RegularHours(TEN.ts) && !RegularHours(FIFTEEN.ts) && RegularHours(TWENTY.ts)
  {}

  lemma BuiltExample(c: FeedConfig)
    requires c.symbols == {"X"} && c.enforceSession
    requires !c.isOpen(TEN.ts) && !c.isOpen(FIFTEEN.ts) && c.isOpen(TWENTY.ts)
    ensures var quotes := [TEN, FIFTEEN, TWENTY];
      Counts(quotes, "X") == [10, 15, 20] && TickVolume(Built(quotes, "X", c)) == 5
  {
    var quotes := [TEN, FIFTEEN, TWENTY];
    assert Init(quotes) == [TEN, FIFTEEN] && Init([TEN, FIFTEEN]) == [TEN] && Init([TEN]) == [];
    assert Counts([TEN], "X") == [10] && Counts([TEN, FIFTEEN], "X") == [10, 15];
    assert Built([TEN], "X", c) == [] && Built([TEN, FIFTEEN], "X", c) == [];
    assert Built(quotes, "X", c) == [Tick(1.0, 5, TWENTY.ts)];
    assert Init([Tick(1.0, 5, TWENTY.ts)]) == [];
  }
}
