/** What the candle aggregator guarantees over whole streams of ticks. */
module CandleProperties {

  import opened Common
  import opened Timeframes
  import opened Candles

  // ----- Which ticks are accepted -----

  /** The ticks that get through when `later` is offered one by one after `session`. */
  function Offer(session: seq<Tick>, later: seq<Tick>, tf: Timeframe): seq<Tick> {
    if later == [] then session else Accept(Offer(session, Init(later), tf), Last(later), tf)
  }

  predicate AllValid(bars: seq<Candle>) { forall i :: 0 <= i < |bars| ==> ValidCandle(bars[i]) }

  /** No tick raises an error exactly when every bar that had to be closed is valid. */
  lemma {:induction false} NoErrorIff(ticks: seq<Tick>, tf: Timeframe)
    ensures Offer([], ticks, tf) == ticks <==> ticks == [] || AllValid(Init(Bars(ticks, tf)))
  {
    hide FloorTo, NextBar, Aligned, ValidCandle, Bars;
    if ticks != [] {
      var past, t := Init(ticks), Last(ticks);
      assert ticks == past + [t];
      NoErrorIff(past, tf);
      OfferIsShort([], past, tf);
      BarsSnoc(past, t, tf);
      var c := At(OfTick(t), tf);
      if past == [] {
        EmptySession(tf, 0);
      } else if Last(Bars(past, tf)).barTs == c.barTs {
        assert Init(Bars(ticks, tf)) == Init(Bars(past, tf));
      } else {
        assert Init(Bars(ticks, tf)) == Bars(past, tf) == Init(Bars(past, tf)) + [Last(Bars(past, tf))];
        SplitValid(Bars(past, tf));
      }
    }
  }

  lemma SplitValid(bars: seq<Candle>)
    requires bars != []
    ensures AllValid(bars) <==> AllValid(Init(bars)) && ValidCandle(Last(bars))
  {
    hide ValidCandle;
    assert bars == Init(bars) + [Last(bars)];
  }

  lemma {:induction false} OfferIsShort(session: seq<Tick>, later: seq<Tick>, tf: Timeframe)
    ensures |Offer(session, later, tf)| <= |session| + |later|
  {
    if later != [] {
      OfferIsShort(session, Init(later), tf);
    }
  }

  /** In time order, a stream is accepted and flushed without an error exactly when every tick has a
      positive price and no bar's volumes sum below zero. */
  lemma ValidationNeverRaisesIff(ticks: seq<Tick>, tf: Timeframe)
    requires Chronological(ticks)
    ensures AllValid(Bars(ticks, tf)) <==>
      && (forall i :: 0 <= i < |ticks| ==> ticks[i].price > 0.0)
      && (forall i :: 0 <= i < |Bars(ticks, tf)| ==> TickVolume(Bucket(ticks, Bars(ticks, tf)[i].barTs, tf)) >= 0)
  {
    hide FloorTo, NextBar, Aligned, Bars, ValidCandle, IsOhlcv;
    var bars := Bars(ticks, tf);
    BarsAreBuckets(ticks, tf);
    forall i | 0 <= i < |bars|
      ensures ValidCandle(bars[i]) <==>
        PositivePrices(Bucket(ticks, bars[i].barTs, tf)) && TickVolume(Bucket(ticks, bars[i].barTs, tf)) >= 0
    {
      ValidIff(bars[i], Bucket(ticks, bars[i].barTs, tf));
    }
    PositiveByBucket(ticks, bars, tf);
  }

  predicate PositivePrices(ticks: seq<Tick>) { forall i :: 0 <= i < |ticks| ==> ticks[i].price > 0.0 }

  lemma PositiveByBucket(ticks: seq<Tick>, bars: seq<Candle>, tf: Timeframe)
    requires Buckets(bars, ticks, tf)
    ensures PositivePrices(ticks) <==> forall i :: 0 <= i < |bars| ==> PositivePrices(Bucket(ticks, bars[i].barTs, tf))
  {
    hide FloorTo, NextBar, Aligned, IsOhlcv, PositivePrices;
    forall b: nat ensures PositivePrices(ticks) ==> PositivePrices(Bucket(ticks, b, tf)) { BucketPrices(ticks, b, tf); }
    if forall i :: 0 <= i < |bars| ==> PositivePrices(Bucket(ticks, bars[i].barTs, tf)) {
      PositiveIfBuckets(ticks, bars, tf);
    }
  }

  lemma PositiveIfBuckets(ticks: seq<Tick>, bars: seq<Candle>, tf: Timeframe)
    requires Buckets(bars, ticks, tf)
    requires forall i :: 0 <= i < |bars| ==> PositivePrices(Bucket(ticks, bars[i].barTs, tf))
    ensures PositivePrices(ticks)
  {
    hide FloorTo, NextBar, Aligned, IsOhlcv, Bucket;
    forall k | 0 <= k < |ticks| ensures ticks[k].price > 0.0 {
      assert HasBar(bars, BarStart(ticks[k].ts, tf));
      var j :| 0 <= j < |bars| && bars[j].barTs == BarStart(ticks[k].ts, tf);
      assert PositivePrices(Bucket(ticks, bars[j].barTs, tf));
      InItsBucket(ticks, k, tf);
      PriceInBucket(Bucket(ticks, bars[j].barTs, tf), ticks[k]);
    }
  }

  lemma PriceInBucket(group: seq<Tick>, t: Tick)
    requires PositivePrices(group) && t in group
    ensures t.price > 0.0
  {}

  lemma {:induction false} BucketPrices(ticks: seq<Tick>, b: nat, tf: Timeframe)
    ensures PositivePrices(ticks) ==> PositivePrices(Bucket(ticks, b, tf))
  {
    hide FloorTo, NextBar, Aligned;
    if ticks != [] {
      BucketPrices(Init(ticks), b, tf);
    }
  }

  lemma {:induction false} InItsBucket(ticks: seq<Tick>, k: nat, tf: Timeframe)
    requires k < |ticks|
    ensures ticks[k] in Bucket(ticks, BarStart(ticks[k].ts, tf), tf)
  {
    hide FloorTo, NextBar, Aligned;
    if k < |ticks| - 1 {
      InItsBucket(Init(ticks), k, tf);
    }
  }

  /** One accepted tick at or below zero blocks the aggregator for good: its bar can never be closed, so
      nothing more is emitted, whatever ticks follow. */
  lemma {:induction false} BadTickBlocksForever(session: seq<Tick>, later: seq<Tick>, tf: Timeframe, max: int)
    requires session != [] && Last(Bars(session, tf)).low <= 0.0
    ensures var s := Offer(session, later, tf);
      && s != [] && Last(Bars(s, tf)).low <= 0.0
      && Last(Bars(s, tf)).barTs == Last(Bars(session, tf)).barTs
      && Emission(Bars(s, tf), tf, max) == Emission(Bars(session, tf), tf, max)
  {
    hide FloorTo, NextBar, Aligned, Emission, Bars;
    if later != [] {
      BadTickBlocksForever(session, Init(later), tf, max);
      var s, t := Offer(session, Init(later), tf), Last(later);
      if !Refused(s, t, tf) {
        BarsSnoc(s, t, tf);
        EmissionJoin(Bars(s, tf), At(OfTick(t), tf), tf, max);
      }
    }
  }

  // ----- Volume -----

  function VolumeOf(cs: seq<Candle>): int {
    if cs == [] then 0 else VolumeOf(Init(cs)) + Last(cs).volume
  }

  lemma VolumeSnoc(cs: seq<Candle>, c: Candle)
    ensures VolumeOf(cs + [c]) == VolumeOf(cs) + c.volume
  {
    assert Init(cs + [c]) == cs;
  }

  lemma {:induction false} VolumeConcat(a: seq<Candle>, b: seq<Candle>)
    ensures VolumeOf(a + b) == VolumeOf(a) + VolumeOf(b)
  {
    if b == [] {
      assert a + b == a;
    } else {
      assert a + b == (a + Init(b)) + [Last(b)];
      VolumeSnoc(a + Init(b), Last(b));
      VolumeConcat(a, Init(b));
    }
  }

  lemma {:induction false} BarsKeepVolume(ticks: seq<Tick>, tf: Timeframe)
    ensures VolumeOf(Bars(ticks, tf)) == TickVolume(ticks)
  {
    hide FloorTo, NextBar, Aligned, Bars;
    if ticks == [] {
      EmptySession(tf, 0);
    } else {
      var past, t := Init(ticks), Last(ticks);
      var bars := Bars(past, tf);
      assert ticks == past + [t];
      BarsKeepVolume(past, tf);
      BarsSnoc(past, t, tf);
      PushVolume(bars, At(OfTick(t), tf));
    }
  }

  lemma PushVolume(bars: seq<Candle>, c: Candle)
    ensures VolumeOf(Push(bars, c)) == VolumeOf(bars) + c.volume
  {
    if bars != [] && Last(bars).barTs == c.barTs {
      VolumeSnoc(Init(bars), Merge(Last(bars), c));
    } else {
      VolumeSnoc(bars, c);
    }
  }

  lemma {:induction false} FillHasNoVolume(cursor: nat, target: nat, close: real, tf: Timeframe, left: int)
    ensures VolumeOf(Fill(cursor, target, close, tf, left)) == 0
    decreases left
  {
    hide NextBar;
    if cursor < target && left > 0 {
      FillHasNoVolume(NextBar(cursor, tf), target, close, tf, left - 1);
      VolumeConcat([Flat(cursor, close)], Fill(NextBar(cursor, tf), target, close, tf, left - 1));
      VolumeSnoc([], Flat(cursor, close));
      assert [] + [Flat(cursor, close)] == [Flat(cursor, close)];
    }
  }

  lemma {:induction false} FlushedVolume(bars: seq<Candle>, tf: Timeframe, max: int)
    ensures VolumeOf(Flushed(bars, tf, max)) == VolumeOf(bars)
    decreases |bars|
  {
    hide NextBar, Fill;
    if bars != [] {
      VolumeSnoc(Emission(bars, tf, max), Last(bars));
      if |bars| > 1 {
        var prev := Last(Init(bars));
        FlushedVolume(Init(bars), tf, max);
        FillHasNoVolume(NextBar(prev.barTs, tf), Last(bars).barTs, prev.close, tf, max);
        VolumeConcat(Flushed(Init(bars), tf, max),
          Fill(NextBar(prev.barTs, tf), Last(bars).barTs, prev.close, tf, max));
      } else {
        assert Init(bars) == [];
      }
    }
  }

  /** Volume is neither lost nor created: what was emitted plus the working bar is what came in. */
  lemma VolumeConserved(ticks: seq<Tick>, tf: Timeframe, max: int)
    requires ticks != []
    ensures VolumeOf(Emission(Bars(ticks, tf), tf, max)) + Last(Bars(ticks, tf)).volume == TickVolume(ticks)
  {
    hide Emission, Bars;
    var bars := Bars(ticks, tf);
    BarsKeepVolume(ticks, tf);
    FlushedVolume(bars, tf, max);
    VolumeSnoc(Emission(bars, tf, max), Last(bars));
  }

  // ----- Shape of the emitted stream -----

  /** A flat bar repeats the close of the bar emitted before it. */
  predicate Synthetic(out: seq<Candle>, i: nat)
    requires i < |out|
  {
    i > 0 && out[i] == Flat(out[i].barTs, out[i - 1].close)
  }

  /** Every emitted bar starts where the previous one ends, unless the gap outran `max` synthetic bars. */
  predicate Spaced(out: seq<Candle>, bars: seq<Candle>, tf: Timeframe, max: int) {
    && Ascending(out)
    && (forall i: nat :: i < |out| ==> out[i] in bars || Synthetic(out, i))
    && (forall i: nat :: 0 < i < |out| ==>
      out[i].barTs == NextBar(out[i - 1].barTs, tf) || (out[i] in bars && Exhausted(out, bars, i, max)))
  }

  /** The `max` bars before position `i` are all synthetic. */
  predicate Exhausted(out: seq<Candle>, bars: seq<Candle>, i: nat, max: int)
    requires i <= |out|
  {
    max <= 0 || (i > max && forall k :: i - max <= k < i ==> !HasBar(bars, out[k].barTs))
  }

  /** The fill loop walks bar by bar and lands exactly on the target unless it runs out first. */
  lemma {:induction false} FillLands(cursor: nat, target: nat, close: real, tf: Timeframe, left: int)
    requires Aligned(cursor, tf) && Aligned(target, tf) && cursor <= target
    ensures var out := Fill(cursor, target, close, tf, left);
      && (forall i :: 0 <= i < |out| ==> cursor <= out[i].barTs < target && out[i] == Flat(out[i].barTs, close))
      && (forall i :: 0 < i < |out| ==> out[i].barTs == NextBar(out[i - 1].barTs, tf))
      && Ascending(out)
      && (out != [] ==> out[0].barTs == cursor)
      && (if out == [] then cursor else NextBar(Last(out).barTs, tf)) <= target
      && ((if out == [] then cursor else NextBar(Last(out).barTs, tf)) < target ==>
        |out| == if left <= 0 then 0 else left)
    decreases left
  {
    hide FloorTo, NextBar, BarStart;
    if cursor < target && left > 0 {
      var next := NextBar(cursor, tf);
      NextIsAligned(cursor, tf);
      if target < next {
        BarUnique(target, cursor, tf);
      }
      FillLands(next, target, close, tf, left - 1);
      var rest := Fill(next, target, close, tf, left - 1);
      assert Fill(cursor, target, close, tf, left) == [Flat(cursor, close)] + rest;
    }
  }

  predicate AllAligned(bars: seq<Candle>, tf: Timeframe) { forall i :: 0 <= i < |bars| ==> Aligned(bars[i].barTs, tf) }

  lemma {:induction false} BarsAreAligned(ticks: seq<Tick>, tf: Timeframe)
    ensures AllAligned(Bars(ticks, tf), tf)
  {
    hide FloorTo, NextBar, Aligned, Bars;
    if ticks == [] {
      EmptySession(tf, 0);
    } else {
      assert ticks == Init(ticks) + [Last(ticks)];
      BarsAreAligned(Init(ticks), tf);
      BarsSnoc(Init(ticks), Last(ticks), tf);
    }
  }

  /** In time order the emitted bars ascend, are tick bars or repeat the last close, and leave no hole except
      after `max` synthetic bars in a row. */
  lemma EmittedIsSpaced(ticks: seq<Tick>, tf: Timeframe, max: int)
    requires Chronological(ticks)
    ensures Spaced(Flushed(Bars(ticks, tf), tf, max), Bars(ticks, tf), tf, max)
  {
    hide FloorTo, NextBar, Aligned, Bars, Spaced, Flushed;
    BarsAreBuckets(ticks, tf);
    BarsAreAligned(ticks, tf);
    FlushedIsSpaced(Bars(ticks, tf), tf, max);
  }

  lemma {:induction false} FlushedIsSpaced(bars: seq<Candle>, tf: Timeframe, max: int)
    requires Ascending(bars) && AllAligned(bars, tf)
    ensures Spaced(Flushed(bars, tf, max), bars, tf, max)
    decreases |bars|
  {
    if |bars| <= 1 {
      FewBarsAreSpaced(bars, tf, max);
    } else {
      hide FloorTo, NextBar, Aligned, Fill, Spaced, Bridges, Flushed;
      var past, last := Init(bars), Last(bars);
      assert bars == past + [last];
      FlushedIsSpaced(past, tf, max);
      var gap := Fill(NextBar(Last(past).barTs, tf), last.barTs, Last(past).close, tf, max);
      GapShape(Last(past), last, tf, max);
      FlushedUnfold(bars, tf, max);
      SpacedStep(Flushed(past, tf, max), gap, past, last, tf, max);
    }
  }

  lemma FewBarsAreSpaced(bars: seq<Candle>, tf: Timeframe, max: int)
    requires |bars| <= 1
    ensures Spaced(Flushed(bars, tf, max), bars, tf, max)
  {
    hide NextBar;
  }

  lemma FlushedUnfold(bars: seq<Candle>, tf: Timeframe, max: int)
    requires |bars| > 1
    ensures var past, last := Init(bars), Last(bars);
      && Flushed(bars, tf, max) ==
        Flushed(past, tf, max) + Fill(NextBar(Last(past).barTs, tf), last.barTs, Last(past).close, tf, max) + [last]
      && Flushed(past, tf, max) != [] && Last(Flushed(past, tf, max)) == Last(past)
  {
    hide NextBar, Fill;
  }

  /** The synthetic bars between two tick bars. */
  predicate Bridges(gap: seq<Candle>, prev: Candle, last: Candle, tf: Timeframe, max: int) {
    && (forall i ::
      0 <= i < |gap| ==> prev.barTs < gap[i].barTs < last.barTs && gap[i] == Flat(gap[i].barTs, prev.close))
    && (forall i :: 0 < i < |gap| ==> gap[i].barTs == NextBar(gap[i - 1].barTs, tf))
    && Ascending(gap)
    && (gap != [] ==> gap[0].barTs == NextBar(prev.barTs, tf))
    && (NextBar((if gap == [] then prev else Last(gap)).barTs, tf) == last.barTs
      || |gap| == if max <= 0 then 0 else max)
  }

  lemma GapShape(prev: Candle, last: Candle, tf: Timeframe, max: int)
    requires prev.barTs < last.barTs && Aligned(prev.barTs, tf) && Aligned(last.barTs, tf)
    ensures Bridges(Fill(NextBar(prev.barTs, tf), last.barTs, prev.close, tf, max), prev, last, tf, max)
  {
    hide FloorTo, NextBar, Fill;
    NextIsAligned(prev.barTs, tf);
    if last.barTs < NextBar(prev.barTs, tf) {
      BarUnique(last.barTs, prev.barTs, tf);
    }
    FillLands(NextBar(prev.barTs, tf), last.barTs, prev.close, tf, max);
  }

  lemma SpacedStep(out: seq<Candle>, gap: seq<Candle>, past: seq<Candle>, last: Candle, tf: Timeframe, max: int)
    requires past != [] && Ascending(past + [last]) && Spaced(out, past, tf, max)
    requires out != [] && Last(out) == Last(past) && Bridges(gap, Last(past), last, tf, max)
    ensures Spaced(out + gap + [last], past + [last], tf, max)
  {
    hide NextBar;
    var r, bars, prev := out + gap + [last], past + [last], Last(past);
    assert bars[|past| - 1] == prev && bars[|past|] == last;
    StepAscends(out, gap, prev, last, tf, max);
    forall i: nat | i < |r| ensures r[i] in bars || Synthetic(r, i) {
      StepSources(out, gap, past, last, tf, max, i);
    }
    forall i: nat | 0 < i < |r|
      ensures r[i].barTs == NextBar(r[i - 1].barTs, tf) || (r[i] in bars && Exhausted(r, bars, i, max))
    {
      StepGaps(out, gap, past, last, tf, max, i);
    }
  }

  lemma StepAscends(out: seq<Candle>, gap: seq<Candle>, prev: Candle, last: Candle, tf: Timeframe, max: int)
    requires Ascending(out) && out != [] && Last(out) == prev && prev.barTs < last.barTs
      && Bridges(gap, prev, last, tf, max)
    ensures Ascending(out + gap + [last])
  {
    hide NextBar;
    var r := out + gap + [last];
    forall i, j | 0 <= i < j < |r| ensures r[i].barTs < r[j].barTs {
      assert i < |out| ==> r[i].barTs <= prev.barTs;
    }
  }

  lemma StepSources(out: seq<Candle>, gap: seq<Candle>, past: seq<Candle>, last: Candle, tf: Timeframe, max: int,
      i: nat)
    requires past != [] && Spaced(out, past, tf, max)
    requires out != [] && Last(out) == Last(past) && Bridges(gap, Last(past), last, tf, max)
    requires i < |out| + |gap| + 1
    ensures var r := out + gap + [last]; r[i] in past + [last] || Synthetic(r, i)
  {
    hide NextBar, Exhausted;
    var r := out + gap + [last];
    if i < |out| {
      assert out[i] in past || Synthetic(out, i);
    } else if i < |out| + |gap| {
      var k := i - |out|;
      assert r[i] == gap[k];
      assert r[i - 1] == if k == 0 then Last(out) else gap[k - 1];
    }
  }

  lemma StepGaps(out: seq<Candle>, gap: seq<Candle>, past: seq<Candle>, last: Candle, tf: Timeframe, max: int, i: nat)
    requires past != [] && Ascending(past + [last]) && Spaced(out, past, tf, max)
    requires out != [] && Last(out) == Last(past) && Bridges(gap, Last(past), last, tf, max)
    requires 0 < i < |out| + |gap| + 1
    ensures var r, bars := out + gap + [last], past + [last];
      r[i].barTs == NextBar(r[i - 1].barTs, tf) || (r[i] in bars && Exhausted(r, bars, i, max))
  {
    hide NextBar, HasBar;
    var r, bars := out + gap + [last], past + [last];
    if i < |out| {
      assert r[i] == out[i] && r[i - 1] == out[i - 1];
      if out[i].barTs != NextBar(out[i - 1].barTs, tf) {
        forall k | 0 <= k < i ensures HasBar(bars, r[k].barTs) == HasBar(past, out[k].barTs) {
          OldBars(past, last, out[k].barTs);
        }
      }
    } else if i < |out| + |gap| {
      var k := i - |out|;
      assert r[i] == gap[k];
      assert r[i - 1] == if k == 0 then Last(out) else gap[k - 1];
    } else {
      assert r[i] == last;
      assert r[i - 1] == if gap == [] then Last(out) else Last(gap);
      forall k | |out| <= k < i ensures !HasBar(bars, r[k].barTs) {
        assert r[k] == gap[k - |out|];
        NoBarBetween(bars, |bars|, gap[k - |out|].barTs);
      }
    }
  }

  lemma OldBars(past: seq<Candle>, last: Candle, b: nat)
    requires past != [] && Ascending(past + [last]) && b <= Last(past).barTs
    ensures HasBar(past + [last], b) == HasBar(past, b)
  {
    var bars := past + [last];
    assert bars[|past| - 1] == Last(past) && bars[|past|] == last;
    if HasBar(bars, b) {
      var j :| 0 <= j < |bars| && bars[j].barTs == b;
      assert past[j].barTs == b;
    }
    if HasBar(past, b) {
      var j :| 0 <= j < |past| && past[j].barTs == b;
      assert bars[j].barTs == b;
    }
  }

  /** Nothing lies strictly between two consecutive bars. */
  lemma NoBarBetween(bars: seq<Candle>, n: nat, b: nat)
    requires 2 <= n <= |bars| && Ascending(bars) && bars[n - 2].barTs < b < bars[n - 1].barTs
    ensures !HasBar(bars, b)
  {
    forall j | 0 <= j < |bars| ensures bars[j].barTs != b {
      assert j <= n - 2 || j >= n - 1;
    }
  }

  // ----- Agreement between timeframes -----

  /** The emitted bars that hold at least one tick. */
  function TickBearing(out: seq<Candle>, ticks: seq<Tick>, tf: Timeframe): seq<Candle> {
    if out == [] then []
    else TickBearing(Init(out), ticks, tf) + (if Bucket(ticks, Last(out).barTs, tf) != [] then [Last(out)] else [])
  }

  lemma {:induction false} TickBearingConcat(a: seq<Candle>, b: seq<Candle>, ticks: seq<Tick>, tf: Timeframe)
    ensures TickBearing(a + b, ticks, tf) == TickBearing(a, ticks, tf) + TickBearing(b, ticks, tf)
  {
    hide Bucket;
    if b == [] {
      assert a + b == a;
    } else {
      assert Init(a + b) == a + Init(b) && Last(a + b) == Last(b);
      TickBearingConcat(a, Init(b), ticks, tf);
    }
  }

  lemma {:induction false} NoTicksIn(out: seq<Candle>, ticks: seq<Tick>, tf: Timeframe)
    requires forall i :: 0 <= i < |out| ==> Bucket(ticks, out[i].barTs, tf) == []
    ensures TickBearing(out, ticks, tf) == []
  {
    hide Bucket;
    if out != [] {
      NoTicksIn(Init(out), ticks, tf);
    }
  }

  lemma BucketIffBar(bars: seq<Candle>, ticks: seq<Tick>, b: nat, tf: Timeframe)
    requires Buckets(bars, ticks, tf)
    ensures HasBar(bars, b) <==> Bucket(ticks, b, tf) != []
  {
    hide FloorTo, NextBar, Aligned, Bucket;
    if Bucket(ticks, b, tf) != [] {
      if forall i :: 0 <= i < |ticks| ==> BarStart(ticks[i].ts, tf) != b {
        EmptyBucket(ticks, b, tf);
      }
    }
  }

  lemma {:induction false} FlushedKeepsBars(bars: seq<Candle>, n: nat, ticks: seq<Tick>, tf: Timeframe, max: int)
    requires n <= |bars| && Ascending(bars) && AllAligned(bars, tf) && Buckets(bars, ticks, tf)
    ensures TickBearing(Flushed(bars[..n], tf, max), ticks, tf) == bars[..n]
  {
    hide FloorTo, NextBar, Aligned, Fill, Bucket, IsOhlcv, Buckets, HasBar, TickBearing;
    if n == 0 {
      NoTicksIn([], ticks, tf);
    } else {
      var last := bars[n - 1];
      BucketIffBar(bars, ticks, last.barTs, tf);
      BarAt(bars, n - 1);
      assert Bucket(ticks, last.barTs, tf) != [];
      Single(last, ticks, tf);
      assert Init(bars[..n]) == bars[..n - 1] && bars[..n] == bars[..n - 1] + [last];
      if n == 1 {
        assert Flushed(bars[..n], tf, max) == [last];
      } else {
        FlushedKeepsBars(bars, n - 1, ticks, tf, max);
        var prev := bars[n - 2];
        var gap := Fill(NextBar(prev.barTs, tf), last.barTs, prev.close, tf, max);
        GapHasNoTicks(bars, n, ticks, tf, max);
        TickBearingConcat(Flushed(bars[..n - 1], tf, max), gap, ticks, tf);
        TickBearingConcat(Flushed(bars[..n - 1], tf, max) + gap, [last], ticks, tf);
        assert Flushed(bars[..n], tf, max) == Flushed(bars[..n - 1], tf, max) + gap + [last];
      }
    }
  }

  lemma BarAt(bars: seq<Candle>, i: nat)
    requires i < |bars|
    ensures HasBar(bars, bars[i].barTs)
  {}

  lemma Single(c: Candle, ticks: seq<Tick>, tf: Timeframe)
    requires Bucket(ticks, c.barTs, tf) != []
    ensures TickBearing([c], ticks, tf) == [c]
  {
    hide Bucket;
    assert Init([c]) == [];
  }

  lemma GapHasNoTicks(bars: seq<Candle>, n: nat, ticks: seq<Tick>, tf: Timeframe, max: int)
    requires 2 <= n <= |bars| && Ascending(bars) && AllAligned(bars, tf) && Buckets(bars, ticks, tf)
    ensures var gap := Fill(NextBar(bars[n - 2].barTs, tf), bars[n - 1].barTs, bars[n - 2].close, tf, max);
      TickBearing(gap, ticks, tf) == []
  {
    hide FloorTo, NextBar, Aligned, Fill, Bucket, IsOhlcv, Buckets, TickBearing;
    var prev, last := bars[n - 2], bars[n - 1];
    var gap := Fill(NextBar(prev.barTs, tf), last.barTs, prev.close, tf, max);
    GapShape(prev, last, tf, max);
    forall i | 0 <= i < |gap| ensures Bucket(ticks, gap[i].barTs, tf) == [] {
      BucketIffBar(bars, ticks, gap[i].barTs, tf);
      NoBarBetween(bars, n, gap[i].barTs);
    }
    NoTicksIn(gap, ticks, tf);
  }

  /** The tick-bearing part of what is emitted is the group-by-bucket of the ticks. */
  lemma EmittedTickBars(ticks: seq<Tick>, tf: Timeframe, max: int)
    requires Chronological(ticks)
    ensures TickBearing(Flushed(Bars(ticks, tf), tf, max), ticks, tf) == Bars(ticks, tf)
  {
    hide FloorTo, NextBar, Aligned, Bars, Flushed, TickBearing;
    var bars := Bars(ticks, tf);
    BarsAreBuckets(ticks, tf);
    BarsAreAligned(ticks, tf);
    FlushedKeepsBars(bars, |bars|, ticks, tf, max);
    assert bars[..|bars|] == bars;
  }

  /** Rolling up the tick-bearing candles emitted for a fine timeframe gives the tick-bearing candles emitted
      for any timeframe it nests in, whatever the gap limits. */
  lemma EmittedTimeframesAgree(ticks: seq<Tick>, fine: Timeframe, coarse: Timeframe, maxFine: int, maxCoarse: int)
    requires Chronological(ticks) && Nests(fine, coarse)
    ensures RollUp(TickBearing(Flushed(Bars(ticks, fine), fine, maxFine), ticks, fine), coarse)
      == TickBearing(Flushed(Bars(ticks, coarse), coarse, maxCoarse), ticks, coarse)
  {
    hide FloorTo, NextBar, Aligned, Bars, Flushed, TickBearing;
    EmittedTickBars(ticks, fine, maxFine);
    EmittedTickBars(ticks, coarse, maxCoarse);
    TimeframesAgree(ticks, fine, coarse);
  }
}
