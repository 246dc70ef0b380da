/**
 * Candle construction (`candle_builder.py`): ticks become bars, missing bars become flat ones, and
 * the bars of nesting timeframes agree.
 */
module Candles {

  import opened Common
  import opened Timeframes

  datatype Tick = Tick(price: real, volume: int, ts: nat)

  datatype Candle = Candle(barTs: nat, open: real, high: real, low: real, close: real, volume: int)

  /** The structural check made before a candle is emitted. */
  predicate ValidCandle(c: Candle) {
    && c.open > 0.0 && c.high > 0.0 && c.low > 0.0 && c.close > 0.0
    && c.low <= c.high
    && c.low <= c.open <= c.high
    && c.low <= c.close <= c.high
    && c.volume >= 0
  }

  function BarStart(ts: nat, tf: Timeframe): (b: nat)
    ensures Aligned(b, tf) && b <= ts < NextBar(b, tf)
    ensures b == FloorTo(ts, tf)
  {
    BarContains(ts, tf);
    FloorTo(ts, tf)
  }

  // ----- Rolling up -----

  function OfTick(t: Tick): Candle { Candle(t.ts, t.price, t.price, t.price, t.price, t.volume) }

  function OfTicks(ticks: seq<Tick>): (r: seq<Candle>) { seq(|ticks|, i requires 0 <= i < |ticks| => OfTick(ticks[i])) }

  /** The candle covering two consecutive stretches of trading. */
  function Merge(a: Candle, b: Candle): Candle {
    Candle(a.barTs, a.open, Max(a.high, b.high), Min(a.low, b.low), b.close, a.volume + b.volume)
  }

  function At(c: Candle, tf: Timeframe): Candle { c.(barTs := BarStart(c.barTs, tf)) }

  /** Extends the last bar when the stretch belongs to it, opens a new bar otherwise. */
  function Push(bars: seq<Candle>, c: Candle): (r: seq<Candle>)
    ensures |r| > 0 && |bars| <= |r| <= |bars| + 1
  {
    if bars != [] && Last(bars).barTs == c.barTs then Init(bars) + [Merge(Last(bars), c)] else bars + [c]
  }

  /** Candles of any resolution rolled up, in arrival order, into bars of a timeframe. */
  function RollUp(cs: seq<Candle>, tf: Timeframe): (bars: seq<Candle>)
    ensures cs != [] ==> bars != []
  {
    if cs == [] then [] else Push(RollUp(Init(cs), tf), At(Last(cs), tf))
  }

  /** The bars of a stream of ticks. */
  function Bars(ticks: seq<Tick>, tf: Timeframe): (bars: seq<Candle>)
    ensures ticks != [] ==> bars != []
  {
    RollUp(OfTicks(ticks), tf)
  }

  lemma RollUpSnoc(cs: seq<Candle>, c: Candle, tf: Timeframe)
    ensures RollUp(cs + [c], tf) == Push(RollUp(cs, tf), At(c, tf))
  {
    assert Init(cs + [c]) == cs;
  }

  lemma BarsSnoc(ticks: seq<Tick>, t: Tick, tf: Timeframe)
    ensures Bars(ticks + [t], tf) == Push(Bars(ticks, tf), At(OfTick(t), tf))
  {
    assert OfTicks(ticks + [t]) == OfTicks(ticks) + [OfTick(t)];
    RollUpSnoc(OfTicks(ticks), OfTick(t), tf);
  }

  /** Two candles of the same bar can be pushed one after the other or as one. */
  lemma PushMerged(bars: seq<Candle>, a: Candle, b: Candle)
    requires a.barTs == b.barTs
    ensures Push(Push(bars, a), b) == Push(bars, Merge(a, b))
  {
    var p := Push(bars, a);
    if bars != [] && Last(bars).barTs == a.barTs {
      assert Init(p) == Init(bars);
      assert Merge(Merge(Last(bars), a), b) == Merge(Last(bars), Merge(a, b));
    } else {
      assert Init(p) == bars;
    }
  }

  /** Rolling up through a nesting fine timeframe gives exactly the coarse bars, whatever order the input came in. */
  lemma {:induction false} RollUpCompose(cs: seq<Candle>, fine: Timeframe, coarse: Timeframe)
    requires Nests(fine, coarse)
    ensures RollUp(RollUp(cs, fine), coarse) == RollUp(cs, coarse)
  {
    hide Nests, FloorTo, NextBar, Aligned;
    if cs != [] {
      var ys, x := Init(cs), Last(cs);
      RollUpCompose(ys, fine, coarse);
      FloorThroughFine(x.barTs, fine, coarse);
      var r, xf, xc := RollUp(ys, fine), At(x, fine), At(x, coarse);
      assert At(xf, coarse) == xc;
      RollUpPush(r, xf, coarse);
    }
  }

  /** Pushing a candle and then rolling up is rolling up and then pushing it at the coarse bar. */
  lemma RollUpPush(bars: seq<Candle>, c: Candle, tf: Timeframe)
    ensures RollUp(Push(bars, c), tf) == Push(RollUp(bars, tf), At(c, tf))
  {
    hide FloorTo, NextBar, Aligned;
    if bars != [] && Last(bars).barTs == c.barTs {
      var q, last := Init(bars), Last(bars);
      RollUpSnoc(q, Merge(last, c), tf);
      assert At(Merge(last, c), tf) == Merge(At(last, tf), At(c, tf));
      PushMerged(RollUp(q, tf), At(last, tf), At(c, tf));
    } else {
      RollUpSnoc(bars, c, tf);
    }
  }

  /** Coarse bars of a tick stream are the roll-up of its fine bars. */
  lemma TimeframesAgree(ticks: seq<Tick>, fine: Timeframe, coarse: Timeframe)
    requires Nests(fine, coarse)
    ensures RollUp(Bars(ticks, fine), coarse) == Bars(ticks, coarse)
  {
    RollUpCompose(OfTicks(ticks), fine, coarse);
  }

  // ----- Bars are the group-by-bucket of the ticks -----

  predicate Chronological(ticks: seq<Tick>) { forall i, j :: 0 <= i < j < |ticks| ==> ticks[i].ts <= ticks[j].ts }

  /** The ticks of the bar that starts at `b`, in order of arrival. */
  function Bucket(ticks: seq<Tick>, b: nat, tf: Timeframe): seq<Tick> {
    if ticks == [] then []
    else Bucket(Init(ticks), b, tf) + (if BarStart(Last(ticks).ts, tf) == b then [Last(ticks)] else [])
  }

  function TickVolume(ticks: seq<Tick>): int {
    if ticks == [] then 0 else TickVolume(Init(ticks)) + Last(ticks).volume
  }

  /** The candle of a group of ticks, by definition. */
  predicate IsOhlcv(c: Candle, ticks: seq<Tick>) {
    && ticks != []
    && c.open == ticks[0].price && c.close == Last(ticks).price
    && (forall i :: 0 <= i < |ticks| ==> c.low <= ticks[i].price <= c.high)
    && (exists i :: 0 <= i < |ticks| && ticks[i].price == c.high)
    && (exists i :: 0 <= i < |ticks| && ticks[i].price == c.low)
    && c.volume == TickVolume(ticks)
  }

  predicate Ascending(bars: seq<Candle>) { forall i, j :: 0 <= i < j < |bars| ==> bars[i].barTs < bars[j].barTs }

  predicate Buckets(bars: seq<Candle>, ticks: seq<Tick>, tf: Timeframe) {
    && (forall i :: 0 <= i < |bars| ==> IsOhlcv(bars[i], Bucket(ticks, bars[i].barTs, tf)))
    && (forall i :: 0 <= i < |ticks| ==> HasBar(bars, BarStart(ticks[i].ts, tf)))
  }

  predicate HasBar(bars: seq<Candle>, b: nat) { exists j :: 0 <= j < |bars| && bars[j].barTs == b }

  lemma MergeOhlcv(c: Candle, group: seq<Tick>, t: Tick, tf: Timeframe)
    requires IsOhlcv(c, group)
    ensures IsOhlcv(Merge(c, At(OfTick(t), tf)), group + [t])
  {
    var g, m := group + [t], Merge(c, At(OfTick(t), tf));
    assert Init(g) == group && Last(g) == t;
    assert forall i :: 0 <= i < |group| ==> g[i] == group[i];
    var hi :| 0 <= hi < |group| && group[hi].price == c.high;
    var lo :| 0 <= lo < |group| && group[lo].price == c.low;
    assert g[if t.price > c.high then |group| else hi].price == m.high;
    assert g[if t.price < c.low then |group| else lo].price == m.low;
  }

  lemma SingleOhlcv(t: Tick, tf: Timeframe)
    ensures IsOhlcv(At(OfTick(t), tf), [t])
  {
    assert Init([t]) == [];
    assert [t][0] == t;
  }

  lemma LastBar(ticks: seq<Tick>, tf: Timeframe)
    requires ticks != []
    ensures Bars(ticks, tf) != []
    ensures Last(Bars(ticks, tf)).barTs == BarStart(Last(ticks).ts, tf)
  {
    hide FloorTo, NextBar, Aligned;
    assert ticks == Init(ticks) + [Last(ticks)];
    BarsSnoc(Init(ticks), Last(ticks), tf);
  }

  lemma {:induction false} EmptyBucket(ticks: seq<Tick>, b: nat, tf: Timeframe)
    requires forall i :: 0 <= i < |ticks| ==> BarStart(ticks[i].ts, tf) != b
    ensures Bucket(ticks, b, tf) == []
  {
    if ticks != [] {
      assert Last(ticks) == ticks[|ticks| - 1];
      assert forall i :: 0 <= i < |Init(ticks)| ==> Init(ticks)[i] == ticks[i];
      EmptyBucket(Init(ticks), b, tf);
    }
  }

  lemma BucketSnoc(ticks: seq<Tick>, t: Tick, b: nat, tf: Timeframe)
    ensures Bucket(ticks + [t], b, tf) == Bucket(ticks, b, tf) + (if BarStart(t.ts, tf) == b then [t] else [])
  {
    assert Init(ticks + [t]) == ticks;
  }

  lemma NoBars(tf: Timeframe)
    ensures Bars([], tf) == []
  {}

  /** In time order the bars are the group-by-bucket of the ticks, one per bucket, in ascending order. */
  lemma {:induction false} BarsAreBuckets(ticks: seq<Tick>, tf: Timeframe)
    requires Chronological(ticks)
    ensures Ascending(Bars(ticks, tf)) && Buckets(Bars(ticks, tf), ticks, tf)
  {
    hide FloorTo, NextBar, Aligned, IsOhlcv, Bars;
    if ticks == [] {
      NoBars(tf);
    } else {
      var past, t := Init(ticks), Last(ticks);
      assert ticks == past + [t];
      assert forall i :: 0 <= i < |past| ==> past[i] == ticks[i];
      BarsAreBuckets(past, tf);
      BarsSnoc(past, t, tf);
      BarsStep(Bars(past, tf), past, t, tf);
    }
  }

  lemma BarsStep(bars: seq<Candle>, past: seq<Tick>, t: Tick, tf: Timeframe)
    requires Ascending(bars) && Buckets(bars, past, tf) && Chronological(past + [t]) && bars == Bars(past, tf)
    ensures var r := Push(bars, At(OfTick(t), tf)); Ascending(r) && Buckets(r, past + [t], tf)
  {
    hide FloorTo, NextBar, Aligned, IsOhlcv, Bars, TickVolume, Merge;
    var b, c := BarStart(t.ts, tf), At(OfTick(t), tf);
    var r, ticks := Push(bars, c), past + [t];
    LastNotAfter(past, t, tf);
    if bars != [] && Last(bars).barTs == b {
      MergeKeepsBar(Last(bars), c);
    }
    forall i | 0 <= i < |r| ensures IsOhlcv(r[i], Bucket(ticks, r[i].barTs, tf)) {
      StepBucket(bars, past, t, tf, i);
    }
    forall i | 0 <= i < |ticks| ensures HasBar(r, BarStart(ticks[i].ts, tf)) {
      StepCovers(bars, past, t, tf, i);
    }
  }

  lemma StepCovers(bars: seq<Candle>, past: seq<Tick>, t: Tick, tf: Timeframe, i: nat)
    requires Buckets(bars, past, tf) && i <= |past|
    ensures HasBar(Push(bars, At(OfTick(t), tf)), BarStart((past + [t])[i].ts, tf))
  {
    hide FloorTo, NextBar, Aligned, IsOhlcv, Bucket;
    var b, r := BarStart(t.ts, tf), Push(bars, At(OfTick(t), tf));
    if i == |past| {
      assert r[|r| - 1].barTs == b;
    } else {
      assert HasBar(bars, BarStart(past[i].ts, tf));
      var j :| 0 <= j < |bars| && bars[j].barTs == BarStart(past[i].ts, tf);
      assert r[j].barTs == bars[j].barTs;
    }
  }

  lemma StepBucket(bars: seq<Candle>, past: seq<Tick>, t: Tick, tf: Timeframe, i: nat)
    requires Ascending(bars) && Buckets(bars, past, tf) && Chronological(past + [t]) && bars == Bars(past, tf)
    requires i < |Push(bars, At(OfTick(t), tf))|
    ensures var c := Push(bars, At(OfTick(t), tf))[i]; IsOhlcv(c, Bucket(past + [t], c.barTs, tf))
  {
    hide FloorTo, NextBar, Aligned, IsOhlcv, Bars, TickVolume, Merge, Bucket;
    var b, c := BarStart(t.ts, tf), At(OfTick(t), tf);
    LastNotAfter(past, t, tf);
    if i < |bars| && bars[i].barTs != b {
      BucketSnoc(past, t, bars[i].barTs, tf);
      assert Bucket(past + [t], bars[i].barTs, tf) == Bucket(past, bars[i].barTs, tf);
      assert Push(bars, c)[i] == bars[i];
    } else if i < |bars| {
      assert Last(bars).barTs == b && i == |bars| - 1;
      BucketSnoc(past, t, b, tf);
      MergeOhlcv(Last(bars), Bucket(past, b, tf), t, tf);
      MergeKeepsBar(Last(bars), c);
    } else {
      forall k | 0 <= k < |past| ensures BarStart(past[k].ts, tf) != b {
        assert HasBar(bars, BarStart(past[k].ts, tf));
        var j :| 0 <= j < |bars| && bars[j].barTs == BarStart(past[k].ts, tf);
        assert bars[j].barTs <= Last(bars).barTs;
      }
      EmptyBucket(past, b, tf);
      BucketSnoc(past, t, b, tf);
      assert Bucket(past + [t], b, tf) == [t];
      SingleOhlcv(t, tf);
    }
  }

  lemma MergeKeepsBar(a: Candle, b: Candle)
    ensures Merge(a, b).barTs == a.barTs
  {}

  lemma LastNotAfter(past: seq<Tick>, t: Tick, tf: Timeframe)
    requires Chronological(past + [t])
    ensures Bars(past, tf) != [] ==> past != [] && Last(Bars(past, tf)).barTs <= BarStart(t.ts, tf)
  {
    hide FloorTo, NextBar, Aligned;
    if past != [] {
      LastBar(past, tf);
      var ticks := past + [t];
      assert Last(past) == ticks[|past| - 1] && t == ticks[|past|];
      FloorIsMonotone(Last(past).ts, t.ts, tf);
    }
  }

  /** A bar passes validation exactly when its ticks are priced above zero and do not sum to a negative volume. */
  lemma ValidIff(c: Candle, ticks: seq<Tick>)
    requires IsOhlcv(c, ticks)
    ensures ValidCandle(c) <==> (forall i :: 0 <= i < |ticks| ==> ticks[i].price > 0.0) && TickVolume(ticks) >= 0
  {
    assert c.open == ticks[0].price;
    assert Last(ticks) == ticks[|ticks| - 1];
  }

  // ----- Emission -----

  function Flat(b: nat, close: real): Candle { Candle(b, close, close, close, close, 0) }

  /** The flat bars put in for missing ones: from `cursor` up to `target`, at most `left` of them. */
  function Fill(cursor: nat, target: nat, close: real, tf: Timeframe, left: int): seq<Candle>
    decreases left
  {
    if cursor >= target || left <= 0 then []
    else [Flat(cursor, close)] + Fill(NextBar(cursor, tf), target, close, tf, left - 1)
  }

  /** What has been emitted while the last bar is still open. */
  function Emission(bars: seq<Candle>, tf: Timeframe, max: int): seq<Candle>
    decreases |bars|, 0
  {
    if |bars| <= 1 then []
    else
      var prev := Last(Init(bars));
      Flushed(Init(bars), tf, max) + Fill(NextBar(prev.barTs, tf), Last(bars).barTs, prev.close, tf, max)
  }

  /** What has been emitted once the last bar is closed too. */
  function Flushed(bars: seq<Candle>, tf: Timeframe, max: int): seq<Candle>
    decreases |bars|, 1
  {
    if bars == [] then [] else Emission(bars, tf, max) + [Last(bars)]
  }

  lemma EmissionJoin(bars: seq<Candle>, c: Candle, tf: Timeframe, max: int)
    requires bars != [] && Last(bars).barTs == c.barTs
    ensures Emission(Push(bars, c), tf, max) == Emission(bars, tf, max)
  {
    assert Init(Push(bars, c)) == Init(bars);
  }

  lemma EmissionOpen(bars: seq<Candle>, c: Candle, tf: Timeframe, max: int)
    requires bars != [] ==> Last(bars).barTs != c.barTs
    ensures Emission(Push(bars, c), tf, max) == if bars == [] then [] else
      Emission(bars, tf, max) + [Last(bars)] + Fill(NextBar(Last(bars).barTs, tf), c.barTs, Last(bars).close, tf, max)
  {
    assert Init(bars + [c]) == bars;
  }

  /** A tick raises an error, and is lost, when it would close an invalid bar. */
  predicate Refused(session: seq<Tick>, t: Tick, tf: Timeframe) {
    && session != []
    && Last(Bars(session, tf)).barTs != BarStart(t.ts, tf)
    && !ValidCandle(Last(Bars(session, tf)))
  }

  function Accept(session: seq<Tick>, t: Tick, tf: Timeframe): seq<Tick> {
    if Refused(session, t, tf) then session else session + [t]
  }

  /** The aggregator of one symbol and one timeframe. `emitted` is what its callback has received. */
  class TimeframeAggregator {
    const timeframe: Timeframe
    const maxGapFill: int
    var current: Option<Candle>
    var emitted: seq<Candle>
    /** The ticks accepted since the last flush, and what had been emitted by then. */
    ghost var session: seq<Tick>
    ghost var flushed: seq<Candle>

    ghost predicate Valid()
      reads this
    {
      && emitted == flushed + Emission(Bars(session, timeframe), timeframe, maxGapFill)
      && current == if session == [] then None else Some(Last(Bars(session, timeframe)))
    }

    constructor (timeframe: Timeframe, maxGapFill: int)
      ensures Valid() && session == [] && flushed == [] && emitted == []
      ensures this.timeframe == timeframe && this.maxGapFill == maxGapFill
    {
      this.timeframe, this.maxGapFill := timeframe, maxGapFill;
      current, emitted := None, [];
      session, flushed := [], [];
    }

    method Add(price: real, volume: int, ts: nat) returns (ok: bool)
      requires Valid()
      modifies this
      ensures Valid() && flushed == old(flushed)
      ensures ok <==> !Refused(old(session), Tick(price, volume, ts), timeframe)
      ensures session == Accept(old(session), Tick(price, volume, ts), timeframe)
    {
      hide FloorTo, NextBar, Aligned, Emission, Fill, RollUp, ValidCandle;
      var barTs := BarStart(ts, timeframe);
      ghost var bars, t := Bars(session, timeframe), Tick(price, volume, ts);
      BarsSnoc(session, t, timeframe);
      if current == None {
        EmptySession(timeframe, maxGapFill);
        EmissionOpen(bars, At(OfTick(t), timeframe), timeframe, maxGapFill);
        current := Some(Candle(barTs, price, price, price, price, volume));
        session := session + [t];
        return true;
      }
      LastBar(session, timeframe);
      var c := current.value;
      if barTs == c.barTs {
        EmissionJoin(bars, At(OfTick(t), timeframe), timeframe, maxGapFill);
        current :=
          Some(c.(high := Max(c.high, price), low := Min(c.low, price), close := price, volume := c.volume + volume));
        session := session + [t];
        return true;
      }
      ok := CloseCurrent();
      if !ok {
        return;
      }
      EmissionOpen(bars, At(OfTick(t), timeframe), timeframe, maxGapFill);
      FillGap(NextBar(c.barTs, timeframe), barTs);
      current := Some(Candle(barTs, price, price, price, price, volume));
      session := session + [t];
    }

    method Flush() returns (ok: bool)
      requires Valid()
      modifies this
      ensures Valid()
      ensures ok <==> old(session) == [] || ValidCandle(Last(Bars(old(session), timeframe)))
      ensures ok ==>
        session == [] && flushed == old(flushed) + Flushed(Bars(old(session), timeframe), timeframe, maxGapFill)
      ensures !ok ==> session == old(session) && flushed == old(flushed)
    {
      EmptySession(timeframe, maxGapFill);
      hide Emission, RollUp, ValidCandle;
      if current == None {
        return true;
      }
      ok := CloseCurrent();
      if ok {
        flushed, session, current := emitted, [], None;
      }
    }

    /** Validates the working candle and emits it; an invalid one raises an error. */
    method CloseCurrent() returns (ok: bool)
      requires current.Some?
      modifies `emitted
      ensures ok <==> ValidCandle(current.value)
      ensures emitted == old(emitted) + (if ok then [current.value] else [])
    {
      ok := ValidCandle(current.value);
      if ok {
        emitted := emitted + [current.value];
      }
    }

    method FillGap(gapStart: nat, target: nat)
      requires current.Some?
      modifies `emitted
      ensures emitted == old(emitted) + Fill(gapStart, target, current.value.close, timeframe, maxGapFill)
    {
      hide NextBar;
      var lastClose, cursor: nat, filled := current.value.close, gapStart, 0;
      while cursor < target && filled < maxGapFill
        invariant emitted + Fill(cursor, target, lastClose, timeframe, maxGapFill - filled)
          == old(emitted) + Fill(gapStart, target, lastClose, timeframe, maxGapFill)
        decreases maxGapFill - filled
      {
        emitted := emitted + [Flat(cursor, lastClose)];
        cursor, filled := NextBar(cursor, timeframe), filled + 1;
      }
    }
  }

  lemma EmptySession(tf: Timeframe, max: int)
    ensures Bars([], tf) == [] && Emission([], tf, max) == []
  {}
}
