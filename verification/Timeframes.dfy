/**
 * Bar boundaries (`floor_to_timeframe` and `next_bar` of `candle_builder.py`). A timestamp is the
 * number of microseconds since 0001-01-01T00:00 UTC, the earliest datetime.
 */
module Timeframes {

  const MINUTE: nat := 60_000_000
  const DAY: nat := 1440 * MINUTE
  const EPOCH: nat := 719162 * DAY

  datatype Timeframe = M1 | M3 | M5 | M15 | M30 | H1 | H4 | D1 | W1 | MONTH

  /** The table of bar lengths in minutes. */
  function Minutes(tf: Timeframe): (m: nat)
    requires tf != MONTH
    ensures m > 0
  {
    match tf
    case M1 => 1
    case M3 => 3
    case M5 => 5
    case M15 => 15
    case M30 => 30
    case H1 => 60
    case H4 => 240
    case D1 => 1440
    case W1 => 10080
  }

  function Period(tf: Timeframe): (p: nat)
    requires tf != MONTH
    ensures p > 0
  {
    Minutes(tf) * MINUTE
  }

  // ----- Integer division -----

  lemma MulSign(k: int, n: int)
    requires n >= 0
    ensures k >= 0 ==> k * n >= 0
    ensures k >= 1 ==> k * n >= n
    ensures k <= -1 ==> k * n <= -n
  {
    if k >= 1 {
      assert k * n == (k - 1) * n + n && (k - 1) * n >= 0;
    } else if k <= -1 {
      assert k * n == (k + 1) * n - n && (k + 1) * n <= 0;
    }
  }

  lemma QuotientUnique(x: int, n: nat, q: int, r: int)
    requires n > 0 && x == q * n + r && 0 <= r < n
    ensures x / n == q && x % n == r
  {
    var q', r' := x / n, x % n;
    Distribute(q, -q', n);
    assert (q - q') * n == r' - r by {
      assert x == q' * n + r';
      assert -q' * n == -(q' * n);
    }
    MulSign(q - q', n);
  }

  lemma Distribute(a: int, b: int, c: int)
    ensures (a + b) * c == a * c + b * c
  {}

  lemma Associate(a: int, b: int, c: int)
    ensures a * (b * c) == a * b * c
  {}

  lemma FloorByRemainder(x: int, n: nat, b: int)
    requires n > 0 && b <= x < b + n && b % n == 0
    ensures b == x - x % n
  {
    QuotientUnique(x, n, b / n, x - b);
  }

  /** Rounding down to a multiple of `n`. */
  lemma RoundDown(x: int, n: nat)
    requires n > 0
    ensures x - x % n <= x < x - x % n + n && (x - x % n) % n == 0
  {
    QuotientUnique(x - x % n, n, x / n, 0);
  }

  lemma FloorParts(x: int, unit: nat, k: nat, m: int, r1: int, q: int, r2: int)
    requires unit > 0 && k > 0
    requires x == m * unit + r1 && 0 <= r1 < unit && m == q * k + r2 && 0 <= r2 < k
    ensures k * unit > 0 && x == q * (k * unit) + (r2 * unit + r1) && 0 <= r2 * unit + r1 < k * unit
    ensures (m - r2) * unit == q * (k * unit)
  {
    MulSign(k - 1 - r2, unit);
    MulSign(r2, unit);
    MulSign(k, unit);
    Distribute(k - 1 - r2, r2 + 1, unit);
    Distribute(r2, 1, unit);
    Distribute(q * k, r2, unit);
    Associate(q, k, unit);
  }

  /** Flooring to whole units and then to a multiple of `k` units is flooring to that multiple. */
  lemma FloorInUnits(x: int, unit: nat, k: nat)
    requires unit > 0 && k > 0
    ensures k * unit > 0 && (x / unit - x / unit % k) * unit == x - x % (k * unit)
  {
    var m, r1 := x / unit, x % unit;
    var q, r2 := m / k, m % k;
    FloorParts(x, unit, k, m, r1, q, r2);
    QuotientUnique(x, k * unit, q, r2 * unit + r1);
  }

  lemma ShiftedRemainder(x: int, n: int, shift: int)
    requires n > 0 && shift % n == 0
    ensures (x - shift) % n == x % n
  {
    var q := shift / n;
    Distribute(x / n - q, q, n);
    assert (x / n - q) * n == x / n * n - q * n;
    QuotientUnique(x - shift, n, x / n - q, x % n);
  }

  lemma MultipleOf(d: nat, a: nat, p: nat)
    requires p > 0 && a % p == 0
    ensures d * a % p == 0
  {
    Associate(d, a / p, p);
    assert a == a / p * p;
    QuotientUnique(d * a, p, d * (a / p), 0);
  }

  lemma UnitBounds(x: nat, unit: nat, from: nat, to: nat)
    requires unit > 0
    ensures from <= x / unit < to <==> from * unit <= x < to * unit
  {
    var q := x / unit;
    assert x == q * unit + x % unit;
    MulSign(q - from, unit);
    Distribute(q - from, from, unit);
    MulSign(to - q, unit);
    Distribute(to - q, q, unit);
  }

  // ----- The Gregorian calendar -----

  predicate Leap(year: nat) { year % 4 == 0 && (year % 100 != 0 || year % 400 == 0) }

  /** Length of the m-th month since January of year 1. */
  function DaysIn(m: nat): (d: nat)
    ensures 28 <= d <= 31
  {
    if m % 12 == 1 then (if Leap(m / 12 + 1) then 29 else 28)
    else if m % 12 in {3, 5, 8, 10} then 30
    else 31
  }

  /** First day of the m-th month, counting days from 0001-01-01. */
  function MonthStart(m: nat): nat {
    if m == 0 then 0 else MonthStart(m - 1) + DaysIn(m - 1)
  }

  lemma NextMonth(m: nat)
    ensures MonthStart(m + 1) == MonthStart(m) + DaysIn(m)
  {}

  lemma DaysInMonth(y: nat, k: nat)
    requires k < 12
    ensures DaysIn(12 * y + k) ==
      if k == 1 then (if Leap(y + 1) then 29 else 28) else if k in {3, 5, 8, 10} then 30 else 31
  {
    QuotientUnique(12 * y + k, 12, y, k);
    hide Leap;
  }

  /** Days before the k-th month of a year, counted from the start of the year. */
  lemma {:induction false} WithinYear(y: nat, k: nat)
    requires k <= 12
    ensures MonthStart(12 * y + k) == MonthStart(12 * y) + (if k >= 2 && Leap(y + 1) then 1 else 0) +
      [0, 31, 59, 90, 120, 151, 181, 212, 243, 273, 304, 334, 365][k]
  {
    hide MonthStart, Leap, DaysIn;
    if k > 0 {
      WithinYear(y, k - 1);
      NextMonth(12 * y + k - 1);
      DaysInMonth(y, k - 1);
    }
  }

  lemma DivStep(y: nat, n: nat)
    requires y > 0 && n > 0
    ensures y / n == (y - 1) / n + (if y % n == 0 then 1 else 0)
  {
    var q, r := y / n, y % n;
    if r == 0 {
      Distribute(q - 1, 1, n);
      QuotientUnique(y - 1, n, q - 1, n - 1);
    } else {
      QuotientUnique(y - 1, n, q, r - 1);
    }
  }

  lemma OneMoreLeap(y: nat)
    requires y > 0
    ensures y / 4 - y / 100 + y / 400 == (y - 1) / 4 - (y - 1) / 100 + (y - 1) / 400 + (if Leap(y) then 1 else 0)
  {
    DivStep(y, 4);
    DivStep(y, 100);
    DivStep(y, 400);
    if y % 400 == 0 {
      MultipleOfMultiple(y, 400, 100);
    }
    if y % 100 == 0 {
      MultipleOfMultiple(y, 100, 4);
    }
  }

  /** The months add up to the Gregorian calendar: days before a year by the usual count of leap years. */
  lemma {:induction false} DaysBeforeYear(y: nat)
    ensures MonthStart(12 * y) == 365 * y + y / 4 - y / 100 + y / 400
  {
    if y > 0 {
      DaysBeforeYear(y - 1);
      WithinYear(y - 1, 12);
      OneMoreLeap(y);
      hide MonthStart, Leap;
      assert 12 * (y - 1) + 12 == 12 * y;
    }
  }

  /** The Unix epoch is the first day of 1970. */
  lemma EpochIsNewYear1970()
    ensures EPOCH == MonthStart(12 * 1969) * DAY
  {
    hide MonthStart;
    DaysBeforeYear(1969);
  }

  /** The month that a day belongs to, searched forward from `m`. */
  function MonthFrom(day: nat, m: nat): (r: nat)
    requires MonthStart(m) <= day
    ensures MonthStart(r) <= day < MonthStart(r + 1)
    decreases day - MonthStart(m)
  {
    if MonthStart(m + 1) <= day then MonthFrom(day, m + 1) else m
  }

  function MonthOf(day: nat): (r: nat)
    ensures MonthStart(r) <= day < MonthStart(r + 1)
  {
    MonthFrom(day, 0)
  }

  lemma {:induction false} MonthsIncrease(m: nat, n: nat)
    requires m <= n
    ensures MonthStart(m) <= MonthStart(n)
    decreases n
  {
    if m < n {
      MonthsIncrease(m, n - 1);
    }
  }

  lemma MonthOfUnique(day: nat, m: nat)
    requires MonthStart(m) <= day < MonthStart(m + 1)
    ensures MonthOf(day) == m
  {
    var r := MonthOf(day);
    if r < m {
      MonthsIncrease(r + 1, m);
    } else if r > m {
      MonthsIncrease(m + 1, r);
    }
  }

  // ----- Flooring and stepping -----

  /** Start of the bar that contains `ts`. */
  function FloorTo(ts: nat, tf: Timeframe): int {
    match tf
    case MONTH => MonthStart(MonthOf(ts / DAY)) * DAY
    case W1 => (ts / DAY - ts / DAY % 7) * DAY
    case D1 => ts / DAY * DAY
    case _ =>
      var totalMinutes := (ts - EPOCH) / MINUTE;
      EPOCH + (totalMinutes - totalMinutes % Minutes(tf)) * MINUTE
  }

  /** Start of the bar after the one that starts at `barTs`. */
  function NextBar(barTs: nat, tf: Timeframe): nat {
    if tf == MONTH then MonthStart(MonthOf(barTs / DAY) + 1) * DAY else barTs + Minutes(tf) * MINUTE
  }

  predicate Aligned(b: nat, tf: Timeframe) { FloorTo(b, tf) == b }

  /** A day is a whole number of bars of every timeframe up to a day. */
  lemma DayIsWhole(tf: Timeframe)
    requires tf != MONTH && tf != W1
    ensures DAY % Period(tf) == 0
  {}

  lemma IntradayFloor(ts: nat, tf: Timeframe)
    requires tf != MONTH && tf != W1 && tf != D1
    ensures FloorTo(ts, tf) == ts - ts % Period(tf)
  {
    var shift := EPOCH;
    assert EPOCH % Period(tf) == 0 by {
      DayIsWhole(tf);
      MultipleOf(719162, DAY, Period(tf));
    }
    hide MonthOf, Minutes;
    FloorInUnits(ts - shift, MINUTE, Minutes(tf));
    ShiftedRemainder(ts, Period(tf), shift);
  }

  lemma DailyFloor(ts: nat, tf: Timeframe)
    requires tf == D1 || tf == W1
    ensures FloorTo(ts, tf) == ts - ts % Period(tf)
  {
    hide MonthOf;
    FloorInUnits(ts, DAY, if tf == D1 then 1 else 7);
  }

  /** Every fixed-length timeframe floors to multiples of its period since 0001-01-01, a Monday. */
  lemma FixedFloor(ts: nat, tf: Timeframe)
    requires tf != MONTH
    ensures FloorTo(ts, tf) == ts - ts % Period(tf) >= 0
  {
    hide FloorTo, Period;
    if tf == D1 || tf == W1 {
      DailyFloor(ts, tf);
    } else {
      IntradayFloor(ts, tf);
    }
    QuotientUnique(ts, Period(tf), ts / Period(tf), ts % Period(tf));
    MulSign(ts / Period(tf), Period(tf));
  }

  lemma MonthFloor(ts: nat)
    ensures var m := MonthOf(ts / DAY);
      && FloorTo(ts, MONTH) == MonthStart(m) * DAY
      && MonthStart(m) * DAY <= ts < MonthStart(m + 1) * DAY
  {
    hide MonthOf, MonthStart;
    var m := MonthOf(ts / DAY);
    UnitBounds(ts, DAY, MonthStart(m), MonthStart(m + 1));
  }

  /** The first instant of a month belongs to that month. */
  lemma MonthStartIsAligned(m: nat)
    ensures MonthStart(m) * DAY / DAY == MonthStart(m)
    ensures MonthOf(MonthStart(m)) == m && Aligned(MonthStart(m) * DAY, MONTH)
    ensures NextBar(MonthStart(m) * DAY, MONTH) == MonthStart(m + 1) * DAY
  {
    QuotientUnique(MonthStart(m) * DAY, DAY, MonthStart(m), 0);
    MonthOfUnique(MonthStart(m), m);
    hide MonthOf, MonthStart;
  }

  /** The bar that starts at `FloorTo(ts)` contains `ts` and starts on its own boundary. */
  lemma BarContains(ts: nat, tf: Timeframe)
    ensures 0 <= FloorTo(ts, tf) <= ts < NextBar(FloorTo(ts, tf), tf)
    ensures Aligned(FloorTo(ts, tf), tf)
  {
    hide MonthOf, MonthStart, FloorTo, Minutes;
    if tf == MONTH {
      MonthFloor(ts);
      MonthStartIsAligned(MonthOf(ts / DAY));
    } else {
      FixedFloor(ts, tf);
      RoundDown(ts, Period(tf));
      FixedFloor(FloorTo(ts, tf), tf);
    }
  }

  /** A bar holds exactly the timestamps from its start up to the start of the next bar. */
  lemma BarUnique(ts: nat, b: nat, tf: Timeframe)
    requires Aligned(b, tf) && b <= ts < NextBar(b, tf)
    ensures FloorTo(ts, tf) == b
  {
    hide MonthOf, MonthStart, FloorTo, Minutes;
    if tf == MONTH {
      var m := MonthOf(b / DAY);
      MonthFloor(b);
      MonthFloor(ts);
      UnitBounds(ts, DAY, MonthStart(m), MonthStart(m + 1));
      MonthOfUnique(ts / DAY, m);
    } else {
      FixedFloor(b, tf);
      FixedFloor(ts, tf);
      FloorByRemainder(ts, Period(tf), b);
    }
  }

  lemma NextIsAligned(b: nat, tf: Timeframe)
    requires Aligned(b, tf)
    ensures Aligned(NextBar(b, tf), tf) && b < NextBar(b, tf)
  {
    hide MonthOf, MonthStart, FloorTo, Minutes;
    if tf == MONTH {
      MonthFloor(b);
      MonthStartIsAligned(MonthOf(b / DAY) + 1);
    } else {
      FixedFloor(b, tf);
      FixedFloor(b + Period(tf), tf);
      ShiftedRemainder(b + Period(tf), Period(tf), Period(tf));
    }
  }

  lemma FloorIsMonotone(s: nat, t: nat, tf: Timeframe)
    requires s <= t
    ensures FloorTo(s, tf) <= FloorTo(t, tf)
  {
    hide FloorTo, NextBar;
    BarContains(s, tf);
    BarContains(t, tf);
    if FloorTo(t, tf) < FloorTo(s, tf) {
      BarUnique(s, FloorTo(t, tf), tf);
    }
  }

  // ----- Nesting -----

  /** Every bar of the coarse timeframe is a whole number of bars of the fine one. */
  predicate Nests(fine: Timeframe, coarse: Timeframe) {
    if coarse == MONTH then fine != W1
    else fine != MONTH && Minutes(coarse) % Minutes(fine) == 0
  }

  /** Multiples of a multiple of a period are boundaries. */
  lemma MultipleIsAligned(b: nat, whole: nat, tf: Timeframe)
    requires tf != MONTH && whole > 0 && whole % Period(tf) == 0 && b % whole == 0
    ensures Aligned(b, tf)
  {
    hide FloorTo, Period;
    MultipleOfMultiple(b, whole, Period(tf));
    FixedFloor(b, tf);
  }

  lemma MultipleOfMultiple(b: nat, whole: nat, p: nat)
    requires p > 0 && whole > 0 && whole % p == 0 && b % whole == 0
    ensures b % p == 0
  {
    MultipleOf(b / whole, whole, p);
    assert b / whole * whole == b;
  }

  lemma CoarseBoundaryIsFine(b: nat, fine: Timeframe, coarse: Timeframe)
    requires Nests(fine, coarse) && Aligned(b, coarse)
    ensures Aligned(b, fine)
  {
    hide MonthOf, MonthStart, FloorTo, Period, Minutes;
    if coarse != MONTH {
      FixedFloor(b, coarse);
      PeriodsDivide(fine, coarse);
      MultipleIsAligned(b, Period(coarse), fine);
    } else if fine != MONTH {
      MonthBoundaryIsFine(b, fine);
    }
  }

  lemma MonthBoundaryIsFine(b: nat, fine: Timeframe)
    requires fine != MONTH && fine != W1 && Aligned(b, MONTH)
    ensures Aligned(b, fine)
  {
    hide MonthOf, MonthStart, FloorTo, Period;
    MonthFloor(b);
    QuotientUnique(b, DAY, MonthStart(MonthOf(b / DAY)), 0);
    DayIsWhole(fine);
    MultipleIsAligned(b, DAY, fine);
  }

  lemma PeriodsDivide(fine: Timeframe, coarse: Timeframe)
    requires fine != MONTH && coarse != MONTH && Minutes(coarse) % Minutes(fine) == 0
    ensures Period(coarse) % Period(fine) == 0
  {
    hide Minutes;
    var k := Minutes(coarse) / Minutes(fine);
    Associate(k, Minutes(fine), MINUTE);
    QuotientUnique(Period(coarse), Period(fine), k, 0);
  }

  /** Flooring to the fine timeframe first does not change the coarse bar. */
  lemma FloorThroughFine(t: nat, fine: Timeframe, coarse: Timeframe)
    requires Nests(fine, coarse)
    ensures FloorTo(t, fine) >= 0 && FloorTo(FloorTo(t, fine), coarse) == FloorTo(t, coarse)
  {
    hide FloorTo, NextBar;
    var b := FloorTo(t, coarse);
    BarContains(t, coarse);
    BarContains(t, fine);
    CoarseBoundaryIsFine(b, fine, coarse);
    FloorIsMonotone(b, t, fine);
    BarUnique(FloorTo(t, fine), b, coarse);
  }

  /** A start of a coarse bar that is not a start of a fine bar. */
  function Misaligned(fine: Timeframe, coarse: Timeframe): nat
  {
    if coarse == MONTH then 31 * DAY else Minutes(coarse) * MINUTE
  }

  lemma MisalignedWitness(fine: Timeframe, coarse: Timeframe)
    requires !Nests(fine, coarse)
    ensures var t := Misaligned(fine, coarse); Aligned(t, coarse) && !Aligned(t, fine)
  {
    hide FloorTo, Aligned;
    if coarse == MONTH {
      SecondMonth();
    } else if fine == MONTH {
      FixedBarIsAligned(coarse);
      FirstMonth(Misaligned(fine, coarse));
    } else {
      FixedBarIsAligned(coarse);
      FixedMisaligned(fine, coarse);
    }
  }

  lemma FixedMisaligned(fine: Timeframe, coarse: Timeframe)
    requires fine != MONTH && coarse != MONTH && Minutes(coarse) % Minutes(fine) != 0
    ensures !Aligned(Period(coarse), fine)
  {
    hide FloorTo, Minutes;
    FixedFloor(Period(coarse), fine);
    if Period(coarse) % Period(fine) == 0 {
      PeriodQuotient(fine, coarse);
    }
  }

  lemma FixedBarIsAligned(tf: Timeframe)
    requires tf != MONTH
    ensures Aligned(Period(tf), tf)
  {
    hide FloorTo, Minutes;
    FixedFloor(Period(tf), tf);
    QuotientUnique(Period(tf), Period(tf), 1, 0);
  }

  /** February of year 1 starts on a Thursday. */
  lemma SecondMonth()
    ensures Aligned(31 * DAY, MONTH) && !Aligned(31 * DAY, W1)
  {
    assert MonthStart(1) == 31;
    MonthStartIsAligned(1);
    QuotientUnique(31 * DAY, DAY, 31, 0);
  }

  lemma PeriodQuotient(fine: Timeframe, coarse: Timeframe)
    requires fine != MONTH && coarse != MONTH && Period(coarse) % Period(fine) == 0
    ensures Minutes(coarse) % Minutes(fine) == 0
  {
    hide Minutes;
    var q := Period(coarse) / Period(fine);
    Associate(q, Minutes(fine), MINUTE);
    assert Minutes(coarse) == q * Minutes(fine);
    QuotientUnique(Minutes(coarse), Minutes(fine), q, 0);
  }

  lemma FirstMonth(t: nat)
    requires t < 31 * DAY
    ensures FloorTo(t, MONTH) == 0 && (t > 0 ==> !Aligned(t, MONTH))
  {
    assert MonthStart(1) == 31;
    UnitBounds(t, DAY, 0, 31);
    MonthOfUnique(t / DAY, 0);
  }

  /** The nesting table is exact: it lists precisely the pairs for which flooring composes at every instant. */
  lemma NestingIsExact(fine: Timeframe, coarse: Timeframe)
    ensures Nests(fine, coarse) <==>
      forall t: nat :: FloorTo(t, fine) >= 0 && FloorTo(FloorTo(t, fine), coarse) == FloorTo(t, coarse)
  {
    hide FloorTo, NextBar;
    if Nests(fine, coarse) {
      forall t: nat ensures FloorTo(t, fine) >= 0 && FloorTo(FloorTo(t, fine), coarse) == FloorTo(t, coarse) {
        FloorThroughFine(t, fine, coarse);
      }
    } else {
      var t := Misaligned(fine, coarse);
      MisalignedWitness(fine, coarse);
      BarContains(t, fine);
      BarContains(FloorTo(t, fine), coarse);
    }
  }
}
