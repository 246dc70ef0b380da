/** Transaction costs of Indian markets (`costs.py`), unrounded, and their round-trip rate (`walk_forward.py`). */
module Costs {

  import opened Common
  import opened PaperEngine

  datatype Segment = EQUITY_DELIVERY | EQUITY_INTRADAY | FUTURES | OPTIONS

  datatype CostBreakdown = CostBreakdown(
    brokerage: real, stt: real, exchangeTxn: real, gst: real, sebi: real, stampDuty: real)
  {
    function Total(): real { brokerage + stt + exchangeTxn + gst + sebi + stampDuty }
  }

  datatype IndianCostModel = IndianCostModel(
    brokerageFlat: real, brokeragePct: real,
    exchTxnEquity: real, exchTxnFutures: real, exchTxnOptions: real,
    gstRate: real, sebiRate: real,
    sttDelivery: real, sttIntradaySell: real, sttFuturesSell: real, sttOptionsSell: real,
    stampDelivery: real, stampIntraday: real, stampFutures: real, stampOptions: real)
  {
    function Brokerage(segment: Segment, turnover: real): real {
      if segment == EQUITY_DELIVERY then 0.0
      else
        var pct := brokeragePct * turnover;
        if brokerageFlat <= 0.0 then pct
        else if pct > 0.0 then Min(brokerageFlat, pct)
        else 0.0
    }

    function Stt(segment: Segment, side: Side, turnover: real): real {
      match segment
      case EQUITY_DELIVERY => sttDelivery * turnover
      case EQUITY_INTRADAY => if side == SELL then sttIntradaySell * turnover else 0.0
      case FUTURES => if side == SELL then sttFuturesSell * turnover else 0.0
      case OPTIONS => if side == SELL then sttOptionsSell * turnover else 0.0
    }

    function ExchTxn(segment: Segment, turnover: real): real {
      match segment
      case EQUITY_DELIVERY => exchTxnEquity * turnover
      case EQUITY_INTRADAY => exchTxnEquity * turnover
      case FUTURES => exchTxnFutures * turnover
      case OPTIONS => exchTxnOptions * turnover
    }

    function Stamp(segment: Segment, side: Side, turnover: real): real {
      if side != BUY then 0.0
      else match segment
        case EQUITY_DELIVERY => stampDelivery * turnover
        case EQUITY_INTRADAY => stampIntraday * turnover
        case FUTURES => stampFutures * turnover
        case OPTIONS => stampOptions * turnover
    }

    function Charges(notional: real, side: Side, segment: Segment): CostBreakdown {
      var turnover := Abs(notional);
      var brokerage := Brokerage(segment, turnover);
      var exch := ExchTxn(segment, turnover);
      var sebi := sebiRate * turnover;
      var stt := Stt(segment, side, turnover);
      var stamp := Stamp(segment, side, turnover);
      var gst := gstRate * (brokerage + exch + sebi);
      CostBreakdown(brokerage, stt, exch, gst, sebi, stamp)
    }

    /** One side's cost. */
    function Charge(notional: real, side: Side, segment: Segment): real { Charges(notional, side, segment).Total() }

    predicate NonNegative() {
      && brokeragePct >= 0.0 && exchTxnEquity >= 0.0 && exchTxnFutures >= 0.0 && exchTxnOptions >= 0.0
      && gstRate >= 0.0 && sebiRate >= 0.0
      && sttDelivery >= 0.0 && sttIntradaySell >= 0.0 && sttFuturesSell >= 0.0 && sttOptionsSell >= 0.0
      && stampDelivery >= 0.0 && stampIntraday >= 0.0 && stampFutures >= 0.0 && stampOptions >= 0.0
    }

    /** The rate of everything that is proportional to turnover. */
    function Slope(side: Side, segment: Segment): real {
      Stt(segment, side, 1.0) + Stamp(segment, side, 1.0) + (1.0 + gstRate) * (ExchTxn(segment, 1.0) + sebiRate)
    }
  }

  /** Volatility- and size-aware slippage in basis points. */
  datatype SlippageModel = SlippageModel(baseSpreadBps: real, kVolBps: real, kSizeBps: real) {
    function OffsetBps(atrPct: real, sizeRatio: real): real {
      baseSpreadBps / 2.0 + kVolBps * Max(0.0, atrPct) + kSizeBps * Max(0.0, sizeRatio)
    }
  }

  function RoundtripCostBps(m: IndianCostModel, slippage: SlippageModel, notional: real, segment: Segment,
      atrPct: real): real
  {
    var buy := m.Charge(notional, BUY, segment);
    var sell := m.Charge(notional, SELL, segment);
    var costBps := if notional > 0.0 then (buy + sell) / notional * 10000.0 else 0.0;
    costBps + 2.0 * slippage.OffsetBps(atrPct, 0.0)
  }

  // ----- Products of reals -----

  lemma AddUp(k: real, x: real, y: real)
    ensures k * (x + y) == k * x + k * y
  {}

  lemma Regroup(a: real, p: real, c: real)
    ensures a * (p * c) == c * (p * a)
  {}

  lemma Expand(stt: real, stamp: real, gst: real, exch: real, sebi: real, t: real, b: real)
    ensures b + stt * t + exch * t + gst * (b + exch * t + sebi * t) + sebi * t + stamp * t ==
      (stt + stamp + (1.0 + gst) * (exch + sebi)) * t + (1.0 + gst) * b
  {
    var x := exch + sebi;
    assert gst * (b + exch * t + sebi * t) == gst * b + gst * (x * t);
    assert (stt + stamp + (1.0 + gst) * x) * t == stt * t + stamp * t + x * t + gst * x * t;
  }

  // ----- The shape of a charge -----

  lemma PartsAreProportional(m: IndianCostModel, side: Side, segment: Segment, t: real)
    ensures m.ExchTxn(segment, t) == m.ExchTxn(segment, 1.0) * t
    ensures m.Stt(segment, side, t) == m.Stt(segment, side, 1.0) * t
    ensures m.Stamp(segment, side, t) == m.Stamp(segment, side, 1.0) * t
  {}

  /** A charge is a proportional part plus brokerage with its tax. */
  lemma ChargeShape(m: IndianCostModel, notional: real, side: Side, segment: Segment)
    ensures m.Charge(notional, side, segment) ==
      m.Slope(side, segment) * Abs(notional) + (1.0 + m.gstRate) * m.Brokerage(segment, Abs(notional))
  {
    hide IndianCostModel.Brokerage, IndianCostModel.ExchTxn, IndianCostModel.Stt, IndianCostModel.Stamp;
    var t := Abs(notional);
    PartsAreProportional(m, side, segment, t);
    Expand(m.Stt(segment, side, 1.0), m.Stamp(segment, side, 1.0), m.gstRate, m.ExchTxn(segment, 1.0), m.sebiRate,
           t, m.Brokerage(segment, t));
  }

  /** Who pays what: stamp duty is the buyer's, transaction tax the seller's except on delivery, where both pay it. */
  lemma SidesPay(m: IndianCostModel, notional: real, segment: Segment)
    ensures var t, buy, sell := Abs(notional), m.Charges(notional, BUY, segment), m.Charges(notional, SELL, segment);
      && sell.stampDuty == 0.0
      && (segment == EQUITY_DELIVERY ==>
           buy.stt == sell.stt == m.sttDelivery * t && buy.stampDuty == m.stampDelivery * t)
      && (segment == EQUITY_INTRADAY ==>
           buy.stt == 0.0 && sell.stt == m.sttIntradaySell * t && buy.stampDuty == m.stampIntraday * t)
      && (segment == FUTURES ==>
           buy.stt == 0.0 && sell.stt == m.sttFuturesSell * t && buy.stampDuty == m.stampFutures * t)
      && (segment == OPTIONS ==>
           buy.stt == 0.0 && sell.stt == m.sttOptionsSell * t && buy.stampDuty == m.stampOptions * t)
  {}

  /** Both sides pay the same exchange and regulator fees and the same brokerage, none on delivery and never more than
      the flat fee where there is one, and the service tax on these three alone. */
  lemma CommonCharges(m: IndianCostModel, notional: real, segment: Segment)
    requires m.NonNegative()
    ensures var t, buy, sell := Abs(notional), m.Charges(notional, BUY, segment), m.Charges(notional, SELL, segment);
      && buy.brokerage == sell.brokerage && buy.exchangeTxn == sell.exchangeTxn
      && buy.sebi == sell.sebi == m.sebiRate * t
      && buy.gst == sell.gst == m.gstRate * (buy.brokerage + buy.exchangeTxn + buy.sebi)
      && buy.exchangeTxn == t * (match segment
           case EQUITY_DELIVERY => m.exchTxnEquity case EQUITY_INTRADAY => m.exchTxnEquity
           case FUTURES => m.exchTxnFutures case OPTIONS => m.exchTxnOptions)
      && (segment == EQUITY_DELIVERY ==> buy.brokerage == 0.0)
      && (segment != EQUITY_DELIVERY ==>
           && buy.brokerage <= m.brokeragePct * t && (m.brokerageFlat > 0.0 ==> buy.brokerage <= m.brokerageFlat)
           && (buy.brokerage == m.brokeragePct * t || (m.brokerageFlat > 0.0 && buy.brokerage == m.brokerageFlat)))
  {
    BrokerageCases(m, segment, Abs(notional));
    hide IndianCostModel.Brokerage;
  }

  lemma SlopeNonNegative(m: IndianCostModel, side: Side, segment: Segment)
    requires m.NonNegative()
    ensures m.Slope(side, segment) >= 0.0
  {
    assert m.Stt(segment, side, 1.0) >= 0.0 && m.Stamp(segment, side, 1.0) >= 0.0 && m.ExchTxn(segment, 1.0) >= 0.0;
    hide IndianCostModel.ExchTxn, IndianCostModel.Stt, IndianCostModel.Stamp;
    var k, x := 1.0 + m.gstRate, m.ExchTxn(segment, 1.0) + m.sebiRate;
    assert k * x >= 0.0;
    assert m.Slope(side, segment) == m.Stt(segment, side, 1.0) + m.Stamp(segment, side, 1.0) + k * x;
  }

  lemma BrokerageCases(m: IndianCostModel, segment: Segment, t: real)
    requires m.NonNegative() && t >= 0.0
    ensures m.brokeragePct * t >= 0.0
    ensures m.Brokerage(segment, t) ==
      if segment == EQUITY_DELIVERY then 0.0
      else if m.brokerageFlat <= 0.0 then m.brokeragePct * t
      else Min(m.brokerageFlat, m.brokeragePct * t)
  {
    Scale(m.brokeragePct, 0.0, t);
  }

  /** Brokerage grows with turnover and gains nothing from splitting. */
  lemma BrokerageGrows(m: IndianCostModel, segment: Segment, a: real, b: real)
    requires m.NonNegative() && a >= 0.0 && b >= 0.0
    ensures 0.0 <= m.Brokerage(segment, a) <= m.Brokerage(segment, a + b)
    ensures m.Brokerage(segment, a + b) <= m.Brokerage(segment, a) + m.Brokerage(segment, b)
  {
    BrokerageCases(m, segment, a);
    BrokerageCases(m, segment, b);
    BrokerageCases(m, segment, a + b);
    AddUp(m.brokeragePct, a, b);
    hide IndianCostModel.Brokerage, IndianCostModel.NonNegative;
  }

  /** The rate of brokerage falls with size. */
  lemma BrokerageRateFalls(m: IndianCostModel, segment: Segment, a: real, b: real)
    requires m.NonNegative() && a >= 0.0 && b >= 0.0
    ensures a * m.Brokerage(segment, a + b) <= (a + b) * m.Brokerage(segment, a)
  {
    BrokerageCases(m, segment, a);
    BrokerageCases(m, segment, a + b);
    BrokerageGrows(m, segment, a, b);
    hide IndianCostModel.Brokerage, IndianCostModel.NonNegative;
    RateShape(a, b, m.brokeragePct, m.Brokerage(segment, a), m.Brokerage(segment, a + b));
  }

  lemma RateShape(a: real, b: real, p: real, fa: real, fw: real)
    requires a >= 0.0 && b >= 0.0
    requires (fa == p * a && fw <= p * (a + b)) || (fw == fa && fa >= 0.0)
    ensures a * fw <= (a + b) * fa
  {
    if fw == fa && fa >= 0.0 {
      Scale(fa, a, a + b);
      Regroup(a, 1.0, fa);
      Regroup(a + b, 1.0, fa);
    } else {
      Scale(a, fw, p * (a + b));
      Regroup(a, p, a + b);
    }
  }

  // ----- What the shape gives -----

  /** A larger order never costs less. */
  lemma ChargesMonotone(m: IndianCostModel, a: real, b: real, side: Side, segment: Segment)
    requires m.NonNegative() && Abs(a) <= Abs(b)
    ensures 0.0 <= m.Charge(a, side, segment) <= m.Charge(b, side, segment)
  {
    hide IndianCostModel.Brokerage, IndianCostModel.Charge, IndianCostModel.Slope;
    var x, y := Abs(a), Abs(b);
    ChargeShape(m, a, side, segment);
    ChargeShape(m, b, side, segment);
    SlopeNonNegative(m, side, segment);
    BrokerageGrows(m, segment, x, y - x);
    var slope, g, fx, fy := m.Slope(side, segment), 1.0 + m.gstRate, m.Brokerage(segment, x), m.Brokerage(segment, y);
    hide *;
    Scale(slope, x, y);
    Scale(slope, 0.0, x);
    Scale(g, fx, fy);
    Scale(g, 0.0, fx);
  }

  lemma AbsAdd(a: real, b: real)
    ensures 0.0 <= Abs(a + b) <= Abs(a) + Abs(b)
  {}

  /** Splitting an order in two never saves anything. */
  lemma ChargesSubadditive(m: IndianCostModel, a: real, b: real, side: Side, segment: Segment)
    requires m.NonNegative()
    ensures m.Charge(a + b, side, segment) <= m.Charge(a, side, segment) + m.Charge(b, side, segment)
  {
    hide IndianCostModel.Brokerage, IndianCostModel.Charge, IndianCostModel.Slope;
    var x, y := Abs(a), Abs(b);
    var whole := x + y;
    AbsAdd(a, b);
    ChargesMonotone(m, a + b, whole, side, segment);
    ChargeShape(m, whole, side, segment);
    ChargeShape(m, a, side, segment);
    ChargeShape(m, b, side, segment);
    BrokerageGrows(m, segment, x, y);
    var g, slope := 1.0 + m.gstRate, m.Slope(side, segment);
    var fx, fy, fw := m.Brokerage(segment, x), m.Brokerage(segment, y), m.Brokerage(segment, whole);
    hide *;
    AddUp(slope, x, y);
    AddUp(g, fx, fy);
    Scale(g, fw, fx + fy);
  }

  /** The cost of a list of orders. */
  function TotalCharge(m: IndianCostModel, parts: seq<real>, side: Side, segment: Segment): real {
    if parts == [] then 0.0
    else TotalCharge(m, Init(parts), side, segment) + m.Charge(Last(parts), side, segment)
  }

  /** Any way of splitting an order into parts costs at least as much as the order. */
  lemma {:induction false} SplittingNeverSaves(m: IndianCostModel, parts: seq<real>, side: Side, segment: Segment)
    requires m.NonNegative()
    ensures m.Charge(Sum(parts), side, segment) <= TotalCharge(m, parts, side, segment)
  {
    if parts == [] {
      ChargeShape(m, 0.0, side, segment);
      BrokerageCases(m, segment, 0.0);
    } else {
      hide IndianCostModel.Charge;
      SplittingNeverSaves(m, Init(parts), side, segment);
      ChargesSubadditive(m, Sum(Init(parts)), Last(parts), side, segment);
    }
  }

  lemma RateFalls(m: IndianCostModel, a: real, b: real, side: Side, segment: Segment)
    requires m.NonNegative() && 0.0 < a <= b
    ensures m.Charge(b, side, segment) * a <= m.Charge(a, side, segment) * b
  {
    hide IndianCostModel.Brokerage, IndianCostModel.Charge, IndianCostModel.Slope;
    ChargeShape(m, a, side, segment);
    ChargeShape(m, b, side, segment);
    BrokerageRateFalls(m, segment, a, b - a);
    assert Abs(a) == a && Abs(b) == b && a + (b - a) == b;
    var g, slope, fa, fb := 1.0 + m.gstRate, m.Slope(side, segment), m.Brokerage(segment, a), m.Brokerage(segment, b);
    hide *;
    CrossMultiply(slope, g, a, b, fa, fb);
  }

  lemma CrossMultiply(slope: real, g: real, a: real, b: real, fa: real, fb: real)
    requires g >= 0.0 && a * fb <= b * fa
    ensures (slope * b + g * fb) * a <= (slope * a + g * fa) * b
  {
    Scale(g, a * fb, b * fa);
    assert (slope * b + g * fb) * a == slope * (a * b) + g * (a * fb);
    assert (slope * a + g * fa) * b == slope * (a * b) + g * (b * fa);
  }

  lemma Ratio(x: real, a: real, y: real, b: real)
    requires a > 0.0 && b > 0.0 && y * a <= x * b
    ensures y / b * 10000.0 <= x / a * 10000.0
  {
    var p, q := y / b, x / a;
    assert y == p * b && x == q * a;
    assert p * (a * b) <= q * (a * b);
    Cancel(p, q, a * b);
  }

  lemma Cancel(p: real, q: real, k: real)
    requires k > 0.0 && p * k <= q * k
    ensures p <= q
  {}

  /** Slippage grows with volatility and size, which count from zero up: below that it is half the spread. */
  lemma OffsetGrows(s: SlippageModel, atr: real, atr': real, size: real, size': real)
    requires s.kVolBps >= 0.0 && s.kSizeBps >= 0.0 && atr <= atr' && size <= size'
    ensures s.OffsetBps(atr, size) <= s.OffsetBps(atr', size')
  {
    Scale(s.kVolBps, Max(0.0, atr), Max(0.0, atr'));
    Scale(s.kSizeBps, Max(0.0, size), Max(0.0, size'));
  }

  lemma OffsetAtZero(s: SlippageModel, atr: real, size: real)
    requires atr <= 0.0 && size <= 0.0
    ensures s.OffsetBps(atr, size) == s.baseSpreadBps / 2.0
  {
    assert s.kVolBps * 0.0 == 0.0 && s.kSizeBps * 0.0 == 0.0;
  }

  /** The rate times the notional is what both sides pay, plus the spread and twice the volatility part, in basis
      points. */
  lemma RoundtripIsPaidTwice(m: IndianCostModel, slippage: SlippageModel, notional: real, segment: Segment,
      atrPct: real)
    requires notional > 0.0
    ensures RoundtripCostBps(m, slippage, notional, segment, atrPct) * notional ==
      10000.0 * (m.Charge(notional, BUY, segment) + m.Charge(notional, SELL, segment)) +
      (slippage.baseSpreadBps + 2.0 * slippage.kVolBps * Max(0.0, atrPct)) * notional
  {
    hide IndianCostModel.Charge;
    var paid := m.Charge(notional, BUY, segment) + m.Charge(notional, SELL, segment);
    DivTimes(paid, notional);
    var v := slippage.kVolBps * Max(0.0, atrPct);
    assert slippage.kSizeBps * Max(0.0, 0.0) == 0.0;
    assert slippage.OffsetBps(atrPct, 0.0) == slippage.baseSpreadBps / 2.0 + v;
    PaidTwice(paid / notional, paid, notional, slippage.baseSpreadBps, v);
  }

  lemma PaidTwice(rate: real, paid: real, notional: real, spread: real, v: real)
    requires rate * notional == paid
    ensures (rate * 10000.0 + 2.0 * (spread / 2.0 + v)) * notional == 10000.0 * paid + (spread + 2.0 * v) * notional
  {}

  /** In basis points a larger round trip is never dearer, for any segment, slippage model and volatility. */
  lemma RoundtripRateFalls(m: IndianCostModel, slippage: SlippageModel, a: real, b: real, segment: Segment,
      atrPct: real)
    requires m.NonNegative() && 0.0 < a <= b
    ensures RoundtripCostBps(m, slippage, b, segment, atrPct) <= RoundtripCostBps(m, slippage, a, segment, atrPct)
  {
    hide IndianCostModel.Charge;
    RateFalls(m, a, b, BUY, segment);
    RateFalls(m, a, b, SELL, segment);
    var x := m.Charge(a, BUY, segment) + m.Charge(a, SELL, segment);
    var y := m.Charge(b, BUY, segment) + m.Charge(b, SELL, segment);
    AddUp(a, m.Charge(b, BUY, segment), m.Charge(b, SELL, segment));
    AddUp(b, m.Charge(a, BUY, segment), m.Charge(a, SELL, segment));
    Ratio(x, a, y, b);
  }
}
