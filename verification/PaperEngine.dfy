/** Paper-trading orders, positions and pricing decisions (`models.py` and `engine.py`). Times are integers. */
module PaperEngine {

  import opened Common

  datatype Side = BUY | SELL {
    function Opposite(): Side { if this == BUY then SELL else BUY }
    function Sign(): real { if this == BUY then 1.0 else -1.0 }
  }

  datatype OrderType = MARKET | LIMIT

  datatype ExitReason = STOP | TARGET | MANUAL | EOD

  datatype OrderRequest = OrderRequest(
    symbol: string, side: Side, quantity: int, orderType: OrderType,
    limitPrice: Option<real>, stop: Option<real>, target: Option<real>)

  datatype RejectReason =
    | BadQuantity | MissingLimit | BadLimit | StopNotBelowTarget | StopNotAboveTarget
    | Unmarketable | StopNotBelowFill | StopNotAboveFill

  datatype Decision = Filled(price: real) | Rejected(reason: RejectReason)

  function Notional(price: real, quantity: int): real { price * quantity as real }

  /** A position; `exitPrice`, `exitTs` and `exitReason` are set when it is closed. */
  datatype Position = Position(
    user: Option<string>, symbol: string, side: Side, quantity: int, entryPrice: real, entryTs: int,
    stop: Option<real>, target: Option<real>, open: bool,
    exitPrice: Option<real>, exitTs: Option<int>, exitReason: Option<ExitReason>, fees: real)
  {
    function EntryNotional(): real { Notional(entryPrice, quantity) }

    function RiskPerUnit(): real { if stop == None then 0.0 else Abs(entryPrice - stop.value) }

    function UnrealizedPnl(price: real): real { (price - entryPrice) * quantity as real * side.Sign() }

    function GrossPnl(): real {
      if exitPrice == None then 0.0 else (exitPrice.value - entryPrice) * quantity as real * side.Sign()
    }

    function NetPnl(): real { GrossPnl() - fees }

    function RMultiple(): real {
      if RiskPerUnit() <= 0.0 || exitPrice == None then 0.0
      else (exitPrice.value - entryPrice) * side.Sign() / RiskPerUnit()
    }
  }

  // ----- Deciding an order -----

  function Validate(r: OrderRequest): Option<RejectReason> {
    if r.quantity <= 0 then Some(BadQuantity)
    else if r.orderType == LIMIT && r.limitPrice == None then Some(MissingLimit)
    else if r.limitPrice.Some? && r.limitPrice.value <= 0.0 then Some(BadLimit)
    else if r.stop.Some? && r.target.Some? && r.side == BUY && !(r.stop.value < r.target.value) then
      Some(StopNotBelowTarget)
    else if r.stop.Some? && r.target.Some? && r.side == SELL && !(r.stop.value > r.target.value) then
      Some(StopNotAboveTarget)
    else None
  }

  function FillPrice(side: Side, orderType: OrderType, ref: real, limit: Option<real>, slippageBps: real): Option<real>
    requires orderType == LIMIT ==> limit.Some?
  {
    if ref <= 0.0 then None
    else
      var slip := ref * slippageBps / 10000.0;
      if orderType == MARKET then Some(if side == BUY then ref + slip else ref - slip)
      else if side == BUY && ref <= limit.value then Some(Min(limit.value, ref + slip))
      else if side == SELL && ref >= limit.value then Some(Max(limit.value, ref - slip))
      else None
  }

  function DecideOrder(r: OrderRequest, ref: real, slippageBps: real): Decision {
    var error := Validate(r);
    if error.Some? then Rejected(error.value)
    else
      var price := FillPrice(r.side, r.orderType, ref, r.limitPrice, slippageBps);
      if price == None then Rejected(Unmarketable)
      else if r.stop.Some? && r.side == BUY && r.stop.value >= price.value then Rejected(StopNotBelowFill)
      else if r.stop.Some? && r.side == SELL && r.stop.value <= price.value then Rejected(StopNotAboveFill)
      else Filled(price.value)
  }

  /** `a` is a strictly better price than `b` for someone who holds a position opened on this side. */
  predicate Beyond(side: Side, a: real, b: real) { if side == BUY then a > b else a < b }

  predicate AtOrBeyond(side: Side, a: real, b: real) { a == b || Beyond(side, a, b) }

  /** An order is marketable when it has a positive reference price that satisfies its limit. */
  predicate Marketable(r: OrderRequest, ref: real) {
    ref > 0.0 && (r.orderType == LIMIT ==> r.limitPrice.Some? && AtOrBeyond(r.side, r.limitPrice.value, ref))
  }

  /** What a fill may be: the reference moved against the taker, but never past a binding limit. */
  predicate FairFill(r: OrderRequest, ref: real, slippageBps: real, price: real) {
    var worst := ref + r.side.Sign() * (ref * slippageBps / 10000.0);
    var capped := r.orderType == LIMIT && r.limitPrice.Some?;
    && AtOrBeyond(r.side, worst, price)
    && (capped ==> AtOrBeyond(r.side, r.limitPrice.value, price))
    && (price == worst || (capped && price == r.limitPrice.value))
  }

  /** Exactly the orders that are filled, and at what price. */
  lemma FilledIff(r: OrderRequest, ref: real, slippageBps: real)
    ensures DecideOrder(r, ref, slippageBps).Filled? <==>
      && r.quantity > 0 && (r.limitPrice.Some? ==> r.limitPrice.value > 0.0)
      && (r.stop.Some? && r.target.Some? ==> Beyond(r.side, r.target.value, r.stop.value))
      && Marketable(r, ref)
      && (r.stop.Some? ==> exists price :: FairFill(r, ref, slippageBps, price) && Beyond(r.side, price, r.stop.value))
    ensures forall price :: DecideOrder(r, ref, slippageBps) == Filled(price) ==>
      FairFill(r, ref, slippageBps, price) && (r.stop.Some? ==> Beyond(r.side, price, r.stop.value))
  {
    if Validate(r) == None && Marketable(r, ref) {
      var slip := ref * slippageBps / 10000.0;
      var price := FillPrice(r.side, r.orderType, ref, r.limitPrice, slippageBps).value;
      FairFillUnique(r, ref, slippageBps, slip, price);
      assert FairFill(r, ref, slippageBps, price);
    }
  }

  lemma FairFillUnique(r: OrderRequest, ref: real, slippageBps: real, slip: real, price: real)
    requires Validate(r) == None && Marketable(r, ref) && slip == ref * slippageBps / 10000.0
    requires FillPrice(r.side, r.orderType, ref, r.limitPrice, slippageBps) == Some(price)
    ensures forall p :: FairFill(r, ref, slippageBps, p) <==> p == price
  {
    assert r.side.Sign() * slip == if r.side == BUY then slip else -slip;
  }

  /** With non-negative slippage nobody is filled better than the reference price. */
  lemma SlippageIsAdverse(r: OrderRequest, ref: real, slippageBps: real)
    requires slippageBps >= 0.0 && DecideOrder(r, ref, slippageBps).Filled?
    ensures AtOrBeyond(r.side, DecideOrder(r, ref, slippageBps).price, ref)
    ensures r.orderType == LIMIT ==> AtOrBeyond(r.side, r.limitPrice.value, DecideOrder(r, ref, slippageBps).price)
  {
    assert ref * slippageBps >= 0.0;
  }

  // ----- Profit and loss -----

  /** Marking at a price shows what closing there would yield: per unit the rise for a buyer, the fall for a seller. */
  lemma PnlBySide(p: Position, price: real, ts: int, reason: ExitReason, fees: real)
    ensures var done, q := Closed(p, price, ts, reason, fees), p.quantity as real;
      && p.UnrealizedPnl(price) == done.GrossPnl()
      && done.GrossPnl() == (if p.side == BUY then price * q - p.entryPrice * q else p.entryPrice * q - price * q)
      && done.NetPnl() == done.GrossPnl() - fees
      && (p.stop.Some? && p.quantity > 0 ==>
           done.RMultiple() * (Abs(p.entryPrice - p.stop.value) * q) ==
           if p.stop.value == p.entryPrice then 0.0 else done.GrossPnl())
  {
    var q, move := p.quantity as real, (price - p.entryPrice) * p.side.Sign();
    assert move == if p.side == BUY then price - p.entryPrice else p.entryPrice - price;
    assert (price - p.entryPrice) * q * p.side.Sign() == move * q;
    var risk := p.RiskPerUnit();
    if risk > 0.0 {
      assert move / risk * risk == move;
      assert move / risk * (risk * q) == move * q;
    }
  }

  // ----- Exits -----

  /** Stop before target. */
  function ExitSignal(p: Position, price: real): Option<ExitReason> {
    if p.side == BUY then
      if p.stop.Some? && price <= p.stop.value then Some(STOP)
      else if p.target.Some? && price >= p.target.value then Some(TARGET)
      else None
    else
      if p.stop.Some? && price >= p.stop.value then Some(STOP)
      else if p.target.Some? && price <= p.target.value then Some(TARGET)
      else None
  }

  /** The price is at or past the stop, on the losing side. */
  predicate ReachesStop(p: Position, price: real) { p.stop.Some? && !Beyond(p.side, price, p.stop.value) }

  predicate ReachesTarget(p: Position, price: real) { p.target.Some? && !Beyond(p.side, p.target.value, price) }

  lemma ExitSignalIff(p: Position, price: real)
    ensures ExitSignal(p, price) == Some(STOP) <==> ReachesStop(p, price)
    ensures ExitSignal(p, price) == Some(TARGET) <==> ReachesTarget(p, price) && !ReachesStop(p, price)
    ensures ExitSignal(p, price) in {None, Some(STOP), Some(TARGET)}
  {}

  function ExitFillPrice(p: Position, price: real, reason: ExitReason): real {
    if reason == STOP && p.stop.Some? then p.stop.value
    else if reason == TARGET && p.target.Some? then p.target.value
    else price
  }

  function Closed(p: Position, exitPrice: real, ts: int, reason: ExitReason, fees: real): Position {
    p.(open := false, exitPrice := Some(exitPrice), exitTs := Some(ts), exitReason := Some(reason), fees := fees)
  }

  /** A stop strictly on the losing side of the entry. */
  predicate ProtectiveStop(p: Position) { p.stop.Some? ==> Beyond(p.side, p.entryPrice, p.stop.value) }

  /** Closing at the stop loses exactly one unit of risk. */
  lemma StopIsMinusOneR(p: Position, ts: int, fees: real)
    requires ProtectiveStop(p) && p.stop.Some?
    ensures Closed(p, p.stop.value, ts, STOP, fees).RMultiple() == -1.0
  {
    var risk := p.RiskPerUnit();
    assert (p.stop.value - p.entryPrice) * p.side.Sign() == -risk;
    MinusOne(risk);
  }

  lemma MinusOne(x: real)
    requires x > 0.0
    ensures (-x) / x == -1.0
  {}

  /** A target exit makes money before fees exactly when the target is beyond the entry, which no check enforces. */
  lemma TargetProfitIff(p: Position, ts: int, fees: real)
    requires p.target.Some? && p.quantity > 0
    ensures Closed(p, p.target.value, ts, TARGET, fees).GrossPnl() > 0.0 <==>
      Beyond(p.side, p.target.value, p.entryPrice)
  {
    var q, d := p.quantity as real, p.target.value - p.entryPrice;
    if d > 0.0 {
      assert d * q > 0.0;
    } else if d < 0.0 {
      assert (-d) * q > 0.0;
      assert d * q < 0.0;
    }
  }

  /** A buy with its target below the market is filled, and exits at that target at a loss on an unchanged price. */
  lemma TargetMayLose()
    ensures var r := OrderRequest("X", BUY, 1, MARKET, None, None, Some(90.0));
      var p := Position(None, "X", BUY, 1, 100.0, 0, None, Some(90.0), true, None, None, None, 0.0);
      && DecideOrder(r, 100.0, 0.0) == Filled(100.0)
      && ExitSignal(p, 100.0) == Some(TARGET)
      && Closed(p, ExitFillPrice(p, 100.0, TARGET), 0, TARGET, 0.0).GrossPnl() == -10.0
  {
    assert 100.0 * 0.0 / 10000.0 == 0.0;
  }
}
