/**
 * The paper-trading ledger (`service.py`, `repository.py` and the journal's `record`): accounts, position
 * rows and the journal, changed by orders, price ticks and manual closes. Each service call is atomic, and
 * money is not rounded.
 */
module PaperLedger {

  import opened Common
  import opened PaperEngine

  datatype Account = Account(startingCash: real, cash: real, realizedPnl: real, feesPaid: real)

  datatype Entry = Entry(
    positionId: nat, user: Option<string>, exitReason: ExitReason,
    grossPnl: real, fees: real, netPnl: real, rMultiple: real)

  datatype Order = Order(user: Option<string>, request: OrderRequest, ref: real, outcome: Decision, submittedAt: int)

  /** The database: one account per user, position rows whose index is their id, and the journal. */
  datatype Ledger = Ledger(
    accounts: map<Option<string>, Account>, positions: seq<Position>, journal: seq<Entry>, orders: seq<Order>)

  /** Settings: the fee of one side of a trade, slippage and the cash a new account starts with. */
  datatype Config = Config(fee: (real, Side) -> real, slippageBps: real, startingCash: real)

  // ----- The service as functions on the ledger -----

  function GetOrCreate(l: Ledger, user: Option<string>, c: Config): Ledger {
    if user in l.accounts then l
    else l.(accounts := l.accounts[user := Account(c.startingCash, c.startingCash, 0.0, 0.0)])
  }

  function NewPosition(user: Option<string>, r: OrderRequest, price: real, ts: int, fee: real): Position {
    Position(user, r.symbol, r.side, r.quantity, price, ts, r.stop, r.target, true, None, None, None, fee)
  }

  function Submit(l: Ledger, user: Option<string>, r: OrderRequest, ref: real, ts: int, c: Config): Ledger {
    var l1 := GetOrCreate(l, user, c);
    var decision := DecideOrder(r, ref, c.slippageBps);
    var l2 := l1.(orders := l1.orders + [Order(user, r, ref, decision, ts)]);
    if decision.Rejected? then l2
    else Open(l2, NewPosition(user, r, decision.price, ts, EntryFee(r, decision.price, c)))
  }

  function EntryFee(r: OrderRequest, price: real, c: Config): real { c.fee(Notional(price, r.quantity), r.side) }

  /** Each side of a trade is charged on its own notional, the exit as the opposite side. */
  lemma FeesOnNotional(r: OrderRequest, p: Position, price: real, c: Config)
    ensures EntryFee(r, price, c) == c.fee(Notional(price, r.quantity), r.side)
    ensures ExitFee(p, price, c) == c.fee(Notional(price, p.quantity), if p.side == BUY then SELL else BUY)
  {
    hide Notional;
  }

  /** What an order does to the books: a rejected one only makes sure of the account; a filled one takes notional and
      fee out of the cash and adds a row with the order's terms. */
  lemma SubmitBooks(l: Ledger, user: Option<string>, r: OrderRequest, ref: real, ts: int, c: Config)
    ensures var m, d := Submit(l, user, r, ref, ts, c), DecideOrder(r, ref, c.slippageBps);
      var cash := if user in l.accounts then l.accounts[user].cash else c.startingCash;
      && user in m.accounts && m.journal == l.journal && m.orders == l.orders + [Order(user, r, ref, d, ts)]
      && (user !in l.accounts ==> m.accounts[user].startingCash == c.startingCash)
      && (forall u :: u != user ==> (u in m.accounts <==> u in l.accounts))
      && (forall u :: u != user && u in l.accounts ==> m.accounts[u] == l.accounts[u])
      && match d
         case Rejected(_) => m.positions == l.positions && m.accounts[user].cash == cash
         case Filled(price) =>
           var fee := EntryFee(r, price, c);
           && m.accounts[user].cash == cash - price * r.quantity as real - fee
           && m.positions == l.positions + [Position(
                user, r.symbol, r.side, r.quantity, price, ts, r.stop, r.target, true, None, None, None, fee)]
  {
    hide DecideOrder, EntryFee;
  }

  /** Reserves notional and entry fee, and adds the row. */
  function Open(l: Ledger, p: Position): Ledger
    requires p.user in l.accounts
  {
    var a := l.accounts[p.user];
    l.(accounts :=
      l.accounts[p.user := a.(cash := a.cash - (p.EntryNotional() + p.fees), feesPaid := a.feesPaid + p.fees)],
       positions := l.positions + [p])
  }

  predicate Closable(l: Ledger, i: nat) {
    i < |l.positions| && l.positions[i].open && l.positions[i].user in l.accounts
  }

  function ExitFee(p: Position, exitPrice: real, c: Config): real {
    c.fee(Notional(exitPrice, p.quantity), p.side.Opposite())
  }

  /** Releases the reserved notional with the gross result, books the exit fee and journals the trade. */
  function Close(l: Ledger, i: nat, exitPrice: real, ts: int, reason: ExitReason, c: Config): Ledger
    requires Closable(l, i)
  {
    var p := l.positions[i];
    var exitFee := ExitFee(p, exitPrice, c);
    var done := Closed(p, exitPrice, ts, reason, p.fees + exitFee);
    var a := l.accounts[p.user];
    l.(accounts := l.accounts[p.user := a.(
         cash := a.cash + p.EntryNotional() + done.GrossPnl() - exitFee,
         realizedPnl := a.realizedPnl + done.NetPnl(),
         feesPaid := a.feesPaid + exitFee)],
       positions := l.positions[i := done],
       journal := Record(l.journal, i, done, reason))
  }

  /** Idempotent per position. */
  function Record(journal: seq<Entry>, id: nat, p: Position, reason: ExitReason): seq<Entry> {
    if Recorded(journal, id) then journal
    else journal + [Entry(id, p.user, reason, p.GrossPnl(), p.fees, p.NetPnl(), p.RMultiple())]
  }

  predicate Recorded(journal: seq<Entry>, id: nat) { exists k :: 0 <= k < |journal| && journal[k].positionId == id }

  /** Every row belongs to an existing account. */
  predicate Known(l: Ledger) { forall i :: 0 <= i < |l.positions| ==> l.positions[i].user in l.accounts }

  predicate Triggers(p: Position, symbol: string, price: real) {
    p.open && p.symbol == symbol && ExitSignal(p, price).Some?
  }

  /** The first `n` rows marked against a price. */
  function Tick(l: Ledger, n: nat, symbol: string, price: real, ts: int, c: Config): (r: Ledger)
    requires n <= |l.positions| && Known(l)
    ensures |r.positions| == |l.positions| && Known(r) && r.positions[n..] == l.positions[n..]
  {
    if n == 0 then l
    else
      var m := Tick(l, n - 1, symbol, price, ts, c);
      var p := m.positions[n - 1];
      assert p == m.positions[n - 1..][0] == l.positions[n - 1..][0] == l.positions[n - 1];
      assert m.positions[n..] == m.positions[n - 1..][1..] == l.positions[n..];
      if Triggers(p, symbol, price) then
        var reason := ExitSignal(p, price).value;
        Close(m, n - 1, ExitFillPrice(p, price, reason), ts, reason, c)
      else m
  }

  function ApplyPrice(l: Ledger, symbol: string, price: real, ts: int, c: Config): Ledger
    requires Known(l)
  {
    Tick(l, |l.positions|, symbol, price, ts, c)
  }

  function ClosePosition(l: Ledger, id: nat, price: real, ts: int, reason: ExitReason, c: Config): Ledger {
    if Closable(l, id) then Close(l, id, price, ts, reason, c) else l
  }

  lemma TriggerIsClosable(l: Ledger, i: nat, symbol: string, price: real)
    requires i < |l.positions| && Known(l) && Triggers(l.positions[i], symbol, price)
    ensures Closable(l, i) && ExitSignal(l.positions[i], price).Some?
  {}

  /** What a tick does to each row, looked at alone. */
  lemma {:induction false} TickRow(l: Ledger, n: nat, symbol: string, price: real, ts: int, c: Config, i: nat)
    requires n <= |l.positions| && Known(l) && i < |l.positions|
    ensures var p := l.positions[i];
      Tick(l, n, symbol, price, ts, c).positions[i] ==
      if i < n && Triggers(p, symbol, price) then
        var reason := ExitSignal(p, price).value;
        var at := ExitFillPrice(p, price, reason);
        Closed(p, at, ts, reason, p.fees + ExitFee(p, at, c))
      else p
  {
    hide Triggers, ExitSignal, ExitFee, Closed, Record;
    if n > 0 {
      TickRow(l, n - 1, symbol, price, ts, c, i);
      var m := Tick(l, n - 1, symbol, price, ts, c);
      TickRow(l, n - 1, symbol, price, ts, c, n - 1);
      if Triggers(m.positions[n - 1], symbol, price) {
        TriggerIsClosable(m, n - 1, symbol, price);
      }
    }
  }

  /** The row `p` once closed at a level, with the fee of the exit. */
  predicate ClosedAt(p: Position, q: Position, level: real, reason: ExitReason, ts: int, c: Config) {
    && !q.open && q.exitPrice == Some(level) && q.exitTs == Some(ts) && q.exitReason == Some(reason)
    && q.fees == p.fees + ExitFee(p, level, c)
    && q == p.(open := false, exitPrice := q.exitPrice, exitTs := q.exitTs, exitReason := q.exitReason, fees := q.fees)
  }

  /** An open row on the symbol closes at its stop if that is reached, at its target if only that is; any other row
      stays as it was. */
  predicate Marked(p: Position, q: Position, symbol: string, price: real, ts: int, c: Config) {
    if p.open && p.symbol == symbol && ReachesStop(p, price) then ClosedAt(p, q, p.stop.value, STOP, ts, c)
    else if p.open && p.symbol == symbol && ReachesTarget(p, price) then ClosedAt(p, q, p.target.value, TARGET, ts, c)
    else q == p
  }

  /** A tick closes exactly the open rows on its symbol whose stop or target the price has reached, on both sides, at
      the level reached, and leaves every other row alone. */
  lemma TickCloses(l: Ledger, symbol: string, price: real, ts: int, c: Config, i: nat)
    requires Known(l) && i < |l.positions|
    ensures |ApplyPrice(l, symbol, price, ts, c).positions| == |l.positions|
    ensures Marked(l.positions[i], ApplyPrice(l, symbol, price, ts, c).positions[i], symbol, price, ts, c)
  {
    TickRow(l, |l.positions|, symbol, price, ts, c, i);
    var p := l.positions[i];
    ExitSignalIff(p, price);
    hide Tick, ExitSignal;
    hide ExitFee;
  }

  /** After a tick every position left open on its symbol is strictly between its stop and its target. */
  lemma NothingLeftTriggered(l: Ledger, symbol: string, price: real, ts: int, c: Config, i: nat)
    requires Known(l) && i < |l.positions|
    ensures var p := ApplyPrice(l, symbol, price, ts, c).positions[i];
      p.open && p.symbol == symbol ==>
        && (p.stop.Some? ==> Beyond(p.side, price, p.stop.value))
        && (p.target.Some? ==> Beyond(p.side, p.target.value, price))
  {
    TickCloses(l, symbol, price, ts, c, i);
  }

  // ----- The service as an object over the database -----

  class PaperTradingService {
    const config: Config
    var accounts: map<Option<string>, Account>
    var positions: seq<Position>
    var journal: seq<Entry>
    var orders: seq<Order>

    function View(): Ledger
      reads this
    {
      Ledger(accounts, positions, journal, orders)
    }

    ghost predicate Valid()
      reads this
    {
      Known(View())
    }

    constructor (config: Config)
      ensures Valid() && this.config == config && View() == Ledger(map[], [], [], [])
    {
      this.config := config;
      accounts, positions, journal, orders := map[], [], [], [];
    }

    method SubmitOrder(user: Option<string>, request: OrderRequest, ref: real, ts: int) returns (decision: Decision)
      requires Valid()
      modifies this
      ensures Valid() && View() == Submit(old(View()), user, request, ref, ts, config)
      ensures decision == DecideOrder(request, ref, config.slippageBps)
      ensures orders == old(orders) + [Order(user, request, ref, decision, ts)] && journal == old(journal)
    {
      hide DecideOrder, Open;
      if user !in accounts {
        accounts := accounts[user := Account(config.startingCash, config.startingCash, 0.0, 0.0)];
      }
      decision := DecideOrder(request, ref, config.slippageBps);
      orders := orders + [Order(user, request, ref, decision, ts)];
      if decision.Rejected? {
        return;
      }
      var entryFee := EntryFee(request, decision.price, config);
      AddPosition(NewPosition(user, request, decision.price, ts, entryFee));
    }

    /** Books the cost of a new position, notional plus entry fee, and adds its row. */
    method AddPosition(position: Position)
      requires Valid() && position.user in accounts
      modifies this
      ensures Valid() && View() == Open(old(View()), position)
      ensures orders == old(orders) && journal == old(journal)
    {
      hide Position.EntryNotional;
      var account := accounts[position.user];
      var cost := position.EntryNotional() + position.fees;
      account := account.(cash := account.cash - cost);
      account := account.(feesPaid := account.feesPaid + position.fees);
      accounts := accounts[position.user := account];
      positions := positions + [position];
    }

    method ApplyPriceTick(symbol: string, price: real, ts: int)
      requires Valid()
      modifies this
      ensures Valid() && View() == ApplyPrice(old(View()), symbol, price, ts, config)
      ensures |positions| == |old(positions)|
      ensures forall i :: 0 <= i < |positions| ==> Marked(old(positions)[i], positions[i], symbol, price, ts, config)
    {
      hide Close, ExitSignal, Marked;
      ghost var before := View();
      var rows := |positions|;
      var n := 0;
      while n < rows
        invariant 0 <= n <= rows == |before.positions| && Valid()
        invariant View() == Tick(before, n, symbol, price, ts, config)
      {
        var row := positions[n];
        if row.open && row.symbol == symbol {
          var reason := ExitSignal(row, price);
          if reason.Some? {
            FinishTrade(n, ExitFillPrice(row, price, reason.value), ts, reason.value);
          }
        }
        n := n + 1;
      }
      forall i: nat | i < rows
        ensures Marked(before.positions[i], positions[i], symbol, price, ts, config)
      {
        TickCloses(before, symbol, price, ts, config, i);
      }
    }

    method CloseOne(id: nat, price: real, ts: int, reason: ExitReason) returns (closed: bool)
      requires Valid()
      modifies this
      ensures Valid() && View() == ClosePosition(old(View()), id, price, ts, reason, config)
      ensures closed <==> Closable(old(View()), id)
    {
      hide Close;
      closed := id < |positions| && positions[id].open;
      if closed {
        FinishTrade(id, price, ts, reason);
      }
    }

    method FinishTrade(i: nat, exitPrice: real, ts: int, reason: ExitReason)
      requires Valid() && Closable(View(), i)
      modifies this
      ensures Valid() && View() == Close(old(View()), i, exitPrice, ts, reason, config)
    {
      hide Record, Position.EntryNotional, Position.GrossPnl, Position.NetPnl;
      var position := positions[i];
      var exitFee := ExitFee(position, exitPrice, config);
      var entryNotional := position.EntryNotional();
      position := Closed(position, exitPrice, ts, reason, position.fees + exitFee);
      var gross, net := position.GrossPnl(), position.NetPnl();
      var account := accounts[position.user];
      account := account.(cash := account.cash + entryNotional + gross - exitFee);
      account := account.(realizedPnl := account.realizedPnl + net);
      account := account.(feesPaid := account.feesPaid + exitFee);
      accounts := accounts[position.user := account];
      positions := positions[i := position];
      journal := Record(journal, i, position, reason);
    }
  }
}
