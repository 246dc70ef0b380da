/** Conservation over whole runs of the paper-trading service. */
module PaperProperties {

  import opened Common
  import opened PaperEngine
  import opened PaperLedger

  // ----- Sums over a user's positions -----

  datatype Measure = Reserved | FeesCharged | Invested(marks: map<string, real>) | OpenResult(marks: map<string, real>)

  function Mark(p: Position, marks: map<string, real>): real {
    if p.symbol in marks then marks[p.symbol] else p.entryPrice
  }

  /** What one position adds to a user's sum. */
  function Amount(p: Position, user: Option<string>, m: Measure): real {
    if p.user != user then 0.0
    else match m
      case Reserved => if p.open then p.EntryNotional() + p.fees else 0.0
      case FeesCharged => p.fees
      case Invested(marks) => if p.open then p.EntryNotional() + p.UnrealizedPnl(Mark(p, marks)) else 0.0
      case OpenResult(marks) => if p.open then p.UnrealizedPnl(Mark(p, marks)) - p.fees else 0.0
  }

  function Total(ps: seq<Position>, user: Option<string>, m: Measure): real {
    if ps == [] then 0.0 else Total(Init(ps), user, m) + Amount(Last(ps), user, m)
  }

  function JournalNet(journal: seq<Entry>, user: Option<string>): real {
    if journal == [] then 0.0
    else JournalNet(Init(journal), user) + (if Last(journal).user == user then Last(journal).netPnl else 0.0)
  }

  lemma TotalSnoc(ps: seq<Position>, p: Position, user: Option<string>, m: Measure)
    ensures Total(ps + [p], user, m) == Total(ps, user, m) + Amount(p, user, m)
  {
    assert Init(ps + [p]) == ps;
  }

  lemma {:induction false} TotalUpdate(ps: seq<Position>, i: nat, p: Position, user: Option<string>, m: Measure)
    requires i < |ps|
    ensures Total(ps[i := p], user, m) == Total(ps, user, m) - Amount(ps[i], user, m) + Amount(p, user, m)
  {
    hide Amount;
    if i == |ps| - 1 {
      assert Init(ps[i := p]) == Init(ps);
    } else {
      assert Init(ps[i := p]) == Init(ps)[i := p];
      TotalUpdate(Init(ps), i, p, user, m);
    }
  }

  lemma {:induction false} TotalOfNone(ps: seq<Position>, user: Option<string>, m: Measure)
    requires forall i :: 0 <= i < |ps| ==> ps[i].user != user
    ensures Total(ps, user, m) == 0.0
  {
    if ps != [] {
      TotalOfNone(Init(ps), user, m);
    }
  }

  lemma {:induction false} JournalOfNone(journal: seq<Entry>, user: Option<string>)
    requires forall k :: 0 <= k < |journal| ==> journal[k].user != user
    ensures JournalNet(journal, user) == 0.0
  {
    if journal != [] {
      JournalOfNone(Init(journal), user);
    }
  }

  // ----- The invariant -----

  /** Cash plus what is reserved is what the user started with plus what was realized; realized P&L is the sum of
      the journal; fees paid are the fees of the positions. */
  predicate Balanced(l: Ledger, user: Option<string>)
    requires user in l.accounts
  {
    var a := l.accounts[user];
    && a.cash + Total(l.positions, user, Reserved) == a.startingCash + a.realizedPnl
    && a.realizedPnl == JournalNet(l.journal, user)
    && a.feesPaid == Total(l.positions, user, FeesCharged)
  }

  ghost predicate AllBalanced(l: Ledger) { forall user :: user in l.accounts ==> Balanced(l, user) }

  /** An entry copies the closed position it belongs to. */
  predicate Matches(e: Entry, p: Position) {
    && !p.open && p.exitReason == Some(e.exitReason) && e.user == p.user
    && e.grossPnl == p.GrossPnl() && e.fees == p.fees && e.netPnl == p.NetPnl() && e.rMultiple == p.RMultiple()
  }

  /** One journal entry per closed position, and none for an open one. */
  predicate Journaled(l: Ledger) {
    && (forall k :: 0 <= k < |l.journal| ==>
      l.journal[k].positionId < |l.positions| && Matches(l.journal[k], l.positions[l.journal[k].positionId]))
    && (forall j, k :: 0 <= j < k < |l.journal| ==> l.journal[j].positionId != l.journal[k].positionId)
    && (forall i: nat :: i < |l.positions| && !l.positions[i].open ==> Recorded(l.journal, i))
  }

  predicate Sound(p: Position) { p.quantity > 0 && ProtectiveStop(p) }

  predicate AllSound(l: Ledger) { forall i :: 0 <= i < |l.positions| ==> Sound(l.positions[i]) }

  ghost predicate Inv(l: Ledger) { Known(l) && AllBalanced(l) && Journaled(l) && AllSound(l) }

  // ----- Steps -----

  lemma CreateKeeps(l: Ledger, user: Option<string>, c: Config)
    requires Inv(l)
    ensures Inv(GetOrCreate(l, user, c))
  {
    hide Balanced, Journaled, AllSound;
    var r := GetOrCreate(l, user, c);
    CreateKeepsRows(l, user, c);
    forall u | u in r.accounts ensures Balanced(r, u) {
      if u in l.accounts {
        SameUser(l, r, u);
      } else {
        NewUserBalanced(l, u, c);
      }
    }
  }

  lemma CreateKeepsRows(l: Ledger, user: Option<string>, c: Config)
    requires Journaled(l) && AllSound(l)
    ensures Journaled(GetOrCreate(l, user, c)) && AllSound(GetOrCreate(l, user, c))
  {}

  lemma SameUser(l: Ledger, r: Ledger, u: Option<string>)
    requires u in l.accounts && u in r.accounts && Balanced(l, u)
    requires r.accounts[u] == l.accounts[u] && r.positions == l.positions && r.journal == l.journal
    ensures Balanced(r, u)
  {}

  lemma NewUserBalanced(l: Ledger, user: Option<string>, c: Config)
    requires Known(l) && Journaled(l) && user !in l.accounts
    ensures user in GetOrCreate(l, user, c).accounts && Balanced(GetOrCreate(l, user, c), user)
  {
    TotalOfNone(l.positions, user, Reserved);
    TotalOfNone(l.positions, user, FeesCharged);
    forall k | 0 <= k < |l.journal| ensures l.journal[k].user != user {
      assert l.positions[l.journal[k].positionId].user in l.accounts;
    }
    JournalOfNone(l.journal, user);
  }

  lemma OpenKeeps(l: Ledger, p: Position)
    requires Inv(l) && p.user in l.accounts && Sound(p) && p.open
    ensures Inv(Open(l, p))
  {
    hide Total, JournalNet, Position.EntryNotional, Sound;
    var r := Open(l, p);
    forall u | u in r.accounts ensures Balanced(r, u) {
      assert Balanced(l, u);
      TotalSnoc(l.positions, p, u, Reserved);
      TotalSnoc(l.positions, p, u, FeesCharged);
    }
    OpenKeepsRows(l, p);
  }

  lemma OpenKeepsRows(l: Ledger, p: Position)
    requires Journaled(l) && AllSound(l) && Known(l) && p.user in l.accounts && Sound(p) && p.open
    ensures Journaled(Open(l, p)) && AllSound(Open(l, p)) && Known(Open(l, p))
  {
    hide Matches, Recorded, Sound;
  }

  lemma CloseKeeps(l: Ledger, i: nat, exitPrice: real, ts: int, reason: ExitReason, c: Config)
    requires Inv(l) && Closable(l, i)
    ensures Inv(Close(l, i, exitPrice, ts, reason, c))
  {
    hide Balanced, Journaled, AllSound;
    var r := Close(l, i, exitPrice, ts, reason, c);
    CloseKeepsRows(l, i, exitPrice, ts, reason, c);
    forall u | u in r.accounts ensures Balanced(r, u) {
      CloseKeepsBalance(l, i, exitPrice, ts, reason, c, u);
    }
  }

  lemma NotYetRecorded(l: Ledger, i: nat)
    requires Journaled(l) && i < |l.positions| && l.positions[i].open
    ensures !Recorded(l.journal, i)
  {}

  lemma CloseKeepsBalance(l: Ledger, i: nat, exitPrice: real, ts: int, reason: ExitReason, c: Config, u: Option<string>)
    requires Closable(l, i) && Journaled(l) && u in l.accounts && Balanced(l, u)
    ensures Balanced(Close(l, i, exitPrice, ts, reason, c), u)
  {
    NotYetRecorded(l, i);
    var r := Close(l, i, exitPrice, ts, reason, c);
    var p, done := l.positions[i], r.positions[i];
    CloseAmounts(p, done, u);
    hide Total, JournalNet, Amount, ExitFee, Recorded, Journaled;
    hide Position.EntryNotional, Position.GrossPnl, Position.RMultiple;
    TotalUpdate(l.positions, i, done, u, Reserved);
    TotalUpdate(l.positions, i, done, u, FeesCharged);
    var e := Entry(i, done.user, reason, done.GrossPnl(), done.fees, done.NetPnl(), done.RMultiple());
    assert r.journal == l.journal + [e];
    JournalSnoc(l.journal, e, u);
  }

  /** What closing a position changes in a user's sums. */
  lemma CloseAmounts(p: Position, done: Position, u: Option<string>)
    requires p.open && !done.open && done.user == p.user
    ensures Amount(p, u, Reserved) - Amount(done, u, Reserved) ==
      if p.user == u then p.EntryNotional() + p.fees else 0.0
    ensures Amount(done, u, FeesCharged) - Amount(p, u, FeesCharged) == if p.user == u then done.fees - p.fees else 0.0
  {
    hide Position.EntryNotional;
  }

  lemma JournalSnoc(journal: seq<Entry>, e: Entry, u: Option<string>)
    ensures JournalNet(journal + [e], u) == JournalNet(journal, u) + (if e.user == u then e.netPnl else 0.0)
  {
    assert Init(journal + [e]) == journal;
  }

  lemma CloseKeepsRows(l: Ledger, i: nat, exitPrice: real, ts: int, reason: ExitReason, c: Config)
    requires Closable(l, i) && Journaled(l) && AllSound(l) && Known(l)
    ensures var r := Close(l, i, exitPrice, ts, reason, c); Journaled(r) && AllSound(r) && Known(r)
  {
    NotYetRecorded(l, i);
    hide Position.EntryNotional, Position.GrossPnl, Position.NetPnl, Position.RMultiple, ExitFee, Recorded;
    var r := Close(l, i, exitPrice, ts, reason, c);
    JournaledSnoc(l, r, i, r.journal[|l.journal|]);
    hide Journaled;
  }

  /** A row that closes with a matching entry at the end of the journal. */
  lemma JournaledSnoc(l: Ledger, r: Ledger, i: nat, e: Entry)
    requires Journaled(l) && i < |l.positions| && l.positions[i].open && !Recorded(l.journal, i)
    requires |r.positions| == |l.positions| && r.positions == l.positions[i := r.positions[i]]
    requires r.journal == l.journal + [e] && e.positionId == i && Matches(e, r.positions[i])
    ensures Journaled(r)
  {
    hide Matches;
    assert r.journal[|l.journal|].positionId == i;
    forall k: nat | k < |r.positions| && !r.positions[k].open ensures Recorded(r.journal, k) {
      if k != i {
        assert Recorded(l.journal, k);
        var j :| 0 <= j < |l.journal| && l.journal[j].positionId == k;
        assert r.journal[j].positionId == k;
      }
    }
  }

  lemma {:induction false} TickKeeps(l: Ledger, n: nat, symbol: string, price: real, ts: int, c: Config)
    requires n <= |l.positions| && Inv(l)
    ensures Inv(Tick(l, n, symbol, price, ts, c))
  {
    hide Inv, Close, Triggers, ExitSignal, Known;
    if n > 0 {
      KnownOf(l);
      TickKeeps(l, n - 1, symbol, price, ts, c);
      var m := Tick(l, n - 1, symbol, price, ts, c);
      var p := m.positions[n - 1];
      if Triggers(p, symbol, price) {
        TriggerIsClosable(m, n - 1, symbol, price);
        var reason := ExitSignal(p, price).value;
        CloseKeeps(m, n - 1, ExitFillPrice(p, price, reason), ts, reason, c);
      }
    } else {
      KnownOf(l);
    }
  }

  lemma KnownOf(l: Ledger)
    requires Inv(l)
    ensures Known(l)
  {}

  // ----- Runs -----

  datatype Call =
    | SubmitCall(user: Option<string>, request: OrderRequest, ref: real)
    | TickCall(symbol: string, price: real)
    | CloseCall(id: nat, price: real, reason: ExitReason)

  ghost function Perform(l: Ledger, call: Call, ts: int, c: Config): Ledger {
    match call
    case SubmitCall(user, r, ref) => Submit(l, user, r, ref, ts, c)
    case TickCall(symbol, price) => if Known(l) then ApplyPrice(l, symbol, price, ts, c) else l
    case CloseCall(id, price, reason) => ClosePosition(l, id, price, ts, reason, c)
  }

  /** Calls with their times, on an empty database. */
  ghost function Run(calls: seq<(Call, int)>, c: Config): Ledger {
    if calls == [] then Ledger(map[], [], [], [])
    else Perform(Run(Init(calls), c), Last(calls).0, Last(calls).1, c)
  }

  lemma SubmitKeeps(l: Ledger, user: Option<string>, r: OrderRequest, ref: real, ts: int, c: Config)
    requires Inv(l)
    ensures Inv(Submit(l, user, r, ref, ts, c))
  {
    hide Inv, Open, EntryFee, GetOrCreate, DecideOrder;
    CreateKeeps(l, user, c);
    AccountExists(l, user, c);
    var l1 := GetOrCreate(l, user, c);
    var d := DecideOrder(r, ref, c.slippageBps);
    var l2 := l1.(orders := l1.orders + [Order(user, r, ref, d, ts)]);
    OrdersAreApart(l1, l2);
    if d.Filled? {
      FilledIsSound(user, r, ref, c, ts, EntryFee(r, d.price, c));
      OpenKeeps(l2, NewPosition(user, r, d.price, ts, EntryFee(r, d.price, c)));
    }
  }

  lemma AccountExists(l: Ledger, user: Option<string>, c: Config)
    ensures user in GetOrCreate(l, user, c).accounts
  {}

  lemma OrdersAreApart(l: Ledger, r: Ledger)
    requires Inv(l) && r == l.(orders := r.orders)
    ensures Inv(r)
  {
    forall u | u in r.accounts ensures Balanced(r, u) {
      assert Balanced(l, u);
    }
  }

  lemma FilledIsSound(user: Option<string>, r: OrderRequest, ref: real, c: Config, ts: int, fee: real)
    requires DecideOrder(r, ref, c.slippageBps).Filled?
    ensures Sound(NewPosition(user, r, DecideOrder(r, ref, c.slippageBps).price, ts, fee))
  {
    FilledIff(r, ref, c.slippageBps);
  }

  /** Every run keeps every account balanced, one journal entry per closed position and protective stops. */
  lemma {:induction false} LedgerConserves(calls: seq<(Call, int)>, c: Config)
    ensures Inv(Run(calls, c))
  {
    if calls != [] {
      LedgerConserves(Init(calls), c);
      hide Inv, Close, DecideOrder;
      var l := Run(Init(calls), c);
      KnownOf(l);
      match Last(calls).0
      case SubmitCall(user, r, ref) => SubmitKeeps(l, user, r, ref, Last(calls).1, c);
      case TickCall(symbol, price) => TickKeeps(l, |l.positions|, symbol, price, Last(calls).1, c);
      case CloseCall(id, price, reason) =>
        if Closable(l, id) {
          CloseKeeps(l, id, price, Last(calls).1, reason, c);
        }
    }
  }

  // ----- Equity -----

  lemma {:induction false} InvestedSplits(ps: seq<Position>, user: Option<string>, marks: map<string, real>)
    ensures Total(ps, user, Invested(marks)) == Total(ps, user, Reserved) + Total(ps, user, OpenResult(marks))
  {
    hide Position.EntryNotional, Position.UnrealizedPnl;
    if ps != [] {
      InvestedSplits(Init(ps), user, marks);
    }
  }

  /** The account's equity: its cash and, in a loop, its open positions at market. In a balanced ledger that is the
      starting cash plus what was realized plus what the open positions would yield, less their entry fees. */
  method AccountEquity(l: Ledger, user: Option<string>, marks: map<string, real>) returns (equity: real)
    requires user in l.accounts
    ensures Balanced(l, user) ==>
      equity ==
        l.accounts[user].startingCash + l.accounts[user].realizedPnl + Total(l.positions, user, OpenResult(marks))
    ensures equity == l.accounts[user].cash + Total(l.positions, user, Invested(marks))
  {
    hide Position.EntryNotional, Position.UnrealizedPnl, JournalNet, Mark;
    var invested := 0.0;
    assert l.positions[..0] == [];
    for i := 0 to |l.positions|
      invariant invested == Total(l.positions[..i], user, Invested(marks))
    {
      var p := l.positions[i];
      assert l.positions[..i + 1] == l.positions[..i] + [p];
      TotalSnoc(l.positions[..i], p, user, Invested(marks));
      if p.user == user && p.open {
        invested := invested + (p.EntryNotional() + p.UnrealizedPnl(Mark(p, marks)));
      }
    }
    assert l.positions[..|l.positions|] == l.positions;
    InvestedSplits(l.positions, user, marks);
    equity := l.accounts[user].cash + invested;
  }

  // ----- Exits -----

  predicate StopsAreMinusOne(l: Ledger) {
    forall k :: 0 <= k < |l.journal| && l.journal[k].exitReason == STOP ==> l.journal[k].rMultiple == -1.0
  }

  lemma CloseKeepsStops(l: Ledger, i: nat, exitPrice: real, ts: int, reason: ExitReason, c: Config)
    requires StopsAreMinusOne(l) && Closable(l, i) && Sound(l.positions[i])
    requires reason == STOP ==> l.positions[i].stop == Some(exitPrice)
    ensures StopsAreMinusOne(Close(l, i, exitPrice, ts, reason, c))
  {
    hide Position.EntryNotional, Position.GrossPnl, Position.NetPnl, Position.RMultiple, ExitFee, Recorded;
    if reason == STOP {
      var p := l.positions[i];
      StopIsMinusOneR(p, ts, p.fees + ExitFee(p, exitPrice, c));
    }
  }

  lemma {:induction false} TickKeepsStops(l: Ledger, n: nat, symbol: string, price: real, ts: int, c: Config)
    requires n <= |l.positions| && Inv(l) && StopsAreMinusOne(l)
    ensures StopsAreMinusOne(Tick(l, n, symbol, price, ts, c))
  {
    hide Close, Inv, StopsAreMinusOne, Known, Sound;
    KnownOf(l);
    if n > 0 {
      TickKeepsStops(l, n - 1, symbol, price, ts, c);
      TickKeeps(l, n - 1, symbol, price, ts, c);
      var m := Tick(l, n - 1, symbol, price, ts, c);
      var p := m.positions[n - 1];
      if Triggers(p, symbol, price) {
        TriggerIsClosable(m, n - 1, symbol, price);
        SoundOf(m, n - 1);
        var reason := ExitSignal(p, price).value;
        CloseKeepsStops(m, n - 1, ExitFillPrice(p, price, reason), ts, reason, c);
      }
    }
  }

  lemma SoundOf(l: Ledger, i: nat)
    requires Inv(l) && i < |l.positions|
    ensures Sound(l.positions[i])
  {}

  /** No explicit close claims to be a stop exit; the one caller of `close_position` never names a reason. */
  predicate NoForcedStops(calls: seq<(Call, int)>) {
    forall k :: 0 <= k < |calls| && calls[k].0.CloseCall? ==> calls[k].0.reason != STOP
  }

  /** In every such run each stop exit in the journal lost exactly one unit of risk, before fees. */
  lemma {:induction false} StopExitsLoseOneR(calls: seq<(Call, int)>, c: Config)
    requires NoForcedStops(calls)
    ensures StopsAreMinusOne(Run(calls, c))
  {
    if calls != [] {
      StopExitsLoseOneR(Init(calls), c);
      LedgerConserves(Init(calls), c);
      hide Inv, Close, DecideOrder, Sound;
      var l := Run(Init(calls), c);
      KnownOf(l);
      match Last(calls).0
      case SubmitCall(user, r, ref) =>
        assert Submit(l, user, r, ref, Last(calls).1, c).journal == l.journal;
      case TickCall(symbol, price) => TickKeepsStops(l, |l.positions|, symbol, price, Last(calls).1, c);
      case CloseCall(id, price, reason) =>
        if Closable(l, id) {
          SoundOf(l, id);
          CloseKeepsStops(l, id, price, Last(calls).1, reason, c);
        }
    }
  }

  /** An explicit close under the name of a stop exit loses one unit of risk only at the stop itself. */
  lemma ForcedStopIff(p: Position, price: real, ts: int, fees: real)
    requires Sound(p) && p.stop.Some?
    ensures Closed(p, price, ts, STOP, fees).RMultiple() == -1.0 <==> price == p.stop.value
  {
    var risk := p.RiskPerUnit();
    var move := (price - p.entryPrice) * p.side.Sign();
    assert move == if p.side == BUY then price - p.entryPrice else p.entryPrice - price;
    assert move / risk * risk == move;
    StopIsMinusOneR(p, ts, fees);
  }
}
