/** Greedy portfolio pruning (`awareness.py`). Correlation is any function of two symbols. */
module Portfolio {

  import opened Common

  datatype Direction = LONG | SHORT

  datatype Opportunity = Opportunity(symbol: string, direction: Direction, tags: seq<string>)

  datatype Held = Held(symbol: string, sector: Option<string>, direction: Direction)

  datatype Constraints = Constraints(
    maxPositions: int, maxPerSector: int, maxTotalRiskPct: real, perTradeRiskPct: real, correlationThreshold: real)

  datatype DropReason = PositionCap | RiskBudget | SectorCap(sector: string) | Correlated(symbol: string)

  /** `sectorCounts` counts held and accepted ideas by sector. */
  datatype Result = Result(
    accepted: seq<Opportunity>, dropped: seq<(Opportunity, DropReason)>,
    sectorCounts: map<string, int>, totalRiskPct: real)

  /** Symbols and directions already taken. */
  type Taken = seq<(string, Direction)>

  const SECTOR := "sector:"

  /** The sector carried by the first `sector:` tag. */
  function SectorTag(tags: seq<string>): Option<string> {
    if tags == [] then None
    else if SECTOR <= tags[0] then Some(tags[0][|SECTOR|..])
    else SectorTag(tags[1..])
  }

  /** A missing sector and an empty one count as no sector. */
  function Named(sector: Option<string>): Option<string> { if sector == Some("") then None else sector }

  function Sector(o: Opportunity): Option<string> { Named(SectorTag(o.tags)) }

  function Count(counts: map<string, int>, sector: string): int { if sector in counts then counts[sector] else 0 }

  // ----- The greedy choice -----

  predicate Clash(o: Opportunity, taken: (string, Direction), corr: (string, string) -> real, threshold: real) {
    taken.0 == o.symbol || (taken.1 == o.direction && corr(o.symbol, taken.0) >= threshold)
  }

  /** The first taken symbol an idea clashes with. */
  function Conflict(o: Opportunity, taken: Taken, corr: (string, string) -> real, threshold: real): Option<string> {
    if taken == [] then None
    else if Clash(o, taken[0], corr, threshold) then Some(taken[0].0)
    else Conflict(o, taken[1..], corr, threshold)
  }

  function HeldTaken(held: seq<Held>): (r: Taken)
    ensures |r| == |held|
  {
    seq(|held|, i requires 0 <= i < |held| => (held[i].symbol, held[i].direction))
  }

  function AcceptedTaken(accepted: seq<Opportunity>): (r: Taken)
    ensures |r| == |accepted|
  {
    seq(|accepted|, i requires 0 <= i < |accepted| => (accepted[i].symbol, accepted[i].direction))
  }

  function TakenBy(held: seq<Held>, r: Result): Taken { HeldTaken(held) + AcceptedTaken(r.accepted) }

  /** Why an idea cannot be added to a result; the checks in their order. */
  function Objection(o: Opportunity, r: Result, held: seq<Held>, c: Constraints,
      corr: (string, string) -> real): Option<DropReason>
  {
    if |r.accepted| >= c.maxPositions then Some(PositionCap)
    else if r.totalRiskPct + c.perTradeRiskPct > c.maxTotalRiskPct then Some(RiskBudget)
    else if Sector(o).Some? && Count(r.sectorCounts, Sector(o).value) >= c.maxPerSector then
      Some(SectorCap(Sector(o).value))
    else
      var clash := Conflict(o, TakenBy(held, r), corr, c.correlationThreshold);
      if clash.Some? then Some(Correlated(clash.value)) else None
  }

  function Accept(o: Opportunity, r: Result, c: Constraints): Result {
    var counts := if Sector(o).Some? then r.sectorCounts[Sector(o).value := Count(r.sectorCounts, Sector(o).value) + 1]
                  else r.sectorCounts;
    Result(r.accepted + [o], r.dropped, counts, r.totalRiskPct + c.perTradeRiskPct)
  }

  function Consider(o: Opportunity, r: Result, held: seq<Held>, c: Constraints, corr: (string, string) -> real): Result
  {
    var why := Objection(o, r, held, c, corr);
    if why.Some? then r.(dropped := r.dropped + [(o, why.value)]) else Accept(o, r, c)
  }

  function SeedCounts(held: seq<Held>): map<string, int> {
    if held == [] then map[]
    else
      var counts, sector := SeedCounts(Init(held)), Named(Last(held).sector);
      if sector.Some? then counts[sector.value := Count(counts, sector.value) + 1] else counts
  }

  function Greedy(ranked: seq<Opportunity>, held: seq<Held>, c: Constraints, corr: (string, string) -> real): Result {
    if ranked == [] then Result([], [], SeedCounts(held), 0.0)
    else Consider(Last(ranked), Greedy(Init(ranked), held, c, corr), held, c, corr)
  }

  /** The pruning loop. */
  method Apply(ranked: seq<Opportunity>, held: seq<Held>, c: Constraints, corr: (string, string) -> real)
    returns (result: Result)
    ensures result == Greedy(ranked, held, c, corr)
  {
    hide Conflict, Sector;
    var accepted: seq<Opportunity>, dropped: seq<(Opportunity, DropReason)>, totalRisk := [], [], 0.0;
    var counts := Seed(held);
    var taken: Taken := HeldTaken(held);
    assert ranked[..0] == [];
    for i := 0 to |ranked|
      invariant Result(accepted, dropped, counts, totalRisk) == Greedy(ranked[..i], held, c, corr)
      invariant taken == HeldTaken(held) + AcceptedTaken(accepted)
    {
      var opp := ranked[i];
      assert Init(ranked[..i + 1]) == ranked[..i] && Last(ranked[..i + 1]) == opp;
      ghost var before := Result(accepted, dropped, counts, totalRisk);
      assert TakenBy(held, before) == taken;
      if |accepted| >= c.maxPositions {
        dropped := dropped + [(opp, PositionCap)];
        continue;
      }
      if totalRisk + c.perTradeRiskPct > c.maxTotalRiskPct {
        dropped := dropped + [(opp, RiskBudget)];
        continue;
      }
      var sector := Sector(opp);
      if sector.Some? && Count(counts, sector.value) >= c.maxPerSector {
        dropped := dropped + [(opp, SectorCap(sector.value))];
        continue;
      }
      var dupe := CorrelatedConflict(opp, taken, corr, c.correlationThreshold);
      if dupe.Some? {
        dropped := dropped + [(opp, Correlated(dupe.value))];
        continue;
      }
      accepted := accepted + [opp];
      taken := taken + [(opp.symbol, opp.direction)];
      if sector.Some? {
        counts := counts[sector.value := Count(counts, sector.value) + 1];
      }
      totalRisk := totalRisk + c.perTradeRiskPct;
    }
    assert ranked[..|ranked|] == ranked;
    result := Result(accepted, dropped, counts, totalRisk);
  }

  method Seed(held: seq<Held>) returns (counts: map<string, int>)
    ensures counts == SeedCounts(held)
  {
    counts := map[];
    assert held[..0] == [];
    for i := 0 to |held|
      invariant counts == SeedCounts(held[..i])
    {
      assert Init(held[..i + 1]) == held[..i] && Last(held[..i + 1]) == held[i];
      var sector := Named(held[i].sector);
      if sector.Some? {
        counts := counts[sector.value := Count(counts, sector.value) + 1];
      }
    }
    assert held[..|held|] == held;
  }

  method CorrelatedConflict(o: Opportunity, taken: Taken, corr: (string, string) -> real, threshold: real)
    returns (dupe: Option<string>)
    ensures dupe == Conflict(o, taken, corr, threshold)
  {
    for i := 0 to |taken|
      invariant Conflict(o, taken, corr, threshold) == Conflict(o, taken[i..], corr, threshold)
    {
      assert taken[i..][0] == taken[i] && taken[i..][1..] == taken[i + 1..];
      if Clash(o, taken[i], corr, threshold) {
        return Some(taken[i].0);
      }
    }
    dupe := None;
  }

  // ----- Soundness -----

  lemma {:induction false} ConflictIff(o: Opportunity, taken: Taken, corr: (string, string) -> real, threshold: real)
    ensures Conflict(o, taken, corr, threshold).Some? <==>
      exists i :: 0 <= i < |taken| && Clash(o, taken[i], corr, threshold)
  {
    hide Clash;
    if taken != [] {
      ConflictIff(o, taken[1..], corr, threshold);
      assert forall i :: 1 <= i < |taken| ==> taken[i] == taken[1..][i - 1];
      assert forall i :: 0 <= i < |taken[1..]| ==> taken[1..][i] == taken[i + 1];
    }
  }

  /** The ranking is split, in order, into what was accepted and what was dropped. */
  predicate Splits(ranked: seq<Opportunity>, accepted: seq<Opportunity>, dropped: seq<(Opportunity, DropReason)>) {
    if ranked == [] then accepted == [] && dropped == []
    else
      || (accepted != [] && Last(accepted) == Last(ranked) && Splits(Init(ranked), Init(accepted), dropped))
      || (dropped != [] && Last(dropped).0 == Last(ranked) && Splits(Init(ranked), accepted, Init(dropped)))
  }

  function SectorHeld(held: seq<Held>, sector: string): nat {
    if held == [] then 0
    else SectorHeld(Init(held), sector) + (if Named(Last(held).sector) == Some(sector) then 1 else 0)
  }

  function SectorAccepted(accepted: seq<Opportunity>, sector: string): nat {
    if accepted == [] then 0
    else SectorAccepted(Init(accepted), sector) + (if Sector(Last(accepted)) == Some(sector) then 1 else 0)
  }

  function MaxInt(a: int, b: int): int { if a >= b then a else b }

  /** The limits, stated on the outcome alone. */
  ghost predicate WithinLimits(r: Result, held: seq<Held>, c: Constraints, corr: (string, string) -> real) {
    && |r.accepted| <= MaxInt(0, c.maxPositions)
    && r.totalRiskPct == |r.accepted| as real * c.perTradeRiskPct
    && (r.accepted != [] ==> r.totalRiskPct <= c.maxTotalRiskPct)
    && (forall sector: string ::
      SectorHeld(held, sector) + SectorAccepted(r.accepted, sector) <= MaxInt(SectorHeld(held, sector), c.maxPerSector))
    && (forall i, j :: 0 <= i < |held| && 0 <= j < |r.accepted| ==>
      Apart(r.accepted[j], held[i].symbol, held[i].direction, corr, c.correlationThreshold))
    && (forall i, j :: 0 <= i < j < |r.accepted| ==>
      Apart(r.accepted[j], r.accepted[i].symbol, r.accepted[i].direction, corr, c.correlationThreshold))
  }

  /** Two different symbols, on opposite sides or correlated below the threshold. */
  predicate Apart(o: Opportunity, symbol: string, direction: Direction, corr: (string, string) -> real,
      threshold: real)
  {
    o.symbol != symbol && (o.direction != direction || corr(o.symbol, symbol) < threshold)
  }

  ghost predicate Counted(r: Result, held: seq<Held>) {
    forall sector: string ::
      Count(r.sectorCounts, sector) == SectorHeld(held, sector) + SectorAccepted(r.accepted, sector)
  }

  lemma {:induction false} SeedCounted(held: seq<Held>, sector: string)
    ensures Count(SeedCounts(held), sector) == SectorHeld(held, sector)
  {
    if held != [] {
      SeedCounted(Init(held), sector);
      var s := Named(Last(held).sector);
      if s.Some? {
        SeedCounted(Init(held), s.value);
      }
    }
  }

  lemma SectorSnoc(accepted: seq<Opportunity>, o: Opportunity, sector: string)
    ensures SectorAccepted(accepted + [o], sector) ==
      SectorAccepted(accepted, sector) + (if Sector(o) == Some(sector) then 1 else 0)
  {
    assert Init(accepted + [o]) == accepted;
  }

  lemma AcceptCounts(o: Opportunity, r: Result, held: seq<Held>, c: Constraints)
    requires Counted(r, held)
    ensures Counted(Accept(o, r, c), held)
  {
    hide Sector;
    forall sector: string
      ensures Count(Accept(o, r, c).sectorCounts, sector) ==
        SectorHeld(held, sector) + SectorAccepted(r.accepted + [o], sector)
    {
      SectorSnoc(r.accepted, o, sector);
    }
  }

  lemma AcceptWithinLimits(o: Opportunity, r: Result, held: seq<Held>, c: Constraints, corr: (string, string) -> real)
    requires WithinLimits(r, held, c, corr) && Counted(r, held) && Objection(o, r, held, c, corr) == None
    ensures WithinLimits(Accept(o, r, c), held, c, corr)
  {
    hide Sector, Conflict, Count, SectorHeld, SectorAccepted;
    var taken := TakenBy(held, r);
    ConflictIff(o, taken, corr, c.correlationThreshold);
    forall i | 0 <= i < |held| ensures Apart(o, held[i].symbol, held[i].direction, corr, c.correlationThreshold) {
      assert taken[i] == (held[i].symbol, held[i].direction);
    }
    forall i | 0 <= i < |r.accepted|
      ensures Apart(o, r.accepted[i].symbol, r.accepted[i].direction, corr, c.correlationThreshold)
    {
      assert taken[|held| + i] == (r.accepted[i].symbol, r.accepted[i].direction);
    }
    hide Apart, Clash;
    forall sector: string
      ensures SectorHeld(held, sector) + SectorAccepted(r.accepted + [o], sector) <=
        MaxInt(SectorHeld(held, sector), c.maxPerSector)
    {
      SectorSnoc(r.accepted, o, sector);
      assert Count(r.sectorCounts, sector) == SectorHeld(held, sector) + SectorAccepted(r.accepted, sector);
    }
    OneMoreTimes(|r.accepted|, c.perTradeRiskPct);
  }

  /** The result splits the ranking and respects every limit. */
  lemma {:induction false} GreedyIsSound(ranked: seq<Opportunity>, held: seq<Held>, c: Constraints,
      corr: (string, string) -> real)
    ensures var r := Greedy(ranked, held, c, corr);
      Splits(ranked, r.accepted, r.dropped) && WithinLimits(r, held, c, corr) && Counted(r, held)
  {
    hide Objection, WithinLimits, Counted;
    if ranked == [] {
      EmptyIsSound(held, c, corr);
    } else {
      GreedyIsSound(Init(ranked), held, c, corr);
      var m, o := Greedy(Init(ranked), held, c, corr), Last(ranked);
      var why := Objection(o, m, held, c, corr);
      if why.Some? {
        assert Init(m.dropped + [(o, why.value)]) == m.dropped;
        DropKeeps(m, (o, why.value), held, c, corr);
      } else {
        assert Init(m.accepted + [o]) == m.accepted;
        AcceptCounts(o, m, held, c);
        AcceptWithinLimits(o, m, held, c, corr);
      }
    }
  }

  lemma EmptyIsSound(held: seq<Held>, c: Constraints, corr: (string, string) -> real)
    ensures var r := Result([], [], SeedCounts(held), 0.0); WithinLimits(r, held, c, corr) && Counted(r, held)
  {
    forall sector: string ensures Count(SeedCounts(held), sector) == SectorHeld(held, sector) {
      SeedCounted(held, sector);
    }
  }

  lemma DropKeeps(r: Result, d: (Opportunity, DropReason), held: seq<Held>, c: Constraints,
      corr: (string, string) -> real)
    requires WithinLimits(r, held, c, corr) && Counted(r, held)
    ensures var r' := r.(dropped := r.dropped + [d]); WithinLimits(r', held, c, corr) && Counted(r', held)
  {}

  // ----- Maximality -----

  /** A dropped idea stays unacceptable: what blocked it only gets tighter, or nothing is accepted any more. */
  lemma ObjectionPersists(o: Opportunity, next: Opportunity, r: Result, held: seq<Held>, c: Constraints,
      corr: (string, string) -> real)
    requires Objection(o, r, held, c, corr).Some?
    ensures Objection(o, Consider(next, r, held, c, corr), held, c, corr).Some?
  {
    hide Sector, Clash, Conflict;
    var r' := Consider(next, r, held, c, corr);
    ConflictIff(o, TakenBy(held, r), corr, c.correlationThreshold);
    ConflictIff(o, TakenBy(held, r'), corr, c.correlationThreshold);
    assert forall i :: 0 <= i < |TakenBy(held, r)| ==> TakenBy(held, r')[i] == TakenBy(held, r)[i];
  }

  /** The result with one more idea accepted. */
  function With(r: Result, o: Opportunity, c: Constraints): Result {
    r.(accepted := r.accepted + [o], totalRiskPct := (|r.accepted| + 1) as real * c.perTradeRiskPct)
  }

  /** An objection is raised exactly when the idea does not fit: with it some limit would be broken. */
  lemma ObjectionIff(o: Opportunity, r: Result, held: seq<Held>, c: Constraints, corr: (string, string) -> real)
    requires WithinLimits(r, held, c, corr) && Counted(r, held)
    ensures Objection(o, r, held, c, corr).Some? <==> !WithinLimits(With(r, o, c), held, c, corr)
  {
    hide WithinLimits, Counted, Objection, Sector;
    OneMoreTimes(|r.accepted|, c.perTradeRiskPct);
    RiskIsCounted(r, held, c, corr);
    if Objection(o, r, held, c, corr) == None {
      AcceptWithinLimits(o, r, held, c, corr);
      LimitsSeeAcceptedOnly(Accept(o, r, c), With(r, o, c), held, c, corr);
    } else {
      ObjectedBreaksLimit(o, r, held, c, corr);
    }
  }

  lemma RiskIsCounted(r: Result, held: seq<Held>, c: Constraints, corr: (string, string) -> real)
    requires WithinLimits(r, held, c, corr)
    ensures r.totalRiskPct == |r.accepted| as real * c.perTradeRiskPct
  {}

  lemma LimitsSeeAcceptedOnly(a: Result, b: Result, held: seq<Held>, c: Constraints, corr: (string, string) -> real)
    requires a.accepted == b.accepted && a.totalRiskPct == b.totalRiskPct && WithinLimits(a, held, c, corr)
    ensures WithinLimits(b, held, c, corr)
  {
    hide Apart, SectorAccepted, SectorHeld;
  }

  lemma ObjectedBreaksLimit(o: Opportunity, r: Result, held: seq<Held>, c: Constraints, corr: (string, string) -> real)
    requires r.totalRiskPct == |r.accepted| as real * c.perTradeRiskPct && Counted(r, held)
    requires Objection(o, r, held, c, corr).Some?
    ensures !WithinLimits(With(r, o, c), held, c, corr)
  {
    hide Sector, Conflict, SectorHeld, SectorAccepted;
    OneMoreTimes(|r.accepted|, c.perTradeRiskPct);
    var m := With(r, o, c);
    match Objection(o, r, held, c, corr).value
    case PositionCap =>
    case RiskBudget =>
    case SectorCap(sector) =>
      SectorSnoc(r.accepted, o, sector);
      assert Count(r.sectorCounts, sector) == SectorHeld(held, sector) + SectorAccepted(r.accepted, sector);
    case Correlated(_) =>
      var taken := TakenBy(held, r);
      ConflictIff(o, taken, corr, c.correlationThreshold);
      var i :| 0 <= i < |taken| && Clash(o, taken[i], corr, c.correlationThreshold);
      assert m.accepted[|r.accepted|] == o;
      if i < |held| {
        assert taken[i] == (held[i].symbol, held[i].direction);
        assert !Apart(m.accepted[|r.accepted|], held[i].symbol, held[i].direction, corr, c.correlationThreshold);
      } else {
        var a := r.accepted[i - |held|];
        assert taken[i] == (a.symbol, a.direction) && m.accepted[i - |held|] == a;
        assert !Apart(m.accepted[|r.accepted|], a.symbol, a.direction, corr, c.correlationThreshold);
      }
  }

  /** Nothing dropped could be added back: with any dropped idea the final result would break a limit. */
  lemma GreedyIsMaximal(
    ranked: seq<Opportunity>, held: seq<Held>, c: Constraints, corr: (string, string) -> real, k: nat)
    requires k < |Greedy(ranked, held, c, corr).dropped|
    ensures var r := Greedy(ranked, held, c, corr); !WithinLimits(With(r, r.dropped[k].0, c), held, c, corr)
  {
    hide Objection, WithinLimits;
    DroppedIsObjected(ranked, held, c, corr, k);
    GreedyIsSound(ranked, held, c, corr);
    var r := Greedy(ranked, held, c, corr);
    ObjectionIff(r.dropped[k].0, r, held, c, corr);
  }

  /** And it drops no idea that fits: the next one in the ranking is taken exactly when the limits allow it. */
  lemma GreedyTakesWhatFits(
    ranked: seq<Opportunity>, o: Opportunity, held: seq<Held>, c: Constraints, corr: (string, string) -> real)
    ensures var r, next := Greedy(ranked, held, c, corr), Greedy(ranked + [o], held, c, corr);
      if WithinLimits(With(r, o, c), held, c, corr) then
        next.accepted == r.accepted + [o] && next.dropped == r.dropped
      else next.accepted == r.accepted && |next.dropped| == |r.dropped| + 1 && Last(next.dropped).0 == o
  {
    hide Objection, WithinLimits;
    assert Init(ranked + [o]) == ranked;
    GreedyIsSound(ranked, held, c, corr);
    ObjectionIff(o, Greedy(ranked, held, c, corr), held, c, corr);
  }

  lemma {:induction false} DroppedIsObjected(
    ranked: seq<Opportunity>, held: seq<Held>, c: Constraints, corr: (string, string) -> real, k: nat)
    requires k < |Greedy(ranked, held, c, corr).dropped|
    ensures var r := Greedy(ranked, held, c, corr); Objection(r.dropped[k].0, r, held, c, corr).Some?
  {
    hide Objection;
    var m, o := Greedy(Init(ranked), held, c, corr), Last(ranked);
    if k < |m.dropped| {
      DroppedIsObjected(Init(ranked), held, c, corr, k);
      ObjectionPersists(m.dropped[k].0, o, m, held, c, corr);
    } else {
      DropIsObjected(o, m, held, c, corr);
    }
  }

  lemma DropIsObjected(o: Opportunity, r: Result, held: seq<Held>, c: Constraints, corr: (string, string) -> real)
    requires Objection(o, r, held, c, corr).Some?
    ensures Objection(o, Consider(o, r, held, c, corr), held, c, corr).Some?
  {
    ObjectionPersists(o, o, r, held, c, corr);
  }

  // ----- Reasons -----

  /** What a reason claims about a result. */
  ghost predicate Justified(reason: DropReason, o: Opportunity, r: Result, held: seq<Held>, c: Constraints,
      corr: (string, string) -> real)
  {
    match reason
    case PositionCap => |r.accepted| >= c.maxPositions
    case RiskBudget => (|r.accepted| + 1) as real * c.perTradeRiskPct > c.maxTotalRiskPct
    case SectorCap(sector) =>
      Sector(o) == Some(sector) && SectorHeld(held, sector) + SectorAccepted(r.accepted, sector) >= c.maxPerSector
    case Correlated(symbol) =>
      || (exists i :: 0 <= i < |held| && held[i].symbol == symbol
           && !Apart(o, symbol, held[i].direction, corr, c.correlationThreshold))
      || (exists i :: 0 <= i < |r.accepted| && r.accepted[i].symbol == symbol
           && !Apart(o, symbol, r.accepted[i].direction, corr, c.correlationThreshold))
  }

  lemma {:induction false} ConflictNamesOne(o: Opportunity, taken: Taken, corr: (string, string) -> real, t: real)
    requires Conflict(o, taken, corr, t).Some?
    ensures exists i ::
      0 <= i < |taken| && taken[i].0 == Conflict(o, taken, corr, t).value && Clash(o, taken[i], corr, t)
  {
    hide Clash;
    if !Clash(o, taken[0], corr, t) {
      ConflictNamesOne(o, taken[1..], corr, t);
      assert forall i :: 0 <= i < |taken[1..]| ==> taken[1..][i] == taken[i + 1];
    }
  }

  /** An objection is true when it is raised. */
  lemma ObjectionIsJustified(o: Opportunity, r: Result, held: seq<Held>, c: Constraints, corr: (string, string) -> real)
    requires r.totalRiskPct == |r.accepted| as real * c.perTradeRiskPct && Counted(r, held)
    requires Objection(o, r, held, c, corr).Some?
    ensures Justified(Objection(o, r, held, c, corr).value, o, r, held, c, corr)
  {
    hide Sector, Conflict, SectorHeld, SectorAccepted;
    OneMoreTimes(|r.accepted|, c.perTradeRiskPct);
    match Objection(o, r, held, c, corr).value
    case PositionCap =>
    case RiskBudget =>
    case SectorCap(sector) =>
      assert Count(r.sectorCounts, sector) == SectorHeld(held, sector) + SectorAccepted(r.accepted, sector);
    case Correlated(_) =>
      var taken := TakenBy(held, r);
      ConflictNamesOne(o, taken, corr, c.correlationThreshold);
      var i :| 0 <= i < |taken| && taken[i].0 == Conflict(o, taken, corr, c.correlationThreshold).value
               && Clash(o, taken[i], corr, c.correlationThreshold);
      if i < |held| {
        assert taken[i] == (held[i].symbol, held[i].direction);
      } else {
        var a := r.accepted[i - |held|];
        assert taken[i] == (a.symbol, a.direction);
      }
  }

  /** And stays true: counts only grow, members stay, and once the budget is spent nothing more is accepted. */
  lemma JustifiedPersists(reason: DropReason, o: Opportunity, next: Opportunity, r: Result, held: seq<Held>,
      c: Constraints, corr: (string, string) -> real)
    requires Justified(reason, o, r, held, c, corr) && r.totalRiskPct == |r.accepted| as real * c.perTradeRiskPct
    ensures Justified(reason, o, Consider(next, r, held, c, corr), held, c, corr)
  {
    hide Sector, Conflict, SectorHeld, SectorAccepted, Apart, Count;
    OneMoreTimes(|r.accepted|, c.perTradeRiskPct);
    var r' := Consider(next, r, held, c, corr);
    if r'.accepted != r.accepted {
      match reason
      case PositionCap =>
      case RiskBudget =>
      case SectorCap(sector) => SectorSnoc(r.accepted, next, sector);
      case Correlated(symbol) =>
        assert forall i :: 0 <= i < |r.accepted| ==> r'.accepted[i] == r.accepted[i];
    }
  }

  /** Every dropped idea comes with a reason that still holds of the final result. */
  lemma {:induction false} DropReasonsHold(
    ranked: seq<Opportunity>, held: seq<Held>, c: Constraints, corr: (string, string) -> real, k: nat)
    requires k < |Greedy(ranked, held, c, corr).dropped|
    ensures var r := Greedy(ranked, held, c, corr);
      Justified(r.dropped[k].1, r.dropped[k].0, r, held, c, corr)
  {
    hide Objection, Justified, WithinLimits, Counted, Splits;
    var m, o := Greedy(Init(ranked), held, c, corr), Last(ranked);
    GreedyIsSound(Init(ranked), held, c, corr);
    RiskIsCounted(m, held, c, corr);
    if k < |m.dropped| {
      DropReasonsHold(Init(ranked), held, c, corr, k);
      JustifiedPersists(m.dropped[k].1, m.dropped[k].0, o, m, held, c, corr);
    } else {
      ObjectionIsJustified(o, m, held, c, corr);
      JustifiedPersists(Objection(o, m, held, c, corr).value, o, o, m, held, c, corr);
    }
  }

  // ----- Sectors -----

  /** The sector of an idea is what follows the prefix in its first tag with that prefix, if that is not empty. */
  lemma {:induction false} SectorTagIff(tags: seq<string>, sector: string)
    ensures SectorTag(tags) == Some(sector) <==> exists i ::
      0 <= i < |tags| && tags[i] == SECTOR + sector && forall j :: 0 <= j < i ==> !(SECTOR <= tags[j])
  {
    if tags != [] {
      if SECTOR <= tags[0] {
        assert tags[0] == SECTOR + tags[0][|SECTOR|..];
        assert (SECTOR + sector)[|SECTOR|..] == sector;
      } else {
        SectorTagIff(tags[1..], sector);
        assert forall i :: 0 <= i < |tags| - 1 ==> tags[1..][i] == tags[i + 1];
        assert SECTOR <= SECTOR + sector;
        if SectorTag(tags) == Some(sector) {
          var i :| 0 <= i < |tags| - 1 && tags[1..][i] == SECTOR + sector
                   && forall j :: 0 <= j < i ==> !(SECTOR <= tags[1..][j]);
          assert tags[i + 1] == SECTOR + sector;
          assert forall j :: 0 <= j < i + 1 ==> !(SECTOR <= tags[j]) by {
            forall j | 0 <= j < i + 1 ensures !(SECTOR <= tags[j]) {
              if j > 0 {
                assert tags[1..][j - 1] == tags[j];
              }
            }
          }
        }
      }
    }
  }

  lemma SectorIff(o: Opportunity, sector: string)
    ensures Sector(o) == Some(sector) <==> SectorTag(o.tags) == Some(sector) && sector != ""
  {}

  // ----- The default oracle -----

  /** The sector of a symbol in the ranking: the last idea on a symbol decides. */
  function SectorOf(ranked: seq<Opportunity>, symbol: string): Option<string> {
    if ranked == [] then None
    else if Last(ranked).symbol == symbol then Sector(Last(ranked))
    else SectorOf(Init(ranked), symbol)
  }

  /** With distinct symbols in the ranking that is simply the sector of the idea on the symbol. */
  lemma {:induction false} SectorOfMeaning(ranked: seq<Opportunity>, i: nat)
    requires i < |ranked| && forall j :: i < j < |ranked| ==> ranked[j].symbol != ranked[i].symbol
    ensures SectorOf(ranked, ranked[i].symbol) == Sector(ranked[i])
  {
    hide Sector;
    if i < |ranked| - 1 {
      assert Init(ranked)[i] == ranked[i];
      SectorOfMeaning(Init(ranked), i);
    }
  }

  function DefaultCorrelation(ranked: seq<Opportunity>): (string, string) -> real {
    (a: string, b: string) =>
      if SectorOf(ranked, a).Some? && SectorOf(ranked, a) == SectorOf(ranked, b) then 0.8 else 0.2
  }

  /** With the default oracle and a threshold up to 0.8, no two accepted ideas share a sector and a direction. */
  lemma OneIdeaPerSectorAndSide(ranked: seq<Opportunity>, held: seq<Held>, c: Constraints, i: nat, j: nat)
    requires c.correlationThreshold <= 0.8
    requires i < j < |Greedy(ranked, held, c, DefaultCorrelation(ranked)).accepted|
    ensures var accepted := Greedy(ranked, held, c, DefaultCorrelation(ranked)).accepted;
      var a, b := accepted[i], accepted[j];
      SectorOf(ranked, a.symbol).Some? && a.direction == b.direction ==>
      SectorOf(ranked, a.symbol) != SectorOf(ranked, b.symbol)
  {
    hide Greedy, SectorOf;
    GreedyIsSound(ranked, held, c, DefaultCorrelation(ranked));
    var r := Greedy(ranked, held, c, DefaultCorrelation(ranked));
    assert Apart(r.accepted[j], r.accepted[i].symbol, r.accepted[i].direction, DefaultCorrelation(ranked),
      c.correlationThreshold);
  }

  const FIRST := Opportunity("A", LONG, [SECTOR + "X"])
  const SECOND := Opportunity("B", LONG, [SECTOR + "X"])

  lemma WitnessSectors()
    ensures Sector(FIRST) == Some("X") && Sector(SECOND) == Some("X")
    ensures SectorOf([FIRST, SECOND], "A") == Some("X") && SectorOf([FIRST, SECOND], "B") == Some("X")
  {
    assert SECTOR <= SECTOR + "X" && (SECTOR + "X")[|SECTOR|..] == "X";
    assert SectorTag([SECTOR + "X"]) == Some("X");
    assert Init([FIRST, SECOND]) == [FIRST];
  }

  /** Above 0.8 the default oracle lets two ideas of one sector and direction through. */
  lemma HighThresholdAdmitsTwins(threshold: real)
    requires threshold > 0.8
    ensures var ranked := [FIRST, SECOND];
      Greedy(ranked, [], Constraints(10, 3, 6.0, 1.0, threshold), DefaultCorrelation(ranked)).accepted == ranked
  {
    WitnessSectors();
    hide Sector, SectorOf;
    var ranked, c := [FIRST, SECOND], Constraints(10, 3, 6.0, 1.0, threshold);
    var corr := DefaultCorrelation(ranked);
    assert Init(ranked) == [FIRST] && Init([FIRST]) == [];
    var r0 := Greedy([], [], c, corr);
    assert TakenBy([], r0) == [];
    var r1 := Greedy([FIRST], [], c, corr);
    assert r1.accepted == [FIRST];
    assert TakenBy([], r1) == [("A", LONG)];
    ConflictIff(SECOND, TakenBy([], r1), corr, threshold);
  }
}
