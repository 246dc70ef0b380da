/** Max pain (`max_pain` of `options_math.py`): the strike at which option writers pay out least. */
module MaxPain {

  import opened Common

  /** Open interest at a strike, in the order of the chain's dictionary. */
  datatype Row = Row(strike: real, callOi: int, putOi: int)

  /** What one row costs its writers at an expiry price. */
  function RowLoss(r: Row, price: real): real {
    Max(0.0, price - r.strike) * r.callOi as real + Max(0.0, r.strike - price) * r.putOi as real
  }

  function Loss(chain: seq<Row>, price: real): real {
    if chain == [] then 0.0 else Loss(Init(chain), price) + RowLoss(Last(chain), price)
  }

  predicate Listed(chain: seq<Row>, strike: real) { exists i :: 0 <= i < |chain| && chain[i].strike == strike }

  function Calls(chain: seq<Row>): int { if chain == [] then 0 else Calls(Init(chain)) + Last(chain).callOi }

  function Puts(chain: seq<Row>): int { if chain == [] then 0 else Puts(Init(chain)) + Last(chain).putOi }

  predicate NonNegative(chain: seq<Row>) {
    forall i :: 0 <= i < |chain| ==> chain[i].callOi >= 0 && chain[i].putOi >= 0
  }

  // ----- Sorted strikes -----

  function Itself(x: real): real { x }

  predicate Ascending(s: seq<real>) { forall i, j :: 0 <= i < j < |s| ==> s[i] <= s[j] }

  lemma InsertAscends(s: seq<real>, x: real)
    requires Ascending(s)
    ensures Ascending(InsertBy(s, x, Itself))
  {
    var k := InsertAt(s, x, Itself);
    hide InsertBy;
  }

  lemma {:induction false} InsertMembers(s: seq<real>, x: real, y: real)
    ensures y in InsertBy(s, x, Itself) <==> y == x || y in s
  {
    if !(s == [] || Last(s) <= x) {
      InsertMembers(Init(s), x, y);
      assert s == Init(s) + [Last(s)];
    }
  }

  /** The strikes in ascending order. */
  function SortedStrikes(chain: seq<Row>): seq<real> {
    if chain == [] then [] else InsertBy(SortedStrikes(Init(chain)), Last(chain).strike, Itself)
  }

  lemma {:induction false} StrikesAscend(chain: seq<Row>)
    ensures Ascending(SortedStrikes(chain))
  {
    if chain != [] {
      StrikesAscend(Init(chain));
      InsertAscends(SortedStrikes(Init(chain)), Last(chain).strike);
    }
  }

  lemma {:induction false} StrikesAreListed(chain: seq<Row>, y: real)
    ensures y in SortedStrikes(chain) <==> Listed(chain, y)
  {
    if chain != [] {
      StrikesAreListed(Init(chain), y);
      InsertMembers(SortedStrikes(Init(chain)), Last(chain).strike, y);
      ListedLast(chain, y);
    }
  }

  lemma ListedLast(chain: seq<Row>, y: real)
    requires chain != []
    ensures Listed(chain, y) <==> y == Last(chain).strike || Listed(Init(chain), y)
  {
    if Listed(chain, y) {
      var i :| 0 <= i < |chain| && chain[i].strike == y;
      assert i < |chain| - 1 ==> Init(chain)[i].strike == y;
    }
    if Listed(Init(chain), y) {
      var i :| 0 <= i < |chain| - 1 && Init(chain)[i].strike == y;
      assert chain[i].strike == y;
    }
    assert chain[|chain| - 1].strike == Last(chain).strike;
  }

  // ----- The search -----

  method TotalPayout(chain: seq<Row>, price: real) returns (total: real)
    ensures total == Loss(chain, price)
  {
    total := 0.0;
    assert chain[..0] == [];
    for i := 0 to |chain|
      invariant total == Loss(chain[..i], price)
    {
      assert Init(chain[..i + 1]) == chain[..i] && Last(chain[..i + 1]) == chain[i];
      total := total + Max(0.0, price - chain[i].strike) * chain[i].callOi as real;
      total := total + Max(0.0, chain[i].strike - price) * chain[i].putOi as real;
    }
    assert chain[..|chain|] == chain;
  }

  /** The smallest listed strike with the least payout among the listed ones. */
  ghost predicate IsBest(chain: seq<Row>, strike: real) {
    && Listed(chain, strike)
    && forall s :: Listed(chain, s) ==>
      Loss(chain, strike) <= Loss(chain, s) && (Loss(chain, s) == Loss(chain, strike) ==> strike <= s)
  }

  method MaxPainStrike(chain: seq<Row>) returns (best: Option<real>)
    ensures best == None <==> chain == []
    ensures best.Some? ==> IsBest(chain, best.value)
  {
    hide Loss;
    if chain == [] {
      return None;
    }
    var strikes := SortedStrikes(chain);
    StrikesAscend(chain);
    assert Listed(chain, chain[0].strike);
    StrikesAreListed(chain, chain[0].strike);
    hide SortedStrikes;
    best := None;
    var bestLoss := 0.0;
    for i := 0 to |strikes|
      invariant best == None <==> i == 0
      invariant best.Some? ==> best.value in strikes[..i] && bestLoss == Loss(chain, best.value)
      invariant forall j :: 0 <= j < i ==>
        bestLoss <= Loss(chain, strikes[j]) && (Loss(chain, strikes[j]) == bestLoss ==> best.value <= strikes[j])
    {
      var total := TotalPayout(chain, strikes[i]);
      if best == None || total < bestLoss {
        bestLoss := total;
        best := Some(strikes[i]);
      }
    }
    StrikesAreListed(chain, best.value);
    forall s | Listed(chain, s)
      ensures Loss(chain, best.value) <= Loss(chain, s)
        && (Loss(chain, s) == Loss(chain, best.value) ==> best.value <= s)
    {
      StrikesAreListed(chain, s);
    }
  }

  // ----- The listed optimum is the global optimum -----

  /** The nearest strikes around a price: no listed strike lies strictly between them. */
  predicate Brackets(chain: seq<Row>, a: real, x: real, b: real) {
    a <= x <= b && forall i :: 0 <= i < |chain| ==> chain[i].strike <= a || chain[i].strike >= b
  }

  function Times(k: real, x: real): real { k * x }

  function Weigh(p: real, u: real, q: real, v: real): real { p * u + q * v }

  lemma TimesAdds(k: real, x: real, y: real)
    ensures Times(k, x + y) == Times(k, x) + Times(k, y)
  {}

  lemma WeighAdds(p: real, u: real, u': real, q: real, v: real, v': real)
    ensures Weigh(p, u + u', q, v + v') == Weigh(p, u, q, v) + Weigh(p, u', q, v')
  {
    TimesAdds(p, u, u');
    TimesAdds(q, v, v');
  }

  /** Between neighbouring strikes the payout is a straight line. */
  lemma {:induction false} LossIsLinear(chain: seq<Row>, a: real, x: real, b: real)
    requires Brackets(chain, a, x, b)
    ensures Times(b - a, Loss(chain, x)) == Weigh(b - x, Loss(chain, a), x - a, Loss(chain, b))
  {
    if chain != [] {
      hide RowLoss, Times, Weigh;
      var rest, r := Init(chain), Last(chain);
      LossIsLinear(rest, a, x, b);
      RowIsLinear(r, a, x, b);
      TimesAdds(b - a, Loss(rest, x), RowLoss(r, x));
      WeighAdds(b - x, Loss(rest, a), RowLoss(r, a), x - a, Loss(rest, b), RowLoss(r, b));
    }
  }

  lemma RowIsLinear(r: Row, a: real, x: real, b: real)
    requires a <= x <= b && (r.strike <= a || r.strike >= b)
    ensures Times(b - a, RowLoss(r, x)) == Weigh(b - x, RowLoss(r, a), x - a, RowLoss(r, b))
  {
    var k := r.strike;
    OneSided(r, a);
    OneSided(r, x);
    OneSided(r, b);
    hide RowLoss;
    if k <= a {
      Interpolate(a, x, b, k, r.callOi as real);
    } else {
      InterpolateDown(a, x, b, k, r.putOi as real);
    }
  }

  /** Above its strike a row pays on calls only, below it on puts only. */
  lemma OneSided(r: Row, price: real)
    ensures r.strike <= price ==> RowLoss(r, price) == (price - r.strike) * r.callOi as real
    ensures r.strike >= price ==> RowLoss(r, price) == (r.strike - price) * r.putOi as real
  {}

  lemma Interpolate(a: real, x: real, b: real, k: real, c: real)
    ensures (b - a) * ((x - k) * c) == (b - x) * ((a - k) * c) + (x - a) * ((b - k) * c)
  {
    assert (b - a) * (x - k) == (b - x) * (a - k) + (x - a) * (b - k);
    var p, q, r := (b - a) * (x - k), (b - x) * (a - k), (x - a) * (b - k);
    assert p * c == q * c + r * c;
  }

  lemma InterpolateDown(a: real, x: real, b: real, k: real, c: real)
    ensures (b - a) * ((k - x) * c) == (b - x) * ((k - a) * c) + (x - a) * ((k - b) * c)
  {
    assert (b - a) * (k - x) == (b - x) * (k - a) + (x - a) * (k - b);
    var p, q, r := (b - a) * (k - x), (b - x) * (k - a), (x - a) * (k - b);
    assert p * c == q * c + r * c;
  }

  /** A straight line is nowhere below both its ends. */
  lemma EndIsLower(chain: seq<Row>, a: real, x: real, b: real)
    requires Brackets(chain, a, x, b)
    ensures Loss(chain, a) <= Loss(chain, x) || Loss(chain, b) <= Loss(chain, x)
  {
    hide Loss, Times, Weigh;
    if a < b {
      LossIsLinear(chain, a, x, b);
      Average(b - x, x - a, b - a, Loss(chain, a), Loss(chain, b), Loss(chain, x));
    }
  }

  lemma Average(p: real, q: real, k: real, u: real, v: real, m: real)
    requires p >= 0.0 && q >= 0.0 && k == p + q > 0.0 && Times(k, m) == Weigh(p, u, q, v)
    ensures u <= m || v <= m
  {
    assert p * (u - m) + q * (v - m) == 0.0;
    if u > m && v > m {
      PositiveSum(p, q, u - m, v - m);
    }
  }

  lemma PositiveSum(p: real, q: real, d: real, e: real)
    requires p >= 0.0 && q >= 0.0 && p + q > 0.0 && d > 0.0 && e > 0.0
    ensures p * d + q * e > 0.0
  {
    if p > 0.0 {
      assert p * d > 0.0 && q * e >= 0.0;
    } else {
      assert q * e > 0.0;
    }
  }

  /** Above every strike the payout is a line whose slope is the total call interest. */
  lemma {:induction false} AboveChain(chain: seq<Row>, top: real, x: real)
    requires x >= top && forall i :: 0 <= i < |chain| ==> top >= chain[i].strike
    ensures Loss(chain, x) == Loss(chain, top) + Times(x - top, Calls(chain) as real)
  {
    if chain != [] {
      var rest, r := Init(chain), Last(chain);
      assert r == chain[|chain| - 1];
      AboveChain(rest, top, x);
      OneSided(r, x);
      OneSided(r, top);
      hide RowLoss;
      Factor(x - r.strike, top - r.strike, x - top, r.callOi as real);
      TimesAdds(x - top, Calls(rest) as real, r.callOi as real);
    }
  }

  /** Below every strike it is a line falling with the total put interest. */
  lemma {:induction false} BelowChain(chain: seq<Row>, bottom: real, x: real)
    requires x <= bottom && forall i :: 0 <= i < |chain| ==> bottom <= chain[i].strike
    ensures Loss(chain, x) == Loss(chain, bottom) + Times(bottom - x, Puts(chain) as real)
  {
    if chain != [] {
      var rest, r := Init(chain), Last(chain);
      assert r == chain[|chain| - 1];
      BelowChain(rest, bottom, x);
      OneSided(r, x);
      OneSided(r, bottom);
      hide RowLoss;
      Factor(r.strike - x, r.strike - bottom, bottom - x, r.putOi as real);
      TimesAdds(bottom - x, Puts(rest) as real, r.putOi as real);
    }
  }

  lemma Factor(p: real, q: real, d: real, c: real)
    requires p == q + d
    ensures p * c == q * c + Times(d, c)
  {}

  /** The largest strike up to a price, if there is one. */
  function Below(chain: seq<Row>, x: real): (a: Option<real>)
    ensures a.Some? ==> Listed(chain, a.value) && a.value <= x
    ensures forall i :: 0 <= i < |chain| && chain[i].strike <= x ==> a.Some? && chain[i].strike <= a.value
  {
    if chain == [] then None
    else
      var rest, k := Below(Init(chain), x), Last(chain).strike;
      ListedLast(chain, k);
      if rest.Some? then ListedLast(chain, rest.value);
        if k <= x && k > rest.value then Some(k) else rest
      else if k <= x then Some(k) else None
  }

  /** The smallest strike from a price up, if there is one. */
  function Above(chain: seq<Row>, x: real): (b: Option<real>)
    ensures b.Some? ==> Listed(chain, b.value) && b.value >= x
    ensures forall i :: 0 <= i < |chain| && chain[i].strike >= x ==> b.Some? && chain[i].strike >= b.value
  {
    if chain == [] then None
    else
      var rest, k := Above(Init(chain), x), Last(chain).strike;
      ListedLast(chain, k);
      if rest.Some? then ListedLast(chain, rest.value);
        if k >= x && k < rest.value then Some(k) else rest
      else if k >= x then Some(k) else None
  }

  lemma TimesSign(k: real, x: real)
    requires k >= 0.0 && x >= 0.0
    ensures Times(k, x) >= 0.0
  {}

  lemma BestBeatsAll(chain: seq<Row>, strike: real, x: real)
    requires IsBest(chain, strike) && Calls(chain) >= 0 && Puts(chain) >= 0
    ensures Loss(chain, strike) <= Loss(chain, x)
  {
    hide Loss, Times, Calls, Puts;
    var a, b := Below(chain, x), Above(chain, x);
    if a.Some? && b.Some? {
      EndIsLower(chain, a.value, x, b.value);
    } else if a.Some? {
      AboveChain(chain, a.value, x);
      TimesSign(x - a.value, Calls(chain) as real);
    } else if b.Some? {
      BelowChain(chain, b.value, x);
      TimesSign(b.value - x, Puts(chain) as real);
    }
  }

  /** A price far enough out to undercut any payout, when a slope is negative. */
  lemma Undercut(gap: real, slope: real) returns (t: real)
    requires slope < 0.0 && gap >= 0.0
    ensures t > 0.0 && gap + Times(t, slope) < 0.0
  {
    t := gap / (-slope) + 1.0;
    assert gap / (-slope) * (-slope) == gap;
    assert gap / (-slope) >= 0.0;
    assert t * slope == -gap + slope;
  }

  /** The strike found is a global minimum over all prices, listed or not, exactly when neither the calls nor the
      puts have negative open interest in total. */
  lemma BestIsGlobalIff(chain: seq<Row>, strike: real)
    requires IsBest(chain, strike)
    ensures (forall x :: Loss(chain, strike) <= Loss(chain, x)) <==> Calls(chain) >= 0 && Puts(chain) >= 0
  {
    hide Loss, Times, Calls, Puts;
    if Calls(chain) >= 0 && Puts(chain) >= 0 {
      forall x ensures Loss(chain, strike) <= Loss(chain, x) {
        BestBeatsAll(chain, strike, x);
      }
    } else {
      var bottom, top := Extremes(chain);
      if Calls(chain) < 0 {
        var t := Undercut(Loss(chain, top) - Loss(chain, strike), Calls(chain) as real);
        AboveChain(chain, top, top + t);
        assert Loss(chain, top + t) < Loss(chain, strike);
      } else {
        var t := Undercut(Loss(chain, bottom) - Loss(chain, strike), Puts(chain) as real);
        BelowChain(chain, bottom, bottom - t);
        assert Loss(chain, bottom - t) < Loss(chain, strike);
      }
    }
  }

  /** The lowest and the highest strike. */
  lemma {:induction false} Extremes(chain: seq<Row>) returns (bottom: real, top: real)
    requires chain != []
    ensures Listed(chain, bottom) && Listed(chain, top)
    ensures forall i :: 0 <= i < |chain| ==> bottom <= chain[i].strike <= top
  {
    var k := Last(chain).strike;
    ListedLast(chain, k);
    bottom, top := k, k;
    if |chain| > 1 {
      bottom, top := Extremes(Init(chain));
      ListedLast(chain, bottom);
      ListedLast(chain, top);
      assert forall i :: 0 <= i < |chain| - 1 ==> bottom <= chain[i].strike == Init(chain)[i].strike <= top;
      bottom, top := Min(bottom, k), Max(top, k);
    }
  }

  lemma {:induction false} TotalsOfNonNegative(chain: seq<Row>)
    requires NonNegative(chain)
    ensures Calls(chain) >= 0 && Puts(chain) >= 0
  {
    if chain != [] {
      TotalsOfNonNegative(Init(chain));
    }
  }

  /** So it is for the chains an exchange publishes, whose open interest is never negative. */
  lemma BestIsGlobal(chain: seq<Row>, strike: real, x: real)
    requires NonNegative(chain) && IsBest(chain, strike)
    ensures Loss(chain, strike) <= Loss(chain, x)
  {
    TotalsOfNonNegative(chain);
    BestBeatsAll(chain, strike, x);
  }
}
