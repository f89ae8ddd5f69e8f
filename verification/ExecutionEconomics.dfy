/** Conservative executable values: fills at the worse side of the book, with their exact costs. */
module ExecutionEconomics {
  import opened Common
  import opened Sorting

  datatype Failure =
    | MissingLegs
    | QuoteInFuture
    | StaleNbbo
    | InvalidNbbo
    | MissingSize
    | InsufficientSize
    | LiquidityLimit

  datatype Assumptions = Assumptions(maxQuoteAge: int, fee: real, slippage: real, participation: real)

  datatype Leg = Leg(legId: string, quantity: int, multiplier: real, bid: real, ask: real, bidSize: Option<nat>,
                     askSize: Option<nat>, quotedAt: int)

  datatype ExecutedLeg = ExecutedLeg(legId: string, quantity: int, price: real, halfSpread: real, slippage: real, fee: real)

  /** The failures are a set: the program reports them sorted by name. */
  datatype Value =
    | Unexecutable(failures: set<Failure>)
    | Executable(legs: seq<ExecutedLeg>, gross: real, fees: real, net: real, credit: real)

  datatype ValueError = DuplicateLegIds | CloseNotAfterOpen | NoMarks | MarksNotOrdered

  predicate ValidAssumptions(a: Assumptions) {
    a.maxQuoteAge >= 0 && a.fee >= 0.0 && a.slippage >= 0.0 && 0.0 < a.participation <= 1.0
  }

  predicate ValidLeg(l: Leg) { l.quantity != 0 && l.multiplier > 0.0 && 0.0 <= l.bid <= l.ask }

  ghost predicate ValidLegs(quotes: seq<Leg>) { forall l | l in quotes :: ValidLeg(l) }

  ghost predicate UniqueLegs(quotes: seq<Leg>) {
    forall i, j | 0 <= i < j < |quotes| :: quotes[i].legId != quotes[j].legId
  }

  // ----- one leg -----

  function Mid(l: Leg): real { (l.bid + l.ask) / 2.0 }

  function TradeQuantity(l: Leg, closing: bool): int { if closing then -l.quantity else l.quantity }

  function AbsInt(x: int): nat { if x >= 0 then x else -x }

  function AbsReal(x: real): real { if x >= 0.0 then x else -x }

  function SidePrice(l: Leg, closing: bool): real { if TradeQuantity(l, closing) > 0 then l.ask else l.bid }

  function Price(l: Leg, a: Assumptions, closing: bool): real {
    SidePrice(l, closing) + if TradeQuantity(l, closing) > 0 then a.slippage else -a.slippage
  }

  function Execute(l: Leg, a: Assumptions, closing: bool): ExecutedLeg {
    var contracts := AbsInt(TradeQuantity(l, closing)) as real;
    ExecutedLeg(l.legId, TradeQuantity(l, closing), Price(l, a, closing),
                AbsReal(SidePrice(l, closing) - Mid(l)) * contracts * l.multiplier,
                a.slippage * contracts * l.multiplier,
                a.fee * contracts)
  }

  function Cash(l: Leg, a: Assumptions, closing: bool): real {
    -TradeQuantity(l, closing) as real * Price(l, a, closing) * l.multiplier
  }

  /** The value of the signed trade at the middle of the book. */
  function MidValue(l: Leg, closing: bool): real {
    TradeQuantity(l, closing) as real * Mid(l) * l.multiplier
  }

  function Cost(e: ExecutedLeg): real { e.halfSpread + e.slippage + e.fee }

  lemma CashIsMidLessCosts(l: Leg, a: Assumptions, closing: bool)
    requires ValidLeg(l)
    ensures var e := Execute(l, a, closing);
      Cash(l, a, closing) == -MidValue(l, closing) - e.halfSpread - e.slippage
  {
    var t, m := TradeQuantity(l, closing) as real, l.multiplier;
    var side, mid, s := SidePrice(l, closing), Mid(l), a.slippage;
    if t > 0.0 {
      Expand(t, side, mid, s, m);
    } else {
      Expand(-t, -side, -mid, s, m);
    }
  }

  lemma Expand(t: real, side: real, mid: real, s: real, m: real)
    ensures -t * (side + s) * m == -(t * mid * m) - (side - mid) * t * m - s * t * m
  {
  }

  lemma CostIsNonNegative(l: Leg, a: Assumptions, closing: bool)
    requires ValidLeg(l) && ValidAssumptions(a)
    ensures Cost(Execute(l, a, closing)) >= 0.0
  {
    var contracts := AbsInt(TradeQuantity(l, closing)) as real;
    Products(AbsReal(SidePrice(l, closing) - Mid(l)), contracts, l.multiplier);
    Products(a.slippage, contracts, l.multiplier);
    Products(a.fee, contracts, 1.0);
  }

  lemma Products(x: real, y: real, z: real)
    requires x >= 0.0 && y >= 0.0 && z >= 0.0
    ensures x * y >= 0.0 && x * y * z >= 0.0
  {
  }

  /** Why a leg cannot be filled at `now`. */
  function LegFailures(l: Leg, now: int, a: Assumptions, closing: bool): set<Failure> {
    var trade := TradeQuantity(l, closing);
    var displayed := if trade > 0 then l.askSize else l.bidSize;
    var freshness :=
      if l.quotedAt > now then {QuoteInFuture}
      else if now - l.quotedAt > a.maxQuoteAge then {StaleNbbo}
      else {};
    var size :=
      if displayed.None? then {MissingSize}
      else if displayed.value < AbsInt(trade) then {InsufficientSize}
      else if displayed.value > 0 && AbsInt(trade) as real / displayed.value as real > a.participation then {LiquidityLimit}
      else {};
    freshness + size
  }

  /** The trade takes the other side of the book: opening a long leg and closing a short one buys. */
  predicate Buys(l: Leg, closing: bool) { (l.quantity > 0) != closing }

  /** Why a leg is refused, each failure for itself: its quote lies ahead or is too old, the size on the side that it
      takes is unknown, smaller than the trade, or large enough but more than the participation allows. */
  lemma LegFailsExactly(l: Leg, now: int, a: Assumptions, closing: bool)
    requires ValidLeg(l) && ValidAssumptions(a)
    ensures var failures, contracts := LegFailures(l, now, a, closing), if l.quantity > 0 then l.quantity else -l.quantity;
      var displayed := if Buys(l, closing) then l.askSize else l.bidSize;
      && (QuoteInFuture in failures <==> l.quotedAt > now)
      && (StaleNbbo in failures <==> now - l.quotedAt > a.maxQuoteAge)
      && (MissingSize in failures <==> displayed.None?)
      && (InsufficientSize in failures <==> displayed.Some? && displayed.value < contracts)
      && (LiquidityLimit in failures <==>
            displayed.Some? && displayed.value >= contracts && contracts as real > a.participation * displayed.value as real)
      && MissingLegs !in failures && InvalidNbbo !in failures
  {
    var contracts := AbsInt(TradeQuantity(l, closing));
    var displayed := if Buys(l, closing) then l.askSize else l.bidSize;
    if displayed.Some? && displayed.value >= contracts {
      QuotientBelow(contracts as real, displayed.value as real, a.participation);
      QuotientAbove(contracts as real, displayed.value as real, a.participation);
    }
  }

  lemma QuotientAbove(a: real, b: real, bound: real)
    requires b > 0.0
    ensures a / b > bound <==> a > bound * b
  {
    var q := a / b;
    assert q * b == a;
    ScaledStrictly(bound, q, b);
  }

  /** How a leg is filled: at the ask plus slippage when it buys and the bid minus slippage when it sells, for its
      contracts, with half the spread, the slippage and the fee of every contract on record. */
  lemma LegIsFilledAtTheFarSide(l: Leg, a: Assumptions, closing: bool)
    requires ValidLeg(l)
    ensures var e, contracts := Execute(l, a, closing), (if l.quantity > 0 then l.quantity else -l.quantity) as real;
      && e.legId == l.legId && e.quantity == (if closing then -l.quantity else l.quantity)
      && e.price == (if Buys(l, closing) then l.ask + a.slippage else l.bid - a.slippage)
      && 2.0 * e.halfSpread == (l.ask - l.bid) * contracts * l.multiplier
      && e.slippage == a.slippage * contracts * l.multiplier && e.fee == a.fee * contracts
      && Cash(l, a, closing) == (if Buys(l, closing) then -e.price else e.price) * contracts * l.multiplier
  {
    var contracts := AbsInt(TradeQuantity(l, closing)) as real;
    HalfOf(AbsReal(SidePrice(l, closing) - Mid(l)), l.ask - l.bid, contracts, l.multiplier);
    Signed(TradeQuantity(l, closing) as real, Price(l, a, closing), contracts, l.multiplier);
  }

  lemma HalfOf(half: real, spread: real, contracts: real, multiplier: real)
    requires 2.0 * half == spread
    ensures 2.0 * (half * contracts * multiplier) == spread * contracts * multiplier
  {
  }

  lemma Signed(trade: real, price: real, contracts: real, multiplier: real)
    requires contracts == if trade >= 0.0 then trade else -trade
    ensures -trade * price * multiplier == (if trade > 0.0 then -price else price) * contracts * multiplier
  {
  }

  // ----- the whole order -----

  ghost predicate HasFailure(quotes: seq<Leg>, now: int, a: Assumptions, closing: bool, f: Failure) {
    if f == MissingLegs then quotes == [] else exists l :: l in quotes && f in LegFailures(l, now, a, closing)
  }

  ghost predicate Fillable(quotes: seq<Leg>, a: Assumptions, closing: bool) {
    forall l | l in quotes :: Price(l, a, closing) >= 0.0
  }

  function Legs(quotes: seq<Leg>, a: Assumptions, closing: bool): seq<ExecutedLeg> {
    seq(|quotes|, i requires 0 <= i < |quotes| => Execute(quotes[i], a, closing))
  }

  function Gross(quotes: seq<Leg>, a: Assumptions, closing: bool): real {
    if quotes == [] then 0.0
    else Gross(quotes[..|quotes| - 1], a, closing) + Cash(quotes[|quotes| - 1], a, closing)
  }

  function Fees(legs: seq<ExecutedLeg>): real {
    if legs == [] then 0.0 else Fees(legs[..|legs| - 1]) + legs[|legs| - 1].fee
  }

  function Costs(legs: seq<ExecutedLeg>): real {
    if legs == [] then 0.0 else Costs(legs[..|legs| - 1]) + Cost(legs[|legs| - 1])
  }

  function MidTotal(quotes: seq<Leg>, closing: bool): real {
    if quotes == [] then 0.0
    else MidTotal(quotes[..|quotes| - 1], closing) + MidValue(quotes[|quotes| - 1], closing)
  }

  ghost predicate IsValue(quotes: seq<Leg>, now: int, a: Assumptions, closing: bool, r: Result<Value, ValueError>) {
    if !UniqueLegs(quotes) then r == Err(DuplicateLegIds)
    else if exists f :: HasFailure(quotes, now, a, closing, f) then
      r.Ok? && r.value.Unexecutable? && forall f :: f in r.value.failures <==> HasFailure(quotes, now, a, closing, f)
    else if !Fillable(quotes, a, closing) then r == Ok(Unexecutable({InvalidNbbo}))
    else r == Ok(Filled(quotes, a, closing))
  }

  function Filled(quotes: seq<Leg>, a: Assumptions, closing: bool): Value {
    var legs := Legs(quotes, a, closing);
    var gross, fees := Gross(quotes, a, closing), Fees(legs);
    Executable(legs, gross, fees, gross - fees, MaxReal(0.0, gross - fees))
  }

  method LegIdsUnique(quotes: seq<Leg>) returns (unique: bool)
    ensures unique <==> UniqueLegs(quotes)
  {
    var ids := seq(|quotes|, i requires 0 <= i < |quotes| => quotes[i].legId);
    unique := CheckDistinct(ids);
    assert forall i | 0 <= i < |quotes| :: ids[i] == quotes[i].legId;
  }

  method FindFailures(quotes: seq<Leg>, now: int, a: Assumptions, closing: bool) returns (failures: set<Failure>)
    ensures forall f :: f in failures <==> HasFailure(quotes, now, a, closing, f)
  {
    hide TradeQuantity, AbsInt;
    failures := if quotes == [] then {MissingLegs} else {};
    for i := 0 to |quotes|
      invariant forall f | f != MissingLegs ::
        f in failures <==> exists j :: 0 <= j < i && f in LegFailures(quotes[j], now, a, closing)
      invariant MissingLegs in failures <==> quotes == []
    {
      assert MissingLegs !in LegFailures(quotes[i], now, a, closing);
      hide LegFailures;
      failures := failures + LegFailures(quotes[i], now, a, closing);
    }
    forall f ensures f in failures <==> HasFailure(quotes, now, a, closing, f) {
      if f != MissingLegs && HasFailure(quotes, now, a, closing, f) {
        var l :| l in quotes && f in LegFailures(l, now, a, closing);
        var j :| 0 <= j < |quotes| && quotes[j] == l;
      }
    }
  }

  method FillLegs(quotes: seq<Leg>, a: Assumptions, closing: bool)
      returns (failures: set<Failure>, legs: seq<ExecutedLeg>, gross: real, fees: real)
    ensures failures == if Fillable(quotes, a, closing) then {} else {InvalidNbbo}
    ensures failures == {} ==> legs == Legs(quotes, a, closing) && gross == Gross(quotes, a, closing) && fees == Fees(legs)
  {
    hide Price, Execute, Cash;
    failures, legs, gross, fees := {}, [], 0.0, 0.0;
    for i := 0 to |quotes|
      invariant failures == if Fillable(quotes[..i], a, closing) then {} else {InvalidNbbo}
      invariant failures == {} ==>
        legs == Legs(quotes[..i], a, closing) && gross == Gross(quotes[..i], a, closing) && fees == Fees(legs)
    {
      assert quotes[..i + 1] == quotes[..i] + [quotes[i]];
      if Price(quotes[i], a, closing) < 0.0 {
        assert quotes[i] in quotes[..i + 1];
        failures := failures + {InvalidNbbo};
      } else {
        var leg := Execute(quotes[i], a, closing);
        gross := gross + Cash(quotes[i], a, closing);
        fees := fees + leg.fee;
        assert (legs + [leg])[..|legs|] == legs;
        assert quotes[..i + 1][..i] == quotes[..i];
        legs := legs + [leg];
        assert failures == {} ==> legs == Legs(quotes[..i + 1], a, closing);
      }
    }
    assert quotes[..|quotes|] == quotes;
  }

  method ValueOrder(quotes: seq<Leg>, now: int, a: Assumptions, closing: bool) returns (r: Result<Value, ValueError>)
    ensures IsValue(quotes, now, a, closing, r)
  {
    hide UniqueLegs, HasFailure, Fillable, Legs, Gross, Fees;
    var unique := LegIdsUnique(quotes);
    if !unique { return Err(DuplicateLegIds); }
    var failures := FindFailures(quotes, now, a, closing);
    if failures != {} {
      var f :| f in failures;
      assert HasFailure(quotes, now, a, closing, f);
      return Ok(Unexecutable(failures));
    }
    var legs, gross, fees;
    failures, legs, gross, fees := FillLegs(quotes, a, closing);
    if failures != {} { return Ok(Unexecutable(failures)); }
    return Ok(Executable(legs, gross, fees, gross - fees, MaxReal(0.0, gross - fees)));
  }

  /** Exact costs: what an order nets is minus the mid value of its trades, minus every half-spread,
      slippage and fee that it recorded. */
  lemma {:induction false} NetIsMidLessCosts(quotes: seq<Leg>, a: Assumptions, closing: bool)
    requires ValidLegs(quotes)
    ensures Filled(quotes, a, closing).net == -MidTotal(quotes, closing) - Costs(Legs(quotes, a, closing))
  {
    hide Execute, Cash, MidValue;
    if quotes != [] {
      var front, last := quotes[..|quotes| - 1], quotes[|quotes| - 1];
      NetIsMidLessCosts(front, a, closing);
      CashIsMidLessCosts(last, a, closing);
      var legs := Legs(quotes, a, closing);
      assert legs[..|legs| - 1] == Legs(front, a, closing);
    }
  }

  lemma {:induction false} CostsAreNonNegative(quotes: seq<Leg>, a: Assumptions, closing: bool)
    requires ValidLegs(quotes) && ValidAssumptions(a)
    ensures Costs(Legs(quotes, a, closing)) >= 0.0
  {
    hide Execute, Cost;
    if quotes != [] {
      var front, last := quotes[..|quotes| - 1], quotes[|quotes| - 1];
      CostsAreNonNegative(front, a, closing);
      CostIsNonNegative(last, a, closing);
      var legs := Legs(quotes, a, closing);
      assert legs[..|legs| - 1] == Legs(front, a, closing);
    }
  }

  // ----- the round trip -----

  function ById(quotes: seq<Leg>, id: string): Option<Leg> {
    if quotes == [] then None
    else if quotes[|quotes| - 1].legId == id then Some(quotes[|quotes| - 1])
    else ById(quotes[..|quotes| - 1], id)
  }

  function Positions(quotes: seq<Leg>): map<string, (int, real)> {
    if quotes == [] then map[]
    else
      var last := quotes[|quotes| - 1];
      Positions(quotes[..|quotes| - 1])[last.legId := (last.quantity, last.multiplier)]
  }

  lemma {:induction false} PositionsAreById(quotes: seq<Leg>, id: string)
    ensures id in Positions(quotes) <==> ById(quotes, id).Some?
    ensures ById(quotes, id).Some? ==>
      ById(quotes, id).value in quotes && ById(quotes, id).value.legId == id &&
      Positions(quotes)[id] == (ById(quotes, id).value.quantity, ById(quotes, id).value.multiplier)
  {
    if quotes != [] { PositionsAreById(quotes[..|quotes| - 1], id); }
  }

  /** The same legs in the same amounts, in any order. */
  ghost predicate SamePositions(opening: seq<Leg>, closing: seq<Leg>) {
    && UniqueLegs(opening) && UniqueLegs(closing)
    && (forall i | 0 <= i < |opening| :: Holds(closing, opening[i]))
    && (forall i | 0 <= i < |closing| :: Holds(opening, closing[i]))
  }

  predicate Holds(quotes: seq<Leg>, l: Leg) {
    var found := ById(quotes, l.legId);
    found.Some? && found.value.quantity == l.quantity && found.value.multiplier == l.multiplier
  }

  /** The gain at the middle of the book, every opening leg paired with the closing leg of its id. */
  function MidGain(opening: seq<Leg>, closing: seq<Leg>): real {
    if opening == [] then 0.0
    else
      var l := opening[|opening| - 1];
      var paired := ById(closing, l.legId);
      MidGain(opening[..|opening| - 1], closing) + PairGain(l, paired)
  }

  function Without(quotes: seq<Leg>, i: nat): seq<Leg>
    requires i < |quotes|
  {
    quotes[..i] + quotes[i + 1..]
  }

  lemma WithoutFront(quotes: seq<Leg>, i: nat)
    requires i + 1 < |quotes|
    ensures Without(quotes, i) == Without(quotes[..|quotes| - 1], i) + [quotes[|quotes| - 1]]
    ensures Without(quotes, i)[..|quotes| - 2] == Without(quotes[..|quotes| - 1], i)
  {
    var front := quotes[..|quotes| - 1];
    assert front[..i] == quotes[..i];
    assert front[i + 1..] + [quotes[|quotes| - 1]] == quotes[i + 1..];
  }

  lemma WithoutLast(quotes: seq<Leg>)
    requires quotes != []
    ensures Without(quotes, |quotes| - 1) == quotes[..|quotes| - 1]
  {
  }

  lemma {:induction false} ByIdFinds(quotes: seq<Leg>, i: nat)
    requires UniqueLegs(quotes) && i < |quotes|
    ensures ById(quotes, quotes[i].legId) == Some(quotes[i])
  {
    if i < |quotes| - 1 { ByIdFinds(quotes[..|quotes| - 1], i); }
  }

  lemma {:induction false} ByIdWithout(quotes: seq<Leg>, i: nat, id: string)
    requires i < |quotes| && id != quotes[i].legId
    ensures ById(Without(quotes, i), id) == ById(quotes, id)
  {
    hide Without;
    if i == |quotes| - 1 {
      WithoutLast(quotes);
    } else {
      WithoutFront(quotes, i);
      ByIdWithout(quotes[..|quotes| - 1], i, id);
    }
  }

  lemma {:induction false} MidTotalWithout(quotes: seq<Leg>, i: nat, closing: bool)
    requires i < |quotes|
    ensures MidTotal(quotes, closing) == MidTotal(Without(quotes, i), closing) + MidValue(quotes[i], closing)
  {
    hide Without, MidValue;
    if i == |quotes| - 1 {
      WithoutLast(quotes);
    } else {
      WithoutFront(quotes, i);
      MidTotalWithout(quotes[..|quotes| - 1], i, closing);
    }
  }

  /** What one pair of legs gains at the middle of the book. */
  function PairGain(l: Leg, paired: Option<Leg>): real {
    if paired.Some? then l.quantity as real * (Mid(paired.value) - Mid(l)) * l.multiplier else 0.0
  }

  lemma {:induction false} MidGainWithout(opening: seq<Leg>, closing: seq<Leg>, i: nat)
    requires i < |closing| && forall l | l in opening :: l.legId != closing[i].legId
    ensures MidGain(opening, Without(closing, i)) == MidGain(opening, closing)
  {
    hide Without, PairGain, ById;
    if opening != [] {
      MidGainWithout(opening[..|opening| - 1], closing, i);
      ByIdWithout(closing, i, opening[|opening| - 1].legId);
    }
  }

  lemma PairIsGain(o: Leg, c: Leg)
    requires o.quantity == c.quantity && o.multiplier == c.multiplier
    ensures -MidValue(o, false) - MidValue(c, true) == PairGain(o, Some(c))
  {
    var q, m := o.quantity as real, o.multiplier;
    assert q * (Mid(c) - Mid(o)) * m == q * Mid(c) * m - q * Mid(o) * m;
    assert (-q) * Mid(c) * m == -(q * Mid(c) * m);
  }

  lemma UniqueWithout(quotes: seq<Leg>, i: nat)
    requires UniqueLegs(quotes) && i < |quotes|
    ensures UniqueLegs(Without(quotes, i))
    ensures forall l | l in Without(quotes, i) :: l in quotes && l.legId != quotes[i].legId
  {
    var w := Without(quotes, i);
    assert forall k | 0 <= k < |w| :: w[k] == if k < i then quotes[k] else quotes[k + 1];
  }

  lemma PositionOf(quotes: seq<Leg>, id: string) returns (i: nat)
    requires ById(quotes, id).Some?
    ensures i < |quotes| && quotes[i] == ById(quotes, id).value && quotes[i].legId == id
  {
    PositionsAreById(quotes, id);
    i :| i < |quotes| && quotes[i] == ById(quotes, id).value;
  }

  lemma SamePositionsWithout(opening: seq<Leg>, closing: seq<Leg>, i: nat)
    requires SamePositions(opening, closing) && opening != [] && i < |closing|
    requires closing[i].legId == opening[|opening| - 1].legId
    ensures SamePositions(opening[..|opening| - 1], Without(closing, i))
  {
    var n := |opening| - 1;
    var front, rest := opening[..n], Without(closing, i);
    UniqueWithout(closing, i);
    hide Without, ById;
    WithoutLast(opening);
    forall k | 0 <= k < n ensures Holds(rest, front[k]) {
      assert Holds(closing, opening[k]);
      ByIdWithout(closing, i, front[k].legId);
    }
    forall k | 0 <= k < |rest| ensures Holds(front, rest[k]) {
      assert rest[k] in rest && rest[k] in closing;
      var m :| 0 <= m < |closing| && closing[m] == rest[k];
      assert Holds(opening, closing[m]);
      ByIdWithout(opening, n, rest[k].legId);
    }
  }

  /** Whatever the order of the two leg lists, the mid values of both fills add up to the paired gain. */
  lemma {:induction false} MidTotalsArePairedGain(opening: seq<Leg>, closing: seq<Leg>)
    requires SamePositions(opening, closing)
    ensures -MidTotal(opening, false) - MidTotal(closing, true) == MidGain(opening, closing)
  {
    hide Without, MidValue, PairGain, SamePositions;
    if opening == [] {
      NoPositions(closing);
    } else {
      var n := |opening| - 1;
      var i := PairOfLast(opening, closing);
      SamePositionsWithout(opening, closing, i);
      MidTotalsArePairedGain(opening[..n], Without(closing, i));
      MidTotalWithout(closing, i, true);
      FrontDiffers(opening, closing, i);
      MidGainWithout(opening[..n], closing, i);
      PairIsGain(opening[n], closing[i]);
    }
  }

  lemma NothingHeld(l: Leg)
    ensures !Holds([], l)
  {
  }

  lemma NoPositions(closing: seq<Leg>)
    requires SamePositions([], closing)
    ensures closing == []
  {
    if closing != [] {
      NothingHeld(closing[0]);
      assert false;
    }
  }

  lemma PairOfLast(opening: seq<Leg>, closing: seq<Leg>) returns (i: nat)
    requires SamePositions(opening, closing) && opening != []
    ensures var l := opening[|opening| - 1];
      && i < |closing| && ById(closing, l.legId) == Some(closing[i])
      && closing[i].legId == l.legId && closing[i].quantity == l.quantity && closing[i].multiplier == l.multiplier
  {
    var l := opening[|opening| - 1];
    assert Holds(closing, l);
    i := PositionOf(closing, l.legId);
  }

  lemma FrontDiffers(opening: seq<Leg>, closing: seq<Leg>, i: nat)
    requires SamePositions(opening, closing) && opening != [] && i < |closing|
    requires closing[i].legId == opening[|opening| - 1].legId
    ensures forall l | l in opening[..|opening| - 1] :: l.legId != closing[i].legId
  {
  }

  lemma EqualPositionsAreSame(opening: seq<Leg>, closing: seq<Leg>)
    requires UniqueLegs(opening) && UniqueLegs(closing) && Positions(opening) == Positions(closing)
    ensures SamePositions(opening, closing)
  {
    hide ById, Positions;
    forall i | 0 <= i < |opening| ensures Holds(closing, opening[i]) {
      ByIdFinds(opening, i);
      PositionsAreById(opening, opening[i].legId);
      PositionsAreById(closing, opening[i].legId);
    }
    forall i | 0 <= i < |closing| ensures Holds(opening, closing[i]) {
      ByIdFinds(closing, i);
      PositionsAreById(opening, closing[i].legId);
      PositionsAreById(closing, closing[i].legId);
    }
  }

  datatype Pnl = Pnl(openedAt: int, closedAt: int, openingNet: real, closingNet: real, pnl: real)

  function RoundTrip(opening: Value, closing: Value, openedAt: int, closedAt: int): Option<Pnl> {
    if opening.Unexecutable? || closing.Unexecutable? then None
    else Some(Pnl(openedAt, closedAt, opening.net, closing.net, opening.net + closing.net))
  }

  ghost predicate IsRoundTrip(opening: seq<Leg>, closing: seq<Leg>, openedAt: int, closedAt: int, a: Assumptions,
                              r: Result<Option<Pnl>, ValueError>)
  {
    if closedAt <= openedAt then r == Err(CloseNotAfterOpen)
    else if Positions(opening) != Positions(closing) then r == Ok(None)
    else if !UniqueLegs(opening) || !UniqueLegs(closing) then r == Err(DuplicateLegIds)
    else exists v, w ::
      && IsValue(opening, openedAt, a, false, Ok(v))
      && IsValue(closing, closedAt, a, true, Ok(w))
      && r == Ok(RoundTrip(v, w, openedAt, closedAt))
  }

  method ConservativePnl(opening: seq<Leg>, closing: seq<Leg>, openedAt: int, closedAt: int, a: Assumptions)
      returns (r: Result<Option<Pnl>, ValueError>)
    ensures IsRoundTrip(opening, closing, openedAt, closedAt, a, r)
  {
    if closedAt <= openedAt { return Err(CloseNotAfterOpen); }
    if Positions(opening) != Positions(closing) { return Ok(None); }
    var v := ValueOrder(opening, openedAt, a, false);
    if v.Err? { return Err(v.error); }
    var w := ValueOrder(closing, closedAt, a, true);
    if w.Err? { return Err(w.error); }
    return Ok(RoundTrip(v.value, w.value, openedAt, closedAt));
  }

  /** Positions agree exactly when both orders have the same legs in the same amounts. */
  lemma PositionsAgreeExactly(opening: seq<Leg>, closing: seq<Leg>)
    requires UniqueLegs(opening) && UniqueLegs(closing)
    ensures Positions(opening) == Positions(closing) <==> SamePositions(opening, closing)
  {
    if Positions(opening) == Positions(closing) {
      EqualPositionsAreSame(opening, closing);
    }
    if SamePositions(opening, closing) {
      forall id ensures id in Positions(opening) ==> id in Positions(closing) && Positions(closing)[id] == Positions(opening)[id] {
        HeldAlike(opening, closing, id);
      }
      forall id ensures id in Positions(closing) ==> id in Positions(opening) {
        HeldAlike(closing, opening, id);
      }
    }
  }

  lemma HeldAlike(quotes: seq<Leg>, other: seq<Leg>, id: string)
    requires forall i | 0 <= i < |quotes| :: Holds(other, quotes[i])
    ensures id in Positions(quotes) ==> id in Positions(other) && Positions(other)[id] == Positions(quotes)[id]
  {
    PositionsAreById(quotes, id);
    PositionsAreById(other, id);
    if id in Positions(quotes) {
      var l := ById(quotes, id).value;
      var i :| 0 <= i < |quotes| && quotes[i] == l;
      assert Holds(other, quotes[i]);
    }
    hide ById, Positions;
  }

  /** An order that cannot be filled: it has no legs, a leg fails, or one would be sold below zero. */
  ghost predicate Blocked(quotes: seq<Leg>, now: int, a: Assumptions, closing: bool) {
    || quotes == []
    || exists l :: l in quotes && (LegFailures(l, now, a, closing) != {} || (!Buys(l, closing) && l.bid < a.slippage))
  }

  lemma BlockedExactly(quotes: seq<Leg>, now: int, a: Assumptions, closing: bool, v: Value)
    requires ValidLegs(quotes) && ValidAssumptions(a) && UniqueLegs(quotes) && IsValue(quotes, now, a, closing, Ok(v))
    ensures v.Unexecutable? <==> Blocked(quotes, now, a, closing)
  {
    hide UniqueLegs, LegFailures;
    forall l | l in quotes ensures Price(l, a, closing) >= 0.0 <==> Buys(l, closing) || l.bid >= a.slippage {
      assert ValidLeg(l);
    }
    if l :| l in quotes && LegFailures(l, now, a, closing) != {} {
      var f :| f in LegFailures(l, now, a, closing);
      NoLegIsMissing(l, now, a, closing);
      assert HasFailure(quotes, now, a, closing, f);
    }
    if f :| HasFailure(quotes, now, a, closing, f) {
      assert f == MissingLegs || exists l :: l in quotes && f in LegFailures(l, now, a, closing);
    }
    assert quotes == [] ==> HasFailure(quotes, now, a, closing, MissingLegs);
    hide Price, Buys, HasFailure;
  }

  lemma NoLegIsMissing(l: Leg, now: int, a: Assumptions, closing: bool)
    ensures MissingLegs !in LegFailures(l, now, a, closing)
  {
  }

  /** What a round trip answers: an error without a later close or with repeated legs, nothing when positions differ or
      either order cannot be filled, and else what both fills net and bring together. */
  lemma RoundTripAnswers(opening: seq<Leg>, closing: seq<Leg>, openedAt: int, closedAt: int, a: Assumptions,
                         r: Result<Option<Pnl>, ValueError>)
    requires ValidLegs(opening) && ValidLegs(closing) && ValidAssumptions(a)
    requires IsRoundTrip(opening, closing, openedAt, closedAt, a, r)
    ensures var same, unique := Positions(opening) == Positions(closing), UniqueLegs(opening) && UniqueLegs(closing);
      && (r == Err(CloseNotAfterOpen) <==> closedAt <= openedAt)
      && (r == Err(DuplicateLegIds) <==> closedAt > openedAt && same && !unique)
      && (r == Ok(None) <==>
            && closedAt > openedAt
            && (!same || (unique && (Blocked(opening, openedAt, a, false) || Blocked(closing, closedAt, a, true)))))
    ensures r.Ok? && r.value.Some? ==>
      var p := r.value.value;
      && p.openedAt == openedAt && p.closedAt == closedAt && p.pnl == p.openingNet + p.closingNet
      && p.openingNet == Gross(opening, a, false) - Fees(Legs(opening, a, false))
      && p.closingNet == Gross(closing, a, true) - Fees(Legs(closing, a, true))
  {
    hide Blocked, Positions, UniqueLegs, HasFailure, Fillable, Gross, Fees, Legs;
    if closedAt > openedAt && Positions(opening) == Positions(closing) && UniqueLegs(opening) && UniqueLegs(closing) {
      var v, w :| IsValue(opening, openedAt, a, false, Ok(v)) && IsValue(closing, closedAt, a, true, Ok(w))
                  && r == Ok(RoundTrip(v, w, openedAt, closedAt));
      BlockedExactly(opening, openedAt, a, false, v);
      BlockedExactly(closing, closedAt, a, true, w);
    }
  }

  /** A filled order lists its legs one by one, and shows what it nets as its credit unless that is a debit. */
  lemma FilledShowsItsLegs(quotes: seq<Leg>, a: Assumptions, closing: bool)
    ensures var v := Filled(quotes, a, closing);
      && v.Executable? && |v.legs| == |quotes| && (forall i | 0 <= i < |quotes| :: v.legs[i] == Execute(quotes[i], a, closing))
      && v.gross == Gross(quotes, a, closing) && v.fees == Fees(v.legs) && v.net + v.fees == v.gross
      && v.credit == if v.net > 0.0 then v.net else 0.0
  {
  }

  /** Round-trip profit is the paired mid-to-mid gain minus every cost of both fills. */
  lemma RoundTripIsGainLessCosts(opening: seq<Leg>, closing: seq<Leg>, openedAt: int, closedAt: int, a: Assumptions,
                                 r: Result<Option<Pnl>, ValueError>)
    requires ValidLegs(opening) && ValidLegs(closing) && ValidAssumptions(a)
    requires IsRoundTrip(opening, closing, openedAt, closedAt, a, r) && r.Ok? && r.value.Some?
    ensures r.value.value.pnl ==
      MidGain(opening, closing) - Costs(Legs(opening, a, false)) - Costs(Legs(closing, a, true))
    ensures r.value.value.pnl <= MidGain(opening, closing)
  {
    hide MidGain, Costs, Legs, Positions, Gross, Fees, MidTotal, HasFailure, Fillable;
    EqualPositionsAreSame(opening, closing);
    MidTotalsArePairedGain(opening, closing);
    NetIsMidLessCosts(opening, a, false);
    NetIsMidLessCosts(closing, a, true);
    CostsAreNonNegative(opening, a, false);
    CostsAreNonNegative(closing, a, true);
  }

  /** Every leg is quoted as it was at the opening. */
  ghost predicate Unchanged(opening: seq<Leg>, closing: seq<Leg>) {
    forall l | l in opening ::
      var paired := ById(closing, l.legId);
      paired.Some? ==> paired.value.bid == l.bid && paired.value.ask == l.ask
  }

  lemma {:induction false} UnchangedQuotesGainNothing(opening: seq<Leg>, closing: seq<Leg>)
    requires Unchanged(opening, closing)
    ensures MidGain(opening, closing) == 0.0
  {
    hide ById;
    if opening != [] {
      assert opening[|opening| - 1] in opening;
      UnchangedQuotesGainNothing(opening[..|opening| - 1], closing);
    }
  }

  /** A round trip on unchanged quotes never makes money. */
  lemma UnchangedRoundTripNeverGains(opening: seq<Leg>, closing: seq<Leg>, openedAt: int, closedAt: int,
                                     a: Assumptions, r: Result<Option<Pnl>, ValueError>)
    requires ValidLegs(opening) && ValidLegs(closing) && ValidAssumptions(a) && Unchanged(opening, closing)
    requires IsRoundTrip(opening, closing, openedAt, closedAt, a, r) && r.Ok? && r.value.Some?
    ensures r.value.value.pnl <= 0.0
  {
    RoundTripIsGainLessCosts(opening, closing, openedAt, closedAt, a, r);
    UnchangedQuotesGainNothing(opening, closing);
  }

  // ----- the path -----

  datatype Mark = Mark(markedAt: int, quotes: seq<Leg>)

  datatype Path = Path(marks: seq<Pnl>, maximumLoss: real)

  ghost predicate MarksFollow(marks: seq<Mark>, openedAt: int) { forall m | m in marks :: m.markedAt > openedAt }

  ghost predicate MarksOrdered(marks: seq<Mark>) {
    forall i | 0 <= i < |marks| - 1 :: marks[i].markedAt < marks[i + 1].markedAt
  }

  ghost predicate IsMark(opening: seq<Leg>, m: Mark, openedAt: int, a: Assumptions, r: Result<Option<Pnl>, ValueError>) {
    IsRoundTrip(opening, m.quotes, openedAt, m.markedAt, a, r)
  }

  /** The first `k` marks close with these profits. */
  ghost predicate Marked(opening: seq<Leg>, marks: seq<Mark>, openedAt: int, a: Assumptions, pnls: seq<Pnl>) {
    |pnls| <= |marks| && forall i | 0 <= i < |pnls| :: IsMark(opening, marks[i], openedAt, a, Ok(Some(pnls[i])))
  }

  /** Profits of the whole path, or nothing at all from the first mark that has none. The maximum loss
      is the least bound that every mark keeps. */
  ghost predicate IsPath(opening: seq<Leg>, marks: seq<Mark>, openedAt: int, a: Assumptions,
                         r: Result<Option<Path>, ValueError>)
  {
    if marks == [] then r == Err(NoMarks)
    else if !MarksFollow(marks, openedAt) then r == Err(CloseNotAfterOpen)
    else if !MarksOrdered(marks) then r == Err(MarksNotOrdered)
    else if r.Ok? && r.value.Some? then
      && |r.value.value.marks| == |marks|
      && Marked(opening, marks, openedAt, a, r.value.value.marks)
      && LeastLossBound(r.value.value.marks, r.value.value.maximumLoss)
    else
      exists pnls, stop ::
        && Marked(opening, marks, openedAt, a, pnls) && |pnls| < |marks|
        && IsMark(opening, marks[|pnls|], openedAt, a, stop)
        && (r.Ok? ==> stop == Ok(None)) && (r.Err? ==> stop == Err(r.error))
  }

  ghost predicate LeastLossBound(pnls: seq<Pnl>, loss: real) {
    && loss >= 0.0
    && (forall p | p in pnls :: -loss <= p.pnl)
    && (loss == 0.0 || exists p :: p in pnls && p.pnl == -loss)
  }

  function LeastPnl(pnls: seq<Pnl>): (m: real)
    requires pnls != []
    ensures forall p | p in pnls :: m <= p.pnl
    ensures exists p :: p in pnls && p.pnl == m
  {
    if |pnls| == 1 then pnls[0].pnl
    else MinReal(pnls[0].pnl, LeastPnl(pnls[1..]))
  }

  ghost function Misplaced(marks: seq<Mark>, openedAt: int): ValueError {
    if marks == [] then NoMarks else if !MarksFollow(marks, openedAt) then CloseNotAfterOpen else MarksNotOrdered
  }

  method CheckMarks(marks: seq<Mark>, openedAt: int) returns (r: Result<(), ValueError>)
    ensures r.Ok? <==> marks != [] && MarksFollow(marks, openedAt) && MarksOrdered(marks)
    ensures r.Err? ==> r.error == Misplaced(marks, openedAt)
  {
    if marks == [] { return Err(NoMarks); }
    for i := 0 to |marks|
      invariant forall j | 0 <= j < i :: marks[j].markedAt > openedAt
    {
      if marks[i].markedAt <= openedAt {
        assert marks[i] in marks;
        return Err(CloseNotAfterOpen);
      }
    }
    for i := 0 to |marks| - 1
      invariant forall j | 0 <= j < i :: marks[j].markedAt < marks[j + 1].markedAt
    {
      if marks[i].markedAt >= marks[i + 1].markedAt { return Err(MarksNotOrdered); }
    }
    return Ok(());
  }

  method EvaluatePath(opening: seq<Leg>, marks: seq<Mark>, openedAt: int, a: Assumptions)
      returns (r: Result<Option<Path>, ValueError>)
    ensures IsPath(opening, marks, openedAt, a, r)
  {
    hide IsRoundTrip, MarksFollow, MarksOrdered;
    var checked := CheckMarks(marks, openedAt);
    if checked.Err? { return Err(checked.error); }
    var pnls: seq<Pnl> := [];
    for i := 0 to |marks|
      invariant |pnls| == i && Marked(opening, marks, openedAt, a, pnls)
    {
      var pnl := ConservativePnl(opening, marks[i].quotes, openedAt, marks[i].markedAt, a);
      assert IsMark(opening, marks[|pnls|], openedAt, a, pnl);
      if pnl.Err? { return Err(pnl.error); }
      if pnl.value.None? { return Ok(None); }
      pnls := pnls + [pnl.value.value];
    }
    return Ok(Some(Path(pnls, MaxReal(0.0, -LeastPnl(pnls)))));
  }
}
