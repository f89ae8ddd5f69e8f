/** Entry fills from the quote tape and the economics of one condor day. */
module CondorEconomics {
  import opened Common
  import opened Strikes

  datatype Right = Put | Call

  datatype Contract = Contract(right: Right, strike: int)

  datatype Quote = Quote(ts: int, contract: Contract, bid: Option<real>, ask: Option<real>)

  ghost predicate TimeOrdered(quotes: seq<Quote>) {
    forall i, j | 0 <= i < j < |quotes| :: quotes[i].ts <= quotes[j].ts
  }

  // ----- what is visible at an instant -----

  function Visible(quotes: seq<Quote>, t: int): seq<Quote> {
    if quotes == [] then []
    else
      var front, last := quotes[..|quotes| - 1], quotes[|quotes| - 1];
      if last.ts <= t then Visible(front, t) + [last] else Visible(front, t)
  }

  /** The last quote of a contract on a tape. */
  function LatestIn(tape: seq<Quote>, c: Contract): Option<Quote> {
    if tape == [] then None
    else if tape[|tape| - 1].contract == c then Some(tape[|tape| - 1])
    else LatestIn(tape[..|tape| - 1], c)
  }

  /** The latest quote at or before `t`, computed from scratch. */
  function LatestAt(quotes: seq<Quote>, t: int, c: Contract): Option<Quote> {
    LatestIn(Visible(quotes, t), c)
  }

  function Lookup(latest: map<Contract, Quote>, c: Contract): Option<Quote> {
    if c in latest then Some(latest[c]) else None
  }

  /** On a time-ordered tape the visible quotes are a prefix. */
  lemma {:induction false} VisibleIsPrefix(quotes: seq<Quote>, t: int, n: nat)
    requires TimeOrdered(quotes) && n <= |quotes|
    requires forall i | 0 <= i < n :: quotes[i].ts <= t
    requires n < |quotes| ==> quotes[n].ts > t
    ensures Visible(quotes, t) == quotes[..n]
  {
    if quotes != [] {
      var front := quotes[..|quotes| - 1];
      if n < |quotes| {
        assert quotes[n].ts <= quotes[|quotes| - 1].ts;
        VisibleIsPrefix(front, t, n);
        assert front[..n] == quotes[..n];
      } else {
        VisibleIsPrefix(front, t, n - 1);
        assert front[..n - 1] == front;
        assert quotes[..n] == front + [quotes[n - 1]];
      }
    }
  }

  lemma {:induction false} VisibleCut(quotes: seq<Quote>, t: int)
    requires TimeOrdered(quotes)
    ensures var n := |Visible(quotes, t)|;
      && n <= |quotes|
      && (forall i | 0 <= i < n :: quotes[i].ts <= t)
      && (n < |quotes| ==> quotes[n].ts > t)
  {
    if quotes != [] {
      VisibleCut(quotes[..|quotes| - 1], t);
    }
  }

  /** What an earlier instant sees is contained in what a later instant sees. */
  lemma {:induction false} VisibleNests(quotes: seq<Quote>, early: int, late: int)
    requires early <= late
    ensures Visible(Visible(quotes, late), early) == Visible(quotes, early)
  {
    if quotes != [] {
      var front, last := quotes[..|quotes| - 1], quotes[|quotes| - 1];
      VisibleNests(front, early, late);
      var v := Visible(front, late);
      if last.ts <= late {
        assert (v + [last])[..|v|] == v;
      } else {
        assert v + [] == v;
      }
    }
  }

  lemma {:induction false} LatestInIsLast(tape: seq<Quote>, c: Contract)
    ensures LatestIn(tape, c).None? <==> forall q | q in tape :: q.contract != c
    ensures LatestIn(tape, c).Some? ==>
      exists i :: 0 <= i < |tape| && tape[i] == LatestIn(tape, c).value && tape[i].contract == c &&
        forall j | i < j < |tape| :: tape[j].contract != c
  {
    if tape != [] {
      var n := |tape| - 1;
      assert tape == tape[..n] + [tape[n]];
      LatestInIsLast(tape[..n], c);
      if tape[n].contract != c && LatestIn(tape, c).Some? {
        var i :| 0 <= i < n && tape[..n][i] == LatestIn(tape, c).value && tape[i].contract == c &&
          forall j | i < j < n :: tape[..n][j].contract != c;
        forall j | i < j < |tape| ensures tape[j].contract != c {
          if j < n { assert tape[..n][j] == tape[j]; }
        }
      }
    }
  }

  /** The index holds exactly the newest visible quote of every contract that has one; among quotes of
      one instant the last on the tape counts. */
  lemma LatestAtIsNewest(quotes: seq<Quote>, t: int, c: Contract)
    requires TimeOrdered(quotes)
    ensures LatestAt(quotes, t, c).None? <==> forall q | q in quotes && q.ts <= t :: q.contract != c
    ensures LatestAt(quotes, t, c).Some? ==>
      exists i :: 0 <= i < |quotes| && quotes[i] == LatestAt(quotes, t, c).value &&
        quotes[i].contract == c && quotes[i].ts <= t &&
        forall j | i < j < |quotes| :: quotes[j].contract == c ==> quotes[j].ts > t
  {
    var n := |Visible(quotes, t)|;
    VisibleCut(quotes, t);
    VisibleIsPrefix(quotes, t, n);
    LatestInIsLast(quotes[..n], c);
    if LatestAt(quotes, t, c).Some? {
      var i :| 0 <= i < n && quotes[..n][i] == LatestAt(quotes, t, c).value && quotes[i].contract == c &&
        forall j | i < j < n :: quotes[..n][j].contract != c;
      assert forall j | i < j < n :: quotes[j].contract != c by {
        assert forall j | i < j < n :: quotes[..n][j] == quotes[j];
      }
      forall j | i < j < |quotes| && quotes[j].contract == c ensures quotes[j].ts > t {
        assert n <= j && (n == j || quotes[n].ts <= quotes[j].ts);
      }
    }
  }

  lemma LatestInOfAppended(tape: seq<Quote>, q: Quote, c: Contract)
    ensures LatestIn(tape + [q], c) == if q.contract == c then Some(q) else LatestIn(tape, c)
  {
    assert (tape + [q])[..|tape|] == tape;
  }

  /** The map keeps the last quote of every contract among the first `n` of the tape. */
  ghost predicate Indexes(latest: map<Contract, Quote>, quotes: seq<Quote>, n: nat)
    requires n <= |quotes|
  {
    forall c :: Lookup(latest, c) == LatestIn(quotes[..n], c)
  }

  lemma EmptyIndex(quotes: seq<Quote>)
    ensures Indexes(map[], quotes, 0)
  {
  }

  lemma RunningIndexStep(latest: map<Contract, Quote>, quotes: seq<Quote>, n: nat)
    requires n < |quotes| && Indexes(latest, quotes, n)
    ensures Indexes(latest[quotes[n].contract := quotes[n]], quotes, n + 1)
  {
    var next := latest[quotes[n].contract := quotes[n]];
    assert quotes[..n + 1] == quotes[..n] + [quotes[n]];
    forall c ensures Lookup(next, c) == LatestIn(quotes[..n + 1], c) {
      LatestInOfAppended(quotes[..n], quotes[n], c);
    }
  }

  /** Scans the tape once and stops at the first quote from the future. */
  method LatestQuotesAtOrBefore(quotes: seq<Quote>, entry: int) returns (latest: map<Contract, Quote>)
    requires TimeOrdered(quotes)
    ensures forall c :: Lookup(latest, c) == LatestAt(quotes, entry, c)
  {
    hide LatestIn;
    latest := map[];
    var n := 0;
    EmptyIndex(quotes);
    while n < |quotes|
      invariant 0 <= n <= |quotes|
      invariant forall i | 0 <= i < n :: quotes[i].ts <= entry
      invariant Indexes(latest, quotes, n)
    {
      if quotes[n].ts > entry { break; }
      RunningIndexStep(latest, quotes, n);
      latest := latest[quotes[n].contract := quotes[n]];
      n := n + 1;
    }
    VisibleIsPrefix(quotes, entry, n);
  }

  // ----- the opening fill -----

  /** What a short leg collects: its bid, when the book has a positive and uncrossed one. */
  function SellPrice(q: Option<Quote>): Option<real> {
    if q.None? || q.value.bid.None? || q.value.bid.value <= 0.0 then None
    else if q.value.ask.Some? && q.value.bid.value > q.value.ask.value then None
    else q.value.bid
  }

  /** What a long leg pays: its ask, when the book has one and is not crossed. */
  function BuyPrice(q: Option<Quote>): Option<real> {
    if q.None? || q.value.ask.None? then None
    else if q.value.bid.Some? && q.value.bid.value > q.value.ask.value then None
    else q.value.ask
  }

  datatype Fill = Fill(filledAt: int, shortPut: real, longPut: real, shortCall: real, longCall: real, credit: real)

  datatype EconomicsError =
    | DayMismatch
    | NegativeFees
    | BadStrike
    | Selection(reason: StrikeError)
    | NegativeMaxLoss

  /** The strike fits the eight-digit field of the contract symbol. */
  predicate Listable(strike: int) { 0 < strike < 100000 }

  predicate AllListable(s: IronCondor) {
    Listable(s.shortPut) && Listable(s.longPut) && Listable(s.shortCall) && Listable(s.longCall)
  }

  function Opening(filledAt: int, shortPut: Option<Quote>, longPut: Option<Quote>, shortCall: Option<Quote>,
                   longCall: Option<Quote>): Option<Fill> {
    var sp, lp := SellPrice(shortPut), BuyPrice(longPut);
    var sc, lc := SellPrice(shortCall), BuyPrice(longCall);
    if sp.None? || lp.None? || sc.None? || lc.None? then None
    else Some(Fill(filledAt, sp.value, lp.value, sc.value, lc.value, sp.value + sc.value - lp.value - lc.value))
  }

  /** The fill that the quotes visible at entry allow, computed from scratch. */
  function FillAt(quotes: seq<Quote>, entry: int, s: IronCondor): Result<Option<Fill>, EconomicsError> {
    if !AllListable(s) then Err(BadStrike)
    else Ok(Opening(entry, LatestAt(quotes, entry, Contract(Put, s.shortPut)),
                    LatestAt(quotes, entry, Contract(Put, s.longPut)),
                    LatestAt(quotes, entry, Contract(Call, s.shortCall)),
                    LatestAt(quotes, entry, Contract(Call, s.longCall))))
  }

  method PriceCondor(quotes: seq<Quote>, entry: int, s: IronCondor)
      returns (fill: Result<Option<Fill>, EconomicsError>)
    requires TimeOrdered(quotes)
    ensures fill == FillAt(quotes, entry, s)
  {
    hide LatestAt, Opening;
    var latest := LatestQuotesAtOrBefore(quotes, entry);
    if !AllListable(s) { return Err(BadStrike); }
    return Ok(Opening(entry, Lookup(latest, Contract(Put, s.shortPut)), Lookup(latest, Contract(Put, s.longPut)),
                      Lookup(latest, Contract(Call, s.shortCall)), Lookup(latest, Contract(Call, s.longCall))));
  }

  // ----- one day -----

  datatype DayEconomics =
    | Unpriceable
    | Priced(credit: real, maxLoss: real, settlementLoss: real, pnl: real, putBreached: bool, callBreached: bool,
             fees: real, netPnl: real)

  function DayOf(quotes: seq<Quote>, chainDay: int, distancesDay: int, entry: int, center: real, up: real, down: real,
                 close: real, fees: real): Result<DayEconomics, EconomicsError>
  {
    if distancesDay != chainDay then Err(DayMismatch)
    else if fees < 0.0 then Err(NegativeFees)
    else match SelectDefault(center, up, down)
      case Err(e) => Err(Selection(e))
      case Ok(s) =>
        match FillAt(quotes, entry, s)
        case Err(e) => Err(e)
        case Ok(None) => Ok(Unpriceable)
        case Ok(Some(fill)) => Booked(s, fill, close, fees)
  }

  function Booked(s: IronCondor, fill: Fill, close: real, fees: real): Result<DayEconomics, EconomicsError> {
    match Settle(s, close)
    case Err(e) => Err(Selection(e))
    case Ok(loss) =>
      var wing := (s.shortPut - s.longPut) as real;
      if wing - fill.credit < 0.0 then Err(NegativeMaxLoss)
      else
        var pnl := fill.credit - loss;
        Ok(Priced(fill.credit, wing - fill.credit, loss, pnl, close < s.shortPut as real, close > s.shortCall as real,
                  fees, pnl - fees))
  }

  method EvaluateDay(quotes: seq<Quote>, chainDay: int, distancesDay: int, entry: int, center: real, up: real,
                     down: real, close: real, fees: real) returns (day: Result<DayEconomics, EconomicsError>)
    requires TimeOrdered(quotes)
    ensures day == DayOf(quotes, chainDay, distancesDay, entry, center, up, down, close, fees)
  {
    hide FillAt, Booked, SelectStrikes;
    if distancesDay != chainDay { return Err(DayMismatch); }
    if fees < 0.0 { return Err(NegativeFees); }
    var strikes := SelectDefault(center, up, down);
    if strikes.Err? { return Err(Selection(strikes.error)); }
    var fill := PriceCondor(quotes, entry, strikes.value);
    if fill.Err? { return Err(fill.error); }
    if fill.value.None? { return Ok(Unpriceable); }
    return Booked(strikes.value, fill.value.value, close, fees);
  }

  /** A fill uses nothing quoted after its instant. */
  lemma FillSeesNoFuture(quotes: seq<Quote>, other: seq<Quote>, entry: int, s: IronCondor)
    requires Visible(quotes, entry) == Visible(other, entry)
    ensures FillAt(quotes, entry, s) == FillAt(other, entry, s)
  {
  }

  /** Collected prices are positive bids and paid prices are asks, so a well-formed tape prices every leg
      at the worse side of its book. */
  lemma FillIsConservative(quotes: seq<Quote>, entry: int, s: IronCondor)
    requires FillAt(quotes, entry, s).Ok? && FillAt(quotes, entry, s).value.Some?
    ensures var f := FillAt(quotes, entry, s).value.value;
      var sp := LatestAt(quotes, entry, Contract(Put, s.shortPut));
      var sc := LatestAt(quotes, entry, Contract(Call, s.shortCall));
      var lp := LatestAt(quotes, entry, Contract(Put, s.longPut));
      var lc := LatestAt(quotes, entry, Contract(Call, s.longCall));
      && sp.Some? && sc.Some? && lp.Some? && lc.Some?
      && sp.value.bid == Some(f.shortPut) && sc.value.bid == Some(f.shortCall)
      && lp.value.ask == Some(f.longPut) && lc.value.ask == Some(f.longCall)
      && f.shortPut > 0.0 && f.shortCall > 0.0
      && (sp.value.ask.Some? ==> f.shortPut <= sp.value.ask.value)
      && (sc.value.ask.Some? ==> f.shortCall <= sc.value.ask.value)
      && (lp.value.bid.Some? ==> f.longPut >= lp.value.bid.value)
      && (lc.value.bid.Some? ==> f.longCall >= lc.value.bid.value)
      && f.credit == f.shortPut + f.shortCall - f.longPut - f.longCall && f.filledAt == entry
  {
    hide LatestAt;
  }

  /** A book that a short leg can be opened on: a positive bid, and no ask below it. */
  ghost predicate Sellable(q: Option<Quote>) {
    && q != None && q.value.bid != None && q.value.bid.value > 0.0
    && (q.value.ask != None ==> q.value.ask.value >= q.value.bid.value)
  }

  /** A book that a long leg can be opened on: an ask, and no bid above it. */
  ghost predicate Buyable(q: Option<Quote>) {
    q != None && q.value.ask != None && (q.value.bid != None ==> q.value.bid.value <= q.value.ask.value)
  }

  /** When there is no fill: an unlistable strike is an error, and one unusable book leaves the position unpriced. */
  lemma FillExactlyOnUsableBooks(quotes: seq<Quote>, entry: int, s: IronCondor)
    ensures FillAt(quotes, entry, s) == Err(BadStrike) <==>
      exists k :: k in [s.shortPut, s.longPut, s.shortCall, s.longCall] && (k <= 0 || k > 99_999)
    ensures FillAt(quotes, entry, s).Err? ==> FillAt(quotes, entry, s).error == BadStrike
    ensures FillAt(quotes, entry, s).Ok? ==> (FillAt(quotes, entry, s).value.Some? <==>
      && Sellable(LatestAt(quotes, entry, Contract(Put, s.shortPut)))
      && Buyable(LatestAt(quotes, entry, Contract(Put, s.longPut)))
      && Sellable(LatestAt(quotes, entry, Contract(Call, s.shortCall)))
      && Buyable(LatestAt(quotes, entry, Contract(Call, s.longCall))))
  {
    hide LatestAt;
    var strikes := [s.shortPut, s.longPut, s.shortCall, s.longCall];
    assert strikes[0] in strikes && strikes[1] in strikes && strikes[2] in strikes && strikes[3] in strikes;
  }

  /** The books of a day, figure by figure: the credit is that of the fill, the loss is how far the close lies beyond a
      short strike, up to 5 points, and a side is breached when the close lies beyond its short strike. */
  lemma BookedDay(quotes: seq<Quote>, day: int, entry: int, center: real, up: real, down: real, close: real, fees: real)
    requires center > 0.0 && up >= 0.0 && down >= 0.0 && close > 0.0 && fees >= 0.0
    ensures var r, s := DayOf(quotes, day, day, entry, center, up, down, close, fees), SelectDefault(center, up, down).value;
      var fill := FillAt(quotes, entry, s);
      && (r == Ok(Unpriceable) <==> fill == Ok(None))
      && (r == Err(BadStrike) <==> fill == Err(BadStrike))
      && (r.Ok? && r.value.Priced? ==>
            var d := r.value;
            && fill.Ok? && fill.value.Some? && d.credit == fill.value.value.credit && d.maxLoss == 5.0 - d.credit
            && d.settlementLoss ==
                 MinReal(5.0, MaxReal(0.0, s.shortPut as real - close) + MaxReal(0.0, close - s.shortCall as real))
            && (d.putBreached <==> close < s.shortPut as real) && (d.callBreached <==> close > s.shortCall as real)
            && d.pnl == d.credit - d.settlementLoss && d.fees == fees && d.netPnl == d.pnl - fees)
  {
    DefaultStrikes(center, up, down);
    SettlementShape(SelectDefault(center, up, down).value, close);
    FillExactlyOnUsableBooks(quotes, entry, SelectDefault(center, up, down).value);
    hide FillAt, RawLoss, SelectStrikes;
  }

  /** The errors of a day before its books, in the order they are checked. */
  lemma DayFails(quotes: seq<Quote>, chainDay: int, distancesDay: int, entry: int, center: real, up: real, down: real,
                 close: real, fees: real)
    ensures var r := DayOf(quotes, chainDay, distancesDay, entry, center, up, down, close, fees);
      && (r == Err(DayMismatch) <==> distancesDay != chainDay)
      && (r == Err(NegativeFees) <==> distancesDay == chainDay && fees < 0.0)
      && (distancesDay == chainDay && fees >= 0.0 ==>
            && (r == Err(Selection(CenterNotPositive)) <==> center <= 0.0)
            && (r == Err(Selection(NegativeTail)) <==> center > 0.0 && (up < 0.0 || down < 0.0))
            && (r == Err(Selection(CloseNotPositive)) <==>
                  && center > 0.0 && up >= 0.0 && down >= 0.0 && close <= 0.0
                  && var fill := FillAt(quotes, entry, SelectDefault(center, up, down).value);
                     fill.Ok? && fill.value.Some?))
  {
    SelectionFails(center, up, down, 0.0, 0.0, 0.0, STRIKE_INCREMENT, WING_WIDTH);
    if center > 0.0 && up >= 0.0 && down >= 0.0 {
      DefaultStrikes(center, up, down);
      SettlementFails(SelectDefault(center, up, down).value, close);
      FillExactlyOnUsableBooks(quotes, entry, SelectDefault(center, up, down).value);
    }
    hide FillAt, Settle;
  }

  /** A booked day loses at most its declared maximum and gains at most its credit; it gives up part of
      the credit exactly when a short strike is breached, and never both. */
  lemma BookedDayIsBounded(quotes: seq<Quote>, chainDay: int, distancesDay: int, entry: int, center: real, up: real,
                           down: real, close: real, fees: real)
    requires up >= 0.0 && down >= 0.0
    requires var r := DayOf(quotes, chainDay, distancesDay, entry, center, up, down, close, fees);
      r.Ok? && r.value.Priced?
    ensures var d := DayOf(quotes, chainDay, distancesDay, entry, center, up, down, close, fees).value;
      && 0.0 <= d.maxLoss == WING_WIDTH as real - d.credit
      && -d.maxLoss <= d.pnl <= d.credit
      && (d.pnl < d.credit <==> d.putBreached || d.callBreached)
      && !(d.putBreached && d.callBreached)
      && d.netPnl <= d.pnl == d.credit - d.settlementLoss && d.netPnl + d.fees == d.pnl
  {
    hide FillAt;
    StrikesAreTightest(center, up, down, 0.0, 0.0, 0.0, STRIKE_INCREMENT, WING_WIDTH);
    SettlementShape(SelectDefault(center, up, down).value, close);
  }

  /** A close within the distances keeps the whole credit. */
  lemma CoveredDayKeepsTheCredit(quotes: seq<Quote>, day: int, entry: int, center: real, up: real, down: real,
                                 close: real, fees: real)
    requires up >= 0.0 && down >= 0.0 && close > 0.0 && center - down <= close <= center + up
    requires var r := DayOf(quotes, day, day, entry, center, up, down, close, fees); r.Ok? && r.value.Priced?
    ensures var d := DayOf(quotes, day, day, entry, center, up, down, close, fees).value;
      d.settlementLoss == 0.0 && d.pnl == d.credit && !d.putBreached && !d.callBreached
  {
    hide FillAt;
    StrikesAreTightest(center, up, down, 0.0, 0.0, 0.0, STRIKE_INCREMENT, WING_WIDTH);
    CorridorSettlesFlat(center, close, up, down);
  }

  /** A priceable day with a valid close is refused exactly when the tape quotes more credit than the wing. */
  lemma RichCreditIsRefused(quotes: seq<Quote>, day: int, entry: int, center: real, up: real, down: real, close: real,
                            fees: real)
    requires center > 0.0 && up >= 0.0 && down >= 0.0 && close > 0.0 && fees >= 0.0
    requires var f := FillAt(quotes, entry, SelectDefault(center, up, down).value); f.Ok? && f.value.Some?
    ensures var r := DayOf(quotes, day, day, entry, center, up, down, close, fees);
      var credit := FillAt(quotes, entry, SelectDefault(center, up, down).value).value.value.credit;
      && (r.Err? <==> credit > WING_WIDTH as real)
      && (r.Err? ==> r.error == NegativeMaxLoss)
  {
    hide FillAt;
  }
}
