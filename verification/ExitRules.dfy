/** The minute-by-minute simulation of exit rules on one day's quote tape. */
module ExitRules {
  import opened Common
  import opened Strikes
  import opened CondorEconomics

  /** One minute, in microseconds. */
  const MINUTE := 60000000

  datatype RuleKind = Hold | ProfitTarget | StopLoss | TimeExit

  /** `timeExit` is the rule's wall clock on the chain day, as an instant. */
  datatype Rule = Rule(kind: RuleKind, profitFraction: real, stopMultiple: real, timeExit: int)

  /** What the constructor of a rule accepts. */
  predicate ValidRule(rule: Rule) { 0.0 < rule.profitFraction <= 1.0 && rule.stopMultiple > 0.0 }

  datatype Reason = TargetReached | StopReached | ClockReached | Expiry

  datatype Outcome = Outcome(exitTs: int, reason: Reason, exitCost: real, pnl: real, holdingMinutes: real)

  datatype ExitError = NotOnChainDay | EntryNotBeforeClose | BadSymbol | Settlement(reason: StrikeError)

  /** The position that is being closed: its entry, credit, strikes, and the session it expires in. */
  datatype Position = Position(entry: int, credit: real, strikes: IronCondor, closeTs: int, closePrice: real)

  /** Shorts are bought back at the ask and longs sold at the bid. */
  function Debit(shortPut: Option<Quote>, longPut: Option<Quote>, shortCall: Option<Quote>, longCall: Option<Quote>):
    Option<real>
  {
    var sp, sc := BuyPrice(shortPut), BuyPrice(shortCall);
    var lp, lc := SellPrice(longPut), SellPrice(longCall);
    if sp.None? || sc.None? || lp.None? || lc.None? then None
    else Some(sp.value + sc.value - lp.value - lc.value)
  }

  function CloseCost(latest: map<Contract, Quote>, s: IronCondor): Option<real> {
    Debit(Lookup(latest, Contract(Put, s.shortPut)), Lookup(latest, Contract(Put, s.longPut)),
          Lookup(latest, Contract(Call, s.shortCall)), Lookup(latest, Contract(Call, s.longCall)))
  }

  /** The close cost at an instant, from the quotes visible then and nothing else. */
  function CostAt(quotes: seq<Quote>, t: int, s: IronCondor): Option<real> {
    Debit(LatestAt(quotes, t, Contract(Put, s.shortPut)), LatestAt(quotes, t, Contract(Put, s.longPut)),
          LatestAt(quotes, t, Contract(Call, s.shortCall)), LatestAt(quotes, t, Contract(Call, s.longCall)))
  }

  function Trigger(rule: Rule, credit: real, minute: int, cost: real): Option<Reason> {
    if rule.kind == ProfitTarget && cost <= credit * (1.0 - rule.profitFraction) then Some(TargetReached)
    else if rule.kind == StopLoss && cost >= credit * (1.0 + rule.stopMultiple) then Some(StopReached)
    else if rule.kind == TimeExit && minute >= rule.timeExit then Some(ClockReached)
    else None
  }

  function Mark(p: Position, k: int): int { p.entry + k * MINUTE }

  /** What the rule decides at the `k`-th minute after entry. */
  function Decision(quotes: seq<Quote>, p: Position, rule: Rule, k: int): Option<Reason> {
    var cost := CostAt(quotes, Mark(p, k), p.strikes);
    if cost.None? then None else Trigger(rule, p.credit, Mark(p, k), cost.value)
  }

  ghost predicate InSession(p: Position, k: int) { 1 <= k && Mark(p, k) <= p.closeTs }

  ghost predicate FirstTrigger(quotes: seq<Quote>, p: Position, rule: Rule, k: int) {
    && InSession(p, k)
    && Decision(quotes, p, rule, k).Some?
    && forall j | 1 <= j < k :: Decision(quotes, p, rule, j).None?
  }

  function ExitAt(p: Position, minute: int, reason: Reason, cost: real): Outcome {
    Outcome(minute, reason, cost, p.credit - cost, (minute - p.entry) as real / MINUTE as real)
  }

  function AtExpiry(p: Position): Result<Outcome, ExitError> {
    match Settle(p.strikes, p.closePrice)
    case Err(e) => Err(Settlement(e))
    case Ok(loss) => Ok(ExitAt(p, p.closeTs, Expiry, loss))
  }

  /** The outcome stated without a scan: the first evaluable minute whose trigger holds, else expiry. */
  ghost predicate IsOutcome(quotes: seq<Quote>, onChainDay: bool, p: Position, rule: Rule,
                            r: Result<Outcome, ExitError>)
  {
    if !onChainDay then r == Err(NotOnChainDay)
    else if p.entry >= p.closeTs then r == Err(EntryNotBeforeClose)
    else if rule.kind == Hold then r == AtExpiry(p)
    else if !AllListable(p.strikes) then r == Err(BadSymbol)
    else
      || (exists k :: FirstTrigger(quotes, p, rule, k) && r == Ok(EarlyExit(quotes, p, rule, k)))
      || ((forall k | InSession(p, k) :: Decision(quotes, p, rule, k).None?) && r == AtExpiry(p))
  }

  ghost function EarlyExit(quotes: seq<Quote>, p: Position, rule: Rule, k: int): Outcome
    requires Decision(quotes, p, rule, k).Some?
  {
    ExitAt(p, Mark(p, k), Decision(quotes, p, rule, k).value, CostAt(quotes, Mark(p, k), p.strikes).value)
  }

  /** The forward-only map prices a minute as the from-scratch index does. */
  lemma RunningCostIsCostAt(latest: map<Contract, Quote>, quotes: seq<Quote>, n: nat, minute: int, s: IronCondor)
    requires TimeOrdered(quotes) && n <= |quotes| && Indexes(latest, quotes, n)
    requires forall i | 0 <= i < n :: quotes[i].ts <= minute
    requires n < |quotes| ==> quotes[n].ts > minute
    ensures CloseCost(latest, s) == CostAt(quotes, minute, s)
  {
    hide LatestIn, Debit, Visible;
    VisibleIsPrefix(quotes, minute, n);
  }

  method SimulateExit(quotes: seq<Quote>, onChainDay: bool, p: Position, rule: Rule)
      returns (r: Result<Outcome, ExitError>)
    requires TimeOrdered(quotes)
    ensures IsOutcome(quotes, onChainDay, p, rule, r)
  {
    hide LatestIn, Debit, Indexes, CloseCost, CostAt, Settle;
    if !onChainDay { return Err(NotOnChainDay); }
    if p.entry >= p.closeTs { return Err(EntryNotBeforeClose); }
    if rule.kind == Hold {
      r := AtExpiry(p);
      return;
    }
    if !AllListable(p.strikes) { return Err(BadSymbol); }
    var latest: map<Contract, Quote> := map[];
    var index := 0;
    EmptyIndex(quotes);
    var minute := p.entry + MINUTE;
    ghost var k := 1;
    while minute <= p.closeTs
      invariant 0 <= index <= |quotes| && 1 <= k && minute == Mark(p, k)
      invariant Indexes(latest, quotes, index)
      invariant forall i | 0 <= i < index :: quotes[i].ts <= minute
      invariant forall j | 1 <= j < k :: Decision(quotes, p, rule, j).None?
    {
      while index < |quotes| && quotes[index].ts <= minute
        invariant 0 <= index <= |quotes|
        invariant Indexes(latest, quotes, index)
        invariant forall i | 0 <= i < index :: quotes[i].ts <= minute
      {
        RunningIndexStep(latest, quotes, index);
        latest := latest[quotes[index].contract := quotes[index]];
        index := index + 1;
      }
      var cost := CloseCost(latest, p.strikes);
      RunningCostIsCostAt(latest, quotes, index, minute, p.strikes);
      if cost.Some? {
        var reason := Trigger(rule, p.credit, minute, cost.value);
        if reason.Some? {
          assert FirstTrigger(quotes, p, rule, k);
          return Ok(ExitAt(p, minute, reason.value, cost.value));
        }
      }
      minute := minute + MINUTE;
      k := k + 1;
    }
    assert forall j | InSession(p, j) :: j < k;
    r := AtExpiry(p);
  }

  lemma OutcomeIsUnique(quotes: seq<Quote>, onChainDay: bool, p: Position, rule: Rule,
                        a: Result<Outcome, ExitError>, b: Result<Outcome, ExitError>)
    requires IsOutcome(quotes, onChainDay, p, rule, a) && IsOutcome(quotes, onChainDay, p, rule, b)
    ensures a == b
  {
    hide Decision, Settle, EarlyExit, AtExpiry, Mark;
    if onChainDay && p.entry < p.closeTs && rule.kind != Hold && AllListable(p.strikes) {
      if k :| FirstTrigger(quotes, p, rule, k) && a == Ok(EarlyExit(quotes, p, rule, k)) {
        var m :| FirstTrigger(quotes, p, rule, m) && b == Ok(EarlyExit(quotes, p, rule, m));
        assert k == m;
      }
    }
  }

  lemma CostSeesNoFuture(quotes: seq<Quote>, other: seq<Quote>, t: int, horizon: int, s: IronCondor)
    requires Visible(quotes, horizon) == Visible(other, horizon) && t <= horizon
    ensures CostAt(quotes, t, s) == CostAt(other, t, s)
  {
    hide LatestIn, Debit;
    VisibleNests(quotes, t, horizon);
    VisibleNests(other, t, horizon);
  }

  /** No lookahead: any edit to the tape behind the exit instant leaves the whole outcome as it was. */
  lemma OutcomeSeesNoFuture(quotes: seq<Quote>, other: seq<Quote>, onChainDay: bool, p: Position, rule: Rule,
                            r: Result<Outcome, ExitError>)
    requires IsOutcome(quotes, onChainDay, p, rule, r) && r.Ok?
    requires Visible(quotes, r.value.exitTs) == Visible(other, r.value.exitTs)
    ensures IsOutcome(other, onChainDay, p, rule, r)
  {
    hide CostAt, Trigger, Settle, Visible;
    var t := r.value.exitTs;
    forall k | Mark(p, k) <= t
      ensures CostAt(quotes, Mark(p, k), p.strikes) == CostAt(other, Mark(p, k), p.strikes)
      ensures Decision(quotes, p, rule, k) == Decision(other, p, rule, k)
    {
      CostSeesNoFuture(quotes, other, Mark(p, k), t, p.strikes);
    }
    if rule.kind != Hold {
      if k :| FirstTrigger(quotes, p, rule, k) && r == Ok(EarlyExit(quotes, p, rule, k)) {
        assert FirstTrigger(other, p, rule, k);
      }
    }
  }

  /** What each reason promises about the money and the clock. */
  lemma OutcomeKeepsThePromise(quotes: seq<Quote>, p: Position, rule: Rule, r: Result<Outcome, ExitError>)
    requires IsOutcome(quotes, true, p, rule, r) && r.Ok?
    ensures var o := r.value;
      && p.entry < o.exitTs <= p.closeTs && o.pnl == p.credit - o.exitCost && o.holdingMinutes > 0.0
      && (o.reason == TargetReached ==> rule.kind == ProfitTarget && o.pnl >= rule.profitFraction * p.credit)
      && (o.reason == StopReached ==> rule.kind == StopLoss && o.pnl <= -(rule.stopMultiple * p.credit))
      && (o.reason == ClockReached ==> rule.kind == TimeExit && o.exitTs >= rule.timeExit)
      && (o.reason == Expiry ==> o.exitTs == p.closeTs && Settle(p.strikes, p.closePrice) == Ok(o.exitCost))
    ensures ValidRule(rule) && p.credit >= 0.0 ==>
      && (r.value.reason == TargetReached ==> r.value.pnl >= 0.0 && (p.credit > 0.0 ==> r.value.pnl > 0.0))
      && (r.value.reason == StopReached ==> r.value.pnl <= 0.0 && (p.credit > 0.0 ==> r.value.pnl < 0.0))
  {
    hide CostAt, Settle, Trigger;
    var o := r.value;
    if rule.kind != Hold {
      if k :| FirstTrigger(quotes, p, rule, k) && r == Ok(EarlyExit(quotes, p, rule, k)) {
        TriggerKeepsThePromise(rule, p.credit, o.exitTs, o.exitCost);
      }
    }
    assert (o.exitTs - p.entry) as real > 0.0;
  }

  lemma TriggerKeepsThePromise(rule: Rule, credit: real, minute: int, cost: real)
    ensures var why, pnl := Trigger(rule, credit, minute, cost), credit - cost;
      && why != Some(Expiry)
      && (why == Some(TargetReached) ==> rule.kind == ProfitTarget && pnl >= rule.profitFraction * credit)
      && (why == Some(StopReached) ==> rule.kind == StopLoss && pnl <= -(rule.stopMultiple * credit))
      && (why == Some(ClockReached) ==> rule.kind == TimeExit && minute >= rule.timeExit)
      && (ValidRule(rule) && credit >= 0.0 ==>
            && (why == Some(TargetReached) ==> pnl >= 0.0 && (credit > 0.0 ==> pnl > 0.0))
            && (why == Some(StopReached) ==> pnl <= 0.0 && (credit > 0.0 ==> pnl < 0.0)))
  {
    TriggerShares(credit, rule.profitFraction, rule.stopMultiple);
    if ValidRule(rule) && credit >= 0.0 { SharesOfCredit(credit, rule.profitFraction, rule.stopMultiple); }
  }

  lemma SharesOfCredit(credit: real, f: real, m: real)
    requires credit >= 0.0 && f > 0.0 && m > 0.0
    ensures f * credit >= 0.0 && m * credit >= 0.0
    ensures credit > 0.0 ==> f * credit > 0.0 && m * credit > 0.0
  {
  }

  /** What the trigger of a rule means for the money at the cost it fires on: a target exit never loses and a
      stop exit never gains. */
  ghost predicate ReasonTellsProfit(rule: Rule, credit: real) {
    forall minute, cost ::
      && (Trigger(rule, credit, minute, cost) == Some(TargetReached) ==> credit - cost >= 0.0)
      && (Trigger(rule, credit, minute, cost) == Some(StopReached) ==> credit - cost <= 0.0)
  }

  /** The reason of an exit tells profit from loss exactly on positions that were not opened at a debit. */
  lemma ReasonTellsProfitExactlyForCredit(rule: Rule, credit: real)
    requires ValidRule(rule) && (rule.kind == ProfitTarget || rule.kind == StopLoss)
    ensures ReasonTellsProfit(rule, credit) <==> credit >= 0.0
  {
    TriggerShares(credit, rule.profitFraction, rule.stopMultiple);
    if credit >= 0.0 {
      SharesOfCredit(credit, rule.profitFraction, rule.stopMultiple);
    } else {
      SharesOfCredit(-credit, rule.profitFraction, rule.stopMultiple);
      var f, m := rule.profitFraction, rule.stopMultiple;
      assert f * -credit == -(f * credit) && m * -credit == -(m * credit);
      var cost := if rule.kind == ProfitTarget then credit * (1.0 - f) else credit * (1.0 + m);
      assert Trigger(rule, credit, 0, cost).Some?;
    }
  }

  /** The rule, in money and on the clock: the share of the credit that is kept, the multiple of it that is
      lost, or the time. */
  predicate RuleMet(rule: Rule, credit: real, minute: int, cost: real) {
    match rule.kind
    case Hold => false
    case ProfitTarget => credit - cost >= rule.profitFraction * credit
    case StopLoss => credit - cost <= -(rule.stopMultiple * credit)
    case TimeExit => minute >= rule.timeExit
  }

  /** No exit is late: at every minute after entry and before the exit (at every one up to the close, for a
      position held to expiry) that the quotes price, the rule was not met. And none is early: an exit before
      expiry is at a whole minute after entry, at the cost of that minute, which meets the rule. */
  lemma ExitIsTheFirstMinute(quotes: seq<Quote>, p: Position, rule: Rule, r: Result<Outcome, ExitError>, k: int)
    requires IsOutcome(quotes, true, p, rule, r) && r.Ok?
    ensures var o, minute := r.value, p.entry + k * 60 * 1_000_000;
      && (k >= 1 && rule.kind != Hold && CostAt(quotes, minute, p.strikes).Some?
          && (minute < o.exitTs || (o.reason == Expiry && minute <= p.closeTs)) ==>
            !RuleMet(rule, p.credit, minute, CostAt(quotes, minute, p.strikes).value))
      && (o.reason != Expiry ==>
            && CostAt(quotes, o.exitTs, p.strikes) == Some(o.exitCost) && RuleMet(rule, p.credit, o.exitTs, o.exitCost)
            && (o.exitTs - p.entry) % (60 * 1_000_000) == 0 && p.entry < o.exitTs <= p.closeTs)
      && o.holdingMinutes == (o.exitTs - p.entry) as real / 60_000_000.0
  {
    hide CostAt, Settle;
    TriggerShares(p.credit, rule.profitFraction, rule.stopMultiple);
    var minute := p.entry + k * 60 * 1_000_000;
    assert minute == Mark(p, k);
    if rule.kind != Hold {
      if m :| FirstTrigger(quotes, p, rule, m) && r == Ok(EarlyExit(quotes, p, rule, m)) {
        WholeMinutes(m);
        if 1 <= k && minute < r.value.exitTs {
          assert k < m;
          assert Decision(quotes, p, rule, k).None?;
        }
      } else if 1 <= k && minute <= p.closeTs {
        assert InSession(p, k);
      }
    }
  }

  lemma WholeMinutes(k: int)
    ensures (k * MINUTE) % (60 * 1_000_000) == 0
  {
  }

  lemma TriggerShares(credit: real, f: real, m: real)
    ensures credit - credit * (1.0 - f) == f * credit
    ensures credit - credit * (1.0 + m) == -(m * credit)
  {
  }

  /** The less a rule asks for, the sooner it exits: a smaller profit fraction, or a smaller stop multiple,
      on a position opened for a credit exits no later than the stricter rule does. */
  lemma ModestRulesExitNoLater(quotes: seq<Quote>, p: Position, modest: Rule, strict: Rule,
                               a: Result<Outcome, ExitError>, b: Result<Outcome, ExitError>)
    requires p.credit >= 0.0 && modest.kind == strict.kind
    requires strict.kind == ProfitTarget || strict.kind == StopLoss
    requires modest.profitFraction <= strict.profitFraction && modest.stopMultiple <= strict.stopMultiple
    requires IsOutcome(quotes, true, p, modest, a) && IsOutcome(quotes, true, p, strict, b) && a.Ok? && b.Ok?
    ensures a.value.exitTs <= b.value.exitTs
    ensures b.value.reason != Expiry ==> a.value.reason == b.value.reason
  {
    hide CostAt, Settle;
    forall k | Decision(quotes, p, strict, k).Some?
      ensures Decision(quotes, p, modest, k) == Decision(quotes, p, strict, k)
    {
      TriggerIsMonotone(modest, strict, p.credit, Mark(p, k), CostAt(quotes, Mark(p, k), p.strikes).value);
    }
    if k :| FirstTrigger(quotes, p, strict, k) && b == Ok(EarlyExit(quotes, p, strict, k)) {
      assert InSession(p, k) && Decision(quotes, p, modest, k).Some?;
      var j :| FirstTrigger(quotes, p, modest, j) && a == Ok(EarlyExit(quotes, p, modest, j));
      assert j <= k;
    }
  }

  lemma TriggerIsMonotone(modest: Rule, strict: Rule, credit: real, minute: int, cost: real)
    requires credit >= 0.0 && modest.kind == strict.kind && strict.kind != TimeExit
    requires modest.profitFraction <= strict.profitFraction && modest.stopMultiple <= strict.stopMultiple
    requires Trigger(strict, credit, minute, cost).Some?
    ensures Trigger(modest, credit, minute, cost) == Trigger(strict, credit, minute, cost)
  {
    var f, g := 1.0 - strict.profitFraction, 1.0 - modest.profitFraction;
    var m, n := 1.0 + modest.stopMultiple, 1.0 + strict.stopMultiple;
    Scales(credit, f, g);
    Scales(credit, m, n);
  }

  lemma Scales(c: real, x: real, y: real)
    requires c >= 0.0 && x <= y
    ensures c * x <= c * y
  {
  }

  /** Closing takes the worse side of every book: the asks of the shorts, less the positive bids of the longs. There is a
      cost exactly when all four books allow it. */
  lemma CostIsConservative(quotes: seq<Quote>, t: int, s: IronCondor)
    ensures var shortPut, shortCall :=
                LatestAt(quotes, t, Contract(Put, s.shortPut)), LatestAt(quotes, t, Contract(Call, s.shortCall));
      var longPut, longCall := LatestAt(quotes, t, Contract(Put, s.longPut)), LatestAt(quotes, t, Contract(Call, s.longCall));
      && (CostAt(quotes, t, s).Some? <==>
            Buyable(shortPut) && Buyable(shortCall) && Sellable(longPut) && Sellable(longCall))
      && (CostAt(quotes, t, s).Some? ==>
            CostAt(quotes, t, s).value == shortPut.value.ask.value + shortCall.value.ask.value
                                          - longPut.value.bid.value - longCall.value.bid.value)
  {
    hide LatestAt;
  }

  /** Opening and closing on the same quotes never gains: the close costs at least the credit. */
  lemma RoundTripNeverGains(quotes: seq<Quote>, t: int, s: IronCondor)
    requires FillAt(quotes, t, s).Ok? && FillAt(quotes, t, s).value.Some? && CostAt(quotes, t, s).Some?
    ensures FillAt(quotes, t, s).value.value.credit <= CostAt(quotes, t, s).value
  {
    hide LatestAt;
  }
}
