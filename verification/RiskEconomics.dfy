/** The weighted-tail CVaR of a scenario set and the entry gate built on it. */
module RiskEconomics {
  import opened Common
  import opened Sorting

  /** A scenario has a positive probability of at most one. */
  datatype Scenario = Scenario(name: string, probability: real, pnl: real)

  ghost predicate WellFormed(s: seq<Scenario>) {
    forall x | x in s :: 0.0 < x.probability <= 1.0
  }

  ghost predicate UniqueNames(s: seq<Scenario>) {
    forall i, j | 0 <= i < j < |s| :: s[i].name != s[j].name
  }

  /** The loop stops once no more than this much tail mass is left to fill. */
  const CUTOFF := 0.000000000000001
  const TOLERANCE := 0.000000001

  predicate WorseOrEqual(a: Scenario, b: Scenario) { a.pnl <= b.pnl }

  // ----- sums over scenarios -----

  function Sum(s: seq<Scenario>, f: Scenario -> real): real {
    if s == [] then 0.0 else f(s[0]) + Sum(s[1..], f)
  }

  function Probability(): Scenario -> real { (x: Scenario) => x.probability }

  /** The profit that an amount of probability placed on a scenario brings. */
  function Gain(amount: real, x: Scenario): real { amount * x.pnl }

  /** The profit of an allocation, scenario by scenario. */
  function Profit(w: Scenario -> real): Scenario -> real { (x: Scenario) => Gain(w(x), x) }

  lemma {:induction false} SumOfAppended(s: seq<Scenario>, x: Scenario, f: Scenario -> real)
    ensures Sum(s + [x], f) == Sum(s, f) + f(x)
  {
    if s == [] {
      assert (s + [x])[1..] == [];
    } else {
      SumOfAppended(s[1..], x, f);
      assert (s + [x])[1..] == s[1..] + [x];
    }
  }

  lemma {:induction false} SumOfInserted(le: (Scenario, Scenario) -> bool, x: Scenario, s: seq<Scenario>, f: Scenario -> real)
    ensures Sum(Insert(le, x, s), f) == Sum(s, f) + f(x)
  {
    if s == [] {
      SumOfAppended([], x, f);
    } else {
      var front, last := s[..|s| - 1], s[|s| - 1];
      assert s == front + [last];
      SumOfAppended(s, x, f);
      SumOfInserted(le, x, front, f);
      SumOfAppended(Insert(le, x, front), last, f);
      SumOfAppended(front, last, f);
    }
  }

  /** A sum does not depend on the order of the scenarios. */
  lemma {:induction false} SumOfSorted(le: (Scenario, Scenario) -> bool, s: seq<Scenario>, f: Scenario -> real)
    ensures Sum(SortBy(le, s), f) == Sum(s, f)
  {
    if s != [] {
      var front, last := s[..|s| - 1], s[|s| - 1];
      assert s == front + [last];
      SumOfSorted(le, front, f);
      SumOfInserted(le, last, SortBy(le, front), f);
      SumOfAppended(front, last, f);
    }
  }

  lemma {:induction false} SumsAgree(s: seq<Scenario>, f: Scenario -> real, g: Scenario -> real)
    requires forall x | x in s :: f(x) == g(x)
    ensures Sum(s, f) == Sum(s, g)
  {
    if s != [] { SumsAgree(s[1..], f, g); }
  }

  lemma {:induction false} SumIsZero(s: seq<Scenario>, f: Scenario -> real)
    requires forall x | x in s :: f(x) == 0.0
    ensures Sum(s, f) == 0.0
  {
    if s != [] { SumIsZero(s[1..], f); }
  }

  lemma Distributes(c: real, a: real, b: real)
    ensures c * (a + b) == c * a + c * b
  {
  }

  lemma {:induction false} SumScales(s: seq<Scenario>, f: Scenario -> real, g: Scenario -> real, c: real)
    requires forall x | x in s :: g(x) == c * f(x)
    ensures Sum(s, g) == c * Sum(s, f)
  {
    if s != [] {
      SumScales(s[1..], f, g, c);
      Distributes(c, f(s[0]), Sum(s[1..], f));
    }
  }

  // ----- the tail -----

  /** An allocation of a tail mass takes no more of a scenario than its probability. */
  ghost predicate Feasible(s: seq<Scenario>, w: Scenario -> real, mass: real) {
    (forall x | x in s :: 0.0 <= w(x) <= x.probability) && Sum(s, w) == mass
  }

  /** `total` is the least profit that any allocation of the mass can have. */
  ghost predicate WorstTotal(s: seq<Scenario>, mass: real, total: real) {
    && (exists w :: Feasible(s, w, mass) && Sum(s, Profit(w)) == total)
    && (forall w | Feasible(s, w, mass) :: Sum(s, Profit(w)) >= total)
  }

  datatype Tail = Tail(total: real, leftover: real)

  /** What the loop takes from scenarios sorted from the worst, and the mass it leaves unfilled. */
  function Greedy(sorted: seq<Scenario>, remaining: real): Tail {
    if sorted == [] then Tail(0.0, remaining)
    else
      var consumed := MinReal(remaining, sorted[0].probability);
      var taken := Gain(consumed, sorted[0]);
      if remaining - consumed <= CUTOFF then Tail(taken, remaining - consumed)
      else
        var rest := Greedy(sorted[1..], remaining - consumed);
        Tail(taken + rest.total, rest.leftover)
  }

  function TailOf(s: seq<Scenario>, mass: real): Tail { Greedy(SortBy(WorseOrEqual, s), mass) }

  /** The allocation behind the greedy total: full below a threshold, empty above it. */
  lemma {:induction false} GreedyAllocation(s: seq<Scenario>, remaining: real, floor: real)
      returns (g: Scenario -> real, threshold: real)
    requires WellFormed(s) && SortedBy(WorseOrEqual, s) && Distinct(s) && remaining >= 0.0
    requires forall x | x in s :: floor <= x.pnl
    ensures threshold >= floor
    ensures 0.0 <= Greedy(s, remaining).leftover <= remaining
    ensures Feasible(s, g, remaining - Greedy(s, remaining).leftover)
    ensures Sum(s, Profit(g)) == Greedy(s, remaining).total
    ensures forall x | x in s :: (x.pnl < threshold ==> g(x) == x.probability) && (x.pnl > threshold ==> g(x) == 0.0)
  {
    hide Gain, SortedBy, Distinct;
    if s == [] {
      g, threshold := (x => 0.0), floor;
    } else {
      RestBehindHead(s);
      var head, rest := s[0], s[1..];
      var consumed := MinReal(remaining, head.probability);
      if remaining - consumed <= CUTOFF {
        g, threshold := (x => if x == head then consumed else 0.0), head.pnl;
        forall x | x in rest ensures g(x) == 0.0 && Profit(g)(x) == 0.0 { NothingGained(x); }
        SumIsZero(rest, g);
        SumIsZero(rest, Profit(g));
      } else {
        var f, t := GreedyAllocation(rest, remaining - consumed, head.pnl);
        g, threshold := (x => if x == head then consumed else f(x)), t;
        SumsAgree(rest, f, g);
        SumsAgree(rest, Profit(f), Profit(g));
      }
    }
  }

  lemma RestBehindHead(s: seq<Scenario>)
    requires SortedBy(WorseOrEqual, s) && Distinct(s) && s != []
    ensures SortedBy(WorseOrEqual, s[1..]) && Distinct(s[1..])
    ensures forall x | x in s[1..] :: x != s[0] && s[0].pnl <= x.pnl
    ensures forall x :: x in s <==> x == s[0] || x in s[1..]
  {
    assert s == [s[0]] + s[1..];
    forall x | x in s[1..] ensures x != s[0] && s[0].pnl <= x.pnl {
      var i :| 1 <= i < |s| && s[i] == x;
      assert WorseOrEqual(s[0], s[i]);
    }
  }

  lemma TimesNothing(c: real, d: real)
    requires d == 0.0
    ensures c * d == 0.0
  {
  }

  lemma NothingGained(x: Scenario)
    ensures Gain(0.0, x) == 0.0
  {
  }

  lemma OneSideOfTheThreshold(x: Scenario, w: real, g: real, threshold: real)
    requires 0.0 <= w <= x.probability
    requires (x.pnl < threshold ==> g == x.probability) && (x.pnl > threshold ==> g == 0.0)
    ensures Gain(w, x) - Gain(g, x) >= threshold * (w - g)
  {
    if x.pnl < threshold {
      ScaledOrder(w, g, threshold - x.pnl);
    } else if x.pnl > threshold {
      ScaledOrder(0.0, w, x.pnl - threshold);
    }
  }

  lemma {:induction false} ThresholdIsOptimal(s: seq<Scenario>, w: Scenario -> real, g: Scenario -> real, threshold: real)
    requires forall x | x in s :: 0.0 <= w(x) <= x.probability
    requires forall x | x in s ::
      (x.pnl < threshold ==> g(x) == x.probability) && (x.pnl > threshold ==> g(x) == 0.0)
    ensures Sum(s, Profit(w)) - Sum(s, Profit(g)) >= threshold * (Sum(s, w) - Sum(s, g))
  {
    hide Gain;
    if s != [] {
      ThresholdIsOptimal(s[1..], w, g, threshold);
      OneSideOfTheThreshold(s[0], w(s[0]), g(s[0]), threshold);
      Distributes(threshold, w(s[0]) - g(s[0]), Sum(s[1..], w) - Sum(s[1..], g));
    }
  }

  lemma WorstFirst(s: seq<Scenario>)
    requires WellFormed(s) && UniqueNames(s)
    ensures var sorted := SortBy(WorseOrEqual, s);
      && WellFormed(sorted) && SortedBy(WorseOrEqual, sorted) && Distinct(sorted)
      && (forall x :: x in sorted <==> x in s)
  {
    hide SortBy;
    SortIsSorted(WorseOrEqual, s);
    SortKeepsElements(WorseOrEqual, s);
    assert Distinct(s);
    SortKeepsDistinct(WorseOrEqual, s);
  }

  lemma FeasibleWhenSorted(s: seq<Scenario>, w: Scenario -> real, mass: real)
    requires WellFormed(s) && UniqueNames(s)
    ensures Feasible(s, w, mass) <==> Feasible(SortBy(WorseOrEqual, s), w, mass)
  {
    WorstFirst(s);
    SumOfSorted(WorseOrEqual, s, w);
  }

  /** The greedy total is the true optimum: no allocation of the mass that the loop filled does worse. */
  lemma GreedyIsWorst(s: seq<Scenario>, mass: real)
    requires WellFormed(s) && UniqueNames(s) && mass >= 0.0
    ensures 0.0 <= TailOf(s, mass).leftover <= mass
    ensures WorstTotal(s, mass - TailOf(s, mass).leftover, TailOf(s, mass).total)
  {
    hide TailOf, Sum, Profit, Feasible, UniqueNames, WellFormed;
    var filled := mass - TailOf(s, mass).leftover;
    var g, threshold := AllocationOfTail(s, mass);
    forall w | Feasible(s, w, filled) ensures Sum(s, Profit(w)) >= TailOf(s, mass).total {
      NoFeasibleIsWorse(s, w, g, threshold, filled);
    }
  }

  /** The greedy allocation, seen from the unsorted scenarios. */
  lemma AllocationOfTail(s: seq<Scenario>, mass: real) returns (g: Scenario -> real, threshold: real)
    requires WellFormed(s) && UniqueNames(s) && mass >= 0.0
    ensures 0.0 <= TailOf(s, mass).leftover <= mass
    ensures Feasible(s, g, mass - TailOf(s, mass).leftover)
    ensures Sum(s, Profit(g)) == TailOf(s, mass).total
    ensures forall x | x in s :: (x.pnl < threshold ==> g(x) == x.probability) && (x.pnl > threshold ==> g(x) == 0.0)
  {
    WorstFirst(s);
    var sorted := SortBy(WorseOrEqual, s);
    hide SortBy, Greedy, Sum, Profit, Feasible, UniqueNames, Distinct, SortedBy, WellFormed;
    HeadIsWorst(sorted);
    g, threshold := GreedyAllocation(sorted, mass, if sorted == [] then 0.0 else sorted[0].pnl);
    FeasibleWhenSorted(s, g, mass - TailOf(s, mass).leftover);
    SumOfSorted(WorseOrEqual, s, Profit(g));
  }

  lemma HeadIsWorst(sorted: seq<Scenario>)
    requires SortedBy(WorseOrEqual, sorted)
    ensures forall x | x in sorted :: sorted[0].pnl <= x.pnl
  {
    forall x | x in sorted ensures sorted[0].pnl <= x.pnl {
      var i :| 0 <= i < |sorted| && sorted[i] == x;
      assert i == 0 || WorseOrEqual(sorted[0], sorted[i]);
    }
  }

  lemma NoFeasibleIsWorse(s: seq<Scenario>, w: Scenario -> real, g: Scenario -> real, threshold: real, mass: real)
    requires Feasible(s, w, mass) && Feasible(s, g, mass)
    requires forall x | x in s ::
      (x.pnl < threshold ==> g(x) == x.probability) && (x.pnl > threshold ==> g(x) == 0.0)
    ensures Sum(s, Profit(w)) >= Sum(s, Profit(g))
  {
    hide Sum, Profit;
    ThresholdIsOptimal(s, w, g, threshold);
    TimesNothing(threshold, Sum(s, w) - Sum(s, g));
  }

  /** Mass stays unfilled beyond the cut-off only when the scenarios run out. */
  lemma {:induction false} LeftoverIsSmall(sorted: seq<Scenario>, remaining: real)
    requires WellFormed(sorted)
    ensures var left := Greedy(sorted, remaining).leftover;
      left <= CUTOFF || left == remaining - Sum(sorted, Probability())
  {
    if sorted != [] {
      var consumed := MinReal(remaining, sorted[0].probability);
      if remaining - consumed > CUTOFF {
        LeftoverIsSmall(sorted[1..], remaining - consumed);
      }
    }
  }

  function PrefixMass(sorted: seq<Scenario>, k: nat): real
    requires k <= |sorted|
  {
    Sum(sorted[..k], Probability())
  }

  lemma PrefixMassStep(sorted: seq<Scenario>, k: nat)
    requires k < |sorted|
    ensures PrefixMass(sorted, k + 1) == sorted[0].probability + PrefixMass(sorted[1..], k)
  {
    assert sorted[..k + 1][0] == sorted[0] && sorted[..k + 1][1..] == sorted[1..][..k];
  }

  /** The worst `k` scenarios together fall short of the mass by no more than the cut-off. */
  predicate FallsJustShort(sorted: seq<Scenario>, mass: real, k: nat)
    requires k <= |sorted|
  {
    0.0 < mass - PrefixMass(sorted, k) <= CUTOFF
  }

  ghost predicate StopsShort(sorted: seq<Scenario>, mass: real) {
    exists k: nat | 1 <= k <= |sorted| :: FallsJustShort(sorted, mass, k)
  }

  /** With enough probability to fill it, the tail is filled exactly unless a run of worst scenarios ends
      within the cut-off below it. */
  lemma {:induction false} FilledExactlyUnlessStoppedShort(sorted: seq<Scenario>, mass: real)
    requires WellFormed(sorted) && 0.0 < mass <= Sum(sorted, Probability())
    ensures Greedy(sorted, mass).leftover == 0.0 <==> !StopsShort(sorted, mass)
  {
    hide Gain;
    var p, rest := sorted[0].probability, sorted[1..];
    var left := mass - p;
    forall k: nat, n: nat | k < |sorted| && n == k + 1
      ensures FallsJustShort(sorted, mass, n) == FallsJustShort(rest, left, k)
    {
      PrefixMassStep(sorted, k);
    }
    assert PrefixMass(rest, 0) == 0.0;
    if mass <= p {
      forall k: nat | k < |sorted| ensures !FallsJustShort(rest, left, k) {
        SumIsPositive(rest[..k]);
      }
    } else if left <= CUTOFF {
      assert FallsJustShort(rest, left, 0);
      assert FallsJustShort(sorted, mass, 0 + 1);
    } else {
      FilledExactlyUnlessStoppedShort(rest, left);
      assert !FallsJustShort(rest, left, 0);
    }
    hide FallsJustShort, PrefixMass, Sum;
    if StopsShort(rest, left) {
      var k: nat :| 1 <= k <= |rest| && FallsJustShort(rest, left, k);
      assert FallsJustShort(sorted, mass, k + 1);
    }
    if StopsShort(sorted, mass) {
      var k: nat :| 1 <= k <= |sorted| && FallsJustShort(sorted, mass, k);
      assert FallsJustShort(sorted, mass, k - 1 + 1);
      assert FallsJustShort(rest, left, k - 1);
    }
  }

  lemma {:induction false} SumIsPositive(s: seq<Scenario>)
    requires WellFormed(s)
    ensures Sum(s, Probability()) >= 0.0
  {
    if s != [] { SumIsPositive(s[1..]); }
  }

  // ----- CVaR -----

  /** A tail total as an average loss, floored at zero. */
  function AverageLoss(total: real, mass: real): real
    requires mass > 0.0
  {
    MaxReal(0.0, -total / mass)
  }

  function CvarOf(s: seq<Scenario>, confidence: real): real
    requires confidence < 1.0
  {
    AverageLoss(TailOf(s, 1.0 - confidence).total, 1.0 - confidence)
  }

  method WeightedTailLossCvar(s: seq<Scenario>, confidence: real) returns (cvar: real)
    requires confidence < 1.0
    ensures cvar == CvarOf(s, confidence)
  {
    hide Gain, SortBy, AverageLoss;
    var tailMass := 1.0 - confidence;
    var remaining, tailPnl := tailMass, 0.0;
    var sorted := SortBy(WorseOrEqual, s);
    assert sorted[0..] == sorted;
    var i := 0;
    while i < |sorted|
      invariant 0 <= i <= |sorted|
      invariant tailPnl + Greedy(sorted[i..], remaining).total == Greedy(sorted, tailMass).total
    {
      var consumed := MinReal(remaining, sorted[i].probability);
      assert sorted[i..][0] == sorted[i] && sorted[i..][1..] == sorted[i + 1..];
      tailPnl := tailPnl + Gain(consumed, sorted[i]);
      remaining := remaining - consumed;
      if remaining <= CUTOFF {
        return AverageLoss(tailPnl, tailMass);
      }
      i := i + 1;
    }
    return AverageLoss(tailPnl, tailMass);
  }

  function Expected(s: seq<Scenario>): real { Sum(s, Profit(Probability())) }

  function LeastPnl(s: seq<Scenario>): (m: real)
    requires s != []
    ensures exists x :: x in s && x.pnl == m
    ensures forall x | x in s :: m <= x.pnl
  {
    if |s| == 1 then s[0].pnl
    else
      var rest := LeastPnl(s[1..]);
      if s[0].pnl <= rest then s[0].pnl else rest
  }

  function ScenarioMaxLoss(s: seq<Scenario>): real
    requires s != []
  {
    MaxReal(0.0, -LeastPnl(s))
  }

  lemma GainIsAtLeast(x: Scenario, w: real, least: real)
    requires 0.0 <= w && least <= x.pnl
    ensures Gain(w, x) >= least * w
  {
  }

  lemma {:induction false} NoAllocationBeatsTheMaximum(s: seq<Scenario>, w: Scenario -> real, least: real)
    requires forall x | x in s :: 0.0 <= w(x) && least <= x.pnl
    ensures Sum(s, Profit(w)) >= least * Sum(s, w)
  {
    hide Gain;
    if s != [] {
      NoAllocationBeatsTheMaximum(s[1..], w, least);
      GainIsAtLeast(s[0], w(s[0]), least);
      Distributes(least, w(s[0]), Sum(s[1..], w));
    }
  }

  /** The tail average never exceeds the scenario maximum. */
  lemma CvarIsAtMostTheMaximum(s: seq<Scenario>, confidence: real)
    requires s != [] && WellFormed(s) && UniqueNames(s) && 0.0 < confidence < 1.0
    ensures 0.0 <= CvarOf(s, confidence) <= ScenarioMaxLoss(s)
  {
    hide TailOf, LeastPnl, AverageLoss, WellFormed, UniqueNames;
    var mass := 1.0 - confidence;
    TotalIsAtLeast(s, mass);
    BoundedAverage(TailOf(s, mass).total, mass - TailOf(s, mass).leftover, mass, LeastPnl(s));
  }

  lemma TotalIsAtLeast(s: seq<Scenario>, mass: real)
    requires s != [] && WellFormed(s) && UniqueNames(s) && mass >= 0.0
    ensures var tail := TailOf(s, mass);
      0.0 <= tail.leftover <= mass && tail.total >= LeastPnl(s) * (mass - tail.leftover)
  {
    hide TailOf, LeastPnl, Sum, Profit, UniqueNames;
    GreedyIsWorst(s, mass);
    var tail := TailOf(s, mass);
    var w :| Feasible(s, w, mass - tail.leftover) && Sum(s, Profit(w)) == tail.total;
    NoAllocationBeatsTheMaximum(s, w, LeastPnl(s));
  }

  lemma BoundedAverage(total: real, filled: real, mass: real, least: real)
    requires 0.0 <= filled <= mass && mass > 0.0 && total >= least * filled
    ensures 0.0 <= AverageLoss(total, mass) <= MaxReal(0.0, -least)
  {
    var m := MaxReal(0.0, -least);
    ScaledOrder(-least, m, filled);
    ScaledOrder(filled, mass, m);
    QuotientAtMost(-total, mass, m);
  }

  lemma QuotientAtMost(a: real, b: real, m: real)
    requires b > 0.0 && a <= m * b
    ensures a / b <= m
  {
    var q := a / b;
    assert q * b == a;
    assert (q - m) * b <= 0.0;
  }

  /** A tail average covers the expected loss per unit of probability, on the part of the tail that is
      filled: all of it but the cut-off, unless the scenarios run out. */
  ghost predicate SpreadsLoss(expected: real, cvar: real, left: real, mass: real, whole: real) {
    && 0.0 <= left <= mass && (left <= CUTOFF || left == mass - whole)
    && cvar * mass * whole >= MaxReal(0.0, -expected) * (mass - left)
    && (left == 0.0 ==> cvar * whole >= MaxReal(0.0, -expected))
    && (left == 0.0 && whole == 1.0 ==> cvar >= MaxReal(0.0, -expected))
  }

  /** The expected loss, spread over the filled part of the tail, never exceeds the tail average. The
      probabilities need not add up to one exactly: the expectation is taken per unit of probability. */
  lemma CvarIsAtLeastTheExpectedLoss(s: seq<Scenario>, confidence: real)
    requires s != [] && WellFormed(s) && UniqueNames(s) && 0.0 < confidence < 1.0
    ensures Sum(s, Probability()) > 0.0
    ensures var mass, whole := 1.0 - confidence, Sum(s, Probability());
      SpreadsLoss(Expected(s), CvarOf(s, confidence), TailOf(s, mass).leftover, mass, whole)
  {
    WholeIsPositive(s);
    hide TailOf, Expected, AverageLoss, WellFormed, UniqueNames, Sum, SpreadsLoss, TakesItsPart;
    var mass := 1.0 - confidence;
    LeftoverOfTail(s, mass);
    TotalIsAtMost(s, mass);
    SpreadLoss(Expected(s), TailOf(s, mass).total, TailOf(s, mass).leftover, mass, Sum(s, Probability()));
  }

  lemma WholeIsPositive(s: seq<Scenario>)
    requires s != [] && WellFormed(s)
    ensures Sum(s, Probability()) > 0.0
  {
    SumIsPositive(s[1..]);
  }

  lemma LeftoverOfTail(s: seq<Scenario>, mass: real)
    requires WellFormed(s) && UniqueNames(s)
    ensures TailOf(s, mass).leftover <= CUTOFF || TailOf(s, mass).leftover == mass - Sum(s, Probability())
  {
    hide SortBy, Sum, UniqueNames;
    WorstFirst(s);
    SumOfSorted(WorseOrEqual, s, Probability());
    LeftoverIsSmall(SortBy(WorseOrEqual, s), mass);
  }

  lemma {:induction false} SumsOrder(s: seq<Scenario>, f: Scenario -> real, g: Scenario -> real)
    requires forall x | x in s :: f(x) <= g(x)
    ensures Sum(s, f) <= Sum(s, g)
  {
    if s != [] { SumsOrder(s[1..], f, g); }
  }

  /** A total is at most the part `filled` of the expectation over the whole. */
  ghost predicate TakesItsPart(total: real, expected: real, filled: real, whole: real) {
    total * whole <= filled * expected
  }

  lemma TotalIsWorst(s: seq<Scenario>, mass: real, w: Scenario -> real)
    requires WellFormed(s) && UniqueNames(s) && mass >= 0.0
    requires Feasible(s, w, mass - TailOf(s, mass).leftover)
    ensures Sum(s, Profit(w)) >= TailOf(s, mass).total
  {
    hide TailOf, Sum, Profit, UniqueNames, WellFormed, Feasible;
    GreedyIsWorst(s, mass);
  }

  lemma FilledIsAtMostTheWhole(s: seq<Scenario>, mass: real)
    requires WellFormed(s) && UniqueNames(s) && mass >= 0.0
    ensures 0.0 <= TailOf(s, mass).leftover <= mass
    ensures mass - TailOf(s, mass).leftover <= Sum(s, Probability())
  {
    hide TailOf, Sum, Profit, UniqueNames, WellFormed;
    GreedyIsWorst(s, mass);
    var g :| Feasible(s, g, mass - TailOf(s, mass).leftover);
    SumsOrder(s, g, Probability());
  }

  lemma TotalIsAtMost(s: seq<Scenario>, mass: real)
    requires WellFormed(s) && UniqueNames(s) && mass >= 0.0 && Sum(s, Probability()) > 0.0
    ensures var tail := TailOf(s, mass);
      && 0.0 <= tail.leftover <= mass
      && TakesItsPart(tail.total, Expected(s), mass - tail.leftover, Sum(s, Probability()))
  {
    hide TailOf, Sum, Profit, Expected, UniqueNames, WellFormed, TakesItsPart, Feasible;
    FilledIsAtMostTheWhole(s, mass);
    var tail, whole := TailOf(s, mass), Sum(s, Probability());
    var filled := mass - tail.leftover;
    var share := Portion(filled, whole);
    var w := (x: Scenario) => share * x.probability;
    ProportionalIsFeasible(s, w, share, filled);
    TotalIsWorst(s, mass, w);
    SharedTotal(tail.total, share, whole, Expected(s), filled);
  }

  lemma Portion(part: real, whole: real) returns (share: real)
    requires 0.0 <= part <= whole && whole > 0.0
    ensures 0.0 <= share <= 1.0 && share * whole == part
  {
    share := part / whole;
    QuotientBelow(part, whole, 0.0);
    assert share * whole == part;
    if share > 1.0 { ScaledStrictly(1.0, share, whole); }
  }

  lemma SharedTotal(total: real, share: real, whole: real, expected: real, filled: real)
    requires total <= share * expected && whole > 0.0 && share * whole == filled
    ensures TakesItsPart(total, expected, filled, whole)
  {
    ScaledOrder(total, share * expected, whole);
    Associates(share, expected, whole);
    Associates(share, whole, expected);
  }

  lemma ProfitScales(w: Scenario -> real, c: real, x: Scenario)
    requires w(x) == c * x.probability
    ensures Profit(w)(x) == c * Profit(Probability())(x)
  {
    Associates(c, x.probability, x.pnl);
    assert Profit(w)(x) == w(x) * x.pnl;
    assert Profit(Probability())(x) == x.probability * x.pnl;
  }

  lemma Associates(a: real, b: real, c: real)
    ensures (a * b) * c == a * (b * c)
  {
  }

  lemma PartOf(share: real, p: real)
    requires 0.0 <= share <= 1.0 && p >= 0.0
    ensures 0.0 <= share * p <= p
  {
    assert (1.0 - share) * p == p - share * p;
  }

  lemma ProportionalIsFeasible(s: seq<Scenario>, w: Scenario -> real, share: real, mass: real)
    requires WellFormed(s) && 0.0 <= share <= 1.0 && share * Sum(s, Probability()) == mass
    requires forall x :: w(x) == share * x.probability
    ensures Feasible(s, w, mass)
    ensures Sum(s, Profit(w)) == share * Expected(s)
  {
    hide Gain, Sum;
    SumScales(s, Probability(), w, share);
    forall x | x in s ensures Profit(w)(x) == share * Profit(Probability())(x) {
      ProfitScales(w, share, x);
    }
    SumScales(s, Profit(Probability()), Profit(w), share);
    forall x | x in s ensures 0.0 <= w(x) <= x.probability {
      PartOf(share, x.probability);
      assert w(x) == share * x.probability;
    }
    assert Sum(s, w) == share * Sum(s, Probability());
  }

  lemma SpreadLoss(expected: real, total: real, left: real, mass: real, whole: real)
    requires 0.0 <= left <= mass && mass > 0.0 && whole > 0.0 && (left <= CUTOFF || left == mass - whole)
    requires TakesItsPart(total, expected, mass - left, whole)
    ensures SpreadsLoss(expected, AverageLoss(total, mass), left, mass, whole)
  {
    var filled, q := mass - left, -total / mass;
    assert q * mass == -total;
    var c, e := MaxReal(0.0, q), MaxReal(0.0, -expected);
    FilledLoss(expected, total, filled, mass, whole, c);
    if left == 0.0 {
      Associates(c, mass, whole);
      Associates(c, whole, mass);
      ScaledStrictly(c * whole, e, mass);
    }
  }

  lemma FilledLoss(expected: real, total: real, filled: real, mass: real, whole: real, c: real)
    requires 0.0 <= filled && mass > 0.0 && whole > 0.0 && total * whole <= filled * expected
    requires c >= 0.0 && -total <= c * mass
    ensures c * mass * whole >= MaxReal(0.0, -expected) * filled
  {
    ScaledOrder(-total, c * mass, whole);
    ScaledOrder(0.0, c * mass, whole);
    assert -total * whole == -(total * whole);
    assert -expected * filled == -(filled * expected);
  }

  lemma TwoScenarios(a: Scenario, b: Scenario, f: Scenario -> real)
    ensures Sum([a, b], f) == f(a) + f(b)
  {
    assert [a, b][1..] == [b] && [b][1..] == [];
    assert Sum([b], f) == f(b) + Sum([], f);
  }

  /** The cut-off can understate: two even scenarios that both lose one point have an expected loss of
      one, and a computed tail average below one, because the first falls short of the tail by less than the
      cut-off. */
  lemma CutoffCanUnderstate()
    ensures var tiny := CUTOFF / 2.0;
      var s := [Scenario("a", 0.5 - tiny, -1.0), Scenario("b", 0.5 + tiny, -1.0)];
      && WellFormed(s) && UniqueNames(s) && Sum(s, Probability()) == 1.0
      && StopsShort(SortBy(WorseOrEqual, s), 0.5) && !FillsItsShare(s, 0.5)
      && CvarOf(s, 0.5) < -Expected(s)
  {
    var tiny := CUTOFF / 2.0;
    var a, b := Scenario("a", 0.5 - tiny, -1.0), Scenario("b", 0.5 + tiny, -1.0);
    var s := [a, b];
    assert SortedBy(WorseOrEqual, s);
    SortOfSorted(WorseOrEqual, s);
    hide SortBy;
    TwoScenarios(a, b, Probability());
    TwoScenarios(a, b, Profit(Probability()));
    assert s[..1] == [a] && [a][1..] == [];
    assert Sum([a], Probability()) == 0.5 - tiny;
    assert FallsJustShort(s, 0.5, 1);
    assert Greedy(s, 0.5).total == -(0.5 - tiny);
  }

  // ----- when the tail average covers the expected loss -----

  /** What the loop takes from scenarios in this order is at least the tail's share of all their probability. */
  predicate FillsItsShare(sorted: seq<Scenario>, mass: real) {
    IsShare(Greedy(sorted, mass).leftover, mass, Sum(sorted, Probability()))
  }

  predicate IsShare(left: real, mass: real, whole: real) { mass - left >= mass * whole }

  /** The same scenarios with other profits. */
  ghost predicate Reprices(s: seq<Scenario>, t: seq<Scenario>) {
    |t| == |s| && forall i | 0 <= i < |s| :: t[i].name == s[i].name && t[i].probability == s[i].probability
  }

  /** The computed tail average is at least the expected loss. */
  predicate CoversExpectedLoss(s: seq<Scenario>, confidence: real)
    requires confidence < 1.0
  {
    CvarOf(s, confidence) >= MaxReal(0.0, -Expected(s))
  }

  /** How much the loop leaves unfilled does not depend on the profits. */
  lemma {:induction false} RepricedFillsAlike(s: seq<Scenario>, t: seq<Scenario>, mass: real)
    requires Reprices(s, t)
    ensures Greedy(t, mass).leftover == Greedy(s, mass).leftover
    ensures Sum(t, Probability()) == Sum(s, Probability())
  {
    hide Gain;
    if s != [] {
      assert Reprices(s[1..], t[1..]);
      RepricedFillsAlike(s[1..], t[1..], mass - MinReal(mass, s[0].probability));
    }
  }

  lemma RepricedIsWellFormed(s: seq<Scenario>, t: seq<Scenario>)
    requires Reprices(s, t) && WellFormed(s) && UniqueNames(s)
    ensures WellFormed(t) && UniqueNames(t)
  {
    forall x | x in t ensures 0.0 < x.probability <= 1.0 {
      var i :| 0 <= i < |t| && t[i] == x;
      assert s[i] in s;
    }
  }

  /** A tail that fills its share averages at least the expected loss. */
  lemma FilledShareCovers(t: seq<Scenario>, confidence: real)
    requires t != [] && WellFormed(t) && UniqueNames(t) && 0.0 < confidence < 1.0
    requires FillsItsShare(SortBy(WorseOrEqual, t), 1.0 - confidence)
    ensures CoversExpectedLoss(t, confidence)
  {
    hide SortBy, Greedy, Sum, CvarOf, Expected, WellFormed, UniqueNames, SpreadsLoss, IsShare;
    var mass := 1.0 - confidence;
    SumOfSorted(WorseOrEqual, t, Probability());
    CvarIsAtLeastTheExpectedLoss(t, confidence);
    Unspread(Expected(t), CvarOf(t, confidence), TailOf(t, mass).leftover, mass, Sum(t, Probability()));
  }

  lemma Unspread(expected: real, cvar: real, left: real, mass: real, whole: real)
    requires mass > 0.0 && whole > 0.0
    requires SpreadsLoss(expected, cvar, left, mass, whole) && IsShare(left, mass, whole)
    ensures cvar >= MaxReal(0.0, -expected)
  {
    var part, loss := mass * whole, MaxReal(0.0, -expected);
    ScaledStrictly(0.0, mass, whole);
    ScaledOrder(part, mass - left, loss);
    Associates(cvar, mass, whole);
    ScaledStrictly(cvar, loss, part);
  }

  /** Every scenario loses one point. */
  function AllLosing(s: seq<Scenario>): (t: seq<Scenario>)
    ensures Reprices(s, t)
    ensures forall i | 0 <= i < |t| :: t[i].pnl == -1.0
  {
    seq(|s|, i requires 0 <= i < |s| => Scenario(s[i].name, s[i].probability, -1.0))
  }

  lemma {:induction false} LosingTail(t: seq<Scenario>, mass: real)
    requires forall i | 0 <= i < |t| :: t[i].pnl == -1.0
    ensures Greedy(t, mass).total == Greedy(t, mass).leftover - mass
    ensures Expected(t) == -Sum(t, Probability())
  {
    if t != [] { LosingTail(t[1..], mass - MinReal(mass, t[0].probability)); }
  }

  lemma FlatIsSorted(t: seq<Scenario>)
    requires forall i | 0 <= i < |t| :: t[i].pnl == -1.0
    ensures SortedBy(WorseOrEqual, t)
  {
  }

  /** When every scenario loses one point, the tail average covers the expected loss only on a filled share. */
  lemma LosingNeedsItsShare(t: seq<Scenario>, confidence: real)
    requires t != [] && WellFormed(t) && 0.0 < confidence < 1.0
    requires forall i | 0 <= i < |t| :: t[i].pnl == -1.0
    requires CoversExpectedLoss(t, confidence)
    ensures FillsItsShare(t, 1.0 - confidence)
  {
    FlatIsSorted(t);
    hide SortBy, Greedy, Sum, Expected, WellFormed, SortedBy, IsShare, AverageLoss;
    SortOfSorted(WorseOrEqual, t);
    LosingTail(t, 1.0 - confidence);
    assert Sum(t, Probability()) > 0.0 by { WholeIsPositive(t); }
    AveragedShare(Greedy(t, 1.0 - confidence).leftover, 1.0 - confidence, Sum(t, Probability()));
  }

  lemma AveragedShare(left: real, mass: real, whole: real)
    requires mass > 0.0 && AverageLoss(left - mass, mass) >= MaxReal(0.0, whole) && whole > 0.0
    ensures IsShare(left, mass, whole)
  {
    QuotientBelow(-(left - mass), mass, whole);
  }

  /** The exact condition: listed from the worst, scenarios of these probabilities have a tail average of
      at least their expected loss, whatever they pay, if and only if the loop fills its share. */
  lemma CoversExactlyWhenShareFilled(s: seq<Scenario>, confidence: real)
    requires s != [] && WellFormed(s) && UniqueNames(s) && 0.0 < confidence < 1.0
    ensures FillsItsShare(s, 1.0 - confidence) <==>
      forall t | Reprices(s, t) && SortedBy(WorseOrEqual, t) :: CoversExpectedLoss(t, confidence)
  {
    var mass := 1.0 - confidence;
    hide WellFormed, UniqueNames, FillsItsShare, CoversExpectedLoss, Reprices, SortedBy;
    if FillsItsShare(s, mass) {
      forall t | Reprices(s, t) && SortedBy(WorseOrEqual, t) ensures CoversExpectedLoss(t, confidence) {
        RepricedIsWellFormed(s, t);
        SortOfSorted(WorseOrEqual, t);
        RepricedShare(s, t, mass);
        FilledShareCovers(t, confidence);
      }
    } else {
      var t := AllLosing(s);
      RepricedIsWellFormed(s, t);
      FlatIsSorted(t);
      RepricedShare(s, t, mass);
      if CoversExpectedLoss(t, confidence) {
        LosingNeedsItsShare(t, confidence);
        assert false;
      }
    }
  }

  lemma RepricedShare(s: seq<Scenario>, t: seq<Scenario>, mass: real)
    requires Reprices(s, t)
    ensures FillsItsShare(t, mass) == FillsItsShare(s, mass)
    ensures s != [] ==> t != []
  {
    RepricedFillsAlike(s, t, mass);
  }

  /** The condition by the total probability: with a total of one the loop must not stop short; above one
      the share is never filled; below one it is, unless a run of worst scenarios ends too close below. */
  lemma ShareByTotal(sorted: seq<Scenario>, mass: real)
    requires WellFormed(sorted) && sorted != [] && 0.0 < mass < 1.0
    ensures var whole, left := Sum(sorted, Probability()), Greedy(sorted, mass).leftover;
      && (whole == 1.0 ==> (FillsItsShare(sorted, mass) <==> !StopsShort(sorted, mass)))
      && (whole > 1.0 ==> !FillsItsShare(sorted, mass))
      && (whole < 1.0 && (left == 0.0 || left > CUTOFF) ==> FillsItsShare(sorted, mass))
  {
    WholeIsPositive(sorted);
    hide Sum, Greedy, StopsShort, WellFormed, IsShare;
    LeftoverIsSmall(sorted, mass);
    LeftoverIsInside(sorted, mass);
    if Sum(sorted, Probability()) == 1.0 { FilledExactlyUnlessStoppedShort(sorted, mass); }
    ShareOfTotal(Greedy(sorted, mass).leftover, mass, Sum(sorted, Probability()));
  }

  lemma ShareOfTotal(left: real, mass: real, whole: real)
    requires 0.0 < mass < 1.0 && whole > 0.0 && left >= 0.0
    ensures whole == 1.0 ==> (IsShare(left, mass, whole) <==> left == 0.0)
    ensures whole > 1.0 ==> !IsShare(left, mass, whole)
    ensures whole < 1.0 && (left == 0.0 || left == mass - whole) ==> IsShare(left, mass, whole)
  {
    if whole > 1.0 {
      Grows(mass, whole);
    } else if whole < 1.0 {
      PartOf(whole, mass);
      PartOf(mass, whole);
    }
  }

  lemma Grows(mass: real, whole: real)
    requires mass > 0.0 && whole > 1.0
    ensures mass * whole > mass
  {
    ScaledStrictly(1.0, whole, mass);
  }

  lemma {:induction false} LeftoverIsInside(sorted: seq<Scenario>, remaining: real)
    requires remaining >= 0.0
    ensures 0.0 <= Greedy(sorted, remaining).leftover
  {
    hide Gain;
    if sorted != [] {
      var consumed := MinReal(remaining, sorted[0].probability);
      if remaining - consumed > CUTOFF { LeftoverIsInside(sorted[1..], remaining - consumed); }
    }
  }

  /** A total above one understates as well, with the tail filled to the last: two even scenarios of
      0.50000000025 that both lose one point pass the check of the total, and their computed tail average
      stays below the expected loss. */
  lemma TotalAboveOneUnderstates()
    ensures var s := [Scenario("a", 0.50000000025, -1.0), Scenario("b", 0.50000000025, -1.0)];
      && WellFormed(s) && UniqueNames(s) && SumsToOne(s)
      && TailOf(s, 0.5).leftover == 0.0 && !FillsItsShare(s, 0.5)
      && CvarOf(s, 0.5) < -Expected(s)
  {
    var a, b := Scenario("a", 0.50000000025, -1.0), Scenario("b", 0.50000000025, -1.0);
    var s := [a, b];
    assert SortedBy(WorseOrEqual, s);
    SortOfSorted(WorseOrEqual, s);
    hide SortBy;
    TwoScenarios(a, b, Probability());
    TwoScenarios(a, b, Profit(Probability()));
    assert Greedy(s, 0.5) == Tail(-0.5, 0.0);
  }

  // ----- the entry gate -----

  datatype Contract = Contract(maxLoss: Option<real>, riskBudget: real, cvarBudget: real, cvarConfidence: real)

  ghost predicate ContractOk(c: Contract) {
    && c.riskBudget >= 0.0 && c.cvarBudget >= 0.0 && 0.0 < c.cvarConfidence < 1.0
    && (c.maxLoss.Some? ==> c.maxLoss.value >= 0.0)
  }

  datatype NoTrade = ChainUnusable | RiskBudgetExceeded

  datatype Eligibility = Eligibility(scenarioMaxLoss: real, expectedPnl: real, cvar: real, reason: Option<NoTrade>) {
    predicate Eligible() { reason.None? }
  }

  datatype RiskError = NoScenarios | DuplicateNames | ProbabilitiesOff | LossExceedsBound

  predicate SumsToOne(s: seq<Scenario>) {
    -TOLERANCE <= Sum(s, Probability()) - 1.0 <= TOLERANCE
  }

  /** The scenario maximum loss is the largest loss of any scenario, and zero when none loses. */
  lemma MaximumLossIsLargest(s: seq<Scenario>)
    requires s != []
    ensures ScenarioMaxLoss(s) >= 0.0 && forall x | x in s :: -x.pnl <= ScenarioMaxLoss(s)
    ensures ScenarioMaxLoss(s) == 0.0 || exists x :: x in s && -x.pnl == ScenarioMaxLoss(s)
  {
    var least := LeastPnl(s);
    var x :| x in s && x.pnl == least;
    assert ScenarioMaxLoss(s) == 0.0 || -x.pnl == ScenarioMaxLoss(s);
    hide LeastPnl;
  }

  /** The expected profit adds up probability times profit, scenario by scenario. */
  lemma ExpectedAddsUp(s: seq<Scenario>)
    ensures s == [] ==> Expected(s) == 0.0
    ensures s != [] ==> Expected(s) == s[0].probability * s[0].pnl + Expected(s[1..])
  {
  }

  /** The numbers that the gate compares with: the average loss of the whole tail mass, a total of one and a declared
      maximum, both within a billionth. */
  lemma GateMeasures(s: seq<Scenario>, c: Contract, total: real)
    requires s != [] && ContractOk(c)
    ensures var cvar, mass := CvarOf(s, c.cvarConfidence), 1.0 - c.cvarConfidence;
      var loss := -TailOf(s, mass).total;
      cvar * mass == if loss > 0.0 then loss else 0.0
    ensures total == Sum(s, Probability()) ==> (SumsToOne(s) <==> 0.999999999 <= total <= 1.000000001)
    ensures c.maxLoss.Some? ==>
      (ScenarioMaxLoss(s) <= c.maxLoss.value + TOLERANCE <==> forall x | x in s :: -x.pnl <= c.maxLoss.value + 0.000000001)
  {
    MaximumLossIsLargest(s);
    AverageMakesUpTheTotal(-TailOf(s, 1.0 - c.cvarConfidence).total, 1.0 - c.cvarConfidence);
    hide TailOf, Sum, LeastPnl, ScenarioMaxLoss;
  }

  lemma AverageMakesUpTheTotal(loss: real, mass: real)
    requires mass > 0.0
    ensures MaxReal(0.0, loss / mass) * mass == MaxReal(0.0, loss)
  {
    var q := loss / mass;
    assert q * mass == loss;
    if q > 0.0 { ScaledStrictly(0.0, q, mass); } else { ScaledOrder(q, 0.0, mass); }
  }

  method NamesUnique(s: seq<Scenario>) returns (unique: bool)
    ensures unique <==> UniqueNames(s)
  {
    var names := seq(|s|, i requires 0 <= i < |s| => s[i].name);
    unique := CheckDistinct(names);
    assert forall i | 0 <= i < |s| :: names[i] == s[i].name;
  }

  /** The first check that a refused scenario set fails. */
  ghost function Refusal(s: seq<Scenario>): RiskError {
    if s == [] then NoScenarios
    else if !UniqueNames(s) then DuplicateNames
    else if !SumsToOne(s) then ProbabilitiesOff
    else LossExceedsBound
  }

  method AssessEntryRisk(executable: bool, s: seq<Scenario>, c: Contract)
      returns (r: Result<Eligibility, RiskError>)
    requires WellFormed(s) && ContractOk(c)
    ensures r.Err? ==> r.error == Refusal(s)
    ensures r.Ok? <==>
      && s != [] && UniqueNames(s) && SumsToOne(s)
      && (c.maxLoss.Some? ==> ScenarioMaxLoss(s) <= c.maxLoss.value + TOLERANCE)
    ensures r.Ok? ==> r.value.cvar == CvarOf(s, c.cvarConfidence) && r.value.expectedPnl == Expected(s)
    ensures r.Ok? ==> r.value.scenarioMaxLoss == ScenarioMaxLoss(s)
    ensures r.Ok? ==> (r.value.Eligible() <==>
      executable && c.maxLoss.Some? && c.maxLoss.value <= c.riskBudget && r.value.cvar <= c.cvarBudget)
    ensures r.Ok? ==> (r.value.reason == Some(ChainUnusable) <==> !executable)
  {
    hide Sum, LeastPnl, CvarOf;
    if s == [] { return Err(NoScenarios); }
    var unique := NamesUnique(s);
    if !unique { return Err(DuplicateNames); }
    if !SumsToOne(s) { return Err(ProbabilitiesOff); }
    var cvar := WeightedTailLossCvar(s, c.cvarConfidence);
    if c.maxLoss.Some? && ScenarioMaxLoss(s) > c.maxLoss.value + TOLERANCE { return Err(LossExceedsBound); }
    var reason: Option<NoTrade> := None;
    if !executable {
      reason := Some(ChainUnusable);
    } else if c.maxLoss.None? || c.maxLoss.value > c.riskBudget || cvar > c.cvarBudget {
      reason := Some(RiskBudgetExceeded);
    }
    return Ok(Eligibility(ScenarioMaxLoss(s), Expected(s), cvar, reason));
  }

  lemma AverageIsTotal(total: real, mass: real, budget: real)
    requires mass > 0.0 && AverageLoss(total, mass) <= budget
    ensures -total <= budget * mass
  {
    var q := -total / mass;
    assert q * mass == -total;
    ScaledOrder(q, budget, mass);
  }

  lemma ScaledProfit(w: Scenario -> real, v: Scenario -> real, c: real, x: Scenario)
    requires v(x) == c * w(x)
    ensures Profit(v)(x) == c * Profit(w)(x)
  {
    Associates(c, w(x), x.pnl);
    assert Profit(v)(x) == v(x) * x.pnl;
    assert Profit(w)(x) == w(x) * x.pnl;
  }

  /** A share of an allocation allocates that share of its mass, for that share of its profit. */
  lemma ShareOfAllocation(s: seq<Scenario>, w: Scenario -> real, v: Scenario -> real, mass: real, part: real, share: real)
    requires Feasible(s, w, mass) && 0.0 <= share <= 1.0 && share * mass == part
    requires forall x :: v(x) == share * w(x)
    ensures Feasible(s, v, part)
    ensures Sum(s, Profit(v)) == share * Sum(s, Profit(w))
  {
    hide Gain, Sum, Profit;
    SumScales(s, w, v, share);
    forall x | x in s ensures Profit(v)(x) == share * Profit(w)(x) { ScaledProfit(w, v, share, x); }
    SumScales(s, Profit(w), Profit(v), share);
    forall x | x in s ensures 0.0 <= v(x) <= x.probability { PartOfAmount(v(x), share, w(x)); }
  }

  lemma PartOfAmount(part: real, share: real, amount: real)
    requires part == share * amount && 0.0 <= share <= 1.0 && amount >= 0.0
    ensures 0.0 <= part <= amount
  {
    PartOf(share, amount);
  }

  /** Scaled down to what the loop fills, an allocation of the whole tail is no worse than the loop's. */
  lemma ScaledDownIsNoWorse(s: seq<Scenario>, mass: real, w: Scenario -> real) returns (share: real)
    requires s != [] && WellFormed(s) && UniqueNames(s) && mass > 0.0 && Feasible(s, w, mass)
    ensures 0.0 <= TailOf(s, mass).leftover && 0.0 <= share <= 1.0 && share * mass == mass - TailOf(s, mass).leftover
    ensures share * Sum(s, Profit(w)) >= TailOf(s, mass).total
  {
    hide TailOf, Sum, Profit, UniqueNames, WellFormed, Feasible;
    FilledIsAtMostTheWhole(s, mass);
    share := Portion(mass - TailOf(s, mass).leftover, mass);
    var f := share;
    var v := (x: Scenario) => f * w(x);
    ShareOfAllocation(s, w, v, mass, mass - TailOf(s, mass).leftover, share);
    TotalIsWorst(s, mass, v);
  }

  lemma AllocationIsAtLeast(s: seq<Scenario>, mass: real, w: Scenario -> real)
    requires s != [] && Feasible(s, w, mass)
    ensures Sum(s, Profit(w)) >= LeastPnl(s) * mass
  {
    hide Sum, Profit, LeastPnl;
    NoAllocationBeatsTheMaximum(s, w, LeastPnl(s));
  }

  /** An allocation of the whole tail mass loses at most what the loop's tail does, and the unfilled mass
      times the maximum loss. */
  lemma WholeTailIsBounded(s: seq<Scenario>, mass: real, w: Scenario -> real)
    requires s != [] && WellFormed(s) && UniqueNames(s) && mass > 0.0 && Feasible(s, w, mass)
    ensures -Sum(s, Profit(w)) <= -TailOf(s, mass).total + TailOf(s, mass).leftover * ScenarioMaxLoss(s)
  {
    hide TailOf, Sum, Profit, LeastPnl, UniqueNames, WellFormed, Feasible;
    var share := ScaledDownIsNoWorse(s, mass, w);
    AllocationIsAtLeast(s, mass, w);
    RestOfProfit(Sum(s, Profit(w)), share, LeastPnl(s), mass, TailOf(s, mass).leftover, TailOf(s, mass).total);
  }

  lemma RestOfProfit(profit: real, share: real, least: real, mass: real, left: real, total: real)
    requires 0.0 <= share <= 1.0 && share * mass == mass - left && left >= 0.0
    requires share * profit >= total && profit >= least * mass
    ensures -profit <= -total + left * MaxReal(0.0, -least)
  {
    var rest := 1.0 - share;
    ScaledOrder(least * mass, profit, rest);
    assert rest * mass == left;
    Associates(least, mass, rest);
    assert profit == share * profit + profit * rest;
    ScaledOrder(-least, MaxReal(0.0, -least), left);
    assert -least * left == -(least * left);
  }

  /** No allocation of this much mass loses more than the bound. */
  ghost predicate LosesAtMost(s: seq<Scenario>, mass: real, bound: real) {
    forall w | Feasible(s, w, mass) :: -Sum(s, Profit(w)) <= bound
  }

  /** No allocation of what the loop fills averages more than the budget over the tail, and none of the whole
      tail exceeds that by more than the unfilled mass times the maximum loss. */
  ghost predicate KeepsTailBudget(s: seq<Scenario>, mass: real, budget: real)
    requires s != []
  {
    && LosesAtMost(s, mass - TailOf(s, mass).leftover, budget * mass)
    && LosesAtMost(s, mass, budget * mass + TailOf(s, mass).leftover * ScenarioMaxLoss(s))
  }

  lemma AverageKeepsTailBudget(s: seq<Scenario>, mass: real, budget: real)
    requires s != [] && WellFormed(s) && UniqueNames(s) && mass > 0.0
    requires AverageLoss(TailOf(s, mass).total, mass) <= budget
    ensures KeepsTailBudget(s, mass, budget)
  {
    AverageIsTotal(TailOf(s, mass).total, mass, budget);
    hide TailOf, Sum, Profit, LeastPnl, ScenarioMaxLoss, AverageLoss, UniqueNames, WellFormed, Feasible;
    var bound, error := budget * mass, TailOf(s, mass).leftover * ScenarioMaxLoss(s);
    forall w | Feasible(s, w, mass - TailOf(s, mass).leftover) ensures -Sum(s, Profit(w)) <= bound {
      TotalIsWorst(s, mass, w);
    }
    forall w | Feasible(s, w, mass) ensures -Sum(s, Profit(w)) <= bound + error {
      WholeTailIsBounded(s, mass, w);
    }
  }

  /** What eligibility buys: no scenario loses more than the risk budget and the tolerance, and no way of
      filling the tail loses more than the CVaR budget allows. */
  lemma EligibleMeansBounded(s: seq<Scenario>, c: Contract)
    requires s != [] && WellFormed(s) && UniqueNames(s) && ContractOk(c)
    requires c.maxLoss.Some? && c.maxLoss.value <= c.riskBudget
    requires ScenarioMaxLoss(s) <= c.maxLoss.value + TOLERANCE && CvarOf(s, c.cvarConfidence) <= c.cvarBudget
    ensures forall x | x in s :: -x.pnl <= c.riskBudget + TOLERANCE
    ensures KeepsTailBudget(s, 1.0 - c.cvarConfidence, c.cvarBudget)
  {
    hide TailOf, LeastPnl, AverageLoss, UniqueNames, WellFormed, KeepsTailBudget;
    AverageKeepsTailBudget(s, 1.0 - c.cvarConfidence, c.cvarBudget);
  }
}
