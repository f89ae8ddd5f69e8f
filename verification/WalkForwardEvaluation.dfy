/** Walk-forward scoring of a tail model: one fit per purged fold, one score per held-out day. */
module WalkForwardEvaluation {
  import opened Common
  import opened Sorting
  import opened Order
  import opened TailModel
  import opened TailModelIv
  import opened DistanceRecommender
  import W = WalkForward

  const DAY := 86400000000

  /** Dates as text and back. */
  datatype Calendar = Calendar(iso: int -> string, parse: string -> int)

  ghost predicate ReadsBack(c: Calendar) { forall d :: c.parse(c.iso(d)) == d }

  datatype EvaluationError =
    | BadQuantile
    | BadFolds
    | NegativeGap
    | DuplicateLabel
    | DuplicateFeatures
    | NoLabels
    | BadMinimum
    | FoldWithoutTraining

  /** Every day is its own validation group, observed at noon. */
  function SampleOf(c: Calendar, day: int): W.Sample {
    W.Sample(c.iso(day), day * DAY + DAY / 2, c.iso(day))
  }

  function SamplesOf(c: Calendar, days: seq<int>): seq<W.Sample> {
    seq(|days|, i requires 0 <= i < |days| => SampleOf(c, days[i]))
  }

  function DaysOf(c: Calendar, ids: seq<string>): seq<int> {
    seq(|ids|, i requires 0 <= i < |ids| => c.parse(ids[i]))
  }

  // ----- scores -----

  datatype Score = Score(test: nat, abstain: nat, covered: nat, upBreaches: nat, downBreaches: nat,
                         ups: seq<real>, downs: seq<real>)

  const NO_SCORE := Score(0, 0, 0, 0, 0, [], [])

  function Add(a: Score, b: Score): Score {
    Score(a.test + b.test, a.abstain + b.abstain, a.covered + b.covered, a.upBreaches + b.upBreaches,
          a.downBreaches + b.downBreaches, a.ups + b.ups, a.downs + b.downs)
  }

  function ScoreOfDay(r: Option<TailDistances>, l: ExcursionLabel): Score {
    if r.None? then Score(1, 1, 0, 0, 0, [], [])
    else
      var up, down := r.value.up < l.upMax, r.value.down < l.downMax;
      Score(1, 0, if up || down then 0 else 1, if up then 1 else 0, if down then 1 else 0, [r.value.up], [r.value.down])
  }

  /** The score of a run of held-out days. */
  function ScoreOf(rs: seq<Option<TailDistances>>, ls: seq<ExcursionLabel>): Score
    requires |rs| == |ls|
  {
    if rs == [] then NO_SCORE
    else Add(ScoreOf(rs[..|rs| - 1], ls[..|ls| - 1]), ScoreOfDay(rs[|rs| - 1], ls[|ls| - 1]))
  }

  lemma ScoreAppended(rs: seq<Option<TailDistances>>, ls: seq<ExcursionLabel>, r: Option<TailDistances>, l: ExcursionLabel)
    requires |rs| == |ls|
    ensures ScoreOf(rs + [r], ls + [l]) == Add(ScoreOf(rs, ls), ScoreOfDay(r, l))
  {
    hide Add, ScoreOfDay;
    assert (rs + [r])[..|rs|] == rs && (ls + [l])[..|ls|] == ls;
  }

  lemma AddIsAssociative(a: Score, b: Score, c: Score)
    ensures Add(Add(a, b), c) == Add(a, Add(b, c))
    ensures Add(a, NO_SCORE) == a
  {
  }

  /** Scoring in pieces and adding up is scoring in one pass. */
  lemma {:induction false} ScoresAddUp(rs: seq<Option<TailDistances>>, ls: seq<ExcursionLabel>,
                                       more: seq<Option<TailDistances>>, others: seq<ExcursionLabel>)
    requires |rs| == |ls| && |more| == |others|
    ensures ScoreOf(rs + more, ls + others) == Add(ScoreOf(rs, ls), ScoreOf(more, others))
  {
    hide Add, ScoreOfDay;
    if more == [] {
      assert rs + more == rs && ls + others == ls;
      AddIsAssociative(ScoreOf(rs, ls), NO_SCORE, NO_SCORE);
    } else {
      hide ScoreOf;
      var n := |more| - 1;
      ScoresAddUp(rs, ls, more[..n], others[..n]);
      assert more == more[..n] + [more[n]] && others == others[..n] + [others[n]];
      assert rs + more == (rs + more[..n]) + [more[n]] && ls + others == (ls + others[..n]) + [others[n]];
      ScoreAppended(rs + more[..n], ls + others[..n], more[n], others[n]);
      ScoreAppended(more[..n], others[..n], more[n], others[n]);
      AddIsAssociative(ScoreOf(rs, ls), ScoreOf(more[..n], others[..n]), ScoreOfDay(more[n], others[n]));
    }
  }

  /** Abstentions and evaluated days partition the test days, and a day is covered or breached: coverage
      is bounded by the breaches on either side, from both directions. */
  lemma {:induction false} ScoreIsConsistent(rs: seq<Option<TailDistances>>, ls: seq<ExcursionLabel>)
    requires |rs| == |ls|
    ensures var s := ScoreOf(rs, ls);
      && s.test == |rs|
      && s.abstain + |s.ups| == s.test && |s.downs| == |s.ups|
      && s.covered + s.upBreaches <= |s.ups| && s.covered + s.downBreaches <= |s.ups|
      && |s.ups| <= s.covered + s.upBreaches + s.downBreaches
  {
    if rs != [] { ScoreIsConsistent(rs[..|rs| - 1], ls[..|ls| - 1]); }
  }

  /** What may be said of a held-out day: it was abstained on, or its excursions are held against the distances. */
  datatype Finding = AbstainedOn | StayedInside | BrokeUp | BrokeDown

  ghost predicate Found(f: Finding, r: Option<TailDistances>, l: ExcursionLabel) {
    match f
    case AbstainedOn => r == None
    case StayedInside => r != None && l.upMax <= r.value.up && l.downMax <= r.value.down
    case BrokeUp => r != None && l.upMax > r.value.up
    case BrokeDown => r != None && l.downMax > r.value.down
  }

  ghost function DaysFound(f: Finding, rs: seq<Option<TailDistances>>, ls: seq<ExcursionLabel>): nat
    requires |rs| == |ls|
  {
    if rs == [] then 0 else DaysFound(f, rs[1..], ls[1..]) + if Found(f, rs[0], ls[0]) then 1 else 0
  }

  lemma {:induction false} DaysFoundAppended(f: Finding, rs: seq<Option<TailDistances>>, ls: seq<ExcursionLabel>,
                                             r: Option<TailDistances>, l: ExcursionLabel)
    requires |rs| == |ls|
    ensures DaysFound(f, rs + [r], ls + [l]) == DaysFound(f, rs, ls) + if Found(f, r, l) then 1 else 0
  {
    hide Found;
    if rs == [] {
      assert ([] + [r])[1..] == [] && ([] + [l])[1..] == [];
      assert DaysFound(f, [], []) == 0;
    } else {
      DaysFoundAppended(f, rs[1..], ls[1..], r, l);
      assert (rs + [r])[1..] == rs[1..] + [r] && (ls + [l])[1..] == ls[1..] + [l];
    }
  }

  /** Every counter of a score counts the days it is named after. */
  ghost predicate Counts(s: Score, rs: seq<Option<TailDistances>>, ls: seq<ExcursionLabel>)
    requires |rs| == |ls|
  {
    && s.test == |rs|
    && s.abstain == DaysFound(AbstainedOn, rs, ls) && s.covered == DaysFound(StayedInside, rs, ls)
    && s.upBreaches == DaysFound(BrokeUp, rs, ls) && s.downBreaches == DaysFound(BrokeDown, rs, ls)
  }

  lemma {:induction false} ScoreCountsDays(rs: seq<Option<TailDistances>>, ls: seq<ExcursionLabel>)
    requires |rs| == |ls|
    ensures Counts(ScoreOf(rs, ls), rs, ls)
  {
    hide ScoreOf, DaysFound, Found;
    if rs == [] {
      NothingCounted();
    } else {
      var n := |rs| - 1;
      ScoreCountsDays(rs[..n], ls[..n]);
      ScoreUnfolds(rs, ls);
      CountsOneMore(ScoreOf(rs[..n], ls[..n]), rs[..n], ls[..n], rs[n], ls[n]);
      assert rs == rs[..n] + [rs[n]] && ls == ls[..n] + [ls[n]];
    }
  }

  lemma NothingCounted()
    ensures Counts(ScoreOf([], []), [], [])
  {
  }

  lemma CountsOneMore(s: Score, rs: seq<Option<TailDistances>>, ls: seq<ExcursionLabel>, r: Option<TailDistances>,
                      l: ExcursionLabel)
    requires |rs| == |ls| && Counts(s, rs, ls)
    ensures Counts(Add(s, ScoreOfDay(r, l)), rs + [r], ls + [l])
  {
    hide DaysFound;
    DaysFoundAppended(AbstainedOn, rs, ls, r, l);
    DaysFoundAppended(StayedInside, rs, ls, r, l);
    DaysFoundAppended(BrokeUp, rs, ls, r, l);
    DaysFoundAppended(BrokeDown, rs, ls, r, l);
  }

  /** The lists of a score hold the distances of the days that were not abstained on, in order. */
  lemma {:induction false} ScoreListsDistances(rs: seq<Option<TailDistances>>, ls: seq<ExcursionLabel>, i: nat)
    requires |rs| == |ls| && i < |rs| && rs[i] != None
    ensures var s, k := ScoreOf(rs, ls), i - DaysFound(AbstainedOn, rs[..i], ls[..i]);
      && 0 <= k < |s.ups| && s.ups[k] == rs[i].value.up
      && 0 <= k < |s.downs| && s.downs[k] == rs[i].value.down
  {
    hide ScoreOf, DaysFound, Found;
    var n := |rs| - 1;
    ScoreUnfolds(rs, ls);
    if i < n {
      ScoreListsDistances(rs[..n], ls[..n], i);
      assert rs[..n][..i] == rs[..i] && ls[..n][..i] == ls[..i];
    } else {
      ScoreIsConsistent(rs[..n], ls[..n]);
      ScoreCountsDays(rs[..n], ls[..n]);
    }
  }

  lemma ScoreUnfolds(rs: seq<Option<TailDistances>>, ls: seq<ExcursionLabel>)
    requires |rs| == |ls| > 0
    ensures ScoreOf(rs, ls) ==
      Add(ScoreOf(rs[..|rs| - 1], ls[..|ls| - 1]), ScoreOfDay(rs[|rs| - 1], ls[|ls| - 1]))
  {
  }

  /** Coverage over evaluated days only, and the share of days without a trade. */
  function Coverage(s: Score): Option<real>
    requires s.abstain <= s.test
  {
    if s.test == s.abstain then None else Some(s.covered as real / (s.test - s.abstain) as real)
  }

  function NoTradeShare(s: Score): real {
    if s.test == 0 then 0.0 else s.abstain as real / s.test as real
  }

  lemma ShareIsProper(part: nat, whole: nat)
    requires part <= whole && whole > 0
    ensures 0.0 <= part as real / whole as real <= 1.0
  {
    var q := part as real / whole as real;
    assert q * whole as real == part as real;
    if q > 1.0 {
      Exceeds(q, whole as real);
      assert false;
    }
  }

  lemma Exceeds(q: real, w: real)
    requires q > 1.0 && w > 0.0
    ensures q * w > w
  {
  }

  function Sum(xs: seq<real>): real {
    if xs == [] then 0.0 else Sum(xs[..|xs| - 1]) + xs[|xs| - 1]
  }

  function Mean(xs: seq<real>): real
    requires xs != []
  {
    Sum(xs) / |xs| as real
  }

  predicate NotAbove(a: real, b: real) { a <= b }

  /** The middle of the sorted values, or the mean of the two in the middle. */
  function Median(xs: seq<real>): real
    requires xs != []
  {
    var sorted, half := SortBy(NotAbove, xs), |xs| / 2;
    if |xs| % 2 == 1 then sorted[half] else (sorted[half - 1] + sorted[half]) / 2.0
  }

  /** Sums add up, whatever is put first. */
  lemma {:induction false} SumsAdd(xs: seq<real>, ys: seq<real>)
    ensures Sum(xs + ys) == Sum(xs) + Sum(ys)
    ensures |ys| == 1 ==> Sum(ys) == ys[0]
  {
    if ys == [] {
      assert xs + ys == xs;
    } else {
      var n := |ys| - 1;
      assert (xs + ys)[..|xs + ys| - 1] == xs + ys[..n];
      SumsAdd(xs, ys[..n]);
      assert n == 0 ==> ys[..n] == [];
    }
  }

  /** The mean, given to every value, makes up the sum. */
  lemma MeanMakesUpTheSum(xs: seq<real>)
    requires xs != []
    ensures Mean(xs) * |xs| as real == Sum(xs)
  {
    QuotientTimes(Sum(xs), |xs| as real);
    hide Sum;
  }

  lemma QuotientTimes(a: real, b: real)
    requires b > 0.0
    ensures a / b * b == a
  {
  }

  ghost predicate Rises(xs: seq<real>) { forall i, j | 0 <= i < j < |xs| :: xs[i] <= xs[j] }

  /** The median is the middle of the values in order: twice the one in the middle, or both of them, add up to its
      double. */
  lemma MedianIsInTheMiddle(xs: seq<real>, sorted: seq<real>)
    requires xs != [] && Rises(sorted) && multiset(sorted) == multiset(xs) && |sorted| == |xs|
    ensures Median(xs) + Median(xs) == sorted[(|xs| - 1) / 2] + sorted[|xs| / 2]
  {
    hide SortBy, Median, Sum;
    SortRises(xs);
    OrderIsUnique(sorted, SortBy(NotAbove, xs));
    MedianOfOrder(xs, SortBy(NotAbove, xs));
  }

  lemma SortRises(xs: seq<real>)
    ensures Rises(SortBy(NotAbove, xs))
  {
    SortIsSorted(NotAbove, xs);
    hide SortBy;
  }

  lemma MedianOfOrder(xs: seq<real>, sorted: seq<real>)
    requires xs != [] && sorted == SortBy(NotAbove, xs)
    ensures Median(xs) + Median(xs) == sorted[(|xs| - 1) / 2] + sorted[|xs| / 2]
  {
    hide SortBy;
    assert |xs| % 2 == 1 ==> (|xs| - 1) / 2 == |xs| / 2;
    assert |xs| % 2 == 0 ==> (|xs| - 1) / 2 == |xs| / 2 - 1;
  }

  lemma {:induction false} OrderIsUnique(a: seq<real>, b: seq<real>)
    requires Rises(a) && Rises(b) && multiset(a) == multiset(b) && |a| == |b|
    ensures a == b
  {
    hide Rises;
    if a != [] {
      FrontsMatch(a, b);
      OrderIsUnique(a[..|a| - 1], b[..|b| - 1]);
      assert a == a[..|a| - 1] + [a[|a| - 1]] && b == b[..|b| - 1] + [b[|b| - 1]];
    }
  }

  lemma FrontsMatch(a: seq<real>, b: seq<real>)
    requires Rises(a) && Rises(b) && multiset(a) == multiset(b) && |a| == |b| > 0
    ensures var x, y := a[..|a| - 1], b[..|b| - 1]; Rises(x) && Rises(y) && multiset(x) == multiset(y)
    ensures a[|a| - 1] == b[|b| - 1]
  {
    hide Rises;
    LastIsLargest(a, b);
    LastIsLargest(b, a);
    RisesInFront(a);
    RisesInFront(b);
    WithoutLast(a);
    WithoutLast(b);
  }

  lemma RisesInFront(a: seq<real>)
    requires Rises(a) && a != []
    ensures Rises(a[..|a| - 1])
  {
  }

  lemma LastIsLargest(a: seq<real>, b: seq<real>)
    requires Rises(a) && multiset(a) == multiset(b) && |a| == |b| > 0
    ensures b[|b| - 1] <= a[|a| - 1]
  {
    assert b[|b| - 1] in multiset(b);
    assert b[|b| - 1] in a;
    var i :| 0 <= i < |a| && a[i] == b[|b| - 1];
  }

  lemma WithoutLast(a: seq<real>)
    requires a != []
    ensures multiset(a[..|a| - 1]) == multiset(a) - multiset{a[|a| - 1]}
  {
    assert a == a[..|a| - 1] + [a[|a| - 1]];
  }

  /** Coverage is counted over the evaluated days, abstentions over all of them. */
  lemma SharesAreCounts(s: Score)
    requires s.abstain <= s.test
    ensures Coverage(s).Some? <==> s.test - s.abstain > 0
    ensures Coverage(s).Some? ==> Coverage(s).value * (s.test - s.abstain) as real == s.covered as real
    ensures NoTradeShare(s) * s.test as real == s.abstain as real && (s.test == 0 ==> NoTradeShare(s) == 0.0)
  {
  }

  ghost predicate AllPositive(xs: seq<real>) { forall i | 0 <= i < |xs| :: xs[i] > 0.0 }

  lemma {:induction false} SumIsPositive(xs: seq<real>)
    requires AllPositive(xs)
    ensures Sum(xs) >= 0.0 && (xs != [] ==> Sum(xs) > 0.0)
  {
    if xs != [] {
      SumIsPositive(xs[..|xs| - 1]);
    }
  }

  lemma PositiveQuotient(a: real, b: real)
    requires a > 0.0 && b > 0.0
    ensures a / b > 0.0
  {
  }

  lemma StatisticsArePositive(xs: seq<real>)
    requires xs != [] && AllPositive(xs)
    ensures Mean(xs) > 0.0 && Median(xs) > 0.0
  {
    SumIsPositive(xs);
    PositiveQuotient(Sum(xs), |xs| as real);
    SortKeepsElements(NotAbove, xs);
    var sorted := SortBy(NotAbove, xs);
    hide SortBy, Sum;
    forall i | 0 <= i < |xs| ensures sorted[i] > 0.0 {
      assert sorted[i] in sorted && sorted[i] in xs;
      var j :| 0 <= j < |xs| && xs[j] == sorted[i];
    }
  }

  /** What TailDistances checks when it is built. */
  ghost predicate ValidDistances(rs: seq<Option<TailDistances>>) {
    forall i | 0 <= i < |rs| && rs[i].Some? :: rs[i].value.up > 0.0 && rs[i].value.down > 0.0
  }

  lemma {:induction false} DistancesArePositive(rs: seq<Option<TailDistances>>, ls: seq<ExcursionLabel>)
    requires |rs| == |ls| && ValidDistances(rs)
    ensures AllPositive(ScoreOf(rs, ls).ups) && AllPositive(ScoreOf(rs, ls).downs)
  {
    if rs != [] {
      var n := |rs| - 1;
      DistancesArePositive(rs[..n], ls[..n]);
      hide ScoreOf, AllPositive;
      assert rs == rs[..n] + [rs[n]] && ls == ls[..n] + [ls[n]];
      ScoreAppended(rs[..n], ls[..n], rs[n], ls[n]);
      var before, day := ScoreOf(rs[..n], ls[..n]), ScoreOfDay(rs[n], ls[n]);
      DayIsPositive(rs[n], ls[n]);
      PositiveJoin(before.ups, day.ups);
      PositiveJoin(before.downs, day.downs);
    }
  }

  lemma DayIsPositive(r: Option<TailDistances>, l: ExcursionLabel)
    requires r.Some? ==> r.value.up > 0.0 && r.value.down > 0.0
    ensures AllPositive(ScoreOfDay(r, l).ups) && AllPositive(ScoreOfDay(r, l).downs)
  {
  }

  lemma PositiveJoin(a: seq<real>, b: seq<real>)
    requires AllPositive(a) && AllPositive(b)
    ensures AllPositive(a + b)
  {
  }

  /** The metrics a report is built from are always admissible. */
  lemma MetricsAreAdmissible(rs: seq<Option<TailDistances>>, ls: seq<ExcursionLabel>)
    requires |rs| == |ls| && ValidDistances(rs)
    ensures var s := ScoreOf(rs, ls);
      && s.covered <= |s.ups| && s.upBreaches <= |s.ups| && s.downBreaches <= |s.ups|
      && (s.ups != [] ==> Mean(s.ups) > 0.0 && Median(s.ups) > 0.0)
      && (s.downs != [] ==> Mean(s.downs) > 0.0 && Median(s.downs) > 0.0)
      && s.abstain <= s.test
      && 0.0 <= NoTradeShare(s) <= 1.0
      && (Coverage(s).None? <==> forall i | 0 <= i < |rs| :: rs[i].None?)
      && (Coverage(s).Some? ==> 0.0 <= Coverage(s).value <= 1.0)
  {
    ScoreIsConsistent(rs, ls);
    AbstainsAreAbsent(rs, ls);
    AbsentCountsAll(rs);
    DistancesArePositive(rs, ls);
    hide ScoreOf, Absent, Mean, Median, AllPositive;
    var s := ScoreOf(rs, ls);
    if s.ups != [] { StatisticsArePositive(s.ups); }
    if s.downs != [] { StatisticsArePositive(s.downs); }
    if s.test > 0 { ShareIsProper(s.abstain, s.test); }
    if s.test != s.abstain { ShareIsProper(s.covered, s.test - s.abstain); }
  }

  function Absent(rs: seq<Option<TailDistances>>): (n: nat)
    ensures n <= |rs|
  {
    if rs == [] then 0 else Absent(rs[..|rs| - 1]) + if rs[|rs| - 1].None? then 1 else 0
  }

  lemma {:induction false} AbsentCountsAll(rs: seq<Option<TailDistances>>)
    ensures Absent(rs) == |rs| <==> forall i | 0 <= i < |rs| :: rs[i].None?
  {
    if rs != [] {
      var n := |rs| - 1;
      AbsentCountsAll(rs[..n]);
      assert forall i | 0 <= i < n :: rs[..n][i] == rs[i];
      assert Absent(rs) == |rs| <==> Absent(rs[..n]) == n && rs[n].None?;
    }
  }

  lemma {:induction false} AbstainsAreAbsent(rs: seq<Option<TailDistances>>, ls: seq<ExcursionLabel>)
    requires |rs| == |ls|
    ensures ScoreOf(rs, ls).abstain == Absent(rs)
  {
    if rs != [] { AbstainsAreAbsent(rs[..|rs| - 1], ls[..|ls| - 1]); }
  }

  // ----- one fold -----

  datatype Setup = Setup(learner: Learner, calendar: Calendar, quantile: real)

  ghost predicate AllLabelled(labels: seq<ExcursionLabel>, days: seq<int>) {
    forall i | 0 <= i < |days| :: Labelled(labels, days[i])
  }

  /** The recommendations for the test days, from one model fitted on the training days. */
  function FoldRecommendations(labels: seq<ExcursionLabel>, features: seq<EntryFeatures>, c: Setup,
                               train: seq<int>, test: seq<int>): (r: seq<Option<TailDistances>>)
    requires AllLabelled(labels, train)
    ensures |r| == |test|
  {
    seq(|test|, i requires 0 <= i < |test| =>
      c.learner(LabelsAt(labels, train), FeaturesAt(features, train), FeaturesFor(features, test[i]), c.quantile))
  }

  function FoldScore(labels: seq<ExcursionLabel>, features: seq<EntryFeatures>, c: Setup, train: seq<int>, test: seq<int>):
    Score
    requires AllLabelled(labels, train) && AllLabelled(labels, test)
  {
    ScoreOf(FoldRecommendations(labels, features, c, train, test), LabelsAt(labels, test))
  }

  /** A fold recommends from labels of its training days alone: any other label can be edited without
      changing a recommendation. */
  lemma FoldSeesOnlyTraining(labels: seq<ExcursionLabel>, other: seq<ExcursionLabel>, features: seq<EntryFeatures>,
                             c: Setup, train: seq<int>, test: seq<int>)
    requires AllLabelled(labels, train)
    requires forall i | 0 <= i < |train| :: LabelOn(labels, train[i]) == LabelOn(other, train[i])
    ensures AllLabelled(other, train)
    ensures FoldRecommendations(labels, features, c, train, test) == FoldRecommendations(other, features, c, train, test)
  {
    hide LabelOn;
    forall i | 0 <= i < |train| ensures Labelled(other, train[i]) {
      assert Labelled(labels, train[i]);
    }
    assert LabelsAt(labels, train) == LabelsAt(other, train);
  }

  lemma NothingScored(rs: seq<Option<TailDistances>>, ls: seq<ExcursionLabel>)
    requires rs == [] && ls == []
    ensures ScoreOf(rs, ls) == NO_SCORE
  {
  }

  method ScoreFold(labels: seq<ExcursionLabel>, features: seq<EntryFeatures>, c: Setup, train: seq<int>, test: seq<int>)
      returns (s: Score)
    requires AllLabelled(labels, train) && AllLabelled(labels, test)
    ensures s == FoldScore(labels, features, c, train, test)
  {
    hide LabelOn, FeatureOf, ScoreOf;
    ghost var rs, ls := FoldRecommendations(labels, features, c, train, test), LabelsAt(labels, test);
    var covered, upBreaches, downBreaches, abstain := 0, 0, 0, 0;
    var ups: seq<real>, downs: seq<real> := [], [];
    assert ScoreOf(rs[..0], ls[..0]) == NO_SCORE by { NothingScored(rs[..0], ls[..0]); }
    for i := 0 to |test|
      invariant Score(i, abstain, covered, upBreaches, downBreaches, ups, downs) == ScoreOf(rs[..i], ls[..i])
    {
      assert rs[..i + 1] == rs[..i] + [rs[i]] && ls[..i + 1] == ls[..i] + [ls[i]];
      ScoreAppended(rs[..i], ls[..i], rs[i], ls[i]);
      var r := c.learner(LabelsAt(labels, train), FeaturesAt(features, train), FeaturesFor(features, test[i]), c.quantile);
      assert r == rs[i];
      if r.None? {
        abstain := abstain + 1;
      } else {
        assert Labelled(labels, test[i]);
        var day := LabelOn(labels, test[i]).value;
        if r.value.up < day.upMax { upBreaches := upBreaches + 1; }
        if r.value.down < day.downMax { downBreaches := downBreaches + 1; }
        if r.value.up >= day.upMax && r.value.down >= day.downMax { covered := covered + 1; }
        ups := ups + [r.value.up];
        downs := downs + [r.value.down];
      }
    }
    assert rs[..|test|] == rs && ls[..|test|] == ls;
    s := Score(|test|, abstain, covered, upBreaches, downBreaches, ups, downs);
  }

  // ----- the harness -----

  datatype Report = Report(folds: seq<W.Fold>, scores: seq<Score>, aggregate: Score)

  function Total(scores: seq<Score>): Score {
    if scores == [] then NO_SCORE else Add(Total(scores[..|scores| - 1]), scores[|scores| - 1])
  }

  lemma TotalAppended(scores: seq<Score>, s: Score)
    ensures Total(scores + [s]) == Add(Total(scores), s)
  {
    hide Add;
    assert (scores + [s])[..|scores|] == scores;
  }

  function MinimumFor(requested: Option<int>, total: nat): int {
    if requested.Some? then requested.value else MaxInt(1, total / 2)
  }

  /** Test windows that split what is left after the minimum into the requested number of folds. */
  function SplitterFor(total: nat, minimum: nat, folds: nat, purgeGap: int): W.Splitter
    requires minimum <= total && folds > 0
  {
    var groups := MaxInt(1, (total - minimum) / folds);
    W.Splitter(minimum, groups, purgeGap, groups)
  }

  /** Unless told otherwise, half of the days train first; what is left is split evenly among the folds asked for, and
      a test window has at least one day. */
  lemma WindowsSplitTheRest(total: nat, minimum: nat, folds: nat, purgeGap: int)
    requires minimum <= total && folds > 0
    ensures var c, room := SplitterFor(total, minimum, folds, purgeGap), total - minimum;
      && c.minTrainGroups == minimum && c.purgeGap == purgeGap && c.stepGroups == c.testGroups
      && (room >= folds ==> c.testGroups * folds <= room < c.testGroups * folds + folds)
      && (room < folds ==> c.testGroups == 1)
    ensures total >= 2 ==> 2 * MinimumFor(None, total) == total || 2 * MinimumFor(None, total) + 1 == total
    ensures total < 2 ==> MinimumFor(None, total) == 1
    ensures forall m :: MinimumFor(Some(m), total) == m
  {
    var room := total - minimum;
    assert room == folds * (room / folds) + room % folds;
    if room < folds { Shares(room, folds, room / folds, room % folds); }
  }

  lemma FoldsFit(total: nat, minimum: nat, folds: nat, purgeGap: int, k: nat)
    requires minimum < total && folds > 0 && (k == 0 || k < folds <= total - minimum)
    ensures var c := SplitterFor(total, minimum, folds, purgeGap); W.Offset(c, k) + c.testGroups <= total
  {
    var c := SplitterFor(total, minimum, folds, purgeGap);
    OffsetOf(c, k);
    ShareOfRoom(total - minimum, folds);
    hide W.Offset;
    if k > 0 { Rows(k, folds, c.testGroups); }
  }

  lemma OffsetOf(c: W.Splitter, k: nat)
    ensures W.Offset(c, k) == c.minTrainGroups + k * c.stepGroups
    ensures W.Offset(c, 0) == c.minTrainGroups
  {
  }

  lemma ShareOfRoom(room: nat, folds: nat)
    requires folds > 0 && room > 0
    ensures MaxInt(1, room / folds) <= room
    ensures folds <= room ==> folds * MaxInt(1, room / folds) <= room
  {
    Shares(room, folds, room / folds, room % folds);
  }

  lemma Shares(room: nat, folds: nat, q: nat, rest: nat)
    requires folds > 0 && rest < folds && room == folds * q + rest
    ensures q <= room && folds * q <= room && (folds <= room ==> q >= 1)
  {
  }

  lemma Rows(k: nat, folds: nat, g: nat)
    requires k < folds
    ensures k * g + g <= folds * g
  {
    var rest: nat := folds - k - 1;
    assert folds * g == k * g + g + rest * g;
  }

  lemma DaySamplesAreUnique(c: Calendar, days: seq<int>)
    requires ReadsBack(c) && SortedBy(Earlier, days)
    ensures W.UniqueIds(SamplesOf(c, days))
  {
    var s := SamplesOf(c, days);
    forall i, j | 0 <= i < j < |s| ensures s[i].sampleId != s[j].sampleId {
      assert c.parse(c.iso(days[i])) == days[i] && c.parse(c.iso(days[j])) == days[j];
      assert Earlier(days[i], days[j]);
    }
  }

  lemma {:induction false} DistinctHasItsSize(s: seq<string>)
    requires Distinct(s)
    ensures |set x | x in s| == |s|
  {
    if s != [] {
      var front, last := s[..|s| - 1], s[|s| - 1];
      DistinctHasItsSize(front);
      assert s == front + [last];
      assert (set x | x in s) == (set x | x in front) + {last};
      assert last !in front;
    }
  }

  lemma GroupOrderIsDistinct(s: seq<W.Sample>, order: seq<string>)
    requires W.IsGroupOrder(s, order)
    ensures Distinct(order)
  {
    hide W.OpeningTime;
    forall i, j | 0 <= i < j < |order| ensures order[i] != order[j] {
      assert W.GroupLess(s, order[i], order[j]);
      LessIsIrreflexive(order[i]);
    }
  }

  /** There are as many groups as days. */
  lemma OneGroupPerDay(c: Calendar, days: seq<int>, order: seq<string>)
    requires ReadsBack(c) && SortedBy(Earlier, days) && W.IsGroupOrder(SamplesOf(c, days), order)
    ensures |order| == |days|
  {
    var s := SamplesOf(c, days);
    GroupOrderIsDistinct(s, order);
    var names := seq(|days|, i requires 0 <= i < |days| => c.iso(days[i]));
    DaySamplesAreUnique(c, days);
    assert forall i | 0 <= i < |days| :: names[i] == s[i].sampleId;
    assert Distinct(names);
    forall g ensures g in order <==> g in names {
      if g in names {
        var i :| 0 <= i < |names| && names[i] == g;
        assert s[i] in s && s[i].groupId == g;
      }
      if g in order {
        var x :| x in s && x.groupId == g;
        var i :| 0 <= i < |s| && s[i] == x;
        assert names[i] == g;
      }
    }
    DistinctHasItsSize(order);
    DistinctHasItsSize(names);
    assert (set g | g in order) == (set g | g in names);
  }

  /** The days that a fold names are labelled days. */
  lemma FoldDaysAreLabelled(labels: seq<ExcursionLabel>, c: Calendar, days: seq<int>, order: seq<string>,
                            w: W.Splitter, k: nat, f: W.Fold)
    requires ReadsBack(c) && IsDays(labels, days) && W.IsFold(SamplesOf(c, days), order, w, k, f)
    ensures AllLabelled(labels, DaysOf(c, f.trainIds)) && AllLabelled(labels, DaysOf(c, f.testIds))
    ensures forall i | 0 <= i < |f.trainIds| :: c.iso(DaysOf(c, f.trainIds)[i]) == f.trainIds[i]
    ensures forall i | 0 <= i < |f.testIds| :: c.iso(DaysOf(c, f.testIds)[i]) == f.testIds[i]
  {
    hide LabelOn, W.Offset, W.TimeLess, W.InSlice;
    var s := SamplesOf(c, days);
    var test: seq<W.Sample>, train: seq<W.Sample> :|
      && test != [] && train != []
      && W.IsTest(s, order, w, k, test)
      && W.IsTrain(s, order, w, k, test[0].observedAt - w.purgeGap, train)
      && f == W.FoldOf(w, k, train, test);
    SampledDaysAreLabelled(labels, c, days, train);
    SampledDaysAreLabelled(labels, c, days, test);
  }

  lemma SampledDaysAreLabelled(labels: seq<ExcursionLabel>, c: Calendar, days: seq<int>, part: seq<W.Sample>)
    requires ReadsBack(c) && IsDays(labels, days) && forall x | x in part :: x in SamplesOf(c, days)
    ensures AllLabelled(labels, DaysOf(c, W.Ids(part)))
    ensures forall i | 0 <= i < |part| :: c.iso(DaysOf(c, W.Ids(part))[i]) == W.Ids(part)[i]
  {
    hide LabelOn;
    var s := SamplesOf(c, days);
    forall i | 0 <= i < |part|
      ensures Labelled(labels, DaysOf(c, W.Ids(part))[i]) && c.iso(DaysOf(c, W.Ids(part))[i]) == W.Ids(part)[i]
    {
      assert part[i] in s;
      var j :| 0 <= j < |s| && s[j] == part[i];
      assert c.parse(c.iso(days[j])) == days[j];
      assert days[j] in days;
    }
  }

  ghost predicate IsScored(labels: seq<ExcursionLabel>, features: seq<EntryFeatures>, c: Setup, f: W.Fold, s: Score) {
    && AllLabelled(labels, DaysOf(c.calendar, f.trainIds)) && AllLabelled(labels, DaysOf(c.calendar, f.testIds))
    && s == FoldScore(labels, features, c, DaysOf(c.calendar, f.trainIds), DaysOf(c.calendar, f.testIds))
  }

  ghost predicate IsReport(labels: seq<ExcursionLabel>, features: seq<EntryFeatures>, c: Setup, days: seq<int>,
                           order: seq<string>, w: W.Splitter, r: Report)
  {
    && |r.scores| == |r.folds| > 0
    && (forall k: nat | k < |r.folds| :: W.IsFold(SamplesOf(c.calendar, days), order, w, k, r.folds[k]))
    && (forall k: nat | k < |r.folds| :: IsScored(labels, features, c, r.folds[k], r.scores[k]))
    && r.aggregate == Total(r.scores)
  }

  function LabelDays(labels: seq<ExcursionLabel>): seq<int> {
    seq(|labels|, i requires 0 <= i < |labels| => labels[i].day)
  }

  function FeatureDays(features: seq<EntryFeatures>): seq<int> {
    seq(|features|, i requires 0 <= i < |features| => features[i].day)
  }

  ghost predicate Admissible(labels: seq<ExcursionLabel>, features: seq<EntryFeatures>, quantile: real, folds: int, purgeGap: int) {
    && 0.0 < quantile < 1.0 && folds > 0 && purgeGap >= 0
    && Distinct(LabelDays(labels)) && Distinct(FeatureDays(features)) && labels != []
  }

  /** The first check that refused arguments fail. */
  ghost function Refusal(labels: seq<ExcursionLabel>, features: seq<EntryFeatures>, quantile: real, folds: int, purgeGap: int):
    EvaluationError
  {
    if !(0.0 < quantile < 1.0) then BadQuantile
    else if folds <= 0 then BadFolds
    else if purgeGap < 0 then NegativeGap
    else if !Distinct(LabelDays(labels)) then DuplicateLabel
    else if !Distinct(FeatureDays(features)) then DuplicateFeatures
    else NoLabels
  }

  /** Arguments are admissible with a proper quantile, at least one fold, a gap that is not negative, and labels and
      features of one day each. */
  lemma AdmissibleExactly(labels: seq<ExcursionLabel>, features: seq<EntryFeatures>, quantile: real, folds: int, purgeGap: int)
    ensures Admissible(labels, features, quantile, folds, purgeGap) <==>
      && 0.0 < quantile < 1.0 && folds >= 1 && purgeGap >= 0 && labels != []
      && (forall i, j | 0 <= i < j < |labels| :: labels[i].day != labels[j].day)
      && (forall i, j | 0 <= i < j < |features| :: features[i].day != features[j].day)
  {
    var l, f := LabelDays(labels), FeatureDays(features);
    assert |l| == |labels| && |f| == |features|;
    assert forall i | 0 <= i < |labels| :: l[i] == labels[i].day;
    assert forall i | 0 <= i < |features| :: f[i] == features[i].day;
    hide LabelDays, FeatureDays;
  }

  method CheckInputs(labels: seq<ExcursionLabel>, features: seq<EntryFeatures>, quantile: real, folds: int, purgeGap: int)
      returns (r: Result<(), EvaluationError>)
    ensures r.Ok? <==> Admissible(labels, features, quantile, folds, purgeGap)
    ensures r.Err? ==> r.error == Refusal(labels, features, quantile, folds, purgeGap)
  {
    if !(0.0 < quantile < 1.0) { return Err(BadQuantile); }
    if folds <= 0 { return Err(BadFolds); }
    if purgeGap < 0 { return Err(NegativeGap); }
    var distinct := CheckDistinct(LabelDays(labels));
    if !distinct { return Err(DuplicateLabel); }
    distinct := CheckDistinct(FeatureDays(features));
    if !distinct { return Err(DuplicateFeatures); }
    if labels == [] { return Err(NoLabels); }
    return Ok(());
  }

  method ScoreFolds(labels: seq<ExcursionLabel>, features: seq<EntryFeatures>, c: Setup, folds: seq<W.Fold>)
      returns (scores: seq<Score>, total: Score)
    requires forall k | 0 <= k < |folds| ::
      AllLabelled(labels, DaysOf(c.calendar, folds[k].trainIds)) && AllLabelled(labels, DaysOf(c.calendar, folds[k].testIds))
    ensures |scores| == |folds| && total == Total(scores)
    ensures forall k: nat | k < |folds| :: IsScored(labels, features, c, folds[k], scores[k])
  {
    hide Add, AllLabelled, FoldScore, Total;
    scores, total := [], NO_SCORE;
    assert Total(scores) == NO_SCORE by { NothingTotalled(); }
    for k := 0 to |folds|
      invariant |scores| == k && total == Total(scores)
      invariant forall j: nat | j < k :: IsScored(labels, features, c, folds[j], scores[j])
    {
      var s := ScoreFold(labels, features, c, DaysOf(c.calendar, folds[k].trainIds), DaysOf(c.calendar, folds[k].testIds));
      assert IsScored(labels, features, c, folds[k], s);
      TotalAppended(scores, s);
      total := Add(total, s);
      scores := scores + [s];
    }
  }

  lemma NothingTotalled()
    ensures Total([]) == NO_SCORE
  {
  }

  ghost predicate IsEvaluation(labels: seq<ExcursionLabel>, features: seq<EntryFeatures>, c: Setup, days: seq<int>,
                               order: seq<string>, folds: int, minTrainDays: Option<int>, purgeGap: int, r: Report)
  {
    var minimum := MinimumFor(minTrainDays, |days|);
    && folds > 0 && 0 < minimum < |days|
    && W.IsGroupOrder(SamplesOf(c.calendar, days), order)
    && IsReport(labels, features, c, days, order, SplitterFor(|days|, minimum, folds, purgeGap), r)
    && (folds <= |days| - minimum ==> |r.folds| >= folds)
  }

  /** Fold `k` fits but nothing lies before its purge cutoff. */
  ghost predicate IsStarved(c: Setup, days: seq<int>, order: seq<string>, folds: int, minTrainDays: Option<int>,
                            purgeGap: int, k: nat)
  {
    var minimum := MinimumFor(minTrainDays, |days|);
    && folds > 0 && 0 < minimum < |days|
    && W.IsGroupOrder(SamplesOf(c.calendar, days), order)
    && var w := SplitterFor(|days|, minimum, folds, purgeGap);
       W.HasFold(w, order, k) && W.Starved(SamplesOf(c.calendar, days), order, w, k)
  }

  /** Every fold is fitted on its own past and scored on its own test window; the aggregate adds the folds
      up. Asking for no more folds than there are days left yields at least that many. */
  method WalkForwardEvaluate(labels: seq<ExcursionLabel>, features: seq<EntryFeatures>, c: Setup, folds: int,
                             minTrainDays: Option<int>, purgeGap: int)
      returns (r: Result<Report, EvaluationError>)
    requires ReadsBack(c.calendar)
    ensures Admissible(labels, features, c.quantile, folds, purgeGap) <==>
      r.Ok? || r.error == BadMinimum || r.error == FoldWithoutTraining
    ensures !Admissible(labels, features, c.quantile, folds, purgeGap) ==>
      r == Err(Refusal(labels, features, c.quantile, folds, purgeGap))
    ensures r == Err(BadMinimum) ==> exists days ::
      IsDays(labels, days) && !(0 < MinimumFor(minTrainDays, |days|) < |days|)
    ensures r == Err(FoldWithoutTraining) ==> exists days, order, k: nat ::
      IsDays(labels, days) && IsStarved(c, days, order, folds, minTrainDays, purgeGap, k)
    ensures r.Ok? ==> exists days, order ::
      IsDays(labels, days) && IsEvaluation(labels, features, c, days, order, folds, minTrainDays, purgeGap, r.value)
  {
    hide LabelOn, W.IsGroupOrder, W.IsFold, W.Offset, Admissible, Total, AllLabelled, IsScored;
    ghost var order: seq<string>;
    var checked := CheckInputs(labels, features, c.quantile, folds, purgeGap);
    if checked.Err? { return Err(checked.error); }
    assert folds > 0 && purgeGap >= 0 by { PositiveFolds(labels, features, c.quantile, folds, purgeGap); }
    var byDay := IndexLabels(labels);
    var allDays := SortedDays(byDay);
    LabelledAreKeys(labels, byDay, allDays);
    var total := |allDays|;
    var minimum := MinimumFor(minTrainDays, total);
    if !(0 < minimum < total) { return Err(BadMinimum); }
    var splitter := SplitterFor(total, minimum, folds, purgeGap);
    var samples := SamplesOf(c.calendar, allDays);
    DaySamplesAreUnique(c.calendar, allDays);
    var split;
    split, order := W.Split(splitter, samples);
    if split.Err? {
      ghost var k: nat :| W.HasFold(splitter, order, k) && W.Starved(samples, order, splitter, k);
      assert IsStarved(c, allDays, order, folds, minTrainDays, purgeGap, k);
      return Err(FoldWithoutTraining);
    }
    OneGroupPerDay(c.calendar, allDays, order);
    FoldsFit(total, minimum, folds, purgeGap, 0);
    if folds <= total - minimum { FoldsFit(total, minimum, folds, purgeGap, folds - 1); }
    var walkFolds := split.value;
    assert W.HasFold(splitter, order, 0) && 0 < |walkFolds|;
    if folds <= total - minimum { assert W.HasFold(splitter, order, folds - 1); }
    forall k | 0 <= k < |walkFolds|
      ensures AllLabelled(labels, DaysOf(c.calendar, walkFolds[k].trainIds))
      ensures AllLabelled(labels, DaysOf(c.calendar, walkFolds[k].testIds))
    {
      FoldDaysAreLabelled(labels, c.calendar, allDays, order, splitter, k, walkFolds[k]);
    }
    var scores, aggregate := ScoreFolds(labels, features, c, walkFolds);
    r := Ok(Report(walkFolds, scores, aggregate));
    assert IsEvaluation(labels, features, c, allDays, order, folds, minTrainDays, purgeGap, r.value);
  }

  lemma PositiveFolds(labels: seq<ExcursionLabel>, features: seq<EntryFeatures>, quantile: real, folds: int, purgeGap: int)
    requires Admissible(labels, features, quantile, folds, purgeGap)
    ensures folds > 0 && purgeGap >= 0
  {
  }

  // ----- what a report means -----

  /** Every recommendation of the first `n` folds, in order. */
  ghost function AllRecommendations(labels: seq<ExcursionLabel>, features: seq<EntryFeatures>, c: Setup,
                                    folds: seq<W.Fold>, n: nat): seq<Option<TailDistances>>
    requires n <= |folds| && forall k | 0 <= k < |folds| :: AllLabelled(labels, DaysOf(c.calendar, folds[k].trainIds))
  {
    if n == 0 then []
    else
      var train, test := DaysOf(c.calendar, folds[n - 1].trainIds), DaysOf(c.calendar, folds[n - 1].testIds);
      AllRecommendations(labels, features, c, folds, n - 1) + FoldRecommendations(labels, features, c, train, test)
  }

  ghost function AllTestLabels(labels: seq<ExcursionLabel>, c: Setup, folds: seq<W.Fold>, n: nat): seq<ExcursionLabel>
    requires n <= |folds| && forall k | 0 <= k < |folds| :: AllLabelled(labels, DaysOf(c.calendar, folds[k].testIds))
  {
    if n == 0 then []
    else AllTestLabels(labels, c, folds, n - 1) + LabelsAt(labels, DaysOf(c.calendar, folds[n - 1].testIds))
  }

  /** The aggregate is the score of all held-out days in one pass. */
  lemma {:induction false} AggregateIsOnePass(labels: seq<ExcursionLabel>, features: seq<EntryFeatures>, c: Setup,
                                              folds: seq<W.Fold>, scores: seq<Score>, n: nat)
    requires |scores| == |folds| && n <= |folds|
    requires forall k | 0 <= k < |folds| :: AllLabelled(labels, DaysOf(c.calendar, folds[k].trainIds))
    requires forall k | 0 <= k < |folds| :: AllLabelled(labels, DaysOf(c.calendar, folds[k].testIds))
    requires forall k: nat | k < |folds| :: IsScored(labels, features, c, folds[k], scores[k])
    ensures |AllRecommendations(labels, features, c, folds, n)| == |AllTestLabels(labels, c, folds, n)|
    ensures Total(scores[..n]) ==
      ScoreOf(AllRecommendations(labels, features, c, folds, n), AllTestLabels(labels, c, folds, n))
  {
    hide Labelled, LabelOn, FoldRecommendations, Add, ScoreOf;
    if n == 0 {
      NothingScored([], []);
    } else {
      AggregateIsOnePass(labels, features, c, folds, scores, n - 1);
      assert IsScored(labels, features, c, folds[n - 1], scores[n - 1]);
      ScoresAddUp(AllRecommendations(labels, features, c, folds, n - 1), AllTestLabels(labels, c, folds, n - 1),
                  FoldRecommendations(labels, features, c, DaysOf(c.calendar, folds[n - 1].trainIds),
                                      DaysOf(c.calendar, folds[n - 1].testIds)),
                  LabelsAt(labels, DaysOf(c.calendar, folds[n - 1].testIds)));
      assert scores[..n] == scores[..n - 1] + [scores[n - 1]];
      TotalAppended(scores[..n - 1], scores[n - 1]);
    }
  }

  /** Out of sample, by days: a training day lies more than the purge gap before every test day of its
      fold, and no day is tested in two folds. */
  lemma ReportIsOutOfSample(labels: seq<ExcursionLabel>, features: seq<EntryFeatures>, c: Setup, days: seq<int>,
                            order: seq<string>, w: W.Splitter, r: Report, d: int, e: int, k: nat, j: nat)
    requires ReadsBack(c.calendar) && SortedBy(Earlier, days) && W.ValidSplitter(w) && w.stepGroups == w.testGroups
    requires W.IsGroupOrder(SamplesOf(c.calendar, days), order) && IsReport(labels, features, c, days, order, w, r)
    requires d in days && e in days && k < |r.folds| && j < k
    ensures c.calendar.iso(d) in r.folds[k].trainIds && c.calendar.iso(e) in r.folds[k].testIds ==>
      (e - d) * 86_400_000_000 > w.purgeGap
    ensures !(c.calendar.iso(e) in r.folds[j].testIds && c.calendar.iso(e) in r.folds[k].testIds)
  {
    hide W.IsGroupOrder, W.IsFold, W.UniqueIds, IsScored, Total;
    var s := SamplesOf(c.calendar, days);
    DaySamplesAreUnique(c.calendar, days);
    SampleOfDay(c.calendar, days, d);
    SampleOfDay(c.calendar, days, e);
    var a, b := SampleOf(c.calendar, d), SampleOf(c.calendar, e);
    assert W.IsFold(s, order, w, k, r.folds[k]) && W.IsFold(s, order, w, j, r.folds[j]);
    if a.sampleId in r.folds[k].trainIds && b.sampleId in r.folds[k].testIds {
      W.FoldIsLeakFree(s, order, w, k, r.folds[k], a, b);
    }
    W.TestsAreDisjoint(s, order, w, j, k, r.folds[j], r.folds[k]);
  }

  /** The noon of a day, in microseconds. */
  function Noon(day: int): int { (24 * day + 12) * 3_600 * 1_000_000 }

  /** A fold trains on exactly the labelled days whose noon lies more than the purge gap before the noon of its first
      test day. */
  lemma TrainingDaysExactly(labels: seq<ExcursionLabel>, features: seq<EntryFeatures>, c: Setup, days: seq<int>,
                            order: seq<string>, w: W.Splitter, r: Report, d: int, k: nat) returns (first: int)
    requires ReadsBack(c.calendar) && SortedBy(Earlier, days) && W.ValidSplitter(w)
    requires W.IsGroupOrder(SamplesOf(c.calendar, days), order) && IsReport(labels, features, c, days, order, w, r)
    requires d in days && k < |r.folds|
    ensures first in days && c.calendar.iso(first) in r.folds[k].testIds
    ensures r.folds[k].testStart == Noon(first) && r.folds[k].purgeCutoff == Noon(first) - w.purgeGap
    ensures c.calendar.iso(d) in r.folds[k].trainIds <==> Noon(first) - Noon(d) > w.purgeGap
    ensures c.calendar.iso(d) in r.folds[k].testIds ==> first <= d
  {
    hide W.UniqueIds, IsScored, Total, W.Opening, W.Offset;
    var s := SamplesOf(c.calendar, days);
    DaySamplesAreUnique(c.calendar, days);
    assert W.IsFold(s, order, w, k, r.folds[k]);
    var g := order[W.Offset(w, k)];
    W.OpeningIsEarliest(s, g);
    assert g in order;
    var x :| x in s && x.groupId == g && x.observedAt == W.Opening(s, g).value;
    var i :| 0 <= i < |s| && s[i] == x;
    first := days[i];
    assert W.InSlice(order, W.Offset(w, k), W.Offset(w, k) + w.testGroups, g);
    hide W.IsGroupOrder, W.IsFold, W.InSlice;
    SampleOfDay(c.calendar, days, d);
    W.TrainingIsThePast(s, order, w, k, r.folds[k], x);
    W.TrainingIsThePast(s, order, w, k, r.folds[k], SampleOf(c.calendar, d));
  }

  lemma SampleOfDay(c: Calendar, days: seq<int>, d: int)
    requires d in days
    ensures SampleOf(c, d) in SamplesOf(c, days)
  {
    var i :| 0 <= i < |days| && days[i] == d;
    assert SamplesOf(c, days)[i] == SampleOf(c, d);
  }
}
