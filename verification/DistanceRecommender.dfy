/** Walk-forward distance recommendations: one freshly fitted model per labelled day. The model is a
    parameter, so everything here holds for any learner. */
module DistanceRecommender {
  import opened Common
  import opened Sorting
  import opened TailModel
  import opened TailModelIv

  /** Fits on the training labels and features, then recommends for one day. */
  type Learner = (seq<ExcursionLabel>, seq<EntryFeatures>, EntryFeatures, real) -> Option<TailDistances>

  datatype Verdict = InsufficientHistory | Abstained | Recommended(distances: TailDistances)

  /** `purgeDays` is the whole days of the purge gap: subtracting a duration from a date drops the rest. */
  datatype Setup = Setup(learner: Learner, quantile: real, minTrainDays: int, purgeDays: int)

  /** The last label of a day wins. */
  function LabelOn(labels: seq<ExcursionLabel>, day: int): Option<ExcursionLabel> {
    if labels == [] then None
    else if labels[|labels| - 1].day == day then Some(labels[|labels| - 1])
    else LabelOn(labels[..|labels| - 1], day)
  }

  predicate Labelled(labels: seq<ExcursionLabel>, day: int) { LabelOn(labels, day).Some? }

  /** A day without recorded features is presented as one without a usable volatility. */
  function FeaturesFor(features: seq<EntryFeatures>, day: int): EntryFeatures {
    if FeatureOf(features, day).Some? then FeatureOf(features, day).value else EntryFeatures(day, None, false)
  }

  predicate Earlier(a: int, b: int) { a < b }

  predicate NotLater(a: int, b: int) { a <= b }

  ghost predicate IsDays(labels: seq<ExcursionLabel>, days: seq<int>) {
    SortedBy(Earlier, days) && forall d :: d in days <==> Labelled(labels, d)
  }

  /** The labelled days up to a cutoff, in order. */
  ghost predicate IsTrainDays(labels: seq<ExcursionLabel>, cutoff: int, days: seq<int>) {
    SortedBy(Earlier, days) && forall d :: d in days <==> Labelled(labels, d) && d <= cutoff
  }

  function LabelsAt(labels: seq<ExcursionLabel>, days: seq<int>): seq<ExcursionLabel>
    requires forall i | 0 <= i < |days| :: Labelled(labels, days[i])
  {
    seq(|days|, i requires 0 <= i < |days| => assert Labelled(labels, days[i]); LabelOn(labels, days[i]).value)
  }

  function FeaturesAt(features: seq<EntryFeatures>, days: seq<int>): seq<EntryFeatures> {
    seq(|days|, i requires 0 <= i < |days| => FeaturesFor(features, days[i]))
  }

  /** What is decided for a day from the training days of its window. */
  function VerdictFrom(labels: seq<ExcursionLabel>, features: seq<EntryFeatures>, c: Setup, train: seq<int>, day: int):
    Verdict
    requires forall i | 0 <= i < |train| :: Labelled(labels, train[i])
  {
    if |train| < c.minTrainDays then InsufficientHistory
    else
      var r := c.learner(LabelsAt(labels, train), FeaturesAt(features, train), FeaturesFor(features, day), c.quantile);
      if r.None? then Abstained else Recommended(r.value)
  }

  ghost predicate IsVerdict(labels: seq<ExcursionLabel>, features: seq<EntryFeatures>, c: Setup, day: int, v: Verdict) {
    exists train ::
      && IsTrainDays(labels, day - c.purgeDays, train)
      && (forall i | 0 <= i < |train| :: Labelled(labels, train[i]))
      && v == VerdictFrom(labels, features, c, train, day)
  }

  // ----- what a verdict depends on -----

  lemma TrainDaysAreUnique(labels: seq<ExcursionLabel>, other: seq<ExcursionLabel>, cutoff: int, a: seq<int>, b: seq<int>)
    requires IsTrainDays(labels, cutoff, a) && IsTrainDays(other, cutoff, b)
    requires forall d | d <= cutoff :: LabelOn(labels, d) == LabelOn(other, d)
    ensures a == b
  {
    forall d ensures d in a <==> d in b {
      if d <= cutoff { assert LabelOn(labels, d) == LabelOn(other, d); }
    }
    StrictOrderIsUnique(Earlier, a, b);
  }

  /** No lookahead: labels after the cutoff, and features of days that are neither trained on nor
      recommended for, can be edited, added or removed without touching the verdict. */
  lemma EditsAfterTheCutoffAreInvisible(labels: seq<ExcursionLabel>, other: seq<ExcursionLabel>,
                                        features: seq<EntryFeatures>, others: seq<EntryFeatures>, c: Setup, day: int,
                                        v: Verdict, w: Verdict)
    requires forall d | d <= day - c.purgeDays :: LabelOn(labels, d) == LabelOn(other, d)
    requires forall d | d <= day - c.purgeDays || d == day :: FeatureOf(features, d) == FeatureOf(others, d)
    requires IsVerdict(labels, features, c, day, v) && IsVerdict(other, others, c, day, w)
    ensures v == w
  {
    hide LabelOn, FeatureOf;
    var a :| IsTrainDays(labels, day - c.purgeDays, a) && (forall i | 0 <= i < |a| :: Labelled(labels, a[i])) && v == VerdictFrom(labels, features, c, a, day);
    var b :| IsTrainDays(other, day - c.purgeDays, b) && (forall i | 0 <= i < |b| :: Labelled(other, b[i])) && w == VerdictFrom(other, others, c, b, day);
    TrainDaysAreUnique(labels, other, day - c.purgeDays, a, b);
    forall i | 0 <= i < |a|
      ensures LabelOn(labels, a[i]) == LabelOn(other, a[i]) && FeaturesFor(features, a[i]) == FeaturesFor(others, a[i])
    {
      assert a[i] in a;
      assert LabelOn(labels, a[i]) == LabelOn(other, a[i]);
      assert FeatureOf(features, a[i]) == FeatureOf(others, a[i]);
    }
    assert LabelsAt(labels, a) == LabelsAt(other, a);
    assert FeaturesAt(features, a) == FeaturesAt(others, a);
    assert FeatureOf(features, day) == FeatureOf(others, day);
  }

  /** A day's own label trains its own recommendation exactly when the purge gap has no whole day. */
  lemma OwnLabelIsTrainedOnExactlyWithoutGap(labels: seq<ExcursionLabel>, c: Setup, day: int, train: seq<int>)
    requires Labelled(labels, day) && IsTrainDays(labels, day - c.purgeDays, train)
    ensures day in train <==> c.purgeDays <= 0
  {
  }

  /** The cutoff day itself is trained on, so a one-day gap still trains on the day before. */
  lemma CutoffDayIsTrainedOn(labels: seq<ExcursionLabel>, c: Setup, day: int, train: seq<int>)
    requires IsTrainDays(labels, day - c.purgeDays, train)
    ensures day - c.purgeDays in train <==> Labelled(labels, day - c.purgeDays)
  {
  }

  // ----- the run -----

  function Emitted(verdicts: seq<Verdict>): (r: seq<TailDistances>)
    ensures |r| + multiset(verdicts)[Abstained] + multiset(verdicts)[InsufficientHistory] == |verdicts|
  {
    if verdicts == [] then []
    else
      var front, last := verdicts[..|verdicts| - 1], verdicts[|verdicts| - 1];
      assert verdicts == front + [last];
      Emitted(front) + if last.Recommended? then [last.distances] else []
  }

  lemma EmittedAppended(verdicts: seq<Verdict>, v: Verdict)
    ensures Emitted(verdicts + [v]) == Emitted(verdicts) + if v.Recommended? then [v.distances] else []
    ensures multiset(verdicts + [v]) == multiset(verdicts) + multiset{v}
  {
    assert (verdicts + [v])[..|verdicts|] == verdicts;
  }

  lemma LabelOnAppended(labels: seq<ExcursionLabel>, l: ExcursionLabel, day: int)
    ensures LabelOn(labels + [l], day) == if l.day == day then Some(l) else LabelOn(labels, day)
  {
    assert (labels + [l])[..|labels|] == labels;
  }

  method IndexLabels(labels: seq<ExcursionLabel>) returns (byDay: map<int, ExcursionLabel>)
    ensures forall day :: LabelOn(labels, day) == if day in byDay then Some(byDay[day]) else None
  {
    byDay := map[];
    for i := 0 to |labels|
      invariant forall day :: LabelOn(labels[..i], day) == if day in byDay then Some(byDay[day]) else None
    {
      assert labels[..i + 1] == labels[..i] + [labels[i]];
      forall day ensures LabelOn(labels[..i + 1], day) ==
          if labels[i].day == day then Some(labels[i]) else LabelOn(labels[..i], day)
      {
        LabelOnAppended(labels[..i], labels[i], day);
      }
      byDay := byDay[labels[i].day := labels[i]];
    }
    assert labels[..|labels|] == labels;
  }

  lemma NonemptyHasElement(s: set<int>)
    requires s != {}
    ensures exists d :: d in s
  {
    if !(exists d :: d in s) {
      assert false;
    }
  }

  method SortedDays(byDay: map<int, ExcursionLabel>) returns (days: seq<int>)
    ensures SortedBy(Earlier, days) && forall d :: d in days <==> d in byDay
  {
    days := [];
    var left := byDay.Keys;
    while left != {}
      invariant left <= byDay.Keys && Distinct(days)
      invariant forall d :: d in days <==> d in byDay && d !in left
      decreases left
    {
      NonemptyHasElement(left);
      var d :| d in left;
      days := days + [d];
      left := left - {d};
    }
    SortIsSorted(NotLater, days);
    SortKeepsElements(NotLater, days);
    SortKeepsDistinct(NotLater, days);
    days := SortBy(NotLater, days);
    hide SortBy;
    forall i, j | 0 <= i < j < |days| ensures Earlier(days[i], days[j]) {
      assert NotLater(days[i], days[j]);
    }
  }

  method TrainDays(days: seq<int>, cutoff: int, ghost labels: seq<ExcursionLabel>) returns (train: seq<int>)
    requires IsDays(labels, days)
    ensures IsTrainDays(labels, cutoff, train)
  {
    hide LabelOn;
    train := [];
    for i := 0 to |days|
      invariant SortedBy(Earlier, train)
      invariant forall d :: d in train <==> d in days[..i] && d <= cutoff
    {
      assert days[..i + 1] == days[..i] + [days[i]];
      if days[i] <= cutoff {
        forall k | 0 <= k < |train| ensures Earlier(train[k], days[i]) {
          assert train[k] in train && train[k] in days[..i];
        }
        train := train + [days[i]];
      }
    }
    assert days[..|days|] == days;
  }

  function Presented(byDay: map<int, EntryFeatures>, day: int): EntryFeatures {
    if day in byDay then byDay[day] else EntryFeatures(day, None, false)
  }

  /** The body of the loop: fits a fresh model on the window of one day. */
  method RecommendOn(labelsByDay: map<int, ExcursionLabel>, featuresByDay: map<int, EntryFeatures>, days: seq<int>,
                     c: Setup, day: int, ghost labels: seq<ExcursionLabel>, ghost features: seq<EntryFeatures>)
      returns (v: Verdict)
    requires forall d :: LabelOn(labels, d) == if d in labelsByDay then Some(labelsByDay[d]) else None
    requires forall d :: FeatureOf(features, d) == if d in featuresByDay then Some(featuresByDay[d]) else None
    requires IsDays(labels, days)
    ensures IsVerdict(labels, features, c, day, v)
  {
    hide LabelOn, FeatureOf, IsTrainDays, IsDays;
    var train := TrainDays(days, day - c.purgeDays, labels);
    TrainDaysAreLabelled(labels, day - c.purgeDays, train);
    if |train| < c.minTrainDays {
      v := InsufficientHistory;
    } else {
      assert forall i | 0 <= i < |train| :: Labelled(labels, train[i]) && train[i] in labelsByDay;
      var trainLabels := seq(|train|, i requires 0 <= i < |train| && train[i] in labelsByDay => labelsByDay[train[i]]);
      var trainFeatures := seq(|train|, i requires 0 <= i < |train| => Presented(featuresByDay, train[i]));
      assert trainLabels == LabelsAt(labels, train);
      assert trainFeatures == FeaturesAt(features, train);
      var r := c.learner(trainLabels, trainFeatures, Presented(featuresByDay, day), c.quantile);
      v := if r.None? then Abstained else Recommended(r.value);
    }
    assert v == VerdictFrom(labels, features, c, train, day);
  }

  /** The verdicts of all labelled days, in order. */
  ghost predicate Verdicts(labels: seq<ExcursionLabel>, features: seq<EntryFeatures>, c: Setup, days: seq<int>,
                           verdicts: seq<Verdict>)
  {
    && IsDays(labels, days) && |verdicts| == |days|
    && forall i | 0 <= i < |days| :: IsVerdict(labels, features, c, days[i], verdicts[i])
  }

  /** One verdict per labelled day, each within its own window; the recommendations and the two counters
      account for every labelled day once. */
  method RecommendWalkForward(labels: seq<ExcursionLabel>, features: seq<EntryFeatures>, c: Setup)
      returns (recommendations: seq<TailDistances>, abstainDays: nat, insufficientDays: nat)
    ensures exists days, verdicts ::
      && Verdicts(labels, features, c, days, verdicts)
      && recommendations == Emitted(verdicts)
      && abstainDays == multiset(verdicts)[Abstained]
      && insufficientDays == multiset(verdicts)[InsufficientHistory]
      && |recommendations| + abstainDays + insufficientDays == |days|
  {
    hide LabelOn, FeatureOf, Emitted, IsDays, IsVerdict;
    var labelsByDay := IndexLabels(labels);
    var featuresByDay := IndexFeatures(features);
    var allDays := SortedDays(labelsByDay);
    assert IsDays(labels, allDays) by { LabelledAreKeys(labels, labelsByDay, allDays); }
    ghost var verdicts: seq<Verdict> := [];
    recommendations, abstainDays, insufficientDays := [], 0, 0;
    NothingEmitted();
    for n := 0 to |allDays|
      invariant |verdicts| == n
      invariant forall i | 0 <= i < n :: IsVerdict(labels, features, c, allDays[i], verdicts[i])
      invariant recommendations == Emitted(verdicts)
      invariant abstainDays == multiset(verdicts)[Abstained]
      invariant insufficientDays == multiset(verdicts)[InsufficientHistory]
    {
      var v := RecommendOn(labelsByDay, featuresByDay, allDays, c, allDays[n], labels, features);
      EmittedAppended(verdicts, v);
      match v {
        case InsufficientHistory => insufficientDays := insufficientDays + 1;
        case Abstained => abstainDays := abstainDays + 1;
        case Recommended(distances) => recommendations := recommendations + [distances];
      }
      verdicts := verdicts + [v];
    }
    assert Verdicts(labels, features, c, allDays, verdicts);
  }

  lemma LabelledAreKeys(labels: seq<ExcursionLabel>, byDay: map<int, ExcursionLabel>, days: seq<int>)
    requires forall day :: LabelOn(labels, day) == if day in byDay then Some(byDay[day]) else None
    requires SortedBy(Earlier, days) && forall d :: d in days <==> d in byDay
    ensures IsDays(labels, days)
  {
  }

  lemma NothingEmitted()
    ensures Emitted([]) == []
  {
  }

  lemma TrainDaysAreLabelled(labels: seq<ExcursionLabel>, cutoff: int, train: seq<int>)
    requires IsTrainDays(labels, cutoff, train)
    ensures forall i | 0 <= i < |train| :: Labelled(labels, train[i])
  {
    forall i | 0 <= i < |train| ensures Labelled(labels, train[i]) { assert train[i] in train; }
  }
}
