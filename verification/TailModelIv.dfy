/** The buffered model per implied-volatility quartile, with the unconditional model as fallback. */
module TailModelIv {
  import opened Common
  import opened EmpiricalQuantile
  import opened BufferSearch
  import opened TailModel

  datatype IvModel = IvModel(
    base: BufferModel, boundaries: seq<real>,
    regimeModels: map<nat, BufferModel>, regimeCounts: seq<nat>, fallback: Option<BufferModel>)

  /** A training day whose entry features carry a usable implied volatility. */
  datatype IvDay = IvDay(iv: real, upMax: real, downMax: real, day: int)

  function LabelOf(d: IvDay): ExcursionLabel { ExcursionLabel(d.day, d.upMax, d.downMax) }

  function LabelsOf(days: seq<IvDay>): (r: seq<ExcursionLabel>)
    ensures |r| == |days|
  {
    seq(|days|, i requires 0 <= i < |days| => LabelOf(days[i]))
  }

  function Ivs(days: seq<IvDay>): (r: seq<real>)
    ensures |r| == |days|
  {
    seq(|days|, i requires 0 <= i < |days| => days[i].iv)
  }

  /** The last features recorded for a day win, as in a dictionary built in order. */
  function FeatureOf(features: seq<EntryFeatures>, day: int): Option<EntryFeatures> {
    if features == [] then None
    else if features[|features| - 1].day == day then Some(features[|features| - 1])
    else FeatureOf(features[..|features| - 1], day)
  }

  function Usable(f: Option<EntryFeatures>): bool { f.Some? && f.value.atmIvValid && f.value.atmIv.Some? }

  function ValidDays(labels: seq<ExcursionLabel>, features: seq<EntryFeatures>): seq<IvDay> {
    if labels == [] then []
    else
      var l := labels[|labels| - 1];
      var f := FeatureOf(features, l.day);
      ValidDays(labels[..|labels| - 1], features)
      + if Usable(f) then [IvDay(f.value.atmIv.value, l.upMax, l.downMax, l.day)] else []
  }

  /** bisect_right on the sorted boundaries: how many of them are at most `iv`. */
  function Regime(boundaries: seq<real>, iv: real): (k: nat)
    ensures k <= |boundaries|
  {
    CountLe(boundaries, iv)
  }

  function Bucket(days: seq<IvDay>, boundaries: seq<real>, k: nat): seq<IvDay> {
    if days == [] then []
    else
      var d := days[|days| - 1];
      Bucket(days[..|days| - 1], boundaries, k) + if Regime(boundaries, d.iv) == k then [d] else []
  }

  function BoundaryAt(days: seq<IvDay>, i: nat): Result<real, QuantileError>
    requires i < |REGIME_CUTS|
  {
    QuantileHigher(Ivs(days), REGIME_CUTS[i])
  }

  ghost predicate IsBoundaries(days: seq<IvDay>, boundaries: seq<real>) {
    && |boundaries| == |REGIME_CUTS|
    && forall i | 0 <= i < |boundaries| :: BoundaryAt(days, i) == Ok(boundaries[i])
  }

  /** `m` was fitted on the valid days of the window: one model per large enough quartile, one for all. */
  ghost predicate IvFittedOn(m: IvModel, labels: seq<ExcursionLabel>, features: seq<EntryFeatures>) {
    var days := ValidDays(labels, features);
    && days != [] && |m.regimeCounts| == REGIMES
    && IsBoundaries(days, m.boundaries)
    && m.fallback.Some? && FittedOn(m.fallback.value, LabelsOf(days)) && Unfitted(m.fallback.value, m.base)
    && (forall k: nat | k < REGIMES ::
          && m.regimeCounts[k] == |Bucket(days, m.boundaries, k)|
          && (k in m.regimeModels <==> |Bucket(days, m.boundaries, k)| >= m.base.config.minRegimeSamples))
    && (forall k | k in m.regimeModels ::
          && k < REGIMES
          && FittedOn(m.regimeModels[k], LabelsOf(Bucket(days, m.boundaries, k)))
          && Unfitted(m.regimeModels[k], m.base))
  }

  method IndexFeatures(features: seq<EntryFeatures>) returns (byDay: map<int, EntryFeatures>)
    ensures forall day :: FeatureOf(features, day) == if day in byDay then Some(byDay[day]) else None
  {
    byDay := map[];
    for i := 0 to |features|
      invariant forall day :: FeatureOf(features[..i], day) == if day in byDay then Some(byDay[day]) else None
    {
      assert features[..i + 1][..i] == features[..i];
      byDay := byDay[features[i].day := features[i]];
    }
    assert features[..|features|] == features;
  }

  method CollectValid(labels: seq<ExcursionLabel>, features: seq<EntryFeatures>) returns (days: seq<IvDay>)
    ensures days == ValidDays(labels, features)
  {
    var byDay := IndexFeatures(features);
    days := [];
    for i := 0 to |labels|
      invariant days == ValidDays(labels[..i], features)
    {
      assert labels[..i + 1][..i] == labels[..i];
      var l := labels[i];
      if l.day in byDay && byDay[l.day].atmIvValid && byDay[l.day].atmIv.Some? {
        days := days + [IvDay(byDay[l.day].atmIv.value, l.upMax, l.downMax, l.day)];
      }
    }
    assert labels[..|labels|] == labels;
  }

  method FillBuckets(days: seq<IvDay>, boundaries: seq<real>) returns (buckets: seq<seq<IvDay>>)
    requires |boundaries| + 1 == REGIMES
    ensures |buckets| == REGIMES
    ensures forall k: nat | k < REGIMES :: buckets[k] == Bucket(days, boundaries, k)
  {
    buckets := seq(REGIMES, _ => []);
    for i := 0 to |days|
      invariant |buckets| == REGIMES
      invariant forall k: nat | k < REGIMES :: buckets[k] == Bucket(days[..i], boundaries, k)
    {
      assert days[..i + 1][..i] == days[..i];
      var k := Regime(boundaries, days[i].iv);
      buckets := buckets[k := buckets[k] + [days[i]]];
    }
    assert days[..|days|] == days;
  }

  method FitIv(base: BufferModel, labels: seq<ExcursionLabel>, features: seq<EntryFeatures>)
      returns (r: Result<IvModel, ModelError>)
    requires ValidModel(base) && ValidLabels(labels) && ValidFeatures(features)
    ensures r.Ok? <==> ValidDays(labels, features) != []
    ensures r.Err? ==> r.error == if labels == [] then NoTrainingLabels else NoValidIv
    ensures r.Ok? ==> r.value.base == base && IvFittedOn(r.value, labels, features)
  {
    hide FittedOn, ValidModel, ValidDays, Bucket, QuantileHigher;
    if labels == [] {
      EmptyHasNoValidDays(features);
      return Err(NoTrainingLabels);
    }
    var days := CollectValid(labels, features);
    if days == [] { return Err(NoValidIv); }
    ValidDaysAreValid(labels, features);
    BoundariesExist(days);
    var boundaries := seq(|REGIME_CUTS|, i requires 0 <= i < |REGIME_CUTS| => BoundaryAt(days, i).value);
    var all := Fit(base, LabelsOf(days));
    var buckets := FillBuckets(days, boundaries);
    var models: map<nat, BufferModel> := map[];
    var counts: seq<nat> := [];
    for k := 0 to REGIMES
      invariant |counts| == k
      invariant forall j: nat | j < k ::
        && counts[j] == |buckets[j]|
        && (j in models <==> |buckets[j]| >= base.config.minRegimeSamples)
      invariant forall j | j in models :: j < k && FittedOn(models[j], LabelsOf(buckets[j])) && Unfitted(models[j], base)
    {
      counts := counts + [|buckets[k]|];
      if |buckets[k]| >= base.config.minRegimeSamples {
        BucketIsValid(days, boundaries, k);
        MinimumIsPositive(base);
        var fitted := Fit(base, LabelsOf(buckets[k]));
        models := models[k := fitted.value];
      }
    }
    r := Ok(IvModel(base, boundaries, models, counts, Some(all.value)));
  }

  lemma MinimumIsPositive(m: BufferModel)
    requires ValidModel(m)
    ensures m.config.minRegimeSamples >= 1
  {
  }

  lemma EmptyHasNoValidDays(features: seq<EntryFeatures>)
    ensures ValidDays([], features) == []
  {
  }

  ghost predicate Sane(days: seq<IvDay>) {
    forall i | 0 <= i < |days| :: days[i].iv > 0.0 && days[i].upMax >= 0.0 && days[i].downMax >= 0.0
  }

  lemma {:induction false} FeatureIsMember(features: seq<EntryFeatures>, day: int)
    ensures FeatureOf(features, day).Some? ==> FeatureOf(features, day).value in features
  {
    if features != [] { FeatureIsMember(features[..|features| - 1], day); }
  }

  lemma {:induction false} ValidDaysAreSane(labels: seq<ExcursionLabel>, features: seq<EntryFeatures>)
    requires ValidLabels(labels) && ValidFeatures(features)
    ensures Sane(ValidDays(labels, features))
  {
    if labels != [] {
      ValidDaysAreSane(labels[..|labels| - 1], features);
      FeatureIsMember(features, labels[|labels| - 1].day);
      assert labels[|labels| - 1] in labels;
    }
  }

  /** The last features of the day carry a volatility that may be used. */
  predicate HasVolatility(features: seq<EntryFeatures>, day: int) {
    var f := FeatureOf(features, day);
    f != None && f.value.atmIvValid && f.value.atmIv != None
  }

  /** The valid days are the labels of days with a volatility, each as it was given and as often. */
  lemma {:induction false} ValidDaysAreLabels(labels: seq<ExcursionLabel>, features: seq<EntryFeatures>, l: ExcursionLabel)
    ensures multiset(LabelsOf(ValidDays(labels, features)))[l] == if HasVolatility(features, l.day) then multiset(labels)[l] else 0
  {
    if labels != [] {
      var front, last := labels[..|labels| - 1], labels[|labels| - 1];
      ValidDaysAreLabels(front, features, l);
      assert labels == front + [last];
      var days, before := ValidDays(labels, features), ValidDays(front, features);
      hide FeatureOf;
      if HasVolatility(features, last.day) {
        assert LabelsOf(days) == LabelsOf(before) + [last];
      } else {
        assert days == before;
      }
    }
  }

  lemma SaneDaysHaveValidLabels(days: seq<IvDay>)
    requires Sane(days)
    ensures ValidLabels(LabelsOf(days))
  {
  }

  lemma ValidDaysAreValid(labels: seq<ExcursionLabel>, features: seq<EntryFeatures>)
    requires ValidLabels(labels) && ValidFeatures(features)
    ensures Sane(ValidDays(labels, features)) && ValidLabels(LabelsOf(ValidDays(labels, features)))
  {
    ValidDaysAreSane(labels, features);
    SaneDaysHaveValidLabels(ValidDays(labels, features));
  }

  lemma {:induction false} BucketIsSane(days: seq<IvDay>, boundaries: seq<real>, k: nat)
    requires Sane(days)
    ensures Sane(Bucket(days, boundaries, k))
  {
    if days != [] { BucketIsSane(days[..|days| - 1], boundaries, k); }
  }

  lemma BucketIsValid(days: seq<IvDay>, boundaries: seq<real>, k: nat)
    requires Sane(days)
    ensures ValidLabels(LabelsOf(Bucket(days, boundaries, k)))
  {
    BucketIsSane(days, boundaries, k);
    SaneDaysHaveValidLabels(Bucket(days, boundaries, k));
  }

  lemma BoundariesExist(days: seq<IvDay>)
    requires Sane(days) && days != []
    ensures forall i: nat | i < |REGIME_CUTS| :: BoundaryAt(days, i).Ok?
  {
  }

  ghost predicate NonDecreasing(xs: seq<real>) { forall i, j | 0 <= i < j < |xs| :: xs[i] <= xs[j] }

  /** Counting the boundaries at most `x` is bisecting them: the count splits a sorted sequence at `x`. */
  lemma {:induction false} CountIsBisection(xs: seq<real>, x: real)
    requires NonDecreasing(xs)
    ensures forall i | 0 <= i < |xs| :: xs[i] <= x <==> i < CountLe(xs, x)
  {
    if xs != [] {
      var front := xs[..|xs| - 1];
      CountIsBisection(front, x);
      assert forall i | 0 <= i < |front| :: xs[i] == front[i] && xs[i] <= xs[|xs| - 1];
    }
  }

  /** The boundaries of a fitted model are sorted, so a volatility falls into exactly one quartile: its
      boundaries from below are at most the volatility, those above exceed it. */
  lemma RegimeIsBisection(days: seq<IvDay>, boundaries: seq<real>, iv: real)
    requires IsBoundaries(days, boundaries)
    ensures NonDecreasing(boundaries)
    ensures var k := Regime(boundaries, iv);
      forall i | 0 <= i < |boundaries| :: boundaries[i] <= iv <==> i < k
  {
    hide QuantileHigher, CountLe;
    forall i, j | 0 <= i < j < |boundaries| ensures boundaries[i] <= boundaries[j] {
      assert BoundaryAt(days, i) == Ok(boundaries[i]) && BoundaryAt(days, j) == Ok(boundaries[j]);
      QuantileGrows(Ivs(days), REGIME_CUTS[i], REGIME_CUTS[j]);
    }
    CountIsBisection(boundaries, iv);
  }

  function RecommendIv(m: IvModel, features: EntryFeatures, quantile: real): Result<Option<TailDistances>, ModelError> {
    if m.boundaries == [] then Err(NotFitted)
    else if quantile !in m.base.config.quantiles then Err(QuantileNotFitted)
    else if !features.atmIvValid || features.atmIv.None? then Ok(None)
    else
      var k := Regime(m.boundaries, features.atmIv.value);
      var name := if k < REGIMES then REGIME_NAMES[k] else "";
      if Trusted(m, k, quantile) then
        Ok(Some(Distances(m.base.config, m.regimeModels[k].calibrations[quantile], features.day, name + "_BUFFERED", quantile)))
      else if !m.base.config.allowFallback || m.fallback.None? then Ok(None)
      else
        match Recommend(m.fallback.value, features, quantile)
        case Ok(Some(d)) => Ok(Some(d.(regime := name + "_BUFFERED_FALLBACK")))
        case other => other
  }

  /** The quartile has its own model and that model reached the target. */
  predicate Trusted(m: IvModel, k: nat, quantile: real) {
    && k in m.regimeModels && quantile in m.regimeModels[k].calibrations
    && m.regimeModels[k].calibrations[quantile].calibrated
  }

  lemma {:induction false} BucketsPartition(days: seq<IvDay>, boundaries: seq<real>)
    requires |boundaries| + 1 == REGIMES
    ensures |Bucket(days, boundaries, 0)| + |Bucket(days, boundaries, 1)|
          + |Bucket(days, boundaries, 2)| + |Bucket(days, boundaries, 3)| == |days|
  {
    if days != [] { BucketsPartition(days[..|days| - 1], boundaries); }
  }

  /** Every valid training day is counted in exactly one quartile. */
  lemma RegimeCountsPartition(m: IvModel, labels: seq<ExcursionLabel>, features: seq<EntryFeatures>)
    requires IvFittedOn(m, labels, features)
    ensures m.regimeCounts[0] + m.regimeCounts[1] + m.regimeCounts[2] + m.regimeCounts[3] == |ValidDays(labels, features)|
  {
    hide FittedOn, Unfitted, ValidDays, Bucket, BoundaryAt;
    BucketsPartition(ValidDays(labels, features), m.boundaries);
  }

  /** The training days behind a recommendation: those of today's quartile when that is trusted, and all
      valid ones under the fallback. */
  function IvWindow(m: IvModel, labels: seq<ExcursionLabel>, features: seq<EntryFeatures>, today: EntryFeatures,
                    quantile: real): seq<ExcursionLabel>
    requires today.atmIv.Some?
  {
    var days, k := ValidDays(labels, features), Regime(m.boundaries, today.atmIv.value);
    if Trusted(m, k, quantile) then LabelsOf(Bucket(days, m.boundaries, k)) else LabelsOf(days)
  }

  /** A recommendation covers its target on the window behind it. */
  lemma IvRecommendationCovers(m: IvModel, labels: seq<ExcursionLabel>, features: seq<EntryFeatures>,
                               today: EntryFeatures, quantile: real)
    requires IvFittedOn(m, labels, features)
    requires RecommendIv(m, today, quantile).Ok? && RecommendIv(m, today, quantile).value.Some?
    ensures var d, window := RecommendIv(m, today, quantile).value.value, IvWindow(m, labels, features, today, quantile);
      && d.up > 0.0 && d.down > 0.0 && window != []
      && Reaches(CoveredDays(window, d.up, d.down), TargetFor(m.base, quantile), |window|)
  {
    hide CoveredDays, Calibrates, ValidCalibration, ValidDays, Bucket, BoundaryAt, Regime, BufferGrid;
    var days := ValidDays(labels, features);
    var k := Regime(m.boundaries, today.atmIv.value);
    if Trusted(m, k, quantile) {
      CalibratedCoverage(m.regimeModels[k], LabelsOf(Bucket(days, m.boundaries, k)), quantile, today.day,
                         RecommendIv(m, today, quantile).value.value.regime);
    } else {
      RecommendationCoversTraining(m.fallback.value, LabelsOf(days), today, quantile);
    }
  }

  /** The widest corridor of the grid around the quantiles of these days reaches the target on them. */
  ghost predicate WidestReaches(m: BufferModel, labels: seq<ExcursionLabel>, quantile: real)
    requires ValidModel(m)
  {
    var grid := BufferGrid(m.bufferMax, m.bufferStep).value;
    var up, down := QuantileHigher(Ups(labels), quantile), QuantileHigher(Downs(labels), quantile);
    up.Ok? && down.Ok?
    && Reaches(CoveredDays(labels, up.value + grid[|grid| - 1], down.value + grid[|grid| - 1]), TargetFor(m, quantile), |labels|)
  }

  lemma CalibratedWhenWidestReaches(m: BufferModel, base: BufferModel, labels: seq<ExcursionLabel>, quantile: real)
    requires FittedOn(m, labels) && Unfitted(m, base) && quantile in m.config.quantiles
    ensures quantile in m.calibrations && (m.calibrations[quantile].calibrated <==> WidestReaches(base, labels, quantile))
  {
    hide BufferGrid, ValidCalibration, IsLeastFeasible, Reaches, CoveredDays, QuantileHigher;
    assert quantile in m.calibrations;
    CalibratedExactlyWhenWidestReaches(labels, quantile, TargetFor(m, quantile),
                                       BufferGrid(m.bufferMax, m.bufferStep).value, m.calibrations[quantile]);
  }

  /** The days of the volatility's own quartile. */
  function QuartileDays(m: IvModel, labels: seq<ExcursionLabel>, features: seq<EntryFeatures>, iv: real): seq<ExcursionLabel> {
    LabelsOf(Bucket(ValidDays(labels, features), m.boundaries, Regime(m.boundaries, iv)))
  }

  /** A quartile is trusted exactly when it has enough days and its widest corridor reaches the target on them. */
  lemma TrustedExactly(m: IvModel, labels: seq<ExcursionLabel>, features: seq<EntryFeatures>, iv: real, quantile: real)
    requires IvFittedOn(m, labels, features) && quantile in m.base.config.quantiles && ValidModel(m.base)
    ensures var days := QuartileDays(m, labels, features, iv);
      Trusted(m, Regime(m.boundaries, iv), quantile)
      <==> |days| >= m.base.config.minRegimeSamples && WidestReaches(m.base, days, quantile)
  {
    hide FittedOn, ValidDays, Bucket, BoundaryAt, WidestReaches, ValidModel;
    var k := Regime(m.boundaries, iv);
    assert k < REGIMES;
    if k in m.regimeModels {
      CalibratedWhenWidestReaches(m.regimeModels[k], m.base, QuartileDays(m, labels, features, iv), quantile);
    }
  }

  /** The model abstains exactly on a day without a usable volatility, and where neither answers: today's quartile is
      not trusted, and the fallback is switched off or its widest corridor misses the target on all valid days. */
  lemma IvAbstainsExactly(m: IvModel, labels: seq<ExcursionLabel>, features: seq<EntryFeatures>, today: EntryFeatures,
                          quantile: real)
    requires IvFittedOn(m, labels, features) && ValidModel(m.base)
    ensures RecommendIv(m, today, quantile).Ok? <==> quantile in m.base.config.quantiles
    ensures RecommendIv(m, today, quantile).Err? ==> RecommendIv(m, today, quantile).error == QuantileNotFitted
    ensures RecommendIv(m, today, quantile) == Ok(None) <==>
      quantile in m.base.config.quantiles && (!today.atmIvValid || today.atmIv.None? ||
        (var own := QuartileDays(m, labels, features, today.atmIv.value);
         && !(|own| >= m.base.config.minRegimeSamples && WidestReaches(m.base, own, quantile))
         && !(m.base.config.allowFallback && WidestReaches(m.base, LabelsOf(ValidDays(labels, features)), quantile))))
  {
    assert |m.boundaries| == |REGIME_CUTS|;
    if quantile in m.base.config.quantiles && today.atmIvValid && today.atmIv.Some? {
      TrustedExactly(m, labels, features, today.atmIv.value, quantile);
      FallbackAnswers(m, labels, features, today, quantile);
    }
    hide IvFittedOn, ValidDays, Bucket, Regime, WidestReaches, QuartileDays, ValidModel, Recommend, Distances;
  }

  lemma FallbackAnswers(m: IvModel, labels: seq<ExcursionLabel>, features: seq<EntryFeatures>, today: EntryFeatures,
                        quantile: real)
    requires IvFittedOn(m, labels, features) && ValidModel(m.base) && quantile in m.base.config.quantiles
    ensures m.fallback.Some? && Recommend(m.fallback.value, today, quantile).Ok?
    ensures Recommend(m.fallback.value, today, quantile).value.Some? <==>
      WidestReaches(m.base, LabelsOf(ValidDays(labels, features)), quantile)
  {
    hide FittedOn, ValidDays, Bucket, BoundaryAt, WidestReaches, ValidModel;
    CalibratedWhenWidestReaches(m.fallback.value, m.base, LabelsOf(ValidDays(labels, features)), quantile);
  }

  /** What it recommends otherwise: the tightest distances of the model that answers, named after today's quartile. */
  lemma IvRecommendationIsTightest(m: IvModel, labels: seq<ExcursionLabel>, features: seq<EntryFeatures>,
                                   today: EntryFeatures, quantile: real)
    requires IvFittedOn(m, labels, features)
    requires RecommendIv(m, today, quantile).Ok? && RecommendIv(m, today, quantile).value.Some?
    ensures var d, k := RecommendIv(m, today, quantile).value.value, Regime(m.boundaries, today.atmIv.value);
      var own := Trusted(m, k, quantile);
      var c := (if own then m.regimeModels[k] else m.fallback.value).calibrations[quantile];
      && IsDistance(d.up, c.baseUp + c.bufferUp, m.base.config.minDistance)
      && IsDistance(d.down, c.baseDown + c.bufferDown, m.base.config.minDistance)
      && d.day == today.day && d.quantile == quantile && k < 4
      && d.regime == ["IV_Q1", "IV_Q2", "IV_Q3", "IV_Q4"][k] + if own then "_BUFFERED" else "_BUFFERED_FALLBACK"
  {
    hide ValidDays, Bucket, BoundaryAt, Regime, FittedOn;
    var k := Regime(m.boundaries, today.atmIv.value);
    if Trusted(m, k, quantile) {
      DistancesOf(m.base.config, m.regimeModels[k].calibrations[quantile], today.day,
                  RecommendIv(m, today, quantile).value.value.regime, quantile);
    } else {
      DistancesOf(m.fallback.value.config, m.fallback.value.calibrations[quantile], today.day, "BUFFERED", quantile);
    }
  }
}
