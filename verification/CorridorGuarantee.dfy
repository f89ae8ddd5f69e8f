/** From the calibrated buffers to the settled condor: the coverage guarantee along the whole chain. */
module CorridorGuarantee {
  import opened Common
  import opened RealizedExcursions
  import opened TailModel
  import opened TailModelIv
  import opened Strikes

  /** A day whose excursions were measured on some valid series, with tradable prices. */
  ghost predicate Measured(day: ExcursionResult) {
    && day.entryPrice > 0.0 && day.closePrice > 0.0
    && exists series, a, e ::
         && ValidSeries(series) && 0 <= a < e < |Observations(series)|
         && IsExcursion(Observations(series), a, e, day)
  }

  ghost predicate MeasuredOn(labels: seq<ExcursionLabel>, days: seq<ExcursionResult>) {
    && |labels| == |days|
    && forall i | 0 <= i < |days| ::
         Measured(days[i]) && labels[i].upMax == days[i].upMax && labels[i].downMax == days[i].downMax
  }

  predicate SettlesFlat(day: ExcursionResult, d: TailDistances) {
    var strikes := SelectDefault(day.entryPrice, d.up, d.down);
    strikes.Ok? && Settle(strikes.value, day.closePrice) == Ok(0.0)
  }

  function FlatDays(days: seq<ExcursionResult>, d: TailDistances): (c: nat) {
    if days == [] then 0
    else FlatDays(days[..|days| - 1], d) + if SettlesFlat(days[|days| - 1], d) then 1 else 0
  }

  function FlatIndices(days: seq<ExcursionResult>, d: TailDistances, n: nat): set<int>
    requires n <= |days|
  {
    set i | 0 <= i < n && SettlesFlat(days[i], d)
  }

  /** Flat days are counted once each. */
  lemma {:induction false} FlatDaysAreCounted(days: seq<ExcursionResult>, d: TailDistances)
    ensures FlatDays(days, d) == |FlatIndices(days, d, |days|)|
  {
    hide SettlesFlat;
    if days != [] {
      var n := |days| - 1;
      FlatDaysAreCounted(days[..n], d);
      assert FlatIndices(days[..n], d, n) == FlatIndices(days, d, n);
      assert FlatIndices(days, d, n + 1) == FlatIndices(days, d, n) + if SettlesFlat(days[n], d) then {n} else {};
    }
  }

  /** A measured day whose excursions lie within the distances settles flat. */
  lemma CoveredDaySettlesFlat(day: ExcursionResult, d: TailDistances)
    requires Measured(day) && day.upMax <= d.up && day.downMax <= d.down
    ensures SettlesFlat(day, d)
  {
    hide IsExcursion, Observations;
    var series, a, e :| ValidSeries(series) && 0 <= a < e < |Observations(series)|
                        && IsExcursion(Observations(series), a, e, day);
    CloseLiesInsideExcursions(series, a, e, day);
    CorridorSettlesFlat(day.entryPrice, day.closePrice, d.up, d.down);
  }

  lemma {:induction false} FlatDaysIncludeCovered(labels: seq<ExcursionLabel>, days: seq<ExcursionResult>, d: TailDistances)
    requires MeasuredOn(labels, days)
    ensures CoveredDays(labels, d.up, d.down) <= FlatDays(days, d)
  {
    hide Measured, SettlesFlat;
    if days != [] {
      var n := |days| - 1;
      FlatDaysIncludeCovered(labels[..n], days[..n], d);
      if labels[n].upMax <= d.up && labels[n].downMax <= d.down {
        CoveredDaySettlesFlat(days[n], d);
      }
    }
  }

  /** When the fitted model recommends distances, at least the target share of its training days would
      have settled with no loss at the strikes those distances select. */
  lemma RecommendedStrikesSettleFlat(m: BufferModel, labels: seq<ExcursionLabel>, days: seq<ExcursionResult>,
                                     features: EntryFeatures, quantile: real)
    requires FittedOn(m, labels) && MeasuredOn(labels, days)
    requires Recommend(m, features, quantile).Ok? && Recommend(m, features, quantile).value.Some?
    ensures Reaches(FlatDays(days, Recommend(m, features, quantile).value.value), TargetFor(m, quantile), |labels|)
  {
    hide FittedOn, MeasuredOn, CoveredDays, FlatDays;
    RecommendationCoversTraining(m, labels, features, quantile);
    FlatDaysIncludeCovered(labels, days, Recommend(m, features, quantile).value.value);
  }

  /** The same for the model per volatility quartile, on the days behind its recommendation: those of today's
      quartile when that is trusted, and otherwise all training days with a usable volatility. */
  lemma IvRecommendedStrikesSettleFlat(m: IvModel, labels: seq<ExcursionLabel>, features: seq<EntryFeatures>,
                                       days: seq<ExcursionResult>, today: EntryFeatures, quantile: real)
    requires IvFittedOn(m, labels, features)
    requires RecommendIv(m, today, quantile).Ok? && RecommendIv(m, today, quantile).value.Some?
    requires MeasuredOn(IvWindow(m, labels, features, today, quantile), days)
    ensures days != []
    ensures Reaches(FlatDays(days, RecommendIv(m, today, quantile).value.value), TargetFor(m.base, quantile), |days|)
  {
    IvRecommendationCovers(m, labels, features, today, quantile);
    var d, window := RecommendIv(m, today, quantile).value.value, IvWindow(m, labels, features, today, quantile);
    assert |window| == |days|;
    hide IvFittedOn, MeasuredOn, CoveredDays, FlatDays, IvWindow, RecommendIv, Reaches;
    FlatDaysIncludeCovered(window, days, d);
    MoreReaches(CoveredDays(window, d.up, d.down), FlatDays(days, d), TargetFor(m.base, quantile), |days|);
  }

  lemma MoreReaches(covered: nat, more: nat, target: real, n: nat)
    requires covered <= more && Reaches(covered, target, n)
    ensures Reaches(more, target, n)
  {
  }
}
