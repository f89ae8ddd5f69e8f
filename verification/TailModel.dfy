/** Buffer-calibrated tail models: quantile distances plus the least buffers that cover the target. */
module TailModel {
  import opened Common
  import opened EmpiricalQuantile
  import opened BufferSearch

  datatype ExcursionLabel = ExcursionLabel(day: int, upMax: real, downMax: real)

  datatype EntryFeatures = EntryFeatures(day: int, atmIv: Option<real>, atmIvValid: bool)

  datatype TailDistances = TailDistances(day: int, down: real, up: real, regime: string, quantile: real)

  datatype Config = Config(
    quantiles: seq<real>, minRegimeSamples: nat, allowFallback: bool, minDistance: real)

  datatype ModelError = NoTrainingLabels | NoValidIv | NotFitted | QuantileNotFitted

  datatype BufferCalibration = BufferCalibration(
    quantile: real, target: real, baseUp: real, baseDown: real,
    bufferUp: real, bufferDown: real, calibrated: bool, trainCoverage: real)

  datatype BufferModel = BufferModel(
    config: Config, targetCoverage: Option<real>, bufferMax: real, bufferStep: real,
    calibrations: map<real, BufferCalibration>, trainDays: nat)

  const REGIMES: nat := 4
  const REGIME_NAMES: seq<string> := ["IV_Q1", "IV_Q2", "IV_Q3", "IV_Q4"]
  const REGIME_CUTS: seq<real> := [0.25, 0.5, 0.75]

  // What the frozen dataclasses check when they are built.

  ghost predicate ValidLabels(labels: seq<ExcursionLabel>) {
    forall l | l in labels :: l.upMax >= 0.0 && l.downMax >= 0.0
  }

  ghost predicate ValidFeatures(features: seq<EntryFeatures>) {
    forall f | f in features && f.atmIv.Some? :: f.atmIv.value > 0.0
  }

  ghost predicate ValidConfig(c: Config) {
    && c.quantiles != []
    && (forall q | q in c.quantiles :: 0.0 < q < 1.0)
    && c.minRegimeSamples >= 1
    && c.minDistance > 0.0
  }

  ghost predicate ValidModel(m: BufferModel) {
    && ValidConfig(m.config)
    && m.bufferMax >= 0.0 && m.bufferStep > 0.0
    && (m.targetCoverage.Some? ==> 0.0 < m.targetCoverage.value < 1.0)
  }

  ghost predicate ValidCalibration(c: BufferCalibration) {
    && 0.0 < c.quantile < 1.0 && 0.0 < c.target < 1.0
    && c.baseUp >= 0.0 && c.baseDown >= 0.0 && c.bufferUp >= 0.0 && c.bufferDown >= 0.0
    && 0.0 <= c.trainCoverage <= 1.0
    && (c.calibrated ==> c.trainCoverage >= c.target)
  }

  function Ups(labels: seq<ExcursionLabel>): (r: seq<real>)
    ensures |r| == |labels|
  {
    seq(|labels|, i requires 0 <= i < |labels| => labels[i].upMax)
  }

  function Downs(labels: seq<ExcursionLabel>): (r: seq<real>)
    ensures |r| == |labels|
  {
    seq(|labels|, i requires 0 <= i < |labels| => labels[i].downMax)
  }

  function Excess(xs: seq<real>, base: real): (r: seq<real>)
    ensures |r| == |xs|
  {
    seq(|xs|, i requires 0 <= i < |xs| => xs[i] - base)
  }

  /** The days whose excursions stay inside the corridor. */
  function CoveredDays(labels: seq<ExcursionLabel>, up: real, down: real): (c: nat)
    ensures c <= |labels|
  {
    if labels == [] then 0
    else
      var last := labels[|labels| - 1];
      CoveredDays(labels[..|labels| - 1], up, down) + if last.upMax <= up && last.downMax <= down then 1 else 0
  }

  lemma {:induction false} CoveredDaysIsMonotone(labels: seq<ExcursionLabel>, u0: real, d0: real, u1: real, d1: real)
    requires u0 <= u1 && d0 <= d1
    ensures CoveredDays(labels, u0, d0) <= CoveredDays(labels, u1, d1)
  {
    if labels != [] { CoveredDaysIsMonotone(labels[..|labels| - 1], u0, d0, u1, d1); }
  }

  lemma {:induction false} CoveredExcess(labels: seq<ExcursionLabel>, baseUp: real, baseDown: real, bu: real, bd: real)
    ensures Covered(Excess(Ups(labels), baseUp), Excess(Downs(labels), baseDown), bu, bd)
         == CoveredDays(labels, baseUp + bu, baseDown + bd)
  {
    if labels != [] {
      var n := |labels| - 1;
      CoveredExcess(labels[..n], baseUp, baseDown, bu, bd);
      assert Excess(Ups(labels), baseUp)[..n] == Excess(Ups(labels[..n]), baseUp);
      assert Excess(Downs(labels), baseDown)[..n] == Excess(Downs(labels[..n]), baseDown);
    }
  }

  /** At most the days missed on one side or on the other are missed jointly. */
  lemma {:induction false} JointCoverageBound(labels: seq<ExcursionLabel>, up: real, down: real)
    ensures CoveredDays(labels, up, down) + |labels| >= CountLe(Ups(labels), up) + CountLe(Downs(labels), down)
  {
    if labels != [] {
      var n := |labels| - 1;
      JointCoverageBound(labels[..n], up, down);
      assert Ups(labels)[..n] == Ups(labels[..n]) && Downs(labels)[..n] == Downs(labels[..n]);
    }
  }

  ghost predicate IsBase(xs: seq<real>, quantile: real, base: real) {
    QuantileHigher(xs, quantile) == Ok(base)
  }

  /** `c` is the calibration of one quantile on one window, over every pair of the grid. */
  ghost predicate Calibrates(labels: seq<ExcursionLabel>, quantile: real, target: real, grid: seq<real>,
                             c: BufferCalibration)
    requires labels != [] && grid != []
  {
    var top := grid[|grid| - 1];
    var up, down := Excess(Ups(labels), c.baseUp), Excess(Downs(labels), c.baseDown);
    && c.quantile == quantile && c.target == target
    && IsBase(Ups(labels), quantile, c.baseUp) && IsBase(Downs(labels), quantile, c.baseDown)
    && (c.calibrated ==> IsLeastFeasible(up, down, target, grid,
                                         Some(Choice(c.bufferUp, c.bufferDown, c.trainCoverage))))
    && (!c.calibrated ==>
          && IsLeastFeasible(up, down, target, grid, None)
          && c.bufferUp == top && c.bufferDown == top && c.trainCoverage == Coverage(up, down, top, top))
  }

  method CalibrateQuantile(labels: seq<ExcursionLabel>, quantile: real, target: real, grid: seq<real>)
      returns (c: BufferCalibration)
    requires labels != [] && ValidLabels(labels)
    requires 0.0 < quantile < 1.0 && 0.0 < target < 1.0
    requires grid != [] && grid[0] == 0.0 && Increasing(grid)
    ensures Calibrates(labels, quantile, target, grid, c)
    ensures ValidCalibration(c)
  {
    BasesExist(labels, quantile);
    var baseUp := QuantileHigher(Ups(labels), quantile).value;
    var baseDown := QuantileHigher(Downs(labels), quantile).value;
    var up, down := Excess(Ups(labels), baseUp), Excess(Downs(labels), baseDown);
    var chosen := CalibrateSideBuffers(up, down, target, grid);
    assert forall i | 0 <= i < |grid| :: grid[i] >= 0.0;
    match chosen
    case None =>
      var top := grid[|grid| - 1];
      c := BufferCalibration(quantile, target, baseUp, baseDown, top, top, false, Coverage(up, down, top, top));
    case Some(best) =>
      c := BufferCalibration(quantile, target, baseUp, baseDown, best.up, best.down, true, best.coverage);
  }

  lemma BasesExist(labels: seq<ExcursionLabel>, quantile: real)
    requires labels != [] && ValidLabels(labels) && 0.0 < quantile < 1.0
    ensures QuantileHigher(Ups(labels), quantile).Ok? && QuantileHigher(Ups(labels), quantile).value >= 0.0
    ensures QuantileHigher(Downs(labels), quantile).Ok? && QuantileHigher(Downs(labels), quantile).value >= 0.0
  {
    forall i | 0 <= i < |labels| ensures Ups(labels)[i] >= 0.0 && Downs(labels)[i] >= 0.0 {
      assert labels[i] in labels;
    }
  }

  /** The share `target` of `n` days. */
  ghost predicate Reaches(covered: nat, target: real, n: nat) {
    covered as real >= target * n as real
  }

  lemma FeasibleReaches(up: seq<real>, down: seq<real>, target: real, bufferUp: real, bufferDown: real)
    requires |up| == |down| > 0
    ensures Feasible(up, down, target, bufferUp, bufferDown)
       <==> Reaches(Covered(up, down, bufferUp, bufferDown), target, |up|)
  {
    QuotientBelow(Covered(up, down, bufferUp, bufferDown) as real, |up| as real, target);
  }

  /** Two one-sided shares q leave a joint share of at least 2q - 1. */
  lemma JointShare(covered: nat, up: nat, down: nat, n: nat, quantile: real, target: real)
    requires n > 0 && covered + n >= up + down && target <= 2.0 * quantile - 1.0
    requires Reaches(up, quantile, n) && Reaches(down, quantile, n)
    ensures Reaches(covered, target, n)
  {
    ScaledOrder(target, 2.0 * quantile - 1.0, n as real);
    assert (2.0 * quantile - 1.0) * n as real == 2.0 * (quantile * n as real) - n as real;
  }

  lemma OneSidedShare(xs: seq<real>, quantile: real, base: real)
    requires IsBase(xs, quantile, base)
    ensures Reaches(CountLe(xs, base), quantile, |xs|)
  {
    QuantileIsLeastCover(xs, quantile, base);
  }

  lemma BasesCoverJointly(labels: seq<ExcursionLabel>, quantile: real, target: real, baseUp: real, baseDown: real)
    requires labels != [] && target <= 2.0 * quantile - 1.0
    requires IsBase(Ups(labels), quantile, baseUp) && IsBase(Downs(labels), quantile, baseDown)
    ensures Reaches(CoveredDays(labels, baseUp, baseDown), target, |labels|)
  {
    hide *;
    OneSidedShare(Ups(labels), quantile, baseUp);
    OneSidedShare(Downs(labels), quantile, baseDown);
    JointCoverageBound(labels, baseUp, baseDown);
    JointShare(CoveredDays(labels, baseUp, baseDown), CountLe(Ups(labels), baseUp), CountLe(Downs(labels), baseDown),
               |labels|, quantile, target);
  }

  /** Covering the target on each side alone covers it jointly once the target is at most 2q - 1. */
  lemma LowTargetNeedsNoBuffer(labels: seq<ExcursionLabel>, quantile: real, target: real, grid: seq<real>,
                               c: BufferCalibration)
    requires labels != [] && grid != [] && grid[0] == 0.0 && Increasing(grid)
    requires Calibrates(labels, quantile, target, grid, c)
    requires target <= 2.0 * quantile - 1.0
    ensures c.calibrated && c.bufferUp == 0.0 && c.bufferDown == 0.0
  {
    hide IsBase, IsLeastFeasible, Feasible, Reaches, Covered, CoveredDays, Coverage, Excess, Ups, Downs;
    var up, down := Excess(Ups(labels), c.baseUp), Excess(Downs(labels), c.baseDown);
    BasesCoverJointly(labels, quantile, target, c.baseUp, c.baseDown);
    CoveredExcess(labels, c.baseUp, c.baseDown, 0.0, 0.0);
    FeasibleReaches(up, down, target, 0.0, 0.0);
    ZeroWinsWhenFeasible(up, down, target, grid, Outcome(c));
  }

  /** What the grid search returned for this calibration. */
  function Outcome(c: BufferCalibration): Option<Choice> {
    if c.calibrated then Some(Choice(c.bufferUp, c.bufferDown, c.trainCoverage)) else None
  }

  lemma CalibrationCovers(labels: seq<ExcursionLabel>, quantile: real, target: real, grid: seq<real>, c: BufferCalibration)
    requires labels != [] && grid != [] && Calibrates(labels, quantile, target, grid, c) && c.calibrated
    ensures Reaches(CoveredDays(labels, c.baseUp + c.bufferUp, c.baseDown + c.bufferDown), target, |labels|)
  {
    var up, down := Excess(Ups(labels), c.baseUp), Excess(Downs(labels), c.baseDown);
    CoveredExcess(labels, c.baseUp, c.baseDown, c.bufferUp, c.bufferDown);
    FeasibleReaches(up, down, target, c.bufferUp, c.bufferDown);
  }

  /** The window is calibrated exactly when its widest corridor reaches the target. */
  lemma CalibratedExactlyWhenWidestReaches(labels: seq<ExcursionLabel>, quantile: real, target: real, grid: seq<real>,
                                           c: BufferCalibration)
    requires labels != [] && grid != [] && Increasing(grid) && Calibrates(labels, quantile, target, grid, c)
    ensures var top := grid[|grid| - 1];
      c.calibrated <==> Reaches(CoveredDays(labels, c.baseUp + top, c.baseDown + top), target, |labels|)
  {
    hide IsBase, IsLeastFeasible, Feasible, Reaches, Covered, CoveredDays, Coverage, Excess, Ups, Downs;
    var top := grid[|grid| - 1];
    var up, down := Excess(Ups(labels), c.baseUp), Excess(Downs(labels), c.baseDown);
    NoneExactlyWhenMaximumMisses(up, down, target, grid, Outcome(c));
    CoveredExcess(labels, c.baseUp, c.baseDown, top, top);
    FeasibleReaches(up, down, target, top, top);
  }

  function TargetFor(m: BufferModel, quantile: real): real {
    if m.targetCoverage.Some? then m.targetCoverage.value else quantile
  }

  ghost predicate Unfitted(m: BufferModel, base: BufferModel) {
    && m.config == base.config && m.targetCoverage == base.targetCoverage
    && m.bufferMax == base.bufferMax && m.bufferStep == base.bufferStep
  }

  /** `m` holds exactly the calibrations of its configured quantiles on this window. */
  ghost predicate FittedOn(m: BufferModel, labels: seq<ExcursionLabel>) {
    && labels != [] && ValidModel(m)
    && BufferGrid(m.bufferMax, m.bufferStep).Ok?
    && m.trainDays == |labels|
    && m.calibrations.Keys == (set q | q in m.config.quantiles)
    && (forall q | q in m.calibrations ::
          && Calibrates(labels, q, TargetFor(m, q), BufferGrid(m.bufferMax, m.bufferStep).value, m.calibrations[q])
          && ValidCalibration(m.calibrations[q]))
  }

  method Fit(base: BufferModel, labels: seq<ExcursionLabel>) returns (r: Result<BufferModel, ModelError>)
    requires ValidModel(base) && ValidLabels(labels)
    ensures r.Ok? <==> labels != []
    ensures r.Err? ==> r.error == NoTrainingLabels
    ensures r.Ok? ==> FittedOn(r.value, labels) && Unfitted(r.value, base)
  {
    hide Calibrates, ValidCalibration;
    if labels == [] { return Err(NoTrainingLabels); }
    var grid := BufferGrid(base.bufferMax, base.bufferStep).value;
    var calibrations: map<real, BufferCalibration> := map[];
    var quantiles := base.config.quantiles;
    for k := 0 to |quantiles|
      invariant calibrations.Keys == set i | 0 <= i < k :: quantiles[i]
      invariant forall q | q in calibrations ::
        && Calibrates(labels, q, TargetFor(base, q), grid, calibrations[q])
        && ValidCalibration(calibrations[q])
    {
      var q := quantiles[k];
      assert q in quantiles;
      var c := CalibrateQuantile(labels, q, TargetFor(base, q), grid);
      calibrations := calibrations[q := c];
    }
    assert forall q :: q in quantiles ==> exists i :: 0 <= i < |quantiles| && quantiles[i] == q;
    r := Ok(base.(calibrations := calibrations, trainDays := |labels|));
  }

  /** The buffers of a fitted quantile are multiples of the step up to the maximum, and of all such pairs that
      reach the target on the training days they are the least: in total, and then upward. Without a pair
      that reaches it the quantile is not calibrated. */
  lemma FittedBuffersAreLeast(m: BufferModel, labels: seq<ExcursionLabel>, quantile: real, up: real, down: real)
    requires FittedOn(m, labels) && quantile in m.calibrations
    requires 0.0 <= up <= m.bufferMax && 0.0 <= down <= m.bufferMax
    requires IsMultiple(up, m.bufferStep) && IsMultiple(down, m.bufferStep)
    ensures var c := m.calibrations[quantile];
      && 0.0 <= c.bufferUp <= m.bufferMax && IsMultiple(c.bufferUp, m.bufferStep)
      && 0.0 <= c.bufferDown <= m.bufferMax && IsMultiple(c.bufferDown, m.bufferStep)
      && (Reaches(CoveredDays(labels, c.baseUp + up, c.baseDown + down), TargetFor(m, quantile), |labels|) ==>
            c.calibrated && !KeyLess(up, down, c.bufferUp, c.bufferDown))
  {
    hide BufferGrid, IsMultiple, ValidCalibration, CoveredDays, Covered, Coverage, Feasible, Reaches, Excess, Ups, Downs,
         IsBase, TargetFor, KeyLess;
    var c, grid := m.calibrations[quantile], BufferGrid(m.bufferMax, m.bufferStep).value;
    GridIsAllMultiples(m.bufferMax, m.bufferStep, up);
    GridIsAllMultiples(m.bufferMax, m.bufferStep, down);
    GridIsAllMultiples(m.bufferMax, m.bufferStep, c.bufferUp);
    GridIsAllMultiples(m.bufferMax, m.bufferStep, c.bufferDown);
    CoveredExcess(labels, c.baseUp, c.baseDown, up, down);
    FeasibleReaches(Excess(Ups(labels), c.baseUp), Excess(Downs(labels), c.baseDown), TargetFor(m, quantile), up, down);
  }

  function Recommend(m: BufferModel, features: EntryFeatures, quantile: real)
      : (r: Result<Option<TailDistances>, ModelError>)
  {
    if m.calibrations == map[] then Err(NotFitted)
    else if quantile !in m.calibrations then Err(QuantileNotFitted)
    else
      var c := m.calibrations[quantile];
      if !c.calibrated then Ok(None)
      else Ok(Some(Distances(m.config, c, features.day, "BUFFERED", quantile)))
  }

  function Distances(config: Config, c: BufferCalibration, day: int, regime: string, quantile: real): TailDistances {
    TailDistances(
      day,
      MaxReal(c.baseDown + c.bufferDown, config.minDistance),
      MaxReal(c.baseUp + c.bufferUp, config.minDistance),
      regime,
      quantile)
  }

  lemma CalibratedCoverage(m: BufferModel, labels: seq<ExcursionLabel>, quantile: real, day: int, regime: string)
    requires FittedOn(m, labels) && quantile in m.calibrations && m.calibrations[quantile].calibrated
    ensures var d := Distances(m.config, m.calibrations[quantile], day, regime, quantile);
      && d.up > 0.0 && d.down > 0.0
      && Reaches(CoveredDays(labels, d.up, d.down), TargetFor(m, quantile), |labels|)
  {
    hide BufferGrid, Calibrates, CoveredDays, ValidCalibration;
    var c := m.calibrations[quantile];
    var d := Distances(m.config, c, day, regime, quantile);
    CalibrationCovers(labels, quantile, TargetFor(m, quantile), BufferGrid(m.bufferMax, m.bufferStep).value, c);
    CoveredDaysIsMonotone(labels, c.baseUp + c.bufferUp, c.baseDown + c.bufferDown, d.up, d.down);
  }

  /** A fitted model that does not abstain covers its target on the days it was trained on. */
  lemma RecommendationCoversTraining(m: BufferModel, labels: seq<ExcursionLabel>, features: EntryFeatures, quantile: real)
    requires FittedOn(m, labels) && Recommend(m, features, quantile).Ok?
    requires Recommend(m, features, quantile).value.Some?
    ensures var d := Recommend(m, features, quantile).value.value;
      && d.up > 0.0 && d.down > 0.0 && d.day == features.day
      && Reaches(CoveredDays(labels, d.up, d.down), TargetFor(m, quantile), |labels|)
  {
    CalibratedCoverage(m, labels, quantile, features.day, "BUFFERED");
  }

  /** The least distance that an empirical quantile and its buffer allow, but never below the minimum. */
  ghost predicate IsDistance(distance: real, needed: real, minimum: real) {
    distance >= needed && distance >= minimum && (distance == needed || distance == minimum)
  }

  lemma DistancesOf(config: Config, c: BufferCalibration, day: int, regime: string, quantile: real)
    ensures var d := Distances(config, c, day, regime, quantile);
      && IsDistance(d.up, c.baseUp + c.bufferUp, config.minDistance)
      && IsDistance(d.down, c.baseDown + c.bufferDown, config.minDistance)
      && d.day == day && d.regime == regime && d.quantile == quantile
  {
  }

  /** What is recommended: on either side the quantile of the training moves and its least buffer, or the minimum
      distance if that is larger. */
  lemma RecommendationIsTightest(m: BufferModel, labels: seq<ExcursionLabel>, features: EntryFeatures, quantile: real)
    requires FittedOn(m, labels) && Recommend(m, features, quantile).Ok?
    requires Recommend(m, features, quantile).value.Some?
    ensures var d, c := Recommend(m, features, quantile).value.value, m.calibrations[quantile];
      && IsBase(Ups(labels), quantile, c.baseUp) && IsBase(Downs(labels), quantile, c.baseDown)
      && IsDistance(d.up, c.baseUp + c.bufferUp, m.config.minDistance)
      && IsDistance(d.down, c.baseDown + c.bufferDown, m.config.minDistance)
      && d.day == features.day && d.regime == "BUFFERED" && d.quantile == quantile
  {
    hide IsLeastFeasible, BufferGrid, ValidCalibration;
    DistancesOf(m.config, m.calibrations[quantile], features.day, "BUFFERED", quantile);
  }

  /** A recommendation fails only before fitting and for a quantile that was not configured, and the target behind it
      is the common one if there is one and else the quantile itself. */
  lemma RecommendAnswers(m: BufferModel, labels: seq<ExcursionLabel>, features: EntryFeatures, quantile: real)
    requires FittedOn(m, labels)
    ensures Recommend(m, features, quantile).Ok? <==> quantile in m.config.quantiles
    ensures quantile in m.config.quantiles ==>
      m.calibrations[quantile].target == match m.targetCoverage case Some(common) => common case None => quantile
    ensures quantile !in m.config.quantiles ==> Recommend(m, features, quantile) == Err(QuantileNotFitted)
  {
    hide BufferGrid, ValidCalibration, IsLeastFeasible, IsBase;
    assert m.config.quantiles[0] in m.calibrations;
    assert quantile in m.calibrations <==> quantile in m.config.quantiles;
  }

  /** It abstains exactly when even the widest corridor of the grid misses the target. */
  lemma AbstainsExactlyWhenWidestMisses(m: BufferModel, labels: seq<ExcursionLabel>, features: EntryFeatures, quantile: real)
    requires FittedOn(m, labels) && Recommend(m, features, quantile).Ok?
    ensures var c, grid := m.calibrations[quantile], BufferGrid(m.bufferMax, m.bufferStep).value;
      var top := grid[|grid| - 1];
      Recommend(m, features, quantile).value.None?
      <==> !Reaches(CoveredDays(labels, c.baseUp + top, c.baseDown + top), TargetFor(m, quantile), |labels|)
  {
    hide BufferGrid, Calibrates, Reaches, ValidCalibration, CoveredDays;
    CalibratedExactlyWhenWidestReaches(
      labels, quantile, TargetFor(m, quantile), BufferGrid(m.bufferMax, m.bufferStep).value, m.calibrations[quantile]);
  }
}
