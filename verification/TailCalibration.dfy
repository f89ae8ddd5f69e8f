/** Marginal higher-quantiles plus one additive conformal buffer for both tails. */
module TailCalibration {
  import opened Common
  import opened EmpiricalQuantile

  datatype Sample = Sample(
    sampleId: string, groupId: string, eventType: string, regime: string, upward: real, downward: real)

  datatype Config = Config(target: real, minimumSamples: int, eventType: string, regime: string)

  datatype CalibrationError = DuplicateSampleId | InsufficientSamples | Quantile(error: QuantileError)

  datatype Corridor = Corridor(upwardTail: real, downwardTail: real, jointBuffer: real)

  const TOP_QUANTILE: real := 1.0 - 0.000000000001
  const TRILLION: nat := 1_000_000_000_000

  ghost predicate ValidConfig(c: Config) { 0.5 < c.target < 1.0 && c.minimumSamples >= 2 }

  ghost predicate ValidSamples(samples: seq<Sample>) {
    forall i | 0 <= i < |samples| :: samples[i].upward >= 0.0 && samples[i].downward >= 0.0
  }

  function Stratum(samples: seq<Sample>, config: Config): (r: seq<Sample>)
    ensures ValidSamples(samples) ==> ValidSamples(r)
  {
    if samples == [] then []
    else
      var n := |samples| - 1;
      Stratum(samples[..n], config)
      + if samples[n].eventType == config.eventType && samples[n].regime == config.regime then [samples[n]] else []
  }

  function Upward(samples: seq<Sample>): seq<real> {
    seq(|samples|, i requires 0 <= i < |samples| => samples[i].upward)
  }

  function Downward(samples: seq<Sample>): seq<real> {
    seq(|samples|, i requires 0 <= i < |samples| => samples[i].downward)
  }

  function Nonconformity(samples: seq<Sample>, up: real, down: real): (r: seq<real>)
    ensures |r| == |samples|
    ensures forall i | 0 <= i < |r| :: r[i] >= 0.0
  {
    seq(|samples|, i requires 0 <= i < |samples| =>
      MaxReal(0.0, MaxReal(samples[i].upward - up, samples[i].downward - down)))
  }

  /** ceil((n + 1) * target), the rank split conformal prediction asks for. */
  function ConformalRank(n: nat, target: real): int { Ceil((n + 1) as real * target) }

  function FiniteSampleQuantile(n: nat, target: real): real
    requires n > 0
  {
    MinReal(TOP_QUANTILE, ConformalRank(n, target) as real / n as real)
  }

  function Calibrate(samples: seq<Sample>, config: Config): (r: Result<Corridor, CalibrationError>)
    requires config.minimumSamples >= 2
  {
    var stratum := Stratum(samples, config);
    if exists i, j | 0 <= i < j < |samples| :: samples[i].sampleId == samples[j].sampleId then Err(DuplicateSampleId)
    else if |stratum| < config.minimumSamples then Err(InsufficientSamples)
    else
      var up := QuantileHigher(Upward(stratum), config.target);
      var down := QuantileHigher(Downward(stratum), config.target);
      if up.Err? then Err(Quantile(up.error))
      else if down.Err? then Err(Quantile(down.error))
      else
        var scores := Nonconformity(stratum, up.value, down.value);
        var buffer := QuantileHigher(scores, FiniteSampleQuantile(|stratum|, config.target));
        if buffer.Err? then Err(Quantile(buffer.error))
        else Ok(Corridor(up.value + buffer.value, down.value + buffer.value, buffer.value))
  }

  predicate OfStratum(x: Sample, config: Config) { x.eventType == config.eventType && x.regime == config.regime }

  /** The stratum has exactly the samples of the event type and regime, each as often as it was given. */
  lemma {:induction false} StratumIsItsSamples(samples: seq<Sample>, config: Config, x: Sample)
    ensures multiset(Stratum(samples, config))[x] == if OfStratum(x, config) then multiset(samples)[x] else 0
  {
    if samples != [] {
      var n := |samples| - 1;
      StratumIsItsSamples(samples[..n], config, x);
      assert samples == samples[..n] + [samples[n]];
    }
  }

  /** The errors of a calibration before its quantiles. */
  lemma CalibrationFails(samples: seq<Sample>, config: Config)
    requires config.minimumSamples >= 2
    ensures var r := Calibrate(samples, config);
      var distinct := forall i, j | 0 <= i < j < |samples| :: samples[i].sampleId != samples[j].sampleId;
      && (r == Err(DuplicateSampleId) <==> !distinct)
      && (r == Err(InsufficientSamples) <==> distinct && |Stratum(samples, config)| < config.minimumSamples)
  {
    hide QuantileHigher, FiniteSampleQuantile, Stratum, Upward, Downward, Nonconformity;
  }

  /** The samples inside both sides of a corridor at once. */
  function JointlyCovered(samples: seq<Sample>, up: real, down: real): (c: nat)
    ensures c <= |samples|
  {
    if samples == [] then 0
    else
      var n := |samples| - 1;
      JointlyCovered(samples[..n], up, down)
      + if samples[n].upward <= up && samples[n].downward <= down then 1 else 0
  }

  lemma {:induction false} ScoresCountJointCoverage(samples: seq<Sample>, up: real, down: real, buffer: real)
    requires buffer >= 0.0
    ensures CountLe(Nonconformity(samples, up, down), buffer) == JointlyCovered(samples, up + buffer, down + buffer)
  {
    if samples != [] {
      var n := |samples| - 1;
      ScoresCountJointCoverage(samples[..n], up, down, buffer);
      assert Nonconformity(samples, up, down)[..n] == Nonconformity(samples[..n], up, down);
    }
  }

  /** The rank that the capped quantile really selects: one short of n for every full trillion samples. */
  function CoveredRank(n: nat, target: real): int { MinInt(n - n / TRILLION, ConformalRank(n, target)) }

  lemma CappedCeiling(n: nat)
    ensures Ceil(TOP_QUANTILE * n as real) == n - n / TRILLION
  {
    var q, r := n / TRILLION, n % TRILLION;
    assert n == TRILLION * q + r;
    var lost := 0.000000000001 * n as real;
    assert lost == q as real + 0.000000000001 * r as real;
    assert 0.0 <= 0.000000000001 * r as real < 1.0;
    assert TOP_QUANTILE * n as real == n as real - lost;
  }

  lemma SelectedRank(n: nat, target: real)
    requires n > 0 && 0.0 < target < 1.0
    ensures 0.0 < FiniteSampleQuantile(n, target) < 1.0
    ensures HigherIndex(FiniteSampleQuantile(n, target), n) + 1 == CoveredRank(n, target)
  {
    hide HigherIndex;
    PositiveRank(n, target);
    SelectedIndex(n, ConformalRank(n, target));
  }

  lemma PositiveRank(n: nat, target: real)
    requires target > 0.0
    ensures ConformalRank(n, target) >= 1
  {
    assert (n + 1) as real * target > 0.0;
  }

  lemma SelectedIndex(n: nat, rank: int)
    requires n > 0 && rank >= 1
    ensures var q := MinReal(TOP_QUANTILE, rank as real / n as real);
      0.0 < q < 1.0 && HigherIndex(q, n) + 1 == MinInt(n - n / TRILLION, rank)
  {
    hide *;
    RankProduct(n, rank);
    CappedCeiling(n);
    CeilOfMin(TOP_QUANTILE * n as real, rank);
    IndexOfCeiling(MinReal(TOP_QUANTILE, rank as real / n as real), n);
  }

  lemma RankProduct(n: nat, rank: int)
    requires n > 0 && rank >= 1
    ensures var q := MinReal(TOP_QUANTILE, rank as real / n as real);
      0.0 < q < 1.0 && q * n as real == MinReal(TOP_QUANTILE * n as real, rank as real)
  {
    var share := rank as real / n as real;
    assert share * n as real == rank as real;
    assert share > 0.0;
    CappedProduct(share, n as real);
  }

  lemma CeilOfMin(x: real, k: int)
    ensures Ceil(MinReal(x, k as real)) == MinInt(Ceil(x), k)
  {
  }

  lemma IndexOfCeiling(q: real, n: nat)
    requires 0.0 < q < 1.0 && n > 0
    ensures HigherIndex(q, n) + 1 == Ceil(q * n as real)
  {
    assert q * n as real > 0.0;
  }

  lemma CappedProduct(share: real, n: real)
    requires n > 0.0
    ensures MinReal(TOP_QUANTILE, share) * n == MinReal(TOP_QUANTILE * n, share * n)
  {
    assert (TOP_QUANTILE - share) * n == TOP_QUANTILE * n - share * n;
    if TOP_QUANTILE <= share {
      assert (TOP_QUANTILE - share) * n <= 0.0;
    } else {
      assert (TOP_QUANTILE - share) * n > 0.0;
    }
  }

  /** The rank of the base quantiles. */
  function BaseRank(n: nat, target: real): int { Ceil(target * n as real) }

  /** The rank that the corridor promises to cover. */
  function PromisedRank(n: nat, target: real): int { MinInt(n, ConformalRank(n, target)) }

  lemma BaseRankIsInside(n: nat, target: real)
    requires n > 0 && 0.0 < target < 1.0
    ensures 1 <= BaseRank(n, target) <= PromisedRank(n, target) <= n
    ensures BaseRank(n, target) <= ConformalRank(n, target)
  {
    var x := target * n as real;
    assert 0.0 < x < n as real;
    assert (n + 1) as real * target == x + target;
  }

  lemma CalibratedParts(samples: seq<Sample>, config: Config)
    requires ValidConfig(config) && Calibrate(samples, config).Ok?
    ensures var corridor, stratum := Calibrate(samples, config).value, Stratum(samples, config);
      var up, down := corridor.upwardTail - corridor.jointBuffer, corridor.downwardTail - corridor.jointBuffer;
      && |stratum| >= 2
      && QuantileHigher(Upward(stratum), config.target) == Ok(up)
      && QuantileHigher(Downward(stratum), config.target) == Ok(down)
      && QuantileHigher(Nonconformity(stratum, up, down), FiniteSampleQuantile(|stratum|, config.target))
           == Ok(corridor.jointBuffer)
      && corridor.jointBuffer >= 0.0
  {
    hide QuantileHigher, FiniteSampleQuantile, Stratum, Upward, Downward, Nonconformity;
  }

  /** Among buffers that are not negative the joint buffer is the least that covers the selected rank. */
  lemma LeastAmongNonNegative(samples: seq<Sample>, config: Config, buffer: real)
    requires ValidConfig(config) && buffer >= 0.0
    requires Calibrate(samples, config).Ok?
    ensures BufferCovers(samples, config, buffer, CoveredRank(|Stratum(samples, config)|, config.target))
       <==> buffer >= Calibrate(samples, config).value.jointBuffer
  {
    hide QuantileHigher, HigherIndex, FiniteSampleQuantile, CoveredRank, CountLe, JointlyCovered, Nonconformity, Calibrate;
    CalibratedParts(samples, config);
    var corridor, stratum := Calibrate(samples, config).value, Stratum(samples, config);
    var up, down := corridor.upwardTail - corridor.jointBuffer, corridor.downwardTail - corridor.jointBuffer;
    var q := FiniteSampleQuantile(|stratum|, config.target);
    var scores := Nonconformity(stratum, up, down);
    SelectedRank(|stratum|, config.target);
    QuantileIsOrderStatistic(scores, q);
    CountAtHigherIndex(scores, HigherIndex(q, |scores|), buffer);
    ScoresCountJointCoverage(stratum, up, down, buffer);
  }

  /** At least `rank` samples are covered when both bases are widened (or narrowed) by one buffer. */
  predicate BufferCovers(samples: seq<Sample>, config: Config, buffer: real, rank: int)
    requires config.minimumSamples >= 2 && Calibrate(samples, config).Ok?
  {
    var corridor := Calibrate(samples, config).value;
    JointlyCovered(Stratum(samples, config), corridor.upwardTail - corridor.jointBuffer + buffer,
                   corridor.downwardTail - corridor.jointBuffer + buffer) >= rank
  }

  lemma {:induction false} JointIsAtMostUpward(samples: seq<Sample>, up: real, down: real)
    ensures JointlyCovered(samples, up, down) <= CountLe(Upward(samples), up)
  {
    if samples != [] {
      var n := |samples| - 1;
      JointIsAtMostUpward(samples[..n], up, down);
      assert Upward(samples)[..n] == Upward(samples[..n]);
    }
  }

  /** Narrowing the bases covers fewer samples than their rank. */
  lemma NegativeBuffersCoverLess(samples: seq<Sample>, config: Config, buffer: real)
    requires ValidConfig(config) && Calibrate(samples, config).Ok? && buffer < 0.0
    ensures !BufferCovers(samples, config, buffer, BaseRank(|Stratum(samples, config)|, config.target))
  {
    hide QuantileHigher, CountLe, JointlyCovered, Calibrate, Upward, BaseRank, Stratum, FiniteSampleQuantile;
    CalibratedParts(samples, config);
    var corridor, stratum := Calibrate(samples, config).value, Stratum(samples, config);
    var up, down := corridor.upwardTail - corridor.jointBuffer, corridor.downwardTail - corridor.jointBuffer;
    JointIsAtMostUpward(stratum, up + buffer, down + buffer);
    QuantileIsLeastCover(Upward(stratum), config.target, up + buffer);
    MovesKeepLength(stratum);
    BelowShare(CountLe(Upward(stratum), up + buffer), |stratum|, config.target);
  }

  lemma BelowShare(count: nat, n: nat, target: real)
    requires (count as real) < target * n as real
    ensures count < BaseRank(n, target)
  {
  }

  lemma MovesKeepLength(samples: seq<Sample>)
    ensures |Upward(samples)| == |samples| == |Downward(samples)|
  {
  }

  /** The joint buffer is the least of all common buffers, negative ones included, that cover the selected
      rank, whenever the base rank does not lie above it. */
  lemma JointBufferIsLeast(samples: seq<Sample>, config: Config, buffer: real)
    requires ValidConfig(config) && Calibrate(samples, config).Ok?
    requires var n := |Stratum(samples, config)|; BaseRank(n, config.target) <= n - n / TRILLION
    ensures BufferCovers(samples, config, buffer, CoveredRank(|Stratum(samples, config)|, config.target))
       <==> buffer >= Calibrate(samples, config).value.jointBuffer
  {
    hide JointlyCovered, Calibrate, Stratum, BaseRank, ConformalRank;
    CalibratedParts(samples, config);
    BaseRankIsInside(|Stratum(samples, config)|, config.target);
    if buffer >= 0.0 {
      LeastAmongNonNegative(samples, config, buffer);
    } else {
      NegativeBuffersCoverLess(samples, config, buffer);
    }
  }

  /** Every stratum of enough valid samples is calibrated, and neither side of its corridor is negative. */
  lemma CalibratesWhenEnough(samples: seq<Sample>, config: Config)
    requires ValidConfig(config) && ValidSamples(samples)
    requires forall i, j | 0 <= i < j < |samples| :: samples[i].sampleId != samples[j].sampleId
    ensures Calibrate(samples, config).Ok? <==> |Stratum(samples, config)| >= config.minimumSamples
    ensures Calibrate(samples, config).Ok? ==>
      var corridor := Calibrate(samples, config).value;
      && corridor.jointBuffer >= 0.0
      && corridor.upwardTail >= corridor.jointBuffer && corridor.downwardTail >= corridor.jointBuffer
  {
    hide QuantileHigher, FiniteSampleQuantile, HigherIndex, Stratum, Upward, Downward, Nonconformity, ValidSamples;
    var stratum := Stratum(samples, config);
    if |stratum| >= config.minimumSamples {
      SelectedRank(|stratum|, config.target);
      MovesKeepLength(stratum);
      MovesAreSane(stratum);
      SaneQuantile(Upward(stratum), config.target);
      SaneQuantile(Downward(stratum), config.target);
      var up := QuantileHigher(Upward(stratum), config.target).value;
      var down := QuantileHigher(Downward(stratum), config.target).value;
      SaneQuantile(Nonconformity(stratum, up, down), FiniteSampleQuantile(|stratum|, config.target));
    }
  }

  lemma MovesAreSane(samples: seq<Sample>)
    requires ValidSamples(samples)
    ensures forall v | v in Upward(samples) :: v >= 0.0
    ensures forall v | v in Downward(samples) :: v >= 0.0
  {
  }

  lemma SaneQuantile(values: seq<real>, quantile: real)
    requires values != [] && 0.0 < quantile < 1.0 && forall v | v in values :: v >= 0.0
    ensures QuantileHigher(values, quantile).Ok? && QuantileHigher(values, quantile).value >= 0.0
  {
    hide QuantileHigher;
  }

  /** The corridor covers at least min(n, ceil((n + 1) * target)) of its samples on both sides at once. */
  ghost predicate KeepsPromise(samples: seq<Sample>, config: Config)
    requires config.minimumSamples >= 2 && Calibrate(samples, config).Ok?
  {
    var corridor, stratum := Calibrate(samples, config).value, Stratum(samples, config);
    JointlyCovered(stratum, corridor.upwardTail, corridor.downwardTail) >= PromisedRank(|stratum|, config.target)
  }

  /** The cap on the quantile does not bite, or the bases alone are the extreme samples already. */
  predicate Attainable(n: nat, target: real) {
    PromisedRank(n, target) <= n - n / TRILLION || BaseRank(n, target) == n
  }

  lemma BelowATrillionIsAttainable(n: nat, target: real)
    requires n < TRILLION
    ensures Attainable(n, target)
  {
  }

  /** The corridor keeps its promise whenever that is attainable, and then no smaller common buffer,
      negative or not, does. */
  lemma CorridorCoversItsSamples(samples: seq<Sample>, config: Config, buffer: real)
    requires ValidConfig(config) && Calibrate(samples, config).Ok?
    requires Attainable(|Stratum(samples, config)|, config.target)
    ensures KeepsPromise(samples, config)
    ensures BufferCovers(samples, config, buffer, PromisedRank(|Stratum(samples, config)|, config.target))
       <==> buffer >= Calibrate(samples, config).value.jointBuffer
  {
    var n := |Stratum(samples, config)|;
    CalibratedParts(samples, config);
    BaseRankIsInside(n, config.target);
    JointBufferIsItsOwn(samples, config);
    AttainableRanks(n, config.target);
    hide Stratum, ConformalRank, BaseRank, PromisedRank, CoveredRank, Attainable, KeepsPromise, Calibrate, JointlyCovered,
         BufferCovers, FiniteSampleQuantile, QuantileHigher, Upward, Downward, Nonconformity;
    var joint := Calibrate(samples, config).value.jointBuffer;
    if BaseRank(n, config.target) == n {
      ExtremeBasesNeedNoBuffer(samples, config, buffer);
      ExtremeBasesNeedNoBuffer(samples, config, joint);
    } else {
      JointBufferIsLeast(samples, config, buffer);
      JointBufferIsLeast(samples, config, joint);
    }
  }

  /** In other words: where that is attainable, the joint buffer is the least with which a corridor holds all samples or
      at least the target share of one more than there are. */
  lemma CorridorCoversConformally(samples: seq<Sample>, config: Config, buffer: real)
    requires ValidConfig(config) && Calibrate(samples, config).Ok?
    requires Attainable(|Stratum(samples, config)|, config.target)
    ensures var corridor, stratum := Calibrate(samples, config).value, Stratum(samples, config);
      var wider := buffer - corridor.jointBuffer;
      var covered := JointlyCovered(stratum, corridor.upwardTail + wider, corridor.downwardTail + wider);
      wider >= 0.0 <==> covered == |stratum| || covered as real >= (|stratum| + 1) as real * config.target
  {
    hide Calibrate, Stratum, JointlyCovered, Attainable, BaseRank;
    CorridorCoversItsSamples(samples, config, buffer);
    var corridor, stratum := Calibrate(samples, config).value, Stratum(samples, config);
    assert corridor.upwardTail - corridor.jointBuffer + buffer == corridor.upwardTail + (buffer - corridor.jointBuffer);
    assert corridor.downwardTail - corridor.jointBuffer + buffer == corridor.downwardTail + (buffer - corridor.jointBuffer);
  }

  lemma AttainableRanks(n: nat, target: real)
    requires Attainable(n, target) && BaseRank(n, target) <= PromisedRank(n, target) <= n
    ensures if BaseRank(n, target) == n then PromisedRank(n, target) == n
      else BaseRank(n, target) <= n - n / TRILLION && CoveredRank(n, target) == PromisedRank(n, target)
  {
    hide ConformalRank, BaseRank;
  }

  lemma JointBufferIsItsOwn(samples: seq<Sample>, config: Config)
    requires config.minimumSamples >= 2 && Calibrate(samples, config).Ok?
    ensures KeepsPromise(samples, config) <==>
      BufferCovers(samples, config, Calibrate(samples, config).value.jointBuffer,
                   PromisedRank(|Stratum(samples, config)|, config.target))
  {
    hide Calibrate, Stratum, JointlyCovered, PromisedRank;
  }

  /** With bases at the extremes a buffer covers all samples exactly when it is not negative. */
  lemma ExtremeBasesNeedNoBuffer(samples: seq<Sample>, config: Config, buffer: real)
    requires ValidConfig(config) && Calibrate(samples, config).Ok?
    requires BaseRank(|Stratum(samples, config)|, config.target) == |Stratum(samples, config)|
    ensures Calibrate(samples, config).value.jointBuffer == 0.0
    ensures BufferCovers(samples, config, buffer, |Stratum(samples, config)|) <==> buffer >= 0.0
  {
    hide Stratum, BaseRank, Calibrate, JointlyCovered;
    ExtremeBasesCoverAll(samples, config);
    if buffer < 0.0 {
      NegativeBuffersCoverLess(samples, config, buffer);
    } else {
      var corridor := Calibrate(samples, config).value;
      WiderCoversMore(Stratum(samples, config), corridor.upwardTail, corridor.downwardTail, buffer);
    }
  }

  lemma {:induction false} WiderCoversMore(samples: seq<Sample>, up: real, down: real, buffer: real)
    requires buffer >= 0.0
    ensures JointlyCovered(samples, up, down) <= JointlyCovered(samples, up + buffer, down + buffer)
  {
    if samples != [] { WiderCoversMore(samples[..|samples| - 1], up, down, buffer); }
  }

  lemma {:induction false} AllWithinBoth(samples: seq<Sample>, up: real, down: real)
    requires CountLe(Upward(samples), up) == |samples| && CountLe(Downward(samples), down) == |samples|
    ensures JointlyCovered(samples, up, down) == |samples|
    ensures forall i | 0 <= i < |samples| :: samples[i].upward <= up && samples[i].downward <= down
  {
    if samples != [] {
      var n := |samples| - 1;
      assert Upward(samples)[..n] == Upward(samples[..n]) && Downward(samples)[..n] == Downward(samples[..n]);
      AllWithinBoth(samples[..n], up, down);
    }
  }

  lemma {:induction false} NoScores(scores: seq<real>)
    requires CountLe(scores, 0.0) == |scores|
    ensures forall s | s in scores :: s <= 0.0
  {
    if scores != [] {
      NoScores(scores[..|scores| - 1]);
      assert scores == scores[..|scores| - 1] + [scores[|scores| - 1]];
    }
  }

  lemma BaseAtTopCountsAll(values: seq<real>, target: real)
    requires QuantileHigher(values, target).Ok? && BaseRank(|values|, target) == |values|
    ensures CountLe(values, QuantileHigher(values, target).value) == |values|
  {
    hide QuantileHigher, CountLe;
    QuantileIsLeastCover(values, target, QuantileHigher(values, target).value);
  }

  /** Bases at the extremes cover every sample, and leave nothing for the buffer to do. */
  lemma ExtremeBasesCoverAll(samples: seq<Sample>, config: Config)
    requires ValidConfig(config) && Calibrate(samples, config).Ok?
    requires BaseRank(|Stratum(samples, config)|, config.target) == |Stratum(samples, config)|
    ensures var corridor, stratum := Calibrate(samples, config).value, Stratum(samples, config);
      && corridor.jointBuffer == 0.0
      && JointlyCovered(stratum, corridor.upwardTail, corridor.downwardTail) == |stratum|
  {
    hide QuantileHigher, CountLe, JointlyCovered, Calibrate, BaseRank, FiniteSampleQuantile;
    CalibratedParts(samples, config);
    var corridor, stratum := Calibrate(samples, config).value, Stratum(samples, config);
    var up, down := corridor.upwardTail - corridor.jointBuffer, corridor.downwardTail - corridor.jointBuffer;
    BaseAtTopCountsAll(Upward(stratum), config.target);
    BaseAtTopCountsAll(Downward(stratum), config.target);
    AllWithinBoth(stratum, up, down);
    ScoresCountJointCoverage(stratum, up, down, 0.0);
    var scores := Nonconformity(stratum, up, down);
    NoScores(scores);
    QuantileIsMember(scores, FiniteSampleQuantile(|stratum|, config.target));
  }

  lemma QuantileIsMember(values: seq<real>, q: real)
    requires QuantileHigher(values, q).Ok?
    ensures QuantileHigher(values, q).value in values
  {
  }

  // ----- strata on which the cap bites -----

  /** Sample `i` of a ladder climbs one step upward. A twin climbs as far downward; otherwise only the
      first sample moves downward, by half a step. */
  function Rung(config: Config, twin: bool, i: nat): Sample {
    Sample(seq(i + 1, _ => 'x'), "g", config.eventType, config.regime, (i + 1) as real,
           if twin then (i + 1) as real else if i == 0 then 0.5 else 0.0)
  }

  function Ladder(config: Config, twin: bool, n: nat): (r: seq<Sample>)
    ensures |r| == n
  {
    if n == 0 then [] else Ladder(config, twin, n - 1) + [Rung(config, twin, n - 1)]
  }

  lemma {:induction false} LadderRungs(config: Config, twin: bool, n: nat)
    ensures forall i | 0 <= i < n :: Ladder(config, twin, n)[i] == Rung(config, twin, i)
  {
    if n > 0 { LadderRungs(config, twin, n - 1); }
  }

  lemma StratumAppended(samples: seq<Sample>, x: Sample, config: Config)
    requires x.eventType == config.eventType && x.regime == config.regime
    ensures Stratum(samples + [x], config) == Stratum(samples, config) + [x]
  {
    assert (samples + [x])[..|samples|] == samples;
  }

  /** One more sample counts once on every side that reaches it. */
  lemma CountsAppended(samples: seq<Sample>, x: Sample, up: real, down: real)
    ensures CountLe(Upward(samples + [x]), up) == CountLe(Upward(samples), up) + if x.upward <= up then 1 else 0
    ensures CountLe(Downward(samples + [x]), down) == CountLe(Downward(samples), down) + if x.downward <= down then 1 else 0
    ensures JointlyCovered(samples + [x], up, down) ==
      JointlyCovered(samples, up, down) + if x.upward <= up && x.downward <= down then 1 else 0
  {
    var all, n := samples + [x], |samples|;
    assert all[..n] == samples;
    assert Upward(all)[..n] == Upward(samples) && Upward(all)[n] == x.upward;
    assert Downward(all)[..n] == Downward(samples) && Downward(all)[n] == x.downward;
  }

  lemma {:induction false} LadderIsItsStratum(config: Config, twin: bool, n: nat)
    ensures Stratum(Ladder(config, twin, n), config) == Ladder(config, twin, n)
  {
    if n > 0 {
      LadderIsItsStratum(config, twin, n - 1);
      StratumAppended(Ladder(config, twin, n - 1), Rung(config, twin, n - 1), config);
    }
  }

  lemma LadderIsValid(config: Config, twin: bool, n: nat)
    requires ValidConfig(config) && n >= config.minimumSamples
    ensures ValidSamples(Ladder(config, twin, n)) && Calibrate(Ladder(config, twin, n), config).Ok?
  {
    var samples := Ladder(config, twin, n);
    LadderRungs(config, twin, n);
    LadderIsItsStratum(config, twin, n);
    hide Ladder, Calibrate, Stratum;
    forall i, j | 0 <= i < j < n ensures samples[i].sampleId != samples[j].sampleId {
      assert |samples[i].sampleId| == i + 1 && |samples[j].sampleId| == j + 1;
    }
    CalibratesWhenEnough(samples, config);
  }

  /** The first `c` rungs, and no others, are at most `t` high. */
  lemma {:induction false} RungsBelow(config: Config, twin: bool, n: nat, t: real, c: nat)
    requires c as real <= t < (c + 1) as real
    ensures CountLe(Upward(Ladder(config, twin, n)), t) == MinInt(n, c)
    ensures twin ==> CountLe(Downward(Ladder(config, twin, n)), t) == MinInt(n, c)
    ensures twin ==> JointlyCovered(Ladder(config, twin, n), t, t) == MinInt(n, c)
  {
    hide CountLe, JointlyCovered, Upward, Downward, Rung;
    if n == 0 {
      NothingCounts(t);
    } else {
      RungsBelow(config, twin, n - 1, t, c);
      CountsAppended(Ladder(config, twin, n - 1), Rung(config, twin, n - 1), t, t);
      RungHeight(config, twin, n - 1);
    }
  }

  lemma RungHeight(config: Config, twin: bool, i: nat)
    ensures Rung(config, twin, i).upward == (i + 1) as real
    ensures twin ==> Rung(config, twin, i).downward == (i + 1) as real
  {
  }

  lemma NothingCounts(t: real)
    ensures CountLe(Upward([]), t) == 0 && CountLe(Downward([]), t) == 0 && JointlyCovered([], t, t) == 0
  {
  }

  lemma {:induction false} OneRungDown(config: Config, n: nat)
    ensures n > 0 ==> CountLe(Downward(Ladder(config, false, n)), 0.0) == n - 1
  {
    if n > 0 {
      OneRungDown(config, n - 1);
      CountsAppended(Ladder(config, false, n - 1), Rung(config, false, n - 1), 0.0, 0.0);
    }
    if n == 1 { assert Downward(Ladder(config, false, 0)) == []; }
    hide CountLe, JointlyCovered, Upward, Downward;
  }

  /** Joint coverage of the plain ladder: the first rung waits for half a step of buffer. */
  lemma {:induction false} LadderCovered(config: Config, n: nat, up: real, down: real, c: nat)
    requires 1 <= c && c as real <= up < (c + 1) as real && down >= 0.0
    ensures JointlyCovered(Ladder(config, false, n), up, down) ==
      MinInt(n, c) - if down < 0.5 && n > 0 then 1 else 0
  {
    if n > 0 {
      LadderCovered(config, n - 1, up, down, c);
      CountsAppended(Ladder(config, false, n - 1), Rung(config, false, n - 1), up, down);
    }
  }

  /** The quantile of values that count exactly `rank` at `t` and fewer below it. */
  lemma QuantileIs(values: seq<real>, target: real, t: real)
    requires QuantileHigher(values, target).Ok?
    requires CountLe(values, t) >= BaseRank(|values|, target)
    requires forall u | CountLe(values, u) >= BaseRank(|values|, target) :: u < 0.0 || t <= u
    ensures QuantileHigher(values, target).value == t
  {
    hide QuantileHigher, CountLe;
    var q := QuantileHigher(values, target).value;
    QuantileIsLeastCover(values, target, t);
    QuantileIsLeastCover(values, target, q);
    AtLeastShare(CountLe(values, t), |values|, target);
    AtLeastShare(CountLe(values, q), |values|, target);
    QuantileIsMember(values, target);
    assert CountLe(values, q) >= BaseRank(|values|, target);
    MemberIsNonNegative(values, target);
  }

  lemma MemberIsNonNegative(values: seq<real>, target: real)
    requires QuantileHigher(values, target).Ok?
    ensures QuantileHigher(values, target).value >= 0.0
  {
    hide QuantileHigher;
  }

  lemma AtLeastShare(count: nat, n: nat, target: real)
    ensures (count as real) >= target * n as real <==> count >= BaseRank(n, target)
  {
  }

  /** The bases of a ladder: its rung of the base rank upward, and nothing downward unless it is a twin. */
  lemma LadderBases(config: Config, twin: bool, n: nat)
    requires ValidConfig(config) && n >= config.minimumSamples && (twin || BaseRank(n, config.target) < n)
    ensures var k := BaseRank(n, config.target) as real;
      var ladder := Ladder(config, twin, n);
      && Calibrate(ladder, config).Ok?
      && var corridor := Calibrate(ladder, config).value;
         && corridor.upwardTail == k + corridor.jointBuffer
         && corridor.downwardTail == (if twin then k else 0.0) + corridor.jointBuffer
  {
    hide Ladder, Calibrate, QuantileHigher, CountLe, BaseRank, Upward, Downward, FiniteSampleQuantile, Nonconformity,
         ConformalRank;
    var k, ladder := BaseRank(n, config.target), Ladder(config, twin, n);
    LadderIsValid(config, twin, n);
    LadderIsItsStratum(config, twin, n);
    CalibratedParts(ladder, config);
    BaseRankIsInside(n, config.target);
    MovesKeepLength(ladder);
    RungsBelow(config, twin, n, k as real, k);
    forall u | 0.0 <= u < k as real
      ensures CountLe(Upward(ladder), u) < k && (twin ==> CountLe(Downward(ladder), u) < k)
    {
      RungsBelow(config, twin, n, u, u.Floor);
    }
    QuantileIs(Upward(ladder), config.target, k as real);
    if twin {
      QuantileIs(Downward(ladder), config.target, k as real);
    } else {
      OneRungDown(config, n);
      QuantileIs(Downward(ladder), config.target, 0.0);
    }
  }

  /** The least buffer with which the plain ladder covers the selected rank. */
  function LadderBuffer(rank: int, selected: int): real {
    if selected < rank then 0.0 else if selected == rank then 0.5 else (selected - rank) as real
  }

  /** With its cap biting, the corridor of the plain ladder covers the selected rank (or all but one of the
      base rank), and no more. */
  lemma LadderFallsShort(config: Config, n: nat)
    requires ValidConfig(config) && n >= config.minimumSamples && BaseRank(n, config.target) < n
    requires CoveredRank(n, config.target) < n
    ensures var ladder := Ladder(config, false, n);
      && Calibrate(ladder, config).Ok? && Stratum(ladder, config) == ladder
      && var corridor := Calibrate(ladder, config).value;
         JointlyCovered(ladder, corridor.upwardTail, corridor.downwardTail)
           == MaxInt(CoveredRank(n, config.target), BaseRank(n, config.target) - 1)
  {
    hide Ladder, Calibrate, JointlyCovered, CoveredRank, BaseRank, Stratum;
    LadderBases(config, false, n);
    LadderIsItsStratum(config, false, n);
    LadderAtJointBuffer(config, n);
  }

  lemma LadderAtJointBuffer(config: Config, n: nat)
    requires ValidConfig(config) && n >= config.minimumSamples && BaseRank(n, config.target) < n
    requires CoveredRank(n, config.target) < n
    requires Calibrate(Ladder(config, false, n), config).Ok?
    ensures var joint := Calibrate(Ladder(config, false, n), config).value.jointBuffer;
      JointlyCovered(Ladder(config, false, n), BaseRank(n, config.target) as real + joint, joint)
        == MaxInt(CoveredRank(n, config.target), BaseRank(n, config.target) - 1)
  {
    hide BaseRank, CoveredRank, Ladder, Calibrate, Stratum, JointlyCovered, BufferCovers, LadderBuffer, ConformalRank,
         ValidConfig;
    var k, selected, ladder := BaseRank(n, config.target), CoveredRank(n, config.target), Ladder(config, false, n);
    TargetIsProper(config);
    LadderIsItsStratum(config, false, n);
    BaseRankIsInside(n, config.target);
    SelectedIsPositive(n, config.target);
    JointIsNonNegative(ladder, config);
    var least := LadderBuffer(k, selected);
    var joint := Calibrate(ladder, config).value.jointBuffer;
    LadderAtLeastBuffer(config, n, k, selected);
    LeastAmongNonNegative(ladder, config, least);
    LeastAmongNonNegative(ladder, config, joint);
    BufferOnLadder(config, n, least, selected);
    BufferOnLadder(config, n, joint, selected);
    SqueezedCount(ladder, k, selected, joint, least);
  }

  lemma TargetIsProper(config: Config)
    requires ValidConfig(config)
    ensures 0.0 < config.target < 1.0 && config.minimumSamples >= 2
  {
  }

  lemma JointIsNonNegative(samples: seq<Sample>, config: Config)
    requires ValidConfig(config) && Calibrate(samples, config).Ok?
    ensures Calibrate(samples, config).value.jointBuffer >= 0.0
  {
    hide Calibrate;
    CalibratedParts(samples, config);
  }

  lemma SqueezedCount(ladder: seq<Sample>, rank: int, selected: int, joint: real, least: real)
    requires 0.0 <= joint <= least
    requires selected < rank ==> least == 0.0
    requires JointlyCovered(ladder, rank as real + joint, joint) >= selected
    requires JointlyCovered(ladder, rank as real + least, least) == MaxInt(selected, rank - 1)
    ensures JointlyCovered(ladder, rank as real + joint, joint) == MaxInt(selected, rank - 1)
  {
    hide JointlyCovered;
    WiderCoversMore(ladder, rank as real + joint, joint, least - joint);
    assert rank as real + joint + (least - joint) == rank as real + least;
  }

  lemma BufferOnLadder(config: Config, n: nat, buffer: real, rank: int)
    requires ValidConfig(config) && n >= config.minimumSamples && BaseRank(n, config.target) < n
    requires Calibrate(Ladder(config, false, n), config).Ok?
    ensures BufferCovers(Ladder(config, false, n), config, buffer, rank) <==>
      JointlyCovered(Ladder(config, false, n), BaseRank(n, config.target) as real + buffer, buffer) >= rank
  {
    hide Ladder, Calibrate, JointlyCovered, BaseRank, Stratum;
    LadderBases(config, false, n);
    LadderIsItsStratum(config, false, n);
  }

  lemma SelectedIsPositive(n: nat, target: real)
    requires n > 0 && target > 0.0
    ensures CoveredRank(n, target) >= 0
  {
    PositiveRank(n, target);
  }

  lemma LadderAtLeastBuffer(config: Config, n: nat, rank: int, selected: int)
    requires 1 <= rank < n && 0 <= selected < n
    ensures var least := LadderBuffer(rank, selected);
      && least >= 0.0 && (selected < rank ==> least == 0.0)
      && JointlyCovered(Ladder(config, false, n), rank as real + least, least) == MaxInt(selected, rank - 1)
  {
    hide JointlyCovered, Ladder;
    var least := LadderBuffer(rank, selected);
    LadderCovered(config, n, rank as real + least, least, if selected <= rank then rank else selected);
  }

  /** Over all valid strata of a size, the corridor keeps its promise if and only if that is attainable. */
  lemma PromiseKeptExactlyWhenAttainable(n: nat, config: Config)
    requires ValidConfig(config) && n >= config.minimumSamples
    ensures Attainable(n, config.target) <==>
      forall samples | ValidSamples(samples) && Calibrate(samples, config).Ok? && |Stratum(samples, config)| == n ::
        KeepsPromise(samples, config)
  {
    hide Calibrate, Stratum, KeepsPromise, Attainable;
    if Attainable(n, config.target) {
      forall samples | ValidSamples(samples) && Calibrate(samples, config).Ok? && |Stratum(samples, config)| == n
        ensures KeepsPromise(samples, config)
      {
        CorridorCoversItsSamples(samples, config, 0.0);
      }
    } else {
      var ladder := Ladder(config, false, n);
      LadderIsValid(config, false, n);
      LadderIsItsStratum(config, false, n);
      LadderBreaksPromise(n, config);
      assert !KeepsPromise(ladder, config);
    }
  }

  lemma LadderBreaksPromise(n: nat, config: Config)
    requires ValidConfig(config) && n >= config.minimumSamples && !Attainable(n, config.target)
    ensures Calibrate(Ladder(config, false, n), config).Ok? && !KeepsPromise(Ladder(config, false, n), config)
  {
    hide Calibrate, Stratum, ConformalRank, BaseRank, JointlyCovered, Ladder;
    BaseRankIsInside(n, config.target);
    LadderFallsShort(config, n);
  }

  /** Over all valid strata of a size, the joint buffer is the least of all buffers that cover the selected
      rank if and only if the base rank does not lie above that rank. */
  lemma LeastExactlyWhenBaseRankFits(n: nat, config: Config)
    requires ValidConfig(config) && n >= config.minimumSamples
    ensures BaseRank(n, config.target) <= n - n / TRILLION <==>
      forall samples, buffer |
          ValidSamples(samples) && Calibrate(samples, config).Ok? && |Stratum(samples, config)| == n ::
        (BufferCovers(samples, config, buffer, CoveredRank(n, config.target))
         <==> buffer >= Calibrate(samples, config).value.jointBuffer)
  {
    hide Calibrate, Stratum, BufferCovers, BaseRank, CoveredRank;
    if BaseRank(n, config.target) <= n - n / TRILLION {
      forall samples, buffer | ValidSamples(samples) && Calibrate(samples, config).Ok? && |Stratum(samples, config)| == n
        ensures BufferCovers(samples, config, buffer, CoveredRank(n, config.target))
          <==> buffer >= Calibrate(samples, config).value.jointBuffer
      {
        JointBufferIsLeast(samples, config, buffer);
      }
    } else {
      LadderIsValid(config, true, n);
      LadderIsItsStratum(config, true, n);
      TwinNeedsNoBuffer(n, config);
      CalibratedParts(Ladder(config, true, n), config);
      assert BufferCovers(Ladder(config, true, n), config, -1.0, CoveredRank(n, config.target));
    }
  }

  lemma TwinNeedsNoBuffer(n: nat, config: Config)
    requires ValidConfig(config) && n >= config.minimumSamples && BaseRank(n, config.target) > n - n / TRILLION
    ensures Calibrate(Ladder(config, true, n), config).Ok?
    ensures BufferCovers(Ladder(config, true, n), config, -1.0, CoveredRank(n, config.target))
  {
    hide Calibrate, Stratum, BaseRank, JointlyCovered, Ladder, ConformalRank;
    var k := BaseRank(n, config.target);
    LadderBases(config, true, n);
    LadderIsItsStratum(config, true, n);
    BaseRankIsInside(n, config.target);
    RungsBelow(config, true, n, (k - 1) as real, k - 1);
  }

  /** At a trillion samples and a target of 99.99999999985 % the promise is to cover every sample, and the
      corridor of the ladder leaves one out. */
  lemma CapBitesAtATrillion()
    ensures var config := Config(0.9999999999985, 2, "e", "r");
      var ladder := Ladder(config, false, TRILLION);
      && ValidSamples(ladder) && Calibrate(ladder, config).Ok? && Stratum(ladder, config) == ladder
      && PromisedRank(TRILLION, config.target) == TRILLION
      && var corridor := Calibrate(ladder, config).value;
         JointlyCovered(ladder, corridor.upwardTail, corridor.downwardTail) == TRILLION - 1
  {
    var config := Config(0.9999999999985, 2, "e", "r");
    TrillionRanks();
    hide Ladder, Calibrate, Stratum, JointlyCovered, CoveredRank, BaseRank, PromisedRank;
    LadderIsValid(config, false, TRILLION);
    LadderFallsShort(config, TRILLION);
  }

  lemma TrillionRanks()
    ensures BaseRank(TRILLION, 0.9999999999985) == TRILLION - 1 == CoveredRank(TRILLION, 0.9999999999985)
    ensures PromisedRank(TRILLION, 0.9999999999985) == TRILLION
  {
  }
}
