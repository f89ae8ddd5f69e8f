/** Realized extreme moves over an exact (entry, close] window. Times are in microseconds. */
module RealizedExcursions {
  import opened Common

  datatype MinuteBar = MinuteBar(ts: int, high: real, low: real, close: real)

  datatype Series = Bars(bars: seq<MinuteBar>) | Points(points: seq<(int, real)>)

  datatype Observation = Observation(ts: int, high: real, low: real, price: real)

  datatype ExcursionError =
    EntryNotBeforeClose | BadGapLimit | EmptySeries | NotTimeOrdered | NoAnchor | NoWindow | CoverageGap

  datatype ExcursionResult = ExcursionResult(
    entryTs: int, closeTs: int, entryPrice: real, closePrice: real,
    upMax: real, downMax: real, upMaxTs: int, downMaxTs: int, sampleCount: nat)

  const MICROSECONDS_PER_SECOND := 1_000_000

  /** What MinuteBar checks when it is built. */
  ghost predicate ValidSeries(s: Series) {
    s.Bars? ==> forall b | b in s.bars :: b.low <= b.close <= b.high
  }

  function Observations(s: Series): seq<Observation> {
    match s
    case Bars(bars) =>
      seq(|bars|, i requires 0 <= i < |bars| => Observation(bars[i].ts, bars[i].high, bars[i].low, bars[i].close))
    case Points(points) =>
      seq(|points|, i requires 0 <= i < |points| =>
        Observation(points[i].0, points[i].1, points[i].1, points[i].1))
  }

  predicate NeighboursOrdered(obs: seq<Observation>) {
    forall i | 0 < i < |obs| :: obs[i - 1].ts < obs[i].ts
  }

  ghost predicate Ordered(obs: seq<Observation>) {
    forall i, j | 0 <= i < j < |obs| :: obs[i].ts < obs[j].ts
  }

  lemma {:induction false} NeighboursSuffice(obs: seq<Observation>)
    requires NeighboursOrdered(obs)
    ensures Ordered(obs)
  {
    if |obs| > 1 {
      NeighboursSuffice(obs[..|obs| - 1]);
      forall i | 0 <= i < |obs| - 1 ensures obs[i].ts < obs[|obs| - 1].ts {
        assert obs[..|obs| - 1][i].ts <= obs[|obs| - 2].ts;
      }
    }
  }

  function Normalize(s: Series): (r: Result<seq<Observation>, ExcursionError>)
    ensures r.Ok? <==> Observations(s) != [] && NeighboursOrdered(Observations(s))
    ensures r.Ok? ==> r.value == Observations(s)
  {
    var obs := Observations(s);
    if obs == [] then Err(EmptySeries)
    else if !NeighboursOrdered(obs) then Err(NotTimeOrdered)
    else Ok(obs)
  }

  /** The index of the last observation at or before `t`, or -1. */
  function LastAtOrBefore(obs: seq<Observation>, t: int): (k: int)
    ensures -1 <= k < |obs|
    ensures k >= 0 ==> obs[k].ts <= t
    ensures forall i | k < i < |obs| :: obs[i].ts > t
  {
    if obs == [] then -1
    else if obs[|obs| - 1].ts <= t then |obs| - 1
    else LastAtOrBefore(obs[..|obs| - 1], t)
  }

  lemma LastIsDetermined(obs: seq<Observation>, t: int, k: int)
    requires Ordered(obs) && -1 <= k < |obs|
    requires k >= 0 ==> obs[k].ts <= t
    requires k + 1 < |obs| ==> obs[k + 1].ts > t
    ensures LastAtOrBefore(obs, t) == k
  {
    hide LastAtOrBefore;
    assert forall i | k + 1 < i < |obs| :: obs[i].ts > obs[k + 1].ts;
  }

  /** The observations of the window among the first `n`. */
  function Window(obs: seq<Observation>, n: nat, after: int, upTo: int): (w: seq<Observation>)
    requires n <= |obs|
  {
    if n == 0 then []
    else Window(obs, n - 1, after, upTo) + if after < obs[n - 1].ts <= upTo then [obs[n - 1]] else []
  }

  lemma {:induction false} WindowIsSlice(obs: seq<Observation>, n: nat, a: int, e: int, after: int, upTo: int)
    requires n <= |obs| && -1 <= a <= e < |obs|
    requires forall i | 0 <= i <= a :: obs[i].ts <= after
    requires forall i | a < i <= e :: after < obs[i].ts <= upTo
    requires forall i | e < i < |obs| :: obs[i].ts > upTo
    ensures |Window(obs, n, after, upTo)| == MaxInt(0, MinInt(e, n - 1) - a)
    ensures forall k | 0 <= k < |Window(obs, n, after, upTo)| :: Window(obs, n, after, upTo)[k] == obs[a + 1 + k]
  {
    if n > 0 { WindowIsSlice(obs, n - 1, a, e, after, upTo); }
  }

  lemma WindowBounds(obs: seq<Observation>, after: int, upTo: int)
    requires Ordered(obs) && after <= upTo
    ensures var a, e := LastAtOrBefore(obs, after), LastAtOrBefore(obs, upTo);
      && a <= e
      && (forall i | 0 <= i <= a :: obs[i].ts <= after)
      && (forall i | a < i <= e :: after < obs[i].ts <= upTo)
  {
    hide LastAtOrBefore;
  }

  lemma WindowIsContiguous(obs: seq<Observation>, after: int, upTo: int)
    requires Ordered(obs) && after <= upTo
    ensures LastAtOrBefore(obs, after) <= LastAtOrBefore(obs, upTo)
    ensures Window(obs, |obs|, after, upTo) == obs[LastAtOrBefore(obs, after) + 1..LastAtOrBefore(obs, upTo) + 1]
  {
    hide LastAtOrBefore, Window, Ordered;
    WindowBounds(obs, after, upTo);
    WindowIsSlice(obs, |obs|, LastAtOrBefore(obs, after), LastAtOrBefore(obs, upTo), after, upTo);
  }

  /** An anchor, a non-empty window and no hole longer than the limit, up to the close. */
  ghost predicate Covers(obs: seq<Observation>, entry: int, close: int, limit: int) {
    var a, e := LastAtOrBefore(obs, entry), LastAtOrBefore(obs, close);
    && 0 <= a < e
    && (forall k | a < k <= e :: obs[k].ts - obs[k - 1].ts <= limit)
    && close - obs[e].ts <= limit
  }

  /** Index `m` is the first highest high of the window. */
  ghost predicate HighestAt(w: seq<Observation>, m: int) {
    && 0 <= m < |w|
    && (forall i | 0 <= i < |w| :: w[i].high <= w[m].high)
    && (forall i | 0 <= i < m :: w[i].high < w[m].high)
  }

  ghost predicate LowestAt(w: seq<Observation>, m: int) {
    && 0 <= m < |w|
    && (forall i | 0 <= i < |w| :: w[i].low >= w[m].low)
    && (forall i | 0 <= i < m :: w[i].low > w[m].low)
  }

  ghost predicate IsFirstHighest(w: seq<Observation>, o: Observation) { exists m :: HighestAt(w, m) && w[m] == o }

  ghost predicate IsFirstLowest(w: seq<Observation>, o: Observation) { exists m :: LowestAt(w, m) && w[m] == o }

  /** `r` measures the window between the anchor `a` and the last observation `e`. */
  ghost predicate IsExcursion(obs: seq<Observation>, a: int, e: int, r: ExcursionResult)
    requires 0 <= a < e < |obs|
  {
    var w := obs[a + 1..e + 1];
    && r.entryPrice == obs[a].price && r.closePrice == obs[e].price && r.sampleCount == e - a
    && (exists up :: IsFirstHighest(w, up) && r.upMaxTs == up.ts && r.upMax == MaxReal(0.0, up.high - r.entryPrice))
    && (exists down :: IsFirstLowest(w, down) && r.downMaxTs == down.ts && r.downMax == MaxReal(0.0, r.entryPrice - down.low))
  }

  method FindAnchor(obs: seq<Observation>, entry: int) returns (anchor: int)
    requires Ordered(obs)
    ensures anchor == LastAtOrBefore(obs, entry)
  {
    anchor := -1;
    var index := 0;
    while index < |obs|
      invariant 0 <= index <= |obs| && anchor == index - 1
      invariant forall i | 0 <= i < index :: obs[i].ts <= entry
    {
      if obs[index].ts <= entry {
        anchor := index;
      } else {
        break;
      }
      index := index + 1;
    }
    LastIsDetermined(obs, entry, anchor);
  }

  /** No hole from `start` through the window up to the close. */
  ghost predicate NoHole(start: int, window: seq<Observation>, close: int, limit: int)
    requires window != []
  {
    && window[0].ts - start <= limit
    && (forall i | 0 < i < |window| :: window[i].ts - window[i - 1].ts <= limit)
    && close - window[|window| - 1].ts <= limit
  }

  method CheckCoverage(start: int, window: seq<Observation>, close: int, limit: int) returns (covered: bool)
    requires window != []
    ensures covered <==> NoHole(start, window, close, limit)
  {
    var previous := start;
    for k := 0 to |window|
      invariant previous == if k == 0 then start else window[k - 1].ts
      invariant k > 0 ==> window[0].ts - start <= limit
      invariant forall i | 0 < i < k :: window[i].ts - window[i - 1].ts <= limit
    {
      if window[k].ts - previous > limit { return false; }
      previous := window[k].ts;
    }
    covered := close - previous <= limit;
  }

  method FindExtremes(window: seq<Observation>) returns (up: Observation, down: Observation)
    requires window != []
    ensures IsFirstHighest(window, up) && IsFirstLowest(window, down)
  {
    up, down := window[0], window[0];
    ghost var u, d := 0, 0;
    for k := 1 to |window|
      invariant HighestAt(window[..k], u) && up == window[u]
      invariant LowestAt(window[..k], d) && down == window[d]
    {
      if window[k].high > up.high {
        up, u := window[k], k;
      }
      if window[k].low < down.low {
        down, d := window[k], k;
      }
    }
    assert window[..|window|] == window;
  }

  /** The first check that a refused measurement fails. */
  ghost function Refusal(series: Series, entry: int, close: int, maxGapSeconds: int): ExcursionError {
    if entry >= close then EntryNotBeforeClose
    else if maxGapSeconds <= 0 then BadGapLimit
    else if Normalize(series).Err? then Normalize(series).error
    else if LastAtOrBefore(Observations(series), entry) < 0 then NoAnchor
    else if LastAtOrBefore(Observations(series), close) <= LastAtOrBefore(Observations(series), entry) then NoWindow
    else CoverageGap
  }

  method RealizedExcursion(series: Series, entry: int, close: int, maxGapSeconds: int)
      returns (r: Result<ExcursionResult, ExcursionError>)
    ensures r.Ok? <==>
      && entry < close && maxGapSeconds > 0 && Normalize(series).Ok?
      && Covers(Observations(series), entry, close, maxGapSeconds * 1_000_000)
    ensures r.Err? ==> r.error == Refusal(series, entry, close, maxGapSeconds)
    ensures r.Ok? ==>
      var obs := Observations(series);
      && r.value.entryTs == entry && r.value.closeTs == close
      && IsExcursion(obs, LastAtOrBefore(obs, entry), LastAtOrBefore(obs, close), r.value)
  {
    hide Observations, Window, LastAtOrBefore, IsFirstHighest, IsFirstLowest, NoHole, Ordered, NeighboursOrdered, Covers;
    if !(entry < close) { return Err(EntryNotBeforeClose); }
    if maxGapSeconds <= 0 { return Err(BadGapLimit); }
    var normalized := Normalize(series);
    if normalized.Err? { return Err(normalized.error); }
    var obs := normalized.value;
    NeighboursSuffice(obs);
    var anchor := FindAnchor(obs, entry);
    WindowIsContiguous(obs, entry, close);
    var window := Window(obs, |obs|, entry, close);
    var limit := maxGapSeconds * MICROSECONDS_PER_SECOND;
    CoverageOfWindow(obs, entry, close, limit);
    if anchor < 0 { return Err(NoAnchor); }
    if window == [] { return Err(NoWindow); }
    var covered := CheckCoverage(obs[anchor].ts, window, close, limit);
    if !covered { return Err(CoverageGap); }
    var entryPrice := obs[anchor].price;
    var up, down := FindExtremes(window);
    assert window[|window| - 1] == obs[LastAtOrBefore(obs, close)];
    r := Ok(ExcursionResult(
      entry, close, entryPrice, window[|window| - 1].price,
      MaxReal(0.0, up.high - entryPrice), MaxReal(0.0, entryPrice - down.low), up.ts, down.ts, |window|));
  }

  /** Gaps between neighbours, seen in the series or in its window. */
  lemma GapsOfWindow(obs: seq<Observation>, a: int, e: int, limit: int)
    requires 0 <= a < e < |obs|
    ensures var w := obs[a + 1..e + 1];
      (forall k | a < k <= e :: obs[k].ts - obs[k - 1].ts <= limit)
      <==> w[0].ts - obs[a].ts <= limit && forall i | 0 < i < |w| :: w[i].ts - w[i - 1].ts <= limit
  {
    var w := obs[a + 1..e + 1];
    if w[0].ts - obs[a].ts <= limit && forall i | 0 < i < |w| :: w[i].ts - w[i - 1].ts <= limit {
      forall k | a < k <= e ensures obs[k].ts - obs[k - 1].ts <= limit {
        assert obs[k] == w[k - a - 1];
        if k > a + 1 { assert obs[k - 1] == w[k - a - 2]; }
      }
    }
    if forall k | a < k <= e :: obs[k].ts - obs[k - 1].ts <= limit {
      forall i | 0 < i < |w| ensures w[i].ts - w[i - 1].ts <= limit {
        assert w[i] == obs[a + 1 + i] && w[i - 1] == obs[a + i];
      }
    }
  }

  lemma CoverageOfWindow(obs: seq<Observation>, entry: int, close: int, limit: int)
    requires LastAtOrBefore(obs, entry) <= LastAtOrBefore(obs, close)
    ensures var a, e := LastAtOrBefore(obs, entry), LastAtOrBefore(obs, close);
      Covers(obs, entry, close, limit) <==> 0 <= a < e && NoHole(obs[a].ts, obs[a + 1..e + 1], close, limit)
  {
    hide LastAtOrBefore;
    var a, e := LastAtOrBefore(obs, entry), LastAtOrBefore(obs, close);
    if 0 <= a < e {
      GapsOfWindow(obs, a, e, limit);
      assert obs[a + 1..e + 1][e - a - 1] == obs[e];
    }
  }

  /** The close lies inside the excursions measured from the entry price. */
  lemma CloseLiesInsideExcursions(series: Series, a: int, e: int, r: ExcursionResult)
    requires ValidSeries(series) && 0 <= a < e < |Observations(series)|
    requires IsExcursion(Observations(series), a, e, r)
    ensures r.upMax >= 0.0 && r.downMax >= 0.0
    ensures r.entryPrice - r.downMax <= r.closePrice <= r.entryPrice + r.upMax
  {
    hide Observations, IsFirstHighest, IsFirstLowest;
    var obs := Observations(series);
    ObservationsAreSane(series);
    var w := obs[a + 1..e + 1];
    var up :| IsFirstHighest(w, up) && r.upMaxTs == up.ts && r.upMax == MaxReal(0.0, up.high - r.entryPrice);
    var down :| IsFirstLowest(w, down) && r.downMaxTs == down.ts && r.downMax == MaxReal(0.0, r.entryPrice - down.low);
    LastWithinExtremes(w, up, down);
    assert w[|w| - 1] == obs[e] && obs[e] in obs;
  }

  lemma LastWithinExtremes(w: seq<Observation>, up: Observation, down: Observation)
    requires w != [] && IsFirstHighest(w, up) && IsFirstLowest(w, down)
    ensures w[|w| - 1].high <= up.high && down.low <= w[|w| - 1].low
  {
  }

  lemma ObservationsAreSane(series: Series)
    requires ValidSeries(series)
    ensures forall o | o in Observations(series) :: o.low <= o.price <= o.high
  {
    if series.Bars? {
      forall i | 0 <= i < |series.bars|
        ensures var o := Observations(series)[i]; o.low <= o.price <= o.high
      {
        assert series.bars[i] in series.bars;
      }
    }
  }

  // ----- the measurement, read off the series itself -----

  /** The upward excursion of these minute bars from a price, and where it was first reached. */
  ghost predicate RisesBy(window: seq<MinuteBar>, price: real, move: real, ts: int) {
    && move >= 0.0 && (forall k | 0 <= k < |window| :: window[k].high - price <= move)
    && exists k | 0 <= k < |window| ::
         && window[k].ts == ts && move == MaxReal(0.0, window[k].high - price)
         && forall j | 0 <= j < k :: window[j].high < window[k].high
  }

  ghost predicate FallsBy(window: seq<MinuteBar>, price: real, move: real, ts: int) {
    && move >= 0.0 && (forall k | 0 <= k < |window| :: price - window[k].low <= move)
    && exists k | 0 <= k < |window| ::
         && window[k].ts == ts && move == MaxReal(0.0, price - window[k].low)
         && forall j | 0 <= j < k :: window[j].low > window[k].low
  }

  lemma HighestRises(window: seq<MinuteBar>, price: real, up: Observation)
    requires IsFirstHighest(Observations(Bars(window)), up)
    ensures RisesBy(window, price, MaxReal(0.0, up.high - price), up.ts)
  {
    var obs := Observations(Bars(window));
    var m :| HighestAt(obs, m) && obs[m] == up;
    assert forall k | 0 <= k < |window| :: obs[k].high == window[k].high;
  }

  lemma LowestFalls(window: seq<MinuteBar>, price: real, down: Observation)
    requires IsFirstLowest(Observations(Bars(window)), down)
    ensures FallsBy(window, price, MaxReal(0.0, price - down.low), down.ts)
  {
    var obs := Observations(Bars(window));
    var m :| LowestAt(obs, m) && obs[m] == down;
    assert forall k | 0 <= k < |window| :: obs[k].low == window[k].low;
  }

  lemma WindowOfBars(bars: seq<MinuteBar>, a: int, e: int)
    requires 0 <= a < e < |bars|
    ensures var obs := Observations(Bars(bars));
      && |obs| == |bars| && obs[a].price == bars[a].close && obs[e].price == bars[e].close
      && obs[a + 1..e + 1] == Observations(Bars(bars[a + 1..e + 1]))
  {
  }

  lemma Extremes(obs: seq<Observation>, a: int, e: int, w: seq<Observation>, r: ExcursionResult)
      returns (up: Observation, down: Observation)
    requires 0 <= a < e < |obs| && w == obs[a + 1..e + 1] && IsExcursion(obs, a, e, r)
    ensures r.entryPrice == obs[a].price && r.closePrice == obs[e].price && r.sampleCount == e - a
    ensures IsFirstHighest(w, up) && r.upMaxTs == up.ts && r.upMax == MaxReal(0.0, up.high - r.entryPrice)
    ensures IsFirstLowest(w, down) && r.downMaxTs == down.ts && r.downMax == MaxReal(0.0, r.entryPrice - down.low)
  {
    hide IsFirstHighest, IsFirstLowest, MaxReal;
    up :| IsFirstHighest(w, up) && r.upMaxTs == up.ts && r.upMax == MaxReal(0.0, up.high - r.entryPrice);
    down :| IsFirstLowest(w, down) && r.downMaxTs == down.ts && r.downMax == MaxReal(0.0, r.entryPrice - down.low);
  }

  /** Measured on minute bars, an excursion runs from the close of the anchor bar to the close of the last bar, over the
      highs and lows of the bars between them. */
  lemma ExcursionOfBars(bars: seq<MinuteBar>, a: int, e: int, r: ExcursionResult)
    requires 0 <= a < e < |bars| && |Observations(Bars(bars))| == |bars| && IsExcursion(Observations(Bars(bars)), a, e, r)
    ensures r.entryPrice == bars[a].close && r.closePrice == bars[e].close && r.sampleCount == e - a
    ensures RisesBy(bars[a + 1..e + 1], r.entryPrice, r.upMax, r.upMaxTs)
    ensures FallsBy(bars[a + 1..e + 1], r.entryPrice, r.downMax, r.downMaxTs)
  {
    WindowOfBars(bars, a, e);
    hide Observations, IsFirstHighest, IsFirstLowest, IsExcursion, RisesBy, FallsBy, MaxReal;
    var window := bars[a + 1..e + 1];
    var up, down := Extremes(Observations(Bars(bars)), a, e, Observations(Bars(window)), r);
    HighestRises(window, r.entryPrice, up);
    LowestFalls(window, r.entryPrice, down);
  }

  /** Points are bars of their own price. */
  lemma PointsAreFlatBars(points: seq<(int, real)>)
    ensures var bars := seq(|points|, i requires 0 <= i < |points| =>
                          MinuteBar(points[i].0, points[i].1, points[i].1, points[i].1));
      Observations(Points(points)) == Observations(Bars(bars))
  {
  }
}
