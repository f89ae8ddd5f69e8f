/** The conservative empirical quantile: an order statistic, never interpolated. */
module EmpiricalQuantile {
  import opened Common
  import opened Sorting

  datatype QuantileError = NoValues | QuantileOutOfRange | NegativeValue

  predicate RealLe(a: real, b: real) { a <= b }

  /** How many of the values are at most `t`. */
  function CountLe(xs: seq<real>, t: real): (c: nat)
    ensures c <= |xs|
  {
    if xs == [] then 0
    else CountLe(xs[..|xs| - 1], t) + if xs[|xs| - 1] <= t then 1 else 0
  }

  function HigherIndex(quantile: real, count: nat): int {
    MaxInt(0, Ceil(quantile * count as real) - 1)
  }

  lemma HigherIndexInRange(quantile: real, count: nat)
    requires 0.0 < quantile < 1.0 && count > 0
    ensures 0 <= HigherIndex(quantile, count) < count
    ensures HigherIndex(quantile, count) as real < quantile * count as real
         <= HigherIndex(quantile, count) as real + 1.0
  {
    var x, n := quantile * count as real, count as real;
    ScaledStrictly(0.0, quantile, n);
    ScaledStrictly(quantile, 1.0, n);
    assert 0.0 < x < n;
  }

  function QuantileHigher(values: seq<real>, quantile: real): (r: Result<real, QuantileError>)
    ensures r.Ok? <==> values != [] && 0.0 < quantile < 1.0 && forall v | v in values :: v >= 0.0
    ensures r.Ok? ==> r.value in values
  {
    if values == [] then Err(NoValues)
    else if !(0.0 < quantile < 1.0) then Err(QuantileOutOfRange)
    else if exists v | v in values :: v < 0.0 then Err(NegativeValue)
    else
      HigherIndexInRange(quantile, |values|);
      SortKeepsElements(RealLe, values);
      Ok(SortBy(RealLe, values)[HigherIndex(quantile, |values|)])
  }

  lemma {:induction false} CountAfterInsert(x: real, s: seq<real>, t: real)
    ensures CountLe(Insert(RealLe, x, s), t) == CountLe(s, t) + if x <= t then 1 else 0
  {
    if s == [] {
      assert Insert(RealLe, x, s) == [x];
    } else if s[|s| - 1] <= x {
      assert (s + [x])[..|s|] == s;
    } else {
      var front := Insert(RealLe, x, s[..|s| - 1]);
      CountAfterInsert(x, s[..|s| - 1], t);
      assert Insert(RealLe, x, s) == front + [s[|s| - 1]];
      assert (front + [s[|s| - 1]])[..|front|] == front;
    }
  }

  lemma {:induction false} CountAfterSort(s: seq<real>, t: real)
    ensures CountLe(SortBy(RealLe, s), t) == CountLe(s, t)
  {
    if s != [] {
      CountAfterSort(s[..|s| - 1], t);
      CountAfterInsert(s[|s| - 1], SortBy(RealLe, s[..|s| - 1]), t);
    }
  }

  lemma {:induction false} CountInSorted(s: seq<real>, k: nat, t: real)
    requires SortedBy(RealLe, s) && k < |s|
    ensures s[k] <= t ==> CountLe(s, t) >= k + 1
    ensures t < s[k] ==> CountLe(s, t) <= k
  {
    var front := s[..|s| - 1];
    if k < |s| - 1 {
      CountInSorted(front, k, t);
      assert RealLe(s[k], s[|s| - 1]);
    } else if s[k] <= t {
      assert forall j | 0 <= j < k :: RealLe(s[j], s[k]);
      CountOfAll(front, t);
    }
  }

  lemma {:induction false} CountOfAll(s: seq<real>, t: real)
    requires forall i | 0 <= i < |s| :: s[i] <= t
    ensures CountLe(s, t) == |s|
  {
    if s != [] {
      CountOfAll(s[..|s| - 1], t);
    }
  }

  /** The quantile is the least threshold that covers the share `quantile` of the values. */
  lemma QuantileIsLeastCover(values: seq<real>, quantile: real, t: real)
    requires QuantileHigher(values, quantile).Ok?
    ensures CountLe(values, t) as real >= quantile * |values| as real
       <==> t >= QuantileHigher(values, quantile).value
  {
    hide *;
    QuantileIsOrderStatistic(values, quantile);
    HigherIndexInRange(quantile, |values|);
    CountAtHigherIndex(values, HigherIndex(quantile, |values|), t);
  }

  lemma QuantileIsOrderStatistic(values: seq<real>, quantile: real)
    requires QuantileHigher(values, quantile).Ok?
    ensures values != [] && 0 <= HigherIndex(quantile, |values|) < |values|
    ensures QuantileHigher(values, quantile).value == SortBy(RealLe, values)[HigherIndex(quantile, |values|)]
  {
    HigherIndexInRange(quantile, |values|);
  }

  /** A higher quantile is never a smaller value. */
  lemma QuantileGrows(values: seq<real>, low: real, high: real)
    requires low <= high && QuantileHigher(values, low).Ok? && QuantileHigher(values, high).Ok?
    ensures QuantileHigher(values, low).value <= QuantileHigher(values, high).value
  {
    hide *;
    var top := QuantileHigher(values, high).value;
    QuantileIsLeastCover(values, low, top);
    QuantileIsLeastCover(values, high, top);
    assert (high - low) * |values| as real >= 0.0;
  }

  lemma CountAtHigherIndex(values: seq<real>, k: nat, t: real)
    requires k < |values|
    ensures SortBy(RealLe, values)[k] <= t ==> CountLe(values, t) >= k + 1
    ensures t < SortBy(RealLe, values)[k] ==> CountLe(values, t) <= k
  {
    SortIsSorted(RealLe, values);
    CountAfterSort(values, t);
    CountInSorted(SortBy(RealLe, values), k, t);
  }
}
