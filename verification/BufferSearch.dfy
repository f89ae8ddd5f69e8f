/** The grid search for the smallest pair of buffers that reaches a joint coverage target. */
module BufferSearch {
  import opened Common

  datatype GridError = BadBufferMax | BadBufferStep

  ghost predicate Increasing(grid: seq<real>) {
    forall i, j | 0 <= i < j < |grid| :: grid[i] < grid[j]
  }

  function Multiples(step: real, n: nat): (r: seq<real>)
    requires step > 0.0
    ensures |r| == n + 1 && r[0] == 0.0 && r[n] == n as real * step && Increasing(r)
    ensures forall i | 0 < i <= n :: r[i] == r[i - 1] + step
  {
    MultiplesIncrease(step, n);
    seq(n + 1, (i: nat) => i as real * step)
  }

  lemma MultiplesIncrease(step: real, n: nat)
    requires step > 0.0
    ensures Increasing(seq(n + 1, (i: nat) => i as real * step))
  {
    var grid := seq(n + 1, (i: nat) => i as real * step);
    forall i, j | 0 <= i < j < |grid| ensures grid[i] < grid[j] {
      ScaledStrictly(i as real, j as real, step);
    }
  }

  /** The multiples of `bufferStep` from zero up to `bufferMax`. */
  function BufferGrid(bufferMax: real, bufferStep: real): (r: Result<seq<real>, GridError>)
    ensures r.Ok? <==> bufferMax >= 0.0 && bufferStep > 0.0
    ensures r.Ok? ==> var grid := r.value;
      && grid != [] && grid[0] == 0.0 && Increasing(grid)
      && (forall i | 0 < i < |grid| :: grid[i] == grid[i - 1] + bufferStep)
      && grid[|grid| - 1] <= bufferMax < grid[|grid| - 1] + bufferStep
  {
    if bufferMax < 0.0 then Err(BadBufferMax)
    else if bufferStep <= 0.0 then Err(BadBufferStep)
    else
      var steps := (bufferMax / bufferStep).Floor;
      GridEnd(bufferMax, bufferStep, steps as real);
      Ok(Multiples(bufferStep, steps))
  }

  lemma GridEnd(bufferMax: real, bufferStep: real, steps: real)
    requires bufferStep > 0.0 && steps <= bufferMax / bufferStep < steps + 1.0
    ensures steps * bufferStep <= bufferMax < steps * bufferStep + bufferStep
  {
    QuotientBelow(bufferMax, bufferStep, steps);
    QuotientBelow(bufferMax, bufferStep, steps + 1.0);
  }

  /** A whole number of steps. */
  predicate IsMultiple(x: real, step: real)
    requires step > 0.0
  {
    (x / step).Floor as real * step == x
  }

  lemma {:induction false} GridPoint(bufferMax: real, bufferStep: real, i: nat)
    requires bufferMax >= 0.0 && bufferStep > 0.0 && i < |BufferGrid(bufferMax, bufferStep).value|
    ensures BufferGrid(bufferMax, bufferStep).value[i] == i as real * bufferStep
  {
    hide BufferGrid;
    if i > 0 {
      GridPoint(bufferMax, bufferStep, i - 1);
      assert i as real * bufferStep == (i - 1) as real * bufferStep + bufferStep;
    }
  }

  lemma WholeSteps(k: int, step: real)
    requires step > 0.0
    ensures IsMultiple(k as real * step, step)
  {
    assert (k as real * step) / step == k as real;
  }

  /** The grid is every multiple of the step from zero up to the maximum, and nothing else. */
  lemma GridIsAllMultiples(bufferMax: real, bufferStep: real, x: real)
    requires bufferMax >= 0.0 && bufferStep > 0.0
    ensures (exists i :: 0 <= i < |BufferGrid(bufferMax, bufferStep).value|
                         && BufferGrid(bufferMax, bufferStep).value[i] == x)
       <==> 0.0 <= x <= bufferMax && IsMultiple(x, bufferStep)
  {
    hide BufferGrid, IsMultiple;
    var grid := BufferGrid(bufferMax, bufferStep).value;
    forall i | 0 <= i < |grid| ensures 0.0 <= grid[i] <= bufferMax && IsMultiple(grid[i], bufferStep) {
      GridPoint(bufferMax, bufferStep, i);
      WholeSteps(i, bufferStep);
    }
    if 0.0 <= x <= bufferMax && IsMultiple(x, bufferStep) {
      var k := StepsTo(x, bufferStep);
      var last: nat := |grid| - 1;
      GridPoint(bufferMax, bufferStep, last);
      BelowEnd(k as real, last as real, bufferStep, x, grid[last]);
      GridPoint(bufferMax, bufferStep, k);
    }
  }

  lemma StepsTo(x: real, step: real) returns (k: nat)
    requires x >= 0.0 && step > 0.0 && IsMultiple(x, step)
    ensures k as real * step == x
  {
    QuotientBelow(x, step, 0.0);
    k := (x / step).Floor;
  }

  lemma BelowEnd(k: real, last: real, step: real, x: real, end: real)
    requires step > 0.0 && k * step == x && last * step == end && x < end + step
    ensures k < last + 1.0
  {
    assert (last + 1.0) * step == last * step + step;
    ScaledStrictly(k, last + 1.0, step);
  }

  /** The days on which both excesses stay within their buffers. */
  function Covered(up: seq<real>, down: seq<real>, bufferUp: real, bufferDown: real): (c: nat)
    requires |up| == |down|
    ensures c <= |up|
  {
    if up == [] then 0
    else
      var n := |up| - 1;
      Covered(up[..n], down[..n], bufferUp, bufferDown)
      + if up[n] <= bufferUp && down[n] <= bufferDown then 1 else 0
  }

  function Coverage(up: seq<real>, down: seq<real>, bufferUp: real, bufferDown: real): (c: real)
    requires |up| == |down| > 0
    ensures 0.0 <= c <= 1.0
  {
    Covered(up, down, bufferUp, bufferDown) as real / |up| as real
  }

  predicate Feasible(up: seq<real>, down: seq<real>, target: real, bufferUp: real, bufferDown: real)
    requires |up| == |down| > 0
  {
    Coverage(up, down, bufferUp, bufferDown) >= target
  }

  /** The lexicographic order on (total, up, down). */
  predicate KeyLess(u0: real, d0: real, u1: real, d1: real) {
    u0 + d0 < u1 + d1 || (u0 + d0 == u1 + d1 && (u0 < u1 || (u0 == u1 && d0 < d1)))
  }

  lemma {:induction false} CoveredIsMonotone(up: seq<real>, down: seq<real>, u0: real, d0: real, u1: real, d1: real)
    requires |up| == |down| && u0 <= u1 && d0 <= d1
    ensures Covered(up, down, u0, d0) <= Covered(up, down, u1, d1)
  {
    if up != [] {
      CoveredIsMonotone(up[..|up| - 1], down[..|up| - 1], u0, d0, u1, d1);
    }
  }

  lemma FeasibleIsMonotone(up: seq<real>, down: seq<real>, target: real, u0: real, d0: real, u1: real, d1: real)
    requires |up| == |down| > 0 && u0 <= u1 && d0 <= d1
    requires Feasible(up, down, target, u0, d0)
    ensures Feasible(up, down, target, u1, d1)
  {
    CoveredIsMonotone(up, down, u0, d0, u1, d1);
    DivisionIsMonotone(Covered(up, down, u0, d0) as real, Covered(up, down, u1, d1) as real, |up| as real);
  }

  lemma DivisionIsMonotone(a: real, b: real, n: real)
    requires a <= b && n > 0.0
    ensures a / n <= b / n
  {
  }

  datatype Choice = Choice(up: real, down: real, coverage: real)

  /** `c` is feasible and no feasible pair among the first `rows` rows of the grid is below it. */
  ghost predicate LeastUpTo(up: seq<real>, down: seq<real>, target: real, grid: seq<real>, rows: nat, c: Choice)
    requires |up| == |down| > 0 && rows <= |grid|
  {
    && c.up in grid && c.down in grid
    && Feasible(up, down, target, c.up, c.down)
    && c.coverage == Coverage(up, down, c.up, c.down)
    && forall i, j | 0 <= i < rows && 0 <= j < |grid| && Feasible(up, down, target, grid[i], grid[j]) ::
         !KeyLess(grid[i], grid[j], c.up, c.down)
  }

  ghost predicate NoneUpTo(up: seq<real>, down: seq<real>, target: real, grid: seq<real>, rows: nat)
    requires |up| == |down| > 0 && rows <= |grid|
  {
    forall i, j | 0 <= i < rows && 0 <= j < |grid| :: !Feasible(up, down, target, grid[i], grid[j])
  }

  /** The search over every pair of the grid that the early break must agree with. */
  ghost predicate IsLeastFeasible(up: seq<real>, down: seq<real>, target: real, grid: seq<real>, best: Option<Choice>)
    requires |up| == |down| > 0
  {
    match best
    case None => NoneUpTo(up, down, target, grid, |grid|)
    case Some(c) => LeastUpTo(up, down, target, grid, |grid|, c)
  }

  method CalibrateSideBuffers(up: seq<real>, down: seq<real>, target: real, grid: seq<real>)
      returns (best: Option<Choice>)
    requires |up| == |down| > 0
    requires grid != [] && Increasing(grid)
    ensures IsLeastFeasible(up, down, target, grid, best)
  {
    best := None;
    for i := 0 to |grid|
      invariant best.None? ==> NoneUpTo(up, down, target, grid, i)
      invariant best.Some? ==> LeastUpTo(up, down, target, grid, i, best.value)
    {
      var bufferUp := grid[i];
      var j := 0;
      ghost var before := best;
      while j < |grid|
        invariant 0 <= j <= |grid| && best == before
        invariant forall b | 0 <= b < j :: !Feasible(up, down, target, bufferUp, grid[b])
      {
        var bufferDown := grid[j];
        var coverage := Coverage(up, down, bufferUp, bufferDown);
        if coverage >= target {
          // A larger bufferDown in this row only raises the key.
          if best.None? || KeyLess(bufferUp, bufferDown, best.value.up, best.value.down) {
            best := Some(Choice(bufferUp, bufferDown, coverage));
          }
          break;
        }
        j := j + 1;
      }
    }
  }

  /** The least feasible pair is unique, so every correct search returns the same buffers. */
  lemma LeastFeasibleIsUnique(up: seq<real>, down: seq<real>, target: real, grid: seq<real>,
                              a: Option<Choice>, b: Option<Choice>)
    requires |up| == |down| > 0
    requires IsLeastFeasible(up, down, target, grid, a) && IsLeastFeasible(up, down, target, grid, b)
    ensures a == b
  {
    if a.Some? && b.Some? {
      PairOnGrid(up, down, target, grid, a.value, b.value);
      PairOnGrid(up, down, target, grid, b.value, a.value);
    }
  }

  lemma PairOnGrid(up: seq<real>, down: seq<real>, target: real, grid: seq<real>, x: Choice, y: Choice)
    requires |up| == |down| > 0
    requires LeastUpTo(up, down, target, grid, |grid|, x) && LeastUpTo(up, down, target, grid, |grid|, y)
    ensures !KeyLess(y.up, y.down, x.up, x.down)
  {
    var i :| 0 <= i < |grid| && grid[i] == y.up;
    var j :| 0 <= j < |grid| && grid[j] == y.down;
    assert Feasible(up, down, target, grid[i], grid[j]);
  }

  /** The search fails exactly when the largest pair of the grid misses the target. */
  lemma NoneExactlyWhenMaximumMisses(up: seq<real>, down: seq<real>, target: real, grid: seq<real>, best: Option<Choice>)
    requires |up| == |down| > 0 && grid != [] && Increasing(grid)
    requires IsLeastFeasible(up, down, target, grid, best)
    ensures best.None? <==> !Feasible(up, down, target, grid[|grid| - 1], grid[|grid| - 1])
  {
    if best.Some? {
      var c := best.value;
      var top := grid[|grid| - 1];
      assert c.up <= top && c.down <= top;
      FeasibleIsMonotone(up, down, target, c.up, c.down, top, top);
    }
  }

  /** A pair of zeros that is feasible is what the search returns. */
  lemma ZeroWinsWhenFeasible(up: seq<real>, down: seq<real>, target: real, grid: seq<real>, best: Option<Choice>)
    requires |up| == |down| > 0 && grid != [] && Increasing(grid) && grid[0] == 0.0
    requires IsLeastFeasible(up, down, target, grid, best)
    requires Feasible(up, down, target, 0.0, 0.0)
    ensures best == Some(Choice(0.0, 0.0, Coverage(up, down, 0.0, 0.0)))
  {
    assert Feasible(up, down, target, grid[0], grid[0]);
    assert best.Some?;
    assert forall i | 0 <= i < |grid| :: grid[i] >= 0.0;
  }
}
