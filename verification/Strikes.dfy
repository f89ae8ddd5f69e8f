/** Strike selection on the exchange grid and settlement of the condor at the close. */
module Strikes {
  import opened Common

  datatype IronCondor = IronCondor(shortPut: int, longPut: int, shortCall: int, longCall: int)

  datatype StrikeError =
    CenterNotPositive | NegativeTail | BadIncrement | CloseNotPositive | WingsNotSymmetric

  const STRIKE_INCREMENT := 5
  const WING_WIDTH := 5

  function SelectStrikes(center: real, upTail: real, downTail: real, jointBuffer: real, upBuffer: real, downBuffer: real,
                         increment: int, wing: int): (r: Result<IronCondor, StrikeError>)
  {
    if center <= 0.0 then Err(CenterNotPositive)
    else if upTail < 0.0 || downTail < 0.0 || jointBuffer < 0.0 || upBuffer < 0.0 || downBuffer < 0.0 then
      Err(NegativeTail)
    else if increment <= 0 || wing <= 0 then Err(BadIncrement)
    else
      var callDistance := upTail + jointBuffer + upBuffer;
      var putDistance := downTail + jointBuffer + downBuffer;
      var shortCall := increment * Ceil((center + callDistance) / increment as real);
      var shortPut := increment * ((center - putDistance) / increment as real).Floor;
      Ok(IronCondor(shortPut, shortPut - wing, shortCall, shortCall + wing))
  }

  /** The call used by every economics run: 5-point grid, 5-point wings, no further buffers. */
  function SelectDefault(center: real, upTail: real, downTail: real): Result<IronCondor, StrikeError> {
    SelectStrikes(center, upTail, downTail, 0.0, 0.0, 0.0, STRIKE_INCREMENT, WING_WIDTH)
  }

  lemma GridCeiling(x: real, step: int)
    requires step > 0
    ensures x <= (step * Ceil(x / step as real)) as real < x + step as real
  {
    var q, s := x / step as real, step as real;
    assert q * s == x;
    var c := Ceil(q) as real;
    assert (c - q) * s == c * s - x;
    assert 0.0 <= (c - q) * s < s;
    assert (step * Ceil(q)) as real == s * c;
  }

  lemma GridFloor(x: real, step: int)
    requires step > 0
    ensures x - step as real < (step * (x / step as real).Floor) as real <= x
  {
    GridCeiling(-x, step);
    assert -x / step as real == -(x / step as real);
    assert step * (x / step as real).Floor == -(step * Ceil(-x / step as real));
  }

  /** The short strikes are the tightest ones of the grid outside the corridor. */
  lemma StrikesAreTightest(center: real, upTail: real, downTail: real, jointBuffer: real, upBuffer: real, downBuffer: real,
                           increment: int, wing: int)
    requires SelectStrikes(center, upTail, downTail, jointBuffer, upBuffer, downBuffer, increment, wing).Ok?
    ensures var s := SelectStrikes(center, upTail, downTail, jointBuffer, upBuffer, downBuffer, increment, wing).value;
      var high, low := center + upTail + jointBuffer + upBuffer, center - downTail - jointBuffer - downBuffer;
      && high <= s.shortCall as real < high + increment as real
      && low - increment as real < s.shortPut as real <= low
      && s.shortPut - s.longPut == wing == s.longCall - s.shortCall
      && (exists k: int :: s.shortCall == increment * k) && (exists k: int :: s.shortPut == increment * k)
  {
    GridCeiling(center + (upTail + jointBuffer + upBuffer), increment);
    GridFloor(center - (downTail + jointBuffer + downBuffer), increment);
  }

  /** When no strikes are selected: the center is not positive, or else a distance is negative, or else the grid or the
      wing has no size. */
  lemma SelectionFails(center: real, upTail: real, downTail: real, jointBuffer: real, upBuffer: real, downBuffer: real,
                       increment: int, wing: int)
    ensures var r := SelectStrikes(center, upTail, downTail, jointBuffer, upBuffer, downBuffer, increment, wing);
      var least := MinReal(upTail, MinReal(downTail, MinReal(jointBuffer, MinReal(upBuffer, downBuffer))));
      && (r == Err(CenterNotPositive) <==> center <= 0.0)
      && (r == Err(NegativeTail) <==> center > 0.0 && least < 0.0)
      && (r == Err(BadIncrement) <==> center > 0.0 && least >= 0.0 && (increment <= 0 || wing <= 0))
      && (r.Ok? <==> center > 0.0 && least >= 0.0 && increment > 0 && wing > 0)
  {
  }

  /** The economics runs use 5-point grids and wings: shorts on multiples of 5 within 5 points outside the corridor,
      longs 5 points further out. */
  lemma DefaultStrikes(center: real, up: real, down: real)
    requires center > 0.0 && up >= 0.0 && down >= 0.0
    ensures SelectDefault(center, up, down).Ok?
    ensures var s := SelectDefault(center, up, down).value;
      && center + up <= s.shortCall as real < center + up + 5.0 && s.shortCall % 5 == 0 && s.longCall == s.shortCall + 5
      && center - down - 5.0 < s.shortPut as real <= center - down && s.shortPut % 5 == 0 && s.longPut == s.shortPut - 5
  {
    StrikesAreTightest(center, up, down, 0.0, 0.0, 0.0, STRIKE_INCREMENT, WING_WIDTH);
  }

  function Settle(s: IronCondor, close: real): (r: Result<real, StrikeError>)
  {
    var wing := s.shortPut - s.longPut;
    if close <= 0.0 then Err(CloseNotPositive)
    else if wing <= 0 || s.longCall - s.shortCall != wing then Err(WingsNotSymmetric)
    else Ok(MinReal(MaxReal(RawLoss(s, close), 0.0), wing as real))
  }

  /** Short-leg losses minus what the long legs recover. */
  function RawLoss(s: IronCondor, close: real): real {
    MaxReal(0.0, s.shortPut as real - close) + MaxReal(0.0, close - s.shortCall as real)
    - (MaxReal(0.0, s.longPut as real - close) + MaxReal(0.0, close - s.longCall as real))
  }

  /** The loss is, point for point, how far the close lies beyond the nearer short strike, up to the wing:
      zero exactly between the short strikes and the full wing exactly beyond a long strike. The clamp on it
      never changes it. */
  lemma SettlementShape(s: IronCondor, close: real)
    requires Settle(s, close).Ok? && s.shortPut <= s.shortCall
    ensures var loss, wing := Settle(s, close).value, (s.shortPut - s.longPut) as real;
      && loss == RawLoss(s, close)
      && loss == MinReal(wing, MaxReal(0.0, s.shortPut as real - close) + MaxReal(0.0, close - s.shortCall as real))
      && 0.0 <= loss <= wing
      && (loss == 0.0 <==> s.shortPut as real <= close <= s.shortCall as real)
      && (loss == wing <==> close <= s.longPut as real || close >= s.longCall as real)
  {
  }

  /** Settlement fails exactly on a close that is not positive, and otherwise on wings that are empty or unequal. */
  lemma SettlementFails(s: IronCondor, close: real)
    ensures Settle(s, close) == Err(CloseNotPositive) <==> close <= 0.0
    ensures Settle(s, close) == Err(WingsNotSymmetric) <==>
      close > 0.0 && (s.longPut >= s.shortPut || s.shortPut - s.longPut != s.longCall - s.shortCall)
    ensures Settle(s, close).Ok? <==> close > 0.0 && s.longPut < s.shortPut && s.shortPut - s.longPut == s.longCall - s.shortCall
  {
  }

  /** A close inside the corridor that the strikes were built from settles with no loss. */
  lemma CorridorSettlesFlat(entry: real, close: real, up: real, down: real)
    requires entry > 0.0 && close > 0.0 && up >= 0.0 && down >= 0.0
    requires entry - down <= close <= entry + up
    ensures SelectDefault(entry, up, down).Ok?
    ensures Settle(SelectDefault(entry, up, down).value, close) == Ok(0.0)
  {
    StrikesAreTightest(entry, up, down, 0.0, 0.0, 0.0, STRIKE_INCREMENT, WING_WIDTH);
    SettlementShape(SelectDefault(entry, up, down).value, close);
  }
}
