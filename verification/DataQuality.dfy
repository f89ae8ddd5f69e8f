/** The quality verdict on the quotes of one instrument from several sources. Times are in microseconds. */
module DataQuality {
  import opened Common

  datatype Field = Bid | Ask | BidSize | AskSize

  datatype Entitlement = Verified | Denied | Unknown

  datatype Observation = Observation(
    source: string, instrument: string, sourceTs: int, receivedTs: int, delayed: Option<bool>,
    entitlement: Entitlement, bid: Option<real>, ask: Option<real>,
    bidSize: Option<real>, askSize: Option<real>, stamps: map<Field, int>)

  datatype Policy = Policy(
    greenMaxAge: int, amberMaxAge: int, maxLatency: int, absoluteTolerance: real, relativeTolerance: real,
    requireTwoSources: bool, requiredFields: seq<Field>)

  ghost predicate ValidPolicy(p: Policy) {
    0 <= p.greenMaxAge <= p.amberMaxAge && p.maxLatency >= 0
    && p.absoluteTolerance >= 0.0 && p.relativeTolerance >= 0.0
  }

  datatype Status = Green | Amber | Red

  datatype Problem =
    | NotEntitled | DelayUnknown | Delayed | ReceivedBeforeSource | LatencyExceeded
    | MissingField(f: Field) | MissingStamp(f: Field) | StampAfterReceipt(f: Field)
    | FutureStamp(f: Field) | StaleField(f: Field) | FutureSource | FutureReceipt
    | ObservationStale | NegativeValue | EmptySize | Crossed

  datatype Reason =
    | NoSources | DuplicateSource | SecondSourceMissing | InstrumentMismatch | DualSourceConflict
    | OfSource(source: string, problem: Problem)

  datatype Report = Report(status: Status, freeze: bool, reasons: set<Reason>, staleFields: set<(string, Field)>,
                           sources: set<string>, observedAt: int)

  predicate PermitsDecision(r: Report) { r.status.Green? && !r.freeze }

  function ValueOf(o: Observation, f: Field): Option<real> {
    match f
    case Bid => o.bid
    case Ask => o.ask
    case BidSize => o.bidSize
    case AskSize => o.askSize
  }

  /** An age is never negative; a time in the future counts as age zero. */
  function Age(asOf: int, t: int): int { MaxInt(asOf - t, 0) }

  predicate Negative(v: Option<real>) { v.Some? && v.value < 0.0 }

  /** When an observation has a problem, whatever order the checks run in. */
  predicate HasProblem(p: Policy, o: Observation, asOf: int, problem: Problem) {
    match problem
    case NotEntitled => !o.entitlement.Verified?
    case DelayUnknown => o.delayed.None?
    case Delayed => o.delayed == Some(true)
    case ReceivedBeforeSource => o.receivedTs < o.sourceTs
    case LatencyExceeded => o.receivedTs - o.sourceTs > p.maxLatency && o.receivedTs >= o.sourceTs
    case MissingField(f) => f in p.requiredFields && ValueOf(o, f).None?
    case MissingStamp(f) => f in p.requiredFields && f !in o.stamps
    case StampAfterReceipt(f) => f in p.requiredFields && f in o.stamps && o.stamps[f] > o.receivedTs
    case FutureStamp(f) => f in p.requiredFields && f in o.stamps && o.stamps[f] > asOf
    case StaleField(f) => f in p.requiredFields && f in o.stamps && Age(asOf, o.stamps[f]) > p.amberMaxAge
    case FutureSource => o.sourceTs > asOf
    case FutureReceipt => o.receivedTs > asOf
    case ObservationStale => MaxInt(Age(asOf, o.sourceTs), Age(asOf, o.receivedTs)) > p.amberMaxAge
    case NegativeValue => Negative(o.bid) || Negative(o.ask) || Negative(o.bidSize) || Negative(o.askSize)
    case EmptySize => o.bidSize == Some(0.0) || o.askSize == Some(0.0)
    case Crossed => o.bid.Some? && o.ask.Some? && o.bid.value > o.ask.value
  }

  /** The value of a field is that side of the quote, and a value below zero is a problem on any side. */
  lemma FieldsAreSides(p: Policy, o: Observation, asOf: int)
    ensures HasProblem(p, o, asOf, MissingField(Bid)) <==> Bid in p.requiredFields && o.bid == None
    ensures HasProblem(p, o, asOf, MissingField(Ask)) <==> Ask in p.requiredFields && o.ask == None
    ensures HasProblem(p, o, asOf, MissingField(BidSize)) <==> BidSize in p.requiredFields && o.bidSize == None
    ensures HasProblem(p, o, asOf, MissingField(AskSize)) <==> AskSize in p.requiredFields && o.askSize == None
    ensures HasProblem(p, o, asOf, NegativeValue) <==>
      exists v: Option<real> :: v in [o.bid, o.ask, o.bidSize, o.askSize] && v.Some? && v.value < 0.0
  {
    var sides := [o.bid, o.ask, o.bidSize, o.askSize];
    assert sides[0] in sides && sides[1] in sides && sides[2] in sides && sides[3] in sides;
  }

  /** Ages are counted back from the instant of the verdict: what is too old for use, and what is fresh. */
  lemma AgesCountBack(p: Policy, o: Observation, asOf: int, f: Field)
    requires ValidPolicy(p)
    ensures HasProblem(p, o, asOf, StaleField(f)) <==>
      f in p.requiredFields && f in o.stamps && asOf - o.stamps[f] > p.amberMaxAge
    ensures HasProblem(p, o, asOf, ObservationStale) <==> asOf - o.sourceTs > p.amberMaxAge || asOf - o.receivedTs > p.amberMaxAge
    ensures IsStale(p, o, asOf, f) <==> f in p.requiredFields && f in o.stamps && asOf - o.stamps[f] > p.greenMaxAge
    ensures FreshEnough(p, o, asOf) <==>
      && asOf - o.sourceTs <= p.greenMaxAge && asOf - o.receivedTs <= p.greenMaxAge
      && forall g | g in p.requiredFields && g in o.stamps :: asOf - o.stamps[g] <= p.greenMaxAge
  {
  }

  ghost predicate Clean(p: Policy, o: Observation, asOf: int) {
    forall problem :: !HasProblem(p, o, asOf, problem)
  }

  /** Every required timestamp and both observation times are at most the green age old. */
  ghost predicate FreshEnough(p: Policy, o: Observation, asOf: int) {
    && Age(asOf, o.sourceTs) <= p.greenMaxAge && Age(asOf, o.receivedTs) <= p.greenMaxAge
    && forall f | f in p.requiredFields && f in o.stamps :: Age(asOf, o.stamps[f]) <= p.greenMaxAge
  }

  ghost predicate Stamped(p: Policy, o: Observation, f: Field) { f in p.requiredFields && f in o.stamps }

  /** `worst` is the greatest age of the required timestamps, or zero. */
  ghost predicate IsWorstAge(p: Policy, o: Observation, asOf: int, worst: int) {
    && worst >= 0
    && (forall f | Stamped(p, o, f) :: Age(asOf, o.stamps[f]) <= worst)
    && (worst == 0 || exists f :: Stamped(p, o, f) && Age(asOf, o.stamps[f]) == worst)
  }

  predicate IsStale(p: Policy, o: Observation, asOf: int, f: Field) {
    f in p.requiredFields && f in o.stamps && Age(asOf, o.stamps[f]) > p.greenMaxAge
  }

  function Midpoint(o: Observation): Option<real> {
    if o.bid.None? || o.ask.None? then None else Some((o.bid.value + o.ask.value) / 2.0)
  }

  function Lowest(mids: seq<real>): real
    requires mids != []
  {
    if |mids| == 1 then mids[0] else MinReal(Lowest(mids[..|mids| - 1]), mids[|mids| - 1])
  }

  function Highest(mids: seq<real>): real
    requires mids != []
  {
    if |mids| == 1 then mids[0] else MaxReal(Highest(mids[..|mids| - 1]), mids[|mids| - 1])
  }

  function Abs(x: real): real { if x < 0.0 then -x else x }

  function Allowed(p: Policy, low: real): real { MaxReal(p.absoluteTolerance, Abs(low) * p.relativeTolerance) }

  function Midpoints(observations: seq<Observation>): (r: seq<real>)
    requires forall o | o in observations :: Midpoint(o).Some?
    ensures |r| == |observations|
    ensures forall o | o in observations :: Midpoint(o).value in r
    ensures forall x | x in r :: exists o :: o in observations && Midpoint(o).value == x
  {
    if observations == [] then []
    else
      var n := |observations| - 1;
      assert observations == observations[..n] + [observations[n]];
      Midpoints(observations[..n]) + [Midpoint(observations[n]).value]
  }

  function HasConflict(p: Policy, observations: seq<Observation>): bool {
    if |observations| < 2 then false
    else if exists o | o in observations :: Midpoint(o).None? then false
    else
      var mids := Midpoints(observations);
      Highest(mids) - Lowest(mids) > Allowed(p, Lowest(mids))
  }

  lemma {:induction false} ExtremesBound(mids: seq<real>)
    requires mids != []
    ensures forall i | 0 <= i < |mids| :: Lowest(mids) <= mids[i] <= Highest(mids)
    ensures Lowest(mids) in mids && Highest(mids) in mids
  {
    if |mids| > 1 { ExtremesBound(mids[..|mids| - 1]); }
  }

  /** `low` has the lowest midpoint, and every other lies within the distance allowed from it. */
  ghost predicate AgreesFrom(p: Policy, observations: seq<Observation>, low: Observation)
    requires low in observations && forall o | o in observations :: Midpoint(o).Some?
  {
    && (forall o | o in observations :: Midpoint(low).value <= Midpoint(o).value)
    && (forall o | o in observations :: Midpoint(o).value - Midpoint(low).value <= Allowed(p, Midpoint(low).value))
  }

  /** Without a conflict, any two quoted midpoints agree within the tolerance at the lowest of them. */
  lemma NoConflictMeansAgreement(p: Policy, observations: seq<Observation>)
    requires |observations| >= 2 && forall o | o in observations :: Midpoint(o).Some?
    ensures !HasConflict(p, observations) <==> exists low | low in observations :: AgreesFrom(p, observations, low)
  {
    var low, high := MidpointExtremes(p, observations);
    hide Allowed, Midpoint, HasConflict;
    if !HasConflict(p, observations) {
      assert AgreesFrom(p, observations, low);
    }
    forall other | other in observations && AgreesFrom(p, observations, other) ensures !HasConflict(p, observations) {
      assert Midpoint(other).value == Midpoint(low).value;
    }
  }

  lemma MidpointExtremes(p: Policy, observations: seq<Observation>) returns (low: Observation, high: Observation)
    requires |observations| >= 2 && forall o | o in observations :: Midpoint(o).Some?
    ensures low in observations && high in observations
    ensures forall o | o in observations :: Midpoint(low).value <= Midpoint(o).value <= Midpoint(high).value
    ensures HasConflict(p, observations) <==> Midpoint(high).value - Midpoint(low).value > Allowed(p, Midpoint(low).value)
  {
    var mids := Midpoints(observations);
    ExtremesBound(mids);
    hide Lowest, Highest, Allowed, Midpoint, Midpoints;
    low :| low in observations && Midpoint(low).value == Lowest(mids);
    high :| high in observations && Midpoint(high).value == Highest(mids);
    forall o | o in observations ensures Lowest(mids) <= Midpoint(o).value <= Highest(mids) {
      assert Midpoint(o).value in mids;
    }
  }

  predicate Quoted(o: Observation) { o.bid != None && o.ask != None }

  /** Bid and ask together are twice the midpoint. */
  function BothSides(o: Observation): real
    requires Quoted(o)
  {
    o.bid.value + o.ask.value
  }

  /** Midpoints are further apart than both tolerances allow, in terms of their doubles. */
  predicate Apart(p: Policy, low: real, high: real) {
    high - low > 2.0 * p.absoluteTolerance && high - low > (if low < 0.0 then -low else low) * p.relativeTolerance
  }

  lemma ApartExactly(p: Policy, a: Observation, b: Observation)
    requires Quoted(a) && Quoted(b)
    ensures Midpoint(a).Some? && Midpoint(b).Some?
    ensures Midpoint(a).value + Midpoint(a).value == BothSides(a)
    ensures Midpoint(b).value - Midpoint(a).value > Allowed(p, Midpoint(a).value) <==> Apart(p, BothSides(a), BothSides(b))
  {
    var low := BothSides(a);
    assert Abs(Midpoint(a).value) + Abs(Midpoint(a).value) == if low < 0.0 then -low else low;
    Halves(Abs(Midpoint(a).value), p.relativeTolerance);
  }

  lemma Halves(x: real, r: real)
    ensures x * r + x * r == (x + x) * r
  {
  }

  /** `a` has the lowest midpoint and `b` lies too far above it. */
  ghost predicate FarApart(p: Policy, observations: seq<Observation>, a: Observation, b: Observation)
    requires forall o | o in observations :: Quoted(o)
  {
    && a in observations && b in observations
    && (forall o | o in observations :: BothSides(a) <= BothSides(o)) && Apart(p, BothSides(a), BothSides(b))
  }

  /** Sources conflict exactly when at least two are given, all are quoted on both sides, and one lies too far from the
      lowest of them. */
  lemma ConflictExactly(p: Policy, observations: seq<Observation>)
    ensures HasConflict(p, observations) <==>
      && |observations| >= 2 && (forall o | o in observations :: Quoted(o))
      && exists a, b :: FarApart(p, observations, a, b)
  {
    if |observations| >= 2 && forall o | o in observations :: Quoted(o) {
      QuotedConflict(p, observations);
    }
    hide FarApart;
  }

  lemma QuotedConflict(p: Policy, observations: seq<Observation>)
    requires |observations| >= 2 && forall o | o in observations :: Quoted(o)
    ensures HasConflict(p, observations) <==> exists a, b :: FarApart(p, observations, a, b)
  {
    hide HasConflict, Midpoint, BothSides, Allowed, Apart;
    forall o | o in observations ensures Midpoint(o).Some? && Midpoint(o).value + Midpoint(o).value == BothSides(o) {
      ApartExactly(p, o, o);
    }
    var low, high := MidpointExtremes(p, observations);
    ApartExactly(p, low, high);
    assert Apart(p, BothSides(low), BothSides(high)) ==> FarApart(p, observations, low, high);
    forall a, b | FarApart(p, observations, a, b) ensures HasConflict(p, observations) {
      assert BothSides(a) == BothSides(low);
      FurtherApart(p, BothSides(low), BothSides(b), BothSides(high));
    }
  }

  lemma FurtherApart(p: Policy, low: real, high: real, higher: real)
    requires Apart(p, low, high) && high <= higher
    ensures Apart(p, low, higher)
  {
  }

  /** When the evaluator raises a reason. */
  ghost predicate Raises(p: Policy, observations: seq<Observation>, asOf: int, r: Reason) {
    match r
    case NoSources => observations == []
    case DuplicateSource => exists i, j :: 0 <= i < j < |observations| && observations[i].source == observations[j].source
    case SecondSourceMissing => p.requireTwoSources && |Sources(observations)| < 2
    case InstrumentMismatch => exists a, b :: a in observations && b in observations && a.instrument != b.instrument
    case DualSourceConflict => HasConflict(p, observations)
    case OfSource(s, problem) => exists o :: o in observations && o.source == s && HasProblem(p, o, asOf, problem)
  }

  function Sources(observations: seq<Observation>): set<string> { set o | o in observations :: o.source }

  lemma {:induction false} SourcesDistinct(observations: seq<Observation>)
    ensures |Sources(observations)| <= |observations|
    ensures |Sources(observations)| == |observations| <==>
      forall i, j | 0 <= i < j < |observations| :: observations[i].source != observations[j].source
  {
    if observations != [] {
      var front, last := observations[..|observations| - 1], observations[|observations| - 1];
      SourcesDistinct(front);
      SourcesExtended(front, last);
      assert observations == front + [last];
    }
  }

  lemma SourcesExtended(front: seq<Observation>, last: Observation)
    ensures Sources(front + [last]) == Sources(front) + {last.source}
    ensures last.source in Sources(front) <==> exists i :: 0 <= i < |front| && front[i].source == last.source
  {
    if last.source in Sources(front) {
      var o :| o in front && o.source == last.source;
      var i :| 0 <= i < |front| && front[i] == o;
      assert front[i].source == last.source;
    }
  }

  method CheckFields(p: Policy, o: Observation, asOf: int)
      returns (problems: set<Problem>, stale: set<Field>, worst: int, amber: bool)
    requires ValidPolicy(p)
    ensures forall x :: x in problems <==> OfField(x) && HasProblem(p, o, asOf, x)
    ensures forall f :: f in stale <==> IsStale(p, o, asOf, f)
    ensures IsWorstAge(p, o, asOf, worst)
    ensures amber <==> exists f :: Stamped(p, o, f) && p.greenMaxAge < Age(asOf, o.stamps[f]) <= p.amberMaxAge
  {
    hide HasProblem, OfField, IsStale;
    problems, stale, worst, amber := {}, {}, 0, false;
    for k := 0 to |p.requiredFields|
      invariant forall x :: x in problems <==> OfFieldAmong(p.requiredFields[..k], x) && HasProblem(p, o, asOf, x)
      invariant FieldsRead(p, o, asOf, p.requiredFields[..k], stale, worst, amber)
    {
      var f := p.requiredFields[k];
      assert p.requiredFields[..k + 1] == p.requiredFields[..k] + [f];
      var found, age := CheckField(p, o, asOf, f);
      NextFieldRead(p, o, asOf, p.requiredFields[..k], f, stale, worst, amber);
      FieldAmongMore(p.requiredFields[..k], f);
      problems := problems + found;
      worst := MaxInt(worst, age);
      if age > p.greenMaxAge { stale := stale + {f}; }
      if p.greenMaxAge < age <= p.amberMaxAge { amber := true; }
    }
    assert p.requiredFields[..|p.requiredFields|] == p.requiredFields;
    AllFieldsRead(p, o, asOf, stale, worst, amber);
    FieldProblemsAreAmong(p, o, asOf);
  }

  /** The problems of one required field, and the age of its timestamp, or zero without one. */
  method CheckField(p: Policy, o: Observation, asOf: int, f: Field) returns (problems: set<Problem>, age: int)
    requires f in p.requiredFields
    ensures forall x :: x in problems <==> OfField(x) && x.f == f && HasProblem(p, o, asOf, x)
    ensures age == FieldAge(o, asOf, f)
  {
    problems, age := {}, 0;
    if ValueOf(o, f).None? { problems := problems + {MissingField(f)}; }
    if f !in o.stamps {
      problems := problems + {MissingStamp(f)};
      return;
    }
    var t := o.stamps[f];
    if t > o.receivedTs { problems := problems + {StampAfterReceipt(f)}; }
    if asOf - t < 0 { problems := problems + {FutureStamp(f)}; }
    age := Age(asOf, t);
    if age > p.amberMaxAge { problems := problems + {StaleField(f)}; }
  }

  function FieldAge(o: Observation, asOf: int, f: Field): int {
    if f in o.stamps then Age(asOf, o.stamps[f]) else 0
  }

  predicate OfFieldAmong(fields: seq<Field>, x: Problem) { OfField(x) && x.f in fields }

  lemma FieldProblemsAreAmong(p: Policy, o: Observation, asOf: int)
    ensures forall x | HasProblem(p, o, asOf, x) :: OfFieldAmong(p.requiredFields, x) <==> OfField(x)
  {
  }

  lemma FieldAmongMore(fields: seq<Field>, f: Field)
    ensures forall x :: OfFieldAmong(fields + [f], x) <==> OfFieldAmong(fields, x) || (OfField(x) && x.f == f)
  {
  }

  /** What the loop knows after these required fields. */
  ghost predicate FieldsRead(p: Policy, o: Observation, asOf: int, fields: seq<Field>, stale: set<Field>, worst: int,
                             amber: bool)
  {
    && (forall f :: f in stale <==> f in fields && FieldAge(o, asOf, f) > p.greenMaxAge)
    && worst >= 0 && (forall f | f in fields :: FieldAge(o, asOf, f) <= worst)
    && (worst == 0 || exists f :: f in fields && FieldAge(o, asOf, f) == worst)
    && (amber <==> exists f :: f in fields && p.greenMaxAge < FieldAge(o, asOf, f) <= p.amberMaxAge)
  }

  lemma NextFieldRead(p: Policy, o: Observation, asOf: int, fields: seq<Field>, f: Field, stale: set<Field>, worst: int,
                      amber: bool)
    requires FieldsRead(p, o, asOf, fields, stale, worst, amber)
    ensures var age := FieldAge(o, asOf, f);
      FieldsRead(p, o, asOf, fields + [f], if age > p.greenMaxAge then stale + {f} else stale, MaxInt(worst, age),
                 amber || p.greenMaxAge < age <= p.amberMaxAge)
  {
    hide FieldAge;
    assert forall x :: x in fields + [f] <==> x in fields || x == f;
    FieldAgeIsNonNegative(o, asOf, f);
  }

  lemma FieldAgeIsNonNegative(o: Observation, asOf: int, f: Field)
    ensures FieldAge(o, asOf, f) >= 0
  {
  }

  lemma AllFieldsRead(p: Policy, o: Observation, asOf: int, stale: set<Field>, worst: int, amber: bool)
    requires ValidPolicy(p) && FieldsRead(p, o, asOf, p.requiredFields, stale, worst, amber)
    ensures forall f :: f in stale <==> IsStale(p, o, asOf, f)
    ensures IsWorstAge(p, o, asOf, worst)
    ensures amber <==> exists f :: Stamped(p, o, f) && p.greenMaxAge < Age(asOf, o.stamps[f]) <= p.amberMaxAge
  {
    hide Age;
    forall f | Stamped(p, o, f) ensures FieldAge(o, asOf, f) == Age(asOf, o.stamps[f]) && f in p.requiredFields {
    }
    if worst != 0 {
      var f :| f in p.requiredFields && FieldAge(o, asOf, f) == worst;
      assert Stamped(p, o, f);
    }
    if amber {
      var f :| f in p.requiredFields && p.greenMaxAge < FieldAge(o, asOf, f) <= p.amberMaxAge;
      assert Stamped(p, o, f);
    }
  }

  predicate OfField(x: Problem) {
    x.MissingField? || x.MissingStamp? || x.StampAfterReceipt? || x.FutureStamp? || x.StaleField?
  }

  predicate OfQuote(x: Problem) { x.NegativeValue? || x.EmptySize? || x.Crossed? }

  predicate OfTime(x: Problem) { x.FutureSource? || x.FutureReceipt? || x.ObservationStale? }

  method CheckQuote(p: Policy, o: Observation, asOf: int) returns (problems: set<Problem>)
    ensures forall x :: x in problems <==> OfQuote(x) && HasProblem(p, o, asOf, x)
  {
    problems := {};
    if Negative(o.bid) || Negative(o.ask) || Negative(o.bidSize) || Negative(o.askSize) {
      problems := problems + {NegativeValue};
    }
    if o.bidSize == Some(0.0) || o.askSize == Some(0.0) { problems := problems + {EmptySize}; }
    if o.bid.Some? && o.ask.Some? && o.bid.value > o.ask.value { problems := problems + {Crossed}; }
  }

  method CheckTimes(p: Policy, o: Observation, asOf: int) returns (problems: set<Problem>, age: int)
    ensures forall x :: x in problems <==> OfTime(x) && HasProblem(p, o, asOf, x)
    ensures age == MaxInt(Age(asOf, o.sourceTs), Age(asOf, o.receivedTs))
  {
    problems := {};
    if asOf - o.sourceTs < 0 { problems := problems + {FutureSource}; }
    if asOf - o.receivedTs < 0 { problems := problems + {FutureReceipt}; }
    age := MaxInt(Age(asOf, o.sourceTs), Age(asOf, o.receivedTs));
    if age > p.amberMaxAge { problems := problems + {ObservationStale}; }
  }

  method CheckPermission(p: Policy, o: Observation, asOf: int) returns (problems: set<Problem>)
    ensures forall x :: x in problems <==> !OfField(x) && !OfTime(x) && !OfQuote(x) && HasProblem(p, o, asOf, x)
  {
    problems := {};
    if !o.entitlement.Verified? { problems := problems + {NotEntitled}; }
    if o.delayed.None? {
      problems := problems + {DelayUnknown};
    } else if o.delayed.value {
      problems := problems + {Delayed};
    }
    if o.receivedTs < o.sourceTs {
      problems := problems + {ReceivedBeforeSource};
    } else if o.receivedTs - o.sourceTs > p.maxLatency {
      problems := problems + {LatencyExceeded};
    }
  }

  method CheckObservation(p: Policy, o: Observation, asOf: int)
      returns (problems: set<Problem>, stale: set<Field>, worst: int, amber: bool)
    requires ValidPolicy(p)
    ensures forall x :: x in problems <==> HasProblem(p, o, asOf, x)
    ensures forall f :: f in stale <==> IsStale(p, o, asOf, f)
    ensures FreshEnough(p, o, asOf) <==> worst <= p.greenMaxAge && !amber
  {
    hide HasProblem, OfQuote, OfTime, OfField;
    var permission := CheckPermission(p, o, asOf);
    problems, stale, worst, amber := CheckFields(p, o, asOf);
    ghost var oldest := worst;
    var times, age := CheckTimes(p, o, asOf);
    worst := MaxInt(worst, age);
    if age > p.greenMaxAge { amber := true; }
    var quote := CheckQuote(p, o, asOf);
    problems := permission + problems + times + quote;
    KindsExclude();
    NoStaleFieldsWhenFresh(p, o, asOf, stale);
    WorstAgeTellsStaleness(p, o, asOf, stale, oldest);
  }

  lemma KindsExclude()
    ensures forall x :: !(OfField(x) && OfTime(x)) && !(OfField(x) && OfQuote(x)) && !(OfTime(x) && OfQuote(x))
  {
  }

  lemma WorstAgeTellsStaleness(p: Policy, o: Observation, asOf: int, stale: set<Field>, worst: int)
    requires ValidPolicy(p) && IsWorstAge(p, o, asOf, worst)
    requires forall f :: f in stale <==> IsStale(p, o, asOf, f)
    ensures stale == {} <==> worst <= p.greenMaxAge
    ensures stale == {} ==> forall f | Stamped(p, o, f) :: Age(asOf, o.stamps[f]) <= p.greenMaxAge
  {
    if stale == {} {
      forall f | Stamped(p, o, f) ensures Age(asOf, o.stamps[f]) <= p.greenMaxAge {
        assert !IsStale(p, o, asOf, f);
      }
    } else {
      var f :| f in stale;
      assert IsStale(p, o, asOf, f) && Stamped(p, o, f);
    }
  }

  lemma NoStaleFieldsWhenFresh(p: Policy, o: Observation, asOf: int, stale: set<Field>)
    requires forall f :: f in stale <==> IsStale(p, o, asOf, f)
    ensures FreshEnough(p, o, asOf) <==>
      stale == {} && MaxInt(Age(asOf, o.sourceTs), Age(asOf, o.receivedTs)) <= p.greenMaxAge
  {
    if stale == {} {
      forall f | f in p.requiredFields && f in o.stamps ensures Age(asOf, o.stamps[f]) <= p.greenMaxAge {
        assert !IsStale(p, o, asOf, f);
      }
    } else {
      var f :| f in stale;
      assert IsStale(p, o, asOf, f);
    }
  }

  /** The verdict: red on any reason, green when in addition everything is within the green age. */
  ghost predicate IsVerdict(p: Policy, observations: seq<Observation>, asOf: int, r: Report) {
    && (forall x :: x in r.reasons <==> Raises(p, observations, asOf, x))
    && (r.status.Red? <==> r.reasons != {})
    && (r.status.Green? <==> r.reasons == {} && forall o | o in observations :: FreshEnough(p, o, asOf))
    && (r.freeze <==> r.status.Red?)
    && r.sources == Sources(observations) && r.observedAt == asOf
    && (forall s, f :: (s, f) in r.staleFields <==> StaleSomewhere(p, observations, asOf, s, f))
  }

  /** The status that the observations determine. */
  ghost function StatusOf(p: Policy, observations: seq<Observation>, asOf: int): Status {
    if exists x :: Raises(p, observations, asOf, x) then Red
    else if forall o | o in observations :: FreshEnough(p, o, asOf) then Green
    else Amber
  }

  lemma VerdictHasStatus(p: Policy, observations: seq<Observation>, asOf: int, r: Report)
    requires IsVerdict(p, observations, asOf, r)
    ensures r.status == StatusOf(p, observations, asOf) && r.freeze == r.status.Red?
  {
    hide Raises, FreshEnough, StaleSomewhere, Sources;
    if exists x :: Raises(p, observations, asOf, x) {
      var x :| Raises(p, observations, asOf, x);
      assert x in r.reasons;
    }
  }

  /** A decision is permitted exactly when nothing is raised and everything is fresh. */
  lemma PermitsExactly(p: Policy, observations: seq<Observation>, asOf: int, r: Report)
    requires IsVerdict(p, observations, asOf, r)
    ensures PermitsDecision(r) <==>
      (forall x :: !Raises(p, observations, asOf, x)) && forall o | o in observations :: FreshEnough(p, o, asOf)
  {
    hide Raises, FreshEnough, StaleSomewhere, Sources;
    if r.reasons != {} {
      var x :| x in r.reasons;
      assert Raises(p, observations, asOf, x);
    }
  }

  /** Some observation of the source has the field beyond the green age. */
  ghost predicate StaleSomewhere(p: Policy, observations: seq<Observation>, asOf: int, source: string, f: Field) {
    exists o :: o in observations && o.source == source && IsStale(p, o, asOf, f)
  }

  method CheckAll(p: Policy, observations: seq<Observation>, asOf: int)
      returns (reasons: set<Reason>, stale: set<(string, Field)>, worst: int, amber: bool)
    requires ValidPolicy(p)
    ensures forall x :: x in reasons <==> x.OfSource? && Raises(p, observations, asOf, x)
    ensures worst <= p.greenMaxAge && !amber <==> forall o | o in observations :: FreshEnough(p, o, asOf)
    ensures forall s, f :: (s, f) in stale <==> StaleSomewhere(p, observations, asOf, s, f)
  {
    hide HasProblem, FreshEnough, HasConflict, IsStale;
    reasons, stale, worst, amber := {}, {}, 0, false;
    for k := 0 to |observations|
      invariant forall x :: x in reasons <==> x.OfSource? && Raises(p, observations[..k], asOf, x)
      invariant worst <= p.greenMaxAge && !amber <==> forall o | o in observations[..k] :: FreshEnough(p, o, asOf)
      invariant forall s, f :: (s, f) in stale <==> StaleSomewhere(p, observations[..k], asOf, s, f)
    {
      var o := observations[k];
      assert observations[..k + 1] == observations[..k] + [o];
      var problems, fields, oldest, late := CheckObservation(p, o, asOf);
      reasons := reasons + set x | x in problems :: OfSource(o.source, x);
      stale := stale + set f | f in fields :: (o.source, f);
      worst, amber := MaxInt(worst, oldest), amber || late;
    }
    assert observations[..|observations|] == observations;
  }

  /** The reasons that concern the observations together. */
  method CheckTogether(p: Policy, observations: seq<Observation>, ghost asOf: int) returns (reasons: set<Reason>)
    ensures forall x :: x in reasons <==> !x.OfSource? && Raises(p, observations, asOf, x)
  {
    hide HasProblem, HasConflict, Sources;
    reasons := {};
    SourcesDistinct(observations);
    if observations == [] { reasons := reasons + {NoSources}; }
    if |Sources(observations)| != |observations| { reasons := reasons + {DuplicateSource}; }
    if p.requireTwoSources && |Sources(observations)| < 2 { reasons := reasons + {SecondSourceMissing}; }
    if exists a, b | a in observations && b in observations :: a.instrument != b.instrument {
      reasons := reasons + {InstrumentMismatch};
    }
    if HasConflict(p, observations) { reasons := reasons + {DualSourceConflict}; }
  }

  method Evaluate(p: Policy, observations: seq<Observation>, asOf: int) returns (r: Report)
    requires ValidPolicy(p)
    ensures IsVerdict(p, observations, asOf, r)
  {
    var conflict := HasConflict(p, observations);
    assert conflict ==> Raises(p, observations, asOf, DualSourceConflict);
    hide Raises, FreshEnough, StaleSomewhere, HasConflict, Sources;
    var reasons, stale, worst, amber := CheckAll(p, observations, asOf);
    var together := CheckTogether(p, observations, asOf);
    reasons := reasons + together;
    assert conflict ==> DualSourceConflict in reasons;
    var status := if reasons != {} then Red else if amber || worst > p.greenMaxAge then Amber else Green;
    r := Report(status, conflict || status.Red?, reasons, stale, Sources(observations), asOf);
  }
}
