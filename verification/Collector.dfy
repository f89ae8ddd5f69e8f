/** The collector as a state machine over its input events. Times are in microseconds. */
module Collector {
  import opened Common
  import opened Backoff
  import Q = DataQuality

  datatype State = Stopped | Connecting | Streaming | BackingOff | RateLimited | Degraded | Halted

  datatype EventKind =
    | Start | Connected | Quote(observation: Q.Observation) | Heartbeat | ConnectionLost
    | RateLimit(retryAfter: Option<int>)   // None when the payload carries no number
    | SchemaDrift | Stop

  datatype Event = Event(id: string, kind: EventKind, publishedAt: int, firstSeenAt: int, schema: string)

  datatype Policy = Policy(
    baseBackoff: int, maxBackoff: int, maxReconnects: nat, allowedLateness: int, freshnessLimit: int)

  ghost predicate ValidPolicy(p: Policy) {
    0 < p.baseBackoff <= p.maxBackoff && p.maxReconnects >= 1 && p.allowedLateness >= 0 && p.freshnessLimit > 0
  }

  function ReconnectDelay(p: Policy, attempt: nat): int
    requires attempt >= 1
  {
    Delay(p.baseBackoff, p.maxBackoff, attempt)
  }

  /** Delays lie within [base, max] and never shrink with the attempt. */
  lemma ReconnectDelayGrowsWithinBounds(p: Policy, attempt: nat)
    requires ValidPolicy(p) && attempt >= 1
    ensures p.baseBackoff <= ReconnectDelay(p, attempt) <= ReconnectDelay(p, attempt + 1) <= p.maxBackoff
  {
    DelayGrowsWithinBounds(p.baseBackoff, p.maxBackoff, attempt);
  }

  datatype Reason =
    | DuplicateEvent | EventTimeRegression | SchemaDrifted | CollectorHalted | InvalidTransition | RetryTooEarly
    | ReconnectBudgetExhausted | InvalidRetryAfter | NotStreaming | InstrumentMismatch | DuplicateObservation
    | OutOfOrder | BehindWatermark | Stale

  const RUN_REASONS: set<Reason> := {SchemaDrifted, ReconnectBudgetExhausted, InvalidRetryAfter}

  /** What makes two observations the same: the content that is hashed, and not who may see it. */
  datatype Fingerprint = Fingerprint(
    source: string, instrument: string, sourceTs: int, receivedTs: int, schema: string,
    bid: Option<real>, ask: Option<real>, bidSize: Option<real>, askSize: Option<real>, stamps: map<Q.Field, int>)

  function FingerprintOf(o: Q.Observation, schema: string): Fingerprint {
    Fingerprint(o.source, o.instrument, o.sourceTs, o.receivedTs, schema, o.bid, o.ask, o.bidSize, o.askSize, o.stamps)
  }

  datatype Config = Config(policy: Policy, quality: Q.Policy, schema: string, instrument: string)

  datatype Session = Session(
    state: State, nextRetry: Option<int>, attempts: nat, watermark: Option<int>, lastObservationAt: Option<int>,
    seenEvents: set<string>, seenObservations: set<Fingerprint>, latest: seq<Q.Observation>,
    runReasons: set<Reason>, accepted: nat, duplicateEvents: nat, duplicateObservations: nat, outOfOrder: nat,
    lastSeenAt: Option<int>)

  const FRESH_SESSION :=
    Session(Stopped, None, 0, None, None, {}, {}, [], {}, 0, 0, 0, 0, None)

  datatype Outcome = Outcome(session: Session, accepted: bool, reasons: set<Reason>)

  predicate Live(s: State) { s.Streaming? || s.Degraded? }

  /** A dictionary update: a known source keeps its place. */
  function Upsert(latest: seq<Q.Observation>, o: Q.Observation): seq<Q.Observation> {
    if latest == [] then [o]
    else if latest[0].source == o.source then [o] + latest[1..]
    else [latest[0]] + Upsert(latest[1..], o)
  }

  /** A quote while live: (new session, reasons). */
  function ApplyQuote(c: Config, s: Session, e: Event): (Session, set<Reason>)
    requires e.kind.Quote?
  {
    var o := e.kind.observation;
    var mark := FingerprintOf(o, e.schema);
    if !Live(s.state) then (s, {NotStreaming})
    else if o.instrument != c.instrument then (s, {InstrumentMismatch})
    else if mark in s.seenObservations then
      (s.(duplicateObservations := s.duplicateObservations + 1), {DuplicateObservation})
    else
      var t := s.(seenObservations := s.seenObservations + {mark});
      if t.watermark.Some? && o.sourceTs < t.watermark.value then
        (t.(outOfOrder := t.outOfOrder + 1),
         {OutOfOrder} + if o.sourceTs < t.watermark.value - c.policy.allowedLateness then {BehindWatermark} else {})
      else
        (t.(latest := Upsert(t.latest, o),
            watermark := Some(if t.watermark.Some? then MaxInt(t.watermark.value, o.sourceTs) else o.sourceTs),
            lastObservationAt := Some(e.firstSeenAt),
            accepted := t.accepted + 1,
            state := Streaming),
         {})
  }

  /** The transition of an event that was let through: (new session, reasons). */
  function Apply(c: Config, s: Session, e: Event): (Session, set<Reason>) {
    match e.kind
    case Start => if s.state.Stopped? then (s.(state := Connecting), {}) else (s, {InvalidTransition})
    case Connected =>
      if !(s.state.Connecting? || s.state.BackingOff? || s.state.RateLimited? || s.state.Degraded?) then
        (s, {InvalidTransition})
      else if s.nextRetry.Some? && e.firstSeenAt < s.nextRetry.value then (s, {RetryTooEarly})
      else (s.(state := Streaming, nextRetry := None, attempts := 0), {})
    case ConnectionLost =>
      var t := s.(latest := [], lastObservationAt := None, attempts := s.attempts + 1);
      if t.attempts > c.policy.maxReconnects then
        (t.(state := Halted, nextRetry := None), {ReconnectBudgetExhausted})
      else
        (t.(state := BackingOff, nextRetry := Some(e.firstSeenAt + ReconnectDelay(c.policy, t.attempts))), {})
    case RateLimit(retryAfter) =>
      var t := s.(latest := [], lastObservationAt := None);
      if retryAfter.None? || retryAfter.value <= 0 then (t.(state := Halted, nextRetry := None), {InvalidRetryAfter})
      else
        (t.(state := RateLimited,
            nextRetry := Some(e.firstSeenAt + MaxInt(retryAfter.value, c.policy.baseBackoff))), {})
    case SchemaDrift => (s.(state := Halted), {SchemaDrifted})
    case Stop => (s.(state := Stopped, nextRetry := None, latest := [], lastObservationAt := None), {})
    case Heartbeat => if Live(s.state) then (s, {}) else (s, {InvalidTransition})
    case Quote(_) => ApplyQuote(c, s, e)
  }

  /** Why an event is not let through at all. */
  function Refusals(s: Session, e: Event): set<Reason> {
    (if e.id in s.seenEvents then {DuplicateEvent} else {})
    + (if s.lastSeenAt.Some? && e.firstSeenAt < s.lastSeenAt.value then {EventTimeRegression} else {})
  }

  function Noted(s: Session, e: Event): Session {
    s.(duplicateEvents := s.duplicateEvents + if e.id in s.seenEvents then 1 else 0,
       seenEvents := s.seenEvents + {e.id},
       lastSeenAt := Some(if s.lastSeenAt.Some? then MaxInt(s.lastSeenAt.value, e.firstSeenAt) else e.firstSeenAt))
  }

  /** The event reaches the transition function. */
  predicate Processed(c: Config, s: Session, e: Event) {
    Refusals(s, e) == {} && e.schema == c.schema && !s.state.Halted?
  }

  predicate IsStale(c: Config, s: Session, now: int) {
    Live(s.state) && (s.lastObservationAt.None? || now - s.lastObservationAt.value > c.policy.freshnessLimit)
  }

  function Step(c: Config, s: Session, e: Event): Outcome {
    var refusals := Refusals(s, e);
    var t := Noted(s, e);
    var (u, reasons) :=
      if refusals != {} then (t, refusals)
      else if e.schema != c.schema then (t.(state := Halted), {SchemaDrifted})
      else if t.state.Halted? then (t, {CollectorHalted})
      else Apply(c, t, e);
    var v := if IsStale(c, u, e.firstSeenAt) then u.(state := Degraded) else u;
    var all := reasons + if IsStale(c, u, e.firstSeenAt) then {Stale} else {};
    Outcome(v.(runReasons := v.runReasons + all * RUN_REASONS), reasons == {}, all)
  }

  /** The session after a sequence of events. */
  function After(c: Config, events: seq<Event>): Session {
    if events == [] then FRESH_SESSION
    else Step(c, After(c, events[..|events| - 1]), events[|events| - 1]).session
  }

  lemma AfterAppended(c: Config, events: seq<Event>, e: Event)
    ensures After(c, events + [e]) == Step(c, After(c, events), e).session
  {
    assert (events + [e])[..|events|] == events;
  }

  datatype RunReason =
    | Capability(code: string) | OfEvent(reason: Reason) | NotInStreaming(state: State) | Gate(code: string)
    | NoQualityReport | OfQuality(q: Q.Reason) | QualityNotGreen

  datatype Trace = Trace(eventId: string, state: State, accepted: bool, reasons: set<Reason>,
                         watermark: Option<int>, nextRetry: Option<int>, attempts: nat,
                         quality: Q.Status, freeze: bool)

  datatype RunResult = RunResult(
    state: State, traces: seq<Trace>, quality: Option<Q.Report>, reasons: set<RunReason>,
    accepted: nat, duplicateEvents: nat, duplicateObservations: nat, outOfOrder: nat,
    watermark: Option<int>, nextRetry: Option<int>)

  predicate PermitsDecision(r: RunResult) {
    r.state.Streaming? && r.quality.Some? && Q.PermitsDecision(r.quality.value) && r.reasons == {}
  }

  function TraceOf(e: Event, o: Outcome, quality: Q.Status): Trace {
    Trace(e.id, o.session.state, o.accepted, o.reasons, o.session.watermark, o.session.nextRetry, o.session.attempts,
          quality, quality.Red?)
  }

  /** Without a quote there is nothing to report on, and that is red. */
  ghost function QualityOf(c: Config, latest: seq<Q.Observation>, now: int): Q.Status {
    if latest == [] then Q.Red else Q.StatusOf(c.quality, latest, now)
  }

  ghost function TracesOf(c: Config, events: seq<Event>): seq<Trace> {
    if events == [] then []
    else
      var front, e := events[..|events| - 1], events[|events| - 1];
      var o := Step(c, After(c, front), e);
      TracesOf(c, front) + [TraceOf(e, o, QualityOf(c, o.session.latest, e.firstSeenAt))]
  }

  /** What stands against a decision after a run: `capability` and `gated` are what the capability report and
      the session gate found wrong. */
  predicate Blocks(s: Session, capability: set<string>, gated: set<string>, quality: Option<Q.Report>, x: RunReason) {
    match x
    case Capability(code) => code in capability
    case OfEvent(reason) => reason in s.runReasons
    case NotInStreaming(state) => state == s.state && !state.Streaming?
    case Gate(code) => code in gated
    case NoQualityReport => quality.None?
    case OfQuality(q) => quality.Some? && !Q.PermitsDecision(quality.value) && q in quality.value.reasons
    case QualityNotGreen => quality.Some? && !Q.PermitsDecision(quality.value) && quality.value.reasons == {}
  }

  /** The reasons of a run are everything that stands against a decision. */
  function ReasonsOf(s: Session, capability: set<string>, gated: set<string>, quality: Option<Q.Report>): (r: set<RunReason>)
    ensures forall x :: x in r <==> Blocks(s, capability, gated, quality, x)
  {
    (set code | code in capability :: Capability(code))
    + (set reason | reason in s.runReasons :: OfEvent(reason))
    + (if s.state.Streaming? then {} else {NotInStreaming(s.state)})
    + (set code | code in gated :: Gate(code))
    + if quality.None? then {NoQualityReport}
      else if Q.PermitsDecision(quality.value) then {}
      else if quality.value.reasons == {} then {QualityNotGreen}
      else set q | q in quality.value.reasons :: OfQuality(q)
  }

  lemma NothingBlocks(s: Session, capability: set<string>, gated: set<string>, quality: Option<Q.Report>)
    ensures ReasonsOf(s, capability, gated, quality) == {} <==>
      && s.state.Streaming? && s.runReasons == {} && capability == {} && gated == {}
      && quality.Some? && Q.PermitsDecision(quality.value)
  {
    hide ReasonsOf, Q.PermitsDecision;
    var r := ReasonsOf(s, capability, gated, quality);
    assert forall code | code in capability :: Blocks(s, capability, gated, quality, Capability(code));
    assert forall reason | reason in s.runReasons :: Blocks(s, capability, gated, quality, OfEvent(reason));
    assert forall code | code in gated :: Blocks(s, capability, gated, quality, Gate(code));
    assert !s.state.Streaming? ==> NotInStreaming(s.state) in r;
    assert quality.None? ==> NoQualityReport in r;
    if quality.Some? && !Q.PermitsDecision(quality.value) {
      if q :| q in quality.value.reasons {
        assert OfQuality(q) in r;
      } else {
        assert QualityNotGreen in r;
      }
    }
    if r != {} {
      var x :| x in r;
      assert Blocks(s, capability, gated, quality, x);
    }
  }

  lemma GateBlocks(s: Session, capability: set<string>, gated: set<string>, quality: Option<Q.Report>)
    ensures forall code :: Blocks(s, capability, gated, quality, Gate(code)) <==> code in gated
  {
  }

  /** What the session gate finds wrong at the time of the last event. */
  function GatedBy(gate: Option<int -> set<string>>, events: seq<Event>): set<string> {
    if gate.Some? && events != [] then gate.value(events[|events| - 1].firstSeenAt) else {}
  }

  /** Runs the collector over its events. `capability` and `gate` are what the capability report and the
      session gate find wrong. */
  method Run(c: Config, capability: set<string>, gate: Option<int -> set<string>>, events: seq<Event>)
      returns (r: RunResult)
    requires ValidPolicy(c.policy) && Q.ValidPolicy(c.quality)
    ensures var s := After(c, events);
      && r.state == s.state && r.watermark == s.watermark && r.nextRetry == s.nextRetry
      && r.accepted == s.accepted && r.duplicateEvents == s.duplicateEvents
      && r.duplicateObservations == s.duplicateObservations && r.outOfOrder == s.outOfOrder
      && r.traces == TracesOf(c, events)
    ensures r.quality.Some? <==> After(c, events).latest != []
    ensures r.quality.Some? ==>
      events != [] && Q.IsVerdict(c.quality, After(c, events).latest, events[|events| - 1].firstSeenAt, r.quality.value)
    ensures forall x :: x in r.reasons <==> Blocks(After(c, events), capability, GatedBy(gate, events), r.quality, x)
    ensures forall code :: Gate(code) in r.reasons <==>
      gate.Some? && events != [] && code in gate.value(events[|events| - 1].firstSeenAt)
    ensures PermitsDecision(r) <==>
      && r.state.Streaming? && After(c, events).runReasons == {} && capability == {} && GatedBy(gate, events) == {}
      && r.quality.Some? && Q.PermitsDecision(r.quality.value)
  {
    hide Step, Q.IsVerdict, Q.StatusOf, Q.PermitsDecision, ReasonsOf, Blocks;
    var s := FRESH_SESSION;
    var quality: Option<Q.Report> := None;
    var traces: seq<Trace> := [];
    for i := 0 to |events|
      invariant s == After(c, events[..i]) && traces == TracesOf(c, events[..i])
      invariant quality.Some? <==> s.latest != []
      invariant quality.Some? ==>
        i > 0 && Q.IsVerdict(c.quality, s.latest, events[i - 1].firstSeenAt, quality.value)
    {
      var e := events[i];
      assert events[..i + 1][..i] == events[..i];
      var o := Step(c, s, e);
      s := o.session;
      quality := None;
      if s.latest != [] {
        var report := Q.Evaluate(c.quality, s.latest, e.firstSeenAt);
        Q.VerdictHasStatus(c.quality, s.latest, e.firstSeenAt, report);
        quality := Some(report);
      }
      traces := traces + [TraceOf(e, o, if quality.Some? then quality.value.status else Q.Red)];
    }
    assert events[..|events|] == events;
    if events == [] { assert s.latest == []; }
    var gated := GatedBy(gate, events);
    NothingBlocks(s, capability, gated, quality);
    GateBlocks(s, capability, gated, quality);
    r := RunResult(s.state, traces, quality, ReasonsOf(s, capability, gated, quality), s.accepted, s.duplicateEvents,
                   s.duplicateObservations, s.outOfOrder, s.watermark, s.nextRetry);
  }
}
