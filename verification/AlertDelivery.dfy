/** The alert outbox as a protocol: one thread of events and attempts per message, and the automaton
    that every thread follows. Times are in microseconds. */
module AlertDelivery {
  import opened Common
  import opened Backoff

  datatype Channel = Webhook | Email | Mobile

  datatype Kind =
    | Enqueued | Suppressed | DeliveryDisabled | Delivered
    | RetryScheduled | DeadLettered | Acknowledged | Escalated

  datatype Outcome = Sent | TransientFailure | PermanentFailure | Disabled

  datatype ChannelPolicy = ChannelPolicy(
    enabled: bool, optedIn: bool, authorizationId: Option<string>, allowNetwork: bool,
    cooldown: int, maxAttempts: int, baseBackoff: int, maxBackoff: int,
    requireAck: bool, ackTimeout: int, maxEscalations: int)

  const MINUTE := 60_000_000
  const SECOND := 1_000_000
  const DEFAULT_POLICY :=
    ChannelPolicy(false, false, None, false, 5 * MINUTE, 3, 5 * SECOND, 2 * MINUTE, false, 2 * MINUTE, 0)

  predicate Authorized(p: ChannelPolicy) { p.authorizationId.Some? && !Blank(p.authorizationId.value) }

  /** What ChannelPolicy checks when it is built. */
  ghost predicate ValidPolicy(p: ChannelPolicy) {
    && (p.enabled && p.optedIn ==> Authorized(p))
    && p.cooldown >= 0 && p.maxAttempts >= 1
    && 0 < p.baseBackoff <= p.maxBackoff
    && p.ackTimeout > 0 && p.maxEscalations >= 0
  }

  predicate DeliveryEnabled(p: ChannelPolicy) { p.enabled && p.optedIn && Authorized(p) }

  function RetryDelay(p: ChannelPolicy, attempt: nat): int
    requires attempt >= 1
  {
    Delay(p.baseBackoff, p.maxBackoff, attempt)
  }

  /** Backoff never shrinks from one attempt to the next and stays within its bounds. */
  lemma RetryDelayGrowsWithinBounds(p: ChannelPolicy, attempt: nat)
    requires ValidPolicy(p) && attempt >= 1
    ensures p.baseBackoff <= RetryDelay(p, attempt) <= RetryDelay(p, attempt + 1) <= p.maxBackoff
  {
    DelayGrowsWithinBounds(p.baseBackoff, p.maxBackoff, attempt);
  }

  datatype Message = Message(
    id: string, alertId: string, fingerprint: string, channel: Channel, destination: string,
    payload: string, createdAt: int, dedupeKey: string, policyVersion: string, signature: string)

  datatype Event = Event(
    kind: Kind, at: int, attempt: Option<nat>, reason: Option<string>,
    nextAttemptAt: Option<int>, ackDueAt: Option<int>, level: nat, actor: Option<string>)

  datatype Attempt = Attempt(number: nat, at: int, outcome: Outcome, reason: Option<string>)

  datatype Thread = Thread(message: Message, events: seq<Event>, attempts: seq<Attempt>)

  datatype SenderResult = SenderResult(outcome: Outcome, reason: Option<string>)

  /** What one call of a sender does: it returns a result or raises. */
  datatype Reply = Returned(result: SenderResult) | Raised

  /** The parts of the orchestrator that never change. `senders` tells which channels have a sender and
      whether it is network capable; `sign` is the keyed signature of the unsigned content. */
  datatype Service = Service(
    policyVersion: string, policies: map<Channel, ChannelPolicy>, senders: map<Channel, bool>,
    networkAuthorized: bool, sign: Message -> string)

  ghost predicate ValidService(s: Service) { forall c | c in s.policies :: ValidPolicy(s.policies[c]) }

  function PolicyFor(s: Service, c: Channel): (p: ChannelPolicy)
    ensures ValidService(s) ==> ValidPolicy(p)
  {
    if c in s.policies then s.policies[c] else DEFAULT_POLICY
  }

  predicate Verified(s: Service, m: Message) { m.signature == s.sign(m.(signature := "")) }

  predicate NetworkAllowed(s: Service, c: Channel) {
    c in s.senders && s.senders[c] ==> s.networkAuthorized && PolicyFor(s, c).allowNetwork
  }

  /** A sender is only called behind all three gates. */
  function AttemptResult(s: Service, m: Message, reply: Reply): SenderResult {
    if !DeliveryEnabled(PolicyFor(s, m.channel)) then SenderResult(Disabled, Some("CHANNEL_NOT_OPTED_IN"))
    else if !Verified(s, m) then SenderResult(PermanentFailure, Some("SIGNATURE_INVALID"))
    else if !NetworkAllowed(s, m.channel) then SenderResult(Disabled, Some("NETWORK_NOT_AUTHORIZED"))
    else if m.channel !in s.senders then SenderResult(Disabled, Some("NULL_SENDER_DISABLED"))
    else match reply
      case Returned(result) => result
      case Raised => SenderResult(TransientFailure, Some("SENDER_EXCEPTION"))
  }

  // ----- the automaton of one message -----

  datatype Phase =
    | Fresh
    | Queued(delivered: bool)   // waiting for a dispatch; `delivered` says whether an earlier one succeeded
    | AwaitingAck
    | Escalating
    | Closed(delivered: bool)   // suppressed, disabled or dead-lettered
    | Acked
    | Broken

  function Advance(p: Phase, k: Kind): Phase {
    match p
    case Fresh =>
      (match k
       case Enqueued => Queued(false)
       case Suppressed => Closed(false)
       case DeliveryDisabled => Closed(false)
       case _ => Broken)
    case Queued(d) =>
      (match k
       case Delivered => AwaitingAck
       case RetryScheduled => Queued(d)
       case DeadLettered => Closed(d)
       case DeliveryDisabled => Closed(d)
       case Acknowledged => if d then Acked else Broken
       case _ => Broken)
    case AwaitingAck =>
      (match k
       case Escalated => Escalating
       case DeadLettered => Closed(true)
       case Acknowledged => Acked
       case _ => Broken)
    case Escalating => if k.RetryScheduled? then Queued(true) else Broken
    case Closed(d) => if k.Acknowledged? && d then Acked else Broken
    case Acked => Broken
    case Broken => Broken
  }

  /** The phase that a log, read in the order it was appended, leads to. */
  function PhaseOf(events: seq<Event>): Phase {
    if events == [] then Fresh
    else Advance(PhaseOf(events[..|events| - 1]), events[|events| - 1].kind)
  }

  predicate Settled(p: Phase) { p.Closed? || p.Acked? }

  predicate WasDelivered(p: Phase) {
    match p
    case Queued(d) => d
    case Closed(d) => d
    case AwaitingAck => true
    case Escalating => true
    case Acked => true
    case _ => false
  }

  predicate TerminalKind(k: Kind) { k.Suppressed? || k.DeliveryDisabled? || k.DeadLettered? || k.Acknowledged? }

  ghost predicate Has(events: seq<Event>, k: Kind) { exists e :: e in events && e.kind == k }

  ghost predicate HasTerminal(events: seq<Event>) { exists e :: e in events && TerminalKind(e.kind) }

  lemma AppendedMembers(events: seq<Event>, e: Event)
    ensures forall x :: x in events + [e] <==> x in events || x == e
    ensures forall k :: Has(events + [e], k) <==> Has(events, k) || e.kind == k
    ensures HasTerminal(events + [e]) <==> HasTerminal(events) || TerminalKind(e.kind)
    ensures PhaseOf(events + [e]) == Advance(PhaseOf(events), e.kind)
  {
    assert (events + [e])[..|events|] == events;
    assert forall x :: x in events + [e] <==> x in events || x == e;
    assert e in events + [e];
  }

  /** What a log's phase says about the kinds of events in it. */
  lemma {:induction false} PhaseReflectsLog(events: seq<Event>)
    requires !PhaseOf(events).Broken?
    ensures PhaseOf(events).Fresh? <==> events == []
    ensures HasTerminal(events) <==> Settled(PhaseOf(events))
    ensures Has(events, Delivered) <==> WasDelivered(PhaseOf(events))
    ensures Has(events, Acknowledged) <==> PhaseOf(events).Acked?
  {
    if events != [] {
      var front, last := events[..|events| - 1], events[|events| - 1];
      PhaseReflectsLog(front);
      AppendedMembers(front, last);
      assert events == front + [last];
    }
  }

  function Escalations(events: seq<Event>): (c: nat) {
    if events == [] then 0
    else Escalations(events[..|events| - 1]) + if events[|events| - 1].kind.Escalated? then 1 else 0
  }

  lemma EscalationsAppended(events: seq<Event>, e: Event)
    ensures Escalations(events + [e]) == Escalations(events) + if e.kind.Escalated? then 1 else 0
  {
    assert (events + [e])[..|events|] == events;
  }

  // ----- one step of one message -----

  function Last(events: seq<Event>): Event
    requires events != []
  {
    events[|events| - 1]
  }

  /** A message is due when it is queued and its release time has come. */
  predicate Due(t: Thread, now: int) {
    && PhaseOf(t.events).Queued? && t.events != []
    && (if Last(t.events).kind.Enqueued? then Last(t.events).at <= now
        else Last(t.events).nextAttemptAt.Some? && Last(t.events).nextAttemptAt.value <= now)
  }

  function NewAttempt(s: Service, t: Thread, now: int, reply: Reply): Attempt {
    var result := AttemptResult(s, t.message, reply);
    Attempt(|t.attempts| + 1, now, result.outcome, result.reason)
  }

  /** A reason that is absent or empty gives way to the default. */
  function ReasonOr(r: Option<string>, default: string): Option<string> {
    if r.Some? && r.value != "" then r else Some(default)
  }

  function OutcomeEvent(s: Service, t: Thread, now: int, reply: Reply): Event {
    var p := PolicyFor(s, t.message.channel);
    var n := |t.attempts| + 1;
    var result := AttemptResult(s, t.message, reply);
    match result.outcome
    case Sent =>
      Event(Delivered, now, Some(n), None, None, if p.requireAck then Some(now + p.ackTimeout) else None, 0, None)
    case TransientFailure =>
      if n >= p.maxAttempts then
        Event(DeadLettered, now, Some(n), Some("RETRY_BUDGET_EXHAUSTED"), None, None, 0, None)
      else
        Event(RetryScheduled, now, Some(n + 1), ReasonOr(result.reason, "TRANSIENT_FAILURE"),
              Some(now + RetryDelay(p, n)), None, 0, None)
    case PermanentFailure =>
      Event(DeadLettered, now, Some(n), ReasonOr(result.reason, "PERMANENT_FAILURE"), None, None, 0, None)
    case Disabled =>
      Event(DeliveryDisabled, now, Some(n), ReasonOr(result.reason, "DELIVERY_DISABLED"), None, None, 0, None)
  }

  function Dispatched(s: Service, t: Thread, now: int, reply: Reply): Thread {
    t.(events := t.events + [OutcomeEvent(s, t, now, reply)],
       attempts := t.attempts + [NewAttempt(s, t, now, reply)])
  }

  predicate Overdue(s: Service, t: Thread, now: int) {
    && PolicyFor(s, t.message.channel).requireAck
    && PhaseOf(t.events).AwaitingAck? && t.events != []
    && Last(t.events).ackDueAt.Some? && Last(t.events).ackDueAt.value <= now
  }

  function AckTimeout(t: Thread, now: int): Event {
    Event(DeadLettered, now, None, Some("ACK_TIMEOUT"), None, None, Escalations(t.events), None)
  }

  function Escalation(t: Thread, now: int): Event {
    Event(Escalated, now, None, Some("ACK_TIMEOUT"), None, None, Escalations(t.events) + 1, None)
  }

  function EscalationRetry(t: Thread, now: int): Event {
    Event(RetryScheduled, now, Some(|t.attempts| + 1), Some("ACK_ESCALATION"), Some(now), None,
          Escalations(t.events) + 1, None)
  }

  /** An overdue acknowledgement spends one escalation level, or closes the message when none is left. */
  function EscalatedThread(s: Service, t: Thread, now: int): Thread {
    if Escalations(t.events) >= PolicyFor(s, t.message.channel).maxEscalations then
      t.(events := t.events + [AckTimeout(t, now)])
    else
      t.(events := t.events + [Escalation(t, now)] + [EscalationRetry(t, now)])
  }

  /** An acknowledgement may not precede any delivery. */
  ghost predicate MayAcknowledge(t: Thread, now: int) {
    WasDelivered(PhaseOf(t.events)) && forall e | e in t.events && e.kind.Delivered? :: e.at <= now
  }

  function Ack(actor: string, now: int): Event {
    Event(Acknowledged, now, None, Some("USER_ACKNOWLEDGED"), None, None, 0, Some(actor))
  }

  datatype Op = Dispatch(now: int, reply: Reply) | Escalate(now: int) | Acknowledge(now: int, actor: string)

  /** One operation of the service as one message sees it, for any caller time and any sender reply. */
  ghost function Step(s: Service, t: Thread, op: Op): Thread {
    match op
    case Dispatch(now, reply) => if Due(t, now) then Dispatched(s, t, now, reply) else t
    case Escalate(now) => if Overdue(s, t, now) then EscalatedThread(s, t, now) else t
    case Acknowledge(now, actor) =>
      if MayAcknowledge(t, now) && !PhaseOf(t.events).Acked? then t.(events := t.events + [Ack(actor, now)]) else t
  }

  // ----- what every step keeps -----

  /** All events of a log but an acknowledgement carry non-decreasing times. */
  ghost predicate TimesOrdered(events: seq<Event>) {
    forall i, j | 0 <= i < j < |events| && !events[j].kind.Acknowledged? :: events[i].at <= events[j].at
  }

  /** Attempt numbers and escalation levels in the log lag behind the counters of the thread. */
  ghost predicate Numbered(t: Thread) {
    var n, e := |t.attempts|, Escalations(t.events);
    && (forall i | 0 <= i < n :: t.attempts[i].number == i + 1)
    && (forall x | x in t.events ::
          && (x.kind.Delivered? ==> x.attempt.Some? && x.attempt.value <= n)
          && (x.kind.RetryScheduled? ==>
                x.attempt.Some? && x.attempt.value <= n + if PhaseOf(t.events).AwaitingAck? then 0 else 1)
          && (x.kind.Escalated? ==> x.level <= e))
  }

  /** Attempts and escalations stay within the budget that the phase leaves. */
  ghost predicate Budgeted(p: ChannelPolicy, t: Thread) {
    var n, e, phase := |t.attempts|, Escalations(t.events), PhaseOf(t.events);
    && e <= p.maxEscalations
    && (if phase.Queued? then n < p.maxAttempts + e else n <= p.maxAttempts + e)
    && |t.events| <= 1 + n + 2 * e + (if phase.Acked? then 2 else if phase.Closed? then 1 else 0)
  }

  /** The last event carries the times that the next step waits for. */
  ghost predicate Timed(p: ChannelPolicy, t: Thread) {
    var phase := PhaseOf(t.events);
    && t.events != []
    && (phase.Queued? ==>
          || Last(t.events).kind.Enqueued?
          || (Last(t.events).kind.RetryScheduled? && Last(t.events).nextAttemptAt.Some?
              && Last(t.events).nextAttemptAt.value >= Last(t.events).at))
    && (phase.AwaitingAck? ==>
          && Last(t.events).kind.Delivered?
          && Last(t.events).ackDueAt == if p.requireAck then Some(Last(t.events).at + p.ackTimeout) else None)
  }

  /** Nothing was sent unless every gate was open. */
  ghost predicate Gated(s: Service, t: Thread) {
    && Verified(s, t.message)
    && forall i | 0 <= i < |t.attempts| && t.attempts[i].outcome.Sent? ::
         DeliveryEnabled(PolicyFor(s, t.message.channel)) && NetworkAllowed(s, t.message.channel)
  }

  ghost predicate Sound(s: Service, t: Thread) {
    var p, phase := PolicyFor(s, t.message.channel), PhaseOf(t.events);
    && !phase.Fresh? && !phase.Escalating? && !phase.Broken?
    && TimesOrdered(t.events) && Numbered(t) && Budgeted(p, t) && Timed(p, t) && Gated(s, t)
  }

  lemma TimesAppended(events: seq<Event>, e: Event)
    requires TimesOrdered(events)
    requires e.kind.Acknowledged? || events == [] || (!Has(events, Acknowledged) && Last(events).at <= e.at)
    ensures TimesOrdered(events + [e])
  {
    var log := events + [e];
    forall i, j | 0 <= i < j < |log| && !log[j].kind.Acknowledged? ensures log[i].at <= log[j].at {
      if j == |events| && i < |events| - 1 {
        assert Last(events) in events;
        assert events[i].at <= events[|events| - 1].at;
      }
    }
  }

  /** Nothing the next dispatch appends is in the log already. */
  lemma DispatchIsFresh(s: Service, t: Thread, now: int, reply: Reply)
    requires Sound(s, t) && PhaseOf(t.events).Queued?
    ensures OutcomeEvent(s, t, now, reply) !in t.events
    ensures forall a | a in t.attempts :: a.number != NewAttempt(s, t, now, reply).number
  {
    hide TimesOrdered, Budgeted, Timed, Gated, AttemptResult, RetryDelay;
    PhaseReflectsLog(t.events);
    hide PhaseOf;
  }

  lemma EscalationIsFresh(s: Service, t: Thread, now: int)
    requires Sound(s, t) && PhaseOf(t.events).AwaitingAck?
    ensures AckTimeout(t, now) !in t.events && Escalation(t, now) !in t.events
    ensures EscalationRetry(t, now) !in t.events + [Escalation(t, now)]
  {
    hide TimesOrdered, Budgeted, Timed, Gated;
    PhaseReflectsLog(t.events);
    hide PhaseOf;
  }

  /** The phase and the escalation level after one more event. */
  lemma Appended(events: seq<Event>, e: Event)
    ensures PhaseOf(events + [e]) == Advance(PhaseOf(events), e.kind)
    ensures Escalations(events + [e]) == Escalations(events) + if e.kind.Escalated? then 1 else 0
    ensures forall x :: x in events + [e] <==> x in events || x == e
  {
    AppendedMembers(events, e);
    EscalationsAppended(events, e);
  }

  lemma DispatchPhase(s: Service, t: Thread, now: int, reply: Reply)
    requires Due(t, now)
    ensures var d, e := PhaseOf(t.events).delivered, OutcomeEvent(s, t, now, reply);
      && PhaseOf(t.events + [e]) == Advance(Queued(d), e.kind)
      && (e.kind.Delivered? || e.kind.RetryScheduled? || e.kind.DeadLettered? || e.kind.DeliveryDisabled?)
      && Escalations(t.events + [e]) == Escalations(t.events)
      && forall x :: x in t.events + [e] <==> x in t.events || x == e
  {
    hide PhaseOf, Escalations, AttemptResult, RetryDelay;
    Appended(t.events, OutcomeEvent(s, t, now, reply));
  }

  lemma DispatchKeepsNumbered(s: Service, t: Thread, now: int, reply: Reply)
    requires Numbered(t) && Due(t, now)
    ensures Numbered(Dispatched(s, t, now, reply))
  {
    DispatchPhase(s, t, now, reply);
    hide PhaseOf, Escalations, AttemptResult, RetryDelay;
  }

  lemma DispatchKeepsBudgeted(s: Service, t: Thread, now: int, reply: Reply)
    requires Budgeted(PolicyFor(s, t.message.channel), t) && Due(t, now)
    ensures Budgeted(PolicyFor(s, t.message.channel), Dispatched(s, t, now, reply))
  {
    DispatchPhase(s, t, now, reply);
    hide PhaseOf, Escalations, AttemptResult, RetryDelay;
  }

  lemma DispatchIsTimed(s: Service, t: Thread, now: int, reply: Reply)
    requires ValidService(s) && Due(t, now)
    ensures Timed(PolicyFor(s, t.message.channel), Dispatched(s, t, now, reply))
  {
    DispatchPhase(s, t, now, reply);
    RetryDelayGrowsWithinBounds(PolicyFor(s, t.message.channel), |t.attempts| + 1);
    hide PhaseOf, Escalations, AttemptResult, RetryDelay;
  }

  lemma DispatchKeepsTimes(s: Service, t: Thread, now: int, reply: Reply)
    requires Sound(s, t) && Due(t, now)
    ensures TimesOrdered(t.events + [OutcomeEvent(s, t, now, reply)])
  {
    hide Escalations, AttemptResult, RetryDelay, Numbered, Budgeted, Gated, TimesOrdered;
    PhaseReflectsLog(t.events);
    hide PhaseOf;
    TimesAppended(t.events, OutcomeEvent(s, t, now, reply));
  }

  lemma DispatchKeepsSound(s: Service, t: Thread, now: int, reply: Reply)
    requires ValidService(s) && Sound(s, t) && Due(t, now)
    ensures Sound(s, Dispatched(s, t, now, reply))
  {
    DispatchKeepsNumbered(s, t, now, reply);
    DispatchKeepsBudgeted(s, t, now, reply);
    DispatchIsTimed(s, t, now, reply);
    DispatchKeepsTimes(s, t, now, reply);
    DispatchPhase(s, t, now, reply);
    hide PhaseOf, Escalations, OutcomeEvent, TimesOrdered, Numbered, Budgeted, Timed;
    assert Gated(s, Dispatched(s, t, now, reply));
  }

  lemma TimeoutKeepsCounts(p: ChannelPolicy, t: Thread, now: int)
    requires PhaseOf(t.events).AwaitingAck? && Numbered(t) && Budgeted(p, t)
    ensures var u := t.(events := t.events + [AckTimeout(t, now)]);
      Numbered(u) && Budgeted(p, u) && Timed(p, u) && PhaseOf(u.events) == Closed(true)
  {
    Appended(t.events, AckTimeout(t, now));
    hide PhaseOf, Escalations;
  }

  lemma TimeoutKeepsSound(s: Service, t: Thread, now: int)
    requires ValidService(s) && Sound(s, t) && Overdue(s, t, now)
    ensures Sound(s, t.(events := t.events + [AckTimeout(t, now)]))
  {
    OverdueComesLater(s, t, now, AckTimeout(t, now));
    hide PhaseOf, Escalations, TimesOrdered, Numbered, Budgeted, Timed;
    TimeoutKeepsCounts(PolicyFor(s, t.message.channel), t, now);
  }

  lemma OverdueComesLater(s: Service, t: Thread, now: int, e: Event)
    requires Sound(s, t) && Overdue(s, t, now) && e.at == now
    requires PolicyFor(s, t.message.channel).ackTimeout > 0 || e.at >= Last(t.events).at
    ensures TimesOrdered(t.events + [e]) && !Has(t.events, Acknowledged)
  {
    hide Escalations, Numbered, Budgeted, Gated, TimesOrdered;
    PhaseReflectsLog(t.events);
    hide PhaseOf;
    TimesAppended(t.events, e);
  }

  lemma EscalationKeepsTimes(s: Service, t: Thread, now: int)
    requires ValidService(s) && Sound(s, t) && Overdue(s, t, now)
    ensures TimesOrdered(t.events + [Escalation(t, now)] + [EscalationRetry(t, now)])
  {
    var mid := t.events + [Escalation(t, now)];
    AppendedMembers(t.events, Escalation(t, now));
    hide Sound, Overdue, TimesOrdered, PhaseOf, Has;
    OverdueComesLater(s, t, now, Escalation(t, now));
    TimesAppended(mid, EscalationRetry(t, now));
  }

  lemma LevelPhase(t: Thread, now: int)
    requires PhaseOf(t.events).AwaitingAck?
    ensures var log := t.events + [Escalation(t, now)] + [EscalationRetry(t, now)];
      && PhaseOf(log) == Queued(true)
      && Escalations(log) == Escalations(t.events) + 1
      && forall x :: x in log <==> x in t.events || x == Escalation(t, now) || x == EscalationRetry(t, now)
  {
    Appended(t.events, Escalation(t, now));
    Appended(t.events + [Escalation(t, now)], EscalationRetry(t, now));
    hide PhaseOf, Escalations;
  }

  lemma LevelKeepsCounts(s: Service, t: Thread, now: int)
    requires PhaseOf(t.events).AwaitingAck? && Numbered(t) && Budgeted(PolicyFor(s, t.message.channel), t)
    requires Escalations(t.events) < PolicyFor(s, t.message.channel).maxEscalations
    ensures var u := t.(events := t.events + [Escalation(t, now)] + [EscalationRetry(t, now)]);
      Numbered(u) && Budgeted(PolicyFor(s, t.message.channel), u) && Timed(PolicyFor(s, t.message.channel), u)
  {
    LevelPhase(t, now);
    hide PhaseOf, Escalations;
  }

  lemma LevelKeepsSound(s: Service, t: Thread, now: int)
    requires ValidService(s) && Sound(s, t) && Overdue(s, t, now)
    requires Escalations(t.events) < PolicyFor(s, t.message.channel).maxEscalations
    ensures Sound(s, EscalatedThread(s, t, now))
  {
    LevelPhase(t, now);
    EscalationKeepsTimes(s, t, now);
    hide PhaseOf, Escalations, TimesOrdered, Numbered, Budgeted, Timed;
    LevelKeepsCounts(s, t, now);
  }

  lemma EscalationKeepsSound(s: Service, t: Thread, now: int)
    requires ValidService(s) && Sound(s, t) && Overdue(s, t, now)
    ensures Sound(s, EscalatedThread(s, t, now))
  {
    hide Sound, Overdue, Escalations;
    if Escalations(t.events) >= PolicyFor(s, t.message.channel).maxEscalations {
      TimeoutKeepsSound(s, t, now);
    } else {
      LevelKeepsSound(s, t, now);
    }
  }

  lemma AckKeepsNumbered(s: Service, t: Thread, now: int, actor: string)
    requires Sound(s, t) && MayAcknowledge(t, now) && !PhaseOf(t.events).Acked?
    ensures var after := t.(events := t.events + [Ack(actor, now)]);
      Numbered(after) && Budgeted(PolicyFor(s, t.message.channel), after)
  {
    Appended(t.events, Ack(actor, now));
    hide PhaseOf, Escalations, TimesOrdered, Gated;
  }

  lemma AckKeepsSound(s: Service, t: Thread, now: int, actor: string)
    requires Sound(s, t) && MayAcknowledge(t, now) && !PhaseOf(t.events).Acked?
    ensures Sound(s, t.(events := t.events + [Ack(actor, now)]))
  {
    var e := Ack(actor, now);
    AckKeepsNumbered(s, t, now, actor);
    Appended(t.events, e);
    TimesAppended(t.events, e);
    hide PhaseOf, Escalations, TimesOrdered, Numbered, Budgeted;
  }

  lemma StepKeepsSound(s: Service, t: Thread, op: Op)
    requires ValidService(s) && Sound(s, t)
    ensures Sound(s, Step(s, t, op))
  {
    hide Sound, Dispatched, EscalatedThread, Due, Overdue;
    match op
    case Dispatch(now, reply) => if Due(t, now) { DispatchKeepsSound(s, t, now, reply); }
    case Escalate(now) => if Overdue(s, t, now) { EscalationKeepsSound(s, t, now); }
    case Acknowledge(now, actor) =>
      if MayAcknowledge(t, now) && !PhaseOf(t.events).Acked? { AckKeepsSound(s, t, now, actor); }
  }

  // ----- whole runs -----

  ghost function Run(s: Service, t: Thread, ops: seq<Op>): Thread {
    if ops == [] then t else Step(s, Run(s, t, ops[..|ops| - 1]), ops[|ops| - 1])
  }

  lemma {:induction false} RunKeepsSound(s: Service, t: Thread, ops: seq<Op>)
    requires ValidService(s) && Sound(s, t)
    ensures Sound(s, Run(s, t, ops))
  {
    hide Sound, Step;
    if ops != [] {
      RunKeepsSound(s, t, ops[..|ops| - 1]);
      StepKeepsSound(s, Run(s, t, ops[..|ops| - 1]), ops[|ops| - 1]);
    }
  }

  /** The budgets of a message in numbers: attempts 1..n, escalations and events are all bounded. */
  lemma RunStaysInBudget(s: Service, t: Thread, ops: seq<Op>)
    requires ValidService(s) && Sound(s, t)
    ensures var p, u := PolicyFor(s, t.message.channel), Run(s, t, ops);
      && (forall i | 0 <= i < |u.attempts| :: u.attempts[i].number == i + 1)
      && |u.attempts| <= p.maxAttempts + p.maxEscalations
      && Escalations(u.events) <= p.maxEscalations
      && |u.events| <= 3 + p.maxAttempts + 3 * p.maxEscalations
  {
    RunKeepsSound(s, t, ops);
    RunKeepsMessage(s, t, ops);
    hide PhaseOf, Escalations, Run;
  }

  lemma {:induction false} RunKeepsMessage(s: Service, t: Thread, ops: seq<Op>)
    ensures Run(s, t, ops).message == t.message
    ensures t.events <= Run(s, t, ops).events && t.attempts <= Run(s, t, ops).attempts
  {
    if ops != [] {
      RunKeepsMessage(s, t, ops[..|ops| - 1]);
      StepOnlyAppends(s, Run(s, t, ops[..|ops| - 1]), ops[|ops| - 1]);
    }
  }

  /** A step either leaves the thread alone or makes its log longer; it never rewrites it. */
  lemma StepOnlyAppends(s: Service, t: Thread, op: Op)
    ensures var u := Step(s, t, op);
      && u.message == t.message && t.events <= u.events && t.attempts <= u.attempts
      && (u == t || |u.events| > |t.events|)
  {
    hide PhaseOf, Escalations, MayAcknowledge, OutcomeEvent, NewAttempt, Due, Overdue;
  }

  /** How many operations of a run changed the message. */
  ghost function Changes(s: Service, t: Thread, ops: seq<Op>): (c: nat) {
    if ops == [] then 0
    else
      var before := ops[..|ops| - 1];
      Changes(s, t, before) + if Run(s, t, ops) != Run(s, t, before) then 1 else 0
  }

  lemma {:induction false} ChangesLengthenTheLog(s: Service, t: Thread, ops: seq<Op>)
    ensures |Run(s, t, ops).events| >= |t.events| + Changes(s, t, ops)
  {
    if ops != [] {
      hide Step;
      ChangesLengthenTheLog(s, t, ops[..|ops| - 1]);
      StepOnlyAppends(s, Run(s, t, ops[..|ops| - 1]), ops[|ops| - 1]);
    }
  }

  /** However often it is dispatched, escalated and acknowledged, a message changes finitely often. */
  lemma MessageTakesFinitelyManySteps(s: Service, t: Thread, ops: seq<Op>)
    requires ValidService(s) && Sound(s, t)
    ensures var p := PolicyFor(s, t.message.channel);
      Changes(s, t, ops) <= 3 + p.maxAttempts + 3 * p.maxEscalations
  {
    hide *;
    RunStaysInBudget(s, t, ops);
    ChangesLengthenTheLog(s, t, ops);
  }

  /** Once settled, a message takes at most one more event: the acknowledgement of a delivered one. */
  lemma SettledStaysSettled(s: Service, t: Thread, op: Op)
    requires Sound(s, t) && Settled(PhaseOf(t.events))
    ensures var u := Step(s, t, op);
      || u == t
      || (PhaseOf(t.events) == Closed(true) && op.Acknowledge? && MayAcknowledge(t, op.now)
          && u == t.(events := t.events + [Ack(op.actor, op.now)]) && PhaseOf(u.events).Acked?)
  {
    if op.Acknowledge? {
      AppendedMembers(t.events, Ack(op.actor, op.now));
    }
  }
}
