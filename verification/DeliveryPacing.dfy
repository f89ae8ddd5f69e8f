/** What the log of a message says about its attempts: why each was made, what it led to, and when the next may follow. */
module DeliveryPacing {
  import opened Common
  import opened Backoff
  import opened AlertDelivery

  // ----- the gates, in terms of the settings -----

  /** The channel is configured, switched on, opted into, and its authorization is more than white space. */
  ghost predicate ChannelOpen(s: Service, c: Channel) {
    && c in s.policies && s.policies[c].enabled && s.policies[c].optedIn
    && s.policies[c].authorizationId.Some?
    && exists i :: 0 <= i < |s.policies[c].authorizationId.value| && !Space(s.policies[c].authorizationId.value[i])
  }

  ghost predicate Signed(s: Service, m: Message) { m.signature == s.sign(m.(signature := "")) }

  /** A network sender runs only with both permissions. */
  ghost predicate NetworkClosed(s: Service, c: Channel) {
    c in s.senders && s.senders[c] && !(s.networkAuthorized && c in s.policies && s.policies[c].allowNetwork)
  }

  ghost predicate GatesOpen(s: Service, m: Message) {
    ChannelOpen(s, m.channel) && Signed(s, m) && m.channel in s.senders && !NetworkClosed(s, m.channel)
  }

  /** An attempt on this message may have this outcome and reason: a sender speaks only behind open gates, and
      a closed gate is named, the first one that is closed. */
  ghost predicate Explained(s: Service, m: Message, outcome: Outcome, reason: Option<string>) {
    && (outcome.Sent? || outcome.TransientFailure? ==> GatesOpen(s, m))
    && (!GatesOpen(s, m) ==>
          && outcome == (if ChannelOpen(s, m.channel) && !Signed(s, m) then PermanentFailure else Disabled)
          && reason.Some?
          && (reason.value == "CHANNEL_NOT_OPTED_IN" <==> !ChannelOpen(s, m.channel))
          && (reason.value == "SIGNATURE_INVALID" <==> ChannelOpen(s, m.channel) && !Signed(s, m))
          && (reason.value == "NETWORK_NOT_AUTHORIZED" <==>
                ChannelOpen(s, m.channel) && Signed(s, m) && NetworkClosed(s, m.channel))
          && (reason.value == "NULL_SENDER_DISABLED" <==>
                ChannelOpen(s, m.channel) && Signed(s, m) && m.channel !in s.senders))
  }

  lemma EnabledIsOpen(s: Service, c: Channel)
    ensures DeliveryEnabled(PolicyFor(s, c)) <==> ChannelOpen(s, c)
  {
    var p := PolicyFor(s, c);
    if c in s.policies && p.authorizationId.Some? {
      var id := p.authorizationId.value;
      assert Blank(id) <==> forall i | 0 <= i < |id| :: Space(id[i]);
    }
  }

  /** Behind open gates the outcome is the sender's, and an exception counts as transient. */
  lemma AttemptIsExplained(s: Service, m: Message, reply: Reply)
    ensures var r := AttemptResult(s, m, reply);
      && Explained(s, m, r.outcome, r.reason)
      && (GatesOpen(s, m) ==>
            r == if reply.Returned? then reply.result else SenderResult(TransientFailure, Some("SENDER_EXCEPTION")))
  {
    EnabledIsOpen(s, m.channel);
    hide DeliveryEnabled, ChannelOpen;
  }

  /** A channel follows its own policy; without one it is closed, and repeats are suppressed for five minutes. */
  lemma PolicyOfChannel(s: Service, c: Channel)
    ensures var p := PolicyFor(s, c);
      && (c in s.policies ==> p == s.policies[c])
      && (c !in s.policies ==> !ChannelOpen(s, c) && !p.requireAck && !p.allowNetwork && p.cooldown == 300 * 1_000_000)
      && (c !in s.policies ==> p.maxAttempts == 3 && p.baseBackoff == 5_000_000 && p.maxBackoff == 120_000_000
                               && p.ackTimeout == 120_000_000 && p.maxEscalations == 0)
  {
  }

  // ----- what an attempt leads to -----

  /** The wait after attempt `n`: the base, doubled for every attempt before, up to the cap. */
  ghost function Wait(p: ChannelPolicy, n: nat): int
    requires n >= 1
  {
    MinInt(p.baseBackoff * Pow2(n - 1), p.maxBackoff)
  }

  /** A failure is explained by the sender's own reason unless that is missing or empty. */
  ghost predicate Explains(e: Event, given: Option<string>, default: string) {
    e.reason == if given == None || given == Some("") then Some(default) else given
  }

  /** The event that answers an attempt: a delivery, a retry after the wait while attempts are left, a dead
      letter, or the end of a channel that is switched off. */
  ghost predicate Answers(p: ChannelPolicy, a: Attempt, e: Event) {
    && e.at == a.at && a.number >= 1 && e.level == 0 && e.actor == None
    && match a.outcome
       case Sent =>
         && e.kind == Delivered && e.attempt == Some(a.number) && e.reason == None && e.nextAttemptAt == None
         && e.ackDueAt == if p.requireAck then Some(a.at + p.ackTimeout) else None
       case TransientFailure =>
         if a.number < p.maxAttempts then
           && e.kind == RetryScheduled && e.attempt == Some(a.number + 1) && e.ackDueAt == None
           && e.nextAttemptAt == Some(a.at + Wait(p, a.number)) && Explains(e, a.reason, "TRANSIENT_FAILURE")
         else
           && e.kind == DeadLettered && e.attempt == Some(a.number) && e.ackDueAt == None && e.nextAttemptAt == None
           && e.reason == Some("RETRY_BUDGET_EXHAUSTED")
       case PermanentFailure =>
         && e.kind == DeadLettered && e.attempt == Some(a.number) && e.ackDueAt == None && e.nextAttemptAt == None
         && Explains(e, a.reason, "PERMANENT_FAILURE")
       case Disabled =>
         && e.kind == DeliveryDisabled && e.attempt == Some(a.number) && e.ackDueAt == None && e.nextAttemptAt == None
         && Explains(e, a.reason, "DELIVERY_DISABLED")
  }

  lemma OutcomeAnswers(s: Service, t: Thread, now: int, reply: Reply)
    ensures Answers(PolicyFor(s, t.message.channel), NewAttempt(s, t, now, reply), OutcomeEvent(s, t, now, reply))
    ensures NewAttempt(s, t, now, reply).number == |t.attempts| + 1
  {
    hide AttemptResult, PolicyFor;
  }

  // ----- what every run keeps -----

  ghost predicate Answered(p: ChannelPolicy, t: Thread) {
    forall i | 0 <= i < |t.attempts| ::
      t.attempts[i].number == i + 1 && exists e :: e in t.events && Answers(p, t.attempts[i], e)
  }

  ghost predicate AllExplained(s: Service, t: Thread) {
    forall i | 0 <= i < |t.attempts| :: Explained(s, t.message, t.attempts[i].outcome, t.attempts[i].reason)
  }

  /** No attempt follows a transient failure before its wait is over. */
  ghost predicate Paced(p: ChannelPolicy, t: Thread) {
    forall i | 0 < i < |t.attempts| && t.attempts[i - 1].outcome.TransientFailure? ::
      t.attempts[i].at - t.attempts[i - 1].at >= Wait(p, i)
  }

  /** What a live message waits for: its first dispatch, the wait after its last attempt failed transiently with
      attempts left, an acknowledgement of its last attempt, or the next dispatch after an escalation. */
  ghost predicate Waits(p: ChannelPolicy, t: Thread) {
    match PhaseOf(t.events)
    case Queued(_) =>
      && t.events != []
      && (if t.attempts == [] then Last(t.events).kind.Enqueued?
          else
            var a := t.attempts[|t.attempts| - 1];
            && Last(t.events).kind.RetryScheduled?
            && (a.outcome.Sent? || (a.outcome.TransientFailure? && |t.attempts| < p.maxAttempts))
            && Last(t.events).nextAttemptAt ==
                 Some(if a.outcome.Sent? then Last(t.events).at else a.at + Wait(p, |t.attempts|)))
    case AwaitingAck =>
      && t.events != [] && t.attempts != [] && t.attempts[|t.attempts| - 1].outcome.Sent?
      && Answers(p, t.attempts[|t.attempts| - 1], Last(t.events))
    case _ => true
  }

  // ----- why an event is in the log -----

  /** The event before is a delivery whose acknowledgement was due by now. */
  ghost predicate TimedOut(events: seq<Event>, i: nat)
    requires i < |events|
  {
    i > 0 && events[i - 1].kind.Delivered? && events[i - 1].ackDueAt.Some? && events[i - 1].ackDueAt.value <= events[i].at
  }

  /** An overdue acknowledgement with a level left: the level is one more than the escalations before it. */
  ghost predicate IsEscalation(p: ChannelPolicy, events: seq<Event>, i: nat)
    requires i < |events|
  {
    var level := Escalations(events[..i]);
    && TimedOut(events, i) && level < p.maxEscalations
    && events[i] == Event(Escalated, events[i].at, None, Some("ACK_TIMEOUT"), None, None, level + 1, None)
  }

  /** It schedules one more attempt at once, after the one that was delivered. */
  ghost predicate IsEscalationRetry(events: seq<Event>, i: nat)
    requires i < |events|
  {
    && i > 1 && events[i - 1].kind.Escalated? && events[i - 2].attempt.Some?
    && var now, level := events[i - 1].at, events[i - 1].level;
       events[i] == Event(RetryScheduled, now, Some(events[i - 2].attempt.value + 1), Some("ACK_ESCALATION"),
                          Some(now), None, level, None)
  }

  /** An overdue acknowledgement without a level left closes the message. */
  ghost predicate IsAckTimeout(p: ChannelPolicy, events: seq<Event>, i: nat)
    requires i < |events|
  {
    var level := Escalations(events[..i]);
    && TimedOut(events, i) && level >= p.maxEscalations
    && events[i] == Event(DeadLettered, events[i].at, None, Some("ACK_TIMEOUT"), None, None, level, None)
  }

  /** An acknowledgement comes after a delivery and not before any. */
  ghost predicate IsAcknowledgement(events: seq<Event>, i: nat)
    requires i < |events|
  {
    && events[i].actor.Some?
    && events[i] == Event(Acknowledged, events[i].at, None, Some("USER_ACKNOWLEDGED"), None, None, 0, events[i].actor)
    && (exists j :: 0 <= j < i && events[j].kind.Delivered?)
    && forall j | 0 <= j < i && events[j].kind.Delivered? :: events[j].at <= events[i].at
  }

  ghost predicate IsAnswer(p: ChannelPolicy, attempts: seq<Attempt>, e: Event) {
    exists a :: a in attempts && Answers(p, a, e)
  }

  ghost predicate EventExplained(p: ChannelPolicy, t: Thread, i: nat)
    requires i < |t.events|
  {
    || i == 0
    || IsAnswer(p, t.attempts, t.events[i])
    || IsEscalation(p, t.events, i) || IsEscalationRetry(t.events, i)
    || IsAckTimeout(p, t.events, i) || IsAcknowledgement(t.events, i)
  }

  ghost predicate LogExplained(p: ChannelPolicy, t: Thread) {
    && Escalations(t.events) <= MaxInt(p.maxEscalations, 0)
    && forall i: nat | i < |t.events| :: EventExplained(p, t, i)
  }

  /** Explanations last: they look back only. */
  lemma ExplanationLasts(p: ChannelPolicy, t: Thread, u: Thread, i: nat)
    requires i < |t.events| && t.events <= u.events && t.attempts <= u.attempts && EventExplained(p, t, i)
    ensures EventExplained(p, u, i)
  {
    hide Answers, Escalations;
    assert t.events[..i] == u.events[..i] && t.events[i] == u.events[i];
    assert i > 0 ==> t.events[i - 1] == u.events[i - 1];
    assert i > 1 ==> t.events[i - 2] == u.events[i - 2];
    if IsAnswer(p, t.attempts, t.events[i]) {
      var a :| a in t.attempts && Answers(p, a, t.events[i]);
      assert a in u.attempts;
    }
    if IsAcknowledgement(t.events, i) {
      var j :| 0 <= j < i && t.events[j].kind.Delivered?;
      assert u.events[j].kind.Delivered?;
      assert forall k | 0 <= k < i :: u.events[k] == t.events[k];
    }
  }

  lemma LogExplainedMore(p: ChannelPolicy, t: Thread, u: Thread)
    requires LogExplained(p, t) && t.events <= u.events && t.attempts <= u.attempts
    requires Escalations(u.events) <= MaxInt(p.maxEscalations, 0)
    requires forall i: nat | |t.events| <= i < |u.events| :: EventExplained(p, u, i)
    ensures LogExplained(p, u)
  {
    hide EventExplained, Escalations;
    forall i: nat | i < |t.events| ensures EventExplained(p, u, i) { ExplanationLasts(p, t, u, i); }
  }

  ghost predicate Kept(s: Service, t: Thread) {
    var p := PolicyFor(s, t.message.channel);
    Answered(p, t) && AllExplained(s, t) && Paced(p, t) && Waits(p, t) && LogExplained(p, t)
  }

  /** A thread before its first dispatch. */
  lemma NewThreadIsKept(s: Service, m: Message, e: Event)
    requires e.kind.Enqueued? || e.kind.Suppressed? || e.kind.DeliveryDisabled?
    ensures Kept(s, Thread(m, [e], []))
  {
    assert [e][..0] == [];
    assert PhaseOf([]) == Fresh && Escalations([]) == 0;
  }

  lemma DispatchKeepsAnswered(s: Service, t: Thread, now: int, reply: Reply)
    requires Answered(PolicyFor(s, t.message.channel), t) && AllExplained(s, t)
    ensures Answered(PolicyFor(s, t.message.channel), Dispatched(s, t, now, reply))
    ensures AllExplained(s, Dispatched(s, t, now, reply))
  {
    OutcomeAnswers(s, t, now, reply);
    AttemptIsExplained(s, t.message, reply);
    hide Answers, Explained, OutcomeEvent, PolicyFor, AttemptResult;
    var p, u := PolicyFor(s, t.message.channel), Dispatched(s, t, now, reply);
    forall i | 0 <= i < |u.attempts| ensures exists e :: e in u.events && Answers(p, u.attempts[i], e) {
      if i < |t.attempts| {
        assert u.attempts[i] == t.attempts[i];
        assert exists e :: e in t.events && Answers(p, t.attempts[i], e);
        var e :| e in t.events && Answers(p, t.attempts[i], e);
        assert e in u.events;
      } else {
        assert Last(u.events) in u.events;
      }
    }
  }

  lemma DispatchKeepsPaced(s: Service, t: Thread, now: int, reply: Reply)
    requires Paced(PolicyFor(s, t.message.channel), t) && Waits(PolicyFor(s, t.message.channel), t) && Due(t, now)
    ensures Paced(PolicyFor(s, t.message.channel), Dispatched(s, t, now, reply))
  {
    hide PhaseOf, OutcomeEvent, PolicyFor, AttemptResult, Wait;
  }

  lemma DispatchKeepsWaits(s: Service, t: Thread, now: int, reply: Reply)
    requires Due(t, now)
    ensures Waits(PolicyFor(s, t.message.channel), Dispatched(s, t, now, reply))
  {
    OutcomeAnswers(s, t, now, reply);
    DispatchPhase(s, t, now, reply);
    hide PhaseOf, OutcomeEvent, PolicyFor, AttemptResult, Wait;
  }

  lemma DispatchIsExplained(s: Service, t: Thread, now: int, reply: Reply)
    requires LogExplained(PolicyFor(s, t.message.channel), t)
    ensures LogExplained(PolicyFor(s, t.message.channel), Dispatched(s, t, now, reply))
  {
    OutcomeAnswers(s, t, now, reply);
    OutcomeIsNoEscalation(s, t, now, reply);
    EscalationsAppended(t.events, OutcomeEvent(s, t, now, reply));
    hide Answers, OutcomeEvent, NewAttempt, Escalations, PolicyFor, LogExplained;
    var p, u := PolicyFor(s, t.message.channel), Dispatched(s, t, now, reply);
    assert u.attempts[|t.attempts|] in u.attempts;
    LogEscalations(p, t);
    LogExplainedMore(p, t, u);
  }

  lemma LogEscalations(p: ChannelPolicy, t: Thread)
    requires LogExplained(p, t)
    ensures Escalations(t.events) <= MaxInt(p.maxEscalations, 0)
  {
    hide Escalations, EventExplained;
  }

  lemma OutcomeIsNoEscalation(s: Service, t: Thread, now: int, reply: Reply)
    ensures !OutcomeEvent(s, t, now, reply).kind.Escalated?
  {
    hide AttemptResult, PolicyFor;
  }

  lemma DispatchKeeps(s: Service, t: Thread, now: int, reply: Reply)
    requires Kept(s, t) && Due(t, now)
    ensures Kept(s, Dispatched(s, t, now, reply))
  {
    DispatchKeepsAnswered(s, t, now, reply);
    DispatchKeepsPaced(s, t, now, reply);
    DispatchKeepsWaits(s, t, now, reply);
    DispatchIsExplained(s, t, now, reply);
    hide Answered, AllExplained, Paced, Waits, LogExplained, PolicyFor, OutcomeEvent, NewAttempt;
  }

  lemma MoreEventsKeep(s: Service, t: Thread, events: seq<Event>)
    requires Kept(s, t) && t.events <= events
    ensures var p, u := PolicyFor(s, t.message.channel), t.(events := events);
      Answered(p, u) && AllExplained(s, u) && Paced(p, u)
  {
    hide Answers, Explained, PolicyFor, Waits, Wait, LogExplained;
    var p := PolicyFor(s, t.message.channel);
    forall i | 0 <= i < |t.attempts| ensures exists e :: e in events && Answers(p, t.attempts[i], e) {
      assert exists e :: e in t.events && Answers(p, t.attempts[i], e);
      var e :| e in t.events && Answers(p, t.attempts[i], e);
      assert e in events;
    }
  }

  lemma EscalationWaits(s: Service, t: Thread, now: int)
    requires Waits(PolicyFor(s, t.message.channel), t) && Overdue(s, t, now)
    ensures Waits(PolicyFor(s, t.message.channel), EscalatedThread(s, t, now))
  {
    Appended(t.events, AckTimeout(t, now));
    LevelPhase(t, now);
    hide PhaseOf, Escalations, PolicyFor, Wait;
  }

  lemma TimeoutIsExplained(s: Service, t: Thread, now: int)
    requires var p := PolicyFor(s, t.message.channel); LogExplained(p, t) && Waits(p, t)
    requires Overdue(s, t, now) && Escalations(t.events) >= PolicyFor(s, t.message.channel).maxEscalations
    ensures LogExplained(PolicyFor(s, t.message.channel), EscalatedThread(s, t, now))
  {
    var p, u := PolicyFor(s, t.message.channel), EscalatedThread(s, t, now);
    EscalationsAppended(t.events, AckTimeout(t, now));
    LogEscalations(p, t);
    hide Escalations, PolicyFor, LogExplained, PhaseOf, Answers;
    assert u.events[..|t.events|] == t.events;
    assert IsAckTimeout(p, u.events, |t.events|);
    LogExplainedMore(p, t, u);
  }

  lemma LevelIsExplained(s: Service, t: Thread, now: int)
    requires var p := PolicyFor(s, t.message.channel); LogExplained(p, t) && Waits(p, t) && Answered(p, t)
    requires Overdue(s, t, now) && Escalations(t.events) < PolicyFor(s, t.message.channel).maxEscalations
    ensures LogExplained(PolicyFor(s, t.message.channel), EscalatedThread(s, t, now))
  {
    var p, u, n := PolicyFor(s, t.message.channel), EscalatedThread(s, t, now), |t.events|;
    EscalationsAppended(t.events, Escalation(t, now));
    EscalationsAppended(t.events + [Escalation(t, now)], EscalationRetry(t, now));
    LastDelivery(p, t);
    hide Escalations, PolicyFor, LogExplained, PhaseOf, Answers;
    assert u.events[..n] == t.events;
    assert u.events[n] == Escalation(t, now) && u.events[n + 1] == EscalationRetry(t, now);
    assert u.events[n - 1] == t.events[n - 1];
    assert IsEscalation(p, u.events, n) && IsEscalationRetry(u.events, n + 1);
    LogExplainedMore(p, t, u);
  }

  /** While an acknowledgement is awaited, the log ends in the delivery of the last attempt. */
  lemma LastDelivery(p: ChannelPolicy, t: Thread)
    requires Waits(p, t) && Answered(p, t) && PhaseOf(t.events).AwaitingAck?
    ensures t.events != [] && Last(t.events).kind.Delivered? && Last(t.events).attempt == Some(|t.attempts|)
  {
    hide PhaseOf, Wait;
  }

  lemma EscalationKeeps(s: Service, t: Thread, now: int)
    requires Kept(s, t) && Overdue(s, t, now)
    ensures Kept(s, EscalatedThread(s, t, now))
  {
    MoreEventsKeep(s, t, EscalatedThread(s, t, now).events);
    EscalationWaits(s, t, now);
    if Escalations(t.events) >= PolicyFor(s, t.message.channel).maxEscalations {
      TimeoutIsExplained(s, t, now);
    } else {
      LevelIsExplained(s, t, now);
    }
    hide Answered, AllExplained, Paced, Waits, Overdue, Escalations, PolicyFor, LogExplained;
  }

  lemma AcknowledgementIsExplained(p: ChannelPolicy, t: Thread, now: int, actor: string)
    requires LogExplained(p, t) && MayAcknowledge(t, now) && Has(t.events, Delivered)
    ensures LogExplained(p, t.(events := t.events + [Ack(actor, now)]))
  {
    EscalationsAppended(t.events, Ack(actor, now));
    LogEscalations(p, t);
    hide Escalations, LogExplained, PhaseOf, Answers;
    var u, n := t.(events := t.events + [Ack(actor, now)]), |t.events|;
    assert forall k | 0 <= k < n :: u.events[k] == t.events[k] && t.events[k] in t.events;
    var e :| e in t.events && e.kind == Delivered;
    var j :| 0 <= j < n && t.events[j] == e;
    assert u.events[j].kind.Delivered?;
    assert IsAcknowledgement(u.events, n);
    LogExplainedMore(p, t, u);
  }

  lemma AcknowledgementKeeps(s: Service, t: Thread, now: int, actor: string)
    requires Kept(s, t) && MayAcknowledge(t, now) && !PhaseOf(t.events).Acked?
    ensures Kept(s, t.(events := t.events + [Ack(actor, now)]))
  {
    MoreEventsKeep(s, t, t.events + [Ack(actor, now)]);
    Appended(t.events, Ack(actor, now));
    PhaseReflectsLog(t.events);
    AcknowledgementIsExplained(PolicyFor(s, t.message.channel), t, now, actor);
    hide Answered, AllExplained, Paced, PhaseOf, Escalations, PolicyFor, LogExplained, Has, HasTerminal;
  }

  lemma StepKeeps(s: Service, t: Thread, op: Op)
    requires Kept(s, t)
    ensures Kept(s, Step(s, t, op))
  {
    hide Kept, Due, Overdue, MayAcknowledge, Dispatched, EscalatedThread, PhaseOf;
    match op
    case Dispatch(now, reply) => if Due(t, now) { DispatchKeeps(s, t, now, reply); }
    case Escalate(now) => if Overdue(s, t, now) { EscalationKeeps(s, t, now); }
    case Acknowledge(now, actor) =>
      if MayAcknowledge(t, now) && !PhaseOf(t.events).Acked? { AcknowledgementKeeps(s, t, now, actor); }
  }

  lemma {:induction false} RunKeeps(s: Service, t: Thread, ops: seq<Op>)
    requires Kept(s, t)
    ensures Kept(s, Run(s, t, ops))
  {
    hide Kept, Step;
    if ops != [] {
      RunKeeps(s, t, ops[..|ops| - 1]);
      StepKeeps(s, Run(s, t, ops[..|ops| - 1]), ops[|ops| - 1]);
    }
  }

  /** Over any run of a new message: attempts after a transient failure keep its wait, every attempt is explained
      and answered in the log, and every event of the log but the first answers an attempt, escalates or closes an
      overdue delivery, or acknowledges one. */
  lemma RunIsPaced(s: Service, m: Message, e: Event, ops: seq<Op>)
    requires e.kind.Enqueued? || e.kind.Suppressed? || e.kind.DeliveryDisabled?
    ensures var u := Run(s, Thread(m, [e], []), ops);
      && (forall i | 0 <= i < |u.attempts| ::
            && Explained(s, m, u.attempts[i].outcome, u.attempts[i].reason)
            && exists x :: x in u.events && Answers(PolicyFor(s, m.channel), u.attempts[i], x))
      && (forall i | 0 < i < |u.attempts| && u.attempts[i - 1].outcome.TransientFailure? ::
            u.attempts[i].at - u.attempts[i - 1].at >= Wait(PolicyFor(s, m.channel), i))
      && forall i: nat | i < |u.events| :: EventExplained(PolicyFor(s, m.channel), u, i)
  {
    NewThreadIsKept(s, m, e);
    RunKeeps(s, Thread(m, [e], []), ops);
    RunKeepsMessage(s, Thread(m, [e], []), ops);
    hide Run, Waits, Explained, Answers, PolicyFor, Wait, EventExplained, Escalations;
    var p, u := PolicyFor(s, m.channel), Run(s, Thread(m, [e], []), ops);
    assert Answered(p, u) && AllExplained(s, u) && u.message == m;
    forall i | 0 <= i < |u.attempts|
      ensures Explained(s, m, u.attempts[i].outcome, u.attempts[i].reason)
      ensures exists x :: x in u.events && Answers(p, u.attempts[i], x)
    {
    }
  }

  /** The time from which a queued message is due: at once after enqueueing or an escalation, and the wait after its
      last attempt when that failed. */
  ghost function DueFrom(p: ChannelPolicy, t: Thread): int
    requires t.events != []
  {
    var n := |t.attempts|;
    if n == 0 || t.attempts[n - 1].outcome.Sent? then t.events[|t.events| - 1].at else t.attempts[n - 1].at + Wait(p, n)
  }

  lemma DueExactlyAfterTheWait(s: Service, t: Thread, now: int)
    requires Kept(s, t) && PhaseOf(t.events).Queued?
    ensures t.events != [] && (Due(t, now) <==> now >= DueFrom(PolicyFor(s, t.message.channel), t))
  {
    hide PhaseOf, PolicyFor, Wait, Answered, AllExplained, Paced;
  }

  /** An acknowledgement is overdue exactly when one is required and its time since the delivery has run out. */
  lemma OverdueExactlyAfterTheTimeout(s: Service, t: Thread, now: int)
    requires Kept(s, t) && PhaseOf(t.events).AwaitingAck?
    ensures var p := PolicyFor(s, t.message.channel);
      && t.attempts != []
      && (Overdue(s, t, now) <==> p.requireAck && now - t.attempts[|t.attempts| - 1].at >= p.ackTimeout)
  {
    hide PhaseOf, PolicyFor, Wait, Answered, AllExplained, Paced;
  }

  /** While an acknowledgement is awaited, escalation does nothing before its timeout has run out. From then on it
      spends a level, or closes the message when none is left. */
  lemma EscalatesExactlyWhenTimedOut(s: Service, t: Thread, now: int)
    requires Kept(s, t) && PhaseOf(t.events).AwaitingAck?
    ensures t.attempts != []
    ensures var p, u, n := PolicyFor(s, t.message.channel), Step(s, t, Escalate(now)), |t.events|;
      if p.requireAck && now - t.attempts[|t.attempts| - 1].at >= p.ackTimeout then
        && t.events <= u.events && n < |u.events| <= n + 2 && u.events[n].at == now
        && (IsEscalation(p, u.events, n) || IsAckTimeout(p, u.events, n))
        && (IsEscalation(p, u.events, n) <==> |u.events| == n + 2 && IsEscalationRetry(u.events, n + 1))
      else u == t
  {
    OverdueExactlyAfterTheTimeout(s, t, now);
    if Overdue(s, t, now) {
      var p, u, n := PolicyFor(s, t.message.channel), EscalatedThread(s, t, now), |t.events|;
      LastDelivery(p, t);
      hide Kept, PhaseOf, PolicyFor, Escalations;
      assert u.events[..n] == t.events && u.events[n - 1] == t.events[n - 1];
    }
  }
}
