/** What holds over every run of the collector. */
module CollectorProperties {
  import opened Common
  import opened Collector
  import Q = DataQuality

  /** What event `i` of a run did. */
  function At(c: Config, events: seq<Event>, i: nat): Outcome
    requires i < |events|
  {
    Step(c, After(c, events[..i]), events[i])
  }

  predicate ProcessedAt(c: Config, events: seq<Event>, i: nat)
    requires i < |events|
  {
    Processed(c, After(c, events[..i]), events[i])
  }

  /** A loss, a rate limit or a stop that was processed: it empties the cache. */
  predicate ResetAt(c: Config, events: seq<Event>, i: nat)
    requires i < |events|
  {
    ProcessedAt(c, events, i)
    && (events[i].kind.ConnectionLost? || events[i].kind.RateLimit? || events[i].kind.Stop?)
  }

  predicate AcceptedQuoteAt(c: Config, events: seq<Event>, i: nat)
    requires i < |events|
  {
    events[i].kind.Quote? && At(c, events, i).accepted
  }

  lemma PrefixUnchanged(c: Config, events: seq<Event>, e: Event)
    ensures forall i: nat | i < |events| ::
      && (events + [e])[i] == events[i]
      && At(c, events + [e], i) == At(c, events, i)
      && ProcessedAt(c, events + [e], i) == ProcessedAt(c, events, i)
    ensures At(c, events + [e], |events|) == Step(c, After(c, events), e)
    ensures ProcessedAt(c, events + [e], |events|) == Processed(c, After(c, events), e)
    ensures After(c, events + [e]) == Step(c, After(c, events), e).session
  {
    forall i: nat | i <= |events| ensures (events + [e])[..i] == events[..i] {}
    assert events[..|events|] == events;
    AfterAppended(c, events, e);
    hide After, Step, Processed;
  }

  lemma AfterNext(c: Config, events: seq<Event>, n: nat)
    requires n < |events|
    ensures After(c, events[..n + 1]) == Step(c, After(c, events[..n]), events[n]).session
  {
    assert events[..n + 1] == events[..n] + [events[n]];
    AfterAppended(c, events[..n], events[n]);
  }

  lemma AfterNothing(c: Config, events: seq<Event>)
    ensures After(c, events[..0]) == FRESH_SESSION
  {
  }

  // ----- HALTED is absorbing -----

  lemma HaltedStep(c: Config, s: Session, e: Event)
    requires s.state.Halted?
    ensures Step(c, s, e).session.state.Halted? && !Step(c, s, e).accepted
  {
    hide Apply;
  }

  lemma {:induction false} HaltedIsAbsorbing(c: Config, events: seq<Event>, i: nat)
    requires i <= |events| && After(c, events[..i]).state.Halted?
    ensures After(c, events).state.Halted?
  {
    if i == |events| {
      assert events[..i] == events;
    } else {
      var front, last := events[..|events| - 1], events[|events| - 1];
      assert front[..i] == events[..i];
      HaltedIsAbsorbing(c, front, i);
      HaltedStep(c, After(c, front), last);
    }
  }

  // ----- the cache -----

  ghost predicate DistinctSources(latest: seq<Q.Observation>) {
    forall i, j | 0 <= i < j < |latest| :: latest[i].source != latest[j].source
  }

  lemma {:induction false} UpsertReplacesSource(latest: seq<Q.Observation>, o: Q.Observation)
    requires DistinctSources(latest)
    ensures forall x :: x in Upsert(latest, o) <==> x == o || (x in latest && x.source != o.source)
    ensures DistinctSources(Upsert(latest, o))
  {
    if latest != [] {
      var rest := latest[1..];
      assert latest == [latest[0]] + rest;
      assert forall x | x in rest :: x.source != latest[0].source;
      if latest[0].source != o.source {
        UpsertReplacesSource(rest, o);
        assert forall i | 0 <= i < |Upsert(rest, o)| :: Upsert(rest, o)[i] in Upsert(rest, o);
      }
    }
  }

  /** The cache holds the expected instrument from distinct sources and knows when it was last fed. */
  ghost predicate CacheSound(c: Config, s: Session) {
    && (forall o | o in s.latest :: o.instrument == c.instrument)
    && DistinctSources(s.latest)
    && (s.lastObservationAt.Some? <==> s.latest != [])
    && (s.state.Streaming? ==> s.lastObservationAt.Some?)
  }

  /** The effect of one event on the cache. */
  lemma CacheStep(c: Config, s: Session, e: Event)
    ensures var o := Step(c, s, e);
      && (e.kind.Quote? && o.accepted ==>
            && Processed(c, s, e) && e.kind.observation.instrument == c.instrument
            && o.session.latest == Upsert(s.latest, e.kind.observation)
            && o.session.lastObservationAt == Some(e.firstSeenAt))
      && (Processed(c, s, e) && (e.kind.ConnectionLost? || e.kind.RateLimit? || e.kind.Stop?) ==>
            o.session.latest == [] && o.session.lastObservationAt.None?)
      && (!(e.kind.Quote? && o.accepted)
          && !(Processed(c, s, e) && (e.kind.ConnectionLost? || e.kind.RateLimit? || e.kind.Stop?)) ==>
            o.session.latest == s.latest && o.session.lastObservationAt == s.lastObservationAt)
  {
    hide ReconnectDelay, FingerprintOf, Upsert;
  }

  lemma StreamingIsFresh(c: Config, s: Session, e: Event)
    ensures var t := Step(c, s, e).session;
      t.state.Streaming? ==>
        t.lastObservationAt.Some? && e.firstSeenAt - t.lastObservationAt.value <= c.policy.freshnessLimit
  {
    hide Apply, Refusals;
  }

  lemma UpsertIsNotEmpty(latest: seq<Q.Observation>, o: Q.Observation)
    ensures Upsert(latest, o) != []
  {
  }

  lemma {:induction false} CacheIsSound(c: Config, events: seq<Event>)
    ensures CacheSound(c, After(c, events))
  {
    if events != [] {
      var front, last := events[..|events| - 1], events[|events| - 1];
      CacheIsSound(c, front);
      var s := After(c, front);
      CacheStep(c, s, last);
      StreamingIsFresh(c, s, last);
      hide Step, Upsert;
      if last.kind.Quote? && Step(c, s, last).accepted {
        UpsertReplacesSource(s.latest, last.kind.observation);
        UpsertIsNotEmpty(s.latest, last.kind.observation);
      }
    }
  }

  /** Quote `i` was accepted, nothing reset the cache since, and its source sent no accepted quote since. */
  ghost predicate CurrentAt(c: Config, events: seq<Event>, i: nat)
    requires i < |events|
  {
    && AcceptedQuoteAt(c, events, i)
    && (forall j: nat | i < j < |events| :: !ResetAt(c, events, j))
    && (forall j: nat | i < j < |events| && AcceptedQuoteAt(c, events, j) ::
          events[j].kind.observation.source != events[i].kind.observation.source)
  }

  ghost predicate IsCurrent(c: Config, events: seq<Event>, o: Q.Observation) {
    exists i: nat :: i < |events| && CurrentAt(c, events, i) && events[i].kind == Quote(o)
  }

  lemma CurrentAtAppended(c: Config, events: seq<Event>, e: Event, i: nat)
    requires i < |events|
    ensures var all, n := events + [e], |events|;
      CurrentAt(c, all, i) <==>
        && CurrentAt(c, events, i) && !ResetAt(c, all, n)
        && (AcceptedQuoteAt(c, all, n) ==> e.kind.observation.source != events[i].kind.observation.source)
  {
    PrefixUnchanged(c, events, e);
    hide At, ProcessedAt, After, Step, Processed;
    var all, n := events + [e], |events|;
    assert forall j: nat | j < n ::
      ResetAt(c, all, j) == ResetAt(c, events, j) && AcceptedQuoteAt(c, all, j) == AcceptedQuoteAt(c, events, j);
    hide ResetAt, AcceptedQuoteAt;
    if CurrentAt(c, all, i) {
      forall j: nat | i < j < n ensures !ResetAt(c, events, j) { assert !ResetAt(c, all, j); }
      forall j: nat | i < j < n && AcceptedQuoteAt(c, events, j)
        ensures events[j].kind.observation.source != events[i].kind.observation.source
      {
        assert AcceptedQuoteAt(c, all, j) && all[j] == events[j];
      }
    }
  }

  /** What an event leaves of a set of quotes: a reset clears it, an accepted quote replaces its source. */
  ghost predicate Leaves(c: Config, events: seq<Event>, e: Event, before: bool, o: Q.Observation) {
    var all, n := events + [e], |events|;
    if AcceptedQuoteAt(c, all, n) then o == e.kind.observation || (before && o.source != e.kind.observation.source)
    else !ResetAt(c, all, n) && before
  }

  lemma CurrentAppended(c: Config, events: seq<Event>, e: Event, o: Q.Observation)
    ensures IsCurrent(c, events + [e], o) <==> Leaves(c, events, e, IsCurrent(c, events, o), o)
  {
    NewestIsCurrent(c, events, e);
    hide CurrentAt, ResetAt, AcceptedQuoteAt;
    var all, n := events + [e], |events|;
    assert AcceptedQuoteAt(c, all, n) && o == e.kind.observation ==> all[n].kind == Quote(o);
    assert all[n] == e && forall i | 0 <= i < n :: all[i] == events[i];
    if IsCurrent(c, all, o) {
      var i: nat :| i < |all| && CurrentAt(c, all, i) && all[i].kind == Quote(o);
      if i < n { CurrentAtAppended(c, events, e, i); }
    }
    if IsCurrent(c, events, o) {
      var i: nat :| i < n && CurrentAt(c, events, i) && events[i].kind == Quote(o);
      CurrentAtAppended(c, events, e, i);
    }
  }

  lemma CacheAppended(c: Config, events: seq<Event>, e: Event, o: Q.Observation)
    requires DistinctSources(After(c, events).latest)
    ensures o in After(c, events + [e]).latest <==> Leaves(c, events, e, o in After(c, events).latest, o)
  {
    var s := After(c, events);
    CacheStep(c, s, e);
    PrefixUnchanged(c, events, e);
    hide Step, Upsert, Processed, At, ProcessedAt, After, DistinctSources;
    if AcceptedQuoteAt(c, events + [e], |events|) {
      UpsertReplacesSource(s.latest, e.kind.observation);
    }
  }

  lemma NewestIsCurrent(c: Config, events: seq<Event>, e: Event)
    ensures CurrentAt(c, events + [e], |events|) <==> AcceptedQuoteAt(c, events + [e], |events|)
    ensures AcceptedQuoteAt(c, events + [e], |events|) ==> e.kind.Quote? && !ResetAt(c, events + [e], |events|)
  {
    hide At, ProcessedAt;
  }

  /** The cache is exactly the newest accepted quote of each source since the last reset. */
  lemma {:induction false} CacheIsNewestSinceReset(c: Config, events: seq<Event>, o: Q.Observation)
    ensures o in After(c, events).latest <==> IsCurrent(c, events, o)
  {
    hide Step, IsCurrent, Leaves;
    if events != [] {
      var front, last := events[..|events| - 1], events[|events| - 1];
      CacheIsNewestSinceReset(c, front, o);
      CacheIsSound(c, front);
      CacheAppended(c, front, last, o);
      CurrentAppended(c, front, last, o);
      assert events == front + [last];
    } else {
      NothingIsCurrent(c, o);
    }
  }

  lemma NothingIsCurrent(c: Config, o: Q.Observation)
    ensures !IsCurrent(c, [], o)
  {
  }

  lemma NeverHalted(c: Config, events: seq<Event>)
    requires After(c, events).state.Streaming?
    ensures forall i | 0 <= i <= |events| :: !After(c, events[..i]).state.Halted?
  {
    forall i | 0 <= i <= |events| ensures !After(c, events[..i]).state.Halted? {
      if After(c, events[..i]).state.Halted? { HaltedIsAbsorbing(c, events, i); }
    }
  }

  /** What a verdict that permits a decision says about the quotes it was made on. */
  lemma PermittedVerdict(p: Q.Policy, latest: seq<Q.Observation>, now: int, r: Q.Report)
    requires Q.IsVerdict(p, latest, now, r) && Q.PermitsDecision(r)
    ensures latest != [] && !Q.HasConflict(p, latest)
    ensures p.requireTwoSources && DistinctSources(latest) ==> |latest| >= 2
    ensures forall o | o in latest :: Q.Clean(p, o, now) && Q.FreshEnough(p, o, now)
  {
    hide Q.FreshEnough, Q.HasProblem, Q.HasConflict, Q.Sources, Q.StaleSomewhere;
    forall o | o in latest ensures Q.Clean(p, o, now) {
      forall problem ensures !Q.HasProblem(p, o, now, problem) {
        assert Q.OfSource(o.source, problem) !in r.reasons;
      }
    }
    Q.SourcesDistinct(latest);
    assert Q.NoSources !in r.reasons && Q.SecondSourceMissing !in r.reasons && Q.DualSourceConflict !in r.reasons;
  }

  /** All that a run which permits a decision guarantees. */
  lemma PermittedRunIsTrustworthy(c: Config, events: seq<Event>, r: Q.Report)
    requires events != [] && After(c, events).state.Streaming?
    requires Q.IsVerdict(c.quality, After(c, events).latest, events[|events| - 1].firstSeenAt, r) && Q.PermitsDecision(r)
    ensures var s, now := After(c, events), events[|events| - 1].firstSeenAt;
      && (forall i | 0 <= i <= |events| :: !After(c, events[..i]).state.Halted?)
      && s.latest != [] && s.lastObservationAt.Some? && now - s.lastObservationAt.value <= c.policy.freshnessLimit
      && DistinctSources(s.latest)
      && (c.quality.requireTwoSources ==> |s.latest| >= 2)
      && !Q.HasConflict(c.quality, s.latest)
      && (forall o | o in s.latest ::
            && o.instrument == c.instrument && IsCurrent(c, events, o)
            && Q.Clean(c.quality, o, now) && Q.FreshEnough(c.quality, o, now))
  {
    NeverHalted(c, events);
    StreamingIsFresh(c, After(c, events[..|events| - 1]), events[|events| - 1]);
    CacheIsSound(c, events);
    PermittedVerdict(c.quality, After(c, events).latest, events[|events| - 1].firstSeenAt, r);
    forall o | o in After(c, events).latest ensures IsCurrent(c, events, o) { CacheIsNewestSinceReset(c, events, o); }
    hide Step, Q.FreshEnough, Q.Clean, Q.HasConflict, Q.IsVerdict, IsCurrent, DistinctSources;
  }

  // ----- reconnecting -----

  /** The retry time is set exactly in the two waiting states, and the attempts stay within the budget. */
  ghost predicate RetrySound(c: Config, s: Session) {
    !s.state.Halted? ==>
      && s.attempts <= c.policy.maxReconnects
      && (s.nextRetry.Some? <==> s.state.BackingOff? || s.state.RateLimited?)
  }

  lemma RetryApply(c: Config, s: Session, e: Event)
    requires RetrySound(c, s) && !s.state.Halted?
    ensures RetrySound(c, Apply(c, s, e).0)
  {
    hide ReconnectDelay, FingerprintOf, Upsert;
  }

  lemma RetryStep(c: Config, s: Session, e: Event)
    requires RetrySound(c, s)
    ensures RetrySound(c, Step(c, s, e).session)
  {
    if !s.state.Halted? { RetryApply(c, Noted(s, e), e); }
    hide Apply, Refusals;
  }

  lemma {:induction false} RetryIsSound(c: Config, events: seq<Event>)
    ensures RetrySound(c, After(c, events))
  {
    if events != [] {
      RetryIsSound(c, events[..|events| - 1]);
      RetryStep(c, After(c, events[..|events| - 1]), events[|events| - 1]);
    }
  }

  predicate AcceptedConnectAt(c: Config, events: seq<Event>, i: nat)
    requires i < |events|
  {
    events[i].kind.Connected? && At(c, events, i).accepted
  }

  /** The processed losses among the events from `from` on. */
  function LossesFrom(c: Config, events: seq<Event>, from: nat): nat
    requires from <= |events|
    decreases |events|
  {
    if from == |events| then 0
    else
      var n := |events| - 1;
      LossesFrom(c, events[..n], from)
      + if events[n].kind.ConnectionLost? && Processed(c, After(c, events[..n]), events[n]) then 1 else 0
  }

  /** One past the last accepted CONNECTED, or zero. */
  function SinceConnect(c: Config, events: seq<Event>): (k: nat)
    ensures k <= |events|
  {
    if events == [] then 0
    else
      var n := |events| - 1;
      if events[n].kind.Connected? && Step(c, After(c, events[..n]), events[n]).accepted then n + 1
      else SinceConnect(c, events[..n])
  }

  lemma SinceConnectAppended(c: Config, events: seq<Event>, e: Event)
    ensures SinceConnect(c, events + [e]) ==
      if AcceptedConnectAt(c, events + [e], |events|) then |events| + 1 else SinceConnect(c, events)
  {
    hide Step, After;
    assert (events + [e])[..|events|] == events;
  }

  lemma {:induction false} SinceConnectIsLast(c: Config, events: seq<Event>)
    ensures var k := SinceConnect(c, events);
      && (k > 0 ==> AcceptedConnectAt(c, events, k - 1))
      && forall i: nat | k <= i < |events| :: !AcceptedConnectAt(c, events, i)
  {
    hide Step, After, At, SinceConnect, Processed, ProcessedAt;
    if events == [] {
      assert SinceConnect(c, events) == 0;
    } else {
      var front, last := events[..|events| - 1], events[|events| - 1];
      SinceConnectIsLast(c, front);
      assert events == front + [last];
      PrefixUnchanged(c, front, last);
      SinceConnectAppended(c, front, last);
      var k := SinceConnect(c, events);
      forall i: nat | k <= i < |events| ensures !AcceptedConnectAt(c, events, i) {
        if i < |front| { assert !AcceptedConnectAt(c, front, i); }
      }
    }
  }

  lemma AttemptStep(c: Config, s: Session, e: Event)
    ensures var o := Step(c, s, e);
      o.session.attempts ==
        if e.kind.Connected? && o.accepted then 0
        else s.attempts + if e.kind.ConnectionLost? && Processed(c, s, e) then 1 else 0
  {
    hide ReconnectDelay, FingerprintOf, Upsert;
  }

  /** The attempt counter is the number of losses processed since the last accepted CONNECTED. */
  lemma {:induction false} AttemptsCountLossesSinceConnect(c: Config, events: seq<Event>)
    ensures After(c, events).attempts == LossesFrom(c, events, SinceConnect(c, events))
  {
    if events != [] {
      var n := |events| - 1;
      AttemptsCountLossesSinceConnect(c, events[..n]);
      AttemptStep(c, After(c, events[..n]), events[n]);
      hide Step, Processed;
    }
  }

  /** A CONNECTED is never accepted before the retry time. */
  lemma ConnectWaitsForRetry(c: Config, events: seq<Event>, i: nat)
    requires i < |events| && AcceptedConnectAt(c, events, i)
    ensures var before := After(c, events[..i]);
      before.nextRetry.Some? ==> events[i].firstSeenAt >= before.nextRetry.value
  {
    hide After, Refusals;
  }

  /** The collector waits for a retry time. */
  predicate WaitsUntil(s: Session, due: int) {
    s.nextRetry == Some(due) && (s.state.BackingOff? || s.state.RateLimited?)
  }

  /** A processed loss within the budget schedules its retry after the base backoff, doubled for every loss before it
      and capped; a processed rate limit schedules it after its own time or the base backoff, whichever is longer; STOP
      drops the retry time but keeps the attempts. */
  lemma LossSchedulesRetry(c: Config, s: Session, e: Event)
    requires Processed(c, s, e)
    ensures e.kind.ConnectionLost? ==>
      var t := Step(c, s, e).session;
      && t.attempts == s.attempts + 1
      && (t.state.Halted? <==> t.attempts > c.policy.maxReconnects)
      && (!t.state.Halted? ==>
            WaitsUntil(t, e.firstSeenAt + MinInt(c.policy.baseBackoff * Pow2(s.attempts), c.policy.maxBackoff)))
      && (!t.state.Halted? ==> t.state.BackingOff?)
    ensures e.kind.RateLimit? ==>
      var t := Step(c, s, e).session;
      && t.attempts == s.attempts
      && (t.state.Halted? <==> e.kind.retryAfter.None? || e.kind.retryAfter.value <= 0)
      && (!t.state.Halted? ==>
            var wait := e.kind.retryAfter.value;
            WaitsUntil(t, e.firstSeenAt + if wait >= c.policy.baseBackoff then wait else c.policy.baseBackoff))
      && (!t.state.Halted? ==> t.state.RateLimited?)
    ensures e.kind.Stop? ==>
      var t := Step(c, s, e).session;
      t.state.Stopped? && t.nextRetry.None? && t.attempts == s.attempts
  {
  }

  // ----- waiting over a run -----

  lemma QuietStep(c: Config, s: Session, e: Event, due: int)
    requires WaitsUntil(s, due)
    requires !(Processed(c, s, e) && (e.kind.ConnectionLost? || e.kind.RateLimit? || e.kind.Stop?))
    requires !(e.kind.Connected? && Step(c, s, e).accepted)
    ensures var t := Step(c, s, e).session; WaitsUntil(t, due) || t.state.Halted?
  {
    hide ReconnectDelay, FingerprintOf, Upsert, Refusals;
  }

  /** Nothing but a loss, a rate limit, a stop or an accepted connect ends the wait, short of a halt. */
  lemma {:induction false} WaitGoesOn(c: Config, events: seq<Event>, i: nat, j: nat, due: int)
    requires i < j <= |events| && WaitsUntil(After(c, events[..i + 1]), due)
    requires forall k: nat | i < k < j :: !ResetAt(c, events, k) && !AcceptedConnectAt(c, events, k)
    ensures WaitsUntil(After(c, events[..j]), due) || After(c, events[..j]).state.Halted?
  {
    hide After, Step, Processed;
    if j > i + 1 {
      WaitGoesOn(c, events, i, j - 1, due);
      var s, e := After(c, events[..j - 1]), events[j - 1];
      assert !ResetAt(c, events, j - 1) && !AcceptedConnectAt(c, events, j - 1);
      AfterNext(c, events, j - 1);
      if s.state.Halted? { HaltedStep(c, s, e); } else { QuietStep(c, s, e, due); }
    }
  }

  /** A CONNECTED that is processed while waiting is accepted exactly from the retry time on. */
  lemma WaitingConnect(c: Config, s: Session, e: Event, due: int)
    requires WaitsUntil(s, due) && e.kind.Connected?
    ensures Processed(c, s, e) ==> (Step(c, s, e).accepted <==> e.firstSeenAt >= due)
    ensures Step(c, s, e).accepted ==> Processed(c, s, e)
  {
    hide Refusals;
  }

  /** Processed events come in the order of their times. */
  lemma {:induction false} ProcessedInOrder(c: Config, events: seq<Event>, i: nat, j: nat)
    requires i < j < |events| && ProcessedAt(c, events, j)
    ensures events[i].firstSeenAt <= events[j].firstSeenAt
  {
    SeenSince(c, events, i, j);
  }

  lemma NotedLater(c: Config, s: Session, e: Event)
    ensures var t := Step(c, s, e).session;
      t.lastSeenAt.Some? && t.lastSeenAt.value >= e.firstSeenAt
      && (s.lastSeenAt.Some? ==> t.lastSeenAt.value >= s.lastSeenAt.value)
  {
    ApplyKeepsLastSeen(c, Noted(s, e), e);
    hide Apply, Refusals, IsStale;
  }

  lemma ApplyKeepsLastSeen(c: Config, s: Session, e: Event)
    ensures Apply(c, s, e).0.lastSeenAt == s.lastSeenAt
  {
    hide ReconnectDelay, FingerprintOf, Upsert;
  }

  lemma {:induction false} SeenSince(c: Config, events: seq<Event>, i: nat, j: nat)
    requires i < j <= |events|
    ensures After(c, events[..j]).lastSeenAt.Some? && After(c, events[..j]).lastSeenAt.value >= events[i].firstSeenAt
  {
    var e := events[j - 1];
    assert events[..j] == events[..j - 1] + [e];
    AfterAppended(c, events[..j - 1], e);
    NotedLater(c, After(c, events[..j - 1]), e);
    hide After, Step;
    if i < j - 1 { SeenSince(c, events, i, j - 1); }
  }

  /** Event `j` is processed, and no connect was accepted between `i` and it. */
  ghost predicate FirstConnectAt(c: Config, events: seq<Event>, i: nat, j: nat)
    requires i < j < |events|
  {
    ProcessedAt(c, events, j) && forall k: nat | i < k < j :: !AcceptedConnectAt(c, events, k)
  }

  /** No connect is accepted before a scheduled retry time, until a loss, a rate limit or a stop replaces it; and the
      first one that is processed from that time on is accepted. */
  lemma {:induction false} ScheduledRetryIsKept(c: Config, events: seq<Event>, i: nat, j: nat, due: int)
    requires i < j < |events| && WaitsUntil(After(c, events[..i + 1]), due)
    requires (forall k: nat | i < k < j :: !ResetAt(c, events, k)) && events[j].kind.Connected?
    ensures AcceptedConnectAt(c, events, j) ==> events[j].firstSeenAt >= due
    ensures FirstConnectAt(c, events, i, j) && events[j].firstSeenAt >= due ==> AcceptedConnectAt(c, events, j)
  {
    var s := After(c, events[..j]);
    if m: nat :| i < m < j && AcceptedConnectAt(c, events, m) {
      if AcceptedConnectAt(c, events, j) {
        ScheduledRetryIsKept(c, events, i, m, due);
        AcceptedIsProcessed(c, s, events[j]);
        ProcessedInOrder(c, events, m, j);
      }
    } else {
      WaitGoesOn(c, events, i, j, due);
      hide After, Step, Processed;
      if s.state.Halted? {
        HaltedStep(c, s, events[j]);
        HaltedIsNotProcessed(c, s, events[j]);
      } else {
        WaitingConnect(c, s, events[j], due);
      }
    }
  }

  lemma AcceptedIsProcessed(c: Config, s: Session, e: Event)
    ensures Step(c, s, e).accepted ==> Processed(c, s, e)
  {
    hide Apply, Refusals;
  }

  lemma HaltedIsNotProcessed(c: Config, s: Session, e: Event)
    ensures s.state.Halted? ==> !Processed(c, s, e)
  {
  }

  /** Rate limits are waited out: after one with a positive time, and until a loss, another rate limit or a stop, a
      connect is accepted only when both that time and the base backoff have passed; the first one that is processed
      after both is accepted. */
  lemma RateLimitIsWaitedOut(c: Config, events: seq<Event>, i: nat, j: nat)
    requires i < j < |events| && ProcessedAt(c, events, i)
    requires events[i].kind.RateLimit? && events[i].kind.retryAfter.Some? && events[i].kind.retryAfter.value > 0
    requires (forall k: nat | i < k < j :: !ResetAt(c, events, k)) && events[j].kind.Connected?
    ensures var elapsed, wait := events[j].firstSeenAt - events[i].firstSeenAt, events[i].kind.retryAfter.value;
      && (AcceptedConnectAt(c, events, j) ==> elapsed >= wait && elapsed >= c.policy.baseBackoff)
      && (FirstConnectAt(c, events, i, j) && elapsed >= wait && elapsed >= c.policy.baseBackoff ==>
            AcceptedConnectAt(c, events, j))
  {
    var s, e := After(c, events[..i]), events[i];
    LossSchedulesRetry(c, s, e);
    assert events[..i + 1] == events[..i] + [e];
    AfterAppended(c, events[..i], e);
    hide After, Step, Processed, ResetAt, AcceptedConnectAt, ProcessedAt;
    ScheduledRetryIsKept(c, events, i, j, After(c, events[..i + 1]).nextRetry.value);
  }

  /** Losses are waited out likewise: the `n`-th one since the last accepted connect keeps connects away for the base
      backoff, doubled n - 1 times and capped. */
  lemma LossIsWaitedOut(c: Config, events: seq<Event>, i: nat, j: nat)
    requires i < j < |events| && ProcessedAt(c, events, i)
    requires events[i].kind.ConnectionLost? && After(c, events[..i]).attempts < c.policy.maxReconnects
    requires (forall k: nat | i < k < j :: !ResetAt(c, events, k)) && events[j].kind.Connected?
    ensures var elapsed := events[j].firstSeenAt - events[i].firstSeenAt;
      var wait := MinInt(c.policy.baseBackoff * Pow2(After(c, events[..i]).attempts), c.policy.maxBackoff);
      && (AcceptedConnectAt(c, events, j) ==> elapsed >= wait)
      && (FirstConnectAt(c, events, i, j) && elapsed >= wait ==> AcceptedConnectAt(c, events, j))
  {
    var s, e := After(c, events[..i]), events[i];
    LossSchedulesRetry(c, s, e);
    assert events[..i + 1] == events[..i] + [e];
    AfterAppended(c, events[..i], e);
    hide After, Step, Processed, ResetAt, AcceptedConnectAt, ProcessedAt;
    ScheduledRetryIsKept(c, events, i, j, After(c, events[..i + 1]).nextRetry.value);
  }

  // ----- accounting -----

  /** The accepted quotes of a run, oldest first. */
  function AcceptedQuotes(c: Config, events: seq<Event>): seq<Event> {
    if events == [] then []
    else
      var n := |events| - 1;
      AcceptedQuotes(c, events[..n])
      + if events[n].kind.Quote? && Step(c, After(c, events[..n]), events[n]).accepted then [events[n]] else []
  }

  /** Right-instrument quotes that were processed while streaming or degraded. */
  predicate Counted(c: Config, s: Session, e: Event) {
    e.kind.Quote? && Processed(c, s, e) && Live(s.state) && e.kind.observation.instrument == c.instrument
  }

  function CountedQuotes(c: Config, events: seq<Event>): nat {
    if events == [] then 0
    else
      var n := |events| - 1;
      CountedQuotes(c, events[..n]) + if Counted(c, After(c, events[..n]), events[n]) then 1 else 0
  }

  lemma QuoteStep(c: Config, s: Session, e: Event)
    ensures var o := Step(c, s, e);
      && o.session.accepted + o.session.duplicateObservations + o.session.outOfOrder
         == s.accepted + s.duplicateObservations + s.outOfOrder + (if Counted(c, s, e) then 1 else 0)
      && s.seenObservations <= o.session.seenObservations
      && (e.kind.Quote? && o.accepted ==>
            var q := e.kind.observation;
            && o.session.accepted == s.accepted + 1
            && FingerprintOf(q, e.schema) !in s.seenObservations
            && FingerprintOf(q, e.schema) in o.session.seenObservations
            && o.session.watermark == Some(q.sourceTs)
            && (s.watermark.Some? ==> s.watermark.value <= q.sourceTs))
      && (!(e.kind.Quote? && o.accepted) ==>
            o.session.accepted == s.accepted && o.session.watermark == s.watermark)
  {
    hide ReconnectDelay, FingerprintOf, Upsert;
  }

  function Sighting(e: Event): Fingerprint
    requires e.kind.Quote?
  {
    FingerprintOf(e.kind.observation, e.schema)
  }

  function SourceTs(e: Event): int
    requires e.kind.Quote?
  {
    e.kind.observation.sourceTs
  }

  /** The books of a session against the quotes it accepted. */
  ghost predicate Balanced(s: Session, quotes: seq<Event>, counted: nat) {
    && (forall i | 0 <= i < |quotes| :: quotes[i].kind.Quote?)
    && s.accepted == |quotes|
    && s.accepted + s.duplicateObservations + s.outOfOrder == counted
    && s.watermark == (if quotes == [] then None else Some(SourceTs(quotes[|quotes| - 1])))
    && (forall i, j | 0 <= i < j < |quotes| :: SourceTs(quotes[i]) <= SourceTs(quotes[j]))
    && (forall i | 0 <= i < |quotes| :: Sighting(quotes[i]) in s.seenObservations)
    && (forall i, j | 0 <= i < j < |quotes| :: Sighting(quotes[i]) != Sighting(quotes[j]))
  }

  lemma BalancedStep(c: Config, s: Session, e: Event, quotes: seq<Event>, counted: nat)
    requires Balanced(s, quotes, counted)
    ensures Balanced(Step(c, s, e).session,
      if e.kind.Quote? && Step(c, s, e).accepted then quotes + [e] else quotes,
      counted + if Counted(c, s, e) then 1 else 0)
  {
    QuoteStep(c, s, e);
    hide Step, Counted, FingerprintOf;
    if quotes != [] {
      var n := |quotes| - 1;
      assert forall i | 0 <= i < |quotes| :: SourceTs(quotes[i]) <= SourceTs(quotes[n]);
    }
  }

  /** Accepted quotes never go back in source time and are pairwise different; every counted quote is
      accepted, a duplicate or out of order; the watermark is the last accepted source time. */
  lemma {:induction false} BooksBalance(c: Config, events: seq<Event>)
    ensures Balanced(After(c, events), AcceptedQuotes(c, events), CountedQuotes(c, events))
  {
    hide *;
    if events == [] {
      StartIsBalanced(c);
    } else {
      var front, last := events[..|events| - 1], events[|events| - 1];
      BooksBalance(c, front);
      BalancedStep(c, After(c, front), last, AcceptedQuotes(c, front), CountedQuotes(c, front));
      QuotesAppended(c, front, last);
      AfterAppended(c, front, last);
      assert events == front + [last];
    }
  }

  lemma StartIsBalanced(c: Config)
    ensures Balanced(After(c, []), AcceptedQuotes(c, []), CountedQuotes(c, []))
  {
  }

  lemma QuotesAppended(c: Config, events: seq<Event>, e: Event)
    ensures var s := After(c, events);
      && AcceptedQuotes(c, events + [e]) ==
           (if e.kind.Quote? && Step(c, s, e).accepted then AcceptedQuotes(c, events) + [e] else AcceptedQuotes(c, events))
      && CountedQuotes(c, events + [e]) == CountedQuotes(c, events) + if Counted(c, s, e) then 1 else 0
  {
    hide Step, Counted, After;
    assert (events + [e])[..|events|] == events;
    assert AcceptedQuotes(c, events) + [] == AcceptedQuotes(c, events);
  }

  function Ids(events: seq<Event>): set<string> { set e | e in events :: e.id }

  lemma ApplyKeepsEventIds(c: Config, s: Session, e: Event)
    ensures Apply(c, s, e).0.seenEvents == s.seenEvents
    ensures Apply(c, s, e).0.duplicateEvents == s.duplicateEvents
  {
    hide ReconnectDelay, FingerprintOf, Upsert;
  }

  lemma SeenStep(c: Config, s: Session, e: Event)
    ensures var t := Step(c, s, e).session;
      && t.seenEvents == s.seenEvents + {e.id}
      && t.duplicateEvents == s.duplicateEvents + if e.id in s.seenEvents then 1 else 0
  {
    ApplyKeepsEventIds(c, Noted(s, e), e);
    hide Apply, Refusals, IsStale;
  }

  ghost predicate IdsAddUp(s: Session, events: seq<Event>) {
    s.duplicateEvents + |s.seenEvents| == |events| && s.seenEvents == Ids(events)
  }

  lemma IdsStep(c: Config, s: Session, events: seq<Event>, e: Event)
    requires IdsAddUp(s, events)
    ensures IdsAddUp(Step(c, s, e).session, events + [e])
  {
    hide Step, Ids;
    SeenStep(c, s, e);
    IdsAppended(events, e);
    if e.id in s.seenEvents { assert s.seenEvents + {e.id} == s.seenEvents; }
    assert e.id !in s.seenEvents ==> |s.seenEvents + {e.id}| == |s.seenEvents| + 1;
  }

  /** Distinct event ids and duplicate events add up to the events. */
  lemma {:induction false} EventsAreAccountedFor(c: Config, events: seq<Event>)
    ensures IdsAddUp(After(c, events), events)
  {
    hide Step;
    if events != [] {
      var front, last := events[..|events| - 1], events[|events| - 1];
      EventsAreAccountedFor(c, front);
      IdsStep(c, After(c, front), front, last);
      assert events == front + [last];
    }
  }

  lemma IdsAppended(events: seq<Event>, e: Event)
    ensures Ids(events + [e]) == Ids(events) + {e.id}
  {
  }

  lemma ApplyKeepsRunReasons(c: Config, s: Session, e: Event)
    ensures Apply(c, s, e).0.runReasons == s.runReasons
  {
    hide ReconnectDelay, FingerprintOf, Upsert;
  }

  lemma RunReasonsStep(c: Config, s: Session, e: Event)
    ensures var o := Step(c, s, e); o.session.runReasons == s.runReasons + o.reasons * RUN_REASONS
  {
    ApplyKeepsRunReasons(c, Noted(s, e), e);
    hide Apply, Refusals, IsStale;
  }

  /** Some event of the run raised the reason. */
  ghost predicate Raised(c: Config, events: seq<Event>, reason: Reason) {
    exists i: nat :: i < |events| && reason in At(c, events, i).reasons
  }

  lemma RaisedAppended(c: Config, events: seq<Event>, e: Event, reason: Reason)
    ensures Raised(c, events + [e], reason) <==> Raised(c, events, reason) || reason in Step(c, After(c, events), e).reasons
  {
    PrefixUnchanged(c, events, e);
    hide At, Step, After;
    var all, n := events + [e], |events|;
    if reason in At(c, all, n).reasons { assert n < |all|; }
    if i: nat :| i < n && reason in At(c, events, i).reasons {
      assert reason in At(c, all, i).reasons;
    }
  }

  lemma NothingRaised(c: Config, reason: Reason)
    ensures !Raised(c, [], reason) && After(c, []).runReasons == {}
  {
  }

  lemma RunReasonsAppended(c: Config, events: seq<Event>, e: Event, reason: Reason)
    ensures reason in After(c, events + [e]).runReasons <==>
      reason in After(c, events).runReasons || (reason in RUN_REASONS && reason in Step(c, After(c, events), e).reasons)
  {
    hide Step, After;
    AfterAppended(c, events, e);
    RunReasonsStep(c, After(c, events), e);
  }

  /** What a run holds against itself is what its events left of the reasons that last. */
  lemma {:induction false} RunReasonsAreLasting(c: Config, events: seq<Event>, reason: Reason)
    ensures reason in After(c, events).runReasons <==> reason in RUN_REASONS && Raised(c, events, reason)
  {
    hide Step, Raised, At, After;
    if events == [] {
      NothingRaised(c, reason);
    } else {
      var front, last := events[..|events| - 1], events[|events| - 1];
      RunReasonsAreLasting(c, front, reason);
      assert events == front + [last];
      RunReasonsAppended(c, front, last, reason);
      RaisedAppended(c, front, last, reason);
    }
  }

  // ----- the verdict on a quote, by what came before it -----

  /** The same content under the same schema, whoever may see it. */
  predicate SameQuote(a: Event, b: Event)
    requires a.kind.Quote? && b.kind.Quote?
  {
    var x, y := a.kind.observation, b.kind.observation;
    && a.schema == b.schema && x.source == y.source && x.instrument == y.instrument
    && x.sourceTs == y.sourceTs && x.receivedTs == y.receivedTs
    && x.bid == y.bid && x.ask == y.ask && x.bidSize == y.bidSize && x.askSize == y.askSize && x.stamps == y.stamps
  }

  /** The fingerprint tells quotes apart by their content alone. */
  lemma SightingIsContent(a: Event, b: Event)
    requires a.kind.Quote? && b.kind.Quote?
    ensures Sighting(a) == Sighting(b) <==> SameQuote(a, b)
  {
  }

  /** A right-instrument quote that was processed while streaming or degraded. */
  predicate CountedAt(c: Config, events: seq<Event>, i: nat)
    requires i < |events|
  {
    Counted(c, After(c, events[..i]), events[i])
  }

  /** One of the first `n` events is a counted quote with this fingerprint. */
  ghost predicate Sighted(c: Config, events: seq<Event>, n: nat, mark: Fingerprint)
    requires n <= |events|
  {
    exists k: nat :: k < n && CountedAt(c, events, k) && Sighting(events[k]) == mark
  }

  /** One of the first `n` events is an accepted quote with a source time beyond `t`. */
  ghost predicate Overtaken(c: Config, events: seq<Event>, n: nat, t: int)
    requires n <= |events|
  {
    exists k: nat :: k < n && AcceptedQuoteAt(c, events, k) && SourceTs(events[k]) > t
  }

  lemma SightingStep(c: Config, s: Session, e: Event)
    ensures Step(c, s, e).session.seenObservations == s.seenObservations + if Counted(c, s, e) then {Sighting(e)} else {}
  {
    hide ReconnectDelay, FingerprintOf, Upsert;
  }

  lemma SightedNext(c: Config, events: seq<Event>, n: nat, mark: Fingerprint)
    requires n < |events|
    ensures Sighted(c, events, n + 1, mark) <==>
      Sighted(c, events, n, mark) || (CountedAt(c, events, n) && Sighting(events[n]) == mark)
  {
    hide After, Processed, FingerprintOf;
  }

  lemma {:induction false} SeenMeansSighted(c: Config, events: seq<Event>, n: nat, mark: Fingerprint)
    requires n <= |events|
    ensures mark in After(c, events[..n]).seenObservations <==> Sighted(c, events, n, mark)
  {
    hide After, Step, Sighting, Sighted, Processed;
    if n == 0 {
      AfterNothing(c, events);
      NothingSighted(c, events, mark);
    } else {
      SeenMeansSighted(c, events, n - 1, mark);
      SightedNext(c, events, n - 1, mark);
      SightingStep(c, After(c, events[..n - 1]), events[n - 1]);
      AfterNext(c, events, n - 1);
    }
  }

  lemma NothingSighted(c: Config, events: seq<Event>, mark: Fingerprint)
    ensures !Sighted(c, events, 0, mark)
  {
  }

  lemma OvertakenNext(c: Config, events: seq<Event>, n: nat, t: int)
    requires n < |events|
    ensures Overtaken(c, events, n + 1, t) <==>
      Overtaken(c, events, n, t) || (AcceptedQuoteAt(c, events, n) && SourceTs(events[n]) > t)
  {
    hide At;
  }

  lemma {:induction false} WatermarkIsHighest(c: Config, events: seq<Event>, n: nat, t: int)
    requires n <= |events|
    ensures var w := After(c, events[..n]).watermark; w.Some? && w.value > t <==> Overtaken(c, events, n, t)
  {
    hide After, Step, Overtaken;
    if n == 0 {
      AfterNothing(c, events);
      NothingOvertakes(c, events, t);
    } else {
      WatermarkIsHighest(c, events, n - 1, t);
      OvertakenNext(c, events, n - 1, t);
      QuoteStep(c, After(c, events[..n - 1]), events[n - 1]);
      AfterNext(c, events, n - 1);
    }
  }

  lemma NothingOvertakes(c: Config, events: seq<Event>, t: int)
    ensures !Overtaken(c, events, 0, t)
  {
  }

  lemma CountedStep(c: Config, s: Session, e: Event)
    requires Counted(c, s, e) && ValidPolicy(c.policy)
    ensures var o, w := Step(c, s, e), s.watermark;
      var repeated, late := Sighting(e) in s.seenObservations, w.Some? && w.value > SourceTs(e);
      && (DuplicateObservation in o.reasons <==> repeated)
      && (OutOfOrder in o.reasons <==> !repeated && late)
      && (BehindWatermark in o.reasons <==> !repeated && w.Some? && w.value > SourceTs(e) + c.policy.allowedLateness)
      && (o.accepted <==> !repeated && !late)
  {
    hide ReconnectDelay, FingerprintOf, Upsert;
  }

  /** An earlier counted quote said the same. */
  ghost predicate Repeated(c: Config, events: seq<Event>, i: nat)
    requires i < |events| && events[i].kind.Quote?
  {
    exists k: nat :: k < i && CountedAt(c, events, k) && SameQuote(events[k], events[i])
  }

  /** A counted quote is a duplicate exactly when an earlier counted one said the same. Otherwise it is out of order
      exactly when an accepted one was newer, and behind the watermark when one was by more than the allowed lateness.
      In every other case it is accepted. */
  lemma CountedQuoteVerdict(c: Config, events: seq<Event>, i: nat)
    requires ValidPolicy(c.policy) && i < |events| && CountedAt(c, events, i)
    ensures var o, t := At(c, events, i), SourceTs(events[i]);
      var repeated := Repeated(c, events, i);
      && (DuplicateObservation in o.reasons <==> repeated)
      && (OutOfOrder in o.reasons <==> !repeated && Overtaken(c, events, i, t))
      && (BehindWatermark in o.reasons <==> !repeated && Overtaken(c, events, i, t + c.policy.allowedLateness))
      && (o.accepted <==> !repeated && !Overtaken(c, events, i, t))
  {
    var s, e := After(c, events[..i]), events[i];
    CountedStep(c, s, e);
    SeenMeansSighted(c, events, i, Sighting(e));
    WatermarkIsHighest(c, events, i, SourceTs(e));
    WatermarkIsHighest(c, events, i, SourceTs(e) + c.policy.allowedLateness);
    forall k: nat | k < i && CountedAt(c, events, k)
      ensures SameQuote(events[k], e) <==> Sighting(events[k]) == Sighting(e)
    {
      SightingIsContent(events[k], e);
    }
    hide After, Step, Sighting, Counted, SameQuote, Overtaken;
  }

  // ----- which events are let through, and what a link event does -----

  /** An event is refused as repeated exactly when an earlier one, let through or not, has its id, and as going back in
      time exactly when an earlier one was seen later. */
  lemma RefusedExactly(c: Config, events: seq<Event>, i: nat)
    requires i < |events|
    ensures DuplicateEvent in At(c, events, i).reasons <==> exists k: nat :: k < i && events[k].id == events[i].id
    ensures EventTimeRegression in At(c, events, i).reasons <==>
      exists k: nat :: k < i && events[k].firstSeenAt > events[i].firstSeenAt
  {
    var past, e := events[..i], events[i];
    EventsAreAccountedFor(c, past);
    LastSeenIsHighest(c, events, i, e.firstSeenAt);
    RefusalReasons(c, After(c, past), e);
    hide After, Step;
    if x :| x in past && x.id == e.id {
      var k: nat :| k < i && past[k] == x;
      assert events[k].id == e.id;
    }
    if k: nat :| k < i && events[k].id == e.id { assert past[k] in past; }
  }

  lemma ApplyRefusesNothing(c: Config, s: Session, e: Event)
    ensures DuplicateEvent !in Apply(c, s, e).1 && EventTimeRegression !in Apply(c, s, e).1
  {
    hide ReconnectDelay, FingerprintOf, Upsert;
  }

  lemma RefusalReasons(c: Config, s: Session, e: Event)
    ensures DuplicateEvent in Step(c, s, e).reasons <==> e.id in s.seenEvents
    ensures EventTimeRegression in Step(c, s, e).reasons <==> s.lastSeenAt.Some? && s.lastSeenAt.value > e.firstSeenAt
  {
    ApplyRefusesNothing(c, Noted(s, e), e);
    hide Apply;
  }

  lemma NotedHighest(c: Config, s: Session, e: Event, t: int)
    ensures var w, v := s.lastSeenAt, Step(c, s, e).session.lastSeenAt;
      v.Some? && (v.value > t <==> (w.Some? && w.value > t) || e.firstSeenAt > t)
  {
    ApplyKeepsLastSeen(c, Noted(s, e), e);
    hide Apply, Refusals, IsStale;
  }

  lemma {:induction false} LastSeenIsHighest(c: Config, events: seq<Event>, n: nat, t: int)
    requires n <= |events|
    ensures var w := After(c, events[..n]).lastSeenAt;
      w.Some? && w.value > t <==> exists k: nat :: k < n && events[k].firstSeenAt > t
  {
    hide After, Step;
    if n == 0 {
      AfterNothing(c, events);
    } else {
      LastSeenIsHighest(c, events, n - 1, t);
      AfterNext(c, events, n - 1);
      NotedHighest(c, After(c, events[..n - 1]), events[n - 1], t);
    }
  }

  /** An event that, if let through by its id and its time, halts the collector: a schema other than the expected one,
      a drift, a loss beyond the reconnect budget, or a rate limit without a positive time. */
  predicate Halting(c: Config, e: Event, losses: nat) {
    match e.kind
    case SchemaDrift => true
    case ConnectionLost => e.schema != c.schema || losses >= c.policy.maxReconnects
    case RateLimit(retryAfter) => e.schema != c.schema || retryAfter.None? || retryAfter.value <= 0
    case _ => e.schema != c.schema
  }

  /** Event `i` repeats no id, does not go back in time, and is of the halting kind. */
  ghost predicate HaltsAt(c: Config, events: seq<Event>, i: nat)
    requires i < |events|
  {
    && (forall k: nat | k < i :: events[k].id != events[i].id && events[k].firstSeenAt <= events[i].firstSeenAt)
    && Halting(c, events[i], LossesFrom(c, events[..i], SinceConnect(c, events[..i])))
  }

  lemma HaltStep(c: Config, s: Session, e: Event)
    ensures Step(c, s, e).session.state.Halted? <==>
      s.state.Halted? || (Refusals(s, e) == {} && Halting(c, e, s.attempts))
  {
    hide ReconnectDelay, FingerprintOf, Upsert, Refusals;
  }

  /** An event is let through by its id and its time exactly when no earlier one has its id or was seen later. */
  lemma LetThroughExactly(c: Config, events: seq<Event>, i: nat)
    requires i < |events|
    ensures Refusals(After(c, events[..i]), events[i]) == {} <==>
      forall k: nat | k < i :: events[k].id != events[i].id && events[k].firstSeenAt <= events[i].firstSeenAt
  {
    RefusedExactly(c, events, i);
    RefusalReasons(c, After(c, events[..i]), events[i]);
    RefusalsOf(After(c, events[..i]), events[i]);
    hide After, Step, Refusals;
  }

  lemma RefusalsOf(s: Session, e: Event)
    ensures Refusals(s, e) == {} <==>
      e.id !in s.seenEvents && !(s.lastSeenAt.Some? && s.lastSeenAt.value > e.firstSeenAt)
  {
    if e.id in s.seenEvents { assert DuplicateEvent in Refusals(s, e); }
    if s.lastSeenAt.Some? && s.lastSeenAt.value > e.firstSeenAt { assert EventTimeRegression in Refusals(s, e); }
  }

  lemma HaltsExactly(c: Config, events: seq<Event>, i: nat)
    requires i < |events|
    ensures After(c, events[..i + 1]).state.Halted? <==> After(c, events[..i]).state.Halted? || HaltsAt(c, events, i)
  {
    AfterNext(c, events, i);
    HaltStep(c, After(c, events[..i]), events[i]);
    LetThroughExactly(c, events, i);
    AttemptsCountLossesSinceConnect(c, events[..i]);
    hide After, Step, Refusals, Halting, LossesFrom, SinceConnect;
  }

  /** The collector is halted exactly when some event of the run halted it. */
  lemma {:induction false} HaltedExactlyAfterACause(c: Config, events: seq<Event>, n: nat)
    requires n <= |events|
    ensures After(c, events[..n]).state.Halted? <==> exists i: nat :: i < n && HaltsAt(c, events, i)
  {
    hide After, HaltsAt;
    if n == 0 {
      AfterNothing(c, events);
    } else {
      HaltedExactlyAfterACause(c, events, n - 1);
      HaltsExactly(c, events, n - 1);
    }
  }

  lemma LiveStep(c: Config, s: Session, e: Event)
    ensures var t := Step(c, s, e).session;
      Live(t.state) <==>
        (e.kind.Connected? && Step(c, s, e).accepted)
        || (Live(s.state) && !t.state.Halted?
            && !(Processed(c, s, e) && (e.kind.ConnectionLost? || e.kind.RateLimit? || e.kind.Stop?)))
  {
    hide ReconnectDelay, FingerprintOf, Upsert, Refusals;
  }

  /** Event `i` is an accepted connect, and neither a loss, a rate limit, a stop nor a halt followed among the first
      `n` events. */
  ghost predicate ConnectedSince(c: Config, events: seq<Event>, n: nat, i: nat)
    requires i < n <= |events|
  {
    AcceptedConnectAt(c, events, i) && forall k: nat | i < k < n :: !ResetAt(c, events, k) && !HaltsAt(c, events, k)
  }

  ghost predicate IsConnected(c: Config, events: seq<Event>, n: nat)
    requires n <= |events|
  {
    exists i: nat :: i < n && ConnectedSince(c, events, n, i)
  }

  lemma ConnectedNext(c: Config, events: seq<Event>, n: nat)
    requires n < |events|
    ensures IsConnected(c, events, n + 1) <==>
      AcceptedConnectAt(c, events, n)
      || (IsConnected(c, events, n) && !ResetAt(c, events, n) && !HaltsAt(c, events, n))
  {
    hide AcceptedConnectAt, ResetAt, HaltsAt;
    var m := n + 1;
    if i: nat :| i < n && ConnectedSince(c, events, n, i) {
      assert !ResetAt(c, events, n) && !HaltsAt(c, events, n) ==> ConnectedSince(c, events, m, i);
    }
    if i: nat :| i < m && ConnectedSince(c, events, m, i) {
      if i < n { assert ConnectedSince(c, events, n, i); }
    }
    assert AcceptedConnectAt(c, events, n) ==> ConnectedSince(c, events, n + 1, n);
  }

  /** The collector is live exactly when it is connected: quotes count from an accepted connect until the next loss,
      rate limit, stop or halt. */
  lemma {:induction false} LiveExactlyWhileConnected(c: Config, events: seq<Event>, n: nat)
    requires n <= |events|
    ensures Live(After(c, events[..n]).state) <==> IsConnected(c, events, n)
  {
    hide After, Step, HaltsAt, IsConnected, Processed;
    if n == 0 {
      AfterNothing(c, events);
      NothingConnected(c, events);
    } else {
      var s, e := After(c, events[..n - 1]), events[n - 1];
      LiveExactlyWhileConnected(c, events, n - 1);
      LiveStep(c, s, e);
      HaltsExactly(c, events, n - 1);
      AfterNext(c, events, n - 1);
      ConnectedNext(c, events, n - 1);
      LiveIsNotHalted(c, s, e);
    }
  }

  lemma NothingConnected(c: Config, events: seq<Event>)
    ensures !IsConnected(c, events, 0)
  {
  }

  lemma LiveIsNotHalted(c: Config, s: Session, e: Event)
    ensures Live(s.state) ==> !s.state.Halted?
    ensures e.kind.Connected? && Step(c, s, e).accepted ==> Processed(c, s, e)
  {
    hide Apply, Refusals;
  }

  /** Once processed, START is accepted only from the stopped state and leads to connecting, a heartbeat only while live;
      a connect is refused while stopped or streaming and before a retry time; a quote is refused when not live or of
      another instrument. */
  lemma ProcessedVerdict(c: Config, s: Session, e: Event)
    requires Processed(c, s, e)
    ensures var o := Step(c, s, e);
      match e.kind
      case Start => (o.accepted <==> s.state.Stopped?) && (o.accepted ==> o.session.state.Connecting?)
      case Connected => (o.accepted <==>
                         !s.state.Stopped? && !s.state.Streaming? && (s.nextRetry.Some? ==> e.firstSeenAt >= s.nextRetry.value))
      case Heartbeat => o.accepted <==> Live(s.state)
      case Quote(q) => (NotStreaming in o.reasons <==> !Live(s.state))
                       && (InstrumentMismatch in o.reasons <==> Live(s.state) && q.instrument != c.instrument)
      case _ => true
  {
    hide ReconnectDelay, FingerprintOf, Upsert, Refusals;
  }

  /** Among the first `n` events a quote seen at `t` or later was accepted, and no reset followed it. */
  ghost predicate IsFed(c: Config, events: seq<Event>, n: nat, t: int)
    requires n <= |events|
  {
    exists i: nat :: i < n && FedAt(c, events, n, i) && events[i].firstSeenAt >= t
  }

  ghost predicate FedAt(c: Config, events: seq<Event>, n: nat, i: nat)
    requires i < n <= |events|
  {
    AcceptedQuoteAt(c, events, i) && forall k: nat | i < k < n :: !ResetAt(c, events, k)
  }

  lemma FedNext(c: Config, events: seq<Event>, n: nat, t: int)
    requires n < |events|
    ensures IsFed(c, events, n + 1, t) <==>
      (AcceptedQuoteAt(c, events, n) && events[n].firstSeenAt >= t) || (IsFed(c, events, n, t) && !ResetAt(c, events, n))
  {
    hide AcceptedQuoteAt, ResetAt;
    var m := n + 1;
    if i: nat :| i < n && FedAt(c, events, n, i) && events[i].firstSeenAt >= t {
      assert !ResetAt(c, events, n) ==> FedAt(c, events, m, i);
    }
    if i: nat :| i < m && FedAt(c, events, m, i) && events[i].firstSeenAt >= t {
      if i < n { assert FedAt(c, events, n, i); }
    }
    assert AcceptedQuoteAt(c, events, n) ==> FedAt(c, events, m, n);
  }

  lemma FedStep(c: Config, s: Session, e: Event, t: int)
    requires s.lastObservationAt.Some? ==> s.lastSeenAt.Some? && s.lastObservationAt.value <= s.lastSeenAt.value
    ensures var u, o := Step(c, s, e).session, s.lastObservationAt;
      var fed := e.kind.Quote? && Step(c, s, e).accepted;
      var reset := Processed(c, s, e) && (e.kind.ConnectionLost? || e.kind.RateLimit? || e.kind.Stop?);
      && (u.lastObservationAt.Some? && u.lastObservationAt.value >= t <==>
            (fed && e.firstSeenAt >= t) || (o.Some? && o.value >= t && !reset))
      && (u.lastObservationAt.Some? ==> u.lastSeenAt.Some? && u.lastObservationAt.value <= u.lastSeenAt.value)
  {
    CacheStep(c, s, e);
    NotedLater(c, s, e);
    ProcessedIsLate(c, s, e);
    AcceptedIsProcessed(c, s, e);
    hide Step, Processed;
  }

  lemma ProcessedIsLate(c: Config, s: Session, e: Event)
    ensures Processed(c, s, e) && s.lastSeenAt.Some? ==> s.lastSeenAt.value <= e.firstSeenAt
  {
  }

  lemma {:induction false} LastObservationIsFed(c: Config, events: seq<Event>, n: nat, t: int)
    requires n <= |events|
    ensures var s := After(c, events[..n]);
      && (s.lastObservationAt.Some? && s.lastObservationAt.value >= t <==> IsFed(c, events, n, t))
      && (s.lastObservationAt.Some? ==> s.lastSeenAt.Some? && s.lastObservationAt.value <= s.lastSeenAt.value)
  {
    hide After, Step, Processed, IsFed;
    if n == 0 {
      AfterNothing(c, events);
      NothingFed(c, events, t);
    } else {
      var s, e := After(c, events[..n - 1]), events[n - 1];
      LastObservationIsFed(c, events, n - 1, t);
      FedNext(c, events, n - 1, t);
      FedStep(c, s, e, t);
      AfterNext(c, events, n - 1);
    }
  }

  lemma NothingFed(c: Config, events: seq<Event>, t: int)
    ensures !IsFed(c, events, 0, t)
  {
  }

  /** A live collector streams while its last quote is within the freshness limit of the latest time it has seen. */
  ghost predicate FreshnessTold(c: Config, s: Session) {
    Live(s.state) ==>
      && s.lastSeenAt.Some?
      && (s.state.Streaming? <==>
            s.lastObservationAt.Some? && s.lastObservationAt.value >= s.lastSeenAt.value - c.policy.freshnessLimit)
  }

  lemma FreshnessStep(c: Config, s: Session, e: Event)
    requires ValidPolicy(c.policy) && FreshnessTold(c, s)
    ensures FreshnessTold(c, Step(c, s, e).session)
  {
    hide ReconnectDelay, FingerprintOf, Upsert;
  }

  lemma {:induction false} FreshnessIsTold(c: Config, events: seq<Event>, n: nat)
    requires ValidPolicy(c.policy) && n <= |events|
    ensures FreshnessTold(c, After(c, events[..n]))
  {
    hide After, Step, FreshnessTold;
    if n == 0 {
      AfterNothing(c, events);
      NothingTold(c);
    } else {
      FreshnessIsTold(c, events, n - 1);
      FreshnessStep(c, After(c, events[..n - 1]), events[n - 1]);
      AfterNext(c, events, n - 1);
    }
  }

  lemma NothingTold(c: Config)
    ensures FreshnessTold(c, FRESH_SESSION)
  {
  }

  /** The collector streams exactly while it is connected and fed: the last accepted quote that no reset followed is no
      older than the freshness limit at the latest time seen. Connected without it, it is degraded. */
  lemma StreamingExactlyWhileFed(c: Config, events: seq<Event>)
    requires ValidPolicy(c.policy) && events != []
    ensures var s, n := After(c, events), |events|;
      && s.lastSeenAt.Some?
      && (forall e | e in events :: e.firstSeenAt <= s.lastSeenAt.value)
      && (s.state.Streaming? <==> IsConnected(c, events, n) && IsFed(c, events, n, s.lastSeenAt.value - c.policy.freshnessLimit))
      && (s.state.Degraded? <==> IsConnected(c, events, n) && !s.state.Streaming?)
  {
    hide After, Step, IsConnected, IsFed;
    var s, n := After(c, events), |events|;
    assert events[..n] == events;
    SeenSince(c, events, n - 1, n);
    LiveExactlyWhileConnected(c, events, n);
    FreshnessIsTold(c, events, n);
    LastObservationIsFed(c, events, n, s.lastSeenAt.value - c.policy.freshnessLimit);
    forall i: nat | i < n ensures events[i].firstSeenAt <= s.lastSeenAt.value { SeenSince(c, events, i, n); }
  }

  lemma StaleStep(c: Config, s: Session, e: Event)
    ensures var o, t := Step(c, s, e), Step(c, s, e).session;
      Stale in o.reasons <==>
        && Live(t.state)
        && !(t.lastObservationAt.Some? && t.lastObservationAt.value >= e.firstSeenAt - c.policy.freshnessLimit)
  {
    ApplyIsNeverStale(c, Noted(s, e), e);
    hide Apply;
  }

  lemma ApplyIsNeverStale(c: Config, s: Session, e: Event)
    ensures Stale !in Apply(c, s, e).1
  {
    hide ReconnectDelay, FingerprintOf, Upsert;
  }

  /** An event leaves the collector stale exactly when it is connected and not fed within the freshness limit. */
  lemma StaleExactlyWhenStarved(c: Config, events: seq<Event>, i: nat)
    requires i < |events|
    ensures Stale in At(c, events, i).reasons <==>
      IsConnected(c, events, i + 1) && !IsFed(c, events, i + 1, events[i].firstSeenAt - c.policy.freshnessLimit)
  {
    hide After, Step, IsConnected, IsFed;
    StaleStep(c, After(c, events[..i]), events[i]);
    AfterNext(c, events, i);
    LiveExactlyWhileConnected(c, events, i + 1);
    LastObservationIsFed(c, events, i + 1, events[i].firstSeenAt - c.policy.freshnessLimit);
  }

  /** What a trace shows of the step it stands for: its verdict, the state after it, and the quality of the quotes then
      held, frozen exactly when there are none or something is held against them. */
  ghost predicate Shows(c: Config, t: Trace, e: Event, o: Outcome) {
    var s := o.session;
    && t.eventId == e.id && t.accepted == o.accepted && t.reasons == o.reasons && t.state == s.state
    && t.watermark == s.watermark && t.nextRetry == s.nextRetry && t.attempts == s.attempts
    && (t.freeze <==> s.latest == [] || exists x :: Q.Raises(c.quality, s.latest, e.firstSeenAt, x))
    && (t.quality == Q.Red <==> t.freeze)
    && (t.quality == Q.Green <==> !t.freeze && forall q | q in s.latest :: Q.FreshEnough(c.quality, q, e.firstSeenAt))
  }

  lemma TraceShows(c: Config, e: Event, o: Outcome)
    ensures Shows(c, TraceOf(e, o, QualityOf(c, o.session.latest, e.firstSeenAt)), e, o)
  {
    hide Q.Raises, Q.FreshEnough;
  }

  /** A run leaves one trace of every event, in order. */
  lemma {:induction false} TracesShowEveryStep(c: Config, events: seq<Event>, i: nat)
    requires i < |events|
    ensures |TracesOf(c, events)| == |events| && Shows(c, TracesOf(c, events)[i], events[i], At(c, events, i))
  {
    hide Step, Shows, QualityOf, TraceOf;
    var n := |events| - 1;
    TracesHaveTheLength(c, events[..n]);
    if i < n {
      assert events[..n][..i] == events[..i];
      TracesShowEveryStep(c, events[..n], i);
    } else {
      TraceShows(c, events[n], Step(c, After(c, events[..n]), events[n]));
    }
  }

  lemma {:induction false} TracesHaveTheLength(c: Config, events: seq<Event>)
    ensures |TracesOf(c, events)| == |events|
  {
    hide Step, QualityOf, TraceOf;
    if events != [] { TracesHaveTheLength(c, events[..|events| - 1]); }
  }
}
