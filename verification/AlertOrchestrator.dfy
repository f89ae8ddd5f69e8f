/** The delivery orchestrator over its append-only store. Every decision is re-derived from the stored
    log, which is read back ordered by (recorded_at, sequence), and every append goes through the
    store's immutability check; each operation is proved to be one step of the protocol. */
module AlertOrchestrator {
  import opened Common
  import opened Sorting
  import opened Order
  import opened AlertDelivery
  import P = DeliveryPacing

  datatype ServiceError =
    InvalidArgument | CreatedAtRegressed | AuditConflict | UnknownMessage | BlankActor | NotDelivered | PrecedesDelivery

  predicate NotLater(a: Event, b: Event) { a.at <= b.at }

  /** The order in which the store returns a message's events. */
  function ReadOrder(events: seq<Event>): seq<Event> { SortBy(NotLater, events) }

  lemma ReadOrderKeepsElements(events: seq<Event>)
    ensures forall e :: e in ReadOrder(events) <==> e in events
    ensures |ReadOrder(events)| == |events|
    ensures SortedBy(NotLater, ReadOrder(events))
  {
    SortKeepsElements(NotLater, events);
    SortIsSorted(NotLater, events);
  }

  /** Without an acknowledgement in it, a log is read back in the order it was written. */
  lemma ReadOrderIsAppendOrder(s: Service, t: Thread)
    requires Sound(s, t) && !PhaseOf(t.events).Acked?
    ensures ReadOrder(t.events) == t.events
  {
    hide Numbered, Budgeted, Timed, Gated, Escalations;
    PhaseReflectsLog(t.events);
    hide PhaseOf;
    SortOfSorted(NotLater, t.events);
  }

  function ChannelName(c: Channel): string {
    match c
    case Webhook => "WEBHOOK"
    case Email => "EMAIL"
    case Mobile => "MOBILE"
  }

  function KeyOf(c: Channel, fingerprint: string, destination: string): string {
    ChannelName(c) + ":" + fingerprint + ":" + destination
  }

  /** A key names channel, fingerprint and destination, joined by colons. */
  lemma KeyNamesItsParts(fingerprint: string, destination: string)
    ensures KeyOf(Webhook, fingerprint, destination) == "WEBHOOK:" + fingerprint + ":" + destination
    ensures KeyOf(Email, fingerprint, destination) == "EMAIL:" + fingerprint + ":" + destination
    ensures KeyOf(Mobile, fingerprint, destination) == "MOBILE:" + fingerprint + ":" + destination
  {
  }

  lemma KeyFixesChannel(c0: Channel, f0: string, d0: string, c1: Channel, f1: string, d1: string)
    requires KeyOf(c0, f0, d0) == KeyOf(c1, f1, d1)
    ensures c0 == c1
  {
    assert KeyOf(c0, f0, d0)[0] == ChannelName(c0)[0];
    assert KeyOf(c1, f1, d1)[0] == ChannelName(c1)[0];
  }

  predicate Opaque(destination: string) {
    && 1 <= |destination| <= 128
    && Alphanumeric(destination[0])
    && forall c | c in destination :: Alphanumeric(c) || c in "._:-"
  }

  predicate BadArguments(id: string, alertId: string, fingerprint: string, destination: string) {
    Blank(id) || Blank(alertId) || Blank(fingerprint) || Blank(destination) || !Opaque(destination)
  }

  predicate Alphanumeric(c: char) { 'A' <= c <= 'Z' || 'a' <= c <= 'z' || '0' <= c <= '9' }

  predicate IsSuppressed(t: Thread) { t.events != [] && t.events[0].kind.Suppressed? }

  ghost predicate Keyed(threads: map<string, Thread>) {
    forall id | id in threads ::
      var m := threads[id].message;
      m.id == id && m.dedupeKey == KeyOf(m.channel, m.fingerprint, m.destination)
  }

  /** Messages of one dedupe key that were not suppressed lie at least one cooldown apart. */
  ghost predicate Spaced(s: Service, threads: map<string, Thread>) {
    forall a, b | a in threads && b in threads && a != b ::
      SpacedPair(s, threads[a], threads[b])
  }

  ghost predicate SpacedPair(s: Service, a: Thread, b: Thread) {
    a.message.dedupeKey == b.message.dedupeKey && !IsSuppressed(a) && !IsSuppressed(b)
    && a.message.createdAt <= b.message.createdAt ==>
      b.message.createdAt - a.message.createdAt >= PolicyFor(s, a.message.channel).cooldown
  }

  ghost predicate Extends(before: Thread, after: Thread) {
    after.message == before.message && before.events <= after.events
  }

  /** What the store keeps: keyed and spaced messages, each with a sound log that explains and paces its attempts. */
  ghost predicate Healthy(s: Service, threads: map<string, Thread>) {
    && ValidService(s) && Keyed(threads) && Spaced(s, threads)
    && forall id | id in threads :: Sound(s, threads[id]) && P.Kept(s, threads[id])
  }

  /** What acknowledging does: the acknowledgement step of the protocol on one message, accepted exactly when
      it is allowed, and the stored acknowledgement as the answer. */
  ghost predicate Acknowledges(s: Service, before: map<string, Thread>, after: map<string, Thread>, id: string, now: int,
                               actor: string, r: Result<Event, ServiceError>)
    requires id in before
  {
    && (r.Ok? <==> MayAcknowledge(before[id], now))
    && after == before[id := Step(s, before[id], AlertDelivery.Op.Acknowledge(now, actor))]
    && (r.Ok? ==> r.value in after[id].events && r.value.kind.Acknowledged?)
  }

  lemma SpacedAfterSteps(s: Service, before: map<string, Thread>, after: map<string, Thread>)
    requires Spaced(s, before) && before.Keys == after.Keys
    requires forall id | id in before :: before[id].events != [] && Extends(before[id], after[id])
    ensures Spaced(s, after)
  {
    forall a, b | a in after && b in after && a != b ensures SpacedPair(s, after[a], after[b]) {
      assert SpacedPair(s, before[a], before[b]);
      assert before[a].events[0] == after[a].events[0] && before[b].events[0] == after[b].events[0];
    }
  }

  predicate MessageNotAfter(a: Message, b: Message) {
    a.createdAt < b.createdAt || (a.createdAt == b.createdAt && LessOrEqual(a.id, b.id))
  }

  /** All message ids, ordered by (created_at, message_id). */
  ghost predicate IsMessageOrder(threads: map<string, Thread>, ms: seq<Message>) {
    && (forall m | m in ms :: m.id in threads && threads[m.id].message == m)
    && (forall id | id in threads :: threads[id].message in ms)
    && Distinct(ms) && SortedBy(MessageNotAfter, ms)
  }

  lemma MessageOrderIsTotal()
    ensures TotalPreorder(MessageNotAfter)
  {
    LessIsStrictTotalOrder();
  }

  /** The listed messages are stored. */
  ghost predicate Listed(threads: map<string, Thread>, ms: seq<Message>) {
    forall m | m in ms :: m.id in threads
  }

  ghost function DueAttempts(s: Service, threads: map<string, Thread>, ms: seq<Message>, now: int,
                             replies: string -> Reply): seq<Attempt>
    requires Listed(threads, ms)
  {
    if ms == [] then []
    else
      var m := ms[|ms| - 1];
      assert ms[..|ms| - 1] <= ms;
      DueAttempts(s, threads, ms[..|ms| - 1], now, replies)
      + if Due(threads[m.id], now) then [NewAttempt(s, threads[m.id], now, replies(m.id))] else []
  }

  /** The event that escalate_due reports for one message. */
  ghost function EscalationOutcome(s: Service, t: Thread, now: int): Option<Event> {
    if !Overdue(s, t, now) then None
    else if Escalations(t.events) >= PolicyFor(s, t.message.channel).maxEscalations then Some(AckTimeout(t, now))
    else Some(Escalation(t, now))
  }

  ghost function OverdueEvents(s: Service, threads: map<string, Thread>, ms: seq<Message>, now: int): seq<Event>
    requires Listed(threads, ms)
  {
    if ms == [] then []
    else
      var outcome := EscalationOutcome(s, threads[ms[|ms| - 1].id], now);
      assert ms[..|ms| - 1] <= ms;
      OverdueEvents(s, threads, ms[..|ms| - 1], now) + if outcome.Some? then [outcome.value] else []
  }

  /** The store after one step of every listed message. */
  ghost function StepAll(s: Service, threads: map<string, Thread>, ms: seq<Message>, ops: string -> Op): (r: map<string, Thread>)
    requires Listed(threads, ms)
    ensures r.Keys == threads.Keys
  {
    if ms == [] then threads
    else
      var id := ms[|ms| - 1].id;
      assert ms[|ms| - 1] in ms && ms[..|ms| - 1] <= ms;
      var before := StepAll(s, threads, ms[..|ms| - 1], ops);
      before[id := Step(s, before[id], ops(id))]
  }

  lemma {:induction false} StepAllPointwise(s: Service, threads: map<string, Thread>, ms: seq<Message>, ops: string -> Op)
    requires forall m | m in ms :: m.id in threads && threads[m.id].message == m
    requires Distinct(ms)
    ensures forall m | m in ms :: StepAll(s, threads, ms, ops)[m.id] == Step(s, threads[m.id], ops(m.id))
    ensures forall id | id in threads && threads[id].message !in ms :: StepAll(s, threads, ms, ops)[id] == threads[id]
  {
    if ms != [] {
      var front, last := ms[..|ms| - 1], ms[|ms| - 1];
      assert ms == front + [last];
      hide Step;
      StepAllPointwise(s, threads, front, ops);
      assert last !in front;
    }
  }

  lemma NothingStepped(s: Service, threads: map<string, Thread>, ops: string -> Op)
    ensures Listed(threads, []) && StepAll(s, threads, [], ops) == threads
  {
  }

  lemma NothingDue(s: Service, threads: map<string, Thread>, now: int, replies: string -> Reply)
    ensures DueAttempts(s, threads, [], now, replies) == []
  {
  }

  lemma NothingOverdue(s: Service, threads: map<string, Thread>, now: int)
    ensures OverdueEvents(s, threads, [], now) == []
  {
  }

  /** The next message of the order is still as it was, and takes its step. */
  lemma StepAllNext(s: Service, threads: map<string, Thread>, ms: seq<Message>, i: nat, ops: string -> Op)
    requires IsMessageOrder(threads, ms) && i < |ms|
    ensures Listed(threads, ms[..i]) && Listed(threads, ms[..i + 1]) && ms[i].id in threads
    ensures var id, before := ms[i].id, StepAll(s, threads, ms[..i], ops);
      before[id] == threads[id] && StepAll(s, threads, ms[..i + 1], ops) == before[id := Step(s, threads[id], ops(id))]
  {
    StepAllLeavesRest(s, threads, ms, i, ops);
    StepAllUnfolds(s, threads, ms, i, ops);
    hide StepAll, Step;
  }

  lemma StepAllLeavesRest(s: Service, threads: map<string, Thread>, ms: seq<Message>, i: nat, ops: string -> Op)
    requires IsMessageOrder(threads, ms) && i < |ms|
    ensures Listed(threads, ms[..i]) && Listed(threads, ms[..i + 1]) && ms[i].id in threads
    ensures StepAll(s, threads, ms[..i], ops)[ms[i].id] == threads[ms[i].id]
  {
    hide StepAll;
    assert forall m | m in ms[..i + 1] :: m in ms;
    StepAllPointwise(s, threads, ms[..i], ops);
    assert ms[i] in ms && ms[i] !in ms[..i];
  }

  lemma StepAllUnfolds(s: Service, threads: map<string, Thread>, ms: seq<Message>, i: nat, ops: string -> Op)
    requires i < |ms| && Listed(threads, ms[..i]) && Listed(threads, ms[..i + 1]) && ms[i].id in threads
    ensures var id, before := ms[i].id, StepAll(s, threads, ms[..i], ops);
      StepAll(s, threads, ms[..i + 1], ops) == before[id := Step(s, before[id], ops(id))]
  {
    hide Step, Listed;
    assert ms[..i + 1][..i] == ms[..i];
  }

  lemma OverdueNext(s: Service, threads: map<string, Thread>, ms: seq<Message>, i: nat, now: int)
    requires i < |ms| && Listed(threads, ms[..i]) && Listed(threads, ms[..i + 1]) && ms[i].id in threads
    ensures var outcome := EscalationOutcome(s, threads[ms[i].id], now);
      OverdueEvents(s, threads, ms[..i + 1], now)
        == OverdueEvents(s, threads, ms[..i], now) + if outcome.Some? then [outcome.value] else []
  {
    assert ms[..i + 1][..i] == ms[..i];
  }

  lemma DueNext(s: Service, threads: map<string, Thread>, ms: seq<Message>, i: nat, now: int, replies: string -> Reply)
    requires i < |ms| && Listed(threads, ms[..i]) && Listed(threads, ms[..i + 1]) && ms[i].id in threads
    ensures var id := ms[i].id;
      DueAttempts(s, threads, ms[..i + 1], now, replies)
        == DueAttempts(s, threads, ms[..i], now, replies)
           + if Due(threads[id], now) then [NewAttempt(s, threads[id], now, replies(id))] else []
  {
    assert ms[..i + 1][..i] == ms[..i];
  }

  lemma StepAllCovers(s: Service, threads: map<string, Thread>, ms: seq<Message>, ops: string -> Op)
    requires IsMessageOrder(threads, ms) && Keyed(threads)
    ensures forall id | id in threads :: StepAll(s, threads, ms, ops)[id] == Step(s, threads[id], ops(id))
  {
    hide StepAll, Step;
    StepAllPointwise(s, threads, ms, ops);
    forall id | id in threads ensures StepAll(s, threads, ms, ops)[id] == Step(s, threads[id], ops(id)) {
      assert threads[id].message in ms && threads[id].message.id == id;
    }
  }

  /** The greatest stored message of a dedupe key by (created_at, message_id). */
  ghost predicate IsLatestFor(threads: map<string, Thread>, key: string, latest: Option<Message>) {
    match latest
    case None => forall id | id in threads :: threads[id].message.dedupeKey != key
    case Some(m) =>
      && m.id in threads && threads[m.id].message == m && m.dedupeKey == key
      && forall id | id in threads && threads[id].message.dedupeKey == key :: MessageNotAfter(threads[id].message, m)
  }

  lemma LatestIsUnique(threads: map<string, Thread>, key: string, a: Option<Message>, b: Option<Message>)
    requires IsLatestFor(threads, key, a) && IsLatestFor(threads, key, b)
    ensures a == b
  {
    LessIsStrictTotalOrder();
    hide Less;
  }

  /** `latest` is the greatest of the first `n` messages with the key. */
  ghost predicate LatestAmong(ms: seq<Message>, n: nat, key: string, latest: Option<Message>)
    requires n <= |ms|
  {
    match latest
    case None => forall j | 0 <= j < n :: ms[j].dedupeKey != key
    case Some(m) =>
      && m in ms && m.dedupeKey == key
      && forall j | 0 <= j < n && ms[j].dedupeKey == key :: MessageNotAfter(ms[j], m)
  }

  lemma LatestAdvances(threads: map<string, Thread>, ms: seq<Message>, n: nat, key: string, latest: Option<Message>)
    requires IsMessageOrder(threads, ms) && n < |ms| && LatestAmong(ms, n, key, latest)
    ensures LatestAmong(ms, n + 1, key, if ms[n].dedupeKey == key then Some(ms[n]) else latest)
  {
    assert forall j | 0 <= j < n :: MessageNotAfter(ms[j], ms[n]);
    MessageOrderIsTotal();
    hide MessageNotAfter;
  }

  lemma LatestCoversStore(threads: map<string, Thread>, ms: seq<Message>, key: string, latest: Option<Message>)
    requires IsMessageOrder(threads, ms)
    requires LatestAmong(ms, |ms|, key, latest)
    ensures IsLatestFor(threads, key, latest)
  {
    hide MessageNotAfter;
    forall id | id in threads
      ensures latest.None? ==> threads[id].message.dedupeKey != key
      ensures latest.Some? && threads[id].message.dedupeKey == key ==> MessageNotAfter(threads[id].message, latest.value)
    {
      assert threads[id].message in ms;
    }
  }

  function Built(s: Service, id: string, alertId: string, fingerprint: string, channel: Channel,
                 destination: string, payload: string, createdAt: int): (m: Message)
    ensures Verified(s, m) && m.id == id && m.channel == channel && m.createdAt == createdAt
    ensures m.alertId == alertId && m.fingerprint == fingerprint && m.destination == destination
    ensures m.payload == payload && m.policyVersion == s.policyVersion
    ensures m.dedupeKey == KeyOf(m.channel, m.fingerprint, m.destination)
  {
    var unsigned := Message(id, alertId, fingerprint, channel, destination, payload, createdAt,
                            KeyOf(channel, fingerprint, destination), s.policyVersion, "");
    unsigned.(signature := s.sign(unsigned))
  }

  ghost predicate Later(threads: map<string, Thread>, m: Message) {
    exists id :: id in threads && threads[id].message.dedupeKey == m.dedupeKey && threads[id].message.createdAt > m.createdAt
  }

  /** The latest message of the key is another one and was created later. */
  ghost predicate Overtaken(threads: map<string, Thread>, m: Message) {
    exists latest: Message ::
      IsLatestFor(threads, m.dedupeKey, Some(latest)) && latest.id != m.id && latest.createdAt > m.createdAt
  }

  /** A stored message is overtaken exactly when a later message of its key is stored. */
  lemma StoredIsOvertakenByLater(threads: map<string, Thread>, m: Message)
    requires Keyed(threads) && m.id in threads
    ensures Overtaken(threads, m) ==> Later(threads, m)
    ensures threads[m.id].message == m && Later(threads, m) && (exists latest :: IsLatestFor(threads, m.dedupeKey, latest)) ==>
      Overtaken(threads, m)
  {
  }

  ghost predicate InCooldown(s: Service, threads: map<string, Thread>, m: Message) {
    exists id :: id in threads && threads[id].message.dedupeKey == m.dedupeKey
      && m.createdAt - threads[id].message.createdAt < PolicyFor(s, m.channel).cooldown
  }

  function FirstEvent(s: Service, m: Message, suppressed: bool): Event {
    if suppressed then Event(Suppressed, m.createdAt, None, Some("DEDUPE_COOLDOWN"), None, None, 0, None)
    else if !DeliveryEnabled(PolicyFor(s, m.channel)) then
      Event(DeliveryDisabled, m.createdAt, None, Some("CHANNEL_NOT_OPTED_IN"), None, None, 0, None)
    else Event(Enqueued, m.createdAt, None, None, None, None, 0, None)
  }

  /** A message starts suppressed within the cooldown, disabled on a closed channel, and queued otherwise. */
  lemma FirstEventTells(s: Service, m: Message, suppressed: bool)
    ensures var e := FirstEvent(s, m, suppressed);
      && e.at == m.createdAt
      && (e.kind.Suppressed? <==> suppressed)
      && (e.kind.DeliveryDisabled? <==> !suppressed && !P.ChannelOpen(s, m.channel))
      && (e.kind.Enqueued? <==> !suppressed && P.ChannelOpen(s, m.channel))
      && e.reason == (if e.kind.Suppressed? then Some("DEDUPE_COOLDOWN")
                      else if e.kind.Enqueued? then None else Some("CHANNEL_NOT_OPTED_IN"))
      && e == Event(e.kind, e.at, None, e.reason, None, None, 0, None)
  {
    P.EnabledIsOpen(s, m.channel);
    hide DeliveryEnabled, P.ChannelOpen;
  }

  /** A letter or digit of ASCII. */
  predicate IsLetterOrDigit(c: char) {
    var code := c as int;
    65 <= code < 65 + 26 || 97 <= code < 97 + 26 || 48 <= code < 48 + 10
  }

  /** Arguments are accepted exactly when the three names have a character that is not white space, and the destination
      is a short identifier. */
  lemma AcceptedArguments(id: string, alertId: string, fingerprint: string, destination: string)
    ensures !BadArguments(id, alertId, fingerprint, destination) <==>
      && (exists c :: c in id && !Space(c)) && (exists c :: c in alertId && !Space(c))
      && (exists c :: c in fingerprint && !Space(c))
      && 1 <= |destination| <= 128 && IsLetterOrDigit(destination[0])
      && forall c | c in destination :: IsLetterOrDigit(c) || c == '.' || c == '_' || c == ':' || c == '-'
  {
    forall c ensures Alphanumeric(c) <==> IsLetterOrDigit(c) {}
    forall c ensures Alphanumeric(c) || c in "._:-" ==> !Space(c) {}
    if destination != [] { assert destination[0] in destination; }
    hide Alphanumeric, Space, IsLetterOrDigit;
  }

  lemma FirstEventIsSound(s: Service, m: Message, suppressed: bool)
    requires ValidService(s) && Verified(s, m)
    ensures Sound(s, Thread(m, [FirstEvent(s, m, suppressed)], []))
    ensures IsSuppressed(Thread(m, [FirstEvent(s, m, suppressed)], [])) <==> suppressed
  {
    AppendedMembers([], FirstEvent(s, m, suppressed));
    assert [] + [FirstEvent(s, m, suppressed)] == [FirstEvent(s, m, suppressed)];
  }

  lemma SpacedAfterEnqueue(s: Service, threads: map<string, Thread>, t: Thread)
    requires Spaced(s, threads) && Keyed(threads) && t.message.id !in threads
    requires t.message.dedupeKey == KeyOf(t.message.channel, t.message.fingerprint, t.message.destination)
    requires !Later(threads, t.message)
    requires IsSuppressed(t) || !InCooldown(s, threads, t.message)
    ensures Spaced(s, threads[t.message.id := t])
  {
    var after := threads[t.message.id := t];
    forall a, b | a in after && b in after && a != b ensures SpacedPair(s, after[a], after[b]) {
      if a == t.message.id || b == t.message.id {
        var other := threads[if a == t.message.id then b else a].message;
        if other.dedupeKey == t.message.dedupeKey {
          KeyFixesChannel(other.channel, other.fingerprint, other.destination,
                          t.message.channel, t.message.fingerprint, t.message.destination);
          assert other.createdAt <= t.message.createdAt;
        }
      } else {
        assert SpacedPair(s, threads[a], threads[b]);
      }
    }
  }

  lemma EnqueueKeepsValid(s: Service, threads: map<string, Thread>, m: Message, suppressed: bool)
    requires Healthy(s, threads)
    requires m.id !in threads && Verified(s, m) && m.dedupeKey == KeyOf(m.channel, m.fingerprint, m.destination)
    requires !Later(threads, m) && suppressed == InCooldown(s, threads, m)
    ensures Healthy(s, threads[m.id := Thread(m, [FirstEvent(s, m, suppressed)], [])])
  {
    P.NewThreadIsKept(s, m, FirstEvent(s, m, suppressed));
    hide P.Kept, Sound, Spaced, InCooldown, Later, FirstEvent;
    FirstEventIsSound(s, m, suppressed);
    SpacedAfterEnqueue(s, threads, Thread(m, [FirstEvent(s, m, suppressed)], []));
  }

  class Orchestrator {
    const service: Service
    var threads: map<string, Thread>

    ghost predicate Valid()
      reads this
    {
      Healthy(service, threads)
    }

    constructor (service: Service)
      requires ValidService(service)
      ensures Valid() && this.service == service && threads == map[]
    {
      this.service := service;
      threads := map[];
    }

    // ----- the store -----

    method Messages() returns (ms: seq<Message>)
      requires Keyed(threads)
      ensures IsMessageOrder(threads, ms)
    {
      ms := [];
      var left := threads.Keys;
      while left != {}
        invariant left <= threads.Keys
        invariant forall m | m in ms :: m.id in threads && m.id !in left && threads[m.id].message == m
        invariant forall id | id in threads && id !in left :: threads[id].message in ms
        invariant Distinct(ms)
        decreases left
      {
        var id :| id in left;
        ms := ms + [threads[id].message];
        left := left - {id};
      }
      MessageOrderIsTotal();
      SortIsSorted(MessageNotAfter, ms);
      SortKeepsElements(MessageNotAfter, ms);
      SortKeepsDistinct(MessageNotAfter, ms);
      ms := SortBy(MessageNotAfter, ms);
    }

    method Events(id: string) returns (events: seq<Event>)
      requires id in threads
      ensures events == ReadOrder(threads[id].events)
    {
      events := ReadOrder(threads[id].events);
    }

    method LatestMessageForDedupe(key: string) returns (latest: Option<Message>)
      requires Keyed(threads)
      ensures IsLatestFor(threads, key, latest)
    {
      hide Keyed, IsMessageOrder;
      var ms := Messages();
      latest := None;
      for i := 0 to |ms|
        invariant LatestAmong(ms, i, key, latest)
      {
        LatestAdvances(threads, ms, i, key, latest);
        if ms[i].dedupeKey == key { latest := Some(ms[i]); }
      }
      LatestCoversStore(threads, ms, key, latest);
    }

    /** The store's append: an identical event is dropped without a word. */
    method AppendEvent(id: string, e: Event)
      requires id in threads
      modifies this
      ensures threads == old(threads)[id :=
        if e in old(threads)[id].events then old(threads)[id]
        else old(threads)[id].(events := old(threads)[id].events + [e])]
    {
      var t := threads[id];
      if e !in t.events {
        threads := threads[id := t.(events := t.events + [e])];
      }
    }

    /** An attempt is identified by its number and time; another content under the same identity is a conflict. */
    method AppendAttempt(id: string, a: Attempt) returns (r: Result<(), ServiceError>)
      requires id in threads
      modifies this
      ensures r.Err? <==> exists x :: x in old(threads)[id].attempts && x.number == a.number && x.at == a.at && x != a
      ensures r.Err? ==> r.error == AuditConflict
      ensures threads == if r.Err? || a in old(threads)[id].attempts then old(threads)
        else old(threads)[id := old(threads)[id].(attempts := old(threads)[id].attempts + [a])]
    {
      var t := threads[id];
      if exists x | x in t.attempts :: x.number == a.number && x.at == a.at && x != a {
        return Err(AuditConflict);
      }
      if a !in t.attempts {
        threads := threads[id := t.(attempts := t.attempts + [a])];
      }
      return Ok(());
    }

    // ----- the operations -----

    method Enqueue(id: string, alertId: string, fingerprint: string, channel: Channel,
                   destination: string, payload: string, createdAt: int)
        returns (r: Result<Message, ServiceError>)
      requires Valid()
      modifies this
      ensures Valid()
      ensures r.Err? || id in old(threads) ==> threads == old(threads)
      ensures r == Err(InvalidArgument) <==> BadArguments(id, alertId, fingerprint, destination)
      ensures var m := Built(service, id, alertId, fingerprint, channel, destination, payload, createdAt);
        && (r.Ok? ==> r.value == m)
        && (id in old(threads) && r.Ok? ==> old(threads)[id].message == m)
        && (id in old(threads) && r != Err(InvalidArgument) ==>
              && (r.Ok? <==> old(threads)[id].message == m && !Later(old(threads), m))
              && (r == Err(CreatedAtRegressed) <==> Overtaken(old(threads), m)))
        && (r != Err(InvalidArgument) && id !in old(threads) ==>
              if Later(old(threads), m) then r == Err(CreatedAtRegressed)
              else r.Ok? && threads == old(threads)[id := Thread(m,
                [FirstEvent(service, m, InCooldown(service, old(threads), m))], [])])
    {
      hide Sound, InCooldown, Later, FirstEvent, Spaced, BadArguments, Overtaken;
      if BadArguments(id, alertId, fingerprint, destination) { return Err(InvalidArgument); }
      var m := Built(service, id, alertId, fingerprint, channel, destination, payload, createdAt);
      var suppression := CheckCooldown(m);
      if suppression.Err? {
        if id in threads { StoredIsOvertakenByLater(threads, m); }
        return Err(suppression.error);
      }
      if id in threads {
        StoredIsOvertakenByLater(threads, m);
        if threads[id].message != m { return Err(AuditConflict); }
        return Ok(threads[id].message);
      }
      hide Built;
      threads := threads[id := Thread(m, [], [])];
      AppendEvent(id, FirstEvent(service, m, suppression.value));
      assert [] + [FirstEvent(service, m, suppression.value)] == [FirstEvent(service, m, suppression.value)];
      EnqueueKeepsValid(service, old(threads), m, suppression.value);
      assert threads == old(threads)[m.id := Thread(m, [FirstEvent(service, m, suppression.value)], [])];
      return Ok(m);
    }

    /** The cooldown test against the latest message of the same dedupe key. */
    method CheckCooldown(m: Message) returns (r: Result<bool, ServiceError>)
      requires Keyed(threads)
      ensures m.id !in threads ==>
        r == if Later(threads, m) then Err(CreatedAtRegressed) else Ok(InCooldown(service, threads, m))
      ensures r.Err? <==> Overtaken(threads, m)
      ensures r.Err? ==> r.error == CreatedAtRegressed
      ensures exists latest ::
        && IsLatestFor(threads, m.dedupeKey, latest)
        && (r == Ok(true) <==>
              && latest.Some? && latest.value.id != m.id
              && 0 <= m.createdAt - latest.value.createdAt < PolicyFor(service, m.channel).cooldown)
    {
      var previous := LatestMessageForDedupe(m.dedupeKey);
      forall other | IsLatestFor(threads, m.dedupeKey, other) ensures other == previous {
        LatestIsUnique(threads, m.dedupeKey, other, previous);
      }
      if previous.Some? && previous.value.id != m.id {
        var elapsed := m.createdAt - previous.value.createdAt;
        if elapsed < 0 { return Err(CreatedAtRegressed); }
        return Ok(elapsed < PolicyFor(service, m.channel).cooldown);
      }
      return Ok(false);
    }

    method IsDue(id: string, now: int) returns (due: bool)
      requires Valid() && id in threads
      ensures due == Due(threads[id], now)
    {
      hide Keyed, Spaced, Numbered, Budgeted, Timed, Gated, TimesOrdered;
      ghost var t := threads[id];
      ReadOrderKeepsElements(t.events);
      PhaseReflectsLog(t.events);
      var events := Events(id);
      if exists e | e in events :: TerminalKind(e.kind) {
        return false;
      }
      if events == [] { return false; }
      ReadOrderIsAppendOrder(service, t);
      LastKindOfLive(service, t);
      var latest := events[|events| - 1];
      if latest.kind.Enqueued? { return latest.at <= now; }
      return latest.kind.RetryScheduled? && latest.nextAttemptAt.Some? && latest.nextAttemptAt.value <= now;
    }

    method DispatchOne(id: string, now: int, reply: Reply) returns (attempt: Attempt)
      requires Valid() && id in threads && Due(threads[id], now)
      modifies this
      ensures threads == old(threads)[id := Dispatched(service, old(threads)[id], now, reply)]
      ensures attempt == NewAttempt(service, old(threads)[id], now, reply)
    {
      hide Sound, Keyed, Spaced, PhaseOf, AttemptResult;
      ghost var t := threads[id];
      DispatchIsFresh(service, t, now, reply);
      attempt := NewAttempt(service, threads[id], now, reply);
      var event := OutcomeEvent(service, threads[id], now, reply);
      var stored := AppendAttempt(id, attempt);
      AppendEvent(id, event);
    }

    method DispatchIfDue(id: string, now: int, reply: Reply) returns (attempt: Option<Attempt>)
      requires Valid() && id in threads
      modifies this
      ensures threads == old(threads)[id := Step(service, old(threads)[id], Dispatch(now, reply))]
      ensures attempt == if Due(old(threads)[id], now) then Some(NewAttempt(service, old(threads)[id], now, reply)) else None
    {
      hide Due, Dispatched, NewAttempt, Sound, Spaced, Keyed;
      assert threads == threads[id := threads[id]];
      var due := IsDue(id, now);
      if !due { return None; }
      var made := DispatchOne(id, now, reply);
      return Some(made);
    }

    method DispatchDue(now: int, replies: string -> Reply) returns (attempts: seq<Attempt>)
      requires Valid()
      modifies this
      ensures Valid() && threads.Keys == old(threads).Keys
      ensures forall id | id in threads ::
        threads[id] == Step(service, old(threads)[id], Dispatch(now, replies(id)))
      ensures exists ms ::
        && IsMessageOrder(old(threads), ms)
        && attempts == DueAttempts(service, old(threads), ms, now, replies)
    {
      assert Keyed(threads);
      hide Healthy, Sound, Spaced, Keyed, Step, Due, NewAttempt, IsMessageOrder, Listed, StepAll, DueAttempts;
      var ms := Messages();
      attempts := [];
      ghost var before, ops := threads, (id: string) => Dispatch(now, replies(id));
      NothingStepped(service, before, ops);
      NothingDue(service, before, now, replies);
      assert ms[..0] == [];
      for i := 0 to |ms|
        invariant Valid() && Listed(before, ms[..i]) && threads == StepAll(service, before, ms[..i], ops)
        invariant attempts == DueAttempts(service, before, ms[..i], now, replies)
      {
        var id := ms[i].id;
        StepAllNext(service, before, ms, i, ops);
        DueNext(service, before, ms, i, now, replies);
        StepKeepsValid(service, threads, id, ops(id));
        var attempt := DispatchIfDue(id, now, replies(id));
        if attempt.Some? { attempts := attempts + [attempt.value]; }
      }
      assert ms[..|ms|] == ms;
      StepAllCovers(service, before, ms, ops);
    }

    method LatestDelivery(events: seq<Event>) returns (latest: Option<Event>)
      requires SortedBy(NotLater, events)
      ensures latest.None? <==> !Has(events, Delivered)
      ensures latest.Some? ==>
        && latest.value in events && latest.value.kind.Delivered?
        && forall e | e in events && e.kind.Delivered? :: e.at <= latest.value.at
    {
      var i := |events|;
      while i > 0
        invariant 0 <= i <= |events|
        invariant forall j | i <= j < |events| :: !events[j].kind.Delivered?
      {
        i := i - 1;
        if events[i].kind.Delivered? {
          assert forall j | 0 <= j < i :: NotLater(events[j], events[i]);
          return Some(events[i]);
        }
      }
      return None;
    }

    method FirstAcknowledgement(events: seq<Event>) returns (first: Option<Event>)
      ensures first.None? <==> !Has(events, Acknowledged)
      ensures first.Some? ==> first.value in events && first.value.kind.Acknowledged?
    {
      for k := 0 to |events|
        invariant forall j | 0 <= j < k :: !events[j].kind.Acknowledged?
      {
        if events[k].kind.Acknowledged? { return Some(events[k]); }
      }
      return None;
    }

    /** The checks that acknowledge makes, and the acknowledgement that is there already. */
    method CheckAcknowledgement(id: string, now: int) returns (r: Result<Option<Event>, ServiceError>)
      requires Valid() && id in threads
      ensures r.Ok? <==> MayAcknowledge(threads[id], now)
      ensures r.Ok? ==> (r.value.Some? <==> PhaseOf(threads[id].events).Acked?)
      ensures r.Ok? && r.value.Some? ==> r.value.value in threads[id].events && r.value.value.kind.Acknowledged?
    {
      hide Sound, Keyed, Spaced, ReadOrder, PhaseOf, Has, MayAcknowledge;
      AcknowledgementDecision(service, threads[id], now);
      ReadOrderKeepsElements(threads[id].events);
      var events := Events(id);
      var latest := LatestDelivery(events);
      if latest.None? { return Err(NotDelivered); }
      if now < latest.value.at { return Err(PrecedesDelivery); }
      var existing := FirstAcknowledgement(events);
      return Ok(existing);
    }

    method Acknowledge(id: string, actor: string, now: int) returns (r: Result<Event, ServiceError>)
      requires Valid()
      modifies this
      ensures Valid() && threads.Keys == old(threads).Keys
      ensures r.Err? ==> threads == old(threads)
      ensures id in old(threads) && !Blank(actor) ==> Acknowledges(service, old(threads), threads, id, now, actor, r)
      ensures id !in old(threads) || Blank(actor) ==> r.Err?
    {
      if Blank(actor) { return Err(BlankActor); }
      if id !in threads { return Err(UnknownMessage); }
      hide Healthy, Acknowledges;
      r := StoreAcknowledgement(id, actor, now);
      AcknowledgesKeepsHealthy(service, old(threads), threads, id, now, actor, r);
    }

    method StoreAcknowledgement(id: string, actor: string, now: int) returns (r: Result<Event, ServiceError>)
      requires Valid() && id in threads
      modifies this
      ensures r.Err? ==> threads == old(threads)
      ensures Acknowledges(service, old(threads), threads, id, now, actor, r)
    {
      hide Healthy, PhaseOf, MayAcknowledge, Ack, Acknowledges;
      var existing := CheckAcknowledgement(id, now);
      if existing.Err? {
        NothingAcknowledged(service, threads, id, now, actor, Err(existing.error));
        return Err(existing.error);
      }
      if existing.value.Some? {
        NothingAcknowledged(service, threads, id, now, actor, Ok(existing.value.value));
        return Ok(existing.value.value);
      }
      NewlyAcknowledged(service, threads, id, now, actor);
      var event := Ack(actor, now);
      AppendEvent(id, event);
      return Ok(event);
    }

    /** The checks that escalate_due makes on one message before it acts. */
    method IsOverdue(id: string, now: int) returns (overdue: bool)
      requires Valid() && id in threads
      ensures overdue == Overdue(service, threads[id], now)
    {
      hide Keyed, Spaced, Numbered, Budgeted, Timed, Gated, TimesOrdered;
      ghost var t := threads[id];
      LivePhase(service, t);
      PhaseReflectsLog(t.events);
      ReadOrderKeepsElements(t.events);
      if !PolicyFor(service, threads[id].message.channel).requireAck { return false; }
      var events := Events(id);
      var acknowledged := FirstAcknowledgement(events);
      SameKinds(events, t.events);
      if acknowledged.Some? { return false; }
      ReadOrderIsAppendOrder(service, t);
      if !(exists e | e in events :: e.kind.Delivered?) {
        return false;
      }
      LastDeliveredExactlyWhenAwaiting(service, t);
      hide PhaseOf, Sound;
      var latest := events[|events| - 1];
      if !latest.kind.Delivered? { return false; }
      return latest.ackDueAt.Some? && latest.ackDueAt.value <= now;
    }

    method EscalateOne(id: string, now: int) returns (event: Option<Event>)
      requires Valid() && id in threads
      modifies this
      ensures threads == old(threads)[id := Step(service, old(threads)[id], Escalate(now))]
      ensures event == EscalationOutcome(service, old(threads)[id], now)
    {
      hide Keyed, Spaced, Sound, PhaseOf, Escalations, Escalation, EscalationRetry, AckTimeout;
      ghost var t := threads[id];
      assert threads == threads[id := t];
      var overdue := IsOverdue(id, now);
      if !overdue { return None; }
      EscalationIsFresh(service, t, now);
      if Escalations(threads[id].events) >= PolicyFor(service, threads[id].message.channel).maxEscalations {
        event := Some(AckTimeout(threads[id], now));
        AppendEvent(id, event.value);
      } else {
        event := Some(Escalation(threads[id], now));
        var retry := EscalationRetry(threads[id], now);
        AppendEvent(id, event.value);
        AppendEvent(id, retry);
      }
    }

    method EscalateDue(now: int) returns (escalations: seq<Event>)
      requires Valid()
      modifies this
      ensures Valid() && threads.Keys == old(threads).Keys
      ensures forall id | id in threads :: threads[id] == Step(service, old(threads)[id], Escalate(now))
      ensures exists ms ::
        && IsMessageOrder(old(threads), ms)
        && escalations == OverdueEvents(service, old(threads), ms, now)
    {
      assert Keyed(threads);
      hide Healthy, Sound, Spaced, Keyed, Step, EscalationOutcome, IsMessageOrder, Listed, StepAll, OverdueEvents;
      var ms := Messages();
      escalations := [];
      ghost var before, ops := threads, (id: string) => Escalate(now);
      NothingStepped(service, before, ops);
      NothingOverdue(service, before, now);
      assert ms[..0] == [];
      for i := 0 to |ms|
        invariant Valid() && Listed(before, ms[..i]) && threads == StepAll(service, before, ms[..i], ops)
        invariant escalations == OverdueEvents(service, before, ms[..i], now)
      {
        var id := ms[i].id;
        StepAllNext(service, before, ms, i, ops);
        OverdueNext(service, before, ms, i, now);
        StepKeepsValid(service, threads, id, ops(id));
        var event := EscalateOne(id, now);
        if event.Some? { escalations := escalations + [event.value]; }
      }
      assert ms[..|ms|] == ms;
      StepAllCovers(service, before, ms, ops);
    }

    method VerifySignature(id: string) returns (r: Result<bool, ServiceError>)
      requires Valid()
      ensures r == if id in threads then Ok(true) else Err(UnknownMessage)
    {
      if id !in threads { return Err(UnknownMessage); }
      return Ok(Verified(service, threads[id].message));
    }
  }

  /** A repeat is not always replayed: once a later message of its key is stored, the same call that stored
      a message is refused. */
  method RepeatAfterLaterMessageIsRefused(o: Orchestrator, ids: (string, string), alertId: string, fingerprint: string,
                                          channel: Channel, destination: string, payload: string, early: int, late: int)
      returns (first: Result<Message, ServiceError>, second: Result<Message, ServiceError>,
               third: Result<Message, ServiceError>)
    requires o.Valid() && o.threads == map[] && ids.0 != ids.1 && early < late
    requires !BadArguments(ids.0, alertId, fingerprint, destination) && !BadArguments(ids.1, alertId, fingerprint, destination)
    modifies o
    ensures first.Ok? && second.Ok? && third == Err(CreatedAtRegressed)
  {
    hide BadArguments, InCooldown, FirstEvent, Built, Sound, Spaced, Keyed;
    first := o.Enqueue(ids.0, alertId, fingerprint, channel, destination, payload, early);
    second := o.Enqueue(ids.1, alertId, fingerprint, channel, destination, payload, late);
    ghost var m := Built(o.service, ids.0, alertId, fingerprint, channel, destination, payload, early);
    ghost var n := Built(o.service, ids.1, alertId, fingerprint, channel, destination, payload, late);
    BuiltKeys(o.service, m, n, alertId, fingerprint, channel, destination, payload);
    assert IsLatestFor(o.threads, m.dedupeKey, Some(n));
    third := o.Enqueue(ids.0, alertId, fingerprint, channel, destination, payload, early);
  }

  lemma BuiltKeys(s: Service, m: Message, n: Message, alertId: string, fingerprint: string, channel: Channel,
                  destination: string, payload: string)
    requires m == Built(s, m.id, alertId, fingerprint, channel, destination, payload, m.createdAt)
    requires n == Built(s, n.id, alertId, fingerprint, channel, destination, payload, n.createdAt)
    ensures m.dedupeKey == n.dedupeKey
  {
  }

  lemma SoundIsNotEmpty(s: Service, t: Thread)
    requires Sound(s, t)
    ensures t.events != []
  {
  }

  lemma LivePhase(s: Service, t: Thread)
    requires Sound(s, t)
    ensures !PhaseOf(t.events).Broken? && !PhaseOf(t.events).Fresh? && !PhaseOf(t.events).Escalating?
  {
  }

  /** The last event of a live log tells its phase. */
  lemma LastKindOfLive(s: Service, t: Thread)
    requires Sound(s, t) && !Settled(PhaseOf(t.events))
    ensures PhaseOf(t.events).Queued? <==> Last(t.events).kind.Enqueued? || Last(t.events).kind.RetryScheduled?
  {
    hide Numbered, Budgeted, Gated, TimesOrdered, PhaseOf;
  }

  lemma LastDeliveredExactlyWhenAwaiting(s: Service, t: Thread)
    requires Sound(s, t)
    ensures PhaseOf(t.events).AwaitingAck? <==> Last(t.events).kind.Delivered?
  {
    hide Numbered, Budgeted, Gated, TimesOrdered;
  }

  lemma SameKinds(a: seq<Event>, b: seq<Event>)
    requires forall e :: e in a <==> e in b
    ensures forall k :: Has(a, k) <==> Has(b, k)
  {
  }

  /** What the log, in whatever order it is read, says about an acknowledgement. */
  lemma AcknowledgementDecision(s: Service, t: Thread, now: int)
    requires Sound(s, t)
    ensures Has(ReadOrder(t.events), Delivered) <==> WasDelivered(PhaseOf(t.events))
    ensures Has(ReadOrder(t.events), Acknowledged) <==> PhaseOf(t.events).Acked?
    ensures forall actor :: !PhaseOf(t.events).Acked? ==> Ack(actor, now) !in t.events
    ensures MayAcknowledge(t, now) <==>
      WasDelivered(PhaseOf(t.events)) && forall e | e in ReadOrder(t.events) && e.kind.Delivered? :: e.at <= now
  {
    LivePhase(s, t);
    PhaseReflectsLog(t.events);
    ReadOrderKeepsElements(t.events);
    SameKinds(ReadOrder(t.events), t.events);
    hide Sound, PhaseOf, ReadOrder;
  }

  lemma AcknowledgesKeepsHealthy(s: Service, before: map<string, Thread>, after: map<string, Thread>, id: string,
                                 now: int, actor: string, r: Result<Event, ServiceError>)
    requires Healthy(s, before) && id in before && Acknowledges(s, before, after, id, now, actor, r)
    ensures Healthy(s, after) && after.Keys == before.Keys
  {
    hide Healthy, Step, MayAcknowledge;
    StepKeepsValid(s, before, id, AlertDelivery.Op.Acknowledge(now, actor));
  }

  lemma NothingAcknowledged(s: Service, threads: map<string, Thread>, id: string, now: int, actor: string,
                            r: Result<Event, ServiceError>)
    requires id in threads && (r.Ok? <==> MayAcknowledge(threads[id], now))
    requires r.Ok? ==> PhaseOf(threads[id].events).Acked? && r.value in threads[id].events && r.value.kind.Acknowledged?
    ensures Acknowledges(s, threads, threads, id, now, actor, r)
  {
    hide MayAcknowledge, PhaseOf;
    assert threads == threads[id := threads[id]];
  }

  lemma NewlyAcknowledged(s: Service, threads: map<string, Thread>, id: string, now: int, actor: string)
    requires Healthy(s, threads) && id in threads
    requires MayAcknowledge(threads[id], now) && !PhaseOf(threads[id].events).Acked?
    ensures var t, e := threads[id], Ack(actor, now);
      && e !in t.events
      && Acknowledges(s, threads, threads[id := t.(events := t.events + [e])], id, now, actor, Ok(e))
  {
    assert Sound(s, threads[id]);
    hide Healthy, Sound, MayAcknowledge, PhaseOf, Ack, Step;
    var t, e := threads[id], Ack(actor, now);
    AcknowledgeStep(s, t, now, actor);
    var after := threads[id := t.(events := t.events + [e])];
    assert after[id].events == t.events + [e];
    assert e in after[id].events;
  }

  lemma AcknowledgeStep(s: Service, t: Thread, now: int, actor: string)
    requires Sound(s, t) && MayAcknowledge(t, now) && !PhaseOf(t.events).Acked?
    ensures Step(s, t, AlertDelivery.Op.Acknowledge(now, actor)) == t.(events := t.events + [Ack(actor, now)])
    ensures Ack(actor, now) !in t.events && Ack(actor, now).kind.Acknowledged?
  {
    hide Sound, MayAcknowledge;
    AcknowledgementDecision(s, t, now);
  }

  /** One step of one message keeps the whole store valid. */
  lemma StepKeepsValid(s: Service, threads: map<string, Thread>, id: string, op: Op)
    requires Healthy(s, threads) && id in threads
    ensures Healthy(s, threads[id := Step(s, threads[id], op)])
  {
    hide Step, Sound, Spaced, P.Kept;
    P.StepKeeps(s, threads[id], op);
    var after := threads[id := Step(s, threads[id], op)];
    StepKeepsSound(s, threads[id], op);
    StepOnlyAppends(s, threads[id], op);
    forall i | i in threads ensures threads[i].events != [] { SoundIsNotEmpty(s, threads[i]); }
    SpacedAfterSteps(s, threads, after);
  }
}
