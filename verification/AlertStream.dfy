/** The resumable alert stream: projections in a numbered log, audited deliveries, and frames that a
    client resumes with Last-Event-ID (section 9.2 of the WHATWG HTML Standard). */
module AlertStream {
  import opened Common

  // ----- cursors -----

  function Digit(d: nat): char
    requires d < 10
  {
    (48 + d) as char
  }

  function Decimal(n: nat): string {
    if n < 10 then [Digit(n)] else Decimal(n / 10) + [Digit(n % 10)]
  }

  predicate IsDigit(c: char) { 48 <= c as int <= 57 }

  /** An integer written the one way that str() writes it. */
  predicate Canonical(s: string) {
    s != [] && (forall c | c in s :: IsDigit(c)) && (|s| == 1 || s[0] != '0')
  }

  function NumberOf(s: string): nat
    requires forall c | c in s :: IsDigit(c)
  {
    if s == [] then 0
    else
      assert IsDigit(s[|s| - 1]);
      10 * NumberOf(s[..|s| - 1]) + (s[|s| - 1] as int - 48)
  }

  function ParseCursor(s: string): Option<nat> {
    if Canonical(s) then Some(NumberOf(s)) else None
  }

  lemma {:induction false} ParseReadsDecimal(n: nat)
    ensures ParseCursor(Decimal(n)) == Some(n)
    ensures n > 0 ==> Decimal(n)[0] != '0'
  {
    if n >= 10 {
      ParseReadsDecimal(n / 10);
      var front := Decimal(n / 10);
      assert Decimal(n)[..|front|] == front;
      assert IsDigit(Digit(n % 10));
    } else {
      var s := Decimal(n);
      assert s == [Digit(n)] && IsDigit(s[0]) && s[..0] == [];
      assert forall c | c in s :: IsDigit(c);
      assert NumberOf(s) == n;
    }
  }

  lemma {:induction false} ParsedIsDecimal(s: string)
    requires Canonical(s)
    ensures s == Decimal(NumberOf(s))
    ensures |s| > 1 ==> NumberOf(s) >= 10
  {
    if |s| > 1 {
      var front, last := s[..|s| - 1], s[|s| - 1];
      assert last in s && IsDigit(last);
      assert forall c | c in front :: c in s;
      assert Canonical(front);
      ParsedIsDecimal(front);
      LeadingDigit(front);
      assert s == front + [last];
      DecimalOf(NumberOf(front), last);
    } else {
      assert s[0] in s && s[..0] == [];
      assert s == [s[0]];
    }
  }

  lemma DecimalOf(front: nat, last: char)
    requires front >= 1 && IsDigit(last)
    ensures Decimal(10 * front + (last as int - 48)) == Decimal(front) + [last]
  {
    var n, d := 10 * front + (last as int - 48), last as int - 48;
    assert n >= 10 && n / 10 == front && n % 10 == d;
    assert Digit(d) == last;
  }

  lemma {:induction false} LeadingDigit(s: string)
    requires s != [] && (forall c | c in s :: IsDigit(c)) && s[0] != '0'
    ensures NumberOf(s) >= 1
  {
    if |s| > 1 {
      assert forall c | c in s[..|s| - 1] :: c in s;
      LeadingDigit(s[..|s| - 1]);
      assert IsDigit(s[|s| - 1]);
    } else {
      assert s[0] in s && s[..0] == [];
      assert IsDigit(s[0]) && NumberOf(s) == s[0] as int - 48;
    }
  }

  /** A cursor is read exactly when it is how its number is written, so no two cursors mean one event. */
  lemma CursorRoundTrip(s: string, n: nat)
    ensures ParseCursor(s) == Some(n) <==> s == Decimal(n)
  {
    ParseReadsDecimal(n);
    if Canonical(s) { ParsedIsDecimal(s); }
  }

  // ----- the log -----

  datatype Projection = Projection(key: string, recordedAt: int, payload: string)

  datatype StreamEvent = StreamEvent(eventId: string, recordedAt: int, payload: string)

  datatype Delivery = Delivery(deliveryId: string, connection: string, eventId: string, attemptedAt: int)

  datatype StreamError = MalformedCursor | CursorAhead | ProjectionConflict | DeliveryConflict | StorageFailure

  ghost predicate UniqueKeys(events: seq<Projection>) {
    forall i, j | 0 <= i < j < |events| :: events[i].key != events[j].key
  }

  ghost predicate UniqueDeliveries(deliveries: seq<Delivery>) {
    forall i, j | 0 <= i < j < |deliveries| :: deliveries[i].deliveryId != deliveries[j].deliveryId
  }

  /** Event `i` of the log as clients see it: numbered from one. */
  function EventAt(events: seq<Projection>, i: nat): StreamEvent
    requires i < |events|
  {
    StreamEvent(Decimal(i + 1), events[i].recordedAt, events[i].payload)
  }

  /** The events numbered `from + 1` up to `to`. */
  function Range(events: seq<Projection>, from: nat, to: nat): seq<StreamEvent>
    requires from <= to <= |events|
  {
    seq(to - from, i requires 0 <= i < to - from => EventAt(events, from + i))
  }

  /** The events behind a cursor are numbered on from it, each with the time and payload it was recorded with. */
  lemma EventsBehindCursor(events: seq<Projection>, from: nat, to: nat)
    requires from <= to <= |events|
    ensures var r := Range(events, from, to);
      && |r| == to - from
      && forall i | 0 <= i < |r| ::
           && ParseCursor(r[i].eventId) == Some(from + 1 + i)
           && r[i].recordedAt == events[from..][i].recordedAt && r[i].payload == events[from..][i].payload
  {
    hide ParseCursor, Decimal;
    var r := Range(events, from, to);
    forall i | 0 <= i < |r|
      ensures ParseCursor(r[i].eventId) == Some(from + 1 + i)
      ensures r[i].recordedAt == events[from..][i].recordedAt && r[i].payload == events[from..][i].payload
    {
      assert r[i] == EventAt(events, from + i);
      NumberOfEvent(events, from + i);
    }
  }

  lemma NumberOfEvent(events: seq<Projection>, i: nat)
    requires i < |events|
    ensures ParseCursor(EventAt(events, i).eventId) == Some(i + 1)
  {
    CursorRoundTrip(Decimal(i + 1), i + 1);
  }

  function ReadCursor(id: Option<string>, newest: nat): Result<nat, StreamError> {
    if id.None? || id.value == "" then Ok(0)
    else if ParseCursor(id.value).None? then Err(MalformedCursor)
    else if ParseCursor(id.value).value > newest then Err(CursorAhead)
    else Ok(ParseCursor(id.value).value)
  }

  /** What a cursor means, in terms of how numbers are written. */
  lemma CursorReading(id: Option<string>, newest: nat)
    ensures var r := ReadCursor(id, newest);
      && (r.Ok? <==> id.None? || id.value == "" || exists n: nat :: n <= newest && id.value == Decimal(n))
      && (r == Err(CursorAhead) <==>
            id.Some? && id.value != "" && exists n: nat :: n > newest && id.value == Decimal(n))
      && (r.Ok? ==> if id.None? || id.value == "" then r.value == 0 else id.value == Decimal(r.value))
      && (r.Err? ==> r.error == MalformedCursor || r.error == CursorAhead)
    ensures forall m: nat, n: nat | Decimal(m) == Decimal(n) :: m == n
  {
    hide ParseCursor, Decimal;
    if id.Some? {
      if ParseCursor(id.value).Some? { CursorRoundTrip(id.value, ParseCursor(id.value).value); }
      forall n: nat ensures ParseCursor(id.value) == Some(n) <==> id.value == Decimal(n) {
        CursorRoundTrip(id.value, n);
      }
    }
    forall m: nat, n: nat | Decimal(m) == Decimal(n) ensures m == n {
      CursorRoundTrip(Decimal(m), m);
      CursorRoundTrip(Decimal(m), n);
    }
  }

  class StreamStore {
    var events: seq<Projection>
    var deliveries: seq<Delivery>

    ghost predicate Valid()
      reads this
    {
      UniqueKeys(events) && UniqueDeliveries(deliveries)
    }

    constructor ()
      ensures Valid() && events == [] && deliveries == []
    {
      events, deliveries := [], [];
    }

    /** One event per projection key, for good. */
    method AppendProjection(key: string, payload: string, recordedAt: int) returns (r: Result<nat, StreamError>)
      requires Valid()
      modifies this`events
      ensures Valid()
      ensures r.Ok? ==> 1 <= r.value <= |events| && events[r.value - 1].key == key && events[r.value - 1].payload == payload
      ensures r.Err? <==> exists e :: e in old(events) && e.key == key && e.payload != payload
      ensures r.Err? ==> r.error == ProjectionConflict
      ensures events == old(events) + if HasKey(old(events), key) then [] else [Projection(key, recordedAt, payload)]
    {
      for i := 0 to |events|
        invariant forall j | 0 <= j < i :: events[j].key != key
        invariant events == old(events)
      {
        if events[i].key == key {
          assert HasKey(events, key);
          assert events[i] in events;
          if events[i].payload != payload { return Err(ProjectionConflict); }
          return Ok(i + 1);
        }
      }
      events := events + [Projection(key, recordedAt, payload)];
      return Ok(|events|);
    }

    /** A cursor is nothing, or the number of a stored event as the stream itself writes it. */
    method ValidateCursor(id: Option<string>) returns (r: Result<nat, StreamError>)
      ensures r.Ok? <==> id.None? || id.value == "" || exists n: nat :: n <= |events| && id.value == Decimal(n)
      ensures r.Ok? ==> (id.None? || id.value == "" ==> r.value == 0)
      ensures r.Ok? ==> (id.Some? && id.value != "" ==> r.value <= |events| && id.value == Decimal(r.value))
      ensures r == Err(CursorAhead) <==>
        id.Some? && id.value != "" && exists n: nat :: n > |events| && id.value == Decimal(n)
      ensures r.Err? ==> r.error == MalformedCursor || r.error == CursorAhead
    {
      CursorReading(id, |events|);
      return ReadCursor(id, |events|);
    }

    method EventsAfter(id: Option<string>) returns (r: Result<seq<StreamEvent>, StreamError>)
      ensures r.Ok? <==> ReadCursor(id, |events|).Ok?
      ensures r.Ok? ==> r.value == Range(events, ReadCursor(id, |events|).value, |events|)
      ensures r.Err? ==> r.error == ReadCursor(id, |events|).error
    {
      var cursor := ValidateCursor(id);
      assert cursor == ReadCursor(id, |events|) by { CursorReading(id, |events|); }
      if cursor.Err? { return Err(cursor.error); }
      return Ok(Range(events, cursor.value, |events|));
    }

    /** Writes one audit row per delivery id; the same row again is no second row. */
    method AppendDelivery(d: Delivery, fails: bool) returns (r: Result<(), StreamError>)
      requires Valid()
      modifies this`deliveries
      ensures Valid()
      ensures old(deliveries) <= deliveries
      ensures r.Ok? ==> d in deliveries
      ensures r.Ok? && !HasDelivery(old(deliveries), d.deliveryId) ==> deliveries == old(deliveries) + [d]
      ensures r.Err? ==> deliveries == old(deliveries) && (fails || HasDelivery(deliveries, d.deliveryId))
      ensures fails ==> r == Err(StorageFailure)
      ensures r == Err(DeliveryConflict) <==> !fails && exists x :: x in old(deliveries) && x.deliveryId == d.deliveryId && x != d
    {
      if fails { return Err(StorageFailure); }
      for i := 0 to |deliveries|
        invariant forall j | 0 <= j < i :: deliveries[j].deliveryId != d.deliveryId
        invariant deliveries == old(deliveries)
      {
        if deliveries[i].deliveryId == d.deliveryId {
          assert HasDelivery(deliveries, d.deliveryId);
          assert deliveries[i] in deliveries;
          if deliveries[i] != d { return Err(DeliveryConflict); }
          return Ok(());
        }
      }
      deliveries := deliveries + [d];
      return Ok(());
    }
  }

  predicate HasKey(events: seq<Projection>, key: string) {
    exists i :: 0 <= i < |events| && events[i].key == key
  }

  predicate HasDelivery(deliveries: seq<Delivery>, id: string) {
    exists i :: 0 <= i < |deliveries| && deliveries[i].deliveryId == id
  }

  // ----- synchronisation -----

  type Digest = string -> string

  /** Two different payloads, one stored and one to be stored, with one digest. */
  ghost predicate Clash(h: Digest, events: seq<Projection>, alerts: seq<string>) {
    exists e, a :: e in events && a in alerts && e.payload != a && h(e.payload) == h(a)
  }

  /** Every event is filed under the digest of its own payload. */
  ghost predicate Keyed(h: Digest, events: seq<Projection>) {
    forall e | e in events :: e.key == h(e.payload)
  }

  /** The log after the first `n` alerts: a known digest adds nothing. */
  function Synced(h: Digest, events: seq<Projection>, alerts: seq<string>, clock: nat -> int, n: nat): seq<Projection>
    requires n <= |alerts|
  {
    if n == 0 then events
    else
      var before := Synced(h, events, alerts, clock, n - 1);
      if HasKey(before, h(alerts[n - 1])) then before
      else before + [Projection(h(alerts[n - 1]), clock(n - 1), alerts[n - 1])]
  }

  lemma {:induction false} SyncedGrows(h: Digest, events: seq<Projection>, alerts: seq<string>, clock: nat -> int, n: nat)
    requires n <= |alerts|
    ensures events <= Synced(h, events, alerts, clock, n)
    ensures forall i | 0 <= i < n :: HasKey(Synced(h, events, alerts, clock, n), h(alerts[i]))
  {
    if n > 0 {
      SyncedGrows(h, events, alerts, clock, n - 1);
      var before, after := Synced(h, events, alerts, clock, n - 1), Synced(h, events, alerts, clock, n);
      forall i | 0 <= i < n - 1 ensures HasKey(after, h(alerts[i])) {
        var k :| 0 <= k < |before| && before[k].key == h(alerts[i]);
        assert after[k] == before[k];
      }
      if !HasKey(before, h(alerts[n - 1])) {
        assert after[|before|].key == h(alerts[n - 1]);
      }
    }
  }

  /** Synchronising is idempotent: the same alerts again append nothing. */
  lemma {:induction false} ResyncAddsNothing(h: Digest, events: seq<Projection>, alerts: seq<string>, clock: nat -> int,
                                             later: nat -> int, n: nat)
    requires n <= |alerts|
    ensures var once := Synced(h, events, alerts, clock, |alerts|); Synced(h, once, alerts, later, n) == once
  {
    if n > 0 {
      ResyncAddsNothing(h, events, alerts, clock, later, n - 1);
      SyncedGrows(h, events, alerts, clock, |alerts|);
    }
  }

  /** Each payload is in the log at most once, and what was synchronised is in it. */
  lemma PayloadsAreUnique(h: Digest, events: seq<Projection>, i: nat, j: nat)
    requires Keyed(h, events) && UniqueKeys(events) && i < |events| && j < |events|
    requires events[i].payload == events[j].payload
    ensures i == j
  {
    assert events[i] in events && events[j] in events;
  }

  // ----- frames -----

  datatype Frame = Alert(event: StreamEvent) | Heartbeat

  /** What one round of the loop meets: the client is gone, these alerts are known, a heartbeat is due. */
  datatype Poll = Poll(disconnected: bool, alerts: seq<string>, heartbeatDue: bool)

  /** Clock readings, generated delivery ids, and audit writes that the storage loses, by occurrence. */
  datatype Environment = Environment(clock: nat -> int, newId: nat -> string, auditFails: nat -> bool)

  datatype End = Refused(error: StreamError) | Failed(error: StreamError) | ScriptOver | Disconnected | FrameLimit

  function AlertsOf(frames: seq<Frame>): seq<StreamEvent> {
    if frames == [] then []
    else
      var last := frames[|frames| - 1];
      AlertsOf(frames[..|frames| - 1]) + if last.Alert? then [last.event] else []
  }

  lemma AlertsOfAppended(frames: seq<Frame>, f: Frame)
    ensures AlertsOf(frames + [f]) == AlertsOf(frames) + if f.Alert? then [f.event] else []
  {
    assert (frames + [f])[..|frames|] == frames;
  }

  predicate Audited(deliveries: seq<Delivery>, connection: string, e: StreamEvent) {
    exists d :: d in deliveries && d.connection == connection && d.eventId == e.eventId
  }

  ghost predicate AllAudited(deliveries: seq<Delivery>, connection: string, events: seq<StreamEvent>) {
    forall e | e in events :: Audited(deliveries, connection, e)
  }

  /** The generated ids are new: not in use, and never repeated. */
  ghost predicate FreshIds(env: Environment, deliveries: seq<Delivery>) {
    && (forall i: nat :: !HasDelivery(deliveries, env.newId(i)))
    && (forall i: nat, j: nat | i < j :: env.newId(i) != env.newId(j))
  }

  /** The audit write of occurrence `n` cannot be stored: it is lost, or its id is taken. */
  ghost predicate AuditLost(env: Environment, deliveries: seq<Delivery>, n: nat) {
    env.auditFails(n) || HasDelivery(deliveries, env.newId(n))
  }

  /** Exactly the first `n` generated ids were added. */
  ghost predicate AddedIds(before: seq<Delivery>, after: seq<Delivery>, env: Environment, n: nat) {
    |after| == |before| + n && before <= after
    && forall i | 0 <= i < n :: after[|before| + i].deliveryId == env.newId(i)
  }

  lemma NextIdIsFresh(before: seq<Delivery>, after: seq<Delivery>, env: Environment, n: nat)
    requires FreshIds(env, before) && AddedIds(before, after, env, n)
    ensures !HasDelivery(after, env.newId(n))
  {
    forall i | 0 <= i < |after| ensures after[i].deliveryId != env.newId(n) {
      if i < |before| {
        assert before[i] == after[i];
        assert !HasDelivery(before, env.newId(n));
      } else {
        assert after[|before| + (i - |before|)].deliveryId == env.newId(i - |before|);
      }
    }
  }

  lemma RangesJoin(older: seq<Projection>, newer: seq<Projection>, from: nat, mid: nat, to: nat)
    requires from <= mid <= |older| && mid <= to <= |newer| && older <= newer
    ensures Range(older, from, mid) + Range(newer, mid, to) == Range(newer, from, to)
  {
    var joined := Range(older, from, mid) + Range(newer, mid, to);
    assert |joined| == to - from;
    forall i | 0 <= i < to - from ensures joined[i] == Range(newer, from, to)[i] {
      if i < mid - from {
        assert older[from + i] == newer[from + i];
      }
    }
  }

  /** The first `count` pending events as frames. */
  function Sent(pending: seq<StreamEvent>, count: nat): (r: seq<Frame>)
    requires count <= |pending|
    ensures |r| == count
  {
    seq(count, i requires 0 <= i < count => Alert(pending[i]))
  }

  lemma {:induction false} AlertsOfSent(frames: seq<Frame>, pending: seq<StreamEvent>, count: nat)
    requires count <= |pending|
    ensures AlertsOf(frames + Sent(pending, count)) == AlertsOf(frames) + pending[..count]
  {
    hide AlertsOf;
    if count == 0 {
      assert frames + Sent(pending, 0) == frames;
    } else {
      AlertsOfSent(frames, pending, count - 1);
      assert frames + Sent(pending, count) == (frames + Sent(pending, count - 1)) + [Alert(pending[count - 1])];
      AlertsOfAppended(frames + Sent(pending, count - 1), Alert(pending[count - 1]));
      assert pending[..count] == pending[..count - 1] + [pending[count - 1]];
    }
  }

  lemma SentIsRange(events: seq<Projection>, frames: seq<Frame>, pending: seq<StreamEvent>, from: nat, to: nat, count: nat)
    requires from <= to <= |events| && pending == Range(events, to, |events|) && count <= |pending|
    requires AlertsOf(frames) == Range(events, from, to)
    ensures to + count <= |events|
    ensures AlertsOf(frames + Sent(pending, count)) == Range(events, from, to + count)
    ensures AlertsOf(frames + Sent(pending, count)) == AlertsOf(frames) + pending[..count]
    ensures |Range(events, from, to + count)| == to + count - from
  {
    AlertsOfSent(frames, pending, count);
    RangesJoin(events, events, from, to, to + count);
    assert pending[..count] == Range(events, to, to + count);
  }

  lemma LastSent(events: seq<Projection>, to: nat, count: nat)
    requires 0 < count && to + count <= |events|
    ensures Range(events, to, |events|)[count - 1].eventId == Decimal(to + count)
    ensures ReadCursor(Some(Decimal(to + count)), |events|) == Ok(to + count)
  {
    assert Range(events, to, |events|)[count - 1] == EventAt(events, to + (count - 1));
    CursorReadsDecimal(to + count, |events|);
  }

  lemma LogGrew(older: seq<Projection>, newer: seq<Projection>, id: Option<string>, cursor: Option<string>,
                from: nat, to: nat)
    requires older <= newer && from <= to <= |older|
    requires ReadCursor(id, |older|) == Ok(from) && ReadCursor(cursor, |older|) == Ok(to)
    ensures ReadCursor(id, |newer|) == Ok(from) && ReadCursor(cursor, |newer|) == Ok(to)
    ensures Range(newer, from, to) == Range(older, from, to)
  {
    RangesJoin(older, newer, from, to, to);
    assert Range(newer, to, to) == [];
  }

  /** What has been sent so far is the run of the log between the client's cursor and the current one. */
  ghost predicate Streamed(events: seq<Projection>, frames: seq<Frame>, id: Option<string>, cursor: Option<string>,
                           from: nat, to: nat)
  {
    && from <= to <= |events|
    && ReadCursor(id, |events|) == Ok(from) && ReadCursor(cursor, |events|) == Ok(to)
    && AlertsOf(frames) == Range(events, from, to)
  }

  lemma StillStreamed(older: seq<Projection>, newer: seq<Projection>, frames: seq<Frame>, id: Option<string>,
                      cursor: Option<string>, from: nat, to: nat)
    requires older <= newer && Streamed(older, frames, id, cursor, from, to)
    ensures Streamed(newer, frames, id, cursor, from, to)
  {
    LogGrew(older, newer, id, cursor, from, to);
  }

  lemma StreamedFurther(events: seq<Projection>, frames: seq<Frame>, id: Option<string>, cursor: Option<string>,
                        from: nat, to: nat, pending: seq<StreamEvent>, count: nat)
    requires Streamed(events, frames, id, cursor, from, to)
    requires pending == Range(events, to, |events|) && count <= |pending|
    ensures to + count <= |events|
    ensures Streamed(events, frames + Sent(pending, count), id,
                     if count == 0 then cursor else Some(pending[count - 1].eventId), from, to + count)
    ensures AlertsOf(frames + Sent(pending, count)) == AlertsOf(frames) + pending[..count]
  {
    hide AlertsOf, ReadCursor;
    SentIsRange(events, frames, pending, from, to, count);
    if count > 0 { LastSent(events, to, count); }
  }

  lemma StreamedReads(events: seq<Projection>, frames: seq<Frame>, id: Option<string>, cursor: Option<string>,
                      from: nat, to: nat)
    requires Streamed(events, frames, id, cursor, from, to)
    ensures from <= to <= |events| && ReadCursor(cursor, |events|) == Ok(to)
    ensures ReadCursor(id, |events|) == Ok(from) && AlertsOf(frames) == Range(events, from, to)
    ensures |AlertsOf(frames)| == to - from
    ensures |Range(events, to, |events|)| == |events| - to
  {
  }

  lemma StreamStarts(events: seq<Projection>, id: Option<string>, from: nat)
    requires ReadCursor(id, |events|) == Ok(from)
    ensures Streamed(events, [], id, id, from, from)
  {
  }

  lemma HeartbeatStreams(events: seq<Projection>, frames: seq<Frame>, id: Option<string>, cursor: Option<string>,
                         from: nat, to: nat)
    requires Streamed(events, frames, id, cursor, from, to)
    ensures Streamed(events, frames + [Heartbeat], id, cursor, from, to)
    ensures AlertsOf(frames + [Heartbeat]) == AlertsOf(frames)
  {
    AlertsOfAppended(frames, Heartbeat);
  }

  lemma EmptyRun(deliveries: seq<Delivery>, connection: string, env: Environment)
    ensures AlertsOf([]) == [] && AllAudited(deliveries, connection, []) && AddedIds(deliveries, deliveries, env, 0)
  {
  }

  lemma AddedCount(before: seq<Delivery>, after: seq<Delivery>, env: Environment, n: nat)
    requires FreshIds(env, before) ==> AddedIds(before, after, env, n)
    ensures FreshIds(env, before) ==> |after| == |before| + n
  {
  }

  lemma OneMoreId(start: seq<Delivery>, before: seq<Delivery>, d: Delivery, env: Environment, n: nat)
    requires AddedIds(start, before, env, n) && d.deliveryId == env.newId(n)
    ensures AddedIds(start, before + [d], env, n + 1)
  {
  }

  lemma StillAudited(before: seq<Delivery>, after: seq<Delivery>, connection: string, events: seq<StreamEvent>)
    requires before <= after && AllAudited(before, connection, events)
    ensures AllAudited(after, connection, events)
  {
    forall e | e in events ensures Audited(after, connection, e) {
      assert Audited(before, connection, e);
      var d :| d in before && d.connection == connection && d.eventId == e.eventId;
      assert d in after;
    }
  }

  lemma BothAudited(before: seq<Delivery>, after: seq<Delivery>, connection: string, sent: seq<StreamEvent>,
                    more: seq<StreamEvent>)
    requires before <= after && AllAudited(before, connection, sent) && AllAudited(after, connection, more)
    ensures AllAudited(after, connection, sent + more)
  {
    StillAudited(before, after, connection, sent);
  }

  lemma CursorReadsDecimal(n: nat, newest: nat)
    requires n <= newest
    ensures ReadCursor(Some(Decimal(n)), newest) == Ok(n)
  {
    ParseReadsDecimal(n);
  }

  // ----- what a connection has to send -----

  /** The log after the first `n` polls. */
  ghost function LogAfter(h: Digest, log: seq<Projection>, script: seq<Poll>, clock: nat -> int, n: nat): seq<Projection>
    requires n <= |script|
  {
    if n == 0 then log
    else Synced(h, LogAfter(h, log, script, clock, n - 1), script[n - 1].alerts, clock, |script[n - 1].alerts|)
  }

  /** What one round sends: everything behind `to`, or else a heartbeat if that is due. */
  ghost function RoundFrames(events: seq<Projection>, to: nat, due: bool): seq<Frame> {
    if to < |events| then Sent(Range(events, to, |events|), |events| - to)
    else if due then [Heartbeat]
    else []
  }

  /** Where the cursor stands after `n` completed rounds. */
  ghost function Reached(h: Digest, log: seq<Projection>, from: nat, script: seq<Poll>, clock: nat -> int, n: nat): nat
    requires n <= |script|
  {
    if n == 0 then from else |LogAfter(h, log, script, clock, n)|
  }

  ghost function Transcript(h: Digest, log: seq<Projection>, from: nat, script: seq<Poll>, clock: nat -> int, n: nat):
    seq<Frame>
    requires n <= |script|
  {
    if n == 0 then []
    else
      var events, to := LogAfter(h, log, script, clock, n), Reached(h, log, from, script, clock, n - 1);
      Transcript(h, log, from, script, clock, n - 1) + RoundFrames(events, to, script[n - 1].heartbeatDue)
  }

  lemma {:induction false} LogAfterGrows(h: Digest, log: seq<Projection>, script: seq<Poll>, clock: nat -> int, n: nat)
    requires n <= |script|
    ensures log <= LogAfter(h, log, script, clock, n)
    ensures n > 0 ==> LogAfter(h, log, script, clock, n - 1) <= LogAfter(h, log, script, clock, n)
    ensures forall j, a | 0 <= j < n && a in script[j].alerts :: HasKey(LogAfter(h, log, script, clock, n), h(a))
  {
    if n > 0 {
      var before, alerts := LogAfter(h, log, script, clock, n - 1), script[n - 1].alerts;
      var after := LogAfter(h, log, script, clock, n);
      LogAfterGrows(h, log, script, clock, n - 1);
      SyncedGrows(h, before, alerts, clock, |alerts|);
      hide LogAfter, Synced;
      forall j, a | 0 <= j < n && a in script[j].alerts ensures HasKey(after, h(a)) {
        if j < n - 1 {
          KeysStay(before, after, h(a));
        } else {
          var i :| 0 <= i < |alerts| && alerts[i] == a;
        }
      }
    }
  }

  lemma KeysStay(older: seq<Projection>, newer: seq<Projection>, key: string)
    requires older <= newer && HasKey(older, key)
    ensures HasKey(newer, key)
  {
    var i :| 0 <= i < |older| && older[i].key == key;
    assert newer[i] == older[i];
  }

  /** The alerts of a transcript are one gapless run of the log. */
  lemma {:induction false} TranscriptIsGapless(h: Digest, log: seq<Projection>, from: nat, script: seq<Poll>,
                                               clock: nat -> int, n: nat)
    requires n <= |script| && from <= |log|
    ensures var events, to := LogAfter(h, log, script, clock, n), Reached(h, log, from, script, clock, n);
      from <= to <= |events| && AlertsOf(Transcript(h, log, from, script, clock, n)) == Range(events, from, to)
  {
    hide AlertsOf, Synced;
    if n == 0 {
      NoAlerts();
    } else {
      TranscriptIsGapless(h, log, from, script, clock, n - 1);
      LogAfterGrows(h, log, script, clock, n - 1);
      LogAfterGrows(h, log, script, clock, n);
      var earlier, events := LogAfter(h, log, script, clock, n - 1), LogAfter(h, log, script, clock, n);
      var to, sent := Reached(h, log, from, script, clock, n - 1), Transcript(h, log, from, script, clock, n - 1);
      hide LogAfter, Reached, Transcript;
      RoundExtends(earlier, events, from, to, sent, script[n - 1].heartbeatDue);
    }
  }

  lemma NoAlerts()
    ensures AlertsOf([]) == []
  {
  }

  lemma RoundExtends(earlier: seq<Projection>, events: seq<Projection>, from: nat, to: nat, sent: seq<Frame>, due: bool)
    requires earlier <= events && from <= to <= |earlier| && AlertsOf(sent) == Range(earlier, from, to)
    ensures AlertsOf(sent + RoundFrames(events, to, due)) == Range(events, from, |events|)
  {
    hide AlertsOf;
    var pending := Range(events, to, |events|);
    RangesJoin(earlier, events, from, to, |events|);
    if to < |events| {
      AlertsOfSent(sent, pending, |pending|);
      assert pending[..|pending|] == pending;
    } else {
      AlertsOfAppended(sent, Heartbeat);
      assert sent + [] == sent && pending == [];
    }
  }

  /** How a connection over this script may go: after `n` full rounds it is over, the client is gone, the
      frame limit is reached, or a round breaks off. */
  ghost predicate Streams(h: Digest, log: seq<Projection>, from: nat, script: seq<Poll>, clock: nat -> int,
                          limit: Option<nat>, frames: seq<Frame>, end: End, n: nat)
  {
    && n <= |script| && (forall j | 0 <= j < n :: !script[j].disconnected)
    && Transcript(h, log, from, script, clock, n) <= frames
    && match end
       case ScriptOver => n == |script| && frames == Transcript(h, log, from, script, clock, n)
       case Disconnected =>
         n < |script| && script[n].disconnected && frames == Transcript(h, log, from, script, clock, n)
       case FrameLimit => limit == Some(|frames|) && n < |script| &&
         (frames == Transcript(h, log, from, script, clock, n)
          || (!script[n].disconnected && frames <= Transcript(h, log, from, script, clock, n + 1)))
       case Failed(_) =>
         n < |script| && !script[n].disconnected && frames <= Transcript(h, log, from, script, clock, n + 1)
       case Refused(_) => false
  }

  /** The log at the end of a connection: the alerts of the first `polled` polls were picked up, those of the
      `n` full rounds and those of a round that broke off, unless they clash. */
  ghost predicate PickedUp(h: Digest, log: seq<Projection>, script: seq<Poll>, clock: nat -> int, n: nat, polled: nat,
                           events: seq<Projection>, end: End)
  {
    && n <= polled <= n + 1 && polled <= |script|
    && (end.ScriptOver? || end.Disconnected? ==> polled == n)
    && LogAfter(h, log, script, clock, polled) <= events
    && (events == LogAfter(h, log, script, clock, polled)
        || (end.Failed? && n < |script| && Clash(h, events, script[n].alerts)))
  }

  lemma PickedUpKeys(h: Digest, log: seq<Projection>, script: seq<Poll>, clock: nat -> int, n: nat, polled: nat,
                     events: seq<Projection>, end: End)
    requires PickedUp(h, log, script, clock, n, polled, events, end)
    ensures forall j, a | 0 <= j < polled && a in script[j].alerts :: HasKey(events, h(a))
  {
    hide LogAfter, HasKey;
    LogAfterGrows(h, log, script, clock, polled);
    forall j, a | 0 <= j < polled && a in script[j].alerts ensures HasKey(events, h(a)) {
      KeysStay(LogAfter(h, log, script, clock, polled), events, h(a));
    }
  }

  class StreamService {
    const store: StreamStore
    const digest: Digest

    constructor (store: StreamStore, digest: Digest)
      ensures this.store == store && this.digest == digest
    {
      this.store := store;
      this.digest := digest;
    }

    /** Appends the alerts that the log does not hold yet. It fails only when two different payloads share
        a digest. */
    method SyncAlerts(alerts: seq<string>, clock: nat -> int) returns (r: Result<nat, StreamError>)
      requires store.Valid() && Keyed(digest, store.events)
      modifies store`events
      ensures store.Valid() && Keyed(digest, store.events)
      ensures old(store.events) <= store.events
      ensures r.Ok? ==>
        && store.events == Synced(digest, old(store.events), alerts, clock, |alerts|)
        && r.value == |store.events| - |old(store.events)|
      ensures r.Err? ==> r.error == ProjectionConflict && Clash(digest, store.events, alerts)
    {
      hide UniqueKeys, UniqueDeliveries;
      var appended := 0;
      for n := 0 to |alerts|
        invariant store.Valid() && Keyed(digest, store.events)
        invariant old(store.events) <= store.events
        invariant store.events == Synced(digest, old(store.events), alerts, clock, n)
        invariant appended == |store.events| - |old(store.events)|
      {
        var before := |store.events|;
        var done := store.AppendProjection(digest(alerts[n]), alerts[n], clock(n));
        if done.Err? { return Err(done.error); }
        appended := appended + (|store.events| - before);
      }
      return Ok(appended);
    }

    /** Audits and sends one pending event after the other. An event is sent only after its audit row is
        stored; a lost audit write ends the connection before the event is sent. */
    method Emit(pending: seq<StreamEvent>, connection: string, maxFrames: Option<nat>, sent: nat, audits: nat,
                env: Environment, ghost start: seq<Delivery>)
        returns (count: nat, stop: Option<End>)
      requires store.Valid() && (maxFrames.Some? ==> sent < maxFrames.value)
      requires FreshIds(env, start) ==> AddedIds(start, store.deliveries, env, audits)
      modifies store`deliveries
      ensures store.Valid() && old(store.deliveries) <= store.deliveries
      ensures count <= |pending| && (maxFrames.Some? ==> sent + count <= maxFrames.value)
      ensures AllAudited(store.deliveries, connection, pending[..count])
      ensures FreshIds(env, start) ==> AddedIds(start, store.deliveries, env, audits + count)
      ensures stop.None? ==> count == |pending| && (maxFrames.Some? && count > 0 ==> sent + count < maxFrames.value)
      ensures stop.Some? ==> (stop.value == FrameLimit && maxFrames == Some(sent + count)) || stop.value.Failed?
      ensures stop.Some? && stop.value.Failed? ==>
        count < |pending| && AuditLost(env, store.deliveries, audits + count)
    {
      hide FreshIds, AddedIds, HasDelivery, UniqueDeliveries, UniqueKeys;
      count := 0;
      while count < |pending|
        invariant store.Valid() && old(store.deliveries) <= store.deliveries
        invariant count <= |pending| && (maxFrames.Some? ==> sent + count < maxFrames.value)
        invariant AllAudited(store.deliveries, connection, pending[..count])
        invariant FreshIds(env, start) ==> AddedIds(start, store.deliveries, env, audits + count)
        decreases |pending| - count
      {
        var id := env.newId(audits + count);
        var d := Delivery(id, connection, pending[count].eventId, env.clock(audits + count));
        ghost var before := store.deliveries;
        if FreshIds(env, start) {
          NextIdIsFresh(start, before, env, audits + count);
        }
        var stored := store.AppendDelivery(d, env.auditFails(audits + count));
        if stored.Err? { return count, Some(Failed(stored.error)); }
        StillAudited(before, store.deliveries, connection, pending[..count]);
        assert pending[..count + 1] == pending[..count] + [pending[count]];
        if FreshIds(env, start) {
          OneMoreId(start, before, d, env, audits + count);
        }
        count := count + 1;
        if maxFrames.Some? && sent + count >= maxFrames.value { return count, Some(FrameLimit); }
      }
      assert pending[..count] == pending;
      return count, None;
    }

    /** One round: picks up new alerts, then sends everything pending, or a heartbeat when that is due. */
    method Round(poll: Poll, connection: string, maxFrames: Option<nat>, sent: seq<Frame>, at: Option<string>,
                 audits: nat, env: Environment, ghost id: Option<string>, ghost from: nat, ghost to: nat,
                 ghost start: seq<Delivery>)
        returns (frames: seq<Frame>, cursor: Option<string>, count: nat, stop: Option<End>)
      requires store.Valid() && Keyed(digest, store.events)
      requires Streamed(store.events, sent, id, at, from, to)
      requires maxFrames.Some? ==> |sent| < maxFrames.value
      requires AllAudited(store.deliveries, connection, AlertsOf(sent))
      requires FreshIds(env, start) ==> AddedIds(start, store.deliveries, env, audits)
      modifies store
      ensures store.Valid() && Keyed(digest, store.events)
      ensures old(store.events) <= store.events && old(store.deliveries) <= store.deliveries
      ensures Streamed(store.events, frames, id, cursor, from, to + count)
      ensures AllAudited(store.deliveries, connection, AlertsOf(frames))
      ensures FreshIds(env, start) ==> AddedIds(start, store.deliveries, env, audits + count)
      ensures maxFrames.Some? ==> |frames| <= maxFrames.value
      ensures stop.None? ==> to + count == |store.events| && (maxFrames.Some? ==> |frames| < maxFrames.value)
      ensures stop.Some? ==> (stop.value == FrameLimit && maxFrames == Some(|frames|)) || stop.value.Failed?
      ensures var log := Synced(digest, old(store.events), poll.alerts, env.clock, |poll.alerts|);
        var full := sent + RoundFrames(log, to, poll.heartbeatDue);
        && sent <= frames <= full
        && (stop.None? ==> frames == full)
        && (stop.None? || !stop.value.Failed? ==> store.events == log)
        && (stop.Some? && stop.value.Failed? ==>
              || Clash(digest, store.events, poll.alerts)
              || (store.events == log && AuditLost(env, store.deliveries, audits + count)))
    {
      hide Range, ReadCursor, FreshIds, AddedIds, UniqueDeliveries, UniqueKeys, AllAudited, Keyed, AlertsOf, Streamed;
      frames, cursor, count, stop := sent, at, 0, None;
      ghost var log := store.events;
      var synced := SyncAlerts(poll.alerts, env.clock);
      StillStreamed(log, store.events, sent, id, at, from, to);
      if synced.Err? {
        stop := Some(Failed(synced.error));
        return;
      }
      StreamedReads(store.events, sent, id, at, from, to);
      var pending := store.EventsAfter(at);
      if |pending.value| > 0 {
        ghost var before := store.deliveries;
        count, stop := Emit(pending.value, connection, maxFrames, |sent|, audits, env, start);
        StreamedFurther(store.events, sent, id, at, from, to, pending.value, count);
        BothAudited(before, store.deliveries, connection, AlertsOf(sent), pending.value[..count]);
        frames := sent + Sent(pending.value, count);
        if count > 0 { cursor := Some(pending.value[count - 1].eventId); }
      } else if poll.heartbeatDue {
        HeartbeatStreams(store.events, sent, id, at, from, to);
        frames := sent + [Heartbeat];
        if maxFrames.Some? && |frames| >= maxFrames.value { stop := Some(FrameLimit); }
      }
    }

    /** Streams the events behind a cursor over any run of polls, exactly as `Streams` says. What was sent is
        one gapless run of the log, in order and without repeats, starting right behind the cursor; every
        event was audited first; and a run that was not cut short has sent everything. */
    method StreamFrames(lastEventId: Option<string>, connection: string, maxFrames: Option<nat>, known: seq<string>,
                        script: seq<Poll>, env: Environment)
        returns (frames: seq<Frame>, end: End, ghost from: nat, ghost to: nat, ghost rounds: nat, ghost polled: nat)
      requires store.Valid() && Keyed(digest, store.events)
      modifies store
      ensures store.Valid() && Keyed(digest, store.events)
      ensures old(store.events) <= store.events && old(store.deliveries) <= store.deliveries
      ensures end.Refused? ==>
        && frames == [] && store.deliveries == old(store.deliveries)
        && (ReadCursor(lastEventId, |store.events|) == Err(end.error) || Clash(digest, store.events, known))
      ensures !end.Refused? ==>
        && from <= to <= |store.events|
        && ReadCursor(lastEventId, |store.events|) == Ok(from)
        && AlertsOf(frames) == Range(store.events, from, to)
        && (forall a | a in known :: HasKey(store.events, digest(a)))
      ensures !end.Refused? ==>
        Streams(digest, Synced(digest, old(store.events), known, env.clock, |known|), from, script, env.clock,
                maxFrames, frames, end, rounds)
      ensures !end.Refused? ==>
        && PickedUp(digest, Synced(digest, old(store.events), known, env.clock, |known|), script, env.clock, rounds, polled,
                    store.events, end)
        && (forall j, a | 0 <= j < polled && a in script[j].alerts :: HasKey(store.events, digest(a)))
      ensures end.ScriptOver? || end.Disconnected? ==> (rounds > 0 ==> to == |store.events|)
      ensures end.Failed? ==>
        || Clash(digest, store.events, script[rounds].alerts)
        || (polled == rounds + 1 && AuditLost(env, store.deliveries, to - from))
      ensures AllAudited(store.deliveries, connection, AlertsOf(frames))
      ensures FreshIds(env, old(store.deliveries)) ==>
        |store.deliveries| == |old(store.deliveries)| + |AlertsOf(frames)|
      ensures maxFrames.Some? ==> |frames| <= maxFrames.value
    {
      hide Range, ReadCursor, FreshIds, AddedIds, UniqueDeliveries, UniqueKeys, AllAudited, Keyed, AlertsOf,
           Clash, Synced, AuditLost, HasKey, HasDelivery, Streams, LogAfter, PickedUp;
      frames, from, to, rounds, polled := [], 0, 0, 0, 0;
      EmptyRun(store.deliveries, connection, env);
      var synced := SyncAlerts(known, env.clock);
      if synced.Err? { return frames, Refused(synced.error), from, to, rounds, polled; }
      SyncedGrows(digest, old(store.events), known, env.clock, |known|);
      var read := store.ValidateCursor(lastEventId);
      CursorReading(lastEventId, |store.events|);
      if read.Err? { return frames, Refused(read.error), from, to, rounds, polled; }
      from := read.value;
      ghost var log := store.events;
      frames, end, to, rounds, polled := StreamPolls(lastEventId, connection, maxFrames, script, env, from);
      KeysOfPrefix(digest, log, store.events, known);
      PickedUpKeys(digest, log, script, env.clock, rounds, polled, store.events, end);
    }

    /** The polling loop behind a valid cursor. */
    method StreamPolls(lastEventId: Option<string>, connection: string, maxFrames: Option<nat>, script: seq<Poll>,
                       env: Environment, ghost from: nat)
        returns (frames: seq<Frame>, end: End, ghost to: nat, ghost rounds: nat, ghost polled: nat)
      requires store.Valid() && Keyed(digest, store.events)
      requires ReadCursor(lastEventId, |store.events|) == Ok(from)
      modifies store
      ensures store.Valid() && Keyed(digest, store.events)
      ensures old(store.events) <= store.events && old(store.deliveries) <= store.deliveries
      ensures !end.Refused?
      ensures from <= to <= |store.events| && ReadCursor(lastEventId, |store.events|) == Ok(from)
      ensures AlertsOf(frames) == Range(store.events, from, to)
      ensures Streams(digest, old(store.events), from, script, env.clock, maxFrames, frames, end, rounds)
      ensures PickedUp(digest, old(store.events), script, env.clock, rounds, polled, store.events, end)
      ensures end.ScriptOver? || end.Disconnected? ==> (rounds > 0 ==> to == |store.events|)
      ensures end.Failed? ==>
        || Clash(digest, store.events, script[rounds].alerts)
        || (polled == rounds + 1 && AuditLost(env, store.deliveries, to - from))
      ensures AllAudited(store.deliveries, connection, AlertsOf(frames))
      ensures FreshIds(env, old(store.deliveries)) ==>
        |store.deliveries| == |old(store.deliveries)| + |AlertsOf(frames)|
      ensures maxFrames.Some? ==> |frames| <= maxFrames.value
    {
      hide *;
      ghost var log := store.events;
      frames, to := [], from;
      EmptyRun(store.deliveries, connection, env);
      StreamStarts(log, lastEventId, from);
      ProgressStarts(digest, log, from, script, env.clock);
      var cursor, audits, k := lastEventId, 0, 0;
      end, polled := ScriptOver, 0;
      while k < |script| && end == ScriptOver
        invariant k <= |script| && !end.Refused?
        invariant store.Valid() && Keyed(digest, store.events)
        invariant log <= store.events && old(store.deliveries) <= store.deliveries
        invariant audits == to - from && from <= to
        invariant Streamed(store.events, frames, lastEventId, cursor, from, to)
        invariant AllAudited(store.deliveries, connection, AlertsOf(frames))
        invariant FreshIds(env, old(store.deliveries)) ==>
          AddedIds(old(store.deliveries), store.deliveries, env, audits)
        invariant maxFrames.Some? ==> |frames| <= maxFrames.value
        invariant end.ScriptOver? || end.Disconnected? ==>
          Progress(digest, log, from, script, env.clock, k, store.events, frames, to)
        invariant end.ScriptOver? || Streams(digest, log, from, script, env.clock, maxFrames, frames, end, k)
        invariant end.Failed? ==> k < |script|
        invariant end.Failed? ==>
          || Clash(digest, store.events, script[k].alerts)
          || (polled == k + 1 && AuditLost(env, store.deliveries, audits))
        invariant end.ScriptOver? || PickedUp(digest, log, script, env.clock, k, polled, store.events, end)
        decreases |script| - k, end == ScriptOver
      {
        if maxFrames.Some? && |frames| >= maxFrames.value {
          end := FrameLimit;
          StopsHere(digest, log, from, script, env.clock, maxFrames, k, store.events, frames, to, end);
          polled := k;
        } else if script[k].disconnected {
          end := Disconnected;
          StopsHere(digest, log, from, script, env.clock, maxFrames, k, store.events, frames, to, end);
          polled := k;
        } else {
          ghost var before, sent := store.events, frames;
          var count, stop;
          frames, cursor, count, stop := Round(script[k], connection, maxFrames, frames, cursor, audits, env,
                                               lastEventId, from, to, old(store.deliveries));
          if stop.Some? {
            end := stop.value;
            BreaksOff(digest, log, from, script, env.clock, maxFrames, k, before, sent, to, frames, end);
            polled := PicksUp(digest, log, from, script, env.clock, k, before, sent, to, store.events, end);
          } else {
            Advances(digest, log, from, script, env.clock, k, before, sent, to, store.events, frames);
            k := k + 1;
          }
          to, audits := to + count, audits + count;
        }
      }
      rounds := k;
      if end == ScriptOver {
        StopsHere(digest, log, from, script, env.clock, maxFrames, k, store.events, frames, to, end);
        polled := k;
      }
      ProgressReached(digest, log, from, script, env.clock, k, store.events, frames, to);
      StreamedReads(store.events, frames, lastEventId, cursor, from, to);
      AddedCount(old(store.deliveries), store.deliveries, env, audits);
    }
  }

  /** The state between two rounds. */
  ghost predicate Progress(h: Digest, log: seq<Projection>, from: nat, script: seq<Poll>, clock: nat -> int, n: nat,
                           events: seq<Projection>, frames: seq<Frame>, to: nat)
  {
    && n <= |script| && (forall j | 0 <= j < n :: !script[j].disconnected)
    && events == LogAfter(h, log, script, clock, n)
    && frames == Transcript(h, log, from, script, clock, n)
    && to == Reached(h, log, from, script, clock, n)
  }

  lemma ProgressStarts(h: Digest, log: seq<Projection>, from: nat, script: seq<Poll>, clock: nat -> int)
    ensures Progress(h, log, from, script, clock, 0, log, [], from)
  {
  }

  lemma ProgressReached(h: Digest, log: seq<Projection>, from: nat, script: seq<Poll>, clock: nat -> int, n: nat,
                        events: seq<Projection>, frames: seq<Frame>, to: nat)
    ensures Progress(h, log, from, script, clock, n, events, frames, to) ==>
      && n <= |script| && events == LogAfter(h, log, script, clock, n)
      && (n > 0 ==> to == |events|)
  {
  }

  lemma Advances(h: Digest, log: seq<Projection>, from: nat, script: seq<Poll>, clock: nat -> int, n: nat,
                 events: seq<Projection>, frames: seq<Frame>, to: nat, next: seq<Projection>, longer: seq<Frame>)
    requires Progress(h, log, from, script, clock, n, events, frames, to)
    requires n < |script| && !script[n].disconnected
    requires next == Synced(h, events, script[n].alerts, clock, |script[n].alerts|)
    requires longer == frames + RoundFrames(next, to, script[n].heartbeatDue)
    ensures Progress(h, log, from, script, clock, n + 1, next, longer, |next|)
  {
    hide Synced, RoundFrames;
  }

  lemma StopsHere(h: Digest, log: seq<Projection>, from: nat, script: seq<Poll>, clock: nat -> int, limit: Option<nat>,
                  n: nat, events: seq<Projection>, frames: seq<Frame>, to: nat, end: End)
    requires Progress(h, log, from, script, clock, n, events, frames, to)
    requires match end
      case ScriptOver => n == |script|
      case Disconnected => n < |script| && script[n].disconnected
      case FrameLimit => n < |script| && limit == Some(|frames|)
      case _ => false
    ensures Streams(h, log, from, script, clock, limit, frames, end, n)
    ensures PickedUp(h, log, script, clock, n, n, events, end)
  {
    hide LogAfter, RoundFrames;
  }

  /** How many polls a connection picked up whose last round broke off. */
  lemma PicksUp(h: Digest, log: seq<Projection>, from: nat, script: seq<Poll>, clock: nat -> int, n: nat,
                before: seq<Projection>, frames: seq<Frame>, to: nat, events: seq<Projection>, end: End)
      returns (polled: nat)
    requires Progress(h, log, from, script, clock, n, before, frames, to) && n < |script| && before <= events
    requires end.Failed? || end == FrameLimit
    requires var next := Synced(h, before, script[n].alerts, clock, |script[n].alerts|);
      events == next || (end.Failed? && Clash(h, events, script[n].alerts))
    ensures PickedUp(h, log, script, clock, n, polled, events, end)
    ensures events == Synced(h, before, script[n].alerts, clock, |script[n].alerts|) ==> polled == n + 1
  {
    hide Synced, Clash, Transcript;
    polled := if events == Synced(h, before, script[n].alerts, clock, |script[n].alerts|) then n + 1 else n;
  }

  lemma BreaksOff(h: Digest, log: seq<Projection>, from: nat, script: seq<Poll>, clock: nat -> int, limit: Option<nat>,
                  n: nat, events: seq<Projection>, sent: seq<Frame>, to: nat, frames: seq<Frame>, end: End)
    requires Progress(h, log, from, script, clock, n, events, sent, to)
    requires n < |script| && !script[n].disconnected
    requires var next := Synced(h, events, script[n].alerts, clock, |script[n].alerts|);
      sent <= frames <= sent + RoundFrames(next, to, script[n].heartbeatDue)
    requires end.Failed? || (end == FrameLimit && limit == Some(|frames|))
    ensures Streams(h, log, from, script, clock, limit, frames, end, n)
  {
    hide Synced, RoundFrames;
  }

  lemma KeysOfPrefix(h: Digest, older: seq<Projection>, newer: seq<Projection>, known: seq<string>)
    requires older <= newer && forall i | 0 <= i < |known| :: HasKey(older, h(known[i]))
    ensures forall a | a in known :: HasKey(newer, h(a))
  {
    hide HasKey;
    forall a | a in known ensures HasKey(newer, h(a)) {
      var i :| 0 <= i < |known| && known[i] == a;
      KeysStay(older, newer, h(a));
    }
  }

  /** Why a connection ended, when it did not end with its script. */
  ghost predicate EndExplained(h: Digest, events: seq<Projection>, deliveries: seq<Delivery>, known: seq<string>,
                               script: seq<Poll>, env: Environment, end: End)
  {
    match end
    case ScriptOver => true
    case Disconnected => exists j :: 0 <= j < |script| && script[j].disconnected
    case Failed(_) =>
      || (exists j :: 0 <= j < |script| && Clash(h, events, script[j].alerts))
      || (exists n: nat :: AuditLost(env, deliveries, n))
    case Refused(_) => Clash(h, events, known)
    case FrameLimit => false
  }

  /** How far a connection got with its polls, by the way it ended. */
  ghost predicate PolledUntil(script: seq<Poll>, end: End, polled: nat) {
    && polled <= |script|
    && (end.ScriptOver? ==> polled == |script|)
    && (end.Disconnected? ==> polled < |script| && script[polled].disconnected)
  }

  /** Every alert of the first `polled` polls is in the log. */
  ghost predicate Holds(h: Digest, events: seq<Projection>, script: seq<Poll>, polled: nat)
    requires polled <= |script|
  {
    forall j, a | 0 <= j < polled && a in script[j].alerts :: HasKey(events, h(a))
  }

  /** A client that loses its connection, has seen any number of the events sent, and comes back with the id of
      the last one it saw, receives over both connections one gapless run of the log without repeats; when the
      second connection runs its course, it ends at the newest event. */
  method Reconnect(service: StreamService, lastEventId: Option<string>, connections: (string, string),
                   known: seq<string>, first: seq<Poll>, second: seq<Poll>, seen: nat, env: (Environment, Environment))
      returns (before: seq<StreamEvent>, after: seq<StreamEvent>, ends: (End, End), ghost sent: seq<StreamEvent>,
               ghost from: nat, ghost to: nat, ghost polled: (nat, nat))
    requires service.store.Valid() && Keyed(service.digest, service.store.events)
    modifies service.store
    ensures before == sent[..MinInt(seen, |sent|)]
    ensures ReadCursor(lastEventId, |service.store.events|).Ok? ==>
      && EndExplained(service.digest, service.store.events, service.store.deliveries, known, first, env.0, ends.0)
      && (!ends.0.Refused? ==>
            EndExplained(service.digest, service.store.events, service.store.deliveries, known, second, env.1, ends.1))
    ensures !ends.0.Refused? ==>
      && from + |sent| <= |service.store.events| && sent == Range(service.store.events, from, from + |sent|)
      && PolledUntil(first, ends.0, polled.0) && Holds(service.digest, service.store.events, first, polled.0)
    ensures !ends.0.Refused? && !ends.1.Refused? ==>
      && from <= to <= |service.store.events|
      && ReadCursor(lastEventId, |service.store.events|) == Ok(from)
      && before + after == Range(service.store.events, from, to)
      && (ends.1.ScriptOver? && second != [] ==> to == |service.store.events|)
      && (forall a | a in known :: HasKey(service.store.events, service.digest(a)))
      && PolledUntil(second, ends.1, polled.1) && Holds(service.digest, service.store.events, second, polled.1)
  {
    hide Range, ReadCursor, UniqueDeliveries, UniqueKeys, AllAudited, Keyed, AlertsOf, FreshIds, Clash, AuditLost,
         LogAfter, Transcript, Synced, HasKey, RoundFrames;
    ghost var mid, start, rounds, picked;
    var frames, end;
    frames, end, from, mid, rounds, picked := service.StreamFrames(lastEventId, connections.0, None, known, first, env.0);
    sent := AlertsOf(frames);
    before, after, ends, to, polled := AlertsOf(frames)[..MinInt(seen, |AlertsOf(frames)|)], [], (end, end), mid, (picked, 0);
    ghost var log, audits := service.store.events, service.store.deliveries;
    if end.Refused? { return before, after, ends, sent, from, to, polled; }
    SeenIsRange(log, from, mid, sent, |before|);
    var cursor := if before == [] then lastEventId else Some(before[|before| - 1].eventId);
    LastIdReads(log, lastEventId, from, from + |before|, before, cursor);
    frames, end, start, to, rounds, picked := service.StreamFrames(cursor, connections.1, None, known, second, env.1);
    after, ends, polled := AlertsOf(frames), (ends.0, end), (polled.0, picked);
    HeldOn(service.digest, log, service.store.events, first, polled.0);
    RangeStays(log, service.store.events, from, mid);
    CursorsAgree(log, service.store.events, cursor, from + |before|);
    CursorsAgree(log, service.store.events, lastEventId, from);
    EndStaysExplained(service.digest, log, service.store.events, audits, service.store.deliveries, known, first,
                      env.0, ends.0);
    if end.Refused? { return before, after, ends, sent, from, to, polled; }
    RangesJoin(log, service.store.events, from, from + |before|, to);
    return before, after, ends, sent, from, to, polled;
  }

  lemma SeenIsRange(events: seq<Projection>, from: nat, to: nat, sent: seq<StreamEvent>, n: nat)
    requires from <= to <= |events| && sent == Range(events, from, to) && n <= |sent|
    ensures |sent| == to - from && sent[..n] == Range(events, from, from + n)
  {
  }

  lemma RangeStays(older: seq<Projection>, newer: seq<Projection>, from: nat, to: nat)
    requires older <= newer && from <= to <= |older|
    ensures Range(newer, from, to) == Range(older, from, to)
  {
    RangesJoin(older, newer, from, to, to);
    assert Range(newer, to, to) == [];
  }

  lemma HeldOn(h: Digest, older: seq<Projection>, newer: seq<Projection>, script: seq<Poll>, polled: nat)
    requires older <= newer && polled <= |script| && Holds(h, older, script, polled)
    ensures Holds(h, newer, script, polled)
  {
    hide HasKey;
    forall j, a | 0 <= j < polled && a in script[j].alerts ensures HasKey(newer, h(a)) {
      KeysStay(older, newer, h(a));
    }
  }

  lemma EndStaysExplained(h: Digest, events: seq<Projection>, newer: seq<Projection>, deliveries: seq<Delivery>,
                          later: seq<Delivery>, known: seq<string>, script: seq<Poll>, env: Environment, end: End)
    requires events <= newer && deliveries <= later
    ensures EndExplained(h, events, deliveries, known, script, env, end) ==>
      EndExplained(h, newer, later, known, script, env, end)
  {
    forall alerts | Clash(h, events, alerts) ensures Clash(h, newer, alerts) {
      var e, a :| e in events && a in alerts && e.payload != a && h(e.payload) == h(a);
      assert e in newer;
    }
    forall n: nat | AuditLost(env, deliveries, n) ensures AuditLost(env, later, n) {
      DeliveryStays(deliveries, later, env.newId(n));
    }
  }

  lemma DeliveryStays(older: seq<Delivery>, newer: seq<Delivery>, id: string)
    requires older <= newer
    ensures HasDelivery(older, id) ==> HasDelivery(newer, id)
  {
    if HasDelivery(older, id) {
      var i :| 0 <= i < |older| && older[i].deliveryId == id;
      assert newer[i] == older[i];
    }
  }

  lemma LastIdReads(events: seq<Projection>, id: Option<string>, from: nat, to: nat, sent: seq<StreamEvent>,
                    cursor: Option<string>)
    requires from <= to <= |events| && ReadCursor(id, |events|) == Ok(from) && sent == Range(events, from, to)
    requires cursor == if sent == [] then id else Some(sent[|sent| - 1].eventId)
    ensures ReadCursor(cursor, |events|) == Ok(to)
  {
    if from < to {
      assert sent[|sent| - 1] == EventAt(events, from + (to - from - 1));
      CursorReadsDecimal(to, |events|);
    }
  }

  lemma CursorsAgree(older: seq<Projection>, newer: seq<Projection>, cursor: Option<string>, n: nat)
    requires older <= newer && ReadCursor(cursor, |older|) == Ok(n)
    ensures ReadCursor(cursor, |newer|) == Ok(n)
  {
  }
}
