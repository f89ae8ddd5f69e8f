/** The durable registry: append-only tables. The champion is never stored; it is read off the last event. */
module GovernanceLog {
  import opened Common
  import opened Governance

  datatype SessionFreeze = SessionFreeze(modelId: string, sessionId: string, version: string, frozenAt: int)

  /** The champion of every model that has an event. */
  function ChampionsOf(events: seq<Event>): (r: map<string, string>)
    ensures forall id :: LastTarget(events, id) == if id in r then Some(r[id]) else None
  {
    if events == [] then map[]
    else
      var last := events[|events| - 1];
      ChampionsOf(events[..|events| - 1])[last.modelId := last.target]
  }

  lemma ChampionsAppended(events: seq<Event>, e: Event)
    ensures ChampionsOf(events + [e]) == ChampionsOf(events)[e.modelId := e.target]
  {
    assert (events + [e])[..|events|] == events;
  }

  /** A rollback without a champion passes every check of the log: its source and the current champion
      are both absent. */
  ghost predicate RollbackWithoutChampion(identity: Approval -> string, r: Registry, modelId: string, target: string, a: Approval) {
    && ChampionOf(r, modelId).None? && (modelId, target) in r.versions
    && Verified(identity, a) && a.id !in r.used && Matches(a, Rollback, modelId, None, target)
  }

  /** What one transaction of the log checks, whichever action the approval is for. */
  predicate MayAppend(identity: Approval -> string, r: Registry, a: Approval) {
    && Verified(identity, a) && a.id !in r.used && a.source == ChampionOf(r, a.modelId)
    && (a.modelId, a.target) in r.versions
    && (if a.action.Promote? then Qualifies(r.versions[(a.modelId, a.target)], a.source, a)
        else a.source != Some(r.versions[(a.modelId, a.target)].version))
  }

  // ----- the log as an abstract machine -----

  /** The event that a call records: it names the model and target of the call, and the rest of the approval. */
  function EventFor(action: Action, modelId: string, target: string, a: Approval): Event {
    Event(action, modelId, a.source, target, a.id, a.approvedAt)
  }

  /** An insert of a version needs its parent, and meets no other version under its key. */
  predicate MayStore(r: Registry, m: ModelVersion) {
    && (m.parent.Some? ==> (m.modelId, m.parent.value) in r.versions)
    && ((m.modelId, m.version) in r.versions ==> r.versions[(m.modelId, m.version)] == m)
  }

  /** A stored session is found again before the champion is looked up. */
  predicate MayStoreFreeze(r: Registry, modelId: string, sessionId: string) {
    !Blank(sessionId) && ((modelId, sessionId) in r.frozen || ChampionOf(r, modelId).Some?)
  }

  /** Which operations the tables accept, by their own checks. */
  predicate LogAccepts(identity: Approval -> string, r: Registry, op: Op) {
    match op
    case RegisterOp(m) => MayStore(r, m)
    case PromoteOp(id, v, a) => EventFor(Promote, id, v, a) == EventOf(a) && MayAppend(identity, r, a)
    case RollbackOp(id, v, a) => EventFor(Rollback, id, v, a) == EventOf(a) && MayAppend(identity, r, a)
    case FreezeOp(id, s) => MayStoreFreeze(r, id, s)
  }

  /** What the tables hold after an operation. */
  function LogStep(identity: Approval -> string, r: Registry, op: Op): Registry {
    if !LogAccepts(identity, r, op) then r
    else
      match op
      case RegisterOp(m) => Registered(r, m)
      case PromoteOp(_, _, a) => Recorded(r, a)
      case RollbackOp(_, _, a) => Recorded(r, a)
      case FreezeOp(id, s) =>
        if (id, s) in r.frozen then r else r.(frozen := r.frozen[(id, s) := ChampionOf(r, id).value])
  }

  function LogAfter(identity: Approval -> string, ops: seq<Op>): Registry {
    if ops == [] then EMPTY_REGISTRY else LogStep(identity, LogAfter(identity, ops[..|ops| - 1]), ops[|ops| - 1])
  }

  /** Versions are filed under their own names and stored after their parents, and a frozen session belongs to
      a model that has a champion. */
  ghost predicate Consistent(r: Registry) {
    && Keyed(r.versions)
    && (forall k | k in r.versions && r.versions[k].parent.Some? :: (k.0, r.versions[k].parent.value) in r.versions)
    && (forall k | k in r.frozen :: k.0 in r.champions)
  }

  /** Every operation of either registry keeps it consistent. */
  lemma StepsKeepConsistent(identity: Approval -> string, r: Registry, op: Op)
    requires Consistent(r)
    ensures Consistent(Step(identity, r, op)) && Consistent(LogStep(identity, r, op))
  {
    hide MayPromote, MayRollback, MayAppend, EventFor, Blank;
  }

  lemma {:induction false} RunsAreConsistent(identity: Approval -> string, ops: seq<Op>)
    ensures Consistent(After(identity, ops)) && Consistent(LogAfter(identity, ops))
  {
    hide Step, LogStep;
    if ops != [] {
      RunsAreConsistent(identity, ops[..|ops| - 1]);
      StepsKeepConsistent(identity, After(identity, ops[..|ops| - 1]), ops[|ops| - 1]);
      StepsKeepConsistent(identity, LogAfter(identity, ops[..|ops| - 1]), ops[|ops| - 1]);
    }
  }

  /** The table constraints, and that the log holds what its own checks let in. */
  ghost predicate TablesSound(models: map<Key, ModelVersion>, approvals: map<string, Approval>, events: seq<Event>,
                              freezes: map<Key, SessionFreeze>) {
    && Keyed(models) && Rooted(models)
    && (forall e | e in events :: e.approvalId in approvals && e == EventOf(approvals[e.approvalId]))
    && (forall a | a in approvals :: approvals[a].id == a && EventOf(approvals[a]) in events)
    && (forall e | e in events :: (e.modelId, e.target) in models)
    && (forall k | k in freezes ::
          && freezes[k].modelId == k.0 && freezes[k].sessionId == k.1
          && (k.0, freezes[k].version) in models && LastTarget(events, k.0).Some?)
  }

  lemma ActionKeepsTables(models: map<Key, ModelVersion>, approvals: map<string, Approval>, events: seq<Event>,
                          freezes: map<Key, SessionFreeze>, a: Approval)
    requires TablesSound(models, approvals, events, freezes)
    requires a.id !in approvals && (a.modelId, a.target) in models
    ensures TablesSound(models, approvals[a.id := a], events + [EventOf(a)], freezes)
  {
    hide Keyed, Rooted, LastTarget;
    forall id { LastTargetAppended(events, EventOf(a), id); }
    var all := events + [EventOf(a)];
    assert forall e :: e in all <==> e in events || e == EventOf(a);
  }

  lemma RegisterKeepsTables(models: map<Key, ModelVersion>, approvals: map<string, Approval>, events: seq<Event>,
                            freezes: map<Key, SessionFreeze>, m: ModelVersion)
    requires TablesSound(models, approvals, events, freezes) && (m.modelId, m.version) !in models
    requires m.parent.Some? ==> (m.modelId, m.parent.value) in models
    ensures TablesSound(models[(m.modelId, m.version) := m], approvals, events, freezes)
  {
    RegisteredIsRooted(models, m);
    hide Rooted, LastTarget;
  }

  function UsedBy(events: seq<Event>): set<string> { set e | e in events :: e.approvalId }

  lemma ApprovalsAreUsed(models: map<Key, ModelVersion>, approvals: map<string, Approval>, events: seq<Event>,
                         freezes: map<Key, SessionFreeze>)
    requires TablesSound(models, approvals, events, freezes)
    ensures approvals.Keys == UsedBy(events)
  {
    forall a | a in approvals ensures a in UsedBy(events) {
      assert EventOf(approvals[a]) in events;
    }
  }

  function FrozenVersions(freezes: map<Key, SessionFreeze>): map<Key, string> {
    map k | k in freezes :: freezes[k].version
  }

  /** The freeze table after one more freeze: a stored session keeps its row. */
  function WithFreeze(freezes: map<Key, SessionFreeze>, modelId: string, sessionId: string, champion: Option<string>,
                      now: int): map<Key, SessionFreeze>
  {
    if Blank(sessionId) || (modelId, sessionId) in freezes || champion.None? then freezes
    else freezes[(modelId, sessionId) := SessionFreeze(modelId, sessionId, champion.value, now)]
  }

  /** Every freeze names a stored version. */
  ghost predicate FreezesStored(models: map<Key, ModelVersion>, freezes: map<Key, SessionFreeze>) {
    forall k | k in freezes :: (k.0, freezes[k].version) in models
  }

  /** No stored freeze is changed or lost. */
  ghost predicate KeepsFreezes(before: map<Key, SessionFreeze>, after: map<Key, SessionFreeze>) {
    forall k | k in before :: k in after && after[k] == before[k]
  }

  /** The session is frozen, and `m` is the version it is frozen at. */
  ghost predicate FrozenAt(models: map<Key, ModelVersion>, freezes: map<Key, SessionFreeze>, key: Key, m: ModelVersion) {
    key in freezes && (key.0, freezes[key].version) in models && m == models[(key.0, freezes[key].version)]
  }

  /** The registry that the tables stand for. */
  ghost function AbsOf(models: map<Key, ModelVersion>, events: seq<Event>, freezes: map<Key, SessionFreeze>): Registry {
    Registry(models, ChampionsOf(events), FrozenVersions(freezes), events, UsedBy(events))
  }

  lemma TablesAreConsistent(models: map<Key, ModelVersion>, approvals: map<string, Approval>, events: seq<Event>,
                            freezes: map<Key, SessionFreeze>)
    requires TablesSound(models, approvals, events, freezes)
    ensures Consistent(AbsOf(models, events, freezes))
  {
    hide LastTarget, UsedBy;
    var rank: map<Key, nat>, top: nat :| Ranked(models, rank, top);
  }

  lemma FreezeKeepsTables(models: map<Key, ModelVersion>, approvals: map<string, Approval>, events: seq<Event>,
                          freezes: map<Key, SessionFreeze>, modelId: string, sessionId: string, now: int)
    requires TablesSound(models, approvals, events, freezes)
    ensures TablesSound(models, approvals, events, WithFreeze(freezes, modelId, sessionId, LastTarget(events, modelId), now))
    ensures LastTarget(events, modelId).Some? ==> (modelId, LastTarget(events, modelId).value) in models
  {
    hide Keyed, Rooted, LastTarget, Blank;
    LastTargetIsEvent(events, modelId);
  }

  lemma FrozenVersionsOf(freezes: map<Key, SessionFreeze>, key: Key, f: SessionFreeze)
    ensures FrozenVersions(freezes[key := f]) == FrozenVersions(freezes)[key := f.version]
  {
  }

  /** The freeze of the tables is the freeze step of the log. */
  lemma FreezeIsStep(identity: Approval -> string, r: Registry, models: map<Key, ModelVersion>,
                     approvals: map<string, Approval>, events: seq<Event>, freezes: map<Key, SessionFreeze>,
                     modelId: string, sessionId: string, now: int)
    requires TablesSound(models, approvals, events, freezes) && r == AbsOf(models, events, freezes)
    ensures var champion := ChampionOf(r, modelId);
      var next := WithFreeze(freezes, modelId, sessionId, champion, now);
      && TablesSound(models, approvals, events, next)
      && (champion.Some? ==> (modelId, champion.value) in models)
      && FreezesStored(models, freezes) && KeepsFreezes(freezes, next)
      && (LogAccepts(identity, r, FreezeOp(modelId, sessionId)) <==>
            !Blank(sessionId) && ((modelId, sessionId) in freezes || champion.Some?))
      && AbsOf(models, events, next) == LogStep(identity, r, FreezeOp(modelId, sessionId))
  {
    FreezeKeepsTables(models, approvals, events, freezes, modelId, sessionId, now);
    FreezesAreKept(models, approvals, events, freezes, modelId, sessionId, now);
    hide TablesSound, LastTarget, Blank, ChampionsOf, UsedBy, FreezesStored, KeepsFreezes;
    if LastTarget(events, modelId).Some? {
      FrozenVersionsOf(freezes, (modelId, sessionId),
                       SessionFreeze(modelId, sessionId, LastTarget(events, modelId).value, now));
    }
  }

  lemma FreezesAreKept(models: map<Key, ModelVersion>, approvals: map<string, Approval>, events: seq<Event>,
                       freezes: map<Key, SessionFreeze>, modelId: string, sessionId: string, now: int)
    requires TablesSound(models, approvals, events, freezes)
    ensures FreezesStored(models, freezes)
    ensures KeepsFreezes(freezes, WithFreeze(freezes, modelId, sessionId, LastTarget(events, modelId), now))
    ensures (modelId, sessionId) in freezes ==> LastTarget(events, modelId).Some?
  {
    hide Keyed, Rooted, LastTarget, Blank;
  }

  lemma FreezeLogStep(identity: Approval -> string, models: map<Key, ModelVersion>, approvals: map<string, Approval>,
                      events: seq<Event>, freezes: map<Key, SessionFreeze>, modelId: string, sessionId: string)
    requires TablesSound(models, approvals, events, freezes)
    ensures var r, op := AbsOf(models, events, freezes), FreezeOp(modelId, sessionId);
      LogStep(identity, r, op) == Governance.Step(identity, r, op)
  {
    TablesAreConsistent(models, approvals, events, freezes);
    LogStepIsStep(identity, AbsOf(models, events, freezes), FreezeOp(modelId, sessionId));
  }

  class GovernanceStore {
    const identity: Approval -> string
    var models: map<Key, ModelVersion>
    var approvals: map<string, Approval>
    var events: seq<Event>
    var freezes: map<Key, SessionFreeze>

    ghost predicate Valid()
      reads this
    {
      TablesSound(models, approvals, events, freezes)
    }

    /** The registry that the tables stand for. */
    ghost function Abs(): Registry
      reads this
    {
      AbsOf(models, events, freezes)
    }

    constructor (identity: Approval -> string)
      ensures Valid() && Abs() == EMPTY_REGISTRY && this.identity == identity
    {
      this.identity := identity;
      models, approvals, events, freezes := map[], map[], [], map[];
      new;
      assert Ranked(models, map[], 0);
    }

    method AppendModelVersion(m: ModelVersion) returns (r: Result<(), GovernanceError>)
      requires Valid()
      modifies this
      ensures Valid() && Abs() == LogStep(identity, old(Abs()), RegisterOp(m))
      ensures Abs() == Governance.Step(identity, old(Abs()), RegisterOp(m))
      ensures r.Ok? <==> LogAccepts(identity, old(Abs()), RegisterOp(m))
    {
      TablesAreConsistent(models, approvals, events, freezes);
      LogStepIsStep(identity, Abs(), RegisterOp(m));
      r := StoreModelVersion(m);
    }

    method StoreModelVersion(m: ModelVersion) returns (r: Result<(), GovernanceError>)
      requires Valid()
      modifies this`models
      ensures Valid() && Abs() == LogStep(identity, old(Abs()), RegisterOp(m))
      ensures r.Ok? <==> LogAccepts(identity, old(Abs()), RegisterOp(m))
    {
      var key := (m.modelId, m.version);
      if m.parent.Some? && (m.modelId, m.parent.value) !in models { return Err(UnknownParent); }
      if key in models {
        if models[key] != m { return Err(AuditConflict); }
        assert models == models[key := m];
        return Ok(());
      }
      RegisterKeepsTables(models, approvals, events, freezes, m);
      hide TablesSound, ChampionsOf, UsedBy, FrozenVersions;
      models := models[key := m];
      return Ok(());
    }

    method CurrentChampion(modelId: string) returns (version: Option<string>)
      ensures version == ChampionOf(Abs(), modelId)
    {
      var i := |events|;
      assert events[..i] == events;
      while i > 0
        invariant 0 <= i <= |events|
        invariant LastTarget(events, modelId) == LastTarget(events[..i], modelId)
      {
        i := i - 1;
        assert events[..i + 1][..i] == events[..i];
        if events[i].modelId == modelId { return Some(events[i].target); }
      }
      return None;
    }

    static method ValidateAction(a: Approval, target: ModelVersion, current: Option<string>)
        returns (r: Result<(), GovernanceError>)
      ensures r.Ok? <==> if a.action.Promote? then Qualifies(target, current, a) else current != Some(target.version)
    {
      if a.action.Promote? {
        if target.reportHash.None? { return Err(NoReport); }
        if a.evidenceHash != target.reportHash.value { return Err(EvidenceMismatch); }
        if a.approvedAt < target.trainedAt { return Err(PredatesChallenger); }
        if current.Some? && target.parent != current { return Err(NotDescendant); }
      } else if Some(target.version) == current {
        return Err(AlreadyChampion);
      }
      return Ok(());
    }

    /** One transaction: check the approval against the log, then insert the approval and its event. */
    method AppendAction(a: Approval, e: Event) returns (r: Result<(), GovernanceError>)
      requires Valid()
      modifies this`approvals, this`events
      ensures Valid()
      ensures r.Ok? <==> e == EventOf(a) && MayAppend(identity, old(Abs()), a)
      ensures Abs() == if r.Ok? then Recorded(old(Abs()), a) else old(Abs())
    {
      ApprovalsAreUsed(models, approvals, events, freezes);
      hide Rooted, Verified, ChampionsOf, UsedBy, LastTarget, FrozenVersions;
      if !Verified(identity, a) { return Err(IdentityMismatch); }
      if e != EventOf(a) { return Err(ApprovalMismatch); }
      if a.id in approvals { return Err(ApprovalUsed); }
      var current := CurrentChampion(e.modelId);
      if e.source != current { return Err(ApprovalMismatch); }
      if (e.modelId, e.target) !in models { return Err(UnknownVersion); }
      var valid := ValidateAction(a, models[(e.modelId, e.target)], current);
      if valid.Err? { return Err(valid.error); }
      ActionKeepsTables(models, approvals, events, freezes, a);
      ChampionsAppended(events, e);
      UsedAppended(events, e);
      approvals := approvals[a.id := a];
      events := events + [e];
      return Ok(());
    }

    method Promote(modelId: string, version: string, a: Approval) returns (r: Result<ModelVersion, GovernanceError>)
      requires Valid()
      modifies this`approvals, this`events
      ensures Valid() && Abs() == LogStep(identity, old(Abs()), PromoteOp(modelId, version, a))
      ensures Abs() == Governance.Step(identity, old(Abs()), PromoteOp(modelId, version, a))
      ensures r.Ok? <==> LogAccepts(identity, old(Abs()), PromoteOp(modelId, version, a))
      ensures r.Ok? ==> (modelId, version) in models && r.value == models[(modelId, version)]
    {
      TablesAreConsistent(models, approvals, events, freezes);
      LogStepIsStep(identity, Abs(), PromoteOp(modelId, version, a));
      ActionIsLogged(identity, Abs(), modelId, version, a);
      hide Valid, Verified, AbsOf, Recorded, MayAppend, LogAccepts, LogStep, Governance.Step;
      var done := AppendAction(a, EventFor(Action.Promote, modelId, version, a));
      r := if done.Err? then Err(done.error) else Ok(models[(modelId, version)]);
    }

    /** Agrees with the dictionary registry wherever a champion exists; without one it lets a rollback in. */
    method Rollback(modelId: string, target: string, a: Approval) returns (r: Result<ModelVersion, GovernanceError>)
      requires Valid()
      modifies this`approvals, this`events
      ensures Valid() && Abs() == LogStep(identity, old(Abs()), RollbackOp(modelId, target, a))
      ensures r.Ok? <==> LogAccepts(identity, old(Abs()), RollbackOp(modelId, target, a))
      ensures r.Ok? ==> (modelId, target) in models && r.value == models[(modelId, target)]
    {
      ActionIsLogged(identity, Abs(), modelId, target, a);
      hide Valid, Verified, ChampionsOf, UsedBy, FrozenVersions, Recorded, MayAppend, LogAccepts, LogStep;
      var done := AppendAction(a, EventFor(Action.Rollback, modelId, target, a));
      r := if done.Err? then Err(done.error) else Ok(models[(modelId, target)]);
    }

    method FreezeSession(modelId: string, sessionId: string, now: int) returns (r: Result<ModelVersion, GovernanceError>)
      requires Valid()
      modifies this`freezes
      ensures Valid() && Abs() == LogStep(identity, old(Abs()), FreezeOp(modelId, sessionId))
      ensures Abs() == Governance.Step(identity, old(Abs()), FreezeOp(modelId, sessionId))
      ensures r.Ok? <==> LogAccepts(identity, old(Abs()), FreezeOp(modelId, sessionId))
      ensures r.Ok? ==> FrozenAt(models, freezes, (modelId, sessionId), r.value)
      ensures KeepsFreezes(old(freezes), freezes)
    {
      hide TablesSound, AbsOf, WithFreeze, Blank, ChampionOf, LogAccepts, LogStep, Governance.Step, FreezesStored,
           KeepsFreezes, FrozenAt;
      var champion := CurrentChampion(modelId);
      FreezeIsStep(identity, Abs(), models, approvals, events, freezes, modelId, sessionId, now);
      FreezeLogStep(identity, models, approvals, events, freezes, modelId, sessionId);
      r := StoreFreeze(modelId, sessionId, champion, now);
    }

    /** The insert that does nothing on a stored session. */
    method StoreFreeze(modelId: string, sessionId: string, champion: Option<string>, now: int)
        returns (r: Result<ModelVersion, GovernanceError>)
      requires champion.Some? ==> (modelId, champion.value) in models
      requires FreezesStored(models, freezes)
      modifies this`freezes
      ensures freezes == WithFreeze(old(freezes), modelId, sessionId, champion, now)
      ensures r.Ok? <==> !Blank(sessionId) && ((modelId, sessionId) in old(freezes) || champion.Some?)
      ensures r.Ok? ==> FrozenAt(models, freezes, (modelId, sessionId), r.value)
    {
      hide Blank;
      var key := (modelId, sessionId);
      var error := if Blank(sessionId) then Some(BlankSession)
                   else if key !in freezes && champion.None? then Some(NoChampion) else None;
      if error.None? && key !in freezes {
        freezes := freezes[key := SessionFreeze(modelId, sessionId, champion.value, now)];
      }
      r := if error.Some? then Err(error.value) else Ok(models[(modelId, freezes[key].version)]);
    }

    method Champion(modelId: string, sessionId: Option<string>) returns (r: Result<ModelVersion, GovernanceError>)
      requires Valid()
      ensures r.Ok? <==> Governance.Champion(Abs(), modelId, sessionId).Ok?
      ensures r.Ok? ==> var v := Governance.Champion(Abs(), modelId, sessionId).value;
        (modelId, v) in models && r.value == models[(modelId, v)]
    {
      hide Rooted, Keyed;
      if sessionId.Some? && (modelId, sessionId.value) in freezes {
        return Ok(models[(modelId, freezes[(modelId, sessionId.value)].version)]);
      }
      var champion := CurrentChampion(modelId);
      if champion.None? { return Err(NoChampion); }
      ChampionIsRegistered(modelId);
      return Ok(models[(modelId, champion.value)]);
    }

    method LineageOf(modelId: string, version: string) returns (r: Result<seq<ModelVersion>, GovernanceError>)
      requires Valid()
      ensures r.Ok? <==> (modelId, version) in models
      ensures r.Ok? ==> IsLineage(models, modelId, version, r.value)
    {
      r := Lineage(models, modelId, version);
    }

    lemma ChampionIsRegistered(modelId: string)
      requires Valid()
      ensures ChampionOf(Abs(), modelId).Some? ==> (modelId, ChampionOf(Abs(), modelId).value) in models
    {
      LastTargetIsEvent(events, modelId);
    }
  }

  /** What the log checks for a rollback: the rollback of the dictionaries, or the gap without a champion. */
  lemma RollbackAppends(identity: Approval -> string, r: Registry, modelId: string, target: string, a: Approval)
    requires Keyed(r.versions)
    ensures EventFor(Rollback, modelId, target, a) == EventOf(a) && MayAppend(identity, r, a)
       <==> MayRollback(identity, r, modelId, target, a) || RollbackWithoutChampion(identity, r, modelId, target, a)
    ensures MayAppend(identity, r, a) ==> (a.modelId, a.target) in r.versions
  {
    hide Verified;
    hide Keyed;
    if (a.modelId, a.target) in r.versions { KeyedVersion(r.versions, (a.modelId, a.target)); }
  }

  lemma KeyedVersion(versions: map<Key, ModelVersion>, key: Key)
    requires Keyed(versions) && key in versions
    ensures versions[key].modelId == key.0 && versions[key].version == key.1
  {
  }

  /** The append of an action is the promote or rollback step of the log. */
  lemma ActionIsLogged(identity: Approval -> string, r: Registry, modelId: string, target: string, a: Approval)
    ensures var op, fits := PromoteOp(modelId, target, a),
                            EventFor(Promote, modelId, target, a) == EventOf(a) && MayAppend(identity, r, a);
      && (fits <==> LogAccepts(identity, r, op)) && (fits ==> (modelId, target) in r.versions)
      && LogStep(identity, r, op) == if fits then Recorded(r, a) else r
    ensures var op, fits := RollbackOp(modelId, target, a),
                            EventFor(Rollback, modelId, target, a) == EventOf(a) && MayAppend(identity, r, a);
      && (fits <==> LogAccepts(identity, r, op)) && (fits ==> (modelId, target) in r.versions)
      && LogStep(identity, r, op) == if fits then Recorded(r, a) else r
  {
    hide Verified, Recorded;
  }

  /** Wherever a champion exists, the log and the dictionaries accept the same rollbacks. */
  lemma RollbacksAgreeUnderChampion(identity: Approval -> string, r: Registry, modelId: string, target: string, a: Approval)
    ensures ChampionOf(r, modelId).Some? ==> !RollbackWithoutChampion(identity, r, modelId, target, a)
    ensures RollbackWithoutChampion(identity, r, modelId, target, a) ==> !MayRollback(identity, r, modelId, target, a)
  {
  }

  lemma UsedAppended(events: seq<Event>, e: Event)
    ensures UsedBy(events + [e]) == UsedBy(events) + {e.approvalId}
  {
  }

  lemma {:induction false} LastTargetIsEvent(events: seq<Event>, modelId: string)
    ensures LastTarget(events, modelId).Some? ==>
      exists e :: e in events && e.modelId == modelId && e.target == LastTarget(events, modelId).value
  {
    if events != [] { LastTargetIsEvent(events[..|events| - 1], modelId); }
  }

  // ----- all differences between the two registries -----

  /** The very version that is stored is registered again. */
  predicate Repeats(r: Registry, op: Op) {
    op.RegisterOp? && (op.m.modelId, op.m.version) in r.versions && r.versions[(op.m.modelId, op.m.version)] == op.m
  }

  ghost predicate GapRollback(identity: Approval -> string, r: Registry, op: Op) {
    op.RollbackOp? && RollbackWithoutChampion(identity, r, op.modelId, op.version, op.a)
  }

  /** The append checks of the log let in exactly the promotions of the dictionaries. */
  lemma PromoteAppends(identity: Approval -> string, r: Registry, modelId: string, version: string, a: Approval)
    ensures EventFor(Promote, modelId, version, a) == EventOf(a) && MayAppend(identity, r, a)
       <==> MayPromote(identity, r, modelId, version, a)
  {
    hide Verified;
  }

  lemma FreezesAgree(r: Registry, modelId: string, sessionId: string)
    requires Consistent(r)
    ensures MayStoreFreeze(r, modelId, sessionId) <==> MayFreeze(r, modelId, sessionId)
  {
    hide Keyed, Blank;
  }

  lemma RegistersDiffer(identity: Approval -> string, r: Registry, m: ModelVersion)
    requires Consistent(r)
    ensures MayStore(r, m) <==> MayRegister(r, m) || Repeats(r, RegisterOp(m))
    ensures Repeats(r, RegisterOp(m)) ==> !MayRegister(r, m) && Registered(r, m) == r
  {
    if Repeats(r, RegisterOp(m)) {
      assert r.versions == r.versions[(m.modelId, m.version) := m];
    }
  }

  /** On a consistent registry the two differ exactly when the operation repeats a stored version, which changes
      nothing, or rolls back a model that has no champion, which the tables record. */
  lemma RegistriesDifferExactly(identity: Approval -> string, r: Registry, op: Op)
    requires Consistent(r)
    ensures LogAccepts(identity, r, op) != Accepts(identity, r, op) <==> Repeats(r, op) || GapRollback(identity, r, op)
    ensures Accepts(identity, r, op) ==> LogAccepts(identity, r, op)
    ensures Repeats(r, op) ==> LogStep(identity, r, op) == r
    ensures LogStep(identity, r, op) == if GapRollback(identity, r, op) then Recorded(r, op.a) else Step(identity, r, op)
  {
    hide Verified, Recorded, MayAppend, MayPromote, MayRollback, RollbackWithoutChampion, Consistent, Registered, EventFor;
    match op
    case RegisterOp(m) => RegistersDiffer(identity, r, m);
    case PromoteOp(id, v, a) => PromoteAppends(identity, r, id, v, a);
    case RollbackOp(id, v, a) =>
      KeyedWhenConsistent(r);
      RollbackAppends(identity, r, id, v, a);
      RollbacksAgreeUnderChampion(identity, r, id, v, a);
    case FreezeOp(id, s) => FreezesAgree(r, id, s);
  }

  lemma KeyedWhenConsistent(r: Registry)
    requires Consistent(r)
    ensures Keyed(r.versions)
  {
  }

  lemma LogStepIsStep(identity: Approval -> string, r: Registry, op: Op)
    requires Consistent(r) && !op.RollbackOp?
    ensures LogStep(identity, r, op) == Step(identity, r, op)
  {
    hide Consistent, LogStep, Step;
    RegistriesDifferExactly(identity, r, op);
  }

  /** Over whole runs: until the first rollback without a champion, both registries are in the same state. */
  lemma {:induction false} RunsAgreeUntilTheGap(identity: Approval -> string, ops: seq<Op>)
    requires forall i | 0 <= i < |ops| :: !GapRollback(identity, After(identity, ops[..i]), ops[i])
    ensures LogAfter(identity, ops) == After(identity, ops)
  {
    hide Step, LogStep, GapRollback, Consistent;
    if ops != [] {
      var front, last := ops[..|ops| - 1], ops[|ops| - 1];
      forall i | 0 <= i < |front| ensures !GapRollback(identity, After(identity, front[..i]), front[i]) {
        assert front[..i] == ops[..i];
      }
      RunsAgreeUntilTheGap(identity, front);
      RunsAreConsistent(identity, front);
      RegistriesDifferExactly(identity, After(identity, front), last);
    }
  }

  /** The gap is real, whatever the identity hash: a genuine approval of a first rollback is accepted by the
      tables and refused by the dictionaries. */
  lemma RollbackGapIsReachable(identity: Approval -> string, m: ModelVersion, draft: Approval)
    requires m.parent.None?
    requires Matches(draft, Rollback, m.modelId, None, m.version)
    ensures var a := draft.(id := identity(draft.(id := "")));
      var r, op := After(identity, [RegisterOp(m)]), RollbackOp(m.modelId, m.version, a);
      LogAccepts(identity, r, op) && !Accepts(identity, r, op)
  {
    var a := draft.(id := identity(draft.(id := "")));
    assert a.(id := "") == draft.(id := "");
    assert [RegisterOp(m)][..0] == [];
    assert After(identity, []) == EMPTY_REGISTRY;
    assert After(identity, [RegisterOp(m)]) == Step(identity, EMPTY_REGISTRY, RegisterOp(m));
  }
}
