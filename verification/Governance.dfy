/** Champion governance as an abstract machine: what both registries implement. */
module Governance {
  import opened Common

  datatype ModelVersion = ModelVersion(
    modelId: string, version: string, artifactHash: string, manifestHash: string, trainedAt: int,
    reportHash: Option<string>, parent: Option<string>)

  datatype Action = Promote | Rollback

  datatype Approval = Approval(
    id: string, action: Action, modelId: string, source: Option<string>, target: string,
    approvedBy: string, approvedAt: int, evidenceHash: string, note: string)

  datatype Event = Event(
    action: Action, modelId: string, source: Option<string>, target: string, approvalId: string, occurredAt: int)

  datatype GovernanceError =
    | AlreadyRegistered | UnknownParent | UnknownVersion | NoChampion | BlankSession | IdentityMismatch
    | ApprovalUsed | ApprovalMismatch | NoReport | EvidenceMismatch | PredatesChallenger | NotDescendant
    | AlreadyChampion | AuditConflict

  type Key = (string, string)

  /** `events` is the audit trail; `frozen` maps (model, session) to the version frozen for it. */
  datatype Registry = Registry(
    versions: map<Key, ModelVersion>, champions: map<string, string>, frozen: map<Key, string>,
    events: seq<Event>, used: set<string>)

  const EMPTY_REGISTRY := Registry(map[], map[], map[], [], {})

  /** The identity of an approval is a hash of everything else in it. */
  predicate Verified(identity: Approval -> string, a: Approval) { a.id == identity(a.(id := "")) }

  function ChampionOf(r: Registry, modelId: string): Option<string> {
    if modelId in r.champions then Some(r.champions[modelId]) else None
  }

  function EventOf(a: Approval): Event { Event(a.action, a.modelId, a.source, a.target, a.id, a.approvedAt) }

  function Recorded(r: Registry, a: Approval): Registry {
    r.(champions := r.champions[a.modelId := a.target], events := r.events + [EventOf(a)], used := r.used + {a.id})
  }

  predicate MayRegister(r: Registry, m: ModelVersion) {
    && (m.modelId, m.version) !in r.versions
    && (m.parent.Some? ==> (m.modelId, m.parent.value) in r.versions)
  }

  function Registered(r: Registry, m: ModelVersion): Registry {
    r.(versions := r.versions[(m.modelId, m.version) := m])
  }

  predicate Matches(a: Approval, action: Action, modelId: string, source: Option<string>, target: string) {
    a.action == action && a.modelId == modelId && a.source == source && a.target == target
  }

  /** The approval is genuine, unused and made for exactly this change. */
  predicate Approves(identity: Approval -> string, r: Registry, a: Approval, action: Action, modelId: string, target: string) {
    Verified(identity, a) && a.id !in r.used && Matches(a, action, modelId, ChampionOf(r, modelId), target)
  }

  /** The evidence behind a promotion of `m` over the champion `current`. */
  predicate Qualifies(m: ModelVersion, current: Option<string>, a: Approval) {
    && m.reportHash == Some(a.evidenceHash) && m.trainedAt <= a.approvedAt
    && (current.Some? ==> m.parent == current)
  }

  predicate MayPromote(identity: Approval -> string, r: Registry, modelId: string, version: string, a: Approval) {
    && (modelId, version) in r.versions
    && Approves(identity, r, a, Promote, modelId, version)
    && Qualifies(r.versions[(modelId, version)], ChampionOf(r, modelId), a)
  }

  predicate MayRollback(identity: Approval -> string, r: Registry, modelId: string, target: string, a: Approval) {
    && (modelId, target) in r.versions
    && ChampionOf(r, modelId).Some? && ChampionOf(r, modelId) != Some(target)
    && Approves(identity, r, a, Rollback, modelId, target)
  }

  predicate MayFreeze(r: Registry, modelId: string, sessionId: string) {
    !Blank(sessionId) && modelId in r.champions
  }

  /** The first freeze of a session keeps the champion of that moment; later ones find it there. */
  function Frozen(r: Registry, modelId: string, sessionId: string): Registry
    requires modelId in r.champions
  {
    if (modelId, sessionId) in r.frozen then r
    else r.(frozen := r.frozen[(modelId, sessionId) := r.champions[modelId]])
  }

  function Champion(r: Registry, modelId: string, sessionId: Option<string>): Result<string, GovernanceError> {
    if sessionId.Some? && (modelId, sessionId.value) in r.frozen then Ok(r.frozen[(modelId, sessionId.value)])
    else if modelId in r.champions then Ok(r.champions[modelId])
    else Err(NoChampion)
  }

  // ----- what every run keeps -----

  /** The target of a model's last event. */
  function LastTarget(events: seq<Event>, modelId: string): Option<string> {
    if events == [] then None
    else if events[|events| - 1].modelId == modelId then Some(events[|events| - 1].target)
    else LastTarget(events[..|events| - 1], modelId)
  }

  lemma LastTargetAppended(events: seq<Event>, e: Event, modelId: string)
    ensures LastTarget(events + [e], modelId) == if e.modelId == modelId then Some(e.target) else LastTarget(events, modelId)
  {
    assert (events + [e])[..|events|] == events;
  }

  /** Each event starts from where the previous event of its model ended. */
  ghost predicate Chained(events: seq<Event>) {
    forall i | 0 <= i < |events| :: events[i].source == LastTarget(events[..i], events[i].modelId)
  }

  ghost predicate OncePerApproval(events: seq<Event>) {
    forall i, j | 0 <= i < j < |events| :: events[i].approvalId != events[j].approvalId
  }

  /** Parents are registered before their children, so a rank falls along every lineage. */
  ghost predicate Ranked(versions: map<Key, ModelVersion>, rank: map<Key, nat>, top: nat) {
    && rank.Keys == versions.Keys
    && (forall k | k in versions && versions[k].parent.Some? ::
          (k.0, versions[k].parent.value) in versions && rank[(k.0, versions[k].parent.value)] < rank[k])
    && (forall k | k in versions :: rank[k] < top)
  }

  ghost predicate Keyed(versions: map<Key, ModelVersion>) {
    forall k | k in versions :: versions[k].modelId == k.0 && versions[k].version == k.1
  }

  ghost predicate Rooted(versions: map<Key, ModelVersion>) { exists rank: map<Key, nat>, top: nat :: Ranked(versions, rank, top) }

  /** A promotion over a champion follows the lineage and rests on a validation report. */
  ghost predicate PromotionsDescend(r: Registry) {
    forall e | e in r.events ::
      && (e.modelId, e.target) in r.versions
      && (e.action.Promote? ==>
            && r.versions[(e.modelId, e.target)].reportHash.Some?
            && (e.source.Some? ==> r.versions[(e.modelId, e.target)].parent == e.source))
      && (e.action.Rollback? ==> e.source.Some? && e.source.value != e.target)
  }

  /** The used approvals are those of the events. */
  ghost predicate UsesItsApprovals(events: seq<Event>, used: set<string>) {
    forall a :: a in used <==> exists e :: e in events && e.approvalId == a
  }

  ghost predicate Sound(r: Registry) {
    && Keyed(r.versions) && Rooted(r.versions)
    && Chained(r.events) && OncePerApproval(r.events) && PromotionsDescend(r)
    && (forall id :: ChampionOf(r, id) == LastTarget(r.events, id))
    && (forall id | id in r.champions :: (id, r.champions[id]) in r.versions)
    && (forall k | k in r.frozen :: (k.0, r.frozen[k]) in r.versions)
    && UsesItsApprovals(r.events, r.used)
  }

  lemma EmptyIsSound()
    ensures Sound(EMPTY_REGISTRY)
  {
    assert Ranked(EMPTY_REGISTRY.versions, map[], 0);
  }

  lemma RegisteredIsRooted(versions: map<Key, ModelVersion>, m: ModelVersion)
    requires Rooted(versions) && (m.modelId, m.version) !in versions
    requires m.parent.Some? ==> (m.modelId, m.parent.value) in versions
    ensures Rooted(versions[(m.modelId, m.version) := m])
  {
    var k := (m.modelId, m.version);
    var rank: map<Key, nat>, top: nat :| Ranked(versions, rank, top);
    RankExtended(versions, rank, top, k, m);
  }

  lemma RankExtended(versions: map<Key, ModelVersion>, rank: map<Key, nat>, top: nat, k: Key, m: ModelVersion)
    requires Ranked(versions, rank, top) && k !in versions
    requires m.parent.Some? ==> (k.0, m.parent.value) in versions
    ensures Ranked(versions[k := m], rank[k := top], top + 1)
  {
  }

  lemma RegisterKeepsSound(r: Registry, m: ModelVersion)
    requires Sound(r) && MayRegister(r, m)
    ensures Sound(Registered(r, m))
  {
    hide Rooted, Chained, OncePerApproval, LastTarget, PromotionsDescend, Keyed, UsesItsApprovals;
    RegisteredIsRooted(r.versions, m);
    RegisterKeepsDescent(r, m);
    assert forall id :: ChampionOf(Registered(r, m), id) == ChampionOf(r, id);
  }

  lemma RegisterKeepsDescent(r: Registry, m: ModelVersion)
    requires Keyed(r.versions) && PromotionsDescend(r) && MayRegister(r, m)
    ensures Keyed(Registered(r, m).versions) && PromotionsDescend(Registered(r, m))
  {
  }

  lemma ChainedAppended(events: seq<Event>, e: Event)
    requires Chained(events) && e.source == LastTarget(events, e.modelId)
    ensures Chained(events + [e])
  {
    var all := events + [e];
    forall i | 0 <= i < |all| ensures all[i].source == LastTarget(all[..i], all[i].modelId) {
      assert all[..i] == if i < |events| then events[..i] else events;
    }
  }

  /** What promote and rollback have checked when they record an approval. */
  ghost predicate Recordable(r: Registry, a: Approval) {
    && a.id !in r.used && a.source == ChampionOf(r, a.modelId)
    && (a.modelId, a.target) in r.versions
    && (a.action.Promote? ==>
          && r.versions[(a.modelId, a.target)].reportHash.Some?
          && (a.source.Some? ==> r.versions[(a.modelId, a.target)].parent == a.source))
    && (a.action.Rollback? ==> a.source.Some? && a.source.value != a.target)
  }

  lemma RecordKeepsTrail(r: Registry, a: Approval)
    requires Sound(r) && Recordable(r, a)
    ensures Chained(Recorded(r, a).events)
    ensures forall id :: ChampionOf(Recorded(r, a), id) == LastTarget(Recorded(r, a).events, id)
  {
    var e, next := EventOf(a), Recorded(r, a);
    hide Rooted, Keyed, OncePerApproval, PromotionsDescend, LastTarget, Chained, UsesItsApprovals;
    forall id ensures ChampionOf(next, id) == LastTarget(next.events, id) {
      LastTargetAppended(r.events, e, id);
      assert ChampionOf(r, id) == LastTarget(r.events, id);
    }
    ChainedAppended(r.events, e);
  }

  lemma RecordKeepsApprovals(r: Registry, a: Approval)
    requires Sound(r) && a.id !in r.used
    ensures OncePerApproval(Recorded(r, a).events)
    ensures UsesItsApprovals(Recorded(r, a).events, Recorded(r, a).used)
  {
    var e, next := EventOf(a), Recorded(r, a);
    hide Rooted, Keyed, PromotionsDescend, LastTarget, Chained;
    assert forall i | 0 <= i < |r.events| :: r.events[i] in r.events;
    assert forall x :: x in next.events <==> x in r.events || x == e;
  }

  /** A recorded approval that was checked keeps the registry sound. */
  lemma RecordKeepsSound(r: Registry, a: Approval)
    requires Sound(r) && Recordable(r, a)
    ensures Sound(Recorded(r, a))
  {
    RecordKeepsTrail(r, a);
    RecordKeepsApprovals(r, a);
    RecordKeepsDescent(r, a);
    hide Rooted, Keyed, LastTarget, Chained, OncePerApproval, ChampionOf, PromotionsDescend, UsesItsApprovals;
  }

  lemma RecordKeepsDescent(r: Registry, a: Approval)
    requires PromotionsDescend(r) && Recordable(r, a)
    ensures PromotionsDescend(Recorded(r, a))
  {
    hide ChampionOf;
    assert forall x :: x in Recorded(r, a).events <==> x in r.events || x == EventOf(a);
  }

  datatype Op =
    | RegisterOp(m: ModelVersion)
    | PromoteOp(modelId: string, version: string, a: Approval)
    | RollbackOp(modelId: string, version: string, a: Approval)
    | FreezeOp(modelId: string, sessionId: string)

  /** One operation; a refused one changes nothing. */
  function Step(identity: Approval -> string, r: Registry, op: Op): Registry {
    match op
    case RegisterOp(m) => if MayRegister(r, m) then Registered(r, m) else r
    case PromoteOp(id, v, a) => if MayPromote(identity, r, id, v, a) then Recorded(r, a) else r
    case RollbackOp(id, v, a) => if MayRollback(identity, r, id, v, a) then Recorded(r, a) else r
    case FreezeOp(id, s) => if MayFreeze(r, id, s) then Frozen(r, id, s) else r
  }

  /** Which operations the dictionary registry accepts. */
  predicate Accepts(identity: Approval -> string, r: Registry, op: Op) {
    match op
    case RegisterOp(m) => MayRegister(r, m)
    case PromoteOp(id, v, a) => MayPromote(identity, r, id, v, a)
    case RollbackOp(id, v, a) => MayRollback(identity, r, id, v, a)
    case FreezeOp(id, s) => MayFreeze(r, id, s)
  }

  lemma FreezeKeepsDescent(r: Registry, modelId: string, sessionId: string)
    requires PromotionsDescend(r) && modelId in r.champions
    ensures PromotionsDescend(Frozen(r, modelId, sessionId))
  {
  }

  lemma FreezeKeepsSound(r: Registry, modelId: string, sessionId: string)
    requires Sound(r) && MayFreeze(r, modelId, sessionId)
    ensures Sound(Frozen(r, modelId, sessionId))
  {
    hide Rooted, Keyed, Chained, OncePerApproval, LastTarget, PromotionsDescend, UsesItsApprovals;
    assert PromotionsDescend(Frozen(r, modelId, sessionId)) by { FreezeKeepsDescent(r, modelId, sessionId); }
  }

  lemma StepKeepsSound(identity: Approval -> string, r: Registry, op: Op)
    requires Sound(r)
    ensures Sound(Step(identity, r, op))
  {
    hide Sound, Recorded, Registered, Frozen;
    match op
    case RegisterOp(m) => if MayRegister(r, m) { RegisterKeepsSound(r, m); }
    case PromoteOp(id, v, a) => if MayPromote(identity, r, id, v, a) { RecordKeepsSound(r, a); }
    case RollbackOp(id, v, a) => if MayRollback(identity, r, id, v, a) { RecordKeepsSound(r, a); }
    case FreezeOp(id, s) => if MayFreeze(r, id, s) { FreezeKeepsSound(r, id, s); }
  }

  function After(identity: Approval -> string, ops: seq<Op>): Registry {
    if ops == [] then EMPTY_REGISTRY else Step(identity, After(identity, ops[..|ops| - 1]), ops[|ops| - 1])
  }

  /** Every reachable registry is sound. */
  lemma {:induction false} ReachableIsSound(identity: Approval -> string, ops: seq<Op>)
    ensures Sound(After(identity, ops))
  {
    hide Sound, Step;
    if ops == [] {
      EmptyIsSound();
    } else {
      ReachableIsSound(identity, ops[..|ops| - 1]);
      StepKeepsSound(identity, After(identity, ops[..|ops| - 1]), ops[|ops| - 1]);
    }
  }

  lemma StepKeepsHistory(identity: Approval -> string, r: Registry, op: Op)
    ensures var next := Step(identity, r, op);
      && r.events <= next.events
      && (forall k | k in r.versions :: k in next.versions && next.versions[k] == r.versions[k])
      && (forall k | k in r.frozen :: k in next.frozen && next.frozen[k] == r.frozen[k])
      && (forall k | k in next.frozen && k !in r.frozen ::
            && op == FreezeOp(k.0, k.1) && k.0 in r.champions && next.frozen[k] == r.champions[k.0])
  {
    hide Verified, Blank;
  }

  /** A session is frozen at the champion of that moment, and never changes afterwards. */
  lemma {:induction false} FrozenSessionIsChampionAtFreeze(identity: Approval -> string, ops: seq<Op>, k: Key)
    requires k in After(identity, ops).frozen
    ensures exists i :: 0 <= i < |ops| && FrozenBy(identity, ops, k, i)
  {
    var n := |ops| - 1;
    var front := ops[..n];
    StepKeepsHistory(identity, After(identity, front), ops[n]);
    hide Step;
    if k in After(identity, front).frozen {
      FrozenSessionIsChampionAtFreeze(identity, front, k);
      var i :| 0 <= i < |front| && FrozenBy(identity, front, k, i);
      assert front[..i] == ops[..i];
      assert FrozenBy(identity, ops, k, i);
    } else {
      assert FrozenBy(identity, ops, k, n);
    }
  }

  /** Operation `i` froze the session at the champion it found, and that is still what is frozen. */
  ghost predicate FrozenBy(identity: Approval -> string, ops: seq<Op>, k: Key, i: int)
    requires 0 <= i < |ops| && k in After(identity, ops).frozen
  {
    && ops[i] == FreezeOp(k.0, k.1)
    && k !in After(identity, ops[..i]).frozen
    && k.0 in After(identity, ops[..i]).champions
    && After(identity, ops).frozen[k] == After(identity, ops[..i]).champions[k.0]
  }

  /** The operation asks for exactly this event with a genuine approval, and a promotion with the evidence of the
      version's own report, given after its training. */
  ghost predicate Backs(identity: Approval -> string, versions: map<Key, ModelVersion>, op: Op, e: Event) {
    match op
    case PromoteOp(id, v, a) =>
      && e == Event(Promote, id, a.source, v, a.id, a.approvedAt)
      && a.id == identity(a.(id := "")) && a.action == Promote && a.modelId == id && a.target == v
      && (id, v) in versions
      && versions[(id, v)].reportHash == Some(a.evidenceHash) && versions[(id, v)].trainedAt <= a.approvedAt
    case RollbackOp(id, v, a) =>
      && e == Event(Rollback, id, a.source, v, a.id, a.approvedAt)
      && a.id == identity(a.(id := "")) && a.action == Rollback && a.modelId == id && a.target == v
    case _ => false
  }

  ghost predicate Backed(identity: Approval -> string, versions: map<Key, ModelVersion>, ops: seq<Op>, e: Event) {
    exists j :: 0 <= j < |ops| && Backs(identity, versions, ops[j], e)
  }

  lemma StepIsBacked(identity: Approval -> string, r: Registry, op: Op)
    ensures var next := Step(identity, r, op);
      && (next.events == r.events || exists e :: next.events == r.events + [e] && Backs(identity, r.versions, op, e))
      && (forall k | k in next.versions && k !in r.versions ::
            op == RegisterOp(next.versions[k]) && k == (op.m.modelId, op.m.version))
  {
    hide Blank;
    if op.PromoteOp? || op.RollbackOp? {
      var next := Step(identity, r, op);
      if next != r { assert next.events == r.events + [EventOf(op.a)]; }
    }
  }

  ghost predicate Genuine(identity: Approval -> string, r: Registry, ops: seq<Op>) {
    && (forall e | e in r.events :: Backed(identity, r.versions, ops, e))
    && (forall k | k in r.versions ::
          RegisterOp(r.versions[k]) in ops && k == (r.versions[k].modelId, r.versions[k].version))
  }

  lemma GenuineStep(identity: Approval -> string, r: Registry, ops: seq<Op>, op: Op)
    requires Genuine(identity, r, ops)
    ensures Genuine(identity, Step(identity, r, op), ops + [op])
  {
    StepIsBacked(identity, r, op);
    StepKeepsHistory(identity, r, op);
    hide Step;
    var next, all := Step(identity, r, op), ops + [op];
    assert all[|ops|] == op;
    forall e | e in next.events ensures Backed(identity, next.versions, all, e) {
      if e in r.events {
        assert Backed(identity, r.versions, ops, e);
        var j :| 0 <= j < |ops| && Backs(identity, r.versions, ops[j], e);
        assert Backs(identity, next.versions, all[j], e);
      } else {
        assert Backs(identity, next.versions, all[|ops|], e);
      }
    }
  }

  /** Every event of a reachable registry was asked for with a genuine approval, and every version was registered. */
  lemma {:induction false} TrailIsGenuine(identity: Approval -> string, ops: seq<Op>)
    ensures Genuine(identity, After(identity, ops), ops)
  {
    hide Genuine, Step;
    if ops == [] {
      NothingIsGenuine(identity);
    } else {
      var n := |ops| - 1;
      TrailIsGenuine(identity, ops[..n]);
      GenuineStep(identity, After(identity, ops[..n]), ops[..n], ops[n]);
      assert ops == ops[..n] + [ops[n]];
    }
  }

  lemma NothingIsGenuine(identity: Approval -> string)
    ensures Genuine(identity, EMPTY_REGISTRY, [])
  {
  }

  // ----- lineage -----

  /** Registered versions of one model, each the parent of the one before it. */
  ghost predicate IsPath(versions: map<Key, ModelVersion>, modelId: string, path: seq<ModelVersion>) {
    && path != []
    && (forall i | 0 <= i < |path| ::
          (modelId, path[i].version) in versions && versions[(modelId, path[i].version)] == path[i])
    && (forall i | 0 < i < |path| :: path[i - 1].parent == Some(path[i].version))
  }

  /** The chain of parents from a version to its root, without repeats. */
  ghost predicate IsLineage(versions: map<Key, ModelVersion>, modelId: string, version: string, chain: seq<ModelVersion>) {
    && IsPath(versions, modelId, chain)
    && chain[0].version == version
    && chain[|chain| - 1].parent.None?
    && (forall i, j | 0 <= i < j < |chain| :: chain[i].version != chain[j].version)
  }

  lemma {:induction false} RankFallsAlongPath(versions: map<Key, ModelVersion>, rank: map<Key, nat>, top: nat, modelId: string,
                                              path: seq<ModelVersion>)
    requires Ranked(versions, rank, top) && IsPath(versions, modelId, path)
    ensures forall i | 0 <= i < |path| - 1 ::
      rank[(modelId, path[i].version)] > rank[(modelId, path[|path| - 1].version)]
    ensures forall i, j | 0 <= i < j < |path| :: path[i].version != path[j].version
  {
    if |path| > 1 {
      var n := |path| - 1;
      RankFallsAlongPath(versions, rank, top, modelId, path[..n]);
      assert path[n - 1].parent == Some(path[n].version);
    }
  }

  /** Walks to the root. The source's cycle test can never fire on a sound registry. */
  method Lineage(versions: map<Key, ModelVersion>, modelId: string, version: string)
      returns (r: Result<seq<ModelVersion>, GovernanceError>)
    requires Keyed(versions) && Rooted(versions)
    ensures r.Ok? <==> (modelId, version) in versions
    ensures r.Ok? ==> IsLineage(versions, modelId, version, r.value)
    ensures r.Err? ==> r.error == UnknownVersion
  {
    if (modelId, version) !in versions { return Err(UnknownVersion); }
    ghost var rank: map<Key, nat>, top: nat :| Ranked(versions, rank, top);
    var lineage: seq<ModelVersion> := [];
    var seen: set<string> := {};
    var current := versions[(modelId, version)];
    while true
      invariant IsPath(versions, modelId, lineage + [current]) && (lineage + [current])[0].version == version
      invariant (modelId, current.version) in versions && versions[(modelId, current.version)] == current
      invariant seen == set m | m in lineage :: m.version
      decreases rank[(modelId, current.version)]
    {
      ghost var path := lineage + [current];
      RankFallsAlongPath(versions, rank, top, modelId, path);
      assert path[|lineage|] == current;
      assert current.version !in seen by {
        forall m | m in lineage ensures m.version != current.version {
          var i :| 0 <= i < |lineage| && lineage[i] == m;
          assert path[i] == m;
        }
      }
      seen := seen + {current.version};
      lineage := lineage + [current];
      if current.parent.None? { return Ok(lineage); }
      current := versions[(modelId, current.parent.value)];
    }
  }

  /** There is only one lineage of a version. */
  lemma LineageIsUnique(versions: map<Key, ModelVersion>, modelId: string, version: string,
                        a: seq<ModelVersion>, b: seq<ModelVersion>)
    requires IsLineage(versions, modelId, version, a) && IsLineage(versions, modelId, version, b)
    ensures a == b
  {
    var n := MinInt(|a|, |b|) - 1;
    PathsAgree(versions, modelId, a, b, n);
    assert a[n] == b[n];
    OnlyLastIsRoot(versions, modelId, a, n);
    OnlyLastIsRoot(versions, modelId, b, n);
  }

  lemma OnlyLastIsRoot(versions: map<Key, ModelVersion>, modelId: string, path: seq<ModelVersion>, i: nat)
    requires IsPath(versions, modelId, path) && i < |path|
    ensures path[i].parent.None? ==> i == |path| - 1
  {
    if i < |path| - 1 { assert path[i].parent == Some(path[i + 1].version); }
  }

  lemma {:induction false} PathsAgree(versions: map<Key, ModelVersion>, modelId: string,
                                      a: seq<ModelVersion>, b: seq<ModelVersion>, n: nat)
    requires IsPath(versions, modelId, a) && IsPath(versions, modelId, b) && a[0].version == b[0].version
    requires n < |a| && n < |b|
    ensures forall i | 0 <= i <= n :: a[i] == b[i]
  {
    if n > 0 {
      PathsAgree(versions, modelId, a, b, n - 1);
      assert a[n - 1] == b[n - 1];
      assert a[n].version == b[n].version;
    }
  }
}
