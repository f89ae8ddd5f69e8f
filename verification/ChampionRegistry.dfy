/** The in-process registry: dictionaries updated in place. */
module ChampionRegistry {
  import opened Common
  import opened Governance

  /** Champions and frozen sessions name registered versions. */
  ghost predicate ReferencesRegistered(r: Registry) {
    && (forall id | id in r.champions :: (id, r.champions[id]) in r.versions)
    && (forall k | k in r.frozen :: (k.0, r.frozen[k]) in r.versions)
  }

  lemma RegisteredReferences(r: Registry)
    requires Sound(r)
    ensures ReferencesRegistered(r)
  {
  }

  lemma PromotionIsForTarget(identity: Approval -> string, r: Registry, modelId: string, version: string, a: Approval)
    ensures MayPromote(identity, r, modelId, version, a) ==>
      a.modelId == modelId && a.target == version && (modelId, version) in r.versions
  {
  }

  lemma RollbackIsForTarget(identity: Approval -> string, r: Registry, modelId: string, target: string, a: Approval)
    ensures MayRollback(identity, r, modelId, target, a) ==>
      a.modelId == modelId && a.target == target && (modelId, target) in r.versions
  {
  }

  /** The session is frozen, and `m` is the registered version it is frozen at. */
  ghost predicate FrozenAt(r: Registry, modelId: string, sessionId: string, m: ModelVersion) {
    && (modelId, sessionId) in r.frozen
    && (modelId, r.frozen[(modelId, sessionId)]) in r.versions
    && m == r.versions[(modelId, r.frozen[(modelId, sessionId)])]
  }

  class FrozenChampionRegistry {
    const identity: Approval -> string
    var versions: map<Key, ModelVersion>
    var champions: map<string, string>
    var sessionChampions: map<Key, string>
    var events: seq<Event>
    var usedApprovals: set<string>

    ghost function State(): Registry
      reads this
    {
      Registry(versions, champions, sessionChampions, events, usedApprovals)
    }

    constructor (identity: Approval -> string)
      ensures State() == EMPTY_REGISTRY && Sound(State()) && this.identity == identity
    {
      this.identity := identity;
      versions, champions, sessionChampions, events, usedApprovals := map[], map[], map[], [], {};
      new;
      EmptyIsSound();
    }

    method RegisterChallenger(m: ModelVersion) returns (r: Result<(), GovernanceError>)
      requires Sound(State())
      modifies this
      ensures Sound(State()) && State() == Governance.Step(identity, old(State()), RegisterOp(m))
      ensures r.Ok? <==> MayRegister(old(State()), m)
    {
      StepKeepsSound(identity, State(), RegisterOp(m));
      hide Sound;
      if (m.modelId, m.version) in versions { return Err(AlreadyRegistered); }
      if m.parent.Some? && (m.modelId, m.parent.value) !in versions { return Err(UnknownParent); }
      versions := versions[(m.modelId, m.version) := m];
      return Ok(());
    }

    method ValidateApproval(a: Approval, action: Action, modelId: string, source: Option<string>, target: string)
        returns (r: Result<(), GovernanceError>)
      ensures r.Ok? <==> Verified(identity, a) && a.id !in usedApprovals && Matches(a, action, modelId, source, target)
    {
      if !Verified(identity, a) { return Err(IdentityMismatch); }
      if a.id in usedApprovals { return Err(ApprovalUsed); }
      if (a.action, a.modelId, a.source, a.target) != (action, modelId, source, target) { return Err(ApprovalMismatch); }
      return Ok(());
    }

    /** Moves the champion and records the approval that moved it. */
    method Record(a: Approval)
      modifies this
      ensures State() == Recorded(old(State()), a)
    {
      champions := champions[a.modelId := a.target];
      usedApprovals := usedApprovals + {a.id};
      events := events + [Event(a.action, a.modelId, a.source, a.target, a.id, a.approvedAt)];
    }

    method CheckPromotion(modelId: string, version: string, a: Approval) returns (error: Option<GovernanceError>)
      ensures error.None? <==> MayPromote(identity, State(), modelId, version, a)
    {
      hide Verified;
      if (modelId, version) !in versions { return Some(UnknownVersion); }
      var candidate := versions[(modelId, version)];
      var current := if modelId in champions then Some(champions[modelId]) else None;
      var valid := ValidateApproval(a, Action.Promote, modelId, current, version);
      if valid.Err? { return Some(valid.error); }
      if candidate.reportHash.None? { return Some(NoReport); }
      if a.evidenceHash != candidate.reportHash.value { return Some(EvidenceMismatch); }
      if a.approvedAt < candidate.trainedAt { return Some(PredatesChallenger); }
      if current.Some? && candidate.parent != current { return Some(NotDescendant); }
      return None;
    }

    method Promote(modelId: string, version: string, a: Approval) returns (r: Result<ModelVersion, GovernanceError>)
      requires Sound(State())
      modifies this
      ensures Sound(State()) && State() == Governance.Step(identity, old(State()), PromoteOp(modelId, version, a))
      ensures r.Ok? <==> MayPromote(identity, old(State()), modelId, version, a)
      ensures r.Ok? ==> (modelId, version) in versions && r.value == versions[(modelId, version)]
    {
      StepKeepsSound(identity, State(), PromoteOp(modelId, version, a));
      PromotionIsForTarget(identity, State(), modelId, version, a);
      hide Sound, MayPromote, Recorded;
      var error := CheckPromotion(modelId, version, a);
      if error.None? { Record(a); }
      r := if error.Some? then Err(error.value) else Ok(versions[(modelId, version)]);
    }

    method CheckRollback(modelId: string, target: string, a: Approval) returns (error: Option<GovernanceError>)
      ensures error.None? <==> MayRollback(identity, State(), modelId, target, a)
    {
      hide Verified;
      if (modelId, target) !in versions { return Some(UnknownVersion); }
      if modelId !in champions { return Some(NoChampion); }
      if target == champions[modelId] { return Some(AlreadyChampion); }
      var valid := ValidateApproval(a, Action.Rollback, modelId, Some(champions[modelId]), target);
      if valid.Err? { return Some(valid.error); }
      return None;
    }

    method Rollback(modelId: string, target: string, a: Approval) returns (r: Result<ModelVersion, GovernanceError>)
      requires Sound(State())
      modifies this
      ensures Sound(State()) && State() == Governance.Step(identity, old(State()), RollbackOp(modelId, target, a))
      ensures r.Ok? <==> MayRollback(identity, old(State()), modelId, target, a)
      ensures r.Ok? ==> (modelId, target) in versions && r.value == versions[(modelId, target)]
    {
      StepKeepsSound(identity, State(), RollbackOp(modelId, target, a));
      RollbackIsForTarget(identity, State(), modelId, target, a);
      hide Sound, MayRollback, Recorded;
      var error := CheckRollback(modelId, target, a);
      if error.None? { Record(a); }
      r := if error.Some? then Err(error.value) else Ok(versions[(modelId, target)]);
    }

    method FreezeSession(modelId: string, sessionId: string) returns (r: Result<ModelVersion, GovernanceError>)
      requires Sound(State())
      modifies this
      ensures Sound(State()) && State() == Governance.Step(identity, old(State()), FreezeOp(modelId, sessionId))
      ensures r.Ok? <==> MayFreeze(old(State()), modelId, sessionId)
      ensures r.Ok? ==> FrozenAt(State(), modelId, sessionId, r.value)
    {
      StepKeepsSound(identity, State(), FreezeOp(modelId, sessionId));
      RegisteredReferences(State());
      hide Sound, ReferencesRegistered, MayFreeze, Frozen, FrozenAt;
      r := StoreFreeze(modelId, sessionId);
    }

    method StoreFreeze(modelId: string, sessionId: string) returns (r: Result<ModelVersion, GovernanceError>)
      requires ReferencesRegistered(State())
      modifies this`sessionChampions
      ensures State() == if MayFreeze(old(State()), modelId, sessionId) then Frozen(old(State()), modelId, sessionId) else old(State())
      ensures r.Ok? <==> MayFreeze(old(State()), modelId, sessionId)
      ensures r.Ok? ==> FrozenAt(State(), modelId, sessionId, r.value)
    {
      hide Blank;
      var key := (modelId, sessionId);
      var error := if Blank(sessionId) then Some(BlankSession) else if modelId !in champions then Some(NoChampion) else None;
      if error.None? && key !in sessionChampions {
        sessionChampions := sessionChampions[key := champions[modelId]];
      }
      r := if error.Some? then Err(error.value) else Ok(versions[(modelId, sessionChampions[key])]);
    }

    method Champion(modelId: string, sessionId: Option<string>) returns (r: Result<ModelVersion, GovernanceError>)
      requires Sound(State())
      ensures r.Ok? <==> Governance.Champion(State(), modelId, sessionId).Ok?
      ensures r.Ok? ==> var v := Governance.Champion(State(), modelId, sessionId).value;
        (modelId, v) in versions && r.value == versions[(modelId, v)]
    {
      if sessionId.Some? && (modelId, sessionId.value) in sessionChampions {
        return Ok(versions[(modelId, sessionChampions[(modelId, sessionId.value)])]);
      }
      if modelId !in champions { return Err(NoChampion); }
      return Ok(versions[(modelId, champions[modelId])]);
    }

    method LineageOf(modelId: string, version: string) returns (r: Result<seq<ModelVersion>, GovernanceError>)
      requires Sound(State())
      ensures r.Ok? <==> (modelId, version) in versions
      ensures r.Ok? ==> IsLineage(versions, modelId, version, r.value)
    {
      r := Lineage(versions, modelId, version);
    }
  }
}
