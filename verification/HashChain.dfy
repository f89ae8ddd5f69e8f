/** The hash-chained ledgers: the shadow-session ledger and the cost-gate ledger. The digest is an
    arbitrary function; every statement about tampering names the collision that tampering would need. */
module HashChain {
  import opened Common

  /** One ledger line: its sequence number, the hash before it, its content and its own hash. */
  datatype Link<+T> = Link(sequence: int, previous: string, content: T, hash: string)

  type Digest<!T> = (int, string, T) -> string

  /** The hash the entry behind `s` has to point at. */
  function Head<T>(genesis: string, s: seq<Link<T>>): string {
    if s == [] then genesis else s[|s| - 1].hash
  }

  /** Entry `i` continues the chain before it. */
  predicate Continues<T>(genesis: string, first: int, s: seq<Link<T>>, i: nat)
    requires i < |s|
  {
    s[i].sequence == first + i && s[i].previous == if i == 0 then genesis else s[i - 1].hash
  }

  predicate Sealed<T>(h: Digest<T>, l: Link<T>) {
    l.hash == h(l.sequence, l.previous, l.content)
  }

  ghost predicate Chained<T(!new)>(h: Digest<T>, genesis: string, first: int, s: seq<Link<T>>) {
    forall i: nat | i < |s| :: LinkedAt(h, genesis, first, s, i)
  }

  predicate LinkedAt<T>(h: Digest<T>, genesis: string, first: int, s: seq<Link<T>>, i: nat)
    requires i < |s|
  {
    Continues(genesis, first, s, i) && Sealed(h, s[i])
  }

  /** Two entries that the digest does not tell apart although their inputs differ. */
  ghost predicate Collide<T(!new)>(x: Link<T>, y: Link<T>) {
    x.hash == y.hash && (x.sequence != y.sequence || x.previous != y.previous || x.content != y.content)
  }

  ghost predicate CollisionBetween<T(!new)>(a: seq<Link<T>>, b: seq<Link<T>>) {
    exists x, y :: x in a && y in b && Collide(x, y)
  }

  lemma LinkOf<T(!new)>(h: Digest<T>, genesis: string, first: int, s: seq<Link<T>>, i: nat)
    requires Chained(h, genesis, first, s) && i < |s|
    ensures Continues(genesis, first, s, i) && Sealed(h, s[i])
  {
    assert LinkedAt(h, genesis, first, s, i);
  }

  lemma CollisionFound<T(!new)>(a: seq<Link<T>>, b: seq<Link<T>>, i: nat, j: nat)
    requires i < |a| && j < |b| && Collide(a[i], b[j])
    ensures CollisionBetween(a, b)
  {
    assert a[i] in a && b[j] in b;
  }

  /** An anchor is enough: two verified ledgers that both contain a hash agree on everything up to it,
      unless they exhibit a collision. */
  lemma {:induction false} AnchoredPrefixesAgree<T(!new)>(h: Digest<T>, genesis: string, first: int,
                                                          a: seq<Link<T>>, b: seq<Link<T>>, i: nat, j: nat)
    requires Chained(h, genesis, first, a) && Chained(h, genesis, first, b)
    requires i < |a| && j < |b| && a[i].hash == b[j].hash
    ensures (i == j && a[..i + 1] == b[..j + 1]) || CollisionBetween(a, b)
    decreases i
  {
    hide Chained, CollisionBetween;
    LinkOf(h, genesis, first, a, i);
    LinkOf(h, genesis, first, b, j);
    if Collide(a[i], b[j]) {
      CollisionFound(a, b, i, j);
    }
    if !Collide(a[i], b[j]) {
      assert i == j && a[i] == b[j];
      if i > 0 {
        AnchoredPrefixesAgree(h, genesis, first, a, b, i - 1, j - 1);
      }
      if i > 0 && a[..i] == b[..i] {
        assert a[..i + 1] == a[..i] + [a[i]] && b[..i + 1] == b[..i] + [b[i]];
      }
    }
  }

  /** Two verified ledgers with one head hash are the same ledger, unless they exhibit a collision or the
      digest hits the genesis constant. */
  lemma SameHeadSameLedger<T(!new)>(h: Digest<T>, genesis: string, first: int, a: seq<Link<T>>, b: seq<Link<T>>)
    requires Chained(h, genesis, first, a) && Chained(h, genesis, first, b)
    requires Head(genesis, a) == Head(genesis, b)
    ensures
      || a == b
      || CollisionBetween(a, b)
      || exists l :: l in a + b && l.hash == genesis && Sealed(h, l)
  {
    if a != [] && b != [] {
      AnchoredPrefixesAgree(h, genesis, first, a, b, |a| - 1, |b| - 1);
      assert a[..|a|] == a && b[..|b|] == b;
    } else if a != [] {
      LinkOf(h, genesis, first, a, |a| - 1);
      assert a[|a| - 1] in a + b;
    } else if b != [] {
      LinkOf(h, genesis, first, b, |b| - 1);
      assert b[|b| - 1] in a + b;
    }
  }

  /** Where no entries of the two collide or hash to the genesis constant, a ledger rewritten anywhere and
      made to verify again shows a different head. */
  lemma RewritingChangesTheHead<T(!new)>(h: Digest<T>, genesis: string, first: int,
                                         a: seq<Link<T>>, b: seq<Link<T>>)
    requires Chained(h, genesis, first, a) && Chained(h, genesis, first, b) && a != b
    requires !CollisionBetween(a, b) && forall l | l in a + b :: l.hash != genesis
    ensures Head(genesis, a) != Head(genesis, b)
    ensures forall i: nat, j: nat | i < |a| && j < |b| && a[i].hash == b[j].hash :: i == j && a[..i + 1] == b[..i + 1]
  {
    if Head(genesis, a) == Head(genesis, b) {
      SameHeadSameLedger(h, genesis, first, a, b);
      assert false;
    }
    forall i: nat, j: nat | i < |a| && j < |b| && a[i].hash == b[j].hash ensures i == j && a[..i + 1] == b[..i + 1] {
      AnchoredPrefixesAgree(h, genesis, first, a, b, i, j);
    }
  }

  /** The one way to extend a verified ledger by one entry of a given content. */
  function NextLink<T>(h: Digest<T>, genesis: string, first: int, s: seq<Link<T>>, content: T): Link<T> {
    var sequence := first + |s|;
    Link(sequence, Head(genesis, s), content, h(sequence, Head(genesis, s), content))
  }

  lemma ExtensionIsUnique<T(!new)>(h: Digest<T>, genesis: string, first: int, s: seq<Link<T>>, l: Link<T>)
    ensures Chained(h, genesis, first, s + [l]) <==>
      Chained(h, genesis, first, s) && l == NextLink(h, genesis, first, s, l.content)
  {
    var t := s + [l];
    assert t[|s|] == l;
    forall i: nat | i < |s| ensures LinkedAt(h, genesis, first, t, i) == LinkedAt(h, genesis, first, s, i) {
      assert t[i] == s[i];
    }
    if Chained(h, genesis, first, t) {
      LinkOf(h, genesis, first, t, |s|);
      forall i: nat | i < |s| ensures LinkedAt(h, genesis, first, s, i) {
        assert LinkedAt(h, genesis, first, t, i);
      }
    }
  }

  // ----- the shadow-session ledger -----

  datatype Session = Session(sessionId: string, body: string)

  const SHADOW_GENESIS: string := "GENESIS"

  datatype LedgerError = ChainDiscontinuous | HashMismatch | DuplicateSession | SessionExists

  ghost predicate UniqueSessions(s: seq<Link<Session>>) {
    forall i, j | 0 <= i < j < |s| :: s[i].content.sessionId != s[j].content.sessionId
  }

  ghost predicate ShadowVerified(h: Digest<Session>, s: seq<Link<Session>>) {
    Chained(h, SHADOW_GENESIS, 1, s) && UniqueSessions(s)
  }

  /** What is wrong at entry `k` when everything before it is in order. */
  ghost predicate FailsAt(h: Digest<Session>, s: seq<Link<Session>>, k: nat, e: LedgerError)
    requires k < |s|
  {
    var repeated := exists j :: 0 <= j < k && s[j].content.sessionId == s[k].content.sessionId;
    match e
    case ChainDiscontinuous => !Continues(SHADOW_GENESIS, 1, s, k)
    case HashMismatch => Continues(SHADOW_GENESIS, 1, s, k) && !Sealed(h, s[k])
    case DuplicateSession => Continues(SHADOW_GENESIS, 1, s, k) && Sealed(h, s[k]) && repeated
    case SessionExists => false
  }

  /** Names the first entry at which the ledger stops verifying. */
  method VerifyShadow(h: Digest<Session>, s: seq<Link<Session>>) returns (verdict: Result<(), LedgerError>)
    ensures verdict.Ok? <==> ShadowVerified(h, s)
    ensures verdict.Err? ==> exists k: nat | k < |s| :: ShadowVerified(h, s[..k]) && FailsAt(h, s, k, verdict.error)
  {
    var previous := SHADOW_GENESIS;
    var seen: set<string> := {};
    for k := 0 to |s|
      invariant previous == Head(SHADOW_GENESIS, s[..k])
      invariant ShadowVerified(h, s[..k])
      invariant forall id :: id in seen <==> exists j :: 0 <= j < k && s[j].content.sessionId == id
    {
      assert s[..k + 1] == s[..k] + [s[k]];
      ExtensionIsUnique(h, SHADOW_GENESIS, 1, s[..k], s[k]);
      PrefixVerifies(h, s, k + 1);
      if s[k].sequence != k + 1 || s[k].previous != previous {
        assert FailsAt(h, s, k, ChainDiscontinuous);
        return Err(ChainDiscontinuous);
      }
      if s[k].hash != h(s[k].sequence, s[k].previous, s[k].content) {
        assert FailsAt(h, s, k, HashMismatch);
        return Err(HashMismatch);
      }
      if s[k].content.sessionId in seen {
        assert FailsAt(h, s, k, DuplicateSession);
        return Err(DuplicateSession);
      }
      seen := seen + {s[k].content.sessionId};
      previous := s[k].hash;
    }
    assert s[..|s|] == s;
    return Ok(());
  }

  lemma PrefixVerifies(h: Digest<Session>, s: seq<Link<Session>>, k: nat)
    requires k <= |s|
    ensures ShadowVerified(h, s) ==> ShadowVerified(h, s[..k])
  {
    if ShadowVerified(h, s) {
      var p := s[..k];
      forall i: nat | i < k ensures LinkedAt(h, SHADOW_GENESIS, 1, p, i) {
        assert LinkedAt(h, SHADOW_GENESIS, 1, s, i);
      }
    }
  }

  /** The ledger file. Its content is whatever is on disk, verified or not. */
  class ShadowLedger {
    const digest: Digest<Session>
    var entries: seq<Link<Session>>

    constructor (digest: Digest<Session>)
      ensures this.digest == digest && entries == [] && ShadowVerified(digest, entries)
    {
      this.digest := digest;
      entries := [];
    }

    method Load() returns (loaded: Result<seq<Link<Session>>, LedgerError>)
      ensures loaded.Ok? <==> ShadowVerified(digest, entries)
      ensures loaded.Ok? ==> loaded.value == entries
    {
      var verdict := VerifyShadow(digest, entries);
      if verdict.Err? { return Err(verdict.error); }
      return Ok(entries);
    }

    /** Appends nothing to a ledger that does not verify, and no session twice. */
    method Append(session: Session) returns (appended: Result<Link<Session>, LedgerError>)
      modifies this
      ensures appended.Ok? <==>
        && old(ShadowVerified(digest, entries))
        && forall l | l in old(entries) :: l.content.sessionId != session.sessionId
      ensures appended.Ok? ==> ShadowVerified(digest, entries)
      ensures appended.Ok? ==> entries == old(entries) + [appended.value] && appended.value.content == session
      ensures appended.Err? ==> entries == old(entries)
      ensures appended.Err? && old(ShadowVerified(digest, entries)) ==> appended.error == SessionExists
    {
      var verdict := VerifyShadow(digest, entries);
      if verdict.Err? { return Err(verdict.error); }
      for i := 0 to |entries|
        invariant forall j | 0 <= j < i :: entries[j].content.sessionId != session.sessionId
      {
        if entries[i].content.sessionId == session.sessionId {
          assert entries[i] in entries;
          return Err(SessionExists);
        }
      }
      var link := NextLink(digest, SHADOW_GENESIS, 1, entries, session);
      ExtensionIsUnique(digest, SHADOW_GENESIS, 1, entries, link);
      entries := entries + [link];
      return Ok(link);
    }
  }

  // ----- the cost-gate ledger -----

  datatype CostDecision = CostDecision(recordedAt: int, planId: string, estimatedUsd: real, ceilingUsd: real,
                                       decision: string)

  const COST_GENESIS: string := "sha256:cost-ledger-genesis"

  ghost predicate CostVerified(h: Digest<CostDecision>, s: seq<Link<CostDecision>>) {
    Chained(h, COST_GENESIS, 0, s)
  }

  method VerifyCost(h: Digest<CostDecision>, s: seq<Link<CostDecision>>) returns (verdict: Result<(), LedgerError>)
    ensures verdict.Ok? <==> CostVerified(h, s)
    ensures verdict.Err? ==>
      exists k: nat | k < |s| ::
        && CostVerified(h, s[..k])
        && verdict.error == if Continues(COST_GENESIS, 0, s, k) then HashMismatch else ChainDiscontinuous
  {
    var previous := COST_GENESIS;
    for k := 0 to |s|
      invariant previous == Head(COST_GENESIS, s[..k])
      invariant CostVerified(h, s[..k])
    {
      assert s[..k + 1] == s[..k] + [s[k]];
      ExtensionIsUnique(h, COST_GENESIS, 0, s[..k], s[k]);
      if s[k].sequence != k || s[k].previous != previous {
        assert !LinkedAt(h, COST_GENESIS, 0, s, k);
        return Err(ChainDiscontinuous);
      }
      if h(s[k].sequence, s[k].previous, s[k].content) != s[k].hash {
        assert !LinkedAt(h, COST_GENESIS, 0, s, k);
        return Err(HashMismatch);
      }
      previous := s[k].hash;
    }
    assert s[..|s|] == s;
    return Ok(());
  }

  class CostLedger {
    const digest: Digest<CostDecision>
    var entries: seq<Link<CostDecision>>

    constructor (digest: Digest<CostDecision>)
      ensures this.digest == digest && entries == [] && CostVerified(digest, entries)
    {
      this.digest := digest;
      entries := [];
    }

    method Load() returns (loaded: Result<seq<Link<CostDecision>>, LedgerError>)
      ensures loaded.Ok? <==> CostVerified(digest, entries)
      ensures loaded.Ok? ==> loaded.value == entries
    {
      var verdict := VerifyCost(digest, entries);
      if verdict.Err? { return Err(verdict.error); }
      return Ok(entries);
    }

    method Append(decision: CostDecision) returns (appended: Result<Link<CostDecision>, LedgerError>)
      modifies this
      ensures appended.Ok? <==> old(CostVerified(digest, entries))
      ensures appended.Ok? ==> CostVerified(digest, entries)
      ensures appended.Ok? ==> entries == old(entries) + [appended.value] && appended.value.content == decision
      ensures appended.Err? ==> entries == old(entries)
    {
      var loaded := Load();
      if loaded.Err? { return Err(loaded.error); }
      var link := NextLink(digest, COST_GENESIS, 0, entries, decision);
      ExtensionIsUnique(digest, COST_GENESIS, 0, entries, link);
      entries := entries + [link];
      return Ok(link);
    }
  }
}
