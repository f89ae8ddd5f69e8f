/** Purged expanding-window folds over grouped samples. */
module WalkForward {
  import opened Common
  import opened Sorting
  import opened Order

  datatype Sample = Sample(sampleId: string, observedAt: int, groupId: string)

  datatype Fold = Fold(index: nat, trainIds: seq<string>, testIds: seq<string>, purgeCutoff: int, testStart: int, testEnd: int)

  datatype Splitter = Splitter(minTrainGroups: nat, testGroups: nat, purgeGap: int, stepGroups: nat)

  datatype SplitError = BadCounts | NegativeGap | BadStep | DuplicateIds | FoldWithoutTraining

  predicate ValidSplitter(c: Splitter) {
    c.minTrainGroups > 0 && c.testGroups > 0 && c.purgeGap >= 0 && c.stepGroups > 0
  }

  function MakeSplitter(minTrainGroups: int, testGroups: int, purgeGap: int, stepGroups: Option<int>):
    (r: Result<Splitter, SplitError>)
    ensures r.Ok? <==>
      minTrainGroups > 0 && testGroups > 0 && purgeGap >= 0 && (stepGroups.Some? ==> stepGroups.value > 0)
    ensures r.Ok? ==> ValidSplitter(r.value)
    ensures r.Ok? ==>
      && r.value.minTrainGroups == minTrainGroups && r.value.testGroups == testGroups && r.value.purgeGap == purgeGap
      && r.value.stepGroups == if stepGroups.Some? then stepGroups.value else testGroups
  {
    if minTrainGroups <= 0 || testGroups <= 0 then Err(BadCounts)
    else if purgeGap < 0 then Err(NegativeGap)
    else if stepGroups.Some? && stepGroups.value <= 0 then Err(BadStep)
    else Ok(Splitter(minTrainGroups, testGroups, purgeGap, if stepGroups.Some? then stepGroups.value else testGroups))
  }

  ghost predicate UniqueIds(s: seq<Sample>) {
    forall i, j | 0 <= i < j < |s| :: s[i].sampleId != s[j].sampleId
  }

  function Ids(s: seq<Sample>): seq<string> { seq(|s|, i requires 0 <= i < |s| => s[i].sampleId) }

  // ----- the order of samples and of groups -----

  predicate TimeLess(a: Sample, b: Sample) {
    a.observedAt < b.observedAt || (a.observedAt == b.observedAt && Less(a.sampleId, b.sampleId))
  }

  predicate TimeLessOrEqual(a: Sample, b: Sample) {
    a.observedAt < b.observedAt || (a.observedAt == b.observedAt && LessOrEqual(a.sampleId, b.sampleId))
  }

  /** When a group is first observed. */
  function Opening(s: seq<Sample>, g: string): Option<int> {
    if s == [] then None
    else
      var rest, last := Opening(s[..|s| - 1], g), s[|s| - 1];
      if last.groupId != g then rest
      else if rest.None? || last.observedAt < rest.value then Some(last.observedAt)
      else rest
  }

  lemma {:induction false} OpeningIsEarliest(s: seq<Sample>, g: string)
    ensures Opening(s, g).Some? <==> exists x :: x in s && x.groupId == g
    ensures Opening(s, g).Some? ==> exists x :: x in s && x.groupId == g && x.observedAt == Opening(s, g).value
    ensures forall x | x in s && x.groupId == g :: Opening(s, g).Some? && Opening(s, g).value <= x.observedAt
  {
    if s != [] {
      var front, last := s[..|s| - 1], s[|s| - 1];
      OpeningIsEarliest(front, g);
      assert s == front + [last];
      assert last in s;
      assert forall x | x in front :: x in s;
      assert forall x | x in s :: x in front || x == last;
    }
  }

  function OpeningTime(s: seq<Sample>, g: string): int {
    if Opening(s, g).Some? then Opening(s, g).value else 0
  }

  predicate GroupLess(s: seq<Sample>, g: string, h: string) {
    OpeningTime(s, g) < OpeningTime(s, h) || (OpeningTime(s, g) == OpeningTime(s, h) && Less(g, h))
  }

  /** The groups by first observation, ties by name. */
  ghost predicate IsGroupOrder(s: seq<Sample>, order: seq<string>) {
    && (forall g :: g in order <==> exists x :: x in s && x.groupId == g)
    && (forall i, j | 0 <= i < j < |order| :: GroupLess(s, order[i], order[j]))
  }

  predicate InSlice(order: seq<string>, lo: int, hi: int, g: string)
    requires 0 <= lo <= hi <= |order|
  {
    exists i :: lo <= i < hi && order[i] == g
  }

  /** Every sample of a group at or behind position `n` is observed no earlier than group `n` opens. */
  lemma LaterGroupsOpenLater(s: seq<Sample>, order: seq<string>, n: nat, x: Sample)
    requires IsGroupOrder(s, order) && n < |order| && x in s && !InSlice(order, 0, n, x.groupId)
    ensures OpeningTime(s, order[n]) <= x.observedAt
  {
    hide Less, Opening;
    assert x.groupId in order;
    var i :| 0 <= i < |order| && order[i] == x.groupId;
    assert n <= i;
    OpeningIsEarliest(s, x.groupId);
    if n < i {
      assert GroupLess(s, order[n], order[i]);
    }
  }

  // ----- what a fold is -----

  function Offset(c: Splitter, k: nat): nat { c.minTrainGroups + k * c.stepGroups }

  predicate HasFold(c: Splitter, order: seq<string>, k: nat) { Offset(c, k) + c.testGroups <= |order| }

  ghost predicate IsTest(s: seq<Sample>, order: seq<string>, c: Splitter, k: nat, test: seq<Sample>)
    requires HasFold(c, order, k)
  {
    && SortedBy(TimeLess, test)
    && (forall x :: x in test <==> x in s && InSlice(order, Offset(c, k), Offset(c, k) + c.testGroups, x.groupId))
  }

  ghost predicate IsTrain(s: seq<Sample>, order: seq<string>, c: Splitter, k: nat, cutoff: int, train: seq<Sample>)
    requires HasFold(c, order, k)
  {
    && SortedBy(TimeLess, train)
    && (forall x :: x in train <==> x in s && InSlice(order, 0, Offset(c, k), x.groupId) && x.observedAt < cutoff)
  }

  function FoldOf(c: Splitter, k: nat, train: seq<Sample>, test: seq<Sample>): Fold
    requires test != []
  {
    Fold(k, Ids(train), Ids(test), test[0].observedAt - c.purgeGap, test[0].observedAt, test[|test| - 1].observedAt)
  }

  /** The `k`-th fold: its test samples, and the training samples before its purge cutoff. */
  ghost predicate IsFold(s: seq<Sample>, order: seq<string>, c: Splitter, k: nat, f: Fold) {
    HasFold(c, order, k) && exists test: seq<Sample>, train: seq<Sample> ::
      && test != [] && train != []
      && IsTest(s, order, c, k, test)
      && IsTrain(s, order, c, k, test[0].observedAt - c.purgeGap, train)
      && f == FoldOf(c, k, train, test)
  }

  lemma IdsContain(s: seq<Sample>, all: seq<Sample>, x: Sample)
    requires UniqueIds(all) && x in all && forall y | y in s :: y in all
    ensures x.sampleId in Ids(s) <==> x in s
  {
    if x.sampleId in Ids(s) {
      var i :| 0 <= i < |s| && Ids(s)[i] == x.sampleId;
      assert s[i] in all;
      var p :| 0 <= p < |all| && all[p] == s[i];
      var q :| 0 <= q < |all| && all[q] == x;
      assert p == q;
    }
    if x in s {
      var i :| 0 <= i < |s| && s[i] == x;
      assert Ids(s)[i] == x.sampleId;
    }
  }

  /** A test set opens exactly when its first group does. */
  lemma TestStartsWithItsFirstGroup(s: seq<Sample>, order: seq<string>, c: Splitter, k: nat, test: seq<Sample>)
    requires ValidSplitter(c) && IsGroupOrder(s, order) && HasFold(c, order, k) && IsTest(s, order, c, k, test)
    ensures test != [] && test[0].observedAt == OpeningTime(s, order[Offset(c, k)])
  {
    hide Less, Opening, Offset;
    var g := order[Offset(c, k)];
    assert g in order;
    OpeningIsEarliest(s, g);
    var x :| x in s && x.groupId == g && x.observedAt == Opening(s, g).value;
    assert InSlice(order, Offset(c, k), Offset(c, k) + c.testGroups, g);
    assert x in test;
    assert test[0] in test;
    HeadIsLeast(TimeLess, test);
    LaterGroupInSlice(s, order, Offset(c, k), c.testGroups, test[0].groupId);
    LaterGroupsOpenLater(s, order, Offset(c, k), test[0]);
  }

  lemma LaterGroupInSlice(s: seq<Sample>, order: seq<string>, n: nat, m: nat, g: string)
    requires IsGroupOrder(s, order) && n + m <= |order| && InSlice(order, n, n + m, g)
    ensures !InSlice(order, 0, n, g)
  {
    hide OpeningTime;
    var i :| n <= i < n + m && order[i] == g;
    if j :| 0 <= j < n && order[j] == g {
      assert GroupLess(s, order[j], order[i]);
      LessIsIrreflexive(g);
      assert false;
    }
  }

  /** Training takes everything before the cutoff: the group condition never withholds a sample. */
  lemma TrainingIsThePast(s: seq<Sample>, order: seq<string>, c: Splitter, k: nat, f: Fold, x: Sample)
    requires ValidSplitter(c) && UniqueIds(s) && IsGroupOrder(s, order) && IsFold(s, order, c, k, f) && x in s
    ensures x.sampleId in f.trainIds <==> x.observedAt < f.purgeCutoff
    ensures x.sampleId in f.testIds <==> InSlice(order, Offset(c, k), Offset(c, k) + c.testGroups, x.groupId)
    ensures f.testStart == OpeningTime(s, order[Offset(c, k)]) && f.purgeCutoff == f.testStart - c.purgeGap
    ensures x.sampleId in f.testIds ==> f.testStart <= x.observedAt <= f.testEnd
  {
    hide Less, Offset, TimeLess, OpeningTime, Ids;
    var test: seq<Sample>, train: seq<Sample> :|
      && test != [] && train != []
      && IsTest(s, order, c, k, test)
      && IsTrain(s, order, c, k, test[0].observedAt - c.purgeGap, train)
      && f == FoldOf(c, k, train, test);
    IdsContain(test, s, x);
    IdsContain(train, s, x);
    TestStartsWithItsFirstGroup(s, order, c, k, test);
    if !InSlice(order, 0, Offset(c, k), x.groupId) {
      LaterGroupsOpenLater(s, order, Offset(c, k), x);
    }
    if x in test {
      var i :| 0 <= i < |test| && test[i] == x;
      EndsAreExtreme(test, i);
    }
  }

  lemma EndsAreExtreme(test: seq<Sample>, i: nat)
    requires SortedBy(TimeLess, test) && i < |test|
    ensures test[0].observedAt <= test[i].observedAt <= test[|test| - 1].observedAt
  {
    hide Less;
    assert i == 0 || TimeLess(test[0], test[i]);
    assert i == |test| - 1 || TimeLess(test[i], test[|test| - 1]);
  }

  /** No leak: a training sample precedes every test sample by more than the purge gap, and shares no
      group with one. */
  lemma FoldIsLeakFree(s: seq<Sample>, order: seq<string>, c: Splitter, k: nat, f: Fold, a: Sample, b: Sample)
    requires ValidSplitter(c) && UniqueIds(s) && IsGroupOrder(s, order) && IsFold(s, order, c, k, f)
    requires a in s && b in s && a.sampleId in f.trainIds && b.sampleId in f.testIds
    ensures a.observedAt + c.purgeGap < b.observedAt
    ensures a.groupId != b.groupId
  {
    hide IsFold, IsGroupOrder, UniqueIds, OpeningTime, InSlice, Offset;
    TrainingIsThePast(s, order, c, k, f, a);
    TrainingIsThePast(s, order, c, k, f, b);
    TrainGroups(s, order, c, k, f, a);
    if a.groupId == b.groupId {
      LaterGroupInSlice(s, order, Offset(c, k), c.testGroups, b.groupId);
      assert false;
    }
  }

  lemma TrainGroups(s: seq<Sample>, order: seq<string>, c: Splitter, k: nat, f: Fold, x: Sample)
    requires UniqueIds(s) && IsFold(s, order, c, k, f) && x in s && x.sampleId in f.trainIds
    ensures InSlice(order, 0, Offset(c, k), x.groupId)
  {
    hide Less, Offset, TimeLess, Ids, InSlice;
    var test: seq<Sample>, train: seq<Sample> :|
      && test != [] && train != []
      && IsTest(s, order, c, k, test)
      && IsTrain(s, order, c, k, test[0].observedAt - c.purgeGap, train)
      && f == FoldOf(c, k, train, test);
    IdsContain(train, s, x);
  }

  lemma OffsetsGrow(c: Splitter, j: nat, k: nat)
    requires ValidSplitter(c) && j < k
    ensures Offset(c, j) + c.stepGroups <= Offset(c, k)
  {
    assert (k - j - 1) * c.stepGroups >= 0;
    assert k * c.stepGroups == j * c.stepGroups + c.stepGroups + (k - j - 1) * c.stepGroups;
  }

  /** Time moves on from fold to fold, and training sets only grow. */
  lemma TrainingGrows(s: seq<Sample>, order: seq<string>, c: Splitter, j: nat, k: nat, f: Fold, g: Fold, x: Sample)
    requires ValidSplitter(c) && UniqueIds(s) && IsGroupOrder(s, order) && j < k
    requires IsFold(s, order, c, j, f) && IsFold(s, order, c, k, g) && x in s
    ensures f.testStart <= g.testStart && f.purgeCutoff <= g.purgeCutoff
    ensures x.sampleId in f.trainIds ==> x.sampleId in g.trainIds
  {
    hide InSlice, UniqueIds, IsTest, IsTrain, Opening;
    OffsetsGrow(c, j, k);
    TrainingIsThePast(s, order, c, j, f, x);
    TrainingIsThePast(s, order, c, k, g, x);
    assert GroupLess(s, order[Offset(c, j)], order[Offset(c, k)]);
  }

  /** Successive folds test disjoint samples exactly when the step is at least a test window. */
  lemma TestsAreDisjoint(s: seq<Sample>, order: seq<string>, c: Splitter, j: nat, k: nat, f: Fold, g: Fold)
    requires ValidSplitter(c) && UniqueIds(s) && IsGroupOrder(s, order) && j < k
    requires IsFold(s, order, c, j, f) && IsFold(s, order, c, k, g)
    ensures c.stepGroups >= c.testGroups ==> forall x | x in s :: !(x.sampleId in f.testIds && x.sampleId in g.testIds)
    ensures k == j + 1 && c.stepGroups < c.testGroups ==>
      exists x :: x in s && x.sampleId in f.testIds && x.sampleId in g.testIds
  {
    hide IsGroupOrder, UniqueIds, IsTest, IsTrain, OpeningTime, InSlice;
    OffsetsGrow(c, j, k);
    if c.stepGroups >= c.testGroups {
      forall x | x in s ensures !(x.sampleId in f.testIds && x.sampleId in g.testIds) {
        TrainingIsThePast(s, order, c, j, f, x);
        TrainingIsThePast(s, order, c, k, g, x);
        if x.sampleId in f.testIds && x.sampleId in g.testIds {
          LaterGroupInSlice(s, order, Offset(c, k), c.testGroups, x.groupId);
          WidenSlice(order, Offset(c, j), Offset(c, j) + c.testGroups, Offset(c, k), x.groupId);
          assert false;
        }
      }
    }
    if k == j + 1 && c.stepGroups < c.testGroups {
      var x := SharedSample(s, order, Offset(c, k));
      assert Offset(c, k) == Offset(c, j) + c.stepGroups;
      InItsSlice(order, Offset(c, j), Offset(c, j) + c.testGroups, Offset(c, k));
      InItsSlice(order, Offset(c, k), Offset(c, k) + c.testGroups, Offset(c, k));
      TrainingIsThePast(s, order, c, j, f, x);
      TrainingIsThePast(s, order, c, k, g, x);
    }
  }

  lemma WidenSlice(order: seq<string>, lo: nat, mid: nat, hi: nat, g: string)
    requires lo <= mid <= hi <= |order| && InSlice(order, lo, mid, g)
    ensures InSlice(order, 0, hi, g)
  {
  }

  lemma InItsSlice(order: seq<string>, lo: nat, hi: nat, n: nat)
    requires lo <= n < hi <= |order|
    ensures InSlice(order, lo, hi, order[n])
  {
  }

  lemma SharedSample(s: seq<Sample>, order: seq<string>, n: nat) returns (x: Sample)
    requires IsGroupOrder(s, order) && n < |order|
    ensures x in s && x.groupId == order[n]
  {
    assert order[n] in order;
    x :| x in s && x.groupId == order[n];
  }

  // ----- the splitter -----

  method IdsUnique(s: seq<Sample>) returns (unique: bool)
    ensures unique <==> UniqueIds(s)
  {
    var ids := seq(|s|, i requires 0 <= i < |s| => s[i].sampleId);
    unique := CheckDistinct(ids);
    assert forall i | 0 <= i < |s| :: ids[i] == s[i].sampleId;
  }

  /** The samples by group, as the first `n` of them fill it. */
  ghost predicate GroupsAre(s: seq<Sample>, n: nat, grouped: map<string, seq<Sample>>)
    requires n <= |s|
  {
    && (forall g | g in grouped :: grouped[g] != [] && UniqueIds(grouped[g]))
    && (forall g, x :: g in grouped && x in grouped[g] <==> x in s[..n] && x.groupId == g)
  }

  lemma GroupStep(s: seq<Sample>, n: nat, grouped: map<string, seq<Sample>>)
    requires UniqueIds(s) && n < |s| && GroupsAre(s, n, grouped)
    ensures GroupsAre(s, n + 1, Filed(grouped, s[n]))
  {
    var x, g := s[n], s[n].groupId;
    assert s[..n + 1] == s[..n] + [x];
    var next := Filed(grouped, x);
    var before := if g in grouped then grouped[g] else [];
    forall y | y in before ensures y.sampleId != x.sampleId {
      assert y in s[..n];
      var i :| 0 <= i < n && s[i] == y;
    }
    assert UniqueIds(before + [x]);
    forall h, y ensures h in next && y in next[h] <==> y in s[..n + 1] && y.groupId == h {
      if h == g {
        assert next[h] == before + [x];
        assert y in before <==> y in s[..n] && y.groupId == g;
      } else {
        assert h in next <==> h in grouped;
      }
    }
  }

  function Filed(grouped: map<string, seq<Sample>>, x: Sample): map<string, seq<Sample>> {
    grouped[x.groupId := (if x.groupId in grouped then grouped[x.groupId] else []) + [x]]
  }

  method Group(s: seq<Sample>) returns (grouped: map<string, seq<Sample>>)
    requires UniqueIds(s)
    ensures GroupsAre(s, |s|, grouped)
  {
    hide GroupsAre, UniqueIds;
    grouped := map[];
    assert GroupsAre(s, 0, grouped) by { NoGroups(s); }
    for n := 0 to |s|
      invariant GroupsAre(s, n, grouped)
    {
      GroupStep(s, n, grouped);
      grouped := Filed(grouped, s[n]);
    }
  }

  lemma NoGroups(s: seq<Sample>)
    ensures GroupsAre(s, 0, map[])
  {
  }

  function Earliest(s: seq<Sample>): int
    requires s != []
  {
    if |s| == 1 then s[0].observedAt else MinInt(s[0].observedAt, Earliest(s[1..]))
  }

  lemma {:induction false} EarliestIsAttained(s: seq<Sample>)
    requires s != []
    ensures exists x :: x in s && x.observedAt == Earliest(s)
    ensures forall x | x in s :: Earliest(s) <= x.observedAt
  {
    assert s[0] in s;
    if |s| > 1 {
      EarliestIsAttained(s[1..]);
      assert s == [s[0]] + s[1..];
    }
  }

  lemma EarliestIsOpening(s: seq<Sample>, grouped: map<string, seq<Sample>>, g: string)
    requires GroupsAre(s, |s|, grouped) && g in grouped
    ensures Earliest(grouped[g]) == OpeningTime(s, g)
  {
    hide Earliest, Opening;
    assert s[..|s|] == s;
    EarliestIsAttained(grouped[g]);
    OpeningIsEarliest(s, g);
    var x :| x in grouped[g] && x.observedAt == Earliest(grouped[g]);
    assert x in s && x.groupId == g;
    var y :| y in s && y.groupId == g && y.observedAt == Opening(s, g).value;
    assert y in s[..|s|] && y.groupId == g;
    assert y in grouped[g];
  }

  predicate KeyLessOrEqual(first: map<string, int>, g: string, h: string) {
    var x, y := if g in first then first[g] else 0, if h in first then first[h] else 0;
    x < y || (x == y && LessOrEqual(g, h))
  }

  /** Lists the groups with the key they are ordered by. */
  method OpeningTimes(grouped: map<string, seq<Sample>>, ghost s: seq<Sample>)
      returns (groups: seq<string>, first: map<string, int>)
    requires GroupsAre(s, |s|, grouped)
    ensures Distinct(groups)
    ensures forall g :: g in groups <==> g in grouped
    ensures forall g | g in groups :: g in first && first[g] == OpeningTime(s, g)
  {
    hide GroupsAre, OpeningTime, Earliest, UniqueIds;
    groups, first := [], map[];
    var left := grouped.Keys;
    GroupsNonempty(s, grouped);
    while left != {}
      invariant left <= grouped.Keys && Distinct(groups)
      invariant forall g :: g in groups <==> g in grouped && g !in left
      invariant forall g | g in groups :: g in first && first[g] == OpeningTime(s, g)
      decreases left
    {
      var g :| g in left;
      EarliestIsOpening(s, grouped, g);
      first := first[g := Earliest(grouped[g])];
      groups := groups + [g];
      left := left - {g};
    }
  }

  lemma KeyOrderIsGroupOrder(s: seq<Sample>, groups: seq<string>, first: map<string, int>,
                             le: (string, string) -> bool, order: seq<string>)
    requires Distinct(groups) && order == SortBy(le, groups)
    requires forall g :: g in groups <==> exists x :: x in s && x.groupId == g
    requires forall g | g in groups :: g in first && first[g] == OpeningTime(s, g)
    requires forall g, h :: le(g, h) <==> KeyLessOrEqual(first, g, h)
    ensures IsGroupOrder(s, order)
    ensures forall g :: g in order <==> g in groups
  {
    LessIsStrictTotalOrder();
    hide Less, OpeningTime, SortBy;
    SortIsSorted(le, groups);
    SortKeepsElements(le, groups);
    SortKeepsDistinct(le, groups);
    forall i, j | 0 <= i < j < |order| ensures GroupLess(s, order[i], order[j]) {
      assert order[i] in order && order[j] in order && le(order[i], order[j]);
    }
  }

  method OrderGroups(grouped: map<string, seq<Sample>>, ghost s: seq<Sample>) returns (order: seq<string>)
    requires GroupsAre(s, |s|, grouped)
    ensures IsGroupOrder(s, order)
    ensures forall g :: g in order <==> g in grouped
  {
    hide GroupsAre, IsGroupOrder, SortBy, KeyLessOrEqual;
    var groups, first := OpeningTimes(grouped, s);
    var le := (g, h) => KeyLessOrEqual(first, g, h);
    GroupNames(s, grouped);
    order := SortBy(le, groups);
    KeyOrderIsGroupOrder(s, groups, first, le, order);
  }

  lemma GroupsNonempty(s: seq<Sample>, grouped: map<string, seq<Sample>>)
    requires GroupsAre(s, |s|, grouped)
    ensures forall g | g in grouped :: grouped[g] != []
  {
  }

  lemma GroupNames(s: seq<Sample>, grouped: map<string, seq<Sample>>)
    requires GroupsAre(s, |s|, grouped)
    ensures forall g :: g in grouped <==> exists x :: x in s && x.groupId == g
  {
    assert s[..|s|] == s;
    forall g ensures g in grouped <==> exists x :: x in s && x.groupId == g {
      if g in grouped {
        var x := grouped[g][0];
        assert x in grouped[g];
        assert x in s[..|s|] && x.groupId == g;
      }
      if x :| x in s && x.groupId == g {
        assert x in s[..|s|];
      }
    }
  }

  /** The samples of a run of groups that were observed before a limit, in time order. */
  method Collect(grouped: map<string, seq<Sample>>, order: seq<string>, lo: nat, hi: nat, limit: Option<int>,
                 ghost s: seq<Sample>) returns (listed: seq<Sample>)
    requires UniqueIds(s) && GroupsAre(s, |s|, grouped) && IsGroupOrder(s, order) && lo <= hi <= |order|
    requires forall g :: g in order <==> g in grouped
    ensures SortedBy(TimeLess, listed)
    ensures forall x :: x in listed <==>
      x in s && InSlice(order, lo, hi, x.groupId) && (limit.Some? ==> x.observedAt < limit.value)
  {
    hide GroupsAre, IsGroupOrder, UniqueIds, TimeLess;
    listed := [];
    assert UniqueIds(listed) by { NoIds(); }
    for n := lo to hi
      invariant UniqueIds(listed)
      invariant forall x :: x in listed <==>
        x in s && InSlice(order, lo, n, x.groupId) && (limit.Some? ==> x.observedAt < limit.value)
    {
      assert order[n] in order;
      var more := Before(grouped[order[n]], limit);
      AppendGroup(s, grouped, order, lo, n, limit, listed, more);
      listed := listed + more;
    }
    listed := TimeSorted(listed);
  }

  lemma NoIds()
    ensures UniqueIds([])
  {
  }

  function Before(s: seq<Sample>, limit: Option<int>): seq<Sample> {
    if s == [] then []
    else if limit.Some? && s[0].observedAt >= limit.value then Before(s[1..], limit)
    else [s[0]] + Before(s[1..], limit)
  }

  lemma {:induction false} BeforeKeeps(s: seq<Sample>, limit: Option<int>)
    ensures forall x :: x in Before(s, limit) <==> x in s && (limit.Some? ==> x.observedAt < limit.value)
  {
    if s != [] {
      BeforeKeeps(s[1..], limit);
      assert s == [s[0]] + s[1..];
    }
  }

  lemma {:induction false} BeforeKeepsUnique(s: seq<Sample>, limit: Option<int>)
    requires UniqueIds(s)
    ensures UniqueIds(Before(s, limit))
  {
    if s != [] {
      var rest := Before(s[1..], limit);
      BeforeKeepsUnique(s[1..], limit);
      BeforeKeeps(s[1..], limit);
      forall x | x in rest ensures x.sampleId != s[0].sampleId {
        var i :| 1 <= i < |s| && s[i] == x;
      }
    }
  }

  lemma AppendGroup(s: seq<Sample>, grouped: map<string, seq<Sample>>, order: seq<string>, lo: nat, n: nat,
                    limit: Option<int>, listed: seq<Sample>, more: seq<Sample>)
    requires UniqueIds(s)
    requires GroupsAre(s, |s|, grouped) && IsGroupOrder(s, order) && lo <= n < |order| && order[n] in grouped
    requires more == Before(grouped[order[n]], limit) && UniqueIds(listed)
    requires forall x :: x in listed <==>
      x in s && InSlice(order, lo, n, x.groupId) && (limit.Some? ==> x.observedAt < limit.value)
    ensures UniqueIds(listed + more)
    ensures forall x :: x in listed + more <==>
      x in s && InSlice(order, lo, n + 1, x.groupId) && (limit.Some? ==> x.observedAt < limit.value)
  {
    hide GroupLess, Before;
    var g := order[n];
    BeforeKeeps(grouped[g], limit);
    BeforeKeepsUnique(grouped[g], limit);
    assert s[..|s|] == s;
    SliceStep(s, order, lo, n);
    forall x, y | x in listed && y in more ensures x.sampleId != y.sampleId {
      assert x.groupId != g && y.groupId == g && y in s;
      var i :| 0 <= i < |s| && s[i] == x;
      var j :| 0 <= j < |s| && s[j] == y;
    }
  }

  lemma SliceStep(s: seq<Sample>, order: seq<string>, lo: nat, n: nat)
    requires IsGroupOrder(s, order) && lo <= n < |order|
    ensures forall g :: InSlice(order, lo, n + 1, g) <==> InSlice(order, lo, n, g) || g == order[n]
    ensures !InSlice(order, lo, n, order[n])
  {
    hide OpeningTime, Less;
    if i :| lo <= i < n && order[i] == order[n] {
      assert GroupLess(s, order[i], order[n]);
      LessIsIrreflexive(order[n]);
      assert false;
    }
    forall g ensures InSlice(order, lo, n + 1, g) <==> InSlice(order, lo, n, g) || g == order[n] {
      if i :| lo <= i < n + 1 && order[i] == g {
        assert i < n || g == order[n];
      }
      if i :| lo <= i < n && order[i] == g {
        assert lo <= i < n + 1;
      }
    }
  }

  method TimeSorted(s: seq<Sample>) returns (sorted: seq<Sample>)
    requires UniqueIds(s)
    ensures SortedBy(TimeLess, sorted) && forall x :: x in sorted <==> x in s
  {
    LessIsStrictTotalOrder();
    hide Less;
    SortIsSorted(TimeLessOrEqual, s);
    SortKeepsElements(TimeLessOrEqual, s);
    sorted := SortBy(TimeLessOrEqual, s);
    assert Distinct(s);
    SortKeepsDistinct(TimeLessOrEqual, s);
    hide SortBy;
    forall i, j | 0 <= i < j < |sorted| ensures TimeLess(sorted[i], sorted[j]) {
      assert TimeLessOrEqual(sorted[i], sorted[j]);
      assert sorted[i] in sorted && sorted[j] in sorted && sorted[i] in s && sorted[j] in s;
    }
  }

  lemma FoldAssembled(s: seq<Sample>, order: seq<string>, c: Splitter, k: nat, train: seq<Sample>, test: seq<Sample>)
    requires HasFold(c, order, k) && IsTest(s, order, c, k, test) && test != [] && train != []
    requires IsTrain(s, order, c, k, test[0].observedAt - c.purgeGap, train)
    ensures IsFold(s, order, c, k, FoldOf(c, k, train, test))
  {
  }

  /** No sample at all precedes the purge cutoff of the `k`-th fold. */
  ghost predicate Starved(s: seq<Sample>, order: seq<string>, c: Splitter, k: nat)
    requires Offset(c, k) < |order|
  {
    forall x | x in s :: x.observedAt >= OpeningTime(s, order[Offset(c, k)]) - c.purgeGap
  }

  lemma OffsetSteps(c: Splitter, k: nat)
    ensures Offset(c, 0) == c.minTrainGroups && Offset(c, k + 1) == Offset(c, k) + c.stepGroups
  {
  }

  lemma NothingBeforeCutoff(s: seq<Sample>, order: seq<string>, c: Splitter, k: nat, cutoff: int)
    requires ValidSplitter(c) && IsGroupOrder(s, order) && HasFold(c, order, k)
    requires cutoff == OpeningTime(s, order[Offset(c, k)]) - c.purgeGap
    requires forall x | x in s :: !(InSlice(order, 0, Offset(c, k), x.groupId) && x.observedAt < cutoff)
    ensures Starved(s, order, c, k)
  {
    hide IsGroupOrder, OpeningTime, InSlice;
    forall x | x in s ensures x.observedAt >= cutoff {
      if !InSlice(order, 0, Offset(c, k), x.groupId) {
        LaterGroupsOpenLater(s, order, Offset(c, k), x);
      }
    }
  }

  lemma FoldsCounted(s: seq<Sample>, order: seq<string>, c: Splitter, folds: seq<Fold>)
    requires ValidSplitter(c) && !HasFold(c, order, |folds|)
    requires forall k: nat | k < |folds| :: IsFold(s, order, c, k, folds[k])
    ensures forall k: nat :: k < |folds| <==> HasFold(c, order, k)
  {
    hide IsTest, IsTrain;
    forall k: nat ensures k < |folds| <==> HasFold(c, order, k) {
      if k < |folds| {
        assert IsFold(s, order, c, k, folds[k]);
      } else if k > |folds| {
        OffsetsGrow(c, |folds|, k);
      }
    }
  }

  /** The fold at one test offset, unless no sample is left to train on. */
  method AssembleFold(c: Splitter, grouped: map<string, seq<Sample>>, groups: seq<string>, testOffset: nat, k: nat,
                      ghost s: seq<Sample>) returns (fold: Option<Fold>)
    requires ValidSplitter(c) && UniqueIds(s) && GroupsAre(s, |s|, grouped) && IsGroupOrder(s, groups)
    requires forall g :: g in groups <==> g in grouped
    requires HasFold(c, groups, k) && testOffset == Offset(c, k)
    ensures fold.Some? ==> IsFold(s, groups, c, k, fold.value)
    ensures fold.None? ==> Starved(s, groups, c, k)
  {
    hide IsGroupOrder, GroupsAre, UniqueIds, IsFold, OpeningTime, InSlice, Offset, Starved, SortedBy, FoldOf;
    var test := Collect(grouped, groups, testOffset, testOffset + c.testGroups, None, s);
    TestStartsWithItsFirstGroup(s, groups, c, k, test);
    var cutoff := test[0].observedAt - c.purgeGap;
    var train := Collect(grouped, groups, 0, testOffset, Some(cutoff), s);
    if train == [] {
      NothingBeforeCutoff(s, groups, c, k, cutoff);
      return None;
    }
    FoldAssembled(s, groups, c, k, train, test);
    return Some(FoldOf(c, k, train, test));
  }

  method Split(c: Splitter, s: seq<Sample>) returns (r: Result<seq<Fold>, SplitError>, ghost order: seq<string>)
    requires ValidSplitter(c)
    ensures UniqueIds(s) ==> IsGroupOrder(s, order)
    ensures r.Ok? ==> UniqueIds(s) && (forall k: nat | k < |r.value| :: IsFold(s, order, c, k, r.value[k]))
    ensures r.Ok? ==> forall k: nat :: k < |r.value| <==> HasFold(c, order, k)
    ensures r == Err(DuplicateIds) <==> !UniqueIds(s)
    ensures r.Err? && UniqueIds(s) ==>
      r.error == FoldWithoutTraining && exists k: nat :: HasFold(c, order, k) && Starved(s, order, c, k)
  {
    order := [];
    var unique := IdsUnique(s);
    if !unique { return Err(DuplicateIds), order; }
    hide IsGroupOrder, GroupsAre, UniqueIds, IsFold, Offset, Starved;
    var grouped := Group(s);
    var groups := OrderGroups(grouped, s);
    order := groups;
    var folds: seq<Fold> := [];
    var testOffset := c.minTrainGroups;
    OffsetSteps(c, 0);
    while testOffset + c.testGroups <= |groups|
      invariant testOffset == Offset(c, |folds|)
      invariant forall k: nat | k < |folds| :: IsFold(s, order, c, k, folds[k])
      decreases |groups| - testOffset
    {
      var fold := AssembleFold(c, grouped, groups, testOffset, |folds|, s);
      if fold.None? { return Err(FoldWithoutTraining), order; }
      OffsetSteps(c, |folds|);
      folds := folds + [fold.value];
      testOffset := testOffset + c.stepGroups;
    }
    FoldsCounted(s, order, c, folds);
    return Ok(folds), order;
  }
}
