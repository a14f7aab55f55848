/**
  Topic proposals of one round are clustered with an anchored union-find
  (internal/application/ai_candidate_discourse.go) before the tree is rebuilt.

  The union-find lives in two arrays updated in place; `Reps` reads them as the
  sequence that gives each cluster the root of its class, and every method is
  specified by what it does to that sequence.  The judgement whether two clusters
  belong together is an arbitrary relation on cluster indices.
 */
module CandidateDiscourse {
  import opened Basics

  const TREE_ROOT_NODE_ID := "root"
  const TOPIC_PREFIX := "topic-"

  // ---------------------------------------------------------------- data model

  /** A topic of the previous tree that is not linked to an agenda, with its active items. */
  datatype MaterializedTopic = MaterializedTopic(id: string, slug: string, itemIds: seq<string>)

  /** A topic proposed in this round.  `slug` is the match-normalised label. */
  datatype Proposal = Proposal(id: string, slug: string)

  datatype Cluster = Cluster(id: string, slug: string, existing: bool, order: nat)

  datatype AssignmentSource = ModelSource | NoAgendaSpanSource | RuleSource

  datatype Assignment = Assignment(parentTopicId: string, serverSource: AssignmentSource)

  /** The namespaced form under which the model may also refer to a proposed topic. */
  function NormalizeProposedTopicId(id: string, slug: string): string {
    if id == "" || id == TREE_ROOT_NODE_ID then
      if slug == "" then "" else TOPIC_PREFIX + slug
    else if HasPrefix(id, TOPIC_PREFIX) then id
    else TOPIC_PREFIX + id
  }

  // ------------------------------------------------------------ cluster building

  function ExistingClusters(topics: seq<MaterializedTopic>): seq<Cluster> {
    if topics == [] then []
    else
      var earlier := ExistingClusters(topics[..|topics| - 1]);
      var topic := topics[|topics| - 1];
      if topic.itemIds == [] then earlier
      else earlier + [Cluster(topic.id, topic.slug, true, |earlier|)]
  }

  function ClustersOf(topics: seq<MaterializedTopic>, proposals: seq<Proposal>): seq<Cluster> {
    var existing := ExistingClusters(topics);
    existing + seq(|proposals|, i requires 0 <= i < |proposals| =>
      Cluster(proposals[i].id, proposals[i].slug, false, |existing| + i))
  }

  method BuildClusters(topics: seq<MaterializedTopic>, proposals: seq<Proposal>) returns (clusters: seq<Cluster>)
    ensures clusters == ClustersOf(topics, proposals)
  {
    clusters := [];
    for i := 0 to |topics|
      invariant clusters == ExistingClusters(topics[..i])
    {
      assert topics[..i + 1][..i] == topics[..i];
      if |topics[i].itemIds| > 0 {
        clusters := clusters + [Cluster(topics[i].id, topics[i].slug, true, |clusters|)];
      }
    }
    assert topics[..|topics|] == topics;
    var proposalStart := |clusters|;
    for i := 0 to |proposals|
      invariant |clusters| == proposalStart + i
      invariant clusters == ClustersOf(topics, proposals)[..proposalStart + i]
    {
      clusters := clusters + [Cluster(proposals[i].id, proposals[i].slug, false, proposalStart + i)];
    }
  }

  /** `order` is the cluster's index, and the materialized topics come first. */
  ghost predicate Ordered(c: seq<Cluster>) {
    && (forall i :: 0 <= i < |c| ==> c[i].order == i)
    && (forall i, j :: 0 <= i < j < |c| && c[j].existing ==> c[i].existing)
  }

  lemma {:induction false} ExistingClustersOrdered(topics: seq<MaterializedTopic>)
    ensures forall i :: 0 <= i < |ExistingClusters(topics)| ==>
      ExistingClusters(topics)[i].existing && ExistingClusters(topics)[i].order == i
  {
    if topics != [] {
      ExistingClustersOrdered(topics[..|topics| - 1]);
    }
  }

  lemma ClustersOrdered(topics: seq<MaterializedTopic>, proposals: seq<Proposal>)
    ensures Ordered(ClustersOf(topics, proposals))
  {
    ExistingClustersOrdered(topics);
  }

  // ------------------------------------------------------ classes as a sequence

  /** Each cluster's class, named by its root. */
  type Reps = seq<nat>

  predicate IsRoot(reps: Reps, r: nat) {
    r < |reps| && reps[r] == r
  }

  ghost predicate InRange(c: seq<Cluster>, reps: Reps) {
    |reps| == |c| && forall i :: 0 <= i < |c| ==> reps[i] < |c|
  }

  ghost predicate ValidReps(c: seq<Cluster>, reps: Reps) {
    && |reps| == |c|
    && (forall i :: 0 <= i < |c| ==> reps[i] <= i)
    && (forall i {:trigger IsRoot(reps, reps[i])} :: 0 <= i < |c| ==> IsRoot(reps, reps[i]))
    && (forall i :: 0 <= i < |c| && c[i].existing ==> reps[i] == i)
  }

  /** Whether the second root is kept in preference to the first. */
  predicate Prefers(c: seq<Cluster>, a: nat, b: nat)
    requires a < |c| && b < |c|
  {
    || (c[b].existing && !c[a].existing)
    || (c[b].existing == c[a].existing && c[b].order < c[a].order)
  }

  function Relabel(reps: Reps, drop: nat, keep: nat): Reps {
    seq(|reps|, j requires 0 <= j < |reps| => if reps[j] == drop then keep else reps[j])
  }

  function JoinReps(c: seq<Cluster>, reps: Reps, left: nat, right: nat): Reps
    requires |reps| == |c| && left < |c| && right < |c|
    requires reps[left] < |c| && reps[right] < |c|
  {
    var a, b := reps[left], reps[right];
    if a == b || (c[a].existing && c[b].existing) then reps
    else if Prefers(c, a, b) then Relabel(reps, a, b)
    else Relabel(reps, b, a)
  }

  lemma JoinRepsValid(c: seq<Cluster>, reps: Reps, left: nat, right: nat)
    requires Ordered(c) && ValidReps(c, reps) && left < |c| && right < |c|
    ensures ValidReps(c, JoinReps(c, reps, left, right))
  {
    var joined := JoinReps(c, reps, left, right);
    assert IsRoot(reps, reps[left]) && IsRoot(reps, reps[right]);
    forall i | 0 <= i < |c| ensures IsRoot(joined, joined[i]) {
      assert IsRoot(reps, reps[i]);
    }
  }

  // ------------------------------------------------------------- the union-find

  ghost predicate Forest(p: seq<nat>) {
    forall i :: 0 <= i < |p| ==> p[i] <= i
  }

  ghost function RootOf(p: seq<nat>, i: nat): (r: nat)
    requires Forest(p) && i < |p|
    ensures r <= i && p[r] == r
    decreases i
  {
    if p[i] == i then i else RootOf(p, p[i])
  }

  lemma {:induction false} CompressKeepsRoots(p: seq<nat>, v: nat, i: nat)
    requires Forest(p) && v < |p| && i < |p|
    ensures Forest(p[v := RootOf(p, v)])
    ensures RootOf(p[v := RootOf(p, v)], i) == RootOf(p, i)
    decreases i
  {
    var q := p[v := RootOf(p, v)];
    if i == v {
      assert q[RootOf(p, v)] == RootOf(p, v);
    } else if p[i] != i {
      CompressKeepsRoots(p, v, p[i]);
    }
  }

  lemma {:induction false} LinkRelabelsRoots(p: seq<nat>, drop: nat, keep: nat, i: nat)
    requires Forest(p) && keep < drop < |p| && i < |p| && p[drop] == drop && p[keep] == keep
    ensures Forest(p[drop := keep])
    ensures RootOf(p[drop := keep], i) == if RootOf(p, i) == drop then keep else RootOf(p, i)
    decreases i
  {
    if i != drop && p[i] != i {
      LinkRelabelsRoots(p, drop, keep, p[i]);
    }
  }

  class UnionFind {
    const clusters: seq<Cluster>
    const parent: array<nat>
    const anchor: array<int>

    ghost predicate Valid()
      reads this, parent, anchor
    {
      && Ordered(clusters)
      && parent.Length == anchor.Length == |clusters|
      && parent as object != anchor as object
      && Forest(parent[..])
      && (forall i :: 0 <= i < |clusters| && clusters[i].existing ==> parent[i] == i)
      && (forall i :: 0 <= i < |clusters| && parent[i] == i ==>
            anchor[i] == if clusters[i].existing then i else -1)
    }

    ghost function Reps(): (reps: Reps)
      requires Valid()
      reads this, parent, anchor
      ensures InRange(clusters, reps)
    {
      seq(|clusters|, i requires 0 <= i < |clusters| && Forest(parent[..]) && parent.Length == |clusters|
        reads this, parent => RootOf(parent[..], i))
    }

    constructor (clusters: seq<Cluster>)
      requires Ordered(clusters)
      ensures Valid() && fresh(parent) && fresh(anchor) && this.clusters == clusters
      ensures Reps() == seq(|clusters|, i => i)
    {
      var p := new nat[|clusters|](i => i);
      var a := new int[|clusters|](i requires 0 <= i < |clusters| => if clusters[i].existing then i else -1);
      this.clusters := clusters;
      parent := p;
      anchor := a;
    }

    /** Root lookup with path compression: no class changes. */
    method Find(value: nat) returns (root: nat)
      requires Valid() && value < |clusters|
      modifies parent
      ensures Valid() && Reps() == old(Reps())
      ensures root == Reps()[value] && parent[root] == root
      ensures forall i :: 0 <= i < |clusters| && old(parent[i]) == i ==> parent[i] == i
      decreases value
    {
      if parent[value] != value {
        ghost var before := parent[..];
        var r := Find(parent[value]);
        ghost var p := parent[..];
        assert r == RootOf(p, value) by {
          assert RootOf(before, value) == RootOf(before, before[value]);
          assert RootOf(p, value) == Reps()[value];
        }
        forall i: nat | i < |clusters|
          ensures Forest(p[value := r]) && RootOf(p[value := r], i) == RootOf(p, i)
        {
          CompressKeepsRoots(p, value, i);
        }
        parent[value] := r;
        assert parent[..] == p[value := r];
      }
      root := parent[value];
    }

    method Join(left0: nat, right0: nat)
      requires Valid() && left0 < |clusters| && right0 < |clusters|
      modifies parent, anchor
      ensures Valid()
      ensures Reps() == JoinReps(clusters, old(Reps()), left0, right0)
    {
      var left: nat := Find(left0);
      var right: nat := Find(right0);
      if left == right {
        return;
      }
      if anchor[left] >= 0 && anchor[right] >= 0 && anchor[left] != anchor[right] {
        return;
      }
      if Prefers(clusters, left, right) {
        left, right := right, left;
      }
      ghost var p := parent[..];
      assert left < right;
      forall i: nat | i < |clusters|
        ensures Forest(p[right := left])
        ensures RootOf(p[right := left], i) == if RootOf(p, i) == right then left else RootOf(p, i)
      {
        LinkRelabelsRoots(p, right, left, i);
      }
      parent[right] := left;
      assert parent[..] == p[right := left];
      if anchor[left] < 0 {
        anchor[left] := anchor[right];
      }
    }

    method JoinIfRelated(related: set<(nat, nat)>, left: nat, right: nat)
      requires Valid() && left < |clusters| && right < |clusters|
      modifies parent, anchor
      ensures Valid()
      ensures Reps() == PairStep(clusters, related, old(Reps()), left, right)
    {
      if clusters[left].existing && clusters[right].existing {
        return;
      }
      if (left, right) in related {
        Join(left, right);
      }
    }

    /** The classes are those before the pair (left, right) is looked at. */
    ghost predicate JoinedUpTo(related: set<(nat, nat)>, left: nat, right: nat)
      reads this, parent, anchor
    {
      && Valid()
      && left <= |clusters| && left < right && (right <= |clusters| || right == left + 1)
      && Reps() == JoinUpTo(clusters, related, left, right)
    }

    method JoinNext(related: set<(nat, nat)>, left: nat, right: nat)
      requires right < |clusters| && JoinedUpTo(related, left, right)
      modifies parent, anchor
      ensures JoinedUpTo(related, left, right + 1)
    {
      ghost var before := Reps();
      JoinIfRelated(related, left, right);
      JoinUpToNext(clusters, related, left, right, before, Reps());
    }

    method JoinRow(related: set<(nat, nat)>, left: nat)
      requires left < |clusters| && JoinedUpTo(related, left, left + 1)
      modifies parent, anchor
      ensures JoinedUpTo(related, left, |clusters|)
    {
      var right: nat := left + 1;
      while right < |clusters|
        invariant left + 1 <= right <= |clusters|
        invariant JoinedUpTo(related, left, right)
      {
        JoinNext(related, left, right);
        right := right + 1;
      }
    }

    lemma RowIsDone(related: set<(nat, nat)>, left: nat)
      requires left < |clusters| && JoinedUpTo(related, left, |clusters|)
      ensures JoinedUpTo(related, left + 1, left + 2)
    {
      JoinUpToNextRow(clusters, related, left);
    }

    /** Every pair of clusters in index order, except pairs of materialized topics. */
    method JoinRelated(related: set<(nat, nat)>)
      requires Valid() && Reps() == seq(|clusters|, i => i)
      modifies parent, anchor
      ensures Valid()
      ensures Reps() == Classes(clusters, related)
    {
      var left: nat := 0;
      while left < |clusters|
        invariant left <= |clusters| && JoinedUpTo(related, left, left + 1)
      {
        JoinRow(related, left);
        RowIsDone(related, left);
        left := left + 1;
      }
    }

    /** The alias table: every name of an absorbed proposal leads to its class root's ID. */
    method CollectAliases() returns (aliases: map<string, string>)
      requires Valid()
      modifies parent
      ensures Valid() && Reps() == old(Reps())
      ensures aliases == AliasesUpTo(clusters, Reps(), |clusters|)
    {
      aliases := map[];
      for index := 0 to |clusters|
        invariant Valid() && Reps() == old(Reps())
        invariant aliases == AliasesUpTo(clusters, Reps(), index)
      {
        var root := Find(index);
        if root == index || clusters[index].existing {
          continue;
        }
        var targetId := clusters[root].id;
        if targetId == "" || targetId == clusters[index].id {
          continue;
        }
        aliases := aliases[clusters[index].id := targetId];
        aliases := aliases[NormalizeProposedTopicId(clusters[index].id, clusters[index].slug) := targetId];
      }
    }
  }

  // ------------------------------------------------- what the pair loop computes

  function PairStep(c: seq<Cluster>, related: set<(nat, nat)>, reps: Reps, left: nat, right: nat): Reps
    requires |reps| == |c| && left < |c| && right < |c|
    requires reps[left] < |c| && reps[right] < |c|
  {
    if !(c[left].existing && c[right].existing) && (left, right) in related
    then JoinReps(c, reps, left, right)
    else reps
  }

  /** The classes before the pair (left, right) is looked at. */
  ghost function JoinUpTo(c: seq<Cluster>, related: set<(nat, nat)>, left: nat, right: nat): (reps: Reps)
    requires left <= |c| && left < right && (right <= |c| || right == left + 1)
    ensures InRange(c, reps)
    decreases left, right
  {
    if right > left + 1 then PairStep(c, related, JoinUpTo(c, related, left, right - 1), left, right - 1)
    else if left > 0 then JoinUpTo(c, related, left - 1, |c|)
    else seq(|c|, i => i)
  }

  lemma JoinUpToNext(c: seq<Cluster>, related: set<(nat, nat)>, left: nat, right: nat, before: Reps, after: Reps)
    requires left < right < |c|
    requires before == JoinUpTo(c, related, left, right)
    requires after == PairStep(c, related, before, left, right)
    ensures after == JoinUpTo(c, related, left, right + 1)
  {}

  lemma JoinUpToNextRow(c: seq<Cluster>, related: set<(nat, nat)>, left: nat)
    requires left < |c|
    ensures JoinUpTo(c, related, left, |c|) == JoinUpTo(c, related, left + 1, left + 2)
  {}

  /** The classes after the whole loop. */
  ghost function Classes(c: seq<Cluster>, related: set<(nat, nat)>): (reps: Reps)
    ensures InRange(c, reps)
  {
    JoinUpTo(c, related, |c|, |c| + 1)
  }

  /** Two clusters the pair loop may join: related, and not both materialized. */
  ghost predicate Edge(c: seq<Cluster>, related: set<(nat, nat)>, i: nat, j: nat) {
    && i < |c| && j < |c|
    && !(c[i].existing && c[j].existing)
    && (if i < j then (i, j) in related else (j, i) in related)
  }

  ghost predicate Chain(c: seq<Cluster>, related: set<(nat, nat)>, p: seq<nat>) {
    |p| > 0 && forall k :: 0 <= k < |p| - 1 ==> Edge(c, related, p[k], p[k + 1])
  }

  ghost predicate Connected(c: seq<Cluster>, related: set<(nat, nat)>, i: nat, j: nat) {
    exists p :: Chain(c, related, p) && p[0] == i && p[|p| - 1] == j
  }

  lemma ConnectedSelf(c: seq<Cluster>, related: set<(nat, nat)>, i: nat)
    ensures Connected(c, related, i, i)
  {
    assert Chain(c, related, [i]);
  }

  lemma ConnectedSymmetric(c: seq<Cluster>, related: set<(nat, nat)>, i: nat, j: nat)
    requires Connected(c, related, i, j)
    ensures Connected(c, related, j, i)
  {
    var p :| Chain(c, related, p) && p[0] == i && p[|p| - 1] == j;
    var q := seq(|p|, k requires 0 <= k < |p| => p[|p| - 1 - k]);
    forall k | 0 <= k < |q| - 1 ensures Edge(c, related, q[k], q[k + 1]) {
      assert Edge(c, related, p[|p| - 2 - k], p[|p| - 2 - k + 1]);
    }
    assert Chain(c, related, q);
  }

  lemma ConnectedTransitive(c: seq<Cluster>, related: set<(nat, nat)>, i: nat, j: nat, k: nat)
    requires Connected(c, related, i, j) && Connected(c, related, j, k)
    ensures Connected(c, related, i, k)
  {
    var p :| Chain(c, related, p) && p[0] == i && p[|p| - 1] == j;
    var q :| Chain(c, related, q) && q[0] == j && q[|q| - 1] == k;
    var r := p + q[1..];
    forall m | 0 <= m < |r| - 1 ensures Edge(c, related, r[m], r[m + 1]) {
      if m < |p| - 1 {
        assert Edge(c, related, p[m], p[m + 1]);
      } else {
        assert Edge(c, related, q[m - |p| + 1], q[m - |p| + 2]);
      }
    }
    assert Chain(c, related, r);
  }

  ghost predicate ChainedToRoots(c: seq<Cluster>, related: set<(nat, nat)>, reps: Reps)
    requires |reps| == |c|
  {
    forall i :: 0 <= i < |c| ==> Connected(c, related, i, reps[i])
  }

  /** A related pair is in one class, or kept apart by two different anchors. */
  ghost predicate SettledPair(c: seq<Cluster>, reps: Reps, i: nat, j: nat)
    requires ValidReps(c, reps) && i < |c| && j < |c|
  {
    reps[i] == reps[j] || (c[reps[i]].existing && c[reps[j]].existing)
  }

  ghost predicate Settled(c: seq<Cluster>, related: set<(nat, nat)>, reps: Reps, left: nat, right: nat)
    requires ValidReps(c, reps)
  {
    forall i: nat, j: nat :: i < j < |c| && (i < left || (i == left && j < right)) && Edge(c, related, i, j) ==>
      SettledPair(c, reps, i, j)
  }

  lemma JoinKeepsSettled(c: seq<Cluster>, reps: Reps, left: nat, right: nat, i: nat, j: nat)
    requires Ordered(c) && ValidReps(c, reps) && left < |c| && right < |c| && i < |c| && j < |c|
    ensures ValidReps(c, JoinReps(c, reps, left, right))
    ensures SettledPair(c, reps, i, j) ==> SettledPair(c, JoinReps(c, reps, left, right), i, j)
    ensures SettledPair(c, JoinReps(c, reps, left, right), left, right)
  {
    JoinRepsValid(c, reps, left, right);
  }

  lemma JoinKeepsChains(c: seq<Cluster>, related: set<(nat, nat)>, reps: Reps, left: nat, right: nat)
    requires Ordered(c) && ValidReps(c, reps) && left < right < |c| && Edge(c, related, left, right)
    requires ChainedToRoots(c, related, reps)
    ensures ChainedToRoots(c, related, JoinReps(c, reps, left, right))
  {
    var a, b := reps[left], reps[right];
    assert Connected(c, related, a, b) by {
      ConnectedSymmetric(c, related, left, a);
      assert Chain(c, related, [left, right]);
      assert [left, right][0] == left && [left, right][1] == right;
      ConnectedTransitive(c, related, a, left, right);
      ConnectedTransitive(c, related, a, right, b);
    }
    ConnectedSymmetric(c, related, a, b);
    var joined := JoinReps(c, reps, left, right);
    forall i | 0 <= i < |c| ensures Connected(c, related, i, joined[i]) {
      if joined[i] != reps[i] {
        ConnectedTransitive(c, related, i, reps[i], joined[i]);
      }
    }
  }

  lemma PairStepFacts(c: seq<Cluster>, related: set<(nat, nat)>, reps: Reps, left: nat, right: nat)
    requires Ordered(c) && ValidReps(c, reps) && left < right < |c|
    requires ChainedToRoots(c, related, reps) && Settled(c, related, reps, left, right)
    ensures ValidReps(c, PairStep(c, related, reps, left, right))
    ensures ChainedToRoots(c, related, PairStep(c, related, reps, left, right))
    ensures Settled(c, related, PairStep(c, related, reps, left, right), left, right + 1)
  {
    if Edge(c, related, left, right) {
      JoinRepsValid(c, reps, left, right);
      JoinKeepsChains(c, related, reps, left, right);
      forall i: nat, j: nat | i < j < |c| && (i < left || (i == left && j < right + 1)) && Edge(c, related, i, j)
        ensures SettledPair(c, JoinReps(c, reps, left, right), i, j)
      {
        JoinKeepsSettled(c, reps, left, right, i, j);
      }
    }
  }

  /** Everything joined so far is chained, and every pair looked at is settled. */
  ghost predicate Joined(c: seq<Cluster>, related: set<(nat, nat)>, reps: Reps, left: nat, right: nat) {
    ValidReps(c, reps) && ChainedToRoots(c, related, reps) && Settled(c, related, reps, left, right)
  }

  lemma NextPairJoined(c: seq<Cluster>, related: set<(nat, nat)>, left: nat, right: nat)
    requires Ordered(c) && left < right < |c|
    requires Joined(c, related, JoinUpTo(c, related, left, right), left, right)
    ensures Joined(c, related, JoinUpTo(c, related, left, right + 1), left, right + 1)
  {
    var before := JoinUpTo(c, related, left, right);
    PairStepFacts(c, related, before, left, right);
    JoinUpToNext(c, related, left, right, before, PairStep(c, related, before, left, right));
  }

  lemma NextRowJoined(c: seq<Cluster>, related: set<(nat, nat)>, left: nat)
    requires Ordered(c) && left < |c|
    requires Joined(c, related, JoinUpTo(c, related, left, |c|), left, |c|)
    ensures Joined(c, related, JoinUpTo(c, related, left + 1, left + 2), left + 1, left + 2)
  {
    JoinUpToNextRow(c, related, left);
  }

  lemma NothingJoined(c: seq<Cluster>, related: set<(nat, nat)>)
    requires Ordered(c)
    ensures Joined(c, related, JoinUpTo(c, related, 0, 1), 0, 1)
  {
    forall i: nat | i < |c| ensures Connected(c, related, i, i) {
      ConnectedSelf(c, related, i);
    }
  }

  lemma {:induction false} JoinUpToFacts(c: seq<Cluster>, related: set<(nat, nat)>, left: nat, right: nat)
    requires Ordered(c) && left <= |c| && left < right && (right <= |c| || right == left + 1)
    ensures Joined(c, related, JoinUpTo(c, related, left, right), left, right)
    decreases left, right
  {
    if right > left + 1 {
      JoinUpToFacts(c, related, left, right - 1);
      NextPairJoined(c, related, left, right - 1);
    } else if left > 0 {
      JoinUpToFacts(c, related, left - 1, |c|);
      NextRowJoined(c, related, left - 1);
    } else {
      NothingJoined(c, related);
    }
  }

  lemma ClassesAreValid(c: seq<Cluster>, related: set<(nat, nat)>)
    requires Ordered(c)
    ensures ValidReps(c, Classes(c, related))
  {
    JoinUpToFacts(c, related, |c|, |c| + 1);
  }

  // -------------------------------------------------------------- main results

  /**
    The classes of the whole round, for any relation: a class is rooted at its
    lowest index; a materialized topic is always the root of its class, so no
    class holds two; members of a class are linked by a chain of related pairs;
    and a related pair is split only between two different anchors.
   */
  lemma ClassesAreAnchoredComponents(c: seq<Cluster>, related: set<(nat, nat)>)
    requires Ordered(c)
    ensures var reps := Classes(c, related);
      && (forall i, j :: 0 <= i < |c| && 0 <= j < |c| && reps[i] == reps[j] ==> reps[i] <= j)
      && (forall i, j :: 0 <= i < |c| && 0 <= j < |c| && reps[i] == reps[j] && c[j].existing ==> reps[i] == j)
      && (forall i, j :: 0 <= i < |c| && 0 <= j < |c| && reps[i] == reps[j] ==> Connected(c, related, i, j))
      && (forall i, j :: 0 <= i < j < |c| && Edge(c, related, i, j) && reps[i] != reps[j] ==>
            c[reps[i]].existing && c[reps[j]].existing)
  {
    var reps := Classes(c, related);
    JoinUpToFacts(c, related, |c|, |c| + 1);
    forall i, j | 0 <= i < |c| && 0 <= j < |c| && reps[i] == reps[j]
      ensures Connected(c, related, i, j)
    {
      ConnectedSymmetric(c, related, j, reps[j]);
      ConnectedTransitive(c, related, i, reps[i], j);
    }
    forall i, j | 0 <= i < j < |c| && Edge(c, related, i, j) && reps[i] != reps[j]
      ensures c[reps[i]].existing && c[reps[j]].existing
    {
      assert SettledPair(c, reps, i, j);
    }
  }

  // ------------------------------------------------------------ alias rewriting

  /** Both forms under which assignments may refer to a proposal. */
  function Names(id: string, slug: string): set<string> {
    {id, NormalizeProposedTopicId(id, slug)}
  }

  /** A proposal that gives way to its class root. */
  predicate Absorbed(c: seq<Cluster>, reps: Reps, i: nat)
    requires |reps| == |c| && i < |c| && reps[i] < |c|
  {
    reps[i] != i && !c[i].existing && c[reps[i]].id != "" && c[reps[i]].id != c[i].id
  }

  ghost function AliasesUpTo(c: seq<Cluster>, reps: Reps, n: nat): map<string, string>
    requires InRange(c, reps) && n <= |c|
  {
    if n == 0 then map[]
    else if Absorbed(c, reps, n - 1) then
      AliasesUpTo(c, reps, n - 1)
        [c[n - 1].id := c[reps[n - 1]].id]
        [NormalizeProposedTopicId(c[n - 1].id, c[n - 1].slug) := c[reps[n - 1]].id]
    else AliasesUpTo(c, reps, n - 1)
  }

  ghost function Aliases(c: seq<Cluster>, related: set<(nat, nat)>): map<string, string> {
    AliasesUpTo(c, Classes(c, related), |c|)
  }

  function Redirect(aliases: map<string, string>, parentTopicId: string): string {
    if parentTopicId in aliases then aliases[parentTopicId] else parentTopicId
  }

  function RewriteAssignment(aliases: map<string, string>, existingIds: set<string>, a: Assignment): Assignment {
    if a.parentTopicId in aliases then
      Assignment(aliases[a.parentTopicId],
        if aliases[a.parentTopicId] in existingIds then RuleSource else a.serverSource)
    else a
  }

  predicate Dropped(aliases: map<string, string>, id: string, slug: string) {
    id in aliases || NormalizeProposedTopicId(id, slug) in aliases
  }

  function Kept(aliases: map<string, string>, proposals: seq<Proposal>): seq<Proposal> {
    if proposals == [] then []
    else
      var earlier := Kept(aliases, proposals[..|proposals| - 1]);
      var topic := proposals[|proposals| - 1];
      if Dropped(aliases, topic.id, topic.slug) then earlier else earlier + [topic]
  }

  function ExistingIds(c: seq<Cluster>): set<string> {
    set i | 0 <= i < |c| && c[i].existing :: c[i].id
  }

  lemma {:induction false} AliasFacts(c: seq<Cluster>, reps: Reps, n: nat, p: string)
    requires InRange(c, reps) && n <= |c|
    ensures p in AliasesUpTo(c, reps, n) <==>
      exists i: nat :: i < n && Absorbed(c, reps, i) && p in Names(c[i].id, c[i].slug)
    ensures p in AliasesUpTo(c, reps, n) ==>
      exists i: nat :: i < n && Absorbed(c, reps, i) && p in Names(c[i].id, c[i].slug)
        && AliasesUpTo(c, reps, n)[p] == c[reps[i]].id
  {
    if n > 0 {
      AliasFacts(c, reps, n - 1, p);
    }
  }

  lemma {:induction false} KeptFacts(aliases: map<string, string>, proposals: seq<Proposal>)
    ensures forall t :: t in Kept(aliases, proposals) <==> t in proposals && !Dropped(aliases, t.id, t.slug)
  {
    if proposals != [] {
      KeptFacts(aliases, proposals[..|proposals| - 1]);
      assert proposals == proposals[..|proposals| - 1] + [proposals[|proposals| - 1]];
    }
  }

  lemma {:induction false} OneClusterHasNoAliases(c: seq<Cluster>, reps: Reps, n: nat)
    requires InRange(c, reps) && n <= |c| < 2
    ensures AliasesUpTo(c, reps, n) == map[]
  {
    if n > 0 {
      OneClusterHasNoAliases(c, reps, n - 1);
    }
  }

  lemma KeptEverything(proposals: seq<Proposal>)
    ensures Kept(map[], proposals) == proposals
  {
    if proposals != [] {
      KeptEverything(proposals[..|proposals| - 1]);
      assert proposals == proposals[..|proposals| - 1] + [proposals[|proposals| - 1]];
    }
  }

  method RewriteAll(assignments: array<Assignment>, aliases: map<string, string>, existingTopicIds: set<string>)
    modifies assignments
    ensures forall k :: 0 <= k < assignments.Length ==>
      assignments[k] == RewriteAssignment(aliases, existingTopicIds, old(assignments[k]))
  {
    for index := 0 to assignments.Length
      invariant forall k :: 0 <= k < index ==>
        assignments[k] == RewriteAssignment(aliases, existingTopicIds, old(assignments[k]))
      invariant forall k :: index <= k < assignments.Length ==> assignments[k] == old(assignments[k])
    {
      if assignments[index].parentTopicId in aliases {
        var targetId := aliases[assignments[index].parentTopicId];
        var source := if targetId in existingTopicIds then RuleSource else assignments[index].serverSource;
        assignments[index] := Assignment(targetId, source);
      }
    }
  }

  method KeepUndropped(aliases: map<string, string>, proposals: seq<Proposal>) returns (kept: seq<Proposal>)
    ensures kept == Kept(aliases, proposals)
  {
    kept := [];
    for index := 0 to |proposals|
      invariant kept == Kept(aliases, proposals[..index])
    {
      assert proposals[..index + 1][..index] == proposals[..index];
      var topic := proposals[index];
      if topic.id !in aliases && NormalizeProposedTopicId(topic.id, topic.slug) !in aliases {
        kept := kept + [topic];
      }
    }
    assert proposals[..|proposals|] == proposals;
  }

  /**
    One round of reconciliation.  `related` is the discourse relation between the
    clusters in the order `ClustersOf` lists them.  Assignments are rewritten in
    place; the surviving proposals are returned.
   */
  method Reconcile(assignments: array<Assignment>, proposals: seq<Proposal>,
      topics: seq<MaterializedTopic>, related: set<(nat, nat)>) returns (kept: seq<Proposal>)
    modifies assignments
    ensures Ordered(ClustersOf(topics, proposals))
    ensures kept == Kept(Aliases(ClustersOf(topics, proposals), related), proposals)
    ensures proposals == [] ==> assignments[..] == old(assignments[..])
    ensures proposals != [] ==> forall k :: 0 <= k < assignments.Length ==>
      assignments[k] == RewriteAssignment(Aliases(ClustersOf(topics, proposals), related),
        ExistingIds(ClustersOf(topics, proposals)), old(assignments[k]))
  {
    ClustersOrdered(topics, proposals);
    if |proposals| == 0 {
      return proposals;
    }
    var clusters := BuildClusters(topics, proposals);
    KeptEverything(proposals);
    if |clusters| < 2 {
      OneClusterHasNoAliases(clusters, Classes(clusters, related), |clusters|);
      return proposals;
    }
    var uf := new UnionFind(clusters);
    uf.JoinRelated(related);
    var aliases := uf.CollectAliases();
    assert aliases == Aliases(clusters, related);
    if |aliases| == 0 {
      assert aliases == map[];
      return proposals;
    }
    RewriteAll(assignments, aliases, ExistingIds(clusters));
    kept := KeepUndropped(aliases, proposals);
  }

  // ---------------------------------------------------- safety of the rewriting

  /** Every rewritten assignment points at the root of some class. */
  lemma RewrittenPointsAtRoot(c: seq<Cluster>, related: set<(nat, nat)>, p: string)
    requires Ordered(c) && p in Aliases(c, related)
    ensures exists i: nat ::
              && i < |c| && Absorbed(c, Classes(c, related), i) && p in Names(c[i].id, c[i].slug)
              && Redirect(Aliases(c, related), p) == c[Classes(c, related)[i]].id
    ensures Redirect(Aliases(c, related), p) != ""
  {
    AliasFacts(c, Classes(c, related), |c|, p);
  }

  /**
    A reference that names a proposal dropped this round and nothing that is
    still there: no materialized topic and no kept proposal.
   */
  ghost predicate Dangling(c: seq<Cluster>, related: set<(nat, nat)>, p: string)
    requires Ordered(c)
  {
    var aliases := Aliases(c, related);
    && (exists i :: 0 <= i < |c| && !c[i].existing && Dropped(aliases, c[i].id, c[i].slug)
          && p in Names(c[i].id, c[i].slug))
    && p !in ExistingIds(c)
    && (forall i :: 0 <= i < |c| && !c[i].existing && !Dropped(aliases, c[i].id, c[i].slug) ==>
          p !in Names(c[i].id, c[i].slug))
  }

  /** Whether rewriting a reference to `p` leaves it dangling. */
  ghost predicate LeavesDangling(topics: seq<MaterializedTopic>, proposals: seq<Proposal>,
      related: set<(nat, nat)>, p: string)
  {
    var c := ClustersOf(topics, proposals);
    ClustersOrdered(topics, proposals);
    Dangling(c, related, Redirect(Aliases(c, related), p))
  }

  ghost predicate DistinctIds(proposals: seq<Proposal>) {
    && (forall t :: t in proposals ==> t.id != "")
    && (forall i, j :: 0 <= i < j < |proposals| ==> proposals[i].id != proposals[j].id)
  }

  /** No two proposals share a name, raw or namespaced. */
  ghost predicate NamesDisjoint(proposals: seq<Proposal>) {
    forall i, j, name :: 0 <= i < |proposals| && 0 <= j < |proposals| && SharedName(proposals, i, j, name) ==> i == j
  }

  ghost predicate SharedName(proposals: seq<Proposal>, i: int, j: int, name: string)
    requires 0 <= i < |proposals| && 0 <= j < |proposals|
  {
    name in Names(proposals[i].id, proposals[i].slug) && name in Names(proposals[j].id, proposals[j].slug)
  }

  /** The same on the clusters: a name belongs to one proposal cluster. */
  ghost predicate OwnNames(c: seq<Cluster>) {
    forall i, k, name :: 0 <= i < |c| && 0 <= k < |c| && CommonName(c[i], c[k], name) ==> i == k
  }

  ghost predicate CommonName(a: Cluster, b: Cluster, name: string) {
    !a.existing && !b.existing && name in Names(a.id, a.slug) && name in Names(b.id, b.slug)
  }

  lemma DisjointNamesAreOwn(topics: seq<MaterializedTopic>, proposals: seq<Proposal>)
    requires NamesDisjoint(proposals)
    ensures OwnNames(ClustersOf(topics, proposals))
  {
    var c := ClustersOf(topics, proposals);
    var start := |ExistingClusters(topics)|;
    ExistingClustersOrdered(topics);
    forall i, k, name | 0 <= i < |c| && 0 <= k < |c| && CommonName(c[i], c[k], name)
      ensures i == k
    {
      assert SharedName(proposals, i - start, k - start, name);
    }
  }

  lemma DroppedMeansAbsorbed(c: seq<Cluster>, related: set<(nat, nat)>, i: nat)
    requires Ordered(c) && OwnNames(c)
    requires i < |c| && !c[i].existing && Dropped(Aliases(c, related), c[i].id, c[i].slug)
    ensures Absorbed(c, Classes(c, related), i)
    ensures forall p :: p in Names(c[i].id, c[i].slug) ==> p in Aliases(c, related)
  {
    var reps := Classes(c, related);
    var name :| name in Names(c[i].id, c[i].slug) && name in Aliases(c, related);
    AliasFacts(c, reps, |c|, name);
    var k: nat :| k < |c| && Absorbed(c, reps, k) && name in Names(c[k].id, c[k].slug);
    assert CommonName(c[i], c[k], name);
    forall p | p in Names(c[i].id, c[i].slug) ensures p in Aliases(c, related) {
      AliasFacts(c, reps, |c|, p);
    }
  }

  lemma OwnNamesAreSafe(c: seq<Cluster>, related: set<(nat, nat)>, p: string)
    requires Ordered(c) && OwnNames(c)
    ensures !Dangling(c, related, Redirect(Aliases(c, related), p))
  {
    var reps := Classes(c, related);
    var aliases := Aliases(c, related);
    var q := Redirect(aliases, p);
    if Dangling(c, related, q) {
      if p in aliases {
        AliasFacts(c, reps, |c|, p);
        var i: nat :| i < |c| && Absorbed(c, reps, i) && aliases[p] == c[reps[i]].id;
        var root := reps[i];
        ClassesAreValid(c, related);
        assert IsRoot(reps, root);
        assert q in Names(c[root].id, c[root].slug);
        assert !c[root].existing;
        DroppedMeansAbsorbed(c, related, root);
        assert false;
      } else {
        var i: nat :| i < |c| && !c[i].existing && Dropped(aliases, c[i].id, c[i].slug)
          && q in Names(c[i].id, c[i].slug);
        DroppedMeansAbsorbed(c, related, i);
        assert false;
      }
    }
  }

  lemma DisjointNamesAreSafe(topics: seq<MaterializedTopic>, proposals: seq<Proposal>,
      related: set<(nat, nat)>, p: string)
    requires NamesDisjoint(proposals)
    ensures !LeavesDangling(topics, proposals, related, p)
  {
    ClustersOrdered(topics, proposals);
    DisjointNamesAreOwn(topics, proposals);
    OwnNamesAreSafe(ClustersOf(topics, proposals), related, p);
  }

  /** Every cluster its own root, except that `j` hangs from `i` once they are joined. */
  function PairReps(n: nat, i: nat, j: nat, joined: bool): Reps {
    seq(n, k requires 0 <= k < n => if joined && k == j then i else k)
  }

  lemma OnlyPairStep(c: seq<Cluster>, i: nat, j: nat, left: nat, right: nat)
    requires Ordered(c) && i < j < |c| && (forall k :: 0 <= k < |c| ==> !c[k].existing)
    requires left < right < |c|
    ensures var before := PairReps(|c|, i, j, i < left || (i == left && j < right));
      PairStep(c, {(i, j)}, before, left, right) ==
        PairReps(|c|, i, j, i < left || (i == left && j < right + 1))
  {}

  lemma {:induction false} OnlyPairClasses(c: seq<Cluster>, i: nat, j: nat, left: nat, right: nat)
    requires Ordered(c) && i < j < |c| && (forall k :: 0 <= k < |c| ==> !c[k].existing)
    requires left <= |c| && left < right && (right <= |c| || right == left + 1)
    ensures JoinUpTo(c, {(i, j)}, left, right) == PairReps(|c|, i, j, i < left || (i == left && j < right))
    decreases left, right
  {
    if right > left + 1 {
      OnlyPairClasses(c, i, j, left, right - 1);
      OnlyPairStep(c, i, j, left, right - 1);
    } else if left > 0 {
      OnlyPairClasses(c, i, j, left - 1, |c|);
    }
  }

  /** Two proposals that share a name lose each other's references when they are joined. */
  lemma SharedNameDangles(proposals: seq<Proposal>, i: nat, j: nat, name: string)
    requires DistinctIds(proposals) && i < j < |proposals|
    requires SharedName(proposals, i, j, name)
    ensures LeavesDangling([], proposals, {(i, j)}, proposals[j].id)
  {
    ClustersOrdered([], proposals);
    var c := ClustersOf([], proposals);
    var related := {(i, j)};
    OnlyPairClasses(c, i, j, |c|, |c| + 1);
    var reps := Classes(c, related);
    var aliases := Aliases(c, related);
    assert Absorbed(c, reps, j);
    forall p ensures p in aliases <==> p in Names(c[j].id, c[j].slug) {
      AliasFacts(c, reps, |c|, p);
    }
    AliasFacts(c, reps, |c|, c[j].id);
    var q := Redirect(aliases, c[j].id);
    assert q == c[i].id;
    assert Dropped(aliases, c[i].id, c[i].slug);
    forall k | 0 <= k < |c| && !Dropped(aliases, c[k].id, c[k].slug)
      ensures q !in Names(c[k].id, c[k].slug)
    {
      assert proposals[i] in proposals;
      assert k != i && c[k].id != q;
    }
    assert c[i].id in Names(c[i].id, c[i].slug);
  }

  ghost predicate AlwaysSafe(proposals: seq<Proposal>) {
    forall topics, related, p :: !LeavesDangling(topics, proposals, related, p)
  }

  lemma DisjointNamesAreAlwaysSafe(proposals: seq<Proposal>)
    requires NamesDisjoint(proposals)
    ensures AlwaysSafe(proposals)
  {
    forall topics, related, p ensures !LeavesDangling(topics, proposals, related, p) {
      DisjointNamesAreSafe(topics, proposals, related, p);
    }
  }

  lemma SharedNamesAreNotSafe(proposals: seq<Proposal>)
    requires DistinctIds(proposals) && !NamesDisjoint(proposals)
    ensures !AlwaysSafe(proposals)
  {
    var i: nat, j: nat, name :| i < |proposals| && j < |proposals| && SharedName(proposals, i, j, name) && i != j;
    SharedNameDangles(proposals, if i < j then i else j, if i < j then j else i, name);
  }

  /**
    With distinct raw IDs, the rewriting never leaves a reference to a dropped
    proposal, whatever the relation and the previous tree, exactly when no
    proposal's raw ID collides with another's namespaced ID.
   */
  lemma RewritingIsSafeIffNamesDisjoint(proposals: seq<Proposal>)
    requires DistinctIds(proposals)
    ensures NamesDisjoint(proposals) <==> AlwaysSafe(proposals)
  {
    if NamesDisjoint(proposals) {
      DisjointNamesAreAlwaysSafe(proposals);
    } else {
      SharedNamesAreNotSafe(proposals);
    }
  }

  /** Distinct raw IDs alone do not suffice: "x" and "topic-x", related, drop each other. */
  lemma DistinctIdsAreNotEnough()
    ensures var proposals := [Proposal("x", "a"), Proposal("topic-x", "b")];
      DistinctIds(proposals) && LeavesDangling([], proposals, {(0, 1)}, "topic-x")
  {
    var proposals := [Proposal("x", "a"), Proposal("topic-x", "b")];
    assert !HasPrefix("x", TOPIC_PREFIX) && "topic-x"[..6] == TOPIC_PREFIX;
    assert TOPIC_PREFIX + "x" == "topic-x";
    assert "x" != TREE_ROOT_NODE_ID by { assert |"x"| != |TREE_ROOT_NODE_ID|; }
    assert SharedName(proposals, 0, 1, "topic-x");
    assert DistinctIds(proposals) by {
      assert proposals[0].id[0] != proposals[1].id[0];
    }
    SharedNameDangles(proposals, 0, 1, "topic-x");
  }
}
