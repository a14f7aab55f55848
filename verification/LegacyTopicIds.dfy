/**
  Legacy agenda topic IDs (internal/application/ai_agenda_anchor.go): trees in
  which an agenda record's ID doubled as a topic's ID are rewritten so that topics
  have IDs of their own.  The hashed ID is a function of agenda and generation.
  Reference lists the program keeps sorted and unique are sets here.
 */
module LegacyTopicIds {
  import opened Basics
  import opened Sorting

  const ROOT := "root"

  datatype Node = Node(
    id: string, isTopic: bool, parentId: string,
    refs: set<string>, aliases: set<string>, mergedFrom: set<string>, materialized: bool)

  datatype Tree = Tree(nodes: seq<Node>, edges: seq<(string, string)>, relations: seq<(string, string)>, candidates: seq<string>)

  type Stable = (string, nat) -> string

  /** The hash never repeats a generation's ID, and stays clear of record IDs and the root. */
  ghost predicate Separates(stable: Stable, records: set<string>) {
    && (forall a, g, h :: stable(a, g) == stable(a, h) ==> g == h)
    && (forall a, g :: stable(a, g) != "" && stable(a, g) != ROOT && stable(a, g) !in records)
  }

  ghost predicate Injective(stable: Stable) {
    forall a, g, h :: stable(a, g) == stable(a, h) ==> g == h
  }

  // ------------------------------------------------------------- collision escape

  ghost function Generated(stable: Stable, agenda: string, g: nat): set<string> {
    set h: nat | h < g :: stable(agenda, h)
  }

  lemma {:induction false} GeneratedSize(stable: Stable, agenda: string, g: nat)
    requires Injective(stable)
    ensures |Generated(stable, agenda, g)| == g
  {
    if g > 0 {
      GeneratedSize(stable, agenda, g - 1);
      assert Generated(stable, agenda, g) == Generated(stable, agenda, g - 1) + {stable(agenda, g - 1)};
    }
  }

  lemma TooManyGenerated(stable: Stable, agenda: string, occupied: set<string>, g: nat)
    requires Injective(stable) && Generated(stable, agenda, g) <= occupied
    ensures g <= |occupied|
  {
    GeneratedSize(stable, agenda, g);
    SubsetSize(Generated(stable, agenda, g), occupied);
  }

  /** The first generation from `g` on whose ID is free; one is found within |occupied| + 1 tries. */
  ghost function FirstFree(stable: Stable, agenda: string, occupied: set<string>, g: nat): (f: nat)
    requires Injective(stable) && Generated(stable, agenda, g) <= occupied
    ensures g <= f <= |occupied| && stable(agenda, f) !in occupied && Generated(stable, agenda, f) <= occupied
    decreases |occupied| + 1 - g
  {
    TooManyGenerated(stable, agenda, occupied, g);
    if stable(agenda, g) !in occupied then g
    else
      TooManyGenerated(stable, agenda, occupied, g + 1);
      FirstFree(stable, agenda, occupied, g + 1)
  }

  ghost function Fresh(stable: Stable, agenda: string, occupied: set<string>): (id: string)
    requires Injective(stable)
    ensures id !in occupied
  {
    stable(agenda, FirstFree(stable, agenda, occupied, 0))
  }

  method EscapeCollision(stable: Stable, agenda: string, occupied: set<string>) returns (id: string)
    requires Injective(stable)
    ensures id == Fresh(stable, agenda, occupied)
  {
    var generation: nat := 0;
    while stable(agenda, generation) in occupied
      invariant Generated(stable, agenda, generation) <= occupied
      invariant FirstFree(stable, agenda, occupied, 0) == FirstFree(stable, agenda, occupied, generation)
      invariant generation <= |occupied|
      decreases |occupied| - generation
    {
      TooManyGenerated(stable, agenda, occupied, generation + 1);
      generation := generation + 1;
    }
    id := stable(agenda, generation);
  }

  /** The topic of an agenda, reused when there is one, else a free ID. */
  method AvailableAgendaTopicId(stable: Stable, agenda: string, topics: map<string, Node>, records: set<string>)
    returns (id: string, reused: bool)
    requires Injective(stable) && agenda in records && "" !in topics && forall g :: stable(agenda, g) != ""
    ensures reused <==> id in topics
    ensures reused ==> agenda in topics[id].refs
    ensures !reused ==>
      (forall t :: t in topics && topics[t].isTopic ==> agenda !in topics[t].refs)
      && exists g: nat :: g <= |topics.Keys| && id == stable(agenda, g)
  {
    var rest := topics.Keys;
    while rest != {}
      invariant rest <= topics.Keys
      invariant forall t :: t in topics && t !in rest && topics[t].isTopic ==> agenda !in topics[t].refs
      decreases rest
    {
      var t :| t in rest;
      rest := rest - {t};
      if topics[t].isTopic && agenda in topics[t].refs {
        return t, true;
      }
    }
    var generation: nat := 0;
    while true
      invariant Generated(stable, agenda, generation) <= topics.Keys
      invariant generation <= |topics.Keys|
      decreases |topics.Keys| - generation
    {
      var candidate := stable(agenda, generation);
      if candidate !in topics {
        return candidate, false;
      }
      if agenda in topics[candidate].refs {
        return candidate, true;
      }
      TooManyGenerated(stable, agenda, topics.Keys, generation + 1);
      generation := generation + 1;
    }
  }

  // --------------------------------------------------------------------- the remap

  predicate Legacy(n: Node, records: set<string>) {
    n.isTopic && n.id in records
  }

  /** Topics of their own that stand for the agenda, in tree order. */
  function Existing(nodes: seq<Node>, agenda: string): seq<string> {
    if nodes == [] then []
    else
      var n := nodes[|nodes| - 1];
      Existing(nodes[..|nodes| - 1], agenda) +
        if n.isTopic && agenda in n.refs && n.id != agenda && n.id != "" then [n.id] else []
  }

  function Ids(nodes: seq<Node>): set<string> {
    set n | n in nodes :: n.id
  }

  datatype Remap = Remap(ids: map<string, string>, occupied: set<string>)

  ghost function Target(stable: Stable, nodes: seq<Node>, agenda: string, occupied: set<string>): string
    requires Injective(stable)
  {
    var existing := Sort(Existing(nodes, agenda), LexLe);
    if existing != [] then existing[0] else Fresh(stable, agenda, occupied)
  }

  ghost function RemapUpTo(stable: Stable, nodes: seq<Node>, records: set<string>, k: nat): Remap
    requires Injective(stable) && k <= |nodes|
  {
    if k == 0 then Remap(map[], Ids(nodes))
    else
      var r := RemapUpTo(stable, nodes, records, k - 1);
      if !Legacy(nodes[k - 1], records) then r
      else
        var target := Target(stable, nodes, nodes[k - 1].id, r.occupied);
        Remap(r.ids[nodes[k - 1].id := target], r.occupied + {target})
  }

  ghost function RemapOf(stable: Stable, nodes: seq<Node>, records: set<string>): map<string, string>
    requires Injective(stable)
  {
    RemapUpTo(stable, nodes, records, |nodes|).ids
  }

  function Follow(ids: map<string, string>, id: string): string {
    if id in ids then ids[id] else id
  }

  method BuildRemap(stable: Stable, nodes: seq<Node>, records: set<string>) returns (ids: map<string, string>)
    requires Injective(stable)
    ensures ids == RemapOf(stable, nodes, records)
  {
    ids := map[];
    var occupied := Ids(nodes);
    for i := 0 to |nodes|
      invariant Remap(ids, occupied) == RemapUpTo(stable, nodes, records, i)
    {
      if !Legacy(nodes[i], records) {
        continue;
      }
      var agenda := nodes[i].id;
      var existing := Sort(Existing(nodes, agenda), LexLe);
      var target;
      if |existing| > 0 {
        target := existing[0];
      } else {
        target := EscapeCollision(stable, agenda, occupied);
      }
      ids := ids[agenda := target];
      occupied := occupied + {target};
    }
  }

  // --------------------------------------------------------------- merging the nodes

  /** A node under its new ID; a renamed one remembers the agenda it stood for. */
  function Renamed(n: Node, ids: map<string, string>): Node {
    if n.id !in ids || ids[n.id] == n.id then n
    else n.(id := ids[n.id], refs := n.refs + {n.id}, materialized := true)
  }

  function Absorb(target: Node, source: Node): Node {
    target.(refs := target.refs + source.refs, aliases := target.aliases + source.aliases,
            mergedFrom := target.mergedFrom + source.mergedFrom, materialized := target.materialized || source.materialized)
  }

  function Place(result: seq<Node>, n: Node): seq<Node> {
    seq(|result|, i requires 0 <= i < |result| => if result[i].id == n.id then Absorb(result[i], n) else result[i])
      + if n.id in Ids(result) then [] else [n]
  }

  function Merged(nodes: seq<Node>, ids: map<string, string>): seq<Node> {
    if nodes == [] then []
    else Place(Merged(nodes[..|nodes| - 1], ids), Renamed(nodes[|nodes| - 1], ids))
  }

  ghost predicate UniqueIds(nodes: seq<Node>) {
    forall i, j :: 0 <= i < j < |nodes| ==> nodes[i].id != nodes[j].id
  }

  /** Where each ID sits in the nodes collected so far. */
  ghost predicate Indexes(index: map<string, nat>, nodes: seq<Node>) {
    && index.Keys == Ids(nodes)
    && forall id :: id in index ==> index[id] < |nodes| && nodes[index[id]].id == id
  }

  method PlaceNode(result: seq<Node>, index: map<string, nat>, n: Node) returns (placed: seq<Node>, at: map<string, nat>)
    requires UniqueIds(result) && Indexes(index, result)
    ensures placed == Place(result, n) && UniqueIds(placed) && Indexes(at, placed)
  {
    if n.id in index {
      var k := index[n.id];
      placed := result[k := Absorb(result[k], n)];
      at := index;
      assert Ids(placed) == Ids(result) by { SameIds(result, placed); }
    } else {
      placed := result + [n];
      at := index[n.id := |result|];
    }
  }

  lemma SameIds(a: seq<Node>, b: seq<Node>)
    requires |a| == |b| && forall i :: 0 <= i < |a| ==> a[i].id == b[i].id
    ensures Ids(a) == Ids(b)
  {
    forall id ensures id in Ids(a) <==> id in Ids(b) {
      if id in Ids(a) {
        var i :| 0 <= i < |a| && a[i].id == id;
        assert b[i] in b;
      }
      if id in Ids(b) {
        var i :| 0 <= i < |b| && b[i].id == id;
        assert a[i] in a;
      }
    }
  }

  method MergeNodes(nodes: seq<Node>, ids: map<string, string>) returns (result: seq<Node>)
    ensures result == Merged(nodes, ids) && UniqueIds(result)
  {
    result := [];
    var index: map<string, nat> := map[];
    for i := 0 to |nodes|
      invariant result == Merged(nodes[..i], ids) && UniqueIds(result) && Indexes(index, result)
    {
      assert nodes[..i + 1][..i] == nodes[..i];
      result, index := PlaceNode(result, index, Renamed(nodes[i], ids));
    }
    assert nodes[..|nodes|] == nodes;
  }

  // ------------------------------------------------------------- rewriting references

  function Rewrite(n: Node, ids: map<string, string>, records: set<string>): Node {
    n.(parentId := Follow(ids, n.parentId),
       aliases := (set a | a in n.aliases && a !in records && a != ""),
       mergedFrom := (set m | m in n.mergedFrom && Follow(ids, m) != n.id && Follow(ids, m) != "" :: Follow(ids, m)))
  }

  function RewriteAll(nodes: seq<Node>, ids: map<string, string>, records: set<string>): seq<Node> {
    Map(nodes, n => Rewrite(n, ids, records))
  }

  function ParentPairs(nodes: seq<Node>): seq<(string, string)> {
    if nodes == [] then []
    else
      var n := nodes[|nodes| - 1];
      ParentPairs(nodes[..|nodes| - 1]) + if n.id != ROOT && n.parentId != "" then [(n.parentId, n.id)] else []
  }

  function FollowBoth(ids: map<string, string>, r: (string, string)): (string, string) {
    (Follow(ids, r.0), Follow(ids, r.1))
  }

  ghost function Normalized(stable: Stable, t: Tree, records: set<string>): Tree
    requires Injective(stable)
  {
    var ids := RemapOf(stable, t.nodes, records);
    if ids == map[] then t
    else
      var nodes := RewriteAll(Merged(t.nodes, ids), ids, records);
      Tree(nodes, ParentPairs(nodes), Map(t.relations, r => FollowBoth(ids, r)), Map(t.candidates, c => Follow(ids, c)))
  }

  class LiveTree {
    var nodes: seq<Node>
    var edges: seq<(string, string)>
    var relations: seq<(string, string)>
    var candidates: seq<string>

    ghost function Abstract(): Tree
      reads this
    {
      Tree(nodes, edges, relations, candidates)
    }

    constructor (t: Tree)
      ensures Abstract() == t
    {
      nodes, edges, relations, candidates := t.nodes, t.edges, t.relations, t.candidates;
    }

    method RewriteNodes(ids: map<string, string>, records: set<string>)
      modifies this`nodes
      ensures nodes == RewriteAll(old(nodes), ids, records)
    {
      for i := 0 to |nodes|
        invariant |nodes| == |old(nodes)|
        invariant forall k :: 0 <= k < i ==> nodes[k] == Rewrite(old(nodes)[k], ids, records)
        invariant forall k :: i <= k < |nodes| ==> nodes[k] == old(nodes)[k]
      {
        nodes := nodes[i := Rewrite(nodes[i], ids, records)];
      }
    }

    method RebuildEdges()
      modifies this`edges
      ensures edges == ParentPairs(nodes)
    {
      edges := [];
      for i := 0 to |nodes|
        invariant edges == ParentPairs(nodes[..i])
      {
        assert nodes[..i + 1][..i] == nodes[..i];
        if nodes[i].id != ROOT && nodes[i].parentId != "" {
          edges := edges + [(nodes[i].parentId, nodes[i].id)];
        }
      }
      assert nodes[..|nodes|] == nodes;
    }

    method RewriteEnds(ids: map<string, string>)
      modifies this`relations, this`candidates
      ensures relations == Map(old(relations), r => FollowBoth(ids, r))
      ensures candidates == Map(old(candidates), c => Follow(ids, c))
    {
      for i := 0 to |relations|
        invariant |relations| == |old(relations)| && candidates == old(candidates)
        invariant forall k :: 0 <= k < i ==> relations[k] == FollowBoth(ids, old(relations)[k])
        invariant forall k :: i <= k < |relations| ==> relations[k] == old(relations)[k]
      {
        relations := relations[i := FollowBoth(ids, relations[i])];
      }
      for i := 0 to |candidates|
        invariant |candidates| == |old(candidates)| && relations == Map(old(relations), r => FollowBoth(ids, r))
        invariant forall k :: 0 <= k < i ==> candidates[k] == Follow(ids, old(candidates)[k])
        invariant forall k :: i <= k < |candidates| ==> candidates[k] == old(candidates)[k]
      {
        candidates := candidates[i := Follow(ids, candidates[i])];
      }
    }

    method NormalizeLegacyIds(stable: Stable, records: set<string>) returns (ids: map<string, string>)
      requires Injective(stable)
      modifies this
      ensures Abstract() == Normalized(stable, old(Abstract()), records)
      ensures ids == RemapOf(stable, old(nodes), records)
    {
      ids := BuildRemap(stable, nodes, records);
      if |ids| == 0 {
        assert ids == map[];
        return;
      }
      nodes := MergeNodes(nodes, ids);
      RewriteNodes(ids, records);
      RebuildEdges();
      RewriteEnds(ids);
    }
  }

  // ------------------------------------------------------------- facts about the remap

  lemma {:induction false} ExistingFacts(nodes: seq<Node>, agenda: string, id: string)
    ensures id in Existing(nodes, agenda) <==>
      exists n :: n in nodes && n.isTopic && agenda in n.refs && n.id == id && id != agenda && id != ""
  {
    if nodes != [] {
      ExistingFacts(nodes[..|nodes| - 1], agenda, id);
      assert nodes == nodes[..|nodes| - 1] + [nodes[|nodes| - 1]];
    }
  }

  /** The least ID among the agenda's own topics, or a generated ID that no node has. */
  ghost predicate GoodTarget(stable: Stable, nodes: seq<Node>, agenda: string, target: string) {
    var existing := Existing(nodes, agenda);
    if existing != [] then target in existing && forall id :: id in existing ==> LexLe(target, id)
    else target !in Ids(nodes) && exists g :: target == stable(agenda, g)
  }

  lemma TargetIsGood(stable: Stable, nodes: seq<Node>, agenda: string, occupied: set<string>)
    requires Injective(stable) && Ids(nodes) <= occupied
    ensures GoodTarget(stable, nodes, agenda, Target(stable, nodes, agenda, occupied))
  {
    LexOrders();
    var existing := Existing(nodes, agenda);
    SortFacts(existing, LexLe);
    var sorted := Sort(existing, LexLe);
    if existing != [] {
      forall id | id in existing ensures LexLe(sorted[0], id) {
        var i :| 0 <= i < |sorted| && sorted[i] == id;
        if i == 0 {
          assert LexLe(id, id) by { LexTotal(id, id); }
        }
      }
      assert sorted[0] in sorted;
    }
  }

  lemma {:induction false} RemapFacts(stable: Stable, nodes: seq<Node>, records: set<string>, k: nat)
    requires Injective(stable) && k <= |nodes|
    ensures var r := RemapUpTo(stable, nodes, records, k);
      && Ids(nodes) <= r.occupied
      && (forall a :: a in r.ids <==> exists i :: 0 <= i < k && Legacy(nodes[i], records) && nodes[i].id == a)
      && (forall a :: a in r.ids ==> GoodTarget(stable, nodes, a, r.ids[a]))
  {
    if k > 0 {
      RemapFacts(stable, nodes, records, k - 1);
      var r := RemapUpTo(stable, nodes, records, k - 1);
      if Legacy(nodes[k - 1], records) {
        TargetIsGood(stable, nodes, nodes[k - 1].id, r.occupied);
      }
    }
  }

  /** The legacy topics are exactly the ones remapped, each to a good target. */
  lemma RemapIsLegacy(stable: Stable, nodes: seq<Node>, records: set<string>)
    requires Injective(stable)
    ensures var ids := RemapOf(stable, nodes, records);
      && (forall a :: a in ids <==> exists n :: n in nodes && Legacy(n, records) && n.id == a)
      && (forall a :: a in ids ==> a in records && GoodTarget(stable, nodes, a, ids[a]))
  {
    RemapFacts(stable, nodes, records, |nodes|);
    var ids := RemapOf(stable, nodes, records);
    forall a ensures a in ids <==> exists n :: n in nodes && Legacy(n, records) && n.id == a {
      if n :| n in nodes && Legacy(n, records) && n.id == a {
        var i :| 0 <= i < |nodes| && nodes[i] == n;
        assert Legacy(nodes[i], records);
      }
    }
  }

  // ------------------------------------------------------------ facts about the merge

  ghost predicate ComesFrom(m: Node, n: Node, ids: map<string, string>) {
    Follow(ids, n.id) == m.id && m.parentId == n.parentId && m.isTopic == n.isTopic
  }

  ghost predicate SameStand(a: Node, b: Node) {
    a.id == b.id && a.parentId == b.parentId && a.isTopic == b.isTopic
  }

  lemma PlacedStands(result: seq<Node>, n: Node, i: nat)
    requires i < |Place(result, n)|
    ensures i < |result| ==> SameStand(Place(result, n)[i], result[i])
    ensures i >= |result| ==> Place(result, n)[i] == n && i == |result| && n.id !in Ids(result)
  {}

  lemma PlacedIds(result: seq<Node>, n: Node)
    ensures Ids(Place(result, n)) == Ids(result) + {n.id}
  {
    var placed := Place(result, n);
    forall id | id in Ids(placed) ensures id in Ids(result) + {n.id} {
      var i: nat :| i < |placed| && placed[i].id == id;
      PlacedStands(result, n, i);
      if i < |result| {
        assert result[i] in result;
      }
    }
    forall id | id in Ids(result) ensures id in Ids(placed) {
      var i: nat :| i < |result| && result[i].id == id;
      PlacedStands(result, n, i);
      assert placed[i] in placed;
    }
    if n.id !in Ids(result) {
      assert placed[|result|] == n;
    }
  }

  lemma PlacedUnique(result: seq<Node>, n: Node)
    requires UniqueIds(result)
    ensures UniqueIds(Place(result, n))
  {
    var placed := Place(result, n);
    forall i: nat, j: nat | i < j < |placed| ensures placed[i].id != placed[j].id {
      PlacedStands(result, n, i);
      PlacedStands(result, n, j);
      if j >= |result| {
        assert result[i] in result;
      }
    }
  }

  /** Every node collected so far stands as some input node under its new ID. */
  ghost predicate AllCome(merged: seq<Node>, nodes: seq<Node>, ids: map<string, string>) {
    forall m :: m in merged ==> exists n :: n in nodes && ComesFrom(m, n, ids)
  }

  lemma PlacedComes(result: seq<Node>, front: seq<Node>, last: Node, ids: map<string, string>)
    requires AllCome(result, front, ids)
    ensures AllCome(Place(result, Renamed(last, ids)), front + [last], ids)
  {
    var placed := Place(result, Renamed(last, ids));
    forall m | m in placed ensures exists n :: n in front + [last] && ComesFrom(m, n, ids) {
      var i: nat :| i < |placed| && placed[i] == m;
      PlacedStands(result, Renamed(last, ids), i);
      if i < |result| {
        assert result[i] in result;
        var n :| n in front && ComesFrom(result[i], n, ids);
        assert n in front + [last] && ComesFrom(m, n, ids);
      } else {
        assert last in front + [last] && ComesFrom(m, last, ids);
      }
    }
  }

  lemma {:induction false} MergedFacts(nodes: seq<Node>, ids: map<string, string>)
    ensures var merged := Merged(nodes, ids);
      && UniqueIds(merged)
      && Ids(merged) == (set n | n in nodes :: Follow(ids, n.id))
      && AllCome(merged, nodes, ids)
  {
    if nodes != [] {
      var front, last := nodes[..|nodes| - 1], nodes[|nodes| - 1];
      MergedFacts(front, ids);
      assert nodes == front + [last];
      PlacedUnique(Merged(front, ids), Renamed(last, ids));
      PlacedIds(Merged(front, ids), Renamed(last, ids));
      PlacedComes(Merged(front, ids), front, last, ids);
    }
  }

  /** A node of the result comes from a node of the input under the same remap. */
  lemma ResultFacts(stable: Stable, t: Tree, records: set<string>)
    requires Injective(stable) && UniqueIds(t.nodes)
    ensures var ids := RemapOf(stable, t.nodes, records);
      var result := Normalized(stable, t, records).nodes;
      && UniqueIds(result)
      && Ids(result) == (set n | n in t.nodes :: Follow(ids, n.id))
      && forall m :: m in result ==> exists n :: n in t.nodes && Source(m, n, ids)
  {
    var ids := RemapOf(stable, t.nodes, records);
    var result := Normalized(stable, t, records).nodes;
    if ids == map[] {
      forall m | m in result ensures exists n :: n in t.nodes && Source(m, n, ids) {
        assert Source(m, m, ids);
      }
      assert forall n :: n in t.nodes ==> Follow(ids, n.id) == n.id;
    } else {
      var merged := Merged(t.nodes, ids);
      MergedFacts(t.nodes, ids);
      SameIds(merged, result);
      forall m | m in result ensures exists n :: n in t.nodes && Source(m, n, ids) {
        var i :| 0 <= i < |result| && result[i] == m;
        assert merged[i] in merged;
        var n :| n in t.nodes && ComesFrom(merged[i], n, ids);
        assert Source(m, n, ids);
      }
    }
  }

  ghost predicate Source(m: Node, n: Node, ids: map<string, string>) {
    Follow(ids, n.id) == m.id && m.parentId == Follow(ids, n.parentId) && m.isTopic == n.isTopic
  }

  // ------------------------------------------------------------------- main results

  /** The result's node IDs are unique, whatever the tree. */
  lemma ResultHasUniqueIds(stable: Stable, t: Tree, records: set<string>)
    requires Injective(stable) && UniqueIds(t.nodes)
    ensures UniqueIds(Normalized(stable, t, records).nodes)
  {
    ResultFacts(stable, t, records);
  }

  ghost predicate NoTopicIsRecord(nodes: seq<Node>, records: set<string>) {
    forall n :: n in nodes ==> !Legacy(n, records)
  }

  ghost predicate FirstChoice(nodes: seq<Node>, agenda: string, id: string) {
    id in Existing(nodes, agenda) && forall other :: other in Existing(nodes, agenda) ==> LexLe(id, other)
  }

  /** No legacy topic is itself the first choice for an agenda that has a legacy topic. */
  ghost predicate ClearTargets(nodes: seq<Node>, records: set<string>) {
    forall n, id :: n in nodes && Legacy(n, records) && FirstChoice(nodes, n.id, id) ==> id !in records
  }

  lemma GoodTargetIsFirstChoice(stable: Stable, nodes: seq<Node>, agenda: string, target: string)
    requires GoodTarget(stable, nodes, agenda, target)
    ensures Existing(nodes, agenda) != [] ==> FirstChoice(nodes, agenda, target)
    ensures Existing(nodes, agenda) == [] ==> target !in Ids(nodes) && exists g :: target == stable(agenda, g)
  {}

  lemma FirstChoiceIsUnique(nodes: seq<Node>, agenda: string, a: string, b: string)
    requires FirstChoice(nodes, agenda, a) && FirstChoice(nodes, agenda, b)
    ensures a == b
  {
    LexTotal(a, b);
  }

  lemma TargetsAreClear(stable: Stable, nodes: seq<Node>, records: set<string>, a: string)
    requires Separates(stable, records) && ClearTargets(nodes, records) && a in RemapOf(stable, nodes, records)
    ensures RemapOf(stable, nodes, records)[a] !in records
  {
    RemapIsLegacy(stable, nodes, records);
    var n :| n in nodes && Legacy(n, records) && n.id == a;
    GoodTargetIsFirstChoice(stable, nodes, a, RemapOf(stable, nodes, records)[a]);
  }

  lemma ClearTargetsClearRecords(stable: Stable, t: Tree, records: set<string>)
    requires Separates(stable, records) && UniqueIds(t.nodes) && ClearTargets(t.nodes, records)
    ensures NoTopicIsRecord(Normalized(stable, t, records).nodes, records)
  {
    var ids := RemapOf(stable, t.nodes, records);
    ResultFacts(stable, t, records);
    RemapIsLegacy(stable, t.nodes, records);
    forall m | m in Normalized(stable, t, records).nodes ensures !Legacy(m, records) {
      var n :| n in t.nodes && Source(m, n, ids);
      if n.id in ids {
        TargetsAreClear(stable, t.nodes, records, n.id);
      }
    }
  }

  lemma UnclearTargetStaysRecord(stable: Stable, t: Tree, records: set<string>, n: Node, id: string)
    requires Injective(stable) && UniqueIds(t.nodes)
    requires n in t.nodes && Legacy(n, records) && FirstChoice(t.nodes, n.id, id) && id in records
    ensures !NoTopicIsRecord(Normalized(stable, t, records).nodes, records)
  {
    var ids := RemapOf(stable, t.nodes, records);
    var result := Normalized(stable, t, records).nodes;
    ResultFacts(stable, t, records);
    RemapIsLegacy(stable, t.nodes, records);
    GoodTargetIsFirstChoice(stable, t.nodes, n.id, ids[n.id]);
    FirstChoiceIsUnique(t.nodes, n.id, id, ids[n.id]);
    assert Follow(ids, n.id) == id && id in Ids(result);
    var m :| m in result && m.id == id;
    var source :| source in t.nodes && Source(m, source, ids);
    ExistingFacts(t.nodes, n.id, id);
    var topic :| topic in t.nodes && topic.isTopic && topic.id == id;
    assert Legacy(topic, records) && id in ids;
    assert source.id in ids;
    var l :| l in t.nodes && Legacy(l, records) && l.id == source.id;
    SameNode(t.nodes, l, source);
    assert Legacy(m, records);
  }

  lemma SameNode(nodes: seq<Node>, a: Node, b: Node)
    requires UniqueIds(nodes) && a in nodes && b in nodes && a.id == b.id
    ensures a == b
  {
    var i :| 0 <= i < |nodes| && nodes[i] == a;
    var j :| 0 <= j < |nodes| && nodes[j] == b;
  }

  /** No topic is left under a record ID exactly when no legacy topic was another one's first choice. */
  lemma NoTopicIsRecordIffTargetsClear(stable: Stable, t: Tree, records: set<string>)
    requires Separates(stable, records) && UniqueIds(t.nodes)
    ensures NoTopicIsRecord(Normalized(stable, t, records).nodes, records) <==> ClearTargets(t.nodes, records)
  {
    if ClearTargets(t.nodes, records) {
      ClearTargetsClearRecords(stable, t, records);
    } else {
      var n, id :| n in t.nodes && Legacy(n, records) && FirstChoice(t.nodes, n.id, id) && id in records;
      UnclearTargetStaysRecord(stable, t, records, n, id);
    }
  }

  /** It suffices that no legacy topic refers to another agenda. */
  lemma OwnReferencesAreClear(nodes: seq<Node>, records: set<string>)
    requires UniqueIds(nodes)
    requires forall n, r :: n in nodes && Legacy(n, records) && r in n.refs && r in records ==> r == n.id
    ensures ClearTargets(nodes, records)
  {
    forall n, id | n in nodes && Legacy(n, records) && FirstChoice(nodes, n.id, id) ensures id !in records {
      ExistingFacts(nodes, n.id, id);
      var other :| other in nodes && other.isTopic && n.id in other.refs && other.id == id && id != n.id;
      assert id in records <==> Legacy(other, records);
    }
  }

  lemma NothingLegacyNothingRemapped(stable: Stable, nodes: seq<Node>, records: set<string>)
    requires Injective(stable) && NoTopicIsRecord(nodes, records)
    ensures RemapOf(stable, nodes, records) == map[]
  {
    RemapIsLegacy(stable, nodes, records);
    assert RemapOf(stable, nodes, records).Keys == {};
  }

  /** The merge never adds nodes, and when it drops none each stays in its place. */
  lemma {:induction false} MergedPlaces(nodes: seq<Node>, ids: map<string, string>)
    ensures var merged := Merged(nodes, ids);
      && |merged| <= |nodes|
      && (|merged| == |nodes| ==> forall i :: 0 <= i < |nodes| ==> merged[i].id == Follow(ids, nodes[i].id))
  {
    if nodes != [] {
      var front, last := nodes[..|nodes| - 1], nodes[|nodes| - 1];
      MergedPlaces(front, ids);
      var before, placed := Merged(front, ids), Place(Merged(front, ids), Renamed(last, ids));
      assert |placed| == |before| + if Renamed(last, ids).id in Ids(before) then 0 else 1;
      forall i | 0 <= i < |nodes| && |placed| == |nodes| ensures placed[i].id == Follow(ids, nodes[i].id) {
        PlacedStands(before, Renamed(last, ids), i);
      }
    }
  }

  /** A tree with a topic under a record ID is changed: that topic goes elsewhere, or another joins it. */
  lemma LegacyTopicMoves(stable: Stable, t: Tree, records: set<string>, n: Node)
    requires Injective(stable) && n in t.nodes && Legacy(n, records)
    ensures Normalized(stable, t, records) != t
  {
    var ids := RemapOf(stable, t.nodes, records);
    RemapIsLegacy(stable, t.nodes, records);
    assert n.id in ids && ids[n.id] != n.id by {
      GoodTargetIsFirstChoice(stable, t.nodes, n.id, ids[n.id]);
      ExistingFacts(t.nodes, n.id, ids[n.id]);
    }
    MergedPlaces(t.nodes, ids);
    var i :| 0 <= i < |t.nodes| && t.nodes[i] == n;
    var result, merged := Normalized(stable, t, records).nodes, Merged(t.nodes, ids);
    assert |result| == |merged| && forall k :: 0 <= k < |result| ==> result[k].id == merged[k].id;
  }

  /** Normalising a second time changes nothing exactly when no legacy topic was another one's first choice. */
  lemma NormalizeIsIdempotent(stable: Stable, t: Tree, records: set<string>)
    requires Separates(stable, records) && UniqueIds(t.nodes)
    ensures Normalized(stable, Normalized(stable, t, records), records) == Normalized(stable, t, records) <==>
      ClearTargets(t.nodes, records)
  {
    var u := Normalized(stable, t, records);
    NoTopicIsRecordIffTargetsClear(stable, t, records);
    if ClearTargets(t.nodes, records) {
      NothingLegacyNothingRemapped(stable, u.nodes, records);
    } else {
      var n :| n in u.nodes && Legacy(n, records);
      LegacyTopicMoves(stable, u, records, n);
    }
  }

  ghost predicate Resolves(id: string, nodes: seq<Node>) {
    id == "" || id == ROOT || id in Ids(nodes)
  }

  lemma FollowedResolves(stable: Stable, t: Tree, records: set<string>, id: string)
    requires Injective(stable) && UniqueIds(t.nodes) && ROOT !in records && "" !in records && Resolves(id, t.nodes)
    ensures Resolves(Follow(RemapOf(stable, t.nodes, records), id), Normalized(stable, t, records).nodes)
  {
    var ids := RemapOf(stable, t.nodes, records);
    ResultFacts(stable, t, records);
    RemapIsLegacy(stable, t.nodes, records);
    if id in Ids(t.nodes) {
      var n :| n in t.nodes && n.id == id;
      assert Follow(ids, n.id) in Ids(Normalized(stable, t, records).nodes);
    }
  }

  /** Parents, relation ends and candidate topics that resolved before resolve after. */
  lemma ReferencesStayResolvable(stable: Stable, t: Tree, records: set<string>)
    requires Injective(stable) && UniqueIds(t.nodes) && ROOT !in records && "" !in records
    requires forall n :: n in t.nodes ==> Resolves(n.parentId, t.nodes)
    requires forall r :: r in t.relations ==> Resolves(r.0, t.nodes) && Resolves(r.1, t.nodes)
    ensures var u := Normalized(stable, t, records);
      && (forall m :: m in u.nodes ==> Resolves(m.parentId, u.nodes))
      && (forall r :: r in u.relations ==> Resolves(r.0, u.nodes) && Resolves(r.1, u.nodes))
  {
    var ids := RemapOf(stable, t.nodes, records);
    var u := Normalized(stable, t, records);
    ResultFacts(stable, t, records);
    forall m | m in u.nodes ensures Resolves(m.parentId, u.nodes) {
      var n :| n in t.nodes && Source(m, n, ids);
      FollowedResolves(stable, t, records, n.parentId);
    }
    forall r | r in u.relations ensures Resolves(r.0, u.nodes) && Resolves(r.1, u.nodes) {
      if ids != map[] {
        var i :| 0 <= i < |u.relations| && u.relations[i] == r;
        assert t.relations[i] in t.relations;
        FollowedResolves(stable, t, records, t.relations[i].0);
        FollowedResolves(stable, t, records, t.relations[i].1);
      }
    }
  }

  lemma {:induction false} ParentPairFacts(nodes: seq<Node>)
    ensures forall e :: e in ParentPairs(nodes) <==>
      exists n :: n in nodes && n.id != ROOT && n.parentId != "" && e == (n.parentId, n.id)
    ensures UniqueIds(nodes) ==> forall i, j :: 0 <= i < j < |ParentPairs(nodes)| ==> ParentPairs(nodes)[i].1 != ParentPairs(nodes)[j].1
  {
    if nodes != [] {
      var front, last := nodes[..|nodes| - 1], nodes[|nodes| - 1];
      ParentPairFacts(front);
      assert nodes == front + [last];
      if UniqueIds(nodes) {
        forall e | e in ParentPairs(front) ensures e.1 != last.id {
          var n :| n in front && n.id == e.1;
        }
      }
    }
  }

  /** Once something was remapped, the edges are exactly the parent pairs, one per child. */
  lemma EdgesAreParentPairs(stable: Stable, t: Tree, records: set<string>)
    requires Injective(stable) && UniqueIds(t.nodes) && exists n :: n in t.nodes && Legacy(n, records)
    ensures var u := Normalized(stable, t, records);
      && (forall e :: e in u.edges <==> exists n :: n in u.nodes && n.id != ROOT && n.parentId != "" && e == (n.parentId, n.id))
      && (forall i, j :: 0 <= i < j < |u.edges| ==> u.edges[i].1 != u.edges[j].1)
  {
    var u := Normalized(stable, t, records);
    RemapIsLegacy(stable, t.nodes, records);
    var n :| n in t.nodes && Legacy(n, records);
    assert n.id in RemapOf(stable, t.nodes, records);
    ResultFacts(stable, t, records);
    ParentPairFacts(u.nodes);
  }

  // ----------------------------------------------------------------------- acyclicity

  /** Ranks fall strictly towards the root. */
  ghost predicate Ranked(nodes: seq<Node>, rank: map<string, nat>) {
    forall n :: n in nodes ==>
      && n.id in rank
      && (n.parentId != ROOT && n.parentId in Ids(nodes) ==> n.parentId in rank && rank[n.parentId] < rank[n.id])
  }

  ghost predicate TopicsHangFromRoot(nodes: seq<Node>) {
    forall n :: n in nodes && n.isTopic ==> n.parentId == ROOT
  }

  ghost function TopicIds(nodes: seq<Node>): set<string> {
    set n | n in nodes && n.isTopic :: n.id
  }

  /** Topics at the bottom rank, everything else above them. */
  ghost function NewRank(nodes: seq<Node>, rank: map<string, nat>): map<string, nat> {
    map id | id in Ids(nodes) :: if id in TopicIds(nodes) || id !in rank then 0 else rank[id] + 1
  }

  lemma DetailKeepsId(stable: Stable, t: Tree, records: set<string>, n: Node)
    requires Injective(stable) && UniqueIds(t.nodes) && n in t.nodes && !n.isTopic
    ensures Follow(RemapOf(stable, t.nodes, records), n.id) == n.id
  {
    RemapIsLegacy(stable, t.nodes, records);
    forall l | l in t.nodes && l.id == n.id ensures l == n {
      SameNode(t.nodes, l, n);
    }
  }

  /** A parent that is no topic afterwards was the same parent before. */
  lemma DetailParent(stable: Stable, t: Tree, records: set<string>, n: Node)
    requires Injective(stable) && UniqueIds(t.nodes) && n in t.nodes
    requires Follow(RemapOf(stable, t.nodes, records), n.parentId) in Ids(Normalized(stable, t, records).nodes)
    requires Follow(RemapOf(stable, t.nodes, records), n.parentId) !in TopicIds(Normalized(stable, t, records).nodes)
    ensures Follow(RemapOf(stable, t.nodes, records), n.parentId) == n.parentId && n.parentId in Ids(t.nodes)
  {
    var ids := RemapOf(stable, t.nodes, records);
    var result := Normalized(stable, t, records).nodes;
    ResultFacts(stable, t, records);
    RemapIsLegacy(stable, t.nodes, records);
    var parent := Follow(ids, n.parentId);
    var m :| m in result && m.id == parent;
    var source :| source in t.nodes && Source(m, source, ids);
    assert !m.isTopic && !source.isTopic;
    DetailKeepsId(stable, t, records, source);
    if n.parentId in ids {
      RemappedParentIsTopic(stable, t, records, n.parentId, source);
    }
  }

  /** No detail node sits under the ID a legacy topic is renamed to. */
  lemma RemappedParentIsTopic(stable: Stable, t: Tree, records: set<string>, legacy: string, source: Node)
    requires Injective(stable) && UniqueIds(t.nodes) && legacy in RemapOf(stable, t.nodes, records)
    requires source in t.nodes && !source.isTopic
    ensures source.id != RemapOf(stable, t.nodes, records)[legacy]
  {
    RemapIsLegacy(stable, t.nodes, records);
    var target := RemapOf(stable, t.nodes, records)[legacy];
    GoodTargetIsFirstChoice(stable, t.nodes, legacy, target);
    ExistingFacts(t.nodes, legacy, target);
    forall topic | topic in t.nodes && topic.id == source.id ensures topic == source {
      SameNode(t.nodes, topic, source);
    }
  }

  /** While topics hang from the root, an acyclic tree stays acyclic. */
  lemma StaysAcyclic(stable: Stable, t: Tree, records: set<string>, rank: map<string, nat>)
    requires Injective(stable) && UniqueIds(t.nodes) && ROOT !in records
    requires TopicsHangFromRoot(t.nodes) && Ranked(t.nodes, rank)
    ensures var result := Normalized(stable, t, records).nodes;
      TopicsHangFromRoot(result) && Ranked(result, NewRank(result, rank))
  {
    var ids := RemapOf(stable, t.nodes, records);
    var result := Normalized(stable, t, records).nodes;
    var newRank := NewRank(result, rank);
    ResultFacts(stable, t, records);
    RemapIsLegacy(stable, t.nodes, records);
    assert ROOT !in ids;
    forall m | m in result
      ensures m.isTopic ==> m.parentId == ROOT
      ensures m.id in newRank
      ensures m.parentId != ROOT && m.parentId in Ids(result) ==> newRank[m.parentId] < newRank[m.id]
    {
      var n :| n in t.nodes && Source(m, n, ids);
      if !m.isTopic && m.parentId != ROOT && m.parentId in Ids(result) {
        DetailKeepsId(stable, t, records, n);
        DetailIsNoTopic(result, m);
        if m.parentId !in TopicIds(result) {
          DetailParent(stable, t, records, n);
        }
      }
    }
  }

  lemma DetailIsNoTopic(nodes: seq<Node>, m: Node)
    requires UniqueIds(nodes) && m in nodes && !m.isTopic
    ensures m.id !in TopicIds(nodes)
  {
    if m.id in TopicIds(nodes) {
      var t :| t in nodes && t.isTopic && t.id == m.id;
      SameNode(nodes, t, m);
    }
  }

  // ------------------------------------------------------ parents after the merge

  /** No earlier node ends up under the same ID, so this one's parent is the one that stays. */
  ghost predicate PlacedFirst(nodes: seq<Node>, ids: map<string, string>, i: nat) {
    i < |nodes| && forall j :: 0 <= j < i ==> Follow(ids, nodes[j].id) != Follow(ids, nodes[i].id)
  }

  ghost predicate ParentStep(nodes: seq<Node>, child: string, parent: string) {
    exists n :: n in nodes && n.id == child && n.parentId == parent
  }

  /** The parent link of a node placed first, both ends under their new IDs. */
  ghost predicate MovedStep(nodes: seq<Node>, ids: map<string, string>, child: string, parent: string) {
    exists i: nat :: PlacedFirst(nodes, ids, i) && Follow(ids, nodes[i].id) == child && Follow(ids, nodes[i].parentId) == parent
  }

  lemma {:induction false} FirstPlacedStays(nodes: seq<Node>, ids: map<string, string>, i: nat)
    requires PlacedFirst(nodes, ids, i)
    ensures exists m :: m in Merged(nodes, ids) && m.id == Follow(ids, nodes[i].id) && m.parentId == nodes[i].parentId
    decreases |nodes|
  {
    var front, last := nodes[..|nodes| - 1], nodes[|nodes| - 1];
    var result, n := Merged(front, ids), Renamed(last, ids);
    MergedFacts(front, ids);
    if i < |front| {
      FirstPlacedStays(front, ids, i);
      var k: nat :| k < |result| && result[k].id == Follow(ids, nodes[i].id) && result[k].parentId == nodes[i].parentId;
      PlacedStands(result, n, k);
      assert Place(result, n)[k] in Merged(nodes, ids);
    } else {
      assert n.id !in Ids(result);
      assert Place(result, n)[|result|] == n && n in Merged(nodes, ids);
    }
  }

  lemma {:induction false} SomeFirst(nodes: seq<Node>, ids: map<string, string>, k: nat) returns (i: nat)
    requires k < |nodes|
    ensures PlacedFirst(nodes, ids, i) && Follow(ids, nodes[i].id) == Follow(ids, nodes[k].id)
    decreases k
  {
    i := k;
    if !PlacedFirst(nodes, ids, k) {
      var j :| 0 <= j < k && Follow(ids, nodes[j].id) == Follow(ids, nodes[k].id);
      i := SomeFirst(nodes, ids, j);
    }
  }

  lemma FirstPlacedGivesParent(stable: Stable, t: Tree, records: set<string>, i: nat)
    requires Injective(stable) && UniqueIds(t.nodes) && PlacedFirst(t.nodes, RemapOf(stable, t.nodes, records), i)
    ensures var ids := RemapOf(stable, t.nodes, records);
      ParentStep(Normalized(stable, t, records).nodes, Follow(ids, t.nodes[i].id), Follow(ids, t.nodes[i].parentId))
  {
    var ids := RemapOf(stable, t.nodes, records);
    var result := Normalized(stable, t, records).nodes;
    if ids == map[] {
      assert t.nodes[i] in result;
    } else {
      FirstPlacedStays(t.nodes, ids, i);
      var merged := Merged(t.nodes, ids);
      var k: nat :| k < |merged| && merged[k].id == Follow(ids, t.nodes[i].id) && merged[k].parentId == t.nodes[i].parentId;
      assert result[k] == Rewrite(merged[k], ids, records) && result[k] in result;
    }
  }

  /** The parent links of the result are those of the nodes placed first, under the remap. */
  lemma ParentsAreFirstPlaced(stable: Stable, t: Tree, records: set<string>, child: string, parent: string)
    requires Injective(stable) && UniqueIds(t.nodes)
    ensures ParentStep(Normalized(stable, t, records).nodes, child, parent) <==>
      MovedStep(t.nodes, RemapOf(stable, t.nodes, records), child, parent)
  {
    var ids := RemapOf(stable, t.nodes, records);
    var result := Normalized(stable, t, records).nodes;
    ResultFacts(stable, t, records);
    if ParentStep(result, child, parent) {
      var m :| m in result && m.id == child && m.parentId == parent;
      var n :| n in t.nodes && Source(m, n, ids);
      var k :| 0 <= k < |t.nodes| && t.nodes[k] == n;
      var i := SomeFirst(t.nodes, ids, k);
      FirstPlacedGivesParent(stable, t, records, i);
      var same :| same in result && same.id == child && same.parentId == Follow(ids, t.nodes[i].parentId);
      SameNode(result, m, same);
      assert MovedStep(t.nodes, ids, child, parent);
    }
    if MovedStep(t.nodes, ids, child, parent) {
      var i: nat :| PlacedFirst(t.nodes, ids, i) && Follow(ids, t.nodes[i].id) == child && Follow(ids, t.nodes[i].parentId) == parent;
      FirstPlacedGivesParent(stable, t, records, i);
    }
  }

  /**
    A node of the result is its own parent exactly when the first node placed
    under its ID has a parent that the remap takes to that same ID.
   */
  lemma OwnParentExactlyWhen(stable: Stable, t: Tree, records: set<string>, id: string)
    requires Injective(stable) && UniqueIds(t.nodes)
    ensures var ids := RemapOf(stable, t.nodes, records);
      (exists m :: m in Normalized(stable, t, records).nodes && m.id == m.parentId == id) <==>
      (exists i: nat :: PlacedFirst(t.nodes, ids, i) && Follow(ids, t.nodes[i].id) == Follow(ids, t.nodes[i].parentId) == id)
  {
    ParentsAreFirstPlaced(stable, t, records, id, id);
    assert ParentStep(Normalized(stable, t, records).nodes, id, id) <==>
      exists m :: m in Normalized(stable, t, records).nodes && m.id == m.parentId == id;
  }

  function Next(c: seq<string>, i: nat): string
    requires i < |c|
  {
    if i + 1 < |c| then c[i + 1] else c[0]
  }

  /** A closed chain of parent links that does not pass the root. */
  ghost predicate ParentCycle(nodes: seq<Node>, c: seq<string>) {
    c != [] && ROOT !in c && forall i :: 0 <= i < |c| ==> ParentStep(nodes, c[i], Next(c, i))
  }

  ghost predicate MovedCycle(nodes: seq<Node>, ids: map<string, string>, c: seq<string>) {
    c != [] && ROOT !in c && forall i :: 0 <= i < |c| ==> MovedStep(nodes, ids, c[i], Next(c, i))
  }

  ghost predicate Cyclic(nodes: seq<Node>) {
    exists c :: ParentCycle(nodes, c)
  }

  /** The result has a cycle exactly when the remap closes a chain of parent links of nodes placed first. */
  lemma CyclicExactlyWhen(stable: Stable, t: Tree, records: set<string>)
    requires Injective(stable) && UniqueIds(t.nodes)
    ensures Cyclic(Normalized(stable, t, records).nodes) <==> exists c :: MovedCycle(t.nodes, RemapOf(stable, t.nodes, records), c)
  {
    var ids := RemapOf(stable, t.nodes, records);
    var result := Normalized(stable, t, records).nodes;
    forall c ensures ParentCycle(result, c) <==> MovedCycle(t.nodes, ids, c) {
      forall i | 0 <= i < |c| ensures ParentStep(result, c[i], Next(c, i)) <==> MovedStep(t.nodes, ids, c[i], Next(c, i)) {
        ParentsAreFirstPlaced(stable, t, records, c[i], Next(c, i));
      }
    }
    if Cyclic(result) {
      var c :| ParentCycle(result, c);
      assert MovedCycle(t.nodes, ids, c);
    }
  }

  /** Along a chain of parent links that stays among the nodes and off the root, the rank falls with every link. */
  lemma {:induction false} RankFalls(nodes: seq<Node>, rank: map<string, nat>, c: seq<string>, k: nat)
    requires UniqueIds(nodes) && Ranked(nodes, rank) && k < |c| && ROOT !in c
    requires forall i :: 0 <= i < |c| ==> c[i] in Ids(nodes)
    requires forall i :: 0 <= i < |c| - 1 ==> ParentStep(nodes, c[i], c[i + 1])
    ensures c[0] in rank && c[k] in rank && rank[c[k]] + k <= rank[c[0]]
  {
    assert c[k] in Ids(nodes);
    var n :| n in nodes && n.id == c[k];
    if k > 0 {
      RankFalls(nodes, rank, c, k - 1);
      assert ParentStep(nodes, c[k - 1], c[k - 1 + 1]);
      var m :| m in nodes && m.id == c[k - 1] && m.parentId == c[k];
    }
  }

  /** Ranks rule cycles out. */
  lemma RankedIsAcyclic(nodes: seq<Node>, rank: map<string, nat>)
    requires UniqueIds(nodes) && Ranked(nodes, rank)
    ensures !Cyclic(nodes)
  {
    if c :| ParentCycle(nodes, c) {
      var around := c + [c[0]];
      forall i | 0 <= i < |around| ensures around[i] in Ids(nodes) {
        assert ParentStep(nodes, around[i], Next(c, if i < |c| then i else 0));
      }
      forall i | 0 <= i < |around| - 1 ensures ParentStep(nodes, around[i], around[i + 1]) {
        assert ParentStep(nodes, c[i], Next(c, i));
      }
      RankFalls(nodes, rank, around, |c|);
    }
  }

  // ------------------------------------------------------------------ counterexamples

  function Topic(id: string, parentId: string, refs: set<string>): Node {
    Node(id, true, parentId, refs, {}, {}, false)
  }

  /** A legacy topic that refers to another agenda lends it its record ID. */
  lemma ForeignReferenceKeepsRecordId(stable: Stable)
    requires Separates(stable, {"a", "b"})
    ensures var t := Tree([Topic("a", ROOT, {"b"}), Topic("b", ROOT, {})], [], [], []);
      UniqueIds(t.nodes) && !NoTopicIsRecord(Normalized(stable, t, {"a", "b"}).nodes, {"a", "b"})
  {
    var a, b := Topic("a", ROOT, {"b"}), Topic("b", ROOT, {});
    var t := Tree([a, b], [], [], []);
    forall id ensures id in Existing(t.nodes, "b") <==> id == "a" {
      ExistingFacts(t.nodes, "b", id);
    }
    LexTotal("a", "a");
    assert FirstChoice(t.nodes, "b", "a");
    assert b in t.nodes;
    UnclearTargetStaysRecord(stable, t, {"a", "b"}, b, "a");
  }

  /** A legacy topic placed ahead of the topic it is renamed to, and below it, becomes its own parent. */
  lemma NestedTargetMakesSelfLoop(stable: Stable)
    requires Separates(stable, {"a"})
    ensures var t := Tree([Topic("a", "t", {}), Topic("t", ROOT, {"a"})], [], [], []);
      exists m :: m in Normalized(stable, t, {"a"}).nodes && m.id == m.parentId == "t"
  {
    var a, b := Topic("a", "t", {}), Topic("t", ROOT, {"a"});
    var t := Tree([a, b], [], [], []);
    var ids := RemapOf(stable, t.nodes, {"a"});
    OnlyLegacyGoesToOwnTopic(stable, t.nodes, a, b);
    assert PlacedFirst(t.nodes, ids, 0) && Follow(ids, t.nodes[0].id) == Follow(ids, t.nodes[0].parentId) == "t";
    OwnParentExactlyWhen(stable, t, {"a"}, "t");
  }

  /** The same two topics in the other order keep the target's own parent. */
  lemma TargetFirstKeepsItsParent(stable: Stable)
    requires Separates(stable, {"a"})
    ensures var t := Tree([Topic("t", ROOT, {"a"}), Topic("a", "t", {})], [], [], []);
      !exists m :: m in Normalized(stable, t, {"a"}).nodes && m.id == m.parentId == "t"
  {
    var a, b := Topic("a", "t", {}), Topic("t", ROOT, {"a"});
    var t := Tree([b, a], [], [], []);
    var ids := RemapOf(stable, t.nodes, {"a"});
    OnlyLegacyGoesToOwnTopic(stable, t.nodes, a, b);
    assert Follow(ids, t.nodes[0].id) == Follow(ids, t.nodes[1].id) == "t";
    assert !PlacedFirst(t.nodes, ids, 1);
    OwnParentExactlyWhen(stable, t, {"a"}, "t");
  }

  lemma OnlyLegacyGoesToOwnTopic(stable: Stable, nodes: seq<Node>, a: Node, b: Node)
    requires Separates(stable, {"a"}) && a == Topic("a", "t", {}) && b == Topic("t", ROOT, {"a"})
    requires nodes == [a, b] || nodes == [b, a]
    ensures RemapOf(stable, nodes, {"a"}) == map["a" := "t"]
  {
    var ids := RemapOf(stable, nodes, {"a"});
    RemapIsLegacy(stable, nodes, {"a"});
    assert a in nodes && b in nodes && Legacy(a, {"a"});
    forall id ensures id in Existing(nodes, "a") <==> id == "t" {
      ExistingFacts(nodes, "a", id);
    }
    assert ids.Keys == {"a"};
    assert ids["a"] == "t";
  }
}
