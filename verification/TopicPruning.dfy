/**
  Pruning of agenda topics that lost their evidence (internal/application/ai_agenda_anchor.go):
  the emptiness test that climbs from every node, on any parent map, and the
  removal of empty topics with the edges at them.
 */
module TopicPruning {

  const ROOT := "root"
  const GRACE_ROUNDS := 2

  datatype Node = Node(id: string, parentId: string, agendaTopic: bool, manual: bool, relatesItems: bool, createdAt: int)

  datatype Tree = Tree(nodes: seq<Node>, edges: seq<(string, string)>, relations: seq<(string, string)>)

  type Parents = map<string, string>

  function ParentOf(parents: Parents, id: string): string {
    if id in parents then parents[id] else ""
  }

  function ParentsOf(nodes: seq<Node>): Parents {
    if nodes == [] then map[] else ParentsOf(nodes[..|nodes| - 1])[nodes[|nodes| - 1].id := nodes[|nodes| - 1].parentId]
  }

  // --------------------------------------------------------------- the emptiness test

  /** A node other than the root hangs directly below the topic. */
  predicate HasChild(parents: Parents, topicId: string) {
    exists id :: id in parents && IsChild(parents, topicId, id)
  }

  predicate IsChild(parents: Parents, topicId: string, id: string) {
    id in parents && id != "" && id != ROOT && parents[id] == topicId
  }

  /** Climbs from `start` until the root, the end of the chain, or a loop. */
  method ClimbsThrough(parents: Parents, topicId: string, start: string) returns (found: bool)
    requires topicId != ""
    ensures found ==> HasChild(parents, topicId)
    ensures IsChild(parents, topicId, start) ==> found
  {
    var seen: set<string> := {};
    var current := start;
    ghost var universe := parents.Keys + parents.Values + {start};
    while current != "" && current != ROOT
      invariant current in universe || current == ""
      invariant seen <= universe
      invariant start in seen || current == start
      invariant IsChild(parents, topicId, start) ==> start !in seen
      decreases universe - seen
    {
      if current in seen {
        break;
      }
      seen := seen + {current};
      var parent := ParentOf(parents, current);
      if parent == topicId {
        assert IsChild(parents, topicId, current);
        return true;
      }
      current := parent;
    }
    found := false;
  }

  /** The climb from every node finds the topic exactly when it has a direct child, loops included. */
  method TopicHasDescendants(topicId: string, parents: Parents) returns (found: bool)
    requires topicId != ""
    ensures found <==> HasChild(parents, topicId)
  {
    var rest := parents.Keys;
    while rest != {}
      invariant rest <= parents.Keys
      invariant forall id :: id in parents && id !in rest ==> !IsChild(parents, topicId, id)
      decreases rest
    {
      var id :| id in rest;
      rest := rest - {id};
      found := ClimbsThrough(parents, topicId, id);
      if found {
        return true;
      }
    }
    found := false;
  }

  // ------------------------------------------------------------------------ pruning

  predicate Referenced(relations: seq<(string, string)>, id: string) {
    exists r :: r in relations && (r.0 == id || r.1 == id)
  }

  predicate WithinGrace(n: Node, round: int) {
    n.createdAt > 0 && round >= n.createdAt && round - n.createdAt < GRACE_ROUNDS
  }

  predicate Prunable(t: Tree, n: Node, round: int, final: bool) {
    && n.agendaTopic && n.id != ROOT
    && !HasChild(ParentsOf(t.nodes), n.id)
    && !n.manual && !n.relatesItems
    && !Referenced(t.relations, n.id)
    && (final || !WithinGrace(n, round))
  }

  function Removed(t: Tree, round: int, final: bool): set<string> {
    set n | n in t.nodes && Prunable(t, n, round, final) :: n.id
  }

  function KeepNodes(nodes: seq<Node>, removed: set<string>): seq<Node> {
    if nodes == [] then []
    else KeepNodes(nodes[..|nodes| - 1], removed) + if nodes[|nodes| - 1].id in removed then [] else [nodes[|nodes| - 1]]
  }

  function KeepEdges(edges: seq<(string, string)>, removed: set<string>): seq<(string, string)> {
    if edges == [] then []
    else
      var e := edges[|edges| - 1];
      KeepEdges(edges[..|edges| - 1], removed) + if e.0 in removed || e.1 in removed then [] else [e]
  }

  function Pruned(t: Tree, round: int, final: bool): Tree {
    var removed := Removed(t, round, final);
    if removed == {} then t else Tree(KeepNodes(t.nodes, removed), KeepEdges(t.edges, removed), t.relations)
  }

  class TopicTree {
    var nodes: seq<Node>
    var edges: seq<(string, string)>
    var relations: seq<(string, string)>

    ghost function Abstract(): Tree
      reads this
    {
      Tree(nodes, edges, relations)
    }

    constructor (t: Tree)
      ensures Abstract() == t
    {
      nodes, edges, relations := t.nodes, t.edges, t.relations;
    }

    method IsPrunable(n: Node, parents: Parents, round: int, final: bool) returns (prunable: bool)
      requires parents == ParentsOf(nodes) && n.id != ""
      ensures prunable == Prunable(Abstract(), n, round, final)
    {
      if !n.agendaTopic || n.id == ROOT {
        return false;
      }
      var occupied := TopicHasDescendants(n.id, parents);
      if occupied {
        return false;
      }
      if n.manual || n.relatesItems {
        return false;
      }
      for i := 0 to |relations|
        invariant forall j :: 0 <= j < i ==> relations[j].0 != n.id && relations[j].1 != n.id
      {
        if relations[i].0 == n.id || relations[i].1 == n.id {
          return false;
        }
      }
      return final || !WithinGrace(n, round);
    }

    method CollectRemoved(round: int, final: bool) returns (removed: set<string>)
      requires forall n :: n in nodes ==> n.id != ""
      ensures removed == Removed(Abstract(), round, final)
    {
      var parents: Parents := map[];
      for i := 0 to |nodes|
        invariant parents == ParentsOf(nodes[..i])
      {
        assert nodes[..i + 1][..i] == nodes[..i];
        parents := parents[nodes[i].id := nodes[i].parentId];
      }
      assert nodes[..|nodes|] == nodes;
      removed := {};
      for i := 0 to |nodes|
        invariant removed == set n | n in nodes[..i] && Prunable(Abstract(), n, round, final) :: n.id
      {
        assert nodes[..i + 1] == nodes[..i] + [nodes[i]];
        var prunable := IsPrunable(nodes[i], parents, round, final);
        if prunable {
          removed := removed + {nodes[i].id};
        }
      }
    }

    method PruneEmptyAgendaTopics(round: int, final: bool)
      requires forall n :: n in nodes ==> n.id != ""
      modifies this
      ensures Abstract() == Pruned(old(Abstract()), round, final)
    {
      var removed := CollectRemoved(round, final);
      if removed == {} {
        return;
      }
      var keptNodes: seq<Node>, keptEdges: seq<(string, string)> := [], [];
      for i := 0 to |nodes|
        invariant keptNodes == KeepNodes(nodes[..i], removed)
      {
        assert nodes[..i + 1][..i] == nodes[..i];
        if nodes[i].id !in removed {
          keptNodes := keptNodes + [nodes[i]];
        }
      }
      assert nodes[..|nodes|] == nodes;
      for i := 0 to |edges|
        invariant keptEdges == KeepEdges(edges[..i], removed)
      {
        assert edges[..i + 1][..i] == edges[..i];
        if edges[i].0 !in removed && edges[i].1 !in removed {
          keptEdges := keptEdges + [edges[i]];
        }
      }
      assert edges[..|edges|] == edges;
      nodes, edges := keptNodes, keptEdges;
    }
  }

  // ---------------------------------------------------------------- what is left behind

  ghost predicate UniqueIds(nodes: seq<Node>) {
    forall i, j :: 0 <= i < j < |nodes| ==> nodes[i].id != nodes[j].id
  }

  lemma {:induction false} ParentsAreParents(nodes: seq<Node>)
    requires UniqueIds(nodes)
    ensures forall n :: n in nodes ==> n.id in ParentsOf(nodes) && ParentsOf(nodes)[n.id] == n.parentId
    ensures forall id :: id in ParentsOf(nodes) ==> exists n :: n in nodes && n.id == id
  {
    if nodes != [] {
      var front, last := nodes[..|nodes| - 1], nodes[|nodes| - 1];
      ParentsAreParents(front);
      assert nodes == front + [last];
    }
  }

  lemma {:induction false} KeptFacts(nodes: seq<Node>, edges: seq<(string, string)>, removed: set<string>)
    ensures forall n :: n in KeepNodes(nodes, removed) <==> n in nodes && n.id !in removed
    ensures forall e :: e in KeepEdges(edges, removed) <==> e in edges && e.0 !in removed && e.1 !in removed
    decreases |nodes| + |edges|
  {
    if nodes != [] {
      KeptFacts(nodes[..|nodes| - 1], edges, removed);
      assert nodes == nodes[..|nodes| - 1] + [nodes[|nodes| - 1]];
    } else if edges != [] {
      KeptFacts(nodes, edges[..|edges| - 1], removed);
      assert edges == edges[..|edges| - 1] + [edges[|edges| - 1]];
    }
  }

  /** Only the root may hang from a removed topic. */
  lemma ChildOfRemovedIsRoot(t: Tree, round: int, final: bool, n: Node)
    requires UniqueIds(t.nodes) && n in t.nodes && n.id != "" && n.parentId in Removed(t, round, final)
    ensures n.id == ROOT
  {
    ParentsAreParents(t.nodes);
    assert n.id != ROOT ==> IsChild(ParentsOf(t.nodes), n.parentId, n.id);
  }

  /** No edge and no relation names a removed topic, and exactly the removed topics are gone. */
  lemma RemovedTopicsAreUnreferenced(t: Tree, round: int, final: bool)
    ensures var p, removed := Pruned(t, round, final), Removed(t, round, final);
      && (forall n :: n in p.nodes <==> n in t.nodes && n.id !in removed)
      && (forall e :: e in p.edges ==> e in t.edges && (removed != {} ==> e.0 !in removed && e.1 !in removed))
      && (forall r :: r in p.relations ==> r.0 !in removed && r.1 !in removed)
  {
    var removed := Removed(t, round, final);
    KeptFacts(t.nodes, t.edges, removed);
    forall r | r in t.relations ensures r.0 !in removed && r.1 !in removed {
      assert Referenced(t.relations, r.0) && Referenced(t.relations, r.1);
    }
  }

  /** A surviving node refers to a removed topic exactly when that node is the root itself. */
  lemma DanglingParentIffRootBelowRemoved(t: Tree, round: int, final: bool)
    requires UniqueIds(t.nodes) && forall n :: n in t.nodes ==> n.id != ""
    ensures (exists n :: n in Pruned(t, round, final).nodes && n.parentId in Removed(t, round, final)) <==>
      exists n :: n in t.nodes && n.id == ROOT && n.parentId in Removed(t, round, final)
  {
    var removed := Removed(t, round, final);
    RemovedTopicsAreUnreferenced(t, round, final);
    if n :| n in Pruned(t, round, final).nodes && n.parentId in removed {
      ChildOfRemovedIsRoot(t, round, final, n);
    }
    if n :| n in t.nodes && n.id == ROOT && n.parentId in removed {
      assert ROOT !in removed;
      assert n in Pruned(t, round, final).nodes;
    }
  }

  /** With a root that hangs from nothing, pruning leaves no reference to a removed topic anywhere. */
  lemma PruningLeavesNoReference(t: Tree, round: int, final: bool)
    requires UniqueIds(t.nodes) && forall n :: n in t.nodes ==> n.id != "" && (n.id == ROOT ==> n.parentId == "")
    ensures var p, removed := Pruned(t, round, final), Removed(t, round, final);
      && (forall n :: n in p.nodes ==> n.id !in removed && n.parentId !in removed)
      && (forall r :: r in p.relations ==> r.0 !in removed && r.1 !in removed)
      && (removed != {} ==> forall e :: e in p.edges ==> e.0 !in removed && e.1 !in removed)
  {
    var removed := Removed(t, round, final);
    RemovedTopicsAreUnreferenced(t, round, final);
    assert "" !in removed;
    forall n | n in Pruned(t, round, final).nodes ensures n.parentId !in removed {
      if n.parentId in removed {
        ChildOfRemovedIsRoot(t, round, final, n);
      }
    }
  }
}
