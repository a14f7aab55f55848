/**
  Agenda anchors (internal/application/ai_agenda_anchor.go): each round derives
  the lifecycle status of every agenda record from the tree, searching below its
  topics for an active detail, and records the change in the anchor's history.
 */
module AgendaAnchors {
  import opened Sorting

  datatype Node = Node(id: string, parentId: string, container: bool, refs: set<string>, mixed: bool, mergedFrom: bool)

  datatype Item = Item(id: string, active: bool, relatedAgendas: set<string>)

  datatype Agenda = Agenda(id: string, order: int, actionSummary: bool)

  datatype Status = Unset | Planned | Materialized | Discussed | Merged | NotDiscussed

  datatype Transition = Transition(from: Status, to: Status, version: int)

  datatype Anchor = Anchor(agendaId: string, order: int, topicIds: set<string>, status: Status, history: seq<Transition>)

  /** Node and child lookups of one tree, with the IDs of its active items. */
  datatype Graph = Graph(nodes: map<string, Node>, children: map<string, seq<string>>, active: set<string>)

  // ------------------------------------------------------------------ the graph

  function NodeMap(nodes: seq<Node>): map<string, Node> {
    if nodes == [] then map[] else NodeMap(nodes[..|nodes| - 1])[nodes[|nodes| - 1].id := nodes[|nodes| - 1]]
  }

  function ChildMap(nodes: seq<Node>): map<string, seq<string>> {
    if nodes == [] then map[]
    else
      var rest, n := ChildMap(nodes[..|nodes| - 1]), nodes[|nodes| - 1];
      if n.parentId == "" then rest else rest[n.parentId := Below(rest, n.parentId) + [n.id]]
  }

  function Below(children: map<string, seq<string>>, id: string): seq<string> {
    if id in children then children[id] else []
  }

  function ActiveIds(items: seq<Item>): set<string> {
    set item | item in items && item.active :: item.id
  }

  function GraphOf(nodes: seq<Node>, items: seq<Item>): Graph {
    Graph(NodeMap(nodes), ChildMap(nodes), ActiveIds(items))
  }

  method BuildGraph(nodes: seq<Node>, items: seq<Item>) returns (g: Graph)
    ensures g == GraphOf(nodes, items)
  {
    var byId: map<string, Node>, children: map<string, seq<string>> := map[], map[];
    for i := 0 to |nodes|
      invariant byId == NodeMap(nodes[..i]) && children == ChildMap(nodes[..i])
    {
      assert nodes[..i + 1][..i] == nodes[..i];
      var n := nodes[i];
      byId := byId[n.id := n];
      if n.parentId != "" {
        children := children[n.parentId := Below(children, n.parentId) + [n.id]];
      }
    }
    assert nodes[..|nodes|] == nodes;
    g := Graph(byId, children, ActiveIds(items));
  }

  lemma {:induction false} ChildrenAreParentPairs(nodes: seq<Node>, parent: string, child: string)
    ensures child in Below(ChildMap(nodes), parent) <==>
      exists n :: n in nodes && n.parentId == parent != "" && n.id == child
  {
    if nodes != [] {
      ChildrenAreParentPairs(nodes[..|nodes| - 1], parent, child);
      assert nodes == nodes[..|nodes| - 1] + [nodes[|nodes| - 1]];
    }
  }

  // ------------------------------------------------------------ the descendant search

  predicate Container(g: Graph, id: string) {
    id in g.nodes && g.nodes[id].container
  }

  predicate Detail(g: Graph, id: string) {
    id in g.nodes && !g.nodes[id].container && g.nodes[id].id in g.active
  }

  /** A downward path from `root` whose inner nodes are topics or groups. */
  ghost predicate Path(g: Graph, root: string, p: seq<string>) {
    && |p| >= 2 && p[0] == root
    && (forall i :: 0 <= i < |p| - 1 ==> p[i + 1] in Below(g.children, p[i]))
    && (forall i :: 1 <= i < |p| - 1 ==> Container(g, p[i]))
  }

  ghost predicate Reaches(g: Graph, root: string, id: string) {
    exists p :: Path(g, root, p) && p[|p| - 1] == id
  }

  ghost predicate HasDetail(g: Graph, root: string) {
    exists id :: Reaches(g, root, id) && Detail(g, id)
  }

  lemma ChildIsReached(g: Graph, root: string, id: string)
    requires id in Below(g.children, root)
    ensures Reaches(g, root, id)
  {
    assert Path(g, root, [root, id]);
  }

  lemma ReachesDown(g: Graph, root: string, id: string, child: string)
    requires Reaches(g, root, id) && Container(g, id) && child in Below(g.children, id)
    ensures Reaches(g, root, child)
  {
    var p :| Path(g, root, p) && p[|p| - 1] == id;
    var q := p + [child];
    assert Path(g, root, q) && q[|q| - 1] == child;
  }

  /** Everything below `ids` that the search must still look at has been queued or seen. */
  ghost predicate Closed(g: Graph, root: string, seen: set<string>, queue: seq<string>) {
    && (forall c :: c in Below(g.children, root) ==> c in seen || c in queue)
    && (forall id, c :: id in seen && Container(g, id) && c in Below(g.children, id) ==> c in seen || c in queue)
  }

  lemma {:induction false} ClosedReachesAll(g: Graph, root: string, seen: set<string>, p: seq<string>, k: nat)
    requires Closed(g, root, seen, []) && Path(g, root, p) && 1 <= k < |p|
    ensures p[k] in seen
  {
    assert p[k - 1 + 1] in Below(g.children, p[k - 1]);
    if k > 1 {
      ClosedReachesAll(g, root, seen, p, k - 1);
    }
  }

  lemma SearchedEverything(g: Graph, root: string, seen: set<string>)
    requires Closed(g, root, seen, []) && forall id :: id in seen ==> !Detail(g, id)
    ensures !HasDetail(g, root)
  {
    forall id | Reaches(g, root, id) ensures !Detail(g, id) {
      var p :| Path(g, root, p) && p[|p| - 1] == id;
      ClosedReachesAll(g, root, seen, p, |p| - 1);
    }
  }

  ghost function AllChildren(g: Graph): set<string> {
    set p, c | p in g.children && c in g.children[p] :: c
  }

  lemma QueueGrows(g: Graph, root: string, seen: set<string>, queue: seq<string>, id: string)
    requires Closed(g, root, seen, [id] + queue) && Container(g, id)
    requires forall q :: q in [id] + queue ==> q in AllChildren(g) && Reaches(g, root, q)
    ensures Closed(g, root, seen + {id}, queue + Below(g.children, id))
    ensures forall q :: q in queue + Below(g.children, id) ==> q in AllChildren(g) && Reaches(g, root, q)
  {
    forall c | c in Below(g.children, id) ensures c in AllChildren(g) && Reaches(g, root, c) {
      assert id in [id] + queue;
      ReachesDown(g, root, id, c);
    }
    forall q | q in queue ensures q in [id] + queue {}
  }

  /** Terminates on cyclic graphs, and finds a detail exactly when a path leads to one. */
  method HasDetailDescendant(g: Graph, root: string) returns (found: bool)
    ensures found <==> HasDetail(g, root)
  {
    var queue := Below(g.children, root);
    var seen: set<string> := {};
    forall q | q in queue ensures Reaches(g, root, q) {
      ChildIsReached(g, root, q);
    }
    while queue != []
      invariant Closed(g, root, seen, queue)
      invariant forall q :: q in queue ==> q in AllChildren(g) && Reaches(g, root, q)
      invariant forall id :: id in seen ==> !Detail(g, id)
      decreases AllChildren(g) - seen, |queue|
    {
      var id := queue[0];
      var rest := queue[1..];
      assert queue == [id] + rest;
      if id in seen {
        queue := rest;
        continue;
      }
      if Container(g, id) {
        QueueGrows(g, root, seen, rest, id);
        queue := rest + Below(g.children, id);
      } else {
        if Detail(g, id) {
          return true;
        }
        queue := rest;
      }
      seen := seen + {id};
    }
    SearchedEverything(g, root, seen);
    found := false;
  }

  // ------------------------------------------------------------------- the lifecycle

  datatype Facts = Facts(topicIds: set<string>, discussed: bool, merged: bool)

  predicate RefersTo(n: Node, agendaId: string) {
    agendaId in n.refs
  }

  /** What the tree says about one agenda. */
  ghost predicate IsFacts(f: Facts, nodes: seq<Node>, items: seq<Item>, a: Agenda) {
    var g := GraphOf(nodes, items);
    && f.topicIds == (if a.actionSummary then {} else set n | n in nodes && RefersTo(n, a.id) && n.id != "" :: n.id)
    && (f.discussed <==>
          || (exists n :: n in nodes && RefersTo(n, a.id) && HasDetail(g, n.id))
          || (a.actionSummary && exists item :: item in items && item.active && a.id in item.relatedAgendas))
    && (f.merged <==> exists n :: n in nodes && RefersTo(n, a.id) && (n.mixed || |n.refs| > 1 || n.mergedFrom))
  }

  method FactsFromNodes(g: Graph, nodes: seq<Node>, a: Agenda) returns (ids: set<string>, discussed: bool, merged: bool)
    ensures ids == set n | n in nodes && RefersTo(n, a.id) && n.id != "" :: n.id
    ensures discussed <==> exists n :: n in nodes && RefersTo(n, a.id) && HasDetail(g, n.id)
    ensures merged <==> exists n :: n in nodes && RefersTo(n, a.id) && (n.mixed || |n.refs| > 1 || n.mergedFrom)
  {
    ids, discussed, merged := {}, false, false;
    for i := 0 to |nodes|
      invariant ids == set n | n in nodes[..i] && RefersTo(n, a.id) && n.id != "" :: n.id
      invariant discussed <==> exists n :: n in nodes[..i] && RefersTo(n, a.id) && HasDetail(g, n.id)
      invariant merged <==> exists n :: n in nodes[..i] && RefersTo(n, a.id) && (n.mixed || |n.refs| > 1 || n.mergedFrom)
    {
      assert nodes[..i + 1] == nodes[..i] + [nodes[i]];
      if !RefersTo(nodes[i], a.id) {
        continue;
      }
      if nodes[i].id != "" {
        ids := ids + {nodes[i].id};
      }
      var below := HasDetailDescendant(g, nodes[i].id);
      discussed := discussed || below;
      merged := merged || nodes[i].mixed || |nodes[i].refs| > 1 || nodes[i].mergedFrom;
    }
    assert nodes[..|nodes|] == nodes;
  }

  method CollectFacts(g: Graph, nodes: seq<Node>, items: seq<Item>, a: Agenda) returns (f: Facts)
    requires g == GraphOf(nodes, items)
    ensures IsFacts(f, nodes, items, a)
  {
    var ids, discussed, merged := FactsFromNodes(g, nodes, a);
    if a.actionSummary {
      ids := {};
      for i := 0 to |items|
        invariant forall j :: 0 <= j < i ==> !(items[j].active && a.id in items[j].relatedAgendas)
      {
        if items[i].active && a.id in items[i].relatedAgendas {
          discussed := true;
          break;
        }
      }
    }
    f := Facts(ids, discussed, merged);
  }

  function StatusOf(f: Facts, final: bool): Status {
    if f.merged then Merged
    else if f.discussed then Discussed
    else if f.topicIds != {} then Materialized
    else if final then NotDiscussed
    else Planned
  }

  function Updated(anchor: Anchor, a: Agenda, f: Facts, version: int, final: bool): Anchor {
    var status := StatusOf(f, final);
    Anchor(a.id, a.order, f.topicIds, status,
      if anchor.status != status then anchor.history + [Transition(anchor.status, status, version)] else anchor.history)
  }

  function PreviousOf(previous: seq<Anchor>, agendaId: string): Anchor {
    if previous == [] then Anchor(agendaId, 0, {}, Unset, [])
    else if previous[|previous| - 1].agendaId == agendaId then previous[|previous| - 1]
    else PreviousOf(previous[..|previous| - 1], agendaId)
  }

  function PreviousById(previous: seq<Anchor>): map<string, Anchor> {
    if previous == [] then map[]
    else PreviousById(previous[..|previous| - 1])[previous[|previous| - 1].agendaId := previous[|previous| - 1]]
  }

  lemma {:induction false} LookupIsLast(previous: seq<Anchor>, agendaId: string)
    ensures PreviousOf(previous, agendaId) ==
      if agendaId in PreviousById(previous) then PreviousById(previous)[agendaId] else Anchor(agendaId, 0, {}, Unset, [])
  {
    if previous != [] {
      LookupIsLast(previous[..|previous| - 1], agendaId);
    }
  }

  predicate InOrder(a: Anchor, b: Anchor) {
    a.order <= b.order
  }

  /** The anchors of a round: one per agenda, updated from the previous one, in stable agenda order. */
  ghost predicate Reconciled(result: seq<Anchor>, previous: seq<Anchor>, agendas: seq<Agenda>,
      nodes: seq<Node>, items: seq<Item>, version: int, final: bool)
  {
    exists facts: seq<Facts> ::
      && AllFacts(facts, agendas, nodes, items)
      && result == Sort(AllUpdated(previous, agendas, facts, version, final), InOrder)
  }

  ghost function AllUpdated(previous: seq<Anchor>, agendas: seq<Agenda>, facts: seq<Facts>, version: int, final: bool): seq<Anchor>
    requires |facts| == |agendas|
  {
    seq(|agendas|, i requires 0 <= i < |agendas| =>
      Updated(PreviousOf(previous, agendas[i].id), agendas[i], facts[i], version, final))
  }

  method IndexAnchors(previous: seq<Anchor>) returns (byId: map<string, Anchor>)
    ensures byId == PreviousById(previous)
  {
    byId := map[];
    for i := 0 to |previous|
      invariant byId == PreviousById(previous[..i])
    {
      assert previous[..i + 1][..i] == previous[..i];
      byId := byId[previous[i].agendaId := previous[i]];
    }
    assert previous[..|previous|] == previous;
  }

  method UpdateAnchor(previous: seq<Anchor>, byId: map<string, Anchor>, a: Agenda, g: Graph, nodes: seq<Node>, items: seq<Item>,
      version: int, final: bool) returns (anchor: Anchor, f: Facts)
    requires byId == PreviousById(previous) && g == GraphOf(nodes, items)
    ensures IsFacts(f, nodes, items, a) && anchor == Updated(PreviousOf(previous, a.id), a, f, version, final)
  {
    LookupIsLast(previous, a.id);
    var before := if a.id in byId then byId[a.id] else Anchor(a.id, 0, {}, Unset, []);
    f := CollectFacts(g, nodes, items, a);
    anchor := Updated(before, a, f, version, final);
  }

  ghost predicate AllFacts(facts: seq<Facts>, agendas: seq<Agenda>, nodes: seq<Node>, items: seq<Item>) {
    |facts| == |agendas| && forall i :: 0 <= i < |agendas| ==> IsFacts(facts[i], nodes, items, agendas[i])
  }

  method UpdateAnchors(previous: seq<Anchor>, agendas: seq<Agenda>, nodes: seq<Node>, items: seq<Item>,
      version: int, final: bool) returns (result: seq<Anchor>, facts: seq<Facts>)
    ensures AllFacts(facts, agendas, nodes, items)
    ensures result == AllUpdated(previous, agendas, facts, version, final)
  {
    var byId := IndexAnchors(previous);
    var g := BuildGraph(nodes, items);
    result, facts := [], [];
    for i := 0 to |agendas|
      invariant |result| == |facts| == i
      invariant forall k :: 0 <= k < i ==> IsFacts(facts[k], nodes, items, agendas[k])
      invariant forall k :: 0 <= k < i ==>
        result[k] == Updated(PreviousOf(previous, agendas[k].id), agendas[k], facts[k], version, final)
    {
      var anchor, f := UpdateAnchor(previous, byId, agendas[i], g, nodes, items, version, final);
      result, facts := result + [anchor], facts + [f];
    }
  }

  method ReconcileAnchors(previous: seq<Anchor>, agendas: seq<Agenda>, nodes: seq<Node>, items: seq<Item>,
      version: int, final: bool) returns (result: seq<Anchor>)
    ensures Reconciled(result, previous, agendas, nodes, items, version, final)
  {
    var updated, facts := UpdateAnchors(previous, agendas, nodes, items, version, final);
    result := Sort(updated, InOrder);
  }

  // -------------------------------------------------------------- what every run keeps

  /** Each step starts where the one before ended, none stays put, and the last leads to the status. */
  ghost predicate ChainOk(a: Anchor) {
    && (forall i :: 0 <= i < |a.history| ==> a.history[i].from != a.history[i].to && a.history[i].to != Unset)
    && (forall i :: 0 <= i < |a.history| - 1 ==> a.history[i].to == a.history[i + 1].from)
    && (if a.history == [] then a.status == Unset
        else a.history[0].from == Unset && a.history[|a.history| - 1].to == a.status)
  }

  lemma UpdateKeepsChain(anchor: Anchor, a: Agenda, f: Facts, version: int, final: bool)
    requires ChainOk(anchor)
    ensures ChainOk(Updated(anchor, a, f, version, final))
    ensures anchor.history <= Updated(anchor, a, f, version, final).history
    ensures Updated(anchor, a, f, version, final).status != Unset
  {}

  lemma {:induction false} PreviousIsOk(previous: seq<Anchor>, agendaId: string)
    requires forall a :: a in previous ==> ChainOk(a)
    ensures ChainOk(PreviousOf(previous, agendaId))
  {
    if previous != [] {
      PreviousIsOk(previous[..|previous| - 1], agendaId);
    }
  }

  lemma InOrderIsTotal()
    ensures Total(InOrder)
  {}

  lemma RoundKeepsChains(result: seq<Anchor>, previous: seq<Anchor>, agendas: seq<Agenda>,
      nodes: seq<Node>, items: seq<Item>, version: int, final: bool)
    requires Reconciled(result, previous, agendas, nodes, items, version, final)
    requires forall a :: a in previous ==> ChainOk(a)
    ensures forall a :: a in result ==> ChainOk(a) && a.history != []
    ensures Sorted(result, InOrder) && |result| == |agendas|
  {
    var facts: seq<Facts> :| AllFacts(facts, agendas, nodes, items)
      && result == Sort(AllUpdated(previous, agendas, facts, version, final), InOrder);
    UpdatesKeepChains(previous, agendas, facts, version, final);
    InOrderIsTotal();
    SortFacts(AllUpdated(previous, agendas, facts, version, final), InOrder);
  }

  lemma UpdatesKeepChains(previous: seq<Anchor>, agendas: seq<Agenda>, facts: seq<Facts>, version: int, final: bool)
    requires |facts| == |agendas| && forall a :: a in previous ==> ChainOk(a)
    ensures forall a :: a in AllUpdated(previous, agendas, facts, version, final) ==> ChainOk(a) && a.history != []
  {
    var updated := AllUpdated(previous, agendas, facts, version, final);
    forall a | a in updated ensures ChainOk(a) && a.history != [] {
      var i :| 0 <= i < |updated| && updated[i] == a;
      PreviousIsOk(previous, agendas[i].id);
      UpdateKeepsChain(PreviousOf(previous, agendas[i].id), agendas[i], facts[i], version, final);
    }
  }

  datatype Round = Round(agendas: seq<Agenda>, nodes: seq<Node>, items: seq<Item>, version: int, final: bool)

  /** `results` are the anchors after each of the rounds, starting from none. */
  ghost predicate IsRun(rounds: seq<Round>, results: seq<seq<Anchor>>) {
    && |results| == |rounds| + 1 && results[0] == []
    && forall i :: 0 <= i < |rounds| ==> Follows(rounds[i], results[i], results[i + 1])
  }

  ghost predicate Follows(r: Round, before: seq<Anchor>, after: seq<Anchor>) {
    Reconciled(after, before, r.agendas, r.nodes, r.items, r.version, r.final)
  }

  /** Over any sequence of rounds every anchor's history is a chain ending in its status. */
  lemma {:induction false} HistoriesAreChains(rounds: seq<Round>, results: seq<seq<Anchor>>, n: nat)
    requires IsRun(rounds, results) && n <= |rounds|
    ensures forall a :: a in results[n] ==> ChainOk(a)
  {
    if n > 0 {
      HistoriesAreChains(rounds, results, n - 1);
      var r := rounds[n - 1];
      assert Follows(r, results[n - 1], results[n - 1 + 1]);
      RoundKeepsChains(results[n], results[n - 1], r.agendas, r.nodes, r.items, r.version, r.final);
    }
  }
}
