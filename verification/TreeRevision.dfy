/**
  Canonical tree revisions and their delivery (internal/application/ai_analysis.go):
  the hash of a tree's display form, the version and the change set stamped on a new
  snapshot, and the broadcast that leaves the tree out when its form is unchanged.
  Sorted lists of IDs are sets here.
 */
module TreeRevision {
  import opened Options
  import opened Sorting

  const MAX_INT64 := 0x7fff_ffff_ffff_ffff
  const MIN_INT64 := -0x8000_0000_0000_0000

  /** `display` is the rest of what is shown; `stamps` are lifecycle versions. */
  datatype Node = Node(
    id: string, parentId: string, kind: string, status: string, text: string, description: string,
    display: string, related: seq<string>, refs: seq<string>, stamps: seq<int>)

  datatype Relation = Relation(display: string, source: string, target: string, evidence: seq<int>)

  datatype Tree = Tree(nodes: seq<Node>, edges: seq<(string, string)>, relations: seq<Relation>)

  // --------------------------------------------------------------- the canonical form

  datatype Line =
    | NodeLine(id: string, parentId: string, kind: string, status: string, text: string, description: string,
               display: string, related: seq<string>, refs: seq<string>)
    | EdgeLine(source: string, target: string)
    | RelationLine(display: string, source: string, target: string, evidence: seq<int>)

  function Ordered(a: int, b: int): bool {
    a <= b
  }

  function LineOfNode(n: Node): Line {
    NodeLine(n.id, n.parentId, n.kind, n.status, n.text, n.description, n.display, Sort(n.related, LexLe), Sort(n.refs, LexLe))
  }

  function LineOfEdge(e: (string, string)): Line {
    EdgeLine(e.0, e.1)
  }

  function LineOfRelation(r: Relation): Line {
    RelationLine(r.display, r.source, r.target, Sort(r.evidence, Ordered))
  }

  function Lines(t: Tree): seq<Line> {
    Map(t.nodes, LineOfNode) + Map(t.edges, LineOfEdge) + Map(t.relations, LineOfRelation)
  }

  /** How lines are written out, and how the sorted lines are condensed; neither confuses two inputs. */
  datatype Encoding = Encoding(render: Line -> string, digest: seq<string> -> string)

  ghost predicate Faithful(e: Encoding) {
    && (forall a, b :: e.render(a) == e.render(b) ==> a == b)
    && (forall s, t :: e.digest(s) == e.digest(t) ==> s == t)
    && (forall s :: e.digest(s) != "")
  }

  function Form(e: Encoding, t: Tree): seq<string> {
    Sort(Map(Lines(t), e.render), LexLe)
  }

  function Hash(e: Encoding, t: Option<Tree>): string {
    match t
    case None => ""
    case Some(tree) => e.digest(Form(e, tree))
  }

  method LiveTreeHash(e: Encoding, t: Option<Tree>) returns (hash: string)
    ensures hash == Hash(e, t)
  {
    if t == None {
      return "";
    }
    var tree := t.value;
    var lines: seq<string> := [];
    for i := 0 to |tree.nodes|
      invariant lines == Map(Map(tree.nodes[..i], LineOfNode), e.render)
    {
      lines := lines + [e.render(LineOfNode(tree.nodes[i]))];
    }
    ghost var nodeLines := lines;
    for i := 0 to |tree.edges|
      invariant lines == nodeLines + Map(Map(tree.edges[..i], LineOfEdge), e.render)
    {
      lines := lines + [e.render(LineOfEdge(tree.edges[i]))];
    }
    ghost var edgeLines := lines;
    for i := 0 to |tree.relations|
      invariant lines == edgeLines + Map(Map(tree.relations[..i], LineOfRelation), e.render)
    {
      lines := lines + [e.render(LineOfRelation(tree.relations[i]))];
    }
    assert tree.nodes[..|tree.nodes|] == tree.nodes && tree.edges[..|tree.edges|] == tree.edges;
    assert tree.relations[..|tree.relations|] == tree.relations;
    assert lines == Map(Lines(tree), e.render);
    hash := e.digest(Sort(lines, LexLe));
  }

  lemma RemovalLeaves<T(!new), U>(s: seq<T>, f: T -> U, k: nat)
    requires k < |s|
    ensures multiset(Map(s[..k] + s[k + 1..], f)) == multiset(Map(s, f)) - multiset{f(s[k])}
  {
    MapRemoves(s, f, k);
  }

  lemma RestsAgree<T(!new), U>(s: seq<T>, t: seq<T>, f: T -> U, k: nat)
    requires s != [] && k < |t| && f(t[k]) == f(s[0]) && multiset(Map(s, f)) == multiset(Map(t, f))
    ensures multiset(Map(s[1..], f)) == multiset(Map(t[..k] + t[k + 1..], f))
  {
    RemovalLeaves(s, f, 0);
    RemovalLeaves(t, f, k);
    assert s[..0] + s[1..] == s[1..];
  }

  lemma PutBack<T(!new)>(s: seq<T>, t: seq<T>, k: nat)
    requires s != [] && k < |t| && s[0] == t[k] && multiset(s[1..]) == multiset(t[..k] + t[k + 1..])
    ensures multiset(s) == multiset(t)
  {
    assert s == [s[0]] + s[1..];
    assert t == t[..k] + [t[k]] + t[k + 1..];
  }

  lemma {:induction false} InjectiveMapReflects<T(!new), U>(s: seq<T>, t: seq<T>, f: T -> U)
    requires forall a, b :: f(a) == f(b) ==> a == b
    requires multiset(Map(s, f)) == multiset(Map(t, f))
    ensures multiset(s) == multiset(t)
    decreases |s|
  {
    assert |multiset(Map(s, f))| == |multiset(Map(t, f))|;
    if s != [] {
      assert Map(s, f)[0] in multiset(Map(t, f));
      var k: nat :| k < |t| && Map(t, f)[k] == f(s[0]);
      RestsAgree(s, t, f, k);
      InjectiveMapReflects(s[1..], t[..k] + t[k + 1..], f);
      PutBack(s, t, k);
    }
  }

  /** Two trees have the same hash exactly when they have the same lines, in whatever order. */
  lemma SameHashIffSameLines(e: Encoding, t: Tree, u: Tree)
    requires Faithful(e)
    ensures Hash(e, Some(t)) == Hash(e, Some(u)) <==> multiset(Lines(t)) == multiset(Lines(u))
  {
    LexOrders();
    var a, b := Map(Lines(t), e.render), Map(Lines(u), e.render);
    if multiset(Lines(t)) == multiset(Lines(u)) {
      MapIgnoresOrder(Lines(t), Lines(u), e.render);
      SortIgnoresOrder(a, b, LexLe);
    }
    if Hash(e, Some(t)) == Hash(e, Some(u)) {
      SortFacts(a, LexLe);
      SortFacts(b, LexLe);
      InjectiveMapReflects(Lines(t), Lines(u), e.render);
    }
  }

  /** Nodes that show the same: lifecycle stamps and the order of their lists aside. */
  ghost predicate ShowsTheSame(a: Node, b: Node) {
    && a.(related := [], refs := [], stamps := []) == b.(related := [], refs := [], stamps := [])
    && multiset(a.related) == multiset(b.related) && multiset(a.refs) == multiset(b.refs)
  }

  /** The form ignores the order of nodes, edges and relations, the order inside lists, and lifecycle stamps. */
  lemma FormIgnoresOrder(e: Encoding, t: Tree, u: Tree, shuffled: seq<Node>)
    requires multiset(shuffled) == multiset(u.nodes) && |t.nodes| == |shuffled|
    requires forall i :: 0 <= i < |t.nodes| ==> ShowsTheSame(t.nodes[i], shuffled[i])
    requires multiset(t.edges) == multiset(u.edges) && multiset(t.relations) == multiset(u.relations)
    ensures Form(e, t) == Form(e, u)
  {
    LexOrders();
    forall i | 0 <= i < |t.nodes| ensures LineOfNode(t.nodes[i]) == LineOfNode(shuffled[i]) {
      SortIgnoresOrder(t.nodes[i].related, shuffled[i].related, LexLe);
      SortIgnoresOrder(t.nodes[i].refs, shuffled[i].refs, LexLe);
    }
    assert Map(t.nodes, LineOfNode) == Map(shuffled, LineOfNode);
    MapIgnoresOrder(shuffled, u.nodes, LineOfNode);
    MapIgnoresOrder(t.edges, u.edges, LineOfEdge);
    MapIgnoresOrder(t.relations, u.relations, LineOfRelation);
    assert multiset(Lines(t)) == multiset(Lines(u));
    MapIgnoresOrder(Lines(t), Lines(u), e.render);
    SortIgnoresOrder(Map(Lines(t), e.render), Map(Lines(u), e.render), LexLe);
  }

  function Ids(t: Option<Tree>): set<string> {
    if t.None? then {} else set n | n in t.value.nodes :: n.id
  }

  lemma LinesAt(t: Tree, i: nat)
    requires i < |Lines(t)|
    ensures Lines(t)[i].NodeLine? <==> i < |t.nodes|
    ensures i < |t.nodes| ==> Lines(t)[i] == LineOfNode(t.nodes[i])
  {
    var n, e := |t.nodes|, |t.edges|;
    if n <= i < n + e {
      assert Lines(t)[i] == LineOfEdge(t.edges[i - n]);
    } else if n + e <= i {
      assert Lines(t)[i] == LineOfRelation(t.relations[i - n - e]);
    } else {
      assert Lines(t)[i] == LineOfNode(t.nodes[i]);
      assert LineOfNode(t.nodes[i]).NodeLine?;
    }
  }

  lemma NodeLineOfId(t: Tree, id: string)
    ensures id in Ids(Some(t)) <==> exists l :: l in Lines(t) && l.NodeLine? && l.id == id
  {
    if n :| n in t.nodes && n.id == id {
      var i: nat :| i < |t.nodes| && t.nodes[i] == n;
      LinesAt(t, i);
      assert Lines(t)[i] in Lines(t);
    }
    if l :| l in Lines(t) && l.NodeLine? && l.id == id {
      var i: nat :| i < |Lines(t)| && Lines(t)[i] == l;
      LinesAt(t, i);
      assert t.nodes[i] in t.nodes;
    }
  }

  /** Trees of one form have the same nodes. */
  lemma SameFormSameIds(e: Encoding, t: Tree, u: Tree)
    requires Faithful(e) && Hash(e, Some(t)) == Hash(e, Some(u))
    ensures Ids(Some(t)) == Ids(Some(u))
  {
    SameHashIffSameLines(e, t, u);
    forall l ensures l in Lines(t) <==> l in Lines(u) {
      assert l in multiset(Lines(t)) <==> l in multiset(Lines(u));
    }
    forall id ensures id in Ids(Some(t)) <==> id in Ids(Some(u)) {
      NodeLineOfId(t, id);
      NodeLineOfId(u, id);
    }
  }

  // ------------------------------------------------------------------- the change set

  datatype Changes = Changes(
    version: int, created: set<string>, updated: set<string>, reparented: set<string>,
    resolved: set<string>, promoted: set<string>)

  function ById(nodes: seq<Node>): map<string, Node> {
    if nodes == [] then map[] else ById(nodes[..|nodes| - 1])[nodes[|nodes| - 1].id := nodes[|nodes| - 1]]
  }

  function NodesOf(t: Option<Tree>): seq<Node> {
    if t.None? then [] else t.value.nodes
  }

  function Changed(before: map<string, Node>, nodes: seq<Node>, version: int): Changes {
    Changes(version,
      set n | n in nodes && n.id !in before :: n.id,
      set n | n in nodes && n.id in before && Redrawn(before[n.id], n) :: n.id,
      set n | n in nodes && n.id in before && before[n.id].parentId != n.parentId :: n.id,
      set n | n in nodes && n.id in before && before[n.id].status != "resolved" && n.status == "resolved" :: n.id,
      set n | n in nodes && n.id in before && before[n.id].kind != "decision" && n.kind == "decision" :: n.id)
  }

  predicate Redrawn(a: Node, b: Node) {
    a.kind != b.kind || a.status != b.status || a.text != b.text || a.description != b.description
  }

  predicate NoChanges(c: Changes) {
    c.created == {} && c.updated == {} && c.reparented == {} && c.resolved == {} && c.promoted == {}
  }

  function Diff(previous: Option<Tree>, current: Option<Tree>, version: int): Option<Changes> {
    var changes := Changed(ById(NodesOf(previous)), NodesOf(current), version);
    if NoChanges(changes) then None else Some(changes)
  }

  method DiffTrees(previous: Option<Tree>, current: Option<Tree>, version: int) returns (changes: Option<Changes>)
    ensures changes == Diff(previous, current, version)
  {
    var before: map<string, Node> := map[];
    var former := NodesOf(previous);
    for i := 0 to |former|
      invariant before == ById(former[..i])
    {
      assert former[..i + 1][..i] == former[..i];
      before := before[former[i].id := former[i]];
    }
    assert former[..|former|] == former;
    var nodes := NodesOf(current);
    var c := Changes(version, {}, {}, {}, {}, {});
    for i := 0 to |nodes|
      invariant c == Changed(before, nodes[..i], version)
    {
      NotedExtends(before, nodes[..i], nodes[i], version);
      assert nodes[..i + 1] == nodes[..i] + [nodes[i]];
      c := Compare(before, nodes[i], c);
    }
    assert nodes[..|nodes|] == nodes;
    changes := if NoChanges(c) then None else Some(c);
  }

  method Compare(before: map<string, Node>, n: Node, c0: Changes) returns (c: Changes)
    ensures c == Noted(before, n, c0)
  {
    c := c0;
    if n.id !in before {
      c := c.(created := c.created + {n.id});
      return;
    }
    if before[n.id].parentId != n.parentId {
      c := c.(reparented := c.reparented + {n.id});
    }
    if before[n.id].status != "resolved" && n.status == "resolved" {
      c := c.(resolved := c.resolved + {n.id});
    }
    if before[n.id].kind != "decision" && n.kind == "decision" {
      c := c.(promoted := c.promoted + {n.id});
    }
    if Redrawn(before[n.id], n) {
      c := c.(updated := c.updated + {n.id});
    }
  }

  function Only(id: string, take: bool): set<string> {
    if take then {id} else {}
  }

  function Noted(before: map<string, Node>, n: Node, c: Changes): Changes {
    if n.id !in before then c.(created := c.created + {n.id})
    else
      var b := before[n.id];
      Changes(c.version, c.created,
        c.updated + Only(n.id, Redrawn(b, n)),
        c.reparented + Only(n.id, b.parentId != n.parentId),
        c.resolved + Only(n.id, b.status != "resolved" && n.status == "resolved"),
        c.promoted + Only(n.id, b.kind != "decision" && n.kind == "decision"))
  }

  lemma NotedExtends(before: map<string, Node>, nodes: seq<Node>, n: Node, version: int)
    ensures Changed(before, nodes + [n], version) == Noted(before, n, Changed(before, nodes, version))
  {}

  lemma {:induction false} ByIdKeys(nodes: seq<Node>)
    ensures ById(nodes).Keys == set n | n in nodes :: n.id
  {
    if nodes != [] {
      ByIdKeys(nodes[..|nodes| - 1]);
      assert nodes == nodes[..|nodes| - 1] + [nodes[|nodes| - 1]];
    }
  }

  function Created(changes: Option<Changes>): set<string> {
    if changes.None? then {} else changes.value.created
  }

  /** A client that applies removals and additions has exactly the current nodes. */
  lemma DiffAccountsForNodes(previous: Option<Tree>, current: Option<Tree>, version: int)
    ensures Created(Diff(previous, current, version)) == Ids(current) - Ids(previous)
    ensures Ids(current) == (Ids(previous) - (Ids(previous) - Ids(current))) + Created(Diff(previous, current, version))
  {
    ByIdKeys(NodesOf(previous));
    var changes := Changed(ById(NodesOf(previous)), NodesOf(current), version);
    assert changes.created == Ids(current) - Ids(previous);
  }

  // ------------------------------------------------------------------- the revision

  datatype Disposition = NotStamped | NoOp | CreatedTree | UpdatedTree

  function Wrap(v: int): int
    requires v <= MAX_INT64 + 1
  {
    if v == MAX_INT64 + 1 then MIN_INT64 else v
  }

  /** 64-bit increment, restarted at 1 when it is not positive; a legacy tree may jump to its analysis revision. */
  function NextVersion(previous: Option<Tree>, previousVersion: int, proposed: int): int
    requires previousVersion <= MAX_INT64
  {
    var next := if Wrap(previousVersion + 1) <= 0 then 1 else Wrap(previousVersion + 1);
    if previous.Some? && previousVersion == 0 && proposed > next then proposed else next
  }

  predicate Unchanged(e: Encoding, previous: Option<Tree>, current: Option<Tree>) {
    previous.Some? && Hash(e, previous) == Hash(e, current)
  }

  method CollectRemoved(former: seq<Node>, currentIds: set<string>, mergedIds: map<string, string>)
    returns (removed: set<string>, merged: set<string>)
    ensures removed == (set n | n in former :: n.id) - currentIds && merged == removed * mergedIds.Keys
  {
    removed, merged := {}, {};
    for i := 0 to |former|
      invariant removed == (set n | n in former[..i] :: n.id) - currentIds && merged == removed * mergedIds.Keys
    {
      assert former[..i + 1] == former[..i] + [former[i]];
      if former[i].id in currentIds {
        continue;
      }
      if former[i].id in mergedIds {
        merged := merged + {former[i].id};
      }
      removed := removed + {former[i].id};
    }
    assert former[..|former|] == former;
  }

  class LivePayload {
    var tree: Option<Tree>
    var treeVersion: int
    var treeChanges: Option<Changes>
    var disposition: Disposition
    var basedOnTreeVersion: int
    var nodeCount: nat
    var edgeCount: nat
    var removedNodeIds: set<string>
    var mergedNodeIds: set<string>
    var treeHash: string

    constructor (tree: Option<Tree>)
      ensures this.tree == tree && treeVersion == 0 && basedOnTreeVersion == 0
    {
      this.tree := tree;
      treeVersion, treeChanges, disposition, basedOnTreeVersion := 0, None, NotStamped, 0;
      nodeCount, edgeCount, removedNodeIds, mergedNodeIds, treeHash := 0, 0, {}, {}, "";
    }

    method ApplySnapshotMetadata(e: Encoding, previous: Option<Tree>, basedOn: int, mergedIds: map<string, string>)
      modifies this`basedOnTreeVersion, this`nodeCount, this`edgeCount, this`removedNodeIds, this`mergedNodeIds, this`treeHash
      ensures tree.Some? ==>
        && nodeCount == |tree.value.nodes| && edgeCount == |tree.value.edges|
        && removedNodeIds == Ids(previous) - Ids(tree)
        && mergedNodeIds == removedNodeIds * mergedIds.Keys
        && treeHash == Hash(e, tree)
        && basedOnTreeVersion == (if basedOn > 0 then basedOn else old(basedOnTreeVersion))
    {
      if tree.None? {
        return;
      }
      nodeCount, edgeCount := |tree.value.nodes|, |tree.value.edges|;
      if basedOn > 0 {
        basedOnTreeVersion := basedOn;
      }
      removedNodeIds, mergedNodeIds := CollectRemoved(NodesOf(previous), Ids(tree), mergedIds);
      assert Ids(previous) == set n | n in NodesOf(previous) :: n.id;
      treeHash := LiveTreeHash(e, tree);
    }

    /** Stamps a new snapshot against the previous one. */
    method StampRevision(e: Encoding, previous: Option<Tree>, previousVersion: int, proposed: int, mergedIds: map<string, string>)
      requires tree.Some? && previousVersion <= MAX_INT64
      modifies this
      ensures tree == old(tree)
      ensures treeVersion == if Unchanged(e, previous, tree) then previousVersion else NextVersion(previous, previousVersion, proposed)
      ensures treeChanges == if Unchanged(e, previous, tree) then None else Diff(previous, tree, treeVersion)
      ensures disposition ==
        if Unchanged(e, previous, tree) then NoOp else if previous.None? then CreatedTree else UpdatedTree
      ensures removedNodeIds == Ids(previous) - Ids(tree) && mergedNodeIds == removedNodeIds * mergedIds.Keys
      ensures treeHash == Hash(e, tree)
    {
      var previousHash := LiveTreeHash(e, previous);
      var currentHash := LiveTreeHash(e, tree);
      if previous.Some? && previousHash == currentHash {
        treeVersion, treeChanges, disposition := previousVersion, None, NoOp;
      } else {
        treeVersion := NextVersion(previous, previousVersion, proposed);
        treeChanges := DiffTrees(previous, tree, treeVersion);
        disposition := if previous.None? then CreatedTree else UpdatedTree;
      }
      ApplySnapshotMetadata(e, previous, previousVersion, mergedIds);
    }
  }

  function StampedVersion(e: Encoding, previous: Option<Tree>, previousVersion: int, current: Tree, proposed: int): int
    requires previousVersion <= MAX_INT64
  {
    if Unchanged(e, previous, Some(current)) then previousVersion else NextVersion(previous, previousVersion, proposed)
  }

  function StampedChanges(e: Encoding, previous: Option<Tree>, current: Tree, version: int): Option<Changes> {
    if Unchanged(e, previous, Some(current)) then None else Diff(previous, Some(current), version)
  }

  /** The version stays exactly when an existing tree shows the same lines as before. */
  lemma VersionStaysIffUnchanged(e: Encoding, previous: Option<Tree>, previousVersion: int, current: Tree, proposed: int)
    requires Faithful(e) && MIN_INT64 <= previousVersion <= MAX_INT64
    ensures StampedVersion(e, previous, previousVersion, current, proposed) == previousVersion <==>
      previous.Some? && multiset(Lines(previous.value)) == multiset(Lines(current))
  {
    if previous.Some? {
      SameHashIffSameLines(e, previous.value, current);
    }
  }

  /** A changed tree moves the version up, unless the version is the greatest 64-bit number. */
  lemma ChangedVersionGrowsIffBelowMax(e: Encoding, previous: Option<Tree>, previousVersion: int, current: Tree, proposed: int)
    requires MIN_INT64 <= previousVersion <= MAX_INT64 && !Unchanged(e, previous, Some(current))
    ensures StampedVersion(e, previous, previousVersion, current, proposed) > previousVersion <==> previousVersion < MAX_INT64
    ensures StampedVersion(e, previous, previousVersion, current, proposed) >= 1
  {}

  /** In every stamped snapshot, the current nodes are the previous ones without the removed, with the new. */
  lemma StampAccountsForNodes(e: Encoding, previous: Option<Tree>, current: Tree, version: int)
    requires Faithful(e)
    ensures var removed := Ids(previous) - Ids(Some(current));
      Ids(Some(current)) == (Ids(previous) - removed) + Created(StampedChanges(e, previous, current, version))
  {
    DiffAccountsForNodes(previous, Some(current), version);
    if Unchanged(e, previous, Some(current)) {
      SameFormSameIds(e, previous.value, current);
    }
  }

  // ----------------------------------------------------------------------- delivery

  /** What a completed revision broadcasts: its tree, unless the form is that of the previous payload. */
  function Broadcast(e: Encoding, previous: Option<Tree>, current: Option<Tree>): Option<Tree> {
    if current.Some? && Hash(e, current) != Hash(e, previous) then current else None
  }

  function Receive(held: Option<Tree>, message: Option<Tree>): Option<Tree> {
    if message.Some? then message else held
  }

  /** The client's tree after the first `n` completed revisions of the server's tree. */
  function ClientAfter(e: Encoding, revisions: seq<Option<Tree>>, n: nat): Option<Tree>
    requires n <= |revisions|
  {
    if n == 0 then None
    else
      Receive(ClientAfter(e, revisions, n - 1),
        Broadcast(e, if n == 1 then None else revisions[n - 2], revisions[n - 1]))
  }

  method PublishCompleted(e: Encoding, previous: Option<Tree>, current: Option<Tree>) returns (message: Option<Tree>)
    ensures message == Broadcast(e, previous, current)
  {
    var currentHash := LiveTreeHash(e, current);
    var previousHash := LiveTreeHash(e, previous);
    var treeBroadcast := current.Some? && currentHash != previousHash;
    message := current;
    if !treeBroadcast && current.Some? {
      message := None;
    }
  }

  /** Whenever the server has a tree, a client that heard every revision holds one of the same form. */
  lemma {:induction false} ClientHoldsServerForm(e: Encoding, revisions: seq<Option<Tree>>, n: nat)
    requires Faithful(e) && 1 <= n <= |revisions| && revisions[n - 1].Some?
    ensures ClientAfter(e, revisions, n).Some?
    ensures Hash(e, ClientAfter(e, revisions, n)) == Hash(e, revisions[n - 1])
  {
    if n > 1 && revisions[n - 2].Some? {
      ClientHoldsServerForm(e, revisions, n - 1);
    }
  }

  /** The message of completed revision `i`. */
  function MessageAt(e: Encoding, revisions: seq<Option<Tree>>, i: nat): Option<Tree>
    requires i < |revisions|
  {
    Broadcast(e, if i == 0 then None else revisions[i - 1], revisions[i])
  }

  function Messages(e: Encoding, revisions: seq<Option<Tree>>): seq<Option<Tree>> {
    seq(|revisions|, i requires 0 <= i < |revisions| => MessageAt(e, revisions, i))
  }

  /** The tree of a client that heard only some of the first `n` messages. */
  function HeldAfter(messages: seq<Option<Tree>>, heard: set<nat>, n: nat): Option<Tree>
    requires n <= |messages|
  {
    if n == 0 then None
    else
      var held := HeldAfter(messages, heard, n - 1);
      if n - 1 in heard then Receive(held, messages[n - 1]) else held
  }

  ghost predicate NoTreeHeard(messages: seq<Option<Tree>>, heard: set<nat>, i: nat, n: nat)
    requires n <= |messages|
  {
    forall j: nat :: i <= j < n && j in heard ==> messages[j].None?
  }

  /** The last message with a tree that the client heard among the first `n`. */
  ghost predicate LastTreeHeard(messages: seq<Option<Tree>>, heard: set<nat>, n: nat, i: nat)
    requires n <= |messages|
  {
    i < n && i in heard && messages[i].Some? && NoTreeHeard(messages, heard, i + 1, n)
  }

  lemma {:induction false} HeldWhileQuiet(messages: seq<Option<Tree>>, heard: set<nat>, k: nat, n: nat)
    requires k <= n <= |messages| && NoTreeHeard(messages, heard, k, n)
    ensures HeldAfter(messages, heard, n) == HeldAfter(messages, heard, k)
  {
    if k < n {
      HeldWhileQuiet(messages, heard, k, n - 1);
    }
  }

  lemma HeldIsLastTreeHeard(messages: seq<Option<Tree>>, heard: set<nat>, n: nat, i: nat)
    requires n <= |messages| && LastTreeHeard(messages, heard, n, i)
    ensures HeldAfter(messages, heard, n) == messages[i]
  {
    HeldWhileQuiet(messages, heard, i + 1, n);
  }

  lemma {:induction false} SomethingHeard(messages: seq<Option<Tree>>, heard: set<nat>, n: nat) returns (i: nat)
    requires n <= |messages| && HeldAfter(messages, heard, n).Some?
    ensures LastTreeHeard(messages, heard, n, i)
  {
    if n - 1 in heard && messages[n - 1].Some? {
      i := n - 1;
    } else {
      i := SomethingHeard(messages, heard, n - 1);
    }
  }

  lemma MessageIsTree(e: Encoding, revisions: seq<Option<Tree>>, i: nat)
    requires i < |revisions|
    ensures Messages(e, revisions)[i].Some? ==> Messages(e, revisions)[i] == revisions[i]
    ensures Messages(e, revisions)[i].None? && revisions[i].Some? && i > 0 ==> Hash(e, revisions[i]) == Hash(e, revisions[i - 1])
  {}

  predicate SameLines(a: Option<Tree>, b: Option<Tree>) {
    a.Some? && b.Some? && multiset(Lines(a.value)) == multiset(Lines(b.value))
  }

  /**
    A client that heard any part of the messages holds the server's form exactly
    when the last tree it heard has that form: a message it missed does harm until
    it hears a later tree, or the server returns to the form it holds.
   */
  lemma HoldsServerFormExactlyWhen(e: Encoding, revisions: seq<Option<Tree>>, heard: set<nat>, n: nat)
    requires Faithful(e) && 1 <= n <= |revisions| && revisions[n - 1].Some?
    ensures var messages := Messages(e, revisions);
      var held := HeldAfter(messages, heard, n);
      (held.Some? && Hash(e, held) == Hash(e, revisions[n - 1])) <==>
      exists i: nat :: LastTreeHeard(messages, heard, n, i) && SameLines(revisions[i], revisions[n - 1])
  {
    var messages := Messages(e, revisions);
    var held := HeldAfter(messages, heard, n);
    if held.Some? {
      var i := SomethingHeard(messages, heard, n);
      HeldIsLastTreeHeard(messages, heard, n, i);
      MessageIsTree(e, revisions, i);
      SameHashIffSameLines(e, held.value, revisions[n - 1].value);
    }
    forall i: nat | LastTreeHeard(messages, heard, n, i) ensures held == revisions[i] && revisions[i].Some? {
      HeldIsLastTreeHeard(messages, heard, n, i);
      MessageIsTree(e, revisions, i);
    }
  }

  lemma {:induction false} AllEqualSince(hashes: seq<string>, k: nat, n: nat)
    requires k < n <= |hashes| && forall j: nat :: k < j < n ==> hashes[j] == hashes[j - 1]
    ensures hashes[n - 1] == hashes[k]
  {
    if k + 1 < n {
      AllEqualSince(hashes, k, n - 1);
    }
  }

  /** After missing the last tree sent, a client is current exactly when what it held before has that tree's form. */
  lemma MissedTreeStaysStale(e: Encoding, revisions: seq<Option<Tree>>, heard: set<nat>, k: nat, n: nat)
    requires k < n <= |revisions| && k !in heard
    requires forall j: nat :: k < j < n ==> Messages(e, revisions)[j].None? && revisions[j].Some?
    ensures var messages := Messages(e, revisions);
      Hash(e, HeldAfter(messages, heard, n)) == Hash(e, revisions[n - 1]) <==>
        Hash(e, HeldAfter(messages, heard, k)) == Hash(e, revisions[k])
  {
    HeldWhileQuiet(Messages(e, revisions), heard, k, n);
    var hashes := seq(|revisions|, i requires 0 <= i < |revisions| => Hash(e, revisions[i]));
    forall j: nat | k < j < n ensures hashes[j] == hashes[j - 1] {
      MessageIsTree(e, revisions, j);
    }
    AllEqualSince(hashes, k, n);
  }
}
