/**
  Greedy deduplication of the live state (internal/application/ai_analysis.go):
  each item is folded into its best earlier match or kept, and every reference in
  the tree follows.  How alike two items are is an arbitrary judgement on the items
  as they are by then; lists kept free of repetition are sets here.
 */
module Deduplication {
  import opened Options

  const RECAP_SIMILARITY := 0.08

  /** `wording` is everything about an item but its ID and its evidence. */
  datatype Item = Item(id: string, wording: string, evidence: set<int>)

  datatype Match = Match(score: real, sibling: bool)

  /** Whether a wording is a recap, the judgements on a kept item and a new one, and the wording of the two merged. */
  datatype Oracle = Oracle(
    recap: string -> bool,
    distinct: (Item, Item) -> bool,
    similarity: (Item, Item) -> real,
    duplicate: (Item, Item) -> Option<Match>,
    merge: (Item, Item, bool) -> string)

  function Positive(evidence: set<int>): set<int> {
    set n | n in evidence && n > 0
  }

  // --------------------------------------------------------------- choosing the match

  /** What the kept item scores against a new one, if it is a candidate at all. */
  function MatchWith(o: Oracle, kept: Item, item: Item): Option<Match> {
    if o.distinct(kept, item) then None
    else if o.recap(item.wording) then
      var score := o.similarity(kept, item);
      if score >= RECAP_SIMILARITY then Some(Match(score, false)) else None
    else o.duplicate(kept, item)
  }

  datatype Choice = Choice(at: int, score: real, sibling: bool)

  const NO_MATCH := Choice(-1, 0.0, false)

  function Consider(o: Oracle, best: Choice, kept: Item, at: int, item: Item): Choice {
    var m := MatchWith(o, kept, item);
    if m.Some? && m.value.score > best.score then Choice(at, m.value.score, m.value.sibling) else best
  }

  function BestMatch(o: Oracle, kept: seq<Item>, item: Item): (c: Choice)
    ensures -1 <= c.at < |kept|
  {
    if kept == [] then NO_MATCH
    else Consider(o, BestMatch(o, kept[..|kept| - 1], item), kept[|kept| - 1], |kept| - 1, item)
  }

  method ChooseMatch(o: Oracle, kept: seq<Item>, item: Item) returns (best: Choice)
    ensures best == BestMatch(o, kept, item)
  {
    best := NO_MATCH;
    for at := 0 to |kept|
      invariant best == BestMatch(o, kept[..at], item)
    {
      assert kept[..at + 1][..at] == kept[..at];
      best := Consider(o, best, kept[at], at, item);
    }
    assert kept[..|kept|] == kept;
  }

  predicate Scores(o: Oracle, kept: Item, item: Item, score: real) {
    var m := MatchWith(o, kept, item);
    m.Some? && m.value.score == score
  }

  /** The earliest of the best candidates with a score above zero; none exactly when there is no candidate. */
  lemma {:induction false} BestMatchIsBest(o: Oracle, kept: seq<Item>, item: Item)
    ensures var best := BestMatch(o, kept, item);
      && best.score >= 0.0 && (best.at == -1 <==> best.score == 0.0)
      && (best.at >= 0 ==> Scores(o, kept[best.at], item, best.score))
      && (forall k, score :: 0 <= k < |kept| && Scores(o, kept[k], item, score) ==> score <= best.score)
      && (forall k, score :: 0 <= k < best.at && Scores(o, kept[k], item, score) ==> score < best.score)
  {
    if kept != [] {
      BestMatchIsBest(o, kept[..|kept| - 1], item);
    }
  }

  // ------------------------------------------------------------------ folding an item

  datatype State = State(kept: seq<Item>, remap: map<string, string>)

  function Absorb(o: Oracle, canonical: Item, item: Item, sibling: bool): Item {
    canonical.(evidence := canonical.evidence + Positive(item.evidence),
               wording := if o.recap(item.wording) then canonical.wording
                          else o.merge(canonical, item, sibling))
  }

  function Fold(o: Oracle, s: State, item: Item): State {
    var best := BestMatch(o, s.kept, item);
    if best.at < 0 then s.(kept := s.kept + [item])
    else State(s.kept[best.at := Absorb(o, s.kept[best.at], item, best.sibling)], s.remap[item.id := s.kept[best.at].id])
  }

  function FoldAll(o: Oracle, items: seq<Item>): State {
    if items == [] then State([], map[]) else Fold(o, FoldAll(o, items[..|items| - 1]), items[|items| - 1])
  }

  method FoldItems(o: Oracle, items: seq<Item>) returns (kept: seq<Item>, remap: map<string, string>)
    ensures State(kept, remap) == FoldAll(o, items)
  {
    kept, remap := [], map[];
    for i := 0 to |items|
      invariant State(kept, remap) == FoldAll(o, items[..i])
    {
      assert items[..i + 1][..i] == items[..i];
      var best := ChooseMatch(o, kept, items[i]);
      if best.at < 0 {
        kept := kept + [items[i]];
        continue;
      }
      remap := remap[items[i].id := kept[best.at].id];
      kept := kept[best.at := Absorb(o, kept[best.at], items[i], best.sibling)];
    }
    assert items[..|items|] == items;
  }

  // ---------------------------------------------------------------- what folding keeps

  ghost predicate UniqueIds(items: seq<Item>) {
    forall i, j :: 0 <= i < j < |items| ==> items[i].id != items[j].id
  }

  function Ids(items: seq<Item>): seq<string> {
    seq(|items|, i requires 0 <= i < |items| => items[i].id)
  }

  /** The IDs of the items that were not dropped, in their original order. */
  function Survivors(items: seq<Item>, remap: map<string, string>): seq<string> {
    if items == [] then []
    else Survivors(items[..|items| - 1], remap) + if items[|items| - 1].id in remap then [] else [items[|items| - 1].id]
  }

  function Home(remap: map<string, string>, id: string): string {
    if id in remap then remap[id] else id
  }

  /** All positive evidence of the items that ended up under `id`. */
  function Gathered(items: seq<Item>, remap: map<string, string>, id: string): set<int> {
    set item, n | item in items && Home(remap, item.id) == id && n in Positive(item.evidence) :: n
  }

  lemma {:induction false} SurvivorsUnchanged(items: seq<Item>, remap: map<string, string>, key: string, value: string)
    requires forall item :: item in items ==> item.id != key
    ensures Survivors(items, remap[key := value]) == Survivors(items, remap)
  {
    if items != [] {
      SurvivorsUnchanged(items[..|items| - 1], remap, key, value);
    }
  }

  lemma {:induction false} SurvivorsAre(items: seq<Item>, remap: map<string, string>, id: string)
    ensures id in Survivors(items, remap) <==> (exists item :: item in items && item.id == id) && id !in remap
  {
    if items != [] {
      SurvivorsAre(items[..|items| - 1], remap, id);
      assert items == items[..|items| - 1] + [items[|items| - 1]];
    }
  }

  /** Survivors keep their order; dropped IDs map to survivors, without chains. */
  ghost predicate IdsOk(items: seq<Item>, s: State) {
    && Ids(s.kept) == Survivors(items, s.remap)
    && (forall id :: id in s.remap ==> exists item :: item in items && item.id == id)
    && (forall id :: id in s.remap ==> s.remap[id] in Ids(s.kept) && s.remap[id] !in s.remap)
  }

  ghost predicate NewId(items: seq<Item>, id: string) {
    forall other :: other in items ==> other.id != id
  }

  lemma UniqueSplit(front: seq<Item>, item: Item)
    requires UniqueIds(front + [item])
    ensures UniqueIds(front) && NewId(front, item.id)
  {
    var items := front + [item];
    forall i, j | 0 <= i < j < |front| ensures front[i].id != front[j].id {
      assert items[i] == front[i] && items[j] == front[j];
    }
    forall other | other in front ensures other.id != item.id {
      var i :| 0 <= i < |front| && front[i] == other;
      assert items[i] == other && items[|front|] == item;
    }
  }

  lemma KeepingIsOk(front: seq<Item>, item: Item, s: State)
    requires IdsOk(front, s) && NewId(front, item.id)
    ensures IdsOk(front + [item], s.(kept := s.kept + [item]))
  {
    assert (front + [item])[..|front|] == front;
    assert item.id !in s.remap;
    assert Ids(s.kept + [item]) == Ids(s.kept) + [item.id];
    forall id | id in s.remap ensures s.remap[id] in Ids(s.kept + [item]) {
      assert s.remap[id] in Ids(s.kept);
    }
  }

  lemma FoldingIsOk(front: seq<Item>, item: Item, s: State, at: nat, merged: Item)
    requires IdsOk(front, s) && NewId(front, item.id) && at < |s.kept| && merged.id == s.kept[at].id
    ensures IdsOk(front + [item], State(s.kept[at := merged], s.remap[item.id := merged.id]))
  {
    var t := State(s.kept[at := merged], s.remap[item.id := merged.id]);
    assert (front + [item])[..|front|] == front;
    assert item.id !in s.remap;
    SurvivorsUnchanged(front, s.remap, item.id, merged.id);
    assert Ids(t.kept) == Ids(s.kept);
    assert Ids(s.kept)[at] == merged.id;
    SurvivorsAre(front, s.remap, merged.id);
    forall id | id in t.remap ensures exists other :: other in front + [item] && other.id == id {
      if id != item.id {
        var other :| other in front && other.id == id;
        assert other in front + [item];
      } else {
        assert item in front + [item];
      }
    }
    forall id | id in s.remap ensures s.remap[id] != item.id {
      SurvivorsAre(front, s.remap, s.remap[id]);
    }
  }

  lemma {:induction false} FoldKeepsIds(o: Oracle, items: seq<Item>)
    requires UniqueIds(items)
    ensures IdsOk(items, FoldAll(o, items))
  {
    if items != [] {
      var front, item := items[..|items| - 1], items[|items| - 1];
      assert items == front + [item];
      UniqueSplit(front, item);
      FoldKeepsIds(o, front);
      var s := FoldAll(o, front);
      var best := BestMatch(o, s.kept, item);
      if best.at >= 0 {
        FoldingIsOk(front, item, s, best.at, Absorb(o, s.kept[best.at], item, best.sibling));
      } else {
        KeepingIsOk(front, item, s);
      }
    }
  }

  lemma GatheredStep(items: seq<Item>, item: Item, remap: map<string, string>, more: map<string, string>, id: string)
    requires NewId(items, item.id) && (more == remap || (item.id in more && more == remap[item.id := more[item.id]]))
    ensures Gathered(items + [item], more, id) ==
      Gathered(items, remap, id) + if Home(more, item.id) == id then Positive(item.evidence) else {}
  {
    assert forall other :: other in items ==> Home(more, other.id) == Home(remap, other.id);
  }

  lemma PositiveUnion(a: set<int>, b: set<int>)
    ensures Positive(a + Positive(b)) == Positive(a) + Positive(b)
  {}

  lemma EvidenceStep(o: Oracle, front: seq<Item>, item: Item, k: nat)
    requires UniqueIds(front + [item]) && k < |FoldAll(o, front).kept|
    requires Positive(FoldAll(o, front).kept[k].evidence) == Gathered(front, FoldAll(o, front).remap, FoldAll(o, front).kept[k].id)
    ensures var t := Fold(o, FoldAll(o, front), item);
      Positive(t.kept[k].evidence) == Gathered(front + [item], t.remap, t.kept[k].id)
  {
    var s := FoldAll(o, front);
    var t := Fold(o, s, item);
    UniqueSplit(front, item);
    FoldKeepsIds(o, front);
    assert item.id !in s.remap;
    KeptIdsDiffer(o, front, item, k);
    GatheredStep(front, item, s.remap, t.remap, t.kept[k].id);
    PositiveUnion(s.kept[k].evidence, item.evidence);
  }

  /** Each survivor's positive evidence is exactly that of the items folded into it, its own included. */
  lemma {:induction false} EvidenceIsConserved(o: Oracle, items: seq<Item>, k: nat)
    requires UniqueIds(items) && k < |FoldAll(o, items).kept|
    ensures var s := FoldAll(o, items); Positive(s.kept[k].evidence) == Gathered(items, s.remap, s.kept[k].id)
  {
    var front, item := items[..|items| - 1], items[|items| - 1];
    assert items == front + [item];
    UniqueSplit(front, item);
    var s, t := FoldAll(o, front), FoldAll(o, items);
    if k < |s.kept| {
      EvidenceIsConserved(o, front, k);
      EvidenceStep(o, front, item, k);
    } else {
      FoldKeepsIds(o, front);
      assert item.id !in s.remap;
      GatheredStep(front, item, s.remap, t.remap, item.id);
      NothingGatheredYet(o, front, item.id);
    }
  }

  lemma KeptIdsDiffer(o: Oracle, front: seq<Item>, item: Item, k: nat)
    requires UniqueIds(front + [item]) && k < |FoldAll(o, front).kept|
    ensures var s := FoldAll(o, front);
      && s.kept[k].id != item.id
      && forall j :: 0 <= j < |s.kept| && j != k ==> s.kept[j].id != s.kept[k].id
  {
    var s := FoldAll(o, front);
    UniqueSplit(front, item);
    FoldKeepsIds(o, front);
    assert Ids(s.kept)[k] == s.kept[k].id;
    SurvivorsAre(front, s.remap, s.kept[k].id);
    SurvivorsUnique(front, s.remap);
    forall j | 0 <= j < |s.kept| && j != k ensures s.kept[j].id != s.kept[k].id {
      assert Ids(s.kept)[j] == s.kept[j].id;
    }
  }

  lemma {:induction false} SurvivorsUnique(items: seq<Item>, remap: map<string, string>)
    requires UniqueIds(items)
    ensures forall i, j :: 0 <= i < j < |Survivors(items, remap)| ==> Survivors(items, remap)[i] != Survivors(items, remap)[j]
  {
    if items != [] {
      var front, last := items[..|items| - 1], items[|items| - 1];
      SurvivorsUnique(front, remap);
      SurvivorsAre(front, remap, last.id);
    }
  }

  lemma NothingGatheredYet(o: Oracle, front: seq<Item>, id: string)
    requires UniqueIds(front) && NewId(front, id)
    ensures Gathered(front, FoldAll(o, front).remap, id) == {}
  {
    var s := FoldAll(o, front);
    FoldKeepsIds(o, front);
    forall other | other in front ensures Home(s.remap, other.id) != id {
      if other.id in s.remap {
        SurvivorsAre(front, s.remap, s.remap[other.id]);
      }
    }
  }

  // ------------------------------------------------------------- the tree that refers

  datatype Node = Node(id: string, parentId: string, related: set<string>)

  datatype Tree = Tree(nodes: seq<Node>, edges: seq<(string, string)>, relations: seq<(string, string)>)

  /** An empty target is no target. */
  function Follow(remap: map<string, string>, id: string): string {
    if id in remap && remap[id] != "" then remap[id] else id
  }

  function FollowAll(remap: map<string, string>, ids: set<string>): set<string> {
    set id | id in ids && Follow(remap, id) != "" :: Follow(remap, id)
  }

  function FollowPair(remap: map<string, string>, p: (string, string)): (string, string) {
    (Follow(remap, p.0), Follow(remap, p.1))
  }

  function RemapNodes(nodes: seq<Node>, remap: map<string, string>): seq<Node> {
    if nodes == [] then []
    else
      var n := nodes[|nodes| - 1];
      RemapNodes(nodes[..|nodes| - 1], remap) +
        if n.id in remap then [] else [Node(n.id, Follow(remap, n.parentId), FollowAll(remap, n.related))]
  }

  function RemapEdges(edges: seq<(string, string)>, remap: map<string, string>): seq<(string, string)> {
    if edges == [] then []
    else
      var done, e := RemapEdges(edges[..|edges| - 1], remap), FollowPair(remap, edges[|edges| - 1]);
      if e.0 == e.1 || e in done then done else done + [e]
  }

  function RemapRelations(relations: seq<(string, string)>, remap: map<string, string>): seq<(string, string)> {
    seq(|relations|, i requires 0 <= i < |relations| => FollowPair(remap, relations[i]))
  }

  function RemapTree(t: Tree, remap: map<string, string>): Tree {
    if remap == map[] then t
    else Tree(RemapNodes(t.nodes, remap), RemapEdges(t.edges, remap), RemapRelations(t.relations, remap))
  }

  class LiveState {
    var items: seq<Item>
    var nodes: seq<Node>
    var edges: seq<(string, string)>
    var relations: seq<(string, string)>
    var candidateEvidence: seq<set<string>>     // item IDs each emerging topic rests on

    ghost function TreeNow(): Tree
      reads this
    {
      Tree(nodes, edges, relations)
    }

    constructor (items: seq<Item>, t: Tree, candidateEvidence: seq<set<string>>)
      ensures this.items == items && TreeNow() == t && this.candidateEvidence == candidateEvidence
    {
      this.items, nodes, edges, relations := items, t.nodes, t.edges, t.relations;
      this.candidateEvidence := candidateEvidence;
    }

    method RemapTreeNodes(remap: map<string, string>)
      modifies this`nodes
      ensures nodes == RemapNodes(old(nodes), remap)
    {
      var kept: seq<Node> := [];
      for i := 0 to |nodes|
        invariant nodes == old(nodes) && kept == RemapNodes(nodes[..i], remap)
      {
        assert nodes[..i + 1][..i] == nodes[..i];
        if nodes[i].id in remap {
          continue;
        }
        kept := kept + [Node(nodes[i].id, Follow(remap, nodes[i].parentId), FollowAll(remap, nodes[i].related))];
      }
      assert nodes[..|nodes|] == nodes;
      nodes := kept;
    }

    method RemapTreeEdges(remap: map<string, string>)
      modifies this`edges
      ensures edges == RemapEdges(old(edges), remap)
    {
      var kept: seq<(string, string)> := [];
      var seen: set<(string, string)> := {};
      for i := 0 to |edges|
        invariant edges == old(edges) && kept == RemapEdges(edges[..i], remap)
        invariant forall e :: e in seen <==> e in kept
      {
        assert edges[..i + 1][..i] == edges[..i];
        var e := FollowPair(remap, edges[i]);
        if e.0 == e.1 || e in seen {
          continue;
        }
        seen := seen + {e};
        kept := kept + [e];
      }
      assert edges[..|edges|] == edges;
      edges := kept;
    }

    method RemapReferences(remap: map<string, string>)
      modifies this`nodes, this`edges, this`relations
      ensures TreeNow() == RemapTree(old(TreeNow()), remap)
    {
      if remap == map[] {
        return;
      }
      RemapTreeNodes(remap);
      RemapTreeEdges(remap);
      for i := 0 to |relations|
        invariant |relations| == |old(relations)|
        invariant nodes == RemapNodes(old(nodes), remap) && edges == RemapEdges(old(edges), remap)
        invariant forall k :: 0 <= k < i ==> relations[k] == FollowPair(remap, old(relations)[k])
        invariant forall k :: i <= k < |relations| ==> relations[k] == old(relations)[k]
      {
        relations := relations[i := FollowPair(remap, relations[i])];
      }
    }

    method RemapCandidates(remap: map<string, string>)
      modifies this`candidateEvidence
      ensures |candidateEvidence| == |old(candidateEvidence)|
      ensures forall k :: 0 <= k < |candidateEvidence| ==> candidateEvidence[k] == FollowAll(remap, old(candidateEvidence)[k])
    {
      for i := 0 to |candidateEvidence|
        invariant |candidateEvidence| == |old(candidateEvidence)|
        invariant forall k :: 0 <= k < i ==> candidateEvidence[k] == FollowAll(remap, old(candidateEvidence)[k])
        invariant forall k :: i <= k < |candidateEvidence| ==> candidateEvidence[k] == old(candidateEvidence)[k]
      {
        candidateEvidence := candidateEvidence[i := FollowAll(remap, candidateEvidence[i])];
      }
    }

    /** Nothing is touched unless some item is dropped. */
    method DeduplicateExisting(o: Oracle) returns (remap: map<string, string>)
      modifies this
      ensures remap == if |old(items)| < 2 then map[] else FoldAll(o, old(items)).remap
      ensures remap == map[] ==> items == old(items) && candidateEvidence == old(candidateEvidence)
      ensures remap != map[] ==> items == FoldAll(o, old(items)).kept
      ensures TreeNow() == RemapTree(old(TreeNow()), remap)
      ensures |candidateEvidence| == |old(candidateEvidence)|
      ensures remap != map[] ==>
        forall k :: 0 <= k < |candidateEvidence| ==> candidateEvidence[k] == FollowAll(remap, old(candidateEvidence)[k])
    {
      if |items| < 2 {
        return map[];
      }
      var kept;
      kept, remap := FoldItems(o, items);
      if |remap| == 0 {
        assert remap == map[];
        return;
      }
      items := kept;
      RemapReferences(remap);
      RemapCandidates(remap);
    }
  }

  // ------------------------------------------------------------ no reference is left over

  /** Targets are real and are not dropped themselves. */
  ghost predicate NoChains(remap: map<string, string>) {
    forall id :: id in remap ==> remap[id] != "" && remap[id] !in remap
  }

  lemma FoldHasNoChains(o: Oracle, items: seq<Item>)
    requires UniqueIds(items) && forall item :: item in items ==> item.id != ""
    ensures NoChains(FoldAll(o, items).remap)
  {
    var s := FoldAll(o, items);
    FoldKeepsIds(o, items);
    forall id | id in s.remap ensures s.remap[id] != "" {
      SurvivorsAre(items, s.remap, s.remap[id]);
    }
  }

  lemma {:induction false} RemappedNodes(nodes: seq<Node>, remap: map<string, string>, m: Node)
    ensures m in RemapNodes(nodes, remap) <==>
      exists n :: n in nodes && n.id !in remap && m == Node(n.id, Follow(remap, n.parentId), FollowAll(remap, n.related))
  {
    if nodes != [] {
      RemappedNodes(nodes[..|nodes| - 1], remap, m);
      assert nodes == nodes[..|nodes| - 1] + [nodes[|nodes| - 1]];
    }
  }

  /** The edges are the followed ones without self-loops, each once, in order of first appearance. */
  lemma {:induction false} RemappedEdges(edges: seq<(string, string)>, remap: map<string, string>)
    ensures var r := RemapEdges(edges, remap);
      && (forall e :: e in r <==> e.0 != e.1 && exists f :: f in edges && e == FollowPair(remap, f))
      && (forall i, j :: 0 <= i < j < |r| ==> r[i] != r[j])
  {
    if edges != [] {
      RemappedEdges(edges[..|edges| - 1], remap);
      assert edges == edges[..|edges| - 1] + [edges[|edges| - 1]];
    }
  }

  lemma FollowedIsLive(remap: map<string, string>, id: string)
    requires NoChains(remap)
    ensures Follow(remap, id) !in remap
  {}

  /** Nothing in the tree names a dropped item, and edges are simple. */
  ghost predicate NamesNoDropped(u: Tree, remap: map<string, string>) {
    && (forall m :: m in u.nodes ==> m.id !in remap && m.parentId !in remap && m.related !! remap.Keys)
    && (forall e :: e in u.edges ==> e.0 !in remap && e.1 !in remap && e.0 != e.1)
    && (forall i, j :: 0 <= i < j < |u.edges| ==> u.edges[i] != u.edges[j])
    && (forall r :: r in u.relations ==> r.0 !in remap && r.1 !in remap)
  }

  /** After the remap nothing in the tree names a dropped item, and edges are simple. */
  lemma NoReferenceToDropped(t: Tree, remap: map<string, string>)
    requires NoChains(remap) && remap != map[]
    ensures NamesNoDropped(RemapTree(t, remap), remap)
  {
    var u := RemapTree(t, remap);
    forall m | m in u.nodes ensures m.id !in remap && m.parentId !in remap && m.related !! remap.Keys {
      RemappedNodes(t.nodes, remap, m);
      var n :| n in t.nodes && n.id !in remap && m == Node(n.id, Follow(remap, n.parentId), FollowAll(remap, n.related));
      FollowedIsLive(remap, n.parentId);
      NoDroppedIn(remap, n.related);
    }
    RemappedEdges(t.edges, remap);
    forall r | r in u.relations ensures r.0 !in remap && r.1 !in remap {
      var i :| 0 <= i < |u.relations| && u.relations[i] == r;
      FollowedIsLive(remap, t.relations[i].0);
      FollowedIsLive(remap, t.relations[i].1);
    }
  }

  /** Nor does a list of item IDs, such as a candidate's evidence. */
  lemma NoDroppedIn(remap: map<string, string>, ids: set<string>)
    requires NoChains(remap)
    ensures FollowAll(remap, ids) !! remap.Keys && "" !in FollowAll(remap, ids)
  {}

  /** A survivor becomes its own parent exactly when it hung from an item folded into it. */
  lemma OwnParentExactlyWhen(t: Tree, remap: map<string, string>, n: Node)
    requires NoChains(remap) && n in t.nodes && n.id !in remap && n.parentId != n.id
    ensures Follow(remap, n.parentId) == n.id <==> n.parentId in remap && remap[n.parentId] == n.id
  {}

  /**
    The whole pass, for any judgement of likeness: who survives, where the dropped
    items went, whose evidence a survivor has, and that neither the tree nor any
    candidate's evidence names a dropped item.
   */
  lemma DeduplicationIsSound(o: Oracle, items: seq<Item>, t: Tree, candidateEvidence: seq<set<string>>)
    requires UniqueIds(items) && forall item :: item in items ==> item.id != ""
    ensures var s := FoldAll(o, items);
      && Ids(s.kept) == Survivors(items, s.remap)
      && (forall id :: id in s.remap <==> (exists item :: item in items && item.id == id) && id !in Ids(s.kept))
      && (forall id :: id in s.remap ==> s.remap[id] in Ids(s.kept))
      && (forall k :: 0 <= k < |s.kept| ==> Positive(s.kept[k].evidence) == Gathered(items, s.remap, s.kept[k].id))
      && (s.remap != map[] ==> NamesNoDropped(RemapTree(t, s.remap), s.remap))
      && (forall k :: 0 <= k < |candidateEvidence| ==>
            FollowAll(s.remap, candidateEvidence[k]) !! s.remap.Keys && "" !in FollowAll(s.remap, candidateEvidence[k]))
  {
    var s := FoldAll(o, items);
    FoldKeepsIds(o, items);
    FoldHasNoChains(o, items);
    forall id ensures id in s.remap <==> (exists item :: item in items && item.id == id) && id !in Ids(s.kept) {
      SurvivorsAre(items, s.remap, id);
    }
    forall k: nat | k < |s.kept| ensures Positive(s.kept[k].evidence) == Gathered(items, s.remap, s.kept[k].id) {
      EvidenceIsConserved(o, items, k);
    }
    if s.remap != map[] {
      NoReferenceToDropped(t, s.remap);
    }
    forall k | 0 <= k < |candidateEvidence|
      ensures FollowAll(s.remap, candidateEvidence[k]) !! s.remap.Keys && "" !in FollowAll(s.remap, candidateEvidence[k])
    {
      NoDroppedIn(s.remap, candidateEvidence[k]);
    }
  }
}
