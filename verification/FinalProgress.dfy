/**
  The final recompute of agenda progress (internal/application/ai_agenda_progress.go):
  at meeting end every derived value of every entry is replaced from the final tree.

  Evidence numbers are kept as sets: the program keeps them sorted, positive and
  without repetition.  Which items belong to an entry depends on the tree and on
  the entry's identity and links only; that dependence is the function `related`.
 */
module FinalProgress {
  import opened Basics
  import opened Sorting

  const CANDIDATE_PREFIX := "candidate-"

  datatype Status = NotStarted | Discussing | Discussed

  datatype Source = NoSupport | ActiveItems | TranscriptEvidence

  datatype LinkState = NotLinkable | MaterializedTopic | VisibleItems

  datatype Links = Links(
    candidateId: string, topicIds: seq<string>, materialized: string,
    primary: string, focus: seq<string>, state: LinkState)

  datatype Derived = Derived(
    status: Status, source: Source, activeIds: seq<string>, inactiveIds: seq<string>,
    evidence: set<int>, coverage: real, activeRounds: nat, progressAt: int,
    weightRaw: real, weight: real, outcome: string)

  datatype Entry = Entry(
    id: string, fixed: bool, title: string, order: int, expectation: string, links: Links, derived: Derived)

  datatype Agenda = Agenda(id: string, title: string, order: int)

  datatype Node = Node(id: string, dynamicTopic: bool, candidateId: string)

  /** A canonical item with its substantive evidence and assignment confidence. */
  datatype Item = Item(id: string, active: bool, evidence: set<int>, confidence: real)

  datatype Match = Match(sequenceNo: int, score: real)

  /** Everything the recompute reads besides the entries. */
  datatype Context = Context(
    agendas: seq<Agenda>,
    anchors: map<string, seq<string>>,
    nodes: seq<Node>,
    transcript: map<string, seq<Match>>,
    related: (string, bool, Links) -> seq<Item>,
    inactive: (string, bool, Links) -> seq<string>,
    classify: string -> string,
    outcome: (Entry, bool, seq<Item>) -> string,
    version: int)

  const NO_LINKS := Links("", [], "", "", [], NotLinkable)
  const NO_DERIVED := Derived(NotStarted, NoSupport, [], [], {}, 0.0, 0, 0, 0.0, 0.0, "")

  // ---------------------------------------------------------------- node references

  function Existing(nodes: seq<Node>): set<string> {
    set n | n in nodes :: n.id
  }

  function TopicByCandidate(nodes: seq<Node>): map<string, string> {
    if nodes == [] then map[]
    else
      var last, rest := nodes[|nodes| - 1], TopicByCandidate(nodes[..|nodes| - 1]);
      if last.dynamicTopic && last.candidateId != "" then rest[last.candidateId := last.id] else rest
  }

  function KeepIn(ids: seq<string>, existing: set<string>): seq<string> {
    if ids == [] then []
    else KeepIn(ids[..|ids| - 1], existing) + if ids[|ids| - 1] in existing then [ids[|ids| - 1]] else []
  }

  function CandidateOf(e: Entry): string {
    if e.links.candidateId == "" && !e.fixed && HasPrefix(e.id, CANDIDATE_PREFIX) then e.id else e.links.candidateId
  }

  function RefreshLinks(e: Entry, existing: set<string>, topics: map<string, string>): Links {
    var candidate := CandidateOf(e);
    var topicIds := if candidate in topics && topics[candidate] != "" then [topics[candidate]] else e.links.topicIds;
    var kept := KeepIn(topicIds, existing);
    var focus := KeepIn(e.links.focus, existing);
    var materialized := if kept != [] then kept[0] else "";
    if materialized != "" then Links(candidate, kept, materialized, materialized, [materialized], MaterializedTopic)
    else if focus != [] then Links(candidate, kept, "", focus[0], focus, VisibleItems)
    else Links(candidate, kept, "", "", [], NotLinkable)
  }

  function Refresh(e: Entry, nodes: seq<Node>): Entry {
    e.(links := RefreshLinks(e, Existing(nodes), TopicByCandidate(nodes)))
  }

  lemma {:induction false} KeepInFacts(ids: seq<string>, existing: set<string>)
    ensures forall id :: id in KeepIn(ids, existing) ==> id in existing
    ensures (forall id :: id in ids ==> id in existing) ==> KeepIn(ids, existing) == ids
  {
    if ids != [] {
      KeepInFacts(ids[..|ids| - 1], existing);
      assert ids == ids[..|ids| - 1] + [ids[|ids| - 1]];
    }
  }

  lemma {:induction false} TopicsExist(nodes: seq<Node>)
    ensures forall c :: c in TopicByCandidate(nodes) ==> TopicByCandidate(nodes)[c] in Existing(nodes)
  {
    if nodes != [] {
      TopicsExist(nodes[..|nodes| - 1]);
      assert nodes == nodes[..|nodes| - 1] + [nodes[|nodes| - 1]];
    }
  }

  lemma KeptTopicAlone(id: string, existing: set<string>)
    requires id in existing
    ensures KeepIn([id], existing) == [id]
  {
    KeepInFacts([id], existing);
  }

  lemma RefreshedLinksExist(e: Entry, existing: set<string>, topics: map<string, string>)
    ensures var links := RefreshLinks(e, existing, topics);
      && (forall id :: id in links.topicIds ==> id in existing)
      && (forall id :: id in links.focus ==> id in existing)
      && (links.primary != "" ==> links.primary in existing)
  {
    var candidate := CandidateOf(e);
    var topicIds := if candidate in topics && topics[candidate] != "" then [topics[candidate]] else e.links.topicIds;
    KeepInFacts(topicIds, existing);
    KeepInFacts(e.links.focus, existing);
  }

  lemma LinksRefreshInPlace(e: Entry, existing: set<string>, topics: map<string, string>)
    requires forall c :: c in topics ==> topics[c] in existing
    ensures var f := e.(links := RefreshLinks(e, existing, topics)); RefreshLinks(f, existing, topics) == f.links
  {
    RefreshedLinksExist(e, existing, topics);
    var links := RefreshLinks(e, existing, topics);
    assert CandidateOf(e.(links := links)) == links.candidateId;
    if links.candidateId in topics {
      KeptTopicAlone(topics[links.candidateId], existing);
    }
    KeepInFacts(links.topicIds, existing);
    KeepInFacts(links.focus, existing);
  }

  /** Refreshing the references twice changes nothing more, and every reference left names a node. */
  lemma RefreshIsIdempotent(e: Entry, nodes: seq<Node>)
    ensures Refresh(Refresh(e, nodes), nodes) == Refresh(e, nodes)
    ensures var links := Refresh(e, nodes).links;
      && (forall id :: id in links.topicIds + links.focus ==> id in Existing(nodes))
      && (links.primary != "" ==> links.primary in Existing(nodes))
  {
    TopicsExist(nodes);
    RefreshedLinksExist(e, Existing(nodes), TopicByCandidate(nodes));
    LinksRefreshInPlace(e, Existing(nodes), TopicByCandidate(nodes));
  }

  // ----------------------------------------------------------------- fixed agendas

  function FixedIds(agendas: seq<Agenda>): set<string> {
    set a | a in agendas :: a.id
  }

  function AdoptAgenda(e: Entry, a: Agenda, classify: string -> string): Entry {
    if a.id != e.id then e
    else e.(title := a.title, order := a.order, fixed := true,
            expectation := if e.expectation == "" then classify(a.title) else e.expectation)
  }

  function Adopt(e: Entry, agendas: seq<Agenda>, classify: string -> string): Entry {
    if agendas == [] then e
    else AdoptAgenda(Adopt(e, agendas[..|agendas| - 1], classify), agendas[|agendas| - 1], classify)
  }

  function NewEntry(a: Agenda, classify: string -> string): Entry {
    Entry(a.id, true, a.title, a.order, classify(a.title), NO_LINKS, NO_DERIVED)
  }

  function Missing(agendas: seq<Agenda>, known: set<string>, classify: string -> string): seq<Entry> {
    if agendas == [] then []
    else
      Missing(agendas[..|agendas| - 1], known, classify) +
        if agendas[|agendas| - 1].id in known then [] else [NewEntry(agendas[|agendas| - 1], classify)]
  }

  function Anchor(e: Entry, c: Context): Entry {
    if e.id !in FixedIds(c.agendas) then e
    else
      var topicIds := if e.id in c.anchors then c.anchors[e.id] else [];
      if topicIds != [] then
        e.(links := Links(e.links.candidateId, topicIds, topicIds[0], topicIds[0], [topicIds[0]], MaterializedTopic))
      else e.(links := Links(e.links.candidateId, [], "", "", [], NotLinkable))
  }

  // ------------------------------------------------------------- the derived values

  function ActiveOf(items: seq<Item>): seq<Item> {
    if items == [] then []
    else ActiveOf(items[..|items| - 1]) + if items[|items| - 1].active then [items[|items| - 1]] else []
  }

  function EvidenceOf(items: seq<Item>): set<int> {
    set item, n | item in items && n in item.evidence && n > 0 :: n
  }

  function Confidence(items: seq<Item>): real {
    if items == [] then 0.0
    else
      var score := items[|items| - 1].confidence;
      Confidence(items[..|items| - 1]) + if score <= 0.0 || score > 1.0 then 1.0 else score
  }

  function Score(matches: seq<Match>): real {
    if matches == [] then 0.0 else Score(matches[..|matches| - 1]) + matches[|matches| - 1].score
  }

  function Ids(items: seq<Item>): seq<string> {
    seq(|items|, i requires 0 <= i < |items| => items[i].id)
  }

  function Least(a: nat, b: nat): nat {
    if a < b then a else b
  }

  function Raw(evidence: set<int>, items: nat): real {
    var raw := |evidence| as real + 0.5 * Least(items, 2) as real;
    if raw == 0.0 then 0.5 else raw
  }

  /** An entry's derived values, its weight and outcome still open. */
  function Derive(e: Entry, c: Context): Entry {
    var active := ActiveOf(c.related(e.id, e.fixed, e.links));
    var activeIds := Sort(Ids(active), LexLe);
    var blank := NO_DERIVED.(activeIds := activeIds, inactiveIds := Sort(c.inactive(e.id, e.fixed, e.links), LexLe));
    var matches := if e.id in c.transcript then c.transcript[e.id] else [];
    e.(derived :=
      if active != [] then
        var evidence := EvidenceOf(active);
        blank.(status := Discussed, source := ActiveItems, evidence := evidence,
               coverage := Confidence(active) / |active| as real, activeRounds := if |evidence| < 2 then 1 else 2,
               progressAt := c.version, weightRaw := Raw(evidence, |active|))
      else if e.fixed && |matches| >= 2 then
        var evidence := set m | m in matches && m.sequenceNo > 0 :: m.sequenceNo;
        blank.(status := Discussed, source := TranscriptEvidence, evidence := evidence,
               coverage := Score(matches) / |matches| as real, activeRounds := if |evidence| < 2 then 1 else 2,
               progressAt := c.version, weightRaw := Raw(evidence, 0))
      else blank)
  }

  function MaxRaw(entries: seq<Entry>): real {
    if entries == [] then 0.0
    else
      var rest, last := MaxRaw(entries[..|entries| - 1]), entries[|entries| - 1].derived.weightRaw;
      if last > rest then last else rest
  }

  function Weigh(e: Entry, top: real, c: Context): Entry {
    var weighed := if e.derived.status == Discussed && top > 0.0
                   then e.(derived := e.derived.(weight := e.derived.weightRaw / top)) else e;
    if e.derived.status != Discussed then weighed
    else
      var fixed := e.id in FixedIds(c.agendas);
      weighed.(derived := weighed.derived.(outcome := c.outcome(e, fixed, ActiveOf(c.related(e.id, e.fixed, e.links)))))
  }

  /** Fixed agendas first and in their order; then by ID. */
  predicate Before(a: Entry, b: Entry) {
    if a.fixed != b.fixed then a.fixed
    else if a.fixed && a.order != b.order then a.order < b.order
    else LexLe(a.id, b.id)
  }

  // ------------------------------------------------------------------ the recompute

  function EntryIds(entries: seq<Entry>): set<string> {
    set e | e in entries :: e.id
  }

  /** An entry as it stands before the weights are known. */
  function Settle(e: Entry, c: Context): Entry {
    Derive(Anchor(Adopt(Refresh(e, c.nodes), c.agendas, c.classify), c), c)
  }

  function SettleNew(e: Entry, c: Context): Entry {
    Derive(Anchor(e, c), c)
  }

  function MapSettle(entries: seq<Entry>, c: Context): seq<Entry> {
    Map(entries, e => Settle(e, c))
  }

  function MapSettleNew(entries: seq<Entry>, c: Context): seq<Entry> {
    Map(entries, e => SettleNew(e, c))
  }

  function MapWeigh(entries: seq<Entry>, top: real, c: Context): seq<Entry> {
    Map(entries, e => Weigh(e, top, c))
  }

  function SettledAll(entries: seq<Entry>, c: Context): seq<Entry> {
    MapSettle(entries, c) + MapSettleNew(Missing(c.agendas, EntryIds(entries), c.classify), c)
  }

  function Recomputed(entries: seq<Entry>, c: Context): seq<Entry> {
    var settled := SettledAll(entries, c);
    Sort(MapWeigh(settled, MaxRaw(settled), c), Before)
  }

  class Progress {
    var entries: seq<Entry>
    var computedCurrentTopicId: string
    var candidateTopicId: string
    var candidateRounds: nat
    var currentInactiveRounds: nat
    var updatedAtVersion: int

    constructor (entries: seq<Entry>)
      ensures this.entries == entries
    {
      this.entries := entries;
      computedCurrentTopicId, candidateTopicId, candidateRounds, currentInactiveRounds := "", "", 0, 0;
      updatedAtVersion := 0;
    }

    method RefreshRefs(nodes: seq<Node>)
      modifies this`entries
      ensures |entries| == |old(entries)|
      ensures forall i :: 0 <= i < |entries| ==> entries[i] == Refresh(old(entries)[i], nodes)
    {
      for i := 0 to |entries|
        invariant |entries| == |old(entries)|
        invariant forall k :: 0 <= k < i ==> entries[k] == Refresh(old(entries)[k], nodes)
        invariant forall k :: i <= k < |entries| ==> entries[k] == old(entries)[k]
      {
        entries := entries[i := Refresh(entries[i], nodes)];
      }
    }

    method AdoptAgendas(c: Context)
      modifies this`entries
      ensures entries == MapAdopt(old(entries), c.agendas, c.classify)
                         + Missing(c.agendas, EntryIds(old(entries)), c.classify)
    {
      var known := EntryIds(entries);
      var n := |entries|;
      var added: seq<Entry> := [];
      for i := 0 to |c.agendas|
        invariant |entries| == n && added == Missing(c.agendas[..i], known, c.classify)
        invariant n == |old(entries)| && forall k :: 0 <= k < n ==> entries[k] == Adopt(old(entries)[k], c.agendas[..i], c.classify)
      {
        assert c.agendas[..i + 1][..i] == c.agendas[..i];
        var a := c.agendas[i];
        if a.id !in known {
          added := added + [NewEntry(a, c.classify)];
        }
        AdoptOne(a, c.classify);
      }
      assert c.agendas[..|c.agendas|] == c.agendas;
      entries := entries + added;
    }

    method AdoptOne(a: Agenda, classify: string -> string)
      modifies this`entries
      ensures |entries| == |old(entries)|
      ensures forall i :: 0 <= i < |entries| ==> entries[i] == AdoptAgenda(old(entries)[i], a, classify)
    {
      for i := 0 to |entries|
        invariant |entries| == |old(entries)|
        invariant forall k :: 0 <= k < i ==> entries[k] == AdoptAgenda(old(entries)[k], a, classify)
        invariant forall k :: i <= k < |entries| ==> entries[k] == old(entries)[k]
      {
        if entries[i].id == a.id {
          entries := entries[i := AdoptAgenda(entries[i], a, classify)];
        }
      }
    }

    method DeriveAll(c: Context) returns (maxWeight: real)
      modifies this`entries
      ensures entries == MapSettleNew(old(entries), c) && maxWeight == MaxRaw(entries)
    {
      maxWeight := 0.0;
      for i := 0 to |entries|
        invariant |entries| == |old(entries)|
        invariant forall k :: 0 <= k < i ==> entries[k] == SettleNew(old(entries)[k], c)
        invariant forall k :: i <= k < |entries| ==> entries[k] == old(entries)[k]
        invariant maxWeight == MaxRaw(entries[..i])
      {
        var derived := Derive(Anchor(entries[i], c), c);
        ghost var done := entries[..i];
        entries := entries[i := derived];
        assert entries[..i + 1][..i] == done;
        if derived.derived.weightRaw > maxWeight {
          maxWeight := derived.derived.weightRaw;
        }
      }
      assert entries[..|entries|] == entries;
    }

    method WeighAll(maxWeight: real, c: Context)
      modifies this`entries
      ensures entries == MapWeigh(old(entries), maxWeight, c)
    {
      for i := 0 to |entries|
        invariant |entries| == |old(entries)|
        invariant forall k :: 0 <= k < i ==> entries[k] == Weigh(old(entries)[k], maxWeight, c)
        invariant forall k :: i <= k < |entries| ==> entries[k] == old(entries)[k]
      {
        entries := entries[i := Weigh(entries[i], maxWeight, c)];
      }
    }

    method SettleEntries(c: Context) returns (maxWeight: real)
      modifies this`entries
      ensures entries == SettledAll(old(entries), c) && maxWeight == MaxRaw(entries)
    {
      RefreshRefs(c.nodes);
      ghost var refreshed := entries;
      RefreshKeepsIds(old(entries), refreshed, c.nodes);
      AdoptAgendas(c);
      maxWeight := DeriveAll(c);
      SettledInSteps(old(entries), refreshed, c);
    }

    /** Replaces every derived value; nothing of the live rounds' status survives. */
    method RecomputeFinal(c: Context)
      modifies this
      ensures entries == Recomputed(old(entries), c)
      ensures computedCurrentTopicId == candidateTopicId == "" && candidateRounds == currentInactiveRounds == 0
      ensures updatedAtVersion == c.version
    {
      computedCurrentTopicId, candidateTopicId, candidateRounds, currentInactiveRounds := "", "", 0, 0;
      var maxWeight := SettleEntries(c);
      WeighAll(maxWeight, c);
      entries := Sort(entries, Before);
      updatedAtVersion := c.version;
    }
  }

  lemma MapOfSum(a: seq<Entry>, b: seq<Entry>, c: Context)
    ensures MapSettleNew(a + b, c) == MapSettleNew(a, c) + MapSettleNew(b, c)
  {}

  lemma OldOnesSettle(entries: seq<Entry>, refreshed: seq<Entry>, c: Context)
    requires |entries| == |refreshed| && forall i :: 0 <= i < |entries| ==> refreshed[i] == Refresh(entries[i], c.nodes)
    ensures MapSettleNew(MapAdopt(refreshed, c.agendas, c.classify), c) == MapSettle(entries, c)
  {
    var adopted := MapAdopt(refreshed, c.agendas, c.classify);
    forall i | 0 <= i < |entries| ensures SettleNew(adopted[i], c) == Settle(entries[i], c) {
      assert adopted[i] == Adopt(Refresh(entries[i], c.nodes), c.agendas, c.classify);
    }
  }

  lemma SettledInSteps(entries: seq<Entry>, refreshed: seq<Entry>, c: Context)
    requires |entries| == |refreshed| && forall i :: 0 <= i < |entries| ==> refreshed[i] == Refresh(entries[i], c.nodes)
    ensures var missing := Missing(c.agendas, EntryIds(entries), c.classify);
      MapSettleNew(MapAdopt(refreshed, c.agendas, c.classify) + missing, c) == SettledAll(entries, c)
  {
    MapOfSum(MapAdopt(refreshed, c.agendas, c.classify), Missing(c.agendas, EntryIds(entries), c.classify), c);
    OldOnesSettle(entries, refreshed, c);
  }

  function MapAdopt(entries: seq<Entry>, agendas: seq<Agenda>, classify: string -> string): seq<Entry> {
    seq(|entries|, i requires 0 <= i < |entries| => Adopt(entries[i], agendas, classify))
  }

  lemma RefreshKeepsIds(before: seq<Entry>, after: seq<Entry>, nodes: seq<Node>)
    requires |before| == |after| && forall i :: 0 <= i < |after| ==> after[i] == Refresh(before[i], nodes)
    ensures EntryIds(after) == EntryIds(before)
  {
    forall id ensures id in EntryIds(after) <==> id in EntryIds(before) {
      if id in EntryIds(before) {
        var i :| 0 <= i < |before| && before[i].id == id;
        assert after[i] in after;
      }
    }
  }

  // --------------------------------------------------------------- what it computes

  ghost predicate UniqueAgendas(agendas: seq<Agenda>) {
    forall i, j :: 0 <= i < j < |agendas| ==> agendas[i].id != agendas[j].id
  }

  ghost predicate UniqueEntries(entries: seq<Entry>) {
    forall i, j :: 0 <= i < j < |entries| ==> entries[i].id != entries[j].id
  }

  lemma {:induction false} AdoptFacts(e: Entry, agendas: seq<Agenda>, classify: string -> string)
    requires UniqueAgendas(agendas)
    ensures e.id !in FixedIds(agendas) ==> Adopt(e, agendas, classify) == e
    ensures forall a :: a in agendas && a.id == e.id ==> Adopt(e, agendas, classify) == AdoptAgenda(e, a, classify)
    ensures Adopt(e, agendas, classify).id == e.id && Adopt(e, agendas, classify).links == e.links
  {
    if agendas != [] {
      var front, last := agendas[..|agendas| - 1], agendas[|agendas| - 1];
      AdoptFacts(e, front, classify);
      assert agendas == front + [last];
      assert FixedIds(agendas) == FixedIds(front) + {last.id};
      if last.id == e.id {
        assert e.id !in FixedIds(front);
      }
    }
  }

  /** Adopting the agendas again changes nothing more. */
  lemma AdoptAgain(x: Entry, y: Entry, c: Context)
    requires UniqueAgendas(c.agendas) && y.id == x.id && y.title == x.title && y.order == x.order
    requires y.fixed == x.fixed && y.expectation == x.expectation
    requires forall a :: a in c.agendas && a.id == x.id ==>
      x.title == a.title && x.order == a.order && x.fixed && (x.expectation == "" ==> c.classify(a.title) == "")
    ensures Adopt(y, c.agendas, c.classify) == y
  {
    AdoptFacts(y, c.agendas, c.classify);
    if y.id in FixedIds(c.agendas) {
      var a :| a in c.agendas && a.id == y.id;
      assert AdoptAgenda(y, a, c.classify) == y;
    }
  }

  lemma RefreshTwice(e: Entry, nodes: seq<Node>)
    ensures Refresh(Refresh(e, nodes), nodes) == Refresh(e, nodes)
  {
    RefreshIsIdempotent(e, nodes);
  }

  lemma RefreshReadsLinks(a: Entry, b: Entry, nodes: seq<Node>)
    requires a.id == b.id && a.fixed == b.fixed && a.links == b.links
    ensures Refresh(a, nodes).links == Refresh(b, nodes).links
  {}

  lemma RefreshInPlace(e: Entry, d: Derived, nodes: seq<Node>)
    ensures Refresh(Refresh(e, nodes).(derived := d), nodes) == Refresh(e, nodes).(derived := d)
  {
    RefreshTwice(e, nodes);
    var x := Refresh(e, nodes);
    RefreshReadsLinks(x.(derived := d), x, nodes);
  }

  /** An entry that belongs to no agenda only has its references refreshed. */
  lemma FreeEntrySettlesInPlace(e: Entry, d: Derived, c: Context)
    requires UniqueAgendas(c.agendas) && e.id !in FixedIds(c.agendas)
    ensures var z := Anchor(Adopt(Refresh(e, c.nodes), c.agendas, c.classify), c).(derived := d);
      z == Refresh(e, c.nodes).(derived := d) && Anchor(Adopt(Refresh(z, c.nodes), c.agendas, c.classify), c) == z
  {
    var z := Refresh(e, c.nodes).(derived := d);
    AdoptFacts(Refresh(e, c.nodes), c.agendas, c.classify);
    RefreshInPlace(e, d, c.nodes);
    AdoptFacts(z, c.agendas, c.classify);
  }

  lemma AgendaEntrySettlesInPlace(e: Entry, d: Derived, c: Context)
    requires UniqueAgendas(c.agendas) && e.id in FixedIds(c.agendas)
    ensures var z := Anchor(Adopt(Refresh(e, c.nodes), c.agendas, c.classify), c).(derived := d);
      Anchor(Adopt(Refresh(z, c.nodes), c.agendas, c.classify), c) == z
  {
    var x := Adopt(Refresh(e, c.nodes), c.agendas, c.classify);
    var z := Anchor(x, c).(derived := d);
    AdoptFacts(Refresh(e, c.nodes), c.agendas, c.classify);
    var a :| a in c.agendas && a.id == e.id;
    assert x == AdoptAgenda(Refresh(e, c.nodes), a, c.classify);
    assert forall b :: b in c.agendas && b.id == a.id ==> b == a;
    AdoptAgain(x, Refresh(z, c.nodes), c);
  }

  /** Refreshing, adopting and anchoring an entry again changes nothing more, whatever was derived since. */
  lemma SettlesInPlace(e: Entry, d: Derived, c: Context)
    requires UniqueAgendas(c.agendas)
    ensures var z := Anchor(Adopt(Refresh(e, c.nodes), c.agendas, c.classify), c).(derived := d);
      Anchor(Adopt(Refresh(z, c.nodes), c.agendas, c.classify), c) == z
  {
    if e.id in FixedIds(c.agendas) {
      AgendaEntrySettlesInPlace(e, d, c);
    } else {
      FreeEntrySettlesInPlace(e, d, c);
    }
  }

  lemma NewSettlesInPlace(a: Agenda, d: Derived, c: Context)
    requires UniqueAgendas(c.agendas) && a in c.agendas
    ensures var z := Anchor(NewEntry(a, c.classify), c).(derived := d);
      Anchor(Adopt(Refresh(z, c.nodes), c.agendas, c.classify), c) == z
  {
    var x := NewEntry(a, c.classify);
    var z := Anchor(x, c).(derived := d);
    assert forall b :: b in c.agendas && b.id == a.id ==> b == a;
    AdoptAgain(x, Refresh(z, c.nodes), c);
  }

  /** The derived values of before play no part in the new ones. */
  lemma DeriveForgets(z: Entry, d: Derived, c: Context)
    ensures Derive(z.(derived := d), c) == Derive(z, c)
  {}

  lemma WeighKeepsIdentity(z: Entry, top: real, c: Context)
    ensures Weigh(Derive(z, c), top, c) == z.(derived := Weigh(Derive(z, c), top, c).derived)
  {}

  /** Whatever comes out of the first pass is settled: a second pass finds it as it is. */
  ghost predicate Stable(settled: Entry, top: real, c: Context) {
    Settle(Weigh(settled, top, c), c) == settled
  }

  lemma DerivedIsStable(z: Entry, top: real, c: Context)
    requires forall d :: var y := z.(derived := d); Anchor(Adopt(Refresh(y, c.nodes), c.agendas, c.classify), c) == y
    ensures Stable(Derive(z, c), top, c)
  {
    var d := Weigh(Derive(z, c), top, c).derived;
    WeighKeepsIdentity(z, top, c);
    var y := z.(derived := d);
    assert Anchor(Adopt(Refresh(y, c.nodes), c.agendas, c.classify), c) == y;
    DeriveForgets(z, d, c);
  }

  lemma SettleIsStable(e: Entry, top: real, c: Context)
    requires UniqueAgendas(c.agendas)
    ensures Stable(Settle(e, c), top, c)
  {
    var z := Anchor(Adopt(Refresh(e, c.nodes), c.agendas, c.classify), c);
    forall d ensures var y := z.(derived := d); Anchor(Adopt(Refresh(y, c.nodes), c.agendas, c.classify), c) == y {
      SettlesInPlace(e, d, c);
    }
    DerivedIsStable(z, top, c);
  }

  lemma SettleNewIsStable(a: Agenda, top: real, c: Context)
    requires UniqueAgendas(c.agendas) && a in c.agendas
    ensures Stable(SettleNew(NewEntry(a, c.classify), c), top, c)
  {
    var z := Anchor(NewEntry(a, c.classify), c);
    forall d ensures var y := z.(derived := d); Anchor(Adopt(Refresh(y, c.nodes), c.agendas, c.classify), c) == y {
      NewSettlesInPlace(a, d, c);
    }
    DerivedIsStable(z, top, c);
  }

  lemma {:induction false} MissingFacts(agendas: seq<Agenda>, known: set<string>, classify: string -> string)
    requires UniqueAgendas(agendas)
    ensures forall e :: e in Missing(agendas, known, classify) <==>
      exists a :: a in agendas && a.id !in known && e == NewEntry(a, classify)
    ensures UniqueEntries(Missing(agendas, known, classify))
  {
    if agendas != [] {
      var front, last := agendas[..|agendas| - 1], agendas[|agendas| - 1];
      MissingFacts(front, known, classify);
      assert agendas == front + [last];
      forall e | e in Missing(front, known, classify) ensures e.id != last.id {
        var a :| a in front && e == NewEntry(a, classify);
      }
    }
  }

  lemma SettledAllStable(entries: seq<Entry>, top: real, c: Context, k: nat)
    requires UniqueAgendas(c.agendas) && k < |SettledAll(entries, c)|
    ensures Stable(SettledAll(entries, c)[k], top, c)
  {
    var missing := Missing(c.agendas, EntryIds(entries), c.classify);
    if k < |entries| {
      SettleIsStable(entries[k], top, c);
    } else {
      MissingFacts(c.agendas, EntryIds(entries), c.classify);
      assert missing[k - |entries|] in missing;
      var a :| a in c.agendas && missing[k - |entries|] == NewEntry(a, c.classify);
      SettleNewIsStable(a, top, c);
    }
  }

  /** Settling leaves IDs alone. */
  lemma SettledId(entries: seq<Entry>, c: Context, k: nat)
    requires UniqueAgendas(c.agendas) && k < |SettledAll(entries, c)|
    ensures SettledAll(entries, c)[k].id ==
      if k < |entries| then entries[k].id else Missing(c.agendas, EntryIds(entries), c.classify)[k - |entries|].id
  {
    if k < |entries| {
      AdoptFacts(Refresh(entries[k], c.nodes), c.agendas, c.classify);
    }
  }

  lemma SettledHasAgenda(entries: seq<Entry>, c: Context, a: Agenda)
    requires UniqueAgendas(c.agendas) && a in c.agendas
    ensures a.id in EntryIds(SettledAll(entries, c))
  {
    var settled := SettledAll(entries, c);
    var missing := Missing(c.agendas, EntryIds(entries), c.classify);
    MissingFacts(c.agendas, EntryIds(entries), c.classify);
    var k: nat;
    if a.id in EntryIds(entries) {
      k :| k < |entries| && entries[k].id == a.id;
    } else {
      assert NewEntry(a, c.classify) in missing;
      var i: nat :| i < |missing| && missing[i] == NewEntry(a, c.classify);
      k := |entries| + i;
    }
    SettledId(entries, c, k);
    assert settled[k] in settled;
  }

  lemma SettledUnique(entries: seq<Entry>, c: Context)
    requires UniqueAgendas(c.agendas) && UniqueEntries(entries)
    ensures UniqueEntries(SettledAll(entries, c))
  {
    var settled := SettledAll(entries, c);
    var missing := Missing(c.agendas, EntryIds(entries), c.classify);
    MissingFacts(c.agendas, EntryIds(entries), c.classify);
    forall i: nat, j: nat | i < j < |settled| ensures settled[i].id != settled[j].id {
      SettledId(entries, c, i);
      SettledId(entries, c, j);
      if i < |entries| <= j {
        assert missing[j - |entries|] in missing && entries[i] in entries;
        assert missing[j - |entries|].id !in EntryIds(entries);
      }
    }
  }

  // ---------------------------------------------------------------------- weights

  lemma {:induction false} MaxRawFacts(entries: seq<Entry>)
    ensures MaxRaw(entries) >= 0.0
    ensures forall e :: e in entries ==> e.derived.weightRaw <= MaxRaw(entries)
    ensures MaxRaw(entries) == 0.0 || exists e :: e in entries && e.derived.weightRaw == MaxRaw(entries)
  {
    if entries != [] {
      var front, last := entries[..|entries| - 1], entries[|entries| - 1];
      MaxRawFacts(front);
      assert entries == front + [last];
      if MaxRaw(entries) != 0.0 && last.derived.weightRaw <= MaxRaw(front) {
        var e :| e in front && e.derived.weightRaw == MaxRaw(front);
        assert e in entries;
      }
    }
  }

  lemma MaxRawOfSameWeights(s: seq<Entry>, t: seq<Entry>)
    requires forall e :: e in s ==> exists f :: f in t && f.derived.weightRaw == e.derived.weightRaw
    requires forall f :: f in t ==> exists e :: e in s && e.derived.weightRaw == f.derived.weightRaw
    ensures MaxRaw(s) == MaxRaw(t)
  {
    MaxRawFacts(s);
    MaxRawFacts(t);
  }

  lemma BeforeIsTotal()
    ensures Total(Before)
  {
    LexOrders();
    forall a: Entry, b: Entry ensures LexLe(a.id, b.id) || LexLe(b.id, a.id) {}
    forall a: Entry, b: Entry, c: Entry | LexLe(a.id, b.id) && LexLe(b.id, c.id) ensures LexLe(a.id, c.id) {}
  }

  lemma UniqueEntriesNeverTie(entries: seq<Entry>)
    requires UniqueEntries(entries)
    ensures NoTies(entries, Before)
  {
    LexOrders();
    forall a, b | a in entries && b in entries && Before(a, b) && Before(b, a) ensures a == b {
      var i :| 0 <= i < |entries| && entries[i] == a;
      var j :| 0 <= j < |entries| && entries[j] == b;
      assert LexLe(a.id, b.id) && LexLe(b.id, a.id);
    }
  }

  lemma MapWeighKeeps(settled: seq<Entry>, top: real, c: Context)
    ensures var weighed := MapWeigh(settled, top, c);
      && (forall w :: w in weighed ==> exists s :: s in settled && w == Weigh(s, top, c))
      && (forall s :: s in settled ==> Weigh(s, top, c) in weighed)
      && EntryIds(weighed) == EntryIds(settled)
      && (UniqueEntries(settled) ==> UniqueEntries(weighed))
  {
    var weighed := MapWeigh(settled, top, c);
    forall w | w in weighed ensures exists s :: s in settled && w == Weigh(s, top, c) {
      var i :| 0 <= i < |weighed| && weighed[i] == w;
      assert settled[i] in settled;
    }
    forall s | s in settled ensures Weigh(s, top, c) in weighed {
      var i :| 0 <= i < |settled| && settled[i] == s;
      assert weighed[i] == Weigh(s, top, c);
    }
  }

  // ------------------------------------------------------------------ main results

  lemma SameElements<T>(s: seq<T>, t: seq<T>)
    requires multiset(s) == multiset(t)
    ensures forall x :: x in s <==> x in t
  {
    assert forall x :: x in s <==> x in multiset(s);
    assert forall x :: x in t <==> x in multiset(t);
  }

  lemma SettledIgnoresOrder(entries: seq<Entry>, reordered: seq<Entry>, c: Context)
    requires multiset(entries) == multiset(reordered)
    ensures multiset(SettledAll(entries, c)) == multiset(SettledAll(reordered, c))
  {
    SameElements(entries, reordered);
    assert EntryIds(entries) == EntryIds(reordered);
    MapIgnoresOrder(entries, reordered, e => Settle(e, c));
  }

  /** The recompute forgets the order of the entries it is given. */
  lemma RecomputeIgnoresOrder(entries: seq<Entry>, reordered: seq<Entry>, c: Context)
    requires UniqueAgendas(c.agendas) && UniqueEntries(entries) && multiset(entries) == multiset(reordered)
    ensures Recomputed(entries, c) == Recomputed(reordered, c)
  {
    SettledIgnoresOrder(entries, reordered, c);
    var s, t := SettledAll(entries, c), SettledAll(reordered, c);
    SameElements(s, t);
    MaxRawOfSameWeights(s, t);
    var top := MaxRaw(s);
    MapIgnoresOrder(s, t, e => Weigh(e, top, c));
    SettledUnique(entries, c);
    MapWeighKeeps(s, top, c);
    BeforeIsTotal();
    UniqueEntriesNeverTie(MapWeigh(s, top, c));
    SortIgnoresOrder(MapWeigh(s, top, c), MapWeigh(t, top, c), Before);
  }

  /** The recomputed entries are the settled ones, weighed. */
  lemma RecomputedElements(entries: seq<Entry>, c: Context, r: Entry)
    ensures r in Recomputed(entries, c) <==>
      exists s :: s in SettledAll(entries, c) && r == Weigh(s, MaxRaw(SettledAll(entries, c)), c)
  {
    var settled := SettledAll(entries, c);
    var weighed := MapWeigh(settled, MaxRaw(settled), c);
    BeforeIsTotal();
    SortFacts(weighed, Before);
    MapWeighKeeps(settled, MaxRaw(settled), c);
  }

  lemma RecomputedHasAgenda(entries: seq<Entry>, c: Context, a: Agenda)
    requires UniqueAgendas(c.agendas) && a in c.agendas
    ensures a.id in EntryIds(Recomputed(entries, c))
  {
    var settled := SettledAll(entries, c);
    SettledHasAgenda(entries, c, a);
    var s :| s in settled && s.id == a.id;
    var r := Weigh(s, MaxRaw(settled), c);
    RecomputedElements(entries, c, r);
    assert r in Recomputed(entries, c) && r.id == a.id;
  }

  lemma {:induction false} NothingMissing(agendas: seq<Agenda>, known: set<string>, classify: string -> string)
    requires forall a :: a in agendas ==> a.id in known
    ensures Missing(agendas, known, classify) == []
  {
    if agendas != [] {
      NothingMissing(agendas[..|agendas| - 1], known, classify);
    }
  }

  /** Each recomputed entry settles back to the entry it was weighed from. */
  lemma RecomputedSettlesBack(entries: seq<Entry>, c: Context, r: Entry)
    requires UniqueAgendas(c.agendas) && r in Recomputed(entries, c)
    ensures Settle(r, c) in SettledAll(entries, c) && r == Weigh(Settle(r, c), MaxRaw(SettledAll(entries, c)), c)
    ensures Settle(r, c).derived.weightRaw == r.derived.weightRaw
  {
    var settled := SettledAll(entries, c);
    RecomputedElements(entries, c, r);
    var s :| s in settled && r == Weigh(s, MaxRaw(settled), c);
    var k: nat :| k < |settled| && settled[k] == s;
    SettledAllStable(entries, MaxRaw(settled), c, k);
  }

  lemma SecondTop(entries: seq<Entry>, c: Context)
    requires UniqueAgendas(c.agendas)
    ensures MaxRaw(MapSettle(Recomputed(entries, c), c)) == MaxRaw(SettledAll(entries, c))
  {
    var settled := SettledAll(entries, c);
    var r := Recomputed(entries, c);
    var again := MapSettle(r, c);
    forall e | e in again ensures exists f :: f in settled && f.derived.weightRaw == e.derived.weightRaw {
      var i :| 0 <= i < |r| && again[i] == e;
      RecomputedSettlesBack(entries, c, r[i]);
    }
    forall f | f in settled ensures exists e :: e in again && e.derived.weightRaw == f.derived.weightRaw {
      var w := Weigh(f, MaxRaw(settled), c);
      RecomputedElements(entries, c, w);
      var i :| 0 <= i < |r| && r[i] == w;
      RecomputedSettlesBack(entries, c, w);
      assert again[i] in again;
    }
    MaxRawOfSameWeights(again, settled);
  }

  lemma RecomputedIsSorted(entries: seq<Entry>, c: Context)
    ensures Sorted(Recomputed(entries, c), Before)
  {
    BeforeIsTotal();
    SortFacts(MapWeigh(SettledAll(entries, c), MaxRaw(SettledAll(entries, c)), c), Before);
  }

  lemma SecondPassSettlesBack(entries: seq<Entry>, c: Context)
    requires UniqueAgendas(c.agendas)
    ensures SettledAll(Recomputed(entries, c), c) == MapSettle(Recomputed(entries, c), c)
  {
    var r := Recomputed(entries, c);
    forall a | a in c.agendas ensures a.id in EntryIds(r) {
      RecomputedHasAgenda(entries, c, a);
    }
    NothingMissing(c.agendas, EntryIds(r), c.classify);
  }

  lemma SecondPassWeighsBack(entries: seq<Entry>, c: Context)
    requires UniqueAgendas(c.agendas)
    ensures var r := Recomputed(entries, c);
      MapWeigh(MapSettle(r, c), MaxRaw(SettledAll(entries, c)), c) == r
  {
    var r := Recomputed(entries, c);
    var top := MaxRaw(SettledAll(entries, c));
    forall i | 0 <= i < |r| ensures Weigh(Settle(r[i], c), top, c) == r[i] {
      RecomputedSettlesBack(entries, c, r[i]);
    }
  }

  /** Recomputing again changes nothing. */
  lemma RecomputeIsIdempotent(entries: seq<Entry>, c: Context)
    requires UniqueAgendas(c.agendas)
    ensures Recomputed(Recomputed(entries, c), c) == Recomputed(entries, c)
  {
    SecondPassSettlesBack(entries, c);
    SecondTop(entries, c);
    SecondPassWeighsBack(entries, c);
    RecomputedIsSorted(entries, c);
    SortKeepsSorted(Recomputed(entries, c), Before);
  }

  predicate HasSupport(e: Entry, c: Context) {
    e.derived.activeIds != [] || (e.fixed && e.id in c.transcript && |c.transcript[e.id]| >= 2)
  }

  lemma {:induction false} SettledStatus(e: Entry, c: Context)
    ensures var d := Derive(e, c).derived;
      && d.status == (if HasSupport(Derive(e, c), c) then Discussed else NotStarted)
      && (d.status == Discussed ==> d.weightRaw >= 0.5)
      && (d.status == NotStarted ==> d.weightRaw == 0.0 && d.evidence == {})
      && d.weight == 0.0
  {
    LexOrders();
    SortFacts(Ids(ActiveOf(c.related(e.id, e.fixed, e.links))), LexLe);
  }

  /**
    After the recompute nobody is discussing; an entry is discussed iff it has an
    active item or is fixed with at least two transcript matches; weights are 0
    for the others and in (0, 1] for those; and if any is discussed, some weight is 1.
   */
  lemma RecomputedStatusAndWeight(entries: seq<Entry>, c: Context)
    ensures forall r :: r in Recomputed(entries, c) ==>
      && r.derived.status == (if HasSupport(r, c) then Discussed else NotStarted)
      && (r.derived.status == NotStarted ==> r.derived.weight == 0.0)
      && (r.derived.status == Discussed ==> 0.0 < r.derived.weight <= 1.0)
    ensures (exists r :: r in Recomputed(entries, c) && r.derived.status == Discussed) ==>
      exists r :: r in Recomputed(entries, c) && r.derived.weight == 1.0
  {
    var settled := SettledAll(entries, c);
    var top := MaxRaw(settled);
    MaxRawFacts(settled);
    forall r | r in Recomputed(entries, c)
      ensures r.derived.status == (if HasSupport(r, c) then Discussed else NotStarted)
      ensures r.derived.status == NotStarted ==> r.derived.weight == 0.0
      ensures r.derived.status == Discussed ==> 0.0 < r.derived.weight <= 1.0
    {
      RecomputedElements(entries, c, r);
      var s :| s in settled && r == Weigh(s, top, c);
      SettledShape(entries, c, s);
      if s.derived.status == Discussed {
        ShareOfTop(s.derived.weightRaw, top);
      }
    }
    if r :| r in Recomputed(entries, c) && r.derived.status == Discussed {
      RecomputedElements(entries, c, r);
      var s :| s in settled && r == Weigh(s, top, c);
      SettledShape(entries, c, s);
      HeaviestHasWeightOne(entries, c);
    }
  }

  lemma ShareOfTop(raw: real, top: real)
    requires 0.0 < raw <= top
    ensures 0.0 < raw / top <= 1.0
  {}

  lemma TopWeighsOne(s: Entry, top: real, c: Context)
    requires s.derived.status == Discussed && s.derived.weightRaw == top > 0.0
    ensures Weigh(s, top, c).derived.weight == 1.0
  {
    assert top / top == 1.0;
  }

  lemma HeaviestHasWeightOne(entries: seq<Entry>, c: Context)
    requires MaxRaw(SettledAll(entries, c)) > 0.0
    ensures exists r :: r in Recomputed(entries, c) && r.derived.weight == 1.0
  {
    var settled := SettledAll(entries, c);
    var top := MaxRaw(settled);
    MaxRawFacts(settled);
    var s :| s in settled && s.derived.weightRaw == top;
    SettledShape(entries, c, s);
    TopWeighsOne(s, top, c);
    RecomputedElements(entries, c, Weigh(s, top, c));
  }

  lemma SettledShape(entries: seq<Entry>, c: Context, s: Entry)
    requires s in SettledAll(entries, c)
    ensures s.derived.status == (if HasSupport(s, c) then Discussed else NotStarted)
    ensures s.derived.status == Discussed ==> s.derived.weightRaw >= 0.5
    ensures s.derived.status == NotStarted ==> s.derived.weightRaw == 0.0
    ensures s.derived.weight == 0.0
  {
    var missing := Missing(c.agendas, EntryIds(entries), c.classify);
    if i :| 0 <= i < |entries| && s == Settle(entries[i], c) {
      SettledStatus(Anchor(Adopt(Refresh(entries[i], c.nodes), c.agendas, c.classify), c), c);
    } else {
      var i :| 0 <= i < |missing| && s == SettleNew(missing[i], c);
      SettledStatus(Anchor(missing[i], c), c);
    }
  }

  /** Whether an entry lists active items exactly when some item related to it is active. */
  ghost predicate ListsActive(e: Entry, c: Context) {
    e.derived.activeIds != [] <==> ActiveOf(c.related(e.id, e.fixed, e.links)) != []
  }

  lemma DerivedListsActive(e: Entry, c: Context)
    ensures ListsActive(Derive(e, c), c)
  {
    LexOrders();
    SortFacts(Ids(ActiveOf(c.related(e.id, e.fixed, e.links))), LexLe);
  }

  lemma SettledListsActive(entries: seq<Entry>, c: Context, s: Entry)
    requires s in SettledAll(entries, c)
    ensures ListsActive(s, c)
  {
    var missing := Missing(c.agendas, EntryIds(entries), c.classify);
    if i :| 0 <= i < |entries| && s == Settle(entries[i], c) {
      DerivedListsActive(Anchor(Adopt(Refresh(entries[i], c.nodes), c.agendas, c.classify), c), c);
    } else {
      var i :| 0 <= i < |missing| && s == SettleNew(missing[i], c);
      DerivedListsActive(Anchor(missing[i], c), c);
    }
  }

  lemma WeighedListsActive(s: Entry, top: real, c: Context)
    requires ListsActive(s, c)
    ensures ListsActive(Weigh(s, top, c), c)
  {
    assert Weigh(s, top, c).derived.activeIds == s.derived.activeIds;
  }

  lemma RecomputedListsActive(entries: seq<Entry>, c: Context, r: Entry)
    requires r in Recomputed(entries, c)
    ensures ListsActive(r, c)
  {
    RecomputedElements(entries, c, r);
    var s :| s in SettledAll(entries, c) && r == Weigh(s, MaxRaw(SettledAll(entries, c)), c);
    SettledListsActive(entries, c, s);
    WeighedListsActive(s, MaxRaw(SettledAll(entries, c)), c);
  }
}
