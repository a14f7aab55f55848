/**
  Where an agenda entry's support comes from (internal/application/ai_agenda_progress.go):
  the items related to it through the tree, on any parent map, and the transcript
  evidence a fixed span may lend to utterances that match no agenda.
 */
module ProgressEvidence {
  import opened Options
  import opened AgendaContext

  // ------------------------------------------------------------------- related items

  datatype Item = Item(id: string, kind: string, active: bool, relatedAgendas: set<string>, candidateTopicId: string)

  datatype Entry = Entry(id: string, fixed: bool, candidateId: string, topicIds: seq<string>)

  /** `above` is the node itself or one of its ancestors. */
  ghost predicate AtOrAbove(parents: map<string, string>, nodeId: string, above: string) {
    nodeId != "" && above != "" && (nodeId == above || exists k: nat :: Ancestor(parents, nodeId, k) == above)
  }

  ghost predicate NotMetBefore(parents: map<string, string>, nodeId: string, above: string, k: nat) {
    nodeId != above && forall j: nat :: j < k ==> Ancestor(parents, nodeId, j) != above
  }

  lemma NeverMetPastRepeat(parents: map<string, string>, nodeId: string, above: string, i: nat, k: nat)
    requires i < k && Ancestor(parents, nodeId, i) == Ancestor(parents, nodeId, k)
    requires NotMetBefore(parents, nodeId, above, k)
    ensures !AtOrAbove(parents, nodeId, above)
  {
    forall m: nat ensures Ancestor(parents, nodeId, m) != above {
      ChainRepeats(parents, nodeId, i, k, m);
    }
  }

  lemma NeverMetPastEnd(parents: map<string, string>, nodeId: string, above: string, k: nat)
    requires above != "" && Ancestor(parents, nodeId, k) == "" && NotMetBefore(parents, nodeId, above, k)
    ensures !AtOrAbove(parents, nodeId, above)
  {
    forall m: nat ensures Ancestor(parents, nodeId, m) != above {
      if m >= k {
        ChainEnds(parents, nodeId, k, m);
      }
    }
  }

  /** The climb starts at the node itself; a node met again ends it. */
  lemma NeverMetOnOwnCycle(parents: map<string, string>, nodeId: string, above: string, k: nat)
    requires Ancestor(parents, nodeId, k) == nodeId && NotMetBefore(parents, nodeId, above, k)
    ensures !AtOrAbove(parents, nodeId, above)
  {
    assert Ancestor(parents, nodeId, k + 1) == Ancestor(parents, nodeId, 0) || nodeId == "";
    if nodeId != "" {
      NeverMetPastRepeat(parents, nodeId, above, 0, k + 1);
    }
  }

  /** Terminates and is exact on any parent map, cyclic ones included. */
  method IsDescendantOrSelf(parents: map<string, string>, nodeId: string, above: string) returns (found: bool)
    ensures found <==> AtOrAbove(parents, nodeId, above)
  {
    if nodeId == "" || above == "" {
      return false;
    }
    if nodeId == above {
      return true;
    }
    ghost var universe := parents.Values + {Get(parents, nodeId)};
    var seen: set<string> := {};
    var current := Get(parents, nodeId);
    ghost var k: nat := 0;
    while current != ""
      invariant current == Ancestor(parents, nodeId, k) && (current != "" ==> current in universe)
      invariant seen <= universe && Passed(parents, nodeId, seen, k)
      invariant NotMetBefore(parents, nodeId, above, k)
      decreases universe - seen
    {
      if current == above {
        return true;
      }
      if current == nodeId {
        NeverMetOnOwnCycle(parents, nodeId, above, k);
        return false;
      }
      if current in seen {
        ghost var i: nat :| i < k && Ancestor(parents, nodeId, i) == current;
        NeverMetPastRepeat(parents, nodeId, above, i, k);
        return false;
      }
      seen := seen + {current};
      current := Get(parents, current);
      k := k + 1;
    }
    NeverMetPastEnd(parents, nodeId, above, k);
    found := false;
  }

  /** Named by the item, of the same candidate, or at or above the item's topic. */
  ghost predicate Related(nodes: seq<Node>, entry: Entry, item: Item) {
    && item.active
    && (entry.id in item.relatedAgendas
        || (!entry.fixed && entry.candidateId != "" && item.candidateTopicId == entry.candidateId)
        || exists topicId, nodeId :: NearestTopic(Parents(nodes), Topics(nodes), item.id, topicId)
             && nodeId in entry.topicIds && AtOrAbove(Parents(nodes), topicId, nodeId))
  }

  lemma NearestTopicIsUnique(p: map<string, string>, t: map<string, bool>, itemId: string, a: string, b: string)
    requires NearestTopic(p, t, itemId, a) && NearestTopic(p, t, itemId, b)
    ensures a == b
  {
    if a != "" {
      var j: nat :| Ancestor(p, itemId, j) == a && TopicAt(p, t, itemId, j) && NoTopicBefore(p, t, itemId, j);
      assert b != "";
      var k: nat :| Ancestor(p, itemId, k) == b && TopicAt(p, t, itemId, k) && NoTopicBefore(p, t, itemId, k);
      assert j == k;
    }
  }

  method BelowSomeTopic(parents: map<string, string>, topicId: string, topicIds: seq<string>) returns (found: bool)
    ensures found <==> exists nodeId :: nodeId in topicIds && AtOrAbove(parents, topicId, nodeId)
  {
    for i := 0 to |topicIds|
      invariant forall j :: 0 <= j < i ==> !AtOrAbove(parents, topicId, topicIds[j])
    {
      var below := IsDescendantOrSelf(parents, topicId, topicIds[i]);
      if below {
        return true;
      }
    }
    found := false;
  }

  method IsRelated(nodes: seq<Node>, parents: map<string, string>, entry: Entry, item: Item) returns (related: bool)
    requires parents == Parents(nodes)
    ensures related <==> Related(nodes, entry, item)
  {
    if !item.active {
      return false;
    }
    if entry.id in item.relatedAgendas {
      return true;
    }
    if !entry.fixed && entry.candidateId != "" && item.candidateTopicId == entry.candidateId {
      return true;
    }
    var topicId := TreeItemTopic(nodes, item.id);
    related := BelowSomeTopic(parents, topicId, entry.topicIds);
    forall other | NearestTopic(Parents(nodes), Topics(nodes), item.id, other) ensures other == topicId {
      NearestTopicIsUnique(Parents(nodes), Topics(nodes), item.id, other, topicId);
    }
  }

  // --------------------------------------------------------- evidence a span may lend

  const INHERITED_PER_SPAN := 2
  const STRONG_SCORE := 0.68
  const INHERITED_FLOOR := 0.55

  /** A substantive utterance: its own agenda match, the fixed span around it, and a strong semantic match. */
  datatype Remark = Remark(
    number: int,
    matchId: string, matchScore: real,           // "" when no agenda matches
    span: Option<FixedSpan>,
    strongId: string, strongScore: real)

  datatype FixedSpan = FixedSpan(start: int, agendaId: string, confidence: real)

  datatype Evidence = Evidence(agendaId: string, number: int, score: real, inheritedFrom: Option<int>)

  datatype Gathering = Gathering(blocked: set<int>, inherited: map<int, nat>, evidence: seq<Evidence>)

  function CountOf(inherited: map<int, nat>, start: int): nat {
    if start in inherited then inherited[start] else 0
  }

  function Most(a: real, b: real): real {
    if a < b then b else a
  }

  function Take(s: Gathering, u: Remark): Gathering {
    if u.matchId != "" then
      s.(evidence := s.evidence + [Evidence(u.matchId, u.number, u.matchScore, None)],
         blocked := if u.span.Some? && u.matchId != u.span.value.agendaId && u.matchScore >= STRONG_SCORE
                    then s.blocked + {u.span.value.start} else s.blocked)
    else if u.span.None? then s
    else
      var span := u.span.value;
      if span.start in s.blocked || CountOf(s.inherited, span.start) >= INHERITED_PER_SPAN then s
      else if u.strongId != "" && u.strongId != span.agendaId && u.strongScore >= STRONG_SCORE then
        s.(blocked := s.blocked + {span.start})
      else
        s.(inherited := s.inherited[span.start := CountOf(s.inherited, span.start) + 1],
           evidence := s.evidence + [Evidence(span.agendaId, u.number, Most(span.confidence, INHERITED_FLOOR), Some(span.start))])
  }

  function TakeAll(utterances: seq<Remark>): Gathering {
    if utterances == [] then Gathering({}, map[], [])
    else Take(TakeAll(utterances[..|utterances| - 1]), utterances[|utterances| - 1])
  }

  method GatherEvidence(utterances: seq<Remark>) returns (evidence: seq<Evidence>)
    ensures evidence == TakeAll(utterances).evidence
  {
    var blocked: set<int>, inherited: map<int, nat> := {}, map[];
    evidence := [];
    for i := 0 to |utterances|
      invariant Gathering(blocked, inherited, evidence) == TakeAll(utterances[..i])
    {
      assert utterances[..i + 1][..i] == utterances[..i];
      var u := utterances[i];
      if u.matchId != "" {
        evidence := evidence + [Evidence(u.matchId, u.number, u.matchScore, None)];
        if u.span.Some? && u.matchId != u.span.value.agendaId && u.matchScore >= STRONG_SCORE {
          blocked := blocked + {u.span.value.start};
        }
        continue;
      }
      if u.span.None? || u.span.value.start in blocked || CountOf(inherited, u.span.value.start) >= INHERITED_PER_SPAN {
        continue;
      }
      var span := u.span.value;
      if u.strongId != "" && u.strongId != span.agendaId && u.strongScore >= STRONG_SCORE {
        blocked := blocked + {span.start};
        continue;
      }
      inherited := inherited[span.start := CountOf(inherited, span.start) + 1];
      var score := if span.confidence < INHERITED_FLOOR then INHERITED_FLOOR else span.confidence;
      evidence := evidence + [Evidence(span.agendaId, u.number, score, Some(span.start))];
    }
    assert utterances[..|utterances|] == utterances;
  }

  function Lent(evidence: seq<Evidence>, start: int): nat {
    if evidence == [] then 0
    else Lent(evidence[..|evidence| - 1], start) + if evidence[|evidence| - 1].inheritedFrom == Some(start) then 1 else 0
  }

  lemma LentGrows(evidence: seq<Evidence>, e: Evidence, start: int)
    ensures Lent(evidence + [e], start) == Lent(evidence, start) + if e.inheritedFrom == Some(start) then 1 else 0
  {
    assert (evidence + [e])[..|evidence|] == evidence;
  }

  /** One remark adds at most one piece, and counts it exactly when it is lent. */
  lemma TakeAdds(s: Gathering, u: Remark)
    ensures var t := Take(s, u);
      || (t.evidence == s.evidence && t.inherited == s.inherited)
      || (exists e: Evidence :: t.evidence == s.evidence + [e] && e.inheritedFrom == None && t.inherited == s.inherited)
      || (u.span.Some? && u.span.value.start !in s.blocked && Lends(s, t, u.span.value.start))
  {}

  ghost predicate Lends(s: Gathering, t: Gathering, start: int) {
    && CountOf(s.inherited, start) < INHERITED_PER_SPAN
    && t.inherited == s.inherited[start := CountOf(s.inherited, start) + 1]
    && exists e: Evidence :: t.evidence == s.evidence + [e] && e.inheritedFrom == Some(start)
  }

  lemma TakeLends(s: Gathering, u: Remark, start: int)
    requires CountOf(s.inherited, start) == Lent(s.evidence, start) <= INHERITED_PER_SPAN
    ensures CountOf(Take(s, u).inherited, start) == Lent(Take(s, u).evidence, start) <= INHERITED_PER_SPAN
    ensures start in s.blocked ==> start in Take(s, u).blocked && Lent(Take(s, u).evidence, start) == Lent(s.evidence, start)
  {
    var t := Take(s, u);
    TakeAdds(s, u);
    if e: Evidence :| t.evidence == s.evidence + [e] {
      LentGrows(s.evidence, e, start);
      assert t.evidence[|s.evidence|] == e;
    }
  }

  /** No fixed span lends more than two pieces of evidence, and none once another agenda has strongly shown up in it. */
  lemma {:induction false} SpanLendsAtMostTwo(utterances: seq<Remark>, n: nat, start: int)
    requires n <= |utterances|
    ensures var s := TakeAll(utterances[..n]);
      CountOf(s.inherited, start) == Lent(s.evidence, start) <= INHERITED_PER_SPAN
    ensures start in TakeAll(utterances[..n]).blocked ==>
      Lent(TakeAll(utterances).evidence, start) == Lent(TakeAll(utterances[..n]).evidence, start)
    decreases |utterances|, n
  {
    CountsAreLent(utterances[..n], start);
    if n < |utterances| {
      BlockedLendsNoMore(utterances, n, |utterances|, start);
    }
    assert utterances[..|utterances|] == utterances;
  }

  lemma {:induction false} CountsAreLent(utterances: seq<Remark>, start: int)
    ensures var s := TakeAll(utterances); CountOf(s.inherited, start) == Lent(s.evidence, start) <= INHERITED_PER_SPAN
  {
    if utterances != [] {
      CountsAreLent(utterances[..|utterances| - 1], start);
      TakeLends(TakeAll(utterances[..|utterances| - 1]), utterances[|utterances| - 1], start);
    }
  }

  lemma {:induction false} BlockedLendsNoMore(utterances: seq<Remark>, m: nat, n: nat, start: int)
    requires m <= n <= |utterances|
    ensures start in TakeAll(utterances[..m]).blocked ==>
      start in TakeAll(utterances[..n]).blocked
      && Lent(TakeAll(utterances[..n]).evidence, start) == Lent(TakeAll(utterances[..m]).evidence, start)
    decreases n - m
  {
    if m < n {
      BlockedLendsNoMore(utterances, m, n - 1, start);
      CountsAreLent(utterances[..n - 1], start);
      assert utterances[..n][..n - 1] == utterances[..n - 1];
      TakeLends(TakeAll(utterances[..n - 1]), utterances[n - 1], start);
    }
  }
}
