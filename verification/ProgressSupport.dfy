/**
  The final recompute on a real tree and transcript: which items belong to an
  entry is decided on the parent map, and its transcript matches are the evidence
  gathered from the utterances.
 */
module ProgressSupport {
  import opened AgendaContext
  import Evidence = ProgressEvidence
  import Final = FinalProgress

  /** A canonical item with its links into the tree, and what the recompute counts of it. */
  datatype TreeItem = TreeItem(link: Evidence.Item, counted: Final.Item)

  ghost predicate Belongs(nodes: seq<Node>, e: Final.Entry, item: TreeItem) {
    Evidence.Related(nodes, EntryOf(e.id, e.fixed, e.links), item.link)
  }

  function EntryOf(id: string, fixed: bool, links: Final.Links): Evidence.Entry {
    Evidence.Entry(id, fixed, links.candidateId, links.topicIds)
  }

  ghost function RelatedItems(nodes: seq<Node>, entry: Evidence.Entry, items: seq<TreeItem>): seq<Final.Item> {
    if items == [] then []
    else
      var last := items[|items| - 1];
      RelatedItems(nodes, entry, items[..|items| - 1]) + if Evidence.Related(nodes, entry, last.link) then [last.counted] else []
  }

  function MatchesFor(evidence: seq<Evidence.Evidence>, agenda: string): seq<Final.Match> {
    if evidence == [] then []
    else
      var last := evidence[|evidence| - 1];
      MatchesFor(evidence[..|evidence| - 1], agenda) +
        if last.agendaId == agenda then [Final.Match(last.number, last.score)] else []
  }

  /** The context of the recompute, with its two open parts taken from the tree and the transcript. */
  ghost function ContextOf(base: Final.Context, nodes: seq<Node>, items: seq<TreeItem>, remarks: seq<Evidence.Remark>): Final.Context {
    var evidence := Evidence.TakeAll(remarks).evidence;
    base.(related := (id, fixed, links) => RelatedItems(nodes, EntryOf(id, fixed, links), items),
          transcript := map e | e in evidence :: e.agendaId := MatchesFor(evidence, e.agendaId))
  }

  lemma {:induction false} ActiveExactlyWhen(nodes: seq<Node>, entry: Evidence.Entry, items: seq<TreeItem>)
    ensures Final.ActiveOf(RelatedItems(nodes, entry, items)) != [] <==>
      exists item :: item in items && item.counted.active && Evidence.Related(nodes, entry, item.link)
  {
    if items != [] {
      var front, last := items[..|items| - 1], items[|items| - 1];
      ActiveExactlyWhen(nodes, entry, front);
      assert items == front + [last];
      var related := RelatedItems(nodes, entry, front);
      if Evidence.Related(nodes, entry, last.link) {
        assert (related + [last.counted])[..|related|] == related;
      } else {
        assert related + [] == related;
      }
    }
  }

  lemma {:induction false} NoMatchesWithoutEvidence(evidence: seq<Evidence.Evidence>, agenda: string)
    requires forall e :: e in evidence ==> e.agendaId != agenda
    ensures MatchesFor(evidence, agenda) == []
  {
    if evidence != [] {
      NoMatchesWithoutEvidence(evidence[..|evidence| - 1], agenda);
    }
  }

  /**
    At meeting end an entry is discussed exactly when an active item of the tree
    belongs to it, or it is a fixed agenda for which the utterances yielded two
    pieces of evidence.
   */
  lemma DiscussedExactlyWhen(entries: seq<Final.Entry>, base: Final.Context, nodes: seq<Node>, items: seq<TreeItem>,
      remarks: seq<Evidence.Remark>, r: Final.Entry)
    requires r in Final.Recomputed(entries, ContextOf(base, nodes, items, remarks))
    ensures r.derived.status == Final.Discussed <==>
      || (exists item :: item in items && item.counted.active && Belongs(nodes, r, item))
      || (r.fixed && |MatchesFor(Evidence.TakeAll(remarks).evidence, r.id)| >= 2)
  {
    var c := ContextOf(base, nodes, items, remarks);
    var evidence := Evidence.TakeAll(remarks).evidence;
    Final.RecomputedStatusAndWeight(entries, c);
    Final.RecomputedListsActive(entries, c, r);
    ActiveExactlyWhen(nodes, EntryOf(r.id, r.fixed, r.links), items);
    assert c.related(r.id, r.fixed, r.links) == RelatedItems(nodes, EntryOf(r.id, r.fixed, r.links), items);
    if r.id in c.transcript {
      assert c.transcript[r.id] == MatchesFor(evidence, r.id);
    } else {
      NoMatchesWithoutEvidence(evidence, r.id);
    }
  }
}
