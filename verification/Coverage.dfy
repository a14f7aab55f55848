/**
  Coverage bookkeeping of the live analysis (internal/application/ai_analysis.go):
  which final segments a round has analysed, and which get one bounded retry.
  Whether a segment is reflected in the tree is a verdict supplied per segment.
 */
module Coverage {

  datatype Key = Key(callId: string, sequenceNo: int)

  datatype Segment = Segment(callId: string, sequenceNo: int, isFinal: bool, hasText: bool)

  datatype Entry = Entry(meaningful: bool, retryEligible: bool, attempts: nat, retryAfter: int)

  datatype Payload = Payload(
    analyzed: seq<Key>,
    coveredThrough: int,
    entries: map<Key, Entry>,
    meaningful: set<Key>,
    meaningfulThrough: int)

  const EMPTY_PAYLOAD := Payload([], 0, map[], {}, 0)

  function KeyOf(s: Segment): Key {
    Key(s.callId, s.sequenceNo)
  }

  predicate Usable(s: Segment) {
    s.isFinal && s.sequenceNo > 0 && s.hasText
  }

  function Max(a: int, b: int): int {
    if a < b then b else a
  }

  function Top(segments: seq<Segment>): (top: int)
    ensures top >= 0 && forall s :: s in segments ==> s.sequenceNo <= top
  {
    if segments == [] then 0 else Max(Top(segments[..|segments| - 1]), segments[|segments| - 1].sequenceNo)
  }

  // ----------------------------------------------------------- one coverage pass

  /** The stored references, cleaned: positive sequence numbers, first of each key. */
  function Normalized(p: Payload, n: nat): (r: Payload)
    requires n <= |p.analyzed|
  {
    if n == 0 then p.(analyzed := [], entries := map k | k in p.entries && k.sequenceNo > 0 :: p.entries[k])
    else
      var r := Normalized(p, n - 1);
      var key := p.analyzed[n - 1];
      if key.sequenceNo <= 0 || key in r.analyzed then r
      else r.(analyzed := r.analyzed + [key], coveredThrough := Max(r.coveredThrough, key.sequenceNo))
  }

  function Decide(entries: map<Key, Entry>, key: Key, meaningful: bool, top: int): Entry {
    var attempt := if key in entries then entries[key].attempts + 1 else 1;
    Entry(meaningful, !meaningful && attempt < 2, attempt, if meaningful then 0 else top)
  }

  function Record(p: Payload, s: Segment, meaningful: bool, top: int): Payload {
    if !Usable(s) then p
    else
      var key := KeyOf(s);
      p.(analyzed := if key in p.analyzed then p.analyzed else p.analyzed + [key],
         coveredThrough := Max(p.coveredThrough, s.sequenceNo),
         entries := p.entries[key := Decide(p.entries, key, meaningful, top)])
  }

  function RecordAll(p: Payload, segments: seq<Segment>, verdicts: seq<bool>, n: nat): Payload
    requires n <= |segments| == |verdicts|
  {
    if n == 0 then Normalized(p, |p.analyzed|)
    else Record(RecordAll(p, segments, verdicts, n - 1), segments[n - 1], verdicts[n - 1], Top(segments))
  }

  ghost predicate IsTop(keys: set<Key>, through: int) {
    && (forall k :: k in keys ==> k.sequenceNo <= through)
    && (through == 0 || exists k :: k in keys && k.sequenceNo == through)
    && through >= 0
  }

  function MeaningfulKeys(entries: map<Key, Entry>): set<Key> {
    set k | k in entries && entries[k].meaningful
  }

  method CollectMeaningful(entries: map<Key, Entry>) returns (keys: set<Key>, through: int)
    ensures keys == MeaningfulKeys(entries) && IsTop(keys, through)
  {
    keys, through := {}, 0;
    var rest := entries.Keys;
    while rest != {}
      invariant rest <= entries.Keys
      invariant keys == set k | k in entries && k !in rest && entries[k].meaningful
      invariant IsTop(keys, through)
      decreases |rest|
    {
      var key :| key in rest;
      rest := rest - {key};
      if entries[key].meaningful {
        keys := keys + {key};
        through := Max(through, key.sequenceNo);
      }
    }
  }

  /** The new payload, and for each key the decision this round took last. */
  method AddCoverage(p: Payload, segments: seq<Segment>, verdicts: seq<bool>)
    returns (r: Payload, decisions: map<Key, Entry>)
    requires |segments| == |verdicts|
    ensures var q := RecordAll(p, segments, verdicts, |segments|);
      && r.analyzed == q.analyzed && r.coveredThrough == q.coveredThrough && r.entries == q.entries
      && r.meaningful == MeaningfulKeys(q.entries) && IsTop(r.meaningful, r.meaningfulThrough)
      && decisions == (map k | k in UsableKeys(segments) && k in q.entries :: q.entries[k])
  {
    r := p.(analyzed := [], entries := map k | k in p.entries && k.sequenceNo > 0 :: p.entries[k]);
    for i := 0 to |p.analyzed|
      invariant r == Normalized(p, i)
    {
      var key := p.analyzed[i];
      if key.sequenceNo <= 0 || key in r.analyzed {
        continue;
      }
      r := r.(analyzed := r.analyzed + [key]);
      if key.sequenceNo > r.coveredThrough {
        r := r.(coveredThrough := key.sequenceNo);
      }
    }
    decisions := map[];
    for i := 0 to |segments|
      invariant r == RecordAll(p, segments, verdicts, i)
      invariant decisions.Keys == UsableKeys(segments[..i])
      invariant forall k :: k in decisions ==> k in r.entries && decisions[k] == r.entries[k]
    {
      assert segments[..i + 1] == segments[..i] + [segments[i]];
      if !Usable(segments[i]) {
        continue;
      }
      var key := KeyOf(segments[i]);
      var entry := Decide(r.entries, key, verdicts[i], Top(segments));
      r := Record(r, segments[i], verdicts[i], Top(segments));
      decisions := decisions[key := entry];
    }
    assert segments[..|segments|] == segments;
    var keys, through := CollectMeaningful(r.entries);
    r := r.(meaningful := keys, meaningfulThrough := through);
  }

  function UsableKeys(segments: seq<Segment>): set<Key> {
    set s | s in segments && Usable(s) :: KeyOf(s)
  }

  // -------------------------------------------------- what one pass keeps and adds

  ghost predicate UniqueKeys(keys: seq<Key>) {
    forall i, j :: 0 <= i < j < |keys| ==> keys[i] != keys[j]
  }

  function Occurrences(segments: seq<Segment>, key: Key): nat {
    if segments == [] then 0
    else
      var last := segments[|segments| - 1];
      Occurrences(segments[..|segments| - 1], key) + if Usable(last) && KeyOf(last) == key then 1 else 0
  }

  function Attempts(entries: map<Key, Entry>, key: Key): nat {
    if key in entries then entries[key].attempts else 0
  }

  lemma {:induction false} NormalizedFacts(p: Payload, n: nat)
    requires n <= |p.analyzed|
    ensures var r := Normalized(p, n);
      && UniqueKeys(r.analyzed)
      && (forall k :: k in r.analyzed <==> k in p.analyzed[..n] && k.sequenceNo > 0)
      && r.coveredThrough >= p.coveredThrough
      && (forall k :: k in r.analyzed ==> k.sequenceNo <= r.coveredThrough)
      && (r.coveredThrough == p.coveredThrough || exists k :: k in r.analyzed && k.sequenceNo == r.coveredThrough)
      && r.entries == (map k | k in p.entries && k.sequenceNo > 0 :: p.entries[k])
  {
    if n > 0 {
      NormalizedFacts(p, n - 1);
      assert p.analyzed[..n] == p.analyzed[..n - 1] + [p.analyzed[n - 1]];
    }
  }

  /** Analysed keys: unique, the old ones kept, and exactly this round's usable keys added. */
  lemma {:induction false} AnalyzedOnlyGrow(p: Payload, segments: seq<Segment>, verdicts: seq<bool>, n: nat)
    requires n <= |segments| == |verdicts|
    ensures var r := RecordAll(p, segments, verdicts, n);
      && UniqueKeys(r.analyzed)
      && (forall k :: k in r.analyzed <==> (k in p.analyzed && k.sequenceNo > 0) || k in UsableKeys(segments[..n]))
      && r.coveredThrough >= p.coveredThrough
      && (forall k :: k in r.analyzed ==> k.sequenceNo <= r.coveredThrough)
      && (r.coveredThrough == p.coveredThrough || exists k :: k in r.analyzed && k.sequenceNo == r.coveredThrough)
  {
    if n == 0 {
      NormalizedFacts(p, |p.analyzed|);
      assert p.analyzed[..|p.analyzed|] == p.analyzed;
    } else {
      AnalyzedOnlyGrow(p, segments, verdicts, n - 1);
      assert segments[..n] == segments[..n - 1] + [segments[n - 1]];
      var q := RecordAll(p, segments, verdicts, n - 1);
      var r := RecordAll(p, segments, verdicts, n);
      if r.coveredThrough == q.coveredThrough != p.coveredThrough {
        var k :| k in q.analyzed && k.sequenceNo == q.coveredThrough;
        assert k in r.analyzed;
      }
    }
  }

  /** Each occurrence of a key in a round costs it one attempt; other keys keep their entry. */
  lemma {:induction false} AttemptsCountOccurrences(p: Payload, segments: seq<Segment>, verdicts: seq<bool>, n: nat, key: Key)
    requires n <= |segments| == |verdicts| && key.sequenceNo > 0
    ensures var r := RecordAll(p, segments, verdicts, n);
      && (key in r.entries <==> key in p.entries || key in UsableKeys(segments[..n]))
      && Attempts(r.entries, key) == Attempts(p.entries, key) + Occurrences(segments[..n], key)
      && (key !in UsableKeys(segments[..n]) && key in p.entries ==> r.entries[key] == p.entries[key])
      && (key in UsableKeys(segments[..n]) ==>
            r.entries[key].retryEligible == (!r.entries[key].meaningful && r.entries[key].attempts < 2))
      && (key in UsableKeys(segments[..n]) && r.entries[key].retryEligible ==> r.entries[key].retryAfter == Top(segments))
  {
    if n == 0 {
      NormalizedFacts(p, |p.analyzed|);
    } else {
      AttemptsCountOccurrences(p, segments, verdicts, n - 1, key);
      assert segments[..n] == segments[..n - 1] + [segments[n - 1]];
      assert segments[..n][..n - 1] == segments[..n - 1];
    }
  }

  lemma {:induction false} EntriesArePositive(p: Payload, segments: seq<Segment>, verdicts: seq<bool>, n: nat)
    requires n <= |segments| == |verdicts|
    ensures forall k :: k in RecordAll(p, segments, verdicts, n).entries ==> k.sequenceNo > 0
  {
    if n > 0 {
      EntriesArePositive(p, segments, verdicts, n - 1);
    } else {
      NormalizedFacts(p, |p.analyzed|);
    }
  }

  /** Meaningfully covered keys are analysed keys, and end no later. */
  lemma MeaningfulIsAnalyzed(p: Payload, segments: seq<Segment>, verdicts: seq<bool>, through: int)
    requires |segments| == |verdicts| && forall k :: k in p.entries ==> k in p.analyzed
    requires p.coveredThrough >= 0
    ensures var r := RecordAll(p, segments, verdicts, |segments|);
      && (forall k :: k in MeaningfulKeys(r.entries) ==> k in r.analyzed)
      && (IsTop(MeaningfulKeys(r.entries), through) ==> through <= r.coveredThrough)
  {
    var r := RecordAll(p, segments, verdicts, |segments|);
    AnalyzedOnlyGrow(p, segments, verdicts, |segments|);
    EntriesArePositive(p, segments, verdicts, |segments|);
    assert segments[..|segments|] == segments;
    forall k | k in MeaningfulKeys(r.entries) ensures k in r.analyzed {
      AttemptsCountOccurrences(p, segments, verdicts, |segments|, k);
    }
  }

  // ------------------------------------------------------------ the pending queue

  datatype Deferred = Deferred(segment: Segment, retryAfter: int)

  function AppendPending(pending: seq<Segment>, s: Segment): seq<Segment> {
    if exists e :: e in pending && KeyOf(e) == KeyOf(s) then pending else pending + [s]
  }

  function AppendAll(pending: seq<Segment>, segments: seq<Segment>): seq<Segment> {
    if segments == [] then pending
    else AppendPending(AppendAll(pending, segments[..|segments| - 1]), segments[|segments| - 1])
  }

  /** The deferred segments whose retry a segment with this number releases. */
  function Released(deferred: seq<Deferred>, newSequenceNo: int): seq<Segment> {
    if deferred == [] then []
    else
      var last := deferred[|deferred| - 1];
      Released(deferred[..|deferred| - 1], newSequenceNo) + if newSequenceNo > last.retryAfter then [last.segment] else []
  }

  function DeferredFrom(segments: seq<Segment>, decisions: map<Key, Entry>): seq<Deferred> {
    if segments == [] then []
    else
      var last := segments[|segments| - 1];
      DeferredFrom(segments[..|segments| - 1], decisions) +
        if KeyOf(last) in decisions && decisions[KeyOf(last)].retryEligible
        then [Deferred(last, decisions[KeyOf(last)].retryAfter)] else []
  }

  function Without(pending: seq<Segment>, keys: set<Key>): seq<Segment> {
    if pending == [] then []
    else
      var last := pending[|pending| - 1];
      Without(pending[..|pending| - 1], keys) + if last.sequenceNo > 0 && KeyOf(last) in keys then [] else [last]
  }

  function PositiveKeys(segments: seq<Segment>): set<Key> {
    set s | s in segments && s.sequenceNo > 0 :: KeyOf(s)
  }

  predicate NotYetAnalyzed(p: Payload, highest: int, s: Segment) {
    || KeyOf(s) !in p.analyzed
    || (KeyOf(s) in p.entries && p.entries[KeyOf(s)].retryEligible && highest > p.entries[KeyOf(s)].retryAfter)
  }

  function HighestFinal(segments: seq<Segment>): (highest: int)
    ensures highest >= 0
  {
    if segments == [] then 0
    else
      var last := segments[|segments| - 1];
      if last.isFinal then Max(HighestFinal(segments[..|segments| - 1]), last.sequenceNo)
      else HighestFinal(segments[..|segments| - 1])
  }

  function Filtered(p: Payload, segments: seq<Segment>, highest: int): seq<Segment> {
    if segments == [] then []
    else
      var last := segments[|segments| - 1];
      Filtered(p, segments[..|segments| - 1], highest) + if NotYetAnalyzed(p, highest, last) then [last] else []
  }

  method FilterAlreadyAnalyzed(segments: seq<Segment>, p: Payload) returns (filtered: seq<Segment>)
    ensures filtered == Filtered(p, segments, HighestFinal(segments))
  {
    var highest := 0;
    for i := 0 to |segments|
      invariant highest == HighestFinal(segments[..i])
    {
      assert segments[..i + 1][..i] == segments[..i];
      if segments[i].isFinal && segments[i].sequenceNo > highest {
        highest := segments[i].sequenceNo;
      }
    }
    assert segments[..|segments|] == segments;
    filtered := [];
    for i := 0 to |segments|
      invariant filtered == Filtered(p, segments[..i], highest)
    {
      assert segments[..i + 1][..i] == segments[..i];
      if NotYetAnalyzed(p, highest, segments[i]) {
        filtered := filtered + [segments[i]];
      }
    }
  }

  /** The in-memory queue of a session; each method runs inside one critical section. */
  class LiveQueue {
    var pending: seq<Segment>
    var deferred: seq<Deferred>

    constructor ()
      ensures pending == [] && deferred == []
    {
      pending, deferred := [], [];
    }

    method Append(s: Segment)
      modifies this`pending
      ensures pending == AppendPending(old(pending), s)
    {
      for i := 0 to |pending|
        invariant pending == old(pending)
        invariant forall j :: 0 <= j < i ==> KeyOf(pending[j]) != KeyOf(s)
      {
        if KeyOf(pending[i]) == KeyOf(s) {
          return;
        }
      }
      pending := pending + [s];
    }

    method RequeueDeferred(newSequenceNo: int)
      modifies this`pending
      ensures pending == AppendAll(old(pending), Released(deferred, newSequenceNo))
    {
      for i := 0 to |deferred|
        invariant pending == AppendAll(old(pending), Released(deferred[..i], newSequenceNo))
      {
        assert deferred[..i + 1][..i] == deferred[..i];
        ghost var released := Released(deferred[..i], newSequenceNo);
        if newSequenceNo > deferred[i].retryAfter {
          Append(deferred[i].segment);
          assert (released + [deferred[i].segment])[..|released|] == released;
        } else {
          assert released + [] == released;
        }
      }
      assert deferred[..|deferred|] == deferred;
    }

    method Restore(segments: seq<Segment>)
      modifies this`pending
      ensures pending == AppendAll(old(pending), segments)
    {
      for i := 0 to |segments|
        invariant pending == AppendAll(old(pending), segments[..i])
      {
        assert segments[..i + 1][..i] == segments[..i];
        Append(segments[i]);
      }
      assert segments[..|segments|] == segments;
    }

    method Defer(segments: seq<Segment>, decisions: map<Key, Entry>)
      modifies this`deferred
      ensures deferred == DeferredFrom(segments, decisions)
    {
      deferred := [];
      for i := 0 to |segments|
        invariant deferred == DeferredFrom(segments[..i], decisions)
      {
        assert segments[..i + 1][..i] == segments[..i];
        var key := KeyOf(segments[i]);
        if key in decisions && decisions[key].retryEligible {
          deferred := deferred + [Deferred(segments[i], decisions[key].retryAfter)];
        }
      }
      assert segments[..|segments|] == segments;
    }

    method RemoveCovered(covered: seq<Segment>)
      modifies this`pending
      ensures pending == Without(old(pending), PositiveKeys(covered))
    {
      var keys := PositiveKeys(covered);
      var kept: seq<Segment> := [];
      for i := 0 to |pending|
        invariant pending == old(pending) && kept == Without(pending[..i], keys)
      {
        assert pending[..i + 1][..i] == pending[..i];
        if pending[i].sequenceNo <= 0 || KeyOf(pending[i]) !in keys {
          kept := kept + [pending[i]];
        }
      }
      assert pending[..|pending|] == pending;
      pending := kept;
    }
  }
}
