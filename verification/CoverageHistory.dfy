/**
  How often a segment is analysed, over every run of CoverageProtocol: what the row
  says of a key is what the stored rounds did with it, and a key is analysed again
  without need exactly when another round stored it behind a round's back.
 */
module CoverageHistory {
  import opened Options
  import opened Coverage
  import opened CoverageProtocol
  import Live = LiveRoundProtocol

  // ------------------------------------------------------ what was done with a key

  /** The stored analyses of a key: none, one with its verdict and the top of its round, or more. */
  datatype History = Never | Once(meaningful: bool, top: int) | More

  /** The verdict on the last usable segment with the key. */
  function VerdictOn(segments: seq<Segment>, verdicts: seq<bool>, n: nat, key: Key): bool
    requires n <= |segments| == |verdicts|
  {
    n > 0 && if Usable(segments[n - 1]) && KeyOf(segments[n - 1]) == key then verdicts[n - 1] else VerdictOn(segments, verdicts, n - 1, key)
  }

  function Verdict(content: Content, key: Key): bool {
    content.Analysed? && |content.segments| == |content.verdicts| && VerdictOn(content.segments, content.verdicts, |content.segments|, key)
  }

  function After(h: History, content: Content, key: Key): History {
    if !Covers(content, key) then h
    else if h.Never? then Once(Verdict(content, key), Top(content.segments))
    else More
  }

  /** What the first `at` writes did with the key. */
  function HistoryAt(contents: seq<Content>, at: nat, key: Key): History
    requires at <= |contents|
  {
    if at == 0 then Never else After(HistoryAt(contents, at - 1, key), contents[at - 1], key)
  }

  /** New, or analysed once without being reflected, with a number above that round's top available since. */
  predicate Due(h: History, available: int) {
    h.Never? || (h.Once? && !h.meaningful && h.top < available)
  }

  /** What a payload says of the key is what was done with it. */
  ghost predicate Agrees(p: Payload, h: History, key: Key) {
    && (key in p.analyzed <==> !h.Never?)
    && (key in p.entries <==> !h.Never?)
    && (h.Once? ==> p.entries[key].attempts == 1 && p.entries[key].meaningful == h.meaningful == !p.entries[key].retryEligible)
    && (h.Once? && !h.meaningful ==> p.entries[key].retryAfter == h.top)
    && (h.More? ==> p.entries[key].attempts >= 2 && !p.entries[key].retryEligible)
  }

  lemma AgreesOnDue(p: Payload, h: History, available: int, s: Segment)
    requires Agrees(p, h, KeyOf(s))
    ensures NotYetAnalyzed(p, available, s) <==> Due(h, available)
  {}

  lemma {:induction false} VerdictIsRecorded(p: Payload, segments: seq<Segment>, verdicts: seq<bool>, n: nat, key: Key)
    requires n <= |segments| == |verdicts| && key in UsableKeys(segments[..n])
    ensures var q := RecordAll(p, segments, verdicts, n);
      key in q.entries && q.entries[key].meaningful == VerdictOn(segments, verdicts, n, key)
  {
    assert segments[..n] == segments[..n - 1] + [segments[n - 1]];
    if !(Usable(segments[n - 1]) && KeyOf(segments[n - 1]) == key) {
      VerdictIsRecorded(p, segments, verdicts, n - 1, key);
    }
  }

  lemma {:induction false} DistinctOccurOnce(segments: seq<Segment>, key: Key)
    requires DistinctKeys(segments)
    ensures Occurrences(segments, key) == if key in UsableKeys(segments) then 1 else 0
  {
    if segments != [] {
      var front, last := segments[..|segments| - 1], segments[|segments| - 1];
      assert segments == front + [last];
      DistinctOccurOnce(front, key);
      assert KeyOf(last) == key ==> key !in UsableKeys(front);
    }
  }

  /** One stored round on top of a payload that agrees. */
  lemma RecordAgrees(p: Payload, h: History, content: Content, key: Key)
    requires content.Analysed? && DistinctKeys(content.segments) && |content.segments| == |content.verdicts|
    requires key.sequenceNo > 0 && Agrees(p, h, key)
    ensures Agrees(RecordAll(p, content.segments, content.verdicts, |content.segments|), After(h, content, key), key)
  {
    var segments, verdicts := content.segments, content.verdicts;
    assert segments[..|segments|] == segments;
    AttemptsCountOccurrences(p, segments, verdicts, |segments|, key);
    AnalyzedOnlyGrow(p, segments, verdicts, |segments|);
    DistinctOccurOnce(segments, key);
    if key in UsableKeys(segments) {
      VerdictIsRecorded(p, segments, verdicts, |segments|, key);
    }
  }

  // ------------------------------------------------- the row counts every stored round

  /** No projection was upserted below the stored version. */
  ghost predicate NeverLowered(log: seq<Live.Event>) {
    forall i :: 0 <= i < |log| && log[i].Projection? ==> Live.VersionAt(log, i) <= log[i].base
  }

  lemma VersionStep(log: seq<Live.Event>, i: nat)
    requires Live.LogOk(log) && NeverLowered(log) && i < |log|
    ensures Live.VersionAt(log, i) <= Live.VersionAt(log, i + 1)
    ensures Live.Swap(log[i]) ==> Live.VersionAt(log, i) < Live.VersionAt(log, i + 1)
  {
    Live.NextVersion(log, i);
  }

  lemma {:induction false} Rises(versions: seq<nat>, i: nat, j: nat)
    requires i <= j < |versions| && forall k :: 0 <= k < |versions| - 1 ==> versions[k] <= versions[k + 1]
    ensures versions[i] <= versions[j]
  {
    if i < j {
      Rises(versions, i, j - 1);
    }
  }

  lemma VersionsRise(log: seq<Live.Event>, i: nat, j: nat)
    requires Live.LogOk(log) && NeverLowered(log) && i <= j <= |log|
    ensures Live.VersionAt(log, i) <= Live.VersionAt(log, j)
  {
    var versions := seq(|log| + 1, k requires 0 <= k < |log| + 1 => Live.VersionAt(log, k));
    forall k | 0 <= k < |versions| - 1 ensures versions[k] <= versions[k + 1] {
      VersionStep(log, k);
    }
    Rises(versions, i, j);
  }

  lemma SwapRaises(log: seq<Live.Event>, i: nat, k: nat, j: nat)
    requires Live.LogOk(log) && NeverLowered(log) && i <= k < j <= |log| && Live.Swap(log[k])
    ensures Live.VersionAt(log, i) < Live.VersionAt(log, j)
  {
    VersionsRise(log, i, k);
    VersionStep(log, k);
    VersionsRise(log, k + 1, j);
  }

  lemma SameVersionNoSwap(log: seq<Live.Event>, i: nat, j: nat)
    requires Live.LogOk(log) && NeverLowered(log) && i <= j <= |log| && Live.VersionAt(log, i) >= Live.VersionAt(log, j)
    ensures !Live.AnySwap(log, i, j)
  {
    if Live.AnySwap(log, i, j) {
      var k :| i <= k < j && Live.Swap(log[k]);
      SwapRaises(log, i, k, j);
    }
  }

  lemma {:induction false} NothingStoredBetween(contents: seq<Content>, log: seq<Live.Event>, i: nat, j: nat, key: Key)
    requires Parallel(contents, log) && i <= j <= |log| && !Live.AnySwap(log, i, j)
    ensures HistoryAt(contents, i, key) == HistoryAt(contents, j, key)
  {
    if i < j {
      assert !Live.AnySwap(log, i, j - 1);
      NothingStoredBetween(contents, log, i, j - 1, key);
      assert !Live.Swap(log[j - 1]);
    }
  }

  /** A write is made from a content that had the version the row has: nothing was stored in between. */
  lemma MadeFromTheRow(contents: seq<Content>, log: seq<Live.Event>, i: nat, key: Key)
    requires Parallel(contents, log) && Live.LogOk(log) && NeverLowered(log) && i < |log|
    ensures log[i].from <= i && HistoryAt(contents, log[i].from, key) == HistoryAt(contents, i, key)
  {
    var from := log[i].from;
    assert Live.EventOk(log[..i], log[i]);
    assert log[..i][..from] == log[..from];
    SameVersionNoSwap(log, from, i);
    NothingStoredBetween(contents, log, from, i, key);
  }

  /** One more content, made from one that agrees with the history before it. */
  lemma NextContentAgrees(contents: seq<Content>, at: nat, key: Key)
    requires 0 < at <= |contents| && key.sequenceNo > 0 && contents[at - 1].from < at
    requires contents[at - 1].Analysed? ==>
      DistinctKeys(contents[at - 1].segments) && |contents[at - 1].segments| == |contents[at - 1].verdicts|
    requires Agrees(PayloadAt(contents, contents[at - 1].from), HistoryAt(contents, at - 1, key), key)
    ensures Agrees(PayloadAt(contents, at), HistoryAt(contents, at, key), key)
  {
    var content := contents[at - 1];
    if content.Analysed? {
      RecordAgrees(PayloadAt(contents, content.from), HistoryAt(contents, at - 1, key), content, key);
    }
  }

  /** Every write was made from a content with the same history of the key as the row had then. */
  ghost predicate FromTheRow(contents: seq<Content>, key: Key) {
    forall i :: 0 <= i < |contents| ==>
      contents[i].from <= i && HistoryAt(contents, contents[i].from, key) == HistoryAt(contents, i, key)
  }

  lemma {:induction false} ContentCounts(contents: seq<Content>, at: nat, key: Key)
    requires ContentsOk(contents) && FromTheRow(contents, key) && at <= |contents| && key.sequenceNo > 0
    ensures Agrees(PayloadAt(contents, at), HistoryAt(contents, at, key), key)
    decreases at
  {
    if at > 0 {
      ContentCounts(contents, contents[at - 1].from, key);
      NextContentAgrees(contents, at, key);
    }
  }

  /** As long as no projection lowers the stored version, every content the row had counts every round stored before. */
  lemma RowCountsStoredRounds(contents: seq<Content>, log: seq<Live.Event>, at: nat, key: Key)
    requires Parallel(contents, log) && ContentsOk(contents) && Live.LogOk(log) && NeverLowered(log)
    requires at <= |log| && key.sequenceNo > 0
    ensures Agrees(PayloadAt(contents, at), HistoryAt(contents, at, key), key)
  {
    forall i | 0 <= i < |contents|
      ensures contents[i].from <= i && HistoryAt(contents, contents[i].from, key) == HistoryAt(contents, i, key)
    {
      MadeFromTheRow(contents, log, i, key);
    }
    ContentCounts(contents, at, key);
  }

  // ------------------------------------------------------------------ what is on record

  ghost predicate DueAt(contents: seq<Content>, at: nat, key: Key, available: int) {
    at <= |contents| && Due(HistoryAt(contents, at, key), available)
  }

  ghost predicate DeferredDue(contents: seq<Content>, at: nat, key: Key, after: int) {
    at <= |contents| && HistoryAt(contents, at, key) == Once(false, after)
  }

  /** Whatever is queued was due when it was last checked, and no number was used that has not been seen. */
  ghost predicate QueueDue(q: Queue, contents: seq<Content>, key: Key) {
    && (key in Keys(q.pending) ==> DueAt(contents, SinceOf(q.since, key), key, q.available))
    && (forall d :: d in q.deferred && KeyOf(d.segment) == key ==> DeferredDue(contents, q.deferredSince, key, d.retryAfter))
  }

  ghost predicate Bounded(segments: seq<Segment>, available: int) {
    available >= 0 && forall s :: s in segments && s.isFinal ==> s.sequenceNo <= available
  }

  ghost predicate QueueBounded(q: Queue) {
    && Bounded(q.pending, q.available)
    && forall d :: d in q.deferred && d.segment.isFinal ==> d.segment.sequenceNo <= q.available
  }

  ghost predicate BatchDue(batch: Batch, contents: seq<Content>, available: int, key: Key) {
    && batch.available <= available && Bounded(batch.segments, batch.available)
    && (key in Keys(batch.segments) ==> CheckedAt(contents, SinceOf(batch.since, key), key, batch.available, batch.flush))
  }

  /** Due by the content of then; and for the flush list, never analysed by then. */
  ghost predicate CheckedAt(contents: seq<Content>, at: nat, key: Key, available: int, flush: bool) {
    DueAt(contents, at, key, available) && (flush ==> HistoryAt(contents, at, key).Never?)
  }

  /** Every stored analysis of the key was due when the key was last checked for its round. */
  ghost predicate ContentDue(contents: seq<Content>, i: nat, key: Key)
    requires i < |contents|
  {
    Covers(contents[i], key) ==>
      var since := SinceOf(contents[i].since, key);
      since <= i && CheckedAt(contents, since, key, contents[i].available, contents[i].flush)
  }

  ghost predicate OnRecord(s: State, key: Key) {
    && QueueDue(s.queue, s.contents, key) && QueueBounded(s.queue)
    && (forall r :: r in s.batches ==> BatchDue(s.batches[r], s.contents, s.queue.available, key))
    && (key in Keys(s.list) ==> s.listSince <= |s.contents| && HistoryAt(s.contents, s.listSince, key).Never?)
    && Bounded(s.list, s.queue.available)
    && (forall i :: 0 <= i < |s.contents| ==> ContentDue(s.contents, i, key))
  }

  lemma {:induction false} HistoryStays(contents: seq<Content>, content: Content, at: nat, key: Key)
    requires at <= |contents|
    ensures HistoryAt(contents + [content], at, key) == HistoryAt(contents, at, key)
  {
    if at > 0 {
      HistoryStays(contents, content, at - 1, key);
    }
  }

  lemma {:induction false} HighestIsBounded(segments: seq<Segment>, available: int)
    requires Bounded(segments, available)
    ensures HighestFinal(segments) <= available
  {
    if segments != [] {
      HighestIsBounded(segments[..|segments| - 1], available);
    }
  }

  lemma {:induction false} HighestBounds(segments: seq<Segment>)
    ensures Bounded(segments, HighestFinal(segments))
  {
    if segments != [] {
      HighestBounds(segments[..|segments| - 1]);
      assert segments == segments[..|segments| - 1] + [segments[|segments| - 1]];
    }
  }

  lemma {:induction false} FilteredFacts(p: Payload, segments: seq<Segment>, highest: int)
    ensures forall s :: s in Filtered(p, segments, highest) ==> s in segments && NotYetAnalyzed(p, highest, s)
  {
    if segments != [] {
      FilteredFacts(p, segments[..|segments| - 1], highest);
    }
  }

  lemma {:induction false} RecoverableFacts(running: seq<Segment>, segments: seq<Segment>)
    ensures forall s :: s in Recoverable(running, segments) ==> s in segments
  {
    if segments != [] {
      RecoverableFacts(running, segments[..|segments| - 1]);
    }
  }

  lemma {:induction false} ReleasedFacts(deferred: seq<Deferred>, newSequenceNo: int)
    ensures forall s :: s in Released(deferred, newSequenceNo) ==> exists d :: d in deferred && d.segment == s && newSequenceNo > d.retryAfter
  {
    if deferred != [] {
      var front, last := deferred[..|deferred| - 1], deferred[|deferred| - 1];
      ReleasedFacts(front, newSequenceNo);
      forall s | s in Released(deferred, newSequenceNo)
        ensures exists d :: d in deferred && d.segment == s && newSequenceNo > d.retryAfter
      {
        if s in Released(front, newSequenceNo) {
          var d :| d in front && d.segment == s && newSequenceNo > d.retryAfter;
          assert d in deferred;
        } else {
          assert last in deferred && last.segment == s;
        }
      }
    }
  }

  lemma {:induction false} DeferredFromFacts(segments: seq<Segment>, decisions: map<Key, Entry>)
    ensures forall d :: d in DeferredFrom(segments, decisions) ==>
      && d.segment in segments && KeyOf(d.segment) in decisions
      && decisions[KeyOf(d.segment)].retryEligible
      && decisions[KeyOf(d.segment)].retryAfter == d.retryAfter
  {
    if segments != [] {
      DeferredFromFacts(segments[..|segments| - 1], decisions);
    }
  }

  lemma {:induction false} AppendAllMembers(pending: seq<Segment>, more: seq<Segment>)
    ensures forall s :: s in AppendAll(pending, more) ==> s in pending || s in more
  {
    if more != [] {
      AppendAllMembers(pending, more[..|more| - 1]);
    }
  }

  // ----------------------------------------------------------------- the queue stays due

  lemma SeeKeeps(q: Queue, contents: seq<Content>, key: Key, n: int)
    requires QueueDue(q, contents, key) && QueueBounded(q)
    ensures QueueDue(See(q, n), contents, key) && QueueBounded(See(q, n)) && See(q, n).available >= n
  {}

  lemma PutKeeps(q: Queue, contents: seq<Content>, key: Key, segments: seq<Segment>, since: map<Key, nat>)
    requires DistinctKeys(q.pending) && QueueDue(q, contents, key) && QueueBounded(q) && Bounded(segments, q.available)
    requires key in Keys(segments) ==> DueAt(contents, SinceOf(since, key), key, q.available)
    ensures QueueDue(Put(q, segments, since), contents, key) && QueueBounded(Put(q, segments, since))
    ensures DistinctKeys(Put(q, segments, since).pending)
  {
    AppendAllDistinct(q.pending, segments);
    AppendAllMembers(q.pending, segments);
  }

  /** A key is only published while no round has stored it. */
  ghost predicate FreshDelivery(s: State, step: Step, key: Key) {
    step.Publish? && KeyOf(step.segment) == key ==> HistoryAt(s.contents, |s.contents|, key).Never?
  }

  lemma DeliverKeeps(q: Queue, contents: seq<Content>, key: Key, segment: Segment)
    requires DistinctKeys(q.pending) && QueueDue(q, contents, key) && QueueBounded(q)
    requires KeyOf(segment) == key ==> HistoryAt(contents, |contents|, key).Never?
    ensures QueueDue(Deliver(q, segment, |contents|), contents, key) && QueueBounded(Deliver(q, segment, |contents|))
  {
    var seen, released := See(q, segment.sequenceNo), Released(q.deferred, segment.sequenceNo);
    SeeKeeps(q, contents, key, segment.sequenceNo);
    ReleasedFacts(q.deferred, segment.sequenceNo);
    if key in Keys(released) {
      var s :| s in released && KeyOf(s) == key;
      var d :| d in q.deferred && d.segment == s && segment.sequenceNo > d.retryAfter;
      assert DeferredDue(contents, q.deferredSince, key, d.retryAfter);
    }
    PutKeeps(seen, contents, key, released, All(released, q.deferredSince));
    PutKeeps(Put(seen, released, All(released, q.deferredSince)), contents, key, [segment], All([segment], |contents|));
  }

  ghost predicate AllAgree(contents: seq<Content>, key: Key) {
    forall at :: 0 <= at <= |contents| ==> Agrees(PayloadAt(contents, at), HistoryAt(contents, at, key), key)
  }

  /** What a filter lets through of a key is due by the content it was checked against. */
  lemma FilterIsDue(contents: seq<Content>, key: Key, at: nat, segments: seq<Segment>, highest: int)
    requires AllAgree(contents, key) && at <= |contents| && key in Keys(Filtered(PayloadAt(contents, at), segments, highest))
    ensures DueAt(contents, at, key, highest)
  {
    FilteredFacts(PayloadAt(contents, at), segments, highest);
    var s :| s in Filtered(PayloadAt(contents, at), segments, highest) && KeyOf(s) == key;
    AgreesOnDue(PayloadAt(contents, at), HistoryAt(contents, at, key), highest, s);
  }

  lemma RecoverKeeps(s: State, key: Key, durable: seq<Segment>)
    requires Inv(s) && OnRecord(s, key) && AllAgree(s.contents, key)
    ensures QueueDue(Recovered(s, durable), s.contents, key) && QueueBounded(Recovered(s, durable))
  {
    var at, highest := s.control.memory.at, HighestFinal(durable);
    var filtered := Filtered(PayloadAt(s.contents, at), durable, highest);
    var segments := Recoverable(Running(s), filtered);
    SeeKeeps(s.queue, s.contents, key, highest);
    HighestBounds(durable);
    FilteredFacts(PayloadAt(s.contents, at), durable, highest);
    RecoverableFacts(Running(s), filtered);
    if key in Keys(segments) {
      FilterIsDue(s.contents, key, at, durable, highest);
    }
    PutKeeps(See(s.queue, highest), s.contents, key, segments, All(segments, at));
  }

  lemma GiveBackKeeps(s: State, key: Key, batch: Batch, current: Option<Live.Seen>)
    requires Inv(s) && OnRecord(s, key) && AllAgree(s.contents, key) && BatchDue(batch, s.contents, s.queue.available, key)
    requires current.Some? ==> current.value.at <= |s.contents|
    ensures QueueDue(GivenBack(s, batch, current), s.contents, key) && QueueBounded(GivenBack(s, batch, current))
  {
    if current.None? {
      PutKeeps(s.queue, s.contents, key, batch.segments, batch.since);
    } else {
      var at, highest := current.value.at, HighestFinal(batch.segments);
      var segments := Filtered(PayloadAt(s.contents, at), batch.segments, highest);
      HighestIsBounded(batch.segments, batch.available);
      FilteredFacts(PayloadAt(s.contents, at), batch.segments, highest);
      if key in Keys(segments) {
        FilterIsDue(s.contents, key, at, batch.segments, highest);
      }
      PutKeeps(s.queue, s.contents, key, segments, All(segments, at));
    }
  }

  lemma SettleKeeps(s: State, key: Key, batch: Batch)
    requires Inv(s) && OnRecord(s, key) && AllAgree(s.contents, key) && BatchDue(batch, s.contents, s.queue.available, key)
    requires batch.wrote <= |s.contents|
    ensures QueueDue(Settled(s, batch), s.contents, key) && QueueBounded(Settled(s, batch))
  {
    var q, settled := PayloadAt(s.contents, batch.wrote), Settled(s, batch);
    WithoutFacts(s.queue.pending, PositiveKeys(batch.segments));
    DeferredFromFacts(batch.segments, map k | k in UsableKeys(batch.segments) && k in q.entries :: q.entries[k]);
    assert Agrees(q, HistoryAt(s.contents, batch.wrote, key), key);
    forall d | d in settled.deferred && KeyOf(d.segment) == key ensures DeferredDue(s.contents, batch.wrote, key, d.retryAfter) {}
  }

  // --------------------------------------------------------- every step keeps the record

  /** The contents after a step: the same, or one more. */
  ghost predicate Grows(contents: seq<Content>, more: seq<Content>) {
    more == contents || (|more| == |contents| + 1 && more == contents + [more[|contents|]])
  }

  lemma QueueStaysDue(q: Queue, contents: seq<Content>, more: seq<Content>, key: Key)
    requires Grows(contents, more) && QueueDue(q, contents, key)
    ensures QueueDue(q, more, key)
  {
    if more != contents {
      HistoryStaysAnywhere(contents, more[|contents|], key);
    }
  }

  lemma BatchStaysDue(batch: Batch, contents: seq<Content>, more: seq<Content>, available: int, later: int, key: Key)
    requires Grows(contents, more) && BatchDue(batch, contents, available, key) && available <= later
    ensures BatchDue(batch, more, later, key)
  {
    if more != contents {
      HistoryStaysAnywhere(contents, more[|contents|], key);
    }
  }

  lemma HistoryStaysAnywhere(contents: seq<Content>, content: Content, key: Key)
    ensures forall at :: 0 <= at <= |contents| ==> HistoryAt(contents + [content], at, key) == HistoryAt(contents, at, key)
  {
    forall at | 0 <= at <= |contents| ensures HistoryAt(contents + [content], at, key) == HistoryAt(contents, at, key) {
      HistoryStays(contents, content, at, key);
    }
  }

  lemma ContentsStayDue(contents: seq<Content>, more: seq<Content>, key: Key)
    requires Grows(contents, more) && forall i :: 0 <= i < |contents| ==> ContentDue(contents, i, key)
    requires more != contents ==> ContentDue(more, |contents|, key)
    ensures forall i :: 0 <= i < |more| ==> ContentDue(more, i, key)
  {
    if more != contents {
      HistoryStaysAnywhere(contents, more[|contents|], key);
      forall i | 0 <= i < |contents| ensures ContentDue(more, i, key) {
        assert ContentDue(contents, i, key) && more[i] == contents[i];
      }
    }
  }

  lemma RoundQueueKeeps(s: State, r: nat, k: Live.RoundStep, key: Key)
    requires Inv(s) && OnRecord(s, key) && AllAgree(s.contents, key) && Live.RoundEnabled(s.control, r, k) && r in s.batches
    ensures var q := NextQueue(s, Live.RoundTakes(r, k)); QueueDue(q, s.contents, key) && QueueBounded(q)
  {
    var batch, pc := s.batches[r], s.control.rounds[r].pc;
    assert BatchDue(batch, s.contents, s.queue.available, key);
    PutKeeps(s.queue, s.contents, key, batch.segments, batch.since);
    if k == Live.Release {
      assert Live.RoundSeens(s.control.log, s.control.rounds[r]);
      GiveBackKeeps(s, key, batch, pc.current);
    } else if k == Live.Complete {
      SettleKeeps(s, key, batch);
    }
  }

  lemma NextQueueKeeps(s: State, k: Live.Step, key: Key)
    requires Inv(s) && OnRecord(s, key) && AllAgree(s.contents, key) && Live.Enabled(s.control, k)
    ensures QueueDue(NextQueue(s, k), s.contents, key) && QueueBounded(NextQueue(s, k))
    ensures NextQueue(s, k).available == s.queue.available
  {
    if k.RoundTakes? && k.r in s.batches {
      RoundQueueKeeps(s, k.r, k.roundStep, key);
    }
  }

  /** A freshly sealed batch takes its record from the queue or from the flush list. */
  lemma SealedIsDue(s: State, k: Live.Step, key: Key, r: nat)
    requires OnRecord(s, key) && r in NextBatches(s, k)
    ensures BatchDue(NextBatches(s, k)[r], s.contents, s.queue.available, key)
  {
    if r in s.batches {
      assert BatchDue(s.batches[r], s.contents, s.queue.available, key);
    }
    if k == Live.Dispatch {
      QueueMakesBatch(s, key);
    } else if k == Live.FinalizerTakes(Live.FlushBegin) {
      ListMakesBatch(s, key);
    }
  }

  lemma QueueMakesBatch(s: State, key: Key)
    requires OnRecord(s, key)
    ensures BatchDue(Batch(s.queue.pending, s.queue.available, s.queue.since, false, 0), s.contents, s.queue.available, key)
  {}

  lemma ListMakesBatch(s: State, key: Key)
    requires OnRecord(s, key)
    ensures BatchDue(Batch(s.list, s.queue.available, All(s.list, s.listSince), true, 0), s.contents, s.queue.available, key)
  {}

  /** What a round stores is on record as its batch was. */
  lemma StoredIsDue(s: State, k: Live.Step, verdicts: seq<bool>, durable: seq<Segment>, key: Key)
    requires Inv(s) && OnRecord(s, key) && Enabled(s, Protocol(k, verdicts, durable))
    ensures var t := Follow(s, k, verdicts);
      Grows(s.contents, t.contents) && (t.contents != s.contents ==> ContentDue(t.contents, |s.contents|, key))
  {
    var log := Live.Apply(s.control, k).log;
    if |log| == |s.control.log| + 1 {
      AppendedIsDue(s, log[|s.control.log|], verdicts, key);
    }
  }

  lemma AppendedIsDue(s: State, e: Live.Event, verdicts: seq<bool>, key: Key)
    requires OnRecord(s, key)
    ensures ContentDue(s.contents + [ContentOf(s, e, verdicts)], |s.contents|, key)
  {
    var content := ContentOf(s, e, verdicts);
    if Covers(content, key) {
      BatchIsContent(s, e, verdicts, key);
    }
    HistoryStaysAnywhere(s.contents, content, key);
  }

  lemma BatchIsContent(s: State, e: Live.Event, verdicts: seq<bool>, key: Key)
    requires OnRecord(s, key) && Covers(ContentOf(s, e, verdicts), key)
    ensures var content := ContentOf(s, e, verdicts);
      CheckedAt(s.contents, SinceOf(content.since, key), key, content.available, content.flush)
  {
    assert BatchDue(s.batches[e.round], s.contents, s.queue.available, key);
  }

  lemma PlanKeeps(s: State, at: nat, durable: seq<Segment>, key: Key)
    requires OnRecord(s, key) && at <= |s.contents| && DistinctKeys(durable)
    requires Agrees(PayloadAt(s.contents, at), HistoryAt(s.contents, at, key), key)
    ensures OnRecord(Plan(s, at, durable), key)
  {
    var t := Plan(s, at, durable);
    SeeKeeps(s.queue, s.contents, key, HighestFinal(durable));
    ListedExactlyWhen(PayloadAt(s.contents, at), durable);
    HighestBounds(durable);
    forall r | r in t.batches ensures BatchDue(t.batches[r], t.contents, t.queue.available, key) {
      assert BatchDue(s.batches[r], s.contents, s.queue.available, key);
    }
  }

  lemma FollowKeepsRecord(s: State, k: Live.Step, verdicts: seq<bool>, durable: seq<Segment>, key: Key)
    requires Inv(s) && OnRecord(s, key) && AllAgree(s.contents, key) && Enabled(s, Protocol(k, verdicts, durable))
    ensures OnRecord(Follow(s, k, verdicts), key) && Grows(s.contents, Follow(s, k, verdicts).contents)
  {
    var t := Follow(s, k, verdicts);
    StoredIsDue(s, k, verdicts, durable, key);
    NextQueueKeeps(s, k, key);
    QueueStaysDue(t.queue, s.contents, t.contents, key);
    ContentsStayDue(s.contents, t.contents, key);
    BatchesStayDue(s, k, t.contents, key);
    if t.contents != s.contents {
      HistoryStaysAnywhere(s.contents, t.contents[|s.contents|], key);
    }
  }

  lemma BatchesStayDue(s: State, k: Live.Step, more: seq<Content>, key: Key)
    requires Inv(s) && OnRecord(s, key) && Live.Enabled(s.control, k) && Grows(s.contents, more)
    ensures forall r :: r in NextBatches(s, k) ==> BatchDue(NextBatches(s, k)[r], more, s.queue.available, key)
  {
    forall r | r in NextBatches(s, k) ensures BatchDue(NextBatches(s, k)[r], more, s.queue.available, key) {
      SealedIsDue(s, k, key, r);
      BatchStaysDue(NextBatches(s, k)[r], s.contents, more, s.queue.available, s.queue.available, key);
    }
  }

  lemma TakeKeepsRecord(s: State, k: Live.Step, verdicts: seq<bool>, durable: seq<Segment>, key: Key)
    requires Inv(s) && OnRecord(s, key) && AllAgree(s.contents, key) && Enabled(s, Protocol(k, verdicts, durable))
    ensures OnRecord(Take(s, k, verdicts, durable), key)
  {
    FollowKeepsRecord(s, k, verdicts, durable, key);
    if Plans(s, k) {
      SnapshotIsHeld(s.control, k);
      PlanKeeps(Follow(s, k, verdicts), Live.Apply(s.control, k).finalizer.snapshot.at, durable, key);
    }
  }

  lemma SnapshotIsHeld(c: Live.State, k: Live.Step)
    requires Live.Inv(c) && Live.Enabled(c, k) && k == Live.FinalizerTakes(Live.AdoptSnapshot)
    ensures Live.Apply(c, k).log == c.log && Live.Apply(c, k).finalizer.snapshot.at <= |c.log|
  {
    Live.StepKeepsInv(c, k);
  }

  lemma StepKeepsRecord(s: State, step: Step, key: Key)
    requires Inv(s) && OnRecord(s, key) && AllAgree(s.contents, key) && Enabled(s, step) && FreshDelivery(s, step, key)
    ensures OnRecord(Apply(s, step), key)
  {
    match step {
      case Publish(segment) =>
        DeliverKeeps(s.queue, s.contents, key, segment);
        OtherQueueKeeps(s, Deliver(s.queue, segment, |s.contents|), key);
      case Recover(durable) =>
        RecoverKeeps(s, key, durable);
        OtherQueueKeeps(s, Recovered(s, durable), key);
      case Protocol(k, verdicts, durable) => TakeKeepsRecord(s, k, verdicts, durable, key);
    }
  }

  lemma OtherQueueKeeps(s: State, q: Queue, key: Key)
    requires OnRecord(s, key) && QueueDue(q, s.contents, key) && QueueBounded(q) && q.available >= s.queue.available
    ensures OnRecord(s.(queue := q), key)
  {
    forall r | r in s.batches ensures BatchDue(s.batches[r], s.contents, q.available, key) {
      assert BatchDue(s.batches[r], s.contents, s.queue.available, key);
    }
  }

  // ------------------------------------------------------------------- over whole runs

  /** No step of the run publishes the key once a round has stored it. */
  ghost predicate FreshRun(s: State, steps: seq<Step>, key: Key)
    requires Exec(s, steps).Some?
    decreases |steps|
  {
    steps == [] || (FreshDelivery(s, steps[0], key) && FreshRun(Apply(s, steps[0]), steps[1..], key))
  }

  lemma StepLogGrows(s: State, step: Step)
    requires Inv(s) && Enabled(s, step)
    ensures Live.Beyond(s.control.log, Apply(s, step).control.log, false)
  {
    if step.Protocol? {
      Live.StepExtends(s.control, step.step);
    }
  }

  lemma {:induction false} LogGrows(s: State, steps: seq<Step>)
    requires Inv(s) && Exec(s, steps).Some?
    ensures Live.Beyond(s.control.log, Exec(s, steps).value.control.log, false)
    decreases |steps|
  {
    if steps != [] {
      StepLogGrows(s, steps[0]);
      StepKeepsInv(s, steps[0]);
      LogGrows(Apply(s, steps[0]), steps[1..]);
      Live.BeyondTwice(s.control.log, Apply(s, steps[0]).control.log, Exec(s, steps).value.control.log, false);
    }
  }

  lemma NeverLoweredBefore(log: seq<Live.Event>, more: seq<Live.Event>)
    requires Live.Beyond(log, more, false) && NeverLowered(more)
    ensures NeverLowered(log)
  {
    forall i | 0 <= i < |log| && log[i].Projection? ensures Live.VersionAt(log, i) <= log[i].base {
      assert more[..|log|][i] == more[i] && more[..i] == log[..i];
    }
  }

  lemma ContentsAgree(s: State, key: Key)
    requires Inv(s) && NeverLowered(s.control.log) && key.sequenceNo > 0
    ensures AllAgree(s.contents, key)
  {
    forall at | 0 <= at <= |s.contents| ensures Agrees(PayloadAt(s.contents, at), HistoryAt(s.contents, at, key), key) {
      RowCountsStoredRounds(s.contents, s.control.log, at, key);
    }
  }

  lemma {:induction false} RunKeepsRecord(s: State, steps: seq<Step>, key: Key)
    requires Inv(s) && OnRecord(s, key) && key.sequenceNo > 0 && Exec(s, steps).Some? && FreshRun(s, steps, key)
    requires NeverLowered(Exec(s, steps).value.control.log)
    ensures OnRecord(Exec(s, steps).value, key)
    decreases |steps|
  {
    if steps != [] {
      LogGrows(s, steps);
      NeverLoweredBefore(s.control.log, Exec(s, steps).value.control.log);
      ContentsAgree(s, key);
      StepKeepsRecord(s, steps[0], key);
      StepKeepsInv(s, steps[0]);
      RunKeepsRecord(Apply(s, steps[0]), steps[1..], key);
    }
  }

  // ------------------------------------------------------------------- main results

  /** Each stored analysis of the key was its first, or the one retry it was due. */
  ghost predicate EveryAnalysisDue(contents: seq<Content>, key: Key) {
    forall i :: 0 <= i < |contents| && Covers(contents[i], key) ==> Due(HistoryAt(contents, i, key), contents[i].available)
  }

  /** Write `j` stored the key behind the back of the round that stored it with write `i`. */
  ghost predicate Overtakes(contents: seq<Content>, j: nat, i: nat, key: Key)
    requires j < i < |contents|
  {
    contents[i].Analysed? && SinceOf(contents[i].since, key) <= j && Covers(contents[j], key)
  }

  /** That was the key's first analysis and its only one, not reflected, and a number above its top was available. */
  ghost predicate Harmless(contents: seq<Content>, j: nat, i: nat, key: Key)
    requires j < i < |contents|
  {
    && !Verdict(contents[j], key) && contents[j].Analysed? && contents[i].Analysed?
    && Top(contents[j].segments) < contents[i].available
    && forall m :: 0 <= m < i && m != j ==> !Covers(contents[m], key)
  }

  ghost predicate Overtaken(contents: seq<Content>, i: nat, key: Key)
    requires i < |contents|
  {
    exists j :: 0 <= j < i && Overtakes(contents, j, i, key) && !Harmless(contents, j, i, key)
  }

  lemma {:induction false} NoneBetween(contents: seq<Content>, i: nat, j: nat, key: Key)
    requires i <= j <= |contents| && forall m :: i <= m < j ==> !Covers(contents[m], key)
    ensures HistoryAt(contents, i, key) == HistoryAt(contents, j, key)
  {
    if i < j {
      NoneBetween(contents, i, j - 1, key);
    }
  }

  /** A history of one analysis comes from the one write that stored it. */
  lemma {:induction false} OnceIsOne(contents: seq<Content>, at: nat, j: nat, key: Key)
    requires j < at <= |contents| && Covers(contents[j], key)
    ensures !HistoryAt(contents, at, key).Never?
    ensures HistoryAt(contents, at, key).Once? <==> forall m :: 0 <= m < at && m != j ==> !Covers(contents[m], key)
    ensures HistoryAt(contents, at, key).Once? ==>
      HistoryAt(contents, at, key) == Once(Verdict(contents[j], key), Top(contents[j].segments))
  {
    if at == j + 1 {
      if HistoryAt(contents, j, key).Never? {
        NeverIsNone(contents, j, key);
      } else if forall m :: 0 <= m < j ==> !Covers(contents[m], key) {
        NoneBetween(contents, 0, j, key);
      }
    } else {
      OnceIsOne(contents, at - 1, j, key);
    }
  }

  lemma {:induction false} NeverIsNone(contents: seq<Content>, at: nat, key: Key)
    requires at <= |contents| && HistoryAt(contents, at, key).Never?
    ensures forall m :: 0 <= m < at ==> !Covers(contents[m], key)
  {
    if at > 0 {
      NeverIsNone(contents, at - 1, key);
    }
  }

  /** One stored analysis was due exactly when no other round stored the key behind its back, to any harm. */
  lemma DueUnlessOvertaken(contents: seq<Content>, i: nat, key: Key)
    requires i < |contents| && Covers(contents[i], key) && ContentDue(contents, i, key)
    ensures Due(HistoryAt(contents, i, key), contents[i].available) <==> !Overtaken(contents, i, key)
  {
    var since := SinceOf(contents[i].since, key);
    if j :| since <= j < i && Covers(contents[j], key) {
      assert Overtakes(contents, j, i, key);
      OnceIsOne(contents, i, j, key);
      if Harmless(contents, j, i, key) {
        forall m | 0 <= m < i && Overtakes(contents, m, i, key) ensures m == j {}
      }
    } else {
      NoneBetween(contents, since, i, key);
    }
  }

  /**
    Over every run that never publishes a key again once it is stored, and in which
    no projection lowers the stored version: every stored analysis of the key is its
    first or its one due retry, exactly when no round stores it while another
    round holds it from an earlier check.
   */
  lemma EveryAnalysisDueExactlyWhen(steps: seq<Step>, key: Key)
    requires Exec(INIT, steps).Some? && key.sequenceNo > 0 && FreshRun(INIT, steps, key)
    requires NeverLowered(Exec(INIT, steps).value.control.log)
    ensures var contents := Exec(INIT, steps).value.contents;
      EveryAnalysisDue(contents, key) <==>
      forall i :: 0 <= i < |contents| && Covers(contents[i], key) ==> !Overtaken(contents, i, key)
  {
    RecordedFromTheStart(steps, key);
    DueExactlyWhen(Exec(INIT, steps).value.contents, key);
  }

  ghost predicate AllDue(contents: seq<Content>, key: Key) {
    forall i :: 0 <= i < |contents| ==> ContentDue(contents, i, key)
  }

  lemma RecordedFromTheStart(steps: seq<Step>, key: Key)
    requires Exec(INIT, steps).Some? && key.sequenceNo > 0 && FreshRun(INIT, steps, key)
    requires NeverLowered(Exec(INIT, steps).value.control.log)
    ensures AllDue(Exec(INIT, steps).value.contents, key)
  {
    RunKeepsRecord(INIT, steps, key);
  }

  lemma DueExactlyWhen(contents: seq<Content>, key: Key)
    requires AllDue(contents, key)
    ensures EveryAnalysisDue(contents, key) <==>
      forall i :: 0 <= i < |contents| && Covers(contents[i], key) ==> !Overtaken(contents, i, key)
  {
    forall i | 0 <= i < |contents| && Covers(contents[i], key)
      ensures Due(HistoryAt(contents, i, key), contents[i].available) <==> !Overtaken(contents, i, key)
    {
      assert ContentDue(contents, i, key);
      DueUnlessOvertaken(contents, i, key);
    }
  }

  /** Then it is analysed at most twice, the second time only once a number above the first round's top was available. */
  lemma DueMeansAtMostTwice(contents: seq<Content>, key: Key, i: nat, j: nat, m: nat)
    requires EveryAnalysisDue(contents, key) && i < j < |contents| && m < j && m != i
    requires Covers(contents[i], key) && Covers(contents[j], key)
    ensures contents[j].available > Top(contents[i].segments) && !Verdict(contents[i], key) && !Covers(contents[m], key)
  {
    OnceIsOne(contents, j, i, key);
  }

  /**
    The flush analyses a key of its list for the first time exactly when no other
    round stored the key between the content the list was made from and the
    flush's own store.
   */
  lemma FlushIsFirstExactlyWhen(steps: seq<Step>, key: Key, i: nat)
    requires Exec(INIT, steps).Some? && key.sequenceNo > 0 && FreshRun(INIT, steps, key)
    requires NeverLowered(Exec(INIT, steps).value.control.log)
    requires i < |Exec(INIT, steps).value.contents|
    requires Covers(Exec(INIT, steps).value.contents[i], key) && Exec(INIT, steps).value.contents[i].flush
    ensures var contents := Exec(INIT, steps).value.contents;
      HistoryAt(contents, i, key).Never? <==>
      forall j :: SinceOf(contents[i].since, key) <= j < i ==> !Covers(contents[j], key)
  {
    RecordedFromTheStart(steps, key);
    FlushedIsFirstExactlyWhen(Exec(INIT, steps).value.contents, key, i);
  }

  lemma FlushedIsFirstExactlyWhen(contents: seq<Content>, key: Key, i: nat)
    requires AllDue(contents, key) && i < |contents| && Covers(contents[i], key) && contents[i].flush
    ensures HistoryAt(contents, i, key).Never? <==>
      forall j :: SinceOf(contents[i].since, key) <= j < i ==> !Covers(contents[j], key)
  {
    var since := SinceOf(contents[i].since, key);
    assert ContentDue(contents, i, key);
    if HistoryAt(contents, i, key).Never? {
      NeverIsNone(contents, i, key);
    }
    if forall j :: since <= j < i ==> !Covers(contents[j], key) {
      NoneBetween(contents, since, i, key);
    }
  }

  // ------------------------------------------------------------ what the row covers

  /** What any payload made in a run holds together. */
  ghost predicate Sound(p: Payload) {
    && UniqueKeys(p.analyzed) && p.coveredThrough >= 0
    && (forall k :: k in p.analyzed <==> k in p.entries)
    && (forall k :: k in p.entries ==> 0 < k.sequenceNo <= p.coveredThrough)
    && (p.coveredThrough == 0 || exists k :: k in p.analyzed && k.sequenceNo == p.coveredThrough)
  }

  lemma RecordIsSound(p: Payload, segments: seq<Segment>, verdicts: seq<bool>)
    requires Sound(p) && |segments| == |verdicts|
    ensures Sound(RecordAll(p, segments, verdicts, |segments|))
  {
    var q := RecordAll(p, segments, verdicts, |segments|);
    assert segments[..|segments|] == segments;
    AnalyzedOnlyGrow(p, segments, verdicts, |segments|);
    EntriesArePositive(p, segments, verdicts, |segments|);
    forall k: Key | k.sequenceNo > 0 ensures k in q.entries <==> k in p.entries || k in UsableKeys(segments) {
      AttemptsCountOccurrences(p, segments, verdicts, |segments|, k);
    }
    if q.coveredThrough == p.coveredThrough > 0 {
      var k :| k in p.analyzed && k.sequenceNo == p.coveredThrough;
      assert k in q.analyzed;
    }
  }

  /** Every content of the row, in any sequence of writes, is sound. */
  lemma {:induction false} PayloadIsSound(contents: seq<Content>, at: nat)
    ensures Sound(PayloadAt(contents, at))
    decreases at
  {
    if 0 < at <= |contents| && contents[at - 1].from < at {
      var content := contents[at - 1];
      PayloadIsSound(contents, content.from);
      if content.Analysed? && |content.segments| == |content.verdicts| {
        RecordIsSound(PayloadAt(contents, content.from), content.segments, content.verdicts);
      }
    }
  }

  /** Whatever is meaningfully covered is analysed, and reaches no further, in every content of the row over every run. */
  lemma MeaningfulWithinCovered(steps: seq<Step>, at: nat, through: int)
    requires Exec(INIT, steps).Some? && at <= |Exec(INIT, steps).value.contents|
    ensures var p := PayloadAt(Exec(INIT, steps).value.contents, at);
      && Sound(p) && (forall k :: k in MeaningfulKeys(p.entries) ==> k in p.analyzed)
      && (IsTop(MeaningfulKeys(p.entries), through) ==> through <= p.coveredThrough)
  {
    PayloadIsSound(Exec(INIT, steps).value.contents, at);
  }

  function RowPayload(s: State): Payload {
    PayloadAt(s.contents, |s.contents|)
  }

  ghost predicate Extended(p: Payload, q: Payload) {
    (forall k :: k in p.analyzed ==> k in q.analyzed) && p.coveredThrough <= q.coveredThrough
  }

  lemma MoreKeysCoverFurther(p: Payload, q: Payload)
    requires Sound(p) && Sound(q) && forall k :: k in p.analyzed ==> k in q.analyzed
    ensures Extended(p, q)
  {
    if p.coveredThrough > 0 {
      var k :| k in p.analyzed && k.sequenceNo == p.coveredThrough;
      assert k in q.entries;
    }
  }

  lemma {:induction false} HistoryGrows(contents: seq<Content>, i: nat, j: nat, key: Key)
    requires i <= j <= |contents| && !HistoryAt(contents, i, key).Never?
    ensures !HistoryAt(contents, j, key).Never?
  {
    if i < j {
      HistoryGrows(contents, i, j - 1, key);
    }
  }

  /** As long as no projection lowers the stored version, what the row covers only grows. */
  lemma CoverageOnlyGrows(s: State, step: Step)
    requires Reachable(s) && Enabled(s, step) && NeverLowered(Apply(s, step).control.log)
    ensures Extended(RowPayload(s), RowPayload(Apply(s, step)))
  {
    ReachableInv(s);
    StepCoversMore(s, step);
  }

  lemma StepCoversMore(s: State, step: Step)
    requires Inv(s) && Enabled(s, step) && NeverLowered(Apply(s, step).control.log)
    ensures Extended(RowPayload(s), RowPayload(Apply(s, step)))
  {
    var t := Apply(s, step);
    StepKeepsInv(s, step);
    StepLogGrows(s, step);
    NeverLoweredBefore(s.control.log, t.control.log);
    PayloadIsSound(s.contents, |s.contents|);
    PayloadIsSound(t.contents, |t.contents|);
    StepContentsGrow(s, step);
    forall k | k in RowPayload(s).analyzed ensures k in RowPayload(t).analyzed {
      assert k in RowPayload(s).entries;
      ContentsAgree(s, k);
      ContentsAgree(t, k);
      RowHistoryGrows(s.contents, t.contents, k);
    }
    MoreKeysCoverFurther(RowPayload(s), RowPayload(t));
  }

  lemma StepContentsGrow(s: State, step: Step)
    requires Inv(s) && Enabled(s, step)
    ensures Grows(s.contents, Apply(s, step).contents)
  {}

  lemma RowHistoryGrows(contents: seq<Content>, more: seq<Content>, key: Key)
    requires Grows(contents, more) && !HistoryAt(contents, |contents|, key).Never?
    ensures !HistoryAt(more, |more|, key).Never?
  {
    if more != contents {
      HistoryStays(contents, more[|contents|], |contents|, key);
    }
  }

  /**
    What a finalized projection takes from the row, as the first one to lower the
    stored version: exactly the keys first stored after its snapshot was the row.
   */
  lemma ProjectionLosesExactly(s: State, verdicts: seq<bool>, durable: seq<Segment>, key: Key)
    requires Reachable(s) && NeverLowered(s.control.log) && key.sequenceNo > 0
    requires Enabled(s, Protocol(Live.FinalizerTakes(Live.StoreProjection), verdicts, durable))
    ensures var t := Apply(s, Protocol(Live.FinalizerTakes(Live.StoreProjection), verdicts, durable));
      var at := s.control.finalizer.snapshot.at;
      && at <= |s.contents|
      && (key in RowPayload(s).analyzed && key !in RowPayload(t).analyzed <==>
            HistoryAt(s.contents, at, key).Never? && exists j :: at <= j < |s.contents| && Covers(s.contents[j], key))
  {
    ReachableInv(s);
    ContentsAgree(s, key);
    ProjectionContents(s, verdicts, durable);
    PutBackLosesExactly(s.contents, s.control.finalizer.snapshot.at, key);
  }

  /** Putting an earlier content back loses exactly the keys first stored since. */
  lemma PutBackLosesExactly(contents: seq<Content>, at: nat, key: Key)
    requires at <= |contents| && AllAgree(contents, key)
    ensures key in PayloadAt(contents, |contents|).analyzed && key !in PayloadAt(contents + [Kept(at)], |contents| + 1).analyzed <==>
      HistoryAt(contents, at, key).Never? && exists j :: at <= j < |contents| && Covers(contents[j], key)
  {
    PayloadStays(contents, Kept(at), at);
    assert PayloadAt(contents + [Kept(at)], |contents| + 1) == PayloadAt(contents, at);
    assert Agrees(PayloadAt(contents, |contents|), HistoryAt(contents, |contents|, key), key);
    assert Agrees(PayloadAt(contents, at), HistoryAt(contents, at, key), key);
    if j :| at <= j < |contents| && Covers(contents[j], key) {
      OnceIsOne(contents, |contents|, j, key);
    } else {
      NoneBetween(contents, at, |contents|, key);
    }
  }

  /** The flush list a finalization fixes, from the content it chose. */
  lemma PlannedList(s: State, durable: seq<Segment>)
    requires Enabled(s, PlanStep(durable)) && Plans(s, PlanStep(durable).step)
    ensures Apply(s, PlanStep(durable)).list == Unanalyzed(PayloadAt(s.contents, Live.Chosen(s.control.finalizer).at), durable)
  {
    assert NextContents(s, s.control.log, []) == s.contents;
  }

  function PlanStep(durable: seq<Segment>): Step {
    Protocol(Live.FinalizerTakes(Live.AdoptSnapshot), [], durable)
  }

  /**
    After a projection put an earlier content back, the flush of a retry that takes
    the row as its snapshot repeats exactly the keys that were lost: those first
    stored after that content was the row.
   */
  lemma RetryFlushRepeatsExactly(s: State, verdicts: seq<bool>, none: seq<Segment>, rest: seq<Step>, durable: seq<Segment>, key: Key)
    requires Reachable(s) && NeverLowered(s.control.log) && key.sequenceNo > 0
    requires Enabled(s, Protocol(Live.FinalizerTakes(Live.StoreProjection), verdicts, none))
    requires var t := Apply(s, Protocol(Live.FinalizerTakes(Live.StoreProjection), verdicts, none));
      var u := Exec(t, rest);
      && u.Some? && u.value.contents == t.contents
      && Enabled(u.value, PlanStep(durable)) && Plans(u.value, PlanStep(durable).step)
      && Live.Chosen(u.value.control.finalizer).at == |t.contents|
    ensures var t := Apply(s, Protocol(Live.FinalizerTakes(Live.StoreProjection), verdicts, none));
      var list, at := Apply(Exec(t, rest).value, PlanStep(durable)).list, s.control.finalizer.snapshot.at;
      && at <= |s.contents|
      && (key in Keys(list) && !HistoryAt(s.contents, |s.contents|, key).Never? <==>
            key in Keys(durable) && HistoryAt(s.contents, at, key).Never? && exists j :: at <= j < |s.contents| && Covers(s.contents[j], key))
  {
    var u := Exec(Apply(s, Protocol(Live.FinalizerTakes(Live.StoreProjection), verdicts, none)), rest).value;
    ReachableInv(s);
    ContentsAgree(s, key);
    ProjectionContents(s, verdicts, none);
    PlannedList(u, durable);
    ListRepeatsExactly(s.contents, s.control.finalizer.snapshot.at, durable, key);
  }

  lemma ListRepeatsExactly(contents: seq<Content>, at: nat, durable: seq<Segment>, key: Key)
    requires at <= |contents| && AllAgree(contents, key) && DistinctKeys(durable) && key.sequenceNo > 0
    ensures key in Keys(Unanalyzed(PayloadAt(contents + [Kept(at)], |contents| + 1), durable)) && !HistoryAt(contents, |contents|, key).Never? <==>
      key in Keys(durable) && HistoryAt(contents, at, key).Never? && exists j :: at <= j < |contents| && Covers(contents[j], key)
  {
    PayloadStays(contents, Kept(at), at);
    assert PayloadAt(contents + [Kept(at)], |contents| + 1) == PayloadAt(contents, at);
    ListedExactlyWhen(PayloadAt(contents, at), durable);
    assert Agrees(PayloadAt(contents, at), HistoryAt(contents, at, key), key);
    if j :| at <= j < |contents| && Covers(contents[j], key) {
      OnceIsOne(contents, |contents|, j, key);
    } else {
      NoneBetween(contents, at, |contents|, key);
    }
  }

  lemma ProjectionContents(s: State, verdicts: seq<bool>, durable: seq<Segment>)
    requires Inv(s) && Enabled(s, Protocol(Live.FinalizerTakes(Live.StoreProjection), verdicts, durable))
    ensures s.control.finalizer.snapshot.at <= |s.contents|
    ensures Apply(s, Protocol(Live.FinalizerTakes(Live.StoreProjection), verdicts, durable)).contents ==
      s.contents + [Kept(s.control.finalizer.snapshot.at)]
  {
    assert Live.SeenOk(s.control.log, s.control.finalizer.snapshot);
  }

  lemma {:induction false} PayloadStays(contents: seq<Content>, content: Content, at: nat)
    requires at <= |contents|
    ensures PayloadAt(contents + [content], at) == PayloadAt(contents, at)
    decreases at
  {
    if at > 0 && contents[at - 1].from < at {
      PayloadStays(contents, content, contents[at - 1].from);
    }
  }
}
