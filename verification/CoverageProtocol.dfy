/**
  What the live row covers, over every run of LiveRoundProtocol: segments arrive
  and are queued, rounds that may overlap take them from the queue or from a
  finalization's flush list, and each write leaves some coverage in the row.
 */
module CoverageProtocol {
  import opened Options
  import opened Coverage
  import Live = LiveRoundProtocol

  // ----------------------------------------------------------------- the state

  /**
    The coverage a write left in the row: that of an earlier content, or what a
    round made of one.  `since` says for each key after how many writes the row
    had the content that the key was last checked against.
   */
  datatype Content =
    | Kept(from: nat)
    | Analysed(from: nat, segments: seq<Segment>, verdicts: seq<bool>, available: int, since: map<Key, nat>, flush: bool)

  /** What a round was sealed with, from the queue or from the flush list, and after which write its result was stored. */
  datatype Batch = Batch(segments: seq<Segment>, available: int, since: map<Key, nat>, flush: bool, wrote: nat)

  datatype Queue = Queue(
    pending: seq<Segment>,
    since: map<Key, nat>,
    deferred: seq<Deferred>,
    deferredSince: nat,
    available: int)           // highest final sequence number seen so far

  datatype State = State(
    control: Live.State,
    contents: seq<Content>,   // one for each write to the row
    batches: map<nat, Batch>, // one for each round
    queue: Queue,
    list: seq<Segment>,       // what the flush is to analyse
    listSince: nat)

  const EMPTY_QUEUE := Queue([], map[], [], 0, 0)

  const INIT := State(Live.INIT, [], map[], EMPTY_QUEUE, [], 0)

  /** `verdicts` are the model's on the segments of a round that stores; `durable` is what the transcript repository returns. */
  datatype Step =
    | Publish(segment: Segment)
    | Recover(durable: seq<Segment>)
    | Protocol(step: Live.Step, verdicts: seq<bool>, durable: seq<Segment>)

  // -------------------------------------------------------------- the coverage held

  /** The coverage of the row after its first `at` writes. */
  function PayloadAt(contents: seq<Content>, at: nat): Payload
    decreases at
  {
    if at == 0 || at > |contents| || contents[at - 1].from >= at then EMPTY_PAYLOAD
    else
      var before, content := PayloadAt(contents, contents[at - 1].from), contents[at - 1];
      if content.Analysed? && |content.segments| == |content.verdicts|
      then RecordAll(before, content.segments, content.verdicts, |content.segments|) else before
  }

  /** Whether this write stored a round's analysis of the key. */
  predicate Covers(content: Content, key: Key) {
    content.Analysed? && key in UsableKeys(content.segments)
  }

  predicate DistinctKeys(segments: seq<Segment>) {
    forall i, j :: 0 <= i < j < |segments| ==> KeyOf(segments[i]) != KeyOf(segments[j])
  }

  function Unanalyzed(p: Payload, durable: seq<Segment>): seq<Segment> {
    if durable == [] then []
    else
      var last := durable[|durable| - 1];
      Unanalyzed(p, durable[..|durable| - 1]) +
        if last.sequenceNo > 0 && KeyOf(last) !in p.analyzed then [last] else []
  }

  predicate InRange(running: seq<Segment>, s: Segment) {
    && (exists a :: a in running && 0 < a.sequenceNo <= s.sequenceNo)
    && (exists b :: b in running && s.sequenceNo <= b.sequenceNo)
  }

  function Recoverable(running: seq<Segment>, segments: seq<Segment>): seq<Segment> {
    if segments == [] then []
    else
      var last := segments[|segments| - 1];
      Recoverable(running, segments[..|segments| - 1]) +
        if Usable(last) && !InRange(running, last) then [last] else []
  }

  // ----------------------------------------------------------------- the queue

  function Keys(segments: seq<Segment>): set<Key> {
    set s | s in segments :: KeyOf(s)
  }

  function SinceOf(since: map<Key, nat>, key: Key): nat {
    if key in since then since[key] else 0
  }

  function All(segments: seq<Segment>, at: nat): map<Key, nat> {
    map k | k in Keys(segments) :: at
  }

  /** Appends segments; one already waiting keeps its place. */
  function Put(q: Queue, segments: seq<Segment>, since: map<Key, nat>): Queue {
    q.(pending := AppendAll(q.pending, segments),
       since := map k | k in Keys(q.pending) + Keys(segments) ::
         if k in Keys(q.pending) then SinceOf(q.since, k) else SinceOf(since, k))
  }

  function See(q: Queue, sequenceNo: int): Queue {
    q.(available := Max(q.available, sequenceNo))
  }

  function Deliver(q: Queue, segment: Segment, at: nat): Queue {
    var released := Released(q.deferred, segment.sequenceNo);
    Put(Put(See(q, segment.sequenceNo), released, All(released, q.deferredSince)), [segment], All([segment], at))
  }

  /** The round that holds the running flag, if any. */
  function Running(s: State): seq<Segment> {
    if s.control.slot.running && s.control.slot.counter in s.batches then s.batches[s.control.slot.counter].segments else []
  }

  function Recovered(s: State, durable: seq<Segment>): Queue {
    var at := s.control.memory.at;
    var segments := Recoverable(Running(s), Filtered(PayloadAt(s.contents, at), durable, HighestFinal(durable)));
    Put(See(s.queue, HighestFinal(durable)), segments, All(segments, at))
  }

  /** A refused round gives back what the row that won has not analysed, as far as it could be read. */
  function GivenBack(s: State, batch: Batch, current: Option<Live.Seen>): Queue {
    if current.None? then Put(s.queue, batch.segments, batch.since)
    else
      var segments := Filtered(PayloadAt(s.contents, current.value.at), batch.segments, HighestFinal(batch.segments));
      Put(s.queue, segments, All(segments, current.value.at))
  }

  /** A completed round takes its segments off the queue and defers the ones that may be retried. */
  function Settled(s: State, batch: Batch): Queue {
    var q := PayloadAt(s.contents, batch.wrote);
    s.queue.(pending := Without(s.queue.pending, PositiveKeys(batch.segments)),
             deferred := DeferredFrom(batch.segments, map k | k in UsableKeys(batch.segments) && k in q.entries :: q.entries[k]),
             deferredSince := batch.wrote)
  }

  // ----------------------------------------------------------------- the steps

  predicate Enabled(s: State, step: Step) {
    match step
    case Publish(segment) => Usable(segment)
    case Recover(durable) => !s.control.finalizing && !s.control.stopped
    case Protocol(k, verdicts, durable) =>
      && Live.Enabled(s.control, k)
      && (k == Live.Dispatch ==> s.queue.pending != [])
      && (k == Live.FinalizerTakes(Live.FlushBegin) ==> s.list != [])
      && (k == Live.FinalizerTakes(Live.AdoptSnapshot) ==> DistinctKeys(durable))
      && (k.RoundTakes? ==> k.r in s.batches && |verdicts| == |s.batches[k.r].segments|)
  }

  /** The queue after a step of the protocol. */
  function NextQueue(s: State, k: Live.Step): Queue {
    if k == Live.Dispatch then s.queue.(pending := [])
    else if k == Live.Restart then EMPTY_QUEUE.(available := s.queue.available)
    else if k.RoundTakes? && k.r in s.control.rounds && k.r in s.batches then
      var batch, pc := s.batches[k.r], s.control.rounds[k.r].pc;
      match k.roundStep
      case FailAnalysis => Put(s.queue, batch.segments, batch.since)
      case PersistError => Put(s.queue, batch.segments, batch.since)
      case Panic => Put(s.queue, batch.segments, batch.since)
      case Release => if pc.Rereading? then GivenBack(s, batch, pc.current) else s.queue
      case Complete => Settled(s, batch)
      case _ => s.queue
    else s.queue
  }

  function Sealed(s: State, batch: Batch): map<nat, Batch> {
    s.batches[s.control.slot.counter + 1 := batch]
  }

  function NextBatches(s: State, k: Live.Step): map<nat, Batch> {
    if k == Live.Dispatch then Sealed(s, Batch(s.queue.pending, s.queue.available, s.queue.since, false, 0))
    else if k == Live.FinalizerTakes(Live.FlushBegin) then
      Sealed(s, Batch(s.list, s.queue.available, All(s.list, s.listSince), true, 0))
    else if k.RoundTakes? && k.r in s.batches && k.roundStep == Live.Persist && Live.Enabled(s.control, k)
            && Live.WriteOf(s.control, k.r, k.roundStep).Some? then
      s.batches[k.r := s.batches[k.r].(wrote := |s.contents| + 1)]
    else s.batches
  }

  /** What one write to the row leaves there. */
  function ContentOf(s: State, e: Live.Event, verdicts: seq<bool>): Content {
    if e.Completed? && e.round in s.batches then
      var batch := s.batches[e.round];
      Analysed(e.from, batch.segments, verdicts, batch.available, batch.since, batch.flush)
    else Kept(e.from)
  }

  function NextContents(s: State, more: seq<Live.Event>, verdicts: seq<bool>): seq<Content> {
    if |more| == |s.control.log| + 1 then s.contents + [ContentOf(s, more[|s.control.log|], verdicts)] else s.contents
  }

  /** What a step of the protocol does to the contents, the batches and the queue. */
  function Follow(s: State, k: Live.Step, verdicts: seq<bool>): State
    requires Live.Enabled(s.control, k)
  {
    var control := Live.Apply(s.control, k);
    s.(control := control, contents := NextContents(s, control.log, verdicts),
       batches := NextBatches(s, k), queue := NextQueue(s, k))
  }

  predicate Plans(s: State, k: Live.Step) {
    k == Live.FinalizerTakes(Live.AdoptSnapshot) && s.control.finalizer.pc.RowRead? && !s.control.finalizer.pc.again
  }

  function Take(s: State, k: Live.Step, verdicts: seq<bool>, durable: seq<Segment>): State
    requires Live.Enabled(s.control, k)
  {
    var t := Follow(s, k, verdicts);
    if Plans(s, k) then Plan(t, t.control.finalizer.snapshot.at, durable) else t
  }

  /** The flush list is fixed once, from the snapshot: what its payload has not analysed. */
  function Plan(s: State, at: nat, durable: seq<Segment>): State {
    s.(list := Unanalyzed(PayloadAt(s.contents, at), durable), listSince := at, queue := See(s.queue, HighestFinal(durable)))
  }

  function Apply(s: State, step: Step): State
    requires Enabled(s, step)
  {
    match step
    case Publish(segment) => s.(queue := Deliver(s.queue, segment, |s.contents|))
    case Recover(durable) => s.(queue := Recovered(s, durable))
    case Protocol(k, verdicts, durable) => Take(s, k, verdicts, durable)
  }

  function Exec(s: State, steps: seq<Step>): Option<State>
    decreases |steps|
  {
    if steps == [] then Some(s)
    else if Enabled(s, steps[0]) then Exec(Apply(s, steps[0]), steps[1..])
    else None
  }

  ghost predicate Reachable(s: State) {
    exists steps :: Exec(INIT, steps) == Some(s)
  }

  // ------------------------------------------------------- contents and writes agree

  ghost predicate Parallel(contents: seq<Content>, log: seq<Live.Event>) {
    && |contents| == |log|
    && forall i :: 0 <= i < |log| ==> contents[i].from == log[i].from && (contents[i].Analysed? <==> log[i].Completed?)
  }

  ghost predicate ContentsOk(contents: seq<Content>) {
    forall i :: 0 <= i < |contents| && contents[i].Analysed? ==>
      DistinctKeys(contents[i].segments) && |contents[i].segments| == |contents[i].verdicts|
  }

  /** Each round has its batch, with every key once. */
  ghost predicate BatchesOk(s: State) {
    && s.batches.Keys == s.control.rounds.Keys
    && (forall r :: r in s.batches ==> DistinctKeys(s.batches[r].segments) && s.batches[r].wrote <= |s.contents|)
    && DistinctKeys(s.queue.pending) && DistinctKeys(s.list)
  }

  ghost predicate Inv(s: State) {
    Live.Inv(s.control) && Parallel(s.contents, s.control.log) && ContentsOk(s.contents) && BatchesOk(s)
  }

  lemma {:induction false} AppendAllDistinct(pending: seq<Segment>, more: seq<Segment>)
    requires DistinctKeys(pending)
    ensures DistinctKeys(AppendAll(pending, more))
    ensures Keys(AppendAll(pending, more)) == Keys(pending) + Keys(more)
  {
    if more == [] {
      assert Keys(more) == {};
    } else {
      var front, last := more[..|more| - 1], more[|more| - 1];
      AppendAllDistinct(pending, front);
      assert more == front + [last];
      assert Keys(more) == Keys(front) + {KeyOf(last)};
      AppendOne(AppendAll(pending, front), last);
    }
  }

  lemma AppendOne(pending: seq<Segment>, s: Segment)
    requires DistinctKeys(pending)
    ensures DistinctKeys(AppendPending(pending, s)) && Keys(AppendPending(pending, s)) == Keys(pending) + {KeyOf(s)}
  {
    var appended := AppendPending(pending, s);
    if appended != pending {
      assert forall e :: e in appended <==> e in pending || e == s;
    }
  }

  /** The flush list holds each durable segment that the payload has not analysed, once. */
  lemma {:induction false} ListedExactlyWhen(p: Payload, durable: seq<Segment>)
    requires DistinctKeys(durable)
    ensures DistinctKeys(Unanalyzed(p, durable))
    ensures forall s :: s in Unanalyzed(p, durable) <==> s in durable && s.sequenceNo > 0 && KeyOf(s) !in p.analyzed
  {
    if durable != [] {
      ListedExactlyWhen(p, durable[..|durable| - 1]);
      assert durable == durable[..|durable| - 1] + [durable[|durable| - 1]];
      assert forall s :: s in durable[..|durable| - 1] ==> KeyOf(s) != KeyOf(durable[|durable| - 1]);
    }
  }

  lemma {:induction false} WithoutFacts(pending: seq<Segment>, keys: set<Key>)
    ensures forall s :: s in Without(pending, keys) ==> s in pending && !(s.sequenceNo > 0 && KeyOf(s) in keys)
    ensures DistinctKeys(pending) ==> DistinctKeys(Without(pending, keys))
  {
    if pending != [] {
      WithoutFacts(pending[..|pending| - 1], keys);
    }
  }

  lemma PutDistinct(q: Queue, segments: seq<Segment>, since: map<Key, nat>)
    requires DistinctKeys(q.pending)
    ensures DistinctKeys(Put(q, segments, since).pending)
  {
    AppendAllDistinct(q.pending, segments);
  }

  lemma GivenBackDistinct(s: State, batch: Batch, current: Option<Live.Seen>)
    requires DistinctKeys(s.queue.pending)
    ensures DistinctKeys(GivenBack(s, batch, current).pending)
  {
    PutDistinct(s.queue, batch.segments, batch.since);
    if current.Some? {
      var segments := Filtered(PayloadAt(s.contents, current.value.at), batch.segments, HighestFinal(batch.segments));
      PutDistinct(s.queue, segments, All(segments, current.value.at));
    }
  }

  lemma NextQueueDistinct(s: State, k: Live.Step)
    requires DistinctKeys(s.queue.pending)
    ensures DistinctKeys(NextQueue(s, k).pending)
  {
    if k.RoundTakes? && k.r in s.control.rounds && k.r in s.batches {
      var batch, pc := s.batches[k.r], s.control.rounds[k.r].pc;
      PutDistinct(s.queue, batch.segments, batch.since);
      WithoutFacts(s.queue.pending, PositiveKeys(batch.segments));
      if pc.Rereading? {
        GivenBackDistinct(s, batch, pc.current);
      }
    }
  }

  /** The rounds of the protocol after a step: the same, or one more. */
  lemma RoundsGrow(c: Live.State, k: Live.Step)
    requires Live.Inv(c) && Live.Enabled(c, k)
    ensures Live.Apply(c, k).rounds.Keys == c.rounds.Keys + if Live.Begins(k) then {c.slot.counter + 1} else {}
  {
    if !k.RoundTakes? {
      Live.OtherStepWrites(c, k);
    }
  }

  /** The batches after a step: the old ones, and one for a round just sealed. */
  lemma BatchesFollow(s: State, k: Live.Step)
    requires BatchesOk(s) && Live.Enabled(s.control, k) && (k.RoundTakes? ==> k.r in s.batches)
    ensures NextBatches(s, k).Keys == s.batches.Keys + if Live.Begins(k) then {s.control.slot.counter + 1} else {}
    ensures forall r :: r in NextBatches(s, k) ==> DistinctKeys(NextBatches(s, k)[r].segments)
  {}

  lemma WroteInTime(s: State, k: Live.Step)
    requires BatchesOk(s) && |s.contents| == |s.control.log| && Live.Enabled(s.control, k)
    ensures forall r :: r in NextBatches(s, k) ==>
      NextBatches(s, k)[r].wrote <= |s.contents| || (NextBatches(s, k)[r].wrote == |s.contents| + 1 && PersistsNow(s, k))
  {}

  predicate PersistsNow(s: State, k: Live.Step) {
    Live.Enabled(s.control, k) && k.RoundTakes? && k.roundStep == Live.Persist && Live.WriteOf(s.control, k.r, k.roundStep).Some?
  }

  lemma PersistGrows(s: State, k: Live.Step, verdicts: seq<bool>)
    requires PersistsNow(s, k) && |s.contents| == |s.control.log|
    ensures |Follow(s, k, verdicts).contents| == |s.contents| + 1
  {}

  lemma FollowGrows(s: State, k: Live.Step, verdicts: seq<bool>)
    requires Inv(s) && Live.Enabled(s.control, k)
    ensures |s.contents| <= |Follow(s, k, verdicts).contents|
  {}

  lemma FollowKeepsBatches(s: State, k: Live.Step, verdicts: seq<bool>)
    requires Inv(s) && Live.Enabled(s.control, k) && (k.RoundTakes? ==> k.r in s.batches)
    ensures BatchesOk(Follow(s, k, verdicts))
  {
    var t := Follow(s, k, verdicts);
    RoundsGrow(s.control, k);
    NextQueueDistinct(s, k);
    BatchesFollow(s, k);
    WroteInTime(s, k);
    FollowGrows(s, k, verdicts);
    if PersistsNow(s, k) {
      PersistGrows(s, k, verdicts);
    }
  }

  lemma PlanKeepsBatches(s: State, at: nat, durable: seq<Segment>)
    requires BatchesOk(s) && DistinctKeys(durable)
    ensures BatchesOk(Plan(s, at, durable))
  {
    ListedExactlyWhen(PayloadAt(s.contents, at), durable);
  }

  lemma ContentIsOk(contents: seq<Content>, log: seq<Live.Event>, content: Content, e: Live.Event)
    requires Parallel(contents, log) && ContentsOk(contents) && content.from == e.from && (content.Analysed? <==> e.Completed?)
    requires content.Analysed? ==> DistinctKeys(content.segments) && |content.segments| == |content.verdicts|
    ensures Parallel(contents + [content], log + [e]) && ContentsOk(contents + [content])
  {}

  lemma FollowKeepsContents(s: State, k: Live.Step, verdicts: seq<bool>, durable: seq<Segment>)
    requires Inv(s) && Enabled(s, Protocol(k, verdicts, durable))
    ensures var t := Follow(s, k, verdicts); Parallel(t.contents, t.control.log) && ContentsOk(t.contents)
  {
    var log := Live.Apply(s.control, k).log;
    Live.StepExtends(s.control, k);
    if log != s.control.log {
      var e := log[|s.control.log|];
      assert log == s.control.log + [e];
      if e.Completed? {
        CompletedByTaker(s.control, k);
      }
      ContentIsOk(s.contents, s.control.log, ContentOf(s, e, verdicts), e);
    }
  }

  /** Only a persist writes a completed row, and it is the stepping round's. */
  lemma CompletedByTaker(c: Live.State, k: Live.Step)
    requires Live.Enabled(c, k)
    requires |Live.Apply(c, k).log| == |c.log| + 1 && Live.Apply(c, k).log[|c.log|].Completed?
    ensures k.RoundTakes? && k.roundStep == Live.Persist && Live.Apply(c, k).log[|c.log|].round == k.r
    ensures Live.WriteOf(c, k.r, k.roundStep) == Some(Live.Apply(c, k).log[|c.log|])
  {
    match k {
      case FinalizerTakes(f) => FinalizerCompletesNothing(c, f);
      case RoundTakes(r, step) => RoundCompletes(c, r, step);
      case AuditTakes(a) => AuditCompletesNothing(c, a);
      case _ =>
    }
  }

  lemma AuditCompletesNothing(c: Live.State, k: Live.AuditStep)
    requires Live.AuditEnabled(c, k)
    ensures var d := Live.ApplyAudit(c, k); |d.log| > |c.log| ==> !d.log[|c.log|].Completed?
  {}

  lemma RoundCompletes(c: Live.State, r: nat, k: Live.RoundStep)
    requires Live.RoundEnabled(c, r, k)
    ensures var d := Live.ApplyRound(c, r, k); |d.log| == |c.log| + 1 && d.log[|c.log|].Completed? ==>
      k == Live.Persist && d.log[|c.log|].round == r && Live.WriteOf(c, r, k) == Some(d.log[|c.log|])
  {}

  lemma FinalizerCompletesNothing(c: Live.State, k: Live.FinalizerStep)
    requires Live.FinalizerEnabled(c, k)
    ensures var d := Live.ApplyFinalizer(c, k); |d.log| > |c.log| ==> !d.log[|c.log|].Completed?
  {}

  lemma StepKeepsInv(s: State, step: Step)
    requires Inv(s) && Enabled(s, step)
    ensures Inv(Apply(s, step))
  {
    match step {
      case Publish(segment) =>
        var q, released := See(s.queue, segment.sequenceNo), Released(s.queue.deferred, segment.sequenceNo);
        PutDistinct(q, released, All(released, q.deferredSince));
        PutDistinct(Put(q, released, All(released, q.deferredSince)), [segment], All([segment], |s.contents|));
      case Recover(durable) =>
        var segments := Recoverable(Running(s), Filtered(PayloadAt(s.contents, s.control.memory.at), durable, HighestFinal(durable)));
        PutDistinct(See(s.queue, HighestFinal(durable)), segments, All(segments, s.control.memory.at));
      case Protocol(k, verdicts, durable) =>
        var t := Follow(s, k, verdicts);
        Live.StepKeepsInv(s.control, k);
        FollowKeepsBatches(s, k, verdicts);
        FollowKeepsContents(s, k, verdicts, durable);
        if Plans(s, k) {
          PlanKeepsBatches(t, t.control.finalizer.snapshot.at, durable);
        }
    }
  }

  lemma {:induction false} RunKeepsInv(s: State, steps: seq<Step>)
    requires Inv(s) && Exec(s, steps).Some?
    ensures Inv(Exec(s, steps).value)
    decreases |steps|
  {
    if steps != [] {
      StepKeepsInv(s, steps[0]);
      RunKeepsInv(Apply(s, steps[0]), steps[1..]);
    }
  }

  lemma ReachableInv(s: State)
    requires Reachable(s)
    ensures Inv(s)
  {
    StartsInv();
    var steps :| Exec(INIT, steps) == Some(s);
    RunKeepsInv(INIT, steps);
  }

  lemma StartsInv()
    ensures Inv(INIT)
  {}
}
