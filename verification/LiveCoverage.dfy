/**
  Coverage while the meeting is live: until a finalization reads the row for its
  flush list, rounds do not overlap, and no stored analysis is overtaken.
 */
module LiveCoverage {
  import opened Options
  import opened Coverage
  import opened CoverageProtocol
  import opened CoverageHistory
  import Live = LiveRoundProtocol
  import Slots = LiveRound

  // ------------------------------------------------------------- one round at a time

  /** Released after a failure, and busy with the failure row. */
  predicate Failed(pc: Live.Pc) {
    pc.Failing? || pc.FailureRefused? || pc.FailureReread?
  }

  /** Not over, and not merely busy with its failure row. */
  predicate Active(pc: Live.Pc) {
    pc != Live.Ended && !Failed(pc)
  }

  /** No finalization has read the row. */
  predicate Early(pc: Live.FinalizerPc) {
    pc.Idle? || pc.Sealed? || pc.Awaiting? || pc == Live.Looking(false) || (pc.MemoryRead? && !pc.again)
  }

  /** The active round is the one sealed last; it holds the running flag under its own generation. */
  ghost predicate Alone(slot: Slots.Slot, r: nat, round: Live.Round) {
    Active(round.pc) ==> r == slot.counter && slot.running && (round.pc != Live.Launched ==> round.generation == r)
  }

  ghost predicate OneAtATime(c: Live.State) {
    && Early(c.finalizer.pc)
    && (forall r :: r in c.rounds ==> Alone(c.slot, r, c.rounds[r]))
    && forall i :: 0 <= i < |c.log| ==> !c.log[i].Projection?
  }

  predicate LooksAtRow(k: Live.Step) {
    k.FinalizerTakes? && k.finalizerStep.ReadStoredRow?
  }

  /** A panic of a round that has stored its result, or has given its segments back already. */
  predicate LatePanic(c: Live.State, r: nat, k: Live.RoundStep) {
    r in c.rounds && k == Live.Panic && (c.rounds[r].pc == Live.Stored || Failed(c.rounds[r].pc))
  }

  predicate PanicsLate(c: Live.State, k: Live.Step) {
    k.RoundTakes? && LatePanic(c, k.r, k.roundStep)
  }

  lemma EarlyFinalizer(c: Live.State, k: Live.FinalizerStep)
    requires Early(c.finalizer.pc) && Live.FinalizerEnabled(c, k) && !k.ReadStoredRow?
    ensures var d := Live.ApplyFinalizer(c, k);
      && Early(d.finalizer.pc) && d.log == c.log && d.rounds == c.rounds && d.memory == c.memory
      && d.slot.counter == c.slot.counter && d.slot.running == c.slot.running && d.slot.generation == c.slot.generation
  {}

  lemma RoundStaysAlone(c: Live.State, r: nat, k: Live.RoundStep)
    requires Live.SlotOk(c.slot, c.closed) && Live.RoundEnabled(c, r, k) && Alone(c.slot, r, c.rounds[r]) && !LatePanic(c, r, k)
    ensures var d := Live.ApplyRound(c, r, k);
      && Alone(d.slot, r, d.rounds[r]) && d.finalizer == c.finalizer && d.slot.counter == c.slot.counter
      && (Active(c.rounds[r].pc) || d.slot.running == c.slot.running)
  {
    if Live.Finishes(k) {
      assert !Active(Live.NextRound(c, r, k).pc);
    }
  }

  lemma OthersInactive(c: Live.State, r: nat, q: nat)
    requires OneAtATime(c) && r in c.rounds && q in c.rounds && q != r && Active(c.rounds[r].pc)
    ensures !Active(c.rounds[q].pc)
  {
    assert Alone(c.slot, r, c.rounds[r]) && Alone(c.slot, q, c.rounds[q]);
  }

  lemma RoundStepOneAtATime(c: Live.State, r: nat, k: Live.RoundStep)
    requires Live.Inv(c) && OneAtATime(c) && Live.RoundEnabled(c, r, k) && !LatePanic(c, r, k)
    ensures OneAtATime(Live.ApplyRound(c, r, k))
  {
    var d := Live.ApplyRound(c, r, k);
    RoundStaysAlone(c, r, k);
    forall q | q in d.rounds ensures Alone(d.slot, q, d.rounds[q]) {
      if q != r {
        assert Alone(c.slot, q, c.rounds[q]) && d.rounds[q] == c.rounds[q];
        if Active(c.rounds[r].pc) {
          OthersInactive(c, r, q);
        }
      }
    }
    Live.StepBeyond(c, Live.RoundTakes(r, k));
  }

  lemma OtherStepOneAtATime(c: Live.State, k: Live.Step)
    requires Live.Inv(c) && OneAtATime(c) && Live.Enabled(c, k) && !k.RoundTakes? && !LooksAtRow(k) && k != Live.Restart
    ensures OneAtATime(Live.Apply(c, k))
  {
    var d := Live.Apply(c, k);
    if k.FinalizerTakes? {
      EarlyFinalizer(c, k.finalizerStep);
    } else {
      Live.StepBeyond(c, k);
    }
    forall q | q in d.rounds ensures Alone(d.slot, q, d.rounds[q]) {
      if q in c.rounds {
        assert Alone(c.slot, q, c.rounds[q]);
      }
    }
  }

  lemma StepOneAtATime(c: Live.State, k: Live.Step)
    requires Live.Inv(c) && OneAtATime(c) && Live.Enabled(c, k) && !LooksAtRow(k) && !PanicsLate(c, k) && k != Live.Restart
    ensures OneAtATime(Live.Apply(c, k))
  {
    if k.RoundTakes? {
      RoundStepOneAtATime(c, k.r, k.roundStep);
    } else {
      OtherStepOneAtATime(c, k);
    }
  }

  // ---------------------------------------------------------- what is stored since a check

  /** No write from the `at`-th on stored the key. */
  ghost predicate NoneSince(contents: seq<Content>, at: nat, key: Key) {
    at <= |contents| && forall m :: at <= m < |contents| ==> !Covers(contents[m], key)
  }

  /** The active round has stored its result and holds the key. */
  ghost predicate Storing(s: State, key: Key) {
    var r := s.control.slot.counter;
    r in s.control.rounds && s.control.rounds[r].pc == Live.Stored && r in s.batches && key in Keys(s.batches[r].segments)
  }

  /** Nothing stored the key since, unless the active round just did. */
  ghost predicate Fresh(contents: seq<Content>, at: nat, key: Key, storing: bool) {
    at <= |contents| && (storing || NoneSince(contents, at, key))
  }

  ghost predicate QueueFresh(q: Queue, contents: seq<Content>, key: Key, storing: bool) {
    && (key in Keys(q.pending) ==> Fresh(contents, SinceOf(q.since, key), key, storing))
    && (forall d :: d in q.deferred && KeyOf(d.segment) == key ==> Fresh(contents, q.deferredSince, key, storing))
  }

  ghost predicate BatchFresh(contents: seq<Content>, batch: Batch, key: Key) {
    key in Keys(batch.segments) ==> NoneSince(contents, SinceOf(batch.since, key), key)
  }

  ghost predicate RoundFresh(contents: seq<Content>, round: Live.Round, batch: Batch, key: Key) {
    && (Active(round.pc) && round.pc != Live.Stored ==> BatchFresh(contents, batch, key))
    && (round.pc.Unseeded? ==> NoneSince(contents, round.pc.copy.at, key))
    && (round.pc.Seeding? ==> NoneSince(contents, round.pc.seen.at, key))
    && (round.pc.Rereading? && round.pc.current.Some? ==> NoneSince(contents, round.pc.current.value.at, key))
    && (round.pc == Live.Stored ==> NoneSince(contents, batch.wrote, key) && NoneSince(contents, round.result.at, key))
  }

  ghost predicate RoundsFresh(s: State, key: Key) {
    forall r :: r in s.control.rounds && r in s.batches ==> RoundFresh(s.contents, s.control.rounds[r], s.batches[r], key)
  }

  ghost predicate NeverOvertaken(contents: seq<Content>, key: Key) {
    forall i, j :: 0 <= j < i < |contents| && Covers(contents[i], key) ==> !Overtakes(contents, j, i, key)
  }

  ghost predicate AllFresh(s: State, key: Key) {
    && OneAtATime(s.control)
    && QueueFresh(s.queue, s.contents, key, Storing(s, key))
    && Fresh(s.contents, s.control.memory.at, key, Storing(s, key))
    && RoundsFresh(s, key) && NeverOvertaken(s.contents, key)
  }

  /** What the steps of rounds need of the state's shape. */
  ghost predicate Shape(s: State) {
    Live.SlotOk(s.control.slot, s.control.closed) && BatchesOk(s) && |s.contents| == |s.control.log|
  }

  lemma NoneSinceStays(contents: seq<Content>, more: seq<Content>, at: nat, key: Key)
    requires Grows(contents, more) && NoneSince(contents, at, key)
    requires more != contents ==> !Covers(more[|contents|], key)
    ensures NoneSince(more, at, key)
  {}

  /** A write that does not store the key leaves everything fresh that was. */
  lemma FreshStays(contents: seq<Content>, more: seq<Content>, q: Queue, at: nat, key: Key, storing: bool)
    requires Grows(contents, more) && (more != contents ==> !Covers(more[|contents|], key))
    ensures QueueFresh(q, contents, key, storing) ==> QueueFresh(q, more, key, storing)
    ensures Fresh(contents, at, key, storing) ==> Fresh(more, at, key, storing)
  {}

  lemma RoundStaysFresh(contents: seq<Content>, more: seq<Content>, round: Live.Round, batch: Batch, key: Key)
    requires Grows(contents, more) && (more != contents ==> !Covers(more[|contents|], key))
    requires RoundFresh(contents, round, batch, key)
    ensures RoundFresh(more, round, batch, key)
  {}

  lemma NeverOvertakenStays(contents: seq<Content>, more: seq<Content>, key: Key)
    requires Grows(contents, more) && NeverOvertaken(contents, key)
    requires more != contents && Covers(more[|contents|], key) ==> NoneSince(contents, SinceOf(more[|contents|].since, key), key)
    ensures NeverOvertaken(more, key)
  {
    forall i, j | 0 <= j < i < |more| && Covers(more[i], key) ensures !Overtakes(more, j, i, key) {
      if i < |contents| {
        assert more[i] == contents[i] && more[j] == contents[j];
        assert !Overtakes(contents, j, i, key);
      }
    }
  }

  lemma PutFresh(q: Queue, contents: seq<Content>, key: Key, segments: seq<Segment>, since: map<Key, nat>, storing: bool)
    requires DistinctKeys(q.pending) && QueueFresh(q, contents, key, storing)
    requires key in Keys(segments) ==> Fresh(contents, SinceOf(since, key), key, storing)
    ensures QueueFresh(Put(q, segments, since), contents, key, storing)
  {
    AppendAllDistinct(q.pending, segments);
  }

  lemma DeliverFresh(q: Queue, contents: seq<Content>, key: Key, segment: Segment, storing: bool)
    requires DistinctKeys(q.pending) && QueueFresh(q, contents, key, storing)
    ensures QueueFresh(Deliver(q, segment, |contents|), contents, key, storing)
  {
    var seen, released := See(q, segment.sequenceNo), Released(q.deferred, segment.sequenceNo);
    ReleasedFacts(q.deferred, segment.sequenceNo);
    PutFresh(seen, contents, key, released, All(released, q.deferredSince), storing);
    PutDistinct(seen, released, All(released, q.deferredSince));
    PutFresh(Put(seen, released, All(released, q.deferredSince)), contents, key, [segment], All([segment], |contents|), storing);
  }

  lemma RecoverFresh(s: State, key: Key, durable: seq<Segment>)
    requires Inv(s) && AllFresh(s, key)
    ensures QueueFresh(Recovered(s, durable), s.contents, key, Storing(s, key))
  {
    var at := s.control.memory.at;
    var segments := Recoverable(Running(s), Filtered(PayloadAt(s.contents, at), durable, HighestFinal(durable)));
    PutFresh(See(s.queue, HighestFinal(durable)), s.contents, key, segments, All(segments, at), Storing(s, key));
  }

  // ----------------------------------------------------------------- the steps of rounds

  /** While a round that has not stored is active, nothing is being stored. */
  lemma NotStoring(s: State, r: nat, key: Key)
    requires OneAtATime(s.control) && r in s.control.rounds && Active(s.control.rounds[r].pc) && s.control.rounds[r].pc != Live.Stored
    ensures !Storing(s, key) && r == s.control.slot.counter
  {
    assert Alone(s.control.slot, r, s.control.rounds[r]);
  }

  lemma GiveBackFresh(s: State, key: Key, batch: Batch, current: Option<Live.Seen>)
    requires DistinctKeys(s.queue.pending) && QueueFresh(s.queue, s.contents, key, false) && BatchFresh(s.contents, batch, key)
    requires current.Some? ==> NoneSince(s.contents, current.value.at, key)
    ensures QueueFresh(GivenBack(s, batch, current), s.contents, key, false)
  {
    if current.None? {
      PutFresh(s.queue, s.contents, key, batch.segments, batch.since, false);
    } else {
      var at := current.value.at;
      var segments := Filtered(PayloadAt(s.contents, at), batch.segments, HighestFinal(batch.segments));
      PutFresh(s.queue, s.contents, key, segments, All(segments, at), false);
    }
  }

  /** Completing a round takes its keys off the queue, so only what others hold fresh remains. */
  lemma SettleFresh(s: State, key: Key, batch: Batch, storing: bool)
    requires key.sequenceNo > 0 && NoneSince(s.contents, batch.wrote, key)
    requires QueueFresh(s.queue, s.contents, key, storing) && (storing ==> key in Keys(batch.segments))
    ensures QueueFresh(Settled(s, batch), s.contents, key, false)
  {
    WithoutFacts(s.queue.pending, PositiveKeys(batch.segments));
    if key in Keys(batch.segments) {
      assert key in PositiveKeys(batch.segments);
    }
  }

  /** The queue after a step of the active round, before it has stored. */
  lemma UnstoredQueue(s: State, r: nat, k: Live.RoundStep, key: Key)
    requires Shape(s) && AllFresh(s, key) && Live.RoundEnabled(s.control, r, k)
    requires Active(s.control.rounds[r].pc) && s.control.rounds[r].pc != Live.Stored
    ensures QueueFresh(NextQueue(s, Live.RoundTakes(r, k)), s.contents, key, false)
  {
    NotStoring(s, r, key);
    var batch, pc := s.batches[r], s.control.rounds[r].pc;
    assert RoundFresh(s.contents, s.control.rounds[r], batch, key);
    PutFresh(s.queue, s.contents, key, batch.segments, batch.since, false);
    if pc.Rereading? {
      GiveBackFresh(s, key, batch, pc.current);
    }
  }

  lemma UnstoredMemory(s: State, r: nat, k: Live.RoundStep, key: Key)
    requires Shape(s) && AllFresh(s, key) && Live.RoundEnabled(s.control, r, k)
    requires Active(s.control.rounds[r].pc) && s.control.rounds[r].pc != Live.Stored
    ensures NoneSince(s.contents, Live.NextMemory(s.control, s.control.rounds[r], k).at, key)
  {
    NotStoring(s, r, key);
    assert RoundFresh(s.contents, s.control.rounds[r], s.batches[r], key);
  }

  /** What an unstored round holds after a step that writes nothing. */
  lemma UnstoredRound(s: State, r: nat, k: Live.RoundStep, key: Key)
    requires Shape(s) && AllFresh(s, key) && Live.RoundEnabled(s.control, r, k) && Live.WriteOf(s.control, r, k).None?
    requires Active(s.control.rounds[r].pc) && s.control.rounds[r].pc != Live.Stored
    ensures var u := Live.NextRound(s.control, r, k); u.pc != Live.Stored && RoundFresh(s.contents, u, s.batches[r], key)
  {
    NotStoring(s, r, key);
    assert RoundFresh(s.contents, s.control.rounds[r], s.batches[r], key);
    assert NoneSince(s.contents, |s.contents|, key);
  }

  lemma InactiveIsFresh(contents: seq<Content>, round: Live.Round, batch: Batch, key: Key)
    requires !Active(round.pc)
    ensures RoundFresh(contents, round, batch, key)
  {}

  /** The other rounds are inactive next to an active one, so a write leaves them as fresh as they were. */
  lemma OthersStayFresh(s: State, r: nat, q: nat, more: seq<Content>, key: Key)
    requires Shape(s) && AllFresh(s, key) && r in s.control.rounds && q in s.control.rounds && q != r
    requires Active(s.control.rounds[r].pc)
    ensures RoundFresh(more, s.control.rounds[q], s.batches[q], key)
  {
    OthersInactive(s.control, r, q);
    InactiveIsFresh(more, s.control.rounds[q], s.batches[q], key);
  }

  lemma QuietStepFresh(s: State, r: nat, k: Live.RoundStep, verdicts: seq<bool>, key: Key)
    requires Shape(s) && AllFresh(s, key) && Live.RoundEnabled(s.control, r, k) && Live.WriteOf(s.control, r, k).None?
    requires Active(s.control.rounds[r].pc) && s.control.rounds[r].pc != Live.Stored
    requires OneAtATime(Live.ApplyRound(s.control, r, k))
    ensures AllFresh(Follow(s, Live.RoundTakes(r, k), verdicts), key)
  {
    var t := Follow(s, Live.RoundTakes(r, k), verdicts);
    NotStoring(s, r, key);
    UnstoredQueue(s, r, k, key);
    UnstoredMemory(s, r, k, key);
    UnstoredRound(s, r, k, key);
    RoundStaysAlone(s.control, r, k);
    forall q | q in t.control.rounds ensures RoundFresh(t.contents, t.control.rounds[q], t.batches[q], key) {
      if q != r {
        OthersStayFresh(s, r, q, t.contents, key);
      }
    }
  }

  /** The contents after a round's step: one more exactly when it wrote. */
  lemma RoundContents(s: State, r: nat, k: Live.RoundStep, verdicts: seq<bool>)
    requires |s.contents| == |s.control.log| && Live.RoundEnabled(s.control, r, k)
    ensures var e := Live.WriteOf(s.control, r, k);
      Follow(s, Live.RoundTakes(r, k), verdicts).contents ==
        if e.None? then s.contents else s.contents + [ContentOf(s, e.value, verdicts)]
  {
    var e := Live.WriteOf(s.control, r, k);
    assert Live.Apply(s.control, Live.RoundTakes(r, k)).log == if e.None? then s.control.log else s.control.log + [e.value];
  }

  lemma RoundControl(c: Live.State, r: nat, k: Live.RoundStep)
    requires Live.RoundEnabled(c, r, k)
    ensures var d := Live.ApplyRound(c, r, k);
      && d.rounds == c.rounds[r := Live.NextRound(c, r, k)]
      && d.memory == Live.NextMemory(c, c.rounds[r], k)
      && (!Live.Finishes(k) ==> d.slot == c.slot)
  {}

  lemma PersistEvent(c: Live.State, r: nat)
    requires Live.RoundEnabled(c, r, Live.Persist) && Live.WriteOf(c, r, Live.Persist).Some?
    ensures var round, base := Live.NextRound(c, r, Live.Persist), c.rounds[r].base;
      && Live.WriteOf(c, r, Live.Persist).value == Live.Completed(r, base.version, base.at)
      && round.pc == Live.Stored && round.result.at == |c.log| + 1
      && Live.NextMemory(c, c.rounds[r], Live.Persist) == c.memory
  {}

  /** The contents when the round's result is stored. */
  lemma PersistStores(s: State, r: nat, verdicts: seq<bool>)
    requires |s.contents| == |s.control.log| && r in s.batches
    requires Live.RoundEnabled(s.control, r, Live.Persist) && Live.WriteOf(s.control, r, Live.Persist).Some?
    ensures var t, batch := Follow(s, Live.RoundTakes(r, Live.Persist), verdicts), s.batches[r];
      && t.contents == s.contents + [Analysed(s.control.rounds[r].base.at, batch.segments, verdicts, batch.available, batch.since, batch.flush)]
      && t.batches == s.batches[r := batch.(wrote := |s.contents| + 1)]
      && t.queue == s.queue && t.control.memory == s.control.memory && t.control.slot == s.control.slot
      && t.control.rounds == s.control.rounds[r := t.control.rounds[r]]
      && t.control.rounds[r].pc == Live.Stored && t.control.rounds[r].result.at == |s.contents| + 1
  {
    RoundContents(s, r, Live.Persist, verdicts);
    RoundControl(s.control, r, Live.Persist);
    PersistEvent(s.control, r);
  }

  lemma PersistFresh(s: State, r: nat, verdicts: seq<bool>, key: Key)
    requires Shape(s) && AllFresh(s, key)
    requires Live.RoundEnabled(s.control, r, Live.Persist) && Live.WriteOf(s.control, r, Live.Persist).Some?
    requires OneAtATime(Live.ApplyRound(s.control, r, Live.Persist))
    ensures AllFresh(Follow(s, Live.RoundTakes(r, Live.Persist), verdicts), key)
  {
    var t, batch := Follow(s, Live.RoundTakes(r, Live.Persist), verdicts), s.batches[r];
    PersistStores(s, r, verdicts);
    NotStoring(s, r, key);
    assert RoundFresh(s.contents, s.control.rounds[r], batch, key);
    NeverOvertakenStays(s.contents, t.contents, key);
    var storing := key in Keys(batch.segments);
    assert Storing(t, key) == storing;
    if !storing {
      FreshStays(s.contents, t.contents, s.queue, s.control.memory.at, key, false);
    }
    forall q | q in t.control.rounds ensures RoundFresh(t.contents, t.control.rounds[q], t.batches[q], key) {
      if q != r {
        OthersStayFresh(s, r, q, t.contents, key);
      }
    }
  }

  // ----------------------------------------------------- a round that has stored its result

  lemma StoredIsActive(s: State, r: nat, key: Key)
    requires Shape(s) && AllFresh(s, key) && r in s.control.rounds && s.control.rounds[r].pc == Live.Stored
    ensures r == s.control.slot.counter && Storing(s, key) == (key in Keys(s.batches[r].segments))
    ensures NoneSince(s.contents, s.batches[r].wrote, key) && NoneSince(s.contents, s.control.rounds[r].result.at, key)
  {
    assert Alone(s.control.slot, r, s.control.rounds[r]);
    assert RoundFresh(s.contents, s.control.rounds[r], s.batches[r], key);
  }

  lemma CompleteKeeps(s: State, r: nat, verdicts: seq<bool>)
    requires |s.contents| == |s.control.log| && r in s.batches && Live.RoundEnabled(s.control, r, Live.Complete)
    ensures var t := Follow(s, Live.RoundTakes(r, Live.Complete), verdicts);
      && t.contents == s.contents && t.batches == s.batches && t.queue == Settled(s, s.batches[r])
      && t.control.memory == s.control.rounds[r].result
      && t.control.rounds == s.control.rounds[r := t.control.rounds[r]] && t.control.rounds[r].pc == Live.Ended
  {
    RoundContents(s, r, Live.Complete, verdicts);
    RoundControl(s.control, r, Live.Complete);
  }

  lemma CompleteFresh(s: State, r: nat, verdicts: seq<bool>, key: Key)
    requires Shape(s) && AllFresh(s, key) && key.sequenceNo > 0 && Live.RoundEnabled(s.control, r, Live.Complete)
    requires OneAtATime(Live.ApplyRound(s.control, r, Live.Complete))
    ensures AllFresh(Follow(s, Live.RoundTakes(r, Live.Complete), verdicts), key)
  {
    var t := Follow(s, Live.RoundTakes(r, Live.Complete), verdicts);
    StoredIsActive(s, r, key);
    SettleFresh(s, key, s.batches[r], Storing(s, key));
    RoundStaysAlone(s.control, r, Live.Complete);
    CompleteKeeps(s, r, verdicts);
    assert !Storing(t, key);
    forall q | q in t.control.rounds ensures RoundFresh(t.contents, t.control.rounds[q], t.batches[q], key) {
      if q != r {
        OthersStayFresh(s, r, q, t.contents, key);
      }
    }
  }

  predicate Reorganizes(k: Live.RoundStep) {
    k == Live.Reorganize || k == Live.AdoptReorganized
  }

  lemma ReorganizedRound(c: Live.State, r: nat, k: Live.RoundStep)
    requires Live.RoundEnabled(c, r, k) && Reorganizes(k)
    ensures var round, e := Live.NextRound(c, r, k), Live.WriteOf(c, r, k);
      && round.pc == Live.Stored && Live.NextMemory(c, c.rounds[r], k) == c.memory && (e.Some? ==> !e.value.Completed?)
      && (round.result == c.rounds[r].result || round.result.at == if e.Some? then |c.log| + 1 else |c.log|)
  {}

  lemma ReorganizeKeeps(s: State, r: nat, k: Live.RoundStep, verdicts: seq<bool>)
    requires |s.contents| == |s.control.log| && r in s.batches && Live.RoundEnabled(s.control, r, k) && Reorganizes(k)
    ensures var t := Follow(s, Live.RoundTakes(r, k), verdicts);
      && Grows(s.contents, t.contents) && (t.contents != s.contents ==> t.contents[|s.contents|].Kept?)
      && t.batches == s.batches && t.queue == s.queue && t.control.memory == s.control.memory && t.control.slot == s.control.slot
      && t.control.rounds == s.control.rounds[r := t.control.rounds[r]] && t.control.rounds[r].pc == Live.Stored
      && (t.control.rounds[r].result == s.control.rounds[r].result || t.control.rounds[r].result.at == |t.contents|)
  {
    RoundContents(s, r, k, verdicts);
    RoundControl(s.control, r, k);
    ReorganizedRound(s.control, r, k);
  }

  lemma ReorganizeFresh(s: State, r: nat, k: Live.RoundStep, verdicts: seq<bool>, key: Key)
    requires Shape(s) && AllFresh(s, key) && Live.RoundEnabled(s.control, r, k) && Reorganizes(k)
    requires OneAtATime(Live.ApplyRound(s.control, r, k))
    ensures AllFresh(Follow(s, Live.RoundTakes(r, k), verdicts), key)
  {
    var t := Follow(s, Live.RoundTakes(r, k), verdicts);
    ReorganizeKeeps(s, r, k, verdicts);
    StoredIsActive(s, r, key);
    FreshStays(s.contents, t.contents, s.queue, s.control.memory.at, key, Storing(s, key));
    NeverOvertakenStays(s.contents, t.contents, key);
    RoundStaysFresh(s.contents, t.contents, s.control.rounds[r], s.batches[r], key);
    assert Storing(t, key) == Storing(s, key);
    forall q | q in t.control.rounds ensures RoundFresh(t.contents, t.control.rounds[q], t.batches[q], key) {
      if q != r {
        OthersStayFresh(s, r, q, t.contents, key);
      }
    }
  }

  // ------------------------------------------------------------------- the other steps

  lemma FailedRound(c: Live.State, r: nat, k: Live.RoundStep)
    requires Live.RoundEnabled(c, r, k) && Failed(c.rounds[r].pc) && k != Live.Panic
    ensures var u, e := Live.NextRound(c, r, k), Live.WriteOf(c, r, k);
      && !Active(u.pc) && !Live.Finishes(k) && (e.Some? ==> !e.value.Completed?)
      && (Live.NextMemory(c, c.rounds[r], k) == c.memory || k == Live.AdoptAfterFailure)
  {}

  lemma FailureKeeps(s: State, r: nat, k: Live.RoundStep, verdicts: seq<bool>)
    requires |s.contents| == |s.control.log| && r in s.batches && Live.RoundEnabled(s.control, r, k)
    requires Failed(s.control.rounds[r].pc) && k != Live.Panic
    ensures LeavesCoverage(s, Follow(s, Live.RoundTakes(r, k), verdicts), k == Live.AdoptAfterFailure)
  {
    RoundContents(s, r, k, verdicts);
    RoundControl(s.control, r, k);
    FailedRound(s.control, r, k);
  }

  /** A step that writes no coverage, and touches at most the row, a round that is over afterwards, and what the session holds when it `adopts`. */
  ghost predicate LeavesCoverage(s: State, t: State, adopts: bool) {
    && Grows(s.contents, t.contents) && (t.contents != s.contents ==> t.contents[|s.contents|].Kept?)
    && t.batches == s.batches && t.queue == s.queue && (adopts || t.control.memory == s.control.memory)
    && t.control.slot.counter == s.control.slot.counter && t.control.rounds.Keys == s.control.rounds.Keys
    && forall q :: q in s.control.rounds ==>
         t.control.rounds[q] == s.control.rounds[q] || (!Active(s.control.rounds[q].pc) && !Active(t.control.rounds[q].pc))
  }

  lemma StoringStays(s: State, t: State, key: Key)
    requires LeavesCoverage(s, t, true)
    ensures Storing(t, key) == Storing(s, key)
  {}

  lemma LeavesRoundsFresh(s: State, t: State, key: Key)
    requires RoundsFresh(s, key) && LeavesCoverage(s, t, true)
    ensures RoundsFresh(t, key)
  {
    forall q | q in t.control.rounds && q in t.batches ensures RoundFresh(t.contents, t.control.rounds[q], t.batches[q], key) {
      if Active(t.control.rounds[q].pc) {
        assert RoundFresh(s.contents, s.control.rounds[q], s.batches[q], key);
        RoundStaysFresh(s.contents, t.contents, s.control.rounds[q], s.batches[q], key);
      } else {
        InactiveIsFresh(t.contents, t.control.rounds[q], t.batches[q], key);
      }
    }
  }

  lemma LeavesFresh(s: State, t: State, key: Key)
    requires AllFresh(s, key) && LeavesCoverage(s, t, false) && OneAtATime(t.control)
    ensures AllFresh(t, key)
  {
    StoringStays(s, t, key);
    FreshStays(s.contents, t.contents, s.queue, s.control.memory.at, key, Storing(s, key));
    NeverOvertakenStays(s.contents, t.contents, key);
    LeavesRoundsFresh(s, t, key);
  }

  /** The failure row carries no coverage of its own. */
  lemma FailureFresh(s: State, r: nat, k: Live.RoundStep, verdicts: seq<bool>, key: Key)
    requires Inv(s) && AllFresh(s, key) && Live.RoundEnabled(s.control, r, k)
    requires Failed(s.control.rounds[r].pc) && k != Live.Panic && OneAtATime(Live.ApplyRound(s.control, r, k))
    ensures AllFresh(Follow(s, Live.RoundTakes(r, k), verdicts), key)
  {
    var t := Follow(s, Live.RoundTakes(r, k), verdicts);
    FailureKeeps(s, r, k, verdicts);
    if k == Live.AdoptAfterFailure {
      AdoptedAfterFailure(s.control, r);
      AdoptFresh(s, t, key);
    } else {
      LeavesFresh(s, t, key);
    }
  }

  lemma AdoptedAfterFailure(c: Live.State, r: nat)
    requires Live.SeensInv(c) && Live.RoundEnabled(c, r, Live.AdoptAfterFailure)
    ensures var d := Live.ApplyRound(c, r, Live.AdoptAfterFailure); d.log == c.log && Adopts(c, d)
  {
    assert Live.RoundSeens(c.log, c.rounds[r]);
  }

  lemma DispatchFresh(s: State, verdicts: seq<bool>, key: Key)
    requires Shape(s) && AllFresh(s, key) && Live.Enabled(s.control, Live.Dispatch)
    requires OneAtATime(Live.Apply(s.control, Live.Dispatch))
    ensures AllFresh(Follow(s, Live.Dispatch, verdicts), key)
  {
    var t, r := Follow(s, Live.Dispatch, verdicts), s.control.slot.counter + 1;
    assert !Storing(s, key) by {
      if s.control.slot.counter in s.control.rounds {
        assert Alone(s.control.slot, s.control.slot.counter, s.control.rounds[s.control.slot.counter]);
      }
    }
    forall q | q in t.control.rounds ensures RoundFresh(t.contents, t.control.rounds[q], t.batches[q], key) {
      if q != r {
        assert Alone(s.control.slot, q, s.control.rounds[q]);
        InactiveIsFresh(t.contents, t.control.rounds[q], t.batches[q], key);
      }
    }
  }

  /** What the session holds was in the row, at no smaller version than what it held before. */
  ghost predicate Adopts(c: Live.State, d: Live.State) {
    Live.SeenOk(c.log, d.memory) && d.memory.version >= c.memory.version
  }

  /** Adopting a write of no smaller version loses sight of nothing the session had seen. */
  lemma AdoptFresh(s: State, t: State, key: Key)
    requires Inv(s) && AllFresh(s, key) && LeavesCoverage(s, t, true) && t.contents == s.contents
    requires Adopts(s.control, t.control) && OneAtATime(t.control)
    ensures AllFresh(t, key)
  {
    var log, at, memory := s.control.log, t.control.memory.at, s.control.memory.at;
    StoringStays(s, t, key);
    LeavesRoundsFresh(s, t, key);
    if NoneSince(s.contents, memory, key) && at < memory {
      SameVersionNoSwap(log, at, memory);
      forall m | at <= m < memory ensures !Covers(s.contents[m], key) {
        assert !Live.Swap(log[m]);
      }
    }
  }

  /** The session adopts an audit, or what the recovery read. */
  predicate AdoptsNow(k: Live.Step) {
    k == Live.AuditTakes(Live.AdoptAudit) || k == Live.RecoveryTakes(Live.AdoptRecovered)
  }

  lemma AdoptControl(c: Live.State, k: Live.Step)
    requires Live.SeensInv(c) && Live.Enabled(c, k) && AdoptsNow(k)
    ensures var d := Live.Apply(c, k); d.log == c.log && d.slot == c.slot && d.rounds == c.rounds && Adopts(c, d)
  {}

  /** An audit, a recovery, a reset of flags, and finalization before it reads the row. */
  predicate Plain(k: Live.Step) {
    k.AuditTakes? || k.RecoveryTakes? || k.Reopen? || k.Revive? || (k.FinalizerTakes? && !LooksAtRow(k))
  }

  lemma PlainControl(c: Live.State, k: Live.Step)
    requires OneAtATime(c) && Live.Enabled(c, k) && Plain(k)
    ensures var d := Live.Apply(c, k);
      && (AdoptsNow(k) || d.memory == c.memory) && d.slot.counter == c.slot.counter && d.rounds == c.rounds
      && (d.log == c.log || (|d.log| == |c.log| + 1 && !d.log[|c.log|].Completed?))
  {
    if k.FinalizerTakes? {
      EarlyFinalizer(c, k.finalizerStep);
    }
  }

  lemma NotSealing(k: Live.Step, c: Live.State)
    requires OneAtATime(c) && Live.Enabled(c, k) && Plain(k)
    ensures !Live.Begins(k) && !k.RoundTakes?
  {}

  lemma PlainStepFresh(s: State, k: Live.Step, verdicts: seq<bool>, key: Key)
    requires Inv(s) && AllFresh(s, key) && Live.Enabled(s.control, k) && Plain(k)
    requires OneAtATime(Live.Apply(s.control, k))
    ensures AllFresh(Follow(s, k, verdicts), key)
  {
    PlainControl(s.control, k);
    NotSealing(k, s.control);
    if AdoptsNow(k) {
      AdoptControl(s.control, k);
      AdoptFresh(s, Follow(s, k, verdicts), key);
    } else {
      LeavesFresh(s, Follow(s, k, verdicts), key);
    }
  }

  lemma RoundStepFresh(s: State, r: nat, k: Live.RoundStep, verdicts: seq<bool>, key: Key)
    requires Inv(s) && AllFresh(s, key) && key.sequenceNo > 0 && Live.RoundEnabled(s.control, r, k) && !LatePanic(s.control, r, k)
    ensures AllFresh(Follow(s, Live.RoundTakes(r, k), verdicts), key)
  {
    RoundStepOneAtATime(s.control, r, k);
    if Failed(s.control.rounds[r].pc) {
      FailureFresh(s, r, k, verdicts, key);
    } else if k == Live.Complete {
      CompleteFresh(s, r, verdicts, key);
    } else if Reorganizes(k) {
      ReorganizeFresh(s, r, k, verdicts, key);
    } else if Live.WriteOf(s.control, r, k).Some? {
      PersistFresh(s, r, verdicts, key);
    } else {
      QuietStepFresh(s, r, k, verdicts, key);
    }
  }

  /** Neither a finalization reads the row, nor a round panics late, nor the process goes down. */
  predicate LiveOnly(s: State, step: Step) {
    step.Protocol? ==> !LooksAtRow(step.step) && !PanicsLate(s.control, step.step) && step.step != Live.Restart
  }

  lemma StepKeepsFresh(s: State, step: Step, key: Key)
    requires Inv(s) && AllFresh(s, key) && key.sequenceNo > 0 && Enabled(s, step) && LiveOnly(s, step)
    ensures AllFresh(Apply(s, step), key)
  {
    match step {
      case Publish(segment) =>
        DeliverFresh(s.queue, s.contents, key, segment, Storing(s, key));
        assert Storing(Apply(s, step), key) == Storing(s, key);
      case Recover(durable) =>
        RecoverFresh(s, key, durable);
        assert Storing(Apply(s, step), key) == Storing(s, key);
      case Protocol(k, verdicts, durable) =>
        assert !Plans(s, k);
        StepOneAtATime(s.control, k);
        match k {
          case RoundTakes(r, roundStep) => RoundStepFresh(s, r, roundStep, verdicts, key);
          case Dispatch => DispatchFresh(s, verdicts, key);
          case _ => PlainStepFresh(s, k, verdicts, key);
        }
    }
  }

  ghost predicate LiveRun(s: State, steps: seq<Step>)
    requires Exec(s, steps).Some?
    decreases |steps|
  {
    steps == [] || (LiveOnly(s, steps[0]) && LiveRun(Apply(s, steps[0]), steps[1..]))
  }

  lemma {:induction false} RunKeepsFresh(s: State, steps: seq<Step>, key: Key)
    requires Inv(s) && AllFresh(s, key) && key.sequenceNo > 0 && Exec(s, steps).Some? && LiveRun(s, steps)
    ensures AllFresh(Exec(s, steps).value, key)
    decreases |steps|
  {
    if steps != [] {
      StepKeepsFresh(s, steps[0], key);
      StepKeepsInv(s, steps[0]);
      RunKeepsFresh(Apply(s, steps[0]), steps[1..], key);
    }
  }

  lemma StartsFresh(key: Key)
    ensures Inv(INIT) && AllFresh(INIT, key)
  {}

  /**
    While the meeting is live, that is until a finalization reads the row for its
    flush list, and as long as no round panics once it has stored its result, no
    stored analysis is overtaken.
   */
  lemma LiveRoundsAreNeverOvertaken(steps: seq<Step>, key: Key)
    requires Exec(INIT, steps).Some? && key.sequenceNo > 0 && LiveRun(INIT, steps)
    ensures NeverOvertaken(Exec(INIT, steps).value.contents, key)
  {
    StartsFresh(key);
    RunKeepsFresh(INIT, steps, key);
  }

  /** So a key not published again once stored is analysed as its first time, or as the one retry it is due. */
  lemma LiveAnalysesAreDue(steps: seq<Step>, key: Key)
    requires Exec(INIT, steps).Some? && key.sequenceNo > 0 && LiveRun(INIT, steps) && FreshRun(INIT, steps, key)
    ensures EveryAnalysisDue(Exec(INIT, steps).value.contents, key)
  {
    var s := Exec(INIT, steps).value;
    StartsFresh(key);
    RunKeepsFresh(INIT, steps, key);
    EveryAnalysisDueExactlyWhen(steps, key);
    forall i | 0 <= i < |s.contents| && Covers(s.contents[i], key) ensures !Overtaken(s.contents, i, key) {}
  }
}
