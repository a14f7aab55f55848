/**
  Concrete runs of CoverageProtocol: where a segment is analysed once more than it
  should be, and from which reachable states that can happen.
 */
module CoverageRuns {
  import opened Options
  import opened Coverage
  import opened CoverageProtocol
  import opened CoverageHistory
  import Live = LiveRoundProtocol
  import Slots = LiveRound

  // -------------------------------------------------------------- one step after another

  /** Some run from the start leads here, and publishes the key only while no round has stored it. */
  ghost predicate Reached(s: State, key: Key) {
    exists steps :: Leads(steps, s, key)
  }

  ghost predicate Leads(steps: seq<Step>, s: State, key: Key) {
    Exec(INIT, steps) == Some(s) && FreshRun(INIT, steps, key)
  }

  lemma {:induction false} ExecAppend(s: State, steps: seq<Step>, step: Step, key: Key)
    requires Exec(s, steps).Some? && Enabled(Exec(s, steps).value, step)
    ensures Exec(s, steps + [step]) == Some(Apply(Exec(s, steps).value, step))
    ensures FreshRun(s, steps, key) && FreshDelivery(Exec(s, steps).value, step, key) ==> FreshRun(s, steps + [step], key)
    decreases |steps|
  {
    if steps == [] {
      assert ([step])[1..] == [];
      assert Exec(Apply(s, step), []) == Some(Apply(s, step));
    } else {
      assert (steps + [step])[1..] == steps[1..] + [step];
      ExecAppend(Apply(s, steps[0]), steps[1..], step, key);
    }
  }

  lemma Then(s: State, step: Step, key: Key) returns (t: State)
    requires Reached(s, key) && Enabled(s, step) && FreshDelivery(s, step, key)
    ensures t == Apply(s, step) && Reached(t, key)
  {
    t := Apply(s, step);
    var steps :| Leads(steps, s, key);
    ExecAppend(INIT, steps, step, key);
    assert Leads(steps + [step], t, key);
  }

  lemma Start(key: Key) returns (s: State)
    ensures s == INIT && Reached(s, key)
  {
    s := INIT;
    assert Leads([], INIT, key);
  }

  /** The steps of a round that neither release it nor write, nor touch the session. */
  predicate Silent(k: Live.RoundStep) {
    k == Live.ReadGeneration || k == Live.ReadBase || k == Live.CheckSuperseded || k.ReadStoredBase?
  }

  /** The state with round `r` as given. */
  function At(s: State, r: nat, round: Live.Round): State {
    s.(control := s.control.(rounds := s.control.rounds[r := round]))
  }

  lemma AtTwice(s: State, r: nat, round: Live.Round, later: Live.Round)
    ensures At(At(s, r, round), r, later) == At(s, r, later)
  {}

  lemma ThenSilent(s: State, r: nat, k: Live.RoundStep, verdicts: seq<bool>, key: Key) returns (t: State)
    requires Reached(s, key) && Live.RoundEnabled(s.control, r, k) && Silent(k)
    requires r in s.batches && |verdicts| == |s.batches[r].segments|
    ensures Reached(t, key) && t == At(s, r, Live.NextRound(s.control, r, k))
  {
    t := Then(s, Protocol(Live.RoundTakes(r, k), verdicts, []), key);
    SilentStep(s.control, r, k);
  }

  lemma SilentStep(c: Live.State, r: nat, k: Live.RoundStep)
    requires Live.RoundEnabled(c, r, k) && Silent(k)
    ensures Live.ApplyRound(c, r, k) == c.(rounds := c.rounds[r := Live.NextRound(c, r, k)])
  {}

  /** A round of a process that holds nothing takes over the stored payload it read. */
  lemma ThenAdopt(s: State, r: nat, verdicts: seq<bool>, key: Key) returns (t: State)
    requires Reached(s, key) && Live.RoundEnabled(s.control, r, Live.AdoptStoredBase)
    requires r in s.batches && |verdicts| == |s.batches[r].segments|
    ensures Reached(t, key)
    ensures var c := s.control; var base := Live.Newer(c.rounds[r].pc.seen, c.memory);
      t == s.(control := c.(memory := base, seeded := true, rounds := c.rounds[r := c.rounds[r].(pc := Live.Analysing, base := base)]))
  {
    t := Then(s, Protocol(Live.RoundTakes(r, Live.AdoptStoredBase), verdicts, []), key);
    AdoptStep(s.control, r);
  }

  lemma AdoptStep(c: Live.State, r: nat)
    requires Live.RoundEnabled(c, r, Live.AdoptStoredBase)
    ensures var base := Live.Newer(c.rounds[r].pc.seen, c.memory);
      Live.ApplyRound(c, r, Live.AdoptStoredBase) ==
        c.(memory := base, seeded := true, rounds := c.rounds[r := c.rounds[r].(pc := Live.Analysing, base := base)])
  {}

  /** The steps of finalization that neither write, nor begin a round, nor fix the flush list. */
  predicate Looks(k: Live.FinalizerStep) {
    k.EnterFinalization? || k == Live.EnterBarrier || k == Live.BarrierTimesOut || k == Live.ReadMemory || k.ReadStoredRow?
  }

  lemma ThenLooks(s: State, k: Live.FinalizerStep, key: Key) returns (t: State)
    requires Reached(s, key) && Live.FinalizerEnabled(s.control, k) && Looks(k)
    ensures Reached(t, key) && t == s.(control := Live.ApplyFinalizer(s.control, k))
  {
    t := Then(s, Protocol(Live.FinalizerTakes(k), [], []), key);
  }

  /** Round `r`, not superseded, reads its base. */
  lemma ThenReadBase(s: State, r: nat, verdicts: seq<bool>, key: Key) returns (t: State)
    requires Reached(s, key) && r in s.control.rounds && s.control.rounds[r].pc == Live.Launched && s.control.seeded
    requires r in s.batches && |verdicts| == |s.batches[r].segments|
    ensures Reached(t, key)
    ensures t == At(s, r, s.control.rounds[r].(pc := Live.Analysing, generation := s.control.slot.generation, base := s.control.memory))
  {
    var read := s.control.rounds[r].(pc := Live.Reading, generation := s.control.slot.generation);
    t := ThenSilent(s, r, Live.ReadGeneration, verdicts, key);
    assert t == At(s, r, read);
    t := ThenSilent(t, r, Live.ReadBase, verdicts, key);
    AtTwice(s, r, read, read.(pc := Live.Analysing, base := s.control.memory));
  }

  lemma ThenCheck(s: State, r: nat, round: Live.Round, verdicts: seq<bool>, key: Key) returns (t: State)
    requires Reached(At(s, r, round), key) && round.pc == Live.Analysing && !Slots.SlotSuperseded(s.control.slot, round.generation)
    requires r in s.batches && |verdicts| == |s.batches[r].segments|
    ensures Reached(t, key) && t == At(s, r, round.(pc := Live.Persisting))
  {
    t := ThenSilent(At(s, r, round), r, Live.CheckSuperseded, verdicts, key);
    AtTwice(s, r, round, round.(pc := Live.Persisting));
  }

  /** Round `r`, not superseded, reads its base and passes the check. */
  lemma ThenPassCheck(s: State, r: nat, verdicts: seq<bool>, key: Key) returns (t: State)
    requires Reached(s, key) && r in s.control.rounds && s.control.rounds[r].pc == Live.Launched && s.control.seeded
    requires r in s.batches && |verdicts| == |s.batches[r].segments|
    requires !Slots.SlotSuperseded(s.control.slot, s.control.slot.generation)
    ensures Reached(t, key)
    ensures t == At(s, r, s.control.rounds[r].(pc := Live.Persisting, generation := s.control.slot.generation, base := s.control.memory))
  {
    t := ThenReadBase(s, r, verdicts, key);
    t := ThenCheck(s, r, t.control.rounds[r], verdicts, key);
  }

  /** A process that holds nothing, with no row stored, launches round `r`. */
  ghost predicate Blank(s: State, r: nat, verdicts: seq<bool>, key: Key) {
    && Reached(s, key) && r in s.control.rounds && s.control.rounds[r] == Live.LAUNCHED && !s.control.seeded
    && s.control.memory == Live.NOTHING && s.control.log == []
    && r in s.batches && |verdicts| == |s.batches[r].segments|
    && !Slots.SlotSuperseded(s.control.slot, s.control.slot.generation)
  }

  lemma ThenReadNothing(s: State, r: nat, verdicts: seq<bool>, key: Key) returns (t: State)
    requires Blank(s, r, verdicts, key)
    ensures Reached(t, key)
    ensures t == At(s, r, Live.LAUNCHED.(pc := Live.Seeding(Live.NOTHING), generation := s.control.slot.generation))
  {
    var read := Live.LAUNCHED.(pc := Live.Reading, generation := s.control.slot.generation);
    t := ThenSilent(s, r, Live.ReadGeneration, verdicts, key);
    assert t == At(s, r, read);
    t := ThenLookUpNothing(s, r, read, verdicts, key);
  }

  lemma ThenLookUpNothing(s: State, r: nat, read: Live.Round, verdicts: seq<bool>, key: Key) returns (t: State)
    requires Reached(At(s, r, read), key) && read.pc == Live.Reading && !s.control.seeded
    requires s.control.memory == Live.NOTHING && s.control.log == [] && r in s.batches && |verdicts| == |s.batches[r].segments|
    ensures Reached(t, key) && t == At(s, r, read.(pc := Live.Seeding(Live.NOTHING)))
  {
    t := ThenSilent(At(s, r, read), r, Live.ReadBase, verdicts, key);
    AtTwice(s, r, read, read.(pc := Live.Unseeded(Live.NOTHING)));
    t := ThenSilent(t, r, Live.ReadStoredBase(true), verdicts, key);
    AtTwice(s, r, read.(pc := Live.Unseeded(Live.NOTHING)), read.(pc := Live.Seeding(Live.NOTHING)));
  }

  /** Its first round passes the check. */
  lemma ThenSeedFromNothing(s: State, r: nat, verdicts: seq<bool>, key: Key) returns (t: State)
    requires Blank(s, r, verdicts, key)
    ensures Reached(t, key)
    ensures t == At(s.(control := s.control.(seeded := true)), r, Live.LAUNCHED.(pc := Live.Persisting, generation := s.control.slot.generation))
  {
    t := ThenReadNothing(s, r, verdicts, key);
    t := ThenAdopt(t, r, verdicts, key);
    var seeded := s.(control := s.control.(seeded := true));
    var round := Live.LAUNCHED.(pc := Live.Analysing, generation := s.control.slot.generation);
    assert t == At(seeded, r, round);
    t := ThenCheck(seeded, r, round, verdicts, key);
  }

  lemma ThenDispatch(s: State, key: Key) returns (t: State)
    requires Reached(s, key) && Live.Enabled(s.control, Live.Dispatch) && s.queue.pending != []
    ensures Reached(t, key)
    ensures t == s.(control := Live.Begin(s.control), queue := s.queue.(pending := []),
                    batches := s.batches[s.control.slot.counter + 1 := Batch(s.queue.pending, s.queue.available, s.queue.since, false, 0)])
  {
    DispatchTakes(s);
    t := Then(s, Protocol(Live.Dispatch, [], []), key);
  }

  lemma DispatchTakes(s: State)
    requires Live.Enabled(s.control, Live.Dispatch) && s.queue.pending != []
    ensures Enabled(s, Protocol(Live.Dispatch, [], []))
    ensures Apply(s, Protocol(Live.Dispatch, [], [])) ==
      s.(control := Live.Begin(s.control), queue := s.queue.(pending := []),
         batches := s.batches[s.control.slot.counter + 1 := Batch(s.queue.pending, s.queue.available, s.queue.since, false, 0)])
  {
    DispatchStep(s);
  }

  lemma DispatchStep(s: State)
    requires Live.Enabled(s.control, Live.Dispatch)
    ensures Live.Apply(s.control, Live.Dispatch) == Live.Begin(s.control)
    ensures Take(s, Live.Dispatch, [], []) == Follow(s, Live.Dispatch, [])
    ensures NextContents(s, Live.Begin(s.control).log, []) == s.contents
    ensures NextQueue(s, Live.Dispatch) == s.queue.(pending := [])
    ensures NextBatches(s, Live.Dispatch) == Sealed(s, Batch(s.queue.pending, s.queue.available, s.queue.since, false, 0))
  {}

  lemma ThenFlush(s: State, key: Key) returns (t: State)
    requires Reached(s, key) && s.control.finalizer.pc == Live.Planned && s.list != []
    ensures Reached(t, key)
    ensures var r := s.control.slot.counter + 1;
      t == s.(control := Live.Begin(s.control).(finalizer := s.control.finalizer.(pc := Live.Flushing(r))),
              batches := s.batches[r := Batch(s.list, s.queue.available, All(s.list, s.listSince), true, 0)])
  {
    FlushTakes(s);
    t := Then(s, Protocol(Live.FinalizerTakes(Live.FlushBegin), [], []), key);
  }

  lemma FlushTakes(s: State)
    requires s.control.finalizer.pc == Live.Planned && s.list != []
    ensures var step, r := Protocol(Live.FinalizerTakes(Live.FlushBegin), [], []), s.control.slot.counter + 1;
      && Enabled(s, step)
      && Apply(s, step) ==
           s.(control := Live.Begin(s.control).(finalizer := s.control.finalizer.(pc := Live.Flushing(r))),
              batches := s.batches[r := Batch(s.list, s.queue.available, All(s.list, s.listSince), true, 0)])
  {
    FlushStep(s);
  }

  lemma FlushStep(s: State)
    requires s.control.finalizer.pc == Live.Planned
    ensures var k := Live.FinalizerTakes(Live.FlushBegin); var r := s.control.slot.counter + 1;
      && Live.Apply(s.control, k) == Live.Begin(s.control).(finalizer := s.control.finalizer.(pc := Live.Flushing(r)))
      && Take(s, k, [], []) == Follow(s, k, []) && NextContents(s, s.control.log, []) == s.contents && NextQueue(s, k) == s.queue
      && NextBatches(s, k) == Sealed(s, Batch(s.list, s.queue.available, All(s.list, s.listSince), true, 0))
  {}

  lemma ThenPersist(s: State, r: nat, verdicts: seq<bool>, key: Key) returns (t: State)
    requires Reached(s, key) && Live.RoundEnabled(s.control, r, Live.Persist) && r in s.batches
    requires Live.SwapSucceeds(s.control, s.control.rounds[r].base.version) && |verdicts| == |s.batches[r].segments|
    requires |s.contents| == |s.control.log|
    ensures Reached(t, key)
    ensures var c, batch, base := s.control, s.batches[r], s.control.rounds[r].base;
      t == s.(control := c.(rounds := c.rounds[r := c.rounds[r].(pc := Live.Stored, result := Live.Seen(base.version + 1, |c.log| + 1))],
                            log := c.log + [Live.Completed(r, base.version, base.at)]),
              batches := s.batches[r := batch.(wrote := |s.contents| + 1)],
              contents := s.contents + [Analysed(base.at, batch.segments, verdicts, batch.available, batch.since, batch.flush)])
  {
    var base := s.control.rounds[r].base;
    Live.PersistStep(s.control, r);
    PersistStep(s, r, verdicts);
    t := Then(s, Protocol(Live.RoundTakes(r, Live.Persist), verdicts, []), key);
  }

  lemma PersistStep(s: State, r: nat, verdicts: seq<bool>)
    requires Live.RoundEnabled(s.control, r, Live.Persist) && r in s.batches && |s.contents| == |s.control.log|
    requires Live.SwapSucceeds(s.control, s.control.rounds[r].base.version)
    ensures var k, batch, base := Live.RoundTakes(r, Live.Persist), s.batches[r], s.control.rounds[r].base;
      && Take(s, k, verdicts, []) == Follow(s, k, verdicts) && NextQueue(s, k) == s.queue
      && NextBatches(s, k) == s.batches[r := batch.(wrote := |s.contents| + 1)]
      && NextContents(s, s.control.log + [Live.Completed(r, base.version, base.at)], verdicts) ==
           s.contents + [Analysed(base.at, batch.segments, verdicts, batch.available, batch.since, batch.flush)]
  {
    var base := s.control.rounds[r].base;
    assert Live.WriteOf(s.control, r, Live.Persist) == Some(Live.Completed(r, base.version, base.at));
    assert (s.control.log + [Live.Completed(r, base.version, base.at)])[|s.control.log|] == Live.Completed(r, base.version, base.at);
  }

  lemma CompleteStep(c: Live.State, r: nat)
    requires Live.RoundEnabled(c, r, Live.Complete) && Slots.FinishApplies(c.slot, c.rounds[r].generation) && c.slot.done.Some?
    ensures Live.ApplyRound(c, r, Live.Complete) ==
      c.(rounds := c.rounds[r := c.rounds[r].(pc := Live.Ended, completed := true)], memory := c.rounds[r].result,
         slot := c.slot.(running := false, done := None), closed := c.closed + [c.slot.done.value])
  {}

  lemma ThenComplete(s: State, r: nat, verdicts: seq<bool>, key: Key) returns (t: State)
    requires Reached(s, key) && Live.RoundEnabled(s.control, r, Live.Complete) && r in s.batches
    requires Slots.FinishApplies(s.control.slot, s.control.rounds[r].generation) && s.control.slot.done.Some?
    requires |verdicts| == |s.batches[r].segments|
    ensures Reached(t, key)
    ensures var c := s.control;
      t == s.(control := c.(rounds := c.rounds[r := c.rounds[r].(pc := Live.Ended, completed := true)], memory := c.rounds[r].result,
                            slot := c.slot.(running := false, done := None), closed := c.closed + [c.slot.done.value]),
              queue := Settled(s, s.batches[r]))
  {
    t := Then(s, Protocol(Live.RoundTakes(r, Live.Complete), verdicts, []), key);
    CompleteStep(s.control, r);
  }

  /** Finalization enters its barrier and gives up on the running round. */
  lemma ThenTimeOut(s: State, key: Key) returns (t: State)
    requires Reached(s, key) && s.control.finalizer.pc == Live.Idle && s.control.slot.done.Some?
    ensures Reached(t, key)
    ensures var c := s.control;
      t == s.(control := c.(finalizing := true, barred := true, auditClosed := true, slot := Slots.SupersedeSlot(c.slot),
                            finalizer := Live.Finalizer(Live.Looking(false), true, |c.log|, Live.NOTHING)))
  {
    t := ThenEnter(s, key);
    t := ThenLooks(t, Live.BarrierTimesOut, key);
  }

  lemma ThenEnter(s: State, key: Key) returns (t: State)
    requires Reached(s, key) && s.control.finalizer.pc == Live.Idle && s.control.slot.done.Some?
    ensures Reached(t, key)
    ensures var c := s.control;
      t == s.(control := c.(finalizing := true, barred := true, auditClosed := true,
                            finalizer := Live.Finalizer(Live.Awaiting(c.slot.done.value), false, |c.log|, Live.NOTHING)))
  {
    t := ThenLooks(s, Live.EnterFinalization(true), key);
    t := ThenLooks(t, Live.EnterBarrier, key);
  }

  lemma ThenReadRow(s: State, key: Key) returns (t: State)
    requires Reached(s, key) && s.control.finalizer.pc == Live.Looking(false) && s.control.log != []
    requires s.control.memory == Live.Row(s.control)
    ensures Reached(t, key)
    ensures var c := s.control;
      t == s.(control := c.(finalizer := c.finalizer.(pc := Live.RowRead(false, c.memory, Some(c.memory)))))
  {
    t := ThenLooks(s, Live.ReadMemory, key);
    t := ThenLooks(t, Live.ReadStoredRow(true), key);
  }

  lemma AdoptSnapshotStep(c: Live.State)
    requires c.seeded && c.finalizer.pc == Live.RowRead(false, c.memory, Some(c.memory))
    ensures Live.ApplyFinalizer(c, Live.AdoptSnapshot) == c.(finalizer := c.finalizer.(pc := Live.Planned, snapshot := c.memory))
  {}

  /** Its snapshot is the row, which the process holds, and the flush list is fixed. */
  lemma ThenPlan(s: State, durable: seq<Segment>, key: Key) returns (t: State)
    requires Reached(s, key) && s.control.finalizer.pc == Live.Looking(false) && s.control.log != [] && s.control.seeded
    requires s.control.memory == Live.Row(s.control) && DistinctKeys(durable)
    ensures Reached(t, key)
    ensures var c := s.control;
      t == Plan(s.(control := c.(finalizer := c.finalizer.(pc := Live.Planned, snapshot := c.memory))), c.memory.at, durable)
  {
    var read := ThenReadRow(s, key);
    var k := Live.FinalizerTakes(Live.AdoptSnapshot);
    AdoptSnapshotStep(read.control);
    assert NextContents(read, read.control.log, []) == read.contents;
    assert Follow(read, k, []) == read.(control := Live.Apply(read.control, k));
    t := Then(read, Protocol(k, [], durable), key);
  }

  // ------------------------------------------------- the flush over a superseded round

  const FIRST := Segment("", 1, true, true)
  const SECOND := Segment("", 2, true, true)

  lemma DeliverAlone(q: Queue, segment: Segment, at: nat)
    requires q.pending == [] && q.deferred == []
    ensures Deliver(q, segment, at) ==
      q.(pending := [segment], since := map[KeyOf(segment) := at], available := Max(q.available, segment.sequenceNo))
  {
    var seen := See(q, segment.sequenceNo);
    assert Released(q.deferred, segment.sequenceNo) == [];
    assert Keys([]) == {};
    assert Put(seen, [], All([], q.deferredSince)) == seen.(since := map[]);
    assert AppendAll([], [segment]) == AppendPending(AppendAll([], [segment][..0]), segment) == [segment];
    assert Keys([segment]) == {KeyOf(segment)};
    assert Put(seen.(since := map[]), [segment], All([segment], at)).since == map[KeyOf(segment) := at];
  }

  /** A segment that arrives alone, before any round stored it. */
  lemma ThenPublish(s: State, segment: Segment, key: Key) returns (t: State)
    requires Reached(s, key) && s.queue.pending == [] && s.queue.deferred == [] && Usable(segment)
    requires FreshDelivery(s, Publish(segment), key)
    ensures Reached(t, key)
    ensures t == s.(queue := s.queue.(pending := [segment], since := map[KeyOf(segment) := |s.contents|],
                                      available := Max(s.queue.available, segment.sequenceNo)))
  {
    t := Then(s, Publish(segment), key);
    DeliverAlone(s.queue, segment, |s.contents|);
  }

  const STORED_FIRST := Analysed(0, [FIRST], [true], 1, map[KeyOf(FIRST) := 0], false)

  lemma AfterFirst()
    ensures var p := PayloadAt([STORED_FIRST], 1);
      p.analyzed == [KeyOf(FIRST)] && p.entries == map[KeyOf(FIRST) := Entry(true, false, 1, 0)]
    ensures HistoryAt([STORED_FIRST], 1, KeyOf(SECOND)).Never?
  {
    assert Normalized(EMPTY_PAYLOAD, 0) == EMPTY_PAYLOAD;
    assert PayloadAt([STORED_FIRST], 0) == EMPTY_PAYLOAD;
    assert RecordAll(EMPTY_PAYLOAD, [FIRST], [true], 0) == EMPTY_PAYLOAD;
    assert PayloadAt([STORED_FIRST], 1) == Record(EMPTY_PAYLOAD, FIRST, true, Top([FIRST]));
    assert HistoryAt([STORED_FIRST], 0, KeyOf(SECOND)).Never?;
  }

  /** A round over one segment that is reflected leaves nothing to retry. */
  lemma SettledAlone(s: State, batch: Batch, segment: Segment)
    requires s.queue.pending == [] && batch.segments == [segment]
    requires var p := PayloadAt(s.contents, batch.wrote); KeyOf(segment) in p.entries && !p.entries[KeyOf(segment)].retryEligible
    ensures Settled(s, batch) == s.queue.(deferred := [], deferredSince := batch.wrote)
  {
    assert Without([], PositiveKeys(batch.segments)) == [];
    var q := PayloadAt(s.contents, batch.wrote);
    var decisions := map k | k in UsableKeys(batch.segments) && k in q.entries :: q.entries[k];
    assert DeferredFrom([segment][..0], decisions) == [];
    assert DeferredFrom([segment], decisions) == [];
  }

  /** The first segment of a fresh process is taken by a round. */
  lemma FirstTaken(key: Key) returns (t: State)
    ensures Reached(t, key) && t.contents == []
    ensures t.queue == Queue([], map[KeyOf(FIRST) := 0], [], 0, 1)
    ensures t.batches == map[1 := Batch([FIRST], 1, map[KeyOf(FIRST) := 0], false, 0)]
    ensures t.control == Live.Begin(Live.INIT)
  {
    var start := Start(key);
    var waiting := ThenPublish(start, FIRST, key);
    t := ThenDispatch(waiting, key);
  }

  /** It passes its check. */
  lemma FirstChecked(key: Key) returns (t: State)
    ensures Reached(t, key) && t.contents == []
    ensures t.queue == Queue([], map[KeyOf(FIRST) := 0], [], 0, 1)
    ensures 1 in t.batches && t.batches[1] == Batch([FIRST], 1, map[KeyOf(FIRST) := 0], false, 0)
    ensures 1 in t.control.rounds && t.control.rounds[1] == Live.LAUNCHED.(pc := Live.Persisting, generation := 1)
    ensures var c := t.control; c.seeded && c.memory == Live.NOTHING && c.log == [] && c.slot == Slots.Slot(1, 1, true, Some(1), 0)
    ensures var c := t.control; !c.stopped && !c.finalizing && !c.barred && c.finalizer.pc == Live.Idle && c.recovery == Live.NoRecovery
  {
    var taken := FirstTaken(key);
    t := ThenSeedFromNothing(taken, 1, [true], key);
  }

  lemma FirstPersisted(key: Key) returns (t: State)
    ensures Reached(t, key) && t.contents == [STORED_FIRST]
    ensures t.queue == Queue([], map[KeyOf(FIRST) := 0], [], 0, 1)
    ensures 1 in t.batches && t.batches[1] == Batch([FIRST], 1, map[KeyOf(FIRST) := 0], false, 1)
    ensures 1 in t.control.rounds
    ensures t.control.rounds[1] == Live.Round(Live.Stored, 1, Live.NOTHING, Live.Seen(1, 1), false, false)
    ensures var c := t.control; c.seeded && c.memory == Live.NOTHING && c.log == [Live.Completed(1, 0, 0)]
    ensures t.control.slot == Slots.Slot(1, 1, true, Some(1), 0)
    ensures var c := t.control; !c.stopped && !c.finalizing && !c.barred && c.finalizer.pc == Live.Idle && c.recovery == Live.NoRecovery
  {
    var checked := FirstChecked(key);
    t := ThenPersist(checked, 1, [true], key);
  }

  /** The first round of a fresh process has stored the first segment. */
  lemma FirstStored(key: Key) returns (t: State)
    ensures Reached(t, key) && t.contents == [STORED_FIRST]
    ensures t.queue.pending == [] && t.queue.deferred == [] && t.queue.available == 1
    ensures var c := t.control; c.seeded && c.memory == Live.Seen(1, 1) && c.log == [Live.Completed(1, 0, 0)]
    ensures var c := t.control; c.slot == Slots.Slot(1, 1, false, None, 0)
    ensures var c := t.control; !c.stopped && !c.finalizing && !c.barred && c.finalizer.pc == Live.Idle
  {
    var stored := FirstPersisted(key);
    AfterFirst();
    SettledAlone(stored, stored.batches[1], FIRST);
    t := ThenComplete(stored, 1, [true], key);
  }

  lemma ListOfSecond()
    ensures Unanalyzed(PayloadAt([STORED_FIRST], 1), [FIRST, SECOND]) == [SECOND]
    ensures DistinctKeys([FIRST, SECOND]) && HighestFinal([FIRST, SECOND]) == 2
  {
    AfterFirst();
    assert [FIRST, SECOND][..1] == [FIRST];
    assert [FIRST][..0] == [];
    assert Unanalyzed(PayloadAt([STORED_FIRST], 1), [FIRST]) == [];
    assert HighestFinal([FIRST]) == 1;
  }

  /** The second round has passed its check when the barrier gives up on it. */
  lemma SecondChecked() returns (t: State)
    ensures Reached(t, KeyOf(SECOND)) && t.contents == [STORED_FIRST]
    ensures t.queue.pending == [] && t.queue.deferred == [] && t.queue.available == 2
    ensures 2 in t.batches && t.batches[2] == Batch([SECOND], 2, map[KeyOf(SECOND) := 1], false, 0)
    ensures 2 in t.control.rounds
    ensures t.control.rounds[2] == Live.LAUNCHED.(pc := Live.Persisting, generation := 2, base := Live.Seen(1, 1))
    ensures var c := t.control; c.seeded && c.memory == Live.Seen(1, 1) && c.log == [Live.Completed(1, 0, 0)]
    ensures var c := t.control;
      c.slot == Slots.Slot(2, 2, true, Some(2), 2) && c.finalizer == Live.Finalizer(Live.Looking(false), true, 1, Live.NOTHING)
  {
    var key := KeyOf(SECOND);
    t := FirstStored(key);
    AfterFirst();
    t := ThenPublish(t, SECOND, key);
    t := ThenDispatch(t, key);
    t := ThenPassCheck(t, 2, [true], key);
    t := ThenTimeOut(t, key);
  }

  /** The flush list is fixed while the round still holds its segment. */
  lemma SecondPlanned() returns (t: State)
    ensures Reached(t, KeyOf(SECOND)) && t.contents == [STORED_FIRST]
    ensures t.list == [SECOND] && t.listSince == 1 && t.queue.available == 2
    ensures 2 in t.batches && t.batches[2] == Batch([SECOND], 2, map[KeyOf(SECOND) := 1], false, 0)
    ensures 2 in t.control.rounds
    ensures t.control.rounds[2] == Live.LAUNCHED.(pc := Live.Persisting, generation := 2, base := Live.Seen(1, 1))
    ensures var c := t.control; c.seeded && c.log == [Live.Completed(1, 0, 0)]
    ensures var c := t.control; c.slot == Slots.Slot(2, 2, true, Some(2), 2) && c.finalizer.pc == Live.Planned
  {
    t := SecondChecked();
    ListOfSecond();
    t := ThenPlan(t, [FIRST, SECOND], KeyOf(SECOND));
  }

  const STORED_SECOND := Analysed(1, [SECOND], [true], 2, map[KeyOf(SECOND) := 1], false)
  const FLUSHED_SECOND := STORED_SECOND.(from := 2, flush := true)

  /** Only then does it store its result. */
  lemma SecondPersisted() returns (t: State)
    ensures Reached(t, KeyOf(SECOND)) && t.contents == [STORED_FIRST, STORED_SECOND]
    ensures t.list == [SECOND] && t.listSince == 1 && t.queue.available == 2 && 2 in t.batches && t.batches[2].segments == [SECOND]
    ensures var c := t.control; c.seeded && c.log == [Live.Completed(1, 0, 0), Live.Completed(2, 1, 1)]
    ensures 2 in t.control.rounds
    ensures t.control.rounds[2] == Live.Round(Live.Stored, 2, Live.Seen(1, 1), Live.Seen(2, 2), false, false)
    ensures t.control.slot == Slots.Slot(2, 2, true, Some(2), 2) && t.control.finalizer.pc == Live.Planned
  {
    t := SecondPlanned();
    t := ThenPersist(t, 2, [true], KeyOf(SECOND));
  }

  /** It completes. */
  lemma SecondStored() returns (t: State)
    ensures Reached(t, KeyOf(SECOND)) && t.contents == [STORED_FIRST, STORED_SECOND]
    ensures t.list == [SECOND] && t.listSince == 1 && t.queue.available == 2
    ensures var c := t.control; c.seeded && c.log == [Live.Completed(1, 0, 0), Live.Completed(2, 1, 1)]
    ensures var c := t.control; c.memory == Live.Seen(2, 2) && c.slot == Slots.Slot(2, 2, false, None, 2)
    ensures t.control.finalizer.pc == Live.Planned
  {
    t := SecondPersisted();
    t := ThenComplete(t, 2, [true], KeyOf(SECOND));
  }

  /** The flush round takes it from the list, reads the new base and passes its own check. */
  lemma FlushChecked() returns (t: State)
    ensures Reached(t, KeyOf(SECOND)) && t.contents == [STORED_FIRST, STORED_SECOND]
    ensures 3 in t.batches && t.batches[3] == Batch([SECOND], 2, map[KeyOf(SECOND) := 1], true, 0)
    ensures 3 in t.control.rounds
    ensures t.control.rounds[3] == Live.LAUNCHED.(pc := Live.Persisting, generation := 3, base := Live.Seen(2, 2))
    ensures t.control.log == [Live.Completed(1, 0, 0), Live.Completed(2, 1, 1)]
  {
    var key := KeyOf(SECOND);
    t := SecondStored();
    assert All([SECOND], 1) == map[KeyOf(SECOND) := 1];
    t := ThenFlush(t, key);
    t := ThenPassCheck(t, 3, [true], key);
  }

  lemma FlushedInVain()
    ensures var contents := [STORED_FIRST, STORED_SECOND, FLUSHED_SECOND];
      Overtaken(contents, 2, KeyOf(SECOND)) && !EveryAnalysisDue(contents, KeyOf(SECOND))
  {
    var contents, key := [STORED_FIRST, STORED_SECOND, FLUSHED_SECOND], KeyOf(SECOND);
    assert SECOND in contents[1].segments && SECOND in contents[2].segments;
    assert Covers(contents[1], key) && Covers(contents[2], key);
    assert VerdictOn([SECOND], [true], 1, key);
    assert Overtakes(contents, 1, 2, key) && !Harmless(contents, 1, 2, key);
    OnceIsOne(contents, 2, 1, key);
  }

  /**
    A key published once: the flush list is fixed while the superseded round still
    holds the key, that round stores it, and the flush analyses it again, though it
    was reflected and no number above its own was ever available.
   */
  lemma FlushAnalysesAgain() returns (t: State)
    ensures Reached(t, KeyOf(SECOND)) && NeverLowered(t.control.log)
    ensures t.contents == [STORED_FIRST, STORED_SECOND, FLUSHED_SECOND]
    ensures Overtaken(t.contents, 2, KeyOf(SECOND)) && !EveryAnalysisDue(t.contents, KeyOf(SECOND))
  {
    t := FlushStored();
    FlushedInVain();
  }

  lemma FlushStored() returns (t: State)
    ensures Reached(t, KeyOf(SECOND)) && t.contents == [STORED_FIRST, STORED_SECOND, FLUSHED_SECOND]
    ensures t.control.log == [Live.Completed(1, 0, 0), Live.Completed(2, 1, 1), Live.Completed(3, 2, 2)]
  {
    t := FlushChecked();
    t := ThenPersist(t, 3, [true], KeyOf(SECOND));
  }

  // --------------------------------------------------------------- a late panic

  lemma PanicStep(c: Live.State, r: nat)
    requires Live.RoundEnabled(c, r, Live.Panic) && Slots.FinishApplies(c.slot, c.rounds[r].generation) && c.slot.done.Some?
    ensures Live.ApplyRound(c, r, Live.Panic) ==
      c.(rounds := c.rounds[r := c.rounds[r].(pc := Live.Ended)],
         slot := c.slot.(running := false, done := None), closed := c.closed + [c.slot.done.value])
  {}

  lemma ThenPanic(s: State, r: nat, verdicts: seq<bool>, key: Key) returns (t: State)
    requires Reached(s, key) && Live.RoundEnabled(s.control, r, Live.Panic) && r in s.batches
    requires Slots.FinishApplies(s.control.slot, s.control.rounds[r].generation) && s.control.slot.done.Some?
    requires |verdicts| == |s.batches[r].segments|
    ensures Reached(t, key)
    ensures var c := s.control;
      t == s.(control := c.(rounds := c.rounds[r := c.rounds[r].(pc := Live.Ended)],
                            slot := c.slot.(running := false, done := None), closed := c.closed + [c.slot.done.value]),
              queue := Put(s.queue, s.batches[r].segments, s.batches[r].since))
  {
    PanicStep(s.control, r);
    t := Then(s, Protocol(Live.RoundTakes(r, Live.Panic), verdicts, []), key);
  }

  /** The steps of the recovery that only read. */
  lemma ThenReadsRecovery(s: State, k: Live.RecoveryStep, key: Key) returns (t: State)
    requires Reached(s, key) && Live.RecoveryEnabled(s.control, k)
    ensures Reached(t, key) && t == s.(control := Live.ApplyRecovery(s.control, k))
  {
    RecoveryStep(s, k);
    t := Then(s, Protocol(Live.RecoveryTakes(k), [], []), key);
  }

  lemma RecoveryStep(s: State, k: Live.RecoveryStep)
    requires Live.RecoveryEnabled(s.control, k)
    ensures Take(s, Live.RecoveryTakes(k), [], []) == s.(control := Live.ApplyRecovery(s.control, k))
  {
    assert NextContents(s, s.control.log, []) == s.contents;
  }

  /** The periodic recovery reads the row into a session that holds nothing, or fails to. */
  lemma ThenSeedSession(s: State, ok: bool, key: Key) returns (t: State)
    requires Reached(s, key) && s.control.recovery == Live.NoRecovery && s.control.memory == Live.NOTHING
    requires !s.control.stopped && !s.control.finalizing
    ensures Reached(t, key)
    ensures var c := s.control;
      t == s.(control := c.(memory := Live.Newer(if ok then Live.Row(c) else Live.NOTHING, Live.NOTHING), seeded := true))
  {
    t := ThenReadsRecovery(s, Live.BeginRecovery, key);
    t := ThenReadsRecovery(t, Live.ReadRecoveredRow(ok), key);
    t := ThenReadsRecovery(t, Live.AdoptRecovered, key);
  }

  const AGAIN_FIRST := STORED_FIRST.(from := 1)

  lemma PutBackAlone(q: Queue, segment: Segment, since: map<Key, nat>)
    requires q.pending == [] && since.Keys == {KeyOf(segment)}
    ensures Put(q, [segment], since) == q.(pending := [segment], since := since)
  {
    assert AppendAll([], [segment]) == AppendPending(AppendAll([], [segment][..0]), segment) == [segment];
    assert Keys([segment]) == {KeyOf(segment)} && Keys([]) == {};
    assert Put(q, [segment], since).since == since;
  }

  /** The first segment waits again, though the row has it and the session holds nothing. */
  ghost predicate FirstWaits(t: State) {
    && Reached(t, KeyOf(FIRST)) && t.contents == [STORED_FIRST]
    && t.queue == Queue([FIRST], map[KeyOf(FIRST) := 0], [], 0, 1)
    && t.control.log == [Live.Completed(1, 0, 0)] && t.control.slot == Slots.Slot(1, 1, false, None, 0)
    && t.control.memory == Live.NOTHING && t.control.recovery == Live.NoRecovery
    && !t.control.stopped && !t.control.finalizing && !t.control.barred
  }

  /** The first round panics once it has stored. */
  lemma FirstPanicked() returns (t: State)
    ensures FirstWaits(t)
  {
    var stored := FirstPersisted(KeyOf(FIRST));
    PutBackAlone(stored.queue, FIRST, map[KeyOf(FIRST) := 0]);
    t := ThenPanic(stored, 1, [true], KeyOf(FIRST));
  }

  /** Once the recovery has read the row, the next round takes the segment from there. */
  lemma FirstTakenAgain(s: State) returns (t: State)
    requires FirstWaits(s)
    ensures Reached(t, KeyOf(FIRST)) && t.contents == [STORED_FIRST] && t.control.log == [Live.Completed(1, 0, 0)]
    ensures 2 in t.batches && t.batches[2] == Batch([FIRST], 1, map[KeyOf(FIRST) := 0], false, 0)
    ensures 2 in t.control.rounds
    ensures t.control.rounds[2] == Live.LAUNCHED.(pc := Live.Persisting, generation := 2, base := Live.Seen(1, 1))
  {
    var key := KeyOf(FIRST);
    var seeded := ThenSeedSession(s, true, key);
    var taken := ThenDispatch(seeded, key);
    t := ThenPassCheck(taken, 2, [true], key);
  }

  lemma FirstStoredAgain(s: State) returns (t: State)
    requires FirstWaits(s)
    ensures Reached(t, KeyOf(FIRST)) && t.contents == [STORED_FIRST, AGAIN_FIRST]
    ensures t.control.log == [Live.Completed(1, 0, 0), Live.Completed(2, 1, 1)]
  {
    var taken := FirstTakenAgain(s);
    t := ThenPersist(taken, 2, [true], KeyOf(FIRST));
  }

  lemma AnalysedInVain()
    ensures var contents := [STORED_FIRST, AGAIN_FIRST];
      Overtaken(contents, 1, KeyOf(FIRST)) && !EveryAnalysisDue(contents, KeyOf(FIRST))
  {
    var contents, key := [STORED_FIRST, AGAIN_FIRST], KeyOf(FIRST);
    assert FIRST in contents[0].segments && FIRST in contents[1].segments;
    assert Covers(contents[0], key) && Covers(contents[1], key);
    assert VerdictOn([FIRST], [true], 1, key);
    assert Overtakes(contents, 0, 1, key) && !Harmless(contents, 0, 1, key);
    OnceIsOne(contents, 1, 0, key);
  }

  /**
    Without any finalization: a round that panics once it has stored gives its
    segment back, and once the recovery has read the row it is analysed again.
   */
  lemma PanicAfterStoringAnalysesAgain() returns (t: State)
    ensures Reached(t, KeyOf(FIRST)) && NeverLowered(t.control.log)
    ensures t.contents == [STORED_FIRST, AGAIN_FIRST]
    ensures Overtaken(t.contents, 1, KeyOf(FIRST)) && !EveryAnalysisDue(t.contents, KeyOf(FIRST))
  {
    var panicked := FirstPanicked();
    t := FirstStoredAgain(panicked);
    AnalysedInVain();
  }

  /** After a restart the row could not be read, and the recovery queues every durable segment. */
  lemma FirstRecoveredBlindly() returns (t: State)
    ensures FirstWaits(t)
  {
    var key := KeyOf(FIRST);
    var restarted := FirstRestarted();
    var blind := ThenSeedSession(restarted, false, key);
    t := Then(blind, Recover([FIRST]), key);
    RecoverFirst(blind);
  }

  lemma RestartStep(s: State)
    ensures Take(s, Live.Restart, [], []) == s.(control := Live.Restarted(s.control), queue := EMPTY_QUEUE.(available := s.queue.available))
  {
    assert NextContents(s, s.control.log, []) == s.contents;
  }

  /** The process goes down after its first round. */
  lemma FirstRestarted() returns (t: State)
    ensures Reached(t, KeyOf(FIRST)) && t.contents == [STORED_FIRST] && t.queue == EMPTY_QUEUE.(available := 1)
    ensures t.control.log == [Live.Completed(1, 0, 0)] && t.control.slot == Slots.Slot(1, 1, false, None, 0)
    ensures t.control.memory == Live.NOTHING && t.control.recovery == Live.NoRecovery
    ensures !t.control.stopped && !t.control.finalizing && !t.control.barred
  {
    var stored := FirstStored(KeyOf(FIRST));
    RestartStep(stored);
    t := Then(stored, Protocol(Live.Restart, [], []), KeyOf(FIRST));
  }

  lemma RecoverFirst(s: State)
    requires s.queue == EMPTY_QUEUE.(available := 1) && s.control.memory == Live.NOTHING && !s.control.slot.running
    ensures Recovered(s, [FIRST]) == Queue([FIRST], map[KeyOf(FIRST) := 0], [], 0, 1)
  {
    assert [FIRST][..0] == [];
    assert HighestFinal([FIRST]) == 1;
    assert Filtered(EMPTY_PAYLOAD, [FIRST], 1) == [FIRST];
    assert Recoverable([], [FIRST]) == [FIRST];
    assert Keys([FIRST]) == {KeyOf(FIRST)};
    PutBackAlone(s.queue, FIRST, All([FIRST], 0));
  }

  /**
    Without any panic: a recovery that cannot read the row after a restart queues
    what the row has, and once another one has read it that is analysed again.
   */
  lemma FailedReadAfterRestartAnalysesAgain() returns (t: State)
    ensures Reached(t, KeyOf(FIRST)) && NeverLowered(t.control.log)
    ensures t.contents == [STORED_FIRST, AGAIN_FIRST]
    ensures Overtaken(t.contents, 1, KeyOf(FIRST)) && !EveryAnalysisDue(t.contents, KeyOf(FIRST))
  {
    var waiting := FirstRecoveredBlindly();
    t := FirstStoredAgain(waiting);
    AnalysedInVain();
  }

  // ------------------------------------------------------------------ redelivery

  /** No segment is ever published under this key. */
  const NO_KEY := Key("", 0)

  lemma {:induction false} NeverPublished(s: State, steps: seq<Step>)
    requires Exec(s, steps).Some?
    ensures FreshRun(s, steps, NO_KEY)
    decreases |steps|
  {
    if steps != [] {
      NeverPublished(Apply(s, steps[0]), steps[1..]);
    }
  }

  lemma ReachableIsReached(s: State)
    requires Reachable(s)
    ensures Reached(s, NO_KEY)
  {
    var steps :| Exec(INIT, steps) == Some(s);
    NeverPublished(INIT, steps);
    assert Leads(steps, s, NO_KEY);
  }

  lemma ReachedIsReachable(s: State, key: Key)
    requires Reached(s, key)
    ensures Reachable(s)
  {
    var steps :| Leads(steps, s, key);
    assert Exec(INIT, steps) == Some(s);
  }

  /** The scheduler may start a round, and what the process holds is at the version of the row. */
  predicate Idle(c: Live.State) {
    Live.Enabled(c, Live.Dispatch) && c.seeded && c.memory.version == Live.VersionAfter(c.log)
  }

  /** What is waiting once the segment arrived. */
  function Waiting(s: State, segment: Segment): seq<Segment> {
    Deliver(s.queue, segment, |s.contents|).pending
  }

  predicate NotWaiting(q: Queue, key: Key) {
    key !in Keys(q.pending) && forall d :: d in q.deferred ==> KeyOf(d.segment) != key
  }

  lemma WaitsOnce(s: State, segment: Segment)
    requires DistinctKeys(s.queue.pending) && NotWaiting(s.queue, KeyOf(segment))
    ensures DistinctKeys(Waiting(s, segment)) && segment in Waiting(s, segment)
  {
    var q := s.queue;
    var released := Released(q.deferred, segment.sequenceNo);
    ReleasedFacts(q.deferred, segment.sequenceNo);
    AppendAllDistinct(q.pending, released);
    var before := AppendAll(q.pending, released);
    assert KeyOf(segment) !in Keys(before);
    assert AppendAll(before, []) == before;
    assert Waiting(s, segment) == AppendPending(before, segment);
    AppendOne(before, segment);
    assert forall e :: e in before ==> KeyOf(e) in Keys(before);
  }

  /** What the invariant says of a state from which a round is to run. */
  ghost predicate Ready(s: State) {
    && Reached(s, NO_KEY) && DistinctKeys(s.queue.pending) && |s.contents| == |s.control.log|
    && s.control.slot.superseded <= s.control.slot.counter && s.control.memory.at <= |s.contents|
  }

  lemma ReachableIsReady(s: State)
    requires Reachable(s)
    ensures Ready(s)
  {
    ReachableIsReached(s);
    ReachableInv(s);
    assert Live.SeenOk(s.control.log, s.control.memory);
    assert Live.SlotOk(s.control.slot, s.control.closed);
  }

  /** From an idle state, a round can start over what is waiting, and pass its check. */
  lemma QueuedIsChecked(s: State, verdicts: seq<bool>) returns (t: State)
    requires Ready(s) && Idle(s.control) && s.queue.pending != [] && |verdicts| == |s.queue.pending|
    ensures Reached(t, NO_KEY) && t.contents == s.contents && t.control.log == s.control.log
    ensures var r := s.control.slot.counter + 1;
      && r in t.batches && t.batches[r].segments == s.queue.pending
      && r in t.control.rounds && t.control.rounds[r].pc == Live.Persisting && t.control.rounds[r].base == s.control.memory
  {
    var taken := ThenDispatch(s, NO_KEY);
    t := ThenPassCheck(taken, s.control.slot.counter + 1, verdicts, NO_KEY);
  }

  /** The round then stores its result. */
  lemma QueuedIsAnalysed(s: State, verdicts: seq<bool>) returns (t: State)
    requires Ready(s) && Idle(s.control) && s.queue.pending != [] && |verdicts| == |s.queue.pending|
    ensures Reached(t, NO_KEY) && |t.contents| == |s.contents| + 1 && Grows(s.contents, t.contents)
    ensures var content := t.contents[|s.contents|];
      content.Analysed? && content.from == s.control.memory.at && content.segments == s.queue.pending && content.verdicts == verdicts
  {
    var checked := QueuedIsChecked(s, verdicts);
    t := ThenPersist(checked, s.control.slot.counter + 1, verdicts, NO_KEY);
  }

  lemma ThenDeliver(s: State, segment: Segment) returns (t: State)
    requires Ready(s) && Usable(segment) && NotWaiting(s.queue, KeyOf(segment))
    ensures Ready(t) && t.control == s.control && t.contents == s.contents && t.queue.pending == Waiting(s, segment) != []
  {
    WaitsOnce(s, segment);
    t := Then(s, Publish(segment), NO_KEY);
  }

  /**
    Whatever a segment has been through, publishing it again in any reachable idle
    state can cost it another attempt: arrivals are not checked against the row.
   */
  lemma RedeliveryIsAnalysedAgain(s: State, segment: Segment, verdicts: seq<bool>) returns (t: State)
    requires Reachable(s) && Idle(s.control) && Usable(segment) && NotWaiting(s.queue, KeyOf(segment))
    requires |verdicts| == |Waiting(s, segment)|
    ensures Reachable(t)
    ensures Attempts(RowPayload(t).entries, KeyOf(segment)) ==
      Attempts(PayloadAt(s.contents, s.control.memory.at).entries, KeyOf(segment)) + 1
  {
    ReachableIsReady(s);
    WaitsOnce(s, segment);
    var delivered := ThenDeliver(s, segment);
    t := QueuedIsAnalysed(delivered, verdicts);
    ReachedIsReachable(t, NO_KEY);
    var segments, at := Waiting(s, segment), s.control.memory.at;
    PayloadStaysOn(s.contents, t.contents[|s.contents|], at);
    assert segments[..|segments|] == segments;
    AttemptsCountOccurrences(PayloadAt(s.contents, at), segments, verdicts, |segments|, KeyOf(segment));
    DistinctOccurOnce(segments, KeyOf(segment));
  }

  lemma PayloadStaysOn(contents: seq<Content>, content: Content, at: nat)
    requires at <= |contents| && content.from == at && content.Analysed? && |content.segments| == |content.verdicts|
    ensures PayloadAt(contents + [content], |contents| + 1) ==
      RecordAll(PayloadAt(contents, at), content.segments, content.verdicts, |content.segments|)
  {
    PayloadStays(contents, content, at);
  }
}
