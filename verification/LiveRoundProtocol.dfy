/**
  Every interleaving of live rounds, one finalization pipeline with its barrier
  and flush rounds, and the stored live row.  A critical section is one step and
  a repository call is another.
 */
module LiveRoundProtocol {
  import opened Options
  import opened LiveRound

  // ----------------------------------------------------------------- the state

  /** A version, and after how many writes the row held the payload that goes with it. */
  datatype Seen = Seen(version: nat, at: nat)

  const NOTHING := Seen(0, 0)

  datatype Pc =
    | Launched                          // sealed; its goroutine has not read its generation
    | Reading                           // generation read
    | Unseeded(copy: Seen)              // the session held nothing; the row is not read yet
    | Seeding(seen: Seen)               // payload to seed from in hand, not yet adopted
    | Analysing                         // base payload read; model call and merge
    | Failing                           // released; its failure row is not written yet
    | FailureRefused                    // the compare-and-swap of the failure row found another version
    | FailureReread(current: Option<Seen>)
    | Discarding                        // saw itself superseded
    | Persisting                        // passed the superseded check
    | Stored                            // its completed row is stored; may reorganize
    | Refused                           // the compare-and-swap found another version
    | Rereading(current: Option<Seen>)  // the row that won was read, or that read failed
    | Ended

  /** `id` of a round is its key: the generation it was sealed with. */
  datatype Round = Round(pc: Pc, generation: nat, base: Seen, result: Seen, discarded: bool, completed: bool)

  const LAUNCHED := Round(Launched, 0, NOTHING, NOTHING, false, false)

  datatype FinalizerPc =
    | Idle
    | Sealed                            // the scheduler is cut off; barrier not entered
    | Awaiting(done: nat)
    | Looking(again: bool)              // about to look for a snapshot, before the flush or again after it
    | MemoryRead(again: bool, memory: Seen)
    | RowRead(again: bool, memory: Seen, stored: Option<Seen>)
    | Planned                           // the flush list is fixed
    | Flushing(round: nat)
    | Reviewing
    | Reviewed
    | Projected(saved: Seen)
    | Published

  /** A scheduled tree audit, of which a session has one at a time; `from` is the payload it was asked for. */
  datatype AuditPc =
    | NoAudit
    | Auditing(from: Seen)              // model call and validation
    | Allowed(from: Seen)               // found the session still live
    | Applying(from: Seen)              // found the row at the version it was asked for
    | Applied(from: Seen, result: Seen) // stored; not yet adopted

  /** The periodic recovery seeding the session from the row. */
  datatype RecoveryPc =
    | NoRecovery
    | Recovering(copy: Seen)            // the session held nothing; the row is not read yet
    | Recovered(seen: Seen)

  /** `entered` is the number of writes made when finalization entered. */
  datatype Finalizer = Finalizer(pc: FinalizerPc, timedOut: bool, entered: nat, snapshot: Seen)

  /** A write to the live row; `from` says which earlier content of the row its payload was made from. */
  datatype Event =
    | Completed(round: nat, base: nat, from: nat)      // base -> base + 1, by compare-and-swap
    | Reorganized(round: nat, base: nat, from: nat)    // a second swap inside the same round
    | Failed(round: nat, base: nat, from: nat)         // failure row, version unchanged
    | Audited(base: nat, from: nat)                    // tree audit, by compare-and-swap
    | Projection(base: nat, from: nat)                 // finalized projection: plain upsert at this version

  datatype State = State(
    slot: Slot,
    stopped: bool,
    finalizing: bool,
    barred: bool,            // the session's status keeps the scheduler from starting rounds
    auditClosed: bool,       // set for good when a finalization enters
    memory: Seen,            // last payload and version of the session state
    seeded: bool,
    rounds: map<nat, Round>,
    closed: seq<nat>,        // channels closed so far, in order
    log: seq<Event>,         // writes to the live row, in order
    finalizer: Finalizer,
    audit: AuditPc,
    recovery: RecoveryPc)

  const NO_FINALIZER := Finalizer(Idle, false, 0, NOTHING)

  const INIT := State(EMPTY_SLOT, false, false, false, false, NOTHING, false, map[], [], [], NO_FINALIZER, NoAudit, NoRecovery)

  /** What the goroutine of one round does next; `ok` says whether a read succeeds. */
  datatype RoundStep =
    | ReadGeneration
    | ReadBase
    | ReadStoredBase(ok: bool)
    | AdoptStoredBase
    | FailAnalysis
    | StoreFailure(ok: bool)
    | RereadAfterFailure(ok: bool)
    | AdoptAfterFailure
    | CheckSuperseded
    | Discard
    | Persist
    | PersistError
    | Reread(ok: bool)
    | Release
    | Reorganize
    | AdoptReorganized
    | Complete
    | Panic

  /** What the finalization pipeline does next. */
  datatype FinalizerStep =
    | EnterFinalization(refused: bool)
    | EnterBarrier
    | BarrierReturns
    | BarrierTimesOut
    | ReadMemory
    | ReadStoredRow(ok: bool)
    | AdoptSnapshot
    | FlushBegin
    | FlushReturns
    | FlushStops
    | FinalReview(applied: bool)
    | StoreProjection
    | PublishProjection
    | FinishFinalization

  datatype AuditStep = BeginAudit | AllowAudit | ReadAuditedRow | StoreAudit | AdoptAudit | FailAudit

  datatype RecoveryStep = BeginRecovery | ReadRecoveredRow(ok: bool) | AdoptRecovered

  datatype Step =
    | RoundTakes(r: nat, roundStep: RoundStep)
    | FinalizerTakes(finalizerStep: FinalizerStep)
    | AuditTakes(auditStep: AuditStep)
    | RecoveryTakes(recoveryStep: RecoveryStep)
    | Dispatch
    | Reopen                 // a retry of the finalization
    | Revive                 // the session is written back to a live status
    | Restart                // the process goes down and comes up again

  // ------------------------------------------------------------- the row and its log

  /** The version a write leaves in the row. */
  function Written(e: Event): nat {
    if Swap(e) then e.base + 1 else e.base
  }

  /** A compare-and-swap that moved the row on. */
  predicate Swap(e: Event) {
    e.Completed? || e.Reorganized? || e.Audited?
  }

  /** Replaying the writes gives the version of the row after them; an absent row counts as version 0. */
  function VersionAfter(log: seq<Event>): nat {
    if log == [] then 0 else Written(log[|log| - 1])
  }

  function VersionAt(log: seq<Event>, at: nat): nat
    requires at <= |log|
  {
    VersionAfter(log[..at])
  }

  /** What a read of the row finds. */
  function Row(s: State): Seen {
    Seen(VersionAfter(s.log), |s.log|)
  }

  predicate SwapSucceeds(s: State, expected: nat) {
    VersionAfter(s.log) == expected
  }

  function Newer(a: Seen, b: Seen): Seen {
    if a.version < b.version then b else a
  }

  // ----------------------------------------------------------------- the steps

  predicate RoundEnabled(s: State, r: nat, step: RoundStep) {
    && r in s.rounds
    && var pc := s.rounds[r].pc;
       match step
       case ReadGeneration => pc == Launched
       case ReadBase => pc == Reading
       case ReadStoredBase(ok) => pc.Unseeded?
       case AdoptStoredBase => pc.Seeding?
       case FailAnalysis => pc == Analysing
       case StoreFailure(ok) => pc == Failing
       case RereadAfterFailure(ok) => pc == FailureRefused
       case AdoptAfterFailure => pc.FailureReread?
       case CheckSuperseded => pc == Analysing
       case Discard => pc == Discarding
       case Persist => pc == Persisting
       case PersistError => pc == Persisting
       case Reread(ok) => pc == Refused
       case Release => pc.Rereading?
       case Reorganize => pc == Stored
       case AdoptReorganized => pc == Stored
       case Complete => pc == Stored
       case Panic => pc != Launched && pc != Ended
  }

  predicate FinalizerEnabled(s: State, step: FinalizerStep) {
    var pc := s.finalizer.pc;
    match step
    case EnterFinalization(refused) => pc == Idle
    case EnterBarrier => pc == Sealed
    case BarrierReturns => pc.Awaiting? && pc.done in s.closed
    case BarrierTimesOut => pc.Awaiting?
    case ReadMemory => pc.Looking?
    case ReadStoredRow(ok) => pc.MemoryRead?
    case AdoptSnapshot => pc.RowRead?
    case FlushBegin => pc == Planned
    case FlushReturns => pc.Flushing? && pc.round in s.rounds && s.rounds[pc.round].pc == Ended
    case FlushStops => pc == Planned
    case FinalReview(applied) => pc == Reviewing
    case StoreProjection => pc == Reviewed
    case PublishProjection => pc.Projected?
    case FinishFinalization => pc != Idle && !pc.Flushing?
  }

  /** An audit is asked for the payload of the session, and none any more once a finalization has entered. */
  predicate AuditEnabled(s: State, step: AuditStep) {
    match step
    case BeginAudit => s.audit == NoAudit && !s.auditClosed && !s.finalizing && s.memory.version > 0
    case AllowAudit => s.audit.Auditing?
    case ReadAuditedRow => s.audit.Allowed?
    case StoreAudit => s.audit.Applying?
    case AdoptAudit => s.audit.Applied?
    case FailAudit => s.audit.Auditing? || s.audit.Allowed? || s.audit.Applying?
  }

  predicate RecoveryEnabled(s: State, step: RecoveryStep) {
    match step
    case BeginRecovery => s.recovery == NoRecovery && !s.stopped && !s.finalizing
    case ReadRecoveredRow(ok) => s.recovery.Recovering?
    case AdoptRecovered => s.recovery.Recovered?
  }

  predicate Enabled(s: State, step: Step) {
    match step
    case RoundTakes(r, k) => RoundEnabled(s, r, k)
    case FinalizerTakes(k) => FinalizerEnabled(s, k)
    case AuditTakes(k) => AuditEnabled(s, k)
    case RecoveryTakes(k) => RecoveryEnabled(s, k)
    case Dispatch => !s.stopped && !s.finalizing && !s.barred && !s.slot.running
    case Reopen => true
    case Revive => true
    case Restart => true
  }

  function Begin(s: State): State {
    var slot := BeginSlot(s.slot);
    s.(slot := slot, rounds := s.rounds[slot.generation := LAUNCHED])
  }

  function Finish(s: State, generation: nat): State {
    s.(slot := FinishSlot(s.slot, generation),
       closed := if FinishApplies(s.slot, generation) && s.slot.done.Some?
                 then s.closed + [s.slot.done.value] else s.closed)
  }

  /** The steps that release the round. */
  predicate Finishes(step: RoundStep) {
    step == FailAnalysis || step == Discard || step == PersistError || step == Release || step == Complete || step == Panic
  }

  /** What a round's step writes to the row. */
  function WriteOf(s: State, r: nat, step: RoundStep): Option<Event>
    requires RoundEnabled(s, r, step)
  {
    var base, result := s.rounds[r].base, s.rounds[r].result;
    match step
    case StoreFailure(ok) => if ok && SwapSucceeds(s, base.version) then Some(Failed(r, base.version, base.at)) else None
    case Persist => if SwapSucceeds(s, base.version) then Some(Completed(r, base.version, base.at)) else None
    case Reorganize => if SwapSucceeds(s, result.version) then Some(Reorganized(r, result.version, result.at)) else None
    case _ => None
  }

  /** The round after its step. */
  function NextRound(s: State, r: nat, step: RoundStep): Round
    requires RoundEnabled(s, r, step)
  {
    var round := s.rounds[r];
    match step
    case ReadGeneration => round.(pc := Reading, generation := s.slot.generation)
    case ReadBase =>
      if s.seeded then round.(pc := Analysing, base := s.memory)
      else round.(pc := if s.memory.version == 0 then Unseeded(s.memory) else Seeding(s.memory))
    case ReadStoredBase(ok) => round.(pc := Seeding(if ok then Row(s) else round.pc.copy))
    case AdoptStoredBase => round.(pc := Analysing, base := Newer(round.pc.seen, s.memory))
    case FailAnalysis => round.(pc := Failing)
    case StoreFailure(ok) => round.(pc := if ok && !SwapSucceeds(s, round.base.version) then FailureRefused else Ended)
    case RereadAfterFailure(ok) => round.(pc := FailureReread(if ok then Some(Row(s)) else None))
    case CheckSuperseded =>
      if SlotSuperseded(s.slot, round.generation) then round.(pc := Discarding, discarded := true) else round.(pc := Persisting)
    case Persist =>
      if SwapSucceeds(s, round.base.version)
      then round.(pc := Stored, result := Seen(round.base.version + 1, |s.log| + 1)) else round.(pc := Refused)
    case Reread(ok) => round.(pc := Rereading(if ok then Some(Row(s)) else None))
    case Reorganize =>
      if SwapSucceeds(s, round.result.version)
      then round.(result := Seen(round.result.version + 1, |s.log| + 1)) else round
    case AdoptReorganized => round.(result := Newer(round.result, Row(s)))
    case Complete => round.(pc := Ended, completed := true)
    case _ => round.(pc := Ended)
  }

  /** The session's payload after a round's step. */
  function NextMemory(s: State, round: Round, step: RoundStep): Seen {
    if step == AdoptStoredBase && round.pc.Seeding? then Newer(round.pc.seen, s.memory)
    else if step == Release && round.pc.Rereading? && round.pc.current.Some? then Newer(s.memory, round.pc.current.value)
    else if step == AdoptAfterFailure && round.pc.FailureReread? && round.pc.current.Some? then Newer(s.memory, round.pc.current.value)
    else if step == Complete then round.result
    else s.memory
  }

  function ApplyRound(s: State, r: nat, step: RoundStep): State
    requires RoundEnabled(s, r, step)
  {
    var round := s.rounds[r];
    var t := if Finishes(step) then Finish(s, round.generation) else s;
    var e := WriteOf(s, r, step);
    t.(rounds := s.rounds[r := NextRound(s, r, step)],
       memory := NextMemory(s, round, step),
       seeded := s.seeded || step == AdoptStoredBase || ((step == Release || step == AdoptAfterFailure) && NextMemory(s, round, step) != s.memory),
       log := if e.Some? then s.log + [e.value] else s.log)
  }

  predicate UsesRow(f: Finalizer)
    requires f.pc.RowRead?
  {
    f.pc.stored.Some? && (f.pc.memory.version == 0 || f.timedOut || f.pc.stored.value.version >= f.pc.memory.version)
  }

  /** The snapshot finalization goes on with: the stored row, unless the process is strictly ahead of it. */
  function Chosen(f: Finalizer): Seen
    requires f.pc.RowRead?
  {
    if UsesRow(f) then f.pc.stored.value else f.pc.memory
  }

  /** What finalization writes to the live row. */
  function FinalWriteOf(s: State, step: FinalizerStep): Option<Event>
    requires FinalizerEnabled(s, step)
  {
    var x := s.finalizer.snapshot;
    match step
    case FinalReview(applied) => if applied && SwapSucceeds(s, x.version) then Some(Audited(x.version, x.at)) else None
    case StoreProjection => Some(Projection(x.version, x.at))
    case _ => None
  }

  function NextFinalizer(s: State, step: FinalizerStep): Finalizer
    requires FinalizerEnabled(s, step)
  {
    var f := s.finalizer;
    match step
    case EnterFinalization(refused) => Finalizer(Sealed, false, |s.log|, NOTHING)
    case EnterBarrier => f.(pc := if s.slot.done.Some? then Awaiting(s.slot.done.value) else Looking(false))
    case BarrierReturns => f.(pc := Looking(false))
    case BarrierTimesOut => f.(pc := Looking(false), timedOut := true)
    case ReadMemory => f.(pc := MemoryRead(f.pc.again, s.memory))
    case ReadStoredRow(ok) => f.(pc := RowRead(f.pc.again, f.pc.memory, if ok && s.log != [] then Some(Row(s)) else None))
    case AdoptSnapshot =>
      if !f.pc.again then f.(pc := Planned, snapshot := Chosen(f))
      else f.(pc := Reviewing, snapshot := if Chosen(f).version >= f.snapshot.version then Chosen(f) else f.snapshot)
    case FlushBegin => f.(pc := Flushing(s.slot.counter + 1))
    case FlushReturns => f.(pc := if s.rounds[f.pc.round].completed then Looking(true) else Planned)
    case FlushStops => f.(pc := Looking(true))
    case FinalReview(applied) =>
      if FinalWriteOf(s, step).Some?
      then f.(pc := Reviewed, snapshot := Seen(f.snapshot.version + 1, |s.log| + 1)) else f.(pc := Reviewed)
    case StoreProjection => f.(pc := Projected(Seen(f.snapshot.version, |s.log| + 1)))
    case PublishProjection => f.(pc := Published)
    case FinishFinalization => f.(pc := Idle)
  }

  /** The session's payload after a step of finalization. */
  function FinalMemory(s: State, step: FinalizerStep): Seen {
    var pc := s.finalizer.pc;
    if step == AdoptSnapshot && pc.RowRead? && UsesRow(s.finalizer) then pc.stored.value
    else if step == PublishProjection && pc.Projected? then pc.saved
    else s.memory
  }

  function ApplyFinalizer(s: State, step: FinalizerStep): State
    requires FinalizerEnabled(s, step)
  {
    var e := FinalWriteOf(s, step);
    var t := if step == FlushBegin then Begin(s) else s;
    t.(slot := if step == BarrierTimesOut then SupersedeSlot(s.slot) else t.slot,
       finalizing := if step.EnterFinalization? then true else if step == FinishFinalization then false else s.finalizing,
       stopped := s.stopped || step == FinishFinalization,
       barred := s.barred || (step.EnterFinalization? && step.refused),
       auditClosed := s.auditClosed || step.EnterFinalization?,
       memory := FinalMemory(s, step),
       seeded := s.seeded || (step == AdoptSnapshot && UsesRow(s.finalizer)),
       log := if e.Some? then s.log + [e.value] else s.log,
       finalizer := NextFinalizer(s, step))
  }

  /** What an audit writes to the row. */
  function AuditWriteOf(s: State, step: AuditStep): Option<Event>
    requires AuditEnabled(s, step)
  {
    if step == StoreAudit && SwapSucceeds(s, s.audit.from.version) then Some(Audited(s.audit.from.version, s.audit.from.at)) else None
  }

  function NextAudit(s: State, step: AuditStep): AuditPc
    requires AuditEnabled(s, step)
  {
    match step
    case BeginAudit => Auditing(s.memory)
    case AllowAudit => if s.finalizing || s.auditClosed then NoAudit else Allowed(s.audit.from)
    case ReadAuditedRow => if SwapSucceeds(s, s.audit.from.version) then Applying(s.audit.from) else NoAudit
    case StoreAudit =>
      if SwapSucceeds(s, s.audit.from.version) then Applied(s.audit.from, Seen(s.audit.from.version + 1, |s.log| + 1)) else NoAudit
    case _ => NoAudit
  }

  /** The session adopts an audit only while it still holds the version that was audited. */
  function ApplyAudit(s: State, step: AuditStep): State
    requires AuditEnabled(s, step)
  {
    var e := AuditWriteOf(s, step);
    s.(audit := NextAudit(s, step),
       memory := if step == AdoptAudit && s.memory.version == s.audit.from.version then s.audit.result else s.memory,
       log := if e.Some? then s.log + [e.value] else s.log)
  }

  function ApplyRecovery(s: State, step: RecoveryStep): State
    requires RecoveryEnabled(s, step)
  {
    match step
    case BeginRecovery => s.(recovery := if s.memory.version == 0 then Recovering(s.memory) else Recovered(s.memory))
    case ReadRecoveredRow(ok) => s.(recovery := Recovered(if ok then Row(s) else s.recovery.copy))
    case AdoptRecovered => s.(recovery := NoRecovery, memory := Newer(s.recovery.seen, s.memory), seeded := true)
  }

  /** A round that goes down with the process; one that never ran counts under its own key. */
  function Killed(r: nat, round: Round): Round {
    round.(pc := Ended, generation := if round.pc == Launched then r else round.generation)
  }

  /**
    What is in memory is lost; the row and the session's status stay.  The next
    process counts its rounds on from there, which no comparison can tell from
    counting from zero, as the rounds of the last one are gone.
   */
  function Restarted(s: State): State {
    s.(slot := s.slot.(running := false, done := None), stopped := false, finalizing := false, auditClosed := false,
       memory := NOTHING, seeded := false, rounds := map r | r in s.rounds :: Killed(r, s.rounds[r]),
       finalizer := NO_FINALIZER, audit := NoAudit, recovery := NoRecovery)
  }

  function Apply(s: State, step: Step): State
    requires Enabled(s, step)
  {
    match step
    case RoundTakes(r, k) => ApplyRound(s, r, k)
    case FinalizerTakes(k) => ApplyFinalizer(s, k)
    case AuditTakes(k) => ApplyAudit(s, k)
    case RecoveryTakes(k) => ApplyRecovery(s, k)
    case Dispatch => Begin(s)
    case Reopen => s.(stopped := false, finalizing := false)
    case Revive => s.(barred := false)
    case Restart => Restarted(s)
  }

  /** The state after a run, or nothing when some step is not enabled. */
  function Exec(s: State, steps: seq<Step>): Option<State>
    decreases |steps|
  {
    if steps == [] then Some(s)
    else if Enabled(s, steps[0]) then Exec(Apply(s, steps[0]), steps[1..])
    else None
  }

  ghost predicate Reachable(s: State) {
    exists steps :: Exec(INIT, steps) == Some(s)
  }

  predicate Begins(step: Step) {
    step == Dispatch || step == FinalizerTakes(FlushBegin)
  }

  predicate Supersedes(step: Step) {
    step == FinalizerTakes(BarrierTimesOut)
  }

  // ------------------------------------------------------------------ the slot

  ghost predicate NoDuplicates(s: seq<nat>) {
    forall i, j :: 0 <= i < j < |s| ==> s[i] != s[j]
  }

  /** The last generation handed out is the running one; its channel is still open. */
  ghost predicate SlotOk(slot: Slot, closed: seq<nat>) {
    && slot.generation == slot.counter
    && slot.superseded <= slot.counter
    && (slot.done.Some? ==> 1 <= slot.done.value == slot.counter && slot.running)
    && (slot.done.Some? ==> slot.done.value !in closed)
    && (forall c :: c in closed ==> 1 <= c <= slot.counter)
    && NoDuplicates(closed)
  }

  datatype SlotEffect = NoEffect | Beginning | Finishing(generation: nat) | Superseding | Forgetting

  /** What a step does to the sealed slot. */
  function EffectOf(s: State, step: Step): SlotEffect {
    if Begins(step) then Beginning
    else if Supersedes(step) then Superseding
    else if step == Restart then Forgetting
    else if step.RoundTakes? && step.r in s.rounds && Finishes(step.roundStep) then Finishing(s.rounds[step.r].generation)
    else NoEffect
  }

  ghost predicate HasEffect(s: State, t: State, e: SlotEffect) {
    match e
    case NoEffect => t.slot == s.slot && t.closed == s.closed
    case Beginning => t.slot == BeginSlot(s.slot) && t.closed == s.closed
    case Finishing(g) => t.slot == Finish(s, g).slot && t.closed == Finish(s, g).closed
    case Superseding => t.slot == SupersedeSlot(s.slot) && t.closed == s.closed
    case Forgetting => t.slot == s.slot.(running := false, done := None) && t.closed == s.closed
  }

  lemma RoundEffect(s: State, r: nat, step: RoundStep)
    requires RoundEnabled(s, r, step)
    ensures HasEffect(s, ApplyRound(s, r, step), EffectOf(s, RoundTakes(r, step)))
  {}

  lemma FinalizerEffect(s: State, step: FinalizerStep)
    requires FinalizerEnabled(s, step)
    ensures HasEffect(s, ApplyFinalizer(s, step), EffectOf(s, FinalizerTakes(step)))
  {}

  lemma StepEffect(s: State, step: Step)
    requires Enabled(s, step)
    ensures HasEffect(s, Apply(s, step), EffectOf(s, step))
  {
    match step {
      case RoundTakes(r, k) => RoundEffect(s, r, k);
      case FinalizerTakes(k) => FinalizerEffect(s, k);
      case _ =>
    }
  }

  lemma EffectKeepsSlot(s: State, t: State, e: SlotEffect)
    requires SlotOk(s.slot, s.closed) && HasEffect(s, t, e)
    ensures SlotOk(t.slot, t.closed)
  {}

  // ---------------------------------------------------- the rounds and the log

  /** What holds of round `r` given the generations handed out so far. */
  ghost predicate RoundOk(counter: nat, r: nat, round: Round) {
    && 1 <= r <= counter
    && (round.pc.Launched? || r <= round.generation <= counter)
    && (round.discarded ==> round.pc.Discarding? || round.pc.Ended?)
  }

  ghost predicate RoundsInv(s: State) {
    forall r :: r in s.rounds ==> RoundOk(s.slot.counter, r, s.rounds[r])
  }

  ghost predicate StoredBy(log: seq<Event>, r: nat) {
    exists i :: 0 <= i < |log| && Stores(log[i], r)
  }

  predicate Stores(e: Event, r: nat) {
    (e.Completed? || e.Reorganized?) && e.round == r
  }

  ghost predicate MayHaveStored(round: Round) {
    !round.discarded && (round.pc.Stored? || round.pc.Ended?)
  }

  /** Only a round that is past its check, and was not discarded, has stored anything. */
  ghost predicate LogInv(s: State) {
    forall r :: StoredBy(s.log, r) ==> r in s.rounds && MayHaveStored(s.rounds[r])
  }

  /** The row held a payload of this version once, and then. */
  ghost predicate SeenOk(log: seq<Event>, x: Seen) {
    x.at <= |log| && VersionAt(log, x.at) == x.version
  }

  /** A compare-and-swap found the version it expected, and every payload was made from one of its version. */
  ghost predicate EventOk(log: seq<Event>, e: Event) {
    SeenOk(log, Seen(e.base, e.from)) && (!e.Projection? ==> e.base == VersionAfter(log))
  }

  ghost predicate LogOk(log: seq<Event>) {
    forall i :: 0 <= i < |log| ==> EventOk(log[..i], log[i])
  }

  ghost predicate RoundSeens(log: seq<Event>, round: Round) {
    && SeenOk(log, round.base) && SeenOk(log, round.result)
    && (round.pc.Unseeded? ==> SeenOk(log, round.pc.copy))
    && (round.pc.Seeding? ==> SeenOk(log, round.pc.seen))
    && ((round.pc.Rereading? || round.pc.FailureReread?) && round.pc.current.Some? ==> SeenOk(log, round.pc.current.value))
  }

  ghost predicate AuditSeens(log: seq<Event>, audit: AuditPc) {
    && (!audit.NoAudit? ==> SeenOk(log, audit.from))
    && (audit.Applied? ==> SeenOk(log, audit.result) && audit.result.version > audit.from.version)
  }

  ghost predicate RecoverySeens(log: seq<Event>, recovery: RecoveryPc) {
    && (recovery.Recovering? ==> SeenOk(log, recovery.copy))
    && (recovery.Recovered? ==> SeenOk(log, recovery.seen))
  }

  ghost predicate FinalizerSeens(log: seq<Event>, f: Finalizer) {
    && SeenOk(log, f.snapshot) && f.entered <= |log|
    && (f.pc.MemoryRead? || f.pc.RowRead? ==> SeenOk(log, f.pc.memory))
    && (f.pc.RowRead? && f.pc.stored.Some? ==> SeenOk(log, f.pc.stored.value))
    && (f.pc.Projected? ==> SeenOk(log, f.pc.saved))
  }

  ghost predicate SeensInv(s: State) {
    && SeenOk(s.log, s.memory) && FinalizerSeens(s.log, s.finalizer)
    && AuditSeens(s.log, s.audit) && RecoverySeens(s.log, s.recovery)
    && forall r :: r in s.rounds ==> RoundSeens(s.log, s.rounds[r])
  }

  ghost predicate Inv(s: State) {
    SlotOk(s.slot, s.closed) && RoundsInv(s) && LogInv(s) && LogOk(s.log) && SeensInv(s)
  }

  lemma RowIsSeen(s: State)
    ensures SeenOk(s.log, Row(s))
  {
    assert s.log[..|s.log|] == s.log;
  }

  lemma SeenStays(log: seq<Event>, e: Event, x: Seen)
    requires SeenOk(log, x)
    ensures SeenOk(log + [e], x)
  {
    assert (log + [e])[..x.at] == log[..x.at];
  }

  /** A step adds at most one write, which is in order. */
  ghost predicate Extends(log: seq<Event>, more: seq<Event>) {
    more == log || (|more| == |log| + 1 && more[..|log|] == log && EventOk(log, more[|log|]))
  }

  lemma SeenExtends(log: seq<Event>, more: seq<Event>, x: Seen)
    requires Extends(log, more) && SeenOk(log, x)
    ensures SeenOk(more, x)
  {
    if more != log {
      assert more == log + [more[|log|]];
      SeenStays(log, more[|log|], x);
    }
  }

  lemma LastIsSeen(log: seq<Event>, e: Event)
    ensures SeenOk(log + [e], Seen(Written(e), |log| + 1))
  {
    assert (log + [e])[..|log| + 1] == log + [e];
  }

  /** Its one write, if any, is stored by the round that takes the step. */
  ghost predicate LogStep(s: State, t: State) {
    && Extends(s.log, t.log)
    && forall r :: t.log != s.log && Stores(t.log[|s.log|], r) ==> r in t.rounds && MayHaveStored(t.rounds[r])
  }

  /** A step replaces at most one round, and keeps what its check decided. */
  ghost predicate RoundStepOk(s: State, t: State, r: nat) {
    && r in t.rounds
    && t.rounds == s.rounds[r := t.rounds[r]]
    && RoundOk(t.slot.counter, r, t.rounds[r])
    && (r in s.rounds && MayHaveStored(s.rounds[r]) ==> MayHaveStored(t.rounds[r]))
    && (r !in s.rounds ==> r == t.slot.counter > s.slot.counter)
  }

  /** The record of the stepping round afterwards. */
  lemma RoundStepIsSmall(s: State, r: nat, step: RoundStep)
    requires RoundEnabled(s, r, step) && RoundOk(s.slot.counter, r, s.rounds[r])
    requires s.slot.generation == s.slot.counter
    ensures RoundStepOk(s, ApplyRound(s, r, step), r)
  {
    var t := ApplyRound(s, r, step);
    RoundEffect(s, r, step);
    assert t.slot.counter == s.slot.counter;
    assert t.rounds == s.rounds[r := t.rounds[r]];
    assert RoundOk(s.slot.counter, r, t.rounds[r]);
  }

  /** A compare-and-swap of a payload made from `x`, when it succeeds. */
  lemma SwapIsOk(log: seq<Event>, x: Seen, e: Event)
    requires SeenOk(log, x) && e.base == x.version && e.from == x.at && (!e.Projection? ==> e.base == VersionAfter(log))
    ensures EventOk(log, e) && Extends(log, log + [e])
  {
    assert (log + [e])[..|log|] == log;
  }

  /** What a round writes is a swap it was entitled to, and only a round that passed its check stores a result. */
  lemma RoundWriteIsOk(s: State, r: nat, step: RoundStep)
    requires RoundEnabled(s, r, step) && RoundSeens(s.log, s.rounds[r]) && WriteOf(s, r, step).Some?
    ensures var e := WriteOf(s, r, step).value;
      Extends(s.log, s.log + [e]) && forall q :: Stores(e, q) ==> q == r && NextRound(s, r, step).pc.Stored?
  {
    var e := WriteOf(s, r, step).value;
    SwapIsOk(s.log, if step == Reorganize then s.rounds[r].result else s.rounds[r].base, e);
  }

  lemma RoundStepWrites(s: State, r: nat, step: RoundStep)
    requires RoundEnabled(s, r, step) && RoundOk(s.slot.counter, r, s.rounds[r]) && RoundSeens(s.log, s.rounds[r])
    ensures LogStep(s, ApplyRound(s, r, step))
  {
    if WriteOf(s, r, step).Some? {
      RoundWriteIsOk(s, r, step);
    }
  }

  /** What a round may hold after its step: what it, the session state or the row held, or what it wrote. */
  lemma RoundHolds(s: State, r: nat, step: RoundStep)
    requires RoundEnabled(s, r, step)
    ensures var round, u := s.rounds[r], NextRound(s, r, step);
      && (u.base == round.base || u.base == s.memory || (round.pc.Seeding? && u.base == round.pc.seen))
      && (u.result == round.result || u.result == Row(s)
          || (WriteOf(s, r, step).Some? && u.result == Seen(Written(WriteOf(s, r, step).value), |s.log| + 1)))
      && (u.pc.Unseeded? ==> u.pc.copy == s.memory)
      && (u.pc.Seeding? ==> u.pc.seen == Row(s) || u.pc.seen == s.memory || (round.pc.Unseeded? && u.pc.seen == round.pc.copy))
      && ((u.pc.Rereading? || u.pc.FailureReread?) && u.pc.current.Some? ==> u.pc.current.value == Row(s))
  {}

  /** What the stepping round and the session state hold afterwards was in the row. */
  lemma RoundStepSeens(s: State, r: nat, step: RoundStep)
    requires RoundEnabled(s, r, step) && RoundSeens(s.log, s.rounds[r]) && SeenOk(s.log, s.memory)
    ensures var t := ApplyRound(s, r, step); RoundSeens(t.log, t.rounds[r]) && SeenOk(t.log, t.memory)
  {
    var round, t := s.rounds[r], ApplyRound(s, r, step);
    RoundHolds(s, r, step);
    if WriteOf(s, r, step).Some? {
      RoundWriteIsOk(s, r, step);
      LastIsSeen(s.log, WriteOf(s, r, step).value);
    }
    RowIsSeen(s);
    SeenExtends(s.log, t.log, Row(s));
    SeenExtends(s.log, t.log, s.memory);
    RoundKeepsSeens(s.log, t.log, round);
  }

  lemma FinalWriteIsOk(s: State, step: FinalizerStep)
    requires FinalizerEnabled(s, step) && FinalizerSeens(s.log, s.finalizer) && FinalWriteOf(s, step).Some?
    ensures var e := FinalWriteOf(s, step).value; Extends(s.log, s.log + [e]) && forall q :: !Stores(e, q)
  {
    SwapIsOk(s.log, s.finalizer.snapshot, FinalWriteOf(s, step).value);
  }

  lemma FinalizerRounds(s: State, step: FinalizerStep)
    requires FinalizerEnabled(s, step)
    ensures ApplyFinalizer(s, step).rounds == if step == FlushBegin then Begin(s).rounds else s.rounds
  {}

  lemma FinalizerWrites(s: State, step: FinalizerStep)
    requires FinalizerEnabled(s, step) && FinalizerSeens(s.log, s.finalizer)
    ensures LogStep(s, ApplyFinalizer(s, step))
  {
    if FinalWriteOf(s, step).Some? {
      FinalWriteIsOk(s, step);
    }
  }

  /** What finalization may hold after a step. */
  lemma FinalizerHolds(s: State, step: FinalizerStep)
    requires FinalizerEnabled(s, step)
    ensures var f, g, e := s.finalizer, NextFinalizer(s, step), FinalWriteOf(s, step);
      && (|| g.snapshot == f.snapshot || g.snapshot == NOTHING
          || (f.pc.RowRead? && (g.snapshot == f.pc.memory || (f.pc.stored.Some? && g.snapshot == f.pc.stored.value)))
          || (e.Some? && g.snapshot == Seen(Written(e.value), |s.log| + 1)))
      && (g.entered == f.entered || g.entered == |s.log|)
      && (g.pc.MemoryRead? ==> g.pc.memory == s.memory)
      && (g.pc.RowRead? ==> f.pc.MemoryRead? && g.pc.memory == f.pc.memory && (g.pc.stored.Some? ==> g.pc.stored.value == Row(s)))
      && (g.pc.Projected? ==> e.Some? && g.pc.saved == Seen(Written(e.value), |s.log| + 1))
  {}

  lemma FinalizerStepSeens(s: State, step: FinalizerStep)
    requires FinalizerEnabled(s, step) && FinalizerSeens(s.log, s.finalizer) && SeenOk(s.log, s.memory)
    ensures var t := ApplyFinalizer(s, step); FinalizerSeens(t.log, t.finalizer) && SeenOk(t.log, t.memory)
  {
    var t := ApplyFinalizer(s, step);
    FinalizerHolds(s, step);
    if FinalWriteOf(s, step).Some? {
      FinalWriteIsOk(s, step);
      LastIsSeen(s.log, FinalWriteOf(s, step).value);
    }
    RowIsSeen(s);
    SeenExtends(s.log, t.log, Row(s));
    SeenExtends(s.log, t.log, s.memory);
    FinalizerKeepsSeens(s.log, t.log, s.finalizer);
    assert SeenOk(t.log, NOTHING);
  }

  lemma AuditWriteIsOk(s: State, step: AuditStep)
    requires AuditEnabled(s, step) && AuditSeens(s.log, s.audit) && AuditWriteOf(s, step).Some?
    ensures var e := AuditWriteOf(s, step).value; Extends(s.log, s.log + [e]) && forall q :: !Stores(e, q)
    ensures NextAudit(s, step) == Applied(s.audit.from, Seen(Written(AuditWriteOf(s, step).value), |s.log| + 1))
  {
    SwapIsOk(s.log, s.audit.from, AuditWriteOf(s, step).value);
  }

  lemma AuditWrites(s: State, step: AuditStep)
    requires AuditEnabled(s, step) && AuditSeens(s.log, s.audit)
    ensures LogStep(s, ApplyAudit(s, step))
  {
    if AuditWriteOf(s, step).Some? {
      AuditWriteIsOk(s, step);
    }
  }

  lemma AuditStepSeens(s: State, step: AuditStep)
    requires AuditEnabled(s, step) && AuditSeens(s.log, s.audit) && SeenOk(s.log, s.memory)
    ensures var t := ApplyAudit(s, step); AuditSeens(t.log, t.audit) && SeenOk(t.log, t.memory)
  {
    var t := ApplyAudit(s, step);
    AuditWrites(s, step);
    SeenExtends(s.log, t.log, s.memory);
    AuditKeepsSeens(s.log, t.log, s.audit);
    if AuditWriteOf(s, step).Some? {
      AuditWriteIsOk(s, step);
      LastIsSeen(s.log, AuditWriteOf(s, step).value);
    }
  }

  lemma RecoveryStepSeens(s: State, step: RecoveryStep)
    requires RecoveryEnabled(s, step) && RecoverySeens(s.log, s.recovery) && SeenOk(s.log, s.memory)
    ensures var t := ApplyRecovery(s, step); t.log == s.log && RecoverySeens(t.log, t.recovery) && SeenOk(t.log, t.memory)
  {
    RowIsSeen(s);
  }

  lemma AuditKeepsSeens(log: seq<Event>, more: seq<Event>, audit: AuditPc)
    requires Extends(log, more) && AuditSeens(log, audit)
    ensures AuditSeens(more, audit)
  {
    if !audit.NoAudit? {
      SeenExtends(log, more, audit.from);
    }
    if audit.Applied? {
      SeenExtends(log, more, audit.result);
    }
  }

  lemma RecoveryKeepsSeens(log: seq<Event>, more: seq<Event>, recovery: RecoveryPc)
    requires Extends(log, more) && RecoverySeens(log, recovery)
    ensures RecoverySeens(more, recovery)
  {
    if recovery.Recovering? {
      SeenExtends(log, more, recovery.copy);
    }
    if recovery.Recovered? {
      SeenExtends(log, more, recovery.seen);
    }
  }

  /** The rounds after a step that is none of theirs. */
  function OtherRounds(s: State, step: Step): map<nat, Round> {
    if Begins(step) then Begin(s).rounds else if step == Restart then Restarted(s).rounds else s.rounds
  }

  lemma OtherStepWrites(s: State, step: Step)
    requires SeensInv(s) && Enabled(s, step) && !step.RoundTakes?
    ensures LogStep(s, Apply(s, step))
    ensures Apply(s, step).rounds == OtherRounds(s, step)
  {
    match step {
      case FinalizerTakes(k) =>
        FinalizerWrites(s, k);
        FinalizerRounds(s, k);
      case AuditTakes(k) => AuditWrites(s, k);
      case _ =>
    }
  }

  /** What the session, finalization, the audit and the recovery hold was in the row. */
  ghost predicate HeldInv(s: State) {
    SeenOk(s.log, s.memory) && FinalizerSeens(s.log, s.finalizer) && AuditSeens(s.log, s.audit) && RecoverySeens(s.log, s.recovery)
  }

  lemma HeldStays(s: State, t: State)
    requires HeldInv(s) && Extends(s.log, t.log)
    ensures SeenOk(t.log, s.memory) && FinalizerSeens(t.log, s.finalizer)
    ensures AuditSeens(t.log, s.audit) && RecoverySeens(t.log, s.recovery)
  {
    SeenExtends(s.log, t.log, s.memory);
    FinalizerKeepsSeens(s.log, t.log, s.finalizer);
    AuditKeepsSeens(s.log, t.log, s.audit);
    RecoveryKeepsSeens(s.log, t.log, s.recovery);
  }

  lemma OtherStepSeens(s: State, step: Step)
    requires SeensInv(s) && Enabled(s, step) && !step.RoundTakes?
    ensures HeldInv(Apply(s, step))
  {
    OtherStepWrites(s, step);
    HeldStays(s, Apply(s, step));
    match step {
      case FinalizerTakes(k) => FinalizerStepSeens(s, k);
      case AuditTakes(k) => AuditStepSeens(s, k);
      case RecoveryTakes(k) => RecoveryStepSeens(s, k);
      case _ =>
    }
  }

  lemma FinalizerKeepsSeens(log: seq<Event>, more: seq<Event>, f: Finalizer)
    requires Extends(log, more) && FinalizerSeens(log, f)
    ensures FinalizerSeens(more, f)
  {
    SeenExtends(log, more, f.snapshot);
    if f.pc.MemoryRead? || f.pc.RowRead? {
      SeenExtends(log, more, f.pc.memory);
    }
    if f.pc.RowRead? && f.pc.stored.Some? {
      SeenExtends(log, more, f.pc.stored.value);
    }
    if f.pc.Projected? {
      SeenExtends(log, more, f.pc.saved);
    }
  }

  lemma RoundKeepsSeens(log: seq<Event>, more: seq<Event>, round: Round)
    requires Extends(log, more) && RoundSeens(log, round)
    ensures RoundSeens(more, round)
  {
    SeenExtends(log, more, round.base);
    SeenExtends(log, more, round.result);
    if round.pc.Unseeded? {
      SeenExtends(log, more, round.pc.copy);
    }
    if round.pc.Seeding? {
      SeenExtends(log, more, round.pc.seen);
    }
    if (round.pc.Rereading? || round.pc.FailureReread?) && round.pc.current.Some? {
      SeenExtends(log, more, round.pc.current.value);
    }
  }

  lemma ExtendsKeepsLog(log: seq<Event>, more: seq<Event>)
    requires LogOk(log) && Extends(log, more)
    ensures LogOk(more)
  {
    forall i | 0 <= i < |more| ensures EventOk(more[..i], more[i]) {
      if i < |log| {
        assert more[..i] == log[..i] && more[i] == more[..|log|][i];
      }
    }
  }

  lemma LogStepKeepsLog(s: State, t: State)
    requires LogInv(s) && LogStep(s, t)
    requires forall r :: r in s.rounds && MayHaveStored(s.rounds[r]) ==> r in t.rounds && MayHaveStored(t.rounds[r])
    ensures LogInv(t)
  {
    forall r | StoredBy(t.log, r) ensures r in t.rounds && MayHaveStored(t.rounds[r]) {
      var i :| 0 <= i < |t.log| && Stores(t.log[i], r);
      if i < |s.log| {
        assert t.log[..|s.log|][i] == s.log[i] && Stores(s.log[i], r);
        assert StoredBy(s.log, r);
      }
    }
  }

  lemma RoundStepKeepsHeld(s: State, r: nat, step: RoundStep)
    requires SeensInv(s) && RoundEnabled(s, r, step) && LogStep(s, ApplyRound(s, r, step))
    ensures var t := ApplyRound(s, r, step); HeldInv(t) && RoundSeens(t.log, t.rounds[r])
  {
    RoundStepSeens(s, r, step);
    HeldStays(s, ApplyRound(s, r, step));
  }

  /** A round after another's step, or one that was just launched or killed. */
  lemma UntouchedRoundSeens(s: State, t: State, q: nat)
    requires SeensInv(s) && Extends(s.log, t.log) && q in t.rounds
    requires t.rounds[q] == LAUNCHED || (q in s.rounds && (t.rounds[q] == s.rounds[q] || t.rounds[q] == Killed(q, s.rounds[q])))
    ensures RoundSeens(t.log, t.rounds[q])
  {
    if q in s.rounds {
      RoundKeepsSeens(s.log, t.log, s.rounds[q]);
    }
    assert SeenOk(t.log, NOTHING);
  }

  lemma RoundStepKeepsSeens(s: State, r: nat, step: RoundStep)
    requires Inv(s) && RoundEnabled(s, r, step) && LogStep(s, ApplyRound(s, r, step))
    ensures SeensInv(ApplyRound(s, r, step))
  {
    var t := ApplyRound(s, r, step);
    RoundStepKeepsHeld(s, r, step);
    RoundStepIsSmall(s, r, step);
    forall q | q in t.rounds ensures RoundSeens(t.log, t.rounds[q]) {
      if q != r {
        UntouchedRoundSeens(s, t, q);
      }
    }
  }

  lemma OtherStepKeepsSeens(s: State, step: Step)
    requires SeensInv(s) && Enabled(s, step) && !step.RoundTakes?
    ensures SeensInv(Apply(s, step))
  {
    var t := Apply(s, step);
    OtherStepSeens(s, step);
    OtherStepWrites(s, step);
    forall q | q in t.rounds ensures RoundSeens(t.log, t.rounds[q]) {
      UntouchedRoundSeens(s, t, q);
    }
  }

  lemma StepKeepsSeens(s: State, step: Step)
    requires Inv(s) && Enabled(s, step) && LogStep(s, Apply(s, step))
    ensures SeensInv(Apply(s, step))
  {
    if step.RoundTakes? {
      RoundStepKeepsSeens(s, step.r, step.roundStep);
    } else {
      OtherStepKeepsSeens(s, step);
    }
  }

  lemma StepKeepsSlot(s: State, step: Step)
    requires Inv(s) && Enabled(s, step)
    ensures SlotOk(Apply(s, step).slot, Apply(s, step).closed) && s.slot.counter <= Apply(s, step).slot.counter
  {
    StepEffect(s, step);
    EffectKeepsSlot(s, Apply(s, step), EffectOf(s, step));
  }

  /** The rounds of the next state are in order, and none that may have stored is forgotten. */
  ghost predicate RoundsKept(s: State, t: State) {
    && RoundsInv(t)
    && forall r :: r in s.rounds && MayHaveStored(s.rounds[r]) ==> r in t.rounds && MayHaveStored(t.rounds[r])
  }

  lemma OneRoundChanges(s: State, t: State, r: nat)
    requires RoundsInv(s) && RoundStepOk(s, t, r) && s.slot.counter <= t.slot.counter
    ensures RoundsKept(s, t)
  {
    forall q | q in t.rounds ensures RoundOk(t.slot.counter, q, t.rounds[q]) {
      if q != r {
        assert RoundOk(s.slot.counter, q, s.rounds[q]);
      }
    }
  }

  lemma OtherStepRounds(s: State, step: Step)
    requires Inv(s) && Enabled(s, step) && !step.RoundTakes?
    ensures RoundsKept(s, Apply(s, step))
  {
    var t := Apply(s, step);
    StepKeepsSlot(s, step);
    OtherStepWrites(s, step);
    forall q | q in t.rounds ensures RoundOk(t.slot.counter, q, t.rounds[q]) {
      if q in s.rounds {
        assert RoundOk(s.slot.counter, q, s.rounds[q]);
      }
    }
  }

  lemma StepKeepsRounds(s: State, step: Step)
    requires Inv(s) && Enabled(s, step)
    ensures RoundsKept(s, Apply(s, step)) && LogStep(s, Apply(s, step))
  {
    if step.RoundTakes? {
      assert RoundOk(s.slot.counter, step.r, s.rounds[step.r]);
      RoundStepIsSmall(s, step.r, step.roundStep);
      RoundStepWrites(s, step.r, step.roundStep);
      StepKeepsSlot(s, step);
      OneRoundChanges(s, Apply(s, step), step.r);
    } else {
      OtherStepWrites(s, step);
      OtherStepRounds(s, step);
    }
  }

  lemma StepKeepsInv(s: State, step: Step)
    requires Inv(s) && Enabled(s, step)
    ensures Inv(Apply(s, step))
  {
    var t := Apply(s, step);
    StepKeepsSlot(s, step);
    StepKeepsRounds(s, step);
    StepKeepsSeens(s, step);
    ExtendsKeepsLog(s.log, t.log);
    LogStepKeepsLog(s, t);
  }

  /** A step of the protocol adds at most one write to the row. */
  lemma StepExtends(s: State, step: Step)
    requires Inv(s) && Enabled(s, step)
    ensures Extends(s.log, Apply(s, step).log)
  {
    if step.RoundTakes? {
      RoundStepWrites(s, step.r, step.roundStep);
    } else {
      OtherStepWrites(s, step);
    }
  }

  lemma {:induction false} RunKeepsInv(s: State, steps: seq<Step>)
    requires Inv(s) && Exec(s, steps).Some?
    ensures Inv(Exec(s, steps).value)
    decreases |steps|
  {
    if steps != [] {
      StepKeepsInv(s, steps[0]);
      RunKeepsInv(Apply(s, steps[0]), steps[1..]);
    }
  }

  lemma ReachableInv(s: State)
    requires Reachable(s)
    ensures Inv(s)
  {
    var steps :| Exec(INIT, steps) == Some(s);
    RunKeepsInv(INIT, steps);
  }

  // -------------------------------------------------- generations and channels

  /** Over every run: no channel is closed twice, and the one still open is not closed. */
  lemma NoChannelIsClosedTwice(steps: seq<Step>)
    requires Exec(INIT, steps).Some?
    ensures var s := Exec(INIT, steps).value;
      && NoDuplicates(s.closed)
      && (s.slot.done.Some? ==> s.slot.done.value == s.slot.generation && s.slot.generation !in s.closed)
  {
    RunKeepsInv(INIT, steps);
  }

  /** A sealed round gets a generation above every earlier one, a new channel, and no verdict yet. */
  lemma BeginIsFresh(s: State, step: Step)
    requires Reachable(s) && Enabled(s, step) && Begins(step)
    ensures var t := Apply(s, step);
      var g := t.slot.generation;
      && t.rounds.Keys == s.rounds.Keys + {g}
      && (forall r :: r in s.rounds ==> r < g && (s.rounds[r].pc != Launched ==> s.rounds[r].generation < g))
      && t.slot.done == Some(g) && g !in t.closed
      && !SlotSuperseded(t.slot, g)
  {
    ReachableInv(s);
    assert forall r :: r in s.rounds ==> RoundOk(s.slot.counter, r, s.rounds[r]);
  }

  lemma {:induction false} GenerationsOnlyGrow(s: State, steps: seq<Step>)
    requires Exec(s, steps).Some?
    ensures Exec(s, steps).value.slot.counter >= s.slot.counter
    decreases |steps|
  {
    if steps != [] {
      StepEffect(s, steps[0]);
      GenerationsOnlyGrow(Apply(s, steps[0]), steps[1..]);
    }
  }

  /** The finish of a round that is no longer the last one sealed changes nothing, however late it comes. */
  lemma OlderFinishIsNoOp(s: State, r: nat, begin: Step, steps: seq<Step>)
    requires Reachable(s) && r in s.rounds && s.rounds[r].pc != Launched
    requires Enabled(s, begin) && Begins(begin) && Exec(Apply(s, begin), steps).Some?
    ensures var t := Exec(Apply(s, begin), steps).value; Finish(t, s.rounds[r].generation) == t
  {
    ReachableInv(s);
    assert RoundOk(s.slot.counter, r, s.rounds[r]);
    StepKeepsInv(s, begin);
    RunKeepsInv(Apply(s, begin), steps);
    GenerationsOnlyGrow(Apply(s, begin), steps);
  }

  // ------------------------------------------------------ what the barrier does

  ghost predicate AnySupersedes(steps: seq<Step>) {
    exists i :: 0 <= i < |steps| && Supersedes(steps[i])
  }

  lemma StepSupersedes(s: State, generation: nat, step: Step)
    requires SlotOk(s.slot, s.closed) && 1 <= generation <= s.slot.counter && Enabled(s, step)
    ensures var t := Apply(s, step);
      && SlotOk(t.slot, t.closed) && generation <= t.slot.counter
      && (SlotSuperseded(t.slot, generation) <==> SlotSuperseded(s.slot, generation) || Supersedes(step))
  {
    StepEffect(s, step);
    EffectKeepsSlot(s, Apply(s, step), EffectOf(s, step));
  }

  lemma FirstSupersedes(steps: seq<Step>)
    requires steps != []
    ensures AnySupersedes(steps) <==> Supersedes(steps[0]) || AnySupersedes(steps[1..])
  {
    if AnySupersedes(steps[1..]) {
      var i :| 0 <= i < |steps| - 1 && Supersedes(steps[1..][i]);
      assert Supersedes(steps[i + 1]);
    }
    if AnySupersedes(steps) && !Supersedes(steps[0]) {
      var i :| 0 <= i < |steps| && Supersedes(steps[i]);
      assert Supersedes(steps[1..][i - 1]);
    }
  }

  lemma {:induction false} SupersededIffTimedOut(s: State, generation: nat, steps: seq<Step>)
    requires SlotOk(s.slot, s.closed) && 1 <= generation <= s.slot.counter && Exec(s, steps).Some?
    ensures SlotSuperseded(Exec(s, steps).value.slot, generation) <==>
      SlotSuperseded(s.slot, generation) || AnySupersedes(steps)
    decreases |steps|
  {
    if steps != [] {
      StepSupersedes(s, generation, steps[0]);
      SupersededIffTimedOut(Apply(s, steps[0]), generation, steps[1..]);
      FirstSupersedes(steps);
    }
  }

  /**
    A generation is superseded exactly when some barrier times out after the
    round was sealed: the barrier that precedes a flush round never supersedes it.
   */
  lemma SupersededIffBarrierTimesOutLater(s: State, begin: Step, steps: seq<Step>)
    requires Reachable(s) && Enabled(s, begin) && Begins(begin) && Exec(Apply(s, begin), steps).Some?
    ensures SlotSuperseded(Exec(Apply(s, begin), steps).value.slot, s.slot.counter + 1) <==> AnySupersedes(steps)
  {
    ReachableInv(s);
    StepKeepsInv(s, begin);
    SupersededIffTimedOut(Apply(s, begin), s.slot.counter + 1, steps);
  }

  lemma DiscardSticks(s: State, step: Step, r: nat)
    requires Inv(s) && Enabled(s, step) && r in s.rounds && s.rounds[r].discarded
    ensures r in Apply(s, step).rounds && Apply(s, step).rounds[r].discarded
  {
    if step.RoundTakes? {
      assert RoundOk(s.slot.counter, step.r, s.rounds[step.r]);
      RoundStepIsSmall(s, step.r, step.roundStep);
      if step.r == r {
        DiscardedRoundSticks(s, r, step.roundStep);
      }
    } else {
      OtherStepWrites(s, step);
      assert RoundOk(s.slot.counter, r, s.rounds[r]);
    }
  }

  lemma DiscardedRoundSticks(s: State, r: nat, step: RoundStep)
    requires RoundEnabled(s, r, step) && s.rounds[r].discarded
    ensures ApplyRound(s, r, step).rounds[r].discarded
  {}

  lemma {:induction false} DiscardedNeverStores(s: State, r: nat, steps: seq<Step>)
    requires Inv(s) && r in s.rounds && s.rounds[r].discarded && Exec(s, steps).Some?
    ensures !StoredBy(Exec(s, steps).value.log, r)
    decreases |steps|
  {
    if steps != [] {
      StepKeepsInv(s, steps[0]);
      DiscardSticks(s, steps[0], r);
      DiscardedNeverStores(Apply(s, steps[0]), r, steps[1..]);
    }
  }

  /** A round that sees itself superseded at the check stores no result, before or after. */
  lemma SupersededAtCheckNeverStores(s: State, r: nat, steps: seq<Step>)
    requires Reachable(s) && RoundEnabled(s, r, CheckSuperseded)
    requires SlotSuperseded(s.slot, s.rounds[r].generation)
    requires Exec(Apply(s, RoundTakes(r, CheckSuperseded)), steps).Some?
    ensures !StoredBy(Exec(Apply(s, RoundTakes(r, CheckSuperseded)), steps).value.log, r)
  {
    ReachableInv(s);
    StepKeepsInv(s, RoundTakes(r, CheckSuperseded));
    DiscardedNeverStores(Apply(s, RoundTakes(r, CheckSuperseded)), r, steps);
  }

  // ---------------------------------------------- whose generation a round reads

  function BeginCount(steps: seq<Step>): nat {
    if steps == [] then 0 else (if Begins(steps[0]) then 1 else 0) + BeginCount(steps[1..])
  }

  lemma {:induction false} CounterCountsBegins(s: State, steps: seq<Step>)
    requires SlotOk(s.slot, s.closed) && Exec(s, steps).Some?
    ensures Exec(s, steps).value.slot.generation == s.slot.generation + BeginCount(steps)
    decreases |steps|
  {
    if steps != [] {
      StepCounts(s, steps[0]);
      CounterCountsBegins(Apply(s, steps[0]), steps[1..]);
    }
  }

  lemma StepCounts(s: State, step: Step)
    requires SlotOk(s.slot, s.closed) && Enabled(s, step)
    ensures var t := Apply(s, step);
      SlotOk(t.slot, t.closed) && t.slot.generation == s.slot.generation + if Begins(step) then 1 else 0
  {
    StepEffect(s, step);
    EffectKeepsSlot(s, Apply(s, step), EffectOf(s, step));
  }

  /**
    The goroutine reads its generation in a critical section of its own: it
    gets the one it was sealed with exactly when no other round is sealed between.
   */
  lemma OwnGenerationIffNoneSealedBetween(s: State, begin: Step, steps: seq<Step>)
    requires Reachable(s) && Enabled(s, begin) && Begins(begin) && Exec(Apply(s, begin), steps).Some?
    requires RoundEnabled(Exec(Apply(s, begin), steps).value, s.slot.counter + 1, ReadGeneration)
    ensures var r := s.slot.counter + 1;
      var t := Apply(Exec(Apply(s, begin), steps).value, RoundTakes(r, ReadGeneration));
      && t.rounds[r].generation == r + BeginCount(steps)
      && (t.rounds[r].generation == r <==> forall i :: 0 <= i < |steps| ==> !Begins(steps[i]))
  {
    ReachableInv(s);
    StepKeepsInv(s, begin);
    CounterCountsBegins(Apply(s, begin), steps);
    NoBegins(steps);
  }

  lemma {:induction false} NoBegins(steps: seq<Step>)
    ensures BeginCount(steps) == 0 <==> forall i :: 0 <= i < |steps| ==> !Begins(steps[i])
  {
    if steps != [] {
      NoBegins(steps[1..]);
      assert forall i :: 1 <= i < |steps| ==> steps[i] == steps[1..][i - 1];
    }
  }

  // ------------------------------------------------------- one row, one version

  /** A compare-and-swap that moved the row on from `base`. */
  predicate Advances(e: Event, base: nat) {
    Swap(e) && e.base == base
  }

  /** An upsert at or below `base` between two writes. */
  ghost predicate RewoundBetween(log: seq<Event>, i: nat, j: nat, base: nat)
    requires i <= j <= |log|
  {
    exists k :: i <= k < j && log[k].Projection? && log[k].base <= base
  }

  lemma NextVersion(log: seq<Event>, i: nat)
    requires LogOk(log) && i < |log|
    ensures VersionAt(log, i + 1) == Written(log[i])
    ensures !log[i].Projection? ==> VersionAt(log, i) == log[i].base
  {
    assert log[..i + 1][..i] == log[..i];
    assert EventOk(log[..i], log[i]);
  }

  lemma {:induction false} OnlyUpsertsRewind(log: seq<Event>, i: nat, j: nat, base: nat)
    requires LogOk(log) && i <= j <= |log| && VersionAt(log, i) > base
    requires !RewoundBetween(log, i, j, base)
    ensures VersionAt(log, j) > base
    decreases j - i
  {
    if i < j {
      NextVersion(log, i);
      OnlyUpsertsRewind(log, i + 1, j, base);
    }
  }

  /**
    Two compare-and-swaps never both move the row on from the same version,
    unless the finalized projection was upserted at that version or below between them.
   */
  lemma SameBaseNeedsRewind(steps: seq<Step>, i: nat, j: nat, base: nat)
    requires Exec(INIT, steps).Some?
    requires i < j < |Exec(INIT, steps).value.log|
    requires Advances(Exec(INIT, steps).value.log[i], base) && Advances(Exec(INIT, steps).value.log[j], base)
    ensures RewoundBetween(Exec(INIT, steps).value.log, i + 1, j, base)
  {
    RunKeepsInv(INIT, steps);
    var log := Exec(INIT, steps).value.log;
    NextVersion(log, i);
    NextVersion(log, j);
    if !RewoundBetween(log, i + 1, j, base) {
      OnlyUpsertsRewind(log, i + 1, j, base);
    }
  }

  predicate Upserts(step: Step) {
    step == FinalizerTakes(StoreProjection)
  }

  ghost predicate SwapsOnly(steps: seq<Step>) {
    forall i :: 0 <= i < |steps| ==> !Upserts(steps[i])
  }

  /** More writes after the same ones; no upsert among them when `swaps`. */
  ghost predicate Beyond(log: seq<Event>, more: seq<Event>, swaps: bool) {
    && |log| <= |more| && more[..|log|] == log
    && (swaps ==> forall i :: |log| <= i < |more| ==> !more[i].Projection?)
  }

  lemma BeyondTwice(a: seq<Event>, b: seq<Event>, c: seq<Event>, swaps: bool)
    requires Beyond(a, b, swaps) && Beyond(b, c, swaps)
    ensures Beyond(a, c, swaps)
  {
    assert c[..|a|] == c[..|b|][..|a|];
    forall i | swaps && |a| <= i < |c| ensures !c[i].Projection? {
      assert i < |b| ==> c[i] == c[..|b|][i];
    }
  }

  lemma StepUpserts(s: State, step: Step)
    requires Inv(s) && Enabled(s, step) && !Upserts(step)
    ensures |Apply(s, step).log| > |s.log| ==> !Apply(s, step).log[|s.log|].Projection?
  {
    match step {
      case RoundTakes(r, k) => RoundUpsertsNothing(s, r, k);
      case FinalizerTakes(k) => OnlyProjectionUpserts(s, k);
      case _ =>
    }
  }

  lemma RoundUpsertsNothing(s: State, r: nat, step: RoundStep)
    requires RoundEnabled(s, r, step)
    ensures var t := ApplyRound(s, r, step); |t.log| > |s.log| ==> !t.log[|s.log|].Projection?
  {}

  lemma OnlyProjectionUpserts(s: State, step: FinalizerStep)
    requires FinalizerEnabled(s, step) && step != StoreProjection
    ensures var t := ApplyFinalizer(s, step); |t.log| > |s.log| ==> !t.log[|s.log|].Projection?
  {}

  lemma StepBeyond(s: State, step: Step)
    requires Inv(s) && Enabled(s, step)
    ensures Beyond(s.log, Apply(s, step).log, !Upserts(step))
  {
    StepExtends(s, step);
    if !Upserts(step) {
      StepUpserts(s, step);
    }
  }

  lemma {:induction false} RunBeyond(s: State, steps: seq<Step>, swaps: bool)
    requires Inv(s) && Exec(s, steps).Some? && (swaps ==> SwapsOnly(steps))
    ensures Beyond(s.log, Exec(s, steps).value.log, swaps)
    decreases |steps|
  {
    if steps != [] {
      StepBeyond(s, steps[0]);
      StepKeepsInv(s, steps[0]);
      RunBeyond(Apply(s, steps[0]), steps[1..], swaps);
      BeyondTwice(s.log, Apply(s, steps[0]).log, Exec(s, steps).value.log, swaps);
    }
  }

  /** Some run without upserts, and without restarts unless they are allowed, leads from one state to the other. */
  ghost predicate Leads(s: State, t: State, restarts: bool) {
    exists steps :: Exec(s, steps) == Some(t) && Gentle(steps, restarts)
  }

  ghost predicate Gentle(steps: seq<Step>, restarts: bool) {
    SwapsOnly(steps) && (restarts || forall i :: 0 <= i < |steps| ==> steps[i] != Restart)
  }

  lemma LeadsOn(s: State, t: State, step: Step, restarts: bool) returns (u: State)
    requires Leads(s, t, restarts) && Enabled(t, step) && !Upserts(step) && (step == Restart ==> restarts)
    ensures u == Apply(t, step) && Leads(s, u, restarts)
  {
    u := Apply(t, step);
    var steps :| Exec(s, steps) == Some(t) && Gentle(steps, restarts);
    ExecAppend(s, steps, step);
    assert Gentle(steps + [step], restarts);
  }

  /** Finalization looks at a row that the process is not ahead of. */
  lemma LooksOn(s: State, t: State, restarts: bool) returns (u: State)
    requires Leads(s, t, restarts) && t.finalizer.pc.Looking? && t.log != []
    requires t.memory.version <= VersionAfter(t.log) && t.finalizer.snapshot.version <= VersionAfter(t.log)
    ensures Leads(s, u, restarts)
    ensures u == t.(memory := Row(t), seeded := true,
                    finalizer := t.finalizer.(pc := if t.finalizer.pc.again then Reviewing else Planned, snapshot := Row(t)))
  {
    u := LeadsOn(s, t, FinalizerTakes(ReadMemory), restarts);
    u := LeadsOn(s, u, FinalizerTakes(ReadStoredRow(true)), restarts);
    u := LeadsOn(s, u, FinalizerTakes(AdoptSnapshot), restarts);
  }

  /** A retry gets past its barrier, whatever is running. */
  lemma RetryEnters(s: State, t: State, restarts: bool) returns (u: State)
    requires Leads(s, t, restarts) && t.finalizer.pc == Idle
    ensures Leads(s, u, restarts) && u.log == t.log && u.memory == t.memory
    ensures u.finalizer.pc == Looking(false) && u.finalizer.snapshot == NOTHING
  {
    u := LeadsOn(s, t, Reopen, restarts);
    u := LeadsOn(s, u, FinalizerTakes(EnterFinalization(true)), restarts);
    u := LeadsOn(s, u, FinalizerTakes(EnterBarrier), restarts);
    if u.finalizer.pc.Awaiting? {
      u := LeadsOn(s, u, FinalizerTakes(BarrierTimesOut), restarts);
    }
  }

  /** It takes its snapshot, flushes nothing, and looks again. */
  lemma LooksTwice(s: State, t: State, restarts: bool) returns (u: State)
    requires Leads(s, t, restarts) && t.finalizer.pc == Looking(false) && t.finalizer.snapshot == NOTHING && t.log != []
    requires t.memory.version <= VersionAfter(t.log)
    ensures Leads(s, u, restarts) && u.log == t.log && u.memory == Row(t)
    ensures u.finalizer.pc == Reviewing && u.finalizer.snapshot == Row(t)
  {
    u := LooksOn(s, t, restarts);
    u := LeadsOn(s, u, FinalizerTakes(FlushStops), restarts);
    u := LooksOn(s, u, restarts);
  }

  /** Its review then moves the row on by one. */
  lemma ReviewAdvances(s: State, t: State, restarts: bool) returns (u: State)
    requires Leads(s, t, restarts) && t.finalizer.pc == Looking(false) && t.finalizer.snapshot == NOTHING && t.log != []
    requires t.memory.version <= VersionAfter(t.log)
    ensures Leads(s, u, restarts) && u.finalizer.pc == Idle && u.memory == Row(t)
    ensures u.log == t.log + [Audited(VersionAfter(t.log), |t.log|)]
  {
    u := LooksTwice(s, t, restarts);
    u := LeadsOn(s, u, FinalizerTakes(FinalReview(true)), restarts);
    u := LeadsOn(s, u, FinalizerTakes(FinishFinalization), restarts);
  }

  /** A retry of the finalization whose review is applied moves the row on by one, as often as it is retried. */
  lemma {:induction false} RetriesAdvance(s: State, t: State, base: nat, restarts: bool) returns (u: State)
    requires Leads(s, t, restarts) && t.finalizer.pc == Idle && t.log != []
    requires t.memory.version <= VersionAfter(t.log) <= base
    ensures Leads(s, u, restarts) && |u.log| > |t.log| && Advances(u.log[|u.log| - 1], base)
    decreases base - VersionAfter(t.log)
  {
    var v := VersionAfter(t.log);
    u := RetryEnters(s, t, restarts);
    u := ReviewAdvances(s, u, restarts);
    if v < base {
      u := RetriesAdvance(s, u, base, restarts);
    }
  }

  /** Some such run moves the row on from `base`. */
  ghost predicate MayAdvance(s: State, base: nat, restarts: bool) {
    exists t, j :: Leads(s, t, restarts) && |s.log| <= j < |t.log| && Advances(t.log[j], base)
  }

  lemma SwapsNeverRewind(s: State, t: State, j: nat, base: nat, restarts: bool)
    requires Inv(s) && Leads(s, t, restarts) && |s.log| <= j < |t.log| && Advances(t.log[j], base)
    ensures VersionAfter(s.log) <= base
  {
    var steps :| Exec(s, steps) == Some(t) && Gentle(steps, restarts);
    RunBeyond(s, steps, true);
    RunKeepsInv(s, steps);
    NextVersion(t.log, j);
    if VersionAfter(s.log) > base {
      assert VersionAt(t.log, |s.log|) == VersionAfter(s.log);
      OnlyUpsertsRewind(t.log, |s.log|, j, base);
    }
  }

  lemma LeadsNowhere(s: State, restarts: bool)
    ensures Leads(s, s, restarts)
  {
    assert Exec(s, []) == Some(s) && Gentle([], restarts);
  }

  /**
    After a swap moved the row on from `base`, a run without upserts can move it on
    from `base` again exactly when the row is back at `base` or below: after a
    restart, retries of the finalization do.
   */
  lemma SecondAdvanceExactlyWhen(s: State, i: nat, base: nat)
    requires Reachable(s) && i < |s.log| && Advances(s.log[i], base)
    ensures MayAdvance(s, base, true) <==> VersionAfter(s.log) <= base
  {
    ReachableInv(s);
    if VersionAfter(s.log) <= base {
      LeadsNowhere(s, true);
      var t := LeadsOn(s, s, Restart, true);
      t := RetriesAdvance(s, t, base, true);
      assert MayAdvance(s, base, true);
    }
    if t, j :| Leads(s, t, true) && |s.log| <= j < |t.log| && Advances(t.log[j], base) {
      SwapsNeverRewind(s, t, j, base, true);
    }
  }

  /** Between finalizations, when the process is not ahead of the row, retries do so without a restart. */
  lemma RetryAdvancesExactlyWhen(s: State, base: nat)
    requires Reachable(s) && s.log != [] && s.finalizer.pc == Idle && s.memory.version <= VersionAfter(s.log)
    ensures MayAdvance(s, base, false) <==> VersionAfter(s.log) <= base
  {
    ReachableInv(s);
    if VersionAfter(s.log) <= base {
      LeadsNowhere(s, false);
      var t := RetriesAdvance(s, s, base, false);
      assert MayAdvance(s, base, false);
    }
    if t, j :| Leads(s, t, false) && |s.log| <= j < |t.log| && Advances(t.log[j], base) {
      SwapsNeverRewind(s, t, j, base, false);
    }
  }

  // ----------------------------------------------- when a projection puts the row back

  function SwapsIn(log: seq<Event>, i: nat, j: nat): nat
    requires i <= j <= |log|
  {
    if i == j then 0 else SwapsIn(log, i, j - 1) + if Swap(log[j - 1]) then 1 else 0
  }

  ghost predicate AnySwap(log: seq<Event>, i: nat, j: nat)
    requires i <= j <= |log|
  {
    exists k :: i <= k < j && Swap(log[k])
  }

  lemma {:induction false} CountsAnySwap(log: seq<Event>, i: nat, j: nat)
    requires i <= j <= |log|
    ensures SwapsIn(log, i, j) > 0 <==> AnySwap(log, i, j)
  {
    if i < j {
      CountsAnySwap(log, i, j - 1);
      if AnySwap(log, i, j - 1) {
        var k :| i <= k < j - 1 && Swap(log[k]);
        assert AnySwap(log, i, j);
      }
    }
  }

  lemma {:induction false} SwapsRaise(log: seq<Event>, i: nat, j: nat)
    requires LogOk(log) && i <= j <= |log| && forall k :: i <= k < j ==> !log[k].Projection?
    ensures VersionAt(log, j) == VersionAt(log, i) + SwapsIn(log, i, j)
  {
    if i < j {
      SwapsRaise(log, i, j - 1);
      NextVersion(log, j - 1);
      assert !log[j - 1].Projection?;
    }
  }

  /** Finalization has written no projection yet. */
  predicate BeforeProjection(pc: FinalizerPc) {
    !pc.Idle? && !pc.Projected? && !pc.Published?
  }

  ghost predicate NoneProjectedFrom(log: seq<Event>, from: nat) {
    forall i :: from <= i < |log| ==> !log[i].Projection?
  }

  ghost predicate NoneProjected(s: State) {
    BeforeProjection(s.finalizer.pc) ==> NoneProjectedFrom(s.log, s.finalizer.entered)
  }

  lemma BeyondProjectsNone(log: seq<Event>, more: seq<Event>, from: nat)
    requires Beyond(log, more, true) && (NoneProjectedFrom(log, from) || from == |log|)
    ensures NoneProjectedFrom(more, from)
  {
    forall i | from <= i < |more| ensures !more[i].Projection? {
      assert i < |log| ==> more[i] == more[..|log|][i];
    }
  }

  lemma StepKeepsNoneProjected(s: State, step: Step)
    requires Inv(s) && NoneProjected(s) && Enabled(s, step)
    ensures NoneProjected(Apply(s, step))
  {
    if BeforeProjection(Apply(s, step).finalizer.pc) {
      StepEnters(s, step);
      StepBeyond(s, step);
      BeyondProjectsNone(s.log, Apply(s, step).log, Apply(s, step).finalizer.entered);
    }
  }

  lemma StepEnters(s: State, step: Step)
    requires Enabled(s, step) && BeforeProjection(Apply(s, step).finalizer.pc)
    ensures var f, g := s.finalizer, Apply(s, step).finalizer;
      && !Upserts(step)
      && ((BeforeProjection(f.pc) && g.entered == f.entered) || g.entered == |s.log|)
  {
    if step.FinalizerTakes? {
      FinalizerEnters(s, step.finalizerStep);
    } else {
      OthersKeepFinalizer(s, step);
    }
  }

  lemma FinalizerEnters(s: State, step: FinalizerStep)
    requires FinalizerEnabled(s, step) && BeforeProjection(NextFinalizer(s, step).pc)
    ensures var f, g := s.finalizer, NextFinalizer(s, step);
      step != StoreProjection && ((BeforeProjection(f.pc) && g.entered == f.entered) || g.entered == |s.log|)
  {}

  lemma OthersKeepFinalizer(s: State, step: Step)
    requires Enabled(s, step) && !step.FinalizerTakes?
    ensures Apply(s, step).finalizer == s.finalizer || Apply(s, step).finalizer == NO_FINALIZER
  {}

  lemma {:induction false} RunKeepsNoneProjected(s: State, steps: seq<Step>)
    requires Inv(s) && NoneProjected(s) && Exec(s, steps).Some?
    ensures NoneProjected(Exec(s, steps).value)
    decreases |steps|
  {
    if steps != [] {
      StepKeepsInv(s, steps[0]);
      StepKeepsNoneProjected(s, steps[0]);
      RunKeepsNoneProjected(Apply(s, steps[0]), steps[1..]);
    }
  }

  lemma ReachableNoneProjected(s: State)
    requires Reachable(s)
    ensures NoneProjected(s)
  {
    var steps :| Exec(INIT, steps) == Some(s);
    RunKeepsNoneProjected(INIT, steps);
  }

  /** How an upsert at an earlier content's version compares with the swaps since. */
  lemma UpsertLowersExactlyWhen(log: seq<Event>, entered: nat, x: Seen)
    requires LogOk(log) && SeenOk(log, x) && entered <= |log| && NoneProjectedFrom(log, entered)
    ensures var lowers := x.version < VersionAfter(log);
      && (lowers <==> VersionAt(log, entered) + SwapsIn(log, entered, |log|) > x.version)
      && (x.at >= entered ==> (lowers <==> AnySwap(log, x.at, |log|)))
  {
    assert log[..|log|] == log;
    SwapsRaise(log, entered, |log|);
    if x.at >= entered {
      SwapsRaise(log, x.at, |log|);
      CountsAnySwap(log, x.at, |log|);
    }
  }

  /** Whether this write of the projection lowers the stored version. */
  predicate Lowers(s: State)
    requires FinalizerEnabled(s, StoreProjection)
  {
    VersionAfter(ApplyFinalizer(s, StoreProjection).log) < VersionAfter(s.log)
  }

  /**
    The finalized projection lowers the stored version exactly when the swaps that
    landed since finalization entered have moved the row past its snapshot; and for
    a snapshot taken from the row, or written by the final review, exactly when any
    swap at all landed after that.
   */
  lemma ProjectionLowersExactlyWhen(s: State)
    requires Reachable(s) && FinalizerEnabled(s, StoreProjection)
    ensures var f := s.finalizer;
      && f.entered <= |s.log| && f.snapshot.at <= |s.log|
      && (Lowers(s) <==> VersionAt(s.log, f.entered) + SwapsIn(s.log, f.entered, |s.log|) > f.snapshot.version)
      && (f.snapshot.at >= f.entered ==> (Lowers(s) <==> AnySwap(s.log, f.snapshot.at, |s.log|)))
  {
    ReachableInv(s);
    ReachableNoneProjected(s);
    var x := s.finalizer.snapshot;
    UpsertLowersExactlyWhen(s.log, s.finalizer.entered, x);
    assert ApplyFinalizer(s, StoreProjection).log == s.log + [Projection(x.version, x.at)];
  }

  // --------------------------------------------------------------- concrete runs

  lemma {:induction false} ExecAppend(s: State, steps: seq<Step>, step: Step)
    requires Exec(s, steps).Some? && Enabled(Exec(s, steps).value, step)
    ensures Exec(s, steps + [step]) == Some(Apply(Exec(s, steps).value, step))
    decreases |steps|
  {
    if steps == [] {
      assert ([step])[1..] == [];
      assert Exec(Apply(s, step), []) == Some(Apply(s, step));
    } else {
      assert (steps + [step])[1..] == steps[1..] + [step];
      ExecAppend(Apply(s, steps[0]), steps[1..], step);
    }
  }

  lemma Then(s: State, step: Step) returns (t: State)
    requires Reachable(s) && Enabled(s, step)
    ensures t == Apply(s, step) && Reachable(t)
  {
    t := Apply(s, step);
    var steps :| Exec(INIT, steps) == Some(s);
    ExecAppend(INIT, steps, step);
  }

  lemma Start() returns (s: State)
    ensures s == INIT && Reachable(s)
  {
    s := INIT;
    assert Exec(INIT, []) == Some(INIT);
  }

  /** A step of a round that neither releases it nor writes. */
  lemma ThenRound(s: State, r: nat, step: RoundStep) returns (t: State)
    requires Reachable(s) && RoundEnabled(s, r, step) && !Finishes(step) && !Adopts(step) && WriteOf(s, r, step).None?
    ensures Reachable(t) && t == s.(rounds := s.rounds[r := NextRound(s, r, step)])
  {
    SilentStep(s, r, step);
    t := Then(s, RoundTakes(r, step));
  }

  predicate Adopts(step: RoundStep) {
    step == AdoptStoredBase || step == AdoptAfterFailure
  }

  lemma SilentStep(s: State, r: nat, step: RoundStep)
    requires RoundEnabled(s, r, step) && !Finishes(step) && !Adopts(step) && WriteOf(s, r, step).None?
    ensures ApplyRound(s, r, step) == s.(rounds := s.rounds[r := NextRound(s, r, step)])
  {}

  /** Round `r`, the only one running, reads its base and passes the check. */
  lemma ThenPassCheck(s: State, r: nat) returns (t: State)
    requires Reachable(s) && r in s.rounds && s.rounds[r].pc == Launched && s.seeded
    requires !SlotSuperseded(s.slot, s.slot.generation)
    ensures Reachable(t)
    ensures t == s.(rounds := s.rounds[r := s.rounds[r].(pc := Persisting, generation := s.slot.generation, base := s.memory)])
  {
    t := ThenRound(s, r, ReadGeneration);
    t := ThenRound(t, r, ReadBase);
    t := ThenRound(t, r, CheckSuperseded);
  }

  /** Finalization enters its barrier and gives up on the running round. */
  lemma ThenTimeOut(s: State) returns (t: State)
    requires Reachable(s) && s.finalizer.pc == Idle && s.slot.done.Some?
    ensures Reachable(t)
    ensures t == s.(finalizing := true, barred := true, auditClosed := true, slot := SupersedeSlot(s.slot),
                    finalizer := Finalizer(Looking(false), true, |s.log|, NOTHING))
  {
    t := ThenEnter(s);
    t := Then(t, FinalizerTakes(EnterBarrier));
    t := Then(t, FinalizerTakes(BarrierTimesOut));
  }

  lemma ThenEnter(s: State) returns (t: State)
    requires Reachable(s) && s.finalizer.pc == Idle
    ensures Reachable(t)
    ensures t == s.(finalizing := true, barred := true, auditClosed := true, finalizer := Finalizer(Sealed, false, |s.log|, NOTHING))
  {
    t := Then(s, FinalizerTakes(EnterFinalization(true)));
  }

  /** Finalization takes its snapshot from a row no older than what the process holds. */
  lemma ThenLook(s: State) returns (t: State)
    requires Reachable(s) && s.finalizer.pc.Looking? && s.log != []
    requires s.memory.version <= VersionAfter(s.log) && s.finalizer.snapshot.version <= VersionAfter(s.log)
    ensures Reachable(t)
    ensures t == s.(memory := Row(s), seeded := true,
                    finalizer := s.finalizer.(pc := if s.finalizer.pc.again then Reviewing else Planned, snapshot := Row(s)))
  {
    t := Then(s, FinalizerTakes(ReadMemory));
    t := Then(t, FinalizerTakes(ReadStoredRow(true)));
    t := Then(t, FinalizerTakes(AdoptSnapshot));
  }

  /** Before anything was written, finalization goes on with what the process holds. */
  lemma ThenLookAtNothing(s: State) returns (t: State)
    requires Reachable(s) && s.finalizer.pc == Looking(false) && s.log == []
    ensures Reachable(t) && t == s.(finalizer := s.finalizer.(pc := Planned, snapshot := s.memory))
  {
    t := Then(s, FinalizerTakes(ReadMemory));
    t := Then(t, FinalizerTakes(ReadStoredRow(true)));
    t := Then(t, FinalizerTakes(AdoptSnapshot));
  }

  lemma ThenProject(s: State) returns (t: State)
    requires Reachable(s) && s.finalizer.pc == Reviewed
    ensures Reachable(t)
    ensures var x := s.finalizer.snapshot;
      t == s.(log := s.log + [Projection(x.version, x.at)], memory := Seen(x.version, |s.log| + 1), finalizer := s.finalizer.(pc := Published))
  {
    t := Then(s, FinalizerTakes(StoreProjection));
    t := Then(t, FinalizerTakes(PublishProjection));
  }

  lemma ThenPersist(s: State, r: nat) returns (t: State)
    requires Reachable(s) && RoundEnabled(s, r, Persist) && SwapSucceeds(s, s.rounds[r].base.version)
    ensures Reachable(t)
    ensures var base := s.rounds[r].base;
      t == s.(rounds := s.rounds[r := s.rounds[r].(pc := Stored, result := Seen(base.version + 1, |s.log| + 1))],
              log := s.log + [Completed(r, base.version, base.at)])
  {
    PersistStep(s, r);
    t := Then(s, RoundTakes(r, Persist));
  }

  lemma PersistStep(s: State, r: nat)
    requires RoundEnabled(s, r, Persist) && SwapSucceeds(s, s.rounds[r].base.version)
    ensures var base := s.rounds[r].base;
      ApplyRound(s, r, Persist) ==
        s.(rounds := s.rounds[r := s.rounds[r].(pc := Stored, result := Seen(base.version + 1, |s.log| + 1))],
           log := s.log + [Completed(r, base.version, base.at)])
  {
    var base := s.rounds[r].base;
    assert WriteOf(s, r, Persist) == Some(Completed(r, base.version, base.at));
    assert NextMemory(s, s.rounds[r], Persist) == s.memory;
  }

  lemma ThenComplete(s: State, r: nat) returns (t: State)
    requires Reachable(s) && RoundEnabled(s, r, Complete)
    ensures Reachable(t)
    ensures var round := s.rounds[r]; var f := Finish(s, round.generation);
      t == s.(rounds := s.rounds[r := round.(pc := Ended, completed := true)], memory := round.result, slot := f.slot, closed := f.closed)
  {
    t := Then(s, RoundTakes(r, Complete));
  }

  lemma ThenFlush(s: State) returns (t: State)
    requires Reachable(s) && s.finalizer.pc == Planned
    ensures Reachable(t)
    ensures t == s.(slot := BeginSlot(s.slot), rounds := s.rounds[s.slot.counter + 1 := LAUNCHED],
                    finalizer := s.finalizer.(pc := Flushing(s.slot.counter + 1)))
  {
    t := Then(s, FinalizerTakes(FlushBegin));
  }

  /** Round `r` of a process that holds nothing reads the row. */
  lemma ThenReadStored(s: State, r: nat) returns (t: State)
    requires Reachable(s) && r in s.rounds && s.rounds[r].pc == Launched && !s.seeded && s.memory == NOTHING
    ensures Reachable(t)
    ensures t == s.(rounds := s.rounds[r := s.rounds[r].(pc := Seeding(Row(s)), generation := s.slot.generation)])
  {
    t := ThenRound(s, r, ReadGeneration);
    t := ThenRound(t, r, ReadBase);
    t := ThenRound(t, r, ReadStoredBase(true));
  }

  /** It takes over what it read. */
  lemma ThenSeed(s: State, r: nat) returns (t: State)
    requires Reachable(s) && r in s.rounds && s.rounds[r].pc == Launched && !s.seeded && s.memory == NOTHING
    ensures Reachable(t)
    ensures var base := Newer(Row(s), NOTHING);
      t == s.(rounds := s.rounds[r := s.rounds[r].(pc := Analysing, generation := s.slot.generation, base := base)],
              memory := base, seeded := true)
  {
    var u := ThenReadStored(s, r);
    t := Then(u, RoundTakes(r, AdoptStoredBase));
  }

  /** The first round of a fresh process stores version 1. */
  lemma FirstRound() returns (t: State)
    ensures Reachable(t) && t.seeded && t.memory == Seen(1, 1) && t.log == [Completed(1, 0, 0)]
    ensures t.slot == Slot(1, 1, false, None, 0) && !t.stopped && !t.finalizing && !t.barred && t.finalizer.pc == Idle
  {
    t := Start();
    t := Then(t, Dispatch);
    t := ThenSeed(t, 1);
    t := ThenRound(t, 1, CheckSuperseded);
    t := ThenPersist(t, 1);
    t := ThenComplete(t, 1);
  }

  /** The second round has passed its check when the barrier gives up on it. */
  lemma TimedOutAfterCheck() returns (t: State)
    ensures Reachable(t) && t.log == [Completed(1, 0, 0)] && t.slot == Slot(2, 2, true, Some(2), 2)
    ensures t.memory == Seen(1, 1) && t.seeded && 2 in t.rounds
    ensures t.rounds[2] == LAUNCHED.(pc := Persisting, generation := 2, base := Seen(1, 1))
    ensures t.finalizer == Finalizer(Looking(false), true, 1, NOTHING)
  {
    t := FirstRound();
    t := Then(t, Dispatch);
    t := ThenPassCheck(t, 2);
    t := ThenTimeOut(t);
  }

  /** A round superseded between its check and its persist still stores its result. */
  lemma SupersededAfterCheckStillStores() returns (t: State)
    ensures Reachable(t) && SlotSuperseded(t.slot, 2) && t.log == [Completed(1, 0, 0), Completed(2, 1, 1)]
  {
    t := TimedOutAfterCheck();
    t := ThenPersist(t, 2);
  }

  /** The flush list is fixed, and the superseded round still stores its result and completes. */
  lemma SupersededStoresBeforeFlush() returns (t: State)
    ensures Reachable(t) && t.slot == Slot(2, 2, false, None, 2) && t.seeded && t.memory == Seen(2, 2)
    ensures t.log == [Completed(1, 0, 0), Completed(2, 1, 1)]
    ensures t.finalizer == Finalizer(Planned, true, 1, Seen(1, 1))
  {
    t := TimedOutAfterCheck();
    t := ThenLook(t);
    t := ThenPersist(t, 2);
    t := ThenComplete(t, 2);
  }

  /** The flush round then stores after it. */
  lemma FlushStoresAfterSupersededRound() returns (t: State)
    ensures Reachable(t)
    ensures t.log == [Completed(1, 0, 0), Completed(2, 1, 1), Completed(3, 2, 2)]
    ensures t.finalizer == Finalizer(Flushing(3), true, 1, Seen(1, 1))
  {
    t := SupersededStoresBeforeFlush();
    t := ThenFlush(t);
    t := ThenPassCheck(t, 3);
    t := ThenPersist(t, 3);
  }

  /** Nothing to flush: finalization looks at the row again, and its review applies nothing. */
  lemma ReviewedWithoutFlush() returns (t: State)
    ensures Reachable(t) && t.log == [Completed(1, 0, 0)] && t.slot == Slot(2, 2, true, Some(2), 2)
    ensures t.memory == Seen(1, 1) && t.seeded && 2 in t.rounds
    ensures t.rounds[2] == LAUNCHED.(pc := Persisting, generation := 2, base := Seen(1, 1))
    ensures t.finalizer == Finalizer(Reviewed, true, 1, Seen(1, 1))
  {
    t := TimedOutAfterCheck();
    t := ThenLook(t);
    t := Then(t, FinalizerTakes(FlushStops));
    t := ThenLook(t);
    t := Then(t, FinalizerTakes(FinalReview(false)));
  }

  /** The superseded round stores after that second look, and the projection puts the row back. */
  lemma ThenProjectionIsStored() returns (t: State)
    ensures Reachable(t) && t.log == [Completed(1, 0, 0), Completed(2, 1, 1), Projection(1, 1)]
    ensures t.memory == Seen(1, 3) && t.seeded && t.slot == Slot(2, 2, false, None, 2)
    ensures t.finalizer.pc == Published
  {
    t := ReviewedWithoutFlush();
    t := ThenPersist(t, 2);
    t := ThenComplete(t, 2);
    t := ThenProject(t);
  }

  /** A retry enters finalization again with nothing running. */
  lemma ThenRetry(s: State) returns (t: State)
    requires Reachable(s) && s.finalizer.pc == Published && s.slot.done.None?
    ensures Reachable(t)
    ensures t == s.(finalizing := true, stopped := false, barred := true, auditClosed := true,
                    finalizer := Finalizer(Looking(false), false, |s.log|, NOTHING))
  {
    t := Then(s, FinalizerTakes(FinishFinalization));
    t := Then(t, Reopen);
    t := ThenEnter(t);
    t := Then(t, FinalizerTakes(EnterBarrier));
  }

  /** The projection upsert can put the row back, and the flush of a retry swaps from that version again. */
  lemma ProjectionRewindsTheRow() returns (t: State)
    ensures Reachable(t)
    ensures t.log == [Completed(1, 0, 0), Completed(2, 1, 1), Projection(1, 1), Completed(3, 1, 3)]
  {
    t := ThenProjectionIsStored();
    t := ThenRetry(t);
    t := ThenLook(t);
    t := ThenFlush(t);
    t := ThenPassCheck(t, 3);
    t := ThenPersist(t, 3);
  }

  /** A dispatched round whose goroutine has not started when the barrier gives up, and a flush begins. */
  lemma FlushOverLateRound() returns (t: State)
    ensures Reachable(t) && t.slot == Slot(2, 2, true, Some(2), 1) && t.closed == []
    ensures t.rounds == map[1 := LAUNCHED, 2 := LAUNCHED]
    ensures !t.seeded && t.log == [] && t.memory == NOTHING
  {
    t := Start();
    t := Then(t, Dispatch);
    t := ThenTimeOut(t);
    t := ThenLookAtNothing(t);
    t := ThenFlush(t);
  }

  /**
    A goroutine that starts only after the barrier gave up on its round reads the
    flush round's generation: it escapes its own supersession, and its finish
    closes the channel of the flush round, which has not started yet.
   */
  lemma LateReaderClosesTheFlushChannel() returns (t: State)
    ensures Reachable(t) && SlotSuperseded(t.slot, 1) && {1, 2} <= t.rounds.Keys
    ensures t.rounds[1].generation == 2 && !t.rounds[1].discarded
    ensures t.rounds[2].pc == Launched && t.closed == [2] && !t.slot.running
  {
    t := FlushOverLateRound();
    t := ThenSeed(t, 1);
    t := Then(t, RoundTakes(1, FailAnalysis));
  }
}
