/**
  Meeting finalization in one process (internal/application/ai_analysis.go):
  every interleaving of end notifications, retries and process restarts, down to
  the reads and writes of the durable progress row; with the session's status and
  the timer of the live scheduler (ai_live_scheduler.go), which decide whether a
  live round may start meanwhile.
 */
module Finalization {
  import opened Options

  // ------------------------------------------------------------------ the guard

  /** The sessions with a finalization in flight; each method is one critical section. */
  class InFlightGuard {
    var sessions: set<string>

    constructor ()
      ensures sessions == {}
    {
      sessions := {};
    }

    method Enter(sessionId: string) returns (entered: bool)
      modifies this
      ensures entered == (sessionId !in old(sessions))
      ensures sessions == old(sessions) + {sessionId}
    {
      if sessionId in sessions {
        return false;
      }
      sessions := sessions + {sessionId};
      return true;
    }

    method Leave(sessionId: string)
      modifies this
      ensures sessions == old(sessions) - {sessionId}
    {
      sessions := sessions - {sessionId};
    }
  }

  // ------------------------------------------------------------------ the state

  datatype Status = Running | Completed | Failed

  /** The durable progress row of the session. */
  datatype Row = Row(status: Status, version: nat)

  datatype Write = Write(run: nat, row: Row)

  datatype Pc =
    | Retrying            // a retry that has not reopened the session yet
    | AtGuard
    | ReadingProgress     // holds the guard from here ...
    | ReadingFinal
    | Body(version: nat)
    | Leaving             // ... to here
    | Stopping            // guard released; flags not reset yet
    | Ended

  /** The durable status of the meeting session; only the terminal ones are final. */
  datatype Session =
    | NoRow               // a caller without a session row
    | Open
    | Ending
    | Over                // ended, failed or stale

  /** What a dispatch learned of the session before it took the lock. */
  datatype Look = Allowed | Refused | LookupFailed

  /** What the live scheduler goes by. */
  datatype Live = Live(
    session: Session,
    finalizing: bool,
    stopped: bool,
    timer: Option<nat>,           // the schedule generation a timer is set for
    schedule: nat,                // last schedule generation handed out
    looks: map<nat, Look>,        // dispatches between their look and the lock
    started: nat)                 // live rounds started so far

  datatype State = State(
    guard: bool,
    runs: map<nat, Pc>,
    next: nat,
    progress: Option<Row>,
    summary: Option<Status>,      // status of the final summary row
    log: seq<Write>,              // writes to the progress row, in order
    live: Live)

  const INIT := State(false, map[], 0, None, None, [], Live(NoRow, false, false, None, 0, map[], 0))

  /** `ok` says whether the repository call succeeds. */
  datatype Step =
    | EndNotified
    | RetryRequested
    | Reopen(run: nat)
    | TakeGuard(run: nat)
    | ReadProgress(run: nat, ok: bool)
    | ReadFinal(run: nat, ok: bool)
    | Prepare(run: nat)
    | WriteRunning(run: nat, ok: bool)
    | WriteSummary(run: nat, status: Status)
    | WriteTerminal(run: nat, status: Status, ok: bool)
    | Panic(run: nat)
    | DropGuard(run: nat)
    | FinishFinalizing(run: nat)
    | Restart
    | Outside(event: Event)

  /** What happens beside the runs: to the session, the timer of the scheduler, and the service. */
  datatype Event =
    | SessionWritten(written: Session)
    | Schedule
    | TimerFires(found: bool)
    | TimerLocks(generation: nat, eligible: bool)
    | Close

  predicate At(s: State, run: nat, pc: Pc) {
    run in s.runs && s.runs[run] == pc
  }

  predicate InBody(s: State, run: nat) {
    run in s.runs && s.runs[run].Body?
  }

  predicate HoldsGuard(pc: Pc) {
    pc.ReadingProgress? || pc.ReadingFinal? || pc.Body? || pc.Leaving?
  }

  predicate Enabled(s: State, step: Step) {
    match step
    case EndNotified => true
    case RetryRequested => !(s.progress.Some? && s.progress.value.status == Completed) && s.summary != Some(Completed)
    case Reopen(run) => At(s, run, Retrying)
    case TakeGuard(run) => At(s, run, AtGuard)
    case ReadProgress(run, ok) => At(s, run, ReadingProgress)
    case ReadFinal(run, ok) => At(s, run, ReadingFinal)
    case Prepare(run) => InBody(s, run)
    case WriteRunning(run, ok) => InBody(s, run)
    case WriteSummary(run, status) => InBody(s, run)
    case WriteTerminal(run, status, ok) => InBody(s, run) && status != Running
    case Panic(run) => run in s.runs && HoldsGuard(s.runs[run])
    case DropGuard(run) => At(s, run, Leaving)
    case FinishFinalizing(run) => At(s, run, Stopping)
    case Restart => true
    case Outside(event) => EventEnabled(s.live, event)
  }

  predicate EventEnabled(l: Live, event: Event) {
    match event
    case SessionWritten(status) => status != NoRow && (l.session == Over ==> status == Over)
    case Schedule => !l.stopped && !l.finalizing
    case TimerFires(found) => l.timer.Some? && l.timer.value !in l.looks
    case TimerLocks(generation, eligible) => generation in l.looks
    case Close => true
  }

  function Seen(session: Session, found: bool): Look {
    if !found then LookupFailed else if session == Ending || session == Over then Refused else Allowed
  }

  /** Whether the dispatch that now takes the lock starts a live round. */
  predicate Starts(l: Live, generation: nat, eligible: bool) {
    && generation in l.looks && l.timer == Some(generation) && l.looks[generation] == Allowed
    && !l.stopped && !l.finalizing && eligible
  }

  /** A cancelled dispatch only leaves; one that was refused stops the session's live rounds. */
  function Lock(l: Live, generation: nat, eligible: bool): Live
    requires generation in l.looks
  {
    var t := l.(looks := l.looks - {generation});
    if l.timer != Some(generation) then t
    else if l.looks[generation] == Refused then t.(timer := None, stopped := true)
    else if Starts(l, generation, eligible) then t.(timer := None, started := l.started + 1)
    else t.(timer := None)
  }

  function CancelTimer(l: Live): Live {
    if l.timer.Some? then l.(timer := None, schedule := l.schedule + 1) else l
  }

  function ApplyEvent(l: Live, event: Event): Live
    requires EventEnabled(l, event)
  {
    match event
    case SessionWritten(status) => l.(session := status)
    case Schedule => CancelTimer(l).(timer := Some(CancelTimer(l).schedule + 1), schedule := CancelTimer(l).schedule + 1)
    case TimerFires(found) => l.(looks := l.looks[l.timer.value := Seen(l.session, found)])
    case TimerLocks(generation, eligible) => Lock(l, generation, eligible)
    case Close => CancelTimer(l).(stopped := true)
  }

  /** What a step does to the scheduler's part of the state. */
  function LiveAfter(l: Live, step: Step): Live
    requires step.Outside? ==> EventEnabled(l, step.event)
  {
    match step
    case Reopen(run) => l.(finalizing := false, stopped := false)
    case Prepare(run) => CancelTimer(l).(finalizing := true)
    case FinishFinalizing(run) => CancelTimer(l).(finalizing := false, stopped := true)
    case Restart => l.(finalizing := false, stopped := false, timer := None, schedule := 0, looks := map[])
    case Outside(event) => ApplyEvent(l, event)
    case _ => l
  }

  function Goto(s: State, run: nat, pc: Pc): State {
    s.(runs := s.runs[run := pc])
  }

  function Arrive(s: State, pc: Pc): State {
    s.(runs := s.runs[s.next := pc], next := s.next + 1)
  }

  /** A failed write is only logged by the program; it goes on. */
  function Store(s: State, run: nat, row: Row, ok: bool): State {
    if ok then s.(progress := Some(row), log := s.log + [Write(run, row)]) else s
  }

  /** What a step does to the guard, the runs and the rows. */
  function Move(s: State, step: Step): State
    requires Enabled(s, step)
  {
    match step
    case EndNotified => Arrive(s, AtGuard)
    case RetryRequested => Arrive(s, Retrying)
    case Reopen(run) => Goto(s, run, AtGuard)
    case TakeGuard(run) =>
      if s.guard then Goto(s, run, Ended) else Goto(s, run, ReadingProgress).(guard := true)
    case ReadProgress(run, ok) =>
      if ok && s.progress.Some? then
        Goto(s, run, if s.progress.value.status == Completed then Leaving else Body(s.progress.value.version + 1))
      else Goto(s, run, ReadingFinal)
    case ReadFinal(run, ok) =>
      Goto(s, run, if ok && s.summary == Some(Completed) then Leaving else Body(1))
    case Prepare(run) => s
    case WriteRunning(run, ok) => Store(s, run, Row(Running, s.runs[run].version), ok)
    case WriteSummary(run, status) => s.(summary := Some(status))
    case WriteTerminal(run, status, ok) =>
      Goto(Store(s, run, Row(status, s.runs[run].version), ok), run, Leaving)
    case Panic(run) => Goto(s, run, Leaving)
    case DropGuard(run) => Goto(s, run, Stopping).(guard := false)
    case FinishFinalizing(run) => Goto(s, run, Ended)
    case Restart => s.(guard := false, runs := map[])
    case Outside(event) => s
  }

  function Apply(s: State, step: Step): State
    requires Enabled(s, step)
  {
    Move(s, step).(live := LiveAfter(s.live, step))
  }

  function Exec(s: State, steps: seq<Step>): Option<State>
    decreases |steps|
  {
    if steps == [] then Some(s)
    else if Enabled(s, steps[0]) then Exec(Apply(s, steps[0]), steps[1..])
    else None
  }

  // ------------------------------------------------------------- mutual exclusion

  ghost predicate Exclusive(s: State) {
    && (forall r, q :: r in s.runs && q in s.runs && HoldsGuard(s.runs[r]) && HoldsGuard(s.runs[q]) ==> r == q)
    && (forall r :: r in s.runs && HoldsGuard(s.runs[r]) ==> s.guard)
    && (forall r :: r in s.runs ==> r < s.next)
  }

  /** A step moves one run at most, takes the guard only when it is free, and drops it only for its holder. */
  lemma StepMovesOneRun(s: State, step: Step)
    requires Enabled(s, step) && step != Restart && !step.Outside? && forall r :: r in s.runs ==> r < s.next
    ensures var t := Apply(s, step);
      exists r: nat, pc :: t.runs == s.runs[r := pc] && r < t.next && s.next <= t.next && GuardFollows(s, t, r, pc)
  {
    var t := Apply(s, step);
    if step.EndNotified? || step.RetryRequested? {
      assert t.runs == s.runs[s.next := t.runs[s.next]] && GuardFollows(s, t, s.next, t.runs[s.next]);
    } else {
      var r := step.run;
      assert t.runs == s.runs[r := t.runs[r]] && GuardFollows(s, t, r, t.runs[r]);
    }
  }

  /** How the guard moves with run `r`. */
  ghost predicate GuardFollows(s: State, t: State, r: nat, pc: Pc) {
    var held := r in s.runs && HoldsGuard(s.runs[r]);
    if held == HoldsGuard(pc) then t.guard == s.guard
    else if held then !t.guard
    else !s.guard && t.guard
  }

  lemma StepKeepsExclusive(s: State, step: Step)
    requires Exclusive(s) && Enabled(s, step)
    ensures Exclusive(Apply(s, step))
  {
    if !step.Outside? && step != Restart {
      StepMovesOneRun(s, step);
    }
  }

  lemma {:induction false} RunKeepsExclusive(s: State, steps: seq<Step>)
    requires Exclusive(s) && Exec(s, steps).Some?
    ensures Exclusive(Exec(s, steps).value)
    decreases |steps|
  {
    if steps != [] {
      StepKeepsExclusive(s, steps[0]);
      RunKeepsExclusive(Apply(s, steps[0]), steps[1..]);
    }
  }

  /** Over every interleaving, at most one run is between taking the guard and dropping it. */
  lemma OneBodyAtATime(steps: seq<Step>, r: nat, q: nat)
    requires Exec(INIT, steps).Some?
    requires r in Exec(INIT, steps).value.runs && q in Exec(INIT, steps).value.runs
    requires HoldsGuard(Exec(INIT, steps).value.runs[r]) && HoldsGuard(Exec(INIT, steps).value.runs[q])
    ensures r == q
  {
    RunKeepsExclusive(INIT, steps);
  }

  // ---------------------------------------------------------- the progress writes

  /** A read of the progress row that fails, so that the program cannot see what is stored. */
  predicate LosesProgress(step: Step) {
    step.ReadProgress? && !step.ok
  }

  ghost predicate ReadsSucceed(steps: seq<Step>) {
    forall i :: 0 <= i < |steps| ==> !LosesProgress(steps[i])
  }

  ghost predicate LogOrdered(log: seq<Write>) {
    && (forall i, j :: 0 <= i <= j < |log| ==> log[i].row.version <= log[j].row.version)
    && (forall i, j :: 0 <= i < |log| && 0 <= j < |log| ==>
          (log[i].row.version == log[j].row.version <==> log[i].run == log[j].run))
    && (forall i :: 0 <= i < |log| - 1 ==> log[i].row.status == Running || log[i].row.version < log[i + 1].row.version)
    && (forall i :: 0 <= i < |log| && log[i].row.status == Completed ==> i == |log| - 1)
  }

  function StoredRow(log: seq<Write>): Option<Row> {
    if log == [] then None else Some(log[|log| - 1].row)
  }

  /** What run `r` may still rely on while it writes under `version`. */
  ghost predicate MayWrite(log: seq<Write>, r: nat, version: nat) {
    && version >= 1
    && forall i :: 0 <= i < |log| ==>
         && log[i].row.status != Completed
         && log[i].row.version <= version
         && (log[i].row.version == version <==> log[i].run == r)
         && (log[i].run == r ==> log[i].row.status == Running)
  }

  ghost predicate NeverWrote(log: seq<Write>, r: nat) {
    forall i :: 0 <= i < |log| ==> log[i].run != r
  }

  ghost predicate RunOk(log: seq<Write>, r: nat, pc: Pc) {
    match pc
    case Body(version) => MayWrite(log, r, version)
    case ReadingFinal => log == []
    case Leaving => true
    case Stopping => true
    case Ended => true
    case _ => NeverWrote(log, r)
  }

  ghost predicate RunsOk(s: State) {
    forall r :: r in s.runs ==> RunOk(s.log, r, s.runs[r])
  }

  ghost predicate RowsOk(s: State) {
    && s.progress == StoredRow(s.log)
    && LogOrdered(s.log)
    && (forall i :: 0 <= i < |s.log| ==> s.log[i].run < s.next)
  }

  ghost predicate LogInv(s: State) {
    RowsOk(s) && RunsOk(s)
  }

  lemma WriteKeepsOrdered(log: seq<Write>, w: Write)
    requires LogOrdered(log) && MayWrite(log, w.run, w.row.version)
    ensures LogOrdered(log + [w])
    ensures w.row.status == Running ==> MayWrite(log + [w], w.run, w.row.version)
  {}

  /** A write by the one run in its body. */
  lemma WriteKeepsLog(s: State, run: nat, status: Status)
    requires Exclusive(s) && LogInv(s) && InBody(s, run)
    ensures var t := Store(s, run, Row(status, s.runs[run].version), true);
      && RowsOk(t)
      && forall r :: r in s.runs && (r != run || status == Running) ==> RunOk(t.log, r, s.runs[r])
  {
    var t := Store(s, run, Row(status, s.runs[run].version), true);
    assert RunOk(s.log, run, s.runs[run]);
    WriteKeepsOrdered(s.log, Write(run, Row(status, s.runs[run].version)));
    forall r | r in s.runs && r != run ensures RunOk(t.log, r, s.runs[r]) {
      assert RunOk(s.log, r, s.runs[r]);
      assert HoldsGuard(s.runs[run]) && !HoldsGuard(s.runs[r]);
    }
  }

  lemma LeavingKeepsLog(s: State, t: State, run: nat)
    requires RowsOk(s) && (forall r :: r in s.runs && r != run ==> RunOk(s.log, r, s.runs[r]))
    requires t.log == s.log && t.progress == s.progress && t.next == s.next && t.runs == s.runs[run := Leaving]
    ensures LogInv(t)
  {}

  lemma TerminalKeepsLog(s: State, run: nat, status: Status, ok: bool)
    requires Exclusive(s) && LogInv(s) && InBody(s, run) && status != Running
    ensures LogInv(Apply(s, WriteTerminal(run, status, ok)))
  {
    var stored := Store(s, run, Row(status, s.runs[run].version), ok);
    if ok {
      WriteKeepsLog(s, run, status);
    }
    LeavingKeepsLog(stored, Apply(s, WriteTerminal(run, status, ok)), run);
  }

  lemma ReadDecides(s: State, run: nat)
    requires LogInv(s) && At(s, run, ReadingProgress)
    ensures RunOk(s.log, run, Move(s, ReadProgress(run, true)).runs[run])
  {
    assert RunOk(s.log, run, s.runs[run]);
    if s.log != [] {
      assert s.progress == Some(s.log[|s.log| - 1].row);
    }
  }

  lemma ReadKeepsLog(s: State, run: nat)
    requires LogInv(s) && At(s, run, ReadingProgress)
    ensures LogInv(Apply(s, ReadProgress(run, true)))
  {
    var t := Move(s, ReadProgress(run, true));
    ReadDecides(s, run);
    assert t.runs == s.runs[run := t.runs[run]] && t.log == s.log && t.progress == s.progress && t.next == s.next;
    forall r | r in t.runs ensures RunOk(s.log, r, t.runs[r]) {
      assert r != run ==> RunOk(s.log, r, s.runs[r]);
    }
  }

  /** Moves of one run that need nothing from the log. */
  predicate QuietMove(before: Pc, after: Pc) {
    || after == before || after == Leaving || after == Stopping || after == Ended
    || ((before == Retrying || before == AtGuard) && (after == AtGuard || after == ReadingProgress))
    || (before == ReadingFinal && after == Body(1))
  }

  /** Nothing is written, and every run makes a quiet move or arrives. */
  ghost predicate Quiet(s: State, t: State) {
    && t.log == s.log && t.progress == s.progress && t.next >= s.next
    && forall r :: r in t.runs ==>
         if r in s.runs then QuietMove(s.runs[r], t.runs[r])
         else r == s.next && (t.runs[r] == AtGuard || t.runs[r] == Retrying)
  }

  lemma QuietStep(s: State, step: Step)
    requires Enabled(s, step) && forall r :: r in s.runs ==> r < s.next
    requires !step.ReadProgress? && !step.WriteRunning? && !step.WriteTerminal?
    ensures Quiet(s, Apply(s, step))
  {}

  lemma QuietKeepsLog(s: State, t: State)
    requires LogInv(s) && Quiet(s, t)
    ensures LogInv(t)
  {
    forall r | r in t.runs ensures RunOk(s.log, r, t.runs[r]) {
      if r in s.runs {
        assert RunOk(s.log, r, s.runs[r]);
      }
    }
  }

  lemma StepKeepsLog(s: State, step: Step)
    requires Exclusive(s) && LogInv(s) && Enabled(s, step) && !LosesProgress(step)
    ensures LogInv(Apply(s, step))
  {
    match step {
      case WriteRunning(run, ok) => if ok { WriteKeepsLog(s, run, Running); }
      case WriteTerminal(run, status, ok) => TerminalKeepsLog(s, run, status, ok);
      case ReadProgress(run, ok) => ReadKeepsLog(s, run);
      case _ =>
        QuietStep(s, step);
        QuietKeepsLog(s, Apply(s, step));
    }
  }

  lemma {:induction false} RunKeepsLog(s: State, steps: seq<Step>)
    requires Exclusive(s) && LogInv(s) && ReadsSucceed(steps) && Exec(s, steps).Some?
    ensures Exclusive(Exec(s, steps).value) && LogInv(Exec(s, steps).value)
    decreases |steps|
  {
    if steps != [] {
      StepKeepsExclusive(s, steps[0]);
      StepKeepsLog(s, steps[0]);
      RunKeepsLog(Apply(s, steps[0]), steps[1..]);
    }
  }

  /**
    As long as reads of the progress row succeed: attempts write under strictly
    growing versions, one version per attempt, a Completed or Failed row is its
    attempt's last write, and a Completed row is the last write of all.
   */
  lemma CompletedIsWrittenLastAndOnce(steps: seq<Step>)
    requires ReadsSucceed(steps) && Exec(INIT, steps).Some?
    ensures LogOrdered(Exec(INIT, steps).value.log)
    ensures Exec(INIT, steps).value.progress == StoredRow(Exec(INIT, steps).value.log)
  {
    RunKeepsLog(INIT, steps);
  }

  // ------------------------------------------------------- after a Completed row

  ghost predicate Settled(s: State) {
    && s.progress.Some? && s.progress.value.status == Completed
    && forall r :: r in s.runs ==> !s.runs[r].Body? && !s.runs[r].ReadingFinal?
  }

  lemma SettledStep(s: State, step: Step)
    requires Settled(s) && !LosesProgress(step) && Enabled(s, step)
    ensures var t := Apply(s, step); Settled(t) && t.log == s.log && t.progress == s.progress
  {}

  lemma {:induction false} SettledStays(s: State, steps: seq<Step>)
    requires Settled(s) && ReadsSucceed(steps) && Exec(s, steps).Some?
    ensures Exec(s, steps).value.log == s.log && Exec(s, steps).value.progress == s.progress
    decreases |steps|
  {
    if steps != [] {
      SettledStep(s, steps[0]);
      SettledStays(Apply(s, steps[0]), steps[1..]);
    }
  }

  /** Once a Completed row is stored, only a run whose read of that row failed can write again. */
  lemma CompletedIsFinal(steps: seq<Step>, later: seq<Step>)
    requires ReadsSucceed(steps) && Exec(INIT, steps).Some?
    requires Exec(INIT, steps).value.progress.Some? && Exec(INIT, steps).value.progress.value.status == Completed
    requires Exec(Exec(INIT, steps).value, later).Some?
    requires Exec(Exec(INIT, steps).value, later).value.log != Exec(INIT, steps).value.log
    ensures exists i :: 0 <= i < |later| && LosesProgress(later[i])
  {
    RunKeepsLog(INIT, steps);
    var s := Exec(INIT, steps).value;
    assert forall r :: r in s.runs ==> RunOk(s.log, r, s.runs[r]);
    if ReadsSucceed(later) {
      SettledStays(s, later);
      assert false;
    }
  }

  /**
    What a run that finds a Completed row decides: it goes on to write exactly
    when that read fails and the summary row does not stop it either.
   */
  lemma RewritesIffBothReadsMiss(s: State, run: nat, progressOk: bool, finalOk: bool)
    requires At(s, run, ReadingProgress) && s.progress.Some? && s.progress.value.status == Completed
    ensures var t := Apply(s, ReadProgress(run, progressOk));
      var u := if At(t, run, ReadingFinal) then Apply(t, ReadFinal(run, finalOk)) else t;
      && (InBody(u, run) <==> !progressOk && !(finalOk && s.summary == Some(Completed)))
      && (InBody(u, run) ==> u.runs[run] == Body(1))
  {}

  lemma {:induction false} ExecConcat(s: State, front: seq<Step>, back: seq<Step>)
    requires Exec(s, front).Some?
    ensures Exec(s, front + back) == Exec(Exec(s, front).value, back)
    decreases |front|
  {
    if front == [] {
      assert front + back == back;
    } else {
      assert (front + back)[1..] == front[1..] + back;
      ExecConcat(Apply(s, front[0]), front[1..], back);
    }
  }

  /** One more step of a run. */
  lemma Then(s: State, steps: seq<Step>, t: State, step: Step) returns (u: State, more: seq<Step>)
    requires Exec(s, steps) == Some(t) && Enabled(t, step)
    ensures u == Apply(t, step) && more == steps + [step] && Exec(s, more) == Some(u)
  {
    u, more := Apply(t, step), steps + [step];
    ExecConcat(s, steps, [step]);
    assert [step][1..] == [];
  }

  /** The first run of a process enters its body ... */
  lemma FirstEnters() returns (s: State, steps: seq<Step>)
    ensures Exec(INIT, steps) == Some(s) && ReadsSucceed(steps)
    ensures s == INIT.(guard := true, runs := map[0 := Body(1)], next := 1)
  {
    s, steps := INIT, [];
    s, steps := Then(INIT, steps, s, EndNotified);
    s, steps := Then(INIT, steps, s, TakeGuard(0));
    s, steps := Then(INIT, steps, s, ReadProgress(0, true));
    s, steps := Then(INIT, steps, s, ReadFinal(0, true));
  }

  /** ... and leaves it with a Completed row and no summary: the meeting has no transcript. */
  lemma FirstLeaves(s0: State) returns (s: State, steps: seq<Step>)
    requires s0 == INIT.(guard := true, runs := map[0 := Body(1)], next := 1)
    ensures Exec(s0, steps) == Some(s) && ReadsSucceed(steps)
    ensures s == s0.(guard := false, runs := map[0 := Stopping], progress := Some(Row(Completed, 1)), log := [Write(0, Row(Completed, 1))])
  {
    s, steps := s0, [];
    s, steps := Then(s0, steps, s, WriteTerminal(0, Completed, true));
    s, steps := Then(s0, steps, s, DropGuard(0));
  }

  /** A second end notification, whose read of the progress row fails. */
  lemma BlindRun(s0: State) returns (steps: seq<Step>)
    requires !s0.guard && s0.next == 1 && s0.summary == None
    ensures Exec(s0, steps).Some? && Exec(s0, steps).value.log == s0.log + [Write(1, Row(Running, 1))]
    ensures |steps| == 5 && steps[2] == ReadProgress(1, false)
  {
    var s := s0;
    s, steps := Then(s0, [], s, EndNotified);
    s, steps := Then(s0, steps, s, TakeGuard(1));
    s, steps := Then(s0, steps, s, ReadProgress(1, false));
    s, steps := Then(s0, steps, s, ReadFinal(1, true));
    s, steps := Then(s0, steps, s, WriteRunning(1, true));
  }

  /** Reads succeed until a Completed row is stored; one failed read then starts a second finalization, under version 1 again. */
  lemma FailedReadRestartsCompletedFinalization() returns (first: seq<Step>, second: seq<Step>)
    ensures ReadsSucceed(first) && |second| == 5 && second[2] == ReadProgress(1, false)
    ensures Exec(INIT, first).Some? && Exec(INIT, first).value.log == [Write(0, Row(Completed, 1))]
    ensures Exec(INIT, first + second).Some?
    ensures Exec(INIT, first + second).value.log == [Write(0, Row(Completed, 1)), Write(1, Row(Running, 1))]
  {
    var entered, entering := FirstEnters();
    var left, leaving := FirstLeaves(entered);
    first := entering + leaving;
    ExecConcat(INIT, entering, leaving);
    second := BlindRun(left);
    ExecConcat(INIT, first, second);
  }

  // --------------------------------------------------- live rounds during a body

  /** A timer and every dispatch in flight carry generations handed out already. */
  ghost predicate TimersOk(l: Live) {
    && (l.timer.Some? ==> l.timer.value <= l.schedule)
    && forall g :: g in l.looks ==> g <= l.schedule
  }

  lemma StepKeepsTimers(l: Live, step: Step)
    requires TimersOk(l) && (step.Outside? ==> EventEnabled(l, step.event))
    ensures TimersOk(LiveAfter(l, step))
  {}

  lemma {:induction false} RunKeepsTimers(s: State, steps: seq<Step>)
    requires TimersOk(s.live) && Exec(s, steps).Some?
    ensures TimersOk(Exec(s, steps).value.live)
    decreases |steps|
  {
    if steps != [] {
      StepKeepsTimers(s.live, steps[0]);
      RunKeepsTimers(Apply(s, steps[0]), steps[1..]);
    }
  }

  /** The session is past its end, and no dispatch that saw it open can still use its timer. */
  ghost predicate Barred(l: Live) {
    && TimersOk(l)
    && (l.session == Ending || l.session == Over)
    && forall g :: g in l.looks && l.looks[g] == Allowed ==> l.timer != Some(g)
  }

  /** A status update that takes a session back from its end. */
  predicate Revives(step: Step) {
    step == Outside(SessionWritten(Open))
  }

  /** Steps that write no live status. */
  ghost predicate NoRevival(steps: seq<Step>) {
    forall i :: 0 <= i < |steps| ==> !Revives(steps[i])
  }

  lemma BarredStep(l: Live, step: Step)
    requires Barred(l) && (step.Outside? ==> EventEnabled(l, step.event)) && !Revives(step)
    ensures Barred(LiveAfter(l, step)) && LiveAfter(l, step).started == l.started
  {
    StepKeepsTimers(l, step);
  }

  lemma {:induction false} BarredRun(s: State, steps: seq<Step>)
    requires Barred(s.live) && Exec(s, steps).Some? && NoRevival(steps)
    ensures Exec(s, steps).value.live.started == s.live.started
    decreases |steps|
  {
    if steps != [] {
      BarredStep(s.live, steps[0]);
      BarredRun(Apply(s, steps[0]), steps[1..]);
    }
  }

  lemma OverStays(l: Live, step: Step)
    requires l.session == Over && (step.Outside? ==> EventEnabled(l, step.event))
    ensures LiveAfter(l, step).session == Over && !Revives(step)
  {}

  lemma {:induction false} OverIsNeverRevived(s: State, steps: seq<Step>)
    requires s.live.session == Over && Exec(s, steps).Some?
    ensures NoRevival(steps)
    decreases |steps|
  {
    if steps != [] {
      OverStays(s.live, steps[0]);
      OverIsNeverRevived(Apply(s, steps[0]), steps[1..]);
      forall i | 0 <= i < |steps| ensures !Revives(steps[i]) {
        if i > 0 {
          assert steps[i] == steps[1..][i - 1];
        }
      }
    }
  }

  ghost predicate Reachable(s: State) {
    exists steps :: Exec(INIT, steps) == Some(s)
  }

  lemma PreparedIsBarred(s: State, run: nat)
    requires Reachable(s) && InBody(s, run) && (s.live.session == Ending || s.live.session == Over)
    ensures Barred(Apply(s, Prepare(run)).live)
  {
    var steps :| Exec(INIT, steps) == Some(s);
    RunKeepsTimers(INIT, steps);
  }

  /**
    Once a body has prepared for a session whose status is ending or later, no live
    round starts again, through retries, timers and restarts, as long as nothing
    writes the session back to a live status.
   */
  lemma NoLiveRoundAfterPrepare(s: State, run: nat, steps: seq<Step>)
    requires Reachable(s) && InBody(s, run) && (s.live.session == Ending || s.live.session == Over)
    requires Exec(Apply(s, Prepare(run)), steps).Some? && NoRevival(steps)
    ensures Exec(Apply(s, Prepare(run)), steps).value.live.started == s.live.started
  {
    PreparedIsBarred(s, run);
    BarredRun(Apply(s, Prepare(run)), steps);
  }

  /** A continuation of the prepared body, still inside it at the end, in which a live round starts. */
  ghost predicate StartsInBody(s: State, run: nat, steps: seq<Step>) {
    && InBody(s, run) && Exec(Apply(s, Prepare(run)), steps).Some?
    && InBody(Exec(Apply(s, Prepare(run)), steps).value, run)
    && Exec(Apply(s, Prepare(run)), steps).value.live.started > s.live.started
  }

  /** The body writes its rows, and a second retry reopens the flags. */
  lemma ReopeningRuns(s: State, run: nat) returns (t: State, steps: seq<Step>)
    requires InBody(s, run) && run < s.next && TimersOk(s.live)
    ensures Exec(s, steps) == Some(t) && NoRevival(steps)
    ensures InBody(t, run) && t.live == s.live.(finalizing := false, stopped := false)
  {
    t, steps := Then(s, [], s, WriteRunning(run, true));
    t, steps := Then(s, steps, t, WriteSummary(run, Running));
    t, steps := Then(s, steps, t, RetryRequested);
    t, steps := Then(s, steps, t, Reopen(s.next));
  }

  /** A timer set after that dispatches. */
  lemma TimerStarts(s: State, run: nat) returns (steps: seq<Step>)
    requires InBody(s, run) && !s.live.finalizing && !s.live.stopped && TimersOk(s.live)
    requires s.live.session == Open || s.live.session == NoRow
    ensures Exec(s, steps).Some? && NoRevival(steps)
    ensures InBody(Exec(s, steps).value, run) && Exec(s, steps).value.live.started == s.live.started + 1
  {
    var t;
    t, steps := Then(s, [], s, Outside(Schedule));
    var generation := t.live.timer.value;
    t, steps := Then(s, steps, t, Outside(TimerFires(true)));
    t, steps := Then(s, steps, t, Outside(TimerLocks(generation, true)));
  }

  lemma BodyIsKnown(s: State, run: nat)
    requires Reachable(s) && InBody(s, run)
    ensures run < s.next && TimersOk(s.live)
  {
    var steps :| Exec(INIT, steps) == Some(s);
    RunKeepsExclusive(INIT, steps);
    RunKeepsTimers(INIT, steps);
  }

  /** An ending session may still be written back to a live status. */
  lemma Revival(s: State) returns (t: State, steps: seq<Step>)
    requires s.live.session != Over
    ensures Exec(s, steps) == Some(t) && (s.live.session != Ending ==> steps == [])
    ensures t == s.(live := t.live) && t.live == s.live.(session := if s.live.session == Ending then Open else s.live.session)
  {
    if s.live.session == Ending {
      steps, t := [Outside(SessionWritten(Open))], Apply(s, Outside(SessionWritten(Open)));
      assert steps[1..] == [];
    } else {
      steps, t := [], s;
    }
  }

  /** A live round can start inside the body when the status allows it by then. */
  lemma LiveRoundStarts(s: State, run: nat) returns (steps: seq<Step>)
    requires Reachable(s) && InBody(s, run) && s.live.session != Over
    ensures StartsInBody(s, run, steps)
    ensures s.live.session != Ending ==> NoRevival(steps)
  {
    BodyIsKnown(s, run);
    var t := Apply(s, Prepare(run));
    StepKeepsTimers(s.live, Prepare(run));
    var u, revival := Revival(t);
    var v, reopening := ReopeningRuns(u, run);
    var timer := TimerStarts(v, run);
    steps := revival + (reopening + timer);
    ExecConcat(u, reopening, timer);
    ExecConcat(t, revival, reopening + timer);
  }

  /**
    Inside a prepared body a live round can start exactly when the session is not
    over; and, as long as nothing writes an ending session back to a live status,
    exactly when the session has no row or is still open.
   */
  lemma LiveRoundCanStartExactlyWhen(s: State, run: nat)
    requires Reachable(s) && InBody(s, run)
    ensures (exists steps :: StartsInBody(s, run, steps)) <==> s.live.session != Over
    ensures (exists steps :: StartsInBody(s, run, steps) && NoRevival(steps)) <==>
      s.live.session == NoRow || s.live.session == Open
  {
    if s.live.session != Over {
      var steps := LiveRoundStarts(s, run);
      assert StartsInBody(s, run, steps);
    }
    forall steps | StartsInBody(s, run, steps) && (s.live.session == Ending || s.live.session == Over)
      ensures s.live.session == Ending && exists i :: 0 <= i < |steps| && Revives(steps[i])
    {
      if s.live.session == Over {
        OverIsNeverRevived(Apply(s, Prepare(run)), steps);
      }
      if NoRevival(steps) {
        NoLiveRoundAfterPrepare(s, run, steps);
      }
    }
  }

  lemma FlagsHold(s: State, step: Step)
    requires (s.live.finalizing || s.live.stopped) && Enabled(s, step) && !step.Reopen? && !step.Restart?
    ensures (Apply(s, step).live.finalizing || Apply(s, step).live.stopped) && Apply(s, step).live.started == s.live.started
  {}

  /** Whatever the session's status: a live round starts inside a prepared body only after another retry reopened the flags. */
  lemma {:induction false} StartNeedsReopen(s: State, run: nat, steps: seq<Step>)
    requires (s.live.finalizing || s.live.stopped) && InBody(s, run) && run < s.next && Exec(s, steps).Some?
    requires InBody(Exec(s, steps).value, run) && Exec(s, steps).value.live.started > s.live.started
    ensures exists i :: 0 <= i < |steps| && steps[i].Reopen?
    decreases |steps|
  {
    if !steps[0].Reopen? {
      BodyOrGone(s, run, steps[0]);
      if Gone(Apply(s, steps[0]), run) {
        GoneStaysGone(Apply(s, steps[0]), run, steps[1..]);
      } else {
        FlagsHold(s, steps[0]);
        StartNeedsReopen(Apply(s, steps[0]), run, steps[1..]);
        var i :| 0 <= i < |steps| - 1 && steps[1..][i].Reopen?;
        assert steps[i + 1].Reopen?;
      }
    }
  }

  /** Past its body, or lost in a restart. */
  predicate Gone(s: State, run: nat) {
    run < s.next && (run in s.runs ==> s.runs[run].Leaving? || s.runs[run].Stopping? || s.runs[run].Ended?)
  }

  lemma GoneStep(s: State, run: nat, step: Step)
    requires Gone(s, run) && Enabled(s, step)
    ensures Gone(Apply(s, step), run)
  {}

  lemma {:induction false} GoneStaysGone(s: State, run: nat, steps: seq<Step>)
    requires Gone(s, run) && Exec(s, steps).Some?
    ensures Gone(Exec(s, steps).value, run)
    decreases |steps|
  {
    if steps != [] {
      GoneStep(s, run, steps[0]);
      GoneStaysGone(Apply(s, steps[0]), run, steps[1..]);
    }
  }

  lemma BodyOrGone(s: State, run: nat, step: Step)
    requires InBody(s, run) && run < s.next && Enabled(s, step)
    ensures Gone(Apply(s, step), run) || (InBody(Apply(s, step), run) && run < Apply(s, step).next)
    ensures step.Restart? ==> Gone(Apply(s, step), run)
  {}
}
