/**
  The sealed live round of a session (internal/application/ai_analysis.go): the
  fields one critical section may touch, with the channel a finalization barrier
  waits on.  `Slot` is the value the interleaving model in LiveRoundProtocol
  steps over; each method here is one critical section and says which step of
  that model it takes.
 */
module LiveRound {
  import opened Options

  /** `done` names the open completion channel by the round it was made for. */
  datatype Slot = Slot(counter: nat, generation: nat, running: bool, done: Option<nat>, superseded: nat)

  const EMPTY_SLOT := Slot(0, 0, false, None, 0)

  function BeginSlot(s: Slot): Slot {
    s.(counter := s.counter + 1, generation := s.counter + 1, running := true, done := Some(s.counter + 1))
  }

  /** Whether a finish under this generation is taken at all. */
  predicate FinishApplies(s: Slot, generation: nat) {
    generation == 0 || s.generation == generation
  }

  function FinishSlot(s: Slot, generation: nat): Slot {
    if FinishApplies(s, generation) then s.(running := false, done := None) else s
  }

  function SupersedeSlot(s: Slot): Slot {
    if s.generation > s.superseded then s.(superseded := s.generation) else s
  }

  predicate SlotSuperseded(s: Slot, generation: nat) {
    generation != 0 && s.superseded >= generation
  }

  /** A Go channel that is only ever closed. */
  class Done {
    const round: nat
    var closed: bool

    constructor (round: nat)
      ensures !closed && this.round == round
    {
      this.round := round;
      closed := false;
    }

    /** Closing a closed channel panics, so the caller must hold an open one. */
    method Close()
      requires !closed
      modifies this
      ensures closed
    {
      closed := true;
    }
  }

  class RunState {
    var liveRunCounter: nat
    var runningGeneration: nat
    var running: bool
    var runningDone: Done?
    var supersededGeneration: nat

    ghost predicate Valid()
      reads this, runningDone
    {
      runningDone != null ==> !runningDone.closed
    }

    ghost function State(): Slot
      reads this
    {
      Slot(liveRunCounter, runningGeneration, running,
        if runningDone == null then None else Some(runningDone.round), supersededGeneration)
    }

    constructor ()
      ensures Valid() && State() == EMPTY_SLOT
    {
      liveRunCounter, runningGeneration, running, runningDone, supersededGeneration := 0, 0, false, null, 0;
    }

    method Begin() returns (generation: nat)
      requires Valid()
      modifies this
      ensures Valid() && fresh(runningDone)
      ensures State() == BeginSlot(old(State())) && generation == runningGeneration
    {
      liveRunCounter := liveRunCounter + 1;
      runningGeneration := liveRunCounter;
      running := true;
      runningDone := new Done(liveRunCounter);
      generation := runningGeneration;
    }

    /** Never closes a closed channel, and closes the open one exactly when it applies. */
    method Finish(generation: nat)
      requires Valid()
      modifies this, runningDone
      ensures Valid() && State() == FinishSlot(old(State()), generation)
      ensures old(runningDone) != null ==> old(runningDone).closed == FinishApplies(old(State()), generation)
    {
      if generation != 0 && runningGeneration != generation {
        return;
      }
      running := false;
      if runningDone != null {
        runningDone.Close();
        runningDone := null;
      }
    }

    method LiveRunSuperseded(generation: nat) returns (superseded: bool)
      ensures superseded == SlotSuperseded(State(), generation)
    {
      if generation == 0 {
        return false;
      }
      return supersededGeneration >= generation;
    }

    /** The barrier gives up on whatever round is running now. */
    method SupersedeRunning()
      requires Valid()
      modifies this
      ensures Valid() && State() == SupersedeSlot(old(State()))
    {
      if runningGeneration > supersededGeneration {
        supersededGeneration := runningGeneration;
      }
    }
  }
}
