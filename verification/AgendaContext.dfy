/**
  Agenda context spans (internal/application/ai_agenda_context.go): one pass over
  the transcript turns topic-shift utterances into sequence intervals, and two
  lookups read the intervals back for the evidence of an item.  What an utterance
  says is given by the answers of the text predicates on it.
 */
module AgendaContext {
  import opened Options

  datatype Mode = FixedAgenda | NoAgenda

  datatype EndReason = StillOpen | NextTransition | ExplicitReentry | SemanticReentry | SemanticTransition

  datatype Span = Span(mode: Mode, agendaId: string, start: int, end: int, confidence: real, explicit: bool, reason: EndReason)

  /** The answers of the text predicates on one utterance. */
  datatype Utterance = Utterance(
    blank: bool,
    returning: bool,             // explicit return to the agenda
    external: bool,              // explicit declaration of an agenda-external subject
    transition: bool,            // transition phrase
    targetId: string,            // agenda the phrase names, or ""
    targetConfidence: real,
    substantive: bool,
    aligned: bool,               // aligned with some agenda
    reentryId: string,
    reentryConfidence: real,
    continuation: bool,          // starts with an additive or contrastive conjunction
    semanticId: string,          // strong semantic match, or ""
    semanticConfidence: real)

  /** Pairs of utterances that share agenda signals. */
  type Shared = set<(int, int)>

  const INFERRED_CONFIDENCE := 0.80
  const TRANSITION_CONFIDENCE := 0.68

  /** The detector's variables; `active` is an index into `spans`, or -1. */
  datatype State = State(spans: seq<Span>, active: int, baselineSeen: bool, external: seq<int>, reentry: seq<int>)

  const INIT := State([], -1, false, [], [])

  // ----------------------------------------------------------------- the detector

  function Close(s: State, end: int, reason: EndReason): State
    requires -1 <= s.active < |s.spans|
  {
    if s.active < 0 then s
    else if end < s.spans[s.active].start then s.(spans := s.spans[..s.active], active := -1)
    else s.(spans := s.spans[s.active := s.spans[s.active].(end := end, reason := reason)], active := -1)
  }

  function Open(s: State, span: Span, through: int): State
    requires -1 <= s.active < |s.spans|
  {
    var closed := if s.active >= 0 then Close(s, span.start - 1, NextTransition) else s;
    closed.(spans := closed.spans + [span.(end := through, reason := StillOpen)], active := |closed.spans|)
  }

  predicate ActiveIs(s: State, mode: Mode) {
    0 <= s.active < |s.spans| && s.spans[s.active].mode == mode
  }

  /** The agenda a fixed span is left for without any transition phrase, with its confidence. */
  function Drift(u: Utterance, current: string): (string, real) {
    if !u.continuation && u.semanticId != "" && u.semanticId != current && u.semanticConfidence > u.reentryConfidence
    then (u.semanticId, u.semanticConfidence)
    else (u.reentryId, u.reentryConfidence)
  }

  predicate LeavesFixed(u: Utterance, current: string) {
    var drift := Drift(u, current);
    !u.continuation && drift.0 != "" && drift.0 != current && drift.1 >= TRANSITION_CONFIDENCE
  }

  function ObserveInside(s: State, n: int, u: Utterance, shared: Shared): State
    requires ActiveIs(s, NoAgenda)
  {
    if u.aligned || (s.reentry != [] && (s.reentry[|s.reentry| - 1], n) in shared) then
      var reentry := s.reentry + [n];
      if |reentry| >= 2 then Close(s, reentry[0] - 1, SemanticReentry).(baselineSeen := true, reentry := [])
      else s.(reentry := reentry)
    else s.(reentry := [])
  }

  function ObserveOutside(s: State, n: int, u: Utterance, through: int): State
    requires s.active < 0 && -1 <= s.active
  {
    if u.aligned then s.(baselineSeen := true, external := [])
    else if s.baselineSeen && u.continuation then s.(external := [])
    else if !s.baselineSeen then s
    else
      var external := s.external + [n];
      if |external| >= 2 then
        Open(s, Span(NoAgenda, "", external[0], 0, INFERRED_CONFIDENCE, false, StillOpen), through).(external := [], reentry := [])
      else s.(external := external)
  }

  function ObserveContent(s: State, n: int, u: Utterance, shared: Shared, through: int): State
    requires -1 <= s.active < |s.spans|
  {
    if ActiveIs(s, NoAgenda) then ObserveInside(s, n, u, shared)
    else if ActiveIs(s, FixedAgenda) then
      (if LeavesFixed(u, s.spans[s.active].agendaId) then Close(s, n - 1, SemanticTransition) else s)
        .(baselineSeen := true, external := [])
    else ObserveOutside(s, n, u, through)
  }

  predicate DeclaresExternal(u: Utterance) {
    !u.blank && !u.returning && u.external
  }

  predicate DeclaresAgenda(u: Utterance) {
    !u.blank && !u.returning && !u.external && u.transition && u.targetId != ""
  }

  function Observe(s: State, n: int, u: Utterance, shared: Shared, through: int): (t: State)
    requires -1 <= s.active < |s.spans|
    ensures -1 <= t.active < |t.spans|
  {
    if u.blank then s
    else if u.returning then
      (if ActiveIs(s, NoAgenda) then Close(s, n - 1, ExplicitReentry) else s)
        .(baselineSeen := true, external := [], reentry := [])
    else if u.external && ActiveIs(s, NoAgenda) then s
    else if u.external then
      Open(s, Span(NoAgenda, "", n, 0, 1.0, true, StillOpen), through)
        .(baselineSeen := false, external := [], reentry := [])
    else if DeclaresAgenda(u) then
      Open(s, Span(FixedAgenda, u.targetId, n, 0, u.targetConfidence, true, StillOpen), through)
        .(baselineSeen := true, external := [], reentry := [])
    else if !u.substantive then s
    else ObserveContent(s, n, u, shared, through)
  }

  /** The detector after the utterances numbered 1 to `n`. */
  function After(transcript: map<int, Utterance>, shared: Shared, through: int, n: nat): (s: State)
    ensures -1 <= s.active < |s.spans|
  {
    if n == 0 then INIT
    else
      var s := After(transcript, shared, through, n - 1);
      if n in transcript then Observe(s, n, transcript[n], shared, through) else s
  }

  function Spans(transcript: map<int, Utterance>, shared: Shared, through: nat): seq<Span> {
    After(transcript, shared, through, through).spans
  }

  /** The detector with its variables updated in place. */
  class Detector {
    const through: int
    var spans: seq<Span>
    var activeAt: int
    var baselineAgendaSeen: bool
    var pendingExternal: seq<int>
    var pendingReentry: seq<int>

    ghost function Abstract(): State
      reads this
    {
      State(spans, activeAt, baselineAgendaSeen, pendingExternal, pendingReentry)
    }

    ghost predicate Valid()
      reads this
    {
      -1 <= activeAt < |spans|
    }

    constructor (through: int)
      ensures Abstract() == INIT && this.through == through
    {
      this.through := through;
      spans, activeAt, baselineAgendaSeen, pendingExternal, pendingReentry := [], -1, false, [], [];
    }

    method CloseActive(end: int, reason: EndReason)
      requires Valid()
      modifies this
      ensures Valid() && Abstract() == Close(old(Abstract()), end, reason)
    {
      if activeAt < 0 {
        return;
      }
      if end < spans[activeAt].start {
        spans := spans[..activeAt];
      } else {
        spans := spans[activeAt := spans[activeAt].(end := end, reason := reason)];
      }
      activeAt := -1;
    }

    method StartSpan(span: Span)
      requires Valid()
      modifies this
      ensures Valid() && Abstract() == Open(old(Abstract()), span, through)
    {
      if activeAt >= 0 {
        CloseActive(span.start - 1, NextTransition);
      }
      spans := spans + [span.(end := through, reason := StillOpen)];
      activeAt := |spans| - 1;
    }

    method InsideNoAgenda(n: int, u: Utterance, shared: Shared)
      requires Valid() && ActiveIs(Abstract(), NoAgenda)
      modifies this
      ensures Valid() && Abstract() == ObserveInside(old(Abstract()), n, u, shared)
    {
      var continuation := |pendingReentry| > 0 && (pendingReentry[|pendingReentry| - 1], n) in shared;
      if u.aligned || continuation {
        pendingReentry := pendingReentry + [n];
        if |pendingReentry| >= 2 {
          CloseActive(pendingReentry[0] - 1, SemanticReentry);
          baselineAgendaSeen := true;
          pendingReentry := [];
        }
      } else {
        pendingReentry := [];
      }
    }

    method OutsideSpans(n: int, u: Utterance)
      requires Valid() && activeAt < 0
      modifies this
      ensures Valid() && Abstract() == ObserveOutside(old(Abstract()), n, u, through)
    {
      if u.aligned {
        baselineAgendaSeen := true;
        pendingExternal := [];
        return;
      }
      if baselineAgendaSeen && u.continuation {
        pendingExternal := [];
        return;
      }
      if !baselineAgendaSeen {
        return;
      }
      pendingExternal := pendingExternal + [n];
      if |pendingExternal| >= 2 {
        StartSpan(Span(NoAgenda, "", pendingExternal[0], 0, INFERRED_CONFIDENCE, false, StillOpen));
        pendingExternal := [];
        pendingReentry := [];
      }
    }

    method InsideFixed(n: int, u: Utterance)
      requires Valid() && ActiveIs(Abstract(), FixedAgenda)
      modifies this
      ensures Valid() && Abstract() == ObserveContent(old(Abstract()), n, u, {}, through)
    {
      var reentryId, reentryConfidence := u.reentryId, u.reentryConfidence;
      if !u.continuation && u.semanticId != "" && u.semanticId != spans[activeAt].agendaId
          && u.semanticConfidence > reentryConfidence {
        reentryId, reentryConfidence := u.semanticId, u.semanticConfidence;
      }
      if !u.continuation && reentryId != "" && reentryId != spans[activeAt].agendaId
          && reentryConfidence >= TRANSITION_CONFIDENCE {
        CloseActive(n - 1, SemanticTransition);
      }
      baselineAgendaSeen := true;
      pendingExternal := [];
    }

    method ObserveUtterance(n: int, u: Utterance, shared: Shared)
      requires Valid()
      modifies this
      ensures Valid() && Abstract() == Observe(old(Abstract()), n, u, shared, through)
    {
      if u.blank {
        return;
      }
      if u.returning {
        if activeAt >= 0 && spans[activeAt].mode == NoAgenda {
          CloseActive(n - 1, ExplicitReentry);
        }
        baselineAgendaSeen, pendingExternal, pendingReentry := true, [], [];
        return;
      }
      if u.external && activeAt >= 0 && spans[activeAt].mode == NoAgenda {
        return;
      }
      if u.external {
        StartSpan(Span(NoAgenda, "", n, 0, 1.0, true, StillOpen));
        baselineAgendaSeen, pendingExternal, pendingReentry := false, [], [];
        return;
      }
      if u.transition && u.targetId != "" {
        StartSpan(Span(FixedAgenda, u.targetId, n, 0, u.targetConfidence, true, StillOpen));
        baselineAgendaSeen, pendingExternal, pendingReentry := true, [], [];
        return;
      }
      if !u.substantive {
        return;
      }
      if activeAt >= 0 && spans[activeAt].mode == NoAgenda {
        InsideNoAgenda(n, u, shared);
      } else if activeAt >= 0 {
        InsideFixed(n, u);
      } else {
        OutsideSpans(n, u);
      }
    }
  }

  /** All utterances numbered 1 to `through`, in increasing order. */
  method DetectSpans(transcript: map<int, Utterance>, shared: Shared, through: nat) returns (spans: seq<Span>)
    ensures spans == Spans(transcript, shared, through)
  {
    var detector := new Detector(through);
    var n: nat := 0;
    while n < through
      invariant n <= through && detector.Valid()
      invariant detector.Abstract() == After(transcript, shared, through, n)
    {
      n := n + 1;
      if n in transcript {
        detector.ObserveUtterance(n, transcript[n], shared);
      }
    }
    spans := detector.spans;
  }

  // ------------------------------------------------------------ shape of the spans

  /** Non-empty, strictly ordered, disjoint, within 1 .. through. */
  ghost predicate WellFormed(spans: seq<Span>, through: int) {
    && (forall i :: 0 <= i < |spans| ==> 1 <= spans[i].start <= spans[i].end <= through)
    && (forall i, j :: 0 <= i < j < |spans| ==> spans[i].end < spans[j].start)
  }

  /** The spans and the active index once utterance `n` has been seen. */
  ghost predicate Shape(s: State, n: int, through: int) {
    && WellFormed(s.spans, through)
    && (s.active == -1 || s.active == |s.spans| - 1)
    && (s.active >= 0 ==> s.spans[s.active].start <= n && s.spans[s.active].end == through)
    && (forall i :: 0 <= i < |s.spans| && i != s.active ==> s.spans[i].end <= n)
  }

  /** The buffers: at most one pending number each, after everything they could cut into. */
  ghost predicate Buffers(s: State, n: int)
    requires -1 <= s.active < |s.spans|
  {
    && |s.external| <= 1 && |s.reentry| <= 1
    && (s.external != [] ==> s.active == -1 && 1 <= s.external[0] <= n && EndBefore(s.spans, s.external[0]))
    && (s.reentry != [] ==> ActiveIs(s, NoAgenda) && s.spans[s.active].start < s.reentry[0] <= n)
  }

  ghost predicate Inv(s: State, n: int, through: int) {
    Shape(s, n, through) && Buffers(s, n)
  }

  ghost predicate EndBefore(spans: seq<Span>, n: int) {
    forall i :: 0 <= i < |spans| ==> spans[i].end < n
  }

  ghost predicate SameOrigin(a: Span, b: Span) {
    a.start == b.start && a.mode == b.mode && a.agendaId == b.agendaId && a.explicit == b.explicit && a.confidence == b.confidence
  }

  /** An active span is never closed before it starts: the branch that drops it is dead. */
  ghost predicate KeepsSpans(s: State, t: State) {
    && |s.spans| <= |t.spans|
    && (forall i :: 0 <= i < |s.spans| ==> SameOrigin(s.spans[i], t.spans[i]))
    && (forall i :: 0 <= i < |s.spans| && i != s.active ==> t.spans[i] == s.spans[i])
  }

  lemma CloseKeeps(s: State, n: int, end: int, reason: EndReason, through: int)
    requires Shape(s, n - 1, through) && 0 <= s.active && n <= through
    requires s.spans[s.active].start <= end < n
    ensures var t := Close(s, end, reason);
      && Shape(t, n, through) && KeepsSpans(s, t)
      && t.active == -1 && EndBefore(t.spans, end + 1)
  {}

  lemma OpenKeeps(s: State, n: int, span: Span, through: int)
    requires Shape(s, n - 1, through) && 1 <= span.start <= n <= through
    requires if s.active >= 0 then s.spans[s.active].start < span.start else EndBefore(s.spans, span.start)
    ensures var t := Open(s, span, through);
      && Shape(t, n, through) && KeepsSpans(s, t)
      && t.active == |t.spans| - 1 && SameOrigin(t.spans[t.active], span)
  {
    if s.active >= 0 {
      CloseKeeps(s, n, span.start - 1, NextTransition, through);
    }
  }

  /** The invariant after a step, with the spans of before still in place. */
  ghost predicate Kept(s: State, t: State, n: int, through: int) {
    Inv(t, n, through) && KeepsSpans(s, t)
  }

  lemma NothingChanges(s: State, n: int, through: int)
    requires Inv(s, n - 1, through)
    ensures Kept(s, s, n, through)
  {}

  lemma InsideKeeps(s: State, n: int, u: Utterance, shared: Shared, through: int)
    requires Inv(s, n - 1, through) && 1 <= n <= through && ActiveIs(s, NoAgenda)
    ensures Kept(s, ObserveInside(s, n, u, shared), n, through)
  {
    NothingChanges(s, n, through);
    if s.reentry != [] {
      CloseKeeps(s, n, s.reentry[0] - 1, SemanticReentry, through);
    }
  }

  lemma OutsideKeeps(s: State, n: int, u: Utterance, through: int)
    requires Inv(s, n - 1, through) && 1 <= n <= through && s.active == -1
    ensures Kept(s, ObserveOutside(s, n, u, through), n, through)
  {
    NothingChanges(s, n, through);
    if s.external != [] {
      OpenKeeps(s, n, Span(NoAgenda, "", s.external[0], 0, INFERRED_CONFIDENCE, false, StillOpen), through);
    }
  }

  lemma ContentKeeps(s: State, n: int, u: Utterance, shared: Shared, through: int)
    requires Inv(s, n - 1, through) && 1 <= n <= through
    ensures Kept(s, ObserveContent(s, n, u, shared, through), n, through)
  {
    if ActiveIs(s, NoAgenda) {
      InsideKeeps(s, n, u, shared, through);
    } else if ActiveIs(s, FixedAgenda) {
      NothingChanges(s, n, through);
      CloseKeeps(s, n, n - 1, SemanticTransition, through);
    } else {
      OutsideKeeps(s, n, u, through);
    }
  }

  lemma DeclarationKeeps(s: State, n: int, span: Span, through: int, baselineSeen: bool)
    requires Inv(s, n - 1, through) && span.start == n && 1 <= n <= through
    ensures Kept(s, Open(s, span, through).(baselineSeen := baselineSeen, external := [], reentry := []), n, through)
  {
    OpenKeeps(s, n, span, through);
  }

  lemma ReturnKeeps(s: State, n: int, u: Utterance, shared: Shared, through: int)
    requires Inv(s, n - 1, through) && 1 <= n <= through && u.returning && !u.blank
    ensures Kept(s, Observe(s, n, u, shared, through), n, through)
  {
    NothingChanges(s, n, through);
    if ActiveIs(s, NoAgenda) {
      CloseKeeps(s, n, n - 1, ExplicitReentry, through);
    }
  }

  lemma ObserveKeepsInv(s: State, n: int, u: Utterance, shared: Shared, through: int)
    requires Inv(s, n - 1, through) && 1 <= n <= through
    ensures Kept(s, Observe(s, n, u, shared, through), n, through)
  {
    NothingChanges(s, n, through);
    if u.blank {
    } else if u.returning {
      ReturnKeeps(s, n, u, shared, through);
    } else if u.external {
      DeclarationKeeps(s, n, Span(NoAgenda, "", n, 0, 1.0, true, StillOpen), through, false);
    } else if DeclaresAgenda(u) {
      DeclarationKeeps(s, n, Span(FixedAgenda, u.targetId, n, 0, u.targetConfidence, true, StillOpen), through, true);
    } else {
      ContentKeeps(s, n, u, shared, through);
    }
  }

  lemma {:induction false} AfterInv(transcript: map<int, Utterance>, shared: Shared, through: int, n: nat)
    requires n <= through
    ensures Inv(After(transcript, shared, through, n), n, through)
  {
    if n > 0 {
      AfterInv(transcript, shared, through, n - 1);
      if n in transcript {
        ObserveKeepsInv(After(transcript, shared, through, n - 1), n, transcript[n], shared, through);
      }
    }
  }

  /** For every transcript and every answer of the predicates. */
  lemma SpansAreWellFormed(transcript: map<int, Utterance>, shared: Shared, through: nat)
    ensures WellFormed(Spans(transcript, shared, through), through)
  {
    AfterInv(transcript, shared, through, through);
  }

  /** No span is ever dropped: the spans found so far keep their start, mode and agenda. */
  lemma {:induction false} NoSpanIsDropped(transcript: map<int, Utterance>, shared: Shared, through: int, m: nat, n: nat)
    requires m <= n <= through
    ensures var s, t := After(transcript, shared, through, m), After(transcript, shared, through, n);
      && |s.spans| <= |t.spans|
      && forall i :: 0 <= i < |s.spans| ==> SameOrigin(s.spans[i], t.spans[i])
    decreases n - m
  {
    if m < n {
      NoSpanIsDropped(transcript, shared, through, m, n - 1);
      if n in transcript {
        AfterInv(transcript, shared, through, n - 1);
        ObserveKeepsInv(After(transcript, shared, through, n - 1), n, transcript[n], shared, through);
      }
    }
  }

  // --------------------------------------------------------- where a span comes from

  predicate Content(u: Utterance) {
    !u.blank && !u.returning && !u.external && !DeclaresAgenda(u) && u.substantive && !u.aligned
  }

  /** An explicit span starts at its declaration; an inferred one at an unaligned content utterance. */
  ghost predicate Origin(transcript: map<int, Utterance>, span: Span) {
    && span.start in transcript
    && var u := transcript[span.start];
       if !span.explicit then Content(u) && span.mode == NoAgenda && span.agendaId == "" && span.confidence == INFERRED_CONFIDENCE
       else if span.mode == NoAgenda then DeclaresExternal(u) && span.agendaId == "" && span.confidence == 1.0
       else DeclaresAgenda(u) && span.agendaId == u.targetId && span.confidence == u.targetConfidence
  }

  ghost predicate Originates(transcript: map<int, Utterance>, s: State) {
    && (forall i :: 0 <= i < |s.spans| ==> Origin(transcript, s.spans[i]))
    && (forall i :: 0 <= i < |s.external| ==> s.external[i] in transcript && Content(transcript[s.external[i]]))
  }

  lemma OpenOriginates(transcript: map<int, Utterance>, s: State, n: int, span: Span, through: int)
    requires Shape(s, n - 1, through) && 1 <= span.start <= n <= through
    requires if s.active >= 0 then s.spans[s.active].start < span.start else EndBefore(s.spans, span.start)
    requires Originates(transcript, s) && Origin(transcript, span)
    ensures forall i :: 0 <= i < |Open(s, span, through).spans| ==> Origin(transcript, Open(s, span, through).spans[i])
  {
    OpenKeeps(s, n, span, through);
    var t := Open(s, span, through);
    forall i | 0 <= i < |t.spans| ensures Origin(transcript, t.spans[i]) {
      if i < |s.spans| {
        assert Origin(transcript, s.spans[i]) && SameOrigin(s.spans[i], t.spans[i]);
      }
    }
  }

  lemma CloseOriginates(transcript: map<int, Utterance>, s: State, end: int, reason: EndReason)
    requires -1 <= s.active < |s.spans| && Originates(transcript, s)
    ensures Originates(transcript, Close(s, end, reason))
  {
    var t := Close(s, end, reason);
    forall i | 0 <= i < |t.spans| ensures Origin(transcript, t.spans[i]) {
      assert Origin(transcript, s.spans[i]);
    }
  }

  lemma ContentOriginates(transcript: map<int, Utterance>, s: State, n: int, shared: Shared, through: int)
    requires Inv(s, n - 1, through) && 1 <= n <= through && n in transcript && Originates(transcript, s)
    requires Content(transcript[n]) || transcript[n].aligned
    ensures Originates(transcript, ObserveContent(s, n, transcript[n], shared, through))
  {
    if ActiveIs(s, NoAgenda) {
      if s.reentry != [] {
        CloseOriginates(transcript, s, s.reentry[0] - 1, SemanticReentry);
      }
    } else if ActiveIs(s, FixedAgenda) {
      CloseOriginates(transcript, s, n - 1, SemanticTransition);
    } else if s.external != [] {
      OpenOriginates(transcript, s, n, Span(NoAgenda, "", s.external[0], 0, INFERRED_CONFIDENCE, false, StillOpen), through);
    }
  }

  lemma ObserveOriginates(transcript: map<int, Utterance>, s: State, n: int, shared: Shared, through: int)
    requires Inv(s, n - 1, through) && 1 <= n <= through && n in transcript && Originates(transcript, s)
    ensures Originates(transcript, Observe(s, n, transcript[n], shared, through))
  {
    var u := transcript[n];
    if u.blank {
    } else if u.returning {
      CloseOriginates(transcript, s, n - 1, ExplicitReentry);
    } else if u.external {
      if !ActiveIs(s, NoAgenda) {
        OpenOriginates(transcript, s, n, Span(NoAgenda, "", n, 0, 1.0, true, StillOpen), through);
      }
    } else if DeclaresAgenda(u) {
      OpenOriginates(transcript, s, n, Span(FixedAgenda, u.targetId, n, 0, u.targetConfidence, true, StillOpen), through);
    } else if u.substantive {
      ContentOriginates(transcript, s, n, shared, through);
    }
  }

  lemma {:induction false} SpansOriginate(transcript: map<int, Utterance>, shared: Shared, through: int, n: nat)
    requires n <= through
    ensures Originates(transcript, After(transcript, shared, through, n))
  {
    if n > 0 {
      SpansOriginate(transcript, shared, through, n - 1);
      AfterInv(transcript, shared, through, n - 1);
      if n in transcript {
        ObserveOriginates(transcript, After(transcript, shared, through, n - 1), n, shared, through);
      }
    }
  }

  // --------------------------------------------------- declarations and their spans

  predicate Covers(span: Span, n: int) {
    span.start <= n <= span.end
  }

  ghost predicate CoveredAs(spans: seq<Span>, n: int, mode: Mode, agendaId: string) {
    exists i :: 0 <= i < |spans| && Covers(spans[i], n) && spans[i].mode == mode && spans[i].agendaId == agendaId
  }

  /** An explicit transition always lies in a span of the agenda it names. */
  lemma TransitionIsCovered(transcript: map<int, Utterance>, shared: Shared, through: nat, m: nat)
    requires 1 <= m <= through && m in transcript && DeclaresAgenda(transcript[m])
    ensures CoveredAs(Spans(transcript, shared, through), m, FixedAgenda, transcript[m].targetId)
  {
    var s := After(transcript, shared, through, m);
    AfterInv(transcript, shared, through, m - 1);
    OpenKeeps(After(transcript, shared, through, m - 1), m,
      Span(FixedAgenda, transcript[m].targetId, m, 0, transcript[m].targetConfidence, true, StillOpen), through);
    NoSpanIsDropped(transcript, shared, through, m, through);
    SpansAreWellFormed(transcript, shared, through);
    assert SameOrigin(s.spans[s.active], Spans(transcript, shared, through)[s.active]);
  }

  /** So does a declaration that opens an agenda-external span. */
  lemma OpeningDeclarationIsCovered(transcript: map<int, Utterance>, shared: Shared, through: nat, m: nat)
    requires 1 <= m <= through && m in transcript && DeclaresExternal(transcript[m])
    requires !ActiveIs(After(transcript, shared, through, m - 1), NoAgenda)
    ensures CoveredAs(Spans(transcript, shared, through), m, NoAgenda, "")
  {
    var s := After(transcript, shared, through, m);
    AfterInv(transcript, shared, through, m - 1);
    OpenKeeps(After(transcript, shared, through, m - 1), m, Span(NoAgenda, "", m, 0, 1.0, true, StillOpen), through);
    NoSpanIsDropped(transcript, shared, through, m, through);
    SpansAreWellFormed(transcript, shared, through);
    assert SameOrigin(s.spans[s.active], Spans(transcript, shared, through)[s.active]);
  }

  /** Span `k` covers `m` now, and whatever closes it later does so at `m` or after. */
  ghost predicate Secured(s: State, k: nat, m: int) {
    && k < |s.spans| && Covers(s.spans[k], m)
    && (s.active == k ==> s.reentry == [] || s.reentry[0] > m)
  }

  lemma ObserveKeepsSecured(s: State, k: nat, m: int, n: int, u: Utterance, shared: Shared, through: int)
    requires Inv(s, n - 1, through) && 1 <= m < n <= through && Secured(s, k, m)
    ensures Secured(Observe(s, n, u, shared, through), k, m)
  {
    ObserveKeepsInv(s, n, u, shared, through);
  }

  lemma {:induction false} SecuredStays(transcript: map<int, Utterance>, shared: Shared, through: nat, k: nat, m: nat, n: nat)
    requires 1 <= m <= n <= through && Secured(After(transcript, shared, through, m), k, m)
    ensures Secured(After(transcript, shared, through, n), k, m)
    decreases n - m
  {
    if m < n {
      SecuredStays(transcript, shared, through, k, m, n - 1);
      AfterInv(transcript, shared, through, n - 1);
      if n in transcript {
        ObserveKeepsSecured(After(transcript, shared, through, n - 1), k, m, n, transcript[n], shared, through);
      }
    }
  }

  ghost predicate SameUpTo(a: map<int, Utterance>, b: map<int, Utterance>, m: nat) {
    forall n :: 1 <= n <= m ==> (n in a <==> n in b) && (n in a ==> a[n] == b[n])
  }

  lemma {:induction false} AfterReadsPrefix(a: map<int, Utterance>, b: map<int, Utterance>, shared: Shared, through: int, m: nat)
    requires SameUpTo(a, b, m)
    ensures After(a, shared, through, m) == After(b, shared, through, m)
  {
    if m > 0 {
      AfterReadsPrefix(a, b, shared, through, m - 1);
    }
  }

  const ALIGNED := Utterance(false, false, false, false, "", 0.0, true, true, "", 0.0, false, "", 0.0)

  /** The transcript up to `m`, then one utterance aligned with the agenda, then silence. */
  function ThenAligned(transcript: map<int, Utterance>, m: nat): map<int, Utterance> {
    (map n | n in transcript && n <= m :: transcript[n])[m + 1 := ALIGNED]
  }

  lemma {:induction false} SilenceChangesNothing(transcript: map<int, Utterance>, shared: Shared, through: int, m: nat, n: nat)
    requires m <= n && forall i :: i in transcript ==> i <= m
    ensures After(transcript, shared, through, n) == After(transcript, shared, through, m)
    decreases n - m
  {
    if m < n {
      SilenceChangesNothing(transcript, shared, through, m, n - 1);
    }
  }

  lemma PendingReentryUncovers(transcript: map<int, Utterance>, shared: Shared, through: nat, m: nat)
    requires 1 <= m < through && After(transcript, shared, through, m).reentry != []
    requires After(transcript, shared, through, m).reentry[0] <= m
    ensures !CoveredAs(Spans(ThenAligned(transcript, m), shared, through), m, NoAgenda, "")
  {
    var t := ThenAligned(transcript, m);
    AfterReadsPrefix(transcript, t, shared, through, m);
    AfterInv(t, shared, through, m);
    var s := After(t, shared, through, m);
    CloseKeeps(s, m + 1, s.reentry[0] - 1, SemanticReentry, through);
    SilenceChangesNothing(t, shared, through, m + 1, through);
  }

  /**
    The transcript may go on in any way from a declaration at `m`, also in one that
    changes the answers on the declaration itself, as long as it stays one: the
    window of its text can take in the utterance after it.
   */
  ghost predicate GoesOn(transcript: map<int, Utterance>, t: map<int, Utterance>, m: nat)
    requires m >= 1
  {
    SameUpTo(transcript, t, m - 1) && m in t && DeclaresExternal(t[m])
  }

  lemma ConfirmationStays(transcript: map<int, Utterance>, t: map<int, Utterance>, shared: Shared, through: nat, m: nat)
    requires 1 <= m <= through && GoesOn(transcript, t, m)
    requires ActiveIs(After(transcript, shared, through, m - 1), NoAgenda) && After(transcript, shared, through, m - 1).reentry == []
    ensures CoveredAs(Spans(t, shared, through), m, NoAgenda, "")
  {
    var s := After(t, shared, through, m);
    AfterReadsPrefix(transcript, t, shared, through, m - 1);
    AfterInv(t, shared, through, m);
    AfterInv(t, shared, through, m - 1);
    SpansOriginate(t, shared, through, m);
    SecuredStays(t, shared, through, s.active, m, through);
    NoSpanIsDropped(t, shared, through, m, through);
    assert Origin(t, s.spans[s.active]);
    assert SameOrigin(s.spans[s.active], Spans(t, shared, through)[s.active]);
  }

  /**
    A declaration repeated inside an agenda-external span is meant to confirm the
    span.  It stays covered whatever is said afterwards exactly when no reentry
    evidence was pending, because the declaration does not discard that evidence.
   */
  lemma ConfirmationHoldsIffNoReentryPending(transcript: map<int, Utterance>, shared: Shared, through: nat, m: nat)
    requires 1 <= m < through && m in transcript && DeclaresExternal(transcript[m])
    requires ActiveIs(After(transcript, shared, through, m - 1), NoAgenda)
    ensures After(transcript, shared, through, m - 1).reentry == [] <==>
      forall t :: GoesOn(transcript, t, m) ==> CoveredAs(Spans(t, shared, through), m, NoAgenda, "")
  {
    if After(transcript, shared, through, m - 1).reentry == [] {
      forall t | GoesOn(transcript, t, m) ensures CoveredAs(Spans(t, shared, through), m, NoAgenda, "") {
        ConfirmationStays(transcript, t, shared, through, m);
      }
    } else {
      AfterInv(transcript, shared, through, m);
      AfterInv(transcript, shared, through, m - 1);
      PendingReentryUncovers(transcript, shared, through, m);
      assert GoesOn(transcript, ThenAligned(transcript, m), m);
    }
  }

  // ------------------------------------------------------------------- the lookups

  ghost predicate Hit(evidence: seq<int>, spans: seq<Span>, a: int, b: int) {
    0 <= a < |evidence| && 0 <= b < |spans| && Covers(spans[b], evidence[a])
  }

  ghost predicate AnyHit(evidence: seq<int>, spans: seq<Span>) {
    exists a, b :: Hit(evidence, spans, a, b)
  }

  /** Evidence `q` in `span` is at least as good as evidence `p` in `other`. */
  predicate NoWorse(q: int, span: Span, p: int, other: Span) {
    p < q || (p == q && other.confidence <= span.confidence)
  }

  /** The pair (a, b) comes before (i, j) in the order of the two nested loops. */
  predicate Earlier(a: int, b: int, i: int, j: int) {
    a < i || (a == i && b < j)
  }

  /** `q` and `span` are a best match among the pairs looked at, if there was any. */
  ghost predicate BestBefore(evidence: seq<int>, spans: seq<Span>, i: int, j: int, found: bool, q: int, span: Span) {
    && (found ==> exists a, b :: Hit(evidence, spans, a, b) && q == evidence[a] && span == spans[b])
    && (forall a, b :: Hit(evidence, spans, a, b) && Earlier(a, b, i, j) ==> found && NoWorse(q, span, evidence[a], spans[b]))
  }

  /** A span covering the greatest covered evidence number, the most confident one of those. */
  ghost predicate Latest(evidence: seq<int>, spans: seq<Span>, span: Span) {
    exists q :: IsLatest(evidence, spans, q, span)
  }

  ghost predicate IsLatest(evidence: seq<int>, spans: seq<Span>, q: int, span: Span) {
    BestBefore(evidence, spans, |evidence|, 0, true, q, span)
  }

  const NO_SPAN := Span(FixedAgenda, "", 0, 0, 0.0, false, StillOpen)

  method SpanForEvidence(evidence: seq<int>, spans: seq<Span>) returns (selected: Span, found: bool)
    ensures found <==> AnyHit(evidence, spans)
    ensures found ==> Latest(evidence, spans, selected)
    ensures !found ==> selected == NO_SPAN
  {
    var selectedSequence := 0;
    selected, found := NO_SPAN, false;
    for i := 0 to |evidence|
      invariant BestBefore(evidence, spans, i, 0, found, selectedSequence, selected)
      invariant !found ==> selected == NO_SPAN
    {
      for j := 0 to |spans|
        invariant BestBefore(evidence, spans, i, j, found, selectedSequence, selected)
        invariant !found ==> selected == NO_SPAN
      {
        if !Covers(spans[j], evidence[i]) {
          continue;
        }
        assert Hit(evidence, spans, i, j);
        if !found || evidence[i] > selectedSequence
            || (evidence[i] == selectedSequence && spans[j].confidence > selected.confidence) {
          selected, selectedSequence, found := spans[j], evidence[i], true;
        }
      }
    }
    assert found ==> IsLatest(evidence, spans, selectedSequence, selected);
  }

  ghost predicate PositiveStarts(spans: seq<Span>) {
    forall i :: 0 <= i < |spans| ==> spans[i].start >= 1
  }

  /** The same choice, kept as separate variables with sequence number 0 for "none". */
  method ContextForEvidence(evidence: seq<int>, spans: seq<Span>)
    returns (mode: Option<Mode>, agendaId: string, confidence: real)
    ensures PositiveStarts(spans) && AnyHit(evidence, spans) ==>
      exists span :: Latest(evidence, spans, span) && (mode, agendaId, confidence) == (Some(span.mode), span.agendaId, span.confidence)
    ensures !AnyHit(evidence, spans) ==> (mode, agendaId, confidence) == (None, "", 0.0)
  {
    var selectedSequence := 0;
    ghost var chosen := NO_SPAN;
    mode, agendaId, confidence := None, "", 0.0;
    for i := 0 to |evidence|
      invariant selectedSequence >= 0
      invariant PositiveStarts(spans) ==> BestBefore(evidence, spans, i, 0, selectedSequence > 0, selectedSequence, chosen)
      invariant mode.Some? ==> (mode, agendaId, confidence) == (Some(chosen.mode), chosen.agendaId, chosen.confidence)
      invariant mode.Some? ==> AnyHit(evidence, spans)
      invariant mode.None? ==> (agendaId, confidence) == ("", 0.0) && selectedSequence == 0
    {
      for j := 0 to |spans|
        invariant selectedSequence >= 0
        invariant PositiveStarts(spans) ==> BestBefore(evidence, spans, i, j, selectedSequence > 0, selectedSequence, chosen)
        invariant mode.Some? ==> (mode, agendaId, confidence) == (Some(chosen.mode), chosen.agendaId, chosen.confidence)
        invariant mode.Some? ==> AnyHit(evidence, spans)
        invariant mode.None? ==> (agendaId, confidence) == ("", 0.0) && selectedSequence == 0
      {
        if !Covers(spans[j], evidence[i]) {
          continue;
        }
        assert Hit(evidence, spans, i, j);
        if evidence[i] > selectedSequence
            || (evidence[i] == selectedSequence && spans[j].confidence > confidence) {
          mode, agendaId, confidence, selectedSequence := Some(spans[j].mode), spans[j].agendaId, spans[j].confidence, evidence[i];
          chosen := spans[j];
        }
      }
    }
    if PositiveStarts(spans) && AnyHit(evidence, spans) {
      assert IsLatest(evidence, spans, selectedSequence, chosen);
      assert Latest(evidence, spans, chosen);
    }
  }

  /** `q` and the span are a match with the least evidence number among the pairs looked at. */
  ghost predicate LeastBefore(evidence: seq<int>, spans: seq<Span>, i: int, j: int, q: int, span: Span) {
    && (q > 0 ==> exists a, b :: Hit(evidence, spans, a, b) && q == evidence[a] && span == spans[b])
    && (forall a, b :: Hit(evidence, spans, a, b) && Earlier(a, b, i, j) ==> 0 < q <= evidence[a])
  }

  ghost predicate Earliest(evidence: seq<int>, spans: seq<Span>, span: Span) {
    exists q :: q > 0 && LeastBefore(evidence, spans, |evidence|, 0, q, span)
  }

  method EarliestContextForEvidence(evidence: seq<int>, spans: seq<Span>) returns (mode: Option<Mode>, agendaId: string)
    ensures PositiveStarts(spans) && AnyHit(evidence, spans) ==>
      exists span :: Earliest(evidence, spans, span) && mode == Some(span.mode) && agendaId == span.agendaId
    ensures !AnyHit(evidence, spans) ==> mode == None && agendaId == ""
  {
    var selectedSequence := 0;
    ghost var chosen := NO_SPAN;
    mode, agendaId := None, "";
    for i := 0 to |evidence|
      invariant PositiveStarts(spans) ==> selectedSequence >= 0 && LeastBefore(evidence, spans, i, 0, selectedSequence, chosen)
      invariant if mode == None then agendaId == "" && selectedSequence == 0 else AnyHit(evidence, spans)
      invariant mode.Some? ==> mode == Some(chosen.mode) && agendaId == chosen.agendaId
    {
      for j := 0 to |spans|
        invariant PositiveStarts(spans) ==> selectedSequence >= 0 && LeastBefore(evidence, spans, i, j, selectedSequence, chosen)
        invariant if mode == None then agendaId == "" && selectedSequence == 0 else AnyHit(evidence, spans)
        invariant mode.Some? ==> mode == Some(chosen.mode) && agendaId == chosen.agendaId
      {
        if !Covers(spans[j], evidence[i]) {
          continue;
        }
        assert Hit(evidence, spans, i, j);
        if selectedSequence == 0 || evidence[i] < selectedSequence {
          mode, agendaId, selectedSequence := Some(spans[j].mode), spans[j].agendaId, evidence[i];
          chosen := spans[j];
        }
      }
    }
    if PositiveStarts(spans) && AnyHit(evidence, spans) {
      assert Earliest(evidence, spans, chosen);
    }
  }

  ghost predicate SameNumbers(a: seq<int>, b: seq<int>) {
    forall q :: q in a <==> q in b
  }

  /** `span` is the one span covering `q`, the greatest evidence number any span covers. */
  ghost predicate CoversGreatest(evidence: seq<int>, spans: seq<Span>, q: int, span: Span) {
    && q in evidence && span in spans && Covers(span, q)
    && (forall other :: other in spans && Covers(other, q) ==> other == span)
    && (forall p, other :: p in evidence && other in spans && Covers(other, p) ==> p <= q)
  }

  lemma LatestCoversGreatest(evidence: seq<int>, spans: seq<Span>, through: int, span: Span)
    requires WellFormed(spans, through) && Latest(evidence, spans, span)
    ensures exists q :: CoversGreatest(evidence, spans, q, span)
  {
    var q :| IsLatest(evidence, spans, q, span);
    forall p, other | p in evidence && other in spans && Covers(other, p) ensures p <= q {
      var a :| 0 <= a < |evidence| && evidence[a] == p;
      var b :| 0 <= b < |spans| && spans[b] == other;
      assert Hit(evidence, spans, a, b);
    }
    assert CoversGreatest(evidence, spans, q, span);
  }

  /**
    On the detector's spans both lookups return the one span covering the greatest
    covered evidence number, whatever order and repetition the evidence has.
   */
  lemma LookupsAgree(evidence: seq<int>, reordered: seq<int>, spans: seq<Span>, through: int, x: Span, y: Span)
    requires WellFormed(spans, through) && SameNumbers(evidence, reordered)
    requires Latest(evidence, spans, x) && Latest(reordered, spans, y)
    ensures x == y
  {
    LatestCoversGreatest(evidence, spans, through, x);
    LatestCoversGreatest(reordered, spans, through, y);
    var q :| CoversGreatest(evidence, spans, q, x);
    var p :| CoversGreatest(reordered, spans, p, y);
    assert p <= q && q <= p;
  }

  lemma EarliestIsUnique(evidence: seq<int>, reordered: seq<int>, spans: seq<Span>, through: int, x: Span, y: Span)
    requires WellFormed(spans, through) && SameNumbers(evidence, reordered)
    requires Earliest(evidence, spans, x) && Earliest(reordered, spans, y)
    ensures x == y
  {
    var q :| q > 0 && LeastBefore(evidence, spans, |evidence|, 0, q, x);
    var p :| p > 0 && LeastBefore(reordered, spans, |reordered|, 0, p, y);
    EarliestBound(evidence, reordered, spans, q, x, p, y);
    EarliestBound(reordered, evidence, spans, p, y, q, x);
  }

  lemma EarliestBound(evidence: seq<int>, reordered: seq<int>, spans: seq<Span>, q: int, x: Span, p: int, y: Span)
    requires SameNumbers(evidence, reordered)
    requires q > 0 && LeastBefore(evidence, spans, |evidence|, 0, q, x)
    requires p > 0 && LeastBefore(reordered, spans, |reordered|, 0, p, y)
    ensures q <= p
  {
    var a, b :| Hit(reordered, spans, a, b) && p == reordered[a] && y == spans[b];
    assert p in reordered;
    var c :| 0 <= c < |evidence| && evidence[c] == p;
    assert Hit(evidence, spans, c, b);
  }

  // ------------------------------------------------------ the topic above an item

  datatype Node = Node(id: string, parentId: string, isTopic: bool)

  function Parents(nodes: seq<Node>): map<string, string> {
    if nodes == [] then map[] else Parents(nodes[..|nodes| - 1])[nodes[|nodes| - 1].id := nodes[|nodes| - 1].parentId]
  }

  function Topics(nodes: seq<Node>): map<string, bool> {
    if nodes == [] then map[] else Topics(nodes[..|nodes| - 1])[nodes[|nodes| - 1].id := nodes[|nodes| - 1].isTopic]
  }

  function Get(parents: map<string, string>, id: string): string {
    if id in parents then parents[id] else ""
  }

  /** The k-th step up from an item's parent; "" once the chain has left the tree. */
  function Ancestor(parents: map<string, string>, itemId: string, k: nat): string {
    if k == 0 then Get(parents, itemId)
    else
      var below := Ancestor(parents, itemId, k - 1);
      if below == "" then "" else Get(parents, below)
  }

  predicate TopicAt(parents: map<string, string>, topics: map<string, bool>, itemId: string, k: nat) {
    var id := Ancestor(parents, itemId, k);
    id != "" && id in topics && topics[id]
  }

  lemma {:induction false} ChainRepeats(parents: map<string, string>, itemId: string, i: nat, j: nat, k: nat)
    requires i < j && Ancestor(parents, itemId, i) == Ancestor(parents, itemId, j)
    ensures exists m: nat :: m < j && Ancestor(parents, itemId, m) == Ancestor(parents, itemId, k)
  {
    if k >= j {
      ChainRepeats(parents, itemId, i, j, k - 1);
      var m: nat :| m < j && Ancestor(parents, itemId, m) == Ancestor(parents, itemId, k - 1);
      assert Ancestor(parents, itemId, m + 1) == Ancestor(parents, itemId, k);
    }
  }

  lemma {:induction false} ChainEnds(parents: map<string, string>, itemId: string, i: nat, k: nat)
    requires Ancestor(parents, itemId, i) == "" && i <= k
    ensures Ancestor(parents, itemId, k) == ""
    decreases k
  {
    if i < k {
      ChainEnds(parents, itemId, i, k - 1);
    }
  }

  ghost predicate NearestTopic(p: map<string, string>, t: map<string, bool>, itemId: string, topicId: string) {
    if topicId == "" then forall k: nat :: !TopicAt(p, t, itemId, k)
    else exists k: nat :: Ancestor(p, itemId, k) == topicId && TopicAt(p, t, itemId, k) && NoTopicBefore(p, t, itemId, k)
  }

  ghost predicate NoTopicBefore(p: map<string, string>, t: map<string, bool>, itemId: string, k: nat) {
    forall j: nat :: j < k ==> !TopicAt(p, t, itemId, j)
  }

  /** The names passed on the way up, all of them below `k`. */
  ghost predicate Passed(p: map<string, string>, itemId: string, seen: set<string>, k: nat) {
    && (forall id :: id in seen ==> exists j: nat :: j < k && Ancestor(p, itemId, j) == id)
    && (forall j: nat :: j < k ==> Ancestor(p, itemId, j) in seen)
  }

  lemma NoTopicPastRepeat(p: map<string, string>, t: map<string, bool>, itemId: string, i: nat, k: nat, m: nat)
    requires i < k && Ancestor(p, itemId, i) == Ancestor(p, itemId, k) && NoTopicBefore(p, t, itemId, k)
    ensures !TopicAt(p, t, itemId, m)
  {
    ChainRepeats(p, itemId, i, k, m);
    var j: nat :| j < k && Ancestor(p, itemId, j) == Ancestor(p, itemId, m);
    assert !TopicAt(p, t, itemId, j);
  }

  lemma NoTopicOnCycle(p: map<string, string>, t: map<string, bool>, itemId: string, seen: set<string>, k: nat)
    requires Passed(p, itemId, seen, k) && NoTopicBefore(p, t, itemId, k) && Ancestor(p, itemId, k) in seen
    ensures NearestTopic(p, t, itemId, "")
  {
    var current := Ancestor(p, itemId, k);
    var i: nat :| i < k && Ancestor(p, itemId, i) == current;
    forall m: nat ensures !TopicAt(p, t, itemId, m) {
      NoTopicPastRepeat(p, t, itemId, i, k, m);
    }
  }

  lemma NoTopicBeyondEnd(p: map<string, string>, t: map<string, bool>, itemId: string, k: nat)
    requires NoTopicBefore(p, t, itemId, k) && Ancestor(p, itemId, k) == ""
    ensures NearestTopic(p, t, itemId, "")
  {
    forall m: nat ensures !TopicAt(p, t, itemId, m) {
      if m >= k {
        ChainEnds(p, itemId, k, m);
      }
    }
  }

  method ClimbToTopic(parents: map<string, string>, topics: map<string, bool>, itemId: string) returns (topicId: string)
    ensures NearestTopic(parents, topics, itemId, topicId)
  {
    ghost var universe := parents.Values + {Get(parents, itemId)};
    var seen: set<string> := {};
    var current := Get(parents, itemId);
    ghost var k: nat := 0;
    while current != ""
      invariant current == Ancestor(parents, itemId, k) && (current != "" ==> current in universe)
      invariant seen <= universe && Passed(parents, itemId, seen, k)
      invariant NoTopicBefore(parents, topics, itemId, k)
      decreases universe - seen
    {
      if current in seen {
        NoTopicOnCycle(parents, topics, itemId, seen, k);
        return "";
      }
      seen := seen + {current};
      if current in topics && topics[current] {
        assert TopicAt(parents, topics, itemId, k);
        return current;
      }
      current := Get(parents, current);
      k := k + 1;
    }
    NoTopicBeyondEnd(parents, topics, itemId, k);
    return "";
  }

  /** The nearest topic above the item on any parent map, cyclic ones included; "" iff there is none. */
  method TreeItemTopic(nodes: seq<Node>, itemId: string) returns (topicId: string)
    ensures NearestTopic(Parents(nodes), Topics(nodes), itemId, topicId)
  {
    var parents: map<string, string>, topics: map<string, bool> := map[], map[];
    for i := 0 to |nodes|
      invariant parents == Parents(nodes[..i]) && topics == Topics(nodes[..i])
    {
      assert nodes[..i + 1][..i] == nodes[..i];
      parents := parents[nodes[i].id := nodes[i].parentId];
      topics := topics[nodes[i].id := nodes[i].isTopic];
    }
    assert nodes[..|nodes|] == nodes;
    topicId := ClimbToTopic(parents, topics, itemId);
  }
}
