/**
  The recap timeline (internal/application/ai_discourse.go): a fold over the
  utterances of a round that tells recap from discussion, with the recap span
  carried from one round to the next.  What an utterance says is given by the
  answers of the text predicates on it.
 */
module DiscourseTimeline {
  import opened Options

  const MAX_RECAP_SPAN_SEGMENTS := 12

  datatype Act = RecapIntro | TopicTransition | MeetingControl | FillerAct | ContentAct

  datatype UtteranceRole = Substantive | CorrectionUtterance | Recap | Transition | Filler

  datatype EvidenceRole = Primary | ReferenceRecap | DiscourseOnly | Correction

  datatype Utterance = Utterance(
    number: int,
    act: Act,
    endsRecap: bool,                // a control phrase that closes a recap
    leadingIntro: bool,             // content that starts with a recap introduction
    model: Option<UtteranceRole>,   // role given by the model, if any
    resumes: bool,                  // declares that discussion resumes
    corrects: bool)                 // correction phrase

  /** The part of the recap state that is carried between rounds and read back. */
  datatype Span = Span(active: bool, start: int, end: int, last: int, count: nat)

  const NO_SPAN := Span(false, 0, 0, 0, 0)

  datatype Mode = InContent | InRecap

  datatype Change = Change(number: int, from: Mode, to: Mode, act: Act)

  datatype Timeline = Timeline(
    mode: Mode,
    span: Span,
    roles: map<int, EvidenceRole>,
    detected: map<int, UtteranceRole>,
    changes: seq<Change>)

  // ----------------------------------------------------------------------- one step

  /** What one utterance comes to: its roles, a recorded change of mode if any, and the new state. */
  datatype Reading = Reading(
    role: EvidenceRole, detected: UtteranceRole, change: Option<(Mode, Act)>, mode: Mode, span: Span)

  function StartSpan(n: int): Span {
    Span(true, n, 0, n, 0)
  }

  function EndSpan(span: Span, n: int): Span {
    span.(active := false, end := n, last := n)
  }

  function ReadContent(mode: Mode, span: Span, u: Utterance): Reading {
    match u.model
    case Some(Transition) => Reading(DiscourseOnly, Transition, Some((InContent, TopicTransition)), InContent, span)
    case Some(Filler) => Reading(DiscourseOnly, Filler, None, mode, span)
    case Some(CorrectionUtterance) => Reading(Correction, CorrectionUtterance, None, mode, span)
    case Some(Recap) => Reading(ReferenceRecap, Recap, None, mode, span)
    case Some(Substantive) =>
      Reading(Primary, Substantive, if mode == InRecap then Some((InContent, TopicTransition)) else None, InContent, span)
    case None =>
      if mode != InRecap then Reading(Primary, Substantive, None, mode, span)
      else if u.corrects then Reading(Correction, CorrectionUtterance, None, mode, span)
      else Reading(ReferenceRecap, Recap, None, mode, span)
  }

  function ReadAct(mode: Mode, span: Span, u: Utterance): Reading {
    match u.act
    case RecapIntro => Reading(DiscourseOnly, Recap, Some((InRecap, RecapIntro)), InRecap, StartSpan(u.number))
    case TopicTransition =>
      Reading(DiscourseOnly, Transition, Some((InContent, TopicTransition)), InContent,
        if span.active then EndSpan(span, u.number) else span)
    case MeetingControl =>
      if mode == InRecap && u.endsRecap
      then Reading(DiscourseOnly, Filler, Some((InContent, MeetingControl)), InContent, EndSpan(span, u.number))
      else Reading(DiscourseOnly, Filler, None, mode, span)
    case FillerAct => Reading(DiscourseOnly, Filler, None, mode, span)
    case ContentAct => ReadContent(mode, span, u)
  }

  /** Counts one more segment into the recap, which ends when it is full. */
  function CountSegment(r: Reading, u: Utterance): Reading {
    if r.mode != InRecap then r
    else
      var span := r.span.(active := true, last := u.number, count := r.span.count + 1);
      if span.count >= MAX_RECAP_SPAN_SEGMENTS
      then r.(mode := InContent, span := span.(active := false, end := u.number))
      else r.(span := span)
  }

  /** The two early exits come before the segment is counted. */
  function Read(mode: Mode, span: Span, u: Utterance): Reading {
    if u.act == ContentAct && mode != InRecap && u.leadingIntro then
      Reading(ReferenceRecap, Recap, Some((InRecap, RecapIntro)), InRecap, StartSpan(u.number))
    else if u.act == ContentAct && mode == InRecap && u.model.None? && u.resumes then
      Reading(DiscourseOnly, Transition, Some((InContent, TopicTransition)), InContent, span)
    else CountSegment(ReadAct(mode, span, u), u)
  }

  function Put(t: Timeline, u: Utterance, r: Reading): Timeline {
    Timeline(r.mode, r.span, t.roles[u.number := r.role], t.detected[u.number := r.detected],
      t.changes + if r.change.Some? then [Change(u.number, t.mode, r.change.value.0, r.change.value.1)] else [])
  }

  function Step(t: Timeline, u: Utterance): Timeline {
    Put(t, u, Read(t.mode, t.span, u))
  }

  // ----------------------------------------------------------------------- the fold

  /** The round replays numbers that the carried span already covers. */
  predicate Replays(carried: Span, utterances: seq<Utterance>) {
    carried.start > 0 && exists i :: 0 <= i < |utterances| && utterances[i].number <= carried.last
  }

  function Begin(carried: Span, utterances: seq<Utterance>): Timeline {
    var span := if Replays(carried, utterances) then NO_SPAN else carried;
    Timeline(if span.active then InRecap else InContent, span, map[], map[], [])
  }

  function Run(t: Timeline, utterances: seq<Utterance>): Timeline {
    if utterances == [] then t
    else Step(Run(t, utterances[..|utterances| - 1]), utterances[|utterances| - 1])
  }

  function Classified(carried: Span, utterances: seq<Utterance>): Timeline {
    Run(Begin(carried, utterances), utterances)
  }

  /** The round's variables, updated utterance by utterance. */
  class Classifier {
    var mode: Mode
    var recapState: Span
    var roles: map<int, EvidenceRole>
    var detectedRoles: map<int, UtteranceRole>
    var transitions: seq<Change>

    ghost function Abstract(): Timeline
      reads this
    {
      Timeline(mode, recapState, roles, detectedRoles, transitions)
    }

    constructor (carried: Span, utterances: seq<Utterance>)
      ensures Abstract() == Begin(carried, utterances)
    {
      var replayIncludesPriorSpan := false;
      for i := 0 to |utterances|
        invariant replayIncludesPriorSpan <==>
          carried.start > 0 && exists j :: 0 <= j < i && utterances[j].number <= carried.last
      {
        if carried.start > 0 && utterances[i].number <= carried.last {
          replayIncludesPriorSpan := true;
        }
      }
      mode := InContent;
      recapState := carried;
      roles, detectedRoles, transitions := map[], map[], [];
      new;
      if recapState.active && !replayIncludesPriorSpan {
        mode := InRecap;
      } else if replayIncludesPriorSpan {
        recapState := NO_SPAN;
      }
    }

    method SetRole(u: Utterance, role: EvidenceRole, detected: UtteranceRole)
      modifies this`roles, this`detectedRoles
      ensures roles == old(roles)[u.number := role] && detectedRoles == old(detectedRoles)[u.number := detected]
    {
      roles := roles[u.number := role];
      detectedRoles := detectedRoles[u.number := detected];
    }

    method ChangeMode(u: Utterance, to: Mode, act: Act)
      modifies this`mode, this`transitions
      ensures mode == to && transitions == old(transitions) + [Change(u.number, old(mode), to, act)]
    {
      transitions := transitions + [Change(u.number, mode, to, act)];
      mode := to;
    }

    method ObserveContent(u: Utterance)
      modifies this
      ensures Abstract() == Put(old(Abstract()), u, ReadContent(old(mode), old(recapState), u))
    {
      match u.model {
        case Some(Transition) =>
          SetRole(u, DiscourseOnly, Transition);
          ChangeMode(u, InContent, TopicTransition);
        case Some(Filler) => SetRole(u, DiscourseOnly, Filler);
        case Some(CorrectionUtterance) => SetRole(u, Correction, CorrectionUtterance);
        case Some(Recap) => SetRole(u, ReferenceRecap, Recap);
        case Some(Substantive) =>
          if mode == InRecap {
            ChangeMode(u, InContent, TopicTransition);
          }
          SetRole(u, Primary, Substantive);
        case None =>
          if mode == InRecap {
            if u.corrects {
              SetRole(u, Correction, CorrectionUtterance);
            } else {
              SetRole(u, ReferenceRecap, Recap);
            }
          } else {
            SetRole(u, Primary, Substantive);
          }
      }
    }

    method ObserveAct(u: Utterance)
      modifies this
      ensures Abstract() == Put(old(Abstract()), u, ReadAct(old(mode), old(recapState), u))
    {
      match u.act {
        case RecapIntro =>
          SetRole(u, DiscourseOnly, Recap);
          ChangeMode(u, InRecap, RecapIntro);
          recapState := StartSpan(u.number);
        case TopicTransition =>
          SetRole(u, DiscourseOnly, Transition);
          ChangeMode(u, InContent, TopicTransition);
          if recapState.active {
            recapState := recapState.(active := false, end := u.number, last := u.number);
          }
        case MeetingControl =>
          SetRole(u, DiscourseOnly, Filler);
          if mode == InRecap && u.endsRecap {
            ChangeMode(u, InContent, MeetingControl);
            recapState := recapState.(active := false, end := u.number, last := u.number);
          }
        case FillerAct => SetRole(u, DiscourseOnly, Filler);
        case ContentAct => ObserveContent(u);
      }
    }

    method Observe(u: Utterance)
      modifies this
      ensures Abstract() == Step(old(Abstract()), u)
    {
      if u.act == ContentAct && mode != InRecap && u.leadingIntro {
        ChangeMode(u, InRecap, RecapIntro);
        recapState := StartSpan(u.number);
        SetRole(u, ReferenceRecap, Recap);
        return;
      }
      if u.act == ContentAct && u.model.None? && mode == InRecap && u.resumes {
        SetRole(u, DiscourseOnly, Transition);
        ChangeMode(u, InContent, TopicTransition);
        return;
      }
      ObserveAct(u);
      if mode == InRecap {
        recapState := recapState.(active := true, last := u.number, count := recapState.count + 1);
        if recapState.count >= MAX_RECAP_SPAN_SEGMENTS {
          recapState := recapState.(active := false, end := u.number);
          mode := InContent;
        }
      }
    }
  }

  /** `utterances` come in increasing order of their numbers. */
  method ClassifyTimeline(utterances: seq<Utterance>, carried: Span) returns (timeline: Timeline)
    ensures timeline == Classified(carried, utterances)
  {
    var classifier := new Classifier(carried, utterances);
    for i := 0 to |utterances|
      invariant classifier.Abstract() == Run(Begin(carried, utterances), utterances[..i])
    {
      assert utterances[..i + 1][..i] == utterances[..i];
      classifier.Observe(utterances[i]);
    }
    assert utterances[..|utterances|] == utterances;
    timeline := Timeline(classifier.mode, classifier.recapState, classifier.roles, classifier.detectedRoles, classifier.transitions);
  }

  // ------------------------------------------------------------- what every run keeps

  /** A recap is always an active span; an active span is never full. */
  ghost predicate Inv(t: Timeline) {
    && (t.mode == InRecap ==> t.span.active)
    && (t.span.active ==> t.span.count < MAX_RECAP_SPAN_SEGMENTS)
  }

  /** The carried span still counts as open although the discussion has resumed. */
  predicate Stale(t: Timeline) {
    t.mode == InContent && t.span.active
  }

  lemma StepKeepsInv(t: Timeline, u: Utterance)
    requires Inv(t)
    ensures Inv(Step(t, u))
  {}

  lemma {:induction false} RunKeepsInv(t: Timeline, utterances: seq<Utterance>)
    requires Inv(t)
    ensures Inv(Run(t, utterances))
  {
    if utterances != [] {
      RunKeepsInv(t, utterances[..|utterances| - 1]);
      StepKeepsInv(Run(t, utterances[..|utterances| - 1]), utterances[|utterances| - 1]);
    }
  }

  /** For any utterances and any model roles, a span handed on as active counts fewer than 12 segments. */
  lemma ActiveSpanIsNeverFull(carried: Span, utterances: seq<Utterance>)
    requires carried.active ==> carried.count < MAX_RECAP_SPAN_SEGMENTS
    ensures var span := Classified(carried, utterances).span; span.active ==> span.count < MAX_RECAP_SPAN_SEGMENTS
  {
    RunKeepsInv(Begin(carried, utterances), utterances);
  }

  /** The utterances that leave a recap without closing its span. */
  predicate LeavesSpanOpen(u: Utterance) {
    u.act == ContentAct && (u.model == Some(Transition) || u.model == Some(Substantive) || (u.model.None? && u.resumes))
  }

  lemma BecomesStaleExactlyWhen(t: Timeline, u: Utterance)
    requires Inv(t) && !Stale(t)
    ensures Stale(Step(t, u)) <==> t.mode == InRecap && LeavesSpanOpen(u)
  {}

  /** No utterance leaves a recap without closing its span. */
  predicate ClosesProperly(t: Timeline, utterances: seq<Utterance>) {
    utterances == [] ||
    (ClosesProperly(t, utterances[..|utterances| - 1])
      && !(Run(t, utterances[..|utterances| - 1]).mode == InRecap && LeavesSpanOpen(utterances[|utterances| - 1])))
  }

  lemma {:induction false} ProperRunIsNeverStale(t: Timeline, utterances: seq<Utterance>)
    requires Inv(t) && !Stale(t) && ClosesProperly(t, utterances)
    ensures Inv(Run(t, utterances)) && !Stale(Run(t, utterances))
  {
    if utterances != [] {
      var before := Run(t, utterances[..|utterances| - 1]);
      ProperRunIsNeverStale(t, utterances[..|utterances| - 1]);
      StepKeepsInv(before, utterances[|utterances| - 1]);
      BecomesStaleExactlyWhen(before, utterances[|utterances| - 1]);
    }
  }

  ghost predicate NoModelNoResumption(utterances: seq<Utterance>) {
    forall i :: 0 <= i < |utterances| ==> utterances[i].model.None? && !utterances[i].resumes
  }

  lemma {:induction false} PlainRunsCloseProperly(t: Timeline, utterances: seq<Utterance>)
    requires NoModelNoResumption(utterances)
    ensures ClosesProperly(t, utterances)
  {
    if utterances != [] {
      PlainRunsCloseProperly(t, utterances[..|utterances| - 1]);
    }
  }

  predicate RolesFit(role: EvidenceRole, detected: UtteranceRole) {
    && (role == Primary <==> detected == Substantive)
    && (role == Correction <==> detected == CorrectionUtterance)
    && (role == ReferenceRecap ==> detected == Recap)
  }

  lemma StepCovers(t: Timeline, u: Utterance)
    ensures Step(t, u).roles.Keys == t.roles.Keys + {u.number}
    ensures Fits(t) ==> Fits(Step(t, u))
  {
    var r := Read(t.mode, t.span, u);
    assert RolesFit(r.role, r.detected);
  }

  /** Every utterance gets one role, and the roles fit what was detected. */
  lemma {:induction false} RolesCoverUtterances(t: Timeline, utterances: seq<Utterance>)
    ensures Run(t, utterances).roles.Keys == t.roles.Keys + (set u | u in utterances :: u.number)
    ensures Fits(t) ==> Fits(Run(t, utterances))
  {
    if utterances != [] {
      RolesCoverUtterances(t, utterances[..|utterances| - 1]);
      StepCovers(Run(t, utterances[..|utterances| - 1]), utterances[|utterances| - 1]);
      assert utterances == utterances[..|utterances| - 1] + [utterances[|utterances| - 1]];
    }
  }

  ghost predicate Fits(t: Timeline) {
    && t.roles.Keys == t.detected.Keys
    && forall n :: n in t.roles ==> RolesFit(t.roles[n], t.detected[n])
  }

  // ------------------------------------------------------- one pass against two passes

  ghost predicate Increasing(utterances: seq<Utterance>) {
    forall i, j :: 0 <= i < j < |utterances| ==> utterances[i].number < utterances[j].number
  }

  /** What a caller sees of two rounds, the second starting from the span the first handed on. */
  ghost predicate SplitAgrees(carried: Span, first: seq<Utterance>, second: seq<Utterance>) {
    var whole := Classified(carried, first + second);
    var front := Classified(carried, first);
    var back := Classified(front.span, second);
    && whole.roles == front.roles + back.roles
    && whole.detected == front.detected + back.detected
    && whole.changes == front.changes + back.changes
    && whole.span == back.span
  }

  /** The second timeline as the continuation of the first. */
  function Onto(t: Timeline, x: Timeline): Timeline {
    Timeline(x.mode, x.span, t.roles + x.roles, t.detected + x.detected, t.changes + x.changes)
  }

  lemma StepAppends(t: Timeline, x: Timeline, u: Utterance)
    ensures Step(Onto(t, x), u) == Onto(t, Step(x, u))
  {
    var r := Read(x.mode, x.span, u);
    assert (t.roles + x.roles)[u.number := r.role] == t.roles + x.roles[u.number := r.role];
    assert (t.detected + x.detected)[u.number := r.detected] == t.detected + x.detected[u.number := r.detected];
  }

  /** A run only reads the mode and the span of where it starts. */
  lemma {:induction false} RunAppends(t: Timeline, x: Timeline, utterances: seq<Utterance>)
    ensures Run(Onto(t, x), utterances) == Onto(t, Run(x, utterances))
  {
    if utterances != [] {
      var front := utterances[..|utterances| - 1];
      RunAppends(t, x, front);
      StepAppends(t, Run(x, front), utterances[|utterances| - 1]);
    }
  }

  lemma {:induction false} RunConcat(t: Timeline, first: seq<Utterance>, second: seq<Utterance>)
    ensures Run(t, first + second) == Run(Run(t, first), second)
  {
    if second == [] {
      assert first + second == first;
    } else {
      assert (first + second)[..|first + second| - 1] == first + second[..|second| - 1];
      RunConcat(t, first, second[..|second| - 1]);
    }
  }

  lemma StepEndsWithin(t: Timeline, u: Utterance, n: int)
    requires (t.span.start > 0 ==> t.span.last <= n) && u.number <= n
    ensures Step(t, u).span.start > 0 ==> Step(t, u).span.last <= n
  {}

  /** A span with a start ends no later than the utterances seen. */
  lemma {:induction false} SpanEndsWithin(t: Timeline, utterances: seq<Utterance>, n: int)
    requires t.span.start > 0 ==> t.span.last <= n
    requires forall i :: 0 <= i < |utterances| ==> utterances[i].number <= n
    ensures var span := Run(t, utterances).span; span.start > 0 ==> span.last <= n
  {
    if utterances != [] {
      SpanEndsWithin(t, utterances[..|utterances| - 1], n);
      StepEndsWithin(Run(t, utterances[..|utterances| - 1]), utterances[|utterances| - 1], n);
    }
  }

  /** Appending later utterances does not change whether a round replays. */
  lemma SameReplay(carried: Span, first: seq<Utterance>, second: seq<Utterance>)
    requires first != [] && Increasing(first + second)
    ensures Replays(carried, first + second) <==> Replays(carried, first)
  {
    var both := first + second;
    if i :| carried.start > 0 && 0 <= i < |both| && both[i].number <= carried.last {
      assert both[0] == first[0];
      assert first[0].number <= carried.last;
    }
    if i :| carried.start > 0 && 0 <= i < |first| && first[i].number <= carried.last {
      assert both[i].number <= carried.last;
    }
  }

  lemma SecondRoundContinues(carried: Span, first: seq<Utterance>, second: seq<Utterance>)
    requires first != [] && Increasing(first + second)
    ensures !Replays(Classified(carried, first).span, second)
  {
    var n := first[|first| - 1].number;
    forall i | 0 <= i < |first| ensures first[i].number <= n {
      assert (first + second)[i] == first[i] && (first + second)[|first| - 1] == first[|first| - 1];
    }
    assert Begin(carried, first).span.start > 0 ==> Begin(carried, first).span.last <= n by {
      if carried.start > 0 && !Replays(carried, first) {
        assert first[0].number > carried.last;
      }
    }
    SpanEndsWithin(Begin(carried, first), first, n);
    forall j | 0 <= j < |second| ensures second[j].number > n {
      assert (first + second)[|first| + j] == second[j] && (first + second)[|first| - 1] == first[|first| - 1];
    }
  }

  lemma EmptyFirstRound(carried: Span, second: seq<Utterance>)
    ensures SplitAgrees(carried, [], second)
  {
    assert [] + second == second;
    assert Classified(carried, []) == Begin(carried, []);
    var whole := Classified(carried, second);
    assert map[] + whole.roles == whole.roles && map[] + whole.detected == whole.detected;
  }

  lemma OnePassContinues(carried: Span, first: seq<Utterance>, second: seq<Utterance>)
    requires first != [] && Increasing(first + second)
    ensures Classified(carried, first + second) == Run(Classified(carried, first), second)
  {
    SameReplay(carried, first, second);
    RunConcat(Begin(carried, first), first, second);
  }

  lemma SecondRoundStarts(carried: Span, first: seq<Utterance>, second: seq<Utterance>)
    requires first != [] && Increasing(first + second)
    requires carried.active ==> carried.count < MAX_RECAP_SPAN_SEGMENTS
    requires !Stale(Classified(carried, first))
    ensures var front := Classified(carried, first); Onto(front, Begin(front.span, second)) == front
  {
    SecondRoundContinues(carried, first, second);
    RunKeepsInv(Begin(carried, first), first);
  }

  /** When the cut does not fall on a stale span, two rounds see what one round sees. */
  lemma SplitAgreesUnlessStale(carried: Span, first: seq<Utterance>, second: seq<Utterance>)
    requires Increasing(first + second)
    requires carried.active ==> carried.count < MAX_RECAP_SPAN_SEGMENTS
    requires !Stale(Classified(carried, first))
    ensures SplitAgrees(carried, first, second)
  {
    if first == [] {
      EmptyFirstRound(carried, second);
    } else {
      var front := Classified(carried, first);
      OnePassContinues(carried, first, second);
      SecondRoundStarts(carried, first, second);
      RunAppends(front, Begin(front.span, second), second);
    }
  }

  const PLAIN := Utterance(0, ContentAct, false, false, None, false, false)

  function PlainAt(n: int): Utterance {
    PLAIN.(number := n)
  }

  lemma OnePlainUtterance(t: Timeline, n: int)
    ensures Run(t, [PlainAt(n)]) == Step(t, PlainAt(n))
  {
    assert [PlainAt(n)][..0] == [];
  }

  /** One plain utterance after a stale cut: discussion in one pass, recap in two. */
  lemma StaleCutDisagrees(carried: Span, first: seq<Utterance>, n: int)
    requires first != [] && Increasing(first + [PlainAt(n)]) && Stale(Classified(carried, first))
    ensures !SplitAgrees(carried, first, [PlainAt(n)])
  {
    var second := [PlainAt(n)];
    OnePassContinues(carried, first, second);
    SecondRoundContinues(carried, first, second);
    var front := Classified(carried, first);
    OnePlainUtterance(front, n);
    OnePlainUtterance(Begin(front.span, second), n);
    assert Classified(carried, first + second).roles[n] == Primary;
    assert Classified(front.span, second).roles[n] == ReferenceRecap;
  }

  /**
    Cutting a transcript is invisible whatever follows exactly when the cut does
    not fall where the discussion has resumed and the recap span is still active.
   */
  lemma SplitAgreesIffNotStale(carried: Span, first: seq<Utterance>)
    requires Increasing(first) && (carried.active ==> carried.count < MAX_RECAP_SPAN_SEGMENTS)
    ensures (forall second :: Increasing(first + second) ==> SplitAgrees(carried, first, second)) <==>
      !Stale(Classified(carried, first))
  {
    if !Stale(Classified(carried, first)) {
      forall second | Increasing(first + second) ensures SplitAgrees(carried, first, second) {
        SplitAgreesUnlessStale(carried, first, second);
      }
    } else {
      assert first != [];
      var n := first[|first| - 1].number + 1;
      assert Increasing(first + [PlainAt(n)]);
      StaleCutDisagrees(carried, first, n);
    }
  }

  /** Without model roles and without a resumption declaration, no cut is visible. */
  lemma PlainTranscriptsSplit(carried: Span, first: seq<Utterance>, second: seq<Utterance>)
    requires Increasing(first + second) && NoModelNoResumption(first)
    requires carried.active ==> carried.count < MAX_RECAP_SPAN_SEGMENTS
    ensures SplitAgrees(carried, first, second)
  {
    PlainRunsCloseProperly(Begin(carried, first), first);
    ProperRunIsNeverStale(Begin(carried, first), first);
    SplitAgreesUnlessStale(carried, first, second);
  }

  /** A recap, a resumption, and then a plain remark in the next round. */
  lemma ResumptionMakesTheCutVisible()
    ensures var first := [PlainAt(1).(act := RecapIntro), PlainAt(2).(resumes := true)];
      && Increasing(first + [PlainAt(3)]) && Stale(Classified(NO_SPAN, first))
      && !SplitAgrees(NO_SPAN, first, [PlainAt(3)])
  {
    var intro, resume := PlainAt(1).(act := RecapIntro), PlainAt(2).(resumes := true);
    var first := [intro, resume];
    var t := Begin(NO_SPAN, first);
    assert first[..1] == [intro] && [intro][..0] == [];
    assert Run(t, [intro]) == Step(Run(t, []), intro);
    assert Run(t, first) == Step(Step(t, intro), resume);
    StaleCutDisagrees(NO_SPAN, first, 3);
  }
}
