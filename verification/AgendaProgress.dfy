/**
  Agenda progress over live rounds (internal/application/ai_agenda_progress.go):
  the round's leader, the current topic with its hysteresis, the status of each
  entry, the discussion weights, and the manual overrides stamped on delivery.
 */
module AgendaProgress {
  import opened Sorting

  const LEADER_SCORE_THRESHOLD := 2
  const CANDIDATE_SWITCH_ROUNDS := 2
  const CURRENT_DEMATERIALIZE_ROUNDS := 3
  const DISCUSSED_INACTIVE_ROUNDS := 2

  // ------------------------------------------------------------- the round's leader

  datatype Scored = Fixed(id: string, score: int, order: int) | Dynamic(id: string, score: int)

  /** Higher score first, then fixed agendas in their order, then by ID. */
  predicate Leads(a: Scored, b: Scored) {
    if a.score != b.score then a.score > b.score
    else if a.Fixed? != b.Fixed? then a.Fixed?
    else if a.Fixed? && a.order != b.order then a.order < b.order
    else LexLe(a.id, b.id)
  }

  function Candidates(entries: seq<Scored>): seq<Scored> {
    if entries == [] then []
    else
      var last := entries[|entries| - 1];
      Candidates(entries[..|entries| - 1]) + if last.score < LEADER_SCORE_THRESHOLD then [] else [last]
  }

  /** `entries` come in the order a map happens to list them. */
  method SelectLeader(entries: seq<Scored>) returns (leader: string)
    ensures leader == LeaderOf(entries)
  {
    var scored: seq<Scored> := [];
    for i := 0 to |entries|
      invariant scored == Candidates(entries[..i])
    {
      assert entries[..i + 1][..i] == entries[..i];
      if entries[i].score < LEADER_SCORE_THRESHOLD {
        continue;
      }
      scored := scored + [entries[i]];
    }
    assert entries[..|entries|] == entries;
    scored := Sort(scored, Leads);
    leader := if |scored| > 0 then scored[0].id else "";
  }

  lemma LeadsIsAnOrder()
    ensures Total(Leads) && Antisymmetric(Leads)
  {
    LexOrders();
    forall a: Scored, b: Scored ensures LexLe(a.id, b.id) || LexLe(b.id, a.id) {}
    forall a: Scored, b: Scored, c: Scored | LexLe(a.id, b.id) && LexLe(b.id, c.id) ensures LexLe(a.id, c.id) {}
  }

  lemma {:induction false} CandidatesAreEntries(entries: seq<Scored>)
    ensures forall x :: x in Candidates(entries) <==> x in entries && x.score >= LEADER_SCORE_THRESHOLD
  {
    if entries != [] {
      CandidatesAreEntries(entries[..|entries| - 1]);
      assert entries == entries[..|entries| - 1] + [entries[|entries| - 1]];
    }
  }

  function LeaderOf(entries: seq<Scored>): string {
    var sorted := Sort(Candidates(entries), Leads);
    if sorted == [] then "" else sorted[0].id
  }

  /** The leader is ahead of every entry that reaches the threshold. */
  lemma LeaderIsAheadOfAll(entries: seq<Scored>)
    ensures var sorted := Sort(Candidates(entries), Leads);
      if sorted == [] then forall x :: x in entries ==> x.score < LEADER_SCORE_THRESHOLD
      else sorted[0] in entries && sorted[0].score >= LEADER_SCORE_THRESHOLD
           && forall x :: x in entries && x.score >= LEADER_SCORE_THRESHOLD ==> x == sorted[0] || Leads(sorted[0], x)
  {
    LeadsIsAnOrder();
    CandidatesAreEntries(entries);
    var candidates := Candidates(entries);
    SortFacts(candidates, Leads);
    var sorted := Sort(candidates, Leads);
    forall x | x in entries && x.score >= LEADER_SCORE_THRESHOLD ensures x == sorted[0] || Leads(sorted[0], x) {
      var i :| 0 <= i < |sorted| && sorted[i] == x;
    }
  }

  /** The leader does not depend on the order in which the map lists the entries. */
  lemma LeaderIgnoresMapOrder(a: seq<Scored>, b: seq<Scored>)
    requires forall x :: x in a <==> x in b
    ensures LeaderOf(a) == LeaderOf(b)
  {
    LeadsIsAnOrder();
    LeaderIsAheadOfAll(a);
    LeaderIsAheadOfAll(b);
  }

  // ------------------------------------------------------------- the current topic

  /** What one round says: the agenda an explicit transition names, and the leader; "" for none. */
  datatype Round = Round(explicitId: string, leader: string)

  datatype Tracker = Tracker(current: string, candidate: string, candidateRounds: nat, inactiveRounds: nat)

  const NO_TOPIC := Tracker("", "", 0, 0)

  function Settle(current: string): Tracker {
    Tracker(current, "", 0, 0)
  }

  function Advance(t: Tracker, r: Round): Tracker {
    if r.explicitId != "" then Settle(r.explicitId)
    else if t.current == "" then (if r.leader != "" then Settle(r.leader) else t)
    else if r.leader == t.current then Settle(t.current)
    else if r.leader != "" then
      var rounds := if t.candidate == r.leader then t.candidateRounds + 1 else 1;
      if rounds >= CANDIDATE_SWITCH_ROUNDS || t.inactiveRounds >= DISCUSSED_INACTIVE_ROUNDS
      then Settle(r.leader)
      else t.(candidate := r.leader, candidateRounds := rounds)
    else if t.inactiveRounds + 1 >= CURRENT_DEMATERIALIZE_ROUNDS then Settle("")
    else t.(inactiveRounds := t.inactiveRounds + 1)
  }

  class CurrentTopic {
    var computedCurrentTopicId: string
    var candidateTopicId: string
    var candidateRounds: nat
    var currentInactiveRounds: nat
    var currentSinceVersion: int

    ghost function Abstract(): Tracker
      reads this
    {
      Tracker(computedCurrentTopicId, candidateTopicId, candidateRounds, currentInactiveRounds)
    }

    constructor ()
      ensures Abstract() == NO_TOPIC && currentSinceVersion == 0
    {
      computedCurrentTopicId, candidateTopicId, candidateRounds, currentInactiveRounds := "", "", 0, 0;
      currentSinceVersion := 0;
    }

    method ResetCounters()
      modifies this`candidateTopicId, this`candidateRounds, this`currentInactiveRounds
      ensures Abstract() == Settle(computedCurrentTopicId)
    {
      candidateTopicId, candidateRounds, currentInactiveRounds := "", 0, 0;
    }

    method Observe(r: Round, version: int) returns (changed: bool)
      modifies this
      ensures Abstract() == Advance(old(Abstract()), r)
      ensures changed == (computedCurrentTopicId != old(computedCurrentTopicId))
      ensures currentSinceVersion ==
        if changed && computedCurrentTopicId != "" then version else old(currentSinceVersion)
    {
      var previous := computedCurrentTopicId;
      changed := false;
      if r.explicitId != "" {
        changed := previous != r.explicitId;
        computedCurrentTopicId := r.explicitId;
        ResetCounters();
      } else if previous == "" {
        if r.leader != "" {
          computedCurrentTopicId := r.leader;
          changed := true;
          ResetCounters();
        }
      } else if r.leader == previous {
        ResetCounters();
      } else if r.leader != "" {
        if candidateTopicId == r.leader {
          candidateRounds := candidateRounds + 1;
        } else {
          candidateTopicId := r.leader;
          candidateRounds := 1;
        }
        if candidateRounds >= CANDIDATE_SWITCH_ROUNDS || currentInactiveRounds >= DISCUSSED_INACTIVE_ROUNDS {
          computedCurrentTopicId := r.leader;
          changed := true;
          ResetCounters();
        }
      } else {
        currentInactiveRounds := currentInactiveRounds + 1;
        if currentInactiveRounds >= CURRENT_DEMATERIALIZE_ROUNDS {
          computedCurrentTopicId := "";
          changed := true;
          ResetCounters();
        }
      }
      if changed && computedCurrentTopicId != "" {
        currentSinceVersion := version;
      }
    }
  }

  // ------------------------------------------- the rounds since the last reset

  function After(rounds: seq<Round>, n: nat): Tracker
    requires n <= |rounds|
  {
    if n == 0 then NO_TOPIC else Advance(After(rounds, n - 1), rounds[n - 1])
  }

  /** Round `n` settles the current topic: it names it, confirms it, changes it, or there is none. */
  predicate Resets(rounds: seq<Round>, n: nat)
    requires 1 <= n <= |rounds|
  {
    var before, after := After(rounds, n - 1).current, After(rounds, n).current;
    rounds[n - 1].explicitId != "" || rounds[n - 1].leader == before || before != after || before == ""
  }

  /** The leaders of the rounds since the last reset, "" for a leaderless one. */
  function Window(rounds: seq<Round>, n: nat): seq<string>
    requires n <= |rounds|
  {
    if n == 0 || Resets(rounds, n) then [] else Window(rounds, n - 1) + [rounds[n - 1].leader]
  }

  function LastLeader(window: seq<string>): string {
    if window == [] then ""
    else if window[|window| - 1] != "" then window[|window| - 1]
    else LastLeader(window[..|window| - 1])
  }

  function Leaderless(window: seq<string>): nat {
    if window == [] then 0
    else Leaderless(window[..|window| - 1]) + if window[|window| - 1] == "" then 1 else 0
  }

  /** The tracker says what the window says, and stays within its bounds between rounds. */
  ghost predicate Reflects(t: Tracker, w: seq<string>) {
    && t.candidate == LastLeader(w)
    && t.candidateRounds == (if LastLeader(w) == "" then 0 else 1)
    && t.inactiveRounds == Leaderless(w) <= 2
    && (t.candidate != "" ==> t.candidate != t.current)
    && (t.current == "" ==> w == [])
  }

  lemma WindowGrows(w: seq<string>, leader: string)
    ensures LastLeader(w + [leader]) == if leader != "" then leader else LastLeader(w)
    ensures Leaderless(w + [leader]) == Leaderless(w) + if leader == "" then 1 else 0
  {
    assert (w + [leader])[..|w|] == w;
  }

  lemma AdvanceReflects(t: Tracker, w: seq<string>, r: Round)
    requires Reflects(t, w)
    ensures var u := Advance(t, r);
      var resets := r.explicitId != "" || r.leader == t.current || t.current != u.current || t.current == "";
      Reflects(u, if resets then [] else w + [r.leader])
  {
    WindowGrows(w, r.leader);
  }

  lemma {:induction false} TrackerIsWindow(rounds: seq<Round>, n: nat)
    requires n <= |rounds|
    ensures Reflects(After(rounds, n), Window(rounds, n))
  {
    if n > 0 {
      TrackerIsWindow(rounds, n - 1);
      AdvanceReflects(After(rounds, n - 1), Window(rounds, n - 1), rounds[n - 1]);
    }
  }

  /**
    Without an explicit transition, the current topic changes to another topic `b`
    exactly when `b` leads this round and was also the most recent leader since
    the last reset, or at least two rounds since then were leaderless.
   */
  lemma SwitchesExactlyWhen(rounds: seq<Round>, n: nat, b: string)
    requires n < |rounds| && rounds[n].explicitId == ""
    requires After(rounds, n).current != "" && b != "" && b != After(rounds, n).current
    ensures After(rounds, n + 1).current == b <==>
      rounds[n].leader == b && (LastLeader(Window(rounds, n)) == b || Leaderless(Window(rounds, n)) >= 2)
  {
    TrackerIsWindow(rounds, n);
  }

  /** The current topic is cleared exactly by the third leaderless round since the last reset. */
  lemma ClearsExactlyWhen(rounds: seq<Round>, n: nat)
    requires n < |rounds| && After(rounds, n).current != ""
    ensures After(rounds, n + 1).current == "" <==>
      rounds[n].explicitId == "" && rounds[n].leader == "" && Leaderless(Window(rounds, n)) == 2
  {
    TrackerIsWindow(rounds, n);
  }

  // ---------------------------------------------------------- the status of an entry

  datatype Status = NotStarted | Discussing | Discussed

  /** What one round holds for one entry. */
  datatype Evidence = Evidence(
    segments: nat,              // substantive segments of the round
    items: nat,                 // items of the round
    itemEvidence: nat,          // distinct evidence numbers of those items
    hasActiveItem: bool,
    relatedItems: nat,          // canonical items related to the entry
    grounded: bool,             // its anchor is discussed or merged
    backfilled: bool,           // a skipped agenda recovered this round
    reconciled: bool,           // an item was moved to it this round
    completedBefore: bool)      // reconciled shortly before an explicit transition

  datatype Entry = Entry(
    id: string, fixed: bool, status: Status,
    activeRounds: nat, segments: nat, inactiveRounds: nat, weightRaw: real)

  predicate Active(e: Evidence) {
    e.segments >= 1 || e.items >= 1
  }

  function Count(x: Entry, e: Evidence): Entry {
    var counted := x.(segments := x.segments + e.segments,
                      weightRaw := x.weightRaw + e.segments as real + 0.5 * (if e.items < 2 then e.items else 2) as real);
    if Active(e) then counted.(activeRounds := x.activeRounds + 1, inactiveRounds := 0)
    else counted.(inactiveRounds := x.inactiveRounds + 1)
  }

  predicate Starts(x: Entry, e: Evidence) {
    || e.hasActiveItem || e.segments >= 2
    || (x.segments >= 2 && x.activeRounds >= 2)
    || e.itemEvidence >= 2 || (e.reconciled && e.relatedItems > 0)
  }

  predicate Completes(x: Entry, e: Evidence) {
    var grounded := x.fixed && e.grounded;
    || (grounded && e.relatedItems >= 1 && e.completedBefore)
    || (x.inactiveRounds >= DISCUSSED_INACTIVE_ROUNDS
        && (x.activeRounds >= 2 || x.segments >= 4 || grounded)
        && (e.relatedItems >= 1 || grounded))
  }

  function Judge(x: Entry, e: Evidence, isCurrent: bool): Entry {
    match x.status
    case NotStarted =>
      if e.backfilled && x.fixed && e.grounded && !isCurrent then x.(status := Discussed)
      else if Starts(x, e) then x.(status := Discussing)
      else x
    case Discussing => if !isCurrent && Completes(x, e) then x.(status := Discussed) else x
    case Discussed => x
  }

  function Progress(x: Entry, e: Evidence, isCurrent: bool): Entry {
    Judge(Count(x, e), e, isCurrent)
  }

  method CountEntries(entries: array<Entry>, evidence: seq<Evidence>)
    requires |evidence| == entries.Length
    modifies entries
    ensures forall k :: 0 <= k < entries.Length ==> entries[k] == Count(old(entries[k]), evidence[k])
  {
    for i := 0 to entries.Length
      invariant forall k :: 0 <= k < i ==> entries[k] == Count(old(entries[k]), evidence[k])
      invariant forall k :: i <= k < entries.Length ==> entries[k] == old(entries[k])
    {
      entries[i] := Count(entries[i], evidence[i]);
    }
  }

  method JudgeEntries(entries: array<Entry>, evidence: seq<Evidence>, current: string)
    requires |evidence| == entries.Length
    modifies entries
    ensures forall k :: 0 <= k < entries.Length ==>
      entries[k] == Judge(old(entries[k]), evidence[k], old(entries[k]).id == current)
  {
    for i := 0 to entries.Length
      invariant forall k :: 0 <= k < i ==> entries[k] == Judge(old(entries[k]), evidence[k], old(entries[k]).id == current)
      invariant forall k :: i <= k < entries.Length ==> entries[k] == old(entries[k])
    {
      entries[i] := Judge(entries[i], evidence[i], entries[i].id == current);
    }
  }

  /** Counters of all entries first; their statuses once the new current topic is known. */
  method UpdateEntries(entries: array<Entry>, evidence: seq<Evidence>, topic: CurrentTopic, r: Round, version: int)
    requires |evidence| == entries.Length
    modifies entries, topic
    ensures topic.Abstract() == Advance(old(topic.Abstract()), r)
    ensures forall k :: 0 <= k < entries.Length ==>
      entries[k] == Progress(old(entries[k]), evidence[k], old(entries[k]).id == topic.computedCurrentTopicId)
  {
    CountEntries(entries, evidence);
    ghost var counted := entries[..];
    var changed := topic.Observe(r, version);
    JudgeEntries(entries, evidence, topic.computedCurrentTopicId);
    assert forall k :: 0 <= k < entries.Length ==> counted[k] == Count(old(entries[k]), evidence[k]);
  }

  // ------------------------------------------------- one entry over a run of rounds

  datatype EntryRound = EntryRound(evidence: Evidence, isCurrent: bool)

  function EntryAfter(x: Entry, rounds: seq<EntryRound>, n: nat): Entry
    requires n <= |rounds|
  {
    if n == 0 then x else Progress(EntryAfter(x, rounds, n - 1), rounds[n - 1].evidence, rounds[n - 1].isCurrent)
  }

  function Rank(s: Status): nat {
    match s
    case NotStarted => 0
    case Discussing => 1
    case Discussed => 2
  }

  /** The computed status never moves backwards. */
  lemma {:induction false} StatusNeverMovesBack(x: Entry, rounds: seq<EntryRound>, m: nat, n: nat)
    requires m <= n <= |rounds|
    ensures Rank(EntryAfter(x, rounds, m).status) <= Rank(EntryAfter(x, rounds, n).status)
    decreases n - m
  {
    if m < n {
      StatusNeverMovesBack(x, rounds, m, n - 1);
    }
  }

  function SegmentsIn(rounds: seq<EntryRound>, n: nat): nat
    requires n <= |rounds|
  {
    if n == 0 then 0 else SegmentsIn(rounds, n - 1) + rounds[n - 1].evidence.segments
  }

  function ActiveIn(rounds: seq<EntryRound>, n: nat): nat
    requires n <= |rounds|
  {
    if n == 0 then 0 else ActiveIn(rounds, n - 1) + if Active(rounds[n - 1].evidence) then 1 else 0
  }

  /** The last `k` rounds before `n` held nothing for the entry. */
  ghost predicate Quiet(rounds: seq<EntryRound>, n: nat, k: nat)
    requires n <= |rounds|
  {
    k <= n && forall i :: n - k <= i < n ==> !Active(rounds[i].evidence)
  }

  /** A fresh entry's counters: totals over the run, and the length of its quiet end. */
  lemma {:induction false} CountersAreTotals(x: Entry, rounds: seq<EntryRound>, n: nat)
    requires n <= |rounds| && x.segments == x.activeRounds == x.inactiveRounds == 0
    ensures var y := EntryAfter(x, rounds, n);
      && y.segments == SegmentsIn(rounds, n)
      && y.activeRounds == ActiveIn(rounds, n)
      && (forall k: nat :: k <= y.inactiveRounds <==> Quiet(rounds, n, k))
      && y.id == x.id && y.fixed == x.fixed
  {
    if n > 0 {
      CountersAreTotals(x, rounds, n - 1);
      var y := EntryAfter(x, rounds, n);
      var before := EntryAfter(x, rounds, n - 1);
      forall k: nat ensures k <= y.inactiveRounds <==> Quiet(rounds, n, k) {
        if k > 0 {
          assert Quiet(rounds, n, k) <==> !Active(rounds[n - 1].evidence) && Quiet(rounds, n - 1, k - 1);
        }
      }
    }
  }

  /**
    When a fresh entry becomes discussed: never in the round that leaves it the
    current topic; from not started only by backfill; and from discussing only on
    a completed reconciliation, or after two quiet rounds with enough discussion
    and an outcome behind it.
   */
  lemma DiscussedExactlyWhen(x: Entry, rounds: seq<EntryRound>, n: nat)
    requires n < |rounds| && x.segments == x.activeRounds == x.inactiveRounds == 0
    requires EntryAfter(x, rounds, n).status != Discussed
    ensures var e, grounded := rounds[n].evidence, x.fixed && rounds[n].evidence.grounded;
      EntryAfter(x, rounds, n + 1).status == Discussed <==>
        && !rounds[n].isCurrent
        && if EntryAfter(x, rounds, n).status == NotStarted then e.backfilled && grounded
           else || (grounded && e.relatedItems >= 1 && e.completedBefore)
                || (Quiet(rounds, n + 1, 2)
                    && (ActiveIn(rounds, n + 1) >= 2 || SegmentsIn(rounds, n + 1) >= 4 || grounded)
                    && (e.relatedItems >= 1 || grounded))
  {
    CountersAreTotals(x, rounds, n);
    CountersAreTotals(x, rounds, n + 1);
    var y := EntryAfter(x, rounds, n + 1);
    assert 2 <= y.inactiveRounds <==> Quiet(rounds, n + 1, 2);
  }

  // ------------------------------------------------------------ discussion weights

  function MaxWeight(entries: seq<Entry>): real {
    if entries == [] then 0.0
    else
      var rest, last := MaxWeight(entries[..|entries| - 1]), entries[|entries| - 1].weightRaw;
      if last > rest then last else rest
  }

  function Weight(x: Entry, top: real): real {
    if x.status == NotStarted || top <= 0.0 then 0.0 else x.weightRaw / top
  }

  /** What the final pass over the entries counts for one of them: active items, and the size of its evidence. */
  datatype Support = Support(activeItems: nat, volume: nat)

  /** An entry with active items never keeps a raw weight of zero or less. */
  function Repaired(x: Entry, support: Support): Entry {
    if support.activeItems > 0 && x.weightRaw <= 0.0
    then x.(weightRaw := Max(1, support.volume) as real + 0.5 * Min(support.activeItems, 2) as real)
    else x
  }

  function Max(a: nat, b: nat): nat {
    if a > b then a else b
  }

  function Min(a: nat, b: nat): nat {
    if a < b then a else b
  }

  function RepairAll(entries: seq<Entry>, supports: seq<Support>): seq<Entry>
    requires |entries| == |supports|
  {
    seq(|entries|, i requires 0 <= i < |entries| => Repaired(entries[i], supports[i]))
  }

  /** The repair of the raw weights, their maximum, and the division by it. */
  method Weights(entries: seq<Entry>, supports: seq<Support>) returns (weights: seq<real>)
    requires |entries| == |supports|
    ensures var repaired := RepairAll(entries, supports);
      weights == seq(|repaired|, i requires 0 <= i < |repaired| => Weight(repaired[i], MaxWeight(repaired)))
  {
    var repaired := entries;
    for i := 0 to |entries|
      invariant |repaired| == |entries|
      invariant forall j :: 0 <= j < i ==> repaired[j] == Repaired(entries[j], supports[j])
      invariant forall j :: i <= j < |entries| ==> repaired[j] == entries[j]
    {
      if supports[i].activeItems > 0 && repaired[i].weightRaw <= 0.0 {
        var volume := Max(1, supports[i].volume);
        repaired := repaired[i := repaired[i].(weightRaw := volume as real + 0.5 * Min(supports[i].activeItems, 2) as real)];
      }
    }
    assert repaired == RepairAll(entries, supports);
    var maxWeight := 0.0;
    for i := 0 to |repaired|
      invariant maxWeight == MaxWeight(repaired[..i])
    {
      assert repaired[..i + 1][..i] == repaired[..i];
      if repaired[i].weightRaw > maxWeight {
        maxWeight := repaired[i].weightRaw;
      }
    }
    assert repaired[..|repaired|] == repaired;
    weights := [];
    for i := 0 to |repaired|
      invariant |weights| == i
      invariant forall j :: 0 <= j < i ==> weights[j] == Weight(repaired[j], maxWeight)
    {
      weights := weights + [Weight(repaired[i], maxWeight)];
    }
  }

  lemma {:induction false} MaxWeightIsGreatest(entries: seq<Entry>)
    ensures MaxWeight(entries) >= 0.0 && forall x :: x in entries ==> x.weightRaw <= MaxWeight(entries)
    ensures MaxWeight(entries) == 0.0 || exists x :: x in entries && x.weightRaw == MaxWeight(entries)
  {
    if entries != [] {
      MaxWeightIsGreatest(entries[..|entries| - 1]);
      assert entries == entries[..|entries| - 1] + [entries[|entries| - 1]];
    }
  }

  lemma WeightInRange(x: Entry, top: real)
    requires 0.0 <= x.weightRaw <= top
    ensures 0.0 <= Weight(x, top) <= 1.0
    ensures Weight(x, top) == 1.0 <==> x.status != NotStarted && x.weightRaw == top > 0.0
  {
    if top > 0.0 {
      assert (x.weightRaw / top) * top == x.weightRaw;
    }
  }

  /** Weights lie in [0, 1]; one is exactly 1 iff an entry of greatest raw weight has started. */
  lemma WeightsAreNormalised(entries: seq<Entry>)
    requires forall x :: x in entries ==> x.weightRaw >= 0.0
    ensures forall x :: x in entries ==> 0.0 <= Weight(x, MaxWeight(entries)) <= 1.0
    ensures (exists x :: x in entries && Weight(x, MaxWeight(entries)) == 1.0) <==>
      exists x :: x in entries && x.status != NotStarted && x.weightRaw == MaxWeight(entries) > 0.0
  {
    var top := MaxWeight(entries);
    MaxWeightIsGreatest(entries);
    forall x | x in entries
      ensures 0.0 <= Weight(x, top) <= 1.0
      ensures Weight(x, top) == 1.0 <==> x.status != NotStarted && x.weightRaw == top > 0.0
    {
      WeightInRange(x, top);
    }
  }

  /** After the repair every started entry with active items weighs something, whatever the raw weights were. */
  lemma ActiveItemsWeigh(entries: seq<Entry>, supports: seq<Support>, i: nat)
    requires i < |entries| == |supports|
    ensures var repaired := RepairAll(entries, supports);
      Weight(repaired[i], MaxWeight(repaired)) > 0.0 <==>
        entries[i].status != NotStarted && (supports[i].activeItems > 0 || entries[i].weightRaw > 0.0)
  {
    var repaired := RepairAll(entries, supports);
    MaxWeightIsGreatest(repaired);
    assert repaired[i] in repaired;
    var raw, top := repaired[i].weightRaw, MaxWeight(repaired);
    assert raw > 0.0 <==> supports[i].activeItems > 0 || entries[i].weightRaw > 0.0;
    if top > 0.0 {
      QuotientSign(raw, top);
    }
  }

  lemma QuotientSign(a: real, b: real)
    requires b > 0.0
    ensures a / b > 0.0 <==> a > 0.0
  {
    assert (a / b) * b == a;
  }

  // --------------------------------------------------------------- manual overrides

  /** Statuses as they travel on the wire; overrides may hold any string. */
  datatype Row = Row(id: string, computed: string, manual: string, effective: string)

  datatype Delivery = Delivery(rows: seq<Row>, computedCurrent: string, manualCurrent: string, effectiveCurrent: string)

  datatype Overrides = NoOverrides | Overrides(statuses: map<string, string>, current: string)

  predicate ValidStatus(s: string) {
    s == "not_started" || s == "discussing" || s == "discussed"
  }

  function ManualStatus(o: Overrides, id: string): string {
    if o.Overrides? && id in o.statuses && ValidStatus(o.statuses[id]) then o.statuses[id] else ""
  }

  function Stamp(row: Row, o: Overrides): Row {
    var manual := ManualStatus(o, row.id);
    row.(manual := manual, effective := if manual != "" then manual else row.computed)
  }

  predicate HasRow(rows: seq<Row>, id: string) {
    exists i :: 0 <= i < |rows| && rows[i].id == id
  }

  /** `trim` removes surrounding white space. */
  method ApplyOverrides(d: Delivery, o: Overrides, trim: string -> string) returns (stamped: Delivery)
    ensures stamped == Stamped(d, o, trim)
  {
    var rows := d.rows;
    for i := 0 to |rows|
      invariant |rows| == |d.rows|
      invariant forall k :: 0 <= k < i ==> rows[k] == Stamp(d.rows[k], o)
      invariant forall k :: i <= k < |rows| ==> rows[k] == d.rows[k]
    {
      rows := rows[i := Stamp(rows[i], o)];
    }
    var manualCurrent := "";
    if o.Overrides? {
      var currentId := trim(o.current);
      assert HasRow(rows, currentId) <==> HasRow(d.rows, currentId) by {
        if HasRow(d.rows, currentId) {
          var i :| 0 <= i < |d.rows| && d.rows[i].id == currentId;
          assert rows[i].id == currentId;
        }
      }
      if currentId != "" && HasRow(rows, currentId) {
        manualCurrent := currentId;
      }
    }
    stamped := Delivery(rows, d.computedCurrent, manualCurrent,
      if manualCurrent != "" then manualCurrent else d.computedCurrent);
  }

  function Stamped(d: Delivery, o: Overrides, trim: string -> string): Delivery {
    var manual := if o.Overrides? && trim(o.current) != "" && HasRow(d.rows, trim(o.current)) then trim(o.current) else "";
    Delivery(seq(|d.rows|, i requires 0 <= i < |d.rows| => Stamp(d.rows[i], o)), d.computedCurrent, manual,
      if manual != "" then manual else d.computedCurrent)
  }

  /** Overrides never accumulate: the last ones decide, and removing them restores what was computed. */
  lemma LastOverridesDecide(d: Delivery, first: Overrides, second: Overrides, trim: string -> string)
    ensures Stamped(Stamped(d, first, trim), second, trim) == Stamped(d, second, trim)
    ensures var plain := Stamped(Stamped(d, first, trim), NoOverrides, trim);
      && plain.effectiveCurrent == d.computedCurrent
      && forall i :: 0 <= i < |d.rows| ==> plain.rows[i].effective == plain.rows[i].computed == d.rows[i].computed
  {
    var once := Stamped(d, first, trim);
    forall id ensures HasRow(once.rows, id) <==> HasRow(d.rows, id) {
      if HasRow(d.rows, id) {
        var i :| 0 <= i < |d.rows| && d.rows[i].id == id;
        assert once.rows[i].id == id;
      }
    }
  }
}
