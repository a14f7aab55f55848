# Live discussion trees: models and proofs

The service turns a running meeting transcript into a discussion tree that the
server owns. Its parts are state machines, graph rewrites and a concurrent round
protocol; judgements about text (patterns, similarity scores) are answers supplied
from outside. This project models those parts and proves what they keep. Every
text judgement is an arbitrary function, relation or answer per utterance, so a
property holds whatever the judgement says.

A part that updates state in place is a class or a method with loops, proved equal
to a specification function; the properties are lemmas about that function. The
interleavings are state machines whose steps are the critical sections and the
repository calls. Scores are reals. Lists that the program keeps sorted and free of
repetition are sets where their order plays no part.

| file | part |
|---|---|
| CandidateDiscourse.dfy | anchored union-find over topic proposals, alias rewriting |
| LiveRound.dfy, LiveRoundProtocol.dfy | sealed live rounds, finalization barrier, versions of the live row |
| Coverage.dfy | analysed segments, bounded retry, the pending queue |
| CoverageProtocol.dfy, CoverageHistory.dfy, LiveCoverage.dfy, CoverageRuns.dfy | what the live row covers over every run, overlapping rounds included |
| Finalization.dfy | end notifications, retries and restarts over the progress row, and the scheduler's guards |
| AgendaContext.dfy | agenda spans and the lookups on them, topic above an item |
| AgendaProgress.dfy | leader, current topic, entry status, weights, overrides |
| FinalProgress.dfy, ProgressEvidence.dfy, ProgressSupport.dfy | final recompute, where its evidence comes from, and both together |
| DiscourseTimeline.dfy | recap timeline carried across rounds |
| LegacyTopicIds.dfy, AgendaAnchors.dfy, ModelAliases.dfy, TopicPruning.dfy | topic identity, anchor status, alias ownership, pruning |
| ReferenceResolver.dfy | reference keys and the resolver |
| SingletonAttachment.dfy | tokens, shared terms, scored choice |
| TreeRevision.dfy | canonical form, versions, change sets, delivery |
| Deduplication.dfy | greedy folding and the references that follow |
| Sorting.dfy, Options.dfy, Basics.dfy | stable sorting, optional values, prefixes and set sizes |

`dafny verify dfyconfig.toml` checks everything.

## Where the code differs from what it says

- The comment on the finalized projection (`internal/application/ai_analysis.go:1742-1747`) says that no live
  writer can race the overwrite. A round superseded between its check and its persist can store a newer
  version that the overwrite then puts back: `LiveRoundProtocol.ProjectionLowersExactlyWhen` says when,
  `LiveRoundProtocol.ProjectionRewindsTheRow` is a run, and `CoverageHistory.ProjectionLosesExactly` says what is lost.
- A segment is meant to be analysed once, with one retry when a later number has arrived
  (`internal/application/ai_analysis.go:5304-5319`). The flush list is fixed before the flush and is not filtered again, so
  a superseded round that stores in between makes the flush repeat its segments:
  `CoverageHistory.EveryAnalysisDueExactlyWhen`, `CoverageRuns.FlushAnalysesAgain`. A round that panics after it stored
  puts its segments back as if it had not: `CoverageRuns.PanicAfterStoringAnalysesAgain`. A recovery that fails to read the
  row after a restart queues all segments and is not corrected by the next one that reads it:
  `CoverageRuns.FailedReadAfterRestartAnalysesAgain`. Arrivals are not checked against the
  row either: `CoverageRuns.RedeliveryIsAnalysedAgain`.
- A retry is said to keep live rounds from starting because the session has ended
  (`internal/application/ai_analysis.go:2924-2926`). That holds for a session that is over; one that has no row, is open, or is
  written back from its ending status can start one after a second retry: `Finalization.LiveRoundCanStartExactlyWhen`.
- A round is said to be identified by the generation it was sealed with, but its goroutine reads the running
  generation in a later critical section: `LiveRoundProtocol.OwnGenerationIffNoneSealedBetween`,
  `LiveRoundProtocol.LateReaderClosesTheFlushChannel`.
- The constants of the current topic speak of consecutive rounds (`internal/application/ai_agenda_progress.go:45-54`);
  the code counts rounds since the last reset, and the model follows the code.
- A repeated external declaration is said to confirm the open span
  (`internal/application/ai_agenda_context.go:309-313`); it does not discard pending reentry evidence, so the span
  can be closed before it: `AgendaContext.ConfirmationHoldsIffNoReentryPending`.
- Three paths resume the discussion without closing the recap span; the exact effect on the next round is
  `DiscourseTimeline.SplitAgreesIffNotStale`.
- One owner per alias is promised after the conflict pass (`internal/application/ai_agenda_anchor.go:576-580`); an alias is
  dropped by its raw spelling, so two topics can keep one that both list with other white space:
  `ModelAliases.OneHolderExactlyWhen`. Every writer of the field trims (`internal/application/ai_agenda_anchor.go:368-384`,
  `:568`, `:814`), so such lists come only from a stored tree, whose aliases are decoded as they are
  (`internal/application/ai_analysis.go:5870-5872`), and the next pass settles them.
- A legacy topic can become its own parent: `LegacyTopicIds.OwnParentExactlyWhen`. Assembled trees hang every topic from the
  root (`internal/application/ai_tree.go:3107-3114`), and audits nest topics only in a tree already normalised
  (`internal/application/ai_tree_audit_validator.go:634-708`), so this needs a stored tree that has both.
- Distinct proposal IDs do not keep references safe when a raw ID equals another proposal's namespaced ID:
  `CandidateDiscourse.RewritingIsSafeIffNamesDisjoint`.
- A completed finalization is meant to be final; a failed read of its row can start it again:
  `Finalization.CompletedIsFinal`, `Finalization.FailedReadRestartsCompletedFinalization`.

## Premises

- Node, item, entry and agenda IDs are unique where a lemma says so, and IDs and call IDs are already trimmed
  unless trimming is the point.
- The hashed topic ID does not repeat within the generations of one agenda and is never a record ID; the rendering
  of a tree line and the digest of the sorted lines do not confuse two inputs.
- Lower-casing works character by character and is idempotent; word characters and the separator are not spaces.
- A row that is absent counts as version 0 in a compare-and-swap, as the PostgreSQL adapter does
  (`internal/adapter/repository/postgres/ai_analysis.go:54-104`); an empty payload is represented by version 0.

## Model

| member | source | states |
|---|---|---|
| CandidateDiscourse.ClustersOrdered | internal/application/ai_candidate_discourse.go:45-84 | the clusters of a round carry their index as order, and materialized topics come before proposals |
| CandidateDiscourse.BuildClusters | internal/application/ai_candidate_discourse.go:45-84 | builds one cluster per materialized topic that has items, then one per proposal, in order |
| CandidateDiscourse.UnionFind.Find | internal/application/ai_candidate_discourse.go:98-104 | root lookup with path compression: returns the root of the class and changes no class |
| CandidateDiscourse.UnionFind.Join | internal/application/ai_candidate_discourse.go:105-127 | two classes become one under the preferred root, unless both are anchored on different materialized topics; the invariant of parents and anchors is kept |
| CandidateDiscourse.UnionFind.JoinRelated | internal/application/ai_candidate_discourse.go:128-137 | the nested pair loop ends in the classes of the round for the given relation |
| CandidateDiscourse.ClassesAreAnchoredComponents | internal/application/ai_candidate_discourse.go:89-137 | for any relation: a class is rooted at its lowest index; a materialized topic is the root of its class, so no class holds two; members are linked by a chain of related pairs; a related pair is split only between two anchored classes |
| CandidateDiscourse.UnionFind.CollectAliases | internal/application/ai_candidate_discourse.go:139-154 | the alias table has exactly the names, raw and namespaced, of absorbed proposals, each leading to the ID of its class root |
| CandidateDiscourse.Reconcile | internal/application/ai_candidate_discourse.go:22-182 | one round in place: every assignment is rewritten through the alias table, dropped proposals are filtered, and nothing happens on the early exits |
| CandidateDiscourse.RewrittenPointsAtRoot | internal/application/ai_candidate_discourse.go:164-175 | a rewritten assignment names the non-empty ID of a class root |
| CandidateDiscourse.OwnNamesAreSafe | internal/application/ai_candidate_discourse.go:158-182 | when a name belongs to one proposal only, no reference is left to a dropped proposal, for any relation |
| CandidateDiscourse.RewritingIsSafeIffNamesDisjoint | internal/application/ai_candidate_discourse.go:139-182 | with distinct raw IDs, no reference to a dropped proposal is ever left exactly when no raw ID equals the namespaced ID of another proposal |
| CandidateDiscourse.DistinctIdsAreNotEnough | internal/application/ai_candidate_discourse.go:149-153 | the proposals x and topic-x, once related, drop each other and leave a reference to neither |
| LiveRound.RunState.Begin | internal/application/ai_analysis.go:1550-1560 | sealing a round hands out the next generation with a new open channel |
| LiveRound.RunState.Finish | internal/application/ai_analysis.go:1565-1575 | a finish under another generation changes nothing; otherwise the flag is cleared and the channel, which must still be open, is closed |
| LiveRound.RunState.LiveRunSuperseded | internal/application/ai_analysis.go:1579-1586 | a non-zero generation is superseded when the recorded generation reaches it |
| LiveRound.RunState.SupersedeRunning | internal/application/ai_analysis.go:2272-2276 | the barrier raises the superseded generation to the running one |
| LiveRoundProtocol.StepKeepsInv | internal/application/ai_analysis.go:869-900 | every step of any round, barrier, flush or repository call keeps the protocol invariant |
| LiveRoundProtocol.NoChannelIsClosedTwice | internal/application/ai_analysis.go:1550-1575 | over every interleaving no channel is closed twice and the open one belongs to the last sealed round |
| LiveRoundProtocol.BeginIsFresh | internal/application/ai_analysis.go:1550-1560 | a sealed round gets a generation above every generation and round before it, and is not superseded |
| LiveRoundProtocol.OlderFinishIsNoOp | internal/application/ai_analysis.go:1565-1568 | once another round is sealed, the finish of an earlier one changes nothing, whenever it comes |
| LiveRoundProtocol.SupersededIffBarrierTimesOutLater | internal/application/ai_analysis.go:2240-2285 | a round is superseded exactly when a barrier times out after it was sealed, so never by the barrier that precedes a flush |
| LiveRoundProtocol.SupersededAtCheckNeverStores | internal/application/ai_analysis.go:1048-1059 | a round that sees itself superseded at the check stores no result over the whole run |
| LiveRoundProtocol.OwnGenerationIffNoneSealedBetween | internal/application/ai_analysis.go:869-872 | the generation a goroutine reads is its own plus the number of rounds sealed meanwhile: its own exactly when there was none |
| LiveRoundProtocol.SameBaseNeedsRewind | internal/application/ai_analysis.go:1722-1739 | two swaps advance the stored row from one version only if the finalized projection was written at or below that version between them |
| LiveRoundProtocol.SecondAdvanceExactlyWhen | internal/application/ai_analysis.go:1722-1739 | after a swap moved the row on from a version, a run without upserts can move it on from there again exactly when the row is back at that version or below; the runs are a restart and retries of the finalization, as audits are closed by then |
| LiveRoundProtocol.RetryAdvancesExactlyWhen | internal/application/ai_analysis.go:2917-2954 | between finalizations, when the process is not ahead of the row, the same without a restart |
| LiveRoundProtocol.ProjectionLowersExactlyWhen | internal/application/ai_analysis.go:1748-1780 | the finalized projection lowers the stored version exactly when the swaps since finalization entered moved the row past its snapshot, and, for a snapshot taken or written after that, exactly when any swap landed since |
| LiveRoundProtocol.SupersededAfterCheckStillStores | internal/application/ai_analysis.go:1051-1061 | a concrete run: superseded between check and persist, the round still stores |
| LiveRoundProtocol.ProjectionRewindsTheRow | internal/application/ai_analysis.go:1748-1780 | a concrete run: the projection upsert puts the version back and the flush of a retry swaps from the same version again |
| LiveRoundProtocol.FlushStoresAfterSupersededRound | internal/application/ai_analysis.go:2147-2185 | a concrete run: the flush list is fixed, the superseded round stores, and the flush round stores after it |
| LiveRoundProtocol.LateReaderClosesTheFlushChannel | internal/application/ai_analysis.go:869-872 | a concrete run: a goroutine that starts late adopts the generation of the flush, escapes its own supersession and closes the channel of the flush |
| Coverage.AddCoverage | internal/application/ai_analysis.go:5219-5353 | one coverage pass: cleaned references, new analysed keys, attempts and retry eligibility per key, and the meaningful keys with their greatest number |
| Coverage.AnalyzedOnlyGrow | internal/application/ai_analysis.go:5240-5291 | analysed keys are unique, are the old positive ones plus the usable ones of the round, and covered-through is their bound and never falls |
| Coverage.AttemptsCountOccurrences | internal/application/ai_analysis.go:5304-5319 | each occurrence of a key costs one attempt, other keys keep their entry, and a retry waits for the maximum of the round |
| Coverage.MeaningfulIsAnalyzed | internal/application/ai_analysis.go:5335-5347 | meaningfully covered keys are analysed and end no later than covered-through |
| Coverage.CollectMeaningful | internal/application/ai_analysis.go:5335-5347 | collects exactly the meaningful keys and their greatest number |
| Coverage.FilterAlreadyAnalyzed | internal/application/ai_analysis.go:1831-1861 | keeps the segments that are new or are eligible retries beyond whose first round a number is available |
| Coverage.LiveQueue.Append | internal/application/ai_live_scheduler.go:406-424 | a segment already pending is not queued again |
| Coverage.LiveQueue.RequeueDeferred | internal/application/ai_analysis.go:5555-5568 | deferred segments are queued again once a number beyond their limit arrives |
| Coverage.LiveQueue.Restore | internal/application/ai_live_scheduler.go:426-434 | segments of a failed round go back into the queue without repetition |
| Coverage.LiveQueue.Defer | internal/application/ai_analysis.go:5534-5553 | the retry-eligible segments of a round, each with its limit |
| Coverage.LiveQueue.RemoveCovered | internal/application/ai_analysis.go:5570-5589 | exactly the covered segments leave the queue, in order |
| CoverageProtocol.StepKeepsInv | internal/application/ai_analysis.go:869-1260 | every step of segments, rounds that may overlap, flush and projection keeps one content for each write to the row, and one batch without repetition for each round |
| CoverageProtocol.ListedExactlyWhen | internal/application/ai_analysis.go:2147-2160 | the flush list holds exactly the durable segments the snapshot has not analysed, each once |
| CoverageHistory.RowCountsStoredRounds | internal/application/ai_analysis.go:5219-5353 | over any writes, as long as no projection lowers the stored version: what each content of the row says of a key is what the rounds stored before did with it |
| CoverageHistory.EveryAnalysisDueExactlyWhen | internal/application/ai_analysis.go:2147-2185 | over every run from the start that does not publish the key again once stored and in which no projection lowers the version: each stored analysis of the key is its first or its one due retry, exactly when no other round stored it, to any harm, since it was last checked |
| CoverageHistory.DueMeansAtMostTwice | internal/application/ai_analysis.go:5304-5319 | then the key is analysed at most twice, the second time only after an unreflected first one and with a number above that round available |
| CoverageHistory.FlushIsFirstExactlyWhen | internal/application/ai_analysis.go:2147-2185 | the flush analyses a key of its list for the first time exactly when no other round stored the key between the content the list was made from and the store of the flush |
| CoverageRuns.FlushAnalysesAgain | internal/application/ai_analysis.go:2147-2185 | a concrete run from the start: a key published once and reflected by a superseded round is analysed again by the flush |
| CoverageRuns.PanicAfterStoringAnalysesAgain | internal/application/ai_analysis.go:873-890 | a concrete run without any finalization: a round that panics once it stored gives its segment back, and once the recovery has read the row it is analysed again |
| CoverageRuns.FailedReadAfterRestartAnalysesAgain | internal/application/ai_live_scheduler.go:605-690 | a concrete run without any panic: after a restart a recovery that cannot read the row queues what the row already has, and once another one has read it that is analysed again |
| CoverageRuns.RedeliveryIsAnalysedAgain | internal/application/ai_analysis.go:684-715 | from any reachable idle state, publishing a segment again can cost it another attempt, however many it has had |
| LiveCoverage.LiveRoundsAreNeverOvertaken | internal/application/ai_analysis.go:869-900 | in one process, until a finalization reads the row, and unless a round panics after storing, no stored analysis is overtaken |
| LiveCoverage.LiveAnalysesAreDue | internal/application/ai_analysis.go:1831-1861 | so while the meeting is live every stored analysis of a key not published again is its first or its one due retry |
| CoverageHistory.CoverageOnlyGrows | internal/application/ai_analysis.go:5240-5291 | over every run in which no projection lowers the version, redelivery and restarts included: analysed keys of the row only grow and covered-through never falls |
| CoverageHistory.ProjectionLosesExactly | internal/application/ai_analysis.go:1748-1780 | the first projection that may lower the version takes from the row exactly the keys first stored after its snapshot was the row |
| CoverageHistory.RetryFlushRepeatsExactly | internal/application/ai_analysis.go:2129-2150 | the flush of a retry that then takes the row as its snapshot repeats exactly those keys |
| CoverageHistory.MeaningfulWithinCovered | internal/application/ai_analysis.go:5335-5347 | in every content of the row over every run analysed keys are unique and bounded by covered-through, which one of them reaches, and meaningful keys are among them |
| Finalization.InFlightGuard.Enter | internal/application/ai_analysis.go:2416-2423 | exactly one caller per session gets in |
| Finalization.InFlightGuard.Leave | internal/application/ai_analysis.go:2424-2429 | the session leaves the guard |
| Finalization.OneBodyAtATime | internal/application/ai_analysis.go:2416-2429 | over every interleaving of end notifications, retries and restarts at most one run holds the guard |
| Finalization.CompletedIsWrittenLastAndOnce | internal/application/ai_analysis.go:2433-2457 | while reads of the progress row succeed: versions grow strictly per attempt, a terminal row is the last of its attempt, and a Completed row is the last write of all |
| Finalization.CompletedIsFinal | internal/application/ai_analysis.go:2433-2437 | after a Completed row only a run whose read of that row failed can write |
| Finalization.FailedReadRestartsCompletedFinalization | internal/application/ai_analysis.go:2433-2457 | a concrete run: a meeting without transcript completes, and one failed read of its row starts a second finalization under version 1 |
| Finalization.LiveRoundCanStartExactlyWhen | internal/application/ai_live_scheduler.go:256-303 | inside a prepared body some continuation starts a live round exactly when the session is not over, and without a status write that revives an ending session exactly when it has no row or is open |
| Finalization.NoLiveRoundAfterPrepare | internal/application/ai_analysis.go:2917-2954 | once a body prepared for a session that is ending or over, no live round starts again through retries, timers and restarts unless the session is written back to a live status |
| Finalization.StartNeedsReopen | internal/application/ai_analysis.go:2324-2331 | whatever the status, a live round starts inside a prepared body only after another retry reopened the flags |
| AgendaContext.Detector.CloseActive | internal/application/ai_agenda_context.go:258-269 | closing ends the active span at the given number |
| AgendaContext.Detector.StartSpan | internal/application/ai_agenda_context.go:270-277 | a new span closes the active one just before its own start |
| AgendaContext.Detector.ObserveUtterance | internal/application/ai_agenda_context.go:278-400 | one utterance: return, external declaration, transition, reentry, drift and inferred detour, as one step of the detector |
| AgendaContext.DetectSpans | internal/application/ai_agenda_context.go:239-417 | the pass over the positive numbers up to covered-through gives the detector after all of them |
| AgendaContext.SpansAreWellFormed | internal/application/ai_agenda_context.go:258-404 | for any transcript and answers the spans are non-empty, strictly ordered, disjoint and end by covered-through |
| AgendaContext.NoSpanIsDropped | internal/application/ai_agenda_context.go:262-264 | the branch that drops a span is never taken: a span once found keeps its place, start, mode, agenda and confidence |
| AgendaContext.SpansOriginate | internal/application/ai_agenda_context.go:310-399 | an explicit span starts at its declaration with the declared agenda, an inferred one at an unaligned content utterance with confidence 0.80 |
| AgendaContext.TransitionIsCovered | internal/application/ai_agenda_context.go:321-327 | an explicit transition to an agenda always lies in a span of that agenda |
| AgendaContext.OpeningDeclarationIsCovered | internal/application/ai_agenda_context.go:314-320 | an external declaration outside an external span always lies in one afterwards |
| AgendaContext.ConfirmationHoldsIffNoReentryPending | internal/application/ai_agenda_context.go:309-313 | an external declaration inside an external span stays covered whatever follows, also what changes the answers on it while it stays a declaration, exactly when no reentry evidence was pending |
| AgendaContext.SpanForEvidence | internal/application/ai_agenda_context.go:435-450 | returns a covering span of the greatest covered number, the most confident of those, or none |
| AgendaContext.ContextForEvidence | internal/application/ai_agenda_context.go:420-433 | the same choice read as mode, agenda and confidence, for spans with positive starts |
| AgendaContext.EarliestContextForEvidence | internal/application/ai_agenda_context.go:452-466 | mode and agenda of a span covering the least covered number |
| AgendaContext.LookupsAgree | internal/application/ai_agenda_context.go:420-450 | on disjoint spans both lookups give the one span covering the greatest covered number, in any evidence order |
| AgendaContext.EarliestIsUnique | internal/application/ai_agenda_context.go:452-466 | the earliest lookup does not depend on evidence order |
| AgendaContext.TreeItemTopic | internal/application/ai_agenda_context.go:468-490 | the nearest topic above an item on any parent map, cyclic ones included, and none exactly when there is none |
| AgendaProgress.SelectLeader | internal/application/ai_agenda_progress.go:500-530 | the first of the entries that reach the threshold, by score, kind, order and ID |
| AgendaProgress.LeaderIsAheadOfAll | internal/application/ai_agenda_progress.go:508-530 | the leader is ahead of every entry that reaches the threshold, and there is none exactly when no entry does |
| AgendaProgress.LeaderIgnoresMapOrder | internal/application/ai_agenda_progress.go:500-530 | the leader does not depend on the order in which the map lists the entries |
| AgendaProgress.CurrentTopic.Observe | internal/application/ai_agenda_progress.go:532-570 | one round of the current-topic machine, with its change flag and since-version |
| AgendaProgress.TrackerIsWindow | internal/application/ai_agenda_progress.go:532-566 | candidate, count and inactive rounds say what the rounds since the last reset say; between rounds the candidate is not the current topic, its count is at most 1 and the inactive count at most 2 |
| AgendaProgress.SwitchesExactlyWhen | internal/application/ai_agenda_progress.go:549-558 | without an explicit transition the topic changes to B exactly when B leads and was the last leader since the reset, or two rounds since then were leaderless |
| AgendaProgress.ClearsExactlyWhen | internal/application/ai_agenda_progress.go:559-565 | the topic is cleared exactly by the third leaderless round since the reset |
| AgendaProgress.UpdateEntries | internal/application/ai_agenda_progress.go:465-479 | a round updates all counters, then the current topic, then the status of each entry in place |
| AgendaProgress.StatusNeverMovesBack | internal/application/ai_agenda_progress.go:619-663 | over any run of rounds the computed status of an entry never moves backwards |
| AgendaProgress.CountersAreTotals | internal/application/ai_agenda_progress.go:465-479 | segments and active rounds are totals of the run and inactive rounds the length of its quiet end |
| AgendaProgress.DiscussedExactlyWhen | internal/application/ai_agenda_progress.go:619-663 | when an entry becomes discussed, in terms of the whole run: never as the current topic of that round |
| AgendaProgress.Weights | internal/application/ai_agenda_progress.go:705-724 | the raw weight of an entry with active items is repaired, then raw weights are divided by the greatest, and zero for entries not started |
| AgendaProgress.ActiveItemsWeigh | internal/application/ai_agenda_progress.go:705-724 | a weight is positive exactly for a started entry that has active items or had a raw weight |
| AgendaProgress.WeightsAreNormalised | internal/application/ai_agenda_progress.go:712-724 | weights lie in 0 to 1, and one is exactly 1 iff a heaviest entry has started |
| AgendaProgress.ApplyOverrides | internal/application/ai_agenda_progress.go:1607-1645 | valid overrides of existing entries are stamped on a copy |
| AgendaProgress.LastOverridesDecide | internal/application/ai_agenda_progress.go:1607-1645 | stamping never accumulates, and without overrides the computed values are effective again |
| FinalProgress.Progress.RefreshRefs | internal/application/ai_agenda_progress.go:1451-1522 | node references of every entry are refreshed in place |
| FinalProgress.RefreshIsIdempotent | internal/application/ai_agenda_progress.go:1451-1522 | refreshing twice changes nothing more, and every reference left names a node |
| FinalProgress.Progress.RecomputeFinal | internal/application/ai_agenda_progress.go:1089-1404 | the whole recompute in place, with the current-topic state cleared |
| FinalProgress.RecomputeIsIdempotent | internal/application/ai_agenda_progress.go:1089-1404 | recomputing again changes nothing |
| FinalProgress.RecomputeIgnoresOrder | internal/application/ai_agenda_progress.go:1391-1403 | the result does not depend on the order of the entries it is given |
| FinalProgress.RecomputedStatusAndWeight | internal/application/ai_agenda_progress.go:1310-1389 | nobody is discussing; discussed means an active item or a fixed entry with two transcript matches; weights are 0 or in (0, 1], and some weight is 1 if anyone is discussed |
| FinalProgress.RecomputedHasAgenda | internal/application/ai_agenda_progress.go:1131-1160 | every agenda that is not an action summary has an entry afterwards |
| ProgressSupport.DiscussedExactlyWhen | internal/application/ai_agenda_progress.go:1089-1300 | at meeting end, with the evidence the pass itself gathers: an entry is discussed exactly when an active item of the tree belongs to it or it is fixed and the utterances gave it two pieces of evidence |
| ProgressEvidence.IsDescendantOrSelf | internal/application/ai_agenda_progress.go:788-806 | on any parent map, true exactly when the ancestor is the node or on its chain |
| ProgressEvidence.IsRelated | internal/application/ai_agenda_progress.go:836-866 | an active item is related exactly when it names the entry, shares its candidate, or lies at or below one of its topics |
| ProgressEvidence.GatherEvidence | internal/application/ai_agenda_progress.go:1183-1240 | the transcript evidence of the final recompute, matched or lent by a fixed span |
| ProgressEvidence.SpanLendsAtMostTwo | internal/application/ai_agenda_progress.go:1214-1240 | no fixed span lends more than two pieces of evidence, and none once it is blocked |
| DiscourseTimeline.Classifier.Observe | internal/application/ai_discourse.go:368-471 | one utterance: its roles, the recorded mode change, and the recap span, with the two early exits before the segment is counted |
| DiscourseTimeline.ClassifyTimeline | internal/application/ai_discourse.go:351-475 | the pass over the utterances from the carried span, reset when the round replays it |
| DiscourseTimeline.ActiveSpanIsNeverFull | internal/application/ai_discourse.go:462-471 | for any utterances and model roles an active span counts fewer than 12 segments |
| DiscourseTimeline.RolesCoverUtterances | internal/application/ai_discourse.go:368-460 | every utterance gets one role, consistent with what was detected |
| DiscourseTimeline.SplitAgreesIffNotStale | internal/application/ai_discourse.go:351-475 | two rounds see what one sees, whatever follows, exactly when the cut does not fall on a span left active |
| DiscourseTimeline.PlainTranscriptsSplit | internal/application/ai_discourse.go:351-475 | without model roles and resumptions no cut is visible in roles, changes or final span |
| DiscourseTimeline.ResumptionMakesTheCutVisible | internal/application/ai_discourse.go:436-444 | a recap, a resumption and a plain remark: the remark is a recap in two rounds and discussion in one |
| LegacyTopicIds.EscapeCollision | internal/application/ai_agenda_anchor.go:227-235 | the first free generation, found within one more try than there are occupied IDs |
| LegacyTopicIds.AvailableAgendaTopicId | internal/application/ai_agenda_anchor.go:175-187 | reuses a topic of the agenda, else returns a generated ID that no topic has |
| LegacyTopicIds.LiveTree.NormalizeLegacyIds | internal/application/ai_agenda_anchor.go:193-330 | the rewrite in place of nodes, edges, relations and candidate topics |
| LegacyTopicIds.RemapIsLegacy | internal/application/ai_agenda_anchor.go:216-238 | exactly the topics under record IDs are remapped, each to the least topic of its agenda or to a generated ID |
| LegacyTopicIds.ResultHasUniqueIds | internal/application/ai_agenda_anchor.go:243-287 | node IDs are unique afterwards |
| LegacyTopicIds.NoTopicIsRecordIffTargetsClear | internal/application/ai_agenda_anchor.go:216-287 | no topic keeps a record ID exactly when no legacy topic was the first choice of another legacy agenda |
| LegacyTopicIds.OwnReferencesAreClear | internal/application/ai_agenda_anchor.go:203-214 | it suffices that no legacy topic refers to another agenda |
| LegacyTopicIds.NormalizeIsIdempotent | internal/application/ai_agenda_anchor.go:193-366 | normalising again changes nothing exactly when no legacy topic was the first choice of another legacy agenda |
| LegacyTopicIds.ReferencesStayResolvable | internal/application/ai_agenda_anchor.go:290-325 | parents and relation ends that resolved still resolve |
| LegacyTopicIds.EdgesAreParentPairs | internal/application/ai_agenda_anchor.go:315-320 | after a rewrite the edges are exactly the parent pairs, one per child |
| LegacyTopicIds.ParentsAreFirstPlaced | internal/application/ai_agenda_anchor.go:243-299 | the parent links of the result are exactly those of the nodes placed first under their new ID, under the remap |
| LegacyTopicIds.OwnParentExactlyWhen | internal/application/ai_agenda_anchor.go:243-299 | a node becomes its own parent exactly when the first node placed under its ID has a parent the remap takes to that ID |
| LegacyTopicIds.CyclicExactlyWhen | internal/application/ai_agenda_anchor.go:243-299 | the result has a cycle exactly when the remap closes a chain of parent links of nodes placed first |
| LegacyTopicIds.StaysAcyclic | internal/application/ai_agenda_anchor.go:243-299 | in particular, while topics hang from the root an acyclic tree stays acyclic |
| LegacyTopicIds.ForeignReferenceKeepsRecordId | internal/application/ai_agenda_anchor.go:208-212 | a legacy topic that refers to another agenda lends it its record ID |
| LegacyTopicIds.NestedTargetMakesSelfLoop | internal/application/ai_agenda_anchor.go:264-299 | a legacy topic placed ahead of the topic it is renamed to, and below it, becomes its own parent |
| LegacyTopicIds.TargetFirstKeepsItsParent | internal/application/ai_agenda_anchor.go:264-299 | the same two topics in the other order keep the parent of the target |
| AgendaAnchors.HasDetailDescendant | internal/application/ai_agenda_anchor.go:411-435 | terminates on any graph and is true exactly when a path through topics and groups reaches an active detail |
| AgendaAnchors.CollectFacts | internal/application/ai_agenda_anchor.go:445-466 | materialized topics, discussion and merging of one agenda, read from the tree |
| AgendaAnchors.ReconcileAnchors | internal/application/ai_agenda_anchor.go:386-489 | one anchor per agenda, updated from the previous one and sorted stably by order |
| AgendaAnchors.RoundKeepsChains | internal/application/ai_agenda_anchor.go:468-484 | a round keeps the histories connected and leaves no anchor without one |
| AgendaAnchors.HistoriesAreChains | internal/application/ai_agenda_anchor.go:481-484 | over any sequence of rounds a history is a connected chain without self-steps that ends in the status |
| ModelAliases.ResolveAliases | internal/application/ai_agenda_anchor.go:516-554 | an owner is the only claimant or ahead of all others by the margin; several claimants without one are ambiguous |
| ModelAliases.Arbitrate | internal/application/ai_agenda_anchor.go:539-552 | in any map order: the owner is the claimant ahead by the margin, if there is one |
| ModelAliases.ScoresIgnoreOrder | internal/application/ai_agenda_anchor.go:517-536 | the best scores do not depend on the order of the assignments |
| ModelAliases.MoveAlias | internal/application/ai_agenda_anchor.go:556-573 | the alias is dropped everywhere and added to its target |
| ModelAliases.MoveGivesTargetTheAlias | internal/application/ai_agenda_anchor.go:556-573 | after a move the target alone lists the alias, and other aliases stay where they were |
| ModelAliases.SelectHolder | internal/application/ai_agenda_anchor.go:606-638 | the holder with score at least 0.62 that is ahead of the others by 0.10, or none |
| ModelAliases.ReconcileConflicts | internal/application/ai_agenda_anchor.go:581-652 | the loop is the pass: each topic list is rewritten once for each contested alias, in the order the map gives |
| ModelAliases.PassExactly | internal/application/ai_agenda_anchor.go:581-652 | on any lists in any order: a list without contested aliases stays as written; any other comes out trimmed and keeps an alias exactly when it is not contested, or the topic is selected for it, or it is spelled with other white space and comes first |
| ModelAliases.OneHolderExactlyWhen | internal/application/ai_agenda_anchor.go:576-652 | in every order each alias is left on one topic at most, exactly when for each contested alias at most one of its topics is selected or lists it with other white space |
| ModelAliases.TrimmedListsSettle | internal/application/ai_agenda_anchor.go:576-652 | lists stored trimmed always meet that condition |
| ModelAliases.SecondPassSettles | internal/application/ai_agenda_anchor.go:576-652 | a second pass leaves each alias on one topic at most, whatever the first was given |
| ModelAliases.UntrimmedAliasStaysContested | internal/application/ai_agenda_anchor.go:641-645 | two topics of a stored tree that list the same alias with a space before it both keep it |
| TopicPruning.TopicHasDescendants | internal/application/ai_agenda_anchor.go:836-853 | the climbing test is true exactly when a node other than the root hangs directly from the topic, on any parent map |
| TopicPruning.TopicTree.PruneEmptyAgendaTopics | internal/application/ai_agenda_anchor.go:858-920 | the pruning in place: topics removed, edges filtered |
| TopicPruning.RemovedTopicsAreUnreferenced | internal/application/ai_agenda_anchor.go:867-915 | exactly the prunable topics are gone, and no edge or relation names one |
| TopicPruning.DanglingParentIffRootBelowRemoved | internal/application/ai_agenda_anchor.go:836-915 | a surviving node hangs from a removed topic exactly when the root does |
| TopicPruning.PruningLeavesNoReference | internal/application/ai_agenda_anchor.go:858-920 | with a root that has no parent, no node, edge or relation refers to a removed topic |
| ReferenceResolver.CanonicalReferenceKey | internal/application/ai_reference.go:12-27 | the character loop with its pending separator computes the key |
| ReferenceResolver.KeyJoinsWords | internal/application/ai_reference.go:12-27 | the key is the lower-cased word runs joined by single separators, none at an end |
| ReferenceResolver.KeyIsIdempotent | internal/application/ai_reference.go:12-27 | the key of a key is that key |
| ReferenceResolver.Resolver.AddPair | internal/application/ai_reference.go:52-70 | adding a pair, with a tombstone on conflict |
| ReferenceResolver.Resolver.RedirectPair | internal/application/ai_reference.go:72-90 | redirecting a name to another |
| ReferenceResolver.Resolver.ResolveReference | internal/application/ai_reference.go:92-106 | the canonical ID of a reference and whether it is another name |
| ReferenceResolver.OperationsKeepDisjoint | internal/application/ai_reference.go:52-90 | over any sequence of adds and redirects no key is ever both resolved and ambiguous |
| ReferenceResolver.AddsDecide | internal/application/ai_reference.go:52-70 | a key resolves to c iff c is the only ID added for it, and is ambiguous iff there were two |
| ReferenceResolver.AddsIgnoreOrder | internal/application/ai_reference.go:41-70 | without redirects the state does not depend on order or repetition |
| SingletonAttachment.Tokens | internal/application/ai_final_singleton_attachment.go:135-170 | the tokens are the maximal runs of one character class with two characters or more, each with its compound, once and in order |
| SingletonAttachment.LongestCommonSubstring | internal/application/ai_final_singleton_attachment.go:187-204 | the search returns the first longest match |
| SingletonAttachment.LongestCommonIsLongest | internal/application/ai_final_singleton_attachment.go:187-204 | the result occurs in both texts and nothing longer does |
| SingletonAttachment.CollectSharedTerms | internal/application/ai_final_singleton_attachment.go:222-277 | the nested loops note every shared term with weakness and conflict |
| SingletonAttachment.SharedTermExactly | internal/application/ai_final_singleton_attachment.go:222-277 | a term is shared iff some pair of tokens shares it, and conflicts iff every such pair has different modifiers |
| SingletonAttachment.EvaluateSubject | internal/application/ai_final_singleton_attachment.go:312-374 | the subject match over label, hints, context and descendants |
| SingletonAttachment.ReachesFloorExactlyWhen | internal/application/ai_final_singleton_attachment.go:349-372 | a match reaches 0.55 exactly when not all terms are weak and it is long, plural or on the label |
| SingletonAttachment.EvaluateCandidate | internal/application/ai_final_singleton_attachment.go:542-626 | one topic as a candidate: conflicts, supports, score and verdict |
| SingletonAttachment.EligibleExactlyWhen | internal/application/ai_final_singleton_attachment.go:542-626 | a candidate is eligible exactly when the subject is shared, anchored, unconflicted and above the floor and some support ties item and topic |
| SingletonAttachment.WeakTermsAreNeverEligible | internal/application/ai_final_singleton_attachment.go:368-372 | an item that shares only weak terms is eligible for no topic |
| SingletonAttachment.Choose | internal/application/ai_final_singleton_attachment.go:723-771 | a topic is chosen exactly when it is eligible, scores 0.58 and is ahead of every other eligible one by 0.08 |
| SingletonAttachment.AttachSingletons | internal/application/ai_final_singleton_attachment.go:692-781 | each grounded item is attached exactly when some topic wins, and to a winning topic |
| TreeRevision.LiveTreeHash | internal/application/ai_analysis.go:7475-7500 | the hash of the sorted lines of nodes, edges and relations |
| TreeRevision.SameHashIffSameLines | internal/application/ai_analysis.go:7475-7500 | two trees have one hash exactly when they have the same lines in any order |
| TreeRevision.FormIgnoresOrder | internal/application/ai_analysis.go:7473-7514 | the form ignores the order of nodes, edges, relations and lists, and lifecycle stamps |
| TreeRevision.DiffTrees | internal/application/ai_analysis.go:7516-7552 | the change set between two trees |
| TreeRevision.DiffAccountsForNodes | internal/application/ai_analysis.go:7516-7530 | created nodes are those not there before, and removals and additions give the current nodes |
| TreeRevision.LivePayload.StampRevision | internal/application/ai_analysis.go:7256-7285 | version, changes, disposition and snapshot metadata of a new tree |
| TreeRevision.VersionStaysIffUnchanged | internal/application/ai_analysis.go:7260-7265 | the version stays exactly when an existing tree has the same lines |
| TreeRevision.StampAccountsForNodes | internal/application/ai_analysis.go:7439-7471 | current nodes are the previous ones without the removed, with the new, also when no changes are sent |
| TreeRevision.PublishCompleted | internal/application/ai_analysis.go:7341-7352 | the tree is left out of the broadcast when its form is that of the previous payload |
| TreeRevision.ClientHoldsServerForm | internal/application/ai_analysis.go:7341-7352 | a client that hears every revision and keeps its last tree holds the form of the server whenever the server has a tree |
| TreeRevision.HoldsServerFormExactlyWhen | internal/application/ai_analysis.go:7341-7352 | a client that heard any part of the messages holds the form of the server exactly when the last tree it heard has that form |
| TreeRevision.MissedTreeStaysStale | internal/application/ai_analysis.go:7341-7352 | after missing the last tree sent a client is current exactly when what it held before has the form of that tree, however many unchanged revisions follow |
| Deduplication.BestMatchIsBest | internal/application/ai_analysis.go:7718-7748 | the match is the earliest kept item with the greatest score above zero, and there is none exactly without a candidate |
| Deduplication.LiveState.DeduplicateExisting | internal/application/ai_analysis.go:7709-7802 | the pass in place: items, tree and candidate evidence, untouched when nothing is dropped |
| Deduplication.FoldKeepsIds | internal/application/ai_analysis.go:7714-7784 | survivors keep their order, dropped IDs map to survivors, without chains |
| Deduplication.EvidenceIsConserved | internal/application/ai_analysis.go:7764-7776 | the positive evidence of a survivor is exactly that of the items folded into it |
| Deduplication.NoReferenceToDropped | internal/application/ai_analysis.go:7844-7888 | no node, parent, related list, edge or relation names a dropped item, and edges have no self-loops or duplicates |
| Deduplication.RemappedEdges | internal/application/ai_analysis.go:7860-7878 | the edges are the followed ones without self-loops, each once |
| Deduplication.DeduplicationIsSound | internal/application/ai_analysis.go:7709-7802 | for any judgement of likeness on whole items, over the whole pass: order, targets and evidence of survivors, and no node, parent, related list, edge, relation or candidate evidence that names a dropped item |

## Left out

- Regular expressions, phrase lists, similarity scores and prompt text: they are answers, relations or functions supplied from outside.
- Logging, statistics, JSON encoding, HTTP, WebSocket, database, e-mail and authentication wiring: plumbing.
- Timers, backoff and the scheduler's trigger rules: a dispatch may happen whenever its guards allow it.
- Removal of idle sessions from memory, which restarts the generation counter under goroutines that live on, and wrap-around of that unsigned counter.
- Several server processes on one session: the compare-and-swap is modelled, other processes' barriers and guards are not.
- `rebuildDiscussionTree`, `assembleTree`, integrity validation, reorganization and audit contents: they appear only as version changes of the live row.
- Decision, todo and correction synthesis, agenda reconciliation and final repairs other than singleton attachment: text rules.
- Outcome status of agenda entries and the display selection of dynamic topics: easy members.
- Item tombstones, change lists and stats written beside deduplication, and the anchors, tombstones and emerging topics rewritten beside legacy IDs: the same rewriting as for the lists that are modelled.
- LiveRoundProtocol.StepKeepsInv: an audit is asked for the payload the session holds when it begins; flush attempts are unbounded; the bar on new rounds during finalization stands for `Finalization.NoLiveRoundAfterPrepare`; a finalization that enters after a completed one does so because its reads of the completed row failed, as `Finalization.RewritesIffBothReadsMiss` allows.
- Coverage.AddCoverage: does not model the order of the coverage list, the reason texts or the recap span updated beside it; segments without a positive sequence number, identified by event, are not followed through the queue.
- CoverageProtocol.StepKeepsInv: the number available to a round is the highest final one delivered or read so far; a recovery fills the queue in a step of its own, from what the session holds by then.
- LiveCoverage.LiveRoundsAreNeverOvertaken: says nothing of restarts and of a round that panics after it stored; `CoverageRuns.FailedReadAfterRestartAnalysesAgain` and `CoverageRuns.PanicAfterStoringAnalysesAgain` show why.
- Finalization.NoLiveRoundAfterPrepare: deletion of the session row and races between status writers are left out; a status write is one step.
- FinalProgress.RecomputeIsIdempotent: which items belong to an entry is a function of its identity and links; that relation itself is `ProgressEvidence.IsRelated`, and `ProgressSupport.DiscussedExactlyWhen` joins the two.
- FinalProgress.Progress.RecomputeFinal: semantic coverage is kept as the mean it is, without rounding; roles of agendas other than the action-summary exclusion are not modelled.
- SingletonAttachment.AttachSingletons: the reparenting of the item in the tree is left out; topic signatures are inputs.
- Deduplication.EvidenceIsConserved: wordings merge through an arbitrary function; other merged attributes are part of the wording.
- AgendaContext.ContextForEvidence: says nothing about spans that start at or below 0, which the detector never emits.
