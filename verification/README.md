# sch-audit: verified model of the recording protocol

sch-audit turns what it sees of a pod's scheduling (pod conditions and core/v1 Events) into a
`SchedulingDecision` object per pod whose status holds a growing history of transitions. The
reconcilers that write it read through a cache that may lag, race with each other, retry on
Conflict and NotFound, and share the API server with a retention sweep that deletes by name.
This project models that code in Dafny and proves what it guarantees over all inputs and all runs.

`dafny verify dfyconfig.toml` checks everything.

## How the model is built

- **Time** (`Clock`): instants in nanoseconds since the Unix epoch. Storing an object truncates
  every timestamp to the second (`Trunc`), as the serialization of `metav1.Time` does.
- **Derivation** (`Derivation`, `Candidates`, `EventIndex`, `Extender`): functions for the branching
  code of `controllers/decision.go`, methods with invariants for its loops.
- **Protocol** (`Protocol`): the API server's store with one resource-version counter, any number of
  workers standing at the program points of `recordTransition`, the sweep, other deleters, and a
  clock. A run is any sequence of actions; the actions carry every choice (who moves, which earlier
  version a cached read returns, which call fails, how far the clock moves). `log` keeps every version
  of the store, each with the edit that made it. The fields `stamp`, `began`, `since`, `lost`, `at`,
  `listed` and `edit` are history variables: they are written for the statements and read by no process.
- **Invariants and theorems** (`Invariants`, `Recording`, `Provenance`, `Budget`, `Retention`,
  `Sequential`).
- **The code itself** (`Reconciler`, `SweepPass`, `Dashboard`): imperative methods, statement by
  statement, on a server that other processes use between any two calls. Each recording or sweeping
  execution is proved to be a run of the protocol, so the theorems about runs are about the code.

Assumed of the API server and client libraries: a status update succeeds exactly on a matching
resource version and changes only the status; Create fails when the name exists; a call that returns
an error wrote nothing; a cached read returns some earlier version of the object, or its absence;
`retry.OnError` makes at most `attempts` attempts (4 with `retry.DefaultBackoff`; any number from 1 on
here) and stops at the first error that is not retriable.

Claims that one would expect and that do not hold, each with what does:

- An acknowledged transition need not be last (`Sequential.StaleAcknowledgementIsReached`, a run from
  the empty store). It is last exactly while the object has the resource version the acknowledgement
  rests on, or when the newest entry added since repeats it (`Recording.AcknowledgedIsLastIff`).
- Reconciling the same inputs again need not leave the store as it is: a timestamp with a fraction of
  a second is recorded anew (`Sequential.FractionIsRecordedTwice`), and so is one taken from the clock,
  which has moved (`Sequential.ClockReadingIsRecordedAnew`), both in runs from the empty store. These
  are the only cases (`Sequential.ReconcileIsIdempotentIff`).
- The retry budget can be spent without any competing write (`Budget.BudgetIsSpentAlone`, a run from
  the empty store): stale reads count as well as competing writes (`Budget.FailureIsAccountedFor`).
- A sweep's delete by name can take a record at the instant it is stamped
  (`Retention.SoleDeleterIsNeeded`, a run from the empty store). It takes the incarnation it listed
  exactly when nothing else deleted the name in between (`Retention.SweepTakesListedIff`).
- A record can expire up to a second early, exactly when its window does not end on a whole second
  (`Labels.ExpiryCanBeEarly`).
- The event index can list another pod's event, exactly when a namespace holds a slash in the right
  place, which Kubernetes rules out (`EventIndex.IndexAgreesIff`, `EventIndex.KeysCollideIff`).
- A second candidate list in the same second is not picked up (`Extender.SameSecondKeepsTheFirst`). A
  list is used exactly when, to the second, those listed before it are older and those listed behind
  it are not newer (`Extender.ListIsUsedIff`, `Extender.AppendedListIsUsedIff`). The comment at
  controllers/decision.go:253-256 says the newest CandidateNodes Event is always used; with equal
  seconds the code keeps the first one listed, and the model follows the code.

## Model

| member | source | states |
|---|---|---|
| `Recording.HistoryOnlyGrows` | controllers/schedulingdecision_controller.go:234-257 | in every run, an incarnation occupies an unbroken stretch of versions, along which its history only grows and its spec and labels never change |
| `Recording.EveryVersionIsOneEdit` | controllers/schedulingdecision_controller.go:240-252 | each version of the store differs from the previous one by one call: a creation with an empty status, one more history entry on the same object, or a deletion |
| `Recording.UpdateLandsOnReadVersion` | controllers/schedulingdecision_controller.go:240-252 | a successful status update is applied to exactly the object version the worker read, however stale the cache was, and appends one entry that has everything of its transition, the timestamp to the second |
| `Provenance.EntriesAreObservations` | controllers/schedulingdecision_controller.go:120-165 | every entry of every version of every run has everything that an observation made before that version derived for the pod the record is about, the timestamp to the second |
| `Provenance.RecordsDescribeObservedPods` | controllers/schedulingdecision_controller.go:186-211 | every record of every version of every run describes the pod as an observation made before that version did, with the volume context resolved then if the pod was there and none if it was not |
| `Recording.AcknowledgedIsNeverLost` | controllers/schedulingdecision_controller.go:240-256 | once the retry loop returned nil, every later version of the incarnation it relied on contains the transition as stored, and contains it as submitted exactly when its timestamp is whole |
| `Recording.AcknowledgedIsLastIff` | controllers/schedulingdecision_controller.go:240-256 | in every run, while the incarnation lives, the acknowledged transition is last exactly as long as the object has the resource version the acknowledgement rests on, which is as long as nobody edited it, or when the newest entry added since repeats it |
| `Recording.OneMoreEntryEndsIt` | controllers/schedulingdecision_controller.go:246-251 | with whole-second submissions a single further entry is enough for it not to be last |
| `Recording.AtMostOneEntryPerCall` | controllers/schedulingdecision_controller.go:234-257 | a failed call wrote nothing in its loop, a successful one at most the version it reports |
| `Recording.NoDuplicates` | controllers/schedulingdecision_controller.go:246-248 | with whole-second submissions no history in any reachable version holds two equal neighbours, under any race and staleness |
| `Recording.UpdateDuplicatesIff` | controllers/schedulingdecision_controller.go:246-251 | an update leaves two equal neighbours where there were none exactly when its transition as stored repeats the entry it was appended to, which takes a fraction of a second |
| `Recording.ObjectsAreConsistent` | controllers/schedulingdecision_controller.go:185-200 | in every version name, pod-uid label and spec UID agree and determine each other, the expiry label is that of the record's stamp, the latest fields mirror the last entry, and only Scheduled names a node |
| `Recording.CheckDecides` | controllers/schedulingdecision_controller.go:177-185 | a reconcile sets out to create the record exactly when the version its cache serves lacks it, and takes the clock reading for the expiry then |
| `Recording.CreationEndsWithTheRecord` | controllers/schedulingdecision_controller.go:196-216 | after the Create the object exists whichever worker won; the loser changes nothing, and the winner's record carries its identity, its volume context, an empty status and a clock reading taken during its reconcile |
| `Invariants.NextKeepsInv` | controllers/schedulingdecision_controller.go:156-257 | every step of every process keeps the store, worker and history invariants |
| `Budget.FailureIsAccountedFor` | controllers/schedulingdecision_controller.go:237-256 | however stale the reads: each attempt lost at the update is charged to a distinct edit by another process or to a stale read; if the object was there throughout, running out of attempts took at least as many status updates by other workers and stale reads together as there are attempts, and NotFound took a stale read |
| `Budget.RivalEditsAreCounted` | controllers/schedulingdecision_controller.go:237-256 | the edits a lost attempt is charged to are counted one by one: the versions in which another process wrote this name |
| `Budget.FailureNeedsRivals` | controllers/schedulingdecision_controller.go:237-256 | so with fresh reads, and the object there throughout, running out of attempts is a Conflict and took at least as many status updates by other workers as there are attempts |
| `Budget.StaleReadsSpendTheBudget` | controllers/schedulingdecision_controller.go:225-233 | in any run, reads of a version without the object, which is there, spend all attempts a call has left on NotFound while the store never changes; each is one of the stale reads accounted for |
| `Budget.BudgetIsSpentAlone` | controllers/schedulingdecision_controller.go:225-233 | for every scheduled pod and every budget a run from the empty store in which that happens although nobody else touches the record |
| `Budget.CallsEnd` | controllers/schedulingdecision_controller.go:240-256 | in any run a reconcile makes at most 2 * attempts + 2 moves after it derived its transition, whatever the others do, and then stays done |
| `Retention.RetentionIsSafe` | cmd/sweep/main.go:63-97 | with the sweep as the only deleter, a record disappears only after its creation clock reading plus the window minus one second |
| `Retention.SweepTakesListedIff` | cmd/sweep/main.go:83-87 | in every run, whoever else deletes: the sweep's deletion takes the listed incarnation exactly when nothing else deleted the name since the list, and then not earlier than its stamp plus the window minus one second |
| `Retention.SweepHitsWhatItListed` | cmd/sweep/main.go:83-87 | the name-only delete meets the incarnation and labels that were listed exactly when nothing else deleted the name since the list; if they were judged expired it is then not early |
| `Retention.SoleDeleterIsNeeded` | config/manager/sweep_cronjob.yaml:15 | for every scheduled pod a run from the empty store with one other deletion in which the sweep deletes a record at the very instant of its stamp |
| `Labels.FormatRoundTrip` | cmd/sweep/main.go:111-114 | parsing a formatted integer returns it exactly when it fits in 64 bits, and an error otherwise |
| `Labels.ParseRoundTrip` | cmd/sweep/main.go:111-114 | canonical decimal text that parses is what formatting its value gives |
| `Labels.ParseIntIff` | cmd/sweep/main.go:111-114 | for every text: it parses to a number exactly when it is one optional sign and at least one digit, nothing else, with that decimal value within 64 bits |
| `Labels.ExpiryOfAnyLabels` | cmd/sweep/main.go:105-117 | for every set of labels: expired exactly from the second on that a readable expiry label carries, and neither expired nor unexpired without one |
| `Labels.ExpiryIsExact` | cmd/sweep/main.go:105-117 | a record stamped at t with window W is expired at now exactly when now is at or after t + W truncated to the second |
| `Labels.ExpiryBounds` | controllers/schedulingdecision_controller.go:185-191 | never expired up to t + W - 1s, always from t + W on, monotone in now |
| `Labels.ExpiryCanBeEarly` | controllers/schedulingdecision_controller.go:185 | a record expires exactly at the start of the second its window ends in, so it can be expired early exactly when the window does not end on a whole second |
| `Labels.RetentionWindow` | controllers/schedulingdecision_controller.go:98-103 | the effective window is positive and is 72 hours whenever the configured one is not |
| `SweepPass.Sweep` | cmd/sweep/main.go:63-97 | over any store, amid other processes: every record is listed; skipped, failed and deleted are the numbers of records that are unreadable, expired with a failed delete, and expired without, and add up with the unexpired ones to the list; the exit code is nonzero exactly when an expired record's delete failed; a record counted as deleted is gone whoever else deletes, and when nobody else does a record survives exactly when it is unreadable, unexpired or its delete failed; the pass is a run of the protocol from before the clock is read to after the last record, and keeps its invariants |
| `SweepPass.SweepOne` | cmd/sweep/main.go:73-88 | one iteration: an unreadable record is skipped, an unexpired one left, an expired one counted as failed or deleted by whether its delete failed, and only then is it gone |
| `SweepPass.InvIsNumbered` | cmd/sweep/main.go:63-67 | every state with the protocol's invariants is one a pass can start from |
| `SweepPass.SkippedIffUnreadable` | cmd/sweep/main.go:74-77 | a listed record is skipped exactly when it has no expiry label that reads as a 64-bit decimal number |
| `SweepPass.TalliesAddUp` | cmd/sweep/main.go:91-92 | deleted, skipped, failed and unexpired partition any list under any pattern of failures |
| `Sequential.SoloRecords` | controllers/schedulingdecision_controller.go:120-165 | an undisturbed reconcile is acknowledged, records its transition on its own object, touches no other, and leaves the store unchanged when the history does not change |
| `Sequential.ReconcileConverges` | controllers/schedulingdecision_controller.go:120-165 | from any reachable store the derived transition, as stored, ends up last |
| `Sequential.SecondReconcileIsQuietIff` | controllers/schedulingdecision_controller.go:246-251 | a second reconcile leaves the store unchanged exactly when it derives what the first one stored |
| `Sequential.ReconcileIsIdempotentIff` | controllers/schedulingdecision_controller.go:219-223 | for all inputs: reconciling twice is idempotent exactly when the timestamp is whole and, if the derivation read the clock, the clock has not moved; otherwise the history gets one more entry, equal to its neighbour when of the same second |
| `Sequential.FractionIsRecordedTwice` | controllers/decision.go:282-284 | a run from the empty store, with an event dated only by its event time, in which the history gets two equal neighbours |
| `Sequential.ClockReadingIsRecordedAnew` | controllers/decision.go:291-299 | a run from the empty store, with a condition that carries no time, in which the second reconcile of the same inputs adds an entry |
| `Sequential.StaleAcknowledgement` | controllers/schedulingdecision_controller.go:246-248 | a reconcile both of whose reads come from one earlier version is acknowledged although another transition is last |
| `Sequential.StaleAcknowledgementIsReached` | controllers/schedulingdecision_controller.go:246-248 | a run from the empty store in which that happens |
| `Sequential.RecordingKeepsChanges` | controllers/schedulingdecision_controller.go:246-251 | recording any sequence of observations of a pod leaves exactly those that differ from the previous one as stored, in order, each with everything it had, the timestamp to the second |
| `Model.TransitionsEqual` | controllers/decision.go:200-205 | two transitions are equal exactly when they agree up to latency, candidate nodes and source event |
| `Model.StoringKeeps` | controllers/decision.go:185-189 | storing a transition keeps its outcome, node, reason, latency, candidate nodes and source event, and of its timestamp the second |
| `Sequential.RecordingRemovesStutter` | controllers/decision.go:196-205 | for whole-second observations the history is the observed sequence with each run of equal neighbours collapsed to its first member |
| `Reconciler.StatusRecord.ApplyTransition` | controllers/decision.go:185-194 | the status changed in place has the transition appended and mirrored |
| `Reconciler.EnsureDecisionCreated` | controllers/schedulingdecision_controller.go:174-217 | every execution, under any interference, is a run of the protocol ending at the retry loop or with the error returned |
| `Reconciler.SendAppended` | controllers/schedulingdecision_controller.go:250-251 | appending to what was read and sending it is the protocol's update step, with the same result |
| `Reconciler.Attempt` | controllers/schedulingdecision_controller.go:240-252 | one attempt is a run of the protocol; it ends acknowledged, failed for good, or with one attempt fewer; undisturbed and fresh it succeeds |
| `Reconciler.AppendTransitionWithRetry` | controllers/schedulingdecision_controller.go:234-257 | the loop is a run of the protocol that returns nil exactly when acknowledged and otherwise the last error |
| `Reconciler.RecordTransition` | controllers/schedulingdecision_controller.go:156-165 | both halves together, and what they do when undisturbed |
| `Reconciler.Reconcile` | controllers/schedulingdecision_controller.go:120-149 | from a state with the invariants: does nothing when nothing is derived, otherwise is a run of the protocol, keeps the invariants, and on success the store holds the derived transition; a record it creates describes the pod, with the volume context given if the pod was found and none otherwise; undisturbed it is the sequential reconcile |
| `Derivation.LatestEventWithReason` | controllers/decision.go:236-247 | the loop computes the scan's specification |
| `Derivation.LatestEventIsFirstNewest` | controllers/decision.go:236-247 | the scan returns the unique first of the newest events with the reason, and nothing exactly when there is none |
| `Derivation.LatestEventOfReordering` | controllers/decision.go:236-247 | permuting the events keeps presence and timestamp of the result, and the event itself unless there are ties |
| `Derivation.OutcomeIffEvidence` | controllers/decision.go:54-107 | for each outcome, the exact evidence under which it is derived, in priority order |
| `Derivation.DerivedQuotesNewest` | controllers/decision.go:118-168 | what every derived transition takes over: identifier, text and timestamp from the first newest event of its own outcome, from the pod's condition where that settled it, from the clock where neither has a time; its node and its latency; its candidates from the first newest CandidateNodes event, and none without such an event |
| `Derivation.DerivationIsMonotone` | controllers/decision.go:54-107 | as events arrive, in any order and at any time, the outcome's rank never decreases and a derivation never becomes unavailable; the top rank means a Preempted event is present |
| `Derivation.DerivationOfReordering` | controllers/decision.go:54-107 | reordering events keeps availability, outcome, node and timestamp |
| `Derivation.DerivationWithoutTies` | controllers/decision.go:54-107 | without timestamp ties reordering changes nothing |
| `Derivation.DerivationIsStableIff` | controllers/decision.go:291-299 | the derivation is the same at all times exactly when it does not fall back to the wall clock |
| `Derivation.DerivedIsWellFormed` | controllers/decision.go:118-168 | every derived transition has an outcome and only Scheduled names a node |
| `Derivation.DerivedIdentity` | controllers/decision.go:109-135 | uid, name and namespace are the live pod's, or those of the first newest Preempted event's object; the scheduler is the one the quoted event names, or else the one the live pod asks for |
| `Derivation.FirstPodScheduledIsFirst` | controllers/decision.go:227-234 | the condition found is the first PodScheduled one, and none is found exactly when there is none |
| `Derivation.PodScheduledCondition` | controllers/decision.go:227-234 | the loop returns that condition |
| `Derivation.EventTimestamp` | controllers/decision.go:278-286 | the last timestamp if set, else the event time if set, else the creation time; zero only when none is set |
| `Derivation.LatencyMs` | controllers/decision.go:324-329 | whole elapsed milliseconds, zero when the end precedes the start |
| `Derivation.LatencyOfSeconds` | controllers/decision.go:324-329 | n seconds are 1000 n milliseconds |
| `EventIndex.ListRelevantEvents` | controllers/schedulingdecision_controller.go:262-280 | the loop keeps the relevant events of the index-backed list, in order |
| `EventIndex.IndexKeyIsInjective` | controllers/schedulingdecision_controller.go:285-290 | for slash-free namespaces the index key determines namespace and name |
| `EventIndex.IndexAgreesIff` | controllers/schedulingdecision_controller.go:262-292 | the index-backed list equals a brute-force scan exactly when no relevant event of another pod is filed under the key |
| `EventIndex.IndexAgreesWithScan` | controllers/schedulingdecision_controller.go:262-292 | which is so whenever namespaces hold no slash |
| `EventIndex.KeysCollideIff` | controllers/schedulingdecision_controller.go:290 | two keys of namespaces of different length are equal exactly when the longer namespace is the shorter one continued behind a slash and the names make up for it |
| `EventIndex.WakeUpFindsItsEvent` | controllers/schedulingdecision_controller.go:311-335 | an event the watch accepts is found by the reconcile it wakes exactly when it lives in its pod's namespace |
| `EventIndex.FilterKeepsDerivation` | controllers/schedulingdecision_controller.go:273-279 | dropping irrelevant events does not change what is derived |
| `EventIndex.RelevantIffItCanMatter` | controllers/schedulingdecision_controller.go:73-78 | the relevant reasons are exactly those of which some event can change what is derived |
| `Candidates.ParseCandidateNodes` | controllers/decision.go:257-276 | the loop computes the parser's specification |
| `Candidates.MessageRoundTrip` | cmd/extender/main.go:169 | parsing the joined message returns the list exactly when every name is nonempty, comma-free and trimmed |
| `Candidates.ParsedNamesAreClean` | controllers/decision.go:263-271 | for every message the parsed names are nonempty, comma-free and trimmed |
| `Candidates.ParseJoinParse` | controllers/decision.go:257-276 | parse, join, parse equals parse for every message |
| `Candidates.ParseOfJoined` | controllers/decision.go:257-276 | a comma separates: the two sides are parsed for themselves |
| `Candidates.ParseOfPadded` | controllers/decision.go:263-271 | spaces around a name are dropped and the name is kept |
| `Candidates.ParseOfBlank` | controllers/decision.go:263-271 | a message of spaces names nothing |
| `Candidates.SpacesAre` | controllers/decision.go:265 | the characters that are trimmed, one by one |
| `Candidates.JoinOfConcat` | cmd/extender/main.go:169 | the message has the names with a single comma between any two |
| `Extender.Filter` | cmd/extender/main.go:96-176 | every node is passed through whatever becomes of the event; one event is recorded exactly for a pod with candidates when the Create succeeds; it is about this pod, in its namespace, dated to the second, lists in order the names of the nodes the scheduler gets back, and reads back as these exactly when they are clean |
| `Extender.ListIsUsedIff` | controllers/decision.go:236-261 | wherever a recorded list stands among the events, it is the one used exactly when those before it are older, to the second, and those behind it are not newer |
| `Extender.AppendedListIsUsedIff` | controllers/decision.go:236-261 | a list that comes last is used exactly when it is strictly newest, and otherwise changes nothing |
| `Extender.CandidatesReachTheTransition` | cmd/extender/main.go:155-176 | for any events: a recorded list wakes its pod's reconcile and is indexed under its key; it comes out in the transition as it was offered exactly when its names are clean if it is the newest, and has no influence if it is not or the pod was preempted |
| `Extender.SameSecondKeepsTheFirst` | controllers/decision.go:242 | among any events, a list of the same second as one already there, or an earlier one, is not used |
| `Dashboard.RenderStats` | cmd/dashboard/static/index.html:268-286 | the cards are the sizes of the sets of decisions with each outcome, and the average of positive Scheduled latencies rounded half up, zero when there are none |
| `Dashboard.RenderHeatmap` | cmd/dashboard/static/index.html:293-315 | each cell of the nested map is the size of the set of Scheduled decisions with that scheduler and node, with the stand-ins for empty names; the cells add up to the Scheduled card; the maximum bounds every cell and is attained unless it is one |
| `Dashboard.HeatmapConservesScheduled` | cmd/dashboard/static/index.html:297-303 | for any covering rows and columns the cells sum to the Scheduled count |
| `Dashboard.GroupLatencies` | cmd/dashboard/static/index.html:340-351 | one bar for each scheduler with a Scheduled decision of positive latency, at its average rounded half up |
| `Dashboard.LatenciesAddUp` | cmd/dashboard/static/index.html:268-278 | per-scheduler sums and counts add up to the card's |
| `Dashboard.LatenciesOfParts` | cmd/dashboard/static/index.html:340-348 | sums and counts of latencies, and a scheduler's decisions, are those of the parts of the list |
| `Dashboard.LatencyOfOne` | cmd/dashboard/static/index.html:340-348 | one decision counts with its latency exactly when it is Scheduled and the latency is positive, for its scheduler or the stand-in |
| `Dashboard.RoundDivAtLeast` | cmd/dashboard/static/index.html:278 | the rounding is to the nearest integer, halves up |
| `Dashboard.CardLiesBetweenBars` | cmd/dashboard/static/index.html:278 | the card's rounded average lies between the smallest and largest rounded per-scheduler averages |
| `Dashboard.RenderLatencyChart` | cmd/dashboard/static/index.html:339-365 | the chart is a permutation of the bars, longest first, equal ones in their order, with widths that are the percentages of the longest rounded half up and raised to 4, in [4,100], non-increasing, the first full |

## Left out

- Volume context resolution (controllers/volumecontext.go): an opaque value that may be missing.
- Manager, flags, metrics, TLS, leader election, HTTP and JSON handling, RBAC and deployment manifests.
- Candidate nodes' filterResult and score, and sourceRef.auditRequestID: no component fills them in.
- Objects put into the store by anything but the recorder, in runs of the protocol from the empty
  store; `SweepPass.Sweep` starts from any store, whoever filled it.
- A failing List of the sweep, which then exits before deleting anything.
- A failing call that nevertheless took effect on the server (a lost response).
- Errors of the pod Get and the event List at the start of a reconcile: it returns before any write.
- Saturation of durations and overflow of instants in 64 bits; clock skew between manager and sweep.
- Invalid UTF-8 in messages: strings are sequences of Unicode characters.
- Inherited properties of the dashboard's plain objects: a scheduler or node named like one of them
  ("constructor") spoils the counts on the page; the model's maps hold only what was put into them.
- Order of the heatmap's rows and columns, HTML, filters and age formatting; averages and bar widths
  are exact quotients instead of floating-point ones.
- Event deletion by its time-to-live, and events of an earlier pod of the same name: they are found
  by namespace and name, as in the code, and nothing is claimed to exclude them.
- Recording.NoDuplicates: assumes whole-second submissions; Recording.UpdateDuplicatesIff says of each
  update, without that assumption, exactly when it leaves a duplicate.
