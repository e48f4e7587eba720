/** What a pod and its events say about the pod's latest scheduling outcome. */
module Derivation {
  import opened Clock
  import opened Model
  import opened Candidates

  const REASON_SCHEDULED := "Scheduled"
  const REASON_FAILED := "FailedScheduling"
  const REASON_PREEMPTED := "Preempted"
  const REASON_CANDIDATES := "CandidateNodes"
  const POD_SCHEDULED := "PodScheduled"

  datatype Derived = Derived(identity: Identity, transition: Transition)

  // ----- timestamps and text -----

  /** Zero only for an event that carries no time at all. */
  function EventTimestamp(e: Event): (ts: Time)
    ensures ts == ZERO_TIME <==> e.lastTimestamp == e.eventTime == e.creationTimestamp == ZERO_TIME
    ensures e.lastTimestamp != ZERO_TIME ==> ts == e.lastTimestamp
    ensures e.lastTimestamp == ZERO_TIME && e.eventTime != ZERO_TIME ==> ts == e.eventTime
    ensures e.lastTimestamp == e.eventTime == ZERO_TIME ==> ts == e.creationTimestamp
  {
    if e.lastTimestamp != ZERO_TIME then e.lastTimestamp
    else if e.eventTime != ZERO_TIME then e.eventTime
    else e.creationTimestamp
  }

  function DecisionTimestamp(cond: Option<Condition>, event: Option<Event>, now: Time): Time {
    if cond.Some? && cond.value.lastTransitionTime != ZERO_TIME then cond.value.lastTransitionTime
    else if event.Some? then EventTimestamp(event.value)
    else now
  }

  /** Whole milliseconds elapsed; none when the end is dated before the start. */
  function LatencyMs(start: Time, end: Time): (ms: int)
    ensures end < start ==> ms == 0
    ensures start <= end ==> ms >= 0 && 0 <= end - start - ms * MILLISECOND < MILLISECOND
  {
    if end < start then 0 else (end - start) / MILLISECOND
  }

  /** A second is a thousand milliseconds. */
  lemma LatencyOfSeconds(start: Time, n: nat)
    ensures LatencyMs(start, start + n * SECOND) == 1000 * n
  {
  }

  function ReasonSummary(cond: Option<Condition>, event: Option<Event>): string {
    if cond.Some? && cond.value.message != "" then cond.value.message
    else if event.Some? then event.value.message
    else ""
  }

  function SchedulerNameFor(event: Option<Event>, pod: Option<Pod>): string {
    if event.Some? && event.value.reportingController != "" then event.value.reportingController
    else if event.Some? && event.value.sourceComponent != "" then event.value.sourceComponent
    else if pod.Some? then pod.value.schedulerName
    else ""
  }

  // ----- scans -----

  /** The scan for the newest event with a reason: a later one wins only when strictly newer. */
  function LatestEvent(events: seq<Event>, reason: string): Option<Event> {
    if events == [] then None
    else
      var latest := LatestEvent(events[..|events| - 1], reason);
      var e := events[|events| - 1];
      if e.reason == reason && (latest.None? || EventTimestamp(e) > EventTimestamp(latest.value)) then Some(e)
      else latest
  }

  function FirstPodScheduled(conditions: seq<Condition>): Option<Condition> {
    if conditions == [] then None
    else if conditions[0].conditionType == POD_SCHEDULED then Some(conditions[0])
    else FirstPodScheduled(conditions[1..])
  }

  function CandidateNodesFrom(events: seq<Event>): seq<string> {
    var e := LatestEvent(events, REASON_CANDIDATES);
    if e.None? then [] else ParseNames(e.value.message)
  }

  // ----- derivation -----

  function IdentityFromPod(pod: Pod, event: Option<Event>): Identity {
    Identity(pod.uid, pod.name, pod.namespace, SchedulerNameFor(event, Some(pod)))
  }

  function FromPreemption(pod: Option<Pod>, event: Event): Derived {
    var ts := EventTimestamp(event);
    var scheduler := SchedulerNameFor(Some(event), pod);
    var identity :=
      if pod.Some? then Identity(pod.value.uid, pod.value.name, pod.value.namespace, scheduler)
      else Identity(event.involved.uid, event.involved.name, event.involved.namespace, scheduler);
    var latency := if pod.Some? then LatencyMs(pod.value.creationTimestamp, ts) else 0;
    Derived(identity, Transition(Preempted, "", event.message, ts, latency, [], event.uid))
  }

  function FromAttempt(
    pod: Pod, outcome: Outcome, cond: Option<Condition>, event: Option<Event>, nodes: seq<string>, now: Time): Derived
  {
    var ts := DecisionTimestamp(cond, event, now);
    Derived(
      IdentityFromPod(pod, event),
      Transition(
        outcome, if outcome == Scheduled then pod.nodeName else "", ReasonSummary(cond, event), ts,
        LatencyMs(pod.creationTimestamp, ts), nodes, if event.Some? then event.value.uid else ""))
  }

  /** `None` when there is not yet enough information; `pod` is `None` when the pod is gone. */
  function DeriveTransition(pod: Option<Pod>, events: seq<Event>, now: Time): Option<Derived> {
    var preempted := LatestEvent(events, REASON_PREEMPTED);
    if preempted.Some? then Some(FromPreemption(pod, preempted.value))
    else if pod.None? then None
    else
      var p := pod.value;
      var nodes := CandidateNodesFrom(events);
      var cond := FirstPodScheduled(p.conditions);
      var scheduled := LatestEvent(events, REASON_SCHEDULED);
      var failed := LatestEvent(events, REASON_FAILED);
      if cond.Some? && cond.value.status.ConditionTrue? then
        Some(FromAttempt(p, Scheduled, cond, scheduled, nodes, now))
      else if cond.Some? && cond.value.status.ConditionFalse? && cond.value.reason == "Unschedulable" then
        Some(FromAttempt(p, FailedScheduling, cond, failed, nodes, now))
      else if scheduled.Some? then Some(FromAttempt(p, Scheduled, None, scheduled, nodes, now))
      else if failed.Some? then Some(FromAttempt(p, FailedScheduling, None, failed, nodes, now))
      else None
  }

  // ----- the loops -----

  method LatestEventWithReason(events: seq<Event>, reason: string) returns (latest: Option<Event>)
    ensures latest == LatestEvent(events, reason)
  {
    latest := None;
    for i := 0 to |events|
      invariant latest == LatestEvent(events[..i], reason)
    {
      assert events[..i + 1][..i] == events[..i];
      if events[i].reason != reason {
        continue;
      }
      if latest.None? || EventTimestamp(events[i]) > EventTimestamp(latest.value) {
        latest := Some(events[i]);
      }
    }
    assert events[..|events|] == events;
  }

  method PodScheduledCondition(conditions: seq<Condition>) returns (cond: Option<Condition>)
    ensures cond == FirstPodScheduled(conditions)
    ensures cond.None? <==> forall i :: 0 <= i < |conditions| ==> conditions[i].conditionType != POD_SCHEDULED
    ensures cond.Some? ==> exists i :: IsFirstPodScheduled(conditions, i) && cond.value == conditions[i]
  {
    FirstPodScheduledIsFirst(conditions);
    for i := 0 to |conditions|
      invariant FirstPodScheduled(conditions) == FirstPodScheduled(conditions[i..])
    {
      assert conditions[i..][1..] == conditions[i + 1..];
      if conditions[i].conditionType == POD_SCHEDULED {
        return Some(conditions[i]);
      }
    }
    return None;
  }

  // ----- the scans' meaning -----

  /** Position i holds the first PodScheduled condition. */
  predicate IsFirstPodScheduled(conditions: seq<Condition>, i: int) {
    && 0 <= i < |conditions|
    && conditions[i].conditionType == POD_SCHEDULED
    && (forall j :: 0 <= j < i ==> conditions[j].conditionType != POD_SCHEDULED)
  }

  /** The condition found is the first PodScheduled one, and none is found exactly when there is none. */
  lemma {:induction false} FirstPodScheduledIsFirst(conditions: seq<Condition>)
    ensures FirstPodScheduled(conditions).None? <==>
            forall i :: 0 <= i < |conditions| ==> conditions[i].conditionType != POD_SCHEDULED
    ensures FirstPodScheduled(conditions).Some? ==>
              exists i :: IsFirstPodScheduled(conditions, i) && FirstPodScheduled(conditions).value == conditions[i]
  {
    if conditions != [] {
      var rest := conditions[1..];
      FirstPodScheduledIsFirst(rest);
      if conditions[0].conditionType == POD_SCHEDULED {
        assert IsFirstPodScheduled(conditions, 0);
      } else if FirstPodScheduled(rest).Some? {
        var i :| IsFirstPodScheduled(rest, i) && FirstPodScheduled(rest).value == rest[i];
        assert rest[i] == conditions[i + 1];
        assert IsFirstPodScheduled(conditions, i + 1);
      } else {
        forall i | 0 <= i < |conditions| ensures conditions[i].conditionType != POD_SCHEDULED {
          assert i > 0 ==> conditions[i] == rest[i - 1];
        }
      }
    }
  }

  predicate HasReason(events: seq<Event>, reason: string) {
    exists i :: 0 <= i < |events| && events[i].reason == reason
  }

  /** Position i holds the first of the newest events with the reason. */
  predicate IsFirstNewest(events: seq<Event>, reason: string, i: int) {
    && 0 <= i < |events|
    && events[i].reason == reason
    && (forall j :: 0 <= j < |events| && events[j].reason == reason ==>
          EventTimestamp(events[j]) <= EventTimestamp(events[i]))
    && (forall j :: 0 <= j < i && events[j].reason == reason ==>
          EventTimestamp(events[j]) < EventTimestamp(events[i]))
  }

  lemma {:induction false} LatestOfOneMore(events: seq<Event>, e: Event, reason: string)
    ensures LatestEvent(events + [e], reason)
            == var latest := LatestEvent(events, reason);
               if e.reason == reason && (latest.None? || EventTimestamp(e) > EventTimestamp(latest.value)) then Some(e)
               else latest
  {
    assert (events + [e])[..|events|] == events;
  }

  lemma {:induction false} NewestIndex(events: seq<Event>, reason: string) returns (i: nat)
    requires HasReason(events, reason)
    ensures IsFirstNewest(events, reason, i) && LatestEvent(events, reason) == Some(events[i])
  {
    var n := |events| - 1;
    var init := events[..n];
    if HasReason(init, reason) {
      i := NewestIndex(init, reason);
      if LatestEvent(events, reason) != LatestEvent(init, reason) {
        i := n;
      }
    } else {
      NoneWithoutReason(init, reason);
      i := n;
    }
  }

  lemma {:induction false} NoneWithoutReason(events: seq<Event>, reason: string)
    requires !HasReason(events, reason)
    ensures LatestEvent(events, reason).None?
  {
    if events != [] {
      NoneWithoutReason(events[..|events| - 1], reason);
    }
  }

  /** The scan returns nothing exactly when no event has the reason, and otherwise the one
      event that is the first of the newest. */
  lemma {:induction false} LatestEventIsFirstNewest(events: seq<Event>, reason: string)
    ensures LatestEvent(events, reason).None? <==> !HasReason(events, reason)
    ensures HasReason(events, reason) ==> exists i :: IsFirstNewest(events, reason, i)
    ensures forall i :: IsFirstNewest(events, reason, i) ==> LatestEvent(events, reason) == Some(events[i])
  {
    if HasReason(events, reason) {
      var k := NewestIndex(events, reason);
      forall i | IsFirstNewest(events, reason, i) ensures i == k {
        assert EventTimestamp(events[i]) == EventTimestamp(events[k]);
      }
    } else {
      NoneWithoutReason(events, reason);
    }
  }

  /** Every event of `fewer` has arrived in `more`, in any order and among any others. */
  predicate Arrived(fewer: seq<Event>, more: seq<Event>) {
    forall i :: 0 <= i < |fewer| ==> fewer[i] in more
  }

  /** More events never lose the newest one, nor make it older. */
  lemma {:induction false} LatestEventIsMonotone(fewer: seq<Event>, more: seq<Event>, reason: string)
    requires Arrived(fewer, more)
    ensures LatestEvent(fewer, reason).Some? ==>
              && LatestEvent(more, reason).Some?
              && EventTimestamp(LatestEvent(fewer, reason).value) <= EventTimestamp(LatestEvent(more, reason).value)
  {
    if HasReason(fewer, reason) {
      var i := NewestIndex(fewer, reason);
      var j :| 0 <= j < |more| && more[j] == fewer[i];
      var k := NewestIndex(more, reason);
    } else {
      NoneWithoutReason(fewer, reason);
    }
  }

  /** Different events with the reason have different timestamps. */
  predicate NoTies(events: seq<Event>, reason: string) {
    forall i, j :: 0 <= i < |events| && 0 <= j < |events| && events[i].reason == events[j].reason == reason
      ==> EventTimestamp(events[i]) == EventTimestamp(events[j]) ==> events[i] == events[j]
  }

  predicate Reordered(events: seq<Event>, other: seq<Event>) {
    multiset(events) == multiset(other)
  }

  lemma ReorderedArrived(events: seq<Event>, other: seq<Event>)
    requires Reordered(events, other)
    ensures Arrived(events, other) && Arrived(other, events)
  {
    forall i | 0 <= i < |events| ensures events[i] in other { assert events[i] in multiset(events); }
    forall i | 0 <= i < |other| ensures other[i] in events { assert other[i] in multiset(other); }
  }

  /** Reordering the events leaves the timestamp of the newest one as it was, and the event
      too unless another of the same reason ties with it. */
  lemma {:induction false} LatestEventOfReordering(events: seq<Event>, other: seq<Event>, reason: string)
    requires Reordered(events, other)
    ensures SameNewest(events, other, reason)
    ensures NoTies(events, reason) ==> LatestEvent(events, reason) == LatestEvent(other, reason)
  {
    ReorderedArrived(events, other);
    LatestEventIsMonotone(events, other, reason);
    LatestEventIsMonotone(other, events, reason);
    if NoTies(events, reason) && LatestEvent(events, reason).Some? {
      LatestEventIsFirstNewest(events, reason);
      LatestEventIsFirstNewest(other, reason);
      var i := NewestIndex(events, reason);
      var j := NewestIndex(other, reason);
      var k :| 0 <= k < |events| && events[k] == other[j];
    }
  }

  // ----- stability of the derivation -----

  function Rank(derived: Option<Derived>): int {
    if derived.None? then 0
    else match derived.value.transition.outcome
      case FailedScheduling => 1
      case Scheduled => 2
      case Preempted => 3
      case NoOutcome => 0
  }

  /** As events arrive for a fixed state of the pod the outcome only moves up, whatever their
      order and whenever it is derived; Preempted is derived exactly when such an event is there. */
  lemma DerivationIsMonotone(pod: Option<Pod>, fewer: seq<Event>, more: seq<Event>, now: Time, later: Time)
    requires Arrived(fewer, more)
    ensures Rank(DeriveTransition(pod, fewer, now)) <= Rank(DeriveTransition(pod, more, later))
    ensures DeriveTransition(pod, fewer, now).Some? ==> DeriveTransition(pod, more, later).Some?
    ensures Rank(DeriveTransition(pod, more, later)) == 3 <==> HasReason(more, REASON_PREEMPTED)
  {
    LatestEventIsMonotone(fewer, more, REASON_PREEMPTED);
    LatestEventIsMonotone(fewer, more, REASON_SCHEDULED);
    LatestEventIsMonotone(fewer, more, REASON_FAILED);
    LatestEventIsFirstNewest(more, REASON_PREEMPTED);
  }

  /** What the outcome, node and timestamp of a derivation depend on: presence and time of the
      newest events. */
  lemma DerivationDependsOnNewest(pod: Option<Pod>, events: seq<Event>, other: seq<Event>, now: Time)
    requires SameNewest(events, other, REASON_PREEMPTED)
    requires SameNewest(events, other, REASON_SCHEDULED)
    requires SameNewest(events, other, REASON_FAILED)
    ensures var a, b := DeriveTransition(pod, events, now), DeriveTransition(pod, other, now);
            && a.Some? == b.Some?
            && (a.Some? ==>
                  && a.value.transition.outcome == b.value.transition.outcome
                  && a.value.transition.chosenNode == b.value.transition.chosenNode
                  && a.value.transition.decisionTimestamp == b.value.transition.decisionTimestamp)
  {
  }

  predicate SameNewest(events: seq<Event>, other: seq<Event>, reason: string) {
    var a, b := LatestEvent(events, reason), LatestEvent(other, reason);
    a.Some? == b.Some? && (a.Some? ==> EventTimestamp(a.value) == EventTimestamp(b.value))
  }

  /** Reordering the events changes neither whether something is derived, nor its outcome,
      node and timestamp. */
  lemma DerivationOfReordering(pod: Option<Pod>, events: seq<Event>, other: seq<Event>, now: Time)
    requires Reordered(events, other)
    ensures var a, b := DeriveTransition(pod, events, now), DeriveTransition(pod, other, now);
            && a.Some? == b.Some?
            && (a.Some? ==>
                  && a.value.transition.outcome == b.value.transition.outcome
                  && a.value.transition.chosenNode == b.value.transition.chosenNode
                  && a.value.transition.decisionTimestamp == b.value.transition.decisionTimestamp)
  {
    LatestEventOfReordering(events, other, REASON_PREEMPTED);
    LatestEventOfReordering(events, other, REASON_SCHEDULED);
    LatestEventOfReordering(events, other, REASON_FAILED);
    DerivationDependsOnNewest(pod, events, other, now);
  }

  /** Without ties a reordering changes nothing at all. */
  lemma DerivationWithoutTies(pod: Option<Pod>, events: seq<Event>, other: seq<Event>, now: Time)
    requires Reordered(events, other)
    requires NoTies(events, REASON_PREEMPTED) && NoTies(events, REASON_SCHEDULED)
    requires NoTies(events, REASON_FAILED) && NoTies(events, REASON_CANDIDATES)
    ensures DeriveTransition(pod, events, now) == DeriveTransition(pod, other, now)
  {
    LatestEventOfReordering(events, other, REASON_PREEMPTED);
    LatestEventOfReordering(events, other, REASON_SCHEDULED);
    LatestEventOfReordering(events, other, REASON_FAILED);
    LatestEventOfReordering(events, other, REASON_CANDIDATES);
  }

  /** The wall clock decides the timestamp: a live, unpreempted pod whose condition is
      conclusive but carries no time, and no event of the matching reason. */
  predicate ReadsClock(pod: Option<Pod>, events: seq<Event>) {
    && !HasReason(events, REASON_PREEMPTED)
    && pod.Some?
    && var cond := FirstPodScheduled(pod.value.conditions);
       && cond.Some?
       && cond.value.lastTransitionTime == ZERO_TIME
       && (|| (cond.value.status.ConditionTrue? && !HasReason(events, REASON_SCHEDULED))
           || (cond.value.status.ConditionFalse? && cond.value.reason == "Unschedulable"
               && !HasReason(events, REASON_FAILED)))
  }

  /** Two derivations from the same inputs agree at all times exactly when the clock is not read. */
  lemma DerivationIsStableIff(pod: Option<Pod>, events: seq<Event>)
    ensures (forall t, u :: DeriveTransition(pod, events, t) == DeriveTransition(pod, events, u))
            <==> !ReadsClock(pod, events)
  {
    LatestEventIsFirstNewest(events, REASON_PREEMPTED);
    LatestEventIsFirstNewest(events, REASON_SCHEDULED);
    LatestEventIsFirstNewest(events, REASON_FAILED);
    if ReadsClock(pod, events) {
      assert DeriveTransition(pod, events, 0).value.transition.decisionTimestamp == 0;
      assert DeriveTransition(pod, events, 1).value.transition.decisionTimestamp == 1;
    }
  }

  /** Up to the timestamp. */
  predicate SameObservation(t: Transition, u: Transition) {
    t.outcome == u.outcome && t.chosenNode == u.chosenNode && t.reasonSummary == u.reasonSummary
  }

  /** b repeats what a observed, about the same pod, with a timestamp so much later. */
  predicate Rederived(a: Option<Derived>, b: Option<Derived>, later: int) {
    && a.Some? == b.Some?
    && (a.Some? ==>
          && a.value.identity == b.value.identity
          && SameObservation(a.value.transition, b.value.transition)
          && b.value.transition.decisionTimestamp == a.value.transition.decisionTimestamp + later)
  }

  /** The pod's own condition settles the outcome. */
  predicate SaysScheduled(pod: Pod) {
    var cond := FirstPodScheduled(pod.conditions);
    cond.Some? && cond.value.status.ConditionTrue?
  }

  predicate SaysUnschedulable(pod: Pod) {
    var cond := FirstPodScheduled(pod.conditions);
    cond.Some? && cond.value.status.ConditionFalse? && cond.value.reason == "Unschedulable"
  }

  /** Which outcome is derived when: a Preempted event first; then, for a live pod, its condition;
      then a Scheduled event; then a FailedScheduling event. */
  lemma OutcomeIffEvidence(pod: Option<Pod>, events: seq<Event>, now: Time)
    ensures var d := DeriveTransition(pod, events, now);
            var preempted := HasReason(events, REASON_PREEMPTED);
            var undecided := pod.Some? && !SaysScheduled(pod.value) && !SaysUnschedulable(pod.value);
            && (d.Some? && d.value.transition.outcome == Preempted <==> preempted)
            && (d.Some? && d.value.transition.outcome == Scheduled <==>
                  !preempted && pod.Some?
                  && (SaysScheduled(pod.value) || (undecided && HasReason(events, REASON_SCHEDULED))))
            && (d.Some? && d.value.transition.outcome == FailedScheduling <==>
                  !preempted && pod.Some?
                  && (SaysUnschedulable(pod.value)
                      || (undecided && !HasReason(events, REASON_SCHEDULED) && HasReason(events, REASON_FAILED))))
  {
    LatestEventIsFirstNewest(events, REASON_PREEMPTED);
    LatestEventIsFirstNewest(events, REASON_SCHEDULED);
    LatestEventIsFirstNewest(events, REASON_FAILED);
  }

  /** What a derived transition quotes.  With an event of its own outcome it names the first of the
      newest ones, and a preemption says what that event says.  An attempt that the pod's condition
      settled is dated by it, if it carries a time, otherwise by that event, otherwise by the clock;
      its text likewise.  The latency is the time since the pod was created, if the pod is there. */
  lemma DerivedQuotesNewest(pod: Option<Pod>, events: seq<Event>, now: Time)
    requires DeriveTransition(pod, events, now).Some?
    ensures var t := DeriveTransition(pod, events, now).value.transition;
            && (forall i :: IsFirstNewest(events, ReasonOf(t.outcome), i) ==> QuotesEvent(t, pod, events[i]))
            && (!HasReason(events, ReasonOf(t.outcome)) ==> QuotesConditionAlone(t, pod, now))
            && t.chosenNode == (if t.outcome == Scheduled then pod.value.nodeName else "")
            && (t.outcome == Preempted || !HasReason(events, REASON_CANDIDATES) ==> t.candidateNodes == [])
            && (t.outcome != Preempted ==>
                  forall i :: IsFirstNewest(events, REASON_CANDIDATES, i) ==>
                                t.candidateNodes == ParseNames(events[i].message))
            && t.schedulingLatencyMs
               == if pod.Some? then LatencyMs(pod.value.creationTimestamp, t.decisionTimestamp) else 0
  {
    var reason := ReasonOf(DeriveTransition(pod, events, now).value.transition.outcome);
    DerivedQuotesLatest(pod, events, now);
    LatestEventIsFirstNewest(events, reason);
    DerivedCandidates(pod, events, now);
    LatestEventIsFirstNewest(events, REASON_CANDIDATES);
  }

  lemma {:induction false} DerivedCandidates(pod: Option<Pod>, events: seq<Event>, now: Time)
    requires DeriveTransition(pod, events, now).Some?
    ensures var t := DeriveTransition(pod, events, now).value.transition;
            t.candidateNodes == if t.outcome == Preempted then [] else CandidateNodesFrom(events)
  {
  }

  lemma {:induction false} DerivedQuotesLatest(pod: Option<Pod>, events: seq<Event>, now: Time)
    requires DeriveTransition(pod, events, now).Some?
    ensures var t := DeriveTransition(pod, events, now).value.transition;
            var latest := LatestEvent(events, ReasonOf(t.outcome));
            if latest.Some? then QuotesEvent(t, pod, latest.value) else QuotesConditionAlone(t, pod, now)
  {
  }

  /** The pod's condition, where it settles the outcome by itself. */
  function SettledBy(pod: Pod): Option<Condition> {
    if SaysScheduled(pod) || SaysUnschedulable(pod) then FirstPodScheduled(pod.conditions) else None
  }

  predicate QuotesEvent(t: Transition, pod: Option<Pod>, e: Event) {
    var cond := if t.outcome == Preempted || pod.None? then None else SettledBy(pod.value);
    && t.eventUID == e.uid
    && t.decisionTimestamp == (if cond.Some? && cond.value.lastTransitionTime != ZERO_TIME
                               then cond.value.lastTransitionTime else EventTimestamp(e))
    && t.reasonSummary == (if cond.Some? && cond.value.message != "" then cond.value.message else e.message)
  }

  predicate QuotesConditionAlone(t: Transition, pod: Option<Pod>, now: Time) {
    && pod.Some? && SettledBy(pod.value).Some? && t.eventUID == ""
    && var cond := SettledBy(pod.value).value;
       && t.decisionTimestamp == (if cond.lastTransitionTime != ZERO_TIME then cond.lastTransitionTime else now)
       && t.reasonSummary == cond.message
  }

  function ReasonOf(outcome: Outcome): string {
    match outcome
    case Preempted => REASON_PREEMPTED
    case Scheduled => REASON_SCHEDULED
    case _ => REASON_FAILED
  }

  /** Every derived transition has an outcome, and only Scheduled names a node. */
  lemma DerivedIsWellFormed(pod: Option<Pod>, events: seq<Event>, now: Time)
    ensures var d := DeriveTransition(pod, events, now); d.Some? ==> NodeOnlyIfScheduled(d.value.transition)
  {
  }

  /** Whom a derived transition is about: the live pod, or else what the first of the newest
      Preempted events involves.  The scheduler named is the reporter of the event it quotes, if
      there is one and it names any, and otherwise the one the live pod asks for. */
  lemma DerivedIdentity(pod: Option<Pod>, events: seq<Event>, now: Time)
    requires DeriveTransition(pod, events, now).Some?
    ensures var d := DeriveTransition(pod, events, now).value;
            var reason := ReasonOf(d.transition.outcome);
            && (forall i :: IsFirstNewest(events, reason, i) ==>
                  IsAbout(d.identity, pod, events[i].involved)
                  && NamesScheduler(d.identity.schedulerName, events[i], pod))
            && (!HasReason(events, reason) ==>
                  pod.Some? && IsAboutPod(d.identity, pod.value) && d.identity.schedulerName == pod.value.schedulerName)
  {
    var reason := ReasonOf(DeriveTransition(pod, events, now).value.transition.outcome);
    IdentityOfLatest(pod, events, now);
    LatestEventIsFirstNewest(events, reason);
  }

  predicate IsAboutPod(identity: Identity, pod: Pod) {
    identity.uid == pod.uid && identity.name == pod.name && identity.namespace == pod.namespace
  }

  predicate IsAbout(identity: Identity, pod: Option<Pod>, involved: ObjectRef) {
    if pod.Some? then IsAboutPod(identity, pod.value)
    else identity.uid == involved.uid && identity.name == involved.name && identity.namespace == involved.namespace
  }

  predicate NamesScheduler(name: string, e: Event, pod: Option<Pod>) {
    && (e.reportingController != "" ==> name == e.reportingController)
    && (e.reportingController == "" && e.sourceComponent != "" ==> name == e.sourceComponent)
    && (e.reportingController == "" && e.sourceComponent == "" ==>
          name == if pod.Some? then pod.value.schedulerName else "")
  }

  lemma {:induction false} IdentityOfLatest(pod: Option<Pod>, events: seq<Event>, now: Time)
    requires DeriveTransition(pod, events, now).Some?
    ensures var d := DeriveTransition(pod, events, now).value;
            var latest := LatestEvent(events, ReasonOf(d.transition.outcome));
            if latest.Some? then
              IsAbout(d.identity, pod, latest.value.involved)
              && NamesScheduler(d.identity.schedulerName, latest.value, pod)
            else
              pod.Some? && IsAboutPod(d.identity, pod.value) && d.identity.schedulerName == pod.value.schedulerName
  {
  }
}
