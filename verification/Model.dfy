/** Time as the recorder and the API server see it.  A `Time` is an exact instant in
    nanoseconds since the Unix epoch; objects are stored with whole-second timestamps. */
module Clock {

  type Time = int

  const SECOND: int := 1_000_000_000
  const HOUR: int := 3600 * SECOND
  const MILLISECOND: int := 1_000_000

  /** The zero value of a timestamp (1 January of year 1, UTC), which means "not set". */
  const ZERO_TIME: Time := -62_135_596_800 * SECOND

  /** The instant a serialized timestamp comes back as: the fraction of a second is dropped. */
  function Trunc(t: Time): Time {
    t / SECOND * SECOND
  }

  /** True of the timestamps that survive being stored. */
  predicate Whole(t: Time) {
    t % SECOND == 0
  }

  /** Unix epoch second containing t. */
  function UnixSecond(t: Time): int {
    t / SECOND
  }

  lemma TruncBounds(t: Time)
    ensures Whole(Trunc(t)) && Trunc(t) <= t < Trunc(t) + SECOND
    ensures Trunc(t) == t <==> Whole(t)
    ensures Trunc(Trunc(t)) == Trunc(t)
  {
    assert t == t / SECOND * SECOND + t % SECOND;
    assert (t / SECOND * SECOND) % SECOND == 0;
  }
}

/** The entities: pods and events as they are read, and the decision objects written. */
module Model {
  import opened Clock

  datatype Option<+T> = None | Some(value: T)

  // ----- core/v1 inputs -----

  datatype ConditionStatus = ConditionTrue | ConditionFalse | ConditionUnknown

  datatype Condition = Condition(
    conditionType: string, status: ConditionStatus, reason: string, message: string,
    lastTransitionTime: Time)

  datatype Pod = Pod(
    uid: string, name: string, namespace: string, schedulerName: string, nodeName: string,
    creationTimestamp: Time, conditions: seq<Condition>)

  datatype ObjectRef = ObjectRef(kind: string, namespace: string, name: string, uid: string)

  datatype Event = Event(
    uid: string, namespace: string, reason: string, message: string, involved: ObjectRef,
    reportingController: string, sourceComponent: string,
    lastTimestamp: Time, eventTime: Time, creationTimestamp: Time)

  // ----- SchedulingDecision -----

  /** `NoOutcome` is the empty string of a status nothing was recorded in. */
  datatype Outcome = NoOutcome | Scheduled | FailedScheduling | Preempted

  datatype Transition = Transition(
    outcome: Outcome, chosenNode: string, reasonSummary: string, decisionTimestamp: Time,
    schedulingLatencyMs: int, candidateNodes: seq<string>, eventUID: string)

  datatype Status = Status(
    outcome: Outcome, chosenNode: string, reasonSummary: string, decisionTimestamp: Time,
    schedulingLatencyMs: int, transitions: seq<Transition>)

  const EMPTY_STATUS := Status(NoOutcome, "", "", ZERO_TIME, 0, [])

  datatype VolumeContext = VolumeContext(
    pvcName: string, storageClass: string, driverType: string, bindingMode: string, topologyConstraint: string)

  datatype Spec = Spec(
    podName: string, podNamespace: string, podUID: string, schedulerName: string,
    volumeContext: Option<VolumeContext>)

  datatype Identity = Identity(uid: string, name: string, namespace: string, schedulerName: string)

  /** True when two transitions report the same observation; latency, candidate nodes and
      the source event are not compared. */
  predicate TransitionsEqual(a: Transition, b: Transition): (same: bool)
    ensures same <==>
            a == b.(schedulingLatencyMs := a.schedulingLatencyMs, candidateNodes := a.candidateNodes,
                    eventUID := a.eventUID)
  {
    && a.outcome == b.outcome
    && a.chosenNode == b.chosenNode
    && a.reasonSummary == b.reasonSummary
    && a.decisionTimestamp == b.decisionTimestamp
  }

  /** A status with t appended to its history and mirrored into its latest-outcome fields. */
  function Applied(status: Status, t: Transition): Status {
    Status(t.outcome, t.chosenNode, t.reasonSummary, t.decisionTimestamp, t.schedulingLatencyMs,
           status.transitions + [t])
  }

  /** The guard of a no-op: t repeats the last entry of the history. */
  predicate RepeatsLast(status: Status, t: Transition) {
    var n := |status.transitions|;
    n > 0 && TransitionsEqual(status.transitions[n - 1], t)
  }

  // ----- what storing does -----

  function Stored(t: Transition): Transition {
    t.(decisionTimestamp := Trunc(t.decisionTimestamp))
  }

  /** What an entry owes to the transition it was made from: all of it, its timestamp to the second. */
  predicate KeptToTheSecond(entry: Transition, t: Transition) {
    && entry.outcome == t.outcome
    && entry.chosenNode == t.chosenNode
    && entry.reasonSummary == t.reasonSummary
    && entry.schedulingLatencyMs == t.schedulingLatencyMs
    && entry.candidateNodes == t.candidateNodes
    && entry.eventUID == t.eventUID
    && entry.decisionTimestamp == Trunc(t.decisionTimestamp)
  }

  /** Storing keeps everything about a transition but the fraction of its second. */
  lemma StoringKeeps(entry: Transition, t: Transition)
    ensures entry == Stored(t) <==> KeptToTheSecond(entry, t)
  {
  }

  function StoredStatus(status: Status): Status {
    status.(
      decisionTimestamp := Trunc(status.decisionTimestamp),
      transitions := seq(|status.transitions|,
                         i requires 0 <= i < |status.transitions| => Stored(status.transitions[i])))
  }

  /** Every timestamp of the status has the precision the server keeps. */
  predicate WholeStatus(status: Status) {
    && Whole(status.decisionTimestamp)
    && forall i :: 0 <= i < |status.transitions| ==> Whole(status.transitions[i].decisionTimestamp)
  }

  /** The latest-outcome fields are those of the last transition, zero when there is none. */
  predicate Mirrors(status: Status) {
    if status.transitions == [] then status == EMPTY_STATUS
    else
      var last := status.transitions[|status.transitions| - 1];
      && status.outcome == last.outcome
      && status.chosenNode == last.chosenNode
      && status.reasonSummary == last.reasonSummary
      && status.decisionTimestamp == last.decisionTimestamp
      && status.schedulingLatencyMs == last.schedulingLatencyMs
  }

  /** No two neighbours of a history report the same observation. */
  predicate NoStutter(history: seq<Transition>) {
    forall i :: 0 < i < |history| ==> !TransitionsEqual(history[i - 1], history[i])
  }

  /** Only a Scheduled transition names a node, and every transition has an outcome. */
  predicate NodeOnlyIfScheduled(t: Transition) {
    && t.outcome != NoOutcome
    && (t.outcome != Scheduled ==> t.chosenNode == "")
  }

  /** Storing a status that was read back and extended keeps what was read and truncates only
      the new entry. */
  lemma StoringAnAppliedStatus(status: Status, t: Transition)
    requires WholeStatus(status)
    ensures StoredStatus(Applied(status, t)) == Applied(status, Stored(t))
    ensures WholeStatus(Applied(status, Stored(t)))
  {
    TruncBounds(t.decisionTimestamp);
    var stored := StoredStatus(Applied(status, t)).transitions;
    forall i | 0 <= i < |stored| ensures stored[i] == Applied(status, Stored(t)).transitions[i] {
      if i < |status.transitions| {
        TruncBounds(status.transitions[i].decisionTimestamp);
      }
    }
  }
}
