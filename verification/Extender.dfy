/** The scheduler extender: it observes a Filter call, records the candidate nodes as an event on
    the pod, and passes every node through. */
module Extender {
  import opened Clock
  import opened Model
  import opened Candidates
  import opened Derivation
  import opened EventIndex

  const REPORTING_CONTROLLER := "sch-audit-extender"

  datatype Node = Node(name: string, unschedulable: bool)

  /** Candidates arrive as node objects or as names alone. */
  datatype ExtenderArgs = ExtenderArgs(pod: Option<Pod>, nodes: Option<seq<Node>>, nodeNames: Option<seq<string>>)

  datatype FilterResult = FilterResult(nodes: Option<seq<Node>>, nodeNames: Option<seq<string>>)

  /** The names, in order, of the nodes offered: those given by name, or else those of the objects. */
  predicate NamesOffered(nodes: Option<seq<Node>>, nodeNames: Option<seq<string>>, names: seq<string>) {
    && (nodeNames.Some? ==> names == nodeNames.value)
    && (nodeNames.None? && nodes.Some? ==>
          |names| == |nodes.value| && forall i :: 0 <= i < |names| ==> names[i] == nodes.value[i].name)
    && (nodeNames.None? && nodes.None? ==> names == [])
  }

  /** The event as the server keeps it; `uid` is the server's. */
  function CandidateEvent(pod: Pod, names: seq<string>, uid: string, now: Time): Event {
    Event(uid, pod.namespace, REASON_CANDIDATES, Join(names), ObjectRef(POD_KIND, pod.namespace, pod.name, pod.uid),
          REPORTING_CONTROLLER, "", Trunc(now), ZERO_TIME, Trunc(now))
  }

  /** An event about this pod, in its namespace, that carries candidates and the second they date from. */
  predicate ReportsCandidates(e: Event, pod: Pod, now: Time) {
    && e.reason == "CandidateNodes" && e.reportingController == "sch-audit-extender"
    && e.namespace == pod.namespace && e.involved == ObjectRef("Pod", pod.namespace, pod.name, pod.uid)
    && EventTimestamp(e) == Trunc(now)
  }

  /** The server's events. */
  class EventServer {
    var events: seq<Event>

    constructor ()
      ensures events == []
    {
      events := [];
    }

    method Create(e: Event, fails: bool) returns (ok: bool)
      modifies this
      ensures ok == !fails
      ensures events == if fails then old(events) else old(events) + [e]
    {
      if !fails {
        events := events + [e];
      }
      ok := !fails;
    }
  }

  method CandidateNodeNames(args: ExtenderArgs) returns (names: seq<string>)
    ensures NamesOffered(args.nodes, args.nodeNames, names)
  {
    if args.nodeNames.Some? {
      return args.nodeNames.value;
    }
    names := [];
    if args.nodes.Some? {
      var items := args.nodes.value;
      for i := 0 to |items|
        invariant |names| == i && forall j :: 0 <= j < i ==> names[j] == items[j].name
      {
        names := names + [items[i].name];
      }
    }
  }

  /** The handler: whatever becomes of the event, no node is removed.  The event, if one is recorded,
      lists the nodes that the scheduler gets back; its text reads back as their names exactly when
      these are clean. */
  method Filter(server: EventServer, args: ExtenderArgs, uid: string, now: Time, createFails: bool)
    returns (result: FilterResult, ghost offered: seq<string>)
    modifies server
    ensures result.nodes == args.nodes && result.nodeNames == args.nodeNames
    ensures NamesOffered(result.nodes, result.nodeNames, offered)
    ensures server.events ==
            if args.pod.Some? && offered != [] && !createFails
            then old(server.events) + [CandidateEvent(args.pod.value, offered, uid, now)]
            else old(server.events)
    ensures args.pod.Some? && offered != [] && !createFails ==>
              && |server.events| == |old(server.events)| + 1
              && ReportsCandidates(server.events[|old(server.events)|], args.pod.value, now)
              && (ParseNames(server.events[|old(server.events)|].message) == offered <==> AllClean(offered))
  {
    var names := CandidateNodeNames(args);
    offered := names;
    MessageRoundTrip(names);
    if args.pod.Some? && |names| > 0 {
      var recorded := server.Create(CandidateEvent(args.pod.value, names, uid, now), createFails);
    }
    result := FilterResult(args.nodes, args.nodeNames);
  }

  // ----- which list is used -----

  /** Every candidate event is dated before this second. */
  predicate Newest(events: seq<Event>, now: Time) {
    forall i :: 0 <= i < |events| && events[i].reason == REASON_CANDIDATES ==> EventTimestamp(events[i]) < Trunc(now)
  }

  /** No candidate event is dated after this second. */
  predicate NoneNewer(events: seq<Event>, now: Time) {
    forall i :: 0 <= i < |events| && events[i].reason == REASON_CANDIDATES ==> EventTimestamp(events[i]) <= Trunc(now)
  }

  lemma CandidateEventIsDated(pod: Pod, names: seq<string>, uid: string, now: Time)
    ensures EventTimestamp(CandidateEvent(pod, names, uid, now)) == Trunc(now)
  {
  }

  lemma {:induction false} FirstNewestAt(before: seq<Event>, e: Event, after: seq<Event>, now: Time)
    requires e.reason == REASON_CANDIDATES && EventTimestamp(e) == Trunc(now)
    ensures IsFirstNewest(before + [e] + after, REASON_CANDIDATES, |before|)
            <==> Newest(before, now) && NoneNewer(after, now)
  {
    var events, n := before + [e] + after, |before|;
    assert events[n] == e;
    assert forall i :: 0 <= i < n ==> events[i] == before[i];
    assert forall i :: 0 <= i < |after| ==> events[n + 1 + i] == after[i];
  }

  lemma OneFirstNewest(events: seq<Event>, reason: string, i: int, j: int)
    requires IsFirstNewest(events, reason, i)
    ensures IsFirstNewest(events, reason, j) ==> i == j
  {
  }

  lemma {:induction false} ElsewhereAreOthers(before: seq<Event>, e: Event, after: seq<Event>)
    ensures var events := before + [e] + after;
            forall i :: 0 <= i < |events| && i != |before| ==> events[i] in before || events[i] in after
  {
    var events := before + [e] + after;
    forall i | 0 <= i < |events| && i != |before| ensures events[i] in before || events[i] in after {
      if i < |before| {
        assert events[i] == before[i];
      } else {
        assert events[i] == after[i - |before| - 1];
      }
    }
  }

  /** Wherever a recorded list stands among a pod's events, it is the one used exactly when those
      before it are older, to the second, and those behind it are not newer. */
  lemma {:induction false} ListIsUsedIff(
    before: seq<Event>, after: seq<Event>, pod: Pod, names: seq<string>, uid: string, now: Time)
    requires CandidateEvent(pod, names, uid, now) !in before && CandidateEvent(pod, names, uid, now) !in after
    ensures var e := CandidateEvent(pod, names, uid, now);
            LatestEvent(before + [e] + after, REASON_CANDIDATES) == Some(e)
            <==> Newest(before, now) && NoneNewer(after, now)
  {
    var e := CandidateEvent(pod, names, uid, now);
    var events := before + [e] + after;
    CandidateEventIsDated(pod, names, uid, now);
    FirstNewestAt(before, e, after, now);
    assert events[|before|] == e;
    var i := NewestIndex(events, REASON_CANDIDATES);
    OneFirstNewest(events, REASON_CANDIDATES, i, |before|);
    ElsewhereAreOthers(before, e, after);
  }

  /** A list that comes last among the events is used exactly when it is strictly newest; otherwise it
      changes nothing. */
  lemma {:induction false} AppendedListIsUsedIff(
    events: seq<Event>, pod: Pod, names: seq<string>, uid: string, now: Time)
    ensures var e := CandidateEvent(pod, names, uid, now);
            && LatestEvent(events + [e], REASON_CANDIDATES)
               == (if Newest(events, now) then Some(e) else LatestEvent(events, REASON_CANDIDATES))
            && CandidateNodesFrom(events + [e])
               == (if Newest(events, now) then ParseNames(Join(names)) else CandidateNodesFrom(events))
  {
    var e := CandidateEvent(pod, names, uid, now);
    CandidateEventIsDated(pod, names, uid, now);
    LatestOfOneMore(events, e, REASON_CANDIDATES);
    if HasReason(events, REASON_CANDIDATES) {
      var i := NewestIndex(events, REASON_CANDIDATES);
    } else {
      NoneWithoutReason(events, REASON_CANDIDATES);
    }
  }

  /** A list recorded in the second of one that is there already, or dated before it, is not used. */
  lemma {:induction false} SameSecondKeepsTheFirst(
    events: seq<Event>, i: int, pod: Pod, names: seq<string>, uid: string, now: Time)
    requires 0 <= i < |events| && events[i].reason == REASON_CANDIDATES && EventTimestamp(events[i]) >= Trunc(now)
    ensures CandidateNodesFrom(events + [CandidateEvent(pod, names, uid, now)]) == CandidateNodesFrom(events)
  {
    AppendedListIsUsedIff(events, pod, names, uid, now);
  }

  lemma {:induction false} OneMoreHasReason(events: seq<Event>, e: Event, reason: string)
    requires e.reason != reason
    ensures HasReason(events + [e], reason) <==> HasReason(events, reason)
  {
    var more := events + [e];
    if i :| 0 <= i < |events| && events[i].reason == reason {
      assert more[i] == events[i];
    }
  }

  lemma CandidatesAreCarried(pod: Pod, events: seq<Event>, now: Time)
    ensures var d := DeriveTransition(Some(pod), events, now);
            d.Some? ==>
              d.value.transition.candidateNodes
              == if HasReason(events, REASON_PREEMPTED) then [] else CandidateNodesFrom(events)
  {
    LatestEventIsFirstNewest(events, REASON_PREEMPTED);
  }

  /** What comes out of the derivation, and where a recorded list is found: end to end, for any
      events.  A list comes out as it was offered exactly when its names are clean, if it is the one
      used; if it is not, or the pod was preempted, it has no influence. */
  lemma {:induction false} CandidatesReachTheTransition(
    pod: Pod, names: seq<string>, uid: string, now: Time, events: seq<Event>, later: Time)
    ensures var e := CandidateEvent(pod, names, uid, now);
            var d := DeriveTransition(Some(pod), events + [e], later);
            && Watched(e) && RequestOf(e) == Key(pod.namespace, pod.name) && Indexed(e, RequestOf(e))
            && (d.Some? ==>
                  var nodes := d.value.transition.candidateNodes;
                  if HasReason(events, REASON_PREEMPTED) then nodes == []
                  else if Newest(events, now) then nodes == names <==> AllClean(names)
                  else nodes == CandidateNodesFrom(events))
  {
    var e := CandidateEvent(pod, names, uid, now);
    AppendedListIsUsedIff(events, pod, names, uid, now);
    MessageRoundTrip(names);
    OneMoreHasReason(events, e, REASON_PREEMPTED);
    CandidatesAreCarried(pod, events + [e], later);
  }
}
