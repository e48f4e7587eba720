/** Which events wake a reconcile up, and which ones it then finds through the field index. */
module EventIndex {
  import opened Clock
  import opened Model
  import opened Derivation
  import opened Candidates

  const POD_KIND := "Pod"

  datatype Key = Key(namespace: string, name: string)

  predicate RelevantReason(reason: string) {
    reason in {REASON_SCHEDULED, REASON_FAILED, REASON_PREEMPTED, REASON_CANDIDATES}
  }

  function IndexKey(namespace: string, name: string): string {
    namespace + "/" + name
  }

  /** The keys the index files an event under. */
  function IndexKeys(e: Event): seq<string> {
    if e.involved.kind != POD_KIND then [] else [IndexKey(e.involved.namespace, e.involved.name)]
  }

  /** The watch predicate, and the request an accepted event is mapped to. */
  predicate Watched(e: Event) {
    e.involved.kind == POD_KIND && RelevantReason(e.reason)
  }

  function RequestOf(e: Event): Key {
    Key(e.involved.namespace, e.involved.name)
  }

  // ----- the list -----

  predicate Indexed(e: Event, key: Key) {
    e.namespace == key.namespace && IndexKey(key.namespace, key.name) in IndexKeys(e)
  }

  /** What a namespaced, index-backed list returns. */
  function IndexList(events: seq<Event>, key: Key): seq<Event> {
    if events == [] then []
    else
      var e := events[|events| - 1];
      IndexList(events[..|events| - 1], key) + if Indexed(e, key) then [e] else []
  }

  function KeepRelevant(events: seq<Event>): seq<Event> {
    if events == [] then []
    else
      var e := events[|events| - 1];
      KeepRelevant(events[..|events| - 1]) + if RelevantReason(e.reason) then [e] else []
  }

  method ListRelevantEvents(events: seq<Event>, key: Key) returns (relevant: seq<Event>)
    ensures relevant == KeepRelevant(IndexList(events, key))
  {
    var list := IndexList(events, key);
    relevant := [];
    for i := 0 to |list|
      invariant relevant == KeepRelevant(list[..i])
    {
      assert list[..i + 1][..i] == list[..i];
      if RelevantReason(list[i].reason) {
        relevant := relevant + [list[i]];
      }
    }
    assert list[..|list|] == list;
  }

  /** The same without an index: events of the namespace about the pod of that name. */
  predicate Wanted(e: Event, key: Key) {
    && e.namespace == key.namespace
    && e.involved.kind == "Pod"
    && e.involved.namespace == key.namespace
    && e.involved.name == key.name
    && e.reason in {"Scheduled", "FailedScheduling", "Preempted", "CandidateNodes"}
  }

  function Scan(events: seq<Event>, key: Key): seq<Event> {
    if events == [] then []
    else
      var e := events[|events| - 1];
      Scan(events[..|events| - 1], key) + if Wanted(e, key) then [e] else []
  }

  // ----- agreement -----

  predicate SlashFree(s: string) {
    '/' !in s
  }

  function BeforeSlash(s: string): nat {
    if s == "" || s[0] == '/' then 0 else 1 + BeforeSlash(s[1..])
  }

  lemma {:induction false} NamespaceEndsAtSlash(ns: string, name: string)
    requires SlashFree(ns)
    ensures BeforeSlash(IndexKey(ns, name)) == |ns|
  {
    if ns != "" {
      NamespaceEndsAtSlash(ns[1..], name);
      assert IndexKey(ns, name)[1..] == IndexKey(ns[1..], name);
    }
  }

  /** With slash-free namespaces the key determines the namespace and the name. */
  lemma IndexKeyIsInjective(ns: string, name: string, ns': string, name': string)
    requires SlashFree(ns) && SlashFree(ns')
    ensures IndexKey(ns, name) == IndexKey(ns', name') <==> ns == ns' && name == name'
  {
    NamespaceEndsAtSlash(ns, name);
    NamespaceEndsAtSlash(ns', name');
    var k, k' := IndexKey(ns, name), IndexKey(ns', name');
    assert ns == k[..|ns|] && name == k[|ns| + 1..];
    assert ns' == k'[..|ns'|] && name' == k'[|ns'| + 1..];
  }

  predicate SlashFreeNamespaces(events: seq<Event>) {
    forall i :: 0 <= i < |events| ==> SlashFree(events[i].involved.namespace)
  }

  /** No relevant event is filed under the key although it is about another pod. */
  predicate NothingMisfiled(events: seq<Event>, key: Key) {
    forall i :: 0 <= i < |events| && Watched(events[i]) && Indexed(events[i], key) ==> RequestOf(events[i]) == key
  }

  lemma {:induction false} ListOfOneMore(events: seq<Event>, key: Key)
    requires events != []
    ensures var n := |events| - 1;
            KeepRelevant(IndexList(events, key))
            == KeepRelevant(IndexList(events[..n], key))
               + if Indexed(events[n], key) && RelevantReason(events[n].reason) then [events[n]] else []
  {
    var n := |events| - 1;
    var list := IndexList(events, key);
    if Indexed(events[n], key) {
      assert list[..|list| - 1] == IndexList(events[..n], key);
    } else {
      assert list == IndexList(events[..n], key);
    }
  }

  lemma {:induction false} WithoutMisfiledAgrees(events: seq<Event>, key: Key)
    requires NothingMisfiled(events, key)
    ensures KeepRelevant(IndexList(events, key)) == Scan(events, key)
  {
    if events != [] {
      WithoutMisfiledAgrees(events[..|events| - 1], key);
      ListOfOneMore(events, key);
    }
  }

  /** The index-backed list is the brute-force scan exactly when nothing is misfiled. */
  lemma {:induction false} IndexAgreesIff(events: seq<Event>, key: Key)
    ensures KeepRelevant(IndexList(events, key)) == Scan(events, key) <==> NothingMisfiled(events, key)
  {
    if NothingMisfiled(events, key) {
      WithoutMisfiledAgrees(events, key);
    } else {
      var i :| 0 <= i < |events| && Watched(events[i]) && Indexed(events[i], key) && RequestOf(events[i]) != key;
      ListFinds(events, key, i);
      ScanIsSound(events, key);
    }
  }

  lemma {:induction false} ListFinds(events: seq<Event>, key: Key, i: int)
    requires 0 <= i < |events| && Watched(events[i]) && Indexed(events[i], key)
    ensures events[i] in KeepRelevant(IndexList(events, key))
  {
    ListOfOneMore(events, key);
    if i < |events| - 1 {
      ListFinds(events[..|events| - 1], key, i);
    }
  }

  /** With slash-free namespaces nothing is. */
  lemma {:induction false} IndexAgreesWithScan(events: seq<Event>, key: Key)
    requires SlashFree(key.namespace) && SlashFreeNamespaces(events)
    ensures KeepRelevant(IndexList(events, key)) == Scan(events, key)
  {
    forall i | 0 <= i < |events| && Watched(events[i]) && Indexed(events[i], key) ensures RequestOf(events[i]) == key {
      IndexKeyIsInjective(events[i].involved.namespace, events[i].involved.name, key.namespace, key.name);
    }
    IndexAgreesIff(events, key);
  }

  /** Only a slash can make two keys collide: exactly when the longer namespace is the shorter one
      continued behind a slash, and the names make up for it. */
  lemma KeysCollideIff(ns: string, name: string, ns': string, name': string)
    requires |ns| < |ns'|
    ensures IndexKey(ns, name) == IndexKey(ns', name')
            <==> exists rest :: ns' == IndexKey(ns, rest) && name == IndexKey(rest, name')
  {
    var k, k' := IndexKey(ns, name), IndexKey(ns', name');
    if k == k' {
      var rest := ns'[|ns| + 1..];
      assert ns' == k[..|ns'|] && k[..|ns|] == ns && k[|ns|] == '/';
      assert ns' == ns + "/" + rest;
      assert name == k[|ns| + 1..] && k[|ns| + 1..] == rest + "/" + name';
      assert ns' == IndexKey(ns, rest) && name == IndexKey(rest, name');
    }
    if rest :| ns' == IndexKey(ns, rest) && name == IndexKey(rest, name') {
      assert ns + "/" + (rest + "/" + name') == (ns + "/" + rest) + "/" + name';
    }
  }

  lemma {:induction false} ScanFinds(events: seq<Event>, key: Key, i: int)
    requires 0 <= i < |events| && Wanted(events[i], key)
    ensures events[i] in Scan(events, key)
  {
    var n := |events| - 1;
    if i < n {
      ScanFinds(events[..n], key, i);
    }
  }

  /** An event the watch lets through is found by the reconcile it wakes up exactly when it lies in
      the namespace of the pod it is about. */
  lemma {:induction false} WakeUpFindsItsEvent(events: seq<Event>, i: int)
    requires 0 <= i < |events| && Watched(events[i]) && SlashFreeNamespaces(events)
    ensures events[i].namespace == events[i].involved.namespace
            <==> events[i] in KeepRelevant(IndexList(events, RequestOf(events[i])))
  {
    var key := RequestOf(events[i]);
    IndexAgreesWithScan(events, key);
    if events[i].namespace == events[i].involved.namespace {
      ScanFinds(events, key, i);
    }
    ScanIsSound(events, key);
  }

  lemma {:induction false} ScanIsSound(events: seq<Event>, key: Key)
    ensures forall e :: e in Scan(events, key) ==> Wanted(e, key) && e in events
  {
    if events != [] {
      ScanIsSound(events[..|events| - 1], key);
    }
  }

  // ----- dropping irrelevant events changes nothing -----

  lemma {:induction false} FilterKeepsLatest(events: seq<Event>, reason: string)
    requires RelevantReason(reason)
    ensures LatestEvent(KeepRelevant(events), reason) == LatestEvent(events, reason)
  {
    if events != [] {
      var init, e := events[..|events| - 1], events[|events| - 1];
      FilterKeepsLatest(init, reason);
      FilterStep(init, e, reason, RelevantReason(e.reason));
      assert events == init + [e];
    }
  }

  lemma {:induction false} FilterStep(init: seq<Event>, e: Event, reason: string, relevant: bool)
    requires e.reason == reason ==> relevant
    requires LatestEvent(KeepRelevant(init), reason) == LatestEvent(init, reason)
    ensures LatestEvent(KeepRelevant(init) + (if relevant then [e] else []), reason) == LatestEvent(init + [e], reason)
  {
    LatestOfOneMore(init, e, reason);
    LatestOfOneMore(KeepRelevant(init), e, reason);
    assert KeepRelevant(init) + [] == KeepRelevant(init);
  }

  /** The derivation sees no difference between the filtered list and the raw one. */
  lemma {:induction false} FilterKeepsDerivation(pod: Option<Pod>, events: seq<Event>, now: Time)
    ensures DeriveTransition(pod, KeepRelevant(events), now) == DeriveTransition(pod, events, now)
  {
    FilterKeepsLatest(events, REASON_PREEMPTED);
    FilterKeepsLatest(events, REASON_SCHEDULED);
    FilterKeepsLatest(events, REASON_FAILED);
    FilterKeepsLatest(events, REASON_CANDIDATES);
  }

  // ----- and only irrelevant ones can be dropped -----

  lemma {:induction false} IrrelevantChangesNothing(pod: Option<Pod>, events: seq<Event>, e: Event, now: Time)
    requires !RelevantReason(e.reason)
    ensures DeriveTransition(pod, events + [e], now) == DeriveTransition(pod, events, now)
  {
    LatestOfOneMore(events, e, REASON_PREEMPTED);
    LatestOfOneMore(events, e, REASON_SCHEDULED);
    LatestOfOneMore(events, e, REASON_FAILED);
    LatestOfOneMore(events, e, REASON_CANDIDATES);
  }

  function EventOf(reason: string): Event {
    Event("", "", reason, "n", ObjectRef(POD_KIND, "", "", ""), "", "", 0, 0, 0)
  }

  function PodWith(conditions: seq<Condition>): Pod {
    Pod("", "", "", "", "", 0, conditions)
  }

  /** A pod without conditions waits for an event; one that is scheduled takes over the candidates. */
  lemma {:induction false} RelevantChangesSomething(reason: string)
    requires RelevantReason(reason)
    ensures var pod := if reason == REASON_CANDIDATES
                       then PodWith([Condition(POD_SCHEDULED, ConditionTrue, "", "", 0)]) else PodWith([]);
            DeriveTransition(Some(pod), [] + [EventOf(reason)], 0) != DeriveTransition(Some(pod), [], 0)
  {
    var e := EventOf(reason);
    LatestOfOneMore([], e, REASON_PREEMPTED);
    LatestOfOneMore([], e, REASON_SCHEDULED);
    LatestOfOneMore([], e, REASON_FAILED);
    LatestOfOneMore([], e, REASON_CANDIDATES);
    assert CleanName("n");
    ParseOfPadded("", "n", "");
    assert "" + "n" + "" == "n";
  }

  /** The relevant reasons are exactly those of which an event can change what is derived. */
  lemma {:induction false} RelevantIffItCanMatter(reason: string)
    ensures RelevantReason(reason) <==>
            exists pod: Option<Pod>, events: seq<Event>, e: Event, now: Time ::
              e.reason == reason && DeriveTransition(pod, events + [e], now) != DeriveTransition(pod, events, now)
  {
    if RelevantReason(reason) {
      RelevantChangesSomething(reason);
    } else {
      forall pod, events, e: Event, now | e.reason == reason
        ensures DeriveTransition(pod, events + [e], now) == DeriveTransition(pod, events, now)
      {
        IrrelevantChangesNothing(pod, events, e, now);
      }
    }
  }
}
