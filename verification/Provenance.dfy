/** Where the entries of a history come from: nothing is recorded that was not observed. */
module Provenance {
  import opened Clock
  import opened Model
  import opened Derivation
  import opened Protocol
  import opened Invariants
  import opened Recording

  /** Action i of the run observes the pod with this UID and derives t. */
  predicate Derives(cfg: Config, start: State, actions: seq<Action>, i: int, uid: string, t: Transition) {
    && 0 <= i < |actions| && actions[i].Observe?
    && var d := DeriveTransition(actions[i].pod, actions[i].events, Run(cfg, start, actions[..i]).clock);
       d.Some? && d.value.identity.uid == uid && d.value.transition == t
  }

  ghost predicate Observed(cfg: Config, start: State, actions: seq<Action>, uid: string, t: Transition) {
    exists i :: Derives(cfg, start, actions, i, uid, t)
  }

  /** The entry is an observation of this pod, kept to the second. */
  ghost predicate IsObservation(cfg: Config, start: State, actions: seq<Action>, uid: string, entry: Transition) {
    exists t :: Observed(cfg, start, actions, uid, t) && KeptToTheSecond(entry, t)
  }

  /** Action i of the run observes the pod the spec describes; with the volume context, if the pod was
      there. */
  predicate Describes(cfg: Config, start: State, actions: seq<Action>, i: int, spec: Spec) {
    && 0 <= i < |actions| && actions[i].Observe?
    && var d := DeriveTransition(actions[i].pod, actions[i].events, Run(cfg, start, actions[..i]).clock);
       && d.Some?
       && spec.podUID == d.value.identity.uid && spec.podName == d.value.identity.name
       && spec.podNamespace == d.value.identity.namespace && spec.schedulerName == d.value.identity.schedulerName
       && spec.volumeContext == if actions[i].pod.Some? then actions[i].volume else None
  }

  ghost predicate SpecObserved(cfg: Config, start: State, actions: seq<Action>, spec: Spec) {
    exists i :: Describes(cfg, start, actions, i, spec)
  }

  function SpecOf(call: Call): Spec {
    Spec(call.identity.name, call.identity.namespace, call.identity.uid, call.identity.schedulerName, call.volume)
  }

  ghost predicate CallObserved(cfg: Config, start: State, actions: seq<Action>, worker: Worker) {
    !worker.Idle? ==>
      && Observed(cfg, start, actions, worker.call.identity.uid, worker.call.transition)
      && SpecObserved(cfg, start, actions, SpecOf(worker.call))
  }

  ghost predicate AllObservations(cfg: Config, start: State, actions: seq<Action>, o: Obj) {
    && SpecObserved(cfg, start, actions, o.spec)
    && forall m :: 0 <= m < |o.status.transitions| ==>
         IsObservation(cfg, start, actions, o.spec.podUID, o.status.transitions[m])
  }

  ghost predicate StoreObserved(cfg: Config, start: State, actions: seq<Action>, objs: Store) {
    forall name :: name in objs ==> AllObservations(cfg, start, actions, objs[name])
  }

  // ----- a longer run has observed no less -----

  lemma {:induction false} ObservedStays(
    cfg: Config, start: State, actions: seq<Action>, a: Action, uid: string, t: Transition)
    requires Observed(cfg, start, actions, uid, t)
    ensures Observed(cfg, start, actions + [a], uid, t)
  {
    var i :| Derives(cfg, start, actions, i, uid, t);
    assert (actions + [a])[..i] == actions[..i];
    assert Derives(cfg, start, actions + [a], i, uid, t);
  }

  lemma {:induction false} SpecStays(cfg: Config, start: State, actions: seq<Action>, a: Action, spec: Spec)
    requires SpecObserved(cfg, start, actions, spec)
    ensures SpecObserved(cfg, start, actions + [a], spec)
  {
    var i :| Describes(cfg, start, actions, i, spec);
    assert (actions + [a])[..i] == actions[..i];
    assert Describes(cfg, start, actions + [a], i, spec);
  }

  lemma {:induction false} ObservationsStay(cfg: Config, start: State, actions: seq<Action>, a: Action, o: Obj)
    requires AllObservations(cfg, start, actions, o)
    ensures AllObservations(cfg, start, actions + [a], o)
  {
    SpecStays(cfg, start, actions, a, o.spec);
    forall m | 0 <= m < |o.status.transitions|
      ensures IsObservation(cfg, start, actions + [a], o.spec.podUID, o.status.transitions[m])
    {
      assert IsObservation(cfg, start, actions, o.spec.podUID, o.status.transitions[m]);
      var t :| Observed(cfg, start, actions, o.spec.podUID, t) && KeptToTheSecond(o.status.transitions[m], t);
      ObservedStays(cfg, start, actions, a, o.spec.podUID, t);
    }
  }

  lemma {:induction false} StoreStays(cfg: Config, start: State, actions: seq<Action>, a: Action, objs: Store)
    requires StoreObserved(cfg, start, actions, objs)
    ensures StoreObserved(cfg, start, actions + [a], objs)
  {
    forall name | name in objs ensures AllObservations(cfg, start, actions + [a], objs[name]) {
      ObservationsStay(cfg, start, actions, a, objs[name]);
    }
  }

  // ----- calls -----

  /** The call a worker is at was there before, or has just been derived. */
  lemma CallComesFrom(cfg: Config, s: State, a: Action, w: nat)
    requires !WorkerAt(Next(cfg, s, a), w).Idle?
    ensures var p, p' := WorkerAt(s, w), WorkerAt(Next(cfg, s, a), w);
            || (!p.Idle? && p'.call == p.call)
            || (a.Observe? && a.w == w
                && var d := DeriveTransition(a.pod, a.events, s.clock);
                   && d.Some? && p'.call.identity == d.value.identity && p'.call.transition == d.value.transition
                   && p'.call.volume == if a.pod.Some? then a.volume else None)
  {
  }

  lemma {:induction false} NextKeepsCall(cfg: Config, start: State, actions: seq<Action>, a: Action, w: nat)
    requires CallObserved(cfg, start, actions, WorkerAt(Run(cfg, start, actions), w))
    ensures CallObserved(cfg, start, actions + [a], WorkerAt(Run(cfg, start, actions + [a]), w))
  {
    var s := Run(cfg, start, actions);
    RunOneMore(cfg, start, actions, a);
    var p, p' := WorkerAt(s, w), WorkerAt(Next(cfg, s, a), w);
    if !p'.Idle? {
      CallComesFrom(cfg, s, a, w);
      if !p.Idle? && p'.call == p.call {
        ObservedStays(cfg, start, actions, a, p.call.identity.uid, p.call.transition);
        SpecStays(cfg, start, actions, a, SpecOf(p.call));
      } else {
        assert (actions + [a])[..|actions|] == actions;
        assert Describes(cfg, start, actions + [a], |actions|, SpecOf(p'.call));
        assert Derives(cfg, start, actions + [a], |actions|, p'.call.identity.uid, p'.call.transition);
      }
    }
  }

  // ----- versions -----

  /** A step other than an update leaves each object as it was, or new and without entries. */
  lemma {:induction false} OthersAddNoEntry(cfg: Config, start: State, actions: seq<Action>, s: State, a: Action)
    requires s.log != [] && !a.WriteStatus? && StoreObserved(cfg, start, actions, Current(s.log).objs)
    requires a.Create? ==> CallObserved(cfg, start, actions, WorkerAt(s, a.w))
    ensures StoreObserved(cfg, start, actions, Current(Next(cfg, s, a).log).objs)
  {
    var before, after := Current(s.log).objs, Current(Next(cfg, s, a).log).objs;
    forall name | name in after ensures AllObservations(cfg, start, actions, after[name]) {
      OnlyUpdatesAppend(cfg, s, a, name);
      OnlyCreatesBegin(cfg, s, a, name);
    }
  }

  /** An object that was not there as it is, and has no entries, is what a Create made of its call. */
  lemma OnlyCreatesBegin(cfg: Config, s: State, a: Action, name: string)
    requires s.log != [] && !a.WriteStatus?
    ensures var before, after := Current(s.log).objs, Current(Next(cfg, s, a).log).objs;
            name in after ==>
              || (name in before && after[name] == before[name])
              || (&& a.Create? && WorkerAt(s, a.w).Creating? && after[name].spec == SpecOf(WorkerAt(s, a.w).call)
                  && after[name].status == EMPTY_STATUS)
  {
  }

  /** An update adds what its worker observed. */
  lemma {:induction false} AppendedIsObservation(
    cfg: Config, start: State, actions: seq<Action>, read: Obj, o: Obj, t: Transition)
    requires AllObservations(cfg, start, actions, read) && Observed(cfg, start, actions, read.spec.podUID, t)
    requires o.spec == read.spec && o.status == Applied(read.status, Stored(t))
    ensures AllObservations(cfg, start, actions, o)
  {
    forall m | 0 <= m < |o.status.transitions|
      ensures IsObservation(cfg, start, actions, o.spec.podUID, o.status.transitions[m])
    {
      if m < |read.status.transitions| {
        assert IsObservation(cfg, start, actions, read.spec.podUID, read.status.transitions[m]);
      } else {
        StoringKeeps(o.status.transitions[m], t);
      }
    }
  }

  /** The object a worker updates is that of the pod it observed. */
  lemma ReadIsOfItsPod(cfg: Config, s: State, w: nat)
    requires Inv(cfg, s) && WorkerAt(s, w).Updating?
    ensures WorkerAt(s, w).read.spec.podUID == WorkerAt(s, w).call.identity.uid
  {
    var p := WorkerAt(s, w);
    assert WorkerOk(cfg, s.log, w, p);
    assert StoreOk(cfg, s.log[p.at].objs, s.nextVersion);
    assert ObjOk(cfg, NameOf(p.call), p.read, s.nextVersion);
    assert DecisionName(p.read.spec.podUID)[5..] == p.read.spec.podUID;
    assert DecisionName(p.call.identity.uid)[5..] == p.call.identity.uid;
  }

  lemma {:induction false} UpdateAddsObservation(cfg: Config, start: State, actions: seq<Action>, s: State, w: nat)
    requires Inv(cfg, s) && StoreObserved(cfg, start, actions, Current(s.log).objs)
    requires CallObserved(cfg, start, actions, WorkerAt(s, w))
    ensures StoreObserved(cfg, start, actions, Current(DoWriteStatus(s, w).log).objs)
  {
    var p, s' := WorkerAt(s, w), DoWriteStatus(s, w);
    if |s'.log| > |s.log| {
      LongerLogMeansUpdated(s, w);
      UpdateWritesOnReadVersion(cfg, s, w);
      ReadIsOfItsPod(cfg, s, w);
      AppendedIsObservation(cfg, start, actions, p.read, Current(s'.log).objs[NameOf(p.call)], p.call.transition);
    }
  }

  ghost predicate RunObserved(cfg: Config, start: State, actions: seq<Action>) {
    var s := Run(cfg, start, actions);
    && (forall w: nat :: CallObserved(cfg, start, actions, WorkerAt(s, w)))
    && (forall k :: 0 <= k < |s.log| ==> StoreObserved(cfg, start, actions, s.log[k].objs))
  }

  lemma {:induction false} NextAddsObservations(cfg: Config, start: State, actions: seq<Action>, a: Action)
    requires Inv(cfg, Run(cfg, start, actions)) && RunObserved(cfg, start, actions)
    ensures StoreObserved(cfg, start, actions + [a], Current(Next(cfg, Run(cfg, start, actions), a).log).objs)
  {
    var s := Run(cfg, start, actions);
    assert StoreObserved(cfg, start, actions, s.log[|s.log| - 1].objs);
    if a.WriteStatus? {
      assert CallObserved(cfg, start, actions, WorkerAt(s, a.w));
      UpdateAddsObservation(cfg, start, actions, s, a.w);
    } else {
      if a.Create? {
        assert CallObserved(cfg, start, actions, WorkerAt(s, a.w));
      }
      OthersAddNoEntry(cfg, start, actions, s, a);
    }
    StoreStays(cfg, start, actions, a, Current(Next(cfg, s, a).log).objs);
  }

  lemma {:induction false} OneMoreKeepsObserved(cfg: Config, start: State, actions: seq<Action>, a: Action)
    requires Inv(cfg, Run(cfg, start, actions)) && RunObserved(cfg, start, actions)
    ensures RunObserved(cfg, start, actions + [a])
  {
    var s := Run(cfg, start, actions);
    var s' := Next(cfg, s, a);
    RunOneMore(cfg, start, actions, a);
    forall w: nat ensures CallObserved(cfg, start, actions + [a], WorkerAt(s', w)) {
      NextKeepsCall(cfg, start, actions, a, w);
    }
    OneVersionMore(cfg, s, a);
    NextAddsObservations(cfg, start, actions, a);
    forall k | 0 <= k < |s'.log| ensures StoreObserved(cfg, start, actions + [a], s'.log[k].objs) {
      if k < |s.log| {
        assert s'.log[k] == s.log[k];
        StoreStays(cfg, start, actions, a, s.log[k].objs);
      }
    }
  }

  lemma OneVersionMore(cfg: Config, s: State, a: Action)
    requires s.log != []
    ensures s.log <= Next(cfg, s, a).log && |Next(cfg, s, a).log| <= |s.log| + 1
  {
  }

  lemma {:induction false} RunIsObserved(cfg: Config, clock: Time, actions: seq<Action>)
    requires ConfigOk(cfg)
    ensures RunObserved(cfg, Init(clock), actions)
  {
    if actions != [] {
      var init := actions[..|actions| - 1];
      RunIsObserved(cfg, clock, init);
      ReachedIsInv(cfg, clock, init);
      OneMoreKeepsObserved(cfg, Init(clock), init, actions[|actions| - 1]);
      assert init + [actions[|actions| - 1]] == actions;
    }
  }

  /** Every entry of every version of every run is what an observation of that run derived for the pod
      the record is about, as stored; and one made by the time the version was (`before` is any part of
      the run in which the version has been made). */
  lemma {:induction false} EntriesAreObservations(
    cfg: Config, clock: Time, before: seq<Action>, after: seq<Action>, k: int, name: string, m: int)
    requires ConfigOk(cfg) && 0 <= k < |Reached(cfg, clock, before).log|
    requires 0 <= m < |History(Reached(cfg, clock, before).log, k, name)|
    ensures Reached(cfg, clock, before).log <= Reached(cfg, clock, before + after).log
    ensures var log := Reached(cfg, clock, before + after).log;
            && name in log[k].objs && m < |History(log, k, name)|
            && IsObservation(cfg, Init(clock), before, log[k].objs[name].spec.podUID, History(log, k, name)[m])
  {
    var s, s' := Reached(cfg, clock, before), Reached(cfg, clock, before + after);
    RunConcat(cfg, Init(clock), before, after);
    RunExtendsLog(cfg, s, after);
    assert s'.log[k] == s.log[k];
    RunIsObserved(cfg, clock, before);
    assert StoreObserved(cfg, Init(clock), before, s.log[k].objs);
    assert AllObservations(cfg, Init(clock), before, s.log[k].objs[name]);
  }

  /** Every record of every version of every run describes what an observation of that run, made by
      the time the version was, said of the pod; it carries the volume context resolved then, if the
      pod was there. */
  lemma {:induction false} RecordsDescribeObservedPods(
    cfg: Config, clock: Time, before: seq<Action>, after: seq<Action>, k: int, name: string)
    requires ConfigOk(cfg) && 0 <= k < |Reached(cfg, clock, before).log|
    requires name in Reached(cfg, clock, before).log[k].objs
    ensures Reached(cfg, clock, before).log <= Reached(cfg, clock, before + after).log
    ensures var log := Reached(cfg, clock, before + after).log;
            name in log[k].objs && SpecObserved(cfg, Init(clock), before, log[k].objs[name].spec)
  {
    var s, s' := Reached(cfg, clock, before), Reached(cfg, clock, before + after);
    RunConcat(cfg, Init(clock), before, after);
    RunExtendsLog(cfg, s, after);
    assert s'.log[k] == s.log[k];
    RunIsObserved(cfg, clock, before);
    assert StoreObserved(cfg, Init(clock), before, s.log[k].objs);
    assert AllObservations(cfg, Init(clock), before, s.log[k].objs[name]);
  }

  // ----- what one call creates -----

  predicate NoObserve(actions: seq<Action>, w: nat) {
    forall i :: 0 <= i < |actions| ==> !(actions[i].Observe? && actions[i].w == w)
  }

  /** A version that w created holds a record of the call w was at. */
  predicate CreatedFrom(log: seq<Snapshot>, k: int, call: Call)
    requires 0 <= k < |log|
  {
    log[k].edit.Created? ==>
      && log[k].edit.name == DecisionName(call.identity.uid)
      && log[k].edit.name in log[k].objs && log[k].objs[log[k].edit.name].spec == SpecOf(call)
  }

  lemma StepCreatesFrom(cfg: Config, s: State, a: Action, w: nat)
    requires s.log != [] && !WorkerAt(s, w).Idle? && !(a.Observe? && a.w == w)
    ensures var s' := Next(cfg, s, a);
            && !WorkerAt(s', w).Idle? && WorkerAt(s', w).call == WorkerAt(s, w).call
            && s.log <= s'.log && |s'.log| <= |s.log| + 1
            && (|s'.log| > |s.log| && WrittenBy(s'.log[|s.log|].edit, w) ==>
                  CreatedFrom(s'.log, |s.log|, WorkerAt(s, w).call))
  {
  }

  /** Until it observes again, a worker creates no record but that of its call. */
  lemma {:induction false} RunCreatesFrom(cfg: Config, s: State, actions: seq<Action>, w: nat, call: Call, k: int)
    requires s.log != [] && !WorkerAt(s, w).Idle? && WorkerAt(s, w).call == call && NoObserve(actions, w)
    ensures var s' := Run(cfg, s, actions);
            && s.log <= s'.log && !WorkerAt(s', w).Idle? && WorkerAt(s', w).call == call
            && (|s.log| <= k < |s'.log| && WrittenBy(s'.log[k].edit, w) ==> CreatedFrom(s'.log, k, call))
  {
    if actions != [] {
      var init := actions[..|actions| - 1];
      RunCreatesFrom(cfg, s, init, w, call, k);
      StepCreatesFrom(cfg, Run(cfg, s, init), actions[|actions| - 1], w);
    }
  }
}
