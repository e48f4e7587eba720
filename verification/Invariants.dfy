/** What every reachable state of the recording protocol satisfies, whatever the workers,
    the sweep, other deleters and the caches do. */
module Invariants {
  import opened Clock
  import opened Model
  import opened Derivation
  import opened Labels
  import opened Protocol

  // ----- objects -----

  /** Name, label and spec agree on the pod's UID; the expiry label is the one computed from the
      stamp; the latest-outcome fields mirror the last entry; only Scheduled entries name a node. */
  ghost predicate ObjOk(cfg: Config, name: string, o: Obj, nextVersion: nat) {
    && name == DecisionName(o.spec.podUID)
    && POD_UID in o.labels && o.labels[POD_UID] == o.spec.podUID
    && StampedFor(o.labels, o.stamp, cfg.window)
    && WholeStatus(o.status)
    && Mirrors(o.status)
    && (forall i :: 0 <= i < |o.status.transitions| ==> NodeOnlyIfScheduled(o.status.transitions[i]))
    && o.incarnation <= o.resourceVersion < nextVersion
  }

  ghost predicate StoreOk(cfg: Config, objs: Store, nextVersion: nat) {
    forall name :: name in objs ==> ObjOk(cfg, name, objs[name], nextVersion)
  }

  /** y can be seen under a name after x was: versions identify contents, incarnations never
      come back, and within one incarnation only the history changes, by growing. */
  ghost predicate Succeeds(x: Obj, y: Obj) {
    && x.incarnation <= y.incarnation
    && x.resourceVersion <= y.resourceVersion
    && (x.resourceVersion == y.resourceVersion ==> x == y)
    && (x.incarnation == y.incarnation ==>
          && x.labels == y.labels && x.spec == y.spec && x.stamp == y.stamp
          && x.status.transitions <= y.status.transitions)
  }

  ghost predicate StoreSucceeds(a: Store, b: Store) {
    forall name :: name in a && name in b ==> Succeeds(a[name], b[name])
  }

  /** y is x with one more entry in its history, mirrored. */
  ghost predicate OneMore(x: Obj, y: Obj) {
    var n := |y.status.transitions|;
    && n > 0
    && y == x.(resourceVersion := y.resourceVersion, status := Applied(x.status, y.status.transitions[n - 1]))
  }

  /** The edit accounts for the whole difference between two successive versions. */
  ghost predicate Explained(before: Store, snap: Snapshot) {
    match snap.edit
    case Genesis => false
    case Created(name, _) =>
      && name !in before && name in snap.objs
      && snap.objs == before[name := snap.objs[name]]
      && snap.objs[name].status == EMPTY_STATUS
    case Appended(name, _) =>
      && name in before && name in snap.objs
      && snap.objs == before[name := snap.objs[name]]
      && OneMore(before[name], snap.objs[name])
    case Swept(name, _) => name in before && snap.objs == before - {name}
    case Removed(name) => name in before && snap.objs == before - {name}
  }

  /** A creation starts an incarnation no earlier version had under that name. */
  ghost predicate StartsAnew(a: Store, snap: Snapshot) {
    snap.edit.Created? && snap.edit.name in a && snap.edit.name in snap.objs ==>
      a[snap.edit.name].incarnation < snap.objs[snap.edit.name].incarnation
  }

  ghost predicate LogOk(cfg: Config, log: seq<Snapshot>, nextVersion: nat) {
    && |log| > 0
    && (forall k :: 0 <= k < |log| ==> StoreOk(cfg, log[k].objs, nextVersion))
    && (forall i, j :: 0 <= i <= j < |log| ==> StoreSucceeds(log[i].objs, log[j].objs))
    && (forall i, j :: 0 <= i < j < |log| ==> StartsAnew(log[i].objs, log[j]))
    && (forall k :: 0 < k < |log| ==> Explained(log[k - 1].objs, log[k]))
  }

  // ----- workers -----

  predicate WrittenBy(edit: Edit, w: nat) {
    (edit.Created? || edit.Appended?) && edit.worker == w
  }

  /** w wrote no version after `since`, other than version `except`. */
  ghost predicate NoWriteBy(log: seq<Snapshot>, w: nat, since: nat, except: int) {
    forall k :: since < k < |log| && k != except ==> !WrittenBy(log[k].edit, w)
  }

  /** Version `at` holds the incarnation, and its last entry is the transition as stored. */
  ghost predicate Witnessed(log: seq<Snapshot>, name: string, incarnation: nat, at: nat, t: Transition) {
    && at < |log|
    && name in log[at].objs
    && log[at].objs[name].incarnation == incarnation
    && RepeatsLast(log[at].objs[name].status, Stored(t))
  }

  function NameOf(call: Call): string {
    DecisionName(call.identity.uid)
  }

  ghost predicate WorkerOk(cfg: Config, log: seq<Snapshot>, w: nat, worker: Worker) {
    match worker
    case Idle => true
    case Ensuring(call) => NodeOnlyIfScheduled(call.transition)
    case Creating(call, _) => NodeOnlyIfScheduled(call.transition)
    case Appending(call, left, since, lost) =>
      && NodeOnlyIfScheduled(call.transition)
      && 1 <= left && left + lost <= cfg.attempts && since < |log|
      && NoWriteBy(log, w, since, -1)
    case Updating(call, left, since, lost, read, at) =>
      && NodeOnlyIfScheduled(call.transition)
      && 1 <= left && left + lost <= cfg.attempts && since < |log|
      && NoWriteBy(log, w, since, -1)
      && at < |log| && Lookup(log[at].objs, NameOf(call)) == Some(read)
      && !RepeatsLast(read.status, call.transition)
    case Done(call, verdict, since, lost) =>
      && NodeOnlyIfScheduled(call.transition)
      && since <= |log| && lost <= cfg.attempts
      && match verdict
         case Failed(_) => NoWriteBy(log, w, since, -1)
         case Acked(incarnation, at) =>
           Witnessed(log, NameOf(call), incarnation, at, call.transition) && NoWriteBy(log, w, since, at)
  }

  ghost predicate Inv(cfg: Config, s: State) {
    && ConfigOk(cfg)
    && LogOk(cfg, s.log, s.nextVersion)
    && (forall w: nat :: WorkerOk(cfg, s.log, w, WorkerAt(s, w)))
  }

  // ----- preservation -----

  /** The two shapes of a version that holds an object the previous one did not. */
  ghost predicate FreshObj(cfg: Config, before: Store, snap: Snapshot, nextVersion: nat) {
    (snap.edit.Created? || snap.edit.Appended?) ==>
      && snap.edit.name in snap.objs
      && var o := snap.objs[snap.edit.name];
         && ObjOk(cfg, snap.edit.name, o, nextVersion + 1)
         && o.resourceVersion == nextVersion
         && (snap.edit.Created? ==> o.incarnation == nextVersion)
  }

  lemma PublishedSucceeds(cfg: Config, log: seq<Snapshot>, snap: Snapshot, nextVersion: nat, i: int)
    requires LogOk(cfg, log, nextVersion) && 0 <= i < |log|
    requires Explained(Current(log).objs, snap) && FreshObj(cfg, Current(log).objs, snap, nextVersion)
    ensures StoreSucceeds(log[i].objs, snap.objs) && StartsAnew(log[i].objs, snap)
  {
    var a, c := log[i].objs, Current(log).objs;
    assert StoreSucceeds(a, c);
    assert StoreOk(cfg, a, nextVersion);
    forall name | name in a
      ensures a[name].incarnation < nextVersion && (name in snap.objs ==> Succeeds(a[name], snap.objs[name]))
    {
      assert ObjOk(cfg, name, a[name], nextVersion);
    }
  }

  lemma PublishedStoreOk(cfg: Config, log: seq<Snapshot>, snap: Snapshot, nextVersion: nat, k: int)
    requires LogOk(cfg, log, nextVersion) && 0 <= k <= |log|
    requires Explained(Current(log).objs, snap) && FreshObj(cfg, Current(log).objs, snap, nextVersion)
    ensures StoreOk(cfg, (log + [snap])[k].objs, nextVersion + 1)
  {
    var seen := if k < |log| then log[k].objs else Current(log).objs;
    assert StoreOk(cfg, seen, nextVersion);
    var objs := (log + [snap])[k].objs;
    forall name | name in objs ensures ObjOk(cfg, name, objs[name], nextVersion + 1) {
      if name in seen {
        assert ObjOk(cfg, name, seen[name], nextVersion);
      }
    }
  }

  lemma PublishKeepsLog(cfg: Config, log: seq<Snapshot>, snap: Snapshot, nextVersion: nat)
    requires LogOk(cfg, log, nextVersion)
    requires Explained(Current(log).objs, snap) && FreshObj(cfg, Current(log).objs, snap, nextVersion)
    ensures LogOk(cfg, log + [snap], nextVersion + 1)
  {
    var log' := log + [snap];
    forall k | 0 <= k < |log'| ensures StoreOk(cfg, log'[k].objs, nextVersion + 1) {
      PublishedStoreOk(cfg, log, snap, nextVersion, k);
    }
    forall i, j | 0 <= i <= j < |log'| ensures StoreSucceeds(log'[i].objs, log'[j].objs) {
      if i < j == |log| {
        PublishedSucceeds(cfg, log, snap, nextVersion, i);
      } else if j < |log| {
        assert StoreSucceeds(log[i].objs, log[j].objs);
      }
    }
    forall i, j | 0 <= i < j < |log'| ensures StartsAnew(log'[i].objs, log'[j]) {
      if j == |log| {
        PublishedSucceeds(cfg, log, snap, nextVersion, i);
      } else {
        assert StartsAnew(log[i].objs, log[j]);
      }
    }
    forall k | 0 < k < |log'| ensures Explained(log'[k - 1].objs, log'[k]) {
      if k < |log| {
        assert Explained(log[k - 1].objs, log[k]);
      }
    }
  }

  /** A worker that does not move is not disturbed by another's version. */
  lemma OthersKeepWorker(cfg: Config, log: seq<Snapshot>, snap: Snapshot, w: nat, worker: Worker)
    requires WorkerOk(cfg, log, w, worker) && !WrittenBy(snap.edit, w)
    ensures WorkerOk(cfg, log + [snap], w, worker)
  {
  }

  /** One publication and the move of at most one worker keep the invariant. */
  lemma PublishKeepsInv(cfg: Config, s: State, s': State, snap: Snapshot, w: nat)
    requires Inv(cfg, s)
    requires s'.log == s.log + [snap] && s'.nextVersion == s.nextVersion + 1
    requires Explained(Current(s.log).objs, snap) && FreshObj(cfg, Current(s.log).objs, snap, s.nextVersion)
    requires forall v: nat :: v != w ==> WorkerAt(s', v) == WorkerAt(s, v) && !WrittenBy(snap.edit, v)
    requires WorkerOk(cfg, s'.log, w, WorkerAt(s', w))
    ensures Inv(cfg, s')
  {
    PublishKeepsLog(cfg, s.log, snap, s.nextVersion);
    forall v: nat ensures WorkerOk(cfg, s'.log, v, WorkerAt(s', v)) {
      if v != w {
        OthersKeepWorker(cfg, s.log, snap, v, WorkerAt(s, v));
      }
    }
  }

  lemma QuietKeepsInv(cfg: Config, s: State, s': State, w: nat)
    requires Inv(cfg, s)
    requires s'.log == s.log && s'.nextVersion == s.nextVersion
    requires forall v: nat :: v != w ==> WorkerAt(s', v) == WorkerAt(s, v)
    requires WorkerOk(cfg, s'.log, w, WorkerAt(s', w))
    ensures Inv(cfg, s')
  {
  }

  lemma SameWorkersKeepInv(cfg: Config, s: State, s': State)
    requires Inv(cfg, s)
    requires s'.log == s.log && s'.nextVersion == s.nextVersion && s'.workers == s.workers
    ensures Inv(cfg, s')
  {
    assert WorkerOk(cfg, s.log, 0, WorkerAt(s, 0));
    forall v: nat ensures WorkerOk(cfg, s'.log, v, WorkerAt(s', v)) {
      assert WorkerAt(s', v) == WorkerAt(s, v);
    }
  }

  lemma CreateKeepsInv(cfg: Config, s: State, w: nat)
    requires Inv(cfg, s)
    ensures Inv(cfg, DoCreate(s, cfg, w))
  {
    var p, s' := WorkerAt(s, w), DoCreate(s, cfg, w);
    assert WorkerOk(cfg, s.log, w, p);
    if p.Creating? {
      var name, objs := NameOf(p.call), Current(s.log).objs;
      if name in objs {
        QuietKeepsInv(cfg, s, s', w);
      } else {
        var o := NewObj(s, cfg, p.call, p.stamp);
        assert Whole(ZERO_TIME);
        assert ObjOk(cfg, name, o, s.nextVersion + 1);
        PublishKeepsInv(cfg, s, s', Snapshot(objs[name := o], s.clock, Created(name, w)), w);
      }
    }
  }

  lemma ReadBackKeepsInv(cfg: Config, s: State, w: nat, k: nat)
    requires Inv(cfg, s)
    ensures Inv(cfg, DoReadBack(s, w, k))
  {
    var p, s' := WorkerAt(s, w), DoReadBack(s, w, k);
    assert WorkerOk(cfg, s.log, w, p);
    if p.Appending? {
      var at := ReadIndex(s.log, k);
      var found := CachedLookup(s.log, k, NameOf(p.call));
      assert found == Lookup(s.log[at].objs, NameOf(p.call));
      if found.Some? && RepeatsLast(found.value.status, p.call.transition) {
        assert StoreOk(cfg, s.log[at].objs, s.nextVersion);
        assert ObjOk(cfg, NameOf(p.call), found.value, s.nextVersion);
        TruncBounds(p.call.transition.decisionTimestamp);
        assert Stored(p.call.transition) == p.call.transition;
      }
      QuietKeepsInv(cfg, s, s', w);
    }
  }

  /** The version a successful update writes: the version that was read, with the transition as
      stored appended. */
  lemma UpdateWritesOnReadVersion(cfg: Config, s: State, w: nat)
    requires Inv(cfg, s)
    requires WorkerAt(s, w).Updating?
    requires UpdateError(s, NameOf(WorkerAt(s, w).call), WorkerAt(s, w).read.resourceVersion).None?
    ensures var p, s' := WorkerAt(s, w), DoWriteStatus(s, w);
            var name := NameOf(p.call);
            && name in Current(s.log).objs && Current(s.log).objs[name] == p.read
            && name in Current(s'.log).objs
            && Current(s'.log).objs[name]
               == p.read.(resourceVersion := s.nextVersion, status := Applied(p.read.status, Stored(p.call.transition)))
            && s'.log == s.log + [Current(s'.log)]
            && Current(s'.log)
               == Snapshot(Current(s.log).objs[name := Current(s'.log).objs[name]], s.clock, Appended(name, w))
  {
    var p := WorkerAt(s, w);
    var name, objs := NameOf(p.call), Current(s.log).objs;
    assert WorkerOk(cfg, s.log, w, p);
    assert StoreSucceeds(s.log[p.at].objs, s.log[|s.log| - 1].objs);
    assert Succeeds(p.read, objs[name]);
    assert StoreOk(cfg, objs, s.nextVersion);
    assert ObjOk(cfg, name, objs[name], s.nextVersion);
    StoringAnAppliedStatus(p.read.status, p.call.transition);
  }

  /** The object a successful update leaves is well formed. */
  lemma WrittenObjIsOk(cfg: Config, name: string, read: Obj, t: Transition, nextVersion: nat)
    requires ObjOk(cfg, name, read, nextVersion) && NodeOnlyIfScheduled(t)
    ensures var o := read.(resourceVersion := nextVersion, status := Applied(read.status, Stored(t)));
            ObjOk(cfg, name, o, nextVersion + 1) && OneMore(read, o)
  {
    StoringAnAppliedStatus(read.status, t);
  }

  lemma WriteStatusKeepsInv(cfg: Config, s: State, w: nat)
    requires Inv(cfg, s)
    ensures Inv(cfg, DoWriteStatus(s, w))
  {
    var p, s' := WorkerAt(s, w), DoWriteStatus(s, w);
    assert WorkerOk(cfg, s.log, w, p);
    if p.Updating? {
      var name := NameOf(p.call);
      if UpdateError(s, name, p.read.resourceVersion).Some? {
        QuietKeepsInv(cfg, s, s', w);
      } else {
        UpdateWritesOnReadVersion(cfg, s, w);
        assert StoreOk(cfg, Current(s.log).objs, s.nextVersion);
        WrittenObjIsOk(cfg, name, p.read, p.call.transition, s.nextVersion);
        WriterIsAcked(cfg, s, w);
        PublishKeepsInv(cfg, s, s', Current(s'.log), w);
      }
    }
  }

  lemma WriterIsAcked(cfg: Config, s: State, w: nat)
    requires Inv(cfg, s)
    requires WorkerAt(s, w).Updating?
    requires UpdateError(s, NameOf(WorkerAt(s, w).call), WorkerAt(s, w).read.resourceVersion).None?
    ensures var s' := DoWriteStatus(s, w); WorkerOk(cfg, s'.log, w, WorkerAt(s', w))
  {
    var p, s' := WorkerAt(s, w), DoWriteStatus(s, w);
    assert WorkerOk(cfg, s.log, w, p);
    UpdateWritesOnReadVersion(cfg, s, w);
  }

  lemma DeleteKeepsInv(cfg: Config, s: State, name: string, edit: Edit)
    requires Inv(cfg, s)
    requires (edit.Swept? && edit.name == name) || edit == Removed(name)
    ensures Inv(cfg, ServerDelete(s, name, edit))
  {
    var objs := Current(s.log).objs;
    if name in objs {
      var snap := Snapshot(objs - {name}, s.clock, edit);
      assert WorkerOk(cfg, s.log, 0, WorkerAt(s, 0));
      OthersKeepWorker(cfg, s.log, snap, 0, WorkerAt(s, 0));
      PublishKeepsInv(cfg, s, ServerDelete(s, name, edit), snap, 0);
    }
  }

  lemma SweepNextKeepsInv(cfg: Config, s: State, fails: bool)
    requires Inv(cfg, s)
    ensures Inv(cfg, DoSweepNext(s, fails))
  {
    if s.sweep.Sweeping? && s.sweep.next < |s.sweep.items| {
      var item := s.sweep.items[s.sweep.next];
      var advanced := s.(sweep := s.sweep.(next := s.sweep.next + 1));
      SameWorkersKeepInv(cfg, s, advanced);
      DeleteKeepsInv(cfg, advanced, item.name, Swept(item.name, s.sweep.listed));
    } else {
      SameWorkersKeepInv(cfg, s, DoSweepNext(s, fails));
    }
  }

  /** Moves that write nothing. */
  lemma ObserveKeepsInv(cfg: Config, s: State, a: Action)
    requires Inv(cfg, s) && a.Observe?
    ensures Inv(cfg, DoObserve(s, a))
  {
    DerivedIsWellFormed(a.pod, a.events, s.clock);
    assert WorkerOk(cfg, s.log, a.w, WorkerAt(s, a.w));
    QuietKeepsInv(cfg, s, DoObserve(s, a), a.w);
  }

  lemma CheckExistsKeepsInv(cfg: Config, s: State, w: nat, k: nat)
    requires Inv(cfg, s)
    ensures Inv(cfg, DoCheckExists(s, cfg, w, k))
  {
    assert WorkerOk(cfg, s.log, w, WorkerAt(s, w));
    QuietKeepsInv(cfg, s, DoCheckExists(s, cfg, w, k), w);
  }

  lemma FaultKeepsInv(cfg: Config, s: State, w: nat)
    requires Inv(cfg, s)
    ensures Inv(cfg, DoFault(s, w))
  {
    assert WorkerOk(cfg, s.log, w, WorkerAt(s, w));
    QuietKeepsInv(cfg, s, DoFault(s, w), w);
  }

  lemma NextKeepsInv(cfg: Config, s: State, a: Action)
    requires Inv(cfg, s)
    ensures Inv(cfg, Next(cfg, s, a))
  {
    match a
    case Observe(_, _, _, _) => ObserveKeepsInv(cfg, s, a);
    case CheckExists(w, k) => CheckExistsKeepsInv(cfg, s, w, k);
    case Create(w) => CreateKeepsInv(cfg, s, w);
    case ReadBack(w, k) => ReadBackKeepsInv(cfg, s, w, k);
    case WriteStatus(w) => WriteStatusKeepsInv(cfg, s, w);
    case Fault(w) => FaultKeepsInv(cfg, s, w);
    case SweepNext(fails) => SweepNextKeepsInv(cfg, s, fails);
    case AdminDelete(target) => DeleteKeepsInv(cfg, s, target, Removed(target));
    case _ => SameWorkersKeepInv(cfg, s, Next(cfg, s, a));
  }

  lemma {:induction false} RunKeepsInv(cfg: Config, s: State, actions: seq<Action>)
    requires Inv(cfg, s)
    ensures Inv(cfg, Run(cfg, s, actions))
  {
    if actions != [] {
      RunKeepsInv(cfg, s, actions[..|actions| - 1]);
      NextKeepsInv(cfg, Run(cfg, s, actions[..|actions| - 1]), actions[|actions| - 1]);
    }
  }

  lemma InitIsInv(cfg: Config, clock: Time)
    requires ConfigOk(cfg)
    ensures Inv(cfg, Init(clock))
  {
  }

  /** The versions a run has seen stay in its log. */
  lemma {:induction false} RunExtendsLog(cfg: Config, s: State, actions: seq<Action>)
    ensures s.log <= Run(cfg, s, actions).log
  {
    if actions != [] {
      RunExtendsLog(cfg, s, actions[..|actions| - 1]);
    }
  }
}
