/** The API server's store and the processes sharing it, as a state machine.

    A run is a sequence of actions.  `Next` is total: an action whose actor is not at the
    matching point does nothing, so every sequence is a run and every choice (who moves, how
    stale a cached read is, what fails, how far the clock moves) is made by the actions. */
module Protocol {
  import opened Clock
  import opened Model
  import opened Derivation
  import opened Labels

  // ----- the store -----

  /** A stored decision.  `incarnation` tells a re-created object from a deleted one of the same
      name.  `stamp` records the clock reading its expiry label was computed from; no process
      reads it. */
  datatype Obj = Obj(
    incarnation: nat, resourceVersion: nat, labels: map<string, string>, spec: Spec, status: Status, stamp: Time)

  type Store = map<string, Obj>

  /** Which call produced a version of the store; of a deletion by the sweep, also which version it
      had listed. */
  datatype Edit =
    | Genesis
    | Created(name: string, worker: nat)
    | Appended(name: string, worker: nat)
    | Swept(name: string, listed: nat)
    | Removed(name: string)

  predicate Concerns(edit: Edit, name: string) {
    !edit.Genesis? && edit.name == name
  }

  datatype Snapshot = Snapshot(objs: Store, clock: Time, edit: Edit)

  /** Retry budget and retention window of the deployment. */
  datatype Config = Config(attempts: nat, window: int)

  predicate ConfigOk(cfg: Config) {
    cfg.attempts >= 1 && cfg.window > 0
  }

  /** The newest version. */
  function Current(log: seq<Snapshot>): Snapshot {
    if log == [] then Snapshot(map[], 0, Genesis) else log[|log| - 1]
  }

  /** A version a cache may still be serving; an index beyond the end means a fresh read. */
  function ReadIndex(log: seq<Snapshot>, k: nat): int {
    if k < |log| then k else |log| - 1
  }

  function Lookup(objs: Store, name: string): Option<Obj> {
    if name in objs then Some(objs[name]) else None
  }

  function CachedLookup(log: seq<Snapshot>, k: nat, name: string): Option<Obj> {
    if log == [] then None else Lookup(log[ReadIndex(log, k)].objs, name)
  }

  function DecisionName(uid: string): string {
    "sdec-" + uid
  }

  // ----- the processes -----

  /** One reconcile's input to the recording steps.  `began` is when it was derived; nothing reads it. */
  datatype Call = Call(identity: Identity, transition: Transition, volume: Option<VolumeContext>, began: Time)

  datatype Error = NotFound | Conflict | Other

  /** `at` and `incarnation` say which version of which object the acknowledgement rests on. */
  datatype Verdict = Acked(incarnation: nat, at: nat) | Failed(error: Error)

  /** Where a worker stands in recordTransition.  `since` is the version at which its retry loop
      began and `lost` the number of attempts that failed at the update; neither is read by it. */
  datatype Worker =
    | Idle
    | Ensuring(call: Call)
    | Creating(call: Call, stamp: Time)
    | Appending(call: Call, left: nat, since: nat, lost: nat)
    | Updating(call: Call, left: nat, since: nat, lost: nat, read: Obj, at: nat)
    | Done(call: Call, verdict: Verdict, since: nat, lost: nat)

  datatype Item = Item(name: string, incarnation: nat, labels: map<string, string>)

  /** `listed` is the version that was listed; the sweep does not read it. */
  datatype Sweep =
    | NoSweep
    | SweepStarted(now: Time)
    | Sweeping(now: Time, items: seq<Item>, next: nat, listed: nat)

  datatype State = State(
    log: seq<Snapshot>, nextVersion: nat, clock: Time, workers: map<nat, Worker>, sweep: Sweep)

  function WorkerAt(s: State, w: nat): Worker {
    if w in s.workers then s.workers[w] else Idle
  }

  function Put(s: State, w: nat, worker: Worker): State {
    s.(workers := s.workers[w := worker])
  }

  function Init(clock: Time): State {
    State([Snapshot(map[], clock, Genesis)], 1, clock, map[], NoSweep)
  }

  // ----- the server's calls -----

  function Publish(s: State, objs: Store, edit: Edit): State {
    s.(log := s.log + [Snapshot(objs, s.clock, edit)], nextVersion := s.nextVersion + 1)
  }

  function NewObj(s: State, cfg: Config, call: Call, stamp: Time): Obj {
    Obj(s.nextVersion, s.nextVersion,
        map[POD_UID := call.identity.uid, EXPIRES_AT := ExpiryLabel(stamp, cfg.window)],
        Spec(call.identity.name, call.identity.namespace, call.identity.uid, call.identity.schedulerName, call.volume),
        EMPTY_STATUS, stamp)
  }

  /** Create: AlreadyExists when the name is taken. */
  function ServerCreate(s: State, w: nat, name: string, o: Obj): State {
    var objs := Current(s.log).objs;
    if name in objs then s else Publish(s, objs[name := o], Created(name, w))
  }

  function UpdateError(s: State, name: string, resourceVersion: nat): Option<Error> {
    var objs := Current(s.log).objs;
    if name !in objs then Some(NotFound)
    else if objs[name].resourceVersion != resourceVersion then Some(Conflict)
    else None
  }

  /** Status().Update: only on a matching resource version, and only the status. */
  function ServerUpdateStatus(s: State, w: nat, name: string, resourceVersion: nat, status: Status): State {
    var objs := Current(s.log).objs;
    if UpdateError(s, name, resourceVersion).Some? then s
    else
      Publish(s, objs[name := objs[name].(resourceVersion := s.nextVersion, status := StoredStatus(status))],
              Appended(name, w))
  }

  /** Delete: by name alone. */
  function ServerDelete(s: State, name: string, edit: Edit): State {
    var objs := Current(s.log).objs;
    if name !in objs then s else Publish(s, objs - {name}, edit)
  }

  // ----- actions -----

  datatype Action =
    | Observe(w: nat, pod: Option<Pod>, events: seq<Event>, volume: Option<VolumeContext>)
    | CheckExists(w: nat, k: nat)
    | Create(w: nat)
    | ReadBack(w: nat, k: nat)
    | WriteStatus(w: nat)
    | Fault(w: nat)
    | Tick(elapsed: nat)
    | StartSweep
    | ListDecisions(order: seq<string>)
    | SweepNext(deleteFails: bool)
    | StopSweep
    | AdminDelete(target: string)

  predicate IsStepOf(a: Action, w: nat) {
    (a.Observe? || a.CheckExists? || a.Create? || a.ReadBack? || a.WriteStatus? || a.Fault?) && a.w == w
  }

  /** The volume context is only resolved for a pod that is still there. */
  function CallOf(d: Derived, pod: Option<Pod>, volume: Option<VolumeContext>, now: Time): Call {
    Call(d.identity, d.transition, if pod.Some? then volume else None, now)
  }

  /** Reconcile derives a transition and, if there is one, goes on to record it. */
  function DoObserve(s: State, a: Action): State
    requires a.Observe?
  {
    if !(WorkerAt(s, a.w).Idle? || WorkerAt(s, a.w).Done?) then s
    else
      var d := DeriveTransition(a.pod, a.events, s.clock);
      if d.None? then Put(s, a.w, Idle)
      else Put(s, a.w, Ensuring(CallOf(d.value, a.pod, a.volume, s.clock)))
  }

  function BeginAppend(s: State, cfg: Config, call: Call): Worker {
    Appending(call, cfg.attempts, if s.log == [] then 0 else |s.log| - 1, 0)
  }

  /** The cached Get of ensureDecisionCreated. */
  function DoCheckExists(s: State, cfg: Config, w: nat, k: nat): State {
    var p := WorkerAt(s, w);
    if !p.Ensuring? then s
    else if CachedLookup(s.log, k, DecisionName(p.call.identity.uid)).Some? then Put(s, w, BeginAppend(s, cfg, p.call))
    else Put(s, w, Creating(p.call, s.clock))
  }

  /** The Create of ensureDecisionCreated; AlreadyExists counts as success. */
  function DoCreate(s: State, cfg: Config, w: nat): State {
    var p := WorkerAt(s, w);
    if !p.Creating? then s
    else
      var s' := ServerCreate(s, w, DecisionName(p.call.identity.uid), NewObj(s, cfg, p.call, p.stamp));
      Put(s', w, BeginAppend(s', cfg, p.call))
  }

  /** A retriable failure: try again while the budget lasts. */
  function AfterFailure(call: Call, left: nat, since: nat, lost: nat, error: Error): Worker {
    if left <= 1 then Done(call, Failed(error), since, lost) else Appending(call, left - 1, since, lost)
  }

  /** The cached Get of an attempt, and the comparison with the last entry. */
  function AfterRead(p: Worker, found: Option<Obj>, at: nat): Worker
    requires p.Appending?
  {
    if found.None? then AfterFailure(p.call, p.left, p.since, p.lost, NotFound)
    else if RepeatsLast(found.value.status, p.call.transition) then
      Done(p.call, Acked(found.value.incarnation, at), p.since, p.lost)
    else Updating(p.call, p.left, p.since, p.lost, found.value, at)
  }

  function DoReadBack(s: State, w: nat, k: nat): State {
    var p := WorkerAt(s, w);
    if !p.Appending? || s.log == [] then s
    else
      var found := CachedLookup(s.log, k, DecisionName(p.call.identity.uid));
      Put(s, w, AfterRead(p, found, ReadIndex(s.log, k)))
  }

  /** The Status().Update of an attempt. */
  function AfterWrite(p: Worker, error: Option<Error>, at: nat): Worker
    requires p.Updating?
  {
    if error.Some? then AfterFailure(p.call, p.left, p.since, p.lost + 1, error.value)
    else Done(p.call, Acked(p.read.incarnation, at), p.since, p.lost)
  }

  function DoWriteStatus(s: State, w: nat): State {
    var p := WorkerAt(s, w);
    if !p.Updating? then s
    else
      var name := DecisionName(p.call.identity.uid);
      var error := UpdateError(s, name, p.read.resourceVersion);
      var s' := ServerUpdateStatus(s, w, name, p.read.resourceVersion, Applied(p.read.status, p.call.transition));
      Put(s', w, AfterWrite(p, error, if s'.log == [] then 0 else |s'.log| - 1))
  }

  /** Any other error of the pending call ends the reconcile; nothing was written. */
  function DoFault(s: State, w: nat): State {
    var p := WorkerAt(s, w);
    match p
    case Idle => s
    case Done(_, _, _, _) => s
    case Ensuring(call) => Put(s, w, Done(call, Failed(Other), |s.log|, 0))
    case Creating(call, _) => Put(s, w, Done(call, Failed(Other), |s.log|, 0))
    case Appending(call, _, since, lost) => Put(s, w, Done(call, Failed(Other), since, lost))
    case Updating(call, _, since, lost, _, _) => Put(s, w, Done(call, Failed(Other), since, lost))
  }

  /** An order in which a list can return the store's names. */
  predicate Enumerates(order: seq<string>, objs: Store) {
    && (forall i :: 0 <= i < |order| ==> order[i] in objs)
    && (forall i, j :: 0 <= i < j < |order| ==> order[i] != order[j])
    && (forall name :: name in objs ==> name in order)
  }

  function ItemsOf(order: seq<string>, objs: Store): (items: seq<Item>)
    requires forall i :: 0 <= i < |order| ==> order[i] in objs
    ensures |items| == |order|
  {
    seq(|order|, i requires 0 <= i < |order| => Item(order[i], objs[order[i]].incarnation, objs[order[i]].labels))
  }

  /** The sweep's uncached List. */
  function DoListDecisions(s: State, order: seq<string>): State {
    var objs := Current(s.log).objs;
    if s.sweep.SweepStarted? && Enumerates(order, objs) then
      s.(sweep := Sweeping(s.sweep.now, ItemsOf(order, objs), 0, if s.log == [] then 0 else |s.log| - 1))
    else s
  }

  /** One item of the sweep's loop: skip, keep, or delete by name. */
  function DoSweepNext(s: State, deleteFails: bool): State {
    if !s.sweep.Sweeping? then s
    else if s.sweep.next >= |s.sweep.items| then s.(sweep := NoSweep)
    else
      var item := s.sweep.items[s.sweep.next];
      var advanced := s.(sweep := s.sweep.(next := s.sweep.next + 1));
      if IsExpired(item.labels, s.sweep.now) == Some(true) && !deleteFails then
        ServerDelete(advanced, item.name, Swept(item.name, s.sweep.listed))
      else advanced
  }

  function Next(cfg: Config, s: State, a: Action): State {
    match a
    case Observe(_, _, _, _) => DoObserve(s, a)
    case CheckExists(w, k) => DoCheckExists(s, cfg, w, k)
    case Create(w) => DoCreate(s, cfg, w)
    case ReadBack(w, k) => DoReadBack(s, w, k)
    case WriteStatus(w) => DoWriteStatus(s, w)
    case Fault(w) => DoFault(s, w)
    case Tick(elapsed) => s.(clock := s.clock + elapsed)
    case StartSweep => if s.sweep.NoSweep? then s.(sweep := SweepStarted(s.clock)) else s
    case ListDecisions(order) => DoListDecisions(s, order)
    case SweepNext(fails) => DoSweepNext(s, fails)
    case StopSweep => s.(sweep := NoSweep)
    case AdminDelete(target) => ServerDelete(s, target, Removed(target))
  }

  function Run(cfg: Config, s: State, actions: seq<Action>): State {
    if actions == [] then s
    else Next(cfg, Run(cfg, s, actions[..|actions| - 1]), actions[|actions| - 1])
  }

  lemma {:induction false} RunConcat(cfg: Config, s: State, first: seq<Action>, second: seq<Action>)
    ensures Run(cfg, s, first + second) == Run(cfg, Run(cfg, s, first), second)
  {
    if second == [] {
      assert first + second == first;
    } else {
      var n := |second| - 1;
      RunConcat(cfg, s, first, second[..n]);
      assert (first + second)[..|first + second| - 1] == first + second[..n];
    }
  }

  lemma {:induction false} RunOneMore(cfg: Config, s: State, actions: seq<Action>, a: Action)
    ensures Run(cfg, s, actions + [a]) == Next(cfg, Run(cfg, s, actions), a)
  {
    assert (actions + [a])[..|actions + [a]| - 1] == actions;
  }

  /** A worker moves only by its own steps, and versions are only added. */
  lemma OthersDoNotMove(cfg: Config, s: State, a: Action, w: nat)
    ensures s.log <= Next(cfg, s, a).log
    ensures !IsStepOf(a, w) ==> WorkerAt(Next(cfg, s, a), w) == WorkerAt(s, w)
  {
  }

  predicate StepsOfOthers(actions: seq<Action>, w: nat) {
    forall i :: 0 <= i < |actions| ==> !IsStepOf(actions[i], w)
  }

  lemma PutsCommute(s: State, w: nat, p: Worker, v: nat, q: Worker)
    requires v != w
    ensures Put(Put(s, w, p), v, q) == Put(Put(s, v, q), w, p)
    ensures WorkerAt(Put(s, w, p), v) == WorkerAt(s, v)
  {
    assert s.workers[w := p][v := q] == s.workers[v := q][w := p];
  }

  lemma CreateIgnores(cfg: Config, s: State, v: nat, w: nat, p: Worker)
    requires v != w
    ensures DoCreate(Put(s, w, p), cfg, v) == Put(DoCreate(s, cfg, v), w, p)
  {
    PutsCommute(s, w, p, v, Idle);
    var q := WorkerAt(s, v);
    if q.Creating? {
      var name, o := DecisionName(q.call.identity.uid), NewObj(s, cfg, q.call, q.stamp);
      var s' := ServerCreate(s, v, name, o);
      assert ServerCreate(Put(s, w, p), v, name, o) == Put(s', w, p);
      PutsCommute(s', w, p, v, BeginAppend(s', cfg, q.call));
    }
  }

  lemma WriteIgnores(s: State, v: nat, w: nat, p: Worker)
    requires v != w
    ensures DoWriteStatus(Put(s, w, p), v) == Put(DoWriteStatus(s, v), w, p)
  {
    PutsCommute(s, w, p, v, Idle);
    var q := WorkerAt(s, v);
    if q.Updating? {
      var name, version := DecisionName(q.call.identity.uid), q.read.resourceVersion;
      var status := Applied(q.read.status, q.call.transition);
      var s' := ServerUpdateStatus(s, v, name, version, status);
      assert ServerUpdateStatus(Put(s, w, p), v, name, version, status) == Put(s', w, p);
      PutsCommute(s', w, p, v, AfterWrite(q, UpdateError(s, name, version), if s'.log == [] then 0 else |s'.log| - 1));
    }
  }

  /** What the others do does not depend on where w stands. */
  lemma OthersIgnore(cfg: Config, s: State, a: Action, w: nat, p: Worker)
    requires !IsStepOf(a, w)
    ensures Next(cfg, Put(s, w, p), a) == Put(Next(cfg, s, a), w, p)
  {
    match a
    case Create(v) => CreateIgnores(cfg, s, v, w, p);
    case WriteStatus(v) => WriteIgnores(s, v, w, p);
    case _ => QuietIgnores(cfg, s, a, w, p);
  }

  lemma QuietIgnores(cfg: Config, s: State, a: Action, w: nat, p: Worker)
    requires !IsStepOf(a, w) && !a.Create? && !a.WriteStatus?
    ensures Next(cfg, Put(s, w, p), a) == Put(Next(cfg, s, a), w, p)
  {
    if a.Observe? || a.CheckExists? || a.ReadBack? || a.Fault? {
      PutsCommute(s, w, p, a.w, WorkerAt(Next(cfg, s, a), a.w));
    }
  }

  lemma {:induction false} OthersRunIgnores(cfg: Config, s: State, actions: seq<Action>, w: nat, p: Worker)
    requires StepsOfOthers(actions, w)
    ensures Run(cfg, Put(s, w, p), actions) == Put(Run(cfg, s, actions), w, p)
  {
    if actions != [] {
      var init := actions[..|actions| - 1];
      OthersRunIgnores(cfg, s, init, w, p);
      OthersIgnore(cfg, Run(cfg, s, init), actions[|actions| - 1], w, p);
    }
  }
}
