/** Safety of the recording protocol over whole runs. */
module Recording {
  import opened Clock
  import opened Model
  import opened Derivation
  import opened Labels
  import opened Protocol
  import opened Invariants

  /** The state a run from an empty store ends in. */
  function Reached(cfg: Config, clock: Time, actions: seq<Action>): State {
    Run(cfg, Init(clock), actions)
  }

  lemma ReachedIsInv(cfg: Config, clock: Time, actions: seq<Action>)
    requires ConfigOk(cfg)
    ensures Inv(cfg, Reached(cfg, clock, actions))
  {
    InitIsInv(cfg, clock);
    RunKeepsInv(cfg, Init(clock), actions);
  }

  /** Version k holds this incarnation under this name. */
  predicate Holds(log: seq<Snapshot>, k: int, name: string, incarnation: nat) {
    0 <= k < |log| && name in log[k].objs && log[k].objs[name].incarnation == incarnation
  }

  /** The entries recorded under a name; none when there is no object. */
  function Entries(objs: Store, name: string): seq<Transition> {
    if name in objs then objs[name].status.transitions else []
  }

  function History(log: seq<Snapshot>, k: int, name: string): seq<Transition>
    requires 0 <= k < |log|
  {
    Entries(log[k].objs, name)
  }

  // ----- history -----

  /** Between any two versions holding one incarnation, every version holds it, its history only
      grew, and spec, labels and pod identity stayed as created. */
  lemma HistoryOnlyGrows(
    cfg: Config, clock: Time, actions: seq<Action>, i: int, j: int, k: int, name: string, incarnation: nat)
    requires ConfigOk(cfg) && i <= j <= k
    requires var log := Reached(cfg, clock, actions).log;
             Holds(log, i, name, incarnation) && Holds(log, k, name, incarnation)
    ensures var log := Reached(cfg, clock, actions).log;
            && Holds(log, j, name, incarnation)
            && History(log, i, name) <= History(log, j, name) <= History(log, k, name)
            && log[j].objs[name].spec == log[i].objs[name].spec
            && log[j].objs[name].labels == log[i].objs[name].labels
  {
    ReachedIsInv(cfg, clock, actions);
    var s := Reached(cfg, clock, actions);
    HistoryGrowsInLog(cfg, s.log, s.nextVersion, i, j, k, name, incarnation);
  }

  lemma HistoryGrowsInLog(
    cfg: Config, log: seq<Snapshot>, nextVersion: nat, i: int, j: int, k: int, name: string, incarnation: nat)
    requires LogOk(cfg, log, nextVersion) && i <= j <= k
    requires Holds(log, i, name, incarnation) && Holds(log, k, name, incarnation)
    ensures Holds(log, j, name, incarnation)
    ensures Succeeds(log[i].objs[name], log[j].objs[name]) && Succeeds(log[j].objs[name], log[k].objs[name])
  {
    assert StoreSucceeds(log[i].objs, log[j].objs) && StoreSucceeds(log[j].objs, log[k].objs);
    if name !in log[j].objs {
      AbsenceEndsIncarnation(cfg, log, nextVersion, i, j, k, name);
    }
  }

  lemma {:induction false} AbsenceEndsIncarnation(
    cfg: Config, log: seq<Snapshot>, nextVersion: nat, i: int, j: int, k: int, name: string)
    requires LogOk(cfg, log, nextVersion) && 0 <= i < j < k < |log|
    requires name in log[i].objs && name !in log[j].objs && name in log[k].objs
    ensures log[k].objs[name].incarnation > log[i].objs[name].incarnation
    decreases k
  {
    assert Explained(log[k - 1].objs, log[k]);
    assert StartsAnew(log[i].objs, log[k]);
    if name in log[k - 1].objs {
      AbsenceEndsIncarnation(cfg, log, nextVersion, i, j, k - 1, name);
      assert StoreSucceeds(log[k - 1].objs, log[k].objs);
    }
  }

  /** What a version shows of one name after the one before: a creation with an empty status, one more
      entry of the same incarnation, a deletion, or no difference. */
  ghost predicate OneEdit(before: Store, snap: Snapshot, name: string) {
    var o, o' := Lookup(before, name), Lookup(snap.objs, name);
    if !Concerns(snap.edit, name) then o' == o
    else match snap.edit
      case Created(_, _) => o.None? && o'.Some? && o'.value.status == EMPTY_STATUS
      case Appended(_, _) =>
        && o.Some? && o'.Some?
        && o'.value.incarnation == o.value.incarnation
        && o'.value.spec == o.value.spec && o'.value.labels == o.value.labels
        && |Entries(snap.objs, name)| == |Entries(before, name)| + 1
        && Entries(before, name) <= Entries(snap.objs, name)
      case _ => o.Some? && o'.None?
  }

  lemma ExplainedIsOneEdit(before: Store, snap: Snapshot, name: string)
    requires Explained(before, snap)
    ensures OneEdit(before, snap, name)
  {
  }

  /** Each version differs from the one before by one call's edit of one name. */
  lemma EveryVersionIsOneEdit(cfg: Config, clock: Time, actions: seq<Action>, k: int, name: string)
    requires ConfigOk(cfg) && 0 < k < |Reached(cfg, clock, actions).log|
    ensures var log := Reached(cfg, clock, actions).log; OneEdit(log[k - 1].objs, log[k], name)
  {
    ReachedIsInv(cfg, clock, actions);
    var log := Reached(cfg, clock, actions).log;
    ExplainedIsOneEdit(log[k - 1].objs, log[k], name);
  }

  /** A successful update lands on exactly the version that was read: nothing recorded in between
      is overwritten, however stale the cache was. */
  lemma UpdateLandsOnReadVersion(cfg: Config, clock: Time, actions: seq<Action>, w: nat)
    requires ConfigOk(cfg)
    requires var s := Reached(cfg, clock, actions);
             WorkerAt(s, w).Updating? && |Next(cfg, s, WriteStatus(w)).log| > |s.log|
    ensures var s := Reached(cfg, clock, actions);
            var s', p := Next(cfg, s, WriteStatus(w)), WorkerAt(s, w);
            && Lookup(Current(s.log).objs, NameOf(p.call)) == Some(p.read)
            && History(s'.log, |s.log|, NameOf(p.call))
               == History(s.log, |s.log| - 1, NameOf(p.call)) + [Stored(p.call.transition)]
            && WorkerAt(s', w) == Done(p.call, Acked(p.read.incarnation, |s.log|), p.since, p.lost)
    ensures var s := Reached(cfg, clock, actions);
            var s', p := Next(cfg, s, WriteStatus(w)), WorkerAt(s, w);
            var before := History(s.log, |s.log| - 1, NameOf(p.call));
            KeptToTheSecond(History(s'.log, |s.log|, NameOf(p.call))[|before|], p.call.transition)
  {
    ReachedIsInv(cfg, clock, actions);
    LandedUpdate(cfg, Reached(cfg, clock, actions), w);
  }

  lemma LandedUpdate(cfg: Config, s: State, w: nat)
    requires Inv(cfg, s) && WorkerAt(s, w).Updating? && |DoWriteStatus(s, w).log| > |s.log|
    ensures var s', p := DoWriteStatus(s, w), WorkerAt(s, w);
            && Lookup(Current(s.log).objs, NameOf(p.call)) == Some(p.read)
            && |s'.log| == |s.log| + 1
            && History(s'.log, |s.log|, NameOf(p.call))
               == History(s.log, |s.log| - 1, NameOf(p.call)) + [Stored(p.call.transition)]
            && WorkerAt(s', w) == Done(p.call, Acked(p.read.incarnation, |s.log|), p.since, p.lost)
  {
    LongerLogMeansUpdated(s, w);
    UpdateWritesOnReadVersion(cfg, s, w);
  }

  lemma LongerLogMeansUpdated(s: State, w: nat)
    requires WorkerAt(s, w).Updating? && |DoWriteStatus(s, w).log| > |s.log|
    ensures UpdateError(s, NameOf(WorkerAt(s, w).call), WorkerAt(s, w).read.resourceVersion).None?
    ensures var p, s' := WorkerAt(s, w), DoWriteStatus(s, w);
            WorkerAt(s', w) == Done(p.call, Acked(p.read.incarnation, |s'.log| - 1), p.since, p.lost)
  {
  }

  /** When does an update duplicate?  In any run, the history it leaves has two equal neighbours where
      it had none exactly when the transition as stored, but not as submitted, repeats the last entry
      that was read; which takes a timestamp with a fraction of a second. */
  lemma UpdateDuplicatesIff(cfg: Config, clock: Time, actions: seq<Action>, w: nat)
    requires ConfigOk(cfg)
    requires var s := Reached(cfg, clock, actions);
             WorkerAt(s, w).Updating? && |Next(cfg, s, WriteStatus(w)).log| > |s.log|
    ensures var s := Reached(cfg, clock, actions);
            var p, s' := WorkerAt(s, w), Next(cfg, s, WriteStatus(w));
            var before, after := Entries(Current(s.log).objs, NameOf(p.call)),
                                 Entries(Current(s'.log).objs, NameOf(p.call));
            var repeats := RepeatsLast(p.read.status, Stored(p.call.transition));
            && (NoStutter(after) <==> NoStutter(before) && !repeats)
            && (repeats ==> !Whole(p.call.transition.decisionTimestamp))
  {
    ReachedIsInv(cfg, clock, actions);
    var s := Reached(cfg, clock, actions);
    var p := WorkerAt(s, w);
    LongerLogMeansUpdated(s, w);
    UpdateWritesOnReadVersion(cfg, s, w);
    AppliedStuttersIff(p.read.status, Stored(p.call.transition));
    assert WorkerOk(cfg, s.log, w, p);
    TruncBounds(p.call.transition.decisionTimestamp);
  }

  lemma AppliedStuttersIff(status: Status, t: Transition)
    ensures NoStutter(Applied(status, t).transitions) <==> NoStutter(status.transitions) && !RepeatsLast(status, t)
  {
    var h, h' := status.transitions, Applied(status, t).transitions;
    if NoStutter(h) {
      AppendKeepsNoStutter(status, t);
    } else {
      var i :| 0 < i < |h| && TransitionsEqual(h[i - 1], h[i]);
      assert TransitionsEqual(h'[i - 1], h'[i]);
    }
  }

  // ----- identity and mirror -----

  /** In every version of every run: name, label and spec name one pod UID, so two objects of
      different pods are never one; the expiry label is the stamp's; the latest-outcome fields
      mirror the last entry; and a node is named only where the outcome is Scheduled. */
  lemma ObjectsAreConsistent(cfg: Config, clock: Time, actions: seq<Action>, k: int, name: string)
    requires ConfigOk(cfg)
    requires var log := Reached(cfg, clock, actions).log; 0 <= k < |log| && name in log[k].objs
    ensures var o := Reached(cfg, clock, actions).log[k].objs[name];
            && name == "sdec-" + o.spec.podUID
            && (forall uid :: name == DecisionName(uid) <==> o.spec.podUID == uid)
            && "scheduling.purestorage.io/pod-uid" in o.labels
            && o.labels["scheduling.purestorage.io/pod-uid"] == o.spec.podUID
            && StampedFor(o.labels, o.stamp, cfg.window)
            && Mirrors(o.status)
            && (o.status.outcome != Scheduled ==> o.status.chosenNode == "")
            && (forall t :: t in o.status.transitions ==> NodeOnlyIfScheduled(t) && Whole(t.decisionTimestamp))
  {
    ReachedIsInv(cfg, clock, actions);
    var s := Reached(cfg, clock, actions);
    assert StoreOk(cfg, s.log[k].objs, s.nextVersion);
    var o := s.log[k].objs[name];
    assert ObjOk(cfg, name, o, s.nextVersion);
    forall uid ensures name == DecisionName(uid) <==> o.spec.podUID == uid {
      assert name[5..] == o.spec.podUID && DecisionName(uid)[5..] == uid;
    }
  }

  // ----- creation -----

  /** A reconcile's clock reading lies within it, and no record carries a stamp from the future. */
  ghost predicate ClockInv(s: State) {
    && (forall w: nat :: ReadingOk(WorkerAt(s, w), s.clock))
    && (forall k :: 0 <= k < |s.log| ==> s.log[k].clock <= s.clock && StampsOk(s.log[k]))
  }

  ghost predicate ReadingOk(worker: Worker, clock: Time) {
    && (worker.Ensuring? ==> worker.call.began <= clock)
    && (worker.Creating? ==> worker.call.began <= worker.stamp <= clock)
  }

  ghost predicate StampsOk(snap: Snapshot) {
    forall name :: name in snap.objs ==> snap.objs[name].stamp <= snap.clock
  }

  lemma NextKeepsReadings(cfg: Config, s: State, a: Action)
    requires ClockInv(s)
    ensures s.clock <= Next(cfg, s, a).clock
    ensures forall w: nat :: ReadingOk(WorkerAt(Next(cfg, s, a), w), Next(cfg, s, a).clock)
  {
    forall w: nat ensures ReadingOk(WorkerAt(Next(cfg, s, a), w), Next(cfg, s, a).clock) {
      assert ReadingOk(WorkerAt(s, w), s.clock);
    }
  }

  /** A new version takes its stamps from the one before, or from the creating worker's reading. */
  lemma NewStampsComeFrom(cfg: Config, s: State, a: Action)
    requires ClockInv(s) && s.log != []
    ensures var s' := Next(cfg, s, a);
            s'.log == s.log
            || (&& |s'.log| == |s.log| + 1 && s'.log[..|s.log|] == s.log
                && s'.log[|s.log|].clock == s.clock && StampsOk(s'.log[|s.log|]))
  {
    assert StampsOk(s.log[|s.log| - 1]);
    if a.Create? {
      assert ReadingOk(WorkerAt(s, a.w), s.clock);
    }
  }

  lemma LongerLogKeepsStamps(log: seq<Snapshot>, snap: Snapshot, clock: Time, k: int)
    requires forall i :: 0 <= i < |log| ==> log[i].clock <= clock && StampsOk(log[i])
    requires snap.clock <= clock && StampsOk(snap) && 0 <= k <= |log|
    ensures (log + [snap])[k].clock <= clock && StampsOk((log + [snap])[k])
  {
  }

  lemma NextKeepsClock(cfg: Config, s: State, a: Action)
    requires ClockInv(s) && s.log != []
    ensures ClockInv(Next(cfg, s, a)) && Next(cfg, s, a).log != []
  {
    var s' := Next(cfg, s, a);
    NextKeepsReadings(cfg, s, a);
    NewStampsComeFrom(cfg, s, a);
    if s'.log != s.log {
      assert s'.log == s.log + [s'.log[|s.log|]];
      forall k | 0 <= k < |s'.log| ensures s'.log[k].clock <= s'.clock && StampsOk(s'.log[k]) {
        LongerLogKeepsStamps(s.log, s'.log[|s.log|], s'.clock, k);
      }
    }
  }

  lemma {:induction false} RunKeepsClock(cfg: Config, clock: Time, actions: seq<Action>)
    ensures ClockInv(Reached(cfg, clock, actions)) && Reached(cfg, clock, actions).log != []
  {
    if actions != [] {
      var init := actions[..|actions| - 1];
      RunKeepsClock(cfg, clock, init);
      NextKeepsClock(cfg, Reached(cfg, clock, init), actions[|actions| - 1]);
    }
  }

  /** A reconcile sets out to create the record exactly when the version its cache serves does not have
      it, and takes the clock reading for the expiry then; otherwise it goes on to its retry loop. */
  lemma CheckDecides(cfg: Config, clock: Time, actions: seq<Action>, w: nat, k: nat)
    requires WorkerAt(Reached(cfg, clock, actions), w).Ensuring?
    requires k < |Reached(cfg, clock, actions).log|
    ensures var s := Reached(cfg, clock, actions);
            var p, p' := WorkerAt(s, w), WorkerAt(Next(cfg, s, CheckExists(w, k)), w);
            && p'.call == p.call
            && (p'.Creating? <==> "sdec-" + p.call.identity.uid !in s.log[k].objs)
            && (p'.Creating? ==> p'.stamp == s.clock)
            && (!p'.Creating? ==> p'.Appending? && p'.left == cfg.attempts && p'.lost == 0)
  {
  }

  /** After the creation step the record is there, whichever worker won the race for it, and the
      retry loop starts with its whole budget.  The winner's record carries the winner's identity
      and a clock reading taken during its reconcile; the loser's step changes nothing. */
  lemma CreationEndsWithTheRecord(cfg: Config, clock: Time, actions: seq<Action>, w: nat)
    requires ConfigOk(cfg) && WorkerAt(Reached(cfg, clock, actions), w).Creating?
    ensures var s, p := Reached(cfg, clock, actions), WorkerAt(Reached(cfg, clock, actions), w);
            var s' := Next(cfg, s, Create(w));
            var name := NameOf(p.call);
            && name in Current(s'.log).objs
            && WorkerAt(s', w).Appending? && WorkerAt(s', w).left == cfg.attempts
            && (name in Current(s.log).objs ==> s'.log == s.log)
            && (name !in Current(s.log).objs ==>
                  var o := Current(s'.log).objs[name];
                  && o.spec.podUID == p.call.identity.uid && o.spec.podName == p.call.identity.name
                  && o.spec.podNamespace == p.call.identity.namespace
                  && o.spec.schedulerName == p.call.identity.schedulerName
                  && o.spec.volumeContext == p.call.volume
                  && o.status == EMPTY_STATUS
                  && p.call.began <= o.stamp <= s.clock)
  {
    RunKeepsClock(cfg, clock, actions);
    var s := Reached(cfg, clock, actions);
    var p := WorkerAt(s, w);
    assert ReadingOk(p, s.clock);
  }

  // ----- acknowledgements -----

  predicate Recorded(history: seq<Transition>, t: Transition) {
    exists m :: 0 <= m < |history| && TransitionsEqual(history[m], t)
  }

  /** Whenever appendTransitionWithRetry has returned without an error, the incarnation it relied
      on holds the transition as stored, and goes on holding it in every later version of every
      continuation until that incarnation is deleted.  It holds the transition as submitted
      exactly when the submitted timestamp is whole. */
  lemma AcknowledgedIsNeverLost(cfg: Config, clock: Time, before: seq<Action>, after: seq<Action>, w: nat, j: int)
    requires ConfigOk(cfg)
    requires var p := WorkerAt(Reached(cfg, clock, before), w); p.Done? && p.verdict.Acked?
    requires var p := WorkerAt(Reached(cfg, clock, before), w);
             && p.verdict.at <= j
             && Holds(Reached(cfg, clock, before + after).log, j, NameOf(p.call), p.verdict.incarnation)
    ensures var s, p := Reached(cfg, clock, before), WorkerAt(Reached(cfg, clock, before), w);
            Holds(s.log, p.verdict.at, NameOf(p.call), p.verdict.incarnation)
    ensures var p := WorkerAt(Reached(cfg, clock, before), w);
            var history := History(Reached(cfg, clock, before + after).log, j, NameOf(p.call));
            && Recorded(history, Stored(p.call.transition))
            && (Recorded(history, p.call.transition) <==> Whole(p.call.transition.decisionTimestamp))
  {
    ReachedIsInv(cfg, clock, before);
    ReachedIsInv(cfg, clock, before + after);
    var s, s' := Reached(cfg, clock, before), Reached(cfg, clock, before + after);
    RunConcat(cfg, Init(clock), before, after);
    RunExtendsLog(cfg, s, after);
    var p := WorkerAt(s, w);
    assert WorkerOk(cfg, s.log, w, p);
    var name, at, t := NameOf(p.call), p.verdict.at, p.call.transition;
    assert s'.log[at] == s.log[at];
    HistoryGrowsInLog(cfg, s'.log, s'.nextVersion, at, j, j, name, p.verdict.incarnation);
    var m := |History(s.log, at, name)| - 1;
    var history := History(s'.log, j, name);
    assert TransitionsEqual(history[m], Stored(t));
    assert StoreOk(cfg, s'.log[j].objs, s'.nextVersion);
    assert ObjOk(cfg, name, s'.log[j].objs[name], s'.nextVersion);
    TruncBounds(t.decisionTimestamp);
  }

  /** No process edited what is under the name after version a, up to version b. */
  predicate Unedited(log: seq<Snapshot>, name: string, a: int, b: int) {
    forall k :: 0 <= a < k <= b < |log| ==> !Concerns(log[k].edit, name)
  }

  lemma {:induction false} UneditedIsUnchanged(
    cfg: Config, log: seq<Snapshot>, nextVersion: nat, name: string, a: int, b: int)
    requires LogOk(cfg, log, nextVersion) && 0 <= a <= b < |log| && Unedited(log, name, a, b)
    ensures Lookup(log[a].objs, name) == Lookup(log[b].objs, name)
    decreases b
  {
    if a < b {
      UneditedIsUnchanged(cfg, log, nextVersion, name, a, b - 1);
      assert Explained(log[b - 1].objs, log[b]) && !Concerns(log[b].edit, name);
    }
  }

  /** Each edit of an incarnation gives it a new resource version. */
  lemma EditedHasNewVersion(
    cfg: Config, log: seq<Snapshot>, nextVersion: nat, name: string, incarnation: nat, a: int, k: int, b: int)
    requires LogOk(cfg, log, nextVersion) && Holds(log, a, name, incarnation) && Holds(log, b, name, incarnation)
    requires a < k <= b && Concerns(log[k].edit, name)
    ensures log[a].objs[name].resourceVersion < log[b].objs[name].resourceVersion
    ensures |History(log, a, name)| < |History(log, b, name)|
  {
    HistoryGrowsInLog(cfg, log, nextVersion, a, k - 1, b, name, incarnation);
    HistoryGrowsInLog(cfg, log, nextVersion, a, k, b, name, incarnation);
    assert Explained(log[k - 1].objs, log[k]);
    assert StoreSucceeds(log[k - 1].objs, log[k].objs);
  }

  /** Within one incarnation: the entry t, last in version `at`, is last in the newest version
      while the object has the resource version it had, which is while nobody has edited it and its
      history is as long as it was; afterwards exactly when the newest entry added repeats it. */
  ghost predicate LastWhileUnedited(log: seq<Snapshot>, name: string, at: int, t: Transition)
    requires 0 <= at < |log| && name in log[at].objs && name in Current(log).objs
  {
    var before, after := History(log, at, name), History(log, |log| - 1, name);
    var o := Current(log).objs[name];
    var same := o.resourceVersion == log[at].objs[name].resourceVersion;
    && before <= after && LastIs(before, t)
    && (same <==> Unedited(log, name, at, |log| - 1))
    && (same <==> |before| == |after|)
    && (LastIs(after, t) <==> same || LastIs(after[|before|..], t))
  }

  predicate LastIs(history: seq<Transition>, t: Transition) {
    history != [] && TransitionsEqual(history[|history| - 1], t)
  }

  lemma UneditedIff(cfg: Config, log: seq<Snapshot>, nextVersion: nat, name: string, incarnation: nat, a: nat, b: nat)
    requires LogOk(cfg, log, nextVersion) && a <= b
    requires Holds(log, a, name, incarnation) && Holds(log, b, name, incarnation)
    ensures Unedited(log, name, a, b) <==> log[b].objs[name].resourceVersion == log[a].objs[name].resourceVersion
    ensures Unedited(log, name, a, b) <==> |History(log, a, name)| == |History(log, b, name)|
    ensures Unedited(log, name, a, b) ==> log[a].objs[name] == log[b].objs[name]
    ensures History(log, a, name) <= History(log, b, name)
  {
    HistoryGrowsInLog(cfg, log, nextVersion, a, b, b, name, incarnation);
    if Unedited(log, name, a, b) {
      UneditedIsUnchanged(cfg, log, nextVersion, name, a, b);
    } else {
      var k :| a < k <= b && Concerns(log[k].edit, name);
      EditedHasNewVersion(cfg, log, nextVersion, name, incarnation, a, k, b);
    }
  }

  lemma LastOfGrown(before: seq<Transition>, after: seq<Transition>, t: Transition)
    requires before <= after && LastIs(before, t)
    ensures LastIs(after, t) <==> |before| == |after| || LastIs(after[|before|..], t)
  {
    if |before| < |after| {
      assert after[|before|..][|after| - 1 - |before|] == after[|after| - 1];
    } else {
      assert after == before;
    }
  }

  lemma WitnessedIsLastIff(
    cfg: Config, log: seq<Snapshot>, nextVersion: nat, name: string, incarnation: nat, at: nat, t: Transition)
    requires LogOk(cfg, log, nextVersion) && Holds(log, |log| - 1, name, incarnation)
    requires Witnessed(log, name, incarnation, at, t)
    ensures Holds(log, at, name, incarnation) && LastWhileUnedited(log, name, at, Stored(t))
  {
    var before, after := History(log, at, name), History(log, |log| - 1, name);
    UneditedIff(cfg, log, nextVersion, name, incarnation, at, |log| - 1);
    LastOfGrown(before, after, Stored(t));
  }

  /** When is an acknowledged transition still the last entry?  In every run: as long as the object
      has the resource version it had in the version the acknowledgement rests on. */
  lemma AcknowledgedIsLastIff(cfg: Config, clock: Time, actions: seq<Action>, w: nat)
    requires ConfigOk(cfg)
    requires var s := Reached(cfg, clock, actions);
             var p := WorkerAt(s, w);
             p.Done? && p.verdict.Acked? && Holds(s.log, |s.log| - 1, NameOf(p.call), p.verdict.incarnation)
    ensures var s := Reached(cfg, clock, actions);
            var p := WorkerAt(s, w);
            && Holds(s.log, p.verdict.at, NameOf(p.call), p.verdict.incarnation)
            && LastWhileUnedited(s.log, NameOf(p.call), p.verdict.at, Stored(p.call.transition))
  {
    ReachedIsInv(cfg, clock, actions);
    AckedIsLastIff(cfg, Reached(cfg, clock, actions), w);
  }

  lemma AckedIsLastIff(cfg: Config, s: State, w: nat)
    requires Inv(cfg, s)
    requires var p := WorkerAt(s, w);
             p.Done? && p.verdict.Acked? && Holds(s.log, |s.log| - 1, NameOf(p.call), p.verdict.incarnation)
    ensures var p := WorkerAt(s, w);
            && Holds(s.log, p.verdict.at, NameOf(p.call), p.verdict.incarnation)
            && LastWhileUnedited(s.log, NameOf(p.call), p.verdict.at, Stored(p.call.transition))
  {
    var p := WorkerAt(s, w);
    assert WorkerOk(cfg, s.log, w, p);
    WitnessedIsLastIff(
      cfg, s.log, s.nextVersion, NameOf(p.call), p.verdict.incarnation, p.verdict.at, p.call.transition);
  }

  /** A reconcile that failed wrote nothing in its retry loop; one that succeeded wrote at most the
      one version it reports. */
  lemma AtMostOneEntryPerCall(cfg: Config, clock: Time, actions: seq<Action>, w: nat, k: int)
    requires ConfigOk(cfg)
    requires WorkerAt(Reached(cfg, clock, actions), w).Done?
    requires var s := Reached(cfg, clock, actions);
             && WorkerAt(s, w).since < k < |s.log|
             && (exists name :: s.log[k].edit == Created(name, w) || s.log[k].edit == Appended(name, w))
    ensures var p := WorkerAt(Reached(cfg, clock, actions), w); p.verdict.Acked? && p.verdict.at == k
  {
    ReachedIsInv(cfg, clock, actions);
    var s := Reached(cfg, clock, actions);
    assert WorkerOk(cfg, s.log, w, WorkerAt(s, w));
  }

  // ----- no duplicates -----

  /** Every transition the run's reconciles derive has a whole-second timestamp. */
  predicate WholeSubmissions(cfg: Config, s: State, actions: seq<Action>) {
    actions == [] ||
    var init, last := actions[..|actions| - 1], actions[|actions| - 1];
    && WholeSubmissions(cfg, s, init)
    && (last.Observe? ==>
          var d := DeriveTransition(last.pod, last.events, Run(cfg, s, init).clock);
          d.Some? ==> Whole(d.value.transition.decisionTimestamp))
  }

  ghost predicate WholeCall(worker: Worker) {
    !worker.Idle? ==> Whole(worker.call.transition.decisionTimestamp)
  }

  ghost predicate Unrepeated(objs: Store) {
    forall name :: name in objs ==> NoStutter(objs[name].status.transitions)
  }

  ghost predicate UnrepeatedInv(s: State) {
    && (forall w: nat :: WholeCall(WorkerAt(s, w)))
    && (forall k :: 0 <= k < |s.log| ==> Unrepeated(s.log[k].objs))
  }

  lemma AppendKeepsNoStutter(status: Status, t: Transition)
    requires NoStutter(status.transitions)
    ensures NoStutter(Applied(status, t).transitions) <==> !RepeatsLast(status, t)
  {
    var n := |status.transitions|;
    var h := Applied(status, t).transitions;
    if n > 0 {
      assert h[n] == t && h[n - 1] == status.transitions[n - 1];
      forall i | 0 < i < n ensures !TransitionsEqual(h[i - 1], h[i]) {
        assert !TransitionsEqual(status.transitions[i - 1], status.transitions[i]);
      }
    }
  }

  lemma NextKeepsWholeCalls(cfg: Config, s: State, a: Action)
    requires forall w: nat :: WholeCall(WorkerAt(s, w))
    requires a.Observe? ==>
               var d := DeriveTransition(a.pod, a.events, s.clock);
               d.Some? ==> Whole(d.value.transition.decisionTimestamp)
    ensures forall w: nat :: WholeCall(WorkerAt(Next(cfg, s, a), w))
  {
    forall w: nat ensures WholeCall(WorkerAt(Next(cfg, s, a), w)) {
      assert WholeCall(WorkerAt(s, w));
    }
  }

  /** Only a successful update puts entries into a version that the one before did not have. */
  lemma OnlyUpdatesAppend(cfg: Config, s: State, a: Action, name: string)
    requires s.log != [] && !a.WriteStatus?
    ensures var s' := Next(cfg, s, a);
            s'.log == s.log || (|s'.log| == |s.log| + 1 && s'.log[..|s.log|] == s.log)
    ensures var before, after := Current(s.log).objs, Current(Next(cfg, s, a).log).objs;
            name in after ==> after[name].status == EMPTY_STATUS || (name in before && after[name] == before[name])
  {
  }

  lemma OthersKeepUnrepeated(cfg: Config, s: State, a: Action)
    requires s.log != [] && !a.WriteStatus? && forall k :: 0 <= k < |s.log| ==> Unrepeated(s.log[k].objs)
    ensures forall k :: 0 <= k < |Next(cfg, s, a).log| ==> Unrepeated(Next(cfg, s, a).log[k].objs)
  {
    var s' := Next(cfg, s, a);
    assert Unrepeated(s.log[|s.log| - 1].objs);
    forall name | name in Current(s'.log).objs ensures NoStutter(Current(s'.log).objs[name].status.transitions) {
      OnlyUpdatesAppend(cfg, s, a, name);
    }
    OnlyUpdatesAppend(cfg, s, a, "");
    forall k | 0 <= k < |s'.log| ensures Unrepeated(s'.log[k].objs) {
      if k < |s.log| {
        assert s'.log[k] == s.log[k];
      }
    }
  }

  lemma NextKeepsUnrepeated(cfg: Config, s: State, a: Action)
    requires Inv(cfg, s) && UnrepeatedInv(s)
    requires forall w: nat :: WholeCall(WorkerAt(Next(cfg, s, a), w))
    ensures UnrepeatedInv(Next(cfg, s, a))
  {
    if a.WriteStatus? {
      WriteKeepsUnrepeated(cfg, s, a.w);
    } else {
      OthersKeepUnrepeated(cfg, s, a);
    }
  }

  /** An update whose transition does not repeat the last entry, and is stored as it is. */
  lemma AppendKeepsUnrepeated(objs: Store, name: string, o: Obj, t: Transition)
    requires Unrepeated(objs) && name in objs && !RepeatsLast(objs[name].status, t)
    requires o.status == Applied(objs[name].status, t)
    ensures Unrepeated(objs[name := o])
  {
    AppendKeepsNoStutter(objs[name].status, t);
  }

  lemma WriteKeepsUnrepeated(cfg: Config, s: State, w: nat)
    requires Inv(cfg, s) && UnrepeatedInv(s)
    ensures forall k :: 0 <= k < |DoWriteStatus(s, w).log| ==> Unrepeated(DoWriteStatus(s, w).log[k].objs)
  {
    var p, s' := WorkerAt(s, w), DoWriteStatus(s, w);
    if |s'.log| > |s.log| {
      LongerLogMeansUpdated(s, w);
      UpdateWritesOnReadVersion(cfg, s, w);
      assert WholeCall(p) && WorkerOk(cfg, s.log, w, p);
      TruncBounds(p.call.transition.decisionTimestamp);
      assert Unrepeated(s.log[|s.log| - 1].objs);
      AppendKeepsUnrepeated(Current(s.log).objs, NameOf(p.call), Current(s'.log).objs[NameOf(p.call)],
                            p.call.transition);
    }
  }

  lemma {:induction false} RunKeepsUnrepeated(cfg: Config, clock: Time, actions: seq<Action>)
    requires ConfigOk(cfg) && WholeSubmissions(cfg, Init(clock), actions)
    ensures UnrepeatedInv(Reached(cfg, clock, actions))
  {
    if actions != [] {
      var init := actions[..|actions| - 1];
      RunKeepsUnrepeated(cfg, clock, init);
      ReachedIsInv(cfg, clock, init);
      NextKeepsWholeCalls(cfg, Reached(cfg, clock, init), actions[|actions| - 1]);
      NextKeepsUnrepeated(cfg, Reached(cfg, clock, init), actions[|actions| - 1]);
    }
  }

  /** With whole-second submissions no history ever holds two equal neighbours, however the
      workers race and however stale their reads are. */
  lemma {:induction false} NoDuplicates(cfg: Config, clock: Time, actions: seq<Action>, k: int, name: string)
    requires ConfigOk(cfg) && WholeSubmissions(cfg, Init(clock), actions)
    requires 0 <= k < |Reached(cfg, clock, actions).log|
    ensures NoStutter(History(Reached(cfg, clock, actions).log, k, name))
  {
    RunKeepsUnrepeated(cfg, clock, actions);
    assert Unrepeated(Reached(cfg, clock, actions).log[k].objs);
  }

  /** So with whole-second submissions one further entry is enough for the acknowledged transition
      not to be last. */
  lemma {:induction false} OneMoreEntryEndsIt(cfg: Config, clock: Time, actions: seq<Action>, w: nat)
    requires ConfigOk(cfg) && WholeSubmissions(cfg, Init(clock), actions)
    requires var s := Reached(cfg, clock, actions);
             var p := WorkerAt(s, w);
             && p.Done? && p.verdict.Acked? && Holds(s.log, |s.log| - 1, NameOf(p.call), p.verdict.incarnation)
             && p.verdict.at < |s.log|
             && |History(s.log, |s.log| - 1, NameOf(p.call))| == |History(s.log, p.verdict.at, NameOf(p.call))| + 1
    ensures var s := Reached(cfg, clock, actions);
            var p := WorkerAt(s, w);
            !RepeatsLast(Current(s.log).objs[NameOf(p.call)].status, Stored(p.call.transition))
  {
    AcknowledgedIsLastIff(cfg, clock, actions, w);
    var s := Reached(cfg, clock, actions);
    NoDuplicates(cfg, clock, actions, |s.log| - 1, NameOf(WorkerAt(s, w).call));
    OneMoreEntryAt(s, WorkerAt(s, w));
  }

  lemma {:induction false} OneMoreEntryAt(s: State, p: Worker)
    requires p.Done? && p.verdict.Acked? && Holds(s.log, |s.log| - 1, NameOf(p.call), p.verdict.incarnation)
    requires Holds(s.log, p.verdict.at, NameOf(p.call), p.verdict.incarnation)
    requires LastWhileUnedited(s.log, NameOf(p.call), p.verdict.at, Stored(p.call.transition))
    requires |History(s.log, |s.log| - 1, NameOf(p.call))| == |History(s.log, p.verdict.at, NameOf(p.call))| + 1
    requires NoStutter(History(s.log, |s.log| - 1, NameOf(p.call)))
    ensures !RepeatsLast(Current(s.log).objs[NameOf(p.call)].status, Stored(p.call.transition))
  {
    var before := History(s.log, p.verdict.at, NameOf(p.call));
    var after := History(s.log, |s.log| - 1, NameOf(p.call));
    assert after[|before|..] == [after[|before|]];
    assert !TransitionsEqual(after[|before| - 1], after[|before|]);
  }
}
