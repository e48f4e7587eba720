/** One worker at a time with fresh reads and no failing calls: convergence, idempotence and the
    history that a sequence of observations leaves. */
module Sequential {
  import opened Clock
  import opened Model
  import opened Derivation
  import opened Labels
  import opened Protocol
  import opened Invariants
  import opened Recording

  /** One reconcile's inputs, after some time has passed. */
  datatype Input = Input(elapsed: nat, pod: Option<Pod>, events: seq<Event>, volume: Option<VolumeContext>)

  /** The steps of one undisturbed reconcile.  Create and WriteStatus do nothing where the code
      does not get to them. */
  function SoloSteps(s: State, w: nat, x: Input): seq<Action> {
    var newest := |s.log| + 1;
    [Tick(x.elapsed), Observe(w, x.pod, x.events, x.volume), CheckExists(w, newest), Create(w), ReadBack(w, newest),
     WriteStatus(w)]
  }

  function Solo(cfg: Config, s: State, w: nat, x: Input): State {
    Run(cfg, s, SoloSteps(s, w, x))
  }

  function DerivedAt(s: State, x: Input): Option<Derived> {
    DeriveTransition(x.pod, x.events, s.clock + x.elapsed)
  }

  predicate AtRest(worker: Worker) {
    worker.Idle? || worker.Done?
  }

  /** The history after recording t on top of it. */
  function Record(history: seq<Transition>, t: Transition): seq<Transition> {
    if history != [] && TransitionsEqual(history[|history| - 1], t) then history else history + [Stored(t)]
  }

  function HistoryOf(s: State, name: string): seq<Transition> {
    Entries(Current(s.log).objs, name)
  }

  lemma {:induction false} RunCons(cfg: Config, s: State, a: Action, rest: seq<Action>)
    ensures Run(cfg, s, [a] + rest) == Run(cfg, Next(cfg, s, a), rest)
  {
    assert [a][..0] == [];
    assert Run(cfg, s, [a]) == Next(cfg, Run(cfg, s, []), a);
    RunConcat(cfg, s, [a], rest);
  }

  lemma SoloUnfolds(cfg: Config, s: State, w: nat, x: Input)
    ensures var newest := |s.log| + 1;
            var s0 := Next(cfg, s, Tick(x.elapsed));
            var s1 := Next(cfg, s0, Observe(w, x.pod, x.events, x.volume));
            var s2 := Next(cfg, s1, CheckExists(w, newest));
            var s3 := Next(cfg, s2, Create(w));
            var s4 := Next(cfg, s3, ReadBack(w, newest));
            Solo(cfg, s, w, x) == Next(cfg, s4, WriteStatus(w))
  {
    var newest := |s.log| + 1;
    var a := SoloSteps(s, w, x);
    assert a == [a[0]] + ([a[1]] + ([a[2]] + ([a[3]] + ([a[4]] + ([a[5]] + [])))));
    RunCons(cfg, s, a[0], [a[1]] + ([a[2]] + ([a[3]] + ([a[4]] + ([a[5]] + [])))));
    var s0 := Next(cfg, s, a[0]);
    RunCons(cfg, s0, a[1], [a[2]] + ([a[3]] + ([a[4]] + ([a[5]] + []))));
    var s1 := Next(cfg, s0, a[1]);
    RunCons(cfg, s1, a[2], [a[3]] + ([a[4]] + ([a[5]] + [])));
    var s2 := Next(cfg, s1, a[2]);
    RunCons(cfg, s2, a[3], [a[4]] + ([a[5]] + []));
    var s3 := Next(cfg, s2, a[3]);
    RunCons(cfg, s3, a[4], [a[5]] + []);
    RunCons(cfg, Next(cfg, s3, a[4]), a[5], []);
  }

  /** What one undisturbed reconcile does to the store. */
  ghost predicate SoloEffect(cfg: Config, s: State, s': State, w: nat, d: Derived) {
    var name := DecisionName(d.identity.uid);
    var before, after := Current(s.log).objs, Current(s'.log).objs;
    && Inv(cfg, s')
    && WorkerAt(s', w).Done? && WorkerAt(s', w).verdict.Acked?
    && name in after
    && HistoryOf(s', name) == Record(HistoryOf(s, name), d.transition)
    && (forall other :: other != name ==> Lookup(after, other) == Lookup(before, other))
    && (name in before && HistoryOf(s', name) == HistoryOf(s, name) ==> s'.log == s.log)
  }

  /** The state after the check and the creation: the object is there, and the loop begins. */
  lemma SoloEnsures(cfg: Config, s: State, w: nat, call: Call, newest: nat)
    requires Inv(cfg, s) && WorkerAt(s, w) == Ensuring(call) && newest >= |s.log|
    ensures var s' := Next(cfg, Next(cfg, s, CheckExists(w, newest)), Create(w));
            var name := NameOf(call);
            && Inv(cfg, s')
            && |s'.log| <= |s.log| + 1
            && WorkerAt(s', w).Appending? && WorkerAt(s', w).call == call
            && name in Current(s'.log).objs
            && HistoryOf(s', name) == HistoryOf(s, name)
            && (forall other :: other != name ==>
                  Lookup(Current(s'.log).objs, other) == Lookup(Current(s.log).objs, other))
            && (name in Current(s.log).objs ==> s'.log == s.log)
  {
    NextKeepsInv(cfg, s, CheckExists(w, newest));
    NextKeepsInv(cfg, Next(cfg, s, CheckExists(w, newest)), Create(w));
  }

  /** What the store shows after t was recorded under the name, and nowhere else. */
  ghost predicate RecordedUnder(s: State, s': State, name: string, t: Transition) {
    && name in Current(s'.log).objs
    && HistoryOf(s', name) == Record(HistoryOf(s, name), t)
    && (forall other :: other != name ==> Lookup(Current(s'.log).objs, other) == Lookup(Current(s.log).objs, other))
    && (HistoryOf(s', name) == HistoryOf(s, name) ==> s'.log == s.log)
  }

  /** A fresh read of an object that is there meets no NotFound and no Conflict. */
  lemma SoloReads(cfg: Config, s: State, w: nat, newest: nat)
    requires Inv(cfg, s) && WorkerAt(s, w).Appending? && newest >= |s.log|
    requires NameOf(WorkerAt(s, w).call) in Current(s.log).objs
    ensures var s1, p := Next(cfg, s, ReadBack(w, newest)), WorkerAt(s, w);
            var o, q := Current(s.log).objs[NameOf(p.call)], WorkerAt(s1, w);
            && Inv(cfg, s1) && s1.log == s.log && q.call == p.call
            && (if RepeatsLast(o.status, p.call.transition) then q.Done? && q.verdict.Acked?
                else q.Updating? && q.read == o && UpdateError(s1, NameOf(p.call), o.resourceVersion).None?)
  {
    NextKeepsInv(cfg, s, ReadBack(w, newest));
  }

  lemma AppendedIsRecorded(s: State, s': State, name: string, o: Obj, t: Transition)
    requires name in Current(s.log).objs && !RepeatsLast(Current(s.log).objs[name].status, t)
    requires Current(s'.log).objs == Current(s.log).objs[name := o]
    requires o.status == Applied(Current(s.log).objs[name].status, Stored(t))
    ensures RecordedUnder(s, s', name, t)
  {
    var h := HistoryOf(s, name);
    assert |HistoryOf(s', name)| == |h| + 1;
  }

  lemma SoloWrites(cfg: Config, s: State, w: nat)
    requires Inv(cfg, s) && WorkerAt(s, w).Updating?
    requires UpdateError(s, NameOf(WorkerAt(s, w).call), WorkerAt(s, w).read.resourceVersion).None?
    ensures var s', call := DoWriteStatus(s, w), WorkerAt(s, w).call;
            && WorkerAt(s', w).Done? && WorkerAt(s', w).verdict.Acked?
            && RecordedUnder(s, s', NameOf(call), call.transition)
  {
    var p, s' := WorkerAt(s, w), DoWriteStatus(s, w);
    UpdateWritesOnReadVersion(cfg, s, w);
    LongerLogMeansUpdated(s, w);
    assert WorkerOk(cfg, s.log, w, p);
    AppendedIsRecorded(s, s', NameOf(p.call), Current(s'.log).objs[NameOf(p.call)], p.call.transition);
  }

  /** The retry loop's first attempt succeeds. */
  lemma SoloAppends(cfg: Config, s: State, w: nat, newest: nat)
    requires Inv(cfg, s) && WorkerAt(s, w).Appending? && newest >= |s.log|
    requires NameOf(WorkerAt(s, w).call) in Current(s.log).objs
    ensures var s' := Next(cfg, Next(cfg, s, ReadBack(w, newest)), WriteStatus(w));
            var call := WorkerAt(s, w).call;
            && Inv(cfg, s') && WorkerAt(s', w).Done? && WorkerAt(s', w).verdict.Acked?
            && RecordedUnder(s, s', NameOf(call), call.transition)
  {
    SoloReads(cfg, s, w, newest);
    var s1 := Next(cfg, s, ReadBack(w, newest));
    if WorkerAt(s1, w).Updating? {
      SoloUpdates(cfg, s, s1, w);
    } else {
      DoneWritesNothing(s1, w);
      RepeatIsRecorded(s, s1, NameOf(WorkerAt(s, w).call), WorkerAt(s, w).call.transition);
    }
  }

  lemma SoloUpdates(cfg: Config, s: State, s1: State, w: nat)
    requires Inv(cfg, s1) && s1.log == s.log && WorkerAt(s1, w).Updating?
    requires UpdateError(s1, NameOf(WorkerAt(s1, w).call), WorkerAt(s1, w).read.resourceVersion).None?
    ensures var s', call := DoWriteStatus(s1, w), WorkerAt(s1, w).call;
            && Inv(cfg, s') && WorkerAt(s', w).Done? && WorkerAt(s', w).verdict.Acked?
            && RecordedUnder(s, s', NameOf(call), call.transition)
  {
    WriteStatusKeepsInv(cfg, s1, w);
    SoloWrites(cfg, s1, w);
    SameLogSameHistories(s, s1);
  }

  lemma SameLogSameHistories(s: State, s1: State)
    requires s1.log == s.log
    ensures forall name :: HistoryOf(s1, name) == HistoryOf(s, name)
  {
  }

  lemma DoneWritesNothing(s: State, w: nat)
    requires WorkerAt(s, w).Done?
    ensures DoWriteStatus(s, w) == s
  {
  }

  lemma RepeatIsRecorded(s: State, s1: State, name: string, t: Transition)
    requires s1.log == s.log && name in Current(s.log).objs && RepeatsLast(Current(s.log).objs[name].status, t)
    ensures RecordedUnder(s, s1, name, t)
  {
  }

  function Begun(cfg: Config, s: State, w: nat, x: Input): State {
    Next(cfg, Next(cfg, s, Tick(x.elapsed)), Observe(w, x.pod, x.events, x.volume))
  }

  lemma SoloBegins(cfg: Config, s: State, w: nat, x: Input)
    requires Inv(cfg, s) && AtRest(WorkerAt(s, w)) && DerivedAt(s, x).Some?
    ensures var s1, d := Begun(cfg, s, w, x), DerivedAt(s, x).value;
            && Inv(cfg, s1) && s1.log == s.log
            && WorkerAt(s1, w).Ensuring?
            && WorkerAt(s1, w).call.identity == d.identity && WorkerAt(s1, w).call.transition == d.transition
  {
    NextKeepsInv(cfg, s, Tick(x.elapsed));
    NextKeepsInv(cfg, Next(cfg, s, Tick(x.elapsed)), Observe(w, x.pod, x.events, x.volume));
    BegunIsEnsuring(cfg, s, w, x);
  }

  lemma BegunIsEnsuring(cfg: Config, s: State, w: nat, x: Input)
    requires AtRest(WorkerAt(s, w)) && DerivedAt(s, x).Some?
    ensures var s1, d := Begun(cfg, s, w, x), DerivedAt(s, x).value;
            && s1.log == s.log && WorkerAt(s1, w).Ensuring?
            && WorkerAt(s1, w).call.identity == d.identity && WorkerAt(s1, w).call.transition == d.transition
  {
  }

  lemma SoloRecords(cfg: Config, s: State, w: nat, x: Input)
    requires Inv(cfg, s) && AtRest(WorkerAt(s, w)) && DerivedAt(s, x).Some?
    ensures SoloEffect(cfg, s, Solo(cfg, s, w, x), w, DerivedAt(s, x).value)
  {
    var newest := |s.log| + 1;
    SoloUnfolds(cfg, s, w, x);
    SoloBegins(cfg, s, w, x);
    var s1 := Begun(cfg, s, w, x);
    SoloEnsures(cfg, s1, w, WorkerAt(s1, w).call, newest);
    SoloAppends(cfg, Next(cfg, Next(cfg, s1, CheckExists(w, newest)), Create(w)), w, newest);
  }

  // ----- the creation alone -----

  function CreatingSteps(s: State, w: nat, pod: Pod): seq<Action> {
    [Observe(w, Some(pod), [], None), CheckExists(w, |s.log|), Create(w)]
  }

  /** With fresh reads and a free name, a reconcile creates the record of its pod, stamped now, and
      comes to its retry loop. */
  lemma {:induction false} CreatesRecord(cfg: Config, s: State, w: nat, pod: Pod)
    requires s.log != [] && WorkerAt(s, w).Idle? && SaysScheduled(pod)
    requires DecisionName(pod.uid) !in Current(s.log).objs
    ensures var s' := Run(cfg, s, CreatingSteps(s, w, pod));
            && s'.log != [] && s'.sweep == s.sweep && s'.clock == s.clock
            && (forall v: nat :: v != w ==> WorkerAt(s', v) == WorkerAt(s, v))
            && WorkerAt(s', w).Appending? && NameOf(WorkerAt(s', w).call) == DecisionName(pod.uid)
            && WorkerAt(s', w).since == |s'.log| - 1
            && (exists o: Obj :: o.stamp == s.clock && StampedFor(o.labels, s.clock, cfg.window)
                  && Current(s'.log).objs == Current(s.log).objs[DecisionName(pod.uid) := o])
  {
    var a := CreatingSteps(s, w, pod);
    RunThree(cfg, s, a[0], a[1], a[2]);
    OutcomeIffEvidence(Some(pod), [], s.clock);
    IdentityOfLatest(Some(pod), [], s.clock);
    var begun := Next(cfg, s, a[0]);
    var call := WorkerAt(begun, w).call;
    assert begun == Put(s, w, Ensuring(call)) && NameOf(call) == DecisionName(pod.uid);
    var looked := Next(cfg, begun, a[1]);
    assert looked == Put(begun, w, Creating(call, s.clock));
    CreateFills(cfg, looked, w);
    assert forall v: nat :: v != w ==> WorkerAt(looked, v) == WorkerAt(s, v);
  }

  /** The creation of an object whose name is free. */
  lemma CreateFills(cfg: Config, s: State, w: nat)
    requires s.log != [] && WorkerAt(s, w).Creating? && NameOf(WorkerAt(s, w).call) !in Current(s.log).objs
    ensures var p, s' := WorkerAt(s, w), Next(cfg, s, Create(w));
            && s'.log != [] && s'.sweep == s.sweep && s'.clock == s.clock
            && (forall v: nat :: v != w ==> WorkerAt(s', v) == WorkerAt(s, v))
            && WorkerAt(s', w) == Appending(p.call, cfg.attempts, |s'.log| - 1, 0)
            && (exists o: Obj :: o.stamp == p.stamp && StampedFor(o.labels, p.stamp, cfg.window)
                  && Current(s'.log).objs == Current(s.log).objs[NameOf(p.call) := o])
  {
    var o := NewObj(s, cfg, WorkerAt(s, w).call, WorkerAt(s, w).stamp);
    assert StampedFor(o.labels, o.stamp, cfg.window);
  }

  // ----- convergence and idempotence -----

  /** From any reachable store one undisturbed reconcile is acknowledged and leaves the derived
      transition, as stored, last in the history. */
  lemma ReconcileConverges(cfg: Config, clock: Time, actions: seq<Action>, w: nat, x: Input)
    requires ConfigOk(cfg)
    requires AtRest(WorkerAt(Reached(cfg, clock, actions), w)) && DerivedAt(Reached(cfg, clock, actions), x).Some?
    ensures var s := Reached(cfg, clock, actions);
            var d, s' := DerivedAt(s, x).value, Solo(cfg, s, w, x);
            var name := DecisionName(d.identity.uid);
            && WorkerAt(s', w).Done? && WorkerAt(s', w).verdict.Acked?
            && name in Current(s'.log).objs
            && RepeatsLast(Current(s'.log).objs[name].status, Stored(d.transition))
  {
    ReachedIsInv(cfg, clock, actions);
    var s := Reached(cfg, clock, actions);
    SoloRecords(cfg, s, w, x);
    RecordedIsLast(cfg, s, Solo(cfg, s, w, x), w, DerivedAt(s, x).value);
  }

  lemma RecordedIsLast(cfg: Config, s: State, s': State, w: nat, d: Derived)
    requires Inv(cfg, s) && SoloEffect(cfg, s, s', w, d)
    ensures var name := DecisionName(d.identity.uid);
            && RepeatsLast(Current(s'.log).objs[name].status, Stored(d.transition))
            && LastIs(HistoryOf(s', name), Stored(d.transition))
  {
    var name := DecisionName(d.identity.uid);
    assert StoreOk(cfg, Current(s'.log).objs, s'.nextVersion);
    assert ObjOk(cfg, name, Current(s'.log).objs[name], s'.nextVersion);
    TruncBounds(d.transition.decisionTimestamp);
  }

  /** A second undisturbed reconcile of the same pod leaves the store unchanged exactly when what
      it derives equals what the first one stored. */
  lemma SecondReconcileIsQuietIff(cfg: Config, s: State, w: nat, x: Input, y: Input)
    requires Inv(cfg, s) && AtRest(WorkerAt(s, w)) && DerivedAt(s, x).Some?
    requires var s' := Solo(cfg, s, w, x);
             DerivedAt(s', y).Some? && DerivedAt(s', y).value.identity.uid == DerivedAt(s, x).value.identity.uid
    ensures var s' := Solo(cfg, s, w, x);
            Solo(cfg, s', w, y).log == s'.log
            <==> TransitionsEqual(Stored(DerivedAt(s, x).value.transition), DerivedAt(s', y).value.transition)
  {
    var s' := Solo(cfg, s, w, x);
    var d, e := DerivedAt(s, x).value, DerivedAt(s', y).value;
    SecondRecords(cfg, s, w, x, y);
    QuietIff(s', Solo(cfg, s', w, y), DecisionName(d.identity.uid), Stored(d.transition), e.transition);
  }

  /** Two undisturbed reconciles of one pod: what the second starts from, and does. */
  lemma SecondRecords(cfg: Config, s: State, w: nat, x: Input, y: Input)
    requires Inv(cfg, s) && AtRest(WorkerAt(s, w)) && DerivedAt(s, x).Some?
    requires var s' := Solo(cfg, s, w, x);
             DerivedAt(s', y).Some? && DerivedAt(s', y).value.identity.uid == DerivedAt(s, x).value.identity.uid
    ensures var s' := Solo(cfg, s, w, x);
            var d, e := DerivedAt(s, x).value, DerivedAt(s', y).value;
            var name := DecisionName(d.identity.uid);
            && LastIs(HistoryOf(s', name), Stored(d.transition))
            && RecordsOrStays(s', Solo(cfg, s', w, y), name, e.transition)
  {
    SoloRecords(cfg, s, w, x);
    SecondSolo(cfg, s, Solo(cfg, s, w, x), w, DerivedAt(s, x).value, y);
  }

  lemma SecondSolo(cfg: Config, s: State, s': State, w: nat, d: Derived, y: Input)
    requires Inv(cfg, s) && SoloEffect(cfg, s, s', w, d)
    requires DerivedAt(s', y).Some? && DerivedAt(s', y).value.identity.uid == d.identity.uid
    ensures var name := DecisionName(d.identity.uid);
            && LastIs(HistoryOf(s', name), Stored(d.transition))
            && RecordsOrStays(s', Solo(cfg, s', w, y), name, DerivedAt(s', y).value.transition)
  {
    RecordedIsLast(cfg, s, s', w, d);
    SoloRecords(cfg, s', w, y);
    EffectRecords(cfg, s', Solo(cfg, s', w, y), w, DerivedAt(s', y).value);
  }

  lemma EffectRecords(cfg: Config, s: State, s': State, w: nat, d: Derived)
    requires SoloEffect(cfg, s, s', w, d) && DecisionName(d.identity.uid) in Current(s.log).objs
    ensures RecordsOrStays(s, s', DecisionName(d.identity.uid), d.transition)
  {
  }

  /** What recording t leaves of the history under the name, and of the log if that does not change. */
  predicate RecordsOrStays(s: State, s': State, name: string, t: Transition) {
    && HistoryOf(s', name) == Record(HistoryOf(s, name), t)
    && (HistoryOf(s', name) == HistoryOf(s, name) ==> s'.log == s.log)
  }

  lemma QuietIff(s: State, s': State, name: string, last: Transition, t: Transition)
    requires RecordsOrStays(s, s', name, t) && LastIs(HistoryOf(s, name), last)
    ensures s'.log == s.log <==> TransitionsEqual(last, t)
  {
    RecordKeepsIff(HistoryOf(s, name), last, t);
  }

  lemma RecordKeepsIff(history: seq<Transition>, last: Transition, t: Transition)
    requires LastIs(history, last)
    ensures Record(history, t) == history <==> TransitionsEqual(last, t)
  {
    EqualsAgree(history[|history| - 1], last, t);
    assert |history + [Stored(t)]| > |history|;
  }

  lemma SoloClock(cfg: Config, s: State, w: nat, x: Input)
    ensures Solo(cfg, s, w, x).clock == s.clock + x.elapsed
  {
    SoloUnfolds(cfg, s, w, x);
    var newest := |s.log| + 1;
    var s1 := Begun(cfg, s, w, x);
    var s3 := Next(cfg, Next(cfg, s1, CheckExists(w, newest)), Create(w));
    OnlyTicksMoveTheClock(cfg, Next(cfg, s, Tick(x.elapsed)), Observe(w, x.pod, x.events, x.volume));
    OnlyTicksMoveTheClock(cfg, s1, CheckExists(w, newest));
    OnlyTicksMoveTheClock(cfg, Next(cfg, s1, CheckExists(w, newest)), Create(w));
    OnlyTicksMoveTheClock(cfg, s3, ReadBack(w, newest));
    OnlyTicksMoveTheClock(cfg, Next(cfg, s3, ReadBack(w, newest)), WriteStatus(w));
  }

  lemma OnlyTicksMoveTheClock(cfg: Config, s: State, a: Action)
    requires !a.Tick?
    ensures Next(cfg, s, a).clock == s.clock
  {
  }

  /** When the first transition as stored equals the second, of the same or a later reading. */
  lemma StoredEqualsLater(t: Transition, u: Transition)
    requires u.decisionTimestamp >= t.decisionTimestamp && SameObservation(t, u)
    ensures TransitionsEqual(Stored(t), u) <==> Whole(t.decisionTimestamp) && u.decisionTimestamp == t.decisionTimestamp
  {
    TruncBounds(t.decisionTimestamp);
  }

  /** The history after a second reconcile that changed something. */
  lemma SecondEntry(s: State, s': State, name: string, last: Transition, t: Transition)
    requires RecordsOrStays(s, s', name, t) && LastIs(HistoryOf(s, name), last) && s'.log != s.log
    ensures HistoryOf(s', name) == HistoryOf(s, name) + [Stored(t)]
    ensures TransitionsEqual(last, Stored(t)) ==> !NoStutter(HistoryOf(s', name))
  {
    var h, h' := HistoryOf(s, name), HistoryOf(s', name);
    if TransitionsEqual(last, Stored(t)) {
      RecordKeepsIff(h, last, t);
      EqualsAgree(h[|h| - 1], last, Stored(t));
      assert h'[|h| - 1] == h[|h| - 1] && h'[|h|] == Stored(t);
    }
  }

  /** Reconciling the same inputs twice is idempotent exactly when the derived timestamp is whole and,
      if the derivation read the clock for it, the clock has not moved.  Otherwise the history gets one
      more entry, which equals its neighbour if it falls into the same second. */
  lemma ReconcileIsIdempotentIff(cfg: Config, s: State, w: nat, x: Input, elapsed: nat)
    requires Inv(cfg, s) && AtRest(WorkerAt(s, w)) && DerivedAt(s, x).Some?
    ensures var s' := Solo(cfg, s, w, x);
            var s'' := Solo(cfg, s', w, x.(elapsed := elapsed));
            var ts := DerivedAt(s, x).value.transition.decisionTimestamp;
            var name, later := DecisionName(DerivedAt(s, x).value.identity.uid),
                               if ReadsClock(x.pod, x.events) then ts + elapsed else ts;
            && (s''.log == s'.log <==> Whole(ts) && (ReadsClock(x.pod, x.events) ==> elapsed == 0))
            && (s''.log != s'.log ==>
                  && |HistoryOf(s'', name)| == |HistoryOf(s', name)| + 1
                  && (Trunc(later) == Trunc(ts) ==> !NoStutter(HistoryOf(s'', name))))
  {
    var s', y := Solo(cfg, s, w, x), x.(elapsed := elapsed);
    SoloClock(cfg, s, w, x);
    DerivedTwice(s, s', x, y);
    var d, e := DerivedAt(s, x).value, DerivedAt(s', y).value;
    SecondRecords(cfg, s, w, x, y);
    SecondEffect(s', Solo(cfg, s', w, y), DecisionName(d.identity.uid), d.transition, e.transition);
  }

  /** A derivation repeated later makes the same observation, with the same timestamp unless it read
      the clock, which then accounts for the difference. */
  lemma DerivedTwice(s: State, s': State, x: Input, y: Input)
    requires s'.clock == s.clock + x.elapsed && y.pod == x.pod && y.events == x.events
    ensures Rederived(DerivedAt(s, x), DerivedAt(s', y), if ReadsClock(x.pod, x.events) then y.elapsed else 0)
  {
    LatestEventIsFirstNewest(x.events, REASON_PREEMPTED);
    LatestEventIsFirstNewest(x.events, REASON_SCHEDULED);
    LatestEventIsFirstNewest(x.events, REASON_FAILED);
  }

  /** The second of two recordings, of the same observation made at the same or a later time. */
  lemma SecondEffect(s: State, s': State, name: string, t: Transition, u: Transition)
    requires RecordsOrStays(s, s', name, u) && LastIs(HistoryOf(s, name), Stored(t))
    requires SameObservation(t, u) && t.decisionTimestamp <= u.decisionTimestamp
    ensures s'.log == s.log <==> Whole(t.decisionTimestamp) && u.decisionTimestamp == t.decisionTimestamp
    ensures s'.log != s.log ==>
              && |HistoryOf(s', name)| == |HistoryOf(s, name)| + 1
              && (Trunc(u.decisionTimestamp) == Trunc(t.decisionTimestamp) ==> !NoStutter(HistoryOf(s', name)))
  {
    QuietIff(s, s', name, Stored(t), u);
    StoredEqualsLater(t, u);
    if s'.log != s.log {
      SecondEntry(s, s', name, Stored(t), u);
    }
  }

  /** An acknowledgement need not mean "last": after a pod was observed as x and then as y, a
      worker that derives x again and still reads the version of that time returns without an
      error, and y stays the last entry. */
  lemma {:induction false} StaleAcknowledgement(cfg: Config, s: State, w: nat, x: Input, y: Input)
    requires Inv(cfg, s) && AtRest(WorkerAt(s, w)) && DerivedAt(s, x).Some? && !ReadsClock(x.pod, x.events)
    requires Whole(DerivedAt(s, x).value.transition.decisionTimestamp) && Solo(cfg, s, w, x).log != []
    requires var s1 := Solo(cfg, s, w, x);
             && DerivedAt(s1, y).Some? && DerivedAt(s1, y).value.identity.uid == DerivedAt(s, x).value.identity.uid
             && !TransitionsEqual(DerivedAt(s, x).value.transition, Stored(DerivedAt(s1, y).value.transition))
    ensures var s1 := Solo(cfg, s, w, x);
            var s2 := Solo(cfg, s1, w, y);
            var t, name := DerivedAt(s, x).value.transition, DecisionName(DerivedAt(s, x).value.identity.uid);
            EndsAckedNotLast(Run(cfg, s2, StaleSteps(w, x, |s1.log| - 1)), w, name, t)
  {
    var s1 := Solo(cfg, s, w, x);
    var s2 := Solo(cfg, s1, w, y);
    var d, e := DerivedAt(s, x).value, DerivedAt(s1, y).value;
    SoloRecords(cfg, s, w, x);
    RecordedIsLast(cfg, s, s1, w, d);
    SoloRecords(cfg, s1, w, y);
    RecordedIsLast(cfg, s1, s2, w, e);
    RunExtendsLog(cfg, s1, SoloSteps(s1, w, y));
    DerivationIsStableIff(x.pod, x.events);
    TruncBounds(d.transition.decisionTimestamp);
    RunThree(cfg, s2, Observe(w, x.pod, x.events, x.volume), CheckExists(w, |s1.log| - 1), ReadBack(w, |s1.log| - 1));
    StaleReconcile(cfg, s1, s2, w, x, d, Stored(e.transition));
  }

  /** A reconcile both of whose reads are served from version k. */
  function StaleSteps(w: nat, x: Input, k: nat): seq<Action> {
    [Observe(w, x.pod, x.events, x.volume), CheckExists(w, k), ReadBack(w, k)]
  }

  /** The worker has been told that t is recorded, and t is not the last entry. */
  predicate EndsAckedNotLast(s: State, w: nat, name: string, t: Transition) {
    && WorkerAt(s, w).Done? && WorkerAt(s, w).verdict.Acked? && WorkerAt(s, w).call.transition == t
    && name in Current(s.log).objs && !RepeatsLast(Current(s.log).objs[name].status, t)
  }

  lemma {:induction false} RunThree(cfg: Config, s: State, a0: Action, a1: Action, a2: Action)
    ensures Run(cfg, s, [a0, a1, a2]) == Next(cfg, Next(cfg, Next(cfg, s, a0), a1), a2)
  {
    assert [a0, a1, a2] == [a0] + ([a1] + ([a2] + []));
    RunCons(cfg, s, a0, [a1] + ([a2] + []));
    RunCons(cfg, Next(cfg, s, a0), a1, [a2] + []);
    RunCons(cfg, Next(cfg, Next(cfg, s, a0), a1), a2, []);
  }

  lemma StaleReconcile(cfg: Config, s1: State, s2: State, w: nat, x: Input, d: Derived, last: Transition)
    requires s1.log != [] && s1.log <= s2.log && AtRest(WorkerAt(s2, w))
    requires DeriveTransition(x.pod, x.events, s2.clock) == Some(d) && !TransitionsEqual(d.transition, last)
    requires var name := DecisionName(d.identity.uid);
             && name in Current(s1.log).objs && name in Current(s2.log).objs
             && RepeatsLast(Current(s1.log).objs[name].status, d.transition)
             && RepeatsLast(Current(s2.log).objs[name].status, last)
    ensures var k := |s1.log| - 1;
            var s3 := Next(cfg, Next(cfg, Next(cfg, s2, Observe(w, x.pod, x.events, x.volume)), CheckExists(w, k)),
                           ReadBack(w, k));
            EndsAckedNotLast(s3, w, DecisionName(d.identity.uid), d.transition)
  {
    var k := |s1.log| - 1;
    assert s2.log[k] == s1.log[k];
    var begun := Next(cfg, s2, Observe(w, x.pod, x.events, x.volume));
    var looked := Next(cfg, begun, CheckExists(w, k));
    assert WorkerAt(looked, w).Appending? && WorkerAt(looked, w).call.transition == d.transition
        && looked.log == s2.log;
  }

  // ----- the failing cases are reached from an empty store -----

  /** A pod that could not be scheduled at second 1, and the same pod scheduled at second 2. */
  const UNSCHEDULABLE := Input(0, Some(Pod("uid", "pod", "ns", "", "", 0,
    [Condition("PodScheduled", ConditionFalse, "Unschedulable", "", SECOND)])), [], None)
  const SCHEDULED := Input(0, Some(Pod("uid", "pod", "ns", "", "node", 0,
    [Condition("PodScheduled", ConditionTrue, "", "", 2 * SECOND)])), [], None)

  /** A preemption whose event carries only an event time, with half a second in it. */
  const HALF_SECOND := Input(0, None,
    [Event("", "ns", "Preempted", "", ObjectRef("Pod", "ns", "pod", "uid"), "", "",
           ZERO_TIME, 3 * SECOND / 2, ZERO_TIME)],
    None)

  /** Whenever x is observed, it says this about this pod. */
  predicate Says(x: Input, now: Time, uid: string, outcome: Outcome, ts: Time) {
    var d := DeriveTransition(x.pod, x.events, now);
    && d.Some? && d.value.identity.uid == uid
    && d.value.transition.outcome == outcome && d.value.transition.decisionTimestamp == ts
  }

  /** A scheduled pod whose condition carries no time, and without events. */
  const UNDATED := Input(0, Some(Pod("uid", "pod", "ns", "", "node", 0,
    [Condition("PodScheduled", ConditionTrue, "", "", ZERO_TIME)])), [], None)

  lemma InputsSay(now: Time)
    ensures Says(UNSCHEDULABLE, now, "uid", FailedScheduling, SECOND)
    ensures !ReadsClock(UNSCHEDULABLE.pod, UNSCHEDULABLE.events)
    ensures Says(SCHEDULED, now, "uid", Scheduled, 2 * SECOND)
    ensures Says(UNDATED, now, "uid", Scheduled, now) && ReadsClock(UNDATED.pod, UNDATED.events)
    ensures Says(HALF_SECOND, now, "uid", Preempted, 3 * SECOND / 2) && !ReadsClock(None, HALF_SECOND.events)
  {
    assert HALF_SECOND.events[..0] == [];
    var e := HALF_SECOND.events[0];
    assert LatestEvent(HALF_SECOND.events, REASON_PREEMPTED) == Some(e);
  }

  lemma {:induction false} StaleAcknowledgementIsReached(cfg: Config, clock: Time)
    requires ConfigOk(cfg)
    ensures exists actions, t :: EndsAckedNotLast(Reached(cfg, clock, actions), 0, DecisionName("uid"), t)
  {
    InputsSay(clock);
    InputsSay(Solo(cfg, Init(clock), 0, UNSCHEDULABLE).clock);
    var actions, t := StaleRunOf(cfg, clock, UNSCHEDULABLE, SCHEDULED, "uid", SECOND, 2 * SECOND);
  }

  /** A pod seen first unschedulable and then scheduled. */
  lemma {:induction false} StaleRunOf(cfg: Config, clock: Time, x: Input, y: Input, uid: string, ts: Time, ts': Time)
    returns (actions: seq<Action>, t: Transition)
    requires ConfigOk(cfg) && x.elapsed == 0 == y.elapsed && Whole(ts) && !ReadsClock(x.pod, x.events)
    requires Says(x, clock, uid, FailedScheduling, ts)
    requires Says(y, Solo(cfg, Init(clock), 0, x).clock, uid, Scheduled, ts')
    ensures EndsAckedNotLast(Reached(cfg, clock, actions), 0, DecisionName(uid), t)
  {
    var s0 := Init(clock);
    InitIsInv(cfg, clock);
    t := DerivedAt(s0, x).value.transition;
    RunExtendsLog(cfg, s0, SoloSteps(s0, 0, x));
    StaleAcknowledgement(cfg, s0, 0, x, y);
    actions := ThreeRuns(cfg, s0, x, y);
  }

  /** The two reconciles and the stale one as a single run. */
  lemma {:induction false} ThreeRuns(cfg: Config, s: State, x: Input, y: Input) returns (actions: seq<Action>)
    ensures var s1 := Solo(cfg, s, 0, x);
            s1.log != [] ==> Run(cfg, s, actions) == Run(cfg, Solo(cfg, s1, 0, y), StaleSteps(0, x, |s1.log| - 1))
  {
    var s1 := Solo(cfg, s, 0, x);
    var first, second := SoloSteps(s, 0, x), SoloSteps(s1, 0, y);
    var third := StaleSteps(0, x, if s1.log == [] then 0 else |s1.log| - 1);
    RunConcat(cfg, s, first, second);
    RunConcat(cfg, s, first + second, third);
    actions := first + second + third;
  }

  lemma {:induction false} FractionIsRecordedTwice(cfg: Config, clock: Time)
    requires ConfigOk(cfg)
    ensures exists actions :: !NoStutter(HistoryOf(Reached(cfg, clock, actions), DecisionName("uid")))
  {
    InitIsInv(cfg, clock);
    var s0 := Init(clock);
    InputsSay(s0.clock);
    ReconcileIsIdempotentIff(cfg, s0, 0, HALF_SECOND, 0);
    var s1 := Solo(cfg, s0, 0, HALF_SECOND);
    RunConcat(cfg, s0, SoloSteps(s0, 0, HALF_SECOND), SoloSteps(s1, 0, HALF_SECOND));
    assert !NoStutter(HistoryOf(Reached(cfg, clock, SoloSteps(s0, 0, HALF_SECOND) + SoloSteps(s1, 0, HALF_SECOND)),
                                DecisionName("uid")));
  }

  lemma {:induction false} ClockReadingIsRecordedAnew(cfg: Config, clock: Time)
    requires ConfigOk(cfg)
    ensures exists actions :: |HistoryOf(Reached(cfg, clock, actions), DecisionName("uid"))| == 2
  {
    InitIsInv(cfg, clock);
    var s0, y := Init(clock), UNDATED.(elapsed := 1);
    InputsSay(clock);
    SoloRecords(cfg, s0, 0, UNDATED);
    ReconcileIsIdempotentIff(cfg, s0, 0, UNDATED, 1);
    var s1 := Solo(cfg, s0, 0, UNDATED);
    RunConcat(cfg, s0, SoloSteps(s0, 0, UNDATED), SoloSteps(s1, 0, y));
    assert |HistoryOf(Reached(cfg, clock, SoloSteps(s0, 0, UNDATED) + SoloSteps(s1, 0, y)), DecisionName("uid"))| == 2;
  }

  // ----- a sequence of observations -----

  /** Undisturbed reconciles one after the other. */
  function SoloAll(cfg: Config, s: State, w: nat, inputs: seq<Input>): State {
    if inputs == [] then s
    else Solo(cfg, SoloAll(cfg, s, w, inputs[..|inputs| - 1]), w, inputs[|inputs| - 1])
  }

  /** What they derive; each is about the pod with this UID. */
  ghost predicate Observes(cfg: Config, s: State, w: nat, inputs: seq<Input>, uid: string, seen: seq<Transition>) {
    && |seen| == |inputs|
    && (inputs != [] ==>
          var n := |inputs| - 1;
          var d := DerivedAt(SoloAll(cfg, s, w, inputs[..n]), inputs[n]);
          && Observes(cfg, s, w, inputs[..n], uid, seen[..n])
          && d.Some? && d.value.identity.uid == uid && d.value.transition == seen[n])
  }

  /** The observations that differ from the one before them, as it was stored. */
  function Changes(seen: seq<Transition>): seq<Transition> {
    if seen == [] then []
    else
      var n := |seen| - 1;
      Changes(seen[..n]) + if n > 0 && TransitionsEqual(Stored(seen[n - 1]), seen[n]) then [] else [Stored(seen[n])]
  }

  /** The first member of every maximal run of equal neighbours. */
  function RunHeads(seen: seq<Transition>): seq<Transition> {
    if seen == [] then []
    else
      var n := |seen| - 1;
      RunHeads(seen[..n]) + if n > 0 && TransitionsEqual(seen[n - 1], seen[n]) then [] else [seen[n]]
  }

  predicate AllWhole(seen: seq<Transition>) {
    forall i :: 0 <= i < |seen| ==> Whole(seen[i].decisionTimestamp)
  }

  lemma EqualsAgree(a: Transition, b: Transition, t: Transition)
    requires TransitionsEqual(a, b)
    ensures TransitionsEqual(a, t) == TransitionsEqual(b, t)
  {
  }

  lemma {:induction false} ChangesEndWithLast(seen: seq<Transition>)
    requires seen != []
    ensures LastIs(Changes(seen), Stored(seen[|seen| - 1]))
  {
    var n := |seen| - 1;
    var before := Changes(seen[..n]);
    if n > 0 && TransitionsEqual(Stored(seen[n - 1]), seen[n]) {
      ChangesEndWithLast(seen[..n]);
      TruncBounds(seen[n - 1].decisionTimestamp);
      TruncBounds(seen[n].decisionTimestamp);
      assert Changes(seen) == before;
      EqualsAgree(before[|before| - 1], Stored(seen[n - 1]), Stored(seen[n]));
    }
  }

  lemma {:induction false} ChangesRecord(seen: seq<Transition>)
    requires seen != []
    ensures Changes(seen) == Record(Changes(seen[..|seen| - 1]), seen[|seen| - 1])
  {
    var n := |seen| - 1;
    var before := Changes(seen[..n]);
    assert before + [] == before;
    if n > 0 {
      ChangesEndWithLast(seen[..n]);
      EqualsAgree(before[|before| - 1], Stored(seen[n - 1]), seen[n]);
    }
  }

  /** The observation is what the one before it was, as that was stored. */
  predicate Repeats(before: Transition, t: Transition) {
    && t.outcome == before.outcome && t.chosenNode == before.chosenNode && t.reasonSummary == before.reasonSummary
    && t.decisionTimestamp == Trunc(before.decisionTimestamp)
  }

  predicate ChangesAt(seen: seq<Transition>, i: nat)
    requires i < |seen|
  {
    i == 0 || !Repeats(seen[i - 1], seen[i])
  }

  /** The entries are, in order, the picked observations; and picked are those that do not repeat the
      one before them. */
  ghost predicate KeepsChanges(history: seq<Transition>, seen: seq<Transition>, picks: seq<nat>) {
    && |picks| == |history|
    && (forall m, n :: 0 <= m < n < |picks| ==> picks[m] < picks[n])
    && (forall m :: 0 <= m < |picks| ==> picks[m] < |seen| && KeptToTheSecond(history[m], seen[picks[m]]))
    && (forall i: nat :: i < |seen| ==> (i in picks <==> ChangesAt(seen, i)))
  }

  lemma {:induction false} ChangesArePicked(seen: seq<Transition>) returns (picks: seq<nat>)
    ensures KeepsChanges(Changes(seen), seen, picks)
  {
    picks := [];
    if seen != [] {
      var n := |seen| - 1;
      var rest := ChangesArePicked(seen[..n]);
      var before := Changes(seen[..n]);
      if n > 0 && TransitionsEqual(Stored(seen[n - 1]), seen[n]) {
        picks := rest;
        assert Changes(seen) == before;
        KeepsAfterRepeat(before, seen, rest);
      } else {
        picks := rest + [n];
        StoringKeeps(Stored(seen[n]), seen[n]);
        KeepsAfterChange(before, seen, rest, Stored(seen[n]));
      }
    }
  }

  lemma {:induction false} KeepsAfterRepeat(history: seq<Transition>, seen: seq<Transition>, picks: seq<nat>)
    requires |seen| > 1 && KeepsChanges(history, seen[..|seen| - 1], picks)
    requires !ChangesAt(seen, |seen| - 1)
    ensures KeepsChanges(history, seen, picks)
  {
    var n := |seen| - 1;
    forall i: nat | i < |seen| ensures i in picks <==> ChangesAt(seen, i) {
      if i < n {
        assert ChangesAt(seen[..n], i) <==> ChangesAt(seen, i);
      }
    }
  }

  lemma {:induction false} KeepsAfterChange(
    history: seq<Transition>, seen: seq<Transition>, picks: seq<nat>, entry: Transition)
    requires seen != [] && KeepsChanges(history, seen[..|seen| - 1], picks)
    requires ChangesAt(seen, |seen| - 1) && KeptToTheSecond(entry, seen[|seen| - 1])
    ensures KeepsChanges(history + [entry], seen, picks + [|seen| - 1])
  {
    var n, more := |seen| - 1, picks + [|seen| - 1];
    forall i: nat | i < |seen| ensures i in more <==> ChangesAt(seen, i) {
      assert i in more <==> i in picks || i == n;
      if i < n {
        assert ChangesAt(seen[..n], i) <==> ChangesAt(seen, i);
      }
    }
  }

  /** Recording any observations of a pod, from a store that does not know it, leaves exactly
      those that changed something, in order, with their own candidate nodes and source event. */
  lemma {:induction false} RecordingKeepsChanges(
    cfg: Config, s: State, w: nat, inputs: seq<Input>, uid: string, seen: seq<Transition>)
    requires Inv(cfg, s) && AtRest(WorkerAt(s, w)) && DecisionName(uid) !in Current(s.log).objs
    requires Observes(cfg, s, w, inputs, uid, seen)
    ensures var s' := SoloAll(cfg, s, w, inputs);
            && Inv(cfg, s') && AtRest(WorkerAt(s', w))
            && HistoryOf(s', DecisionName(uid)) == Changes(seen)
            && exists picks :: KeepsChanges(HistoryOf(s', DecisionName(uid)), seen, picks)
  {
    var chosen := ChangesArePicked(seen);
    if inputs != [] {
      var n := |inputs| - 1;
      var mid := SoloAll(cfg, s, w, inputs[..n]);
      RecordingKeepsChanges(cfg, s, w, inputs[..n], uid, seen[..n]);
      SoloRecords(cfg, mid, w, inputs[n]);
      ChangesRecord(seen);
    }
  }

  /** For whole-second observations those are the heads of the runs of equal neighbours. */
  lemma {:induction false} WholeChangesAreRunHeads(seen: seq<Transition>)
    requires AllWhole(seen)
    ensures Changes(seen) == RunHeads(seen)
  {
    if seen != [] {
      var n := |seen| - 1;
      WholeChangesAreRunHeads(seen[..n]);
      TruncBounds(seen[n].decisionTimestamp);
      if n > 0 {
        TruncBounds(seen[n - 1].decisionTimestamp);
      }
    }
  }

  /** Refinement: the recorded history is the observed sequence with its stutter removed. */
  lemma {:induction false} RecordingRemovesStutter(
    cfg: Config, s: State, w: nat, inputs: seq<Input>, uid: string, seen: seq<Transition>)
    requires Inv(cfg, s) && AtRest(WorkerAt(s, w)) && DecisionName(uid) !in Current(s.log).objs
    requires Observes(cfg, s, w, inputs, uid, seen) && AllWhole(seen)
    ensures HistoryOf(SoloAll(cfg, s, w, inputs), DecisionName(uid)) == RunHeads(seen)
  {
    RecordingKeepsChanges(cfg, s, w, inputs, uid, seen);
    WholeChangesAreRunHeads(seen);
  }
}
