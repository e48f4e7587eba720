/** Retention over whole runs: the sweep shares the store with the recording workers and with
    whoever else deletes. */
module Retention {
  import opened Clock
  import opened Model
  import opened Derivation
  import opened Labels
  import opened Protocol
  import opened Invariants
  import opened Recording
  import opened Sequential

  /** One sweep at a time is part of the protocol; here it is also the only deleter. */
  predicate SweepIsSoleDeleter(actions: seq<Action>) {
    forall i :: 0 <= i < |actions| ==> !actions[i].AdminDelete?
  }

  /** Something else deleted the name after version a and before version b. */
  predicate RemovedBetween(log: seq<Snapshot>, name: string, a: int, b: int) {
    exists k :: 0 <= a < k < b <= |log| && log[k].edit == Removed(name)
  }

  ghost predicate StillThere(objs: Store, item: Item) {
    && item.name in objs
    && objs[item.name].incarnation == item.incarnation
    && objs[item.name].labels == item.labels
  }

  /** The listed record is there as it was listed, unless something else deleted it since. */
  ghost predicate ThereUnlessRemoved(log: seq<Snapshot>, item: Item, listed: int) {
    RemovedBetween(log, item.name, listed, |log|) || StillThere(Current(log).objs, item)
  }

  /** The items are those of the version that was listed, and those that remain are there unless
      something else deleted them. */
  ghost predicate SweepOk(s: State) {
    match s.sweep
    case NoSweep => true
    case SweepStarted(now) => now <= s.clock
    case Sweeping(now, items, next, listed) =>
      && now <= s.clock && listed < |s.log|
      && (forall i, j :: 0 <= i < j < |items| ==> items[i].name != items[j].name)
      && (forall j :: 0 <= j < |items| ==> StillThere(s.log[listed].objs, items[j]))
      && (forall j :: next <= j < |items| ==> ThereUnlessRemoved(s.log, items[j], listed))
  }

  /** Deleted after the end of the record's window, to the second. */
  ghost predicate TimelyDeath(cfg: Config, before: Store, snap: Snapshot, name: string) {
    name in before ==> snap.clock > before[name].stamp + cfg.window - SECOND
  }

  /** Version k, a deletion by the sweep, took what was listed and took it in time, unless
      something else had deleted that in between. */
  ghost predicate DeathOk(cfg: Config, log: seq<Snapshot>, k: int)
    requires 0 < k < |log| && log[k].edit.Swept?
  {
    var name, listed := log[k].edit.name, log[k].edit.listed;
    && listed < k && name in log[listed].objs && name in log[k - 1].objs
    && (|| RemovedBetween(log, name, listed, k)
        || (&& log[k - 1].objs[name].incarnation == log[listed].objs[name].incarnation
            && TimelyDeath(cfg, log[k - 1].objs, log[k], name)))
  }

  ghost predicate DeathsOk(cfg: Config, log: seq<Snapshot>) {
    forall k :: 0 < k < |log| && log[k].edit.Swept? ==> DeathOk(cfg, log, k)
  }

  ghost predicate RetentionInv(cfg: Config, s: State) {
    SweepOk(s) && DeathsOk(cfg, s.log)
  }

  // ----- every step of every process keeps it -----

  lemma RemovedStays(log: seq<Snapshot>, more: seq<Snapshot>, name: string, a: int, b: int, c: int)
    requires log <= more && b <= |log| && b <= c <= |more| && RemovedBetween(log, name, a, b)
    ensures RemovedBetween(more, name, a, c)
  {
    var k :| 0 <= a < k < b && log[k].edit == Removed(name);
    assert more[k] == log[k];
  }

  lemma DeathStays(cfg: Config, log: seq<Snapshot>, more: seq<Snapshot>, k: int)
    requires log <= more && 0 < k < |log| && log[k].edit.Swept? && DeathOk(cfg, log, k)
    ensures DeathOk(cfg, more, k)
  {
    var name, listed := log[k].edit.name, log[k].edit.listed;
    assert more[k] == log[k] && more[k - 1] == log[k - 1] && more[listed] == log[listed];
    if RemovedBetween(log, name, listed, k) {
      RemovedStays(log, more, name, listed, k, k);
    }
  }

  lemma OneMoreDeath(cfg: Config, log: seq<Snapshot>, more: seq<Snapshot>)
    requires DeathsOk(cfg, log) && log <= more && |more| <= |log| + 1
    requires 0 < |log| < |more| && more[|log|].edit.Swept? ==> DeathOk(cfg, more, |log|)
    ensures log != [] ==> DeathsOk(cfg, more)
  {
    forall k | 0 < k < |more| && more[k].edit.Swept? && log != [] ensures DeathOk(cfg, more, k) {
      if k < |log| {
        assert log[k] == more[k];
        DeathStays(cfg, log, more, k);
      }
    }
  }

  /** Whatever is not a deletion leaves a record under its name as it was listed. */
  lemma RecorderLeavesItem(cfg: Config, s: State, a: Action, item: Item)
    requires s.log != [] && !a.SweepNext? && !a.AdminDelete?
    requires StillThere(Current(s.log).objs, item)
    ensures StillThere(Current(Next(cfg, s, a).log).objs, item)
  {
  }

  /** A deletion by something else is in the log. */
  lemma RemovalIsLogged(s: State, target: string, item: Item, listed: int)
    requires s.log != [] && 0 <= listed < |s.log| && StillThere(Current(s.log).objs, item)
    ensures ThereUnlessRemoved(ServerDelete(s, target, Removed(target)).log, item, listed)
  {
    var s' := ServerDelete(s, target, Removed(target));
    if target == item.name {
      assert s'.log[|s.log|].edit == Removed(target);
    }
  }

  lemma OthersKeepListed(cfg: Config, s: State, a: Action, item: Item, listed: int)
    requires s.log != [] && !a.SweepNext? && 0 <= listed < |s.log| && ThereUnlessRemoved(s.log, item, listed)
    ensures ThereUnlessRemoved(Next(cfg, s, a).log, item, listed)
  {
    OthersDoNotMove(cfg, s, a, 0);
    if RemovedBetween(s.log, item.name, listed, |s.log|) {
      RemovedStays(s.log, Next(cfg, s, a).log, item.name, listed, |s.log|, |Next(cfg, s, a).log|);
    } else if a.AdminDelete? {
      RemovalIsLogged(s, a.target, item, listed);
    } else {
      RecorderLeavesItem(cfg, s, a, item);
    }
  }

  lemma OthersKeepDeaths(cfg: Config, s: State, a: Action)
    requires s.log != [] && DeathsOk(cfg, s.log) && !a.SweepNext?
    ensures DeathsOk(cfg, Next(cfg, s, a).log)
  {
    var s' := Next(cfg, s, a);
    OthersDoNotMove(cfg, s, a, 0);
    assert |s'.log| == |s.log| || (|s'.log| == |s.log| + 1 && !s'.log[|s.log|].edit.Swept?);
    OneMoreDeath(cfg, s.log, s'.log);
  }

  lemma OthersKeepSweep(cfg: Config, s: State, a: Action)
    requires s.log != [] && SweepOk(s) && !a.SweepNext? && !a.ListDecisions?
    ensures SweepOk(Next(cfg, s, a))
  {
    var s' := Next(cfg, s, a);
    OthersDoNotMove(cfg, s, a, 0);
    assert s'.clock >= s.clock;
    if s'.sweep.Sweeping? {
      assert s'.sweep == s.sweep && s'.log[s.sweep.listed] == s.log[s.sweep.listed];
      forall j | s.sweep.next <= j < |s.sweep.items|
        ensures ThereUnlessRemoved(s'.log, s.sweep.items[j], s.sweep.listed)
      {
        OthersKeepListed(cfg, s, a, s.sweep.items[j], s.sweep.listed);
      }
    }
  }

  lemma ListKeepsSweep(s: State, order: seq<string>)
    requires s.log != [] && SweepOk(s)
    ensures SweepOk(DoListDecisions(s, order))
  {
    var s' := DoListDecisions(s, order);
    if s.sweep.SweepStarted? && s'.sweep.Sweeping? {
      forall j | 0 <= j < |s'.sweep.items| ensures StillThere(Current(s.log).objs, s'.sweep.items[j]) {
      }
    }
  }

  /** The name-only delete meets the incarnation and labels that were listed exactly when nothing
      else has deleted the name since the list; and then it is not early. */
  lemma SweepHitsWhatItListed(cfg: Config, s: State)
    requires Inv(cfg, s) && RetentionInv(cfg, s)
    requires s.sweep.Sweeping? && s.sweep.next < |s.sweep.items|
    ensures var item := s.sweep.items[s.sweep.next];
            && (StillThere(Current(s.log).objs, item) <==> !RemovedBetween(s.log, item.name, s.sweep.listed, |s.log|))
            && (StillThere(Current(s.log).objs, item) && IsExpired(item.labels, s.sweep.now) == Some(true) ==>
                  s.clock > Current(s.log).objs[item.name].stamp + cfg.window - SECOND)
  {
    var item, now := s.sweep.items[s.sweep.next], |s.log| - 1;
    assert ThereUnlessRemoved(s.log, item, s.sweep.listed);
    if StillThere(Current(s.log).objs, item) {
      if RemovedBetween(s.log, item.name, s.sweep.listed, |s.log|) {
        assert StillThere(s.log[s.sweep.listed].objs, item);
        RemovedIsReplaced(cfg, s.log, s.nextVersion, item.name, s.sweep.listed, now);
      }
      DeleteIsTimely(cfg, s, item);
    }
  }

  lemma DeleteIsTimely(cfg: Config, s: State, item: Item)
    requires Inv(cfg, s) && s.sweep.Sweeping? && s.sweep.now <= s.clock && StillThere(Current(s.log).objs, item)
    ensures IsExpired(item.labels, s.sweep.now) == Some(true) ==>
              s.clock > Current(s.log).objs[item.name].stamp + cfg.window - SECOND
  {
    var o := Current(s.log).objs[item.name];
    assert StoreOk(cfg, Current(s.log).objs, s.nextVersion);
    assert ObjOk(cfg, item.name, o, s.nextVersion);
    ExpiryBounds(o.labels, o.stamp, cfg.window, s.sweep.now, s.sweep.now);
  }

  /** What was deleted by something else comes back, if at all, as a later incarnation. */
  lemma RemovedIsReplaced(cfg: Config, log: seq<Snapshot>, nextVersion: nat, name: string, a: int, b: int)
    requires LogOk(cfg, log, nextVersion) && 0 <= a <= b < |log| && RemovedBetween(log, name, a, b + 1)
    requires name in log[a].objs && name in log[b].objs
    ensures log[b].objs[name].incarnation > log[a].objs[name].incarnation
  {
    var k :| a < k < b + 1 && log[k].edit == Removed(name);
    assert Explained(log[k - 1].objs, log[k]);
    AbsenceEndsIncarnation(cfg, log, nextVersion, a, k, b, name);
  }

  /** What the sweep publishes when it deletes. */
  lemma SweepPublishes(s: State, fails: bool)
    requires s.log != [] && |DoSweepNext(s, fails).log| > |s.log|
    ensures s.sweep.Sweeping? && s.sweep.next < |s.sweep.items|
    ensures var item := s.sweep.items[s.sweep.next];
            && IsExpired(item.labels, s.sweep.now) == Some(true) && item.name in Current(s.log).objs
            && DoSweepNext(s, fails).log
               == s.log + [Snapshot(Current(s.log).objs - {item.name}, s.clock, Swept(item.name, s.sweep.listed))]
  {
  }

  lemma NewDeathIsOk(cfg: Config, log: seq<Snapshot>, snap: Snapshot, item: Item, listed: int)
    requires 0 <= listed < |log| && StillThere(log[listed].objs, item) && item.name in Current(log).objs
    requires snap.edit == Swept(item.name, listed)
    requires !RemovedBetween(log, item.name, listed, |log|) ==>
               StillThere(Current(log).objs, item) && TimelyDeath(cfg, Current(log).objs, snap, item.name)
    ensures DeathOk(cfg, log + [snap], |log|)
  {
    var more := log + [snap];
    assert more[listed] == log[listed] && more[|log| - 1] == Current(log) && more[|log|] == snap;
    if RemovedBetween(log, item.name, listed, |log|) {
      RemovedStays(log, more, item.name, listed, |log|, |log|);
    }
  }

  lemma SweepKeepsDeaths(cfg: Config, s: State, fails: bool)
    requires Inv(cfg, s) && RetentionInv(cfg, s)
    ensures DeathsOk(cfg, DoSweepNext(s, fails).log)
  {
    var s' := DoSweepNext(s, fails);
    if |s'.log| > |s.log| {
      SweepPublishes(s, fails);
      SweepHitsWhatItListed(cfg, s);
      NewDeathIsOk(cfg, s.log, s'.log[|s.log|], s.sweep.items[s.sweep.next], s.sweep.listed);
      OneMoreDeath(cfg, s.log, s'.log);
    }
  }

  lemma DeletingLeavesItem(s: State, name: string, edit: Edit, item: Item, listed: int)
    requires s.log != [] && 0 <= listed < |s.log| && item.name != name && ThereUnlessRemoved(s.log, item, listed)
    ensures ThereUnlessRemoved(ServerDelete(s, name, edit).log, item, listed)
  {
    var s' := ServerDelete(s, name, edit);
    if RemovedBetween(s.log, item.name, listed, |s.log|) {
      RemovedStays(s.log, s'.log, item.name, listed, |s.log|, |s'.log|);
    }
  }

  lemma SweepKeepsSweep(s: State, fails: bool)
    requires s.log != [] && SweepOk(s)
    ensures SweepOk(DoSweepNext(s, fails))
  {
    var s' := DoSweepNext(s, fails);
    if s.sweep.Sweeping? && s.sweep.next < |s.sweep.items| {
      var items, next, listed := s.sweep.items, s.sweep.next, s.sweep.listed;
      assert s'.log[listed] == s.log[listed];
      forall j | next + 1 <= j < |items| ensures ThereUnlessRemoved(s'.log, items[j], listed) {
        var advanced := s.(sweep := s.sweep.(next := next + 1));
        DeletingLeavesItem(advanced, items[next].name, Swept(items[next].name, listed), items[j], listed);
      }
    }
  }

  lemma NextKeepsRetention(cfg: Config, s: State, a: Action)
    requires Inv(cfg, s) && RetentionInv(cfg, s)
    ensures RetentionInv(cfg, Next(cfg, s, a))
  {
    match a
    case SweepNext(fails) =>
      SweepKeepsDeaths(cfg, s, fails);
      SweepKeepsSweep(s, fails);
    case ListDecisions(order) => ListKeepsSweep(s, order);
    case _ =>
      OthersKeepDeaths(cfg, s, a);
      OthersKeepSweep(cfg, s, a);
  }

  lemma {:induction false} RunKeepsRetention(cfg: Config, s: State, actions: seq<Action>)
    requires Inv(cfg, s) && RetentionInv(cfg, s)
    ensures RetentionInv(cfg, Run(cfg, s, actions))
  {
    if actions != [] {
      var init := actions[..|actions| - 1];
      RunKeepsRetention(cfg, s, init);
      RunKeepsInv(cfg, s, init);
      NextKeepsRetention(cfg, Run(cfg, s, init), actions[|actions| - 1]);
    }
  }

  lemma ReachedIsRetained(cfg: Config, clock: Time, actions: seq<Action>)
    requires ConfigOk(cfg)
    ensures Inv(cfg, Reached(cfg, clock, actions)) && RetentionInv(cfg, Reached(cfg, clock, actions))
  {
    InitIsInv(cfg, clock);
    RunKeepsInv(cfg, Init(clock), actions);
    RunKeepsRetention(cfg, Init(clock), actions);
  }

  // ----- what it means for the records -----

  /** In any run, whoever else deletes: each of the sweep's deletions takes the incarnation that
      was listed exactly when nothing else deleted the name in between, and then it comes no
      earlier than just under one second before the end of the record's window. */
  lemma SweepTakesListedIff(cfg: Config, clock: Time, actions: seq<Action>, k: int)
    requires ConfigOk(cfg)
    requires var log := Reached(cfg, clock, actions).log; 0 < k < |log| && log[k].edit.Swept?
    ensures var log := Reached(cfg, clock, actions).log;
            var name, listed := log[k].edit.name, log[k].edit.listed;
            && listed < k && name in log[listed].objs && name in log[k - 1].objs && name !in log[k].objs
            && (log[k - 1].objs[name].incarnation == log[listed].objs[name].incarnation
                <==> !RemovedBetween(log, name, listed, k))
            && (!RemovedBetween(log, name, listed, k) ==>
                  log[k].clock > log[k - 1].objs[name].stamp + cfg.window - SECOND)
  {
    ReachedIsRetained(cfg, clock, actions);
    var s := Reached(cfg, clock, actions);
    assert DeathOk(cfg, s.log, k) && Explained(s.log[k - 1].objs, s.log[k]);
    if RemovedBetween(s.log, s.log[k].edit.name, s.log[k].edit.listed, k) {
      RemovedIsReplaced(cfg, s.log, s.nextVersion, s.log[k].edit.name, s.log[k].edit.listed, k - 1);
    }
  }

  lemma {:induction false} NoRemovals(cfg: Config, clock: Time, actions: seq<Action>, k: int)
    requires ConfigOk(cfg) && SweepIsSoleDeleter(actions) && 0 <= k < |Reached(cfg, clock, actions).log|
    ensures !Reached(cfg, clock, actions).log[k].edit.Removed?
  {
    if actions != [] {
      var init := actions[..|actions| - 1];
      var s := Reached(cfg, clock, init);
      OthersDoNotMove(cfg, s, actions[|actions| - 1], 0);
      if k < |s.log| {
        NoRemovals(cfg, clock, init, k);
      }
    }
  }

  /** With the sweep as the only deleter no record disappears earlier than just under one second
      before the end of its retention window, counted from the clock reading its expiry label was
      computed from. */
  lemma RetentionIsSafe(cfg: Config, clock: Time, actions: seq<Action>, k: int, name: string)
    requires ConfigOk(cfg) && SweepIsSoleDeleter(actions)
    requires var log := Reached(cfg, clock, actions).log;
             && 0 < k < |log| && name in log[k - 1].objs
             && (name in log[k].objs ==> log[k].objs[name].incarnation != log[k - 1].objs[name].incarnation)
    ensures var log := Reached(cfg, clock, actions).log;
            log[k].clock > log[k - 1].objs[name].stamp + cfg.window - SECOND
  {
    EveryVersionIsOneEdit(cfg, clock, actions, k, name);
    var log := Reached(cfg, clock, actions).log;
    NoRemovals(cfg, clock, actions, k);
    assert log[k].edit.Swept? && log[k].edit.name == name;
    SweepTakesListedIff(cfg, clock, actions, k);
    NeverRemoved(cfg, clock, actions, name, log[k].edit.listed, k);
  }

  lemma {:induction false} NeverRemoved(cfg: Config, clock: Time, actions: seq<Action>, name: string, a: int, b: int)
    requires ConfigOk(cfg) && SweepIsSoleDeleter(actions)
    ensures !RemovedBetween(Reached(cfg, clock, actions).log, name, a, b)
  {
    if RemovedBetween(Reached(cfg, clock, actions).log, name, a, b) {
      var k :| 0 <= a < k < b <= |Reached(cfg, clock, actions).log|
          && Reached(cfg, clock, actions).log[k].edit == Removed(name);
      NoRemovals(cfg, clock, actions, k);
    }
  }

  // ----- another deleter is enough to delete early -----

  /** The last version is a deletion by the sweep of a record stamped at that very instant. */
  predicate EndsInEarlyDeletion(log: seq<Snapshot>) {
    && |log| > 1
    && var before, after := log[|log| - 2], log[|log| - 1];
       && after.edit.Swept? && after.edit.name in before.objs
       && after.clock == before.objs[after.edit.name].stamp
  }

  /** A sweep that has listed the only record of the store, expired. */
  lemma {:induction false} ListsRecord(cfg: Config, s: State, name: string, o: Obj)
    requires s.log != [] && s.sweep.NoSweep? && Current(s.log).objs == map[name := o]
    ensures var s' := Run(cfg, s, [StartSweep, ListDecisions([name])]);
            s' == s.(sweep := Sweeping(s.clock, [Item(name, o.incarnation, o.labels)], 0, |s.log| - 1))
  {
    var started := Next(cfg, s, StartSweep);
    RunOneMore(cfg, s, [], StartSweep);
    RunOneMore(cfg, s, [StartSweep], ListDecisions([name]));
    assert [] + [StartSweep] == [StartSweep]
        && [StartSweep] + [ListDecisions([name])] == [StartSweep, ListDecisions([name])];
    assert Enumerates([name], Current(started.log).objs);
    assert ItemsOf([name], Current(started.log).objs) == [Item(name, o.incarnation, o.labels)];
  }

  /** Being the only deleter matters.  From an empty store, for every scheduled pod: its record is
      created and its window passes; the sweep lists it; something else deletes it; a reconcile
      records the pod anew; and the sweep's delete by name takes the record just made. */
  lemma {:induction false} SoleDeleterIsNeeded(cfg: Config, clock: Time, pod: Pod)
    requires ConfigOk(cfg) && SaysScheduled(pod)
    requires MIN_INT64 <= UnixSecond(clock + cfg.window) <= MAX_INT64
    ensures exists actions :: EndsInEarlyDeletion(Reached(cfg, clock, actions).log)
  {
    var name, s0 := DecisionName(pod.uid), Init(clock);
    var made := Run(cfg, s0, CreatingSteps(s0, 0, pod));
    CreatesRecord(cfg, s0, 0, pod);
    var o: Obj :| o.stamp == clock && StampedFor(o.labels, clock, cfg.window)
        && Current(made.log).objs == Current(s0.log).objs[name := o];
    var aged := Next(cfg, made, Tick(cfg.window));
    RunOneMore(cfg, s0, CreatingSteps(s0, 0, pod), Tick(cfg.window));
    var a1 := CreatingSteps(s0, 0, pod) + [Tick(cfg.window)];
    ListsRecord(cfg, aged, name, o);
    RunConcat(cfg, s0, a1, [StartSweep, ListDecisions([name])]);
    var listed := Run(cfg, aged, [StartSweep, ListDecisions([name])]);
    assert WorkerAt(listed, 1) == WorkerAt(made, 1) == WorkerAt(s0, 1);
    ExpiryBounds(o.labels, clock, cfg.window, aged.clock, aged.clock);
    EarlyDeletionFollows(cfg, listed, pod, o);
    var a2 := a1 + [StartSweep, ListDecisions([name])];
    RunConcat(cfg, s0, a2, DeletingSteps(listed, pod));
    assert EndsInEarlyDeletion(Reached(cfg, clock, a2 + DeletingSteps(listed, pod)).log);
  }

  function DeletingSteps(s: State, pod: Pod): seq<Action> {
    var name := DecisionName(pod.uid);
    [AdminDelete(name)] + CreatingSteps(ServerDelete(s, name, Removed(name)), 1, pod) + [SweepNext(false)]
  }

  lemma {:induction false} EarlyDeletionFollows(cfg: Config, s: State, pod: Pod, o: Obj)
    requires s.log != [] && WorkerAt(s, 1).Idle? && SaysScheduled(pod) && DecisionName(pod.uid) in Current(s.log).objs
    requires s.sweep.Sweeping? && s.sweep.items == [Item(DecisionName(pod.uid), o.incarnation, o.labels)]
    requires s.sweep.next == 0
    requires IsExpired(o.labels, s.sweep.now) == Some(true)
    ensures EndsInEarlyDeletion(Run(cfg, s, DeletingSteps(s, pod)).log)
  {
    var name := DecisionName(pod.uid);
    var gone := Next(cfg, s, AdminDelete(name));
    var steps := CreatingSteps(gone, 1, pod);
    RunCons(cfg, s, AdminDelete(name), steps);
    CreatesRecord(cfg, gone, 1, pod);
    RunOneMore(cfg, s, [AdminDelete(name)] + steps, SweepNext(false));
    SweepTakesIt(cfg, Run(cfg, gone, steps), name);
  }

  lemma SweepTakesIt(cfg: Config, s: State, name: string)
    requires s.sweep.Sweeping? && s.sweep.next < |s.sweep.items| && s.sweep.items[s.sweep.next].name == name
    requires IsExpired(s.sweep.items[s.sweep.next].labels, s.sweep.now) == Some(true)
    requires s.log != [] && name in Current(s.log).objs && Current(s.log).objs[name].stamp == s.clock
    ensures EndsInEarlyDeletion(Next(cfg, s, SweepNext(false)).log)
  {
  }
}
