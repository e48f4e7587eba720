/** One pass of the retention sweep, amid the workers and whoever else deletes. */
module SweepPass {
  import opened Clock
  import opened Model
  import opened Labels
  import opened Protocol
  import opened Invariants
  import opened Retention
  import opened Reconciler

  // ----- what a pass is meant to do with each listed record -----

  datatype Fate = Skipped | Unexpired | Undeleted | Deleted

  function FateOf(item: Item, now: Time, deleteFails: bool): Fate {
    var expired := IsExpired(item.labels, now);
    if expired.None? then Skipped
    else if !expired.value then Unexpired
    else if deleteFails then Undeleted
    else Deleted
  }

  /** The number of records with this fate. */
  function Tally(items: seq<Item>, now: Time, fails: seq<bool>, fate: Fate): nat
    requires |items| == |fails|
  {
    if items == [] then 0
    else
      var n := |items| - 1;
      Tally(items[..n], now, fails[..n], fate) + if FateOf(items[n], now, fails[n]) == fate then 1 else 0
  }

  lemma {:induction false} TalliesAddUp(items: seq<Item>, now: Time, fails: seq<bool>)
    requires |items| == |fails|
    ensures Tally(items, now, fails, Deleted) + Tally(items, now, fails, Skipped)
            + Tally(items, now, fails, Undeleted) + Tally(items, now, fails, Unexpired) == |items|
  {
    if items != [] {
      var n := |items| - 1;
      TalliesAddUp(items[..n], now, fails[..n]);
    }
  }

  /** A record is skipped exactly when its label is missing or is not a decimal number of 64 bits. */
  lemma {:induction false} SkippedIffUnreadable(item: Item, now: Time, deleteFails: bool)
    ensures FateOf(item, now, deleteFails) == Skipped <==> !exists at :: ExpiresAt(item.labels, at)
  {
    ExpiryOfAnyLabels(item.labels, now);
    if at :| ExpiresAt(item.labels, at) {
      assert now >= at * SECOND || now < at * SECOND;
    }
  }

  // ----- the listed records by what is true of them -----

  ghost function Unreadable(items: seq<Item>, now: Time): set<nat> {
    set j: nat | j < |items| && IsExpired(items[j].labels, now).None?
  }

  ghost function Unexpireds(items: seq<Item>, now: Time): set<nat> {
    set j: nat | j < |items| && IsExpired(items[j].labels, now) == Some(false)
  }

  /** The expired ones whose delete failed, or did not. */
  ghost function Expireds(items: seq<Item>, now: Time, fails: seq<bool>, failed: bool): set<nat>
    requires |items| == |fails|
  {
    set j: nat | j < |items| && IsExpired(items[j].labels, now) == Some(true) && fails[j] == failed
  }

  ghost function WithFate(items: seq<Item>, now: Time, fails: seq<bool>, fate: Fate): set<nat>
    requires |items| == |fails|
  {
    set j: nat | j < |items| && FateOf(items[j], now, fails[j]) == fate
  }

  lemma {:induction false} TallyIsSize(items: seq<Item>, now: Time, fails: seq<bool>, fate: Fate)
    requires |items| == |fails|
    ensures Tally(items, now, fails, fate) == |WithFate(items, now, fails, fate)|
  {
    if items != [] {
      var n := |items| - 1;
      TallyIsSize(items[..n], now, fails[..n], fate);
      FateOneMore(items, now, fails, fate);
    } else {
      assert WithFate(items, now, fails, fate) == {};
    }
  }

  lemma {:induction false} FateOneMore(items: seq<Item>, now: Time, fails: seq<bool>, fate: Fate)
    requires |items| == |fails| && items != []
    ensures var n := |items| - 1;
            var rest := WithFate(items[..n], now, fails[..n], fate);
            && n !in rest
            && WithFate(items, now, fails, fate) == if FateOf(items[n], now, fails[n]) == fate then rest + {n} else rest
  {
    var n := |items| - 1;
    var rest, all := WithFate(items[..n], now, fails[..n], fate), WithFate(items, now, fails, fate);
    assert forall j: nat :: j < n ==> (j in all <==> j in rest);
  }

  /** The fates, told by the label's expiry and the delete alone. */
  lemma FatesAre(items: seq<Item>, now: Time, fails: seq<bool>)
    requires |items| == |fails|
    ensures WithFate(items, now, fails, Skipped) == Unreadable(items, now)
    ensures WithFate(items, now, fails, Unexpired) == Unexpireds(items, now)
    ensures WithFate(items, now, fails, Undeleted) == Expireds(items, now, fails, true)
    ensures WithFate(items, now, fails, Deleted) == Expireds(items, now, fails, false)
  {
  }

  /** The listed incarnation is no longer there; the name may have been taken by a later one. */
  ghost predicate Gone(objs: Store, item: Item) {
    item.name in objs ==> objs[item.name].incarnation > item.incarnation
  }

  /** All that a pass needs of the store, whoever filled it: incarnations are numbered as they come. */
  ghost predicate Numbered(s: State) {
    && s.log != []
    && forall name :: name in Current(s.log).objs ==> Current(s.log).objs[name].incarnation < s.nextVersion
  }

  /** Every state of a run is. */
  lemma InvIsNumbered(cfg: Config, s: State)
    requires Inv(cfg, s)
    ensures Numbered(s)
  {
    assert StoreOk(cfg, Current(s.log).objs, s.nextVersion);
    forall name | name in Current(s.log).objs ensures Current(s.log).objs[name].incarnation < s.nextVersion {
      assert ObjOk(cfg, name, Current(s.log).objs[name], s.nextVersion);
    }
  }

  lemma NextKeepsNumbered(cfg: Config, s: State, a: Action)
    requires Numbered(s)
    ensures Numbered(Next(cfg, s, a)) && s.nextVersion <= Next(cfg, s, a).nextVersion
  {
  }

  lemma {:induction false} RunKeepsNumbered(cfg: Config, s: State, moves: seq<Action>)
    requires Numbered(s)
    ensures Numbered(Run(cfg, s, moves)) && s.nextVersion <= Run(cfg, s, moves).nextVersion
  {
    if moves != [] {
      RunKeepsNumbered(cfg, s, moves[..|moves| - 1]);
      NextKeepsNumbered(cfg, Run(cfg, s, moves[..|moves| - 1]), moves[|moves| - 1]);
    }
  }

  // ----- the others during a pass -----

  predicate IsSweepStep(a: Action) {
    a.StartSweep? || a.ListDecisions? || a.SweepNext? || a.StopSweep?
  }

  predicate NoSweepSteps(moves: seq<Action>) {
    forall i :: 0 <= i < |moves| ==> !IsSweepStep(moves[i])
  }

  lemma OtherIgnoresSweep(cfg: Config, s: State, a: Action, sweep: Sweep)
    requires !IsSweepStep(a)
    ensures Next(cfg, s.(sweep := sweep), a) == Next(cfg, s, a).(sweep := sweep)
    ensures Next(cfg, s, a).sweep == s.sweep
  {
    match a
    case Create(w) => CreateIgnoresSweep(cfg, s, w, sweep);
    case WriteStatus(w) => WriteIgnoresSweep(s, w, sweep);
    case _ =>
  }

  lemma CreateIgnoresSweep(cfg: Config, s: State, w: nat, sweep: Sweep)
    ensures DoCreate(s.(sweep := sweep), cfg, w) == DoCreate(s, cfg, w).(sweep := sweep)
            && DoCreate(s, cfg, w).sweep == s.sweep
  {
  }

  lemma WriteIgnoresSweep(s: State, w: nat, sweep: Sweep)
    ensures DoWriteStatus(s.(sweep := sweep), w) == DoWriteStatus(s, w).(sweep := sweep)
            && DoWriteStatus(s, w).sweep == s.sweep
  {
  }

  lemma {:induction false} OthersIgnoreSweep(cfg: Config, s: State, moves: seq<Action>, sweep: Sweep)
    requires NoSweepSteps(moves)
    ensures Run(cfg, s.(sweep := sweep), moves) == Run(cfg, s, moves).(sweep := sweep)
    ensures Run(cfg, s, moves).sweep == s.sweep
  {
    if moves != [] {
      var init := moves[..|moves| - 1];
      OthersIgnoreSweep(cfg, s, init, sweep);
      OtherIgnoresSweep(cfg, Run(cfg, s, init), moves[|moves| - 1], sweep);
    }
  }

  /** The moves of the others, then one of the sweep's. */
  lemma {:induction false} MovesThenSweep(
    cfg: Config, start: State, trace: seq<Action>, s: State, sweep: Sweep, moves: seq<Action>, step: Action)
    requires NoSweepSteps(moves) && Run(cfg, start, trace) == s.(sweep := sweep)
    ensures Run(cfg, start, trace + (moves + [step])) == Next(cfg, Run(cfg, s, moves).(sweep := sweep), step)
    ensures Run(cfg, s, moves).sweep == s.sweep
  {
    RunConcat(cfg, start, trace, moves + [step]);
    RunOneMore(cfg, s.(sweep := sweep), moves, step);
    OthersIgnoreSweep(cfg, s, moves, sweep);
  }

  lemma {:induction false} OthersKeepItem(cfg: Config, s: State, moves: seq<Action>, item: Item)
    requires Numbered(s) && NoSweepSteps(moves) && SweepIsSoleDeleter(moves)
    requires StillThere(Current(s.log).objs, item)
    ensures StillThere(Current(Run(cfg, s, moves).log).objs, item)
  {
    if moves != [] {
      var init := moves[..|moves| - 1];
      OthersKeepItem(cfg, s, init, item);
      RunKeepsNumbered(cfg, s, init);
      RecorderLeavesItem(cfg, Run(cfg, s, init), moves[|moves| - 1], item);
    }
  }

  lemma GoneStaysGone(cfg: Config, s: State, a: Action, item: Item)
    requires s.log != [] && item.incarnation < s.nextVersion && Gone(Current(s.log).objs, item)
    ensures Gone(Current(Next(cfg, s, a).log).objs, item)
  {
  }

  lemma {:induction false} GoneStaysGoneInRun(cfg: Config, s: State, moves: seq<Action>, item: Item)
    requires Numbered(s) && item.incarnation < s.nextVersion && Gone(Current(s.log).objs, item)
    ensures Gone(Current(Run(cfg, s, moves).log).objs, item)
  {
    if moves != [] {
      var init := moves[..|moves| - 1];
      GoneStaysGoneInRun(cfg, s, init, item);
      RunKeepsNumbered(cfg, s, init);
      GoneStaysGone(cfg, Run(cfg, s, init), moves[|moves| - 1], item);
    }
  }

  // ----- the state of a pass -----

  /** What the store shows of one record: deleted ones are gone, and with no other deleter the
      others are there. */
  ghost predicate FateMet(s: State, item: Item, deleted: bool, sole: bool) {
    && item.incarnation < s.nextVersion
    && (deleted ==> Gone(Current(s.log).objs, item))
    && (sole && !deleted ==> StillThere(Current(s.log).objs, item))
  }

  /** The first `done` records have met their fate. */
  ghost predicate FatesMet(s: State, items: seq<Item>, now: Time, fails: seq<bool>, done: nat, sole: bool)
    requires |items| == |fails|
  {
    forall j :: 0 <= j < |items| ==> FateMet(s, items[j], j < done && FateOf(items[j], now, fails[j]) == Deleted, sole)
  }

  lemma {:induction false} OthersKeepFate(
    cfg: Config, s: State, moves: seq<Action>, item: Item, deleted: bool, sole: bool)
    requires Numbered(s) && NoSweepSteps(moves) && (sole ==> SweepIsSoleDeleter(moves))
    requires FateMet(s, item, deleted, sole)
    ensures FateMet(Run(cfg, s, moves), item, deleted, sole)
  {
    RunKeepsNumbered(cfg, s, moves);
    if deleted {
      GoneStaysGoneInRun(cfg, s, moves, item);
    } else if sole {
      OthersKeepItem(cfg, s, moves, item);
    }
  }

  lemma {:induction false} OthersKeepFates(
    cfg: Config, s: State, moves: seq<Action>, items: seq<Item>, now: Time, fails: seq<bool>, done: nat, sole: bool)
    requires |items| == |fails| && Numbered(s) && NoSweepSteps(moves) && (sole ==> SweepIsSoleDeleter(moves))
    requires FatesMet(s, items, now, fails, done, sole)
    ensures FatesMet(Run(cfg, s, moves), items, now, fails, done, sole)
  {
    forall j | 0 <= j < |items|
      ensures FateMet(Run(cfg, s, moves), items[j], j < done && FateOf(items[j], now, fails[j]) == Deleted, sole)
    {
      OthersKeepFate(cfg, s, moves, items[j], j < done && FateOf(items[j], now, fails[j]) == Deleted, sole);
    }
  }

  function AfterItem(s: State, item: Item, now: Time, fails: bool, listed: nat): State {
    if FateOf(item, now, fails) == Deleted then ServerDelete(s, item.name, Swept(item.name, listed)) else s
  }

  predicate DistinctNames(items: seq<Item>) {
    forall i, j :: 0 <= i < j < |items| ==> items[i].name != items[j].name
  }

  /** The next record meets its fate and no other record is touched. */
  lemma ItemMeetsFate(s: State, items: seq<Item>, now: Time, fails: seq<bool>, next: nat, listed: nat, sole: bool)
    requires |items| == |fails| && next < |items| && DistinctNames(items)
    requires FatesMet(s, items, now, fails, next, sole)
    ensures FatesMet(AfterItem(s, items[next], now, fails[next], listed), items, now, fails, next + 1, sole)
  {
    var s' := AfterItem(s, items[next], now, fails[next], listed);
    forall j | 0 <= j < |items|
      ensures FateMet(s', items[j], j < next + 1 && FateOf(items[j], now, fails[j]) == Deleted, sole)
    {
      assert FateMet(s, items[j], j < next && FateOf(items[j], now, fails[j]) == Deleted, sole);
    }
  }

  lemma ListedAreThere(s: State, order: seq<string>, now: Time, fails: seq<bool>, sole: bool)
    requires Numbered(s) && Enumerates(order, Current(s.log).objs) && |fails| == |order|
    ensures var items := ItemsOf(order, Current(s.log).objs);
            FatesMet(s, items, now, fails, 0, sole) && DistinctNames(items)
  {
  }

  lemma AllAreListed(s: State, order: seq<string>)
    requires Enumerates(order, Current(s.log).objs)
    ensures var objs := Current(s.log).objs;
            forall name :: name in objs <==> exists j :: 0 <= j < |order| && ItemsOf(order, objs)[j].name == name
  {
    var objs := Current(s.log).objs;
    var items := ItemsOf(order, objs);
    forall name ensures name in objs <==> exists j :: 0 <= j < |order| && items[j].name == name {
      if name in objs {
        var j :| 0 <= j < |order| && order[j] == name;
        assert items[j].name == name;
      }
      if j :| 0 <= j < |order| && items[j].name == name {
        assert order[j] in objs;
      }
    }
  }

  /** The loop body as a step of the protocol. */
  lemma ItemStep(cfg: Config, s: State, now: Time, items: seq<Item>, next: nat, listed: nat, fails: bool)
    requires next < |items|
    ensures Next(cfg, s.(sweep := Sweeping(now, items, next, listed)), SweepNext(fails))
            == AfterItem(s, items[next], now, fails, listed).(sweep := Sweeping(now, items, next + 1, listed))
  {
  }

  /** Everything the loop keeps. */
  ghost predicate PassInv(
    cfg: Config, start: State, trace: seq<Action>, s: State, now: Time, items: seq<Item>, fails: seq<bool>, done: nat,
    listed: nat, sole: bool)
    requires |items| == |fails|
  {
    && Numbered(s) && s.sweep.NoSweep?
    && Run(cfg, start, trace) == s.(sweep := Sweeping(now, items, done, listed))
    && FatesMet(s, items, now, fails, done, sole)
  }

  /** The reading of the clock, the moves of the others, and the list. */
  lemma {:induction false} PassBegins(
    cfg: Config, start: State, early: seq<Action>, order: seq<string>, fails: seq<bool>, sole: bool)
    requires Numbered(start) && start.sweep.NoSweep? && NoSweepSteps(early)
    requires Enumerates(order, Current(Run(cfg, start, early).log).objs) && |fails| == |order|
    ensures var s := Run(cfg, start, early);
            var items := ItemsOf(order, Current(s.log).objs);
            && DistinctNames(items)
            && s.log != []
            && PassInv(cfg, start, [StartSweep] + (early + [ListDecisions(order)]), s, start.clock, items, fails, 0,
                       |s.log| - 1, sole)
  {
    RunOneMore(cfg, start, [], StartSweep);
    assert [] + [StartSweep] == [StartSweep];
    MovesThenSweep(cfg, start, [StartSweep], start, SweepStarted(start.clock), early, ListDecisions(order));
    RunKeepsNumbered(cfg, start, early);
    ListedAreThere(Run(cfg, start, early), order, start.clock, fails, sole);
    ListStep(cfg, Run(cfg, start, early), start.clock, order);
  }

  lemma ListStep(cfg: Config, s: State, now: Time, order: seq<string>)
    requires s.log != [] && Enumerates(order, Current(s.log).objs)
    ensures Next(cfg, s.(sweep := SweepStarted(now)), ListDecisions(order))
            == s.(sweep := Sweeping(now, ItemsOf(order, Current(s.log).objs), 0, |s.log| - 1))
  {
  }

  lemma {:induction false} PassStep(
    cfg: Config, start: State, trace: seq<Action>, s: State, now: Time, items: seq<Item>, fails: seq<bool>, next: nat,
    listed: nat, sole: bool, moves: seq<Action>)
    requires |items| == |fails| && next < |items| && NoSweepSteps(moves) && DistinctNames(items)
    requires PassInv(cfg, start, trace, s, now, items, fails, next, listed, sole)
             && (sole ==> SweepIsSoleDeleter(moves))
    ensures PassInv(cfg, start, trace + (moves + [SweepNext(fails[next])]),
                    AfterItem(Run(cfg, s, moves), items[next], now, fails[next], listed), now, items, fails,
                    next + 1, listed, sole)
  {
    var s' := Run(cfg, s, moves);
    MovesThenSweep(cfg, start, trace, s, Sweeping(now, items, next, listed), moves, SweepNext(fails[next]));
    ItemStep(cfg, s', now, items, next, listed, fails[next]);
    RunKeepsNumbered(cfg, s, moves);
    OthersKeepFates(cfg, s, moves, items, now, fails, next, sole);
    ItemMeetsFate(s', items, now, fails, next, listed, sole);
  }

  /** The end of the loop is the end of the sweep. */
  lemma {:induction false} PassEnds(
    cfg: Config, start: State, trace: seq<Action>, s: State, now: Time, items: seq<Item>, fails: seq<bool>,
    listed: nat, sole: bool)
    requires |items| == |fails| && PassInv(cfg, start, trace, s, now, items, fails, |items|, listed, sole)
    ensures Run(cfg, start, trace + [SweepNext(false)]) == s
    ensures forall j :: 0 <= j < |items| && IsExpired(items[j].labels, now) == Some(true) && !fails[j] ==>
              Gone(Current(s.log).objs, items[j])
    ensures sole ==>
              forall j :: 0 <= j < |items| ==>
                (StillThere(Current(s.log).objs, items[j])
                 <==> IsExpired(items[j].labels, now) != Some(true) || fails[j])
  {
    RunOneMore(cfg, start, trace, SweepNext(false));
    forall j | 0 <= j < |items| ensures FateMet(s, items[j], FateOf(items[j], now, fails[j]) == Deleted, sole) {
      assert FateMet(s, items[j], j < |items| && FateOf(items[j], now, fails[j]) == Deleted, sole);
    }
  }

  /** Retention is safe in a pass because the pass is a run of the protocol. */
  lemma {:induction false} PassKeepsInvariants(cfg: Config, start: State, trace: seq<Action>, s: State)
    requires Run(cfg, start, trace) == s
    ensures Inv(cfg, start) ==> Inv(cfg, s)
    ensures Inv(cfg, start) && RetentionInv(cfg, start) ==> RetentionInv(cfg, s)
  {
    if Inv(cfg, start) {
      RunKeepsInv(cfg, start, trace);
      if RetentionInv(cfg, start) {
        RunKeepsRetention(cfg, start, trace);
      }
    }
  }

  // ----- the counters -----

  /** The loop variables after the first `done` records. */
  ghost predicate Counted(
    items: seq<Item>, now: Time, fails: seq<bool>, done: nat, deleted: nat, skipped: nat, failed: nat)
    requires done <= |items| == |fails|
  {
    && deleted == Tally(items[..done], now, fails[..done], Deleted)
    && skipped == Tally(items[..done], now, fails[..done], Skipped)
    && failed == Tally(items[..done], now, fails[..done], Undeleted)
  }

  lemma CountOne(items: seq<Item>, now: Time, fails: seq<bool>, done: nat, deleted: nat, skipped: nat, failed: nat)
    requires done < |items| == |fails|
    requires Counted(items, now, fails, done, deleted, skipped, failed)
    ensures var fate := FateOf(items[done], now, fails[done]);
            Counted(items, now, fails, done + 1,
                    if fate == Deleted then deleted + 1 else deleted,
                    if fate == Skipped then skipped + 1 else skipped,
                    if fate == Undeleted then failed + 1 else failed)
  {
    assert items[..done + 1][..done] == items[..done] && fails[..done + 1][..done] == fails[..done];
  }

  lemma {:induction false} CountAll(
    items: seq<Item>, now: Time, fails: seq<bool>, deleted: nat, skipped: nat, failed: nat)
    requires |items| == |fails| && Counted(items, now, fails, |items|, deleted, skipped, failed)
    ensures deleted == |Expireds(items, now, fails, false)|
    ensures skipped == |Unreadable(items, now)|
    ensures failed == |Expireds(items, now, fails, true)|
    ensures deleted + skipped + failed + |Unexpireds(items, now)| == |items|
    ensures failed > 0 <==> exists j :: 0 <= j < |items| && IsExpired(items[j].labels, now) == Some(true) && fails[j]
  {
    assert items[..|items|] == items && fails[..|items|] == fails;
    TalliesAddUp(items, now, fails);
    FatesAre(items, now, fails);
    TallyIsSize(items, now, fails, Deleted);
    TallyIsSize(items, now, fails, Skipped);
    TallyIsSize(items, now, fails, Undeleted);
    TallyIsSize(items, now, fails, Unexpired);
    var failures := Expireds(items, now, fails, true);
    if failed > 0 {
      var j :| j in failures;
    }
    if j :| 0 <= j < |items| && IsExpired(items[j].labels, now) == Some(true) && fails[j] {
      assert j in failures;
    }
  }

  // ----- the code -----

  /** The call; `listed` only marks the version it makes. */
  method Delete(c: Cluster, name: string, fails: bool, listed: nat) returns (ok: bool)
    modifies c
    ensures ok == !fails
    ensures c.s == if fails then old(c.s) else ServerDelete(old(c.s), name, Swept(name, listed))
  {
    if fails {
      return false;
    }
    c.s := ServerDelete(c.s, name, Swept(name, listed));
    return true;
  }

  /** The body of the loop: the counters as they were, and as they are after it. */
  method SweepOne(c: Cluster, item: Item, now: Time, fails: bool, listed: nat, deleted: nat, skipped: nat, failed: nat)
    returns (deleted': nat, skipped': nat, failed': nat)
    modifies c
    ensures c.s == AfterItem(old(c.s), item, now, fails, listed)
    ensures var expired := IsExpired(item.labels, now);
            && skipped' == (if expired.None? then skipped + 1 else skipped)
            && failed' == (if expired == Some(true) && fails then failed + 1 else failed)
            && deleted' == (if expired == Some(true) && !fails then deleted + 1 else deleted)
            && (if expired == Some(true) && !fails then item.name !in Current(c.s.log).objs else c.s == old(c.s))
  {
    deleted', skipped', failed' := deleted, skipped, failed;
    var expired := IsExpired(item.labels, now);
    if expired.None? {
      skipped' := skipped' + 1;
      return;
    }
    if !expired.value {
      return;
    }
    var ok := Delete(c, item.name, fails, listed);
    if !ok {
      failed' := failed' + 1;
      return;
    }
    deleted' := deleted' + 1;
  }

  /** The loop. */
  method SweepItems(
    c: Cluster, cfg: Config, list: seq<Item>, now: Time, listed: nat, fails: seq<bool>, moves: seq<seq<Action>>,
    ghost start: State, ghost before: seq<Action>, ghost sole: bool)
    returns (deleted: nat, skipped: nat, failed: nat, ghost trace: seq<Action>)
    requires |fails| == |moves| == |list| && DistinctNames(list)
    requires forall i :: 0 <= i < |moves| ==> NoSweepSteps(moves[i]) && (sole ==> SweepIsSoleDeleter(moves[i]))
    requires PassInv(cfg, start, before, c.s, now, list, fails, 0, listed, sole)
    modifies c
    ensures PassInv(cfg, start, trace, c.s, now, list, fails, |list|, listed, sole)
    ensures Counted(list, now, fails, |list|, deleted, skipped, failed)
  {
    deleted, skipped, failed, trace := 0, 0, 0, before;
    for i := 0 to |list|
      invariant PassInv(cfg, start, trace, c.s, now, list, fails, i, listed, sole)
      invariant Counted(list, now, fails, i, deleted, skipped, failed)
    {
      PassStep(cfg, start, trace, c.s, now, list, fails, i, listed, sole, moves[i]);
      CountOne(list, now, fails, i, deleted, skipped, failed);
      trace := trace + (moves[i] + [SweepNext(fails[i])]);
      c.Interfere(cfg, moves[i]);
      deleted, skipped, failed := SweepOne(c, list[i], now, fails[i], listed, deleted, skipped, failed);
    }
  }

  predicate NoOtherDeleter(moves: seq<seq<Action>>) {
    forall i :: 0 <= i < |moves| ==> SweepIsSoleDeleter(moves[i])
  }

  /** A complete pass over any store: the clock is read, the others move (`early`), the records are
      listed, and the others move before each record; `exitCode` is that of the process.  The
      counters say what became of the records.  A record counted as deleted is gone, whoever else
      deletes; when nothing else does, a record is gone exactly when it was counted so.  The pass
      is a run of the protocol, and so keeps what every run keeps. */
  method Sweep(
    c: Cluster, cfg: Config, early: seq<Action>, order: seq<string>, fails: seq<bool>, moves: seq<seq<Action>>)
    returns (deleted: nat, skipped: nat, failed: nat, exitCode: nat, ghost items: seq<Item>, ghost trace: seq<Action>)
    requires Numbered(c.s) && c.s.sweep.NoSweep? && NoSweepSteps(early)
    requires Enumerates(order, Current(Run(cfg, c.s, early).log).objs)
    requires |fails| == |moves| == |order| && forall i :: 0 <= i < |moves| ==> NoSweepSteps(moves[i])
    modifies c
    ensures items == ItemsOf(order, Current(Run(cfg, old(c.s), early).log).objs)
    ensures forall name :: name in Current(Run(cfg, old(c.s), early).log).objs <==>
                           exists j :: 0 <= j < |items| && items[j].name == name
    ensures deleted == |Expireds(items, old(c.s.clock), fails, false)|
    ensures skipped == |Unreadable(items, old(c.s.clock))|
    ensures failed == |Expireds(items, old(c.s.clock), fails, true)|
    ensures deleted + skipped + failed + |Unexpireds(items, old(c.s.clock))| == |items|
    ensures exitCode != 0 <==>
            exists j :: 0 <= j < |items| && IsExpired(items[j].labels, old(c.s.clock)) == Some(true) && fails[j]
    ensures forall j :: 0 <= j < |items| && IsExpired(items[j].labels, old(c.s.clock)) == Some(true) && !fails[j] ==>
              Gone(Current(c.s.log).objs, items[j])
    ensures NoOtherDeleter(moves) ==>
              forall j :: 0 <= j < |items| ==>
                (StillThere(Current(c.s.log).objs, items[j]) <==>
                   IsExpired(items[j].labels, old(c.s.clock)) != Some(true) || fails[j])
    ensures Run(cfg, old(c.s), trace) == c.s
    ensures Inv(cfg, old(c.s)) ==> Inv(cfg, c.s)
    ensures Inv(cfg, old(c.s)) && RetentionInv(cfg, old(c.s)) ==> RetentionInv(cfg, c.s)
  {
    ghost var start, sole := c.s, NoOtherDeleter(moves);
    var now := c.s.clock;
    PassBegins(cfg, c.s, early, order, fails, sole);
    ghost var begin := [StartSweep] + (early + [ListDecisions(order)]);
    c.Interfere(cfg, early);
    var list := ItemsOf(order, Current(c.s.log).objs);
    var listed: nat := |c.s.log| - 1;
    items := list;
    deleted, skipped, failed, trace := SweepItems(c, cfg, list, now, listed, fails, moves, start, begin, sole);
    CountAll(list, now, fails, deleted, skipped, failed);
    PassEnds(cfg, start, trace, c.s, now, list, fails, listed, sole);
    trace := trace + [SweepNext(false)];
    PassKeepsInvariants(cfg, start, trace, c.s);
    AllAreListed(Run(cfg, start, early), order);
    exitCode := if failed > 0 then 1 else 0;
  }
}
