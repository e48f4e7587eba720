/** The retry budget: what a failed call proves about the other processes. */
module Budget {
  import opened Clock
  import opened Model
  import opened Protocol
  import opened Invariants
  import opened Recording
  import opened Derivation
  import opened Sequential

  /** The number of versions after a, up to b, that another process wrote to the name. */
  function RivalEdits(log: seq<Snapshot>, name: string, w: nat, a: nat, b: nat): nat
    requires b < |log|
  {
    if b <= a then 0
    else
      RivalEdits(log, name, w, a, b - 1)
      + if Concerns(log[b].edit, name) && !WrittenBy(log[b].edit, w) then 1 else 0
  }

  /** They are counted one by one. */
  lemma {:induction false} RivalEditsAreCounted(log: seq<Snapshot>, name: string, w: nat, a: nat, b: nat)
    requires b < |log|
    ensures RivalEdits(log, name, w, a, b) == |Rivals(log, name, w, a, b)|
  {
    var rivals := Rivals(log, name, w, a, b);
    if b <= a {
      assert rivals == {};
    } else {
      RivalEditsAreCounted(log, name, w, a, b - 1);
      var fewer := Rivals(log, name, w, a, b - 1);
      assert rivals == if b in rivals then fewer + {b} else fewer;
    }
  }

  ghost function Rivals(log: seq<Snapshot>, name: string, w: nat, a: nat, b: nat): set<nat>
    requires b < |log|
  {
    set k: nat | a < k <= b && !log[k].edit.Genesis? && log[k].edit.name == name
                 && !((log[k].edit.Created? || log[k].edit.Appended?) && log[k].edit.worker == w)
  }

  /** A read that does not return the object as it is now. */
  predicate StaleRead(s: State, w: nat, k: nat) {
    && WorkerAt(s, w).Appending?
    && CachedLookup(s.log, k, NameOf(WorkerAt(s, w).call)) != Lookup(Current(s.log).objs, NameOf(WorkerAt(s, w).call))
  }

  /** How many reads of w's present retry loop, or of its last one, were stale. */
  function StaleReads(cfg: Config, s: State, actions: seq<Action>, w: nat): nat {
    if actions == [] then 0
    else
      var init, last := actions[..|actions| - 1], actions[|actions| - 1];
      var before := Run(cfg, s, init);
      if last.Observe? && last.w == w && !(WorkerAt(before, w).Appending? || WorkerAt(before, w).Updating?) then 0
      else StaleReads(cfg, s, init, w) + if last.ReadBack? && last.w == w && StaleRead(before, w, last.k) then 1 else 0
  }

  /** Every read of w's retry loops returns the newest version. */
  predicate FreshReads(cfg: Config, s: State, actions: seq<Action>, w: nat) {
    actions == [] ||
    var init, last := actions[..|actions| - 1], actions[|actions| - 1];
    && FreshReads(cfg, s, init, w)
    && (last.ReadBack? && last.w == w ==> last.k >= |Run(cfg, s, init).log| - 1)
  }

  lemma {:induction false} FreshMeansNotStale(cfg: Config, s: State, actions: seq<Action>, w: nat)
    requires FreshReads(cfg, s, actions, w)
    ensures StaleReads(cfg, s, actions, w) == 0
  {
    if actions != [] {
      FreshMeansNotStale(cfg, s, actions[..|actions| - 1], w);
    }
  }

  /** The name has been present since the retry loop began. */
  ghost predicate PresentSince(log: seq<Snapshot>, name: string, since: nat) {
    forall k :: since <= k < |log| ==> name in log[k].objs
  }

  lemma {:induction false} RivalEditsAdd(log: seq<Snapshot>, name: string, w: nat, a: nat, b: nat, c: nat)
    requires a <= b <= c < |log|
    ensures RivalEdits(log, name, w, a, c) == RivalEdits(log, name, w, a, b) + RivalEdits(log, name, w, b, c)
  {
    if b < c {
      RivalEditsAdd(log, name, w, a, b, c - 1);
    }
  }

  lemma {:induction false} RivalEditsOfPrefix(
    log: seq<Snapshot>, more: seq<Snapshot>, name: string, w: nat, a: nat, b: nat)
    requires b < |log| && log <= more
    ensures RivalEdits(more, name, w, a, b) == RivalEdits(log, name, w, a, b)
  {
    if a < b {
      RivalEditsOfPrefix(log, more, name, w, a, b - 1);
    }
  }

  lemma ChangedByItsEdit(before: Store, snap: Snapshot, name: string)
    requires Explained(before, snap) && Lookup(before, name) != Lookup(snap.objs, name)
    ensures Concerns(snap.edit, name)
  {
  }

  /** An object that is no longer what it was has been edited. */
  lemma {:induction false} ChangeMeansEdit(log: seq<Snapshot>, name: string, w: nat, a: nat, b: nat)
    requires forall k :: 0 < k < |log| ==> Explained(log[k - 1].objs, log[k])
    requires a <= b < |log| && NoWriteBy(log, w, a, -1)
    requires Lookup(log[a].objs, name) != Lookup(log[b].objs, name)
    ensures RivalEdits(log, name, w, a, b) >= 1
  {
    if Lookup(log[b - 1].objs, name) != Lookup(log[a].objs, name) {
      ChangeMeansEdit(log, name, w, a, b - 1);
    } else {
      ChangedByItsEdit(log[b - 1].objs, log[b], name);
    }
  }

  /** Up to version `now`, the `lost` attempts are paid for by rival edits and stale reads, and with
      the name present throughout so are all the `spent` ones. */
  ghost predicate Paid(
    log: seq<Snapshot>, name: string, w: nat, since: nat, now: nat, spent: int, lost: int, stale: nat)
    requires now < |log|
  {
    && lost <= RivalEdits(log, name, w, since, now) + stale
    && (PresentSince(log, name, since) ==> spent <= RivalEdits(log, name, w, since, now) + stale)
  }

  /** What was read was current in some version, up to which the attempts before are paid for. */
  ghost predicate PaidWhenRead(cfg: Config, log: seq<Snapshot>, w: nat, p: Worker, v: nat, stale: nat)
    requires p.Updating?
  {
    && p.since <= v < |log| && Lookup(log[v].objs, NameOf(p.call)) == Some(p.read)
    && Paid(log, NameOf(p.call), w, p.since, v, cfg.attempts - p.left, p.lost, stale)
  }

  /** The accounts of w's retry loop, of whose reads `stale` were stale. */
  ghost predicate BudgetOk(cfg: Config, log: seq<Snapshot>, w: nat, worker: Worker, stale: nat) {
    match worker
    case Appending(call, left, since, lost) =>
      since < |log| && Paid(log, NameOf(call), w, since, |log| - 1, cfg.attempts - left, lost, stale)
    case Updating(call, left, since, lost, read, at) =>
      && since < |log|
      && (|| Paid(log, NameOf(call), w, since, |log| - 1, cfg.attempts - left + 1, lost + 1, stale)
          || (exists v: nat :: PaidWhenRead(cfg, log, w, worker, v, stale)))
    case Done(call, verdict, since, lost) =>
      if since < |log| then
        && Paid(log, NameOf(call), w, since, |log| - 1, 0, lost, stale)
        && (PresentSince(log, NameOf(call), since) && verdict.Failed? && verdict.error != Other ==>
              && cfg.attempts <= RivalEdits(log, NameOf(call), w, since, |log| - 1) + stale
              && (verdict.error == NotFound ==> stale >= 1))
      else lost == 0 && verdict == Failed(Other)
    case _ => true
  }

  lemma PresentInPrefix(log: seq<Snapshot>, more: seq<Snapshot>, name: string, since: nat)
    requires log <= more && PresentSince(more, name, since)
    ensures PresentSince(log, name, since)
  {
    forall k | since <= k < |log| ensures name in log[k].objs {
      assert more[k] == log[k];
    }
  }

  /** Later versions and further stale reads only add to what pays. */
  lemma StaysPaid(
    log: seq<Snapshot>, more: seq<Snapshot>, name: string, w: nat, since: nat, now: nat, later: nat, spent: int,
    lost: int, stale: nat, staler: nat)
    requires log <= more && since <= now < |log| && now <= later < |more| && stale <= staler
    requires Paid(log, name, w, since, now, spent, lost, stale)
    ensures Paid(more, name, w, since, later, spent, lost, staler)
  {
    RivalEditsOfPrefix(log, more, name, w, since, now);
    RivalEditsAdd(more, name, w, since, now, later);
    if PresentSince(more, name, since) {
      PresentInPrefix(log, more, name, since);
    }
  }

  lemma LongerLogKeepsUpdating(cfg: Config, log: seq<Snapshot>, more: seq<Snapshot>, w: nat, p: Worker, stale: nat)
    requires log <= more && p.Updating? && BudgetOk(cfg, log, w, p, stale)
    ensures BudgetOk(cfg, more, w, p, stale)
  {
    var name, now := NameOf(p.call), |log| - 1;
    if Paid(log, name, w, p.since, now, cfg.attempts - p.left + 1, p.lost + 1, stale) {
      StaysPaid(log, more, name, w, p.since, now, |more| - 1, cfg.attempts - p.left + 1, p.lost + 1, stale, stale);
    } else {
      var v: nat :| PaidWhenRead(cfg, log, w, p, v, stale);
      StaysPaid(log, more, name, w, p.since, v, v, cfg.attempts - p.left, p.lost, stale, stale);
      assert PaidWhenRead(cfg, more, w, p, v, stale);
    }
  }

  lemma LongerLogKeepsBudget(cfg: Config, log: seq<Snapshot>, more: seq<Snapshot>, w: nat, worker: Worker, stale: nat)
    requires log <= more && BudgetOk(cfg, log, w, worker, stale)
    ensures BudgetOk(cfg, more, w, worker, stale)
  {
    match worker
    case Appending(call, left, since, lost) =>
      StaysPaid(log, more, NameOf(call), w, since, |log| - 1, |more| - 1, cfg.attempts - left, lost, stale, stale);
    case Updating(_, _, _, _, _, _) => LongerLogKeepsUpdating(cfg, log, more, w, worker, stale);
    case Done(call, _, since, lost) =>
      if since < |log| {
        StaysPaid(log, more, NameOf(call), w, since, |log| - 1, |more| - 1, 0, lost, stale, stale);
        RivalEditsOfPrefix(log, more, NameOf(call), w, since, |log| - 1);
        RivalEditsAdd(more, NameOf(call), w, since, |log| - 1, |more| - 1);
        if PresentSince(more, NameOf(call), since) {
          PresentInPrefix(log, more, NameOf(call), since);
        }
      }
    case _ =>
  }

  /** By the end of an update the attempts before it are paid for in any case. */
  lemma UpdatingIsPaid(cfg: Config, log: seq<Snapshot>, w: nat, p: Worker, stale: nat)
    requires p.Updating? && BudgetOk(cfg, log, w, p, stale)
    ensures Paid(log, NameOf(p.call), w, p.since, |log| - 1, cfg.attempts - p.left, p.lost, stale)
  {
    if !Paid(log, NameOf(p.call), w, p.since, |log| - 1, cfg.attempts - p.left + 1, p.lost + 1, stale) {
      var v: nat :| PaidWhenRead(cfg, log, w, p, v, stale);
      StaysPaid(log, log, NameOf(p.call), w, p.since, v, |log| - 1, cfg.attempts - p.left, p.lost, stale, stale);
    }
  }

  /** A failed update means that the read was stale or the object has changed since. */
  lemma LostUpdateIsPaid(cfg: Config, s: State, w: nat, stale: nat)
    requires Inv(cfg, s) && WorkerAt(s, w).Updating? && BudgetOk(cfg, s.log, w, WorkerAt(s, w), stale)
    requires UpdateError(s, NameOf(WorkerAt(s, w).call), WorkerAt(s, w).read.resourceVersion).Some?
    ensures var p := WorkerAt(s, w);
            Paid(s.log, NameOf(p.call), w, p.since, |s.log| - 1, cfg.attempts - p.left + 1, p.lost + 1, stale)
  {
    var p, now := WorkerAt(s, w), |s.log| - 1;
    var name := NameOf(p.call);
    if !Paid(s.log, name, w, p.since, now, cfg.attempts - p.left + 1, p.lost + 1, stale) {
      var v: nat :| PaidWhenRead(cfg, s.log, w, p, v, stale);
      assert WorkerOk(cfg, s.log, w, p);
      ChangeMeansEdit(s.log, name, w, v, now);
      RivalEditsAdd(s.log, name, w, p.since, v, now);
    }
  }

  /** After a retriable failure that is paid for. */
  lemma PaidFailureIsOk(
    cfg: Config, log: seq<Snapshot>, w: nat, call: Call, left: nat, since: nat, lost: nat, error: Error, stale: nat)
    requires left >= 1 && since < |log| && error != Other
    requires Paid(log, NameOf(call), w, since, |log| - 1, cfg.attempts - left + 1, lost, stale)
    requires error == NotFound ==> stale >= 1 || NameOf(call) !in log[|log| - 1].objs
    ensures BudgetOk(cfg, log, w, AfterFailure(call, left, since, lost, error), stale)
  {
  }

  lemma LoopIsOk(cfg: Config, s: State, w: nat)
    requires Inv(cfg, s) && (WorkerAt(s, w).Appending? || WorkerAt(s, w).Updating?)
    ensures s.log != [] && WorkerAt(s, w).left >= 1 && WorkerAt(s, w).since < |s.log|
  {
    assert WorkerOk(cfg, s.log, w, WorkerAt(s, w));
  }

  /** What an update does to the worker and the log. */
  lemma WriteOutcome(s: State, w: nat)
    requires s.log != [] && WorkerAt(s, w).Updating?
    ensures var p, s' := WorkerAt(s, w), DoWriteStatus(s, w);
            var error := UpdateError(s, NameOf(p.call), p.read.resourceVersion);
            && s.log <= s'.log
            && (error.Some? ==>
                  && s'.log == s.log
                  && WorkerAt(s', w) == AfterFailure(p.call, p.left, p.since, p.lost + 1, error.value)
                  && (|| error.value == Conflict
                      || (error.value == NotFound && NameOf(p.call) !in s.log[|s.log| - 1].objs)))
            && (error.None? ==>
                  WorkerAt(s', w) == Done(p.call, Acked(p.read.incarnation, |s'.log| - 1), p.since, p.lost))
  {
  }

  lemma WriteKeepsBudget(cfg: Config, s: State, w: nat, stale: nat)
    requires s.log != [] && WorkerAt(s, w).Updating? && WorkerAt(s, w).left >= 1 && WorkerAt(s, w).since < |s.log|
    requires BudgetOk(cfg, s.log, w, WorkerAt(s, w), stale)
    requires var p := WorkerAt(s, w);
             UpdateError(s, NameOf(p.call), p.read.resourceVersion).Some? ==>
               Paid(s.log, NameOf(p.call), w, p.since, |s.log| - 1, cfg.attempts - p.left + 1, p.lost + 1, stale)
    ensures var s' := DoWriteStatus(s, w); BudgetOk(cfg, s'.log, w, WorkerAt(s', w), stale)
  {
    var p, s' := WorkerAt(s, w), DoWriteStatus(s, w);
    var error := UpdateError(s, NameOf(p.call), p.read.resourceVersion);
    WriteOutcome(s, w);
    if error.Some? {
      PaidFailureIsOk(cfg, s.log, w, p.call, p.left, p.since, p.lost + 1, error.value, stale);
    } else {
      UpdatingIsPaid(cfg, s.log, w, p, stale);
      StaysPaid(s.log, s'.log, NameOf(p.call), w, p.since, |s.log| - 1, |s'.log| - 1, cfg.attempts - p.left, p.lost,
                stale, stale);
    }
  }

  lemma FaultKeepsBudget(cfg: Config, s: State, w: nat, stale: nat)
    requires s.log != [] && BudgetOk(cfg, s.log, w, WorkerAt(s, w), stale)
    ensures var s' := DoFault(s, w); BudgetOk(cfg, s'.log, w, WorkerAt(s', w), stale)
  {
    if WorkerAt(s, w).Updating? {
      UpdatingIsPaid(cfg, s.log, w, WorkerAt(s, w), stale);
    }
  }

  /** The worker after a read that was stale, and is counted, or was not, and is current. */
  lemma ReadIsPaid(cfg: Config, log: seq<Snapshot>, w: nat, p: Worker, found: Option<Obj>, at: nat, stale: nat)
    requires log != [] && p.Appending? && p.left >= 1 && BudgetOk(cfg, log, w, p, stale)
    ensures var isStale := found != Lookup(Current(log).objs, NameOf(p.call));
            BudgetOk(cfg, log, w, AfterRead(p, found, at), stale + if isStale then 1 else 0)
  {
    var name, now := NameOf(p.call), |log| - 1;
    var staler := stale + if found != Lookup(log[now].objs, name) then 1 else 0;
    StaysPaid(log, log, name, w, p.since, now, now, cfg.attempts - p.left, p.lost, stale, staler);
    var p' := AfterRead(p, found, at);
    if found.None? {
      PaidFailureIsOk(cfg, log, w, p.call, p.left, p.since, p.lost, NotFound, staler);
    } else if p'.Updating? && staler == stale {
      assert PaidWhenRead(cfg, log, w, p', now, staler);
    }
  }

  lemma ReadKeepsBudget(cfg: Config, s: State, w: nat, k: nat, stale: nat)
    requires s.log != [] && WorkerAt(s, w).Appending? && WorkerAt(s, w).left >= 1
    requires BudgetOk(cfg, s.log, w, WorkerAt(s, w), stale)
    ensures var s' := DoReadBack(s, w, k);
            BudgetOk(cfg, s'.log, w, WorkerAt(s', w), stale + if StaleRead(s, w, k) then 1 else 0)
  {
    var p := WorkerAt(s, w);
    ReadIsPaid(cfg, s.log, w, p, CachedLookup(s.log, k, NameOf(p.call)), ReadIndex(s.log, k), stale);
  }

  lemma OwnWriteKeepsBudget(cfg: Config, s: State, w: nat, stale: nat)
    requires Inv(cfg, s) && WorkerAt(s, w).Updating? && BudgetOk(cfg, s.log, w, WorkerAt(s, w), stale)
    ensures var s' := DoWriteStatus(s, w); BudgetOk(cfg, s'.log, w, WorkerAt(s', w), stale)
  {
    var p := WorkerAt(s, w);
    LoopIsOk(cfg, s, w);
    if UpdateError(s, NameOf(p.call), p.read.resourceVersion).Some? {
      LostUpdateIsPaid(cfg, s, w, stale);
    }
    WriteKeepsBudget(cfg, s, w, stale);
  }

  lemma OwnStepKeepsBudget(cfg: Config, s: State, a: Action, w: nat, stale: nat)
    requires Inv(cfg, s) && BudgetOk(cfg, s.log, w, WorkerAt(s, w), stale) && IsStepOf(a, w)
    requires WorkerAt(s, w).Appending? || WorkerAt(s, w).Updating?
    ensures var s' := Next(cfg, s, a);
            BudgetOk(cfg, s'.log, w, WorkerAt(s', w), stale + if a.ReadBack? && StaleRead(s, w, a.k) then 1 else 0)
  {
    LoopIsOk(cfg, s, w);
    match a
    case ReadBack(_, k) =>
      if WorkerAt(s, w).Appending? {
        ReadKeepsBudget(cfg, s, w, k, stale);
      }
    case WriteStatus(_) =>
      if WorkerAt(s, w).Updating? {
        OwnWriteKeepsBudget(cfg, s, w, stale);
      }
    case Fault(_) => FaultKeepsBudget(cfg, s, w, stale);
    case _ =>
  }

  /** A step that begins the loop owes nothing yet; the others before and after it change nothing. */
  lemma OutsideLoopOwesNothing(cfg: Config, s: State, a: Action, w: nat, stale: nat)
    requires s.log != [] && BudgetOk(cfg, s.log, w, WorkerAt(s, w), stale) && IsStepOf(a, w)
    requires !(WorkerAt(s, w).Appending? || WorkerAt(s, w).Updating?)
    ensures BudgetOk(cfg, Next(cfg, s, a).log, w, WorkerAt(Next(cfg, s, a), w), stale)
  {
  }

  lemma NextKeepsBudget(cfg: Config, s: State, a: Action, w: nat, stale: nat)
    requires Inv(cfg, s) && BudgetOk(cfg, s.log, w, WorkerAt(s, w), stale)
    ensures var s' := Next(cfg, s, a);
            BudgetOk(cfg, s'.log, w, WorkerAt(s', w),
                     stale + if a.ReadBack? && a.w == w && StaleRead(s, w, a.k) then 1 else 0)
  {
    if !IsStepOf(a, w) {
      OthersDoNotMove(cfg, s, a, w);
      LongerLogKeepsBudget(cfg, s.log, Next(cfg, s, a).log, w, WorkerAt(s, w), stale);
    } else if WorkerAt(s, w).Appending? || WorkerAt(s, w).Updating? {
      OwnStepKeepsBudget(cfg, s, a, w, stale);
    } else {
      OutsideLoopOwesNothing(cfg, s, a, w, stale);
    }
  }

  /** Outside the retry loop nothing is owed. */
  lemma ObserveOwesNothing(cfg: Config, s: State, a: Action, w: nat)
    requires a.Observe? && a.w == w && !(WorkerAt(s, w).Appending? || WorkerAt(s, w).Updating?)
    ensures BudgetOk(cfg, Next(cfg, s, a).log, w, WorkerAt(Next(cfg, s, a), w), 0)
  {
  }

  lemma {:induction false} RunKeepsBudget(cfg: Config, clock: Time, actions: seq<Action>, w: nat)
    requires ConfigOk(cfg)
    ensures var s := Reached(cfg, clock, actions);
            BudgetOk(cfg, s.log, w, WorkerAt(s, w), StaleReads(cfg, Init(clock), actions, w))
  {
    if actions != [] {
      var init, a := actions[..|actions| - 1], actions[|actions| - 1];
      var s := Reached(cfg, clock, init);
      RunKeepsBudget(cfg, clock, init, w);
      ReachedIsInv(cfg, clock, init);
      if a.Observe? && a.w == w && !(WorkerAt(s, w).Appending? || WorkerAt(s, w).Updating?) {
        ObserveOwesNothing(cfg, s, a, w);
      } else {
        NextKeepsBudget(cfg, s, a, w, StaleReads(cfg, Init(clock), init, w));
      }
    }
  }

  /** The accounts of a finished call, however stale its reads were.  Each attempt lost at the update
      is charged to an edit of the object by another process during the call, or to a stale read.
      When the object was there throughout, those edits are status updates by other workers, and a
      call that ran out of attempts met at least as many of them and stale reads as it had attempts;
      NotFound then takes a stale read. */
  lemma {:induction false} FailureIsAccountedFor(cfg: Config, clock: Time, actions: seq<Action>, w: nat)
    requires ConfigOk(cfg)
    requires var s := Reached(cfg, clock, actions); WorkerAt(s, w).Done? && WorkerAt(s, w).since < |s.log|
    ensures var s, p := Reached(cfg, clock, actions), WorkerAt(Reached(cfg, clock, actions), w);
            var name, stale := NameOf(p.call), StaleReads(cfg, Init(clock), actions, w);
            var rivals := RivalEdits(s.log, name, w, p.since, |s.log| - 1);
            && p.lost <= rivals + stale
            && (PresentSince(s.log, name, p.since) ==>
                  && (p.verdict.Failed? && p.verdict.error != Other ==>
                        cfg.attempts <= rivals + stale && (p.verdict.error == NotFound ==> stale >= 1))
                  && (forall k :: p.since < k < |s.log| && Concerns(s.log[k].edit, name) ==> s.log[k].edit.Appended?))
  {
    RunKeepsBudget(cfg, clock, actions, w);
    ReachedIsInv(cfg, clock, actions);
    var s := Reached(cfg, clock, actions);
    var p := WorkerAt(s, w);
    var name := NameOf(p.call);
    if PresentSince(s.log, name, p.since) {
      forall k | p.since < k < |s.log| && Concerns(s.log[k].edit, name) ensures s.log[k].edit.Appended? {
        assert Explained(s.log[k - 1].objs, s.log[k]);
        assert name in s.log[k - 1].objs && name in s.log[k].objs;
      }
    }
  }

  /** So with fresh reads, and the object there throughout, a call fails only by Conflict, beaten by
      as many status updates of other workers as it had attempts. */
  lemma {:induction false} FailureNeedsRivals(cfg: Config, clock: Time, actions: seq<Action>, w: nat)
    requires ConfigOk(cfg) && FreshReads(cfg, Init(clock), actions, w)
    requires var s := Reached(cfg, clock, actions); WorkerAt(s, w).Done? && WorkerAt(s, w).since < |s.log|
    ensures var s, p := Reached(cfg, clock, actions), WorkerAt(Reached(cfg, clock, actions), w);
            var name := NameOf(p.call);
            && p.lost <= RivalEdits(s.log, name, w, p.since, |s.log| - 1)
            && (PresentSince(s.log, name, p.since) ==>
                  && (p.verdict.Failed? && p.verdict.error != Other ==>
                        && p.verdict.error == Conflict
                        && RivalEdits(s.log, name, w, p.since, |s.log| - 1) >= cfg.attempts)
                  && (forall k :: p.since < k < |s.log| && Concerns(s.log[k].edit, name) ==> s.log[k].edit.Appended?))
  {
    FailureIsAccountedFor(cfg, clock, actions, w);
    FreshMeansNotStale(cfg, Init(clock), actions, w);
  }

  // ----- stale reads alone can spend the budget -----

  function Reread(w: nat, k: nat, n: nat): seq<Action> {
    seq(n, _ => ReadBack(w, k))
  }

  /** The worker after n reads of a version without the object. */
  function AfterRereads(p: Worker, n: nat): Worker
    requires p.Appending? && n <= p.left
  {
    if n < p.left then Appending(p.call, p.left - n, p.since, p.lost)
    else Done(p.call, Failed(NotFound), p.since, p.lost)
  }

  lemma {:induction false} RereadsAreStale(cfg: Config, clock: Time, actions: seq<Action>, w: nat, k: nat, n: nat)
    requires var s := Reached(cfg, clock, actions);
             && WorkerAt(s, w).Appending? && n <= WorkerAt(s, w).left && WorkerAt(s, w).left >= 1
             && k < |s.log| && NameOf(WorkerAt(s, w).call) !in s.log[k].objs
             && NameOf(WorkerAt(s, w).call) in Current(s.log).objs
    ensures var s, s' := Reached(cfg, clock, actions), Reached(cfg, clock, actions + Reread(w, k, n));
            && s'.log == s.log && WorkerAt(s', w) == AfterRereads(WorkerAt(s, w), n)
            && StaleReads(cfg, Init(clock), actions + Reread(w, k, n), w)
               == StaleReads(cfg, Init(clock), actions, w) + n
  {
    if n == 0 {
      assert actions + Reread(w, k, 0) == actions;
    } else {
      var before := actions + Reread(w, k, n - 1);
      RereadsAreStale(cfg, clock, actions, w, k, n - 1);
      assert actions + Reread(w, k, n) == before + [ReadBack(w, k)];
      RunOneMore(cfg, Init(clock), before, ReadBack(w, k));
      assert (before + [ReadBack(w, k)])[..|before|] == before;
      assert StaleRead(Reached(cfg, clock, before), w, k);
    }
  }

  /** Fresh reads are needed.  In any run, a cache that serves a retry loop a version without the
      object, which is there, as often as it has attempts left, makes it fail with NotFound although
      nobody writes anything; each of these reads is one of the stale ones that are accounted for. */
  lemma {:induction false} StaleReadsSpendTheBudget(cfg: Config, clock: Time, actions: seq<Action>, w: nat, k: nat)
    requires ConfigOk(cfg)
    requires var s := Reached(cfg, clock, actions);
             && WorkerAt(s, w).Appending? && k < |s.log|
             && NameOf(WorkerAt(s, w).call) !in s.log[k].objs && NameOf(WorkerAt(s, w).call) in Current(s.log).objs
    ensures var s := Reached(cfg, clock, actions);
            var p, more := WorkerAt(s, w), Reread(w, k, WorkerAt(s, w).left);
            var s' := Reached(cfg, clock, actions + more);
            && s'.log == s.log && WorkerAt(s', w) == Done(p.call, Failed(NotFound), p.since, p.lost)
            && StaleReads(cfg, Init(clock), actions + more, w) == StaleReads(cfg, Init(clock), actions, w) + p.left
  {
    ReachedIsInv(cfg, clock, actions);
    LoopIsOk(cfg, Reached(cfg, clock, actions), w);
    RereadsAreStale(cfg, clock, actions, w, k, WorkerAt(Reached(cfg, clock, actions), w).left);
  }

  /** A call that failed by NotFound while its object was there and nobody else touched it. */
  ghost predicate FailsAlone(s: State, w: nat) {
    var p := WorkerAt(s, w);
    && p.Done? && p.verdict == Failed(NotFound) && p.since < |s.log| && PresentSince(s.log, NameOf(p.call), p.since)
    && RivalEdits(s.log, NameOf(p.call), w, p.since, |s.log| - 1) == 0
  }

  /** Such a run from the empty store, for every scheduled pod and every budget: the record is
      created, and the cache goes on serving the empty store. */
  lemma {:induction false} BudgetIsSpentAlone(cfg: Config, clock: Time, pod: Pod)
    requires ConfigOk(cfg) && SaysScheduled(pod)
    ensures exists actions :: FailsAlone(Reached(cfg, clock, actions), 0)
  {
    var s0 := Init(clock);
    var actions := CreatingSteps(s0, 0, pod);
    var s := Reached(cfg, clock, actions);
    CreatesRecord(cfg, s0, 0, pod);
    RunExtendsLog(cfg, s0, actions);
    assert s.log[0] == s0.log[0];
    StaleReadsSpendTheBudget(cfg, clock, actions, 0, 0);
    AloneAtNewest(Reached(cfg, clock, actions + Reread(0, 0, WorkerAt(s, 0).left)), 0);
  }

  lemma AloneAtNewest(s: State, w: nat)
    requires s.log != [] && WorkerAt(s, w).Done? && WorkerAt(s, w).verdict == Failed(NotFound)
    requires WorkerAt(s, w).since == |s.log| - 1 && NameOf(WorkerAt(s, w).call) in Current(s.log).objs
    ensures FailsAlone(s, w)
  {
  }

  // ----- termination -----

  /** An upper bound on the steps a worker still takes before its reconcile returns. */
  function StepsLeft(cfg: Config, worker: Worker): nat {
    match worker
    case Idle => 0
    case Ensuring(_) => 2 * cfg.attempts + 2
    case Creating(_, _) => 2 * cfg.attempts + 1
    case Appending(_, left, _, _) => 2 * left
    case Updating(_, left, _, _, _, _) => if left == 0 then 1 else 2 * left - 1
    case Done(_, _, _, _) => 0
  }

  lemma OwnStepCounts(cfg: Config, s: State, a: Action, w: nat)
    requires s.log != [] && IsStepOf(a, w) && !a.Observe?
    requires WorkerAt(s, w).Appending? || WorkerAt(s, w).Updating? ==> 1 <= WorkerAt(s, w).left <= cfg.attempts
    ensures var before, after := WorkerAt(s, w), WorkerAt(Next(cfg, s, a), w);
            after == before || StepsLeft(cfg, after) < StepsLeft(cfg, before)
  {
    match a
    case CheckExists(_, k) =>
    case Create(_) =>
    case ReadBack(_, k) =>
    case WriteStatus(_) =>
    case _ =>
  }

  /** Each step of a running worker uses up some of the bound, and no one else's step adds to it. */
  lemma EveryStepCounts(cfg: Config, s: State, a: Action, w: nat)
    requires Inv(cfg, s)
    requires StepsLeft(cfg, WorkerAt(s, w)) > 0
    ensures var before, after := WorkerAt(s, w), WorkerAt(Next(cfg, s, a), w);
            after == before || (IsStepOf(a, w) && StepsLeft(cfg, after) < StepsLeft(cfg, before))
  {
    assert WorkerOk(cfg, s.log, w, WorkerAt(s, w));
    if !IsStepOf(a, w) {
      OthersDoNotMove(cfg, s, a, w);
    } else if !a.Observe? {
      OwnStepCounts(cfg, s, a, w);
    }
  }

  /** How often w moved during a run. */
  function Moves(cfg: Config, s: State, actions: seq<Action>, w: nat): nat {
    if actions == [] then 0
    else
      var init := actions[..|actions| - 1];
      Moves(cfg, s, init, w) + if WorkerAt(Run(cfg, s, actions), w) != WorkerAt(Run(cfg, s, init), w) then 1 else 0
  }

  /** A reconcile that has derived its transition makes at most 2 * attempts + 2 moves, however the
      others interfere; from then on it is done and stays so until its worker observes again. */
  lemma {:induction false} CallsEnd(cfg: Config, s: State, actions: seq<Action>, w: nat)
    requires Inv(cfg, s)
    requires forall i :: 0 <= i < |actions| ==> !(actions[i].Observe? && actions[i].w == w)
    ensures Moves(cfg, s, actions, w) + StepsLeft(cfg, WorkerAt(Run(cfg, s, actions), w))
            <= StepsLeft(cfg, WorkerAt(s, w))
    ensures StepsLeft(cfg, WorkerAt(s, w)) <= 2 * cfg.attempts + 2
  {
    assert WorkerOk(cfg, s.log, w, WorkerAt(s, w));
    if actions != [] {
      var init, a := actions[..|actions| - 1], actions[|actions| - 1];
      CallsEnd(cfg, s, init, w);
      RunKeepsInv(cfg, s, init);
      var mid := Run(cfg, s, init);
      if StepsLeft(cfg, WorkerAt(mid, w)) > 0 {
        EveryStepCounts(cfg, mid, a, w);
      } else {
        DoneStays(cfg, mid, a, w);
      }
    }
  }

  lemma DoneStays(cfg: Config, s: State, a: Action, w: nat)
    requires Inv(cfg, s) && StepsLeft(cfg, WorkerAt(s, w)) == 0 && !(a.Observe? && a.w == w)
    ensures WorkerAt(Next(cfg, s, a), w) == WorkerAt(s, w)
  {
    assert WorkerOk(cfg, s.log, w, WorkerAt(s, w));
    OthersDoNotMove(cfg, s, a, w);
  }
}
