/** The recording code itself, statement by statement, against a server that other processes use
    at the same time.  Every execution is shown to be a run of the protocol. */
module Reconciler {
  import opened Clock
  import opened Model
  import opened Derivation
  import opened Protocol
  import opened Invariants
  import opened Sequential
  import opened Provenance
  import opened EventIndex

  /** The status of a decision that was read back; it is changed in place before it is sent. */
  class StatusRecord {
    var outcome: Outcome
    var chosenNode: string
    var reasonSummary: string
    var decisionTimestamp: Time
    var schedulingLatencyMs: int
    var transitions: seq<Transition>

    constructor (status: Status)
      ensures Value() == status
    {
      outcome := status.outcome;
      chosenNode := status.chosenNode;
      reasonSummary := status.reasonSummary;
      decisionTimestamp := status.decisionTimestamp;
      schedulingLatencyMs := status.schedulingLatencyMs;
      transitions := status.transitions;
    }

    function Value(): Status
      reads this
    {
      Status(outcome, chosenNode, reasonSummary, decisionTimestamp, schedulingLatencyMs, transitions)
    }

    method ApplyTransition(t: Transition)
      modifies this
      ensures Value() == Applied(old(Value()), t)
      ensures Mirrors(Value())
    {
      transitions := transitions + [t];
      outcome := t.outcome;
      chosenNode := t.chosenNode;
      reasonSummary := t.reasonSummary;
      decisionTimestamp := t.decisionTimestamp;
      schedulingLatencyMs := t.schedulingLatencyMs;
    }
  }

  /** The API server with everyone who uses it. */
  class Cluster {
    var s: State

    constructor (s: State)
      ensures this.s == s
    {
      this.s := s;
    }

    /** The other processes move while this one is between two calls. */
    method Interfere(cfg: Config, moves: seq<Action>)
      modifies this
      ensures s == Run(cfg, old(s), moves)
    {
      for i := 0 to |moves|
        invariant s == Run(cfg, old(s), moves[..i])
      {
        assert moves[..i + 1][..i] == moves[..i];
        s := Next(cfg, s, moves[i]);
      }
      assert moves[..|moves|] == moves;
    }

    method Get(name: string, k: nat) returns (found: Option<Obj>)
      ensures found == CachedLookup(s.log, k, name)
    {
      found := CachedLookup(s.log, k, name);
    }

    /** AlreadyExists leaves the store as it was. */
    method Create(w: nat, name: string, o: Obj) returns (alreadyExists: bool)
      modifies this
      ensures alreadyExists == (name in Current(old(s).log).objs)
      ensures s == ServerCreate(old(s), w, name, o)
    {
      alreadyExists := name in Current(s.log).objs;
      s := ServerCreate(s, w, name, o);
    }

    method UpdateStatus(w: nat, name: string, resourceVersion: nat, status: Status) returns (error: Option<Error>)
      modifies this
      ensures error == UpdateError(old(s), name, resourceVersion)
      ensures s == ServerUpdateStatus(old(s), w, name, resourceVersion, status)
    {
      error := UpdateError(s, name, resourceVersion);
      s := ServerUpdateStatus(s, w, name, resourceVersion, status);
    }
  }

  /** What happens around the two calls of one step of the code: others move, a read is stale,
      a call fails for a reason that is not retried. */
  datatype Turn = Turn(before: seq<Action>, k: nat, firstFails: bool, between: seq<Action>, secondFails: bool)

  predicate TurnOk(turn: Turn, w: nat) {
    StepsOfOthers(turn.before, w) && StepsOfOthers(turn.between, w)
  }

  predicate TurnsOk(turns: seq<Turn>, w: nat) {
    forall i :: 0 <= i < |turns| ==> TurnOk(turns[i], w)
  }

  /** Nobody moves, nothing fails, and reads of logs of up to `length` versions are fresh. */
  predicate Quiet(turn: Turn, length: nat) {
    turn.before == [] && turn.between == [] && !turn.firstFails && !turn.secondFails && turn.k + 1 >= length
  }

  // ----- each step of the code as a step of the protocol -----

  /** Moves of the others, then one step of w. */
  lemma {:induction false} MovesThenStep(cfg: Config, s: State, w: nat, p: Worker, moves: seq<Action>, step: Action)
    requires StepsOfOthers(moves, w)
    ensures Run(cfg, Put(s, w, p), moves + [step]) == Next(cfg, Put(Run(cfg, s, moves), w, p), step)
    ensures s.log != [] ==> Run(cfg, s, moves).log != []
    ensures !step.Observe? ==> NoObserve(moves + [step], w)
  {
    OthersRunIgnores(cfg, s, moves, w, p);
    assert (moves + [step])[..|moves + [step]| - 1] == moves;
    RunExtendsLog(cfg, s, moves);
  }

  lemma FaultStep(cfg: Config, s: State, w: nat, p: Worker)
    requires !AtRest(p)
    ensures var since := if p.Appending? || p.Updating? then p.since else |s.log|;
            var lost := if p.Appending? || p.Updating? then p.lost else 0;
            Next(cfg, Put(s, w, p), Fault(w)) == Put(s, w, Done(p.call, Failed(Other), since, lost))
  {
  }

  lemma CheckStep(cfg: Config, s: State, w: nat, call: Call, k: nat)
    ensures Next(cfg, Put(s, w, Ensuring(call)), CheckExists(w, k))
            == Put(s, w, if CachedLookup(s.log, k, NameOf(call)).Some? then BeginAppend(s, cfg, call)
                         else Creating(call, s.clock))
  {
    assert WorkerAt(Put(s, w, Ensuring(call)), w) == Ensuring(call);
  }

  lemma CreateStep(cfg: Config, s: State, w: nat, call: Call, stamp: Time)
    ensures var s' := ServerCreate(s, w, NameOf(call), NewObj(s, cfg, call, stamp));
            Next(cfg, Put(s, w, Creating(call, stamp)), Protocol.Create(w)) == Put(s', w, BeginAppend(s', cfg, call))
  {
    var t := Put(s, w, Creating(call, stamp));
    assert WorkerAt(t, w) == Creating(call, stamp);
    assert NewObj(t, cfg, call, stamp) == NewObj(s, cfg, call, stamp);
  }

  lemma ReadStep(cfg: Config, s: State, w: nat, p: Worker, k: nat)
    requires p.Appending? && s.log != []
    ensures Next(cfg, Put(s, w, p), ReadBack(w, k))
            == Put(s, w, AfterRead(p, CachedLookup(s.log, k, NameOf(p.call)), ReadIndex(s.log, k)))
  {
    assert WorkerAt(Put(s, w, p), w) == p;
  }

  lemma WriteStep(cfg: Config, s: State, w: nat, p: Worker)
    requires p.Updating? && s.log != []
    ensures var name, version := NameOf(p.call), p.read.resourceVersion;
            var s' := ServerUpdateStatus(s, w, name, version, Applied(p.read.status, p.call.transition));
            s'.log != []
            && Next(cfg, Put(s, w, p), WriteStatus(w))
               == Put(s', w, AfterWrite(p, UpdateError(s, name, version), |s'.log| - 1))
  {
    assert WorkerAt(Put(s, w, p), w) == p;
  }

  /** With a fresh read of an object that is there, the update meets the version that was read. */
  lemma FreshAttempt(cfg: Config, s: State, w: nat, p: Worker, k: nat)
    requires p.Appending? && s.log != [] && k + 1 >= |s.log| && NameOf(p.call) in Current(s.log).objs
    ensures var name := NameOf(p.call);
            var o := Current(s.log).objs[name];
            var q := AfterRead(p, Some(o), ReadIndex(s.log, k));
            && CachedLookup(s.log, k, name) == Some(o)
            && UpdateError(s, name, o.resourceVersion).None?
            && Next(cfg, Put(s, w, p), ReadBack(w, k)) == Put(s, w, q)
            && (q.Done? ==> Next(cfg, Put(s, w, q), WriteStatus(w)) == Put(s, w, q))
  {
    ReadStep(cfg, s, w, p, k);
  }

  /** The state of the protocol while w stands at p and the server is as in s. */
  ghost predicate Follows(cfg: Config, start: State, trace: seq<Action>, s: State, w: nat, p: Worker) {
    s.log != [] && Run(cfg, start, trace) == Put(s, w, p)
  }

  lemma FollowsOn(
    cfg: Config, start: State, trace: seq<Action>, s: State, w: nat, p: Worker, more: seq<Action>, s': State,
    p': Worker)
    requires Follows(cfg, start, trace, s, w, p) && Follows(cfg, Put(s, w, p), more, s', w, p')
    ensures Follows(cfg, start, trace + more, s', w, p')
    ensures NoObserve(trace, w) && NoObserve(more, w) ==> NoObserve(trace + more, w)
  {
    RunConcat(cfg, start, trace, more);
  }

  // ----- the code -----

  /** The tail of ensureDecisionCreated: send the draft. */
  method SendDraft(c: Cluster, cfg: Config, w: nat, call: Call, stamp: Time, turn: Turn)
    returns (err: Option<Error>, ghost trace: seq<Action>, ghost end: Worker)
    requires c.s.log != [] && TurnOk(turn, w)
    modifies c
    ensures Follows(cfg, Put(old(c.s), w, Creating(call, stamp)), trace, c.s, w, end)
    ensures NoObserve(trace, w)
    ensures if err.None? then end == BeginAppend(c.s, cfg, call)
            else end.Done? && end.call == call && end.verdict == Failed(err.value)
    ensures turn.between == [] && !turn.secondFails ==>
              err.None? && Put(c.s, w, end) == Next(cfg, Put(old(c.s), w, Creating(call, stamp)), Protocol.Create(w))
  {
    ghost var s0 := c.s;
    c.Interfere(cfg, turn.between);
    ghost var s1, last := c.s, if turn.secondFails then Fault(w) else Protocol.Create(w);
    MovesThenStep(cfg, s0, w, Creating(call, stamp), turn.between, last);
    trace := turn.between + [last];
    if turn.secondFails {
      FaultStep(cfg, c.s, w, Creating(call, stamp));
      return Some(Other), trace, Done(call, Failed(Other), |c.s.log|, 0);
    }
    var alreadyExists := c.Create(w, DecisionName(call.identity.uid), NewObj(c.s, cfg, call, stamp));
    CreateStep(cfg, s1, w, call, stamp);
    return None, trace, BeginAppend(c.s, cfg, call);
  }

  method EnsureDecisionCreated(c: Cluster, cfg: Config, w: nat, call: Call, turn: Turn)
    returns (err: Option<Error>, ghost trace: seq<Action>, ghost end: Worker)
    requires c.s.log != [] && TurnOk(turn, w)
    modifies c
    ensures Follows(cfg, Put(old(c.s), w, Ensuring(call)), trace, c.s, w, end)
    ensures NoObserve(trace, w)
    ensures if err.None? then end == BeginAppend(c.s, cfg, call)
            else end.Done? && end.call == call && end.verdict == Failed(err.value)
    ensures Quiet(turn, |old(c.s).log|) ==>
              && err.None?
              && Put(c.s, w, end)
                 == Next(cfg, Next(cfg, Put(old(c.s), w, Ensuring(call)), CheckExists(w, turn.k)), Protocol.Create(w))
  {
    ghost var s0 := c.s;
    c.Interfere(cfg, turn.before);
    if turn.firstFails {
      MovesThenStep(cfg, s0, w, Ensuring(call), turn.before, Fault(w));
      FaultStep(cfg, c.s, w, Ensuring(call));
      return Some(Other), turn.before + [Fault(w)], Done(call, Failed(Other), |c.s.log|, 0);
    }
    MovesThenStep(cfg, s0, w, Ensuring(call), turn.before, CheckExists(w, turn.k));
    CheckStep(cfg, c.s, w, call, turn.k);
    trace := turn.before + [CheckExists(w, turn.k)];
    var existing := c.Get(DecisionName(call.identity.uid), turn.k);
    if existing.Some? {
      end := BeginAppend(c.s, cfg, call);
      NothingToCreate(cfg, c.s, w, end);
      return None, trace, end;
    }
    var stamp := c.s.clock;
    ghost var s1, more := c.s, [];
    err, more, end := SendDraft(c, cfg, w, call, stamp, turn);
    FollowsOn(cfg, Put(s0, w, Ensuring(call)), trace, s1, w, Creating(call, stamp), more, c.s, end);
    trace := trace + more;
  }

  lemma NothingToCreate(cfg: Config, s: State, w: nat, p: Worker)
    requires !p.Creating?
    ensures Next(cfg, Put(s, w, p), Protocol.Create(w)) == Put(s, w, p)
  {
    assert WorkerAt(Put(s, w, p), w) == p;
  }

  /** The function that is retried, from its comparison on: append to what was read, and send it. */
  method SendAppended(c: Cluster, cfg: Config, w: nat, ghost q: Worker, call: Call, decision: Obj, turn: Turn)
    returns (err: Option<Error>, ghost trace: seq<Action>, ghost end: Worker)
    requires c.s.log != [] && TurnOk(turn, w)
    requires q.Updating? && q.call == call && q.read == decision
    modifies c
    ensures Follows(cfg, Put(old(c.s), w, q), trace, c.s, w, end)
    ensures NoObserve(trace, w)
    ensures if turn.secondFails then err == Some(Other) && end == Done(call, Failed(Other), q.since, q.lost)
            else
              && (err.Some? ==> err.value != Other)
              && end == AfterWrite(q, err, |c.s.log| - 1)
    ensures turn.between == [] && !turn.secondFails ==>
              && err == UpdateError(old(c.s), NameOf(call), decision.resourceVersion)
              && Put(c.s, w, end) == Next(cfg, Put(old(c.s), w, q), WriteStatus(w))
  {
    var name := DecisionName(call.identity.uid);
    var status := new StatusRecord(decision.status);
    status.ApplyTransition(call.transition);
    ghost var s0 := c.s;
    c.Interfere(cfg, turn.between);
    ghost var s1, last := c.s, if turn.secondFails then Fault(w) else WriteStatus(w);
    MovesThenStep(cfg, s0, w, q, turn.between, last);
    trace := turn.between + [last];
    if turn.secondFails {
      FaultStep(cfg, c.s, w, q);
      return Some(Other), trace, Done(call, Failed(Other), q.since, q.lost);
    }
    err := c.UpdateStatus(w, name, decision.resourceVersion, status.Value());
    WriteStep(cfg, s1, w, q);
    end := AfterWrite(q, err, |c.s.log| - 1);
  }

  /** The worker after an attempt: done, or at the next attempt with one fewer left. */
  ghost predicate AttemptEnds(p: Worker, err: Option<Error>, end: Worker)
    requires p.Appending?
  {
    if err.None? then end.Done? && end.call == p.call && end.verdict.Acked?
    else if err.value == Other || p.left <= 1 then end.Done? && end.call == p.call && end.verdict == Failed(err.value)
    else end.Appending? && end.call == p.call && end.left == p.left - 1
  }

  /** The function that is retried, up to its comparison: the cached Get. */
  method ReadDecision(c: Cluster, cfg: Config, w: nat, ghost p: Worker, call: Call, turn: Turn)
    returns (err: Option<Error>, decision: Option<Obj>, ghost trace: seq<Action>, ghost end: Worker)
    requires c.s.log != [] && TurnOk(turn, w) && p.Appending? && p.call == call
    modifies c
    ensures Follows(cfg, Put(old(c.s), w, p), trace, c.s, w, end)
    ensures NoObserve(trace, w)
    ensures err.Some? == decision.None?
    ensures err.Some? ==> AttemptEnds(p, err, end)
    ensures decision.Some? ==> exists at: nat :: end == AfterRead(p, decision, at)
    ensures Quiet(turn, |old(c.s).log|) && NameOf(call) in Current(old(c.s).log).objs ==>
              && c.s == old(c.s) && decision == Some(Current(c.s.log).objs[NameOf(call)])
              && Put(c.s, w, end) == Next(cfg, Put(old(c.s), w, p), ReadBack(w, turn.k))
  {
    ghost var s0 := c.s;
    c.Interfere(cfg, turn.before);
    if turn.firstFails {
      MovesThenStep(cfg, s0, w, p, turn.before, Fault(w));
      FaultStep(cfg, c.s, w, p);
      return Some(Other), None, turn.before + [Fault(w)], Done(call, Failed(Other), p.since, p.lost);
    }
    MovesThenStep(cfg, s0, w, p, turn.before, ReadBack(w, turn.k));
    ReadStep(cfg, c.s, w, p, turn.k);
    trace := turn.before + [ReadBack(w, turn.k)];
    decision := c.Get(DecisionName(call.identity.uid), turn.k);
    end := AfterRead(p, decision, ReadIndex(c.s.log, turn.k));
    err := if decision.None? then Some(NotFound) else None;
  }

  /** The function that is retried. */
  method Attempt(c: Cluster, cfg: Config, w: nat, ghost p: Worker, call: Call, turn: Turn)
    returns (err: Option<Error>, ghost trace: seq<Action>, ghost end: Worker)
    requires c.s.log != [] && TurnOk(turn, w) && p.Appending? && p.call == call
    modifies c
    ensures Follows(cfg, Put(old(c.s), w, p), trace, c.s, w, end)
    ensures NoObserve(trace, w)
    ensures AttemptEnds(p, err, end)
    ensures Quiet(turn, |old(c.s).log|) && NameOf(call) in Current(old(c.s).log).objs ==>
              && err.None?
              && Put(c.s, w, end) == Next(cfg, Next(cfg, Put(old(c.s), w, p), ReadBack(w, turn.k)), WriteStatus(w))
  {
    ghost var s0, quiet := c.s, Quiet(turn, |c.s.log|) && NameOf(call) in Current(c.s.log).objs;
    var found;
    err, found, trace, end := ReadDecision(c, cfg, w, p, call, turn);
    if err.Some? {
      return;
    }
    if quiet {
      FreshAttempt(cfg, s0, w, p, turn.k);
    }
    var decision := found.value;
    var n := |decision.status.transitions|;
    if n > 0 && TransitionsEqual(decision.status.transitions[n - 1], call.transition) {
      return None, trace, end;
    }
    ghost var s1, q, more := c.s, end, [];
    err, more, end := SendAppended(c, cfg, w, q, call, decision, turn);
    FollowsOn(cfg, Put(s0, w, p), trace, s1, w, q, more, c.s, end);
    trace := trace + more;
  }

  /** Up to cfg.attempts attempts; only Conflict and NotFound are retried. */
  method AppendTransitionWithRetry(c: Cluster, cfg: Config, w: nat, call: Call, turns: seq<Turn>)
    returns (err: Option<Error>, ghost trace: seq<Action>, ghost end: Worker)
    requires c.s.log != [] && |turns| == cfg.attempts >= 1 && TurnsOk(turns, w)
    modifies c
    ensures Follows(cfg, Put(old(c.s), w, BeginAppend(old(c.s), cfg, call)), trace, c.s, w, end)
    ensures NoObserve(trace, w)
    ensures end.Done? && end.call == call
    ensures if err.None? then end.verdict.Acked? else end.verdict == Failed(err.value)
    ensures Quiet(turns[0], |old(c.s).log|) && NameOf(call) in Current(old(c.s).log).objs ==>
              && err.None?
              && Put(c.s, w, end)
                 == Next(cfg, Next(cfg, Put(old(c.s), w, BeginAppend(old(c.s), cfg, call)), ReadBack(w, turns[0].k)),
                         WriteStatus(w))
  {
    ghost var quiet := Quiet(turns[0], |c.s.log|) && NameOf(call) in Current(c.s.log).objs;
    ghost var start := Put(c.s, w, BeginAppend(c.s, cfg, call));
    trace, end, err := [], BeginAppend(c.s, cfg, call), None;
    var i := 0;
    while i < cfg.attempts
      invariant 0 <= i <= cfg.attempts
      invariant Follows(cfg, start, trace, c.s, w, end)
      invariant NoObserve(trace, w)
      invariant end.Appending? || end.Done?
      invariant end.call == call
      invariant i == 0 ==> c.s == old(c.s) && end == BeginAppend(c.s, cfg, call)
      invariant i > 0 ==> !quiet
      invariant if i < cfg.attempts then end.Appending? && end.left == cfg.attempts - i
                else err.Some? && end.Done? && end.verdict == Failed(err.value)
    {
      ghost var s0, p, more := c.s, end, [];
      err, more, end := Attempt(c, cfg, w, p, call, turns[i]);
      FollowsOn(cfg, start, trace, s0, w, p, more, c.s, end);
      trace := trace + more;
      if err.None? || err == Some(Other) {
        return;
      }
      i := i + 1;
    }
  }

  /** The steps of an undisturbed recording. */
  function Undisturbed(cfg: Config, s: State, w: nat, call: Call, k: nat, k': nat): State {
    Next(cfg, Next(cfg, Next(cfg, Next(cfg, Put(s, w, Ensuring(call)), CheckExists(w, k)), Protocol.Create(w)),
                   ReadBack(w, k')), WriteStatus(w))
  }

  lemma CreatedIsPresent(cfg: Config, s: State, w: nat, call: Call, k: nat, s': State, end: Worker)
    requires s.log != [] && k + 1 >= |s.log|
    requires Put(s', w, end) == Next(cfg, Next(cfg, Put(s, w, Ensuring(call)), CheckExists(w, k)), Protocol.Create(w))
    ensures NameOf(call) in Current(s'.log).objs && |s'.log| <= |s.log| + 1
  {
    CheckStep(cfg, s, w, call, k);
    CreateStep(cfg, s, w, call, s.clock);
  }

  method RecordTransition(c: Cluster, cfg: Config, w: nat, call: Call, setup: Turn, turns: seq<Turn>)
    returns (err: Option<Error>, ghost trace: seq<Action>, ghost end: Worker)
    requires c.s.log != [] && TurnOk(setup, w) && |turns| == cfg.attempts >= 1 && TurnsOk(turns, w)
    modifies c
    ensures Follows(cfg, Put(old(c.s), w, Ensuring(call)), trace, c.s, w, end)
    ensures NoObserve(trace, w)
    ensures end.Done? && end.call == call
    ensures if err.None? then end.verdict.Acked? else end.verdict == Failed(err.value)
    ensures Quiet(setup, |old(c.s).log|) && Quiet(turns[0], |old(c.s).log| + 1) ==>
              err.None? && Put(c.s, w, end) == Undisturbed(cfg, old(c.s), w, call, setup.k, turns[0].k)
  {
    ghost var start, s0 := Put(c.s, w, Ensuring(call)), c.s;
    err, trace, end := EnsureDecisionCreated(c, cfg, w, call, setup);
    if err.Some? {
      return;
    }
    ghost var s1, p, more := c.s, end, [];
    if Quiet(setup, |s0.log|) {
      CreatedIsPresent(cfg, s0, w, call, setup.k, s1, p);
    }
    err, more, end := AppendTransitionWithRetry(c, cfg, w, call, turns);
    FollowsOn(cfg, start, trace, s1, w, p, more, c.s, end);
    trace := trace + more;
  }

  // ----- the whole reconcile -----

  lemma FreshReadsAgree(cfg: Config, s: State, w: nat, k: nat, k': nat)
    requires s.log != [] && k + 1 >= |s.log| && k' + 1 >= |s.log|
    ensures Next(cfg, s, CheckExists(w, k)) == Next(cfg, s, CheckExists(w, k'))
    ensures Next(cfg, s, ReadBack(w, k)) == Next(cfg, s, ReadBack(w, k'))
  {
  }

  /** An undisturbed recording of what was observed is the sequential reconcile. */
  lemma UndisturbedIsSolo(cfg: Config, s: State, w: nat, x: Input, call: Call, k: nat, k': nat)
    requires s.log != [] && k + 1 >= |s.log| && k' >= |s.log| && x.elapsed == 0
    requires Next(cfg, s, Observe(w, x.pod, x.events, x.volume)) == Put(s, w, Ensuring(call))
    ensures Undisturbed(cfg, s, w, call, k, k') == Solo(cfg, s, w, x)
  {
    assert Next(cfg, s, Tick(0)) == s;
    SoloUnfolds(cfg, s, w, x);
    var begun := Put(s, w, Ensuring(call));
    FreshReadsAgree(cfg, begun, w, k, |s.log| + 1);
    var checked := Next(cfg, begun, CheckExists(w, k));
    CheckStep(cfg, s, w, call, k);
    var made := Next(cfg, checked, Protocol.Create(w));
    OneVersionAtMost(cfg, checked, w);
    FreshReadsAgree(cfg, made, w, k', |s.log| + 1);
  }

  lemma OneVersionAtMost(cfg: Config, s: State, w: nat)
    ensures |s.log| <= |Next(cfg, s, Protocol.Create(w)).log| <= |s.log| + 1
  {
  }

  /** One reconcile of the pod `key`, as seen through the caches: `cached` are the event cache's
      contents and `pod` what the pod cache holds.  Whatever the other processes do, it is a run
      of the protocol that ends with the worker done; left alone with fresh reads, it is the
      sequential reconcile. */
  method Reconcile(
    c: Cluster, cfg: Config, w: nat, key: Key, cached: seq<Event>, pod: Option<Pod>, volume: Option<VolumeContext>,
    setup: Turn, turns: seq<Turn>)
    returns (err: Option<Error>, ghost trace: seq<Action>, ghost end: Worker)
    requires Inv(cfg, c.s) && AtRest(WorkerAt(c.s, w))
    requires TurnOk(setup, w) && |turns| == cfg.attempts && TurnsOk(turns, w)
    modifies c
    ensures Inv(cfg, Put(c.s, w, end))
    ensures Follows(cfg, old(c.s), trace, c.s, w, end)
    ensures var d := DeriveTransition(pod, IndexList(cached, key), old(c.s).clock);
            if d.None? then err.None? && c.s == old(c.s) && end == Idle
            else
              && end.Done? && end.call.identity == d.value.identity && end.call.transition == d.value.transition
              && (if err.None? then
                    end.verdict.Acked?
                    && Witnessed(c.s.log, NameOf(end.call), end.verdict.incarnation, end.verdict.at, d.value.transition)
                  else end.verdict == Failed(err.value))
    ensures forall k :: |old(c.s).log| <= k < |c.s.log| && c.s.log[k].edit.Created? && c.s.log[k].edit.worker == w ==>
              var d := DeriveTransition(pod, IndexList(cached, key), old(c.s).clock);
              && d.Some? && c.s.log[k].edit.name == DecisionName(d.value.identity.uid)
              && c.s.log[k].edit.name in c.s.log[k].objs
              && c.s.log[k].objs[c.s.log[k].edit.name].spec
                 == Spec(d.value.identity.name, d.value.identity.namespace, d.value.identity.uid,
                         d.value.identity.schedulerName, if pod.Some? then volume else None)
    ensures var x := Input(0, pod, KeepRelevant(IndexList(cached, key)), volume);
            Quiet(setup, |old(c.s).log|) && Quiet(turns[0], |old(c.s).log| + 1) && DerivedAt(old(c.s), x).Some? ==>
              err.None? && Put(c.s, w, end) == Solo(cfg, old(c.s), w, x)
  {
    ghost var s0 := c.s;
    var events := ListRelevantEvents(cached, key);
    FilterKeepsDerivation(pod, IndexList(cached, key), c.s.clock);
    var derived := DeriveTransition(pod, events, c.s.clock);
    ghost var observe := Observe(w, pod, events, volume);
    RunOne(cfg, s0, observe);
    trace := [observe];
    if derived.None? {
      RunKeepsInv(cfg, s0, trace);
      return None, trace, Idle;
    }
    var call := CallOf(derived.value, pod, volume, c.s.clock);
    ghost var more;
    err, more, end := RecordTransition(c, cfg, w, call, setup, turns);
    FollowsOn(cfg, s0, trace, s0, w, Ensuring(call), more, c.s, end);
    trace := trace + more;
    RunKeepsInv(cfg, s0, trace);
    ghost var begun := Put(s0, w, Ensuring(call));
    forall k | |s0.log| <= k < |c.s.log| && c.s.log[k].edit.Created? && c.s.log[k].edit.worker == w
      ensures CreatedFrom(c.s.log, k, call)
    {
      RunCreatesFrom(cfg, begun, more, w, call, k);
    }
    assert WorkerOk(cfg, c.s.log, w, end) by {
      assert WorkerAt(Put(c.s, w, end), w) == end;
    }
    if Quiet(setup, |s0.log|) && Quiet(turns[0], |s0.log| + 1) {
      UndisturbedIsSolo(cfg, s0, w, Input(0, pod, events, volume), call, setup.k, turns[0].k);
    }
  }

  lemma {:induction false} RunOne(cfg: Config, s: State, a: Action)
    ensures Run(cfg, s, [a]) == Next(cfg, s, a)
  {
    assert [a][..0] == [];
  }
}
