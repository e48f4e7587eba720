/** The counting and averaging behind the dashboard: stat cards, heatmap, latency chart.  Averages
    and percentages are exact quotients rounded half up. */
module Dashboard {
  import opened Model

  datatype Decision = Decision(spec: Spec, status: Status)

  function SchedulerOf(d: Decision): string {
    if d.spec.schedulerName == "" then "(unknown)" else d.spec.schedulerName
  }

  function NodeOf(d: Decision): string {
    if d.status.chosenNode == "" then "(none)" else d.status.chosenNode
  }

  /** Rounds a / b to the nearest integer, halves up. */
  function RoundDiv(a: int, b: int): int
    requires b > 0
  {
    (2 * a + b) / (2 * b)
  }

  /** q is the integer nearest to a / b, the larger one of two that are equally near. */
  predicate Rounds(q: int, a: int, b: int) {
    2 * q * b <= 2 * a + b < 2 * (q + 1) * b
  }

  lemma RoundDivRounds(a: int, b: int)
    requires b > 0
    ensures Rounds(RoundDiv(a, b), a, b)
  {
    RoundDivAtLeast(a, b, RoundDiv(a, b));
    RoundDivAtLeast(a, b, RoundDiv(a, b) + 1);
  }

  // ----- what is counted -----

  predicate IsScheduled(d: Decision) {
    d.status.outcome == Scheduled
  }

  /** Decisions that take part in latency averages. */
  predicate IsTimed(d: Decision) {
    IsScheduled(d) && d.status.schedulingLatencyMs > 0
  }

  function CountOutcome(list: seq<Decision>, outcome: Outcome): nat {
    if list == [] then 0
    else CountOutcome(list[..|list| - 1], outcome) + if list[|list| - 1].status.outcome == outcome then 1 else 0
  }

  function LatencySum(list: seq<Decision>): nat {
    if list == [] then 0
    else
      var d := list[|list| - 1];
      LatencySum(list[..|list| - 1]) + if IsTimed(d) then d.status.schedulingLatencyMs else 0
  }

  function LatencyCount(list: seq<Decision>): nat {
    if list == [] then 0
    else LatencyCount(list[..|list| - 1]) + if IsTimed(list[|list| - 1]) then 1 else 0
  }

  /** The decisions of one scheduler. */
  function OfScheduler(list: seq<Decision>, scheduler: string): seq<Decision> {
    if list == [] then []
    else
      var d := list[|list| - 1];
      OfScheduler(list[..|list| - 1], scheduler) + if SchedulerOf(d) == scheduler then [d] else []
  }

  /** One cell of the heatmap: how many of the scheduler's decisions put a pod on the node. */
  function Cell(list: seq<Decision>, scheduler: string, node: string): nat {
    if list == [] then 0
    else
      var d := list[|list| - 1];
      Cell(list[..|list| - 1], scheduler, node)
      + if IsScheduled(d) && SchedulerOf(d) == scheduler && NodeOf(d) == node then 1 else 0
  }

  // ----- the counts, one by one -----

  ghost function WithOutcome(list: seq<Decision>, outcome: Outcome): set<nat> {
    set j: nat | j < |list| && list[j].status.outcome == outcome
  }

  lemma {:induction false} OutcomesAreCounted(list: seq<Decision>, outcome: Outcome)
    ensures CountOutcome(list, outcome) == |WithOutcome(list, outcome)|
  {
    if list == [] {
      assert WithOutcome(list, outcome) == {};
    } else {
      var n := |list| - 1;
      OutcomesAreCounted(list[..n], outcome);
      OutcomeOneMore(list, outcome);
    }
  }

  lemma {:induction false} OutcomeOneMore(list: seq<Decision>, outcome: Outcome)
    requires list != []
    ensures var n := |list| - 1;
            var rest := WithOutcome(list[..n], outcome);
            n !in rest && WithOutcome(list, outcome) == if list[n].status.outcome == outcome then rest + {n} else rest
  {
    var n := |list| - 1;
    var rest, all := WithOutcome(list[..n], outcome), WithOutcome(list, outcome);
    assert forall j: nat :: j < n ==> (j in all <==> j in rest);
  }

  /** Shown as itself, or by a stand-in when it is empty. */
  predicate ShownAs(text: string, standIn: string, shown: string) {
    if text == "" then shown == standIn else shown == text
  }

  ghost function PutOn(list: seq<Decision>, scheduler: string, node: string): set<nat> {
    set j: nat | j < |list| && list[j].status.outcome == Scheduled
                 && ShownAs(list[j].spec.schedulerName, "(unknown)", scheduler)
                 && ShownAs(list[j].status.chosenNode, "(none)", node)
  }

  lemma {:induction false} CellsAreCounted(list: seq<Decision>, scheduler: string, node: string)
    ensures Cell(list, scheduler, node) == |PutOn(list, scheduler, node)|
  {
    if list == [] {
      assert PutOn(list, scheduler, node) == {};
    } else {
      var n := |list| - 1;
      CellsAreCounted(list[..n], scheduler, node);
      PutOnOneMore(list, scheduler, node);
    }
  }

  lemma {:induction false} PutOnOneMore(list: seq<Decision>, scheduler: string, node: string)
    requires list != []
    ensures var n, d := |list| - 1, list[|list| - 1];
            var rest := PutOn(list[..n], scheduler, node);
            n !in rest
            && PutOn(list, scheduler, node)
               == if IsScheduled(d) && SchedulerOf(d) == scheduler && NodeOf(d) == node then rest + {n} else rest
  {
    var n := |list| - 1;
    var rest, all := PutOn(list[..n], scheduler, node), PutOn(list, scheduler, node);
    assert forall j: nat :: j < n ==> (j in all <==> j in rest);
  }

  /** Positive latencies of Scheduled decisions of one scheduler. */
  ghost function TimedOf(list: seq<Decision>, scheduler: string): set<nat> {
    set j: nat | j < |list| && list[j].status.outcome == Scheduled && list[j].status.schedulingLatencyMs > 0
                 && ShownAs(list[j].spec.schedulerName, "(unknown)", scheduler)
  }

  lemma {:induction false} TimedAreCounted(list: seq<Decision>, scheduler: string)
    ensures LatencyCount(OfScheduler(list, scheduler)) == |TimedOf(list, scheduler)|
  {
    if list == [] {
      assert TimedOf(list, scheduler) == {};
    } else {
      var n := |list| - 1;
      TimedAreCounted(list[..n], scheduler);
      assert list[..n + 1] == list;
      TakingOneMore(list, n, scheduler);
      TimedOneMore(list, scheduler);
    }
  }

  lemma {:induction false} TimedOneMore(list: seq<Decision>, scheduler: string)
    requires list != []
    ensures var n, d := |list| - 1, list[|list| - 1];
            var rest := TimedOf(list[..n], scheduler);
            n !in rest
            && TimedOf(list, scheduler) == if SchedulerOf(d) == scheduler && IsTimed(d) then rest + {n} else rest
  {
    var n := |list| - 1;
    var rest, all := TimedOf(list[..n], scheduler), TimedOf(list, scheduler);
    assert forall j: nat :: j < n ==> (j in all <==> j in rest);
  }

  /** A sum of latencies is the sum over its parts, and a decision adds its latency if it is Scheduled
      and the latency is positive; likewise for the count, and for one scheduler's decisions. */
  lemma {:induction false} LatenciesOfParts(a: seq<Decision>, b: seq<Decision>, scheduler: string)
    ensures LatencySum(a + b) == LatencySum(a) + LatencySum(b)
    ensures LatencyCount(a + b) == LatencyCount(a) + LatencyCount(b)
    ensures OfScheduler(a + b, scheduler) == OfScheduler(a, scheduler) + OfScheduler(b, scheduler)
  {
    if b == [] {
      assert a + b == a;
    } else {
      var n := |b| - 1;
      assert (a + b)[..|a + b| - 1] == a + b[..n];
      LatenciesOfParts(a, b[..n], scheduler);
    }
  }

  lemma {:induction false} LatencyOfOne(d: Decision, scheduler: string)
    ensures LatencySum([d]) == if d.status.outcome == Scheduled && d.status.schedulingLatencyMs > 0
                               then d.status.schedulingLatencyMs else 0
    ensures LatencyCount([d]) == if d.status.outcome == Scheduled && d.status.schedulingLatencyMs > 0 then 1 else 0
    ensures OfScheduler([d], scheduler) == if ShownAs(d.spec.schedulerName, "(unknown)", scheduler) then [d] else []
  {
    assert [d][..0] == [];
  }

  predicate Distinct(keys: seq<string>) {
    forall i, j :: 0 <= i < j < |keys| ==> keys[i] != keys[j]
  }

  // ----- stat cards -----

  datatype Cards = Cards(total: nat, scheduled: nat, failed: nat, preempted: nat, avgLatency: int)

  function Average(sum: nat, count: nat): int {
    if count > 0 then RoundDiv(sum, count) else 0
  }

  lemma StatsOneMore(list: seq<Decision>, i: nat)
    requires i < |list|
    ensures forall o :: CountOutcome(list[..i + 1], o)
                        == CountOutcome(list[..i], o) + if list[i].status.outcome == o then 1 else 0
    ensures LatencySum(list[..i + 1]) == LatencySum(list[..i])
              + if IsTimed(list[i]) then list[i].status.schedulingLatencyMs else 0
    ensures LatencyCount(list[..i + 1]) == LatencyCount(list[..i]) + if IsTimed(list[i]) then 1 else 0
  {
    assert list[..i + 1][..i] == list[..i];
  }

  /** The three outcomes that have a card, and how often each was seen. */
  ghost predicate OutcomesRight(seen: seq<Decision>, byOutcome: map<Outcome, nat>) {
    && byOutcome.Keys == {Scheduled, FailedScheduling, Preempted}
    && forall o :: o in byOutcome ==> byOutcome[o] == CountOutcome(seen, o)
  }

  lemma OutcomesOneMore(list: seq<Decision>, i: nat, byOutcome: map<Outcome, nat>)
    requires i < |list| && OutcomesRight(list[..i], byOutcome)
    ensures var o := list[i].status.outcome;
            OutcomesRight(list[..i + 1], if o in byOutcome then byOutcome[o := byOutcome[o] + 1] else byOutcome)
  {
    StatsOneMore(list, i);
  }

  method RenderStats(list: seq<Decision>) returns (cards: Cards)
    ensures cards.total == |list|
    ensures cards.scheduled == |WithOutcome(list, Scheduled)|
    ensures cards.failed == |WithOutcome(list, FailedScheduling)|
    ensures cards.preempted == |WithOutcome(list, Preempted)|
    ensures cards.avgLatency == Average(LatencySum(list), LatencyCount(list))
    ensures if LatencyCount(list) > 0 then Rounds(cards.avgLatency, LatencySum(list), LatencyCount(list))
            else cards.avgLatency == 0
  {
    OutcomesAreCounted(list, Scheduled);
    OutcomesAreCounted(list, FailedScheduling);
    OutcomesAreCounted(list, Preempted);
    var byOutcome: map<Outcome, nat> := map[Scheduled := 0, FailedScheduling := 0, Preempted := 0];
    var latencySum, latencyCount := 0, 0;
    for i := 0 to |list|
      invariant OutcomesRight(list[..i], byOutcome)
      invariant latencySum == LatencySum(list[..i]) && latencyCount == LatencyCount(list[..i])
    {
      StatsOneMore(list, i);
      OutcomesOneMore(list, i, byOutcome);
      var o, lat := list[i].status.outcome, list[i].status.schedulingLatencyMs;
      if o in byOutcome {
        byOutcome := byOutcome[o := byOutcome[o] + 1];
      }
      if o == Scheduled && lat > 0 {
        latencySum, latencyCount := latencySum + lat, latencyCount + 1;
      }
    }
    assert list[..|list|] == list;
    var avgLatency := if latencyCount > 0 then RoundDiv(latencySum, latencyCount) else 0;
    if latencyCount > 0 {
      RoundDivRounds(latencySum, latencyCount);
    }
    cards := Cards(|list|, byOutcome[Scheduled], byOutcome[FailedScheduling], byOutcome[Preempted], avgLatency);
  }

  // ----- heatmap -----

  function At(counts: map<string, map<string, nat>>, scheduler: string, node: string): nat {
    if scheduler in counts && node in counts[scheduler] then counts[scheduler][node] else 0
  }

  /** `keys` in order of first appearance. */
  function WithKey(keys: seq<string>, key: string): seq<string> {
    if key in keys then keys else keys + [key]
  }

  /** Every scheduled decision's scheduler and node have a column and a row. */
  predicate Covers(list: seq<Decision>, schedulers: seq<string>, nodes: seq<string>) {
    forall i :: 0 <= i < |list| && IsScheduled(list[i]) ==>
      SchedulerOf(list[i]) in schedulers && NodeOf(list[i]) in nodes
  }

  /** The count of one cell goes up by one; rows and cells that are missing count as zero. */
  function Bump(counts: map<string, map<string, nat>>, scheduler: string, node: string): map<string, map<string, nat>> {
    var row := if scheduler in counts then counts[scheduler] else map[];
    counts[scheduler := row[node := At(counts, scheduler, node) + 1]]
  }

  ghost predicate CellRight(
    seen: seq<Decision>, counts: map<string, map<string, nat>>, scheduler: string, node: string)
  {
    At(counts, scheduler, node) == Cell(seen, scheduler, node)
  }

  /** The nested map holds every cell of the decisions seen. */
  ghost predicate CellsRight(seen: seq<Decision>, counts: map<string, map<string, nat>>) {
    forall s, n :: CellRight(seen, counts, s, n)
  }

  lemma BumpAt(counts: map<string, map<string, nat>>, scheduler: string, node: string, s: string, n: string)
    ensures At(Bump(counts, scheduler, node), s, n)
            == At(counts, s, n) + if s == scheduler && n == node then 1 else 0
  {
  }

  lemma CountOneMore(list: seq<Decision>, i: nat, counts: map<string, map<string, nat>>)
    requires i < |list| && CellsRight(list[..i], counts)
    ensures CellsRight(list[..i + 1],
                       if IsScheduled(list[i]) then Bump(counts, SchedulerOf(list[i]), NodeOf(list[i])) else counts)
  {
    var d := list[i];
    var counts' := if IsScheduled(d) then Bump(counts, SchedulerOf(d), NodeOf(d)) else counts;
    var seen := list[..i + 1];
    assert seen[..i] == list[..i];
    forall s, n ensures CellRight(seen, counts', s, n) {
      assert CellRight(list[..i], counts, s, n);
      BumpAt(counts, SchedulerOf(d), NodeOf(d), s, n);
    }
  }

  lemma WithKeyAdds(keys: seq<string>, key: string)
    requires Distinct(keys)
    ensures Distinct(WithKey(keys, key)) && key in WithKey(keys, key)
    ensures forall k :: k in WithKey(keys, key) <==> k in keys || k == key
  {
  }

  /** The keys collected so far. */
  ghost predicate KeysRight(seen: seq<Decision>, schedulers: seq<string>, nodes: seq<string>) {
    Distinct(schedulers) && Distinct(nodes) && Covers(seen, schedulers, nodes)
  }

  lemma CoverOneMore(list: seq<Decision>, i: nat, schedulers: seq<string>, nodes: seq<string>)
    requires i < |list| && KeysRight(list[..i], schedulers, nodes)
    ensures if IsScheduled(list[i]) then
              KeysRight(list[..i + 1], WithKey(schedulers, SchedulerOf(list[i])), WithKey(nodes, NodeOf(list[i])))
            else KeysRight(list[..i + 1], schedulers, nodes)
  {
    var d := list[i];
    WithKeyAdds(schedulers, SchedulerOf(d));
    WithKeyAdds(nodes, NodeOf(d));
    var schedulers' := if IsScheduled(d) then WithKey(schedulers, SchedulerOf(d)) else schedulers;
    var nodes' := if IsScheduled(d) then WithKey(nodes, NodeOf(d)) else nodes;
    forall j | 0 <= j < i + 1 && IsScheduled(list[j])
      ensures SchedulerOf(list[j]) in schedulers' && NodeOf(list[j]) in nodes'
    {
      if j < i {
        assert list[..i][j] == list[j];
      }
    }
  }

  method CountCells(list: seq<Decision>)
    returns (counts: map<string, map<string, nat>>, schedulers: seq<string>, nodes: seq<string>)
    ensures CellsRight(list, counts) && KeysRight(list, schedulers, nodes)
  {
    counts, schedulers, nodes := map[], [], [];
    for i := 0 to |list|
      invariant CellsRight(list[..i], counts) && KeysRight(list[..i], schedulers, nodes)
    {
      CountOneMore(list, i, counts);
      CoverOneMore(list, i, schedulers, nodes);
      if list[i].status.outcome != Scheduled {
        continue;
      }
      var s, n := SchedulerOf(list[i]), NodeOf(list[i]);
      schedulers, nodes := WithKey(schedulers, s), WithKey(nodes, n);
      counts := Bump(counts, s, n);
    }
    assert list[..|list|] == list;
  }

  method RenderHeatmap(list: seq<Decision>)
    returns (counts: map<string, map<string, nat>>, schedulers: seq<string>, nodes: seq<string>, max: nat)
    ensures forall s, n :: At(counts, s, n) == Cell(list, s, n) == |PutOn(list, s, n)|
    ensures Distinct(schedulers) && Distinct(nodes) && Covers(list, schedulers, nodes)
    ensures forall s, n :: s in schedulers && n in nodes ==> At(counts, s, n) <= max
    ensures max == 1 || exists s, n :: s in schedulers && n in nodes && At(counts, s, n) == max
    ensures GridTotal(list, schedulers, nodes) == |WithOutcome(list, Scheduled)|
  {
    counts, schedulers, nodes := CountCells(list);
    max := LargestCell(counts, schedulers, nodes);
    forall s, n ensures At(counts, s, n) == Cell(list, s, n) == |PutOn(list, s, n)| {
      assert CellRight(list, counts, s, n);
      CellsAreCounted(list, s, n);
    }
    OutcomesAreCounted(list, Scheduled);
    HeatmapConservesScheduled(list, schedulers, nodes);
  }

  method LargestCell(counts: map<string, map<string, nat>>, schedulers: seq<string>, nodes: seq<string>)
    returns (max: nat)
    ensures forall s, n :: s in schedulers && n in nodes ==> At(counts, s, n) <= max
    ensures max == 1 || exists s, n :: s in schedulers && n in nodes && At(counts, s, n) == max
  {
    max := 1;
    for i := 0 to |schedulers|
      invariant forall s, n :: s in schedulers[..i] && n in nodes ==> At(counts, s, n) <= max
      invariant max == 1 || exists s, n :: s in schedulers && n in nodes && At(counts, s, n) == max
    {
      for j := 0 to |nodes|
        invariant forall s, n :: s in schedulers[..i] && n in nodes ==> At(counts, s, n) <= max
        invariant forall n :: n in nodes[..j] ==> At(counts, schedulers[i], n) <= max
        invariant max == 1 || exists s, n :: s in schedulers && n in nodes && At(counts, s, n) == max
      {
        var v := At(counts, schedulers[i], nodes[j]);
        max := if v > max then v else max;
      }
    }
  }

  function RowTotal(list: seq<Decision>, scheduler: string, nodes: seq<string>): nat {
    if nodes == [] then 0 else RowTotal(list, scheduler, nodes[1..]) + Cell(list, scheduler, nodes[0])
  }

  function GridTotal(list: seq<Decision>, schedulers: seq<string>, nodes: seq<string>): nat {
    if schedulers == [] then 0
    else GridTotal(list, schedulers[1..], nodes) + RowTotal(list, schedulers[0], nodes)
  }

  lemma {:induction false} RowGrows(list: seq<Decision>, scheduler: string, nodes: seq<string>)
    requires list != [] && Distinct(nodes)
    ensures var d := list[|list| - 1];
            RowTotal(list, scheduler, nodes)
            == RowTotal(list[..|list| - 1], scheduler, nodes)
               + if IsScheduled(d) && SchedulerOf(d) == scheduler && NodeOf(d) in nodes then 1 else 0
  {
    if nodes != [] {
      RowGrows(list, scheduler, nodes[1..]);
      assert NodeOf(list[|list| - 1]) in nodes[1..] ==> NodeOf(list[|list| - 1]) != nodes[0];
    }
  }

  lemma {:induction false} GridGrows(list: seq<Decision>, schedulers: seq<string>, nodes: seq<string>)
    requires list != [] && Distinct(schedulers) && Distinct(nodes)
    ensures var d := list[|list| - 1];
            GridTotal(list, schedulers, nodes)
            == GridTotal(list[..|list| - 1], schedulers, nodes)
               + if IsScheduled(d) && SchedulerOf(d) in schedulers && NodeOf(d) in nodes then 1 else 0
  {
    if schedulers != [] {
      GridGrows(list, schedulers[1..], nodes);
      RowGrows(list, schedulers[0], nodes);
      assert SchedulerOf(list[|list| - 1]) in schedulers[1..] ==> SchedulerOf(list[|list| - 1]) != schedulers[0];
    }
  }

  lemma {:induction false} EmptyGrid(schedulers: seq<string>, nodes: seq<string>)
    ensures GridTotal([], schedulers, nodes) == 0
  {
    if schedulers != [] {
      EmptyGrid(schedulers[1..], nodes);
      EmptyRow(schedulers[0], nodes);
    }
  }

  lemma {:induction false} EmptyRow(scheduler: string, nodes: seq<string>)
    ensures RowTotal([], scheduler, nodes) == 0
  {
    if nodes != [] {
      EmptyRow(scheduler, nodes[1..]);
    }
  }

  /** The cells add up to the Scheduled card. */
  lemma {:induction false} HeatmapConservesScheduled(list: seq<Decision>, schedulers: seq<string>, nodes: seq<string>)
    requires Distinct(schedulers) && Distinct(nodes) && Covers(list, schedulers, nodes)
    ensures GridTotal(list, schedulers, nodes) == CountOutcome(list, Scheduled)
  {
    if list == [] {
      EmptyGrid(schedulers, nodes);
    } else {
      HeatmapConservesScheduled(list[..|list| - 1], schedulers, nodes);
      GridGrows(list, schedulers, nodes);
    }
  }

  // ----- latency chart -----

  datatype Bar = Bar(name: string, avg: int)

  /** The bars of the schedulers, in the order of their names. */
  function BarsOf(list: seq<Decision>, names: seq<string>): seq<Bar>
    requires forall i :: 0 <= i < |names| ==> LatencyCount(OfScheduler(list, names[i])) > 0
  {
    seq(|names|, i requires 0 <= i < |names| =>
      var own := OfScheduler(list, names[i]); Bar(names[i], RoundDiv(LatencySum(own), LatencyCount(own))))
  }

  /** The names are those of the schedulers with a timed decision. */
  ghost predicate NamesTimed(list: seq<Decision>, names: seq<string>) {
    && Distinct(names)
    && forall s :: s in names <==> LatencyCount(OfScheduler(list, s)) > 0
  }

  /** What the two accumulators hold about one scheduler after the decisions of `seen`. */
  ghost predicate GroupRight(seen: seq<Decision>, sums: map<string, int>, counts: map<string, int>, s: string) {
    && (s in sums <==> s in counts)
    && LatencySum(OfScheduler(seen, s)) == (if s in sums then sums[s] else 0)
    && LatencyCount(OfScheduler(seen, s)) == (if s in counts then counts[s] else 0)
    && (s in counts ==> counts[s] > 0)
  }

  ghost predicate Grouped(seen: seq<Decision>, sums: map<string, int>, counts: map<string, int>) {
    forall s :: GroupRight(seen, sums, counts, s)
  }

  function AddTo(m: map<string, int>, s: string, n: int): map<string, int> {
    m[s := (if s in m then m[s] else 0) + n]
  }

  lemma GroupOneMore(list: seq<Decision>, i: nat, sums: map<string, int>, counts: map<string, int>)
    requires i < |list| && Grouped(list[..i], sums, counts)
    ensures var d, s := list[i], SchedulerOf(list[i]);
            if IsTimed(d) then Grouped(list[..i + 1], AddTo(sums, s, d.status.schedulingLatencyMs), AddTo(counts, s, 1))
            else Grouped(list[..i + 1], sums, counts)
  {
    var d := list[i];
    var sums' := if IsTimed(d) then AddTo(sums, SchedulerOf(d), d.status.schedulingLatencyMs) else sums;
    var counts' := if IsTimed(d) then AddTo(counts, SchedulerOf(d), 1) else counts;
    var seen := list[..i + 1];
    forall s ensures GroupRight(seen, sums', counts', s) {
      assert GroupRight(list[..i], sums, counts, s);
      TakingOneMore(list, i, s);
    }
  }

  /** The names collected so far are the keys of the sums. */
  ghost predicate NamesRight(names: seq<string>, sums: map<string, int>) {
    Distinct(names) && forall s :: s in names <==> s in sums
  }

  lemma NameOneMore(names: seq<string>, sums: map<string, int>, s: string, n: int)
    requires NamesRight(names, sums)
    ensures NamesRight(WithKey(names, s), AddTo(sums, s, n))
  {
    WithKeyAdds(names, s);
  }

  method SumLatencies(list: seq<Decision>)
    returns (names: seq<string>, sums: map<string, int>, counts: map<string, int>)
    ensures Grouped(list, sums, counts) && NamesRight(names, sums)
  {
    sums, counts, names := map[], map[], [];
    for i := 0 to |list|
      invariant Grouped(list[..i], sums, counts) && NamesRight(names, sums)
    {
      GroupOneMore(list, i, sums, counts);
      if list[i].status.outcome != Scheduled {
        continue;
      }
      var lat := list[i].status.schedulingLatencyMs;
      if lat <= 0 {
        continue;
      }
      var s := SchedulerOf(list[i]);
      NameOneMore(names, sums, s, lat);
      sums, counts, names := AddTo(sums, s, lat), AddTo(counts, s, 1), WithKey(names, s);
    }
    assert list[..|list|] == list;
  }

  lemma GroupedNamesAreTimed(list: seq<Decision>, names: seq<string>, sums: map<string, int>, counts: map<string, int>)
    requires Grouped(list, sums, counts) && NamesRight(names, sums)
    ensures NamesTimed(list, names)
    ensures forall i :: 0 <= i < |names| ==>
              && names[i] in sums && names[i] in counts && counts[names[i]] > 0
              && BarsOf(list, names)[i] == Bar(names[i], RoundDiv(sums[names[i]], counts[names[i]]))
  {
    forall s ensures s in names <==> LatencyCount(OfScheduler(list, s)) > 0 {
      assert GroupRight(list, sums, counts, s);
    }
    forall i | 0 <= i < |names|
      ensures && names[i] in sums && names[i] in counts && counts[names[i]] > 0
              && BarsOf(list, names)[i] == Bar(names[i], RoundDiv(sums[names[i]], counts[names[i]]))
    {
      assert GroupRight(list, sums, counts, names[i]);
    }
  }

  /** A bar shows a scheduler's rounded average. */
  predicate IsBarOf(list: seq<Decision>, name: string, bar: Bar) {
    var own := OfScheduler(list, name);
    bar.name == name && Rounds(bar.avg, LatencySum(own), LatencyCount(own))
  }

  lemma BarsAreAverages(list: seq<Decision>, names: seq<string>)
    requires NamesTimed(list, names)
    ensures forall s :: s in names <==> TimedOf(list, s) != {}
    ensures forall i :: 0 <= i < |names| ==> IsBarOf(list, names[i], BarsOf(list, names)[i])
  {
    forall s ensures s in names <==> TimedOf(list, s) != {} {
      TimedAreCounted(list, s);
    }
    forall i | 0 <= i < |names| ensures IsBarOf(list, names[i], BarsOf(list, names)[i]) {
      var own := OfScheduler(list, names[i]);
      RoundDivRounds(LatencySum(own), LatencyCount(own));
    }
  }

  method GroupLatencies(list: seq<Decision>) returns (names: seq<string>, bars: seq<Bar>)
    ensures NamesTimed(list, names) && bars == BarsOf(list, names)
    ensures Distinct(names) && forall s :: s in names <==> TimedOf(list, s) != {}
    ensures |bars| == |names| && forall i :: 0 <= i < |names| ==> IsBarOf(list, names[i], bars[i])
  {
    var sums, counts;
    names, sums, counts := SumLatencies(list);
    GroupedNamesAreTimed(list, names, sums, counts);
    BarsAreAverages(list, names);
    bars := [];
    for i := 0 to |names|
      invariant |bars| == i && forall j :: 0 <= j < i ==> bars[j] == BarsOf(list, names)[j]
    {
      bars := bars + [Bar(names[i], RoundDiv(sums[names[i]], counts[names[i]]))];
    }
  }

  lemma {:induction false} TakingOneMore(list: seq<Decision>, i: nat, s: string)
    requires i < |list|
    ensures LatencySum(OfScheduler(list[..i + 1], s)) == LatencySum(OfScheduler(list[..i], s))
              + if SchedulerOf(list[i]) == s && IsTimed(list[i]) then list[i].status.schedulingLatencyMs else 0
    ensures LatencyCount(OfScheduler(list[..i + 1], s)) == LatencyCount(OfScheduler(list[..i], s))
              + if SchedulerOf(list[i]) == s && IsTimed(list[i]) then 1 else 0
  {
    assert list[..i + 1][..i] == list[..i];
    var own, more := OfScheduler(list[..i], s), OfScheduler(list[..i + 1], s);
    if SchedulerOf(list[i]) == s {
      assert more[..|more| - 1] == own;
    } else {
      assert more == own;
    }
  }

  lemma {:induction false} UntimedSumIsZero(list: seq<Decision>)
    ensures LatencyCount(list) <= LatencySum(list)
    ensures LatencyCount(list) == 0 ==> LatencySum(list) == 0
  {
    if list != [] {
      UntimedSumIsZero(list[..|list| - 1]);
    }
  }

  // ----- the card and the bars agree -----

  function SumOver(list: seq<Decision>, names: seq<string>): nat {
    if names == [] then 0 else SumOver(list, names[1..]) + LatencySum(OfScheduler(list, names[0]))
  }

  function CountOver(list: seq<Decision>, names: seq<string>): nat {
    if names == [] then 0 else CountOver(list, names[1..]) + LatencyCount(OfScheduler(list, names[0]))
  }

  lemma {:induction false} OverGrows(list: seq<Decision>, names: seq<string>)
    requires list != [] && Distinct(names)
    ensures var n, d := |list| - 1, list[|list| - 1];
            var counts := IsTimed(d) && SchedulerOf(d) in names;
            && SumOver(list, names) == SumOver(list[..n], names) + (if counts then d.status.schedulingLatencyMs else 0)
            && CountOver(list, names) == CountOver(list[..n], names) + (if counts then 1 else 0)
  {
    if names != [] {
      OverGrows(list, names[1..]);
      assert list[..|list| - 1 + 1] == list;
      TakingOneMore(list, |list| - 1, names[0]);
      assert SchedulerOf(list[|list| - 1]) in names[1..] ==> SchedulerOf(list[|list| - 1]) != names[0];
    }
  }

  lemma {:induction false} EmptyOver(names: seq<string>)
    ensures SumOver([], names) == 0 && CountOver([], names) == 0
  {
    if names != [] {
      EmptyOver(names[1..]);
    }
  }

  /** Per-scheduler sums and counts add up to the card's. */
  lemma {:induction false} LatenciesAddUp(list: seq<Decision>, names: seq<string>)
    requires Distinct(names) && forall i :: 0 <= i < |list| && IsTimed(list[i]) ==> SchedulerOf(list[i]) in names
    ensures SumOver(list, names) == LatencySum(list) && CountOver(list, names) == LatencyCount(list)
  {
    if list == [] {
      EmptyOver(names);
    } else {
      LatenciesAddUp(list[..|list| - 1], names);
      OverGrows(list, names);
    }
  }

  /** RoundDiv is rounding half up: it reaches m exactly when the quotient reaches m - 1/2. */
  lemma RoundDivAtLeast(a: int, b: int, m: int)
    requires b > 0
    ensures m <= RoundDiv(a, b) <==> 2 * m * b <= 2 * a + b
  {
    var q, x, y := RoundDiv(a, b), 2 * a + b, 2 * b;
    assert x == q * y + x % y;
    if m <= q {
      assert m * y <= q * y;
    } else {
      assert m * y >= (q + 1) * y;
    }
    assert m * y == 2 * m * b;
  }

  /** A sum lies within the bounds its parts keep: lo <= RoundDiv(sum, count) <= hi, cross-multiplied. */
  predicate Within(sum: int, count: int, lo: int, hi: int) {
    2 * lo * count <= 2 * sum + count && (count > 0 ==> 2 * sum + count < 2 * (hi + 1) * count)
  }

  lemma WithinIsRoundDiv(sum: int, count: int, lo: int, hi: int)
    requires count > 0
    ensures Within(sum, count, lo, hi) <==> lo <= RoundDiv(sum, count) <= hi
  {
    RoundDivAtLeast(sum, count, lo);
    RoundDivAtLeast(sum, count, hi + 1);
  }

  /** One more scheduler, whose own average keeps the bounds. */
  lemma AverageAdds(a: int, b: int, s: int, c: int, lo: int, hi: int)
    requires b > 0 && c >= 0 && (c == 0 ==> s == 0) && lo <= RoundDiv(a, b) <= hi && Within(s, c, lo, hi)
    ensures Within(s + a, c + b, lo, hi)
  {
    WithinIsRoundDiv(a, b, lo, hi);
    WithinAdds(a, b, s, c, lo, hi);
  }

  lemma WithinAdds(a: int, b: int, s: int, c: int, lo: int, hi: int)
    requires b > 0 && c >= 0 && (c == 0 ==> s == 0) && Within(a, b, lo, hi) && Within(s, c, lo, hi)
    ensures Within(s + a, c + b, lo, hi)
  {
    assert 2 * lo * (c + b) == 2 * lo * c + 2 * lo * b;
    assert 2 * (hi + 1) * (c + b) == 2 * (hi + 1) * c + 2 * (hi + 1) * b;
  }

  /** Bounds of the bars are bounds of the averages. */
  lemma {:induction false} BoundsOfBars(list: seq<Decision>, names: seq<string>, lo: int, hi: int, i: int)
    requires forall i :: 0 <= i < |names| ==> LatencyCount(OfScheduler(list, names[i])) > 0
    requires 0 <= i < |names| && lo <= BarsOf(list, names)[i].avg <= hi
    ensures AverageWithin(list, names[i], lo, hi)
  {
  }

  predicate AverageWithin(list: seq<Decision>, name: string, lo: int, hi: int) {
    var own := OfScheduler(list, name);
    LatencyCount(own) > 0 && lo <= RoundDiv(LatencySum(own), LatencyCount(own)) <= hi
  }

  /** The bounds of the averages, summed up. */
  lemma {:induction false} AveragesBoundSums(list: seq<Decision>, names: seq<string>, lo: int, hi: int)
    requires forall i :: 0 <= i < |names| ==> AverageWithin(list, names[i], lo, hi)
    ensures Within(SumOver(list, names), CountOver(list, names), lo, hi)
    ensures CountOver(list, names) == 0 ==> SumOver(list, names) == 0 && names == []
  {
    if names != [] {
      var own, rest := OfScheduler(list, names[0]), names[1..];
      AveragesBoundSums(list, rest, lo, hi);
      assert AverageWithin(list, names[0], lo, hi);
      AverageAdds(LatencySum(own), LatencyCount(own), SumOver(list, rest), CountOver(list, rest), lo, hi);
    }
  }

  lemma {:induction false} TimedHasName(list: seq<Decision>, i: nat)
    requires i < |list| && IsTimed(list[i])
    ensures LatencyCount(OfScheduler(list, SchedulerOf(list[i]))) > 0
  {
    assert list[..|list| - 1 + 1] == list;
    TakingOneMore(list, |list| - 1, SchedulerOf(list[i]));
    if i < |list| - 1 {
      TimedHasName(list[..|list| - 1], i);
    }
  }

  /** The average on the card lies between the shortest and the longest bar. */
  lemma {:induction false} CardLiesBetweenBars(list: seq<Decision>, names: seq<string>, lo: int, hi: int)
    requires NamesTimed(list, names) && names != []
    requires forall i :: 0 <= i < |names| ==> lo <= BarsOf(list, names)[i].avg <= hi
    ensures LatencyCount(list) > 0 && lo <= Average(LatencySum(list), LatencyCount(list)) <= hi
  {
    forall i | 0 <= i < |list| && IsTimed(list[i]) ensures SchedulerOf(list[i]) in names {
      TimedHasName(list, i);
    }
    LatenciesAddUp(list, names);
    forall i | 0 <= i < |names| ensures AverageWithin(list, names[i], lo, hi) {
      BoundsOfBars(list, names, lo, hi, i);
    }
    AveragesBoundSums(list, names, lo, hi);
    WithinIsRoundDiv(LatencySum(list), LatencyCount(list), lo, hi);
  }

  // ----- the drawn chart -----

  /** Longest first; bars of equal length keep their order. */
  function InsertBar(b: Bar, bars: seq<Bar>): seq<Bar> {
    if bars == [] || b.avg > bars[0].avg then [b] + bars else [bars[0]] + InsertBar(b, bars[1..])
  }

  function SortBars(bars: seq<Bar>): seq<Bar> {
    if bars == [] then [] else InsertBar(bars[|bars| - 1], SortBars(bars[..|bars| - 1]))
  }

  predicate LongestFirst(bars: seq<Bar>) {
    forall i, j :: 0 <= i < j < |bars| ==> bars[i].avg >= bars[j].avg
  }

  lemma {:induction false} InsertAddsBar(b: Bar, bars: seq<Bar>)
    ensures multiset(InsertBar(b, bars)) == multiset(bars) + multiset{b}
  {
    if !(bars == [] || b.avg > bars[0].avg) {
      InsertAddsBar(b, bars[1..]);
      assert bars == [bars[0]] + bars[1..];
    }
  }

  lemma {:induction false} InsertedOrThere(b: Bar, bars: seq<Bar>, x: Bar)
    requires x in InsertBar(b, bars)
    ensures x == b || x in bars
  {
    InsertAddsBar(b, bars);
    assert x in multiset(InsertBar(b, bars));
  }

  lemma PrependKeepsOrder(b: Bar, bars: seq<Bar>)
    requires LongestFirst(bars) && forall j :: 0 <= j < |bars| ==> b.avg >= bars[j].avg
    ensures LongestFirst([b] + bars)
  {
  }

  lemma {:induction false} InsertKeepsOrder(b: Bar, bars: seq<Bar>)
    requires LongestFirst(bars)
    ensures LongestFirst(InsertBar(b, bars))
  {
    if bars == [] || b.avg > bars[0].avg {
      PrependKeepsOrder(b, bars);
    } else {
      var rest := InsertBar(b, bars[1..]);
      InsertKeepsOrder(b, bars[1..]);
      forall j | 0 <= j < |rest| ensures bars[0].avg >= rest[j].avg {
        InsertedOrThere(b, bars[1..], rest[j]);
      }
      PrependKeepsOrder(bars[0], rest);
    }
  }

  lemma {:induction false} SortBarsSorts(bars: seq<Bar>)
    ensures LongestFirst(SortBars(bars)) && multiset(SortBars(bars)) == multiset(bars)
  {
    if bars != [] {
      SortBarsSorts(bars[..|bars| - 1]);
      InsertKeepsOrder(bars[|bars| - 1], SortBars(bars[..|bars| - 1]));
      InsertAddsBar(bars[|bars| - 1], SortBars(bars[..|bars| - 1]));
      assert bars == bars[..|bars| - 1] + [bars[|bars| - 1]];
    }
  }

  /** The bars of one length, in order. */
  function OfLength(bars: seq<Bar>, avg: int): seq<Bar> {
    if bars == [] then [] else (if bars[0].avg == avg then [bars[0]] else []) + OfLength(bars[1..], avg)
  }

  lemma {:induction false} OfLengthConcat(a: seq<Bar>, b: seq<Bar>, avg: int)
    ensures OfLength(a + b, avg) == OfLength(a, avg) + OfLength(b, avg)
  {
    if a == [] {
      assert a + b == b;
    } else {
      assert (a + b)[1..] == a[1..] + b;
      OfLengthConcat(a[1..], b, avg);
    }
  }

  lemma {:induction false} NoneLonger(bars: seq<Bar>, avg: int)
    requires LongestFirst(bars) && (bars != [] ==> bars[0].avg < avg)
    ensures OfLength(bars, avg) == []
  {
    if bars != [] {
      NoneLonger(bars[1..], avg);
    }
  }

  /** A bar comes behind those of its own length. */
  lemma {:induction false} InsertIsStable(b: Bar, bars: seq<Bar>, avg: int)
    requires LongestFirst(bars)
    ensures OfLength(InsertBar(b, bars), avg) == OfLength(bars, avg) + if b.avg == avg then [b] else []
  {
    if bars == [] || b.avg > bars[0].avg {
      assert ([b] + bars)[1..] == bars;
      if b.avg == avg {
        NoneLonger(bars, avg);
      }
    } else {
      InsertIsStable(b, bars[1..], avg);
      assert ([bars[0]] + InsertBar(b, bars[1..]))[1..] == InsertBar(b, bars[1..]);
    }
  }

  /** Bars of equal length keep their order. */
  lemma {:induction false} SortIsStable(bars: seq<Bar>, avg: int)
    ensures OfLength(SortBars(bars), avg) == OfLength(bars, avg)
  {
    if bars != [] {
      var n := |bars| - 1;
      SortIsStable(bars[..n], avg);
      SortBarsSorts(bars[..n]);
      InsertIsStable(bars[n], SortBars(bars[..n]), avg);
      OfLengthConcat(bars[..n], [bars[n]], avg);
      assert bars == bars[..n] + [bars[n]];
    }
  }

  /** A bar's width in percent of the longest, but never below 4. */
  function Width(avg: int, max: int): int
    requires max > 0
  {
    var pct := RoundDiv(100 * avg, max);
    if pct > 4 then pct else 4
  }

  /** The width is the rounded percentage of the longest bar, or 4 when that is less. */
  predicate IsShare(width: int, avg: int, longest: int) {
    if Rounds(width, 100 * avg, longest) then width >= 4
    else width == 4 && 2 * (100 * avg) + longest < 2 * 4 * longest
  }

  lemma WidthIsShare(avg: int, max: int)
    requires max > 0
    ensures IsShare(Width(avg, max), avg, max)
  {
    RoundDivRounds(100 * avg, max);
    RoundDivAtLeast(100 * avg, max, 4);
  }

  method LongestBar(bars: seq<Bar>) returns (max: int)
    requires bars != []
    ensures (forall i :: 0 <= i < |bars| ==> bars[i].avg <= max) && exists i :: 0 <= i < |bars| && bars[i].avg == max
  {
    max := bars[0].avg;
    for i := 1 to |bars|
      invariant (forall j :: 0 <= j < i ==> bars[j].avg <= max) && exists j :: 0 <= j < i && bars[j].avg == max
    {
      if bars[i].avg > max {
        max := bars[i].avg;
      }
    }
  }

  method DrawBars(rows: seq<Bar>) returns (widths: seq<int>)
    requires LongestFirst(rows) && forall i :: 0 <= i < |rows| ==> rows[i].avg >= 1
    ensures |widths| == |rows|
    ensures forall i :: 0 <= i < |widths| ==> IsShare(widths[i], rows[i].avg, rows[0].avg)
    ensures forall i :: 0 <= i < |widths| ==> 4 <= widths[i] <= 100
    ensures forall i, j :: 0 <= i < j < |widths| ==> widths[i] >= widths[j]
    ensures rows != [] ==> widths[0] == 100
  {
    widths := [];
    if |rows| == 0 {
      return;
    }
    var max := LongestBar(rows);
    WidthsAreOrdered(rows, max);
    for i := 0 to |rows|
      invariant |widths| == i
      invariant forall j :: 0 <= j < i ==> widths[j] == Width(rows[j].avg, max) && IsShare(widths[j], rows[j].avg, max)
    {
      WidthIsShare(rows[i].avg, max);
      widths := widths + [Width(rows[i].avg, max)];
    }
  }

  lemma SortedBarsArePositive(list: seq<Decision>, names: seq<string>)
    requires NamesTimed(list, names)
    ensures var rows := SortBars(BarsOf(list, names)); forall i :: 0 <= i < |rows| ==> rows[i].avg >= 1
  {
    var bars := BarsOf(list, names);
    var rows := SortBars(bars);
    BarsArePositive(list, names);
    SortBarsSorts(bars);
    forall i | 0 <= i < |rows| ensures rows[i].avg >= 1 {
      assert rows[i] in multiset(rows);
      assert rows[i] in bars;
    }
  }

  method RenderLatencyChart(list: seq<Decision>) returns (names: seq<string>, rows: seq<Bar>, widths: seq<int>)
    ensures NamesTimed(list, names) && multiset(rows) == multiset(BarsOf(list, names))
    ensures forall avg :: OfLength(rows, avg) == OfLength(BarsOf(list, names), avg)
    ensures forall i :: 0 <= i < |names| ==> IsBarOf(list, names[i], BarsOf(list, names)[i])
    ensures LongestFirst(rows) && |widths| == |rows|
    ensures forall i :: 0 <= i < |widths| ==> IsShare(widths[i], rows[i].avg, rows[0].avg)
    ensures forall i :: 0 <= i < |widths| ==> 4 <= widths[i] <= 100
    ensures forall i, j :: 0 <= i < j < |widths| ==> widths[i] >= widths[j]
    ensures rows != [] ==> widths[0] == 100
  {
    var bars;
    names, bars := GroupLatencies(list);
    rows := SortBars(bars);
    SortBarsSorts(bars);
    BarsAreAverages(list, names);
    forall avg ensures OfLength(rows, avg) == OfLength(bars, avg) {
      SortIsStable(bars, avg);
    }
    SortedBarsArePositive(list, names);
    widths := DrawBars(rows);
  }

  /** A timed decision took at least a millisecond, so no average is zero. */
  lemma BarsArePositive(list: seq<Decision>, names: seq<string>)
    requires NamesTimed(list, names)
    ensures forall i :: 0 <= i < |names| ==> BarsOf(list, names)[i].avg >= 1
  {
    forall i | 0 <= i < |names| ensures BarsOf(list, names)[i].avg >= 1 {
      var own := OfScheduler(list, names[i]);
      UntimedSumIsZero(own);
      RoundDivAtLeast(LatencySum(own), LatencyCount(own), 1);
    }
  }

  lemma WidthIsMonotone(shorter: int, longer: int, max: int)
    requires 1 <= shorter <= longer <= max
    ensures 4 <= Width(shorter, max) <= Width(longer, max) <= 100 && Width(max, max) == 100
  {
    RoundDivAtLeast(100 * shorter, max, RoundDiv(100 * shorter, max));
    RoundDivAtLeast(100 * longer, max, RoundDiv(100 * shorter, max));
    RoundDivAtLeast(100 * longer, max, 101);
    RoundDivAtLeast(100 * max, max, 100);
    RoundDivAtLeast(100 * max, max, 101);
  }

  lemma WidthsAreOrdered(rows: seq<Bar>, max: int)
    requires rows != [] && LongestFirst(rows) && rows[0].avg == max
    requires forall i :: 0 <= i < |rows| ==> 1 <= rows[i].avg <= max
    ensures forall i :: 0 <= i < |rows| ==> 4 <= Width(rows[i].avg, max) <= 100
    ensures forall i, j :: 0 <= i < j < |rows| ==> Width(rows[i].avg, max) >= Width(rows[j].avg, max)
    ensures Width(rows[0].avg, max) == 100
  {
    forall i | 0 <= i < |rows| ensures 4 <= Width(rows[i].avg, max) <= 100 {
      WidthIsMonotone(rows[i].avg, max, max);
    }
    forall i, j | 0 <= i < j < |rows| ensures Width(rows[i].avg, max) >= Width(rows[j].avg, max) {
      WidthIsMonotone(rows[j].avg, rows[i].avg, max);
    }
    WidthIsMonotone(max, max, max);
  }
}
