/**
 Monthly traffic accounting: raw per-node totals over 64-bit counters, and the signed
 correction that is laid over them for presentation.
 */
module Traffic {
  import opened Basics
  import opened Calendar

  const MAX_U64: int := 0xFFFF_FFFF_FFFF_FFFF

  type uint64 = x: int | 0 <= x <= MAX_U64
  type int64 = x: int | -MAX_I64 - 1 <= x <= MAX_I64

  /** Received (`Rx`) or sent (`Tx`) bytes; every total exists once for each. */
  datatype Direction = Rx | Tx

  datatype Sample = Sample(
    nodeID: string, bootID: string, netRx: uint64, netTx: uint64,
    monthlyRx: uint64, monthlyTx: uint64, receivedAt: Instant, collectedAt: Instant)
  {
    function Net(d: Direction): uint64 { if d.Rx? then netRx else netTx }
    function Monthly(d: Direction): uint64 { if d.Rx? then monthlyRx else monthlyTx }
    function WithMonthly(rx: uint64, tx: uint64): Sample { this.(monthlyRx := rx, monthlyTx := tx) }
  }

  /** The columns of a node row that the accounting reads. */
  datatype Node = Node(
    id: string, isMonitor: bool, resetDay: int,
    rxCorrection: int64, txCorrection: int64, correctionPeriod: Option<Instant>)
  {
    function Correction(d: Direction): int64 { if d.Rx? then rxCorrection else txCorrection }
  }

  const NO_NODE := Node("", false, 0, 0, 0, None)

  datatype TrafficState = TrafficState(
    bootID: string, lastRx: uint64, lastTx: uint64,
    monthlyRx: uint64, monthlyTx: uint64, periodStart: Instant)
  {
    function Last(d: Direction): uint64 { if d.Rx? then lastRx else lastTx }
    function Monthly(d: Direction): uint64 { if d.Rx? then monthlyRx else monthlyTx }
  }

  datatype Policy = Policy(
    resetDay: int, rxCorrection: int64, txCorrection: int64, periodStart: Option<Instant>)
  {
    function Correction(d: Direction): int64 { if d.Rx? then rxCorrection else txCorrection }
  }

  // ----- 64-bit arithmetic

  function SaturatingAdd(left: uint64, right: uint64): uint64 {
    if right > MAX_U64 - left then MAX_U64 else left + right
  }

  /** The magnitude of a negative adjustment, written so that the least int64 does not overflow. */
  function Magnitude(adjustment: int64): uint64
    requires adjustment < 0
  {
    var shifted: int64 := -(adjustment + 1);
    shifted + 1
  }

  function AddSigned(value: uint64, adjustment: int64): uint64 {
    if adjustment >= 0 then SaturatingAdd(value, adjustment)
    else if Magnitude(adjustment) >= value then 0
    else value - Magnitude(adjustment)
  }

  function SubtractSigned(value: uint64, adjustment: int64): uint64 {
    if adjustment >= 0 then (if adjustment >= value then 0 else value - adjustment)
    else SaturatingAdd(value, Magnitude(adjustment))
  }

  function Clamp(x: int): uint64 {
    if x < 0 then 0 else if x > MAX_U64 then MAX_U64 else x
  }

  /** Both signed operations are exact integer arithmetic clamped into the unsigned range. */
  lemma SignedArithmeticClamps(value: uint64, adjustment: int64)
    ensures AddSigned(value, adjustment) == Clamp(value + adjustment)
    ensures SubtractSigned(value, adjustment) == Clamp(value - adjustment)
  {}

  /** An adjustment can be taken back exactly when applying it stayed inside the unsigned range. */
  lemma SubtractUndoesAddIffInRange(value: uint64, adjustment: int64)
    ensures SubtractSigned(AddSigned(value, adjustment), adjustment) == value
       <==> 0 <= value + adjustment <= MAX_U64
  {
    SignedArithmeticClamps(value, adjustment);
    SignedArithmeticClamps(AddSigned(value, adjustment), adjustment);
  }

  // ----- the tracker as a value

  datatype Tracker = Tracker(states: map<string, TrafficState>, policies: map<string, Policy>)

  function PolicyFromNode(node: Node): Policy {
    Policy(node.resetDay, node.rxCorrection, node.txCorrection, node.correctionPeriod)
  }

  function MetricTime(sample: Sample): Instant {
    if sample.receivedAt != 0 then sample.receivedAt else sample.collectedAt
  }

  predicate CorrectionApplies(policy: Policy, at: Instant) {
    policy.periodStart.Some? && policy.periodStart.value == TrafficPeriodStart(at, policy.resetDay)
  }

  function Corrected(t: Tracker, nodeID: string, sample: Sample): Sample {
    if nodeID !in t.policies || !CorrectionApplies(t.policies[nodeID], MetricTime(sample)) then sample
    else
      sample.WithMonthly(AddSigned(sample.monthlyRx, t.policies[nodeID].rxCorrection),
                         AddSigned(sample.monthlyTx, t.policies[nodeID].txCorrection))
  }

  function Uncorrected(t: Tracker, nodeID: string, sample: Sample): Sample {
    if nodeID !in t.policies || !CorrectionApplies(t.policies[nodeID], MetricTime(sample)) then sample
    else
      sample.WithMonthly(SubtractSigned(sample.monthlyRx, t.policies[nodeID].rxCorrection),
                         SubtractSigned(sample.monthlyTx, t.policies[nodeID].txCorrection))
  }

  function Configured(t: Tracker, node: Node): Tracker {
    t.(policies := t.policies[node.id := PolicyFromNode(node)])
  }

  /** A fresh baseline: the counters of `sample` with nothing accumulated. */
  function Baseline(sample: Sample, period: Instant): TrafficState {
    TrafficState(sample.bootID, sample.netRx, sample.netTx, 0, 0, period)
  }

  predicate Continues(state: TrafficState, sample: Sample, d: Direction) {
    state.bootID == sample.bootID && sample.Net(d) >= state.Last(d)
  }

  /** The state of a node after one more sample in the billing period `period`. */
  function Advanced(state: TrafficState, sample: Sample, period: Instant): TrafficState {
    if state.periodStart != period then Baseline(sample, period)
    else
      TrafficState(
        sample.bootID, sample.netRx, sample.netTx,
        if Continues(state, sample, Rx) then SaturatingAdd(state.monthlyRx, sample.netRx - state.lastRx)
        else state.monthlyRx,
        if Continues(state, sample, Tx) then SaturatingAdd(state.monthlyTx, sample.netTx - state.lastTx)
        else state.monthlyTx,
        state.periodStart)
  }

  function Applied(t: Tracker, node: Node, sample: Sample, now: Instant): (Tracker, Sample) {
    var policy := if node.id in t.policies then t.policies[node.id] else PolicyFromNode(node);
    var period := TrafficPeriodStart(now, policy.resetDay);
    var state := if node.id in t.states then Advanced(t.states[node.id], sample, period)
                 else Baseline(sample, period);
    (Tracker(t.states[node.id := state], t.policies[node.id := policy]),
     sample.WithMonthly(state.monthlyRx, state.monthlyTx))
  }

  function LoadedState(sample: Sample, node: Node): TrafficState {
    TrafficState(sample.bootID, sample.netRx, sample.netTx, sample.monthlyRx, sample.monthlyTx,
                 TrafficPeriodStart(sample.receivedAt, node.resetDay))
  }

  function NodeOrZero(nodes: map<string, Node>, id: string): Node {
    if id in nodes then nodes[id] else NO_NODE
  }

  function LoadedStates(samples: map<string, Sample>, nodes: map<string, Node>): map<string, TrafficState> {
    map id | id in samples :: LoadedState(samples[id], NodeOrZero(nodes, id))
  }

  function LoadedPolicies(samples: map<string, Sample>, nodes: map<string, Node>): map<string, Policy> {
    map id | id in samples :: PolicyFromNode(NodeOrZero(nodes, id))
  }

  function Loaded(t: Tracker, samples: map<string, Sample>, nodes: map<string, Node>): Tracker {
    Tracker(t.states + LoadedStates(samples, nodes), t.policies + LoadedPolicies(samples, nodes))
  }

  lemma LoadedStatesExtend(samples: map<string, Sample>, id: string, sample: Sample, nodes: map<string, Node>)
    ensures LoadedStates(samples[id := sample], nodes)
         == LoadedStates(samples, nodes)[id := LoadedState(sample, NodeOrZero(nodes, id))]
  {
    hide LoadedState, NodeOrZero, TrafficPeriodStart;
  }

  lemma LoadedPoliciesExtend(samples: map<string, Sample>, id: string, sample: Sample, nodes: map<string, Node>)
    ensures LoadedPolicies(samples[id := sample], nodes)
         == LoadedPolicies(samples, nodes)[id := PolicyFromNode(NodeOrZero(nodes, id))]
  {
    hide PolicyFromNode, NodeOrZero;
  }

  lemma LoadedNothing(nodes: map<string, Node>)
    ensures LoadedStates(map[], nodes) == map[] && LoadedPolicies(map[], nodes) == map[]
  {}

  lemma UpdateAfterMerge<V>(base: map<string, V>, over: map<string, V>, id: string, v: V)
    ensures (base + over)[id := v] == base + over[id := v]
  {}

  // ----- the tracker as the object that request handlers share

  class TrafficTracker {
    var states: map<string, TrafficState>
    var policies: map<string, Policy>

    ghost function Model(): Tracker
      reads this
    {
      Tracker(states, policies)
    }

    constructor ()
      ensures Model() == Tracker(map[], map[])
    {
      states, policies := map[], map[];
    }

    method Load(samples: map<string, Sample>, nodes: map<string, Node>)
      modifies this
      ensures Model() == Loaded(old(Model()), samples, nodes)
    {
      hide LoadedStates, LoadedPolicies, TrafficPeriodStart;
      var todo := samples.Keys;
      ghost var done: map<string, Sample> := map[];
      LoadedNothing(nodes);
      while todo != {}
        invariant todo <= samples.Keys && done == samples - todo
        invariant states == old(states) + LoadedStates(done, nodes)
        invariant policies == old(policies) + LoadedPolicies(done, nodes)
      {
        var id :| id in todo;
        var node := if id in nodes then nodes[id] else NO_NODE;
        var state := TrafficState(
          samples[id].bootID, samples[id].netRx, samples[id].netTx,
          samples[id].monthlyRx, samples[id].monthlyTx,
          TrafficPeriodStart(samples[id].receivedAt, node.resetDay));
        UpdateAfterMerge(old(policies), LoadedPolicies(done, nodes), id, PolicyFromNode(node));
        UpdateAfterMerge(old(states), LoadedStates(done, nodes), id, state);
        policies := policies[id := PolicyFromNode(node)];
        states := states[id := state];
        LoadedStatesExtend(done, id, samples[id], nodes);
        LoadedPoliciesExtend(done, id, samples[id], nodes);
        done := done[id := samples[id]];
        todo := todo - {id};
      }
      assert done == samples;
    }

    method Apply(node: Node, sample: Sample, now: Instant) returns (raw: Sample)
      modifies this
      ensures (Model(), raw) == Applied(old(Model()), node, sample, now)
    {
      var policy := PolicyFromNode(node);
      if node.id in policies {
        policy := policies[node.id];
      } else {
        policies := policies[node.id := policy];
      }
      assert policies == old(policies)[node.id := policy];
      var period := TrafficPeriodStart(now, policy.resetDay);
      if node.id !in states || states[node.id].periodStart != period {
        states := states[node.id := Baseline(sample, period)];
        return sample.WithMonthly(0, 0);
      }
      var state := states[node.id];
      if state.bootID == sample.bootID && sample.netRx >= state.lastRx {
        state := state.(monthlyRx := SaturatingAdd(state.monthlyRx, sample.netRx - state.lastRx));
      }
      if state.bootID == sample.bootID && sample.netTx >= state.lastTx {
        state := state.(monthlyTx := SaturatingAdd(state.monthlyTx, sample.netTx - state.lastTx));
      }
      state := state.(bootID := sample.bootID, lastRx := sample.netRx, lastTx := sample.netTx);
      states := states[node.id := state];
      raw := sample.WithMonthly(state.monthlyRx, state.monthlyTx);
    }

    method ConfigureNode(node: Node)
      modifies this
      ensures Model() == Configured(old(Model()), node)
    {
      policies := policies[node.id := PolicyFromNode(node)];
    }

    method Correct(nodeID: string, sample: Sample) returns (r: Sample)
      ensures r == Corrected(Model(), nodeID, sample)
    {
      if nodeID !in policies || !CorrectionApplies(policies[nodeID], MetricTime(sample)) {
        return sample;
      }
      r := sample.(monthlyRx := AddSigned(sample.monthlyRx, policies[nodeID].rxCorrection));
      r := r.(monthlyTx := AddSigned(sample.monthlyTx, policies[nodeID].txCorrection));
    }

    method Uncorrect(nodeID: string, sample: Sample) returns (r: Sample)
      ensures r == Uncorrected(Model(), nodeID, sample)
    {
      if nodeID !in policies || !CorrectionApplies(policies[nodeID], MetricTime(sample)) {
        return sample;
      }
      r := sample.(monthlyRx := SubtractSigned(sample.monthlyRx, policies[nodeID].rxCorrection));
      r := r.(monthlyTx := SubtractSigned(sample.monthlyTx, policies[nodeID].txCorrection));
    }
  }

  // ----- what the accumulated total means

  /** Bytes that flowed from one sample to the next, if the same boot's counter did not go back. */
  function Delta(d: Direction, fromBoot: string, from: uint64, to: Sample): nat {
    if fromBoot == to.bootID && to.Net(d) >= from then to.Net(d) - from else 0
  }

  /** All bytes that the samples account for, as an unbounded sum. */
  function Used(d: Direction, fromBoot: string, from: uint64, samples: seq<Sample>): nat
    decreases |samples|
  {
    if samples == [] then 0
    else Delta(d, fromBoot, from, samples[0]) + Used(d, samples[0].bootID, samples[0].Net(d), samples[1..])
  }

  function AdvancedBy(state: TrafficState, samples: seq<Sample>, period: Instant): TrafficState
    decreases |samples|
  {
    if samples == [] then state
    else AdvancedBy(Advanced(state, samples[0], period), samples[1..], period)
  }

  /** Within a period the tracked total is the sum of the deltas, cut off at the largest uint64. */
  lemma {:induction false} TotalIsClampedUsage(state: TrafficState, samples: seq<Sample>, period: Instant, d: Direction)
    requires state.periodStart == period
    ensures var total := state.Monthly(d) + Used(d, state.bootID, state.Last(d), samples);
            AdvancedBy(state, samples, period).Monthly(d) == Clamp(total)
    ensures AdvancedBy(state, samples, period).periodStart == period
    decreases |samples|
  {
    if samples != [] {
      TotalIsClampedUsage(Advanced(state, samples[0], period), samples[1..], period, d);
    }
  }

  /** One boot's counters, none of them below its predecessor. */
  predicate Climbing(d: Direction, boot: string, from: uint64, samples: seq<Sample>)
    decreases |samples|
  {
    samples == [] ||
    (samples[0].bootID == boot && samples[0].Net(d) >= from && Climbing(d, boot, samples[0].Net(d), samples[1..]))
  }

  lemma {:induction false} ClimbingUsageTelescopes(d: Direction, boot: string, from: uint64, samples: seq<Sample>)
    requires samples != [] && Climbing(d, boot, from, samples)
    ensures samples[|samples| - 1].bootID == boot && samples[|samples| - 1].Net(d) >= from
    ensures Used(d, boot, from, samples) == samples[|samples| - 1].Net(d) - from
    decreases |samples|
  {
    if |samples| > 1 {
      ClimbingUsageTelescopes(d, boot, samples[0].Net(d), samples[1..]);
    }
  }

  /** What the database keeps of a counter: its columns are signed. */
  function StoredCounter(value: uint64): uint64 {
    if value > MAX_I64 then MAX_I64 else value
  }

  function Stored(sample: Sample): Sample {
    sample.(netRx := StoredCounter(sample.netRx), netTx := StoredCounter(sample.netTx),
            monthlyRx := StoredCounter(sample.monthlyRx), monthlyTx := StoredCounter(sample.monthlyTx))
  }

  /** The raw sample that is handed to the database when `state` is the tracker's state. */
  function Checkpoint(state: TrafficState, sample: Sample): Sample {
    sample.(bootID := state.bootID, netRx := state.lastRx, netTx := state.lastTx)
    .WithMonthly(state.monthlyRx, state.monthlyTx)
  }

  /** What the database cuts off a counter. */
  function Excess(value: uint64): nat { value - StoredCounter(value) }

  /**
   Restarting from a checkpoint of the period: whatever samples the stopped server missed, the next
   sample brings the same total as if it had seen them all, exactly if storing the checkpoint cut as
   much off the total as off the counter, which it does while both fit the signed columns, or the
   total is at the largest uint64 either way.
   */
  lemma {:induction false} RestartAgreesAtNextSample(
    state: TrafficState, checkpoint: Sample, node: Node, missed: seq<Sample>, next: Sample, d: Direction)
    requires state.periodStart == TrafficPeriodStart(checkpoint.receivedAt, node.resetDay)
    requires Climbing(d, state.bootID, state.Last(d), missed + [next])
    ensures var reloaded := LoadedState(Stored(Checkpoint(state, checkpoint)), node);
            var total := state.Monthly(d) + next.Net(d) - state.Last(d);
            Advanced(reloaded, next, state.periodStart).Monthly(d)
            == AdvancedBy(state, missed + [next], state.periodStart).Monthly(d)
            <==> || Excess(state.Monthly(d)) == Excess(state.Last(d))
                 || (total >= MAX_U64 && total - Excess(state.Monthly(d)) + Excess(state.Last(d)) >= MAX_U64)
  {
    hide TrafficPeriodStart;
    var reloaded := LoadedState(Stored(Checkpoint(state, checkpoint)), node);
    var samples := missed + [next];
    TotalIsClampedUsage(state, samples, state.periodStart, d);
    ClimbingUsageTelescopes(d, state.bootID, state.Last(d), samples);
    assert reloaded.Last(d) == StoredCounter(state.Last(d)) && reloaded.Monthly(d) == StoredCounter(state.Monthly(d));
    ReloadedTotal(reloaded, next, state.periodStart, d);
  }

  lemma ReloadedTotal(state: TrafficState, next: Sample, period: Instant, d: Direction)
    requires state.periodStart == period && state.bootID == next.bootID && next.Net(d) >= state.Last(d)
    ensures Advanced(state, next, period).Monthly(d) == Clamp(state.Monthly(d) + next.Net(d) - state.Last(d))
  {}

  /** A total beyond the signed columns is cut by the restart and stays short. */
  lemma RestartCutsLargeTotal(at: Instant, node: Node)
    ensures var period := TrafficPeriodStart(at, node.resetDay);
            var state := TrafficState("boot", 0, 0, MAX_I64 + 1, 0, period);
            var next := Sample("", "boot", 10, 0, 0, 0, at, at);
            var reloaded := LoadedState(Stored(Checkpoint(state, next)), node);
            && Advanced(state, next, period).monthlyRx == MAX_I64 + 11
            && Advanced(reloaded, next, period).monthlyRx == MAX_I64 + 10
  {
    hide TrafficPeriodStart;
  }

  /** A sample that carries no time of receipt is corrected by the period in which it was collected. */
  lemma UnreceivedSampleUsesCollectionTime(t: Tracker, nodeID: string, sample: Sample)
    requires sample.receivedAt == 0 && nodeID in t.policies
    ensures var policy := t.policies[nodeID];
            Corrected(t, nodeID, sample)
            == if policy.periodStart == Some(TrafficPeriodStart(sample.collectedAt, policy.resetDay))
               then sample.WithMonthly(Clamp(sample.monthlyRx + policy.rxCorrection),
                   Clamp(sample.monthlyTx + policy.txCorrection))
               else sample
  {
    hide TrafficPeriodStart;
    SignedArithmeticClamps(sample.monthlyRx, t.policies[nodeID].rxCorrection);
    SignedArithmeticClamps(sample.monthlyTx, t.policies[nodeID].txCorrection);
  }

  /**
   Loading takes over the samples of nodes that have no row as well: without a correction, and with
   months from the first.
   */
  lemma LoadedWithoutRow(t: Tracker, samples: map<string, Sample>, nodes: map<string, Node>, id: string)
    requires id in samples && id !in nodes
    ensures var loaded := Loaded(t, samples, nodes);
            && id in loaded.policies && loaded.policies[id].periodStart.None?
            && id in loaded.states && loaded.states[id].monthlyRx == samples[id].monthlyRx
            && loaded.states[id].monthlyTx == samples[id].monthlyTx
            && loaded.states[id].periodStart == TrafficPeriodStart(samples[id].receivedAt, 1)
  {
    hide TrafficPeriodStart;
    ResetDayOutsideMonth(samples[id].receivedAt, 0);
  }

  /** Loading leaves the nodes that have no sample as they were. */
  lemma LoadKeepsOthers(t: Tracker, samples: map<string, Sample>, nodes: map<string, Node>, id: string)
    requires id !in samples
    ensures var loaded := Loaded(t, samples, nodes);
            && (id in loaded.states <==> id in t.states) && (id in t.states ==> loaded.states[id] == t.states[id])
            && (id in loaded.policies <==> id in t.policies)
               && (id in t.policies ==> loaded.policies[id] == t.policies[id])
  {
    hide TrafficPeriodStart;
  }

}
