/**
 The handlers that accept samples and save or clear a traffic correction, acting together on
 the node table, the tracker and the hub.
 */
module TrafficSystem {
  import opened Basics
  import opened Calendar
  import opened Traffic

  const MAX_CORRECTION: int := MAX_I64

  /** Everything the handlers share. */
  datatype World = World(
    nodes: map<string, Node>, tracker: Tracker,
    latest: map<string, Sample>, lastPersist: map<string, Instant>)

  // ----- the hub

  function Published(w: World, sample: Sample, persistEvery: int): (World, bool) {
    var last := if sample.nodeID in w.lastPersist then w.lastPersist[sample.nodeID] else 0;
    var persist := last == 0 || sample.receivedAt - last >= persistEvery;
    (w.(latest := w.latest[sample.nodeID := sample],
        lastPersist := if persist then w.lastPersist[sample.nodeID := sample.receivedAt] else w.lastPersist),
     persist)
  }

  function Replaced(w: World, sample: Sample): World {
    w.(latest := w.latest[sample.nodeID := sample])
  }

  // ----- accepting a sample

  function Stamped(node: Node, sample: Sample, now: Instant): Sample {
    sample.(nodeID := node.id, receivedAt := now,
            collectedAt := if sample.collectedAt == 0 then now else sample.collectedAt)
  }

  function Accepted(w: World, node: Node, sample: Sample, persistEvery: int, now: Instant): (World, bool) {
    var (tracker, raw) := Applied(w.tracker, node, Stamped(node, sample, now), now);
    Published(w.(tracker := tracker), Corrected(tracker, node.id, raw), persistEvery)
  }

  // ----- saving and clearing a correction

  datatype Status = Status(available: bool, periodStart: Instant, rawRx: uint64, rawTx: uint64, rx: uint64, tx: uint64)

  function Snapshot(w: World, node: Node, now: Instant): Status {
    var periodStart := TrafficPeriodStart(now, node.resetDay);
    if node.id !in w.latest then Status(false, periodStart, 0, 0, 0, 0)
    else
      var sample := w.latest[node.id];
      var raw := Uncorrected(w.tracker, node.id, sample);
      Status(TrafficPeriodStart(sample.receivedAt, node.resetDay) == periodStart, periodStart,
             raw.monthlyRx, raw.monthlyTx, sample.monthlyRx, sample.monthlyTx)
  }

  function TrafficAdjustment(target: uint64, raw: uint64): int64
    requires target <= MAX_CORRECTION && raw <= MAX_CORRECTION
  {
    if target >= raw then target - raw else -(raw - target)
  }

  datatype Response = Done | NotFound | OutOfRange | Unavailable | RawOutOfRange | StoreFailed

  /** The writes of the save handler, from the status it captured beforehand. */
  function CommitSave(w: World, node: Node, current: Status, rx: uint64, tx: uint64): World
    requires rx <= MAX_CORRECTION && tx <= MAX_CORRECTION
    requires current.rawRx <= MAX_CORRECTION && current.rawTx <= MAX_CORRECTION
  {
    var saved := node.(rxCorrection := TrafficAdjustment(rx, current.rawRx),
                       txCorrection := TrafficAdjustment(tx, current.rawTx),
                       correctionPeriod := Some(current.periodStart));
    var w1 := w.(nodes := w.nodes[node.id := saved], tracker := Configured(w.tracker, saved));
    if node.id !in w1.latest then w1
    else
      var raw := Uncorrected(w1.tracker, node.id, w1.latest[node.id]).WithMonthly(current.rawRx, current.rawTx);
      Replaced(w1, Corrected(w1.tracker, node.id, raw))
  }

  function SaveCorrection(
    w: World, id: string, rx: uint64, tx: uint64, now: Instant, storeOk: bool): (World, Response) {
    if id !in w.nodes || !w.nodes[id].isMonitor then (w, NotFound)
    else if rx > MAX_CORRECTION || tx > MAX_CORRECTION then (w, OutOfRange)
    else
      var current := Snapshot(w, w.nodes[id], now);
      if !current.available then (w, Unavailable)
      else if current.rawRx > MAX_CORRECTION || current.rawTx > MAX_CORRECTION then (w, RawOutOfRange)
      else if !storeOk then (w, StoreFailed)
      else (CommitSave(w, w.nodes[id], current, rx, tx), Done)
  }

  function CommitClear(w: World, node: Node, current: Status): World {
    var cleared := node.(rxCorrection := 0, txCorrection := 0, correctionPeriod := None);
    var w1 := w.(nodes := w.nodes[node.id := cleared], tracker := Configured(w.tracker, cleared));
    if node.id !in w1.latest then w1
    else Replaced(w1, w1.latest[node.id].WithMonthly(current.rawRx, current.rawTx))
  }

  function ClearCorrection(w: World, id: string, now: Instant, storeOk: bool): (World, Response) {
    if id !in w.nodes || !w.nodes[id].isMonitor then (w, NotFound)
    else
      var current := Snapshot(w, w.nodes[id], now);
      if !storeOk then (w, StoreFailed) else (CommitClear(w, w.nodes[id], current), Done)
  }

  // ----- the handlers as methods on shared objects

  class Hub {
    var latest: map<string, Sample>
    var lastPersist: map<string, Instant>

    constructor ()
      ensures latest == map[] && lastPersist == map[]
    {
      latest, lastPersist := map[], map[];
    }

    method Publish(sample: Sample, persistEvery: int) returns (persist: bool)
      modifies this
      ensures latest == old(latest)[sample.nodeID := sample]
      ensures persist <==> (sample.nodeID !in old(lastPersist) || old(lastPersist)[sample.nodeID] == 0
                            || sample.receivedAt - old(lastPersist)[sample.nodeID] >= persistEvery)
      ensures lastPersist == if persist then old(lastPersist)[sample.nodeID := sample.receivedAt] else old(lastPersist)
    {
      latest := latest[sample.nodeID := sample];
      var last := if sample.nodeID in lastPersist then lastPersist[sample.nodeID] else 0;
      persist := last == 0 || sample.receivedAt - last >= persistEvery;
      if persist {
        lastPersist := lastPersist[sample.nodeID := sample.receivedAt];
      }
    }

    method ReplaceLatest(sample: Sample)
      modifies this
      ensures latest == old(latest)[sample.nodeID := sample]
      ensures lastPersist == old(lastPersist)
    {
      latest := latest[sample.nodeID := sample];
    }
  }

  class Api {
    var nodes: map<string, Node>
    const traffic: TrafficTracker
    const hub: Hub

    ghost function Model(): World
      reads this, traffic, hub
    {
      World(nodes, traffic.Model(), hub.latest, hub.lastPersist)
    }

    constructor (nodes: map<string, Node>, traffic: TrafficTracker, hub: Hub)
      ensures this.nodes == nodes && this.traffic == traffic && this.hub == hub
    {
      this.nodes, this.traffic, this.hub := nodes, traffic, hub;
    }

    method AcceptSample(node: Node, sample: Sample, persistEvery: int, now: Instant) returns (persist: bool)
      modifies traffic, hub
      ensures (Model(), persist) == Accepted(old(Model()), node, sample, persistEvery, now)
    {
      var stamped := sample.(nodeID := node.id, receivedAt := now);
      if stamped.collectedAt == 0 {
        stamped := stamped.(collectedAt := now);
      }
      var raw := traffic.Apply(node, stamped, now);
      var shown := traffic.Correct(node.id, raw);
      persist := hub.Publish(shown, persistEvery);
    }

    method TrafficCorrectionSnapshot(node: Node, now: Instant) returns (status: Status)
      ensures status == Snapshot(Model(), node, now)
    {
      var periodStart := TrafficPeriodStart(now, node.resetDay);
      if node.id !in hub.latest {
        return Status(false, periodStart, 0, 0, 0, 0);
      }
      var sample := hub.latest[node.id];
      var raw := traffic.Uncorrect(node.id, sample);
      status := Status(TrafficPeriodStart(sample.receivedAt, node.resetDay) == periodStart, periodStart,
                       raw.monthlyRx, raw.monthlyTx, sample.monthlyRx, sample.monthlyTx);
    }

    method SaveTrafficCorrection(id: string, rx: uint64, tx: uint64, now: Instant, storeOk: bool)
      returns (response: Response)
      requires id in nodes ==> nodes[id].id == id
      modifies this, traffic, hub
      ensures (Model(), response) == SaveCorrection(old(Model()), id, rx, tx, now, storeOk)
    {
      if id !in nodes || !nodes[id].isMonitor { return NotFound; }
      var node := nodes[id];
      if rx > MAX_CORRECTION || tx > MAX_CORRECTION { return OutOfRange; }
      var current := TrafficCorrectionSnapshot(node, now);
      if !current.available { return Unavailable; }
      if current.rawRx > MAX_CORRECTION || current.rawTx > MAX_CORRECTION { return RawOutOfRange; }
      if !storeOk { return StoreFailed; }
      node := node.(rxCorrection := TrafficAdjustment(rx, current.rawRx),
                    txCorrection := TrafficAdjustment(tx, current.rawTx),
                    correctionPeriod := Some(current.periodStart));
      nodes := nodes[id := node];
      traffic.ConfigureNode(node);
      if id in hub.latest {
        var raw := traffic.Uncorrect(id, hub.latest[id]);
        var shown := traffic.Correct(id, raw.WithMonthly(current.rawRx, current.rawTx));
        hub.ReplaceLatest(shown);
      }
      response := Done;
    }

    method ClearTrafficCorrection(id: string, now: Instant, storeOk: bool) returns (response: Response)
      requires id in nodes ==> nodes[id].id == id
      modifies this, traffic, hub
      ensures (Model(), response) == ClearCorrection(old(Model()), id, now, storeOk)
    {
      if id !in nodes || !nodes[id].isMonitor { return NotFound; }
      var node := nodes[id];
      var current := TrafficCorrectionSnapshot(node, now);
      if !storeOk { return StoreFailed; }
      node := node.(rxCorrection := 0, txCorrection := 0, correctionPeriod := None);
      nodes := nodes[id := node];
      traffic.ConfigureNode(node);
      if id in hub.latest {
        hub.ReplaceLatest(hub.latest[id].WithMonthly(current.rawRx, current.rawTx));
      }
      response := Done;
    }
  }

  // ----- the invariant that ties hub, tracker and node table together

  /** Whether the node's correction belongs to the billing period the tracker is in. */
  predicate Active(node: Node, state: TrafficState) {
    node.correctionPeriod.Some? && node.correctionPeriod.value == state.periodStart
  }

  /** What a reader of the hub should see for a raw total. */
  function Display(node: Node, state: TrafficState, d: Direction): int {
    if Active(node, state) then state.Monthly(d) + node.Correction(d) else state.Monthly(d)
  }

  ghost predicate EntryOk(node: Node, state: TrafficState, shown: Sample, clock: Instant) {
    && 0 < shown.receivedAt <= clock
    && state.periodStart == TrafficPeriodStart(shown.receivedAt, node.resetDay)
    && (node.correctionPeriod.Some? ==> node.correctionPeriod.value <= state.periodStart)
    && (forall d: Direction :: 0 <= Display(node, state, d))
    && (forall d: Direction :: shown.Monthly(d) == Clamp(Display(node, state, d)))
  }

  ghost predicate Consistent(w: World, clock: Instant) {
    && 0 <= clock
    && (forall id :: id in w.nodes ==> w.nodes[id].id == id)
    && w.latest.Keys == w.tracker.states.Keys <= w.tracker.policies.Keys <= w.nodes.Keys
    && (forall id :: id in w.tracker.policies ==> w.tracker.policies[id] == PolicyFromNode(w.nodes[id]))
    && (forall id :: id in w.nodes && id !in w.latest ==> w.nodes[id].correctionPeriod.None?)
    && (forall id :: id in w.latest ==>
          w.latest[id].nodeID == id && EntryOk(w.nodes[id], w.tracker.states[id], w.latest[id], clock))
  }

  ghost predicate RawInRange(w: World) {
    forall id, d: Direction :: id in w.tracker.states ==> w.tracker.states[id].Monthly(d) <= MAX_I64
  }

  // ----- each step keeps it

  lemma EntryOkLater(node: Node, state: TrafficState, shown: Sample, clock: Instant, now: Instant)
    requires EntryOk(node, state, shown, clock) && clock <= now
    ensures EntryOk(node, state, shown, now)
  {}

  lemma ClockMayAdvance(w: World, clock: Instant, now: Instant)
    requires Consistent(w, clock) && clock <= now
    ensures Consistent(w, now)
  {
    hide EntryOk;
    forall id | id in w.latest
      ensures EntryOk(w.nodes[id], w.tracker.states[id], w.latest[id], now)
    {
      EntryOkLater(w.nodes[id], w.tracker.states[id], w.latest[id], clock, now);
    }
  }

  /** A step that rewrites one node's row, policy, state and sample only has that entry to justify. */
  lemma ReplaceEntry(
    w: World, clock: Instant, now: Instant, id: string, node: Node, state: TrafficState, shown: Sample, w1: World)
    requires Consistent(w, clock) && clock <= now
    requires id in w.nodes && node.id == id && shown.nodeID == id
    requires w1.nodes == w.nodes[id := node]
    requires w1.tracker == Tracker(w.tracker.states[id := state], w.tracker.policies[id := PolicyFromNode(node)])
    requires w1.latest == w.latest[id := shown]
    requires EntryOk(node, state, shown, now)
    ensures Consistent(w1, now)
  {
    hide EntryOk;
    forall other | other in w1.latest
      ensures w1.latest[other].nodeID == other
      ensures EntryOk(w1.nodes[other], w1.tracker.states[other], w1.latest[other], now)
    {
      if other != id {
        EntryOkLater(w.nodes[other], w.tracker.states[other], w.latest[other], clock, now);
      }
    }
  }

  /** Applying the policy to a raw sample of the current period shows the displayed totals. */
  lemma CorrectedShowsDisplay(t: Tracker, node: Node, state: TrafficState, raw: Sample, d: Direction)
    requires node.id in t.policies && t.policies[node.id] == PolicyFromNode(node)
    requires raw.receivedAt != 0 && state.periodStart == TrafficPeriodStart(raw.receivedAt, node.resetDay)
    requires raw.Monthly(d) == state.Monthly(d)
    ensures Corrected(t, node.id, raw).Monthly(d) == Clamp(Display(node, state, d))
    ensures Corrected(t, node.id, raw) == raw.WithMonthly(Corrected(t, node.id, raw).monthlyRx,
            Corrected(t, node.id, raw).monthlyTx)
  {
    hide TrafficPeriodStart;
    SignedArithmeticClamps(state.Monthly(d), node.Correction(d));
  }

  /** Totals never fall within a period, so a correction that was displayable stays so. */
  lemma AdvanceKeepsDisplay(node: Node, state: TrafficState, sample: Sample, period: Instant, d: Direction)
    requires state.periodStart <= period
    requires node.correctionPeriod.Some? ==> node.correctionPeriod.value <= state.periodStart
    requires 0 <= Display(node, state, d)
    ensures 0 <= Display(node, Advanced(state, sample, period), d)
    ensures Advanced(state, sample, period).periodStart == period
  {}

  lemma AcceptKeepsConsistent(w: World, clock: Instant, id: string, sample: Sample, persistEvery: int, now: Instant)
    requires Consistent(w, clock) && clock <= now && 0 < now && id in w.nodes
    ensures Consistent(Accepted(w, w.nodes[id], sample, persistEvery, now).0, now)
  {
    hide TrafficPeriodStart;
    hide Advanced;
    var node := w.nodes[id];
    var period := TrafficPeriodStart(now, node.resetDay);
    var stamped := Stamped(node, sample, now);
    var (tracker, raw) := Applied(w.tracker, node, stamped, now);
    var w1 := Accepted(w, node, sample, persistEvery, now).0;
    var state := tracker.states[id];
    assert state.periodStart == period && forall d: Direction :: 0 <= Display(node, state, d) by {
      if id in w.latest {
        PeriodStartMonotone(w.latest[id].receivedAt, now, node.resetDay);
        forall d: Direction ensures 0 <= Display(node, state, d) && state.periodStart == period {
          AdvanceKeepsDisplay(node, w.tracker.states[id], stamped, period, d);
        }
        assert 0 <= Display(node, state, Rx);
      }
    }
    assert node.correctionPeriod.Some? ==> node.correctionPeriod.value <= state.periodStart by {
      if id in w.latest { PeriodStartMonotone(w.latest[id].receivedAt, now, node.resetDay); }
    }
    assert tracker.policies[id] == PolicyFromNode(node);
    forall d: Direction ensures w1.latest[id].Monthly(d) == Clamp(Display(node, state, d)) {
      CorrectedShowsDisplay(tracker, node, state, raw, d);
    }
    CorrectedShowsDisplay(tracker, node, state, raw, Rx);
    assert EntryOk(node, state, w1.latest[id], now);
    ReplaceEntry(w, clock, now, id, node, state, w1.latest[id], w1);
  }

  /** In a consistent world with in-range totals, undoing the correction yields the raw totals. */
  lemma UncorrectRecoversRaw(w: World, clock: Instant, id: string, d: Direction)
    requires Consistent(w, clock) && RawInRange(w) && id in w.latest
    ensures Uncorrected(w.tracker, id, w.latest[id]).Monthly(d) == w.tracker.states[id].Monthly(d)
  {
    hide TrafficPeriodStart;
    var node, state := w.nodes[id], w.tracker.states[id];
    assert 0 <= Display(node, state, d);
    SignedArithmeticClamps(w.latest[id].Monthly(d), node.Correction(d));
  }

  /** Publishing the captured raw totals under a new correction shows the targets. */
  lemma CommitSaveEntry(w: World, clock: Instant, id: string, current: Status, rx: uint64, tx: uint64)
    requires Consistent(w, clock) && id in w.latest
    requires rx <= MAX_CORRECTION && tx <= MAX_CORRECTION
    requires current.rawRx <= MAX_CORRECTION && current.rawTx <= MAX_CORRECTION
    requires current.periodStart == w.tracker.states[id].periodStart
    ensures var w1 := CommitSave(w, w.nodes[id], current, rx, tx);
            && id in w1.nodes && id in w1.tracker.states && id in w1.latest
            && w1.nodes == w.nodes[id := w1.nodes[id]] && w1.nodes[id].id == id
            && w1.nodes[id].resetDay == w.nodes[id].resetDay
            && w1.tracker == Tracker(w.tracker.states, w.tracker.policies[id := PolicyFromNode(w1.nodes[id])])
            && w1.latest == w.latest[id := w.latest[id].WithMonthly(rx, tx)]
            && Active(w1.nodes[id], w1.tracker.states[id])
            && w1.nodes[id].rxCorrection == rx - current.rawRx
            && w1.nodes[id].txCorrection == tx - current.rawTx
  {
    hide TrafficPeriodStart;
    SignedArithmeticClamps(current.rawRx, TrafficAdjustment(rx, current.rawRx));
    SignedArithmeticClamps(current.rawTx, TrafficAdjustment(tx, current.rawTx));
  }

  /** Under a correction up to the targets, showing the targets is right. */
  lemma SavedEntryOk(
    node: Node, saved: Node, state: TrafficState, shown: Sample, clock: Instant, now: Instant, rx: uint64, tx: uint64)
    requires EntryOk(node, state, shown, clock) && clock <= now && saved.resetDay == node.resetDay
             && Active(saved, state)
    requires saved.rxCorrection == rx - state.monthlyRx && saved.txCorrection == tx - state.monthlyTx
    ensures EntryOk(saved, state, shown.WithMonthly(rx, tx), now)
  {
    hide TrafficPeriodStart;
    forall d: Direction ensures Display(saved, state, d) == if d.Rx? then rx else tx {}
  }

  lemma SaveKeepsConsistent(w: World, clock: Instant, id: string, rx: uint64, tx: uint64, now: Instant, storeOk: bool)
    requires Consistent(w, clock) && RawInRange(w) && clock <= now
    ensures Consistent(SaveCorrection(w, id, rx, tx, now, storeOk).0, now)
    ensures SaveCorrection(w, id, rx, tx, now, storeOk).0.tracker.states == w.tracker.states
    ensures SaveCorrection(w, id, rx, tx, now, storeOk).1.Done? ==>
              var w1 := SaveCorrection(w, id, rx, tx, now, storeOk).0;
              id in w1.latest && w1.latest[id].monthlyRx == rx && w1.latest[id].monthlyTx == tx
              && Active(w1.nodes[id], w1.tracker.states[id])
  {
    hide TrafficPeriodStart, CommitSave, Uncorrected, RawInRange, EntryOk;
    var (w1, response) := SaveCorrection(w, id, rx, tx, now, storeOk);
    if response.Done? {
      var current := Snapshot(w, w.nodes[id], now);
      SnapshotIsCaptured(w, clock, id, now);
      assert CapturedRaw(current, Rx) == w.tracker.states[id].Monthly(Rx);
      assert CapturedRaw(current, Tx) == w.tracker.states[id].Monthly(Tx);
      CommitSaveEntry(w, clock, id, current, rx, tx);
      var state := w.tracker.states[id];
      SavedEntryOk(w.nodes[id], w1.nodes[id], state, w.latest[id], clock, now, rx, tx);
      assert w.tracker.states[id := state] == w.tracker.states;
      ReplaceEntry(w, clock, now, id, w1.nodes[id], state, w1.latest[id], w1);
    } else {
      ClockMayAdvance(w, clock, now);
    }
  }

  /** Without a correction, showing the raw totals is right. */
  lemma ClearedEntryOk(node: Node, cleared: Node, state: TrafficState, shown: Sample, clock: Instant, now: Instant)
    requires EntryOk(node, state, shown, clock) && clock <= now
    requires cleared.resetDay == node.resetDay && cleared.correctionPeriod.None?
    ensures EntryOk(cleared, state, shown.WithMonthly(state.monthlyRx, state.monthlyTx), now)
  {
    hide TrafficPeriodStart;
  }

  lemma ClearKeepsConsistent(w: World, clock: Instant, id: string, now: Instant, storeOk: bool)
    requires Consistent(w, clock) && RawInRange(w) && clock <= now
    ensures Consistent(ClearCorrection(w, id, now, storeOk).0, now)
    ensures ClearCorrection(w, id, now, storeOk).0.tracker.states == w.tracker.states
  {
    hide TrafficPeriodStart, Uncorrected, RawInRange, EntryOk;
    var (w1, response) := ClearCorrection(w, id, now, storeOk);
    if response.Done? && id in w.latest {
      UncorrectRecoversRaw(w, clock, id, Rx);
      UncorrectRecoversRaw(w, clock, id, Tx);
      var state := w.tracker.states[id];
      ClearedEntryOk(w.nodes[id], w1.nodes[id], state, w.latest[id], clock, now);
      assert w.tracker.states[id := state] == w.tracker.states;
      ReplaceEntry(w, clock, now, id, w1.nodes[id], state, w1.latest[id], w1);
    } else {
      ClockMayAdvance(w, clock, now);
    }
  }

  // ----- whole runs

  datatype Op =
    | Accept(id: string, sample: Sample, persistEvery: int, at: Instant)
    | Save(id: string, rx: uint64, tx: uint64, storeOk: bool, at: Instant)
    | Clear(id: string, storeOk: bool, at: Instant)

  /** One handled request; samples are accepted only from agents of a known node. */
  function Step(w: World, op: Op): World {
    match op
    case Accept(id, sample, persistEvery, at) =>
      if id in w.nodes then Accepted(w, w.nodes[id], sample, persistEvery, at).0 else w
    case Save(id, rx, tx, storeOk, at) => SaveCorrection(w, id, rx, tx, at, storeOk).0
    case Clear(id, storeOk, at) => ClearCorrection(w, id, at, storeOk).0
  }

  function Run(w: World, ops: seq<Op>): World {
    if ops == [] then w else Step(Run(w, ops[..|ops| - 1]), ops[|ops| - 1])
  }

  /** Requests come with a clock that starts after `clock` and never goes back. */
  predicate Timely(clock: Instant, ops: seq<Op>) {
    && (forall i :: 0 <= i < |ops| ==> 0 < ops[i].at && clock <= ops[i].at)
    && (forall i, j :: 0 <= i < j < |ops| ==> ops[i].at <= ops[j].at)
  }

  function LastTime(clock: Instant, ops: seq<Op>): Instant {
    if ops == [] then clock else ops[|ops| - 1].at
  }

  ghost predicate InRangeThroughout(w: World, ops: seq<Op>) {
    RawInRange(Run(w, ops)) && (ops != [] ==> InRangeThroughout(w, ops[..|ops| - 1]))
  }

  lemma {:induction false} RunStaysConsistent(w: World, clock: Instant, ops: seq<Op>)
    requires Consistent(w, clock) && Timely(clock, ops) && InRangeThroughout(w, ops)
    ensures Consistent(Run(w, ops), LastTime(clock, ops))
    decreases |ops|
  {
    hide Consistent, Accepted, SaveCorrection, ClearCorrection, RawInRange;
    if ops != [] {
      var before := ops[..|ops| - 1];
      RunStaysConsistent(w, clock, before);
      StepKeepsConsistent(Run(w, before), LastTime(clock, before), ops[|ops| - 1]);
    }
  }

  lemma StepKeepsConsistent(w: World, clock: Instant, op: Op)
    requires Consistent(w, clock) && RawInRange(w) && clock <= op.at && 0 < op.at
    ensures Consistent(Step(w, op), op.at)
  {
    hide Consistent, Accepted, SaveCorrection, ClearCorrection, RawInRange;
    match op
    case Accept(id, sample, persistEvery, at) =>
      if id in w.nodes {
        AcceptKeepsConsistent(w, clock, id, sample, persistEvery, at);
      } else {
        ClockMayAdvance(w, clock, at);
      }
    case Save(id, rx, tx, storeOk, at) => SaveKeepsConsistent(w, clock, id, rx, tx, at, storeOk);
    case Clear(id, storeOk, at) => ClearKeepsConsistent(w, clock, id, at, storeOk);
  }

  /** A server that starts without samples, over nodes that have no correction yet. */
  function Fresh(nodes: map<string, Node>): World {
    World(nodes, Tracker(map[], map[]), map[], map[])
  }

  /**
   After every run the hub shows each node's raw totals under the node's correction, and
   undoing the correction gives the raw totals back.
   */
  lemma {:induction false} HubShowsCorrectedTotals(nodes: map<string, Node>, ops: seq<Op>, id: string)
    requires forall n :: n in nodes ==> nodes[n].id == n && nodes[n].correctionPeriod.None?
    requires Timely(0, ops) && InRangeThroughout(Fresh(nodes), ops)
    requires id in Run(Fresh(nodes), ops).latest
    ensures var w := Run(Fresh(nodes), ops);
            && id in w.tracker.states
            && var shown, state := w.latest[id], w.tracker.states[id];
               var raw := shown.WithMonthly(state.monthlyRx, state.monthlyTx);
               && shown == Corrected(w.tracker, id, raw)
               && raw == Uncorrected(w.tracker, id, shown)
  {
    hide TrafficPeriodStart;
    var w := Run(Fresh(nodes), ops);
    assert Consistent(Fresh(nodes), 0);
    RunStaysConsistent(Fresh(nodes), 0, ops);
    var clock := LastTime(0, ops);
    var shown, state := w.latest[id], w.tracker.states[id];
    var raw := shown.WithMonthly(state.monthlyRx, state.monthlyTx);
    UncorrectRecoversRaw(w, clock, id, Rx);
    UncorrectRecoversRaw(w, clock, id, Tx);
    CorrectedShowsDisplay(w.tracker, w.nodes[id], state, raw, Rx);
    CorrectedShowsDisplay(w.tracker, w.nodes[id], state, raw, Tx);
    assert shown.Monthly(Rx) == Clamp(Display(w.nodes[id], state, Rx));
    assert shown.Monthly(Tx) == Clamp(Display(w.nodes[id], state, Tx));
  }

  // ----- a saved target counts on from there

  /** Requests that neither save nor clear the node's correction nor leave the billing period. */
  predicate LeavesCorrection(id: string, resetDay: int, period: Instant, op: Op) {
    op.id != id || (op.Accept? && TrafficPeriodStart(op.at, resetDay) == period)
  }

  function SamplesOf(ops: seq<Op>, id: string): seq<Sample> {
    if ops == [] then []
    else
      var last := ops[|ops| - 1];
      SamplesOf(ops[..|ops| - 1], id) + if last.Accept? && last.id == id then [last.sample] else []
  }

  lemma {:induction false} AdvancedByAppend(state: TrafficState, samples: seq<Sample>, next: Sample, period: Instant)
    ensures AdvancedBy(state, samples + [next], period) == Advanced(AdvancedBy(state, samples, period), next, period)
    decreases |samples|
  {
    hide Advanced;
    if samples == [] {
      assert ([] + [next])[1..] == [];
      assert AdvancedBy(Advanced(state, next, period), [], period) == Advanced(state, next, period);
    } else {
      assert (samples + [next])[1..] == samples[1..] + [next];
      AdvancedByAppend(Advanced(state, samples[0], period), samples[1..], next, period);
    }
  }

  /** Saving and clearing for one node leave the others alone, and every state. */
  lemma CorrectionElsewhere(w: World, other: string, rx: uint64, tx: uint64, now: Instant, storeOk: bool, id: string)
    requires other != id && id in w.nodes && (other in w.nodes ==> w.nodes[other].id == other)
    ensures var saved, cleared := SaveCorrection(w, other, rx, tx, now, storeOk).0,
            ClearCorrection(w, other, now, storeOk).0;
            && id in saved.nodes && saved.nodes[id] == w.nodes[id] && saved.tracker.states == w.tracker.states
            && id in cleared.nodes && cleared.nodes[id] == w.nodes[id] && cleared.tracker.states == w.tracker.states
  {
    hide TrafficPeriodStart, Uncorrected, Corrected;
  }

  /** Requests for other nodes change nothing of this node; its samples advance its state. */
  lemma StepOnNode(w: World, clock: Instant, id: string, op: Op)
    requires Consistent(w, clock) && id in w.latest
    requires op.id != id || op.Accept?
    ensures var w1 := Step(w, op);
            && id in w1.nodes && id in w1.tracker.states && w1.nodes[id] == w.nodes[id]
            && w1.tracker.states[id] ==
               if op.id == id then Advanced(w.tracker.states[id], op.sample,
                   TrafficPeriodStart(op.at, w.nodes[id].resetDay))
               else w.tracker.states[id]
  {
    hide TrafficPeriodStart, EntryOk, Corrected, SaveCorrection, ClearCorrection, Advanced;
    match op
    case Save(other, rx, tx, storeOk, at) => CorrectionElsewhere(w, other, rx, tx, at, storeOk, id);
    case Clear(other, storeOk, at) => CorrectionElsewhere(w, other, 0, 0, at, storeOk, id);
    case Accept(other, sample, persistEvery, at) =>
      if other == id { AcceptAdvances(w, id, sample, persistEvery, at); }
  }

  lemma {:induction false} RunOnNode(w: World, clock: Instant, id: string, ops: seq<Op>, period: Instant)
    requires Consistent(w, clock) && Timely(clock, ops) && InRangeThroughout(w, ops)
    requires id in w.latest
    requires forall i :: 0 <= i < |ops| ==> LeavesCorrection(id, w.nodes[id].resetDay, period, ops[i])
    ensures var w1 := Run(w, ops);
            && id in w1.nodes && id in w1.tracker.states && w1.nodes[id] == w.nodes[id]
            && w1.tracker.states[id] == AdvancedBy(w.tracker.states[id], SamplesOf(ops, id), period)
    decreases |ops|
  {
    hide TrafficPeriodStart, Advanced, Step, RawInRange, Consistent, AdvancedBy;
    ConsistentAgent(w, clock, id);
    if ops == [] {
      NoSamplesNoAdvance(w.tracker.states[id], period);
    } else {
      var before, last := ops[..|ops| - 1], ops[|ops| - 1];
      RunOnNode(w, clock, id, before, period);
      RunStaysConsistent(w, clock, before);
      ConsistentAgent(Run(w, before), LastTime(clock, before), id);
      assert LeavesCorrection(id, w.nodes[id].resetDay, period, last);
      StepOnNode(Run(w, before), LastTime(clock, before), id, last);
      if last.id == id {
        AdvancedByAppend(w.tracker.states[id], SamplesOf(before, id), last.sample, period);
      } else {
        assert SamplesOf(before, id) + [] == SamplesOf(before, id);
      }
    }
  }

  lemma {:induction false} NoSamplesNoAdvance(state: TrafficState, period: Instant)
    ensures AdvancedBy(state, [], period) == state
  {}

  /**
   Once a target is saved, the hub shows that target plus the traffic counted since, for as long
   as the billing period lasts and nobody saves or clears again.
   */
  lemma {:induction false} SavedTargetPlusTraffic(
    w: World, clock: Instant, id: string, rx: uint64, tx: uint64, now: Instant, w1: World,
    ops: seq<Op>, period: Instant, d: Direction)
    requires Consistent(w, clock) && RawInRange(w) && clock <= now && 0 < now
    requires SaveCorrection(w, id, rx, tx, now, true) == (w1, Done)
    requires Timely(now, ops) && InRangeThroughout(w1, ops)
    requires id in w.nodes && period == TrafficPeriodStart(now, w.nodes[id].resetDay)
    requires forall i :: 0 <= i < |ops| ==> LeavesCorrection(id, w.nodes[id].resetDay, period, ops[i])
    ensures id in w.tracker.states && id in Run(w1, ops).latest
    ensures var before := w.tracker.states[id];
            Run(w1, ops).latest[id].Monthly(d)
            == (if d.Rx? then rx else tx) + Used(d, before.bootID, before.Last(d), SamplesOf(ops, id))
  {
    hide TrafficPeriodStart, Run, Consistent, EntryOk, RawInRange, Display, Clamp, SaveCorrection, Used, AdvancedBy,
         SamplesOf;
    SaveSetsCorrection(w, clock, id, rx, tx, now);
    SaveKeepsConsistent(w, clock, id, rx, tx, now, true);
    RunOnNode(w1, now, id, ops, period);
    RunStaysConsistent(w1, now, ops);
    var before, samples := w.tracker.states[id], SamplesOf(ops, id);
    TotalIsClampedUsage(before, samples, period, d);
    ShownInRange(Run(w1, ops), LastTime(now, ops), id, d);
    DisplayIsTargetPlusUsage(w1.nodes[id], before, Run(w1, ops).tracker.states[id],
                             if d.Rx? then rx else tx, Used(d, before.bootID, before.Last(d), samples), d);
  }

  lemma ShownInRange(w: World, clock: Instant, id: string, d: Direction)
    requires Consistent(w, clock) && RawInRange(w) && id in w.tracker.states
    ensures id in w.latest && id in w.nodes
    ensures w.tracker.states[id].Monthly(d) <= MAX_I64
    ensures w.latest[id].Monthly(d) == Display(w.nodes[id], w.tracker.states[id], d)
  {
    hide TrafficPeriodStart;
    assert 0 <= Display(w.nodes[id], w.tracker.states[id], d);
  }

  lemma DisplayIsTargetPlusUsage(
    node: Node, before: TrafficState, after: TrafficState, target: uint64, used: nat, d: Direction)
    requires node.correctionPeriod == Some(before.periodStart) && after.periodStart == before.periodStart
    requires node.Correction(d) == target - before.Monthly(d)
    requires after.Monthly(d) == Clamp(before.Monthly(d) + used) && after.Monthly(d) <= MAX_I64
    ensures Display(node, after, d) == target + used
  {}

  lemma SaveSetsCorrection(w: World, clock: Instant, id: string, rx: uint64, tx: uint64, now: Instant)
    requires Consistent(w, clock) && RawInRange(w) && clock <= now
    requires SaveCorrection(w, id, rx, tx, now, true).1.Done?
    ensures var w1 := SaveCorrection(w, id, rx, tx, now, true).0;
            && id in w.tracker.states && id in w1.nodes
            && w1.nodes[id].resetDay == w.nodes[id].resetDay
            && w.tracker.states[id].periodStart == TrafficPeriodStart(now, w.nodes[id].resetDay)
            && w1.nodes[id].correctionPeriod == Some(w.tracker.states[id].periodStart)
            && w1.nodes[id].rxCorrection == rx - w.tracker.states[id].monthlyRx
            && w1.nodes[id].txCorrection == tx - w.tracker.states[id].monthlyTx
  {
    hide TrafficPeriodStart, CommitSave;
    UncorrectRecoversRaw(w, clock, id, Rx);
    UncorrectRecoversRaw(w, clock, id, Tx);
    CommitSaveEntry(w, clock, id, Snapshot(w, w.nodes[id], now), rx, tx);
  }

  // ----- reading a consistent world

  function CapturedRaw(current: Status, d: Direction): uint64 { if d.Rx? then current.rawRx else current.rawTx }

  /** A status captured in this billing period, at no more than the present totals, or in an earlier one. */
  ghost predicate CapturedEarlier(w: World, id: string, current: Status) {
    && id in w.tracker.states
    && current.periodStart <= w.tracker.states[id].periodStart
    && (current.periodStart == w.tracker.states[id].periodStart ==>
          forall d: Direction :: CapturedRaw(current, d) <= w.tracker.states[id].Monthly(d))
  }

  /** The hub shows what it should for a node and a direction. */
  predicate HubRight(w: World, id: string, d: Direction) {
    && id in w.latest && id in w.nodes && id in w.tracker.states
    && w.latest[id].Monthly(d) == Clamp(Display(w.nodes[id], w.tracker.states[id], d))
  }

  /** A snapshot that a save may use holds the tracker's period and raw totals. */
  lemma SnapshotIsCaptured(w: World, clock: Instant, id: string, now: Instant)
    requires Consistent(w, clock) && RawInRange(w) && id in w.latest
    requires Snapshot(w, w.nodes[id], now).available
    ensures var current := Snapshot(w, w.nodes[id], now);
            && CapturedEarlier(w, id, current) && current.periodStart == w.tracker.states[id].periodStart
            && forall d: Direction :: CapturedRaw(current, d) == w.tracker.states[id].Monthly(d)
  {
    hide TrafficPeriodStart, Uncorrected;
    UncorrectRecoversRaw(w, clock, id, Rx);
    UncorrectRecoversRaw(w, clock, id, Tx);
  }

  lemma AdvanceKeepsCaptured(state: TrafficState, sample: Sample, period: Instant, d: Direction)
    requires state.periodStart <= period
    ensures Advanced(state, sample, period).periodStart == period
    ensures state.periodStart == period ==> state.Monthly(d) <= Advanced(state, sample, period).Monthly(d)
  {}

  /** What accepting a sample does to the node's state and row, whatever the hub shows. */
  lemma AcceptAdvances(w: World, id: string, sample: Sample, persistEvery: int, now: Instant)
    requires id in w.nodes && w.nodes[id].id == id && id in w.tracker.states
    requires id in w.tracker.policies && w.tracker.policies[id] == PolicyFromNode(w.nodes[id])
    ensures var w1 := Accepted(w, w.nodes[id], sample, persistEvery, now).0;
            && w1.nodes == w.nodes && id in w1.tracker.states
            && w1.tracker.states[id] == Advanced(w.tracker.states[id], sample,
               TrafficPeriodStart(now, w.nodes[id].resetDay))
  {
    hide TrafficPeriodStart, Corrected;
  }

  lemma ConsistentAgent(w: World, clock: Instant, id: string)
    requires Consistent(w, clock) && (id in w.latest || id in w.tracker.states)
    ensures id in w.latest && id in w.tracker.states && id in w.nodes && w.nodes[id].id == id
    ensures id in w.tracker.policies && w.tracker.policies[id] == PolicyFromNode(w.nodes[id])
  {
    hide EntryOk;
  }

  lemma SaveChangesOneNode(w: World, clock: Instant, id: string, rx: uint64, tx: uint64, now: Instant)
    requires Consistent(w, clock) && RawInRange(w)
    requires SaveCorrection(w, id, rx, tx, now, true).1.Done?
    ensures var w1 := SaveCorrection(w, id, rx, tx, now, true).0;
            && id in w1.nodes && w1.nodes == w.nodes[id := w1.nodes[id]] && w1.nodes[id].id == id
            && w1.tracker.policies == w.tracker.policies[id := PolicyFromNode(w1.nodes[id])]
            && w1.lastPersist == w.lastPersist && id in w1.latest && w1.latest == w.latest[id := w1.latest[id]]
  {
    hide TrafficPeriodStart, EntryOk, RawInRange, Uncorrected, CommitSave;
    ConsistentIds(w, clock);
    var current := Snapshot(w, w.nodes[id], now);
    SnapshotIsCaptured(w, clock, id, now);
    CommitSaveEntry(w, clock, id, current, rx, tx);
    CommitSaveKeepsSchedule(w, w.nodes[id], current, rx, tx);
  }

  lemma CommitSaveKeepsSchedule(w: World, node: Node, current: Status, rx: uint64, tx: uint64)
    requires rx <= MAX_CORRECTION && tx <= MAX_CORRECTION
    requires current.rawRx <= MAX_CORRECTION && current.rawTx <= MAX_CORRECTION
    ensures CommitSave(w, node, current, rx, tx).lastPersist == w.lastPersist
  {
    hide TrafficPeriodStart, Uncorrected, Corrected;
  }

  lemma ConsistentIds(w: World, clock: Instant)
    requires Consistent(w, clock)
    ensures forall id :: id in w.nodes ==> w.nodes[id].id == id
    ensures forall id :: id in w.latest ==> w.latest[id].nodeID == id
  {
    hide EntryOk;
  }

  // ----- what the handlers answer

  /** What a save and a clear make of the node and the hub when they succeed, and that they change nothing otherwise. */
  lemma SaveDoneExactlyWhen(w: World, clock: Instant, id: string, rx: uint64, tx: uint64, now: Instant, storeOk: bool)
    requires Consistent(w, clock) && RawInRange(w)
    ensures var (w1, response) := SaveCorrection(w, id, rx, tx, now, storeOk);
            && (response.Done? <==>
                  && id in w.nodes && w.nodes[id].isMonitor && rx <= 0x7FFF_FFFF_FFFF_FFFF
                     && tx <= 0x7FFF_FFFF_FFFF_FFFF
                  && id in w.tracker.states
                     && w.tracker.states[id].periodStart == TrafficPeriodStart(now, w.nodes[id].resetDay)
                  && storeOk)
            && (!response.Done? ==> w1 == w)
  {
    hide TrafficPeriodStart, CommitSave, Uncorrected, RawInRange;
    if id in w.latest {
      UncorrectRecoversRaw(w, clock, id, Rx);
      UncorrectRecoversRaw(w, clock, id, Tx);
      ShownInRange(w, clock, id, Rx);
      ShownInRange(w, clock, id, Tx);
    }
  }

  /** Which reason a rejected save gives. */
  lemma SaveRejections(w: World, clock: Instant, id: string, rx: uint64, tx: uint64, now: Instant)
    requires Consistent(w, clock) && RawInRange(w)
    ensures var response := SaveCorrection(w, id, rx, tx, now, false).1;
            var known := id in w.nodes && w.nodes[id].isMonitor;
            && (response.NotFound? <==> !known)
            && (response.OutOfRange? <==> known && (rx > 0x7FFF_FFFF_FFFF_FFFF || tx > 0x7FFF_FFFF_FFFF_FFFF))
            && (response.StoreFailed? <==> SaveCorrection(w, id, rx, tx, now, true).1.Done?)
            && !response.RawOutOfRange?
  {
    hide TrafficPeriodStart, CommitSave;
    SaveDoneExactlyWhen(w, clock, id, rx, tx, now, true);
  }

  /**
   A clear succeeds for every monitor if the store does; the row has no correction then and the hub
   shows raw totals.
   */
  lemma ClearShowsRawTotals(w: World, clock: Instant, id: string, now: Instant, storeOk: bool, d: Direction)
    requires Consistent(w, clock) && RawInRange(w)
    ensures var (w1, response) := ClearCorrection(w, id, now, storeOk);
            && (response.Done? <==> id in w.nodes && w.nodes[id].isMonitor && storeOk)
            && (!response.Done? ==> w1 == w)
            && (response.Done? ==>
                  && id in w1.nodes && w1.nodes[id].correctionPeriod.None?
                  && w1.nodes[id].rxCorrection == 0 && w1.nodes[id].txCorrection == 0
                  && (id in w.tracker.states ==>
                        id in w1.latest && w1.latest[id].Monthly(d) == w.tracker.states[id].Monthly(d)))
  {
    hide TrafficPeriodStart, Uncorrected, RawInRange;
    if id in w.latest { UncorrectRecoversRaw(w, clock, id, d); }
  }

  /** The status tells the totals that are shown and, beneath them, the raw ones. */
  lemma SnapshotTells(w: World, clock: Instant, id: string, now: Instant)
    requires Consistent(w, clock) && RawInRange(w) && id in w.latest
    ensures var status := Snapshot(w, w.nodes[id], now);
            && status.rx == w.latest[id].monthlyRx && status.tx == w.latest[id].monthlyTx
            && status.rawRx == w.tracker.states[id].monthlyRx && status.rawTx == w.tracker.states[id].monthlyTx
            && status.periodStart == TrafficPeriodStart(now, w.nodes[id].resetDay)
            && (status.available <==> w.tracker.states[id].periodStart == status.periodStart)
  {
    hide TrafficPeriodStart, Uncorrected, RawInRange;
    UncorrectRecoversRaw(w, clock, id, Rx);
    UncorrectRecoversRaw(w, clock, id, Tx);
  }

  /** What goes to the hub is the sample that came in, stamped, with nothing but its totals rewritten. */
  lemma AcceptShowsSample(w: World, node: Node, sample: Sample, persistEvery: int, now: Instant)
    ensures var w1 := Accepted(w, node, sample, persistEvery, now).0;
            && node.id in w1.latest && var shown := w1.latest[node.id];
               && shown.nodeID == node.id && shown.bootID == sample.bootID
               && shown.netRx == sample.netRx && shown.netTx == sample.netTx && shown.receivedAt == now
               && shown.collectedAt == if sample.collectedAt != 0 then sample.collectedAt else now
  {
    hide TrafficPeriodStart, Advanced;
  }

  // ----- a node's traffic from the start of a period

  /**
   The first sample of a node, or of a new billing period, counts nothing: it only sets the counters to
   go on from.
   */
  lemma FirstSampleCountsNothing(w: World, clock: Instant, id: string, sample: Sample, persistEvery: int, now: Instant)
    requires Consistent(w, clock) && id in w.nodes
    requires id in w.tracker.states ==> w.tracker.states[id].periodStart != TrafficPeriodStart(now,
             w.nodes[id].resetDay)
    ensures var w1 := Accepted(w, w.nodes[id], sample, persistEvery, now).0;
            && id in w1.tracker.states && w1.nodes == w.nodes
            && w1.tracker.states[id] == TrafficState(sample.bootID, sample.netRx, sample.netTx, 0, 0,
                                                     TrafficPeriodStart(now, w.nodes[id].resetDay))
  {
    hide TrafficPeriodStart, Corrected, EntryOk;
  }

  /** Other nodes' requests leave a node without a state without one. */
  lemma StepElsewhere(w: World, clock: Instant, id: string, op: Op)
    requires Consistent(w, clock) && id in w.nodes && op.id != id
    ensures var w1 := Step(w, op);
            && id in w1.nodes && w1.nodes[id] == w.nodes[id]
            && (id in w1.tracker.states <==> id in w.tracker.states)
            && (id in w.tracker.states ==> w1.tracker.states[id] == w.tracker.states[id])
  {
    hide TrafficPeriodStart, EntryOk, Corrected, SaveCorrection, ClearCorrection, Advanced;
    match op
    case Save(other, rx, tx, storeOk, at) => CorrectionElsewhere(w, other, rx, tx, at, storeOk, id);
    case Clear(other, storeOk, at) => CorrectionElsewhere(w, other, 0, 0, at, storeOk, id);
    case Accept(other, sample, persistEvery, at) =>
  }

  /** No sample of the node has come in the period yet. */
  predicate NotYetIn(w: World, id: string, period: Instant) {
    id in w.tracker.states ==> w.tracker.states[id].periodStart != period
  }

  /** The node's state after a run within a period in which it starts from its first sample. */
  lemma {:induction false} RunFromFirstSample(w: World, clock: Instant, id: string, ops: seq<Op>, period: Instant)
    requires Consistent(w, clock) && Timely(clock, ops) && InRangeThroughout(w, ops)
    requires id in w.nodes && NotYetIn(w, id, period)
    requires forall i :: 0 <= i < |ops| ==> LeavesCorrection(id, w.nodes[id].resetDay, period, ops[i])
    ensures var w1, samples := Run(w, ops), SamplesOf(ops, id);
            && id in w1.nodes && w1.nodes[id] == w.nodes[id]
            && if samples == [] then NotYetIn(w1, id, period)
               else
                 && id in w1.tracker.states
                 && w1.tracker.states[id] == AdvancedBy(Baseline(samples[0], period), samples[1..], period)
    decreases |ops|
  {
    hide TrafficPeriodStart, Advanced, Step, RawInRange, Consistent, AdvancedBy, Baseline;
    if ops != [] {
      var before, last := ops[..|ops| - 1], ops[|ops| - 1];
      RunFromFirstSample(w, clock, id, before, period);
      RunStaysConsistent(w, clock, before);
      assert LeavesCorrection(id, w.nodes[id].resetDay, period, last);
      StepFromFirstSample(Run(w, before), LastTime(clock, before), id, SamplesOf(before, id), last, period);
    }
  }

  lemma {:induction false} StepFromFirstSample(
    w: World, clock: Instant, id: string, samples: seq<Sample>, op: Op, period: Instant)
    requires Consistent(w, clock) && id in w.nodes
    requires LeavesCorrection(id, w.nodes[id].resetDay, period, op)
    requires if samples == [] then NotYetIn(w, id, period)
             else
               && id in w.tracker.states
               && w.tracker.states[id] == AdvancedBy(Baseline(samples[0], period), samples[1..], period)
    ensures var w1 := Step(w, op);
            var more := samples + if op.Accept? && op.id == id then [op.sample] else [];
            && id in w1.nodes && w1.nodes[id] == w.nodes[id]
            && if more == [] then NotYetIn(w1, id, period)
               else
                 && id in w1.tracker.states
                 && w1.tracker.states[id] == AdvancedBy(Baseline(more[0], period), more[1..], period)
  {
    hide TrafficPeriodStart, Advanced, Consistent, AdvancedBy, Accepted, SaveCorrection, ClearCorrection;
    if op.id != id {
      StepElsewhere(w, clock, id, op);
      assert samples + [] == samples;
    } else if samples == [] {
      FirstSampleCountsNothing(w, clock, id, op.sample, op.persistEvery, op.at);
      NoSamplesNoAdvance(Baseline(op.sample, period), period);
      assert ([] + [op.sample])[1..] == [];
    } else {
      ConsistentAgent(w, clock, id);
      StepOnNode(w, clock, id, op);
      AdvancedByAppend(Baseline(samples[0], period), samples[1..], op.sample, period);
      assert (samples + [op.sample])[1..] == samples[1..] + [op.sample];
    }
  }

  /**
   Over every run within a billing period, for a node that starts in it from its first sample and has
   no correction saved for it, the hub shows exactly the traffic from that sample on.
   */
  lemma {:induction false} HubShowsTrafficSinceFirstSample(
    w: World, clock: Instant, id: string, ops: seq<Op>, period: Instant, d: Direction)
    requires Consistent(w, clock) && Timely(clock, ops) && InRangeThroughout(w, ops)
    requires id in w.nodes && NotYetIn(w, id, period) && w.nodes[id].correctionPeriod != Some(period)
    requires forall i :: 0 <= i < |ops| ==> LeavesCorrection(id, w.nodes[id].resetDay, period, ops[i])
    requires SamplesOf(ops, id) != []
    ensures var first, rest := SamplesOf(ops, id)[0], SamplesOf(ops, id)[1..];
            && id in Run(w, ops).latest
            && Run(w, ops).latest[id].Monthly(d) == Used(d, first.bootID, first.Net(d), rest)
  {
    hide TrafficPeriodStart, Run, Consistent, RawInRange, Used, AdvancedBy, SamplesOf;
    var samples := SamplesOf(ops, id);
    RunFromFirstSample(w, clock, id, ops, period);
    RunStaysConsistent(w, clock, ops);
    InRangeAtEnd(w, ops);
    TotalIsClampedUsage(Baseline(samples[0], period), samples[1..], period, d);
    ShownInRange(Run(w, ops), LastTime(clock, ops), id, d);
  }

  lemma {:induction false} InRangeAtEnd(w: World, ops: seq<Op>)
    requires InRangeThroughout(w, ops)
    ensures RawInRange(Run(w, ops))
  {}

  // ----- how often a node's sample is handed to the database

  /** The times at which a node's accepted sample was due for the database. */
  function PersistTimes(w: World, ops: seq<Op>, id: string): seq<Instant> {
    if ops == [] then []
    else
      var before, last := ops[..|ops| - 1], ops[|ops| - 1];
      var w0 := Run(w, before);
      PersistTimes(w, before, id)
      + if last.Accept? && last.id == id && id in w0.nodes
           && Accepted(w0, w0.nodes[id], last.sample, last.persistEvery, last.at).1
        then [last.at] else []
  }

  /**
   A step that accepts no sample of the node leaves its schedule alone; one that does moves it exactly
   if it is due.
   */
  lemma StepOnSchedule(w: World, op: Op, id: string)
    requires forall n :: n in w.nodes ==> w.nodes[n].id == n
    ensures var w1 := Step(w, op);
            var due := op.Accept? && op.id == id && id in w.nodes
                       && Accepted(w, w.nodes[id], op.sample, op.persistEvery, op.at).1;
            && (id in w1.lastPersist <==> id in w.lastPersist || due)
            && (id in w1.lastPersist ==> w1.lastPersist[id] == if due then op.at else w.lastPersist[id])
  {
    hide TrafficPeriodStart, Advanced, Uncorrected;
    if op.Accept? && op.id in w.nodes { AcceptShowsSample(w, w.nodes[op.id], op.sample, op.persistEvery, op.at); }
  }

  lemma AcceptedDue(w: World, node: Node, sample: Sample, persistEvery: int, now: Instant)
    ensures Accepted(w, node, sample, persistEvery, now).1 <==>
            node.id !in w.lastPersist || w.lastPersist[node.id] == 0 || now - w.lastPersist[node.id] >= persistEvery
  {
    hide TrafficPeriodStart, Advanced;
  }

  lemma {:induction false} RunOnSchedule(w: World, clock: Instant, ops: seq<Op>, id: string)
    requires Consistent(w, clock) && w.lastPersist == map[] && Timely(clock, ops) && InRangeThroughout(w, ops)
    ensures var times := PersistTimes(w, ops, id);
            && (id in Run(w, ops).lastPersist <==> times != [])
            && (times != [] ==> Run(w, ops).lastPersist[id] == times[|times| - 1] > 0)
    decreases |ops|
  {
    hide TrafficPeriodStart, Step, RawInRange, Consistent, Accepted;
    if ops != [] {
      var before, last := ops[..|ops| - 1], ops[|ops| - 1];
      RunOnSchedule(w, clock, before, id);
      RunStaysConsistent(w, clock, before);
      ConsistentIds(Run(w, before), LastTime(clock, before));
      StepOnSchedule(Run(w, before), last, id);
    }
  }

  /** The node's samples ask for the same interval throughout. */
  predicate SameInterval(ops: seq<Op>, id: string, persistEvery: int) {
    forall i :: 0 <= i < |ops| && ops[i].Accept? && ops[i].id == id ==> ops[i].persistEvery == persistEvery
  }

  /** Over every run from an empty hub, a node's samples reach the database at least the interval apart. */
  lemma {:induction false} PersistedApart(w: World, clock: Instant, ops: seq<Op>, id: string, persistEvery: int)
    requires Consistent(w, clock) && w.lastPersist == map[] && Timely(clock, ops) && InRangeThroughout(w, ops)
    requires SameInterval(ops, id, persistEvery)
    ensures var times := PersistTimes(w, ops, id);
            forall k :: 0 < k < |times| ==> times[k] - times[k - 1] >= persistEvery
    decreases |ops|
  {
    hide TrafficPeriodStart, Step, RawInRange, Consistent, Accepted, Run;
    if ops != [] {
      var before, last := ops[..|ops| - 1], ops[|ops| - 1];
      var w0 := Run(w, before);
      PersistedApart(w, clock, before, id, persistEvery);
      RunOnSchedule(w, clock, before, id);
      RunStaysConsistent(w, clock, before);
      ConsistentIds(w0, LastTime(clock, before));
      if last.Accept? && last.id == id && id in w0.nodes {
        AcceptedDue(w0, w0.nodes[id], last.sample, last.persistEvery, last.at);
      }
    }
  }

  /** And none waits longer: an accepted sample is handed on, or one was less than the interval before. */
  lemma {:induction false} PersistedInTime(
    w: World, clock: Instant, ops: seq<Op>, id: string, sample: Sample, persistEvery: int, at: Instant)
    requires Consistent(w, clock) && w.lastPersist == map[] && Timely(clock, ops) && InRangeThroughout(w, ops)
    requires id in Run(w, ops).nodes
    ensures var w0, times := Run(w, ops), PersistTimes(w, ops, id);
            Accepted(w0, w0.nodes[id], sample, persistEvery, at).1
            <==> times == [] || at - times[|times| - 1] >= persistEvery
  {
    hide TrafficPeriodStart, RawInRange, Consistent, Accepted, Run, PersistTimes;
    var w0 := Run(w, ops);
    RunOnSchedule(w, clock, ops, id);
    RunStaysConsistent(w, clock, ops);
    ConsistentIds(w0, LastTime(clock, ops));
    AcceptedDue(w0, w0.nodes[id], sample, persistEvery, at);
  }

  // ----- an example

  const EXAMPLE_NODE := Node("n", true, 1, 0, 0, None)

  /** The example node with its first sample, at counter 0. */
  function ExampleWorld(t: Instant): World {
    Step(Fresh(map["n" := EXAMPLE_NODE]), Accept("n", Sample("n", "boot", 0, 0, 0, 0, 0, t), 60, t))
  }

  lemma ExampleWorldIs(t: Instant)
    requires 0 < t
    ensures ExampleWorld(t).nodes == map["n" := EXAMPLE_NODE]
    ensures ExampleWorld(t).tracker == Tracker(map["n" := TrafficState("boot", 0, 0, 0, 0, TrafficPeriodStart(t, 1))],
                                               map["n" := PolicyFromNode(EXAMPLE_NODE)])
    ensures ExampleWorld(t).latest == map["n" := Sample("n", "boot", 0, 0, 0, 0, t, t)]
  {
    hide TrafficPeriodStart;
  }

  lemma ExampleWorldConsistent(t: Instant)
    requires 0 < t
    ensures Consistent(ExampleWorld(t), t)
  {
    hide TrafficPeriodStart, Accepted, EntryOk;
    AcceptKeepsConsistent(Fresh(map["n" := EXAMPLE_NODE]), 0, "n", Sample("n", "boot", 0, 0, 0, 0, 0, t), 60, t);
  }

  /** What the save handler reads in the example world. */
  lemma ExampleSnapshot(t: Instant)
    requires 0 < t
    ensures "n" in ExampleWorld(t).nodes && SaveCorrection(ExampleWorld(t), "n", 100, 0, t, true).1.Done?
    ensures Snapshot(ExampleWorld(t), ExampleWorld(t).nodes["n"], t)
            == Status(true, TrafficPeriodStart(t, 1), 0, 0, 0, 0)
    ensures RawInRange(ExampleWorld(t))
  {
    hide TrafficPeriodStart, ExampleWorld, CommitSave;
    ExampleWorldIs(t);
  }
}
