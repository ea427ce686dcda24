/**
 What happens when the parts of the traffic handlers interleave: a status read before other requests are
 handled, a sample counted but not yet published, and writes of the row, the policy and the hub that
 other handlers' writes come between.
 */
module TrafficRaces {
  import opened Basics
  import opened Calendar
  import opened Traffic
  import opened TrafficSystem

  // ----- a save handler that other requests overtake

  lemma StepKeepsCaptured(w: World, clock: Instant, id: string, current: Status, op: Op)
    requires Consistent(w, clock) && RawInRange(w) && clock <= op.at && 0 < op.at
    requires CapturedEarlier(w, id, current)
    ensures CapturedEarlier(Step(w, op), id, current)
  {
    hide TrafficPeriodStart, Advanced, RawInRange, SaveCorrection, ClearCorrection, Corrected;
    match op
    case Save(other, rx, tx, storeOk, at) => SaveKeepsConsistent(w, clock, other, rx, tx, at, storeOk);
    case Clear(other, storeOk, at) => ClearKeepsConsistent(w, clock, other, at, storeOk);
    case Accept(other, sample, persistEvery, at) =>
      if other == id {
        var state, period := w.tracker.states[id], TrafficPeriodStart(at, w.nodes[id].resetDay);
        PeriodStartMonotone(w.latest[id].receivedAt, at, w.nodes[id].resetDay);
        StepOnNode(w, clock, id, op);
        forall d: Direction
          ensures Advanced(state, sample, period).periodStart == period
          ensures state.periodStart == period ==> state.Monthly(d) <= Advanced(state, sample, period).Monthly(d)
        {
          AdvanceKeepsCaptured(state, sample, period, d);
        }
        AdvanceKeepsCaptured(state, sample, period, Rx);
      }
  }

  /** Whatever requests are handled after a snapshot, it stays one captured earlier. */
  lemma {:induction false} RunKeepsCaptured(w: World, clock: Instant, id: string, current: Status, ops: seq<Op>)
    requires Consistent(w, clock) && Timely(clock, ops) && InRangeThroughout(w, ops)
    requires CapturedEarlier(w, id, current)
    ensures CapturedEarlier(Run(w, ops), id, current)
    decreases |ops|
  {
    hide Consistent, RawInRange, CapturedEarlier, Step;
    if ops != [] {
      var before := ops[..|ops| - 1];
      RunKeepsCaptured(w, clock, id, current, before);
      RunStaysConsistent(w, clock, before);
      StepKeepsCaptured(Run(w, before), LastTime(clock, before), id, current, ops[|ops| - 1]);
    }
  }

  /**
   A save whose period has ended meanwhile stores a correction that applies no more, and republishes
   the captured totals.
   */
  lemma CommitSaveStraddles(w: World, clock: Instant, id: string, current: Status, rx: uint64, tx: uint64)
    requires Consistent(w, clock) && id in w.latest
    requires rx <= MAX_CORRECTION && tx <= MAX_CORRECTION
    requires current.rawRx <= MAX_CORRECTION && current.rawTx <= MAX_CORRECTION
    requires current.periodStart < w.tracker.states[id].periodStart
    ensures var w1 := CommitSave(w, w.nodes[id], current, rx, tx);
            && id in w1.nodes && w1.nodes == w.nodes[id := w1.nodes[id]] && w1.nodes[id].id == id
            && w1.nodes[id].resetDay == w.nodes[id].resetDay
            && w1.tracker == Tracker(w.tracker.states, w.tracker.policies[id := PolicyFromNode(w1.nodes[id])])
            && w1.latest == w.latest[id := w.latest[id].WithMonthly(current.rawRx, current.rawTx)]
            && w1.nodes[id].correctionPeriod == Some(current.periodStart)
  {
    hide TrafficPeriodStart;
  }

  /**
   The save handler reads its status before it writes. Whatever is handled in between, also the end
   of the billing period, the hub is right about a direction exactly if the captured total is still
   the current one.
   */
  lemma LateSaveAgreesIffStillCurrent(
    w: World, clock: Instant, id: string, current: Status, rx: uint64, tx: uint64, d: Direction)
    requires Consistent(w, clock) && RawInRange(w) && CapturedEarlier(w, id, current)
    requires rx <= MAX_CORRECTION && tx <= MAX_CORRECTION
    requires current.rawRx <= MAX_CORRECTION && current.rawTx <= MAX_CORRECTION
    ensures HubRight(CommitSave(w, w.nodes[id], current, rx, tx), id, d)
       <==> CapturedRaw(current, d) == w.tracker.states[id].Monthly(d)
  {
    hide TrafficPeriodStart, CommitSave, EntryOk;
    if current.periodStart == w.tracker.states[id].periodStart {
      CommitSaveEntry(w, clock, id, current, rx, tx);
      assert CapturedRaw(current, d) <= w.tracker.states[id].Monthly(d);
    } else {
      CommitSaveStraddles(w, clock, id, current, rx, tx);
    }
  }

  /** The save handler as it runs: it reads its status, other requests are handled, and then it writes. */
  function OvertakenSave(w: World, id: string, rx: uint64, tx: uint64, now: Instant, ops: seq<Op>): World
    requires id in w.nodes
  {
    var current, w1 := Snapshot(w, w.nodes[id], now), Run(w, ops);
    if id in w1.nodes && current.available && Max(rx, tx) <= MAX_CORRECTION
        && Max(current.rawRx, current.rawTx) <= MAX_CORRECTION
    then CommitSave(w1, w1.nodes[id], current, rx, tx)
    else w1
  }

  /** Where the handler stands when it writes. */
  lemma {:induction false} BeforeOvertakenWrite(
    w: World, clock: Instant, id: string, rx: uint64, tx: uint64, now: Instant, ops: seq<Op>)
    requires Consistent(w, clock) && clock <= now && 0 < now
    requires SaveCorrection(w, id, rx, tx, now, true).1.Done?
    requires Timely(now, ops) && InRangeThroughout(w, ops) && RawInRange(w)
    ensures id in w.nodes && id in w.latest && id in w.tracker.states && rx <= MAX_CORRECTION && tx <= MAX_CORRECTION
    ensures var current, w1 := Snapshot(w, w.nodes[id], now), Run(w, ops);
            && current.periodStart == w.tracker.states[id].periodStart
            && current.rawRx == w.tracker.states[id].monthlyRx <= MAX_CORRECTION
            && current.rawTx == w.tracker.states[id].monthlyTx <= MAX_CORRECTION
            && Consistent(w, now) && Consistent(w1, LastTime(now, ops)) && RawInRange(w1)
            && CapturedEarlier(w1, id, current) && id in w1.nodes
            && OvertakenSave(w, id, rx, tx, now, ops) == CommitSave(w1, w1.nodes[id], current, rx, tx)
  {
    hide TrafficPeriodStart, CommitSave, EntryOk, RawInRange, Step, Uncorrected;
    var current := Snapshot(w, w.nodes[id], now);
    SnapshotIsCaptured(w, clock, id, now);
    assert CapturedRaw(current, Rx) == w.tracker.states[id].Monthly(Rx);
    assert CapturedRaw(current, Tx) == w.tracker.states[id].Monthly(Tx);
    ClockMayAdvance(w, clock, now);
    RunKeepsCaptured(w, now, id, current, ops);
    RunStaysConsistent(w, now, ops);
  }

  /**
   The same for a whole run: an overtaken save leaves the hub right about a direction exactly if the
   node's raw total is what it was when the handler read it.
   */
  lemma {:induction false} OvertakenSaveAgreesIff(
    w: World, clock: Instant, id: string, rx: uint64, tx: uint64, now: Instant, ops: seq<Op>, d: Direction)
    requires Consistent(w, clock) && clock <= now && 0 < now
    requires SaveCorrection(w, id, rx, tx, now, true).1.Done?
    requires Timely(now, ops) && InRangeThroughout(w, ops) && RawInRange(w)
    ensures id in w.nodes && id in w.tracker.states && id in Run(w, ops).tracker.states
    ensures HubRight(OvertakenSave(w, id, rx, tx, now, ops), id, d)
       <==> w.tracker.states[id].Monthly(d) == Run(w, ops).tracker.states[id].Monthly(d)
  {
    hide TrafficPeriodStart, CommitSave, Consistent, RawInRange, Run, SaveCorrection, Snapshot, OvertakenSave, HubRight;
    BeforeOvertakenWrite(w, clock, id, rx, tx, now, ops);
    LateSaveAgreesIffStillCurrent(Run(w, ops), LastTime(now, ops), id, Snapshot(w, w.nodes[id], now), rx, tx, d);
  }

  /** Accepting a sample overwrites what the hub shows for the node without reading it. */
  lemma AcceptIgnoresShown(w: World, node: Node, shown: Sample, sample: Sample, persistEvery: int, now: Instant)
    ensures Accepted(w.(latest := w.latest[node.id := shown]), node, sample, persistEvery, now).0
         == Accepted(w, node, sample, persistEvery, now).0
  {
    hide TrafficPeriodStart;
  }

  /** If only what the hub shows for a node is out of step, the node's next sample restores the agreement. */
  lemma NextSampleRepairs(
    w: World, clock: Instant, id: string, shown: Sample, sample: Sample, persistEvery: int, now: Instant)
    requires id in w.nodes && w.nodes[id].id == id && Consistent(w.(latest := w.latest[id := shown]), clock)
    requires clock <= now && 0 < now
    ensures Consistent(Accepted(w, w.nodes[id], sample, persistEvery, now).0, now)
  {
    hide TrafficPeriodStart, Accepted, EntryOk;
    AcceptIgnoresShown(w, w.nodes[id], shown, sample, persistEvery, now);
    AcceptKeepsConsistent(w.(latest := w.latest[id := shown]), clock, id, sample, persistEvery, now);
  }

  /** What the hub should show for a node under a new row. */
  function RightSample(w: World, id: string, node: Node): Sample
    requires id in w.latest && id in w.tracker.states
  {
    w.latest[id].WithMonthly(Clamp(Display(node, w.tracker.states[id], Rx)),
        Clamp(Display(node, w.tracker.states[id], Tx)))
  }

  /** A new row for one node, displayable and not from the future, leaves only what the hub shows out of step. */
  lemma NewRowSpoilsOnlyShown(w: World, clock: Instant, id: string, node: Node, w1: World)
    requires Consistent(w, clock) && id in w.latest && node.id == id && node.resetDay == w.nodes[id].resetDay
    requires node.correctionPeriod.Some? ==> node.correctionPeriod.value <= w.tracker.states[id].periodStart
    requires forall d: Direction :: 0 <= Display(node, w.tracker.states[id], d)
    requires w1.nodes == w.nodes[id := node] && w1.latest.Keys == w.latest.Keys
    requires w1.tracker == Tracker(w.tracker.states, w.tracker.policies[id := PolicyFromNode(node)])
    requires forall other :: other in w.latest && other != id ==> w1.latest[other] == w.latest[other]
    ensures Consistent(w1.(latest := w1.latest[id := RightSample(w, id, node)]), clock)
  {
    hide TrafficPeriodStart, Display, Clamp, EntryOk, PolicyFromNode;
    var state, shown := w.tracker.states[id], RightSample(w, id, node);
    RightSampleOk(w.nodes[id], node, state, w.latest[id], shown, clock);
    assert w.tracker.states[id := state] == w.tracker.states;
    assert w1.latest[id := shown] == w.latest[id := shown];
    ReplaceEntry(w, clock, clock, id, node, state, shown, w1.(latest := w1.latest[id := shown]));
  }

  lemma RightSampleOk(previous: Node, node: Node, state: TrafficState, before: Sample, shown: Sample, clock: Instant)
    requires EntryOk(previous, state, before, clock) && node.resetDay == previous.resetDay
    requires node.correctionPeriod.Some? ==> node.correctionPeriod.value <= state.periodStart
    requires forall d: Direction :: 0 <= Display(node, state, d)
    requires shown == before.WithMonthly(Clamp(Display(node, state, Rx)), Clamp(Display(node, state, Tx)))
    ensures EntryOk(node, state, shown, clock)
  {
    hide TrafficPeriodStart, Clamp;
  }

  /** After an overtaken save the disagreement lasts only until the node's next sample. */
  lemma NextSampleRepairsLateSave(
    w: World, clock: Instant, id: string, current: Status, rx: uint64, tx: uint64,
    sample: Sample, persistEvery: int, now: Instant)
    requires Consistent(w, clock) && CapturedEarlier(w, id, current)
    requires rx <= MAX_CORRECTION && tx <= MAX_CORRECTION
    requires current.rawRx <= MAX_CORRECTION && current.rawTx <= MAX_CORRECTION
    requires clock <= now && 0 < now
    ensures var w1 := CommitSave(w, w.nodes[id], current, rx, tx);
            id in w1.nodes && Consistent(Accepted(w1, w1.nodes[id], sample, persistEvery, now).0, now)
  {
    hide TrafficPeriodStart, CommitSave, Accepted, EntryOk, RightSample;
    var w1, state := CommitSave(w, w.nodes[id], current, rx, tx), w.tracker.states[id];
    if current.periodStart == state.periodStart {
      CommitSaveEntry(w, clock, id, current, rx, tx);
      forall d: Direction ensures 0 <= Display(w1.nodes[id], state, d) {
        assert CapturedRaw(current, d) <= state.Monthly(d);
      }
    } else {
      CommitSaveStraddles(w, clock, id, current, rx, tx);
    }
    NewRowSpoilsOnlyShown(w, clock, id, w1.nodes[id], w1);
    NextSampleRepairs(w1, clock, id, RightSample(w, id, w1.nodes[id]), sample, persistEvery, now);
  }

  /** Once repaired by a sample of the period, an overtaken save shows its target plus the traffic since it was read. */
  lemma {:induction false} OvertakenSaveCountsFromSnapshot(
    w: World, clock: Instant, id: string, rx: uint64, tx: uint64, now: Instant, ops: seq<Op>, period: Instant,
    next: Sample, persistEvery: int, at: Instant, d: Direction)
    requires Consistent(w, clock) && clock <= now && 0 < now
    requires SaveCorrection(w, id, rx, tx, now, true).1.Done?
    requires Timely(now, ops) && InRangeThroughout(w, ops) && RawInRange(w) && LastTime(now, ops) <= at
    requires id in w.nodes && period == TrafficPeriodStart(now, w.nodes[id].resetDay)
             == TrafficPeriodStart(at, w.nodes[id].resetDay)
    requires forall i :: 0 <= i < |ops| ==> LeavesCorrection(id, w.nodes[id].resetDay, period, ops[i])
    ensures id in w.tracker.states && id in OvertakenSave(w, id, rx, tx, now, ops).nodes
    ensures var s, w2 := w.tracker.states[id], OvertakenSave(w, id, rx, tx, now, ops);
            var w3 := Accepted(w2, w2.nodes[id], next, persistEvery, at).0;
            RawInRange(w3) ==>
              && id in w3.latest
              && w3.latest[id].Monthly(d)
                 == (if d.Rx? then rx else tx) + Used(d, s.bootID, s.Last(d), SamplesOf(ops, id) + [next])
  {
    hide TrafficPeriodStart, CommitSave, Consistent, EntryOk, RawInRange, Run, SaveCorrection, Display, Clamp, Accepted,
         Used, AdvancedBy, SamplesOf, Advanced, OvertakenSave, CapturedEarlier;
    BeforeOvertakenWrite(w, clock, id, rx, tx, now, ops);
    var current, s, w1, w2 := Snapshot(w, w.nodes[id], now), w.tracker.states[id], Run(w, ops),
        OvertakenSave(w, id, rx, tx, now, ops);
    RunOnNode(w, now, id, ops, period);
    TotalIsClampedUsage(s, SamplesOf(ops, id), period, d);
    ConsistentAgent(w1, LastTime(now, ops), id);
    CommitSaveEntry(w1, LastTime(now, ops), id, current, rx, tx);
    NextSampleRepairsLateSave(w1, LastTime(now, ops), id, current, rx, tx, next, persistEvery, at);
    AcceptAdvances(w2, id, next, persistEvery, at);
    var w3 := Accepted(w2, w2.nodes[id], next, persistEvery, at).0;
    AdvancedByAppend(s, SamplesOf(ops, id), next, period);
    TotalIsClampedUsage(s, SamplesOf(ops, id) + [next], period, d);
    if RawInRange(w3) {
      ShownInRange(w3, at, id, d);
      DisplayIsTargetPlusUsage(w2.nodes[id], s, w3.tracker.states[id], if d.Rx? then rx else tx,
                               Used(d, s.bootID, s.Last(d), SamplesOf(ops, id) + [next]), d);
    }
  }

  const EXAMPLE_SAMPLE := Sample("n", "boot", 50, 0, 0, 0, 0, 0)

  /** The example world after another 50 bytes. */
  lemma ExampleNextWorld(t: Instant, op: Op)
    requires 0 < t && op == Accept("n", EXAMPLE_SAMPLE, 60, t)
    ensures var w1 := Run(ExampleWorld(t), [op]);
            && w1.nodes == map["n" := EXAMPLE_NODE] && w1.latest == map["n" := Sample("n", "boot", 50, 0, 50, 0, t, t)]
            && w1.tracker == Tracker(map["n" := TrafficState("boot", 50, 0, 50, 0, TrafficPeriodStart(t, 1))],
                                     map["n" := PolicyFromNode(EXAMPLE_NODE)])
    ensures RawInRange(Run(ExampleWorld(t), [op])) && Timely(t, [op])
  {
    hide TrafficPeriodStart, ExampleWorld;
    ExampleWorldIs(t);
    var w := ExampleWorld(t);
    assert [op][..0] == [] && Run(w, []) == w && Run(w, [op]) == Step(w, op);
  }

  /** The hub shows `shown` received bytes for a node where `right` would be right. */
  predicate Shows(w: World, id: string, shown: int, right: int) {
    && id in w.latest && w.latest[id].monthlyRx == shown
    && id in w.nodes && id in w.tracker.states && Display(w.nodes[id], w.tracker.states[id], Rx) == right
  }

  /** A save overtaken by a sample of 50 bytes: the hub keeps showing the target of 100 where 150 is right. */
  lemma OvertakenSaveExample(t: Instant)
    requires 0 < t
    ensures Consistent(ExampleWorld(t), t) && RawInRange(ExampleWorld(t))
    ensures "n" in ExampleWorld(t).nodes && SaveCorrection(ExampleWorld(t), "n", 100, 0, t, true).1.Done?
    ensures var between := [Accept("n", EXAMPLE_SAMPLE, 60, t)];
            var w := OvertakenSave(ExampleWorld(t), "n", 100, 0, t, between);
            && Timely(t, between) && InRangeThroughout(ExampleWorld(t), between)
            && !HubRight(w, "n", Rx) && Shows(w, "n", 100, 150)
  {
    hide TrafficPeriodStart, ExampleWorld, SaveCorrection, Snapshot, Consistent, RawInRange, Timely, Step;
    ExampleWorldConsistent(t);
    ExampleSnapshot(t);
    var op := Accept("n", EXAMPLE_SAMPLE, 60, t);
    ExampleNextWorld(t, op);
    assert [op][..0] == [] && InRangeThroughout(ExampleWorld(t), []);
  }

  // ----- a clear handler that other requests overtake

  /** What the writes of the clear handler do. */
  lemma CommitClearEntry(w: World, clock: Instant, id: string, current: Status)
    requires Consistent(w, clock) && id in w.latest
    ensures var w1 := CommitClear(w, w.nodes[id], current);
            && id in w1.nodes && w1.nodes == w.nodes[id := w1.nodes[id]] && w1.nodes[id].id == id
            && w1.nodes[id].resetDay == w.nodes[id].resetDay && w1.nodes[id].correctionPeriod.None?
            && w1.tracker == Tracker(w.tracker.states, w.tracker.policies[id := PolicyFromNode(w1.nodes[id])])
            && w1.latest == w.latest[id := w.latest[id].WithMonthly(current.rawRx, current.rawTx)]
  {
    hide EntryOk;
  }

  lemma LateClearAgreesIffStillCurrent(w: World, clock: Instant, id: string, current: Status, d: Direction)
    requires Consistent(w, clock) && id in w.latest
    ensures HubRight(CommitClear(w, w.nodes[id], current), id, d)
       <==> CapturedRaw(current, d) == w.tracker.states[id].Monthly(d)
  {
    hide CommitClear, EntryOk;
    CommitClearEntry(w, clock, id, current);
  }

  /** The clear handler as it runs: it reads its status, other requests are handled, and then it writes. */
  function OvertakenClear(w: World, id: string, now: Instant, ops: seq<Op>): World
    requires id in w.nodes
  {
    var w1 := Run(w, ops);
    if id in w1.nodes then CommitClear(w1, w1.nodes[id], Snapshot(w, w.nodes[id], now)) else w1
  }

  /** The raw total of a node, which is nothing before its first sample. */
  function RawTotal(w: World, id: string, d: Direction): uint64 {
    if id in w.tracker.states then w.tracker.states[id].Monthly(d) else 0
  }

  lemma SnapshotReadsRawTotal(w: World, clock: Instant, id: string, now: Instant, d: Direction)
    requires Consistent(w, clock) && RawInRange(w) && id in w.nodes
    ensures CapturedRaw(Snapshot(w, w.nodes[id], now), d) == RawTotal(w, id, d)
  {
    hide TrafficPeriodStart, EntryOk, Uncorrected, RawInRange;
    if id in w.latest { UncorrectRecoversRaw(w, clock, id, d); }
  }

  /**
   Over every run between reading and writing, an overtaken clear leaves the hub right about a
   direction exactly if the node's raw total is what it was, and the next sample repairs it.
   */
  lemma {:induction false} OvertakenClearAgreesIff(
    w: World, clock: Instant, id: string, now: Instant, ops: seq<Op>, next: Sample, persistEvery: int, at: Instant,
        d: Direction)
    requires Consistent(w, clock) && clock <= now && 0 < now && id in w.nodes
    requires Timely(now, ops) && InRangeThroughout(w, ops) && RawInRange(w) && LastTime(now, ops) <= at
    requires id in Run(w, ops).latest
    ensures HubRight(OvertakenClear(w, id, now, ops), id, d) <==> RawTotal(w, id, d) == RawTotal(Run(w, ops), id, d)
    ensures var w1 := OvertakenClear(w, id, now, ops);
            id in w1.nodes && Consistent(Accepted(w1, w1.nodes[id], next, persistEvery, at).0, at)
  {
    hide TrafficPeriodStart, CommitClear, Consistent, RawInRange, Run, Accepted, HubRight, Snapshot;
    var current, w1 := Snapshot(w, w.nodes[id], now), Run(w, ops);
    SnapshotReadsRawTotal(w, clock, id, now, d);
    ClockMayAdvance(w, clock, now);
    RunStaysConsistent(w, now, ops);
    ConsistentAgent(w1, LastTime(now, ops), id);
    LateClearAgreesIffStillCurrent(w1, LastTime(now, ops), id, current, d);
    NextSampleRepairsLateClear(w1, LastTime(now, ops), id, current, next, persistEvery, at);
  }

  lemma NextSampleRepairsLateClear(
    w: World, clock: Instant, id: string, current: Status, sample: Sample, persistEvery: int, now: Instant)
    requires Consistent(w, clock) && id in w.latest && clock <= now && 0 < now
    ensures var w1 := CommitClear(w, w.nodes[id], current);
            id in w1.nodes && Consistent(Accepted(w1, w1.nodes[id], sample, persistEvery, now).0, now)
  {
    hide TrafficPeriodStart, CommitClear, Accepted, EntryOk, RightSample;
    CommitClearEntry(w, clock, id, current);
    var w1 := CommitClear(w, w.nodes[id], current);
    NewRowSpoilsOnlyShown(w, clock, id, w1.nodes[id], w1);
    NextSampleRepairs(w1, clock, id, RightSample(w, id, w1.nodes[id]), sample, persistEvery, now);
  }

  /** A clear overtaken by a sample of 50 bytes: the hub goes back to showing 0. */
  lemma OvertakenClearExample(t: Instant)
    requires 0 < t
    ensures Consistent(ExampleWorld(t), t) && RawInRange(ExampleWorld(t)) && "n" in ExampleWorld(t).nodes
    ensures var between := [Accept("n", EXAMPLE_SAMPLE, 60, t)];
            var w := OvertakenClear(ExampleWorld(t), "n", t, between);
            && Timely(t, between) && InRangeThroughout(ExampleWorld(t), between)
            && !HubRight(w, "n", Rx) && Shows(w, "n", 0, 50)
  {
    hide TrafficPeriodStart, ExampleWorld, SaveCorrection, Snapshot, Consistent, RawInRange, Timely, Step;
    ExampleWorldConsistent(t);
    ExampleSnapshot(t);
    var op := Accept("n", EXAMPLE_SAMPLE, 60, t);
    ExampleNextWorld(t, op);
    assert [op][..0] == [] && InRangeThroughout(ExampleWorld(t), []);
  }

  // ----- a save that lands inside the acceptance of a sample

  /** The first part of accepting a sample: the tracker has counted it, the hub has not been told. */
  function Counted(w: World, node: Node, sample: Sample, now: Instant): (World, Sample) {
    var (tracker, raw) := Applied(w.tracker, node, Stamped(node, sample, now), now);
    (w.(tracker := tracker), Corrected(tracker, node.id, raw))
  }

  lemma AcceptedInTwoParts(w: World, node: Node, sample: Sample, persistEvery: int, now: Instant)
    ensures Accepted(w, node, sample, persistEvery, now)
         == Published(Counted(w, node, sample, now).0, Counted(w, node, sample, now).1, persistEvery)
  {
    hide TrafficPeriodStart;
  }

  /** The save handler neither reads nor writes the tracker's states. */
  lemma SaveIgnoresStates(w: World, states: map<string, TrafficState>, id: string, rx: uint64, tx: uint64, now: Instant)
    requires id in w.nodes ==> w.nodes[id].id == id
    ensures var r, s := SaveCorrection(w, id, rx, tx, now, true),
                        SaveCorrection(w.(tracker := Tracker(states, w.tracker.policies)), id, rx, tx, now, true);
            s == (r.0.(tracker := Tracker(states, r.0.tracker.policies)), r.1)
  {
    hide TrafficPeriodStart;
  }

  /** The correction that takes part in what is displayed. */
  function EffectiveCorrection(node: Node, state: TrafficState, d: Direction): int {
    if Active(node, state) then node.Correction(d) else 0
  }

  /** The save handler running between the two parts of accepting a sample. */
  function SavedInsideAccept(
    w: World, node: Node, sample: Sample, persistEvery: int, now: Instant, rx: uint64, tx: uint64): World {
    var (counted, shown) := Counted(w, node, sample, now);
    Published(SaveCorrection(counted, node.id, rx, tx, now, true).0, shown, persistEvery).0
  }

  /** Counting a sample changes the node's state only. */
  lemma CountedChangesStates(w: World, clock: Instant, id: string, sample: Sample, now: Instant)
    requires Consistent(w, clock) && id in w.latest
    ensures var counted := Counted(w, w.nodes[id], sample, now).0;
            && counted == w.(tracker := Tracker(counted.tracker.states, w.tracker.policies))
            && counted.tracker.states == w.tracker.states[id :=
               Advanced(w.tracker.states[id], sample, TrafficPeriodStart(now, w.nodes[id].resetDay))]
            && Counted(w, w.nodes[id], sample, now).1.nodeID == id
  {
    hide TrafficPeriodStart, EntryOk;
    ConsistentAgent(w, clock, id);
    var policies := w.tracker.policies;
    assert policies[id := policies[id]] == policies;
  }

  /** Beside a full acceptance, a save inside of it only leaves another row and policy. */
  lemma SaveInsideAcceptEntry(
    w: World, clock: Instant, id: string, sample: Sample, persistEvery: int, now: Instant, rx: uint64, tx: uint64)
    requires Consistent(w, clock) && RawInRange(w) && clock <= now && 0 < now && id in w.latest
    requires SaveCorrection(Counted(w, w.nodes[id], sample, now).0, id, rx, tx, now, true).1.Done?
    ensures var accepted := Accepted(w, w.nodes[id], sample, persistEvery, now).0;
            var saved := SaveCorrection(w, id, rx, tx, now, true).0;
            var w1 := SavedInsideAccept(w, w.nodes[id], sample, persistEvery, now, rx, tx);
            && SaveCorrection(w, id, rx, tx, now, true).1.Done?
            && w1.nodes == saved.nodes && w1.tracker == Tracker(accepted.tracker.states, saved.tracker.policies)
            && id in accepted.latest && w1.latest == saved.latest[id := accepted.latest[id]]
  {
    hide TrafficPeriodStart, Advanced, Consistent, RawInRange, Corrected, SaveCorrection, Applied;
    ConsistentAgent(w, clock, id);
    CountedChangesStates(w, clock, id, sample, now);
    AcceptedInTwoParts(w, w.nodes[id], sample, persistEvery, now);
    SaveIgnoresStates(w, Counted(w, w.nodes[id], sample, now).0.tracker.states, id, rx, tx, now);
  }

  /**
   A save that lands between counting and publishing a sample: the sample goes out under the old
   correction, so the hub is right about a direction exactly if the target is what the hub already showed.
   */
  lemma SaveInsideAcceptAgreesIff(
    w: World, clock: Instant, id: string, sample: Sample, persistEvery: int, now: Instant, rx: uint64, tx: uint64,
        d: Direction)
    requires Consistent(w, clock) && RawInRange(w) && clock <= now && 0 < now && id in w.latest
    requires SaveCorrection(Counted(w, w.nodes[id], sample, now).0, id, rx, tx, now, true).1.Done?
    requires RawInRange(Accepted(w, w.nodes[id], sample, persistEvery, now).0)
    ensures HubRight(SavedInsideAccept(w, w.nodes[id], sample, persistEvery, now, rx, tx), id, d)
       <==> (if d.Rx? then rx else tx) == w.latest[id].Monthly(d)
  {
    hide TrafficPeriodStart, Advanced, EntryOk, Accepted, SaveCorrection, SavedInsideAccept, Counted, RawInRange,
         Consistent;
    ConsistentAgent(w, clock, id);
    SaveInsideAcceptRow(w, clock, id, sample, persistEvery, now, rx, tx);
    SaveInsideAcceptCorrection(w, clock, id, sample, persistEvery, now, rx, tx);
    var accepted := Accepted(w, w.nodes[id], sample, persistEvery, now).0;
    ShownInRange(w, clock, id, d);
    ShownInRange(accepted, now, id, d);
    ShownNotNegative(accepted, now, id, d);
  }

  /** The correction that such a save stores is reckoned from the total before the sample, in the same period. */
  lemma SaveInsideAcceptCorrection(
    w: World, clock: Instant, id: string, sample: Sample, persistEvery: int, now: Instant, rx: uint64, tx: uint64)
    requires Consistent(w, clock) && RawInRange(w) && clock <= now && 0 < now && id in w.latest
    requires SaveCorrection(Counted(w, w.nodes[id], sample, now).0, id, rx, tx, now, true).1.Done?
    ensures var node := SavedInsideAccept(w, w.nodes[id], sample, persistEvery, now, rx, tx).nodes;
            var accepted := Accepted(w, w.nodes[id], sample, persistEvery, now).0;
            && id in node && id in w.tracker.states && id in accepted.tracker.states
            && node[id].rxCorrection == rx - w.tracker.states[id].monthlyRx
            && node[id].txCorrection == tx - w.tracker.states[id].monthlyTx
            && accepted.tracker.states[id].periodStart == w.tracker.states[id].periodStart
  {
    hide TrafficPeriodStart, Consistent, Accepted, SaveCorrection, SavedInsideAccept, Counted, RawInRange;
    ConsistentAgent(w, clock, id);
    SaveInsideAcceptEntry(w, clock, id, sample, persistEvery, now, rx, tx);
    SaveSetsCorrection(w, clock, id, rx, tx, now);
    AcceptAdvances(w, id, sample, persistEvery, now);
    AdvanceKeepsCaptured(w.tracker.states[id], sample, TrafficPeriodStart(now, w.nodes[id].resetDay), Rx);
  }

  lemma ShownNotNegative(w: World, clock: Instant, id: string, d: Direction)
    requires Consistent(w, clock) && id in w.latest
    ensures id in w.nodes && id in w.tracker.states && 0 <= Display(w.nodes[id], w.tracker.states[id], d)
  {
    hide TrafficPeriodStart, Display;
  }

  /** What a full acceptance makes of the node, beside the row that a save would store. */
  lemma AcceptBesideSave(
    w: World, clock: Instant, id: string, sample: Sample, persistEvery: int, now: Instant, node: Node, d: Direction)
    requires Consistent(w, clock) && clock <= now && 0 < now && id in w.latest
    requires node.correctionPeriod == Some(w.tracker.states[id].periodStart)
    requires w.tracker.states[id].periodStart == TrafficPeriodStart(now, w.nodes[id].resetDay)
    requires 0 <= node.Correction(d) + w.tracker.states[id].Monthly(d)
    ensures var accepted := Accepted(w, w.nodes[id], sample, persistEvery, now).0;
            && id in accepted.tracker.states && Active(node, accepted.tracker.states[id])
            && 0 <= Display(node, accepted.tracker.states[id], d)
  {
    hide TrafficPeriodStart, Advanced, EntryOk, Accepted;
    ConsistentAgent(w, clock, id);
    AcceptAdvances(w, id, sample, persistEvery, now);
    AdvanceKeepsCaptured(w.tracker.states[id], sample, TrafficPeriodStart(now, w.nodes[id].resetDay), d);
  }

  lemma AcceptChangesOneNode(w: World, clock: Instant, id: string, sample: Sample, persistEvery: int, now: Instant)
    requires Consistent(w, clock) && id in w.latest
    ensures var accepted := Accepted(w, w.nodes[id], sample, persistEvery, now).0;
            && accepted.nodes == w.nodes && accepted.tracker.policies == w.tracker.policies
            && id in accepted.latest && accepted.latest == w.latest[id := accepted.latest[id]]
  {
    hide TrafficPeriodStart, EntryOk, Advanced;
    ConsistentAgent(w, clock, id);
    var policies := w.tracker.policies;
    assert policies[id := policies[id]] == policies;
  }

  /** The row that a save inside an acceptance leaves, beside the fully accepted sample. */
  lemma SaveInsideAcceptRow(
    w: World, clock: Instant, id: string, sample: Sample, persistEvery: int, now: Instant, rx: uint64, tx: uint64)
    requires Consistent(w, clock) && RawInRange(w) && clock <= now && 0 < now && id in w.latest
    requires SaveCorrection(Counted(w, w.nodes[id], sample, now).0, id, rx, tx, now, true).1.Done?
    ensures var accepted := Accepted(w, w.nodes[id], sample, persistEvery, now).0;
            var w1 := SavedInsideAccept(w, w.nodes[id], sample, persistEvery, now, rx, tx);
            && Consistent(accepted, now) && id in accepted.latest && id in accepted.tracker.states
               && accepted.nodes == w.nodes
            && id in w1.nodes && w1.nodes == accepted.nodes[id := w1.nodes[id]] && w1.nodes[id].id == id
            && w1.nodes[id].resetDay == w.nodes[id].resetDay
            && w1.tracker == Tracker(accepted.tracker.states,
               accepted.tracker.policies[id := PolicyFromNode(w1.nodes[id])])
            && w1.latest == accepted.latest
            && Active(w1.nodes[id], accepted.tracker.states[id])
            && 0 <= Display(w1.nodes[id], accepted.tracker.states[id], Rx)
               && 0 <= Display(w1.nodes[id], accepted.tracker.states[id], Tx)
  {
    hide TrafficPeriodStart, Consistent, Accepted, SaveCorrection, SavedInsideAccept, Counted, RawInRange, Display,
         PolicyFromNode;
    ConsistentAgent(w, clock, id);
    SaveInsideAcceptEntry(w, clock, id, sample, persistEvery, now, rx, tx);
    AcceptKeepsConsistent(w, clock, id, sample, persistEvery, now);
    AcceptChangesOneNode(w, clock, id, sample, persistEvery, now);
    SaveChangesOneNode(w, clock, id, rx, tx, now);
    SaveSetsCorrection(w, clock, id, rx, tx, now);
    var node := SavedInsideAccept(w, w.nodes[id], sample, persistEvery, now, rx, tx).nodes[id];
    AcceptBesideSave(w, clock, id, sample, persistEvery, now, node, Rx);
    AcceptBesideSave(w, clock, id, sample, persistEvery, now, node, Tx);
  }

  lemma NextSampleRepairsSaveInsideAccept(
    w: World, clock: Instant, id: string, sample: Sample, persistEvery: int, now: Instant, rx: uint64, tx: uint64,
    next: Sample, at: Instant)
    requires Consistent(w, clock) && RawInRange(w) && clock <= now && 0 < now && id in w.latest && now <= at
    requires SaveCorrection(Counted(w, w.nodes[id], sample, now).0, id, rx, tx, now, true).1.Done?
    ensures var w1 := SavedInsideAccept(w, w.nodes[id], sample, persistEvery, now, rx, tx);
            id in w1.nodes && Consistent(Accepted(w1, w1.nodes[id], next, persistEvery, at).0, at)
  {
    hide TrafficPeriodStart, Accepted, SaveCorrection, SavedInsideAccept, Counted, RawInRange, Consistent, RightSample,
         Display;
    ConsistentAgent(w, clock, id);
    SaveInsideAcceptRow(w, clock, id, sample, persistEvery, now, rx, tx);
    var accepted := Accepted(w, w.nodes[id], sample, persistEvery, now).0;
    var w1 := SavedInsideAccept(w, w.nodes[id], sample, persistEvery, now, rx, tx);
    forall d: Direction ensures 0 <= Display(w1.nodes[id], accepted.tracker.states[id], d) {
      match d
      case Rx =>
      case Tx =>
    }
    NewRowSpoilsOnlyShown(accepted, now, id, w1.nodes[id], w1);
    NextSampleRepairs(w1, now, id, RightSample(accepted, id, w1.nodes[id]), next, persistEvery, at);
  }

  // ----- a clear or another sample that lands inside the acceptance of a sample

  /** The clear handler running between the two parts of accepting a sample. */
  function ClearedInsideAccept(w: World, node: Node, sample: Sample, persistEvery: int, now: Instant): World {
    var (counted, shown) := Counted(w, node, sample, now);
    Published(ClearCorrection(counted, node.id, now, true).0, shown, persistEvery).0
  }

  /** What a clear makes of any world that has the node. */
  lemma ClearWrites(w: World, id: string, now: Instant)
    requires id in w.nodes && w.nodes[id].isMonitor && w.nodes[id].id == id && id in w.latest
             && w.latest[id].nodeID == id
    ensures var w1 := ClearCorrection(w, id, now, true).0;
            var node := w.nodes[id].(rxCorrection := 0, txCorrection := 0, correctionPeriod := None);
            && w1.nodes == w.nodes[id := node] && w1.lastPersist == w.lastPersist
            && w1.tracker == Tracker(w.tracker.states, w.tracker.policies[id := PolicyFromNode(node)])
            && id in w1.latest && w1.latest == w.latest[id := w1.latest[id]]
  {
    hide TrafficPeriodStart, Uncorrected;
  }

  /** Beside a full acceptance, a clear inside of it only leaves another row and policy. */
  lemma ClearInsideAcceptRow(w: World, clock: Instant, id: string, sample: Sample, persistEvery: int, now: Instant)
    requires Consistent(w, clock) && id in w.latest && w.nodes[id].isMonitor
    ensures var accepted := Accepted(w, w.nodes[id], sample, persistEvery, now).0;
            var w1 := ClearedInsideAccept(w, w.nodes[id], sample, persistEvery, now);
            && id in w1.nodes && w1.nodes == accepted.nodes[id := w1.nodes[id]] && w1.nodes[id].id == id
            && w1.nodes[id].resetDay == w.nodes[id].resetDay && w1.nodes[id].correctionPeriod.None?
            && w1.tracker == Tracker(accepted.tracker.states,
               accepted.tracker.policies[id := PolicyFromNode(w1.nodes[id])])
            && w1.latest == accepted.latest
  {
    hide TrafficPeriodStart, Advanced, Consistent, Applied, ClearCorrection, PolicyFromNode, Corrected;
    ConsistentAgent(w, clock, id);
    ConsistentIds(w, clock);
    CountedChangesStates(w, clock, id, sample, now);
    AcceptedInTwoParts(w, w.nodes[id], sample, persistEvery, now);
    ClearWrites(Counted(w, w.nodes[id], sample, now).0, id, now);
  }

  /** A clear in between leaves the hub right exactly if no correction was in effect, and the next sample repairs it. */
  lemma ClearInsideAcceptAgreesIff(
    w: World, clock: Instant, id: string, sample: Sample, persistEvery: int, now: Instant, next: Sample, at: Instant,
        d: Direction)
    requires Consistent(w, clock) && clock <= now && 0 < now && id in w.latest && w.nodes[id].isMonitor && now <= at
    requires RawInRange(Accepted(w, w.nodes[id], sample, persistEvery, now).0)
    ensures var accepted := Accepted(w, w.nodes[id], sample, persistEvery, now).0;
            var w1 := ClearedInsideAccept(w, w.nodes[id], sample, persistEvery, now);
            && id in w1.nodes && id in accepted.tracker.states
            && (HubRight(w1, id, d) <==> EffectiveCorrection(w.nodes[id], accepted.tracker.states[id], d) == 0)
            && Consistent(Accepted(w1, w1.nodes[id], next, persistEvery, at).0, at)
  {
    hide TrafficPeriodStart, Accepted, ClearedInsideAccept, Consistent, RawInRange, RightSample;
    ConsistentAgent(w, clock, id);
    ClearInsideAcceptRow(w, clock, id, sample, persistEvery, now);
    AcceptKeepsConsistent(w, clock, id, sample, persistEvery, now);
    AcceptChangesOneNode(w, clock, id, sample, persistEvery, now);
    var accepted := Accepted(w, w.nodes[id], sample, persistEvery, now).0;
    var w1 := ClearedInsideAccept(w, w.nodes[id], sample, persistEvery, now);
    ConsistentAgent(accepted, now, id);
    ShownInRange(accepted, now, id, d);
    NewRowSpoilsOnlyShown(accepted, now, id, w1.nodes[id], w1);
    NextSampleRepairs(w1, now, id, RightSample(accepted, id, w1.nodes[id]), next, persistEvery, at);
  }

  /**
   Publishing a sample late leaves the hub right exactly if it shows what the hub showed, and the next
   sample repairs it.
   */
  lemma LatePublish(
    w: World, clock: Instant, id: string, shown: Sample, persistEvery: int, next: Sample, at: Instant, d: Direction)
    requires Consistent(w, clock) && id in w.latest && shown.nodeID == id && clock <= at && 0 < at
    ensures var w1 := Published(w, shown, persistEvery).0;
            && id in w1.nodes
            && (HubRight(w1, id, d) <==> shown.Monthly(d) == w.latest[id].Monthly(d))
            && Consistent(Accepted(w1, w1.nodes[id], next, persistEvery, at).0, at)
  {
    hide TrafficPeriodStart, Accepted, Display, Clamp;
    ConsistentAgent(w, clock, id);
    var w1 := Published(w, shown, persistEvery).0;
    assert w1.latest[id := w.latest[id]] == w.latest;
    NextSampleRepairs(w1, clock, id, w.latest[id], next, persistEvery, at);
  }

  /** The hub after sample `a` was counted, sample `b` and any requests were handled, and `a` was published at last. */
  function OvertakenAccept(
    w: World, node: Node, a: Sample, nowA: Instant, b: Sample, nowB: Instant, persistEvery: int, ops: seq<Op>): World
  {
    var (counted, shown) := Counted(w, node, a, nowA);
    Published(Run(Accepted(counted, node, b, persistEvery, nowB).0, ops), shown, persistEvery).0
  }

  /** Where the second sample leaves the world: the agreement is back, with the first one counted. */
  lemma SecondSampleRestores(
    w: World, clock: Instant, id: string, a: Sample, nowA: Instant, b: Sample, nowB: Instant, persistEvery: int)
    requires Consistent(w, clock) && id in w.latest && clock <= nowA <= nowB && 0 < nowA
    ensures Consistent(Accepted(Counted(w, w.nodes[id], a, nowA).0, w.nodes[id], b, persistEvery, nowB).0, nowB)
    ensures Counted(w, w.nodes[id], a, nowA).1.nodeID == id
  {
    hide TrafficPeriodStart, Applied, Advanced, EntryOk, Accepted, Corrected;
    ConsistentAgent(w, clock, id);
    AcceptKeepsConsistent(w, clock, id, a, persistEvery, nowA);
    AcceptedInTwoParts(w, w.nodes[id], a, persistEvery, nowA);
    CountedChangesStates(w, clock, id, a, nowA);
    var (counted, shown) := Counted(w, w.nodes[id], a, nowA);
    NextSampleRepairs(counted, nowA, id, shown, b, persistEvery, nowB);
  }

  /** After a sample overtaken by another one, and by any requests, the next sample restores the agreement. */
  lemma {:induction false} NextSampleRepairsOvertakenAccept(
    w: World, clock: Instant, id: string, a: Sample, nowA: Instant, b: Sample, nowB: Instant, persistEvery: int,
        ops: seq<Op>,
    next: Sample, at: Instant)
    requires Consistent(w, clock) && id in w.latest && clock <= nowA <= nowB && 0 < nowA
    requires var w1 := Accepted(Counted(w, w.nodes[id], a, nowA).0, w.nodes[id], b, persistEvery, nowB).0;
             Timely(nowB, ops) && InRangeThroughout(w1, ops) && LastTime(nowB, ops) <= at
    ensures var w2 := OvertakenAccept(w, w.nodes[id], a, nowA, b, nowB, persistEvery, ops);
            id in w2.nodes && Consistent(Accepted(w2, w2.nodes[id], next, persistEvery, at).0, at)
  {
    hide TrafficPeriodStart, Counted, Consistent, RawInRange, Accepted, HubRight;
    ConsistentAgent(w, clock, id);
    SecondSampleRestores(w, clock, id, a, nowA, b, nowB, persistEvery);
    var w1 := Accepted(Counted(w, w.nodes[id], a, nowA).0, w.nodes[id], b, persistEvery, nowB).0;
    AcceptListsNode(Counted(w, w.nodes[id], a, nowA).0, w.nodes[id], b, persistEvery, nowB);
    RunStaysConsistent(w1, nowB, ops);
    RunKeepsSamples(w1, ops, id);
    LatePublish(Run(w1, ops), LastTime(nowB, ops), id, Counted(w, w.nodes[id], a, nowA).1, persistEvery, next, at, Rx);
  }

  /** What the tracker has counted, and the late sample will show, when the second sample has been accepted. */
  lemma CountedThenAccepted(
    w: World, clock: Instant, id: string, a: Sample, nowA: Instant, b: Sample, nowB: Instant, persistEvery: int,
        d: Direction)
    requires Consistent(w, clock) && id in w.latest && clock <= nowA <= nowB && 0 < nowA
    ensures id in w.nodes && id in w.tracker.states
    ensures var node := w.nodes[id];
            var (counted, shown) := Counted(w, node, a, nowA);
            var state := Advanced(w.tracker.states[id], a, TrafficPeriodStart(nowA, node.resetDay));
            var w1 := Accepted(counted, node, b, persistEvery, nowB).0;
            && shown.Monthly(d) == Clamp(Display(node, state, d)) && 0 <= Display(node, state, d)
            && w1.nodes == w.nodes && id in w1.tracker.states
            && w1.tracker.states[id] == Advanced(state, b, TrafficPeriodStart(nowB, node.resetDay))
  {
    hide TrafficPeriodStart, Advanced, EntryOk, Accepted, Corrected, Applied, Display, Clamp;
    var node := w.nodes[id];
    ConsistentAgent(w, clock, id);
    AcceptKeepsConsistent(w, clock, id, a, persistEvery, nowA);
    AcceptAdvances(w, id, a, persistEvery, nowA);
    AcceptedInTwoParts(w, node, a, persistEvery, nowA);
    CountedChangesStates(w, clock, id, a, nowA);
    var accepted := Accepted(w, node, a, persistEvery, nowA).0;
    ShownIsRight(accepted, nowA, id, d);
    AcceptAdvances(Counted(w, node, a, nowA).0, id, b, persistEvery, nowB);
  }

  lemma ShownIsRight(w: World, clock: Instant, id: string, d: Direction)
    requires Consistent(w, clock) && id in w.latest
    ensures HubRight(w, id, d) && 0 <= Display(w.nodes[id], w.tracker.states[id], d)
  {
    hide TrafficPeriodStart, Display, Clamp;
  }

  /** The tracker's state after both samples and the requests, and what the late sample does to the hub. */
  lemma {:induction false} OvertakenAcceptState(
    w: World, clock: Instant, id: string, a: Sample, nowA: Instant, b: Sample, nowB: Instant, persistEvery: int,
        ops: seq<Op>,
    period: Instant, d: Direction)
    requires Consistent(w, clock) && id in w.latest && clock <= nowA <= nowB && 0 < nowA
    requires Timely(nowB, ops)
    requires InRangeThroughout(Accepted(Counted(w, w.nodes[id], a, nowA).0, w.nodes[id], b, persistEvery, nowB).0, ops)
    requires period == TrafficPeriodStart(nowB, w.nodes[id].resetDay)
    requires forall i :: 0 <= i < |ops| ==> LeavesCorrection(id, w.nodes[id].resetDay, period, ops[i])
    ensures var node := w.nodes[id];
            var state := Advanced(w.tracker.states[id], a, TrafficPeriodStart(nowA, node.resetDay));
            var final := AdvancedBy(Advanced(state, b, period), SamplesOf(ops, id), period);
            && final.Monthly(d) <= MAX_I64 && 0 <= Display(node, state, d)
            && (HubRight(OvertakenAccept(w, node, a, nowA, b, nowB, persistEvery, ops), id, d)
                <==> Clamp(Display(node, state, d)) == Display(node, final, d))
  {
    hide TrafficPeriodStart, Counted, Consistent, RawInRange, Accepted, HubRight, Display, Clamp, Advanced, AdvancedBy;
    ConsistentAgent(w, clock, id);
    SecondSampleRestores(w, clock, id, a, nowA, b, nowB, persistEvery);
    CountedThenAccepted(w, clock, id, a, nowA, b, nowB, persistEvery, d);
    var (counted, shown) := Counted(w, w.nodes[id], a, nowA);
    var w1 := Accepted(counted, w.nodes[id], b, persistEvery, nowB).0;
    ConsistentAgent(w1, nowB, id);
    RunOnNode(w1, nowB, id, ops, period);
    RunStaysConsistent(w1, nowB, ops);
    InRangeAtEnd(w1, ops);
    ShownInRange(Run(w1, ops), LastTime(nowB, ops), id, d);
    LatePublish(Run(w1, ops), LastTime(nowB, ops), id, shown, persistEvery, b, LastTime(nowB, ops), d);
  }

  /**
   A sample overtaken by another one of its node between counting and publishing. Both are counted.
   Within one period, and while nobody saves or clears, the hub is right about a direction exactly if
   no traffic came after the overtaken sample.
   */
  lemma {:induction false} OvertakenAcceptAgreesIff(
    w: World, clock: Instant, id: string, a: Sample, nowA: Instant, b: Sample, nowB: Instant, persistEvery: int,
        ops: seq<Op>,
    period: Instant, d: Direction)
    requires Consistent(w, clock) && id in w.latest && clock <= nowA <= nowB && 0 < nowA
    requires Timely(nowB, ops)
    requires InRangeThroughout(Accepted(Counted(w, w.nodes[id], a, nowA).0, w.nodes[id], b, persistEvery, nowB).0, ops)
    requires period == TrafficPeriodStart(nowA, w.nodes[id].resetDay) == TrafficPeriodStart(nowB, w.nodes[id].resetDay)
    requires forall i :: 0 <= i < |ops| ==> LeavesCorrection(id, w.nodes[id].resetDay, period, ops[i])
    ensures HubRight(OvertakenAccept(w, w.nodes[id], a, nowA, b, nowB, persistEvery, ops), id, d)
       <==> Used(d, a.bootID, a.Net(d), [b] + SamplesOf(ops, id)) == 0
  {
    hide TrafficPeriodStart, Accepted, Counted, Consistent, Run, HubRight, OvertakenAccept, InRangeThroughout,
         SamplesOf;
    ConsistentAgent(w, clock, id);
    var state, samples := Advanced(w.tracker.states[id], a, period), [b] + SamplesOf(ops, id);
    OvertakenAcceptState(w, clock, id, a, nowA, b, nowB, persistEvery, ops, period, d);
    AdvancedFrom(w.tracker.states[id], a, period, d);
    assert samples[0] == b && samples[1..] == SamplesOf(ops, id);
    TotalIsClampedUsage(state, samples, period, d);
  }

  lemma AdvancedFrom(state: TrafficState, sample: Sample, period: Instant, d: Direction)
    ensures var next := Advanced(state, sample, period);
            next.periodStart == period && next.bootID == sample.bootID && next.Last(d) == sample.Net(d)
  {}

  /**
   If the period ends between the two samples, the late one shows the old period's total, which is
   right exactly if the new period has counted as much.
   */
  lemma {:induction false} OvertakenAcceptAcrossReset(
    w: World, clock: Instant, id: string, a: Sample, nowA: Instant, b: Sample, nowB: Instant, persistEvery: int,
        ops: seq<Op>,
    period: Instant, d: Direction)
    requires Consistent(w, clock) && id in w.latest && clock <= nowA <= nowB && 0 < nowA
    requires Timely(nowB, ops)
    requires InRangeThroughout(Accepted(Counted(w, w.nodes[id], a, nowA).0, w.nodes[id], b, persistEvery, nowB).0, ops)
    requires TrafficPeriodStart(nowA, w.nodes[id].resetDay) < period == TrafficPeriodStart(nowB, w.nodes[id].resetDay)
    requires forall i :: 0 <= i < |ops| ==> LeavesCorrection(id, w.nodes[id].resetDay, period, ops[i])
    ensures var state := Advanced(w.tracker.states[id], a, TrafficPeriodStart(nowA, w.nodes[id].resetDay));
            HubRight(OvertakenAccept(w, w.nodes[id], a, nowA, b, nowB, persistEvery, ops), id, d)
            <==> Clamp(Display(w.nodes[id], state, d)) == Used(d, b.bootID, b.Net(d), SamplesOf(ops, id))
  {
    hide TrafficPeriodStart, Accepted, Counted, Run, HubRight, OvertakenAccept, InRangeThroughout, SamplesOf, EntryOk;
    var node, before := w.nodes[id], TrafficPeriodStart(nowA, w.nodes[id].resetDay);
    OvertakenAcceptState(w, clock, id, a, nowA, b, nowB, persistEvery, ops, period, d);
    AdvancedFrom(w.tracker.states[id], a, before, d);
    assert Advanced(Advanced(w.tracker.states[id], a, before), b, period) == Baseline(b, period);
    TotalIsClampedUsage(Baseline(b, period), SamplesOf(ops, id), period, d);
    CorrectionNotFromFuture(w, clock, id);
    PeriodStartMonotone(w.latest[id].receivedAt, nowA, node.resetDay);
  }

  lemma CorrectionNotFromFuture(w: World, clock: Instant, id: string)
    requires Consistent(w, clock) && id in w.latest
    ensures w.latest[id].receivedAt <= clock
    ensures w.nodes[id].correctionPeriod.Some? ==>
              w.nodes[id].correctionPeriod.value <= TrafficPeriodStart(w.latest[id].receivedAt, w.nodes[id].resetDay)
  {
    hide TrafficPeriodStart;
  }

  lemma AcceptListsNode(w: World, node: Node, sample: Sample, persistEvery: int, now: Instant)
    ensures node.id in Accepted(w, node, sample, persistEvery, now).0.latest
  {
    hide TrafficPeriodStart, Advanced;
  }

  lemma {:induction false} RunKeepsSamples(w: World, ops: seq<Op>, id: string)
    requires id in w.latest
    ensures id in Run(w, ops).latest
    decreases |ops|
  {
    hide Step;
    if ops != [] {
      RunKeepsSamples(w, ops[..|ops| - 1], id);
      StepKeepsSamples(Run(w, ops[..|ops| - 1]), ops[|ops| - 1], id);
    }
  }

  lemma StepKeepsSamples(w: World, op: Op, id: string)
    requires id in w.latest
    ensures id in Step(w, op).latest
  {
    hide TrafficPeriodStart, Applied, Uncorrected, Corrected;
  }

  // ----- inputs on which the hub is wrong

  /** The example world with a sample of 50 bytes counted and not yet published. */
  lemma ExampleCounted(t: Instant)
    requires 0 < t
    ensures "n" in ExampleWorld(t).nodes && "n" in ExampleWorld(t).latest && ExampleWorld(t).nodes["n"] == EXAMPLE_NODE
    ensures var (counted, shown) := Counted(ExampleWorld(t), EXAMPLE_NODE, EXAMPLE_SAMPLE, t);
            && counted.nodes == map["n" := EXAMPLE_NODE]
               && counted.latest == map["n" := Sample("n", "boot", 0, 0, 0, 0, t, t)]
            && counted.tracker == Tracker(map["n" := TrafficState("boot", 50, 0, 50, 0, TrafficPeriodStart(t, 1))],
                                          map["n" := PolicyFromNode(EXAMPLE_NODE)])
            && shown == Sample("n", "boot", 50, 0, 50, 0, t, t)
  {
    hide TrafficPeriodStart, ExampleWorld;
    ExampleWorldIs(t);
  }

  /** A save of 100 inside the acceptance of 50 bytes: the hub shows 50 where 150 is right. */
  lemma SaveInsideAcceptExample(t: Instant)
    requires 0 < t
    ensures Consistent(ExampleWorld(t), t) && RawInRange(ExampleWorld(t))
    ensures SaveCorrection(Counted(ExampleWorld(t), EXAMPLE_NODE, EXAMPLE_SAMPLE, t).0, "n", 100, 0, t, true).1.Done?
    ensures var w := SavedInsideAccept(ExampleWorld(t), EXAMPLE_NODE, EXAMPLE_SAMPLE, 60, t, 100, 0);
            !HubRight(w, "n", Rx) && Shows(w, "n", 50, 150)
  {
    hide TrafficPeriodStart, ExampleWorld, Counted, Consistent;
    ExampleWorldConsistent(t);
    ExampleSnapshot(t);
    ExampleCounted(t);
  }

  /** A sample of 50 bytes overtaken by one of 100: the hub shows 50 where 100 is right. */
  lemma OvertakenAcceptExample(t: Instant, second: Sample)
    requires 0 < t && second == EXAMPLE_SAMPLE.(netRx := 100)
    ensures Consistent(ExampleWorld(t), t)
    ensures var w := OvertakenAccept(ExampleWorld(t), EXAMPLE_NODE, EXAMPLE_SAMPLE, t, second, t, 60, []);
            !HubRight(w, "n", Rx) && Shows(w, "n", 50, 100)
  {
    hide TrafficPeriodStart, ExampleWorld, Counted, Consistent;
    ExampleWorldConsistent(t);
    ExampleCounted(t);
  }

  /** The example world after a save of 100. */
  lemma ExampleSaved(t: Instant)
    requires 0 < t
    ensures var w := SaveCorrection(ExampleWorld(t), "n", 100, 0, t, true).0;
            var saved := Node("n", true, 1, 100, 0, Some(TrafficPeriodStart(t, 1)));
            && Consistent(w, t)
            && w.nodes == map["n" := saved] && w.latest == map["n" := Sample("n", "boot", 0, 0, 100, 0, t, t)]
            && w.tracker == Tracker(map["n" := TrafficState("boot", 0, 0, 0, 0, TrafficPeriodStart(t, 1))],
                                    map["n" := PolicyFromNode(saved)])
  {
    hide TrafficPeriodStart, ExampleWorld, Consistent;
    ExampleWorldConsistent(t);
    ExampleSnapshot(t);
    ExampleWorldIs(t);
    SaveKeepsConsistent(ExampleWorld(t), t, "n", 100, 0, t, true);
  }

  /** A clear inside the acceptance of 50 bytes, with 100 in effect: the hub shows 150 where 50 is right. */
  lemma ClearInsideAcceptExample(t: Instant)
    requires 0 < t
    ensures var w := SaveCorrection(ExampleWorld(t), "n", 100, 0, t, true).0;
            && Consistent(w, t) && "n" in w.nodes
            && var w1 := ClearedInsideAccept(w, w.nodes["n"], EXAMPLE_SAMPLE, 60, t);
               !HubRight(w1, "n", Rx) && Shows(w1, "n", 150, 50)
  {
    hide TrafficPeriodStart, ExampleWorld, Consistent, SaveCorrection, Uncorrected;
    ExampleSaved(t);
    var w := SaveCorrection(ExampleWorld(t), "n", 100, 0, t, true).0;
    var (counted, shown) := Counted(w, w.nodes["n"], EXAMPLE_SAMPLE, t);
    assert shown == Sample("n", "boot", 50, 0, 150, 0, t, t);
    ClearWrites(counted, "n", t);
  }
}
