/**
 Restarting the server over stored corrections and checkpoints.
 */
module TrafficRestart {
  import opened Basics
  import opened Calendar
  import opened Traffic
  import opened TrafficSystem

  // ----- restarting over a saved correction

  /** The world right after a restart: totals from the checkpoints, shown under the stored corrections. */
  function Restarted(nodes: map<string, Node>, checkpoints: map<string, Sample>): World {
    var tracker := Loaded(Tracker(map[], map[]), checkpoints, nodes);
    World(nodes, tracker,
          map id | id in checkpoints :: Corrected(tracker, id, checkpoints[id]),
          map id | id in checkpoints :: checkpoints[id].receivedAt)
  }

  /** A checkpoint on which the node's stored correction can be displayed without clamping at zero. */
  predicate CheckpointCovers(node: Node, checkpoint: Sample) {
    node.correctionPeriod.Some? ==>
      var period := TrafficPeriodStart(checkpoint.receivedAt, node.resetDay);
      && node.correctionPeriod.value <= period
      && (node.correctionPeriod.value == period ==>
            0 <= checkpoint.monthlyRx + node.rxCorrection && 0 <= checkpoint.monthlyTx + node.txCorrection)
  }

  /** A restart loads one node as if it were alone. */
  lemma RestartedNode(nodes: map<string, Node>, checkpoints: map<string, Sample>, id: string)
    requires id in checkpoints && id in nodes && nodes[id].id == id
    ensures var w := Restarted(nodes, checkpoints);
            && w.nodes == nodes && w.latest.Keys == w.tracker.states.Keys == w.tracker.policies.Keys == checkpoints.Keys
            && w.tracker.policies[id] == PolicyFromNode(nodes[id])
            && w.tracker.states[id] == LoadedState(checkpoints[id], nodes[id])
            && w.latest[id] == Corrected(w.tracker, id, checkpoints[id])
  {
    hide TrafficPeriodStart, Corrected;
  }

  /**
   A restart resumes with hub, tracker and node table in agreement exactly when every stored
   correction has a checkpoint on which it can be displayed without clamping.
   */
  lemma RestartConsistentIff(nodes: map<string, Node>, checkpoints: map<string, Sample>, clock: Instant)
    requires forall n :: n in nodes ==> nodes[n].id == n
    requires checkpoints.Keys <= nodes.Keys
    requires forall n :: n in checkpoints ==> checkpoints[n].nodeID == n && 0 < checkpoints[n].receivedAt <= clock
    requires 0 <= clock
    ensures Consistent(Restarted(nodes, checkpoints), clock) <==>
            forall n :: n in nodes ==>
              if n in checkpoints then CheckpointCovers(nodes[n], checkpoints[n]) else nodes[n].correctionPeriod.None?
  {
    hide TrafficPeriodStart, EntryOk, CheckpointCovers, Restarted, LoadedState, Corrected, PolicyFromNode;
    var w := Restarted(nodes, checkpoints);
    RestartedKeys(nodes, checkpoints);
    forall n | n in checkpoints
      ensures n in w.tracker.states && n in w.latest && w.latest[n].nodeID == n
      ensures n in w.tracker.policies && w.tracker.policies[n] == PolicyFromNode(nodes[n])
      ensures EntryOk(nodes[n], w.tracker.states[n], w.latest[n], clock) <==> CheckpointCovers(nodes[n], checkpoints[n])
    {
      RestartedNode(nodes, checkpoints, n);
      RestartEntryIff(w.tracker, nodes[n], checkpoints[n], clock);
    }
  }

  lemma RestartedKeys(nodes: map<string, Node>, checkpoints: map<string, Sample>)
    ensures var w := Restarted(nodes, checkpoints);
            w.nodes == nodes && w.latest.Keys == w.tracker.states.Keys == w.tracker.policies.Keys == checkpoints.Keys
  {
    hide TrafficPeriodStart, Corrected;
  }

  lemma RestartEntryIff(t: Tracker, node: Node, checkpoint: Sample, clock: Instant)
    requires node.id in t.policies && t.policies[node.id] == PolicyFromNode(node)
    requires 0 < checkpoint.receivedAt <= clock && checkpoint.nodeID == node.id
    ensures Corrected(t, node.id, checkpoint).nodeID == node.id
    ensures EntryOk(node, LoadedState(checkpoint, node), Corrected(t, node.id, checkpoint), clock)
       <==> CheckpointCovers(node, checkpoint)
  {
    hide TrafficPeriodStart;
    var state, shown := LoadedState(checkpoint, node), Corrected(t, node.id, checkpoint);
    CorrectedShowsDisplay(t, node, state, checkpoint, Rx);
    CorrectedShowsDisplay(t, node, state, checkpoint, Tx);
    assert (forall d: Direction :: 0 <= Display(node, state, d))
      <==> 0 <= Display(node, state, Rx) && 0 <= Display(node, state, Tx);
  }

  /** After a restart the next sample is due for the database an interval after the checkpoint. */
  lemma RestartKeepsSchedule(
    nodes: map<string, Node>, checkpoints: map<string, Sample>, id: string, next: Sample, persistEvery: int,
        at: Instant)
    requires id in checkpoints && id in nodes && nodes[id].id == id && checkpoints[id].receivedAt != 0
    ensures Accepted(Restarted(nodes, checkpoints), nodes[id], next, persistEvery, at).1
       <==> at - checkpoints[id].receivedAt >= persistEvery
  {
    hide TrafficPeriodStart, Accepted, Corrected;
    AcceptedDue(Restarted(nodes, checkpoints), nodes[id], next, persistEvery, at);
  }

  /** The stored sample of a node whose tracker state was `state`, received in the state's period. */
  predicate CheckpointOf(checkpoint: Sample, state: TrafficState, node: Node) {
    && checkpoint == Stored(Checkpoint(state, checkpoint)) && checkpoint.receivedAt != 0
    && state.periodStart == TrafficPeriodStart(checkpoint.receivedAt, node.resetDay)
  }

  /**
   Right after a restart from a checkpoint of the period the hub shows what it showed before exactly
   if no traffic was counted since the checkpoint, or nothing was shown.
   */
  lemma RestartShowsSameIff(
    w: World, clock: Instant, checkpoints: map<string, Sample>, id: string, saved: TrafficState, d: Direction)
    requires Consistent(w, clock) && RawInRange(w) && id in w.latest && id in checkpoints
    requires CheckpointOf(checkpoints[id], saved, w.nodes[id]) && saved.periodStart == w.tracker.states[id].periodStart
    requires saved.Monthly(d) <= w.tracker.states[id].Monthly(d)
    ensures var w1 := Restarted(w.nodes, checkpoints);
            && id in w1.latest
            && (w1.latest[id].Monthly(d) == w.latest[id].Monthly(d) <==>
                  saved.Monthly(d) == w.tracker.states[id].Monthly(d) || w.latest[id].Monthly(d) == 0)
  {
    hide TrafficPeriodStart, Restarted, Consistent, RawInRange, Corrected;
    ConsistentAgent(w, clock, id);
    RestartedNode(w.nodes, checkpoints, id);
    var w1 := Restarted(w.nodes, checkpoints);
    ShownInRange(w, clock, id, d);
    CorrectedShowsDisplay(w1.tracker, w.nodes[id], w1.tracker.states[id], checkpoints[id], d);
    assert w1.tracker.states[id].Monthly(d) == saved.Monthly(d);
  }

  /** The example node at a counter and total of `bytes`, without a correction. */
  predicate ExampleAt(w: World, t: Instant, bytes: uint64) {
    && w.nodes == map["n" := EXAMPLE_NODE] && w.latest == map["n" := Sample("n", "boot", bytes, 0, bytes, 0, t, t)]
    && w.tracker == Tracker(map["n" := TrafficState("boot", bytes, 0, bytes, 0, TrafficPeriodStart(t, 1))],
                            map["n" := PolicyFromNode(EXAMPLE_NODE)])
  }

  function ExampleSampleAt(t: Instant, bytes: uint64): Op {
    Accept("n", Sample("n", "boot", bytes, 0, 0, 0, 0, t), 60, t)
  }

  lemma ExampleGrows(w: World, t: Instant, bytes: uint64, more: uint64)
    requires 0 < t && ExampleAt(w, t, bytes) && bytes <= more
    ensures ExampleAt(Step(w, ExampleSampleAt(t, more)), t, more)
  {
    hide TrafficPeriodStart;
  }

  /** The example node at 100 bytes, from which the checkpoint is taken, and then at 150. */
  function HundredBytes(t: Instant): World { Step(ExampleWorld(t), ExampleSampleAt(t, 100)) }

  function HundredFiftyBytes(t: Instant): World { Step(HundredBytes(t), ExampleSampleAt(t, 150)) }

  lemma ExampleCheckpoint(t: Instant)
    requires 0 < t
    ensures ExampleAt(HundredBytes(t), t, 100) && ExampleAt(HundredFiftyBytes(t), t, 150)
  {
    hide TrafficPeriodStart, ExampleWorld, Step;
    ExampleWorldIs(t);
    ExampleGrows(ExampleWorld(t), t, 0, 100);
    ExampleGrows(HundredBytes(t), t, 100, 150);
  }

  lemma ExampleSaveOf20(w: World, t: Instant)
    requires 0 < t && ExampleAt(w, t, 150)
    ensures var (saved, response) := SaveCorrection(w, "n", 20, 0, t, true);
            && response.Done? && saved.nodes == map["n" := Node("n", true, 1, -130, 0, Some(TrafficPeriodStart(t, 1)))]
            && "n" in saved.latest && saved.latest["n"].monthlyRx == 20
  {
    hide TrafficPeriodStart;
  }

  /**
   A checkpoint at 100 bytes, a save of 20 at 150 bytes, and a restart from the checkpoint: the stored
   correction clamps, the hub shows 0 instead of 20, and undoing it gives 130 instead of 100.
   */
  lemma RestartClampsAtZero(t: Instant, checkpoint: Sample)
    requires 0 < t && "n" in HundredBytes(t).latest && checkpoint == Stored(HundredBytes(t).latest["n"])
    ensures var (saved, response) := SaveCorrection(HundredFiftyBytes(t), "n", 20, 0, t, true);
            && response.Done? && "n" in saved.nodes && "n" in saved.latest && saved.latest["n"].monthlyRx == 20
            && "n" in HundredBytes(t).tracker.states
            && CheckpointOf(checkpoint, HundredBytes(t).tracker.states["n"], saved.nodes["n"])
            && !CheckpointCovers(saved.nodes["n"], checkpoint)
            && var w := Restarted(saved.nodes, map["n" := checkpoint]);
               && "n" in w.latest && w.latest["n"].monthlyRx == 0
               && Uncorrected(w.tracker, "n", w.latest["n"]).monthlyRx == 130
  {
    hide TrafficPeriodStart, HundredBytes, HundredFiftyBytes, SaveCorrection, Restarted;
    ExampleCheckpoint(t);
    ExampleSaveOf20(HundredFiftyBytes(t), t);
    RestartedNode(SaveCorrection(HundredFiftyBytes(t), "n", 20, 0, t, true).0.nodes, map["n" := checkpoint], "n");
  }

  // ----- the next sample after a restart

  /** What the hub shows once a restarted server has accepted a sample of the node. */
  lemma SampleAfterRestart(
    nodes: map<string, Node>, checkpoints: map<string, Sample>, id: string, next: Sample, persistEvery: int,
        at: Instant, d: Direction)
    requires id in checkpoints && id in nodes && nodes[id].id == id && 0 < at
    ensures var w := Accepted(Restarted(nodes, checkpoints), nodes[id], next, persistEvery, at).0;
            var state := Advanced(LoadedState(checkpoints[id], nodes[id]), next,
                TrafficPeriodStart(at, nodes[id].resetDay));
            && id in w.latest && w.latest[id].Monthly(d) == Clamp(Display(nodes[id], state, d))
  {
    hide TrafficPeriodStart, Restarted, LoadedState, Corrected, Advanced;
    RestartedNode(nodes, checkpoints, id);
    var w0, node := Restarted(nodes, checkpoints), nodes[id];
    var (tracker, raw) := Applied(w0.tracker, node, Stamped(node, next, at), at);
    AdvancedStamped(w0.tracker.states[id], node, next, at);
    AdvancedPeriod(w0.tracker.states[id], next, TrafficPeriodStart(at, node.resetDay));
    CorrectedShowsDisplay(tracker, node, tracker.states[id], raw, d);
  }

  lemma AdvancedStamped(state: TrafficState, node: Node, sample: Sample, now: Instant)
    ensures forall period :: Advanced(state, Stamped(node, sample, now), period) == Advanced(state, sample, period)
  {}

  lemma AdvancedPeriod(state: TrafficState, sample: Sample, period: Instant)
    ensures Advanced(state, sample, period).periodStart == period
  {}

  /**
   After a restart from any checkpoint of the save's period and boot, taken before or after the save,
   the node's next sample shows the saved target plus the traffic since the save.
   */
  lemma {:induction false} SavedTargetSurvivesRestart(
    w: World, clock: Instant, id: string, rx: uint64, tx: uint64, now: Instant, w1: World,
    start: TrafficState, samples: seq<Sample>, save: nat, stored: nat, checkpoints: map<string, Sample>,
    next: Sample, persistEvery: int, at: Instant, d: Direction)
    requires Consistent(w, clock) && RawInRange(w) && clock <= now && 0 < at
    requires SaveCorrection(w, id, rx, tx, now, true) == (w1, Done)
    requires id in w.nodes && id in w1.nodes && id in w.tracker.states && id in checkpoints
    requires save <= |samples| && stored <= |samples|
    requires start.periodStart == TrafficPeriodStart(now, w.nodes[id].resetDay)
             == TrafficPeriodStart(at, w.nodes[id].resetDay)
    requires w.tracker.states[id] == AdvancedBy(start, samples[..save], start.periodStart)
    requires CheckpointOf(checkpoints[id], AdvancedBy(start, samples[..stored], start.periodStart), w1.nodes[id])
    requires Climbing(d, start.bootID, start.Last(d), samples + [next])
    requires start.Monthly(d) + next.Net(d) - start.Last(d) <= MAX_I64 && next.Net(d) <= MAX_I64
    ensures var w2 := Accepted(Restarted(w1.nodes, checkpoints), w1.nodes[id], next, persistEvery, at).0;
            var saved := w.tracker.states[id];
            && id in w2.latest
            && w2.latest[id].Monthly(d) == (if d.Rx? then rx else tx)
               + Used(d, saved.bootID, saved.Last(d), samples[save..] + [next])
  {
    hide TrafficPeriodStart, Consistent, RawInRange, SaveCorrection, Restarted, Accepted, LoadedState, AdvancedBy,
         Used, Climbing, Advanced;
    SaveSetsCorrection(w, clock, id, rx, tx, now);
    SaveKeepsIds(w, clock, id, rx, tx, now);
    SampleAfterRestart(w1.nodes, checkpoints, id, next, persistEvery, at, d);
    var period, saved, loaded := start.periodStart, w.tracker.states[id], LoadedState(checkpoints[id], w1.nodes[id]);
    ClimbTo(start, samples, next, save, d);
    ReloadedClimb(start, samples, next, stored, checkpoints[id], w1.nodes[id], d);
    DisplayIsTargetPlusUsage(w1.nodes[id], saved, Advanced(loaded, next, period), if d.Rx? then rx else tx,
                             Used(d, saved.bootID, saved.Last(d), samples[save..] + [next]), d);
  }

  lemma SaveKeepsIds(w: World, clock: Instant, id: string, rx: uint64, tx: uint64, now: Instant)
    requires Consistent(w, clock) && RawInRange(w) && SaveCorrection(w, id, rx, tx, now, true).1.Done?
    ensures var w1 := SaveCorrection(w, id, rx, tx, now, true).0;
            id in w1.nodes && w1.nodes[id].id == id
  {
    hide Consistent, RawInRange, SaveCorrection;
    SaveChangesOneNode(w, clock, id, rx, tx, now);
  }

  /** A climb of one boot's counters, cut at `k`: what was counted before and what is still to come. */
  lemma {:induction false} ClimbTo(start: TrafficState, samples: seq<Sample>, next: Sample, k: nat, d: Direction)
    requires k <= |samples| && Climbing(d, start.bootID, start.Last(d), samples + [next])
    requires start.Monthly(d) + next.Net(d) - start.Last(d) <= MAX_I64
    ensures var state := AdvancedBy(start, samples[..k], start.periodStart);
            && state.periodStart == start.periodStart && state.bootID == start.bootID == next.bootID
            && start.Last(d) <= state.Last(d) <= next.Net(d)
            && state.Monthly(d) == start.Monthly(d) + state.Last(d) - start.Last(d)
            && Used(d, state.bootID, state.Last(d), samples[k..] + [next]) == next.Net(d) - state.Last(d)
    decreases k
  {
    hide TrafficPeriodStart;
    if k == 0 {
      assert samples[..0] == [] && samples[0..] == samples;
      ClimbingUsageTelescopes(d, start.bootID, start.Last(d), samples + [next]);
    } else {
      var first := Advanced(start, samples[0], start.periodStart);
      assert (samples + [next])[0] == samples[0] && (samples + [next])[1..] == samples[1..] + [next];
      ClimbingUsageTelescopes(d, start.bootID, samples[0].Net(d), samples[1..] + [next]);
      ClimbTo(first, samples[1..], next, k - 1, d);
      assert samples[..k][0] == samples[0] && samples[..k][1..] == samples[1..][..k - 1];
      assert samples[1..][k - 1..] == samples[k..];
    }
  }

  /** A server reloaded from the checkpoint after `stored` samples counts up to the same total at the next one. */
  lemma {:induction false} ReloadedClimb(
    start: TrafficState, samples: seq<Sample>, next: Sample, stored: nat, checkpoint: Sample, node: Node, d: Direction)
    requires stored <= |samples| && Climbing(d, start.bootID, start.Last(d), samples + [next])
    requires start.Monthly(d) + next.Net(d) - start.Last(d) <= MAX_I64 && next.Net(d) <= MAX_I64
    requires CheckpointOf(checkpoint, AdvancedBy(start, samples[..stored], start.periodStart), node)
    ensures var total := Advanced(LoadedState(checkpoint, node), next, start.periodStart);
            && total.periodStart == start.periodStart
            && total.Monthly(d) == start.Monthly(d) + next.Net(d) - start.Last(d)
  {
    hide TrafficPeriodStart, AdvancedBy, Climbing, Used;
    var state := AdvancedBy(start, samples[..stored], start.periodStart);
    ClimbTo(start, samples, next, stored, d);
    ReloadedTotal(LoadedState(checkpoint, node), next, start.periodStart, d);
  }
}
