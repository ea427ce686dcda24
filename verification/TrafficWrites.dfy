/**
 The traffic handlers taken apart: a save or a clear writes the node's row, then the tracker's policy,
 and then fetches, corrects and replaces the hub's sample; an accepted sample is counted, corrected and
 published. Every part is one atomic step and the parts of any number of requests interleave freely.
 */
module TrafficWrites {
  import opened Basics
  import opened Calendar
  import opened Traffic
  import opened TrafficSystem

  // ----- what a save or a clear writes

  datatype Correction = Correction(rx: int64, tx: int64, period: Option<Instant>)
  {
    function In(d: Direction): int64 { if d.Rx? then rx else tx }

    /** What takes part in the totals of a billing period. */
    function Effect(periodStart: Instant, d: Direction): int { if period == Some(periodStart) then In(d) else 0 }
  }

  const NO_CORRECTION := Correction(0, 0, None)

  function RowCorrection(node: Node): Correction {
    Correction(node.rxCorrection, node.txCorrection, node.correctionPeriod)
  }

  function PolicyCorrection(policy: Policy): Correction {
    Correction(policy.rxCorrection, policy.txCorrection, policy.periodStart)
  }

  datatype Request = SaveTotals(rx: uint64, tx: uint64) | ClearTotals

  /** Whether a handler that read `status` goes on to write. */
  predicate Admitted(request: Request, status: Status) {
    request.SaveTotals? ==>
      && status.available && request.rx <= MAX_CORRECTION && request.tx <= MAX_CORRECTION
      && status.rawRx <= MAX_CORRECTION && status.rawTx <= MAX_CORRECTION
  }

  function CorrectionFor(request: Request, status: Status): Correction
    requires Admitted(request, status)
  {
    match request
    case SaveTotals(rx, tx) =>
      Correction(TrafficAdjustment(rx, status.rawRx), TrafficAdjustment(tx, status.rawTx), Some(status.periodStart))
    case ClearTotals => NO_CORRECTION
  }

  /** How far a handler has got; `Fetched` and `Prepared` hold the hub's sample on its way back. */
  datatype Stage = Decided | RowWritten | PolicyWritten | Fetched(sample: Sample) | Prepared(sample: Sample)

  datatype Handler = Handler(id: string, resetDay: int, request: Request, status: Status, correction: Correction,
      stage: Stage)

  function RowWrite(w: World, id: string, c: Correction): World
    requires id in w.nodes
  {
    w.(nodes := w.nodes[id := w.nodes[id].(rxCorrection := c.rx, txCorrection := c.tx, correctionPeriod := c.period)])
  }

  function PolicyWrite(w: World, id: string, resetDay: int, c: Correction): World {
    w.(tracker := w.tracker.(policies := w.tracker.policies[id := Policy(resetDay, c.rx, c.tx, c.period)]))
  }

  /** The sample that goes back to the hub: the captured raw totals, corrected after a save. */
  function Prepare(t: Tracker, h: Handler, fetched: Sample): Sample {
    var raw := fetched.WithMonthly(h.status.rawRx, h.status.rawTx);
    if h.request.ClearTotals? then raw else Corrected(t, h.id, raw)
  }

  // ----- all requests together

  /** An accepted sample on its way: counted by the tracker, or corrected and ready for the hub. */
  datatype Arrival = Raw(sample: Sample) | Shown(sample: Sample)

  datatype System = System(world: World, handlers: map<nat, Handler>, arrivals: map<nat, Arrival>)

  datatype Event =
    | Start(h: nat, id: string, request: Request, status: Status)
    | WriteRow(h: nat, storeOk: bool)
    | WritePolicy(h: nat)
    | Fetch(h: nat)
    | CorrectFetched(h: nat)
    | Replace(h: nat)
    | Count(a: nat, id: string, sample: Sample, at: Instant)
    | CorrectCounted(a: nat)
    | Publish(a: nat, persistEvery: int)

  /**
   When an event can happen. A handler may have read any status, in however many steps; requests and
   samples carry fresh numbers while they are under way.
   */
  predicate Enabled(s: System, e: Event) {
    match e
    case Start(h, id, request, status) =>
      h !in s.handlers && id in s.world.nodes && s.world.nodes[id].isMonitor && Admitted(request, status)
    case WriteRow(h, _) => h in s.handlers && s.handlers[h].stage.Decided? && s.handlers[h].id in s.world.nodes
    case WritePolicy(h) => h in s.handlers && s.handlers[h].stage.RowWritten?
    case Fetch(h) => h in s.handlers && s.handlers[h].stage.PolicyWritten?
    case CorrectFetched(h) => h in s.handlers && s.handlers[h].stage.Fetched?
    case Replace(h) => h in s.handlers && s.handlers[h].stage.Prepared?
    case Count(a, id, _, at) => a !in s.arrivals && id in s.world.nodes && 0 < at
    case CorrectCounted(a) => a in s.arrivals && s.arrivals[a].Raw?
    case Publish(a, _) => a in s.arrivals && s.arrivals[a].Shown?
  }

  function Moved(s: System, h: nat, stage: Stage): map<nat, Handler>
    requires h in s.handlers
  {
    s.handlers[h := s.handlers[h].(stage := stage)]
  }

  function Apply(s: System, e: Event): System
    requires Enabled(s, e)
  {
    var w := s.world;
    match e
    case Start(h, id, request, status) =>
      s.(handlers := s.handlers[h := Handler(id, w.nodes[id].resetDay, request, status, CorrectionFor(request, status),
          Decided)])
    case WriteRow(h, storeOk) =>
      if storeOk then s.(world := RowWrite(w, s.handlers[h].id, s.handlers[h].correction),
          handlers := Moved(s, h, RowWritten))
      else s.(handlers := s.handlers - {h})
    case WritePolicy(h) =>
      var handler := s.handlers[h];
      s.(world := PolicyWrite(w, handler.id, handler.resetDay, handler.correction),
          handlers := Moved(s, h, PolicyWritten))
    case Fetch(h) =>
      var id := s.handlers[h].id;
      s.(handlers := if id in w.latest then Moved(s, h, Fetched(w.latest[id])) else s.handlers - {h})
    case CorrectFetched(h) =>
      s.(handlers := Moved(s, h, Prepared(Prepare(w.tracker, s.handlers[h], s.handlers[h].stage.sample))))
    case Replace(h) => s.(world := Replaced(w, s.handlers[h].stage.sample), handlers := s.handlers - {h})
    case Count(a, id, sample, at) =>
      var (tracker, raw) := Applied(w.tracker, w.nodes[id], Stamped(w.nodes[id], sample, at), at);
      s.(world := w.(tracker := tracker), arrivals := s.arrivals[a := Raw(raw)])
    case CorrectCounted(a) =>
      var raw := s.arrivals[a].sample;
      s.(arrivals := s.arrivals[a := Shown(Corrected(w.tracker, raw.nodeID, raw))])
    case Publish(a, persistEvery) =>
      s.(world := Published(w, s.arrivals[a].sample, persistEvery).0, arrivals := s.arrivals - {a})
  }

  ghost predicate IsRun(run: seq<System>, events: seq<Event>) {
    && |run| == |events| + 1
    && forall i :: 0 <= i < |events| ==> Enabled(run[i], events[i]) && run[i + 1] == Apply(run[i], events[i])
  }

  // ----- the parts in a row are the handlers

  /** Undisturbed, the parts of a save and of a clear do what the handlers do as one step. */
  lemma PartsInARowCommit(w: World, id: string, request: Request, status: Status)
    requires id in w.nodes && w.nodes[id].id == id && Admitted(request, status)
    requires id in w.latest ==> w.latest[id].nodeID == id
    ensures var c := CorrectionFor(request, status);
            var h := Handler(id, w.nodes[id].resetDay, request, status, c, PolicyWritten);
            var written := PolicyWrite(RowWrite(w, id, c), id, h.resetDay, c);
            var replaced := if id in w.latest
                then Replaced(written, Prepare(written.tracker, h, w.latest[id])) else written;
            replaced == match request
                        case SaveTotals(rx, tx) => CommitSave(w, w.nodes[id], status, rx, tx)
                        case ClearTotals => CommitClear(w, w.nodes[id], status)
  {
    hide TrafficPeriodStart;
  }

  /** A handler is admitted exactly if the handler as one step would go on to write. */
  lemma AdmittedAsTheHandler(w: World, id: string, rx: uint64, tx: uint64, now: Instant)
    requires id in w.nodes
    ensures w.nodes[id].isMonitor && Admitted(SaveTotals(rx, tx), Snapshot(w, w.nodes[id], now))
       <==> SaveCorrection(w, id, rx, tx, now, true).1.Done?
    ensures w.nodes[id].isMonitor && Admitted(ClearTotals, Snapshot(w, w.nodes[id], now))
       <==> ClearCorrection(w, id, now, true).1.Done?
  {
    hide TrafficPeriodStart, Uncorrected, CommitSave, CommitClear;
  }

  /**
   A clear puts the captured raw totals back whatever policy is in force; a save puts its targets back
   under its own.
   */
  lemma PreparedTotals(t: Tracker, h: Handler, sample: Sample)
    requires Admitted(h.request, h.status) && h.correction == CorrectionFor(h.request, h.status)
    ensures h.request.ClearTotals? ==>
              Prepare(t, h, sample).monthlyRx == h.status.rawRx && Prepare(t, h, sample).monthlyTx == h.status.rawTx
    ensures h.request.SaveTotals? && h.id in t.policies && PolicyCorrection(t.policies[h.id]) == h.correction
            && CorrectionApplies(t.policies[h.id], MetricTime(sample)) ==>
              Prepare(t, h, sample).monthlyRx == h.request.rx && Prepare(t, h, sample).monthlyTx == h.request.tx
  {
    hide TrafficPeriodStart, CorrectionApplies;
    SignedArithmeticClamps(h.status.rawRx, h.correction.rx);
    SignedArithmeticClamps(h.status.rawTx, h.correction.tx);
    if h.request.SaveTotals? && h.id in t.policies {
      assert MetricTime(sample.WithMonthly(h.status.rawRx, h.status.rawTx)) == MetricTime(sample);
    }
  }

  /** The system with one handler more, at a stage and over a world. */
  function With(s: System, h: nat, handler: Handler, stage: Stage, w: World): System {
    s.(world := w, handlers := s.handlers[h := handler.(stage := stage)])
  }

  lemma AddAndRemove<V>(m: map<nat, V>, k: nat, v: V)
    requires k !in m
    ensures m[k := v] - {k} == m
  {}

  lemma StartEvent(s: System, h: nat, id: string, request: Request, status: Status)
    requires h !in s.handlers && id in s.world.nodes && s.world.nodes[id].isMonitor && Admitted(request, status)
    ensures Enabled(s, Start(h, id, request, status))
    ensures var handler := Handler(id, s.world.nodes[id].resetDay, request, status, CorrectionFor(request, status),
            Decided);
            Apply(s, Start(h, id, request, status)) == With(s, h, handler, Decided, s.world)
  {
    hide CorrectionFor;
  }

  /** One after another: the row, which may fail, and the policy. */
  lemma WriteEvents(s: System, h: nat, handler: Handler, w: World)
    requires h !in s.handlers && handler.id in w.nodes
    ensures var decided := With(s, h, handler, Decided, w);
            && Enabled(decided, WriteRow(h, true)) && Enabled(decided, WriteRow(h, false))
            && Apply(decided, WriteRow(h, true))
               == With(s, h, handler, RowWritten, RowWrite(w, handler.id, handler.correction))
            && Apply(decided, WriteRow(h, false)) == s.(world := w)
    ensures var written := With(s, h, handler, RowWritten, w);
            && Enabled(written, WritePolicy(h))
            && Apply(written, WritePolicy(h))
               == With(s, h, handler, PolicyWritten, PolicyWrite(w, handler.id, handler.resetDay, handler.correction))
  {
    hide RowWrite, PolicyWrite;
    AddAndRemove(s.handlers, h, handler.(stage := Decided));
  }

  /** And the sample: fetched, corrected and put back. */
  lemma RepublishEvents(s: System, h: nat, handler: Handler, w: World, sample: Sample)
    requires h !in s.handlers && handler.id in w.latest
    ensures var written := With(s, h, handler, PolicyWritten, w);
            && Enabled(written, Fetch(h))
               && Apply(written, Fetch(h)) == With(s, h, handler, Fetched(w.latest[handler.id]), w)
    ensures var fetched := With(s, h, handler, Fetched(sample), w);
            && Enabled(fetched, CorrectFetched(h))
            && Apply(fetched, CorrectFetched(h))
               == With(s, h, handler, Prepared(Prepare(w.tracker, handler, sample)), w)
    ensures var prepared := With(s, h, handler, Prepared(sample), w);
            && Enabled(prepared, Replace(h)) && Apply(prepared, Replace(h)) == s.(world := Replaced(w, sample))
  {
    hide Corrected, Replaced;
    AddAndRemove(s.handlers, h, handler.(stage := Prepared(sample)));
  }

  /** The events of one handler in a row, from its start on, write what the handler writes as one step. */
  lemma HandlerEventsInARow(s: System, h: nat, id: string, request: Request, status: Status)
    requires h !in s.handlers && id in s.world.nodes && s.world.nodes[id].isMonitor && Admitted(request, status)
    requires s.world.nodes[id].id == id && id in s.world.latest && s.world.latest[id].nodeID == id
    ensures Enabled(s, Start(h, id, request, status))
    ensures var s1 := Apply(s, Start(h, id, request, status));
            Enabled(s1, WriteRow(h, false)) && Apply(s1, WriteRow(h, false)) == s
    ensures var s1 := Apply(s, Start(h, id, request, status));
            Enabled(s1, WriteRow(h, true)) && var s2 := Apply(s1, WriteRow(h, true));
            Enabled(s2, WritePolicy(h)) && var s3 := Apply(s2, WritePolicy(h));
            Enabled(s3, Fetch(h)) && var s4 := Apply(s3, Fetch(h));
            Enabled(s4, CorrectFetched(h)) && var s5 := Apply(s4, CorrectFetched(h));
            Enabled(s5, Replace(h)) &&
            Apply(s5, Replace(h))
            == s.(world := match request
                           case SaveTotals(rx, tx) => CommitSave(s.world, s.world.nodes[id], status, rx, tx)
                           case ClearTotals => CommitClear(s.world, s.world.nodes[id], status))
  {
    hide TrafficPeriodStart, Corrected, CorrectionFor, RowWrite, PolicyWrite, CommitSave, CommitClear, Apply, Enabled,
         With, Prepare, Replaced;
    var w, c := s.world, CorrectionFor(request, status);
    var handler := Handler(id, w.nodes[id].resetDay, request, status, c, Decided);
    PartsInARowCommit(w, id, request, status);
    WritesKeepLatest(w, id, handler.resetDay, c);
    StartEvent(s, h, id, request, status);
    WriteEvents(s, h, handler, w);
    var rows := RowWrite(w, id, c);
    WriteEvents(s, h, handler, rows);
    var written := PolicyWrite(rows, id, handler.resetDay, c);
    RepublishEvents(s, h, handler, written, w.latest[id]);
    RepublishEvents(s, h, handler, written, Prepare(written.tracker, handler, w.latest[id]));
    PrepareIgnoresStage(written.tracker, handler, w.latest[id]);
    assert s.(world := w) == s;
  }

  lemma WritesKeepLatest(w: World, id: string, resetDay: int, c: Correction)
    requires id in w.nodes
    ensures id in RowWrite(w, id, c).nodes && PolicyWrite(RowWrite(w, id, c), id, resetDay, c).latest == w.latest
  {}

  lemma PrepareIgnoresStage(t: Tracker, h: Handler, sample: Sample)
    ensures Prepare(t, h.(stage := PolicyWritten), sample) == Prepare(t, h, sample)
  {}

  /** The events of one sample in a row accept it. */
  lemma SampleEventsInARow(s: System, a: nat, id: string, sample: Sample, at: Instant, persistEvery: int)
    requires a !in s.arrivals && id in s.world.nodes && s.world.nodes[id].id == id && 0 < at
    ensures Enabled(s, Count(a, id, sample, at))
    ensures var s1 := Apply(s, Count(a, id, sample, at));
            Enabled(s1, CorrectCounted(a)) && var s2 := Apply(s1, CorrectCounted(a));
            Enabled(s2, Publish(a, persistEvery)) && var s3 := Apply(s2, Publish(a, persistEvery));
            s3 == s.(world := Accepted(s.world, s.world.nodes[id], sample, persistEvery, at).0)
  {
    hide TrafficPeriodStart, Corrected, Advanced;
    var s1 := Apply(s, Count(a, id, sample, at));
    var s2 := Apply(s1, CorrectCounted(a));
    AddAndRemove(s.arrivals, a, s2.arrivals[a]);
    assert s2.arrivals == s.arrivals[a := s2.arrivals[a]];
  }

  // ----- what every interleaving keeps

  ghost predicate WorldSane(w: World) {
    && (forall id :: id in w.nodes ==> w.nodes[id].id == id)
    && w.latest.Keys <= w.tracker.states.Keys <= w.tracker.policies.Keys <= w.nodes.Keys
    && (forall id :: id in w.tracker.policies ==> w.tracker.policies[id].resetDay == w.nodes[id].resetDay)
    && (forall id :: id in w.latest ==> w.latest[id].nodeID == id)
  }

  ghost predicate HandlerSane(w: World, h: Handler) {
    && h.id in w.nodes && h.resetDay == w.nodes[h.id].resetDay
    && (h.stage.Fetched? || h.stage.Prepared? ==> h.id in w.latest && h.stage.sample.nodeID == h.id)
  }

  /** Ids and reset days fit together everywhere, whatever the totals and corrections are. */
  ghost predicate Sane(s: System) {
    && WorldSane(s.world)
    && (forall h :: h in s.handlers ==> HandlerSane(s.world, s.handlers[h]))
    && (forall a :: a in s.arrivals ==> s.arrivals[a].sample.nodeID in s.world.tracker.states)
  }

  /** A world between requests is sane. */
  lemma ConsistentIsSane(w: World, clock: Instant)
    requires Consistent(w, clock)
    ensures Sane(System(w, map[], map[]))
  {
    hide EntryOk;
  }

  lemma CorrectedKeepsNode(t: Tracker, id: string, sample: Sample)
    ensures Corrected(t, id, sample).nodeID == sample.nodeID
  {
    hide TrafficPeriodStart;
  }

  /** Counting a sample gives the node a state, and a policy if it had none. */
  lemma CountKeepsSane(w: World, id: string, sample: Sample, at: Instant)
    requires WorldSane(w) && id in w.nodes
    ensures var (tracker, raw) := Applied(w.tracker, w.nodes[id], Stamped(w.nodes[id], sample, at), at);
            && WorldSane(w.(tracker := tracker)) && raw.nodeID == id && id in tracker.states
            && w.tracker.states.Keys <= tracker.states.Keys
            && tracker.policies == if id in w.tracker.policies then w.tracker.policies
                                   else w.tracker.policies[id := PolicyFromNode(w.nodes[id])]
  {
    hide TrafficPeriodStart, Advanced;
    var policies := w.tracker.policies;
    if id in policies { assert policies[id := policies[id]] == policies; }
  }

  /** No node disappears or changes its reset day, and what has a state or a sample keeps having one. */
  ghost predicate Extends(w: World, w1: World) {
    && w1.nodes.Keys == w.nodes.Keys && (forall id :: id in w.nodes ==> w1.nodes[id].resetDay == w.nodes[id].resetDay)
    && w.latest.Keys <= w1.latest.Keys && w.tracker.states.Keys <= w1.tracker.states.Keys
  }

  lemma RowWriteSane(w: World, id: string, c: Correction)
    requires WorldSane(w) && id in w.nodes
    ensures WorldSane(RowWrite(w, id, c)) && Extends(w, RowWrite(w, id, c))
  {}

  lemma PolicyWriteSane(w: World, id: string, resetDay: int, c: Correction)
    requires WorldSane(w) && id in w.nodes && w.nodes[id].resetDay == resetDay
    ensures WorldSane(PolicyWrite(w, id, resetDay, c)) && Extends(w, PolicyWrite(w, id, resetDay, c))
  {}

  lemma ShownSane(w: World, sample: Sample, persistEvery: int)
    requires WorldSane(w) && sample.nodeID in w.tracker.states
    ensures WorldSane(Replaced(w, sample)) && Extends(w, Replaced(w, sample))
    ensures WorldSane(Published(w, sample, persistEvery).0) && Extends(w, Published(w, sample, persistEvery).0)
  {}

  lemma StepKeepsWorldSane(s: System, e: Event)
    requires Sane(s) && Enabled(s, e)
    ensures WorldSane(Apply(s, e).world) && Extends(s.world, Apply(s, e).world)
  {
    hide TrafficPeriodStart, Applied, Corrected, CorrectionFor, RowWrite, PolicyWrite, Replaced, Published;
    match e
    case WriteRow(h, storeOk) => RowWriteSane(s.world, s.handlers[h].id, s.handlers[h].correction);
    case WritePolicy(h) =>
      assert HandlerSane(s.world, s.handlers[h]);
      PolicyWriteSane(s.world, s.handlers[h].id, s.handlers[h].resetDay, s.handlers[h].correction);
    case Replace(h) =>
      assert HandlerSane(s.world, s.handlers[h]);
      ShownSane(s.world, s.handlers[h].stage.sample, 0);
    case Count(a, id, sample, at) => CountKeepsSane(s.world, id, sample, at);
    case Publish(a, persistEvery) => ShownSane(s.world, s.arrivals[a].sample, persistEvery);
    case _ =>
  }

  /** A step adds at most one handler or moves it on, to a sane one. */
  lemma StepKeepsHandlersSane(s: System, e: Event, h: nat)
    requires Sane(s) && Enabled(s, e) && h in Apply(s, e).handlers
    ensures HandlerSane(s.world, Apply(s, e).handlers[h])
  {
    hide TrafficPeriodStart, Applied, Corrected, CorrectionFor;
    if e.CorrectFetched? {
      var handler := s.handlers[e.h];
      CorrectedKeepsNode(s.world.tracker, handler.id,
                         handler.stage.sample.WithMonthly(handler.status.rawRx, handler.status.rawTx));
    }
  }

  lemma StepKeepsArrivals(s: System, e: Event, a: nat)
    requires Sane(s) && Enabled(s, e) && a in Apply(s, e).arrivals
    ensures Apply(s, e).arrivals[a].sample.nodeID in Apply(s, e).world.tracker.states
  {
    hide TrafficPeriodStart, Applied, Corrected, CorrectionFor, HandlerSane;
    if e.Count? { CountKeepsSane(s.world, e.id, e.sample, e.at); }
    if e.CorrectCounted? {
      var raw := s.arrivals[e.a].sample;
      CorrectedKeepsNode(s.world.tracker, raw.nodeID, raw);
    }
  }

  lemma StepKeepsSane(s: System, e: Event)
    requires Sane(s) && Enabled(s, e)
    ensures Sane(Apply(s, e))
  {
    hide Apply, Enabled, WorldSane;
    StepKeepsWorldSane(s, e);
    forall h | h in Apply(s, e).handlers ensures HandlerSane(Apply(s, e).world, Apply(s, e).handlers[h]) {
      StepKeepsHandlersSane(s, e, h);
    }
    forall a | a in Apply(s, e).arrivals ensures Apply(s, e).arrivals[a].sample.nodeID in Apply(s,
        e).world.tracker.states {
      StepKeepsArrivals(s, e, a);
    }
  }

  lemma {:induction false} RunStaysSane(run: seq<System>, events: seq<Event>, n: nat)
    requires IsRun(run, events) && Sane(run[0]) && n < |run|
    ensures Sane(run[n])
  {
    hide Sane, Apply, Enabled;
    if n > 0 {
      RunStaysSane(run, events, n - 1);
      StepKeepsSane(run[n - 1], events[n - 1]);
    }
  }

  // ----- who wrote last

  predicate WritesRow(s: System, e: Event, id: string) {
    e.WriteRow? && e.storeOk && e.h in s.handlers && s.handlers[e.h].id == id
  }

  predicate WritesPolicy(s: System, e: Event, id: string) {
    e.WritePolicy? && e.h in s.handlers && s.handlers[e.h].id == id
  }

  /** The correction in the row of a node that has one, as written last in the first `n` events. */
  ghost function LastRow(run: seq<System>, events: seq<Event>, id: string, n: nat): Correction
    requires n <= |events| < |run| && id in run[0].world.nodes
  {
    if n == 0 then RowCorrection(run[0].world.nodes[id])
    else if WritesRow(run[n - 1], events[n - 1], id) then run[n - 1].handlers[events[n - 1].h].correction
    else LastRow(run, events, id, n - 1)
  }

  ghost function LastPolicy(run: seq<System>, events: seq<Event>, id: string, n: nat): Correction
    requires n <= |events| < |run| && id in run[0].world.tracker.policies
  {
    if n == 0 then PolicyCorrection(run[0].world.tracker.policies[id])
    else if WritesPolicy(run[n - 1], events[n - 1], id) then run[n - 1].handlers[events[n - 1].h].correction
    else LastPolicy(run, events, id, n - 1)
  }

  /**
   Only the row writes of a node's handlers change its correction in the table, and only their policy
   writes the tracker's.
   */
  lemma StepOnCorrections(s: System, e: Event, id: string)
    requires Sane(s) && Enabled(s, e) && id in s.world.tracker.policies
    ensures var w, w1 := s.world, Apply(s, e).world;
            && id in w1.nodes && id in w1.tracker.policies && w1.nodes[id].resetDay == w.nodes[id].resetDay
            && RowCorrection(w1.nodes[id])
               == (if WritesRow(s, e, id) then s.handlers[e.h].correction else RowCorrection(w.nodes[id]))
            && PolicyCorrection(w1.tracker.policies[id])
               == (if WritesPolicy(s, e, id)
                   then s.handlers[e.h].correction else PolicyCorrection(w.tracker.policies[id]))
  {
    hide TrafficPeriodStart, Applied, Corrected, CorrectionFor, HandlerSane;
    if e.Count? { CountKeepsSane(s.world, e.id, e.sample, e.at); }
  }

  /** In every run, row and policy hold what was written to them last. */
  lemma {:induction false} RunTracksWrites(run: seq<System>, events: seq<Event>, id: string, n: nat)
    requires IsRun(run, events) && Sane(run[0]) && n <= |events| && id in run[0].world.tracker.policies
    ensures id in run[0].world.nodes && id in run[n].world.nodes && id in run[n].world.tracker.policies
    ensures RowCorrection(run[n].world.nodes[id]) == LastRow(run, events, id, n)
    ensures PolicyCorrection(run[n].world.tracker.policies[id]) == LastPolicy(run, events, id, n)
  {
    hide Apply, Enabled, RowCorrection, PolicyCorrection, WritesRow, WritesPolicy, HandlerSane;
    RunStaysSane(run, events, n);
    if n > 0 {
      RunTracksWrites(run, events, id, n - 1);
      RunStaysSane(run, events, n - 1);
      StepOnCorrections(run[n - 1], events[n - 1], id);
    }
  }

  // ----- what the next sample makes of it

  /** Row and policy say the same of a node, and the hub shows what they say. */
  predicate Agrees(w: World, id: string) {
    && id in w.nodes && id in w.tracker.policies && w.tracker.policies[id] == PolicyFromNode(w.nodes[id])
    && HubRight(w, id, Rx) && HubRight(w, id, Tx)
  }

  /** A sample is shown under the policy, while the row says what is right. */
  lemma SampleShowsPolicy(w: World, id: string, sample: Sample, persistEvery: int, at: Instant, d: Direction)
    requires WorldSane(w) && id in w.tracker.policies && 0 < at
    ensures var w1 := Accepted(w, w.nodes[id], sample, persistEvery, at).0;
            && w1.nodes == w.nodes && w1.tracker.policies == w.tracker.policies && id in w1.latest
               && id in w1.tracker.states
            && var total, period := w1.tracker.states[id].Monthly(d), TrafficPeriodStart(at, w.nodes[id].resetDay);
               && w1.tracker.states[id].periodStart == period
               && w1.latest[id].Monthly(d) == Clamp(total + PolicyCorrection(w.tracker.policies[id]).Effect(period, d))
               && Display(w.nodes[id], w1.tracker.states[id], d) == total + RowCorrection(w.nodes[id]).Effect(period, d)
  {
    hide TrafficPeriodStart;
    var policies := w.tracker.policies;
    assert policies[id := policies[id]] == policies;
    var total := Accepted(w, w.nodes[id], sample, persistEvery, at).0.tracker.states[id].Monthly(d);
    SignedArithmeticClamps(total, PolicyCorrection(policies[id]).In(d));
  }

  /**
   Over every interleaving: the next undisturbed sample of a node brings row, policy and hub into
   agreement exactly if the row and the policy were last written with the same correction.
   */
  lemma {:induction false} NextSampleAgreesIff(
    run: seq<System>, events: seq<Event>, n: nat, id: string, sample: Sample, persistEvery: int, at: Instant)
    requires IsRun(run, events) && Sane(run[0]) && n <= |events| && id in run[0].world.tracker.policies && 0 < at
    ensures id in run[0].world.nodes && id in run[n].world.nodes
    ensures Agrees(Accepted(run[n].world, run[n].world.nodes[id], sample, persistEvery, at).0, id)
       <==> LastRow(run, events, id, n) == LastPolicy(run, events, id, n)
  {
    hide TrafficPeriodStart, Accepted, Clamp, Display, HandlerSane, Apply, Enabled;
    RunStaysSane(run, events, n);
    RunTracksWrites(run, events, id, n);
    SampleShowsPolicy(run[n].world, id, sample, persistEvery, at, Rx);
    SampleShowsPolicy(run[n].world, id, sample, persistEvery, at, Tx);
  }

  /**
   Direction by direction: the sample is shown right exactly if the two corrections do the same in its
   period, or leave nothing to show either way.
   */
  lemma {:induction false} NextSampleRightIff(
    run: seq<System>, events: seq<Event>, n: nat, id: string, sample: Sample, persistEvery: int, at: Instant,
        d: Direction)
    requires IsRun(run, events) && Sane(run[0]) && n <= |events| && id in run[0].world.tracker.policies && 0 < at
    ensures id in run[0].world.nodes && id in run[n].world.nodes
    ensures var w := Accepted(run[n].world, run[n].world.nodes[id], sample, persistEvery, at).0;
            var period := TrafficPeriodStart(at, run[n].world.nodes[id].resetDay);
            var row, policy := LastRow(run, events, id, n).Effect(period, d),
                LastPolicy(run, events, id, n).Effect(period, d);
            && id in w.tracker.states
            && (w.tracker.states[id].Monthly(d) <= MAX_I64 ==>
                  (HubRight(w, id, d) <==>
                     || row == policy
                     || (w.tracker.states[id].Monthly(d) + row <= 0 && w.tracker.states[id].Monthly(d) + policy <= 0)))
  {
    hide TrafficPeriodStart, Accepted, Display, HandlerSane, Apply, Enabled;
    RunStaysSane(run, events, n);
    RunTracksWrites(run, events, id, n);
    SampleShowsPolicy(run[n].world, id, sample, persistEvery, at, d);
  }

  // ----- how long a disagreement lasts

  /** Only a handler of the node that writes again can end what a torn pair of writes left. */
  lemma {:induction false} TornUntilWrittenAgain(run: seq<System>, events: seq<Event>, id: string, n: nat, m: nat)
    requires IsRun(run, events) && n <= m <= |events| && id in run[0].world.tracker.policies && id in run[0].world.nodes
    requires forall i :: n <= i < m ==> !WritesRow(run[i], events[i], id) && !WritesPolicy(run[i], events[i], id)
    ensures LastRow(run, events, id, m) == LastRow(run, events, id, n)
    ensures LastPolicy(run, events, id, m) == LastPolicy(run, events, id, n)
    decreases m
  {
    hide Apply, Enabled, WritesRow, WritesPolicy;
    if n < m { TornUntilWrittenAgain(run, events, id, n, m - 1); }
  }

  /** Some handler of the node has written the row and not yet the policy. */
  ghost predicate BetweenWrites(s: System, id: string) {
    exists h :: h in s.handlers && s.handlers[h].id == id && s.handlers[h].stage.RowWritten?
  }

  /** Every policy write comes while the row still holds what its handler wrote there. */
  ghost predicate Unbroken(run: seq<System>, events: seq<Event>, id: string)
    requires |events| < |run|
  {
    forall i :: 0 <= i < |events| && WritesPolicy(run[i], events[i], id) && id in run[i].world.nodes ==>
      run[i].handlers[events[i].h].correction == RowCorrection(run[i].world.nodes[id])
  }

  lemma StepKeepsBetween(s: System, e: Event, id: string)
    requires Enabled(s, e) && BetweenWrites(s, id) && !WritesPolicy(s, e, id)
    ensures BetweenWrites(Apply(s, e), id)
  {
    hide TrafficPeriodStart, Applied, Corrected, CorrectionFor;
    var h :| h in s.handlers && s.handlers[h].id == id && s.handlers[h].stage.RowWritten?;
    assert h in Apply(s, e).handlers && Apply(s, e).handlers[h] == s.handlers[h];
  }

  lemma WriterIsBetween(s: System, e: Event, id: string)
    requires Enabled(s, e) && WritesRow(s, e, id)
    ensures BetweenWrites(Apply(s, e), id)
  {
    assert e.h in Apply(s, e).handlers;
  }

  /**
   If no other handler's row write comes between the two writes of a handler, row and policy differ
   only while some handler is between its writes.
   */
  lemma {:induction false} UnbrokenWritesAgree(run: seq<System>, events: seq<Event>, id: string, n: nat)
    requires IsRun(run, events) && Sane(run[0]) && n <= |events| && id in run[0].world.tracker.policies
    requires id in run[0].world.nodes && LastRow(run, events, id, 0) == LastPolicy(run, events, id, 0)
    requires Unbroken(run, events, id) && !BetweenWrites(run[n], id)
    ensures LastRow(run, events, id, n) == LastPolicy(run, events, id, n)
  {
    hide Apply, Enabled, Sane, RowCorrection, PolicyCorrection, BetweenWrites;
    UnbrokenOrBetween(run, events, id, n);
  }

  lemma {:induction false} UnbrokenOrBetween(run: seq<System>, events: seq<Event>, id: string, n: nat)
    requires IsRun(run, events) && Sane(run[0]) && n <= |events| && id in run[0].world.tracker.policies
    requires id in run[0].world.nodes && LastRow(run, events, id, 0) == LastPolicy(run, events, id, 0)
    requires Unbroken(run, events, id)
    ensures LastRow(run, events, id, n) == LastPolicy(run, events, id, n) || BetweenWrites(run[n], id)
  {
    hide Apply, Enabled, Sane, RowCorrection, PolicyCorrection, BetweenWrites, WritesRow;
    if n > 0 {
      var s, e := run[n - 1], events[n - 1];
      UnbrokenOrBetween(run, events, id, n - 1);
      RunTracksWrites(run, events, id, n - 1);
      if WritesRow(s, e, id) {
        WriterIsBetween(s, e, id);
      } else if WritesPolicy(s, e, id) {
        assert s.handlers[e.h].correction == RowCorrection(s.world.nodes[id]);
      } else if BetweenWrites(s, id) {
        StepKeepsBetween(s, e, id);
      }
    }
  }

  // ----- two saves whose writes cross

  /** The example node, for which two administrators save. */
  function CrossedStart(t: Instant): System { System(ExampleWorld(t), map[], map[]) }

  function CrossedHandler(t: Instant, target: uint64, stage: Stage): Handler
    requires target <= MAX_CORRECTION
  {
    var status := Status(true, TrafficPeriodStart(t, 1), 0, 0, 0, 0);
    Handler("n", 1, SaveTotals(target, 0), status, CorrectionFor(SaveTotals(target, 0), status), stage)
  }

  /** The first save writes its row, the second its row and its policy, and then the first its policy. */
  function CrossedEvents(t: Instant): seq<Event> {
    var status := Status(true, TrafficPeriodStart(t, 1), 0, 0, 0, 0);
    [Start(0, "n", SaveTotals(100, 0), status), Start(1, "n", SaveTotals(200, 0), status),
     WriteRow(0, true), WriteRow(1, true), WritePolicy(1), WritePolicy(0)]
  }

  lemma CrossedStartIs(t: Instant)
    requires 0 < t
    ensures Sane(CrossedStart(t)) && CrossedStart(t).handlers == map[] && CrossedStart(t).arrivals == map[]
    ensures var w := CrossedStart(t).world;
            && w.nodes == map["n" := EXAMPLE_NODE] && "n" in w.tracker.policies && "n" in w.latest
            && Snapshot(w, EXAMPLE_NODE, t) == Status(true, TrafficPeriodStart(t, 1), 0, 0, 0, 0)
  {
    hide TrafficPeriodStart, ExampleWorld, Consistent, Snapshot;
    ExampleWorldIs(t);
    ExampleWorldConsistent(t);
    ExampleSnapshot(t);
    ConsistentIsSane(ExampleWorld(t), t);
  }

  function CrossedWorld(t: Instant, k: nat): World
    requires "n" in CrossedStart(t).world.nodes
  {
    var w := CrossedStart(t).world;
    var first, second := CrossedHandler(t, 100, Decided).correction, CrossedHandler(t, 200, Decided).correction;
    if k <= 2 then w
    else if k == 3 then RowWrite(w, "n", first)
    else
      var rows := RowWrite(RowWrite(w, "n", first), "n", second);
      if k == 4 then rows
      else if k == 5 then PolicyWrite(rows, "n", 1, second)
      else PolicyWrite(PolicyWrite(rows, "n", 1, second), "n", 1, first)
  }

  /** The state after the first `k` of these events. */
  function CrossedState(t: Instant, k: nat): System
    requires "n" in CrossedStart(t).world.nodes
  {
    var first := if k <= 2 then Decided else if k <= 5 then RowWritten else PolicyWritten;
    var second := if k <= 3 then Decided else if k == 4 then RowWritten else PolicyWritten;
    System(CrossedWorld(t, k),
           if k == 0 then map[] else if k == 1 then map[0 := CrossedHandler(t, 100, first)]
           else map[0 := CrossedHandler(t, 100, first), 1 := CrossedHandler(t, 200, second)],
           map[])
  }

  lemma CrossedStep(t: Instant, k: nat)
    requires 0 < t && k < 6 && "n" in CrossedStart(t).world.nodes
    ensures Enabled(CrossedState(t, k), CrossedEvents(t)[k])
    ensures CrossedState(t, k + 1) == Apply(CrossedState(t, k), CrossedEvents(t)[k])
  {
    hide TrafficPeriodStart, CrossedStart, PolicyWrite, CorrectionFor;
    CrossedStartIs(t);
  }

  /** The states that the crossed writes go through are a run. */
  lemma CrossedRun(t: Instant) returns (run: seq<System>)
    requires 0 < t
    ensures IsRun(run, CrossedEvents(t)) && run[0] == CrossedStart(t)
    ensures "n" in CrossedStart(t).world.nodes && |run| == 7 && forall k :: 0 <= k < 7 ==> run[k] == CrossedState(t, k)
  {
    hide TrafficPeriodStart, CrossedStart, CrossedState, Enabled, Apply;
    CrossedStartIs(t);
    CrossedStateZero(t);
    run := seq(7, k requires 0 <= k => CrossedState(t, k));
    forall i | 0 <= i < 6
      ensures Enabled(run[i], CrossedEvents(t)[i]) && run[i + 1] == Apply(run[i], CrossedEvents(t)[i])
    {
      CrossedStep(t, i);
    }
  }

  lemma CrossedStateZero(t: Instant)
    requires 0 < t && "n" in CrossedStart(t).world.nodes
    ensures CrossedState(t, 0) == CrossedStart(t)
  {
    hide TrafficPeriodStart, CrossedStart;
    CrossedStartIs(t);
  }

  lemma CrossedKeepsResetDay(t: Instant)
    requires 0 < t && "n" in CrossedStart(t).world.nodes
    ensures "n" in CrossedState(t, 6).world.nodes && CrossedState(t, 6).world.nodes["n"].resetDay == 1
  {
    hide TrafficPeriodStart, CrossedStart;
    CrossedStartIs(t);
  }

  /** The table is left with the correction of the second save, the tracker with that of the first. */
  lemma {:induction false} CrossedWrites(t: Instant, run: seq<System>)
    requires 0 < t && "n" in CrossedStart(t).world.nodes && "n" in CrossedStart(t).world.tracker.policies
    requires |run| == 7 && forall k :: 0 <= k < 7 ==> run[k] == CrossedState(t, k)
    requires "n" in run[0].world.nodes && "n" in run[0].world.tracker.policies
    ensures LastRow(run, CrossedEvents(t), "n", 6) == Correction(200, 0, Some(TrafficPeriodStart(t, 1)))
    ensures LastPolicy(run, CrossedEvents(t), "n", 6) == Correction(100, 0, Some(TrafficPeriodStart(t, 1)))
  {
    hide TrafficPeriodStart, CrossedStart, CrossedWorld;
    var e := CrossedEvents(t);
    assert !WritesRow(run[5], e[5], "n") && !WritesRow(run[4], e[4], "n") && WritesRow(run[3], e[3], "n");
    assert WritesPolicy(run[5], e[5], "n");
    assert run[3].handlers[1] == CrossedHandler(t, 200, Decided)
        && run[5].handlers[0] == CrossedHandler(t, 100, RowWritten);
    assert LastRow(run, e, "n", 6) == LastRow(run, e, "n", 5) == LastRow(run, e, "n", 4);
  }

  /**
   After the crossed writes no sample of the period is shown right: the hub adds 100 where 200 is
   stored. Nothing but another save, clear or restart ends it.
   */
  lemma CrossedSavesStayWrong(t: Instant) returns (run: seq<System>)
    requires 0 < t
    ensures IsRun(run, CrossedEvents(t)) && run[0] == CrossedStart(t) && Sane(run[0]) && "n" in run[6].world.nodes
    ensures forall sample: Sample, persistEvery, at ::
              0 < at && TrafficPeriodStart(at, 1) == TrafficPeriodStart(t, 1) ==>
                var w := Accepted(run[6].world, run[6].world.nodes["n"], sample, persistEvery, at).0;
                && "n" in w.tracker.states && !Agrees(w, "n")
                && (w.tracker.states["n"].Monthly(Rx) <= MAX_I64 ==> !HubRight(w, "n", Rx))
  {
    hide TrafficPeriodStart, CrossedStart, CrossedState, CrossedEvents, Enabled, Apply, Accepted, HubRight, Agrees,
         Sane, LastRow, LastPolicy;
    CrossedStartIs(t);
    run := CrossedRun(t);
    CrossedWrites(t, run);
    CrossedKeepsResetDay(t);
    var events := CrossedEvents(t);
    forall sample: Sample, persistEvery, at | 0 < at && TrafficPeriodStart(at, 1) == TrafficPeriodStart(t, 1)
      ensures var w := Accepted(run[6].world, run[6].world.nodes["n"], sample, persistEvery, at).0;
              && "n" in w.tracker.states && !Agrees(w, "n")
              && (w.tracker.states["n"].Monthly(Rx) <= MAX_I64 ==> !HubRight(w, "n", Rx))
    {
      NextSampleAgreesIff(run, events, 6, "n", sample, persistEvery, at);
      NextSampleRightIff(run, events, 6, "n", sample, persistEvery, at, Rx);
    }
  }
}
