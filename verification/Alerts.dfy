/**
 The alert engine: per rule and node, a condition must hold for a while before an alert fires, a
 firing alert resolves past a recovery threshold, and events are separated by a cooldown. An event
 counts only if saving it succeeds.
 */
module Alerts {
  import opened Basics

  /** Nanoseconds since 1 January of year 1; 0 stands for an unset time. */
  type Time = int

  const LONGEST_WINDOW: int := 30 * 24 * 3600

  datatype Scope = Scope(nodeIDs: seq<string>, groups: seq<string>, excluded: seq<string>)

  datatype Rule = Rule(
    id: int, enabled: bool, scope: Scope, metric: string, operator: string,
    threshold: real, recoveryThreshold: real, durationSeconds: int, cooldownSeconds: int)

  datatype RuleState = RuleState(pendingSince: Time, firing: bool, lastEvent: Time)

  const UNSEEN := RuleState(0, false, 0)

  datatype Status = Firing | Resolved

  // ----- one rule on one node

  predicate Compare(value: real, operator: string, threshold: real) {
    if operator == ">" then value > threshold
    else if operator == ">=" then value >= threshold
    else if operator == "<" then value < threshold
    else if operator == "<=" then value <= threshold
    else if operator == "==" then value == threshold
    else false
  }

  predicate Recovered(value: real, rule: Rule) {
    if rule.operator == ">" || rule.operator == ">=" then value <= rule.recoveryThreshold
    else if rule.operator == "<" || rule.operator == "<=" then value >= rule.recoveryThreshold
    else if rule.operator == "==" then value != rule.recoveryThreshold
    else true
  }

  predicate Condition(rule: Rule, value: real) { Compare(value, rule.operator, rule.threshold) }

  /** The state after one evaluation, and the event that was saved, if any. */
  function EvaluateRule(
    rule: Rule, state: RuleState, value: real, now: Time, saveOk: bool): (RuleState, Option<Status>) {
    if Condition(rule, value) then
      if state.firing then (state, None)
      else
        var pending := state.(pendingSince := if state.pendingSince == 0 then now else state.pendingSince);
        if now - pending.pendingSince < Max(rule.durationSeconds, 0) * SECOND then (pending, None)
        else if rule.cooldownSeconds > 0 && now - state.lastEvent < rule.cooldownSeconds * SECOND then (pending, None)
        else if saveOk then (pending.(firing := true, lastEvent := now), Some(Firing))
        else (pending, None)
    else
      var calm := state.(pendingSince := 0);
      if state.firing && Recovered(value, rule) && saveOk then
        (calm.(firing := false, lastEvent := now), Some(Resolved))
      else (calm, None)
  }

  // ----- what the operators and thresholds mean

  /**
   The four orders: the strict ones fail at the threshold, each is the complement of its opposite, and
   below is below.
   */
  lemma OperatorsCompare(value: real, threshold: real)
    ensures Compare(value, "<", threshold) <==> threshold - value > 0.0
    ensures Compare(value, ">", threshold) <==> value - threshold > 0.0
    ensures Compare(value, ">=", threshold) <==> !Compare(value, "<", threshold)
    ensures Compare(value, "<=", threshold) <==> !Compare(value, ">", threshold)
    ensures Compare(value, "==", threshold) <==> Compare(value, "<=", threshold) && Compare(value, ">=", threshold)
  {}

  /** An operator that is none of these never holds and always counts as recovered. */
  lemma UnknownOperator(rule: Rule, value: real)
    requires rule.operator !in {">", ">=", "<", "<=", "=="}
    ensures !Condition(rule, value) && Recovered(value, rule)
  {}

  /**
   Recovery is on the far side of the recovery threshold: an alert on high values recovers at it or
   below, one on low values at it or above, and one on an exact value away from it.
   */
  lemma RecoverySides(rule: Rule, value: real)
    ensures rule.operator in {">", ">="} ==> (Recovered(value, rule) <==> value - rule.recoveryThreshold <= 0.0)
    ensures rule.operator in {"<", "<="} ==> (Recovered(value, rule) <==> rule.recoveryThreshold - value <= 0.0)
    ensures rule.operator == "==" ==> (Recovered(value, rule) <==> value - rule.recoveryThreshold != 0.0)
  {}

  /** With the recovery threshold on the quiet side of the threshold, whatever has recovered does not hold. */
  lemma RecoveredIsCalm(rule: Rule, value: real)
    requires rule.operator in {">", ">="} ==> rule.recoveryThreshold < rule.threshold
    requires rule.operator in {"<", "<="} ==> rule.recoveryThreshold > rule.threshold
    requires rule.operator == "==" ==> rule.recoveryThreshold == rule.threshold
    requires Recovered(value, rule)
    ensures !Condition(rule, value)
  {}

  // ----- the history of one pair

  /** One evaluation that reached the pair: the metric's value, the time, and whether a save would succeed. */
  datatype Observation = Observation(value: real, at: Time, saveOk: bool)

  datatype Entry = Entry(status: Status, at: Time)

  /** The state and the saved events after a sequence of evaluations. */
  function After(rule: Rule, trace: seq<Observation>): (RuleState, seq<Entry>) {
    if trace == [] then (UNSEEN, [])
    else
      var (state, log) := After(rule, trace[..|trace| - 1]);
      var o := trace[|trace| - 1];
      var (next, event) := EvaluateRule(rule, state, o.value, o.at, o.saveOk);
      (next, if event.Some? then log + [Entry(event.value, o.at)] else log)
  }

  /** What was saved by evaluation `i`. */
  function SavedAt(rule: Rule, trace: seq<Observation>, i: nat): Option<Status>
    requires i < |trace|
  {
    EvaluateRule(rule, After(rule, trace[..i]).0, trace[i].value, trace[i].at, trace[i].saveOk).1
  }

  /** Times are real clock readings that do not go back, and the rule passed validation. */
  ghost predicate Proper(rule: Rule, trace: seq<Observation>) {
    && 0 <= rule.cooldownSeconds <= LONGEST_WINDOW
    && (forall i :: 0 <= i < |trace| ==> LONGEST_WINDOW * SECOND <= trace[i].at)
    && (forall i, j :: 0 <= i < j < |trace| ==> trace[i].at <= trace[j].at)
  }

  predicate HoldsAt(rule: Rule, trace: seq<Observation>, i: nat)
    requires i < |trace|
  {
    Condition(rule, trace[i].value)
  }

  /** The first evaluation of the unbroken run of true conditions that ends with evaluation `i`. */
  function RunStart(rule: Rule, trace: seq<Observation>, i: nat): (j: nat)
    requires i < |trace| && HoldsAt(rule, trace, i)
    ensures j <= i && (forall k :: j <= k <= i ==> HoldsAt(rule, trace, k))
    ensures j > 0 ==> !HoldsAt(rule, trace, j - 1)
  {
    if i == 0 || !HoldsAt(rule, trace, i - 1) then i else RunStart(rule, trace, i - 1)
  }

  /** Whether the last saved event says that the alert is firing. */
  predicate LogFiring(log: seq<Entry>) { log != [] && log[|log| - 1].status == Firing }

  /** Firing and resolved take turns, firing first. */
  ghost predicate Alternates(log: seq<Entry>) {
    forall k :: 0 <= k < |log| ==> (log[k].status == Firing <==> k % 2 == 0)
  }

  /** The engine's three fields mean what the history says. */
  ghost predicate StateMatches(rule: Rule, trace: seq<Observation>) {
    var (state, log) := After(rule, trace);
    && (state.firing <==> LogFiring(log))
    && state.lastEvent == (if log == [] then 0 else log[|log| - 1].at)
    && Alternates(log)
    && (!state.firing ==> state.pendingSince == PendingBy(rule, trace))
  }

  lemma {:induction false} RunStartPrefix(rule: Rule, trace: seq<Observation>, n: nat, i: nat)
    requires i < n <= |trace| && HoldsAt(rule, trace, i)
    ensures RunStart(rule, trace[..n], i) == RunStart(rule, trace, i)
  {
    if i > 0 && HoldsAt(rule, trace, i - 1) {
      RunStartPrefix(rule, trace, n, i - 1);
    }
  }

  /** What the pending time should be, given the history, while the alert is not firing. */
  function PendingBy(rule: Rule, trace: seq<Observation>): Time {
    if trace == [] || !HoldsAt(rule, trace, |trace| - 1) then 0 else trace[RunStart(rule, trace, |trace| - 1)].at
  }

  /** One more observation continues the run, starts one or ends it. */
  lemma {:induction false} PendingByStep(rule: Rule, trace: seq<Observation>)
    requires trace != [] && forall i :: 0 <= i < |trace| ==> trace[i].at > 0
    ensures var n := |trace| - 1;
            var before := PendingBy(rule, trace[..n]);
            PendingBy(rule, trace)
            == if !HoldsAt(rule, trace, n) then 0 else if before == 0 then trace[n].at else before
  {
    hide Condition;
    var n := |trace| - 1;
    if HoldsAt(rule, trace, n) && n > 0 && HoldsAt(rule, trace, n - 1) {
      RunStartPrefix(rule, trace, n, n - 1);
    }
  }

  lemma {:induction false} HistoryDeterminesState(rule: Rule, trace: seq<Observation>)
    requires Proper(rule, trace)
    ensures StateMatches(rule, trace)
    decreases |trace|
  {
    hide Condition, RunStart, PendingBy;
    if trace == [] {
      NothingObserved(rule);
      assert PendingBy(rule, trace) == 0 by { NothingPending(rule); }
    } else {
      HistoryDeterminesState(rule, trace[..|trace| - 1]);
      PendingByStep(rule, trace);
    }
  }

  lemma {:induction false} NothingPending(rule: Rule)
    ensures PendingBy(rule, []) == 0
  {}

  /** What lets one evaluation save an event, in terms of the state it finds. */
  lemma EvaluationSaves(rule: Rule, state: RuleState, value: real, now: Time, saveOk: bool)
    requires rule.cooldownSeconds >= 0 && state.lastEvent <= now
    ensures var event := EvaluateRule(rule, state, value, now, saveOk).1;
            var since := if state.pendingSince == 0 then now else state.pendingSince;
            && (event == Some(Firing) <==>
                  && !state.firing && Condition(rule, value) && now - since >= Max(rule.durationSeconds, 0) * SECOND
                  && now - state.lastEvent >= rule.cooldownSeconds * SECOND && saveOk)
            && (event == Some(Resolved) <==>
                  state.firing && !Condition(rule, value) && Recovered(value, rule) && saveOk)
  {
    hide Condition, Recovered;
  }

  /** The clock that evaluation `i` finds started, or starts, is that of the run of true conditions it belongs to. */
  lemma {:induction false} PendingMeansRunStart(rule: Rule, trace: seq<Observation>, i: nat)
    requires Proper(rule, trace) && i < |trace| && HoldsAt(rule, trace, i)
    requires StateMatches(rule, trace[..i]) && !After(rule, trace[..i]).0.firing
    ensures var pending := After(rule, trace[..i]).0.pendingSince;
            (if pending == 0 then trace[i].at else pending) == trace[RunStart(rule, trace, i)].at
  {
    hide Condition, After, LogFiring, Alternates;
    if i > 0 && HoldsAt(rule, trace, i - 1) {
      RunStartPrefix(rule, trace, i, i - 1);
    }
  }

  /**
   A firing is saved exactly when the alert is not firing by the log, the unbroken run of true
   conditions has lasted for the rule's duration, the last saved event is at least a cooldown old,
   and the save succeeds.
   */
  lemma FiringSavedExactlyWhen(rule: Rule, trace: seq<Observation>, i: nat)
    requires Proper(rule, trace) && i < |trace|
    ensures var log := After(rule, trace[..i]).1;
            SavedAt(rule, trace, i) == Some(Firing) <==>
              && !LogFiring(log)
              && HoldsAt(rule, trace, i)
              && trace[i].at - trace[RunStart(rule, trace, i)].at >= Max(rule.durationSeconds, 0) * SECOND
              && (log != [] ==> trace[i].at - log[|log| - 1].at >= rule.cooldownSeconds * SECOND)
              && trace[i].saveOk
  {
    hide EvaluateRule, Condition, After, LogFiring, Alternates;
    HistoryDeterminesState(rule, trace[..i]);
    LogTimesAreEarlier(rule, trace, i);
    var state := After(rule, trace[..i]).0;
    EvaluationSaves(rule, state, trace[i].value, trace[i].at, trace[i].saveOk);
    if HoldsAt(rule, trace, i) && !state.firing {
      PendingMeansRunStart(rule, trace, i);
    }
  }

  lemma {:induction false} LogTimesAreEarlier(rule: Rule, trace: seq<Observation>, i: nat)
    requires Proper(rule, trace) && i < |trace|
    ensures var log := After(rule, trace[..i]).1;
            log != [] ==> 0 < log[|log| - 1].at <= trace[i].at
    decreases i
  {
    if i > 0 {
      LogTimesAreEarlier(rule, trace, i - 1);
      assert trace[..i][..i - 1] == trace[..i - 1];
    }
  }

  /** A recovery is saved exactly when the alert is firing by the log and the value is past recovery. */
  lemma {:induction false} ResolvedSavedExactlyWhen(rule: Rule, trace: seq<Observation>, i: nat)
    requires Proper(rule, trace) && i < |trace|
    ensures SavedAt(rule, trace, i) == Some(Resolved) <==>
              && LogFiring(After(rule, trace[..i]).1)
              && !HoldsAt(rule, trace, i) && Recovered(trace[i].value, rule)
              && trace[i].saveOk
  {
    hide EvaluateRule, Condition, After, LogFiring, Alternates;
    HistoryDeterminesState(rule, trace[..i]);
    LogTimesAreEarlier(rule, trace, i);
    EvaluationSaves(rule, After(rule, trace[..i]).0, trace[i].value, trace[i].at, trace[i].saveOk);
  }

  /** The saved events of a pair alternate between firing and resolved, starting with firing. */
  lemma {:induction false} EventsAlternate(rule: Rule, trace: seq<Observation>)
    requires Proper(rule, trace)
    ensures Alternates(After(rule, trace).1)
  {
    HistoryDeterminesState(rule, trace);
  }

  // ----- what an evaluation says about a metric

  datatype Sample = Sample(
    nodeID: string, cpu: real, memoryUsed: nat, memoryTotal: nat, swapUsed: nat, swapTotal: nat,
    load1: real, load5: real, load15: real, diskUsed: nat, diskTotal: nat, temperature: real,
    gpus: seq<real>, monthlyRx: nat, monthlyTx: nat)

  datatype Probe = Probe(success: bool, latency: real, loss: real)

  datatype Node = Node(id: string, group: string)

  /** A metric sample or a probe result that arrived for a node. */
  datatype Evaluation = Evaluation(node: Node, sample: Option<Sample>, probe: Option<Probe>)

  function Percentage(used: nat, total: nat): real {
    if total == 0 then 0.0 else used as real / total as real * 100.0
  }

  function Busiest(gpus: seq<real>): real {
    if gpus == [] then 0.0
    else var rest := Busiest(gpus[..|gpus| - 1]); if gpus[|gpus| - 1] > rest then gpus[|gpus| - 1] else rest
  }

  function MetricValue(metric: string, sample: Option<Sample>, probe: Option<Probe>): Option<real> {
    if probe.Some? then
      if metric == "probe_success" then Some(if probe.value.success then 1.0 else 0.0)
      else if metric == "probe_latency" then Some(probe.value.latency)
      else if metric == "probe_loss" then Some(probe.value.loss)
      else None
    else if sample.None? then None
    else
      var s := sample.value;
      if metric == "online" then (if s.nodeID == "" then Some(s.cpu) else None)
      else if metric == "cpu" then Some(s.cpu)
      else if metric == "memory" then Some(Percentage(s.memoryUsed, s.memoryTotal))
      else if metric == "swap" then Some(Percentage(s.swapUsed, s.swapTotal))
      else if metric == "load1" then Some(s.load1)
      else if metric == "load5" then Some(s.load5)
      else if metric == "load15" then Some(s.load15)
      else if metric == "disk" then Some(Percentage(s.diskUsed, s.diskTotal))
      else if metric == "temperature" then Some(s.temperature)
      else if metric == "gpu" then (if s.gpus != [] then Some(Busiest(s.gpus)) else None)
      else if metric == "traffic_sum" then Some(s.monthlyRx as real + s.monthlyTx as real)
      else if metric == "traffic_up" then Some(s.monthlyTx as real)
      else if metric == "traffic_down" then Some(s.monthlyRx as real)
      else None
  }

  predicate MatchesScope(scope: Scope, node: Node) {
    if node.id in scope.excluded then false
    else if scope.nodeIDs == [] && scope.groups == [] then true
    else node.id in scope.nodeIDs || node.group in scope.groups
  }

  /** A share of a total, in percent: nothing of nothing, and otherwise the quotient. */
  lemma PercentageMeans(used: nat, total: nat)
    ensures total == 0 ==> Percentage(used, total) == 0.0
    ensures total > 0 ==> Percentage(used, total) * total as real == 100.0 * used as real
    ensures used <= total ==> 0.0 <= Percentage(used, total) <= 100.0
  {
    if total > 0 {
      var share := used as real / total as real;
      assert share * total as real == used as real;
      assert Percentage(used, total) == 100.0 * share;
      if used <= total { assert 0.0 <= share <= 1.0; }
    }
  }

  /** The busiest of the graphics processors, none of which counts below zero. */
  lemma {:induction false} BusiestMeans(gpus: seq<real>)
    ensures forall i :: 0 <= i < |gpus| ==> gpus[i] <= Busiest(gpus)
    ensures Busiest(gpus) == 0.0 || exists i :: 0 <= i < |gpus| && gpus[i] == Busiest(gpus)
    ensures Busiest(gpus) >= 0.0
    decreases |gpus|
  {
    if gpus != [] {
      var n := |gpus| - 1;
      BusiestMeans(gpus[..n]);
      if Busiest(gpus) == gpus[n] {
      } else if Busiest(gpus[..n]) != 0.0 {
        var i :| 0 <= i < n && gpus[..n][i] == Busiest(gpus[..n]);
        assert gpus[i] == Busiest(gpus);
      }
    }
  }

  /** Which field of a sample each metric reads. */
  lemma MetricsReadTheirFields(s: Sample)
    ensures MetricValue("cpu", Some(s), None) == Some(s.cpu)
    ensures MetricValue("load1", Some(s), None) == Some(s.load1) && MetricValue("load5", Some(s), None) == Some(s.load5)
    ensures MetricValue("load15", Some(s), None) == Some(s.load15)
    ensures MetricValue("temperature", Some(s), None) == Some(s.temperature)
    ensures MetricValue("memory", Some(s), None) == Some(Percentage(s.memoryUsed, s.memoryTotal))
    ensures MetricValue("swap", Some(s), None) == Some(Percentage(s.swapUsed, s.swapTotal))
    ensures MetricValue("disk", Some(s), None) == Some(Percentage(s.diskUsed, s.diskTotal))
    ensures MetricValue("gpu", Some(s), None) == if s.gpus == [] then None else Some(Busiest(s.gpus))
    ensures MetricValue("traffic_down", Some(s), None) == Some(s.monthlyRx as real)
    ensures MetricValue("traffic_up", Some(s), None) == Some(s.monthlyTx as real)
    ensures MetricValue("traffic_sum", Some(s), None) == Some((s.monthlyRx + s.monthlyTx) as real)
    ensures MetricValue("online", Some(s), None) == if s.nodeID == "" then Some(s.cpu) else None
  {}

  /** A probe result answers the probe metrics and hides any sample; without either there is no value. */
  lemma ProbeMetrics(metric: string, sample: Option<Sample>, probe: Probe)
    ensures MetricValue("probe_success", sample, Some(probe)) == Some(if probe.success then 1.0 else 0.0)
    ensures MetricValue("probe_latency", sample, Some(probe)) == Some(probe.latency)
    ensures MetricValue("probe_loss", sample, Some(probe)) == Some(probe.loss)
    ensures MetricValue(metric, sample, Some(probe)).Some?
            <==> metric in {"probe_success", "probe_latency", "probe_loss"}
    ensures MetricValue(metric, None, None) == None
  {}

  /** A scope lets a node in exactly if it is not excluded and is named, or its group is, or nothing is named at all. */
  lemma ScopeExactly(scope: Scope, node: Node)
    ensures MatchesScope(scope, node) <==>
            node.id !in scope.excluded && (|scope.nodeIDs| + |scope.groups| > 0 ==>
                node.id in scope.nodeIDs || node.group in scope.groups)
  {}

  // ----- all rules on all nodes

  datatype Key = Key(ruleID: int, nodeID: string)

  datatype Event = Event(key: Key, entry: Entry)

  datatype EngineState = EngineState(states: map<Key, RuleState>, events: seq<Event>)

  function StateOf(e: EngineState, key: Key): RuleState {
    if key in e.states then e.states[key] else UNSEEN
  }

  function LogOf(events: seq<Event>, key: Key): seq<Entry> {
    if events == [] then []
    else
      var last := events[|events| - 1];
      LogOf(events[..|events| - 1], key) + if last.key == key then [last.entry] else []
  }

  /** The value that a rule gets to see of an evaluation, if it applies to it at all. */
  function Relevant(rule: Rule, item: Evaluation): Option<real> {
    if !rule.enabled || !MatchesScope(rule.scope, item.node) then None
    else MetricValue(rule.metric, item.sample, item.probe)
  }

  /** One evaluation delivered to the engine; `saves` says for which rules saving would succeed. */
  datatype Delivery = Delivery(item: Evaluation, now: Time, saves: int -> bool)

  function EvaluateOne(e: EngineState, rule: Rule, d: Delivery): EngineState {
    var value := Relevant(rule, d.item);
    if value.None? then e
    else
      var key := Key(rule.id, d.item.node.id);
      var (state, event) := EvaluateRule(rule, StateOf(e, key), value.value, d.now, d.saves(rule.id));
      EngineState(e.states[key := state],
                  if event.Some? then e.events + [Event(key, Entry(event.value, d.now))] else e.events)
  }

  /** The engine after the first `n` rules have seen a delivery. */
  function EvaluateRules(e: EngineState, rules: seq<Rule>, n: nat, d: Delivery): EngineState
    requires n <= |rules|
  {
    if n == 0 then e else EvaluateOne(EvaluateRules(e, rules, n - 1, d), rules[n - 1], d)
  }

  function Evaluated(e: EngineState, rules: seq<Rule>, d: Delivery): EngineState {
    EvaluateRules(e, rules, |rules|, d)
  }

  function AfterDeliveries(rules: seq<Rule>, deliveries: seq<Delivery>): EngineState {
    if deliveries == [] then EngineState(map[], [])
    else Evaluated(AfterDeliveries(rules, deliveries[..|deliveries| - 1]), rules, deliveries[|deliveries| - 1])
  }

  class Engine {
    var rules: seq<Rule>
    var states: map<Key, RuleState>
    var events: seq<Event>

    ghost function Model(): EngineState
      reads this
    {
      EngineState(states, events)
    }

    constructor (rules: seq<Rule>)
      ensures this.rules == rules && Model() == EngineState(map[], [])
    {
      this.rules, states, events := rules, map[], [];
    }

    method Emit(key: Key, status: Status, d: Delivery) returns (ok: bool)
      modifies this`events
      ensures ok == d.saves(key.ruleID)
      ensures events == if ok then old(events) + [Event(key, Entry(status, d.now))] else old(events)
    {
      ok := d.saves(key.ruleID);
      if ok {
        events := events + [Event(key, Entry(status, d.now))];
      }
    }

    method EvaluateRuleOn(rule: Rule, node: Node, value: real, d: Delivery)
      requires d.item.node == node && Relevant(rule, d.item) == Some(value)
      modifies this`states, this`events
      ensures Model() == EvaluateOne(old(Model()), rule, d)
    {
      var key := Key(rule.id, node.id);
      var state := if key in states then states[key] else UNSEEN;
      if Compare(value, rule.operator, rule.threshold) {
        if !state.firing {
          if state.pendingSince == 0 {
            state := state.(pendingSince := d.now);
          }
          if d.now - state.pendingSince >= Max(rule.durationSeconds, 0) * SECOND
             && !(rule.cooldownSeconds > 0 && d.now - state.lastEvent < rule.cooldownSeconds * SECOND) {
            var saved := Emit(key, Firing, d);
            if saved {
              state := state.(firing := true, lastEvent := d.now);
            }
          }
        }
      } else {
        state := state.(pendingSince := 0);
        if state.firing && Recovered(value, rule) {
          var saved := Emit(key, Resolved, d);
          if saved {
            state := state.(firing := false, lastEvent := d.now);
          }
        }
      }
      states := states[key := state];
    }

    method Evaluate(d: Delivery)
      modifies this`states, this`events
      ensures Model() == Evaluated(old(Model()), rules, d)
    {
      for n := 0 to |rules|
        invariant Model() == EvaluateRules(old(Model()), rules, n, d)
      {
        if rules[n].enabled && MatchesScope(rules[n].scope, d.item.node) {
          var value := MetricValue(rules[n].metric, d.item.sample, d.item.probe);
          if value.Some? {
            EvaluateRuleOn(rules[n], d.item.node, value.value, d);
          }
        }
      }
    }
  }

  // ----- pairs do not influence each other

  /** The observations that a rule makes of one node among everything delivered. */
  function Project(rule: Rule, nodeID: string, deliveries: seq<Delivery>): seq<Observation> {
    if deliveries == [] then []
    else
      var d := deliveries[|deliveries| - 1];
      var value := Relevant(rule, d.item);
      Project(rule, nodeID, deliveries[..|deliveries| - 1])
      + if d.item.node.id == nodeID && value.Some? then [Observation(value.value, d.now, d.saves(rule.id))] else []
  }

  ghost predicate DistinctRules(rules: seq<Rule>) {
    forall i, j :: 0 <= i < j < |rules| ==> rules[i].id != rules[j].id
  }

  /** A rule only touches its own pair. */
  lemma {:induction false} OtherPairsUnaffected(e: EngineState, rule: Rule, d: Delivery, key: Key)
    requires key != Key(rule.id, d.item.node.id)
    ensures StateOf(EvaluateOne(e, rule, d), key) == StateOf(e, key)
    ensures LogOf(EvaluateOne(e, rule, d).events, key) == LogOf(e.events, key)
  {
    hide EvaluateRule, MetricValue;
    var e1 := EvaluateOne(e, rule, d);
    if e1.events != e.events {
      assert e1.events[..|e1.events| - 1] == e.events;
    }
  }

  lemma {:induction false} DeliveryOnPair(e: EngineState, rules: seq<Rule>, r: nat, n: nat, d: Delivery, nodeID: string)
    requires DistinctRules(rules) && r < |rules| && n <= |rules|
    ensures var key := Key(rules[r].id, nodeID);
            var e1 := EvaluateRules(e, rules, n, d);
            var reached := if n > r && d.item.node.id == nodeID then EvaluateOne(e, rules[r], d) else e;
            StateOf(e1, key) == StateOf(reached, key) && LogOf(e1.events, key) == LogOf(reached.events, key)
    decreases n
  {
    hide EvaluateOne, StateOf, LogOf;
    if n > 0 {
      DeliveryOnPair(e, rules, r, n - 1, d, nodeID);
      var e0, key := EvaluateRules(e, rules, n - 1, d), Key(rules[r].id, nodeID);
      if n - 1 == r && d.item.node.id == nodeID {
        SamePairSameResult(e0, e, rules[r], d);
      } else {
        OtherPairsUnaffected(e0, rules[n - 1], d, key);
      }
    }
  }

  /** What a rule does to its pair depends on nothing else in the engine. */
  lemma SamePairSameResult(e: EngineState, f: EngineState, rule: Rule, d: Delivery)
    requires var key := Key(rule.id, d.item.node.id);
             StateOf(e, key) == StateOf(f, key) && LogOf(e.events, key) == LogOf(f.events, key)
    ensures var key := Key(rule.id, d.item.node.id);
            var e1, f1 := EvaluateOne(e, rule, d), EvaluateOne(f, rule, d);
            StateOf(e1, key) == StateOf(f1, key) && LogOf(e1.events, key) == LogOf(f1.events, key)
  {
    hide EvaluateRule, MetricValue;
    var e1, f1 := EvaluateOne(e, rule, d), EvaluateOne(f, rule, d);
    if e1.events != e.events { assert e1.events[..|e1.events| - 1] == e.events; }
    if f1.events != f.events { assert f1.events[..|f1.events| - 1] == f.events; }
  }

  /**
   Each pair evolves as if the engine ran its rule on its node alone: its state and its saved events
   are those of the observations that the rule makes of that node.
   */
  lemma {:induction false} PairsEvolveIndependently(rules: seq<Rule>, deliveries: seq<Delivery>, r: nat, nodeID: string)
    requires DistinctRules(rules) && r < |rules|
    ensures var key := Key(rules[r].id, nodeID);
            var e := AfterDeliveries(rules, deliveries);
            (StateOf(e, key), LogOf(e.events, key)) == After(rules[r], Project(rules[r], nodeID, deliveries))
    decreases |deliveries|
  {
    hide EvaluateRule, MetricValue;
    if deliveries != [] {
      var before, d := deliveries[..|deliveries| - 1], deliveries[|deliveries| - 1];
      var rule := rules[r];
      PairsEvolveIndependently(rules, before, r, nodeID);
      var e := AfterDeliveries(rules, before);
      DeliveryOnPair(e, rules, r, |rules|, d, nodeID);
      PairObserves(e, rule, d, nodeID, Project(rule, nodeID, before));
    }
  }

  lemma {:induction false} PairObserves(
    e: EngineState, rule: Rule, d: Delivery, nodeID: string, trace: seq<Observation>)
    requires (StateOf(e, Key(rule.id, nodeID)), LogOf(e.events, Key(rule.id, nodeID))) == After(rule, trace)
    ensures var key := Key(rule.id, nodeID);
            var value := Relevant(rule, d.item);
            var e1 := if d.item.node.id == nodeID then EvaluateOne(e, rule, d) else e;
            (StateOf(e1, key), LogOf(e1.events, key)) ==
              After(rule, trace + if d.item.node.id == nodeID && value.Some?
                                  then [Observation(value.value, d.now, d.saves(rule.id))] else [])
  {
    hide EvaluateRule, MetricValue;
    var value := Relevant(rule, d.item);
    if d.item.node.id == nodeID && value.Some? {
      var o := Observation(value.value, d.now, d.saves(rule.id));
      assert (trace + [o])[..|trace|] == trace;
      var e1 := EvaluateOne(e, rule, d);
      if e1.events != e.events { assert e1.events[..|e1.events| - 1] == e.events; }
    } else {
      assert trace + [] == trace;
    }
  }

  // ----- the lifecycle sweep

  /** The synthetic evaluation of the sweep: a sample without node id that carries only the online bit. */
  function SweepItem(node: Node, online: bool): Evaluation {
    var bit := if online then 1.0 else 0.0;
    Evaluation(node, Some(Sample("", bit, 0, 0, 0, 0, 0.0, 0.0, 0.0, 0, 0, 0.0, [], 0, 0)), None)
  }

  const SAMPLED_METRICS: set<string> :=
    {"cpu", "memory", "swap", "load1", "load5", "load15", "disk", "temperature",
     "traffic_sum", "traffic_up", "traffic_down"}

  /** What the sweep shows of a metric. */
  function SweepValue(metric: string, online: bool): real {
    if online && (metric == "online" || metric == "cpu") then 1.0 else 0.0
  }

  /**
   The sweep is not addressed to the online rules alone: exactly the enabled rules in scope on the
   online bit or on a sampled metric observe it.
   */
  lemma SweepObservedExactlyBy(rule: Rule, node: Node, online: bool)
    ensures Relevant(rule, SweepItem(node, online)).Some? <==>
            rule.enabled && MatchesScope(rule.scope, node) && rule.metric in SAMPLED_METRICS + {"online"}
    ensures Relevant(rule, SweepItem(node, online)).Some? ==>
              Relevant(rule, SweepItem(node, online)).value == SweepValue(rule.metric, online)
  {}

  /** After an observation on which the condition fails, a firing takes at least the rule's duration. */
  lemma FalseObservationRestartsClock(rule: Rule, trace: seq<Observation>, j: nat, i: nat)
    requires Proper(rule, trace) && j < i < |trace|
    requires !HoldsAt(rule, trace, j) && SavedAt(rule, trace, i) == Some(Firing)
    ensures trace[i].at - trace[j].at >= Max(rule.durationSeconds, 0) * SECOND
  {
    hide EvaluateRule, Condition, After;
    FiringSavedExactlyWhen(rule, trace, i);
    var start := RunStart(rule, trace, i);
    assert j < start;
  }

  /** The run of true conditions that ends with evaluation `i` has lasted for the rule's duration. */
  predicate LongEnough(rule: Rule, trace: seq<Observation>, i: nat)
    requires i < |trace|
  {
    HoldsAt(rule, trace, i) && trace[i].at - trace[RunStart(rule, trace, i)].at >= Max(rule.durationSeconds, 0) * SECOND
  }

  lemma {:induction false} LogGrowsBySaved(rule: Rule, trace: seq<Observation>)
    requires trace != []
    ensures var n := |trace| - 1;
            After(rule, trace).1 == [] <==>
              && After(rule, trace[..n]).1 == []
              && SavedAt(rule, trace, n) != Some(Firing) && SavedAt(rule, trace, n) != Some(Resolved)
  {
    hide EvaluateRule;
    var event := SavedAt(rule, trace, |trace| - 1);
    match event
    case Some(Firing) =>
    case Some(Resolved) =>
    case None =>
  }

  lemma {:induction false} LongEnoughPrefix(rule: Rule, trace: seq<Observation>, n: nat, i: nat)
    requires i < n <= |trace|
    ensures LongEnough(rule, trace[..n], i) == LongEnough(rule, trace, i)
  {
    hide Condition, RunStart;
    if HoldsAt(rule, trace, i) { RunStartPrefix(rule, trace, n, i); }
  }

  /** After a silent history, an evaluation stays silent exactly if its run is too short or the save fails. */
  lemma {:induction false} SilentStep(rule: Rule, trace: seq<Observation>, n: nat)
    requires Proper(rule, trace) && n < |trace| && After(rule, trace[..n]).1 == []
    ensures SavedAt(rule, trace, n) != Some(Firing) && SavedAt(rule, trace, n) != Some(Resolved)
       <==> (LongEnough(rule, trace, n) ==> !trace[n].saveOk)
  {
    hide EvaluateRule, Condition, After, SavedAt, RunStart, Proper;
    FiringSavedExactlyWhen(rule, trace, n);
    ResolvedSavedExactlyWhen(rule, trace, n);
  }

  /**
   A rule never saves an event exactly if no run of true conditions lasts for its duration at a time
   when a save succeeds.
   */
  lemma {:induction false} SilentExactlyWhen(rule: Rule, trace: seq<Observation>)
    requires Proper(rule, trace)
    ensures After(rule, trace).1 == [] <==>
            forall i :: 0 <= i < |trace| && LongEnough(rule, trace, i) ==> !trace[i].saveOk
    decreases |trace|
  {
    hide After, SavedAt, LongEnough;
    if trace == [] {
      NothingObserved(rule);
    } else {
      var n := |trace| - 1;
      var before := trace[..n];
      SilentExactlyWhen(rule, before);
      forall i | 0 <= i < n ensures LongEnough(rule, before, i) == LongEnough(rule, trace, i) {
        LongEnoughPrefix(rule, trace, n, i);
      }
      LogGrowsBySaved(rule, trace);
      if After(rule, before).1 == [] { SilentStep(rule, trace, n); }
      assert (forall i :: 0 <= i < n && LongEnough(rule, before, i) ==> !before[i].saveOk)
        <==> (forall i :: 0 <= i < n && LongEnough(rule, trace, i) ==> !trace[i].saveOk);
    }
  }

  lemma {:induction false} NothingObserved(rule: Rule)
    ensures After(rule, []) == (UNSEEN, [])
  {}

  // ----- where an observation comes from

  predicate Observes(rule: Rule, nodeID: string, d: Delivery) {
    d.item.node.id == nodeID && Relevant(rule, d.item).Some?
  }

  function ObservationOf(rule: Rule, d: Delivery): Observation
    requires Relevant(rule, d.item).Some?
  {
    Observation(Relevant(rule, d.item).value, d.now, d.saves(rule.id))
  }

  lemma {:induction false} ProjectPrefix(rule: Rule, nodeID: string, deliveries: seq<Delivery>, j: nat)
    requires j <= |deliveries|
    ensures Project(rule, nodeID, deliveries[..j]) <= Project(rule, nodeID, deliveries)
    decreases |deliveries|
  {
    hide Relevant;
    if j < |deliveries| {
      var before := deliveries[..|deliveries| - 1];
      ProjectPrefix(rule, nodeID, before, j);
      assert before[..j] == deliveries[..j];
    } else {
      assert deliveries[..j] == deliveries;
    }
  }

  /** A delivery that the rule observes is the observation after those of the deliveries before it. */
  lemma {:induction false} ProjectAt(rule: Rule, nodeID: string, deliveries: seq<Delivery>, j: nat)
    requires j < |deliveries| && Observes(rule, nodeID, deliveries[j])
    ensures var p, trace := |Project(rule, nodeID, deliveries[..j])|, Project(rule, nodeID, deliveries);
            p < |trace| && trace[p] == ObservationOf(rule, deliveries[j])
            && Project(rule, nodeID, deliveries[..j + 1]) == trace[..p + 1]
  {
    hide Relevant;
    assert deliveries[..j + 1][..j] == deliveries[..j];
    ProjectPrefix(rule, nodeID, deliveries, j + 1);
  }

  /** Every observation comes from a delivery that the rule observes. */
  lemma {:induction false} ProjectOrigin(rule: Rule, nodeID: string, deliveries: seq<Delivery>, i: nat) returns (o: nat)
    requires i < |Project(rule, nodeID, deliveries)|
    ensures o < |deliveries| && Observes(rule, nodeID, deliveries[o])
    ensures |Project(rule, nodeID, deliveries[..o])| == i
    ensures Project(rule, nodeID, deliveries)[i] == ObservationOf(rule, deliveries[o])
    decreases |deliveries|
  {
    hide Relevant;
    var n := |deliveries| - 1;
    var before := deliveries[..n];
    if i < |Project(rule, nodeID, before)| {
      o := ProjectOrigin(rule, nodeID, before, i);
      assert before[..o] == deliveries[..o];
    } else {
      o := n;
    }
  }

  /** Deliveries come with a clock that never goes back, none before the start. */
  ghost predicate InOrder(deliveries: seq<Delivery>, start: Time) {
    && (forall i :: 0 <= i < |deliveries| ==> start <= deliveries[i].now)
    && (forall i, j :: 0 <= i < j < |deliveries| ==> deliveries[i].now <= deliveries[j].now)
  }

  lemma {:induction false} ProjectProper(rule: Rule, nodeID: string, deliveries: seq<Delivery>, start: Time)
    requires 0 <= rule.cooldownSeconds <= LONGEST_WINDOW && LONGEST_WINDOW * SECOND <= start
             && InOrder(deliveries, start)
    ensures Proper(rule, Project(rule, nodeID, deliveries))
    ensures forall i :: 0 <= i < |Project(rule, nodeID, deliveries)| ==>
            start <= Project(rule, nodeID, deliveries)[i].at
    ensures forall i :: 0 <= i < |Project(rule, nodeID, deliveries)| ==>
              Project(rule, nodeID, deliveries)[i].at <= deliveries[|deliveries| - 1].now
    decreases |deliveries|
  {
    hide Relevant;
    if deliveries != [] {
      ProjectProper(rule, nodeID, deliveries[..|deliveries| - 1], start);
    }
  }

  /**
   Over everything delivered: a pair saves no event exactly if none of its runs lasts at a time when a
   save succeeds.
   */
  lemma {:induction false} PairSilentExactlyWhen(
    rules: seq<Rule>, deliveries: seq<Delivery>, r: nat, nodeID: string, start: Time)
    requires DistinctRules(rules) && r < |rules| && 0 <= rules[r].cooldownSeconds <= LONGEST_WINDOW
    requires LONGEST_WINDOW * SECOND <= start && InOrder(deliveries, start)
    ensures var trace := Project(rules[r], nodeID, deliveries);
            LogOf(AfterDeliveries(rules, deliveries).events, Key(rules[r].id, nodeID)) == [] <==>
            forall i :: 0 <= i < |trace| && LongEnough(rules[r], trace, i) ==> !trace[i].saveOk
  {
    hide Condition, Project, After, AfterDeliveries, LogOf, StateOf, Relevant, RunStart;
    ProjectProper(rules[r], nodeID, deliveries, start);
    SilentExactlyWhen(rules[r], Project(rules[r], nodeID, deliveries));
    PairsEvolveIndependently(rules, deliveries, r, nodeID);
  }

  // ----- what the sweep does to the other rules

  /** A sweep of the node, delivered while the node is in the rule's scope. */
  predicate Sweeps(rule: Rule, nodeID: string, d: Delivery) {
    && d.item.node.id == nodeID && MatchesScope(rule.scope, d.item.node)
    && (d.item == SweepItem(d.item.node, true) || d.item == SweepItem(d.item.node, false))
  }

  /** Whenever something is delivered, the start or a sweep of the node is less than `gap` ago. */
  ghost predicate SweptWithin(rule: Rule, nodeID: string, deliveries: seq<Delivery>, start: Time, gap: int) {
    forall i :: 0 <= i < |deliveries| && deliveries[i].now - start >= gap ==>
      exists j :: 0 <= j < i && Sweeps(rule, nodeID, deliveries[j]) && deliveries[i].now - deliveries[j].now < gap
  }

  /** The sweep is a false observation of a rule whose condition fails on the sweep's values. */
  lemma {:induction false} SweepIsFalseObservation(rule: Rule, nodeID: string, deliveries: seq<Delivery>, j: nat)
    requires rule.enabled && rule.metric in SAMPLED_METRICS + {"online"}
    requires !Condition(rule, SweepValue(rule.metric, true)) && !Condition(rule, SweepValue(rule.metric, false))
    requires j < |deliveries| && Sweeps(rule, nodeID, deliveries[j])
    ensures var p, trace := |Project(rule, nodeID, deliveries[..j])|, Project(rule, nodeID, deliveries);
            p < |trace| && !HoldsAt(rule, trace, p) && trace[p].at == deliveries[j].now
  {
    hide Condition, SweepValue, MatchesScope, Relevant, Project;
    var d := deliveries[j];
    SweepObservedExactlyBy(rule, d.item.node, true);
    SweepObservedExactlyBy(rule, d.item.node, false);
    ProjectAt(rule, nodeID, deliveries, j);
  }

  /** The observations of deliveries come in the order of the deliveries. */
  lemma {:induction false} ProjectOrder(rule: Rule, nodeID: string, deliveries: seq<Delivery>, j: nat, o: nat)
    requires j < o < |deliveries| && Observes(rule, nodeID, deliveries[j])
    ensures |Project(rule, nodeID, deliveries[..j])| < |Project(rule, nodeID, deliveries[..o])|
  {
    hide Relevant, Project;
    assert deliveries[..o][..j] == deliveries[..j];
    ProjectAt(rule, nodeID, deliveries[..o], j);
  }

  /**
   A rule on a sampled metric or the online bit whose condition fails on both values of the sweep
   stays silent about a node that is swept at shorter intervals than the rule's duration, whatever
   samples arrive and whichever saves would succeed.
   */
  lemma {:induction false} SweepsKeepRuleSilent(
    rules: seq<Rule>, deliveries: seq<Delivery>, r: nat, nodeID: string, start: Time)
    requires DistinctRules(rules) && r < |rules| && rules[r].enabled && rules[r].metric in SAMPLED_METRICS + {"online"}
    requires 0 <= rules[r].cooldownSeconds <= LONGEST_WINDOW && LONGEST_WINDOW * SECOND <= start
             && InOrder(deliveries, start)
    requires !Condition(rules[r], SweepValue(rules[r].metric, true))
             && !Condition(rules[r], SweepValue(rules[r].metric, false))
    requires SweptWithin(rules[r], nodeID, deliveries, start, Max(rules[r].durationSeconds, 0) * SECOND)
    ensures LogOf(AfterDeliveries(rules, deliveries).events, Key(rules[r].id, nodeID)) == []
  {
    hide Condition, SweepValue, Project, Sweeps, After, AfterDeliveries, LogOf, StateOf, Relevant;
    var rule := rules[r];
    var trace := Project(rule, nodeID, deliveries);
    ProjectProper(rule, nodeID, deliveries, start);
    forall i | 0 <= i < |trace| ensures !LongEnough(rule, trace, i) {
      if HoldsAt(rule, trace, i) {
        SweptRunIsShort(rule, nodeID, deliveries, start, i);
      }
    }
    PairSilentExactlyWhen(rules, deliveries, r, nodeID, start);
  }

  lemma {:induction false} SweptRunIsShort(rule: Rule, nodeID: string, deliveries: seq<Delivery>, start: Time, i: nat)
    requires rule.enabled && rule.metric in SAMPLED_METRICS + {"online"}
    requires !Condition(rule, SweepValue(rule.metric, true)) && !Condition(rule, SweepValue(rule.metric, false))
    requires SweptWithin(rule, nodeID, deliveries, start, Max(rule.durationSeconds, 0) * SECOND)
    requires i < |Project(rule, nodeID, deliveries)| && HoldsAt(rule, Project(rule, nodeID, deliveries), i)
    requires Proper(rule, Project(rule, nodeID, deliveries))
    requires forall k :: 0 <= k < |Project(rule, nodeID, deliveries)| ==>
             start <= Project(rule, nodeID, deliveries)[k].at
    ensures var trace := Project(rule, nodeID, deliveries);
            trace[i].at - trace[RunStart(rule, trace, i)].at < Max(rule.durationSeconds, 0) * SECOND
  {
    hide Condition, SweepValue, Project, Sweeps, Relevant;
    var trace, gap := Project(rule, nodeID, deliveries), Max(rule.durationSeconds, 0) * SECOND;
    var o := ProjectOrigin(rule, nodeID, deliveries, i);
    var first := RunStart(rule, trace, i);
    if deliveries[o].now - start >= gap {
      var j :| 0 <= j < o && Sweeps(rule, nodeID, deliveries[j]) && deliveries[o].now - deliveries[j].now < gap;
      SweepIsFalseObservation(rule, nodeID, deliveries, j);
      SweepIsObserved(rule, nodeID, deliveries[j]);
      ProjectOrder(rule, nodeID, deliveries, j, o);
      var p := |Project(rule, nodeID, deliveries[..j])|;
      assert p < first;
    }
  }

  lemma SweepIsObserved(rule: Rule, nodeID: string, d: Delivery)
    requires rule.enabled && rule.metric in SAMPLED_METRICS + {"online"} && Sweeps(rule, nodeID, d)
    ensures Observes(rule, nodeID, d)
  {
    hide MatchesScope, Relevant;
    SweepObservedExactlyBy(rule, d.item.node, true);
    SweepObservedExactlyBy(rule, d.item.node, false);
  }

  const BUSY_RULE := Rule(1, true, Scope([], [], []), "cpu", ">", 90.0, 80.0, 20, 0)

  /** A sample of a node with its processor 95 percent busy. */
  function BusyItem(node: Node): Evaluation {
    Evaluation(node, Some(Sample(node.id, 95.0, 0, 0, 0, 0, 0.0, 0.0, 0.0, 0, 0, 0.0, [], 0, 0)), None)
  }

  lemma BusyTraces(t: Time)
    requires t >= LONGEST_WINDOW * SECOND
    ensures var busy, later := Observation(95.0, t, true), Observation(95.0, t + 20 * SECOND, true);
            var sweep := Observation(1.0, t + 15 * SECOND, true);
            && After(BUSY_RULE, [busy, later]).1 == [Entry(Firing, later.at)]
            && After(BUSY_RULE, [busy, sweep, later]).1 == []
  {
    var busy, later := Observation(95.0, t, true), Observation(95.0, t + 20 * SECOND, true);
    var sweep := Observation(1.0, t + 15 * SECOND, true);
    assert After(BUSY_RULE, []) == (UNSEEN, []);
    assert [busy][..0] == [] && [busy, later][..1] == [busy] && [busy, sweep][..1] == [busy]
        && [busy, sweep, later][..2] == [busy, sweep];
    assert After(BUSY_RULE, [busy]) == (RuleState(t, false, 0), []);
    assert After(BUSY_RULE, [busy, sweep]) == (UNSEEN, []);
  }

  /** A node that is busy throughout: the rule fires after 20 seconds, unless a sweep is delivered in between. */
  lemma SweepSuppressesBusyAlert(t: Time, node: Node, saves: int -> bool)
    requires t >= LONGEST_WINDOW * SECOND && saves(1)
    ensures var busy, later := Delivery(BusyItem(node), t, saves), Delivery(BusyItem(node), t + 20 * SECOND, saves);
            var sweep := Delivery(SweepItem(node, true), t + 15 * SECOND, saves);
            && LogOf(AfterDeliveries([BUSY_RULE], [busy, later]).events, Key(1, node.id)) == [Entry(Firing, later.now)]
            && LogOf(AfterDeliveries([BUSY_RULE], [busy, sweep, later]).events, Key(1, node.id)) == []
  {
    hide After, AfterDeliveries, LogOf, StateOf, EvaluateRule;
    var busy, later := Delivery(BusyItem(node), t, saves), Delivery(BusyItem(node), t + 20 * SECOND, saves);
    var sweep := Delivery(SweepItem(node, true), t + 15 * SECOND, saves);
    BusyTraces(t);
    PairsEvolveIndependently([BUSY_RULE], [busy, later], 0, node.id);
    PairsEvolveIndependently([BUSY_RULE], [busy, sweep, later], 0, node.id);
    assert Relevant(BUSY_RULE, busy.item) == Some(95.0) == Relevant(BUSY_RULE, later.item);
    assert Relevant(BUSY_RULE, sweep.item) == Some(1.0);
    var a, b, c := ObservationOf(BUSY_RULE, busy), ObservationOf(BUSY_RULE, sweep), ObservationOf(BUSY_RULE, later);
    BusyProjections(node, busy, sweep, later);
    assert [a] + [c] == [a, c] && [a] + [b] + [c] == [a, b, c];
  }

  lemma BusyProjections(node: Node, busy: Delivery, sweep: Delivery, later: Delivery)
    requires busy.item.node == sweep.item.node == later.item.node == node
    requires Relevant(BUSY_RULE, busy.item).Some? && Relevant(BUSY_RULE, sweep.item).Some?
             && Relevant(BUSY_RULE, later.item).Some?
    ensures var a, b, c := ObservationOf(BUSY_RULE, busy), ObservationOf(BUSY_RULE, sweep),
            ObservationOf(BUSY_RULE, later);
            && Project(BUSY_RULE, node.id, [busy, later]) == [a] + [c]
            && Project(BUSY_RULE, node.id, [busy, sweep, later]) == [a] + [b] + [c]
  {
    hide Relevant;
    assert [busy][..0] == [] && [busy, later][..1] == [busy] && [busy, sweep][..1] == [busy]
        && [busy, sweep, later][..2] == [busy, sweep];
    assert Project(BUSY_RULE, node.id, []) == [];
    assert Project(BUSY_RULE, node.id, [busy]) == [ObservationOf(BUSY_RULE, busy)];
  }

  // ----- the offline alert

  /** Tell at once when a node goes offline, and when it is back. */
  const OFFLINE_RULE := Rule(2, true, Scope([], [], []), "online", "<", 1.0, 1.0, 0, 0)

  lemma OfflineTraces(t: Time)
    requires t >= LONGEST_WINDOW * SECOND
    ensures var off, on := Observation(0.0, t, true), Observation(1.0, t + 15 * SECOND, true);
            && After(OFFLINE_RULE, [off]).1 == [Entry(Firing, t)]
            && After(OFFLINE_RULE, [off, on]).1 == [Entry(Firing, t), Entry(Resolved, t + 15 * SECOND)]
            && After(OFFLINE_RULE, [on]).1 == []
  {
    var off, on := Observation(0.0, t, true), Observation(1.0, t + 15 * SECOND, true);
    OperatorsCompare(0.0, 1.0);
    OperatorsCompare(1.0, 1.0);
    RecoverySides(OFFLINE_RULE, 1.0);
    NothingObserved(OFFLINE_RULE);
    assert Condition(OFFLINE_RULE, 0.0) && !Condition(OFFLINE_RULE, 1.0) && Recovered(1.0, OFFLINE_RULE);
    hide Compare, Condition, Recovered;
    assert EvaluateRule(OFFLINE_RULE, UNSEEN, 0.0, t, true) == (RuleState(t, true, t), Some(Firing));
    assert [off][..0] == [] && [on][..0] == [] && [off, on][..1] == [off];
    assert After(OFFLINE_RULE, [off]) == (RuleState(t, true, t), [] + [Entry(Firing, t)]);
    assert [] + [Entry(Firing, t)] == [Entry(Firing, t)];
    assert EvaluateRule(OFFLINE_RULE, RuleState(t, true, t), 1.0, t + 15 * SECOND, true)
        == (RuleState(0, false, t + 15 * SECOND), Some(Resolved));
  }

  /** A sweep that finds the node offline raises the alert, the next one that finds it online resolves it. */
  lemma OfflineSweepAlerts(t: Time, node: Node, saves: int -> bool)
    requires t >= LONGEST_WINDOW * SECOND && saves(2)
    ensures var off, on := Delivery(SweepItem(node, false), t, saves),
            Delivery(SweepItem(node, true), t + 15 * SECOND, saves);
            var key := Key(2, node.id);
            && LogOf(AfterDeliveries([OFFLINE_RULE], [off]).events, key) == [Entry(Firing, t)]
            && LogOf(AfterDeliveries([OFFLINE_RULE], [off, on]).events, key)
               == [Entry(Firing, t), Entry(Resolved, t + 15 * SECOND)]
            && LogOf(AfterDeliveries([OFFLINE_RULE], [on]).events, key) == []
  {
    hide After, AfterDeliveries, LogOf, StateOf, EvaluateRule, Relevant;
    var off, on := Delivery(SweepItem(node, false), t, saves), Delivery(SweepItem(node, true), t + 15 * SECOND, saves);
    OfflineTraces(t);
    PairsEvolveIndependently([OFFLINE_RULE], [off], 0, node.id);
    PairsEvolveIndependently([OFFLINE_RULE], [off, on], 0, node.id);
    PairsEvolveIndependently([OFFLINE_RULE], [on], 0, node.id);
    SweepObservedExactlyBy(OFFLINE_RULE, node, false);
    SweepObservedExactlyBy(OFFLINE_RULE, node, true);
    assert Project(OFFLINE_RULE, node.id, []) == [];
    assert [off][..0] == [] && [on][..0] == [] && [off, on][..1] == [off];
    var a, b := Observation(0.0, t, true), Observation(1.0, t + 15 * SECOND, true);
    assert Project(OFFLINE_RULE, node.id, [off]) == [] + [a] == [a];
    assert Project(OFFLINE_RULE, node.id, [on]) == [] + [b] == [b];
    assert Project(OFFLINE_RULE, node.id, [off, on]) == [a] + [b] == [a, b];
  }
}
