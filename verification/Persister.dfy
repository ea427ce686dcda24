/**
 The persistence queue: any number of producers push into a bounded channel, dropping the oldest
 item when it is full, while one worker saves items and retries until it is shut down. Every
 channel operation is one atomic step and steps of different goroutines interleave freely.
 */
module Persister {
  import opened Basics

  /** One call of enqueue submits one item; items of different calls are different. */
  type Item = nat

  /**
   Where an enqueue call stands: the three selects, each with its count of what was dropped, then the
   degraded flag.
   */
  datatype Pc = TrySend | Evict | CountEvicted | TryAgain | CountRefused | MarkDegraded

  /** The call still has its own item in hand. */
  predicate InHand(pc: Pc) { !pc.CountRefused? && !pc.MarkDegraded? }

  /** The call has dropped an item that it has not counted yet. */
  predicate Counting(pc: Pc) { pc.CountEvicted? || pc.CountRefused? }

  datatype Worker =
    | Waiting
    | Writing(item: Item)
    | Draining
    | DrainWriting(item: Item)
    | Stopped

  datatype State = State(
    capacity: nat, queue: seq<Item>, degraded: bool, dropped: nat,
    calls: map<Item, Pc>, worker: Worker, cancelled: bool, expired: bool,
    submitted: set<Item>, saved: seq<Item>, discarded: seq<Item>, abandoned: seq<Item>)

  function Start(capacity: nat): State {
    State(capacity, [], false, 0, map[], Waiting, false, false, {}, [], [], [])
  }

  datatype Event =
    | Submit(item: Item)
    | Proceed(item: Item)
    | Take
    | Save
    | Reject
    | Retry
    | GiveUp
    | Finish
    | Cancel
    | Expire

  predicate Holding(w: Worker) { w.Writing? || w.DrainWriting? }

  /** Whether the context that the worker's current write runs under is still live. */
  predicate ContextLive(s: State) { if s.worker.Writing? then !s.cancelled else !s.expired }

  predicate Enabled(s: State, e: Event) {
    match e
    case Submit(item) => item !in s.submitted
    case Proceed(item) => item in s.calls
    case Take => s.queue != [] && (s.worker.Waiting? || s.worker.Draining?)
    case Save => Holding(s.worker)
    case Reject => Holding(s.worker) && ContextLive(s)
    case Retry => Holding(s.worker)
    case GiveUp => Holding(s.worker) && !ContextLive(s)
    case Finish => (s.worker.Waiting? && s.cancelled) || (s.worker.Draining? && s.queue == [])
    case Cancel => true
    case Expire => s.worker.Draining? || s.worker.DrainWriting?
  }

  /** One select, count or flag of an enqueue call. */
  function ProceedCall(s: State, item: Item): State
    requires item in s.calls
  {
    match s.calls[item]
    case TrySend =>
      if |s.queue| < s.capacity then s.(queue := s.queue + [item], calls := s.calls - {item})
      else s.(calls := s.calls[item := Evict])
    case Evict =>
      if s.queue != [] then
        s.(queue := s.queue[1..], discarded := s.discarded + [s.queue[0]], calls := s.calls[item := CountEvicted])
      else s.(calls := s.calls[item := TryAgain])
    case CountEvicted => s.(dropped := s.dropped + 1, calls := s.calls[item := TryAgain])
    case TryAgain =>
      if |s.queue| < s.capacity then s.(queue := s.queue + [item], calls := s.calls[item := MarkDegraded])
      else s.(discarded := s.discarded + [item], calls := s.calls[item := CountRefused])
    case CountRefused => s.(dropped := s.dropped + 1, calls := s.calls[item := MarkDegraded])
    case MarkDegraded => s.(degraded := true, calls := s.calls - {item})
  }

  /** What the worker does once the item it holds is dealt with. */
  function Released(w: Worker): Worker { if w.Writing? then Waiting else Draining }

  function Apply(s: State, e: Event): State
    requires Enabled(s, e)
  {
    match e
    case Submit(item) => s.(submitted := s.submitted + {item}, calls := s.calls[item := TrySend])
    case Proceed(item) => ProceedCall(s, item)
    case Take =>
      s.(queue := s.queue[1..], worker := if s.worker.Waiting? then Writing(s.queue[0]) else DrainWriting(s.queue[0]))
    case Save => s.(saved := s.saved + [s.worker.item], degraded := false, worker := Released(s.worker))
    case Reject =>
      s.(discarded := s.discarded + [s.worker.item], dropped := s.dropped + 1, degraded := false,
         worker := Released(s.worker))
    case Retry => s.(degraded := true)
    case GiveUp =>
      if s.worker.Writing? then s.(degraded := true, worker := DrainWriting(s.worker.item))
      else s.(degraded := true, abandoned := s.abandoned + [s.worker.item], worker := Stopped)
    case Finish => s.(worker := if s.worker.Waiting? then Draining else Stopped)
    case Cancel => s.(cancelled := true)
    case Expire => s.(expired := true)
  }

  ghost predicate IsRun(run: seq<State>, events: seq<Event>) {
    && |run| == |events| + 1
    && forall i :: 0 <= i < |events| ==> Enabled(run[i], events[i]) && run[i + 1] == Apply(run[i], events[i])
  }

  // ----- conservation

  /** Items still in the hands of a producer. */
  function Pending(calls: map<Item, Pc>): set<Item> {
    set i | i in calls && InHand(calls[i])
  }

  /** Calls that have yet to count what they dropped. */
  function Uncounted(calls: map<Item, Pc>): set<Item> {
    set i | i in calls && Counting(calls[i])
  }

  lemma UncountedUpdate(calls: map<Item, Pc>, item: Item, pc: Pc)
    ensures Uncounted(calls[item := pc]) == (Uncounted(calls) - {item}) + if Counting(pc) then {item} else {}
  {
    hide Counting;
  }

  lemma UncountedRemove(calls: map<Item, Pc>, item: Item)
    ensures Uncounted(calls - {item}) == Uncounted(calls) - {item}
    ensures item in Uncounted(calls) <==> item in calls && Counting(calls[item])
  {
    hide Counting;
  }

  /** How many calls have yet to count, after one of them takes a step or returns. */
  lemma UncountedSize(calls: map<Item, Pc>, item: Item, pc: Pc)
    requires item in calls
    ensures |Uncounted(calls[item := pc])|
            == |Uncounted(calls)| - (if Counting(calls[item]) then 1 else 0) + (if Counting(pc) then 1 else 0)
    ensures |Uncounted(calls - {item})| == |Uncounted(calls)| - (if Counting(calls[item]) then 1 else 0)
  {
    hide Counting, Uncounted;
    UncountedUpdate(calls, item, pc);
    UncountedRemove(calls, item);
    var u := Uncounted(calls);
    if item in u { assert |u - {item}| == |u| - 1; } else { assert u - {item} == u; }
  }

  function Occurs(q: seq<Item>, x: Item): nat { multiset(q)[x] }

  lemma OccursAppend(q: seq<Item>, y: Item, x: Item)
    ensures Occurs(q + [y], x) == Occurs(q, x) + if x == y then 1 else 0
  {}

  lemma OccursPop(q: seq<Item>, x: Item)
    requires q != []
    ensures Occurs(q, x) == Occurs(q[1..], x) + if x == q[0] then 1 else 0
  {
    assert q == [q[0]] + q[1..];
  }

  function HeldCopies(w: Worker, x: Item): nat { if Holding(w) && w.item == x then 1 else 0 }

  function PendingCopies(calls: map<Item, Pc>, x: Item): nat {
    if x in calls && InHand(calls[x]) then 1 else 0
  }

  /** In how many places an item is. */
  function Copies(s: State, x: Item): nat {
    PendingCopies(s.calls, x) + Occurs(s.queue, x) + HeldCopies(s.worker, x)
    + Occurs(s.saved, x) + Occurs(s.discarded, x) + Occurs(s.abandoned, x)
  }

  ghost predicate Conserved(s: State) {
    && (forall x :: Copies(s, x) == if x in s.submitted then 1 else 0)
    && s.calls.Keys <= s.submitted
    && s.dropped + |Uncounted(s.calls)| == |s.discarded|
    && |s.queue| <= s.capacity
  }

  lemma ProceedMovesItems(s: State, item: Item, x: Item)
    requires item in s.calls
    ensures Copies(ProceedCall(s, item), x) == Copies(s, x)
  {
    hide Occurs;
    var s1 := ProceedCall(s, item);
    match s.calls[item]
    case TrySend =>
      OccursAppend(s.queue, item, x);
    case Evict =>
      if s.queue != [] {
        OccursPop(s.queue, x);
        OccursAppend(s.discarded, s.queue[0], x);
      }
    case TryAgain =>
      OccursAppend(s.queue, item, x);
      OccursAppend(s.discarded, item, x);
    case _ =>
  }

  /** A step of a call drops an item, counts one, or neither. */
  lemma ProceedCounts(s: State, item: Item)
    requires item in s.calls && s.dropped + |Uncounted(s.calls)| == |s.discarded|
    ensures var s1 := ProceedCall(s, item);
            s1.dropped + |Uncounted(s1.calls)| == |s1.discarded|
  {
    hide Uncounted;
    match s.calls[item]
    case TrySend => UncountedSize(s.calls, item, Evict);
    case Evict => UncountedSize(s.calls, item, CountEvicted); UncountedSize(s.calls, item, TryAgain);
    case CountEvicted => UncountedSize(s.calls, item, TryAgain);
    case TryAgain => UncountedSize(s.calls, item, CountRefused); UncountedSize(s.calls, item, MarkDegraded);
    case CountRefused => UncountedSize(s.calls, item, MarkDegraded);
    case MarkDegraded => UncountedSize(s.calls, item, MarkDegraded);
  }

  /** No step but a submission changes in how many places an item is. */
  lemma StepMovesItems(s: State, e: Event, x: Item)
    requires Enabled(s, e) && s.calls.Keys <= s.submitted
    ensures Copies(Apply(s, e), x) == Copies(s, x) + if e == Submit(x) then 1 else 0
  {
    hide Occurs, ProceedCall;
    if e.Proceed? { ProceedMovesItems(s, e.item, x); }
    if e.Take? { OccursPop(s.queue, x); }
    if Holding(s.worker) {
      OccursAppend(s.saved, s.worker.item, x);
      OccursAppend(s.discarded, s.worker.item, x);
      OccursAppend(s.abandoned, s.worker.item, x);
    }
  }

  lemma StepCounts(s: State, e: Event)
    requires Enabled(s, e) && s.calls.Keys <= s.submitted && s.dropped + |Uncounted(s.calls)| == |s.discarded|
    ensures Apply(s, e).dropped + |Uncounted(Apply(s, e).calls)| == |Apply(s, e).discarded|
  {
    hide Uncounted, ProceedCall;
    if e.Proceed? { ProceedCounts(s, e.item); }
    if e.Submit? { UncountedUpdate(s.calls, e.item, TrySend); UncountedRemove(s.calls, e.item); }
  }

  lemma StepKeepsBounds(s: State, e: Event)
    requires Enabled(s, e) && s.calls.Keys <= s.submitted && |s.queue| <= s.capacity
    ensures Apply(s, e).calls.Keys <= Apply(s, e).submitted && |Apply(s, e).queue| <= Apply(s, e).capacity == s.capacity
  {
    hide ProceedCall;
    if e.Proceed? { ProceedKeepsBounds(s, e.item); }
  }

  lemma ProceedKeepsBounds(s: State, item: Item)
    requires item in s.calls && |s.queue| <= s.capacity
    ensures var s1 := ProceedCall(s, item);
            s1.calls.Keys <= s.calls.Keys && s1.submitted == s.submitted && |s1.queue| <= s1.capacity == s.capacity
  {}

  lemma StepConserves(s: State, e: Event)
    requires Conserved(s) && Enabled(s, e)
    ensures Conserved(Apply(s, e)) && Apply(s, e).capacity == s.capacity
  {
    hide Copies, Apply, Enabled;
    StepCounts(s, e);
    StepKeepsBounds(s, e);
    SubmittedBy(s, e);
    forall x ensures Copies(Apply(s, e), x) == if x in Apply(s, e).submitted then 1 else 0 {
      StepMovesItems(s, e, x);
    }
  }

  lemma SubmittedBy(s: State, e: Event)
    requires Enabled(s, e)
    ensures Apply(s, e).submitted == if e.Submit? then s.submitted + {e.item} else s.submitted
    ensures e.Submit? ==> e.item !in s.submitted
  {}

  lemma {:induction false} RunConserves(run: seq<State>, events: seq<Event>, capacity: nat, i: nat)
    requires IsRun(run, events) && run[0] == Start(capacity) && i < |run|
    ensures Conserved(run[i]) && run[i].capacity == capacity
  {
    hide Conserved;
    if i == 0 {
      StartConserved(capacity);
    } else {
      RunConserves(run, events, capacity, i - 1);
      StepConserves(run[i - 1], events[i - 1]);
    }
  }

  lemma StartConserved(capacity: nat)
    ensures Conserved(Start(capacity))
  {
    assert Pending(map[]) == {} && Uncounted(map[]) == {};
  }

  datatype Fate = WithProducer | Queued | WithWorker | Saved | Dropped | Abandoned

  predicate HasFate(s: State, item: Item, fate: Fate) {
    match fate
    case WithProducer => item in s.calls && InHand(s.calls[item])
    case Queued => item in s.queue
    case WithWorker => Holding(s.worker) && s.worker.item == item
    case Saved => item in s.saved
    case Dropped => item in s.discarded
    case Abandoned => item in s.abandoned
  }

  /** A value occurs at most once in a sequence. */
  ghost predicate Distinct(q: seq<Item>) {
    forall i, j :: 0 <= i < j < |q| ==> q[i] != q[j]
  }

  lemma MultiplicityOne(q: seq<Item>)
    requires forall x :: multiset(q)[x] <= 1
    ensures Distinct(q)
  {
    forall i, j | 0 <= i < j < |q|
      ensures q[i] != q[j]
    {
      assert q == q[..i] + [q[i]] + q[i + 1..j] + [q[j]] + q[j + 1..];
      assert multiset(q) == multiset(q[..i]) + multiset{q[i]} + multiset(q[i + 1..j]) + multiset{q[j]}
          + multiset(q[j + 1..]);
      assert multiset(q)[q[i]] <= 1;
    }
  }

  /**
   In every reachable state a submitted item has exactly one fate and no other item has any; nothing
   is queued, saved or dropped twice; and the queue stays within its capacity.
   */
  lemma ExactlyOneFate(run: seq<State>, events: seq<Event>, capacity: nat, i: nat, item: Item)
    requires IsRun(run, events) && run[0] == Start(capacity) && i < |run|
    ensures item in run[i].submitted <==> exists fate :: HasFate(run[i], item, fate)
    ensures forall f, g :: HasFate(run[i], item, f) && HasFate(run[i], item, g) ==> f == g
    ensures Distinct(run[i].queue) && Distinct(run[i].saved) && Distinct(run[i].discarded)
    ensures |run[i].queue| <= capacity
  {
    RunConserves(run, events, capacity, i);
    var s := run[i];
    FatesAreCopies(s, item);
    forall x ensures multiset(s.queue)[x] <= 1 && multiset(s.saved)[x] <= 1 && multiset(s.discarded)[x] <= 1 {
      assert Copies(s, x) <= 1;
    }
    MultiplicityOne(s.queue);
    MultiplicityOne(s.saved);
    MultiplicityOne(s.discarded);
  }

  lemma FatesAreCopies(s: State, item: Item)
    requires Conserved(s)
    ensures item in s.submitted <==> exists fate :: HasFate(s, item, fate)
    ensures forall f, g :: HasFate(s, item, f) && HasFate(s, item, g) ==> f == g
  {
    assert Copies(s, item) == if item in s.submitted then 1 else 0;
    if item in s.submitted {
      var fate := if HasFate(s, item, WithProducer) then WithProducer else if HasFate(s, item, Queued) then Queued
                  else if HasFate(s, item, WithWorker) then WithWorker else if HasFate(s, item, Saved) then Saved
                  else if HasFate(s, item, Dropped) then Dropped else Abandoned;
      assert HasFate(s, item, fate);
    }
  }

  /**
   The dropped counter, together with the calls that are about to count, accounts for every submission
   that is neither saved, under way nor abandoned.
   */
  lemma DroppedCounterBalances(run: seq<State>, events: seq<Event>, capacity: nat, i: nat)
    requires IsRun(run, events) && run[0] == Start(capacity) && i < |run|
    ensures var s := run[i];
            |s.submitted| == |Pending(s.calls)| + |s.queue| + (if Holding(s.worker) then 1 else 0)
                             + |s.saved| + s.dropped + |Uncounted(s.calls)| + |s.abandoned|
  {
    RunConserves(run, events, capacity, i);
    var s := run[i];
    var held := if Holding(s.worker) then [s.worker.item] else [];
    var all := s.queue + held + s.saved + s.discarded + s.abandoned;
    var everywhere := multiset(Pending(s.calls)) + multiset(all);
    forall x ensures everywhere[x] == multiset(s.submitted)[x] {
      assert Copies(s, x) == if x in s.submitted then 1 else 0;
      assert multiset(held)[x] == HeldCopies(s.worker, x);
    }
    assert everywhere == multiset(s.submitted);
    assert |everywhere| == |multiset(s.submitted)|;
  }

  lemma ProceedLeavesWorker(s: State, item: Item)
    requires item in s.calls
    ensures var s1 := ProceedCall(s, item);
            s1.worker == s.worker && s1.saved == s.saved && s1.abandoned == s.abandoned
  {}

  lemma StepAfterStop(s: State, e: Event)
    requires Enabled(s, e) && s.worker.Stopped?
    ensures Apply(s, e).worker.Stopped? && Apply(s, e).saved == s.saved && Apply(s, e).abandoned == s.abandoned
  {
    hide ProceedCall;
    if e.Proceed? { ProceedLeavesWorker(s, e.item); }
  }

  /**
   Once the worker has stopped it stays stopped and saves nothing any more: whatever is queued then, or
   queued later, is lost to the shutdown.
   */
  lemma {:induction false} StoppedForGood(run: seq<State>, events: seq<Event>, i: nat, j: nat)
    requires IsRun(run, events) && i <= j < |run| && run[i].worker.Stopped?
    ensures run[j].worker.Stopped? && run[j].saved == run[i].saved && run[j].abandoned == run[i].abandoned
    decreases j
  {
    hide Apply, Enabled;
    if i < j {
      StoppedForGood(run, events, i, j - 1);
      StepAfterStop(run[j - 1], events[j - 1]);
    }
  }

  /** The worker stops on an empty queue, or when the time for draining is over. */
  lemma StopsDrainedOrExpired(s: State, e: Event)
    requires Enabled(s, e) && !s.worker.Stopped? && Apply(s, e).worker.Stopped?
    ensures s.queue == [] || s.expired
    ensures !s.expired ==> Apply(s, e).abandoned == s.abandoned && Apply(s, e).queue == []
  {
    hide ProceedCall;
    if e.Proceed? { ProceedLeavesWorker(s, e.item); }
  }

  lemma AbandonsOnlyExpired(s: State, e: Event)
    requires Enabled(s, e)
    ensures Apply(s, e).expired <==> s.expired || e.Expire?
    ensures Apply(s, e).abandoned != s.abandoned ==> s.expired
  {
    hide ProceedCall;
    if e.Proceed? {
      ProceedLeavesWorker(s, e.item);
      ProceedLeavesDeadline(s, e.item);
    }
  }

  lemma ProceedLeavesDeadline(s: State, item: Item)
    requires item in s.calls
    ensures ProceedCall(s, item).expired == s.expired && ProceedCall(s, item).cancelled == s.cancelled
  {}

  /**
   Over every run: nothing is abandoned before the time for draining is over, and a worker that stopped
   before that had emptied the queue.
   */
  lemma {:induction false} ShutdownDrainsFirst(run: seq<State>, events: seq<Event>, capacity: nat, i: nat)
    requires IsRun(run, events) && run[0] == Start(capacity) && i < |run|
    ensures run[i].abandoned != [] ==> run[i].expired
    ensures i > 0 && run[i].worker.Stopped? && !run[i - 1].worker.Stopped? ==>
            run[i - 1].queue == [] || run[i - 1].expired
  {
    hide Apply, Enabled;
    if i > 0 {
      ShutdownDrainsFirst(run, events, capacity, i - 1);
      AbandonsOnlyExpired(run[i - 1], events[i - 1]);
      if run[i].worker.Stopped? && !run[i - 1].worker.Stopped? { StopsDrainedOrExpired(run[i - 1], events[i - 1]); }
    }
  }

  /** The time for draining runs only from the moment draining begins. */
  lemma {:induction false} DeadlineNeedsDraining(run: seq<State>, events: seq<Event>, capacity: nat, i: nat)
    requires IsRun(run, events) && run[0] == Start(capacity) && i < |run|
    ensures run[i].expired ==> run[i].worker.Draining? || run[i].worker.DrainWriting? || run[i].worker.Stopped?
    ensures run[i].worker.Draining? || run[i].worker.DrainWriting? ==> run[i].cancelled
  {
    hide Apply, Enabled;
    if i > 0 {
      DeadlineNeedsDraining(run, events, capacity, i - 1);
      StepOnDeadline(run[i - 1], events[i - 1]);
    }
  }

  lemma StepOnDeadline(s: State, e: Event)
    requires Enabled(s, e)
    requires s.expired ==> s.worker.Draining? || s.worker.DrainWriting? || s.worker.Stopped?
    requires s.worker.Draining? || s.worker.DrainWriting? ==> s.cancelled
    ensures var s1 := Apply(s, e);
            && (s1.expired ==> s1.worker.Draining? || s1.worker.DrainWriting? || s1.worker.Stopped?)
            && (s1.worker.Draining? || s1.worker.DrainWriting? ==> s1.cancelled)
  {
    hide ProceedCall;
    if e.Proceed? {
      ProceedLeavesWorker(s, e.item);
      ProceedLeavesDeadline(s, e.item);
    }
  }

  // ----- a shutdown with a working store

  /** Taking and saving every queued item, then finishing. */
  function DrainEvents(n: nat): seq<Event> {
    if n == 0 then [Finish] else [Take, Save] + DrainEvents(n - 1)
  }

  ghost predicate Leads(s: State, events: seq<Event>, end: State)
    decreases |events|
  {
    if events == [] then s == end else Enabled(s, events[0]) && Leads(Apply(s, events[0]), events[1..], end)
  }

  lemma {:induction false} DrainSavesAll(s: State)
    requires s.worker.Draining?
    ensures Leads(s, DrainEvents(|s.queue|),
                  s.(queue := [], saved := s.saved + s.queue, worker := Stopped,
                     degraded := if s.queue == [] then s.degraded else false))
    decreases |s.queue|
  {
    var end := s.(queue := [], saved := s.saved + s.queue, worker := Stopped,
                  degraded := if s.queue == [] then s.degraded else false);
    if s.queue == [] {
      assert [Finish][1..] == [];
      assert s.saved + [] == s.saved;
      assert Apply(s, Finish) == end;
    } else {
      var taken := Apply(s, Take);
      var saved := Apply(taken, Save);
      DrainSavesAll(saved);
      assert s.saved + [s.queue[0]] + s.queue[1..] == s.saved + s.queue;
      var events := DrainEvents(|s.queue|);
      assert events[0] == Take && events[1..][0] == Save && events[1..][1..] == DrainEvents(|s.queue| - 1);
    }
  }

  /** A cancelled worker whose store works saves everything that is queued, in order, and stops. */
  lemma {:induction false} ShutdownSavesAll(s: State)
    requires s.worker.Waiting? && s.cancelled
    ensures Leads(s, [Finish] + DrainEvents(|s.queue|),
                  s.(queue := [], saved := s.saved + s.queue, worker := Stopped,
                     degraded := if s.queue == [] then s.degraded else false))
  {
    var draining := Apply(s, Finish);
    DrainSavesAll(draining);
    assert ([Finish] + DrainEvents(|s.queue|))[1..] == DrainEvents(|s.queue|);
  }

  // ----- what producers and the worker can count on

  /** How many steps of its own a call has left at most. */
  function StepsLeft(pc: Pc): nat {
    match pc
    case TrySend => 6
    case Evict => 5
    case CountEvicted => 4
    case TryAgain => 3
    case CountRefused => 2
    case MarkDegraded => 1
  }

  /**
   An item can be handed in at any time, and a call never waits: each of its steps is possible and
   brings it nearer its end.
   */
  lemma EnqueueNeverBlocks(s: State, item: Item)
    ensures Enabled(s, Submit(item)) <==> item !in s.submitted
    ensures item in s.calls ==>
              && Enabled(s, Proceed(item))
              && var s1 := Apply(s, Proceed(item));
                 item in s1.calls ==> StepsLeft(s1.calls[item]) < StepsLeft(s.calls[item])
  {}

  /** Once the time for draining is over, the item that the worker holds is saved or abandoned, never discarded. */
  lemma ExpiredItemIsNotDiscarded(s: State, e: Event)
    requires Enabled(s, e) && !e.Proceed? && s.expired && s.worker.DrainWriting? && !Holding(Apply(s, e).worker)
    ensures Apply(s, e).discarded == s.discarded && Apply(s, e).dropped == s.dropped
    ensures Apply(s, e).saved == s.saved + [s.worker.item] || Apply(s, e).abandoned == s.abandoned + [s.worker.item]
  {}

  /** While the shutdown has not begun, the worker gives up no item: it saves it, rejects it or goes on trying. */
  lemma WorkerKeepsTrying(s: State, e: Event)
    requires Enabled(s, e) && !e.Proceed? && !s.cancelled && s.worker.Writing?
    ensures var s1 := Apply(s, e);
            || (s1.worker == s.worker && s1.saved == s.saved && s1.discarded == s.discarded)
            || (s1.worker.Waiting? && s1.saved == s.saved + [s.worker.item])
            || (s1.worker.Waiting? && s1.discarded == s.discarded + [s.worker.item] && s1.dropped == s.dropped + 1)
  {}

  // ----- the degraded flag

  /** The event tells of trouble, or of a write that went through; most say nothing of either. */
  function Verdict(s: State, e: Event): Option<bool>
    requires Enabled(s, e)
  {
    match e
    case Save => Some(false)
    case Reject => Some(false)
    case Retry => Some(true)
    case GiveUp => Some(true)
    case Proceed(item) => if s.calls[item].MarkDegraded? then Some(true) else None
    case _ => None
  }

  /** The flag says how the latest event that tells anything went. */
  ghost function LastVerdict(run: seq<State>, events: seq<Event>, i: nat): bool
    requires IsRun(run, events) && i <= |events|
  {
    if i == 0 then false
    else
      var verdict := Verdict(run[i - 1], events[i - 1]);
      if verdict.Some? then verdict.value else LastVerdict(run, events, i - 1)
  }

  lemma {:induction false} DegradedIsLastVerdict(run: seq<State>, events: seq<Event>, capacity: nat, i: nat)
    requires IsRun(run, events) && run[0] == Start(capacity) && i <= |events|
    ensures run[i].degraded == LastVerdict(run, events, i)
  {
    hide Apply, Enabled, Verdict;
    if i > 0 {
      DegradedIsLastVerdict(run, events, capacity, i - 1);
      StepOnFlag(run[i - 1], events[i - 1]);
    }
  }

  lemma StepOnFlag(s: State, e: Event)
    requires Enabled(s, e)
    ensures Apply(s, e).degraded == if Verdict(s, e).Some? then Verdict(s, e).value else s.degraded
  {}

  // ----- a single producer

  /** The producer submits items 0, 1, 2, ... and starts a call only after its previous one returned. */
  predicate FromOneProducer(s: State, e: Event) {
    e.Submit? ==> s.calls == map[] && e.item == |s.submitted|
  }

  /** The queue holds exactly the items `lo`, ..., `hi - 1` in that order. */
  predicate Contiguous(q: seq<Item>, lo: nat, hi: nat) {
    |q| == hi - lo && forall k :: 0 <= k < |q| ==> q[k] == lo + k
  }

  /** How many submissions have left the producer. */
  function Sent(s: State): int { |s.submitted| - |Pending(s.calls)| }

  /** The call has emptied a place in the queue or found it with one. */
  predicate MadeRoom(pc: Pc) { pc.CountEvicted? || pc.TryAgain? }

  ghost predicate InOrder(s: State) {
    && |s.queue| <= s.capacity && s.capacity > 0
    && (forall i :: i in s.submitted <==> 0 <= i < |s.submitted|)
    && (forall i :: i in s.calls ==> i == |s.submitted| - 1)
    && (forall i :: i in s.calls && MadeRoom(s.calls[i]) ==> |s.queue| < s.capacity)
    && (forall i, j :: 0 <= i < j < |s.saved| ==> s.saved[i] < s.saved[j])
    && (exists lo: nat :: QueueFrom(s, lo))
  }

  /** Everything from `lo` on that was sent is queued; what was taken or saved came before it. */
  ghost predicate QueueFrom(s: State, lo: nat) {
    && lo <= Sent(s) && Contiguous(s.queue, lo, Sent(s))
    && (Holding(s.worker) ==> s.worker.item < lo)
    && (forall k :: 0 <= k < |s.saved| ==> s.saved[k] < if Holding(s.worker) then s.worker.item else lo)
  }

  /** With one producer the pending calls are at most the latest one. */
  lemma PendingSize(s: State)
    requires InOrder(s)
    ensures |Pending(s.calls)| <= 1
    ensures forall i :: i in s.calls ==>
            s.calls == map[i := s.calls[i]] && Pending(s.calls) == if InHand(s.calls[i]) then {i} else {}
    ensures s.calls == map[] ==> Pending(s.calls) == {}
  {
    var n := |s.submitted| - 1;
    assert s.calls.Keys <= {n};
    assert Pending(s.calls) <= {n};
    if Pending(s.calls) != {} {
      assert Pending(s.calls) == {n};
    }
  }

  /** The parts of the order that a step keeps which moves only queue and calls. */
  lemma OrderFrom(s: State, s1: State, lo: nat)
    requires InOrder(s)
    requires s1 == s.(queue := s1.queue, calls := s1.calls, dropped := s1.dropped, discarded := s1.discarded,
             degraded := s1.degraded)
    requires s1.calls.Keys <= s.calls.Keys
    requires forall i :: i in s1.calls && MadeRoom(s1.calls[i]) ==> |s1.queue| < s1.capacity
    requires |s1.queue| <= s1.capacity && QueueFrom(s1, lo)
    ensures InOrder(s1)
  {}

  lemma ContiguousMoves(q: seq<Item>, lo: nat, hi: nat)
    requires Contiguous(q, lo, hi)
    ensures Contiguous(q + [hi], lo, hi + 1)
    ensures q != [] ==> q[0] == lo < hi && Contiguous(q[1..], lo + 1, hi)
  {}

  lemma SinglePending(pc: Pc, item: Item)
    ensures Pending(map[item := pc]) == if InHand(pc) then {item} else {}
    ensures Pending(map[]) == {}
  {}

  /** The only call under way sends, evicts or ends without breaking the queue's order. */
  lemma ProceedMovesQueue(s: State, item: Item, pc: Pc, lo: nat)
    requires QueueFrom(s, lo) && s.calls == map[item := pc] && item == |s.submitted| - 1
    requires |s.queue| <= s.capacity && (MadeRoom(pc) ==> |s.queue| < s.capacity)
    ensures QueueFrom(ProceedCall(s, item), if pc.Evict? && s.queue != [] then lo + 1 else lo)
  {
    hide Contiguous, Pending;
    var s1 := ProceedCall(s, item);
    SinglePending(pc, item);
    ContiguousMoves(s.queue, lo, Sent(s));
    assert s.calls - {item} == map[];
    assert forall p :: s.calls[item := p] == map[item := p];
    SinglePending(TryAgain, item);
    SinglePending(CountEvicted, item);
    SinglePending(CountRefused, item);
    SinglePending(Evict, item);
    SinglePending(MarkDegraded, item);
  }

  lemma ProceedKeepsOrder(s: State, item: Item)
    requires InOrder(s) && item in s.calls
    ensures InOrder(ProceedCall(s, item))
  {
    hide InOrder, Contiguous, QueueFrom;
    var lo := QueueStart(s);
    PendingSize(s);
    ProceedMovesQueue(s, item, s.calls[item], lo);
    OrderFrom(s, ProceedCall(s, item), if s.calls[item].Evict? && s.queue != [] then lo + 1 else lo);
  }

  lemma QueueStart(s: State) returns (lo: nat)
    requires InOrder(s)
    ensures QueueFrom(s, lo) && |s.queue| <= s.capacity && s.capacity > 0
    ensures forall i :: i in s.calls ==> i == |s.submitted| - 1
    ensures forall i :: i in s.calls && MadeRoom(s.calls[i]) ==> |s.queue| < s.capacity
  {
    lo :| QueueFrom(s, lo);
  }

  /** Steps of the worker and of the shutdown keep the order. */
  lemma WorkerKeepsOrder(s: State, e: Event)
    requires InOrder(s) && Enabled(s, e) && !e.Submit? && !e.Proceed?
    ensures InOrder(Apply(s, e))
  {
    hide Contiguous, ProceedCall;
    var lo: nat :| QueueFrom(s, lo);
    ContiguousMoves(s.queue, lo, Sent(s));
    assert QueueFrom(Apply(s, e), if e.Take? then lo + 1 else lo);
  }

  lemma SubmitKeepsOrder(s: State, item: Item)
    requires InOrder(s) && Enabled(s, Submit(item)) && FromOneProducer(s, Submit(item))
    ensures InOrder(Apply(s, Submit(item)))
  {
    hide Contiguous, ProceedCall;
    var lo: nat :| QueueFrom(s, lo);
    var s1 := Apply(s, Submit(item));
    PendingSize(s);
    assert Pending(s1.calls) == {item};
    assert |s1.submitted| == |s.submitted| + 1;
    assert QueueFrom(s1, lo);
  }

  lemma StepKeepsOrder(s: State, e: Event)
    requires InOrder(s) && Enabled(s, e) && FromOneProducer(s, e)
    ensures InOrder(Apply(s, e))
  {
    hide InOrder, ProceedCall;
    match e
    case Submit(item) => SubmitKeepsOrder(s, item);
    case Proceed(item) => ProceedKeepsOrder(s, item);
    case _ => WorkerKeepsOrder(s, e);
  }

  /**
   With one producer the queue is always a contiguous run of submissions that ends with the latest
   one sent, and items are saved in the order of their submission.
   */
  lemma {:induction false} OneProducerKeepsOrder(run: seq<State>, events: seq<Event>, capacity: nat, i: nat)
    requires IsRun(run, events) && run[0] == Start(capacity) && capacity > 0 && i < |run|
    requires forall k :: 0 <= k < |events| ==> FromOneProducer(run[k], events[k])
    ensures InOrder(run[i])
  {
    hide InOrder;
    if i == 0 {
      StartInOrder(capacity);
    } else {
      OneProducerKeepsOrder(run, events, capacity, i - 1);
      StepKeepsOrder(run[i - 1], events[i - 1]);
    }
  }

  lemma StartInOrder(capacity: nat)
    requires capacity > 0
    ensures InOrder(Start(capacity))
  {
    assert Pending(map[]) == {};
    assert QueueFrom(Start(capacity), 0);
  }

  // ----- one call on its own

  /** The last `n` items of a queue. */
  function Newest(q: seq<Item>, n: nat): seq<Item> { if |q| <= n then q else q[|q| - n..] }

  /** The channel and its counters, as the object that producers call. */
  class Channel {
    const capacity: nat
    var queue: seq<Item>
    var degraded: bool
    var dropped: nat

    constructor (capacity: nat)
      ensures this.capacity == capacity && queue == [] && !degraded && dropped == 0
    {
      this.capacity, queue, degraded, dropped := capacity, [], false, 0;
    }

    method TrySend(item: Item) returns (ok: bool)
      modifies this`queue
      ensures ok <==> |old(queue)| < capacity
      ensures queue == if ok then old(queue) + [item] else old(queue)
    {
      ok := |queue| < capacity;
      if ok {
        queue := queue + [item];
      }
    }

    /** Undisturbed, a call keeps the newest items that fit and counts the one it pushed out. */
    method Enqueue(item: Item)
      requires |queue| <= capacity
      modifies this
      ensures queue == Newest(old(queue) + [item], capacity)
      ensures |queue| + dropped == |old(queue)| + old(dropped) + 1
      ensures degraded <==> old(degraded) || |old(queue)| == capacity
    {
      var sent := TrySend(item);
      if !sent {
        if queue != [] {
          queue := queue[1..];
          dropped := dropped + 1;
        }
        sent := TrySend(item);
        if !sent {
          dropped := dropped + 1;
        }
        degraded := true;
      }
    }
  }

  function Proceeded(s: State, item: Item, steps: nat): State
    decreases steps
  {
    if steps == 0 || item !in s.calls then s else Proceeded(ProceedCall(s, item), item, steps - 1)
  }

  /** A call whose steps nobody interrupts does the same in the interleaved model. */
  lemma {:induction false} LoneCallKeepsNewest(s: State, item: Item)
    requires item in s.calls && s.calls[item].TrySend? && |s.queue| <= s.capacity
    ensures var s1 := Proceeded(s, item, 5);
            && item !in s1.calls
            && s1.queue == Newest(s.queue + [item], s.capacity)
            && |s1.queue| + s1.dropped == |s.queue| + s.dropped + 1
  {
    var s1 := ProceedCall(s, item);
    if |s.queue| < s.capacity {
      assert Proceeded(s, item, 5) == Proceeded(s1, item, 4) == s1;
    } else {
      assert Proceeded(s, item, 5) == Proceeded(s1, item, 4);
      LoneEviction(s1, item);
    }
  }

  /** What is left of such a call once it found the queue full. */
  lemma {:induction false} LoneEviction(s: State, item: Item)
    requires item in s.calls && s.calls[item].Evict? && |s.queue| == s.capacity
    ensures var s1 := Proceeded(s, item, 4);
            && item !in s1.calls
            && s1.queue == Newest(s.queue + [item], s.capacity)
            && |s1.queue| + s1.dropped == |s.queue| + s.dropped + 1
  {
    var s1 := ProceedCall(s, item);
    var s2 := ProceedCall(s1, item);
    var s3 := ProceedCall(s2, item);
    assert Proceeded(s, item, 4) == Proceeded(s1, item, 3) == Proceeded(s2, item, 2) == Proceeded(s3, item, 1);
    assert Proceeded(s3, item, 1) == ProceedCall(s3, item);
    assert s.queue != [] ==> s.queue[1..] + [item] == Newest(s.queue + [item], s.capacity);
    assert s.queue == [] ==> Newest([item], 0) == [];
  }
}
