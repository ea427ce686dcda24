/**
 The probe scheduler: tasks come and go with each synchronization, a tick launches the ones that are
 due as far as the concurrency limit allows, and runs complete on their own.
 */
module Scheduler {
  import opened Basics

  /** Nanoseconds. */
  type Time = int

  const MOST: int := 32

  datatype Task = Task(id: int, enabled: bool, intervalSeconds: int)

  /** The scheduler's fields and, beside them, the runs that are under way. */
  datatype State = State(
    tasks: map<int, Task>, next: map<int, Time>, running: set<int>, limit: int, inflight: multiset<int>)

  const FRESH := State(map[], map[], {}, 4, multiset{})

  function Interval(task: Task): Time { Max(task.intervalSeconds, 5) * SECOND }

  predicate Accepted(task: Task) { task.enabled && task.id > 0 }

  function ActiveIDs(tasks: seq<Task>): set<int> {
    set i | 0 <= i < |tasks| && Accepted(tasks[i]) :: tasks[i].id
  }

  /** The last accepted task with an id, which is the one that counts. */
  function Latest(tasks: seq<Task>, id: int): Task
    requires id in ActiveIDs(tasks)
  {
    var last := tasks[|tasks| - 1];
    if Accepted(last) && last.id == id then last else Latest(tasks[..|tasks| - 1], id)
  }

  function Synced(s: State, tasks: seq<Task>, now: Time): State {
    s.(tasks := map id | id in ActiveIDs(tasks) :: Latest(tasks, id),
       next := map id | id in ActiveIDs(tasks) :: if id in s.next then s.next[id] else now)
  }

  /** Tasks that are due and not running. */
  function Eligible(s: State, now: Time): set<int> {
    set id | id in s.tasks && id !in s.running && id in s.next && now >= s.next[id]
  }

  /** What a tick may launch, whatever order it visits the tasks in: all that is due, or up to the limit. */
  predicate Launchable(s: State, now: Time, launched: set<int>) {
    && launched <= Eligible(s, now)
    && |s.running| + |launched| <= Max(s.limit, |s.running|)
    && (launched == Eligible(s, now) || |s.running| + |launched| >= s.limit)
  }

  function Rescheduled(next: map<int, Time>, tasks: map<int, Task>, now: Time, launched: set<int>): map<int, Time>
    requires launched <= tasks.Keys
  {
    next + (map id | id in launched :: now + Interval(tasks[id]))
  }

  lemma RescheduleOne(next: map<int, Time>, tasks: map<int, Task>, now: Time, launched: set<int>, id: int)
    requires launched <= tasks.Keys && id in tasks && id !in launched
    ensures Rescheduled(next, tasks, now, launched + {id})
            == Rescheduled(next, tasks, now, launched)[id := now + Interval(tasks[id])]
    ensures id in next ==>
              id in Rescheduled(next, tasks, now, launched) && Rescheduled(next, tasks, now, launched)[id] == next[id]
    ensures next.Keys == tasks.Keys ==> Rescheduled(next, tasks, now, launched).Keys == tasks.Keys
  {
    hide Interval;
  }

  lemma RescheduleNone(next: map<int, Time>, tasks: map<int, Task>, now: Time)
    ensures Rescheduled(next, tasks, now, {}) == next
  {}

  function Ticked(s: State, now: Time, launched: set<int>): State
    requires launched <= s.tasks.Keys
  {
    s.(next := Rescheduled(s.next, s.tasks, now, launched),
       running := s.running + launched,
       inflight := s.inflight + multiset(launched))
  }

  function Completed(s: State, id: int): State {
    s.(running := s.running - {id}, inflight := s.inflight - multiset{id})
  }

  function Limited(s: State, limit: int): State { s.(limit := Min(Max(limit, 1), MOST)) }

  lemma {:induction false} ActiveAppend(tasks: seq<Task>, task: Task)
    ensures ActiveIDs(tasks + [task]) == ActiveIDs(tasks) + if Accepted(task) then {task.id} else {}
    ensures forall id :: id in ActiveIDs(tasks + [task]) ==>
              Latest(tasks + [task], id) == if Accepted(task) && task.id == id then task else Latest(tasks, id)
  {
    var all := tasks + [task];
    assert all[..|tasks|] == tasks;
    forall id | id in ActiveIDs(tasks) + if Accepted(task) then {task.id} else {}
      ensures id in ActiveIDs(all)
    {
      if Accepted(task) && id == task.id {
        assert all[|tasks|] == task;
      } else {
        var i :| 0 <= i < |tasks| && Accepted(tasks[i]) && tasks[i].id == id;
        assert all[i] == tasks[i];
      }
    }
  }

  lemma NonEmpty(ids: set<int>)
    requires ids != {}
    ensures exists id :: id in ids
  {
    assert (forall id :: id !in ids) ==> ids == {};
  }

  lemma NothingActive()
    ensures ActiveIDs([]) == {}
  {}

  lemma EligibleMembers(s: State, now: Time)
    requires s.next.Keys == s.tasks.Keys
    ensures Eligible(s, now) <= s.tasks.Keys && Eligible(s, now) !! s.running
    ensures forall id :: id in s.tasks ==> (id in Eligible(s, now) <==> id !in s.running && now >= s.next[id])
  {}

  /** A tick part-way: what it has launched is due, fits the limit, and nothing due was passed over below it. */
  ghost predicate Visiting(s: State, now: Time, todo: set<int>, launched: set<int>, active: int) {
    && launched <= Eligible(s, now)
    && active == |s.running| + |launched| <= Max(s.limit, |s.running|)
    && (active >= s.limit || Eligible(s, now) <= launched + todo)
  }

  /** The fields part-way through a tick that has launched some tasks and has others left to visit. */
  ghost predicate Halfway(
    s: State, now: Time, todo: set<int>, launched: set<int>, next: map<int, Time>, running: set<int>, active: int) {
    && todo <= s.tasks.Keys && launched <= s.tasks.Keys && launched !! todo
    && next == Rescheduled(s.next, s.tasks, now, launched) && running == s.running + launched
    && Visiting(s, now, todo, launched, active)
  }

  lemma VisitStart(s: State, now: Time)
    requires s.next.Keys == s.tasks.Keys
    ensures Halfway(s, now, s.tasks.Keys, {}, s.next, s.running, |s.running|)
  {
    hide Interval;
    RescheduleNone(s.next, s.tasks, now);
    assert s.running + {} == s.running;
  }

  lemma VisitOne(s: State, now: Time, todo: set<int>, launched: set<int>, active: int, id: int)
    requires s.next.Keys == s.tasks.Keys && id in s.tasks && id in todo && launched !! todo
    requires Visiting(s, now, todo, launched, active)
    ensures if active >= s.limit || id in s.running || now < s.next[id]
            then Visiting(s, now, todo - {id}, launched, active)
            else Visiting(s, now, todo - {id}, launched + {id}, active + 1)
  {
    hide Eligible;
    EligibleMembers(s, now);
    assert |launched + {id}| == |launched| + 1;
  }

  /** Visiting one more task: passed over, or launched and rescheduled. */
  lemma VisitNext(
    s: State, now: Time, todo: set<int>, launched: set<int>, next: map<int, Time>, running: set<int>, active: int,
    id: int)
    requires s.next.Keys == s.tasks.Keys && id in todo
    requires Halfway(s, now, todo, launched, next, running, active)
    ensures id in s.tasks && id in next
    ensures if active >= s.limit || id in running || now < next[id]
            then Halfway(s, now, todo - {id}, launched, next, running, active)
            else Halfway(s, now, todo - {id}, launched + {id},
                         next[id := now + Interval(s.tasks[id])], running + {id}, active + 1)
  {
    hide Visiting, Rescheduled, Interval;
    RescheduleOne(s.next, s.tasks, now, launched, id);
    VisitOne(s, now, todo, launched, active, id);
    assert running + {id} == s.running + (launched + {id});
  }

  /** A tick that has visited everything launched what it may. */
  lemma VisitEnd(s: State, now: Time, launched: set<int>, next: map<int, Time>, running: set<int>, active: int)
    requires Halfway(s, now, {}, launched, next, running, active)
    ensures launched <= s.tasks.Keys && Launchable(s, now, launched)
    ensures next == Ticked(s, now, launched).next && running == Ticked(s, now, launched).running
  {
    hide Eligible, Rescheduled;
    assert launched + {} == launched;
  }

  class ProbeScheduler {
    var tasks: map<int, Task>
    var next: map<int, Time>
    var running: set<int>
    var limit: int
    ghost var inflight: multiset<int>

    ghost function Model(): State
      reads this
    {
      State(tasks, next, running, limit, inflight)
    }

    constructor ()
      ensures Model() == FRESH
    {
      tasks, next, running, limit, inflight := map[], map[], {}, 4, multiset{};
    }

    method SetConcurrency(limit: int)
      modifies this`limit
      ensures Model() == Limited(old(Model()), limit)
    {
      this.limit := Min(Max(limit, 1), 32);
    }

    method Sync(list: seq<Task>, now: Time)
      requires next.Keys == tasks.Keys
      modifies this`tasks, this`next
      ensures Model() == Synced(old(Model()), list, now)
    {
      hide Latest, ActiveIDs;
      var active := AddListed(list, now);
      DropUnlisted(active);
      assert tasks == Synced(old(Model()), list, now).tasks;
      assert next == Synced(old(Model()), list, now).next;
    }

    /** Enters the listed tasks; new ones are due at once. */
    method AddListed(list: seq<Task>, now: Time) returns (active: set<int>)
      requires next.Keys == tasks.Keys
      modifies this`tasks, this`next
      ensures active == ActiveIDs(list)
      ensures tasks.Keys == next.Keys == old(tasks).Keys + active
      ensures forall id :: id in active ==> tasks[id] == Latest(list, id)
      ensures forall id :: id in next ==> next[id] == if id in old(next) then old(next)[id] else now
    {
      hide Latest, ActiveIDs;
      active := {};
      NothingActive();
      assert list[..0] == [];
      for i := 0 to |list|
        invariant active == ActiveIDs(list[..i])
        invariant tasks.Keys == next.Keys == old(tasks).Keys + active
        invariant forall id :: id in active ==> tasks[id] == Latest(list[..i], id)
        invariant forall id :: id in next ==> next[id] == if id in old(next) then old(next)[id] else now
      {
        var task := list[i];
        ActiveAppend(list[..i], task);
        assert list[..i + 1] == list[..i] + [task];
        if task.enabled && task.id > 0 {
          active := active + {task.id};
          tasks := tasks[task.id := task];
          if task.id !in next {
            next := next[task.id := now];
          }
        }
      }
      assert list[..|list|] == list;
    }

    /** Removes the tasks that are no longer listed. */
    method DropUnlisted(active: set<int>)
      requires next.Keys == tasks.Keys && active <= tasks.Keys
      modifies this`tasks, this`next
      ensures tasks.Keys == next.Keys == active
      ensures forall id :: id in active ==> tasks[id] == old(tasks)[id] && next[id] == old(next)[id]
    {
      var todo := tasks.Keys;
      while todo != {}
        invariant todo <= old(tasks).Keys
        invariant tasks.Keys == next.Keys == active + todo
        invariant forall id :: id in tasks ==> tasks[id] == old(tasks)[id] && next[id] == old(next)[id]
      {
        NonEmpty(todo);
        var id :| id in todo;
        if id !in active {
          tasks := tasks - {id};
          next := next - {id};
        }
        todo := todo - {id};
      }
    }

    method Tick(now: Time) returns (ghost launched: set<int>)
      requires next.Keys == tasks.Keys
      modifies this`next, this`running, this`inflight
      ensures launched <= old(tasks).Keys && Launchable(old(Model()), now, launched)
      ensures Model() == Ticked(old(Model()), now, launched)
    {
      hide Halfway, Launchable, Rescheduled, Interval;
      ghost var s := Model();
      VisitStart(s, now);
      var active := |running|;
      launched := {};
      var todo := tasks.Keys;
      while todo != {}
        invariant Halfway(s, now, todo, launched, next, running, active)
        modifies this`next, this`running
      {
        NonEmpty(todo);
        var id :| id in todo;
        VisitNext(s, now, todo, launched, next, running, active, id);
        if !(active >= limit || id in running || now < next[id]) {
          next := next[id := now + Interval(tasks[id])];
          running := running + {id};
          active := active + 1;
          launched := launched + {id};
        }
        todo := todo - {id};
      }
      VisitEnd(s, now, launched, next, running, active);
      inflight := inflight + multiset(launched);
    }

    /** The end of a run's goroutine. */
    method Finish(id: int)
      modifies this`running, this`inflight
      ensures Model() == Completed(old(Model()), id)
    {
      running := running - {id};
      inflight := inflight - multiset{id};
    }
  }

  // ----- runs of the scheduler

  datatype Event =
    | Sync(list: seq<Task>, now: Time)
    | SetLimit(limit: int)
    | Tick(at: Time, launched: set<int>)
    | Finish(id: int)

  predicate Enabled(s: State, e: Event) {
    match e
    case Tick(at, launched) => Launchable(s, at, launched)
    case Finish(id) => id in s.inflight
    case _ => true
  }

  function Apply(s: State, e: Event): State
    requires Enabled(s, e)
  {
    match e
    case Sync(list, now) => Synced(s, list, now)
    case SetLimit(limit) => Limited(s, limit)
    case Tick(at, launched) => Ticked(s, at, launched)
    case Finish(id) => Completed(s, id)
  }

  ghost predicate IsRun(run: seq<State>, events: seq<Event>) {
    && |run| == |events| + 1 && run[0] == FRESH
    && forall i :: 0 <= i < |events| ==> Enabled(run[i], events[i]) && run[i + 1] == Apply(run[i], events[i])
  }

  ghost predicate Sound(s: State) {
    && s.next.Keys == s.tasks.Keys
    && s.inflight == multiset(s.running)
    && 1 <= s.limit <= MOST && |s.running| <= MOST
  }

  lemma TickKeepsSound(s: State, at: Time, launched: set<int>)
    requires Sound(s) && Launchable(s, at, launched)
    ensures Sound(Ticked(s, at, launched))
  {
    hide Eligible, Interval;
    EligibleMembers(s, at);
    assert s.running !! launched;
    assert |s.running + launched| == |s.running| + |launched|;
    assert multiset(s.running + launched) == multiset(s.running) + multiset(launched);
  }

  lemma FinishKeepsSound(s: State, id: int)
    requires Sound(s) && id in s.inflight
    ensures Sound(Completed(s, id))
  {
    assert id in s.running;
    assert multiset(s.running - {id}) == multiset(s.running) - multiset{id};
  }

  lemma StepKeepsSound(s: State, e: Event)
    requires Sound(s) && Enabled(s, e)
    ensures Sound(Apply(s, e))
  {
    hide Latest, Interval, ActiveIDs, Eligible, Ticked, Completed;
    match e
    case Tick(at, launched) => TickKeepsSound(s, at, launched);
    case Finish(id) => FinishKeepsSound(s, id);
    case _ =>
  }

  /**
   In every reachable state no task has two runs under way, at most 32 runs are under way, and every
   task is scheduled.
   */
  lemma {:induction false} RunStaysSound(run: seq<State>, events: seq<Event>, i: nat)
    requires IsRun(run, events) && i < |run|
    ensures Sound(run[i])
    ensures (forall id :: run[i].inflight[id] <= 1) && |run[i].inflight| <= MOST
            && run[i].next.Keys == run[i].tasks.Keys
  {
    hide Apply;
    if i > 0 {
      RunStaysSound(run, events, i - 1);
      StepKeepsSound(run[i - 1], events[i - 1]);
    }
  }

  /** A tick never pushes the number of runs beyond the limit in force, and fills it if enough tasks are due. */
  lemma TickRespectsLimit(run: seq<State>, events: seq<Event>, i: nat)
    requires IsRun(run, events) && i < |events| && events[i].Tick? && events[i].launched != {}
    ensures |run[i + 1].inflight| <= run[i].limit
    ensures |run[i + 1].inflight| < run[i].limit ==> Eligible(run[i], events[i].at) <= run[i + 1].running
  {
    RunStaysSound(run, events, i);
    var launched := events[i].launched;
    NonEmpty(launched);
    assert |launched| > 0;
    assert |run[i + 1].inflight| == |run[i].inflight| + |launched|;
  }

  /** The task is listed by every synchronization between two points of a run. */
  ghost predicate StaysSynced(events: seq<Event>, from: nat, to: nat, id: int) {
    forall k :: from < k < to && k < |events| && events[k].Sync? ==> id in ActiveIDs(events[k].list)
  }

  /** No event but a removal brings a task's next start forward: a launch comes when it is due and puts it off. */
  lemma NextStaysLateOneStep(s: State, e: Event, id: int, earliest: Time)
    requires Sound(s) && Enabled(s, e)
    requires id in s.next && s.next[id] >= earliest
    requires e.Sync? ==> id in ActiveIDs(e.list)
    ensures id in Apply(s, e).next && Apply(s, e).next[id] >= earliest
  {
    hide Latest, ActiveIDs;
    match e
    case Tick(at, launched) =>
      if id in launched {
        assert id in Eligible(s, at);
        IntervalIsPositive(s.tasks[id]);
      }
    case _ =>
  }

  lemma IntervalIsPositive(task: Task)
    ensures Interval(task) > 0
  {}

  lemma {:induction false} NextStaysLate(run: seq<State>, events: seq<Event>, i: nat, j: nat, id: int, earliest: Time)
    requires IsRun(run, events) && i < j < |run|
    requires id in run[i + 1].next && run[i + 1].next[id] >= earliest
    requires StaysSynced(events, i, j, id)
    ensures id in run[j].next && run[j].next[id] >= earliest
    decreases j
  {
    hide Apply, Enabled, ActiveIDs;
    if i + 1 < j {
      NextStaysLate(run, events, i, j - 1, id, earliest);
      RunStaysSound(run, events, j - 1);
      NextStaysLateOneStep(run[j - 1], events[j - 1], id, earliest);
    }
  }

  /** Successive starts of a task that stays listed are at least its interval, and at least 5 seconds, apart. */
  lemma StartsAreSpaced(run: seq<State>, events: seq<Event>, i: nat, j: nat, id: int)
    requires IsRun(run, events) && i < j < |events|
    requires events[i].Tick? && id in events[i].launched && events[j].Tick? && id in events[j].launched
    requires StaysSynced(events, i, j, id)
    ensures id in run[i].tasks
    ensures events[j].at - events[i].at >= Max(run[i].tasks[id].intervalSeconds, 5) * SECOND
  {
    hide Latest;
    var earliest := events[i].at + Interval(run[i].tasks[id]);
    assert run[i + 1].next[id] == earliest;
    NextStaysLate(run, events, i, j, id, earliest);
    assert id in Eligible(run[j], events[j].at);
  }

  // ----- when a task runs

  /** Exactly the enabled tasks with a positive id are taken over. */
  lemma ActiveExactly(tasks: seq<Task>, id: int)
    ensures id in ActiveIDs(tasks) <==> exists i :: 0 <= i < |tasks| && tasks[i].id == id && tasks[i].enabled && id > 0
  {}

  /** If a list names a task several times, its last accepted entry counts. */
  lemma {:induction false} LastEntryCounts(tasks: seq<Task>, id: int, i: nat)
    requires i < |tasks| && Accepted(tasks[i]) && tasks[i].id == id
    requires forall j :: i < j < |tasks| ==> !(Accepted(tasks[j]) && tasks[j].id == id)
    ensures id in ActiveIDs(tasks) && Latest(tasks, id) == tasks[i]
    decreases |tasks|
  {
    if i < |tasks| - 1 {
      assert tasks[..|tasks| - 1][i] == tasks[i];
      LastEntryCounts(tasks[..|tasks| - 1], id, i);
    }
  }

  /**
   After a synchronization a new task is due at once, a known one when it was due before, and one that
   is gone never.
   */
  lemma SyncSchedules(s: State, tasks: seq<Task>, now: Time, id: int)
    requires Sound(s)
    ensures var s1 := Synced(s, tasks, now);
            && (id in s1.tasks <==> id in ActiveIDs(tasks)) && s1.running == s.running && s1.limit == s.limit
            && (id in s1.tasks && id !in s.tasks ==> s1.next[id] == now)
            && (id in s1.tasks && id in s.tasks ==> s1.next[id] == s.next[id])
  {
    hide Latest;
  }

  /** A limit within 1 to 32 is taken as it is, any other brought to the nearer end. */
  lemma LimitExactly(s: State, limit: int)
    ensures 1 <= limit <= 32 ==> Limited(s, limit).limit == limit
    ensures limit < 1 ==> Limited(s, limit).limit == 1
    ensures limit > 32 ==> Limited(s, limit).limit == 32
  {}

  /**
   In every reachable state a tick with room under the limit launches every task that is listed, not
   running and due, and puts its next start off by exactly its interval, or 5 seconds if that is more.
   */
  lemma DueTaskStarts(run: seq<State>, events: seq<Event>, i: nat, id: int)
    requires IsRun(run, events) && i < |events| && events[i].Tick?
    requires id in run[i].tasks && id !in run[i].running
    requires id in run[i].next && run[i].next[id] <= events[i].at
    requires |run[i + 1].running| < run[i].limit
    ensures id in events[i].launched && id in run[i + 1].running && run[i + 1].inflight[id] == 1
    ensures var seconds := run[i].tasks[id].intervalSeconds;
            run[i + 1].next[id] == events[i].at + (if seconds > 5 then seconds else 5) * 1_000_000_000
  {
    RunStaysSound(run, events, i);
    var s, at, launched := run[i], events[i].at, events[i].launched;
    EligibleMembers(s, at);
    assert s.running !! launched;
    assert |s.running + launched| == |s.running| + |launched|;
    assert id in Eligible(s, at);
  }

  /** A task that is not due, is running or is no longer listed is not launched, and its schedule stays. */
  lemma NotDueNotStarted(run: seq<State>, events: seq<Event>, i: nat, id: int)
    requires IsRun(run, events) && i < |events| && events[i].Tick?
    requires id !in run[i].tasks || id in run[i].running || (id in run[i].next && events[i].at < run[i].next[id])
    ensures id !in events[i].launched
    ensures id in run[i].next ==> id in run[i + 1].next && run[i + 1].next[id] == run[i].next[id]
  {
    RunStaysSound(run, events, i);
  }

  /** A new scheduler runs nothing, knows no task and allows four runs at a time. */
  lemma NewScheduler()
    ensures FRESH.limit == 4 && FRESH.running == {} && FRESH.tasks == map[] && FRESH.next == map[] && Sound(FRESH)
  {}

}
