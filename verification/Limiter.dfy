/**
 The enrollment limiter: too many failures of one address lock it, too many failures overall pause
 enrollment. The limiter forgets failures that left its window; the specification never forgets.
 */
module Limiter {

  /** Nanoseconds since 1 January of year 1; 0 is also the unset lock and pause. */
  type Time = int

  const MINUTE: int := 60_000_000_000
  const WINDOW: int := 10 * MINUTE
  const LOCK: int := 30 * MINUTE
  const PAUSE: int := 15 * MINUTE

  datatype Attempt = Attempt(failures: seq<Time>, lockedUntil: Time)

  datatype State = State(byIP: map<string, Attempt>, global: seq<Time>, pausedUntil: Time)

  const FRESH := State(map[], [], 0)

  // ----- the limiter with pruning

  function RetainedAfter(input: seq<Time>, cutoff: Time): seq<Time> {
    if input != [] && input[0] < cutoff then RetainedAfter(input[1..], cutoff) else input
  }

  predicate Forgettable(a: Attempt, now: Time) {
    RetainedAfter(a.failures, now - WINDOW) == [] && now > a.lockedUntil
  }

  function Pruned(a: Attempt, now: Time): Attempt { a.(failures := RetainedAfter(a.failures, now - WINDOW)) }

  function Cleaned(l: State, now: Time): State {
    State(map ip | ip in l.byIP && !Forgettable(l.byIP[ip], now) :: Pruned(l.byIP[ip], now),
          RetainedAfter(l.global, now - WINDOW), l.pausedUntil)
  }

  /** The answer of Allow: whether to go on, and otherwise how long to wait. */
  datatype Answer = Answer(allowed: bool, retryAfter: int)

  function Allow(l: State, ip: string, now: Time): Answer {
    if now < l.pausedUntil then Answer(false, l.pausedUntil - now)
    else if ip in l.byIP && now < l.byIP[ip].lockedUntil then Answer(false, l.byIP[ip].lockedUntil - now)
    else Answer(true, 0)
  }

  /** Recording a failure in a cleaned limiter; the flag says whether the circuit breaker opened. */
  function Failed(l: State, ip: string, now: Time): (State, bool) {
    var a := if ip in l.byIP then l.byIP[ip] else Attempt([], 0);
    var failures, global := a.failures + [now], l.global + [now];
    var attempt := Attempt(failures, if |failures| >= 5 then now + LOCK else a.lockedUntil);
    var opens := |global| >= 100 && now >= l.pausedUntil;
    (State(l.byIP[ip := attempt], global, if opens then now + PAUSE else l.pausedUntil), opens)
  }

  class EnrollmentLimiter {
    var byIP: map<string, Attempt>
    var global: seq<Time>
    var pausedUntil: Time

    ghost function Model(): State
      reads this
    {
      State(byIP, global, pausedUntil)
    }

    constructor ()
      ensures Model() == FRESH
    {
      byIP, global, pausedUntil := map[], [], 0;
    }

    method RetainAfter(input: seq<Time>, cutoff: Time) returns (r: seq<Time>)
      ensures r == RetainedAfter(input, cutoff)
    {
      var index := 0;
      while index < |input| && input[index] < cutoff
        invariant 0 <= index <= |input|
        invariant RetainedAfter(input, cutoff) == RetainedAfter(input[index..], cutoff)
      {
        assert input[index..][1..] == input[index + 1..];
        index := index + 1;
      }
      r := input[index..];
    }

    method Cleanup(now: Time)
      modifies this
      ensures Model() == Cleaned(old(Model()), now)
    {
      hide RetainedAfter;
      global := RetainAfter(global, now - WINDOW);
      var todo := byIP.Keys;
      while todo != {}
        invariant todo <= old(byIP).Keys
        invariant global == RetainedAfter(old(global), now - WINDOW) && pausedUntil == old(pausedUntil)
        invariant forall ip :: ip in todo ==> ip in byIP && byIP[ip] == old(byIP)[ip]
        invariant forall ip :: ip in byIP ==> ip in old(byIP)
        invariant forall ip :: ip in old(byIP) && ip !in todo ==>
                    if Forgettable(old(byIP)[ip], now) then ip !in byIP
                    else ip in byIP && byIP[ip] == Pruned(old(byIP)[ip], now)
      {
        var ip :| ip in todo;
        var attempt := byIP[ip];
        var kept := RetainAfter(attempt.failures, now - WINDOW);
        if |kept| == 0 && now > attempt.lockedUntil {
          byIP := byIP - {ip};
        } else {
          byIP := byIP[ip := attempt.(failures := kept)];
        }
        todo := todo - {ip};
      }
      assert byIP == Cleaned(old(Model()), now).byIP;
    }

    method AllowAttempt(ip: string, now: Time) returns (answer: Answer)
      modifies this
      ensures Model() == Cleaned(old(Model()), now)
      ensures answer == Allow(Model(), ip, now)
    {
      Cleanup(now);
      if now < pausedUntil {
        return Answer(false, pausedUntil - now);
      }
      if ip in byIP && now < byIP[ip].lockedUntil {
        return Answer(false, byIP[ip].lockedUntil - now);
      }
      answer := Answer(true, 0);
    }

    method Failure(ip: string, now: Time) returns (paused: bool)
      modifies this
      ensures (Model(), paused) == Failed(Cleaned(old(Model()), now), ip, now)
    {
      Cleanup(now);
      var attempt := if ip in byIP then byIP[ip] else Attempt([], 0);
      attempt := attempt.(failures := attempt.failures + [now]);
      global := global + [now];
      if |attempt.failures| >= 5 {
        attempt := attempt.(lockedUntil := now + LOCK);
      }
      byIP := byIP[ip := attempt];
      if |global| >= 100 {
        if now < pausedUntil {
          return false;
        }
        pausedUntil := now + PAUSE;
        return true;
      }
      paused := false;
    }

    method Success(ip: string)
      modifies this`byIP
      ensures byIP == old(byIP) - {ip}
    {
      byIP := byIP - {ip};
    }
  }

  // ----- the specification over the full history

  datatype Op = Fail(ip: string, at: Time) | Succeed(ip: string) | Ask(ip: string, at: Time)

  function Timed(op: Op): bool { !op.Succeed? }

  function LastTime(h: seq<Op>): Time {
    if h == [] then 0
    else if Timed(h[|h| - 1]) then h[|h| - 1].at
    else LastTime(h[..|h| - 1])
  }

  /** Clock readings are non-negative and never go back. */
  predicate Timely(h: seq<Op>) {
    h == [] || (Timely(h[..|h| - 1]) && (Timed(h[|h| - 1]) ==> LastTime(h[..|h| - 1]) <= h[|h| - 1].at))
  }

  function One(b: bool): nat { if b then 1 else 0 }

  /** Failures of an address since its last success that are not older than `cutoff`. */
  function FailuresSince(h: seq<Op>, ip: string, cutoff: Time): nat {
    if h == [] then 0
    else
      var op, before := h[|h| - 1], h[..|h| - 1];
      if op == Succeed(ip) then 0
      else FailuresSince(before, ip, cutoff) + One(op.Fail? && op.ip == ip && op.at >= cutoff)
  }

  /** Failures of any address that are not older than `cutoff`. */
  function AllFailures(h: seq<Op>, cutoff: Time): nat {
    if h == [] then 0
    else
      var op := h[|h| - 1];
      AllFailures(h[..|h| - 1], cutoff) + One(op.Fail? && op.at >= cutoff)
  }

  /** The end of an address's lock: 30 minutes after the latest failure that was the fifth in 10 minutes. */
  function LockEnd(h: seq<Op>, ip: string): Time {
    if h == [] then 0
    else
      var op, before := h[|h| - 1], h[..|h| - 1];
      if op == Succeed(ip) then 0
      else if op.Fail? && op.ip == ip && FailuresSince(h, ip, op.at - WINDOW) >= 5 then op.at + LOCK
      else LockEnd(before, ip)
  }

  /** Whether the last operation of a history opens the circuit breaker. */
  predicate Opens(h: seq<Op>)
    requires h != []
    decreases |h|, 0
  {
    var op := h[|h| - 1];
    op.Fail? && AllFailures(h, op.at - WINDOW) >= 100 && op.at >= PauseEnd(h[..|h| - 1])
  }

  /** The end of the pause: 15 minutes after the circuit breaker last opened. */
  function PauseEnd(h: seq<Op>): Time
    decreases |h|, 1
  {
    if h == [] then 0
    else if Opens(h) then h[|h| - 1].at + PAUSE
    else PauseEnd(h[..|h| - 1])
  }

  function SpecAllow(h: seq<Op>, ip: string, now: Time): Answer {
    if now < PauseEnd(h) then Answer(false, PauseEnd(h) - now)
    else if now < LockEnd(h, ip) then Answer(false, LockEnd(h, ip) - now)
    else Answer(true, 0)
  }

  // ----- the pruned limiter follows it

  function Apply(l: State, op: Op): State {
    match op
    case Fail(ip, at) => Failed(Cleaned(l, at), ip, at).0
    case Succeed(ip) => l.(byIP := l.byIP - {ip})
    case Ask(ip, at) => Cleaned(l, at)
  }

  function Run(h: seq<Op>): State {
    if h == [] then FRESH else Apply(Run(h[..|h| - 1]), h[|h| - 1])
  }

  predicate Sorted(s: seq<Time>) { forall i, j :: 0 <= i < j < |s| ==> s[i] <= s[j] }

  function CountFrom(s: seq<Time>, cutoff: Time): nat {
    if s == [] then 0 else One(s[0] >= cutoff) + CountFrom(s[1..], cutoff)
  }

  lemma {:induction false} CountAppend(s: seq<Time>, t: Time, cutoff: Time)
    ensures CountFrom(s + [t], cutoff) == CountFrom(s, cutoff) + One(t >= cutoff)
  {
    if s == [] {
      assert [] + [t] == [t];
      assert [t][1..] == [];
    } else {
      assert (s + [t])[1..] == s[1..] + [t];
      CountAppend(s[1..], t, cutoff);
    }
  }

  lemma {:induction false} CountAll(s: seq<Time>, cutoff: Time)
    requires forall i :: 0 <= i < |s| ==> s[i] >= cutoff
    ensures CountFrom(s, cutoff) == |s|
  {
    if s != [] { CountAll(s[1..], cutoff); }
  }

  /** Pruning a sorted list keeps exactly the entries that later counts can still see. */
  lemma {:induction false} RetainKeepsCounts(s: seq<Time>, cutoff: Time, later: Time)
    requires Sorted(s) && cutoff <= later
    ensures var r := RetainedAfter(s, cutoff);
            && Sorted(r) && (forall x :: x in r ==> x in s && x >= cutoff)
            && CountFrom(r, later) == CountFrom(s, later)
    decreases |s|
  {
    if s != [] && s[0] < cutoff {
      RetainKeepsCounts(s[1..], cutoff, later);
    }
  }

  /** A list of times that agrees with a count over the history for every cutoff that may still be asked. */
  ghost predicate Follows(s: seq<Time>, clock: Time, count: Time -> nat) {
    && Sorted(s) && (forall x :: x in s ==> x <= clock)
    && (forall cutoff :: cutoff >= clock - WINDOW ==> CountFrom(s, cutoff) == count(cutoff))
  }

  lemma FollowsPruned(s: seq<Time>, clock: Time, now: Time, count: Time -> nat)
    requires Follows(s, clock, count) && clock <= now
    ensures Follows(RetainedAfter(s, now - WINDOW), now, count)
    ensures |RetainedAfter(s, now - WINDOW)| == count(now - WINDOW)
  {
    var r := RetainedAfter(s, now - WINDOW);
    RetainKeepsCounts(s, now - WINDOW, now - WINDOW);
    forall cutoff | cutoff >= now - WINDOW
      ensures CountFrom(r, cutoff) == count(cutoff)
    {
      RetainKeepsCounts(s, now - WINDOW, cutoff);
    }
    assert forall i :: 0 <= i < |r| ==> r[i] in r;
    CountAll(r, now - WINDOW);
    assert CountFrom(r, now - WINDOW) == count(now - WINDOW);
  }

  lemma FollowsAppended(s: seq<Time>, now: Time, count: Time -> nat, next: Time -> nat)
    requires Follows(s, now, count)
    requires forall cutoff :: next(cutoff) == count(cutoff) + One(now >= cutoff)
    ensures Follows(s + [now], now, next)
  {
    assert forall i :: 0 <= i < |s| ==> s[i] in s;
    forall cutoff | cutoff >= now - WINDOW
      ensures CountFrom(s + [now], cutoff) == next(cutoff)
    {
      CountAppend(s, now, cutoff);
    }
  }

  function CountsOf(h: seq<Op>, ip: string): Time -> nat { cutoff => FailuresSince(h, ip, cutoff) }

  function AllCounts(h: seq<Op>): Time -> nat { cutoff => AllFailures(h, cutoff) }

  /** Two lock ends that nobody can tell apart from `clock` on. */
  predicate SameEnd(a: Time, b: Time, clock: Time) { a == b || (a <= clock && b <= clock) }

  function AttemptOf(l: State, ip: string): Attempt { if ip in l.byIP then l.byIP[ip] else Attempt([], 0) }

  ghost predicate EntryTracks(h: seq<Op>, l: State, ip: string, clock: Time) {
    && Follows(AttemptOf(l, ip).failures, clock, CountsOf(h, ip))
    && SameEnd(AttemptOf(l, ip).lockedUntil, LockEnd(h, ip), clock)
  }

  ghost predicate Tracks(h: seq<Op>, l: State, clock: Time) {
    && clock >= 0
    && Follows(l.global, clock, AllCounts(h))
    && l.pausedUntil == PauseEnd(h)
    && forall ip :: EntryTracks(h, l, ip, clock)
  }

  lemma {:induction false} CleanedEntry(h: seq<Op>, l: State, ip: string, clock: Time, now: Time)
    requires EntryTracks(h, l, ip, clock) && 0 <= clock <= now
    ensures EntryTracks(h, Cleaned(l, now), ip, now)
    ensures |AttemptOf(Cleaned(l, now), ip).failures| == FailuresSince(h, ip, now - WINDOW)
  {
    hide Follows;
    FollowsPruned(AttemptOf(l, ip).failures, clock, now, CountsOf(h, ip));
    assert AttemptOf(Cleaned(l, now), ip).failures == RetainedAfter(AttemptOf(l, ip).failures, now - WINDOW);
  }

  lemma {:induction false} CleanedTracks(h: seq<Op>, l: State, clock: Time, now: Time)
    requires Tracks(h, l, clock) && clock <= now
    ensures Tracks(h, Cleaned(l, now), now)
    ensures |Cleaned(l, now).global| == AllFailures(h, now - WINDOW)
  {
    hide Follows, EntryTracks;
    FollowsPruned(l.global, clock, now, AllCounts(h));
    forall ip ensures EntryTracks(h, Cleaned(l, now), ip, now) {
      CleanedEntry(h, l, ip, clock, now);
    }
  }

  /** Operations that record nothing for an address leave its counts and its lock alone. */
  lemma {:induction false} UnrelatedOp(h: seq<Op>, op: Op, ip: string)
    requires op != Succeed(ip) && !(op.Fail? && op.ip == ip)
    ensures forall cutoff :: FailuresSince(h + [op], ip, cutoff) == FailuresSince(h, ip, cutoff)
    ensures LockEnd(h + [op], ip) == LockEnd(h, ip)
  {
    assert (h + [op])[..|h|] == h;
  }

  lemma UnrelatedEntry(h: seq<Op>, op: Op, l: State, l1: State, ip: string, clock: Time)
    requires EntryTracks(h, l, ip, clock) && AttemptOf(l1, ip) == AttemptOf(l, ip)
    requires op != Succeed(ip) && !(op.Fail? && op.ip == ip)
    ensures EntryTracks(h + [op], l1, ip, clock)
  {
    UnrelatedOp(h, op, ip);
  }

  lemma {:induction false} NoFailureNoPause(h: seq<Op>, op: Op)
    requires !op.Fail?
    ensures forall cutoff :: AllFailures(h + [op], cutoff) == AllFailures(h, cutoff)
    ensures PauseEnd(h + [op]) == PauseEnd(h)
  {
    assert (h + [op])[..|h|] == h;
  }

  lemma SameCountsFollow(s: seq<Time>, clock: Time, count: Time -> nat, next: Time -> nat)
    requires Follows(s, clock, count) && forall cutoff :: next(cutoff) == count(cutoff)
    ensures Follows(s, clock, next)
  {}

  lemma AskTracks(h: seq<Op>, l: State, clock: Time, ip0: string, now: Time)
    requires Tracks(h, l, clock) && clock <= now
    ensures Tracks(h + [Ask(ip0, now)], Cleaned(l, now), now)
  {
    hide Follows, EntryTracks, Cleaned;
    var op := Ask(ip0, now);
    var l1 := Cleaned(l, now);
    CleanedTracks(h, l, clock, now);
    NoFailureNoPause(h, op);
    SameCountsFollow(l1.global, now, AllCounts(h), AllCounts(h + [op]));
    forall ip ensures EntryTracks(h + [op], l1, ip, now) {
      UnrelatedEntry(h, op, l1, l1, ip, now);
    }
  }

  lemma SucceedTracks(h: seq<Op>, l: State, clock: Time, ip0: string)
    requires Tracks(h, l, clock)
    ensures Tracks(h + [Succeed(ip0)], l.(byIP := l.byIP - {ip0}), clock)
  {
    hide Follows, EntryTracks;
    var op := Succeed(ip0);
    var l1 := l.(byIP := l.byIP - {ip0});
    NoFailureNoPause(h, op);
    SameCountsFollow(l.global, clock, AllCounts(h), AllCounts(h + [op]));
    forall ip ensures EntryTracks(h + [op], l1, ip, clock) {
      if ip == ip0 {
        SucceededEntry(h, l1, ip, clock);
      } else {
        UnrelatedEntry(h, op, l, l1, ip, clock);
      }
    }
  }

  lemma SucceededEntry(h: seq<Op>, l: State, ip: string, clock: Time)
    requires ip !in l.byIP && clock >= 0
    ensures EntryTracks(h + [Succeed(ip)], l, ip, clock)
  {}

  /** The failing address's own entry, in a cleaned limiter. */
  lemma {:induction false} FailedEntry(h: seq<Op>, l: State, ip: string, now: Time)
    requires EntryTracks(h, l, ip, now) && |AttemptOf(l, ip).failures| == FailuresSince(h, ip, now - WINDOW)
    ensures EntryTracks(h + [Fail(ip, now)], Failed(l, ip, now).0, ip, now)
  {
    hide Follows;
    var h1 := h + [Fail(ip, now)];
    assert h1[..|h|] == h;
    FollowsAppended(AttemptOf(l, ip).failures, now, CountsOf(h, ip), CountsOf(h1, ip));
  }

  lemma {:induction false} FailedGlobal(h: seq<Op>, l: State, ip: string, now: Time)
    requires Follows(l.global, now, AllCounts(h)) && l.pausedUntil == PauseEnd(h)
    requires |l.global| == AllFailures(h, now - WINDOW)
    ensures var (l1, breaks) := Failed(l, ip, now);
            var h1 := h + [Fail(ip, now)];
            Follows(l1.global, now, AllCounts(h1)) && l1.pausedUntil == PauseEnd(h1) && breaks == Opens(h1)
  {
    hide Follows;
    var h1 := h + [Fail(ip, now)];
    assert h1[..|h|] == h;
    FollowsAppended(l.global, now, AllCounts(h), AllCounts(h1));
  }

  lemma {:induction false} FailTracks(h: seq<Op>, l: State, clock: Time, ip0: string, now: Time)
    requires Tracks(h, l, clock) && clock <= now
    ensures Tracks(h + [Fail(ip0, now)], Failed(Cleaned(l, now), ip0, now).0, now)
    ensures Failed(Cleaned(l, now), ip0, now).1 == Opens(h + [Fail(ip0, now)])
  {
    hide Follows, EntryTracks, Cleaned, Opens, PauseEnd, AllFailures, FailuresSince;
    var op := Fail(ip0, now);
    var l1 := Cleaned(l, now);
    var l2 := Failed(l1, ip0, now).0;
    CleanedTracks(h, l, clock, now);
    FailedGlobal(h, l1, ip0, now);
    forall ip ensures EntryTracks(h + [op], l2, ip, now) {
      if ip == ip0 {
        CleanedEntry(h, l, ip, clock, now);
        FailedEntry(h, l1, ip, now);
      } else {
        UnrelatedEntry(h, op, l1, l2, ip, now);
      }
    }
  }

  lemma {:induction false} RunTracks(h: seq<Op>)
    requires Timely(h)
    ensures Tracks(h, Run(h), LastTime(h))
    decreases |h|
  {
    hide Tracks, Failed, Cleaned;
    if h == [] {
      FreshTracks();
    } else {
      var before, op := h[..|h| - 1], h[|h| - 1];
      assert h == before + [op];
      RunTracks(before);
      match op
      case Fail(ip, at) => FailTracks(before, Run(before), LastTime(before), ip, at);
      case Succeed(ip) => SucceedTracks(before, Run(before), LastTime(before), ip);
      case Ask(ip, at) => AskTracks(before, Run(before), LastTime(before), ip, at);
    }
  }

  lemma FreshTracks()
    ensures Tracks([], FRESH, 0)
  {}

  // ----- main results

  /** After every history the pruned limiter gives the answer that the full history calls for. */
  lemma {:induction false} AllowAgreesWithFullHistory(h: seq<Op>, ip: string, now: Time)
    requires Timely(h) && LastTime(h) <= now
    ensures Allow(Cleaned(Run(h), now), ip, now) == SpecAllow(h, ip, now)
  {
    hide Follows, Run, Cleaned, PauseEnd, LockEnd;
    RunTracks(h);
    CleanedTracks(h, Run(h), LastTime(h), now);
    assert EntryTracks(h, Cleaned(Run(h), now), ip, now);
  }

  /** A failure opens the circuit breaker exactly when the full history calls for it. */
  lemma {:induction false} FailureAgreesWithFullHistory(h: seq<Op>, ip: string, now: Time)
    requires Timely(h) && LastTime(h) <= now
    ensures Failed(Cleaned(Run(h), now), ip, now).1 == Opens(h + [Fail(ip, now)])
  {
    hide Tracks, Run, Cleaned, Opens, Failed;
    RunTracks(h);
    FailTracks(h, Run(h), LastTime(h), ip, now);
  }

  /** An opening keeps enrollment paused until 15 minutes later, whatever follows. */
  lemma {:induction false} PauseLasts(h: seq<Op>, i: nat, j: nat)
    requires Timely(h) && i < j <= |h| && Opens(h[..i + 1])
    ensures PauseEnd(h[..j]) >= h[i].at + PAUSE
    decreases j
  {
    if j == i + 1 {
    } else {
      PauseLasts(h, i, j - 1);
      assert h[..j][..j - 1] == h[..j - 1];
    }
  }

  /** The circuit breaker never opens twice within 15 minutes. */
  lemma {:induction false} OpeningsAreApart(h: seq<Op>, i: nat, j: nat)
    requires Timely(h) && i < j < |h| && Opens(h[..i + 1]) && Opens(h[..j + 1])
    ensures h[j].at - h[i].at >= PAUSE
  {
    PauseLasts(h, i, j);
    assert h[..j + 1][..j] == h[..j];
  }

  /** A failure that was at least the fifth in 10 minutes since the address last succeeded. */
  predicate LockingFailure(h: seq<Op>, ip: string, j: nat) {
    j < |h| && h[j].Fail? && h[j].ip == ip && FailuresSince(h[..j + 1], ip, h[j].at - WINDOW) >= 5
  }

  predicate NoSuccessAfter(h: seq<Op>, ip: string, j: nat) {
    forall k :: j < k < |h| ==> h[k] != Succeed(ip)
  }

  /** Failure `j` still locks the address at `now`. */
  predicate Locks(h: seq<Op>, ip: string, j: nat, now: Time) {
    LockingFailure(h, ip, j) && NoSuccessAfter(h, ip, j) && now < h[j].at + LOCK
  }

  lemma {:induction false} LocksOfPrefix(before: seq<Op>, op: Op, ip: string, j: nat, now: Time)
    requires j < |before|
    ensures op == Succeed(ip) ==> !Locks(before + [op], ip, j, now)
    ensures op != Succeed(ip) ==> (Locks(before + [op], ip, j, now) <==> Locks(before, ip, j, now))
  {
    hide FailuresSince;
    var h := before + [op];
    assert h[..j + 1] == before[..j + 1];
    assert h[|before|] == op;
    assert forall k :: 0 <= k < |before| ==> h[k] == before[k];
  }

  /** The latest locking failure decides. */
  lemma {:induction false} LatestLock(before: seq<Op>, op: Op, ip: string, now: Time)
    ensures var h := before + [op];
            LockEnd(h, ip) == if op == Succeed(ip) then 0
                              else if LockingFailure(h, ip, |before|) then op.at + LOCK else LockEnd(before, ip)
  {
    hide FailuresSince;
    var h := before + [op];
    assert h[..|before|] == before && h[..|before| + 1] == h && h[|before|] == op;
  }

  lemma {:induction false} LatestLocks(before: seq<Op>, op: Op, ip: string, now: Time)
    requires LockingFailure(before + [op], ip, |before|)
    ensures op.Fail? && (Locks(before + [op], ip, |before|, now) <==> now < op.at + LOCK)
  {
    hide FailuresSince;
    assert NoSuccessAfter(before + [op], ip, |before|);
  }

  /** An address is locked exactly while some such failure, not followed by a success, is under 30 minutes old. */
  lemma {:induction false} LockedExactlyWhen(h: seq<Op>, ip: string, now: Time)
    requires Timely(h) && LastTime(h) <= now && now >= 0
    ensures now < LockEnd(h, ip) <==> exists j: nat :: Locks(h, ip, j, now)
    decreases |h|
  {
    hide LockEnd, Locks, LockingFailure;
    if h == [] {
      NeverLocked(ip, now);
    } else {
      var n := |h| - 1;
      var before, op := h[..n], h[n];
      assert h == before + [op];
      TimesBounded(h, n);
      LockedExactlyWhen(before, ip, now);
      LatestLock(before, op, ip, now);
      if LockingFailure(h, ip, n) { LatestLocks(before, op, ip, now); }
      LocksAreFailures(h, ip, now);
      forall j: nat | j < n
        ensures op == Succeed(ip) ==> !Locks(h, ip, j, now)
        ensures op != Succeed(ip) ==> (Locks(h, ip, j, now) <==> Locks(before, ip, j, now))
      {
        LocksOfPrefix(before, op, ip, j, now);
      }
      LocksAreFailures(before, ip, now);
      if op == Succeed(ip) {
        forall j: nat ensures !Locks(h, ip, j, now) {}
      } else if j: nat :| Locks(h, ip, j, now) {
        assert j < n ==> Locks(before, ip, j, now);
      } else {
        assert !Locks(h, ip, n, now);
        forall j: nat ensures !Locks(before, ip, j, now) {
          assert !Locks(h, ip, j, now);
        }
      }
    }
  }

  lemma {:induction false} NeverLocked(ip: string, now: Time)
    requires now >= 0
    ensures LockEnd([], ip) == 0 && forall j: nat :: !Locks([], ip, j, now)
  {}

  lemma {:induction false} LocksAreFailures(h: seq<Op>, ip: string, now: Time)
    requires Timely(h)
    ensures forall j: nat :: Locks(h, ip, j, now) ==>
              j < |h| && h[j].Fail? && h[j].at <= LastTime(h) && h[j].ip == ip && now < h[j].at + LOCK
                  && LockingFailure(h, ip, j)
  {
    hide FailuresSince;
    TimesBounded(h, 0);
  }

  /** No operation is later than the last clock reading. */
  lemma {:induction false} TimesBounded(h: seq<Op>, n: nat)
    requires Timely(h) && n <= |h|
    ensures Timely(h[..n]) && 0 <= LastTime(h[..n]) <= LastTime(h)
    ensures forall k :: 0 <= k < |h| && Timed(h[k]) ==> h[k].at <= LastTime(h)
    decreases |h|
  {
    if h != [] {
      var m := |h| - 1;
      TimesBounded(h[..m], if n <= m then n else m);
      if n <= m {
        assert h[..m][..n] == h[..n];
      } else {
        assert h[..n] == h;
        assert h[..m][..m] == h[..m];
      }
    }
  }

  // ----- the numbers

  lemma FiveCount(ip: string, who: string, t: Time)
    ensures var f, one := Fail(ip, t), One(who == ip);
            && FailuresSince([f], who, t - WINDOW) == one && FailuresSince([f, f], who, t - WINDOW) == 2 * one
            && FailuresSince([f, f, f], who, t - WINDOW) == 3 * one
            && FailuresSince([f, f, f, f], who, t - WINDOW) == 4 * one
            && FailuresSince([f, f, f, f, f], who, t - WINDOW) == 5 * one
  {
    var f := Fail(ip, t);
    assert [f][..0] == [] && [f, f][..1] == [f] && [f, f, f][..2] == [f, f] && [f, f, f, f][..3] == [f, f, f];
    assert [f, f, f, f, f][..4] == [f, f, f, f];
    assert FailuresSince([], who, t - WINDOW) == 0;
    assert FailuresSince([f], who, t - WINDOW) == One(who == ip);
    assert FailuresSince([f, f, f], who, t - WINDOW) == 3 * One(who == ip);
  }

  /** Five failures at once lock the address for 30 minutes, unless it succeeds in between; other addresses go on. */
  lemma {:induction false} FiveFailuresLock(ip: string, other: string, t: Time)
    requires ip != other && t >= 0
    ensures var h := [Fail(ip, t), Fail(ip, t), Fail(ip, t), Fail(ip, t), Fail(ip, t)];
            && FailuresSince(h, ip, t - WINDOW) == 5 && FailuresSince(h, other, t - WINDOW) == 0
            && LockEnd(h, ip) == t + 1_800_000_000_000 && LockEnd(h, other) == 0
            && LockEnd(h[..4], ip) == 0 && LockEnd(h + [Succeed(ip)], ip) == 0
            && FailuresSince(h + [Succeed(ip)], ip, t - WINDOW) == 0
  {
    var f := Fail(ip, t);
    var h1, h2, h3, h4, h5 := [f], [f, f], [f, f, f], [f, f, f, f], [f, f, f, f, f];
    assert h1[..0] == [] && h2[..1] == h1 && h3[..2] == h2 && h4[..3] == h3 && h5[..4] == h4;
    assert (h5 + [Succeed(ip)])[..5] == h5;
    FiveCount(ip, ip, t);
    FiveCount(ip, other, t);
    assert LockEnd([], ip) == 0 && LockEnd([], other) == 0;
    assert LockEnd(h1, ip) == 0 && LockEnd(h2, ip) == 0 && LockEnd(h3, ip) == 0 && LockEnd(h4, ip) == 0;
    assert LockEnd(h1, other) == 0 && LockEnd(h2, other) == 0 && LockEnd(h3, other) == 0 && LockEnd(h4, other) == 0;
  }

  /** Failures that all happened at one time, of whatever addresses. */
  predicate AllAt(h: seq<Op>, t: Time) { forall i :: 0 <= i < |h| ==> h[i].Fail? && h[i].at == t }

  lemma {:induction false} AllOfThemCount(h: seq<Op>, t: Time, cutoff: Time)
    requires AllAt(h, t)
    ensures AllFailures(h, cutoff) == if cutoff <= t then |h| else 0
    decreases |h|
  {
    if h != [] { AllOfThemCount(h[..|h| - 1], t, cutoff); }
  }

  lemma {:induction false} NinetyNineDoNotPause(h: seq<Op>, t: Time)
    requires AllAt(h, t) && |h| <= 99
    ensures PauseEnd(h) == 0
    decreases |h|
  {
    if h != [] {
      NinetyNineDoNotPause(h[..|h| - 1], t);
      AllOfThemCount(h, t, t - WINDOW);
    }
  }

  /** The hundredth failure within 10 minutes pauses enrollment for everybody for 15 minutes. */
  lemma {:induction false} HundredFailuresPause(h: seq<Op>, t: Time, ip: string, now: Time)
    requires AllAt(h, t) && |h| == 100 && t >= 0
    ensures Opens(h) && PauseEnd(h) == t + 900_000_000_000 && PauseEnd(h[..99]) == 0
    ensures t <= now < t + 900_000_000_000 ==> SpecAllow(h, ip, now) == Answer(false, t + 900_000_000_000 - now)
  {
    NinetyNineDoNotPause(h[..99], t);
    AllOfThemCount(h, t, t - WINDOW);
  }

  /** A failure counts for 10 minutes, its end included. */
  lemma FailureCountsForTenMinutes(ip: string, t: Time, now: Time)
    ensures FailuresSince([Fail(ip, t)], ip, now - WINDOW) == 1 <==> now - t <= 600_000_000_000
    ensures AllFailures([Fail(ip, t)], now - WINDOW) == 1 <==> now - t <= 600_000_000_000
  {
    assert [Fail(ip, t)][..0] == [];
    assert FailuresSince([], ip, now - WINDOW) == 0 && AllFailures([], now - WINDOW) == 0;
  }

}
