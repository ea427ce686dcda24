/**
 The civil calendar behind billing periods, and the start of the billing period
 that an instant belongs to.

 Instants count nanoseconds from midnight UTC on 1 January of year 1, so the zero
 instant is 0. Months are numbered `12 * year + (month - 1)` across all years.
 */
module Calendar {
  import opened Basics

  type Instant = int

  const DAY: int := 86_400_000_000_000
  const FIRST_MONTH: int := 12

  predicate IsLeapYear(year: int) {
    year % 4 == 0 && (year % 100 != 0 || year % 400 == 0)
  }

  function MonthLength(k: int): (days: int)
    ensures 28 <= days <= 31
  {
    match k % 12
    case 1 => if IsLeapYear(k / 12) then 29 else 28
    case 3 => 30
    case 5 => 30
    case 8 => 30
    case 10 => 30
    case _ => 31
  }

  /** The day number of the first day of month `k`; day 0 is 1 January of year 1. */
  function MonthFirstDay(k: int): int
    decreases if k >= FIRST_MONTH then k - FIRST_MONTH else FIRST_MONTH - k
  {
    if k == FIRST_MONTH then 0
    else if k > FIRST_MONTH then MonthFirstDay(k - 1) + MonthLength(k - 1)
    else MonthFirstDay(k + 1) - MonthLength(k)
  }

  lemma MonthFirstDayStep(k: int)
    ensures MonthFirstDay(k + 1) == MonthFirstDay(k) + MonthLength(k)
  {}

  lemma {:induction false} MonthFirstDayIncreases(j: int, k: int)
    requires j < k
    ensures MonthFirstDay(j) + 28 * (k - j) <= MonthFirstDay(k)
    decreases k - j
  {
    MonthFirstDayStep(k - 1);
    if j < k - 1 {
      MonthFirstDayIncreases(j, k - 1);
    }
  }

  /** The month that holds day `n`, searched from month `k`. */
  function MonthFrom(n: int, k: int): (m: int)
    ensures MonthFirstDay(m) <= n < MonthFirstDay(m + 1)
    decreases if n < MonthFirstDay(k) then MonthFirstDay(k) - n
              else if n >= MonthFirstDay(k + 1) then n - MonthFirstDay(k) else 0
  {
    MonthFirstDayStep(k);
    MonthFirstDayStep(k - 1);
    if n < MonthFirstDay(k) then MonthFrom(n, k - 1)
    else if n >= MonthFirstDay(k + 1) then MonthFrom(n, k + 1)
    else k
  }

  function MonthOf(n: int): (m: int)
    ensures MonthFirstDay(m) <= n < MonthFirstDay(m + 1)
  {
    MonthFrom(n, FIRST_MONTH)
  }

  lemma MonthOfUnique(n: int, m: int)
    requires MonthFirstDay(m) <= n < MonthFirstDay(m + 1)
    ensures MonthOf(n) == m
  {
    var k := MonthOf(n);
    if k < m {
      if k + 1 < m { MonthFirstDayIncreases(k + 1, m); }
    } else if m < k {
      if m + 1 < k { MonthFirstDayIncreases(m + 1, k); }
    }
  }

  function Year(t: Instant): int { MonthOf(t / DAY) / 12 }

  function Month(t: Instant): int { MonthOf(t / DAY) % 12 + 1 }

  function DayOfMonth(t: Instant): int { t / DAY - MonthFirstDay(MonthOf(t / DAY)) + 1 }

  /** Midnight of a civil date; months and days outside their usual range carry over. */
  function Date(year: int, month: int, day: int): Instant {
    (MonthFirstDay(12 * year + month - 1) + day - 1) * DAY
  }

  /** The length of a month, read off the day before the first of the next month. */
  function DaysInMonth(year: int, month: int): int {
    DayOfMonth(Date(year, month + 1, 0))
  }

  /** Asking for day 0 of the next month yields the Gregorian month length. */
  lemma DaysInMonthIsMonthLength(year: int, month: int)
    ensures DaysInMonth(year, month) == MonthLength(12 * year + month - 1)
  {
    var k := 12 * year + month - 1;
    MonthFirstDayStep(k);
    var last := MonthFirstDay(k + 1) - 1;
    assert 12 * year + (month + 1) - 1 == k + 1;
    assert Date(year, month + 1, 0) == last * DAY;
    assert last * DAY / DAY == last;
    MonthOfUnique(last, k);
  }

  function TrafficPeriodStart(now: Instant, resetDay: int): Instant {
    var reset := if resetDay < 1 || resetDay > 31 then 1 else resetDay;
    var thisMonthDay := Min(reset, DaysInMonth(Year(now), Month(now)));
    var start := Date(Year(now), Month(now), thisMonthDay);
    if now < start then
      var (year, month) := if Month(now) - 1 < 1 then (Year(now) - 1, 12) else (Year(now), Month(now) - 1);
      Date(year, month, Min(reset, DaysInMonth(year, month)))
    else
      start
  }

  // ----- the billing calendar as a reference definition

  /** The reset instant of month `k`: the reset day, or the month's last day if it is shorter. */
  function BillingStart(k: int, resetDay: int): Instant {
    var reset := if 1 <= resetDay <= 31 then resetDay else 1;
    (MonthFirstDay(k) + Min(reset, MonthLength(k)) - 1) * DAY
  }

  ghost predicate IsBillingStart(s: Instant, resetDay: int) {
    exists k :: s == BillingStart(k, resetDay)
  }

  /** Consecutive resets are 28 to 31 days apart for every month and reset day. */
  lemma BillingGap(k: int, resetDay: int)
    ensures 28 * DAY <= BillingStart(k + 1, resetDay) - BillingStart(k, resetDay) <= 31 * DAY
  {
    MonthFirstDayStep(k);
  }

  lemma {:induction false} BillingStartIncreases(j: int, k: int, resetDay: int)
    requires j < k
    ensures BillingStart(j, resetDay) < BillingStart(k, resetDay)
    decreases k - j
  {
    BillingGap(k - 1, resetDay);
    if j < k - 1 {
      BillingStartIncreases(j, k - 1, resetDay);
    }
  }

  /** The month whose reset opened the billing period that holds `now`. */
  function BillingMonth(now: Instant, resetDay: int): (k: int) {
    var m := MonthOf(now / DAY);
    if now < BillingStart(m, resetDay) then m - 1 else m
  }

  /** Midnight `n` days on is at most `t` exactly when `t` lies on day `n` or later. */
  lemma MidnightBefore(t: Instant, n: int)
    ensures n * DAY <= t <==> n <= t / DAY
  {}

  lemma BillingMonthEncloses(now: Instant, resetDay: int)
    ensures BillingStart(BillingMonth(now, resetDay), resetDay) <= now
    ensures now < BillingStart(BillingMonth(now, resetDay) + 1, resetDay)
  {
    var day := now / DAY;
    var m := MonthOf(day);
    MonthFirstDayStep(m);
    MonthFirstDayStep(m - 1);
    MonthFirstDayStep(m + 1);
    var reset := if 1 <= resetDay <= 31 then resetDay else 1;
    MidnightBefore(now, MonthFirstDay(m - 1) + Min(reset, MonthLength(m - 1)) - 1);
    MidnightBefore(now, MonthFirstDay(m) + Min(reset, MonthLength(m)) - 1);
    MidnightBefore(now, MonthFirstDay(m + 1) + Min(reset, MonthLength(m + 1)) - 1);
  }

  /** The code's clamped date of a month is that month's reset instant. */
  lemma ClampedDate(year: int, month: int, resetDay: int)
    ensures var reset := if resetDay < 1 || resetDay > 31 then 1 else resetDay;
            Date(year, month, Min(reset, DaysInMonth(year, month))) == BillingStart(12 * year + month - 1, resetDay)
  {
    DaysInMonthIsMonthLength(year, month);
  }

  lemma YearMonthRoundTrip(t: Instant)
    ensures 12 * Year(t) + Month(t) - 1 == MonthOf(t / DAY)
    ensures 1 <= Month(t) <= 12
  {}

  /** The code's date arithmetic finds the reset of a month whose period holds the instant. */
  lemma PeriodStartLocates(now: Instant, resetDay: int)
    ensures TrafficPeriodStart(now, resetDay) == BillingStart(BillingMonth(now, resetDay), resetDay)
    ensures BillingStart(BillingMonth(now, resetDay), resetDay) <= now
    ensures now < BillingStart(BillingMonth(now, resetDay) + 1, resetDay)
  {
    BillingMonthEncloses(now, resetDay);
    YearMonthRoundTrip(now);
    var y, m := Year(now), Month(now);
    ClampedDate(y, m, resetDay);
    var (year, month) := if m - 1 < 1 then (y - 1, 12) else (y, m - 1);
    assert 12 * year + month == 12 * y + m - 1;
    ClampedDate(year, month, resetDay);
  }

  /** The billing month is the only one whose reset and successor enclose the instant. */
  lemma BillingMonthUnique(now: Instant, resetDay: int, k: int)
    requires BillingStart(k, resetDay) <= now < BillingStart(k + 1, resetDay)
    ensures BillingMonth(now, resetDay) == k
  {
    PeriodStartLocates(now, resetDay);
    var m := BillingMonth(now, resetDay);
    if m < k {
      if m + 1 < k { BillingStartIncreases(m + 1, k, resetDay); }
    } else if k < m {
      if k + 1 < m { BillingStartIncreases(k + 1, m, resetDay); }
    }
  }

  // ----- main results

  /** The period start is the greatest reset instant that is not after `now`. */
  lemma PeriodStartIsGreatest(now: Instant, resetDay: int)
    ensures TrafficPeriodStart(now, resetDay) <= now
    ensures IsBillingStart(TrafficPeriodStart(now, resetDay), resetDay)
    ensures forall s :: IsBillingStart(s, resetDay) && s <= now ==> s <= TrafficPeriodStart(now, resetDay)
  {
    PeriodStartLocates(now, resetDay);
    var m := BillingMonth(now, resetDay);
    forall s | IsBillingStart(s, resetDay) && s <= now
      ensures s <= TrafficPeriodStart(now, resetDay)
    {
      var k :| s == BillingStart(k, resetDay);
      if m < k {
        if m + 1 < k { BillingStartIncreases(m + 1, k, resetDay); }
        assert false;
      }
      if k < m { BillingStartIncreases(k, m, resetDay); }
    }
  }

  /** Every reset instant is its own period start; in particular the function is idempotent. */
  lemma PeriodStartFixesResets(s: Instant, resetDay: int)
    ensures TrafficPeriodStart(s, resetDay) == s <==> IsBillingStart(s, resetDay)
    ensures TrafficPeriodStart(TrafficPeriodStart(s, resetDay), resetDay) == TrafficPeriodStart(s, resetDay)
  {
    PeriodStartIsGreatest(s, resetDay);
    PeriodStartIsGreatest(TrafficPeriodStart(s, resetDay), resetDay);
  }

  lemma PeriodStartMonotone(a: Instant, b: Instant, resetDay: int)
    requires a <= b
    ensures TrafficPeriodStart(a, resetDay) <= TrafficPeriodStart(b, resetDay)
  {
    PeriodStartIsGreatest(a, resetDay);
    PeriodStartIsGreatest(b, resetDay);
  }

  /** Two instants are billed together exactly when no reset falls between them. */
  lemma SamePeriodIffNoReset(a: Instant, b: Instant, resetDay: int)
    requires a <= b
    ensures TrafficPeriodStart(a, resetDay) == TrafficPeriodStart(b, resetDay)
       <==> !(exists s :: IsBillingStart(s, resetDay) && a < s <= b)
  {
    PeriodStartIsGreatest(a, resetDay);
    PeriodStartIsGreatest(b, resetDay);
  }

  /** From any period start the next one comes 28 to 31 days later and none in between. */
  lemma NextPeriodStart(now: Instant, resetDay: int) returns (next: Instant)
    ensures var start := TrafficPeriodStart(now, resetDay);
            && IsBillingStart(next, resetDay)
            && now < next
            && start + 28 * DAY <= next <= start + 31 * DAY
            && (forall t :: start <= t < next ==> TrafficPeriodStart(t, resetDay) == start)
  {
    PeriodStartLocates(now, resetDay);
    var m := BillingMonth(now, resetDay);
    next := BillingStart(m + 1, resetDay);
    BillingGap(m, resetDay);
    forall t | BillingStart(m, resetDay) <= t < next
      ensures TrafficPeriodStart(t, resetDay) == BillingStart(m, resetDay)
    {
      BillingMonthUnique(t, resetDay, m);
      PeriodStartLocates(t, resetDay);
    }
  }

  /** A reset day outside 1 to 31 stands for the first of the month. */
  lemma ResetDayOutsideMonth(now: Instant, resetDay: int)
    requires resetDay < 1 || resetDay > 31
    ensures TrafficPeriodStart(now, resetDay) == TrafficPeriodStart(now, 1)
  {
    hide DaysInMonth, Date, Year, Month;
  }

}
