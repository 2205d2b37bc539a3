/** The date one billing cycle later (subscriptions/enums/index.ts).

    An instant is a count of milliseconds of local time since the start of year 0.  JavaScript's `setMonth`
    and `setFullYear` keep the day of the month and let it run over into the month after.
 */
module CycleDates {
  datatype Cycle = Weekly | Monthly | Quarterly | Yearly

  type Instant = nat

  const DAY := 86_400_000

  predicate Leap(year: nat) {
    year % 4 == 0 && (year % 100 != 0 || year % 400 == 0)
  }

  /** Months are numbered from January of year 0. */
  function MonthLength(month: nat): (days: nat)
    ensures 28 <= days <= 31
  {
    match month % 12
    case 1 => if Leap(month / 12) then 29 else 28
    case 3 => 30
    case 5 => 30
    case 8 => 30
    case 10 => 30
    case _ => 31
  }

  /** The number of the first day of the month. */
  function MonthStart(month: nat): nat {
    if month == 0 then 0 else MonthStart(month - 1) + MonthLength(month - 1)
  }

  function MonthFrom(month: nat, day: nat): (found: nat)
    requires MonthStart(month) <= day
    ensures MonthStart(found) <= day < MonthStart(found + 1)
    decreases day - MonthStart(month)
  {
    if day < MonthStart(month + 1) then month else MonthFrom(month + 1, day)
  }

  function MonthOf(t: Instant): nat {
    MonthFrom(0, t / DAY)
  }

  /** Counted from 0. */
  function DayOfMonth(t: Instant): (day: nat)
    ensures day < MonthLength(MonthOf(t))
  {
    t / DAY - MonthStart(MonthOf(t))
  }

  function SetMonth(t: Instant, month: nat): Instant {
    (MonthStart(month) + DayOfMonth(t)) * DAY + t % DAY
  }

  function NextCycleDate(from: Instant, cycle: Cycle): Instant {
    match cycle
    case Weekly => from + 7 * DAY
    case Monthly => SetMonth(from, MonthOf(from) + 1)
    case Quarterly => SetMonth(from, MonthOf(from) + 3)
    case Yearly => SetMonth(from, MonthOf(from) + 12)
  }

  function MonthsIn(cycle: Cycle): nat {
    match cycle
    case Weekly => 0
    case Monthly => 1
    case Quarterly => 3
    case Yearly => 12
  }

  lemma {:induction false} MonthsFollowEachOther(a: nat, b: nat)
    requires a <= b
    ensures MonthStart(a) + 28 * (b - a) <= MonthStart(b)
    decreases b
  {
    if a < b {
      MonthsFollowEachOther(a, b - 1);
    }
  }

  lemma MonthIsUnique(t: Instant, month: nat)
    requires MonthStart(month) <= t / DAY < MonthStart(month + 1)
    ensures MonthOf(t) == month
  {
    if MonthOf(t) < month {
      MonthsFollowEachOther(MonthOf(t) + 1, month);
    } else if month < MonthOf(t) {
      MonthsFollowEachOther(month + 1, MonthOf(t));
    }
  }

  /** Every cycle is at least a week. */
  lemma NextCycleAdvances(from: Instant, cycle: Cycle)
    ensures NextCycleDate(from, cycle) >= from + 7 * DAY
  {
    if cycle != Weekly {
      MonthsFollowEachOther(MonthOf(from), MonthOf(from) + MonthsIn(cycle));
    }
  }

  lemma SplitOf(days: nat, rest: nat)
    requires rest < DAY
    ensures (days * DAY + rest) / DAY == days && (days * DAY + rest) % DAY == rest
  {
  }

  /** The time of day is kept, and so is the day of the month exactly when the month reached is long enough;
      otherwise the date runs over into the month after. */
  lemma DayOfMonthIsKeptExactlyWhen(from: Instant, cycle: Cycle)
    requires cycle != Weekly
    ensures var month := MonthOf(from) + MonthsIn(cycle);
      var next := NextCycleDate(from, cycle);
      && next % DAY == from % DAY
      && (MonthOf(next) == month <==> DayOfMonth(from) < MonthLength(month))
      && (MonthOf(next) == month <==> DayOfMonth(next) == DayOfMonth(from))
      && (MonthOf(next) != month ==>
          MonthOf(next) == month + 1 && DayOfMonth(next) == DayOfMonth(from) - MonthLength(month))
  {
    SetMonthRunsOver(from, MonthOf(from) + MonthsIn(cycle));
  }

  lemma SetMonthRunsOver(from: Instant, month: nat)
    ensures var next := SetMonth(from, month);
      var fits := DayOfMonth(from) < MonthLength(month);
      && next % DAY == from % DAY
      && MonthOf(next) == (if fits then month else month + 1)
      && DayOfMonth(next) == (if fits then DayOfMonth(from) else DayOfMonth(from) - MonthLength(month))
  {
    var next := SetMonth(from, month);
    SplitOf(MonthStart(month) + DayOfMonth(from), from % DAY);
    NextMonthStart(month);
    NextMonthStart(month + 1);
    MonthIsUnique(next, if DayOfMonth(from) < MonthLength(month) then month else month + 1);
  }

  lemma NextMonthStart(month: nat)
    ensures MonthStart(month + 1) == MonthStart(month) + MonthLength(month)
    ensures 28 <= MonthLength(month) <= 31
  {
  }

  // ---- when two dates, or two cycles, lead to the same date ----

  lemma {:induction false} MonthsAreAtMost31Days(a: nat, b: nat)
    requires a <= b
    ensures MonthStart(b) <= MonthStart(a) + 31 * (b - a)
    decreases b
  {
    if a < b {
      MonthsAreAtMost31Days(a, b - 1);
    }
  }

  /** A week, or 28 to 31 days for each month of the cycle. */
  lemma CycleLength(from: Instant, cycle: Cycle)
    ensures var days := MonthsIn(cycle);
      if cycle == Weekly then NextCycleDate(from, cycle) == from + 7 * DAY
      else from + 28 * days * DAY <= NextCycleDate(from, cycle) <= from + 31 * days * DAY
  {
    if cycle != Weekly {
      MonthsFollowEachOther(MonthOf(from), MonthOf(from) + MonthsIn(cycle));
      MonthsAreAtMost31Days(MonthOf(from), MonthOf(from) + MonthsIn(cycle));
    }
  }

  lemma DifferentCyclesLeadToDifferentDates(from: Instant, a: Cycle, b: Cycle)
    ensures NextCycleDate(from, a) == NextCycleDate(from, b) <==> a == b
  {
    CycleLength(from, a);
    CycleLength(from, b);
  }

  /** A date as the clock shows it: month, day of the month from 0, time of day. */
  datatype Parts = Parts(month: nat, day: int, time: int)

  function PartsOf(t: Instant): Parts {
    Parts(MonthOf(t), DayOfMonth(t), t % DAY)
  }

  function NextParts(p: Parts, months: nat): Parts {
    var length := MonthLength(p.month + months);
    if p.day < length then p.(month := p.month + months) else Parts(p.month + months + 1, p.day - length, p.time)
  }

  lemma SetMonthInParts(t: Instant, months: nat)
    ensures PartsOf(SetMonth(t, MonthOf(t) + months)) == NextParts(PartsOf(t), months)
  {
    SetMonthRunsOver(t, MonthOf(t) + months);
  }

  lemma NextCycleInParts(t: Instant, cycle: Cycle)
    requires cycle != Weekly
    ensures PartsOf(NextCycleDate(t, cycle)) == NextParts(PartsOf(t), MonthsIn(cycle))
  {
    SetMonthInParts(t, MonthsIn(cycle));
    assert NextCycleDate(t, cycle) == SetMonth(t, MonthOf(t) + MonthsIn(cycle));
  }

  lemma SameParts(a: Instant, b: Instant)
    ensures a == b <==> PartsOf(a) == PartsOf(b)
  {
    assert a == a / DAY * DAY + a % DAY && b == b / DAY * DAY + b % DAY;
  }

  /** `p` is too late in its month and runs over to where `q`, early in the month after, leads anyway. */
  predicate RunsInto(p: Parts, q: Parts, months: nat) {
    && p.time == q.time && q.month == p.month + 1
    && p.day >= MonthLength(p.month + months) && q.day < MonthLength(q.month + months)
    && q.day == p.day - MonthLength(p.month + months)
  }

  lemma NextPartsMeet(p: Parts, q: Parts, months: nat)
    ensures NextParts(p, months) == NextParts(q, months) <==> p == q || RunsInto(p, q, months) || RunsInto(q, p, months)
  {
  }

  /** Dates that lead to the same next date: the same one, or one that runs over into the other's. */
  predicate Meet(a: Instant, b: Instant, cycle: Cycle) {
    a == b || (cycle != Weekly && (RunsInto(PartsOf(a), PartsOf(b), MonthsIn(cycle))
                                   || RunsInto(PartsOf(b), PartsOf(a), MonthsIn(cycle))))
  }

  lemma NextDatesMeetExactlyWhen(a: Instant, b: Instant, cycle: Cycle)
    ensures NextCycleDate(a, cycle) == NextCycleDate(b, cycle) <==> Meet(a, b, cycle)
  {
    if cycle != Weekly {
      SameParts(a, b);
      SameParts(NextCycleDate(a, cycle), NextCycleDate(b, cycle));
      NextCycleInParts(a, cycle);
      NextCycleInParts(b, cycle);
      NextPartsMeet(PartsOf(a), PartsOf(b), MonthsIn(cycle));
    }
  }

  // ---- when the order of two dates survives ----

  predicate Before(p: Parts, q: Parts) {
    || p.month < q.month
    || (p.month == q.month && (p.day < q.day || (p.day == q.day && p.time < q.time)))
  }

  lemma OrderInParts(a: Instant, b: Instant)
    ensures a < b <==> Before(PartsOf(a), PartsOf(b))
  {
    assert a == a / DAY * DAY + a % DAY && b == b / DAY * DAY + b % DAY;
    if MonthOf(a) < MonthOf(b) {
      MonthsFollowEachOther(MonthOf(a) + 1, MonthOf(b));
    } else if MonthOf(b) < MonthOf(a) {
      MonthsFollowEachOther(MonthOf(b) + 1, MonthOf(a));
    }
  }

  /** `p` is too late in its month and runs over to or past where `q`, early in the month after, leads. */
  predicate RunsPast(p: Parts, q: Parts, months: nat) {
    var over := p.day - MonthLength(p.month + months);
    && q.month == p.month + 1 && over >= 0 && q.day < MonthLength(q.month + months)
    && (q.day < over || (q.day == over && q.time <= p.time))
  }

  lemma NextPartsKeepOrder(p: Parts, q: Parts, months: nat)
    requires Before(p, q) && p.day < 31 && q.day < 31
    ensures Before(NextParts(p, months), NextParts(q, months)) <==> !RunsPast(p, q, months)
  {
  }

  /** An earlier date leads to an earlier date, unless it runs over. */
  lemma NextDatesKeepOrderExactlyWhen(a: Instant, b: Instant, cycle: Cycle)
    requires a < b
    ensures NextCycleDate(a, cycle) < NextCycleDate(b, cycle) <==>
      cycle == Weekly || !RunsPast(PartsOf(a), PartsOf(b), MonthsIn(cycle))
  {
    if cycle != Weekly {
      OrderInParts(a, b);
      OrderInParts(NextCycleDate(a, cycle), NextCycleDate(b, cycle));
      NextCycleInParts(a, cycle);
      NextCycleInParts(b, cycle);
      NextPartsKeepOrder(PartsOf(a), PartsOf(b), MonthsIn(cycle));
    }
  }

  // ---- repeated cycles, on any calendar ----

  /** What renewal needs of the server's calendar, whatever its time zone does to the length of a day. */
  type Calendar = (Instant, Cycle) -> Instant

  ghost predicate Advances(next: Calendar) {
    forall from: Instant, cycle: Cycle :: next(from, cycle) >= from + DAY
  }

  lemma CycleDatesAdvance()
    ensures Advances(NextCycleDate)
  {
    forall from: Instant, cycle: Cycle ensures NextCycleDate(from, cycle) >= from + DAY {
      NextCycleAdvances(from, cycle);
    }
  }

  function NthDate(next: Calendar, start: Instant, cycle: Cycle, n: nat): Instant {
    if n == 0 then start else next(NthDate(next, start, cycle, n - 1), cycle)
  }

  lemma {:induction false} NthOfNext(next: Calendar, start: Instant, cycle: Cycle, n: nat)
    ensures NthDate(next, next(start, cycle), cycle, n) == NthDate(next, start, cycle, n + 1)
  {
    if n > 0 {
      NthOfNext(next, start, cycle, n - 1);
    }
  }

  lemma {:induction false} LaterDatesAreLater(next: Calendar, start: Instant, cycle: Cycle, n: nat)
    requires Advances(next)
    ensures NthDate(next, start, cycle, n) >= start + n * DAY
  {
    if n > 0 {
      LaterDatesAreLater(next, start, cycle, n - 1);
    }
  }

  /** A day that every month has is kept for ever, so a schedule that ran over once stays on its new day. */
  lemma {:induction false} EarlyDaysAreKept(start: Instant, cycle: Cycle, n: nat)
    requires cycle != Weekly && DayOfMonth(start) < 28
    ensures DayOfMonth(NthDate(NextCycleDate, start, cycle, n)) == DayOfMonth(start)
  {
    if n > 0 {
      EarlyDaysAreKept(start, cycle, n - 1);
      EarlyDayIsKept(NthDate(NextCycleDate, start, cycle, n - 1), cycle);
    }
  }

  lemma EarlyDayIsKept(from: Instant, cycle: Cycle)
    requires cycle != Weekly && DayOfMonth(from) < 28
    ensures DayOfMonth(NextCycleDate(from, cycle)) == DayOfMonth(from)
  {
    DayOfMonthIsKeptExactlyWhen(from, cycle);
  }

  /** From 31 January of year 0 a monthly date goes to 2 March, and is on the second of the month for ever. */
  lemma MonthEndCanMoveForGood(n: nat)
    ensures var date := 30 * DAY;
      && MonthOf(date) == 0 && DayOfMonth(date) == 30
      && NextCycleDate(date, Monthly) == 61 * DAY && DayOfMonth(61 * DAY) == 1
      && DayOfMonth(NthDate(NextCycleDate, NextCycleDate(date, Monthly), Monthly, n)) == 1
  {
    FirstMonths();
    SplitOf(30, 0);
    SplitOf(61, 0);
    MonthIsUnique(30 * DAY, 0);
    MonthIsUnique(61 * DAY, 2);
    EarlyDaysAreKept(61 * DAY, Monthly, n);
  }

  lemma FirstMonths()
    ensures MonthStart(0) == 0 && MonthStart(1) == 31 && MonthStart(2) == 60 && MonthStart(3) == 91
  {
  }
}
