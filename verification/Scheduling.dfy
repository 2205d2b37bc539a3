/** Time windows and the rules for accepting one (bookings/availability.service.ts).

    Instants are milliseconds.  The server runs on a clock with a fixed offset from UTC, so a local
    day is always 24 hours long.
 */
module Scheduling {
  import opened Wrappers

  const MINUTE := 60_000
  const HOUR := 60 * MINUTE
  const DAY := 24 * HOUR
  const LOCAL_OFFSET := 5 * HOUR + 30 * MINUTE

  const WORKING_HOUR_START := 9
  const WORKING_HOUR_END := 21
  const SLOT_BUFFER_MIN := 30
  const MIN_LEAD_TIME_MIN := 300

  datatype Window = Window(start: int, end: int)

  datatype ScheduleError = InvalidDate | OutsideBusinessHours

  predicate Overlaps(a: Window, b: Window) {
    a.start < b.end && a.end > b.start
  }

  predicate Covers(w: Window, t: int) {
    w.start <= t < w.end
  }

  function LocalDay(t: int): int {
    (t + LOCAL_OFFSET) / DAY
  }

  function TimeOfDay(t: int): int {
    (t + LOCAL_OFFSET) % DAY
  }

  function LocalHour(t: int): int {
    TimeOfDay(t) / HOUR
  }

  function LocalMinute(t: int): int {
    TimeOfDay(t) % HOUR / MINUTE
  }

  /** The instants `dayBounds` computes: midnight before `ref`, and midnight after. */
  function DayBounds(ref: int): Window {
    var midnight := ref - TimeOfDay(ref);
    Window(midnight, midnight + DAY)
  }

  lemma DayBoundsIsTheLocalDay(ref: int, t: int)
    ensures Covers(DayBounds(ref), t) <==> LocalDay(t) == LocalDay(ref)
  {
  }

  /** The business-hours test as coded: it looks at clock hours only. */
  predicate HoursAccepted(w: Window) {
    && LocalHour(w.start) >= WORKING_HOUR_START
    && LocalHour(w.end) + (if LocalMinute(w.end) > 0 then 1 else 0) <= WORKING_HOUR_END
  }

  /** The rule it stands for: from 09:00 to 21:00 of the day on which the visit starts. */
  predicate WithinBusinessHours(w: Window) {
    var midnight := DayBounds(w.start).start;
    midnight + 9 * HOUR <= w.start && w.end <= midnight + 21 * HOUR
  }

  function ResolveWindow(start: Option<int>, durationMin: int, skipBusinessRules: bool, now: int)
    : Result<Window, ScheduleError>
  {
    if start.None? then Failure(InvalidDate)
    else
      var w := Window(start.value, start.value + (durationMin + SLOT_BUFFER_MIN) * MINUTE);
      if skipBusinessRules then Success(w)
      else if w.start < now + MIN_LEAD_TIME_MIN * MINUTE then Failure(InvalidDate)
      else if !HoursAccepted(w) then Failure(OutsideBusinessHours)
      else Success(w)
  }

  lemma ClockReading(t: int)
    ensures t == LocalDay(t) * DAY + LocalHour(t) * HOUR + LocalMinute(t) * MINUTE + t % MINUTE - LOCAL_OFFSET
    ensures 0 <= LocalHour(t) < 24 && 0 <= LocalMinute(t) < 60 && 0 <= t % MINUTE < MINUTE
  {
  }

  /** The coded test admits windows the rule forbids: exactly those that run past midnight, or that
      end within the minute after 21:00. */
  lemma BusinessHoursHoldExactlyWhen(w: Window)
    requires w.start < w.end && HoursAccepted(w)
    ensures WithinBusinessHours(w) <==>
      LocalDay(w.end) == LocalDay(w.start) && (LocalHour(w.end) < 21 || w.end % MINUTE == 0)
  {
    ClockReading(w.start);
    ClockReading(w.end);
    MidnightOf(w.start);
  }

  lemma MidnightOf(t: int)
    ensures DayBounds(t).start == LocalDay(t) * DAY - LOCAL_OFFSET
  {
  }

  /** On whole minutes and within one day the coded test and the rule agree. */
  lemma BusinessHoursTestIsTheRule(w: Window)
    requires w.start < w.end && LocalDay(w.end) == LocalDay(w.start) && w.end % MINUTE == 0
    ensures HoursAccepted(w) <==> WithinBusinessHours(w)
  {
    ClockReading(w.start);
    ClockReading(w.end);
    MidnightOf(w.start);
  }

  /** A customer's request for a visit that ends, buffer included, on a whole minute of the same day is accepted
      exactly when it is five hours ahead and inside business hours, and then for service and buffer together. */
  lemma RequestAcceptedExactlyWhen(start: int, durationMin: nat, now: int)
    requires var end := start + (durationMin + SLOT_BUFFER_MIN) * MINUTE;
      end % MINUTE == 0 && LocalDay(end) == LocalDay(start)
    ensures var w := Window(start, start + (durationMin + SLOT_BUFFER_MIN) * MINUTE);
      var result := ResolveWindow(Some(start), durationMin, false, now);
      && (result.Success? <==> now + 5 * HOUR <= start && WithinBusinessHours(w))
      && (result.Success? ==> result.value == w)
  {
    BusinessHoursTestIsTheRule(Window(start, start + (durationMin + SLOT_BUFFER_MIN) * MINUTE));
  }

  /** A four-hour service requested for 20:30 is accepted although it ends at 01:00. */
  lemma LateEveningVisitIsAccepted()
    ensures var start := 20 * HOUR + 30 * MINUTE - LOCAL_OFFSET;
      var result := ResolveWindow(Some(start), 240, false, start - DAY);
      result.Success? && !WithinBusinessHours(result.value)
  {
  }

  // ---- rescheduling ----

  /** `Math.round` of a quotient: ties go up. */
  function RoundDiv(n: int, d: int): int
    requires d > 0
  {
    (2 * n + d) / (2 * d)
  }

  function DurationOnReschedule(w: Window): int {
    var minutes := RoundDiv(w.end - w.start, MINUTE);
    if minutes < 30 then 30 else minutes
  }

  /** Half an hour at least, and otherwise the length to the nearest minute. */
  lemma DurationIsToTheMinute(w: Window)
    ensures DurationOnReschedule(w) >= 30
    ensures w.end - w.start >= 30 * MINUTE ==>
      w.end - w.start - MINUTE / 2 < DurationOnReschedule(w) * MINUTE <= w.end - w.start + MINUTE / 2
    ensures w.end - w.start <= 30 * MINUTE ==> DurationOnReschedule(w) == 30
  {
    var length := w.end - w.start;
    var minutes := RoundDiv(length, MINUTE);
    assert 2 * length + MINUTE == minutes * (2 * MINUTE) + (2 * length + MINUTE) % (2 * MINUTE);
  }

  /** Whoever is exempt from the rules gets any date; the window is service and buffer. */
  lemma ExemptRequestIsAccepted(start: Option<int>, durationMin: int, now: int)
    ensures ResolveWindow(start, durationMin, true, now) ==
      if start.None? then Failure(InvalidDate)
      else Success(Window(start.value, start.value + (durationMin + 30) * 60_000))
  {
  }

  /** The window after moving it `times` times, each time to the start given by `starts`. */
  function MovedWindow(w: Window, starts: seq<int>): Window {
    if starts == [] then w
    else
      var previous := MovedWindow(w, starts[..|starts| - 1]);
      var start := starts[|starts| - 1];
      Window(start, start + (DurationOnReschedule(previous) + SLOT_BUFFER_MIN) * MINUTE)
  }

  /** The buffer is inside the window that the next reschedule measures, so it is added again each time. */
  lemma {:induction false} BufferAccumulates(durationMin: nat, start: int, starts: seq<int>)
    ensures var booked := Window(start, start + (durationMin + SLOT_BUFFER_MIN) * MINUTE);
      var moved := MovedWindow(booked, starts);
      moved.end - moved.start == (durationMin + SLOT_BUFFER_MIN * (1 + |starts|)) * MINUTE
  {
    if starts != [] {
      BufferAccumulates(durationMin, start, starts[..|starts| - 1]);
    }
  }

  // ---- pairwise overlap and common instants ----

  ghost predicate PairwiseOverlapping(windows: seq<Window>, ids: set<nat>)
  {
    (forall i | i in ids :: i < |windows|) && forall i, j | i in ids && j in ids :: Overlaps(windows[i], windows[j])
  }

  lemma {:induction false} LatestStart(windows: seq<Window>, ids: set<nat>) returns (latest: nat)
    requires ids != {} && forall i | i in ids :: i < |windows|
    ensures latest in ids && forall i | i in ids :: windows[i].start <= windows[latest].start
    decreases |ids|
  {
    var x :| x in ids;
    if ids == {x} {
      latest := x;
    } else {
      var rest := LatestStart(windows, ids - {x});
      latest := if windows[x].start <= windows[rest].start then rest else x;
    }
  }

  /** Windows that overlap two by two all share an instant: the latest of their starts. */
  lemma OverlappingWindowsShareAnInstant(windows: seq<Window>, ids: set<nat>) returns (t: int)
    requires ids != {} && PairwiseOverlapping(windows, ids)
    ensures forall i | i in ids :: Covers(windows[i], t)
  {
    var latest := LatestStart(windows, ids);
    t := windows[latest].start;
  }
}
