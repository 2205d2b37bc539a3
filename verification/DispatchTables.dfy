/** The tables that dispatch reads and writes, and the counting queries over them
    (technician-assignment/availability.service.ts, workload.service.ts, bookings/availability.service.ts).

    Rows are never removed, so a row is named by its position.
 */
module DispatchTables {
  import opened Wrappers
  import opened RowSets
  import opened Scheduling
  import opened BookingLifecycle

  datatype AssignmentStatus = Assigned | Accepted | Declined | Reassigned | Cancelled | Completed

  function AssignmentTransitions(from: AssignmentStatus): set<AssignmentStatus> {
    match from
    case Assigned => {Accepted, Declined, Reassigned, AssignmentStatus.Cancelled}
    case Accepted => {AssignmentStatus.Completed, Reassigned, AssignmentStatus.Cancelled}
    case _ => {}
  }

  const ACTIVE_ASSIGNMENT_STATUSES := {Assigned, Accepted}
  const MAX_CONCURRENT_PER_SLOT := 5
  const MAX_DAILY_JOBS := 8

  /** `slotChecked` records whether the present window was placed through the slot check; no code reads it. */
  datatype Booking = Booking(
    window: Window, status: BookingStatus, deleted: bool, postalCode: string, slotChecked: bool)

  datatype Assignment = Assignment(bookingId: nat, technicianId: nat, status: AssignmentStatus)

  datatype Technician = Technician(deleted: bool, isAvailable: bool, postalCodes: set<string>)

  datatype Db = Db(bookings: seq<Booking>, assignments: seq<Assignment>, technicians: seq<Technician>,
                   history: seq<HistoryRow>)

  predicate IsActive(db: Db, a: nat) {
    a < |db.assignments| && db.assignments[a].status in ACTIVE_ASSIGNMENT_STATUSES
  }

  /** Completed and cancelled bookings no longer block a technician; a no-show still does. */
  predicate Live(db: Db, b: nat) {
    && b < |db.bookings|
    && !db.bookings[b].deleted
    && db.bookings[b].status !in {BookingStatus.Completed, BookingStatus.Cancelled}
  }

  predicate Occupies(db: Db, a: nat) {
    IsActive(db, a) && Live(db, db.assignments[a].bookingId)
  }

  function JobWindow(db: Db, a: nat): Window
    requires a < |db.assignments| && db.assignments[a].bookingId < |db.bookings|
  {
    db.bookings[db.assignments[a].bookingId].window
  }

  function Conflicts(db: Db, technicianId: nat, w: Window, exclude: Option<nat>): set<nat> {
    set a | 0 <= a < |db.assignments|
      && Occupies(db, a) && db.assignments[a].technicianId == technicianId
      && exclude != Some(db.assignments[a].bookingId) && Overlaps(JobWindow(db, a), w)
  }

  predicate HasConflict(db: Db, technicianId: nat, w: Window, exclude: Option<nat>) {
    |Conflicts(db, technicianId, w, exclude)| > 0
  }

  function JobsWithin(db: Db, technicianId: nat, period: Window): set<nat> {
    set a | 0 <= a < |db.assignments|
      && Occupies(db, a) && db.assignments[a].technicianId == technicianId
      && Covers(period, JobWindow(db, a).start)
  }

  function DailyWorkload(db: Db, technicianId: nat, ref: int): nat {
    |JobsWithin(db, technicianId, DayBounds(ref))|
  }

  predicate HasDailyCapacity(db: Db, technicianId: nat, ref: int) {
    DailyWorkload(db, technicianId, ref) < MAX_DAILY_JOBS
  }

  /** Bookings that hold a slot. */
  predicate HoldsSlot(db: Db, b: nat) {
    b < |db.bookings| && !db.bookings[b].deleted && db.bookings[b].status in ACTIVE_STATUSES
  }

  function SlotHolders(db: Db, w: Window, exclude: Option<nat>): set<nat> {
    set b | 0 <= b < |db.bookings|
      && HoldsSlot(db, b) && exclude != Some(b) && Overlaps(db.bookings[b].window, w)
  }

  predicate SlotAvailable(db: Db, w: Window, exclude: Option<nat>) {
    |SlotHolders(db, w, exclude)| < MAX_CONCURRENT_PER_SLOT
  }

  // ---- the invariants ----

  /** References point at rows, and every window has positive length. */
  ghost predicate RefsOk(db: Db) {
    && (forall a | 0 <= a < |db.assignments| ::
          db.assignments[a].bookingId < |db.bookings| && db.assignments[a].technicianId < |db.technicians|)
    && (forall b | 0 <= b < |db.bookings| :: db.bookings[b].window.start < db.bookings[b].window.end)
  }

  ghost predicate OneActivePerBooking(db: Db) {
    forall i: nat, j: nat | IsActive(db, i) && IsActive(db, j) && i != j ::
      db.assignments[i].bookingId != db.assignments[j].bookingId
  }

  /** No technician is in two places at once. */
  ghost predicate NoDoubleBooking(db: Db) {
    forall i: nat, j: nat | Occupies(db, i) && Occupies(db, j) && i != j
      && db.assignments[i].technicianId == db.assignments[j].technicianId ::
      !Overlaps(JobWindow(db, i), JobWindow(db, j))
  }

  function DayJobs(db: Db, technicianId: nat, day: int): set<nat> {
    set a | 0 <= a < |db.assignments|
      && Occupies(db, a) && db.assignments[a].technicianId == technicianId
      && LocalDay(JobWindow(db, a).start) == day
  }

  ghost predicate DailyLoadsOk(db: Db) {
    forall technicianId: nat, day: int :: |DayJobs(db, technicianId, day)| <= MAX_DAILY_JOBS
  }

  /** Slot-checked bookings that occupy the instant `t`. */
  function Depth(db: Db, t: int): set<nat> {
    set b | 0 <= b < |db.bookings|
      && HoldsSlot(db, b) && db.bookings[b].slotChecked && Covers(db.bookings[b].window, t)
  }

  ghost predicate SlotsOk(db: Db) {
    forall t: int :: |Depth(db, t)| <= MAX_CONCURRENT_PER_SLOT
  }

  ghost predicate HistoryOk(db: Db) {
    && (forall r | 0 <= r < |db.history| :: db.history[r].bookingId < |db.bookings|)
    && (forall b | 0 <= b < |db.bookings| :: Replays(HistoryOf(db.history, b), db.bookings[b].status))
  }

  lemma WorkloadCountsTheDay(db: Db, technicianId: nat, ref: int)
    ensures JobsWithin(db, technicianId, DayBounds(ref)) == DayJobs(db, technicianId, LocalDay(ref))
  {
  }

  lemma ConflictWitness(db: Db, technicianId: nat, w: Window, exclude: Option<nat>)
    ensures HasConflict(db, technicianId, w, exclude) <==> exists a: nat :: a in Conflicts(db, technicianId, w, exclude)
  {
  }

  /** No live job of the technician overlaps the window. */
  predicate FreeAt(db: Db, technicianId: nat, w: Window) {
    forall a | 0 <= a < |db.assignments| && Occupies(db, a) && db.assignments[a].technicianId == technicianId ::
      !(JobWindow(db, a).start < w.end && JobWindow(db, a).end > w.start)
  }

  lemma FreeMeansNoConflict(db: Db, technicianId: nat, w: Window)
    ensures FreeAt(db, technicianId, w) <==> !HasConflict(db, technicianId, w, None)
  {
    ConflictWitness(db, technicianId, w, None);
    if !FreeAt(db, technicianId, w) {
      var a :| 0 <= a < |db.assignments| && Occupies(db, a) && db.assignments[a].technicianId == technicianId
        && JobWindow(db, a).start < w.end && JobWindow(db, a).end > w.start;
      assert a in Conflicts(db, technicianId, w, None);
    }
  }

  /** However the slot holders are arranged, six slot-checked bookings never overlap two by two. */
  lemma NoCrowdOfSlotHolders(db: Db, crowd: set<nat>)
    requires SlotsOk(db)
    requires forall b | b in crowd :: b < |db.bookings| && HoldsSlot(db, b) && db.bookings[b].slotChecked
    requires forall i, j | i in crowd && j in crowd :: Overlaps(db.bookings[i].window, db.bookings[j].window)
    ensures |crowd| <= MAX_CONCURRENT_PER_SLOT
  {
    if crowd != {} {
      var windows := seq(|db.bookings|, b requires 0 <= b < |db.bookings| => db.bookings[b].window);
      var t := OverlappingWindowsShareAnInstant(windows, crowd);
      assert crowd <= Depth(db, t) by {
        assert forall b | b in crowd :: Covers(windows[b], t);
      }
      SubsetCount(crowd, Depth(db, t));
    }
  }
}
