/** The dispatch guarantees over whole runs, starting from empty tables. */
module DispatchRuns {
  import opened BookingLifecycle
  import opened DispatchTables
  import opened Dispatch
  import opened DispatchInvariants
  import opened TechnicianCalendar

  function Opening(technicians: seq<Technician>): Db {
    Db([], [], technicians, [])
  }

  lemma OpeningIsInOrder(technicians: seq<Technician>)
    ensures CoreInv(Opening(technicians)) && TechniciansOk(Opening(technicians))
  {
    EmptyTablesAreInOrder(technicians);
  }

  lemma AtMostOneActiveAssignment(technicians: seq<Technician>, ops: seq<Op>, i: nat, j: nat)
    ensures var db := Run(Opening(technicians), ops);
      IsActive(db, i) && IsActive(db, j) && db.assignments[i].bookingId == db.assignments[j].bookingId ==> i == j
  {
    OpeningIsInOrder(technicians);
    RunKeepsCore(Opening(technicians), ops);
  }

  /** At any instant at most five slot-checked bookings are under way, however many unchecked ones there are. */
  lemma SlotDepthIsBounded(technicians: seq<Technician>, ops: seq<Op>, t: int)
    ensures |Depth(Run(Opening(technicians), ops), t)| <= MAX_CONCURRENT_PER_SLOT
  {
    OpeningIsInOrder(technicians);
    RunKeepsCore(Opening(technicians), ops);
  }

  lemma HistoryReplaysToTheStatus(technicians: seq<Technician>, ops: seq<Op>, b: nat)
    ensures var db := Run(Opening(technicians), ops);
      b < |db.bookings| ==>
        var rows := HistoryOf(db.history, b);
        Replays(rows, db.bookings[b].status) && Changes(rows) <= Stage(db.bookings[b].status)
  {
    OpeningIsInOrder(technicians);
    RunKeepsCore(Opening(technicians), ops);
    var db := Run(Opening(technicians), ops);
    if b < |db.bookings| {
      StatusChangesAreBounded(HistoryOf(db.history, b), db.bookings[b].status);
    }
  }

  /** Accepting confirms and nothing takes a booking back to PENDING; and no call ever completes an assignment, so
      a booking that is done still has an active one. */
  lemma AcceptedBookingsAreConfirmed(technicians: seq<Technician>, ops: seq<Op>, a: nat)
    ensures var db := Run(Opening(technicians), ops);
      a < |db.assignments| ==>
        && db.assignments[a].bookingId < |db.bookings|
        && db.assignments[a].status != AssignmentStatus.Completed
        && (db.assignments[a].status == Accepted ==> db.bookings[db.assignments[a].bookingId].status != Pending)
  {
    RunKeepsAssignments(Opening(technicians), ops);
  }

  ghost predicate PlainRun(db: Db, ops: seq<Op>)
    decreases |ops|
  {
    ops == [] || (Plain(db, ops[0]) && PlainRun(Apply(db, ops[0]), ops[1..]))
  }

  lemma {:induction false} PlainRunsAreCareful(db: Db, ops: seq<Op>)
    requires PlainRun(db, ops)
    ensures CarefulRun(db, ops)
    decreases |ops|
  {
    if ops != [] {
      PlainCallsAreCareful(db, ops[0]);
      PlainRunsAreCareful(Apply(db, ops[0]), ops[1..]);
    }
  }

  /** Without overrides and without rescheduling assigned bookings no technician is ever in two places at
      once, and none has more than eight jobs starting on one day. */
  lemma TechniciansAreNeverDoubleBooked(technicians: seq<Technician>, ops: seq<Op>)
    requires PlainRun(Opening(technicians), ops)
    ensures NoDoubleBooking(Run(Opening(technicians), ops)) && DailyLoadsOk(Run(Opening(technicians), ops))
  {
    OpeningIsInOrder(technicians);
    PlainRunsAreCareful(Opening(technicians), ops);
    CalendarStaysInOrderExactlyWhenCareful(Opening(technicians), ops);
    InOrderToTheEnd(Opening(technicians), ops);
  }
}
