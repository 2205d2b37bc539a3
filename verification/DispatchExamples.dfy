/** Short runs from empty tables in which dispatch goes wrong. */
module DispatchExamples {
  import opened Wrappers
  import opened RowSets
  import opened Scheduling
  import opened BookingLifecycle
  import opened DispatchTables
  import opened Ranking
  import opened Dispatch
  import opened DispatchRuns
  import opened AutoAssign

  lemma OneStep(db: Db, op: Op, ops: seq<Op>)
    ensures Run(db, [op] + ops) == Run(Apply(db, op), ops)
  {
    assert ([op] + ops)[1..] == ops;
  }

  lemma LastStep(db: Db, op: Op)
    ensures Run(db, [op]) == Apply(db, op)
  {
    OneStep(db, op, []);
    assert [op] + [] == [op];
  }

  // ---- a reschedule that double-books ----

  const NINE := DAY + 9 * HOUR - LOCAL_OFFSET
  const NOON := DAY + 12 * HOUR - LOCAL_OFFSET
  const ROSTER := [Technician(false, true, {})]

  function Job(start: int, minutes: int, slotChecked: bool): Booking {
    Booking(Window(start, start + minutes * MINUTE), Pending, false, "560001", slotChecked)
  }

  function Booked(b: nat): HistoryRow {
    HistoryRow(b, None, Pending, Created)
  }

  const BOOKED := Db([Job(NINE, 90, false), Job(NOON, 90, false)], [], ROSTER, [Booked(0), Booked(1)])
  const HALF_ASSIGNED := BOOKED.(assignments := [Assignment(0, 0, Assigned)])
  const ASSIGNED := BOOKED.(assignments := [Assignment(0, 0, Assigned), Assignment(1, 0, Assigned)])

  const BOOKING_CALLS := [DoCreate(Admin, Some(NINE), 60, "560001", 0), DoCreate(Admin, Some(NOON), 60, "560001", 0)]
  const ASSIGNING_CALLS := [DoAssign(0, Named(0), false), DoAssign(1, Named(0), false)]

  lemma TwoBookings(ops: seq<Op>)
    ensures Run(Opening(ROSTER), BOOKING_CALLS + ops) == Run(BOOKED, ops)
  {
    var first := Db([Job(NINE, 90, false)], [], ROSTER, [Booked(0)]);
    assert BOOKING_CALLS + ops == [BOOKING_CALLS[0]] + ([BOOKING_CALLS[1]] + ops);
    OneStep(Opening(ROSTER), BOOKING_CALLS[0], [BOOKING_CALLS[1]] + ops);
    assert Apply(Opening(ROSTER), BOOKING_CALLS[0]) == first;
    OneStep(first, BOOKING_CALLS[1], ops);
    assert first.bookings + [Job(NOON, 90, false)] == BOOKED.bookings;
    assert first.history + [Booked(1)] == BOOKED.history;
    assert Apply(first, BOOKING_CALLS[1]) == BOOKED;
  }

  lemma FirstAssignment()
    ensures Apply(BOOKED, DoAssign(0, Named(0), false)) == HALF_ASSIGNED
  {
    assert Conflicts(BOOKED, 0, BOOKED.bookings[0].window, None) == {};
    assert JobsWithin(BOOKED, 0, DayBounds(NINE)) == {};
    assert Vetted(BOOKED, Named(0), 0, None, false) == Success(0);
  }

  lemma SecondAssignment()
    ensures Apply(HALF_ASSIGNED, DoAssign(1, Named(0), false)) == ASSIGNED
  {
    assert Conflicts(HALF_ASSIGNED, 0, HALF_ASSIGNED.bookings[1].window, None) == {};
    SubsetCount(JobsWithin(HALF_ASSIGNED, 0, DayBounds(NOON)), {0});
    assert Vetted(HALF_ASSIGNED, Named(0), 1, None, false) == Success(0);
    assert HALF_ASSIGNED.assignments + [Assignment(1, 0, Assigned)] == ASSIGNED.assignments;
  }

  lemma TwoJobs(ops: seq<Op>)
    ensures Run(Opening(ROSTER), BOOKING_CALLS + (ASSIGNING_CALLS + ops)) == Run(ASSIGNED, ops)
  {
    TwoBookings(ASSIGNING_CALLS + ops);
    assert ASSIGNING_CALLS + ops == [ASSIGNING_CALLS[0]] + ([ASSIGNING_CALLS[1]] + ops);
    OneStep(BOOKED, ASSIGNING_CALLS[0], [ASSIGNING_CALLS[1]] + ops);
    FirstAssignment();
    OneStep(HALF_ASSIGNED, ASSIGNING_CALLS[1], ops);
    SecondAssignment();
  }

  /** Two bookings given to one technician, and the customer moves the second onto the first. */
  lemma RescheduleCanDoubleBook()
    ensures var move := DoReschedule(Customer, 1, Some(NINE), 0);
      && NoDoubleBooking(Run(Opening(ROSTER), BOOKING_CALLS + (ASSIGNING_CALLS + [])))
      && Call(Run(Opening(ROSTER), BOOKING_CALLS + (ASSIGNING_CALLS + [])), move).Success?
      && !NoDoubleBooking(Run(Opening(ROSTER), BOOKING_CALLS + (ASSIGNING_CALLS + [move])))
  {
    var move := DoReschedule(Customer, 1, Some(NINE), 0);
    TwoJobs([]);
    TwoJobs([move]);
    LastStep(ASSIGNED, move);
    MovedOntoTheFirst();
  }

  lemma MovedOntoTheFirst()
    ensures NoDoubleBooking(ASSIGNED)
    ensures Reschedule(ASSIGNED, Customer, 1, Some(NINE), 0).Success?
    ensures !NoDoubleBooking(Apply(ASSIGNED, DoReschedule(Customer, 1, Some(NINE), 0)))
  {
    var w := Window(NINE, NINE + 120 * MINUTE);
    assert ResolveWindow(Some(NINE), DurationOnReschedule(ASSIGNED.bookings[1].window), false, 0) == Success(w);
    assert SlotHolders(ASSIGNED, w, Some(1)) <= {0};
    SubsetCount(SlotHolders(ASSIGNED, w, Some(1)), {0});
    var moved := MoveBooking(ASSIGNED, 1, w);
    assert Occupies(moved, 0) && Occupies(moved, 1) && Overlaps(JobWindow(moved, 0), JobWindow(moved, 1));
  }

  // ---- an off-duty technician in the way ----

  /** The only in-area technician is off duty, an available one serves another area: whatever is booked, it cannot
      be assigned automatically. */
  lemma OffDutyTechnicianBlocksAutoAssign(start: int, durationMin: nat, now: int, distances: map<nat, Kilometres>)
    ensures var roster := [Technician(false, false, {"560001"}), Technician(false, true, {})];
      var db := Run(Opening(roster), [DoCreate(Admin, Some(start), durationMin, "560001", now)]);
      && Assign(db, 0, Auto(distances), false) == Failure(TechnicianUnavailable)
      && Assign(db, 0, Named(1), false).Success?
  {
    var roster := [Technician(false, false, {"560001"}), Technician(false, true, {})];
    var create := DoCreate(Admin, Some(start), durationMin, "560001", now);
    LastStep(Opening(roster), create);
    var db := Apply(Opening(roster), create);
    assert db.bookings == [Job(start, durationMin + SLOT_BUFFER_MIN, false)] && db.assignments == [];
    BothAreEligible(db);
    TheOffDutyOneIsBest(db, distances);
    AutoAssignSucceedsExactlyWhen(db, 0, distances);
  }

  lemma BothAreEligible(db: Db)
    requires |db.bookings| == 1 && db.assignments == [] && |db.technicians| == 2
    requires !db.technicians[0].deleted && !db.technicians[1].deleted
    ensures Eligible(db, 0, None, 0) && Eligible(db, 0, None, 1)
  {
    forall t: nat | t < 2 ensures Eligible(db, 0, None, t) {
      assert Conflicts(db, t, db.bookings[0].window, None) == {};
      assert JobsWithin(db, t, DayBounds(db.bookings[0].window.start)) == {};
    }
  }

  lemma TheOffDutyOneIsBest(db: Db, distances: map<nat, Kilometres>)
    requires |db.bookings| == 1 && Eligible(db, 0, None, 0)
    requires db.technicians == [Technician(false, false, {"560001"}), Technician(false, true, {})]
    requires db.bookings[0].postalCode == "560001"
    ensures Rank(db, 0, None, distances) != [] && !Rank(db, 0, None, distances)[0].isAvailable
  {
    PickedIsBest(db, 0, None, distances, 0);
    RankingIsExact(db, 0, None, distances);
    var best := Rank(db, 0, None, distances)[0];
    assert Genuine(db, 0, None, distances, best);
    if best.technicianId == 1 {
      var start := db.bookings[0].window.start;
      AreaComesFirst(0, false, DailyWorkload(db, 0, start), if 0 in distances then Some(distances[0]) else None,
                     1, true, DailyWorkload(db, 1, start), if 1 in distances then Some(distances[1]) else None);
    }
  }
}
