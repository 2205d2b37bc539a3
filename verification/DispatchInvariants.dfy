/** What every run of the dispatch calls keeps. */
module DispatchInvariants {
  import opened Wrappers
  import opened RowSets
  import opened Scheduling
  import opened BookingLifecycle
  import opened DispatchTables
  import opened Dispatch

  ghost predicate CoreInv(db: Db) {
    RefsOk(db) && OneActivePerBooking(db) && SlotsOk(db) && HistoryOk(db)
  }

  ghost predicate TechniciansOk(db: Db) {
    NoDoubleBooking(db) && DailyLoadsOk(db)
  }

  lemma EmptyTablesAreInOrder(technicians: seq<Technician>)
    ensures CoreInv(Db([], [], technicians, [])) && TechniciansOk(Db([], [], technicians, []))
  {
    var db := Db([], [], technicians, []);
    forall t: int ensures Depth(db, t) == {} {
    }
    forall technicianId: nat, day: int ensures DayJobs(db, technicianId, day) == {} {
    }
  }

  // ---- the unconditional invariants, row update by row update ----

  lemma AddBookingKeepsSlots(db: Db, booking: Booking)
    requires SlotsOk(db)
    requires booking.slotChecked ==> SlotAvailable(db, booking.window, None)
    ensures SlotsOk(AddBooking(db, booking))
  {
    var db' := AddBooking(db, booking);
    forall t: int ensures |Depth(db', t)| <= MAX_CONCURRENT_PER_SLOT {
      if booking.slotChecked && Covers(booking.window, t) {
        SubsetCount(Depth(db, t), SlotHolders(db, booking.window, None));
        SubsetCount(Depth(db', t), Depth(db, t) + {|db.bookings|});
      } else {
        SubsetCount(Depth(db', t), Depth(db, t));
      }
    }
  }

  /** A subscription's visit counts against later slot checks that overlap it, but not towards the bound; it takes
      nobody's time, and its history is the one row. */
  lemma VisitHoldsASlotUnchecked(db: Db, start: int, postalCode: string)
    requires HistoryOk(db)
    ensures var db', b := CreateVisit(db, start, postalCode), |db.bookings|;
      var w := Window(start, start + 60 * MINUTE);
      && (forall v: Window :: SlotHolders(db', v, None) ==
            SlotHolders(db, v, None) + if Overlaps(w, v) then {b} else {})
      && (forall t: int :: Depth(db', t) == Depth(db, t))
      && (forall a: nat | a < |db.assignments| && db.assignments[a].bookingId < b ::
            Occupies(db', a) <==> Occupies(db, a))
      && HistoryOf(db'.history, b) == [HistoryRow(b, None, Pending, Created)]
  {
    var db', b := CreateVisit(db, start, postalCode), |db.bookings|;
    OneRowForTheNewBooking(db);
    forall v: Window
      ensures SlotHolders(db', v, None) ==
        SlotHolders(db, v, None) + if Overlaps(Window(start, start + 60 * MINUTE), v) then {b} else {}
    {
      assert forall c: nat | c < b :: HoldsSlot(db', c) <==> HoldsSlot(db, c);
    }
  }

  lemma OneRowForTheNewBooking(db: Db)
    requires HistoryOk(db)
    ensures var row := HistoryRow(|db.bookings|, None, Pending, Created);
      HistoryOf(db.history + [row], |db.bookings|) == [row]
  {
    HistoryAfterAppend(db.history, HistoryRow(|db.bookings|, None, Pending, Created), |db.bookings|);
    NoRowsYet(db.history, |db.bookings|);
  }

  lemma MoveBookingKeepsSlots(db: Db, b: nat, w: Window)
    requires SlotsOk(db) && b < |db.bookings| && SlotAvailable(db, w, Some(b))
    ensures SlotsOk(MoveBooking(db, b, w))
  {
    var db' := MoveBooking(db, b, w);
    forall t: int ensures |Depth(db', t)| <= MAX_CONCURRENT_PER_SLOT {
      if Covers(w, t) {
        SubsetCount(Depth(db, t) - {b}, SlotHolders(db, w, Some(b)));
        SubsetCount(Depth(db', t), Depth(db, t) - {b} + {b});
      } else {
        SubsetCount(Depth(db', t), Depth(db, t));
      }
    }
  }

  lemma SetStatusKeepsSlots(db: Db, b: nat, next: BookingStatus)
    requires SlotsOk(db) && b < |db.bookings| && IsTransitionAllowed(db.bookings[b].status, next)
    ensures SlotsOk(SetBookingStatus(db, b, next))
  {
    var db' := SetBookingStatus(db, b, next);
    forall t: int ensures |Depth(db', t)| <= MAX_CONCURRENT_PER_SLOT {
      SubsetCount(Depth(db', t), Depth(db, t));
    }
  }

  lemma AddBookingKeepsHistory(db: Db, booking: Booking)
    requires HistoryOk(db) && booking.status == Pending
    ensures HistoryOk(AddBooking(db, booking))
  {
    var row := HistoryRow(|db.bookings|, None, Pending, Created);
    NoRowsYet(db.history, |db.bookings|);
    forall b | 0 <= b <= |db.bookings|
      ensures HistoryOf(db.history + [row], b) == if b == |db.bookings| then [row] else HistoryOf(db.history, b)
    {
      HistoryAfterAppend(db.history, row, b);
    }
  }

  lemma {:induction false} NoRowsYet(history: seq<HistoryRow>, b: nat)
    requires forall r | 0 <= r < |history| :: history[r].bookingId < b
    ensures HistoryOf(history, b) == []
  {
    if history != [] {
      NoRowsYet(history[..|history| - 1], b);
    }
  }

  /** Any update of one booking's row that logs a fitting history row. */
  lemma LoggedUpdateKeepsHistory(db: Db, b: nat, updated: Booking, row: HistoryRow)
    requires HistoryOk(db) && b < |db.bookings|
    requires row.bookingId == b && FollowsOn(row, db.bookings[b].status) && row.next == updated.status
    ensures HistoryOk(db.(bookings := db.bookings[b := updated], history := db.history + [row]))
  {
    forall c | 0 <= c < |db.bookings|
      ensures Replays(HistoryOf(db.history + [row], c), db.bookings[b := updated][c].status)
    {
      HistoryAfterAppend(db.history, row, c);
      if c == b {
        ReplayExtends(HistoryOf(db.history, b), db.bookings[b].status, row);
      }
    }
  }

  lemma AddBookingKeepsCore(db: Db, booking: Booking)
    requires CoreInv(db)
    requires booking.status == Pending && booking.window.start < booking.window.end
    requires booking.slotChecked ==> SlotAvailable(db, booking.window, None)
    ensures CoreInv(AddBooking(db, booking))
  {
    AddBookingKeepsSlots(db, booking);
    AddBookingKeepsHistory(db, booking);
    assert forall a: nat :: IsActive(AddBooking(db, booking), a) <==> IsActive(db, a);
  }

  lemma MoveBookingKeepsCore(db: Db, b: nat, w: Window)
    requires CoreInv(db) && b < |db.bookings| && w.start < w.end && SlotAvailable(db, w, Some(b))
    ensures CoreInv(MoveBooking(db, b, w))
  {
    MoveBookingKeepsSlots(db, b, w);
    LoggedUpdateKeepsHistory(db, b, db.bookings[b].(window := w, slotChecked := true),
                             HistoryRow(b, Some(db.bookings[b].status), db.bookings[b].status, Rescheduled));
    assert forall a: nat :: IsActive(MoveBooking(db, b, w), a) <==> IsActive(db, a);
  }

  lemma SetStatusKeepsCore(db: Db, b: nat, next: BookingStatus)
    requires CoreInv(db) && b < |db.bookings| && IsTransitionAllowed(db.bookings[b].status, next)
    ensures CoreInv(SetBookingStatus(db, b, next))
  {
    SetStatusKeepsSlots(db, b, next);
    LoggedUpdateKeepsHistory(db, b, db.bookings[b].(status := next),
                             HistoryRow(b, Some(db.bookings[b].status), next, Transitioned));
    assert forall a: nat :: IsActive(SetBookingStatus(db, b, next), a) <==> IsActive(db, a);
  }

  lemma SameBookingsKeepSlotsAndHistory(db: Db, db': Db)
    requires SlotsOk(db) && HistoryOk(db) && db'.bookings == db.bookings && db'.history == db.history
    ensures SlotsOk(db') && HistoryOk(db')
  {
    forall t: int ensures |Depth(db', t)| <= MAX_CONCURRENT_PER_SLOT {
      assert Depth(db', t) == Depth(db, t);
    }
  }

  lemma SetAssignmentKeepsCore(db: Db, a: nat, next: AssignmentStatus)
    requires CoreInv(db) && a < |db.assignments|
    requires next in ACTIVE_ASSIGNMENT_STATUSES ==> IsActive(db, a)
    ensures CoreInv(SetAssignmentStatus(db, a, next))
  {
    var db' := SetAssignmentStatus(db, a, next);
    SameBookingsKeepSlotsAndHistory(db, db');
    assert forall i: nat | IsActive(db', i) :: IsActive(db, i);
  }

  lemma AddAssignmentKeepsCore(db: Db, b: nat, technicianId: nat)
    requires CoreInv(db) && b < |db.bookings| && technicianId < |db.technicians| && !HasActiveAssignment(db, b)
    ensures CoreInv(AddAssignment(db, b, technicianId))
  {
    var db' := AddAssignment(db, b, technicianId);
    SameBookingsKeepSlotsAndHistory(db, db');
    assert forall i: nat | IsActive(db', i) && i < |db.assignments| ::
      IsActive(db, i) && db.assignments[i].bookingId != b;
  }

  lemma DeactivatedBookingIsFree(db: Db, a: nat)
    requires CoreInv(db) && IsActive(db, a)
    ensures !HasActiveAssignment(SetAssignmentStatus(db, a, Reassigned), db.assignments[a].bookingId)
  {
  }

  lemma BookingCallKeepsCore(db: Db, op: Op)
    requires CoreInv(db) && Call(db, op).Success? && !AssignmentCall(op)
    ensures CoreInv(Apply(db, op))
  {
    match op
    case DoCreate(role, start, durationMin, postalCode, now) =>
      var w := ResolveWindow(start, durationMin, role == Admin, now).value;
      AddBookingKeepsCore(db, Booking(w, Pending, false, postalCode, role != Admin));
    case DoCreateVisit(start, postalCode) =>
      var w := Window(start, start + DEFAULT_VISIT_DURATION_MIN * MINUTE);
      AddBookingKeepsCore(db, Booking(w, Pending, false, postalCode, false));
    case DoReschedule(role, b, start, now) =>
      MoveBookingKeepsCore(db, b, ResolveWindow(start, DurationOnReschedule(db.bookings[b].window), false, now).value);
    case DoCancelBooking(_, b) => SetStatusKeepsCore(db, b, BookingStatus.Cancelled);
    case DoChangeStatus(_, b, next) => SetStatusKeepsCore(db, b, next);
    case DoCheckIn(_, b, _) => SetStatusKeepsCore(db, b, Arrived);
    case DoCheckOut(_, b) => SetStatusKeepsCore(db, b, BookingStatus.Completed);
  }

  lemma AcceptKeepsCore(db: Db, a: nat, actor: Option<nat>)
    requires CoreInv(db) && Accept(db, a, actor).Success?
    ensures CoreInv(Accept(db, a, actor).value)
  {
    SetAssignmentKeepsCore(db, a, Accepted);
    var b := db.assignments[a].bookingId;
    if db.bookings[b].status == Pending {
      SetStatusKeepsCore(SetAssignmentStatus(db, a, Accepted), b, Confirmed);
    }
  }

  lemma ReassignKeepsCore(db: Db, a: nat, choice: Choice, overrideConstraints: bool)
    requires CoreInv(db) && Reassign(db, a, choice, overrideConstraints).Success?
    ensures CoreInv(Reassign(db, a, choice, overrideConstraints).value)
  {
    var current := db.assignments[a];
    SetAssignmentKeepsCore(db, a, Reassigned);
    DeactivatedBookingIsFree(db, a);
    AddAssignmentKeepsCore(SetAssignmentStatus(db, a, Reassigned), current.bookingId,
      Vetted(db, choice, current.bookingId, Some(current.technicianId), overrideConstraints).value);
  }

  lemma AvailabilityKeepsCore(db: Db, technicianId: nat, isAvailable: bool)
    requires CoreInv(db) && SetOwnAvailability(db, technicianId, isAvailable).Success?
    ensures CoreInv(SetOwnAvailability(db, technicianId, isAvailable).value)
  {
    var db' := SetOwnAvailability(db, technicianId, isAvailable).value;
    SameBookingsKeepSlotsAndHistory(db, db');
    assert forall a: nat :: IsActive(db', a) <==> IsActive(db, a);
  }

  predicate AssignmentCall(op: Op) {
    op.DoAssign? || op.DoReassign? || op.DoAccept? || op.DoReject? || op.DoCancelAssignment? || op.DoSetAvailability?
  }

  lemma CallKeepsCore(db: Db, op: Op)
    requires CoreInv(db)
    ensures CoreInv(Apply(db, op))
  {
    if Call(db, op).Success? {
      if !AssignmentCall(op) {
        BookingCallKeepsCore(db, op);
      }
      match op
      case DoAssign(b, choice, overrideConstraints) =>
        AddAssignmentKeepsCore(db, b, Vetted(db, choice, b, None, overrideConstraints).value);
      case DoReassign(a, choice, overrideConstraints) => ReassignKeepsCore(db, a, choice, overrideConstraints);
      case DoAccept(a, actor) => AcceptKeepsCore(db, a, actor);
      case DoReject(a, _) => SetAssignmentKeepsCore(db, a, Declined);
      case DoCancelAssignment(a) => SetAssignmentKeepsCore(db, a, AssignmentStatus.Cancelled);
      case DoSetAvailability(technicianId, isAvailable) => AvailabilityKeepsCore(db, technicianId, isAvailable);
      case _ =>
    }
  }

  lemma {:induction false} RunKeepsCore(db: Db, ops: seq<Op>)
    requires CoreInv(db)
    ensures CoreInv(Run(db, ops))
    decreases |ops|
  {
    if ops != [] {
      CallKeepsCore(db, ops[0]);
      RunKeepsCore(Apply(db, ops[0]), ops[1..]);
    }
  }

  // ---- assignments and the bookings they are for ----

  /** An accepted assignment has a booking past PENDING, and no call ever completes an assignment. */
  ghost predicate AssignmentsOk(db: Db) {
    forall a | 0 <= a < |db.assignments| ::
      && db.assignments[a].status != AssignmentStatus.Completed
      && db.assignments[a].bookingId < |db.bookings|
      && (db.assignments[a].status == Accepted ==> db.bookings[db.assignments[a].bookingId].status != Pending)
  }

  lemma BookingCallKeepsAssignments(db: Db, op: Op)
    requires AssignmentsOk(db) && Call(db, op).Success? && !AssignmentCall(op)
    ensures AssignmentsOk(Apply(db, op))
  {
  }

  lemma AssignmentCallKeepsAssignments(db: Db, op: Op)
    requires AssignmentsOk(db) && Call(db, op).Success? && AssignmentCall(op)
    ensures AssignmentsOk(Apply(db, op))
  {
  }

  lemma {:induction false} RunKeepsAssignments(db: Db, ops: seq<Op>)
    requires AssignmentsOk(db)
    ensures AssignmentsOk(Run(db, ops))
    decreases |ops|
  {
    if ops != [] {
      if Call(db, ops[0]).Success? {
        if AssignmentCall(ops[0]) {
          AssignmentCallKeepsAssignments(db, ops[0]);
        } else {
          BookingCallKeepsAssignments(db, ops[0]);
        }
      }
      RunKeepsAssignments(Apply(db, ops[0]), ops[1..]);
    }
  }
}
