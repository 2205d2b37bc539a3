/** When each dispatch call goes through, and what it leaves in every table. */
module DispatchOutcomes {
  import opened Wrappers
  import opened RowSets
  import opened Scheduling
  import opened BookingLifecycle
  import opened DispatchTables
  import opened Dispatch
  import opened DispatchInvariants
  import opened DispatchRuns

  // ---- what can change, table by table ----

  predicate SameTechnicians(db: Db, db': Db) {
    db'.technicians == db.technicians
  }

  predicate SameAssignments(db: Db, db': Db) {
    db'.assignments == db.assignments
  }

  predicate SameBookings(db: Db, db': Db) {
    db'.bookings == db.bookings && db'.history == db.history
  }

  /** One booking is new, and its history is the one row. */
  predicate BookingAdded(db: Db, db': Db, booking: Booking) {
    var b := |db.bookings|;
    && |db'.bookings| == b + 1 && db'.bookings[..b] == db.bookings && db'.bookings[b] == booking
    && |db'.history| == |db.history| + 1 && db'.history[..|db.history|] == db.history
    && db'.history[|db.history|] == HistoryRow(b, None, Pending, Created)
  }

  /** One booking is now `booking`, and one row is logged about it. */
  predicate BookingChanged(db: Db, db': Db, b: nat, booking: Booking, kind: RowKind) {
    && b < |db.bookings| == |db'.bookings|
    && (forall c | 0 <= c < |db.bookings| && c != b :: db'.bookings[c] == db.bookings[c])
    && db'.bookings[b] == booking
    && |db'.history| == |db.history| + 1 && db'.history[..|db.history|] == db.history
    && db'.history[|db.history|] == HistoryRow(b, Some(db.bookings[b].status), booking.status, kind)
  }

  predicate AssignmentChanged(db: Db, db': Db, a: nat, status: AssignmentStatus) {
    && a < |db.assignments| == |db'.assignments|
    && (forall c | 0 <= c < |db.assignments| && c != a :: db'.assignments[c] == db.assignments[c])
    && db'.assignments[a] == Assignment(db.assignments[a].bookingId, db.assignments[a].technicianId, status)
  }

  predicate AssignmentAdded(assignments: seq<Assignment>, db': Db, b: nat, technicianId: nat) {
    var n := |assignments|;
    && |db'.assignments| == n + 1 && db'.assignments[..n] == assignments
    && db'.assignments[n] == Assignment(b, technicianId, Assigned)
  }

  // ---- placing a booking ----

  /** The undeleted bookings between PENDING and IN_PROGRESS that overlap the window. */
  function Crowd(db: Db, w: Window, except: Option<nat>): set<nat> {
    set b | 0 <= b < |db.bookings| && !db.bookings[b].deleted && Some(b) != except
      && db.bookings[b].status in {Pending, Confirmed, EnRoute, Arrived, InProgress}
      && db.bookings[b].window.start < w.end && db.bookings[b].window.end > w.start
  }

  lemma CrowdHoldsTheSlot(db: Db, w: Window, except: Option<nat>)
    ensures SlotAvailable(db, w, except) <==> |Crowd(db, w, except)| < 5
  {
    assert Crowd(db, w, except) == SlotHolders(db, w, except);
  }

  /** A customer's booking goes through exactly when its window resolves and fewer than five bookings overlap it; it
      is pending, in that window, and placed through the check. */
  lemma CustomerCreates(db: Db, role: Role, start: Option<int>, durationMin: nat, postalCode: string, now: int)
    requires role != Admin
    ensures var result := Call(db, DoCreate(role, start, durationMin, postalCode, now));
      var resolved := ResolveWindow(start, durationMin, false, now);
      && (result.Success? <==> resolved.Success? && |Crowd(db, resolved.value, None)| < 5)
      && (resolved.Success? && |Crowd(db, resolved.value, None)| >= 5 ==> result == Failure(ScheduleConflict))
      && (result.Success? ==>
            && BookingAdded(db, result.value, Booking(resolved.value, Pending, false, postalCode, true))
            && SameAssignments(db, result.value) && SameTechnicians(db, result.value))
  {
    var resolved := ResolveWindow(start, durationMin, false, now);
    if resolved.Success? {
      CrowdHoldsTheSlot(db, resolved.value, None);
    }
  }

  /** An administrator's booking goes through whenever it has a date, at any time and however full the slot, and
      does not count as placed through the check. */
  lemma AdminCreates(db: Db, start: Option<int>, durationMin: nat, postalCode: string, now: int)
    ensures var result := Call(db, DoCreate(Admin, start, durationMin, postalCode, now));
      && (result.Success? <==> start.Some?)
      && (result.Success? ==>
            var w := Window(start.value, start.value + (durationMin + 30) * 60_000);
            && BookingAdded(db, result.value, Booking(w, Pending, false, postalCode, false))
            && SameAssignments(db, result.value) && SameTechnicians(db, result.value))
  {
  }

  lemma VisitIsCreated(db: Db, start: int, postalCode: string)
    ensures var result := Call(db, DoCreateVisit(start, postalCode));
      && result.Success?
      && BookingAdded(db, result.value, Booking(Window(start, start + 60 * 60_000), Pending, false, postalCode, false))
      && SameAssignments(db, result.value) && SameTechnicians(db, result.value)
  {
  }

  /** A reschedule is held to the business rules and to the slot check by whoever asks for it, the booking itself
      left out of the count; customers and technicians may only move a pending or confirmed one. */
  lemma BookingIsRescheduled(db: Db, role: Role, b: nat, start: Option<int>, now: int)
    ensures var result := Call(db, DoReschedule(role, b, start, now));
      && (result.Success? <==>
            && b < |db.bookings| && !db.bookings[b].deleted
            && (role == Admin || db.bookings[b].status in {Pending, Confirmed})
            && var resolved := ResolveWindow(start, DurationOnReschedule(db.bookings[b].window), false, now);
               resolved.Success? && |Crowd(db, resolved.value, Some(b))| < 5)
      && (result.Success? ==>
            var w := ResolveWindow(start, DurationOnReschedule(db.bookings[b].window), false, now).value;
            && BookingChanged(db, result.value, b, db.bookings[b].(window := w, slotChecked := true), Rescheduled)
            && SameAssignments(db, result.value) && SameTechnicians(db, result.value))
  {
    if Exists(db, b) {
      var resolved := ResolveWindow(start, DurationOnReschedule(db.bookings[b].window), false, now);
      if resolved.Success? {
        CrowdHoldsTheSlot(db, resolved.value, Some(b));
      }
    }
  }

  // ---- which bookings were placed through the check, told from the calls ----

  /** The call places booking `b`: a create by anybody but an administrator, or a reschedule. */
  predicate Places(db: Db, op: Op, b: nat) {
    && Call(db, op).Success?
    && ((op.DoCreate? && op.role != Admin && b == |db.bookings|) || (op.DoReschedule? && op.b == b))
  }

  predicate EverPlaced(db: Db, ops: seq<Op>, b: nat)
    decreases |ops|
  {
    ops != [] && (Places(db, ops[0], b) || EverPlaced(Apply(db, ops[0]), ops[1..], b))
  }

  lemma CallPlaces(db: Db, op: Op, b: nat)
    ensures var db' := Apply(db, op);
      && |db.bookings| <= |db'.bookings|
      && (b < |db'.bookings| ==>
            (db'.bookings[b].slotChecked <==> Places(db, op, b) || (b < |db.bookings| && db.bookings[b].slotChecked)))
  {
    match op
    case DoCreate(role, start, durationMin, postalCode, now) =>
      if role == Admin {
        AdminCreates(db, start, durationMin, postalCode, now);
      } else {
        CustomerCreates(db, role, start, durationMin, postalCode, now);
      }
    case DoReschedule(role, moved, start, now) => BookingIsRescheduled(db, role, moved, start, now);
    case _ => OtherCallsPlaceNothing(db, op, b);
  }

  lemma OtherCallsPlaceNothing(db: Db, op: Op, b: nat)
    requires !op.DoCreate? && !op.DoReschedule?
    ensures var db' := Apply(db, op);
      && |db.bookings| <= |db'.bookings|
      && (b < |db'.bookings| ==>
            (db'.bookings[b].slotChecked <==> b < |db.bookings| && db.bookings[b].slotChecked))
  {
  }

  lemma {:induction false} FlagTellsThePlacing(db: Db, ops: seq<Op>, b: nat)
    ensures var db' := Run(db, ops);
      && |db.bookings| <= |db'.bookings|
      && (b < |db'.bookings| ==>
            (db'.bookings[b].slotChecked <==>
              EverPlaced(db, ops, b) || (b < |db.bookings| && db.bookings[b].slotChecked)))
    decreases |ops|
  {
    if ops != [] {
      CallPlaces(db, ops[0], b);
      FlagTellsThePlacing(Apply(db, ops[0]), ops[1..], b);
      if Places(db, ops[0], b) {
        PlacedIsThere(db, ops[0], b);
      }
    }
  }

  lemma PlacedIsThere(db: Db, op: Op, b: nat)
    requires Places(db, op, b)
    ensures b < |Apply(db, op).bookings|
  {
    if op.DoCreate? {
      CustomerCreates(db, op.role, op.start, op.durationMin, op.postalCode, op.now);
    } else {
      BookingIsRescheduled(db, op.role, op.b, op.start, op.now);
    }
  }

  /** The active bookings that cover the instant and were created by a customer or technician, or rescheduled by
      anybody, in the run. */
  function PlacedAt(technicians: seq<Technician>, ops: seq<Op>, t: int): set<nat> {
    var db := Run(Opening(technicians), ops);
    set b | 0 <= b < |db.bookings| && EverPlaced(Opening(technicians), ops, b)
      && !db.bookings[b].deleted && db.bookings[b].status in {Pending, Confirmed, EnRoute, Arrived, InProgress}
      && db.bookings[b].window.start <= t < db.bookings[b].window.end
  }

  /** They are never more than five, however many bookings of administrators and subscriptions there are. */
  lemma PlacedBookingsAreAtMostFive(technicians: seq<Technician>, ops: seq<Op>, t: int)
    ensures |PlacedAt(technicians, ops, t)| <= 5
  {
    var db := Run(Opening(technicians), ops);
    forall b | 0 <= b < |db.bookings| ensures EverPlaced(Opening(technicians), ops, b) <==> db.bookings[b].slotChecked {
      FlagTellsThePlacing(Opening(technicians), ops, b);
    }
    assert PlacedAt(technicians, ops, t) == Depth(db, t);
    SlotDepthIsBounded(technicians, ops, t);
  }

  // ---- moving a booking along ----

  /** The machine: one stage further, a cancellation before the end, or a no-show when confirmed or arrived. */
  lemma AllowedEdges(from: BookingStatus, to: BookingStatus)
    ensures IsTransitionAllowed(from, to) <==>
      || (to in {Confirmed, EnRoute, Arrived, InProgress, BookingStatus.Completed} && Stage(to) == Stage(from) + 1)
      || (to == BookingStatus.Cancelled && Stage(from) < 5)
      || (to == NoShow && from in {Confirmed, Arrived})
  {
  }

  predicate OnlyStatusChanges(db: Db, db': Db, b: nat, next: BookingStatus) {
    && b < |db.bookings| && BookingChanged(db, db', b, db.bookings[b].(status := next), Transitioned)
    && SameAssignments(db, db') && SameTechnicians(db, db')
  }

  /** A customer or technician may cancel a pending or confirmed booking, an administrator any that has not ended. */
  lemma BookingIsCancelled(db: Db, role: Role, b: nat)
    ensures var result := Call(db, DoCancelBooking(role, b));
      && (result.Success? <==>
            && b < |db.bookings| && !db.bookings[b].deleted
            && if role == Admin then Stage(db.bookings[b].status) < 5
               else db.bookings[b].status in {Pending, Confirmed})
      && (result.Success? ==> OnlyStatusChanges(db, result.value, b, BookingStatus.Cancelled))
  {
  }

  /** Administrators may take any edge, technicians any but a cancellation, customers none. */
  lemma StatusIsChanged(db: Db, role: Role, b: nat, next: BookingStatus)
    ensures var result := Call(db, DoChangeStatus(role, b, next));
      && (result.Success? <==>
            && b < |db.bookings| && !db.bookings[b].deleted && IsTransitionAllowed(db.bookings[b].status, next)
            && (role == Admin || (role == TechnicianRole && next != BookingStatus.Cancelled)))
      && (result.Success? ==> OnlyStatusChanges(db, result.value, b, next))
  {
  }

  /** A technician who was ever assigned checks in on the way, within the radius, and out while in progress. */
  lemma TechnicianChecksIn(db: Db, technicianId: nat, b: nat, inRadius: bool)
    ensures var result := Call(db, DoCheckIn(technicianId, b, inRadius));
      && (result.Success? <==>
            && b < |db.bookings| && !db.bookings[b].deleted && inRadius && db.bookings[b].status == EnRoute
            && exists a | 0 <= a < |db.assignments| ::
                 db.assignments[a].bookingId == b && db.assignments[a].technicianId == technicianId)
      && (result.Success? ==> OnlyStatusChanges(db, result.value, b, Arrived))
  {
  }

  lemma TechnicianChecksOut(db: Db, technicianId: nat, b: nat)
    ensures var result := Call(db, DoCheckOut(technicianId, b));
      && (result.Success? <==>
            && b < |db.bookings| && !db.bookings[b].deleted && db.bookings[b].status == InProgress
            && exists a | 0 <= a < |db.assignments| ::
                 db.assignments[a].bookingId == b && db.assignments[a].technicianId == technicianId)
      && (result.Success? ==> OnlyStatusChanges(db, result.value, b, BookingStatus.Completed))
  {
  }

  // ---- assignments ----

  /** Known and available, free at the time, and with fewer than eight jobs starting on the day. */
  predicate CanTake(db: Db, technicianId: nat, w: Window) {
    && technicianId < |db.technicians|
    && !db.technicians[technicianId].deleted && db.technicians[technicianId].isAvailable
    && FreeAt(db, technicianId, w) && |DayJobs(db, technicianId, LocalDay(w.start))| < 8
  }

  lemma GuardsPass(db: Db, technicianId: nat, w: Window)
    ensures Unavailability(db, technicianId, w).None? <==> CanTake(db, technicianId, w)
  {
    FreeMeansNoConflict(db, technicianId, w);
    WorkloadCountsTheDay(db, technicianId, w.start);
  }

  /** And a refusal names the first thing in the way: nobody there, off duty, busy at the time, or a full day. */
  lemma GuardsRefuse(db: Db, technicianId: nat, w: Window)
    ensures var there := technicianId < |db.technicians| && !db.technicians[technicianId].deleted;
      var onDuty := there && db.technicians[technicianId].isAvailable;
      var refusal := Unavailability(db, technicianId, w);
      && (refusal == Some(TechnicianNotFound) <==> !there)
      && (refusal == Some(TechnicianUnavailable) <==> there && !onDuty)
      && (refusal == Some(AssignmentConflict) <==> onDuty && !FreeAt(db, technicianId, w))
      && (refusal == Some(CapacityExceeded) <==>
            onDuty && FreeAt(db, technicianId, w) && |DayJobs(db, technicianId, LocalDay(w.start))| >= 8)
  {
    FreeMeansNoConflict(db, technicianId, w);
    WorkloadCountsTheDay(db, technicianId, w.start);
  }

  /** A named technician is assigned exactly when the booking is there without an active assignment, and he can take
      it or the checks are overridden; bookings and history are not touched. */
  lemma NamedTechnicianIsAssigned(db: Db, b: nat, technicianId: nat, overrideConstraints: bool)
    ensures var result := Call(db, DoAssign(b, Named(technicianId), overrideConstraints));
      && (result.Success? <==>
            && b < |db.bookings| && !db.bookings[b].deleted
            && (forall a | 0 <= a < |db.assignments| && db.assignments[a].bookingId == b ::
                  db.assignments[a].status !in {Assigned, Accepted})
            && if overrideConstraints then technicianId < |db.technicians|
               else CanTake(db, technicianId, db.bookings[b].window))
      && (result.Success? ==>
            && AssignmentAdded(db.assignments, result.value, b, technicianId)
            && SameBookings(db, result.value) && SameTechnicians(db, result.value))
  {
    assert HasActiveAssignment(db, b) <==> !(forall a | 0 <= a < |db.assignments| && db.assignments[a].bookingId == b ::
                                               db.assignments[a].status !in {Assigned, Accepted});
    if b < |db.bookings| {
      GuardsPass(db, technicianId, db.bookings[b].window);
    }
  }

  /** An active assignment is handed to a named technician exactly when he can take the booking or the checks are
      overridden; the old row becomes REASSIGNED and one row is new. */
  lemma NamedTechnicianTakesOver(db: Db, a: nat, technicianId: nat, overrideConstraints: bool)
    requires RefsOk(db)
    ensures var result := Call(db, DoReassign(a, Named(technicianId), overrideConstraints));
      && (result.Success? <==>
            && a < |db.assignments| && db.assignments[a].status in {Assigned, Accepted}
            && if overrideConstraints then technicianId < |db.technicians|
               else CanTake(db, technicianId, db.bookings[db.assignments[a].bookingId].window))
      && (result.Success? ==>
            var released := db.assignments[a];
            && AssignmentAdded(db.assignments[a := Assignment(released.bookingId, released.technicianId, Reassigned)],
                               result.value, released.bookingId, technicianId)
            && SameBookings(db, result.value) && SameTechnicians(db, result.value))
  {
    if a < |db.assignments| {
      GuardsPass(db, technicianId, db.bookings[db.assignments[a].bookingId].window);
    }
  }

  /** An assigned technician, or an administrator, accepts: the row becomes ACCEPTED, and a pending booking confirmed
      with a row in its history. */
  lemma AssignmentIsAccepted(db: Db, a: nat, actor: Option<nat>)
    requires RefsOk(db)
    ensures var result := Call(db, DoAccept(a, actor));
      && (result.Success? <==>
            && a < |db.assignments| && db.assignments[a].status == Assigned
            && (actor == None || actor == Some(db.assignments[a].technicianId)))
      && (result.Success? ==>
            var b := db.assignments[a].bookingId;
            && AssignmentChanged(db, result.value, a, Accepted) && SameTechnicians(db, result.value)
            && if db.bookings[b].status == Pending
               then BookingChanged(db, result.value, b, db.bookings[b].(status := Confirmed), Transitioned)
               else SameBookings(db, result.value))
  {
  }

  lemma AssignmentIsDeclined(db: Db, a: nat, actor: Option<nat>)
    requires RefsOk(db)
    ensures var result := Call(db, DoReject(a, actor));
      && (result.Success? <==>
            && a < |db.assignments| && db.assignments[a].status == Assigned
            && (actor == None || actor == Some(db.assignments[a].technicianId)))
      && (result.Success? ==>
            AssignmentChanged(db, result.value, a, Declined)
            && SameBookings(db, result.value) && SameTechnicians(db, result.value))
  {
  }

  lemma AssignmentIsCancelled(db: Db, a: nat)
    ensures var result := Call(db, DoCancelAssignment(a));
      && (result.Success? <==> a < |db.assignments| && db.assignments[a].status in {Assigned, Accepted})
      && (result.Success? ==>
            AssignmentChanged(db, result.value, a, AssignmentStatus.Cancelled)
            && SameBookings(db, result.value) && SameTechnicians(db, result.value))
  {
  }

  lemma AvailabilityIsSet(db: Db, technicianId: nat, isAvailable: bool)
    ensures var result := Call(db, DoSetAvailability(technicianId, isAvailable));
      && (result.Success? <==> technicianId < |db.technicians|)
      && (result.Success? ==>
            && SameBookings(db, result.value) && SameAssignments(db, result.value)
            && |result.value.technicians| == |db.technicians|
            && (forall t | 0 <= t < |db.technicians| && t != technicianId ::
                  result.value.technicians[t] == db.technicians[t])
            && var before, after := db.technicians[technicianId], result.value.technicians[technicianId];
               after == Technician(before.deleted, isAvailable, before.postalCodes))
  {
  }

  /** A call that is refused changes nothing. */
  lemma RefusalChangesNothing(db: Db, op: Op)
    requires Call(db, op).Failure?
    ensures Apply(db, op) == db
  {
  }
}
