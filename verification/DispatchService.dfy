/** The same calls as they run: checks that return early, then row updates in place. */
module DispatchService {
  import opened Wrappers
  import opened Scheduling
  import opened BookingLifecycle
  import opened DispatchTables
  import opened Ranking
  import opened Dispatch
  import opened DispatchInvariants
  import opened TechnicianCalendar

  /** What a call leaves behind, compared with what its specification says of the tables before it. */
  ghost predicate Agrees(before: Db, spec: Result<Db, Error>, after: Db, thrown: Option<Error>) {
    match spec
    case Success(db) => thrown == None && after == db
    case Failure(error) => thrown == Some(error) && after == before
  }

  /** The invariants hold after the call, and the technicians' calendars are in order after it exactly when the
      call was careful. */
  ghost predicate Keeps(before: Db, op: Op, after: Db) {
    CoreInv(after) && (TechniciansOk(before) ==> (TechniciansOk(after) <==> Careful(before, op)))
  }

  lemma CallKeeps(before: Db, op: Op)
    requires CoreInv(before)
    ensures Keeps(before, op, Apply(before, op))
  {
    CallKeepsCore(before, op);
    if TechniciansOk(before) {
      CallKeepsTechniciansExactlyWhenCareful(before, op);
    }
  }

  lemma AgreedCallKeeps(before: Db, op: Op, after: Db, thrown: Option<Error>)
    requires CoreInv(before) && Agrees(before, Call(before, op), after, thrown)
    ensures Keeps(before, op, after)
  {
    assert after == Apply(before, op);
    CallKeeps(before, op);
  }

  class Service {
    var bookings: seq<Booking>
    var assignments: seq<Assignment>
    var technicians: seq<Technician>
    var history: seq<HistoryRow>

    constructor (technicians: seq<Technician>)
      ensures Tables() == Db([], [], technicians, []) && CoreInv(Tables()) && TechniciansOk(Tables())
    {
      bookings, assignments, this.technicians, history := [], [], technicians, [];
      EmptyTablesAreInOrder(technicians);
    }

    function Tables(): Db
      reads this
    {
      Db(bookings, assignments, technicians, history)
    }

    method ApplyTransition(b: nat, next: BookingStatus) returns (thrown: Option<Error>)
      requires b < |bookings|
      modifies this
      ensures Agrees(old(Tables()), Transition(old(Tables()), b, next), Tables(), thrown)
      ensures old(CoreInv(Tables())) ==> CoreInv(Tables())
    {
      if CoreInv(Tables()) && Transition(Tables(), b, next).Success? {
        SetStatusKeepsCore(Tables(), b, next);
      }
      var current := bookings[b].status;
      if current == next || next !in BookingTransitions(current) {
        return Some(InvalidStatusTransition);
      }
      bookings := bookings[b := bookings[b].(status := next)];
      history := history + [HistoryRow(b, Some(current), next, Transitioned)];
      return None;
    }

    method CreateBooking(role: Role, start: Option<int>, durationMin: nat, postalCode: string, now: int)
      returns (thrown: Option<Error>)
      requires CoreInv(Tables())
      modifies this
      ensures Agrees(old(Tables()), Create(old(Tables()), role, start, durationMin, postalCode, now), Tables(), thrown)
      ensures Keeps(old(Tables()), DoCreate(role, start, durationMin, postalCode, now), Tables())
    {
      CallKeeps(Tables(), DoCreate(role, start, durationMin, postalCode, now));
      var resolved := ResolveWindow(start, durationMin, role == Admin, now);
      if resolved.Failure? {
        return Some(BadWindow(resolved.error));
      }
      if role != Admin {
        var overlapping := SlotHolders(Tables(), resolved.value, None);
        if |overlapping| >= MAX_CONCURRENT_PER_SLOT {
          return Some(ScheduleConflict);
        }
      }
      history := history + [HistoryRow(|bookings|, None, Pending, Created)];
      bookings := bookings + [Booking(resolved.value, Pending, false, postalCode, role != Admin)];
      return None;
    }

    method GenerateVisit(start: int, postalCode: string)
      requires CoreInv(Tables())
      modifies this
      ensures Tables() == CreateVisit(old(Tables()), start, postalCode)
      ensures Keeps(old(Tables()), DoCreateVisit(start, postalCode), Tables())
    {
      CallKeeps(Tables(), DoCreateVisit(start, postalCode));
      var end := start + DEFAULT_VISIT_DURATION_MIN * MINUTE;
      history := history + [HistoryRow(|bookings|, None, Pending, Created)];
      bookings := bookings + [Booking(Window(start, end), Pending, false, postalCode, false)];
    }

    method RescheduleBooking(role: Role, b: nat, start: Option<int>, now: int) returns (thrown: Option<Error>)
      requires CoreInv(Tables())
      modifies this
      ensures Agrees(old(Tables()), Reschedule(old(Tables()), role, b, start, now), Tables(), thrown)
      ensures Keeps(old(Tables()), DoReschedule(role, b, start, now), Tables())
    {
      CallKeeps(Tables(), DoReschedule(role, b, start, now));
      if !Exists(Tables(), b) {
        return Some(BookingNotFound);
      }
      var booking := bookings[b];
      if role != Admin && booking.status !in CANCELLABLE_BY_CUSTOMER {
        return Some(InvalidBookingStatus);
      }
      var resolved := ResolveWindow(start, DurationOnReschedule(booking.window), false, now);
      if resolved.Failure? {
        return Some(BadWindow(resolved.error));
      }
      if |SlotHolders(Tables(), resolved.value, Some(b))| >= MAX_CONCURRENT_PER_SLOT {
        return Some(ScheduleConflict);
      }
      bookings := bookings[b := booking.(window := resolved.value, slotChecked := true)];
      history := history + [HistoryRow(b, Some(booking.status), booking.status, Rescheduled)];
      return None;
    }

    method Cancel(role: Role, b: nat) returns (thrown: Option<Error>)
      requires CoreInv(Tables())
      modifies this
      ensures Agrees(old(Tables()), CancelBooking(old(Tables()), role, b), Tables(), thrown)
      ensures Keeps(old(Tables()), DoCancelBooking(role, b), Tables())
    {
      CallKeeps(Tables(), DoCancelBooking(role, b));
      if !Exists(Tables(), b) {
        return Some(BookingNotFound);
      }
      if role != Admin && bookings[b].status !in CANCELLABLE_BY_CUSTOMER {
        return Some(InvalidBookingStatus);
      }
      thrown := ApplyTransition(b, BookingStatus.Cancelled);
    }

    method SetStatus(role: Role, b: nat, next: BookingStatus) returns (thrown: Option<Error>)
      requires CoreInv(Tables())
      modifies this
      ensures Agrees(old(Tables()), ChangeStatus(old(Tables()), role, b, next), Tables(), thrown)
      ensures Keeps(old(Tables()), DoChangeStatus(role, b, next), Tables())
    {
      CallKeeps(Tables(), DoChangeStatus(role, b, next));
      if !Exists(Tables(), b) {
        return Some(BookingNotFound);
      }
      if (role == TechnicianRole && next !in TECHNICIAN_SETTABLE) || role == Customer {
        return Some(Forbidden);
      }
      thrown := ApplyTransition(b, next);
    }

    method GpsCheckIn(technicianId: nat, b: nat, inRadius: bool) returns (thrown: Option<Error>)
      requires CoreInv(Tables())
      modifies this
      ensures Agrees(old(Tables()), CheckIn(old(Tables()), technicianId, b, inRadius), Tables(), thrown)
      ensures Keeps(old(Tables()), DoCheckIn(technicianId, b, inRadius), Tables())
    {
      CallKeeps(Tables(), DoCheckIn(technicianId, b, inRadius));
      if !Exists(Tables(), b) || !EverAssigned(Tables(), b, technicianId) {
        return Some(Forbidden);
      }
      if !inRadius {
        return Some(CheckInOutsideRadius);
      }
      thrown := ApplyTransition(b, Arrived);
    }

    method GpsCheckOut(technicianId: nat, b: nat) returns (thrown: Option<Error>)
      requires CoreInv(Tables())
      modifies this
      ensures Agrees(old(Tables()), CheckOut(old(Tables()), technicianId, b), Tables(), thrown)
      ensures Keeps(old(Tables()), DoCheckOut(technicianId, b), Tables())
    {
      CallKeeps(Tables(), DoCheckOut(technicianId, b));
      if !Exists(Tables(), b) || !EverAssigned(Tables(), b, technicianId) {
        return Some(Forbidden);
      }
      thrown := ApplyTransition(b, BookingStatus.Completed);
    }

    /** `assertAvailable` */
    method AssertAvailable(technicianId: nat, w: Window) returns (thrown: Option<Error>)
      ensures thrown == Unavailability(Tables(), technicianId, w)
    {
      if technicianId >= |technicians| || technicians[technicianId].deleted {
        return Some(TechnicianNotFound);
      }
      if !technicians[technicianId].isAvailable {
        return Some(TechnicianUnavailable);
      }
      if HasConflict(Tables(), technicianId, w, None) {
        return Some(AssignmentConflict);
      }
      if !HasDailyCapacity(Tables(), technicianId, w.start) {
        return Some(CapacityExceeded);
      }
      return None;
    }

    method VetTechnician(choice: Choice, b: nat, exclude: Option<nat>, overrideConstraints: bool)
      returns (vetted: Result<nat, Error>)
      requires b < |bookings|
      ensures vetted == Vetted(Tables(), choice, b, exclude, overrideConstraints)
      ensures vetted.Success? && !overrideConstraints && CoreInv(Tables()) && TechniciansOk(Tables()) ==>
        TechniciansOk(AddAssignment(Tables(), b, vetted.value))
    {
      if CoreInv(Tables()) && TechniciansOk(Tables()) && Vetted(Tables(), choice, b, exclude, false).Success? {
        VettedKeepsTechnicians(Tables(), choice, b, exclude);
      }
      var technicianId;
      match choice {
        case Named(named) => technicianId := named;
        case Auto(distances) =>
          if bookings[b].deleted {
            return Failure(BookingNotFound);
          }
          var ranked := RankCandidates(Tables(), b, exclude, distances);
          if ranked == [] {
            return Failure(TechnicianUnavailable);
          }
          technicianId := ranked[0].technicianId;
      }
      if !overrideConstraints {
        var refusal := AssertAvailable(technicianId, bookings[b].window);
        if refusal.Some? {
          return Failure(refusal.value);
        }
      }
      if technicianId >= |technicians| {
        return Failure(ForeignKeyViolation);
      }
      return Success(technicianId);
    }

    method AssignTechnician(b: nat, choice: Choice, overrideConstraints: bool) returns (thrown: Option<Error>)
      requires CoreInv(Tables())
      modifies this
      ensures Agrees(old(Tables()), Assign(old(Tables()), b, choice, overrideConstraints), Tables(), thrown)
      ensures Keeps(old(Tables()), DoAssign(b, choice, overrideConstraints), Tables())
    {
      ghost var before := Tables();
      thrown := TryToAssign(b, choice, overrideConstraints);
      AgreedCallKeeps(before, DoAssign(b, choice, overrideConstraints), Tables(), thrown);
    }

    method TryToAssign(b: nat, choice: Choice, overrideConstraints: bool) returns (thrown: Option<Error>)
      modifies this
      ensures Agrees(old(Tables()), Assign(old(Tables()), b, choice, overrideConstraints), Tables(), thrown)
    {
      if !Exists(Tables(), b) {
        return Some(BookingNotFound);
      }
      if HasActiveAssignment(Tables(), b) {
        return Some(AssignmentConflict);
      }
      var vetted := VetTechnician(choice, b, None, overrideConstraints);
      if vetted.Failure? {
        return Some(vetted.error);
      }
      assignments := assignments + [Assignment(b, vetted.value, Assigned)];
      return None;
    }

    method ReassignTechnician(a: nat, choice: Choice, overrideConstraints: bool) returns (thrown: Option<Error>)
      requires CoreInv(Tables())
      modifies this
      ensures Agrees(old(Tables()), Reassign(old(Tables()), a, choice, overrideConstraints), Tables(), thrown)
      ensures Keeps(old(Tables()), DoReassign(a, choice, overrideConstraints), Tables())
    {
      ghost var before := Tables();
      thrown := TryToReassign(a, choice, overrideConstraints);
      AgreedCallKeeps(before, DoReassign(a, choice, overrideConstraints), Tables(), thrown);
    }

    method TryToReassign(a: nat, choice: Choice, overrideConstraints: bool) returns (thrown: Option<Error>)
      modifies this
      ensures Agrees(old(Tables()), Reassign(old(Tables()), a, choice, overrideConstraints), Tables(), thrown)
    {
      if a >= |assignments| || assignments[a].bookingId >= |bookings| {
        return Some(AssignmentNotFound);
      }
      var current := assignments[a];
      if current.status !in ACTIVE_ASSIGNMENT_STATUSES {
        return Some(InvalidAssignmentStatus);
      }
      var vetted := VetTechnician(choice, current.bookingId, Some(current.technicianId), overrideConstraints);
      if vetted.Failure? {
        return Some(vetted.error);
      }
      assignments := assignments[a := current.(status := Reassigned)];
      assignments := assignments + [Assignment(current.bookingId, vetted.value, Assigned)];
      return None;
    }

    method AcceptAssignment(a: nat, actor: Option<nat>) returns (thrown: Option<Error>)
      requires CoreInv(Tables())
      modifies this
      ensures Agrees(old(Tables()), Accept(old(Tables()), a, actor), Tables(), thrown)
      ensures Keeps(old(Tables()), DoAccept(a, actor), Tables())
    {
      CallKeeps(Tables(), DoAccept(a, actor));
      thrown := Owned(Tables(), a, actor);
      if thrown.Some? {
        return;
      }
      if Accepted !in AssignmentTransitions(assignments[a].status) {
        return Some(InvalidAssignmentStatus);
      }
      thrown := RecordAcceptance(a);
    }

    /** The transaction of an acceptance. */
    method RecordAcceptance(a: nat) returns (thrown: Option<Error>)
      requires a < |assignments| && assignments[a].bookingId < |bookings|
      requires Accepted in AssignmentTransitions(assignments[a].status)
      modifies this
      ensures Agrees(old(Tables()), Accept(old(Tables()), a, None), Tables(), thrown)
    {
      var assignment := assignments[a];
      assignments := assignments[a := assignment.(status := Accepted)];
      if bookings[assignment.bookingId].status == Pending {
        thrown := ApplyTransition(assignment.bookingId, Confirmed);
      } else {
        thrown := None;
      }
    }

    method RejectAssignment(a: nat, actor: Option<nat>) returns (thrown: Option<Error>)
      requires CoreInv(Tables())
      modifies this
      ensures Agrees(old(Tables()), Reject(old(Tables()), a, actor), Tables(), thrown)
      ensures Keeps(old(Tables()), DoReject(a, actor), Tables())
    {
      CallKeeps(Tables(), DoReject(a, actor));
      thrown := Owned(Tables(), a, actor);
      if thrown.Some? {
        return;
      }
      if Declined !in AssignmentTransitions(assignments[a].status) {
        return Some(InvalidAssignmentStatus);
      }
      assignments := assignments[a := assignments[a].(status := Declined)];
    }

    method SetAvailability(technicianId: nat, isAvailable: bool) returns (thrown: Option<Error>)
      requires CoreInv(Tables())
      modifies this
      ensures Agrees(old(Tables()), SetOwnAvailability(old(Tables()), technicianId, isAvailable), Tables(), thrown)
      ensures Keeps(old(Tables()), DoSetAvailability(technicianId, isAvailable), Tables())
    {
      CallKeeps(Tables(), DoSetAvailability(technicianId, isAvailable));
      if technicianId >= |technicians| {
        return Some(TechnicianNotFound);
      }
      technicians := technicians[technicianId := technicians[technicianId].(isAvailable := isAvailable)];
      return None;
    }

    method RemoveAssignment(a: nat) returns (thrown: Option<Error>)
      requires CoreInv(Tables())
      modifies this
      ensures Agrees(old(Tables()), CancelAssignment(old(Tables()), a), Tables(), thrown)
      ensures Keeps(old(Tables()), DoCancelAssignment(a), Tables())
    {
      CallKeeps(Tables(), DoCancelAssignment(a));
      if a >= |assignments| {
        return Some(AssignmentNotFound);
      }
      if AssignmentStatus.Cancelled !in AssignmentTransitions(assignments[a].status) {
        return Some(InvalidAssignmentStatus);
      }
      assignments := assignments[a := assignments[a].(status := AssignmentStatus.Cancelled)];
      return None;
    }
  }
}
