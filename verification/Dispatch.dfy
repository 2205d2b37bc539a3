/** Every service call that changes bookings or assignments, as a function of the tables
    (bookings.service.ts, booking-status.service.ts, technician-assignment.service.ts,
    recurring-booking.service.ts, location.service.ts).  A call that throws changes nothing.
 */
module Dispatch {
  import opened Wrappers
  import opened Scheduling
  import opened BookingLifecycle
  import opened DispatchTables
  import opened Ranking

  datatype Error =
    | BookingNotFound | AssignmentNotFound | TechnicianNotFound
    | AssignmentConflict | CapacityExceeded | TechnicianUnavailable
    | InvalidAssignmentStatus | InvalidStatusTransition | InvalidBookingStatus
    | ScheduleConflict | BadWindow(reason: ScheduleError)
    | Forbidden | CheckInOutsideRadius | ForeignKeyViolation

  datatype Role = Admin | Customer | TechnicianRole

  /** A technician named by the caller, or one picked by the engine from what it knows of distances. */
  datatype Choice = Named(technicianId: nat) | Auto(distances: map<nat, Kilometres>)

  const DEFAULT_VISIT_DURATION_MIN := 60

  // ---- the row updates that the calls are made of ----

  function AddBooking(db: Db, booking: Booking): Db {
    db.(bookings := db.bookings + [booking],
        history := db.history + [HistoryRow(|db.bookings|, None, Pending, Created)])
  }

  function MoveBooking(db: Db, b: nat, w: Window): Db
    requires b < |db.bookings|
  {
    var booking := db.bookings[b];
    db.(bookings := db.bookings[b := booking.(window := w, slotChecked := true)],
        history := db.history + [HistoryRow(b, Some(booking.status), booking.status, Rescheduled)])
  }

  function SetBookingStatus(db: Db, b: nat, next: BookingStatus): Db
    requires b < |db.bookings|
  {
    var booking := db.bookings[b];
    db.(bookings := db.bookings[b := booking.(status := next)],
        history := db.history + [HistoryRow(b, Some(booking.status), next, Transitioned)])
  }

  function AddAssignment(db: Db, b: nat, technicianId: nat): Db {
    db.(assignments := db.assignments + [Assignment(b, technicianId, Assigned)])
  }

  function SetAssignmentStatus(db: Db, a: nat, next: AssignmentStatus): Db
    requires a < |db.assignments|
  {
    db.(assignments := db.assignments[a := db.assignments[a].(status := next)])
  }

  // ---- bookings ----

  predicate Exists(db: Db, b: nat) {
    b < |db.bookings| && !db.bookings[b].deleted
  }

  function Transition(db: Db, b: nat, next: BookingStatus): Result<Db, Error>
    requires b < |db.bookings|
  {
    var current := db.bookings[b].status;
    if current == next then Failure(InvalidStatusTransition)
    else if !IsTransitionAllowed(current, next) then Failure(InvalidStatusTransition)
    else Success(SetBookingStatus(db, b, next))
  }

  function Create(db: Db, role: Role, start: Option<int>, durationMin: nat, postalCode: string, now: int)
    : Result<Db, Error>
  {
    match ResolveWindow(start, durationMin, role == Admin, now)
    case Failure(reason) => Failure(BadWindow(reason))
    case Success(w) =>
      if role != Admin && !SlotAvailable(db, w, None) then Failure(ScheduleConflict)
      else Success(AddBooking(db, Booking(w, Pending, false, postalCode, role != Admin)))
  }

  function CreateVisit(db: Db, start: int, postalCode: string): Db {
    var w := Window(start, start + DEFAULT_VISIT_DURATION_MIN * MINUTE);
    AddBooking(db, Booking(w, Pending, false, postalCode, false))
  }

  function Reschedule(db: Db, role: Role, b: nat, start: Option<int>, now: int): Result<Db, Error> {
    if !Exists(db, b) then Failure(BookingNotFound)
    else if role != Admin && db.bookings[b].status !in CANCELLABLE_BY_CUSTOMER then Failure(InvalidBookingStatus)
    else match ResolveWindow(start, DurationOnReschedule(db.bookings[b].window), false, now)
      case Failure(reason) => Failure(BadWindow(reason))
      case Success(w) =>
        if !SlotAvailable(db, w, Some(b)) then Failure(ScheduleConflict)
        else Success(MoveBooking(db, b, w))
  }

  function CancelBooking(db: Db, role: Role, b: nat): Result<Db, Error> {
    if !Exists(db, b) then Failure(BookingNotFound)
    else if role != Admin && db.bookings[b].status !in CANCELLABLE_BY_CUSTOMER then Failure(InvalidBookingStatus)
    else Transition(db, b, BookingStatus.Cancelled)
  }

  function ChangeStatus(db: Db, role: Role, b: nat, next: BookingStatus): Result<Db, Error> {
    if !Exists(db, b) then Failure(BookingNotFound)
    else if role == TechnicianRole && next !in TECHNICIAN_SETTABLE then Failure(Forbidden)
    else if role == Customer then Failure(Forbidden)
    else Transition(db, b, next)
  }

  predicate EverAssigned(db: Db, b: nat, technicianId: nat) {
    exists a | 0 <= a < |db.assignments| ::
      db.assignments[a].bookingId == b && db.assignments[a].technicianId == technicianId
  }

  function CheckIn(db: Db, technicianId: nat, b: nat, inRadius: bool): Result<Db, Error> {
    if !Exists(db, b) || !EverAssigned(db, b, technicianId) then Failure(Forbidden)
    else if !inRadius then Failure(CheckInOutsideRadius)
    else Transition(db, b, Arrived)
  }

  function CheckOut(db: Db, technicianId: nat, b: nat): Result<Db, Error> {
    if !Exists(db, b) || !EverAssigned(db, b, technicianId) then Failure(Forbidden)
    else Transition(db, b, BookingStatus.Completed)
  }

  // ---- assignments ----

  function Unavailability(db: Db, technicianId: nat, w: Window): Option<Error> {
    if technicianId >= |db.technicians| || db.technicians[technicianId].deleted then Some(TechnicianNotFound)
    else if !db.technicians[technicianId].isAvailable then Some(TechnicianUnavailable)
    else if HasConflict(db, technicianId, w, None) then Some(AssignmentConflict)
    else if !HasDailyCapacity(db, technicianId, w.start) then Some(CapacityExceeded)
    else None
  }

  function PickBest(db: Db, b: nat, exclude: Option<nat>, distances: map<nat, Kilometres>): Result<nat, Error> {
    if !Exists(db, b) then Failure(BookingNotFound)
    else
      var ranked := Rank(db, b, exclude, distances);
      if ranked == [] then Failure(TechnicianUnavailable) else Success(ranked[0].technicianId)
  }

  function ResolveTechnician(db: Db, choice: Choice, b: nat, exclude: Option<nat>): Result<nat, Error> {
    match choice
    case Named(technicianId) => Success(technicianId)
    case Auto(distances) => PickBest(db, b, exclude, distances)
  }

  /** The technician that the call settles on once all its checks have passed. */
  function Vetted(db: Db, choice: Choice, b: nat, exclude: Option<nat>, overrideConstraints: bool): Result<nat, Error>
    requires b < |db.bookings|
  {
    match ResolveTechnician(db, choice, b, exclude)
    case Failure(error) => Failure(error)
    case Success(technicianId) =>
      var refusal := if overrideConstraints then None else Unavailability(db, technicianId, db.bookings[b].window);
      if refusal.Some? then Failure(refusal.value)
      else if technicianId >= |db.technicians| then Failure(ForeignKeyViolation)
      else Success(technicianId)
  }

  predicate HasActiveAssignment(db: Db, b: nat) {
    exists a | 0 <= a < |db.assignments| :: IsActive(db, a) && db.assignments[a].bookingId == b
  }

  function Assign(db: Db, b: nat, choice: Choice, overrideConstraints: bool): Result<Db, Error> {
    if !Exists(db, b) then Failure(BookingNotFound)
    else if HasActiveAssignment(db, b) then Failure(AssignmentConflict)
    else match Vetted(db, choice, b, None, overrideConstraints)
      case Failure(error) => Failure(error)
      case Success(technicianId) => Success(AddAssignment(db, b, technicianId))
  }

  function Reassign(db: Db, a: nat, choice: Choice, overrideConstraints: bool): Result<Db, Error> {
    if a >= |db.assignments| || db.assignments[a].bookingId >= |db.bookings| then Failure(AssignmentNotFound)
    else if !IsActive(db, a) then Failure(InvalidAssignmentStatus)
    else
      var current := db.assignments[a];
      match Vetted(db, choice, current.bookingId, Some(current.technicianId), overrideConstraints)
      case Failure(error) => Failure(error)
      case Success(technicianId) =>
        if Reassigned !in AssignmentTransitions(current.status) then Failure(InvalidAssignmentStatus)
        else Success(AddAssignment(SetAssignmentStatus(db, a, Reassigned), current.bookingId, technicianId))
  }

  /** `actor` is the technician answering, or None for an admin. */
  function Owned(db: Db, a: nat, actor: Option<nat>): Option<Error> {
    if a >= |db.assignments| || db.assignments[a].bookingId >= |db.bookings| then Some(AssignmentNotFound)
    else if actor.Some? && actor.value != db.assignments[a].technicianId then Some(Forbidden)
    else None
  }

  function Accept(db: Db, a: nat, actor: Option<nat>): Result<Db, Error> {
    var refusal := Owned(db, a, actor);
    if refusal.Some? then Failure(refusal.value)
    else if Accepted !in AssignmentTransitions(db.assignments[a].status) then Failure(InvalidAssignmentStatus)
    else
      var b := db.assignments[a].bookingId;
      var accepted := SetAssignmentStatus(db, a, Accepted);
      if db.bookings[b].status == Pending then Transition(accepted, b, Confirmed) else Success(accepted)
  }

  function Reject(db: Db, a: nat, actor: Option<nat>): Result<Db, Error> {
    var refusal := Owned(db, a, actor);
    if refusal.Some? then Failure(refusal.value)
    else if Declined !in AssignmentTransitions(db.assignments[a].status) then Failure(InvalidAssignmentStatus)
    else Success(SetAssignmentStatus(db, a, Declined))
  }

  function CancelAssignment(db: Db, a: nat): Result<Db, Error> {
    if a >= |db.assignments| then Failure(AssignmentNotFound)
    else if AssignmentStatus.Cancelled !in AssignmentTransitions(db.assignments[a].status)
    then Failure(InvalidAssignmentStatus)
    else Success(SetAssignmentStatus(db, a, AssignmentStatus.Cancelled))
  }

  function SetOwnAvailability(db: Db, technicianId: nat, isAvailable: bool): Result<Db, Error> {
    if technicianId >= |db.technicians| then Failure(TechnicianNotFound)
    else
      var technician := db.technicians[technicianId].(isAvailable := isAvailable);
      Success(db.(technicians := db.technicians[technicianId := technician]))
  }

  // ---- runs ----

  datatype Op =
    | DoCreate(role: Role, start: Option<int>, durationMin: nat, postalCode: string, now: int)
    | DoCreateVisit(visitStart: int, postalCode: string)
    | DoReschedule(role: Role, b: nat, start: Option<int>, now: int)
    | DoCancelBooking(role: Role, b: nat)
    | DoChangeStatus(role: Role, b: nat, next: BookingStatus)
    | DoCheckIn(technicianId: nat, b: nat, inRadius: bool)
    | DoCheckOut(technicianId: nat, b: nat)
    | DoAssign(b: nat, choice: Choice, overrideConstraints: bool)
    | DoReassign(a: nat, choice: Choice, overrideConstraints: bool)
    | DoAccept(a: nat, actor: Option<nat>)
    | DoReject(a: nat, actor: Option<nat>)
    | DoCancelAssignment(a: nat)
    | DoSetAvailability(technicianId: nat, isAvailable: bool)

  function Call(db: Db, op: Op): Result<Db, Error> {
    match op
    case DoCreate(role, start, durationMin, postalCode, now) => Create(db, role, start, durationMin, postalCode, now)
    case DoCreateVisit(start, postalCode) => Success(CreateVisit(db, start, postalCode))
    case DoReschedule(role, b, start, now) => Reschedule(db, role, b, start, now)
    case DoCancelBooking(role, b) => CancelBooking(db, role, b)
    case DoChangeStatus(role, b, next) => ChangeStatus(db, role, b, next)
    case DoCheckIn(technicianId, b, inRadius) => CheckIn(db, technicianId, b, inRadius)
    case DoCheckOut(technicianId, b) => CheckOut(db, technicianId, b)
    case DoAssign(b, choice, overrideConstraints) => Assign(db, b, choice, overrideConstraints)
    case DoReassign(a, choice, overrideConstraints) => Reassign(db, a, choice, overrideConstraints)
    case DoAccept(a, actor) => Accept(db, a, actor)
    case DoReject(a, actor) => Reject(db, a, actor)
    case DoCancelAssignment(a) => CancelAssignment(db, a)
    case DoSetAvailability(technicianId, isAvailable) => SetOwnAvailability(db, technicianId, isAvailable)
  }

  function Apply(db: Db, op: Op): Db {
    var result := Call(db, op);
    if result.Success? then result.value else db
  }

  function Run(db: Db, ops: seq<Op>): Db
    decreases |ops|
  {
    if ops == [] then db else Run(Apply(db, ops[0]), ops[1..])
  }
}
