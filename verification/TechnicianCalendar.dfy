/** No technician is double-booked or overloaded: what keeps it so, and exactly which calls break it. */
module TechnicianCalendar {
  import opened Wrappers
  import opened RowSets
  import opened Scheduling
  import opened BookingLifecycle
  import opened DispatchTables
  import opened Dispatch
  import opened DispatchInvariants

  /** Every job of `db'` was a job of `db`, of the same technician and in the same window. */
  ghost predicate NoNewJobs(db: Db, db': Db) {
    forall a: nat | Occupies(db', a) ::
      && Occupies(db, a)
      && db'.assignments[a].technicianId == db.assignments[a].technicianId
      && JobWindow(db', a) == JobWindow(db, a)
  }

  lemma NoNewJobsKeepsTechnicians(db: Db, db': Db)
    requires TechniciansOk(db) && NoNewJobs(db, db')
    ensures TechniciansOk(db')
  {
    forall technicianId: nat, day: int ensures |DayJobs(db', technicianId, day)| <= MAX_DAILY_JOBS {
      SubsetCount(DayJobs(db', technicianId, day), DayJobs(db, technicianId, day));
    }
  }

  /** The two guards of `assertAvailable` that concern the calendar; a dead booking takes no room. */
  predicate RoomFor(db: Db, b: nat, technicianId: nat)
    requires b < |db.bookings|
  {
    Live(db, b) ==>
      && !HasConflict(db, technicianId, db.bookings[b].window, None)
      && HasDailyCapacity(db, technicianId, db.bookings[b].window.start)
  }

  lemma NewJobIsTheOnlyChange(db: Db, b: nat, technicianId: nat)
    requires b < |db.bookings| && RefsOk(db)
    ensures var db' := AddAssignment(db, b, technicianId);
      && (forall a: nat | a < |db.assignments| :: Occupies(db', a) <==> Occupies(db, a))
      && (Occupies(db', |db.assignments|) <==> Live(db, b))
  {
  }

  lemma AddingAJobConflictsExactlyWhen(db: Db, b: nat, technicianId: nat)
    requires b < |db.bookings| && RefsOk(db) && NoDoubleBooking(db)
    ensures NoDoubleBooking(AddAssignment(db, b, technicianId)) <==>
      (Live(db, b) ==> !HasConflict(db, technicianId, db.bookings[b].window, None))
  {
    var db' := AddAssignment(db, b, technicianId);
    var w := db.bookings[b].window;
    var n := |db.assignments|;
    NewJobIsTheOnlyChange(db, b, technicianId);
    ConflictWitness(db, technicianId, w, None);
    if Live(db, b) && HasConflict(db, technicianId, w, None) {
      var a: nat :| a in Conflicts(db, technicianId, w, None);
      assert Occupies(db', a) && Occupies(db', n) && a != n && Overlaps(JobWindow(db', a), JobWindow(db', n));
    } else {
      forall i: nat, j: nat | Occupies(db', i) && Occupies(db', j) && i != j
        && db'.assignments[i].technicianId == db'.assignments[j].technicianId
        ensures !Overlaps(JobWindow(db', i), JobWindow(db', j))
      {
        if i == n {
          assert j !in Conflicts(db, technicianId, w, None);
        } else if j == n {
          assert i !in Conflicts(db, technicianId, w, None);
        }
      }
    }
  }

  lemma OldDayJobs(db: Db, b: nat, technicianId: nat, t: nat, day: int)
    requires b < |db.bookings| && RefsOk(db)
    ensures DayJobs(AddAssignment(db, b, technicianId), t, day) - {|db.assignments|} == DayJobs(db, t, day)
  {
  }

  lemma DayJobsAfterAdding(db: Db, b: nat, technicianId: nat, t: nat, day: int)
    requires b < |db.bookings| && RefsOk(db)
    ensures |DayJobs(AddAssignment(db, b, technicianId), t, day)| == |DayJobs(db, t, day)| +
      if Live(db, b) && t == technicianId && day == LocalDay(db.bookings[b].window.start) then 1 else 0
  {
    NewJobIsTheOnlyChange(db, b, technicianId);
    var isNew := Live(db, b) && t == technicianId && day == LocalDay(db.bookings[b].window.start);
    var added := DayJobs(AddAssignment(db, b, technicianId), t, day);
    OldDayJobs(db, b, technicianId, t, day);
    assert |db.assignments| in added <==> isNew;
    assert added == DayJobs(db, t, day) + if isNew then {|db.assignments|} else {};
  }

  lemma AddingAJobOverloadsExactlyWhen(db: Db, b: nat, technicianId: nat)
    requires b < |db.bookings| && RefsOk(db) && DailyLoadsOk(db)
    ensures DailyLoadsOk(AddAssignment(db, b, technicianId)) <==>
      (Live(db, b) ==> HasDailyCapacity(db, technicianId, db.bookings[b].window.start))
  {
    var db' := AddAssignment(db, b, technicianId);
    var start := db.bookings[b].window.start;
    WorkloadCountsTheDay(db, technicianId, start);
    forall t: nat, day: int
      ensures |DayJobs(db', t, day)| == |DayJobs(db, t, day)| +
        if Live(db, b) && t == technicianId && day == LocalDay(start) then 1 else 0
    {
      DayJobsAfterAdding(db, b, technicianId, t, day);
    }
    if DailyLoadsOk(db') {
      assert |DayJobs(db', technicianId, LocalDay(start))| <= MAX_DAILY_JOBS;
    }
  }

  /** An assignment, made with or without the checks, keeps the calendar in order exactly when there is room. */
  lemma AssigningKeepsTechniciansExactlyWhen(db: Db, b: nat, technicianId: nat)
    requires b < |db.bookings| && RefsOk(db) && TechniciansOk(db)
    ensures TechniciansOk(AddAssignment(db, b, technicianId)) <==> RoomFor(db, b, technicianId)
  {
    AddingAJobConflictsExactlyWhen(db, b, technicianId);
    AddingAJobOverloadsExactlyWhen(db, b, technicianId);
  }

  /** The guards let a live booking through exactly when the technician exists, is flagged available, and the
      calendars stay in order with the job added. */
  lemma GuardsPassExactlyWhen(db: Db, b: nat, technicianId: nat)
    requires RefsOk(db) && TechniciansOk(db) && Live(db, b)
    ensures Unavailability(db, technicianId, db.bookings[b].window).None? <==>
      && technicianId < |db.technicians|
      && !db.technicians[technicianId].deleted && db.technicians[technicianId].isAvailable
      && TechniciansOk(AddAssignment(db, b, technicianId))
  {
    AssigningKeepsTechniciansExactlyWhen(db, b, technicianId);
  }

  /** Room for booking `b` at the window `w` in the calendar of whoever is assigned to it. */
  predicate RoomToMove(db: Db, b: nat, w: Window) {
    forall a | 0 <= a < |db.assignments| && Occupies(db, a) && db.assignments[a].bookingId == b ::
      var technicianId := db.assignments[a].technicianId;
      && !HasConflict(db, technicianId, w, Some(b))
      && |DayJobs(db, technicianId, LocalDay(w.start)) - {a}| < MAX_DAILY_JOBS
  }

  lemma MovingTurnsOneJob(db: Db, b: nat, w: Window)
    requires b < |db.bookings| && RefsOk(db)
    ensures var db' := MoveBooking(db, b, w);
      forall a: nat :: (Occupies(db', a) <==> Occupies(db, a))
        && (Occupies(db, a) ==> JobWindow(db', a) == if db.assignments[a].bookingId == b then w else JobWindow(db, a))
  {
  }

  lemma MovingConflictsExactlyWhen(db: Db, b: nat, w: Window)
    requires b < |db.bookings| && RefsOk(db) && OneActivePerBooking(db) && NoDoubleBooking(db)
    ensures NoDoubleBooking(MoveBooking(db, b, w)) <==>
      forall a: nat | Occupies(db, a) && db.assignments[a].bookingId == b ::
        !HasConflict(db, db.assignments[a].technicianId, w, Some(b))
  {
    var db' := MoveBooking(db, b, w);
    MovingTurnsOneJob(db, b, w);
    forall t: nat ensures HasConflict(db, t, w, Some(b)) <==> exists c: nat :: c in Conflicts(db, t, w, Some(b)) {
      ConflictWitness(db, t, w, Some(b));
    }
    if a: nat :|
      && Occupies(db, a) && db.assignments[a].bookingId == b
      && HasConflict(db, db.assignments[a].technicianId, w, Some(b))
    {
      var c: nat :| c in Conflicts(db, db.assignments[a].technicianId, w, Some(b));
      assert Occupies(db', a) && Occupies(db', c) && a != c && Overlaps(JobWindow(db', a), JobWindow(db', c));
    } else {
      forall i: nat, j: nat | Occupies(db', i) && Occupies(db', j) && i != j
        && db'.assignments[i].technicianId == db'.assignments[j].technicianId
        ensures !Overlaps(JobWindow(db', i), JobWindow(db', j))
      {
        assert IsActive(db, i) && IsActive(db, j);
        var t := db.assignments[i].technicianId;
        if db.assignments[i].bookingId == b {
          assert j !in Conflicts(db, t, w, Some(b));
        } else if db.assignments[j].bookingId == b {
          assert i !in Conflicts(db, t, w, Some(b));
        }
      }
    }
  }

  lemma MovingAddsToOneDay(db: Db, a: nat, w: Window, t: nat, day: int)
    requires Occupies(db, a) && RefsOk(db) && OneActivePerBooking(db)
    ensures var moved := DayJobs(MoveBooking(db, db.assignments[a].bookingId, w), t, day);
      if t == db.assignments[a].technicianId && day == LocalDay(w.start)
      then moved == DayJobs(db, t, day) - {a} + {a}
      else moved <= DayJobs(db, t, day)
  {
    MovingTurnsOneJob(db, db.assignments[a].bookingId, w);
    forall c: nat | Occupies(db, c) && db.assignments[c].bookingId == db.assignments[a].bookingId ensures c == a {
      assert IsActive(db, c) && IsActive(db, a);
    }
  }

  lemma MovingTheOnlyJobOverloadsExactlyWhen(db: Db, a: nat, w: Window)
    requires Occupies(db, a) && RefsOk(db) && OneActivePerBooking(db) && DailyLoadsOk(db)
    ensures DailyLoadsOk(MoveBooking(db, db.assignments[a].bookingId, w)) <==>
      |DayJobs(db, db.assignments[a].technicianId, LocalDay(w.start)) - {a}| < MAX_DAILY_JOBS
  {
    var t, day := db.assignments[a].technicianId, LocalDay(w.start);
    var db' := MoveBooking(db, db.assignments[a].bookingId, w);
    MovingAddsToOneDay(db, a, w, t, day);
    assert |DayJobs(db', t, day)| == |DayJobs(db, t, day) - {a}| + 1;
    forall t': nat, day': int | t' != t || day' != day
      ensures |DayJobs(db', t', day')| <= MAX_DAILY_JOBS
    {
      MovingAddsToOneDay(db, a, w, t', day');
      SubsetCount(DayJobs(db', t', day'), DayJobs(db, t', day'));
    }
  }

  lemma MovingOverloadsExactlyWhen(db: Db, b: nat, w: Window)
    requires b < |db.bookings| && RefsOk(db) && OneActivePerBooking(db) && DailyLoadsOk(db)
    ensures DailyLoadsOk(MoveBooking(db, b, w)) <==>
      forall a: nat | Occupies(db, a) && db.assignments[a].bookingId == b ::
        |DayJobs(db, db.assignments[a].technicianId, LocalDay(w.start)) - {a}| < MAX_DAILY_JOBS
  {
    if a: nat :| Occupies(db, a) && db.assignments[a].bookingId == b {
      MovingTheOnlyJobOverloadsExactlyWhen(db, a, w);
      forall c: nat | Occupies(db, c) && db.assignments[c].bookingId == b ensures c == a {
        assert IsActive(db, c) && IsActive(db, a);
      }
    } else {
      var db' := MoveBooking(db, b, w);
      MovingTurnsOneJob(db, b, w);
      forall t: nat, d: int ensures DayJobs(db', t, d) == DayJobs(db, t, d) {
      }
    }
  }

  /** Rescheduling checks the slot but not the technician: it keeps the calendar in order exactly when
      the assigned technician happens to have room at the new time. */
  lemma MovingKeepsTechniciansExactlyWhen(db: Db, b: nat, w: Window)
    requires b < |db.bookings| && RefsOk(db) && OneActivePerBooking(db) && TechniciansOk(db)
    ensures TechniciansOk(MoveBooking(db, b, w)) <==> RoomToMove(db, b, w)
  {
    MovingConflictsExactlyWhen(db, b, w);
    MovingOverloadsExactlyWhen(db, b, w);
  }

  // ---- the calls ----

  /** The technician a successful assign or reassign ends up with. */
  function Chosen(db: Db, choice: Choice, b: nat, exclude: Option<nat>, overrideConstraints: bool): nat
    requires b < |db.bookings| && Vetted(db, choice, b, exclude, overrideConstraints).Success?
  {
    Vetted(db, choice, b, exclude, overrideConstraints).value
  }

  /** What a caller has to look at before overriding the checks or rescheduling; any other call is careful. */
  predicate Careful(db: Db, op: Op) {
    Call(db, op).Success? ==>
      match op
      case DoAssign(b, choice, true) => RoomFor(db, b, Chosen(db, choice, b, None, true))
      case DoReassign(a, choice, true) =>
        var current := db.assignments[a];
        RoomFor(SetAssignmentStatus(db, a, Reassigned), current.bookingId,
                Chosen(db, choice, current.bookingId, Some(current.technicianId), true))
      case DoReschedule(_, b, start, now) =>
        RoomToMove(db, b, ResolveWindow(start, DurationOnReschedule(db.bookings[b].window), false, now).value)
      case _ => true
  }

  lemma VettedMeansRoom(db: Db, choice: Choice, b: nat, exclude: Option<nat>)
    requires b < |db.bookings| && Vetted(db, choice, b, exclude, false).Success?
    ensures RoomFor(db, b, Chosen(db, choice, b, exclude, false))
  {
  }

  lemma VettedKeepsTechnicians(db: Db, choice: Choice, b: nat, exclude: Option<nat>)
    requires b < |db.bookings| && CoreInv(db) && TechniciansOk(db) && Vetted(db, choice, b, exclude, false).Success?
    ensures TechniciansOk(AddAssignment(db, b, Vetted(db, choice, b, exclude, false).value))
  {
    VettedMeansRoom(db, choice, b, exclude);
    AssigningKeepsTechniciansExactlyWhen(db, b, Vetted(db, choice, b, exclude, false).value);
  }

  lemma RoomSurvivesDeactivation(db: Db, a: nat, b: nat, technicianId: nat)
    requires a < |db.assignments| && b < |db.bookings| && RoomFor(db, b, technicianId)
    ensures RoomFor(SetAssignmentStatus(db, a, Reassigned), b, technicianId)
  {
    var db' := SetAssignmentStatus(db, a, Reassigned);
    var w := db.bookings[b].window;
    SubsetCount(Conflicts(db', technicianId, w, None), Conflicts(db, technicianId, w, None));
    SubsetCount(JobsWithin(db', technicianId, DayBounds(w.start)), JobsWithin(db, technicianId, DayBounds(w.start)));
  }

  lemma ReassignKeepsTechniciansExactlyWhen(db: Db, a: nat, choice: Choice, overrideConstraints: bool)
    requires CoreInv(db) && TechniciansOk(db)
    ensures TechniciansOk(Apply(db, DoReassign(a, choice, overrideConstraints))) <==>
      Careful(db, DoReassign(a, choice, overrideConstraints))
  {
    if Reassign(db, a, choice, overrideConstraints).Success? {
      var current := db.assignments[a];
      var freed := SetAssignmentStatus(db, a, Reassigned);
      var technicianId := Chosen(db, choice, current.bookingId, Some(current.technicianId), overrideConstraints);
      assert NoNewJobs(db, freed);
      NoNewJobsKeepsTechnicians(db, freed);
      if !overrideConstraints {
        VettedMeansRoom(db, choice, current.bookingId, Some(current.technicianId));
        RoomSurvivesDeactivation(db, a, current.bookingId, technicianId);
      }
      SetAssignmentKeepsCore(db, a, Reassigned);
      AssigningKeepsTechniciansExactlyWhen(freed, current.bookingId, technicianId);
    }
  }

  predicate TouchesTheCalendar(op: Op) {
    op.DoAssign? || op.DoReassign? || op.DoReschedule?
  }

  lemma OtherBookingCallsMakeNoJobs(db: Db, op: Op)
    requires RefsOk(db)
    requires op.DoCreate? || op.DoCreateVisit? || op.DoCancelBooking? || op.DoChangeStatus?
      || op.DoCheckIn? || op.DoCheckOut?
    requires Call(db, op).Success?
    ensures NoNewJobs(db, Apply(db, op))
  {
  }

  lemma OtherAssignmentCallsMakeNoJobs(db: Db, op: Op)
    requires op.DoAccept? || op.DoReject? || op.DoCancelAssignment? || op.DoSetAvailability?
    requires Call(db, op).Success?
    ensures NoNewJobs(db, Apply(db, op))
  {
  }

  lemma OtherCallsKeepTechnicians(db: Db, op: Op)
    requires CoreInv(db) && TechniciansOk(db) && !TouchesTheCalendar(op) && Call(db, op).Success?
    ensures TechniciansOk(Apply(db, op))
  {
    if op.DoAccept? || op.DoReject? || op.DoCancelAssignment? || op.DoSetAvailability? {
      OtherAssignmentCallsMakeNoJobs(db, op);
    } else {
      OtherBookingCallsMakeNoJobs(db, op);
    }
    NoNewJobsKeepsTechnicians(db, Apply(db, op));
  }

  lemma OtherCallsAreCareful(db: Db, op: Op)
    requires !TouchesTheCalendar(op)
    ensures Careful(db, op)
  {
  }

  lemma AssignKeepsTechniciansExactlyWhen(db: Db, b: nat, choice: Choice, overrideConstraints: bool)
    requires CoreInv(db) && TechniciansOk(db)
    ensures TechniciansOk(Apply(db, DoAssign(b, choice, overrideConstraints))) <==>
      Careful(db, DoAssign(b, choice, overrideConstraints))
  {
    if Assign(db, b, choice, overrideConstraints).Success? {
      var technicianId := Chosen(db, choice, b, None, overrideConstraints);
      if !overrideConstraints {
        VettedMeansRoom(db, choice, b, None);
      }
      AssigningKeepsTechniciansExactlyWhen(db, b, technicianId);
    }
  }

  /** Of all the calls, only an override and a reschedule can spoil a technician's calendar, and they do so
      exactly when the caller did not check for room. */
  lemma CallKeepsTechniciansExactlyWhenCareful(db: Db, op: Op)
    requires CoreInv(db) && TechniciansOk(db)
    ensures TechniciansOk(Apply(db, op)) <==> Careful(db, op)
  {
    if Call(db, op).Success? {
      if !TouchesTheCalendar(op) {
        OtherCallsKeepTechnicians(db, op);
        OtherCallsAreCareful(db, op);
      }
      match op
      case DoAssign(b, choice, overrideConstraints) =>
        AssignKeepsTechniciansExactlyWhen(db, b, choice, overrideConstraints);
      case DoReassign(a, choice, overrideConstraints) =>
        ReassignKeepsTechniciansExactlyWhen(db, a, choice, overrideConstraints);
      case DoReschedule(role, b, start, now) =>
        MovingKeepsTechniciansExactlyWhen(db, b,
          ResolveWindow(start, DurationOnReschedule(db.bookings[b].window), false, now).value);
      case _ =>
    }
  }

  /** Every step of the run was careful in the state it was taken in. */
  ghost predicate CarefulRun(db: Db, ops: seq<Op>)
    decreases |ops|
  {
    ops == [] || (Careful(db, ops[0]) && CarefulRun(Apply(db, ops[0]), ops[1..]))
  }

  /** The calendar is in order now and after every step of the run. */
  ghost predicate StaysInOrder(db: Db, ops: seq<Op>)
    decreases |ops|
  {
    TechniciansOk(db) && (ops == [] || StaysInOrder(Apply(db, ops[0]), ops[1..]))
  }

  lemma {:induction false} CalendarStaysInOrderExactlyWhenCareful(db: Db, ops: seq<Op>)
    requires CoreInv(db) && TechniciansOk(db)
    ensures StaysInOrder(db, ops) <==> CarefulRun(db, ops)
    decreases |ops|
  {
    if ops != [] {
      CallKeepsTechniciansExactlyWhenCareful(db, ops[0]);
      CallKeepsCore(db, ops[0]);
      if Careful(db, ops[0]) {
        CalendarStaysInOrderExactlyWhenCareful(Apply(db, ops[0]), ops[1..]);
      }
    }
  }

  lemma {:induction false} InOrderToTheEnd(db: Db, ops: seq<Op>)
    requires StaysInOrder(db, ops)
    ensures TechniciansOk(Run(db, ops))
    decreases |ops|
  {
    if ops != [] {
      InOrderToTheEnd(Apply(db, ops[0]), ops[1..]);
    }
  }

  /** A caller who never overrides and never reschedules an assigned booking is careful without looking. */
  predicate Plain(db: Db, op: Op) {
    match op
    case DoAssign(_, _, overrideConstraints) => !overrideConstraints
    case DoReassign(_, _, overrideConstraints) => !overrideConstraints
    case DoReschedule(_, b, _, _) => !HasActiveAssignment(db, b)
    case _ => true
  }

  lemma PlainCallsAreCareful(db: Db, op: Op)
    requires Plain(db, op)
    ensures Careful(db, op)
  {
  }
}
