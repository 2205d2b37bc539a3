/** Automatic assignment: the ranking and the availability check put together. */
module AutoAssign {
  import opened Wrappers
  import opened BookingLifecycle
  import opened DispatchTables
  import opened Ranking
  import opened Dispatch

  /** The technician ranked first, if he is flagged available. */
  function AvailableBest(db: Db, b: nat, exclude: Option<nat>, distances: map<nat, Kilometres>): Option<nat>
    requires b < |db.bookings|
  {
    var ranked := Rank(db, b, exclude, distances);
    if ranked != [] && ranked[0].isAvailable then Some(ranked[0].technicianId) else None
  }

  /** The engine has already excluded conflicts and full days, so the check that follows can only object to
      the flag the engine ignores. */
  lemma AutoVettingSucceedsExactlyWhen(db: Db, b: nat, exclude: Option<nat>, distances: map<nat, Kilometres>)
    requires Exists(db, b)
    ensures var best := AvailableBest(db, b, exclude, distances);
      Vetted(db, Auto(distances), b, exclude, false) ==
        if best.Some? then Success(best.value) else Failure(TechnicianUnavailable)
    ensures AvailableBest(db, b, exclude, distances).Some? ==>
      AvailableBest(db, b, exclude, distances).value < |db.technicians|
  {
    var ranked := Rank(db, b, exclude, distances);
    if ranked != [] {
      RankingIsExact(db, b, exclude, distances);
      assert Genuine(db, b, exclude, distances, ranked[0]);
    }
  }

  /** Automatic assignment succeeds exactly when the best-ranked technician is flagged available. */
  lemma AutoAssignSucceedsExactlyWhen(db: Db, b: nat, distances: map<nat, Kilometres>)
    requires Exists(db, b) && !HasActiveAssignment(db, b)
    ensures var best := AvailableBest(db, b, None, distances);
      Assign(db, b, Auto(distances), false) ==
        if best.Some? then Success(AddAssignment(db, b, best.value)) else Failure(TechnicianUnavailable)
  {
    AutoVettingSucceedsExactlyWhen(db, b, None, distances);
  }

  /** Automatic reassignment likewise, the present technician left out. */
  lemma AutoReassignSucceedsExactlyWhen(db: Db, a: nat, distances: map<nat, Kilometres>)
    requires IsActive(db, a) && Exists(db, db.assignments[a].bookingId)
    ensures var current := db.assignments[a];
      var best := AvailableBest(db, current.bookingId, Some(current.technicianId), distances);
      Reassign(db, a, Auto(distances), false) ==
        if best.Some? then Success(AddAssignment(SetAssignmentStatus(db, a, Reassigned), current.bookingId, best.value))
        else Failure(TechnicianUnavailable)
  {
    AutoVettingSucceedsExactlyWhen(db, db.assignments[a].bookingId, Some(db.assignments[a].technicianId), distances);
  }

  /** Whenever somebody eligible is available but is not ranked first behind someone unavailable, the
      automatic call fails although naming that technician would succeed. */
  lemma UnavailableBestHidesTheOthers(db: Db, b: nat, distances: map<nat, Kilometres>, other: nat)
    requires Exists(db, b) && !HasActiveAssignment(db, b)
    requires Eligible(db, b, None, other) && db.technicians[other].isAvailable
    ensures Assign(db, b, Named(other), false) == Success(AddAssignment(db, b, other))
    ensures Rank(db, b, None, distances) != []
    ensures Assign(db, b, Auto(distances), false).Failure? <==> !Rank(db, b, None, distances)[0].isAvailable
  {
    PickedIsBest(db, b, None, distances, other);
    RankingIsExact(db, b, None, distances);
    AutoAssignSucceedsExactlyWhen(db, b, distances);
    assert Genuine(db, b, None, distances, Rank(db, b, None, distances)[0]);
  }
}
