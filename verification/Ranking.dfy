/** Scoring and ranking technicians for a booking (technician-assignment/assignment-engine.service.ts). */
module Ranking {
  import opened Wrappers
  import opened Scheduling
  import opened DispatchTables
  import opened Rounding

  /** Road-independent distance; where it comes from is outside the model. */
  type Kilometres = d: real | d >= 0.0 witness 0.0

  datatype Candidate = Candidate(technicianId: nat, score: int, servesArea: bool, dailyActiveJobs: nat,
                                 distanceKm: Option<real>, isAvailable: bool)

  const WEIGHT_SERVICE_AREA := 40.0
  const WEIGHT_SKILL := 30.0
  const WEIGHT_WORKLOAD := 20.0
  const WEIGHT_DISTANCE := 10.0

  function WorkloadScore(jobs: nat): real {
    var counted := if jobs < MAX_DAILY_JOBS then jobs else MAX_DAILY_JOBS;
    WEIGHT_WORKLOAD * (1.0 - counted as real / MAX_DAILY_JOBS as real)
  }

  function DistanceScore(distance: Option<Kilometres>): real {
    match distance
    case None => WEIGHT_DISTANCE * 0.5
    case Some(d) =>
      var clamped := if d < 50.0 then d else 50.0;
      var falloff := 1.0 - clamped / 50.0;
      WEIGHT_DISTANCE * (if falloff > 0.0 then falloff else 0.0)
  }

  function RawScore(servesArea: bool, jobs: nat, distance: Option<Kilometres>): real {
    (if servesArea then WEIGHT_SERVICE_AREA else 0.0) + WEIGHT_SKILL + WorkloadScore(jobs) + DistanceScore(distance)
  }

  function Scored(technicianId: nat, isAvailable: bool, servesArea: bool, jobs: nat, distance: Option<Kilometres>)
    : Candidate
  {
    Candidate(technicianId, RoundHalfUp(RawScore(servesArea, jobs, distance)), servesArea, jobs,
              if distance.Some? then Some(TwoDecimals(distance.value)) else None, isAvailable)
  }

  predicate NearerThan(a: Option<real>, b: Option<real>) {
    a.Some? && (b.None? || a.value < b.value)
  }

  /** The comparator returns a negative number for (a, b). */
  predicate Precedes(a: Candidate, b: Candidate) {
    || a.score > b.score
    || (a.score == b.score && a.dailyActiveJobs < b.dailyActiveJobs)
    || (a.score == b.score && a.dailyActiveJobs == b.dailyActiveJobs && NearerThan(a.distanceKm, b.distanceKm))
  }

  /** A technician no worse in every respect never compares after the other, in spite of rounding and clamping. */
  lemma Dominance(a: nat, aAvailable: bool, aServes: bool, aJobs: nat, aKm: Kilometres,
                  b: nat, bAvailable: bool, bServes: bool, bJobs: nat, bKm: Kilometres)
    requires bServes ==> aServes
    requires aJobs <= bJobs && aKm <= bKm
    ensures !Precedes(Scored(b, bAvailable, bServes, bJobs, Some(bKm)),
                      Scored(a, aAvailable, aServes, aJobs, Some(aKm)))
  {
    assert WorkloadScore(bJobs) <= WorkloadScore(aJobs);
    assert DistanceScore(Some(bKm)) <= DistanceScore(Some(aKm));
    RoundingIsMonotone(RawScore(bServes, bJobs, Some(bKm)), RawScore(aServes, aJobs, Some(aKm)));
    RoundingIsMonotone(aKm * 100.0, bKm * 100.0);
  }

  /** Serving the area outweighs workload and distance together: an in-area technician with capacity
      ranks ahead of every out-of-area one. */
  lemma AreaComesFirst(a: nat, aAvailable: bool, aJobs: nat, aKm: Option<Kilometres>,
                       b: nat, bAvailable: bool, bJobs: nat, bKm: Option<Kilometres>)
    ensures Precedes(Scored(a, aAvailable, true, aJobs, aKm), Scored(b, bAvailable, false, bJobs, bKm))
  {
  }

  /** Without a known location a technician scores as if 25 km away. */
  lemma UnknownLocationScoresAsHalfway(servesArea: bool, jobs: nat, km: Kilometres)
    ensures RawScore(servesArea, jobs, None) > RawScore(servesArea, jobs, Some(km)) <==> km > 25.0
    ensures RawScore(servesArea, jobs, None) == RawScore(servesArea, jobs, Some(km)) <==> km == 25.0
  {
  }

  /** One job fewer is worth two and a half points, up to eight jobs; the ninth and more do not count. */
  lemma LoadWeighs(servesArea: bool, a: nat, b: nat, distance: Option<Kilometres>)
    ensures a <= b <= 8 ==>
      RawScore(servesArea, a, distance) - RawScore(servesArea, b, distance) == 2.5 * (b - a) as real
    ensures a >= 8 ==> RawScore(servesArea, a, distance) == RawScore(servesArea, 8, distance)
  {
  }

  /** Five kilometres are worth a point, up to 50 km. */
  lemma DistanceWeighs(servesArea: bool, jobs: nat, a: Kilometres, b: Kilometres)
    ensures a <= b <= 50.0 ==>
      RawScore(servesArea, jobs, Some(a)) - RawScore(servesArea, jobs, Some(b)) == (b - a) / 5.0
    ensures a >= 50.0 ==> RawScore(servesArea, jobs, Some(a)) == RawScore(servesArea, jobs, Some(50.0))
  {
  }

  /** So a job weighs exactly as much as 12.5 km. */
  lemma LoadAgainstDistance(servesArea: bool, a: nat, aKm: Kilometres, b: nat, bKm: Kilometres)
    requires a <= b <= 8 && aKm <= 50.0 && bKm <= 50.0
    ensures RawScore(servesArea, a, Some(aKm)) > RawScore(servesArea, b, Some(bKm)) <==>
      aKm - bKm < 12.5 * (b - a) as real
    ensures RawScore(servesArea, a, Some(aKm)) == RawScore(servesArea, b, Some(bKm)) <==>
      aKm - bKm == 12.5 * (b - a) as real
  {
    LoadWeighs(servesArea, a, b, Some(aKm));
    if aKm <= bKm {
      DistanceWeighs(servesArea, b, aKm, bKm);
    } else {
      DistanceWeighs(servesArea, b, bKm, aKm);
    }
  }

  /** At equal area and distance the less busy technician has the higher score, rounded too, and comes first. */
  lemma LessBusyComesFirst(a: nat, aAvailable: bool, aJobs: nat, b: nat, bAvailable: bool, bJobs: nat,
                           servesArea: bool, distance: Option<Kilometres>)
    requires aJobs < bJobs <= 8
    ensures Scored(a, aAvailable, servesArea, aJobs, distance).score >
      Scored(b, bAvailable, servesArea, bJobs, distance).score
    ensures Precedes(Scored(a, aAvailable, servesArea, aJobs, distance),
                     Scored(b, bAvailable, servesArea, bJobs, distance))
  {
    LoadWeighs(servesArea, aJobs, bJobs, distance);
  }

  /** Scores lie between 30 and 100, and an idle technician of the area on the spot has 100. */
  lemma ScoresAreBetween30And100(technicianId: nat, isAvailable: bool, servesArea: bool, jobs: nat,
                                 distance: Option<Kilometres>)
    ensures 30 <= Scored(technicianId, isAvailable, servesArea, jobs, distance).score <= 100
    ensures RawScore(true, jobs, distance) == RawScore(false, jobs, distance) + 40.0
    ensures RawScore(true, 0, Some(0.0)) == 100.0 && RawScore(false, 8, Some(50.0)) == 30.0
    ensures Scored(technicianId, isAvailable, true, 0, Some(0.0)).score == 100
    ensures Scored(technicianId, isAvailable, false, 8, Some(50.0)).score == 30
  {
    assert 30.0 <= RawScore(servesArea, jobs, distance) <= 100.0;
  }

  /** On equal scores the less busy one comes first, then the nearer, a known distance before an unknown one. */
  lemma TiesAreBroken(a: Candidate, b: Candidate)
    requires a.score == b.score
    ensures a.dailyActiveJobs < b.dailyActiveJobs ==> Precedes(a, b)
    ensures a.dailyActiveJobs == b.dailyActiveJobs && a.distanceKm.Some? && b.distanceKm.Some? ==>
      (Precedes(a, b) <==> a.distanceKm.value < b.distanceKm.value)
    ensures a.dailyActiveJobs == b.dailyActiveJobs && a.distanceKm.Some? && b.distanceKm.None? ==> Precedes(a, b)
    ensures a.dailyActiveJobs == b.dailyActiveJobs && a.distanceKm.None? ==> !Precedes(a, b)
  {
  }

  lemma PrecedesIsAWeakOrder(a: Candidate, b: Candidate, c: Candidate)
    ensures !(Precedes(a, b) && Precedes(b, a))
    ensures Precedes(a, b) && Precedes(b, c) ==> Precedes(a, c)
    ensures !Precedes(a, b) && !Precedes(b, c) ==> !Precedes(a, c)
  {
  }

  // ---- the hard filter ----

  predicate Eligible(db: Db, bookingId: nat, exclude: Option<nat>, technicianId: nat)
    requires bookingId < |db.bookings|
  {
    var w := db.bookings[bookingId].window;
    && technicianId < |db.technicians|
    && !db.technicians[technicianId].deleted
    && exclude != Some(technicianId)
    && !HasConflict(db, technicianId, w, None)
    && HasDailyCapacity(db, technicianId, w.start)
  }

  function CandidateFor(db: Db, bookingId: nat, distances: map<nat, Kilometres>, technicianId: nat): Candidate
    requires bookingId < |db.bookings| && technicianId < |db.technicians|
  {
    var booking := db.bookings[bookingId];
    var technician := db.technicians[technicianId];
    Scored(technicianId, technician.isAvailable, booking.postalCode in technician.postalCodes,
           DailyWorkload(db, technicianId, booking.window.start),
           if technicianId in distances then Some(distances[technicianId]) else None)
  }

  function Candidates(db: Db, bookingId: nat, exclude: Option<nat>, distances: map<nat, Kilometres>, n: nat)
    : seq<Candidate>
    requires bookingId < |db.bookings| && n <= |db.technicians|
  {
    if n == 0 then []
    else Candidates(db, bookingId, exclude, distances, n - 1)
         + if Eligible(db, bookingId, exclude, n - 1) then [CandidateFor(db, bookingId, distances, n - 1)] else []
  }

  // ---- the stable sort ----

  ghost predicate Ranked(candidates: seq<Candidate>) {
    forall i, j | 0 <= i < j < |candidates| :: !Precedes(candidates[j], candidates[i])
  }

  function Position(ranked: seq<Candidate>, c: Candidate): (p: nat)
    ensures p <= |ranked|
    ensures forall i | 0 <= i < p :: !Precedes(c, ranked[i])
    ensures p < |ranked| ==> Precedes(c, ranked[p])
  {
    if ranked == [] then 0
    else if Precedes(c, ranked[0]) then 0
    else 1 + Position(ranked[1..], c)
  }

  function Insert(ranked: seq<Candidate>, c: Candidate): seq<Candidate> {
    var p := Position(ranked, c);
    ranked[..p] + [c] + ranked[p..]
  }

  function Sort(candidates: seq<Candidate>): seq<Candidate> {
    if candidates == [] then []
    else Insert(Sort(candidates[..|candidates| - 1]), candidates[|candidates| - 1])
  }

  lemma InsertKeepsRanked(ranked: seq<Candidate>, c: Candidate)
    requires Ranked(ranked)
    ensures Ranked(Insert(ranked, c))
  {
  }

  lemma InsertAddsOne(ranked: seq<Candidate>, c: Candidate)
    ensures multiset(Insert(ranked, c)) == multiset(ranked) + multiset{c}
  {
    var p := Position(ranked, c);
    assert ranked == ranked[..p] + ranked[p..];
  }

  lemma {:induction false} SortRanks(candidates: seq<Candidate>)
    ensures Ranked(Sort(candidates))
    ensures multiset(Sort(candidates)) == multiset(candidates)
  {
    if candidates != [] {
      var n := |candidates| - 1;
      SortRanks(candidates[..n]);
      InsertKeepsRanked(Sort(candidates[..n]), candidates[n]);
      InsertAddsOne(Sort(candidates[..n]), candidates[n]);
      assert candidates == candidates[..n] + [candidates[n]];
    }
  }

  /** Moves the candidate at `k` forward to `p`, shifting the ones between up by one. */
  method MoveForward(candidates: array<Candidate>, k: nat, p: nat)
    requires p <= k < candidates.Length
    modifies candidates
    ensures candidates[..] ==
      old(candidates[..k][..p]) + [old(candidates[k])] + old(candidates[..k][p..]) + old(candidates[k + 1..])
  {
    var c := candidates[k];
    var j := k;
    while j > p
      invariant p <= j <= k
      invariant forall i | 0 <= i < j || k < i < candidates.Length :: candidates[i] == old(candidates[i])
      invariant forall i | j < i <= k :: candidates[i] == old(candidates[i - 1])
    {
      candidates[j] := candidates[j - 1];
      j := j - 1;
    }
    candidates[p] := c;
  }

  method FindPosition(candidates: array<Candidate>, k: nat) returns (p: nat)
    requires k < candidates.Length
    ensures p == Position(candidates[..k], candidates[k])
  {
    p := 0;
    while p < k && !Precedes(candidates[k], candidates[p])
      invariant 0 <= p <= k
      invariant forall i | 0 <= i < p :: !Precedes(candidates[k], candidates[..k][i])
    {
      p := p + 1;
    }
    PositionIsFirst(candidates[..k], candidates[k], p);
  }

  lemma OneMoreSorted(given: seq<Candidate>, k: nat, now: seq<Candidate>)
    requires k < |given| && |Sort(given[..k])| == k
    requires now == Insert(Sort(given[..k]), given[k]) + given[k + 1..]
    ensures now[..k + 1] == Sort(given[..k + 1]) && now[k + 1..] == given[k + 1..]
  {
    assert given[..k + 1][..k] == given[..k];
  }

  /** The sort as it happens, in place. */
  method SortInPlace(candidates: array<Candidate>)
    modifies candidates
    ensures candidates[..] == Sort(old(candidates[..]))
  {
    ghost var given := candidates[..];
    var k := 0;
    while k < candidates.Length
      invariant 0 <= k <= candidates.Length
      invariant candidates[..k] == Sort(given[..k])
      invariant candidates[k..] == given[k..]
    {
      assert candidates[k] == candidates[k..][0] == given[k];
      assert candidates[k + 1..] == candidates[k..][1..] == given[k + 1..];
      var p := FindPosition(candidates, k);
      MoveForward(candidates, k, p);
      OneMoreSorted(given, k, candidates[..]);
      assert candidates[..][..k + 1] == candidates[..k + 1] && candidates[..][k + 1..] == candidates[k + 1..];
      k := k + 1;
    }
    assert given[..k] == given;
  }

  lemma {:induction false} PositionIsFirst(ranked: seq<Candidate>, c: Candidate, p: nat)
    requires p <= |ranked|
    requires forall i | 0 <= i < p :: !Precedes(c, ranked[i])
    requires p < |ranked| ==> Precedes(c, ranked[p])
    ensures Position(ranked, c) == p
  {
  }

  function Rank(db: Db, bookingId: nat, exclude: Option<nat>, distances: map<nat, Kilometres>): seq<Candidate>
    requires bookingId < |db.bookings|
  {
    Sort(Candidates(db, bookingId, exclude, distances, |db.technicians|))
  }

  method RankCandidates(db: Db, bookingId: nat, exclude: Option<nat>, distances: map<nat, Kilometres>)
    returns (ranked: seq<Candidate>)
    requires bookingId < |db.bookings|
    ensures ranked == Rank(db, bookingId, exclude, distances)
  {
    var w := db.bookings[bookingId].window;
    var pushed: seq<Candidate> := [];
    for id := 0 to |db.technicians|
      invariant pushed == Candidates(db, bookingId, exclude, distances, id)
    {
      var t := db.technicians[id];
      if !t.deleted && exclude != Some(id) {
        if !HasConflict(db, id, w, None) {
          var dailyActive := DailyWorkload(db, id, w.start);
          if dailyActive < MAX_DAILY_JOBS {
            var distance: Option<Kilometres> := if id in distances then Some(distances[id]) else None;
            var servesArea := db.bookings[bookingId].postalCode in t.postalCodes;
            pushed := pushed + [Scored(id, t.isAvailable, servesArea, dailyActive, distance)];
          }
        }
      }
    }
    var candidates := new Candidate[|pushed|](i requires 0 <= i < |pushed| => pushed[i]);
    assert candidates[..] == pushed;
    SortInPlace(candidates);
    ranked := candidates[..];
  }

  // ---- what a ranking is ----

  predicate Genuine(db: Db, bookingId: nat, exclude: Option<nat>, distances: map<nat, Kilometres>, c: Candidate)
    requires bookingId < |db.bookings|
  {
    Eligible(db, bookingId, exclude, c.technicianId) && c == CandidateFor(db, bookingId, distances, c.technicianId)
  }

  ghost predicate OncePerTechnician(candidates: seq<Candidate>) {
    forall i, j | 0 <= i < j < |candidates| :: candidates[i].technicianId != candidates[j].technicianId
  }

  lemma {:induction false} CandidatesAreTheEligible(db: Db, bookingId: nat, exclude: Option<nat>,
                                                    distances: map<nat, Kilometres>, n: nat, c: Candidate)
    requires bookingId < |db.bookings| && n <= |db.technicians|
    ensures c in Candidates(db, bookingId, exclude, distances, n) <==>
      c.technicianId < n && Genuine(db, bookingId, exclude, distances, c)
  {
    if n > 0 {
      CandidatesAreTheEligible(db, bookingId, exclude, distances, n - 1, c);
    }
  }

  lemma {:induction false} CandidatesAreDistinct(db: Db, bookingId: nat, exclude: Option<nat>,
                                                 distances: map<nat, Kilometres>, n: nat)
    requires bookingId < |db.bookings| && n <= |db.technicians|
    ensures OncePerTechnician(Candidates(db, bookingId, exclude, distances, n))
  {
    if n > 0 {
      var before := Candidates(db, bookingId, exclude, distances, n - 1);
      CandidatesAreDistinct(db, bookingId, exclude, distances, n - 1);
      forall i | 0 <= i < |before| ensures before[i].technicianId < n - 1 {
        CandidatesAreTheEligible(db, bookingId, exclude, distances, n - 1, before[i]);
      }
    }
  }

  lemma InsertKeepsElements(ranked: seq<Candidate>, c: Candidate)
    ensures forall x :: x in Insert(ranked, c) <==> x == c || x in ranked
  {
  }

  lemma InsertKeepsTechniciansOnce(ranked: seq<Candidate>, c: Candidate)
    requires OncePerTechnician(ranked) && forall x | x in ranked :: x.technicianId != c.technicianId
    ensures OncePerTechnician(Insert(ranked, c))
  {
  }

  lemma {:induction false} SortKeepsElements(candidates: seq<Candidate>)
    ensures forall x :: x in Sort(candidates) <==> x in candidates
    ensures OncePerTechnician(candidates) ==> OncePerTechnician(Sort(candidates))
  {
    if candidates != [] {
      var n := |candidates| - 1;
      SortKeepsElements(candidates[..n]);
      InsertKeepsElements(Sort(candidates[..n]), candidates[n]);
      if OncePerTechnician(candidates) {
        InsertKeepsTechniciansOnce(Sort(candidates[..n]), candidates[n]);
      }
      assert candidates == candidates[..n] + [candidates[n]];
    }
  }

  /** The ranking lists the technicians that pass the hard filter, each exactly once, best first. */
  lemma RankingIsExact(db: Db, bookingId: nat, exclude: Option<nat>, distances: map<nat, Kilometres>)
    requires bookingId < |db.bookings|
    ensures Ranked(Rank(db, bookingId, exclude, distances))
    ensures OncePerTechnician(Rank(db, bookingId, exclude, distances))
    ensures forall c :: c in Rank(db, bookingId, exclude, distances) <==> Genuine(db, bookingId, exclude, distances, c)
  {
    var found := Candidates(db, bookingId, exclude, distances, |db.technicians|);
    forall c ensures c in found <==> Genuine(db, bookingId, exclude, distances, c) {
      CandidatesAreTheEligible(db, bookingId, exclude, distances, |db.technicians|, c);
    }
    CandidatesAreDistinct(db, bookingId, exclude, distances, |db.technicians|);
    SortRanks(found);
    SortKeepsElements(found);
  }

  lemma EligibleExactlyWhen(db: Db, bookingId: nat, exclude: Option<nat>, technicianId: nat)
    requires bookingId < |db.bookings|
    ensures var w := db.bookings[bookingId].window;
      Eligible(db, bookingId, exclude, technicianId) <==>
        && technicianId < |db.technicians| && !db.technicians[technicianId].deleted && exclude != Some(technicianId)
        && FreeAt(db, technicianId, w) && |DayJobs(db, technicianId, LocalDay(w.start))| < 8
  {
    FreeMeansNoConflict(db, technicianId, db.bookings[bookingId].window);
    WorkloadCountsTheDay(db, technicianId, db.bookings[bookingId].window.start);
  }

  /** What is said of a candidate: whether an area of his has the postal code, his jobs on the day, the distance to two
      decimals where it is known, and the score these come to. */
  predicate Figures(db: Db, bookingId: nat, distances: map<nat, Kilometres>, c: Candidate)
    requires bookingId < |db.bookings| && c.technicianId < |db.technicians|
  {
    var booking, t := db.bookings[bookingId], db.technicians[c.technicianId];
    && c.isAvailable == t.isAvailable
    && c.servesArea == (booking.postalCode in t.postalCodes)
    && c.dailyActiveJobs == |DayJobs(db, c.technicianId, LocalDay(booking.window.start))|
    && (c.distanceKm.Some? <==> c.technicianId in distances)
    && (c.distanceKm.Some? ==> -0.005 <= c.distanceKm.value - distances[c.technicianId] <= 0.005)
    && var distance := if c.technicianId in distances then Some(distances[c.technicianId]) else None;
       -0.5 <= c.score as real - RawScore(c.servesArea, c.dailyActiveJobs, distance) <= 0.5
  }

  /** Exactly the technicians that are there, not left out, free at the time and under eight jobs on the day are
      ranked, each with true figures. */
  lemma RankedExactlyWhen(db: Db, bookingId: nat, exclude: Option<nat>, distances: map<nat, Kilometres>,
                          technicianId: nat)
    requires bookingId < |db.bookings|
    ensures var w := db.bookings[bookingId].window;
      (exists c :: c in Rank(db, bookingId, exclude, distances) && c.technicianId == technicianId) <==>
        && technicianId < |db.technicians| && !db.technicians[technicianId].deleted && exclude != Some(technicianId)
        && FreeAt(db, technicianId, w) && |DayJobs(db, technicianId, LocalDay(w.start))| < 8
    ensures forall c :: c in Rank(db, bookingId, exclude, distances) ==>
      c.technicianId < |db.technicians| && Figures(db, bookingId, distances, c)
  {
    RankingIsExact(db, bookingId, exclude, distances);
    EligibleExactlyWhen(db, bookingId, exclude, technicianId);
    if Eligible(db, bookingId, exclude, technicianId) {
      assert Genuine(db, bookingId, exclude, distances, CandidateFor(db, bookingId, distances, technicianId));
    }
    forall c | c in Rank(db, bookingId, exclude, distances)
      ensures c.technicianId < |db.technicians| && Figures(db, bookingId, distances, c)
    {
      assert Genuine(db, bookingId, exclude, distances, c);
      FiguresAreTrue(db, bookingId, distances, c.technicianId);
    }
  }

  lemma FiguresAreTrue(db: Db, bookingId: nat, distances: map<nat, Kilometres>, technicianId: nat)
    requires bookingId < |db.bookings| && technicianId < |db.technicians|
    ensures Figures(db, bookingId, distances, CandidateFor(db, bookingId, distances, technicianId))
  {
    WorkloadCountsTheDay(db, technicianId, db.bookings[bookingId].window.start);
    if technicianId in distances {
      RoundingError(distances[technicianId]);
    }
  }

  /** Nobody who passes the filter would be sorted strictly ahead of the one picked. */
  lemma PickedIsBest(db: Db, bookingId: nat, exclude: Option<nat>, distances: map<nat, Kilometres>, other: nat)
    requires bookingId < |db.bookings| && Eligible(db, bookingId, exclude, other)
    ensures Rank(db, bookingId, exclude, distances) != []
    ensures !Precedes(CandidateFor(db, bookingId, distances, other), Rank(db, bookingId, exclude, distances)[0])
  {
    RankingIsExact(db, bookingId, exclude, distances);
    var ranked := Rank(db, bookingId, exclude, distances);
    var c := CandidateFor(db, bookingId, distances, other);
    assert Genuine(db, bookingId, exclude, distances, c);
    var i :| 0 <= i < |ranked| && ranked[i] == c;
  }
}
