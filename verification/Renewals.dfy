/** Subscriptions and their renewal (subscriptions/subscriptions.service.ts, renewal.service.ts,
    recurring-booking.service.ts).

    A row carries the starts of the visits booked for it and the number of its "subscription.renewed" audit
    rows.  The clock, the customers that have an address and the transactions that fail are inputs.
 */
module Renewals {
  import opened Wrappers
  import opened CycleDates

  datatype Status = Pending | Active | Paused | Cancelled | Expired

  datatype Plan = Plan(cycle: Cycle, active: bool)

  type SubscriptionId = nat

  type PlanId = nat

  datatype Subscription = Subscription(
    customerId: string,
    planId: PlanId,
    status: Status,
    startDate: Instant,
    nextBilling: Option<Instant>,
    nextService: Option<Instant>,
    visits: seq<Instant>,
    renewals: nat)

  datatype Book = Book(next: Calendar, plans: seq<Plan>, subs: seq<Subscription>)

  datatype Error = PlanNotFound | AddressRequired | SubscriptionNotFound | InvalidStatus | AlreadyOnPlan

  predicate SubTransitionAllowed(from: Status, to: Status) {
    match from
    case Pending => to in {Active, Cancelled}
    case Active => to in {Paused, Cancelled, Expired}
    case Paused => to in {Active, Cancelled, Expired}
    case Cancelled => false
    case Expired => false
  }

  function CycleOf(plans: seq<Plan>, sub: Subscription): Cycle {
    if sub.planId < |plans| then plans[sub.planId].cycle else Weekly
  }

  predicate ActivePlan(plans: seq<Plan>, id: PlanId) {
    id < |plans| && plans[id].active
  }

  // ---- the customer's calls ----

  function NewSubscription(next: Calendar, customerId: string, planId: PlanId, cycle: Cycle, start: Instant)
    : Subscription
  {
    Subscription(customerId, planId, Active, start, Some(next(start, cycle)), Some(start), [start], 0)
  }

  function Create(book: Book, customerId: string, planId: PlanId, start: Instant, addressed: set<string>)
    : Result<Book, Error>
  {
    if !ActivePlan(book.plans, planId) then Failure(PlanNotFound)
    else if customerId !in addressed then Failure(AddressRequired)
    else
      var sub := NewSubscription(book.next, customerId, planId, book.plans[planId].cycle, start);
      Success(book.(subs := book.subs + [sub]))
  }

  /** `pause`, `resume` and `cancel` move to Paused, Active and Cancelled. */
  function Move(book: Book, id: SubscriptionId, to: Status): Result<Book, Error> {
    if id >= |book.subs| then Failure(SubscriptionNotFound)
    else if !SubTransitionAllowed(book.subs[id].status, to) then Failure(InvalidStatus)
    else Success(book.(subs := book.subs[id := book.subs[id].(status := to)]))
  }

  function ChangePlan(book: Book, id: SubscriptionId, planId: PlanId, now: Instant): Result<Book, Error> {
    if id >= |book.subs| then Failure(SubscriptionNotFound)
    else if book.subs[id].status !in {Active, Paused} then Failure(InvalidStatus)
    else if !ActivePlan(book.plans, planId) then Failure(PlanNotFound)
    else if planId == book.subs[id].planId then Failure(AlreadyOnPlan)
    else
      var billing := book.next(now, book.plans[planId].cycle);
      Success(book.(subs := book.subs[id := book.subs[id].(planId := planId, nextBilling := Some(billing))]))
  }

  /** An administrator's edit of a plan, or a new plan. */
  function EditPlan(book: Book, id: PlanId, plan: Plan): Book {
    if id < |book.plans| then book.(plans := book.plans[id := plan]) else book.(plans := book.plans + [plan])
  }

  // ---- renewal ----

  predicate Due(sub: Subscription, now: Instant) {
    sub.status == Active && sub.nextBilling.Some? && sub.nextBilling.value <= now
  }

  function Renewed(next: Calendar, sub: Subscription, cycle: Cycle, now: Instant): Subscription {
    var serviceDate := sub.nextService.GetOr(now);
    sub.(nextBilling := Some(next(sub.nextBilling.GetOr(now), cycle)),
         nextService := Some(next(serviceDate, cycle)),
         visits := sub.visits + [serviceDate],
         renewals := sub.renewals + 1)
  }

  /** `addressed` are the customers with an address, `broken` the rows whose transaction fails. */
  predicate Renews(book: Book, id: SubscriptionId, now: Instant, addressed: set<string>, broken: set<SubscriptionId>) {
    && id < |book.subs| && Due(book.subs[id], now)
    && book.subs[id].customerId in addressed && id !in broken
  }

  /** Every due row that does not fail moves on by one cycle; all others are as they were. */
  function ProcessDue(book: Book, now: Instant, addressed: set<string>, broken: set<SubscriptionId>): (after: Book)
    ensures |after.subs| == |book.subs| && after.plans == book.plans && after.next == book.next
  {
    book.(subs := seq(|book.subs|, i requires 0 <= i < |book.subs| =>
      if Renews(book, i, now, addressed, broken)
      then Renewed(book.next, book.subs[i], CycleOf(book.plans, book.subs[i]), now)
      else book.subs[i]))
  }

  // ---- runs ----

  datatype Op =
    | DoCreate(customerId: string, planId: PlanId, start: Instant, addressed: set<string>)
    | DoMove(id: SubscriptionId, to: Status)
    | DoChangePlan(id: SubscriptionId, planId: PlanId, now: Instant)
    | DoEditPlan(planId: PlanId, plan: Plan)
    | DoProcessDue(now: Instant, addressed: set<string>, broken: set<SubscriptionId>)

  function OrElse(result: Result<Book, Error>, book: Book): Book {
    if result.Success? then result.value else book
  }

  function Apply(book: Book, op: Op): Book {
    match op
    case DoCreate(customerId, planId, start, addressed) =>
      OrElse(Create(book, customerId, planId, start, addressed), book)
    case DoMove(id, to) => OrElse(Move(book, id, to), book)
    case DoChangePlan(id, planId, now) => OrElse(ChangePlan(book, id, planId, now), book)
    case DoEditPlan(planId, plan) => EditPlan(book, planId, plan)
    case DoProcessDue(now, addressed, broken) => ProcessDue(book, now, addressed, broken)
  }

  function Run(book: Book, ops: seq<Op>): Book
    decreases |ops|
  {
    if ops == [] then book else Run(Apply(book, ops[0]), ops[1..])
  }

  function Empty(next: Calendar): Book {
    Book(next, [], [])
  }

  // ---- when each call goes through, and what it leaves ----

  ghost predicate OnlyRowChanges(book: Book, book': Book, id: SubscriptionId) {
    && id < |book.subs| == |book'.subs| && book'.plans == book.plans && book'.next == book.next
    && forall i | 0 <= i < |book.subs| && i != id :: book'.subs[i] == book.subs[i]
  }

  /** Only active subscriptions are paused, only paused ones (or ones not begun) resumed, and all that have not ended
      cancelled; nothing but the status changes. */
  lemma StatusMovesExactlyWhen(book: Book, id: SubscriptionId, to: Status)
    requires to in {Paused, Active, Cancelled}
    ensures var result := Move(book, id, to);
      && (result.Success? <==>
            && id < |book.subs|
            && match to
               case Paused => book.subs[id].status == Active
               case Active => book.subs[id].status in {Paused, Pending}
               case _ => book.subs[id].status in {Pending, Active, Paused})
      && (result.Success? ==>
            var sub := book.subs[id];
            && OnlyRowChanges(book, result.value, id)
            && result.value.subs[id] == Subscription(sub.customerId, sub.planId, to, sub.startDate, sub.nextBilling,
                                                     sub.nextService, sub.visits, sub.renewals))
  {
  }

  /** A subscription begins active on its start date, with a first visit then, the next service then too, and the
      first bill a cycle later. */
  lemma SubscriptionBeginsExactlyWhen(book: Book, customerId: string, planId: PlanId, start: Instant,
                                      addressed: set<string>)
    ensures var result := Create(book, customerId, planId, start, addressed);
      && (result.Success? <==>
            planId < |book.plans| && book.plans[planId].active && customerId in addressed)
      && (result.Success? ==>
            var book', n := result.value, |book.subs|;
            && book'.plans == book.plans && book'.next == book.next
            && |book'.subs| == n + 1 && book'.subs[..n] == book.subs
            && book'.subs[n] == Subscription(customerId, planId, Active, start,
                                             Some(book.next(start, book.plans[planId].cycle)), Some(start), [start], 0))
  {
  }

  /** A plan is changed for another active one while the subscription is active or paused; billing restarts from
      today on the new cycle, and service goes on as before. */
  lemma PlanIsChangedExactlyWhen(book: Book, id: SubscriptionId, planId: PlanId, now: Instant)
    ensures var result := ChangePlan(book, id, planId, now);
      && (result.Success? <==>
            && id < |book.subs| && book.subs[id].status in {Active, Paused}
            && planId < |book.plans| && book.plans[planId].active && planId != book.subs[id].planId)
      && (result.Success? ==>
            var before, after := book.subs[id], result.value.subs[id];
            && OnlyRowChanges(book, result.value, id)
            && after.planId == planId && after.nextBilling == Some(book.next(now, book.plans[planId].cycle))
            && after.nextService == before.nextService && after.visits == before.visits
            && after.status == before.status && after.renewals == before.renewals)
  {
  }

  /** An active row whose billing date has come, of a customer with an address, books a visit on its service date
      and moves both dates one cycle on, unless its transaction fails; every other row is as it was. */
  lemma RenewalOutcome(book: Book, now: Instant, addressed: set<string>, broken: set<SubscriptionId>,
                       id: SubscriptionId)
    requires id < |book.subs| && book.subs[id].nextService.Some? && book.subs[id].planId < |book.plans|
    ensures var book' := Apply(book, DoProcessDue(now, addressed, broken));
      var before, cycle := book.subs[id], book.plans[book.subs[id].planId].cycle;
      && |book'.subs| == |book.subs| && book'.plans == book.plans
      && book'.subs[id] ==
         if before.status == Active && before.nextBilling.Some? && before.nextBilling.value <= now
           && before.customerId in addressed && id !in broken
         then before.(visits := before.visits + [before.nextService.value], renewals := before.renewals + 1,
                      nextService := Some(book.next(before.nextService.value, cycle)),
                      nextBilling := Some(book.next(before.nextBilling.value, cycle)))
         else before
  {
  }

  // ---- what every run keeps ----

  /** One visit at the start, one for each renewal; the first renewal repeats the start, and from there on
      visits are a day or more apart and before the next service date. */
  predicate VisitsOk(sub: Subscription) {
    && sub.nextBilling.Some? && sub.nextService.Some?
    && |sub.visits| == sub.renewals + 1 && sub.visits[0] == sub.startDate
    && (sub.renewals == 0 ==> sub.nextService.value == sub.startDate)
    && (sub.renewals > 0 ==> sub.visits[1] == sub.startDate)
    && (sub.renewals > 0 ==> sub.visits[sub.renewals] + DAY <= sub.nextService.value)
    && forall k | 1 < k < |sub.visits| :: sub.visits[k - 1] + DAY <= sub.visits[k]
  }

  predicate BookOk(book: Book) {
    forall i | 0 <= i < |book.subs| :: VisitsOk(book.subs[i]) && book.subs[i].planId < |book.plans|
  }

  lemma RenewalKeepsVisits(next: Calendar, sub: Subscription, cycle: Cycle, now: Instant)
    requires Advances(next) && VisitsOk(sub)
    ensures VisitsOk(Renewed(next, sub, cycle, now))
  {
  }

  lemma StepKeepsVisits(book: Book, op: Op)
    requires Advances(book.next) && BookOk(book)
    ensures BookOk(Apply(book, op))
  {
    if op.DoProcessDue? {
      forall i | 0 <= i < |book.subs| ensures VisitsOk(Apply(book, op).subs[i]) {
        RenewalKeepsVisits(book.next, book.subs[i], CycleOf(book.plans, book.subs[i]), op.now);
      }
    }
  }

  lemma {:induction false} RunKeepsVisits(book: Book, ops: seq<Op>)
    requires Advances(book.next) && BookOk(book)
    ensures BookOk(Run(book, ops))
    decreases |ops|
  {
    if ops != [] {
      StepKeepsVisits(book, ops[0]);
      RunKeepsVisits(Apply(book, ops[0]), ops[1..]);
    }
  }

  /** After any calls, plan changes included: one visit more than renewals, in order of date, the first
      renewal's visit on the start date again. */
  lemma OneVisitMoreThanRenewals(next: Calendar, ops: seq<Op>, id: SubscriptionId)
    requires Advances(next) && id < |Run(Empty(next), ops).subs|
    ensures var sub := Run(Empty(next), ops).subs[id];
      && |sub.visits| == sub.renewals + 1
      && (forall j, k | 0 <= j <= k < |sub.visits| :: sub.visits[j] <= sub.visits[k])
      && (sub.renewals > 0 ==> sub.visits[0] == sub.visits[1] == sub.startDate)
  {
    RunKeepsVisits(Empty(next), ops);
    var sub := Run(Empty(next), ops).subs[id];
    assert VisitsOk(sub);
    forall j, k | 0 <= j <= k < |sub.visits| ensures sub.visits[j] <= sub.visits[k] {
      VisitsAreInOrder(sub, j, k);
    }
  }

  lemma {:induction false} VisitsAreInOrder(sub: Subscription, j: nat, k: nat)
    requires VisitsOk(sub) && j <= k < |sub.visits|
    ensures sub.visits[j] <= sub.visits[k]
    decreases k
  {
    if j < k {
      VisitsAreInOrder(sub, j, k - 1);
    }
  }

  /** A cancelled or expired subscription is never touched again. */
  lemma {:induction false} EndedIsFinal(book: Book, ops: seq<Op>, id: SubscriptionId)
    requires id < |book.subs| && book.subs[id].status in {Cancelled, Expired}
    ensures id < |Run(book, ops).subs| && Run(book, ops).subs[id] == book.subs[id]
    decreases |ops|
  {
    if ops != [] {
      var next := Apply(book, ops[0]);
      assert id < |next.subs| && next.subs[id] == book.subs[id];
      EndedIsFinal(next, ops[1..], id);
    }
  }

  /** Pausing does not stop the schedule: on resuming, all the cycles gone by are due. */
  lemma ResumeUndoesPause(book: Book, id: SubscriptionId)
    requires id < |book.subs| && book.subs[id].status == Active
    ensures var paused := Move(book, id, Paused);
      paused.Success? && Move(paused.value, id, Active) == Success(book)
  {
    var paused := Move(book, id, Paused).value;
    assert paused.subs[id := paused.subs[id].(status := Active)] == book.subs;
  }

  // ---- billing runs one cycle ahead of service ----

  /** The next billing date is one cycle after the next service date. */
  predicate InStep(book: Book, sub: Subscription) {
    && sub.nextBilling.Some? && sub.nextService.Some?
    && sub.nextBilling.value == book.next(sub.nextService.value, CycleOf(book.plans, sub))
  }

  predicate AllInStep(book: Book) {
    forall i | 0 <= i < |book.subs| :: InStep(book, book.subs[i])
  }

  /** Changing plan restarts billing from today and leaves service alone; editing a plan's cycle does not
      touch its subscribers' dates. */
  predicate Careful(book: Book, op: Op) {
    match op
    case DoChangePlan(id, planId, now) =>
      ChangePlan(book, id, planId, now).Success? ==>
        var cycle := book.plans[planId].cycle;
        book.next(now, cycle) == book.next(book.subs[id].nextService.GetOr(now), cycle)
    case DoEditPlan(planId, plan) =>
      forall i | 0 <= i < |book.subs| && book.subs[i].planId == planId < |book.plans| ::
        var service := book.subs[i].nextService.GetOr(0);
        book.next(service, plan.cycle) == book.next(service, book.plans[planId].cycle)
    case _ => true
  }

  lemma RenewalKeepsStep(book: Book, sub: Subscription, now: Instant)
    requires InStep(book, sub)
    ensures InStep(book, Renewed(book.next, sub, CycleOf(book.plans, sub), now))
  {
  }

  lemma StepKeepsStepExactlyWhenCareful(book: Book, op: Op)
    requires BookOk(book) && AllInStep(book)
    ensures AllInStep(Apply(book, op)) <==> Careful(book, op)
  {
    var after := Apply(book, op);
    match op
    case DoCreate(_, _, _, _) =>
    case DoMove(id, to) =>
    case DoChangePlan(id, planId, now) =>
      if ChangePlan(book, id, planId, now).Success? {
        assert forall i | 0 <= i < |book.subs| && i != id :: InStep(after, after.subs[i]);
        assert AllInStep(after) <==> InStep(after, after.subs[id]);
      }
    case DoEditPlan(planId, plan) =>
      forall i | 0 <= i < |book.subs|
        ensures InStep(after, after.subs[i]) <==>
          (book.subs[i].planId == planId < |book.plans| ==>
            var service := book.subs[i].nextService.GetOr(0);
            book.next(service, plan.cycle) == book.next(service, book.plans[planId].cycle))
      {
        assert InStep(book, book.subs[i]);
      }
    case DoProcessDue(now, addressed, broken) =>
      forall i | 0 <= i < |book.subs| ensures InStep(after, after.subs[i]) {
        RenewalKeepsStep(book, book.subs[i], now);
      }
  }

  ghost predicate CarefulThroughout(book: Book, ops: seq<Op>)
    decreases |ops|
  {
    ops == [] || (Careful(book, ops[0]) && CarefulThroughout(Apply(book, ops[0]), ops[1..]))
  }

  ghost predicate InStepThroughout(book: Book, ops: seq<Op>)
    decreases |ops|
  {
    AllInStep(book) && (ops == [] || InStepThroughout(Apply(book, ops[0]), ops[1..]))
  }

  /** Billing stays one cycle ahead of service, all through a run, exactly when every call is careful. */
  lemma {:induction false} InStepExactlyWhenCareful(book: Book, ops: seq<Op>)
    requires Advances(book.next) && BookOk(book) && AllInStep(book)
    ensures InStepThroughout(book, ops) <==> CarefulThroughout(book, ops)
    decreases |ops|
  {
    if ops != [] {
      StepKeepsVisits(book, ops[0]);
      StepKeepsStepExactlyWhenCareful(book, ops[0]);
      if AllInStep(Apply(book, ops[0])) {
        InStepExactlyWhenCareful(Apply(book, ops[0]), ops[1..]);
      }
    }
  }

  /** While billing is in step, a renewal books its visit a day or more in the past. */
  lemma RenewedVisitsLieInThePast(book: Book, now: Instant, addressed: set<string>, broken: set<SubscriptionId>,
                                  id: SubscriptionId)
    requires Advances(book.next) && AllInStep(book) && Renews(book, id, now, addressed, broken)
    ensures var sub := ProcessDue(book, now, addressed, broken).subs[id];
      |sub.visits| == |book.subs[id].visits| + 1 && sub.visits[|sub.visits| - 1] + DAY <= now
  {
  }

  // ---- when renewals book the past, plan changes included ----

  /** The next service is before the next bill. */
  predicate Ahead(sub: Subscription) {
    sub.nextBilling.Some? && sub.nextService.Some? && sub.nextService.value < sub.nextBilling.value
  }

  predicate AllAhead(book: Book) {
    forall i | 0 <= i < |book.subs| :: Ahead(book.subs[i])
  }

  /** The start of the visit that a renewal at `now` books. */
  function VisitBooked(book: Book, id: SubscriptionId, now: Instant): Instant
    requires id < |book.subs| && Due(book.subs[id], now)
  {
    var visits := ProcessDue(book, now, {book.subs[id].customerId}, {}).subs[id].visits;
    visits[|visits| - 1]
  }

  /** Whenever a row comes due its visit is booked in the past, exactly if its service date is before its billing
      date. */
  lemma VisitIsPastWheneverDueExactlyWhen(book: Book, id: SubscriptionId)
    requires BookOk(book) && id < |book.subs| && book.subs[id].status == Active
    ensures (forall now: Instant | Due(book.subs[id], now) :: VisitBooked(book, id, now) < now) <==>
      Ahead(book.subs[id])
  {
    var sub := book.subs[id];
    assert VisitsOk(sub);
    forall now: Instant | Due(sub, now) ensures VisitBooked(book, id, now) == sub.nextService.value {
    }
    if !Ahead(sub) {
      assert Due(sub, sub.nextBilling.value);
      assert !(VisitBooked(book, id, sub.nextBilling.value) < sub.nextBilling.value);
    }
  }

  /** A plan changed late enough that a cycle from then on ends after the next service; a renewal whose two dates
      keep their order. */
  predicate KeepsAhead(book: Book, op: Op) {
    match op
    case DoChangePlan(id, planId, now) =>
      ChangePlan(book, id, planId, now).Success? ==>
        book.subs[id].nextService.GetOr(now) < book.next(now, book.plans[planId].cycle)
    case DoProcessDue(now, addressed, broken) =>
      forall i | 0 <= i < |book.subs| && Renews(book, i, now, addressed, broken) ::
        var sub, cycle := book.subs[i], CycleOf(book.plans, book.subs[i]);
        book.next(sub.nextService.GetOr(now), cycle) < book.next(sub.nextBilling.GetOr(now), cycle)
    case _ => true
  }

  lemma StepKeepsAheadExactlyWhen(book: Book, op: Op)
    requires Advances(book.next) && BookOk(book) && AllAhead(book)
    ensures AllAhead(Apply(book, op)) <==> KeepsAhead(book, op)
  {
    var after := Apply(book, op);
    match op
    case DoChangePlan(id, planId, now) =>
      if ChangePlan(book, id, planId, now).Success? {
        assert forall i | 0 <= i < |book.subs| && i != id :: Ahead(after.subs[i]);
        assert AllAhead(after) <==> Ahead(after.subs[id]);
      }
    case DoProcessDue(now, addressed, broken) =>
      forall i | 0 <= i < |book.subs|
        ensures Ahead(after.subs[i]) <==>
          (Renews(book, i, now, addressed, broken) ==>
            var sub, cycle := book.subs[i], CycleOf(book.plans, book.subs[i]);
            book.next(sub.nextService.GetOr(now), cycle) < book.next(sub.nextBilling.GetOr(now), cycle))
      {
        assert Ahead(book.subs[i]);
      }
    case DoCreate(customerId, planId, start, addressed) =>
      assert forall i | 0 <= i < |book.subs| :: after.subs[i] == book.subs[i];
    case _ =>
  }

  ghost predicate AheadThroughout(book: Book, ops: seq<Op>)
    decreases |ops|
  {
    AllAhead(book) && (ops == [] || AheadThroughout(Apply(book, ops[0]), ops[1..]))
  }

  ghost predicate KeepsAheadThroughout(book: Book, ops: seq<Op>)
    decreases |ops|
  {
    ops == [] || (KeepsAhead(book, ops[0]) && KeepsAheadThroughout(Apply(book, ops[0]), ops[1..]))
  }

  /** Service stays before billing for everybody, all through a run, exactly when every plan change and renewal
      keeps it so; and while it does, renewals book the past. */
  lemma {:induction false} AheadExactlyWhenKept(book: Book, ops: seq<Op>)
    requires Advances(book.next) && BookOk(book) && AllAhead(book)
    ensures AheadThroughout(book, ops) <==> KeepsAheadThroughout(book, ops)
    decreases |ops|
  {
    if ops != [] {
      StepKeepsVisits(book, ops[0]);
      StepKeepsAheadExactlyWhen(book, ops[0]);
      if AllAhead(Apply(book, ops[0])) {
        AheadExactlyWhenKept(Apply(book, ops[0]), ops[1..]);
      }
    }
  }

  // ---- the whole schedule, when no cycle ever changes ----

  /** The dates from `start`, `n` of them, one cycle apart. */
  function Schedule(next: Calendar, start: Instant, cycle: Cycle, n: nat): (dates: seq<Instant>)
    ensures |dates| == n
  {
    seq(n, k requires 0 <= k < n => NthDate(next, start, cycle, k))
  }

  predicate OnSchedule(book: Book, sub: Subscription) {
    var cycle := CycleOf(book.plans, sub);
    && sub.nextService == Some(NthDate(book.next, sub.startDate, cycle, sub.renewals))
    && sub.nextBilling == Some(NthDate(book.next, sub.startDate, cycle, sub.renewals + 1))
    && sub.visits == [sub.startDate] + Schedule(book.next, sub.startDate, cycle, sub.renewals)
  }

  predicate AllOnSchedule(book: Book) {
    forall i | 0 <= i < |book.subs| :: OnSchedule(book, book.subs[i])
  }

  /** Neither a change of plan nor an edit of a plan's cycle. */
  predicate Plain(book: Book, op: Op) {
    match op
    case DoChangePlan(_, _, _) => false
    case DoEditPlan(planId, plan) => planId < |book.plans| ==> plan.cycle == book.plans[planId].cycle
    case _ => true
  }

  predicate PlainThroughout(book: Book, ops: seq<Op>)
    decreases |ops|
  {
    ops == [] || (Plain(book, ops[0]) && PlainThroughout(Apply(book, ops[0]), ops[1..]))
  }

  lemma RenewalKeepsSchedule(book: Book, sub: Subscription, now: Instant)
    requires OnSchedule(book, sub)
    ensures OnSchedule(book, Renewed(book.next, sub, CycleOf(book.plans, sub), now))
  {
  }

  lemma {:induction false} PlainRunsKeepSchedule(book: Book, ops: seq<Op>)
    requires Advances(book.next) && BookOk(book) && AllOnSchedule(book) && PlainThroughout(book, ops)
    ensures AllOnSchedule(Run(book, ops))
    decreases |ops|
  {
    if ops != [] {
      var op, after := ops[0], Apply(book, ops[0]);
      StepKeepsVisits(book, op);
      forall i | 0 <= i < |after.subs| ensures OnSchedule(after, after.subs[i]) {
        if i < |book.subs| {
          assert OnSchedule(book, book.subs[i]);
          assert CycleOf(after.plans, after.subs[i]) == CycleOf(book.plans, book.subs[i]);
          if op.DoProcessDue? {
            RenewalKeepsSchedule(book, book.subs[i], op.now);
          }
        } else {
          var sub, cycle := after.subs[i], CycleOf(after.plans, after.subs[i]);
          assert sub.visits == [sub.startDate] + Schedule(after.next, sub.startDate, cycle, 0);
          assert NthDate(after.next, sub.startDate, cycle, 0) == sub.startDate;
        }
      }
      PlainRunsKeepSchedule(after, ops[1..]);
    }
  }

  /** With no change of cycle the whole of a subscription is told by its start and its number of renewals: the
      visits are the start followed by the dates from the start on, and billing is one cycle further than
      service. */
  lemma VisitsFollowTheSchedule(next: Calendar, ops: seq<Op>, id: SubscriptionId)
    requires Advances(next) && PlainThroughout(Empty(next), ops) && id < |Run(Empty(next), ops).subs|
    ensures OnSchedule(Run(Empty(next), ops), Run(Empty(next), ops).subs[id])
    ensures InStep(Run(Empty(next), ops), Run(Empty(next), ops).subs[id])
  {
    PlainRunsKeepSchedule(Empty(next), ops);
    assert OnSchedule(Run(Empty(next), ops), Run(Empty(next), ops).subs[id]);
  }

  // ---- catching up ----

  function CallRepeatedly(book: Book, now: Instant, addressed: set<string>, n: nat): Book
    decreases n
  {
    if n == 0 then book else CallRepeatedly(ProcessDue(book, now, addressed, {}), now, addressed, n - 1)
  }

  predicate NothingDue(book: Book, now: Instant) {
    forall i | 0 <= i < |book.subs| :: !Due(book.subs[i], now)
  }

  function RenewRepeatedly(next: Calendar, sub: Subscription, cycle: Cycle, now: Instant, n: nat): Subscription
    decreases n
  {
    if n == 0 || !Due(sub, now) then sub else RenewRepeatedly(next, Renewed(next, sub, cycle, now), cycle, now, n - 1)
  }

  /** Calls treat every row by itself, and leave a row alone whose customer has no address. */
  lemma {:induction false} RowsMoveAlone(book: Book, now: Instant, addressed: set<string>, n: nat, id: SubscriptionId)
    requires id < |book.subs|
    ensures var after := CallRepeatedly(book, now, addressed, n);
      && |after.subs| == |book.subs|
      && after.subs[id] ==
         if book.subs[id].customerId in addressed
         then RenewRepeatedly(book.next, book.subs[id], CycleOf(book.plans, book.subs[id]), now, n)
         else book.subs[id]
    decreases n
  {
    if n > 0 {
      RowsMoveAlone(ProcessDue(book, now, addressed, {}), now, addressed, n - 1, id);
      StaysNotDue(book.next, book.subs[id], CycleOf(book.plans, book.subs[id]), now, n - 1);
    }
  }

  lemma StaysNotDue(next: Calendar, sub: Subscription, cycle: Cycle, now: Instant, n: nat)
    ensures !Due(sub, now) ==> RenewRepeatedly(next, sub, cycle, now, n) == sub
  {
  }

  /** A due row moves on cycle by cycle until it is no longer due or the calls run out, and no further. */
  lemma {:induction false} RenewedUntilNotDue(next: Calendar, sub: Subscription, cycle: Cycle, now: Instant, n: nat)
    returns (cycles: nat)
    requires sub.status == Active && sub.nextBilling.Some?
    ensures var after := RenewRepeatedly(next, sub, cycle, now, n);
      var billing := sub.nextBilling.value;
      && after.status == sub.status && after.renewals == sub.renewals + cycles <= sub.renewals + n
      && after.nextBilling == Some(NthDate(next, billing, cycle, cycles))
      && (cycles > 0 ==> NthDate(next, billing, cycle, cycles - 1) <= now)
      && (cycles < n ==> !Due(after, now))
    decreases n
  {
    if n == 0 || !Due(sub, now) {
      cycles := 0;
    } else {
      var rest := RenewedUntilNotDue(next, Renewed(next, sub, cycle, now), cycle, now, n - 1);
      cycles := rest + 1;
      NthOfNext(next, sub.nextBilling.value, cycle, rest);
      if rest > 0 {
        NthOfNext(next, sub.nextBilling.value, cycle, rest - 1);
      }
    }
  }

  lemma EnoughCallsCatchUp(next: Calendar, sub: Subscription, cycle: Cycle, now: Instant, n: nat)
    requires Advances(next) && n > now / DAY + 1
    ensures !Due(RenewRepeatedly(next, sub, cycle, now, n), now)
  {
    if Due(sub, now) {
      var cycles := RenewedUntilNotDue(next, sub, cycle, now, n);
      LaterDatesAreLater(next, sub.nextBilling.value, cycle, n - 1);
    }
  }

  /** Enough calls at a fixed time leave nothing due exactly when every customer with a due row has an
      address. */
  lemma CallsCatchUpExactlyWhen(book: Book, now: Instant, addressed: set<string>, n: nat)
    requires Advances(book.next) && n > now / DAY + 1
    ensures NothingDue(CallRepeatedly(book, now, addressed, n), now) <==>
      forall i | 0 <= i < |book.subs| && Due(book.subs[i], now) :: book.subs[i].customerId in addressed
  {
    var after := CallRepeatedly(book, now, addressed, n);
    CallsKeepTheRows(book, now, addressed, n);
    forall i | 0 <= i < |book.subs|
      ensures Due(after.subs[i], now) <==> Due(book.subs[i], now) && book.subs[i].customerId !in addressed
    {
      RowsMoveAlone(book, now, addressed, n, i);
      EnoughCallsCatchUp(book.next, book.subs[i], CycleOf(book.plans, book.subs[i]), now, n);
    }
  }

  lemma {:induction false} CallsKeepTheRows(book: Book, now: Instant, addressed: set<string>, n: nat)
    ensures |CallRepeatedly(book, now, addressed, n).subs| == |book.subs|
    decreases n
  {
    if n > 0 {
      CallsKeepTheRows(ProcessDue(book, now, addressed, {}), now, addressed, n - 1);
    }
  }

  // ---- the services ----

  /** The book with the given rows renewed and no others. */
  ghost function After(book: Book, now: Instant, renewed: set<SubscriptionId>): (after: Book)
    ensures |after.subs| == |book.subs|
  {
    book.(subs := seq(|book.subs|, i requires 0 <= i < |book.subs| =>
      if i in renewed then Renewed(book.next, book.subs[i], CycleOf(book.plans, book.subs[i]), now) else book.subs[i]))
  }

  function RenewRow(book: Book, id: SubscriptionId, now: Instant): Book
    requires id < |book.subs|
  {
    book.(subs := book.subs[id := Renewed(book.next, book.subs[id], CycleOf(book.plans, book.subs[id]), now)])
  }

  lemma OneMoreRenewed(book: Book, now: Instant, renewed: set<SubscriptionId>, id: SubscriptionId)
    requires id < |book.subs| && id !in renewed
    ensures After(book, now, renewed).subs[id] == book.subs[id]
    ensures After(book, now, renewed + {id}) == RenewRow(After(book, now, renewed), id, now)
  {
  }

  /** `due` is what the query may return: the due rows, each once, in any order. */
  ghost predicate IsQueryResult(book: Book, now: Instant, due: seq<SubscriptionId>) {
    && (forall id: nat :: id in due <==> id < |book.subs| && Due(book.subs[id], now))
    && (forall i, j | 0 <= i < j < |due| :: due[i] != due[j])
  }

  ghost function RenewedRows(book: Book, now: Instant, ids: seq<SubscriptionId>, addressed: set<string>,
                             broken: set<SubscriptionId>): set<SubscriptionId> {
    set id | id in ids && Renews(book, id, now, addressed, broken)
  }

  lemma NextDueRow(book: Book, now: Instant, due: seq<SubscriptionId>, k: nat,
                   addressed: set<string>, broken: set<SubscriptionId>)
    requires IsQueryResult(book, now, due) && k < |due|
    ensures due[k] < |book.subs| && due[k] !in RenewedRows(book, now, due[..k], addressed, broken)
    ensures RenewedRows(book, now, due[..k + 1], addressed, broken) ==
      RenewedRows(book, now, due[..k], addressed, broken) +
      if book.subs[due[k]].customerId in addressed && due[k] !in broken then {due[k]} else {}
  {
  }

  /** The book after the first `k` rows, and how many of them were renewed. */
  ghost function Partway(book: Book, now: Instant, due: seq<SubscriptionId>, k: nat, addressed: set<string>,
                         broken: set<SubscriptionId>): (Book, nat)
    requires k <= |due|
  {
    var renewed := RenewedRows(book, now, due[..k], addressed, broken);
    (After(book, now, renewed), |renewed|)
  }

  lemma OneMoreDueRow(book: Book, now: Instant, due: seq<SubscriptionId>, k: nat,
                      addressed: set<string>, broken: set<SubscriptionId>)
    requires IsQueryResult(book, now, due) && k < |due|
    ensures var (before, n) := Partway(book, now, due, k, addressed, broken);
      var id := due[k];
      && id < |before.subs|
      && Partway(book, now, due, k + 1, addressed, broken) ==
         if before.subs[id].customerId in addressed && id !in broken
         then (RenewRow(before, id, now), n + 1) else (before, n)
  {
    NextDueRow(book, now, due, k, addressed, broken);
    var renewed := RenewedRows(book, now, due[..k], addressed, broken);
    OneMoreRenewed(book, now, renewed, due[k]);
    if book.subs[due[k]].customerId in addressed && due[k] !in broken {
      assert |renewed + {due[k]}| == |renewed| + 1;
    } else {
      assert RenewedRows(book, now, due[..k + 1], addressed, broken) == renewed;
    }
  }

  lemma NothingRenewedYet(book: Book, now: Instant, due: seq<SubscriptionId>,
                          addressed: set<string>, broken: set<SubscriptionId>)
    ensures Partway(book, now, due, 0, addressed, broken) == (book, 0)
  {
    assert After(book, now, {}).subs == book.subs;
    assert RenewedRows(book, now, due[..0], addressed, broken) == {};
  }

  lemma AllRenewed(book: Book, now: Instant, due: seq<SubscriptionId>,
                   addressed: set<string>, broken: set<SubscriptionId>)
    requires IsQueryResult(book, now, due)
    ensures Partway(book, now, due, |due|, addressed, broken) ==
      (ProcessDue(book, now, addressed, broken), |RenewedRows(book, now, due, addressed, broken)|)
  {
    assert due[..|due|] == due;
    assert After(book, now, RenewedRows(book, now, due, addressed, broken)).subs ==
      ProcessDue(book, now, addressed, broken).subs;
  }

  class Service {
    const next: Calendar
    var plans: seq<Plan>
    var subs: seq<Subscription>

    constructor (next: Calendar, plans: seq<Plan>)
      requires Advances(next)
      ensures View() == Book(next, plans, []) && BookOk(View())
    {
      this.next, this.plans, subs := next, plans, [];
    }

    function View(): Book
      reads this
    {
      Book(next, plans, subs)
    }

    method CreateSubscription(customerId: string, planId: PlanId, start: Instant, addressed: set<string>)
      returns (thrown: Option<Error>)
      requires Advances(next) && BookOk(View())
      modifies this
      ensures View() == OrElse(Create(old(View()), customerId, planId, start, addressed), old(View()))
      ensures thrown.Some? <==> Create(old(View()), customerId, planId, start, addressed).Failure?
      ensures BookOk(View())
    {
      StepKeepsVisits(View(), DoCreate(customerId, planId, start, addressed));
      if !ActivePlan(plans, planId) {
        return Some(PlanNotFound);
      }
      if customerId !in addressed {
        return Some(AddressRequired);
      }
      subs := subs + [NewSubscription(next, customerId, planId, plans[planId].cycle, start)];
      return None;
    }

    method MoveTo(id: SubscriptionId, to: Status) returns (thrown: Option<Error>)
      requires Advances(next) && BookOk(View())
      modifies this
      ensures View() == OrElse(Move(old(View()), id, to), old(View()))
      ensures thrown.Some? <==> Move(old(View()), id, to).Failure?
      ensures BookOk(View())
    {
      StepKeepsVisits(View(), DoMove(id, to));
      if id >= |subs| {
        return Some(SubscriptionNotFound);
      }
      if !SubTransitionAllowed(subs[id].status, to) {
        return Some(InvalidStatus);
      }
      subs := subs[id := subs[id].(status := to)];
      return None;
    }

    method SwitchPlan(id: SubscriptionId, planId: PlanId, now: Instant) returns (thrown: Option<Error>)
      requires Advances(next) && BookOk(View())
      modifies this
      ensures View() == OrElse(ChangePlan(old(View()), id, planId, now), old(View()))
      ensures thrown.Some? <==> ChangePlan(old(View()), id, planId, now).Failure?
      ensures BookOk(View())
    {
      StepKeepsVisits(View(), DoChangePlan(id, planId, now));
      if id >= |subs| {
        return Some(SubscriptionNotFound);
      }
      if subs[id].status !in {Active, Paused} {
        return Some(InvalidStatus);
      }
      if !ActivePlan(plans, planId) {
        return Some(PlanNotFound);
      }
      if planId == subs[id].planId {
        return Some(AlreadyOnPlan);
      }
      subs := subs[id := subs[id].(planId := planId, nextBilling := Some(next(now, plans[planId].cycle)))];
      return None;
    }

    /** The transaction: the visit, the two dates and the audit row. */
    method RenewOne(id: SubscriptionId, now: Instant)
      requires Advances(next) && BookOk(View()) && id < |subs|
      modifies this`subs
      ensures View() == RenewRow(old(View()), id, now) && BookOk(View())
    {
      RenewalKeepsVisits(next, subs[id], CycleOf(plans, subs[id]), now);
      subs := subs[id := Renewed(next, subs[id], CycleOf(plans, subs[id]), now)];
    }

    /** `due` is what the query returned, in whatever order. */
    method ProcessDueRenewals(now: Instant, due: seq<SubscriptionId>,
                              addressed: set<string>, broken: set<SubscriptionId>)
      returns (processed: nat)
      requires Advances(next) && BookOk(View()) && IsQueryResult(View(), now, due)
      modifies this
      ensures View() == ProcessDue(old(View()), now, addressed, broken)
      ensures processed == |RenewedRows(old(View()), now, due, addressed, broken)|
      ensures BookOk(View())
    {
      ghost var book := View();
      processed := 0;
      NothingRenewedYet(book, now, due, addressed, broken);
      for k := 0 to |due|
        invariant BookOk(View())
        invariant (View(), processed) == Partway(book, now, due, k, addressed, broken)
      {
        var id := due[k];
        OneMoreDueRow(book, now, due, k, addressed, broken);
        if subs[id].customerId in addressed && id !in broken {
          RenewOne(id, now);
          processed := processed + 1;
        }
      }
      AllRenewed(book, now, due, addressed, broken);
    }
  }
}
