/** Renewal on the civil calendar: what a careful change comes to in dates, and short runs that go wrong. */
module RenewalExamples {
  import opened Wrappers
  import opened CycleDates
  import opened Renewals

  /** In dates: a plan change is careful when made on the very date of the next service, or when one of the two
      runs over a short month into where the other leads; an edit is careful when it leaves the cycle alone or
      nobody has the plan. */
  lemma CarefulInDates(book: Book, op: Op)
    requires book.next == NextCycleDate && BookOk(book)
    ensures Careful(book, op) <==>
      match op
      case DoChangePlan(id, planId, now) =>
        ChangePlan(book, id, planId, now).Success? ==>
          var cycle, service := book.plans[planId].cycle, book.subs[id].nextService.value;
          Meet(now, service, cycle)
      case DoEditPlan(planId, plan) =>
        planId < |book.plans| && (exists i | 0 <= i < |book.subs| :: book.subs[i].planId == planId) ==>
          plan.cycle == book.plans[planId].cycle
      case _ => true
  {
    match op
    case DoChangePlan(id, planId, now) =>
      if ChangePlan(book, id, planId, now).Success? {
        NextDatesMeetExactlyWhen(now, book.subs[id].nextService.value, book.plans[planId].cycle);
      }
    case DoEditPlan(planId, plan) =>
      if planId < |book.plans| {
        forall i | 0 <= i < |book.subs| && book.subs[i].planId == planId
          ensures var service := book.subs[i].nextService.GetOr(0);
            NextCycleDate(service, plan.cycle) == NextCycleDate(service, book.plans[planId].cycle) <==>
              plan.cycle == book.plans[planId].cycle
        {
          DifferentCyclesLeadToDifferentDates(book.subs[i].nextService.GetOr(0), plan.cycle, book.plans[planId].cycle);
        }
      }
    case _ =>
  }

  lemma OneStep(book: Book, op: Op, ops: seq<Op>)
    ensures Run(book, [op] + ops) == Run(Apply(book, op), ops)
  {
    assert ([op] + ops)[1..] == ops;
  }

  /** Two weekly plans, a subscription to the first, and a day later a change to the second: the next service is a
      week from the start, the next bill eight days from it. */
  lemma PlanChangeCanPutBillingOutOfStep(customerId: string)
    ensures var plan := Plan(Weekly, true);
      var book := Run(Empty(NextCycleDate), [DoEditPlan(0, plan), DoEditPlan(1, plan),
                                             DoCreate(customerId, 0, 0, {customerId}), DoChangePlan(0, 1, DAY)]);
      && |book.subs| == 1 && book.subs[0].nextService == Some(0) && book.subs[0].nextBilling == Some(8 * DAY)
      && !AllInStep(book)
  {
    var plan := Plan(Weekly, true);
    var create, change := DoCreate(customerId, 0, 0, {customerId}), DoChangePlan(0, 1, DAY);
    var b0 := Empty(NextCycleDate);
    var b1 := Book(NextCycleDate, [plan], []);
    var b2 := Book(NextCycleDate, [plan, plan], []);
    var b3 := b2.(subs := [NewSubscription(NextCycleDate, customerId, 0, Weekly, 0)]);
    var b4 := Apply(b3, change);
    assert Apply(b0, DoEditPlan(0, plan)) == b1 && Apply(b1, DoEditPlan(1, plan)) == b2 && Apply(b2, create) == b3;
    OneStep(b3, change, []);
    OneStep(b2, create, [change] + []);
    OneStep(b1, DoEditPlan(1, plan), [create] + ([change] + []));
    OneStep(b0, DoEditPlan(0, plan), [DoEditPlan(1, plan)] + ([create] + ([change] + [])));
    assert [DoEditPlan(0, plan)] + ([DoEditPlan(1, plan)] + ([create] + ([change] + []))) ==
      [DoEditPlan(0, plan), DoEditPlan(1, plan), create, change];
    assert b4.subs[0].nextBilling == Some(8 * DAY) && !InStep(b4, b4.subs[0]);
  }

  /** Two weekly plans and a subscription starting on day 60; the plan is changed on day 0, which bills on day 7:
      the renewal on day 7 books day 60. */
  lemma EarlyPlanChangeCanRenewAhead(customerId: string)
    ensures var plan := Plan(Weekly, true);
      var book := Run(Empty(NextCycleDate), [DoEditPlan(0, plan), DoEditPlan(1, plan),
                                             DoCreate(customerId, 0, 60 * DAY, {customerId}), DoChangePlan(0, 1, 0),
                                             DoProcessDue(7 * DAY, {customerId}, {})]);
      |book.subs| == 1 && book.subs[0].renewals == 1 && book.subs[0].visits == [60 * DAY, 60 * DAY]
  {
    var plan := Plan(Weekly, true);
    var create, change := DoCreate(customerId, 0, 60 * DAY, {customerId}), DoChangePlan(0, 1, 0);
    var renew := DoProcessDue(7 * DAY, {customerId}, {});
    var b0 := Empty(NextCycleDate);
    var b1 := Book(NextCycleDate, [plan], []);
    var b2 := Book(NextCycleDate, [plan, plan], []);
    var b3 := b2.(subs := [NewSubscription(NextCycleDate, customerId, 0, Weekly, 60 * DAY)]);
    var b4 := Apply(b3, change);
    assert Apply(b0, DoEditPlan(0, plan)) == b1 && Apply(b1, DoEditPlan(1, plan)) == b2 && Apply(b2, create) == b3;
    assert b4.subs[0].nextBilling == Some(7 * DAY) && Renews(b4, 0, 7 * DAY, {customerId}, {});
    OneStep(b4, renew, []);
    OneStep(b3, change, [renew] + []);
    OneStep(b2, create, [change] + ([renew] + []));
    OneStep(b1, DoEditPlan(1, plan), [create] + ([change] + ([renew] + [])));
    OneStep(b0, DoEditPlan(0, plan), [DoEditPlan(1, plan)] + ([create] + ([change] + ([renew] + []))));
    assert [DoEditPlan(0, plan)] + ([DoEditPlan(1, plan)] + ([create] + ([change] + ([renew] + [])))) ==
      [DoEditPlan(0, plan), DoEditPlan(1, plan), create, change, renew];
  }
}
