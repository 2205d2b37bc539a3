/** What payments, refunds, gateway events and voids keep over whole runs, and where they fall short. */
module PaymentRuns {
  import opened Wrappers
  import opened Rounding
  import opened Payments

  ghost predicate NoOverwrites(l: Ledger, ops: seq<Op>)
    decreases |ops|
  {
    ops == [] || (!Overwrites(l, ops[0]) && NoOverwrites(Apply(l, ops[0]), ops[1..]))
  }

  lemma {:induction false} RunKeepsInv(l: Ledger, ops: seq<Op>)
    requires LedgerInv(l) && NoOverwrites(l, ops)
    ensures LedgerInv(Run(l, ops))
    decreases |ops|
  {
    if ops != [] {
      StepKeepsInv(l, ops[0]);
      RunKeepsInv(Apply(l, ops[0]), ops[1..]);
    }
  }

  /** Any sequence of refunds of any amounts, between gateway events however often repeated, sends back what
      the ledger says and no more than was paid. */
  lemma RefundsNeverExceedThePayment(ops: seq<Op>, id: nat)
    requires NoOverwrites(EMPTY_LEDGER, ops)
    ensures var l := Run(EMPTY_LEDGER, ops);
      id < |l.payments| ==>
        && l.payments[id].sent == l.payments[id].refundedAmount
        && l.payments[id].sent <= l.payments[id].amount + TOLERANCE
  {
    RunKeepsInv(EMPTY_LEDGER, ops);
    var l := Run(EMPTY_LEDGER, ops);
    if id < |l.payments| {
      assert l.payments[id] in l.payments;
    }
  }

  lemma SettledPaymentsHavePaidInvoices(ops: seq<Op>, id: nat)
    requires NoOverwrites(EMPTY_LEDGER, ops)
    ensures var l := Run(EMPTY_LEDGER, ops);
      id < |l.payments| && Settled(l.payments[id].status) ==>
        l.payments[id].invoiceId < |l.invoices| && l.invoices[l.payments[id].invoiceId].status == Paid
  {
    RunKeepsInv(EMPTY_LEDGER, ops);
    var l := Run(EMPTY_LEDGER, ops);
    if id < |l.payments| {
      assert l.payments[id] in l.payments;
    }
  }

  /** A paid invoice stays paid, whatever happens, refund webhooks included. */
  lemma {:induction false} PaidIsNeverLeft(l: Ledger, ops: seq<Op>, id: nat)
    requires id < |l.invoices| && l.invoices[id].status == Paid
    ensures var l' := Run(l, ops);
      id < |l'.invoices| && l'.invoices[id].status == Paid && l'.invoices[id].bookingId == l.invoices[id].bookingId
    decreases |ops|
  {
    if ops != [] {
      PaidIsNeverLeft(Apply(l, ops[0]), ops[1..], id);
    }
  }

  lemma UpdateKeepsOrders(l: Ledger, id: nat, p: Payment, orderId: OrderId, from: nat)
    requires id < |l.payments| && p.orderId == l.payments[id].orderId && from <= |l.payments|
    ensures PaymentOfFrom(SetPayment(l, id, p), orderId, from) == PaymentOfFrom(l, orderId, from)
    decreases |l.payments| - from
  {
  }

  lemma InvoicesDoNotAffectOrders(l: Ledger, l': Ledger, orderId: OrderId, from: nat)
    requires l'.payments == l.payments && from <= |l.payments|
    ensures PaymentOfFrom(l', orderId, from) == PaymentOfFrom(l, orderId, from)
    decreases |l.payments| - from
  {
  }

  /** A gateway event delivered twice in a row has the effect of one delivery. */
  lemma EventTwiceIsOnce(l: Ledger, event: Event)
    ensures HandleWebhookEvent(HandleWebhookEvent(l, event), event) == HandleWebhookEvent(l, event)
  {
    if !event.Unhandled? {
      var orderId := event.orderId;
      var found := PaymentOf(l, orderId);
      if found.Some? {
        var after := HandleWebhookEvent(l, event);
        var p := after.payments[found.value];
        UpdateKeepsOrders(l, found.value, p, orderId, 0);
        InvoicesDoNotAffectOrders(SetPayment(l, found.value, p), after, orderId, 0);
      }
    }
  }

  /** An accepted refund is positive, and closes the payment exactly when at most the tolerance is left. */
  lemma AcceptedRefund(l: Ledger, id: nat, requested: Option<real>, gatewayAccepts: bool)
    requires LedgerInv(l) && Refund(l, id, requested, gatewayAccepts).Success?
    ensures var before := l.payments[id];
      var after := Refund(l, id, requested, gatewayAccepts).value.payments[id];
      && after.sent > before.sent && after.refundedAmount > before.refundedAmount >= 0.0
      && (after.status == Refunded <==> after.amount - after.refundedAmount <= TOLERANCE)
      && (after.status == PartiallyRefunded <==> after.amount - after.refundedAmount > TOLERANCE)
  {
    assert l.payments[id] in l.payments;
  }

  // ---- whole paise: what the request validation lets through and the columns hold ----

  lemma PaiseWithinTolerance(x: real, y: real)
    requires IsPaise(x) && IsPaise(y) && x <= y + TOLERANCE
    ensures x <= y
  {
    var a, b := (x * 100.0).Floor, (y * 100.0).Floor;
    assert (a - b) as real <= 0.0001;
  }

  ghost predicate InPaise(l: Ledger) {
    && (forall p | p in l.payments :: IsPaise(p.amount) && IsPaise(p.refundedAmount) && p.refundedAmount <= p.amount)
    && (forall v | v in l.invoices :: IsPaise(v.total) && v.total >= 0.0)
  }

  predicate PaiseOp(op: Op) {
    match op
    case DoRefund(_, requested, _) => requested.Some? ==> IsPaise(requested.value)
    case DoCreateInvoice(_, price, discount) => IsPaise(price) && IsPaise(discount)
    case DoRecompute(_, price, discount) => IsPaise(price) && IsPaise(discount)
    case DoIntent(_, price, discount, _, _, _) => IsPaise(price) && IsPaise(discount)
    case DoEvent(event) => !event.RefundStatus?
    case _ => true
  }

  lemma TotalIsPaise(price: real, discount: real)
    requires IsPaise(price) && IsPaise(discount)
    ensures IsPaise(InvoiceTotal(price, discount))
  {
    var taxable := if price - discount > 0.0 then price - discount else 0.0;
    PaiseArithmetic(price, discount);
    var tax := TwoDecimals(taxable * TAX_RATE);
    RoundingError(taxable * TAX_RATE);
    assert IsPaise(0.0);
    PaiseArithmetic(taxable, tax);
  }

  lemma PaymentUpdateKeepsPaise(l: Ledger, id: nat, p: Payment)
    requires InPaise(l) && id < |l.payments|
    requires IsPaise(p.amount) && IsPaise(p.refundedAmount) && p.refundedAmount <= p.amount
    ensures InPaise(SetPayment(l, id, p))
  {
  }

  lemma InvoiceUpdateKeepsPaise(l: Ledger, id: nat, status: InvoiceStatus)
    requires InPaise(l) && id < |l.invoices|
    ensures InPaise(SetInvoiceStatus(l, id, status))
  {
  }

  lemma SyncKeepsPaise(l: Ledger, orderId: OrderId, status: OrderStatus, message: string)
    requires InPaise(l)
    ensures InPaise(SyncFromOrder(l, orderId, status, message))
  {
  }

  lemma StepKeepsPaise(l: Ledger, op: Op)
    requires InPaise(l) && PaiseOp(op)
    ensures InPaise(Apply(l, op))
  {
    match op
    case DoRefund(id, requested, gatewayAccepts) =>
      if Refund(l, id, requested, gatewayAccepts).Success? {
        var p := l.payments[id];
        assert p in l.payments;
        PaiseArithmetic(p.amount, p.refundedAmount);
        var amount := RefundAmount(p, requested);
        PaiseArithmetic(p.refundedAmount, amount);
        PaiseWithinTolerance(p.refundedAmount + amount, p.amount);
        PaymentUpdateKeepsPaise(l, id, Refunding(p, amount));
      }
    case DoConfirm(order, status) => SyncKeepsPaise(l, order, status, "Payment failed");
    case DoEvent(event) =>
      match event {
        case PaymentSuccess(orderId) => SyncKeepsPaise(l, orderId, OrderPaid, "");
        case PaymentFailed(orderId, message) => SyncKeepsPaise(l, orderId, OrderFailed, message);
        case _ =>
      }
    case DoCreateInvoice(_, price, discount) =>
      TotalIsPaise(price, discount);
      InvoiceTotalIsNotNegative(price, discount);
    case DoVoid(invoiceId) =>
      if VoidInvoice(l, invoiceId).Success? {
        InvoiceUpdateKeepsPaise(l, invoiceId, Void);
      }
    case DoRecompute(invoiceId, price, discount) =>
      TotalIsPaise(price, discount);
      InvoiceTotalIsNotNegative(price, discount);
      if invoiceId < |l.invoices| {
        var l' := Apply(l, op);
        assert forall v | v in l'.invoices :: v == l'.invoices[invoiceId] || v in l.invoices;
      }
    case DoIntent(bookingId, price, discount, _, _, _) =>
      TotalIsPaise(price, discount);
      InvoiceTotalIsNotNegative(price, discount);
      match EnsureInvoice(l, bookingId, price, discount) {
        case Failure(_) =>
        case Success((l', invoiceId)) => assert l'.invoices[invoiceId] in l'.invoices;
          assert IsPaise(0.0);
      }
  }

  lemma {:induction false} RunKeepsPaise(l: Ledger, ops: seq<Op>)
    requires InPaise(l) && forall op | op in ops :: PaiseOp(op)
    ensures InPaise(Run(l, ops))
    decreases |ops|
  {
    if ops != [] {
      StepKeepsPaise(l, ops[0]);
      RunKeepsPaise(Apply(l, ops[0]), ops[1..]);
    }
  }

  /** On whole paise the tolerance never lets anything through: refunds stay within the payment exactly. */
  lemma PaiseRefundsAreExact(ops: seq<Op>, id: nat)
    requires forall op | op in ops :: PaiseOp(op)
    ensures var l := Run(EMPTY_LEDGER, ops);
      id < |l.payments| ==>
        IsPaise(l.payments[id].refundedAmount) && l.payments[id].refundedAmount <= l.payments[id].amount
  {
    RunKeepsPaise(EMPTY_LEDGER, ops);
    var l := Run(EMPTY_LEDGER, ops);
    if id < |l.payments| {
      assert l.payments[id] in l.payments;
    }
  }

  // ---- where the code falls short ----

  /** The refund webhook replaces the running total by the amount of one refund.  It keeps the ledger balanced
      exactly when the two happen to be equal, and keeps invoices in agreement exactly when they are equal or
      the invoice was paid. */
  lemma RefundWebhookKeepsTheLedgerExactlyWhen(l: Ledger, orderId: OrderId, succeeded: bool, reported: real)
    requires LedgerInv(l)
    ensures var l' := HandleRefundWebhook(l, orderId, succeeded, reported);
      var overwrites := Overwrites(l, DoEvent(RefundStatus(orderId, succeeded, reported)));
      && (RefundsOk(l') <==> !overwrites)
      && (InvoicesAgree(l') <==>
            overwrites ==> l.invoices[l.payments[PaymentOf(l, orderId).value].invoiceId].status == Paid)
  {
    var l' := HandleRefundWebhook(l, orderId, succeeded, reported);
    var found := PaymentOf(l, orderId);
    if Overwrites(l, DoEvent(RefundStatus(orderId, succeeded, reported))) {
      assert l.payments[found.value] in l.payments && l'.payments[found.value] in l'.payments;
      assert forall q | q in l'.payments :: q == l'.payments[found.value] || q in l.payments;
    }
  }

  lemma StepKeepsRefundsExactlyWhen(l: Ledger, op: Op)
    requires LedgerInv(l)
    ensures RefundsOk(Apply(l, op)) <==> !Overwrites(l, op)
  {
    if Overwrites(l, op) {
      RefundWebhookKeepsTheLedgerExactlyWhen(l, op.event.orderId, op.event.succeeded, op.event.reported);
    } else {
      StepKeepsInv(l, op);
    }
  }

  ghost predicate RefundsOkThroughout(l: Ledger, ops: seq<Op>)
    decreases |ops|
  {
    RefundsOk(l) && (ops == [] || RefundsOkThroughout(Apply(l, ops[0]), ops[1..]))
  }

  /** The refund total is right all through a run exactly when no refund webhook ever contradicts it. */
  lemma {:induction false} RefundsOkExactlyWhenNeverOverwritten(l: Ledger, ops: seq<Op>)
    requires LedgerInv(l)
    ensures RefundsOkThroughout(l, ops) <==> NoOverwrites(l, ops)
    decreases |ops|
  {
    if ops != [] {
      StepKeepsRefundsExactlyWhen(l, ops[0]);
      if !Overwrites(l, ops[0]) {
        StepKeepsInv(l, ops[0]);
        RefundsOkExactlyWhenNeverOverwritten(Apply(l, ops[0]), ops[1..]);
      }
    }
  }

  /** The invoice state machine the repository declares. */
  function InvoiceTransitions(from: InvoiceStatus): set<InvoiceStatus> {
    match from
    case Draft => {Issued, Void}
    case Issued => {PartiallyPaid, Paid, Overdue, Void}
    case PartiallyPaid => {Paid, Overdue, Void}
    case Overdue => {PartiallyPaid, Paid, Void}
    case Paid => {}
    case Void => {}
  }

  /** A payment's success marks its invoice paid without consulting that machine: the step is one of its edges,
      or no step at all, exactly when the invoice was neither a draft nor void. */
  lemma SuccessFollowsTheInvoiceMachineExactlyWhen(l: Ledger, orderId: OrderId)
    requires TablesOk(l) && PaymentOf(l, orderId).Some?
    requires l.payments[PaymentOf(l, orderId).value].status != Succeeded
    ensures var id := l.payments[PaymentOf(l, orderId).value].invoiceId;
      id < |l.invoices| &&
      var before, after := l.invoices[id].status, SyncFromOrder(l, orderId, OrderPaid, "").invoices[id].status;
      after in InvoiceTransitions(before) + {before} <==> before != Draft && before != Void
  {
  }

  /** The order that the call finds paid. */
  function PaidOrder(op: Op): Option<OrderId> {
    match op
    case DoConfirm(order, status) => if status == OrderPaid then Some(order) else None
    case DoEvent(event) => if event.PaymentSuccess? then Some(event.orderId) else None
    case _ => None
  }

  /** A success for a payment not yet succeeded whose invoice is a draft or void. */
  predicate Revives(l: Ledger, op: Op) {
    && PaidOrder(op).Some?
    && var found := PaymentOf(l, PaidOrder(op).value);
       && found.Some? && l.payments[found.value].status != Succeeded
       && l.payments[found.value].invoiceId < |l.invoices|
       && l.invoices[l.payments[found.value].invoiceId].status in {Draft, Void}
  }

  /** Every invoice keeps its status or takes an edge of the machine. */
  predicate FollowsTheMachine(l: Ledger, l': Ledger) {
    && |l.invoices| <= |l'.invoices|
    && forall v | 0 <= v < |l.invoices| ::
         l'.invoices[v].status in InvoiceTransitions(l.invoices[v].status) + {l.invoices[v].status}
  }

  lemma SuccessKeepsInvoicesOnTheMachineExactlyWhen(l: Ledger, orderId: OrderId, message: string)
    ensures FollowsTheMachine(l, SyncFromOrder(l, orderId, OrderPaid, message)) <==>
      !Revives(l, DoConfirm(orderId, OrderPaid))
  {
    var found := PaymentOf(l, orderId);
    if Revives(l, DoConfirm(orderId, OrderPaid)) {
      assert l.payments[found.value].invoiceId < |l.invoices|;
    }
  }

  lemma OtherCallsFollowTheMachine(l: Ledger, op: Op)
    requires PaidOrder(op).None?
    ensures FollowsTheMachine(l, Apply(l, op))
  {
  }

  lemma StepFollowsTheMachineExactlyWhen(l: Ledger, op: Op)
    ensures FollowsTheMachine(l, Apply(l, op)) <==> !Revives(l, op)
  {
    if PaidOrder(op).Some? {
      SuccessKeepsInvoicesOnTheMachineExactlyWhen(l, PaidOrder(op).value,
                                                  if op.DoConfirm? then "Payment failed" else "");
    } else {
      OtherCallsFollowTheMachine(l, op);
    }
  }

  ghost predicate FollowsThroughout(l: Ledger, ops: seq<Op>)
    decreases |ops|
  {
    ops == [] || (FollowsTheMachine(l, Apply(l, ops[0])) && FollowsThroughout(Apply(l, ops[0]), ops[1..]))
  }

  ghost predicate NeverRevives(l: Ledger, ops: seq<Op>)
    decreases |ops|
  {
    ops == [] || (!Revives(l, ops[0]) && NeverRevives(Apply(l, ops[0]), ops[1..]))
  }

  /** Every invoice moves along the declared machine, all through a run, exactly when no success arrives for an
      invoice that is a draft or void. */
  lemma {:induction false} InvoicesFollowTheMachineExactlyWhen(l: Ledger, ops: seq<Op>)
    ensures FollowsThroughout(l, ops) <==> NeverRevives(l, ops)
    decreases |ops|
  {
    if ops != [] {
      StepFollowsTheMachineExactlyWhen(l, ops[0]);
      InvoicesFollowTheMachineExactlyWhen(Apply(l, ops[0]), ops[1..]);
    }
  }

  /** The code means to issue a fresh invoice for a booking whose invoice was voided, but the one-per-booking
      constraint never lets it: invoicing a booking succeeds exactly when no voided invoice is in the way. */
  lemma VoidedInvoiceBlocksReissue(l: Ledger, bookingId: nat, price: real, discount: real)
    ensures var existing := InvoiceOf(l, bookingId);
      EnsureInvoice(l, bookingId, price, discount).Success? <==>
        (existing.Some? ==> l.invoices[existing.value].status != Void)
    ensures var existing := InvoiceOf(l, bookingId);
      existing.Some? && l.invoices[existing.value].status == Void ==>
        && CreateInvoice(l, bookingId, price, discount) == Failure(UniqueViolation)
        && forall key, orderActive, orderCreated ::
             CreateIntent(l, bookingId, price, discount, key, orderActive, orderCreated) == (l, Some(UniqueViolation))
  {
  }

  /** A payment shown as succeeded has nothing refunded. */
  ghost predicate StatusShowsRefunds(l: Ledger) {
    forall p | p in l.payments && p.status == Succeeded :: p.refundedAmount == 0.0
  }

  /** A repeated success event after a refund resets the status; it stays truthful exactly when nothing had
      been refunded or the status was not touched. */
  lemma ReplayedSuccessHidesRefunds(l: Ledger, orderId: OrderId)
    requires LedgerInv(l) && StatusShowsRefunds(l)
    ensures StatusShowsRefunds(SyncFromOrder(l, orderId, OrderPaid, "")) <==>
      var found := PaymentOf(l, orderId);
      found.Some? ==> l.payments[found.value].refundedAmount == 0.0
  {
    var found := PaymentOf(l, orderId);
    if found.Some? {
      var l' := SyncFromOrder(l, orderId, OrderPaid, "");
      assert l.payments[found.value] in l.payments && l'.payments[found.value] in l'.payments;
      assert forall q | q in l'.payments :: q == l'.payments[found.value] || q in l.payments;
    }
  }

  /** A success for a payment of which something has been refunded, and that shows it. */
  predicate Hides(l: Ledger, op: Op) {
    && PaidOrder(op).Some?
    && var found := PaymentOf(l, PaidOrder(op).value);
       && found.Some? && l.payments[found.value].status != Succeeded
       && l.payments[found.value].invoiceId < |l.invoices|
       && l.payments[found.value].refundedAmount != 0.0
  }

  /** Replacing one row keeps statuses truthful exactly when the new row is. */
  lemma UpdateShowsRefundsExactlyWhen(l: Ledger, l': Ledger, id: nat)
    requires StatusShowsRefunds(l) && id < |l.payments| == |l'.payments|
    requires forall i | 0 <= i < |l.payments| && i != id :: l'.payments[i] == l.payments[i]
    ensures StatusShowsRefunds(l') <==>
      (l'.payments[id].status == Succeeded ==> l'.payments[id].refundedAmount == 0.0)
  {
    assert l'.payments[id] in l'.payments;
    forall p | p in l'.payments && p != l'.payments[id] ensures p in l.payments {
      var i :| 0 <= i < |l'.payments| && l'.payments[i] == p;
    }
  }

  lemma SuccessShowsRefundsExactlyWhen(l: Ledger, orderId: OrderId, message: string)
    requires StatusShowsRefunds(l)
    ensures StatusShowsRefunds(SyncFromOrder(l, orderId, OrderPaid, message)) <==>
      !Hides(l, DoConfirm(orderId, OrderPaid))
  {
    var found := PaymentOf(l, orderId);
    if found.Some? {
      assert l.payments[found.value] in l.payments;
      UpdateShowsRefundsExactlyWhen(l, SyncFromOrder(l, orderId, OrderPaid, message), found.value);
    }
  }

  lemma OtherCallsShowRefunds(l: Ledger, op: Op)
    requires StatusShowsRefunds(l) && PaidOrder(op).None?
    ensures StatusShowsRefunds(Apply(l, op))
  {
    var l' := Apply(l, op);
    forall p | p in l'.payments && p.status == Succeeded ensures p.refundedAmount == 0.0 {
      var i :| 0 <= i < |l'.payments| && l'.payments[i] == p;
      assert i < |l.payments| ==> l.payments[i] in l.payments;
    }
  }

  lemma StepShowsRefundsExactlyWhen(l: Ledger, op: Op)
    requires StatusShowsRefunds(l)
    ensures StatusShowsRefunds(Apply(l, op)) <==> !Hides(l, op)
  {
    if PaidOrder(op).Some? {
      SuccessShowsRefundsExactlyWhen(l, PaidOrder(op).value, if op.DoConfirm? then "Payment failed" else "");
    } else {
      OtherCallsShowRefunds(l, op);
    }
  }

  ghost predicate RefundsShownThroughout(l: Ledger, ops: seq<Op>)
    decreases |ops|
  {
    StatusShowsRefunds(l) && (ops == [] || RefundsShownThroughout(Apply(l, ops[0]), ops[1..]))
  }

  ghost predicate NeverHides(l: Ledger, ops: seq<Op>)
    decreases |ops|
  {
    ops == [] || (!Hides(l, ops[0]) && NeverHides(Apply(l, ops[0]), ops[1..]))
  }

  /** SUCCEEDED means that nothing was refunded, all through a run, exactly when no success arrives for a payment
      of which something was. */
  lemma {:induction false} RefundsAreShownExactlyWhen(l: Ledger, ops: seq<Op>)
    requires StatusShowsRefunds(l)
    ensures RefundsShownThroughout(l, ops) <==> NeverHides(l, ops)
    decreases |ops|
  {
    if ops != [] {
      StepShowsRefundsExactlyWhen(l, ops[0]);
      if !Hides(l, ops[0]) {
        RefundsAreShownExactlyWhen(Apply(l, ops[0]), ops[1..]);
      }
    }
  }

  // ---- what was charged and what was billed ----

  predicate BillsAgree(l: Ledger) {
    forall i | 0 <= i < |l.payments| ::
      l.payments[i].invoiceId < |l.invoices| && l.payments[i].amount == l.invoices[l.payments[i].invoiceId].total
  }

  /** A recomputation that changes the total of an invoice with payments. */
  predicate Rebills(l: Ledger, op: Op) {
    && op.DoRecompute? && op.invoiceId < |l.invoices|
    && InvoiceTotal(op.price, op.discount) != l.invoices[op.invoiceId].total
    && exists i | 0 <= i < |l.payments| :: l.payments[i].invoiceId == op.invoiceId
  }

  /** Payments keep their amount and invoices their total. */
  lemma EventsKeepBills(l: Ledger, op: Op)
    requires BillsAgree(l) && (op.DoRefund? || op.DoConfirm? || op.DoEvent?)
    ensures BillsAgree(Apply(l, op))
  {
  }

  /** New payments are for the total. */
  lemma InvoicingKeepsBills(l: Ledger, op: Op)
    requires BillsAgree(l) && (op.DoCreateInvoice? || op.DoVoid? || op.DoIntent?)
    ensures BillsAgree(Apply(l, op))
  {
  }

  lemma StepKeepsBillsExactlyWhen(l: Ledger, op: Op)
    requires BillsAgree(l)
    ensures BillsAgree(Apply(l, op)) <==> !Rebills(l, op)
  {
    if op.DoRefund? || op.DoConfirm? || op.DoEvent? {
      EventsKeepBills(l, op);
    } else if !op.DoRecompute? {
      InvoicingKeepsBills(l, op);
    } else if op.invoiceId < |l.invoices| {
      var l' := Apply(l, op);
      if i :| 0 <= i < |l.payments| && l.payments[i].invoiceId == op.invoiceId {
        assert l'.payments[i].amount == l.invoices[op.invoiceId].total;
      }
    }
  }

  ghost predicate BillsAgreeThroughout(l: Ledger, ops: seq<Op>)
    decreases |ops|
  {
    BillsAgree(l) && (ops == [] || BillsAgreeThroughout(Apply(l, ops[0]), ops[1..]))
  }

  ghost predicate NeverRebills(l: Ledger, ops: seq<Op>)
    decreases |ops|
  {
    ops == [] || (!Rebills(l, ops[0]) && NeverRebills(Apply(l, ops[0]), ops[1..]))
  }

  /** Every payment is for its invoice's total, all through a run, exactly when no recomputation ever changes an
      invoice that has payments; nothing in the code prevents one, even once the invoice is paid. */
  lemma {:induction false} BillsAgreeExactlyWhenNeverRebilled(l: Ledger, ops: seq<Op>)
    requires BillsAgree(l)
    ensures BillsAgreeThroughout(l, ops) <==> NeverRebills(l, ops)
    decreases |ops|
  {
    if ops != [] {
      StepKeepsBillsExactlyWhen(l, ops[0]);
      if !Rebills(l, ops[0]) {
        BillsAgreeExactlyWhenNeverRebilled(Apply(l, ops[0]), ops[1..]);
      }
    }
  }

  // ---- what an event does, and what a paid invoice rests on ----

  /** Whatever the payment went through before: it is succeeded, its invoice paid, and nothing else is touched. */
  lemma SuccessSettlesPaymentAndInvoice(l: Ledger, orderId: OrderId)
    requires LedgerInv(l) && PaymentOf(l, orderId).Some?
    ensures var id := PaymentOf(l, orderId).value;
      var invoiceId := l.payments[id].invoiceId;
      && invoiceId < |l.invoices|
      && HandleWebhookEvent(l, PaymentSuccess(orderId)) ==
         SetInvoiceStatus(SetPayment(l, id, l.payments[id].(status := Succeeded)), invoiceId, Paid)
  {
    var p := l.payments[PaymentOf(l, orderId).value];
    assert p in l.payments;
    if p.status == Succeeded {
      assert l.invoices[p.invoiceId := l.invoices[p.invoiceId].(status := Paid)] == l.invoices;
    }
  }

  /** A failure event marks the payment and gives its reason, once; invoices and other payments are not touched. */
  lemma FailureMarksOnlyThePayment(l: Ledger, orderId: OrderId, message: string)
    ensures var l' := HandleWebhookEvent(l, PaymentFailed(orderId, message));
      var found := PaymentOf(l, orderId);
      && l'.invoices == l.invoices && |l'.payments| == |l.payments|
      && (forall i | 0 <= i < |l.payments| && Some(i) != found :: l'.payments[i] == l.payments[i])
      && (found.Some? ==>
            var before, after := l.payments[found.value], l'.payments[found.value];
            && after.status == Failed && after.refundedAmount == before.refundedAmount && after.amount == before.amount
            && after.failureReason == if before.status == Failed then before.failureReason else Some(message))
  {
  }

  /** A settled payment of the invoice, other than `except`. */
  predicate Backed(l: Ledger, invoiceId: nat, except: Option<nat>) {
    exists i | 0 <= i < |l.payments| ::
      Some(i) != except && l.payments[i].invoiceId == invoiceId && Settled(l.payments[i].status)
  }

  ghost predicate PaidIsBacked(l: Ledger) {
    forall v | 0 <= v < |l.invoices| && l.invoices[v].status == Paid :: Backed(l, v, None)
  }

  function FailedOrder(op: Op): Option<OrderId> {
    match op
    case DoConfirm(order, status) => if status == OrderFailed || status == OrderExpired then Some(order) else None
    case DoEvent(event) => if event.PaymentFailed? then Some(event.orderId) else None
    case _ => None
  }

  /** A late failure of the only settled payment of an invoice. */
  predicate Unbacks(l: Ledger, op: Op) {
    && FailedOrder(op).Some?
    && var found := PaymentOf(l, FailedOrder(op).value);
       && found.Some? && Settled(l.payments[found.value].status)
       && !Backed(l, l.payments[found.value].invoiceId, found)
  }

  lemma FailureKeepsBackingExactlyWhen(l: Ledger, orderId: OrderId, status: OrderStatus, message: string)
    requires LedgerInv(l) && PaidIsBacked(l) && (status == OrderFailed || status == OrderExpired)
    ensures PaidIsBacked(SyncFromOrder(l, orderId, status, message)) <==>
      var found := PaymentOf(l, orderId);
      found.Some? && Settled(l.payments[found.value].status) ==>
        Backed(l, l.payments[found.value].invoiceId, found)
  {
    var l' := SyncFromOrder(l, orderId, status, message);
    var found := PaymentOf(l, orderId);
    if found.Some? && Settled(l.payments[found.value].status) {
      var id, v := found.value, l.payments[found.value].invoiceId;
      assert l.payments[id] in l.payments;
      assert Backed(l', v, None) <==> Backed(l, v, found) by {
        if i :| 0 <= i < |l.payments| && i != id && l.payments[i].invoiceId == v && Settled(l.payments[i].status) {
          assert l'.payments[i] == l.payments[i];
        }
      }
      forall u | 0 <= u < |l.invoices| && u != v && Backed(l, u, None) ensures Backed(l', u, None) {
        var i :| 0 <= i < |l.payments| && l.payments[i].invoiceId == u && Settled(l.payments[i].status);
        assert l'.payments[i] == l.payments[i];
      }
    } else {
      BackingGrows(l, l');
    }
  }

  /** No payment stops being settled, and only invoices already paid, or backed now, are paid. */
  lemma BackingGrows(l: Ledger, l': Ledger)
    requires PaidIsBacked(l) && |l.payments| <= |l'.payments|
    requires forall i | 0 <= i < |l.payments| && Settled(l.payments[i].status) ::
      Settled(l'.payments[i].status) && l'.payments[i].invoiceId == l.payments[i].invoiceId
    requires forall v | 0 <= v < |l'.invoices| && l'.invoices[v].status == Paid ::
      (v < |l.invoices| && l.invoices[v].status == Paid) || Backed(l', v, None)
    ensures PaidIsBacked(l')
  {
    forall v | 0 <= v < |l'.invoices| && l'.invoices[v].status == Paid ensures Backed(l', v, None) {
      if v < |l.invoices| && l.invoices[v].status == Paid {
        var i :| 0 <= i < |l.payments| && l.payments[i].invoiceId == v && Settled(l.payments[i].status);
        assert Settled(l'.payments[i].status);
      }
    }
  }

  lemma SyncKeepsBacking(l: Ledger, orderId: OrderId, status: OrderStatus, message: string)
    requires LedgerInv(l) && PaidIsBacked(l) && status != OrderFailed && status != OrderExpired
    ensures PaidIsBacked(SyncFromOrder(l, orderId, status, message))
  {
    var l' := SyncFromOrder(l, orderId, status, message);
    var found := PaymentOf(l, orderId);
    if status == OrderPaid && found.Some? {
      assert l.payments[found.value] in l.payments;
      assert Settled(l'.payments[found.value].status);
      assert Backed(l', l.payments[found.value].invoiceId, None);
    }
    BackingGrows(l, l');
  }

  lemma OtherStepsKeepBacking(l: Ledger, op: Op)
    requires LedgerInv(l) && PaidIsBacked(l) && !op.DoConfirm?
    requires op.DoEvent? ==> !op.event.PaymentFailed? && !op.event.PaymentSuccess?
    ensures PaidIsBacked(Apply(l, op))
  {
    BackingGrows(l, Apply(l, op));
  }

  lemma StepKeepsBackingExactlyWhen(l: Ledger, op: Op)
    requires LedgerInv(l) && PaidIsBacked(l)
    ensures PaidIsBacked(Apply(l, op)) <==> !Unbacks(l, op)
  {
    if op.DoConfirm? {
      if op.status == OrderFailed || op.status == OrderExpired {
        FailureKeepsBackingExactlyWhen(l, op.order, op.status, "Payment failed");
      } else {
        SyncKeepsBacking(l, op.order, op.status, "Payment failed");
      }
    } else if op.DoEvent? && op.event.PaymentFailed? {
      FailureKeepsBackingExactlyWhen(l, op.event.orderId, OrderFailed, op.event.message);
    } else if op.DoEvent? && op.event.PaymentSuccess? {
      SyncKeepsBacking(l, op.event.orderId, OrderPaid, "");
    } else {
      OtherStepsKeepBacking(l, op);
    }
  }

  ghost predicate BackedThroughout(l: Ledger, ops: seq<Op>)
    decreases |ops|
  {
    PaidIsBacked(l) && (ops == [] || BackedThroughout(Apply(l, ops[0]), ops[1..]))
  }

  ghost predicate NeverUnbacks(l: Ledger, ops: seq<Op>)
    decreases |ops|
  {
    ops == [] || (!Unbacks(l, ops[0]) && NeverUnbacks(Apply(l, ops[0]), ops[1..]))
  }

  /** The converse of `SettledPaymentsHavePaidInvoices`: every paid invoice has a settled payment, all through a
      run, exactly when no failure arrives late for the only one it has. */
  lemma {:induction false} PaidIsBackedExactlyWhenNoLateFailure(l: Ledger, ops: seq<Op>)
    requires LedgerInv(l) && PaidIsBacked(l) && NoOverwrites(l, ops)
    ensures BackedThroughout(l, ops) <==> NeverUnbacks(l, ops)
    decreases |ops|
  {
    if ops != [] {
      StepKeepsBackingExactlyWhen(l, ops[0]);
      StepKeepsInv(l, ops[0]);
      if !Unbacks(l, ops[0]) {
        PaidIsBackedExactlyWhenNoLateFailure(Apply(l, ops[0]), ops[1..]);
      }
    }
  }

  // ---- what an invoice comes to ----

  /** Price less discount plus 18 percent, to within half a paisa; nothing when the discount covers the price. */
  lemma InvoiceIsTaxed(price: real, discount: real)
    ensures price <= discount ==> InvoiceTotal(price, discount) == 0.0
    ensures price > discount ==>
      -0.005 <= InvoiceTotal(price, discount) - (price - discount) * 1.18 <= 0.005
  {
    var taxable := if price - discount > 0.0 then price - discount else 0.0;
    RoundingError(taxable * TAX_RATE);
  }

  lemma DearerBookingsAreNotInvoicedLess(price: real, dearer: real, discount: real)
    requires price <= dearer
    ensures InvoiceTotal(price, discount) <= InvoiceTotal(dearer, discount)
  {
    var a := if price - discount > 0.0 then price - discount else 0.0;
    var b := if dearer - discount > 0.0 then dearer - discount else 0.0;
    RoundingIsMonotone(a * TAX_RATE * 100.0, b * TAX_RATE * 100.0);
  }
}
