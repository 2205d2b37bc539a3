/** The payment and invoice calls as they run on the two tables. */
module PaymentsService {
  import opened Wrappers
  import opened Rounding
  import opened Payments

  ghost predicate Agrees(before: Ledger, spec: Result<Ledger, Error>, after: Ledger, thrown: Option<Error>) {
    match spec
    case Success(l) => thrown == None && after == l
    case Failure(error) => thrown == Some(error) && after == before
  }

  /** The ledger is in order after the call if it was before, unless the call overwrites a refund total. */
  ghost predicate Keeps(before: Ledger, op: Op, after: Ledger) {
    LedgerInv(before) && !Overwrites(before, op) ==> LedgerInv(after)
  }

  lemma CallKeeps(before: Ledger, op: Op)
    ensures Keeps(before, op, Apply(before, op))
  {
    if LedgerInv(before) && !Overwrites(before, op) {
      StepKeepsInv(before, op);
    }
  }

  class Service {
    var payments: seq<Payment>
    var invoices: seq<Invoice>

    constructor ()
      ensures Tables() == EMPTY_LEDGER && LedgerInv(Tables())
    {
      payments, invoices := [], [];
    }

    function Tables(): Ledger
      reads this
    {
      Ledger(payments, invoices)
    }

    method RefundPayment(id: nat, requested: Option<real>, gatewayAccepts: bool) returns (thrown: Option<Error>)
      modifies this
      ensures Agrees(old(Tables()), Refund(old(Tables()), id, requested, gatewayAccepts), Tables(), thrown)
      ensures Keeps(old(Tables()), DoRefund(id, requested, gatewayAccepts), Tables())
    {
      CallKeeps(Tables(), DoRefund(id, requested, gatewayAccepts));
      if id >= |payments| {
        return Some(PaymentNotFound);
      }
      var payment := payments[id];
      if payment.status != Succeeded && payment.status != PartiallyRefunded {
        return Some(NotRefundable);
      }
      if payment.orderId.None? {
        return Some(NoTransaction);
      }
      var alreadyRefunded := payment.refundedAmount;
      var refundable := payment.amount - alreadyRefunded;
      var refundAmount := if requested.Some? then requested.value else refundable;
      if refundAmount <= 0.0 || refundAmount > refundable + TOLERANCE {
        return Some(ExceedsBalance);
      }
      if !gatewayAccepts {
        return Some(GatewayFailed);
      }
      payment := payment.(sent := payment.sent + refundAmount);
      var newRefunded := alreadyRefunded + refundAmount;
      var fullyRefunded := newRefunded >= payment.amount - TOLERANCE;
      payment := payment.(refundedAmount := newRefunded);
      payment := payment.(status := if fullyRefunded then Refunded else PartiallyRefunded);
      payments := payments[id := payment];
      return None;
    }

    method Sync(orderId: OrderId, status: OrderStatus, message: string)
      modifies this
      ensures Tables() == SyncFromOrder(old(Tables()), orderId, status, message)
      ensures old(LedgerInv(Tables())) ==> LedgerInv(Tables())
    {
      if LedgerInv(Tables()) {
        SyncKeepsInv(Tables(), orderId, status, message);
      }
      var found := PaymentOf(Tables(), orderId);
      if found.None? {
        return;
      }
      var payment := payments[found.value];
      if status == OrderPaid && payment.status != Succeeded && payment.invoiceId < |invoices| {
        payments := payments[found.value := payment.(status := Succeeded)];
        invoices := invoices[payment.invoiceId := invoices[payment.invoiceId].(status := Paid)];
      } else if (status == OrderFailed || status == OrderExpired) && payment.status != Failed {
        payments := payments[found.value := payment.(status := Failed, failureReason := Some(message))];
      }
    }

    method ReconcileRefund(orderId: OrderId, succeeded: bool, reported: real)
      modifies this
      ensures Tables() == HandleRefundWebhook(old(Tables()), orderId, succeeded, reported)
      ensures Keeps(old(Tables()), DoEvent(RefundStatus(orderId, succeeded, reported)), Tables())
    {
      CallKeeps(Tables(), DoEvent(RefundStatus(orderId, succeeded, reported)));
      if !succeeded {
        return;
      }
      var found := PaymentOf(Tables(), orderId);
      if found.None? {
        return;
      }
      var payment := payments[found.value];
      var fullyRefunded := reported >= payment.amount - TOLERANCE;
      if payment.refundedAmount != reported {
        payments := payments[found.value := payment.(refundedAmount := reported,
          status := if fullyRefunded then Refunded else PartiallyRefunded)];
      }
    }

    method HandleEvent(event: Event)
      modifies this
      ensures Tables() == HandleWebhookEvent(old(Tables()), event)
      ensures Keeps(old(Tables()), DoEvent(event), Tables())
    {
      CallKeeps(Tables(), DoEvent(event));
      match event {
        case PaymentSuccess(orderId) => Sync(orderId, OrderPaid, "");
        case PaymentFailed(orderId, message) => Sync(orderId, OrderFailed, message);
        case RefundStatus(orderId, succeeded, reported) => ReconcileRefund(orderId, succeeded, reported);
        case Unhandled =>
      }
    }

    method Ensure(bookingId: nat, price: real, discount: real) returns (invoiceId: Result<nat, Error>)
      modifies this
      ensures match EnsureInvoice(old(Tables()), bookingId, price, discount)
        case Success((l, id)) => invoiceId == Success(id) && Tables() == l && id < |invoices|
        case Failure(error) => invoiceId == Failure(error) && Tables() == old(Tables())
      ensures old(LedgerInv(Tables())) ==> LedgerInv(Tables())
    {
      if LedgerInv(Tables()) && EnsureInvoice(Tables(), bookingId, price, discount).Success? {
        EnsuringKeepsInv(Tables(), bookingId, price, discount);
      }
      var existing := InvoiceOf(Tables(), bookingId);
      if existing.Some? {
        return if invoices[existing.value].status != Void then Success(existing.value) else Failure(UniqueViolation);
      }
      var taxable := price - discount;
      if taxable < 0.0 {
        taxable := 0.0;
      }
      var tax := TwoDecimals(taxable * TAX_RATE);
      invoiceId := Success(|invoices|);
      invoices := invoices + [Invoice(bookingId, Issued, taxable + tax)];
    }

    method Create(bookingId: nat, price: real, discount: real) returns (thrown: Option<Error>)
      modifies this
      ensures Agrees(old(Tables()), CreateInvoice(old(Tables()), bookingId, price, discount), Tables(), thrown)
      ensures Keeps(old(Tables()), DoCreateInvoice(bookingId, price, discount), Tables())
    {
      CallKeeps(Tables(), DoCreateInvoice(bookingId, price, discount));
      var existing := InvoiceOf(Tables(), bookingId);
      if existing.Some? && invoices[existing.value].status != Void {
        return Some(InvoiceExists);
      }
      var created := Ensure(bookingId, price, discount);
      thrown := if created.Failure? then Some(created.error) else None;
    }

    method Annul(id: nat) returns (thrown: Option<Error>)
      modifies this
      ensures Agrees(old(Tables()), VoidInvoice(old(Tables()), id), Tables(), thrown)
      ensures Keeps(old(Tables()), DoVoid(id), Tables())
    {
      CallKeeps(Tables(), DoVoid(id));
      if id >= |invoices| {
        return Some(InvoiceNotFound);
      }
      if invoices[id].status == Paid || invoices[id].status !in VOIDABLE_STATUSES {
        return Some(VoidFailed);
      }
      invoices := invoices[id := invoices[id].(status := Void)];
      return None;
    }

    method Recompute(id: nat, price: real, discount: real) returns (thrown: Option<Error>)
      modifies this
      ensures Agrees(old(Tables()), RecomputeTotals(old(Tables()), id, price, discount), Tables(), thrown)
      ensures Keeps(old(Tables()), DoRecompute(id, price, discount), Tables())
    {
      CallKeeps(Tables(), DoRecompute(id, price, discount));
      if id >= |invoices| {
        return Some(InvoiceNotFound);
      }
      var taxable := price - discount;
      if taxable < 0.0 {
        taxable := 0.0;
      }
      var tax := TwoDecimals(taxable * TAX_RATE);
      invoices := invoices[id := invoices[id].(total := taxable + tax)];
      return None;
    }

    method Intent(bookingId: nat, price: real, discount: real, key: Option<string>,
                  orderActive: bool, orderCreated: bool)
      returns (thrown: Option<Error>)
      modifies this
      ensures (Tables(), thrown) ==
        CreateIntent(old(Tables()), bookingId, price, discount, key, orderActive, orderCreated)
      ensures Keeps(old(Tables()), DoIntent(bookingId, price, discount, key, orderActive, orderCreated), Tables())
    {
      CallKeeps(Tables(), DoIntent(bookingId, price, discount, key, orderActive, orderCreated));
      var ensured := Ensure(bookingId, price, discount);
      if ensured.Failure? {
        return Some(ensured.error);
      }
      var invoiceId := ensured.value;
      if invoices[invoiceId].status == Paid {
        return Some(AlreadyPaid);
      }
      if HasOpenOrder(Tables(), invoiceId) && orderActive {
        return None;
      }
      var orderId := if key.Some? then ForKey(key.value) else ForInvoice(invoiceId);
      if !orderCreated {
        return Some(GatewayFailed);
      }
      if PaymentOf(Tables(), orderId).Some? {
        return Some(UniqueViolation);
      }
      payments := payments +
        [Payment(invoiceId, Pending, invoices[invoiceId].total, 0.0, Some(orderId), None, 0.0)];
      return None;
    }
  }
}
