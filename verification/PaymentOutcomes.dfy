/** When each payment and invoice call goes through, and what it leaves in the two tables. */
module PaymentOutcomes {
  import opened Wrappers
  import opened Payments

  predicate SameInvoices(l: Ledger, l': Ledger) {
    l'.invoices == l.invoices
  }

  predicate SamePayments(l: Ledger, l': Ledger) {
    l'.payments == l.payments
  }

  predicate OnlyPaymentChanges(l: Ledger, l': Ledger, id: nat) {
    && id < |l.payments| == |l'.payments| && SameInvoices(l, l')
    && forall i | 0 <= i < |l.payments| && i != id :: l'.payments[i] == l.payments[i]
  }

  predicate OnlyInvoiceChanges(l: Ledger, l': Ledger, id: nat) {
    && id < |l.invoices| == |l'.invoices| && SamePayments(l, l')
    && forall i | 0 <= i < |l.invoices| && i != id :: l'.invoices[i] == l.invoices[i]
  }

  // ---- refunds ----

  /** A refund goes through exactly when the payment has succeeded, not wholly refunded, has an order at the gateway,
      the amount is positive and within the balance to 1e-6, and the gateway accepts it.  Then exactly the amount is
      sent and recorded; otherwise nothing changes. */
  lemma RefundGoesThroughExactlyWhen(l: Ledger, id: nat, amount: real, gatewayAccepts: bool)
    ensures var result := Refund(l, id, Some(amount), gatewayAccepts);
      var l' := Apply(l, DoRefund(id, Some(amount), gatewayAccepts));
      && (result.Success? <==>
            && id < |l.payments| && l.payments[id].status in {Succeeded, PartiallyRefunded}
            && l.payments[id].orderId.Some?
            && 0.0 < amount <= l.payments[id].amount - l.payments[id].refundedAmount + 0.000001
            && gatewayAccepts)
      && (result.Success? ==>
            var before, after := l.payments[id], l'.payments[id];
            && OnlyPaymentChanges(l, l', id)
            && after.sent == before.sent + amount && after.refundedAmount == before.refundedAmount + amount
            && after.status ==
               (if before.amount - after.refundedAmount <= 0.000001 then Refunded else PartiallyRefunded)
            && after.amount == before.amount && after.invoiceId == before.invoiceId && after.orderId == before.orderId)
      && (result.Failure? ==> l' == l)
  {
  }

  /** Without an amount the whole balance is sent, and the payment is refunded. */
  lemma WholeBalanceIsRefunded(l: Ledger, id: nat, gatewayAccepts: bool)
    ensures var result := Refund(l, id, None, gatewayAccepts);
      && (result.Success? <==>
            && id < |l.payments| && l.payments[id].status in {Succeeded, PartiallyRefunded}
            && l.payments[id].orderId.Some? && l.payments[id].refundedAmount < l.payments[id].amount && gatewayAccepts)
      && (result.Success? ==>
            var before, after := l.payments[id], result.value.payments[id];
            && OnlyPaymentChanges(l, result.value, id) && after.status == Refunded
            && after.refundedAmount == before.amount
            && after.sent - before.sent == before.amount - before.refundedAmount)
  {
  }

  // ---- invoices ----

  predicate HasInvoice(l: Ledger, bookingId: nat) {
    exists v | 0 <= v < |l.invoices| :: l.invoices[v].bookingId == bookingId
  }

  lemma FoundInvoice(l: Ledger, bookingId: nat)
    ensures InvoiceOf(l, bookingId).Some? <==> HasInvoice(l, bookingId)
  {
  }

  /** A first invoice is issued for what the booking comes to; a booking that has one gets no other. */
  lemma InvoiceIsIssuedExactlyWhen(l: Ledger, bookingId: nat, price: real, discount: real)
    ensures var result := CreateInvoice(l, bookingId, price, discount);
      && (result.Success? <==> !HasInvoice(l, bookingId))
      && (result.Success? ==>
            var l', n := result.value, |l.invoices|;
            && SamePayments(l, l') && |l'.invoices| == n + 1 && l'.invoices[..n] == l.invoices
            && l'.invoices[n] == Invoice(bookingId, Issued, InvoiceTotal(price, discount)))
  {
    FoundInvoice(l, bookingId);
  }

  /** Anything but a paid or void invoice can be voided. */
  lemma InvoiceIsVoidedExactlyWhen(l: Ledger, id: nat)
    ensures var result := VoidInvoice(l, id);
      && (result.Success? <==> id < |l.invoices| && l.invoices[id].status != Paid && l.invoices[id].status != Void)
      && (result.Success? ==>
            && OnlyInvoiceChanges(l, result.value, id)
            && result.value.invoices[id] == Invoice(l.invoices[id].bookingId, Void, l.invoices[id].total))
  {
  }

  lemma TotalsAreRecomputed(l: Ledger, id: nat, price: real, discount: real)
    ensures var result := RecomputeTotals(l, id, price, discount);
      && (result.Success? <==> id < |l.invoices|)
      && (result.Success? ==>
            && OnlyInvoiceChanges(l, result.value, id)
            && result.value.invoices[id] ==
               Invoice(l.invoices[id].bookingId, l.invoices[id].status, InvoiceTotal(price, discount)))
  {
  }

  // ---- charging a booking ----

  /** A booking whose invoice is paid is not charged again: nothing changes, whatever the gateway would have said. */
  lemma PaidBookingIsNotChargedAgain(l: Ledger, bookingId: nat, price: real, discount: real, key: Option<string>,
                                     orderActive: bool, orderCreated: bool)
    requires InvoiceOf(l, bookingId).Some? && l.invoices[InvoiceOf(l, bookingId).value].status == Paid
    ensures CreateIntent(l, bookingId, price, discount, key, orderActive, orderCreated) == (l, Some(AlreadyPaid))
  {
  }

  predicate OrderIsOpen(l: Ledger, invoiceId: nat) {
    exists i | 0 <= i < |l.payments| ::
      && l.payments[i].invoiceId == invoiceId && l.payments[i].orderId.Some?
      && l.payments[i].status in {Pending, Processing}
  }

  /** A booking with an open invoice is charged by one pending payment for the total, under an order of its own,
      exactly when no order of the invoice is active still, the gateway creates one, and its id is not taken. */
  lemma InvoicedBookingIsCharged(l: Ledger, bookingId: nat, price: real, discount: real, key: Option<string>,
                                 orderActive: bool, orderCreated: bool)
    requires InvoiceOf(l, bookingId).Some?
    requires l.invoices[InvoiceOf(l, bookingId).value].status !in {Paid, Void}
    ensures var (l', error) := CreateIntent(l, bookingId, price, discount, key, orderActive, orderCreated);
      var v, n := InvoiceOf(l, bookingId).value, |l.payments|;
      var order := if key.Some? then ForKey(key.value) else ForInvoice(v);
      var charged :=
        && !(orderActive && OrderIsOpen(l, v)) && orderCreated
        && forall i | 0 <= i < n :: l.payments[i].orderId != Some(order);
      && SameInvoices(l, l')
      && if charged then
           && error == None && |l'.payments| == n + 1 && l'.payments[..n] == l.payments
           && l'.payments[n] == Payment(v, Pending, l.invoices[v].total, 0.0, Some(order), None, 0.0)
         else l' == l
  {
  }

  /** A booking without an invoice gets one, whatever becomes of the order. */
  lemma ChargingIssuesAnInvoice(l: Ledger, bookingId: nat, price: real, discount: real, key: Option<string>,
                                orderActive: bool, orderCreated: bool)
    requires !HasInvoice(l, bookingId)
    ensures var (l', error) := CreateIntent(l, bookingId, price, discount, key, orderActive, orderCreated);
      var v := |l.invoices|;
      && |l'.invoices| == v + 1 && l'.invoices[..v] == l.invoices
      && l'.invoices[v] == Invoice(bookingId, Issued, InvoiceTotal(price, discount))
      && (l'.payments == l.payments ||
          (|l'.payments| == |l.payments| + 1 && l'.payments[..|l.payments|] == l.payments
           && l'.payments[|l.payments|].invoiceId == v && l'.payments[|l.payments|].status == Pending
           && l'.payments[|l.payments|].amount == InvoiceTotal(price, discount)))
  {
    FoundInvoice(l, bookingId);
  }
}
