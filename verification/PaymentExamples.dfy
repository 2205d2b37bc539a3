/** Short runs from empty tables in which the ledger goes wrong. */
module PaymentExamples {
  import opened Wrappers
  import opened Rounding
  import opened Payments
  import opened PaymentRuns

  /** A booking of 100 is charged 118, tax included. */
  const CHARGE := DoIntent(0, 100.0, 0.0, None, false, true)
  const ORDER := ForInvoice(0)
  const SUCCESS := DoEvent(PaymentSuccess(ORDER))

  function Charged(status: PaymentStatus, refunded: real, sent: real): Payment {
    Payment(0, status, 118.0, refunded, Some(ORDER), None, sent)
  }

  const PAID := Ledger([Charged(Succeeded, 0.0, 0.0)], [Invoice(0, Paid, 118.0)])

  lemma OneStep(l: Ledger, op: Op, ops: seq<Op>)
    ensures Run(l, [op] + ops) == Run(Apply(l, op), ops)
  {
    assert ([op] + ops)[1..] == ops;
  }

  lemma LastStep(l: Ledger, op: Op)
    ensures Run(l, [op]) == Apply(l, op)
  {
    OneStep(l, op, []);
    assert [op] + [] == [op];
  }

  lemma TaxOfTheExample()
    ensures InvoiceTotal(100.0, 0.0) == 118.0 && InvoiceTotal(200.0, 0.0) == 236.0
  {
    PaiseAreNotRounded(18.0);
    PaiseAreNotRounded(36.0);
  }

  lemma Charging(ops: seq<Op>)
    ensures Run(EMPTY_LEDGER, [CHARGE] + ops) ==
      Run(Ledger([Charged(Pending, 0.0, 0.0)], [Invoice(0, Issued, 118.0)]), ops)
  {
    ChargeOfTheExample();
    OneStep(EMPTY_LEDGER, CHARGE, ops);
  }

  lemma ChargeOfTheExample()
    ensures Apply(EMPTY_LEDGER, CHARGE) == Ledger([Charged(Pending, 0.0, 0.0)], [Invoice(0, Issued, 118.0)])
  {
    TaxOfTheExample();
    var invoiced := Ledger([], [Invoice(0, Issued, 118.0)]);
    assert InvoiceOf(EMPTY_LEDGER, 0) == None;
    assert EMPTY_LEDGER.invoices + [Invoice(0, Issued, 118.0)] == invoiced.invoices;
    assert EnsureInvoice(EMPTY_LEDGER, 0, 100.0, 0.0) == Success((invoiced, 0));
    assert PaymentOf(invoiced, ORDER) == None;
  }

  lemma ChargingAndPaying(ops: seq<Op>)
    ensures Run(EMPTY_LEDGER, [CHARGE, SUCCESS] + ops) == Run(PAID, ops)
  {
    var charged := Ledger([Charged(Pending, 0.0, 0.0)], [Invoice(0, Issued, 118.0)]);
    Charging([SUCCESS] + ops);
    assert [CHARGE, SUCCESS] + ops == [CHARGE] + ([SUCCESS] + ops);
    OneStep(charged, SUCCESS, ops);
    assert PaymentOf(charged, ORDER) == Some(0);
    assert Apply(charged, SUCCESS) == PAID;
  }

  /** 118 paid, 50 and 50 refunded; the webhook for the second 50 arrives; another 68 is accepted: 168 sent back. */
  lemma RefundWebhookCanOverRefund()
    ensures var ops := [DoRefund(0, Some(50.0), true), DoRefund(0, Some(50.0), true),
                        DoEvent(RefundStatus(ORDER, true, 50.0)), DoRefund(0, Some(68.0), true)];
      Run(EMPTY_LEDGER, [CHARGE, SUCCESS] + ops).payments == [Charged(Refunded, 118.0, 168.0)]
  {
    var fifty, rest := DoRefund(0, Some(50.0), true), DoRefund(0, Some(68.0), true);
    var webhook := DoEvent(RefundStatus(ORDER, true, 50.0));
    ChargingAndPaying([fifty] + ([fifty] + ([webhook] + [rest])));
    var l1 := Apply(PAID, fifty);
    var l2 := Apply(l1, fifty);
    var l3 := Apply(l2, webhook);
    OneStep(PAID, fifty, [fifty] + ([webhook] + [rest]));
    OneStep(l1, fifty, [webhook] + [rest]);
    assert l2.payments == [Charged(PartiallyRefunded, 100.0, 100.0)];
    OneStep(l2, webhook, [rest]);
    assert PaymentOf(l2, ORDER) == Some(0);
    assert l3.payments == [Charged(PartiallyRefunded, 50.0, 100.0)];
    LastStep(l3, rest);
    assert [fifty] + ([fifty] + ([webhook] + [rest])) == [fifty, fifty, webhook, rest];
  }

  /** Paid, 50 refunded, and the success event delivered once more: the payment no longer shows the refund. */
  lemma ReplayedSuccessCanHideARefund()
    ensures var l := Run(EMPTY_LEDGER, [CHARGE, SUCCESS] + [DoRefund(0, Some(50.0), true), SUCCESS]);
      l.payments == [Charged(Succeeded, 50.0, 50.0)] && !StatusShowsRefunds(l)
  {
    var refund := DoRefund(0, Some(50.0), true);
    ChargingAndPaying([refund] + [SUCCESS]);
    OneStep(PAID, refund, [SUCCESS]);
    var l1 := Apply(PAID, refund);
    assert l1.payments == [Charged(PartiallyRefunded, 50.0, 50.0)];
    LastStep(l1, SUCCESS);
    assert PaymentOf(l1, ORDER) == Some(0);
    assert [refund] + [SUCCESS] == [refund, SUCCESS];
    assert Apply(l1, SUCCESS).payments[0] in Apply(l1, SUCCESS).payments;
  }

  /** Paid, and then a failure event: the invoice stays paid and no payment is settled. */
  lemma LateFailureCanLeaveAPaidInvoice()
    ensures var l := Run(EMPTY_LEDGER, [CHARGE, SUCCESS] + [DoEvent(PaymentFailed(ORDER, "declined"))]);
      && l.invoices == [Invoice(0, Paid, 118.0)]
      && |l.payments| == 1 && l.payments[0].status == Failed && !PaidIsBacked(l)
  {
    var failure := DoEvent(PaymentFailed(ORDER, "declined"));
    ChargingAndPaying([failure]);
    LastStep(PAID, failure);
    assert PaymentOf(PAID, ORDER) == Some(0);
    assert !Backed(Apply(PAID, failure), 0, None);
  }

  /** Paid 118, and then the totals recomputed for a price of 200: the paid invoice is for 236. */
  lemma RecomputingCanRebillAPaidInvoice()
    ensures var l := Run(EMPTY_LEDGER, [CHARGE, SUCCESS] + [DoRecompute(0, 200.0, 0.0)]);
      && l.invoices == [Invoice(0, Paid, 236.0)] && l.payments == [Charged(Succeeded, 0.0, 0.0)]
      && !BillsAgree(l)
  {
    TaxOfTheExample();
    ChargingAndPaying([DoRecompute(0, 200.0, 0.0)]);
    LastStep(PAID, DoRecompute(0, 200.0, 0.0));
    assert Apply(PAID, DoRecompute(0, 200.0, 0.0)).payments[0].amount == 118.0;
  }

  /** Charged, voided, and then paid: a void invoice becomes paid, which is no edge of the declared machine. */
  lemma SuccessCanReviveAVoidInvoice()
    ensures Run(EMPTY_LEDGER, [CHARGE] + [DoVoid(0)]).invoices == [Invoice(0, Void, 118.0)]
    ensures Run(EMPTY_LEDGER, [CHARGE] + [DoVoid(0), SUCCESS]).invoices == [Invoice(0, Paid, 118.0)]
    ensures Paid !in InvoiceTransitions(Void)
  {
    var charged := Ledger([Charged(Pending, 0.0, 0.0)], [Invoice(0, Issued, 118.0)]);
    var voided := Apply(charged, DoVoid(0));
    Charging([DoVoid(0)]);
    LastStep(charged, DoVoid(0));
    Charging([DoVoid(0), SUCCESS]);
    assert [DoVoid(0), SUCCESS] == [DoVoid(0)] + [SUCCESS];
    OneStep(charged, DoVoid(0), [SUCCESS]);
    LastStep(voided, SUCCESS);
    assert PaymentOf(voided, ORDER) == Some(0);
  }

  /** Charged, voided, and to be charged again: no invoice can be issued, by either service. */
  lemma VoidedInvoiceCannotBeReissued()
    ensures var l := Run(EMPTY_LEDGER, [CHARGE] + [DoVoid(0)]);
      && l.invoices == [Invoice(0, Void, 118.0)]
      && EnsureInvoice(l, 0, 100.0, 0.0) == Failure(UniqueViolation)
      && CreateInvoice(l, 0, 100.0, 0.0) == Failure(UniqueViolation)
      && Apply(l, CHARGE) == l
  {
    var charged := Ledger([Charged(Pending, 0.0, 0.0)], [Invoice(0, Issued, 118.0)]);
    Charging([DoVoid(0)]);
    LastStep(charged, DoVoid(0));
    assert InvoiceOf(Apply(charged, DoVoid(0)), 0) == Some(0);
    VoidedInvoiceBlocksReissue(Apply(charged, DoVoid(0)), 0, 100.0, 0.0);
  }
}
