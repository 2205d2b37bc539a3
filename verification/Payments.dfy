/** Payments, refunds and invoices (payments/payments.service.ts, invoices/invoices.service.ts).

    Amounts are exact reals.  Rows are never removed, so a row is named by its position.
 */
module Payments {
  import opened Wrappers
  import opened Rounding

  datatype PaymentStatus = Pending | Processing | Succeeded | Failed | Refunded | PartiallyRefunded

  datatype InvoiceStatus = Draft | Issued | PartiallyPaid | Paid | Overdue | Void

  /** The gateway's order id is derived from the idempotency key, or else from the invoice. */
  datatype OrderId = ForKey(key: string) | ForInvoice(invoiceId: nat)

  /** `sent` totals what the gateway was asked to pay back and accepted; no code reads it. */
  datatype Payment = Payment(invoiceId: nat, status: PaymentStatus, amount: real, refundedAmount: real,
                             orderId: Option<OrderId>, failureReason: Option<string>, sent: real)

  datatype Invoice = Invoice(bookingId: nat, status: InvoiceStatus, total: real)

  datatype Ledger = Ledger(payments: seq<Payment>, invoices: seq<Invoice>)

  datatype Error =
    | PaymentNotFound | NotRefundable | NoTransaction | ExceedsBalance | GatewayFailed
    | InvoiceNotFound | VoidFailed | InvoiceExists | AlreadyPaid | UniqueViolation

  const TOLERANCE := 0.000001
  const TAX_RATE := 0.18
  const VOIDABLE_STATUSES := {Draft, Issued, PartiallyPaid, Overdue}

  function SetPayment(l: Ledger, id: nat, p: Payment): Ledger
    requires id < |l.payments|
  {
    l.(payments := l.payments[id := p])
  }

  function SetInvoiceStatus(l: Ledger, id: nat, status: InvoiceStatus): Ledger
    requires id < |l.invoices|
  {
    l.(invoices := l.invoices[id := l.invoices[id].(status := status)])
  }

  // ---- refunds ----

  function RefundAmount(p: Payment, requested: Option<real>): real {
    if requested.Some? then requested.value else p.amount - p.refundedAmount
  }

  /** The row after the gateway has accepted a refund. */
  function Refunding(p: Payment, amount: real): Payment {
    var refunded := p.refundedAmount + amount;
    p.(refundedAmount := refunded, sent := p.sent + amount,
       status := if refunded >= p.amount - TOLERANCE then Refunded else PartiallyRefunded)
  }

  function Refund(l: Ledger, id: nat, requested: Option<real>, gatewayAccepts: bool): Result<Ledger, Error> {
    if id >= |l.payments| then Failure(PaymentNotFound)
    else
      var p := l.payments[id];
      var amount := RefundAmount(p, requested);
      if p.status != Succeeded && p.status != PartiallyRefunded then Failure(NotRefundable)
      else if p.orderId.None? then Failure(NoTransaction)
      else if amount <= 0.0 || amount > p.amount - p.refundedAmount + TOLERANCE then Failure(ExceedsBalance)
      else if !gatewayAccepts then Failure(GatewayFailed)
      else Success(SetPayment(l, id, Refunding(p, amount)))
  }

  // ---- events from the gateway ----

  datatype OrderStatus = OrderPaid | OrderFailed | OrderExpired | OrderActive

  function PaymentOf(l: Ledger, orderId: OrderId): Option<nat> {
    PaymentOfFrom(l, orderId, 0)
  }

  function PaymentOfFrom(l: Ledger, orderId: OrderId, from: nat): (found: Option<nat>)
    requires from <= |l.payments|
    ensures found.Some? ==> from <= found.value < |l.payments| && l.payments[found.value].orderId == Some(orderId)
    ensures found.None? ==> forall i | from <= i < |l.payments| :: l.payments[i].orderId != Some(orderId)
    decreases |l.payments| - from
  {
    if from == |l.payments| then None
    else if l.payments[from].orderId == Some(orderId) then Some(from)
    else PaymentOfFrom(l, orderId, from + 1)
  }

  function SyncFromOrder(l: Ledger, orderId: OrderId, status: OrderStatus, message: string): Ledger {
    var found := PaymentOf(l, orderId);
    if found.None? then l
    else
      var p := l.payments[found.value];
      if status == OrderPaid && p.status != Succeeded && p.invoiceId < |l.invoices| then
        SetInvoiceStatus(SetPayment(l, found.value, p.(status := Succeeded)), p.invoiceId, Paid)
      else if (status == OrderFailed || status == OrderExpired) && p.status != Failed then
        SetPayment(l, found.value, p.(status := Failed, failureReason := Some(message)))
      else l
  }

  function HandleRefundWebhook(l: Ledger, orderId: OrderId, succeeded: bool, reported: real): Ledger {
    var found := PaymentOf(l, orderId);
    if !succeeded || found.None? then l
    else
      var p := l.payments[found.value];
      if p.refundedAmount == reported then l
      else SetPayment(l, found.value, p.(refundedAmount := reported,
        status := if reported >= p.amount - TOLERANCE then Refunded else PartiallyRefunded))
  }

  datatype Event =
    | PaymentSuccess(orderId: OrderId)
    | PaymentFailed(orderId: OrderId, message: string)
    | RefundStatus(orderId: OrderId, succeeded: bool, reported: real)
    | Unhandled

  function HandleWebhookEvent(l: Ledger, event: Event): Ledger {
    match event
    case PaymentSuccess(orderId) => SyncFromOrder(l, orderId, OrderPaid, "")
    case PaymentFailed(orderId, message) => SyncFromOrder(l, orderId, OrderFailed, message)
    case RefundStatus(orderId, succeeded, reported) => HandleRefundWebhook(l, orderId, succeeded, reported)
    case Unhandled => l
  }

  // ---- invoices and payment intents ----

  function InvoiceTotal(price: real, discount: real): real {
    var taxable := if price - discount > 0.0 then price - discount else 0.0;
    taxable + TwoDecimals(taxable * TAX_RATE)
  }

  function InvoiceOf(l: Ledger, bookingId: nat): Option<nat> {
    InvoiceOfFrom(l, bookingId, 0)
  }

  function InvoiceOfFrom(l: Ledger, bookingId: nat, from: nat): (found: Option<nat>)
    requires from <= |l.invoices|
    ensures found.Some? ==> from <= found.value < |l.invoices| && l.invoices[found.value].bookingId == bookingId
    ensures found.None? ==> forall i | from <= i < |l.invoices| :: l.invoices[i].bookingId != bookingId
    decreases |l.invoices| - from
  {
    if from == |l.invoices| then None
    else if l.invoices[from].bookingId == bookingId then Some(from)
    else InvoiceOfFrom(l, bookingId, from + 1)
  }

  /** Inserting an invoice; the schema allows one per booking. */
  function InsertInvoice(l: Ledger, bookingId: nat, total: real): Result<(Ledger, nat), Error> {
    if InvoiceOf(l, bookingId).Some? then Failure(UniqueViolation)
    else Success((l.(invoices := l.invoices + [Invoice(bookingId, Issued, total)]), |l.invoices|))
  }

  function EnsureInvoice(l: Ledger, bookingId: nat, price: real, discount: real): Result<(Ledger, nat), Error> {
    var existing := InvoiceOf(l, bookingId);
    if existing.Some? && l.invoices[existing.value].status != Void then Success((l, existing.value))
    else InsertInvoice(l, bookingId, InvoiceTotal(price, discount))
  }

  function CreateInvoice(l: Ledger, bookingId: nat, price: real, discount: real): Result<Ledger, Error> {
    var existing := InvoiceOf(l, bookingId);
    if existing.Some? && l.invoices[existing.value].status != Void then Failure(InvoiceExists)
    else match InsertInvoice(l, bookingId, InvoiceTotal(price, discount))
      case Failure(error) => Failure(error)
      case Success((l', _)) => Success(l')
  }

  function VoidInvoice(l: Ledger, id: nat): Result<Ledger, Error> {
    if id >= |l.invoices| then Failure(InvoiceNotFound)
    else if l.invoices[id].status !in VOIDABLE_STATUSES then Failure(VoidFailed)
    else Success(SetInvoiceStatus(l, id, Void))
  }

  function SetInvoiceTotal(l: Ledger, id: nat, total: real): Ledger
    requires id < |l.invoices|
  {
    l.(invoices := l.invoices[id := l.invoices[id].(total := total)])
  }

  /** `regenerate` with `recomputeTotals`, from what the booking costs now. */
  function RecomputeTotals(l: Ledger, id: nat, price: real, discount: real): Result<Ledger, Error> {
    if id >= |l.invoices| then Failure(InvoiceNotFound)
    else Success(SetInvoiceTotal(l, id, InvoiceTotal(price, discount)))
  }

  /** A payment of the invoice whose order may still be open. */
  predicate HasOpenOrder(l: Ledger, invoiceId: nat) {
    exists i | 0 <= i < |l.payments| ::
      && l.payments[i].invoiceId == invoiceId && l.payments[i].orderId.Some?
      && (l.payments[i].status == Pending || l.payments[i].status == Processing)
  }

  /** `orderActive` and `orderCreated` are the gateway's answers.  The invoice is committed on its own, so a
      later failure leaves it behind. */
  function CreateIntent(l: Ledger, bookingId: nat, price: real, discount: real, key: Option<string>,
                        orderActive: bool, orderCreated: bool): (Ledger, Option<Error>)
  {
    match EnsureInvoice(l, bookingId, price, discount)
    case Failure(error) => (l, Some(error))
    case Success((l', invoiceId)) =>
      var orderId := if key.Some? then ForKey(key.value) else ForInvoice(invoiceId);
      if l'.invoices[invoiceId].status == Paid then (l', Some(AlreadyPaid))
      else if HasOpenOrder(l', invoiceId) && orderActive then (l', None)
      else if !orderCreated then (l', Some(GatewayFailed))
      else if PaymentOf(l', orderId).Some? then (l', Some(UniqueViolation))
      else
        var payment := Payment(invoiceId, Pending, l'.invoices[invoiceId].total, 0.0, Some(orderId), None, 0.0);
        (l'.(payments := l'.payments + [payment]), None)
  }

  // ---- runs ----

  datatype Op =
    | DoRefund(id: nat, requested: Option<real>, gatewayAccepts: bool)
    | DoConfirm(order: OrderId, status: OrderStatus)
    | DoEvent(event: Event)
    | DoCreateInvoice(bookingId: nat, price: real, discount: real)
    | DoVoid(invoiceId: nat)
    | DoRecompute(invoiceId: nat, price: real, discount: real)
    | DoIntent(bookingId: nat, price: real, discount: real, key: Option<string>, orderActive: bool, orderCreated: bool)

  function Apply(l: Ledger, op: Op): Ledger {
    match op
    case DoRefund(id, requested, gatewayAccepts) =>
      var result := Refund(l, id, requested, gatewayAccepts);
      if result.Success? then result.value else l
    case DoConfirm(order, status) => SyncFromOrder(l, order, status, "Payment failed")
    case DoEvent(event) => HandleWebhookEvent(l, event)
    case DoCreateInvoice(bookingId, price, discount) =>
      var result := CreateInvoice(l, bookingId, price, discount);
      if result.Success? then result.value else l
    case DoVoid(invoiceId) =>
      var result := VoidInvoice(l, invoiceId);
      if result.Success? then result.value else l
    case DoRecompute(invoiceId, price, discount) =>
      var result := RecomputeTotals(l, invoiceId, price, discount);
      if result.Success? then result.value else l
    case DoIntent(bookingId, price, discount, key, orderActive, orderCreated) =>
      CreateIntent(l, bookingId, price, discount, key, orderActive, orderCreated).0
  }

  function Run(l: Ledger, ops: seq<Op>): Ledger
    decreases |ops|
  {
    if ops == [] then l else Run(Apply(l, ops[0]), ops[1..])
  }

  const EMPTY_LEDGER := Ledger([], [])

  // ---- invariants ----

  predicate Settled(status: PaymentStatus) {
    status == Succeeded || status == PartiallyRefunded || status == Refunded
  }

  /** Foreign keys hold, order ids and bookings are unique, amounts are not negative. */
  ghost predicate TablesOk(l: Ledger) {
    && (forall p | p in l.payments :: p.invoiceId < |l.invoices| && p.amount >= 0.0)
    && (forall v | v in l.invoices :: v.total >= 0.0)
    && (forall i, j | 0 <= i < j < |l.payments| && l.payments[i].orderId.Some? ::
          l.payments[i].orderId != l.payments[j].orderId)
    && (forall i, j | 0 <= i < j < |l.invoices| :: l.invoices[i].bookingId != l.invoices[j].bookingId)
  }

  /** A settled payment has a paid invoice. */
  ghost predicate InvoicesAgree(l: Ledger) {
    forall p | p in l.payments && Settled(p.status) ::
      p.invoiceId < |l.invoices| && l.invoices[p.invoiceId].status == Paid
  }

  /** What was sent back is what is recorded, and is at most the amount, give or take the tolerance. */
  predicate Balanced(p: Payment) {
    p.sent == p.refundedAmount && 0.0 <= p.refundedAmount <= p.amount + TOLERANCE
  }

  ghost predicate RefundsOk(l: Ledger) {
    forall p | p in l.payments :: Balanced(p)
  }

  ghost predicate LedgerInv(l: Ledger) {
    TablesOk(l) && InvoicesAgree(l) && RefundsOk(l)
  }

  lemma PaymentUpdateKeepsInv(l: Ledger, id: nat, p: Payment)
    requires LedgerInv(l) && id < |l.payments|
    requires p.invoiceId == l.payments[id].invoiceId && p.amount == l.payments[id].amount
    requires p.orderId == l.payments[id].orderId && Balanced(p)
    requires Settled(p.status) ==> l.invoices[p.invoiceId].status == Paid
    ensures LedgerInv(SetPayment(l, id, p))
  {
  }

  lemma InvoiceUpdateKeepsInv(l: Ledger, id: nat, status: InvoiceStatus)
    requires LedgerInv(l) && id < |l.invoices|
    requires l.invoices[id].status == Paid ==> status == Paid
    ensures LedgerInv(SetInvoiceStatus(l, id, status))
  {
  }

  lemma TotalUpdateKeepsInv(l: Ledger, id: nat, total: real)
    requires LedgerInv(l) && id < |l.invoices| && total >= 0.0
    ensures LedgerInv(SetInvoiceTotal(l, id, total))
  {
  }

  lemma RefundKeepsInv(l: Ledger, id: nat, requested: Option<real>, gatewayAccepts: bool)
    requires LedgerInv(l)
    ensures LedgerInv(Apply(l, DoRefund(id, requested, gatewayAccepts)))
  {
    if Refund(l, id, requested, gatewayAccepts).Success? {
      assert l.payments[id] in l.payments;
      PaymentUpdateKeepsInv(l, id, Refunding(l.payments[id], RefundAmount(l.payments[id], requested)));
    }
  }

  lemma SyncKeepsInv(l: Ledger, orderId: OrderId, status: OrderStatus, message: string)
    requires LedgerInv(l)
    ensures LedgerInv(SyncFromOrder(l, orderId, status, message))
  {
    var found := PaymentOf(l, orderId);
    if found.Some? {
      var id := found.value;
      var p := l.payments[id];
      assert p in l.payments;
      if status == OrderPaid && p.status != Succeeded {
        InvoiceUpdateKeepsInv(l, p.invoiceId, Paid);
        PaymentUpdateKeepsInv(SetInvoiceStatus(l, p.invoiceId, Paid), id, p.(status := Succeeded));
      } else if (status == OrderFailed || status == OrderExpired) && p.status != Failed {
        PaymentUpdateKeepsInv(l, id, p.(status := Failed, failureReason := Some(message)));
      }
    }
  }

  lemma InsertInvoiceKeepsInv(l: Ledger, bookingId: nat, total: real)
    requires LedgerInv(l) && total >= 0.0 && InsertInvoice(l, bookingId, total).Success?
    ensures LedgerInv(InsertInvoice(l, bookingId, total).value.0)
  {
  }

  lemma InvoiceTotalIsNotNegative(price: real, discount: real)
    ensures InvoiceTotal(price, discount) >= 0.0
  {
  }

  lemma EnsuringKeepsInv(l: Ledger, bookingId: nat, price: real, discount: real)
    requires LedgerInv(l) && EnsureInvoice(l, bookingId, price, discount).Success?
    ensures LedgerInv(EnsureInvoice(l, bookingId, price, discount).value.0)
  {
    InvoiceTotalIsNotNegative(price, discount);
    if InvoiceOf(l, bookingId).None? {
      InsertInvoiceKeepsInv(l, bookingId, InvoiceTotal(price, discount));
    }
  }

  lemma IntentKeepsInv(l: Ledger, bookingId: nat, price: real, discount: real, key: Option<string>,
                       orderActive: bool, orderCreated: bool)
    requires LedgerInv(l)
    ensures LedgerInv(CreateIntent(l, bookingId, price, discount, key, orderActive, orderCreated).0)
  {
    match EnsureInvoice(l, bookingId, price, discount)
    case Failure(_) =>
    case Success((l', invoiceId)) =>
      EnsuringKeepsInv(l, bookingId, price, discount);
      assert l'.invoices[invoiceId] in l'.invoices;
  }

  /** Is this a refund webhook that disagrees with the recorded total? */
  predicate Overwrites(l: Ledger, op: Op) {
    && op.DoEvent? && op.event.RefundStatus? && op.event.succeeded
    && var found := PaymentOf(l, op.event.orderId);
       found.Some? && l.payments[found.value].refundedAmount != op.event.reported
  }

  lemma StepKeepsInv(l: Ledger, op: Op)
    requires LedgerInv(l) && !Overwrites(l, op)
    ensures LedgerInv(Apply(l, op))
  {
    match op
    case DoRefund(id, requested, gatewayAccepts) => RefundKeepsInv(l, id, requested, gatewayAccepts);
    case DoConfirm(order, status) => SyncKeepsInv(l, order, status, "Payment failed");
    case DoEvent(event) =>
      match event {
        case PaymentSuccess(orderId) => SyncKeepsInv(l, orderId, OrderPaid, "");
        case PaymentFailed(orderId, message) => SyncKeepsInv(l, orderId, OrderFailed, message);
        case _ =>
      }
    case DoCreateInvoice(bookingId, price, discount) =>
      InvoiceTotalIsNotNegative(price, discount);
      if CreateInvoice(l, bookingId, price, discount).Success? {
        InsertInvoiceKeepsInv(l, bookingId, InvoiceTotal(price, discount));
      }
    case DoVoid(invoiceId) =>
      if VoidInvoice(l, invoiceId).Success? {
        InvoiceUpdateKeepsInv(l, invoiceId, Void);
      }
    case DoRecompute(invoiceId, price, discount) =>
      InvoiceTotalIsNotNegative(price, discount);
      if invoiceId < |l.invoices| {
        TotalUpdateKeepsInv(l, invoiceId, InvoiceTotal(price, discount));
      }
    case DoIntent(bookingId, price, discount, key, orderActive, orderCreated) =>
      IntentKeepsInv(l, bookingId, price, discount, key, orderActive, orderCreated);
  }
}
