// What each transaction and each delivery does to every row of every table, column by column.
module RowByRow {
  import opened Prelude
  import opened Ledger
  import opened Webhook
  import Idempotency
  import SecureQr

  // ------------------------------------------------------------------------ frames

  /** Every purchase but one is as it was. */
  predicate OtherPurchasesKept(l: Tables, l': Tables, p: nat) {
    |l'.purchases| == |l.purchases|
    && forall i: nat :: i < |l.purchases| && i != p ==> l'.purchases[i] == l.purchases[i]
  }

  predicate OtherTypesKept(l: Tables, l': Tables, t: nat) {
    |l'.types| == |l.types| && forall i: nat :: i < |l.types| && i != t ==> l'.types[i] == l.types[i]
  }

  predicate OtherTicketsKept(l: Tables, l': Tables, ticket: nat) {
    |l'.tickets| == |l.tickets| && forall i: nat :: i < |l.tickets| && i != ticket ==> l'.tickets[i] == l.tickets[i]
  }

  // ------------------------------------------------------------------- reservations

  /** A reservation of seats succeeds exactly when the type exists and has them left; it counts
      them as sold and appends one PENDING purchase dated now. Nothing else changes. */
  lemma ReservationRows(c: SecureQr.Codec, l: Tables, t: nat, quantity: int, now: int)
    ensures var r := Transaction(c, l, Reserve(t, quantity, now));
      && (r.Ok? <==> t < |l.types| && l.types[t].soldQuantity + quantity <= l.types[t].totalQuantity)
      && (r.Err? ==> r.error == if t >= |l.types| then NotFound else OutOfStock)
      && (r.Ok? ==>
            && r.value.purchases == l.purchases + [Purchase(t, quantity, PurchaseStatus.PENDING, now)]
            && OtherTypesKept(l, r.value, t)
            && r.value.types[t].soldQuantity == l.types[t].soldQuantity + quantity
            && r.value.types[t].totalQuantity == l.types[t].totalQuantity
            && r.value.types[t].eventId == l.types[t].eventId
            && r.value.tickets == l.tickets)
  {}

  // -------------------------------------------------------------------- completions

  /** A ticket a completion appends under key i: an ACTIVE one of the purchase, with the code that
      was generated for that key. */
  predicate NewTicket(c: SecureQr.Codec, l: Tables, p: nat, now: int, i: nat, ticket: Ticket)
    requires p < |l.purchases| && l.purchases[p].ticketTypeId < |l.types|
  {
    var t := l.purchases[p].ticketTypeId;
    && ticket.ticketTypeId == t && ticket.purchaseId == p && ticket.status == TicketStatus.ACTIVE
    && ticket.qrCode
       == SecureQr.Generate(c, SecureQr.Payload(i, p, t, l.types[t].eventId, now))
  }

  /** A purchase that is not COMPLETED becomes so and gets one ticket per seat, behind those there
      are; completing it again changes nothing. */
  lemma CompletionRows(c: SecureQr.Codec, l: Tables, p: nat, now: int)
    requires WellFormed(l)
    ensures var r := Transaction(c, l, Complete(p, now));
      && (r.Ok? <==> p < |l.purchases|) && (r.Err? ==> r.error == NotFound)
      && (r.Ok? && l.purchases[p].paymentStatus == PurchaseStatus.COMPLETED ==> r.value == l)
      && (r.Ok? && l.purchases[p].paymentStatus != PurchaseStatus.COMPLETED ==>
            && r.value.types == l.types && OtherPurchasesKept(l, r.value, p)
            && r.value.purchases[p] == l.purchases[p].(paymentStatus := PurchaseStatus.COMPLETED)
            && |r.value.tickets| == |l.tickets| + Max(0, l.purchases[p].quantity)
            && r.value.tickets[..|l.tickets|] == l.tickets
            && forall i: nat :: |l.tickets| <= i < |r.value.tickets| ==>
                 NewTicket(c, l, p, now, i, r.value.tickets[i]))
  {
    var r := Transaction(c, l, Complete(p, now));
    if r.Ok? && l.purchases[p].paymentStatus != PurchaseStatus.COMPLETED && l.purchases[p].quantity > 0 {
      var ts := Issued(c, l, p, l.purchases[p].quantity, now);
      assert r.value.tickets == l.tickets + ts;
      forall i: nat | |l.tickets| <= i < |r.value.tickets| ensures NewTicket(c, l, p, now, i, r.value.tickets[i]) {
        var k := i - |l.tickets|;
        assert r.value.tickets[i] == ts[k] && ts[k].qrCode == CodeOf(c, l, p, |l.tickets| + k, now);
      }
    }
  }

  // ------------------------------------------------------------ refunds and failures

  /** Stock of purchase p given back to its type, down to zero. */
  predicate StockReturned(l: Tables, l': Tables, p: nat)
    requires p < |l.purchases|
  {
    var t, q := l.purchases[p].ticketTypeId, l.purchases[p].quantity;
    && OtherTypesKept(l, l', t)
    && (t < |l.types| ==>
          l'.types[t] == l.types[t].(soldQuantity :=
            if q > l.types[t].soldQuantity then 0 else l.types[t].soldQuantity - q))
  }

  /** The purchase and every one of its tickets with their new statuses, and no other row. */
  predicate Ended(l: Tables, l': Tables, p: nat, status: PurchaseStatus, mark: TicketStatus)
    requires p < |l.purchases|
  {
    && OtherPurchasesKept(l, l', p)
    && l'.purchases[p] == l.purchases[p].(paymentStatus := status)
    && |l'.tickets| == |l.tickets|
    && (forall i :: 0 <= i < |l.tickets| ==>
          l'.tickets[i] == if l.tickets[i].purchaseId == p then l.tickets[i].(status := mark) else l.tickets[i])
    && StockReturned(l, l', p)
  }

  /** What the table's check refuses: a counter that would end above its capacity. */
  predicate Overflows(l: Tables, p: nat)
    requires p < |l.purchases|
  {
    var t := l.purchases[p].ticketTypeId;
    t < |l.types| && Max(0, l.types[t].soldQuantity - l.purchases[p].quantity) > l.types[t].totalQuantity
  }

  predicate Succeeds(l: Tables, p: nat) {
    p < |l.purchases| && !Overflows(l, p)
  }

  lemma RefundRows(c: SecureQr.Codec, l: Tables, p: nat)
    ensures var r := Transaction(c, l, Refund(p));
      && (r.Ok? <==> Succeeds(l, p)) && (r.Err? ==> r.error == if p >= |l.purchases| then NotFound else CheckViolated)
      && (r.Ok? ==> Ended(l, r.value, p, PurchaseStatus.REFUNDED, TicketStatus.REFUNDED))
  {}

  lemma FailureRows(c: SecureQr.Codec, l: Tables, p: nat)
    ensures var r := Transaction(c, l, Fail(p));
      && (r.Ok? <==> Succeeds(l, p)) && (r.Err? ==> r.error == if p >= |l.purchases| then NotFound else CheckViolated)
      && (r.Ok? ==> Ended(l, r.value, p, PurchaseStatus.FAILED, TicketStatus.CANCELLED))
  {}

  /** The cron touches the purchase and the stock, and no ticket. */
  lemma ExpiryRows(c: SecureQr.Codec, l: Tables, p: nat)
    ensures var r := Transaction(c, l, Expire(p));
      && (r.Ok? <==> Succeeds(l, p)) && (r.Err? ==> r.error == if p >= |l.purchases| then NotFound else CheckViolated)
      && (r.Ok? ==>
            && OtherPurchasesKept(l, r.value, p) && r.value.tickets == l.tickets && StockReturned(l, r.value, p)
            && r.value.purchases[p] == l.purchases[p].(paymentStatus := PurchaseStatus.FAILED))
  {}

  // ---------------------------------------------------------------------- deliveries

  /** A refund ends its purchase as REFUNDED with every ticket REFUNDED, whatever they were. */
  lemma RefundedDelivery(c: SecureQr.Codec, l: Tables, d: Delivery)
    requires d.action == "order.refunded"
    ensures var r := Handle(c, l, d);
      && (r.Ok? <==> Succeeds(l, d.purchaseId))
      && (r.Ok? ==> Ended(l, r.value, d.purchaseId, PurchaseStatus.REFUNDED, TicketStatus.REFUNDED))
  {}

  /** An expired, failed or cancelled order ends it as FAILED with every ticket CANCELLED. */
  lemma FailedDelivery(c: SecureQr.Codec, l: Tables, d: Delivery)
    requires d.action == "order.expired" || d.action == "order.failed" || d.action == "order.cancelled"
    ensures var r := Handle(c, l, d);
      && (r.Ok? <==> Succeeds(l, d.purchaseId))
      && (r.Ok? ==> Ended(l, r.value, d.purchaseId, PurchaseStatus.FAILED, TicketStatus.CANCELLED))
  {}

  /** A processed order, which an absent action stands for, completes a PENDING purchase and
      leaves any other alone. */
  lemma ProcessedDelivery(c: SecureQr.Codec, l: Tables, d: Delivery)
    requires d.action == "order.processed" || d.action == ""
    ensures var r := Handle(c, l, d);
      if d.purchaseId >= |l.purchases| then r == Err(NotFound)
      else if l.purchases[d.purchaseId].paymentStatus == PurchaseStatus.PENDING then
        r == Transaction(c, l, Complete(d.purchaseId, d.now))
      else r == Ok(l)
  {}

  /** Any other action is accepted and changes nothing. */
  lemma UnknownDelivery(c: SecureQr.Codec, l: Tables, d: Delivery)
    requires d.action !in {
      "", "order.processed", "order.refunded", "order.expired", "order.failed", "order.cancelled"}
    ensures Handle(c, l, d) == if d.purchaseId < |l.purchases| then Ok(l) else Err(NotFound)
  {}

  // --------------------------------------------------------------------------- tickets

  /** A scan that admits: only its ticket changes, from ACTIVE to USED. A refusal says why. */
  lemma ScanRows(c: SecureQr.Codec, l: Tables, code: string, now: int)
    ensures match ValidateAndUse(c, l, code, now)
      case Ok((i, l')) =>
        && l'.types == l.types && l'.purchases == l.purchases && OtherTicketsKept(l, l', i)
        && i < |l.tickets| && l.tickets[i].qrCode == code && l.tickets[i].status == TicketStatus.ACTIVE
        && l'.tickets[i] == l.tickets[i].(status := TicketStatus.USED)
      case Err(e) =>
        && (e == AlreadyUsed ==>
              exists i :: 0 <= i < |l.tickets| && l.tickets[i].qrCode == code
                && l.tickets[i].status == TicketStatus.USED)
        && (e == NotActive ==>
              exists i :: 0 <= i < |l.tickets| && l.tickets[i].qrCode == code
                && l.tickets[i].status != TicketStatus.USED && l.tickets[i].status != TicketStatus.ACTIVE)
        && (FindTicket(c, l, code, now).Ok? ==> e == AlreadyUsed || e == NotActive)
  {}

  /** A code that no ticket stores is refused for the first of these reasons: a code of the signed
      kind is not valid, names no ticket, or is not the one its ticket stores; any other one is not
      found. */
  lemma UnstoredCodeRefused(c: SecureQr.Codec, l: Tables, code: string, now: int)
    requires forall i :: 0 <= i < |l.tickets| ==> l.tickets[i].qrCode != code
    ensures var signed := |code| > 50 && ('-' in code || '_' in code);
      var data := SecureQr.Validate(c, code, now);
      ValidateAndUse(c, l, code, now) == Err(
        if !signed then NotFound
        else if data.None? then InvalidCode
        else if data.value.payload.ticketId >= |l.tickets| then NotFound
        else CodeMismatch)
  {}

  /** Only the code of the ticket changes; its status and everything else stay. */
  lemma RegenerationRows(c: SecureQr.Codec, l: Tables, i: nat, now: int)
    requires WellFormed(l)
    ensures var r := Transaction(c, l, Regenerate(i, now));
      && (r.Ok? <==> i < |l.tickets|) && (r.Err? ==> r.error == NotFound)
      && (r.Ok? ==>
            && r.value.types == l.types && r.value.purchases == l.purchases && OtherTicketsKept(l, r.value, i)
            && r.value.tickets[i].status == l.tickets[i].status
            && r.value.tickets[i].purchaseId == l.tickets[i].purchaseId
            && r.value.tickets[i].ticketTypeId == l.tickets[i].ticketTypeId
            && r.value.tickets[i].qrCode == SecureQr.Generate(c, SecureQr.Payload(
                 i, l.tickets[i].purchaseId, l.tickets[i].ticketTypeId,
                 l.types[l.tickets[i].ticketTypeId].eventId, now)))
  {}

  lemma ActivationRows(c: SecureQr.Codec, l: Tables, i: nat)
    ensures var r := Transaction(c, l, Activate(i));
      && (r.Ok? <==> i < |l.tickets|) && (r.Err? ==> r.error == NotFound)
      && (r.Ok? ==>
            && r.value.types == l.types && r.value.purchases == l.purchases && OtherTicketsKept(l, r.value, i)
            && r.value.tickets[i] == l.tickets[i].(status := TicketStatus.ACTIVE))
  {}

  lemma CapacityRows(c: SecureQr.Codec, l: Tables, t: nat, n: int)
    ensures var r := Transaction(c, l, SetCapacity(t, n));
      && (r.Ok? <==> t < |l.types| && l.types[t].soldQuantity <= n)
      && (r.Err? ==> r.error == if t >= |l.types| then NotFound else CheckViolated)
      && (r.Ok? ==>
            && r.value.purchases == l.purchases && r.value.tickets == l.tickets && OtherTypesKept(l, r.value, t)
            && r.value.types[t] == l.types[t].(totalQuantity := n))
  {}
}
