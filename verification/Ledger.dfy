// The ticket sale: what each database transaction does to the stock of ticket types, the
// purchases and the tickets. Rows are identified by their position in their table, which
// stands for the generated key: a new row's key is one no earlier row has.
module Ledger {
  import opened Prelude
  import SecureQr

  datatype PurchaseStatus = PENDING | COMPLETED | FAILED | REFUNDED

  datatype TicketStatus = PENDING | ACTIVE | VALID | USED | CANCELLED | REFUNDED

  datatype TicketType = TicketType(eventId: nat, totalQuantity: int, soldQuantity: int)

  datatype Purchase = Purchase(ticketTypeId: nat, quantity: int, paymentStatus: PurchaseStatus, createdAt: int)

  datatype Ticket = Ticket(ticketTypeId: nat, purchaseId: nat, qrCode: string, status: TicketStatus)

  datatype Tables = Tables(types: seq<TicketType>, purchases: seq<Purchase>, tickets: seq<Ticket>)

  datatype Error =
    | NotFound | OutOfStock | MissingRelation | InvalidCode | CodeMismatch | AlreadyUsed | NotActive | CheckViolated

  // ---------------------------------------------------------------- transactions

  function CreatePendingPurchase(l: Tables, typeId: nat, quantity: int, now: int): Result<Tables, Error> {
    if typeId >= |l.types| then Err(NotFound)
    else
      var tt := l.types[typeId];
      var totalSold := tt.soldQuantity + quantity;
      if totalSold > tt.totalQuantity then Err(OutOfStock)
      else Ok(l.(
        types := l.types[typeId := tt.(soldQuantity := totalSold)],
        purchases := l.purchases + [Purchase(typeId, quantity, PurchaseStatus.PENDING, now)]))
  }

  function CodeOf(c: SecureQr.Codec, l: Tables, purchaseId: nat, ticketId: nat, now: int): string
    requires purchaseId < |l.purchases| && l.purchases[purchaseId].ticketTypeId < |l.types|
  {
    var typeId := l.purchases[purchaseId].ticketTypeId;
    SecureQr.Generate(c, SecureQr.Payload(ticketId, purchaseId, typeId, l.types[typeId].eventId, now))
  }

  /** The first k tickets of a purchase, with keys following those already in the table. */
  function Issued(c: SecureQr.Codec, l: Tables, purchaseId: nat, k: nat, now: int): (ts: seq<Ticket>)
    requires purchaseId < |l.purchases| && l.purchases[purchaseId].ticketTypeId < |l.types|
    ensures |ts| == k
  {
    seq(k, i requires 0 <= i < k =>
      Ticket(l.purchases[purchaseId].ticketTypeId, purchaseId,
             CodeOf(c, l, purchaseId, |l.tickets| + i, now), TicketStatus.ACTIVE))
  }

  function SetPurchaseStatus(l: Tables, purchaseId: nat, status: PurchaseStatus): Tables
    requires purchaseId < |l.purchases|
  {
    l.(purchases := l.purchases[purchaseId := l.purchases[purchaseId].(paymentStatus := status)])
  }

  function CompletePurchase(c: SecureQr.Codec, l: Tables, purchaseId: nat, now: int): Result<Tables, Error> {
    if purchaseId >= |l.purchases| then Err(NotFound)
    else
      var p := l.purchases[purchaseId];
      if p.paymentStatus == PurchaseStatus.COMPLETED then Ok(l)
      else if p.quantity > 0 && p.ticketTypeId >= |l.types| then Err(MissingRelation)
      else
        var done := SetPurchaseStatus(l, purchaseId, PurchaseStatus.COMPLETED);
        Ok(if p.quantity <= 0 then done
           else done.(tickets := l.tickets + Issued(c, l, purchaseId, p.quantity, now)))
  }

  /** Every ticket of the purchase gets the status, whatever it had. */
  function Mark(ts: seq<Ticket>, purchaseId: nat, status: TicketStatus): (r: seq<Ticket>)
    ensures |r| == |ts|
  {
    seq(|ts|, i requires 0 <= i < |ts| =>
      if ts[i].purchaseId == purchaseId then ts[i].(status := status) else ts[i])
  }

  function ReleaseInventory(types: seq<TicketType>, typeId: nat, quantity: int): (r: seq<TicketType>)
    ensures |r| == |types|
  {
    if typeId < |types| then
      types[typeId := types[typeId].(soldQuantity := Max(0, types[typeId].soldQuantity - quantity))]
    else types
  }

  /** The table's check that no more is sold than there is: whether a row may be saved. */
  predicate WithinCapacity(tt: TicketType) {
    tt.soldQuantity <= tt.totalQuantity
  }

  /** The stock of a purchase given back; the check refuses a counter above its capacity. */
  function Released(types: seq<TicketType>, p: Purchase): (r: Result<seq<TicketType>, Error>)
    ensures r.Ok? ==> |r.value| == |types|
  {
    var released := ReleaseInventory(types, p.ticketTypeId, p.quantity);
    if p.ticketTypeId < |released| && !WithinCapacity(released[p.ticketTypeId]) then Err(CheckViolated)
    else Ok(released)
  }

  /** What refunds and failures share: the purchase, its tickets and its stock. */
  function Withdraw(l: Tables, purchaseId: nat, status: PurchaseStatus, mark: TicketStatus): Result<Tables, Error> {
    if purchaseId >= |l.purchases| then Err(NotFound)
    else
      match Released(l.types, l.purchases[purchaseId])
      case Err(e) => Err(e)
      case Ok(types) =>
        Ok(Tables(types, SetPurchaseStatus(l, purchaseId, status).purchases, Mark(l.tickets, purchaseId, mark)))
  }

  function HandleOrderRefunded(l: Tables, purchaseId: nat): Result<Tables, Error> {
    Withdraw(l, purchaseId, PurchaseStatus.REFUNDED, TicketStatus.REFUNDED)
  }

  function HandleOrderFailed(l: Tables, purchaseId: nat): Result<Tables, Error> {
    Withdraw(l, purchaseId, PurchaseStatus.FAILED, TicketStatus.CANCELLED)
  }

  /** The cron's transaction for one row of its list, possibly read long before: it neither
      re-reads the status nor touches tickets. */
  function ExpireReservation(l: Tables, purchaseId: nat): Result<Tables, Error> {
    if purchaseId >= |l.purchases| then Err(NotFound)
    else
      match Released(l.types, l.purchases[purchaseId])
      case Err(e) => Err(e)
      case Ok(types) => Ok(SetPurchaseStatus(l, purchaseId, PurchaseStatus.FAILED).(types := types))
  }

  /** The organiser's edit of a capacity; the same check refuses one below what is sold. */
  function EditCapacity(l: Tables, typeId: nat, totalQuantity: int): Result<Tables, Error> {
    if typeId >= |l.types| then Err(NotFound)
    else
      var tt := l.types[typeId].(totalQuantity := totalQuantity);
      if !WithinCapacity(tt) then Err(CheckViolated) else Ok(l.(types := l.types[typeId := tt]))
  }

  // ------------------------------------------------------------------- admission

  function FindByQr(ts: seq<Ticket>, code: string): (r: Option<nat>)
    ensures r.Some? ==> r.value < |ts| && ts[r.value].qrCode == code
    ensures r.None? ==> forall i :: 0 <= i < |ts| ==> ts[i].qrCode != code
  {
    if ts == [] then None
    else match FindByQr(ts[..|ts| - 1], code)
      case Some(i) => Some(i)
      case None => if ts[|ts| - 1].qrCode == code then Some(|ts| - 1) else None
  }

  predicate LooksSecure(code: string) {
    |code| > 50 && ('-' in code || '_' in code)
  }

  function FindByCode(c: SecureQr.Codec, l: Tables, code: string, now: int): (r: Result<nat, Error>)
    ensures r.Ok? ==> r.value < |l.tickets| && l.tickets[r.value].qrCode == code
  {
    match SecureQr.Validate(c, code, now)
    case None => Err(InvalidCode)
    case Some(d) =>
      if d.payload.ticketId >= |l.tickets| then Err(NotFound)
      else if l.tickets[d.payload.ticketId].qrCode != code then Err(CodeMismatch)
      else Ok(d.payload.ticketId)
  }

  /** The ticket a scanned code designates, by signature or by plain lookup. */
  function FindTicket(c: SecureQr.Codec, l: Tables, code: string, now: int): (r: Result<nat, Error>)
    ensures r.Ok? ==> r.value < |l.tickets| && l.tickets[r.value].qrCode == code
  {
    if LooksSecure(code) then FindByCode(c, l, code, now)
    else match FindByQr(l.tickets, code)
      case Some(i) => Ok(i)
      case None => Err(NotFound)
  }

  /** Admits one ticket: its key and the tables with it used. */
  function ValidateAndUse(c: SecureQr.Codec, l: Tables, code: string, now: int): Result<(nat, Tables), Error> {
    match FindTicket(c, l, code, now)
    case Err(e) => Err(e)
    case Ok(i) =>
      if l.tickets[i].status == TicketStatus.USED then Err(AlreadyUsed)
      else if l.tickets[i].status != TicketStatus.ACTIVE then Err(NotActive)
      else Ok((i, l.(tickets := l.tickets[i := l.tickets[i].(status := TicketStatus.USED)])))
  }

  function RegenerateQRCode(c: SecureQr.Codec, l: Tables, ticketId: nat, now: int): Result<Tables, Error> {
    if ticketId >= |l.tickets| then Err(NotFound)
    else
      var t := l.tickets[ticketId];
      if t.ticketTypeId >= |l.types| then Err(MissingRelation)
      else
        var code := SecureQr.Generate(c, SecureQr.Payload(
          ticketId, t.purchaseId, t.ticketTypeId, l.types[t.ticketTypeId].eventId, now));
        Ok(l.(tickets := l.tickets[ticketId := t.(qrCode := code)]))
  }

  /** Makes a ticket ACTIVE, whatever it was. */
  function ActivateTicket(l: Tables, ticketId: nat): Result<Tables, Error> {
    if ticketId >= |l.tickets| then Err(NotFound)
    else Ok(l.(tickets := l.tickets[ticketId := l.tickets[ticketId].(status := TicketStatus.ACTIVE)]))
  }

  // ------------------------------------------------------------------------ runs

  datatype Step =
    | Reserve(typeId: nat, quantity: int, now: int)
    | Complete(purchaseId: nat, now: int)
    | Refund(purchaseId: nat)
    | Fail(purchaseId: nat)
    | Expire(purchaseId: nat)
    | Scan(code: string, now: int)
    | Regenerate(ticketId: nat, now: int)
    | Activate(ticketId: nat)
    | SetCapacity(typeId: nat, totalQuantity: int)

  function Transaction(c: SecureQr.Codec, l: Tables, s: Step): Result<Tables, Error> {
    match s
    case Reserve(t, q, now) => CreatePendingPurchase(l, t, q, now)
    case Complete(p, now) => CompletePurchase(c, l, p, now)
    case Refund(p) => HandleOrderRefunded(l, p)
    case Fail(p) => HandleOrderFailed(l, p)
    case Expire(p) => ExpireReservation(l, p)
    case Scan(code, now) =>
      (match ValidateAndUse(c, l, code, now)
       case Ok((_, l')) => Ok(l')
       case Err(e) => Err(e))
    case Regenerate(t, now) => RegenerateQRCode(c, l, t, now)
    case Activate(t) => ActivateTicket(l, t)
    case SetCapacity(t, n) => EditCapacity(l, t, n)
  }

  /** One step of a run: a transaction that fails is rolled back. */
  function Apply(c: SecureQr.Codec, l: Tables, s: Step): Tables {
    match Transaction(c, l, s)
    case Ok(l') => l'
    case Err(_) => l
  }

  /** Any number of transactions, in the order the database committed them. */
  function Run(c: SecureQr.Codec, l: Tables, steps: seq<Step>): Tables
    decreases |steps|
  {
    if steps == [] then l else Run(c, Apply(c, l, steps[0]), steps[1..])
  }

  lemma {:induction false} RunAppend(c: SecureQr.Codec, l: Tables, a: seq<Step>, b: seq<Step>)
    ensures Run(c, l, a + b) == Run(c, Run(c, l, a), b)
    decreases |a|
  {
    if a == [] {
      assert a + b == b;
    } else {
      assert (a + b)[1..] == a[1..] + b;
      RunAppend(c, Apply(c, l, a[0]), a[1..], b);
    }
  }

  // -------------------------------------------------------------- well-formedness

  /** Rows refer to rows that exist. */
  predicate WellFormed(l: Tables) {
    && (forall p :: 0 <= p < |l.purchases| ==> l.purchases[p].ticketTypeId < |l.types|)
    && (forall i :: 0 <= i < |l.tickets| ==>
          l.tickets[i].purchaseId < |l.purchases|
          && l.tickets[i].ticketTypeId == l.purchases[l.tickets[i].purchaseId].ticketTypeId)
  }

  lemma WellFormedStep(c: SecureQr.Codec, l: Tables, s: Step)
    requires WellFormed(l)
    ensures WellFormed(Apply(c, l, s))
  {}

  lemma {:induction false} RunWellFormed(c: SecureQr.Codec, l: Tables, steps: seq<Step>)
    requires WellFormed(l)
    ensures WellFormed(Run(c, l, steps))
    decreases |steps|
  {
    if steps != [] {
      WellFormedStep(c, l, steps[0]);
      RunWellFormed(c, Apply(c, l, steps[0]), steps[1..]);
    }
  }
}
