// The ticket tables as the services change them, row by row, each method one transaction.
module TicketService {
  import opened Prelude
  import opened Ledger
  import SecureQr
  import opened Conservation
  import TicketCounts
  import Idempotency
  import Webhook

  const RESERVATION_MS := 30 * 60 * 1000

  const DEFAULT_TTL_MS := 24 * 60 * 60 * 1000

  /** The rows after a transaction: committed on success, rolled back otherwise. */
  function Committed(r: Result<Tables, Error>, before: Tables): Tables {
    match r
    case Ok(l) => l
    case Err(_) => before
  }

  // ------------------------------------------------------- the cron, on values

  /** The rows the cron's query selects among the first n purchases. */
  function ExpiredPending(ps: seq<Purchase>, cutoff: int, n: nat): (ids: seq<nat>)
    requires n <= |ps|
    ensures forall k :: 0 <= k < |ids| ==>
      ids[k] < n && ps[ids[k]].paymentStatus == PurchaseStatus.PENDING && ps[ids[k]].createdAt < cutoff
    ensures forall p ::
      0 <= p < n && ps[p].paymentStatus == PurchaseStatus.PENDING && ps[p].createdAt < cutoff ==> p in ids
    ensures forall j, k :: 0 <= j < k < |ids| ==> ids[j] != ids[k]
  {
    if n == 0 then []
    else
      ExpiredPending(ps, cutoff, n - 1)
      + if ps[n - 1].paymentStatus == PurchaseStatus.PENDING && ps[n - 1].createdAt < cutoff then [n - 1] else []
  }

  /** One expiry transaction for each listed row. */
  function ExpireAll(l: Tables, ids: seq<nat>): (e: Tables)
    ensures |e.purchases| == |l.purchases|
  {
    if ids == [] then l
    else
      var before := ExpireAll(l, ids[..|ids| - 1]);
      match ExpireReservation(before, ids[|ids| - 1])
      case Ok(l') => l'
      case Err(_) => before
  }

  lemma ExpireSnoc(l: Tables, ids: seq<nat>, id: nat)
    ensures ExpireAll(l, ids + [id]) == Committed(ExpireReservation(ExpireAll(l, ids), id), ExpireAll(l, ids))
  {
    assert (ids + [id])[..|ids|] == ids;
  }

  /** The listed rows whose transaction does not fail for reasons of its own. */
  function Except(ids: seq<nat>, failing: set<nat>): seq<nat> {
    if ids == [] then []
    else Except(ids[..|ids| - 1], failing) + if ids[|ids| - 1] in failing then [] else [ids[|ids| - 1]]
  }

  lemma {:induction false} ExceptMembers(ids: seq<nat>, failing: set<nat>, p: nat)
    ensures p in Except(ids, failing) <==> p in ids && p !in failing
  {
    if ids != [] {
      var n := |ids| - 1;
      ExceptMembers(ids[..n], failing, p);
      assert ids == ids[..n] + [ids[n]];
    }
  }

  lemma NextRow(l: Tables, ids: seq<nat>, k: nat, failing: set<nat>)
    requires k < |ids|
    ensures var before := ExpireAll(l, Except(ids[..k], failing));
      ExpireAll(l, Except(ids[..k + 1], failing))
      == if ids[k] in failing then before else Committed(ExpireReservation(before, ids[k]), before)
  {
    var done := Except(ids[..k], failing);
    assert ids[..k + 1][..k] == ids[..k];
    assert Except(ids[..k + 1], failing) == if ids[k] in failing then done else done + [ids[k]];
    ExpireSnoc(l, done, ids[k]);
  }

  /** Stock to be given back is counted: no release is refused by the table's check. */
  predicate Expirable(l: Tables) {
    && NonNegative(l) && WithinCapacities(l)
    && forall t :: 0 <= t < |l.types| ==> l.types[t].totalQuantity >= 0
  }

  lemma ExpirableStep(l: Tables, p: nat)
    requires Expirable(l) && p < |l.purchases|
    ensures ExpireReservation(l, p).Ok? && Expirable(ExpireReservation(l, p).value)
  {}

  /** The k-th turn of the clean-up is committed. */
  predicate Commits(l: Tables, ids: seq<nat>, k: nat)
    requires k < |ids|
  {
    ExpireReservation(ExpireAll(l, ids[..k]), ids[k]).Ok?
  }

  /** Some turn of the clean-up on this row is committed. */
  predicate ExpiredInTurn(l: Tables, ids: seq<nat>, p: nat) {
    exists k :: 0 <= k < |ids| && ids[k] == p && Commits(l, ids, k)
  }

  lemma CommitsOfPrefix(l: Tables, ids: seq<nat>, n: nat, k: nat)
    requires k < n <= |ids|
    ensures ids[..n][k] == ids[k] && (Commits(l, ids[..n], k) <==> Commits(l, ids, k))
  {
    assert ids[..n][..k] == ids[..k];
  }

  lemma ExpiredSnoc(l: Tables, ids: seq<nat>, p: nat)
    requires ids != []
    ensures var n := |ids| - 1;
      ExpiredInTurn(l, ids, p) <==> ExpiredInTurn(l, ids[..n], p) || (ids[n] == p && Commits(l, ids, n))
  {
    var n := |ids| - 1;
    if ExpiredInTurn(l, ids, p) {
      var k :| 0 <= k < |ids| && ids[k] == p && Commits(l, ids, k);
      if k < n { CommitsOfPrefix(l, ids, n, k); }
    }
    if ExpiredInTurn(l, ids[..n], p) {
      var k :| 0 <= k < n && ids[..n][k] == p && Commits(l, ids[..n], k);
      CommitsOfPrefix(l, ids, n, k);
    }
  }

  /** The purchases after an uninterrupted clean-up: FAILED where a turn is committed, and no
      other touched. */
  lemma {:induction false} ExpireAllPurchases(l: Tables, ids: seq<nat>, p: nat)
    requires p < |l.purchases|
    ensures ExpireAll(l, ids).tickets == l.tickets && |ExpireAll(l, ids).types| == |l.types|
    ensures ExpireAll(l, ids).purchases[p]
         == if ExpiredInTurn(l, ids, p) then l.purchases[p].(paymentStatus := PurchaseStatus.FAILED) else l.purchases[p]
  {
    if ids != [] {
      ExpireAllPurchases(l, ids[..|ids| - 1], p);
      ExpiredSnoc(l, ids, p);
    }
  }

  lemma {:induction false} ExpireAllExpirable(l: Tables, ids: seq<nat>)
    requires Expirable(l) && forall k :: 0 <= k < |ids| ==> ids[k] < |l.purchases|
    ensures Expirable(ExpireAll(l, ids))
  {
    if ids != [] {
      var n := |ids| - 1;
      ExpireAllExpirable(l, ids[..n]);
      ExpirableStep(ExpireAll(l, ids[..n]), ids[n]);
    }
  }

  /** Every turn is committed when no purchase is negative and no counter above its capacity. */
  lemma EveryTurnCommits(l: Tables, ids: seq<nat>, p: nat)
    requires Expirable(l) && forall k :: 0 <= k < |ids| ==> ids[k] < |l.purchases|
    ensures ExpiredInTurn(l, ids, p) <==> p in ids
  {
    if p in ids {
      var k :| 0 <= k < |ids| && ids[k] == p;
      ExpireAllExpirable(l, ids[..k]);
      ExpirableStep(ExpireAll(l, ids[..k]), p);
      assert Commits(l, ids, k);
    }
  }

  function Selected(l: Tables, cutoff: int, failing: set<nat>): seq<nat> {
    Except(ExpiredPending(l.purchases, cutoff, |l.purchases|), failing)
  }

  lemma SelectedRows(l: Tables, cutoff: int, failing: set<nat>, p: nat)
    ensures p in Selected(l, cutoff, failing) <==>
      p < |l.purchases| && l.purchases[p].paymentStatus == PurchaseStatus.PENDING
      && l.purchases[p].createdAt < cutoff && p !in failing
  {
    ExceptMembers(ExpiredPending(l.purchases, cutoff, |l.purchases|), failing, p);
  }

  /** The uninterrupted clean-up changes a purchase, to FAILED, only if it was PENDING and older
      than the cutoff, its own transaction does not fail, and the table's check lets its stock be
      given back in its turn; with no negative purchase the last always holds. */
  lemma CleanupExactly(l: Tables, cutoff: int, failing: set<nat>, p: nat)
    requires p < |l.purchases|
    ensures var ids, row := Selected(l, cutoff, failing), l.purchases[p];
      && ExpireAll(l, ids).purchases[p]
         == (if ExpiredInTurn(l, ids, p) then row.(paymentStatus := PurchaseStatus.FAILED) else row)
      && (ExpiredInTurn(l, ids, p) ==>
            row.paymentStatus == PurchaseStatus.PENDING && row.createdAt < cutoff && p !in failing)
      && (Expirable(l) && row.paymentStatus == PurchaseStatus.PENDING && row.createdAt < cutoff && p !in failing ==>
            ExpiredInTurn(l, ids, p))
  {
    var ids := Selected(l, cutoff, failing);
    ExpireAllPurchases(l, ids, p);
    SelectedRows(l, cutoff, failing, p);
    if ExpiredInTurn(l, ids, p) { assert p in ids; }
    if Expirable(l) {
      forall k | 0 <= k < |ids| ensures ids[k] < |l.purchases| { SelectedRows(l, cutoff, failing, ids[k]); }
      EveryTurnCommits(l, ids, p);
    }
  }

  /** The clean-up at an instant. */
  function CleanedUp(l: Tables, now: int, failing: set<nat>): Tables {
    ExpireAll(l, Selected(l, now - RESERVATION_MS, failing))
  }

  lemma ReservationExpirable(l: Tables, t: nat, quantity: int, now: int)
    requires Expirable(l) && quantity >= 0 && Ledger.CreatePendingPurchase(l, t, quantity, now).Ok?
    ensures var reserved := Ledger.CreatePendingPurchase(l, t, quantity, now).value;
      && Expirable(reserved) && |reserved.purchases| == |l.purchases| + 1
      && reserved.purchases[|l.purchases|] == Purchase(t, quantity, PurchaseStatus.PENDING, now)
  {}

  /** A reservation is left alone for thirty minutes; if it is still PENDING then, the next
      clean-up whose transaction for it does not fail makes it FAILED. */
  lemma ReservationsLastHalfAnHour(l: Tables, t: nat, quantity: int, now: int, later: int, failing: set<nat>)
    requires Expirable(l) && quantity >= 0 && Ledger.CreatePendingPurchase(l, t, quantity, now).Ok?
    ensures var reserved, p := Ledger.CreatePendingPurchase(l, t, quantity, now).value, |l.purchases|;
      var e := CleanedUp(reserved, later, failing);
      && p < |e.purchases|
      && e.purchases[p].paymentStatus
         == if later - now > 1800000 && p !in failing then PurchaseStatus.FAILED else PurchaseStatus.PENDING
  {
    var reserved := Ledger.CreatePendingPurchase(l, t, quantity, now).value;
    ReservationExpirable(l, t, quantity, now);
    ExpireAllLength(reserved, Selected(reserved, later - RESERVATION_MS, failing));
    CleanupExactly(reserved, later - RESERVATION_MS, failing, |l.purchases|);
  }

  lemma ExpireAllLength(l: Tables, ids: seq<nat>)
    ensures |ExpireAll(l, ids).purchases| == |l.purchases|
  {}

  /** Run without interruption, the clean-up keeps everything a sale keeps. */
  lemma {:induction false} CleanupKeepsExactness(c: SecureQr.Codec, l: Tables, ids: seq<nat>)
    requires TicketCounts.Good(l)
    requires forall k :: 0 <= k < |ids| ==>
      ids[k] < |l.purchases| && l.purchases[ids[k]].paymentStatus == PurchaseStatus.PENDING
    requires forall j, k :: 0 <= j < k < |ids| ==> ids[j] != ids[k]
    ensures TicketCounts.Good(ExpireAll(l, ids))
  {
    if ids != [] {
      var n := |ids| - 1;
      CleanupKeepsExactness(c, l, ids[..n]);
      ExpireAllPurchases(l, ids[..n], ids[n]);
      var before := ExpireAll(l, ids[..n]);
      assert ids[n] !in ids[..n];
      assert !ExpiredInTurn(l, ids[..n], ids[n]);
      LiveAtLeast(before, ids[n]);
      TicketCounts.GoodStep(c, before, Expire(ids[n]));
    }
  }

  // ------------------------------------------------------------------ the services

  lemma IssuedOneMore(c: SecureQr.Codec, l: Tables, p: nat, k: nat, now: int)
    requires p < |l.purchases| && l.purchases[p].ticketTypeId < |l.types|
    ensures Issued(c, l, p, k + 1, now) == Issued(c, l, p, k, now) + [Ticket(
      l.purchases[p].ticketTypeId, p, CodeOf(c, l, p, |l.tickets| + k, now), TicketStatus.ACTIVE)]
  {}

  class TicketsDatabase {
    var types: seq<TicketType>
    var purchases: seq<Purchase>
    var tickets: seq<Ticket>

    function Rows(): Tables
      reads this
    {
      Tables(types, purchases, tickets)
    }

    constructor (types: seq<TicketType>)
      ensures Rows() == Tables(types, [], [])
    {
      this.types, purchases, tickets := types, [], [];
    }

    method CreatePendingPurchase(typeId: nat, quantity: int, now: int) returns (r: Result<nat, Error>)
      modifies this
      ensures var spec := Ledger.CreatePendingPurchase(old(Rows()), typeId, quantity, now);
        Rows() == Committed(spec, old(Rows())) && (if spec.Ok? then r == Ok(|old(purchases)|) else r == Err(spec.error))
    {
      if typeId >= |types| {
        return Err(NotFound);
      }
      var ticketType := types[typeId];
      var totalSold := ticketType.soldQuantity + quantity;
      if totalSold > ticketType.totalQuantity {
        return Err(OutOfStock);
      }
      r := Ok(|purchases|);
      purchases := purchases + [Purchase(typeId, quantity, PurchaseStatus.PENDING, now)];
      types := types[typeId := ticketType.(soldQuantity := totalSold)];
    }

    method CompletePurchase(c: SecureQr.Codec, purchaseId: nat, now: int) returns (r: Result<(), Error>)
      modifies this
      ensures var spec := Ledger.CompletePurchase(c, old(Rows()), purchaseId, now);
        Rows() == Committed(spec, old(Rows())) && (if spec.Ok? then r == Ok(()) else r == Err(spec.error))
    {
      if purchaseId >= |purchases| {
        return Err(NotFound);
      }
      var purchase := purchases[purchaseId];
      if purchase.paymentStatus == PurchaseStatus.COMPLETED {
        return Ok(());
      }
      if purchase.quantity > 0 && purchase.ticketTypeId >= |types| {
        return Err(MissingRelation);
      }
      purchases := purchases[purchaseId := purchase.(paymentStatus := PurchaseStatus.COMPLETED)];
      ghost var before := old(Rows());
      var i := 0;
      while i < purchase.quantity
        invariant 0 <= i && (i <= purchase.quantity || i == 0)
        invariant types == old(types)
        invariant purchases == old(purchases)[purchaseId := purchase.(paymentStatus := PurchaseStatus.COMPLETED)]
        invariant i == 0 ==> tickets == old(tickets)
        invariant 0 < i ==> tickets == old(tickets) + Issued(c, before, purchaseId, i, now)
      {
        IssueTicket(c, purchaseId, purchase.ticketTypeId, now);
        IssuedOneMore(c, before, purchaseId, i, now);
        i := i + 1;
      }
      return Ok(());
    }

    /** One ticket, saved once without its code and again with it. */
    method IssueTicket(c: SecureQr.Codec, purchaseId: nat, typeId: nat, now: int)
      requires typeId < |types|
      modifies this`tickets
      ensures tickets == old(tickets) + [Ticket(typeId, purchaseId, SecureQr.Generate(c, SecureQr.Payload(
        |old(tickets)|, purchaseId, typeId, types[typeId].eventId, now)), TicketStatus.ACTIVE)]
    {
      var ticketId := |tickets|;
      tickets := tickets + [Ticket(typeId, purchaseId, "", TicketStatus.ACTIVE)];
      var qrCode := SecureQr.Generate(c, SecureQr.Payload(ticketId, purchaseId, typeId, types[typeId].eventId, now));
      tickets := tickets[ticketId := tickets[ticketId].(qrCode := qrCode)];
    }

    /** A purchase made and completed at once: refused as the reservation is, and otherwise done. */
    method GenerateTickets(c: SecureQr.Codec, typeId: nat, quantity: int, now: int) returns (r: Result<(), Error>)
      modifies this
      ensures Rows() == Run(c, old(Rows()), [Reserve(typeId, quantity, now), Complete(|old(purchases)|, now)])
      ensures match Ledger.CreatePendingPurchase(old(Rows()), typeId, quantity, now)
        case Ok(_) => r == Ok(())
        case Err(e) => r == Err(e)
    {
      ghost var steps := [Reserve(typeId, quantity, now), Complete(|purchases|, now)];
      ghost var reserved := Apply(c, Rows(), steps[0]);
      assert Run(c, reserved, steps[1..]) == Apply(c, reserved, steps[1]) by { assert steps[1..][1..] == []; }
      var purchase := CreatePendingPurchase(typeId, quantity, now);
      if purchase.Err? {
        return Err(purchase.error);
      }
      r := CompletePurchase(c, purchase.value, now);
    }

    /** Gives stock back; the table's check may refuse to save the counter. */
    method ReleaseInventory(purchase: Purchase) returns (saved: bool)
      modifies this`types
      ensures match Released(old(types), purchase)
        case Ok(released) => saved && types == released
        case Err(_) => !saved && types == old(types)
    {
      if purchase.ticketTypeId < |types| {
        var ticketType := types[purchase.ticketTypeId];
        ticketType := ticketType.(soldQuantity := Max(0, ticketType.soldQuantity - purchase.quantity));
        if !WithinCapacity(ticketType) {
          return false;
        }
        types := types[purchase.ticketTypeId := ticketType];
      }
      return true;
    }

    /** One transaction: the purchase, its tickets, its stock; rolled back when the last fails. */
    method Withdraw(purchaseId: nat, status: PurchaseStatus, mark: TicketStatus) returns (r: Result<(), Error>)
      requires purchaseId < |purchases|
      modifies this
      ensures var spec := Ledger.Withdraw(old(Rows()), purchaseId, status, mark);
        Rows() == Committed(spec, old(Rows())) && (if spec.Ok? then r == Ok(()) else r == Err(spec.error))
    {
      var rollback := (purchases, tickets);
      purchases := purchases[purchaseId := purchases[purchaseId].(paymentStatus := status)];
      tickets := Mark(tickets, purchaseId, mark);
      var saved := ReleaseInventory(purchases[purchaseId]);
      if !saved {
        purchases, tickets := rollback.0, rollback.1;
        return Err(CheckViolated);
      }
      return Ok(());
    }

    /** Decided on the status read before, completed in a transaction that reads again. */
    method HandleOrderProcessed(c: SecureQr.Codec, seen: PurchaseStatus, purchaseId: nat, now: int)
      returns (r: Result<(), Error>)
      modifies this
      ensures var spec := Webhook.HandleOrderProcessed(c, old(Rows()), seen, purchaseId, now);
        Rows() == Committed(spec, old(Rows())) && (if spec.Ok? then r == Ok(()) else r == Err(spec.error))
    {
      if seen != PurchaseStatus.PENDING {
        return Ok(());
      }
      r := CompletePurchase(c, purchaseId, now);
    }

    /** An action with nothing committed between its read and its transaction. */
    method ProcessOrderAction(c: SecureQr.Codec, action: string, purchaseId: nat, now: int)
      returns (r: Result<(), Error>)
      modifies this
      ensures match Webhook.StatusOf(old(Rows()), purchaseId)
        case None => r == Err(NotFound) && Rows() == old(Rows())
        case Some(seen) =>
          var spec := Webhook.ProcessOrderAction(c, old(Rows()), seen, action, purchaseId, now);
          Rows() == Committed(spec, old(Rows())) && (if spec.Ok? then r == Ok(()) else r == Err(spec.error))
    {
      if purchaseId >= |purchases| {
        return Err(NotFound);
      }
      var seen := purchases[purchaseId].paymentStatus;
      if action == "order.processed" {
        r := HandleOrderProcessed(c, seen, purchaseId, now);
      } else if action == "order.refunded" {
        r := Withdraw(purchaseId, PurchaseStatus.REFUNDED, TicketStatus.REFUNDED);
      } else if action == "order.expired" || action == "order.failed" || action == "order.cancelled" {
        r := Withdraw(purchaseId, PurchaseStatus.FAILED, TicketStatus.CANCELLED);
      } else {
        r := Ok(());
      }
    }

    /** The cron's transaction for one row of its list. */
    method ExpireRow(id: nat)
      requires id < |purchases|
      modifies this
      ensures Rows() == Committed(ExpireReservation(old(Rows()), id), old(Rows()))
    {
      var rollback := purchases;
      purchases := purchases[id := purchases[id].(paymentStatus := PurchaseStatus.FAILED)];
      var saved := ReleaseInventory(purchases[id]);
      if !saved {
        purchases := rollback;
      }
    }

    /** The whole list, one transaction a row; the failing ones are logged and skipped. */
    method CleanupExpiredPendingPurchases(now: int, failing: set<nat>)
      modifies this
      ensures Rows() == CleanedUp(old(Rows()), now, failing)
    {
      var cutoff := now - RESERVATION_MS;
      var pendingPurchases := ExpiredPending(purchases, cutoff, |purchases|);
      ghost var before := Rows();
      var k := 0;
      while k < |pendingPurchases|
        invariant 0 <= k <= |pendingPurchases|
        invariant Rows() == ExpireAll(before, Except(pendingPurchases[..k], failing))
      {
        NextRow(before, pendingPurchases, k, failing);
        if pendingPurchases[k] !in failing {
          ExpireRow(pendingPurchases[k]);
        }
        k := k + 1;
      }
      assert pendingPurchases[..k] == pendingPurchases;
    }

    method ValidateAndUse(c: SecureQr.Codec, code: string, now: int) returns (r: Result<nat, Error>)
      modifies this
      ensures match Ledger.ValidateAndUse(c, old(Rows()), code, now)
        case Ok((i, l)) => r == Ok(i) && Rows() == l
        case Err(e) => r == Err(e) && Rows() == old(Rows())
    {
      var found := FindTicket(c, Rows(), code, now);
      if found.Err? {
        return Err(found.error);
      }
      var id := found.value;
      if tickets[id].status == TicketStatus.USED {
        return Err(AlreadyUsed);
      }
      if tickets[id].status != TicketStatus.ACTIVE {
        return Err(NotActive);
      }
      tickets := tickets[id := tickets[id].(status := TicketStatus.USED)];
      return Ok(id);
    }

    method RegenerateQRCode(c: SecureQr.Codec, ticketId: nat, now: int) returns (r: Result<(), Error>)
      modifies this
      ensures var spec := Ledger.RegenerateQRCode(c, old(Rows()), ticketId, now);
        Rows() == Committed(spec, old(Rows())) && (if spec.Ok? then r == Ok(()) else r == Err(spec.error))
    {
      if ticketId >= |tickets| {
        return Err(NotFound);
      }
      var ticket := tickets[ticketId];
      if ticket.ticketTypeId >= |types| {
        return Err(MissingRelation);
      }
      var newQRCode := SecureQr.Generate(c, SecureQr.Payload(
        ticketId, ticket.purchaseId, ticket.ticketTypeId, types[ticket.ticketTypeId].eventId, now));
      tickets := tickets[ticketId := ticket.(qrCode := newQRCode)];
      return Ok(());
    }
  }

  // -------------------------------------------------------------------- idempotency

  datatype Record = Record(expiresAt: int, response: Option<()>)

  /** The table of processed keys, with a unique index on the key. */
  class IdempotencyTable {
    var records: map<string, Record>

    constructor ()
      ensures records == map[]
    {
      records := map[];
    }

    method Insert(key: string, expiresAt: int) returns (inserted: bool)
      modifies this
      ensures inserted <==> key !in old(records)
      ensures records == if inserted then old(records)[key := Record(expiresAt, None)] else old(records)
    {
      inserted := key !in records;
      if inserted {
        records := records[key := Record(expiresAt, None)];
      }
    }

    method Update(key: string)
      modifies this
      ensures records.Keys == old(records).Keys
      ensures records == if key in old(records) then old(records)[key := old(records)[key].(response := Some(()))]
                         else old(records)
    {
      if key in records {
        records := records[key := records[key].(response := Some(()))];
      }
    }

    method Delete(key: string)
      modifies this
      ensures records == old(records) - {key}
    {
      records := records - {key};
    }
  }

  /** One delivery through the table, insert first; storing the response and deleting the key
      are calls to the database that may fail. */
  method HandleTicketWebhook(
    c: SecureQr.Codec, db: TicketsDatabase, table: IdempotencyTable, d: Webhook.Delivery,
    storable: bool, deletable: bool
  ) returns (answer: Idempotency.Answer<Error>)
    modifies db, table
    ensures (db.Rows(), table.records.Keys, answer)
         == Idempotency.TryProcessWith(
              Webhook.TicketProcessor(c), old(db.Rows()), old(table.records.Keys), d, storable, deletable)
  {
    var key := Webhook.Key(d);
    var inserted := table.Insert(key, d.now + DEFAULT_TTL_MS);
    if !inserted {
      return Idempotency.AlreadyProcessed;
    }
    var result := db.ProcessOrderAction(c, Webhook.Action(d), d.purchaseId, d.now);
    if result.Ok? && storable {
      table.Update(key);
      assert table.records.Keys == old(table.records.Keys) + {key};
      return Idempotency.Processed;
    }
    if deletable {
      table.Delete(key);
      assert table.records.Keys == old(table.records.Keys);
    } else {
      assert table.records.Keys == old(table.records.Keys) + {key};
    }
    return if result.Ok? then Idempotency.ResponseLost else Idempotency.ProcessorFailed(result.error);
  }

  /** A list of deliveries, from an empty table: what RepeatedDeliveriesDoNotMatter speaks about. */
  method HandleAll(c: SecureQr.Codec, db: TicketsDatabase, ds: seq<Webhook.Delivery>)
    returns (answers: seq<Idempotency.Answer<Error>>)
    modifies db
    ensures db.Rows() == Idempotency.DeliverAll(Webhook.TicketProcessor(c), old(db.Rows()), ds).state
    ensures answers == Idempotency.DeliverAll(Webhook.TicketProcessor(c), old(db.Rows()), ds).answers
  {
    var table := new IdempotencyTable();
    answers := [];
    var k := 0;
    ghost var start := db.Rows();
    while k < |ds|
      invariant 0 <= k <= |ds|
      invariant Idempotency.Outcome(db.Rows(), table.records.Keys, answers)
             == Idempotency.DeliverAll(Webhook.TicketProcessor(c), start, ds[..k])
      modifies db, table
    {
      var answer := HandleTicketWebhook(c, db, table, ds[k], true, true);
      answers := answers + [answer];
      k := k + 1;
      assert ds[..k][..k - 1] == ds[..k - 1];
    }
    assert ds[..k] == ds;
  }
}
