// Payment notifications for tickets: what each action does, and each delivery as a call of the
// idempotency service.
module Webhook {
  import opened Prelude
  import opened Ledger
  import opened Idempotency
  import opened Conservation
  import opened TicketCounts
  import Interleaving
  import opened MixedRuns
  import SecureQr

  datatype Delivery = Delivery(requestId: string, dataId: string, action: string, purchaseId: nat, now: int)

  function Key(d: Delivery): string {
    "tickets-webhook:" + (if d.requestId != "" then d.requestId else d.dataId)
  }

  /** An absent action counts as a processed order. */
  function Action(d: Delivery): string {
    if d.action == "" then "order.processed" else d.action
  }

  /** The handler tests the status it read before any transaction; completion has one of its own. */
  function HandleOrderProcessed(c: SecureQr.Codec, l: Tables, seen: PurchaseStatus, p: nat, now: int)
    : Result<Tables, Error>
  {
    if seen != PurchaseStatus.PENDING then Ok(l) else CompletePurchase(c, l, p, now)
  }

  /** The transaction of an action on a purchase that was read with some status. */
  function ProcessOrderAction(
    c: SecureQr.Codec, l: Tables, seen: PurchaseStatus, action: string, p: nat, now: int
  ): Result<Tables, Error> {
    if action == "order.processed" then HandleOrderProcessed(c, l, seen, p, now)
    else if action == "order.refunded" then HandleOrderRefunded(l, p)
    else if action == "order.expired" || action == "order.failed" then HandleOrderFailed(l, p)
    else if action == "order.cancelled" then HandleOrderFailed(l, p)
    else Ok(l)
  }

  /** A delivery whose handler reads the purchase (None when there is none) and later commits. */
  function HandleSeen(c: SecureQr.Codec, l: Tables, seen: Option<PurchaseStatus>, d: Delivery): Result<Tables, Error> {
    match seen
    case None => Err(NotFound)
    case Some(status) => ProcessOrderAction(c, l, status, Action(d), d.purchaseId, d.now)
  }

  /** What a handler that reads now sees. */
  function StatusOf(l: Tables, p: nat): Option<PurchaseStatus> {
    if p < |l.purchases| then Some(l.purchases[p].paymentStatus) else None
  }

  /** A delivery with nothing committed between its read and its transaction. */
  function Handle(c: SecureQr.Codec, l: Tables, d: Delivery): Result<Tables, Error> {
    HandleSeen(c, l, StatusOf(l, d.purchaseId), d)
  }

  function TicketProcessor(c: SecureQr.Codec): Processor<Tables, Delivery, Error> {
    Processor((d: Delivery) => Key(d), (l: Tables, d: Delivery) => Handle(c, l, d))
  }

  /** A delivery together with what its handler read, at whatever moment. */
  datatype Reading = Reading(delivery: Delivery, seen: Option<PurchaseStatus>)

  function ReadingProcessor(c: SecureQr.Codec): Processor<Tables, Reading, Error> {
    Processor((r: Reading) => Key(r.delivery), (l: Tables, r: Reading) => HandleSeen(c, l, r.seen, r.delivery))
  }

  /** The ledger after any list of deliveries with repeats is that of the handlers run on the
      list without them. */
  lemma RepeatedDeliveriesDoNotMatter(c: SecureQr.Codec, l: Tables, ds: seq<Delivery>)
    ensures var p := TicketProcessor(c);
      DeliverAll(p, l, ds).state == Replay(p, l, WithoutRepeats(p, ds, DeliverAll(p, l, ds).answers, |ds|))
  {
    RepeatsDoNotMatter(TicketProcessor(c), l, ds);
  }

  // ------------------------------------------------------------- whose repeat is whose

  /** What tells deliveries apart: the id of the request, or that of the data when it has none. */
  predicate SameRequest(d: Delivery, e: Delivery) {
    (if d.requestId != "" then d.requestId else d.dataId) == (if e.requestId != "" then e.requestId else e.dataId)
  }

  lemma KeysTellRequestsApart(d: Delivery, e: Delivery)
    ensures Key(d) == Key(e) <==> SameRequest(d, e)
  {
    var prefix := "tickets-webhook:";
    assert Key(d)[|prefix|..] == if d.requestId != "" then d.requestId else d.dataId;
    assert Key(e)[|prefix|..] == if e.requestId != "" then e.requestId else e.dataId;
  }

  /** Deliveries of different requests are all handled: nothing is taken for a repeat. */
  lemma {:induction false} DifferentRequestsAreHandled(c: SecureQr.Codec, l: Tables, ds: seq<Delivery>)
    requires forall i, j :: 0 <= i < j < |ds| ==> !SameRequest(ds[i], ds[j])
    ensures var o := DeliverAll(TicketProcessor(c), l, ds);
      && o.state == Replay(TicketProcessor(c), l, ds)
      && forall k :: 0 <= k < |ds| ==> !o.answers[k].AlreadyProcessed?
  {
    if ds != [] {
      var p, n := TicketProcessor(c), |ds| - 1;
      DifferentRequestsAreHandled(c, l, ds[..n]);
      KeysAreSuccesses(p, l, ds[..n], Key(ds[n]));
      forall j | 0 <= j < n ensures Key(ds[..n][j]) != Key(ds[n]) { KeysTellRequestsApart(ds[j], ds[n]); }
    }
  }

  /** In particular those whose request ids are given and pairwise different. */
  lemma DifferentRequestIdsAreHandled(c: SecureQr.Codec, l: Tables, ds: seq<Delivery>)
    requires forall i, j :: 0 <= i < j < |ds| ==> ds[i].requestId != ds[j].requestId
    requires forall i :: 0 <= i < |ds| ==> ds[i].requestId != ""
    ensures var o := DeliverAll(TicketProcessor(c), l, ds);
      && o.state == Replay(TicketProcessor(c), l, ds)
      && forall k :: 0 <= k < |ds| ==> !o.answers[k].AlreadyProcessed?
  {
    DifferentRequestsAreHandled(c, l, ds);
  }

  /** And a delivery of a request that was processed before is answered so. */
  lemma SameRequestIsRefused(c: SecureQr.Codec, l: Tables, ds: seq<Delivery>, i: nat, j: nat)
    requires i < j < |ds| && DeliverAll(TicketProcessor(c), l, ds).answers[i].Processed?
    requires (ds[i].requestId != "" && ds[i].requestId == ds[j].requestId)
          || (ds[i].requestId == "" && ds[j].requestId == "" && ds[i].dataId == ds[j].dataId)
    ensures DeliverAll(TicketProcessor(c), l, ds).answers[j].AlreadyProcessed?
  {
    KeysTellRequestsApart(ds[i], ds[j]);
    OneSuccessPerKey(TicketProcessor(c), l, ds, i, j);
  }

  // ------------------------------------------------- deliveries against the ledger

  predicate Releases(action: string) {
    action in {"order.refunded", "order.expired", "order.failed", "order.cancelled"}
  }

  /** The ledger step a delivery takes, if it takes one. */
  function StepOf(seen: PurchaseStatus, d: Delivery): Option<Step> {
    var action, p := Action(d), d.purchaseId;
    if action == "order.processed" then
      if seen == PurchaseStatus.PENDING then Some(Complete(p, d.now)) else None
    else if action == "order.refunded" then Some(Refund(p))
    else if Releases(action) then Some(Fail(p))
    else None
  }

  lemma DeliveryIsStep(c: SecureQr.Codec, l: Tables, seen: PurchaseStatus, d: Delivery)
    requires HandleSeen(c, l, Some(seen), d).Ok?
    ensures HandleSeen(c, l, Some(seen), d).value
         == match StepOf(seen, d) case Some(s) => Apply(c, l, s) case None => l
  {}

  /** A delivery keeps the stock exact if and only if: being a release, it meets the guard of a
      release when its transaction commits; being a processed order, the status read was not
      PENDING, or the purchase still holds its stock when the transaction commits. */
  lemma DeliveryConservesIff(c: SecureQr.Codec, l: Tables, seen: PurchaseStatus, d: Delivery)
    requires WellFormed(l) && Conserved(l) && d.purchaseId < |l.purchases|
    requires HandleSeen(c, l, Some(seen), d).Ok?
    ensures var p := l.purchases[d.purchaseId];
      Conserved(HandleSeen(c, l, Some(seen), d).value) <==>
        && (Releases(Action(d)) ==> ReleaseGuard(l, d.purchaseId))
        && (Action(d) == "order.processed" ==> seen != PurchaseStatus.PENDING || IsLive(p) || p.quantity == 0)
  {
    DeliveryIsStep(c, l, seen, d);
    if StepOf(seen, d).Some? { ConservedIffGuarded(c, l, StepOf(seen, d).value); }
  }

  /** With nothing committed in between, a processed order always keeps it. */
  lemma UninterruptedProcessedConserves(c: SecureQr.Codec, l: Tables, d: Delivery)
    requires WellFormed(l) && Conserved(l) && Action(d) == "order.processed" && Handle(c, l, d).Ok?
    ensures Conserved(Handle(c, l, d).value)
  {
    DeliveryConservesIff(c, l, l.purchases[d.purchaseId].paymentStatus, d);
  }

  /** Otherwise not: from every exact ledger, let the cron expire a PENDING purchase between the
      read and the transaction. The expiry is careful and keeps everything; the completion that
      was decided on before it does not keep the stock. */
  lemma ExpiryBetweenReadAndCommit(c: SecureQr.Codec, l: Tables, d: Delivery)
    requires Good(l) && d.purchaseId < |l.purchases| && Action(d) == "order.processed"
    requires StatusOf(l, d.purchaseId) == Some(PurchaseStatus.PENDING) && l.purchases[d.purchaseId].quantity > 0
    ensures var expired := Apply(c, l, Expire(d.purchaseId));
      var r := HandleSeen(c, expired, StatusOf(l, d.purchaseId), d);
      && Careful(l, Expire(d.purchaseId)) && Good(expired)
      && r.Ok? && !Conserved(r.value)
  {
    var p := d.purchaseId;
    ClampNeverBites(l, p);
    LiveAtLeast(l, p);
    GoodStep(c, l, Expire(p));
    DeliveryConservesIff(c, Apply(c, l, Expire(p)), PurchaseStatus.PENDING, d);
  }

  // ------------------------------------------------------- what all deliveries keep

  /** What notifications alone keep, whatever they are. */
  ghost predicate Kept(l: Tables) {
    WellFormed(l) && NonNegative(l) && Bounded(l) && TicketsExact(l)
  }

  lemma DeliveryKeeps(c: SecureQr.Codec, l: Tables, seen: Option<PurchaseStatus>, d: Delivery)
    requires Kept(l) && HandleSeen(c, l, seen, d).Ok?
    ensures Kept(HandleSeen(c, l, seen, d).value)
  {
    DeliveryIsStep(c, l, seen.value, d);
    if StepOf(seen.value, d).Some? {
      var s := StepOf(seen.value, d).value;
      WellFormedStep(c, l, s);
      NonNegativeStep(c, l, s);
      BoundedStep(c, l, s);
      TicketsExactIffFresh(c, l, s);
    }
  }

  /** Whatever arrives, repeated, contradictory or out of order: every counter stays within its
      capacity and below what is held, a COMPLETED purchase has all its tickets and any other
      none. */
  lemma {:induction false} DeliveriesKeep(c: SecureQr.Codec, l: Tables, ds: seq<Delivery>)
    requires Kept(l)
    ensures Kept(DeliverAll(TicketProcessor(c), l, ds).state)
  {
    if ds != [] {
      var n := |ds| - 1;
      DeliveriesKeep(c, l, ds[..n]);
      var before := DeliverAll(TicketProcessor(c), l, ds[..n]).state;
      if Handle(c, before, ds[n]).Ok? { DeliveryKeeps(c, before, StatusOf(before, ds[n].purchaseId), ds[n]); }
    }
  }

  ghost predicate KeepsAll<D(!new)>(p: Processor<Tables, D, Error>) {
    forall l, d :: Kept(l) && p.work(l, d).Ok? ==> Kept(p.work(l, d).value)
  }

  lemma {:induction false} ReplayKeeps<D(!new)>(p: Processor<Tables, D, Error>, l: Tables, ds: seq<D>)
    requires KeepsAll(p) && Kept(l)
    ensures Kept(Replay(p, l, ds))
  {
    if ds != [] { ReplayKeeps(p, l, ds[..|ds| - 1]); }
  }

  lemma InterleavedKeep<D(!new)>(p: Processor<Tables, D, Error>, l: Tables, ds: seq<D>, es: seq<Interleaving.Event>)
    requires KeepsAll(p) && Kept(l)
    ensures Kept(Interleaving.Run(p, Interleaving.Start(l, ds), es).tables)
  {
    Interleaving.RunReplaysLog(p, l, Interleaving.Start(l, ds), es);
    ReplayKeeps(p, l, Interleaving.Run(p, Interleaving.Start(l, ds), es).log);
  }

  /** The same under any interleaving of any number of deliveries: whether each handler reads its
      purchase in the same breath as it commits, or has read it at whatever moment and with
      whatever result. */
  lemma InterleavedDeliveriesKeep(
    c: SecureQr.Codec, l: Tables, ds: seq<Delivery>, rs: seq<Reading>, es: seq<Interleaving.Event>
  )
    requires Kept(l)
    ensures Kept(Interleaving.Run(TicketProcessor(c), Interleaving.Start(l, ds), es).tables)
    ensures Kept(Interleaving.Run(ReadingProcessor(c), Interleaving.Start(l, rs), es).tables)
  {
    forall l, d | Kept(l) && Handle(c, l, d).Ok? ensures Kept(Handle(c, l, d).value) {
      DeliveryKeeps(c, l, StatusOf(l, d.purchaseId), d);
    }
    forall l, r: Reading | Kept(l) && HandleSeen(c, l, r.seen, r.delivery).Ok?
      ensures Kept(HandleSeen(c, l, r.seen, r.delivery).value)
    {
      DeliveryKeeps(c, l, r.seen, r.delivery);
    }
    InterleavedKeep(TicketProcessor(c), l, ds, es);
    InterleavedKeep(ReadingProcessor(c), l, rs, es);
  }

  // -------------------------------------------- deliveries among everything else

  /** Whatever else is committed to the ledger. */
  function Ledgering(c: SecureQr.Codec): (Tables, Step) -> Tables {
    (l: Tables, s: Step) => Apply(c, l, s)
  }

  /** Repeated deliveries do not matter among reservations, expiries, scans and the rest. */
  lemma RepeatedDeliveriesAmongSteps(c: SecureQr.Codec, l: Tables, items: seq<Item<Delivery, Step>>)
    ensures var p := TicketProcessor(c);
      var o := DeliverMixed(p, Ledgering(c), l, items);
      o.state == ReplayMixed(p, Ledgering(c), l, WithoutRepeatsMixed(p, items, o.answers, |items|))
  {
    RepeatsDoNotMatterMixed(TicketProcessor(c), Ledgering(c), l, items);
  }

  /** What others commit is fresh, and reserves no negative quantity, in the tables it finds. */
  predicate FreshMoves(c: SecureQr.Codec, s: Interleaving.State<Tables, Reading>, ms: seq<Move<Step>>)
    decreases |ms|
  {
    ms == [] ||
    ((ms[0].Outside? ==> Fresh(s.tables, ms[0].step) && Sane(s.tables, ms[0].step))
     && FreshMoves(c, MixedRuns.Next(ReadingProcessor(c), Ledgering(c), s, ms[0]), ms[1..]))
  }

  lemma MoveKeeps(c: SecureQr.Codec, s: Interleaving.State<Tables, Reading>, m: Move<Step>)
    requires Kept(s.tables) && (m.Outside? ==> Fresh(s.tables, m.step) && Sane(s.tables, m.step))
    ensures Kept(MixedRuns.Next(ReadingProcessor(c), Ledgering(c), s, m).tables)
  {
    match m
    case Outside(step) =>
      WellFormedStep(c, s.tables, step);
      NonNegativeStep(c, s.tables, step);
      BoundedStep(c, s.tables, step);
      TicketsExactIffFresh(c, s.tables, step);
    case Call(e) =>
      if e.Work? && e.i < |s.callers| {
        var r := s.callers[e.i].delivery;
        if HandleSeen(c, s.tables, r.seen, r.delivery).Ok? { DeliveryKeeps(c, s.tables, r.seen, r.delivery); }
      }
  }

  /** Any interleaving of deliveries with any such steps of others keeps what deliveries keep. */
  lemma {:induction false} InterleavedDeliveriesAmongSteps(
    c: SecureQr.Codec, s: Interleaving.State<Tables, Reading>, ms: seq<Move<Step>>
  )
    requires Kept(s.tables) && FreshMoves(c, s, ms)
    ensures Kept(RunMoves(ReadingProcessor(c), Ledgering(c), s, ms).tables)
    decreases |ms|
  {
    if ms != [] {
      MoveKeeps(c, s, ms[0]);
      InterleavedDeliveriesAmongSteps(c, MixedRuns.Next(ReadingProcessor(c), Ledgering(c), s, ms[0]), ms[1..]);
    }
  }
}
