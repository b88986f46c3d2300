// Tickets: how many of a purchase still stand, and how many a ticket type can have admitted.
module TicketCounts {
  import opened Prelude
  import opened Ledger
  import opened Conservation
  import SecureQr

  /** Neither cancelled nor refunded. */
  predicate Stands(t: Ticket) {
    t.status != TicketStatus.CANCELLED && t.status != TicketStatus.REFUNDED
  }

  function StandingOf(purchaseId: nat): Ticket -> int {
    (t: Ticket) => if t.purchaseId == purchaseId && Stands(t) then 1 else 0
  }

  function Standing(ts: seq<Ticket>, purchaseId: nat): int {
    Total(ts, StandingOf(purchaseId))
  }

  /** The tickets a purchase is owed: all of them once it is COMPLETED, none otherwise. */
  function Owed(p: Purchase): int {
    if p.paymentStatus == PurchaseStatus.COMPLETED then Max(0, p.quantity) else 0
  }

  ghost predicate TicketsExact(l: Tables) {
    forall p :: 0 <= p < |l.purchases| ==> Standing(l.tickets, p) == Owed(l.purchases[p])
  }

  /** The cron's list holds no purchase completed since it was read, and only standing tickets are
      activated by hand. */
  predicate Fresh(l: Tables, s: Step) {
    match s
    case Expire(p) => p < |l.purchases| && Owed(l.purchases[p]) > 0 ==> CheckRefuses(l, p)
    case Activate(i) => i < |l.tickets| ==> Stands(l.tickets[i])
    case _ => true
  }

  // ------------------------------------------------------------ tickets of a purchase

  lemma StandingIssued(c: SecureQr.Codec, l: Tables, p: nat, k: nat, now: int, q: nat)
    requires p < |l.purchases| && l.purchases[p].ticketTypeId < |l.types|
    ensures Standing(l.tickets + Issued(c, l, p, k, now), q) == Standing(l.tickets, q) + if p == q then k else 0
  {
    var ts := Issued(c, l, p, k, now);
    TotalAppend(l.tickets, ts, StandingOf(q));
    TotalConstant(ts, StandingOf(q), if p == q then 1 else 0);
  }

  lemma StandingMarked(ts: seq<Ticket>, p: nat, status: TicketStatus, q: nat)
    requires status == TicketStatus.CANCELLED || status == TicketStatus.REFUNDED
    ensures Standing(Mark(ts, p, status), q) == if p == q then 0 else Standing(ts, q)
  {
    var marked := Mark(ts, p, status);
    if p == q {
      TotalConstant(marked, StandingOf(q), 0);
    } else {
      TotalSame(ts, marked, StandingOf(q), StandingOf(q));
    }
  }

  lemma StandingOfNewPurchase(l: Tables)
    requires WellFormed(l)
    ensures Standing(l.tickets, |l.purchases|) == 0
  {
    TotalConstant(l.tickets, StandingOf(|l.purchases|), 0);
  }

  /** Scanning and regenerating leave every ticket standing or fallen as it was. */
  lemma StandingAfterTicketStep(c: SecureQr.Codec, l: Tables, s: Step, q: nat)
    requires s.Scan? || s.Regenerate?
    ensures Standing(Apply(c, l, s).tickets, q) == Standing(l.tickets, q)
  {
    TotalSame(l.tickets, Apply(c, l, s).tickets, StandingOf(q), StandingOf(q));
  }

  /** Activating a ticket by hand makes it stand. */
  lemma StandingActivated(l: Tables, i: nat, q: nat)
    requires i < |l.tickets|
    ensures Standing(ActivateTicket(l, i).value.tickets, q)
         == Standing(l.tickets, q) + if l.tickets[i].purchaseId == q && !Stands(l.tickets[i]) then 1 else 0
  {
    TotalUpdate(l.tickets, i, l.tickets[i].(status := TicketStatus.ACTIVE), StandingOf(q));
  }

  /** The tickets a purchase has after a fresh step are those it is owed. */
  lemma StandingAfterStep(c: SecureQr.Codec, l: Tables, s: Step, q: nat)
    requires WellFormed(l) && TicketsExact(l) && Transaction(c, l, s).Ok? && Fresh(l, s)
    requires q < |Apply(c, l, s).purchases|
    ensures Standing(Apply(c, l, s).tickets, q) == Owed(Apply(c, l, s).purchases[q])
  {
    match s
    case Reserve(_, _, _) => if q == |l.purchases| { StandingOfNewPurchase(l); }
    case Complete(p, now) =>
      if l.purchases[p].paymentStatus != PurchaseStatus.COMPLETED && l.purchases[p].quantity > 0 {
        StandingIssued(c, l, p, l.purchases[p].quantity, now, q);
      }
    case Refund(p) => StandingMarked(l.tickets, p, TicketStatus.REFUNDED, q);
    case Fail(p) => StandingMarked(l.tickets, p, TicketStatus.CANCELLED, q);
    case Expire(p) =>
    case Scan(_, _) => StandingAfterTicketStep(c, l, s, q);
    case Regenerate(_, _) => StandingAfterTicketStep(c, l, s, q);
    case Activate(i) => StandingActivated(l, i, q);
    case SetCapacity(_, _) =>
  }

  /** A step keeps every purchase's tickets right if and only if it is fresh; completing a failed
      purchase again is among the steps that do. */
  lemma TicketsExactIffFresh(c: SecureQr.Codec, l: Tables, s: Step)
    requires WellFormed(l) && TicketsExact(l)
    ensures TicketsExact(Apply(c, l, s)) <==> Fresh(l, s)
  {
    var l' := Apply(c, l, s);
    if Fresh(l, s) {
      if Transaction(c, l, s).Ok? {
        forall q | 0 <= q < |l'.purchases| ensures Standing(l'.tickets, q) == Owed(l'.purchases[q]) {
          StandingAfterStep(c, l, s, q);
        }
      }
    } else if s.Expire? {
      assert Standing(l'.tickets, s.purchaseId) != Owed(l'.purchases[s.purchaseId]);
    } else {
      var q := l.tickets[s.ticketId].purchaseId;
      StandingActivated(l, s.ticketId, q);
      assert Standing(l'.tickets, q) != Owed(l'.purchases[q]);
    }
  }

  predicate FreshRun(c: SecureQr.Codec, l: Tables, steps: seq<Step>)
    decreases |steps|
  {
    steps == [] || (Fresh(l, steps[0]) && FreshRun(c, Apply(c, l, steps[0]), steps[1..]))
  }

  ghost predicate ExactThroughout(c: SecureQr.Codec, l: Tables, steps: seq<Step>)
    decreases |steps|
  {
    TicketsExact(l) && (steps == [] || ExactThroughout(c, Apply(c, l, steps[0]), steps[1..]))
  }

  /** Over any run of any steps, purchases and tickets agree throughout if and only if every step
      is fresh. */
  lemma {:induction false} RunExactIffFresh(c: SecureQr.Codec, l: Tables, steps: seq<Step>)
    requires WellFormed(l) && TicketsExact(l)
    ensures ExactThroughout(c, l, steps) <==> FreshRun(c, l, steps)
    decreases |steps|
  {
    if steps != [] {
      WellFormedStep(c, l, steps[0]);
      TicketsExactIffFresh(c, l, steps[0]);
      var next, rest := Apply(c, l, steps[0]), steps[1..];
      if Fresh(l, steps[0]) {
        RunExactIffFresh(c, next, rest);
      } else {
        assert !ExactThroughout(c, next, rest);
      }
    }
  }

  // ------------------------------------------------------------- tickets of a type

  /** A ticket that admits or has admitted. */
  predicate Usable(t: Ticket) {
    t.status == TicketStatus.ACTIVE || t.status == TicketStatus.USED
  }

  /** Whatever stands is usable: the other statuses of a ticket are never written. */
  predicate AllUsable(l: Tables) {
    forall i :: 0 <= i < |l.tickets| && Stands(l.tickets[i]) ==> Usable(l.tickets[i])
  }

  lemma AllUsableStep(c: SecureQr.Codec, l: Tables, s: Step)
    requires AllUsable(l)
    ensures AllUsable(Apply(c, l, s))
  {}

  function AdmissibleOfType(typeId: nat): Ticket -> int {
    (t: Ticket) => if t.ticketTypeId == typeId && Usable(t) then 1 else 0
  }

  /** ACTIVE and USED tickets of a type. */
  function Admissible(l: Tables, typeId: nat): int {
    Total(l.tickets, AdmissibleOfType(typeId))
  }

  /** Standing tickets of the first n purchases that are of the type. */
  function StandingOfType(ts: seq<Ticket>, ps: seq<Purchase>, typeId: nat, n: nat): int
    requires n <= |ps|
  {
    if n == 0 then 0
    else StandingOfType(ts, ps, typeId, n - 1) + if ps[n - 1].ticketTypeId == typeId then Standing(ts, n - 1) else 0
  }

  /** One ticket more adds its own standing to its own purchase, once. */
  lemma {:induction false} StandingOfTypeAppend(ts: seq<Ticket>, t: Ticket, ps: seq<Purchase>, typeId: nat, n: nat)
    requires n <= |ps| && t.purchaseId < |ps|
    ensures StandingOfType(ts + [t], ps, typeId, n) == StandingOfType(ts, ps, typeId, n)
      + if t.purchaseId < n && ps[t.purchaseId].ticketTypeId == typeId && Stands(t) then 1 else 0
  {
    if n > 0 {
      StandingOfTypeAppend(ts, t, ps, typeId, n - 1);
      assert (ts + [t])[..|ts|] == ts;
    }
  }

  lemma {:induction false} StandingOfTypeEmpty(ps: seq<Purchase>, typeId: nat, n: nat)
    requires n <= |ps|
    ensures StandingOfType([], ps, typeId, n) == 0
  {
    if n > 0 { StandingOfTypeEmpty(ps, typeId, n - 1); }
  }

  /** Counting tickets one by one or purchase by purchase. */
  lemma {:induction false} AdmissibleByPurchase(ts: seq<Ticket>, ps: seq<Purchase>, typeId: nat)
    requires forall i :: 0 <= i < |ts| ==>
      ts[i].purchaseId < |ps| && ts[i].ticketTypeId == ps[ts[i].purchaseId].ticketTypeId
    ensures Total(ts, AdmissibleOfType(typeId)) <= StandingOfType(ts, ps, typeId, |ps|)
    ensures (forall i :: 0 <= i < |ts| && Stands(ts[i]) ==> Usable(ts[i])) ==>
      Total(ts, AdmissibleOfType(typeId)) == StandingOfType(ts, ps, typeId, |ps|)
  {
    if ts == [] {
      StandingOfTypeEmpty(ps, typeId, |ps|);
    } else {
      var n := |ts| - 1;
      AdmissibleByPurchase(ts[..n], ps, typeId);
      StandingOfTypeAppend(ts[..n], ts[n], ps, typeId, |ps|);
      assert ts[..n] + [ts[n]] == ts;
    }
  }

  // ------------------------------------------------------------------------- claims

  function PendingOf(typeId: nat): Purchase -> int {
    (p: Purchase) =>
      if p.ticketTypeId == typeId && p.paymentStatus == PurchaseStatus.PENDING then Max(0, p.quantity) else 0
  }

  /** The tickets that completing every PENDING purchase of a type would issue. */
  function Pending(l: Tables, typeId: nat): int {
    Total(l.purchases, PendingOf(typeId))
  }

  /** The seats of a type that somebody can claim: by a ticket, or by paying what is PENDING. */
  function Claims(l: Tables, typeId: nat): int {
    Admissible(l, typeId) + Pending(l, typeId)
  }

  function LiveTicketsOf(typeId: nat): Purchase -> int {
    (p: Purchase) => if p.ticketTypeId == typeId && IsLive(p) then Max(0, p.quantity) else 0
  }

  lemma {:induction false} StandingAndPending(l: Tables, typeId: nat, n: nat)
    requires TicketsExact(l) && n <= |l.purchases|
    ensures StandingOfType(l.tickets, l.purchases, typeId, n) + Total(l.purchases[..n], PendingOf(typeId))
         == Total(l.purchases[..n], LiveTicketsOf(typeId))
  {
    if n > 0 {
      StandingAndPending(l, typeId, n - 1);
      assert l.purchases[..n][..n - 1] == l.purchases[..n - 1];
    }
  }

  /** With exact tickets, what can be claimed is what the live purchases hold, and at least the
      quantity they hold. */
  lemma ClaimsAreLive(l: Tables, typeId: nat)
    requires WellFormed(l) && TicketsExact(l) && AllUsable(l)
    ensures Claims(l, typeId) == Total(l.purchases, LiveTicketsOf(typeId)) >= Live(l, typeId)
    ensures NonNegative(l) ==> Claims(l, typeId) == Live(l, typeId)
  {
    AdmissibleByPurchase(l.tickets, l.purchases, typeId);
    StandingAndPending(l, typeId, |l.purchases|);
    assert l.purchases[..|l.purchases|] == l.purchases;
    TotalPointwise(l.purchases, l.purchases, LiveOf(typeId), LiveTicketsOf(typeId));
    if NonNegative(l) { TotalSame(l.purchases, l.purchases, LiveOf(typeId), LiveTicketsOf(typeId)); }
  }

  /** The tickets an issue makes admissible. */
  lemma AdmissibleIssued(c: SecureQr.Codec, l: Tables, p: nat, k: nat, now: int)
    requires p < |l.purchases| && l.purchases[p].ticketTypeId < |l.types|
    ensures Total(l.tickets + Issued(c, l, p, k, now), AdmissibleOfType(l.purchases[p].ticketTypeId))
         == Admissible(l, l.purchases[p].ticketTypeId) + k
  {
    var ts, f := Issued(c, l, p, k, now), AdmissibleOfType(l.purchases[p].ticketTypeId);
    TotalAppend(l.tickets, ts, f);
    TotalConstant(ts, f, 1);
  }

  // -------------------------------------------------------------- what a sale keeps

  /** Everything a sale keeps as long as its steps are careful. */
  ghost predicate Good(l: Tables) {
    WellFormed(l) && NonNegative(l) && Bounded(l) && Conserved(l) && TicketsExact(l) && AllUsable(l)
  }

  /** What a caller can test before a transaction. */
  predicate Careful(l: Tables, s: Step) {
    Guard(l, s) && Fresh(l, s) && Sane(l, s)
  }

  predicate CarefulRun(c: SecureQr.Codec, l: Tables, steps: seq<Step>)
    decreases |steps|
  {
    steps == [] || (Careful(l, steps[0]) && CarefulRun(c, Apply(c, l, steps[0]), steps[1..]))
  }

  ghost predicate NotOversold(l: Tables) {
    forall t {:trigger l.types[t]} :: 0 <= t < |l.types| ==> Admissible(l, t) <= l.types[t].totalQuantity
  }

  /** A sale about to open: capacities, nothing sold. */
  predicate Opening(l: Tables) {
    && l.purchases == [] && l.tickets == []
    && forall t :: 0 <= t < |l.types| ==> l.types[t].soldQuantity == 0 && l.types[t].totalQuantity >= 0
  }

  lemma OpeningIsGood(l: Tables)
    requires Opening(l)
    ensures Good(l)
  {}

  lemma GoodStep(c: SecureQr.Codec, l: Tables, s: Step)
    requires Good(l) && Careful(l, s)
    ensures Good(Apply(c, l, s))
  {
    WellFormedStep(c, l, s);
    NonNegativeStep(c, l, s);
    BoundedStep(c, l, s);
    ConservedIffGuarded(c, l, s);
    TicketsExactIffFresh(c, l, s);
    AllUsableStep(c, l, s);
  }

  lemma {:induction false} RunGood(c: SecureQr.Codec, l: Tables, steps: seq<Step>)
    requires Good(l) && CarefulRun(c, l, steps)
    ensures Good(Run(c, l, steps))
    decreases |steps|
  {
    if steps != [] {
      GoodStep(c, l, steps[0]);
      RunGood(c, Apply(c, l, steps[0]), steps[1..]);
    }
  }

  lemma PendingNonNegative(l: Tables, typeId: nat)
    ensures Pending(l, typeId) >= 0
  {
    TotalNonNegative(l.purchases, PendingOf(typeId));
  }

  /** Exact stock and exact tickets leave no room to oversell. */
  lemma NoOverselling(l: Tables, typeId: nat)
    requires Good(l) && typeId < |l.types|
    ensures Admissible(l, typeId) <= l.types[typeId].soldQuantity <= l.types[typeId].totalQuantity
  {
    ClaimsAreLive(l, typeId);
    PendingNonNegative(l, typeId);
  }

  /** The sale: on every careful run from the opening the counters equal what is held, every
      purchase has its tickets, and no type ever has more admissible tickets than its capacity. */
  lemma SaleIsSafe(c: SecureQr.Codec, l: Tables, steps: seq<Step>)
    requires Opening(l) && CarefulRun(c, l, steps)
    ensures var e := Run(c, l, steps); Good(e) && NotOversold(e)
  {
    OpeningIsGood(l);
    RunGood(c, l, steps);
    var e := Run(c, l, steps);
    forall t | 0 <= t < |e.types| ensures Admissible(e, t) <= e.types[t].totalQuantity {
      NoOverselling(e, t);
    }
  }
}
