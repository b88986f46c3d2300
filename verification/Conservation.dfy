// Stock: the sold counter of a ticket type against the purchases that hold its stock.
module Conservation {
  import opened Prelude
  import opened Ledger
  import SecureQr

  /** A purchase that holds stock. */
  predicate IsLive(p: Purchase) {
    p.paymentStatus == PurchaseStatus.PENDING || p.paymentStatus == PurchaseStatus.COMPLETED
  }

  function LiveOf(typeId: nat): Purchase -> int {
    (p: Purchase) => if p.ticketTypeId == typeId && IsLive(p) then p.quantity else 0
  }

  /** The quantity held by the PENDING and COMPLETED purchases of a type. */
  function Live(l: Tables, typeId: nat): int {
    Total(l.purchases, LiveOf(typeId))
  }

  /** Every counter is within its capacity and never above what is really held. */
  ghost predicate Bounded(l: Tables) {
    forall t {:trigger l.types[t]} :: 0 <= t < |l.types| ==>
      0 <= l.types[t].soldQuantity <= l.types[t].totalQuantity && l.types[t].soldQuantity <= Live(l, t)
  }

  /** Every counter is exactly what is held. */
  ghost predicate Conserved(l: Tables) {
    forall t {:trigger l.types[t]} :: 0 <= t < |l.types| ==> l.types[t].soldQuantity == Live(l, t)
  }

  /** No purchase is of a negative quantity. */
  predicate NonNegative(l: Tables) {
    forall p :: 0 <= p < |l.purchases| ==> l.purchases[p].quantity >= 0
  }

  // ------------------------------------------------------------------------- guards

  /** What a caller can test before a transaction: completions and releases hit a purchase that
      holds stock, enough of it being counted as sold; or they move nothing. */
  predicate Guard(l: Tables, s: Step) {
    match s
    case Complete(p, _) => p < |l.purchases| ==> IsLive(l.purchases[p]) || l.purchases[p].quantity == 0
    case Refund(p) => ReleaseGuard(l, p)
    case Fail(p) => ReleaseGuard(l, p)
    case Expire(p) => ReleaseGuard(l, p)
    case _ => true
  }

  /** The table's check refuses to give the stock of a purchase back. */
  predicate CheckRefuses(l: Tables, p: nat)
    requires p < |l.purchases|
  {
    var t := l.purchases[p].ticketTypeId;
    t < |l.types| && Max(0, l.types[t].soldQuantity - l.purchases[p].quantity) > l.types[t].totalQuantity
  }

  predicate ReleaseGuard(l: Tables, p: nat) {
    p < |l.purchases| && l.purchases[p].ticketTypeId < |l.types| && !CheckRefuses(l, p) ==>
      var q, sold := l.purchases[p].quantity, l.types[l.purchases[p].ticketTypeId].soldQuantity;
      if IsLive(l.purchases[p]) then q <= sold
      else 0 <= q && 0 <= sold && (q == 0 || sold == 0)
  }

  /** A reservation of a negative quantity is refused: no such type, or not enough stock. */
  predicate Sane(l: Tables, s: Step) {
    s.Reserve? && s.quantity < 0 ==>
      s.typeId >= |l.types| || l.types[s.typeId].soldQuantity + s.quantity > l.types[s.typeId].totalQuantity
  }

  predicate SaneRun(c: SecureQr.Codec, l: Tables, steps: seq<Step>)
    decreases |steps|
  {
    steps == [] || (Sane(l, steps[0]) && SaneRun(c, Apply(c, l, steps[0]), steps[1..]))
  }

  lemma NonNegativeStep(c: SecureQr.Codec, l: Tables, s: Step)
    requires NonNegative(l) && Sane(l, s)
    ensures NonNegative(Apply(c, l, s))
  {}

  // ----------------------------------------------------------- how stock is held

  lemma LiveAtLeast(l: Tables, p: nat)
    requires NonNegative(l) && p < |l.purchases| && IsLive(l.purchases[p])
    ensures l.purchases[p].quantity <= Live(l, l.purchases[p].ticketTypeId)
  {
    TotalAtLeast(l.purchases, p, LiveOf(l.purchases[p].ticketTypeId));
  }

  /** How a change of status moves what is held. */
  lemma LiveAfterStatus(l: Tables, p: nat, status: PurchaseStatus, t: nat)
    requires p < |l.purchases|
    ensures Live(SetPurchaseStatus(l, p, status), t)
         == Live(l, t) - LiveOf(t)(l.purchases[p]) + LiveOf(t)(l.purchases[p].(paymentStatus := status))
  {
    TotalUpdate(l.purchases, p, l.purchases[p].(paymentStatus := status), LiveOf(t));
  }

  lemma LiveAfterReserve(l: Tables, t: nat, quantity: int, now: int, u: nat)
    ensures Total(l.purchases + [Purchase(t, quantity, PurchaseStatus.PENDING, now)], LiveOf(u))
         == Live(l, u) + (if t == u then quantity else 0)
  {
    var row := Purchase(t, quantity, PurchaseStatus.PENDING, now);
    assert (l.purchases + [row])[..|l.purchases|] == l.purchases;
  }

  /** The purchase a step completes or releases, and the status it ends with. */
  function Target(s: Step): Option<(nat, PurchaseStatus)> {
    match s
    case Complete(p, _) => Some((p, PurchaseStatus.COMPLETED))
    case Refund(p) => Some((p, PurchaseStatus.REFUNDED))
    case Fail(p) => Some((p, PurchaseStatus.FAILED))
    case Expire(p) => Some((p, PurchaseStatus.FAILED))
    case _ => None
  }

  /** What is held after any step that commits, type by type. */
  lemma LiveAfterStep(c: SecureQr.Codec, l: Tables, s: Step, t: nat)
    requires WellFormed(l) && Transaction(c, l, s).Ok?
    ensures var l' := Apply(c, l, s);
      Live(l', t) ==
        if s.Reserve? && s.typeId == t then Live(l, t) + s.quantity
        else if Target(s).Some? then
          var p := l.purchases[Target(s).value.0];
          Live(l, t) - LiveOf(t)(p) + LiveOf(t)(p.(paymentStatus := Target(s).value.1))
        else Live(l, t)
  {
    if s.Reserve? {
      LiveAfterReserve(l, s.typeId, s.quantity, s.now, t);
    } else if Target(s).Some? {
      LiveAfterStatus(l, Target(s).value.0, Target(s).value.1, t);
    }
  }

  // --------------------------------------------------------------- exact conservation

  /** The counter of one type after a step that commits. */
  lemma ConservedAt(c: SecureQr.Codec, l: Tables, s: Step, t: nat)
    requires WellFormed(l) && Conserved(l) && Transaction(c, l, s).Ok? && t < |l.types|
    ensures var l' := Apply(c, l, s);
      l'.types[t].soldQuantity == Live(l', t) <==>
      (Guard(l, s) || Target(s).None? || l.purchases[Target(s).value.0].ticketTypeId != t)
  {
    LiveAfterStep(c, l, s, t);
  }

  /** A step keeps the counters exact if and only if its guard holds. */
  lemma ConservedIffGuarded(c: SecureQr.Codec, l: Tables, s: Step)
    requires WellFormed(l) && Conserved(l)
    ensures Conserved(Apply(c, l, s)) <==> Guard(l, s)
  {
    var l' := Apply(c, l, s);
    if Transaction(c, l, s).Ok? {
      forall t | 0 <= t < |l.types|
        ensures l'.types[t].soldQuantity == Live(l', t) <==>
                (Guard(l, s) || Target(s).None? || l.purchases[Target(s).value.0].ticketTypeId != t)
      {
        ConservedAt(c, l, s, t);
      }
      if !Guard(l, s) {
        assert l'.types[l.purchases[Target(s).value.0].ticketTypeId] in l'.types;
      }
    }
  }

  /** Releasing a live purchase of an exact ledger subtracts its quantity: the clamp at zero never
      bites, and the table's check never refuses. */
  lemma ClampNeverBites(l: Tables, p: nat)
    requires WellFormed(l) && NonNegative(l) && Bounded(l) && Conserved(l)
    requires p < |l.purchases| && IsLive(l.purchases[p])
    ensures var tt := l.purchases[p].ticketTypeId;
      && Released(l.types, l.purchases[p]).Ok?
      && Released(l.types, l.purchases[p]).value[tt].soldQuantity
         == l.types[tt].soldQuantity - l.purchases[p].quantity
  {
    LiveAtLeast(l, p);
  }

  /** Every step of the run meets its guard in the state it finds. */
  predicate GuardedRun(c: SecureQr.Codec, l: Tables, steps: seq<Step>)
    decreases |steps|
  {
    steps == [] || (Guard(l, steps[0]) && GuardedRun(c, Apply(c, l, steps[0]), steps[1..]))
  }

  /** The counters are exact before and after every step of the run. */
  ghost predicate ConservedThroughout(c: SecureQr.Codec, l: Tables, steps: seq<Step>)
    decreases |steps|
  {
    Conserved(l) && (steps == [] || ConservedThroughout(c, Apply(c, l, steps[0]), steps[1..]))
  }

  /** Over any run, exact conservation throughout is the same as guarded steps throughout. */
  lemma {:induction false} RunConservesIffGuarded(c: SecureQr.Codec, l: Tables, steps: seq<Step>)
    requires WellFormed(l) && Conserved(l)
    ensures ConservedThroughout(c, l, steps) <==> GuardedRun(c, l, steps)
    decreases |steps|
  {
    if steps != [] {
      WellFormedStep(c, l, steps[0]);
      ConservedIffGuarded(c, l, steps[0]);
      if Guard(l, steps[0]) {
        RunConservesIffGuarded(c, Apply(c, l, steps[0]), steps[1..]);
      } else {
        var next, rest := Apply(c, l, steps[0]), steps[1..];
        assert !Conserved(next);
        assert !ConservedThroughout(c, next, rest);
      }
    }
  }

  // ----------------------------------------------------------------- bounds on all runs

  predicate WithinCapacities(l: Tables) {
    forall t :: 0 <= t < |l.types| ==> WithinCapacity(l.types[t])
  }

  /** No run of any transactions, of whatever quantities, sells above a capacity. */
  lemma {:induction false} RunWithinCapacities(c: SecureQr.Codec, l: Tables, steps: seq<Step>)
    requires WithinCapacities(l)
    ensures WithinCapacities(Run(c, l, steps))
    decreases |steps|
  {
    if steps != [] {
      assert WithinCapacities(Apply(c, l, steps[0]));
      RunWithinCapacities(c, Apply(c, l, steps[0]), steps[1..]);
    }
  }

  /** A reservation, of any quantity, keeps the bounds if and only if it is refused or leaves the
      counter at zero or above. */
  lemma ReservationKeepsBoundsIff(l: Tables, t: nat, quantity: int, now: int)
    requires Bounded(l)
    ensures var r := CreatePendingPurchase(l, t, quantity, now);
      (r.Ok? ==> Bounded(r.value)) <==>
      (t >= |l.types| || l.types[t].soldQuantity + quantity > l.types[t].totalQuantity
       || l.types[t].soldQuantity + quantity >= 0)
  {
    var r := CreatePendingPurchase(l, t, quantity, now);
    if r.Ok? {
      forall u | 0 <= u < |l.types|
        ensures Live(r.value, u) == Live(l, u) + if t == u then quantity else 0
      {
        LiveAfterReserve(l, t, quantity, now, u);
      }
      assert r.value.types[t].soldQuantity == l.types[t].soldQuantity + quantity;
    }
  }

  /** Every other step keeps the bounds as long as no quantity is negative. */
  lemma BoundedStep(c: SecureQr.Codec, l: Tables, s: Step)
    requires WellFormed(l) && NonNegative(l) && Bounded(l) && Sane(l, s)
    ensures Bounded(Apply(c, l, s))
  {
    var l' := Apply(c, l, s);
    if s.Reserve? {
      ReservationKeepsBoundsIff(l, s.typeId, s.quantity, s.now);
    } else if Transaction(c, l, s).Ok? {
      forall t | 0 <= t < |l'.types|
        ensures 0 <= l'.types[t].soldQuantity <= l'.types[t].totalQuantity && l'.types[t].soldQuantity <= Live(l', t)
      {
        LiveAfterStep(c, l, s, t);
        if Target(s).Some? && IsLive(l.purchases[Target(s).value.0]) {
          LiveAtLeast(l, Target(s).value.0);
        }
      }
    }
  }

  /** On every run, guarded or not and whatever stale list the cron works from, as long as no
      negative reservation is accepted. */
  lemma {:induction false} RunBounded(c: SecureQr.Codec, l: Tables, steps: seq<Step>)
    requires WellFormed(l) && NonNegative(l) && Bounded(l) && SaneRun(c, l, steps)
    ensures Bounded(Run(c, l, steps))
    decreases |steps|
  {
    if steps != [] {
      WellFormedStep(c, l, steps[0]);
      NonNegativeStep(c, l, steps[0]);
      BoundedStep(c, l, steps[0]);
      RunBounded(c, Apply(c, l, steps[0]), steps[1..]);
    }
  }

  /** The bounds hold now and after every further run without negative reservations. */
  ghost predicate StaysBounded(c: SecureQr.Codec, l: Tables) {
    forall steps :: SaneRun(c, l, steps) ==> Bounded(Run(c, l, steps))
  }

  /** Failing and completing a negative purchase lowers what is held under the counter. */
  lemma NegativePurchaseBreaksBounds(c: SecureQr.Codec, l: Tables, t: nat, quantity: int, now: int)
    requires WellFormed(l) && Bounded(l) && Conserved(l)
    requires quantity < 0 && CreatePendingPurchase(l, t, quantity, now).Ok?
    ensures !StaysBounded(c, Apply(c, l, Reserve(t, quantity, now)))
  {
    var n := |l.purchases|;
    var l1 := Apply(c, l, Reserve(t, quantity, now));
    var l2 := Apply(c, l1, Fail(n));
    var l3 := Apply(c, l2, Complete(n, now));
    var s2, s3 := [Fail(n), Complete(n, now)], [Complete(n, now)];
    assert s3[1..] == [] && s2[1..] == s3;
    LiveAfterStep(c, l, Reserve(t, quantity, now), t);
    if l1.types[t].soldQuantity < 0 {
      assert SaneRun(c, l1, []) && Run(c, l1, []) == l1;
    } else {
      LiveAfterStep(c, l1, Fail(n), t);
      LiveAfterStep(c, l2, Complete(n, now), t);
      assert l3.types[t].soldQuantity > Live(l3, t);
      assert SaneRun(c, l2, s3) && Run(c, l2, s3) == l3;
      assert SaneRun(c, l1, s2) && Run(c, l1, s2) == l3;
    }
  }

  /** From an exact ledger the bounds are safe after a step, for all further runs, if and only if
      the step is not an accepted reservation of a negative quantity. */
  lemma StaysBoundedIffSane(c: SecureQr.Codec, l: Tables, s: Step)
    requires WellFormed(l) && NonNegative(l) && Bounded(l) && Conserved(l)
    ensures StaysBounded(c, Apply(c, l, s)) <==> Sane(l, s)
  {
    var next := Apply(c, l, s);
    if Sane(l, s) {
      WellFormedStep(c, l, s);
      NonNegativeStep(c, l, s);
      BoundedStep(c, l, s);
      forall steps | SaneRun(c, next, steps) ensures Bounded(Run(c, next, steps)) {
        RunBounded(c, next, steps);
      }
    } else {
      NegativePurchaseBreaksBounds(c, l, s.typeId, s.quantity, s.now);
    }
  }
}
