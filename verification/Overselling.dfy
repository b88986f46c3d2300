// Overselling: which single steps a sale cannot recover from, whatever care is taken afterwards.
module Overselling {
  import opened Prelude
  import opened Ledger
  import opened Conservation
  import opened TicketCounts
  import SecureQr

  /** No careful continuation ever has more admissible tickets of a type than its capacity. */
  ghost predicate SafeAfter(c: SecureQr.Codec, l: Tables) {
    forall steps :: CarefulRun(c, l, steps) ==> NotOversold(Run(c, l, steps))
  }

  lemma {:induction false} CarefulAppend(c: SecureQr.Codec, l: Tables, a: seq<Step>, b: seq<Step>)
    requires CarefulRun(c, l, a) && CarefulRun(c, Run(c, l, a), b)
    ensures CarefulRun(c, l, a + b)
    decreases |a|
  {
    if a == [] {
      assert a + b == b;
    } else {
      assert (a + b)[1..] == a[1..] + b;
      CarefulAppend(c, Apply(c, l, a[0]), a[1..], b);
    }
  }

  lemma CarefulOne(c: SecureQr.Codec, l: Tables, s: Step)
    requires Careful(l, s)
    ensures CarefulRun(c, l, [s]) && Run(c, l, [s]) == Apply(c, l, s)
  {
    assert [s][1..] == [];
  }

  // ------------------------------------------------------------ filling a type up

  predicate PendingFor(p: Purchase, typeId: nat) {
    p.ticketTypeId == typeId && p.paymentStatus == PurchaseStatus.PENDING
  }

  /** Paying a PENDING purchase turns its claim into tickets. */
  lemma CompletionKeepsClaims(c: SecureQr.Codec, l: Tables, p: nat, now: int)
    requires WellFormed(l) && p < |l.purchases| && l.purchases[p].paymentStatus == PurchaseStatus.PENDING
    ensures var t := l.purchases[p].ticketTypeId;
      Claims(Apply(c, l, Complete(p, now)), t) == Claims(l, t)
  {
    var t, q := l.purchases[p].ticketTypeId, l.purchases[p].quantity;
    TotalUpdate(l.purchases, p, l.purchases[p].(paymentStatus := PurchaseStatus.COMPLETED), PendingOf(t));
    if q > 0 { AdmissibleIssued(c, l, p, q, now); }
  }

  /** Tables e are tables l with every PENDING purchase of a type from the n-th on paid. */
  ghost predicate PaidFrom(l: Tables, e: Tables, t: nat, n: nat) {
    && WellFormed(e) && e.types == l.types && Claims(e, t) == Claims(l, t)
    && n <= |e.purchases| == |l.purchases| && e.purchases[..n] == l.purchases[..n]
    && forall k :: n <= k < |e.purchases| ==> !PendingFor(e.purchases[k], t)
  }

  lemma PaidOneMore(l: Tables, next: Tables, e: Tables, t: nat, n: nat)
    requires n < |l.purchases| && PaidFrom(next, e, t, n + 1)
    requires next.types == l.types && Claims(next, t) == Claims(l, t)
    requires |next.purchases| == |l.purchases| && next.purchases[..n] == l.purchases[..n]
    requires !PendingFor(next.purchases[n], t)
    ensures PaidFrom(l, e, t, n)
  {
    assert e.purchases[n] == e.purchases[..n + 1][n] == next.purchases[n];
    assert e.purchases[..n] == e.purchases[..n + 1][..n] == next.purchases[..n + 1][..n];
  }

  /** Paying them one after the other. */
  lemma {:induction false} CompleteAll(c: SecureQr.Codec, l: Tables, t: nat, n: nat, now: int)
    returns (steps: seq<Step>)
    requires WellFormed(l) && n <= |l.purchases|
    ensures CarefulRun(c, l, steps) && PaidFrom(l, Run(c, l, steps), t, n)
    decreases |l.purchases| - n
  {
    if n == |l.purchases| {
      steps := [];
    } else if !PendingFor(l.purchases[n], t) {
      steps := CompleteAll(c, l, t, n + 1, now);
      PaidOneMore(l, l, Run(c, l, steps), t, n);
    } else {
      var next := Apply(c, l, Complete(n, now));
      WellFormedStep(c, l, Complete(n, now));
      CompletionKeepsClaims(c, l, n, now);
      var rest := CompleteAll(c, next, t, n + 1, now);
      PaidOneMore(l, next, Run(c, next, rest), t, n);
      steps := [Complete(n, now)] + rest;
      assert steps[1..] == rest;
    }
  }

  /** Selling and paying what is left of a type. */
  lemma SellTheRest(c: SecureQr.Codec, l: Tables, t: nat, now: int) returns (steps: seq<Step>)
    requires WellFormed(l) && t < |l.types| && WithinCapacity(l.types[t])
    ensures CarefulRun(c, l, steps)
    ensures var e, tt := Run(c, l, steps), l.types[t];
      && Admissible(e, t) == Admissible(l, t) + tt.totalQuantity - tt.soldQuantity
      && |e.types| == |l.types| && e.types[t].totalQuantity == tt.totalQuantity
  {
    var n, q := |l.purchases|, l.types[t].totalQuantity - l.types[t].soldQuantity;
    var sale, payment := Reserve(t, q, now), Complete(n, now);
    var reserved := Apply(c, l, sale);
    if q > 0 { AdmissibleIssued(c, reserved, n, q, now); }
    steps := [sale, payment];
    CarefulOne(c, reserved, payment);
    assert steps[1..] == [payment];
  }

  /** From any ledger whose counter is within its capacity a careful continuation ends with all
      claims of a type turned into tickets, and its capacity sold out on top of them. */
  lemma FillUp(c: SecureQr.Codec, l: Tables, t: nat, now: int) returns (steps: seq<Step>)
    requires WellFormed(l) && t < |l.types| && WithinCapacity(l.types[t])
    ensures CarefulRun(c, l, steps)
    ensures var e, tt := Run(c, l, steps), l.types[t];
      && |e.types| == |l.types| && e.types[t].totalQuantity == tt.totalQuantity
      && Admissible(e, t) == Claims(l, t) + tt.totalQuantity - tt.soldQuantity
  {
    var paid := CompleteAll(c, l, t, 0, now);
    var e := Run(c, l, paid);
    TotalConstant(e.purchases, PendingOf(t), 0);
    var sold := SellTheRest(c, e, t, now);
    steps := paid + sold;
    CarefulAppend(c, l, paid, sold);
    RunAppend(c, l, paid, sold);
  }

  /** So more claims than the counter shows can always be cashed in. */
  lemma OverclaimedIsUnsafe(c: SecureQr.Codec, l: Tables, t: nat)
    requires WellFormed(l) && t < |l.types| && WithinCapacity(l.types[t])
    requires Claims(l, t) > l.types[t].soldQuantity
    ensures !SafeAfter(c, l)
  {
    var steps := FillUp(c, l, t, 0);
    var e := Run(c, l, steps);
    assert Admissible(e, t) > e.types[t].totalQuantity;
    assert !NotOversold(e);
  }

  // --------------------------------------------------------------- careless steps

  /** Completing or releasing what holds no stock leaves less counted than held. */
  lemma UnguardedOverclaims(c: SecureQr.Codec, l: Tables, s: Step)
    requires Good(l) && !Guard(l, s)
    ensures !SafeAfter(c, Apply(c, l, s))
  {
    var next := Apply(c, l, s);
    WellFormedStep(c, l, s);
    BoundedStep(c, l, s);
    ConservedIffGuarded(c, l, s);
    var t :| 0 <= t < |next.types| && next.types[t].soldQuantity != Live(next, t);
    assert Fresh(l, s) || s.Expire?;
    if Fresh(l, s) {
      TicketsExactIffFresh(c, l, s);
      AllUsableStep(c, l, s);
      ClaimsAreLive(next, t);
      OverclaimedIsUnsafe(c, next, t);
    } else {
      LiveAtLeast(l, s.purchaseId);
      assert false;
    }
  }

  /** Expiring what was paid frees its seats and leaves its tickets. */
  lemma StaleExpiryOverclaims(c: SecureQr.Codec, l: Tables, p: nat)
    requires Good(l) && !Fresh(l, Expire(p))
    ensures !SafeAfter(c, Apply(c, l, Expire(p)))
  {
    var t := l.purchases[p].ticketTypeId;
    var next := Apply(c, l, Expire(p));
    ClampNeverBites(l, p);
    WellFormedStep(c, l, Expire(p));
    ClaimsAreLive(l, t);
    TotalUpdate(l.purchases, p, l.purchases[p].(paymentStatus := PurchaseStatus.FAILED), PendingOf(t));
    OverclaimedIsUnsafe(c, next, t);
  }

  /** Activating a ticket that was cancelled or refunded brings a seat back that was given away. */
  lemma RevivalOverclaims(c: SecureQr.Codec, l: Tables, i: nat)
    requires Good(l) && !Fresh(l, Activate(i))
    ensures !SafeAfter(c, Apply(c, l, Activate(i)))
  {
    var t := l.tickets[i].ticketTypeId;
    var next := Apply(c, l, Activate(i));
    WellFormedStep(c, l, Activate(i));
    ClaimsAreLive(l, t);
    TotalUpdate(l.tickets, i, l.tickets[i].(status := TicketStatus.ACTIVE), AdmissibleOfType(t));
    OverclaimedIsUnsafe(c, next, t);
  }

  /** A negative reservation lowers the counter without taking a seat from anybody. */
  lemma NegativeReservationOverclaims(c: SecureQr.Codec, l: Tables, s: Step)
    requires Good(l) && !Sane(l, s)
    ensures !SafeAfter(c, Apply(c, l, s))
  {
    var t := s.typeId;
    var row := Purchase(t, s.quantity, PurchaseStatus.PENDING, s.now);
    WellFormedStep(c, l, s);
    ClaimsAreLive(l, t);
    assert (l.purchases + [row])[..|l.purchases|] == l.purchases;
    OverclaimedIsUnsafe(c, Apply(c, l, s), t);
  }

  /** After a step the sale is safe, whatever careful steps follow, if and only if the step was
      careful itself: it met its guard, was fresh, and reserved no negative quantity. */
  lemma SafeIffCareful(c: SecureQr.Codec, l: Tables, s: Step)
    requires Good(l)
    ensures SafeAfter(c, Apply(c, l, s)) <==> Careful(l, s)
  {
    var next := Apply(c, l, s);
    if Careful(l, s) {
      GoodStep(c, l, s);
      forall steps | CarefulRun(c, next, steps) ensures NotOversold(Run(c, next, steps)) {
        RunGood(c, next, steps);
        forall t | 0 <= t < |Run(c, next, steps).types|
          ensures Admissible(Run(c, next, steps), t) <= Run(c, next, steps).types[t].totalQuantity
        {
          NoOverselling(Run(c, next, steps), t);
        }
      }
    } else if !Sane(l, s) {
      NegativeReservationOverclaims(c, l, s);
    } else if !Guard(l, s) {
      UnguardedOverclaims(c, l, s);
    } else if s.Expire? {
      StaleExpiryOverclaims(c, l, s.purchaseId);
    } else {
      RevivalOverclaims(c, l, s.ticketId);
    }
  }

  /** What is good is safe: a step that is refused is careful. */
  lemma GoodIsSafe(c: SecureQr.Codec, l: Tables)
    requires Good(l)
    ensures SafeAfter(c, l)
  {
    SafeIffCareful(c, l, SetCapacity(|l.types|, 0));
  }

  ghost predicate SafeThroughout(c: SecureQr.Codec, l: Tables, steps: seq<Step>)
    decreases |steps|
  {
    SafeAfter(c, l) && (steps == [] || SafeThroughout(c, Apply(c, l, steps[0]), steps[1..]))
  }

  /** A sale is safe, before and after each of its steps and for all careful continuations, if
      and only if each of its steps is careful. */
  lemma {:induction false} RunSafeIffCareful(c: SecureQr.Codec, l: Tables, steps: seq<Step>)
    requires Good(l)
    ensures SafeThroughout(c, l, steps) <==> CarefulRun(c, l, steps)
    decreases |steps|
  {
    GoodIsSafe(c, l);
    if steps != [] {
      SafeIffCareful(c, l, steps[0]);
      var next, rest := Apply(c, l, steps[0]), steps[1..];
      if Careful(l, steps[0]) {
        GoodStep(c, l, steps[0]);
        RunSafeIffCareful(c, next, rest);
      } else {
        assert !SafeThroughout(c, next, rest);
      }
    }
  }

  // ---------------------------------------------------- the careless steps, concretely

  const ONE_SEAT := Tables([TicketType(0, 1, 0)], [], [])

  lemma TwoAdmissible(l: Tables)
    requires |l.tickets| == 2 && forall i :: 0 <= i < 2 ==> AdmissibleOfType(0)(l.tickets[i]) == 1
    ensures Admissible(l, 0) == 2
  {
    TotalConstant(l.tickets, AdmissibleOfType(0), 1);
  }

  /** An expiry that finds its purchase COMPLETED keeps the counters exact and still sells the
      one seat twice: the tickets of the expired purchase stay ACTIVE. */
  lemma StaleExpiryOversells(c: SecureQr.Codec)
    ensures var steps := [Reserve(0, 1, 0), Complete(0, 0), Expire(0), Reserve(0, 1, 0), Complete(1, 0)];
            GuardedRun(c, ONE_SEAT, steps) && Admissible(Run(c, ONE_SEAT, steps), 0) == 2
  {
    var l1 := Apply(c, ONE_SEAT, Reserve(0, 1, 0));
    var l2 := Apply(c, l1, Complete(0, 0));
    var l3 := Apply(c, l2, Expire(0));
    var l4 := Apply(c, l3, Reserve(0, 1, 0));
    var l5 := Apply(c, l4, Complete(1, 0));
    var r5 := [Complete(1, 0)];
    var r4 := [Reserve(0, 1, 0)] + r5;
    var r3 := [Expire(0)] + r4;
    var r2 := [Complete(0, 0)] + r3;
    assert r5[1..] == [] && r4[1..] == r5 && r3[1..] == r4 && r2[1..] == r3;
    var r1 := [Reserve(0, 1, 0)] + r2;
    assert r1[1..] == r2;
    assert r1 == [Reserve(0, 1, 0), Complete(0, 0), Expire(0), Reserve(0, 1, 0), Complete(1, 0)];
    assert l3.types[0].soldQuantity == 0;
    TwoAdmissible(l5);
    assert Run(c, l4, r5) == l5;
    assert Run(c, l2, r3) == l5;
  }

  /** Completing a failed purchase again gives it its tickets but no stock. */
  lemma DeadCompletionOversells(c: SecureQr.Codec)
    ensures var steps := [Reserve(0, 1, 0), Fail(0), Reserve(0, 1, 0), Complete(1, 0), Complete(0, 0)];
            FreshRun(c, ONE_SEAT, steps) && Admissible(Run(c, ONE_SEAT, steps), 0) == 2
  {
    var l1 := Apply(c, ONE_SEAT, Reserve(0, 1, 0));
    var l2 := Apply(c, l1, Fail(0));
    var l3 := Apply(c, l2, Reserve(0, 1, 0));
    var l4 := Apply(c, l3, Complete(1, 0));
    var l5 := Apply(c, l4, Complete(0, 0));
    var r5 := [Complete(0, 0)];
    var r4 := [Complete(1, 0)] + r5;
    var r3 := [Reserve(0, 1, 0)] + r4;
    var r2 := [Fail(0)] + r3;
    assert r5[1..] == [] && r4[1..] == r5 && r3[1..] == r4 && r2[1..] == r3;
    var r1 := [Reserve(0, 1, 0)] + r2;
    assert r1[1..] == r2;
    assert r1 == [Reserve(0, 1, 0), Fail(0), Reserve(0, 1, 0), Complete(1, 0), Complete(0, 0)];
    TwoAdmissible(l5);
    assert Run(c, l4, r5) == l5;
    assert Run(c, l2, r3) == l5;
  }

  /** The one seat reserved twice after a failed purchase is failed again. */
  lemma DoubleReleaseTables(c: SecureQr.Codec) returns (l: Tables)
    ensures var steps := [Reserve(0, 1, 0), Fail(0), Reserve(0, 1, 0), Fail(0), Reserve(0, 1, 0)];
            l == Run(c, ONE_SEAT, steps) && FreshRun(c, ONE_SEAT, steps)
    ensures l == Tables(
      [TicketType(0, 1, 1)],
      [Purchase(0, 1, PurchaseStatus.FAILED, 0), Purchase(0, 1, PurchaseStatus.PENDING, 0),
       Purchase(0, 1, PurchaseStatus.PENDING, 0)], [])
  {
    var l1 := Apply(c, ONE_SEAT, Reserve(0, 1, 0));
    var l2 := Apply(c, l1, Fail(0));
    var l3 := Apply(c, l2, Reserve(0, 1, 0));
    var l4 := Apply(c, l3, Fail(0));
    l := Apply(c, l4, Reserve(0, 1, 0));
    var r5 := [Reserve(0, 1, 0)];
    var r4 := [Fail(0)] + r5;
    var r3 := [Reserve(0, 1, 0)] + r4;
    var r2 := [Fail(0)] + r3;
    assert r5[1..] == [] && r4[1..] == r5 && r3[1..] == r4 && r2[1..] == r3;
    var r1 := [Reserve(0, 1, 0)] + r2;
    assert r1[1..] == r2;
    assert r1 == [Reserve(0, 1, 0), Fail(0), Reserve(0, 1, 0), Fail(0), Reserve(0, 1, 0)];
    assert Run(c, l4, r5) == l;
    assert Run(c, l2, r3) == l;
  }

  /** Releasing a failed purchase again frees a seat another purchase holds: both are then paid
      and admitted. */
  lemma DoubleReleaseOversells(c: SecureQr.Codec)
    ensures var first := [Reserve(0, 1, 0), Fail(0), Reserve(0, 1, 0), Fail(0), Reserve(0, 1, 0)];
            var steps := first + [Complete(1, 0), Complete(2, 0)];
            FreshRun(c, ONE_SEAT, first) && Admissible(Run(c, ONE_SEAT, steps), 0) == 2
  {
    var l5 := DoubleReleaseTables(c);
    var l6 := Apply(c, l5, Complete(1, 0));
    var l7 := Apply(c, l6, Complete(2, 0));
    var r6, r7 := [Complete(1, 0), Complete(2, 0)], [Complete(2, 0)];
    assert r7[1..] == [] && r6[1..] == r7;
    assert Run(c, l6, r7) == l7;
    assert Run(c, l5, r6) == l7;
    TwoAdmissible(l7);
    RunAppend(c, ONE_SEAT, [Reserve(0, 1, 0), Fail(0), Reserve(0, 1, 0), Fail(0), Reserve(0, 1, 0)], r6);
  }

  /** Reservations themselves accept any quantity; a negative one drops the counter below zero. */
  lemma NegativeReservation(c: SecureQr.Codec)
    ensures Apply(c, ONE_SEAT, Reserve(0, -1, 0)).types[0].soldQuantity == -1
  {}
}
