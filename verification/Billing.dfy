// Membership billing: the local record against the subscriptions of the external service.
// A preapproval is identified by its position in the external list; a cancelled one is final
// there. Each operation, with its external call, is one step.
module Billing {
  import opened Prelude
  import MonthGrid

  datatype BillingMode = NONE | MANUAL | AUTO

  datatype Status = PENDING | AUTHORIZED | PAUSED | CANCELLED

  datatype Membership = Membership(
    billingMode: BillingMode, mpPreapprovalId: Option<nat>, subscriptionStatus: Option<Status>,
    pendingPaymentId: Option<string>, isActive: bool, expiresAt: Option<int>)

  datatype Preapproval = Preapproval(membershipId: nat, status: Status)

  datatype System = System(memberships: seq<Membership>, external: seq<Preapproval>)

  datatype Error = NotFound | Conflict | NoSubscription | ExternalFailed

  // --------------------------------------------------------------- the external service

  /** A status update; it throws when the call fails or the preapproval is cancelled. */
  function Update(external: seq<Preapproval>, id: nat, ok: bool, status: Status): Option<seq<Preapproval>> {
    if !ok || id >= |external| || external[id].status == Status.CANCELLED then None
    else Some(external[id := external[id].(status := status)])
  }

  // ------------------------------------------------------------------------- operations

  function Save(s: System, m: nat, membership: Membership): System
    requires m < |s.memberships|
  {
    s.(memberships := s.memberships[m := membership])
  }

  /** created is the status the service answers with, or None when creating fails. */
  function EnableAutoBilling(g: MonthGrid.Grid, s: System, m: nat, created: Option<Status>, now: int)
    : Result<System, Error>
    requires g.Valid()
  {
    if m >= |s.memberships| then Err(NotFound)
    else if s.memberships[m].mpPreapprovalId.Some? then Err(Conflict)
    else if created.None? then Err(ExternalFailed)
    else Ok(Save(s, m, s.memberships[m].(
      mpPreapprovalId := Some(|s.external|), subscriptionStatus := created, billingMode := AUTO,
      isActive := true, expiresAt := Some(MonthGrid.TimePlusMonths(g, now, 1))
    )).(external := s.external + [Preapproval(m, created.value)]))
  }

  function MigrateToAutoBilling(s: System, m: nat, created: Option<Status>): Result<System, Error> {
    if m >= |s.memberships| then Err(NotFound)
    else if s.memberships[m].mpPreapprovalId.Some? then Err(Conflict)
    else if created.None? then Err(ExternalFailed)
    else Ok(Save(s, m, s.memberships[m].(
      pendingPaymentId := None, billingMode := AUTO, mpPreapprovalId := Some(|s.external|),
      subscriptionStatus := created, isActive := true
    )).(external := s.external + [Preapproval(m, created.value)]))
  }

  /** Cancels the stored subscription, if there is one, and forgets it. */
  function MigrateToManualBilling(s: System, m: nat, ok: bool): Result<System, Error> {
    if m >= |s.memberships| then Err(NotFound)
    else
      var membership := s.memberships[m].(mpPreapprovalId := None, subscriptionStatus := None, billingMode := MANUAL);
      match s.memberships[m].mpPreapprovalId
      case None => Ok(Save(s, m, membership))
      case Some(id) =>
        match Update(s.external, id, ok, Status.CANCELLED)
        case None => Err(ExternalFailed)
        case Some(external) => Ok(Save(s, m, membership).(external := external))
  }

  /** Pausing and resuming: the external status first, the local copy second. */
  function SetSubscription(s: System, m: nat, ok: bool, status: Status): Result<System, Error> {
    if m >= |s.memberships| then Err(NotFound)
    else match s.memberships[m].mpPreapprovalId
      case None => Err(NoSubscription)
      case Some(id) =>
        match Update(s.external, id, ok, status)
        case None => Err(ExternalFailed)
        case Some(external) =>
          Ok(Save(s, m, s.memberships[m].(subscriptionStatus := Some(status))).(external := external))
  }

  function GeneratePaymentLink(s: System, m: nat, payment: Option<string>): Result<System, Error> {
    if m >= |s.memberships| then Err(NotFound)
    else if payment.None? then Err(ExternalFailed)
    else Ok(Save(s, m, s.memberships[m].(pendingPaymentId := payment, billingMode := MANUAL)))
  }

  function Extended(g: MonthGrid.Grid, x: Membership, months: int, now: int): Membership
    requires g.Valid()
  {
    var current := match x.expiresAt case Some(t) => t case None => now;
    x.(expiresAt := Some(MonthGrid.TimePlusMonths(g, current, months)), isActive := true)
  }

  /** The administrator's extension forgets any pending payment. */
  function ExtendMembership(g: MonthGrid.Grid, s: System, m: nat, months: int, now: int): Result<System, Error>
    requires g.Valid()
  {
    if m >= |s.memberships| then Err(NotFound)
    else Ok(Save(s, m, Extended(g, s.memberships[m], months, now).(pendingPaymentId := None)))
  }

  /** The payment notification forgets the pending payment only if it is this one. */
  function ExtendFromPayment(g: MonthGrid.Grid, s: System, m: nat, paymentId: string, months: int, now: int)
    : Result<System, Error>
    requires g.Valid()
  {
    if m >= |s.memberships| then Err(NotFound)
    else
      var x := Extended(g, s.memberships[m], months, now);
      Ok(Save(s, m, if x.pendingPaymentId == Some(paymentId) then x.(pendingPaymentId := None) else x))
  }

  /** The membership that stores a preapproval. */
  function FindByPreapproval(ms: seq<Membership>, id: nat): (r: Option<nat>)
    ensures r.Some? ==> r.value < |ms| && ms[r.value].mpPreapprovalId == Some(id)
    ensures r.None? ==> forall m :: 0 <= m < |ms| ==> ms[m].mpPreapprovalId != Some(id)
  {
    if ms == [] then None
    else match FindByPreapproval(ms[..|ms| - 1], id)
      case Some(m) => Some(m)
      case None => if ms[|ms| - 1].mpPreapprovalId == Some(id) then Some(|ms| - 1) else None
  }

  /** Copies the external status; a failed read is logged and changes nothing. */
  function PreapprovalWebhook(s: System, id: nat, reachable: bool): System {
    if !reachable || id >= |s.external| then s
    else match FindByPreapproval(s.memberships, id)
      case None => s
      case Some(m) =>
        var status := s.external[id].status;
        var x := s.memberships[m].(subscriptionStatus := Some(status));
        Save(s, m, if status == AUTHORIZED then x.(isActive := true)
                   else if status == Status.CANCELLED then x.(isActive := false)
                   else x)
  }

  /** The subscriber or the service itself moves a preapproval. */
  function ExternalChange(s: System, id: nat, status: Status): System {
    match Update(s.external, id, true, status)
    case None => s
    case Some(external) => s.(external := external)
  }

  // ------------------------------------------------------------------------------- runs

  datatype Step =
    | Enable(m: nat, created: Option<Status>, now: int)
    | ToAuto(m: nat, created: Option<Status>)
    | ToManual(m: nat, ok: bool)
    | Pause(m: nat, ok: bool)
    | Resume(m: nat, ok: bool)
    | PaymentLink(m: nat, payment: Option<string>)
    | Extend(m: nat, months: int, now: int)
    | Payment(m: nat, paymentId: string, months: int, now: int)
    | Webhook(id: nat, reachable: bool)
    | External(id: nat, status: Status)

  function Operation(g: MonthGrid.Grid, s: System, step: Step): Result<System, Error>
    requires g.Valid()
  {
    match step
    case Enable(m, created, now) => EnableAutoBilling(g, s, m, created, now)
    case ToAuto(m, created) => MigrateToAutoBilling(s, m, created)
    case ToManual(m, ok) => MigrateToManualBilling(s, m, ok)
    case Pause(m, ok) => SetSubscription(s, m, ok, PAUSED)
    case Resume(m, ok) => SetSubscription(s, m, ok, AUTHORIZED)
    case PaymentLink(m, payment) => GeneratePaymentLink(s, m, payment)
    case Extend(m, months, now) => ExtendMembership(g, s, m, months, now)
    case Payment(m, paymentId, months, now) => ExtendFromPayment(g, s, m, paymentId, months, now)
    case Webhook(id, reachable) => Ok(PreapprovalWebhook(s, id, reachable))
    case External(id, status) => Ok(ExternalChange(s, id, status))
  }

  function Apply(g: MonthGrid.Grid, s: System, step: Step): System
    requires g.Valid()
  {
    match Operation(g, s, step)
    case Ok(s') => s'
    case Err(_) => s
  }

  function Run(g: MonthGrid.Grid, s: System, steps: seq<Step>): System
    requires g.Valid()
    decreases |steps|
  {
    if steps == [] then s else Run(g, Apply(g, s, steps[0]), steps[1..])
  }

  // --------------------------------------------------------------- one live subscription

  predicate LiveId(s: System, id: nat) {
    id < |s.external| && s.external[id].status != Status.CANCELLED
  }

  /** AUTO has a stored id; stored ids exist and are one's own; and whatever is not cancelled
      outside is the stored subscription of its membership. */
  predicate Linked(s: System) {
    && (forall m :: 0 <= m < |s.memberships| ==>
          (s.memberships[m].billingMode == AUTO ==> s.memberships[m].mpPreapprovalId.Some?)
          && (s.memberships[m].mpPreapprovalId.Some? ==>
                s.memberships[m].mpPreapprovalId.value < |s.external|
                && s.external[s.memberships[m].mpPreapprovalId.value].membershipId == m))
    && (forall id :: 0 <= id < |s.external| && LiveId(s, id) ==>
          s.external[id].membershipId < |s.memberships|
          && s.memberships[s.external[id].membershipId].mpPreapprovalId == Some(id))
  }

  /** Changing other fields of a membership. */
  lemma LinkedSave(s: System, m: nat, x: Membership)
    requires Linked(s) && m < |s.memberships| && x.mpPreapprovalId == s.memberships[m].mpPreapprovalId
    requires x.billingMode == AUTO ==> s.memberships[m].billingMode == AUTO
    ensures Linked(Save(s, m, x))
  {}

  /** A status the service accepts leaves the links alone. */
  lemma LinkedUpdate(s: System, id: nat, ok: bool, status: Status)
    requires Linked(s) && Update(s.external, id, ok, status).Some?
    ensures Linked(s.(external := Update(s.external, id, ok, status).value))
  {}

  /** A new preapproval for a membership that stores none. */
  lemma LinkedCreate(s: System, m: nat, x: Membership, status: Status)
    requires Linked(s) && m < |s.memberships| && s.memberships[m].mpPreapprovalId.None?
    requires x.mpPreapprovalId == Some(|s.external|)
    ensures Linked(Save(s, m, x).(external := s.external + [Preapproval(m, status)]))
  {}

  /** Forgetting a subscription that is not live. */
  lemma LinkedForget(s: System, m: nat, x: Membership)
    requires Linked(s) && m < |s.memberships| && x.mpPreapprovalId.None? && x.billingMode != AUTO
    requires s.memberships[m].mpPreapprovalId.Some? ==> !LiveId(s, s.memberships[m].mpPreapprovalId.value)
    ensures Linked(Save(s, m, x))
  {}

  lemma LinkedCreation(g: MonthGrid.Grid, s: System, step: Step)
    requires g.Valid() && Linked(s) && (step.Enable? || step.ToAuto?)
    ensures Linked(Apply(g, s, step))
  {
    if Operation(g, s, step).Ok? {
      LinkedCreate(s, step.m, Apply(g, s, step).memberships[step.m], step.created.value);
    }
  }

  lemma LinkedSubscription(g: MonthGrid.Grid, s: System, step: Step)
    requires g.Valid() && Linked(s) && (step.ToManual? || step.Pause? || step.Resume?)
    ensures Linked(Apply(g, s, step))
  {
    if Operation(g, s, step).Ok? {
      var x := Apply(g, s, step).memberships[step.m];
      var status := if step.Pause? then PAUSED else if step.Resume? then AUTHORIZED else Status.CANCELLED;
      if s.memberships[step.m].mpPreapprovalId.None? {
        LinkedForget(s, step.m, x);
      } else {
        var id := s.memberships[step.m].mpPreapprovalId.value;
        LinkedUpdate(s, id, step.ok, status);
        var updated := s.(external := Update(s.external, id, step.ok, status).value);
        if step.ToManual? { LinkedForget(updated, step.m, x); } else { LinkedSave(updated, step.m, x); }
      }
    }
  }

  lemma LinkedLocal(g: MonthGrid.Grid, s: System, step: Step)
    requires g.Valid() && Linked(s) && (step.PaymentLink? || step.Extend? || step.Payment?)
    ensures Linked(Apply(g, s, step))
  {
    if Operation(g, s, step).Ok? {
      LinkedSave(s, step.m, Apply(g, s, step).memberships[step.m]);
    }
  }

  lemma LinkedOutside(g: MonthGrid.Grid, s: System, step: Step)
    requires g.Valid() && Linked(s) && (step.Webhook? || step.External?)
    ensures Linked(Apply(g, s, step))
  {
    if step.External? {
      if Update(s.external, step.id, true, step.status).Some? { LinkedUpdate(s, step.id, true, step.status); }
    } else if FindByPreapproval(s.memberships, step.id).Some? {
      var m := FindByPreapproval(s.memberships, step.id).value;
      if step.reachable && step.id < |s.external| { LinkedSave(s, m, Apply(g, s, step).memberships[m]); }
    }
  }

  lemma LinkedStep(g: MonthGrid.Grid, s: System, step: Step)
    requires g.Valid() && Linked(s)
    ensures Linked(Apply(g, s, step))
  {
    if step.Enable? || step.ToAuto? {
      LinkedCreation(g, s, step);
    } else if step.ToManual? || step.Pause? || step.Resume? {
      LinkedSubscription(g, s, step);
    } else if step.Webhook? || step.External? {
      LinkedOutside(g, s, step);
    } else {
      LinkedLocal(g, s, step);
    }
  }

  /** On every run of operations, notifications and external changes. */
  lemma {:induction false} RunLinked(g: MonthGrid.Grid, s: System, steps: seq<Step>)
    requires g.Valid() && Linked(s)
    ensures Linked(Run(g, s, steps))
    decreases |steps|
  {
    if steps != [] {
      LinkedStep(g, s, steps[0]);
      RunLinked(g, Apply(g, s, steps[0]), steps[1..]);
    }
  }

  predicate Untouched(s: System) {
    s.external == []
    && forall m :: 0 <= m < |s.memberships| ==>
         s.memberships[m].billingMode != AUTO && s.memberships[m].mpPreapprovalId == None
         && s.memberships[m].subscriptionStatus == None
  }

  /** From memberships without subscriptions, whatever happens: no membership ever has two
      uncancelled preapprovals, the one it has is the one it stores, and AUTO stores one. */
  lemma OneLiveSubscription(g: MonthGrid.Grid, s: System, steps: seq<Step>, i: nat, j: nat, m: nat)
    requires g.Valid() && Untouched(s)
    ensures var e := Run(g, s, steps);
      && (LiveId(e, i) && LiveId(e, j) && e.external[i].membershipId == e.external[j].membershipId ==> i == j)
      && (LiveId(e, i) && e.external[i].membershipId == m && m < |e.memberships| ==>
            e.memberships[m].mpPreapprovalId == Some(i))
      && (m < |e.memberships| && e.memberships[m].billingMode == AUTO ==> e.memberships[m].mpPreapprovalId.Some?)
  {
    RunLinked(g, s, steps);
  }

  // -------------------------------------------------------------------------- the mirror

  /** The local status is the external one; without a subscription there is none. */
  predicate Synced(s: System, m: nat)
    requires m < |s.memberships|
  {
    match s.memberships[m].mpPreapprovalId
    case None => s.memberships[m].subscriptionStatus == None
    case Some(id) => id < |s.external| && s.memberships[m].subscriptionStatus == Some(s.external[id].status)
  }

  predicate AllSynced(s: System) {
    forall m :: 0 <= m < |s.memberships| ==> Synced(s, m)
  }

  /** The status of a live preapproval moves without the local system. */
  predicate BehindOurBack(s: System, step: Step) {
    step.External? && LiveId(s, step.id) && step.status != s.external[step.id].status
  }

  lemma SyncedAfterWebhook(s: System, id: nat, reachable: bool, m: nat)
    requires Linked(s) && m < |s.memberships| && Synced(s, m)
    ensures Synced(PreapprovalWebhook(s, id, reachable), m)
  {}

  lemma SyncedAfterChange(s: System, id: nat, status: Status, m: nat)
    requires Linked(s) && m < |s.memberships| && Synced(s, m)
    requires LiveId(s, id) ==> status == s.external[id].status
    ensures Synced(ExternalChange(s, id, status), m)
  {}

  lemma SyncedAfterSubscription(g: MonthGrid.Grid, s: System, step: Step, m: nat)
    requires g.Valid() && Linked(s) && m < |s.memberships| && Synced(s, m)
    requires step.ToManual? || step.Pause? || step.Resume?
    ensures Synced(Apply(g, s, step), m)
  {}

  lemma SyncedAfterStep(g: MonthGrid.Grid, s: System, step: Step, m: nat)
    requires g.Valid() && Linked(s) && m < |s.memberships| && Synced(s, m) && !BehindOurBack(s, step)
    ensures Synced(Apply(g, s, step), m)
  {
    if step.Webhook? {
      SyncedAfterWebhook(s, step.id, step.reachable, m);
    } else if step.External? {
      SyncedAfterChange(s, step.id, step.status, m);
    } else if step.ToManual? || step.Pause? || step.Resume? {
      SyncedAfterSubscription(g, s, step, m);
    }
  }

  lemma ChangedBehindOurBack(g: MonthGrid.Grid, s: System, step: Step)
    requires g.Valid() && Linked(s) && AllSynced(s) && BehindOurBack(s, step)
    ensures !AllSynced(Apply(g, s, step))
  {
    var m := s.external[step.id].membershipId;
    assert Synced(s, m);
    assert !Synced(Apply(g, s, step), m);
  }

  /** The mirror stays exact through a step if and only if it is not such a change. */
  lemma SyncedIffLocal(g: MonthGrid.Grid, s: System, step: Step)
    requires g.Valid() && Linked(s) && AllSynced(s)
    ensures AllSynced(Apply(g, s, step)) <==> !BehindOurBack(s, step)
  {
    if BehindOurBack(s, step) {
      ChangedBehindOurBack(g, s, step);
    } else {
      forall m | 0 <= m < |s.memberships| ensures Synced(Apply(g, s, step), m) {
        SyncedAfterStep(g, s, step, m);
      }
    }
  }

  predicate LocalRun(g: MonthGrid.Grid, s: System, steps: seq<Step>)
    requires g.Valid()
    decreases |steps|
  {
    steps == [] || (!BehindOurBack(s, steps[0]) && LocalRun(g, Apply(g, s, steps[0]), steps[1..]))
  }

  predicate SyncedThroughout(g: MonthGrid.Grid, s: System, steps: seq<Step>)
    requires g.Valid()
    decreases |steps|
  {
    AllSynced(s) && (steps == [] || SyncedThroughout(g, Apply(g, s, steps[0]), steps[1..]))
  }

  lemma {:induction false} RunSyncedIffLocal(g: MonthGrid.Grid, s: System, steps: seq<Step>)
    requires g.Valid() && Linked(s) && AllSynced(s)
    ensures SyncedThroughout(g, s, steps) <==> LocalRun(g, s, steps)
    decreases |steps|
  {
    if steps != [] {
      LinkedStep(g, s, steps[0]);
      SyncedIffLocal(g, s, steps[0]);
      var next := Apply(g, s, steps[0]);
      if AllSynced(next) {
        RunSyncedIffLocal(g, next, steps[1..]);
      } else {
        assert !SyncedThroughout(g, next, steps[1..]);
      }
    }
  }

  /** However far the mirror is off, a successful operation on the subscription of a membership,
      or a notification about its stored preapproval, makes that membership exact again. */
  lemma SyncRestored(g: MonthGrid.Grid, s: System, step: Step, m: nat)
    requires g.Valid() && Linked(s) && m < |s.memberships|
    requires ((step.Enable? || step.ToAuto? || step.ToManual? || step.Pause? || step.Resume?)
              && step.m == m && Operation(g, s, step).Ok?)
          || (step.Webhook? && step.reachable && s.memberships[m].mpPreapprovalId == Some(step.id))
    ensures Synced(Apply(g, s, step), m)
  {}

  /** A payment link switches to MANUAL and cancels nothing: a live subscription stays live. */
  lemma PaymentLinkKeepsSubscription(g: MonthGrid.Grid, s: System, m: nat, payment: string)
    requires g.Valid() && Linked(s) && m < |s.memberships|
    ensures var s' := Apply(g, s, PaymentLink(m, Some(payment)));
      && s'.memberships[m].billingMode == MANUAL && s'.external == s.external
      && s'.memberships[m].mpPreapprovalId == s.memberships[m].mpPreapprovalId
  {}

  /** Extensions by whole months never move an expiry earlier, and pay for 28 to 31 days each. */
  lemma ExtensionExactly(g: MonthGrid.Grid, s: System, step: Step)
    requires g.Valid() && (step.Extend? || step.Payment?) && step.m < |s.memberships| && step.months >= 0
    ensures var x, x' := s.memberships[step.m], Apply(g, s, step).memberships[step.m];
      var start := match x.expiresAt case Some(t) => t case None => step.now;
      && x'.isActive && x'.expiresAt.Some?
      && start + MonthGrid.MS_PER_DAY * (28 * step.months) <= x'.expiresAt.value
         <= start + MonthGrid.MS_PER_DAY * (31 * step.months)
      && x'.expiresAt.value
         == start + MonthGrid.MS_PER_DAY
                    * MonthGrid.Lengths(g, MonthGrid.MonthOf(g, start / MonthGrid.MS_PER_DAY), step.months)
      && (x'.pendingPaymentId.Some? <==>
            x.pendingPaymentId.Some? && step.Payment? && x.pendingPaymentId != Some(step.paymentId))
  {
    var x := s.memberships[step.m];
    var start := match x.expiresAt case Some(t) => t case None => step.now;
    MonthGrid.TimePlusMonthsExactly(g, start, step.months);
  }

  // ------------------------------------------------------------------------ the services

  class BillingService {
    var memberships: seq<Membership>
    var external: seq<Preapproval>

    function State(): System
      reads this
    {
      System(memberships, external)
    }

    /** A call to the external service; nothing changes when it throws. */
    method UpdatePreapproval(id: nat, ok: bool, status: Status) returns (done: bool)
      modifies this`external
      ensures match Update(old(external), id, ok, status)
        case None => !done && external == old(external)
        case Some(e) => done && external == e
    {
      if !ok || id >= |external| || external[id].status == Status.CANCELLED {
        return false;
      }
      external := external[id := external[id].(status := status)];
      return true;
    }

    method EnableAutoBilling(g: MonthGrid.Grid, m: nat, created: Option<Status>, now: int) returns (r: Option<Error>)
      requires g.Valid()
      modifies this
      ensures State() == Apply(g, old(State()), Enable(m, created, now))
      ensures match Operation(g, old(State()), Enable(m, created, now))
        case Ok(_) => r == None
        case Err(e) => r == Some(e)
    {
      if m >= |memberships| {
        return Some(NotFound);
      }
      var membership := memberships[m];
      if membership.mpPreapprovalId.Some? {
        return Some(Conflict);
      }
      if created.None? {
        return Some(ExternalFailed);
      }
      var preapprovalId := |external|;
      external := external + [Preapproval(m, created.value)];
      membership := membership.(mpPreapprovalId := Some(preapprovalId), subscriptionStatus := created);
      membership := membership.(billingMode := AUTO, isActive := true);
      membership := membership.(expiresAt := Some(MonthGrid.TimePlusMonths(g, now, 1)));
      memberships := memberships[m := membership];
      return None;
    }

    method MigrateToAutoBilling(g: MonthGrid.Grid, m: nat, created: Option<Status>) returns (r: Option<Error>)
      requires g.Valid()
      modifies this
      ensures State() == Apply(g, old(State()), ToAuto(m, created))
      ensures match Operation(g, old(State()), ToAuto(m, created))
        case Ok(_) => r == None
        case Err(e) => r == Some(e)
    {
      if m >= |memberships| {
        return Some(NotFound);
      }
      var membership := memberships[m];
      if membership.mpPreapprovalId.Some? {
        return Some(Conflict);
      }
      if created.None? {
        return Some(ExternalFailed);
      }
      var preapprovalId := |external|;
      external := external + [Preapproval(m, created.value)];
      membership := membership.(pendingPaymentId := None, billingMode := AUTO, mpPreapprovalId := Some(preapprovalId));
      memberships := memberships[m := membership.(subscriptionStatus := created, isActive := true)];
      return None;
    }

    method MigrateToManualBilling(g: MonthGrid.Grid, m: nat, ok: bool) returns (r: Option<Error>)
      requires g.Valid()
      modifies this
      ensures State() == Apply(g, old(State()), ToManual(m, ok))
      ensures match Operation(g, old(State()), ToManual(m, ok))
        case Ok(_) => r == None
        case Err(e) => r == Some(e)
    {
      if m >= |memberships| {
        return Some(NotFound);
      }
      var membership := memberships[m];
      if membership.mpPreapprovalId.Some? {
        var done := UpdatePreapproval(membership.mpPreapprovalId.value, ok, Status.CANCELLED);
        if !done {
          return Some(ExternalFailed);
        }
      }
      membership := membership.(mpPreapprovalId := None, subscriptionStatus := None, billingMode := MANUAL);
      memberships := memberships[m := membership];
      return None;
    }

    /** pauseSubscription with paused, resumeSubscription with authorized. */
    method PauseOrResume(m: nat, ok: bool, status: Status) returns (r: Option<Error>)
      modifies this
      ensures match SetSubscription(old(State()), m, ok, status)
        case Ok(s) => r == None && State() == s
        case Err(e) => r == Some(e) && State() == old(State())
    {
      if m >= |memberships| {
        return Some(NotFound);
      }
      if memberships[m].mpPreapprovalId.None? {
        return Some(NoSubscription);
      }
      var done := UpdatePreapproval(memberships[m].mpPreapprovalId.value, ok, status);
      if !done {
        return Some(ExternalFailed);
      }
      memberships := memberships[m := memberships[m].(subscriptionStatus := Some(status))];
      return None;
    }

    method CreatePaymentLink(m: nat, payment: Option<string>) returns (r: Option<Error>)
      modifies this
      ensures match GeneratePaymentLink(old(State()), m, payment)
        case Ok(s) => r == None && State() == s
        case Err(e) => r == Some(e) && State() == old(State())
    {
      if m >= |memberships| {
        return Some(NotFound);
      }
      if payment.None? {
        return Some(ExternalFailed);
      }
      memberships := memberships[m := memberships[m].(pendingPaymentId := payment, billingMode := MANUAL)];
      return None;
    }

    method ExtendMembership(g: MonthGrid.Grid, m: nat, periodMonths: int, now: int) returns (r: Option<Error>)
      requires g.Valid()
      modifies this
      ensures State() == Apply(g, old(State()), Extend(m, periodMonths, now))
      ensures r == if m < |old(memberships)| then None else Some(NotFound)
    {
      if m >= |memberships| {
        return Some(NotFound);
      }
      var membership := memberships[m];
      var currentExpires := if membership.expiresAt.Some? then membership.expiresAt.value else now;
      var newExpires := MonthGrid.TimePlusMonths(g, currentExpires, periodMonths);
      membership := membership.(expiresAt := Some(newExpires), isActive := true);
      if membership.pendingPaymentId.Some? {
        membership := membership.(pendingPaymentId := None);
      }
      memberships := memberships[m := membership];
      return None;
    }

    method ExtendMembershipFromPayment(g: MonthGrid.Grid, m: nat, paymentId: string, periodMonths: int, now: int)
      requires g.Valid() && m < |memberships|
      modifies this`memberships
      ensures State() == Apply(g, old(State()), Payment(m, paymentId, periodMonths, now))
    {
      var membership := memberships[m];
      var currentExpires := if membership.expiresAt.Some? then membership.expiresAt.value else now;
      var newExpires := MonthGrid.TimePlusMonths(g, currentExpires, periodMonths);
      membership := membership.(expiresAt := Some(newExpires), isActive := true);
      if membership.pendingPaymentId == Some(paymentId) {
        membership := membership.(pendingPaymentId := None);
      }
      memberships := memberships[m := membership];
    }

    method HandlePreapprovalWebhook(preapprovalId: nat, reachable: bool)
      modifies this
      ensures State() == PreapprovalWebhook(old(State()), preapprovalId, reachable)
    {
      if !reachable || preapprovalId >= |external| {
        return;
      }
      var status := external[preapprovalId].status;
      var found := FindByPreapproval(memberships, preapprovalId);
      if found.None? {
        return;
      }
      var membership := memberships[found.value].(subscriptionStatus := Some(status));
      if status == AUTHORIZED {
        membership := membership.(isActive := true);
      } else if status == Status.CANCELLED {
        membership := membership.(isActive := false);
      }
      memberships := memberships[found.value := membership];
    }
  }
}
