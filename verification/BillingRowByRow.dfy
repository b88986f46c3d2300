// What each billing operation does to the membership it reads, to the preapproval it uses, and to
// nothing else; and why it is refused.
module BillingRowByRow {
  import opened Prelude
  import opened Billing
  import MonthGrid

  /** Every membership but one is as it was. */
  predicate OthersKept(s: System, s': System, m: nat) {
    |s'.memberships| == |s.memberships|
    && forall i: nat :: i < |s.memberships| && i != m ==> s'.memberships[i] == s.memberships[i]
  }

  predicate OtherPreapprovalsKept(s: System, s': System, id: nat) {
    |s'.external| == |s.external| && forall i: nat :: i < |s.external| && i != id ==> s'.external[i] == s.external[i]
  }

  /** One more preapproval outside, stored by its membership with its status, in AUTO mode. */
  predicate Subscribed(s: System, s': System, m: nat, status: Status)
    requires m < |s.memberships|
  {
    && OthersKept(s, s', m) && s'.external == s.external + [Preapproval(m, status)]
    && s'.memberships[m].billingMode == AUTO && s'.memberships[m].isActive
    && s'.memberships[m].mpPreapprovalId == Some(|s.external|)
    && s'.memberships[m].subscriptionStatus == Some(status)
  }

  lemma EnableRows(g: MonthGrid.Grid, s: System, m: nat, created: Option<Status>, now: int)
    requires g.Valid()
    ensures match Operation(g, s, Enable(m, created, now))
      case Ok(s') =>
        && m < |s.memberships| && s.memberships[m].mpPreapprovalId.None? && created.Some?
        && Subscribed(s, s', m, created.value)
        && s'.memberships[m].pendingPaymentId == s.memberships[m].pendingPaymentId
        && s'.memberships[m].expiresAt == Some(MonthGrid.TimePlusMonths(g, now, 1))
      case Err(e) =>
        && e == (if m >= |s.memberships| then NotFound
                 else if s.memberships[m].mpPreapprovalId.Some? then Conflict else ExternalFailed)
        && (e == ExternalFailed ==> created.None?)
  {}

  lemma ToAutoRows(g: MonthGrid.Grid, s: System, m: nat, created: Option<Status>)
    requires g.Valid()
    ensures match Operation(g, s, ToAuto(m, created))
      case Ok(s') =>
        && m < |s.memberships| && s.memberships[m].mpPreapprovalId.None? && created.Some?
        && Subscribed(s, s', m, created.value)
        && s'.memberships[m].pendingPaymentId == None
        && s'.memberships[m].expiresAt == s.memberships[m].expiresAt
      case Err(e) =>
        && e == (if m >= |s.memberships| then NotFound
                 else if s.memberships[m].mpPreapprovalId.Some? then Conflict else ExternalFailed)
        && (e == ExternalFailed ==> created.None?)
  {}

  /** The stored preapproval, if there is one, is cancelled outside and forgotten. */
  lemma ToManualRows(g: MonthGrid.Grid, s: System, m: nat, ok: bool)
    requires g.Valid()
    ensures match Operation(g, s, ToManual(m, ok))
      case Ok(s') =>
        && m < |s.memberships| && OthersKept(s, s', m)
        && s'.memberships[m] == s.memberships[m].(
             mpPreapprovalId := None, subscriptionStatus := None, billingMode := MANUAL)
        && (match s.memberships[m].mpPreapprovalId
            case None => s'.external == s.external
            case Some(id) =>
              && ok && id < |s.external| && s.external[id].status != Status.CANCELLED
              && OtherPreapprovalsKept(s, s', id)
              && s'.external[id] == s.external[id].(status := Status.CANCELLED))
      case Err(e) =>
        && e == (if m >= |s.memberships| then NotFound else ExternalFailed)
        && (e == ExternalFailed ==> UpdateFails(s, m, ok))
  {}

  /** The stored preapproval cannot be updated: the call fails, or it is cancelled or unknown. */
  predicate UpdateFails(s: System, m: nat, ok: bool)
    requires m < |s.memberships|
  {
    var id := s.memberships[m].mpPreapprovalId;
    id.Some? && (!ok || id.value >= |s.external| || s.external[id.value].status == Status.CANCELLED)
  }

  /** Pausing and resuming give the stored preapproval and its local copy the same new status. */
  lemma PauseAndResumeRows(g: MonthGrid.Grid, s: System, m: nat, ok: bool, pause: bool)
    requires g.Valid()
    ensures var status := if pause then PAUSED else AUTHORIZED;
      match Operation(g, s, if pause then Pause(m, ok) else Resume(m, ok))
      case Ok(s') =>
        && m < |s.memberships| && s.memberships[m].mpPreapprovalId.Some? && OthersKept(s, s', m)
        && s'.memberships[m] == s.memberships[m].(subscriptionStatus := Some(status))
        && (var id := s.memberships[m].mpPreapprovalId.value;
            && ok && id < |s.external| && s.external[id].status != Status.CANCELLED
            && OtherPreapprovalsKept(s, s', id) && s'.external[id] == s.external[id].(status := status))
      case Err(e) =>
        && e == (if m >= |s.memberships| then NotFound
                 else if s.memberships[m].mpPreapprovalId.None? then NoSubscription else ExternalFailed)
        && (e == ExternalFailed ==> UpdateFails(s, m, ok))
  {}

  lemma PaymentLinkRows(g: MonthGrid.Grid, s: System, m: nat, payment: Option<string>)
    requires g.Valid()
    ensures match Operation(g, s, PaymentLink(m, payment))
      case Ok(s') =>
        && m < |s.memberships| && payment.Some? && OthersKept(s, s', m) && s'.external == s.external
        && s'.memberships[m] == s.memberships[m].(pendingPaymentId := payment, billingMode := MANUAL)
      case Err(e) =>
        e == (if m >= |s.memberships| then NotFound else ExternalFailed) && (e == ExternalFailed ==> payment.None?)
  {}

  /** Extensions leave mode, preapproval and its status alone; ExtensionExactly says the rest. */
  lemma ExtensionRows(g: MonthGrid.Grid, s: System, step: Step)
    requires g.Valid() && (step.Extend? || step.Payment?)
    ensures match Operation(g, s, step)
      case Ok(s') =>
        && step.m < |s.memberships| && OthersKept(s, s', step.m) && s'.external == s.external
        && s'.memberships[step.m].billingMode == s.memberships[step.m].billingMode
        && s'.memberships[step.m].mpPreapprovalId == s.memberships[step.m].mpPreapprovalId
        && s'.memberships[step.m].subscriptionStatus == s.memberships[step.m].subscriptionStatus
      case Err(e) => e == NotFound && step.m >= |s.memberships|
  {}

  /** A notification about the preapproval a membership stores copies its status: authorized
      activates, cancelled deactivates, any other leaves it active or not. */
  lemma NotificationRows(g: MonthGrid.Grid, s: System, id: nat, m: nat)
    requires g.Valid() && Linked(s) && m < |s.memberships| && s.memberships[m].mpPreapprovalId == Some(id)
    ensures var s', status := Apply(g, s, Webhook(id, true)), s.external[id].status;
      && OthersKept(s, s', m) && s'.external == s.external
      && s'.memberships[m] == s.memberships[m].(
           subscriptionStatus := Some(status),
           isActive := if status == AUTHORIZED then true
                       else if status == Status.CANCELLED then false else s.memberships[m].isActive)
  {
    assert FindByPreapproval(s.memberships, id) == Some(m);
  }

  /** One that cannot be read, or that no membership stores, changes nothing. */
  lemma StrayNotification(g: MonthGrid.Grid, s: System, id: nat, reachable: bool)
    requires g.Valid()
    requires !reachable || id >= |s.external|
          || forall m :: 0 <= m < |s.memberships| ==> s.memberships[m].mpPreapprovalId != Some(id)
    ensures Apply(g, s, Webhook(id, reachable)) == s
  {}

  /** A change outside touches one preapproval, unless it is cancelled, and no membership. */
  lemma OutsideRows(g: MonthGrid.Grid, s: System, id: nat, status: Status)
    requires g.Valid()
    ensures var s' := Apply(g, s, External(id, status));
      && s'.memberships == s.memberships && OtherPreapprovalsKept(s, s', id)
      && (id < |s.external| ==>
            s'.external[id] == if s.external[id].status == Status.CANCELLED then s.external[id]
                               else s.external[id].(status := status))
  {}
}
