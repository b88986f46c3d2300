// The billing operations call by call: each reads the membership, awaits the external service, and
// saves the whole row it read and changed, with other calls and the subscriber in between.
module SubscriptionCalls {
  import opened Prelude
  import opened Billing
  import MonthGrid

  /** An update of a preapproval that a call awaits before it saves. */
  datatype Gate = Gate(id: nat, status: Status)

  /** A call under way, with the row it is going to save: one that switches to automatic billing
      and has passed its test, the same once the preapproval is created, any other one, or none. */
  datatype Call =
    | Switching(m: nat, row: Membership)
    | Created(m: nat, row: Membership, id: nat, status: Status)
    | Writing(m: nat, row: Membership, gate: Option<Gate>)
    | Over

  datatype State = State(s: System, calls: seq<Call>)

  datatype Event =
    | Begin(step: Billing.Step)
    | Create(k: nat, status: Status)
    | Open(k: nat)
    | Store(k: nat)
    | Abandon(k: nat)
    | Outside(id: nat, status: Status)

  predicate Switches(step: Billing.Step) {
    step.Enable? || step.ToAuto?
  }

  datatype Plan = Plan(m: nat, row: Membership, gate: Option<Gate>)

  /** The membership an operation reads. */
  function Subject(s: System, step: Billing.Step): Option<nat> {
    match step
    case Webhook(id, reachable) =>
      if reachable && id < |s.external| then FindByPreapproval(s.memberships, id) else None
    case External(_, _) => None
    case _ => if step.m < |s.memberships| then Some(step.m) else None
  }

  /** What an operation makes of the row it reads; None when it is refused or fails before. */
  function Planned(g: MonthGrid.Grid, s: System, step: Billing.Step): Option<Plan>
    requires g.Valid()
  {
    var subject := Subject(s, step);
    if subject.None? || subject.value >= |s.memberships| then None
    else
      var m, x := subject.value, s.memberships[subject.value];
      var id := x.mpPreapprovalId;
      match step
      case Enable(_, _, now) =>
        if id.Some? then None
        else
          var expiresAt := Some(MonthGrid.TimePlusMonths(g, now, 1));
          Some(Plan(m, x.(billingMode := AUTO, isActive := true, expiresAt := expiresAt), None))
      case ToAuto(_, _) =>
        if id.Some? then None
        else Some(Plan(m, x.(pendingPaymentId := None, billingMode := AUTO, isActive := true), None))
      case ToManual(_, _) =>
        var row := x.(mpPreapprovalId := None, subscriptionStatus := None, billingMode := MANUAL);
        Some(Plan(m, row, if id.Some? then Some(Gate(id.value, Status.CANCELLED)) else None))
      case Pause(_, _) => Gated(m, x, PAUSED)
      case Resume(_, _) => Gated(m, x, AUTHORIZED)
      case PaymentLink(_, payment) =>
        if payment.None? then None
        else Some(Plan(m, x.(pendingPaymentId := payment, billingMode := MANUAL), None))
      case Extend(_, months, now) => Some(Plan(m, Extended(g, x, months, now).(pendingPaymentId := None), None))
      case Payment(_, paymentId, months, now) =>
        var row := Extended(g, x, months, now);
        Some(Plan(m, if row.pendingPaymentId == Some(paymentId) then row.(pendingPaymentId := None) else row, None))
      case Webhook(w, _) => Some(Plan(m, PreapprovalWebhook(s, w, true).memberships[m], None))
      case External(_, _) => None
  }

  function Gated(m: nat, x: Membership, status: Status): Option<Plan> {
    match x.mpPreapprovalId
    case None => None
    case Some(id) => Some(Plan(m, x.(subscriptionStatus := Some(status)), Some(Gate(id, status))))
  }

  predicate Savable(call: Call) {
    call.Created? || (call.Writing? && call.gate.None?)
  }

  function SavedRow(call: Call): Membership
    requires Savable(call)
  {
    if call.Created? then call.row.(mpPreapprovalId := Some(call.id), subscriptionStatus := Some(call.status))
    else call.row
  }

  /** One event; an event its call is not ready for changes nothing. Abandon stands for anything a
      call awaits that fails. */
  function Next(g: MonthGrid.Grid, st: State, e: Event): State
    requires g.Valid()
  {
    match e
    case Begin(step) =>
      (match Planned(g, st.s, step)
       case None => st
       case Some(Plan(m, row, gate)) =>
         st.(calls := st.calls + [if Switches(step) then Switching(m, row) else Writing(m, row, gate)]))
    case Create(k, status) =>
      if k >= |st.calls| || !st.calls[k].Switching? then st
      else
        var m := st.calls[k].m;
        State(st.s.(external := st.s.external + [Preapproval(m, status)]),
              st.calls[k := Created(m, st.calls[k].row, |st.s.external|, status)])
    case Open(k) =>
      if k >= |st.calls| || !st.calls[k].Writing? || st.calls[k].gate.None? then st
      else
        (match Update(st.s.external, st.calls[k].gate.value.id, true, st.calls[k].gate.value.status)
         case None => st
         case Some(external) => State(st.s.(external := external), st.calls[k := st.calls[k].(gate := None)]))
    case Store(k) =>
      if k >= |st.calls| || !Savable(st.calls[k]) || st.calls[k].m >= |st.s.memberships| then st
      else State(Save(st.s, st.calls[k].m, SavedRow(st.calls[k])), st.calls[k := Over])
    case Abandon(k) => if k >= |st.calls| then st else st.(calls := st.calls[k := Over])
    case Outside(id, status) => st.(s := ExternalChange(st.s, id, status))
  }

  function RunEvents(g: MonthGrid.Grid, st: State, es: seq<Event>): State
    requires g.Valid()
    decreases |es|
  {
    if es == [] then st else RunEvents(g, Next(g, st, es[0]), es[1..])
  }

  lemma OneMoreEvent(g: MonthGrid.Grid, st: State, a: Event, es: seq<Event>)
    requires g.Valid()
    ensures RunEvents(g, st, [a] + es) == RunEvents(g, Next(g, st, a), es)
    ensures TidyRun(g, st, [a] + es) <==> Tidy(g, st, a) && TidyRun(g, Next(g, st, a), es)
  {
    assert ([a] + es)[1..] == es;
  }

  // ------------------------------------------------------------------------ the promise

  predicate StoredBy(s: System, id: nat)
    requires id < |s.external|
  {
    s.external[id].membershipId < |s.memberships|
    && s.memberships[s.external[id].membershipId].mpPreapprovalId == Some(id)
  }

  predicate Carries(call: Call, id: int) {
    call.Created? && call.id == id
  }

  /** Every preapproval that is not cancelled is stored by its membership, or about to be. */
  ghost predicate Traced(st: State) {
    forall i: nat :: LiveId(st.s, i) ==>
      StoredBy(st.s, i) || exists k :: 0 <= k < |st.calls| && Carries(st.calls[k], i)
  }

  /** And a membership has at most one of them. */
  ghost predicate Single(st: State) {
    && (forall i: nat, j: nat ::
          (LiveId(st.s, i) && LiveId(st.s, j)
           && st.s.external[i].membershipId == st.s.external[j].membershipId) ==> i == j)
    && Traced(st)
  }

  predicate On(call: Call, m: nat) {
    !call.Over? && call.m == m
  }

  /** The call may still save: nothing it awaits is bound to fail. */
  predicate Pending(s: System, call: Call) {
    call.Switching? || call.Created?
    || (call.Writing? && (call.gate.None? || LiveId(s, call.gate.value.id)))
  }

  /** The call may still bring a live preapproval. */
  predicate Hot(s: System, call: Call) {
    call.Switching? || (call.Created? && LiveId(s, call.id))
  }

  /** What the service would have to see to: no switch begins beside a call on its membership that
      may still save, no other operation begins beside a switch that may still bring a live
      preapproval, and none that was created is dropped while it is live. */
  predicate Tidy(g: MonthGrid.Grid, st: State, e: Event)
    requires g.Valid()
  {
    match e
    case Begin(step) =>
      (match Planned(g, st.s, step)
       case None => true
       case Some(plan) =>
         forall k :: 0 <= k < |st.calls| && On(st.calls[k], plan.m) ==>
           if Switches(step) then !Pending(st.s, st.calls[k]) else !Hot(st.s, st.calls[k]))
    case Abandon(k) => k < |st.calls| && st.calls[k].Created? ==> !LiveId(st.s, st.calls[k].id)
    case _ => true
  }

  predicate TidyRun(g: MonthGrid.Grid, st: State, es: seq<Event>)
    requires g.Valid()
    decreases |es|
  {
    es == [] || (Tidy(g, st, es[0]) && TidyRun(g, Next(g, st, es[0]), es[1..]))
  }

  // ---------------------------------------------------------------------- the invariant

  predicate OwnId(s: System, m: nat, id: nat) {
    id < |s.external| && s.external[id].membershipId == m
  }

  predicate OwnRow(s: System, m: nat, x: Membership) {
    (x.billingMode == AUTO ==> x.mpPreapprovalId.Some?)
    && (x.mpPreapprovalId.Some? ==> OwnId(s, m, x.mpPreapprovalId.value))
  }

  predicate OwnIds(s: System) {
    forall m :: 0 <= m < |s.memberships| ==> OwnRow(s, m, s.memberships[m])
  }

  /** What a call carries belongs to its membership; a gate is about the preapproval of its row. */
  predicate OwnCall(s: System, call: Call) {
    !call.Over? ==>
      && call.m < |s.memberships|
      && (call.Created? ==> OwnId(s, call.m, call.id))
      && (call.Writing? ==> OwnRow(s, call.m, call.row))
      && (call.Writing? && call.gate.Some? ==>
            OwnId(s, call.m, call.gate.value.id)
            && if call.gate.value.status == Status.CANCELLED then call.row.mpPreapprovalId.None?
               else call.row.mpPreapprovalId == Some(call.gate.value.id))
  }

  predicate OwnCalls(st: State) {
    forall k :: 0 <= k < |st.calls| ==> OwnCall(st.s, st.calls[k])
  }

  /** A hot call is alone: nothing else on its membership may still save. */
  predicate Apart(s: System, a: Call, b: Call) {
    !a.Over? && !b.Over? && a.m == b.m && Hot(s, a) ==> !Pending(s, b)
  }

  predicate AllApart(st: State) {
    forall j, k :: 0 <= j < |st.calls| && 0 <= k < |st.calls| && j != k ==> Apart(st.s, st.calls[j], st.calls[k])
  }

  /** A hot call found nothing stored; and a call that may still save beside a live stored
      preapproval is going to save it again, or to cancel it first. */
  predicate Follows(s: System, call: Call) {
    !call.Over? && call.m < |s.memberships| ==>
      var stored := s.memberships[call.m].mpPreapprovalId;
      && (Hot(s, call) ==> stored.None?)
      && (Pending(s, call) && stored.Some? && LiveId(s, stored.value) ==>
            call.Writing?
            && (call.row.mpPreapprovalId == stored || call.gate == Some(Gate(stored.value, Status.CANCELLED))))
  }

  predicate AllFollow(st: State) {
    forall k :: 0 <= k < |st.calls| ==> Follows(st.s, st.calls[k])
  }

  ghost predicate Orderly(st: State) {
    OwnIds(st.s) && OwnCalls(st) && AllApart(st) && AllFollow(st) && Traced(st)
  }

  /** A hot call is the only one on its membership that may still save. */
  lemma HotIsAlone(st: State, k: nat, j: nat)
    requires Orderly(st) && k < |st.calls| && j < |st.calls| && Hot(st.s, st.calls[k]) && Pending(st.s, st.calls[j])
    requires st.calls[k].m == st.calls[j].m
    ensures k == j
  {
    assert k == j || Apart(st.s, st.calls[k], st.calls[j]);
  }

  /** A live preapproval of a membership that does not store it is carried by a hot call there. */
  lemma CarriedHot(st: State, id: nat) returns (k: nat)
    requires Orderly(st) && LiveId(st.s, id) && !StoredBy(st.s, id)
    ensures k < |st.calls| && Carries(st.calls[k], id) && Hot(st.s, st.calls[k])
    ensures st.calls[k].m == st.s.external[id].membershipId
  {
    k :| 0 <= k < |st.calls| && Carries(st.calls[k], id);
    assert OwnCall(st.s, st.calls[k]);
  }

  lemma CarriedIsAlone(st: State, i: nat, j: nat)
    requires Orderly(st) && LiveId(st.s, i) && !StoredBy(st.s, i) && LiveId(st.s, j)
    requires st.s.external[i].membershipId == st.s.external[j].membershipId
    ensures i == j
  {
    var k := CarriedHot(st, i);
    assert Follows(st.s, st.calls[k]) && OwnCall(st.s, st.calls[k]);
    assert !StoredBy(st.s, j);
    var n := CarriedHot(st, j);
    HotIsAlone(st, k, n);
  }

  lemma OrderlyIsSingle(st: State)
    requires Orderly(st)
    ensures Single(st)
  {
    forall i: nat, j: nat | LiveId(st.s, i) && LiveId(st.s, j)
        && st.s.external[i].membershipId == st.s.external[j].membershipId
      ensures i == j
    {
      if !StoredBy(st.s, i) {
        CarriedIsAlone(st, i, j);
      } else if !StoredBy(st.s, j) {
        CarriedIsAlone(st, j, i);
      }
    }
  }

  // ------------------------------------------------------------------ event by event

  /** The subscriber or the service itself changes a status. */
  lemma OrderlyOutside(g: MonthGrid.Grid, st: State, id: nat, status: Status)
    requires g.Valid() && Orderly(st)
    ensures Orderly(Next(g, st, Outside(id, status)))
  {
    var st' := Next(g, st, Outside(id, status));
    assert forall i: nat :: LiveId(st'.s, i) ==> LiveId(st.s, i);
    forall k | 0 <= k < |st'.calls| ensures OwnCall(st'.s, st'.calls[k]) && Follows(st'.s, st'.calls[k]) {
      assert OwnCall(st.s, st.calls[k]) && Follows(st.s, st.calls[k]);
    }
    forall j, k | 0 <= j < |st'.calls| && 0 <= k < |st'.calls| && j != k
      ensures Apart(st'.s, st'.calls[j], st'.calls[k])
    {
      assert Apart(st.s, st.calls[j], st.calls[k]);
    }
  }

  lemma OrderlyOpen(g: MonthGrid.Grid, st: State, k: nat)
    requires g.Valid() && Orderly(st) && Next(g, st, Open(k)) != st
    ensures Orderly(Next(g, st, Open(k)))
  {
    var st' := Next(g, st, Open(k));
    assert forall i: nat :: LiveId(st'.s, i) ==> LiveId(st.s, i);
    forall n | 0 <= n < |st'.calls| ensures OwnCall(st'.s, st'.calls[n]) && Follows(st'.s, st'.calls[n]) {
      assert OwnCall(st.s, st.calls[n]) && Follows(st.s, st.calls[n]);
    }
    forall i, j | 0 <= i < |st'.calls| && 0 <= j < |st'.calls| && i != j
      ensures Apart(st'.s, st'.calls[i], st'.calls[j])
    {
      assert Apart(st.s, st.calls[i], st.calls[j]);
    }
    TracedByCalls(st, st');
  }

  /** Traces survive when rows stay, no preapproval becomes live, and creations stay carried. */
  lemma TracedByCalls(st: State, st': State)
    requires Traced(st) && |st'.calls| >= |st.calls| && st'.s.memberships == st.s.memberships
    requires forall i: nat :: LiveId(st'.s, i) ==>
      LiveId(st.s, i) && st'.s.external[i].membershipId == st.s.external[i].membershipId
    requires forall k :: 0 <= k < |st.calls| && st.calls[k].Created? && LiveId(st'.s, st.calls[k].id) ==>
      st'.calls[k] == st.calls[k]
    ensures Traced(st')
  {
    forall i: nat | LiveId(st'.s, i)
      ensures StoredBy(st'.s, i) || exists k :: 0 <= k < |st'.calls| && Carries(st'.calls[k], i)
    {
      assert LiveId(st.s, i);
      if !StoredBy(st.s, i) {
        var k :| 0 <= k < |st.calls| && Carries(st.calls[k], i);
        assert Carries(st'.calls[k], i);
      }
    }
  }

  lemma OrderlyCreate(g: MonthGrid.Grid, st: State, k: nat, status: Status)
    requires g.Valid() && Orderly(st) && k < |st.calls| && st.calls[k].Switching?
    ensures Orderly(Next(g, st, Create(k, status)))
  {
    var st' := Next(g, st, Create(k, status));
    forall m | 0 <= m < |st'.s.memberships| ensures OwnRow(st'.s, m, st'.s.memberships[m]) {
      assert OwnRow(st.s, m, st.s.memberships[m]);
    }
    forall n | 0 <= n < |st'.calls| ensures OwnCall(st'.s, st'.calls[n]) && Follows(st'.s, st'.calls[n]) {
      assert OwnCall(st.s, st.calls[n]) && Follows(st.s, st.calls[n]);
      assert OwnRow(st.s, st.calls[k].m, st.s.memberships[st.calls[k].m]);
    }
    forall i, j | 0 <= i < |st'.calls| && 0 <= j < |st'.calls| && i != j
      ensures Apart(st'.s, st'.calls[i], st'.calls[j])
    {
      assert Apart(st.s, st.calls[i], st.calls[j]) && OwnCall(st.s, st.calls[i]) && OwnCall(st.s, st.calls[j]);
    }
    forall i: nat | LiveId(st'.s, i)
      ensures StoredBy(st'.s, i) || exists n :: 0 <= n < |st'.calls| && Carries(st'.calls[n], i)
    {
      if i < |st.s.external| {
        assert LiveId(st.s, i);
        if !StoredBy(st.s, i) {
          var n :| 0 <= n < |st.calls| && Carries(st.calls[n], i);
          assert Carries(st'.calls[n], i);
        }
      } else {
        assert Carries(st'.calls[k], i);
      }
    }
  }

  /** What a save leaves traced. */
  lemma TracedStore(g: MonthGrid.Grid, st: State, k: nat)
    requires g.Valid() && Orderly(st) && k < |st.calls| && Savable(st.calls[k])
    ensures Traced(Next(g, st, Store(k)))
  {
    var st' := Next(g, st, Store(k));
    assert OwnCall(st.s, st.calls[k]) && Follows(st.s, st.calls[k]);
    forall i: nat | LiveId(st'.s, i)
      ensures StoredBy(st'.s, i) || exists n :: 0 <= n < |st'.calls| && Carries(st'.calls[n], i)
    {
      assert LiveId(st.s, i);
      if !StoredBy(st.s, i) {
        var n := CarriedHot(st, i);
        if n != k { assert Carries(st'.calls[n], i); }
      }
    }
  }

  /** What a save leaves the other calls of its membership. */
  lemma FollowsStore(g: MonthGrid.Grid, st: State, k: nat, n: nat)
    requires g.Valid() && Orderly(st) && k < |st.calls| && Savable(st.calls[k]) && n < |st.calls| && n != k
    ensures Follows(Next(g, st, Store(k)).s, st.calls[n])
  {
    var s' := Next(g, st, Store(k)).s;
    var call, saved := st.calls[n], SavedRow(st.calls[k]).mpPreapprovalId;
    assert Follows(st.s, call) && Follows(st.s, st.calls[k]) && OwnCall(st.s, st.calls[k]);
    assert Apart(st.s, call, st.calls[k]) && Apart(st.s, st.calls[k], call);
    if On(call, st.calls[k].m) && saved.Some? && LiveId(st.s, saved.value) && !StoredBy(st.s, saved.value) {
      var c := CarriedHot(st, saved.value);
      assert c == k || Apart(st.s, st.calls[c], st.calls[k]);
    }
  }

  lemma OrderlyStore(g: MonthGrid.Grid, st: State, k: nat)
    requires g.Valid() && Orderly(st) && k < |st.calls| && Savable(st.calls[k])
    ensures Orderly(Next(g, st, Store(k)))
  {
    var st' := Next(g, st, Store(k));
    assert OwnCall(st.s, st.calls[k]);
    forall m | 0 <= m < |st'.s.memberships| ensures OwnRow(st'.s, m, st'.s.memberships[m]) {
      assert OwnRow(st.s, m, st.s.memberships[m]);
    }
    forall n | 0 <= n < |st'.calls| ensures OwnCall(st'.s, st'.calls[n]) && Follows(st'.s, st'.calls[n]) {
      assert OwnCall(st.s, st.calls[n]);
      if n != k { FollowsStore(g, st, k, n); }
    }
    forall i, j | 0 <= i < |st'.calls| && 0 <= j < |st'.calls| && i != j
      ensures Apart(st'.s, st'.calls[i], st'.calls[j])
    {
      assert Apart(st.s, st.calls[i], st.calls[j]);
    }
    TracedStore(g, st, k);
  }

  lemma OrderlyAbandon(g: MonthGrid.Grid, st: State, k: nat)
    requires g.Valid() && Orderly(st) && k < |st.calls| && Tidy(g, st, Abandon(k))
    ensures Orderly(Next(g, st, Abandon(k)))
  {
    var st' := Next(g, st, Abandon(k));
    forall n | 0 <= n < |st'.calls| ensures OwnCall(st'.s, st'.calls[n]) && Follows(st'.s, st'.calls[n]) {
      assert OwnCall(st.s, st.calls[n]) && Follows(st.s, st.calls[n]);
    }
    forall i, j | 0 <= i < |st'.calls| && 0 <= j < |st'.calls| && i != j
      ensures Apart(st'.s, st'.calls[i], st'.calls[j])
    {
      assert Apart(st.s, st.calls[i], st.calls[j]);
    }
    TracedByCalls(st, st');
  }

  /** What a call that begins is about to save. */
  lemma PlanFacts(g: MonthGrid.Grid, s: System, step: Billing.Step)
    requires g.Valid() && OwnIds(s) && Planned(g, s, step).Some?
    ensures var Plan(m, row, gate) := Planned(g, s, step).value;
      && m < |s.memberships|
      && (Switches(step) ==> s.memberships[m].mpPreapprovalId.None?)
      && (!Switches(step) ==>
            && OwnCall(s, Writing(m, row, gate)) && Follows(s, Writing(m, row, gate))
            && (s.memberships[m].mpPreapprovalId.None? ==> gate.None? && row.mpPreapprovalId.None?))
  {
    var m := Planned(g, s, step).value.m;
    assert OwnRow(s, m, s.memberships[m]);
  }

  lemma OrderlyBegin(g: MonthGrid.Grid, st: State, step: Billing.Step)
    requires g.Valid() && Orderly(st) && Tidy(g, st, Begin(step)) && Planned(g, st.s, step).Some?
    ensures Orderly(Next(g, st, Begin(step)))
  {
    var st' := Next(g, st, Begin(step));
    PlanFacts(g, st.s, step);
    forall n | 0 <= n < |st'.calls| ensures OwnCall(st'.s, st'.calls[n]) && Follows(st'.s, st'.calls[n]) {
      if n < |st.calls| { assert OwnCall(st.s, st.calls[n]) && Follows(st.s, st.calls[n]); }
    }
    forall i, j | 0 <= i < |st'.calls| && 0 <= j < |st'.calls| && i != j
      ensures Apart(st'.s, st'.calls[i], st'.calls[j])
    {
      if i < |st.calls| && j < |st.calls| { assert Apart(st.s, st.calls[i], st.calls[j]); }
    }
    TracedByCalls(st, st');
  }

  lemma OrderlyStep(g: MonthGrid.Grid, st: State, e: Event)
    requires g.Valid() && Orderly(st) && Tidy(g, st, e)
    ensures Orderly(Next(g, st, e))
  {
    if Next(g, st, e) != st {
      match e
      case Begin(step) => OrderlyBegin(g, st, step);
      case Create(k, status) => OrderlyCreate(g, st, k, status);
      case Open(k) => OrderlyOpen(g, st, k);
      case Store(k) => OrderlyStore(g, st, k);
      case Abandon(k) => OrderlyAbandon(g, st, k);
      case Outside(id, status) => OrderlyOutside(g, st, id, status);
    }
  }

  lemma {:induction false} RunOrderly(g: MonthGrid.Grid, st: State, es: seq<Event>)
    requires g.Valid() && Orderly(st) && TidyRun(g, st, es)
    ensures Orderly(RunEvents(g, st, es))
    decreases |es|
  {
    if es != [] {
      OrderlyStep(g, st, es[0]);
      RunOrderly(g, Next(g, st, es[0]), es[1..]);
    }
  }

  // ------------------------------------------------------------------- exactly when

  /** Single now and after all further events, as long as those are tidy. */
  ghost predicate StaysSingle(g: MonthGrid.Grid, st: State)
    requires g.Valid()
  {
    forall es :: TidyRun(g, st, es) ==> Single(RunEvents(g, st, es))
  }

  /** What breaks after a tidy event is broken before it. */
  lemma BreaksEarlier(g: MonthGrid.Grid, st: State, e: Event)
    requires g.Valid() && Tidy(g, st, e) && !StaysSingle(g, Next(g, st, e))
    ensures !StaysSingle(g, st)
  {
    var es :| TidyRun(g, Next(g, st, e), es) && !Single(RunEvents(g, Next(g, st, e), es));
    OneMoreEvent(g, st, e, es);
  }

  lemma BrokenNow(g: MonthGrid.Grid, st: State)
    requires g.Valid() && !Single(st)
    ensures !StaysSingle(g, st)
  {
    assert TidyRun(g, st, []) && RunEvents(g, st, []) == st;
  }

  /** Two switches past their test on one membership may both create. */
  lemma BothCreate(g: MonthGrid.Grid, st: State, j: nat, k: nat)
    requires g.Valid() && j != k && j < |st.calls| && k < |st.calls|
    requires st.calls[j].Switching? && st.calls[k].Switching? && st.calls[j].m == st.calls[k].m
    ensures !StaysSingle(g, st)
  {
    var st1, n := Next(g, st, Create(j, AUTHORIZED)), |st.s.external|;
    var st2 := Next(g, st1, Create(k, AUTHORIZED));
    assert LiveId(st2.s, n) && LiveId(st2.s, n + 1);
    assert st2.s.external[n].membershipId == st2.s.external[n + 1].membershipId;
    BrokenNow(g, st2);
    BreaksEarlier(g, st1, Create(k, AUTHORIZED));
    BreaksEarlier(g, st, Create(j, AUTHORIZED));
  }

  /** A live preapproval saved by one call is lost when another one saves its own row after it. */
  lemma SavedOver(g: MonthGrid.Grid, st: State, k: nat, j: nat)
    requires g.Valid() && OwnCalls(st) && j != k && j < |st.calls| && k < |st.calls|
    requires st.calls[k].Created? && LiveId(st.s, st.calls[k].id)
    requires Savable(st.calls[j]) && st.calls[j].m == st.calls[k].m
    requires SavedRow(st.calls[j]).mpPreapprovalId != Some(st.calls[k].id)
    requires forall n :: 0 <= n < |st.calls| && n != k ==> !Carries(st.calls[n], st.calls[k].id)
    ensures !StaysSingle(g, st)
  {
    var id := st.calls[k].id;
    assert OwnCall(st.s, st.calls[k]);
    var st1 := Next(g, st, Store(k));
    var st2 := Next(g, st1, Store(j));
    assert LiveId(st2.s, id) && !StoredBy(st2.s, id);
    assert forall n :: 0 <= n < |st2.calls| ==> !Carries(st2.calls[n], id);
    BrokenNow(g, st2);
    BreaksEarlier(g, st1, Store(j));
    BreaksEarlier(g, st, Store(k));
  }

  /** So is one that a switch has yet to create. */
  lemma CreatedAndSavedOver(g: MonthGrid.Grid, st: State, k: nat, j: nat)
    requires g.Valid() && OwnCalls(st) && j != k && j < |st.calls| && k < |st.calls|
    requires st.calls[k].Switching? && Savable(st.calls[j]) && st.calls[j].m == st.calls[k].m
    ensures !StaysSingle(g, st)
  {
    var st1 := Next(g, st, Create(k, AUTHORIZED));
    forall n | 0 <= n < |st1.calls| ensures OwnCall(st1.s, st1.calls[n]) {
      assert OwnCall(st.s, st.calls[n]);
    }
    assert OwnCall(st.s, st.calls[j]);
    SavedOver(g, st1, k, j);
    BreaksEarlier(g, st, Create(k, AUTHORIZED));
  }

  /** A gate on a live preapproval that its membership does not store is on a call beside a hot one. */
  lemma GateIsStored(st: State, j: nat)
    requires Orderly(st) && j < |st.calls| && st.calls[j].Writing? && st.calls[j].gate.Some?
    requires LiveId(st.s, st.calls[j].gate.value.id)
    ensures StoredBy(st.s, st.calls[j].gate.value.id)
  {
    var id := st.calls[j].gate.value.id;
    assert OwnCall(st.s, st.calls[j]);
    if !StoredBy(st.s, id) {
      var k := CarriedHot(st, id);
      HotIsAlone(st, k, j);
    }
  }

  lemma OwnCallsBegun(g: MonthGrid.Grid, st: State, step: Billing.Step)
    requires g.Valid() && Orderly(st) && Planned(g, st.s, step).Some?
    ensures OwnCalls(Next(g, st, Begin(step)))
  {
    var st' := Next(g, st, Begin(step));
    PlanFacts(g, st.s, step);
    forall n | 0 <= n < |st'.calls| ensures OwnCall(st'.s, st'.calls[n]) {
      if n < |st.calls| { assert OwnCall(st.s, st.calls[n]); }
    }
  }

  /** A switch that begins beside a call that may still save. */
  lemma SwitchBreaks(g: MonthGrid.Grid, st: State, step: Billing.Step)
    requires g.Valid() && Orderly(st) && Switches(step) && !Tidy(g, st, Begin(step))
    ensures !StaysSingle(g, Next(g, st, Begin(step)))
  {
    var st', k, m := Next(g, st, Begin(step)), |st.calls|, Planned(g, st.s, step).value.m;
    var j :| 0 <= j < |st.calls| && On(st.calls[j], m) && Pending(st.s, st.calls[j]);
    PlanFacts(g, st.s, step);
    OwnCallsBegun(g, st, step);
    assert OwnCall(st.s, st.calls[j]) && st'.calls[j] == st.calls[j];
    if st.calls[j].Switching? {
      BothCreate(g, st', j, k);
    } else {
      if st.calls[j].Writing? && st.calls[j].gate.Some? {
        GateIsStored(st, j);
        assert false;
      }
      CreatedAndSavedOver(g, st', k, j);
    }
  }

  /** Any other operation that begins beside a switch that may still bring a live preapproval. */
  lemma WriteBreaks(g: MonthGrid.Grid, st: State, step: Billing.Step)
    requires g.Valid() && Orderly(st) && !Switches(step) && !Tidy(g, st, Begin(step))
    ensures !StaysSingle(g, Next(g, st, Begin(step)))
  {
    var st', j, m := Next(g, st, Begin(step)), |st.calls|, Planned(g, st.s, step).value.m;
    var k :| 0 <= k < |st.calls| && On(st.calls[k], m) && Hot(st.s, st.calls[k]);
    PlanFacts(g, st.s, step);
    OwnCallsBegun(g, st, step);
    assert OwnCall(st.s, st.calls[k]) && Follows(st.s, st.calls[k]) && st'.calls[k] == st.calls[k];
    if st.calls[k].Switching? {
      CreatedAndSavedOver(g, st', k, j);
    } else {
      CarriedOnce(st, k);
      SavedOver(g, st', k, j);
    }
  }

  lemma CarriedOnce(st: State, k: nat)
    requires Orderly(st) && k < |st.calls| && st.calls[k].Created? && LiveId(st.s, st.calls[k].id)
    ensures forall n :: 0 <= n < |st.calls| && n != k ==> !Carries(st.calls[n], st.calls[k].id)
  {
    forall n | 0 <= n < |st.calls| && n != k ensures !Carries(st.calls[n], st.calls[k].id) {
      assert Apart(st.s, st.calls[k], st.calls[n]) && OwnCall(st.s, st.calls[k]) && OwnCall(st.s, st.calls[n]);
    }
  }

  lemma DroppingBreaks(g: MonthGrid.Grid, st: State, k: nat)
    requires g.Valid() && Orderly(st) && !Tidy(g, st, Abandon(k))
    ensures !StaysSingle(g, Next(g, st, Abandon(k)))
  {
    var st', id := Next(g, st, Abandon(k)), st.calls[k].id;
    assert OwnCall(st.s, st.calls[k]) && Follows(st.s, st.calls[k]);
    CarriedOnce(st, k);
    assert LiveId(st'.s, id) && !StoredBy(st'.s, id);
    assert forall n :: 0 <= n < |st'.calls| ==> !Carries(st'.calls[n], id);
    BrokenNow(g, st');
  }

  /** From an orderly state a membership keeps its single subscription, whatever tidy events
      follow, if and only if the event is tidy. */
  lemma SingleIffTidy(g: MonthGrid.Grid, st: State, e: Event)
    requires g.Valid() && Orderly(st)
    ensures StaysSingle(g, Next(g, st, e)) <==> Tidy(g, st, e)
  {
    var next := Next(g, st, e);
    if Tidy(g, st, e) {
      OrderlyStep(g, st, e);
      forall es | TidyRun(g, next, es) ensures Single(RunEvents(g, next, es)) {
        RunOrderly(g, next, es);
        OrderlyIsSingle(RunEvents(g, next, es));
      }
    } else if e.Abandon? {
      DroppingBreaks(g, st, e.k);
    } else if Switches(e.step) {
      SwitchBreaks(g, st, e.step);
    } else {
      WriteBreaks(g, st, e.step);
    }
  }

  ghost predicate SingleThroughout(g: MonthGrid.Grid, st: State, es: seq<Event>)
    requires g.Valid()
    decreases |es|
  {
    StaysSingle(g, st) && (es == [] || SingleThroughout(g, Next(g, st, es[0]), es[1..]))
  }

  lemma {:induction false} RunSingleIffTidy(g: MonthGrid.Grid, st: State, es: seq<Event>)
    requires g.Valid() && Orderly(st)
    ensures SingleThroughout(g, st, es) <==> TidyRun(g, st, es)
    decreases |es|
  {
    SingleIffTidy(g, st, Create(|st.calls|, AUTHORIZED));
    if es != [] {
      SingleIffTidy(g, st, es[0]);
      var next, rest := Next(g, st, es[0]), es[1..];
      if Tidy(g, st, es[0]) {
        OrderlyStep(g, st, es[0]);
        RunSingleIffTidy(g, next, rest);
      } else {
        assert !SingleThroughout(g, next, rest);
      }
    }
  }

  /** From memberships without subscriptions, over any interleaving: every membership keeps at
      most one preapproval that is not cancelled, stored or about to be, before and after each
      event and for all tidy continuations, if and only if every event is tidy. */
  lemma SubscriptionsSingleIffTidy(g: MonthGrid.Grid, s: System, es: seq<Event>)
    requires g.Valid() && Untouched(s)
    ensures SingleThroughout(g, State(s, []), es) <==> TidyRun(g, State(s, []), es)
  {
    assert Orderly(State(s, []));
    RunSingleIffTidy(g, State(s, []), es);
  }

  // ------------------------------------------------------------ one call on its own

  /** What an operation awaits of the external service does not fail. */
  predicate Answered(step: Billing.Step) {
    match step
    case Enable(_, created, _) => created.Some?
    case ToAuto(_, created) => created.Some?
    case ToManual(_, ok) => ok
    case Pause(_, ok) => ok
    case Resume(_, ok) => ok
    case External(_, _) => false
    case _ => true
  }

  function CreatedStatus(step: Billing.Step): Status {
    match step
    case Enable(_, Some(status), _) => status
    case ToAuto(_, Some(status)) => status
    case _ => AUTHORIZED
  }

  /** A call that is not interrupted is the operation of the model of single steps. */
  lemma UninterruptedCall(g: MonthGrid.Grid, st: State, step: Billing.Step)
    requires g.Valid() && Answered(step)
    ensures var k := |st.calls|;
      var begun := Next(g, st, Begin(step));
      var created := Next(g, begun, Create(k, CreatedStatus(step)));
      Next(g, Next(g, created, Open(k)), Store(k)).s == Apply(g, st.s, step)
  {}
}
