// The door: which ticket a scanned code admits, how often, and what becomes of replaced codes.
module Admission {
  import opened Prelude
  import opened Ledger
  import SecureQr

  function EventOf(l: Tables, typeId: nat): nat {
    if typeId < |l.types| then l.types[typeId].eventId else 0
  }

  /** The code of ticket i as issued at an instant. */
  function TicketCode(c: SecureQr.Codec, l: Tables, i: nat, issuedAt: int): string
    requires i < |l.tickets|
  {
    var t := l.tickets[i];
    SecureQr.Generate(c, SecureQr.Payload(i, t.purchaseId, t.ticketTypeId, EventOf(l, t.ticketTypeId), issuedAt))
  }

  ghost predicate HasIssuedCode(c: SecureQr.Codec, l: Tables, i: nat)
    requires i < |l.tickets|
  {
    exists at: int :: l.tickets[i].qrCode == TicketCode(c, l, i, at)
  }

  /** Every stored code was issued for its own ticket. */
  ghost predicate CodesIssued(c: SecureQr.Codec, l: Tables) {
    forall i :: 0 <= i < |l.tickets| ==> HasIssuedCode(c, l, i)
  }

  lemma EventsKept(c: SecureQr.Codec, l: Tables, s: Step, t: nat)
    ensures EventOf(Apply(c, l, s), t) == EventOf(l, t)
  {}

  /** The tickets a completion appends carry their own codes. */
  lemma NewCodeOfCompletion(c: SecureQr.Codec, l: Tables, p: nat, now: int, j: nat)
    requires WellFormed(l) && p < |l.purchases| && |l.tickets| <= j < |Apply(c, l, Complete(p, now)).tickets|
    ensures Apply(c, l, Complete(p, now)).tickets[j].qrCode == TicketCode(c, Apply(c, l, Complete(p, now)), j, now)
  {
    var l' := Apply(c, l, Complete(p, now));
    var ts := Issued(c, l, p, l.purchases[p].quantity, now);
    assert l'.types == l.types && l'.tickets == l.tickets + ts;
    var k := j - |l.tickets|;
    assert l'.tickets[j] == ts[k] && ts[k].qrCode == CodeOf(c, l, p, |l.tickets| + k, now);
    EventsKept(c, l, Complete(p, now), l.purchases[p].ticketTypeId);
  }

  /** Only completions and regenerations write codes. */
  lemma OldCode(c: SecureQr.Codec, l: Tables, s: Step, j: nat)
    requires j < |Apply(c, l, s).tickets| && !s.Regenerate? && (s.Complete? ==> j < |l.tickets|)
    ensures j < |l.tickets| && Apply(c, l, s).tickets[j].qrCode == l.tickets[j].qrCode
  {}

  /** The codes a step writes are those of their tickets at the instant of the step. */
  lemma NewCode(c: SecureQr.Codec, l: Tables, s: Step, j: nat)
    requires WellFormed(l)
    requires j < |Apply(c, l, s).tickets|
    requires j < |l.tickets| ==> Apply(c, l, s).tickets[j].qrCode != l.tickets[j].qrCode
    ensures s.Complete? || s.Regenerate?
    ensures Apply(c, l, s).tickets[j].qrCode == TicketCode(c, Apply(c, l, s), j, s.now)
  {
    if !s.Regenerate? {
      if !s.Complete? || j < |l.tickets| {
        OldCode(c, l, s, j);
        assert false;
      }
      NewCodeOfCompletion(c, l, s.purchaseId, s.now, j);
    }
  }

  lemma CodesIssuedStep(c: SecureQr.Codec, l: Tables, s: Step)
    requires WellFormed(l) && CodesIssued(c, l)
    ensures CodesIssued(c, Apply(c, l, s))
  {
    var l' := Apply(c, l, s);
    forall i | 0 <= i < |l'.tickets| ensures HasIssuedCode(c, l', i) {
      if i < |l.tickets| && l'.tickets[i].qrCode == l.tickets[i].qrCode {
        assert HasIssuedCode(c, l, i);
        var at :| l.tickets[i].qrCode == TicketCode(c, l, i, at);
        EventsKept(c, l, s, l.tickets[i].ticketTypeId);
        assert l'.tickets[i].qrCode == TicketCode(c, l', i, at);
      } else {
        NewCode(c, l, s, i);
      }
    }
  }

  /** On every run the stored codes stay those of their own tickets. */
  lemma {:induction false} RunCodesIssued(c: SecureQr.Codec, l: Tables, steps: seq<Step>)
    requires WellFormed(l) && CodesIssued(c, l)
    ensures CodesIssued(c, Run(c, l, steps))
    decreases |steps|
  {
    if steps != [] {
      WellFormedStep(c, l, steps[0]);
      CodesIssuedStep(c, l, steps[0]);
      RunCodesIssued(c, Apply(c, l, steps[0]), steps[1..]);
    }
  }

  /** Two tickets never carry the same code. */
  lemma CodesDistinct(c: SecureQr.Codec, l: Tables, i: nat, j: nat)
    requires c.Sound() && CodesIssued(c, l)
    requires i < |l.tickets| && j < |l.tickets| && l.tickets[i].qrCode == l.tickets[j].qrCode
    ensures i == j
  {
    assert HasIssuedCode(c, l, i) && HasIssuedCode(c, l, j);
    var at :| l.tickets[i].qrCode == TicketCode(c, l, i, at);
    var bt :| l.tickets[j].qrCode == TicketCode(c, l, j, bt);
    var ti, tj := l.tickets[i], l.tickets[j];
    SecureQr.GenerateInjective(c,
      SecureQr.Payload(i, ti.purchaseId, ti.ticketTypeId, EventOf(l, ti.ticketTypeId), at),
      SecureQr.Payload(j, tj.purchaseId, tj.ticketTypeId, EventOf(l, tj.ticketTypeId), bt));
  }

  /** A code admits someone exactly when it is the stored code of an ACTIVE ticket and, if it
      goes through the signed branch, is at most seven days old; then it consumes that ticket
      and changes nothing else. Plain lookup checks no age. */
  lemma ScanExactly(c: SecureQr.Codec, l: Tables, i: nat, issuedAt: int, now: int)
    requires c.Sound() && CodesIssued(c, l)
    requires i < |l.tickets| && l.tickets[i].qrCode == TicketCode(c, l, i, issuedAt)
    ensures var code := l.tickets[i].qrCode;
      var used := l.(tickets := l.tickets[i := l.tickets[i].(status := TicketStatus.USED)]);
      var signed := |code| > 50 && ('-' in code || '_' in code);
      if l.tickets[i].status == TicketStatus.ACTIVE && (signed ==> now - issuedAt <= 604800000)
      then ValidateAndUse(c, l, code, now) == Ok((i, used))
      else ValidateAndUse(c, l, code, now).Err?
  {
    var t := l.tickets[i];
    var code := t.qrCode;
    SecureQr.ValidateGenerated(c,
      SecureQr.Payload(i, t.purchaseId, t.ticketTypeId, EventOf(l, t.ticketTypeId), issuedAt), now);
    if FindByQr(l.tickets, code).Some? {
      CodesDistinct(c, l, i, FindByQr(l.tickets, code).value);
    }
  }

  /** A code no ticket stores admits nobody, whichever branch reads it. */
  lemma UnknownCodeRejected(c: SecureQr.Codec, l: Tables, code: string, now: int)
    requires forall i :: 0 <= i < |l.tickets| ==> l.tickets[i].qrCode != code
    ensures ValidateAndUse(c, l, code, now).Err?
  {}

  // -------------------------------------------------------------- admitted at most once

  predicate Admits(c: SecureQr.Codec, l: Tables, s: Step, i: nat) {
    s.Scan? && ValidateAndUse(c, l, s.code, s.now).Ok? && ValidateAndUse(c, l, s.code, s.now).value.0 == i
  }

  /** How many scans of the run admitted ticket i. */
  function Admissions(c: SecureQr.Codec, l: Tables, steps: seq<Step>, i: nat): nat
    decreases |steps|
  {
    if steps == [] then 0
    else (if Admits(c, l, steps[0], i) then 1 else 0) + Admissions(c, Apply(c, l, steps[0]), steps[1..], i)
  }

  /** How many steps of the run activate ticket i by hand. */
  function Activations(steps: seq<Step>, i: nat): nat {
    if steps == [] then 0 else (if steps[0] == Activate(i) then 1 else 0) + Activations(steps[1..], i)
  }

  /** A ticket that exists and is not ACTIVE: only an activation by hand changes that. */
  predicate Spent(l: Tables, i: nat) {
    i < |l.tickets| && l.tickets[i].status != TicketStatus.ACTIVE
  }

  lemma SpentStays(c: SecureQr.Codec, l: Tables, s: Step, i: nat)
    requires Spent(l, i) && s != Activate(i)
    ensures Spent(Apply(c, l, s), i) && !Admits(c, l, s, i)
  {}

  /** A spent ticket is admitted at most once for each time it is activated by hand. */
  lemma {:induction false} SpentAdmittedPerActivation(c: SecureQr.Codec, l: Tables, steps: seq<Step>, i: nat)
    requires Spent(l, i)
    ensures Admissions(c, l, steps, i) <= Activations(steps, i)
    decreases |steps|, 0
  {
    if steps != [] {
      var next := Apply(c, l, steps[0]);
      if steps[0] == Activate(i) {
        AdmittedAtMostOnce(c, next, steps[1..], i);
      } else {
        SpentStays(c, l, steps[0], i);
        SpentAdmittedPerActivation(c, next, steps[1..], i);
      }
    }
  }

  /** Whatever is sold, refunded, failed, expired, regenerated and scanned, in any order and from
      any tables, a ticket is admitted at most once, and once more for each time it is activated
      by hand. */
  lemma {:induction false} AdmittedAtMostOnce(c: SecureQr.Codec, l: Tables, steps: seq<Step>, i: nat)
    ensures Admissions(c, l, steps, i) <= 1 + Activations(steps, i)
    decreases |steps|, 1
  {
    if steps != [] {
      var next := Apply(c, l, steps[0]);
      if Admits(c, l, steps[0], i) {
        assert Spent(next, i);
        SpentAdmittedPerActivation(c, next, steps[1..], i);
      } else {
        AdmittedAtMostOnce(c, next, steps[1..], i);
      }
    }
  }

  // --------------------------------------------------------------------- retired codes

  predicate Stored(l: Tables, code: string) {
    exists i :: 0 <= i < |l.tickets| && l.tickets[i].qrCode == code
  }

  /** Every code the run issues is issued after an instant. */
  predicate IssuesAfter(steps: seq<Step>, instant: int) {
    forall k :: 0 <= k < |steps| ==>
      (steps[k].Complete? ==> steps[k].now > instant) && (steps[k].Regenerate? ==> steps[k].now > instant)
  }

  /** Regenerating a ticket at a later timestamp removes its old code from the tables. */
  lemma RegenerateRetires(c: SecureQr.Codec, l: Tables, i: nat, issuedAt: int, now: int)
    requires c.Sound() && WellFormed(l) && CodesIssued(c, l) && i < |l.tickets| && issuedAt < now
    requires l.tickets[i].qrCode == TicketCode(c, l, i, issuedAt)
    ensures !Stored(Apply(c, l, Regenerate(i, now)), l.tickets[i].qrCode)
  {
    var code, l' := l.tickets[i].qrCode, Apply(c, l, Regenerate(i, now));
    var t := l.tickets[i];
    forall j | 0 <= j < |l'.tickets| ensures l'.tickets[j].qrCode != code {
      if j != i {
        if l.tickets[j].qrCode == code { CodesDistinct(c, l, i, j); }
      } else if l'.tickets[i].qrCode == code {
        SecureQr.GenerateInjective(c,
          SecureQr.Payload(i, t.purchaseId, t.ticketTypeId, EventOf(l, t.ticketTypeId), issuedAt),
          SecureQr.Payload(i, t.purchaseId, t.ticketTypeId, EventOf(l, t.ticketTypeId), now));
      }
    }
  }

  /** The new code of an ACTIVE ticket admits it, for seven days at least. */
  lemma RegeneratedAdmits(c: SecureQr.Codec, l: Tables, i: nat, now: int, later: int)
    requires c.Sound() && WellFormed(l) && CodesIssued(c, l) && i < |l.tickets|
    requires l.tickets[i].status == TicketStatus.ACTIVE && later - now <= 604800000
    ensures var l' := Apply(c, l, Regenerate(i, now));
      var r := ValidateAndUse(c, l', l'.tickets[i].qrCode, later);
      r.Ok? && r.value.0 == i
  {
    var l' := Apply(c, l, Regenerate(i, now));
    CodesIssuedStep(c, l, Regenerate(i, now));
    assert l'.tickets[i].qrCode == TicketCode(c, l', i, now);
    ScanExactly(c, l', i, now, later);
  }

  lemma NotStoredStep(c: SecureQr.Codec, l: Tables, s: Step, p: SecureQr.Payload)
    requires c.Sound() && WellFormed(l) && !Stored(l, SecureQr.Generate(c, p)) && IssuesAfter([s], p.timestamp)
    ensures !Stored(Apply(c, l, s), SecureQr.Generate(c, p))
  {
    var code, l' := SecureQr.Generate(c, p), Apply(c, l, s);
    assert [s][0] == s;
    forall j | 0 <= j < |l'.tickets| ensures l'.tickets[j].qrCode != code {
      if j >= |l.tickets| || l'.tickets[j].qrCode != l.tickets[j].qrCode {
        NewCode(c, l, s, j);
        var t := l'.tickets[j];
        var q := SecureQr.Payload(j, t.purchaseId, t.ticketTypeId, EventOf(l', t.ticketTypeId), s.now);
        if t.qrCode == code { SecureQr.GenerateInjective(c, q, p); }
      }
    }
  }

  /** Once replaced, a code is rejected for ever, on both branches and after any further run
      whose clock is past the instant the code was issued at. */
  lemma {:induction false} RetiredForEver(
    c: SecureQr.Codec, l: Tables, steps: seq<Step>, p: SecureQr.Payload, now: int
  )
    requires c.Sound() && WellFormed(l) && !Stored(l, SecureQr.Generate(c, p))
    requires IssuesAfter(steps, p.timestamp)
    ensures ValidateAndUse(c, Run(c, l, steps), SecureQr.Generate(c, p), now).Err?
    decreases |steps|
  {
    if steps == [] {
      UnknownCodeRejected(c, l, SecureQr.Generate(c, p), now);
    } else {
      WellFormedStep(c, l, steps[0]);
      NotStoredStep(c, l, steps[0], p);
      RetiredForEver(c, Apply(c, l, steps[0]), steps[1..], p, now);
    }
  }
}
