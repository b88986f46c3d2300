// Any number of concurrent calls of tryProcess, on any keys, over one state: each
// awaited operation is one step and the steps of different calls interleave freely.
module Interleaving {
  import opened Prelude
  import opened Idempotency

  /** Where a call stands. Thrown(true) is a call whose clean-up failed too: its key stays. */
  datatype Pc = Ready | Running | Responding | Deleting | Returned(processed: bool) | Thrown(stuck: bool)

  datatype Caller<D> = Caller(delivery: D, pc: Pc)

  /** log: the deliveries whose handler committed, in commit order; failures: those whose
      response could not be stored after that; attempts: the callers whose handler ran, in order. */
  datatype State<S, D> = State(
    keys: set<string>, callers: seq<Caller<D>>, tables: S, log: seq<D>, failures: seq<D>, attempts: seq<nat>)

  datatype Event =
    | Insert(i: nat)
    | InsertFails(i: nat)
    | Work(i: nat)
    | Respond(i: nat)
    | RespondFails(i: nat)
    | Delete(i: nat)
    | DeleteFails(i: nat)

  function Start<S, D>(tables: S, ds: seq<D>): State<S, D> {
    State({}, seq(|ds|, i requires 0 <= i < |ds| => Caller(ds[i], Ready)), tables, [], [], [])
  }

  function Move<S, D>(s: State<S, D>, i: nat, pc: Pc): State<S, D>
    requires i < |s.callers|
  {
    s.(callers := s.callers[i := s.callers[i].(pc := pc)])
  }

  /** One step; an event its caller is not ready for changes nothing. */
  function Step<S, D, E>(p: Processor<S, D, E>, s: State<S, D>, e: Event): State<S, D> {
    if e.i >= |s.callers| then s
    else
      var i := e.i;
      var d, pc := s.callers[i].delivery, s.callers[i].pc;
      match e
      case Insert(_) =>
        if pc != Ready then s
        else if p.key(d) in s.keys then Move(s, i, Returned(false))
        else Move(s, i, Running).(keys := s.keys + {p.key(d)})
      case InsertFails(_) => if pc != Ready then s else Move(s, i, Thrown(false))
      case Work(_) =>
        if pc != Running then s
        else
          (match p.work(s.tables, d)
           case Ok(l) => Move(s, i, Responding).(tables := l, log := s.log + [d], attempts := s.attempts + [i])
           case Err(_) => Move(s, i, Deleting).(attempts := s.attempts + [i]))
      case Respond(_) => if pc != Responding then s else Move(s, i, Returned(true))
      case RespondFails(_) =>
        if pc != Responding then s else Move(s, i, Deleting).(failures := s.failures + [d])
      case Delete(_) => if pc != Deleting then s else Move(s, i, Thrown(false)).(keys := s.keys - {p.key(d)})
      case DeleteFails(_) => if pc != Deleting then s else Move(s, i, Thrown(true))
  }

  function Run<S, D, E>(p: Processor<S, D, E>, s: State<S, D>, es: seq<Event>): State<S, D>
    decreases |es|
  {
    if es == [] then s else Run(p, Step(p, s, es[0]), es[1..])
  }

  // ------------------------------------------------------------------- the invariant

  /** Between insert and exit. */
  predicate Inside(pc: Pc) {
    pc == Running || pc == Responding || pc == Deleting
  }

  /** Accounts for the key being in the table. */
  predicate Holds(pc: Pc) {
    Inside(pc) || pc == Returned(true) || pc == Thrown(true)
  }

  predicate Finished(pc: Pc) {
    pc == Responding || pc == Returned(true)
  }

  function HoldsOf<S, D, E>(p: Processor<S, D, E>, key: string): Caller<D> -> int {
    (x: Caller<D>) => if p.key(x.delivery) == key && Holds(x.pc) then 1 else 0
  }

  function FinishedOf<S, D, E>(p: Processor<S, D, E>, key: string): Caller<D> -> int {
    (x: Caller<D>) => if p.key(x.delivery) == key && Finished(x.pc) then 1 else 0
  }

  function CompletionOf<S, D, E>(p: Processor<S, D, E>, key: string): D -> int {
    (d: D) => if p.key(d) == key then 1 else 0
  }

  predicate KeyInv<S, D, E>(p: Processor<S, D, E>, s: State<S, D>, key: string) {
    && Total(s.callers, HoldsOf(p, key)) == (if key in s.keys then 1 else 0)
    && Total(s.log, CompletionOf(p, key))
       == Total(s.failures, CompletionOf(p, key)) + Total(s.callers, FinishedOf(p, key))
  }

  function Bit(b: bool): int {
    if b then 1 else 0
  }

  lemma TotalSnoc<T>(s: seq<T>, x: T, f: T -> int)
    ensures Total(s + [x], f) == Total(s, f) + f(x)
  {}

  lemma HolderMeansPresent<S, D, E>(p: Processor<S, D, E>, s: State<S, D>, i: nat, key: string)
    requires KeyInv(p, s, key) && i < |s.callers| && p.key(s.callers[i].delivery) == key && Holds(s.callers[i].pc)
    ensures key in s.keys
  {
    TotalAtLeast(s.callers, i, HoldsOf(p, key));
  }

  /** What a step that moves one caller must keep in balance. */
  lemma KeyInvChange<S, D, E>(p: Processor<S, D, E>, s: State<S, D>, s': State<S, D>, i: nat, pc: Pc, key: string)
    requires KeyInv(p, s, key) && i < |s.callers|
    requires s'.callers == s.callers[i := s.callers[i].(pc := pc)]
    requires Bit(key in s'.keys) - Bit(key in s.keys)
      == if p.key(s.callers[i].delivery) == key then Bit(Holds(pc)) - Bit(Holds(s.callers[i].pc)) else 0
    requires Total(s'.log, CompletionOf(p, key)) - Total(s'.failures, CompletionOf(p, key))
      == Total(s.log, CompletionOf(p, key)) - Total(s.failures, CompletionOf(p, key))
         + if p.key(s.callers[i].delivery) == key then Bit(Finished(pc)) - Bit(Finished(s.callers[i].pc)) else 0
    ensures KeyInv(p, s', key)
  {
    TotalUpdate(s.callers, i, s.callers[i].(pc := pc), HoldsOf(p, key));
    TotalUpdate(s.callers, i, s.callers[i].(pc := pc), FinishedOf(p, key));
  }

  lemma KeyInvInsert<S, D, E>(p: Processor<S, D, E>, s: State<S, D>, i: nat, key: string)
    requires KeyInv(p, s, key) && i < |s.callers| && s.callers[i].pc == Ready
    ensures KeyInv(p, Step(p, s, Insert(i)), key)
  {
    var s' := Step(p, s, Insert(i));
    KeyInvChange(p, s, s', i, s'.callers[i].pc, key);
  }

  lemma KeyInvWork<S, D, E>(p: Processor<S, D, E>, s: State<S, D>, i: nat, key: string)
    requires KeyInv(p, s, key) && i < |s.callers| && s.callers[i].pc == Running
    ensures KeyInv(p, Step(p, s, Work(i)), key)
  {
    var s', d := Step(p, s, Work(i)), s.callers[i].delivery;
    if p.work(s.tables, d).Ok? {
      TotalSnoc(s.log, d, CompletionOf(p, key));
      KeyInvChange(p, s, s', i, Responding, key);
    } else {
      KeyInvChange(p, s, s', i, Deleting, key);
    }
  }

  lemma KeyInvRespond<S, D, E>(p: Processor<S, D, E>, s: State<S, D>, e: Event, key: string)
    requires KeyInv(p, s, key) && (e.Respond? || e.RespondFails?)
    requires e.i < |s.callers| && s.callers[e.i].pc == Responding
    ensures KeyInv(p, Step(p, s, e), key)
  {
    var s' := Step(p, s, e);
    TotalSnoc(s.failures, s.callers[e.i].delivery, CompletionOf(p, key));
    KeyInvChange(p, s, s', e.i, s'.callers[e.i].pc, key);
  }

  lemma KeyInvDelete<S, D, E>(p: Processor<S, D, E>, s: State<S, D>, e: Event, key: string)
    requires KeyInv(p, s, key) && (e.Delete? || e.DeleteFails?) && e.i < |s.callers| && s.callers[e.i].pc == Deleting
    ensures KeyInv(p, Step(p, s, e), key)
  {
    var s' := Step(p, s, e);
    if p.key(s.callers[e.i].delivery) == key { HolderMeansPresent(p, s, e.i, key); }
    KeyInvChange(p, s, s', e.i, s'.callers[e.i].pc, key);
  }

  lemma KeyInvStep<S, D, E>(p: Processor<S, D, E>, s: State<S, D>, e: Event, key: string)
    requires KeyInv(p, s, key)
    ensures KeyInv(p, Step(p, s, e), key)
  {
    if e.i < |s.callers| {
      match (e, s.callers[e.i].pc)
      case (Insert(i), Ready) => KeyInvInsert(p, s, i, key);
      case (InsertFails(i), Ready) => KeyInvChange(p, s, Step(p, s, e), i, Thrown(false), key);
      case (Work(i), Running) => KeyInvWork(p, s, i, key);
      case (Respond(_), Responding) => KeyInvRespond(p, s, e, key);
      case (RespondFails(_), Responding) => KeyInvRespond(p, s, e, key);
      case (Delete(_), Deleting) => KeyInvDelete(p, s, e, key);
      case (DeleteFails(_), Deleting) => KeyInvDelete(p, s, e, key);
      case _ =>
    }
  }

  lemma StartInv<S, D, E>(p: Processor<S, D, E>, tables: S, ds: seq<D>, key: string)
    ensures KeyInv(p, Start(tables, ds), key)
  {
    var s := Start(tables, ds);
    TotalConstant(s.callers, HoldsOf(p, key), 0);
    TotalConstant(s.callers, FinishedOf(p, key), 0);
  }

  lemma {:induction false} RunInv<S, D, E>(p: Processor<S, D, E>, s: State<S, D>, es: seq<Event>, key: string)
    requires KeyInv(p, s, key)
    ensures KeyInv(p, Run(p, s, es), key)
    decreases |es|
  {
    if es != [] {
      KeyInvStep(p, s, es[0], key);
      RunInv(p, Step(p, s, es[0]), es[1..], key);
    }
  }

  // -------------------------------------------------------------------- the theorems

  lemma {:induction false} TwoHolders<S, D, E>(
    p: Processor<S, D, E>, callers: seq<Caller<D>>, i: nat, j: nat, key: string
  )
    requires i < j < |callers|
    requires HoldsOf(p, key)(callers[i]) == 1 && HoldsOf(p, key)(callers[j]) == 1
    ensures Total(callers, HoldsOf(p, key)) >= 2
  {
    var n := |callers| - 1;
    if j == n {
      TotalAtLeast(callers[..n], i, HoldsOf(p, key));
    } else {
      TwoHolders(p, callers[..n], i, j, key);
    }
  }

  /** In every reachable state, of the calls on one key at most one is between insert and exit
      or has returned processed: true; and then no other is either of the two. */
  lemma AtMostOneHolder<S, D, E>(p: Processor<S, D, E>, tables: S, ds: seq<D>, es: seq<Event>, i: nat, j: nat)
    requires var s := Run(p, Start(tables, ds), es);
      && i < |s.callers| && j < |s.callers| && p.key(s.callers[i].delivery) == p.key(s.callers[j].delivery)
      && (Inside(s.callers[i].pc) || s.callers[i].pc == Returned(true))
      && (Inside(s.callers[j].pc) || s.callers[j].pc == Returned(true))
    ensures i == j
  {
    var s := Run(p, Start(tables, ds), es);
    var key := p.key(s.callers[i].delivery);
    StartInv(p, tables, ds, key);
    RunInv(p, Start(tables, ds), es, key);
    if i != j {
      TwoHolders(p, s.callers, if i < j then i else j, if i < j then j else i, key);
    }
  }

  lemma {:induction false} SomeHolder<S, D, E>(p: Processor<S, D, E>, callers: seq<Caller<D>>, key: string)
    requires Total(callers, HoldsOf(p, key)) > 0
    ensures exists i :: 0 <= i < |callers| && p.key(callers[i].delivery) == key && Holds(callers[i].pc)
  {
    var n := |callers| - 1;
    if HoldsOf(p, key)(callers[n]) == 0 {
      SomeHolder(p, callers[..n], key);
      var i :| 0 <= i < n && p.key(callers[..n][i].delivery) == key && Holds(callers[..n][i].pc);
      assert p.key(callers[i].delivery) == key && Holds(callers[i].pc);
    }
  }

  /** The key is in the table exactly while a call on it is inside, after one succeeded, or
      after one failed to delete it. */
  lemma KeyPresentExactly<S, D, E>(p: Processor<S, D, E>, tables: S, ds: seq<D>, es: seq<Event>, key: string)
    ensures var s := Run(p, Start(tables, ds), es);
      key in s.keys <==>
        (exists i :: 0 <= i < |s.callers| && p.key(s.callers[i].delivery) == key
           && (Inside(s.callers[i].pc) || s.callers[i].pc == Returned(true) || s.callers[i].pc == Thrown(true)))
  {
    var s := Run(p, Start(tables, ds), es);
    StartInv(p, tables, ds, key);
    RunInv(p, Start(tables, ds), es, key);
    if key in s.keys { SomeHolder(p, s.callers, key); }
    forall i | 0 <= i < |s.callers| && p.key(s.callers[i].delivery) == key && Holds(s.callers[i].pc)
      ensures key in s.keys
    {
      HolderMeansPresent(p, s, i, key);
    }
  }

  lemma {:induction false} FinishedWithinHolds<S, D, E>(p: Processor<S, D, E>, callers: seq<Caller<D>>, key: string)
    ensures Total(callers, FinishedOf(p, key)) <= Total(callers, HoldsOf(p, key))
  {
    if callers != [] {
      FinishedWithinHolds(p, callers[..|callers| - 1], key);
      var x := callers[|callers| - 1];
      assert Finished(x.pc) ==> Holds(x.pc);
      assert FinishedOf(p, key)(x) == if p.key(x.delivery) == key && Finished(x.pc) then 1 else 0;
      assert HoldsOf(p, key)(x) == if p.key(x.delivery) == key && Holds(x.pc) then 1 else 0;
    }
  }

  /** The handler of a key commits at most once more than its responses failed to be stored. */
  lemma CompletionsCounted<S, D, E>(p: Processor<S, D, E>, tables: S, ds: seq<D>, es: seq<Event>, key: string)
    ensures var s := Run(p, Start(tables, ds), es);
      var completions, failures := Total(s.log, CompletionOf(p, key)), Total(s.failures, CompletionOf(p, key));
      && failures <= completions <= failures + 1
      && (completions == failures + 1 ==> key in s.keys)
  {
    var s := Run(p, Start(tables, ds), es);
    StartInv(p, tables, ds, key);
    RunInv(p, Start(tables, ds), es, key);
    FinishedWithinHolds(p, s.callers, key);
    TotalNonNegative(s.callers, FinishedOf(p, key));
  }

  predicate Succeeded<S, D, E>(p: Processor<S, D, E>, s: State<S, D>, i: nat, key: string) {
    i < |s.callers| && p.key(s.callers[i].delivery) == key && s.callers[i].pc == Returned(true)
  }

  /** Beside a successful call no other call on the key is inside. */
  lemma NoOtherInside<S, D, E>(p: Processor<S, D, E>, s: State<S, D>, i: nat, k: nat, key: string)
    requires KeyInv(p, s, key) && Succeeded(p, s, i, key) && k < |s.callers| && k != i
    ensures p.key(s.callers[k].delivery) == key ==> !Inside(s.callers[k].pc)
  {
    if p.key(s.callers[k].delivery) == key && Inside(s.callers[k].pc) {
      TwoHolders(p, s.callers, if i < k then i else k, if i < k then k else i, key);
    }
  }

  /** A step adds to the log only what its running caller delivers. */
  lemma LogAfterStep<S, D, E>(p: Processor<S, D, E>, s: State<S, D>, e: Event)
    ensures var s' := Step(p, s, e);
      s'.log == s.log
      || (e.i < |s.callers| && s.callers[e.i].pc == Running && s'.log == s.log + [s.callers[e.i].delivery])
  {}

  lemma SuccessStays<S, D, E>(p: Processor<S, D, E>, s: State<S, D>, e: Event, i: nat, key: string)
    requires KeyInv(p, s, key) && Succeeded(p, s, i, key)
    ensures Succeeded(p, Step(p, s, e), i, key) && Step(p, s, e).callers[i] == s.callers[i]
  {}

  lemma SuccessKeepsLog<S, D, E>(p: Processor<S, D, E>, s: State<S, D>, e: Event, i: nat, key: string)
    requires KeyInv(p, s, key) && Succeeded(p, s, i, key)
    ensures Total(Step(p, s, e).log, CompletionOf(p, key)) == Total(s.log, CompletionOf(p, key))
  {
    LogAfterStep(p, s, e);
    if Step(p, s, e).log != s.log {
      NoOtherInside(p, s, i, e.i, key);
      TotalSnoc(s.log, s.callers[e.i].delivery, CompletionOf(p, key));
    }
  }

  /** Once a call succeeded, its handler never commits again and its key never leaves. */
  lemma {:induction false} SuccessIsFinal<S, D, E>(
    p: Processor<S, D, E>, s: State<S, D>, es: seq<Event>, i: nat, key: string
  )
    requires KeyInv(p, s, key) && Succeeded(p, s, i, key)
    ensures var e := Run(p, s, es);
      && Succeeded(p, e, i, key) && key in e.keys
      && Total(e.log, CompletionOf(p, key)) == Total(s.log, CompletionOf(p, key))
    decreases |es|
  {
    if es == [] {
      HolderMeansPresent(p, s, i, key);
    } else {
      KeyInvStep(p, s, es[0], key);
      SuccessStays(p, s, es[0], i, key);
      SuccessKeepsLog(p, s, es[0], i, key);
      SuccessIsFinal(p, Step(p, s, es[0]), es[1..], i, key);
    }
  }

  // ----------------------------------------------------------------- linearisation

  /** Every logged delivery committed on the tables the earlier ones left. */
  predicate Committed<S, D, E>(p: Processor<S, D, E>, l: S, log: seq<D>) {
    log == [] ||
    (Committed(p, l, log[..|log| - 1]) && p.work(Replay(p, l, log[..|log| - 1]), log[|log| - 1]).Ok?)
  }

  lemma {:induction false} RunReplaysLog<S, D, E>(p: Processor<S, D, E>, l: S, s: State<S, D>, es: seq<Event>)
    requires s.tables == Replay(p, l, s.log) && Committed(p, l, s.log)
    ensures var e := Run(p, s, es); e.tables == Replay(p, l, e.log) && Committed(p, l, e.log)
    decreases |es|
  {
    if es != [] {
      var next := Step(p, s, es[0]);
      if next.log != s.log {
        assert next.log[..|next.log| - 1] == s.log;
      }
      RunReplaysLog(p, l, next, es[1..]);
    }
  }

  /** A log with one entry per key is what the sequential service answers "processed" to. */
  lemma {:induction false} DistinctLogDelivers<S, D, E>(p: Processor<S, D, E>, l: S, log: seq<D>)
    requires Committed(p, l, log)
    requires forall j, k :: 0 <= j < k < |log| ==> p.key(log[j]) != p.key(log[k])
    ensures var o := DeliverAll(p, l, log);
      && o.state == Replay(p, l, log)
      && (forall k :: 0 <= k < |log| ==> o.answers[k].Processed?)
      && (forall key :: key in o.keys ==> exists k :: 0 <= k < |log| && p.key(log[k]) == key)
  {
    if log != [] {
      var n := |log| - 1;
      DistinctLogDelivers(p, l, log[..n]);
      var before, o := DeliverAll(p, l, log[..n]), DeliverAll(p, l, log);
      assert forall k :: 0 <= k < n ==> p.key(log[..n][k]) != p.key(log[n]);
      assert p.key(log[n]) !in before.keys;
      assert o.answers == before.answers + [Processed];
      forall key | key in o.keys ensures exists k :: 0 <= k < |log| && p.key(log[k]) == key {
        if key in before.keys {
          var k :| 0 <= k < n && p.key(log[..n][k]) == key;
          assert p.key(log[k]) == key;
        } else {
          assert p.key(log[n]) == key;
        }
      }
    }
  }

  lemma {:induction false} TwoCompletions<S, D, E>(p: Processor<S, D, E>, log: seq<D>, j: nat, k: nat)
    requires j < k < |log| && p.key(log[j]) == p.key(log[k])
    ensures Total(log, CompletionOf(p, p.key(log[k]))) >= 2
  {
    var n, f := |log| - 1, CompletionOf(p, p.key(log[k]));
    if k == n {
      TotalAtLeast(log[..n], j, f);
    } else {
      TwoCompletions(p, log[..n], j, k);
    }
  }

  /** The committed calls ran one after the other: if every response was stored, the tables are
      those of delivering the log, in commit order, and it holds one delivery of each key. */
  lemma CommitsAreSerial<S, D, E>(p: Processor<S, D, E>, tables: S, ds: seq<D>, es: seq<Event>)
    requires Run(p, Start(tables, ds), es).failures == []
    ensures var s := Run(p, Start(tables, ds), es);
      var o := DeliverAll(p, tables, s.log);
      && s.tables == o.state
      && (forall k :: 0 <= k < |s.log| ==> o.answers[k].Processed?)
      && (forall j, k :: 0 <= j < k < |s.log| ==> p.key(s.log[j]) != p.key(s.log[k]))
  {
    var s := Run(p, Start(tables, ds), es);
    RunReplaysLog(p, tables, Start(tables, ds), es);
    forall j, k | 0 <= j < k < |s.log| ensures p.key(s.log[j]) != p.key(s.log[k]) {
      if p.key(s.log[j]) == p.key(s.log[k]) {
        TwoCompletions(p, s.log, j, k);
        CompletionsCounted(p, tables, ds, es, p.key(s.log[k]));
      }
    }
    DistinctLogDelivers(p, tables, s.log);
  }

  // ------------------------------------------------------------- the log and its callers

  /** The deliveries of the callers whose handler committed and whose key is kept. */
  ghost function FinishedDeliveries<D>(callers: seq<Caller<D>>): multiset<D> {
    if callers == [] then multiset{}
    else FinishedDeliveries(callers[..|callers| - 1]) + Finishing(callers[|callers| - 1])
  }

  ghost function Finishing<D>(x: Caller<D>): multiset<D> {
    if Finished(x.pc) then multiset{x.delivery} else multiset{}
  }

  lemma AddToBoth<D>(a: multiset<D>, b: multiset<D>, x: multiset<D>, y: multiset<D>, more: multiset<D>)
    requires a + x == b + y
    ensures (a + more) + x == (b + more) + y
  {
    assert (a + more) + x == (a + x) + more;
    assert (b + more) + y == (b + y) + more;
  }

  lemma SameAdded<D>(a: multiset<D>, b: multiset<D>, x: multiset<D>)
    requires a + x == b + x
    ensures a == b
  {
    forall d ensures a[d] == b[d] {
      assert (a + x)[d] == (b + x)[d];
    }
  }

  lemma {:induction false} FinishedUpdate<D>(callers: seq<Caller<D>>, i: nat, x: Caller<D>)
    requires i < |callers|
    ensures FinishedDeliveries(callers[i := x]) + Finishing(callers[i]) == FinishedDeliveries(callers) + Finishing(x)
  {
    var n := |callers| - 1;
    if i == n {
      assert callers[i := x][..n] == callers[..n];
    } else {
      var less := callers[..n];
      FinishedUpdate(less, i, x);
      AddToBoth(FinishedDeliveries(less[i := x]), FinishedDeliveries(less), Finishing(less[i]), Finishing(x),
                Finishing(callers[n]));
      assert callers[i := x][..n] == less[i := x];
    }
  }

  ghost predicate LogInv<S, D>(s: State<S, D>) {
    multiset(s.log) == FinishedDeliveries(s.callers) + multiset(s.failures)
  }

  /** Moving a caller without finishing it or taking that back. */
  lemma LogInvMove<S, D>(s: State<S, D>, s': State<S, D>, i: nat, pc: Pc)
    requires LogInv(s) && i < |s.callers| && s'.callers == s.callers[i := s.callers[i].(pc := pc)]
    requires Finished(pc) == Finished(s.callers[i].pc) && s'.log == s.log && s'.failures == s.failures
    ensures LogInv(s')
  {
    FinishedUpdate(s.callers, i, s.callers[i].(pc := pc));
    SameAdded(FinishedDeliveries(s'.callers), FinishedDeliveries(s.callers), Finishing(s.callers[i]));
  }

  lemma LogInvWork<S, D, E>(p: Processor<S, D, E>, s: State<S, D>, i: nat)
    requires LogInv(s) && i < |s.callers| && s.callers[i].pc == Running && p.work(s.tables, s.callers[i].delivery).Ok?
    ensures LogInv(Step(p, s, Work(i)))
  {
    var s', d := Step(p, s, Work(i)), s.callers[i].delivery;
    FinishedUpdate(s.callers, i, s.callers[i].(pc := Responding));
    assert FinishedDeliveries(s'.callers) == FinishedDeliveries(s.callers) + multiset{d};
    assert multiset(s'.log) == multiset(s.log) + multiset{d};
  }

  lemma LogInvRespondFails<S, D, E>(p: Processor<S, D, E>, s: State<S, D>, i: nat)
    requires LogInv(s) && i < |s.callers| && s.callers[i].pc == Responding
    ensures LogInv(Step(p, s, RespondFails(i)))
  {
    var s', d := Step(p, s, RespondFails(i)), s.callers[i].delivery;
    FinishedUpdate(s.callers, i, s.callers[i].(pc := Deleting));
    var after := FinishedDeliveries(s'.callers);
    assert after + multiset{d} == FinishedDeliveries(s.callers);
    assert multiset(s'.failures) == multiset(s.failures) + multiset{d};
    MoveOver(after, multiset{d}, multiset(s.failures));
  }

  lemma MoveOver<D>(a: multiset<D>, d: multiset<D>, b: multiset<D>)
    ensures (a + d) + b == a + (b + d)
  {}

  lemma LogInvStep<S, D, E>(p: Processor<S, D, E>, s: State<S, D>, e: Event)
    requires LogInv(s)
    ensures LogInv(Step(p, s, e))
  {
    var s' := Step(p, s, e);
    if s' != s {
      if s'.log != s.log {
        LogInvWork(p, s, e.i);
      } else if s'.failures != s.failures {
        LogInvRespondFails(p, s, e.i);
      } else {
        LogInvMove(s, s', e.i, s'.callers[e.i].pc);
      }
    }
  }

  lemma {:induction false} RunLogInv<S, D, E>(p: Processor<S, D, E>, s: State<S, D>, es: seq<Event>)
    requires LogInv(s)
    ensures LogInv(Run(p, s, es))
    decreases |es|
  {
    if es != [] {
      LogInvStep(p, s, es[0]);
      RunLogInv(p, Step(p, s, es[0]), es[1..]);
    }
  }

  lemma {:induction false} NothingFinished<D>(callers: seq<Caller<D>>)
    requires forall i :: 0 <= i < |callers| ==> callers[i].pc == Ready
    ensures FinishedDeliveries(callers) == multiset{}
  {
    if callers != [] { NothingFinished(callers[..|callers| - 1]); }
  }

  lemma {:induction false} RunKeepsDeliveries<S, D, E>(p: Processor<S, D, E>, s: State<S, D>, es: seq<Event>)
    ensures var e := Run(p, s, es);
      |e.callers| == |s.callers|
      && forall i :: 0 <= i < |e.callers| ==> e.callers[i].delivery == s.callers[i].delivery
    decreases |es|
  {
    if es != [] { RunKeepsDeliveries(p, Step(p, s, es[0]), es[1..]); }
  }

  /** The log holds, each once, the deliveries of the calls that finished and of those whose
      response could not be stored; and every call is one of the given deliveries. */
  lemma LogIsFinished<S, D, E>(p: Processor<S, D, E>, tables: S, ds: seq<D>, es: seq<Event>)
    ensures var s := Run(p, Start(tables, ds), es);
      && multiset(s.log) == FinishedDeliveries(s.callers) + multiset(s.failures)
      && |s.callers| == |ds| && forall i :: 0 <= i < |ds| ==> s.callers[i].delivery == ds[i]
  {
    var start := Start<S, D>(tables, ds);
    NothingFinished(start.callers);
    RunLogInv(p, start, es);
    RunKeepsDeliveries(p, start, es);
  }

  lemma {:induction false} FinishedIsDelivered<D>(callers: seq<Caller<D>>, i: nat)
    requires i < |callers| && Finished(callers[i].pc)
    ensures callers[i].delivery in FinishedDeliveries(callers)
  {
    if i < |callers| - 1 { FinishedIsDelivered(callers[..|callers| - 1], i); }
  }

  // ------------------------------------------------------------------------ answers

  predicate CallOn<S, D, E>(p: Processor<S, D, E>, s: State<S, D>, i: int, key: string) {
    0 <= i < |s.callers| && p.key(s.callers[i].delivery) == key
  }

  ghost predicate Refuses<S, D, E>(p: Processor<S, D, E>, s: State<S, D>, key: string) {
    exists i :: CallOn(p, s, i, key) && s.callers[i].pc == Returned(false)
  }

  ghost predicate Threw<S, D, E>(p: Processor<S, D, E>, s: State<S, D>, key: string) {
    exists i :: CallOn(p, s, i, key) && s.callers[i].pc.Thrown?
  }

  ghost predicate RefusedInv<S, D, E>(p: Processor<S, D, E>, s: State<S, D>, key: string) {
    Refuses(p, s, key) ==> key in s.keys || Threw(p, s, key)
  }

  lemma ThrewStays<S, D, E>(p: Processor<S, D, E>, s: State<S, D>, e: Event, key: string)
    requires Threw(p, s, key)
    ensures Threw(p, Step(p, s, e), key)
  {
    var i :| CallOn(p, s, i, key) && s.callers[i].pc.Thrown?;
    var s' := Step(p, s, e);
    assert CallOn(p, s', i, key) && s'.callers[i].pc.Thrown?;
  }

  lemma RefusedBefore<S, D, E>(p: Processor<S, D, E>, s: State<S, D>, e: Event, key: string)
    requires Refuses(p, Step(p, s, e), key) && key !in Step(p, s, e).keys
    ensures Refuses(p, s, key)
  {
    var s' := Step(p, s, e);
    var i :| CallOn(p, s', i, key) && s'.callers[i].pc == Returned(false);
    assert CallOn(p, s, i, key) && s.callers[i].pc == Returned(false);
  }

  lemma RefusedInvStep<S, D, E>(p: Processor<S, D, E>, s: State<S, D>, e: Event, key: string)
    requires RefusedInv(p, s, key)
    ensures RefusedInv(p, Step(p, s, e), key)
  {
    var s' := Step(p, s, e);
    if Threw(p, s, key) {
      ThrewStays(p, s, e, key);
    } else if key in s.keys && key !in s'.keys {
      assert CallOn(p, s', e.i, key) && s'.callers[e.i].pc.Thrown?;
    } else if Refuses(p, s', key) && key !in s'.keys {
      RefusedBefore(p, s, e, key);
    }
  }

  lemma {:induction false} RunRefusedInv<S, D, E>(p: Processor<S, D, E>, s: State<S, D>, es: seq<Event>, key: string)
    requires RefusedInv(p, s, key)
    ensures RefusedInv(p, Run(p, s, es), key)
    decreases |es|
  {
    if es != [] {
      RefusedInvStep(p, s, es[0], key);
      RunRefusedInv(p, Step(p, s, es[0]), es[1..], key);
    }
  }

  /** "Already processed" is answered only while the key is in the table, or when a call on it
      has thrown. */
  lemma RefusedMeansHeldOrThrown<S, D, E>(
    p: Processor<S, D, E>, tables: S, ds: seq<D>, es: seq<Event>, i: nat, key: string
  )
    requires var s := Run(p, Start(tables, ds), es); CallOn(p, s, i, key) && s.callers[i].pc == Returned(false)
    ensures var s := Run(p, Start(tables, ds), es); key in s.keys || Threw(p, s, key)
  {
    RunRefusedInv(p, Start(tables, ds), es, key);
  }

  /** Once nobody on the key is inside, and if no call on it threw, each "already processed" is
      matched by exactly one call that answered "processed". */
  lemma RefusedMeansProcessedOnce<S, D, E>(
    p: Processor<S, D, E>, tables: S, ds: seq<D>, es: seq<Event>, i: nat, key: string
  ) returns (j: nat)
    requires var s := Run(p, Start(tables, ds), es);
      && CallOn(p, s, i, key) && s.callers[i].pc == Returned(false) && !Threw(p, s, key)
      && forall k :: CallOn(p, s, k, key) ==> !Inside(s.callers[k].pc)
    ensures var s := Run(p, Start(tables, ds), es);
      forall k :: CallOn(p, s, k, key) && s.callers[k].pc == Returned(true) <==> k == j
  {
    var s := Run(p, Start(tables, ds), es);
    RefusedMeansHeldOrThrown(p, tables, ds, es, i, key);
    KeyPresentExactly(p, tables, ds, es, key);
    j :| 0 <= j < |s.callers| && p.key(s.callers[j].delivery) == key
         && (Inside(s.callers[j].pc) || s.callers[j].pc == Returned(true) || s.callers[j].pc == Thrown(true));
    assert CallOn(p, s, j, key);
    forall k | CallOn(p, s, k, key) && s.callers[k].pc == Returned(true) ensures k == j {
      AtMostOneHolder(p, tables, ds, es, k, j);
    }
  }

  /** Why a throw matters: with a handler that fails, the second of two deliveries of one request
      is answered "already processed" and nothing was, nor will be, processed. */
  lemma RefusedThoughNothingProcessed<S, D, E>(p: Processor<S, D, E>, tables: S, d: D)
    requires p.work(tables, d).Err?
    ensures var s := Run(p, Start(tables, [d, d]), [Insert(0), Insert(1), Work(0), Delete(0)]);
      && s.callers[0].pc == Thrown(false) && s.callers[1].pc == Returned(false)
      && s.keys == {} && s.log == [] && s.tables == tables
  {
    var s0 := Start<S, D>(tables, [d, d]);
    var s1 := Step(p, s0, Insert(0));
    var s2 := Step(p, s1, Insert(1));
    var s3 := Step(p, s2, Work(0));
    var s4 := Step(p, s3, Delete(0));
    var r4 := [Delete(0)];
    var r3, r2 := [Work(0)] + r4, [Insert(1), Work(0), Delete(0)];
    assert r4[1..] == [] && r3[1..] == r4 && r2[1..] == r3;
    assert [Insert(0), Insert(1), Work(0), Delete(0)][1..] == r2;
    assert Run(p, s3, r4) == s4;
    assert Run(p, s1, r2) == Run(p, s2, r3) == s4;
    assert s4.keys == {};
  }

  // ------------------------------------------------------- the answers, one by one

  /** Every call has returned or was never made; none threw. */
  predicate Settled<S, D>(s: State<S, D>) {
    forall i :: 0 <= i < |s.callers| ==> s.callers[i].pc == Ready || s.callers[i].pc.Returned?
  }

  /** The deliveries answered "already processed". */
  function RefusedDeliveries<D>(callers: seq<Caller<D>>): seq<D> {
    if callers == [] then []
    else
      RefusedDeliveries(callers[..|callers| - 1])
      + if callers[|callers| - 1].pc == Returned(false) then [callers[|callers| - 1].delivery] else []
  }

  lemma {:induction false} RefusedSource<D>(callers: seq<Caller<D>>, k: nat) returns (i: nat)
    requires k < |RefusedDeliveries(callers)|
    ensures i < |callers| && callers[i].pc == Returned(false) && callers[i].delivery == RefusedDeliveries(callers)[k]
  {
    var n := |callers| - 1;
    if k < |RefusedDeliveries(callers[..n])| {
      i := RefusedSource(callers[..n], k);
    } else {
      i := n;
    }
  }

  predicate FailureInv<S, D>(s: State<S, D>) {
    s.failures == [] || exists i :: 0 <= i < |s.callers| && (s.callers[i].pc == Deleting || s.callers[i].pc.Thrown?)
  }

  lemma {:induction false} RunFailureInv<S, D, E>(p: Processor<S, D, E>, s: State<S, D>, es: seq<Event>)
    requires FailureInv(s)
    ensures FailureInv(Run(p, s, es))
    decreases |es|
  {
    if es != [] {
      var next := Step(p, s, es[0]);
      if s.failures != [] {
        var i :| 0 <= i < |s.callers| && (s.callers[i].pc == Deleting || s.callers[i].pc.Thrown?);
        assert next.callers[i].pc == Deleting || next.callers[i].pc.Thrown?;
      } else if next.failures != [] {
        assert next.callers[es[0].i].pc == Deleting;
      }
      RunFailureInv(p, next, es[1..]);
    }
  }

  lemma {:induction false} RecordedWhenLogged<S, D, E>(p: Processor<S, D, E>, l: S, log: seq<D>, k: nat)
    requires k < |log| && DeliverAll(p, l, log).answers[k].Processed?
    ensures p.key(log[k]) in DeliverAll(p, l, log).keys
  {
    KeysAreSuccesses(p, l, log, p.key(log[k]));
  }

  /** In a settled state every call that returned has the answer it has when the deliveries come
      one after the other: first those that were processed, in commit order, then those that were
      answered "already processed"; tables and keys are the same too. */
  lemma SettledIsSerial<S, D, E>(p: Processor<S, D, E>, tables: S, ds: seq<D>, es: seq<Event>)
    requires Settled(Run(p, Start(tables, ds), es))
    ensures var s := Run(p, Start(tables, ds), es);
      var refused := RefusedDeliveries(s.callers);
      var o := DeliverAll(p, tables, s.log + refused);
      && multiset(s.log) == FinishedDeliveries(s.callers)
      && o.state == s.tables && o.keys == s.keys
      && o.answers == seq(|s.log|, _ => Processed) + seq(|refused|, _ => AlreadyProcessed)
  {
    var s := Run(p, Start(tables, ds), es);
    var refused := RefusedDeliveries(s.callers);
    RunFailureInv(p, Start(tables, ds), es);
    assert s.failures == [];
    LogIsFinished(p, tables, ds, es);
    CommitsAreSerial(p, tables, ds, es);
    var o := DeliverAll(p, tables, s.log);
    forall key ensures key in o.keys <==> key in s.keys {
      SettledKeys(p, tables, ds, es, key);
    }
    forall k | 0 <= k < |refused| ensures p.key(refused[k]) in o.keys {
      var i := RefusedSource(s.callers, k);
      assert CallOn(p, s, i, p.key(refused[k]));
      RefusedMeansHeldOrThrown(p, tables, ds, es, i, p.key(refused[k]));
    }
    RecordedAreAnswered(p, tables, s.log, refused);
    assert o.answers == seq(|s.log|, _ => Processed);
  }

  /** In a settled state the recorded keys are those of the log. */
  lemma SettledKeys<S, D, E>(p: Processor<S, D, E>, tables: S, ds: seq<D>, es: seq<Event>, key: string)
    requires Settled(Run(p, Start(tables, ds), es)) && Run(p, Start(tables, ds), es).failures == []
    ensures var s := Run(p, Start(tables, ds), es); key in DeliverAll(p, tables, s.log).keys <==> key in s.keys
  {
    var s := Run(p, Start(tables, ds), es);
    CommitsAreSerial(p, tables, ds, es);
    KeysAreSuccesses(p, tables, s.log, key);
    KeyPresentExactly(p, tables, ds, es, key);
    LogIsFinished(p, tables, ds, es);
    if key in s.keys {
      var i :| 0 <= i < |s.callers| && p.key(s.callers[i].delivery) == key && s.callers[i].pc == Returned(true);
      FinishedIsDelivered(s.callers, i);
      assert s.callers[i].delivery in multiset(s.log);
      var k :| 0 <= k < |s.log| && s.log[k] == s.callers[i].delivery;
      RecordedWhenLogged(p, tables, s.log, k);
    }
    if k :| 0 <= k < |s.log| && p.key(s.log[k]) == key {
      LoggedKeyIsPresent(p, tables, ds, es, k);
    }
  }

  lemma {:induction false} DeliveredIsFinished<D>(callers: seq<Caller<D>>, d: D) returns (i: nat)
    requires d in FinishedDeliveries(callers)
    ensures i < |callers| && Finished(callers[i].pc) && callers[i].delivery == d
  {
    var n := |callers| - 1;
    if d in FinishedDeliveries(callers[..n]) {
      i := DeliveredIsFinished(callers[..n], d);
    } else {
      i := n;
    }
  }

  lemma LoggedKeyIsPresent<S, D, E>(p: Processor<S, D, E>, tables: S, ds: seq<D>, es: seq<Event>, k: nat)
    requires Run(p, Start(tables, ds), es).failures == [] && k < |Run(p, Start(tables, ds), es).log|
    ensures var s := Run(p, Start(tables, ds), es); p.key(s.log[k]) in s.keys
  {
    var s := Run(p, Start(tables, ds), es);
    LogIsFinished(p, tables, ds, es);
    assert s.log[k] in multiset(s.log);
    var i := DeliveredIsFinished(s.callers, s.log[k]);
    KeyPresentExactly(p, tables, ds, es, p.key(s.log[k]));
  }

  // ------------------------------------------------------------ one call on its own

  /** The events of one call, for each outcome of storing the response and deleting the key. */
  function CallEvents(i: nat, storable: bool, deletable: bool): seq<Event> {
    [Insert(i), Work(i), if storable then Respond(i) else RespondFails(i),
     if deletable then Delete(i) else DeleteFails(i)]
  }

  lemma RunFour<S, D, E>(p: Processor<S, D, E>, s: State<S, D>, a: Event, b: Event, c: Event, d: Event)
    ensures Run(p, s, [a, b, c, d]) == Step(p, Step(p, Step(p, Step(p, s, a), b), c), d)
  {
    var s1 := Step(p, s, a);
    var s2 := Step(p, s1, b);
    var s3 := Step(p, s2, c);
    assert [a, b, c, d][1..] == [b, c, d] && [b, c, d][1..] == [c, d] && [c, d][1..] == [d] && [d][1..] == [];
    assert Run(p, s3, [d]) == Step(p, s3, d);
    assert Run(p, s1, [b, c, d]) == Run(p, s2, [c, d]);
  }

  /** A call whose steps are not interrupted is a call of the sequential service, whichever of its
      own steps fail. */
  lemma UninterruptedCall<S, D, E>(p: Processor<S, D, E>, s: State<S, D>, i: nat, storable: bool, deletable: bool)
    requires i < |s.callers| && s.callers[i].pc == Ready
    ensures var e := Run(p, s, CallEvents(i, storable, deletable));
      var (tables, keys, answer) :=
        TryProcessWith(p, s.tables, s.keys, s.callers[i].delivery, storable, deletable);
      && e.tables == tables && e.keys == keys
      && |e.callers| == |s.callers| && e.callers[i].pc == (match answer
           case Processed => Returned(true)
           case AlreadyProcessed => Returned(false)
           case ProcessorFailed(_) => Thrown(!deletable)
           case ResponseLost => Thrown(!deletable))
  {
    RunFour(p, s, Insert(i), Work(i), if storable then Respond(i) else RespondFails(i),
            if deletable then Delete(i) else DeleteFails(i));
  }

  // --------------------------------------------------------------- when a refusal is right

  predicate SomeoneInside<S, D, E>(p: Processor<S, D, E>, s: State<S, D>, key: string) {
    exists i :: 0 <= i < |s.callers| && CallOn(p, s, i, key) && Inside(s.callers[i].pc)
  }

  /** Some call on the key has answered "processed". */
  ghost predicate Answered<S, D, E>(p: Processor<S, D, E>, s: State<S, D>, key: string) {
    exists k: nat :: Succeeded(p, s, k, key)
  }

  /** Whatever follows: whenever nobody on the key is inside, a call on it has answered "processed". */
  ghost predicate RightAfter<S, D, E>(p: Processor<S, D, E>, s: State<S, D>, key: string) {
    forall es :: !SomeoneInside(p, Run(p, s, es), key) ==> Answered(p, Run(p, s, es), key)
  }

  lemma OnlyHolder<S, D, E>(p: Processor<S, D, E>, s: State<S, D>, i: nat, k: nat, key: string)
    requires KeyInv(p, s, key) && CallOn(p, s, i, key) && CallOn(p, s, k, key) && i != k
    requires Holds(s.callers[i].pc)
    ensures !Holds(s.callers[k].pc)
  {
    if Holds(s.callers[k].pc) {
      TwoHolders(p, s.callers, if i < k then i else k, if i < k then k else i, key);
    }
  }

  /** A call that is inside can still throw: its response fails to be stored, or its work failed. */
  lemma InsideCanThrow<S, D, E>(p: Processor<S, D, E>, s: State<S, D>, i: nat, key: string)
    requires KeyInv(p, s, key) && CallOn(p, s, i, key) && Inside(s.callers[i].pc)
    ensures !RightAfter(p, s, key)
  {
    var e := Run(p, s, [Work(i), RespondFails(i), Delete(i), Delete(i)]);
    RunFour(p, s, Work(i), RespondFails(i), Delete(i), Delete(i));
    assert e.callers == s.callers[i := s.callers[i].(pc := Thrown(false))];
    forall k: nat | CallOn(p, e, k, key) ensures !Inside(e.callers[k].pc) && e.callers[k].pc != Returned(true) {
      if k != i { OnlyHolder(p, s, i, k, key); }
    }
    assert !SomeoneInside(p, e, key) && !Answered(p, e, key);
  }

  /** "Already processed" is answered while the key is present. It is right, whatever follows, if
      and only if a call on the key has answered "processed" by then. */
  lemma RefusalRightIff<S, D, E>(p: Processor<S, D, E>, s: State<S, D>, key: string)
    requires KeyInv(p, s, key) && key in s.keys
    ensures RightAfter(p, s, key) <==> Answered(p, s, key)
  {
    if k: nat :| Succeeded(p, s, k, key) {
      forall es ensures Answered(p, Run(p, s, es), key) {
        SuccessIsFinal(p, s, es, k, key);
      }
    } else {
      SomeHolder(p, s.callers, key);
      var i :| 0 <= i < |s.callers| && p.key(s.callers[i].delivery) == key && Holds(s.callers[i].pc);
      if Inside(s.callers[i].pc) {
        InsideCanThrow(p, s, i, key);
      } else {
        assert s.callers[i].pc == Thrown(true) by { assert !Succeeded(p, s, i, key); }
        forall k: nat | CallOn(p, s, k, key) ensures !Inside(s.callers[k].pc) {
          if k != i { OnlyHolder(p, s, i, k, key); }
        }
        assert Run(p, s, []) == s && !SomeoneInside(p, s, key);
      }
    }
  }

  /** In every reachable state: the insert that finds its key answers "already processed", and
      rightly so, whatever follows, if and only if a call on the key has answered "processed". */
  lemma RefusedRightlyIff<S, D, E>(p: Processor<S, D, E>, tables: S, ds: seq<D>, es: seq<Event>, i: nat)
    requires var s := Run(p, Start(tables, ds), es);
      i < |s.callers| && s.callers[i].pc == Ready && p.key(s.callers[i].delivery) in s.keys
    ensures var s := Run(p, Start(tables, ds), es);
      var key, s' := p.key(s.callers[i].delivery), Step(p, s, Insert(i));
      s'.callers[i].pc == Returned(false) && (RightAfter(p, s', key) <==> Answered(p, s, key))
  {
    var s := Run(p, Start(tables, ds), es);
    var key, s' := p.key(s.callers[i].delivery), Step(p, s, Insert(i));
    StartInv(p, tables, ds, key);
    RunInv(p, Start(tables, ds), es, key);
    KeyInvInsert(p, s, i, key);
    RefusalRightIff(p, s', key);
    forall k: nat ensures Succeeded(p, s, k, key) <==> Succeeded(p, s', k, key) {}
  }
}
