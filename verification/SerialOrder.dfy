// Interleaved calls against calls made one after the other: when there is an order of the calls
// in which the sequential service gives every one of them the answer it got.
module SerialOrder {
  import opened Prelude
  import opened Idempotency
  import opened Interleaving

  /** Inserts, stores and deletes that do not fail; handlers may. */
  predicate Plain(es: seq<Event>) {
    forall k :: 0 <= k < |es| ==> !es[k].InsertFails? && !es[k].RespondFails? && !es[k].DeleteFails?
  }

  predicate Quiet<S, D>(s: State<S, D>) {
    forall i :: 0 <= i < |s.callers| ==> !Inside(s.callers[i].pc)
  }

  /** The handler of the call has run. */
  predicate Worked(pc: Pc) {
    Finished(pc) || pc == Deleting || pc.Thrown?
  }

  /** An answer of the sequential service, and where a call stands that gives or will give it. */
  predicate Gives<E>(answer: Answer<E>, pc: Pc) {
    match answer
    case Processed => Finished(pc)
    case AlreadyProcessed => pc == Returned(false)
    case ProcessorFailed(_) => pc == Deleting || pc.Thrown?
    case ResponseLost => false
  }

  predicate Calls<D>(callers: seq<Caller<D>>, order: seq<nat>) {
    && (forall k :: 0 <= k < |order| ==> order[k] < |callers|)
    && (forall j, k :: 0 <= j < k < |order| ==> order[j] != order[k])
  }

  function Deliveries<D>(callers: seq<Caller<D>>, order: seq<nat>): (ds: seq<D>)
    requires Calls(callers, order)
    ensures |ds| == |order|
  {
    seq(|order|, k requires 0 <= k < |order| => callers[order[k]].delivery)
  }

  /** Made one after the other in this order, every call gets the answer it has. */
  predicate Agrees<S, D, E>(p: Processor<S, D, E>, tables: S, callers: seq<Caller<D>>, order: seq<nat>)
    requires Calls(callers, order)
  {
    forall k :: 0 <= k < |order| ==>
      Gives(DeliverAll(p, tables, Deliveries(callers, order)).answers[k], callers[order[k]].pc)
  }

  /** The order holds every call that was made. */
  predicate Complete<D>(callers: seq<Caller<D>>, order: seq<nat>) {
    Calls(callers, order) && forall i: nat :: i < |callers| ==> (i in order <==> callers[i].pc != Ready)
  }

  ghost predicate Serial<S, D, E>(p: Processor<S, D, E>, tables: S, s: State<S, D>) {
    exists order :: Complete(s.callers, order) && Agrees(p, tables, s.callers, order)
  }

  /** Every refused call has a call on its key that was processed. */
  ghost predicate RefusalsBacked<S, D, E>(p: Processor<S, D, E>, s: State<S, D>) {
    forall i: nat :: i < |s.callers| && s.callers[i].pc == Returned(false) ==>
      Answered(p, s, p.key(s.callers[i].delivery))
  }

  // ---------------------------------------------------------------- the handlers in order

  ghost predicate AllKeyInv<S, D, E>(p: Processor<S, D, E>, s: State<S, D>) {
    forall key :: KeyInv(p, s, key)
  }

  /** The handlers that ran did so as if one after the other, in the order they ran in. */
  ghost predicate AttemptInv<S, D, E>(p: Processor<S, D, E>, tables: S, s: State<S, D>) {
    && Calls(s.callers, s.attempts)
    && (forall i: nat :: i < |s.callers| ==>
          (i in s.attempts <==> Worked(s.callers[i].pc)) && s.callers[i].pc != Thrown(true))
    && DeliverAll(p, tables, Deliveries(s.callers, s.attempts)).state == s.tables
    && Agrees(p, tables, s.callers, s.attempts)
  }

  /** While a handler runs no call on its key has been processed. */
  lemma RunningIsNew<S, D, E>(p: Processor<S, D, E>, tables: S, s: State<S, D>, i: nat)
    requires AttemptInv(p, tables, s) && AllKeyInv(p, s) && i < |s.callers| && s.callers[i].pc == Running
    ensures p.key(s.callers[i].delivery) !in DeliverAll(p, tables, Deliveries(s.callers, s.attempts)).keys
  {
    var key, ds := p.key(s.callers[i].delivery), Deliveries(s.callers, s.attempts);
    KeysAreSuccesses(p, tables, ds, key);
    if key in DeliverAll(p, tables, ds).keys {
      var j :| 0 <= j < |ds| && p.key(ds[j]) == key && DeliverAll(p, tables, ds).answers[j].Processed?;
      assert Gives(DeliverAll(p, tables, ds).answers[j], s.callers[s.attempts[j]].pc);
      OnlyHolder(p, s, i, s.attempts[j], key);
    }
  }

  lemma DeliverSnoc<S, D, E>(p: Processor<S, D, E>, l: S, ds: seq<D>, d: D)
    ensures var o := DeliverAll(p, l, ds);
      var (l', keys', answer) := TryProcess(p, o.state, o.keys, d);
      DeliverAll(p, l, ds + [d]) == Outcome(l', keys', o.answers + [answer])
  {
    assert (ds + [d])[..|ds|] == ds;
  }

  /** Where a call stands after a plain step that runs no handler of its own. */
  lemma PcAfter<S, D, E>(p: Processor<S, D, E>, s: State<S, D>, e: Event, i: nat)
    requires i < |s.callers| && Plain([e]) && !(e.Work? && e.i == i && s.callers[i].pc == Running)
    ensures |Step(p, s, e).callers| == |s.callers| && Step(p, s, e).callers[i].delivery == s.callers[i].delivery
    ensures var pc, pc' := s.callers[i].pc, Step(p, s, e).callers[i].pc;
      && (Worked(pc') <==> Worked(pc)) && (Finished(pc') <==> Finished(pc))
      && (pc' == Thrown(true) ==> pc == Thrown(true))
  {
    assert [e][0] == e;
  }

  /** The answer of a handler that ran holds on to where its call stands. */
  lemma GivesByClass<E>(answer: Answer<E>, pc: Pc, pc': Pc)
    requires Worked(pc) && Worked(pc') && (Finished(pc') <==> Finished(pc)) && Gives(answer, pc)
    ensures Gives(answer, pc')
  {}

  lemma SameDeliveries<D>(callers: seq<Caller<D>>, callers': seq<Caller<D>>, order: seq<nat>)
    requires Calls(callers, order) && |callers'| == |callers|
    requires forall i :: 0 <= i < |callers| ==> callers'[i].delivery == callers[i].delivery
    ensures Calls(callers', order) && Deliveries(callers', order) == Deliveries(callers, order)
  {}

  /** Answers stay right when the calls move on. */
  lemma AgreesStays<S, D, E>(
    p: Processor<S, D, E>, tables: S, callers: seq<Caller<D>>, callers': seq<Caller<D>>, order: seq<nat>
  )
    requires Calls(callers, order) && Agrees(p, tables, callers, order) && |callers'| == |callers|
    requires forall i :: 0 <= i < |callers| ==> callers'[i].delivery == callers[i].delivery
    requires forall i: nat :: i in order ==>
      Worked(callers[i].pc) && Worked(callers'[i].pc) && (Finished(callers'[i].pc) <==> Finished(callers[i].pc))
    ensures Calls(callers', order) && Agrees(p, tables, callers', order)
  {
    SameDeliveries(callers, callers', order);
    var answers := DeliverAll(p, tables, Deliveries(callers, order)).answers;
    forall k | 0 <= k < |order| ensures Gives(answers[k], callers'[order[k]].pc) {
      assert order[k] in order && Gives(answers[k], callers[order[k]].pc);
      GivesByClass(answers[k], callers[order[k]].pc, callers'[order[k]].pc);
    }
  }

  /** Any plain step but the running of a handler leaves what was attempted as it was. */
  lemma AttemptOther<S, D, E>(p: Processor<S, D, E>, tables: S, s: State<S, D>, e: Event)
    requires AttemptInv(p, tables, s) && Plain([e]) && Step(p, s, e).attempts == s.attempts
    ensures AttemptInv(p, tables, Step(p, s, e))
  {
    var s' := Step(p, s, e);
    assert s'.tables == s.tables;
    forall i: nat | i < |s.callers|
      ensures |s'.callers| == |s.callers| && s'.callers[i].delivery == s.callers[i].delivery
      ensures Worked(s'.callers[i].pc) <==> Worked(s.callers[i].pc)
      ensures Finished(s'.callers[i].pc) <==> Finished(s.callers[i].pc)
      ensures s'.callers[i].pc != Thrown(true)
    {
      PcAfter(p, s, e, i);
    }
    AgreesStays(p, tables, s.callers, s'.callers, s.attempts);
    SameDeliveries(s.callers, s'.callers, s.attempts);
  }

  lemma AppendDistinct(a: seq<nat>, b: seq<nat>)
    requires forall j, k :: 0 <= j < k < |a| ==> a[j] != a[k]
    requires forall j, k :: 0 <= j < k < |b| ==> b[j] != b[k]
    requires forall k :: 0 <= k < |b| ==> b[k] !in a
    ensures forall j, k :: 0 <= j < k < |a + b| ==> (a + b)[j] != (a + b)[k]
  {}

  lemma DeliveriesSnoc<D>(callers: seq<Caller<D>>, order: seq<nat>, i: nat)
    requires Calls(callers, order) && i < |callers| && i !in order
    ensures Calls(callers, order + [i])
    ensures Deliveries(callers, order + [i]) == Deliveries(callers, order) + [callers[i].delivery]
  {
    AppendDistinct(order, [i]);
  }

  lemma AgreesSnoc<S, D, E>(p: Processor<S, D, E>, tables: S, callers: seq<Caller<D>>, order: seq<nat>, i: nat)
    requires Calls(callers, order) && Agrees(p, tables, callers, order) && i < |callers| && i !in order
    requires var o := DeliverAll(p, tables, Deliveries(callers, order));
      Gives(TryProcess(p, o.state, o.keys, callers[i].delivery).2, callers[i].pc)
    ensures Calls(callers, order + [i]) && Agrees(p, tables, callers, order + [i])
    ensures Deliveries(callers, order + [i]) == Deliveries(callers, order) + [callers[i].delivery]
  {
    DeliveriesSnoc(callers, order, i);
    DeliverSnoc(p, tables, Deliveries(callers, order), callers[i].delivery);
    var answers := DeliverAll(p, tables, Deliveries(callers, order + [i])).answers;
    forall k | 0 <= k < |order| + 1 ensures Gives(answers[k], callers[(order + [i])[k]].pc) {
      if k < |order| {
        assert Gives(DeliverAll(p, tables, Deliveries(callers, order)).answers[k], callers[order[k]].pc);
      }
    }
  }

  /** A handler that runs next, on a key that is not recorded. */
  lemma AttemptSnoc<S, D, E>(p: Processor<S, D, E>, tables: S, s: State<S, D>, s': State<S, D>, i: nat, pc: Pc)
    requires AttemptInv(p, tables, s) && i < |s.callers| && !Worked(s.callers[i].pc)
    requires s'.callers == s.callers[i := s.callers[i].(pc := pc)] && s'.attempts == s.attempts + [i]
    requires Worked(pc) && pc != Thrown(true)
    requires var o := DeliverAll(p, tables, Deliveries(s.callers, s.attempts));
      var (l', _, answer) := TryProcess(p, o.state, o.keys, s.callers[i].delivery);
      s'.tables == l' && Gives(answer, pc)
    ensures AttemptInv(p, tables, s')
  {
    AgreesStays(p, tables, s.callers, s'.callers, s.attempts);
    SameDeliveries(s.callers, s'.callers, s.attempts);
    AgreesSnoc(p, tables, s'.callers, s.attempts, i);
    DeliverSnoc(p, tables, Deliveries(s.callers, s.attempts), s.callers[i].delivery);
    forall j: nat | j < |s'.callers| ensures j in s'.attempts <==> Worked(s'.callers[j].pc) {
      assert j in s'.attempts <==> j in s.attempts || j == i;
    }
  }

  lemma AttemptWork<S, D, E>(p: Processor<S, D, E>, tables: S, s: State<S, D>, i: nat)
    requires AttemptInv(p, tables, s) && AllKeyInv(p, s) && i < |s.callers| && s.callers[i].pc == Running
    ensures AttemptInv(p, tables, Step(p, s, Work(i)))
  {
    var s' := Step(p, s, Work(i));
    RunningIsNew(p, tables, s, i);
    AttemptSnoc(p, tables, s, s', i, s'.callers[i].pc);
  }

  lemma {:induction false} RunAttempts<S, D, E>(p: Processor<S, D, E>, tables: S, s: State<S, D>, es: seq<Event>)
    requires AttemptInv(p, tables, s) && AllKeyInv(p, s) && Plain(es)
    ensures AttemptInv(p, tables, Run(p, s, es)) && AllKeyInv(p, Run(p, s, es))
    decreases |es|
  {
    if es != [] {
      var next := Step(p, s, es[0]);
      forall key ensures KeyInv(p, next, key) { KeyInvStep(p, s, es[0], key); }
      if next.attempts != s.attempts {
        AttemptWork(p, tables, s, es[0].i);
      } else {
        AttemptOther(p, tables, s, es[0]);
      }
      RunAttempts(p, tables, next, es[1..]);
    }
  }

  lemma AttemptsReached<S, D, E>(p: Processor<S, D, E>, tables: S, ds: seq<D>, es: seq<Event>)
    requires Plain(es)
    ensures var s := Run(p, Start(tables, ds), es); AttemptInv(p, tables, s) && AllKeyInv(p, s)
  {
    forall key ensures KeyInv(p, Start(tables, ds), key) { StartInv(p, tables, ds, key); }
    RunAttempts(p, tables, Start(tables, ds), es);
  }

  // ------------------------------------------------------------------- backed is serial

  /** A call that was processed has its key recorded by the handlers that ran. */
  lemma ProcessedIsRecorded<S, D, E>(p: Processor<S, D, E>, tables: S, s: State<S, D>, i: nat)
    requires AttemptInv(p, tables, s) && i < |s.callers| && s.callers[i].pc == Returned(true)
    ensures p.key(s.callers[i].delivery) in DeliverAll(p, tables, Deliveries(s.callers, s.attempts)).keys
  {
    var ds := Deliveries(s.callers, s.attempts);
    assert i in s.attempts;
    var k :| 0 <= k < |s.attempts| && s.attempts[k] == i;
    assert Gives(DeliverAll(p, tables, ds).answers[k], s.callers[i].pc);
    assert DeliverAll(p, tables, ds).answers[k].Processed? && ds[k] == s.callers[i].delivery;
    KeysAreSuccesses(p, tables, ds, p.key(ds[k]));
  }

  lemma RecordedIsProcessed<S, D, E>(p: Processor<S, D, E>, tables: S, s: State<S, D>, key: string)
    requires AttemptInv(p, tables, s) && Quiet(s)
    requires key in DeliverAll(p, tables, Deliveries(s.callers, s.attempts)).keys
    ensures Answered(p, s, key)
  {
    var ds := Deliveries(s.callers, s.attempts);
    KeysAreSuccesses(p, tables, ds, key);
    var k :| 0 <= k < |ds| && p.key(ds[k]) == key && DeliverAll(p, tables, ds).answers[k].Processed?;
    assert Gives(DeliverAll(p, tables, ds).answers[k], s.callers[s.attempts[k]].pc);
    assert Succeeded(p, s, s.attempts[k], key);
  }

  /** The calls answered "already processed". */
  function RefusedCalls<D>(callers: seq<Caller<D>>, n: nat): (r: seq<nat>)
    requires n <= |callers|
    ensures forall k :: 0 <= k < |r| ==> r[k] < n && callers[r[k]].pc == Returned(false)
    ensures forall j, k :: 0 <= j < k < |r| ==> r[j] != r[k]
    ensures forall i: nat :: i < n && callers[i].pc == Returned(false) ==> i in r
  {
    if n == 0 then []
    else RefusedCalls(callers, n - 1) + if callers[n - 1].pc == Returned(false) then [n - 1] else []
  }

  /** First the handlers in the order they ran in, then the refusals. */
  lemma OrderIsComplete<S, D, E>(p: Processor<S, D, E>, tables: S, s: State<S, D>)
    requires AttemptInv(p, tables, s) && Quiet(s)
    ensures Complete(s.callers, s.attempts + RefusedCalls(s.callers, |s.callers|))
  {
    var refused := RefusedCalls(s.callers, |s.callers|);
    AppendDistinct(s.attempts, refused);
    forall i: nat | i < |s.callers| ensures i in s.attempts + refused <==> s.callers[i].pc != Ready {
      assert i in s.attempts + refused <==> i in s.attempts || i in refused;
    }
  }

  /** When every refusal is backed the calls are serial, and so are the tables and the keys. */
  lemma BackedIsSerial<S, D, E>(p: Processor<S, D, E>, tables: S, ds: seq<D>, es: seq<Event>)
    returns (order: seq<nat>)
    requires Plain(es) && Quiet(Run(p, Start(tables, ds), es)) && RefusalsBacked(p, Run(p, Start(tables, ds), es))
    ensures var s := Run(p, Start(tables, ds), es);
      && Complete(s.callers, order) && Agrees(p, tables, s.callers, order)
      && DeliverAll(p, tables, Deliveries(s.callers, order)).state == s.tables
      && DeliverAll(p, tables, Deliveries(s.callers, order)).keys == s.keys
  {
    var s := Run(p, Start(tables, ds), es);
    AttemptsReached(p, tables, ds, es);
    var refused := RefusedCalls(s.callers, |s.callers|);
    order := s.attempts + refused;
    OrderIsComplete(p, tables, s);
    var first := Deliveries(s.callers, s.attempts);
    forall k | 0 <= k < |refused| ensures p.key(s.callers[refused[k]].delivery) in DeliverAll(p, tables, first).keys {
      var key := p.key(s.callers[refused[k]].delivery);
      assert Answered(p, s, key);
      var n: nat :| Succeeded(p, s, n, key);
      ProcessedIsRecorded(p, tables, s, n);
    }
    AgreesAppend(p, tables, s.callers, s.attempts, refused);
    forall key ensures key in DeliverAll(p, tables, first).keys <==> key in s.keys {
      QuietKeys(p, tables, ds, es, key);
    }
  }

  /** Refused calls, put last, agree when the sequential service refuses them too. */
  lemma AgreesAppend<S, D, E>(
    p: Processor<S, D, E>, tables: S, callers: seq<Caller<D>>, order: seq<nat>, refused: seq<nat>
  )
    requires Calls(callers, order) && Agrees(p, tables, callers, order)
    requires Calls(callers, refused) && Calls(callers, order + refused)
    requires forall k :: 0 <= k < |refused| ==> callers[refused[k]].pc == Returned(false)
    requires forall k :: 0 <= k < |refused| ==>
      p.key(callers[refused[k]].delivery) in DeliverAll(p, tables, Deliveries(callers, order)).keys
    ensures Agrees(p, tables, callers, order + refused)
    ensures var o, all := DeliverAll(p, tables, Deliveries(callers, order)), Deliveries(callers, order + refused);
      DeliverAll(p, tables, all).state == o.state && DeliverAll(p, tables, all).keys == o.keys
  {
    var first, more := Deliveries(callers, order), Deliveries(callers, refused);
    assert Deliveries(callers, order + refused) == first + more;
    RecordedAreAnswered(p, tables, first, more);
    forall k | 0 <= k < |order + refused|
      ensures Gives(DeliverAll(p, tables, first + more).answers[k], callers[(order + refused)[k]].pc)
    {
      if k < |order| { assert Gives(DeliverAll(p, tables, first).answers[k], callers[order[k]].pc); }
    }
  }

  lemma QuietKeys<S, D, E>(p: Processor<S, D, E>, tables: S, ds: seq<D>, es: seq<Event>, key: string)
    requires Plain(es) && Quiet(Run(p, Start(tables, ds), es))
    requires AttemptInv(p, tables, Run(p, Start(tables, ds), es))
    ensures var s := Run(p, Start(tables, ds), es);
      key in DeliverAll(p, tables, Deliveries(s.callers, s.attempts)).keys <==> key in s.keys
  {
    var s := Run(p, Start(tables, ds), es);
    KeyPresentExactly(p, tables, ds, es, key);
    if key in s.keys {
      var i :| 0 <= i < |s.callers| && p.key(s.callers[i].delivery) == key && s.callers[i].pc == Returned(true);
      ProcessedIsRecorded(p, tables, s, i);
    }
    if key in DeliverAll(p, tables, Deliveries(s.callers, s.attempts)).keys {
      RecordedIsProcessed(p, tables, s, key);
      var k: nat :| Succeeded(p, s, k, key);
    }
  }

  // ------------------------------------------------------------------- serial is backed

  /** Made one after the other, a call is refused only after one on its key was processed. */
  lemma {:induction false} RefusedAfterProcessed<S, D, E>(p: Processor<S, D, E>, l: S, ds: seq<D>, k: nat)
    returns (j: nat)
    requires k < |ds| && DeliverAll(p, l, ds).answers[k].AlreadyProcessed?
    ensures j < k && p.key(ds[j]) == p.key(ds[k]) && DeliverAll(p, l, ds).answers[j].Processed?
  {
    var n := |ds| - 1;
    var before := DeliverAll(p, l, ds[..n]);
    if k < n {
      j := RefusedAfterProcessed(p, l, ds[..n], k);
    } else {
      KeysAreSuccesses(p, l, ds[..n], p.key(ds[n]));
      j :| 0 <= j < n && p.key(ds[..n][j]) == p.key(ds[n]) && before.answers[j].Processed?;
    }
    assert ds[..n][j] == ds[j] && DeliverAll(p, l, ds).answers[j] == before.answers[j];
  }

  lemma SerialIsBacked<S, D, E>(p: Processor<S, D, E>, tables: S, s: State<S, D>, order: seq<nat>)
    requires Quiet(s) && Complete(s.callers, order) && Agrees(p, tables, s.callers, order)
    ensures RefusalsBacked(p, s)
  {
    var ds := Deliveries(s.callers, order);
    forall i: nat | i < |s.callers| && s.callers[i].pc == Returned(false)
      ensures Answered(p, s, p.key(s.callers[i].delivery))
    {
      assert i in order;
      var k :| 0 <= k < |order| && order[k] == i;
      assert Gives(DeliverAll(p, tables, ds).answers[k], s.callers[order[k]].pc);
      var j := RefusedAfterProcessed(p, tables, ds, k);
      assert Gives(DeliverAll(p, tables, ds).answers[j], s.callers[order[j]].pc);
      assert Succeeded(p, s, order[j], p.key(s.callers[i].delivery));
    }
  }

  /** Once nobody is inside, and with handlers that may fail: there is an order of the calls in
      which the sequential service gives every one of them its answer if and only if every key
      with a refused call has a processed one. */
  lemma SerialIffBacked<S, D, E>(p: Processor<S, D, E>, tables: S, ds: seq<D>, es: seq<Event>)
    requires Plain(es) && Quiet(Run(p, Start(tables, ds), es))
    ensures var s := Run(p, Start(tables, ds), es); Serial(p, tables, s) <==> RefusalsBacked(p, s)
  {
    var s := Run(p, Start(tables, ds), es);
    if RefusalsBacked(p, s) {
      var order := BackedIsSerial(p, tables, ds, es);
    }
    if order :| Complete(s.callers, order) && Agrees(p, tables, s.callers, order) {
      SerialIsBacked(p, tables, s, order);
    }
  }
}
