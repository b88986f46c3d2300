// Insert-first idempotency, for any processor: a key is inserted before the work, kept when
// the work succeeds and deleted when it fails. Here the calls come one after the other.
module Idempotency {
  import opened Prelude

  /** What is protected: the key of a request, and the work it does on the state. */
  datatype Processor<!S, !D, E> = Processor(key: D -> string, work: (S, D) -> Result<S, E>)

  /** What a call returns or throws; ResponseLost is the error of storing the response. */
  datatype Answer<E> = Processed | AlreadyProcessed | ProcessorFailed(error: E) | ResponseLost

  datatype Outcome<S, E> = Outcome(state: S, keys: set<string>, answers: seq<Answer<E>>)

  /** One call: insert the key, run the processor, store the response, and delete the key again
      when one of the two failed; storing and deleting may fail. */
  function TryProcessWith<S, D, E>(
    p: Processor<S, D, E>, l: S, keys: set<string>, d: D, storable: bool, deletable: bool
  ): (S, set<string>, Answer<E>) {
    var left := if deletable then keys else keys + {p.key(d)};
    if p.key(d) in keys then (l, keys, AlreadyProcessed)
    else match p.work(l, d)
      case Ok(l') => if storable then (l', keys + {p.key(d)}, Processed) else (l', left, ResponseLost)
      case Err(e) => (l, left, ProcessorFailed(e))
  }

  /** One call whose response can be stored and whose key can be deleted. */
  function TryProcess<S, D, E>(p: Processor<S, D, E>, l: S, keys: set<string>, d: D): (S, set<string>, Answer<E>) {
    TryProcessWith(p, l, keys, d, true, true)
  }

  /** The requests one after the other, starting with no key recorded. */
  function DeliverAll<S, D, E>(p: Processor<S, D, E>, l: S, ds: seq<D>): (o: Outcome<S, E>)
    ensures |o.answers| == |ds|
  {
    if ds == [] then Outcome(l, {}, [])
    else
      var o := DeliverAll(p, l, ds[..|ds| - 1]);
      var (l', keys', answer) := TryProcess(p, o.state, o.keys, ds[|ds| - 1]);
      Outcome(l', keys', o.answers + [answer])
  }

  /** The same work without any idempotency table; a call that fails is rolled back. */
  function Replay<S, D, E>(p: Processor<S, D, E>, l: S, ds: seq<D>): S {
    if ds == [] then l
    else
      var before := Replay(p, l, ds[..|ds| - 1]);
      match p.work(before, ds[|ds| - 1])
      case Ok(l') => l'
      case Err(_) => before
  }

  /** An earlier delivery of the same key succeeded. */
  predicate Repeats<S, D, E>(p: Processor<S, D, E>, ds: seq<D>, answers: seq<Answer<E>>, i: nat)
    requires i < |ds| && |answers| == |ds|
  {
    exists j :: 0 <= j < i && p.key(ds[j]) == p.key(ds[i]) && answers[j].Processed?
  }

  /** The list with every request after the first successful one of its key removed. */
  function WithoutRepeats<S, D, E>(p: Processor<S, D, E>, ds: seq<D>, answers: seq<Answer<E>>, n: nat): seq<D>
    requires n <= |ds| && |answers| == |ds|
  {
    if n == 0 then []
    else WithoutRepeats(p, ds, answers, n - 1) + if Repeats(p, ds, answers, n - 1) then [] else [ds[n - 1]]
  }

  lemma {:induction false} WithoutRepeatsOfPrefix<S, D, E>(
    p: Processor<S, D, E>, ds: seq<D>, answers: seq<Answer<E>>, m: nat, n: nat
  )
    requires n <= m <= |ds| && |answers| == |ds|
    ensures WithoutRepeats(p, ds[..m], answers[..m], n) == WithoutRepeats(p, ds, answers, n)
  {
    if n > 0 {
      WithoutRepeatsOfPrefix(p, ds, answers, m, n - 1);
      assert forall j :: 0 <= j < n ==> ds[..m][j] == ds[j] && answers[..m][j] == answers[j];
      assert Repeats(p, ds[..m], answers[..m], n - 1) == Repeats(p, ds, answers, n - 1);
    }
  }

  /** The answer to the last request, and what it leaves: a recorded key is refused; any other
      request gets the result of its own work, and is recorded if that succeeds. */
  lemma LastAnswer<S, D, E>(p: Processor<S, D, E>, l: S, ds: seq<D>)
    requires ds != []
    ensures var n := |ds| - 1;
      var before, o, d := DeliverAll(p, l, ds[..n]), DeliverAll(p, l, ds), ds[n];
      if p.key(d) in before.keys then
        o.answers[n] == AlreadyProcessed && o.state == before.state && o.keys == before.keys
      else match p.work(before.state, d)
        case Ok(l') => o.answers[n] == Processed && o.state == l' && o.keys == before.keys + {p.key(d)}
        case Err(e) => o.answers[n] == ProcessorFailed(e) && o.state == before.state && o.keys == before.keys
  {}

  /** A key is recorded exactly when some delivery of it succeeded. */
  lemma {:induction false} KeysAreSuccesses<S, D, E>(p: Processor<S, D, E>, l: S, ds: seq<D>, key: string)
    ensures var o := DeliverAll(p, l, ds);
      key in o.keys <==> exists j :: 0 <= j < |ds| && p.key(ds[j]) == key && o.answers[j].Processed?
  {
    if ds != [] {
      var n := |ds| - 1;
      KeysAreSuccesses(p, l, ds[..n], key);
      var o, before := DeliverAll(p, l, ds), DeliverAll(p, l, ds[..n]);
      assert forall j :: 0 <= j < n ==> ds[..n][j] == ds[j] && before.answers[j] == o.answers[j];
      if key in before.keys {
        var j :| 0 <= j < n && p.key(ds[..n][j]) == key && before.answers[j].Processed?;
        assert p.key(ds[j]) == key && o.answers[j].Processed?;
      }
      if key in o.keys && key !in before.keys {
        assert p.key(ds[n]) == key && o.answers[n] == Processed;
      }
    }
  }

  lemma AnswersOfPrefix<S, D, E>(p: Processor<S, D, E>, l: S, ds: seq<D>)
    requires ds != []
    ensures DeliverAll(p, l, ds).answers[..|ds| - 1] == DeliverAll(p, l, ds[..|ds| - 1]).answers
  {}

  /** The last request finds its key recorded exactly when it repeats a successful one. */
  lemma RecordedIffRepeats<S, D, E>(p: Processor<S, D, E>, l: S, ds: seq<D>)
    requires ds != []
    ensures p.key(ds[|ds| - 1]) in DeliverAll(p, l, ds[..|ds| - 1]).keys
       <==> Repeats(p, ds, DeliverAll(p, l, ds).answers, |ds| - 1)
  {
    var n := |ds| - 1;
    var answers := DeliverAll(p, l, ds).answers;
    AnswersOfPrefix(p, l, ds);
    KeysAreSuccesses(p, l, ds[..n], p.key(ds[n]));
    assert forall j :: 0 <= j < n ==> ds[..n][j] == ds[j] && answers[..n][j] == answers[j];
  }

  /** Repeats do not matter: the tables end as if every request after the first successful
      one of its key had never arrived. */
  lemma {:induction false} RepeatsDoNotMatter<S, D, E>(p: Processor<S, D, E>, l: S, ds: seq<D>)
    ensures DeliverAll(p, l, ds).state == Replay(p, l, WithoutRepeats(p, ds, DeliverAll(p, l, ds).answers, |ds|))
  {
    if ds != [] {
      var n := |ds| - 1;
      var answers := DeliverAll(p, l, ds).answers;
      RepeatsDoNotMatter(p, l, ds[..n]);
      AnswersOfPrefix(p, l, ds);
      WithoutRepeatsOfPrefix(p, ds, answers, n, n);
      RecordedIffRepeats(p, l, ds);
      var kept := WithoutRepeats(p, ds, answers, n);
      assert (kept + [ds[n]])[..|kept|] == kept;
      assert kept + [] == kept;
    }
  }

  /** After a delivery succeeded every later one of its key answers "already processed". */
  lemma {:induction false} OneSuccessPerKey<S, D, E>(p: Processor<S, D, E>, l: S, ds: seq<D>, i: nat, j: nat)
    requires i < j < |ds| && p.key(ds[i]) == p.key(ds[j])
    requires DeliverAll(p, l, ds).answers[i].Processed?
    ensures DeliverAll(p, l, ds).answers[j].AlreadyProcessed?
  {
    var n := |ds| - 1;
    var before := DeliverAll(p, l, ds[..n]);
    assert ds[..n][i] == ds[i] && before.answers[i].Processed?;
    if j < n {
      OneSuccessPerKey(p, l, ds[..n], i, j);
    } else {
      KeysAreSuccesses(p, l, ds[..n], p.key(ds[n]));
    }
  }

  /** Deliveries of a recorded key can be slipped in anywhere later without any effect. */
  lemma {:induction false} RedeliveryIsNoOp<S, D, E>(p: Processor<S, D, E>, l: S, ds: seq<D>, d: D, more: seq<D>)
    requires p.key(d) in DeliverAll(p, l, ds).keys
    ensures DeliverAll(p, l, ds + [d] + more).state == DeliverAll(p, l, ds + more).state
    ensures DeliverAll(p, l, ds + [d] + more).keys == DeliverAll(p, l, ds + more).keys
  {
    if more == [] {
      assert ds + [d] + more == ds + [d] && ds + more == ds;
      assert (ds + [d])[..|ds|] == ds;
    } else {
      var m := more[..|more| - 1];
      RedeliveryIsNoOp(p, l, ds, d, m);
      assert (ds + [d] + more)[..|ds + [d] + more| - 1] == ds + [d] + m;
      assert (ds + more)[..|ds + more| - 1] == ds + m;
    }
  }

  /** Requests whose keys are all recorded are answered "already processed" and change nothing. */
  lemma {:induction false} RecordedAreAnswered<S, D, E>(p: Processor<S, D, E>, l: S, ds: seq<D>, more: seq<D>)
    requires forall k :: 0 <= k < |more| ==> p.key(more[k]) in DeliverAll(p, l, ds).keys
    ensures var before, o := DeliverAll(p, l, ds), DeliverAll(p, l, ds + more);
      && o.state == before.state && o.keys == before.keys
      && o.answers == before.answers + seq(|more|, _ => AlreadyProcessed)
  {
    if more == [] {
      assert ds + more == ds;
    } else {
      var n := |more| - 1;
      RecordedAreAnswered(p, l, ds, more[..n]);
      assert (ds + more)[..|ds + more| - 1] == ds + more[..n];
    }
  }
}
