// Requests among other work: between two calls, and between the steps of interleaved calls,
// anybody else may change the state they share.
module MixedRuns {
  import opened Prelude
  import opened Idempotency
  import Interleaving

  /** A call of the idempotency service, or a step of somebody else. */
  datatype Item<D, B> = Request(request: D) | Background(step: B)

  datatype Mixed<S, E> = Mixed(state: S, keys: set<string>, answers: seq<Option<Answer<E>>>)

  /** The items one after the other; what others do gets no answer. */
  function DeliverMixed<S, D, E, B>(p: Processor<S, D, E>, other: (S, B) -> S, l: S, items: seq<Item<D, B>>)
    : (o: Mixed<S, E>)
    ensures |o.answers| == |items|
  {
    if items == [] then Mixed(l, {}, [])
    else
      var o := DeliverMixed(p, other, l, items[..|items| - 1]);
      match items[|items| - 1]
      case Background(b) => Mixed(other(o.state, b), o.keys, o.answers + [None])
      case Request(d) =>
        var (l', keys', answer) := TryProcess(p, o.state, o.keys, d);
        Mixed(l', keys', o.answers + [Some(answer)])
  }

  /** One item without any table of keys; a call that fails is rolled back. */
  function Redo<S, D, E, B>(p: Processor<S, D, E>, other: (S, B) -> S, l: S, item: Item<D, B>): S {
    match item
    case Background(b) => other(l, b)
    case Request(d) =>
      match p.work(l, d)
      case Ok(l') => l'
      case Err(_) => l
  }

  function ReplayMixed<S, D, E, B>(p: Processor<S, D, E>, other: (S, B) -> S, l: S, items: seq<Item<D, B>>): S {
    if items == [] then l
    else Redo(p, other, ReplayMixed(p, other, l, items[..|items| - 1]), items[|items| - 1])
  }

  /** The last item does its work unless it is a request whose key is recorded. */
  lemma DeliverLast<S, D, E, B>(p: Processor<S, D, E>, other: (S, B) -> S, l: S, items: seq<Item<D, B>>)
    requires items != []
    ensures var before, last := DeliverMixed(p, other, l, items[..|items| - 1]), items[|items| - 1];
      DeliverMixed(p, other, l, items).state
      == if last.Request? && p.key(last.request) in before.keys then before.state
         else Redo(p, other, before.state, last)
  {}

  predicate IsSuccess<S, D, E, B>(
    p: Processor<S, D, E>, items: seq<Item<D, B>>, answers: seq<Option<Answer<E>>>, j: int, key: string
  )
    requires |answers| == |items|
  {
    0 <= j < |items| && items[j].Request? && p.key(items[j].request) == key
    && answers[j].Some? && answers[j].value.Processed?
  }

  /** A request of which an earlier one of the same key succeeded. */
  predicate RepeatsMixed<S, D, E, B>(
    p: Processor<S, D, E>, items: seq<Item<D, B>>, answers: seq<Option<Answer<E>>>, i: nat
  )
    requires i < |items| && |answers| == |items|
  {
    items[i].Request? && exists j :: 0 <= j < i && IsSuccess(p, items, answers, j, p.key(items[i].request))
  }

  /** The list with every request after the first successful one of its key removed. */
  function WithoutRepeatsMixed<S, D, E, B>(
    p: Processor<S, D, E>, items: seq<Item<D, B>>, answers: seq<Option<Answer<E>>>, n: nat
  ): seq<Item<D, B>>
    requires n <= |items| && |answers| == |items|
  {
    if n == 0 then []
    else
      WithoutRepeatsMixed(p, items, answers, n - 1)
      + if RepeatsMixed(p, items, answers, n - 1) then [] else [items[n - 1]]
  }

  lemma SuccessOfPrefix<S, D, E, B>(
    p: Processor<S, D, E>, items: seq<Item<D, B>>, answers: seq<Option<Answer<E>>>, m: nat, j: int, key: string
  )
    requires j < m <= |items| && |answers| == |items|
    ensures IsSuccess(p, items[..m], answers[..m], j, key) <==> IsSuccess(p, items, answers, j, key)
  {}

  lemma {:induction false} WithoutRepeatsMixedOfPrefix<S, D, E, B>(
    p: Processor<S, D, E>, items: seq<Item<D, B>>, answers: seq<Option<Answer<E>>>, m: nat, n: nat
  )
    requires n <= m <= |items| && |answers| == |items|
    ensures WithoutRepeatsMixed(p, items[..m], answers[..m], n) == WithoutRepeatsMixed(p, items, answers, n)
  {
    if n > 0 {
      WithoutRepeatsMixedOfPrefix(p, items, answers, m, n - 1);
      if items[n - 1].Request? {
        var key := p.key(items[n - 1].request);
        forall j | 0 <= j < n - 1
          ensures IsSuccess(p, items[..m], answers[..m], j, key) <==> IsSuccess(p, items, answers, j, key)
        {
          SuccessOfPrefix(p, items, answers, m, j, key);
        }
      }
    }
  }

  lemma AnswersOfPrefixMixed<S, D, E, B>(p: Processor<S, D, E>, other: (S, B) -> S, l: S, items: seq<Item<D, B>>)
    requires items != []
    ensures var n := |items| - 1;
      DeliverMixed(p, other, l, items).answers[..n] == DeliverMixed(p, other, l, items[..n]).answers
  {}

  /** A key is recorded exactly when some request of it succeeded. */
  lemma {:induction false} KeysAreSuccessesMixed<S, D, E, B>(
    p: Processor<S, D, E>, other: (S, B) -> S, l: S, items: seq<Item<D, B>>, key: string
  )
    ensures var o := DeliverMixed(p, other, l, items);
      key in o.keys <==> exists j :: 0 <= j < |items| && IsSuccess(p, items, o.answers, j, key)
  {
    if items != [] {
      var n := |items| - 1;
      var o, before := DeliverMixed(p, other, l, items), DeliverMixed(p, other, l, items[..n]);
      KeysAreSuccessesMixed(p, other, l, items[..n], key);
      AnswersOfPrefixMixed(p, other, l, items);
      forall j | 0 <= j < n
        ensures IsSuccess(p, items[..n], before.answers, j, key) <==> IsSuccess(p, items, o.answers, j, key)
      {
        SuccessOfPrefix(p, items, o.answers, n, j, key);
      }
      assert key in o.keys <==> key in before.keys || IsSuccess(p, items, o.answers, n, key);
    }
  }

  /** The last request finds its key recorded exactly when it repeats a successful one. */
  lemma RecordedIffRepeatsMixed<S, D, E, B>(
    p: Processor<S, D, E>, other: (S, B) -> S, l: S, items: seq<Item<D, B>>
  )
    requires items != [] && items[|items| - 1].Request?
    ensures p.key(items[|items| - 1].request) in DeliverMixed(p, other, l, items[..|items| - 1]).keys
       <==> RepeatsMixed(p, items, DeliverMixed(p, other, l, items).answers, |items| - 1)
  {
    var n := |items| - 1;
    var answers, key := DeliverMixed(p, other, l, items).answers, p.key(items[n].request);
    AnswersOfPrefixMixed(p, other, l, items);
    KeysAreSuccessesMixed(p, other, l, items[..n], key);
    forall j | 0 <= j < n
      ensures IsSuccess(p, items[..n], answers[..n], j, key) <==> IsSuccess(p, items, answers, j, key)
    {
      SuccessOfPrefix(p, items, answers, n, j, key);
    }
  }

  /** Repeats do not matter, whatever others do in between. */
  lemma {:induction false} RepeatsDoNotMatterMixed<S, D, E, B>(
    p: Processor<S, D, E>, other: (S, B) -> S, l: S, items: seq<Item<D, B>>
  )
    ensures var o := DeliverMixed(p, other, l, items);
      o.state == ReplayMixed(p, other, l, WithoutRepeatsMixed(p, items, o.answers, |items|))
  {
    if items != [] {
      var n := |items| - 1;
      var answers := DeliverMixed(p, other, l, items).answers;
      RepeatsDoNotMatterMixed(p, other, l, items[..n]);
      AnswersOfPrefixMixed(p, other, l, items);
      WithoutRepeatsMixedOfPrefix(p, items, answers, n, n);
      assert answers[..n] == DeliverMixed(p, other, l, items[..n]).answers;
      DeliverLast(p, other, l, items);
      if items[n].Request? { RecordedIffRepeatsMixed(p, other, l, items); }
      var kept := WithoutRepeatsMixed(p, items, answers, n);
      if RepeatsMixed(p, items, answers, n) {
        assert kept + [] == kept;
      } else {
        assert (kept + [items[n]])[..|kept|] == kept;
      }
    }
  }

  // ----------------------------------------------------------- among interleaved calls

  datatype Move<B> = Call(event: Interleaving.Event) | Outside(step: B)

  function Next<S, D, E, B>(
    p: Processor<S, D, E>, other: (S, B) -> S, s: Interleaving.State<S, D>, m: Move<B>
  ): Interleaving.State<S, D> {
    match m
    case Call(e) => Interleaving.Step(p, s, e)
    case Outside(b) => s.(tables := other(s.tables, b))
  }

  function RunMoves<S, D, E, B>(
    p: Processor<S, D, E>, other: (S, B) -> S, s: Interleaving.State<S, D>, ms: seq<Move<B>>
  ): Interleaving.State<S, D>
    decreases |ms|
  {
    if ms == [] then s else RunMoves(p, other, Next(p, other, s, ms[0]), ms[1..])
  }

  /** What others do to the state does not touch the accounting of keys. */
  lemma {:induction false} RunMovesInv<S, D, E, B>(
    p: Processor<S, D, E>, other: (S, B) -> S, s: Interleaving.State<S, D>, ms: seq<Move<B>>, key: string
  )
    requires Interleaving.KeyInv(p, s, key)
    ensures Interleaving.KeyInv(p, RunMoves(p, other, s, ms), key)
    decreases |ms|
  {
    if ms != [] {
      if ms[0].Call? { Interleaving.KeyInvStep(p, s, ms[0].event, key); }
      RunMovesInv(p, other, Next(p, other, s, ms[0]), ms[1..], key);
    }
  }

  /** So among any work of others at most one call on a key is inside or was processed. */
  lemma OneHolderAmongOthers<S, D, E, B>(
    p: Processor<S, D, E>, other: (S, B) -> S, l: S, ds: seq<D>, ms: seq<Move<B>>, i: nat, j: nat, key: string
  )
    requires var s := RunMoves(p, other, Interleaving.Start(l, ds), ms);
      && Interleaving.CallOn(p, s, i, key) && Interleaving.CallOn(p, s, j, key)
      && (Interleaving.Inside(s.callers[i].pc) || s.callers[i].pc == Interleaving.Returned(true))
      && (Interleaving.Inside(s.callers[j].pc) || s.callers[j].pc == Interleaving.Returned(true))
    ensures i == j
  {
    var s := RunMoves(p, other, Interleaving.Start(l, ds), ms);
    Interleaving.StartInv(p, l, ds, key);
    RunMovesInv(p, other, Interleaving.Start(l, ds), ms, key);
    if i != j { Interleaving.OnlyHolder(p, s, i, j, key); }
  }
}
