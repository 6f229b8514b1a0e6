/** The code of a routine, as both runners drive it: what it does with the outcomes of
    its one `run_parallel` call, and what it has collected when it finishes. */
module Routines {
  import opened Outcomes

  /** What the routine's own code does with the one `run_parallel` call it makes. */
  datatype Body =
    | Collect(limit: nat)  // `async for r in runner.run_parallel(funcs): if len(results) >= limit: break; results.append(r)`
    | First                // the body of `run`: `async for r in run_parallel(funcs): return r`, then `assert False`
    | AwaitForeign         // awaits something that yields a value other than an `_AsyncTask`

  lemma SubMultisetSize<T>(a: multiset<T>, b: multiset<T>)
    requires a <= b
    ensures |a| <= |b|
  {
    assert b == a + (b - a);
  }

  /** The routine's code has kept every value handed to it and still wants more. */
  predicate Consuming(body: Body, results: seq<int>)
  {
    && !body.AwaitForeign?
    && (body.First? ==> results == [])
    && (body.Collect? ==> |results| <= body.limit)
  }

  /** What a routine over `funcs` has collected when it finished, or why it raised. */
  predicate FinishedCorrectly(body: Body, funcs: seq<Outcome>, raised: Option<Exception>, results: seq<int>)
  {
    match raised
    case None =>
      && !body.AwaitForeign?
      && (body.Collect? ==>
            && |results| == Min(body.limit, |funcs|)
            && multiset(AsReturned(results)) <= multiset(funcs)
            && (|funcs| <= body.limit ==> multiset(AsReturned(results)) == multiset(funcs)))
      && (body.First? ==> |results| == 1 && Returned(results[0]) in multiset(funcs))
    case Some(e) =>
      && !body.AwaitForeign?
      && (if body.First? && funcs == [] then e == AssertionError else Raised(e) in multiset(funcs))
  }

  /** The routine's code receiving `outs` one after another, starting with `results`: the
      first component is `None` when it wants more, `Some(r)` when it stopped (`r` being what
      it raised); the second is what it has kept. */
  function Consume(body: Body, results: seq<int>, outs: seq<Outcome>): (Option<Option<Exception>>, seq<int>)
    decreases |outs|
  {
    if outs == [] then (None, results)
    else match outs[0]
      case Raised(e) => (Some(Some(e)), results)
      case Returned(v) =>
        if body.First? then (Some(None), results + [v])
        else if body.Collect? && |results| >= body.limit then (Some(None), results)
        else Consume(body, results + [v], outs[1..])
  }

  /** Every input callable is exactly once either kept by the routine's code, in flight,
      or not submitted yet. */
  predicate Accounted(results: seq<int>, inflight: multiset<Outcome>, later: seq<Outcome>, funcs: seq<Outcome>)
  {
    multiset(AsReturned(results)) + inflight + multiset(later) == multiset(funcs)
  }

  /** Submitting the callables between `from` and `to` moves them from the later ones
      into flight. */
  lemma SubmitAccounting(results: seq<int>, funcs: seq<Outcome>, from: nat, to: nat)
    requires from <= to <= |funcs|
    requires Accounted(results, multiset{}, funcs[from..], funcs)
    ensures Accounted(results, multiset(funcs[from..to]), funcs[to..], funcs)
  {
    assert funcs[from..] == funcs[from..to] + funcs[to..];
  }

  /** Consuming part of the input keeps the accounting: still consuming, what was kept and
      what is left add up to the input; stopped, the routine finished correctly. */
  lemma {:induction false} ConsumeAccounting(body: Body, results: seq<int>, outs: seq<Outcome>,
                                             inflight: multiset<Outcome>, later: seq<Outcome>, funcs: seq<Outcome>)
    requires Consuming(body, results)
    requires Accounted(results, inflight + multiset(outs), later, funcs)
    ensures Consume(body, results, outs).0.None? ==>
      && Consuming(body, Consume(body, results, outs).1)
      && Accounted(Consume(body, results, outs).1, inflight, later, funcs)
    ensures Consume(body, results, outs).0.Some? ==>
      FinishedCorrectly(body, funcs, Consume(body, results, outs).0.value, Consume(body, results, outs).1)
    decreases |outs|
  {
    if outs == [] {
      return;
    }
    var o := outs[0];
    var pending := inflight + multiset(outs[1..]);
    assert outs == [o] + outs[1..];
    assert inflight + multiset(outs) == pending + multiset{o};
    OneOfFuncs(results, o, pending, later, funcs);
    match o
    case Raised(e) =>
      assert Consume(body, results, outs) == (Some(Some(e)), results);
    case Returned(v) =>
      if body.First? {
        assert Consume(body, results, outs) == (Some(None), results + [v]);
      } else if body.Collect? && |results| >= body.limit {
        assert Consume(body, results, outs) == (Some(None), results);
      } else {
        assert Consume(body, results, outs) == Consume(body, results + [v], outs[1..]);
        KeepOne(results, v, pending, later, funcs);
        ConsumeAccounting(body, results + [v], outs[1..], inflight, later, funcs);
      }
  }

  /** An outcome still in flight belongs to the input, on top of what was kept. */
  lemma OneOfFuncs(results: seq<int>, o: Outcome, inflight: multiset<Outcome>, later: seq<Outcome>, funcs: seq<Outcome>)
    requires Accounted(results, inflight + multiset{o}, later, funcs)
    ensures o in multiset(funcs) && multiset(AsReturned(results)) <= multiset(funcs)
    ensures |results| < |funcs|
  {
    var m := multiset(AsReturned(results)) + multiset{o};
    assert m <= multiset(funcs);
    SubMultisetSize(m, multiset(funcs));
  }

  /** Keeping a returned value moves it from flight into the kept results. */
  lemma KeepOne(results: seq<int>, v: int, inflight: multiset<Outcome>, later: seq<Outcome>, funcs: seq<Outcome>)
    requires Accounted(results, inflight + multiset{Returned(v)}, later, funcs)
    ensures Accounted(results + [v], inflight, later, funcs)
  {
    AsReturnedAppend(results, [v]);
    assert AsReturned([v]) == [Returned(v)];
  }

  /** A routine's code that still wants more did not receive a failure last. */
  lemma {:induction false} ConsumedAll(body: Body, results: seq<int>, outs: seq<Outcome>)
    requires Consume(body, results, outs).0.None?
    ensures outs == [] || outs[|outs| - 1].Returned?
    decreases |outs|
  {
    if |outs| > 1 {
      ConsumedAll(body, results + [outs[0].value], outs[1..]);
    }
  }

  /** `run_parallel` ran out of batches with every value kept: the routine returns. */
  lemma ExhaustedCorrect(body: Body, results: seq<int>, funcs: seq<Outcome>)
    requires Consuming(body, results)
    requires Accounted(results, multiset{}, [], funcs)
    ensures FinishedCorrectly(body, funcs, if body.First? then Some(AssertionError) else None, results)
  {
    assert |AsReturned(results)| == |funcs|;
  }

  /** `run_parallel` over callables that all return, consumed by a loop that keeps at
      least as many values as there are callables: nothing is raised, and the values
      kept are those of the callables, one each. */
  lemma CollectedAll(limit: nat, funcs: seq<Outcome>, raised: Option<Exception>, results: seq<int>)
    requires FinishedCorrectly(Collect(limit), funcs, raised, results)
    requires AllReturned(funcs) && |funcs| <= limit
    ensures raised.None? && multiset(AsReturned(results)) == multiset(funcs)
  {
    if raised.Some? {
      ReturnedInMultiset(funcs, Raised(raised.value));
    }
  }

  /** `await runner.run(func)` for a callable that returns `v` returns `v`. */
  lemma RunReturned(funcs: seq<Outcome>, v: int, raised: Option<Exception>, results: seq<int>)
    requires FinishedCorrectly(First, funcs, raised, results)
    requires funcs == [Returned(v)]
    ensures raised.None? && results == [v]
  {
    if raised.None? {
      assert Returned(results[0]) in funcs;
    }
  }

  /** `await runner.run(func)` for a callable that raises `e` raises `e`. */
  lemma RunRaised(funcs: seq<Outcome>, e: Exception, raised: Option<Exception>, results: seq<int>)
    requires FinishedCorrectly(First, funcs, raised, results)
    requires funcs == [Raised(e)]
    ensures raised == Some(e)
  {
    if raised.Some? {
      assert Raised(raised.value) in funcs;
    }
  }
}
