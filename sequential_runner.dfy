/** `SequentialRunner`: the same routines as `QtAsyncRunner`, run synchronously on the main
    thread. `run` calls its function directly, `run_parallel` yields the results in
    submission order, and a routine must finish within a single `send`. */
module Sequential {
  import opened Outcomes
  import opened Routines

  /** `is_idle`: nothing ever runs in the background. */
  function IsIdle(): (idle: bool)
    ensures idle
  {
    true
  }

  /** `await runner.run(func)`: the function is called at once; its value is the value of
      the `await`, and what it raises propagates out of the `await`. */
  function Run(func: Outcome): (r: Result<int>)
    ensures r.Ok? <==> func.Returned?
    ensures func.Returned? ==> r.value == func.value
    ensures func.Raised? ==> r.error == func.error
  {
    match func
    case Returned(v) => Ok(v)
    case Raised(e) => Err(e)
  }

  /** `run_coroutine`: one `coroutine.send(None)`. A routine that `StopIteration` ends
      returns what its code kept; one that raises propagates the exception; one that
      yields instead fails `assert False`. With the sequential runner, only an awaitable
      of another framework yields: `run` and `run_parallel` never suspend. The routine
      keeps the value of its `run` call (`First`), or the values its `async for` over
      `run_parallel(funcs)` collected (`Collect`); `run` takes exactly one function. */
  function RunCoroutine(body: Body, funcs: seq<Outcome>): (r: Result<seq<int>>)
    requires body.First? ==> |funcs| == 1
    ensures body.AwaitForeign? ==> r == Err(AssertionError)
    ensures body.First? ==> (r.Ok? <==> funcs[0].Returned?)
    ensures r.Ok? && body.First? ==> r.value == [funcs[0].value]
    ensures body.First? && funcs[0].Raised? ==> r == Err(funcs[0].error)
    ensures r.Ok? && body.Collect? ==> |r.value| <= body.limit
  {
    match body
    case AwaitForeign => Err(AssertionError)
    case First =>
      var value := Run(funcs[0]);
      if value.Ok? then Ok([value.value]) else Err(value.error)
    case Collect(limit) =>
      var (stop, results) := Consume(body, [], funcs);
      ConsumeBounded(limit, [], funcs);
      if stop.Some? && stop.value.Some? then Err(stop.value.value) else Ok(results)
  }

  /** `start_coroutine`: `run_coroutine` with its value discarded; an exception still
      propagates to the caller. */
  function StartCoroutine(body: Body, funcs: seq<Outcome>): (raised: Option<Exception>)
    requires body.First? ==> |funcs| == 1
    ensures raised.None? <==> RunCoroutine(body, funcs).Ok?
    ensures raised.Some? ==> raised.value == RunCoroutine(body, funcs).error
  {
    var r := RunCoroutine(body, funcs);
    if r.Ok? then None else Some(r.error)
  }

  /** The collecting loop never keeps more than its limit. */
  lemma {:induction false} ConsumeBounded(limit: nat, rs: seq<int>, funcs: seq<Outcome>)
    requires |rs| <= limit
    ensures |Consume(Collect(limit), rs, funcs).1| <= limit
    decreases |funcs|
  {
    if funcs != [] && funcs[0].Returned? && |rs| < limit {
      ConsumeBounded(limit, rs + [funcs[0].value], funcs[1..]);
    }
  }

  /** Fed callables that all return, the collecting loop keeps their values in order,
      up to its limit, and raises nothing. */
  lemma {:induction false} ConsumeInOrder(limit: nat, rs: seq<int>, funcs: seq<Outcome>)
    requires AllReturned(funcs) && |rs| <= limit
    ensures Consume(Collect(limit), rs, funcs).1 == rs + Values(funcs)[..Min(limit - |rs|, |funcs|)]
    ensures Consume(Collect(limit), rs, funcs).0.None? || Consume(Collect(limit), rs, funcs).0 == Some(None)
    decreases |funcs|
  {
    if funcs == [] || |rs| >= limit {
      assert Values(funcs)[..0] == [];
    } else {
      var v := funcs[0].value;
      assert AllReturned(funcs[1..]) by {
        forall i | 0 <= i < |funcs[1..]| ensures funcs[1..][i].Returned? {
          assert funcs[1..][i] == funcs[i + 1];
        }
      }
      ConsumeInOrder(limit, rs + [v], funcs[1..]);
      var n := Min(limit - |rs| - 1, |funcs| - 1);
      assert Values(funcs)[..n + 1] == [v] + Values(funcs[1..])[..n] by {
        forall i | 0 <= i < n + 1 ensures Values(funcs)[..n + 1][i] == ([v] + Values(funcs[1..])[..n])[i] {
          if i > 0 {
            assert funcs[1..][i - 1] == funcs[i];
          }
        }
      }
    }
  }

  /** `run_parallel` over functions that all return: the routine gets their values in
      submission order, as many as its loop keeps. */
  lemma RunParallelInOrder(limit: nat, funcs: seq<Outcome>)
    requires AllReturned(funcs)
    ensures RunCoroutine(Collect(limit), funcs) == Ok(Values(funcs)[..Min(limit, |funcs|)])
  {
    ConsumeInOrder(limit, [], funcs);
    assert [] + Values(funcs)[..Min(limit, |funcs|)] == Values(funcs)[..Min(limit, |funcs|)];
  }

  /** The first failing function, at position `i`: reached before the loop had kept all
      it wanted, its exception propagates; otherwise the loop broke out first and the
      function never ran. */
  lemma {:induction false} ConsumeUntilRaised(limit: nat, rs: seq<int>, funcs: seq<Outcome>, i: nat)
    requires |rs| <= limit && i < |funcs| && funcs[i].Raised? && AllReturned(funcs[..i])
    ensures |rs| + i <= limit ==> Consume(Collect(limit), rs, funcs).0 == Some(Some(funcs[i].error))
    ensures |rs| + i > limit ==>
      Consume(Collect(limit), rs, funcs) == (Some(None), rs + Values(funcs[..i])[..limit - |rs|])
    decreases i
  {
    if i == 0 {
      return;
    }
    var before := funcs[..i];
    assert funcs[0] == before[0];
    var v := funcs[0].value;
    if |rs| >= limit {
      assert Consume(Collect(limit), rs, funcs) == (Some(None), rs);
      assert rs + Values(before)[..0] == rs;
      return;
    }
    var tail := funcs[1..];
    var rest := tail[..i - 1];
    assert AllReturned(rest) by {
      forall j | 0 <= j < |rest| ensures rest[j].Returned? {
        assert rest[j] == before[j + 1];
      }
    }
    assert Consume(Collect(limit), rs, funcs) == Consume(Collect(limit), rs + [v], tail);
    ConsumeUntilRaised(limit, rs + [v], tail, i - 1);
    if |rs| + i > limit {
      var n := limit - |rs| - 1;
      var all, more := Values(before), Values(rest);
      assert all[..n + 1] == [v] + more[..n] by {
        forall j | 0 <= j < n + 1 ensures all[j] == ([v] + more[..n])[j] {
          if j > 0 {
            assert rest[j - 1] == before[j];
          }
        }
      }
      assert (rs + [v]) + more[..n] == rs + all[..n + 1];
    }
  }

  /** A failure raised by an offloaded function propagates out of `run_coroutine`
      unchanged, unless the routine's loop stopped before reaching it. */
  lemma RunParallelRaised(limit: nat, funcs: seq<Outcome>, i: nat)
    requires i < |funcs| && funcs[i].Raised? && AllReturned(funcs[..i])
    ensures i <= limit ==> RunCoroutine(Collect(limit), funcs) == Err(funcs[i].error)
    ensures i > limit ==> RunCoroutine(Collect(limit), funcs) == Ok(Values(funcs[..i])[..limit])
  {
    ConsumeUntilRaised(limit, [], funcs, i);
    if i > limit {
      assert [] + Values(funcs[..i])[..limit] == Values(funcs[..i])[..limit];
    }
  }

  /** The two runners agree on a routine that collects everything from functions that all
      return: whatever run of the threaded runner finished correctly kept the same values
      as the sequential one, only in a possibly different order. */
  lemma SequentialMatchesThreaded(limit: nat, funcs: seq<Outcome>, raised: Option<Exception>, results: seq<int>)
    requires FinishedCorrectly(Collect(limit), funcs, raised, results)
    requires AllReturned(funcs) && |funcs| <= limit
    ensures raised.None? && RunCoroutine(Collect(limit), funcs).Ok?
    ensures multiset(RunCoroutine(Collect(limit), funcs).value) == multiset(results)
  {
    CollectedAll(limit, funcs, raised, results);
    RunParallelInOrder(limit, funcs);
    var vs := Values(funcs);
    assert vs[..|funcs|] == vs;
    AsReturnedOfValues(funcs);
    AsReturnedMultiset(vs, results);
  }

  /** `await runner.run(func)` means the same with both runners. */
  lemma SequentialRunMatchesThreaded(func: Outcome, raised: Option<Exception>, results: seq<int>)
    requires FinishedCorrectly(First, [func], raised, results)
    ensures RunCoroutine(First, [func]).Ok? <==> raised.None?
    ensures raised.None? ==> RunCoroutine(First, [func]) == Ok(results)
    ensures raised.Some? ==> RunCoroutine(First, [func]) == Err(raised.value)
  {
    match func
    case Returned(v) => RunReturned([func], v, raised, results);
    case Raised(e) => RunRaised([func], e, raised, results);
  }

  /** How many times a value occurs among the returned outcomes of a list of values. */
  lemma {:induction false} AsReturnedCount(vs: seq<int>, v: int)
    ensures multiset(AsReturned(vs))[Returned(v)] == multiset(vs)[v]
    decreases |vs|
  {
    if vs != [] {
      var k := |vs| - 1;
      assert vs == vs[..k] + [vs[k]];
      AsReturnedAppend(vs[..k], [vs[k]]);
      assert AsReturned([vs[k]]) == [Returned(vs[k])];
      AsReturnedCount(vs[..k], v);
    }
  }

  /** Lists of values whose returned outcomes agree as multisets agree as multisets. */
  lemma AsReturnedMultiset(vs: seq<int>, ws: seq<int>)
    requires multiset(AsReturned(vs)) == multiset(AsReturned(ws))
    ensures multiset(vs) == multiset(ws)
  {
    forall v ensures multiset(vs)[v] == multiset(ws)[v] {
      AsReturnedCount(vs, v);
      AsReturnedCount(ws, v);
    }
  }

  /** `partial(double, i) for i in range(5)` collected in full: `[0, 2, 4, 6, 8]`. */
  lemma DoublingInOrder()
    ensures RunCoroutine(Collect(5), AsReturned([0, 2, 4, 6, 8])) == Ok([0, 2, 4, 6, 8])
  {
    var funcs := AsReturned([0, 2, 4, 6, 8]);
    RunParallelInOrder(5, funcs);
    AsReturnedOfValues(funcs);
    assert Values(funcs)[..Min(5, |funcs|)] == [0, 2, 4, 6, 8];
  }

  /** `await run(double, 33)` gives 66. */
  lemma DoubleExample()
    ensures RunCoroutine(First, [Returned(2 * 33)]) == Ok([66])
  {
  }

  /** `foo(10)` awaits `run(halve, 44)` and returns the result plus 10: 32. */
  lemma HalveExample()
    ensures RunCoroutine(First, [Returned(44 / 2)]).value[0] + 10 == 32
  {
  }

  /** `halve` raising `MyException` makes `run_coroutine(foo(10))` raise it. */
  lemma HalveRaisesExample(code: int)
    ensures RunCoroutine(First, [Raised(AppError(code))]) == Err(AppError(code))
    ensures StartCoroutine(First, [Raised(AppError(code))]) == Some(AppError(code))
  {
  }
}
