/** `_AsyncTask`: the awaitable that holds the futures of one batch and at most one
    parked coroutine, and the futures it holds. */
module AsyncTasks {
  import opened Outcomes

  /** A future of the thread pool. `CancelRequested` records that `cancel()` was called
      while the future had not finished; whether the worker honoured it is not modelled. */
  datatype FutureState = Pending | Ran | CancelRequested

  /** What `Future.cancel()` leaves behind: only a future that has not finished is affected. */
  function CancelledState(s: FutureState): (c: FutureState)
    ensures s.Pending? ==> c.CancelRequested?
    ensures !s.Pending? ==> c == s
  {
    if s.Pending? then CancelRequested else s
  }

  /** A handle returned by the pool for one submitted callable, modelled by the outcome
      that callable will have: once finished, `future.result()` returns its value or
      re-raises its exception. */
  class Future {
    const work: Outcome
    var state: FutureState

    constructor (work: Outcome)
      ensures this.work == work && state == Pending
    {
      this.work := work;
      state := Pending;
    }

    /** `future.done()` for a future that has run (cancellation happens only after a
        future has left every task, so it is not counted as done here). */
    predicate IsDone()
      reads this
    {
      state.Ran?
    }

    /** A worker thread runs the callable to its end. */
    method Complete()
      requires state.Pending?
      modifies this
      ensures state.Ran?
    {
      state := Ran;
    }

    /** `future.cancel()`. */
    method Cancel()
      modifies this
      ensures state == CancelledState(old(state))
    {
      if state.Pending? {
        state := CancelRequested;
      }
    }
  }

  /** The outcomes a set of futures will have, one per future. */
  ghost function Works(fs: set<Future>): multiset<Outcome>
    decreases fs, 1
  {
    if fs == {} then multiset{} else WorksOfSome(fs)
  }

  /** One future of a non-empty set, and the outcomes of the others. */
  ghost function WorksOfSome(fs: set<Future>): multiset<Outcome>
    requires fs != {}
    decreases fs, 0
  {
    var f :| f in fs; multiset{f.work} + Works(fs - {f})
  }

  lemma {:induction false} WorksRemove(fs: set<Future>, f: Future)
    requires f in fs
    ensures Works(fs) == multiset{f.work} + Works(fs - {f})
    decreases fs
  {
    assert Works(fs) == WorksOfSome(fs);
    var g :| g in fs && Works(fs) == multiset{g.work} + Works(fs - {g});
    if g != f {
      WorksRemove(fs - {g}, f);
      WorksRemove(fs - {f}, g);
      assert fs - {g} - {f} == fs - {f} - {g};
    }
  }

  lemma WorksAdd(fs: set<Future>, f: Future)
    requires f !in fs
    ensures Works(fs + {f}) == Works(fs) + multiset{f.work}
  {
    assert (fs + {f}) - {f} == fs;
    WorksRemove(fs + {f}, f);
  }

  lemma {:induction false} WorksSize(fs: set<Future>)
    ensures |Works(fs)| == |fs|
    decreases fs
  {
    if fs != {} {
      var f :| f in fs;
      WorksRemove(fs, f);
      WorksSize(fs - {f});
    }
  }

  /** No future of the set has been cancelled: it is still pending or it has run. */
  ghost predicate NoneCancelled(fs: set<Future>)
    reads fs
  {
    forall f :: f in fs ==> !f.state.CancelRequested?
  }

  /** `{pool.submit(f) for f in function_batch}`: one fresh pending future per callable. */
  method SubmitAll(works: seq<Outcome>) returns (fs: set<Future>)
    ensures fresh(fs)
    ensures Works(fs) == multiset(works)
    ensures fs == {} <==> works == []
    ensures forall f :: f in fs ==> f.state.Pending?
  {
    fs := {};
    var i := 0;
    while i < |works|
      invariant 0 <= i <= |works|
      invariant fresh(fs)
      invariant forall f :: f in fs ==> f.state.Pending?
      invariant Works(fs) == multiset(works[..i])
      invariant fs == {} <==> i == 0
    {
      var f := new Future(works[i]);
      WorksAdd(fs, f);
      assert works[..i + 1] == works[..i] + [works[i]];
      fs := fs + {f};
      i := i + 1;
    }
    assert works[..|works|] == works;
  }

  /** `_AsyncTask`, generic in the type `C` of the coroutine it parks. */
  class AsyncTask<C> {
    var futures: set<Future>
    /** The outcomes the held futures will have, one per future. */
    ghost var works: multiset<Outcome>
    var coroutine: Option<C>

    constructor (futures: set<Future>, ghost works: multiset<Outcome>)
      requires works == Works(futures)
      ensures this.futures == futures && this.works == works && coroutine.None?
      ensures Summarises()
    {
      this.futures := futures;
      this.works := works;
      coroutine := None;
    }

    /** `works` holds exactly the outcomes of the futures in the set. */
    ghost predicate Summarises()
      reads this
    {
      works == Works(futures)
    }

    /** The futures of the batch that no worker has finished yet. */
    function Pending(): set<Future>
      reads this, futures
    {
      set f | f in futures && f.state.Pending?
    }

    /** Some future of the batch has run. */
    predicate AnyDone()
      reads this, futures
    {
      exists f :: f in futures && f.IsDone()
    }

    /** With no future cancelled and none done, every future is still pending. */
    lemma NoneDoneAllPending()
      requires NoneCancelled(futures) && !AnyDone()
      ensures forall f :: f in futures ==> f.state.Pending?
    {
      forall f | f in futures ensures f.state.Pending? {
        assert !f.IsDone();
      }
    }

    /** `__await__`: finishes at once when some future is done, otherwise yields the
        task itself to whoever drives the coroutine. */
    method Await() returns (yielded: Option<AsyncTask<C>>)
      ensures yielded.None? <==> AnyDone()
      ensures yielded.Some? ==> yielded.value == this
    {
      var rest := futures;
      while rest != {}
        invariant rest <= futures
        invariant forall f :: f in futures - rest ==> !f.IsDone()
        decreases rest
      {
        var f :| f in rest;
        if f.IsDone() {
          return None;
        }
        rest := rest - {f};
      }
      return Some(this);
    }

    /** `pop_done_futures`, consumed to the end: walks a snapshot of the set, removes each
        future that is done and produces its result, the outcome of its callable;
        `future.result()` re-raising a failure
        ends the walk right after that future was removed. */
    method PopDoneFutures() returns (outcomes: seq<Outcome>)
      requires Summarises()
      modifies this`futures, this`works
      ensures Summarises() && old(works) == works + multiset(outcomes)
      ensures futures <= old(futures) && |futures| + |outcomes| == old(|futures|)
      ensures forall f :: f in old(futures) && f !in futures ==> f.IsDone()
      ensures forall i :: 0 <= i < |outcomes| - 1 ==> outcomes[i].Returned?
      ensures outcomes == [] || outcomes[|outcomes| - 1].Returned? ==> forall f :: f in futures ==> !f.IsDone()
      ensures old(AnyDone()) ==> outcomes != []
      ensures Pending() == old(Pending())
    {
      var snapshot := futures;
      var raised := false;
      outcomes := [];
      while snapshot != {} && !raised
        invariant snapshot <= futures <= old(futures)
        invariant |futures| + |outcomes| == old(|futures|)
        invariant outcomes == [] ==> futures == old(futures)
        invariant forall f :: f in old(futures) && f !in futures ==> f.IsDone()
        invariant forall i :: 0 <= i < |outcomes| ==> outcomes[i].Returned? || (raised && i == |outcomes| - 1)
        invariant raised ==> outcomes != [] && outcomes[|outcomes| - 1].Raised?
        invariant forall f :: f in futures && f !in snapshot ==> !f.IsDone()
        invariant Summarises() && old(works) == works + multiset(outcomes)
        invariant Pending() == old(Pending())
        decreases snapshot
      {
        var f :| f in snapshot;
        snapshot := snapshot - {f};
        if f.IsDone() {
          Discard(f);
          outcomes := outcomes + [f.work];
          raised := f.work.Raised?;
        }
      }
    }

    /** `self.futures.discard(future)`, with `works` following the set. */
    method Discard(f: Future)
      requires Summarises() && f in futures
      modifies this`futures, this`works
      ensures futures == old(futures) - {f} && old(works) == multiset{f.work} + works
      ensures Summarises()
      ensures f.IsDone() ==> Pending() == old(Pending())
    {
      WorksRemove(futures, f);
      futures := futures - {f};
      works := Works(futures);
    }

    /** `pop_coroutine` under the lock of the `_AsyncTask`: hands out the parked coroutine and clears
        the field, so every later call gets `None`. */
    method PopCoroutine() returns (c: Option<C>)
      modifies this`coroutine
      ensures c == old(coroutine) && coroutine.None?
    {
      c := coroutine;
      coroutine := None;
    }

    /** `shutdown`: only called when no coroutine is parked; requests cancellation of
        every future still held and empties the set. */
    method Shutdown()
      requires coroutine.None?
      modifies this`futures, this`works, futures
      ensures futures == {} && Summarises()
      ensures forall f :: f in old(futures) ==> f.state == CancelledState(old(f.state))
    {
      ghost var held := futures;
      while futures != {}
        invariant futures <= held
        invariant forall f :: f in held && f !in futures ==> f.state == CancelledState(old(f.state))
        invariant forall f :: f in futures ==> f.state == old(f.state)
        decreases futures
      {
        var f :| f in futures;
        futures := futures - {f};
        f.Cancel();
      }
      works := multiset{};
    }
  }
}
