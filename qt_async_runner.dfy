/** `QtAsyncRunner`: the routines it drives, the `run_parallel` batching inside them, the
    `_running_tasks` bookkeeping and the hand-over of a parked routine from a worker's
    completion callback back to the main thread. */
module QtRunner {
  import opened Outcomes
  import opened Chunking
  import opened AsyncTasks
  import opened Routines

  /** Where a routine stands between two main-thread steps. */
  datatype Status =
    | Created                               // not sent to yet
    | Parked                                // suspended at `await task` inside `run_parallel`
    | Finished(raised: Option<Exception>)   // returned, or raised the given exception
    | Orphaned                              // yielded something no runner resumes

  /** What one `coroutine.send(None)` ends with. */
  datatype Step =
    | Completed(raised: Option<Exception>)  // `StopIteration`, or an exception propagating out of `send`
    | Suspended(task: AsyncTask<Coroutine>) // the `_AsyncTask` yielded by `__await__`
    | YieldedOther                          // any other yielded value

  /** `list.remove`: drops the first occurrence. */
  function RemoveFirst<T(==)>(s: seq<T>, x: T): (r: seq<T>)
    requires x in s
    ensures |r| == |s| - 1 && multiset(r) == multiset(s) - multiset{x}
  {
    if s[0] == x then
      assert s == [s[0]] + s[1..];
      s[1..]
    else
      assert s == [s[0]] + s[1..];
      [s[0]] + RemoveFirst(s[1..], x)
  }

  /** `list.remove` takes out the first occurrence, at `i`, and keeps the other elements
      in order. */
  lemma {:induction false} RemoveFirstInOrder<T>(s: seq<T>, x: T, i: nat)
    requires i < |s| && s[i] == x && x !in s[..i]
    ensures RemoveFirst(s, x) == s[..i] + s[i + 1..]
  {
    if i == 0 {
      assert s[..i] == [];
    } else {
      var a := s[1..];
      assert a[..i - 1] == s[1..i];
      RemoveFirstInOrder(a, x, i - 1);
      DropFromTail(s, i);
    }
  }

  /** Dropping the element at `i > 0` is dropping it from the tail. */
  lemma DropFromTail<T>(s: seq<T>, i: nat)
    requires 0 < i < |s|
    ensures s[..i] + s[i + 1..] == [s[0]] + (s[1..][..i - 1] + s[1..][i..])
  {
    assert s[..i] == [s[0]] + s[1..][..i - 1];
  }

  lemma {:induction false} RemoveFirstAppended<T>(s: seq<T>, x: T)
    requires x !in s
    ensures RemoveFirst(s + [x], x) == s
  {
    if s != [] {
      assert (s + [x])[1..] == s[1..] + [x];
      RemoveFirstAppended(s[1..], x);
    }
  }

  /** `_running_tasks` after a routine moved from batch `was` to batch `now`: the finished
      batch was removed, the started one appended. */
  function AfterStep<T(==)>(before: seq<T>, was: Option<T>, now: Option<T>): seq<T>
    requires was.Some? ==> was.value in before
  {
    var kept := if was.Some? && was != now then RemoveFirst(before, was.value) else before;
    if now.Some? && now != was then kept + [now.value] else kept
  }

  /** Starting a fresh batch appends it to the list. */
  lemma AfterStepStart<T>(before: seq<T>, was: Option<T>, t: T)
    requires was.Some? ==> was.value in before
    requires t !in before
    ensures AfterStep(before, was, None) + [t] == AfterStep(before, was, Some(t))
  {
  }

  /** The batch that was last in the list either stays there or gives its place to the
      batch that followed it. */
  lemma AfterStepOwn<T>(before: seq<T>, t: T, now: Option<T>)
    requires t !in before
    ensures AfterStep(before + [t], Some(t), now) == before + if now.Some? then [now.value] else []
  {
    if now != Some(t) {
      RemoveFirstAppended(before, t);
    }
  }

  lemma SubsetSize<T>(a: set<T>, b: set<T>)
    requires a <= b
    ensures |a| <= |b|
  {
    assert b == a + (b - a);
  }

  /** A routine whose code consumes one `run_parallel` call, together with the frame of
      that async generator (`submitted`, `task`). */
  class Coroutine {
    const runner: QtAsyncRunner
    const funcs: seq<Outcome>
    const body: Body
    var status: Status
    /** The values the routine's code has received and kept. */
    var results: seq<int>
    /** How far `chunked_iter` has got through `funcs`: the callables before this
        position have been submitted. */
    var submitted: nat
    /** The batch being drained inside the `try` of `run_parallel`. */
    var task: Option<AsyncTask<Coroutine>>

    /** A routine running `async for r in runner.run_parallel(funcs)`, keeping up to `limit` results. */
    constructor RunParallel(runner: QtAsyncRunner, funcs: seq<Outcome>, limit: nat)
      ensures this.runner == runner && this.funcs == funcs && body == Collect(limit)
      ensures status.Created? && results == [] && task.None? && Valid()
    {
      this.runner, this.funcs, body := runner, funcs, Collect(limit);
      status, results, submitted, task := Created, [], 0, None;
    }

    /** A routine running `return await runner.run(func)`: `run` wraps the one callable in a list. */
    constructor Run(runner: QtAsyncRunner, func: Outcome)
      ensures this.runner == runner && funcs == [func] && body == First
      ensures status.Created? && results == [] && task.None? && Valid()
    {
      this.runner, funcs, body := runner, [func], First;
      status, results, submitted, task := Created, [], 0, None;
    }

    /** A routine awaiting an awaitable from some other framework. */
    constructor AwaitingForeign(runner: QtAsyncRunner)
      ensures this.runner == runner && funcs == [] && body == AwaitForeign
      ensures status.Created? && results == [] && task.None? && Valid()
    {
      this.runner, funcs, body := runner, [], AwaitForeign;
      status, results, submitted, task := Created, [], 0, None;
    }

    ghost function TaskFrame(): set<object>
      reads this
    {
      if task.Some? then {task.value} else {}
    }

    ghost function FutureFrame(): set<object>
      reads this, TaskFrame()
    {
      if task.Some? then task.value.futures else {}
    }

    /** The outcomes still held by the current batch. */
    ghost function InFlight(): multiset<Outcome>
      reads this, TaskFrame()
    {
      if task.Some? then task.value.works else multiset{}
    }

    /** Every input callable is exactly once either kept by the routine's code, in flight,
        or in a later batch. */
    ghost predicate Progress()
      reads this, TaskFrame()
    {
      submitted <= |funcs| && Accounted(results, InFlight(), funcs[submitted..], funcs)
    }

    /** The state of `run_parallel` between two statements of its loop. */
    ghost predicate Draining()
      reads this, TaskFrame(), FutureFrame()
    {
      && Consuming(body, results) && Progress()
      && (task.Some? ==> task.value.coroutine.None? && task.value.Summarises())
    }

    ghost predicate Valid()
      reads this, TaskFrame(), FutureFrame()
    {
      && (status.Created? ==> task.None? && results == [] && submitted == 0)
      && (status.Parked? ==> task.Some? && task.value.futures != {} && NoneCancelled(task.value.futures) && task.value.Summarises())
      && (status.Parked? ==> Consuming(body, results) && Progress())
      && (!status.Parked? ==> task.None?)
      && (status.Orphaned? ==> body.AwaitForeign?)
      && (status.Finished? ==> FinishedCorrectly(body, funcs, status.raised, results))
    }

    lemma DrainingFromParts(inflight: multiset<Outcome>)
      requires inflight == if task.Some? then task.value.works else multiset{}
      requires task.Some? ==> task.value.coroutine.None? && task.value.Summarises()
      requires Consuming(body, results) && submitted <= |funcs|
      requires Accounted(results, inflight, funcs[submitted..], funcs)
      ensures Draining()
    {
    }

    /** The routine suspended at `await task` with the batch still holding futures. */
    lemma ParkedValid()
      requires Draining() && status.Parked? && task.Some? && task.value.futures != {} && NoneCancelled(task.value.futures)
      ensures Valid()
    {
    }

    /** The routine has finished with what its code kept. */
    lemma FinishedValid()
      requires status.Finished? && task.None? && FinishedCorrectly(body, funcs, status.raised, results)
      ensures Valid()
    {
    }

    /** What an ended routine has to show for its input: all of it, when its loop keeps
        every value and every callable returns; the one value or exception of a `run`. */
    lemma Ended()
      requires Valid() && (status.Finished? || status.Orphaned?)
      ensures body.Collect? && |funcs| <= body.limit && AllReturned(funcs) ==>
        status == Finished(None) && multiset(AsReturned(results)) == multiset(funcs)
      ensures body.First? && |funcs| == 1 && funcs[0].Returned? ==>
        status == Finished(None) && results == [funcs[0].value]
      ensures body.First? && |funcs| == 1 && funcs[0].Raised? ==>
        status == Finished(Some(funcs[0].error))
    {
      if body.Collect? && |funcs| <= body.limit && AllReturned(funcs) {
        CollectedAll(body.limit, funcs, status.raised, results);
      }
      if body.First? && |funcs| == 1 && funcs[0].Returned? {
        assert funcs == [Returned(funcs[0].value)];
        RunReturned(funcs, funcs[0].value, status.raised, results);
      }
      if body.First? && |funcs| == 1 && funcs[0].Raised? {
        assert funcs == [Raised(funcs[0].error)];
        RunRaised(funcs, funcs[0].error, status.raised, results);
      }
    }

    /** A parked batch holds no more futures than there are callables. */
    lemma ParkedBound()
      requires Valid() && status.Parked?
      ensures |task.value.futures| <= |funcs|
    {
      WorksSize(task.value.futures);
      assert task.value.works <= multiset(funcs);
      SubMultisetSize(task.value.works, multiset(funcs));
    }

    /** Workers finishing futures of the parked batch and the hand-over of the routine
        leave the routine's own state as it was. */
    twostate lemma RaceKeepsValid()
      requires old(Valid()) && unchanged(this)
      requires task.Some? ==> unchanged(task.value`futures, task.value`works)
      requires task.Some? ==> NoneCancelled(task.value.futures)
      ensures Valid()
    {
    }

    /** The batch size of `run_parallel`. */
    function ChunkSize(): (size: nat)
      ensures size >= 1
    {
      Chunking.BatchSize(runner.maxThreads)
    }

    /** `function_batch = next(chunked_iter)`, `task = _AsyncTask({pool.submit(f) for f in
        function_batch})` and `_running_tasks.append(task)`: the first of the remaining
        batches is submitted, and the generator moves past it. */
    method SubmitChunk()
      requires task.None? && submitted < |funcs|
      modifies this`task, this`submitted, runner`runningTasks
      ensures submitted == ChunkEnd(old(submitted), ChunkSize(), |funcs|)
      ensures funcs[old(submitted)..submitted] == Chunks(funcs[old(submitted)..], ChunkSize())[0]
      ensures Chunks(funcs[submitted..], ChunkSize()) == Chunks(funcs[old(submitted)..], ChunkSize())[1..]
      ensures task.Some? && fresh(task.value) && fresh(task.value.futures)
      ensures task.value.coroutine.None? && task.value.futures != {}
      ensures task.value.works == multiset(funcs[old(submitted)..submitted]) && task.value.Summarises()
      ensures forall f :: f in task.value.futures ==> f.state.Pending?
      ensures runner.runningTasks == old(runner.runningTasks) + [task.value]
    {
      var end := ChunkEnd(submitted, ChunkSize(), |funcs|);
      ChunksStep(funcs, submitted, ChunkSize());
      var fs := SubmitAll(funcs[submitted..end]);
      var t := new AsyncTask<Coroutine>(fs, Works(fs));
      runner.runningTasks := runner.runningTasks + [t];
      task := Some(t);
      submitted := end;
    }

    /** The `finally` of `run_parallel`: `task.shutdown()` and `_running_tasks.remove(task)`. */
    method FinishChunk()
      requires task.Some? && task.value.coroutine.None? && task.value in runner.runningTasks
      modifies this`task, runner`runningTasks, task.value`futures, task.value`works, task.value.futures
      ensures task.None?
      ensures old(task.value).futures == {}
      ensures forall f :: f in old(task.value.futures) ==> f.state == CancelledState(old(f.state))
      ensures runner.runningTasks == RemoveFirst(old(runner.runningTasks), old(task.value))
    {
      var t := task.value;
      t.Shutdown();
      runner.runningTasks := RemoveFirst(runner.runningTasks, t);
      task := None;
    }

    /** `for result in task.pop_done_futures(): yield result`, as seen by the routine's code:
        starting from what it has kept, it takes each value until it stops. */
    static method Deliver(body: Body, kept: seq<int>, outs: seq<Outcome>) returns (ended: Option<Option<Exception>>, results: seq<int>)
      ensures (ended, results) == Consume(body, kept, outs)
    {
      results := kept;
      var i := 0;
      while i < |outs|
        invariant 0 <= i <= |outs|
        invariant Consume(body, kept, outs) == Consume(body, results, outs[i..])
      {
        assert outs[i..][1..] == outs[i + 1..];
        match outs[i] {
          case Raised(e) =>
            return Some(Some(e)), results;
          case Returned(v) =>
            if body.First? {
              return Some(None), results + [v];
            }
            if body.Collect? && |results| >= body.limit {
              return Some(None), results;
            }
            results := results + [v];
        }
        i := i + 1;
      }
      return None, results;
    }

    /** `coroutine.send(None)`: runs the routine from where it stands to its next
        suspension or to its end. A resumed routine drains the batch it waited on; while
        the batch still holds futures, `while task.futures` awaits it again; once it is
        empty, the `finally` retires it and the `for` loop of `run_parallel` submits the
        next batch, or ends when `chunked_iter` is exhausted. No worker runs during a
        step, so a batch that still holds futures has none done, and `await task` on it
        always suspends. */
    method Send() returns (step: Step)
      requires Valid()
      requires status.Created? || (status.Parked? && task.value.coroutine.None?)
      requires task.Some? ==> task.value in runner.runningTasks
      modifies this, runner`runningTasks, TaskFrame(), FutureFrame()
      ensures Valid()
      ensures step.Suspended? <==> status.Parked?
      ensures step.Completed? <==> status.Finished?
      ensures step.YieldedOther? <==> status.Orphaned?
      ensures step.Completed? ==> step.raised == status.raised
      ensures step.Suspended? ==> task == Some(step.task) && step.task.coroutine.None?
      ensures step.Suspended? ==> forall f :: f in step.task.futures ==> f.state.Pending?
      ensures old(status).Created? && !body.AwaitForeign? && funcs != [] ==> status.Parked?
      ensures task.Some? ==> task.value in runner.runningTasks
      ensures runner.runningTasks == AfterStep(old(runner.runningTasks), old(task), task)
      ensures task.Some? && task == old(task) ==>
        task.value.futures <= old(task.value.futures) && task.value.Pending() <= old(task.value.Pending())
      ensures task.Some? && task != old(task) ==> fresh(task.value) && fresh(task.value.futures)
      ensures old(status).Parked? && task.Some? && task != old(task) ==> submitted > old(submitted)
      ensures submitted >= old(submitted)
    {
      if body.AwaitForeign? {
        status := Orphaned;
        return YieldedOther;
      }
      if status.Parked? {
        step := Resume();
      } else {
        step := Advance();
      }
    }

    /** The parked routine resumed after `await task`: the batch is drained; while it still
        holds futures, `while task.futures` awaits it again; once it is empty, the routine
        goes on to the next batch. */
    method Resume() returns (step: Step)
      requires Valid() && status.Parked? && task.value.coroutine.None? && task.value in runner.runningTasks
      modifies this`results, this`status, this`task, this`submitted, runner`runningTasks
      modifies task.value`futures, task.value`works, task.value.futures
      ensures Valid() && !step.YieldedOther?
      ensures step.Suspended? <==> status.Parked?
      ensures step.Completed? ==> status == Finished(step.raised)
      ensures step.Suspended? ==> task == Some(step.task) && step.task.coroutine.None?
      ensures step.Suspended? ==> forall f :: f in step.task.futures ==> f.state.Pending?
      ensures task.Some? ==> task.value in runner.runningTasks
      ensures runner.runningTasks == AfterStep(old(runner.runningTasks), old(task), task)
      ensures task.Some? && task == old(task) ==>
        task.value.futures <= old(task.value.futures) && task.value.Pending() <= old(task.value.Pending())
      ensures task.Some? && task != old(task) ==> fresh(task.value) && fresh(task.value.futures) && submitted > old(submitted)
      ensures submitted >= old(submitted)
    {
      var ended := TakeResults();
      if ended.Some? {
        step := Retire(ended.value);
      } else if task.value.futures != {} {
        step := Reawait();
      } else {
        step := NextBatch();
      }
    }

    /** The routine's code stopped while draining: the `finally` of `run_parallel` retires
        the batch, and the routine ends with what it raised, if anything. */
    method Retire(raised: Option<Exception>) returns (step: Step)
      requires task.Some? && task.value.coroutine.None? && task.value in runner.runningTasks
      requires FinishedCorrectly(body, funcs, raised, results)
      modifies this`status, this`task, runner`runningTasks, task.value`futures, task.value`works, task.value.futures
      ensures Valid() && status == Finished(raised) && step == Completed(raised)
      ensures runner.runningTasks == RemoveFirst(old(runner.runningTasks), old(task.value))
    {
      status := Finished(raised);
      FinishChunk();
      FinishedValid();
      return Completed(raised);
    }

    /** `while task.futures`: the drained batch still holds futures, none of them done,
        so `await task` suspends on it again. */
    method Reawait() returns (step: Step)
      requires Draining() && status.Parked? && task.Some? && task.value.futures != {}
      requires NoneCancelled(task.value.futures) && forall f :: f in task.value.futures ==> !f.IsDone()
      ensures Valid() && step == Suspended(task.value)
      ensures forall f :: f in task.value.futures ==> f.state.Pending?
    {
      ParkedValid();
      var yielded := task.value.Await();
      return Suspended(yielded.value);
    }

    /** The `finally` retiring an emptied batch (`task.shutdown()` and
        `_running_tasks.remove(task)`), then the next round of the `for` loop. */
    method NextBatch() returns (step: Step)
      requires Draining() && task.Some? && task.value.futures == {} && task.value in runner.runningTasks
      modifies this`status, this`task, this`submitted, runner`runningTasks, task.value`futures, task.value`works
      ensures Valid() && !step.YieldedOther?
      ensures step.Suspended? <==> status.Parked?
      ensures step.Completed? ==> status == Finished(step.raised)
      ensures step.Suspended? ==> task == Some(step.task) && step.task.coroutine.None?
      ensures step.Suspended? ==> forall f :: f in step.task.futures ==> f.state.Pending?
      ensures step.Suspended? ==> fresh(step.task) && fresh(step.task.futures) && submitted > old(submitted)
      ensures task.Some? ==> task.value in runner.runningTasks
      ensures runner.runningTasks == AfterStep(old(runner.runningTasks), old(task), task)
      ensures submitted >= old(submitted)
    {
      ghost var running, t := runner.runningTasks, task.value;
      FinishChunk();
      DrainingFromParts(multiset{});
      step := Advance();
      if step.Suspended? {
        AfterStepStart(running, Some(t), step.task);
      }
    }

    /** The `for function_batch in chunked_iter(...)` loop of `run_parallel` moving on: the
        next batch is submitted and awaited, or, with none left, `async for` ends and so
        does the routine's code. */
    method Advance() returns (step: Step)
      requires Draining() && task.None?
      modifies this`status, this`task, this`submitted, runner`runningTasks
      ensures Valid() && !step.YieldedOther?
      ensures step.Suspended? ==>
        && status.Parked? && task == Some(step.task) && step.task.coroutine.None?
        && (forall f :: f in step.task.futures ==> f.state.Pending?)
        && runner.runningTasks == old(runner.runningTasks) + [step.task]
        && fresh(step.task) && fresh(step.task.futures) && submitted > old(submitted)
      ensures step.Completed? ==> status == Finished(step.raised) && task.None? && runner.runningTasks == old(runner.runningTasks)
      ensures old(submitted) < |funcs| ==> step.Suspended?
      ensures submitted >= old(submitted)
    {
      if submitted == |funcs| {
        var raised := if body.First? then Some(AssertionError) else None;
        assert funcs[submitted..] == [];
        ExhaustedCorrect(body, results, funcs);
        status := Finished(raised);
        return Completed(raised);
      }
      ghost var from := submitted;
      SubmitChunk();
      SubmitAccounting(results, funcs, from, submitted);
      var yielded := task.value.Await();
      status := Parked;
      return Suspended(yielded.value);
    }

    /** The body of the drain: `pop_done_futures` on the batch, each result handed to the
        routine's code until it stops. */
    method TakeResults() returns (ended: Option<Option<Exception>>)
      requires Draining() && task.Some?
      modifies this`results, task.value`futures, task.value`works
      ensures task.value.futures <= old(task.value.futures)
      ensures old(NoneCancelled(task.value.futures)) ==> NoneCancelled(task.value.futures)
      ensures ended.None? ==> Draining() && forall f :: f in task.value.futures ==> !f.IsDone()
      ensures ended.Some? ==> FinishedCorrectly(body, funcs, ended.value, results)
    {
      var t := task.value;
      var outs := t.PopDoneFutures();
      var kept := results;
      ConsumeAccounting(body, kept, outs, t.works, funcs[submitted..], funcs);
      ended, results := Deliver(body, kept, outs);
      if ended.None? {
        ConsumedAll(body, kept, outs);
        DrainingFromParts(t.works);
      }
    }
  }

  /** A `QtAsyncRunner`: its pool size, `_running_tasks`, and the resumes its signaller has
      queued for the main thread. */
  class QtAsyncRunner {
    const maxThreads: int
    var runningTasks: seq<AsyncTask<Coroutine>>
    /** `future_done_signal` emissions not yet delivered by the event loop. */
    var resumeQueue: seq<Coroutine>

    constructor (maxThreads: int)
      requires maxThreads >= 1
      ensures this.maxThreads == maxThreads && runningTasks == [] && resumeQueue == []
    {
      this.maxThreads := maxThreads;
      runningTasks, resumeQueue := [], [];
    }

    /** `QtAsyncRunner(max_threads)`, with the number of CPUs passed in. */
    static method Create(requested: Option<int>, cpuCount: Option<nat>) returns (r: Result<QtAsyncRunner>)
      ensures r.Err? <==> MaxThreadsSetting(requested, cpuCount).Err?
      ensures r.Err? ==> r.error == ValueError
      ensures r.Ok? ==> fresh(r.value) && r.value.maxThreads == MaxThreadsSetting(requested, cpuCount).value
      ensures r.Ok? ==> r.value.maxThreads >= 1 && r.value.runningTasks == [] && r.value.resumeQueue == []
    {
      var setting := MaxThreadsSetting(requested, cpuCount);
      if setting.Err? {
        return Err(setting.error);
      }
      var runner := new QtAsyncRunner(setting.value);
      return Ok(runner);
    }

    /** `is_idle`: no batch of any routine is being drained. */
    function IsIdle(): (idle: bool)
      reads this
      ensures idle <==> runningTasks == []
    {
      |runningTasks| == 0
    }

    /** `_on_task_future_done`, run on the worker thread that finished a future of `t`:
        only the caller that takes the parked coroutine queues a resume. */
    method OnTaskFutureDone(t: AsyncTask<Coroutine>)
      modifies this`resumeQueue, t`coroutine
      ensures t.coroutine.None?
      ensures resumeQueue == old(resumeQueue) + if old(t.coroutine).Some? then [old(t.coroutine).value] else []
    {
      var c := t.PopCoroutine();
      if c.Some? {
        resumeQueue := resumeQueue + [c.value];
      }
    }

    /** A worker thread finishes `f`, a future of batch `t`, and runs its done-callback. */
    method WorkerFinishes(f: Future, t: AsyncTask<Coroutine>)
      requires f.state.Pending?
      modifies f, this`resumeQueue, t`coroutine
      ensures f.state.Ran?
      ensures t.coroutine.None?
      ensures resumeQueue == old(resumeQueue) + if old(t.coroutine).Some? then [old(t.coroutine).value] else []
    {
      f.Complete();
      OnTaskFutureDone(t);
    }

    /** Up to `n` pending futures of `t` finish one after another, each running its callback:
        however many race, at most one resume is queued, and exactly one if a coroutine was
        parked and anything finished. */
    method RacingCompletions(t: AsyncTask<Coroutine>, n: nat) returns (finished: nat)
      modifies this`resumeQueue, t`coroutine, t.futures
      ensures finished <= n
      ensures finished == 0 ==> t.coroutine == old(t.coroutine) && resumeQueue == old(resumeQueue)
      ensures finished > 0 ==> t.coroutine.None? && t.Pending() < old(t.Pending()) && t.AnyDone()
      ensures finished > 0 ==> resumeQueue == old(resumeQueue) + if old(t.coroutine).Some? then [old(t.coroutine).value] else []
      ensures t.Pending() <= old(t.Pending())
      ensures finished == 0 ==> t.Pending() == old(t.Pending())
      ensures finished < n ==> t.Pending() == {}
      ensures n >= |old(t.Pending())| ==> t.Pending() == {}
      ensures forall f :: f in t.futures ==> f.state == old(f.state) || (old(f.state).Pending? && f.state.Ran?)
      ensures old(NoneCancelled(t.futures)) ==> NoneCancelled(t.futures)
    {
      finished := 0;
      while finished < n && t.Pending() != {}
        invariant finished <= n
        invariant t.Pending() <= old(t.Pending())
        invariant finished + |t.Pending()| == |old(t.Pending())|
        invariant finished == 0 ==> t.Pending() == old(t.Pending())
        invariant finished == 0 ==> t.coroutine == old(t.coroutine) && resumeQueue == old(resumeQueue)
        invariant finished > 0 ==> t.coroutine.None? && t.Pending() < old(t.Pending()) && t.AnyDone()
        invariant finished > 0 ==> resumeQueue == old(resumeQueue) + if old(t.coroutine).Some? then [old(t.coroutine).value] else []
        invariant forall f :: f in t.futures ==> f.state == old(f.state) || (old(f.state).Pending? && f.state.Ran?)
        invariant old(NoneCancelled(t.futures)) ==> NoneCancelled(t.futures)
        decreases t.Pending()
      {
        var f :| f in t.Pending();
        ghost var pending := t.Pending();
        WorkerFinishes(f, t);
        assert t.Pending() == pending - {f};
        finished := finished + 1;
      }
    }

    /** `value.coroutine = coroutine` in `start_coroutine` as written, after `send` yielded
        the batch of `c`: `racing` workers may finish its futures between the yield and the
        assignment, since nothing orders them, and their callbacks find no coroutine. */
    method ParkAsWritten(c: Coroutine, racing: nat)
      requires c.Valid() && c.status.Parked? && c.task.value.coroutine.None?
      modifies this`resumeQueue, c.task.value`coroutine, c.task.value.futures
      ensures unchanged(c) && runningTasks == old(runningTasks) && c.task.value.futures == old(c.task.value.futures)
      ensures c.Valid() && c.task.value.coroutine == Some(c) && resumeQueue == old(resumeQueue)
      ensures racing >= |c.funcs| ==> c.task.value.Pending() == {}
    {
      var t := c.task.value;
      c.ParkedBound();
      SubsetSize(t.Pending(), t.futures);
      var finished := RacingCompletions(t, racing);
      t.coroutine := Some(c);
      c.RaceKeepsValid();
    }

    /** The corrected hand-over: `value.coroutine = coroutine`, then, if some future of the
        batch is already done, `pop_coroutine` and a queued resume for whichever of the main
        thread and the racing callbacks takes the coroutine. Workers may finish futures in
        both windows, before and after the assignment. The routine either stays parked with
        nothing run yet, or exactly one resume is queued and something has run. */
    method Park(c: Coroutine, racingBefore: nat, racingAfter: nat)
      requires c.Valid() && c.status.Parked? && c.task.value.coroutine.None?
      requires forall f :: f in c.task.value.futures ==> f.state.Pending?
      modifies this`resumeQueue, c.task.value`coroutine, c.task.value.futures
      ensures unchanged(c) && runningTasks == old(runningTasks) && c.task.value.futures == old(c.task.value.futures)
      ensures c.Valid()
      ensures
        || (c.task.value.coroutine == Some(c) && resumeQueue == old(resumeQueue)
            && forall f :: f in c.task.value.futures ==> f.state.Pending?)
        || (c.task.value.coroutine.None? && resumeQueue == old(resumeQueue) + [c]
            && c.task.value.Pending() < old(c.task.value.Pending()))
      ensures c.task.value.Pending() <= old(c.task.value.Pending())
    {
      var t := c.task.value;
      RaceThenRecord(t, c, racingBefore);
      RecordedRace(t, c, racingAfter);
      if t.AnyDone() {
        var f :| f in t.futures && f.IsDone();
        assert f in old(t.Pending()) && f !in t.Pending();
      } else {
        t.NoneDoneAllPending();
      }
      c.RaceKeepsValid();
    }

    /** `value.coroutine = coroutine`, with `n` workers finishing futures of `t` just
        before: with no coroutine recorded yet, their callbacks queue nothing. */
    method RaceThenRecord(t: AsyncTask<Coroutine>, c: Coroutine, n: nat)
      requires t.coroutine.None?
      modifies this`resumeQueue, t`coroutine, t.futures
      ensures t.coroutine == Some(c) && resumeQueue == old(resumeQueue)
      ensures t.Pending() <= old(t.Pending())
      ensures old(NoneCancelled(t.futures)) ==> NoneCancelled(t.futures)
    {
      var finished := RacingCompletions(t, n);
      t.coroutine := Some(c);
    }

    /** After `value.coroutine = coroutine`: `n` workers may finish futures of `t`, then
        `if any(f.done() for f in value.futures)` takes the coroutine back with
        `pop_coroutine` unless a callback already did. Exactly one resume of `c` is queued
        when a future is done; none otherwise. */
    method RecordedRace(t: AsyncTask<Coroutine>, c: Coroutine, n: nat)
      requires t.coroutine == Some(c)
      modifies this`resumeQueue, t`coroutine, t.futures
      ensures t.Pending() <= old(t.Pending())
      ensures old(NoneCancelled(t.futures)) ==> NoneCancelled(t.futures)
      ensures !t.AnyDone() ==> t.coroutine == Some(c) && resumeQueue == old(resumeQueue)
      ensures t.AnyDone() ==> t.coroutine.None? && resumeQueue == old(resumeQueue) + [c]
    {
      var finished := RacingCompletions(t, n);
      if t.AnyDone() {
        var claimed := t.PopCoroutine();
        if claimed.Some? {
          resumeQueue := resumeQueue + [claimed.value];
        }
      }
    }

    /** `start_coroutine` as written: one `send`, and on a yielded `_AsyncTask` the routine
        is recorded on it, with `racing` workers finishing futures just before. */
    method StartCoroutineAsWritten(c: Coroutine, racing: nat) returns (raised: Option<Exception>)
      requires c.runner == this && c.Valid()
      requires c.status.Created? || (c.status.Parked? && c.task.value.coroutine.None?)
      requires c.task.Some? ==> c.task.value in runningTasks
      modifies this`runningTasks, this`resumeQueue, c, c.TaskFrame(), c.FutureFrame()
      ensures c.Valid()
      ensures raised == (if c.status.Finished? then c.status.raised else if c.status.Orphaned? then Some(AssertionError) else None)
      ensures old(c.status).Created? && !c.body.AwaitForeign? && c.funcs != [] ==> c.status.Parked?
      ensures c.status.Parked? ==> c.task.value.coroutine == Some(c) && resumeQueue == old(resumeQueue)
      ensures c.status.Parked? && old(c.status).Created? && racing >= |c.funcs| ==> c.task.value.Pending() == {}
      ensures c.task.Some? ==> c.task.value in runningTasks
      ensures runningTasks == AfterStep(old(runningTasks), old(c.task), c.task)
    {
      ghost var queue := resumeQueue;
      var step := c.Send();
      assert resumeQueue == queue;
      match step {
        case Completed(r) =>
          raised := r;
        case YieldedOther =>
          raised := Some(AssertionError);
        case Suspended(t) =>
          ParkAsWritten(c, racing);
          raised := None;
      }
    }

    /** `start_coroutine`, corrected: one `send`; `StopIteration` is suppressed and any
        other exception propagates; a yielded `_AsyncTask` gets the routine through `Park`;
        any other yielded value fails the `assert`. */
    method StartCoroutine(c: Coroutine, racingBefore: nat, racingAfter: nat) returns (raised: Option<Exception>)
      requires c.runner == this && c.Valid()
      requires c.status.Created? || (c.status.Parked? && c.task.value.coroutine.None?)
      requires c.task.Some? ==> c.task.value in runningTasks
      modifies this`runningTasks, this`resumeQueue, c, c.TaskFrame(), c.FutureFrame()
      ensures c.Valid() && !c.status.Created?
      ensures raised == (if c.status.Finished? then c.status.raised else if c.status.Orphaned? then Some(AssertionError) else None)
      ensures old(c.status).Created? && !c.body.AwaitForeign? && c.funcs != [] ==> c.status.Parked?
      ensures c.status.Parked? ==>
        || (c.task.value.coroutine == Some(c) && resumeQueue == old(resumeQueue)
            && forall f :: f in c.task.value.futures ==> f.state.Pending?)
        || (c.task.value.coroutine.None? && resumeQueue == old(resumeQueue) + [c])
      ensures !c.status.Parked? ==> resumeQueue == old(resumeQueue)
      ensures c.task.Some? ==> c.task.value in runningTasks
      ensures runningTasks == AfterStep(old(runningTasks), old(c.task), c.task)
      ensures c.task.Some? && c.task == old(c.task) ==>
        && c.task.value.futures <= old(c.task.value.futures)
        && c.task.value.Pending() <= old(c.task.value.Pending())
        && (resumeQueue != old(resumeQueue) ==> c.task.value.Pending() < old(c.task.value.Pending()))
      ensures c.task.Some? && c.task != old(c.task) ==> fresh(c.task.value) && fresh(c.task.value.futures)
      ensures old(c.status).Parked? && c.task.Some? && c.task != old(c.task) ==> c.submitted > old(c.submitted)
      ensures c.submitted >= old(c.submitted)
    {
      ghost var queue := resumeQueue;
      var step := c.Send();
      assert resumeQueue == queue;
      match step {
        case Completed(r) =>
          raised := r;
        case YieldedOther =>
          raised := Some(AssertionError);
        case Suspended(t) =>
          Park(c, racingBefore, racingAfter);
          raised := None;
      }
    }

    /** The as-written `start_coroutine` can park a routine that nothing will resume:
        `run(lambda: 66)` on a fresh runner, with the single worker finishing its future
        before `value.coroutine = coroutine` runs. The worker's `pop_coroutine` got `None`, no
        resume is queued, and no pending future is left whose callback could queue one. */
    static method LostWakeup() returns (runner: QtAsyncRunner, c: Coroutine)
      ensures c.runner == runner && c.status.Parked? && c.task.Some? && c.task.value.coroutine == Some(c)
      ensures runner.resumeQueue == [] && c.task.value.Pending() == {}
      ensures !runner.IsIdle()
    {
      runner := new QtAsyncRunner(4);
      c := new Coroutine.Run(runner, Returned(66));
      var raised := runner.StartCoroutineAsWritten(c, 1);
    }

    /** Between two events of `DriveUntilIdle`: `c` has been started; `_running_tasks` is
        `before`, plus the batch of `c` while it is parked; and the parked routine is either
        recorded on a batch whose futures are all pending, or has its resume queued. */
    ghost predicate Driving(c: Coroutine, before: seq<AsyncTask<Coroutine>>)
      reads this, c, c.TaskFrame(), c.FutureFrame()
    {
      && c.runner == this && c.Valid() && !c.status.Created?
      && (c.status.Parked? ==>
            && c.task.value !in before && runningTasks == before + [c.task.value]
            && (|| (c.task.value.coroutine == Some(c) && resumeQueue == []
                    && forall f :: f in c.task.value.futures ==> f.state.Pending?)
                || (c.task.value.coroutine.None? && resumeQueue == [c])))
      && (!c.status.Parked? ==> runningTasks == before && resumeQueue == [])
    }

    /** The event loop delivers the queued signal and `_resume_coroutine` restarts `c`:
        the routine moves to a later batch, or stays on its batch with fewer futures
        pending or no resume queued any more. */
    method ResumeQueued(c: Coroutine, ghost before: seq<AsyncTask<Coroutine>>, racingBefore: nat, racingAfter: nat)
      returns (raised: Option<Exception>)
      requires Driving(c, before) && c.status.Parked? && resumeQueue == [c]
      modifies this`runningTasks, this`resumeQueue, c, c.TaskFrame(), c.FutureFrame()
      ensures Driving(c, before)
      ensures raised == (if c.status.Finished? then c.status.raised else if c.status.Orphaned? then Some(AssertionError) else None)
      ensures c.submitted >= old(c.submitted)
      ensures c.status.Parked? && c.task == old(c.task) ==>
        c.task.value.Pending() < old(c.task.value.Pending()) || resumeQueue == []
      ensures c.status.Parked? && c.task == old(c.task) ==> c.task.value.Pending() <= old(c.task.value.Pending())
      ensures c.status.Parked? && c.task != old(c.task) ==>
        c.submitted > old(c.submitted) && fresh(c.task.value) && fresh(c.task.value.futures)
      ensures c.status.Parked? && c.task == old(c.task) ==> c.task.value.futures <= old(c.task.value.futures)
    {
      ghost var t := c.task.value;
      resumeQueue := [];
      raised := StartCoroutine(c, racingBefore, racingAfter);
      AfterStepOwn(before, t, c.task);
    }

    /** A worker finishes a pending future of the parked batch of `c`; if the routine was
        recorded on the batch, the callback queues its resume. */
    method FinishOne(c: Coroutine, ghost before: seq<AsyncTask<Coroutine>>)
      requires Driving(c, before) && c.status.Parked?
      requires resumeQueue == [] || c.task.value.Pending() != {}
      modifies this`resumeQueue, c.task.value`coroutine, c.task.value.futures
      ensures Driving(c, before) && unchanged(c)
      ensures c.task.value.Pending() < old(c.task.value.Pending())
    {
      var t := c.task.value;
      if resumeQueue == [] {
        var g :| g in t.futures;
        assert g in t.Pending();
      }
      var f :| f in t.Pending();
      ghost var pending := t.Pending();
      WorkerFinishes(f, t);
      assert t.Pending() == pending - {f};
      c.RaceKeepsValid();
    }

    /** The parked routine `c` is resumed each time the event loop delivers its queued
        signal, and workers finish the futures of its batch in between, in any order and
        with any race between them, until the routine has ended. */
    method DeliverUntilEnded(c: Coroutine, ghost before: seq<AsyncTask<Coroutine>>) returns (raised: Option<Exception>)
      requires Driving(c, before) && c.status.Parked?
      modifies this`runningTasks, this`resumeQueue, c, c.TaskFrame(), c.FutureFrame()
      ensures Driving(c, before) && !c.status.Parked?
      ensures raised == (if c.status.Finished? then c.status.raised else Some(AssertionError))
    {
      raised := None;
      while c.status.Parked?
        invariant Driving(c, before)
        invariant c.task.Some? && c.task != old(c.task) ==> fresh(c.task.value) && fresh(c.task.value.futures)
        invariant c.task.Some? && c.task == old(c.task) ==> c.task.value.futures <= old(c.task.value.futures)
        invariant raised == (if c.status.Finished? then c.status.raised else if c.status.Orphaned? then Some(AssertionError) else None)
        decreases if c.status.Parked? then 1 else 0, |c.funcs| - c.submitted,
          (if c.task.Some? then c.task.value.Pending() else {}), |resumeQueue|
      {
        var deliver: bool :| true;
        var early: nat :| true;
        var late: nat :| true;
        raised := NextEvent(c, before, deliver, early, late);
      }
    }

    /** One event while `c` is parked: the event loop delivers its queued signal (when
        `deliver` is chosen or no worker is left to run), or a worker finishes a future
        of its batch. Either way the routine gets closer to its end. */
    method NextEvent(c: Coroutine, ghost before: seq<AsyncTask<Coroutine>>, deliver: bool, early: nat, late: nat)
      returns (raised: Option<Exception>)
      requires Driving(c, before) && c.status.Parked?
      modifies this`runningTasks, this`resumeQueue, c, c.TaskFrame(), c.FutureFrame()
      ensures Driving(c, before)
      ensures raised == (if c.status.Finished? then c.status.raised else if c.status.Orphaned? then Some(AssertionError) else None)
      ensures c.task.Some? && c.task != old(c.task) ==> fresh(c.task.value) && fresh(c.task.value.futures)
      ensures c.task.Some? && c.task == old(c.task) ==> c.task.value.futures <= old(c.task.value.futures)
      ensures
        || !c.status.Parked?
        || c.submitted > old(c.submitted)
        || (&& c.submitted == old(c.submitted) && c.task == old(c.task)
            && c.task.value.Pending() <= old(c.task.value.Pending())
            && (c.task.value.Pending() != old(c.task.value.Pending()) || |resumeQueue| < old(|resumeQueue|)))
    {
      if resumeQueue != [] && (deliver || c.task.value.Pending() == {}) {
        raised := ResumeQueued(c, before, early, late);
      } else {
        FinishOne(c, before);
        raised := None;
      }
    }

    /** The event loop and the pool while a test waits for `is_idle`: `c` is started, then
        runs until it has ended, and the runner is idle again. */
    method DriveUntilIdle(c: Coroutine) returns (raised: Option<Exception>)
      requires c.runner == this && c.Valid() && c.status.Created?
      requires resumeQueue == []
      modifies this`runningTasks, this`resumeQueue, c, c.TaskFrame(), c.FutureFrame()
      ensures c.Valid() && (c.status.Finished? || c.status.Orphaned?)
      ensures runningTasks == old(runningTasks) && resumeQueue == []
      ensures IsIdle() == old(IsIdle())
      ensures raised == (if c.status.Finished? then c.status.raised else Some(AssertionError))
      ensures c.body.Collect? && |c.funcs| <= c.body.limit && AllReturned(c.funcs) ==>
        c.status == Finished(None) && multiset(AsReturned(c.results)) == multiset(c.funcs)
      ensures c.body.First? && |c.funcs| == 1 && c.funcs[0].Returned? ==>
        c.status == Finished(None) && c.results == [c.funcs[0].value]
      ensures c.body.First? && |c.funcs| == 1 && c.funcs[0].Raised? ==>
        c.status == Finished(Some(c.funcs[0].error))
    {
      ghost var before := runningTasks;
      var early: nat :| true;
      var late: nat :| true;
      raised := StartCoroutine(c, early, late);
      if c.status.Parked? {
        raised := DeliverUntilEnded(c, before);
      }
      c.Ended();
    }
  }
}
