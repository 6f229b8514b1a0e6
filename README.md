# qt-async-threads, modelled in Dafny

qt-async-threads lets a Qt application write `async` functions that offload blocking
calls to a thread pool and resume on the main thread when those calls finish. This
project models the core of that library and proves properties of the model.

- **`QtAsyncRunner`** (`qt_async_runner.dfy`, module `QtRunner`):
  - `run_parallel` submits its functions in batches of `max(max_threads // 2, 1)`;
  - each batch is an `_AsyncTask` that is drained before the next one is submitted;
  - the batch is registered in `_running_tasks` while it is drained, and removed in the
    `finally`;
  - a worker's completion callback hands the parked routine back to the main thread
    through `pop_coroutine`;
  - `start_coroutine` performs one `send` and records the routine on the batch it yielded.
- **`_AsyncTask`** (`async_task.dfy`, module `AsyncTasks`) is a class. Its future set is a
  field that the methods shrink in place. `Future` is a class whose state a worker changes.
- **Batch size and `chunked_iter`** (`chunking.dfy`, module `Chunking`):
  - `max_threads` falls back to the CPU count, then to 1;
  - `chunked_iter` is specified directly.
- **The routines' code** (`routines.dfy`, module `Routines`) is shared by both runners. It covers what a routine makes of the outcomes of its `run_parallel` call, and what it holds when it finishes.
- **`SequentialRunner`** (`sequential_runner.dfy`, module `Sequential`) is pure. The same
  routine bodies run synchronously, and results arrive in submission order.
- **`AsyncTester`** of the pytest plugin (`pytest_plugin.dfy`, module `PytestPlugin`)
  chooses the wait timeout and orders the steps of `start_and_wait`.

## How routines are modelled

- A routine (`QtRunner.Coroutine`) is one of three kinds:
  - the body of `run`: `async for r in run_parallel([func]): return r`, then `assert False`;
  - a loop `async for r in run_parallel(funcs)` that keeps values until it holds `limit`
    of them, then `break`s;
  - a routine awaiting an awaitable of another framework.
- The fields of the class are:
  - `status`;
  - `results`, the values its code kept;
  - `submitted`, how far `chunked_iter` has got;
  - `task`, the batch being drained.
- An offloaded callable is modelled by its outcome: a returned `int` or a raised exception.
- A worker finishing a future is an explicit step, `QtAsyncRunner.WorkerFinishes`.
- The Qt queued signal is modelled by `resumeQueue`, the resumes waiting for the event loop.
- `Coroutine.Send` is one `send(None)`: it runs the routine from where it stands to its
  next suspension or its end.
- The ghost field `AsyncTask.works` is the multiset of outcomes the held futures will have.
  The accounting invariant `Accounted` states that every input callable is exactly once
  either kept, in flight, or not yet submitted.

## Model

| member | source | states |
|---|---|---|
| Chunking.MaxThreadsSetting | src/qt_async_threads/_qt_async_runner.py:40-48 | `max_threads or os.cpu_count() or 1` is at least 1. A requested count of 0 or below makes the pool raise `ValueError`. Each fallback case is stated. |
| Chunking.BatchSize | src/qt_async_threads/_qt_async_runner.py:104 | Half the pool rounded down, never below 1. It is 1 for pools of fewer than 4 threads. |
| Chunking.Chunks | src/qt_async_threads/_qt_async_runner.py:105 | Batches are non-empty, at most the batch size, all but the last exactly the batch size, and there are none only for no input. |
| Chunking.FlattenChunks | src/qt_async_threads/_qt_async_runner.py:105 | The batches joined back give the input: every function exactly once, in order. |
| Chunking.ChunksStep | src/qt_async_threads/_qt_async_runner.py:105 | One step of the generator: the next batch is the next slice; the batches after it are those of the rest. |
| AsyncTasks.CancelledState | src/qt_async_threads/_qt_async_runner.py:264 | `cancel()` affects only a future that has not finished. |
| AsyncTasks.Future.Complete | src/qt_async_threads/_qt_async_runner.py:108 | A worker runs a pending future to its end. |
| AsyncTasks.Future.Cancel | src/qt_async_threads/_qt_async_runner.py:264 | The future's new state is the cancelled form of the old one. |
| AsyncTasks.WorksRemove | src/qt_async_threads/_qt_async_runner.py:242 | Removing one future from a batch removes exactly its outcome from the batch's outcomes. |
| AsyncTasks.WorksSize | src/qt_async_threads/_qt_async_runner.py:108 | A batch has one outcome per future. |
| AsyncTasks.SubmitAll | src/qt_async_threads/_qt_async_runner.py:108 | One fresh pending future per callable. The futures' outcomes are exactly the callables' outcomes. The set is empty only for an empty batch. |
| AsyncTasks.AsyncTask.constructor | src/qt_async_threads/_qt_async_runner.py:215-227 | A task holds the given futures and no coroutine. |
| AsyncTasks.AsyncTask.NoneDoneAllPending | src/qt_async_threads/_qt_async_runner.py:229-233 | With nothing cancelled and nothing done, every future is pending. |
| AsyncTasks.AsyncTask.Await | src/qt_async_threads/_qt_async_runner.py:229-233 | `__await__` finishes at once if and only if some future is done. Otherwise it yields the `_AsyncTask` itself. |
| AsyncTasks.AsyncTask.PopDoneFutures | src/qt_async_threads/_qt_async_runner.py:235-243 | Removes only done futures: the set only shrinks, and one outcome is produced per removed future. The produced outcomes are exactly what left the batch. Every outcome before the last returned. If the walk did not end on a failure, no done future is left. Something is produced whenever a future was done. Pending futures stay in place. |
| AsyncTasks.AsyncTask.Discard | src/qt_async_threads/_qt_async_runner.py:242 | Exactly that future leaves the set, and its outcome leaves the summary. |
| AsyncTasks.AsyncTask.PopCoroutine | src/qt_async_threads/_qt_async_runner.py:245-256 | Returns the stored coroutine and leaves the field empty, so a second call returns nothing. |
| AsyncTasks.AsyncTask.Shutdown | src/qt_async_threads/_qt_async_runner.py:258-264 | Requires that no coroutine is parked. Afterwards the set is empty, the summary of its outcomes is empty too, and cancellation was requested on every future it held. |
| QtRunner.RemoveFirst | src/qt_async_threads/_qt_async_runner.py:122 | `list.remove` drops exactly one occurrence: one element fewer, and the same multiset less that element. |
| QtRunner.RemoveFirstInOrder | src/qt_async_threads/_qt_async_runner.py:122 | The occurrence removed is the first one, and the other elements keep their order. |
| QtRunner.RemoveFirstAppended | src/qt_async_threads/_qt_async_runner.py:109-122 | Removing the batch that was appended last restores the list as it was before the append. |
| QtRunner.AfterStepStart | src/qt_async_threads/_qt_async_runner.py:109 | Starting a fresh batch appends it to `_running_tasks`. |
| QtRunner.AfterStepOwn | src/qt_async_threads/_qt_async_runner.py:109-122 | A routine's batch stays last in `_running_tasks`, or gives its place to the batch that follows it. |
| Routines.SubmitAccounting | src/qt_async_threads/_qt_async_runner.py:105-108 | Submitting a batch moves its callables from the later ones into flight. |
| Routines.ConsumeAccounting | src/qt_async_threads/_qt_async_runner.py:116-119 | Feeding drained outcomes to the routine's code keeps every callable accounted for while the code wants more. When it stops, the routine has finished correctly. |
| Routines.OneOfFuncs | src/qt_async_threads/_qt_async_runner.py:118-119 | An outcome in flight belongs to the input, beside what was kept. |
| Routines.KeepOne | src/qt_async_threads/_qt_async_runner.py:119 | Keeping a yielded value moves it from flight into the kept results. |
| Routines.ConsumedAll | src/qt_async_threads/_qt_async_runner.py:118-119 | Code that still wants more did not receive a failure last. |
| Routines.ExhaustedCorrect | src/qt_async_threads/_qt_async_runner.py:86-89 | When `chunked_iter` is exhausted, the collecting loop has every value, and the body of `run` reaches `assert False`. |
| Routines.CollectedAll | src/qt_async_threads/_qt_async_runner.py:91-122 | When all callables return and the loop keeps them all: nothing is raised, and the kept values are those of the input, as a multiset. |
| Routines.RunReturned | src/qt_async_threads/_qt_async_runner.py:86-88 | `run(func)` returns the value of a callable that returns. |
| Routines.RunRaised | src/qt_async_threads/_qt_async_runner.py:86-88 | `run(func)` re-raises the exception of a callable that raises. |
| QtRunner.Coroutine.RunParallel | src/qt_async_threads/_qt_async_runner.py:91-93 | A fresh routine collecting from `run_parallel(funcs)`: not started, no batch. |
| QtRunner.Coroutine.Run | src/qt_async_threads/_qt_async_runner.py:76-89 | `run` wraps the one callable in a list. |
| QtRunner.Coroutine.AwaitingForeign | src/qt_async_threads/_qt_async_runner.py:182-183 | A routine whose awaitable is not an `_AsyncTask`. |
| QtRunner.Coroutine.Ended | src/qt_async_threads/_qt_async_runner.py:86-122 | An ended routine that collected everything holds all values of the input, as a multiset. `run` ends with the callable's value, or with its exception. |
| QtRunner.Coroutine.ParkedBound | src/qt_async_threads/_qt_async_runner.py:104-108 | A parked batch holds no more futures than there are callables. |
| QtRunner.Coroutine.RaceKeepsValid | src/qt_async_threads/_qt_async_runner.py:139-154 | Workers finishing futures and callbacks taking the coroutine leave the parked routine's invariant intact. |
| QtRunner.Coroutine.SubmitChunk | src/qt_async_threads/_qt_async_runner.py:105-109 | The next batch is the next slice of `chunked_iter`. Its fresh pending futures carry exactly that slice's outcomes. It is appended to `_running_tasks`. |
| QtRunner.Coroutine.FinishChunk | src/qt_async_threads/_qt_async_runner.py:120-122 | The `finally` empties the batch, requests cancellation of what it held, and removes the batch from `_running_tasks`. |
| QtRunner.Coroutine.Deliver | src/qt_async_threads/_qt_async_runner.py:118-119 | Yielding each result to the routine's code until it stops gives what `Consume` states. |
| QtRunner.Coroutine.Send | src/qt_async_threads/_qt_async_runner.py:174-175 | One `send`. Afterwards the routine is parked on a fresh or shrunk batch of pending futures, finished correctly, or orphaned. `_running_tasks` changes by exactly the batches retired and started. A routine that can make progress parks. |
| QtRunner.Coroutine.Resume | src/qt_async_threads/_qt_async_runner.py:116-122 | A resumed routine drains its batch. It then finishes, awaits the same batch again, or moves on to a later one. |
| QtRunner.Coroutine.Retire | src/qt_async_threads/_qt_async_runner.py:120-122 | Code that stopped while draining ends the routine, and its batch leaves `_running_tasks`. |
| QtRunner.Coroutine.Reawait | src/qt_async_threads/_qt_async_runner.py:116-117 | `while task.futures` with none done suspends again on the same batch. |
| QtRunner.Coroutine.NextBatch | src/qt_async_threads/_qt_async_runner.py:105-122 | An emptied batch is retired before the next one is submitted. |
| QtRunner.Coroutine.Advance | src/qt_async_threads/_qt_async_runner.py:105-117 | The next batch is submitted and awaited. With no callables left, the routine ends correctly and `_running_tasks` is unchanged. |
| QtRunner.Coroutine.TakeResults | src/qt_async_threads/_qt_async_runner.py:118-119 | The drain keeps the accounting invariant and leaves no done future while the code wants more. When the code stops, the routine has finished correctly. |
| QtRunner.QtAsyncRunner.constructor | src/qt_async_threads/_qt_async_runner.py:40-52 | A new runner has no running tasks and no queued resumes. |
| QtRunner.QtAsyncRunner.Create | src/qt_async_threads/_qt_async_runner.py:40-48 | A runner is created exactly when the setting is valid, with the resulting `max_threads`. Otherwise `ValueError` is raised. |
| QtRunner.QtAsyncRunner.IsIdle | src/qt_async_threads/_qt_async_runner.py:70-71 | Idle exactly when no batch is registered. |
| QtRunner.QtAsyncRunner.OnTaskFutureDone | src/qt_async_threads/_qt_async_runner.py:139-154 | A resume is queued only when the callback took the coroutine. The field is empty afterwards. |
| QtRunner.QtAsyncRunner.WorkerFinishes | src/qt_async_threads/_qt_async_runner.py:110-111 | A pending future finishes and its done-callback runs. |
| QtRunner.QtAsyncRunner.RacingCompletions | src/qt_async_threads/_qt_async_runner.py:139-154 | However many callbacks race, at most one resume is queued. Exactly one is queued if a coroutine was parked and anything finished. Only pending futures change, to finished. |
| QtRunner.QtAsyncRunner.ParkAsWritten | src/qt_async_threads/_qt_async_runner.py:174-181 | As written, when workers race the recording, the routine is recorded with no resume queued, possibly with nothing left pending. |
| QtRunner.QtAsyncRunner.RaceThenRecord | src/qt_async_threads/_qt_async_runner.py:180 | Workers finishing before `value.coroutine = coroutine` queue nothing. |
| QtRunner.QtAsyncRunner.RecordedRace | src/qt_async_threads/_qt_async_runner.py:180-181 | Corrected hand-over; line 181 has no re-check as written. After the recording and the added re-check, exactly one resume is queued when a future is done, and none otherwise. |
| QtRunner.QtAsyncRunner.Park | src/qt_async_threads/_qt_async_runner.py:174-181 | Corrected hand-over of the Findings row. The routine stays recorded with all futures pending, or exactly one resume is queued and something has finished. |
| QtRunner.QtAsyncRunner.StartCoroutineAsWritten | src/qt_async_threads/_qt_async_runner.py:168-183 | `start_coroutine` as written. The exception it propagates is the routine's, or the failed `assert`. A parked routine is recorded with no resume queued. `_running_tasks` tracks its batches. |
| QtRunner.QtAsyncRunner.StartCoroutine | src/qt_async_threads/_qt_async_runner.py:168-183 | Corrected `start_coroutine`. Ends as `StartCoroutineAsWritten`, and a parked routine is either recorded with every future pending or has exactly one resume queued. `_running_tasks` tracks its batches. |
| QtRunner.QtAsyncRunner.LostWakeup | src/qt_async_threads/_qt_async_runner.py:153-154 | A concrete run of the as-written code where the routine is parked with no resume queued and no pending future left to queue one, so `is_idle` is false. |
| QtRunner.QtAsyncRunner.ResumeQueued | src/qt_async_threads/_qt_async_runner.py:156-166 | Corrected hand-over. Delivering the queued signal restarts the routine, which gets closer to its end. |
| QtRunner.QtAsyncRunner.FinishOne | src/qt_async_threads/_qt_async_runner.py:139-154 | A worker finishing a future of the parked batch queues the resume if the routine was recorded. The routine is otherwise untouched. |
| QtRunner.QtAsyncRunner.NextEvent | src/qt_async_threads/_qt_async_runner.py:156-166 | Corrected hand-over. Any event while parked keeps the hand-over invariant and makes progress. |
| QtRunner.QtAsyncRunner.DeliverUntilEnded | src/qt_async_threads/_qt_async_runner.py:156-166 | Corrected hand-over. Under any interleaving of workers and deliveries, a parked routine ends. |
| QtRunner.QtAsyncRunner.DriveUntilIdle | src/qt_async_threads/pytest_plugin.py:67-70 | The corrected `start_coroutine`, then events until idle. The routine ends, `_running_tasks` returns to its prior state, and no resume is left. A full collection holds every value, and `run` gives its callable's value or exception. |
| Sequential.IsIdle | src/qt_async_threads/_sequential_runner.py:20-21 | Always idle. |
| Sequential.Run | src/qt_async_threads/_sequential_runner.py:26-33 | The awaited value is the function's value; its exception propagates. |
| Sequential.RunCoroutine | src/qt_async_threads/_sequential_runner.py:50-59 | A yielding routine fails the `assert`. `run` gives the function's value, or raises exactly the exception that function raised. A collection never exceeds its limit. |
| Sequential.StartCoroutine | src/qt_async_threads/_sequential_runner.py:44-48 | `run_coroutine` with the value discarded while exceptions still propagate. |
| Sequential.ConsumeBounded | src/qt_async_threads/_sequential_runner.py:35-42 | The collecting loop never keeps more than its limit. |
| Sequential.ConsumeInOrder | src/qt_async_threads/_sequential_runner.py:35-42 | Values of callables that all return are kept in submission order, up to the limit, and nothing is raised. |
| Sequential.RunParallelInOrder | src/qt_async_threads/_sequential_runner.py:35-42 | `run_parallel` yields `func()` for each input, in order. |
| Sequential.ConsumeUntilRaised | src/qt_async_threads/_sequential_runner.py:41-42 | The first failure propagates if the loop reaches it. Otherwise the loop broke out first, and that function was never called. |
| Sequential.RunParallelRaised | src/qt_async_threads/_sequential_runner.py:54-57 | A failure of an offloaded function propagates out of `run_coroutine` unchanged, unless the loop stopped before it. |
| Sequential.SequentialMatchesThreaded | src/qt_async_threads/_sequential_runner.py:35-42 | For a full collection of returning callables, every correct threaded run keeps the same values as the sequential run, as a multiset. |
| Sequential.SequentialRunMatchesThreaded | src/qt_async_threads/_sequential_runner.py:26-33 | `run(func)` means the same with both runners. |
| Sequential.AsReturnedMultiset | src/qt_async_threads/_sequential_runner.py:41-42 | Values agree as multisets when their returned outcomes do. |
| Sequential.DoublingInOrder | tests/test_sequential_runner.py:38-56 | Five doublings give `[0, 2, 4, 6, 8]`. |
| Sequential.DoubleExample | tests/test_sequential_runner.py:17-35 | Doubling 33 gives `[66]`. |
| Sequential.HalveExample | tests/test_sequential_runner.py:59-74 | `44 // 2 + 10` is returned. |
| Sequential.HalveRaisesExample | tests/test_sequential_runner.py:77-93 | The offloaded function's exception propagates from `run_coroutine` and `start_coroutine`. |
| PytestPlugin.DefaultTester | src/qt_async_threads/pytest_plugin.py:39-40 | `timeout_s` defaults to 5 seconds. |
| PytestPlugin.WaitIdleTimeout | src/qt_async_threads/pytest_plugin.py:42-53 | The timeout is one day in milliseconds under a debugger outside CI, and `timeout_s * 1000` otherwise. |
| PytestPlugin.DebuggerIgnoresTimeout | src/qt_async_threads/pytest_plugin.py:48-52 | Under a debugger outside CI, `timeout_s` does not matter. |
| PytestPlugin.CIIgnoresDebugger | src/qt_async_threads/pytest_plugin.py:47-49 | In CI, the debugger flag does not matter. |
| PytestPlugin.TimeoutMonotone | src/qt_async_threads/pytest_plugin.py:53 | A longer timeout in seconds never gives a shorter wait. |
| PytestPlugin.StartAndWait | src/qt_async_threads/pytest_plugin.py:55-70 | The coroutine is started first, then the runner is awaited, with the given timeout or the tester's own. |
| PytestPlugin.DefaultWait | src/qt_async_threads/pytest_plugin.py:68-70 | With no timeout passed, the wait is 5000 ms, or one day under a debugger outside CI. |

## Left out

- Threads, `ThreadPoolExecutor` and `close` (`_qt_async_runner.py:48`, `73-74`): a worker finishing is an explicit step of the model, and pool shutdown is not modelled.
- `_FutureDoneSignaller` and the Qt queued connection (`_qt_async_runner.py:59-60`, `137`, `154`, `267-275`): an emit is an append to `resumeQueue`, and the event loop takes resumes from its front.
- `_on_future_done` (`_qt_async_runner.py:124-137`): nothing in the modelled core registers it.
- The `threading.Lock` of `_AsyncTask`: `PopCoroutine` is one atomic step.
- The main-thread assertion in `_resume_coroutine` (`_qt_async_runner.py:165`): it depends on thread identity.
- `QtAsyncRunner.run_coroutine` (`_qt_async_runner.py:185-212`): it pumps the event loop and sleeps; `DriveUntilIdle` models the event loop instead.
- Python's coroutine and `StopIteration` machinery. A routine is one of three bodies, each consuming one `run_parallel` call. Routines that make several such calls, or that start other routines, are not modelled.
- QtRunner.Coroutine.Send: runs atomically, so no worker finishes a future during a main-thread step. Races are modelled only between `send` returning and the routine being recorded (`Park`, `ParkAsWritten`). As a consequence, `await task` on a batch with futures in it always suspends in the model.
- Registering done-callbacks on futures that already finished (`_qt_async_runner.py:110-111`): with atomic steps, a freshly submitted future is always pending.
- Leaving an `async for` early: the async generator's `finally` is modelled as running at once, not at garbage collection.
- AsyncTasks.AsyncTask.PopDoneFutures: walks the snapshot to its end, or to the first failure, before handing the results to the routine. It does not pause after each one. When the routine stops early, the batch is shut down at once, which leaves the same final state.
- AsyncTasks.Future.IsDone: a cancelled future counts as not done. Cancellation happens only after the future has left every task.
- `Future.cancel()` stopping the callable: whether a worker honours it is not modelled.
- Values are Python integers and exceptions belong to a closed set. `*args` and `**kwargs` are folded into the callable's outcome.
- `boltons.chunked_iter` is specified directly by `Chunking.Chunks`.
- `os.cpu_count()`, the `CI` environment variable and `sys.gettrace()` are parameters.
- `qtbot.waitUntil` failing at its timeout. With the corrected `start_coroutine`, `DriveUntilIdle` shows that the runner becomes idle. With `start_coroutine` as written, `LostWakeup` shows that it may never become idle.
- QtRunner.QtAsyncRunner.DriveUntilIdle: drives a single routine, starting with no resumes queued for other routines.
- The `works` field of `AsyncTask` is ghost, a summary for the proofs. It does not exist in the library.
- `_async_runner_abc.py` (the abstract interface, `to_sync` and the context-manager hooks), `__init__.py`, the documentation examples and the test fixtures are not part of this model.
- Shutdown's `assert self.coroutine is None` (`_qt_async_runner.py:261`) is a precondition of `Shutdown`. The model proves that every call meets it.

## Findings

| source | as written | input that shows it | evidently intended | confidence | as-written member | corrected member |
|---|---|---|---|---|---|---|
| src/qt_async_threads/_qt_async_runner.py:174-181 | `start_coroutine` records the routine on the yielded `_AsyncTask` only after `send` has returned. A worker whose future finishes in between gets `None` from `pop_coroutine` and queues no resume. | `run(lambda: 66)` on a runner with 4 threads: the batch has a single future, and it finishes before `value.coroutine = coroutine`. No resume is ever queued, the routine never continues, and `is_idle` stays false. | After recording the routine, check again whether a future is done. If one is, take the routine back with `pop_coroutine` and queue its resume, so whichever side takes it resumes it exactly once. | not executed; the window between the two statements is short | QtRunner.QtAsyncRunner.LostWakeup | QtRunner.QtAsyncRunner.StartCoroutine |
