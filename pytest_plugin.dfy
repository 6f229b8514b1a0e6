/** The `AsyncTester` of the pytest plugin: how long `start_and_wait` lets the runner take
    to become idle. Whether the run is in CI (`CI=true` in the environment) and whether a
    debugger is attached (`sys.gettrace()` set) are passed in. */
module PytestPlugin {
  import opened Outcomes

  /** The default of the `timeout_s` attribute, in seconds. */
  const DefaultTimeoutS: int := 5

  /** One day, in seconds: the wait allowed while a debugger is attached. */
  const DebuggerTimeoutS: int := 24 * 60 * 60

  /** An `AsyncTester`, reduced to its `timeout_s` attribute. */
  datatype AsyncTester = AsyncTester(timeoutS: int)

  /** A tester with the attribute left at its default. */
  function DefaultTester(): (t: AsyncTester)
    ensures t.timeoutS == 5
  {
    AsyncTester(DefaultTimeoutS)
  }

  /** `_get_wait_idle_timeout`, in milliseconds. Coverage in CI installs a tracer too, so
      the debugger is only believed outside CI. */
  function WaitIdleTimeout(timeoutS: int, inCI: bool, inDebugger: bool): (ms: int)
    ensures inDebugger && !inCI ==> ms == 86_400_000
    ensures !inDebugger || inCI ==> ms == timeoutS * 1000
  {
    var seconds := if inDebugger && !inCI then DebuggerTimeoutS else timeoutS;
    seconds * 1000
  }

  /** Under a debugger outside CI the requested timeout does not matter. */
  lemma DebuggerIgnoresTimeout(s1: int, s2: int)
    ensures WaitIdleTimeout(s1, false, true) == WaitIdleTimeout(s2, false, true)
  {
  }

  /** In CI the debugger flag does not matter. */
  lemma CIIgnoresDebugger(timeoutS: int)
    ensures WaitIdleTimeout(timeoutS, true, true) == WaitIdleTimeout(timeoutS, true, false)
  {
  }

  /** Otherwise a longer timeout in seconds is a longer wait in milliseconds. */
  lemma TimeoutMonotone(s1: int, s2: int, inCI: bool, inDebugger: bool)
    requires s1 <= s2
    ensures WaitIdleTimeout(s1, inCI, inDebugger) <= WaitIdleTimeout(s2, inCI, inDebugger)
  {
  }

  /** What `start_and_wait` does, in order. */
  datatype Action =
    | StartCoroutine           // `self.runner.start_coroutine(coroutine)`
    | WaitUntilIdle(ms: int)   // `qtbot.waitUntil(self.runner.is_idle, timeout=ms)`

  /** `start_and_wait(coroutine, timeout_s=timeoutS)`: start the routine, then wait for
      the runner to be idle, as long as the given timeout or else the tester's own. */
  function StartAndWait(tester: AsyncTester, timeoutS: Option<int>, inCI: bool, inDebugger: bool): (plan: seq<Action>)
    ensures |plan| == 2 && plan[0] == StartCoroutine && plan[1].WaitUntilIdle?
    ensures timeoutS.Some? ==> plan[1].ms == WaitIdleTimeout(timeoutS.value, inCI, inDebugger)
    ensures timeoutS.None? ==> plan[1].ms == WaitIdleTimeout(tester.timeoutS, inCI, inDebugger)
  {
    var seconds := if timeoutS.Some? then timeoutS.value else tester.timeoutS;
    [StartCoroutine, WaitUntilIdle(WaitIdleTimeout(seconds, inCI, inDebugger))]
  }

  /** With nothing passed and the attribute at its default, the wait is 5000 ms unless a
      debugger is attached outside CI. */
  lemma DefaultWait(inCI: bool, inDebugger: bool)
    ensures !inDebugger || inCI ==>
      StartAndWait(DefaultTester(), None, inCI, inDebugger) == [StartCoroutine, WaitUntilIdle(5000)]
    ensures inDebugger && !inCI ==>
      StartAndWait(DefaultTester(), None, inCI, inDebugger) == [StartCoroutine, WaitUntilIdle(86_400_000)]
  {
  }
}
