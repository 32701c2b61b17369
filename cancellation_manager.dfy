/**
 * `CancellationManager`, the older stop check. It throttles like
 * `CancellationChecker` but multiplies the number of calls to skip by ten
 * with no bound, in `unsigned int` arithmetic, so the number wraps modulo
 * 2^32. Instants of the steady clock are integers in nanoseconds.
 */
module CancellationManager {
  import TimedAction
  import opened CancellationChecker

  /** `unsigned int` multiplication by ten. */
  function Times10(x: nat): nat {
    (x * 10) % (UINT_MAX + 1)
  }

  /** The number of calls to skip after a real check made `now`, as written. */
  function ManagerNextChecks(t: Throttle, now: int): nat {
    if now - t.lastSuccessfulCheck < ONE_SECOND then Times10(t.checksToPerform) else DEFAULT_CHECKS_TO_PERFORM
  }

  /** `shouldStopExecutionSyscallSafe` as written. */
  function ManagerStep(t: Throttle, finishTime: int, c: Call): (a: Answer)
    ensures a.checked <==> t.performedChecks == t.checksToPerform
    ensures !a.checked ==> !a.stop && a.after == t.(performedChecks := Inc(t.performedChecks))
    ensures a.checked ==>
              a.stop == TimedAction.ShouldStopExecution(c.fileExists, finishTime, c.now)
              && a.after.performedChecks == 0 && a.after.lastSuccessfulCheck == c.now
              && a.after.checksToPerform <= UINT_MAX
  {
    if t.performedChecks == t.checksToPerform then
      Answer(Throttle(ManagerNextChecks(t, c.now), 0, c.now), c.fileExists || finishTime < c.now, true)
    else
      Answer(t.(performedChecks := Inc(t.performedChecks)), false, false)
  }

  /** The counters the constructor sets; the last check is the clock's epoch. */
  const Initial: Throttle := Throttle(DEFAULT_CHECKS_TO_PERFORM, 0, 0)

  function ManagerRun(t: Throttle, finishTime: int, calls: seq<Call>): (r: Trace)
    ensures |r.stops| == |calls| && |r.checks| == |calls|
    decreases |calls|
  {
    if calls == [] then Trace(t, [], [])
    else
      var a := ManagerStep(t, finishTime, calls[0]);
      var rest := ManagerRun(a.after, finishTime, calls[1..]);
      Trace(rest.after, [a.stop] + rest.stops, [a.checked] + rest.checks)
  }

  /** Calls before the count is reached answer false and only advance the skip counter. */
  lemma {:induction false} ManagerQuiet(t: Throttle, finishTime: int, calls: seq<Call>)
    requires t.performedChecks + |calls| <= t.checksToPerform <= UINT_MAX
    ensures var r := ManagerRun(t, finishTime, calls);
            r.after == t.(performedChecks := t.performedChecks + |calls|)
            && forall i :: 0 <= i < |calls| ==> !r.checks[i] && !r.stops[i]
    decreases |calls|
  {
    if calls != [] {
      ManagerQuiet(t.(performedChecks := t.performedChecks + 1), finishTime, calls[1..]);
    }
  }

  /** A new manager answers false without checking on its first 10000 calls. */
  lemma FirstCallsQuiet(finishTime: int, calls: seq<Call>)
    requires |calls| <= DEFAULT_CHECKS_TO_PERFORM
    ensures forall i :: 0 <= i < |calls| ==>
              !ManagerRun(Initial, finishTime, calls).checks[i] && !ManagerRun(Initial, finishTime, calls).stops[i]
  {
    ManagerQuiet(Initial, finishTime, calls);
  }

  /** The number of calls to skip after `k` real checks, each less than a second after the one before. */
  function FastChecks(k: nat): nat {
    if k == 0 then DEFAULT_CHECKS_TO_PERFORM else Times10(FastChecks(k - 1))
  }

  /** A real check less than a second after the last one multiplies the count, modulo 2^32. */
  lemma FastCheckStep(t: Throttle, finishTime: int, c: Call, k: nat)
    requires t.performedChecks == t.checksToPerform == FastChecks(k) && c.now - t.lastSuccessfulCheck < ONE_SECOND
    ensures ManagerStep(t, finishTime, c).after.checksToPerform == FastChecks(k + 1)
  {
  }

  /**
   * Ten times 10^9 no longer fits an `unsigned int`: the sixth fast check
   * wraps the count, the seventh makes it smaller, and after 28 the count
   * is 0, because 10^32 is a multiple of 2^32.
   */
  lemma ChecksWrapToZero()
    ensures FastChecks(6) == 10_000_000_000 % (UINT_MAX + 1) && FastChecks(7) < FastChecks(6)
    ensures FastChecks(28) == 0
  {
    assert FastChecks(1) == 100000;
    assert FastChecks(2) == 1000000;
    assert FastChecks(3) == 10000000;
    assert FastChecks(4) == 100000000;
    assert FastChecks(5) == 1000000000;
    assert FastChecks(6) == 1410065408;
    assert FastChecks(7) == 1215752192;
    assert FastChecks(8) == 3567587328;
    assert FastChecks(9) == 1316134912;
    assert FastChecks(10) == 276447232;
    assert FastChecks(11) == 2764472320;
    assert FastChecks(12) == 1874919424;
    assert FastChecks(13) == 1569325056;
    assert FastChecks(14) == 2808348672;
    assert FastChecks(15) == 2313682944;
    assert FastChecks(16) == 1661992960;
    assert FastChecks(17) == 3735027712;
    assert FastChecks(18) == 2990538752;
    assert FastChecks(19) == 4135583744;
    assert FastChecks(20) == 2701131776;
    assert FastChecks(21) == 1241513984;
    assert FastChecks(22) == 3825205248;
    assert FastChecks(23) == 3892314112;
    assert FastChecks(24) == 268435456;
    assert FastChecks(25) == 2684354560;
    assert FastChecks(26) == 1073741824;
    assert FastChecks(27) == 2147483648;
  }

  /** With the count at 0, every call makes the real check, and while calls are fast the count stays 0. */
  lemma ZeroCountChecksAlways(t: Throttle, finishTime: int, c: Call)
    requires t.checksToPerform == 0 && t.performedChecks == 0
    ensures ManagerStep(t, finishTime, c).checked
    ensures c.now - t.lastSuccessfulCheck < ONE_SECOND ==>
              ManagerStep(t, finishTime, c).after.checksToPerform == 0
              && ManagerStep(t, finishTime, c).after.performedChecks == 0
  {
  }

  /** The manager's throttle, updated in place by its `const` methods. */
  class Manager {
    const finishTime: int
    var checksToPerform: nat
    var performedChecks: nat
    var lastSuccessfulCheck: int

    function State(): Throttle
      reads this
    {
      Throttle(checksToPerform, performedChecks, lastSuccessfulCheck)
    }

    /** The constructor: 10000 calls to skip, none skipped yet. */
    constructor(finishTime: int)
      ensures this.finishTime == finishTime && State() == Initial
    {
      this.finishTime := finishTime;
      checksToPerform := DEFAULT_CHECKS_TO_PERFORM;
      performedChecks := 0;
      lastSuccessfulCheck := 0;
    }

    /** `shouldStopExecution`: the file exists or the deadline has passed. */
    method ShouldStopExecution(fileExists: bool, now: int) returns (stop: bool)
      ensures stop == TimedAction.ShouldStopExecution(fileExists, finishTime, now)
    {
      if fileExists || finishTime < now {
        return true;
      }
      return false;
    }

    /** `shouldStopExecutionSyscallSafe`; see `ManagerStep`. */
    method ShouldStopExecutionSyscallSafe(fileExists: bool, now: int) returns (stop: bool)
      modifies this
      ensures State() == ManagerStep(old(State()), finishTime, Call(fileExists, now)).after
      ensures stop == ManagerStep(old(State()), finishTime, Call(fileExists, now)).stop
    {
      if performedChecks == checksToPerform {
        if now - lastSuccessfulCheck < ONE_SECOND {
          checksToPerform := Times10(checksToPerform);
        } else {
          checksToPerform := DEFAULT_CHECKS_TO_PERFORM;
        }
        lastSuccessfulCheck := now;
        performedChecks := 0;
        return fileExists || finishTime < now;
      }
      performedChecks := Inc(performedChecks);
      return false;
    }
  }
}
