/**
 * `CancellationChecker`, the stop check of the current actions. Its
 * throttled form makes the real check (the file lookup and the clock
 * read) only once `checksToPerform` calls have been skipped, and adapts
 * that number: ten times more while real checks come less than a second
 * apart, as long as the product fits an `unsigned int`, and back to 10000
 * otherwise. Instants of the steady clock are integers in nanoseconds.
 */
module CancellationChecker {
  import TimedAction

  const DEFAULT_CHECKS_TO_PERFORM: nat := 10000
  const UINT_MAX: nat := 0xFFFF_FFFF
  const ONE_SECOND: int := 1_000_000_000

  /** `unsigned int` increment, wrapping at 2^32. */
  function Inc(x: nat): nat {
    (x + 1) % (UINT_MAX + 1)
  }

  /** The mutable counters of the checker. */
  datatype Throttle = Throttle(checksToPerform: nat, performedChecks: nat, lastSuccessfulCheck: int)

  /** One call: the counters after it, its answer, and whether it made the real check. */
  datatype Answer = Answer(after: Throttle, stop: bool, checked: bool)

  /** The inputs of one call: whether the cancellation file exists, and the clock. */
  datatype Call = Call(fileExists: bool, now: int)

  /** The number of calls to skip after a real check made `now`. */
  function NextChecks(t: Throttle, now: int): nat {
    if now - t.lastSuccessfulCheck < ONE_SECOND && t.checksToPerform < UINT_MAX / 10 then t.checksToPerform * 10
    else DEFAULT_CHECKS_TO_PERFORM
  }

  /** `shouldStopExecutionSyscallSafe`. */
  function SyscallSafeStep(t: Throttle, finishTime: int, c: Call): (a: Answer)
    ensures a.checked <==> t.performedChecks == t.checksToPerform
    ensures !a.checked ==> !a.stop && a.after == t.(performedChecks := Inc(t.performedChecks))
    ensures a.checked ==>
              a.stop == TimedAction.ShouldStopExecution(c.fileExists, finishTime, c.now)
              && a.after.performedChecks == 0 && a.after.lastSuccessfulCheck == c.now
  {
    if t.performedChecks == t.checksToPerform then
      Answer(Throttle(NextChecks(t, c.now), 0, c.now), c.fileExists || finishTime < c.now, true)
    else
      Answer(t.(performedChecks := Inc(t.performedChecks)), false, false)
  }

  /**
   * The counters a checker keeps: no more calls skipped than it is to
   * skip, and between 10000 and `UINT_MAX` calls to skip.
   */
  predicate Valid(t: Throttle) {
    t.performedChecks <= t.checksToPerform && DEFAULT_CHECKS_TO_PERFORM <= t.checksToPerform <= UINT_MAX
  }

  /**
   * Every call keeps the counters valid: the number of calls to skip
   * never overflows and never drops below 10000, and the skip counter
   * never wraps.
   */
  lemma StepKeepsValid(t: Throttle, finishTime: int, c: Call)
    requires Valid(t)
    ensures Valid(SyscallSafeStep(t, finishTime, c).after)
    ensures !SyscallSafeStep(t, finishTime, c).checked ==>
              SyscallSafeStep(t, finishTime, c).after.performedChecks == t.performedChecks + 1
  {
  }

  /** The answers of a sequence of calls, and the counters after them. */
  datatype Trace = Trace(after: Throttle, stops: seq<bool>, checks: seq<bool>)

  function Run(t: Throttle, finishTime: int, calls: seq<Call>): (r: Trace)
    ensures |r.stops| == |calls| && |r.checks| == |calls|
    decreases |calls|
  {
    if calls == [] then Trace(t, [], [])
    else
      var a := SyscallSafeStep(t, finishTime, calls[0]);
      var rest := Run(a.after, finishTime, calls[1..]);
      Trace(rest.after, [a.stop] + rest.stops, [a.checked] + rest.checks)
  }

  /**
   * Counting from a real check, exactly `checksToPerform` calls answer
   * false without checking, and the call after them makes the real check.
   */
  lemma {:induction false} ChecksBetween(t: Throttle, finishTime: int, calls: seq<Call>)
    requires Valid(t) && |calls| == t.checksToPerform - t.performedChecks + 1
    ensures var r := Run(t, finishTime, calls);
            var last := |calls| - 1;
            (forall i :: 0 <= i < last ==> !r.checks[i] && !r.stops[i])
            && r.checks[last]
            && r.stops[last] == TimedAction.ShouldStopExecution(calls[last].fileExists, finishTime, calls[last].now)
    decreases |calls|
  {
    var a := SyscallSafeStep(t, finishTime, calls[0]);
    StepKeepsValid(t, finishTime, calls[0]);
    if |calls| > 1 {
      var rest := calls[1..];
      ChecksBetween(a.after, finishTime, rest);
      assert calls[|calls| - 1] == rest[|rest| - 1];
    }
  }

  /** The checker's throttle, updated in place by its `const` methods. */
  class Checker {
    const finishTime: int
    var checksToPerform: nat
    var performedChecks: nat
    var lastSuccessfulCheck: int

    function State(): Throttle
      reads this
    {
      Throttle(checksToPerform, performedChecks, lastSuccessfulCheck)
    }

    constructor(finishTime: int, t: Throttle)
      ensures this.finishTime == finishTime && State() == t
    {
      this.finishTime := finishTime;
      checksToPerform := t.checksToPerform;
      performedChecks := t.performedChecks;
      lastSuccessfulCheck := t.lastSuccessfulCheck;
    }

    /** `shouldStopExecution`: the file exists or the deadline has passed. */
    method ShouldStopExecution(fileExists: bool, now: int) returns (stop: bool)
      ensures stop == TimedAction.ShouldStopExecution(fileExists, finishTime, now)
    {
      if fileExists || finishTime < now {
        return true;
      }
      return false;
    }

    /** `shouldStopExecutionSyscallSafe`; see `SyscallSafeStep`. */
    method ShouldStopExecutionSyscallSafe(fileExists: bool, now: int) returns (stop: bool)
      modifies this
      ensures State() == SyscallSafeStep(old(State()), finishTime, Call(fileExists, now)).after
      ensures stop == SyscallSafeStep(old(State()), finishTime, Call(fileExists, now)).stop
    {
      if performedChecks == checksToPerform {
        if now - lastSuccessfulCheck < ONE_SECOND && checksToPerform < UINT_MAX / 10 {
          checksToPerform := checksToPerform * 10;
        } else {
          checksToPerform := DEFAULT_CHECKS_TO_PERFORM;
        }
        lastSuccessfulCheck := now;
        performedChecks := 0;
        return fileExists || finishTime < now;
      }
      performedChecks := Inc(performedChecks);
      return false;
    }
  }
}
