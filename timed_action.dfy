/**
 * The status rule of timed actions and the throttled stop check used
 * during heap traversals. The clock and the cancellation file become
 * inputs: `now` and `finishTime` are instants of the steady clock, and
 * `cancelled` says whether the cancellation file exists.
 */
module TimedAction {
  /** `ErrorCode`: the status reported with every result, codes 0, 1 and 2. */
  datatype ErrorCode = Ok | TimedOut | Cancelled

  function Code(e: ErrorCode): (c: int)
    ensures 0 <= c <= 2
  {
    match e
    case Ok => 0
    case TimedOut => 1
    case Cancelled => 2
  }

  /**
   * `getErrorCode`: cancellation takes precedence over the deadline, and
   * the action is fine only when neither holds.
   */
  function GetErrorCode(cancelled: bool, finishTime: int, now: int): (e: ErrorCode)
    ensures e == Cancelled <==> cancelled
    ensures e == TimedOut <==> !cancelled && finishTime < now
    ensures e == Ok <==> !cancelled && now <= finishTime
  {
    if cancelled then Cancelled
    else if finishTime < now then TimedOut
    else Ok
  }

  /** `shouldStopExecution`: the status is not OK. */
  function ShouldStopExecution(cancelled: bool, finishTime: int, now: int): (b: bool)
    ensures b <==> cancelled || finishTime < now
  {
    GetErrorCode(cancelled, finishTime, now) != Ok
  }

  const INTERRUPTION_CHECK_INTERVAL: int := 10000

  /** One call of the throttled check: the counter after it, and whether it made the real check. */
  datatype Tick = Tick(interval: int, checks: bool)

  /**
   * `shouldStopExecutionDuringHeapTraversal` as written: the counter is
   * reset at the interval and incremented only when it is 0.
   */
  function AsWrittenTick(interval: int): Tick {
    var i := if interval == INTERRUPTION_CHECK_INTERVAL then 0 else interval;
    if i == 0 then Tick(i + 1, true) else Tick(i, false)
  }

  /** The function-static counter after `n` calls. */
  function AsWrittenAfter(n: nat): int {
    if n == 0 then 0 else AsWrittenTick(AsWrittenAfter(n - 1)).interval
  }

  /** Call number `n` (from 0) makes the real check. */
  predicate AsWrittenChecks(n: nat) {
    AsWrittenTick(AsWrittenAfter(n)).checks
  }

  /**
   * As written, the counter sticks at 1 after the first call, so only the
   * first call of the whole process ever checks; every later call returns
   * false without looking at the clock or the file.
   */
  lemma {:induction false} AsWrittenOnlyFirst(n: nat)
    ensures n > 0 ==> AsWrittenAfter(n) == 1
    ensures AsWrittenChecks(n) <==> n == 0
  {
    if n > 0 {
      AsWrittenOnlyFirst(n - 1);
    }
  }

  /** The evidently intended counter: incremented on every call, so it counts calls since the last check. */
  function CorrectedTick(interval: int): Tick {
    var i := if interval == INTERRUPTION_CHECK_INTERVAL then 0 else interval;
    Tick(i + 1, i == 0)
  }

  function CorrectedAfter(n: nat): int {
    if n == 0 then 0 else CorrectedTick(CorrectedAfter(n - 1)).interval
  }

  predicate CorrectedChecks(n: nat) {
    CorrectedTick(CorrectedAfter(n)).checks
  }

  /** How the remainder modulo the interval moves from `m` to `m + 1`. */
  lemma ModSucc(m: nat)
    ensures m % INTERRUPTION_CHECK_INTERVAL == INTERRUPTION_CHECK_INTERVAL - 1 ==> (m + 1) % INTERRUPTION_CHECK_INTERVAL == 0
    ensures m % INTERRUPTION_CHECK_INTERVAL != INTERRUPTION_CHECK_INTERVAL - 1 ==>
              (m + 1) % INTERRUPTION_CHECK_INTERVAL == m % INTERRUPTION_CHECK_INTERVAL + 1
  {
    var q := m / INTERRUPTION_CHECK_INTERVAL;
    var r := m % INTERRUPTION_CHECK_INTERVAL;
    assert m == INTERRUPTION_CHECK_INTERVAL * q + r;
    if r == INTERRUPTION_CHECK_INTERVAL - 1 {
      assert m + 1 == INTERRUPTION_CHECK_INTERVAL * (q + 1);
    } else {
      assert m + 1 == INTERRUPTION_CHECK_INTERVAL * q + (r + 1);
    }
  }

  /** The counter after `n > 0` calls is `(n - 1) % 10000 + 1`. */
  lemma {:induction false} CorrectedCounter(n: nat)
    ensures CorrectedAfter(n) == if n == 0 then 0 else (n - 1) % INTERRUPTION_CHECK_INTERVAL + 1
  {
    if n > 1 {
      CorrectedCounter(n - 1);
      ModSucc(n - 2);
    }
  }

  /** With the corrected counter, exactly one call in every 10000 makes the real check. */
  lemma CorrectedEveryInterval(n: nat)
    ensures CorrectedChecks(n) <==> n % INTERRUPTION_CHECK_INTERVAL == 0
  {
    CorrectedCounter(n);
    if n > 0 {
      ModSucc(n - 1);
    }
  }

  /** Call 10000 shows the difference: the corrected counter checks there, the code as written does not. */
  lemma ThrottleNeverRechecks()
    ensures !AsWrittenChecks(INTERRUPTION_CHECK_INTERVAL as nat)
    ensures CorrectedChecks(INTERRUPTION_CHECK_INTERVAL as nat)
  {
    AsWrittenOnlyFirst(INTERRUPTION_CHECK_INTERVAL as nat);
    CorrectedEveryInterval(INTERRUPTION_CHECK_INTERVAL as nat);
  }

  /** The function-static counter of `shouldStopExecutionDuringHeapTraversal`. */
  class TraversalCheck {
    var interval: int

    constructor()
      ensures interval == 0
    {
      interval := 0;
    }

    /** `shouldStopExecutionDuringHeapTraversal`, as written; see `AsWrittenTick`. */
    method ShouldStopExecutionDuringHeapTraversal(cancelled: bool, finishTime: int, now: int) returns (stop: bool)
      modifies this
      ensures interval == AsWrittenTick(old(interval)).interval
      ensures stop <==> AsWrittenTick(old(interval)).checks && ShouldStopExecution(cancelled, finishTime, now)
    {
      if interval == INTERRUPTION_CHECK_INTERVAL {
        interval := 0;
      }
      if interval == 0 {
        interval := interval + 1;
        return ShouldStopExecution(cancelled, finishTime, now);
      }
      return false;
    }

    /** The same check with the counter incremented on every call; see `CorrectedTick`. */
    method ShouldStopExecutionEveryInterval(cancelled: bool, finishTime: int, now: int) returns (stop: bool)
      modifies this
      ensures interval == CorrectedTick(old(interval)).interval
      ensures stop <==> CorrectedTick(old(interval)).checks && ShouldStopExecution(cancelled, finishTime, now)
    {
      if interval == INTERRUPTION_CHECK_INTERVAL {
        interval := 0;
      }
      var checks := interval == 0;
      interval := interval + 1;
      return checks && ShouldStopExecution(cancelled, finishTime, now);
    }
  }
}
