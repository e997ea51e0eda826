/** What every animation's `start(timeout, one_shot)` shares: the optional
    timeout, the stop flag and deadline as seen at the loop checkpoints, and
    the number of loop passes that results. */
module Lifecycle {
  import opened Sequences

  function Min(a: int, b: int): int {
    if a <= b then a else b
  }

  /** The `timeout` argument: `None`, or a number of seconds. */
  datatype Timeout = NoTimeout | After(seconds: int)

  /** `end_time = time() + timeout if timeout else None`: a deadline exists
      only for a truthy timeout, so `None` and `0` both mean "no deadline". */
  predicate HasDeadline(timeout: Timeout) {
    timeout.After? && timeout.seconds != 0
  }

  /** When the two stop conditions are observed, in loop passes (counted from
      0). The loop test before pass `k` finds the stop flag raised by `stop()`
      iff `k >= stopSeenAt`; the check `time() > end_time` after pass `k` is
      true iff `k >= expiredFrom`. Both are monotone because the flag is only
      ever set during a run and time only grows. */
  datatype Checkpoints = Checkpoints(stopSeenAt: nat, expiredFrom: nat)

  /** `end_time and time() > end_time` evaluated after pass `k`. */
  predicate DeadlinePassed(timeout: Timeout, cp: Checkpoints, k: nat) {
    HasDeadline(timeout) && k >= cp.expiredFrom
  }

  /** The number of passes a loop runs that stops itself after `cycle` passes
      when `bounded` holds and otherwise after the first pass whose deadline
      check is true, and is cut short by an outside stop. */
  function PassCount(cycle: nat, bounded: bool, timeout: Timeout, cp: Checkpoints): (m: nat)
    ensures m <= cp.stopSeenAt
    ensures bounded ==> m <= cycle
    ensures HasDeadline(timeout) ==> m <= cp.expiredFrom + 1
    ensures m == cp.stopSeenAt
         || (bounded && m == cycle)
         || (HasDeadline(timeout) && m == cp.expiredFrom + 1)
  {
    var byStop := cp.stopSeenAt;
    var byCycle := if bounded then Min(byStop, cycle) else byStop;
    if HasDeadline(timeout) then Min(byCycle, cp.expiredFrom + 1) else byCycle
  }

  /** `None` and `0` give no deadline: without a cycle bound the loop runs
      until `stop()` is seen. */
  lemma FalsyTimeoutNeverExpires(cycle: nat, timeout: Timeout, cp: Checkpoints)
    requires timeout == NoTimeout || timeout == After(0)
    ensures PassCount(cycle, false, timeout, cp) == cp.stopSeenAt
  {
  }

  /** One-shot mode runs one whole cycle, never fewer passes unless a stop or
      an expired deadline is seen first, and never more. */
  lemma OneShotRunsOneCycle(cycle: nat, timeout: Timeout, cp: Checkpoints)
    ensures PassCount(cycle, true, timeout, cp) <= cycle
    ensures cp.stopSeenAt >= cycle && (!HasDeadline(timeout) || cp.expiredFrom + 1 >= cycle) ==>
      PassCount(cycle, true, timeout, cp) == cycle
  {
  }
}
