/** ChaseLedAnimation: one LED at a time is lit in the foreground colour on a
    background, sweeping from the first LED to the last, until stopped. */
module ChaseLed {
  import opened Sequences
  import opened Device
  import opened Lifecycle

  /** `step_delay = 0.1` seconds. */
  const StepMs: nat := 100

  datatype ChaseAnim = ChaseAnim(foreground: Color, background: Color)

  /** The inner `for` loop over `leds`: light each LED, wait, put it back. */
  function Sweep(leds: seq<int>, fg: Color, bg: Color): (t: seq<Op>)
    ensures |t| == 3 * |leds|
  {
    if leds == [] then []
    else [SetLed(leds[0], fg), Wait(StepMs), SetLed(leds[0], bg)] + Sweep(leds[1..], fg, bg)
  }

  /** The sweep, triple by triple: the `j`-th LED lit, a wait, the LED put
      back. */
  lemma {:induction false} SweepShape(leds: seq<int>, fg: Color, bg: Color)
    ensures forall j :: 0 <= j < |leds| ==>
      Sweep(leds, fg, bg)[3 * j] == SetLed(leds[j], fg) && Sweep(leds, fg, bg)[3 * j + 1] == Wait(StepMs)
      && Sweep(leds, fg, bg)[3 * j + 2] == SetLed(leds[j], bg)
    decreases |leds|
  {
    if leds != [] {
      var t := Sweep(leds, fg, bg);
      var rest := Sweep(leds[1..], fg, bg);
      SweepShape(leds[1..], fg, bg);
      assert t == [SetLed(leds[0], fg), Wait(StepMs), SetLed(leds[0], bg)] + rest;
      forall j | 1 <= j < |leds|
        ensures t[3 * j] == SetLed(leds[j], fg) && t[3 * j + 1] == Wait(StepMs) && t[3 * j + 2] == SetLed(leds[j], bg)
      {
        assert leds[j] == leds[1..][j - 1];
        assert t[3 * j] == rest[3 * (j - 1)];
        assert t[3 * j + 1] == rest[3 * (j - 1) + 1];
        assert t[3 * j + 2] == rest[3 * (j - 1) + 2];
      }
    }
  }

  /** One pass of the `while` loop: a sweep over `range(0, num_leds)`. */
  function Pass(a: ChaseAnim, n: nat): (t: seq<Op>)
    ensures |t| == 3 * n
  {
    Sweep(Range(0, n), a.foreground, a.background)
  }

  /** The `while` loop from pass `k` on. The flag test comes before each
      pass; `one_shot`, else an expired deadline, raises the flag after it. */
  function Loop(a: ChaseAnim, n: nat, timeout: Timeout, oneShot: bool, cp: Checkpoints, k: nat): (t: seq<Op>)
    ensures k >= cp.stopSeenAt ==> t == []
    ensures k < cp.stopSeenAt ==> Pass(a, n) <= t
    decreases cp.stopSeenAt - k
  {
    if k >= cp.stopSeenAt then []
    else if oneShot then Pass(a, n)
    else if DeadlinePassed(timeout, cp, k) then Pass(a, n)
    else Pass(a, n) + Loop(a, n, timeout, oneShot, cp, k + 1)
  }

  /** `start`: background fill, the loop, and a final fill with black. */
  function Start(a: ChaseAnim, n: nat, timeout: Timeout, oneShot: bool, cp: Checkpoints): (t: seq<Op>)
    ensures |t| >= 2 && t[0] == Fill(a.background) && t[|t| - 1] == Fill(BLACK)
  {
    [Fill(a.background)] + Loop(a, n, timeout, oneShot, cp, 0) + [Fill(BLACK)]
  }

  /** The loop runs whole sweeps, exactly `PassCount` of them: a full sweep
      always completes before the stop flag or the deadline is looked at. */
  lemma {:induction false} LoopIsWholeSweeps(a: ChaseAnim, n: nat, timeout: Timeout, oneShot: bool, cp: Checkpoints, k: nat)
    requires k < PassCount(1, oneShot, timeout, cp) || k == PassCount(1, oneShot, timeout, cp) == cp.stopSeenAt
    ensures Loop(a, n, timeout, oneShot, cp, k) == Repeat(Pass(a, n), PassCount(1, oneShot, timeout, cp) - k)
    decreases cp.stopSeenAt - k
  {
    var m := PassCount(1, oneShot, timeout, cp);
    if k < m {
      if !oneShot && !DeadlinePassed(timeout, cp, k) {
        LoopIsWholeSweeps(a, n, timeout, oneShot, cp, k + 1);
      } else {
        assert m == k + 1;
        assert Repeat(Pass(a, n), 1) == Pass(a, n) + [];
      }
    }
  }

  /** One-shot chase issues the background fill, one sweep and the black
      fill; a stop seen before the first pass leaves only the two fills. */
  lemma OneShotTrace(a: ChaseAnim, n: nat, timeout: Timeout, cp: Checkpoints)
    ensures cp.stopSeenAt >= 1 ==>
      Start(a, n, timeout, true, cp) == [Fill(a.background)] + Pass(a, n) + [Fill(BLACK)]
    ensures cp.stopSeenAt == 0 ==>
      Start(a, n, timeout, true, cp) == [Fill(a.background), Fill(BLACK)]
  {
    LoopIsWholeSweeps(a, n, timeout, true, cp, 0);
  }

  /** A pass sweeps in index order: a `set_led(i, fg)`, wait,
      `set_led(i, bg)` triple for `i = 0 .. n-1`. */
  lemma PassShape(a: ChaseAnim, n: nat)
    ensures |Pass(a, n)| == 3 * n
    ensures forall i :: 0 <= i < n ==>
      Pass(a, n)[3 * i] == SetLed(i, a.foreground) && Pass(a, n)[3 * i + 1] == Wait(StepMs)
      && Pass(a, n)[3 * i + 2] == SetLed(i, a.background)
  {
    var leds := Range(0, n);
    SweepShape(leds, a.foreground, a.background);
    assert forall i :: 0 <= i < n ==> leds[i] == i;
  }

  /** Every write of a chase run addresses an LED of the strip. */
  lemma ChaseAddresses(a: ChaseAnim, n: nat, timeout: Timeout, oneShot: bool, cp: Checkpoints)
    ensures Addresses(Start(a, n, timeout, oneShot, cp), n)
  {
    var m := PassCount(1, oneShot, timeout, cp);
    LoopIsWholeSweeps(a, n, timeout, oneShot, cp, 0);
    SweepAddresses(Range(0, n), a.foreground, a.background, n);
    RepeatAddresses(Pass(a, n), m, n);
    AddressesConcat([Fill(a.background)], Repeat(Pass(a, n), m), n);
    AddressesConcat([Fill(a.background)] + Repeat(Pass(a, n), m), [Fill(BLACK)], n);
  }

  lemma {:induction false} SweepAddresses(leds: seq<int>, fg: Color, bg: Color, n: nat)
    requires forall j :: 0 <= j < |leds| ==> InRange(leds[j], n)
    ensures Addresses(Sweep(leds, fg, bg), n)
    decreases |leds|
  {
    if leds != [] {
      SweepAddresses(leds[1..], fg, bg, n);
      AddressesConcat([SetLed(leds[0], fg), Wait(StepMs), SetLed(leds[0], bg)], Sweep(leds[1..], fg, bg), n);
    }
  }

  /** Whether it ends by timeout, by `stop()` or after one sweep, chase leaves
      every LED black. */
  lemma ChaseEndsDark(a: ChaseAnim, n: nat, timeout: Timeout, oneShot: bool, cp: Checkpoints, s: Strip)
    requires Sized(s, n)
    ensures AllOf(Replay(s, Start(a, n, timeout, oneShot, cp)), n, BLACK)
  {
    var body := [Fill(a.background)] + Loop(a, n, timeout, oneShot, cp, 0);
    EndsWithFill(s, n, body, BLACK);
  }
}
