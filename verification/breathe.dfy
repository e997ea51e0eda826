/** BreatheLedAnimation: all LEDs fade up and down together. Brightness is
    counted in whole steps of 0.05, so full brightness 1.0 is `FullScale`
    steps and the fill colour is `Scaled(color, steps)`. */
module BreatheLed {
  import opened Sequences
  import opened Device
  import opened Lifecycle

  /** Brightness 1.0 in steps of `self.step = 0.05`. */
  const FullScale: int := 20
  /** One up-and-down cycle of the brightness, in passes. */
  const Period: int := 2 * FullScale
  /** `step_delay = 0.05` seconds. */
  const StepMs: nat := 50

  datatype BreatheAnim = BreatheAnim(color: Color)

  /** The loop's local variables: `brightness`, `step` (as a sign) and
      `ending`. */
  datatype Phase = Phase(brightness: int, step: int, ending: bool)

  predicate Valid(p: Phase) {
    0 <= p.brightness <= FullScale && (p.step == 1 || p.step == -1)
  }

  /** Turn around at either bound, then take one step. */
  function Advance(p: Phase): (q: Phase)
    ensures Valid(p) ==> Valid(q)
    ensures Valid(p) ==> q.brightness == p.brightness + q.step
    ensures p.brightness >= FullScale ==> q.step == -1
    ensures 0 < p.brightness < FullScale ==> q.step == p.step
    ensures q.ending == p.ending
  {
    var step := if p.brightness >= FullScale then -1 else if p.brightness <= 0 then 1 else p.step;
    Phase(p.brightness + step, step, p.ending)
  }

  /** `leds.fill(brightness * color)` followed by the step delay. */
  function Frame(c: Color, level: int): (t: seq<Op>)
    ensures |t| == 2 && t[0].Fill? && t[1] == Wait(StepMs)
    ensures 0 <= level <= FullScale ==> forall j :: 0 <= j < |t| ==> InBounds(t[j], c)
  {
    [Fill(Scaled(c, level)), Wait(StepMs)]
  }

  /** An operation the loop may issue: a fill of the colour at a brightness
      within `0 .. FullScale`, or the step delay. */
  predicate InBounds(op: Op, c: Color) {
    op == Wait(StepMs) || (op.Fill? && op.color.Scaled? && op.color.base == c && 0 <= op.color.units <= FullScale)
  }

  /** The `while` loop from pass `k` on, in phase `p`. */
  function Loop(a: BreatheAnim, timeout: Timeout, oneShot: bool, cp: Checkpoints, k: nat, p: Phase): (t: seq<Op>)
    requires Valid(p)
    ensures forall j :: 0 <= j < |t| ==> InBounds(t[j], a.color)
    decreases cp.stopSeenAt - k
  {
    if k >= cp.stopSeenAt then []
    else
      var q := Advance(p);
      var frame := Frame(a.color, q.brightness);
      if oneShot && q.brightness >= FullScale then
        frame + Loop(a, timeout, oneShot, cp, k + 1, q.(ending := true))
      else if q.ending && q.brightness <= 0 then frame
      else if DeadlinePassed(timeout, cp, k) then frame
      else frame + Loop(a, timeout, oneShot, cp, k + 1, q)
  }

  /** `start`: brightness 0 stepping up, the loop, and a black fill. */
  function Start(a: BreatheAnim, timeout: Timeout, oneShot: bool, cp: Checkpoints): (t: seq<Op>)
    ensures |t| >= 1 && t[|t| - 1] == Fill(BLACK)
    ensures forall j :: 0 <= j < |t| - 1 ==> InBounds(t[j], a.color)
  {
    Loop(a, timeout, oneShot, cp, 0, Phase(0, 1, false)) + [Fill(BLACK)]
  }

  // ---- Reference: the brightness is a triangle wave ----

  /** Brightness after `m` steps of a wave that starts at 0 going up. */
  function Tri(m: nat): (b: int)
    ensures 0 <= b <= FullScale
  {
    var r := m % Period;
    if r <= FullScale then r else Period - r
  }

  /** Frames at the wave's levels for passes `k .. m-1`. */
  function Levels(c: Color, k: nat, m: nat): seq<Op>
    decreases m - k
  {
    if k >= m then [] else Frame(c, Tri(k + 1)) + Levels(c, k + 1, m)
  }

  /** The pass after which the deadline is acted on: the first pass at or
      after `expiredFrom`, except that the one-shot pass reaching full
      brightness sets `ending` instead of looking at the clock. */
  function DeadlinePass(oneShot: bool, cp: Checkpoints): nat {
    if oneShot && cp.expiredFrom == FullScale - 1 then FullScale else cp.expiredFrom
  }

  /** How many passes the loop runs. */
  function Passes(timeout: Timeout, oneShot: bool, cp: Checkpoints): (m: nat)
    ensures m <= cp.stopSeenAt
    ensures oneShot ==> m <= Period
    ensures HasDeadline(timeout) ==> m <= DeadlinePass(oneShot, cp) + 1
    ensures m == cp.stopSeenAt
         || (oneShot && m == Period)
         || (HasDeadline(timeout) && m == DeadlinePass(oneShot, cp) + 1)
  {
    var byStop := cp.stopSeenAt;
    var byCycle := if oneShot then Min(byStop, Period) else byStop;
    if HasDeadline(timeout) then Min(byCycle, DeadlinePass(oneShot, cp) + 1) else byCycle
  }

  /** The loop state before pass `k`, as the wave predicts it. */
  predicate PhaseAt(p: Phase, k: nat, oneShot: bool) {
    && Valid(p)
    && p.brightness == Tri(k)
    && (0 < p.brightness < FullScale ==> p.step == if k % Period < FullScale then 1 else -1)
    && p.ending == (oneShot && k >= FullScale)
  }

  lemma AdvanceFollowsWave(p: Phase, k: nat, oneShot: bool)
    requires PhaseAt(p, k, oneShot)
    ensures Advance(p).brightness == Tri(k + 1)
    ensures 0 < Tri(k + 1) < FullScale ==> Advance(p).step == if (k + 1) % Period < FullScale then 1 else -1
  {
    var r := k % Period;
    assert (k + 1) % Period == if r == Period - 1 then 0 else r + 1;
  }

  /** Where the wave turns: full brightness only at `FullScale` modulo the
      period, black only at multiples of the period. */
  lemma TurningPoints(m: nat)
    ensures Tri(m) >= FullScale <==> m % Period == FullScale
    ensures Tri(m) <= 0 <==> m % Period == 0
  {
  }

  /** What one pass does when the loop is on the wave: the frame it issues,
      and the phase it hands to the next pass if it does not stop. */
  lemma {:induction false} OnePass(a: BreatheAnim, timeout: Timeout, oneShot: bool, cp: Checkpoints, k: nat, p: Phase)
    requires k < Passes(timeout, oneShot, cp)
    requires PhaseAt(p, k, oneShot)
    ensures var q := Advance(p);
      var frame := Frame(a.color, Tri(k + 1));
      && q.brightness == Tri(k + 1)
      && (oneShot && q.brightness >= FullScale ==>
            PhaseAt(q.(ending := true), k + 1, oneShot)
            && (k + 1 < Passes(timeout, oneShot, cp) || k + 1 == cp.stopSeenAt)
            && Loop(a, timeout, oneShot, cp, k, p) == frame + Loop(a, timeout, oneShot, cp, k + 1, q.(ending := true)))
      && (!(oneShot && q.brightness >= FullScale) && q.ending && q.brightness <= 0 ==>
            k + 1 == Passes(timeout, oneShot, cp) && Loop(a, timeout, oneShot, cp, k, p) == frame)
      && (!(oneShot && q.brightness >= FullScale) && !(q.ending && q.brightness <= 0)
          && DeadlinePassed(timeout, cp, k) ==>
            k + 1 == Passes(timeout, oneShot, cp) && Loop(a, timeout, oneShot, cp, k, p) == frame)
      && (!(oneShot && q.brightness >= FullScale) && !(q.ending && q.brightness <= 0)
          && !DeadlinePassed(timeout, cp, k) ==>
            PhaseAt(q, k + 1, oneShot)
            && (k + 1 < Passes(timeout, oneShot, cp) || k + 1 == cp.stopSeenAt)
            && Loop(a, timeout, oneShot, cp, k, p) == frame + Loop(a, timeout, oneShot, cp, k + 1, q))
  {
    AdvanceFollowsWave(p, k, oneShot);
    TurningPoints(k + 1);
    var r := k % Period;
    assert (k + 1) % Period == if r == Period - 1 then 0 else r + 1;
    if oneShot {
      assert k < Period;
    }
  }

  /** The loop is the wave, cut after `Passes` passes. */
  lemma {:induction false} LoopFollowsWave(a: BreatheAnim, timeout: Timeout, oneShot: bool, cp: Checkpoints, k: nat, p: Phase)
    requires k < Passes(timeout, oneShot, cp) || k == Passes(timeout, oneShot, cp) == cp.stopSeenAt
    requires PhaseAt(p, k, oneShot)
    ensures Loop(a, timeout, oneShot, cp, k, p) == Levels(a.color, k, Passes(timeout, oneShot, cp))
    decreases cp.stopSeenAt - k
  {
    var m := Passes(timeout, oneShot, cp);
    if k < m {
      OnePass(a, timeout, oneShot, cp, k, p);
      var q := Advance(p);
      if oneShot && q.brightness >= FullScale {
        LoopFollowsWave(a, timeout, oneShot, cp, k + 1, q.(ending := true));
      } else if q.ending && q.brightness <= 0 {
      } else if DeadlinePassed(timeout, cp, k) {
      } else {
        LoopFollowsWave(a, timeout, oneShot, cp, k + 1, q);
      }
    }
  }

  /** A whole run: the wave's levels for `Passes` passes, then black. */
  lemma BreatheFollowsWave(a: BreatheAnim, timeout: Timeout, oneShot: bool, cp: Checkpoints)
    ensures Start(a, timeout, oneShot, cp) == Levels(a.color, 0, Passes(timeout, oneShot, cp)) + [Fill(BLACK)]
  {
    LoopFollowsWave(a, timeout, oneShot, cp, 0, Phase(0, 1, false));
  }

  lemma {:induction false} LevelsLength(c: Color, k: nat, m: nat)
    requires k <= m
    ensures |Levels(c, k, m)| == 2 * (m - k)
    decreases m - k
  {
    if k < m {
      LevelsLength(c, k + 1, m);
    }
  }

  /** Frame `i` of `Levels` is the wave's level after pass `k + i`. */
  lemma {:induction false} LevelsAt(c: Color, k: nat, m: nat, i: nat)
    requires k <= m && i < m - k
    ensures |Levels(c, k, m)| == 2 * (m - k)
    ensures Levels(c, k, m)[2 * i] == Fill(Scaled(c, Tri(k + i + 1)))
    ensures Levels(c, k, m)[2 * i + 1] == Wait(StepMs)
    decreases i
  {
    LevelsLength(c, k, m);
    var rest := Levels(c, k + 1, m);
    assert Levels(c, k, m) == Frame(c, Tri(k + 1)) + rest;
    if i > 0 {
      LevelsAt(c, k + 1, m, i - 1);
      assert Levels(c, k, m)[2 * i] == rest[2 * (i - 1)];
      assert Levels(c, k, m)[2 * i + 1] == rest[2 * (i - 1) + 1];
    }
  }

  /** One-shot mode, with no stop or deadline before the cycle is over:
      the fills go through brightness `1, 2, .., FullScale`, then
      `FullScale - 1, .., 0`, one step delay after each, and the run ends
      with one black fill. */
  lemma OneShotSweep(a: BreatheAnim, timeout: Timeout, cp: Checkpoints)
    requires cp.stopSeenAt >= Period
    requires !HasDeadline(timeout) || cp.expiredFrom >= Period - 1
    ensures |Start(a, timeout, true, cp)| == 2 * Period + 1
    ensures forall j :: 0 <= j < Period ==>
      Start(a, timeout, true, cp)[2 * j]
        == Fill(Scaled(a.color, if j < FullScale then j + 1 else Period - 1 - j))
      && Start(a, timeout, true, cp)[2 * j + 1] == Wait(StepMs)
    ensures Start(a, timeout, true, cp)[2 * Period] == Fill(BLACK)
  {
    BreatheFollowsWave(a, timeout, true, cp);
    assert Passes(timeout, true, cp) == Period;
    var levels := Levels(a.color, 0, Period);
    LevelsLength(a.color, 0, Period);
    var t := Start(a, timeout, true, cp);
    assert t == levels + [Fill(BLACK)];
    forall j | 0 <= j < Period
      ensures t[2 * j] == Fill(Scaled(a.color, if j < FullScale then j + 1 else Period - 1 - j))
      ensures t[2 * j + 1] == Wait(StepMs)
    {
      LevelsAt(a.color, 0, Period, j);
      assert t[2 * j] == levels[2 * j] && t[2 * j + 1] == levels[2 * j + 1];
      if j + 1 == Period {
        assert (j + 1) % Period == 0;
      } else {
        assert (j + 1) % Period == j + 1;
      }
    }
  }

  /** Outside one-shot mode and without a deadline, breathing goes on until
      `stop()` is seen: the brightness keeps bouncing between 0 and
      `FullScale` and never stops by itself. */
  lemma ContinuousRunsUntilStopped(a: BreatheAnim, timeout: Timeout, cp: Checkpoints)
    requires !HasDeadline(timeout)
    ensures Start(a, timeout, false, cp) == Levels(a.color, 0, cp.stopSeenAt) + [Fill(BLACK)]
  {
    BreatheFollowsWave(a, timeout, false, cp);
  }

  /** Breathe only fills the whole strip and waits: it never writes a
      single LED, so it never addresses one outside the strip. */
  lemma BreatheAddresses(a: BreatheAnim, n: nat, timeout: Timeout, oneShot: bool, cp: Checkpoints)
    ensures forall j :: 0 <= j < |Start(a, timeout, oneShot, cp)| ==>
      Start(a, timeout, oneShot, cp)[j].Fill? || Start(a, timeout, oneShot, cp)[j].Wait?
    ensures Addresses(Start(a, timeout, oneShot, cp), n)
  {
  }
}
