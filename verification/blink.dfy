/** BlinkLedAnimation: the whole strip blinks `num_blinks` times; with
    `repeat`, the burst comes back after a pause until stopped. */
module BlinkLed {
  import opened Sequences
  import opened Device
  import opened Lifecycle

  /** The waits of the animation: 0.5 s before the first burst, 0.25 s on,
      0.5 s off, and 2 s between repeated bursts. */
  const SettleMs: nat := 500
  const OnMs: nat := 250
  const OffMs: nat := 500
  const PauseMs: nat := 2000

  datatype BlinkAnim = BlinkAnim(color: Color, numBlinks: int, repeat: bool)

  /** The `r`-th operation of one blink: on, wait, off, wait. */
  function BlinkStep(c: Color, r: int): Op {
    if r == 0 then Fill(c) else if r == 1 then Wait(OnMs) else if r == 2 then Fill(BLACK) else Wait(OffMs)
  }

  /** `for i in range(count)`: on, wait, off, wait. A count below one gives
      no blink, as `range` does. */
  function Blinks(c: Color, count: int): (t: seq<Op>)
    ensures |t| == if count <= 0 then 0 else 4 * count
    decreases count
  {
    if count <= 0 then []
    else [Fill(c), Wait(OnMs), Fill(BLACK), Wait(OffMs)] + Blinks(c, count - 1)
  }

  /** The burst, op by op: the same four steps over and over. */
  lemma {:induction false} BlinksShape(c: Color, count: int)
    ensures forall j :: 0 <= j < |Blinks(c, count)| ==> Blinks(c, count)[j] == BlinkStep(c, j % 4)
    decreases count
  {
    if count > 0 {
      var t := Blinks(c, count);
      var rest := Blinks(c, count - 1);
      BlinksShape(c, count - 1);
      assert t == [Fill(c), Wait(OnMs), Fill(BLACK), Wait(OffMs)] + rest;
      forall j | 4 <= j < |t|
        ensures t[j] == BlinkStep(c, j % 4)
      {
        assert t[j] == rest[j - 4];
        assert (j - 4) % 4 == j % 4;
      }
    }
  }

  /** One pass: the burst, then the long pause only when repeating outside
      one-shot mode. */
  function Pass(a: BlinkAnim, oneShot: bool): (t: seq<Op>)
    ensures Blinks(a.color, a.numBlinks) <= t
    ensures |t| == |Blinks(a.color, a.numBlinks)| + if a.repeat && !oneShot then 1 else 0
  {
    Blinks(a.color, a.numBlinks) + (if oneShot then [] else if a.repeat then [Wait(PauseMs)] else [])
  }

  /** The `while` loop from pass `k` on. `one_shot`, or not repeating, raises
      the flag after the pass; so does an expired deadline, checked after
      every pass. */
  function Loop(a: BlinkAnim, timeout: Timeout, oneShot: bool, cp: Checkpoints, k: nat): (t: seq<Op>)
    ensures k >= cp.stopSeenAt ==> t == []
    ensures k < cp.stopSeenAt ==> Pass(a, oneShot) <= t
    decreases cp.stopSeenAt - k
  {
    if k >= cp.stopSeenAt then []
    else
      var stopping := oneShot || !a.repeat;
      var stopping' := stopping || DeadlinePassed(timeout, cp, k);
      if stopping' then Pass(a, oneShot) else Pass(a, oneShot) + Loop(a, timeout, oneShot, cp, k + 1)
  }

  /** `start`: black, the settling wait, then the loop. No black fill at the
      end: every blink already ends black. */
  function Start(a: BlinkAnim, timeout: Timeout, oneShot: bool, cp: Checkpoints): (t: seq<Op>)
    ensures |t| >= 2 && t[0] == Fill(BLACK) && t[1] == Wait(SettleMs)
    ensures cp.stopSeenAt == 0 ==> |t| == 2
  {
    [Fill(BLACK), Wait(SettleMs)] + Loop(a, timeout, oneShot, cp, 0)
  }

  /** The loop is `PassCount` bursts; a single burst when one-shot or not
      repeating. */
  lemma {:induction false} LoopRepeats(a: BlinkAnim, timeout: Timeout, oneShot: bool, cp: Checkpoints, k: nat)
    requires k < PassCount(1, oneShot || !a.repeat, timeout, cp)
          || k == PassCount(1, oneShot || !a.repeat, timeout, cp) == cp.stopSeenAt
    ensures Loop(a, timeout, oneShot, cp, k) == Repeat(Pass(a, oneShot), PassCount(1, oneShot || !a.repeat, timeout, cp) - k)
    decreases cp.stopSeenAt - k
  {
    var m := PassCount(1, oneShot || !a.repeat, timeout, cp);
    if k < m {
      if !(oneShot || !a.repeat) && !DeadlinePassed(timeout, cp, k) {
        LoopRepeats(a, timeout, oneShot, cp, k + 1);
      } else {
        assert m == k + 1;
        assert Repeat(Pass(a, oneShot), 1) == Pass(a, oneShot) + [];
      }
    }
  }

  /** One-shot, or not repeating: the initial black fill and wait, then
      exactly `num_blinks` on/off pairs, and nothing else. */
  lemma SingleBurst(a: BlinkAnim, timeout: Timeout, oneShot: bool, cp: Checkpoints)
    requires oneShot || !a.repeat
    requires cp.stopSeenAt >= 1
    ensures Start(a, timeout, oneShot, cp) == [Fill(BLACK), Wait(SettleMs)] + Blinks(a.color, a.numBlinks)
  {
  }

  /** The 2-second pause is issued iff repeating outside one-shot mode. */
  lemma PauseOnlyWhenRepeating(a: BlinkAnim, oneShot: bool)
    ensures Wait(PauseMs) in Pass(a, oneShot) <==> a.repeat && !oneShot
  {
    var b := Blinks(a.color, a.numBlinks);
    BlinksShape(a.color, a.numBlinks);
    if a.repeat && !oneShot {
      assert Pass(a, oneShot)[|b|] == Wait(PauseMs);
    }
  }

  /** A burst started on a black strip leaves it black. */
  lemma {:induction false} BlinksKeepDark(c: Color, count: int, n: nat)
    ensures AllOf(Replay(Strip(Solid(n, BLACK), Solid(n, BLACK)), Blinks(c, count)), n, BLACK)
    decreases count
  {
    var dark := Strip(Solid(n, BLACK), Solid(n, BLACK));
    if count > 0 {
      var head := [Fill(c), Wait(OnMs), Fill(BLACK), Wait(OffMs)];
      ReplayAppend(dark, head, Blinks(c, count - 1));
      ReplayAppend(dark, [Fill(c), Wait(OnMs)], [Fill(BLACK), Wait(OffMs)]);
      assert head == [Fill(c), Wait(OnMs)] + [Fill(BLACK), Wait(OffMs)];
      var lit := Replay(dark, [Fill(c), Wait(OnMs)]);
      EndsWithFill(lit, n, [], BLACK);
      assert [] + [Fill(BLACK)] == [Fill(BLACK)];
      ReplayAppend(lit, [Fill(BLACK)], [Wait(OffMs)]);
      WaitsAreInvisible(Replay(lit, [Fill(BLACK)]), [Wait(OffMs)]);
      BlinksKeepDark(c, count - 1, n);
    }
  }

  lemma {:induction false} RepeatKeepsDark(a: BlinkAnim, oneShot: bool, m: nat, n: nat)
    ensures AllOf(Replay(Strip(Solid(n, BLACK), Solid(n, BLACK)), Repeat(Pass(a, oneShot), m)), n, BLACK)
  {
    var dark := Strip(Solid(n, BLACK), Solid(n, BLACK));
    if m > 0 {
      var b := Blinks(a.color, a.numBlinks);
      var tail := if oneShot then [] else if a.repeat then [Wait(PauseMs)] else [];
      BlinksKeepDark(a.color, a.numBlinks, n);
      ReplayAppend(dark, b, tail);
      WaitsAreInvisible(Replay(dark, b), tail);
      ReplayAppend(dark, Pass(a, oneShot), Repeat(Pass(a, oneShot), m - 1));
      RepeatKeepsDark(a, oneShot, m - 1, n);
    }
  }

  /** Blink always leaves every LED black, however it was stopped. */
  lemma BlinkEndsDark(a: BlinkAnim, n: nat, timeout: Timeout, oneShot: bool, cp: Checkpoints, s: Strip)
    requires Sized(s, n)
    ensures AllOf(Replay(s, Start(a, timeout, oneShot, cp)), n, BLACK)
  {
    var m := PassCount(1, oneShot || !a.repeat, timeout, cp);
    LoopRepeats(a, timeout, oneShot, cp, 0);
    var intro := [Fill(BLACK), Wait(SettleMs)];
    ReplayAppend(s, intro, Repeat(Pass(a, oneShot), m));
    ReplayAppend(s, [Fill(BLACK)], [Wait(SettleMs)]);
    EndsWithFill(s, n, [], BLACK);
    assert [] + [Fill(BLACK)] == [Fill(BLACK)];
    WaitsAreInvisible(Replay(s, [Fill(BLACK)]), [Wait(SettleMs)]);
    RepeatKeepsDark(a, oneShot, m, n);
  }

  /** A pass only fills the whole strip and waits. */
  lemma PassOnlyFills(a: BlinkAnim, oneShot: bool, n: nat)
    ensures forall j :: 0 <= j < |Pass(a, oneShot)| ==> Pass(a, oneShot)[j].Fill? || Pass(a, oneShot)[j].Wait?
    ensures Addresses(Pass(a, oneShot), n)
  {
    var b := Blinks(a.color, a.numBlinks);
    var t := Pass(a, oneShot);
    BlinksShape(a.color, a.numBlinks);
    forall j | 0 <= j < |t|
      ensures t[j].Fill? || t[j].Wait?
    {
      if j < |b| {
        assert t[j] == BlinkStep(a.color, j % 4);
      }
    }
  }

  /** Blink never writes a single LED, so it never addresses one outside
      the strip. */
  lemma BlinkAddresses(a: BlinkAnim, n: nat, timeout: Timeout, oneShot: bool, cp: Checkpoints)
    ensures Addresses(Start(a, timeout, oneShot, cp), n)
  {
    var m := PassCount(1, oneShot || !a.repeat, timeout, cp);
    LoopRepeats(a, timeout, oneShot, cp, 0);
    PassOnlyFills(a, oneShot, n);
    RepeatAddresses(Pass(a, oneShot), m, n);
    AddressesConcat([Fill(BLACK), Wait(SettleMs)], Repeat(Pass(a, oneShot), m), n);
  }
}
