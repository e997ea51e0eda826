/** FillLedAnimation: LEDs are set to one colour one after another, front to
    back or back to front, and stay lit. */
module FillLed {
  import opened Sequences
  import opened Device
  import opened Lifecycle

  /** `step_delay = 0.05` seconds. */
  const StepMs: nat := 50

  /** The animation's two mutable fields; Refill and Bounce reassign them
      between runs. */
  datatype FillAnim = FillAnim(fillColor: Color, reverse: bool)

  /** `list(range(0, num_leds))`, reversed in place when `reverse`. */
  function Order(n: nat, reverse: bool): (order: seq<int>)
    ensures |order| == n
    ensures forall j :: 0 <= j < n ==> order[j] == if reverse then n - 1 - j else j
  {
    var leds := Range(0, n);
    if reverse then Reversed(leds) else leds
  }

  /** For each LED of `order`: `set_led(led, c)`, then a step delay. */
  function Writes(order: seq<int>, c: Color): (t: seq<Op>)
    ensures |t| == 2 * |order|
  {
    if order == [] then [] else [SetLed(order[0], c), Wait(StepMs)] + Writes(order[1..], c)
  }

  /** What one call of `start` issues, and whether it logged the warning that
      Fill does not support persistent animation. */
  datatype Run = Run(trace: seq<Op>, warned: bool)

  /** `start(timeout=None, one_shot=True)`. Fill has no stop flag and no loop:
      one pass always runs to the end. */
  function Start(a: FillAnim, n: nat, timeout: Timeout, oneShot: bool): (r: Run)
    ensures r.warned <==> !oneShot || timeout.After?
    ensures |r.trace| == 2 * n
  {
    var order := Order(n, a.reverse);
    Run(Writes(order, a.fillColor), !oneShot || timeout != NoTimeout)
  }

  /** A run addresses only LEDs of the strip and issues nothing but immediate
      writes and waits. */
  lemma StartShape(a: FillAnim, n: nat, timeout: Timeout, oneShot: bool)
    ensures Addresses(Start(a, n, timeout, oneShot).trace, n)
    ensures forall j :: 0 <= j < |Start(a, n, timeout, oneShot).trace| ==>
      Start(a, n, timeout, oneShot).trace[j].SetLed? || Start(a, n, timeout, oneShot).trace[j].Wait?
  {
    WritesAddress(Order(n, a.reverse), a.fillColor, n);
  }

  /** Writes to LEDs of the strip address the strip, and issue nothing but
      immediate writes and waits. */
  lemma {:induction false} WritesAddress(order: seq<int>, c: Color, n: nat)
    requires forall j :: 0 <= j < |order| ==> InRange(order[j], n)
    ensures Addresses(Writes(order, c), n)
    ensures forall j :: 0 <= j < |Writes(order, c)| ==> Writes(order, c)[j].SetLed? || Writes(order, c)[j].Wait?
    decreases |order|
  {
    if order != [] {
      var head := [SetLed(order[0], c), Wait(StepMs)];
      WritesAddress(order[1..], c, n);
      AddressesConcat(head, Writes(order[1..], c), n);
      var t := Writes(order, c);
      assert t == head + Writes(order[1..], c);
      forall j | 0 <= j < |t|
        ensures t[j].SetLed? || t[j].Wait?
      {
        if j >= 2 {
          assert t[j] == Writes(order[1..], c)[j - 2];
        }
      }
    }
  }

  /** The writes, op by op: even positions write the LEDs in order, odd
      positions wait. */
  lemma {:induction false} WritesShape(order: seq<int>, c: Color)
    ensures forall j :: 0 <= j < |Writes(order, c)| ==>
      Writes(order, c)[j] == if j % 2 == 0 then SetLed(order[j / 2], c) else Wait(StepMs)
    decreases |order|
  {
    if order != [] {
      var t := Writes(order, c);
      var rest := Writes(order[1..], c);
      WritesShape(order[1..], c);
      assert t == [SetLed(order[0], c), Wait(StepMs)] + rest;
      forall j | 2 <= j < |t|
        ensures t[j] == if j % 2 == 0 then SetLed(order[j / 2], c) else Wait(StepMs)
      {
        assert t[j] == rest[j - 2];
        assert (j - 2) / 2 == j / 2 - 1 && (j - 2) % 2 == j % 2;
      }
    }
  }

  /** A Fill run, op by op: the `j`-th write sets LED `j` (or `n-1-j` when
      reversed) to the fill colour, and each write is followed by the step
      delay. */
  lemma FillTrace(a: FillAnim, n: nat, timeout: Timeout, oneShot: bool)
    ensures |Start(a, n, timeout, oneShot).trace| == 2 * n
    ensures forall j :: 0 <= j < n ==>
      Start(a, n, timeout, oneShot).trace[2 * j] == SetLed(if a.reverse then n - 1 - j else j, a.fillColor)
      && Start(a, n, timeout, oneShot).trace[2 * j + 1] == Wait(StepMs)
  {
    var order := Order(n, a.reverse);
    var t := Start(a, n, timeout, oneShot).trace;
    WritesShape(order, a.fillColor);
    forall j | 0 <= j < n
      ensures t[2 * j] == SetLed(if a.reverse then n - 1 - j else j, a.fillColor) && t[2 * j + 1] == Wait(StepMs)
    {
      assert (2 * j) / 2 == j && (2 * j) % 2 == 0 && (2 * j + 1) % 2 == 1;
    }
  }

  /** Every LED is written exactly once: the order is a permutation of
      `0 .. n-1`. */
  lemma OrderIsPermutation(n: nat, reverse: bool)
    ensures forall j :: 0 <= j < n ==> InRange(Order(n, reverse)[j], n)
    ensures forall j, k :: 0 <= j < k < n ==> Order(n, reverse)[j] != Order(n, reverse)[k]
    ensures forall i :: 0 <= i < n ==> i in Order(n, reverse)
  {
    var order := Order(n, reverse);
    forall i | 0 <= i < n
      ensures i in order
    {
      var j := if reverse then n - 1 - i else i;
      assert order[j] == i;
    }
  }

  /** The warning changes nothing but the log: the trace does not depend on
      `timeout` or `one_shot`. */
  lemma WarningLeavesTraceAlone(a: FillAnim, n: nat, t1: Timeout, o1: bool, t2: Timeout, o2: bool)
    ensures Start(a, n, t1, o1).trace == Start(a, n, t2, o2).trace
    ensures Start(a, n, t1, o1).warned != Start(a, n, t2, o2).warned ==> o1 != o2 || t1.After? != t2.After?
  {
  }

  /** Replaying the writes of `order` sets exactly the LEDs in `order` to `c`
      and shows the buffer. */
  lemma {:induction false} WritesPaint(s: Strip, n: nat, order: seq<int>, c: Color)
    requires Sized(s, n)
    requires forall j :: 0 <= j < |order| ==> InRange(order[j], n)
    ensures forall i :: 0 <= i < n ==>
      Replay(s, Writes(order, c)).staged[i] == if i in order then c else s.staged[i]
    ensures order != [] ==> Replay(s, Writes(order, c)).shown == Replay(s, Writes(order, c)).staged
    ensures order == [] ==> Replay(s, Writes(order, c)) == s
    decreases |order|
  {
    if order != [] {
      var head := [SetLed(order[0], c), Wait(StepMs)];
      var s1 := Apply(s, SetLed(order[0], c));
      assert head[1..] == [Wait(StepMs)];
      assert Replay(s, head) == Replay(s1, [Wait(StepMs)]);
      assert Replay(s1, [Wait(StepMs)]) == Replay(Apply(s1, Wait(StepMs)), []);
      ReplayAppend(s, head, Writes(order[1..], c));
      WritesPaint(s1, n, order[1..], c);
      forall i | 0 <= i < n
        ensures (i in order) == (i == order[0] || i in order[1..])
      {
        assert order == [order[0]] + order[1..];
      }
    }
  }

  /** After `start`, every LED shows the fill colour, in whichever direction
      and whatever was on the strip before. */
  lemma FillPaints(a: FillAnim, n: nat, timeout: Timeout, oneShot: bool, s: Strip)
    requires Sized(s, n)
    ensures AllOf(Replay(s, Start(a, n, timeout, oneShot).trace), n, a.fillColor)
  {
    var order := Order(n, a.reverse);
    OrderIsPermutation(n, a.reverse);
    WritesPaint(s, n, order, a.fillColor);
    var r := Replay(s, Writes(order, a.fillColor));
    assert r.staged == Solid(n, a.fillColor);
  }
}
