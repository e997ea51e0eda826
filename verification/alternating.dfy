/** AlternatingLedAnimation: the even LEDs and the odd LEDs take turns to
    light, one buffered frame at a time. */
module AlternatingLed {
  import opened Sequences
  import opened Device
  import opened Lifecycle

  /** `self.delay = 0.5` seconds. */
  const DelayMs: nat := 500

  datatype AlternatingAnim = AlternatingAnim(color: Color)

  /** Whether LED `led` takes the colour in a frame of the given parity. */
  predicate Lit(led: int, evens: bool) {
    (evens && led % 2 == 0) || (!evens && led % 2 == 1)
  }

  function Shade(a: AlternatingAnim, led: int, evens: bool): Color {
    if Lit(led, evens) then a.color else BLACK
  }

  /** The inner `for` loop: one deferred write per LED. */
  function Writes(a: AlternatingAnim, leds: seq<int>, evens: bool): (t: seq<Op>)
    ensures |t| == |leds|
    ensures forall j :: 0 <= j < |leds| ==> t[j] == SetLedDeferred(leds[j], Shade(a, leds[j], evens))
  {
    if leds == [] then []
    else [SetLedDeferred(leds[0], Shade(a, leds[0], evens))] + Writes(a, leds[1..], evens)
  }

  /** One frame: the writes for `range(num_leds)`, one `show`, the delay. */
  function Frame(a: AlternatingAnim, n: nat, evens: bool): (t: seq<Op>)
    ensures |t| == n + 2 && t[n] == Show && t[n + 1] == Wait(DelayMs)
  {
    Writes(a, Range(0, n), evens) + [Show, Wait(DelayMs)]
  }

  /** The `while` loop from pass `k` on. Parity flips after every frame; in
      one-shot mode the flag is raised once it is back to even, otherwise an
      expired deadline raises it. */
  function Loop(a: AlternatingAnim, n: nat, timeout: Timeout, oneShot: bool, cp: Checkpoints, k: nat, evens: bool): (t: seq<Op>)
    ensures k >= cp.stopSeenAt ==> t == []
    decreases cp.stopSeenAt - k
  {
    if k >= cp.stopSeenAt then []
    else
      var frame := Frame(a, n, evens);
      var next := !evens;
      if oneShot && next then frame
      else if DeadlinePassed(timeout, cp, k) then frame
      else frame + Loop(a, n, timeout, oneShot, cp, k + 1, next)
  }

  /** `start`: black, the loop from an even frame, black again. */
  function Start(a: AlternatingAnim, n: nat, timeout: Timeout, oneShot: bool, cp: Checkpoints): (t: seq<Op>)
    ensures |t| >= 2 && t[|t| - 1] == Fill(BLACK)
  {
    [Fill(BLACK)] + Loop(a, n, timeout, oneShot, cp, 0, true) + [Fill(BLACK)]
  }

  /** Reference: frames `k .. m-1`, even frames at even passes. */
  function Frames(a: AlternatingAnim, n: nat, k: nat, m: nat): seq<Op>
    decreases m - k
  {
    if k >= m then [] else Frame(a, n, k % 2 == 0) + Frames(a, n, k + 1, m)
  }

  /** A frame writes every LED exactly once, in index order, deferred, and
      then shows them all at once. */
  lemma FrameShape(a: AlternatingAnim, n: nat, evens: bool)
    ensures |Frame(a, n, evens)| == n + 2
    ensures forall i :: 0 <= i < n ==> Frame(a, n, evens)[i] == SetLedDeferred(i, Shade(a, i, evens))
    ensures Frame(a, n, evens)[n] == Show && Frame(a, n, evens)[n + 1] == Wait(DelayMs)
  {
  }

  /** Deferred writes change the buffer only. */
  lemma {:induction false} WritesStage(a: AlternatingAnim, s: Strip, n: nat, leds: seq<int>, evens: bool)
    requires Sized(s, n)
    requires forall j :: 0 <= j < |leds| ==> InRange(leds[j], n)
    ensures Replay(s, Writes(a, leds, evens)).shown == s.shown
    ensures forall i :: 0 <= i < n ==>
      Replay(s, Writes(a, leds, evens)).staged[i] == if i in leds then Shade(a, i, evens) else s.staged[i]
    decreases |leds|
  {
    if leds != [] {
      var op := SetLedDeferred(leds[0], Shade(a, leds[0], evens));
      ReplayAppend(s, [op], Writes(a, leds[1..], evens));
      assert Replay(s, [op]) == Replay(Apply(s, op), []);
      WritesStage(a, Apply(s, op), n, leds[1..], evens);
      forall i | 0 <= i < n
        ensures (i in leds) == (i == leds[0] || i in leds[1..])
      {
        assert leds == [leds[0]] + leds[1..];
      }
    }
  }

  /** After a frame the strip shows the colour on exactly the LEDs of the
      frame's parity and black on all others. */
  lemma FrameShows(a: AlternatingAnim, n: nat, evens: bool, s: Strip)
    requires Sized(s, n)
    ensures forall i :: 0 <= i < n ==>
      Replay(s, Frame(a, n, evens)).shown[i] == if Lit(i, evens) then a.color else BLACK
  {
    var leds := Range(0, n);
    var w := Writes(a, leds, evens);
    WritesStage(a, s, n, leds, evens);
    forall i | 0 <= i < n
      ensures i in leds
    {
      assert leds[i] == i;
    }
    var staged := Replay(s, w);
    ReplayAppend(s, w, [Show, Wait(DelayMs)]);
    ReplayAppend(staged, [Show], [Wait(DelayMs)]);
    assert Replay(staged, [Show]) == Replay(Apply(staged, Show), []);
    WaitsAreInvisible(Replay(staged, [Show]), [Wait(DelayMs)]);
  }

  /** The parities partition the strip: whatever it showed before, the
      even frame displays the colour on exactly the even LEDs, the odd frame
      on exactly the odd ones, so every LED is lit in exactly one of the
      two. (With the colour black there is nothing to tell apart.) */
  lemma ParityPartition(a: AlternatingAnim, n: nat, s: Strip)
    requires Sized(s, n)
    requires a.color != BLACK
    ensures forall i :: 0 <= i < n ==> (Replay(s, Frame(a, n, true)).shown[i] == a.color <==> i % 2 == 0)
    ensures forall i :: 0 <= i < n ==> (Replay(s, Frame(a, n, false)).shown[i] == a.color <==> i % 2 == 1)
    ensures forall i :: 0 <= i < n ==>
      (Replay(s, Frame(a, n, true)).shown[i] == a.color) != (Replay(s, Frame(a, n, false)).shown[i] == a.color)
  {
    FrameShows(a, n, true, s);
    FrameShows(a, n, false, s);
  }

  /** The loop alternates even and odd frames, `PassCount` of them; one-shot
      mode stops after one even/odd pair. */
  lemma {:induction false} LoopAlternates(a: AlternatingAnim, n: nat, timeout: Timeout, oneShot: bool, cp: Checkpoints, k: nat)
    requires k < PassCount(2, oneShot, timeout, cp) || k == PassCount(2, oneShot, timeout, cp) == cp.stopSeenAt
    ensures Loop(a, n, timeout, oneShot, cp, k, k % 2 == 0) == Frames(a, n, k, PassCount(2, oneShot, timeout, cp))
    decreases cp.stopSeenAt - k
  {
    var m := PassCount(2, oneShot, timeout, cp);
    if k < m {
      var next := !(k % 2 == 0);
      assert next == ((k + 1) % 2 == 0);
      if oneShot && next {
        assert k == 1 && m == 2;
      } else if DeadlinePassed(timeout, cp, k) {
        assert m == k + 1;
      } else {
        if oneShot {
          assert k == 0;
        }
        LoopAlternates(a, n, timeout, oneShot, cp, k + 1);
      }
    }
  }

  /** One-shot with nothing stopping it early: black, the even frame, the
      odd frame, black. */
  lemma OneShotTwoFrames(a: AlternatingAnim, n: nat, timeout: Timeout, cp: Checkpoints)
    requires cp.stopSeenAt >= 2
    requires !HasDeadline(timeout) || cp.expiredFrom >= 1
    ensures Start(a, n, timeout, true, cp)
      == [Fill(BLACK)] + Frame(a, n, true) + Frame(a, n, false) + [Fill(BLACK)]
  {
    LoopAlternates(a, n, timeout, true, cp, 0);
    assert PassCount(2, true, timeout, cp) == 2;
  }

  /** Alternating always ends with every LED black. */
  lemma AlternatingEndsDark(a: AlternatingAnim, n: nat, timeout: Timeout, oneShot: bool, cp: Checkpoints, s: Strip)
    requires Sized(s, n)
    ensures AllOf(Replay(s, Start(a, n, timeout, oneShot, cp)), n, BLACK)
  {
    EndsWithFill(s, n, [Fill(BLACK)] + Loop(a, n, timeout, oneShot, cp, 0, true), BLACK);
  }

  /** A frame writes only LEDs of the strip. */
  lemma FrameAddresses(a: AlternatingAnim, n: nat, evens: bool)
    ensures Addresses(Frame(a, n, evens), n)
  {
    FrameShape(a, n, evens);
  }

  lemma {:induction false} FramesAddresses(a: AlternatingAnim, n: nat, k: nat, m: nat)
    ensures Addresses(Frames(a, n, k, m), n)
    decreases m - k
  {
    if k < m {
      FrameAddresses(a, n, k % 2 == 0);
      FramesAddresses(a, n, k + 1, m);
      AddressesConcat(Frame(a, n, k % 2 == 0), Frames(a, n, k + 1, m), n);
    }
  }

  /** Every deferred write of an Alternating run addresses an LED of the
      strip. */
  lemma AlternatingAddresses(a: AlternatingAnim, n: nat, timeout: Timeout, oneShot: bool, cp: Checkpoints)
    ensures Addresses(Start(a, n, timeout, oneShot, cp), n)
  {
    var m := PassCount(2, oneShot, timeout, cp);
    LoopAlternates(a, n, timeout, oneShot, cp, 0);
    var frames := Frames(a, n, 0, m);
    FramesAddresses(a, n, 0, m);
    AddressesConcat([Fill(BLACK)], frames, n);
    AddressesConcat([Fill(BLACK)] + frames, [Fill(BLACK)], n);
  }
}
