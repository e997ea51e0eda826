/** RefillLedAnimation and BounceLedAnimation: each owns one Fill animation
    and runs it twice per pass, first in its own colour and then in black,
    reassigning the Fill animation's fields in between. Refill keeps the
    direction; Bounce turns it around for the black half and back after. */
module CompositeLed {
  import opened Sequences
  import opened Device
  import opened Lifecycle
  import opened FillLed

  datatype Style = Refill | Bounce

  /** `self.fill_color` and the owned `self.fill_animation`. */
  datatype Composite = Composite(fillColor: Color, fill: FillAnim)

  /** The constructor: the owned Fill animation starts in the composite's
      colour and the requested direction. */
  function New(c: Color, reverse: bool): (a: Composite)
    ensures a.fillColor == c
    ensures Consistent(a) && a.fill.reverse == reverse
  {
    Composite(c, FillAnim(c, reverse))
  }

  /** The relation the constructor sets up between the two colours. */
  predicate Consistent(a: Composite) {
    a.fill.fillColor == a.fillColor
  }

  /** The calls `self.fill_animation.start()` make, with its defaults. */
  function RunFill(f: FillAnim, n: nat): seq<Op> {
    FillLed.Start(f, n, NoTimeout, true).trace
  }

  /** What one pass issues, and the owned Fill animation afterwards. */
  datatype PassResult = PassResult(trace: seq<Op>, fill: FillAnim)

  /** Refill's pass: fill, set the colour to black, fill again, put the
      colour back. */
  function RefillPass(a: Composite, n: nat): (r: PassResult)
    ensures r.fill.fillColor == a.fillColor && r.fill.reverse == a.fill.reverse
  {
    var first := RunFill(a.fill, n);
    var off := a.fill.(fillColor := BLACK);
    var second := RunFill(off, n);
    PassResult(first + second, off.(fillColor := a.fillColor))
  }

  /** Bounce's pass: fill, flip the direction and set black, fill again,
      flip the direction back and put the colour back. */
  function BouncePass(a: Composite, n: nat): (r: PassResult)
    ensures r.fill.fillColor == a.fillColor && r.fill.reverse == a.fill.reverse
  {
    var first := RunFill(a.fill, n);
    var back := a.fill.(reverse := !a.fill.reverse).(fillColor := BLACK);
    var second := RunFill(back, n);
    PassResult(first + second, back.(reverse := !back.reverse).(fillColor := a.fillColor))
  }

  function Pass(style: Style, a: Composite, n: nat): (r: PassResult)
    ensures r.fill == a.fill.(fillColor := a.fillColor)
  {
    match style
    case Refill => RefillPass(a, n)
    case Bounce => BouncePass(a, n)
  }

  /** What `start` issues, and the composite as `start` leaves it. */
  datatype Outcome = Outcome(trace: seq<Op>, anim: Composite)

  /** The `while` loop from pass `k` on; the flag test comes before each
      pass, `one_shot` or an expired deadline raises the flag after it. */
  function Loop(style: Style, a: Composite, n: nat, timeout: Timeout, oneShot: bool, cp: Checkpoints, k: nat): (r: Outcome)
    ensures r.anim.fillColor == a.fillColor
    ensures k >= cp.stopSeenAt ==> r == Outcome([], a)
    ensures k < cp.stopSeenAt ==> r.anim.fill == a.fill.(fillColor := a.fillColor)
    decreases cp.stopSeenAt - k
  {
    if k >= cp.stopSeenAt then Outcome([], a)
    else
      var p := Pass(style, a, n);
      var next := a.(fill := p.fill);
      if oneShot || DeadlinePassed(timeout, cp, k) then Outcome(p.trace, next)
      else
        var rest := Loop(style, next, n, timeout, oneShot, cp, k + 1);
        Outcome(p.trace + rest.trace, rest.anim)
  }

  function Start(style: Style, a: Composite, n: nat, timeout: Timeout, oneShot: bool, cp: Checkpoints): (r: Outcome)
    ensures r.anim.fillColor == a.fillColor
    ensures cp.stopSeenAt == 0 ==> r == Outcome([], a)
    ensures cp.stopSeenAt > 0 ==> r.anim.fill == a.fill.(fillColor := a.fillColor)
  {
    Loop(style, a, n, timeout, oneShot, cp, 0)
  }

  /** The owned Fill animation is always started with its defaults, so it
      never logs the unsupported-mode warning. */
  lemma InnerFillNeverWarns(f: FillAnim, n: nat)
    ensures !FillLed.Start(f, n, NoTimeout, true).warned
  {
  }

  /** A Refill pass is a fill in the colour and a fill in black in the same
      direction. */
  lemma RefillPassTrace(a: Composite, n: nat)
    ensures RefillPass(a, n).trace
      == Writes(Order(n, a.fill.reverse), a.fill.fillColor) + Writes(Order(n, a.fill.reverse), BLACK)
  {
  }

  /** A Bounce pass fills in the colour one way, then in black the other way:
      the black half visits the LEDs in exactly the reverse order. */
  lemma BouncePassTrace(a: Composite, n: nat)
    ensures BouncePass(a, n).trace
      == Writes(Order(n, a.fill.reverse), a.fill.fillColor) + Writes(Reversed(Order(n, a.fill.reverse)), BLACK)
  {
    var d := Order(n, a.fill.reverse);
    var e := Order(n, !a.fill.reverse);
    assert e == Reversed(d);
  }

  /** Either pass leaves every LED black, whatever the strip showed before. */
  lemma PassEndsDark(style: Style, a: Composite, n: nat, s: Strip)
    requires Sized(s, n)
    ensures AllOf(Replay(s, Pass(style, a, n).trace), n, BLACK)
  {
    var first := RunFill(a.fill, n);
    var off := match style
      case Refill => a.fill.(fillColor := BLACK)
      case Bounce => a.fill.(reverse := !a.fill.reverse).(fillColor := BLACK);
    assert Pass(style, a, n).trace == first + RunFill(off, n);
    ReplayAppend(s, first, RunFill(off, n));
    FillPaints(off, n, NoTimeout, true, Replay(s, first));
  }

  /** One pass of the loop on a composite as the constructor builds it. */
  lemma LoopUnfolds(style: Style, a: Composite, n: nat, timeout: Timeout, oneShot: bool, cp: Checkpoints, k: nat)
    requires Consistent(a)
    requires k < cp.stopSeenAt
    ensures oneShot || DeadlinePassed(timeout, cp, k) ==>
      Loop(style, a, n, timeout, oneShot, cp, k) == Outcome(Pass(style, a, n).trace, a)
    ensures !(oneShot || DeadlinePassed(timeout, cp, k)) ==>
      Loop(style, a, n, timeout, oneShot, cp, k)
        == Outcome(Pass(style, a, n).trace + Loop(style, a, n, timeout, oneShot, cp, k + 1).trace,
                   Loop(style, a, n, timeout, oneShot, cp, k + 1).anim)
  {
  }

  /** On a composite as the constructor builds it, every pass is the same
      and hands back the composite unchanged: the loop is `PassCount` copies
      of one pass, and `start` leaves the Fill animation's colour and
      direction as they were. */
  lemma {:induction false} LoopRepeats(style: Style, a: Composite, n: nat, timeout: Timeout, oneShot: bool, cp: Checkpoints, k: nat)
    requires Consistent(a)
    requires k < PassCount(1, oneShot, timeout, cp) || k == PassCount(1, oneShot, timeout, cp) == cp.stopSeenAt
    ensures Loop(style, a, n, timeout, oneShot, cp, k).trace
      == Repeat(Pass(style, a, n).trace, PassCount(1, oneShot, timeout, cp) - k)
    ensures Loop(style, a, n, timeout, oneShot, cp, k).anim == a
    decreases cp.stopSeenAt - k
  {
    var m := PassCount(1, oneShot, timeout, cp);
    if k < m {
      var p := Pass(style, a, n).trace;
      LoopUnfolds(style, a, n, timeout, oneShot, cp, k);
      if !oneShot && !DeadlinePassed(timeout, cp, k) {
        LoopRepeats(style, a, n, timeout, oneShot, cp, k + 1);
        assert Repeat(p, m - k) == p + Repeat(p, m - (k + 1));
      } else {
        assert m == k + 1;
        assert Repeat(p, 1) == p + [];
      }
    }
  }

  /** A loop that runs at least one pass leaves every LED black: every pass
      ends with a fill in black. This holds for any composite, whatever a
      caller did to its fields. */
  lemma {:induction false} LoopEndsDark(style: Style, a: Composite, n: nat, timeout: Timeout, oneShot: bool, cp: Checkpoints, k: nat, s: Strip)
    requires Sized(s, n)
    requires k < cp.stopSeenAt
    ensures AllOf(Replay(s, Loop(style, a, n, timeout, oneShot, cp, k).trace), n, BLACK)
    decreases cp.stopSeenAt - k
  {
    var p := Pass(style, a, n);
    PassEndsDark(style, a, n, s);
    if !(oneShot || DeadlinePassed(timeout, cp, k)) {
      var next := a.(fill := p.fill);
      var rest := Loop(style, next, n, timeout, oneShot, cp, k + 1);
      var mid := Replay(s, p.trace);
      assert Loop(style, a, n, timeout, oneShot, cp, k).trace == p.trace + rest.trace;
      ReplayAppend(s, p.trace, rest.trace);
      if k + 1 < cp.stopSeenAt {
        LoopEndsDark(style, next, n, timeout, oneShot, cp, k + 1, mid);
      } else {
        assert rest.trace == [];
      }
    }
  }

  /** Refill and Bounce leave every LED black once a pass has run; a stop
      seen before the first pass issues nothing, leaving the strip as it
      was. */
  lemma CompositeEndsDark(style: Style, a: Composite, n: nat, timeout: Timeout, oneShot: bool, cp: Checkpoints, s: Strip)
    requires Sized(s, n)
    ensures cp.stopSeenAt >= 1 ==> AllOf(Replay(s, Start(style, a, n, timeout, oneShot, cp).trace), n, BLACK)
    ensures cp.stopSeenAt == 0 ==> Start(style, a, n, timeout, oneShot, cp).trace == []
  {
    if cp.stopSeenAt >= 1 {
      LoopEndsDark(style, a, n, timeout, oneShot, cp, 0, s);
    }
  }

  /** Both halves of a pass write only LEDs of the strip. */
  lemma PassAddresses(style: Style, a: Composite, n: nat)
    ensures Addresses(Pass(style, a, n).trace, n)
  {
    var off := match style
      case Refill => a.fill.(fillColor := BLACK)
      case Bounce => a.fill.(reverse := !a.fill.reverse).(fillColor := BLACK);
    assert Pass(style, a, n).trace == RunFill(a.fill, n) + RunFill(off, n);
    StartShape(a.fill, n, NoTimeout, true);
    StartShape(off, n, NoTimeout, true);
    AddressesConcat(RunFill(a.fill, n), RunFill(off, n), n);
  }

  /** Every write of the loop addresses an LED of the strip. */
  lemma {:induction false} LoopAddresses(style: Style, a: Composite, n: nat, timeout: Timeout, oneShot: bool, cp: Checkpoints, k: nat)
    ensures Addresses(Loop(style, a, n, timeout, oneShot, cp, k).trace, n)
    decreases cp.stopSeenAt - k
  {
    if k < cp.stopSeenAt {
      var p := Pass(style, a, n);
      PassAddresses(style, a, n);
      if !(oneShot || DeadlinePassed(timeout, cp, k)) {
        var next := a.(fill := p.fill);
        var rest := Loop(style, next, n, timeout, oneShot, cp, k + 1);
        LoopAddresses(style, next, n, timeout, oneShot, cp, k + 1);
        AddressesConcat(p.trace, rest.trace, n);
      }
    }
  }

  /** Every write of a Refill or Bounce run addresses an LED of the strip. */
  lemma CompositeAddresses(style: Style, a: Composite, n: nat, timeout: Timeout, oneShot: bool, cp: Checkpoints)
    ensures Addresses(Start(style, a, n, timeout, oneShot, cp).trace, n)
  {
    LoopAddresses(style, a, n, timeout, oneShot, cp, 0);
  }
}
