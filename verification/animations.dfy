/** The seven animations behind one `start`/`stop` interface, and the facts
    that hold for all of them: a restart is a fresh run, and every animation
    but Fill leaves the strip dark. */
module Animations {
  import opened Device
  import opened Lifecycle
  import FillLed
  import BreatheLed
  import ChaseLed
  import CompositeLed
  import BlinkLed
  import AlternatingLed

  datatype Animation =
    | Breathing(breathe: BreatheLed.BreatheAnim)
    | Chasing(chase: ChaseLed.ChaseAnim)
    | Filling(fill: FillLed.FillAnim)
    | Refilling(refill: CompositeLed.Composite)
    | Bouncing(bounce: CompositeLed.Composite)
    | Blinking(blink: BlinkLed.BlinkAnim)
    | Alternating(alternate: AlternatingLed.AlternatingAnim)

  /** The fields a constructor sets up and `start` must keep: a composite's
      Fill animation carries the composite's colour. */
  predicate Constructed(a: Animation) {
    match a
    case Refilling(c) => CompositeLed.Consistent(c)
    case Bouncing(c) => CompositeLed.Consistent(c)
    case _ => true
  }

  /** An animation object: its parameters and its `stopping` event. Fill has
      no such event; its flag is carried along untouched. */
  datatype Instance = Instance(anim: Animation, stopping: bool)

  /** What `start` issued, the object as it returns, and whether it logged
      a warning. */
  datatype Outcome = Outcome(trace: seq<Op>, after: Instance, warned: bool)

  /** `start(timeout, one_shot)` on a strip of `n` LEDs. Every looping
      animation clears its flag on entry, so the run does not depend on it,
      and returns only once the flag is set. */
  function Start(inst: Instance, n: nat, timeout: Timeout, oneShot: bool, cp: Checkpoints): (o: Outcome)
    ensures o.warned ==> inst.anim.Filling?
    ensures inst.anim.Filling? ==> o.after == inst
    ensures !inst.anim.Filling? ==> o.after.stopping
    ensures Constructed(inst.anim) ==> o.after.anim == inst.anim
  {
    match inst.anim
    case Breathing(b) =>
      Outcome(BreatheLed.Start(b, timeout, oneShot, cp), inst.(stopping := true), false)
    case Chasing(c) =>
      Outcome(ChaseLed.Start(c, n, timeout, oneShot, cp), inst.(stopping := true), false)
    case Filling(f) =>
      var r := FillLed.Start(f, n, timeout, oneShot);
      Outcome(r.trace, inst, r.warned)
    case Refilling(c) =>
      var r := CompositeLed.Start(CompositeLed.Refill, c, n, timeout, oneShot, cp);
      Outcome(r.trace, Instance(Refilling(r.anim), true), false)
    case Bouncing(c) =>
      var r := CompositeLed.Start(CompositeLed.Bounce, c, n, timeout, oneShot, cp);
      Outcome(r.trace, Instance(Bouncing(r.anim), true), false)
    case Blinking(b) =>
      Outcome(BlinkLed.Start(b, timeout, oneShot, cp), inst.(stopping := true), false)
    case Alternating(a) =>
      Outcome(AlternatingLed.Start(a, n, timeout, oneShot, cp), inst.(stopping := true), false)
  }

  /** `stop()`: sets the flag; Fill's `stop` does nothing. */
  function Stop(inst: Instance): (r: Instance)
    ensures r.anim == inst.anim
    ensures inst.anim.Filling? ==> r == inst
    ensures !inst.anim.Filling? ==> r.stopping
  {
    if inst.anim.Filling? then inst else inst.(stopping := true)
  }

  /** A restart is a fresh run: whatever the flag held, `start` issues the
      same operations and leaves the same object. */
  lemma RestartIsFresh(inst: Instance, flag: bool, n: nat, timeout: Timeout, oneShot: bool, cp: Checkpoints)
    ensures Start(inst.(stopping := flag), n, timeout, oneShot, cp).trace == Start(inst, n, timeout, oneShot, cp).trace
    ensures Start(inst.(stopping := flag), n, timeout, oneShot, cp).after.anim == Start(inst, n, timeout, oneShot, cp).after.anim
  {
  }

  /** A `stop()` that comes before `start` has no effect on that run. */
  lemma StopBeforeStartIsForgotten(inst: Instance, n: nat, timeout: Timeout, oneShot: bool, cp: Checkpoints)
    ensures Start(Stop(inst), n, timeout, oneShot, cp) == Start(inst, n, timeout, oneShot, cp)
  {
  }

  /** Only Fill warns, and only for `one_shot=False` or a timeout that is not
      `None`. */
  lemma OnlyFillWarns(inst: Instance, n: nat, timeout: Timeout, oneShot: bool, cp: Checkpoints)
    ensures Start(inst, n, timeout, oneShot, cp).warned <==> inst.anim.Filling? && (!oneShot || timeout.After?)
  {
  }

  /** What the strip shows once `start` returns. Fill persists in its colour.
      Refill and Bounce that were stopped before their first pass leave the
      strip as it was. Every other run ends with every LED black. */
  lemma FinalStrip(inst: Instance, n: nat, timeout: Timeout, oneShot: bool, cp: Checkpoints, s: Strip)
    requires Sized(s, n)
    ensures inst.anim.Filling? ==>
      AllOf(Replay(s, Start(inst, n, timeout, oneShot, cp).trace), n, inst.anim.fill.fillColor)
    ensures (inst.anim.Refilling? || inst.anim.Bouncing?) && cp.stopSeenAt == 0 ==>
      Replay(s, Start(inst, n, timeout, oneShot, cp).trace) == s
    ensures !inst.anim.Filling? && !((inst.anim.Refilling? || inst.anim.Bouncing?) && cp.stopSeenAt == 0) ==>
      AllOf(Replay(s, Start(inst, n, timeout, oneShot, cp).trace), n, BLACK)
  {
    match inst.anim
    case Breathing(b) =>
      EndsWithFill(s, n, BreatheLed.Loop(b, timeout, oneShot, cp, 0, BreatheLed.Phase(0, 1, false)), BLACK);
    case Chasing(c) => ChaseLed.ChaseEndsDark(c, n, timeout, oneShot, cp, s);
    case Filling(f) => FillLed.FillPaints(f, n, timeout, oneShot, s);
    case Refilling(c) => CompositeLed.CompositeEndsDark(CompositeLed.Refill, c, n, timeout, oneShot, cp, s);
    case Bouncing(c) => CompositeLed.CompositeEndsDark(CompositeLed.Bounce, c, n, timeout, oneShot, cp, s);
    case Blinking(b) => BlinkLed.BlinkEndsDark(b, n, timeout, oneShot, cp, s);
    case Alternating(a) => AlternatingLed.AlternatingEndsDark(a, n, timeout, oneShot, cp, s);
  }

  /** Every per-LED write of every pattern's run addresses an LED of the
      strip, so a device never sees an index outside `0 .. n-1`. */
  lemma StartAddresses(inst: Instance, n: nat, timeout: Timeout, oneShot: bool, cp: Checkpoints)
    ensures Addresses(Start(inst, n, timeout, oneShot, cp).trace, n)
  {
    match inst.anim
    case Breathing(b) => BreatheLed.BreatheAddresses(b, n, timeout, oneShot, cp);
    case Chasing(c) => ChaseLed.ChaseAddresses(c, n, timeout, oneShot, cp);
    case Filling(f) => FillLed.StartShape(f, n, timeout, oneShot);
    case Refilling(c) => CompositeLed.CompositeAddresses(CompositeLed.Refill, c, n, timeout, oneShot, cp);
    case Bouncing(c) => CompositeLed.CompositeAddresses(CompositeLed.Bounce, c, n, timeout, oneShot, cp);
    case Blinking(b) => BlinkLed.BlinkAddresses(b, n, timeout, oneShot, cp);
    case Alternating(a) => AlternatingLed.AlternatingAddresses(a, n, timeout, oneShot, cp);
  }

  /** `stop()` issues no device call of its own, and Fill's does nothing at
      all: after a Fill run, stopping it leaves the strip lit in the fill
      colour rather than resetting it to black. */
  lemma FillStopLeavesLit(f: FillLed.FillAnim, flag: bool, n: nat, timeout: Timeout, oneShot: bool, cp: Checkpoints, s: Strip)
    requires Sized(s, n)
    requires n >= 1 && f.fillColor != BLACK
    ensures Stop(Instance(Filling(f), flag)) == Instance(Filling(f), flag)
    ensures !AllOf(Replay(s, Start(Instance(Filling(f), flag), n, timeout, oneShot, cp).trace), n, BLACK)
  {
    var r := Replay(s, Start(Instance(Filling(f), flag), n, timeout, oneShot, cp).trace);
    FillLed.FillPaints(f, n, timeout, oneShot, s);
    assert r.shown[0] == f.fillColor;
    assert Solid(n, BLACK)[0] == BLACK;
  }
}
