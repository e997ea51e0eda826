/** The `animations` table: pattern names to constructors. A constructor is
    modelled by the animation it builds from its arguments after the strip,
    with the keyword defaults when only a colour is given. */
module Registry {
  import Device
  import Animations
  import FillLed
  import BreatheLed
  import ChaseLed
  import CompositeLed
  import BlinkLed
  import AlternatingLed

  datatype Kind = Breathe | Chase | Fill | Refill | Bounce | Blink | Alternating

  const Table: map<string, Kind> := map[
    "breathe" := Breathe,
    "chase" := Chase,
    "fill" := Fill,
    "refill" := Refill,
    "bounce" := Bounce,
    "blink" := Blink,
    "alternating" := Alternating
  ]

  /** The name a kind is registered under. */
  function Name(k: Kind): string {
    match k
    case Breathe => "breathe"
    case Chase => "chase"
    case Fill => "fill"
    case Refill => "refill"
    case Bounce => "bounce"
    case Blink => "blink"
    case Alternating => "alternating"
  }

  function KindOf(a: Animations.Animation): Kind {
    match a
    case Breathing(_) => Breathe
    case Chasing(_) => Chase
    case Filling(_) => Fill
    case Refilling(_) => Refill
    case Bouncing(_) => Bounce
    case Blinking(_) => Blink
    case Alternating(_) => Alternating
  }

  /** The arguments a registered constructor may be called with after the
      strip: the colour, Chase's background, the direction of Fill, Refill
      and Bounce, and Blink's count and repeat flag. A constructor ignores
      the arguments it does not take. */
  datatype Args = Args(color: Device.Color, background: Device.Color, reverse: bool, numBlinks: int, repeat: bool)

  /** The keyword defaults of the constructors. */
  function Defaults(c: Device.Color): Args {
    Args(c, Device.BLACK, false, 2, false)
  }

  /** Calling the registered constructor of kind `k`. */
  function ConstructWith(k: Kind, args: Args): (a: Animations.Animation)
    ensures KindOf(a) == k
    ensures Animations.Constructed(a)
    ensures a.Breathing? ==> a.breathe == BreatheLed.BreatheAnim(args.color)
    ensures a.Chasing? ==> a.chase == ChaseLed.ChaseAnim(args.color, args.background)
    ensures a.Filling? ==> a.fill == FillLed.FillAnim(args.color, args.reverse)
    ensures a.Refilling? ==> a.refill.fillColor == args.color && a.refill.fill.reverse == args.reverse
    ensures a.Bouncing? ==> a.bounce.fillColor == args.color && a.bounce.fill.reverse == args.reverse
    ensures a.Blinking? ==> a.blink == BlinkLed.BlinkAnim(args.color, args.numBlinks, args.repeat)
    ensures a.Alternating? ==> a.alternate == AlternatingLed.AlternatingAnim(args.color)
  {
    match k
    case Breathe => Animations.Breathing(BreatheLed.BreatheAnim(args.color))
    case Chase => Animations.Chasing(ChaseLed.ChaseAnim(args.color, args.background))
    case Fill => Animations.Filling(FillLed.FillAnim(args.color, args.reverse))
    case Refill => Animations.Refilling(CompositeLed.New(args.color, args.reverse))
    case Bounce => Animations.Bouncing(CompositeLed.New(args.color, args.reverse))
    case Blink => Animations.Blinking(BlinkLed.BlinkAnim(args.color, args.numBlinks, args.repeat))
    case Alternating => Animations.Alternating(AlternatingLed.AlternatingAnim(args.color))
  }

  /** Calling the registered constructor with a colour only: background
      black for Chase, forward direction for Fill, Refill and Bounce, two
      blinks without repeat for Blink. */
  function Construct(k: Kind, c: Device.Color): (a: Animations.Animation)
    ensures KindOf(a) == k
    ensures Animations.Constructed(a)
    ensures a.Breathing? ==> a.breathe.color == c
    ensures a.Chasing? ==> a.chase.foreground == c && a.chase.background == Device.BLACK
    ensures a.Filling? ==> a.fill.fillColor == c && !a.fill.reverse
    ensures a.Refilling? ==> a.refill.fillColor == c && a.refill.fill.fillColor == c && !a.refill.fill.reverse
    ensures a.Bouncing? ==> a.bounce.fillColor == c && a.bounce.fill.fillColor == c && !a.bounce.fill.reverse
    ensures a.Blinking? ==> a.blink.color == c && a.blink.numBlinks == 2 && !a.blink.repeat
    ensures a.Alternating? ==> a.alternate.color == c
  {
    ConstructWith(k, Defaults(c))
  }

  /** The table holds exactly the seven names, each naming a different
      kind, and every kind is reachable by its name. */
  lemma TableIsExactlyTheNames()
    ensures Table.Keys == {"breathe", "chase", "fill", "refill", "bounce", "blink", "alternating"}
    ensures forall k: Kind :: Name(k) in Table && Table[Name(k)] == k
    ensures forall name :: name in Table ==> Name(Table[name]) == name
  {
  }
}
