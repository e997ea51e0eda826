# LED animations

This project models the animation engine of the abstract hardware
interface's LED package (`abstract_hardware_interface/led/animations.py`).
It covers the `start` loops of the seven patterns and the `animations`
registry that maps pattern names to classes. The seven patterns are
Breathe, Chase, Fill, Refill, Bounce, Blink and Alternating.

A run of `start` is modelled as the trace of device calls it issues. The
calls are `fill`, `set_led`, `set_led(..., False)`, `show` and the waits on
the delay event. A replay function folds a trace onto a strip of `n` LEDs.
The strip holds a buffer and what the LEDs display. Immediate writes,
`fill` and `show` flush the buffer; deferred writes only stage.

Time and the other thread are replaced by an oracle, `Lifecycle.Checkpoints`:

- The loop test before pass `k` sees the stop flag iff `k >= stopSeenAt`.
- The check `end_time and time() > end_time` after pass `k` is true iff
  `k >= expiredFrom` and the timeout is truthy.

Both conditions are monotone: the flag is only ever set during a run, and
time only grows.

Every loop is proved equal to an independent closed form. That closed form
is either a number of identical passes (`Lifecycle.PassCount`) or, for
Breathe, a triangle wave of brightness levels (`BreatheLed.Tri`,
`BreatheLed.Passes`). For Refill and Bounce the closed form holds for
composites as their constructor builds them; see "Left out". On top of these closed forms, the model proves:

- what the strip shows when `start` returns;
- that every write addresses an LED of the strip;
- what one-shot mode issues.

Files:

- `sequences.dfy`: `range`, `list.reverse` and pass repetition.
- `device.dfy`: colours, operations, the strip and the replay.
- `lifecycle.dfy`: the timeout, the checkpoints and the pass count.
- One file per pattern.
- `animations.dfy`: the common `start`/`stop` interface.
- `registry.dfy`: the name table.

Brightness in Breathe is counted in whole steps of 0.05. Full brightness
is `FullScale = 20` steps, and the fill colour is `Scaled(color, level)`.

Where the code's behaviour is easy to misread, the model follows the code:

- **Waits are never cut short.** Each animation's `_delay = Event()`
  (line 41) is never set; `stop()` only sets `stopping`. So every wait
  runs its full length, and a stop is acted on at the next loop test.
- **`stop()` is not forwarded.** Refill and Bounce do not pass `stop()` on
  to their Fill animation, and Fill's `stop` is `pass` (lines 162-163). A
  running Fill pass always completes.
- **`stop()` resets nothing itself.** The base class docstring (lines
  53-55) says `stop` resets the LEDs to black. No `stop` issues a device
  call; the looping animations turn the LEDs off when `start` returns, and
  Fill stays lit after `stop()` (`Animations.FillStopLeavesLit`).
- **Refill and Bounce can leave the strip lit.** Their docstrings (lines
  170-173 and 204-206) say the LEDs are turned off after the animation.
  Neither issues a final black fill: they rely on the black half of each
  pass. A stop seen before the first pass (raised between
  `stopping.clear()` and the loop test) therefore issues nothing, and the
  strip stays as it was. `CompositeLed.CompositeEndsDark` and
  `Animations.FinalStrip` state both cases.
- **One-shot Breathe can stop early.** The deadline check is the last
  `elif` (lines 88-93), so it is skipped only on the pass that reaches full
  brightness. `BreatheLed.DeadlinePass` says which pass acts on the
  deadline.

## Model

| member | source | states |
|---|---|---|
| Lifecycle.PassCount | abstract_hardware_interface/led/animations.py:122-130 | the number of passes is the least of the stop checkpoint, the cycle length in one-shot mode and one past the first expired deadline check, and it equals one of them |
| Lifecycle.HasDeadline | abstract_hardware_interface/led/animations.py:74 | no contract of its own: the truthiness of `timeout`, whose consequence is stated by `Lifecycle.FalsyTimeoutNeverExpires` |
| Lifecycle.FalsyTimeoutNeverExpires | abstract_hardware_interface/led/animations.py:74 | a timeout of `None` or `0` sets no deadline, so without a cycle bound only `stop()` ends the loop |
| Lifecycle.OneShotRunsOneCycle | abstract_hardware_interface/led/animations.py:127-130 | one-shot mode never runs more than one cycle, and runs the whole cycle unless a stop or deadline is seen first |
| FillLed.Order | abstract_hardware_interface/led/animations.py:155-157 | the visiting order has `n` entries, entry `j` being `j` forward and `n-1-j` reversed |
| FillLed.Writes | abstract_hardware_interface/led/animations.py:158-160 | two operations per visited LED |
| FillLed.WritesShape | abstract_hardware_interface/led/animations.py:158-160 | even positions write the LEDs in visiting order, odd positions are the 50 ms step delay |
| FillLed.Start | abstract_hardware_interface/led/animations.py:152-160 | the warning is logged iff `one_shot` is false or `timeout` is not `None`, and the run issues exactly two operations per LED |
| FillLed.StartShape | abstract_hardware_interface/led/animations.py:155-160 | a Fill run writes only LEDs of the strip and issues only immediate writes and waits |
| FillLed.FillTrace | abstract_hardware_interface/led/animations.py:155-160 | write `j` of a Fill run sets LED `j` forward, or `n-1-j` reversed, to the fill colour, followed by the 50 ms step delay |
| FillLed.WritesAddress | abstract_hardware_interface/led/animations.py:158-160 | writes over in-range LEDs address only the strip and are immediate writes or waits |
| FillLed.OrderIsPermutation | abstract_hardware_interface/led/animations.py:155-157 | the order is a permutation of `0 .. n-1`: every entry in range, no repeats, every LED present |
| FillLed.WarningLeavesTraceAlone | abstract_hardware_interface/led/animations.py:153-154 | the warning changes nothing issued; runs differ in their warning only when `one_shot` or the `None`-ness of `timeout` differ |
| FillLed.WritesPaint | abstract_hardware_interface/led/animations.py:158-160 | replaying the writes sets exactly the visited LEDs to the colour, leaves the rest, and displays the buffer |
| FillLed.FillPaints | abstract_hardware_interface/led/animations.py:152-160 | after any Fill run every LED shows the fill colour, in either direction and from any strip |
| BreatheLed.Advance | abstract_hardware_interface/led/animations.py:79-84 | the step turns down at full brightness, up at zero, is kept in between, and brightness stays within `0 .. FullScale` |
| BreatheLed.Frame | abstract_hardware_interface/led/animations.py:85-87 | a frame is one fill followed by the 50 ms delay; at a level within `0 .. FullScale` every operation is an in-bounds fill of the colour or that delay |
| BreatheLed.Loop | abstract_hardware_interface/led/animations.py:78-93 | every operation of the loop is a fill of the colour at a brightness within `0 .. FullScale`, or the step delay |
| BreatheLed.Start | abstract_hardware_interface/led/animations.py:72-94 | the run ends with a black fill and every earlier fill is within bounds |
| BreatheLed.Passes | abstract_hardware_interface/led/animations.py:78-93 | the pass count is bounded by the stop checkpoint, one period in one-shot mode and the deadline pass, and equals one of them |
| BreatheLed.AdvanceFollowsWave | abstract_hardware_interface/led/animations.py:79-84 | a loop state on the triangle wave steps to the wave's next level and direction |
| BreatheLed.TurningPoints | abstract_hardware_interface/led/animations.py:79-82 | the wave is at full brightness exactly at `FullScale` modulo the period and at zero exactly at multiples of the period |
| BreatheLed.OnePass | abstract_hardware_interface/led/animations.py:78-93 | one pass on the wave issues the wave's frame, and either stops exactly at the reference pass count or hands on a state still on the wave |
| BreatheLed.LoopFollowsWave | abstract_hardware_interface/led/animations.py:78-93 | the loop from any pass is the wave's frames up to the reference pass count |
| BreatheLed.BreatheFollowsWave | abstract_hardware_interface/led/animations.py:72-94 | a whole Breathe run is the wave's frames for `Passes` passes followed by one black fill |
| BreatheLed.OneShotSweep | abstract_hardware_interface/led/animations.py:88-91 | uninterrupted one-shot Breathe fills at levels 1 up to 20 and back down to 0, each followed by the step delay, then black |
| BreatheLed.ContinuousRunsUntilStopped | abstract_hardware_interface/led/animations.py:78-93 | without one-shot and deadline, breathing runs one frame per pass until the stop is seen |
| BreatheLed.BreatheAddresses | abstract_hardware_interface/led/animations.py:85-94 | a Breathe run issues only whole-strip fills and waits, so never writes outside the strip |
| ChaseLed.Sweep | abstract_hardware_interface/led/animations.py:123-126 | a sweep issues three operations per LED |
| ChaseLed.Pass | abstract_hardware_interface/led/animations.py:123-126 | a pass issues three operations per LED of the strip; its contents are stated by `ChaseLed.PassShape` |
| ChaseLed.Loop | abstract_hardware_interface/led/animations.py:122-130 | the loop issues nothing once the stop is seen, and otherwise begins with one whole sweep; `ChaseLed.LoopIsWholeSweeps` gives the whole loop |
| ChaseLed.SweepShape | abstract_hardware_interface/led/animations.py:123-126 | triple `j` lights LED `j` of the sweep, waits 100 ms, and puts it back to the background |
| ChaseLed.Start | abstract_hardware_interface/led/animations.py:117-131 | a chase run begins with the background fill and ends with the black fill |
| ChaseLed.LoopIsWholeSweeps | abstract_hardware_interface/led/animations.py:122-130 | the loop is exactly `PassCount` whole sweeps: no sweep is ever cut short |
| ChaseLed.OneShotTrace | abstract_hardware_interface/led/animations.py:121-131 | one-shot chase is background fill, one sweep, black fill; a stop seen first leaves only the two fills |
| ChaseLed.PassShape | abstract_hardware_interface/led/animations.py:123-126 | a pass lights LEDs `0 .. n-1` in index order, each lit, held 100 ms and put back to the background |
| ChaseLed.SweepAddresses | abstract_hardware_interface/led/animations.py:123-126 | a sweep over in-range LEDs writes only LEDs of the strip |
| ChaseLed.ChaseAddresses | abstract_hardware_interface/led/animations.py:121-131 | every write of a chase run addresses an LED of the strip |
| ChaseLed.ChaseEndsDark | abstract_hardware_interface/led/animations.py:131 | every chase run leaves all LEDs black |
| CompositeLed.New | abstract_hardware_interface/led/animations.py:177-180 | the composite keeps the requested colour, and its owned Fill starts in that same colour and the requested direction |
| CompositeLed.RefillPass | abstract_hardware_interface/led/animations.py:187-190 | after a Refill pass the owned Fill has the composite's colour back and its direction unchanged |
| CompositeLed.BouncePass | abstract_hardware_interface/led/animations.py:221-226 | after a Bounce pass the owned Fill has the composite's colour back and its direction restored by the second flip |
| CompositeLed.Pass | abstract_hardware_interface/led/animations.py:186-190 | either pass hands back the owned Fill with only its colour reset to the composite's |
| CompositeLed.Loop | abstract_hardware_interface/led/animations.py:186-194 | the loop keeps the composite's colour, issues nothing when the stop is seen first, and otherwise leaves the owned Fill restored |
| CompositeLed.Start | abstract_hardware_interface/led/animations.py:182-194 | `start` keeps the composite's colour, issues nothing when the stop is seen first, and otherwise leaves the owned Fill with its colour reset to the composite's |
| CompositeLed.InnerFillNeverWarns | abstract_hardware_interface/led/animations.py:187-189 | the owned Fill is started with its defaults, so it never logs the warning |
| CompositeLed.RefillPassTrace | abstract_hardware_interface/led/animations.py:187-190 | a Refill pass is a fill in the colour then a fill in black, in the same order |
| CompositeLed.BouncePassTrace | abstract_hardware_interface/led/animations.py:221-226 | a Bounce pass's black fill visits the LEDs in exactly the reverse of the coloured fill's order |
| CompositeLed.PassEndsDark | abstract_hardware_interface/led/animations.py:187-189 | each pass leaves every LED black, whatever the strip showed |
| CompositeLed.LoopUnfolds | abstract_hardware_interface/led/animations.py:186-194 | on a consistent composite one loop step is one pass followed by the rest of the loop on the same composite |
| CompositeLed.LoopRepeats | abstract_hardware_interface/led/animations.py:220-230 | the loop is `PassCount` copies of one pass and hands back the composite unchanged |
| CompositeLed.CompositeEndsDark | abstract_hardware_interface/led/animations.py:186-194 | for any composite, once a pass has run the strip is all black; a stop seen before the first pass issues nothing |
| CompositeLed.LoopEndsDark | abstract_hardware_interface/led/animations.py:186-194 | a loop that runs at least one pass leaves every LED black, whatever the composite's fields |
| CompositeLed.PassAddresses | abstract_hardware_interface/led/animations.py:187-189 | both Fill runs of a pass write only LEDs of the strip |
| CompositeLed.LoopAddresses | abstract_hardware_interface/led/animations.py:186-194 | every write of the loop from any pass addresses an LED of the strip |
| CompositeLed.CompositeAddresses | abstract_hardware_interface/led/animations.py:220-230 | every write of a Refill or Bounce run addresses an LED of the strip |
| BlinkLed.Blinks | abstract_hardware_interface/led/animations.py:260-264 | four operations per blink, none for a count below one |
| BlinkLed.BlinksShape | abstract_hardware_interface/led/animations.py:260-264 | every blink is colour fill, 250 ms, black fill, 500 ms |
| BlinkLed.Pass | abstract_hardware_interface/led/animations.py:260-268 | a pass is the burst, followed by one more operation (the pause) exactly when repeating outside one-shot mode |
| BlinkLed.Loop | abstract_hardware_interface/led/animations.py:259-272 | the loop issues nothing once the stop is seen, and otherwise begins with one whole pass; `BlinkLed.LoopRepeats` gives the whole loop |
| BlinkLed.Start | abstract_hardware_interface/led/animations.py:253-272 | a Blink run begins with the black fill and the 500 ms settling wait, and is nothing more when the stop is seen first |
| BlinkLed.LoopRepeats | abstract_hardware_interface/led/animations.py:259-272 | the loop is `PassCount` identical bursts, a single burst when one-shot or not repeating |
| BlinkLed.SingleBurst | abstract_hardware_interface/led/animations.py:257-270 | one-shot or non-repeating Blink is black fill, 500 ms, then exactly `num_blinks` blinks |
| BlinkLed.PauseOnlyWhenRepeating | abstract_hardware_interface/led/animations.py:265-270 | the 2 s pause is issued iff repeating outside one-shot mode |
| BlinkLed.BlinksKeepDark | abstract_hardware_interface/led/animations.py:260-264 | a burst begun on a black strip leaves it black |
| BlinkLed.RepeatKeepsDark | abstract_hardware_interface/led/animations.py:259-268 | any number of passes begun on a black strip leave it black |
| BlinkLed.BlinkEndsDark | abstract_hardware_interface/led/animations.py:257-272 | every Blink run leaves all LEDs black |
| BlinkLed.PassOnlyFills | abstract_hardware_interface/led/animations.py:260-268 | a Blink pass issues only whole-strip fills and waits |
| BlinkLed.BlinkAddresses | abstract_hardware_interface/led/animations.py:257-272 | a Blink run never writes a single LED, so never one outside the strip |
| AlternatingLed.Writes | abstract_hardware_interface/led/animations.py:296-302 | one deferred write per LED, in the colour when its parity matches the frame and black otherwise |
| AlternatingLed.Frame | abstract_hardware_interface/led/animations.py:296-304 | a frame has `n + 2` operations ending in one `show` and the 500 ms delay; `AlternatingLed.FrameShape` gives the writes before them |
| AlternatingLed.Loop | abstract_hardware_interface/led/animations.py:295-309 | the loop issues nothing once the stop is seen; the whole loop is stated by `AlternatingLed.LoopAlternates` |
| AlternatingLed.Start | abstract_hardware_interface/led/animations.py:290-310 | the run ends with a black fill |
| AlternatingLed.ParityPartition | abstract_hardware_interface/led/animations.py:297-304 | for a colour other than black, the even frame displays it on exactly the even LEDs, the odd frame on exactly the odd ones, and every LED is lit in exactly one of the two |
| AlternatingLed.FrameShape | abstract_hardware_interface/led/animations.py:296-304 | a frame is one deferred write per LED in index order, one `show`, the 500 ms delay |
| AlternatingLed.WritesStage | abstract_hardware_interface/led/animations.py:298-302 | deferred writes change the buffer at the written LEDs only and never the display |
| AlternatingLed.FrameShows | abstract_hardware_interface/led/animations.py:296-304 | after a frame the display has the colour on the frame's parity and black elsewhere |
| AlternatingLed.LoopAlternates | abstract_hardware_interface/led/animations.py:295-309 | the loop is `PassCount` frames of alternating parity starting even, at most one even/odd pair in one-shot mode |
| AlternatingLed.OneShotTwoFrames | abstract_hardware_interface/led/animations.py:305-307 | uninterrupted one-shot Alternating is black, even frame, odd frame, black |
| AlternatingLed.AlternatingEndsDark | abstract_hardware_interface/led/animations.py:310 | every Alternating run leaves all LEDs black |
| AlternatingLed.FrameAddresses | abstract_hardware_interface/led/animations.py:296-302 | each deferred write of a frame addresses an LED of the strip |
| AlternatingLed.AlternatingAddresses | abstract_hardware_interface/led/animations.py:290-310 | every deferred write of an Alternating run addresses an LED of the strip |
| Animations.Start | abstract_hardware_interface/led/animations.py:44-49 | only Fill can warn; Fill keeps its object untouched; every other pattern returns with its flag set; a constructed object's parameters are never changed |
| Animations.Stop | abstract_hardware_interface/led/animations.py:162-163 | Fill's `stop` does nothing; every other pattern's sets its flag |
| Animations.RestartIsFresh | abstract_hardware_interface/led/animations.py:72-73 | the flag's value before `start` changes neither the trace nor the returned parameters |
| Animations.StopBeforeStartIsForgotten | abstract_hardware_interface/led/animations.py:117-118 | a `stop()` before `start` has no effect on that run |
| Animations.OnlyFillWarns | abstract_hardware_interface/led/animations.py:152-154 | a run warns iff it is Fill with `one_shot` false or a timeout that is not `None` |
| Animations.FinalStrip | abstract_hardware_interface/led/animations.py:137-160 | for any object, Fill leaves its colour on every LED; Refill and Bounce stopped before their first pass leave the strip as it was; every other run ends all black |
| Animations.StartAddresses | abstract_hardware_interface/led/animations.py:44-49 | every per-LED write of every pattern's run addresses an LED of the strip |
| Animations.FillStopLeavesLit | abstract_hardware_interface/led/animations.py:53-55 | after a Fill run, `stop()` leaves a lit strip lit: nothing resets it to black |
| Registry.Construct | abstract_hardware_interface/led/animations.py:316-324 | a name called with a colour only builds its kind in that colour, with the keyword defaults: black background, forward, two blinks without repeat |
| Registry.ConstructWith | abstract_hardware_interface/led/animations.py:316-324 | a name called with full arguments builds its kind with exactly those parameters, the colour included for every kind, composites consistent |
| Registry.TableIsExactlyTheNames | abstract_hardware_interface/led/animations.py:316-324 | the table has exactly the seven names, each mapping to its own kind and back |
| Registry.Table | abstract_hardware_interface/led/animations.py:316-324 | no contract of its own: the seven names, stated by `Registry.TableIsExactlyTheNames` |

## Left out

- Threads and time. The thread calling `stop()` and the clock are replaced
  by the `Checkpoints` oracle. A stop raised in the middle of a pass is
  seen at the next loop test.
- The `_delay` event. It is never set, so each wait is modelled as a plain
  `Wait(ms)` of its full length.
- Continuous runs that nothing ever stops. Such a run is infinite. Every
  run in the model has a stop checkpoint, and runs with a later checkpoint
  are longer.
- Concurrent calls of `start` on one object are not modelled.
- CompositeLed.LoopRepeats: the closed form of `PassCount` identical passes
  needs a composite whose Fill animation carries its own colour, as the
  constructor sets it up. If a caller changed one of the two colours, the
  first pass differs from the later ones, and no closed form is stated.
  The loop still ends black (`CompositeLed.LoopEndsDark`) and still writes
  only LEDs of the strip (`CompositeLed.LoopAddresses`).
- BreatheLed.Loop: brightness is whole steps of 0.05, not Python floats.
  In IEEE-754 doubles the brightness turns down at passes 20, 60, 100, ...
  and up at passes 40, 80, ..., exactly where the integer model turns, and
  from pass 39 on the sequence repeats exactly every 40 passes. What the
  model leaves out is only the rounding: the float peak is
  1.0000000000000002 and the trough about -9.7e-17, where the model has
  exactly 20 and 0 steps.
- Colour values. `as_rgb_tuple` and the multiplication of the channels by
  the brightness are kept symbolic as `Scaled(color, level)`.
- `LOG.warning` is modelled as the `warned` result.
- Device errors. The device driver is not part of this model. A write to
  an index outside the strip is modelled as changing no LED; an immediate
  one still displays the buffer, as every immediate write does. No
  pattern's trace issues one (`Animations.StartAddresses`).
- `LedAnimation.__init__` and the storing of the `leds` handle are not
  modelled. The number of LEDs is a parameter of each run.
