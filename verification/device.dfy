/** The LED strip as the animations see it: a colour per LED, the device
    operations the animations issue, and a replay of a trace of those
    operations onto the strip. */
module Device {
  import opened Sequences

  /** A colour handed to the strip. `BLACK` is the off colour every
      non-persistent animation ends with; `Named` stands for any palette colour
      (its RGB tuple is not modelled); `Scaled(base, units)` is `base` with
      every channel multiplied by `units` brightness steps. */
  datatype Color =
    | BLACK
    | Named(id: nat)
    | Scaled(base: Color, units: int)

  /** One device call, or one wait of `ms` milliseconds on the delay event. */
  datatype Op =
    | Fill(color: Color)                         // leds.fill(rgb)
    | SetLed(index: int, color: Color)           // leds.set_led(i, rgb)
    | SetLedDeferred(index: int, color: Color)   // leds.set_led(i, rgb, False)
    | Show                                       // leds.show()
    | Wait(ms: nat)                              // _delay.wait(seconds)

  /** `staged` is the device's pixel buffer, `shown` what the LEDs display. */
  datatype Strip = Strip(staged: seq<Color>, shown: seq<Color>)

  function Solid(n: nat, c: Color): (s: seq<Color>)
    ensures |s| == n
    ensures forall i :: 0 <= i < n ==> s[i] == c
  {
    seq(n, _ => c)
  }

  /** A strip of `n` LEDs whose buffer and display both hold `c` everywhere. */
  predicate AllOf(s: Strip, n: nat, c: Color) {
    s.staged == Solid(n, c) && s.shown == Solid(n, c)
  }

  predicate Sized(s: Strip, n: nat) {
    |s.staged| == n && |s.shown| == n
  }

  predicate InRange(i: int, n: nat) {
    0 <= i < n
  }

  /** Every per-LED write of `t` addresses an existing LED. */
  predicate Addresses(t: seq<Op>, n: nat) {
    forall j :: 0 <= j < |t| ==>
      (t[j].SetLed? || t[j].SetLedDeferred?) ==> InRange(t[j].index, n)
  }

  lemma AddressesConcat(a: seq<Op>, b: seq<Op>, n: nat)
    requires Addresses(a, n) && Addresses(b, n)
    ensures Addresses(a + b, n)
  {
  }

  /** Repeating passes that address the strip still addresses the strip. */
  lemma {:induction false} RepeatAddresses(pass: seq<Op>, m: nat, n: nat)
    requires Addresses(pass, n)
    ensures Addresses(Repeat(pass, m), n)
  {
    if m > 0 {
      RepeatAddresses(pass, m - 1, n);
      AddressesConcat(pass, Repeat(pass, m - 1), n);
    }
  }

  /** The effect of one operation. A write outside the strip would be a
      device error; it changes no LED here and is never issued. An immediate
      one still displays the buffer, as every immediate write does. */
  function Apply(s: Strip, op: Op): (r: Strip)
    ensures |r.staged| == |s.staged|
    ensures op.Fill? || op.SetLed? || op.Show? ==> r.shown == r.staged
    ensures op.SetLedDeferred? || op.Wait? ==> r.shown == s.shown
    ensures op.Wait? ==> r == s
    ensures (op.SetLed? || op.SetLedDeferred?) && !(0 <= op.index < |s.staged|) ==> r.staged == s.staged
  {
    match op
    case Fill(c) =>
      var all := Solid(|s.staged|, c);
      Strip(all, all)
    case SetLed(i, c) =>
      if 0 <= i < |s.staged| then
        var staged := s.staged[i := c];
        Strip(staged, staged)
      else Strip(s.staged, s.staged)
    case SetLedDeferred(i, c) =>
      if 0 <= i < |s.staged| then Strip(s.staged[i := c], s.shown) else s
    case Show => Strip(s.staged, s.staged)
    case Wait(_) => s
  }

  /** Runs a trace from left to right. */
  function Replay(s: Strip, t: seq<Op>): (r: Strip)
    requires Sized(s, |s.staged|)
    ensures Sized(r, |s.staged|)
    decreases |t|
  {
    if t == [] then s else Replay(Apply(s, t[0]), t[1..])
  }

  lemma {:induction false} ReplayAppend(s: Strip, a: seq<Op>, b: seq<Op>)
    requires Sized(s, |s.staged|)
    ensures Replay(s, a + b) == Replay(Replay(s, a), b)
    decreases |a|
  {
    if a != [] {
      assert (a + b)[1..] == a[1..] + b;
      ReplayAppend(Apply(s, a[0]), a[1..], b);
    } else {
      assert a + b == b;
    }
  }

  /** Whatever came before, a trace that ends with `fill(c)` leaves every LED
      showing `c`. */
  lemma {:induction false} EndsWithFill(s: Strip, n: nat, t: seq<Op>, c: Color)
    requires Sized(s, n)
    ensures AllOf(Replay(s, t + [Fill(c)]), n, c)
  {
    ReplayAppend(s, t, [Fill(c)]);
    var mid := Replay(s, t);
    assert Replay(mid, [Fill(c)]) == Replay(Apply(mid, Fill(c)), []);
  }

  /** Waiting changes nothing. */
  lemma {:induction false} WaitsAreInvisible(s: Strip, t: seq<Op>)
    requires Sized(s, |s.staged|)
    requires forall j :: 0 <= j < |t| ==> t[j].Wait?
    ensures Replay(s, t) == s
    decreases |t|
  {
    if t != [] {
      WaitsAreInvisible(Apply(s, t[0]), t[1..]);
    }
  }
}
