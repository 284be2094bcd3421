/**
  The 56 animation modes (`WS2812FX_mode_*`). Most are a call of one effect
  helper with particular colours; the rest step their own counters (breath,
  fade, rainbow, rainbow cycle, running lights, multi strobe, larson
  scanner, comet, twinkleFOX) or draw their own random colours (the dynamic
  modes, hyper sparkle, fireworks, rain). As for the helpers, each mode is
  a function on the abstract record and a method on the strip whose contract
  ties the new record to that function; the lemmas state the counter ranges,
  the cycle flags and what a frame leaves on the strip.

  `WS2812FX_fast_sine8` is floating-point code and is a parameter `sine8`.
 */
module Modes {
  import opened Ints
  import opened Color
  import opened Pixels
  import opened Entropy
  import opened FxState
  import opened Effects

  // ------------------------------------------------------------ common terms

  /** `aux_param = WS2812FX_get_random_wheel_index(aux_param)` */
  ghost function Rehued(f: Fx, hw: nat -> u32): (r: Fx)
    requires WellFormed(f) && Fair(hw)
    ensures WellFormed(r)
  {
    var k := FirstAccepted(hw, WheelFar(f.aux), f.drawn);
    f.(aux := Random8(hw(k)), drawn := k + 1)
  }

  /** The new hue is at least 42 wheel steps from the old one, and nothing but the hue and the draws change. */
  lemma RehuedMovesHue(f: Fx, hw: nat -> u32)
    requires WellFormed(f) && Fair(hw)
    ensures WheelDistance(f.aux, Rehued(f, hw).aux) >= 42
    ensures Rehued(f, hw).drawn > f.drawn
    ensures Rehued(f, hw) == f.(aux := Rehued(f, hw).aux, drawn := Rehued(f, hw).drawn)
  {
  }

  method NewHue(s: Strip, rng: HwRng)
    requires s.Valid() && rng.Valid()
    modifies s`auxParam, rng
    ensures s.Abs(rng) == Rehued(old(s.Abs(rng)), rng.hw)
  {
    var r := RandWheel(s, rng, s.auxParam);
    SetAux(s, rng, r);
  }

  /** The end of a frame that always completes a cycle: `SET_CYCLE; set_next_time(delay)`. */
  function Finished(g: Fx, now: u32, delay: int): (r: Fx)
    requires WellFormed(g)
    ensures WellFormed(r)
  {
    g.(cycle := true, nextTime := Later(now, delay))
  }

  method Finish(s: Strip, rng: HwRng, now: u32, delay: u32)
    requires s.Valid()
    modifies s`cycle, s`nextTime
    ensures s.Abs(rng) == Finished(old(s.Abs(rng)), now, delay)
  {
    SetCycle(s, rng);
    SetNext(s, rng, now, delay);
  }

  /** The end of a frame with a counter: the new `step`, a cycle when the counter wrapped, and the delay. */
  function Advanced(g: Fx, step: u32, wrap: bool, now: u32, delay: int): (r: Fx)
    requires WellFormed(g)
    ensures WellFormed(r)
  {
    g.(step := step, cycle := g.cycle || wrap, nextTime := Later(now, delay))
  }

  method Advance(s: Strip, rng: HwRng, step: u32, wrap: bool, now: u32, delay: u32)
    requires s.Valid()
    modifies s`step, s`cycle, s`nextTime
    ensures s.Abs(rng) == Advanced(old(s.Abs(rng)), step, wrap, now, delay)
  {
    SetStep(s, rng, step);
    if wrap {
      SetCycle(s, rng);
    }
    SetNext(s, rng, now, delay);
  }

  /** `WS2812FX_color_wheel(WS2812FX_random8())` for draw `j`. */
  ghost function WheelDraws(hw: nat -> u32): nat -> u32
  {
    j => ColorWheel(Random8(hw(j)))
  }

  /** `fill(paint(draw), i, sz)` with the next draw. */
  ghost function DrawnBlock(g: Fx, paint: nat -> u32, sz: int, i: int): (r: Fx)
    requires WellFormed(g)
    ensures WellFormed(r) && r.n == g.n && r.ch == g.ch
  {
    WithOp(g, FillOp(paint(g.drawn), i, sz)).(drawn := g.drawn + 1)
  }

  /** The block loop `for (i = from; i < n; i += sz) fill(paint(draw), i, sz)`. */
  ghost function DrawnBlocksFrom(g: Fx, paint: nat -> u32, sz: int, i: nat): (r: Fx)
    requires WellFormed(g) && sz >= 1
    ensures WellFormed(r) && r.n == g.n && r.ch == g.ch
    decreases g.n - i
  {
    if i >= g.n then g else DrawnBlocksFrom(DrawnBlock(g, paint, sz, i), paint, sz, i + sz)
  }

  /** After the block loop from `i`, pixel `p >= i` shows the colour of draw `(p - i) / sz` of the loop. */
  lemma {:induction false} DrawnBlocksAt(g: Fx, paint: nat -> u32, sz: int, i: nat, p: int)
    requires WellFormed(g) && sz >= 1 && 0 <= p < g.n
    ensures DrawnBlocksFrom(g, paint, sz, i).view[p] ==
      if p >= i then Stored(paint(g.drawn + Quot(p - i, sz)), g.ch) else g.view[p]
    ensures DrawnBlocksFrom(g, paint, sz, i).fault == g.fault
    decreases g.n - i
  {
    if i < g.n {
      var g' := DrawnBlock(g, paint, sz, i);
      DrawnBlocksAt(g', paint, sz, i + sz, p);
      FillViewExactly(g.view, paint(g.drawn), i, sz, g.ch, p);
    }
  }

  /** One block of the random-hue block loop. */
  method WheelBlock(s: Strip, rng: HwRng, size: u16, i: u16)
    requires s.Valid()
    modifies s.leds, s`fault, rng
    ensures s.Abs(rng) == DrawnBlock(old(s.Abs(rng)), WheelDraws(rng.hw), size, i)
  {
    var r := Rand8(s, rng);
    PutFill(s, rng, ColorWheel(r), i, size);
  }

  /** `for (i = 0; i < n; i += size) fill(color_wheel(random8()), i, size)` */
  method WheelBlocks(s: Strip, rng: HwRng, size: u16)
    requires s.Valid() && size >= 1
    modifies s.leds, s`fault, rng
    ensures s.Abs(rng) == DrawnBlocksFrom(old(s.Abs(rng)), WheelDraws(rng.hw), size, 0)
  {
    ghost var paint := WheelDraws(rng.hw);
    ghost var target := DrawnBlocksFrom(s.Abs(rng), paint, size, 0);
    var i: int := 0;
    while i < s.size
      invariant 0 <= i
      invariant DrawnBlocksFrom(s.Abs(rng), paint, size, i) == target
      decreases s.size - i
    {
      WheelBlock(s, rng, size, i);
      i := i + size;
    }
  }

  /** One pixel of the random-hue pixel loop. */
  method WheelPixel(s: Strip, rng: HwRng, i: u16)
    requires s.Valid()
    modifies s.leds, s`fault, rng
    ensures s.Abs(rng) == DrawnPixel(old(s.Abs(rng)), WheelDraws(rng.hw), i)
  {
    var r := Rand8(s, rng);
    PutPixel(s, rng, i, ColorWheel(r));
  }

  /** `for (i = 0; i < n; i++) setPixelColor_2(i, color_wheel(random8()))` */
  method WheelPixels(s: Strip, rng: HwRng)
    requires s.Valid()
    modifies s.leds, s`fault, rng
    ensures s.Abs(rng) == DrawnPixels(old(s.Abs(rng)), WheelDraws(rng.hw), s.size)
  {
    ghost var f0 := s.Abs(rng);
    ghost var paint := WheelDraws(rng.hw);
    var i: u16 := 0;
    while i < s.size
      invariant i <= s.size
      invariant s.Abs(rng) == DrawnPixels(f0, paint, i)
    {
      WheelPixel(s, rng, i);
      i := i + 1;
    }
  }

  /** `WS2812FX_copyPixels(dest, src, count)` as the firmware calls it: a range past the strip is an overrun. */
  function Copied(f: Fx, dest: int, src: int, count: int): (r: Fx)
    requires WellFormed(f) && 0 <= dest && 0 <= src && 0 <= count
    ensures WellFormed(r)
  {
    if dest + count > f.n || src + count > f.n then f.(fault := true)
    else f.(view := MoveView(f.view, dest, src, count))
  }

  method CopyOrFault(s: Strip, rng: HwRng, dest: u16, src: u16, count: u16)
    requires s.Valid()
    modifies s.leds, s`fault
    ensures s.Abs(rng) == Copied(old(s.Abs(rng)), dest, src, count)
  {
    s.CopyPixels(dest, src, count);
  }

  // ------------------------------------------------------- blink and strobe

  /** A blink frame; the helper's return value is the time to the next frame. */
  function Blinking(f: Fx, c1: u32, c2: u32, strobe: bool, now: u32): (r: Fx)
    requires WellFormed(f)
    ensures WellFormed(r)
  {
    BlinkFx(f, c1, c2).(nextTime := Later(now, BlinkDelay(f, strobe)))
  }

  /** `set_next_time(WS2812FX_blink(color1, color2, strobe))` */
  method BlinkFrame(s: Strip, rng: HwRng, c1: u32, c2: u32, strobe: bool, now: u32)
    requires s.Valid()
    modifies s.leds, s`fault, s`cycle, s`nextTime
    ensures s.Abs(rng) == Blinking(old(s.Abs(rng)), c1, c2, strobe, now)
  {
    var delay := Blink(s, rng, c1, c2, strobe);
    SetNext(s, rng, now, delay);
  }

  /** `color_wheel((counter_mode_call << 2) & 0xFF)`: the hue of the rainbow blink and strobe. */
  function CallHue(f: Fx): u32
  {
    ColorWheel(ToU8(f.calls * 4))
  }

  method ModeBlink(s: Strip, rng: HwRng, now: u32)
    requires s.Valid()
    modifies s.leds, s`fault, s`cycle, s`nextTime
    ensures s.Abs(rng) == Blinking(old(s.Abs(rng)), old(s.colors[0]), old(s.colors[1]), false, now)
  {
    BlinkFrame(s, rng, s.colors[0], s.colors[1], false, now);
  }

  method ModeBlinkRainbow(s: Strip, rng: HwRng, now: u32)
    requires s.Valid()
    modifies s.leds, s`fault, s`cycle, s`nextTime
    ensures s.Abs(rng) == Blinking(old(s.Abs(rng)), CallHue(old(s.Abs(rng))), old(s.colors[1]), false, now)
  {
    BlinkFrame(s, rng, ColorWheel(ToU8(s.calls * 4)), s.colors[1], false, now);
  }

  method ModeStrobe(s: Strip, rng: HwRng, now: u32)
    requires s.Valid()
    modifies s.leds, s`fault, s`cycle, s`nextTime
    ensures s.Abs(rng) == Blinking(old(s.Abs(rng)), old(s.colors[0]), old(s.colors[1]), true, now)
  {
    BlinkFrame(s, rng, s.colors[0], s.colors[1], true, now);
  }

  method ModeStrobeRainbow(s: Strip, rng: HwRng, now: u32)
    requires s.Valid()
    modifies s.leds, s`fault, s`cycle, s`nextTime
    ensures s.Abs(rng) == Blinking(old(s.Abs(rng)), CallHue(old(s.Abs(rng))), old(s.colors[1]), true, now)
  {
    BlinkFrame(s, rng, ColorWheel(ToU8(s.calls * 4)), s.colors[1], true, now);
  }

  /** The rainbow blink moves four wheel steps per call, so successive "on" frames are eight steps apart. */
  lemma CallHueAdvances(f: Fx)
    requires f.calls < 0xFFFF_FFFF
    ensures CallHue(f) == ColorWheel((f.calls * 4) % 256)
    ensures CallHue(f.(calls := f.calls + 1)) == ColorWheel((f.calls * 4 + 4) % 256)
  {
    WrapIsMod(f.calls * 4, 0x100);
    WrapIsMod(f.calls * 4 + 4, 0x100);
  }

  // ------------------------------------------------------------ color wipes

  function Wiping(f: Fx, c1: u32, c2: u32, rev: bool, now: u32): (r: Fx)
    requires WellFormed(f)
    ensures WellFormed(r)
  {
    ColorWipeFx(f, c1, c2, rev).(nextTime := Later(now, WipeDelay(f)))
  }

  /** `set_next_time(WS2812FX_color_wipe(color1, color2, rev))` */
  method WipeFrame(s: Strip, rng: HwRng, c1: u32, c2: u32, rev: bool, now: u32)
    requires s.Valid()
    modifies s.leds, s`fault, s`step, s`cycle, s`nextTime
    ensures s.Abs(rng) == Wiping(old(s.Abs(rng)), c1, c2, rev, now)
  {
    var delay := ColorWipe(s, rng, c1, c2, rev);
    SetNext(s, rng, now, delay);
  }

  method ModeColorWipe(s: Strip, rng: HwRng, now: u32)
    requires s.Valid()
    modifies s.leds, s`fault, s`step, s`cycle, s`nextTime
    ensures s.Abs(rng) == Wiping(old(s.Abs(rng)), old(s.colors[0]), old(s.colors[1]), false, now)
  {
    WipeFrame(s, rng, s.colors[0], s.colors[1], false, now);
  }

  method ModeColorWipeInv(s: Strip, rng: HwRng, now: u32)
    requires s.Valid()
    modifies s.leds, s`fault, s`step, s`cycle, s`nextTime
    ensures s.Abs(rng) == Wiping(old(s.Abs(rng)), old(s.colors[1]), old(s.colors[0]), false, now)
  {
    WipeFrame(s, rng, s.colors[1], s.colors[0], false, now);
  }

  method ModeColorWipeRev(s: Strip, rng: HwRng, now: u32)
    requires s.Valid()
    modifies s.leds, s`fault, s`step, s`cycle, s`nextTime
    ensures s.Abs(rng) == Wiping(old(s.Abs(rng)), old(s.colors[0]), old(s.colors[1]), true, now)
  {
    WipeFrame(s, rng, s.colors[0], s.colors[1], true, now);
  }

  method ModeColorWipeRevInv(s: Strip, rng: HwRng, now: u32)
    requires s.Valid()
    modifies s.leds, s`fault, s`step, s`cycle, s`nextTime
    ensures s.Abs(rng) == Wiping(old(s.Abs(rng)), old(s.colors[1]), old(s.colors[0]), true, now)
  {
    WipeFrame(s, rng, s.colors[1], s.colors[0], true, now);
  }

  /**
    `color_wipe_random` (`rev` false) and `color_sweep_random` (`rev` true):
    a new hue at every multiple of `n`, then a wipe in that hue at twice the delay.
   */
  ghost function WipeRandomFx(f: Fx, hw: nat -> u32, rev: bool, now: u32): (r: Fx)
    requires WellFormed(f) && Fair(hw)
    ensures WellFormed(r)
  {
    var g := if Rem(f.step, f.n) == 0 then Rehued(f, hw) else f;
    var c := ColorWheel(g.aux);
    ColorWipeFx(g, c, c, rev).(nextTime := Later(now, WipeDelay(g) * 2))
  }

  method WipeRandom(s: Strip, rng: HwRng, rev: bool, now: u32)
    requires s.Valid() && rng.Valid()
    modifies s.leds, s`fault, s`step, s`auxParam, s`cycle, s`nextTime, rng
    ensures s.Abs(rng) == WipeRandomFx(old(s.Abs(rng)), rng.hw, rev, now)
  {
    if Rem(s.step, s.size) == 0 {
      NewHue(s, rng);
    }
    var color := ColorWheel(s.auxParam);
    var delay := ColorWipe(s, rng, color, color, rev);
    var wait: u32 := delay;
    SetNext(s, rng, now, wait * 2);
  }

  method ModeColorWipeRandom(s: Strip, rng: HwRng, now: u32)
    requires s.Valid() && rng.Valid()
    modifies s.leds, s`fault, s`step, s`auxParam, s`cycle, s`nextTime, rng
    ensures s.Abs(rng) == WipeRandomFx(old(s.Abs(rng)), rng.hw, false, now)
  {
    WipeRandom(s, rng, false, now);
  }

  method ModeColorSweepRandom(s: Strip, rng: HwRng, now: u32)
    requires s.Valid() && rng.Valid()
    modifies s.leds, s`fault, s`step, s`auxParam, s`cycle, s`nextTime, rng
    ensures s.Abs(rng) == WipeRandomFx(old(s.Abs(rng)), rng.hw, true, now)
  {
    WipeRandom(s, rng, true, now);
  }

  /** A random wipe draws a new hue exactly when the counter is a multiple of `n`, far from the previous one. */
  lemma WipeRandomRehues(f: Fx, hw: nat -> u32, rev: bool, now: u32)
    requires WellFormed(f) && Fair(hw)
    ensures WipeRandomFx(f, hw, rev, now).aux != f.aux <==> f.step % f.n == 0
    ensures f.step % f.n == 0 ==> WheelDistance(f.aux, WipeRandomFx(f, hw, rev, now).aux) >= 42
  {
    QuotRemIsDivMod(f.step, f.n);
    if f.step % f.n == 0 {
      RehuedMovesHue(f, hw);
    }
  }

  // ---------------------------------------------------------- random colour

  /** `random_color`: the whole strip in a new hue. */
  ghost function ModeRandomColorFx(f: Fx, hw: nat -> u32, now: u32): (r: Fx)
    requires WellFormed(f) && Fair(hw)
    ensures WellFormed(r)
  {
    var g := Rehued(f, hw);
    Finished(WithOp(g, FillOp(ColorWheel(g.aux), 0, g.n)), now, f.speed)
  }

  method ModeRandomColor(s: Strip, rng: HwRng, now: u32)
    requires s.Valid() && rng.Valid()
    modifies s.leds, s`fault, s`auxParam, s`cycle, s`nextTime, rng
    ensures s.Abs(rng) == ModeRandomColorFx(old(s.Abs(rng)), rng.hw, now)
  {
    NewHue(s, rng);
    PutFill(s, rng, ColorWheel(s.auxParam), 0, s.size);
    Finish(s, rng, now, s.speed);
  }

  /** Every frame of `random_color` paints the strip in one hue at least 42 wheel steps from the last. */
  lemma RandomColorPaintsStrip(f: Fx, hw: nat -> u32, now: u32)
    requires WellFormed(f) && Fair(hw)
    ensures var r := ModeRandomColorFx(f, hw, now);
      r.view == Solid(f.n, ColorWheel(r.aux), f.ch) && WheelDistance(f.aux, r.aux) >= 42 && r.fault == f.fault
  {
    var g := Rehued(f, hw);
    RehuedMovesHue(f, hw);
    FillWholeStrip(g.view, ColorWheel(g.aux), g.ch);
  }

  // ----------------------------------------------------------- dynamic modes

  /** The first call of `single_dynamic` gives every block a random hue. */
  ghost function DynamicStart(f: Fx, hw: nat -> u32): (r: Fx)
    requires WellFormed(f)
    ensures WellFormed(r) && r.n == f.n && r.ch == f.ch
  {
    if f.calls == 0 then DrawnBlocksFrom(f, WheelDraws(hw), BlockOf(f), 0) else f
  }

  /** The block `single_dynamic` repaints: block `random16_lim(n / size)`, at pixel `random16_lim(n / size) * size` in 16 bits. */
  ghost function DynamicFirst(g: Fx, hw: nat -> u32): u16
    requires WellFormed(g)
  {
    ToU16(Random16Lim(hw(g.drawn), Quot(g.n, BlockOf(g))) * BlockOf(g))
  }

  /** One random block gets a new random hue: a draw for the place, then one for the hue. */
  ghost function DynamicBlock(g: Fx, hw: nat -> u32): (r: Fx)
    requires WellFormed(g)
    ensures WellFormed(r)
  {
    DrawnBlock(g.(drawn := g.drawn + 1), WheelDraws(hw), BlockOf(g), DynamicFirst(g, hw))
  }

  /** `single_dynamic`: a new random hue for one random block each frame. */
  ghost function ModeSingleDynamicFx(f: Fx, hw: nat -> u32, now: u32): (r: Fx)
    requires WellFormed(f)
    ensures WellFormed(r)
  {
    Finished(DynamicBlock(DynamicStart(f, hw), hw), now, f.speed / 16)
  }

  method RandomWheelBlock(s: Strip, rng: HwRng, size: u16)
    requires s.Valid() && size == Block(s.SizeOption())
    modifies s.leds, s`fault, rng
    ensures s.Abs(rng) == DynamicBlock(old(s.Abs(rng)), rng.hw)
  {
    var r := Rand16Lim(s, rng, Quot(s.size, size));
    WheelBlock(s, rng, size, ToU16(r * size));
  }

  method ModeSingleDynamic(s: Strip, rng: HwRng, now: u32)
    requires s.Valid()
    modifies s.leds, s`fault, s`cycle, s`nextTime, rng
    ensures s.Abs(rng) == ModeSingleDynamicFx(old(s.Abs(rng)), rng.hw, now)
  {
    var size: u16 := Block(s.SizeOption());
    if s.calls == 0 {
      WheelBlocks(s, rng, size);
    }
    RandomWheelBlock(s, rng, size);
    Finish(s, rng, now, s.speed / 16);
  }

  /** The block loop from `i` consumes one draw per block: `ceil((n - i) / sz)`. */
  lemma {:induction false} BlockLoopDraws(g: Fx, paint: nat -> u32, sz: int, i: nat)
    requires WellFormed(g) && sz >= 1
    ensures DrawnBlocksFrom(g, paint, sz, i).drawn == g.drawn + if i >= g.n then 0 else Quot(g.n - i + sz - 1, sz)
    ensures DrawnBlocksFrom(g, paint, sz, i).options == g.options
    decreases g.n - i
  {
    if i < g.n {
      BlockLoopDraws(DrawnBlock(g, paint, sz, i), paint, sz, i + sz);
      if i + sz >= g.n {
        QuotSmall(g.n - i + sz - 1, sz);
      }
    }
  }

  lemma QuotSmall(a: nat, b: nat)
    requires b <= a < 2 * b
    ensures Quot(a, b) == 1
  {
  }

  /**
    The first frame of `single_dynamic` gives every block its own random hue
    and then repaints one random block: any pixel outside that block shows
    the hue drawn for its block, and nothing is written past the strip.
   */
  lemma SingleDynamicFirstFrame(f: Fx, hw: nat -> u32, now: u32, p: int)
    requires WellFormed(f) && f.calls == 0 && 0 <= p < f.n
    ensures var g := DynamicStart(f, hw);
      && g.drawn == f.drawn + Quot(f.n + BlockOf(f) - 1, BlockOf(f))
      && (!(DynamicFirst(g, hw) <= p < DynamicFirst(g, hw) + BlockOf(f)) ==>
          ModeSingleDynamicFx(f, hw, now).view[p] == Stored(ColorWheel(Random8(hw(f.drawn + Quot(p, BlockOf(f))))), f.ch))
    ensures ModeSingleDynamicFx(f, hw, now).fault == f.fault
  {
    DynamicStartAt(f, hw, p);
    DynamicBlockAt(DynamicStart(f, hw), hw, p);
  }

  /** The first call's block loop gives pixel `p` the hue of draw `p / size`, one draw per block. */
  lemma DynamicStartAt(f: Fx, hw: nat -> u32, p: int)
    requires WellFormed(f) && f.calls == 0 && 0 <= p < f.n
    ensures var g := DynamicStart(f, hw);
      && g.view[p] == Stored(ColorWheel(Random8(hw(f.drawn + Quot(p, BlockOf(f))))), f.ch)
      && g.drawn == f.drawn + Quot(f.n + BlockOf(f) - 1, BlockOf(f))
      && g.fault == f.fault && g.options == f.options
  {
    var sz := BlockOf(f);
    var paint := WheelDraws(hw);
    var g := DrawnBlocksFrom(f, paint, sz, 0);
    assert DynamicStart(f, hw) == g;
    BlockLoopDraws(f, paint, sz, 0);
    DrawnBlocksAt(f, paint, sz, 0, p);
    var q := Quot(p, sz);
    assert g.view[p] == Stored(paint(f.drawn + q), f.ch);
    assert paint(f.drawn + q) == ColorWheel(Random8(hw(f.drawn + q)));
  }

  /**
    One `single_dynamic` block: the block of `2^SIZE_OPTION` pixels at
    `DynamicFirst` shows the hue of the second draw, every other pixel is
    kept, and nothing is written past the strip.
   */
  lemma DynamicBlockAt(g: Fx, hw: nat -> u32, p: int)
    requires WellFormed(g) && 0 <= p < g.n
    ensures var r := DynamicBlock(g, hw);
      var first := DynamicFirst(g, hw);
      && r.view[p] == (if first <= p < first + BlockOf(g) then Stored(ColorWheel(Random8(hw(g.drawn + 1))), g.ch) else g.view[p])
      && r.fault == g.fault && r.drawn == g.drawn + 2
  {
    var h := g.(drawn := g.drawn + 1);
    FillViewExactly(h.view, WheelDraws(hw)(h.drawn), DynamicFirst(g, hw), BlockOf(g), h.ch, p);
  }

  /**
    `multi_dynamic`: every block (or, with size option 0, every pixel) gets
    a new random hue.
   */
  ghost function ModeMultiDynamicFx(f: Fx, hw: nat -> u32, now: u32): (r: Fx)
    requires WellFormed(f)
    ensures WellFormed(r)
  {
    var g := if SizeOptionOf(f.options) != 0 then DrawnBlocksFrom(f, WheelDraws(hw), BlockOf(f), 0)
             else DrawnPixels(f, WheelDraws(hw), f.n);
    Finished(g, now, f.speed / 4)
  }

  method ModeMultiDynamic(s: Strip, rng: HwRng, now: u32)
    requires s.Valid()
    modifies s.leds, s`fault, s`cycle, s`nextTime, rng
    ensures s.Abs(rng) == ModeMultiDynamicFx(old(s.Abs(rng)), rng.hw, now)
  {
    if s.SizeOption() != 0 {
      var size: u16 := Block(s.SizeOption());
      WheelBlocks(s, rng, size);
    } else {
      WheelPixels(s, rng);
    }
    Finish(s, rng, now, s.speed / 4);
  }

  /** The two loops of `multi_dynamic` paint pixel `p` with the draw of its block; pixels are blocks of one. */
  lemma MultiDynamicAt(f: Fx, paint: nat -> u32, p: int)
    requires WellFormed(f) && 0 <= p < f.n
    ensures var g := if SizeOptionOf(f.options) != 0 then DrawnBlocksFrom(f, paint, BlockOf(f), 0) else DrawnPixels(f, paint, f.n);
      g.view[p] == Stored(paint(f.drawn + Quot(p, BlockOf(f))), f.ch) && g.fault == f.fault
  {
    if SizeOptionOf(f.options) != 0 {
      DrawnBlocksAt(f, paint, BlockOf(f), 0, p);
    } else {
      DrawnPixelsAt(f, paint, f.n, p);
      QuotByOne(p);
    }
  }

  /** Both branches of `multi_dynamic` repaint pixel `p` with the hue drawn for its block. */
  lemma MultiDynamicRepaints(f: Fx, hw: nat -> u32, now: u32, p: int)
    requires WellFormed(f) && 0 <= p < f.n
    ensures ModeMultiDynamicFx(f, hw, now).view[p] ==
      Stored(ColorWheel(Random8(hw(f.drawn + Quot(p, BlockOf(f))))), f.ch)
    ensures ModeMultiDynamicFx(f, hw, now).fault == f.fault
  {
    var paint := WheelDraws(hw);
    MultiDynamicAt(f, paint, p);
    var q := Quot(p, BlockOf(f));
    assert paint(f.drawn + q) == ColorWheel(Random8(hw(f.drawn + q)));
  }

  lemma {:induction false} QuotByOne(a: nat)
    ensures Quot(a, 1) == a
  {
    if a > 0 {
      QuotByOne(a - 1);
    }
  }

  // ------------------------------------------------------------ breath, fade

  /** `lum = step` as an `int`, mirrored above 255 (`lum = 511 - lum`). */
  function Triangle(step: u32): int
  {
    var lum := ToInt32(step);
    if lum > 255 then 511 - lum else lum
  }

  /** The delay table of `breath`, with the long pause at the bottom of a breath. */
  function BreathDelay(lum: int): u16
  {
    if lum == 15 then 970
    else if lum <= 25 then 38
    else if lum <= 50 then 36
    else if lum <= 75 then 28
    else if lum <= 100 then 20
    else if lum <= 125 then 14
    else if lum <= 150 then 11
    else 10
  }

  /** The fill shared by `breath` and `fade`: the second colour blended toward the first by `(uint8_t)lum`. */
  function LevelFill(f: Fx): (r: Fx)
    requires WellFormed(f)
    ensures WellFormed(r)
  {
    WithOp(f, FillOp(ColorBlend(f.colors[1], f.colors[0], ToU8(Triangle(f.step))), 0, f.n))
  }

  method FillLevel(s: Strip, rng: HwRng) returns (lum: int)
    requires s.Valid()
    modifies s.leds, s`fault
    ensures lum == Triangle(old(s.step))
    ensures s.Abs(rng) == LevelFill(old(s.Abs(rng)))
  {
    lum := ToInt32(s.step);
    if lum > 255 {
      lum := 511 - lum;
    }
    PutFill(s, rng, ColorBlend(s.colors[1], s.colors[0], ToU8(lum)), 0, s.size);
  }

  /** `breath`: the level fill, then the counter goes up by 2 and back to 15 past 497. */
  function ModeBreathFx(f: Fx, now: u32): (r: Fx)
    requires WellFormed(f)
    ensures WellFormed(r)
  {
    var s2 := ToU32(f.step + 2);
    Advanced(LevelFill(f), if s2 > 497 then 15 else s2, s2 > 497, now, BreathDelay(Triangle(f.step)))
  }

  method ModeBreath(s: Strip, rng: HwRng, now: u32)
    requires s.Valid()
    modifies s.leds, s`fault, s`step, s`cycle, s`nextTime
    ensures s.Abs(rng) == ModeBreathFx(old(s.Abs(rng)), now)
  {
    var lum := FillLevel(s, rng);
    var delay := BreathDelay(lum);
    var step := ToU32(s.step + 2);
    var wrap := step > 497;
    if wrap {
      step := 15;
    }
    Advance(s, rng, step, wrap, now, delay);
  }

  /** Below 512 the level is a triangle wave with values in `[0, 255]`, symmetric about 255.5. */
  lemma TriangleRange(step: u32)
    requires step <= 511
    ensures 0 <= Triangle(step) <= 255
    ensures Triangle(step) == Triangle(511 - step)
    ensures step <= 255 ==> Triangle(step) == step
  {
  }

  /** Below 512 the level fill paints the whole strip one blend of the two colours, without a fault. */
  lemma LevelFillIsSolid(f: Fx)
    requires WellFormed(f) && f.step <= 511
    ensures 0 <= Triangle(f.step) <= 255
    ensures LevelFill(f).view == Solid(f.n, ColorBlend(f.colors[1], f.colors[0], Triangle(f.step)), f.ch)
    ensures LevelFill(f).fault == f.fault
  {
    TriangleRange(f.step);
    FillWholeStrip(f.view, ColorBlend(f.colors[1], f.colors[0], Triangle(f.step)), f.ch);
  }

  /**
    The breath counter stays in `[0, 497]`: it goes up by two and drops to 15
    past 497, and exactly then a cycle is flagged. The frame is one solid
    blend of the two colours.
   */
  lemma BreathCounterCycles(f: Fx, now: u32)
    requires WellFormed(f) && f.step <= 497
    ensures 0 <= Triangle(f.step) <= 255
    ensures var r := ModeBreathFx(f, now);
      && r.step <= 497
      && r.step == (if f.step + 2 > 497 then 15 else f.step + 2)
      && r.cycle == (f.cycle || f.step + 2 > 497)
      && r.view == Solid(f.n, ColorBlend(f.colors[1], f.colors[0], Triangle(f.step)), f.ch)
      && r.fault == f.fault
  {
    LevelFillIsSolid(f);
  }

  /** The 970 ms pause of a breath comes exactly at level 15, steps 15 and 496. */
  lemma BreathPauses(step: u32)
    requires step <= 511
    ensures BreathDelay(Triangle(step)) == 970 <==> step == 15 || step == 496
  {
  }

  /** `fade`: the level fill, then the counter goes up by 4 and back to 0 past 511; due after `speed / 128`. */
  function ModeFadeFx(f: Fx, now: u32): (r: Fx)
    requires WellFormed(f)
    ensures WellFormed(r)
  {
    var s4 := ToU32(f.step + 4);
    Advanced(LevelFill(f), if s4 > 511 then 0 else s4, s4 > 511, now, f.speed / 128)
  }

  method ModeFade(s: Strip, rng: HwRng, now: u32)
    requires s.Valid()
    modifies s.leds, s`fault, s`step, s`cycle, s`nextTime
    ensures s.Abs(rng) == ModeFadeFx(old(s.Abs(rng)), now)
  {
    var _ := FillLevel(s, rng);
    var step := ToU32(s.step + 4);
    var wrap := step > 511;
    if wrap {
      step := 0;
    }
    Advance(s, rng, step, wrap, now, s.speed / 128);
  }

  /**
    The fade counter stays in `[0, 511]`, wraps to 0 past 511 exactly when a
    cycle is flagged, and the strip goes from the second colour (step 0) to
    the first (step 256) and back.
   */
  lemma FadeCounterCycles(f: Fx, now: u32)
    requires WellFormed(f) && f.step <= 511
    ensures 0 <= Triangle(f.step) <= 255
    ensures var r := ModeFadeFx(f, now);
      && r.step <= 511
      && r.step == (if f.step + 4 > 511 then 0 else f.step + 4)
      && r.cycle == (f.cycle || f.step + 4 > 511)
      && r.view == Solid(f.n, ColorBlend(f.colors[1], f.colors[0], Triangle(f.step)), f.ch)
      && (f.step == 0 ==> r.view == Solid(f.n, f.colors[1], f.ch))
      && (f.step == 256 ==> r.view == Solid(f.n, f.colors[0], f.ch))
  {
    LevelFillIsSolid(f);
    ColorBlendFixedPoints(f.colors[1], f.colors[0], 0);
  }

  // ---------------------------------------------------------------- rainbows

  /** `rainbow`: the whole strip at wheel position `step`, which counts modulo 256. */
  function ModeRainbowFx(f: Fx, now: u32): (r: Fx)
    requires WellFormed(f)
    ensures WellFormed(r)
  {
    var s1 := ToU32(f.step + 1) % 256;
    Advanced(WithOp(f, FillOp(ColorWheel(ToU8(f.step)), 0, f.n)), s1, s1 == 0, now, f.speed / 256)
  }

  method ModeRainbow(s: Strip, rng: HwRng, now: u32)
    requires s.Valid()
    modifies s.leds, s`fault, s`step, s`cycle, s`nextTime
    ensures s.Abs(rng) == ModeRainbowFx(old(s.Abs(rng)), now)
  {
    PutFill(s, rng, ColorWheel(ToU8(s.step)), 0, s.size);
    var step := ToU32(s.step + 1) % 256;
    Advance(s, rng, step, step == 0, now, s.speed / 256);
  }

  /** The rainbow counter runs through `[0, 256)`; it wraps after 255, exactly when a cycle is flagged. */
  lemma RainbowCounterCycles(f: Fx, now: u32)
    requires WellFormed(f) && f.step < 256
    ensures var r := ModeRainbowFx(f, now);
      && r.step == (if f.step == 255 then 0 else f.step + 1)
      && r.cycle == (f.cycle || f.step == 255)
      && r.view == Solid(f.n, ColorWheel(f.step), f.ch)
  {
    FillWholeStrip(f.view, ColorWheel(f.step), f.ch);
  }

  /** `256 / n` as a byte, and 1 where that is 0. */
  function CycleIncrement(n: int): (r: u8)
    requires n >= 1
    ensures r >= 1
  {
    var incr := ToU8(Quot(256, n));
    if incr == 0 then 1 else incr
  }

  /**
    `rainbow_cycle`: the strip shifts one pixel (toward the end, or toward
    the start when reversed) and the freed pixel takes wheel position
    `step`; the counter advances by `256 / n` and drops to its low byte past 255.
   */
  function ModeRainbowCycleFx(f: Fx, now: u32): (r: Fx)
    requires WellFormed(f)
    ensures WellFormed(r)
  {
    var s1 := ToU32(f.step + CycleIncrement(f.n));
    Advanced(RunningPut(f, Rev(f), ColorWheel(ToU8(f.step))), if s1 > 255 then s1 % 256 else s1, s1 > 255, now, f.speed / 64)
  }

  method ModeRainbowCycle(s: Strip, rng: HwRng, now: u32)
    requires s.Valid()
    modifies s.leds, s`fault, s`step, s`cycle, s`nextTime
    ensures s.Abs(rng) == ModeRainbowCycleFx(old(s.Abs(rng)), now)
  {
    RunningShift(s, rng, s.Reverse(), ColorWheel(ToU8(s.step)));
    var incr := ToU8(Quot(256, s.size));
    if incr == 0 {
      incr := 1;
    }
    var step := ToU32(s.step + incr);
    var wrap := step > 255;
    if wrap {
      step := step % 256;
    }
    Advance(s, rng, step, wrap, now, s.speed / 64);
  }

  /** The rainbow cycle counter stays below 256 and flags a cycle exactly when it wraps; the new pixel shows wheel position `step`. */
  lemma RainbowCycleCounter(f: Fx, now: u32)
    requires WellFormed(f) && f.step < 256
    ensures var r := ModeRainbowCycleFx(f, now);
      && r.step < 256
      && r.step == (f.step + CycleIncrement(f.n)) % 256
      && r.cycle == (f.cycle || f.step + CycleIncrement(f.n) > 255)
      && r.view[if Rev(f) then f.n - 1 else 0] == Stored(ColorWheel(f.step), f.ch)
      && r.fault == f.fault
  {
    RunningShifts(f, Rev(f), ColorWheel(f.step));
  }

  /** On a strip of at most 256 pixels the increment is exactly `256 / n`; a single pixel steps by 1, since 256 does not fit a byte. */
  lemma CycleIncrementValues(n: int)
    requires n >= 1
    ensures n == 1 ==> CycleIncrement(n) == 1
    ensures 2 <= n <= 256 ==> CycleIncrement(n) == 256 / n
    ensures n > 256 ==> CycleIncrement(n) == 1
  {
    QuotRemIsDivMod(256, n);
  }

  // -------------------------------------------------------------- scan modes

  method ModeScan(s: Strip, rng: HwRng, now: u32)
    requires s.Valid()
    modifies s.leds, s`fault, s`step, s`auxParam, s`cycle, s`nextTime
    ensures s.Abs(rng) == ScanFx(old(s.Abs(rng)), old(s.colors[0]), old(s.colors[1]), false, now)
  {
    Scan(s, rng, s.colors[0], s.colors[1], false, now);
  }

  method ModeDualScan(s: Strip, rng: HwRng, now: u32)
    requires s.Valid()
    modifies s.leds, s`fault, s`step, s`auxParam, s`cycle, s`nextTime
    ensures s.Abs(rng) == ScanFx(old(s.Abs(rng)), old(s.colors[0]), old(s.colors[1]), true, now)
  {
    Scan(s, rng, s.colors[0], s.colors[1], true, now);
  }

  // ---------------------------------------------------------- tricolor modes

  method ModeTricolorChase(s: Strip, rng: HwRng, now: u32)
    requires s.Valid()
    modifies s.leds, s`fault, s`step, s`cycle, s`nextTime
    ensures s.Abs(rng) == TricolorFx(old(s.Abs(rng)), old(s.colors[0]), old(s.colors[1]), old(s.colors[2]), now)
  {
    TricolorChase(s, rng, s.colors[0], s.colors[1], s.colors[2], now);
  }

  method ModeCircusCombustus(s: Strip, rng: HwRng, now: u32)
    requires s.Valid()
    modifies s.leds, s`fault, s`step, s`cycle, s`nextTime
    ensures s.Abs(rng) == TricolorFx(old(s.Abs(rng)), RED, WHITE, BLACK, now)
  {
    TricolorChase(s, rng, RED, WHITE, BLACK, now);
  }

  method ModeTheaterChase(s: Strip, rng: HwRng, now: u32)
    requires s.Valid()
    modifies s.leds, s`fault, s`step, s`cycle, s`nextTime
    ensures s.Abs(rng) == TricolorFx(old(s.Abs(rng)), old(s.colors[0]), old(s.colors[1]), old(s.colors[1]), now)
  {
    TricolorChase(s, rng, s.colors[0], s.colors[1], s.colors[1], now);
  }

  /** `theater_chase_rainbow`: the hue index moves on by one each frame. */
  function ModeTheaterRainbowFx(f: Fx, now: u32): (r: Fx)
    requires WellFormed(f)
    ensures WellFormed(r)
  {
    var g := f.(aux := (f.aux + 1) % 256);
    TricolorFx(g, ColorWheel(g.aux), f.colors[1], f.colors[1], now)
  }

  method ModeTheaterChaseRainbow(s: Strip, rng: HwRng, now: u32)
    requires s.Valid()
    modifies s.leds, s`fault, s`step, s`auxParam, s`cycle, s`nextTime
    ensures s.Abs(rng) == ModeTheaterRainbowFx(old(s.Abs(rng)), now)
  {
    SetAux(s, rng, (s.auxParam + 1) % 256);
    var color := ColorWheel(s.auxParam);
    TricolorChase(s, rng, color, s.colors[1], s.colors[1], now);
  }

  /** The theater rainbow paints the tricolor pattern with the next hue and the second colour twice. */
  lemma TheaterRainbowPattern(f: Fx, now: u32, p: int)
    requires WellFormed(f) && 0 <= p < f.n
    ensures ModeTheaterRainbowFx(f, now).view[p] ==
      Stored(TriColor(ColorWheel((f.aux + 1) % 256), f.colors[1], f.colors[1], BlockOf(f),
                      Rem(f.step + TriPixel(Rev(f), f.n, p), 3 * BlockOf(f))), f.ch)
  {
    TricolorPattern(f.(aux := (f.aux + 1) % 256), ColorWheel((f.aux + 1) % 256), f.colors[1], f.colors[1], now, p);
  }

  // ---------------------------------------------------------- running lights

  /** `sineIncr = (256 / n) * size` as a byte, at least 1. */
  function LightsIncrement(n: int, sz: int): (r: u8)
    requires n >= 1 && sz >= 1
    ensures r >= 1
  {
    var incr := ToU8(Quot(256, n) * sz);
    if incr > 1 then incr else 1
  }

  /** The colour of loop index `i`: the two colours blended by `sine8((i + step) * sineIncr)`. */
  function LightsColor(c1: u32, c2: u32, sine8: u8 -> u8, step: u32, incr: u8, i: nat): u32
  {
    ColorBlend(c1, c2, sine8(ToU8((i + step) * incr)))
  }

  function LightsPaint(c1: u32, c2: u32, sine8: u8 -> u8, step: u32, incr: u8): nat -> u32
  {
    i => LightsColor(c1, c2, sine8, step, incr, i)
  }

  /** Loop index `i` writes pixel `i` when reversed and pixel `n - i - 1` otherwise. */
  function LightStep(g: Fx, paint: nat -> u32, rev: bool, i: nat): (r: Fx)
    requires WellFormed(g)
    ensures WellFormed(r) && r.n == g.n && r.ch == g.ch
  {
    WithOp(g, SetOp(if rev then i else g.n - i - 1, paint(i)))
  }

  function LightsUpTo(f: Fx, paint: nat -> u32, rev: bool, k: nat): (r: Fx)
    requires WellFormed(f)
    ensures WellFormed(r) && r.n == f.n && r.ch == f.ch && r.step == f.step && r.cycle == f.cycle
  {
    if k == 0 then f else LightStep(LightsUpTo(f, paint, rev, k - 1), paint, rev, k - 1)
  }

  function ModeRunningLightsFx(f: Fx, sine8: u8 -> u8, now: u32): (r: Fx)
    requires WellFormed(f)
    ensures WellFormed(r)
  {
    var paint := LightsPaint(f.colors[0], f.colors[1], sine8, f.step, LightsIncrement(f.n, BlockOf(f)));
    var s1 := ToU32(f.step + 1) % 256;
    Advanced(LightsUpTo(f, paint, Rev(f), f.n), s1, s1 == 0, now, Quot(f.speed, f.n))
  }

  /** One loop step: the colour of index `i`, written to pixel `i` when reversed and to `n - i - 1` otherwise. */
  method LightPixel(s: Strip, rng: HwRng, paint: nat -> u32, rev: bool, i: u16)
    requires s.Valid() && i < s.size
    modifies s.leds, s`fault
    ensures s.Abs(rng) == LightStep(old(s.Abs(rng)), paint, rev, i)
  {
    var color := paint(i);
    if rev {
      PutPixel(s, rng, i, color);
    } else {
      PutPixel(s, rng, s.size - i - 1, color);
    }
  }

  method LightsLoop(s: Strip, rng: HwRng, paint: nat -> u32, rev: bool)
    requires s.Valid()
    modifies s.leds, s`fault
    ensures s.Abs(rng) == LightsUpTo(old(s.Abs(rng)), paint, rev, s.size)
  {
    ghost var f0 := s.Abs(rng);
    var i: u16 := 0;
    while i < s.size
      invariant i <= s.size
      invariant s.Abs(rng) == LightsUpTo(f0, paint, rev, i)
      modifies s.leds, s`fault
    {
      LightPixel(s, rng, paint, rev, i);
      i := i + 1;
    }
  }

  /** The per-index colours of `running_lights`: `sine8((i + step) * sineIncr)` blends the first two colours. */
  method ModeRunningLights(s: Strip, rng: HwRng, sine8: u8 -> u8, now: u32)
    requires s.Valid()
    modifies s.leds, s`fault, s`step, s`cycle, s`nextTime
    ensures s.Abs(rng) == ModeRunningLightsFx(old(s.Abs(rng)), sine8, now)
  {
    var size := Block(s.SizeOption());
    var incr := ToU8(Quot(256, s.size) * size);
    incr := if incr > 1 then incr else 1;
    var paint := LightsPaint(s.colors[0], s.colors[1], sine8, s.step, incr);
    LightsLoop(s, rng, paint, s.Reverse());
    var step := ToU32(s.step + 1) % 256;
    Advance(s, rng, step, step == 0, now, Quot(s.speed, s.size));
  }

  /** After `k` loop steps the last `k` pixels (the first `k` when reversed) are painted; the rest are unchanged. */
  lemma {:induction false} LightsAt(f: Fx, paint: nat -> u32, rev: bool, k: nat, p: int)
    requires WellFormed(f) && k <= f.n && 0 <= p < f.n
    ensures LightsUpTo(f, paint, rev, k).view[p] ==
      if rev then (if p < k then Stored(paint(p), f.ch) else f.view[p])
      else (if p >= f.n - k then Stored(paint(f.n - 1 - p), f.ch) else f.view[p])
    ensures LightsUpTo(f, paint, rev, k).fault == f.fault
    decreases k
  {
    if k > 0 {
      LightsAt(f, paint, rev, k - 1, p);
    }
  }

  /**
    A running-lights frame repaints every pixel with its blend, indexed from
    the end of the strip unless reversed, without a fault.
   */
  lemma RunningLightsPaints(f: Fx, sine8: u8 -> u8, now: u32, p: int)
    requires WellFormed(f) && 0 <= p < f.n
    ensures ModeRunningLightsFx(f, sine8, now).view[p] ==
      Stored(LightsColor(f.colors[0], f.colors[1], sine8, f.step, LightsIncrement(f.n, BlockOf(f)), if Rev(f) then p else f.n - 1 - p), f.ch)
    ensures ModeRunningLightsFx(f, sine8, now).fault == f.fault
  {
    var paint := LightsPaint(f.colors[0], f.colors[1], sine8, f.step, LightsIncrement(f.n, BlockOf(f)));
    var k := if Rev(f) then p else f.n - 1 - p;
    LightsAt(f, paint, Rev(f), f.n, p);
    assert LightsUpTo(f, paint, Rev(f), f.n).view[p] == Stored(paint(k), f.ch);
    assert paint(k) == LightsColor(f.colors[0], f.colors[1], sine8, f.step, LightsIncrement(f.n, BlockOf(f)), k);
  }

  /** The running-lights counter runs modulo 256 and flags a cycle when it wraps. */
  lemma RunningLightsCounter(f: Fx, sine8: u8 -> u8, now: u32)
    requires WellFormed(f) && f.step < 256
    ensures ModeRunningLightsFx(f, sine8, now).step == (if f.step == 255 then 0 else f.step + 1)
    ensures ModeRunningLightsFx(f, sine8, now).cycle == (f.cycle || f.step == 255)
  {
    var s1 := ToU32(f.step + 1) % 256;
    assert s1 == if f.step == 255 then 0 else f.step + 1;
  }

  // ----------------------------------------------------------- twinkle modes

  method ModeTwinkle(s: Strip, rng: HwRng, now: u32)
    requires s.Valid()
    modifies s.leds, s`fault, s`step, s`cycle, s`nextTime, rng
    ensures s.Abs(rng) == TwinkleFx(old(s.Abs(rng)), rng.hw, old(s.colors[0]), old(s.colors[1]), now)
  {
    Twinkle(s, rng, s.colors[0], s.colors[1], now);
  }

  /** `twinkle_random`: the twinkle colour is a random hue, drawn before the frame. */
  ghost function ModeTwinkleRandomFx(f: Fx, hw: nat -> u32, now: u32): (r: Fx)
    requires WellFormed(f)
    ensures WellFormed(r)
  {
    TwinkleFx(f.(drawn := f.drawn + 1), hw, ColorWheel(Random8(hw(f.drawn))), f.colors[1], now)
  }

  method ModeTwinkleRandom(s: Strip, rng: HwRng, now: u32)
    requires s.Valid()
    modifies s.leds, s`fault, s`step, s`cycle, s`nextTime, rng
    ensures s.Abs(rng) == ModeTwinkleRandomFx(old(s.Abs(rng)), rng.hw, now)
  {
    var r := Rand8(s, rng);
    var color := ColorWheel(r);
    ghost var g := s.Abs(rng);
    Twinkle(s, rng, color, s.colors[1], now);
    assert s.Abs(rng) == TwinkleFx(g, rng.hw, color, g.colors[1], now);
  }

  method ModeTwinkleFade(s: Strip, rng: HwRng, now: u32)
    requires s.Valid()
    modifies s.leds, s`fault, s`cycle, s`nextTime, rng
    ensures s.Abs(rng) == TwinkleFadeFx(old(s.Abs(rng)), rng.hw, old(s.colors[0]), now)
  {
    TwinkleFade(s, rng, s.colors[0], now);
  }

  ghost function ModeTwinkleFadeRandomFx(f: Fx, hw: nat -> u32, now: u32): (r: Fx)
    requires WellFormed(f)
    ensures WellFormed(r)
  {
    TwinkleFadeFx(f.(drawn := f.drawn + 1), hw, ColorWheel(Random8(hw(f.drawn))), now)
  }

  method ModeTwinkleFadeRandom(s: Strip, rng: HwRng, now: u32)
    requires s.Valid()
    modifies s.leds, s`fault, s`cycle, s`nextTime, rng
    ensures s.Abs(rng) == ModeTwinkleFadeRandomFx(old(s.Abs(rng)), rng.hw, now)
  {
    ghost var f0 := s.Abs(rng);
    ghost var g := f0.(drawn := f0.drawn + 1);
    assert ModeTwinkleFadeRandomFx(f0, rng.hw, now) == TwinkleFadeFx(g, rng.hw, ColorWheel(Random8(rng.hw(f0.drawn))), now);
    var r := rng.Draw8();
    assert s.Abs(rng) == g;
    TwinkleFade(s, rng, ColorWheel(r), now);
  }

  // ----------------------------------------------------------- sparkle modes

  method ModeSparkle(s: Strip, rng: HwRng, now: u32)
    requires s.Valid()
    modifies s.leds, s`fault, s`auxParam3, s`cycle, s`nextTime, rng
    ensures s.Abs(rng) == SparkleFx(old(s.Abs(rng)), rng.hw, old(s.colors[1]), old(s.colors[0]), now)
  {
    Sparkle(s, rng, s.colors[1], s.colors[0], now);
  }

  method ModeFlashSparkle(s: Strip, rng: HwRng, now: u32)
    requires s.Valid()
    modifies s.leds, s`fault, s`auxParam3, s`cycle, s`nextTime, rng
    ensures s.Abs(rng) == SparkleFx(old(s.Abs(rng)), rng.hw, old(s.colors[0]), WHITE, now)
  {
    Sparkle(s, rng, s.colors[0], WHITE, now);
  }

  /** The first `k` white flashes of a hyper sparkle frame. */
  ghost function FlashesUpTo(g: Fx, hw: nat -> u32, sz: int, k: nat): (r: Fx)
    requires WellFormed(g)
    ensures WellFormed(r) && r.n == g.n && r.ch == g.ch && r.colors == g.colors
  {
    if k == 0 then g else RandomBlock(FlashesUpTo(g, hw, sz, k - 1), hw, WHITE, sz)
  }

  /** `hyper_sparkle`: the first colour everywhere, then eight white blocks at random places. */
  ghost function ModeHyperSparkleFx(f: Fx, hw: nat -> u32, now: u32): (r: Fx)
    requires WellFormed(f)
    ensures WellFormed(r)
  {
    Finished(FlashesUpTo(WithOp(f, FillOp(f.colors[0], 0, f.n)), hw, BlockOf(f), 8), now, f.speed / 32)
  }

  method HyperFlashes(s: Strip, rng: HwRng, size: u16)
    requires s.Valid()
    modifies s.leds, s`fault, rng
    ensures s.Abs(rng) == FlashesUpTo(old(s.Abs(rng)), rng.hw, size, 8)
  {
    ghost var f0 := s.Abs(rng);
    var i := 0;
    while i < 8
      invariant 0 <= i <= 8
      invariant s.Abs(rng) == FlashesUpTo(f0, rng.hw, size, i)
      modifies s.leds, s`fault, rng
    {
      PutRandomBlock(s, rng, WHITE, size);
      i := i + 1;
    }
  }

  method ModeHyperSparkle(s: Strip, rng: HwRng, now: u32)
    requires s.Valid()
    modifies s.leds, s`fault, s`cycle, s`nextTime, rng
    ensures s.Abs(rng) == ModeHyperSparkleFx(old(s.Abs(rng)), rng.hw, now)
  {
    PutFill(s, rng, s.colors[0], 0, s.size);
    HyperFlashes(s, rng, Block(s.SizeOption()));
    Finish(s, rng, now, s.speed / 32);
  }

  /** A random block fill paints the `sz` pixels from the index of the next draw, with one draw and no fault. */
  lemma RandomBlockAt(g: Fx, hw: nat -> u32, color: u32, sz: int, p: int)
    requires WellFormed(g) && 0 <= p < g.n
    ensures var idx := Random16Lim(hw(g.drawn), ToU16(g.n - sz));
      RandomBlock(g, hw, color, sz).view[p] == if idx <= p < FillEnd(idx, sz, g.n) then Stored(color, g.ch) else g.view[p]
    ensures RandomBlock(g, hw, color, sz).fault == g.fault
    ensures RandomBlock(g, hw, color, sz).drawn == g.drawn + 1
  {
    FillViewExactly(g.view, color, Random16Lim(hw(g.drawn), ToU16(g.n - sz)), sz, g.ch, p);
  }

  /** After `k` flashes a pixel is white exactly when one of the `k` drawn blocks covers it; each flash is one draw and never faults. */
  lemma {:induction false} FlashesAt(g: Fx, hw: nat -> u32, sz: int, k: nat, p: int)
    requires WellFormed(g) && 0 <= p < g.n
    ensures FlashesUpTo(g, hw, sz, k).view[p] ==
      if InRandomBlocks(hw, g.drawn, ToU16(g.n - sz), sz, g.n, k, p) then Stored(WHITE, g.ch) else g.view[p]
    ensures FlashesUpTo(g, hw, sz, k).fault == g.fault
    ensures FlashesUpTo(g, hw, sz, k).drawn == g.drawn + k
    decreases k
  {
    if k > 0 {
      FlashesAt(g, hw, sz, k - 1, p);
      FlashStep(g, hw, sz, k, p);
    }
  }

  /** Flash `k` adds its block to those of the flashes before it. */
  lemma FlashStep(g: Fx, hw: nat -> u32, sz: int, k: nat, p: int)
    requires WellFormed(g) && 0 <= p < g.n && k >= 1
    requires FlashesUpTo(g, hw, sz, k - 1).view[p] ==
      if InRandomBlocks(hw, g.drawn, ToU16(g.n - sz), sz, g.n, k - 1, p) then Stored(WHITE, g.ch) else g.view[p]
    requires FlashesUpTo(g, hw, sz, k - 1).drawn == g.drawn + (k - 1)
    ensures FlashesUpTo(g, hw, sz, k).view[p] ==
      if InRandomBlocks(hw, g.drawn, ToU16(g.n - sz), sz, g.n, k, p) then Stored(WHITE, g.ch) else g.view[p]
  {
    var h := FlashesUpTo(g, hw, sz, k - 1);
    RandomBlockAt(h, hw, WHITE, sz, p);
    InRandomBlocksNext(hw, g.drawn, ToU16(g.n - sz), sz, g.n, k, p, Random16Lim(hw(h.drawn), ToU16(h.n - sz)));
  }

  /** A hyper sparkle frame shows white on the eight drawn blocks and the first colour everywhere else, after exactly eight draws. */
  lemma HyperSparkleColors(f: Fx, hw: nat -> u32, now: u32, p: int)
    requires WellFormed(f) && 0 <= p < f.n
    ensures var r := ModeHyperSparkleFx(f, hw, now);
      && r.view[p] == Stored(if InRandomBlocks(hw, f.drawn, ToU16(f.n - BlockOf(f)), BlockOf(f), f.n, 8, p) then WHITE else f.colors[0], f.ch)
      && r.drawn == f.drawn + 8
      && r.fault == f.fault
  {
    var g := WithOp(f, FillOp(f.colors[0], 0, f.n));
    FillViewExactly(f.view, f.colors[0], 0, f.n, f.ch, p);
    FlashesAt(g, hw, BlockOf(f), 8, p);
  }

  // ------------------------------------------------------------ multi strobe

  /** `count = 2 * (speed / 100 + 1)` flashes and gaps per cycle. */
  function StrobeCount(speed: u16): (r: u16)
    ensures 2 <= r <= 1312 && r % 2 == 0
  {
    ToU16(2 * (speed / 100 + 1))
  }

  /** The delay of a strobe step: 20 ms flash, 50 ms gap, and the pause `200 + (9 - speed % 10) * 100` after step `count - 1`. */
  function StrobeDelay(f: Fx): (r: u16)
    ensures f.step < StrobeCount(f.speed) ==> r == (if f.step % 2 == 0 then 20 else 50)
    ensures f.step >= StrobeCount(f.speed) ==> 200 <= r <= 1100
  {
    if f.step < StrobeCount(f.speed) then (if f.step % 2 == 0 then 20 else 50)
    else 200 + (9 - f.speed % 10) * 100
  }

  /** The strip of a strobe step: the second colour, overdrawn by the first on a flash step. */
  function StrobeFill(f: Fx): (r: Fx)
    requires WellFormed(f)
    ensures WellFormed(r)
  {
    var g := WithOp(f, FillOp(f.colors[1], 0, f.n));
    if f.step < StrobeCount(f.speed) && f.step % 2 == 0 then WithOp(g, FillOp(f.colors[0], 0, f.n)) else g
  }

  /** `multi_strobe`: the counter runs modulo `count + 1`. */
  function ModeMultiStrobeFx(f: Fx, now: u32): (r: Fx)
    requires WellFormed(f)
    ensures WellFormed(r)
  {
    var s1 := Rem(ToU32(f.step + 1), StrobeCount(f.speed) + 1);
    Advanced(StrobeFill(f), s1, s1 == 0, now, StrobeDelay(f))
  }

  method StrobePaint(s: Strip, rng: HwRng) returns (delay: u16)
    requires s.Valid()
    modifies s.leds, s`fault
    ensures delay == StrobeDelay(old(s.Abs(rng)))
    ensures s.Abs(rng) == StrobeFill(old(s.Abs(rng)))
  {
    PutFill(s, rng, s.colors[1], 0, s.size);
    delay := 200 + (9 - s.speed % 10) * 100;
    var count: u16 := ToU16(2 * (s.speed / 100 + 1));
    if s.step < count {
      if s.step % 2 == 0 {
        PutFill(s, rng, s.colors[0], 0, s.size);
        delay := 20;
      } else {
        delay := 50;
      }
    }
  }

  method ModeMultiStrobe(s: Strip, rng: HwRng, now: u32)
    requires s.Valid()
    modifies s.leds, s`fault, s`step, s`cycle, s`nextTime
    ensures s.Abs(rng) == ModeMultiStrobeFx(old(s.Abs(rng)), now)
  {
    var delay := StrobePaint(s, rng);
    var count: u16 := ToU16(2 * (s.speed / 100 + 1));
    var step := Rem(ToU32(s.step + 1), count + 1);
    Advance(s, rng, step, step == 0, now, delay);
  }

  /**
    The strobe counter stays in `[0, count]` and wraps after `count`, exactly
    when a cycle is flagged; the strip is the first colour on the flash
    steps (even steps below `count`) and the second colour otherwise.
   */
  lemma MultiStrobeCycles(f: Fx, now: u32)
    requires WellFormed(f) && f.step <= StrobeCount(f.speed)
    ensures var r := ModeMultiStrobeFx(f, now);
      var count := StrobeCount(f.speed);
      && r.step == (if f.step == count then 0 else f.step + 1)
      && r.cycle == (f.cycle || f.step == count)
      && r.view == Solid(f.n, if f.step < count && f.step % 2 == 0 then f.colors[0] else f.colors[1], f.ch)
      && r.fault == f.fault
      && r.nextTime == Later(now, if f.step == count then 200 + (9 - f.speed % 10) * 100 else if f.step % 2 == 0 then 20 else 50)
  {
    var count := StrobeCount(f.speed);
    QuotRemIsDivMod(f.step + 1, count + 1);
    var g := WithOp(f, FillOp(f.colors[1], 0, f.n));
    FillWholeStrip(f.view, f.colors[1], f.ch);
    FillWholeStrip(g.view, f.colors[0], f.ch);
  }

  // ------------------------------------------------------------- chase modes

  method ModeBicolorChase(s: Strip, rng: HwRng, now: u32)
    requires s.Valid()
    modifies s.leds, s`fault, s`step, s`cycle, s`nextTime
    ensures s.Abs(rng) == ChaseFx(old(s.Abs(rng)), old(s.colors[0]), old(s.colors[1]), old(s.colors[2]), now)
  {
    Chase(s, rng, s.colors[0], s.colors[1], s.colors[2], now);
  }

  method ModeChaseColor(s: Strip, rng: HwRng, now: u32)
    requires s.Valid()
    modifies s.leds, s`fault, s`step, s`cycle, s`nextTime
    ensures s.Abs(rng) == ChaseFx(old(s.Abs(rng)), old(s.colors[0]), WHITE, WHITE, now)
  {
    Chase(s, rng, s.colors[0], WHITE, WHITE, now);
  }

  method ModeChaseBlackout(s: Strip, rng: HwRng, now: u32)
    requires s.Valid()
    modifies s.leds, s`fault, s`step, s`cycle, s`nextTime
    ensures s.Abs(rng) == ChaseFx(old(s.Abs(rng)), old(s.colors[0]), BLACK, BLACK, now)
  {
    Chase(s, rng, s.colors[0], BLACK, BLACK, now);
  }

  method ModeChaseWhite(s: Strip, rng: HwRng, now: u32)
    requires s.Valid()
    modifies s.leds, s`fault, s`step, s`cycle, s`nextTime
    ensures s.Abs(rng) == ChaseFx(old(s.Abs(rng)), WHITE, old(s.colors[0]), old(s.colors[0]), now)
  {
    Chase(s, rng, WHITE, s.colors[0], s.colors[0], now);
  }

  /** `chase_random`: a new hue each time the counter is 0, chased by white. */
  ghost function ModeChaseRandomFx(f: Fx, hw: nat -> u32, now: u32): (r: Fx)
    requires WellFormed(f) && Fair(hw)
    ensures WellFormed(r)
  {
    var g := if f.step == 0 then Rehued(f, hw) else f;
    ChaseFx(g, ColorWheel(g.aux), WHITE, WHITE, now)
  }

  method ModeChaseRandom(s: Strip, rng: HwRng, now: u32)
    requires s.Valid() && rng.Valid()
    modifies s.leds, s`fault, s`step, s`auxParam, s`cycle, s`nextTime, rng
    ensures s.Abs(rng) == ModeChaseRandomFx(old(s.Abs(rng)), rng.hw, now)
  {
    if s.step == 0 {
      NewHue(s, rng);
    }
    Chase(s, rng, ColorWheel(s.auxParam), WHITE, WHITE, now);
  }

  /** `((k * 256 / n) + (counter_mode_call & 0xFF)) & 0xFF` */
  function RainbowWhiteHue(k: u16, n: int, calls: u32): u8
    requires n >= 1
  {
    (Quot(k * 256, n) + calls % 256) % 256
  }

  /** `chase_rainbow_white`: white chased by the hues of pixel `step` and of the next pixel. */
  function ModeChaseRainbowWhiteFx(f: Fx, now: u32): (r: Fx)
    requires WellFormed(f)
    ensures WellFormed(r)
  {
    var a := ToU16(f.step);
    var b := ToU16(Rem(ToU32(f.step + 1), f.n));
    ChaseFx(f, WHITE, ColorWheel(RainbowWhiteHue(a, f.n, f.calls)), ColorWheel(RainbowWhiteHue(b, f.n, f.calls)), now)
  }

  method ModeChaseRainbowWhite(s: Strip, rng: HwRng, now: u32)
    requires s.Valid()
    modifies s.leds, s`fault, s`step, s`cycle, s`nextTime
    ensures s.Abs(rng) == ModeChaseRainbowWhiteFx(old(s.Abs(rng)), now)
  {
    var n: u16 := ToU16(s.step);
    var m: u16 := ToU16(Rem(ToU32(s.step + 1), s.size));
    var color2 := ColorWheel(RainbowWhiteHue(n, s.size, s.calls));
    var color3 := ColorWheel(RainbowWhiteHue(m, s.size, s.calls));
    Chase(s, rng, WHITE, color2, color3, now);
  }

  /** `((step * (uint8)(256 / n)) + (counter_mode_call & 0xFF)) & 0xFF` */
  function RainbowHue(step: u32, n: int, calls: u32): u8
    requires n >= 1
  {
    (step * ToU8(Quot(256, n)) + calls % 256) % 256
  }

  method ModeChaseRainbow(s: Strip, rng: HwRng, now: u32)
    requires s.Valid()
    modifies s.leds, s`fault, s`step, s`cycle, s`nextTime
    ensures s.Abs(rng) == ChaseFx(old(s.Abs(rng)), ColorWheel(RainbowHue(old(s.step), s.size, s.calls)), WHITE, WHITE, now)
  {
    var color := ColorWheel(RainbowHue(s.step, s.size, s.calls));
    Chase(s, rng, color, WHITE, WHITE, now);
  }

  method ModeChaseBlackoutRainbow(s: Strip, rng: HwRng, now: u32)
    requires s.Valid()
    modifies s.leds, s`fault, s`step, s`cycle, s`nextTime
    ensures s.Abs(rng) == ChaseFx(old(s.Abs(rng)), ColorWheel(RainbowHue(old(s.step), s.size, s.calls)), BLACK, BLACK, now)
  {
    var color := ColorWheel(RainbowHue(s.step, s.size, s.calls));
    Chase(s, rng, color, BLACK, BLACK, now);
  }

  /** On a strip of at most 256 pixels the chase rainbow spreads one wheel turn over the strip and turns one step per call. */
  lemma ChaseRainbowSpread(step: u32, n: int, calls: u32)
    requires 1 <= n <= 256 && step < n && calls < 0xFFFF_FFFF
    ensures RainbowHue(step, n, calls) == (step * (256 / n) + calls % 256) % 256
    ensures RainbowHue(step, n, calls + 1) == (RainbowHue(step, n, calls) + 1) % 256
  {
    QuotRemIsDivMod(256, n);
    var x := step * ToU8(Quot(256, n));
    if n == 1 {
      assert step == 0;
    } else {
      assert ToU8(Quot(256, n)) == 256 / n;
    }
    HueTurns(x, calls);
  }

  /** Adding one to the counter turns a hue offset by `x` one step. */
  lemma HueTurns(x: int, c: nat)
    ensures (x + (c + 1) % 256) % 256 == ((x + c % 256) % 256 + 1) % 256
  {
  }

  method ModeChaseFlash(s: Strip, rng: HwRng, now: u32)
    requires s.Valid() && rng.Valid()
    modifies s.leds, s`fault, s`step, s`auxParam, s`cycle, s`nextTime, rng
    ensures s.Abs(rng) == ChaseFlashFx(old(s.Abs(rng)), rng.hw, old(s.colors[0]), WHITE, now)
  {
    ChaseFlash(s, rng, s.colors[0], WHITE, now);
  }

  method ModeChaseFlashRandom(s: Strip, rng: HwRng, now: u32)
    requires s.Valid() && rng.Valid()
    modifies s.leds, s`fault, s`step, s`auxParam, s`cycle, s`nextTime, rng
    ensures s.Abs(rng) == ChaseFlashFx(old(s.Abs(rng)), rng.hw, ColorWheel(old(s.auxParam)), WHITE, now)
  {
    ChaseFlash(s, rng, ColorWheel(s.auxParam), WHITE, now);
  }

  // ----------------------------------------------------------- running modes

  method ModeRunningColor(s: Strip, rng: HwRng, now: u32)
    requires s.Valid()
    modifies s.leds, s`fault, s`step, s`cycle, s`nextTime
    ensures s.Abs(rng) == RunningFx(old(s.Abs(rng)), old(s.colors[0]), old(s.colors[1]), now)
  {
    Running(s, rng, s.colors[0], s.colors[1], now);
  }

  method ModeRunningRedBlue(s: Strip, rng: HwRng, now: u32)
    requires s.Valid()
    modifies s.leds, s`fault, s`step, s`cycle, s`nextTime
    ensures s.Abs(rng) == RunningFx(old(s.Abs(rng)), RED, BLUE, now)
  {
    Running(s, rng, RED, BLUE, now);
  }

  method ModeMerryChristmas(s: Strip, rng: HwRng, now: u32)
    requires s.Valid()
    modifies s.leds, s`fault, s`step, s`cycle, s`nextTime
    ensures s.Abs(rng) == RunningFx(old(s.Abs(rng)), RED, GREEN, now)
  {
    Running(s, rng, RED, GREEN, now);
  }

  method ModeHalloween(s: Strip, rng: HwRng, now: u32)
    requires s.Valid()
    modifies s.leds, s`fault, s`step, s`cycle, s`nextTime
    ensures s.Abs(rng) == RunningFx(old(s.Abs(rng)), PURPLE, ORANGE, now)
  {
    Running(s, rng, PURPLE, ORANGE, now);
  }

  /** `running_random`: a new hue every `2 << size_option` steps, running in one colour. */
  ghost function ModeRunningRandomFx(f: Fx, hw: nat -> u32, now: u32): (r: Fx)
    requires WellFormed(f) && Fair(hw)
    ensures WellFormed(r)
  {
    var g := if Rem(f.step, 2 * BlockOf(f)) == 0 then Rehued(f, hw) else f;
    var c := ColorWheel(g.aux);
    RunningFx(g, c, c, now)
  }

  method ModeRunningRandom(s: Strip, rng: HwRng, now: u32)
    requires s.Valid() && rng.Valid()
    modifies s.leds, s`fault, s`step, s`auxParam, s`cycle, s`nextTime, rng
    ensures s.Abs(rng) == ModeRunningRandomFx(old(s.Abs(rng)), rng.hw, now)
  {
    var size := 2 * Block(s.SizeOption());
    if Rem(s.step, size) == 0 {
      NewHue(s, rng);
    }
    var color := ColorWheel(s.auxParam);
    Running(s, rng, color, color, now);
  }

  /** The random running mode injects its current hue at the start of the strip (at the end when reversed). */
  lemma RunningRandomInjects(f: Fx, hw: nat -> u32, now: u32)
    requires WellFormed(f) && Fair(hw)
    ensures var r := ModeRunningRandomFx(f, hw, now);
      var p := if Rev(f) then f.n - 1 else 0;
      r.view[p] == Stored(ColorWheel(r.aux), f.ch) && r.fault == f.fault
  {
    var g := if Rem(f.step, 2 * BlockOf(f)) == 0 then Rehued(f, hw) else f;
    RunningShifts(g, Rev(g), ColorWheel(g.aux));
  }

  // ----------------------------------------------------- larson and comet

  /** The pixel the scanner lights: `step` on the way out, `2n - step - 2` on the way back, mirrored when reversed. */
  function LarsonPixel(f: Fx): u16
  {
    if f.step < f.n then (if Rev(f) then ToU16(f.n - 1 - f.step) else ToU16(f.step))
    else
      var index := ToU16(f.n * 2 - f.step - 2);
      if Rev(f) then ToU16(f.n - 1 - index) else index
  }

  /** The scanner pixel lit in the first colour. */
  function LarsonLit(g: Fx): (r: Fx)
    requires WellFormed(g)
    ensures WellFormed(r)
  {
    WithOp(g, SetOp(LarsonPixel(g), g.colors[0]))
  }

  /** `larson_scanner`: fade, light the scanner pixel, and count to `2n - 2` (taken in 16 bits). */
  function ModeLarsonFx(f: Fx, now: u32): (r: Fx)
    requires WellFormed(f)
    ensures WellFormed(r)
  {
    var s1 := ToU32(f.step + 1);
    var wrap := s1 >= ToU16(f.n * 2 - 2);
    Advanced(LarsonLit(Faded(f)), if wrap then 0 else s1, wrap, now, Quot(f.speed, f.n * 2))
  }

  method LarsonLight(s: Strip, rng: HwRng)
    requires s.Valid()
    modifies s.leds, s`fault
    ensures s.Abs(rng) == LarsonLit(old(s.Abs(rng)))
  {
    ghost var f0 := s.Abs(rng);
    var index: u16;
    if s.step < s.size {
      index := if s.Reverse() then ToU16(s.size - 1 - s.step) else ToU16(s.step);
    } else {
      var back: u16 := ToU16(s.size * 2 - s.step - 2);
      index := if s.Reverse() then ToU16(s.size - 1 - back) else back;
    }
    assert index == LarsonPixel(f0);
    PutPixel(s, rng, index, s.colors[0]);
  }

  method ModeLarsonScanner(s: Strip, rng: HwRng, now: u32)
    requires s.Valid()
    modifies s.leds, s`fault, s`step, s`cycle, s`nextTime
    ensures s.Abs(rng) == ModeLarsonFx(old(s.Abs(rng)), now)
  {
    Fade(s, rng);
    LarsonLight(s, rng);
    var step := ToU32(s.step + 1);
    var wrap := step >= ToU16(s.size * 2 - 2);
    if wrap {
      step := 0;
    }
    Advance(s, rng, step, wrap, now, Quot(s.speed, s.size * 2));
  }

  /** The scanner pixel goes out along the strip and back, mirrored when reversed, and stays on the strip. */
  lemma LarsonPixelPath(f: Fx)
    requires WellFormed(f) && f.n >= 2 && f.step < 2 * f.n - 2
    ensures var pos := if f.step < f.n then f.step else 2 * f.n - 2 - f.step;
      0 <= pos < f.n && LarsonPixel(f) == (if Rev(f) then f.n - 1 - pos else pos)
  {
  }

  /**
    On a strip of two or more pixels the scanner counter runs through
    `[0, 2n - 2)`, wrapping exactly when a cycle is flagged; the lit pixel
    goes out and back inside the strip and the other pixels only fade.
   */
  lemma LarsonSweeps(f: Fx, now: u32, p: int)
    requires WellFormed(f) && f.n >= 2 && f.step < 2 * f.n - 2 && 0 <= p < f.n
    ensures var r := ModeLarsonFx(f, now);
      && r.fault == f.fault
      && r.view[p] == (if p == LarsonPixel(f) then Stored(f.colors[0], f.ch) else Faded(f).view[p])
      && r.step == (if f.step + 1 == 2 * f.n - 2 then 0 else f.step + 1)
      && r.cycle == (f.cycle || f.step + 1 == 2 * f.n - 2)
  {
    LarsonPixelPath(f);
  }

  /** The comet head: pixel `step`, or `n - 1 - step` when reversed, in 16 bits. */
  function CometPixel(f: Fx): u16
  {
    if Rev(f) then ToU16(f.n - 1 - f.step) else ToU16(f.step)
  }

  function CometLit(g: Fx): (r: Fx)
    requires WellFormed(g)
    ensures WellFormed(r)
  {
    WithOp(g, SetOp(CometPixel(g), g.colors[0]))
  }

  /** `comet`: fade and light the head; the counter runs modulo `n`. */
  function ModeCometFx(f: Fx, now: u32): (r: Fx)
    requires WellFormed(f)
    ensures WellFormed(r)
  {
    var s1 := Rem(ToU32(f.step + 1), f.n);
    Advanced(CometLit(Faded(f)), s1, s1 == 0, now, Quot(f.speed, f.n))
  }

  method CometLight(s: Strip, rng: HwRng)
    requires s.Valid()
    modifies s.leds, s`fault
    ensures s.Abs(rng) == CometLit(old(s.Abs(rng)))
  {
    if s.Reverse() {
      PutPixel(s, rng, ToU16(s.size - 1 - s.step), s.colors[0]);
    } else {
      PutPixel(s, rng, ToU16(s.step), s.colors[0]);
    }
  }

  method ModeComet(s: Strip, rng: HwRng, now: u32)
    requires s.Valid()
    modifies s.leds, s`fault, s`step, s`cycle, s`nextTime
    ensures s.Abs(rng) == ModeCometFx(old(s.Abs(rng)), now)
  {
    Fade(s, rng);
    CometLight(s, rng);
    var step := Rem(ToU32(s.step + 1), s.size);
    Advance(s, rng, step, step == 0, now, Quot(s.speed, s.size));
  }

  /**
    The comet counter runs through `[0, n)` and wraps exactly when a cycle is
    flagged; the head is on the strip, and every other pixel only fades.
   */
  lemma CometCycles(f: Fx, now: u32, p: int)
    requires WellFormed(f) && f.step < f.n && 0 <= p < f.n
    ensures 0 <= CometPixel(f) < f.n
    ensures var r := ModeCometFx(f, now);
      && r.step == (if f.step == f.n - 1 then 0 else f.step + 1)
      && r.cycle == (f.cycle || f.step == f.n - 1)
      && r.fault == f.fault
      && r.view[p] == (if p == CometPixel(f) then Stored(f.colors[0], f.ch) else Faded(f).view[p])
  {
    QuotRemIsDivMod(f.step + 1, f.n);
  }

  /** Past the end of the strip the comet head is an out-of-range write. */
  lemma CometOverrunsPastEnd(f: Fx, now: u32)
    requires WellFormed(f) && !Rev(f) && f.n <= f.step < U16_MOD
    ensures ModeCometFx(f, now).fault
  {
  }

  // ------------------------------------------------------- fireworks and rain

  /** The colour choice of `mode_fireworks` (`colors[random8()]`) or of `mode_rain` (`colors[random8_lim(2)]`). */
  function ColorSearch(colors: seq<u32>, rain: bool): Search
  {
    if rain then RainPick(colors) else FireworkPick(colors)
  }

  /** The record after a colour-choice loop: its draws, and a fault if some draw read past the colours. */
  ghost function AfterPick(f: Fx, hw: nat -> u32, rain: bool): (r: Fx)
    requires WellFormed(f) && Fair(hw) && Attainable(ColorSearch(f.colors, rain))
    ensures WellFormed(r)
  {
    var search := ColorSearch(f.colors, rain);
    var k := FirstAccepted(hw, search, f.drawn);
    f.(drawn := k + 1, fault := f.fault || ReadsPastColors(hw, search, f.drawn, k))
  }

  /** The colour a colour-choice loop settles on. */
  ghost function PickedColor(f: Fx, hw: nat -> u32, rain: bool): (c: u32)
    requires WellFormed(f) && Fair(hw) && Attainable(ColorSearch(f.colors, rain))
    ensures c != BLACK
    ensures c in f.colors
  {
    var search := ColorSearch(f.colors, rain);
    var k := FirstAccepted(hw, search, f.drawn);
    PickColor(f.colors, PickIndex(search, hw(k)))
  }

  /** One draw of a colour-choice loop: `colors[i]` for the drawn index `i`, read as black (and an overrun) past the colours. */
  method PickOnce(s: Strip, rng: HwRng, rain: bool) returns (color: u32)
    requires s.Valid()
    modifies s`fault, rng
    ensures var i := PickIndex(ColorSearch(s.colors, rain), rng.hw(old(rng.drawn)));
      && color == PickColor(s.colors, i)
      && s.Abs(rng) == old(s.Abs(rng)).(drawn := old(rng.drawn) + 1, fault := old(s.fault) || i >= 3)
  {
    var i: u8;
    if rain {
      i := Rand8Lim(s, rng, 2);
    } else {
      i := Rand8(s, rng);
    }
    if i < 3 {
      color := s.colors[i];
    } else {
      s.fault := true;
      color := BLACK;
    }
  }

  /**
    The colour-choice loop before the accepted draw `k`, at draw `d`: black
    so far, or exactly past `k` with the colour read there.
   */
  ghost predicate Picking(hw: nat -> u32, search: Search, colors: seq<u32>, k: nat, d: nat, color: u32)
  {
    && d <= k + 1
    && (color == BLACK ==> d <= k)
    && (color != BLACK ==> d == k + 1 && color == PickColor(colors, PickIndex(search, hw(k))))
  }

  /** A rejected draw reads black and the accepted one does not. */
  lemma PickAdvances(hw: nat -> u32, search: Search, colors: seq<u32>, k: nat, d: nat)
    requires search == RainPick(colors) || search == FireworkPick(colors)
    requires d <= k && Accepts(search, hw(k)) && (d < k ==> !Accepts(search, hw(d)))
    ensures Picking(hw, search, colors, k, d + 1, PickColor(colors, PickIndex(search, hw(d))))
  {
  }

  /** The colour-choice loop, up to and including the accepted draw `k`. */
  method PickLoop(s: Strip, rng: HwRng, rain: bool, ghost k: nat) returns (color: u32)
    requires s.Valid()
    requires var search := ColorSearch(s.colors, rain);
      && rng.drawn <= k && Accepts(search, rng.hw(k))
      && forall i :: rng.drawn <= i < k ==> !Accepts(search, rng.hw(i))
    modifies s`fault, rng
    ensures rng.drawn == k + 1
    ensures color == PickColor(s.colors, PickIndex(ColorSearch(s.colors, rain), rng.hw(k)))
    ensures s.fault == (old(s.fault) || ReadsPastColors(rng.hw, ColorSearch(s.colors, rain), old(rng.drawn), k + 1))
  {
    ghost var search := ColorSearch(s.colors, rain);
    ghost var d0 := rng.drawn;
    ghost var fault0 := s.fault;
    color := BLACK;
    while color == BLACK
      invariant d0 <= rng.drawn
      invariant Picking(rng.hw, search, s.colors, k, rng.drawn, color)
      invariant s.fault == (fault0 || ReadsPastColors(rng.hw, search, d0, rng.drawn))
      decreases k + 1 - rng.drawn
    {
      ghost var d := rng.drawn;
      ghost var fb := s.fault;
      color := PickOnce(s, rng, rain);
      assert rng.drawn == d + 1 && s.fault == (fb || PickIndex(search, rng.hw(d)) >= 3);
      PickAdvances(rng.hw, search, s.colors, k, d);
    }
  }

  /** The colour-choice loop: draw an index until the colour there is not black. */
  method PickPaletteColor(s: Strip, rng: HwRng, rain: bool) returns (color: u32)
    requires s.Valid() && rng.Valid() && Attainable(ColorSearch(s.colors, rain))
    modifies s`fault, rng
    ensures color == PickedColor(old(s.Abs(rng)), rng.hw, rain)
    ensures s.Abs(rng) == AfterPick(old(s.Abs(rng)), rng.hw, rain)
  {
    ghost var k := FirstAccepted(rng.hw, ColorSearch(s.colors, rain), rng.drawn);
    color := PickLoop(s, rng, rain, k);
    assert PickIndex(ColorSearch(s.colors, rain), rng.hw(k)) < 3;
  }

  /** `mode_fireworks`: sparks in a non-black colour drawn from `colors[random8()]`. */
  ghost function ModeFireworksFx(f: Fx, hw: nat -> u32, now: u32): (r: Fx)
    requires WellFormed(f) && Fair(hw) && Attainable(FireworkPick(f.colors))
    ensures WellFormed(r)
  {
    FireworksFx(AfterPick(f, hw, false), hw, PickedColor(f, hw, false), now)
  }

  method ModeFireworks(s: Strip, rng: HwRng, now: u32)
    requires s.Valid() && rng.Valid() && Attainable(FireworkPick(s.colors))
    modifies s.leds, s`fault, s`cycle, s`nextTime, rng
    ensures s.Abs(rng) == ModeFireworksFx(old(s.Abs(rng)), rng.hw, now)
  {
    var color := PickPaletteColor(s, rng, false);
    Fireworks(s, rng, color, now);
  }

  /** `colors[random8()]` reads far past the three colours: the draw 3 alone is an out-of-bounds read. */
  lemma FireworksReadsPastColors(f: Fx, hw: nat -> u32)
    requires WellFormed(f) && Fair(hw) && Attainable(FireworkPick(f.colors))
    requires hw(f.drawn) == 3
    ensures AfterPick(f, hw, false).fault
  {
    var k := FirstAccepted(hw, FireworkPick(f.colors), f.drawn);
    assert k != f.drawn;
    PastReadStays(hw, FireworkPick(f.colors), f.drawn, f.drawn + 1, k);
  }

  /** A read past the colours among the first draws stays recorded as more draws follow. */
  lemma {:induction false} PastReadStays(hw: nat -> u32, s: Search, d: nat, j: nat, k: nat)
    requires j <= k && ReadsPastColors(hw, s, d, j)
    ensures ReadsPastColors(hw, s, d, k)
    decreases k - j
  {
    if j < k {
      PastReadStays(hw, s, d, j, k - 1);
    }
  }

  /** Both colour-choice loops end exactly when some colour is not black; with all three black they never return. */
  lemma ColorChoiceEnds(colors: seq<u32>, rain: bool)
    requires |colors| == 3
    ensures Attainable(ColorSearch(colors, rain)) <==> exists i :: 0 <= i < 3 && colors[i] != BLACK
  {
    AttainableCases(ColorSearch(colors, rain));
  }

  ghost function ModeFireworksRandomFx(f: Fx, hw: nat -> u32, now: u32): (r: Fx)
    requires WellFormed(f)
    ensures WellFormed(r)
  {
    FireworksFx(f.(drawn := f.drawn + 1), hw, ColorWheel(Random8(hw(f.drawn))), now)
  }

  /** The random fireworks frame spends one draw on its hue, then runs a fireworks frame in it. */
  lemma FireworksRandomUnfolds(f: Fx, hw: nat -> u32, now: u32)
    requires WellFormed(f)
    ensures ModeFireworksRandomFx(f, hw, now) == FireworksFx(f.(drawn := f.drawn + 1), hw, ColorWheel(Random8(hw(f.drawn))), now)
  {
  }

  method ModeFireworksRandom(s: Strip, rng: HwRng, now: u32)
    requires s.Valid()
    modifies s.leds, s`fault, s`cycle, s`nextTime, rng
    ensures s.Abs(rng) == ModeFireworksRandomFx(old(s.Abs(rng)), rng.hw, now)
  {
    ghost var f0 := s.Abs(rng);
    FireworksRandomUnfolds(f0, rng.hw, now);
    var r := rng.Draw8();
    assert s.Abs(rng) == f0.(drawn := f0.drawn + 1);
    Fireworks(s, rng, ColorWheel(r), now);
  }

  /** The shift of `mode_rain`: `n - 3` pixels (in 16 bits) move two places towards the far end. */
  function RainShift(g: Fx): (r: Fx)
    requires WellFormed(g)
    ensures WellFormed(r)
  {
    var count := ToU16(g.n - 3);
    if Rev(g) then Copied(g, 0, 2, count) else Copied(g, 2, 0, count)
  }

  /** `mode_rain`: a firework in one of the colours, then the strip shifts by two pixels. */
  ghost function ModeRainFx(f: Fx, hw: nat -> u32, now: u32): (r: Fx)
    requires WellFormed(f) && Fair(hw) && Attainable(RainPick(f.colors))
    ensures WellFormed(r)
  {
    RainShift(FireworksFx(AfterPick(f, hw, true), hw, PickedColor(f, hw, true), now))
  }

  method RainShiftStep(s: Strip, rng: HwRng)
    requires s.Valid()
    modifies s.leds, s`fault
    ensures s.Abs(rng) == RainShift(old(s.Abs(rng)))
  {
    if s.Reverse() {
      CopyOrFault(s, rng, 0, 2, ToU16(s.size - 3));
    } else {
      CopyOrFault(s, rng, 2, 0, ToU16(s.size - 3));
    }
  }

  method ModeRain(s: Strip, rng: HwRng, now: u32)
    requires s.Valid() && rng.Valid() && Attainable(RainPick(s.colors))
    modifies s.leds, s`fault, s`cycle, s`nextTime, rng
    ensures s.Abs(rng) == ModeRainFx(old(s.Abs(rng)), rng.hw, now)
  {
    var color := PickPaletteColor(s, rng, true);
    Fireworks(s, rng, color, now);
    RainShiftStep(s, rng);
  }

  /**
    Rain on three or more pixels moves pixel `p` to `p + 2` (to `p - 2` when
    reversed) for the `n - 3` pixels it copies and leaves the last pixel of
    the far end as it was; on fewer pixels the count wraps and the copy overruns.
   */
  lemma RainShifts(g: Fx, rev: bool, p: int)
    requires WellFormed(g) && 0 <= p < g.n
    ensures g.n < 3 ==> Copied(g, if rev then 0 else 2, if rev then 2 else 0, ToU16(g.n - 3)).fault
    ensures g.n >= 3 && !rev ==>
      Copied(g, 2, 0, ToU16(g.n - 3)).view[p] == if 2 <= p < g.n - 1 then g.view[p - 2] else g.view[p]
    ensures g.n >= 3 && rev ==>
      Copied(g, 0, 2, ToU16(g.n - 3)).view[p] == if p < g.n - 3 then g.view[p + 2] else g.view[p]
  {
  }

  // ------------------------------------------------------------ fire flicker

  method ModeFireFlicker(s: Strip, rng: HwRng, now: u32)
    requires s.Valid()
    modifies s.leds, s`fault, s`cycle, s`nextTime, rng
    ensures s.Abs(rng) == FireFlickerFx(old(s.Abs(rng)), rng.hw, 3, now)
  {
    FireFlicker(s, rng, 3, now);
  }

  method ModeFireFlickerSoft(s: Strip, rng: HwRng, now: u32)
    requires s.Valid()
    modifies s.leds, s`fault, s`cycle, s`nextTime, rng
    ensures s.Abs(rng) == FireFlickerFx(old(s.Abs(rng)), rng.hw, 6, now)
  {
    FireFlicker(s, rng, 6, now);
  }

  method ModeFireFlickerIntense(s: Strip, rng: HwRng, now: u32)
    requires s.Valid()
    modifies s.leds, s`fault, s`cycle, s`nextTime, rng
    ensures s.Abs(rng) == FireFlickerFx(old(s.Abs(rng)), rng.hw, 1, now)
  {
    FireFlicker(s, rng, 1, now);
  }

  // ---------------------------------------------------------------- twinkleFOX

  /** The 16-bit generator of twinkleFOX: `seed * 2053 + 13849`. */
  function FoxSeed(seed: u16): u16
  {
    ToU16(seed * 2053 + 13849)
  }

  /** `(seed + (seed >> 8)) & 0xff`: a pixel block's starting blend index. */
  function FoxMix(seed: u16): u8
  {
    (seed + seed / 256) % 256
  }

  /** `(((seed + (seed >> 8)) & 0x07) + 1) * 2`: a pixel block's blend speed, one of 2, 4, ..., 16. */
  function FoxIncrement(seed: u16): (r: int)
    ensures 2 <= r <= 16 && r % 2 == 0
  {
    ((seed + seed / 256) % 8 + 1) * 2
  }

  /**
    The pair a block blends: a random hue with the second colour when the
    first colour is black; the third with the second when the third is not
    black and the block's index is at least 128; else the first with the second.
   */
  function FoxColor(c0: u32, c1: u32, c2: u32, init: u8, amt: u8): u32
  {
    if c0 == BLACK then ColorBlend(ColorWheel(init), c1, amt)
    else if c2 != BLACK && init >= 128 then ColorBlend(c2, c1, amt)
    else ColorBlend(c0, c1, amt)
  }

  /** The colour of the block whose two seeds are `s1` and `s2`, at call `calls`. */
  function FoxBlockColor(colors: seq<u32>, calls: u32, sine8: u8 -> u8, s1: u16, s2: u16): u32
    requires |colors| == 3
  {
    var init := FoxMix(s1);
    FoxColor(colors[0], colors[1], colors[2], init, sine8(ToU8(init + calls * FoxIncrement(s2))))
  }

  /** The blend of every block of one frame, as a function of the block's two seeds. */
  function FoxBlends(colors: seq<u32>, calls: u32, sine8: u8 -> u8): (u16, u16) -> u32
    requires |colors| == 3
  {
    (s1: u16, s2: u16) => FoxBlockColor(colors, calls, sine8, s1, s2)
  }

  /** The block loop of twinkleFOX from pixel `i` with generator state `seed`, painting each block with `blend`. */
  function FoxFrom(g: Fx, blend: (u16, u16) -> u32, sz: int, seed: u16, i: nat): (r: Fx)
    requires WellFormed(g) && sz >= 1
    ensures WellFormed(r) && r.n == g.n && r.ch == g.ch && r.colors == g.colors && r.calls == g.calls
    decreases g.n - i
  {
    if i > g.n - 1 then g
    else
      var s1 := FoxSeed(seed);
      var s2 := FoxSeed(s1);
      FoxFrom(WithOp(g, FillOp(blend(s1, s2), i, sz)), blend, sz, s2, i + sz)
  }

  /** `twinkleFOX`: the generator restarts at 0 every call, so each frame is a function of the call counter. */
  function ModeTwinkleFoxFx(f: Fx, sine8: u8 -> u8, now: u32): (r: Fx)
    requires WellFormed(f)
    ensures WellFormed(r)
  {
    Finished(FoxFrom(f, FoxBlends(f.colors, f.calls, sine8), BlockOf(f), 0, 0), now, f.speed / 32)
  }

  /** `for (j = 0; j < size; j++) if (i + j < n) setPixelColor_2(i + j, color)` */
  method FoxPixels(s: Strip, rng: HwRng, color: u32, i: u16, size: u16)
    requires s.Valid() && i < s.size && 1 <= size <= 8
    modifies s.leds, s`fault
    ensures s.Abs(rng) == WithOp(old(s.Abs(rng)), FillOp(color, i, size))
  {
    ghost var f0 := s.Abs(rng);
    var j: u16 := 0;
    while j < size
      invariant j <= size
      invariant s.Abs(rng) == f0.(view := PutRange(f0.view, color, i, Min(i + j, s.size), s.channels))
    {
      var address := ToU16(i + j);
      if address < s.size {
        PutPixel(s, rng, address, color);
      }
      j := j + 1;
    }
  }

  /** The blend of one twinkleFOX block from the colours, the call counter and the generator state before the block. */
  method FoxBlend(c0: u32, c1: u32, c2: u32, calls: u32, sine8: u8 -> u8, seed: u16) returns (color: u32, seed': u16)
    ensures seed' == FoxSeed(FoxSeed(seed))
    ensures var init := FoxMix(FoxSeed(seed));
      color == FoxColor(c0, c1, c2, init, sine8(ToU8(init + calls * FoxIncrement(seed'))))
  {
    seed' := FoxSeed(seed);
    var init: u8 := (seed' + seed' / 256) % 256;
    seed' := FoxSeed(seed');
    var incr := ((seed' + seed' / 256) % 8 + 1) * 2;
    var blendIndex := ToU8(init + calls * incr);
    var amt := sine8(blendIndex);
    if c0 == BLACK {
      color := ColorBlend(ColorWheel(init), c1, amt);
    } else if c2 != BLACK && (init < 128) == false {
      color := ColorBlend(c2, c1, amt);
    } else {
      color := ColorBlend(c0, c1, amt);
    }
  }

  /** One block of twinkleFOX: two generator steps, the blend, and the block's pixels. */
  method FoxBlock(s: Strip, rng: HwRng, sine8: u8 -> u8, size: u16, seed: u16, i: u16) returns (seed': u16)
    requires s.Valid() && i < s.size && 1 <= size <= 8
    modifies s.leds, s`fault
    ensures seed' == FoxSeed(FoxSeed(seed))
    ensures s.Abs(rng) == WithOp(old(s.Abs(rng)), FillOp(FoxBlockColor(s.colors, s.calls, sine8, FoxSeed(seed), seed'), i, size))
  {
    var color;
    color, seed' := FoxBlend(s.colors[0], s.colors[1], s.colors[2], s.calls, sine8, seed);
    FoxPixels(s, rng, color, i, size);
  }

  method FoxLoop(s: Strip, rng: HwRng, sine8: u8 -> u8, size: u16)
    requires s.Valid() && 1 <= size <= 8
    modifies s.leds, s`fault
    ensures s.Abs(rng) == FoxFrom(old(s.Abs(rng)), FoxBlends(s.colors, s.calls, sine8), size, 0, 0)
  {
    ghost var f0 := s.Abs(rng);
    ghost var blend := FoxBlends(s.colors, s.calls, sine8);
    ghost var target := FoxFrom(f0, blend, size, 0, 0);
    var seed: u16 := 0;
    var i: u16 := 0;
    while i <= s.size - 1
      invariant i <= s.size + 8
      invariant s.colors == f0.colors && s.calls == f0.calls
      invariant FoxFrom(s.Abs(rng), blend, size, seed, i) == target
      decreases s.size - i
    {
      ghost var g := s.Abs(rng);
      ghost var s1 := FoxSeed(seed);
      seed := FoxBlock(s, rng, sine8, size, seed, i);
      assert blend(s1, seed) == FoxBlockColor(s.colors, s.calls, sine8, s1, seed);
      i := i + size;
    }
  }

  method ModeTwinkleFox(s: Strip, rng: HwRng, sine8: u8 -> u8, now: u32)
    requires s.Valid()
    modifies s.leds, s`fault, s`cycle, s`nextTime
    ensures s.Abs(rng) == ModeTwinkleFoxFx(old(s.Abs(rng)), sine8, now)
  {
    var size: u16 := Block(s.SizeOption());
    FoxLoop(s, rng, sine8, size);
    Finish(s, rng, now, s.speed / 32);
  }

  /** The generator state at the start of the block holding pixel `p`, when the loop is at pixel `i` with state `seed`. */
  function SeedFor(seed: u16, i: int, sz: int, p: int): u16
    requires sz >= 1
    decreases p - i
  {
    if p < i + sz then seed else SeedFor(FoxSeed(FoxSeed(seed)), i + sz, sz, p)
  }

  /** One block fill from `i` paints pixel `p` exactly when `i <= p < i + sz`, and never faults. */
  lemma FoxFillAt(g: Fx, c: u32, i: nat, sz: int, p: int)
    requires WellFormed(g) && sz >= 1 && 0 <= p < g.n
    ensures WithOp(g, FillOp(c, i, sz)).view[p] == if i <= p < i + sz then Stored(c, g.ch) else g.view[p]
    ensures WithOp(g, FillOp(c, i, sz)).fault == g.fault
  {
    FillViewExactly(g.view, c, i, sz, g.ch, p);
  }

  /**
    The block loop from `i` leaves the pixels before `i` alone, paints pixel
    `p >= i` with the blend of the two seeds that follow the generator state
    of its block, and never writes past the strip.
   */
  lemma {:induction false} FoxFromAt(g: Fx, blend: (u16, u16) -> u32, sz: int, seed: u16, i: nat, p: int)
    requires WellFormed(g) && sz >= 1 && 0 <= p < g.n
    ensures p < i ==> FoxFrom(g, blend, sz, seed, i).view[p] == g.view[p]
    ensures i <= p ==> var t := SeedFor(seed, i, sz, p);
      FoxFrom(g, blend, sz, seed, i).view[p] == Stored(blend(FoxSeed(t), FoxSeed(FoxSeed(t))), g.ch)
    ensures FoxFrom(g, blend, sz, seed, i).fault == g.fault
    decreases g.n - i
  {
    if i <= g.n - 1 {
      var s1 := FoxSeed(seed);
      var s2 := FoxSeed(s1);
      var h := WithOp(g, FillOp(blend(s1, s2), i, sz));
      FoxFromAt(h, blend, sz, s2, i + sz, p);
      FoxFillAt(g, blend(s1, s2), i, sz, p);
    }
  }

  /** The generator state after `m` steps from `seed`. */
  function Seeds(seed: u16, m: nat): u16
    decreases m
  {
    if m == 0 then seed else Seeds(FoxSeed(seed), m - 1)
  }

  /** The block of pixel `p` starts after `2 * (p - i) / sz` more generator steps. */
  lemma {:induction false} SeedForCounts(seed: u16, i: int, sz: int, p: int)
    requires sz >= 1 && i <= p
    ensures SeedFor(seed, i, sz, p) == Seeds(seed, 2 * Quot(p - i, sz))
    decreases p - i
  {
    if p >= i + sz {
      SeedForCounts(FoxSeed(FoxSeed(seed)), i + sz, sz, p);
      assert Quot(p - i, sz) == 1 + Quot(p - i - sz, sz);
      var m := 2 * Quot(p - i - sz, sz);
      assert Seeds(seed, m + 2) == Seeds(FoxSeed(seed), m + 1);
    }
  }

  /**
    Pixel `p` of a twinkleFOX frame shows the blend of the two seeds that
    follow the generator state of its block, the generator having restarted
    at 0; nothing is written past the strip. `SeedForCounts` gives that state
    in closed form: `2 * (p / size)` steps after 0.
   */
  lemma TwinkleFoxPixel(f: Fx, sine8: u8 -> u8, now: u32, p: int)
    requires WellFormed(f) && 0 <= p < f.n
    ensures var t := SeedFor(0, 0, BlockOf(f), p);
      ModeTwinkleFoxFx(f, sine8, now).view[p] == Stored(FoxBlockColor(f.colors, f.calls, sine8, FoxSeed(t), FoxSeed(FoxSeed(t))), f.ch)
    ensures ModeTwinkleFoxFx(f, sine8, now).fault == f.fault
  {
    var blend := FoxBlends(f.colors, f.calls, sine8);
    FoxFromAt(f, blend, BlockOf(f), 0, 0, p);
    var t := SeedFor(0, 0, BlockOf(f), p);
    assert blend(FoxSeed(t), FoxSeed(FoxSeed(t))) == FoxBlockColor(f.colors, f.calls, sine8, FoxSeed(t), FoxSeed(FoxSeed(t)));
  }

  /** One more step at the end of `m` steps. */
  lemma {:induction false} SeedsLast(seed: u16, m: nat)
    ensures Seeds(seed, m + 1) == FoxSeed(Seeds(seed, m))
    decreases m
  {
    if m > 0 {
      SeedsLast(FoxSeed(seed), m - 1);
    }
  }

  /** The block loop paints the pixels from `i` on the same way whatever they showed before. */
  lemma FoxFromForgets(f: Fx, g: Fx, blend: (u16, u16) -> u32, sz: int, seed: u16, i: nat, p: int)
    requires WellFormed(f) && WellFormed(g) && sz >= 1 && i <= p < f.n
    requires f.n == g.n && f.ch == g.ch
    ensures FoxFrom(f, blend, sz, seed, i).view[p] == FoxFrom(g, blend, sz, seed, i).view[p]
  {
    FoxFromAt(f, blend, sz, seed, i, p);
    FoxFromAt(g, blend, sz, seed, i, p);
  }

  /** A twinkleFOX frame does not depend on the previous frame: two strips with the same settings and call count show the same pixels. */
  lemma TwinkleFoxIsStateless(f: Fx, g: Fx, sine8: u8 -> u8, now: u32, p: int)
    requires WellFormed(f) && WellFormed(g) && 0 <= p < f.n
    requires f.n == g.n && f.ch == g.ch && f.colors == g.colors && f.calls == g.calls && f.options == g.options
    ensures ModeTwinkleFoxFx(f, sine8, now).view[p] == ModeTwinkleFoxFx(g, sine8, now).view[p]
  {
    FoxFromForgets(f, g, FoxBlends(f.colors, f.calls, sine8), BlockOf(f), 0, 0, p);
  }
}
