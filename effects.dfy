/**
  The twelve effect helpers of the engine. Each helper is specified by a
  function on the abstract record (`Fx`) and implemented by a method on the
  strip that follows the firmware's code; the method's contract ties the new
  record to the function of the old one. The pixel changes of a frame are
  written as the list of pixel writes and fills (`Op`) the helper issues, in
  order; the lemmas of each section say what those writes leave on the strip.
 */
module Effects {
  import opened Ints
  import opened Color
  import opened Pixels
  import opened Entropy
  import opened FxState

  // ------------------------------------------------------------ common terms

  /** `1 << so` for the 2-bit size option. */
  function Block(so: int): (r: int)
    requires 0 <= so <= 3
    ensures 1 <= r <= 8
  {
    if so == 0 then 1 else if so == 1 then 2 else if so == 2 then 4 else 8
  }

  predicate Rev(f: Fx) { IsReverse(f.options) }

  /** `1 << SIZE_OPTION` */
  function BlockOf(f: Fx): (r: int)
    ensures 1 <= r <= 8
  {
    Block(SizeOptionOf(f.options))
  }

  /** `set_next_time(delay)` at the clock reading `now`. */
  function Later(now: u32, delay: int): u32
  {
    ToU32(now + delay)
  }

  /** The record after one pixel write or fill. */
  function WithOp(f: Fx, op: Op): (r: Fx)
    requires WellFormed(f)
    ensures WellFormed(r)
  {
    f.(view := ApplyOp(f.view, op, f.ch), fault := f.fault || OpFaults(op, f.n))
  }

  /** The record after the fade step of `WS2812FX_fade_out`. */
  function Faded(f: Fx): (r: Fx)
    requires WellFormed(f)
    ensures WellFormed(r)
  {
    f.(view := FadeView(f.view, f.colors[1], FadeRateOf(f.options), f.ch))
  }

  /**
    The end of a tricolor or running frame: the counter goes up by one in 32
    bits, a cycle is flagged when it is a multiple of `n`, and the next frame
    is due after `speed / 16`.
   */
  function CountFrame(f: Fx, now: u32): (r: Fx)
    requires WellFormed(f)
    ensures WellFormed(r)
  {
    var s1 := ToU32(f.step + 1);
    f.(step := s1, cycle := f.cycle || Rem(s1, f.n) == 0, nextTime := Later(now, f.speed / 16))
  }

  /** The counter only wraps at the top of the 32-bit range; below it the cycle flag means `n` divides the new count. */
  lemma CountFrameCycles(f: Fx, now: u32)
    requires WellFormed(f) && f.step < 0xFFFF_FFFF
    ensures CountFrame(f, now).step == f.step + 1
    ensures CountFrame(f, now).cycle == (f.cycle || (f.step + 1) % f.n == 0)
  {
    QuotRemIsDivMod(f.step + 1, f.n);
  }

  /** Pixel `i` painted with the colour `paint` gives for the next random draw. */
  ghost function DrawnPixel(g: Fx, paint: nat -> u32, i: int): (r: Fx)
    requires WellFormed(g)
    ensures WellFormed(r) && r.n == g.n && r.ch == g.ch
  {
    WithOp(g, SetOp(i, paint(g.drawn))).(drawn := g.drawn + 1)
  }

  /** The first `k` pixels, each painted from its own draw. */
  ghost function DrawnPixels(f: Fx, paint: nat -> u32, k: nat): (r: Fx)
    requires WellFormed(f)
    ensures WellFormed(r) && r.n == f.n && r.ch == f.ch
  {
    if k == 0 then f else DrawnPixel(DrawnPixels(f, paint, k - 1), paint, k - 1)
  }

  /** After `k` pixels, pixel `p < k` shows the colour painted for draw `p` of the frame; the rest are unchanged. */
  lemma {:induction false} DrawnPixelsAt(f: Fx, paint: nat -> u32, k: nat, p: int)
    requires WellFormed(f) && k <= f.n && 0 <= p < f.n
    ensures DrawnPixels(f, paint, k).view[p] == if p < k then Stored(paint(f.drawn + p), f.ch) else f.view[p]
    ensures DrawnPixels(f, paint, k).fault == f.fault
    ensures DrawnPixels(f, paint, k).drawn == f.drawn + k
    decreases k
  {
    if k > 0 {
      DrawnPixelsAt(f, paint, k - 1, p);
    }
  }

  // ------------------------------------------- primitives on the record

  /** `WS2812FX_setPixelColor_2(addr, c)`, as a step of the record. */
  method PutPixel(s: Strip, rng: HwRng, addr: u16, c: u32)
    requires s.Valid()
    modifies s.leds, s`fault
    ensures s.Abs(rng) == WithOp(old(s.Abs(rng)), SetOp(addr, c))
  {
    s.SetPixel(addr, c);
  }

  /** `WS2812FX_setPixelColor_5(addr, r, g, b, w)`, as a step of the record. */
  method PutPixel5(s: Strip, rng: HwRng, addr: u16, r: u8, g: u8, b: u8, w: u8)
    requires s.Valid()
    modifies s.leds, s`fault
    ensures s.Abs(rng) == WithOp(old(s.Abs(rng)), SetOp(addr, Pack(w, r, g, b)))
  {
    s.SetPixel5(addr, r, g, b, w);
  }

  /** `WS2812FX_fill(c, first, count)`, as a step of the record. */
  method PutFill(s: Strip, rng: HwRng, c: u32, first: u16, count: u16)
    requires s.Valid()
    modifies s.leds, s`fault
    ensures s.Abs(rng) == WithOp(old(s.Abs(rng)), FillOp(c, first, count))
  {
    s.Fill(c, first, count);
  }

  /** `WS2812FX_copyPixels(dest, src, count)` for ranges inside the strip. */
  method MovePixels(s: Strip, rng: HwRng, dest: u16, src: u16, count: u16)
    requires s.Valid() && dest + count <= s.size && src + count <= s.size
    modifies s.leds, s`fault
    ensures s.Abs(rng) == old(s.Abs(rng)).(view := MoveView(old(s.View()), dest, src, count))
  {
    s.CopyPixels(dest, src, count);
  }

  /** `WS2812FX_fade_out()`, as a step of the record. */
  method Fade(s: Strip, rng: HwRng)
    requires s.Valid()
    modifies s.leds, s`fault
    ensures s.Abs(rng) == Faded(old(s.Abs(rng)))
  {
    s.FadeOut();
  }

  method SetStep(s: Strip, rng: HwRng, x: u32)
    requires s.Valid()
    modifies s`step
    ensures s.Abs(rng) == old(s.Abs(rng)).(step := x)
  {
    s.step := x;
  }

  method SetAux(s: Strip, rng: HwRng, x: u8)
    requires s.Valid()
    modifies s`auxParam
    ensures s.Abs(rng) == old(s.Abs(rng)).(aux := x)
  {
    s.auxParam := x;
  }

  method SetAux3(s: Strip, rng: HwRng, x: u16)
    requires s.Valid()
    modifies s`auxParam3
    ensures s.Abs(rng) == old(s.Abs(rng)).(aux3 := x)
  {
    s.auxParam3 := x;
  }

  /** `SET_CYCLE` */
  method SetCycle(s: Strip, rng: HwRng)
    requires s.Valid()
    modifies s`cycle
    ensures s.Abs(rng) == old(s.Abs(rng)).(cycle := true)
  {
    s.cycle := true;
  }

  /** `set_next_time(delay)` at the clock reading `now`. */
  method SetNext(s: Strip, rng: HwRng, now: u32, delay: u32)
    requires s.Valid()
    modifies s`nextTime
    ensures s.Abs(rng) == old(s.Abs(rng)).(nextTime := Later(now, delay))
  {
    s.SetNextTime(now, delay);
  }

  /** The counter update that ends a tricolor or running frame. */
  method CountOn(s: Strip, rng: HwRng, now: u32)
    requires s.Valid()
    modifies s`step, s`cycle, s`nextTime
    ensures s.Abs(rng) == CountFrame(old(s.Abs(rng)), now)
  {
    SetStep(s, rng, ToU32(s.step + 1));
    if Rem(s.step, s.size) == 0 {
      SetCycle(s, rng);
    }
    SetNext(s, rng, now, s.speed / 16);
  }

  /** `WS2812FX_random(min, max)` for `min < max`. */
  method RandRange(s: Strip, rng: HwRng, min: u32, max: u32) returns (r: u32)
    requires s.Valid() && min < max && !(min == 0 && max == 0xFFFF_FFFF)
    modifies rng
    ensures r == Uniform(rng.hw(old(rng.drawn)), min, max)
    ensures s.Abs(rng) == old(s.Abs(rng)).(drawn := old(rng.drawn) + 1)
  {
    r := rng.DrawRange(min, max);
  }

  /** `WS2812FX_random8()` */
  method Rand8(s: Strip, rng: HwRng) returns (r: u8)
    requires s.Valid()
    modifies rng
    ensures r == Random8(rng.hw(old(rng.drawn)))
    ensures s.Abs(rng) == old(s.Abs(rng)).(drawn := old(rng.drawn) + 1)
  {
    r := rng.Draw8();
  }

  /** `WS2812FX_random8_lim(lim)` */
  method Rand8Lim(s: Strip, rng: HwRng, lim: u8) returns (r: u8)
    requires s.Valid()
    modifies rng
    ensures r == Random8Lim(rng.hw(old(rng.drawn)), lim)
    ensures s.Abs(rng) == old(s.Abs(rng)).(drawn := old(rng.drawn) + 1)
  {
    r := rng.Draw8Lim(lim);
  }

  /** `WS2812FX_random16_lim(lim)` */
  method Rand16Lim(s: Strip, rng: HwRng, lim: u16) returns (r: u16)
    requires s.Valid()
    modifies rng
    ensures r == Random16Lim(rng.hw(old(rng.drawn)), lim)
    ensures s.Abs(rng) == old(s.Abs(rng)).(drawn := old(rng.drawn) + 1)
  {
    r := rng.Draw16Lim(lim);
  }

  /** `WS2812FX_get_random_wheel_index(pos)` */
  method RandWheel(s: Strip, rng: HwRng, pos: u8) returns (r: u8)
    requires s.Valid() && rng.Valid()
    modifies rng
    ensures r == Random8(rng.hw(FirstAccepted(rng.hw, WheelFar(pos), old(rng.drawn))))
    ensures s.Abs(rng) == old(s.Abs(rng)).(drawn := FirstAccepted(rng.hw, WheelFar(pos), old(rng.drawn)) + 1)
    ensures WheelDistance(pos, r) >= 42
  {
    r := rng.DrawWheelIndex(pos);
  }

  // ------------------------------------------------------------------ blink

  /** The colour of one blink frame: odd calls show the "off" colour. */
  function BlinkColor(f: Fx, c1: u32, c2: u32): u32
  {
    if f.calls % 2 == 1 then (if Rev(f) then c1 else c2) else (if Rev(f) then c2 else c1)
  }

  /** The delay one blink frame returns; strobe computes `speed - 20` in 16 bits. */
  function BlinkDelay(f: Fx, strobe: bool): u16
  {
    if f.calls % 2 == 1 then (if strobe then ToU16(f.speed - 20) else f.speed / 2)
    else (if strobe then 20 else f.speed / 2)
  }

  function BlinkFx(f: Fx, c1: u32, c2: u32): (r: Fx)
    requires WellFormed(f)
    ensures WellFormed(r)
  {
    WithOp(f, FillOp(BlinkColor(f, c1, c2), 0, f.n)).(cycle := f.cycle || f.calls % 2 == 1)
  }

  /** `WS2812FX_blink(color1, color2, strobe)` */
  method Blink(s: Strip, rng: HwRng, c1: u32, c2: u32, strobe: bool) returns (delay: u16)
    requires s.Valid()
    modifies s.leds, s`fault, s`cycle
    ensures s.Abs(rng) == BlinkFx(old(s.Abs(rng)), c1, c2)
    ensures delay == BlinkDelay(old(s.Abs(rng)), strobe)
  {
    if s.calls % 2 == 1 {
      var color := if s.Reverse() then c1 else c2;
      PutFill(s, rng, color, 0, s.size);
      SetCycle(s, rng);
      delay := if strobe then ToU16(s.speed - 20) else s.speed / 2;
    } else {
      var color := if s.Reverse() then c2 else c1;
      PutFill(s, rng, color, 0, s.size);
      delay := if strobe then 20 else s.speed / 2;
    }
  }

  /**
    Every blink frame paints the whole strip in one colour without a fault,
    and consecutive frames swap the two colours.
   */
  lemma BlinkPaintsStrip(f: Fx, c1: u32, c2: u32)
    requires WellFormed(f) && f.calls < 0xFFFF_FFFF
    ensures BlinkFx(f, c1, c2).view == Solid(f.n, BlinkColor(f, c1, c2), f.ch)
    ensures BlinkFx(f, c1, c2).fault == f.fault
    ensures BlinkColor(f.(calls := f.calls + 1), c1, c2) == BlinkColor(f, c2, c1)
  {
    FillWholeStrip(f.view, BlinkColor(f, c1, c2), f.ch);
  }

  /** The strobe's "off" delay wraps around below 20 ms: `speed - 20` is taken modulo 2^16. */
  lemma StrobeDelayWraps(f: Fx)
    requires f.calls % 2 == 1
    ensures f.speed >= 20 ==> BlinkDelay(f, true) == f.speed - 20
    ensures f.speed < 20 ==> BlinkDelay(f, true) == f.speed - 20 + 0x1_0000 && BlinkDelay(f, true) > 65000
  {
  }

  // ------------------------------------------------------------- color wipe

  /** The pixel one wipe frame writes: the first half paints forward (or from `n` down), the second as `rev` says. */
  function WipeIndex(f: Fx, rev: bool): u16
  {
    if f.step < f.n then (if Rev(f) then ToU16(f.n - f.step) else ToU16(f.step))
    else
      var off := f.step - f.n;
      if Rev(f) != rev then ToU16(f.n - off) else ToU16(off)
  }

  /** The wipe counter after one frame. */
  function WipeStep(step: u32, n: int): (r: u32)
    requires n >= 1
    ensures r < 2 * n
  {
    Rem(ToU32(step + 1), 2 * n)
  }

  function WipeOp(f: Fx, c1: u32, c2: u32, rev: bool): Op
  {
    SetOp(WipeIndex(f, rev), if f.step < f.n then c1 else c2)
  }

  function ColorWipeFx(f: Fx, c1: u32, c2: u32, rev: bool): (r: Fx)
    requires WellFormed(f)
    ensures WellFormed(r)
  {
    var s1 := WipeStep(f.step, f.n);
    WithOp(f, WipeOp(f, c1, c2, rev)).(step := s1, cycle := f.cycle || s1 == 0)
  }

  function WipeDelay(f: Fx): int
    requires f.n >= 1
  {
    Quot(f.speed, 2 * f.n)
  }

  /** The pixel write of `WS2812FX_color_wipe`. */
  method WipeWrite(s: Strip, rng: HwRng, c1: u32, c2: u32, rev: bool)
    requires s.Valid()
    modifies s.leds, s`fault
    ensures s.Abs(rng) == WithOp(old(s.Abs(rng)), WipeOp(old(s.Abs(rng)), c1, c2, rev))
  {
    if s.step < s.size {
      var offset := s.step;
      if s.Reverse() {
        PutPixel(s, rng, ToU16(s.size - offset), c1);
      } else {
        PutPixel(s, rng, ToU16(offset), c1);
      }
    } else {
      var offset := s.step - s.size;
      if (s.Reverse() && !rev) || (!s.Reverse() && rev) {
        PutPixel(s, rng, ToU16(s.size - offset), c2);
      } else {
        PutPixel(s, rng, ToU16(offset), c2);
      }
    }
  }

  /** `WS2812FX_color_wipe(color1, color2, rev)` */
  method ColorWipe(s: Strip, rng: HwRng, c1: u32, c2: u32, rev: bool) returns (delay: u16)
    requires s.Valid()
    modifies s.leds, s`fault, s`step, s`cycle
    ensures s.Abs(rng) == ColorWipeFx(old(s.Abs(rng)), c1, c2, rev)
    ensures delay == WipeDelay(old(s.Abs(rng)))
  {
    WipeWrite(s, rng, c1, c2, rev);
    SetStep(s, rng, WipeStep(s.step, s.size));
    if s.step == 0 {
      SetCycle(s, rng);
    }
    delay := Quot(s.speed, s.size * 2);
  }

  /**
    The wipe counter runs through `[0, 2n)`: it goes up by one and wraps to 0
    after `2n - 1`, which is exactly when a cycle is flagged.
   */
  lemma WipeCounterCycles(f: Fx, c1: u32, c2: u32, rev: bool)
    requires WellFormed(f) && f.step < 2 * f.n
    ensures ColorWipeFx(f, c1, c2, rev).step == if f.step == 2 * f.n - 1 then 0 else f.step + 1
    ensures ColorWipeFx(f, c1, c2, rev).cycle == (f.cycle || f.step == 2 * f.n - 1)
  {
    QuotRemIsDivMod(f.step + 1, 2 * f.n);
  }

  /** Reversed, the first frame of a wipe writes pixel `n`, one past the strip. */
  lemma ReverseWipeOverruns(f: Fx, c1: u32, c2: u32, rev: bool)
    requires WellFormed(f) && Rev(f) && f.step == 0
    ensures WipeIndex(f, rev) == f.n
    ensures ColorWipeFx(f, c1, c2, rev).fault
  {
  }

  // ------------------------------------------------------------------- scan

  /** Iteration `i` of the scan loop: the mirrored pixel when reversed or dual, the direct one unless reversed. */
  function ScanIter(g: Fx, c1: u32, dual: bool, rev: bool, step: u32, i: int): (r: Fx)
    requires WellFormed(g)
    ensures WellFormed(r)
  {
    var g1 := if rev || dual then WithOp(g, SetOp(ToU16(g.n - step - i), c1)) else g;
    if !rev || dual then WithOp(g1, SetOp(ToU16(step + i), c1)) else g1
  }

  /** The background fill and the first `k` iterations of the scan loop. */
  function ScanUpTo(f: Fx, c1: u32, c2: u32, dual: bool, rev: bool, step: u32, k: nat): (r: Fx)
    requires WellFormed(f)
    ensures WellFormed(r) && r.n == f.n && r.ch == f.ch
  {
    if k == 0 then WithOp(f, FillOp(c2, 0, f.n))
    else ScanIter(ScanUpTo(f, c1, c2, dual, rev, step, k - 1), c1, dual, rev, step, k - 1)
  }

  /** The scan counter moves by one in the direction `aux` holds; reaching 0 turns it up, reaching `n - size` turns it down. */
  function ScanMove(f: Fx, sz: int, now: u32): (r: Fx)
    requires WellFormed(f)
    ensures WellFormed(r)
  {
    var s1 := ScanCounter(f.step, f.aux);
    var a1 := if s1 == 0 then 0 else f.aux;
    f.(step := s1, aux := if s1 >= ToU16(f.n - sz) then 1 else a1, cycle := f.cycle || s1 == 0,
       nextTime := Later(now, Quot(f.speed, f.n * 2)))
  }

  /** `step + dir` in 32 bits, with `dir = -1` while `aux` is set. */
  function ScanCounter(step: u32, aux: u8): u32
  {
    ToU32(step + (if aux != 0 then -1 else 1))
  }

  function ScanFx(f: Fx, c1: u32, c2: u32, dual: bool, now: u32): (r: Fx)
    requires WellFormed(f)
    ensures WellFormed(r)
  {
    var sz := BlockOf(f);
    if sz > f.n then f else ScanMove(ScanUpTo(f, c1, c2, dual, Rev(f), f.step, sz), sz, now)
  }

  /** One iteration of the scan loop. */
  method ScanIteration(s: Strip, rng: HwRng, c1: u32, dual: bool, rev: bool, step: u32, i: nat)
    requires s.Valid()
    modifies s.leds, s`fault
    ensures s.Abs(rng) == ScanIter(old(s.Abs(rng)), c1, dual, rev, step, i)
  {
    if rev || dual {
      PutPixel(s, rng, ToU16(s.size - step - i), c1);
    }
    if !rev || dual {
      PutPixel(s, rng, ToU16(step + i), c1);
    }
  }

  /** The painting part of `WS2812FX_scan`: background, then the `size` pixels of the bar. */
  method ScanPaint(s: Strip, rng: HwRng, c1: u32, c2: u32, dual: bool, rev: bool, size: nat)
    requires s.Valid()
    modifies s.leds, s`fault
    ensures s.Abs(rng) == ScanUpTo(old(s.Abs(rng)), c1, c2, dual, rev, old(s.step), size)
  {
    ghost var f0 := s.Abs(rng);
    var step := s.step;
    PutFill(s, rng, c2, 0, s.size);
    var i := 0;
    while i < size
      invariant 0 <= i <= size
      invariant s.Abs(rng) == ScanUpTo(f0, c1, c2, dual, rev, step, i)
      modifies s.leds, s`fault
    {
      ScanIteration(s, rng, c1, dual, rev, step, i);
      i := i + 1;
    }
  }

  /** The counter update of `WS2812FX_scan`. */
  method ScanAdvance(s: Strip, rng: HwRng, size: int, now: u32)
    requires s.Valid()
    modifies s`step, s`auxParam, s`cycle, s`nextTime
    ensures s.Abs(rng) == ScanMove(old(s.Abs(rng)), size, now)
  {
    SetStep(s, rng, ScanCounter(s.step, s.auxParam));
    if s.step == 0 {
      SetAux(s, rng, 0);
      SetCycle(s, rng);
    }
    if s.step >= ToU16(s.size - size) {
      SetAux(s, rng, 1);
    }
    SetNext(s, rng, now, Quot(s.speed, s.size * 2));
  }

  /** `WS2812FX_scan(color1, color2, dual)` */
  method Scan(s: Strip, rng: HwRng, c1: u32, c2: u32, dual: bool, now: u32)
    requires s.Valid()
    modifies s.leds, s`fault, s`step, s`auxParam, s`cycle, s`nextTime
    ensures s.Abs(rng) == ScanFx(old(s.Abs(rng)), c1, c2, dual, now)
  {
    var size := Block(s.SizeOption());
    if size > s.size {
      return;
    }
    ScanPaint(s, rng, c1, c2, dual, s.Reverse(), size);
    ScanAdvance(s, rng, size, now);
  }

  /** Going up, the counter rises by one and keeps its direction below `n - size`. */
  lemma ScanBouncesUp(f: Fx, sz: int, now: u32)
    requires WellFormed(f) && f.aux == 0 && 1 <= sz <= f.n && f.step + 1 < f.n - sz
    ensures ScanMove(f, sz, now).step == f.step + 1 && ScanMove(f, sz, now).aux == 0
  {
  }

  /** Reaching `n - size` turns the counter down. */
  lemma ScanTurnsDown(f: Fx, sz: int, now: u32)
    requires WellFormed(f) && f.aux == 0 && 1 <= sz <= f.n && f.step + 1 == f.n - sz
    ensures ScanMove(f, sz, now).step == f.n - sz && ScanMove(f, sz, now).aux == 1
  {
  }

  /** Going down, the counter falls by one; reaching 0 turns it up and flags a cycle. */
  lemma ScanBouncesDown(f: Fx, sz: int, now: u32)
    requires WellFormed(f) && f.aux != 0 && 1 <= sz < f.n && 1 <= f.step <= f.n - sz
    ensures ScanMove(f, sz, now).step == f.step - 1
    ensures f.step == 1 ==> ScanMove(f, sz, now).aux == 0 && ScanMove(f, sz, now).cycle
    ensures f.step > 1 ==> ScanMove(f, sz, now).aux == f.aux && ScanMove(f, sz, now).cycle == f.cycle
  {
  }

  /** The pixels lit by the first `k` scan iterations: `[step, step + k)` unless reversed, `(n - step - k, n - step]` when reversed or dual. */
  predicate ScanLit(n: int, dual: bool, rev: bool, step: u32, k: nat, p: int)
  {
    || ((!rev || dual) && step <= p < step + k)
    || ((rev || dual) && n - step - k < p <= n - step)
  }

  /**
    With the bars inside the strip (the counter at least 1 when a mirrored
    bar is drawn), the first `k` iterations light the `ScanLit` pixels in
    the bar colour over the background, without a fault.
   */
  lemma {:induction false} ScanPaintsBar(f: Fx, c1: u32, c2: u32, dual: bool, rev: bool, step: u32, k: nat, p: int)
    requires WellFormed(f) && step + k <= f.n && ((rev || dual) ==> 1 <= step) && 0 <= p < f.n
    ensures ScanUpTo(f, c1, c2, dual, rev, step, k).view[p] == Stored(if ScanLit(f.n, dual, rev, step, k, p) then c1 else c2, f.ch)
    ensures ScanUpTo(f, c1, c2, dual, rev, step, k).fault == f.fault
    decreases k
  {
    if k == 0 {
      FillViewExactly(f.view, c2, 0, f.n, f.ch, p);
    } else {
      ScanPaintsBar(f, c1, c2, dual, rev, step, k - 1, p);
    }
  }

  /**
    A scan frame with its bars inside the strip shows the bar colour on the
    `size` pixels from the counter on (unless reversed) and on the `size`
    pixels ending at `n - step` (when reversed or dual), and the background
    everywhere else.
   */
  lemma ScanShowsBars(f: Fx, c1: u32, c2: u32, dual: bool, now: u32, p: int)
    requires WellFormed(f) && f.step + BlockOf(f) <= f.n && ((Rev(f) || dual) ==> 1 <= f.step) && 0 <= p < f.n
    ensures ScanFx(f, c1, c2, dual, now).view[p] == Stored(if ScanLit(f.n, dual, Rev(f), f.step, BlockOf(f), p) then c1 else c2, f.ch)
    ensures ScanFx(f, c1, c2, dual, now).fault == f.fault
  {
    ScanPaintsBar(f, c1, c2, dual, Rev(f), f.step, BlockOf(f), p);
  }

  /** Once a scan iteration writes past the strip, the fault stays raised. */
  lemma {:induction false} ScanFaultSticks(f: Fx, c1: u32, c2: u32, dual: bool, rev: bool, k: nat)
    requires WellFormed(f) && (rev || dual) && k >= 1
    ensures ScanUpTo(f, c1, c2, dual, rev, 0, k).fault
    decreases k
  {
    if k > 1 {
      ScanFaultSticks(f, c1, c2, dual, rev, k - 1);
    }
  }

  /** Reversed (or dual), the first scan frame writes pixel `n`, one past the strip. */
  lemma ReverseScanOverruns(f: Fx, c1: u32, c2: u32, dual: bool, now: u32)
    requires WellFormed(f) && (Rev(f) || dual) && f.step == 0 && BlockOf(f) <= f.n
    ensures ScanFx(f, c1, c2, dual, now).fault
  {
    ScanFaultSticks(f, c1, c2, dual, Rev(f), BlockOf(f));
  }

  // --------------------------------------------------------- tricolor chase

  /** The colour of chase position `index` in a pattern of three blocks of `sz` pixels. */
  function TriColor(c1: u32, c2: u32, c3: u32, sz: int, index: int): u32
  {
    if index < sz then c1 else if index < 2 * sz then c2 else c3
  }

  /** The pixel iteration `i` of the tricolor loop writes: from the end of the strip down, or from the start when reversed. */
  function TriPixel(rev: bool, n: int, i: int): int
  {
    if rev then i else n - i - 1
  }

  /**
    The loop variable `index` at iteration `i`: `step % m` at first, then
    reduced modulo `m` and incremented after each iteration.
   */
  function TriIndex(step: nat, m: nat, i: nat): (r: nat)
    requires m >= 1
  {
    if i == 0 then Rem(step, m) else Rem(TriIndex(step, m, i - 1), m) + 1
  }

  /** Reduced, the loop variable is the pattern position `step + i` modulo `m`. */
  lemma {:induction false} TriIndexTracks(step: nat, m: nat, i: nat)
    requires m >= 1
    ensures Rem(TriIndex(step, m, i), m) == Rem(step + i, m)
  {
    if i == 0 {
      RemSucc(step, m);
      QuotRemIsDivMod(Rem(step, m), m);
      QuotRemIsDivMod(step, m);
    } else {
      TriIndexTracks(step, m, i - 1);
      RemSucc(step + i - 1, m);
    }
  }

  /** The first `k` iterations of the tricolor loop. */
  function TriUpTo(f: Fx, c1: u32, c2: u32, c3: u32, rev: bool, sz: int, step: u32, k: nat): (r: Fx)
    requires WellFormed(f) && sz >= 1
    ensures WellFormed(r) && r.n == f.n && r.ch == f.ch
  {
    if k == 0 then f
    else
      WithOp(TriUpTo(f, c1, c2, c3, rev, sz, step, k - 1),
             SetOp(TriPixel(rev, f.n, k - 1), TriColor(c1, c2, c3, sz, Rem(TriIndex(step, 3 * sz, k - 1), 3 * sz))))
  }

  function TricolorFx(f: Fx, c1: u32, c2: u32, c3: u32, now: u32): (r: Fx)
    requires WellFormed(f)
    ensures WellFormed(r)
  {
    CountFrame(TriUpTo(f, c1, c2, c3, Rev(f), BlockOf(f), f.step, f.n), now)
  }

  /** Reducing before the increment gives the same residue. */
  lemma {:induction false} RemSucc(a: nat, m: nat)
    requires m >= 1
    ensures Rem(Rem(a, m) + 1, m) == Rem(a + 1, m)
    decreases a
  {
    if a >= m {
      RemSucc(a - m, m);
    }
  }

  /** One iteration of the tricolor loop. */
  method TriWrite(s: Strip, rng: HwRng, c1: u32, c2: u32, c3: u32, rev: bool, sizeCnt: int, i: u16, index: nat)
    requires s.Valid() && i < s.size && sizeCnt >= 1
    modifies s.leds, s`fault
    ensures s.Abs(rng) ==
      WithOp(old(s.Abs(rng)), SetOp(TriPixel(rev, s.size, i), TriColor(c1, c2, c3, sizeCnt, Rem(index, 3 * sizeCnt))))
  {
    var color := TriColor(c1, c2, c3, sizeCnt, Rem(index, 3 * sizeCnt));
    if rev {
      PutPixel(s, rng, i, color);
    } else {
      PutPixel(s, rng, s.size - i - 1, color);
    }
  }

  /** The painting loop of `WS2812FX_tricolor_chase`. */
  method TriPaint(s: Strip, rng: HwRng, c1: u32, c2: u32, c3: u32, rev: bool, sizeCnt: int)
    requires s.Valid() && sizeCnt >= 1
    modifies s.leds, s`fault
    ensures s.Abs(rng) == TriUpTo(old(s.Abs(rng)), c1, c2, c3, rev, sizeCnt, s.step, s.size)
  {
    ghost var f0 := s.Abs(rng);
    var index := Rem(s.step, 3 * sizeCnt);
    var i := 0;
    while i < s.size
      invariant 0 <= i <= s.size
      invariant index == TriIndex(s.step, 3 * sizeCnt, i)
      invariant s.Abs(rng) == TriUpTo(f0, c1, c2, c3, rev, sizeCnt, s.step, i)
      modifies s.leds, s`fault
    {
      TriWrite(s, rng, c1, c2, c3, rev, sizeCnt, i, index);
      index := Rem(index, 3 * sizeCnt) + 1;
      i := i + 1;
    }
  }

  /** `WS2812FX_tricolor_chase(color1, color2, color3)` */
  method TricolorChase(s: Strip, rng: HwRng, c1: u32, c2: u32, c3: u32, now: u32)
    requires s.Valid()
    modifies s.leds, s`fault, s`step, s`cycle, s`nextTime
    ensures s.Abs(rng) == TricolorFx(old(s.Abs(rng)), c1, c2, c3, now)
  {
    TriPaint(s, rng, c1, c2, c3, s.Reverse(), Block(s.SizeOption()));
    CountOn(s, rng, now);
  }

  /** After `k` iterations, the pixels the loop has reached show their pattern colour and the rest are unchanged. */
  lemma {:induction false} TriPaintAt(f: Fx, c1: u32, c2: u32, c3: u32, rev: bool, sz: int, step: u32, k: nat, p: int)
    requires WellFormed(f) && sz >= 1 && k <= f.n && 0 <= p < f.n
    ensures TriUpTo(f, c1, c2, c3, rev, sz, step, k).view[p] ==
      var i := TriPixel(rev, f.n, p);
      if i < k then Stored(TriColor(c1, c2, c3, sz, Rem(TriIndex(step, 3 * sz, i), 3 * sz)), f.ch) else f.view[p]
    ensures TriUpTo(f, c1, c2, c3, rev, sz, step, k).fault == f.fault
    decreases k
  {
    if k > 0 {
      TriPaintAt(f, c1, c2, c3, rev, sz, step, k - 1, p);
    }
  }

  /**
    A tricolor frame paints every pixel, from the end of the strip down (or
    from the start up when reversed), with the repeating pattern of three
    blocks shifted by the counter; it never writes past the strip.
   */
  lemma TricolorPattern(f: Fx, c1: u32, c2: u32, c3: u32, now: u32, p: int)
    requires WellFormed(f) && 0 <= p < f.n
    ensures TricolorFx(f, c1, c2, c3, now).view[p] ==
      Stored(TriColor(c1, c2, c3, BlockOf(f), Rem(f.step + TriPixel(Rev(f), f.n, p), 3 * BlockOf(f))), f.ch)
    ensures TricolorFx(f, c1, c2, c3, now).fault == f.fault
  {
    TriPaintAt(f, c1, c2, c3, Rev(f), BlockOf(f), f.step, f.n, p);
    TriIndexTracks(f.step, 3 * BlockOf(f), TriPixel(Rev(f), f.n, p));
  }

  // ---------------------------------------------------------------- twinkle

  /** The reset of a twinkle round: background, and a fresh random number of pixels to light. */
  ghost function TwinkleStart(f: Fx, hw: nat -> u32, c2: u32): (r: Fx)
    requires WellFormed(f)
    ensures WellFormed(r)
  {
    if f.step != 0 then f
    else
      var m := f.n / 4 + 1;
      WithOp(f, FillOp(c2, 0, f.n)).(step := Uniform(hw(f.drawn), m, 2 * m), cycle := true, drawn := f.drawn + 1)
  }

  ghost function TwinkleFx(f: Fx, hw: nat -> u32, c1: u32, c2: u32, now: u32): (r: Fx)
    requires WellFormed(f)
    ensures WellFormed(r)
  {
    var g := TwinkleStart(f, hw, c2);
    var idx := Random16Lim(hw(g.drawn), ToU16(g.n - 1));
    WithOp(g, SetOp(idx, c1)).(step := ToU32(g.step - 1), drawn := g.drawn + 1,
                               nextTime := Later(now, Quot(g.speed, g.n)))
  }

  method TwinkleReset(s: Strip, rng: HwRng, c2: u32)
    requires s.Valid()
    modifies s.leds, s`fault, s`step, s`cycle, rng
    ensures s.Abs(rng) == TwinkleStart(old(s.Abs(rng)), rng.hw, c2)
  {
    if s.step == 0 {
      PutFill(s, rng, c2, 0, s.size);
      var minLeds := s.size / 4 + 1;
      var n := RandRange(s, rng, minLeds, minLeds * 2);
      SetStep(s, rng, n);
      SetCycle(s, rng);
    }
  }

  /** `WS2812FX_twinkle(color1, color2)` */
  method Twinkle(s: Strip, rng: HwRng, c1: u32, c2: u32, now: u32)
    requires s.Valid()
    modifies s.leds, s`fault, s`step, s`cycle, s`nextTime, rng
    ensures s.Abs(rng) == TwinkleFx(old(s.Abs(rng)), rng.hw, c1, c2, now)
  {
    TwinkleReset(s, rng, c2);
    var idx := Rand16Lim(s, rng, ToU16(s.size - 1));
    PutPixel(s, rng, idx, c1);
    SetStep(s, rng, ToU32(s.step - 1));
    SetNext(s, rng, now, Quot(s.speed, s.size));
  }

  /** A round lights between `n/4 + 1` and `2 (n/4 + 1)` pixels. */
  lemma TwinkleRoundLength(f: Fx, hw: nat -> u32, c2: u32)
    requires WellFormed(f) && f.step == 0
    ensures f.n / 4 + 1 <= TwinkleStart(f, hw, c2).step <= 2 * (f.n / 4 + 1)
  {
  }

  /** The draw `n` makes `random16_lim(n - 1)` pick pixel `n`, one past the strip. */
  lemma TwinkleCanOverrun(f: Fx, hw: nat -> u32, c1: u32, c2: u32, now: u32)
    requires WellFormed(f) && f.step != 0 && hw(f.drawn) == f.n
    ensures TwinkleFx(f, hw, c1, c2, now).fault
  {
    Random16LimReaches(f.n - 1, f.n);
  }

  // ----------------------------------------------------------- twinkle fade

  /**
    Pixel `p` lies in one of the `k` blocks of `sz` pixels (cut at the end of
    a strip of `n`) that are filled at the indices `random16_lim(lim)` of the
    draws `d`, `d + 1`, ..., `d + k - 1`.
   */
  ghost predicate InRandomBlocks(hw: nat -> u32, d: nat, lim: u16, sz: int, n: int, k: nat, p: int)
    decreases k
  {
    && k > 0
    && (|| InRandomBlocks(hw, d, lim, sz, n, k - 1, p)
        || var idx := Random16Lim(hw(d + (k - 1)), lim); idx <= p < FillEnd(idx, sz, n))
  }

  /** The `k`-th block joins the first `k - 1`. */
  lemma InRandomBlocksNext(hw: nat -> u32, d: nat, lim: u16, sz: int, n: int, k: nat, p: int, idx: int)
    requires k >= 1 && idx == Random16Lim(hw(d + (k - 1)), lim)
    ensures InRandomBlocks(hw, d, lim, sz, n, k, p) == (InRandomBlocks(hw, d, lim, sz, n, k - 1, p) || idx <= p < FillEnd(idx, sz, n))
  {
  }

  /** A block of `sz` pixels at the index `random16_lim(n - sz)`. */
  ghost function RandomBlock(g: Fx, hw: nat -> u32, color: u32, sz: int): (r: Fx)
    requires WellFormed(g)
    ensures WellFormed(r)
  {
    var idx := Random16Lim(hw(g.drawn), ToU16(g.n - sz));
    WithOp(g, FillOp(color, idx, sz)).(drawn := g.drawn + 1)
  }

  /** The random block of a twinkle fade spark, which also flags a cycle. */
  ghost function TwinkleHit(g: Fx, hw: nat -> u32, color: u32, sz: int): (r: Fx)
    requires WellFormed(g)
    ensures WellFormed(r)
  {
    RandomBlock(g, hw, color, sz).(cycle := true)
  }

  /** The spark of a twinkle fade frame: on the draw `random8_lim(3) == 0`, one chance in five (the draw modulo 5), a random block. */
  ghost function TwinkleSpark(g: Fx, hw: nat -> u32, color: u32, sz: int): (r: Fx)
    requires WellFormed(g)
    ensures WellFormed(r)
  {
    var h := g.(drawn := g.drawn + 1);
    if Random8Lim(hw(g.drawn), 3) == 0 then TwinkleHit(h, hw, color, sz) else h
  }

  ghost function TwinkleFadeFx(f: Fx, hw: nat -> u32, color: u32, now: u32): (r: Fx)
    requires WellFormed(f)
    ensures WellFormed(r)
  {
    TwinkleSpark(Faded(f), hw, color, BlockOf(f)).(nextTime := Later(now, f.speed / 16))
  }

  method TwinkleSparkle(s: Strip, rng: HwRng, color: u32, size: u16)
    requires s.Valid()
    modifies s.leds, s`fault, s`cycle, rng
    ensures s.Abs(rng) == TwinkleSpark(old(s.Abs(rng)), rng.hw, color, size)
  {
    var x := Rand8Lim(s, rng, 3);
    if x == 0 {
      TwinkleBlock(s, rng, color, size);
    }
  }

  /** `fill(color, random16_lim(n - size), size)` */
  method PutRandomBlock(s: Strip, rng: HwRng, color: u32, size: u16)
    requires s.Valid()
    modifies s.leds, s`fault, rng
    ensures s.Abs(rng) == RandomBlock(old(s.Abs(rng)), rng.hw, color, size)
  {
    var index := Rand16Lim(s, rng, ToU16(s.size - size));
    PutFill(s, rng, color, index, size);
  }

  method TwinkleBlock(s: Strip, rng: HwRng, color: u32, size: u16)
    requires s.Valid()
    modifies s.leds, s`fault, s`cycle, rng
    ensures s.Abs(rng) == TwinkleHit(old(s.Abs(rng)), rng.hw, color, size)
  {
    PutRandomBlock(s, rng, color, size);
    SetCycle(s, rng);
  }

  /** `WS2812FX_twinkle_fade(color)` */
  method TwinkleFade(s: Strip, rng: HwRng, color: u32, now: u32)
    requires s.Valid()
    modifies s.leds, s`fault, s`cycle, s`nextTime, rng
    ensures s.Abs(rng) == TwinkleFadeFx(old(s.Abs(rng)), rng.hw, color, now)
  {
    Fade(s, rng);
    TwinkleSparkle(s, rng, color, Block(s.SizeOption()));
    SetNext(s, rng, now, s.speed / 16);
  }
  /**
    The spark of a twinkle fade frame: on one draw in five
    (`random8_lim(3) == 0`) a block of `sz` pixels at the index of the next
    draw and a cycle; otherwise nothing but the draw. It never faults.
   */
  lemma TwinkleSparkAt(g: Fx, hw: nat -> u32, color: u32, sz: int, p: int)
    requires WellFormed(g) && sz >= 1 && 0 <= p < g.n
    ensures var r := TwinkleSpark(g, hw, color, sz);
      var hit := Random8Lim(hw(g.drawn), 3) == 0;
      var idx := Random16Lim(hw(g.drawn + 1), ToU16(g.n - sz));
      && r.drawn == g.drawn + (if hit then 2 else 1)
      && r.cycle == (hit || g.cycle)
      && r.fault == g.fault
      && r.view[p] == if hit && idx <= p < idx + sz then Stored(color, g.ch) else g.view[p]
  {
    var h := g.(drawn := g.drawn + 1);
    FillViewExactly(h.view, color, Random16Lim(hw(h.drawn), ToU16(h.n - sz)), sz, h.ch, p);
  }

  /**
    A twinkle fade frame fades the whole strip, then sparks as
    `TwinkleSparkAt` says with blocks of `2^SIZE_OPTION` pixels.
   */
  lemma TwinkleFadeSparks(f: Fx, hw: nat -> u32, color: u32, now: u32, p: int)
    requires WellFormed(f) && 0 <= p < f.n
    ensures var r := TwinkleFadeFx(f, hw, color, now);
      var hit := Random8Lim(hw(f.drawn), 3) == 0;
      var idx := Random16Lim(hw(f.drawn + 1), ToU16(f.n - BlockOf(f)));
      && r.drawn == f.drawn + (if hit then 2 else 1)
      && r.cycle == (hit || f.cycle)
      && r.fault == f.fault
      && r.nextTime == Later(now, f.speed / 16)
      && r.view[p] == if hit && idx <= p < idx + BlockOf(f) then Stored(color, f.ch) else Faded(f).view[p]
  {
    TwinkleSparkAt(Faded(f), hw, color, BlockOf(f), p);
  }

  // ---------------------------------------------------------------- sparkle

  /** The background on the first frame, then the previous spark (at `aux_param3`) restored to the first colour. */
  function SparkleRestore(f: Fx, c1: u32, sz: int): (r: Fx)
    requires WellFormed(f)
    ensures WellFormed(r) && r.n == f.n && r.drawn == f.drawn
  {
    var g := if f.step == 0 then WithOp(f, FillOp(c1, 0, f.n)) else f;
    WithOp(g, FillOp(c1, f.aux3, sz))
  }

  /** A new spark of `sz` pixels in the second colour at a random index, remembered in `aux_param3`. */
  ghost function SparkleLight(g: Fx, hw: nat -> u32, c2: u32, sz: int): (r: Fx)
    requires WellFormed(g)
    ensures WellFormed(r)
  {
    var a3 := Random16Lim(hw(g.drawn), ToU16(g.n - sz));
    WithOp(g, FillOp(c2, a3, sz)).(aux3 := a3, drawn := g.drawn + 1, cycle := true)
  }

  ghost function SparkleFx(f: Fx, hw: nat -> u32, c1: u32, c2: u32, now: u32): (r: Fx)
    requires WellFormed(f)
    ensures WellFormed(r)
  {
    SparkleLight(SparkleRestore(f, c1, BlockOf(f)), hw, c2, BlockOf(f)).(nextTime := Later(now, f.speed / 32))
  }

  method SparkleBack(s: Strip, rng: HwRng, c1: u32, size: u16)
    requires s.Valid()
    modifies s.leds, s`fault
    ensures s.Abs(rng) == SparkleRestore(old(s.Abs(rng)), c1, size)
  {
    if s.step == 0 {
      PutFill(s, rng, c1, 0, s.size);
    }
    PutFill(s, rng, c1, s.auxParam3, size);
  }

  method SparkleNew(s: Strip, rng: HwRng, c2: u32, size: u16)
    requires s.Valid()
    modifies s.leds, s`fault, s`auxParam3, s`cycle, rng
    ensures s.Abs(rng) == SparkleLight(old(s.Abs(rng)), rng.hw, c2, size)
  {
    var index := Rand16Lim(s, rng, ToU16(s.size - size));
    SetAux3(s, rng, index);
    PutFill(s, rng, c2, s.auxParam3, size);
    SetCycle(s, rng);
  }

  /** `WS2812FX_sparkle(color1, color2)`: restores the previous spark and lights a new one. */
  method Sparkle(s: Strip, rng: HwRng, c1: u32, c2: u32, now: u32)
    requires s.Valid()
    modifies s.leds, s`fault, s`auxParam3, s`cycle, s`nextTime, rng
    ensures s.Abs(rng) == SparkleFx(old(s.Abs(rng)), rng.hw, c1, c2, now)
  {
    var size := Block(s.SizeOption());
    SparkleBack(s, rng, c1, size);
    SparkleNew(s, rng, c2, size);
    SetNext(s, rng, now, s.speed / 32);
  }
  /**
    A sparkle frame lights the block of `2^SIZE_OPTION` pixels at a fresh
    random index, remembered in `aux_param3`, in the second colour; the
    previous block (the whole strip on the first frame) goes back to the
    first colour; every other pixel is kept; it flags a cycle, spends one
    draw and never faults.
   */
  lemma SparkleMovesSpark(f: Fx, hw: nat -> u32, c1: u32, c2: u32, now: u32, p: int)
    requires WellFormed(f) && 0 <= p < f.n
    ensures var r := SparkleFx(f, hw, c1, c2, now);
      var sz := BlockOf(f);
      && r.aux3 == Random16Lim(hw(f.drawn), ToU16(f.n - sz))
      && r.drawn == f.drawn + 1 && r.cycle && r.fault == f.fault
      && r.step == f.step && r.nextTime == Later(now, f.speed / 32)
      && r.view[p] == if r.aux3 <= p < r.aux3 + sz then Stored(c2, f.ch)
                      else if f.step == 0 || f.aux3 <= p < f.aux3 + sz then Stored(c1, f.ch)
                      else f.view[p]
  {
    var sz := BlockOf(f);
    var g0 := if f.step == 0 then WithOp(f, FillOp(c1, 0, f.n)) else f;
    var g := SparkleRestore(f, c1, sz);
    if f.step == 0 {
      FillViewExactly(f.view, c1, 0, f.n, f.ch, p);
    }
    FillViewExactly(g0.view, c1, f.aux3, sz, f.ch, p);
    FillViewExactly(g.view, c2, Random16Lim(hw(g.drawn), ToU16(g.n - sz)), sz, f.ch, p);
  }

  // ------------------------------------------------------------------ chase

  /** The three pixels `a`, `b`, `c` iteration `i` of the chase loop computes, before mirroring. */
  function ChaseTrio(step: u32, n: int, sz: nat, i: nat): (t: (int, int, int))
    requires n >= 1
    ensures 0 <= t.0 < n && 0 <= t.1 < n && 0 <= t.2 < n
  {
    var a := Rem(ToU32(step + i), n);
    var b := Rem(a + sz, n);
    (a, b, Rem(b + sz, n))
  }

  /** Iteration `i` of the chase loop: `color1` at `a`, `color2` at `b`, `color3` at `c`, mirrored when reversed. */
  function ChaseIter(g: Fx, c1: u32, c2: u32, c3: u32, rev: bool, sz: nat, step: u32, i: nat): (r: Fx)
    requires WellFormed(g)
    ensures WellFormed(r) && r.n == g.n && r.ch == g.ch
  {
    ChasePut(g, c1, c2, c3, rev, ChaseTrio(step, g.n, sz, i))
  }

  /** The three writes of one chase iteration at the pixels `t`, mirrored when reversed. */
  function ChasePut(g: Fx, c1: u32, c2: u32, c3: u32, rev: bool, t: (int, int, int)): (r: Fx)
    requires WellFormed(g)
    ensures WellFormed(r) && r.n == g.n && r.ch == g.ch
  {
    if rev then Put3(g, g.n - 1 - t.0, c1, g.n - 1 - t.1, c2, g.n - 1 - t.2, c3)
    else Put3(g, t.0, c1, t.1, c2, t.2, c3)
  }

  /** Three pixel writes in a row: the last write to a pixel wins, and any write off the strip faults. */
  function Put3(g: Fx, x: int, c1: u32, y: int, c2: u32, z: int, c3: u32): (r: Fx)
    requires WellFormed(g)
    ensures WellFormed(r) && r.n == g.n && r.ch == g.ch
  {
    g.(view := Put(Put(Put(g.view, x, c1, g.ch), y, c2, g.ch), z, c3, g.ch),
       fault := g.fault || !(0 <= x < g.n) || !(0 <= y < g.n) || !(0 <= z < g.n))
  }

  /** The first `k` iterations of the chase loop. */
  function ChaseUpTo(f: Fx, c1: u32, c2: u32, c3: u32, rev: bool, sz: nat, step: u32, k: nat): (r: Fx)
    requires WellFormed(f)
    ensures WellFormed(r) && r.n == f.n && r.ch == f.ch && r.step == f.step && r.cycle == f.cycle
  {
    if k == 0 then f else ChaseIter(ChaseUpTo(f, c1, c2, c3, rev, sz, step, k - 1), c1, c2, c3, rev, sz, step, k - 1)
  }

  /** The chase counter after one frame. */
  function ChaseStep(step: u32, n: int): (r: u32)
    requires n >= 1
    ensures r < n
  {
    Rem(ToU32(step + 1), n)
  }

  /** The end of a chase frame: a cycle when `step + 3 size` meets `n` in 32 bits, and the counter moves on. */
  function ChaseMove(f: Fx, sz: nat, now: u32): (r: Fx)
    requires WellFormed(f)
    ensures WellFormed(r)
  {
    f.(cycle := f.cycle || ToU32(f.step + sz * 3) == f.n, step := ChaseStep(f.step, f.n),
       nextTime := Later(now, Quot(f.speed, f.n)))
  }

  function ChaseFx(f: Fx, c1: u32, c2: u32, c3: u32, now: u32): (r: Fx)
    requires WellFormed(f)
    ensures WellFormed(r)
  {
    var sz := BlockOf(f);
    ChaseMove(ChaseUpTo(f, c1, c2, c3, Rev(f), sz, f.step, sz), sz, now)
  }

  /** One iteration of the chase loop. */
  method ChaseIteration(s: Strip, rng: HwRng, c1: u32, c2: u32, c3: u32, rev: bool, size: nat, i: nat)
    requires s.Valid()
    modifies s.leds, s`fault
    ensures s.Abs(rng) == ChaseIter(old(s.Abs(rng)), c1, c2, c3, rev, size, s.step, i)
  {
    var t := ChaseTrio(s.step, s.size, size, i);
    ChaseWrites(s, rng, c1, c2, c3, rev, t);
  }

  /** The writes of one iteration of the chase loop. */
  method ChaseWrites(s: Strip, rng: HwRng, c1: u32, c2: u32, c3: u32, rev: bool, t: (int, int, int))
    requires s.Valid() && 0 <= t.0 < s.size && 0 <= t.1 < s.size && 0 <= t.2 < s.size
    modifies s.leds, s`fault
    ensures s.Abs(rng) == ChasePut(old(s.Abs(rng)), c1, c2, c3, rev, t)
  {
    var a, b, c := t.0, t.1, t.2;
    if rev {
      PutThree(s, rng, s.size - 1 - a, c1, s.size - 1 - b, c2, s.size - 1 - c, c3);
    } else {
      PutThree(s, rng, a, c1, b, c2, c, c3);
    }
  }

  method PutThree(s: Strip, rng: HwRng, x: u16, c1: u32, y: u16, c2: u32, z: u16, c3: u32)
    requires s.Valid()
    modifies s.leds, s`fault
    ensures s.Abs(rng) == Put3(old(s.Abs(rng)), x, c1, y, c2, z, c3)
  {
    PutPixel(s, rng, x, c1);
    PutPixel(s, rng, y, c2);
    PutPixel(s, rng, z, c3);
  }

  /** The painting loop of `WS2812FX_chase`. */
  method ChasePaint(s: Strip, rng: HwRng, c1: u32, c2: u32, c3: u32, rev: bool, size: nat)
    requires s.Valid()
    modifies s.leds, s`fault
    ensures s.Abs(rng) == ChaseUpTo(old(s.Abs(rng)), c1, c2, c3, rev, size, s.step, size)
  {
    ghost var f0 := s.Abs(rng);
    var i := 0;
    while i < size
      invariant 0 <= i <= size
      invariant s.Abs(rng) == ChaseUpTo(f0, c1, c2, c3, rev, size, s.step, i)
      modifies s.leds, s`fault
    {
      ChaseIteration(s, rng, c1, c2, c3, rev, size, i);
      i := i + 1;
    }
  }

  /** The counter update of `WS2812FX_chase`. */
  method ChaseAdvanceStep(s: Strip, rng: HwRng, size: nat, now: u32)
    requires s.Valid()
    modifies s`step, s`cycle, s`nextTime
    ensures s.Abs(rng) == ChaseMove(old(s.Abs(rng)), size, now)
  {
    if ToU32(s.step + size * 3) == s.size {
      SetCycle(s, rng);
    }
    SetStep(s, rng, ChaseStep(s.step, s.size));
    SetNext(s, rng, now, Quot(s.speed, s.size));
  }

  /** `WS2812FX_chase(color1, color2, color3)` */
  method Chase(s: Strip, rng: HwRng, c1: u32, c2: u32, c3: u32, now: u32)
    requires s.Valid()
    modifies s.leds, s`fault, s`step, s`cycle, s`nextTime
    ensures s.Abs(rng) == ChaseFx(old(s.Abs(rng)), c1, c2, c3, now)
  {
    var size := Block(s.SizeOption());
    ChasePaint(s, rng, c1, c2, c3, s.Reverse(), size);
    ChaseAdvanceStep(s, rng, size, now);
  }

  /** The chase counter runs through `[0, n)`, going up by one and wrapping to 0 after `n - 1`. */
  lemma ChaseCounterCycles(step: u32, n: int)
    requires 1 <= n <= 0xFFFF && step < n
    ensures ChaseStep(step, n) == if step == n - 1 then 0 else step + 1
  {
    assert ToU32(step + 1) == step + 1;
    if step + 1 == n {
      assert Rem(n, n) == Rem(0, n);
    }
  }

  /** Every pixel a chase frame writes is inside the strip. */
  lemma {:induction false} ChaseStaysInside(f: Fx, c1: u32, c2: u32, c3: u32, rev: bool, sz: nat, step: u32, k: nat)
    requires WellFormed(f)
    ensures ChaseUpTo(f, c1, c2, c3, rev, sz, step, k).fault == f.fault
    decreases k
  {
    if k > 0 {
      ChaseStaysInside(f, c1, c2, c3, rev, sz, step, k - 1);
      var g := ChaseUpTo(f, c1, c2, c3, rev, sz, step, k - 1);
      ChasePutInside(g, c1, c2, c3, rev, ChaseTrio(step, g.n, sz, k - 1));
    }
  }

  /** The three writes at pixels inside the strip raise no fault. */
  lemma ChasePutInside(g: Fx, c1: u32, c2: u32, c3: u32, rev: bool, t: (int, int, int))
    requires WellFormed(g) && 0 <= t.0 < g.n && 0 <= t.1 < g.n && 0 <= t.2 < g.n
    ensures ChasePut(g, c1, c2, c3, rev, t).fault == g.fault
  {
  }

  /** A chase frame never raises the fault flag. */
  lemma ChaseNeverFaults(f: Fx, c1: u32, c2: u32, c3: u32, now: u32)
    requires WellFormed(f)
    ensures ChaseFx(f, c1, c2, c3, now).fault == f.fault
  {
    ChaseStaysInside(f, c1, c2, c3, Rev(f), BlockOf(f), f.step, BlockOf(f));
  }

  /** How far pixel `q` lies along the run past the counter `step`: mirrored when reversed, modulo `n`. */
  function ChaseDistance(n: int, rev: bool, step: u32, q: int): (d: int)
    requires n >= 1
    ensures 0 <= d < n
  {
    Wrap((if rev then n - 1 - q else q) - step, n)
  }

  /** Away from the top of the 32-bit range, the three pixels of iteration `i` are `step + i`, one and two blocks further, modulo `n`. */
  lemma ChaseTrioIs(step: u32, n: int, sz: nat, i: nat)
    requires n >= 1 && step + i < U32_MOD
    ensures ChaseTrio(step, n, sz, i) == (Rem(step + i, n), Rem(step + (i + sz), n), Rem(step + (i + 2 * sz), n))
  {
    var x: nat := step + i;
    assert ToU32(step + i) == x;
    RemAddLeft(x, sz, n);
    assert x + sz == step + (i + sz);
    RemAddLeft(step + (i + sz), sz, n);
    assert step + (i + sz) + sz == step + (i + 2 * sz);
  }

  lemma RemAddLeft(x: nat, y: nat, n: nat)
    requires n > 0
    ensures Rem(Rem(x, n) + y, n) == Rem(x + y, n)
  {
    QuotRemIsDivMod(x, n);
    QuotRemIsDivMod(Rem(x, n) + y, n);
    QuotRemIsDivMod(x + y, n);
    ModAddLeft(x, y, n);
  }

  /**
    One chase iteration at pixel `q`, whose place along the run (mirrored
    when reversed) is `d` pixels past the counter: it shows `color1`,
    `color2` or `color3` when `d` is `i`, `i + size` or `i + 2 size`, and
    keeps its colour otherwise.
   */
  lemma ChaseIterAt(g: Fx, c1: u32, c2: u32, c3: u32, rev: bool, sz: nat, step: u32, i: nat, q: int)
    requires WellFormed(g) && 0 <= q < g.n && step + i < U32_MOD && i + 2 * sz < g.n
    ensures var r := ChaseIter(g, c1, c2, c3, rev, sz, step, i);
      var d := ChaseDistance(g.n, rev, step, q);
      && r.fault == g.fault
      && r.view[q] == if d == i + 2 * sz then Stored(c3, g.ch) else if d == i + sz then Stored(c2, g.ch)
                      else if d == i then Stored(c1, g.ch) else g.view[q]
  {
    var pos := if rev then g.n - 1 - q else q;
    ChaseTrioHit(step, g.n, sz, i, pos);
    ChasePutAt(g, c1, c2, c3, rev, ChaseTrio(step, g.n, sz, i), q);
  }

  /** Pixel place `pos` is hit by the `a`, `b` or `c` of iteration `i` exactly when it lies `i`, `i + size` or `i + 2 size` past the counter. */
  lemma ChaseTrioHit(step: u32, n: int, sz: nat, i: nat, pos: int)
    requires 0 <= pos < n && step + i < U32_MOD && i + 2 * sz < n
    ensures var t := ChaseTrio(step, n, sz, i);
      var d := Wrap(pos - step, n);
      && (pos == t.0) == (d == i)
      && (pos == t.1) == (d == i + sz)
      && (pos == t.2) == (d == i + 2 * sz)
  {
    ChaseTrioIs(step, n, sz, i);
    RemHit(pos, step, i, n);
    RemHit(pos, step, i + sz, n);
    RemHit(pos, step, i + 2 * sz, n);
  }

  /** The three writes of a chase iteration at pixel `q`, read along the run: the last write to its place wins. */
  lemma ChasePutAt(g: Fx, c1: u32, c2: u32, c3: u32, rev: bool, t: (int, int, int), q: int)
    requires WellFormed(g) && 0 <= q < g.n && 0 <= t.0 < g.n && 0 <= t.1 < g.n && 0 <= t.2 < g.n
    ensures var r := ChasePut(g, c1, c2, c3, rev, t);
      var pos := if rev then g.n - 1 - q else q;
      && r.fault == g.fault
      && r.view[q] == if pos == t.2 then Stored(c3, g.ch) else if pos == t.1 then Stored(c2, g.ch)
                      else if pos == t.0 then Stored(c1, g.ch) else g.view[q]
  {
  }

  /**
    After `k` iterations of a chase frame whose three blocks fit on the strip,
    the pixel `d` places past the counter shows `color1` if `d < k`, `color2`
    if `size <= d < size + k`, `color3` if `2 size <= d < 2 size + k`, and is
    unchanged otherwise.
   */
  lemma {:induction false} ChaseUpToAt(f: Fx, c1: u32, c2: u32, c3: u32, rev: bool, sz: nat, step: u32, k: nat, q: int)
    requires WellFormed(f) && 0 <= q < f.n && k <= sz && 3 * sz <= f.n && step + k <= U32_MOD
    ensures var d := ChaseDistance(f.n, rev, step, q);
      ChaseUpTo(f, c1, c2, c3, rev, sz, step, k).view[q] ==
        if d < k then Stored(c1, f.ch) else if sz <= d < sz + k then Stored(c2, f.ch)
        else if 2 * sz <= d < 2 * sz + k then Stored(c3, f.ch) else f.view[q]
    decreases k
  {
    if k > 0 {
      ChaseUpToAt(f, c1, c2, c3, rev, sz, step, k - 1, q);
      ChaseStepAt(f, c1, c2, c3, rev, sz, step, k, q);
    }
  }

  /** One more chase iteration at pixel `q`, from what the earlier iterations left there. */
  lemma ChaseStepAt(f: Fx, c1: u32, c2: u32, c3: u32, rev: bool, sz: nat, step: u32, k: nat, q: int)
    requires WellFormed(f) && 0 <= q < f.n && 1 <= k <= sz && 3 * sz <= f.n && step + k <= U32_MOD
    requires var d := ChaseDistance(f.n, rev, step, q);
      ChaseUpTo(f, c1, c2, c3, rev, sz, step, k - 1).view[q] ==
        if d < k - 1 then Stored(c1, f.ch) else if sz <= d < sz + (k - 1) then Stored(c2, f.ch)
        else if 2 * sz <= d < 2 * sz + (k - 1) then Stored(c3, f.ch) else f.view[q]
    ensures var d := ChaseDistance(f.n, rev, step, q);
      ChaseUpTo(f, c1, c2, c3, rev, sz, step, k).view[q] ==
        if d < k then Stored(c1, f.ch) else if sz <= d < sz + k then Stored(c2, f.ch)
        else if 2 * sz <= d < 2 * sz + k then Stored(c3, f.ch) else f.view[q]
  {
    var g := ChaseUpTo(f, c1, c2, c3, rev, sz, step, k - 1);
    var h := ChaseIter(g, c1, c2, c3, rev, sz, step, k - 1);
    assert ChaseUpTo(f, c1, c2, c3, rev, sz, step, k) == h;
    ChaseIterAt(g, c1, c2, c3, rev, sz, step, k - 1, q);
    ChaseLayers(ChaseDistance(f.n, rev, step, q), sz, k - 1, k, h.view[q], g.view[q],
      Stored(c1, f.ch), Stored(c2, f.ch), Stored(c3, f.ch), f.view[q]);
  }

  /** Iteration `i` of the chase loop grows each of the three blocks by one pixel. */
  lemma ChaseLayers(d: int, sz: nat, i: nat, k: nat, a: u32, b: u32, x1: u32, x2: u32, x3: u32, o: u32)
    requires k == i + 1 && k <= sz && 0 <= d
    requires b == if d < i then x1 else if sz <= d < sz + i then x2 else if 2 * sz <= d < 2 * sz + i then x3 else o
    requires a == if d == i + 2 * sz then x3 else if d == i + sz then x2 else if d == i then x1 else b
    ensures a == if d < k then x1 else if sz <= d < sz + k then x2 else if 2 * sz <= d < 2 * sz + k then x3 else o
  {
  }

  /**
    A chase frame paints three consecutive blocks of `size` pixels from the
    counter on, in `color1`, `color2`, `color3` (mirrored when reversed), and
    leaves the rest of the strip as it was.
   */
  lemma ChasePixels(f: Fx, c1: u32, c2: u32, c3: u32, now: u32, q: int)
    requires WellFormed(f) && 0 <= q < f.n && 3 * BlockOf(f) <= f.n && f.step < f.n
    ensures var sz := BlockOf(f);
      var d := ChaseDistance(f.n, Rev(f), f.step, q);
      ChaseFx(f, c1, c2, c3, now).view[q] ==
        if d < sz then Stored(c1, f.ch) else if d < 2 * sz then Stored(c2, f.ch)
        else if d < 3 * sz then Stored(c3, f.ch) else f.view[q]
  {
    ChaseUpToAt(f, c1, c2, c3, Rev(f), BlockOf(f), f.step, BlockOf(f), q);
  }

  /** The pixel `(step + j) % n` of `WS2812FX_chase`'s loop, mirrored when reversed, lies `j` places past the counter. */
  lemma ChaseDistanceOf(n: int, rev: bool, step: u32, j: nat)
    requires 1 <= n && j < n
    ensures var a := Rem(step + j, n);
      ChaseDistance(n, rev, step, if rev then n - 1 - a else a) == j
  {
    RemHit(Rem(step + j, n), step, j, n);
  }

  /** With the counter inside the strip, a chase frame flags a cycle exactly when its third block ends at the last pixel. */
  lemma ChaseCycle(f: Fx, c1: u32, c2: u32, c3: u32, now: u32)
    requires WellFormed(f) && f.step < f.n
    ensures ChaseFx(f, c1, c2, c3, now).cycle == (f.cycle || f.step + 3 * BlockOf(f) == f.n)
    ensures ChaseFx(f, c1, c2, c3, now).step == if f.step == f.n - 1 then 0 else f.step + 1
  {
    ChaseCounterCycles(f.step, f.n);
  }

  // ------------------------------------------------------------ chase flash

  /** The pixel pair of a flash frame, `step` and `step + 1` modulo `n`, mirrored when reversed. */
  function FlashPixels(step: u32, n: int, rev: bool): (p: (u16, u16))
    requires n >= 1
  {
    var a := ToU16(step);
    var b := ChaseStep(step, n);
    if rev then (ToU16(n - a - 1), ToU16(n - b - 1)) else (a, ToU16(b))
  }

  /** The colour of flash phase `flashStep`. */
  function FlashColor(c1: u32, c2: u32, flashStep: int): u32
  {
    if flashStep % 2 == 0 then c2 else c1
  }

  /** Two pixel writes in the same colour. */
  function Put2(f: Fx, x: int, y: int, color: u32): (r: Fx)
    requires WellFormed(f)
    ensures WellFormed(r)
  {
    WithOp(WithOp(f, SetOp(x, color)), SetOp(y, color))
  }

  /** The flash frame: the pixel pair in the colour of the flash phase. */
  function FlashFrame(f: Fx, c1: u32, c2: u32, rev: bool, flashStep: int): (r: Fx)
    requires WellFormed(f)
    ensures WellFormed(r)
  {
    var p := FlashPixels(f.step, f.n, rev);
    Put2(f, p.0, p.1, FlashColor(c1, c2, flashStep))
  }

  /** The pair moves on by one; on wrapping to 0 a new hue at least 42 wheel steps away is drawn. */
  ghost function ChaseAdvance(f: Fx, hw: nat -> u32): (r: Fx)
    requires WellFormed(f) && Fair(hw)
    ensures WellFormed(r)
  {
    var s1 := ChaseStep(f.step, f.n);
    if s1 != 0 then f.(step := s1)
    else
      var k := FirstAccepted(hw, WheelFar(f.aux), f.drawn);
      f.(step := s1, aux := Random8(hw(k)), cycle := true, drawn := k + 1)
  }

  /** Flash frames while `calls % (2 size + 1) < 2 size`, then the pair advances. */
  ghost function ChaseFlashFx(f: Fx, hw: nat -> u32, c1: u32, c2: u32, now: u32): (r: Fx)
    requires WellFormed(f) && Fair(hw)
    ensures WellFormed(r) && r.n == f.n && r.ch == f.ch
  {
    var fc := BlockOf(f);
    var fs := Rem(f.calls, 2 * fc + 1);
    if fs < 2 * fc then FlashFrame(f, c1, c2, Rev(f), fs).(nextTime := Later(now, 30))
    else ChaseAdvance(f, hw).(nextTime := Later(now, Quot(f.speed, f.n)))
  }

  /** The two writes of a flash frame. */
  method FlashWrite(s: Strip, rng: HwRng, x: u16, y: u16, color: u32)
    requires s.Valid()
    modifies s.leds, s`fault
    ensures s.Abs(rng) == Put2(old(s.Abs(rng)), x, y, color)
  {
    PutPixel(s, rng, x, color);
    PutPixel(s, rng, y, color);
  }

  /** A flash frame of `WS2812FX_chase_flash`. */
  method FlashOnce(s: Strip, rng: HwRng, c1: u32, c2: u32, rev: bool, flashStep: nat)
    requires s.Valid()
    modifies s.leds, s`fault
    ensures s.Abs(rng) == FlashFrame(old(s.Abs(rng)), c1, c2, rev, flashStep)
  {
    var pair := FlashPixels(s.step, s.size, rev);
    FlashWrite(s, rng, pair.0, pair.1, FlashColor(c1, c2, flashStep));
  }

  /** The advancing frame of `WS2812FX_chase_flash`. */
  method FlashAdvance(s: Strip, rng: HwRng)
    requires s.Valid() && rng.Valid()
    modifies s`step, s`auxParam, s`cycle, rng
    ensures s.Abs(rng) == ChaseAdvance(old(s.Abs(rng)), rng.hw)
  {
    SetStep(s, rng, ChaseStep(s.step, s.size));
    if s.step == 0 {
      var hue := RandWheel(s, rng, s.auxParam);
      SetAux(s, rng, hue);
      SetCycle(s, rng);
    }
  }

  /** `WS2812FX_chase_flash(color1, color2)` */
  method ChaseFlash(s: Strip, rng: HwRng, c1: u32, c2: u32, now: u32)
    requires s.Valid() && rng.Valid()
    modifies s.leds, s`fault, s`step, s`auxParam, s`cycle, s`nextTime, rng
    ensures s.Abs(rng) == ChaseFlashFx(old(s.Abs(rng)), rng.hw, c1, c2, now)
  {
    var flashCount := Block(s.SizeOption());
    var flashStep := Rem(s.calls, 2 * flashCount + 1);
    if flashStep < 2 * flashCount {
      FlashOnce(s, rng, c1, c2, s.Reverse(), flashStep);
      SetNext(s, rng, now, 30);
    } else {
      var delay := Quot(s.speed, s.size);
      FlashAdvance(s, rng);
      SetNext(s, rng, now, delay);
    }
  }

  /** The hue drawn when the flashing pair wraps around is far from the previous one. */
  lemma ChaseFlashNewHue(f: Fx, hw: nat -> u32)
    requires WellFormed(f) && Fair(hw) && ChaseStep(f.step, f.n) == 0
    ensures WheelDistance(f.aux, ChaseAdvance(f, hw).aux) >= 42
  {
  }
  /** The two writes of a flash frame paint exactly the pair, and fault when either is off the strip. */
  lemma Put2At(f: Fx, x: int, y: int, color: u32, q: int)
    requires WellFormed(f) && 0 <= q < f.n
    ensures var r := Put2(f, x, y, color);
      && r.view[q] == (if q == x || q == y then Stored(color, f.ch) else f.view[q])
      && r.fault == (f.fault || !(0 <= x < f.n) || !(0 <= y < f.n))
      && r == f.(view := r.view, fault := r.fault)
  {
  }

  /**
    During the flash phase, `calls % (2 size + 1) < 2 size`, a frame paints
    the pixel pair (and nothing else) in the second colour on even phases and
    the first colour on odd ones, keeps the position, hue, cycle flag and
    draws, and is due again after 30 ms; a pair pixel off the strip faults.
   */
  lemma ChaseFlashFlashes(f: Fx, hw: nat -> u32, c1: u32, c2: u32, now: u32, q: int)
    requires WellFormed(f) && Fair(hw) && Rem(f.calls, 2 * BlockOf(f) + 1) < 2 * BlockOf(f) && 0 <= q < f.n
    ensures var r := ChaseFlashFx(f, hw, c1, c2, now);
      var fs := Rem(f.calls, 2 * BlockOf(f) + 1);
      var pair := FlashPixels(f.step, f.n, Rev(f));
      && r.step == f.step && r.aux == f.aux && r.drawn == f.drawn && r.cycle == f.cycle
      && r.nextTime == Later(now, 30)
      && r.fault == (f.fault || pair.0 as int >= f.n || pair.1 as int >= f.n)
      && r.view[q] == if q == pair.0 as int || q == pair.1 as int then Stored(FlashColor(c1, c2, fs), f.ch) else f.view[q]
  {
    var fs := Rem(f.calls, 2 * BlockOf(f) + 1);
    var pair := FlashPixels(f.step, f.n, Rev(f));
    Put2At(f, pair.0 as int, pair.1 as int, FlashColor(c1, c2, fs), q);
  }

  // ---------------------------------------------------------------- running

  /** `(x & mask) != 0` on 32 bits. */
  predicate BitsMeet(x: u32, mask: u32)
  {
    (x as bv32) & (mask as bv32) != 0
  }

  /** `(step & size) ? color1 : color2` */
  function RunningColor(step: u32, size: u32, c1: u32, c2: u32): u32
  {
    if BitsMeet(step, size) then c1 else c2
  }

  /** The shift of one running frame and the new pixel at the freed end. */
  function RunningPut(f: Fx, rev: bool, color: u32): (r: Fx)
    requires WellFormed(f)
    ensures WellFormed(r)
  {
    if rev then WithOp(f.(view := MoveView(f.view, 0, 1, f.n - 1)), SetOp(f.n - 1, color))
    else WithOp(f.(view := MoveView(f.view, 1, 0, f.n - 1)), SetOp(0, color))
  }

  function RunningFx(f: Fx, c1: u32, c2: u32, now: u32): (r: Fx)
    requires WellFormed(f)
    ensures WellFormed(r)
  {
    CountFrame(RunningPut(f, Rev(f), RunningColor(f.step, 2 * BlockOf(f), c1, c2)), now)
  }

  /** The shift and the new pixel of `WS2812FX_running`. */
  method RunningShift(s: Strip, rng: HwRng, rev: bool, color: u32)
    requires s.Valid()
    modifies s.leds, s`fault
    ensures s.Abs(rng) == RunningPut(old(s.Abs(rng)), rev, color)
  {
    if rev {
      MovePixels(s, rng, 0, 1, s.size - 1);
      PutPixel(s, rng, s.size - 1, color);
    } else {
      MovePixels(s, rng, 1, 0, s.size - 1);
      PutPixel(s, rng, 0, color);
    }
  }

  /** `WS2812FX_running(color1, color2)` */
  method Running(s: Strip, rng: HwRng, c1: u32, c2: u32, now: u32)
    requires s.Valid()
    modifies s.leds, s`fault, s`step, s`cycle, s`nextTime
    ensures s.Abs(rng) == RunningFx(old(s.Abs(rng)), c1, c2, now)
  {
    var size := 2 * Block(s.SizeOption());
    var color := RunningColor(s.step, size, c1, c2);
    RunningShift(s, rng, s.Reverse(), color);
    CountOn(s, rng, now);
  }

  /**
    A running frame shifts the strip one pixel away from the start (toward
    the start when reversed) and injects the new colour at the freed end,
    without a fault.
   */
  lemma RunningShifts(f: Fx, rev: bool, color: u32)
    requires WellFormed(f)
    ensures var r := RunningPut(f, rev, color);
      && r.fault == f.fault
      && (!rev ==> r.view[0] == Stored(color, f.ch) && forall i :: 0 <= i < f.n - 1 ==> r.view[i + 1] == f.view[i])
      && (rev ==> r.view[f.n - 1] == Stored(color, f.ch) && forall i :: 1 <= i < f.n ==> r.view[i - 1] == f.view[i])
  {
  }

  // -------------------------------------------------------------- fireworks

  /** One byte of the diffusion pass: a quarter of each neighbour is added, saturating at 255. */
  function DiffuseByte(buf: seq<u8>, ch: int, i: int): u8
    requires 1 <= ch && 0 <= i - ch && i + ch < |buf|
  {
    Min(buf[i - ch] as int / 4 + buf[i] as int + buf[i + ch] as int / 4, 255)
  }

  /** The buffer after the diffusion loop has processed the bytes `[ch, k)`, left to right, in place. */
  function DiffuseTo(buf: seq<u8>, ch: int, k: int): (r: seq<u8>)
    requires 1 <= ch <= k && k + ch <= |buf|
    ensures |r| == |buf|
    decreases k
  {
    if k == ch then buf
    else
      var b := DiffuseTo(buf, ch, k - 1);
      b[k - 1 := DiffuseByte(b, ch, k - 1)]
  }

  /** The diffusion pass of `WS2812FX_fireworks` over the bytes `[ch, stop)`. */
  function Diffuse(buf: seq<u8>, ch: int, stop: int): (r: seq<u8>)
    requires 1 <= ch && stop + ch <= |buf|
    ensures |r| == |buf|
  {
    if stop <= ch then buf else DiffuseTo(buf, ch, stop)
  }

  /** `numBursts`: a tenth of the strip, at least one. */
  function Bursts(n: int): (r: int)
    ensures r >= 1
  {
    if n / 10 > 1 then n / 10 else 1
  }

  /** One burst: a block of `sz` pixels at the index `random16_lim(lim)`. */
  ghost function BurstStep(g: Fx, hw: nat -> u32, color: u32, sz: int, lim: u16): (r: Fx)
    requires WellFormed(g)
    ensures WellFormed(r) && r.n == g.n && r.ch == g.ch
  {
    WithOp(g, FillOp(color, Random16Lim(hw(g.drawn), lim), sz)).(cycle := true, drawn := g.drawn + 1)
  }

  /** The first `k` bursts. */
  ghost function BurstsUpTo(f: Fx, hw: nat -> u32, color: u32, sz: int, lim: u16, k: nat): (r: Fx)
    requires WellFormed(f)
    ensures WellFormed(r) && r.n == f.n && r.ch == f.ch
  {
    if k == 0 then f else BurstStep(BurstsUpTo(f, hw, color, sz, lim, k - 1), hw, color, sz, lim)
  }
  /**
    After `k` bursts a pixel shows the burst colour exactly when one of the
    `k` blocks, each at the index of its own draw, covers it, and is
    unchanged otherwise; the bursts spend exactly `k` draws, flag a cycle
    when there is at least one, and never fault.
   */
  lemma {:induction false} BurstsPaint(f: Fx, hw: nat -> u32, color: u32, sz: int, lim: u16, k: nat, p: int)
    requires WellFormed(f) && 0 <= p < f.n
    ensures var r := BurstsUpTo(f, hw, color, sz, lim, k);
      && r.view[p] == (if InRandomBlocks(hw, f.drawn, lim, sz, f.n, k, p) then Stored(color, f.ch) else f.view[p])
      && r.drawn == f.drawn + k
      && r.cycle == (f.cycle || k > 0)
      && r.fault == f.fault
  {
    if k > 0 {
      var g := BurstsUpTo(f, hw, color, sz, lim, k - 1);
      BurstsPaint(f, hw, color, sz, lim, k - 1, p);
      FillViewExactly(g.view, color, Random16Lim(hw(g.drawn), lim), sz, g.ch, p);
    }
  }

  /** The record after the diffusion pass. */
  function Diffused(f: Fx): (r: Fx)
    requires WellFormed(f)
    ensures WellFormed(r)
  {
    f.(view := PixelsOf(Diffuse(BufferOf(f.view, f.ch), f.ch, Offset(f.n - 1, f.ch)), f.ch, f.n))
  }

  /** The bursts of one fireworks frame: `Bursts(n)` random blocks of `2 << SIZE_OPTION` pixels. */
  ghost function Burst(f: Fx, hw: nat -> u32, color: u32): (r: Fx)
    requires WellFormed(f)
    ensures WellFormed(r)
  {
    var sz := 2 * BlockOf(f);
    BurstsUpTo(f, hw, color, sz, ToU16(f.n - sz + 1), Bursts(f.n))
  }

  ghost function FireworksFx(f: Fx, hw: nat -> u32, color: u32, now: u32): (r: Fx)
    requires WellFormed(f)
    ensures WellFormed(r)
  {
    Burst(Diffused(Faded(f)), hw, color).(nextTime := Later(now, f.speed / 16))
  }

  /** The byte loop of the diffusion pass, on the buffer itself. */
  method DiffuseBytes(pixels: array<u8>, bytesPerPixel: int, stopPixel: int)
    requires 1 <= bytesPerPixel && stopPixel + bytesPerPixel <= pixels.Length
    modifies pixels
    ensures pixels[..] == Diffuse(old(pixels[..]), bytesPerPixel, stopPixel)
  {
    ghost var b0 := pixels[..];
    var i := bytesPerPixel;
    while i < stopPixel
      invariant bytesPerPixel <= i <= Max(stopPixel, bytesPerPixel)
      invariant pixels[..] == if i == bytesPerPixel then b0 else DiffuseTo(b0, bytesPerPixel, i)
    {
      var tmpPixel := pixels[i - bytesPerPixel] as int / 4 + pixels[i] as int + pixels[i + bytesPerPixel] as int / 4;
      pixels[i] := if tmpPixel > 255 then 255 else tmpPixel;
      i := i + 1;
    }
  }

  /** The in-place diffusion pass of `WS2812FX_fireworks`. */
  method Diffusion(s: Strip, rng: HwRng)
    requires s.Valid()
    modifies s.leds
    ensures s.Abs(rng) == Diffused(old(s.Abs(rng)))
  {
    ghost var f := s.Abs(rng);
    DiffusedBuffer(f, s.leds[..]);
    DiffuseBytes(s.leds, s.channels, Offset(s.size - 1, s.channels));
  }

  /** The diffusion pass, on the record, acts on the buffer the view was read from. */
  lemma DiffusedBuffer(f: Fx, buf: seq<u8>)
    requires WellFormed(f) && Layout(f.ch, f.n, |buf|) && f.view == PixelsOf(buf, f.ch, f.n)
    ensures Diffused(f) == f.(view := PixelsOf(Diffuse(buf, f.ch, Offset(f.n - 1, f.ch)), f.ch, f.n))
  {
    BufferOfPixels(buf, f.ch, f.n);
    assert BufferOf(f.view, f.ch) == buf;
  }

  /** One burst of the burst loop. */
  method BurstOnce(s: Strip, rng: HwRng, color: u32, size: u16, lim: u16)
    requires s.Valid()
    modifies s.leds, s`fault, s`cycle, rng
    ensures s.Abs(rng) == BurstStep(old(s.Abs(rng)), rng.hw, color, size, lim)
  {
    var index := Rand16Lim(s, rng, lim);
    PutFill(s, rng, color, index, size);
    SetCycle(s, rng);
  }

  /** The burst loop of `WS2812FX_fireworks`. */
  method BurstLoop(s: Strip, rng: HwRng, color: u32, size: u16, numBursts: u16)
    requires s.Valid()
    modifies s.leds, s`fault, s`cycle, rng
    ensures s.Abs(rng) == BurstsUpTo(old(s.Abs(rng)), rng.hw, color, size, ToU16(s.size - size + 1), numBursts)
  {
    ghost var f0 := s.Abs(rng);
    var lim := ToU16(s.size - size + 1);
    var i: u16 := 0;
    while i < numBursts
      invariant i <= numBursts
      invariant s.Abs(rng) == BurstsUpTo(f0, rng.hw, color, size, lim, i)
      modifies s.leds, s`fault, s`cycle, rng
    {
      BurstOnce(s, rng, color, size, lim);
      i := i + 1;
    }
  }

  /** `WS2812FX_fireworks(color)`: fade, diffuse every byte into its neighbours in place, then light some bursts. */
  method Fireworks(s: Strip, rng: HwRng, color: u32, now: u32)
    requires s.Valid()
    modifies s.leds, s`fault, s`cycle, s`nextTime, rng
    ensures s.Abs(rng) == FireworksFx(old(s.Abs(rng)), rng.hw, color, now)
  {
    Fade(s, rng);
    Diffusion(s, rng);
    Bursting(s, rng, color);
    SetNext(s, rng, now, s.speed / 16);
  }

  /** The bursts of a fireworks frame. */
  method Bursting(s: Strip, rng: HwRng, color: u32)
    requires s.Valid()
    modifies s.leds, s`fault, s`cycle, rng
    ensures s.Abs(rng) == Burst(old(s.Abs(rng)), rng.hw, color)
  {
    ghost var f0 := s.Abs(rng);
    var size := 2 * Block(s.SizeOption());
    var numBursts := if s.size / 10 > 1 then s.size / 10 else 1;
    assert size == 2 * BlockOf(f0) && numBursts == Bursts(f0.n);
    BurstLoop(s, rng, color, size, numBursts);
  }

  /** The diffusion pass never darkens a byte, and leaves the bytes outside `[ch, k)` alone. */
  lemma {:induction false} DiffuseNeverDarkens(buf: seq<u8>, ch: int, k: int, j: int)
    requires 1 <= ch <= k && k + ch <= |buf| && 0 <= j < |buf|
    ensures DiffuseTo(buf, ch, k)[j] >= buf[j]
    ensures (j < ch || j >= k) ==> DiffuseTo(buf, ch, k)[j] == buf[j]
    decreases k
  {
    if k > ch {
      DiffuseNeverDarkens(buf, ch, k - 1, j);
    }
  }

  /**
    The pass works in place from left to right: byte `i` mixes in the
    already diffused byte `i - ch` and the original bytes `i` and `i + ch`.
   */
  lemma DiffuseUsesUpdatedLeft(buf: seq<u8>, ch: int, k: int)
    requires 1 <= ch < k && k + ch <= |buf|
    ensures DiffuseTo(buf, ch, k)[k - 1] ==
      Min(DiffuseTo(buf, ch, k - 1)[k - 1 - ch] as int / 4 + buf[k - 1] as int + buf[k - 1 + ch] as int / 4, 255)
  {
    DiffuseNeverDarkens(buf, ch, k - 1, k - 1);
    DiffuseNeverDarkens(buf, ch, k - 1, k - 1 + ch);
  }

  // ----------------------------------------------------------- fire flicker

  /** `(x - flicker) > 0 ? (x - flicker) : 0` */
  function Dim(x: u8, flicker: u8): u8
  {
    if x as int - flicker as int > 0 then x - flicker else 0
  }

  /** `maxLum`: the brightest byte of a colour. */
  function MaxLum(c: u32): u8
  {
    var m := if Green(c) > Blue(c) then Green(c) else Blue(c);
    var m' := if m > Red(c) then m else Red(c);
    if m' > White(c) then m' else White(c)
  }

  function FlickerColor(c: u32, flicker: u8): u32
  {
    Pack(Dim(White(c), flicker), Dim(Red(c), flicker), Dim(Green(c), flicker), Dim(Blue(c), flicker))
  }

  /** The flicker limit: the brightest byte of the first colour divided by `revIntensity`. */
  function FlickerLimit(f: Fx, revIntensity: int): u8
    requires WellFormed(f) && revIntensity >= 1
  {
    Quot(MaxLum(f.colors[0]), revIntensity)
  }

  /** The colour the fire flicker loop paints for draw `j` of the generator: `c` dimmed by `random8_lim(lum)`. */
  ghost function FlickerDraws(hw: nat -> u32, c: u32, lum: u8): nat -> u32
  {
    j => FlickerColor(c, Random8Lim(hw(j), lum))
  }

  ghost function FireFlickerFx(f: Fx, hw: nat -> u32, revIntensity: int, now: u32): (r: Fx)
    requires WellFormed(f) && revIntensity >= 1
    ensures WellFormed(r)
  {
    DrawnPixels(f, FlickerDraws(hw, f.colors[0], FlickerLimit(f, revIntensity)), f.n).(
      cycle := true, nextTime := Later(now, Quot(f.speed, f.n)))
  }

  /** One pixel of the fire flicker loop. */
  method FlickerPixel(s: Strip, rng: HwRng, i: u16, lum: u8, c: u32)
    requires s.Valid()
    modifies s.leds, s`fault, rng
    ensures s.Abs(rng) == DrawnPixel(old(s.Abs(rng)), FlickerDraws(rng.hw, c, lum), i)
  {
    var w, r, g, b := White(c), Red(c), Green(c), Blue(c);
    var flicker := Rand8Lim(s, rng, lum);
    PutPixel5(s, rng, i, Dim(r, flicker), Dim(g, flicker), Dim(b, flicker), Dim(w, flicker));
  }

  /** The pixel loop of `WS2812FX_fire_flicker`. */
  method FlickerLoop(s: Strip, rng: HwRng, c: u32, lum: u8)
    requires s.Valid()
    modifies s.leds, s`fault, rng
    ensures s.Abs(rng) == DrawnPixels(old(s.Abs(rng)), FlickerDraws(rng.hw, c, lum), s.size)
  {
    ghost var f0 := s.Abs(rng);
    ghost var paint := FlickerDraws(rng.hw, c, lum);
    var i: u16 := 0;
    while i < s.size
      invariant i <= s.size
      invariant s.Abs(rng) == DrawnPixels(f0, paint, i)
      modifies s.leds, s`fault, rng
    {
      FlickerPixel(s, rng, i, lum, c);
      i := i + 1;
    }
  }

  /** The flicker limit of the colour `c`: its brightest byte divided by `revIntensity`. */
  method FlickerLum(c: u32, revIntensity: int) returns (lum: u8)
    requires revIntensity >= 1
    ensures lum == Quot(MaxLum(c), revIntensity)
  {
    var w, r, g, b := White(c), Red(c), Green(c), Blue(c);
    var maxLum := if g > b then g else b;
    maxLum := if maxLum > r then maxLum else r;
    maxLum := if maxLum > w then maxLum else w;
    lum := Quot(maxLum, revIntensity);
  }

  /** `WS2812FX_fire_flicker(rev_intensity)`: every pixel is the first colour dimmed by its own random amount. */
  method FireFlicker(s: Strip, rng: HwRng, revIntensity: int, now: u32)
    requires s.Valid() && revIntensity >= 1
    modifies s.leds, s`fault, s`cycle, s`nextTime, rng
    ensures s.Abs(rng) == FireFlickerFx(old(s.Abs(rng)), rng.hw, revIntensity, now)
  {
    var c := s.colors[0];
    var lum := FlickerLum(c, revIntensity);
    FlickerLoop(s, rng, c, lum);
    SetCycle(s, rng);
    SetNext(s, rng, now, Quot(s.speed, s.size));
  }

  /** A flickered colour is never brighter than the colour, channel by channel. */
  lemma FlickerNeverBrightens(c: u32, flicker: u8)
    ensures White(FlickerColor(c, flicker)) <= White(c) && Red(FlickerColor(c, flicker)) <= Red(c)
    ensures Green(FlickerColor(c, flicker)) <= Green(c) && Blue(FlickerColor(c, flicker)) <= Blue(c)
  {
    ChannelsOfPack(Dim(White(c), flicker), Dim(Red(c), flicker), Dim(Green(c), flicker), Dim(Blue(c), flicker));
  }

  /** A fire flicker frame repaints every pixel with the first colour dimmed by one draw each, without a fault. */
  lemma FireFlickerRepaints(f: Fx, hw: nat -> u32, revIntensity: int, now: u32, p: int)
    requires WellFormed(f) && revIntensity >= 1 && 0 <= p < f.n
    ensures FireFlickerFx(f, hw, revIntensity, now).view[p] ==
      Stored(FlickerColor(f.colors[0], Random8Lim(hw(f.drawn + p), FlickerLimit(f, revIntensity))), f.ch)
    ensures FireFlickerFx(f, hw, revIntensity, now).fault == f.fault
  {
    DrawnPixelsAt(f, FlickerDraws(hw, f.colors[0], FlickerLimit(f, revIntensity)), f.n, p);
  }
}
