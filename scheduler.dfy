/**
  `set_lightbulb_fx_effect`, the entry point the firmware's timer calls for
  each strip: it clears the FRAME and CYCLE flags, and when the strip's
  `next_time` is due it sets FRAME, runs the mode selected by `effect`
  (1 to 56; any other id switches the strip off by clearing `effect`) and
  counts the call. It returns the FRAME flag.
 */
module Scheduler {
  import opened Ints
  import opened Color
  import opened Entropy
  import opened FxState
  import opened Effects
  import opened Modes

  /** The largest id the dispatcher knows. */
  const LAST_EFFECT := 56

  /** How far ahead `next_time` may lie before the scheduler takes it for a clock that wrapped. */
  const HORIZON: u32 := 10000000

  /** A frame is due at `now` when `now` has reached `next`, or when `next` lies more than `HORIZON` ahead (32-bit difference). */
  predicate Due(next: u32, now: u32)
  {
    now >= next || ToU32(next - now) > HORIZON
  }

  /** The two modes that search the palette for a non-black colour need one to exist. */
  ghost predicate Ready(f: Fx)
  {
    && (f.effect == 45 ==> Attainable(FireworkPick(f.colors)))
    && (f.effect == 56 ==> Attainable(RainPick(f.colors)))
  }

  // ------------------------------------------------------------- dispatch

  /** Modes 1 to 8. */
  ghost function Modes1(f: Fx, hw: nat -> u32, now: u32): (r: Fx)
    requires WellFormed(f) && Fair(hw) && 1 <= f.effect <= 8
  {
    match f.effect
    case 1 => Blinking(f, f.colors[0], f.colors[1], false, now)
    case 2 => ModeBreathFx(f, now)
    case 3 => Wiping(f, f.colors[0], f.colors[1], false, now)
    case 4 => Wiping(f, f.colors[1], f.colors[0], false, now)
    case 5 => Wiping(f, f.colors[0], f.colors[1], true, now)
    case 6 => Wiping(f, f.colors[1], f.colors[0], true, now)
    case 7 => WipeRandomFx(f, hw, false, now)
    case _ => ModeRandomColorFx(f, hw, now)
  }

  /** Modes 9 to 16. */
  ghost function Modes2(f: Fx, hw: nat -> u32, now: u32): (r: Fx)
    requires WellFormed(f) && 9 <= f.effect <= 16
  {
    match f.effect
    case 9 => ModeSingleDynamicFx(f, hw, now)
    case 10 => ModeMultiDynamicFx(f, hw, now)
    case 11 => ModeRainbowFx(f, now)
    case 12 => ModeRainbowCycleFx(f, now)
    case 13 => ScanFx(f, f.colors[0], f.colors[1], false, now)
    case 14 => ScanFx(f, f.colors[0], f.colors[1], true, now)
    case 15 => ModeFadeFx(f, now)
    case _ => TricolorFx(f, f.colors[0], f.colors[1], f.colors[1], now)
  }

  /** Modes 17 to 24. */
  ghost function Modes3(f: Fx, hw: nat -> u32, sine8: u8 -> u8, now: u32): (r: Fx)
    requires WellFormed(f) && 17 <= f.effect <= 24
  {
    match f.effect
    case 17 => ModeTheaterRainbowFx(f, now)
    case 18 => ModeRunningLightsFx(f, sine8, now)
    case 19 => TwinkleFx(f, hw, f.colors[0], f.colors[1], now)
    case 20 => ModeTwinkleRandomFx(f, hw, now)
    case 21 => TwinkleFadeFx(f, hw, f.colors[0], now)
    case 22 => ModeTwinkleFadeRandomFx(f, hw, now)
    case 23 => SparkleFx(f, hw, f.colors[1], f.colors[0], now)
    case _ => SparkleFx(f, hw, f.colors[0], WHITE, now)
  }

  /** Modes 25 to 32. */
  ghost function Modes4(f: Fx, hw: nat -> u32, now: u32): (r: Fx)
    requires WellFormed(f) && Fair(hw) && 25 <= f.effect <= 32
  {
    match f.effect
    case 25 => ModeHyperSparkleFx(f, hw, now)
    case 26 => Blinking(f, f.colors[0], f.colors[1], true, now)
    case 27 => Blinking(f, CallHue(f), f.colors[1], true, now)
    case 28 => ModeMultiStrobeFx(f, now)
    case 29 => Blinking(f, CallHue(f), f.colors[1], false, now)
    case 30 => ChaseFx(f, WHITE, f.colors[0], f.colors[0], now)
    case 31 => ChaseFx(f, f.colors[0], WHITE, WHITE, now)
    case _ => ModeChaseRandomFx(f, hw, now)
  }

  /** Modes 33 to 40. */
  ghost function Modes5(f: Fx, hw: nat -> u32, now: u32): (r: Fx)
    requires WellFormed(f) && Fair(hw) && 33 <= f.effect <= 40
  {
    match f.effect
    case 33 => ChaseFx(f, ColorWheel(RainbowHue(f.step, f.n, f.calls)), WHITE, WHITE, now)
    case 34 => ChaseFlashFx(f, hw, f.colors[0], WHITE, now)
    case 35 => ChaseFlashFx(f, hw, ColorWheel(f.aux), WHITE, now)
    case 36 => ModeChaseRainbowWhiteFx(f, now)
    case 37 => ChaseFx(f, f.colors[0], BLACK, BLACK, now)
    case 38 => ChaseFx(f, ColorWheel(RainbowHue(f.step, f.n, f.calls)), BLACK, BLACK, now)
    case 39 => WipeRandomFx(f, hw, true, now)
    case _ => RunningFx(f, f.colors[0], f.colors[1], now)
  }

  /** Modes 41 to 48. */
  ghost function Modes6(f: Fx, hw: nat -> u32, now: u32): (r: Fx)
    requires WellFormed(f) && Fair(hw) && Ready(f) && 41 <= f.effect <= 48
  {
    match f.effect
    case 41 => RunningFx(f, RED, BLUE, now)
    case 42 => ModeRunningRandomFx(f, hw, now)
    case 43 => ModeLarsonFx(f, now)
    case 44 => ModeCometFx(f, now)
    case 45 => ModeFireworksFx(f, hw, now)
    case 46 => ModeFireworksRandomFx(f, hw, now)
    case 47 => RunningFx(f, RED, GREEN, now)
    case _ => FireFlickerFx(f, hw, 3, now)
  }

  /** Modes 49 to 56. */
  ghost function Modes7(f: Fx, hw: nat -> u32, sine8: u8 -> u8, now: u32): (r: Fx)
    requires WellFormed(f) && Fair(hw) && Ready(f) && 49 <= f.effect <= 56
  {
    match f.effect
    case 49 => FireFlickerFx(f, hw, 6, now)
    case 50 => FireFlickerFx(f, hw, 1, now)
    case 51 => TricolorFx(f, RED, WHITE, BLACK, now)
    case 52 => RunningFx(f, PURPLE, ORANGE, now)
    case 53 => ChaseFx(f, f.colors[0], f.colors[1], f.colors[2], now)
    case 54 => TricolorFx(f, f.colors[0], f.colors[1], f.colors[2], now)
    case 55 => ModeTwinkleFoxFx(f, sine8, now)
    case _ => ModeRainFx(f, hw, now)
  }

  /** The `switch` of `set_lightbulb_fx_effect`: the mode `effect` names, or `effect := 0` for an unknown id. */
  ghost function Dispatch(f: Fx, hw: nat -> u32, sine8: u8 -> u8, now: u32): (r: Fx)
    requires WellFormed(f) && Fair(hw) && Ready(f)
  {
    if f.effect == 0 || f.effect > LAST_EFFECT then f.(effect := 0)
    else if f.effect <= 8 then Modes1(f, hw, now)
    else if f.effect <= 16 then Modes2(f, hw, now)
    else if f.effect <= 24 then Modes3(f, hw, sine8, now)
    else if f.effect <= 32 then Modes4(f, hw, now)
    else if f.effect <= 40 then Modes5(f, hw, now)
    else if f.effect <= 48 then Modes6(f, hw, now)
    else Modes7(f, hw, sine8, now)
  }

  /** A due frame: FRAME set, the mode run, and the call counted in 32 bits. */
  ghost function Frame(f: Fx, hw: nat -> u32, sine8: u8 -> u8, now: u32): (r: Fx)
    requires WellFormed(f) && Fair(hw) && Ready(f)
  {
    var h := Dispatch(f.(frame := true), hw, sine8, now);
    h.(calls := ToU32(h.calls + 1))
  }

  /**
    One call of `set_lightbulb_fx_effect` on a strip: nothing for a strip
    that is off; otherwise FRAME and CYCLE are cleared and, when the frame
    is due, it runs.
   */
  ghost function Tick(f: Fx, hw: nat -> u32, sine8: u8 -> u8, now: u32): (r: Fx)
    requires WellFormed(f) && Fair(hw) && Ready(f)
  {
    if f.effect == 0 then f
    else
      var g := f.(frame := false, cycle := false);
      if Due(f.nextTime, now) then Frame(g, hw, sine8, now) else g
  }

  // ------------------------------------------------------------- methods

  method RunModes1(s: Strip, rng: HwRng, now: u32)
    requires s.Valid() && rng.Valid() && 1 <= s.effect <= 8
    modifies s.leds, s`fault, s`step, s`auxParam, s`auxParam3, s`cycle, s`nextTime, rng
    ensures s.Abs(rng) == Modes1(old(s.Abs(rng)), rng.hw, now)
  {
    match s.effect
    case 1 => ModeBlink(s, rng, now);
    case 2 => ModeBreath(s, rng, now);
    case 3 => ModeColorWipe(s, rng, now);
    case 4 => ModeColorWipeInv(s, rng, now);
    case 5 => ModeColorWipeRev(s, rng, now);
    case 6 => ModeColorWipeRevInv(s, rng, now);
    case 7 => ModeColorWipeRandom(s, rng, now);
    case _ => ModeRandomColor(s, rng, now);
  }

  method RunModes2(s: Strip, rng: HwRng, now: u32)
    requires s.Valid() && 9 <= s.effect <= 16
    modifies s.leds, s`fault, s`step, s`auxParam, s`auxParam3, s`cycle, s`nextTime, rng
    ensures s.Abs(rng) == Modes2(old(s.Abs(rng)), rng.hw, now)
  {
    match s.effect
    case 9 => ModeSingleDynamic(s, rng, now);
    case 10 => ModeMultiDynamic(s, rng, now);
    case 11 => ModeRainbow(s, rng, now);
    case 12 => ModeRainbowCycle(s, rng, now);
    case 13 => ModeScan(s, rng, now);
    case 14 => ModeDualScan(s, rng, now);
    case 15 => ModeFade(s, rng, now);
    case _ => ModeTheaterChase(s, rng, now);
  }

  method RunModes3(s: Strip, rng: HwRng, sine8: u8 -> u8, now: u32)
    requires s.Valid() && 17 <= s.effect <= 24
    modifies s.leds, s`fault, s`step, s`auxParam, s`auxParam3, s`cycle, s`nextTime, rng
    ensures s.Abs(rng) == Modes3(old(s.Abs(rng)), rng.hw, sine8, now)
  {
    match s.effect
    case 17 => ModeTheaterChaseRainbow(s, rng, now);
    case 18 => ModeRunningLights(s, rng, sine8, now);
    case 19 => ModeTwinkle(s, rng, now);
    case 20 => ModeTwinkleRandom(s, rng, now);
    case 21 => ModeTwinkleFade(s, rng, now);
    case 22 => ModeTwinkleFadeRandom(s, rng, now);
    case 23 => ModeSparkle(s, rng, now);
    case _ => ModeFlashSparkle(s, rng, now);
  }

  method RunModes4(s: Strip, rng: HwRng, now: u32)
    requires s.Valid() && rng.Valid() && 25 <= s.effect <= 32
    modifies s.leds, s`fault, s`step, s`auxParam, s`auxParam3, s`cycle, s`nextTime, rng
    ensures s.Abs(rng) == Modes4(old(s.Abs(rng)), rng.hw, now)
  {
    match s.effect
    case 25 => ModeHyperSparkle(s, rng, now);
    case 26 => ModeStrobe(s, rng, now);
    case 27 => ModeStrobeRainbow(s, rng, now);
    case 28 => ModeMultiStrobe(s, rng, now);
    case 29 => ModeBlinkRainbow(s, rng, now);
    case 30 => ModeChaseWhite(s, rng, now);
    case 31 => ModeChaseColor(s, rng, now);
    case _ => ModeChaseRandom(s, rng, now);
  }

  method RunModes5(s: Strip, rng: HwRng, now: u32)
    requires s.Valid() && rng.Valid() && 33 <= s.effect <= 40
    modifies s.leds, s`fault, s`step, s`auxParam, s`auxParam3, s`cycle, s`nextTime, rng
    ensures s.Abs(rng) == Modes5(old(s.Abs(rng)), rng.hw, now)
  {
    match s.effect
    case 33 => ModeChaseRainbow(s, rng, now);
    case 34 => ModeChaseFlash(s, rng, now);
    case 35 => ModeChaseFlashRandom(s, rng, now);
    case 36 => ModeChaseRainbowWhite(s, rng, now);
    case 37 => ModeChaseBlackout(s, rng, now);
    case 38 => ModeChaseBlackoutRainbow(s, rng, now);
    case 39 => ModeColorSweepRandom(s, rng, now);
    case _ => ModeRunningColor(s, rng, now);
  }

  method RunModes6(s: Strip, rng: HwRng, now: u32)
    requires s.Valid() && rng.Valid() && Ready(s.Abs(rng)) && 41 <= s.effect <= 48
    modifies s.leds, s`fault, s`step, s`auxParam, s`auxParam3, s`cycle, s`nextTime, rng
    ensures s.Abs(rng) == Modes6(old(s.Abs(rng)), rng.hw, now)
  {
    match s.effect
    case 41 => ModeRunningRedBlue(s, rng, now);
    case 42 => ModeRunningRandom(s, rng, now);
    case 43 => ModeLarsonScanner(s, rng, now);
    case 44 => ModeComet(s, rng, now);
    case 45 => ModeFireworks(s, rng, now);
    case 46 => ModeFireworksRandom(s, rng, now);
    case 47 => ModeMerryChristmas(s, rng, now);
    case _ => ModeFireFlicker(s, rng, now);
  }

  method RunModes7(s: Strip, rng: HwRng, sine8: u8 -> u8, now: u32)
    requires s.Valid() && rng.Valid() && Ready(s.Abs(rng)) && 49 <= s.effect <= 56
    modifies s.leds, s`fault, s`step, s`auxParam, s`auxParam3, s`cycle, s`nextTime, rng
    ensures s.Abs(rng) == Modes7(old(s.Abs(rng)), rng.hw, sine8, now)
  {
    match s.effect
    case 49 => ModeFireFlickerSoft(s, rng, now);
    case 50 => ModeFireFlickerIntense(s, rng, now);
    case 51 => ModeCircusCombustus(s, rng, now);
    case 52 => ModeHalloween(s, rng, now);
    case 53 => ModeBicolorChase(s, rng, now);
    case 54 => ModeTricolorChase(s, rng, now);
    case 55 => ModeTwinkleFox(s, rng, sine8, now);
    case _ => ModeRain(s, rng, now);
  }

  /** The `switch`: run the selected mode, or clear `effect` for an unknown id. */
  method RunMode(s: Strip, rng: HwRng, sine8: u8 -> u8, now: u32)
    requires s.Valid() && rng.Valid() && Ready(s.Abs(rng))
    modifies s.leds, s`effect, s`fault, s`step, s`auxParam, s`auxParam3, s`cycle, s`nextTime, rng
    ensures s.Abs(rng) == Dispatch(old(s.Abs(rng)), rng.hw, sine8, now)
    ensures s.effect == (if 1 <= old(s.effect) <= LAST_EFFECT then old(s.effect) else 0)
  {
    if s.effect == 0 || s.effect > 56 {
      s.effect := 0;
    } else if s.effect <= 8 {
      RunModes1(s, rng, now);
    } else if s.effect <= 16 {
      RunModes2(s, rng, now);
    } else if s.effect <= 24 {
      RunModes3(s, rng, sine8, now);
    } else if s.effect <= 32 {
      RunModes4(s, rng, now);
    } else if s.effect <= 40 {
      RunModes5(s, rng, now);
    } else if s.effect <= 48 {
      RunModes6(s, rng, now);
    } else {
      RunModes7(s, rng, sine8, now);
    }
  }

  /** The due branch: set FRAME, run the mode, count the call. */
  method RunFrame(s: Strip, rng: HwRng, sine8: u8 -> u8, now: u32)
    requires s.Valid() && rng.Valid() && Ready(s.Abs(rng))
    modifies s.leds, s`effect, s`fault, s`step, s`auxParam, s`auxParam3, s`cycle, s`nextTime, s`frame, s`calls, rng
    ensures s.Abs(rng) == Frame(old(s.Abs(rng)), rng.hw, sine8, now)
    ensures s.frame && s.calls == ToU32(old(s.calls) + 1)
    ensures s.effect == (if 1 <= old(s.effect) <= LAST_EFFECT then old(s.effect) else 0)
  {
    s.frame := true;
    RunMode(s, rng, sine8, now);
    s.calls := ToU32(s.calls + 1);
  }

  /**
    `set_lightbulb_fx_effect` at the clock reading `now`; `s == null`
    stands for the NULL record. The result is the FRAME flag, which is
    false for a missing or switched-off strip.
   */
  method SetLightbulbFxEffect(s: Strip?, rng: HwRng, sine8: u8 -> u8, now: u32) returns (isFrame: bool)
    requires s != null ==> s.Valid() && rng.Valid() && Ready(s.Abs(rng))
    modifies if s != null then {s, s.leds} else {}, rng
    ensures s == null ==> !isFrame && rng.drawn == old(rng.drawn)
    ensures s != null ==> isFrame == (old(s.effect) != 0 && Due(old(s.nextTime), now))
    ensures s != null ==> s.Valid() && s.Abs(rng) == Tick(old(s.Abs(rng)), rng.hw, sine8, now)
  {
    if s == null || s.effect == 0 {
      return false;
    }
    s.frame, s.cycle := false, false;
    if now >= s.nextTime || ToU32(s.nextTime - now) > HORIZON {
      RunFrame(s, rng, sine8, now);
    }
    isFrame := s.frame;
  }

  // ------------------------------------------------------------- properties

  /** Not due means `next` lies strictly ahead of `now`, by at most `HORIZON`, without wrapping. */
  lemma DueExactly(next: u32, now: u32)
    ensures !Due(next, now) <==> now < next <= now + HORIZON
  {
  }

  /** A pending frame is due at the latest `HORIZON` milliseconds later, also when the clock wraps in between. */
  lemma DueWithinHorizon(next: u32, now: u32)
    requires !Due(next, now)
    ensures Due(next, ToU32(now + HORIZON))
  {
    DueExactly(next, now);
    if now + HORIZON >= U32_MOD {
      var later := ToU32(now + HORIZON);
      assert later == now + HORIZON - U32_MOD;
      assert ToU32(next - later) == next - later;
    }
  }

  /**
    A delay of at most `HORIZON` set by `set_next_time` holds the next frame
    back while `now + delay` fits 32 bits; when it wraps, the frame is due at
    once, one delay early.
   */
  lemma DelayHolds(now: u32, delay: u32)
    requires 0 < delay <= HORIZON
    ensures now + delay < U32_MOD ==> !Due(ToU32(now + delay), now)
    ensures now + delay >= U32_MOD ==> Due(ToU32(now + delay), now)
    ensures Due(ToU32(now + delay), ToU32(now + delay))
  {
    DueExactly(ToU32(now + delay), now);
  }

  /** A strip that is off is left as it is. */
  lemma TickOff(f: Fx, hw: nat -> u32, sine8: u8 -> u8, now: u32)
    requires WellFormed(f) && Fair(hw) && Ready(f) && f.effect == 0
    ensures Tick(f, hw, sine8, now) == f
  {
  }

  /** Before the due time only the FRAME and CYCLE flags are cleared: pixels, counters, the delay and the generator stay. */
  lemma TickWaits(f: Fx, hw: nat -> u32, sine8: u8 -> u8, now: u32)
    requires WellFormed(f) && Fair(hw) && Ready(f) && f.effect != 0
    requires now < f.nextTime <= now + HORIZON
    ensures var r := Tick(f, hw, sine8, now);
      && !r.frame && !r.cycle
      && r.view == f.view && r.step == f.step && r.calls == f.calls && r.aux == f.aux && r.aux3 == f.aux3
      && r.nextTime == f.nextTime && r.drawn == f.drawn && r.effect == f.effect && r.fault == f.fault
  {
    DueExactly(f.nextTime, now);
  }

  /** A due frame with an unknown id switches the strip off, counts the call and still reports a frame; the pixels stay. */
  lemma TickUnknown(f: Fx, hw: nat -> u32, sine8: u8 -> u8, now: u32)
    requires WellFormed(f) && Fair(hw) && Ready(f) && f.effect > LAST_EFFECT
    requires Due(f.nextTime, now)
    ensures var r := Tick(f, hw, sine8, now);
      && r.effect == 0 && r.frame && !r.cycle
      && r.calls == (f.calls + 1) % U32_MOD
      && r.view == f.view && r.step == f.step && r.nextTime == f.nextTime && r.drawn == f.drawn
  {
  }
}
