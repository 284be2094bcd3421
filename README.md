# Lightbulb FX engine, modelled in Dafny

This project models the addressable-LED effect engine of Home Accessory Architect
(`HAA/HAA_Main/main/lightbulb_fx.c`). The engine is a port of the WS2812FX effect
library. It keeps one record per LED strip. That record holds:

- the strip's geometry (pixel count and 3 or 4 byte channels per pixel);
- a packed options byte (reverse, fade rate, gamma, block size);
- the frame period, the step and call counters, and the due time of the next frame;
- three user colours and two scratch parameters;
- a byte buffer of pixels.

A scheduler, `set_lightbulb_fx_effect`, renders at most one frame per call. It
does so when the strip is switched on and the due time has passed, or when the
due time lies implausibly far (more than 10 000 000 ms) ahead. The frame comes
from one of 56 effect modes. Each mode writes pixels, moves its counters, may
flag the end of a cycle, and sets the due time of the next frame.

The model has one module per layer of the C file. Each module is in its own file.

- `Ints` (`ints.dfy`) gives C's unsigned conversions and divisions on unbounded
  integers: `Wrap`, `ToU8`/`ToU16`/`ToU32`, `Quot`/`Rem`.
- `Color` (`color.dfy`) holds packed colours, the colour wheel, the byte blend and
  the fade step.
- `Entropy` (`entropy.dfy`) holds the random helpers. The hardware generator is a
  class `HwRng`, a stream of 32-bit draws with a cursor. Rejection loops are
  proved to end on a *fair* stream, one in which every 32-bit value recurs after
  any point.
- `Pixels` (`pixels.dfy`) holds the byte layout of the pixel buffer: its pixel view
  `PixelsOf`, and writes, fills, moves and fades on that view.
- `FxState` (`strip.dfy`) holds the record.
  - The class `Strip` has the record's fields and the buffer as an `array<u8>`.
  - `Abs` is the value `Fx` of the whole record. It includes the pixel view and
    the generator's draw count.
  - The class also holds the pixel primitives and the public setters.
- `Effects` (`effects.dfy`) holds the twelve effect helpers (`WS2812FX_blink`
  … `WS2812FX_fire_flicker`). Each is an imperative method. Its `ensures` ties
  the new record to a specification function of the old one. Lemmas state what
  that function does to the pixels and counters.
- `Modes` (`modes.dfy`) holds the 56 effect modes, in the same form.
- `Scheduler` (`scheduler.dfy`) holds the effect switch and `set_lightbulb_fx_effect`.

Inputs that the code reads from outside the file are parameters:

- `now` is the clock reading `get_lightbulb_fx_effect_now_ms()`.
- `sine8` is the floating-point `WS2812FX_fast_sine8`.
- `HwRng.hw` is the stream of `hwrand()` draws.

Some C behaviour is undefined: writes past the pixel buffer, and a `memmove` of
a range past the strip. The model skips such a write and raises the ghost flag
`fault`. Lemmas name the modes that do this. Reading `colors[i]` for `i >= 3`
gives black and raises `fault`.

Behaviour of the code worth noting, which the model keeps as written:

- **An unknown effect id.** FRAME is set before the `switch` (line 1416). The
  `default` case clears `effect` (lines 1643-1645), so `set_lightbulb_fx_effect`
  returns true for that tick. This is `Scheduler.TickUnknown`.
- **twinkleFOX's pair choice.** The condition
  `(color2 != BLACK) && (initValue < 128) == 0` (line 1354) groups as
  `color2 != BLACK && initValue >= 128`. `Modes.FoxColor` uses it as written.
- **Scan's counter.** The wipe counter wraps at `2 × ledCount` with a cycle on
  the wrap. The scan counter instead bounces between 0 and `ledCount - size`
  (lines 380-389) and flags a cycle when it turns up again at 0. This is
  `Effects.ScanBouncesUp`, `Effects.ScanTurnsDown` and `Effects.ScanBouncesDown`.
- **Chase's cycle.** The chase counter wraps modulo `ledCount`, but the cycle is
  flagged when `step + 3 size == ledCount` (lines 573-575), not on the wrap.
  This is `Effects.ChaseCycle`.

## Model

| member | source | states |
|---|---|---|
| Ints.Wrap | HAA/HAA_Main/main/lightbulb_fx.c:325 | a C conversion to an unsigned width lands in `[0, m)` and keeps a value already in range |
| Ints.WrapIsMod | HAA/HAA_Main/main/lightbulb_fx.c:325 | that conversion is the remainder modulo the width |
| Ints.QuotRemIsDivMod | HAA/HAA_Main/main/lightbulb_fx.c:331 | unsigned `a / b` and `a % b` by a variable divisor are Euclidean quotient and remainder |
| Ints.ToInt32 | HAA/HAA_Main/main/lightbulb_fx.c:844 | `int lum = counter_mode_step` reads the 32-bit counter as two's complement; the result converts back to the counter |
| Color.ChannelsOfPack | HAA/HAA_Main/main/lightbulb_fx.c:219-226 | the four bytes `setPixelColor_2` extracts from a packed colour are the ones it was packed from |
| Color.PackOfChannels | HAA/HAA_Main/main/lightbulb_fx.c:219-226 | repacking the extracted W, R, G, B bytes gives back the colour |
| Color.ChannelsDetermineColor | HAA/HAA_Main/main/lightbulb_fx.c:219-226 | two colours with the same four bytes are equal |
| Color.ColorWheelIsPureHue | HAA/HAA_Main/main/lightbulb_fx.c:252-266 | every wheel colour has no white, one dark channel, and red + green + blue = 255 |
| Color.ColorWheelSegments | HAA/HAA_Main/main/lightbulb_fx.c:252-266 | the three thirds of the wheel: which channel is dark and the ramp value of red or green in each |
| Color.BlendChannel | HAA/HAA_Main/main/lightbulb_fx.c:346 | one blended byte `amt * (b - a) / 256 + a` (C truncating division) lies between `a` and `b` |
| Color.ColorBlendFixedPoints | HAA/HAA_Main/main/lightbulb_fx.c:336-357 | blend amount 0 gives the first colour, 255 the second, and blending a colour with itself gives it back |
| Color.ColorBlendBetween | HAA/HAA_Main/main/lightbulb_fx.c:336-357 | every byte of a blend lies between the corresponding bytes of the two colours |
| Color.FadeChannel | HAA/HAA_Main/main/lightbulb_fx.c:502-514 | a faded channel lies between the current and the target value, and jumps to the target when within 2 |
| Color.FadeDeltaBounds | HAA/HAA_Main/main/lightbulb_fx.c:509-512 | the shifted fade delta `(d >> h) + (d >> l)` never overshoots the distance to the target |
| Color.HalveColorIsMaskedShift | HAA/HAA_Main/main/lightbulb_fx.c:492-493 | `HalveColor(c)`, the four bytes each halved on their own, equals C's `(c >> 1) & 0x7F7F7F7F` with `&` taken bit by bit (`Ints.BitAnd`) |
| Entropy.Uniform | HAA/HAA_Main/main/lightbulb_fx.c:183-193 | `random(min, max)`: in `[min, max]` when `min < max`, `min` when equal, 0 when inverted |
| Entropy.Random8Lim | HAA/HAA_Main/main/lightbulb_fx.c:199-201 | `random8_lim(lim)` lies in `[0, lim + 1]`, one more than the limit |
| Entropy.Random16Lim | HAA/HAA_Main/main/lightbulb_fx.c:209-211 | `random16_lim(lim)` lies in `[0, lim + 1]` |
| Entropy.Random8IsLowByte | HAA/HAA_Main/main/lightbulb_fx.c:195-197 | `random8()` is the low byte of the hardware draw |
| Entropy.Random8LimReaches | HAA/HAA_Main/main/lightbulb_fx.c:199-201 | every value of `[0, lim + 1]` is the result of some draw, the value `lim + 1` included |
| Entropy.Random16LimReaches | HAA/HAA_Main/main/lightbulb_fx.c:209-211 | every value of `[0, lim + 1]` is the result of some 16-bit draw |
| Entropy.WheelDistance | HAA/HAA_Main/main/lightbulb_fx.c:276-278 | the distance `min(abs(pos - r), 255 - abs(pos - r))` the hue loop tests is at most 127 |
| Entropy.OppositeHueIsDistinct | HAA/HAA_Main/main/lightbulb_fx.c:274-279 | the hue half a wheel away is at distance 127, so the hue loop has a value that ends it |
| Entropy.AttainableCases | HAA/HAA_Main/main/lightbulb_fx.c:274-279 | the hue loop can always end; a colour-choice loop can end exactly when one of the three colours is not black |
| Entropy.FirstAccepted | HAA/HAA_Main/main/lightbulb_fx.c:274-279 | the draw that ends a rejection loop: it is accepted and every earlier draw of the loop is rejected |
| Entropy.FirstAcceptedUnique | HAA/HAA_Main/main/lightbulb_fx.c:274-279 | only one draw has that property |
| Entropy.FarDrawAhead | HAA/HAA_Main/main/lightbulb_fx.c:274-279 | a fair stream holds, after any point, a draw at wheel distance at least 42 |
| Entropy.HwRng.constructor | HAA/HAA_Main/main/lightbulb_fx.c:185 | a generator over a fair stream, with no draw consumed |
| Entropy.HwRng.Next | HAA/HAA_Main/main/lightbulb_fx.c:185 | `hwrand()` returns the next draw and consumes exactly one |
| Entropy.HwRng.DrawRange | HAA/HAA_Main/main/lightbulb_fx.c:183-193 | `random(min, max)` returns `Uniform` of the next draw and consumes a draw only when `min < max` |
| Entropy.HwRng.Draw8 | HAA/HAA_Main/main/lightbulb_fx.c:195-197 | `random8()` returns the low byte of the next draw |
| Entropy.HwRng.Draw8Lim | HAA/HAA_Main/main/lightbulb_fx.c:199-201 | `random8_lim(lim)` returns `Random8Lim` of the next draw |
| Entropy.HwRng.Draw16Lim | HAA/HAA_Main/main/lightbulb_fx.c:209-211 | `random16_lim(lim)` returns `Random16Lim` of the next draw |
| Entropy.HwRng.DrawWheelIndex | HAA/HAA_Main/main/lightbulb_fx.c:268-282 | the hue loop returns the first draw at wheel distance at least 42 from `pos`; all draws before it were nearer |
| Pixels.ReadBackWritten | HAA/HAA_Main/main/lightbulb_fx.c:173-181 | a pixel written with colour `c` reads back as `c` (without white on a 3-channel strip) |
| Pixels.WriteBackRead | HAA/HAA_Main/main/lightbulb_fx.c:459-473 | writing back the colour read from a pixel restores its bytes |
| Pixels.PutBytesElsewhere | HAA/HAA_Main/main/lightbulb_fx.c:173-181 | writing one pixel's bytes leaves every other pixel unchanged |
| Pixels.PixelsAfterPutBytes | HAA/HAA_Main/main/lightbulb_fx.c:173-181 | a byte-level pixel write changes the pixel view at that pixel only |
| Pixels.PutRangeAt | HAA/HAA_Main/main/lightbulb_fx.c:247-249 | the fill loop sets exactly the pixels of `[lo, hi)` |
| Pixels.FillViewExactly | HAA/HAA_Main/main/lightbulb_fx.c:228-250 | `fill(c, first, count)` does nothing past the end; otherwise exactly `[first, end)` shows `c`, `end` being the strip's end for count 0 and clamped to it otherwise |
| Pixels.FillWholeStrip | HAA/HAA_Main/main/lightbulb_fx.c:237-238 | `fill(c, 0, 0)` and `fill(c, 0, n)` paint the whole strip |
| Pixels.PixelAfterMove | HAA/HAA_Main/main/lightbulb_fx.c:284-289 | after the `memmove`, a pixel in the destination range shows the source pixel it came from, others are unchanged |
| Pixels.PixelsAfterMove | HAA/HAA_Main/main/lightbulb_fx.c:284-289 | a byte move of whole pixels is the pixel move `MoveView`, with overlap handled as by a temporary copy |
| Pixels.BufferOfPixels | HAA/HAA_Main/main/lightbulb_fx.c:459-473 | the buffer is determined by the colours `getPixelColor` reads from it |
| FxState.WithReverseExact | HAA/HAA_Main/main/lightbulb_fx.c:122-128 | `set_fx_reverse` sets bit 7 to the flag and leaves the other bits |
| FxState.WithSizeExact | HAA/HAA_Main/main/lightbulb_fx.c:130-133 | a size of at most 3 lands in bits 1-2 and leaves the other bits |
| FxState.WithSizeUnmasked | HAA/HAA_Main/main/lightbulb_fx.c:130-133 | the unmasked `new_size << 1` spills larger sizes into other options: 4 sets gamma, 64 sets reverse, 8 sets fade rate 1 |
| FxState.Strip.constructor | HAA/HAA_Main/main/lightbulb_fx.c:109-120 | `new_lightbulb_fx_data`: a zeroed record with the given geometry, speed 910, black colours and a dark strip |
| FxState.Strip.GetPixel | HAA/HAA_Main/main/lightbulb_fx.c:459-473 | `getPixelColor(p)` is pixel `p` of the view; a 3-channel strip never reports white |
| FxState.Strip.SetPixel5 | HAA/HAA_Main/main/lightbulb_fx.c:173-181 | writes R, G, B (W) at `addr * channels`; an address past the strip writes nothing and raises `fault` |
| FxState.Strip.SetPixel | HAA/HAA_Main/main/lightbulb_fx.c:219-226 | the packed-colour write changes the view at `addr` only, with the same fault rule |
| FxState.Strip.Fill | HAA/HAA_Main/main/lightbulb_fx.c:228-250 | the new view is `FillView` of the old one, and it never faults |
| FxState.Strip.CopyPixels | HAA/HAA_Main/main/lightbulb_fx.c:284-289 | a move inside the strip moves the pixels; a range past the strip raises `fault` and leaves the view |
| FxState.Strip.FadeOutColor | HAA/HAA_Main/main/lightbulb_fx.c:475-517 | every pixel is halved (rate 0) or moved one fade step toward the target (rates 1-7) |
| FxState.Strip.FadeOut | HAA/HAA_Main/main/lightbulb_fx.c:520-522 | the fade toward the second colour |
| FxState.Strip.SetNextTime | HAA/HAA_Main/main/lightbulb_fx.c:139-141 | the next due time is `now + delay`, wrapped to 32 bits |
| FxState.Strip.SetSpeed | HAA/HAA_Main/main/lightbulb_fx.c:1398-1403 | the period is `(100 - s) * 30 + 10` in 16 bits and the next frame is due 100 ms later |
| FxState.Strip.SetReverse | HAA/HAA_Main/main/lightbulb_fx.c:122-128 | the reverse flag reads back as set, with the other options kept |
| FxState.Strip.SetSize | HAA/HAA_Main/main/lightbulb_fx.c:130-133 | the options after `set_fx_size`; a size of at most 3 reads back |
| FxState.SpeedOf | HAA/HAA_Main/main/lightbulb_fx.c:1398-1401 | percentages up to 100 give periods 3010 down to 10 ms; above 100 the period wraps around 16 bits |
| FxState.SpeedOfMonotone | HAA/HAA_Main/main/lightbulb_fx.c:1398-1401 | a higher percentage never gives a longer period |
| Effects.CountFrameCycles | HAA/HAA_Main/main/lightbulb_fx.c:417-420 | below the 32-bit top the counter rises by one and a cycle is flagged exactly when `n` divides it |
| Effects.Blink | HAA/HAA_Main/main/lightbulb_fx.c:291-303 | `WS2812FX_blink` computes `BlinkFx` and returns the on or off delay |
| Effects.BlinkPaintsStrip | HAA/HAA_Main/main/lightbulb_fx.c:291-303 | a blink frame paints the whole strip in one colour, and consecutive calls swap the two colours |
| Effects.StrobeDelayWraps | HAA/HAA_Main/main/lightbulb_fx.c:296 | the strobe's off time `speed - 20` wraps to more than 65 s below a speed of 20 |
| Effects.WipeStep | HAA/HAA_Main/main/lightbulb_fx.c:325 | the wipe counter stays below `2n` |
| Effects.ColorWipe | HAA/HAA_Main/main/lightbulb_fx.c:305-332 | `WS2812FX_color_wipe` computes `ColorWipeFx` and returns `speed / 2n` |
| Effects.WipeCounterCycles | HAA/HAA_Main/main/lightbulb_fx.c:325-329 | the counter runs through `[0, 2n)`, and a cycle is flagged exactly on its wrap |
| Effects.ReverseWipeOverruns | HAA/HAA_Main/main/lightbulb_fx.c:309-310 | reversed, the first wipe frame writes pixel `n`, one past the strip |
| Effects.Scan | HAA/HAA_Main/main/lightbulb_fx.c:360-392 | `WS2812FX_scan` computes `ScanFx` |
| Effects.ScanBouncesUp | HAA/HAA_Main/main/lightbulb_fx.c:380-389 | going up below `n - size`, the counter rises by one and keeps its direction |
| Effects.ScanTurnsDown | HAA/HAA_Main/main/lightbulb_fx.c:387-389 | reaching `n - size` turns the scan down |
| Effects.ScanBouncesDown | HAA/HAA_Main/main/lightbulb_fx.c:380-385 | going down the counter falls by one; reaching 0 turns it up and flags a cycle |
| Effects.ScanPaintsBar | HAA/HAA_Main/main/lightbulb_fx.c:368-378 | after `k` iterations the bar colour lies on `[step, step + k)` unless reversed and on `(n - step - k, n - step]` when reversed or dual, the background everywhere else, with no fault |
| Effects.ScanShowsBars | HAA/HAA_Main/main/lightbulb_fx.c:360-378 | a scan frame with its bars inside the strip shows the forward bar, the mirrored bar, or both (dual), each `size` pixels long, over the background |
| Effects.ScanFaultSticks | HAA/HAA_Main/main/lightbulb_fx.c:370-373 | once a scan write lands past the strip the fault stays |
| Effects.ReverseScanOverruns | HAA/HAA_Main/main/lightbulb_fx.c:371-372 | reversed or dual, the first frame writes pixel `n`, past the strip |
| Effects.TriIndexTracks | HAA/HAA_Main/main/lightbulb_fx.c:398-401 | the reduced loop index equals `(step + i) mod 3 size` |
| Effects.TricolorChase | HAA/HAA_Main/main/lightbulb_fx.c:394-423 | `WS2812FX_tricolor_chase` computes `TricolorFx` |
| Effects.TriPaintAt | HAA/HAA_Main/main/lightbulb_fx.c:400-415 | after `k` iterations, the pixels reached show their pattern colour and the rest are unchanged |
| Effects.TricolorPattern | HAA/HAA_Main/main/lightbulb_fx.c:394-415 | every pixel shows the three-block pattern shifted by the counter, mirrored unless reversed, with no fault |
| Effects.Twinkle | HAA/HAA_Main/main/lightbulb_fx.c:444-457 | `WS2812FX_twinkle` computes `TwinkleFx` |
| Effects.TwinkleRoundLength | HAA/HAA_Main/main/lightbulb_fx.c:445-449 | a new round lights between `n/4 + 1` and `2 (n/4 + 1)` pixels |
| Effects.TwinkleCanOverrun | HAA/HAA_Main/main/lightbulb_fx.c:452 | `random16_lim(n - 1)` can pick pixel `n`, past the strip |
| Effects.TwinkleFade | HAA/HAA_Main/main/lightbulb_fx.c:524-535 | `WS2812FX_twinkle_fade` computes `TwinkleFadeFx`: fade, then a block on one draw in five |
| Effects.TwinkleSparkAt | HAA/HAA_Main/main/lightbulb_fx.c:527-532 | one draw in five lights the block at the index of the next draw and flags a cycle; otherwise only the draw is spent; no fault |
| Effects.TwinkleFadeSparks | HAA/HAA_Main/main/lightbulb_fx.c:524-535 | the frame is the faded strip plus that spark, due after `speed / 16` |
| Effects.Sparkle | HAA/HAA_Main/main/lightbulb_fx.c:537-551 | `WS2812FX_sparkle` computes `SparkleFx`: restore the old spark, light a new one at a remembered index |
| Effects.SparkleMovesSpark | HAA/HAA_Main/main/lightbulb_fx.c:537-551 | the new block at the fresh `aux_param3` shows colour 2, the old block (the whole strip on step 0) colour 1, other pixels are kept; one draw, a cycle, no fault |
| Effects.ChaseTrio | HAA/HAA_Main/main/lightbulb_fx.c:557-559 | the three chase pixels `a`, `b`, `c` are inside the strip |
| Effects.ChaseStep | HAA/HAA_Main/main/lightbulb_fx.c:577 | the chase counter stays below `n` |
| Effects.Chase | HAA/HAA_Main/main/lightbulb_fx.c:553-580 | `WS2812FX_chase` computes `ChaseFx` |
| Effects.ChaseCounterCycles | HAA/HAA_Main/main/lightbulb_fx.c:577 | the counter rises by one and wraps to 0 after `n - 1` |
| Effects.ChaseStaysInside | HAA/HAA_Main/main/lightbulb_fx.c:556-571 | the chase loop never writes past the strip |
| Effects.ChasePutInside | HAA/HAA_Main/main/lightbulb_fx.c:561-570 | the three writes of one iteration, direct or mirrored, stay inside |
| Effects.ChaseNeverFaults | HAA/HAA_Main/main/lightbulb_fx.c:553-580 | a whole chase frame raises no fault |
| Effects.ChaseIterAt | HAA/HAA_Main/main/lightbulb_fx.c:557-570 | iteration `i` paints the pixels `i`, `i + size` and `i + 2 size` places past the counter (mirrored when reversed) in `color1`, `color2`, `color3`, and leaves every other pixel alone |
| Effects.ChaseUpToAt | HAA/HAA_Main/main/lightbulb_fx.c:556-571 | after `k` iterations the pixels `d < k`, `size <= d < size + k` and `2 size <= d < 2 size + k` places past the counter show `color1`, `color2`, `color3`; every other pixel is unchanged |
| Effects.ChasePixels | HAA/HAA_Main/main/lightbulb_fx.c:553-571 | when `3 size <= n`, a frame paints the blocks `[0, size)`, `[size, 2 size)`, `[2 size, 3 size)` past the counter in `color1`, `color2`, `color3` and leaves the rest of the strip as it was |
| Effects.ChaseDistanceOf | HAA/HAA_Main/main/lightbulb_fx.c:557-562 | `WS2812FX_chase`'s pixel `(step + j) % n`, or `n - 1` minus it when reversed, is the one `j` places past the counter |
| Effects.ChaseCycle | HAA/HAA_Main/main/lightbulb_fx.c:573-577 | a frame flags a cycle exactly when `step + 3 size == n` (or it was already flagged), and the counter moves to `(step + 1) % n` |
| Effects.ChaseFlash | HAA/HAA_Main/main/lightbulb_fx.c:582-613 | `WS2812FX_chase_flash` computes `ChaseFlashFx`: flash frames, then the pair advances |
| Effects.Put2At | HAA/HAA_Main/main/lightbulb_fx.c:591-597 | two pixel writes paint exactly the pair and fault exactly when one is off the strip |
| Effects.ChaseFlashFlashes | HAA/HAA_Main/main/lightbulb_fx.c:583-599 | a flash frame paints only the pair, colour 2 on even phases and colour 1 on odd ones, keeps step, hue and draws, and is due after 30 ms |
| Effects.ChaseFlashNewHue | HAA/HAA_Main/main/lightbulb_fx.c:603-609 | when the pair wraps, the new hue is at least 42 wheel steps from the old one |
| Effects.Running | HAA/HAA_Main/main/lightbulb_fx.c:615-633 | `WS2812FX_running` computes `RunningFx` |
| Effects.RunningShifts | HAA/HAA_Main/main/lightbulb_fx.c:619-625 | the strip shifts one pixel away from the start (toward it when reversed) and the freed end shows the new colour |
| Effects.DiffuseBytes | HAA/HAA_Main/main/lightbulb_fx.c:643-647 | the in-place byte loop leaves the buffer as `Diffuse` says |
| Effects.Diffusion | HAA/HAA_Main/main/lightbulb_fx.c:639-647 | the diffusion pass on the record |
| Effects.DiffusedBuffer | HAA/HAA_Main/main/lightbulb_fx.c:639-647 | the pass acts on the buffer the view is read from |
| Effects.DiffuseNeverDarkens | HAA/HAA_Main/main/lightbulb_fx.c:643-647 | no byte gets darker, and bytes outside `[ch, stop)` are untouched |
| Effects.DiffuseUsesUpdatedLeft | HAA/HAA_Main/main/lightbulb_fx.c:643-647 | byte `i` mixes the already updated byte `i - ch` with the original bytes `i` and `i + ch`, saturating at 255 |
| Effects.Bursts | HAA/HAA_Main/main/lightbulb_fx.c:665 | a frame has at least one burst |
| Effects.BurstLoop | HAA/HAA_Main/main/lightbulb_fx.c:666-671 | the burst loop lights `numBursts` random blocks |
| Effects.BurstsPaint | HAA/HAA_Main/main/lightbulb_fx.c:666-671 | after `k` bursts a pixel shows the burst colour exactly when one of the `k` blocks, each starting at `random16_lim(lim)` of its own draw, covers it (`InRandomBlocks`), and is unchanged otherwise; `k` draws are spent, a cycle is flagged when `k > 0`, no fault |
| Effects.Bursting | HAA/HAA_Main/main/lightbulb_fx.c:649-671 | the bursts are `n / 10` (at least one) blocks of `2 << SIZE_OPTION` pixels |
| Effects.Fireworks | HAA/HAA_Main/main/lightbulb_fx.c:635-675 | `WS2812FX_fireworks` computes `FireworksFx`: fade, diffuse, bursts |
| Effects.FlickerLum | HAA/HAA_Main/main/lightbulb_fx.c:678-688 | the flicker limit is the brightest byte of colour 0 divided by the intensity |
| Effects.FireFlicker | HAA/HAA_Main/main/lightbulb_fx.c:677-702 | `WS2812FX_fire_flicker` computes `FireFlickerFx` |
| Effects.FlickerNeverBrightens | HAA/HAA_Main/main/lightbulb_fx.c:692-695 | a flickered channel is never brighter than the colour's channel |
| Effects.FireFlickerRepaints | HAA/HAA_Main/main/lightbulb_fx.c:690-697 | pixel `p` shows colour 0 dimmed by draw `p` of the frame, with no fault |
| Modes.RehuedMovesHue | HAA/HAA_Main/main/lightbulb_fx.c:268-282 | a new random hue is far from the old one and nothing but the hue and the draws change |
| Modes.DrawnBlocksAt | HAA/HAA_Main/main/lightbulb_fx.c:803-805 | after the block loop from `i`, pixel `p` shows the hue of draw `(p - i) / size` |
| Modes.WheelBlocks | HAA/HAA_Main/main/lightbulb_fx.c:803-805 | the random-hue block loop on the strip is `DrawnBlocksFrom` |
| Modes.WheelPixels | HAA/HAA_Main/main/lightbulb_fx.c:829-831 | the random-hue pixel loop on the strip is `DrawnPixels` |
| Modes.CopyOrFault | HAA/HAA_Main/main/lightbulb_fx.c:284-289 | `copyPixels` as the modes call it, faulting on an overrun |
| Modes.ModeBlink | HAA/HAA_Main/main/lightbulb_fx.c:710-712 | a blink frame of colours 0 and 1, due after `speed / 2` |
| Modes.ModeBlinkRainbow | HAA/HAA_Main/main/lightbulb_fx.c:717-719 | a blink frame whose on colour is the call hue |
| Modes.ModeStrobe | HAA/HAA_Main/main/lightbulb_fx.c:724-726 | a strobe frame of colours 0 and 1 |
| Modes.ModeStrobeRainbow | HAA/HAA_Main/main/lightbulb_fx.c:731-733 | a strobe frame whose on colour is the call hue |
| Modes.CallHueAdvances | HAA/HAA_Main/main/lightbulb_fx.c:718 | the rainbow hue is `4 calls mod 256` and moves four wheel steps per call |
| Modes.ModeColorWipe | HAA/HAA_Main/main/lightbulb_fx.c:738-740 | a wipe of colour 0 then colour 1 |
| Modes.ModeColorWipeInv | HAA/HAA_Main/main/lightbulb_fx.c:742-744 | a wipe of colour 1 then colour 0 |
| Modes.ModeColorWipeRev | HAA/HAA_Main/main/lightbulb_fx.c:746-748 | a wipe whose second half runs back |
| Modes.ModeColorWipeRevInv | HAA/HAA_Main/main/lightbulb_fx.c:750-752 | the inverted wipe whose second half runs back |
| Modes.WipeRandom | HAA/HAA_Main/main/lightbulb_fx.c:758-779 | a wipe in one random hue, re-drawn at the start of each pass, due after twice the wipe delay |
| Modes.ModeColorWipeRandom | HAA/HAA_Main/main/lightbulb_fx.c:758-766 | the random wipe forward |
| Modes.ModeColorSweepRandom | HAA/HAA_Main/main/lightbulb_fx.c:771-779 | the random wipe back |
| Modes.WipeRandomRehues | HAA/HAA_Main/main/lightbulb_fx.c:759-761 | the hue changes exactly when the counter is a multiple of `n`, and then it moves at least 42 steps |
| Modes.ModeRandomColor | HAA/HAA_Main/main/lightbulb_fx.c:785-793 | a new random hue on the whole strip |
| Modes.RandomColorPaintsStrip | HAA/HAA_Main/main/lightbulb_fx.c:785-793 | the strip is solid in the new hue, which is at least 42 steps from the old |
| Modes.ModeSingleDynamic | HAA/HAA_Main/main/lightbulb_fx.c:799-814 | the frame: random hues on the first call, then one random block repainted |
| Modes.BlockLoopDraws | HAA/HAA_Main/main/lightbulb_fx.c:803-805 | the block loop takes one draw per block, `ceil((n - i) / size)` in all |
| Modes.SingleDynamicFirstFrame | HAA/HAA_Main/main/lightbulb_fx.c:802-809 | on the first call every pixel outside the repainted block shows the hue of its block's draw |
| Modes.DynamicStartAt | HAA/HAA_Main/main/lightbulb_fx.c:802-806 | on the first call the block loop gives pixel `p` the hue of draw `p / size`, takes `ceil(n / size)` draws and never faults |
| Modes.DynamicBlockAt | HAA/HAA_Main/main/lightbulb_fx.c:807-809 | one repainted block shows the hue of the second draw at `random16_lim(n / size) * size`; other pixels are kept, no fault |
| Modes.ModeMultiDynamic | HAA/HAA_Main/main/lightbulb_fx.c:820-837 | the frame: every block (or pixel) gets a fresh random hue |
| Modes.MultiDynamicAt | HAA/HAA_Main/main/lightbulb_fx.c:821-832 | both branches give pixel `p` the hue of draw `p / size` |
| Modes.MultiDynamicRepaints | HAA/HAA_Main/main/lightbulb_fx.c:820-837 | every pixel shows the wheel colour of its block's draw, with no fault |
| Modes.FillLevel | HAA/HAA_Main/main/lightbulb_fx.c:844-860 | the brightness is the triangle of the counter, and the strip is filled with that blend |
| Modes.ModeBreath | HAA/HAA_Main/main/lightbulb_fx.c:843-869 | the breath frame |
| Modes.TriangleRange | HAA/HAA_Main/main/lightbulb_fx.c:844-847 | the brightness `lum` lies in `[0, 255]`, rises with the counter to 255 and falls back symmetrically |
| Modes.LevelFillIsSolid | HAA/HAA_Main/main/lightbulb_fx.c:859-860 | the strip shows one blend of colours 1 and 0 |
| Modes.BreathCounterCycles | HAA/HAA_Main/main/lightbulb_fx.c:859-866 | the counter rises by two and restarts at 15 after 497, which is exactly when a cycle is flagged |
| Modes.BreathPauses | HAA/HAA_Main/main/lightbulb_fx.c:850 | the 970 ms pause comes only at counter 15 or 496, the dim end of the breath |
| Modes.ModeFade | HAA/HAA_Main/main/lightbulb_fx.c:874-890 | the fade frame |
| Modes.FadeCounterCycles | HAA/HAA_Main/main/lightbulb_fx.c:875-887 | the counter rises by four and restarts at 0 past 511, flagging a cycle, over a solid blend |
| Modes.ModeRainbow | HAA/HAA_Main/main/lightbulb_fx.c:909-920 | the rainbow frame |
| Modes.RainbowCounterCycles | HAA/HAA_Main/main/lightbulb_fx.c:909-917 | the strip shows the wheel colour of the counter, which wraps at 256 with a cycle |
| Modes.CycleIncrement | HAA/HAA_Main/main/lightbulb_fx.c:936-939 | the hue increment is at least 1 |
| Modes.ModeRainbowCycle | HAA/HAA_Main/main/lightbulb_fx.c:925-949 | the rainbow cycle frame |
| Modes.RainbowCycleCounter | HAA/HAA_Main/main/lightbulb_fx.c:925-946 | the new hue enters at the start (end when reversed), and the counter moves by the increment modulo 256, flagging a cycle on wrap |
| Modes.CycleIncrementValues | HAA/HAA_Main/main/lightbulb_fx.c:936-939 | the increment is `256 / n` in 8 bits, or 1 when that is 0 |
| Modes.ModeScan | HAA/HAA_Main/main/lightbulb_fx.c:895-897 | a single scan of colour 0 over colour 1 |
| Modes.ModeDualScan | HAA/HAA_Main/main/lightbulb_fx.c:902-904 | a dual scan of colour 0 over colour 1 |
| Modes.ModeTricolorChase | HAA/HAA_Main/main/lightbulb_fx.c:954-956 | the tricolor chase of the three colours |
| Modes.ModeCircusCombustus | HAA/HAA_Main/main/lightbulb_fx.c:961-963 | the tricolor chase of red, white and black |
| Modes.ModeTheaterChase | HAA/HAA_Main/main/lightbulb_fx.c:969-971 | the tricolor chase of colour 0 and twice colour 1 |
| Modes.ModeTheaterChaseRainbow | HAA/HAA_Main/main/lightbulb_fx.c:977-981 | the theatre chase with the next hue |
| Modes.TheaterRainbowPattern | HAA/HAA_Main/main/lightbulb_fx.c:977-981 | every pixel shows the pattern with the hue `aux + 1` |
| Modes.LightsIncrement | HAA/HAA_Main/main/lightbulb_fx.c:987-989 | the sine increment is at least 1 |
| Modes.LightsLoop | HAA/HAA_Main/main/lightbulb_fx.c:991-1000 | the pixel loop of running lights |
| Modes.ModeRunningLights | HAA/HAA_Main/main/lightbulb_fx.c:986-1008 | the running lights frame |
| Modes.LightsAt | HAA/HAA_Main/main/lightbulb_fx.c:991-1000 | after `k` iterations, the pixels from the start (from the end unless reversed) show their colour |
| Modes.RunningLightsPaints | HAA/HAA_Main/main/lightbulb_fx.c:991-1000 | every pixel shows the sine blend of its position plus the counter, with no fault |
| Modes.RunningLightsCounter | HAA/HAA_Main/main/lightbulb_fx.c:1002-1005 | the counter wraps at 256 with a cycle |
| Modes.ModeTwinkle | HAA/HAA_Main/main/lightbulb_fx.c:1014-1016 | twinkle of colour 0 over colour 1 |
| Modes.ModeTwinkleRandom | HAA/HAA_Main/main/lightbulb_fx.c:1022-1024 | twinkle in a random hue drawn before the frame |
| Modes.ModeTwinkleFade | HAA/HAA_Main/main/lightbulb_fx.c:1029-1031 | twinkle fade of colour 0 |
| Modes.ModeTwinkleFadeRandom | HAA/HAA_Main/main/lightbulb_fx.c:1036-1038 | twinkle fade in a random hue |
| Modes.ModeSparkle | HAA/HAA_Main/main/lightbulb_fx.c:1044-1046 | sparkle of colour 0 over colour 1 |
| Modes.ModeFlashSparkle | HAA/HAA_Main/main/lightbulb_fx.c:1052-1054 | white sparkle over colour 0 |
| Modes.HyperFlashes | HAA/HAA_Main/main/lightbulb_fx.c:1064-1066 | the eight white flashes |
| Modes.ModeHyperSparkle | HAA/HAA_Main/main/lightbulb_fx.c:1060-1071 | the hyper sparkle frame |
| Modes.RandomBlockAt | HAA/HAA_Main/main/lightbulb_fx.c:1065 | a random block fill paints exactly the `size` pixels from `random16_lim(n - size)` of the next draw (cut at the end of the strip), with one draw and no fault |
| Modes.FlashesAt | HAA/HAA_Main/main/lightbulb_fx.c:1064-1066 | after `k` flashes a pixel is white exactly when one of the `k` drawn blocks covers it and is unchanged otherwise, `k` draws taken, no fault |
| Modes.HyperSparkleColors | HAA/HAA_Main/main/lightbulb_fx.c:1060-1071 | a pixel is white exactly when one of the eight drawn blocks covers it and colour 0 otherwise, after exactly eight draws and with no fault |
| Modes.StrobeCount | HAA/HAA_Main/main/lightbulb_fx.c:1080 | the flash count `2 (speed / 100 + 1)` is even and between 2 and 1312 |
| Modes.StrobeDelay | HAA/HAA_Main/main/lightbulb_fx.c:1079-1088 | during the burst the delay is 20 (on) or 50 (off); after it, between 200 and 1100 |
| Modes.StrobePaint | HAA/HAA_Main/main/lightbulb_fx.c:1077-1088 | the strobe paint and its delay |
| Modes.ModeMultiStrobe | HAA/HAA_Main/main/lightbulb_fx.c:1076-1096 | the multi strobe frame |
| Modes.MultiStrobeCycles | HAA/HAA_Main/main/lightbulb_fx.c:1076-1095 | the counter runs through `[0, count]` with a cycle on wrap; the strip is colour 0 on even steps of the burst and colour 1 otherwise; the delay is 20, 50 or the pause `200 + (9 - speed % 10) 100` |
| Modes.ModeBicolorChase | HAA/HAA_Main/main/lightbulb_fx.c:1101-1103 | chase of the three colours: colours 1 and 2 run over colour 0, which each frame leaves behind |
| Modes.ModeChaseColor | HAA/HAA_Main/main/lightbulb_fx.c:1108-1110 | white running on colour 0: the chase of colour 0, white, white |
| Modes.ModeChaseBlackout | HAA/HAA_Main/main/lightbulb_fx.c:1115-1117 | black running on colour 0: the chase of colour 0, black, black |
| Modes.ModeChaseWhite | HAA/HAA_Main/main/lightbulb_fx.c:1122-1124 | colour 0 running on white: the chase of white, colour 0, colour 0 |
| Modes.ModeChaseRandom | HAA/HAA_Main/main/lightbulb_fx.c:1129-1135 | chase of a random hue, redrawn when the counter is 0 |
| Modes.ModeChaseRainbowWhite | HAA/HAA_Main/main/lightbulb_fx.c:1140-1147 | chase of white with two rainbow pixels |
| Modes.ModeChaseRainbow | HAA/HAA_Main/main/lightbulb_fx.c:1152-1158 | white running on the rainbow: the chase of the counter's hue, white, white |
| Modes.ModeChaseBlackoutRainbow | HAA/HAA_Main/main/lightbulb_fx.c:1163-1169 | black running on the rainbow: the chase of the counter's hue, black, black |
| Modes.ChaseRainbowSpread | HAA/HAA_Main/main/lightbulb_fx.c:1153-1155 | the hue is `step (256 / n) + calls` modulo 256 and advances by one per call |
| Modes.ModeChaseFlash | HAA/HAA_Main/main/lightbulb_fx.c:1174-1176 | chase flash of colour 0 and white |
| Modes.ModeChaseFlashRandom | HAA/HAA_Main/main/lightbulb_fx.c:1181-1183 | chase flash of the hue in `aux_param` and white |
| Modes.ModeRunningColor | HAA/HAA_Main/main/lightbulb_fx.c:1188-1190 | running colours 0 and 1 |
| Modes.ModeRunningRedBlue | HAA/HAA_Main/main/lightbulb_fx.c:1195-1197 | running red and blue |
| Modes.ModeMerryChristmas | HAA/HAA_Main/main/lightbulb_fx.c:1202-1204 | running red and green |
| Modes.ModeHalloween | HAA/HAA_Main/main/lightbulb_fx.c:1209-1211 | running purple and orange |
| Modes.ModeRunningRandom | HAA/HAA_Main/main/lightbulb_fx.c:1216-1226 | running random hues, redrawn every `2 << SIZE_OPTION` steps |
| Modes.RunningRandomInjects | HAA/HAA_Main/main/lightbulb_fx.c:1216-1226 | the freed end shows the current hue, no fault |
| Modes.LarsonLight | HAA/HAA_Main/main/lightbulb_fx.c:1234-1247 | the lit pixel of the scanner |
| Modes.ModeLarsonScanner | HAA/HAA_Main/main/lightbulb_fx.c:1231-1257 | the scanner frame |
| Modes.LarsonPixelPath | HAA/HAA_Main/main/lightbulb_fx.c:1234-1247 | the lit pixel goes out and back through the strip, mirrored when reversed |
| Modes.LarsonSweeps | HAA/HAA_Main/main/lightbulb_fx.c:1231-1254 | the faded strip with the lit pixel in colour 0; the counter wraps at `2n - 2` with a cycle |
| Modes.CometLight | HAA/HAA_Main/main/lightbulb_fx.c:1265-1269 | the head of the comet |
| Modes.ModeComet | HAA/HAA_Main/main/lightbulb_fx.c:1262-1278 | the comet frame |
| Modes.CometCycles | HAA/HAA_Main/main/lightbulb_fx.c:1262-1275 | the counter runs through `[0, n)` with a cycle on wrap, over the faded strip |
| Modes.CometOverrunsPastEnd | HAA/HAA_Main/main/lightbulb_fx.c:1267-1268 | forward, a counter at or past `n` (left by another mode) writes past the strip |
| Modes.PickedColor | HAA/HAA_Main/main/lightbulb_fx.c:1286-1288 | the picked colour is not black and is one of the three colours |
| Modes.PickLoop | HAA/HAA_Main/main/lightbulb_fx.c:1286-1288 | the loop stops at the first accepted draw, faulting if an earlier one read past the colours |
| Modes.PickPaletteColor | HAA/HAA_Main/main/lightbulb_fx.c:1286-1288 | the colour-choice loop returns `PickedColor` |
| Modes.ModeFireworks | HAA/HAA_Main/main/lightbulb_fx.c:1283-1291 | fireworks in a non-black colour picked from the colours |
| Modes.FireworksReadsPastColors | HAA/HAA_Main/main/lightbulb_fx.c:1287 | `colors[random8(...)]` indexes by a byte, so draw 3 reads past the array |
| Modes.ColorChoiceEnds | HAA/HAA_Main/main/lightbulb_fx.c:1286-1288 | a colour loop can end exactly when one colour is not black |
| Modes.ModeFireworksRandom | HAA/HAA_Main/main/lightbulb_fx.c:1296-1298 | fireworks in a random hue |
| Modes.RainShiftStep | HAA/HAA_Main/main/lightbulb_fx.c:1389-1393 | the two-pixel shift |
| Modes.ModeRain | HAA/HAA_Main/main/lightbulb_fx.c:1377-1394 | the rain frame |
| Modes.RainShifts | HAA/HAA_Main/main/lightbulb_fx.c:1389-1393 | a strip of fewer than 3 pixels overruns (`n - 3` wraps); otherwise the pixels move two places |
| Modes.ModeFireFlicker | HAA/HAA_Main/main/lightbulb_fx.c:1303-1305 | fire flicker, intensity 3 |
| Modes.ModeFireFlickerSoft | HAA/HAA_Main/main/lightbulb_fx.c:1310-1312 | soft flicker, intensity 6 |
| Modes.ModeFireFlickerIntense | HAA/HAA_Main/main/lightbulb_fx.c:1317-1319 | intense flicker, intensity 1 |
| Modes.FoxIncrement | HAA/HAA_Main/main/lightbulb_fx.c:1339 | the blend increment is even and between 2 and 16 |
| Modes.FoxBlend | HAA/HAA_Main/main/lightbulb_fx.c:1336-1359 | two seed steps, and the group colour from its initial value and the call count |
| Modes.FoxBlock | HAA/HAA_Main/main/lightbulb_fx.c:1336-1367 | one group: its colour fills its block |
| Modes.FoxPixels | HAA/HAA_Main/main/lightbulb_fx.c:1362-1367 | the block loop is a fill of the group |
| Modes.FoxLoop | HAA/HAA_Main/main/lightbulb_fx.c:1333-1368 | the group loop on the strip |
| Modes.ModeTwinkleFox | HAA/HAA_Main/main/lightbulb_fx.c:1323-1373 | the twinkleFOX frame |
| Modes.FoxFillAt | HAA/HAA_Main/main/lightbulb_fx.c:1362-1367 | the inner loop sets exactly the block's pixels inside the strip |
| Modes.FoxFromAt | HAA/HAA_Main/main/lightbulb_fx.c:1333-1368 | each pixel shows the colour of its group's seed pair |
| Modes.SeedForCounts | HAA/HAA_Main/main/lightbulb_fx.c:1336-1338 | the seed reaching a group is the start seed stepped twice per earlier group |
| Modes.TwinkleFoxPixel | HAA/HAA_Main/main/lightbulb_fx.c:1323-1368 | pixel `p` shows the colour of the seeds of its group from seed 0 |
| Modes.FoxFromForgets | HAA/HAA_Main/main/lightbulb_fx.c:1325-1368 | the group loop's pixels do not depend on what the strip showed |
| Modes.TwinkleFoxIsStateless | HAA/HAA_Main/main/lightbulb_fx.c:1325 | with the seed reset each call, the frame's pixels depend only on the colours, the calls and the options |
| Scheduler.RunModes1 | HAA/HAA_Main/main/lightbulb_fx.c:1419-1450 | ids 1-8 run the matching mode |
| Scheduler.RunModes2 | HAA/HAA_Main/main/lightbulb_fx.c:1451-1482 | ids 9-16 run the matching mode |
| Scheduler.RunModes3 | HAA/HAA_Main/main/lightbulb_fx.c:1483-1514 | ids 17-24 run the matching mode |
| Scheduler.RunModes4 | HAA/HAA_Main/main/lightbulb_fx.c:1515-1546 | ids 25-32 run the matching mode |
| Scheduler.RunModes5 | HAA/HAA_Main/main/lightbulb_fx.c:1547-1578 | ids 33-40 run the matching mode |
| Scheduler.RunModes6 | HAA/HAA_Main/main/lightbulb_fx.c:1579-1610 | ids 41-48 run the matching mode |
| Scheduler.RunModes7 | HAA/HAA_Main/main/lightbulb_fx.c:1611-1642 | ids 49-56 run the matching mode |
| Scheduler.RunMode | HAA/HAA_Main/main/lightbulb_fx.c:1418-1646 | the switch runs the mode of a known id and keeps it; an unknown id clears `effect` |
| Scheduler.RunFrame | HAA/HAA_Main/main/lightbulb_fx.c:1416-1648 | a due frame sets FRAME, dispatches and counts the call in 32 bits |
| Scheduler.SetLightbulbFxEffect | HAA/HAA_Main/main/lightbulb_fx.c:1405-1656 | NULL and switched-off strips report no frame and change nothing; otherwise the flags are cleared, a due frame is rendered, and the result is whether a frame was due |
| Scheduler.DueExactly | HAA/HAA_Main/main/lightbulb_fx.c:1415 | a frame is pending exactly when the due time lies ahead by 1 to 10 000 000 ms without wrapping |
| Scheduler.DueWithinHorizon | HAA/HAA_Main/main/lightbulb_fx.c:1415 | a pending frame is due at the latest 10 000 000 ms later, across a clock wrap too |
| Scheduler.DelayHolds | HAA/HAA_Main/main/lightbulb_fx.c:139-141 | a delay is honoured unless the due time wraps past 2^32, when the frame is due at once |
| Scheduler.TickOff | HAA/HAA_Main/main/lightbulb_fx.c:1406-1408 | effect 0 leaves the record untouched |
| Scheduler.TickWaits | HAA/HAA_Main/main/lightbulb_fx.c:1412-1415 | before the due time only FRAME and CYCLE are cleared |
| Scheduler.TickUnknown | HAA/HAA_Main/main/lightbulb_fx.c:1643-1655 | a due frame with an unknown id clears `effect`, counts the call, keeps the pixels and still reports a frame |

## Left out

- The clock `get_lightbulb_fx_effect_now_ms` (lines 135-137) is the parameter `now`. `set_next_time` reads the clock again in C; the model uses the same reading, as if no tick passed during a frame.
- `WS2812FX_fast_sine8` (lines 425-442) works in floating point. It is the parameter `sine8`, and nothing is proved about its values.
- `hwrand()` is the stream `HwRng.hw`. The model assumes the stream is fair (every value recurs), so that the rejection loops end.
- The global `current_lightbulb_fx_data` is the `Strip` argument itself. Its reset to NULL at line 1653 is not modelled.
- The `calloc` calls of `new_lightbulb_fx_data` always succeed in the model.
- The strip must have 3 or 4 channels, at least one pixel, and fewer than 65536 buffer bytes. Several modes divide by the pixel count; with 0 pixels C divides by zero.
- Writes past the buffer and out-of-bounds `colors[]` reads are undefined behaviour in C. The model records them in the ghost flag `fault`; it skips the write and reads black.
- Modes 45 (fireworks) and 56 (rain) pick a colour by drawing until a non-black entry comes up (lines 1286-1288, 1379-1381), and the draws can index past the three colours. Those reads are undefined behaviour in C: they reach whatever follows the array in the record. The model reads every entry past the array as black, so when all three colours are black it has no draw that ends the loop. `Scheduler.SetLightbulbFxEffect` therefore requires a non-black colour for these two modes.
- Scheduler.Dispatch: the modes leave `speed`, `options`, `colors` and `lastEffect` alone because of their `modifies` clauses. This is not restated as a lemma about the specification functions.
- `WS2812FX_isCycle`, `WS2812FX_random16`, `WS2812FX_setPixelColor_4` and the `_triggered` branch of `WS2812FX_fireworks` are commented out in the source and are not modelled.
- ChasePixels: covers strips with `3 size <= n` and a counter below `n`. With longer blocks the three blocks overlap and the later writes win; a counter at or above `n` comes only from another effect's frames. Neither case is stated.
- ChaseUpToAt: requires `step + k <= 2^32`, so the 32-bit wrap of `step + i` is not covered; `ChasePixels` never needs it, because there the counter is below `n`.
- `libs/homekit-rsf/include/homekit/tlv.h` is not part of this model.
