/**
  The state record of one LED strip (`lightbulb_fx_data_t`) and the pixel
  primitives every effect is built from. The firmware reaches the record
  through a process-wide pointer; here the primitives are methods of the
  record and the effects take it as a parameter.
 */
module FxState {
  import opened Ints
  import opened Color
  import opened Pixels
  import opened Entropy

  // ------------------------------------------------------------ options byte

  /** Bit 7 of `options`: reverse animation. */
  const REVERSE: bv8 := 0x80
  /** Bit 3 of `options`: gamma correction (declared, unused by the effects). */
  const GAMMA: bv8 := 0x08
  /** Bits 1-2 of `options`: the size option. */
  const SIZE_XLARGE: bv8 := 0x06

  predicate IsReverse(options: bv8) { options & REVERSE == REVERSE }

  predicate IsGamma(options: bv8) { options & GAMMA == GAMMA }

  /** A 3-bit field of the options byte as a number (a case split keeps the solver on bit-vectors). */
  function Field3(b: bv8): (r: int)
    requires b < 8
    ensures 0 <= r <= 7 && r as bv8 == b
  {
    if b == 0 then 0 else if b == 1 then 1 else if b == 2 then 2 else if b == 3 then 3
    else if b == 4 then 4 else if b == 5 then 5 else if b == 6 then 6 else 7
  }

  /** Bits 4-6 of `options`. */
  function FadeRateOf(options: bv8): (r: int)
    ensures 0 <= r <= 7
  {
    Field3((options >> 4) & 7)
  }

  /** Bits 1-2 of `options`. */
  function SizeOptionOf(options: bv8): (r: int)
    ensures 0 <= r <= 3
  {
    Field3((options >> 1) & 3)
  }

  /** `set_fx_reverse` on the options byte. */
  function WithReverse(options: bv8, isReverse: bool): bv8
  {
    if isReverse then options | REVERSE else options & !REVERSE
  }

  /** `set_fx_size` on the options byte: the size bits are cleared and `new_size << 1` is OR-ed in unmasked. */
  function WithSize(options: bv8, newSize: u8): bv8
  {
    (options & !SIZE_XLARGE) | (Byte(newSize) << 1)
  }

  /** A byte as a bit-vector. */
  function Byte(x: u8): bv8
  {
    x as bv8
  }

  /** Setting the reverse flag sets exactly bit 7. */
  lemma WithReverseExact(options: bv8, isReverse: bool)
    ensures IsReverse(WithReverse(options, isReverse)) == isReverse
    ensures WithReverse(options, isReverse) & !REVERSE == options & !REVERSE
  {
  }

  /** A size of at most 3 lands in the size bits and leaves every other option as it was. */
  lemma WithSizeExact(options: bv8, newSize: u8)
    requires newSize <= 3
    ensures SizeOptionOf(WithSize(options, newSize)) == newSize
    ensures WithSize(options, newSize) & !SIZE_XLARGE == options & !SIZE_XLARGE
  {
    if newSize == 0 {
      assert Byte(0) == 0;
    } else if newSize == 1 {
      assert Byte(1) == 1;
    } else if newSize == 2 {
      assert Byte(2) == 2;
    } else {
      assert Byte(3) == 3;
    }
  }

  /** A larger size spills into the neighbouring option bits: size 4 switches gamma on, 64 switches reverse on. */
  lemma WithSizeUnmasked(options: bv8)
    ensures IsGamma(WithSize(options, 4))
    ensures IsReverse(WithSize(options, 64))
    ensures FadeRateOf(WithSize(0, 8)) == 1
  {
    assert Byte(4) == 4 && Byte(64) == 64 && Byte(8) == 8;
  }

  // ------------------------------------------------------- the abstract record

  /**
    The whole state an effect reads and changes, as a value: every field of
    the record, the pixel view of its buffer, the two runtime flags, the
    fault flag and the number of hardware random draws consumed so far.
   */
  datatype Fx = Fx(effect: u8, ch: int, n: int, speed: u16, options: bv8, aux: u8,
                   step: u32, calls: u32, nextTime: u32, view: seq<u32>, colors: seq<u32>,
                   aux3: u16, lastEffect: u8, frame: bool, cycle: bool, fault: bool, drawn: nat)

  predicate WellFormed(f: Fx)
  {
    Layout(f.ch, f.n, Offset(f.n, f.ch)) && |f.view| == f.n && |f.colors| == 3
  }

  // ------------------------------------------------------------- the record

  class Strip {
    /** The effect id, 0 = off; set by the caller, cleared by the scheduler for an unknown id. */
    var effect: u8
    /** Bytes per pixel: 3 (RGB) or 4 (RGBW). */
    const channels: int
    /** Number of pixels (`leds_array_size`). */
    const size: u16
    /** Animation period in milliseconds, set by `set_fx_speed`. */
    var speed: u16
    var options: bv8
    /** Usually a colour wheel index. */
    var auxParam: u8
    var step: u32
    var calls: u32
    var nextTime: u32
    /** `leds_array`: `size * channels` bytes, pixel `p` at `p * channels` in the order R, G, B, W. */
    const leds: array<u8>
    /** The three user colours, an array embedded in the record; the engine only reads them. */
    var colors: seq<u32>
    /** Usually a pixel index. */
    var auxParam3: u16
    var lastEffect: u8
    /** The FRAME and CYCLE bits of the runtime flags byte, which the record declaration leaves out. */
    var frame: bool
    var cycle: bool
    /** Set once an effect writes outside `leds` or reads outside `colors`. */
    ghost var fault: bool

    ghost predicate Valid()
      reads this`colors
    {
      Layout(channels, size, leds.Length) && |colors| == 3
    }

    /** `WS2812FX_getPixelColor` of every pixel. */
    ghost function View(): (v: seq<u32>)
      requires Valid()
      reads leds, this`colors
      ensures |v| == size
    {
      PixelsOf(leds[..], channels, size)
    }

    /** The record as a value, with the draw count of the random generator. */
    ghost function Abs(rng: HwRng): (f: Fx)
      requires Valid()
      reads this, leds, rng
      ensures WellFormed(f)
    {
      Fx(effect, channels, size, speed, options, auxParam, step, calls, nextTime, View(), colors,
         auxParam3, lastEffect, frame, cycle, fault, rng.drawn)
    }

    function Reverse(): bool
      reads this
    {
      IsReverse(options)
    }

    function FadeRate(): (r: int)
      reads this
      ensures 0 <= r <= 7
    {
      FadeRateOf(options)
    }

    function SizeOption(): (r: int)
      reads this
      ensures 0 <= r <= 3
    {
      SizeOptionOf(options)
    }

    /** `new_lightbulb_fx_data(size, channels)`: a zeroed record with speed 910 and a dark strip. */
    constructor (n: u16, ch: u16)
      requires Layout(ch, n, Offset(n, ch))
      ensures Valid() && size == n && channels == ch
      ensures effect == 0 && speed == 910 && options == 0 && auxParam == 0 && auxParam3 == 0
      ensures step == 0 && calls == 0 && nextTime == 0 && lastEffect == 0
      ensures !frame && !cycle && !fault
      ensures View() == Solid(n, BLACK, ch) && colors == [BLACK, BLACK, BLACK]
      ensures fresh(leds)
    {
      effect, channels, size, speed, options := 0, ch, n, 910, 0;
      auxParam, step, calls, nextTime, auxParam3, lastEffect := 0, 0, 0, 0, 0, 0;
      frame, cycle, fault := false, false, false;
      leds := new u8[Offset(n, ch)](_ => 0);
      colors := [BLACK, BLACK, BLACK];
      new;
      assert View() == Solid(n, BLACK, ch);
    }

    /** `WS2812FX_getPixelColor(p)`: an RGB strip never reports white. */
    function GetPixel(p: int): (c: u32)
      requires Valid() && 0 <= p < size
      reads leds, this`colors
      ensures c == View()[p]
      ensures channels == 3 ==> c < 0x100_0000 && White(c) == 0
    {
      PixelFits(channels, size, leds.Length, p);
      PixelAt(leds[..], channels, p)
    }

    /**
      `WS2812FX_setPixelColor_5`: stores R, G, B (and W) at `addr * channels`.
      An address past the strip is a buffer overrun in the firmware; here it
      writes nothing and raises `fault`.
     */
    method SetPixel5(addr: u16, r: u8, g: u8, b: u8, w: u8)
      requires Valid()
      modifies leds, this`fault
      ensures fault == (old(fault) || addr >= size)
      ensures addr < size ==> leds[..] == PutBytes(old(leds[..]), channels, addr, Pack(w, r, g, b))
      ensures View() == Put(old(View()), addr, Pack(w, r, g, b), channels)
    {
      if addr >= size {
        fault := true;
        return;
      }
      PixelFits(channels, size, leds.Length, addr);
      var base := Offset(addr, channels);
      var comps := [r, g, b, w];
      ghost var bs := PixelBytes(Pack(w, r, g, b), channels);
      ChannelsOfPack(w, r, g, b);
      assert forall i :: 0 <= i < channels ==> comps[i] == bs[i];
      var i := 0;
      while i < channels
        invariant 0 <= i <= channels
        invariant leds[..] == Overwrite(old(leds[..]), base, bs, i)
        invariant fault == old(fault)
      {
        OverwriteStep(old(leds[..]), base, bs, i);
        leds[base + i] := comps[i];
        i := i + 1;
      }
      PixelsAfterPutBytes(old(leds[..]), channels, size, addr, Pack(w, r, g, b));
    }

    /** `WS2812FX_setPixelColor_2`: the packed-colour form of the pixel write. */
    method SetPixel(addr: u16, c: u32)
      requires Valid()
      modifies leds, this`fault
      ensures fault == (old(fault) || addr >= size)
      ensures View() == Put(old(View()), addr, c, channels)
    {
      PackOfChannels(c);
      SetPixel5(addr, Red(c), Green(c), Blue(c), White(c));
    }

    /** `WS2812FX_fill(c, first, count)`. */
    method Fill(c: u32, first: u16, count: u16)
      requires Valid()
      modifies leds, this`fault
      ensures fault == old(fault)
      ensures View() == FillView(old(View()), c, first, count, channels)
    {
      if first >= size {
        return;
      }
      var end: int;
      if count == 0 {
        end := size;
      } else {
        end := first + count;
        if end > size {
          end := size;
        }
      }
      assert end == FillEnd(first, count, size);
      var i: int := first;
      while i < end
        invariant first <= i <= end
        invariant fault == old(fault)
        invariant View() == PutRange(old(View()), c, first, i, channels)
      {
        SetPixel(i, c);
        i := i + 1;
      }
    }

    /** `WS2812FX_copyPixels(dest, src, count)`: a memmove of whole pixels; a range past the strip is an overrun. */
    method CopyPixels(dest: u16, src: u16, count: u16)
      requires Valid()
      modifies leds, this`fault
      ensures fault == (old(fault) || dest + count > size || src + count > size)
      ensures dest + count <= size && src + count <= size ==>
        View() == MoveView(old(View()), dest, src, count)
      ensures dest + count > size || src + count > size ==> View() == old(View())
    {
      if dest + count > size || src + count > size {
        fault := true;
        return;
      }
      PixelsAfterMove(leds[..], channels, size, dest, src, count);
      var d, sr, len := Offset(dest, channels), Offset(src, channels), Offset(count, channels);
      var tmp := leds[..];
      forall k | d <= k < d + len {
        leds[k] := tmp[sr + k - d];
      }
      assert leds[..] == MoveBytes(tmp, d, sr, len);
    }

    /**
      `WS2812FX_fade_out_color(target)`: every pixel is halved (fade rate 0)
      or moved one fade step toward `target` (rates 1-7).
     */
    method FadeOutColor(target: u32)
      requires Valid()
      modifies leds, this`fault
      ensures fault == old(fault)
      ensures View() == FadeView(old(View()), target, FadeRate(), channels)
    {
      var rate := FadeRate();
      var i := 0;
      while i < size
        invariant 0 <= i <= size
        invariant fault == old(fault)
        invariant forall p :: 0 <= p < size ==>
          View()[p] == if p < i then Stored(FadePixel(old(View())[p], target, rate), channels) else old(View())[p]
      {
        var color := GetPixel(i);
        if rate == 0 {
          SetPixel(i, HalveColor(color));
        } else {
          ghost var c' := FadeColor(color, target, rate);
          SetPixel5(i, FadeChannel(Red(color), Red(target), rate), FadeChannel(Green(color), Green(target), rate),
                    FadeChannel(Blue(color), Blue(target), rate), FadeChannel(White(color), White(target), rate));
        }
        i := i + 1;
      }
    }

    /** `WS2812FX_fade_out`: fade toward the second user colour. */
    method FadeOut()
      requires Valid()
      modifies leds, this`fault
      ensures fault == old(fault)
      ensures View() == FadeView(old(View()), colors[1], FadeRate(), channels)
    {
      FadeOutColor(colors[1]);
    }

    /** `set_next_time(delay)` at the clock reading `now`: 32-bit wrap-around. */
    method SetNextTime(now: u32, delay: u32)
      modifies this`nextTime
      ensures nextTime == ToU32(now + delay)
    {
      nextTime := ToU32(now + delay);
    }

    /** `set_fx_speed(new_speed)` at the clock reading `now`. */
    method SetSpeed(newSpeed: u8, now: u32)
      modifies this`speed, this`nextTime
      ensures speed == SpeedOf(newSpeed) && nextTime == ToU32(now + 100)
    {
      speed := ToU16((100 - newSpeed) * 30 + 10);
      nextTime := ToU32(now + 100);
    }

    /** `set_fx_reverse(is_reverse)`. */
    method SetReverse(isReverse: bool)
      modifies this`options
      ensures options == WithReverse(old(options), isReverse)
      ensures Reverse() == isReverse
    {
      WithReverseExact(options, isReverse);
      if isReverse {
        options := options | REVERSE;
      } else {
        options := options & !REVERSE;
      }
    }

    /** `set_fx_size(new_size)`. */
    method SetSize(newSize: u8)
      modifies this`options
      ensures options == WithSize(old(options), newSize)
      ensures newSize <= 3 ==> SizeOption() == newSize
    {
      if newSize <= 3 {
        WithSizeExact(options, newSize);
      }
      options := options & !SIZE_XLARGE;
      options := options | (Byte(newSize) << 1);
    }
  }

  /** The period `set_fx_speed` derives from a speed percentage, truncated to 16 bits. */
  function SpeedOf(newSpeed: u8): (r: u16)
    ensures newSpeed <= 100 ==> r == (100 - newSpeed) * 30 + 10 && 10 <= r <= 3010
    ensures newSpeed > 100 ==> r == (100 - newSpeed) * 30 + 10 + 0x1_0000
  {
    ToU16((100 - newSpeed) * 30 + 10)
  }

  /** Higher speed percentages give shorter periods, down to 10 ms at 100. */
  lemma SpeedOfMonotone(a: u8, b: u8)
    requires a <= b <= 100
    ensures SpeedOf(b) <= SpeedOf(a)
    ensures SpeedOf(100) == 10 && SpeedOf(0) == 3010
  {
  }
}
