/**
  Colour arithmetic of the LED engine: packed 32-bit WRGB colours (white in
  the high byte), the three-segment hue wheel, the per-byte truncating blend
  and the per-channel fade step. Everything here is pure integer code.
 */
module Color {
  import opened Ints

  const BLACK: u32 := 0x000000
  const RED: u32 := 0xFF0000
  const GREEN: u32 := 0x00FF00
  const BLUE: u32 := 0x0000FF
  const WHITE: u32 := 0xFFFFFF
  const PURPLE: u32 := 0x400080
  const ORANGE: u32 := 0xFF3000

  /** The colour with the given white, red, green and blue bytes. */
  function Pack(w: u8, r: u8, g: u8, b: u8): u32
  {
    w * 0x100_0000 + r * 0x1_0000 + g * 0x100 + b
  }

  /** `(c >> 24) & 0xFF` */
  function White(c: u32): u8 { c / 0x100_0000 }
  /** `(c >> 16) & 0xFF` */
  function Red(c: u32): u8 { (c / 0x1_0000) % 0x100 }
  /** `(c >> 8) & 0xFF` */
  function Green(c: u32): u8 { (c / 0x100) % 0x100 }
  /** `c & 0xFF` */
  function Blue(c: u32): u8 { c % 0x100 }

  /** Unpacking a packed colour gives back its four bytes. */
  lemma ChannelsOfPack(w: u8, r: u8, g: u8, b: u8)
    ensures White(Pack(w, r, g, b)) == w
    ensures Red(Pack(w, r, g, b)) == r
    ensures Green(Pack(w, r, g, b)) == g
    ensures Blue(Pack(w, r, g, b)) == b
  {
    var c := Pack(w, r, g, b);
    assert c == ((w * 0x100 + r) * 0x100 + g) * 0x100 + b;
    assert c / 0x100 == (w * 0x100 + r) * 0x100 + g;
    assert c / 0x1_0000 == (c / 0x100) / 0x100;
    assert c / 0x100_0000 == (c / 0x1_0000) / 0x100;
  }

  /** Packing the four bytes of a colour gives back the colour. */
  lemma PackOfChannels(c: u32)
    ensures Pack(White(c), Red(c), Green(c), Blue(c)) == c
  {
    var q1 := c / 0x100;
    var q2 := q1 / 0x100;
    var q3 := q2 / 0x100;
    assert c == q1 * 0x100 + c % 0x100;
    assert q1 == q2 * 0x100 + q1 % 0x100;
    assert q2 == q3 * 0x100 + q2 % 0x100;
    assert c / 0x1_0000 == q2;
    assert c / 0x100_0000 == q3;
  }

  /** A colour is determined by its four bytes. */
  lemma ChannelsDetermineColor(c: u32, d: u32)
    requires White(c) == White(d) && Red(c) == Red(d) && Green(c) == Green(d) && Blue(c) == Blue(d)
    ensures c == d
  {
    PackOfChannels(c);
    PackOfChannels(d);
  }

  // ---------------------------------------------------------------- hue wheel

  /**
    `WS2812FX_color_wheel`: the position is mirrored (`255 - pos`) and then
    falls in one of three 85-step segments, blue to red, green to blue and
    red to green. Each result is assembled by OR-ing bytes that do not
    overlap, which is the sum `Pack` computes.
   */
  function ColorWheel(pos: u8): u32
  {
    var p := 255 - pos;
    if p < 85 then Pack(0, 255 - p * 3, 0, p * 3)
    else if p < 170 then Pack(0, 0, (p - 85) * 3, 255 - (p - 85) * 3)
    else Pack(0, (p - 170) * 3, 255 - (p - 170) * 3, 0)
  }

  /** Every wheel colour has no white, uses one channel pair and sums to full brightness. */
  lemma ColorWheelIsPureHue(pos: u8)
    ensures White(ColorWheel(pos)) == 0
    ensures Red(ColorWheel(pos)) + Green(ColorWheel(pos)) + Blue(ColorWheel(pos)) == 255
    ensures Red(ColorWheel(pos)) == 0 || Green(ColorWheel(pos)) == 0 || Blue(ColorWheel(pos)) == 0
  {
    var p := 255 - pos;
    var r, g, b;
    if p < 85 {
      r, g, b := 255 - p * 3, 0, p * 3;
    } else if p < 170 {
      r, g, b := 0, (p - 85) * 3, 255 - (p - 85) * 3;
    } else {
      r, g, b := (p - 170) * 3, 255 - (p - 170) * 3, 0;
    }
    assert ColorWheel(pos) == Pack(0, r, g, b);
    ChannelsOfPack(0, r, g, b);
  }

  /** The segment a wheel position falls in, and the channel that is dark there. */
  lemma ColorWheelSegments(pos: u8)
    ensures pos > 170 ==> Green(ColorWheel(pos)) == 0 && Red(ColorWheel(pos)) == 3 * (pos - 170)
    ensures 86 <= pos <= 170 ==> Red(ColorWheel(pos)) == 0 && Green(ColorWheel(pos)) == 3 * (170 - pos)
    ensures pos <= 85 ==> Blue(ColorWheel(pos)) == 0 && Red(ColorWheel(pos)) == 3 * (85 - pos)
  {
    var p := 255 - pos;
    var r, g, b;
    if p < 85 {
      r, g, b := 255 - p * 3, 0, p * 3;
    } else if p < 170 {
      r, g, b := 0, (p - 85) * 3, 255 - (p - 85) * 3;
    } else {
      r, g, b := (p - 170) * 3, 255 - (p - 170) * 3, 0;
    }
    assert ColorWheel(pos) == Pack(0, r, g, b);
    ChannelsOfPack(0, r, g, b);
  }

  // -------------------------------------------------------------------- blend

  /** One byte of `WS2812FX_blend`: `amt * (b - a) / 256 + a` with C's truncating division. */
  function BlendChannel(a: u8, b: u8, amt: u8): (r: u8)
    requires 0 < amt < 255
    ensures Min(a, b) <= r <= Max(a, b)
  {
    BlendStepBounds(a, b, amt);
    CDiv(amt * (b - a), 256) + a
  }

  lemma BlendStepBounds(a: u8, b: u8, amt: u8)
    requires 0 < amt < 255
    ensures b >= a ==> 0 <= CDiv(amt * (b - a), 256) <= b - a
    ensures b < a ==> b - a <= CDiv(amt * (b - a), 256) <= 0
  {
    if b >= a {
      MulMono(amt, 256, b - a);
    } else {
      MulMono(amt, 256, a - b);
      assert amt * (b - a) == -(amt * (a - b));
    }
  }

  lemma MulMono(x: nat, y: nat, z: nat)
    requires x <= y
    ensures x * z <= y * z
  {
  }

  /**
    `WS2812FX_color_blend`: amount 0 copies the first colour, 255 the second,
    anything else blends every byte of the 32-bit word on its own.
   */
  function ColorBlend(c1: u32, c2: u32, amt: u8): u32
  {
    if amt == 0 then c1
    else if amt == 255 then c2
    else Pack(BlendChannel(White(c1), White(c2), amt), BlendChannel(Red(c1), Red(c2), amt),
              BlendChannel(Green(c1), Green(c2), amt), BlendChannel(Blue(c1), Blue(c2), amt))
  }

  /** Blend end points, and blending a colour with itself. */
  lemma ColorBlendFixedPoints(c1: u32, c2: u32, amt: u8)
    ensures ColorBlend(c1, c2, 0) == c1
    ensures ColorBlend(c1, c2, 255) == c2
    ensures ColorBlend(c1, c1, amt) == c1
  {
    if 0 < amt < 255 {
      PackOfChannels(c1);
    }
  }

  /** Every byte of an intermediate blend lies between the corresponding bytes of the inputs. */
  lemma ColorBlendBetween(c1: u32, c2: u32, amt: u8)
    requires 0 < amt < 255
    ensures Min(White(c1), White(c2)) <= White(ColorBlend(c1, c2, amt)) <= Max(White(c1), White(c2))
    ensures Min(Red(c1), Red(c2)) <= Red(ColorBlend(c1, c2, amt)) <= Max(Red(c1), Red(c2))
    ensures Min(Green(c1), Green(c2)) <= Green(ColorBlend(c1, c2, amt)) <= Max(Green(c1), Green(c2))
    ensures Min(Blue(c1), Blue(c2)) <= Blue(ColorBlend(c1, c2, amt)) <= Max(Blue(c1), Blue(c2))
  {
    ChannelsOfPack(BlendChannel(White(c1), White(c2), amt), BlendChannel(Red(c1), Red(c2), amt),
                   BlendChannel(Green(c1), Green(c2), amt), BlendChannel(Blue(c1), Blue(c2), amt));
  }

  // --------------------------------------------------------------------- fade

  /** `rateMapH` and `rateMapL` of `WS2812FX_fade_out_color`, indexed by the 3-bit fade rate. */
  const RATE_MAP_H: seq<nat> := [0, 1, 1, 1, 2, 3, 4, 6]
  const RATE_MAP_L: seq<nat> := [0, 2, 3, 8, 8, 8, 8, 8]

  /** The change applied to a channel whose distance to the target is `d`, at fade rate 1..7. */
  function FadeDelta(d: int, rate: int): int
    requires 1 <= rate <= 7
  {
    if -3 < d < 3 then d else Sar(d, RATE_MAP_H[rate]) + Sar(d, RATE_MAP_L[rate])
  }

  /** One channel of the fade-to-colour algorithm. */
  function FadeChannel(cur: u8, target: u8, rate: int): (r: u8)
    requires 1 <= rate <= 7
    ensures Min(cur, target) <= r <= Max(cur, target)
    ensures -3 < target - cur < 3 ==> r == target
  {
    FadeDeltaBounds(target - cur, rate);
    cur + FadeDelta(target - cur, rate)
  }

  /** The fade step never overshoots: it moves toward the target by at most the distance. */
  lemma FadeDeltaBounds(d: int, rate: int)
    requires 1 <= rate <= 7
    ensures d >= 0 ==> 0 <= FadeDelta(d, rate) <= d
    ensures d < 0 ==> d <= FadeDelta(d, rate) <= 0
  {
    if d <= -3 || 3 <= d {
      Pow2Values();
      var h, l := RATE_MAP_H[rate], RATE_MAP_L[rate];
      assert Sar(d, 1) == d / 2 && Sar(d, 2) == d / 4 && Sar(d, 3) == d / 8;
      assert Sar(d, 4) == d / 16 && Sar(d, 6) == d / 64 && Sar(d, 8) == d / 256;
      assert h in {1, 2, 3, 4, 6} && l in {2, 3, 8};
    }
  }

  lemma Pow2Values()
    ensures Pow2(1) == 2 && Pow2(2) == 4 && Pow2(3) == 8 && Pow2(4) == 16
    ensures Pow2(6) == 64 && Pow2(8) == 256
  {
    assert Pow2(5) == 32;
    assert Pow2(7) == 128;
  }

  /** Fade rate 0, `(color >> 1) & 0x7F7F7F7F`: every byte is halved on its own. */
  function HalveColor(c: u32): u32
  {
    Pack(White(c) / 2, Red(c) / 2, Green(c) / 2, Blue(c) / 2)
  }

  /**
    The rate-0 fade is C's `(c >> 1) & 0x7F7F7F7F` on an unsigned colour:
    the mask clears exactly the bit each byte receives from the byte above,
    so every byte ends up halved on its own.
   */
  lemma HalveColorIsMaskedShift(c: u32)
    ensures HalveColor(c) == BitAnd(c / 2, 0x7F7F7F7F)
  {
    var w: int, r: int, g: int, b: int := White(c), Red(c), Green(c), Blue(c);
    var x0, x1, x2, x3 := (g % 2) * 128 + b / 2, (r % 2) * 128 + g / 2, (w % 2) * 128 + r / 2, w / 2;
    ShiftedBytes(c);
    BitAndMask7F(x0, x1, x2, x3);
    LowSeven(g % 2, b / 2);
    LowSeven(r % 2, g / 2);
    LowSeven(w % 2, r / 2);
    LowSeven(0, w / 2);
  }

  /** The bytes of `c >> 1`: each byte is its own upper seven bits under the low bit of the byte above. */
  lemma ShiftedBytes(c: u32)
    ensures c / 2 == ((White(c) / 2 * 256 + ((White(c) % 2) * 128 + Red(c) / 2)) * 256
      + ((Red(c) % 2) * 128 + Green(c) / 2)) * 256 + ((Green(c) % 2) * 128 + Blue(c) / 2)
  {
    var w: int, r: int, g: int, b: int := White(c), Red(c), Green(c), Blue(c);
    PackOfChannels(c);
    var x: int := ((w / 2 * 256 + ((w % 2) * 128 + r / 2)) * 256 + ((r % 2) * 128 + g / 2)) * 256 + ((g % 2) * 128 + b / 2);
    assert c == 2 * x + b % 2;
    DivModUnique(c, 2, x, b % 2);
  }

  lemma LowSeven(hi: int, lo: int)
    requires 0 <= hi < 2 && 0 <= lo < 128
    ensures (hi * 128 + lo) % 128 == lo
  {
    DivModUnique(hi * 128 + lo, 128, hi, lo);
  }

  /** One step of the fade-to-colour algorithm applied to a packed colour, at rate 1..7. */
  function FadeColor(c: u32, target: u32, rate: int): u32
    requires 1 <= rate <= 7
  {
    Pack(FadeChannel(White(c), White(target), rate), FadeChannel(Red(c), Red(target), rate),
         FadeChannel(Green(c), Green(target), rate), FadeChannel(Blue(c), Blue(target), rate))
  }
}
