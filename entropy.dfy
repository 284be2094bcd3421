/**
  The engine's random numbers. The hardware generator (`hwrand()`) is an
  environment oracle: an infinite stream of 32-bit draws `hw` read through a
  cursor. The bounded helpers of the engine map one draw to a range exactly
  as the C code does, including its off-by-one upper bound.
 */
module Entropy {
  import opened Ints
  import opened Color

  /**
    `WS2812FX_random(min, max)` for the draw `draw`: inclusive range when
    `min < max`, `min` when equal, 0 when inverted. The one input for which the
    C code takes a remainder by zero (the full 32-bit range) is excluded.
   */
  function Uniform(draw: u32, min: u32, max: u32): (r: u32)
    requires !(min == 0 && max == 0xFFFF_FFFF)
    ensures min < max ==> min <= r <= max
    ensures min == max ==> r == min
    ensures min > max ==> r == 0
  {
    if min < max then Rem(draw, max - min + 1) + min
    else if min == max then min
    else 0
  }

  /** `WS2812FX_random8()`: a byte. */
  function Random8(draw: u32): (r: u8)
  {
    ToU8(Uniform(draw, 0, 255))
  }

  /** `WS2812FX_random8_lim(lim)`: `random(0, lim + 1)` cast to a byte, so the range is `[0, lim + 1]`. */
  function Random8Lim(draw: u32, lim: u8): (r: u8)
    ensures lim < 255 ==> r <= lim + 1
  {
    ToU8(Uniform(draw, 0, lim + 1))
  }

  /** `WS2812FX_random16_lim(lim)`: `random(0, lim + 1)` cast to 16 bits, so the range is `[0, lim + 1]`. */
  function Random16Lim(draw: u32, lim: u16): (r: u16)
    ensures lim < 0xFFFF ==> r <= lim + 1
  {
    ToU16(Uniform(draw, 0, lim + 1))
  }

  /** A byte draw is the low byte of the hardware draw. */
  lemma Random8IsLowByte(draw: u32)
    ensures Random8(draw) == draw % 256
  {
    QuotRemIsDivMod(draw, 256);
  }

  /** The limited draws reach every value of `[0, lim + 1]`, one more than the limit included. */
  lemma Random8LimReaches(lim: u8, v: nat)
    requires lim < 255 && v <= lim + 1
    ensures Random8Lim(v, lim) == v
  {
  }

  lemma Random16LimReaches(lim: u16, v: nat)
    requires lim < 0xFFFF && v <= lim + 1
    ensures Random16Lim(v, lim) == v
  {
  }

  /**
    `private_min(x, 255 - x)` with `x = private_abs(pos - r)`: the distance
    `WS2812FX_get_random_wheel_index` demands between the old and new hue.
   */
  function WheelDistance(pos: u8, r: u8): (d: u8)
    ensures d <= 127
  {
    var x := if pos - r < 0 then r - pos else pos - r;
    Min(x, 255 - x)
  }

  /** The hue half a wheel away is always far enough. */
  lemma OppositeHueIsDistinct(pos: u8)
    ensures WheelDistance(pos, (pos + 128) % 256) == 127
  {
  }

  /** From draw `from` on, the stream `hw` produces the value `v` again. */
  ghost predicate Recurs(hw: nat -> u32, from: nat, v: u32)
  {
    exists j: nat :: from <= j && hw(j) == v
  }

  /**
    The generator is assumed fair: every 32-bit value recurs after any
    point. A uniform source has this property with probability one; the
    engine's rejection loops terminate only under it.
   */
  ghost predicate Fair(hw: nat -> u32)
  {
    forall from: nat, v: u32 :: Recurs(hw, from, v)
  }

  // ------------------------------------------------------- rejection loops

  /** What a rejection loop of the engine waits for in a draw. */
  datatype Search =
    | WheelFar(pos: u8)                 // a hue at least 42 wheel steps from `pos`
    | RainPick(palette: seq<u32>)       // `colors[random8_lim(2)]` is not black
    | FireworkPick(palette: seq<u32>)   // `colors[random8()]` is not black

  /** The index a colour-choice loop reads for the draw `x`. */
  function PickIndex(s: Search, x: u32): int
  {
    match s
    case WheelFar(_) => 0
    case RainPick(_) => Random8Lim(x, 2)
    case FireworkPick(_) => Random8(x)
  }

  /** `colors[i]`; an index past the three colours reads as black (it is an overrun in the firmware). */
  function PickColor(palette: seq<u32>, i: int): u32
  {
    if 0 <= i < |palette| then palette[i] else BLACK
  }

  predicate Accepts(s: Search, x: u32)
  {
    match s
    case WheelFar(pos) => WheelDistance(pos, Random8(x)) >= 42
    case RainPick(p) => PickColor(p, Random8Lim(x, 2)) != BLACK
    case FireworkPick(p) => PickColor(p, Random8(x)) != BLACK
  }

  /** Some draw ends the loop. */
  ghost predicate Attainable(s: Search)
  {
    exists x: u32 :: Accepts(s, x)
  }

  /** The hue loop can always end; a colour loop can when one of the colours it reads is not black. */
  lemma AttainableCases(s: Search)
    ensures s.WheelFar? ==> Attainable(s)
    ensures s.RainPick? && |s.palette| == 3 ==> (Attainable(s) <==> exists i :: 0 <= i < 3 && s.palette[i] != BLACK)
    ensures s.FireworkPick? && |s.palette| == 3 ==> (Attainable(s) <==> exists i :: 0 <= i < 3 && s.palette[i] != BLACK)
  {
    match s
    case WheelFar(pos) =>
      OppositeHueIsDistinct(pos);
      assert Accepts(s, (pos + 128) % 256);
    case RainPick(p) =>
      if |p| == 3 {
        if exists i :: 0 <= i < 3 && p[i] != BLACK {
          var i :| 0 <= i < 3 && p[i] != BLACK;
          Random8LimReaches(2, i);
          assert Accepts(s, i);
        }
        if Attainable(s) {
          var x: u32 :| Accepts(s, x);
          assert p[Random8Lim(x, 2)] != BLACK;
        }
      }
    case FireworkPick(p) =>
      if |p| == 3 {
        if exists i :: 0 <= i < 3 && p[i] != BLACK {
          var i :| 0 <= i < 3 && p[i] != BLACK;
          assert Random8(i) == i;
          assert Accepts(s, i);
        }
        if Attainable(s) {
          var x: u32 :| Accepts(s, x);
          assert p[Random8(x)] != BLACK;
        }
      }
  }

  /** The first draw from `d` on that ends the loop, given that draw `j` does. */
  function FirstFrom(hw: nat -> u32, s: Search, d: nat, j: nat): (k: nat)
    requires d <= j && Accepts(s, hw(j))
    ensures d <= k <= j && Accepts(s, hw(k))
    ensures forall i :: d <= i < k ==> !Accepts(s, hw(i))
    decreases j - d
  {
    if Accepts(s, hw(d)) then d else FirstFrom(hw, s, d + 1, j)
  }

  /** The index of the draw that ends a rejection loop started at draw `d`. */
  ghost function FirstAccepted(hw: nat -> u32, s: Search, d: nat): (k: nat)
    requires Fair(hw) && (s.WheelFar? || Attainable(s))
    ensures d <= k && Accepts(s, hw(k))
    ensures forall i :: d <= i < k ==> !Accepts(s, hw(i))
  {
    AttainableCases(s);
    var x: u32 :| Accepts(s, x);
    assert Recurs(hw, d, x);
    var j: nat :| d <= j && hw(j) == x;
    FirstFrom(hw, s, d, j)
  }

  /** Only one draw is the first accepted one. */
  lemma FirstAcceptedUnique(hw: nat -> u32, s: Search, d: nat, k: nat)
    requires Fair(hw) && (s.WheelFar? || Attainable(s))
    requires d <= k && Accepts(s, hw(k))
    requires forall i :: d <= i < k ==> !Accepts(s, hw(i))
    ensures k == FirstAccepted(hw, s, d)
  {
    var k' := FirstAccepted(hw, s, d);
  }

  /** Some draw in `[d, k)` of a colour-choice loop read a colour index past the three colours. */
  predicate ReadsPastColors(hw: nat -> u32, s: Search, d: nat, k: nat)
    decreases k
  {
    k > d && (ReadsPastColors(hw, s, d, k - 1) || PickIndex(s, hw(k - 1)) >= 3)
  }

  /** A fair stream holds, after any point, a draw that ends the hue loop. */
  lemma FarDrawAhead(hw: nat -> u32, from: nat, pos: u8) returns (j: nat)
    requires Fair(hw)
    ensures from <= j && WheelDistance(pos, Random8(hw(j))) >= 42
  {
    var target: u32 := (pos + 128) % 256;
    assert Recurs(hw, from, target);
    j :| from <= j && hw(j) == target;
    OppositeHueIsDistinct(pos);
  }

  /** The hardware random generator: the stream of draws and how many have been consumed. */
  class HwRng {
    const hw: nat -> u32
    var drawn: nat

    ghost predicate Valid()
    {
      Fair(hw)
    }

    constructor (stream: nat -> u32)
      requires Fair(stream)
      ensures Valid() && hw == stream && drawn == 0
    {
      hw := stream;
      drawn := 0;
    }

    /** `hwrand()`: the next draw of the stream. */
    method Next() returns (d: u32)
      modifies this
      ensures d == hw(old(drawn)) && drawn == old(drawn) + 1
    {
      d := hw(drawn);
      drawn := drawn + 1;
    }

    /** `WS2812FX_random(min, max)`: consumes a draw only when `min < max`. */
    method DrawRange(min: u32, max: u32) returns (r: u32)
      requires !(min == 0 && max == 0xFFFF_FFFF)
      modifies this
      ensures r == Uniform(hw(old(drawn)), min, max)
      ensures drawn == old(drawn) + (if min < max then 1 else 0)
    {
      if min < max {
        var d := Next();
        r := Rem(d, max - min + 1) + min;
      } else if min == max {
        r := min;
      } else {
        r := 0;
      }
    }

    method Draw8() returns (r: u8)
      modifies this
      ensures r == Random8(hw(old(drawn))) && drawn == old(drawn) + 1
    {
      var x := DrawRange(0, 255);
      r := ToU8(x);
    }

    method Draw8Lim(lim: u8) returns (r: u8)
      modifies this
      ensures r == Random8Lim(hw(old(drawn)), lim) && drawn == old(drawn) + 1
    {
      var x := DrawRange(0, lim + 1);
      r := ToU8(x);
    }

    method Draw16Lim(lim: u16) returns (r: u16)
      modifies this
      ensures r == Random16Lim(hw(old(drawn)), lim) && drawn == old(drawn) + 1
    {
      var x := DrawRange(0, lim + 1);
      r := ToU16(x);
    }

    /**
      `WS2812FX_get_random_wheel_index(pos)`: draws bytes until one is at
      wheel distance 42 or more from `pos`, and returns that first one.
     */
    method DrawWheelIndex(pos: u8) returns (r: u8)
      requires Valid()
      modifies this
      ensures drawn > old(drawn) && r == Random8(hw(drawn - 1))
      ensures WheelDistance(pos, r) >= 42
      ensures forall k :: old(drawn) <= k < drawn - 1 ==> WheelDistance(pos, Random8(hw(k))) < 42
      ensures drawn == FirstAccepted(hw, WheelFar(pos), old(drawn)) + 1
    {
      ghost var j := FarDrawAhead(hw, drawn, pos);
      r := 0;
      var d := 0;
      while d < 42
        invariant old(drawn) <= drawn <= j + 1
        invariant d < 42 ==> drawn <= j
        invariant drawn == old(drawn) ==> d == 0
        invariant drawn > old(drawn) ==> r == Random8(hw(drawn - 1)) && d == WheelDistance(pos, r)
        invariant forall k :: old(drawn) <= k < drawn - 1 ==> WheelDistance(pos, Random8(hw(k))) < 42
        decreases j + 1 - drawn
      {
        r := Draw8();
        d := WheelDistance(pos, r);
      }
      FirstAcceptedUnique(hw, WheelFar(pos), old(drawn), drawn - 1);
    }
  }
}
