/**
  The pixel buffer's byte layout and its pixel view.

  Pixel `p` of a strip with `ch` channels (3 = RGB, 4 = RGBW) occupies the
  bytes `[p * ch, p * ch + ch)` in the order R, G, B, W. Reading a pixel
  (`WS2812FX_getPixelColor`) gives a packed WRGB colour whose white byte is 0
  on an RGB strip. The pixel view, one packed colour per pixel, determines
  the buffer, so the effects are specified on the view.
 */
module Pixels {
  import opened Ints
  import opened Color

  /** `p * ch` for the two channel counts the engine supports. */
  function Offset(p: int, ch: int): int
  {
    if ch == 3 then 3 * p else 4 * p
  }

  /** A buffer of `len` bytes holds `n` pixels of `ch` channels, indexable with 16-bit arithmetic. */
  predicate Layout(ch: int, n: int, len: int)
  {
    (ch == 3 || ch == 4) && 1 <= n && len == Offset(n, ch) && len < 0x1_0000
  }

  lemma PixelFits(ch: int, n: int, len: int, p: int)
    requires Layout(ch, n, len) && 0 <= p < n
    ensures 0 <= Offset(p, ch) && Offset(p, ch) + ch <= len
  {
  }

  /** What a pixel reads back as after the colour `c` was written: an RGB strip drops the white byte. */
  function Stored(c: u32, ch: int): u32
  {
    if ch == 4 then c else c % 0x100_0000
  }

  /** `WS2812FX_getPixelColor`: bytes R, G, B (and W on an RGBW strip) of pixel `p`. */
  function PixelAt(buf: seq<u8>, ch: int, p: int): u32
    requires ch == 3 || ch == 4
    requires 0 <= p && Offset(p, ch) + ch <= |buf|
  {
    var base := Offset(p, ch);
    buf[base] as int * 0x1_0000 + buf[base + 1] as int * 0x100 + buf[base + 2]
      + (if ch > 3 then buf[base + 3] as int * 0x100_0000 else 0)
  }

  /** The pixel view of a buffer. */
  function PixelsOf(buf: seq<u8>, ch: int, n: int): (v: seq<u32>)
    requires Layout(ch, n, |buf|)
    ensures |v| == n
  {
    seq(n, p requires 0 <= p < n => PixelAt(buf, ch, p))
  }

  /** The bytes `WS2812FX_setPixelColor` stores for the colour `c`. */
  function PixelBytes(c: u32, ch: int): (bs: seq<u8>)
    ensures |bs| == (if ch == 4 then 4 else 3)
  {
    [Red(c), Green(c), Blue(c)] + (if ch == 4 then [White(c)] else [])
  }

  /** Writing a colour and reading it back gives the stored colour. */
  lemma ReadBackWritten(c: u32, ch: int)
    requires ch == 3 || ch == 4
    ensures PixelAt(PixelBytes(c, ch), ch, 0) == Stored(c, ch)
  {
    PackOfChannels(c);
    var rest := Red(c) * 0x1_0000 + Green(c) * 0x100 + Blue(c);
    assert c == White(c) * 0x100_0000 + rest;
    assert c % 0x100_0000 == rest;
  }

  /** Reading a pixel and writing the result back restores its bytes. */
  lemma WriteBackRead(buf: seq<u8>, ch: int, p: int)
    requires ch == 3 || ch == 4
    requires 0 <= p && Offset(p, ch) + ch <= |buf|
    ensures PixelBytes(PixelAt(buf, ch, p), ch) == buf[Offset(p, ch)..Offset(p, ch) + ch]
  {
    var base := Offset(p, ch);
    var w := if ch > 3 then buf[base + 3] else 0;
    var c := PixelAt(buf, ch, p);
    assert c == Pack(w, buf[base], buf[base + 1], buf[base + 2]);
    ChannelsOfPack(w, buf[base], buf[base + 1], buf[base + 2]);
  }

  /** The buffer after the bytes of pixel `p` were overwritten with the colour `c`. */
  function PutBytes(buf: seq<u8>, ch: int, p: int, c: u32): (r: seq<u8>)
    requires ch == 3 || ch == 4
    ensures |r| == |buf|
  {
    Overwrite(buf, Offset(p, ch), PixelBytes(c, ch), ch)
  }

  /** `buf` with its bytes `[base, base + i)` replaced by the first `i` bytes of `bs`. */
  function Overwrite(buf: seq<u8>, base: int, bs: seq<u8>, i: int): (r: seq<u8>)
    requires 0 <= i <= |bs|
    ensures |r| == |buf|
  {
    seq(|buf|, k requires 0 <= k < |buf| => if base <= k < base + i then bs[k - base] else buf[k])
  }

  /** Overwriting one more byte. */
  lemma OverwriteStep(buf: seq<u8>, base: int, bs: seq<u8>, i: int)
    requires 0 <= i < |bs| && 0 <= base + i < |buf|
    ensures Overwrite(buf, base, bs, i)[base + i := bs[i]] == Overwrite(buf, base, bs, i + 1)
  {
  }

  /** The pixel view after one pixel write: that pixel reads back the stored colour, the others are unchanged. */
  function Put(v: seq<u32>, p: int, c: u32, ch: int): (r: seq<u32>)
    ensures |r| == |v|
  {
    if 0 <= p < |v| then v[p := Stored(c, ch)] else v
  }

  /** A pixel reads the same from the buffer as from its own bytes. */
  lemma PixelAtSlice(buf: seq<u8>, ch: int, p: int)
    requires ch == 3 || ch == 4
    requires 0 <= p && Offset(p, ch) + ch <= |buf|
    ensures PixelAt(buf, ch, p) == PixelAt(buf[Offset(p, ch)..Offset(p, ch) + ch], ch, 0)
  {
  }

  /** Overwriting one pixel's bytes leaves every other pixel's bytes alone. */
  lemma PutBytesElsewhere(buf: seq<u8>, ch: int, p: int, q: int, c: u32)
    requires ch == 3 || ch == 4
    requires 0 <= p && 0 <= q && p != q && Offset(q, ch) + ch <= |buf|
    ensures PixelAt(PutBytes(buf, ch, p, c), ch, q) == PixelAt(buf, ch, q)
  {
    var buf' := PutBytes(buf, ch, p, c);
    var bq := Offset(q, ch);
    assert Offset(q, ch) + ch <= Offset(p, ch) || Offset(p, ch) + ch <= Offset(q, ch);
    assert buf'[bq] == buf[bq] && buf'[bq + 1] == buf[bq + 1] && buf'[bq + 2] == buf[bq + 2];
    if ch == 4 {
      assert buf'[bq + 3] == buf[bq + 3];
    }
  }

  /** Overwriting one pixel's bytes changes the pixel view exactly as `Put` says. */
  lemma PixelsAfterPutBytes(buf: seq<u8>, ch: int, n: int, p: int, c: u32)
    requires Layout(ch, n, |buf|) && 0 <= p < n
    ensures PixelsOf(PutBytes(buf, ch, p, c), ch, n) == Put(PixelsOf(buf, ch, n), p, c, ch)
  {
    var buf' := PutBytes(buf, ch, p, c);
    var base := Offset(p, ch);
    forall q | 0 <= q < n
      ensures PixelAt(buf', ch, q) == Put(PixelsOf(buf, ch, n), p, c, ch)[q]
    {
      if q == p {
        forall k | 0 <= k < ch
          ensures buf'[base..base + ch][k] == PixelBytes(c, ch)[k]
        {
          assert buf'[base + k] == PixelBytes(c, ch)[k];
        }
        assert buf'[base..base + ch] == PixelBytes(c, ch);
        PixelAtSlice(buf', ch, p);
        ReadBackWritten(c, ch);
      } else {
        PutBytesElsewhere(buf, ch, p, q, c);
      }
    }
  }

  // ------------------------------------------------------------ fills

  /** Writes the colour `c` to the pixels `lo, lo + 1, ..., hi - 1`, in that order. */
  function PutRange(v: seq<u32>, c: u32, lo: int, hi: int, ch: int): (r: seq<u32>)
    ensures |r| == |v|
    decreases hi - lo
  {
    if lo >= hi then v else Put(PutRange(v, c, lo, hi - 1, ch), hi - 1, c, ch)
  }

  lemma {:induction false} PutRangeAt(v: seq<u32>, c: u32, lo: int, hi: int, ch: int, q: int)
    requires 0 <= q < |v|
    ensures PutRange(v, c, lo, hi, ch)[q] == if lo <= q < hi then Stored(c, ch) else v[q]
    decreases hi - lo
  {
    if lo < hi {
      PutRangeAt(v, c, lo, hi - 1, ch, q);
    }
  }

  /** The index one after the last pixel `WS2812FX_fill(c, first, count)` writes; count 0 means "to the end". */
  function FillEnd(first: int, count: int, n: int): int
  {
    if count == 0 then n else Min(first + count, n)
  }

  /** `WS2812FX_fill(c, first, count)` on the pixel view. */
  function FillView(v: seq<u32>, c: u32, first: int, count: int, ch: int): (r: seq<u32>)
    ensures |r| == |v|
  {
    if first >= |v| then v else PutRange(v, c, first, FillEnd(first, count, |v|), ch)
  }

  /**
    A fill is a no-op when `first` is past the end; otherwise exactly the
    pixels of `[first, end)` read back `c`, and every other pixel is unchanged.
   */
  lemma FillViewExactly(v: seq<u32>, c: u32, first: int, count: int, ch: int, q: int)
    requires 0 <= q < |v|
    ensures first >= |v| ==> FillView(v, c, first, count, ch) == v
    ensures FillView(v, c, first, count, ch)[q] ==
      if first <= q < FillEnd(first, count, |v|) then Stored(c, ch) else v[q]
  {
    if first < |v| {
      PutRangeAt(v, c, first, FillEnd(first, count, |v|), ch, q);
    }
  }

  /** `fill(c, 0, 0)`, and `fill(c, 0, n)` on a strip of `n` pixels, paint every pixel. */
  lemma FillWholeStrip(v: seq<u32>, c: u32, ch: int)
    requires |v| >= 1
    ensures FillView(v, c, 0, 0, ch) == Solid(|v|, c, ch)
    ensures FillView(v, c, 0, |v|, ch) == Solid(|v|, c, ch)
  {
    forall q | 0 <= q < |v|
      ensures FillView(v, c, 0, 0, ch)[q] == Stored(c, ch)
      ensures FillView(v, c, 0, |v|, ch)[q] == Stored(c, ch)
    {
      FillViewExactly(v, c, 0, 0, ch, q);
      FillViewExactly(v, c, 0, |v|, ch, q);
    }
  }

  /** A strip of `n` pixels all showing `c`. */
  function Solid(n: nat, c: u32, ch: int): (r: seq<u32>)
    ensures |r| == n
  {
    seq(n, _ => Stored(c, ch))
  }

  // ------------------------------------------------------------- moves

  /** `WS2812FX_copyPixels(dest, src, count)`: memmove semantics, as if through a temporary copy. */
  function MoveView(v: seq<u32>, dest: int, src: int, count: int): (r: seq<u32>)
    requires 0 <= dest && 0 <= src && 0 <= count
    requires dest + count <= |v| && src + count <= |v|
    ensures |r| == |v|
  {
    seq(|v|, p requires 0 <= p < |v| => if dest <= p < dest + count then v[src + p - dest] else v[p])
  }

  /** The byte-level memmove, for buffers that hold both ranges. */
  function MoveBytes(buf: seq<u8>, dest: int, src: int, count: int): (r: seq<u8>)
    requires 0 <= dest && 0 <= src && 0 <= count
    requires dest + count <= |buf| && src + count <= |buf|
    ensures |r| == |buf|
  {
    seq(|buf|, k requires 0 <= k < |buf| => if dest <= k < dest + count then buf[src + k - dest] else buf[k])
  }

  /** Pixel `q` after a byte move of whole pixels reads the pixel it was moved from. */
  lemma PixelAfterMove(buf: seq<u8>, ch: int, n: int, dest: int, src: int, count: int, q: int)
    requires Layout(ch, n, |buf|)
    requires 0 <= dest && 0 <= src && 0 <= count && dest + count <= n && src + count <= n && 0 <= q < n
    ensures Offset(dest + count, ch) <= |buf| && Offset(src + count, ch) <= |buf|
    ensures PixelAt(MoveBytes(buf, Offset(dest, ch), Offset(src, ch), Offset(count, ch)), ch, q)
         == PixelAt(buf, ch, if dest <= q < dest + count then src + q - dest else q)
  {
    var buf' := MoveBytes(buf, Offset(dest, ch), Offset(src, ch), Offset(count, ch));
    var from := if dest <= q < dest + count then src + q - dest else q;
    var bq, bf := Offset(q, ch), Offset(from, ch);
    assert buf'[bq] == buf[bf] && buf'[bq + 1] == buf[bf + 1] && buf'[bq + 2] == buf[bf + 2];
    if ch == 4 {
      assert buf'[bq + 3] == buf[bf + 3];
    }
  }

  /** Moving whole pixels' bytes moves the pixels. */
  lemma PixelsAfterMove(buf: seq<u8>, ch: int, n: int, dest: int, src: int, count: int)
    requires Layout(ch, n, |buf|)
    requires 0 <= dest && 0 <= src && 0 <= count && dest + count <= n && src + count <= n
    ensures Offset(dest + count, ch) <= |buf| && Offset(src + count, ch) <= |buf|
    ensures PixelsOf(MoveBytes(buf, Offset(dest, ch), Offset(src, ch), Offset(count, ch)), ch, n)
         == MoveView(PixelsOf(buf, ch, n), dest, src, count)
  {
    forall q | 0 <= q < n
      ensures PixelsOf(MoveBytes(buf, Offset(dest, ch), Offset(src, ch), Offset(count, ch)), ch, n)[q]
           == MoveView(PixelsOf(buf, ch, n), dest, src, count)[q]
    {
      PixelAfterMove(buf, ch, n, dest, src, count, q);
    }
  }

  // ------------------------------------------------------------- fades

  /** One pixel of `WS2812FX_fade_out_color(target)` at the given fade rate. */
  function FadePixel(c: u32, target: u32, rate: int): u32
    requires 0 <= rate <= 7
  {
    if rate == 0 then HalveColor(c) else FadeColor(c, target, rate)
  }

  /** `WS2812FX_fade_out_color(target)` on the pixel view. */
  function FadeView(v: seq<u32>, target: u32, rate: int, ch: int): (r: seq<u32>)
    requires 0 <= rate <= 7
    ensures |r| == |v|
  {
    seq(|v|, p requires 0 <= p < |v| => Stored(FadePixel(v[p], target, rate), ch))
  }

  // ------------------------------------------------ pixel-writing steps

  /** One pixel write (`setPixelColor`) or one `fill`, as an effect issues them. */
  datatype Op = SetOp(addr: int, color: u32) | FillOp(color: u32, first: int, count: int)

  function ApplyOp(v: seq<u32>, op: Op, ch: int): (r: seq<u32>)
    ensures |r| == |v|
  {
    match op
    case SetOp(a, c) => Put(v, a, c, ch)
    case FillOp(c, f, k) => FillView(v, c, f, k, ch)
  }

  /** A pixel write past the end of the buffer: undefined behaviour in the firmware. */
  predicate OpFaults(op: Op, n: int)
  {
    op.SetOp? && !(0 <= op.addr < n)
  }

  // ------------------------------------------------ buffer of a view

  /** The bytes of a pixel view: the inverse of `PixelsOf`. */
  function BufferOf(v: seq<u32>, ch: int): (buf: seq<u8>)
    requires ch == 3 || ch == 4
    ensures |buf| == Offset(|v|, ch)
  {
    if ch == 3 then seq(3 * |v|, k requires 0 <= k < 3 * |v| => PixelBytes(v[k / 3], 3)[k % 3])
    else seq(4 * |v|, k requires 0 <= k < 4 * |v| => PixelBytes(v[k / 4], 4)[k % 4])
  }

  /** Byte `k` of the buffer of a buffer's view is byte `k` of that buffer. */
  lemma BufferOfPixelsAt(buf: seq<u8>, ch: int, n: int, k: int)
    requires Layout(ch, n, |buf|) && 0 <= k < |buf|
    ensures BufferOf(PixelsOf(buf, ch, n), ch)[k] == buf[k]
  {
    var p, i := if ch == 3 then k / 3 else k / 4, if ch == 3 then k % 3 else k % 4;
    assert k == Offset(p, ch) + i && 0 <= i < ch;
    WriteBackRead(buf, ch, p);
    assert buf[Offset(p, ch)..Offset(p, ch) + ch][i] == buf[k];
  }

  /** A buffer is determined by its pixel view. */
  lemma BufferOfPixels(buf: seq<u8>, ch: int, n: int)
    requires Layout(ch, n, |buf|)
    ensures BufferOf(PixelsOf(buf, ch, n), ch) == buf
  {
    forall k | 0 <= k < |buf|
      ensures BufferOf(PixelsOf(buf, ch, n), ch)[k] == buf[k]
    {
      BufferOfPixelsAt(buf, ch, n, k);
    }
  }
}
