/** The drawing surface (src/canvas.rs): a canvas owns one bitmap. */
module Canvases {
  import opened Pixels
  import opened Colors
  import opened Bitmaps

  class Canvas {
    const bitmap: Bitmap

    ghost predicate Valid()
      reads this, bitmap
    {
      bitmap.Valid()
    }

    /** `Canvas::new` takes the bitmap over as it is. */
    constructor (bitmap: Bitmap)
      requires bitmap.Valid()
      ensures Valid() && this.bitmap == bitmap
      ensures bitmap.pixels[..] == old(bitmap.pixels[..])
    {
      this.bitmap := bitmap;
    }

    /** `Canvas::clear`: overwrite all `width * height` pixels, in place, with
        the colour's pixel. The size of the bitmap does not change. */
    method Clear(color: Color, toPixel: PixelConversion)
      requires Valid()
      modifies bitmap.pixels
      ensures Valid()
      ensures bitmap.pixels[..] == Cleared(old(bitmap.pixels[..]), toPixel(color))
    {
      var srcpx := toPixel(color);
      var w := bitmap.width;
      var h := bitmap.height;
      for i := 0 to w * h
        invariant forall k :: 0 <= k < i ==> bitmap.pixels[k] == srcpx
        invariant forall k :: i <= k < bitmap.pixels.Length ==> bitmap.pixels[k] == old(bitmap.pixels[k])
      {
        bitmap.pixels[i] := srcpx;
      }
    }
  }

  /** The buffer after a clear: same length, every entry the given pixel. */
  function Cleared(before: seq<Pixel>, p: Pixel): seq<Pixel> {
    seq(|before|, _ => p)
  }

  /** After a clear every pixel is the colour's pixel, so every pixel is
      premultiplied, and the buffer keeps its length. */
  lemma ClearedIsFilled(before: seq<Pixel>, color: Color, toPixel: PixelConversion)
    ensures |Cleared(before, toPixel(color))| == |before|
    ensures forall i :: 0 <= i < |before| ==>
      Cleared(before, toPixel(color))[i] == toPixel(color) && Premultiplied(Cleared(before, toPixel(color))[i])
  {
  }

  /** Clearing twice with the same colour is clearing once, and the result
      does not depend on what the buffer held before. */
  lemma ClearedIdempotentAndOblivious(before: seq<Pixel>, other: seq<Pixel>, p: Pixel)
    ensures Cleared(Cleared(before, p), p) == Cleared(before, p)
    ensures |other| == |before| ==> Cleared(other, p) == Cleared(before, p)
  {
  }
}
