/** The pixel buffer of an image (src/bitmap.rs). */
module Bitmaps {
  import opened Outcomes
  import opened Pixels

  /** A `width * height` buffer of pixels, row-major. The fields are private in
      the source and never reassigned; only the pixels themselves change. */
  class Bitmap {
    const width: nat
    const height: nat
    const pixels: array<Pixel>

    ghost predicate Valid()
      reads this
    {
      pixels.Length == width * height
    }

    /** `Bitmap::new`: a blank opaque-white bitmap of the given size. The white
        pixel is built with `pack_argb`, which is shown not to panic. */
    constructor (width: nat, height: nat)
      ensures Valid() && fresh(pixels)
      ensures this.width == width && this.height == height
      ensures pixels[..] == Blank(width, height)
    {
      this.width := width;
      this.height := height;
      var white := PackArgb(255, 255, 255, 255).value;
      pixels := new Pixel[width * height](_ => white);
      new;
      assert pixels[..] == Blank(width, height);
    }
  }

  /** The contents of a new bitmap. */
  function Blank(width: nat, height: nat): seq<Pixel> {
    seq(width * height, _ => White)
  }

  /** A new bitmap holds exactly width * height pixels, all opaque white and
      so premultiplied; a zero dimension gives an empty buffer. */
  lemma BlankIsOpaqueWhite(width: nat, height: nat)
    ensures |Blank(width, height)| == width * height
    ensures forall i :: 0 <= i < width * height ==>
      Blank(width, height)[i] == Pixel(255, 255, 255, 255) && Premultiplied(Blank(width, height)[i])
    ensures width == 0 || height == 0 ==> Blank(width, height) == []
  {
  }
}
