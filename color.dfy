/** Floating-point ARGB colours (src/color.rs). An `f32` channel is a `real`
    here: NaN and infinities are not modelled, and none of these operations
    does arithmetic. */
module Colors {
  import opened Pixels

  datatype Color = Color(a: real, r: real, g: real, b: real) {

    /** `Clone::clone` copies every field. */
    function Clone(): (c: Color)
      ensures c == this
    {
      Color(a, r, g, b)
    }
  }

  /** `Color::make_argb` stores its arguments as given, without clamping. */
  function MakeArgb(a: real, r: real, g: real, b: real): (c: Color)
    ensures c.a == a && c.r == r && c.g == g && c.b == b
  {
    Color(a, r, g, b)
  }

  /** `Color::make_rgb` is the opaque colour with the given channels. */
  function MakeRgb(r: real, g: real, b: real): (c: Color)
    ensures c.a == 1.0 && c.r == r && c.g == g && c.b == b
    ensures c == MakeArgb(1.0, r, g, b)
  {
    Color(1.0, r, g, b)
  }

  /** `Color::to_pixel` is called by the canvas and the colour shader but its
      definition is not part of this model. Callers receive it as a parameter:
      any conversion whose every result is a premultiplied pixel. */
  type PixelConversion = f: Color -> Pixel | forall c :: Premultiplied(f(c))
    witness (c: Color) => Pixel(0, 0, 0, 0)
}
