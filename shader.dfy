/** Row shaders (src/shader.rs). The `Shader` trait has one method, `shade_row`,
    and one implementation, `ColorShader`; that implementation is modelled
    directly. */
module Shading {
  import opened Pixels
  import opened Colors

  /** A shader that paints every pixel with one premultiplied pixel. */
  datatype ColorShader = ColorShader(src: Pixel) {

    /** `shade_row(x, y, count)`: pushes the stored pixel `count` times. The
        row does not depend on the position. */
    method ShadeRow(x: nat, y: nat, count: nat) returns (res: seq<Pixel>)
      ensures |res| == count
      ensures forall i :: 0 <= i < count ==> res[i] == src
    {
      res := [];
      for i := 0 to count
        invariant |res| == i
        invariant forall k :: 0 <= k < i ==> res[k] == src
      {
        res := res + [src];
      }
    }
  }

  /** `ColorShader::new` stores the colour's pixel, which is premultiplied. */
  function NewColorShader(color: Color, toPixel: PixelConversion): (s: ColorShader)
    ensures s.src == toPixel(color) && Premultiplied(s.src)
  {
    ColorShader(toPixel(color))
  }

  /** `Shaders::from_color` is `ColorShader::new`. */
  function FromColor(color: Color, toPixel: PixelConversion): (s: ColorShader)
    ensures s == NewColorShader(color, toPixel)
  {
    NewColorShader(color, toPixel)
  }
}
