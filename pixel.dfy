/** Premultiplied 8-bit ARGB pixels (src/pixel.rs). */
module Pixels {
  import opened Outcomes

  /** The values of a Rust `u8`. */
  type U8 = x: int | 0 <= x < 256

  /** `Pixel` has public fields, so any four bytes make one; the premultiplied
      form is what `pack_argb` insists on. */
  datatype Pixel = Pixel(a: U8, r: U8, g: U8, b: U8)

  /** Colour channels never exceed alpha. */
  predicate Premultiplied(p: Pixel) {
    p.r <= p.a && p.g <= p.a && p.b <= p.a
  }

  const White: Pixel := Pixel(255, 255, 255, 255)

  /** `Pixel::pack_argb`: the four assertions are checked in order and the first
      that fails panics with its message. */
  function PackArgb(a: U8, r: U8, g: U8, b: U8): (res: Outcome<Pixel>)
    ensures res.Ok? <==> r <= a && g <= a && b <= a
    ensures res.Ok? ==> res.value.a == a && res.value.r == r && res.value.g == g && res.value.b == b
    ensures res.Ok? ==> Premultiplied(res.value)
  {
    if !(a <= 255) then Panic("a > 255")
    else if !(r <= a) then Panic("r > a")
    else if !(g <= a) then Panic("g > a")
    else if !(b <= a) then Panic("b > a")
    else Ok(Pixel(a, r, g, b))
  }

  /** The first assertion, `a <= 255`, can never fire on a `u8`; a panic names
      the first colour channel that exceeds alpha. */
  lemma PackArgbPanicMessage(a: U8, r: U8, g: U8, b: U8)
    ensures PackArgb(a, r, g, b) != Panic("a > 255")
    ensures PackArgb(a, r, g, b).Panic? ==>
      PackArgb(a, r, g, b).message ==
        if r > a then "r > a" else if g > a then "g > a" else "b > a"
  {
  }

  /** Transparent colours and opaque white always pack. */
  lemma PackArgbTransparentAndWhite(a: U8)
    ensures PackArgb(a, 0, 0, 0) == Ok(Pixel(a, 0, 0, 0))
    ensures PackArgb(255, 255, 255, 255) == Ok(White)
  {
  }

  /** A pixel packs back to itself exactly when it is premultiplied. */
  lemma PackArgbRoundTrip(p: Pixel)
    ensures PackArgb(p.a, p.r, p.g, p.b) == Ok(p) <==> Premultiplied(p)
  {
  }
}
