/** Porter-Duff source-over on premultiplied 8-bit ARGB (src/util.rs), in the
    integer "magic constant" form that replaces division by 255. */
module Blending {
  import opened Outcomes
  import opened Pixels

  /** (1 << 16) | (1 << 8) | 1 */
  const Magic: nat := 0x1_0101
  /** 1 << 23, the rounding bias added before the shift by 24 */
  const Half: nat := 0x80_0000
  const Two24: nat := 0x100_0000
  const Two32: nat := 0x1_0000_0000

  /** Rust `u32` arithmetic wraps modulo 2^32. */
  function WrapU32(x: int): nat {
    x % Two32
  }

  /** `x as u8` keeps the low eight bits. */
  function CastU8(x: nat): U8 {
    x % 256
  }

  lemma CastU8Keeps(x: nat)
    requires x <= 255
    ensures CastU8(x) == x
  {
  }

  /** `((sub * d * magic) + (1 << 23)) >> 24`, each step in u32. */
  function ScaledTerm(sub: nat, d: U8): nat {
    WrapU32(WrapU32(WrapU32(sub * d) * Magic) + Half) / Two24
  }

  /** `final_c = src_c + ScaledTerm(sub, dst_c)`, in u32. */
  function FinalChannel(s: U8, sub: nat, d: U8): nat {
    WrapU32(s + ScaledTerm(sub, d))
  }

  /** Reference definition of source-over on one channel:
      S.c + (255 - S.a) * D.c / 255, rounded to nearest. */
  function SourceOverChannel(sa: U8, s: U8, d: U8): int {
    s + ((255 - sa) * d + 127) / 255
  }

  /** `blend(src, dst)`: computes the four channels with the magic constant,
      casts them to u8 and packs them, which panics unless the result is
      premultiplied. On premultiplied operands it is source-over exactly. */
  function Blend(src: Pixel, dst: Pixel): (res: Outcome<Pixel>)
    ensures Premultiplied(src) && Premultiplied(dst) ==>
      res.Ok? && Premultiplied(res.value) &&
      res.value.a == SourceOverChannel(src.a, src.a, dst.a) &&
      res.value.r == SourceOverChannel(src.a, src.r, dst.r) &&
      res.value.g == SourceOverChannel(src.a, src.g, dst.g) &&
      res.value.b == SourceOverChannel(src.a, src.b, dst.b)
  {
    var sub := WrapU32(255 - src.a);
    var finalA := FinalChannel(src.a, sub, dst.a);
    var finalR := FinalChannel(src.r, sub, dst.r);
    var finalG := FinalChannel(src.g, sub, dst.g);
    var finalB := FinalChannel(src.b, sub, dst.b);
    var packed := PackArgb(CastU8(finalA), CastU8(finalR), CastU8(finalG), CastU8(finalB));
    if Premultiplied(src) && Premultiplied(dst) then
      BlendPremultiplied(src, dst);
      CastU8Keeps(finalA);
      CastU8Keeps(finalR);
      CastU8Keeps(finalG);
      CastU8Keeps(finalB);
      packed
    else
      packed
  }

  lemma DivBy255(n: int, q: int)
    requires 255 * q <= n < 255 * q + 255
    ensures n / 255 == q
  {
  }

  lemma DivByTwo24(n: int, q: int)
    requires Two24 * q <= n < Two24 * q + Two24
    ensures n / Two24 == q
  {
  }

  lemma MulMonotone(k: nat, x: int, y: int)
    requires x <= y
    ensures k * x <= k * y
  {
  }

  /** The magic-constant identity: for a product p of two bytes,
      (p * 65793 + 2^23) >> 24 == (p + 127) / 255, because 255 * 65793 == 2^24 - 1. */
  lemma {:induction false} MagicDivision(p: nat)
    requires p <= 255 * 255
    ensures p * Magic + Half < Two32
    ensures (p * Magic + Half) / Two24 == (p + 127) / 255
  {
    var q, r := p / 255, p % 255;
    assert p == 255 * q + r;
    assert q <= 255;
    assert p * Magic + Half == Two24 * q + (Magic * r + Half - q);
    if r <= 127 {
      DivBy255(p + 127, q);
      DivByTwo24(p * Magic + Half, q);
    } else {
      DivBy255(p + 127, q + 1);
      DivByTwo24(p * Magic + Half, q + 1);
    }
  }

  lemma ByteProduct(x: U8, y: U8)
    ensures 0 <= x * y <= 255 * 255
  {
    MulMonotone(y, x, 255);
    MulMonotone(255, y, 255);
  }

  /** No u32 operation in a term overflows, and the term is the rounded
      quotient sub * d / 255. */
  lemma {:induction false} ScaledTermIsRoundedQuotient(sub: U8, d: U8)
    ensures sub * d * Magic + Half < Two32
    ensures ScaledTerm(sub, d) == (sub * d + 127) / 255
  {
    var p := sub * d;
    ByteProduct(sub, d);
    MagicDivision(p);
    assert WrapU32(p) == p;
    assert WrapU32(p * Magic) == p * Magic;
    assert WrapU32(p * Magic + Half) == p * Magic + Half;
  }

  /** (p + 127) / 255 is the integer nearest to p / 255 (no ties, 255 is odd). */
  lemma RoundsToNearest(p: nat)
    ensures var q := (p + 127) / 255; 255 * q - 127 <= p <= 255 * q + 127
  {
  }

  /** The term never exceeds sub and grows with d. */
  lemma ScaledTermBounds(sub: U8, d: U8, d': U8)
    requires d <= d'
    ensures ScaledTerm(sub, d) <= sub
    ensures ScaledTerm(sub, d) <= ScaledTerm(sub, d')
  {
    ScaledTermIsRoundedQuotient(sub, d);
    ScaledTermIsRoundedQuotient(sub, d');
    MulMonotone(sub, d, 255);
    MulMonotone(sub, d, d');
    DivBy255(sub * 255 + 127, sub);
  }

  /** One channel of the magic-constant computation is the reference
      source-over value. */
  lemma FinalChannelIsSourceOver(sa: U8, s: U8, d: U8)
    ensures FinalChannel(s, WrapU32(255 - sa), d) == SourceOverChannel(sa, s, d)
  {
    var sub := 255 - sa;
    assert WrapU32(255 - sa) == sub;
    ScaledTermIsRoundedQuotient(sub, d);
    ScaledTermBounds(sub, d, d);
    assert s + ScaledTerm(sub, d) < Two32;
  }

  /** On premultiplied operands no channel exceeds the blended alpha, and the
      blended alpha is at most 255. */
  lemma SourceOverBounds(sa: U8, s: U8, d: U8, da: U8)
    requires s <= sa && d <= da
    ensures SourceOverChannel(sa, s, d) <= SourceOverChannel(sa, sa, da) <= 255
  {
    var sub := 255 - sa;
    ScaledTermIsRoundedQuotient(sub, d);
    ScaledTermIsRoundedQuotient(sub, da);
    ScaledTermBounds(sub, d, da);
    ScaledTermBounds(sub, da, da);
  }

  /** Every final channel is at most 255, so the `as u8` casts keep it whole,
      and colour channels stay below alpha; hence `pack_argb` cannot panic. */
  lemma BlendPremultiplied(src: Pixel, dst: Pixel)
    requires Premultiplied(src) && Premultiplied(dst)
    ensures var sub := WrapU32(255 - src.a);
      var fa := FinalChannel(src.a, sub, dst.a);
      var fr := FinalChannel(src.r, sub, dst.r);
      var fg := FinalChannel(src.g, sub, dst.g);
      var fb := FinalChannel(src.b, sub, dst.b);
      fa <= 255 && fr <= fa && fg <= fa && fb <= fa &&
      fa == SourceOverChannel(src.a, src.a, dst.a) &&
      fr == SourceOverChannel(src.a, src.r, dst.r) &&
      fg == SourceOverChannel(src.a, src.g, dst.g) &&
      fb == SourceOverChannel(src.a, src.b, dst.b)
  {
    FinalChannelIsSourceOver(src.a, src.a, dst.a);
    FinalChannelIsSourceOver(src.a, src.r, dst.r);
    FinalChannelIsSourceOver(src.a, src.g, dst.g);
    FinalChannelIsSourceOver(src.a, src.b, dst.b);
    SourceOverBounds(src.a, src.r, dst.r, dst.a);
    SourceOverBounds(src.a, src.g, dst.g, dst.a);
    SourceOverBounds(src.a, src.b, dst.b, dst.a);
  }

  /** An opaque source replaces the destination exactly, whatever either
      pixel holds (sub is 0, so every term is 0). */
  lemma BlendOpaque(src: Pixel, dst: Pixel)
    requires src.a == 255
    ensures Blend(src, dst) == Ok(src)
  {
    assert WrapU32(255 - src.a) == 0;
    OpaqueChannel(src.a, dst.a);
    OpaqueChannel(src.r, dst.r);
    OpaqueChannel(src.g, dst.g);
    OpaqueChannel(src.b, dst.b);
    PackArgbRoundTrip(src);
  }

  /** On an operand that is not premultiplied the `as u8` cast can truncate
      and `pack_argb` still accepts the result: final_r is 255 + 255 == 510,
      which the cast turns into 254. */
  lemma BlendCastTruncates()
    ensures Blend(Pixel(0, 255, 0, 0), White) == Ok(Pixel(255, 254, 255, 255))
  {
    assert WrapU32(255 - 0) == 255;
    TransparentChannel(255);
    assert FinalChannel(255, 255, 255) == 510 by {
      ScaledTermIsRoundedQuotient(255, 255);
    }
  }

  lemma OpaqueChannel(s: U8, d: U8)
    ensures CastU8(FinalChannel(s, 0, d)) == s
  {
    assert ScaledTerm(0, d) == 0;
    CastU8Keeps(s);
  }

  /** A fully transparent source leaves the destination exactly as it was
      (255 * 65793 == 2^24 - 1): the result is the destination packed again,
      which succeeds exactly when the destination is premultiplied. */
  lemma BlendTransparent(dst: Pixel)
    ensures Blend(Pixel(0, 0, 0, 0), dst) == PackArgb(dst.a, dst.r, dst.g, dst.b)
    ensures Blend(Pixel(0, 0, 0, 0), dst) == Ok(dst) <==> Premultiplied(dst)
  {
    assert WrapU32(255 - 0) == 255;
    TransparentChannel(dst.a);
    TransparentChannel(dst.r);
    TransparentChannel(dst.g);
    TransparentChannel(dst.b);
  }

  lemma TransparentChannel(d: U8)
    ensures CastU8(FinalChannel(0, 255, d)) == d
  {
    ScaledTermIsRoundedQuotient(255, d);
    DivBy255(255 * d + 127, d);
    CastU8Keeps(d);
  }

  /** Channels do not interact: each output channel is determined by the
      source alpha and that channel of the source and of the destination. */
  lemma BlendChannelsIndependent(src: Pixel, dst: Pixel, src': Pixel, dst': Pixel)
    requires Blend(src, dst).Ok? && Blend(src', dst').Ok? && src.a == src'.a
    ensures dst.a == dst'.a ==> Blend(src, dst).value.a == Blend(src', dst').value.a
    ensures src.r == src'.r && dst.r == dst'.r ==> Blend(src, dst).value.r == Blend(src', dst').value.r
    ensures src.g == src'.g && dst.g == dst'.g ==> Blend(src, dst).value.g == Blend(src', dst').value.g
    ensures src.b == src'.b && dst.b == dst'.b ==> Blend(src, dst).value.b == Blend(src', dst').value.b
  {
  }
}
