# dinky: a verified model of the pixel pipeline

`dinky` is a small software rasterizer written in Rust. This project models its
integer pixel pipeline and its geometry and serialisation helpers in Dafny:

- premultiplied 8-bit ARGB pixels and the guarded constructor `pack_argb`;
- the integer "magic constant" Porter-Duff source-over `blend`;
- floating-point colours;
- the opaque-white `Bitmap`, the `Canvas` that clears it in place, and the
  solid-colour shader;
- rectangles, with their emptiness, rounding and intersection;
- the bounding box of a triangle;
- the plain-PPM ("P3") text writer, which is shown to round-trip through a
  reader of the same format.

One Dafny module stands for each Rust file:

| Rust file | Dafny module (file) |
|---|---|
| src/pixel.rs | `Pixels` (pixel.dfy) |
| src/util.rs | `Blending` (util.dfy) |
| src/color.rs | `Colors` (color.dfy) |
| src/bitmap.rs | `Bitmaps` (bitmap.dfy) |
| src/canvas.rs | `Canvases` (canvas.dfy) |
| src/shader.rs | `Shading` (shader.dfy) |
| src/rect.rs | `Rects` (rect.dfy) |
| src/bounds.rs | `Bounds` (bounds.dfy) |
| src/triangle.rs | `Triangles` (triangle.dfy) |
| src/ppm.rs | `Ppm` (ppm.dfy) |

Three helper modules support them:

- `Outcomes` (outcomes.dfy) has the `Outcome` type. A Rust `assert!` that can fail
  becomes an explicit `Panic` result carrying the assertion's message.
- `Decimal` (decimal.dfy) defines the decimal numeral that Rust's `{}`
  formatting prints for an unsigned integer, and a reader that is a left
  inverse of it when the numeral is followed by a non-digit.
- `Floats` (floats.dfy) has `f32::max` and `f32::min` over `real`.

The modelling choices are these:

- Rust's `u32` arithmetic in `blend` is written out as reduction modulo 2^32
  (what a release build does; a debug build panics on overflow instead). It
  is proved that no u32 operation in `blend` overflows for any byte inputs, so
  both builds behave alike.
- `as u8` is written out as reduction modulo 256. It is proved to keep every
  value only when both operands are premultiplied. On other operands it can
  truncate: `Blending.BlendCastTruncates` shows a non-premultiplied source
  whose red channel 510 becomes 254, and `pack_argb` accepts the result.
- `f32` coordinates and colour channels are modelled as `real`, so NaN and
  ±infinity are excluded. Only operations that are exact in IEEE arithmetic are modelled:
  comparisons, `max`, `min`, `floor` and the truncating `as i32`. `as i32`
  truncates toward zero and saturates at the `i32` bounds.
- `Color::to_pixel` is called by the code but is not defined in it. The model
  takes it as a parameter of type `PixelConversion`: any function from colours
  to pixels whose results are premultiplied. No formula is assumed for it.
- Objects whose fields the code updates in place are classes:
  - `Bitmap` holds its pixels in an array, which `Canvas::clear` overwrites.
  - `Rect` is updated by `intersect`.
  - `PPMImage` holds its colours in an array, which `set` updates.
- Each method is proved against a function of the old state: `Cleared`,
  `Floored`, `Meet` and `PlainPpm`.

## Model

| member | source | states |
|---|---|---|
| Pixels.PackArgb | src/pixel.rs:9-22 | Succeeds exactly when r, g and b are each at most a, and otherwise panics. The pixel it returns holds the four arguments unchanged and is premultiplied. |
| Pixels.PackArgbPanicMessage | src/pixel.rs:11-14 | The `a > 255` assertion never fires for byte arguments. A panic carries the message of the first failing check, in the order r, g, b. |
| Pixels.PackArgbTransparentAndWhite | src/pixel.rs:11-14 | `pack_argb(a, 0, 0, 0)` and `pack_argb(255, 255, 255, 255)` always succeed, with the expected pixels. |
| Pixels.PackArgbRoundTrip | src/pixel.rs:9-22 | Repacking the fields of a pixel gives that same pixel back exactly when the pixel is premultiplied. |
| Blending.Blend | src/util.rs:3-19 | On premultiplied operands, blend never panics, its result is premultiplied, and every channel equals source-over S.c + (255 - S.a) * D.c / 255, rounded to nearest. |
| Blending.CastU8Keeps | src/util.rs:18 | The `as u8` cast leaves any value up to 255 unchanged. |
| Blending.MagicDivision | src/util.rs:4-16 | For every product p of two bytes, p * 65793 + 2^23 fits in 32 bits, and shifting it right by 24 gives (p + 127) / 255. |
| Blending.ScaledTermIsRoundedQuotient | src/util.rs:11-16 | For byte values sub and d, no u32 operation in `(sub * d * magic + (1 << 23)) >> 24` overflows, and the term equals (sub * d + 127) / 255. |
| Blending.RoundsToNearest | src/util.rs:13-16 | (p + 127) / 255 is within 127/255 of p / 255, so it is the nearest integer. |
| Blending.ScaledTermBounds | src/util.rs:13-16 | The added term never exceeds sub, and it is monotone in the destination channel. |
| Blending.FinalChannelIsSourceOver | src/util.rs:11-16 | Each `final_*` computed with the magic constant equals the reference source-over channel. |
| Blending.SourceOverBounds | src/util.rs:13-16 | On premultiplied operands each blended colour channel is at most the blended alpha, which is at most 255. |
| Blending.BlendPremultiplied | src/util.rs:13-18 | On premultiplied operands every `final_*` is at most 255, so no cast truncates, and r, g and b are at most a, so `pack_argb` cannot panic. |
| Blending.BlendOpaque | src/util.rs:11-18 | When src.a == 255, blend returns src exactly, whatever the destination. |
| Blending.BlendCastTruncates | src/util.rs:13-18 | With the non-premultiplied source (0, 255, 0, 0) over opaque white, final_r is 510, the `as u8` cast turns it into 254, and blend returns (255, 254, 255, 255) without panicking. |
| Blending.OpaqueChannel | src/util.rs:11-16 | With sub == 0 the added term is zero, and the channel is the source channel. |
| Blending.BlendTransparent | src/util.rs:4-18 | An all-zero source gives back the destination repacked. That is exactly the destination when the destination is premultiplied; otherwise the repack panics. |
| Blending.TransparentChannel | src/util.rs:4-16 | With sub == 255 each channel is the destination channel, because 255 * 65793 == 2^24 - 1. |
| Blending.BlendChannelsIndependent | src/util.rs:13-16 | Each output channel depends only on the source alpha and on that channel of the source and of the destination. |
| Colors.MakeArgb | src/color.rs:9-16 | Stores the four arguments unchanged, with no clamping. |
| Colors.MakeRgb | src/color.rs:18-25 | Sets alpha to 1 and stores r, g and b unchanged. The result equals `make_argb(1, r, g, b)`. |
| Colors.Color.Clone | src/color.rs:28-36 | The copy is field-wise equal to the original. |
| Bitmaps.Bitmap.constructor | src/bitmap.rs:10-17 | Stores the width and height. The buffer is fresh, holds width * height pixels and equals `Blank(width, height)`. Building the white pixel cannot panic. |
| Bitmaps.BlankIsOpaqueWhite | src/bitmap.rs:11-15 | A blank buffer has length width * height and every pixel is opaque white (255, 255, 255, 255). A zero width or height gives an empty buffer. |
| Canvases.Canvas.constructor | src/canvas.rs:12-16 | The canvas holds the given bitmap, with its pixels unchanged. |
| Canvases.Canvas.Clear | src/canvas.rs:18-27 | Afterwards the buffer is `Cleared(old buffer, to_pixel(color))`. The loop invariant is that entries below i hold `srcpx` and the rest are unchanged. The dimensions are constants. |
| Canvases.ClearedIsFilled | src/canvas.rs:19-26 | After a clear every index below w * h holds the colour's pixel, and the length is unchanged. |
| Canvases.ClearedIdempotentAndOblivious | src/canvas.rs:24-26 | Clearing twice with the same colour equals clearing once. The result does not depend on what the buffer held before. |
| Shading.ColorShader.ShadeRow | src/shader.rs:20-27 | The row has exactly `count` pixels, and every one is the stored pixel, whatever x and y are. A count of 0 gives an empty row. |
| Shading.NewColorShader | src/shader.rs:12-17 | The shader stores `to_pixel(color)`, which is premultiplied. |
| Shading.FromColor | src/shader.rs:32-35 | `Shaders::from_color(c)` is the same shader as `ColorShader::new(c)`. |
| Rects.Rect.MakeLtrb | src/rect.rs:9-11 | Stores left, top, right and bottom as given. |
| Rects.Rect.MakeWh | src/rect.rs:15-17 | Left and top are 0, right is w and bottom is h. |
| Rects.Rect.Left | src/rect.rs:19 | Returns the left edge unchanged. |
| Rects.Rect.Top | src/rect.rs:20 | Returns the top edge unchanged. |
| Rects.Rect.Right | src/rect.rs:21 | Returns the right edge unchanged. |
| Rects.Rect.Bottom | src/rect.rs:22 | Returns the bottom edge unchanged. |
| Rects.Rect.X | src/rect.rs:24 | The x coordinate is the left edge. |
| Rects.Rect.Y | src/rect.rs:25 | The y coordinate is the top edge. |
| Rects.Rect.Empty | src/rect.rs:29-31 | Holds exactly when left >= right or top >= bottom, and exactly when no point lies inside the rect. |
| Rects.EmptyIffNoPoint | src/rect.rs:29-31 | A rect is empty exactly when it contains no point. |
| Rects.Rect.Round | src/rect.rs:33-40 | Returns a new rect whose edges are the floors of this rect's edges. |
| Rects.FlooredEdges | src/rect.rs:33-40 | Each rounded edge is the greatest integer not above the original edge. Rounding twice equals rounding once. |
| Rects.Rect.Intersects | src/rect.rs:49-56 | True exactly when some point lies inside both rects. Reading both rects changes neither of them. |
| Rects.IntersectsSymmetric | src/rect.rs:49-56 | `a.intersects(b) == b.intersects(a)`. |
| Rects.MeetIsCommonPart | src/rect.rs:50-55 | The max/min rect contains exactly the points common to both rects. It is non-empty exactly when they share a point. |
| Rects.MeetSymmetricIdempotent | src/rect.rs:58-61 | The max/min combination is symmetric. Meeting the result with `other` again changes nothing. |
| Rects.Rect.Intersect | src/rect.rs:57-72 | Returns what `intersects` returned on the old state. On true the edges become the max/min rect, which is non-empty and lies inside both inputs. On false the rect is unchanged. |
| Rects.IntersectIdempotent | src/rect.rs:57-72 | After a successful intersect, repeating it with the same `other` returns true and leaves the edges unchanged. |
| Bounds.TruncToI32 | src/bounds.rs:13-16 | `as i32` lands in the i32 range. For non-negative values it is the largest integer not above v, and for non-positive values the smallest integer not below v; it saturates at either end. |
| Bounds.TruncMonotone | src/bounds.rs:13-16 | Truncation is monotone. |
| Bounds.TruncTowardZero | src/bounds.rs:13-16 | Conversion truncates rather than floors: -0.5 gives 0, where the floor is -1. 2.75 gives 2 and -2.75 gives -2. |
| Bounds.NewBoundingBox | src/bounds.rs:11-18 | The box is ordered, and contains every vertex's truncated coordinates. Each of its four bounds is the truncated coordinate of some vertex. |
| Bounds.ExtremeOfThree | src/bounds.rs:13-16 | The truncated minimum and maximum of three coordinates bound each truncated coordinate, and each is attained by one of them. |
| Bounds.NewBoundingBoxSymmetric | src/bounds.rs:13-16 | The box is the same for all six orders of the three vertices. |
| Bounds.OrderOfThree | src/bounds.rs:13-16 | The nested min and max of three values do not depend on their order. |
| Triangles.NewTriangle | src/triangle.rs:12-18 | Stores a, b and c in order. |
| Triangles.Triangle.Bounds | src/triangle.rs:20-22 | Equals `BoundingBox::new(a, b, c)`, is ordered, and contains every vertex's truncated coordinates. |
| Triangles.ReorderedTrianglesShareBounds | src/triangle.rs:20-22 | Triangles whose vertices are a reordering of each other have equal bounds. |
| Decimal.NatToStringShape | src/ppm.rs:25-32 | A numeral printed by `{}` is a non-empty run of digits with no leading zero, except for "0" itself. |
| Decimal.DigitsValueOfNatToString | src/ppm.rs:25-32 | The digits of the numeral of n have value n. |
| Decimal.ParseNatOfNatToString | src/ppm.rs:25-32 | Reading a numeral followed by a non-digit gives back the number and the rest of the text. |
| Ppm.PpmImage.constructor | src/ppm.rs:14-20 | Holds width * height colours, all (0, 0, 0), and stores the dimensions. |
| Ppm.PpmImage.Write | src/ppm.rs:22-36 | The text built in `bufstr` is `PlainPpm(width, height, colors)`: the magic line, then the dimensions line, then one line per colour for indices 0 up to w * h. It requires `colors` to hold at least w * h entries, since indexing past the end panics. |
| Ppm.PlainPpmHeader | src/ppm.rs:24-26 | The text begins with exactly "P3\n", followed by "<width> <height> 255\n". |
| Ppm.PixelLinesSnoc | src/ppm.rs:27-35 | Each loop iteration appends the line of the next colour. |
| Ppm.PixelLinesAt | src/ppm.rs:27-35 | Line i of the body is "r g b\n" for colour i, in r, g, b order, between the lines of the colours before and after it. |
| Ppm.LinesAppend | src/ppm.rs:27-35 | The lines of two runs of colours are the lines of the first run followed by those of the second. |
| Ppm.PlainPpmRoundTrip | src/ppm.rs:22-36 | Reading the text back yields exactly the width, the height and the first w * h colours, in index order, with none skipped, repeated or reordered. The text is a function of these alone. |
| Ppm.ParseLinesOf | src/ppm.rs:27-35 | The body reads back as exactly its colours, in order. |
| Ppm.PpmImage.Set | src/ppm.rs:42-44 | Writes c at index x + y * width, and every other entry is unchanged. |
| Ppm.RowMajorIndexInjective | src/ppm.rs:43 | Distinct positions (x < width) have distinct row-major indices, so `set` touches only its own pixel. |

## Left out

- src/matrix.rs (`apply`, `mul`, `inv`) is not part of this model. It is
  `f32` arithmetic that rounds at every step. `inv` divides by a determinant
  without checking it, so it can produce infinities or NaN. The file is also
  not declared in src/lib.rs.
- `Rect::offset`, `width`, `height` and `make_xywh` (src/rect.rs:12-14, 26-27,
  42-47) are not modelled. They add and subtract `f32` values, which rounds. A
  model over reals would prove laws that do not hold for them.
- Bounds.TruncToI32 and the class Rects.Rect take finite coordinates only.
  Infinite `f32` values are not modelled: neither an infinite vertex
  coordinate, whose `as i32` cast saturates to `i32::MIN` or `i32::MAX` in
  `BoundingBox::new`, nor a `Rect` with an infinite edge passed to `empty`,
  `round`, `intersects` or `intersect`.
- File output is not modelled: `File::create` and `write_all(...).unwrap()` in
  `PPMImage::write`, and `Canvas::write`. `Canvas::write` calls a `Bitmap::write`
  that src/bitmap.rs does not define. The model stops at the text that would be
  written.
- `Color::to_pixel` is not defined in the code. It is a parameter whose only
  known property is that its result is premultiplied.
- cgmath's `Point2<f32>` is an external type. It is modelled as a pair of
  reals, `Bounds.Point`.
- src/main.rs is demo wiring and src/lib.rs is a module list. Neither is
  modelled. lib.rs does not declare `util` or `shader`.
- The following are not in the code at all, so they are not modelled: the
  triangle rasterizer, the transform stack, the bitmap shader, a PPM reader,
  `blend_row`, and un-premultiplication before PPM output. The PPM reader in
  ppm.dfy is a reference definition used to state the round trip. It is not a
  model of code.
- Some code would not compile as written. It is modelled by its evident intent:
  - src/ppm.rs:18 builds a `Color` with integer r, g, b only, so PPM colours are
    `Rgb` triples of naturals.
  - src/ppm.rs:43 assigns through `&self`, so `Set` is a modifying method.
  - src/canvas.rs:21-25 reads `Bitmap`'s private fields. The fields are
    reachable in the model.
  - src/triangle.rs:14-16 stores references in value fields. The triangle
    stores the points.
  - src/bitmap.rs:15 uses `vec![…; n]`, which needs `Pixel: Clone`. The
    model copies pixel values freely.
  - src/shader.rs:24 pushes `self.src`, moving a non-`Copy` `Pixel` out of
    `&self`. The row holds copies of the stored pixel.
  - src/canvas.rs:25 moves `srcpx` on every iteration. Every entry receives
    the same pixel value.
- The `Shader` trait has one implementation, `ColorShader`. `shade_row` is
  modelled as a method of that type, and the trait itself is not modelled.
- Shading.ColorShader.ShadeRow returns a sequence, so the `Vec` capacity
  reservation (`Vec::with_capacity`) has no counterpart.
- Bitmaps.Bitmap.constructor keeps the pixels in an array although
  `Bitmap::new` builds them in one expression, because `Canvas::clear`
  overwrites that buffer in place.
- Blending.Blend states the source-over result only for premultiplied
  operands. On other operands the model computes what the code computes
  (wrapping and truncating casts, then `pack_argb`), but proves nothing more
  about it.
- The write path follows the code in two places:
  - `Bitmap::new` fills the buffer with opaque white, as its comment says.
  - The PPM writer prints the stored channels unchanged, with no
    un-premultiplication.
- Ppm.PpmImage.Set requires `x + y * width < colors.Length`. Indexing past
  the end panics in src/ppm.rs:43, and that panic is not modelled as a result.
- Ppm.PpmImage.Write requires `colors` to hold at least width * height
  entries. Indexing past the end panics in src/ppm.rs:28, and that panic is
  not modelled as a result.
- Bitmaps.Bitmap.constructor, Canvases.Canvas.Clear, Ppm.PpmImage.constructor,
  Ppm.PpmImage.Write and Ppm.PpmImage.Set compute `width * height` and
  `x + y * width` on unbounded naturals. In Rust these are `usize`: a debug
  build panics on overflow and a release build wraps. Overflow of these
  products is not modelled.
