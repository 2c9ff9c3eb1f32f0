/** Integer bounding boxes of three points (src/bounds.rs). A point is a pair
    of `f32` coordinates, modelled as reals: NaN and the infinities are not
    modelled. */
module Bounds {
  import opened Floats

  datatype Point = Point(x: real, y: real)

  datatype BoundingBox = BoundingBox(xmin: int, xmax: int, ymin: int, ymax: int)

  const I32Min: int := -0x8000_0000
  const I32Max: int := 0x7fff_ffff

  /** `v as i32` for a finite `f32`: round toward zero, then saturate at the
      bounds of `i32`. */
  function TruncToI32(v: real): (n: int)
    ensures I32Min <= n <= I32Max
    ensures 0.0 <= v ==> 0 <= n && n as real <= v && (n == I32Max || v < n as real + 1.0)
    ensures v <= 0.0 ==> n <= 0 && v <= n as real && (n == I32Min || n as real - 1.0 < v)
  {
    var t := if v < 0.0 then -((-v).Floor) else v.Floor;
    if t < I32Min then I32Min else if t > I32Max then I32Max else t
  }

  /** Truncation never reverses the order of two coordinates. */
  lemma TruncMonotone(v: real, w: real)
    requires v <= w
    ensures TruncToI32(v) <= TruncToI32(w)
  {
  }

  /** Truncation is toward zero, not down: -0.5 becomes 0 where floor gives -1. */
  lemma TruncTowardZero()
    ensures TruncToI32(-0.5) == 0 && (-0.5).Floor == -1
    ensures TruncToI32(2.75) == 2 && TruncToI32(-2.75) == -2
  {
  }

  /** `BoundingBox::new`: the smallest and largest x and y over the three
      vertices, each truncated to `i32`. Every vertex's truncated coordinates
      lie in the box, and each bound is attained by some vertex. */
  function NewBoundingBox(a: Point, b: Point, c: Point): (box: BoundingBox)
    ensures box.xmin <= box.xmax && box.ymin <= box.ymax
    ensures forall p :: p in [a, b, c] ==>
      box.xmin <= TruncToI32(p.x) <= box.xmax && box.ymin <= TruncToI32(p.y) <= box.ymax
    ensures exists p :: p in [a, b, c] && box.xmin == TruncToI32(p.x)
    ensures exists p :: p in [a, b, c] && box.xmax == TruncToI32(p.x)
    ensures exists p :: p in [a, b, c] && box.ymin == TruncToI32(p.y)
    ensures exists p :: p in [a, b, c] && box.ymax == TruncToI32(p.y)
  {
    var xmin := Min(a.x, Min(b.x, c.x));
    var xmax := Max(a.x, Max(b.x, c.x));
    var ymin := Min(a.y, Min(b.y, c.y));
    var ymax := Max(a.y, Max(b.y, c.y));
    ExtremeOfThree(a.x, b.x, c.x);
    ExtremeOfThree(a.y, b.y, c.y);
    BoundingBox(TruncToI32(xmin), TruncToI32(xmax), TruncToI32(ymin), TruncToI32(ymax))
  }

  /** Truncating the smallest (largest) of three values gives the smallest
      (largest) of the three truncations. */
  lemma ExtremeOfThree(u: real, v: real, w: real)
    ensures var lo, hi := TruncToI32(Min(u, Min(v, w))), TruncToI32(Max(u, Max(v, w)));
      lo <= hi &&
      lo <= TruncToI32(u) <= hi && lo <= TruncToI32(v) <= hi && lo <= TruncToI32(w) <= hi &&
      (lo == TruncToI32(u) || lo == TruncToI32(v) || lo == TruncToI32(w)) &&
      (hi == TruncToI32(u) || hi == TruncToI32(v) || hi == TruncToI32(w))
  {
    var lo, hi := Min(u, Min(v, w)), Max(u, Max(v, w));
    TruncMonotone(lo, hi);
    TruncMonotone(lo, u);
    TruncMonotone(lo, v);
    TruncMonotone(lo, w);
    TruncMonotone(u, hi);
    TruncMonotone(v, hi);
    TruncMonotone(w, hi);
  }

  /** The box does not depend on the order of the vertices. */
  lemma NewBoundingBoxSymmetric(a: Point, b: Point, c: Point)
    ensures NewBoundingBox(a, b, c) == NewBoundingBox(b, a, c)
    ensures NewBoundingBox(a, b, c) == NewBoundingBox(a, c, b)
    ensures NewBoundingBox(a, b, c) == NewBoundingBox(b, c, a)
    ensures NewBoundingBox(a, b, c) == NewBoundingBox(c, a, b)
    ensures NewBoundingBox(a, b, c) == NewBoundingBox(c, b, a)
  {
    OrderOfThree(a.x, b.x, c.x);
    OrderOfThree(a.y, b.y, c.y);
  }

  lemma OrderOfThree(u: real, v: real, w: real)
    ensures var m := Min(u, Min(v, w));
      m == Min(v, Min(u, w)) == Min(u, Min(w, v)) == Min(v, Min(w, u)) == Min(w, Min(u, v)) == Min(w, Min(v, u))
    ensures var m := Max(u, Max(v, w));
      m == Max(v, Max(u, w)) == Max(u, Max(w, v)) == Max(v, Max(w, u)) == Max(w, Max(u, v)) == Max(w, Max(v, u))
  {
  }
}
