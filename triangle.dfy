/** Triangles of three `f32` points (src/triangle.rs). */
module Triangles {
  import opened Bounds

  datatype Triangle = Triangle(a: Point, b: Point, c: Point) {

    /** `Triangle::bounds`: the bounding box of the three vertices, with
        ordered bounds that contain every vertex's truncated coordinates. */
    function Bounds(): (box: BoundingBox)
      ensures box == NewBoundingBox(a, b, c)
      ensures box.xmin <= box.xmax && box.ymin <= box.ymax
      ensures forall p :: p in [a, b, c] ==>
        box.xmin <= TruncToI32(p.x) <= box.xmax && box.ymin <= TruncToI32(p.y) <= box.ymax
    {
      NewBoundingBox(a, b, c)
    }
  }

  /** `Triangle::new` keeps the vertices in the order given. */
  function NewTriangle(a: Point, b: Point, c: Point): (t: Triangle)
    ensures t.a == a && t.b == b && t.c == c
  {
    Triangle(a, b, c)
  }

  /** `u` lists the vertices of `t` in some order. */
  predicate Reordered(t: Triangle, u: Triangle) {
    u == Triangle(t.a, t.b, t.c) || u == Triangle(t.a, t.c, t.b) ||
    u == Triangle(t.b, t.a, t.c) || u == Triangle(t.b, t.c, t.a) ||
    u == Triangle(t.c, t.a, t.b) || u == Triangle(t.c, t.b, t.a)
  }

  /** Triangles whose vertices are a permutation of each other have the same
      bounds. */
  lemma ReorderedTrianglesShareBounds(t: Triangle, u: Triangle)
    requires Reordered(t, u)
    ensures u.Bounds() == t.Bounds()
  {
    NewBoundingBoxSymmetric(t.a, t.b, t.c);
  }
}
