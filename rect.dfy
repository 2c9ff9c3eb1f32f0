/** Axis-aligned rectangles with `f32` edges (src/rect.rs). An edge is a `real`:
    only comparisons, `max`, `min` and `floor` are modelled, all of which are
    exact in IEEE arithmetic on finite values: NaN and the infinities are not
    modelled. */
module Rects {
  import opened Floats

  /** The four edges of a rectangle, as a value. */
  datatype Ltrb = Ltrb(left: real, top: real, right: real, bottom: real)

  /** The point (x, y) lies in the half-open rectangle [left, right) x [top, bottom). */
  predicate Inside(e: Ltrb, x: real, y: real) {
    e.left <= x < e.right && e.top <= y < e.bottom
  }

  /** `Rect::empty`'s test. */
  predicate IsEmpty(e: Ltrb) {
    e.left >= e.right || e.top >= e.bottom
  }

  /** The edges `intersect` and `intersects` compute. */
  function Meet(e: Ltrb, f: Ltrb): Ltrb {
    Ltrb(Max(e.left, f.left), Max(e.top, f.top), Min(e.right, f.right), Min(e.bottom, f.bottom))
  }

  /** The edges of `Rect::round`: every edge floored. */
  function Floored(e: Ltrb): Ltrb {
    Ltrb(e.left.Floor as real, e.top.Floor as real, e.right.Floor as real, e.bottom.Floor as real)
  }

  /** Emptiness means that the rectangle contains no point. */
  lemma EmptyIffNoPoint(e: Ltrb)
    ensures IsEmpty(e) <==> forall x, y :: !Inside(e, x, y)
  {
    if !IsEmpty(e) {
      assert Inside(e, e.left, e.top);
    }
  }

  /** The meet of two rectangles contains exactly their common points, and
      it is not empty exactly when they share a point. */
  lemma MeetIsCommonPart(e: Ltrb, f: Ltrb)
    ensures forall x, y :: Inside(Meet(e, f), x, y) <==> Inside(e, x, y) && Inside(f, x, y)
    ensures !IsEmpty(Meet(e, f)) <==> exists x, y :: Inside(e, x, y) && Inside(f, x, y)
  {
    EmptyIffNoPoint(Meet(e, f));
  }

  /** Meeting is symmetric, and meeting the result again with the same
      rectangle changes nothing. */
  lemma MeetSymmetricIdempotent(e: Ltrb, f: Ltrb)
    ensures Meet(e, f) == Meet(f, e)
    ensures Meet(Meet(e, f), f) == Meet(e, f)
  {
  }

  /** Flooring moves every edge down by less than one onto an integer, and
      flooring twice is flooring once. */
  lemma FlooredEdges(e: Ltrb)
    ensures Floored(e).left <= e.left < Floored(e).left + 1.0
    ensures Floored(e).top <= e.top < Floored(e).top + 1.0
    ensures Floored(e).right <= e.right < Floored(e).right + 1.0
    ensures Floored(e).bottom <= e.bottom < Floored(e).bottom + 1.0
    ensures Floored(Floored(e)) == Floored(e)
  {
  }

  class Rect {
    var left: real
    var top: real
    var right: real
    var bottom: real

    /** The current edges. */
    function Edges(): Ltrb
      reads this
    {
      Ltrb(left, top, right, bottom)
    }

    /** `Rect::make_ltrb` stores the four edges as given. */
    constructor MakeLtrb(l: real, t: real, r: real, b: real)
      ensures Edges() == Ltrb(l, t, r, b)
    {
      left, top, right, bottom := l, t, r, b;
    }

    /** `Rect::make_wh`: the rectangle [0, w) x [0, h). */
    constructor MakeWh(w: real, h: real)
      ensures Edges() == Ltrb(0.0, 0.0, w, h)
    {
      left, top, right, bottom := 0.0, 0.0, w, h;
    }

    /** The accessors return the current edges unchanged. */
    function Left(): (v: real)
      reads this
      ensures v == Edges().left
    {
      left
    }

    function Top(): (v: real)
      reads this
      ensures v == Edges().top
    {
      top
    }

    function Right(): (v: real)
      reads this
      ensures v == Edges().right
    {
      right
    }

    function Bottom(): (v: real)
      reads this
      ensures v == Edges().bottom
    {
      bottom
    }

    /** The origin of the rectangle is its top-left corner. */
    function X(): (v: real)
      reads this
      ensures v == Edges().left
    {
      Left()
    }

    function Y(): (v: real)
      reads this
      ensures v == Edges().top
    {
      Top()
    }

    /** `Rect::empty`: true exactly when no point lies inside. */
    function Empty(): (b: bool)
      reads this
      ensures b <==> forall x, y :: !Inside(Edges(), x, y)
      ensures b <==> Left() >= Right() || Top() >= Bottom()
    {
      EmptyIffNoPoint(Edges());
      Left() >= Right() || Top() >= Bottom()
    }

    /** `Rect::round`: a new rectangle with every edge floored; this one is
        left as it was. */
    method Round() returns (r: Rect)
      ensures fresh(r) && r.Edges() == Floored(Edges())
    {
      r := new Rect.MakeLtrb(left.Floor as real, top.Floor as real, right.Floor as real, bottom.Floor as real);
    }

    /** `Rect::intersects`: true exactly when the two rectangles share a point.
        Neither rectangle is changed. */
    function Intersects(other: Rect): (b: bool)
      reads this, other
      ensures b <==> exists x, y :: Inside(Edges(), x, y) && Inside(other.Edges(), x, y)
    {
      var l := Max(left, other.left);
      var t := Max(top, other.top);
      var r := Min(right, other.right);
      var b := Min(bottom, other.bottom);
      MeetIsCommonPart(Edges(), other.Edges());
      l < r && t < b
    }

    /** `Rect::intersect`: clip this rectangle to `other` in place. It returns
        what `intersects` returns; on true the edges become the common part,
        which is not empty and lies in both; on false nothing changes. */
    method Intersect(other: Rect) returns (ok: bool)
      modifies this
      ensures ok == old(Intersects(other))
      ensures ok ==> Edges() == Meet(old(Edges()), old(other.Edges())) && !Empty()
      ensures !ok ==> Edges() == old(Edges())
      ensures forall x, y :: ok && Inside(Edges(), x, y) ==>
        Inside(old(Edges()), x, y) && Inside(old(other.Edges()), x, y)
    {
      ghost var before, clip := Edges(), other.Edges();
      var l := Max(left, other.left);
      var t := Max(top, other.top);
      var r := Min(right, other.right);
      var b := Min(bottom, other.bottom);
      MeetIsCommonPart(before, clip);
      if l < r && t < b {
        left, top, right, bottom := l, t, r, b;
        ok := true;
      } else {
        ok := false;
      }
    }
  }

  /** Intersecting again with the same rectangle succeeds and changes nothing:
      the meet already lies within it. */
  lemma IntersectIdempotent(e: Ltrb, f: Ltrb)
    requires !IsEmpty(Meet(e, f))
    ensures !IsEmpty(Meet(Meet(e, f), f)) && Meet(Meet(e, f), f) == Meet(e, f)
  {
  }

  /** `intersects` does not depend on which rectangle asks. */
  lemma IntersectsSymmetric(p: Rect, q: Rect)
    ensures p.Intersects(q) == q.Intersects(p)
  {
    MeetSymmetricIdempotent(p.Edges(), q.Edges());
  }
}
