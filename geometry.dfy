/** The Option datatype that stands for the `null` a JavaScript function may return. */
module Wrappers {
  datatype Option<+T> = None | Some(value: T)
}

/**
  * The `Rectangle` value type of hittest.js: an axis-aligned box in device pixels
  * with half-open semantics. A rectangle (x, y, width, height) covers the points
  * (px, py) with x <= px < x + width and y <= py < y + height, so its right and
  * bottom edges are not part of it and two rectangles that only touch do not meet.
  */
module Geometry {
  import opened Wrappers

  /** Any integers are accepted; a rectangle whose width or height is not positive is empty. */
  datatype Rectangle = Rectangle(x: int, y: int, width: int, height: int)
  {
    /**
      * `rectContainsPoint`: the point lies in [x, x + width) x [y, y + height); that is,
      * the one-pixel box whose top-left corner is the point lies inside the rectangle.
      */
    predicate ContainsPoint(px: int, py: int)
      ensures ContainsPoint(px, py) <==> Within(Rectangle(px, py, 1, 1), this)
      ensures ContainsPoint(px, py) ==> !IsEmpty()
    {
      x <= px < x + width && y <= py < y + height
    }

    /**
      * `intersects` as hittest.js writes it: strict overlap on both axes, so touching
      * edges are not an overlap. It does not look at the sizes of the rectangles, so an
      * empty rectangle (zero or negative width or height) can pass it: a zero-width box
      * inside the other, or a zero-height strip crossing it (see IntersectsAsWrittenAcceptsEmpty).
      */
    predicate IntersectsAsWritten(other: Rectangle)
      ensures x + width == other.x || other.x + other.width == x ==> !IntersectsAsWritten(other)
      ensures y + height == other.y || other.y + other.height == y ==> !IntersectsAsWritten(other)
    {
      x < other.x + other.width && other.x < x + width &&
      y < other.y + other.height && other.y < y + height
    }

    /**
      * `intersects` as intended: both rectangles are non-empty and overlap strictly.
      * On non-empty rectangles it agrees with IntersectsAsWritten.
      */
    predicate Intersects(other: Rectangle)
      ensures IsEmpty() || other.IsEmpty() ==> !Intersects(other)
      ensures Intersects(other) ==>
                ContainsPoint(Max(x, other.x), Max(y, other.y)) &&
                other.ContainsPoint(Max(x, other.x), Max(y, other.y))
    {
      !IsEmpty() && !other.IsEmpty() && IntersectsAsWritten(other)
    }

    /**
      * `intersection`: the overlap of the two rectangles, or None (the source's `null`)
      * when the overlap is empty on either axis.
      */
    function Intersection(other: Rectangle): (r: Option<Rectangle>)
      ensures r.Some? <==> Intersects(other)
      ensures r.Some? ==> r.value.width > 0 && r.value.height > 0
      ensures r.Some? ==> Within(r.value, this) && Within(r.value, other)
    {
      var largerLeft := Max(x, other.x);
      var smallerRight := Min(x + width, other.x + other.width);
      if largerLeft < smallerRight then
        var lowerTop := Max(y, other.y);
        var higherBottom := Min(y + height, other.y + other.height);
        if lowerTop < higherBottom then
          Some(Rectangle(largerLeft, lowerTop, smallerRight - largerLeft, higherBottom - lowerTop))
        else
          None
      else
        None
    }

    /** The rectangle has no points at all. */
    predicate IsEmpty()
    {
      width <= 0 || height <= 0
    }
  }

  function Max(a: int, b: int): int { if a < b then b else a }
  function Min(a: int, b: int): int { if a < b then a else b }

  /** Box containment: the extent of `inner` lies inside the extent of `outer`. */
  predicate Within(inner: Rectangle, outer: Rectangle)
  {
    outer.x <= inner.x && inner.x + inner.width <= outer.x + outer.width &&
    outer.y <= inner.y && inner.y + inner.height <= outer.y + outer.height
  }

  /** The two rectangles have a point in common. */
  ghost predicate SharePoint(a: Rectangle, b: Rectangle)
  {
    exists px, py :: a.ContainsPoint(px, py) && b.ContainsPoint(px, py)
  }

  // ---------------------------------------------------------------------------
  // rectContainsPoint

  /** The top-left corner is inside a non-empty rectangle, the far corner never is. */
  lemma ContainsPointHalfOpen(r: Rectangle)
    ensures r.ContainsPoint(r.x, r.y) <==> !r.IsEmpty()
    ensures !r.ContainsPoint(r.x + r.width, r.y + r.height)
  {
  }

  /** An empty rectangle contains no point and intersects no rectangle, from either side. */
  lemma EmptyRectangleIsInert(r: Rectangle, s: Rectangle, px: int, py: int)
    requires r.IsEmpty()
    ensures !r.ContainsPoint(px, py)
    ensures !r.Intersects(s) && !s.Intersects(r)
  {
  }

  // ---------------------------------------------------------------------------
  // intersects

  /** `intersects` does not depend on the order of its operands, as written or corrected. */
  lemma IntersectsSymmetric(a: Rectangle, b: Rectangle)
    ensures a.IntersectsAsWritten(b) <==> b.IntersectsAsWritten(a)
    ensures a.Intersects(b) <==> b.Intersects(a)
  {
  }

  /**
    * `intersects` means exactly that the rectangles share a point: the strict
    * inequalities of the source are what excludes rectangles that only touch.
    */
  lemma IntersectsIffSharePoint(a: Rectangle, b: Rectangle)
    ensures a.Intersects(b) <==> SharePoint(a, b)
  {
    if a.Intersects(b) {
      var px, py := Max(a.x, b.x), Max(a.y, b.y);
      assert a.ContainsPoint(px, py) && b.ContainsPoint(px, py);
    }
  }

  // ---------------------------------------------------------------------------
  // intersection

  /** The intersection covers exactly the points the two rectangles have in common. */
  lemma IntersectionIsCommonRegion(a: Rectangle, b: Rectangle, px: int, py: int)
    requires a.Intersection(b).Some?
    ensures a.Intersection(b).value.ContainsPoint(px, py) <==>
            a.ContainsPoint(px, py) && b.ContainsPoint(px, py)
  {
  }

  /** The intersection is the largest box inside both operands. */
  lemma IntersectionIsGreatest(a: Rectangle, b: Rectangle, c: Rectangle)
    requires !c.IsEmpty() && Within(c, a) && Within(c, b)
    ensures a.Intersection(b).Some?
    ensures Within(c, a.Intersection(b).value)
  {
    assert a.ContainsPoint(c.x, c.y) && b.ContainsPoint(c.x, c.y);
    IntersectsIffSharePoint(a, b);
  }

  /** `intersection` does not depend on the order of its operands. */
  lemma IntersectionSymmetric(a: Rectangle, b: Rectangle)
    ensures a.Intersection(b) == b.Intersection(a)
  {
  }

  /** A non-empty rectangle intersected with itself is itself. */
  lemma IntersectionIdempotent(a: Rectangle)
    requires !a.IsEmpty()
    ensures a.Intersection(a) == Some(a)
  {
  }

  /**
    * The source's test lets empty rectangles "intersect" another: a zero-width box inside
    * it, and a zero-height strip crossing it and reaching past it on both sides. In each
    * case the two share no point and `intersection` returns null for them.
    */
  lemma IntersectsAsWrittenAcceptsEmpty()
    ensures Rectangle(1, 0, 0, 2).IsEmpty()
    ensures Rectangle(1, 0, 0, 2).IntersectsAsWritten(Rectangle(0, 0, 2, 2))
    ensures !SharePoint(Rectangle(1, 0, 0, 2), Rectangle(0, 0, 2, 2))
    ensures Rectangle(1, 0, 0, 2).Intersection(Rectangle(0, 0, 2, 2)) == None
    ensures Rectangle(0, 100, 500, 0).IsEmpty()
    ensures !Within(Rectangle(0, 100, 500, 0), Rectangle(200, 50, 100, 100))
    ensures Rectangle(0, 100, 500, 0).IntersectsAsWritten(Rectangle(200, 50, 100, 100))
    ensures !SharePoint(Rectangle(0, 100, 500, 0), Rectangle(200, 50, 100, 100))
    ensures Rectangle(0, 100, 500, 0).Intersection(Rectangle(200, 50, 100, 100)) == None
  {
  }

  /** The correction only changes the answer for empty rectangles. */
  lemma IntersectsAgreesOnNonEmpty(a: Rectangle, b: Rectangle)
    requires !a.IsEmpty() && !b.IsEmpty()
    ensures a.Intersects(b) <==> a.IntersectsAsWritten(b)
  {
  }

  /** The cases the comments of the source spell out, for the test as written and as corrected. */
  lemma DocumentedExamples()
    ensures Rectangle(0, 0, 2, 2).ContainsPoint(0, 0)
    ensures !Rectangle(0, 0, 2, 2).ContainsPoint(2, 2)
    ensures !Rectangle(0, 0, 2, 2).IntersectsAsWritten(Rectangle(2, 0, 2, 2))
    ensures Rectangle(0, 0, 2, 2).IntersectsAsWritten(Rectangle(1, 0, 2, 2))
    ensures !Rectangle(0, 0, 2, 2).Intersects(Rectangle(2, 0, 2, 2))
    ensures Rectangle(0, 0, 2, 2).Intersects(Rectangle(1, 0, 2, 2))
    ensures Rectangle(0, 0, 2, 2).Intersection(Rectangle(2, 0, 2, 2)) == None
    ensures Rectangle(0, 0, 10, 10).Intersection(Rectangle(5, 5, 10, 10)) == Some(Rectangle(5, 5, 5, 5))
  {
  }
}
