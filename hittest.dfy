/**
  * The hit-test entry points of hittest.js, `hitTestPoint` and `objectHitTest`.
  * The DOM is replaced by explicit inputs: an element's bounding rectangle, its
  * kind (`<img>`, `<canvas>` or anything else) and the bitmap its canvas holds;
  * whether the browser can create a canvas; and the options with their defaults.
  */
module HitTest {
  import opened Wrappers
  import opened Geometry
  import opened Raster

  /** The tag name of an element, as far as hit testing cares about it. */
  datatype ElementKind = Img | Canvas | Other

  /**
    * An element as seen by the hit tests: the rectangle `getRect` returns, its kind,
    * and what its canvas holds (the canvas itself, or the one an image is drawn into),
    * placed with its top-left pixel at the rectangle's origin.
    */
  datatype Element = Element(rect: Rectangle, kind: ElementKind, content: Bitmap)

  /** The options of `hitTestPoint`, with the defaults the source merges in. */
  datatype PointOptions = PointOptions(x: int := 0, y: int := 0, transparency: bool := false)

  /** The options of `objectHitTest`; `target` is the source's `object` option, which may be null. */
  datatype ObjectOptions = ObjectOptions(target: Option<Element>, transparency: bool := false)

  /**
    * The transparency test is attempted only for `<img>` and `<canvas>` elements: exactly
    * the elements `getCanvasFromElement` gives a canvas when the browser can create one.
    */
  predicate SupportsTransparency(e: Element)
    ensures SupportsTransparency(e) <==> CanvasFor(e, true).Some?
  {
    e.kind == Img || e.kind == Canvas
  }

  /**
    * `getCanvasFromElement`: a canvas element is its own canvas; an image gets a new
    * canvas when the browser can create one; any other element has none (the source's `null`).
    */
  function CanvasFor(e: Element, canvasSupported: bool): (c: Option<Bitmap>)
    ensures c.Some? ==> e.kind != Other && c.value == e.content
    ensures c.None? <==> e.kind == Other || (e.kind == Img && !canvasSupported)
    ensures e.kind == Canvas ==> c == Some(e.content)
  {
    match e.kind
    case Canvas => Some(e.content)
    case Img => if canvasSupported then Some(e.content) else None
    case Other => None
  }

  /**
    * Element `e` is non-transparent at page position (px, py): its canvas holds a non-zero
    * alpha at (px, py) minus the origin of `e.rect`, the pixel the source reads for that position.
    */
  predicate Opaque(e: Element, px: int, py: int)
    requires e.content.Valid()
  {
    e.content.AlphaAt(px - e.rect.x, py - e.rect.y) != 0
  }

  /** Some position lies in both elements' rectangles and both are non-transparent there. */
  ghost predicate OpaqueOverlap(a: Element, b: Element)
    requires a.content.Valid() && b.content.Valid()
  {
    exists px, py :: a.rect.ContainsPoint(px, py) && b.rect.ContainsPoint(px, py) &&
                     Opaque(a, px, py) && Opaque(b, px, py)
  }

  /** Pixel `p` is non-transparent in both RGBA buffers. */
  predicate BothOpaque(objPix: seq<Byte>, testPix: seq<Byte>, p: int)
    requires 0 <= p < PixelCount(objPix) <= PixelCount(testPix)
  {
    Alpha(objPix, p) != 0 && Alpha(testPix, p) != 0
  }

  /** Some pixel position is non-transparent in both buffers. */
  ghost predicate CommonOpaque(objPix: seq<Byte>, testPix: seq<Byte>)
    requires PixelCount(objPix) <= PixelCount(testPix)
  {
    exists p :: 0 <= p < PixelCount(objPix) && BothOpaque(objPix, testPix, p)
  }

  /** The sample size of `objectHitTest`: the intersection's extent, forced to at least one pixel. */
  function AtLeastOnePixel(n: int): (r: int)
    ensures r >= 1
    ensures n >= 1 ==> r == n
    ensures n < 1 ==> r == 1
  {
    if n > 1 then n else 1
  }

  // ---------------------------------------------------------------------------
  // hitTestPoint

  /**
    * `hitTestPoint`: the point must lie in the element's rectangle; when transparency
    * is asked for and the element is an image or canvas whose canvas can be had, the
    * pixel under the point must also be non-transparent. The pixel is sampled only
    * after the rectangle test has passed.
    */
  method HitTestPoint(self: Element, options: PointOptions, canvasSupported: bool) returns (hit: bool)
    requires self.content.Valid()
    ensures !self.rect.ContainsPoint(options.x, options.y) ==> !hit
    ensures !options.transparency || !SupportsTransparency(self) || (!canvasSupported && self.kind == Img) ==>
              hit == self.rect.ContainsPoint(options.x, options.y)
    ensures hit <==> (self.rect.ContainsPoint(options.x, options.y) &&
                      (options.transparency && SupportsTransparency(self) && CanvasFor(self, canvasSupported).Some? ==>
                         Opaque(self, options.x, options.y)))
  {
    var objectRect := self.rect;
    var pointInRect := objectRect.ContainsPoint(options.x, options.y);
    if !pointInRect {
      return false;
    }
    if options.transparency && (self.kind == Img || self.kind == Canvas) {
      var canvas := CanvasFor(self, canvasSupported);
      if canvas.None? {
        return true;
      }
      var imageData := ImageData(canvas.value, options.x - objectRect.x, options.y - objectRect.y, 1, 1);
      ImageDataFirstAlpha(canvas.value, options.x - objectRect.x, options.y - objectRect.y, 1, 1);
      pointInRect := imageData[3] != 0;
    }
    return pointInRect;
  }

  // ---------------------------------------------------------------------------
  // objectHitTest

  /**
    * The pixel scan of `objectHitTest`: step through the two buffers four bytes at a
    * time and stop at the first pixel whose alpha is non-zero in both. The ghost
    * `at` is that pixel's byte offset.
    */
  method ScanForCommonOpaque(objPix: seq<Byte>, testPix: seq<Byte>) returns (hit: bool, ghost at: int)
    requires |objPix| % 4 == 0 && |testPix| == |objPix|
    ensures hit <==> CommonOpaque(objPix, testPix)
    ensures hit ==> 0 <= at < |objPix| && at % 4 == 0 && objPix[at + 3] != 0 && testPix[at + 3] != 0
    ensures hit ==> forall p :: 0 <= p < at / 4 ==> !BothOpaque(objPix, testPix, p)
  {
    var i := 0;
    while i < |objPix|
      invariant 0 <= i <= |objPix| && i % 4 == 0
      invariant forall p :: 0 <= p < i / 4 ==> !BothOpaque(objPix, testPix, p)
    {
      if objPix[i + 3] != 0 && testPix[i + 3] != 0 {
        assert BothOpaque(objPix, testPix, i / 4);
        return true, i;
      }
      assert !BothOpaque(objPix, testPix, i / 4);
      i := i + 4;
    }
    return false, i;
  }

  /**
    * `objectHitTest`: no target means no hit; the bounding rectangles must intersect;
    * when transparency is asked for, `self` is an image or canvas, and both elements
    * have a canvas, some pixel of the overlap must also be non-transparent in both.
    */
  method ObjectHitTest(self: Element, options: ObjectOptions, canvasSupported: bool) returns (hit: bool)
    requires self.content.Valid()
    requires options.target.Some? ==> options.target.value.content.Valid()
    ensures options.target.None? ==> !hit
    ensures options.target.Some? && !self.rect.Intersects(options.target.value.rect) ==> !hit
    ensures options.target.Some? && (!options.transparency || !SupportsTransparency(self)) ==>
              hit == self.rect.Intersects(options.target.value.rect)
    ensures options.target.Some? ==>
              (hit <==> self.rect.Intersects(options.target.value.rect) &&
                        (options.transparency && SupportsTransparency(self) &&
                         CanvasFor(self, canvasSupported).Some? &&
                         CanvasFor(options.target.value, canvasSupported).Some? ==>
                           OpaqueOverlap(self, options.target.value)))
  {
    if options.target.None? {
      return false;
    }
    var other := options.target.value;
    var objectRect := self.rect;
    var objectToTestRect := other.rect;
    var rectsIntersect := objectRect.Intersects(objectToTestRect);
    if !rectsIntersect {
      return false;
    }
    hit := rectsIntersect;
    if options.transparency && (self.kind == Img || self.kind == Canvas) {
      var objectCanvas := CanvasFor(self, canvasSupported);
      var objectToTestCanvas := CanvasFor(other, canvasSupported);
      if objectCanvas.Some? && objectToTestCanvas.Some? {
        var intersectionRect := objectRect.Intersection(objectToTestRect);
        match intersectionRect
        case None =>
          // defensive: the source answers from the rectangles alone
          hit := true;
        case Some(inter) =>
          // both canvases hold their element's content, so these are the two samples
          var samples := Samples(self, other, inter);
          ghost var at;
          hit, at := ScanForCommonOpaque(samples.0, samples.1);
          SampledOverlap(self, other, inter);
      }
    }
  }

  /**
    * The two `getImageData` calls of `objectHitTest`: the region of `inter`, taken from
    * each element at the offset of `inter` from that element's origin, its size forced
    * to at least one pixel each way.
    */
  function Samples(a: Element, b: Element, inter: Rectangle): (s: (seq<Byte>, seq<Byte>))
    requires a.content.Valid() && b.content.Valid()
    ensures |s.0| == |s.1| && |s.0| % 4 == 0
    ensures PixelCount(s.0) == AtLeastOnePixel(inter.width) * AtLeastOnePixel(inter.height)
  {
    var w, h := AtLeastOnePixel(inter.width), AtLeastOnePixel(inter.height);
    (ImageData(a.content, inter.x - a.rect.x, inter.y - a.rect.y, w, h),
     ImageData(b.content, inter.x - b.rect.x, inter.y - b.rect.y, w, h))
  }

  /**
    * The two samples `objectHitTest` takes over the intersection share an opaque
    * pixel exactly when the two elements are both non-transparent at some position inside both rectangles.
    */
  lemma SampledOverlap(a: Element, b: Element, inter: Rectangle)
    requires a.content.Valid() && b.content.Valid()
    requires a.rect.Intersection(b.rect) == Some(inter)
    ensures CommonOpaque(Samples(a, b, inter).0, Samples(a, b, inter).1) <==> OpaqueOverlap(a, b)
  {
    var s := Samples(a, b, inter);
    if CommonOpaque(s.0, s.1) {
      var p :| 0 <= p < PixelCount(s.0) && BothOpaque(s.0, s.1, p);
      SampledPixelIsCommon(a, b, inter, p);
    }
    if OpaqueOverlap(a, b) {
      var px, py :| a.rect.ContainsPoint(px, py) && b.rect.ContainsPoint(px, py) &&
                    Opaque(a, px, py) && Opaque(b, px, py);
      CommonPixelIsSampled(a, b, inter, px, py);
    }
  }

  /** Pixel `p` of the samples is the position at column p % w, row p / w of the intersection. */
  lemma SampledPixelIsCommon(a: Element, b: Element, inter: Rectangle, p: int)
    requires a.content.Valid() && b.content.Valid()
    requires a.rect.Intersection(b.rect) == Some(inter)
    requires 0 <= p < inter.width * inter.height
    ensures BothOpaque(Samples(a, b, inter).0, Samples(a, b, inter).1, p) ==> OpaqueOverlap(a, b)
  {
    var w, h := inter.width, inter.height;
    GridCellOfIndex(p, w, h);
    var px, py := inter.x + p % w, inter.y + p / w;
    ImageDataAlpha(a.content, inter.x - a.rect.x, inter.y - a.rect.y, w, h, p);
    ImageDataAlpha(b.content, inter.x - b.rect.x, inter.y - b.rect.y, w, h, p);
    IntersectionIsCommonRegion(a.rect, b.rect, px, py);
    if BothOpaque(Samples(a, b, inter).0, Samples(a, b, inter).1, p) {
      assert a.rect.ContainsPoint(px, py) && b.rect.ContainsPoint(px, py) &&
             Opaque(a, px, py) && Opaque(b, px, py);
    }
  }

  /** A position inside both rectangles where both elements are non-transparent is sampled, at index row * w + col. */
  lemma CommonPixelIsSampled(a: Element, b: Element, inter: Rectangle, px: int, py: int)
    requires a.content.Valid() && b.content.Valid()
    requires a.rect.Intersection(b.rect) == Some(inter)
    requires a.rect.ContainsPoint(px, py) && b.rect.ContainsPoint(px, py)
    ensures Opaque(a, px, py) && Opaque(b, px, py) ==> CommonOpaque(Samples(a, b, inter).0, Samples(a, b, inter).1)
  {
    var w, h := inter.width, inter.height;
    IntersectionIsCommonRegion(a.rect, b.rect, px, py);
    var col, row := px - inter.x, py - inter.y;
    GridIndexInRange(col, row, w, h);
    GridIndexRoundTrip(col, row, w, h);
    var p := row * w + col;
    ImageDataAlpha(a.content, inter.x - a.rect.x, inter.y - a.rect.y, w, h, p);
    ImageDataAlpha(b.content, inter.x - b.rect.x, inter.y - b.rect.y, w, h, p);
    assert Opaque(a, px, py) && Opaque(b, px, py) ==> BothOpaque(Samples(a, b, inter).0, Samples(a, b, inter).1, p);
  }

  /** The region `objectHitTest` samples from an element lies inside that element's own box. */
  lemma SampleInsideElement(a: Rectangle, b: Rectangle)
    requires a.Intersection(b).Some?
    ensures var inter := a.Intersection(b).value;
            0 <= inter.x - a.x && inter.x - a.x + AtLeastOnePixel(inter.width) <= a.width &&
            0 <= inter.y - a.y && inter.y - a.y + AtLeastOnePixel(inter.height) <= a.height
  {
  }

  /** A buffer with no opaque pixel can share none with another. */
  lemma TransparentSampleNeverHits(objPix: seq<Byte>, testPix: seq<Byte>)
    requires PixelCount(objPix) <= PixelCount(testPix)
    requires (forall p :: 0 <= p < PixelCount(objPix) ==> Alpha(objPix, p) == 0) ||
             (forall p :: 0 <= p < PixelCount(objPix) ==> Alpha(testPix, p) == 0)
    ensures !CommonOpaque(objPix, testPix)
  {
  }
}
