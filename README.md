# hittest.js in Dafny

A model of the jQuery hit-testing plugin `hittest.js`. It has two layers:

- **`Rectangle`** is an axis-aligned box in device pixels with half-open semantics.
  A rectangle `(x, y, width, height)` covers the points `x <= px < x + width`,
  `y <= py < y + height`. Rectangles that only touch do not intersect. `intersection`
  returns the overlap box, or `null`.
- **The hit tests** are `hitTestPoint` (does an element cover a point?) and `objectHitTest`
  (do two elements overlap?). Each first checks the bounding rectangles. When
  transparency is requested for an `<img>` or `<canvas>` element, it then reads
  alpha bytes from the elements' canvases. The object test scans the two RGBA samples of the
  overlap four bytes at a time and stops at the first pixel that is non-transparent in both.

Files:

- `geometry.dfy`: module `Wrappers` (the `Option` that stands for JavaScript's `null`) and
  module `Geometry` (`Rectangle` and its algebra).
- `raster.dfy`: module `Raster`. It holds canvas bitmaps as RGBA bytes and models
  `getImageData` as the function `ImageData`. As the HTML canvas API defines a successful call, the
  result is the requested region, row by row, with pixels outside the bitmap read as
  transparent black.
- `hittest.dfy`: module `HitTest`, which holds the two entry points and the pixel scan.

The DOM becomes explicit inputs:

- an element's bounding rectangle (what `getRect` returns);
- its kind (`Img`, `Canvas` or `Other`, in place of the tag-name checks);
- the bitmap its canvas holds;
- whether the browser can create a canvas element;
- the options, as datatypes with the source's defaults (`x = 0`, `y = 0`,
  `transparency = false`).

Coordinates are integers (device pixels).

The entry points are methods with the source's control flow: early returns, the
reassigned `pointInRect`, and the stepping `while` loop with an early exit. Each is
proved against a statement of what it decides. `HitTestPoint` hits iff the point lies in
the rectangle and, on the transparency path, the element's canvas is non-transparent
at the point's offset from the rectangle's origin. `ObjectHitTest` hits iff the rectangles
intersect and, on the transparency path, some position lies in both rectangles and both
canvases are non-transparent there (each read at that position's offset from its own
rectangle's origin). The lemma `SampledOverlap` connects the byte buffers the scan walks
through with that statement about positions.

## Model

| member | source | states |
|---|---|---|
| `Geometry.Rectangle.ContainsPoint` | nginx-1.20.2/nginx-1.20.2/html/Project/hittest.js:205-208 | `x <= px < x+width` and `y <= py < y+height`; equivalently the 1x1 pixel box at the point lies inside the rectangle; a rectangle that contains any point is non-empty |
| `Geometry.Rectangle.IntersectsAsWritten` | nginx-1.20.2/nginx-1.20.2/html/Project/hittest.js:210-213 | the source's test term for term: `x < other.x+other.width`, `other.x < x+width`, and the same on y; rectangles whose edges touch on either axis fail it |
| `Geometry.Rectangle.Intersects` | nginx-1.20.2/nginx-1.20.2/html/Project/hittest.js:210-213 | corrected `intersects`: both rectangles non-empty and the source's test holds; false whenever either is empty, and when true the point (max of the x's, max of the y's) lies in both |
| `Geometry.ContainsPointHalfOpen` | nginx-1.20.2/nginx-1.20.2/html/Project/hittest.js:205-208 | the origin `(x, y)` is contained iff the rectangle is non-empty; the far corner `(x+width, y+height)` is never contained |
| `Geometry.EmptyRectangleIsInert` | nginx-1.20.2/nginx-1.20.2/html/Project/hittest.js:205-213 | a rectangle with width or height at most 0 contains no point and intersects no rectangle, in either operand order (for the corrected `intersects`) |
| `Geometry.IntersectsSymmetric` | nginx-1.20.2/nginx-1.20.2/html/Project/hittest.js:210-213 | `a.intersects(b)` iff `b.intersects(a)`, both for the test of line 212 as written and for the corrected test |
| `Geometry.IntersectsIffSharePoint` | nginx-1.20.2/nginx-1.20.2/html/Project/hittest.js:210-213 | rectangles intersect iff some integer point lies in both, so rectangles that only touch edges do not intersect (both directions) |
| `Geometry.IntersectsAgreesOnNonEmpty` | nginx-1.20.2/nginx-1.20.2/html/Project/hittest.js:210-213 | the corrected `intersects` gives the same answer as the source's on every pair of non-empty rectangles |
| `Geometry.IntersectsAsWrittenAcceptsEmpty` | nginx-1.20.2/nginx-1.20.2/html/Project/hittest.js:210-232 | the source's `intersects` accepts the zero-width `(1,0,0,2)` against `(0,0,2,2)`, and the zero-height strip `(0,100,500,0)` crossing `(200,50,100,100)` without lying inside it; in both cases the pair share no point and `intersection` returns null |
| `Geometry.Rectangle.Intersection` | nginx-1.20.2/nginx-1.20.2/html/Project/hittest.js:215-232 | the result is non-null exactly when the rectangles intersect; a non-null result has positive width and height and lies inside both operands |
| `Geometry.IntersectionIsCommonRegion` | nginx-1.20.2/nginx-1.20.2/html/Project/hittest.js:216-232 | a point lies in the intersection iff it lies in both operands |
| `Geometry.IntersectionIsGreatest` | nginx-1.20.2/nginx-1.20.2/html/Project/hittest.js:216-232 | every non-empty box inside both operands is inside their intersection, which is therefore non-null |
| `Geometry.IntersectionSymmetric` | nginx-1.20.2/nginx-1.20.2/html/Project/hittest.js:216-232 | `a.intersection(b)` equals `b.intersection(a)`, null included |
| `Geometry.IntersectionIdempotent` | nginx-1.20.2/nginx-1.20.2/html/Project/hittest.js:216-232 | a non-empty rectangle intersected with itself is itself |
| `Geometry.DocumentedExamples` | nginx-1.20.2/nginx-1.20.2/html/Project/hittest.js:205-228 | the documented cases: (0,0,2,2) contains (0,0) but not (2,2); it does not intersect (2,0,2,2) and does intersect (1,0,2,2), under line 212 as written and under the corrected test; (0,0,10,10) ∩ (5,5,10,10) = (5,5,5,5) |
| `Raster.ImageData` | nginx-1.20.2/nginx-1.20.2/html/Project/hittest.js:134-135 | a `sw` x `sh` sample holds `4*sw*sh` bytes, that is `sw*sh` pixels |
| `Raster.ImageDataAlpha` | nginx-1.20.2/nginx-1.20.2/html/Project/hittest.js:141-142 | the alpha byte at `4p+3` of a sample is the bitmap's alpha at column `p % sw`, row `p / sw` of the sampled region |
| `Raster.ImageDataFirstAlpha` | nginx-1.20.2/nginx-1.20.2/html/Project/hittest.js:72-76 | byte 3 of a sample is the alpha of the region's top-left pixel, whatever the sample's size |
| `HitTest.CanvasFor` | nginx-1.20.2/nginx-1.20.2/html/Project/hittest.js:159-183 | a `<canvas>` element always yields itself; an `<img>` yields a canvas holding its content iff the browser can create a canvas; any other element yields null; null exactly in those two cases |
| `HitTest.SupportsTransparency` | nginx-1.20.2/nginx-1.20.2/html/Project/hittest.js:66 | the gate `is("img")` or `is("canvas")` (also line 112): true exactly for the elements that get a canvas when the browser can create one |
| `HitTest.HitTestPoint` | nginx-1.20.2/nginx-1.20.2/html/Project/hittest.js:47-79 | false when the point is outside the rectangle; equal to the rectangle test when transparency is off, the element is not an img or canvas, or no canvas is available; otherwise hit iff the element's alpha at the point is non-zero |
| `HitTest.AtLeastOnePixel` | nginx-1.20.2/nginx-1.20.2/html/Project/hittest.js:132-133 | the sample size is at least 1, and equals the intersection's size whenever that is at least 1 |
| `HitTest.SampleInsideElement` | nginx-1.20.2/nginx-1.20.2/html/Project/hittest.js:132-135 | the region requested from each element, at the intersection's origin minus that element's origin, lies inside the element's own box |
| `HitTest.ScanForCommonOpaque` | nginx-1.20.2/nginx-1.20.2/html/Project/hittest.js:140-145 | returns true iff some pixel, at a byte offset that is a multiple of 4, has non-zero alpha in both buffers; on true it stopped at the first such pixel; false after a full scan that finds none |
| `HitTest.TransparentSampleNeverHits` | nginx-1.20.2/nginx-1.20.2/html/Project/hittest.js:140-145 | when either buffer is fully transparent there is no common opaque pixel, so the scan returns false |
| `HitTest.Samples` | nginx-1.20.2/nginx-1.20.2/html/Project/hittest.js:132-138 | the two `getImageData` samples, each at the intersection's offset from its element's origin, with the sizes forced to at least 1x1: equal lengths, a multiple of 4, clamped width times clamped height pixels |
| `HitTest.SampledPixelIsCommon` | nginx-1.20.2/nginx-1.20.2/html/Project/hittest.js:134-143 | a pixel non-transparent in both samples is a position that lies in both rectangles where both elements are non-transparent (`Opaque`) |
| `HitTest.CommonPixelIsSampled` | nginx-1.20.2/nginx-1.20.2/html/Project/hittest.js:134-143 | a position in both rectangles where both elements are non-transparent (`Opaque`) shows up as a common non-transparent pixel of the samples |
| `HitTest.SampledOverlap` | nginx-1.20.2/nginx-1.20.2/html/Project/hittest.js:130-145 | the samples share a non-transparent pixel iff some position lies in both rectangles and both elements are non-transparent there (`OpaqueOverlap`) |
| `HitTest.ObjectHitTest` | nginx-1.20.2/nginx-1.20.2/html/Project/hittest.js:91-150 | false without a target; false when the rectangles do not intersect; the rectangle result when transparency is off or `this` is not an img or canvas (only `this` is checked); when either canvas is unavailable, the rectangle result; otherwise hit iff some position lies in both rectangles and both elements are non-transparent there (`OpaqueOverlap`) |

## Left out

- `getRect` (jQuery `offset`, `outerWidth`, `outerHeight`): a layout query. The rectangle is an input.
- `getCanvasFromElement` creating a canvas and calling `drawImage`: only its null decision is modelled (`CanvasFor`). What the canvas holds is an input bitmap.
- `getContext('2d')`: assumed to succeed once a canvas exists.
- Exceptions are not modelled; both entry points always return a boolean. Among the cases where the source throws: `drawImage` (line 178, reached from lines 68, 114 and 115) throws an InvalidStateError for a broken `<img>` whose image failed to load; the model gives every image a bitmap and answers from its pixels. A `<canvas>` element in a browser that cannot create canvases is returned as its own canvas (lines 163-164), and the call to `getContext` at line 74 or 120 then throws; the model reads its bitmap. `getImageData` (lines 75 and 134-135) throws a SecurityError on a canvas tainted by a cross-origin image; the model assumes it never throws. `getRect` returns null for an empty jQuery set (lines 29-30), and lines 58 and 102-103 then throw a TypeError; the model always has a rectangle. Reading `options.object` (line 93) throws when `options` is undefined; the model always has an options value.
- `$.extend` option merging: replaced by datatypes whose constructor parameters carry the same defaults.
- `toString` and the `console.log` message: no behaviour. The defensive branch for a null intersection still answers true.
- Fractional coordinates and high-density screens: coordinates are integers. The 2x2 sample a high-density screen may return is not modelled. `AtLeastOnePixel` is kept. The size of a non-null intersection of integer rectangles is at least 1, so there it changes nothing.
- Out-of-range reads: JavaScript yields `undefined`, and `undefined != 0` is true. The scan requires two buffers of equal length, a multiple of 4, which `getImageData` guarantees because both samples are requested with the same size.
- Canvas placement: `Opaque` reads the canvas at the offset from the `getRect` origin, which is the corner of jQuery's border box, exactly as the source does. That is the pixel shown on screen only for an unscaled canvas with no border or padding; CSS scaling, borders and padding are not modelled.
- HitTest.HitTestPoint: does not state as a contract that no pixel is read when the point is outside the rectangle; the method's early return before any `ImageData` call shows it structurally.
- HitTest.ObjectHitTest: uses the corrected `intersects` (see Findings). Take an empty rectangle (zero or negative width or height) that passes the strict edge test of line 212, for instance a zero-height strip crossing the other rectangle. The source answers true there, possibly after logging its "program error"; the model answers false.

## Findings

| source | as written | input that shows it | evidently intended | confidence | as-written member | corrected member |
|---|---|---|---|---|---|---|
| nginx-1.20.2/nginx-1.20.2/html/Project/hittest.js:210-213 | `intersects` compares edges only and never checks that the rectangles have positive size | `(1,0,0,2).intersects((0,0,2,2))` is true, yet the two share no point and `intersection` returns null for them, which makes `objectHitTest` reach its "program error" branch (lines 125-128) | a rectangle with zero width or height intersects nothing, and `intersects` is true exactly when `intersection` is non-null | high; not executed | `Geometry.IntersectsAsWrittenAcceptsEmpty` | `Geometry.IntersectsIffSharePoint` |
