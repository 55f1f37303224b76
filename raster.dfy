/**
  * Pixel data as a 2D canvas context exposes it: RGBA bytes, four per pixel, rows
  * stored one after another from the top. hittest.js reads only the alpha byte of
  * each pixel, at offset 3 within its group of four.
  */
module Raster {

  /** One channel value of a pixel, as held by the canvas `ImageData.data` array. */
  newtype Byte = b: int | 0 <= b < 256

  /**
    * The bitmap of a canvas: `width` x `height` pixels, RGBA, row-major.
    * For an `<img>` it is the canvas the image has been drawn into.
    */
  datatype Bitmap = Bitmap(width: nat, height: nat, data: seq<Byte>)
  {
    predicate Valid()
    {
      |data| == 4 * width * height
    }

    /**
      * Channel `c` of the pixel at (px, py), counted from the bitmap's top-left corner.
      * Pixels outside the bitmap read as transparent black, as `getImageData` returns them.
      */
    function Channel(px: int, py: int, c: int): Byte
      requires Valid() && 0 <= c < 4
    {
      if 0 <= px < width && 0 <= py < height then
        GridIndexInRange(px, py, width, height);
        data[4 * (py * width + px) + c]
      else
        0
    }

    /** The alpha channel of the pixel at (px, py). */
    function AlphaAt(px: int, py: int): Byte
      requires Valid()
    {
      Channel(px, py, 3)
    }
  }

  /** The number of whole pixels a buffer of RGBA bytes holds. */
  function PixelCount(buf: seq<Byte>): nat
  {
    |buf| / 4
  }

  /** The alpha byte of pixel `p` of an RGBA buffer: `buf[4 * p + 3]`. */
  function Alpha(buf: seq<Byte>, p: int): Byte
    requires 0 <= p < PixelCount(buf)
  {
    buf[4 * p + 3]
  }

  /**
    * `getImageData(sx, sy, sw, sh)` on a context whose canvas holds `bm`: the
    * `sw` x `sh` region whose top-left pixel is (sx, sy), as RGBA bytes, row-major.
    * A size of zero is refused by the canvas API, so both sizes are at least 1.
    */
  function ImageData(bm: Bitmap, sx: int, sy: int, sw: int, sh: int): (r: seq<Byte>)
    requires bm.Valid() && sw >= 1 && sh >= 1
    ensures |r| == 4 * (sw * sh) && PixelCount(r) == sw * sh
  {
    seq(4 * (sw * sh), i requires 0 <= i < 4 * (sw * sh) =>
      bm.Channel(sx + (i / 4) % sw, sy + (i / 4) / sw, i % 4))
  }

  /** Pixel `p` of an `sw`-wide region is the one in column p % sw of row p / sw. */
  lemma ImageDataAlpha(bm: Bitmap, sx: int, sy: int, sw: int, sh: int, p: int)
    requires bm.Valid() && sw >= 1 && sh >= 1
    requires 0 <= p < sw * sh
    ensures Alpha(ImageData(bm, sx, sy, sw, sh), p) == bm.AlphaAt(sx + p % sw, sy + p / sw)
  {
    var i := 4 * p + 3;
    assert i / 4 == p && i % 4 == 3;
  }

  /** The region's top-left pixel is the first pixel of the buffer (a 1 x 1 sample reads it at index 3). */
  lemma ImageDataFirstAlpha(bm: Bitmap, sx: int, sy: int, sw: int, sh: int)
    requires bm.Valid() && sw >= 1 && sh >= 1
    ensures ImageData(bm, sx, sy, sw, sh)[3] == bm.AlphaAt(sx, sy)
  {
    ImageDataAlpha(bm, sx, sy, sw, sh, 0);
  }

  // ---------------------------------------------------------------------------
  // Row-major grid arithmetic

  /** A cell (col, row) of a w x h grid has a row-major index below w * h. */
  lemma GridIndexInRange(col: int, row: int, w: int, h: int)
    requires 0 <= col < w && 0 <= row < h
    ensures 0 <= row * w + col < w * h
  {
    assert row * w <= (h - 1) * w by {
      MulMonotone(row, h - 1, w);
    }
  }

  /** Row-major indices and (column, row) pairs are in one-to-one correspondence. */
  lemma GridIndexRoundTrip(col: int, row: int, w: int, h: int)
    requires 0 <= col < w && 0 <= row < h
    ensures (row * w + col) / w == row && (row * w + col) % w == col
  {
    GridIndexInRange(col, row, w, h);
    DivModUnique(row * w + col, w, row, col);
  }

  /** Every index below w * h names a cell of the w x h grid. */
  lemma GridCellOfIndex(p: int, w: int, h: int)
    requires w >= 1 && 0 <= p < w * h
    ensures 0 <= p % w < w && 0 <= p / w < h
    ensures (p / w) * w + p % w == p
  {
  }

  lemma MulMonotone(a: int, b: int, w: int)
    requires a <= b && w >= 0
    ensures a * w <= b * w
  {
  }

  lemma DivModUnique(n: int, w: int, q: int, r: int)
    requires w >= 1 && 0 <= r < w && n == q * w + r
    ensures n / w == q && n % w == r
  {
    var q', r' := n / w, n % w;
    assert q' * w + r' == q * w + r;
    if q' < q {
      MulMonotone(q' + 1, q, w);
      assert false;
    } else if q' > q {
      MulMonotone(q + 1, q', w);
      assert false;
    }
  }
}
