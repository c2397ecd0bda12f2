/**
 * The circle-mosaic background: the canvas is covered by a grid of 8-pixel
 * cells; each cell samples one pixel of a crop of the video frame that has
 * the canvas's aspect ratio, and bright samples become translucent dots.
 * The video's pixel buffer is RGBA, four bytes per pixel, row by row.
 */
module Mosaic {
  import opened Options
  import Geometry

  newtype byte = x: int | 0 <= x < 256

  /** MOSAIC_SIZE: the grid step, in canvas pixels. */
  const CellSize: nat := 8
  /** Samples this bright or darker draw nothing. */
  const BrightnessFloor: real := 40.0

  /** The part of the video frame the canvas shows: origin (sx, sy), size sw by sh. */
  datatype Crop = Crop(sx: real, sy: real, sw: real, sh: real)

  /** One dot of the mosaic: a grid position of the canvas and its opacity. */
  datatype Dot = Dot(x: nat, y: nat, alpha: real)

  lemma MulLess(a: real, b: real, k: real)
    requires a < b && k > 0.0
    ensures a * k < b * k
  {
    assert b * k - a * k == (b - a) * k;
  }

  lemma MulAtMost(a: real, b: real, k: real)
    requires a <= b && k >= 0.0
    ensures a * k <= b * k
  {
    assert b * k - a * k == (b - a) * k;
  }

  lemma NarrowFits(aspectCanvas: real, aspectVideo: real, h: real, w: real)
    requires aspectCanvas <= aspectVideo && h > 0.0 && aspectVideo * h == w
    ensures h * aspectCanvas <= w
  {
    MulAtMost(aspectCanvas, aspectVideo, h);
  }

  /**
   * The wide-canvas branch of the crop: with the canvas's aspect ratio ac
   * above the video's av, the full-width window of height sh = w / ac fits
   * the frame's height and has the canvas's proportions.
   */
  lemma WideCropFits(w: real, h: real, width: real, height: real, ac: real, av: real, sh: real)
    requires h > 0.0 && height > 0.0 && ac > av && ac > 0.0
    requires ac * height == width && av * h == w && sh * ac == w
    ensures sh <= h && w * height == sh * width
  {
    if sh > h {
      MulLess(h, sh, ac);
      MulLess(av, ac, h);
    }
    assert sh * width == sh * (ac * height);
    assert sh * (ac * height) == (sh * ac) * height;
  }

  /**
   * The tall-canvas branch: with ac at most av, the full-height window of
   * width sw = h * ac fits the frame's width and has the canvas's proportions.
   */
  lemma TallCropFits(w: real, h: real, width: real, height: real, ac: real, av: real, sw: real)
    requires h > 0.0 && height > 0.0 && ac <= av
    requires ac * height == width && av * h == w && sw == h * ac
    ensures sw <= w && sw * height == h * width
  {
    NarrowFits(ac, av, h, w);
    assert sw * height == h * (ac * height);
  }

  /**
   * The crop window: the largest centred window of the video with the
   * canvas's aspect ratio. It lies inside the video frame, spans it fully in
   * one direction, is centred in the other, and has the canvas's aspect ratio.
   */
  function CropWindow(vw: nat, vh: nat, width: real, height: real): (c: Crop)
    requires vw > 0 && vh > 0 && width > 0.0 && height > 0.0
    ensures 0.0 <= c.sx && 0.0 <= c.sy && 0.0 < c.sw && 0.0 < c.sh
    ensures c.sx + c.sw <= vw as real && c.sy + c.sh <= vh as real
    ensures 2.0 * c.sx + c.sw == vw as real && 2.0 * c.sy + c.sh == vh as real
    ensures c.sw == vw as real || c.sh == vh as real
    ensures c.sw * height == c.sh * width
  {
    var w, h := vw as real, vh as real;
    var aspectCanvas := width / height;
    var aspectVideo := w / h;
    if aspectCanvas > aspectVideo then
      assert aspectCanvas > 0.0;
      var sh := w / aspectCanvas;
      WideCropFits(w, h, width, height, aspectCanvas, aspectVideo, sh);
      assert sh > 0.0;
      Crop(0.0, (h - sh) / 2.0, w, sh)
    else
      var sw := h * aspectCanvas;
      TallCropFits(w, h, width, height, aspectCanvas, aspectVideo, sw);
      assert sw > 0.0;
      Crop((w - sw) / 2.0, 0.0, sw, h)
  }

  /** A grid position left of the edge r is at most floor(r), so the loops over the grid end. */
  lemma BelowFloor(x: nat, r: real)
    requires (x as real) < r
    ensures x <= r.Floor
  {
  }

  lemma NextCell(x: nat)
    requires x % CellSize == 0
    ensures (x + CellSize) % CellSize == 0
  {
  }

  /** p5's constrain(v, lo, hi). */
  function Clamp(v: real, lo: real, hi: real): (r: real)
    requires lo <= hi
    ensures lo <= r <= hi
    ensures lo <= v <= hi ==> r == v
  {
    if v < lo then lo else if v > hi then hi else v
  }

  /**
   * The video pixel a cell samples: the cell's canvas position mapped into the
   * crop window, clamped to the frame and floored. Always a pixel of the frame.
   */
  function SamplePixel(vw: nat, vh: nat, c: Crop, width: real, height: real, x: nat, y: nat): (p: (nat, nat))
    requires vw > 0 && vh > 0 && width > 0.0 && height > 0.0
    ensures p.0 < vw && p.1 < vh
  {
    var vx := Clamp(Geometry.MapRange(x as real, width, c.sx, c.sw), 0.0, (vw - 1) as real).Floor;
    var vy := Clamp(Geometry.MapRange(y as real, height, c.sy, c.sh), 0.0, (vh - 1) as real).Floor;
    (vx, vy)
  }

  /**
   * (vYInt * vw + vXInt) * 4: where the pixel's red byte sits in the RGBA
   * buffer. Red, green and blue (and alpha) of that pixel are all inside a
   * buffer of 4 * vw * vh bytes.
   */
  function PixelIndex(vw: nat, vh: nat, col: nat, row: nat): (i: nat)
    requires col < vw && row < vh
    ensures i % 4 == 0
    ensures i + 3 < 4 * vw * vh
  {
    PixelInFrame(vw, vh, col, row);
    (row * vw + col) * 4
  }

  /** The pixel's offset row * vw + col is below vw * vh. */
  lemma PixelInFrame(vw: nat, vh: nat, col: nat, row: nat)
    requires col < vw && row < vh
    ensures (row * vw + col) * 4 % 4 == 0
    ensures (row * vw + col) * 4 + 3 < 4 * vw * vh
  {
    var n := row * vw + col;
    assert row * vw <= (vh - 1) * vw by { MulAtMost(row as real, (vh - 1) as real, vw as real); }
    assert (vh - 1) * vw == vh * vw - vw;
    assert n <= vh * vw - 1;
    assert 4 * vw * vh == 4 * (vh * vw);
  }

  /** map(bright, 40, 255, 5, 60): a dot's opacity for a bright sample. */
  function Alpha(bright: real): (a: real)
    requires BrightnessFloor < bright <= 255.0
    ensures 5.0 < a <= 60.0
  {
    var f := (bright - BrightnessFloor) / (255.0 - BrightnessFloor);
    assert 0.0 < f <= 1.0;
    5.0 + f * 55.0
  }

  /** The mean of a sampled pixel's red, green and blue bytes. */
  function Brightness(pix: seq<byte>, i: nat): (b: real)
    requires i + 2 < |pix|
    ensures 0.0 <= b <= 255.0
  {
    (pix[i] as int + pix[i + 1] as int + pix[i + 2] as int) as real / 3.0
  }

  /** The dot of the cell at canvas position (x, y), if its sample is bright enough. */
  function CellDot(pix: seq<byte>, vw: nat, vh: nat, c: Crop, width: real, height: real, x: nat, y: nat): (d: Option<Dot>)
    requires vw > 0 && vh > 0 && width > 0.0 && height > 0.0 && |pix| == 4 * vw * vh
    ensures d.Some? ==> d.value.x == x && d.value.y == y && 5.0 < d.value.alpha <= 60.0
  {
    var p := SamplePixel(vw, vh, c, width, height, x, y);
    var bright := Brightness(pix, PixelIndex(vw, vh, p.0, p.1));
    if bright > BrightnessFloor then Some(Dot(x, y, Alpha(bright))) else None
  }

  /** A dot that lies on the grid inside the canvas and has an opacity in (5, 60]. */
  predicate WellPlaced(d: Dot, width: real, height: real)
  {
    d.x % CellSize == 0 && d.y % CellSize == 0 && (d.x as real) < width && (d.y as real) < height &&
    5.0 < d.alpha <= 60.0
  }

  /** The dots of row y, from the cell at x to the right edge. */
  function RowDots(pix: seq<byte>, vw: nat, vh: nat, c: Crop, width: real, height: real, y: nat, x: nat): (r: seq<Dot>)
    requires vw > 0 && vh > 0 && width > 0.0 && height > 0.0 && |pix| == 4 * vw * vh
    requires x % CellSize == 0 && y % CellSize == 0 && (y as real) < height
    ensures forall k :: 0 <= k < |r| ==> WellPlaced(r[k], width, height) && r[k].y == y && r[k].x >= x
    decreases width.Floor + 1 - x
  {
    if x as real >= width then []
    else
      var d := CellDot(pix, vw, vh, c, width, height, x, y);
      NextCell(x);
      BelowFloor(x, width);
      (if d.Some? then [d.value] else []) + RowDots(pix, vw, vh, c, width, height, y, x + CellSize)
  }

  /** One cell of a row: its dot, if any, comes before the dots of the cells to its right. */
  lemma RowDotsStep(pix: seq<byte>, vw: nat, vh: nat, c: Crop, width: real, height: real, y: nat, x: nat, d: Option<Dot>)
    requires vw > 0 && vh > 0 && width > 0.0 && height > 0.0 && |pix| == 4 * vw * vh
    requires x % CellSize == 0 && y % CellSize == 0 && (y as real) < height && (x as real) < width
    requires d == CellDot(pix, vw, vh, c, width, height, x, y)
    ensures (x + CellSize) % CellSize == 0
    ensures RowDots(pix, vw, vh, c, width, height, y, x) ==
      (if d.Some? then [d.value] else []) + RowDots(pix, vw, vh, c, width, height, y, x + CellSize)
  {
    NextCell(x);
  }

  /** The dots of the rows from y to the bottom edge, row by row. */
  function GridDots(pix: seq<byte>, vw: nat, vh: nat, c: Crop, width: real, height: real, y: nat): (r: seq<Dot>)
    requires vw > 0 && vh > 0 && width > 0.0 && height > 0.0 && |pix| == 4 * vw * vh
    requires y % CellSize == 0
    ensures forall k :: 0 <= k < |r| ==> WellPlaced(r[k], width, height) && r[k].y >= y
    decreases height.Floor + 1 - y
  {
    if y as real >= height then []
    else
      NextCell(y);
      BelowFloor(y, height);
      RowDots(pix, vw, vh, c, width, height, y, 0) + GridDots(pix, vw, vh, c, width, height, y + CellSize)
  }

  /**
   * drawCircleMosaic, without the drawing: the dots it draws, in drawing
   * order. A video without size draws nothing; otherwise the dots are those
   * of the grid, each on a cell inside the canvas with an opacity in (5, 60].
   * The pixel reads are within the buffer's bounds.
   */
  method DrawCircleMosaic(pixels: array<byte>, vw: nat, vh: nat, width: real, height: real) returns (dots: seq<Dot>)
    requires pixels.Length == 4 * vw * vh
    ensures vw == 0 || vh == 0 || width <= 0.0 || height <= 0.0 ==> dots == []
    ensures vw > 0 && vh > 0 && width > 0.0 && height > 0.0 ==>
      dots == GridDots(pixels[..], vw, vh, CropWindow(vw, vh, width, height), width, height, 0)
    ensures forall k :: 0 <= k < |dots| ==> WellPlaced(dots[k], width, height)
  {
    dots := [];
    if vw == 0 || vh == 0 {
      return;
    }
    if width > 0.0 && height > 0.0 {
      // Otherwise the aspect ratio is undefined and the loops below take no step.
      var crop := CropWindow(vw, vh, width, height);
      ghost var all := GridDots(pixels[..], vw, vh, crop, width, height, 0);
      var y: nat := 0;
      while y as real < height
        invariant y % CellSize == 0
        invariant all == dots + GridDots(pixels[..], vw, vh, crop, width, height, y)
        decreases height.Floor + 1 - y
      {
        var row := DrawRow(pixels, vw, vh, crop, width, height, y);
        dots := dots + row;
        NextCell(y);
        y := y + CellSize;
      }
    }
  }

  /** The inner loop of drawCircleMosaic: the dots of one row of cells, left to right. */
  method DrawRow(pixels: array<byte>, vw: nat, vh: nat, crop: Crop, width: real, height: real, y: nat)
    returns (row: seq<Dot>)
    requires vw > 0 && vh > 0 && width > 0.0 && height > 0.0 && pixels.Length == 4 * vw * vh
    requires y % CellSize == 0 && (y as real) < height
    ensures row == RowDots(pixels[..], vw, vh, crop, width, height, y, 0)
  {
    row := [];
    ghost var pix := pixels[..];
    ghost var all := RowDots(pix, vw, vh, crop, width, height, y, 0);
    var x: nat := 0;
    while x as real < width
      invariant x % CellSize == 0
      invariant all == row + RowDots(pix, vw, vh, crop, width, height, y, x)
      decreases width.Floor + 1 - x
    {
      var d := SampleCell(pixels, vw, vh, crop, width, height, x, y);
      RowDotsStep(pix, vw, vh, crop, width, height, y, x, d);
      ghost var rest := RowDots(pix, vw, vh, crop, width, height, y, x + CellSize);
      if d.Some? {
        row := row + [d.value];
      }
      assert all == row + rest;
      BelowFloor(x, width);
      x := x + CellSize;
    }
  }

  /** The body of the inner loop: one cell's sample, and its dot if bright enough. */
  method SampleCell(pixels: array<byte>, vw: nat, vh: nat, crop: Crop, width: real, height: real, x: nat, y: nat)
    returns (d: Option<Dot>)
    requires vw > 0 && vh > 0 && width > 0.0 && height > 0.0 && pixels.Length == 4 * vw * vh
    ensures d == CellDot(pixels[..], vw, vh, crop, width, height, x, y)
  {
    var p := SamplePixel(vw, vh, crop, width, height, x, y);
    var i := PixelIndex(vw, vh, p.0, p.1);
    var bright := (pixels[i] as int + pixels[i + 1] as int + pixels[i + 2] as int) as real / 3.0;
    assert bright == Brightness(pixels[..], i);
    d := if bright > BrightnessFloor then Some(Dot(x, y, Alpha(bright))) else None;
  }
}
