/**
 * capture.js: measure the page, take a snapshot of the viewport and crop the
 * overlays off it. Decoding the snapshot and drawing it on a canvas are
 * done by the browser; here a snapshot carries the outcome of its decoding
 * and a cropped chunk records which band of which snapshot it holds.
 */
module Capture {
  import opened Results
  import opened Metrics

  /** The pixel size of a decoded image. */
  datatype Size = Size(width: nat, height: nat)

  /** The PNG data URL returned by `captureVisibleTab`, with its size when it decodes. */
  datatype Snapshot = Snapshot(dataUrl: string, decoded: Option<Size>)

  /**
   * The image a chunk holds: the untouched capture, or the `width` x `height`
   * band of `source` whose first row is row `top`, as re-encoded by the canvas.
   */
  datatype Pixels = Raw(dataUrl: string) | Band(source: string, top: int, width: int, height: int)

  datatype Chunk = Chunk(image: Pixels, width: int, height: int, topPx: int, bottomPx: int)

  datatype Captured = Captured(metrics: OverlayMetrics, chunk: Chunk)

  /** Why a capture failed: the page script could not run, or the browser refused the snapshot. */
  datatype Fault = ScriptError | CaptureError

  /** `Math.round(n / d)`: the nearest integer, halves rounded up. */
  function RoundHalfUp(n: int, d: PosNat): (r: int)
    ensures 2 * d * r <= 2 * n + d < 2 * d * r + 2 * d
    ensures n >= 0 ==> r >= 0
  {
    var q := (2 * n + d) / (2 * d);
    assert 2 * n + d == q * (2 * d) + (2 * n + d) % (2 * d);
    assert n >= 0 ==> q >= 0 by {
      if n >= 0 {
        NonNegativeQuotient(2 * n + d, 2 * d, q);
      }
    }
    q
  }

  /** A number that is at most `b * q + b` for some `b > 0` and is not negative forces `q >= 0`. */
  lemma NonNegativeQuotient(a: int, b: int, q: int)
    requires a >= 0 && b > 0 && a < b * q + b
    ensures q >= 0
  {
  }

  /** Multiplying by a positive number keeps a whole number's distance from 0 at least that number. */
  lemma MulAwayFromZero(e: int, x: int)
    requires e > 0
    ensures x >= 1 ==> e * x >= e
    ensures x <= -1 ==> e * x <= -e
  {
  }

  /** Rounding an exact multiple of `d` gives the multiplier back. */
  lemma RoundExact(k: int, d: PosNat)
    ensures RoundHalfUp(k * d, d) == k
  {
    var r := RoundHalfUp(k * d, d);
    var e, x := 2 * d, r - k;
    assert e * x == 2 * d * r - 2 * (k * d);
    MulAwayFromZero(e, x);
  }

  /** `Math.round(css * dpr)`: a length in CSS px converted to device pixels. */
  function DevicePx(css: int, dpr: Ratio): (px: int)
    ensures 2 * dpr.den * px <= 2 * (css * dpr.num) + dpr.den < 2 * dpr.den * px + 2 * dpr.den
    ensures css >= 0 ==> px >= 0
    ensures css == 0 ==> px == 0
    ensures dpr.den == 1 ==> px == css * dpr.num
  {
    var n := css * dpr.num;
    assert css >= 0 ==> n >= 0;
    assert css == 0 ==> RoundHalfUp(n, dpr.den) == 0 by {
      if css == 0 {
        RoundExact(0, dpr.den);
      }
    }
    assert dpr.den == 1 ==> RoundHalfUp(n, dpr.den) == n by {
      if dpr.den == 1 {
        RoundExact(n, 1);
      }
    }
    RoundHalfUp(n, dpr.den)
  }

  /**
   * `cropImage`: the same crop for every chunk. The top and bottom overlays,
   * converted to device pixels, are cut off; the band in between is kept, at
   * least one row tall. A snapshot that does not decode is kept whole, with
   * every size recorded as 0.
   */
  function CropImage(shot: Snapshot, m: OverlayMetrics): (c: Chunk)
    ensures shot.decoded.None? ==> c == Chunk(Raw(shot.dataUrl), 0, 0, 0, 0)
    ensures shot.decoded.Some? ==>
      var src := shot.decoded.value;
      && c.topPx == DevicePx(m.topOverlay, m.dpr)
      && c.bottomPx == DevicePx(m.bottomOverlay, m.dpr)
      && c.width == src.width
      && c.height >= 1
      && c.image == Band(shot.dataUrl, c.topPx, src.width, c.height)
      && (c.topPx + c.bottomPx < src.height ==> c.topPx + c.height + c.bottomPx == src.height)
      && (c.topPx + c.bottomPx >= src.height ==> c.height == 1)
  {
    match shot.decoded
    case None => Chunk(Raw(shot.dataUrl), 0, 0, 0, 0)
    case Some(src) =>
      var topPx := DevicePx(m.topOverlay, m.dpr);
      var bottomPx := DevicePx(m.bottomOverlay, m.dpr);
      var h := Max(1, src.height - topPx - bottomPx);
      Chunk(Band(shot.dataUrl, topPx, src.width, h), src.width, h, topPx, bottomPx)
  }

  /**
   * `captureAndCrop`: measure the page afresh, then capture and crop; the
   * metrics returned are the ones the chunk was cropped with. A failing
   * measurement stops before the capture is taken.
   */
  method CaptureAndCrop(page: Option<Page>, shot: Option<Snapshot>) returns (r: Result<Captured, Fault>)
    ensures page.None? ==> r == Err(ScriptError)
    ensures page.Some? && shot.None? ==> r == Err(CaptureError)
    ensures page.Some? && shot.Some? ==>
      && r.Ok?
      && r.value.metrics == MetricsOf(page.value)
      && WellFormed(r.value.metrics)
      && r.value.chunk == CropImage(shot.value, r.value.metrics)
  {
    if page.None? {
      return Err(ScriptError);
    }
    var m := GetOverlayMetrics(page.value);
    if shot.None? {
      return Err(CaptureError);
    }
    var chunk := CropImage(shot.value, m);
    r := Ok(Captured(m, chunk));
  }

  /** A page without overlays is captured whole: the crop keeps every row of the snapshot. */
  lemma NoOverlayCropIsNoOp(shot: Snapshot, m: OverlayMetrics)
    requires m.topOverlay == 0 && m.bottomOverlay == 0
    requires shot.decoded.Some? && shot.decoded.value.height >= 1
    ensures CropImage(shot, m).topPx == 0 && CropImage(shot, m).bottomPx == 0
    ensures CropImage(shot, m).height == shot.decoded.value.height
    ensures CropImage(shot, m).image == Band(shot.dataUrl, 0, shot.decoded.value.width, shot.decoded.value.height)
  {
  }

  /**
   * Viewport 800 px, overlays 50 px and 30 px, ratio 2, snapshot 1600 rows:
   * 100 rows are cut at the top and 60 at the bottom, leaving 1440, for the
   * first chunk as for every other.
   */
  lemma UniformCropExample(url: string, w: nat)
    ensures var c := CropImage(Snapshot(url, Some(Size(w, 1600))), OverlayMetrics(50, 30, 800, 0, Ratio(2, 1)));
      c.topPx == 100 && c.bottomPx == 60 && c.height == 1440 && c.image == Band(url, 100, w, 1440)
  {
  }
}
