/** Fitting the video into a window: fit_display_size in exact arithmetic. */
module FitDisplay {

  function Min(a: real, b: real): real {
    if a <= b then a else b
  }

  function Max(a: int, b: int): int {
    if a >= b then a else b
  }

  function Available(least: int, limit: int, screen: int, margin: int): int {
    Max(least, if limit <= screen - margin then limit else screen - margin)
  }

  function Scale(availW: int, availH: int, videoW: int, videoH: int): real
    requires videoW > 0 && videoH > 0
  {
    Min(Min(availW as real / videoW as real, availH as real / videoH as real), 1.0)
  }

  /** One side of the video, scaled and rounded down. */
  function Side(video: int, scale: real): int {
    (video as real * scale).Floor
  }

  function FitDisplaySize(screenW: int, screenH: int, videoW: int, videoH: int, maxW: int, maxH: int, margin: int): (int, int) {
    if videoW <= 0 || videoH <= 0 then (maxW, maxH)
    else
      var scale := Scale(Available(320, maxW, screenW, margin), Available(240, maxH, screenH, margin), videoW, videoH);
      (Max(320, Side(videoW, scale)), Max(240, Side(videoH, scale)))
  }

  lemma DivideBack(a: int, v: int)
    requires v > 0
    ensures v as real * (a as real / v as real) == a as real
  {
  }

  lemma NonNegative(v: real, d: real)
    requires v > 0.0 && d >= 0.0
    ensures v * d >= 0.0
  {
  }

  lemma Monotone(v: real, s: real, t: real)
    requires v > 0.0 && s <= t
    ensures v * s <= v * t
  {
    NonNegative(v, t - s);
    assert v * (t - s) == v * t - v * s;
  }

  lemma FloorBetween(x: real, limit: int)
    requires 0.0 <= x <= limit as real
    ensures 0 <= x.Floor <= limit
  {
  }

  lemma AtMostWhole(v: real, s: real)
    requires v > 0.0 && s <= 1.0
    ensures v * s <= v
  {
    NonNegative(v, 1.0 - s);
    assert v * (1.0 - s) == v - v * s;
  }

  lemma Product(v: real, scale: real, limit: real, avail: real) returns (x: real)
    requires v > 0.0 && 0.0 < scale <= 1.0 && scale <= limit && v * limit == avail
    ensures x == v * scale && 0.0 <= x <= avail && x <= v
  {
    x := v * scale;
    NonNegative(v, scale);
    Monotone(v, scale, limit);
    AtMostWhole(v, scale);
  }

  lemma Bounded(video: int, scale: real, limit: real, avail: int)
    requires video > 0 && 0.0 < scale <= 1.0 && scale <= limit && video as real * limit == avail as real
    ensures 0 <= Side(video, scale) <= avail && Side(video, scale) <= video
  {
    var x := Product(video as real, scale, limit, avail as real);
    FloorBetween(x, avail);
    FloorBetween(x, video);
  }

  /** One scaled side: within its limit and the video's own size. */
  lemma SideFits(avail: int, video: int, scale: real)
    requires avail > 0 && video > 0 && 0.0 < scale <= 1.0 && scale <= avail as real / video as real
    ensures 0 <= Side(video, scale) <= avail && Side(video, scale) <= video
  {
    DivideBack(avail, video);
    Bounded(video, scale, avail as real / video as real, avail);
  }

  /** The window lies between the minimum and what is available, and never enlarges the video beyond the minimum. */
  lemma FitsTheScreen(screenW: int, screenH: int, videoW: int, videoH: int, maxW: int, maxH: int, margin: int)
    requires videoW > 0 && videoH > 0
    ensures var (w, h) := FitDisplaySize(screenW, screenH, videoW, videoH, maxW, maxH, margin);
      && 320 <= w <= Available(320, maxW, screenW, margin) && w <= Max(320, videoW)
      && 240 <= h <= Available(240, maxH, screenH, margin) && h <= Max(240, videoH)
  {
    var availW, availH := Available(320, maxW, screenW, margin), Available(240, maxH, screenH, margin);
    var scale := Scale(availW, availH, videoW, videoH);
    SideFits(availW, videoW, scale);
    SideFits(availH, videoH, scale);
  }

  lemma Part(v: real, rest: real)
    requires v > 0.0 && 0.0 <= rest < 1.0
    ensures 0.0 <= rest * v < v
  {
  }

  lemma CastProduct(a: int, b: int)
    ensures (a * b) as real == a as real * b as real
  {
  }

  lemma RealRatio(vw: real, vh: real, x: real, y: real, w: real, h: real)
    requires vw > 0.0 && vh > 0.0 && x * vh == y * vw
    requires w <= x < w + 1.0 && h <= y < h + 1.0
    ensures -vh < w * vh - h * vw < vw
  {
    var restW, restH := x - w, y - h;
    Part(vw, restH);
    Part(vh, restW);
    Combine(w * vh, h * vw, x * vh, restW * vh, restH * vw, vh, vw);
  }

  lemma Combine(a: real, b: real, c: real, p: real, q: real, vh: real, vw: real)
    requires p == c - a && q == c - b && 0.0 <= p < vh && 0.0 <= q < vw
    ensures -vh < a - b < vw
  {
  }

  lemma IntRatio(vw: int, vh: int, w: int, h: int, x: real, y: real)
    requires vw > 0 && vh > 0 && x * vh as real == y * vw as real
    requires w as real <= x < w as real + 1.0 && h as real <= y < h as real + 1.0
    ensures -vh < w * vh - h * vw < vw
  {
    RealRatio(vw as real, vh as real, x, y, w as real, h as real);
    CastProduct(w, vh);
    CastProduct(h, vw);
    IntGap(w * vh, h * vw, -vh, vw);
  }

  lemma IntGap(a: int, b: int, lo: int, hi: int)
    requires lo as real < a as real - b as real < hi as real
    ensures lo < a - b < hi
  {
    assert (a - b) as real == a as real - b as real;
  }

  lemma Commute(a: real, b: real, scale: real)
    ensures (a * scale) * b == (b * scale) * a
  {
  }

  /** Rounding down both sides loses less than one unit of each, so the ratio is kept within the larger side. */
  lemma RatioKept(videoW: int, videoH: int, scale: real)
    requires videoW > 0 && videoH > 0
    ensures -videoH < Side(videoW, scale) * videoH - Side(videoH, scale) * videoW < videoW
  {
    var x, y := videoW as real * scale, videoH as real * scale;
    Commute(videoW as real, videoH as real, scale);
    IntRatio(videoW, videoH, Side(videoW, scale), Side(videoH, scale), x, y);
  }

  /** The scaled video touches one limit, or keeps its own size. */
  lemma ScaleFills(availW: int, availH: int, videoW: int, videoH: int)
    requires availW > 0 && availH > 0 && videoW > 0 && videoH > 0
    ensures var scale := Scale(availW, availH, videoW, videoH);
      || Side(videoW, scale) == availW
      || Side(videoH, scale) == availH
      || (Side(videoW, scale) == videoW && Side(videoH, scale) == videoH)
  {
    DivideBack(availW, videoW);
    DivideBack(availH, videoH);
    var scale := Scale(availW, availH, videoW, videoH);
    if scale == 1.0 {
      assert videoW as real * scale == videoW as real && videoH as real * scale == videoH as real;
    } else if scale == availW as real / videoW as real {
      assert videoW as real * scale == availW as real;
    } else {
      assert scale == availH as real / videoH as real;
      assert videoH as real * scale == availH as real;
    }
  }

  /** The scaled video needs neither minimum. */
  predicate NoMinimum(screenW: int, screenH: int, videoW: int, videoH: int, maxW: int, maxH: int, margin: int)
    requires videoW > 0 && videoH > 0
  {
    var scale := Scale(Available(320, maxW, screenW, margin), Available(240, maxH, screenH, margin), videoW, videoH);
    Side(videoW, scale) >= 320 && Side(videoH, scale) >= 240
  }

  /** Where neither minimum changes a side the aspect ratio is kept, and the window is as large as it may be. */
  lemma KeepsAspectAndFills(screenW: int, screenH: int, videoW: int, videoH: int, maxW: int, maxH: int, margin: int)
    requires videoW > 0 && videoH > 0 && NoMinimum(screenW, screenH, videoW, videoH, maxW, maxH, margin)
    ensures var (w, h) := FitDisplaySize(screenW, screenH, videoW, videoH, maxW, maxH, margin);
      && -Max(videoW, videoH) < w * videoH - h * videoW < Max(videoW, videoH)
      && (|| w == Available(320, maxW, screenW, margin)
          || h == Available(240, maxH, screenH, margin)
          || (w == videoW && h == videoH))
  {
    var availW, availH := Available(320, maxW, screenW, margin), Available(240, maxH, screenH, margin);
    RatioKept(videoW, videoH, Scale(availW, availH, videoW, videoH));
    ScaleFills(availW, availH, videoW, videoH);
  }

  /**
   The window spelled out: at least 320 by 240, beyond that never over the configured maximum nor over the screen less
   its margin; a video without a size gets the maximum.
   */
  lemma WindowBounds(screenW: int, screenH: int, videoW: int, videoH: int, maxW: int, maxH: int, margin: int)
    ensures var (w, h) := FitDisplaySize(screenW, screenH, videoW, videoH, maxW, maxH, margin);
      if videoW <= 0 || videoH <= 0 then w == maxW && h == maxH
      else
        && w >= 320 && (w > 320 ==> w <= maxW && w <= screenW - margin && w <= videoW)
        && h >= 240 && (h > 240 ==> h <= maxH && h <= screenH - margin && h <= videoH)
  {
    if videoW > 0 && videoH > 0 { FitsTheScreen(screenW, screenH, videoW, videoH, maxW, maxH, margin); }
    hide Scale, Side;
  }

  /** The largest a side may be: the smaller of two limits, or the least size where that is smaller still. */
  predicate IsLargest(side: int, least: int, limit: int, room: int) {
    side >= least && (if limit <= least || room <= least then side == least else side <= limit && side <= room && (side == limit || side == room))
  }

  /** For every video one side of the window is the largest it may be, unless the window already shows the whole video. */
  lemma WindowIsAsLargeAsItMayBe(screenW: int, screenH: int, videoW: int, videoH: int, maxW: int, maxH: int, margin: int)
    requires videoW > 0 && videoH > 0
    ensures var (w, h) := FitDisplaySize(screenW, screenH, videoW, videoH, maxW, maxH, margin);
      IsLargest(w, 320, maxW, screenW - margin) || IsLargest(h, 240, maxH, screenH - margin) || (w >= videoW && h >= videoH)
  {
    var availW, availH := Available(320, maxW, screenW, margin), Available(240, maxH, screenH, margin);
    ScaleFills(availW, availH, videoW, videoH);
    assert IsLargest(availW, 320, maxW, screenW - margin) && IsLargest(availH, 240, maxH, screenH - margin);
    hide Scale, Side;
  }
}
