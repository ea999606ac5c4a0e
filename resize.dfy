/**
 * Dimension arithmetic of lib/resize.ts: fitting an image inside a maximum
 * side, and the per-step downscale of a canvas. Canvases are values: the
 * library never changes a canvas after drawing on it, it draws a new one.
 */
module Resize {
  import opened Wrappers
  import opened Numeric

  /** The decoded input image: its MIME type and natural size in pixels. */
  datatype SourceImage = SourceImage(mimeType: string, width: nat, height: nat)

  /** Result of `calculateResizedDimensions`. */
  datatype Dimensions = Dimensions(width: int, height: int, resized: bool)

  /**
   * A drawn canvas: its size and whether it was filled with white before the
   * image was drawn onto it (the worker does this for opaque output formats).
   */
  datatype Canvas = Canvas(width: int, height: int, whiteBackground: bool)

  /** The scale factor `min(max/w, max/h)`. */
  function FitRatio(w: nat, h: nat, maxSide: real): real
    requires w > 0 && h > 0
  {
    Min(maxSide / w as real, maxSide / h as real)
  }

  /** Scaling by the fit ratio lands both sides inside the box, one of them on its edge. */
  lemma FitRatioBounds(w: nat, h: nat, maxSide: real)
    requires w > 0 && h > 0
    ensures var r := FitRatio(w, h, maxSide);
      w as real * r <= maxSide && h as real * r <= maxSide &&
      (maxSide >= 0.0 && w >= h ==> w as real * r == maxSide) &&
      (maxSide >= 0.0 && h >= w ==> h as real * r == maxSide)
  {
    var W, H := w as real, h as real;
    var a, b := maxSide / W, maxSide / H;
    assert W * a == maxSide;
    assert H * b == maxSide;
    var r := FitRatio(w, h, maxSide);
    if a <= b {
      assert r == a;
      MulLe(W, a, b);
      assert H * a <= H * b by { MulLe(H, a, b); }
    } else {
      assert r == b;
      assert W * b <= W * a by { MulLe(W, b, a); }
    }
    if w >= h && maxSide >= 0.0 {
      DivideByLarger(maxSide, H, W);
    }
    if h >= w && maxSide >= 0.0 {
      DivideByLarger(maxSide, W, H);
    }
  }

  lemma RoundBetween(x: real, lo: int, hi: int)
    requires lo as real <= x <= hi as real
    ensures lo <= Round(x) <= hi
  {
    RoundMonotone(lo as real, x);
    RoundMonotone(x, hi as real);
    RoundOfInteger(lo);
    RoundOfInteger(hi);
  }

  lemma MulLe(c: real, a: real, b: real)
    requires c >= 0.0 && a <= b
    ensures c * a <= c * b
  {
  }

  lemma DivideByLarger(m: real, small: real, large: real)
    requires m >= 0.0 && 0.0 < small <= large
    ensures m / large <= m / small
  {
    var x, y := m / large, m / small;
    assert x * large == m;
    assert y * small == m;
    assert x >= 0.0;
    MulLe(x, small, large);
    assert x * small <= m;
  }


  /**
   * `calculateResizedDimensions`: the image is left alone when both sides
   * fit, otherwise both sides are multiplied by the fit ratio and rounded.
   */
  function CalculateResizedDimensions(w: nat, h: nat, maxSide: real): (d: Dimensions)
    requires w > 0 && h > 0
    ensures !d.resized <==> (w as real <= maxSide && h as real <= maxSide)
    ensures !d.resized ==> d.width == w && d.height == h
    ensures d.resized ==>
      d.width == Round(w as real * FitRatio(w, h, maxSide)) &&
      d.height == Round(h as real * FitRatio(w, h, maxSide))
  {
    if w as real <= maxSide && h as real <= maxSide then
      Dimensions(w, h, false)
    else
      var ratio := FitRatio(w, h, maxSide);
      Dimensions(Round(w as real * ratio), Round(h as real * ratio), true)
  }

  /**
   * `a` by `b` lies in the `maxSide` box and the longer of `w` and `h` lands
   * on its edge.
   */
  predicate OnBoxEdge(w: nat, h: nat, maxSide: nat, a: int, b: int)
  {
    0 <= a <= maxSide && 0 <= b <= maxSide && (w >= h ==> a == maxSide) && (h >= w ==> b == maxSide)
  }

  /**
   * For an integer box, both resized sides stay inside it and the longer
   * side lands exactly on it (so a square goes to `max` by `max`).
   */
  lemma ResizedFitsIntegerMax(w: nat, h: nat, maxSide: nat, d: Dimensions)
    requires w > 0 && h > 0
    requires d == CalculateResizedDimensions(w, h, maxSide as real) && d.resized
    ensures OnBoxEdge(w, h, maxSide, d.width, d.height)
  {
    RoundedSidesInBox(w, h, maxSide, FitRatio(w, h, maxSide as real), d.width, d.height);
  }

  lemma RoundedSidesInBox(w: nat, h: nat, maxSide: nat, ratio: real, a: int, b: int)
    requires w > 0 && h > 0
    requires ratio == FitRatio(w, h, maxSide as real)
    requires a == Round(w as real * ratio) && b == Round(h as real * ratio)
    ensures OnBoxEdge(w, h, maxSide, a, b)
  {
    var x, y := w as real * ratio, h as real * ratio;
    ScaledSidesInBox(w, h, maxSide, ratio, x, y);
    RoundedInBox(w, h, maxSide, x, y);
  }

  /**
   * `x` by `y` lies in the `maxSide` box and the longer of `w` and `h` lands
   * on its edge, before rounding.
   */
  predicate OnRealBoxEdge(w: nat, h: nat, maxSide: nat, x: real, y: real)
  {
    0.0 <= x <= maxSide as real && 0.0 <= y <= maxSide as real &&
    (w >= h ==> x == maxSide as real) && (h >= w ==> y == maxSide as real)
  }

  /** Rounding keeps sides inside an integer box, and a side on its edge stays there. */
  lemma RoundedInBox(w: nat, h: nat, maxSide: nat, x: real, y: real)
    requires OnRealBoxEdge(w, h, maxSide, x, y)
    ensures OnBoxEdge(w, h, maxSide, Round(x), Round(y))
  {
    RoundBetween(x, 0, maxSide);
    RoundBetween(y, 0, maxSide);
    RoundOfInteger(maxSide);
  }

  lemma ScaledSidesInBox(w: nat, h: nat, maxSide: nat, ratio: real, x: real, y: real)
    requires w > 0 && h > 0
    requires ratio == FitRatio(w, h, maxSide as real)
    requires x == w as real * ratio && y == h as real * ratio
    ensures OnRealBoxEdge(w, h, maxSide, x, y)
  {
    var m := maxSide as real;
    FitRatioBounds(w, h, m);
    assert ratio >= 0.0 by { assert m / w as real >= 0.0 && m / h as real >= 0.0; }
    MulLe(w as real, 0.0, ratio);
    MulLe(h as real, 0.0, ratio);
  }

  /** The cross products `a * h` and `b * w` differ by at most half the perimeter of `w` by `h`. */
  predicate CrossProductClose(w: nat, h: nat, a: int, b: int)
  {
    -((w + h) as real) / 2.0 <= (a * h - b * w) as real <= ((w + h) as real) / 2.0
  }

  /**
   * Aspect ratio survives up to rounding: the cross products of the old and
   * new sides differ by at most half the old perimeter.
   */
  lemma AspectRatioPreserved(w: nat, h: nat, maxSide: real)
    requires w > 0 && h > 0
    ensures var d := CalculateResizedDimensions(w, h, maxSide);
      CrossProductClose(w, h, d.width, d.height)
  {
    var d := CalculateResizedDimensions(w, h, maxSide);
    if d.resized {
      RoundedCrossProduct(w, h, FitRatio(w, h, maxSide), d.width, d.height);
    } else {
      UnchangedSidesClose(w, h);
    }
  }

  lemma UnchangedSidesClose(w: nat, h: nat)
    ensures CrossProductClose(w, h, w, h)
  {
    assert w * h - h * w == 0;
  }

  lemma RoundedCrossProduct(w: nat, h: nat, ratio: real, a: int, b: int)
    requires a == Round(w as real * ratio) && b == Round(h as real * ratio)
    ensures CrossProductClose(w, h, a, b)
  {
    RoundingErrorOfCrossProduct(w as real, h as real, ratio, a, b);
    IntProductAsReal(a, h);
    IntProductAsReal(b, w);
  }

  /** Rounding each side of a scaled box moves the cross product by at most half the perimeter. */
  lemma RoundingErrorOfCrossProduct(W: real, H: real, r: real, a: int, b: int)
    requires W >= 0.0 && H >= 0.0
    requires -0.5 <= a as real - W * r <= 0.5 && -0.5 <= b as real - H * r <= 0.5
    ensures -(W + H) / 2.0 <= a as real * H - b as real * W <= (W + H) / 2.0
  {
    var e1, e2 := a as real - W * r, b as real - H * r;
    assert a as real * H - b as real * W == e1 * H - e2 * W by {
      assert (W * r) * H == (H * r) * W;
    }
    BoundedProduct(e1, H);
    BoundedProduct(e2, W);
  }

  lemma IntProductAsReal(a: int, b: int)
    ensures (a * b) as real == a as real * b as real
  {
  }

  lemma BoundedProduct(e: real, c: real)
    requires c >= 0.0 && -0.5 <= e <= 0.5
    ensures -c / 2.0 <= e * c <= c / 2.0
  {
    MulLe(c, e, 0.5);
    MulLe(c, -0.5, e);
  }

  /** The scenarios the library's own tests check. */
  lemma ResizeExamples()
    ensures CalculateResizedDimensions(800, 600, 1920.0) == Dimensions(800, 600, false)
    ensures CalculateResizedDimensions(1920, 1080, 1920.0) == Dimensions(1920, 1080, false)
    ensures CalculateResizedDimensions(4000, 3000, 1920.0) == Dimensions(1920, 1440, true)
    ensures CalculateResizedDimensions(3000, 3000, 1920.0) == Dimensions(1920, 1920, true)
    ensures CalculateResizedDimensions(10000, 500, 1920.0) == Dimensions(1920, 96, true)
    ensures CalculateResizedDimensions(10000, 1, 100.0) == Dimensions(100, 0, true)
  {
    assert FitRatio(4000, 3000, 1920.0) == 0.48;
    assert FitRatio(3000, 3000, 1920.0) == 0.64;
    assert FitRatio(10000, 500, 1920.0) == 0.192;
    assert FitRatio(10000, 1, 100.0) == 0.01;
  }

  /**
   * The dimension part of `drawImageToCanvas`: the fit rule applies only when
   * a positive `maxWidthOrHeight` is given.
   */
  function DrawTargetDimensions(w: nat, h: nat, maxWidthOrHeight: Option<real>): (d: Dimensions)
    requires w > 0 && h > 0
    ensures d.width >= 0 && d.height >= 0
    ensures (maxWidthOrHeight.None? || maxWidthOrHeight.value <= 0.0) ==> d == Dimensions(w, h, false)
    ensures (maxWidthOrHeight.Some? && maxWidthOrHeight.value > 0.0) ==>
      d == CalculateResizedDimensions(w, h, maxWidthOrHeight.value)
  {
    match maxWidthOrHeight
    case Some(m) => if m > 0.0 then CalculateResizedDimensions(w, h, m) else Dimensions(w, h, false)
    case None => Dimensions(w, h, false)
  }

  /** One side after `scaleCanvas`: `max(1, round(side * scale))`. */
  function ScaledSide(side: int, scale: real): (r: int)
    ensures r >= 1
  {
    MaxInt(1, Round(side as real * scale))
  }

  /** A scale of at most one never enlarges a side of at least one pixel. */
  lemma ScaledSideNeverGrows(side: int, scale: real)
    ensures side >= 1 && 0.0 < scale <= 1.0 ==> ScaledSide(side, scale) <= side
  {
    if side >= 1 && 0.0 < scale <= 1.0 {
      assert side as real * scale <= side as real;
      RoundMonotone(side as real * scale, side as real);
      RoundOfInteger(side);
    }
  }

  /**
   * Downscaling can stall: a side is a fixed point of the 0.8 step exactly
   * when it is at most 2 pixels, and of the 0.9 step exactly when it is at
   * most 5 pixels; every other side strictly shrinks.
   */
  lemma ScaledSideFixedPoints(side: int)
    requires side >= 1
    ensures ScaledSide(side, 0.8) == side <==> side <= 2
    ensures ScaledSide(side, 0.9) == side <==> side <= 5
    ensures ScaledSide(side, 0.8) <= side && ScaledSide(side, 0.9) <= side
  {
    ScaledSideNeverGrows(side, 0.8);
    ScaledSideNeverGrows(side, 0.9);
  }

  /** `scaleCanvas`: a new canvas whose sides are the scaled sides of the old one. */
  function ScaleCanvas(c: Canvas, scale: real): (r: Canvas)
    ensures r.width >= 1 && r.height >= 1
    ensures r.whiteBackground == c.whiteBackground
    ensures 0.0 < scale <= 1.0 && c.width >= 1 && c.height >= 1 ==>
      r.width <= c.width && r.height <= c.height
  {
    ScaledSideNeverGrows(c.width, scale);
    ScaledSideNeverGrows(c.height, scale);
    Canvas(ScaledSide(c.width, scale), ScaledSide(c.height, scale), c.whiteBackground)
  }
}
