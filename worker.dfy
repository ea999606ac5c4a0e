/**
 * lib/worker.ts: the compression run of the inline Web Worker (the script in
 * the template string of `getWorkerCode`, lines 45-247). It follows the same
 * search as lib/compress.ts with its own parameters: every downscale step
 * scales by 0.8, the drawn canvas is capped at MAX_CANVAS_PIXELS, opaque
 * outputs are drawn on white, and for lossless outputs (PNG, BMP, GIF) both
 * quality searches are skipped and the downscale encodes at quality 1.
 *
 * The encoder, `Math.sqrt` and the text of an encoder rejection are
 * parameters; the method returns, besides the outcome, the trace of encoder
 * calls it made and the progress values it posted.
 */
module Worker {
  import opened Wrappers
  import opened Numeric
  import opened Types
  import opened Resize
  import opened Utils
  import opened Search
  import opened Bisect

  /** The largest canvas area the worker draws (the iOS Safari limit). */
  const MAX_CANVAS_PIXELS: nat := 16777216

  /** Output types drawn without a white background. */
  const TRANSPARENT_TYPES: seq<string> := ["image/png", "image/webp", "image/gif"]

  /** Output types whose encoders ignore the quality. */
  const LOSSLESS_TYPES: seq<string> := ["image/png", "image/bmp", "image/gif"]

  /** The output keeps transparency, so no white background is drawn; only supported types do. */
  predicate IsTransparent(mime: string)
    ensures IsTransparent(mime) ==> IsSupportedType(mime)
  {
    mime in TRANSPARENT_TYPES
  }

  /** The output's encoder ignores the quality; only supported types do. */
  predicate IsLossless(mime: string)
    ensures IsLossless(mime) ==> IsSupportedType(mime)
  {
    mime in LOSSLESS_TYPES
  }

  /**
   * How the worker treats each supported type: JPEG is drawn on white and
   * searched; PNG and GIF keep transparency and skip the searches; BMP is
   * drawn on white and skips them; WebP keeps transparency and is searched.
   */
  lemma OutputFormatClasses()
    ensures !IsTransparent("image/jpeg") && !IsLossless("image/jpeg")
    ensures IsTransparent("image/png") && IsLossless("image/png")
    ensures IsTransparent("image/gif") && IsLossless("image/gif")
    ensures !IsTransparent("image/bmp") && IsLossless("image/bmp")
    ensures IsTransparent("image/webp") && !IsLossless("image/webp")
  {
  }

  /**
   * The worker's parameters: the same factor 0.8 for every downscale step; a
   * lossless output skips the quality searches and downscales at quality 1,
   * a lossy one searches and downscales at MIN_QUALITY.
   */
  function WorkerPolicy(lossless: bool): (p: Policy)
    ensures p.qualitySearch <==> !lossless
    ensures p.firstFactor == p.laterFactor == 0.8
    ensures p.downscaleQuality == if lossless then 1.0 else MIN_QUALITY
  {
    Policy(0.8, 0.8, if lossless then 1.0 else MIN_QUALITY, !lossless)
  }

  /** `options.initialQuality || 1.0`: an absent or zero quality becomes 1. */
  function InitialQuality(options: Options): (q: real)
    ensures q != 0.0
    ensures options.initialQuality.Some? && options.initialQuality.value != 0.0 ==>
      q == options.initialQuality.value
    ensures options.initialQuality.None? || options.initialQuality.value == 0.0 ==> q == 1.0
  {
    match options.initialQuality
    case Some(q) => if q != 0.0 then q else 1.0
    case None => 1.0
  }

  /** `sqrt` is the square root on the non-negative reals (`Math.sqrt`, taken as exact). */
  ghost predicate IsSquareRoot(sqrt: real -> real)
  {
    forall x: real | x >= 0.0 :: sqrt(x) >= 0.0 && sqrt(x) * sqrt(x) == x
  }

  /** Width and height of a canvas to be drawn. */
  datatype Size = Size(width: int, height: int)

  /**
   * Lines 97-103: an area above MAX_CANVAS_PIXELS scales both sides by
   * `sqrt(MAX_CANVAS_PIXELS / area)`, rounding down. The result fits the cap,
   * never grows, and is as large as the rounding allows: one more pixel on
   * each side would exceed the cap.
   */
  function CapPixels(w: nat, h: nat, sqrt: real -> real): (s: Size)
    requires IsSquareRoot(sqrt)
    ensures w * h <= MAX_CANVAS_PIXELS ==> s == Size(w, h)
    ensures 0 <= s.width <= w && 0 <= s.height <= h
    ensures s.width * s.height <= MAX_CANVAS_PIXELS
    ensures w * h > MAX_CANVAS_PIXELS ==> (s.width + 1) * (s.height + 1) > MAX_CANVAS_PIXELS
  {
    if w * h <= MAX_CANVAS_PIXELS then Size(w, h)
    else
      var q := MAX_CANVAS_PIXELS as real / (w * h) as real;
      assert q >= 0.0;
      var scale := sqrt(q);
      CapBounds(w, h, scale);
      Size(Floor(w as real * scale), Floor(h as real * scale))
  }

  /**
   * `a` by `b` is a capped size for a `w` by `h` canvas: no side grows, the
   * area is within the cap, and one more pixel on each side would exceed it.
   */
  predicate TightlyCapped(w: nat, h: nat, a: int, b: int)
  {
    0 <= a <= w && 0 <= b <= h && a * b <= MAX_CANVAS_PIXELS && (a + 1) * (b + 1) > MAX_CANVAS_PIXELS
  }

  /** The arithmetic behind `CapPixels`: `w * scale` and `h * scale` multiply to the cap. */
  lemma CapBounds(w: nat, h: nat, scale: real)
    requires w * h > MAX_CANVAS_PIXELS
    requires scale >= 0.0 && scale * scale == MAX_CANVAS_PIXELS as real / (w * h) as real
    ensures TightlyCapped(w, h, Floor(w as real * scale), Floor(h as real * scale))
  {
    ScaledSides(w, h, scale);
    SideBounds(w, h, w as real * scale, h as real * scale);
  }

  /** Sides that multiply to the cap, rounded down, fit it tightly and do not grow. */
  lemma SideBounds(w: nat, h: nat, x: real, y: real)
    requires 0.0 < x <= w as real && 0.0 < y <= h as real && x * y == MAX_CANVAS_PIXELS as real
    ensures TightlyCapped(w, h, Floor(x), Floor(y))
  {
    FloorProduct(x, y, MAX_CANVAS_PIXELS);
  }

  /** Both scaled sides are positive, no longer than before, and multiply to the cap. */
  lemma ScaledSides(w: nat, h: nat, scale: real)
    requires w * h > MAX_CANVAS_PIXELS
    requires scale >= 0.0 && scale * scale == MAX_CANVAS_PIXELS as real / (w * h) as real
    ensures var x, y := w as real * scale, h as real * scale;
      0.0 < x <= w as real && 0.0 < y <= h as real && x * y == MAX_CANVAS_PIXELS as real
  {
    var W, H := w as real, h as real;
    assert (w * h) as real == W * H by { IntProductAsReal(w, h); }
    ScaleBelowOne(scale, W * H);
    ScaledProduct(W, H, scale);
    MulLe(W, scale, 1.0);
    MulStrict(W, 0.0, scale);
    MulLe(H, scale, 1.0);
    MulStrict(H, 0.0, scale);
  }

  /** A square root of a fraction below one is below one. */
  lemma ScaleBelowOne(scale: real, area: real)
    requires area > MAX_CANVAS_PIXELS as real
    requires scale >= 0.0 && scale * scale == MAX_CANVAS_PIXELS as real / area
    ensures 0.0 < scale < 1.0
  {
    if scale >= 1.0 {
      MulLe(scale, 1.0, scale);
    }
  }

  /** Both sides scaled by the square root of `cap / area` span exactly the cap. */
  lemma ScaledProduct(W: real, H: real, scale: real)
    requires W * H > 0.0
    requires scale * scale == MAX_CANVAS_PIXELS as real / (W * H)
    ensures (W * scale) * (H * scale) == MAX_CANVAS_PIXELS as real
  {
    calc {
      (W * scale) * (H * scale);
      (W * H) * (scale * scale);
      (W * H) * (MAX_CANVAS_PIXELS as real / (W * H));
    }
  }

  /** Rounding down two positive factors of `c` gives at most `c`, and one more unit on each exceeds it. */
  lemma FloorProduct(x: real, y: real, c: int)
    requires x > 0.0 && y > 0.0 && x * y == c as real
    ensures Floor(x) >= 0 && Floor(y) >= 0
    ensures Floor(x) * Floor(y) <= c < (Floor(x) + 1) * (Floor(y) + 1)
  {
    var a, b := Floor(x), Floor(y);
    IntProductAsReal(a, b);
    IntProductAsReal(a + 1, b + 1);
    ProductBetween(a as real, b as real, x, y);
  }

  lemma ProductBetween(A: real, B: real, x: real, y: real)
    requires 0.0 <= A <= x < A + 1.0 && 0.0 <= B <= y < B + 1.0 && x > 0.0
    ensures A * B <= x * y < (A + 1.0) * (B + 1.0)
  {
    calc {
      A * B;
    <= { MulLe(B, A, x); }
      x * B;
    <= { MulLe(x, B, y); }
      x * y;
    }
    calc {
      x * y;
    < { MulStrict(x, y, B + 1.0); }
      x * (B + 1.0);
    <= { MulLe(B + 1.0, x, A + 1.0); }
      (A + 1.0) * (B + 1.0);
    }
  }

  lemma MulStrict(c: real, a: real, b: real)
    requires c > 0.0 && a < b
    ensures c * a < c * b
  {
  }

  /**
   * Lines 84-121: the canvas the worker draws: the size `maxWidthOrHeight`
   * asks for, capped in area, filled with white unless the output type keeps
   * transparency.
   */
  function DrawnCanvas(image: SourceImage, options: Options, mime: string, sqrt: real -> real): (c: Canvas)
    requires image.width > 0 && image.height > 0 && IsSquareRoot(sqrt)
    ensures c.whiteBackground <==> !IsTransparent(mime)
    ensures c.width * c.height <= MAX_CANVAS_PIXELS
    ensures var d := DrawTargetDimensions(image.width, image.height, options.maxWidthOrHeight);
      0 <= c.width <= d.width && 0 <= c.height <= d.height &&
      (d.width * d.height <= MAX_CANVAS_PIXELS ==> c.width == d.width && c.height == d.height)
  {
    var d := DrawTargetDimensions(image.width, image.height, options.maxWidthOrHeight);
    var s := CapPixels(d.width, d.height, sqrt);
    Canvas(s.width, s.height, !IsTransparent(mime))
  }

  /**
   * The value posted after quality-search iteration `i`,
   * `45 + Math.round((i / 10) * 30)` (see `SearchProgress`): 45, 48, ..., 72.
   */
  function SearchReport(i: nat): int
  {
    45 + 3 * i
  }

  /**
   * The value posted after downscale step `i` misses,
   * `80 + Math.round((i / 10) * 15)` (see `ScaleProgress`): 80, 82, 83, ..., 94.
   */
  function ScaleReport(i: nat): int
  {
    80 + (3 * i + 1) / 2
  }

  lemma SearchProgress(i: nat)
    requires i < MAX_ITERATIONS
    ensures 45 + Round((i as real / MAX_ITERATIONS as real) * 30.0) == SearchReport(i)
  {
    assert (i as real / 10.0) * 30.0 == (3 * i) as real;
    RoundOfInteger(3 * i);
  }

  /** Halves round up: step 1 posts 82, step 3 posts 85. */
  lemma ScaleProgress(i: nat)
    requires i < MAX_ITERATIONS
    ensures 80 + Round((i as real / MAX_ITERATIONS as real) * 15.0) == ScaleReport(i)
  {
    var x := (i as real / 10.0) * 15.0;
    assert 2.0 * x == (3 * i) as real;
    var r := Round(x);
    assert 2 * r == 3 * i || 2 * r == 3 * i + 1 by {
      assert (2 * r) as real == 2.0 * r as real;
    }
  }

  /**
   * What a run with a size limit guarantees: a trace of the search under the
   * worker's policy, at most 31 calls (11 for a lossless output), failure
   * exactly at a call without a blob, posting the rejection's text, and on
   * success a finished run returning the best blob kept; an oversized result
   * is always the baseline, after a refinement that found nothing or after
   * exhausted downscaling.
   */
  predicate Concluded(p: Policy, target: real, iq: real, canvas0: Canvas, mime: string, rejection: string,
                      r: Result<Blob, string>, calls: seq<Call>)
  {
    Trace(p, target, iq, canvas0, calls) &&
    |calls| <= (if p.qualitySearch then 1 + 3 * MAX_ITERATIONS else 1 + MAX_ITERATIONS) &&
    (r.Failure? <==> calls[|calls| - 1].size.None?) &&
    (r.Failure? ==> r.error == rejection) &&
    (r.Success? ==>
      Produced(calls) &&
      Finished(p, target, calls) &&
      r.value == BlobOf(mime, calls[BestIndex(p, target, calls)]) &&
      (r.value.size as real > target ==>
        r.value == BlobOf(mime, calls[0]) &&
        (calls[|calls| - 1].phase == Refine ||
         (calls[|calls| - 1].phase == Downscale && calls[|calls| - 1].step + 1 == MAX_ITERATIONS &&
          !Fits(calls[|calls| - 1], target)))))
  }

  /**
   * What the worker posts because of call `c` of a run with a size limit,
   * the final 100 aside: 45 after a baseline whose blob misses (line 155);
   * 45 + 3i after quality-search call `i` (line 177); 80 before the first
   * downscale call (line 194) and 80 + round(1.5i) after downscale call `i`
   * whose blob misses (line 235); nothing after a refinement call or after a
   * rejected call, which ends the run.
   */
  function CallReports(target: real, c: Call): (log: seq<int>)
    ensures |log| <= 2
    ensures c.step < MAX_ITERATIONS ==> forall k | 0 <= k < |log| :: 45 <= log[k] < 100
  {
    match c.phase
    case Baseline => if c.size.Some? && !Fits(c, target) then [45] else []
    case QualityStep => if c.size.Some? then [SearchReport(c.step)] else []
    case Downscale =>
      (if c.step == 0 then [80] else []) +
      (if c.size.Some? && !Fits(c, target) then [ScaleReport(c.step)] else [])
    case _ => []
  }

  /** `CallReports` for the size limit `target`, as a function of the call. */
  function Reporter(target: real): Call -> seq<int>
  {
    c => CallReports(target, c)
  }

  /**
   * The progress posted by a run with a size limit: 5, 15, 25, 35, then the
   * values posted because of its calls in order, then 100 exactly on
   * success; it never goes down, and stays below 100 until the end.
   */
  predicate Logged(target: real, r: Result<Blob, string>, calls: seq<Call>, progress: seq<int>)
  {
    progress == [5, 15, 25, 35] + Posted(Reporter(target), calls) + Completion(r) &&
    (r.Success? ==> Completed(progress)) && (r.Failure? ==> Pending(progress))
  }

  /** In a finished run, a best blob that does not fit is the baseline, and the run ended as `Concluded` says. */
  lemma OversizedIsBaseline(p: Policy, target: real, iq: real, canvas0: Canvas, calls: seq<Call>)
    requires Trace(p, target, iq, canvas0, calls) && Finished(p, target, calls)
    requires !Fits(calls[BestIndex(p, target, calls)], target)
    ensures BestIndex(p, target, calls) == 0
    ensures calls[|calls| - 1].phase == Refine ||
      (calls[|calls| - 1].phase == Downscale && calls[|calls| - 1].step + 1 == MAX_ITERATIONS &&
       !Fits(calls[|calls| - 1], target))
  {
    var n := |calls|;
    var b := BestIndex(p, target, calls);
    PhaseOrder(p, target, iq, canvas0, calls, 0, n - 1);
    if n - 1 > b {
      assert !Updates(p, target, calls[n - 1]);
    }
  }

  lemma ConcludeFailure(p: Policy, target: real, iq: real, canvas0: Canvas, mime: string, rejection: string,
                        calls: seq<Call>)
    requires Trace(p, target, iq, canvas0, calls) && calls[|calls| - 1].size.None?
    ensures Concluded(p, target, iq, canvas0, mime, rejection, Failure(rejection), calls)
  {
    TraceLength(p, target, iq, canvas0, calls);
  }

  /** A finished run that returns its best blob ends as `Concluded` demands. */
  lemma ConcludeBest(p: Policy, target: real, iq: real, canvas0: Canvas, mime: string, rejection: string,
                     calls: seq<Call>)
    requires Trace(p, target, iq, canvas0, calls) && calls[|calls| - 1].size.Some?
    requires Finished(p, target, calls)
    ensures var best := BestIndex(p, target, calls);
      calls[best].size.Some? &&
      Concluded(p, target, iq, canvas0, mime, rejection, Success(BlobOf(mime, calls[best])), calls)
  {
    TraceLength(p, target, iq, canvas0, calls);
    ProducedBeforeLast(p, target, iq, canvas0, calls);
    if !Fits(calls[BestIndex(p, target, calls)], target) {
      OversizedIsBaseline(p, target, iq, canvas0, calls);
    }
  }

  /** The log after the quality search posted `n` values. */
  lemma SearchLog(n: nat)
    requires n <= MAX_ITERATIONS
    ensures var log := [5, 15, 25, 35, 45] + Reports(SearchReport, n);
      log[..4] == [5, 15, 25, 35] && Pending(log) && log[|log| - 1] <= 80
  {
    ReportsPending([5, 15, 25, 35, 45], SearchReport, n);
    assert ([5, 15, 25, 35, 45] + Reports(SearchReport, n))[..4] == [5, 15, 25, 35];
  }

  /** What holds before downscale step `i`. */
  predicate ShrinkInv(lossless: bool, target: real, iq: real, canvas0: Canvas, encode: Encoder, mime: string,
                      calls0: seq<Call>, calls: seq<Call>, i: nat, canvas: Canvas)
  {
    var p := WorkerPolicy(lossless);
    1 <= |calls0| && i <= MAX_ITERATIONS && |calls| == |calls0| + i &&
    Trace(p, target, iq, canvas0, calls) && Genuine(encode, mime, calls) &&
    var last := calls[|calls| - 1];
    last.size.Some? && last.canvas == canvas &&
    (i == 0 ==> calls == calls0) &&
    (i > 0 ==> last.phase == Downscale && last.step == i - 1) &&
    (forall j | 0 <= j < |calls| :: !Fits(calls[j], target)) &&
    BestIndex(p, target, calls) == 0
  }

  /** One downscale step: the call on the canvas scaled by 0.8, and the state after it. */
  lemma ShrinkStep(lossless: bool, target: real, iq: real, canvas0: Canvas, encode: Encoder, mime: string,
                   calls0: seq<Call>, calls: seq<Call>, i: nat, canvas: Canvas, c: Call)
    requires ShrinkInv(lossless, target, iq, canvas0, encode, mime, calls0, calls, i, canvas)
    requires i < MAX_ITERATIONS
    requires lossless ==> calls0[|calls0| - 1].phase == Baseline
    requires !lossless ==>
      calls0[|calls0| - 1].phase == QualityStep && calls0[|calls0| - 1].step + 1 == MAX_ITERATIONS
    requires c == Call(Downscale, i, ScaleCanvas(canvas, 0.8), WorkerPolicy(lossless).downscaleQuality,
                       encode(mime, ScaleCanvas(canvas, 0.8), WorkerPolicy(lossless).downscaleQuality))
    ensures Trace(WorkerPolicy(lossless), target, iq, canvas0, calls + [c]) && Genuine(encode, mime, calls + [c])
    ensures c.size.Some? && !Fits(c, target) ==>
      ShrinkInv(lossless, target, iq, canvas0, encode, mime, calls0, calls + [c], i + 1, c.canvas)
  {
    var p := WorkerPolicy(lossless);
    assert calls[..|calls|] == calls;
    assert Step(p, target, iq, calls, c);
    TraceExtend(p, target, iq, canvas0, calls, c);
    BestIndexExtend(p, target, calls, c);
  }

  /**
   * The log before downscale step `i`: 80 is posted before the first step,
   * `ScaleReport(i)` after each miss.
   */
  predicate ShrinkLogged(target: real, calls: seq<Call>, i: nat, progress: seq<int>)
  {
    progress == [5, 15, 25, 35] + Posted(Reporter(target), calls) + (if i == 0 then [80] else []) &&
    Pending(progress) && progress[|progress| - 1] == (if i == 0 then 80 else ScaleReport(i - 1))
  }

  /** The log after downscale step `i`: one more value if its blob misses, none otherwise. */
  lemma ShrinkLogStep(target: real, calls: seq<Call>, i: nat, progress: seq<int>, c: Call)
    requires ShrinkLogged(target, calls, i, progress)
    requires c.phase == Downscale && c.step == i && i < MAX_ITERATIONS
    ensures !(c.size.Some? && !Fits(c, target)) ==>
      progress == [5, 15, 25, 35] + Posted(Reporter(target), calls + [c]) && Pending(progress)
    ensures c.size.Some? && !Fits(c, target) ==>
      ShrinkLogged(target, calls + [c], i + 1, progress + [ScaleReport(i)])
  {
    PostedExtend(Reporter(target), calls, c);
    if c.size.Some? && !Fits(c, target) {
      PendingExtend(progress, ScaleReport(i));
    }
  }

  /**
   * Lines 193-241: downscale by 0.8 at a time. On the first canvas that
   * fits, a lossy output refines the quality and a lossless one keeps that
   * blob; the best blob is returned, which after MAX_ITERATIONS misses is
   * still the baseline.
   */
  method ShrinkAndRefine(lossless: bool, target: real, iq: real, canvas0: Canvas, encode: Encoder, mime: string,
                         rejection: string, calls0: seq<Call>, progress0: seq<int>)
    returns (r: Result<Blob, string>, calls: seq<Call>, progress: seq<int>)
    requires Trace(WorkerPolicy(lossless), target, iq, canvas0, calls0) && Genuine(encode, mime, calls0)
    requires calls0[|calls0| - 1].size.Some?
    requires lossless ==> calls0[|calls0| - 1].phase == Baseline
    requires !lossless ==>
      calls0[|calls0| - 1].phase == QualityStep && calls0[|calls0| - 1].step + 1 == MAX_ITERATIONS
    requires forall j | 0 <= j < |calls0| :: !Fits(calls0[j], target)
    requires BestIndex(WorkerPolicy(lossless), target, calls0) == 0
    requires progress0 == [5, 15, 25, 35] + Posted(Reporter(target), calls0) + [80] && Pending(progress0)
    ensures Genuine(encode, mime, calls)
    ensures Concluded(WorkerPolicy(lossless), target, iq, canvas0, mime, rejection, r, calls)
    ensures Logged(target, r, calls, progress)
  {
    var p := WorkerPolicy(lossless);
    calls, progress := calls0, progress0;
    var canvas := calls0[|calls0| - 1].canvas;
    var i := 0;
    while i < MAX_ITERATIONS
      invariant ShrinkInv(lossless, target, iq, canvas0, encode, mime, calls0, calls, i, canvas)
      invariant ShrinkLogged(target, calls, i, progress)
    {
      var next := ScaleCanvas(canvas, 0.8);
      var s := encode(mime, next, p.downscaleQuality);
      var c := Call(Downscale, i, next, p.downscaleQuality, s);
      ShrinkStep(lossless, target, iq, canvas0, encode, mime, calls0, calls, i, canvas, c);
      ShrinkLogStep(target, calls, i, progress, c);
      calls := calls + [c];
      canvas := next;
      if s.None? {
        ConcludeFailure(p, target, iq, canvas0, mime, rejection, calls);
        r := Failure(rejection);
        return;
      }
      if Fits(c, target) {
        r, calls := FinishOnFit(lossless, target, iq, canvas0, encode, mime, rejection, calls);
        LogOutcome(target, r, calls, progress);
        progress := progress + Completion(r);
        return;
      }
      progress := progress + [ScaleReport(i)];
      i := i + 1;
    }
    ConcludeBest(p, target, iq, canvas0, mime, rejection, calls);
    CompleteLog(progress);
    progress := progress + [100];
    r := Success(BlobOf(mime, calls[BestIndex(p, target, calls)]));
  }

  /**
   * Lines 213-231, on the first downscaled canvas that fits: a lossy output
   * refines the quality there, a lossless one keeps that blob; the best blob
   * is returned. Refinement calls post nothing.
   */
  method FinishOnFit(lossless: bool, target: real, iq: real, canvas0: Canvas, encode: Encoder, mime: string,
                     rejection: string, calls0: seq<Call>)
    returns (r: Result<Blob, string>, calls: seq<Call>)
    requires Trace(WorkerPolicy(lossless), target, iq, canvas0, calls0) && Genuine(encode, mime, calls0)
    requires calls0[|calls0| - 1].phase == Downscale && Fits(calls0[|calls0| - 1], target)
    ensures Genuine(encode, mime, calls)
    ensures Concluded(WorkerPolicy(lossless), target, iq, canvas0, mime, rejection, r, calls)
    ensures Posted(Reporter(target), calls) == Posted(Reporter(target), calls0)
  {
    var p := WorkerPolicy(lossless);
    calls := calls0;
    if !lossless {
      var best;
      calls, best := Run(p, target, iq, canvas0, encode, mime, Refine, calls);
      RefinePostsNothing(target, calls0, calls);
      if calls[|calls| - 1].size.None? {
        ConcludeFailure(p, target, iq, canvas0, mime, rejection, calls);
        r := Failure(rejection);
        return;
      }
    }
    ConcludeBest(p, target, iq, canvas0, mime, rejection, calls);
    r := Success(BlobOf(mime, calls[BestIndex(p, target, calls)]));
  }

  /**
   * Lines 157-194 for a lossy output, after a baseline that did not fit: the
   * quality search on the drawn canvas, its best blob if that fits, else
   * `ShrinkAndRefine`.
   */
  method SearchThenShrink(target: real, iq: real, canvas: Canvas, encode: Encoder, mime: string,
                          rejection: string, calls0: seq<Call>, progress0: seq<int>)
    returns (r: Result<Blob, string>, calls: seq<Call>, progress: seq<int>)
    requires |calls0| == 1 && calls0[0] == Call(Baseline, 0, canvas, iq, calls0[0].size)
    requires calls0[0].size == encode(mime, canvas, iq) && calls0[0].size.Some? && !Fits(calls0[0], target)
    requires progress0 == [5, 15, 25, 35, 45]
    ensures Genuine(encode, mime, calls)
    ensures Concluded(WorkerPolicy(false), target, iq, canvas, mime, rejection, r, calls)
    ensures Logged(target, r, calls, progress)
  {
    var p := WorkerPolicy(false);
    TraceStart(p, target, iq, canvas, calls0[0]);
    var searched, best := Run(p, target, iq, canvas, encode, mime, QualityStep, calls0);
    r, calls, progress := EndSearch(target, iq, canvas, encode, mime, rejection, calls0, searched, best, progress0);
  }

  /** How a lossy quality search that produced a blob at every call ends the run, or hands over to downscaling. */
  lemma EndOfSearch(target: real, iq: real, canvas: Canvas, encode: Encoder, mime: string, rejection: string,
                    calls0: seq<Call>, calls: seq<Call>, best: nat)
    requires |calls0| == 1 && calls0[0].phase == Baseline && !Fits(calls0[0], target)
    requires Searched(WorkerPolicy(false), target, iq, canvas, encode, mime, QualityStep, calls0, calls, best)
    requires calls[|calls| - 1].size.Some?
    ensures Fits(calls[best], target) ==>
      calls[best].size.Some? &&
      Concluded(WorkerPolicy(false), target, iq, canvas, mime, rejection, Success(BlobOf(mime, calls[best])), calls)
    ensures !Fits(calls[best], target) ==>
      calls[|calls| - 1].phase == QualityStep && calls[|calls| - 1].step + 1 == MAX_ITERATIONS &&
      (forall j | 0 <= j < |calls| :: !Fits(calls[j], target)) && best == 0
  {
    var p := WorkerPolicy(false);
    var last := calls[|calls| - 1];
    assert last.phase == QualityStep;
    if Fits(calls[best], target) {
      ConcludeBest(p, target, iq, canvas, mime, rejection, calls);
    }
  }

  /**
   * The log after the quality search: 5, 15, 25, 35, 45, then one value per
   * search call that produced a blob; pending, ending at most at 80.
   */
  lemma SearchLogged(target: real, calls: seq<Call>, n: nat)
    requires n <= MAX_ITERATIONS
    requires Posted(Reporter(target), calls) == [45] + Reports(SearchReport, n)
    ensures var log := [5, 15, 25, 35, 45] + Reports(SearchReport, n);
      log == [5, 15, 25, 35] + Posted(Reporter(target), calls) && Pending(log) && log[|log| - 1] <= 80
  {
    SearchLog(n);
    var tail := Reports(SearchReport, n);
    assert [5, 15, 25, 35, 45] == [5, 15, 25, 35] + [45];
    assert [5, 15, 25, 35] + [45] + tail == [5, 15, 25, 35] + ([45] + tail);
  }

  /** The values the calls of that search post: 45, then one value per call that produced a blob. */
  lemma SearchPosted(target: real, iq: real, canvas: Canvas, encode: Encoder, mime: string,
                     calls0: seq<Call>, calls: seq<Call>, best: nat)
    requires |calls0| == 1 && calls0[0].phase == Baseline && calls0[0].size.Some? && !Fits(calls0[0], target)
    requires Searched(WorkerPolicy(false), target, iq, canvas, encode, mime, QualityStep, calls0, calls, best)
    ensures ReportedCalls(calls0, calls) <= MAX_ITERATIONS
    ensures Posted(Reporter(target), calls) == [45] + Reports(SearchReport, ReportedCalls(calls0, calls))
  {
    var f := Reporter(target);
    forall k | 1 <= k < |calls|
      ensures f(calls[k]) == if calls[k].size.Some? then [SearchReport(calls[k].step)] else []
    {
      SearchCallReports(target, calls[k]);
    }
    PostedSearch(WorkerPolicy(false), target, iq, canvas, f, SearchReport, calls);
    assert calls[..1] == calls0;
    assert Posted(f, calls0) == [45];
  }

  /** Once the result is known, a pending log of the run's calls ends as `Logged` says. */
  lemma LogOutcome(target: real, r: Result<Blob, string>, calls: seq<Call>, progress: seq<int>)
    requires progress == [5, 15, 25, 35] + Posted(Reporter(target), calls) && Pending(progress)
    ensures Logged(target, r, calls, progress + Completion(r))
  {
    if r.Success? {
      CompleteLog(progress);
    } else {
      assert progress + Completion(r) == progress;
    }
  }

  /** Refinement calls post nothing: a refined run has posted what it had before. */
  lemma RefinePostsNothing(target: real, calls0: seq<Call>, calls: seq<Call>)
    requires |calls0| <= |calls| && calls[..|calls0|] == calls0
    requires forall k | |calls0| <= k < |calls| :: calls[k].phase == Refine
    ensures Posted(Reporter(target), calls) == Posted(Reporter(target), calls0)
  {
    PostedQuiet(Reporter(target), calls, |calls0|);
  }

  /** A quality-search call posts `SearchReport` of its counter when it produced a blob. */
  lemma SearchCallReports(target: real, c: Call)
    requires c.phase == QualityStep
    ensures Reporter(target)(c) == if c.size.Some? then [SearchReport(c.step)] else []
  {
  }

  /** Lines 185-241 of the lossy run: what follows the quality search. */
  method EndSearch(target: real, iq: real, canvas: Canvas, encode: Encoder, mime: string, rejection: string,
                   calls0: seq<Call>, searched: seq<Call>, best: nat, progress0: seq<int>)
    returns (r: Result<Blob, string>, calls: seq<Call>, progress: seq<int>)
    requires |calls0| == 1 && calls0[0].phase == Baseline && calls0[0].size.Some? && !Fits(calls0[0], target)
    requires Searched(WorkerPolicy(false), target, iq, canvas, encode, mime, QualityStep, calls0, searched, best)
    requires progress0 == [5, 15, 25, 35, 45]
    ensures Genuine(encode, mime, calls)
    ensures Concluded(WorkerPolicy(false), target, iq, canvas, mime, rejection, r, calls)
    ensures Logged(target, r, calls, progress)
  {
    var p := WorkerPolicy(false);
    calls := searched;
    SearchPosted(target, iq, canvas, encode, mime, calls0, calls, best);
    SearchLogged(target, calls, ReportedCalls(calls0, calls));
    progress := progress0 + Reports(SearchReport, ReportedCalls(calls0, calls));
    var last := calls[|calls| - 1];
    if last.size.None? {
      ConcludeFailure(p, target, iq, canvas, mime, rejection, calls);
      r := Failure(rejection);
      return;
    }
    EndOfSearch(target, iq, canvas, encode, mime, rejection, calls0, calls, best);
    if Fits(calls[best], target) {
      CompleteLog(progress);
      progress := progress + [100];
      r := Success(BlobOf(mime, calls[best]));
      return;
    }
    PendingExtend(progress, 80);
    progress := progress + [80];
    r, calls, progress := ShrinkAndRefine(false, target, iq, canvas, encode, mime, rejection, calls, progress);
  }

  /**
   * Lines 142-241, the run under a positive size limit: the baseline at the
   * initial quality, then the quality search for a lossy output, then
   * `ShrinkAndRefine`.
   */
  method CompressToTarget(lossless: bool, target: real, iq: real, canvas: Canvas, encode: Encoder, mime: string,
                          rejection: string, progress0: seq<int>)
    returns (r: Result<Blob, string>, calls: seq<Call>, progress: seq<int>)
    requires progress0 == [5, 15, 25, 35]
    ensures Genuine(encode, mime, calls)
    ensures Concluded(WorkerPolicy(lossless), target, iq, canvas, mime, rejection, r, calls)
    ensures Logged(target, r, calls, progress)
  {
    var p := WorkerPolicy(lossless);
    progress := progress0;
    var size := encode(mime, canvas, iq);
    calls := [Call(Baseline, 0, canvas, iq, size)];
    TraceStart(p, target, iq, canvas, calls[0]);
    if size.None? {
      ConcludeFailure(p, target, iq, canvas, mime, rejection, calls);
      r := Failure(rejection);
      return;
    }
    if Fits(calls[0], target) {
      ConcludeBest(p, target, iq, canvas, mime, rejection, calls);
      CompleteLog(progress);
      progress := progress + [100];
      r := Success(BlobOf(mime, calls[0]));
      return;
    }
    progress := progress + [45];
    if !lossless {
      r, calls, progress := SearchThenShrink(target, iq, canvas, encode, mime, rejection, calls, progress);
      return;
    }
    r, calls, progress := ShrinkBaseline(target, iq, canvas, encode, mime, rejection, calls, progress);
  }

  /**
   * Lines 185-241 for a lossless output, after a baseline that did not fit:
   * no quality search, straight to `ShrinkAndRefine`.
   */
  method ShrinkBaseline(target: real, iq: real, canvas: Canvas, encode: Encoder, mime: string,
                        rejection: string, calls0: seq<Call>, progress0: seq<int>)
    returns (r: Result<Blob, string>, calls: seq<Call>, progress: seq<int>)
    requires |calls0| == 1 && calls0[0] == Call(Baseline, 0, canvas, iq, calls0[0].size)
    requires calls0[0].size == encode(mime, canvas, iq) && calls0[0].size.Some? && !Fits(calls0[0], target)
    requires progress0 == [5, 15, 25, 35, 45]
    ensures Genuine(encode, mime, calls)
    ensures Concluded(WorkerPolicy(true), target, iq, canvas, mime, rejection, r, calls)
    ensures Logged(target, r, calls, progress)
  {
    TraceStart(WorkerPolicy(true), target, iq, canvas, calls0[0]);
    assert Posted(Reporter(target), calls0) == [45];
    r, calls, progress := ShrinkAndRefine(true, target, iq, canvas, encode, mime, rejection, calls0, progress0 + [80]);
  }

  /**
   * The worker's message handler (lines 59-245). It posts 5, then decodes
   * the image; when that fails (`decoded` is None) it posts the decoder's
   * error text. Without a size limit: one call at the initial quality,
   * progress 5, 15, 25, 35, and 95 on success. With one: `Concluded` under
   * the policy the output type selects, and `Logged`. An encoder rejection
   * posts its text as the error, at the call that failed.
   */
  method WorkerCompress(decoded: Option<SourceImage>, options: Options, encode: Encoder, sqrt: real -> real,
                        rejection: string, decodeError: string)
    returns (r: Result<Blob, string>, calls: seq<Call>, progress: seq<int>)
    requires decoded.Some? ==> decoded.value.width > 0 && decoded.value.height > 0
    requires IsSquareRoot(sqrt)
    ensures decoded.None? ==> r == Failure(decodeError) && calls == [] && progress == [5]
    ensures decoded.Some? ==> var mime := OutputType(options.fileType, decoded.value.mimeType);
      |calls| >= 1 && Genuine(encode, mime, calls)
    ensures decoded.Some? && !HasLimit(options.maxSizeMB) ==>
      var mime := OutputType(options.fileType, decoded.value.mimeType);
      var canvas := DrawnCanvas(decoded.value, options, mime, sqrt);
      calls == [Call(Single, 0, canvas, InitialQuality(options), calls[0].size)] &&
      (r.Failure? <==> calls[0].size.None?) &&
      (r.Failure? ==> r.error == rejection) &&
      (r.Success? ==> r.value == BlobOf(mime, calls[0])) &&
      progress == [5, 15, 25, 35] + (if r.Success? then [95] else [])
    ensures decoded.Some? && HasLimit(options.maxSizeMB) ==>
      var mime := OutputType(options.fileType, decoded.value.mimeType);
      var canvas := DrawnCanvas(decoded.value, options, mime, sqrt);
      var target := TargetBytes(options.maxSizeMB.value);
      Concluded(WorkerPolicy(IsLossless(mime)), target, InitialQuality(options), canvas, mime, rejection, r, calls) &&
      Logged(target, r, calls, progress)
  {
    progress := [5];
    if decoded.None? {
      r, calls := Failure(decodeError), [];
      return;
    }
    var image := decoded.value;
    progress := progress + [15];
    var mime := OutputType(options.fileType, image.mimeType);
    var canvas := DrawnCanvas(image, options, mime, sqrt);
    progress := progress + [25, 35];
    var iq := InitialQuality(options);
    var lossless := IsLossless(mime);

    if !HasLimit(options.maxSizeMB) {
      var size := encode(mime, canvas, iq);
      calls := [Call(Single, 0, canvas, iq, size)];
      if size.None? {
        r := Failure(rejection);
        return;
      }
      progress := progress + [95];
      r := Success(BlobOf(mime, calls[0]));
      return;
    }

    r, calls, progress := CompressToTarget(lossless, TargetBytes(options.maxSizeMB.value), iq, canvas, encode, mime,
      rejection, progress);
  }
}
