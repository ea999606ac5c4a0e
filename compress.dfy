/**
 * lib/compress.ts: `smartCompress`, the main-thread engine. It draws the image
 * (optionally resized), and when a size limit is set it searches for the
 * highest quality whose blob fits, falling back to shrinking the canvas.
 *
 * The encoder is a parameter; the method returns, besides the outcome, the
 * trace of encoder calls it made and the progress values it reported.
 */
module Compress {
  import opened Wrappers
  import opened Numeric
  import opened Types
  import opened Resize
  import opened Utils
  import opened Search
  import opened Bisect

  /** The engine's parameters: first downscale by 0.9, then by 0.8, downscale at MIN_QUALITY. */
  const POLICY: Policy := Policy(0.9, 0.8, MIN_QUALITY, true)

  /** `initialQuality = 1.0` in the destructuring: the default applies only when absent. */
  function InitialQuality(options: Options): (q: real)
    ensures options.initialQuality.None? ==> q == 1.0
    ensures options.initialQuality.Some? ==> q == options.initialQuality.value
  {
    options.initialQuality.GetOr(1.0)
  }

  /** The canvas `drawImageToCanvas` produces: the fitted size, no background fill. */
  function DrawnCanvas(image: SourceImage, options: Options): (c: Canvas)
    requires image.width > 0 && image.height > 0
    ensures !c.whiteBackground
    ensures var d := DrawTargetDimensions(image.width, image.height, options.maxWidthOrHeight);
      c.width == d.width && c.height == d.height
  {
    var d := DrawTargetDimensions(image.width, image.height, options.maxWidthOrHeight);
    Canvas(d.width, d.height, false)
  }

  /** `report`: the percentage rounded and clamped to [0, 100]. */
  function Report(pct: real): (v: int)
    ensures 0 <= v <= 100
    ensures 0.0 <= pct <= 100.0 ==> pct - 0.5 < v as real <= pct + 0.5
  {
    Clamp(Round(pct), 0, 100)
  }

  lemma ReportOfInteger(n: int)
    requires 0 <= n <= 100
    ensures Report(n as real) == n
  {
    RoundOfInteger(n);
  }

  /** The progress value after quality-search iteration `i`: 30% to 70%. */
  lemma SearchProgress(i: nat)
    requires i < MAX_ITERATIONS
    ensures Report(30.0 + ((i + 1) as real / MAX_ITERATIONS as real) * 40.0) == SearchReport(i)
  {
    assert 30.0 + ((i + 1) as real / 10.0) * 40.0 == (34 + 4 * i) as real;
    ReportOfInteger(34 + 4 * i);
  }

  /** The progress value after a downscale step `i` that did not fit: 75% to 95%. */
  lemma ScaleProgress(i: nat)
    requires i < MAX_ITERATIONS
    ensures Report(75.0 + ((i + 1) as real / MAX_ITERATIONS as real) * 20.0) == ScaleReport(i)
  {
    assert 75.0 + ((i + 1) as real / 10.0) * 20.0 == (77 + 2 * i) as real;
    ReportOfInteger(77 + 2 * i);
  }

  /** Which call's blob is returned: the last one after exhausted downscaling, else the best. */
  function ResultIndex(calls: seq<Call>, target: real): (i: nat)
    requires |calls| >= 1
    ensures i < |calls|
  {
    if calls[|calls| - 1].phase == Downscale then |calls| - 1 else BestIndex(POLICY, target, calls)
  }

  /**
   * The report after quality-search iteration `i`, `30 + ((i + 1) / 10) * 40`
   * rounded (see `SearchProgress`): 34, 38, ..., 70.
   */
  function SearchReport(i: nat): int
  {
    34 + 4 * i
  }

  /**
   * The report after downscale step `i` misses, `75 + ((i + 1) / 10) * 20`
   * rounded (see `ScaleProgress`): 77, 79, ..., 95.
   */
  function ScaleReport(i: nat): int
  {
    77 + 2 * i
  }

  /**
   * What a run with a size limit guarantees: a trace of the search under this
   * engine's policy, at most 31 calls, failure exactly at a call without a
   * blob, and on success a finished run whose blob `ResultIndex` names; an
   * oversized result comes only from an unsuccessful refinement (the
   * baseline) or from exhausted downscaling (the last blob).
   */
  predicate Concluded(target: real, iq: real, canvas0: Canvas, mime: string, r: Result<Blob, string>, calls: seq<Call>)
  {
    Trace(POLICY, target, iq, canvas0, calls) &&
    |calls| <= 1 + 3 * MAX_ITERATIONS &&
    (r.Failure? <==> calls[|calls| - 1].size.None?) &&
    (r.Failure? ==> r.error == NULL_BLOB_MESSAGE) &&
    (r.Success? ==>
      Produced(calls) &&
      Finished(POLICY, target, calls) &&
      r.value == BlobOf(mime, calls[ResultIndex(calls, target)]) &&
      (r.value.size as real > target ==>
        (calls[|calls| - 1].phase == Refine && r.value == BlobOf(mime, calls[0])) ||
        (calls[|calls| - 1].phase == Downscale && calls[|calls| - 1].step + 1 == MAX_ITERATIONS)))
  }

  /**
   * What `report` gives because of call `c` of a run with a size limit, the
   * final 100 aside: 30 after a baseline with a blob (line 74); 34 + 4i after
   * quality-search call `i` with a blob (line 100); 75 before the first
   * downscale call (line 118) and 77 + 2i after downscale call `i` whose blob
   * misses (line 149); nothing after a refinement call or a call without a
   * blob, which aborts the run.
   */
  function CallReports(target: real, c: Call): (log: seq<int>)
    ensures |log| <= 2
    ensures c.step < MAX_ITERATIONS ==> forall k | 0 <= k < |log| :: 30 <= log[k] < 100
  {
    match c.phase
    case Baseline => if c.size.Some? then [30] else []
    case QualityStep => if c.size.Some? then [SearchReport(c.step)] else []
    case Downscale =>
      (if c.step == 0 then [75] else []) +
      (if c.size.Some? && !Fits(c, target) then [ScaleReport(c.step)] else [])
    case _ => []
  }

  /** `CallReports` for the size limit `target`, as a function of the call. */
  function Reporter(target: real): Call -> seq<int>
  {
    c => CallReports(target, c)
  }

  /**
   * The progress log of a run with a size limit: 5 and 20, then the reports
   * of its calls in order, then 100 exactly on success; it never goes down,
   * and stays below 100 until the end.
   */
  predicate Logged(target: real, r: Result<Blob, string>, calls: seq<Call>, progress: seq<int>)
  {
    progress == [5, 20] + Posted(Reporter(target), calls) + Completion(r) &&
    (r.Success? ==> Completed(progress)) && (r.Failure? ==> Pending(progress))
  }

  /** Facts a caller reads off a log. */
  lemma LoggedFacts(target: real, r: Result<Blob, string>, calls: seq<Call>, progress: seq<int>)
    requires Logged(target, r, calls, progress)
    ensures progress[..2] == [5, 20]
    ensures NonDecreasing(progress) && Percentages(progress)
    ensures r.Success? <==> 100 in progress
    ensures r.Success? ==> progress[|progress| - 1] == 100
  {
    assert progress[..2] == [5, 20];
    if r.Success? {
      CompletedFacts(progress);
    } else {
      PendingFacts(progress);
    }
  }

  /** A failed call ends a run as `Concluded` demands. */
  lemma ConcludeFailure(target: real, iq: real, canvas0: Canvas, mime: string, calls: seq<Call>)
    requires Trace(POLICY, target, iq, canvas0, calls) && calls[|calls| - 1].size.None?
    ensures Concluded(target, iq, canvas0, mime, Failure(NULL_BLOB_MESSAGE), calls)
  {
    TraceLength(POLICY, target, iq, canvas0, calls);
  }

  /** A finished run returning a fitting blob ends as `Concluded` demands. */
  lemma ConcludeFitting(target: real, iq: real, canvas0: Canvas, mime: string, calls: seq<Call>, idx: nat)
    requires Trace(POLICY, target, iq, canvas0, calls) && calls[|calls| - 1].size.Some?
    requires Finished(POLICY, target, calls)
    requires idx == ResultIndex(calls, target) && Fits(calls[idx], target)
    ensures Concluded(target, iq, canvas0, mime, Success(BlobOf(mime, calls[idx])), calls)
  {
    TraceLength(POLICY, target, iq, canvas0, calls);
    ProducedBeforeLast(POLICY, target, iq, canvas0, calls);
  }

  /** A completed refinement ends a run as `Concluded` demands, with the best blob it found. */
  lemma ConcludeRefine(target: real, iq: real, canvas0: Canvas, mime: string, calls: seq<Call>, best: nat)
    requires Trace(POLICY, target, iq, canvas0, calls) && calls[|calls| - 1].size.Some?
    requires calls[|calls| - 1].phase == Refine && calls[|calls| - 1].step + 1 == MAX_ITERATIONS
    requires best == BestIndex(POLICY, target, calls)
    ensures calls[best].size.Some? && Concluded(target, iq, canvas0, mime, Success(BlobOf(mime, calls[best])), calls)
  {
    TraceLength(POLICY, target, iq, canvas0, calls);
    ProducedBeforeLast(POLICY, target, iq, canvas0, calls);
  }

  /** The log after the quality search made `n` reports. */
  lemma SearchLog(n: nat)
    requires n <= MAX_ITERATIONS
    ensures var log := [5, 20, 30] + Reports(SearchReport, n);
      log[..2] == [5, 20] && Pending(log) && log[|log| - 1] <= 70
  {
    ReportsPending([5, 20, 30], SearchReport, n);
    assert ([5, 20, 30] + Reports(SearchReport, n))[..2] == [5, 20];
  }

  /** What holds before downscale step `i`. */
  predicate ShrinkInv(target: real, iq: real, canvas0: Canvas, encode: Encoder, mime: string,
                      calls0: seq<Call>, calls: seq<Call>, i: nat, canvas: Canvas, scale: real)
  {
    1 <= |calls0| && i <= MAX_ITERATIONS && |calls| == |calls0| + i &&
    Trace(POLICY, target, iq, canvas0, calls) && Genuine(encode, mime, calls) &&
    var last := calls[|calls| - 1];
    last.size.Some? && last.canvas == canvas &&
    (i == 0 ==> calls == calls0 && scale == 0.9) &&
    (i > 0 ==> last.phase == Downscale && last.step == i - 1 && scale == 0.8) &&
    (forall j | 0 <= j < |calls| :: !Fits(calls[j], target)) &&
    BestIndex(POLICY, target, calls) == 0
  }

  /** One downscale step: the call at MIN_QUALITY on the scaled canvas, and the state after it. */
  lemma ShrinkStep(target: real, iq: real, canvas0: Canvas, encode: Encoder, mime: string,
                   calls0: seq<Call>, calls: seq<Call>, i: nat, canvas: Canvas, scale: real, c: Call)
    requires ShrinkInv(target, iq, canvas0, encode, mime, calls0, calls, i, canvas, scale)
    requires i < MAX_ITERATIONS
    requires calls0[|calls0| - 1].phase == QualityStep && calls0[|calls0| - 1].step + 1 == MAX_ITERATIONS
    requires c == Call(Downscale, i, ScaleCanvas(canvas, scale), MIN_QUALITY, encode(mime, ScaleCanvas(canvas, scale), MIN_QUALITY))
    ensures Trace(POLICY, target, iq, canvas0, calls + [c]) && Genuine(encode, mime, calls + [c])
    ensures BestIndex(POLICY, target, calls + [c]) == 0
    ensures c.size.Some? && !Fits(c, target) ==>
      ShrinkInv(target, iq, canvas0, encode, mime, calls0, calls + [c], i + 1, c.canvas, 0.8)
  {
    assert calls[..|calls|] == calls;
    assert Step(POLICY, target, iq, calls, c);
    TraceExtend(POLICY, target, iq, canvas0, calls, c);
    BestIndexExtend(POLICY, target, calls, c);
  }

  /**
   * Lines 132-144, on the first downscaled canvas that fits: the refinement
   * of the quality there, returning its best blob (the baseline if none of
   * its calls fits). Refinement calls report nothing.
   */
  method RefineOnFit(target: real, iq: real, canvas0: Canvas, encode: Encoder, mime: string, calls0: seq<Call>)
    returns (r: Result<Blob, string>, calls: seq<Call>)
    requires Trace(POLICY, target, iq, canvas0, calls0) && Genuine(encode, mime, calls0)
    requires calls0[|calls0| - 1].phase == Downscale && Fits(calls0[|calls0| - 1], target)
    ensures Genuine(encode, mime, calls)
    ensures Concluded(target, iq, canvas0, mime, r, calls)
    ensures Posted(Reporter(target), calls) == Posted(Reporter(target), calls0)
  {
    var best;
    calls, best := Run(POLICY, target, iq, canvas0, encode, mime, Refine, calls0);
    RefinePostsNothing(target, calls0, calls);
    if calls[|calls| - 1].size.None? {
      ConcludeFailure(target, iq, canvas0, mime, calls);
      r := Failure(NULL_BLOB_MESSAGE);
      return;
    }
    ConcludeRefine(target, iq, canvas0, mime, calls, best);
    r := Success(BlobOf(mime, calls[best]));
  }

  /** After MAX_ITERATIONS downscale misses the run ends with the last blob, as `Concluded` demands. */
  lemma ConcludeExhausted(target: real, iq: real, canvas0: Canvas, encode: Encoder, mime: string,
                          calls0: seq<Call>, calls: seq<Call>, canvas: Canvas, scale: real)
    requires ShrinkInv(target, iq, canvas0, encode, mime, calls0, calls, MAX_ITERATIONS, canvas, scale)
    ensures var best := BestIndex(POLICY, target, calls);
      var chosen := if Fits(calls[best], target) then best else |calls| - 1;
      calls[chosen].size.Some? && Concluded(target, iq, canvas0, mime, Success(BlobOf(mime, calls[chosen])), calls)
  {
    TraceLength(POLICY, target, iq, canvas0, calls);
    ProducedBeforeLast(POLICY, target, iq, canvas0, calls);
  }

  /** The log before downscale step `i`: 75 is reported before the first step, 77 + 2i after each miss. */
  predicate ShrinkLogged(target: real, calls: seq<Call>, i: nat, progress: seq<int>)
  {
    progress == [5, 20] + Posted(Reporter(target), calls) + (if i == 0 then [75] else []) &&
    Pending(progress) && progress[|progress| - 1] == 75 + 2 * i
  }

  /** The log after downscale step `i`: one more report if its blob misses, none otherwise. */
  lemma ShrinkLogStep(target: real, calls: seq<Call>, i: nat, progress: seq<int>, c: Call)
    requires ShrinkLogged(target, calls, i, progress)
    requires c.phase == Downscale && c.step == i && i < MAX_ITERATIONS
    ensures !(c.size.Some? && !Fits(c, target)) ==>
      progress == [5, 20] + Posted(Reporter(target), calls + [c]) && Pending(progress)
    ensures c.size.Some? && !Fits(c, target) ==>
      ShrinkLogged(target, calls + [c], i + 1, progress + [ScaleReport(i)])
  {
    PostedExtend(Reporter(target), calls, c);
    if c.size.Some? && !Fits(c, target) {
      PendingExtend(progress, ScaleReport(i));
    }
  }

  /**
   * Lines 118-157: downscale by 0.9, then by 0.8, at MIN_QUALITY; on the
   * first canvas that fits, refine the quality and return the best blob;
   * after MAX_ITERATIONS misses return the last blob.
   */
  method ShrinkAndRefine(target: real, iq: real, canvas0: Canvas, encode: Encoder, mime: string,
                         calls0: seq<Call>, progress0: seq<int>)
    returns (r: Result<Blob, string>, calls: seq<Call>, progress: seq<int>)
    requires Trace(POLICY, target, iq, canvas0, calls0) && Genuine(encode, mime, calls0)
    requires calls0[|calls0| - 1].size.Some?
    requires calls0[|calls0| - 1].phase == QualityStep && calls0[|calls0| - 1].step + 1 == MAX_ITERATIONS
    requires forall j | 0 <= j < |calls0| :: !Fits(calls0[j], target)
    requires BestIndex(POLICY, target, calls0) == 0
    requires progress0 == [5, 20] + Posted(Reporter(target), calls0) + [75] && Pending(progress0)
    ensures Genuine(encode, mime, calls)
    ensures Concluded(target, iq, canvas0, mime, r, calls)
    ensures Logged(target, r, calls, progress)
  {
    calls, progress := calls0, progress0;
    var canvas := calls0[|calls0| - 1].canvas;
    var scale := 0.9;
    var i := 0;
    while i < MAX_ITERATIONS
      invariant ShrinkInv(target, iq, canvas0, encode, mime, calls0, calls, i, canvas, scale)
      invariant ShrinkLogged(target, calls, i, progress)
    {
      var next := ScaleCanvas(canvas, scale);
      var s := encode(mime, next, MIN_QUALITY);
      var c := Call(Downscale, i, next, MIN_QUALITY, s);
      ShrinkStep(target, iq, canvas0, encode, mime, calls0, calls, i, canvas, scale, c);
      ShrinkLogStep(target, calls, i, progress, c);
      calls := calls + [c];
      canvas := next;
      if s.None? {
        TraceLength(POLICY, target, iq, canvas0, calls);
        r := Failure(NULL_BLOB_MESSAGE);
        return;
      }
      if Fits(c, target) {
        r, calls := RefineOnFit(target, iq, canvas0, encode, mime, calls);
        LogOutcome(target, r, calls, progress);
        progress := progress + Completion(r);
        return;
      }
      progress := progress + [ScaleReport(i)];
      scale := 0.8;
      i := i + 1;
    }
    ConcludeExhausted(target, iq, canvas0, encode, mime, calls0, calls, canvas, scale);
    CompleteLog(progress);
    ReportOfInteger(100);
    progress := progress + [Report(100.0)];
    var best := BestIndex(POLICY, target, calls);
    var chosen := if Fits(calls[best], target) then best else |calls| - 1;
    r := Success(BlobOf(mime, calls[chosen]));
  }

  /**
   * Lines 69-157, the run under a positive size limit: the baseline at the
   * initial quality, the quality search, then `ShrinkAndRefine`.
   */
  method CompressToTarget(target: real, iq: real, canvas: Canvas, encode: Encoder, mime: string, progress0: seq<int>)
    returns (r: Result<Blob, string>, calls: seq<Call>, progress: seq<int>)
    requires progress0 == [5, 20]
    ensures Genuine(encode, mime, calls)
    ensures Concluded(target, iq, canvas, mime, r, calls)
    ensures Logged(target, r, calls, progress)
  {
    ReportOfInteger(30);
    ReportOfInteger(100);
    progress := progress0;
    var size := encode(mime, canvas, iq);
    calls := [Call(Baseline, 0, canvas, iq, size)];
    TraceStart(POLICY, target, iq, canvas, calls[0]);
    if size.None? {
      r := Failure(NULL_BLOB_MESSAGE);
      return;
    }
    progress := progress + [Report(30.0)];
    if Fits(calls[0], target) {
      CompleteLog(progress);
      progress := progress + [Report(100.0)];
      r := Success(BlobOf(mime, calls[0]));
      return;
    }

    r, calls, progress := SearchThenShrink(target, iq, canvas, encode, mime, calls, progress);
  }

  /**
   * Lines 82-157, after a baseline that did not fit: the quality search on
   * the drawn canvas, its best blob if that fits, else `ShrinkAndRefine`.
   */
  method SearchThenShrink(target: real, iq: real, canvas: Canvas, encode: Encoder, mime: string,
                          calls0: seq<Call>, progress0: seq<int>)
    returns (r: Result<Blob, string>, calls: seq<Call>, progress: seq<int>)
    requires |calls0| == 1 && calls0[0] == Call(Baseline, 0, canvas, iq, calls0[0].size)
    requires calls0[0].size == encode(mime, canvas, iq) && calls0[0].size.Some? && !Fits(calls0[0], target)
    requires progress0 == [5, 20, 30]
    ensures Genuine(encode, mime, calls)
    ensures Concluded(target, iq, canvas, mime, r, calls)
    ensures Logged(target, r, calls, progress)
  {
    TraceStart(POLICY, target, iq, canvas, calls0[0]);
    // Lines 82-110: binary search for the quality on the drawn canvas.
    var searched, best := Run(POLICY, target, iq, canvas, encode, mime, QualityStep, calls0);
    r, calls, progress := EndSearch(target, iq, canvas, encode, mime, calls0, searched, best, progress0);
  }

  /** How a quality search that produced a blob at every call ends the run, or hands over to downscaling. */
  lemma EndOfSearch(target: real, iq: real, canvas: Canvas, encode: Encoder, mime: string,
                    calls0: seq<Call>, calls: seq<Call>, best: nat)
    requires |calls0| == 1 && calls0[0].phase == Baseline && !Fits(calls0[0], target)
    requires Searched(POLICY, target, iq, canvas, encode, mime, QualityStep, calls0, calls, best)
    requires calls[|calls| - 1].size.Some?
    ensures CloseEnough(calls[|calls| - 1], target) ==>
      Concluded(target, iq, canvas, mime, Success(BlobOf(mime, calls[|calls| - 1])), calls)
    ensures !CloseEnough(calls[|calls| - 1], target) && Fits(calls[best], target) ==>
      Concluded(target, iq, canvas, mime, Success(BlobOf(mime, calls[best])), calls)
    ensures !CloseEnough(calls[|calls| - 1], target) && !Fits(calls[best], target) ==>
      calls[|calls| - 1].phase == QualityStep && calls[|calls| - 1].step + 1 == MAX_ITERATIONS &&
      (forall j | 0 <= j < |calls| :: !Fits(calls[j], target)) && best == 0
  {
    var last := calls[|calls| - 1];
    assert last.phase == QualityStep;
    if CloseEnough(last, target) {
      ConcludeFitting(target, iq, canvas, mime, calls, |calls| - 1);
    } else if Fits(calls[best], target) {
      ConcludeFitting(target, iq, canvas, mime, calls, best);
    }
  }

  /**
   * The log after the quality search: 5, 20, 30, then one report per search
   * call that produced a blob; pending, ending at most at 70.
   */
  lemma SearchLogged(target: real, calls: seq<Call>, n: nat)
    requires n <= MAX_ITERATIONS
    requires Posted(Reporter(target), calls) == [30] + Reports(SearchReport, n)
    ensures var log := [5, 20, 30] + Reports(SearchReport, n);
      log == [5, 20] + Posted(Reporter(target), calls) && Pending(log) && log[|log| - 1] <= 70
  {
    SearchLog(n);
    var tail := Reports(SearchReport, n);
    assert [5, 20, 30] == [5, 20] + [30];
    assert [5, 20] + [30] + tail == [5, 20] + ([30] + tail);
  }

  /** The values the calls of that search post: 30, then one value per call that produced a blob. */
  lemma SearchPosted(target: real, iq: real, canvas: Canvas, encode: Encoder, mime: string,
                     calls0: seq<Call>, calls: seq<Call>, best: nat)
    requires |calls0| == 1 && calls0[0].phase == Baseline && calls0[0].size.Some? && !Fits(calls0[0], target)
    requires Searched(POLICY, target, iq, canvas, encode, mime, QualityStep, calls0, calls, best)
    ensures ReportedCalls(calls0, calls) <= MAX_ITERATIONS
    ensures Posted(Reporter(target), calls) == [30] + Reports(SearchReport, ReportedCalls(calls0, calls))
  {
    var f := Reporter(target);
    forall k | 1 <= k < |calls|
      ensures f(calls[k]) == if calls[k].size.Some? then [SearchReport(calls[k].step)] else []
    {
      SearchCallReports(target, calls[k]);
    }
    PostedSearch(POLICY, target, iq, canvas, f, SearchReport, calls);
    assert calls[..1] == calls0;
    assert Posted(f, calls0) == [30];
  }

  /** Once the result is known, a pending log of the run's calls ends as `Logged` says. */
  lemma LogOutcome(target: real, r: Result<Blob, string>, calls: seq<Call>, progress: seq<int>)
    requires progress == [5, 20] + Posted(Reporter(target), calls) && Pending(progress)
    ensures Logged(target, r, calls, progress + Completion(r))
  {
    if r.Success? {
      CompleteLog(progress);
    } else {
      assert progress + Completion(r) == progress;
    }
  }

  /** Refinement calls post nothing: a refined run has posted what it had before. */
  lemma RefinePostsNothing(target: real, calls0: seq<Call>, calls: seq<Call>)
    requires |calls0| <= |calls| && calls[..|calls0|] == calls0
    requires forall k | |calls0| <= k < |calls| :: calls[k].phase == Refine
    ensures Posted(Reporter(target), calls) == Posted(Reporter(target), calls0)
  {
    PostedQuiet(Reporter(target), calls, |calls0|);
  }

  /** A quality-search call posts `SearchReport` of its counter when it produced a blob. */
  lemma SearchCallReports(target: real, c: Call)
    requires c.phase == QualityStep
    ensures Reporter(target)(c) == if c.size.Some? then [SearchReport(c.step)] else []
  {
  }

  /** Lines 111-157 of `SearchThenShrink`: what follows the quality search. */
  method EndSearch(target: real, iq: real, canvas: Canvas, encode: Encoder, mime: string,
                   calls0: seq<Call>, searched: seq<Call>, best: nat, progress0: seq<int>)
    returns (r: Result<Blob, string>, calls: seq<Call>, progress: seq<int>)
    requires |calls0| == 1 && calls0[0].phase == Baseline && calls0[0].size.Some? && !Fits(calls0[0], target)
    requires Searched(POLICY, target, iq, canvas, encode, mime, QualityStep, calls0, searched, best)
    requires progress0 == [5, 20, 30]
    ensures Genuine(encode, mime, calls)
    ensures Concluded(target, iq, canvas, mime, r, calls)
    ensures Logged(target, r, calls, progress)
  {
    ReportOfInteger(75);
    ReportOfInteger(100);
    calls := searched;
    SearchPosted(target, iq, canvas, encode, mime, calls0, calls, best);
    SearchLogged(target, calls, ReportedCalls(calls0, calls));
    progress := progress0 + Reports(SearchReport, ReportedCalls(calls0, calls));
    var last := calls[|calls| - 1];
    if last.size.None? {
      ConcludeFailure(target, iq, canvas, mime, calls);
      r := Failure(NULL_BLOB_MESSAGE);
      return;
    }
    EndOfSearch(target, iq, canvas, encode, mime, calls0, calls, best);
    if CloseEnough(last, target) {
      CompleteLog(progress);
      progress := progress + [Report(100.0)];
      r := Success(BlobOf(mime, last));
      return;
    }

    // Lines 112-116: the best blob of the search, if it fits.
    if Fits(calls[best], target) {
      CompleteLog(progress);
      progress := progress + [Report(100.0)];
      r := Success(BlobOf(mime, calls[best]));
      return;
    }
    PendingExtend(progress, Report(75.0));
    progress := progress + [Report(75.0)];
    r, calls, progress := ShrinkAndRefine(target, iq, canvas, encode, mime, calls, progress);
  }

  /**
   * `smartCompress`. Without a size limit: one call at the initial quality on
   * the drawn canvas, progress 5, 20, and 100 on success. With one:
   * `Concluded` (a trace of the shared search that stops only as `Finished`
   * says, with the returned blob and the cases of an oversized result pinned
   * down) and `Logged` (the progress reported because of each call). A null
   * blob aborts with `NULL_BLOB_MESSAGE` at the call that produced it.
   */
  method SmartCompress(image: SourceImage, options: Options, encode: Encoder)
    returns (r: Result<Blob, string>, calls: seq<Call>, progress: seq<int>)
    requires image.width > 0 && image.height > 0
    ensures |calls| >= 1 && Genuine(encode, OutputType(options.fileType, image.mimeType), calls)
    ensures !HasLimit(options.maxSizeMB) ==>
      calls == [Call(Single, 0, DrawnCanvas(image, options), InitialQuality(options), calls[0].size)] &&
      (r.Failure? <==> calls[0].size.None?) &&
      (r.Failure? ==> r.error == NULL_BLOB_MESSAGE) &&
      (r.Success? ==> r.value == BlobOf(OutputType(options.fileType, image.mimeType), calls[0])) &&
      progress == [5, 20] + Completion(r)
    ensures HasLimit(options.maxSizeMB) ==>
      Concluded(TargetBytes(options.maxSizeMB.value), InitialQuality(options), DrawnCanvas(image, options),
        OutputType(options.fileType, image.mimeType), r, calls) &&
      Logged(TargetBytes(options.maxSizeMB.value), r, calls, progress)
  {
    var mime := OutputType(options.fileType, image.mimeType);
    var iq := InitialQuality(options);
    ReportOfInteger(5);
    ReportOfInteger(20);
    ReportOfInteger(100);
    progress := [Report(5.0)];
    var canvas := DrawnCanvas(image, options);
    progress := progress + [Report(20.0)];

    if !HasLimit(options.maxSizeMB) {
      var size := encode(mime, canvas, iq);
      calls := [Call(Single, 0, canvas, iq, size)];
      if size.None? {
        r := Failure(NULL_BLOB_MESSAGE);
        return;
      }
      progress := progress + [Report(100.0)];
      r := Success(BlobOf(mime, calls[0]));
      return;
    }

    r, calls, progress := CompressToTarget(TargetBytes(options.maxSizeMB.value), iq, canvas, encode, mime, progress);
  }
}
